/**
 * The calculator's point budget: the skill points a character level grants, and the sum
 * of the levels allocated in an allocation map.
 */
module CalcPoints {

  /** The highest character level. */
  const MaxCharLevel: int := 90

  /** Skill points available at each character level, ten levels per row. */
  const Levels1To10: seq<nat> := [0, 1, 2, 3, 4, 5, 6, 7, 8, 11]
  const Levels11To20: seq<nat> := [12, 13, 14, 15, 16, 17, 18, 19, 20, 23]
  const Levels21To30: seq<nat> := [24, 25, 26, 27, 28, 29, 30, 31, 32, 35]
  const Levels31To40: seq<nat> := [36, 37, 38, 39, 40, 41, 42, 43, 44, 47]
  const Levels41To50: seq<nat> := [48, 49, 50, 51, 52, 53, 54, 55, 56, 60]
  const Levels51To60: seq<nat> := [61, 62, 63, 64, 65, 66, 67, 68, 69, 73]
  const Levels61To70: seq<nat> := [74, 75, 76, 77, 78, 79, 80, 81, 82, 85]
  const Levels71To80: seq<nat> := [86, 87, 88, 89, 90, 91, 92, 93, 94, 97]
  const Levels81To90: seq<nat> := [98, 99, 100, 101, 102, 103, 104, 105, 106, 109]

  /** Skill points available at character level `i + 1`. */
  const LevelPoints: seq<nat> :=
    Levels1To10 + Levels11To20 + Levels21To30 + Levels31To40 + Levels41To50
    + Levels51To60 + Levels61To70 + Levels71To80 + Levels81To90

  /** Free points at level 1, so the basic skills can be allocated. */
  const StarterSkillPoints: nat := 1

  /** The character level the calculator works with: the entered level clamped to `[1, 90]`. */
  function CharLevel(entered: int): (lvl: int)
    ensures 1 <= lvl <= MaxCharLevel
    ensures 1 <= entered <= MaxCharLevel ==> lvl == entered
    ensures entered < 1 ==> lvl == 1
    ensures entered > MaxCharLevel ==> lvl == MaxCharLevel
  {
    if entered < 1 then 1 else if entered > MaxCharLevel then MaxCharLevel else entered
  }

  /** The cap a points table gives: the entry for the clamped level, plus the starter points at level 1. */
  function CapFrom(table: seq<nat>, entered: int): nat
    requires |table| > 0
  {
    var lvl := CharLevel(entered);
    var idx := if lvl - 1 < 0 then 0 else if lvl - 1 > |table| - 1 then |table| - 1 else lvl - 1;
    table[idx] + if lvl == 1 then StarterSkillPoints else 0
  }

  /** `getSkillPointsCap` */
  function SkillPointsCap(entered: int): nat
  {
    CapFrom(LevelPoints, entered)
  }

  /** Each entry is larger than the one before. */
  predicate Rising(s: seq<nat>) {
    forall i :: 0 < i < |s| ==> s[i - 1] < s[i]
  }

  lemma RisingJoin(a: seq<nat>, b: seq<nat>)
    requires Rising(a) && Rising(b) && |a| > 0 && |b| > 0 && a[|a| - 1] < b[0]
    ensures Rising(a + b)
  {
    forall i | 0 < i < |a + b| ensures (a + b)[i - 1] < (a + b)[i] {
      if i == |a| {} else if i < |a| {} else {}
    }
  }

  lemma RowsRising()
    ensures Rising(Levels1To10) && Rising(Levels11To20) && Rising(Levels21To30)
    ensures Rising(Levels31To40) && Rising(Levels41To50) && Rising(Levels51To60)
    ensures Rising(Levels61To70) && Rising(Levels71To80) && Rising(Levels81To90)
  {
  }

  /** The whole table rises, one row after the other. */
  lemma TableRising()
    ensures |LevelPoints| == MaxCharLevel && Rising(LevelPoints)
  {
    RowsRising();
    RisingJoin(Levels1To10, Levels11To20);
    RisingJoin(Levels1To10 + Levels11To20, Levels21To30);
    RisingJoin(Levels1To10 + Levels11To20 + Levels21To30, Levels31To40);
    RisingJoin(Levels1To10 + Levels11To20 + Levels21To30 + Levels31To40, Levels41To50);
    RisingJoin(Levels1To10 + Levels11To20 + Levels21To30 + Levels31To40 + Levels41To50, Levels51To60);
    RisingJoin(Levels1To10 + Levels11To20 + Levels21To30 + Levels31To40 + Levels41To50 + Levels51To60, Levels61To70);
    RisingJoin(Levels1To10 + Levels11To20 + Levels21To30 + Levels31To40 + Levels41To50 + Levels51To60 + Levels61To70, Levels71To80);
    RisingJoin(Levels1To10 + Levels11To20 + Levels21To30 + Levels31To40 + Levels41To50 + Levels51To60 + Levels61To70 + Levels71To80, Levels81To90);
  }

  /** With a rising table of 90 entries, the cap never drops as the level rises and is at least 1. */
  lemma CapFromMonotone(table: seq<nat>, a: int, b: int)
    requires |table| == MaxCharLevel && Rising(table) && a <= b
    ensures 1 <= CapFrom(table, a) <= CapFrom(table, b)
  {
    var la, lb := CharLevel(a), CharLevel(b);
    if la > 1 {
      assert table[0] < table[1];
      if la > 2 { RisingMonotone(table, 1, la - 1); }
    }
    if la < lb {
      if la == 1 {
        if lb > 2 { RisingMonotone(table, 1, lb - 1); }
      } else {
        RisingMonotone(table, la - 1, lb - 1);
      }
    }
  }

  /** A rising sequence is strictly increasing between any two positions. */
  lemma {:induction false} RisingMonotone(s: seq<nat>, i: nat, j: nat)
    requires Rising(s) && i < j < |s|
    ensures s[i] < s[j]
    decreases j - i
  {
    if i < j - 1 {
      RisingMonotone(s, i, j - 1);
    }
  }

  /**
   * A higher entered level never lowers the cap, and every level has at least one point:
   * level 1 has only the starter point, level 2 the first point of the table.
   */
  lemma CapMonotone(a: int, b: int)
    requires a <= b
    ensures 1 <= SkillPointsCap(a) <= SkillPointsCap(b)
  {
    TableRising();
    CapFromMonotone(LevelPoints, a, b);
  }

  // ---------------------------------------------------------------------------
  // Sums over an allocation map

  /** The sum of the values of `m` under the keys `ks`. */
  ghost function SumOver(m: map<string, nat>, ks: set<string>): nat
    requires ks <= m.Keys
    decreases ks
  {
    if ks == {} then 0
    else
      var k :| k in ks;
      m[k] + SumOver(m, ks - {k})
  }

  /** The sum of the levels in an allocation map. */
  ghost function Total(m: map<string, nat>): nat
  {
    SumOver(m, m.Keys)
  }

  /** The sum can start from any key. */
  lemma {:induction false} SumRemove(m: map<string, nat>, ks: set<string>, k: string)
    requires ks <= m.Keys && k in ks
    ensures SumOver(m, ks) == m[k] + SumOver(m, ks - {k})
    decreases ks
  {
    var j :| j in ks && SumOver(m, ks) == m[j] + SumOver(m, ks - {j});
    if j != k {
      SumRemove(m, ks - {j}, k);
      SumRemove(m, ks - {k}, j);
      assert (ks - {j}) - {k} == (ks - {k}) - {j};
    }
  }

  /** The sum under `ks` depends only on the values under `ks`. */
  lemma {:induction false} SumFrame(m: map<string, nat>, m': map<string, nat>, ks: set<string>)
    requires ks <= m.Keys && ks <= m'.Keys
    requires forall k :: k in ks ==> m[k] == m'[k]
    ensures SumOver(m, ks) == SumOver(m', ks)
    decreases ks
  {
    if ks != {} {
      var k :| k in ks && SumOver(m, ks) == m[k] + SumOver(m, ks - {k});
      SumFrame(m, m', ks - {k});
      SumRemove(m', ks, k);
    }
  }

  /** Setting one key changes the sum by the difference. */
  lemma TotalUpdate(m: map<string, nat>, k: string, v: nat)
    ensures Total(m[k := v]) == Total(m - {k}) + v
    ensures Total(m) == Total(m - {k}) + (if k in m then m[k] else 0)
  {
    var m' := m[k := v];
    SumRemove(m', m'.Keys, k);
    assert m'.Keys - {k} == (m - {k}).Keys;
    SumFrame(m', m - {k}, (m - {k}).Keys);
    if k in m {
      SumRemove(m, m.Keys, k);
      assert m.Keys - {k} == (m - {k}).Keys;
      SumFrame(m, m - {k}, (m - {k}).Keys);
    } else {
      assert m - {k} == m;
    }
  }

  /** `countAllocated`: add up the value of every key. */
  method CountAllocated(m: map<string, nat>) returns (sum: nat)
    ensures sum == Total(m)
  {
    sum := 0;
    var rest := m.Keys;
    while rest != {}
      invariant rest <= m.Keys
      invariant sum + SumOver(m, rest) == Total(m)
      decreases rest
    {
      var k :| k in rest;
      SumRemove(m, rest, k);
      sum := sum + m[k];
      rest := rest - {k};
    }
  }
}
