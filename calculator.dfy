/**
 * The calculator's allocation state and its rules: when a skill may be raised or lowered,
 * what the `+`/`-` buttons of skills and DNA do to the allocation, and the resets on
 * choosing a job or spec. The character level is the number entered in the level box.
 */
module Calculator {
  import opened Wrappers
  import opened Text
  import opened CanonicalStore
  import opened CalcPoints
  import opened CalcRequirements

  /** Allocated levels by id, as in `allocated.skills` and `allocated.dna`. */
  type Alloc = map<string, nat>

  /** `map[id] || 0` */
  function Get(m: Alloc, id: string): nat
  {
    if id in m then m[id] else 0
  }

  /** No key is kept at level 0. */
  predicate Positive(m: Alloc) {
    forall k :: k in m ==> m[k] > 0
  }

  /** The level a skill or DNA shows when the record gives none. */
  const FallbackMaxLevel: int := 10

  /** `s.maxLevel || 10` */
  function MaxLevelOf(s: Entry): int
  {
    if s.maxLevel == 0 then FallbackMaxLevel else s.maxLevel
  }

  /** `r.level || 1` */
  function LevelOr1(p: Prereq): nat
  {
    if p.level.Some? && p.level.value != 0 then p.level.value else 1
  }

  /** `r.name` is a non-empty string. */
  predicate HasName(p: Prereq) {
    p.name.Some? && p.name.value != ""
  }

  // ---------------------------------------------------------------------------
  // `canIncrease`

  /**
   * The character level the `lvlReq` list asks for before raising a skill from `cur`: the entry
   * at `cur`, clamped to the list, when it is a number.
   */
  function NeededCharLevel(s: Entry, cur: nat): Option<nat>
  {
    if s.lvlReq.None? || |s.lvlReq.value| == 0 then None
    else
      var arr := s.lvlReq.value;
      arr[if cur > |arr| - 1 then |arr| - 1 else cur]
  }

  /**
   * One prerequisite blocks a raise: a skill prerequisite whose skill is allocated below its
   * level, or a job prerequisite (a name and a level, no id) above the character level.
   */
  predicate PrereqBlocks(alloc: Alloc, p: Prereq, charLvl: int) {
    if HasId(p) then Get(alloc, p.id.value) < LevelOr1(p)
    else p.level.Some? && p.level.value != 0 && HasName(p) && charLvl < p.level.value
  }

  /** `canIncrease(s)` with the allocation `alloc` and the entered character level. */
  ghost predicate CanIncrease(alloc: Alloc, s: Entry, entered: int) {
    var cur := Get(alloc, s.id);
    var need := NeededCharLevel(s, cur);
    Total(alloc) < SkillPointsCap(entered)
    && cur < MaxLevelOf(s)
    && !(need.Some? && CharLevel(entered) < need.value)
    && (s.prereqs.Some? ==>
          forall k :: k in s.prereqs.value ==> !PrereqBlocks(alloc, s.prereqs.value[k], CharLevel(entered)))
  }

  /** `canIncrease`: the checks in the order the calculator makes them. */
  method CheckIncrease(alloc: Alloc, s: Entry, entered: int) returns (ok: bool)
    ensures ok == CanIncrease(alloc, s, entered)
  {
    var cap := SkillPointsCap(entered);
    var used := CountAllocated(alloc);
    if used >= cap {
      return false;
    }
    var cur := Get(alloc, s.id);
    if cur >= MaxLevelOf(s) {
      return false;
    }
    var charLvl := CharLevel(entered);
    if s.lvlReq.Some? {
      var reqArr := s.lvlReq.value;
      var nextLevel := cur + 1;
      var idx := if |reqArr| - 1 < nextLevel - 1 then |reqArr| - 1 else nextLevel - 1;
      idx := if idx < 0 then 0 else idx;
      if idx < |reqArr| && reqArr[idx].Some? && charLvl < reqArr[idx].value {
        return false;
      }
    }
    var reqs := if s.prereqs.Some? then s.prereqs.value else map[];
    var rest := reqs.Keys;
    while rest != {}
      invariant rest <= reqs.Keys
      invariant forall k :: k in reqs && k !in rest ==> !PrereqBlocks(alloc, reqs[k], charLvl)
      decreases rest
    {
      var k :| k in rest;
      var r := reqs[k];
      if r.id.Some? && r.id.value != "" {
        if Get(alloc, r.id.value) < LevelOr1(r) {
          return false;
        }
      } else if r.level.Some? && r.level.value != 0 && r.name.Some? && r.name.value != "" {
        if charLvl < r.level.value {
          return false;
        }
      }
      rest := rest - {k};
    }
    return true;
  }

  /** A raise is refused when the points are spent or the skill is at its maximum. */
  lemma IncreaseRefused(alloc: Alloc, s: Entry, entered: int)
    requires Total(alloc) >= SkillPointsCap(entered) || Get(alloc, s.id) >= MaxLevelOf(s)
    ensures !CanIncrease(alloc, s, entered)
  {
  }

  /** A raise is refused while a skill prerequisite is allocated below its level. */
  lemma IncreaseNeedsPrereq(alloc: Alloc, s: Entry, entered: int, k: string)
    requires s.prereqs.Some? && k in s.prereqs.value
    requires HasId(s.prereqs.value[k]) && Get(alloc, s.prereqs.value[k].id.value) < LevelOr1(s.prereqs.value[k])
    ensures !CanIncrease(alloc, s, entered)
  {
    assert PrereqBlocks(alloc, s.prereqs.value[k], CharLevel(entered));
  }

  // ---------------------------------------------------------------------------
  // `canDecrease`

  /** The prerequisite refers to skill `s`, by id or by normalised name. */
  predicate RefersTo(p: Prereq, s: Entry) {
    (HasId(p) && p.id.value == s.id) || (HasName(p) && NormalizeName(p.name.value) == NormalizeName(s.name))
  }

  /** Every prerequisite of `dep` that refers to `s` is met with `s` at `level`. */
  predicate Allows(dep: Entry, s: Entry, level: int) {
    dep.prereqs.Some? ==>
      forall k :: k in dep.prereqs.value && RefersTo(dep.prereqs.value[k], s) ==> LevelOr1(dep.prereqs.value[k]) <= level
  }

  /** `skills.find(x => x.id === id)`: the first skill with that id. */
  function FindById(skills: seq<Entry>, id: string): (r: Option<Entry>)
    ensures r.None? <==> forall i :: 0 <= i < |skills| ==> skills[i].id != id
    ensures r.Some? ==> r.value.id == id && r.value in skills
    ensures r.Some? ==> exists i :: 0 <= i < |skills| && skills[i] == r.value && forall j :: 0 <= j < i ==> skills[j].id != id
  {
    if |skills| == 0 then None
    else if skills[0].id == id then
      assert skills[0] == skills[0];
      Some(skills[0])
    else
      var r := FindById(skills[1..], id);
      assert forall i :: 1 <= i < |skills| ==> skills[i] == skills[1..][i - 1];
      if r.Some? then
        var i :| 0 <= i < |skills[1..]| && skills[1..][i] == r.value && forall j :: 0 <= j < i ==> skills[1..][j].id != id;
        assert skills[i + 1] == r.value;
        r
      else r
  }

  /**
   * `canDecrease(s)`: the skill is allocated, and every invested skill whose prerequisites
   * name `s` by id is still satisfied, read through the first skill carrying its id, with
   * `s` one level lower.
   */
  predicate CanDecrease(alloc: Alloc, s: Entry, skills: seq<Entry>) {
    var cur := Get(alloc, s.id);
    cur > 0
    && forall i :: 0 <= i < |skills| && s.id in RefIds(skills[i]) && Get(alloc, skills[i].id) > 0 ==>
         FindById(skills, skills[i].id).Some? && Allows(FindById(skills, skills[i].id).value, s, cur - 1)
  }

  /** The largest level a dependent's prerequisites ask of `s`, 0 when none refers to it. */
  method NeededLevel(dep: Entry, s: Entry) returns (needed: nat)
    ensures Allows(dep, s, needed)
    ensures needed > 0 ==>
      dep.prereqs.Some? && exists k :: k in dep.prereqs.value && RefersTo(dep.prereqs.value[k], s) && LevelOr1(dep.prereqs.value[k]) == needed
  {
    needed := 0;
    var reqs := if dep.prereqs.Some? then dep.prereqs.value else map[];
    var rest := reqs.Keys;
    while rest != {}
      invariant rest <= reqs.Keys
      invariant forall k :: k in reqs && k !in rest && RefersTo(reqs[k], s) ==> LevelOr1(reqs[k]) <= needed
      invariant needed > 0 ==> exists k :: k in reqs && RefersTo(reqs[k], s) && LevelOr1(reqs[k]) == needed
      decreases rest
    {
      var k :| k in rest;
      var r := reqs[k];
      if (r.id.Some? && r.id.value != "" && r.id.value == s.id)
        || (r.name.Some? && r.name.value != "" && NormalizeName(r.name.value) == NormalizeName(s.name))
      {
        needed := if needed < LevelOr1(r) then LevelOr1(r) else needed;
      }
      rest := rest - {k};
    }
  }

  /** `(reverseDeps[id] || [])` */
  function Listed(deps: Deps, id: string): seq<string>
  {
    if id in deps then deps[id] else []
  }

  /** Whether the invested dependent `depId` still allows `s` at `newLevel`. */
  predicate DependentAllows(alloc: Alloc, s: Entry, skills: seq<Entry>, depId: string, newLevel: int) {
    Get(alloc, depId) > 0 && FindById(skills, depId).Some? ==> Allows(FindById(skills, depId).value, s, newLevel)
  }

  /** One turn of `canDecrease`'s loop: the dependent `depId`, if invested, needs no more than `newLevel`. */
  method CheckDependent(alloc: Alloc, s: Entry, skills: seq<Entry>, depId: string, newLevel: nat) returns (ok: bool)
    ensures ok == DependentAllows(alloc, s, skills, depId, newLevel)
  {
    if Get(alloc, depId) <= 0 {
      return true;
    }
    var dependentSkill := FindById(skills, depId);
    if dependentSkill.None? {
      return true;
    }
    var needed := NeededLevel(dependentSkill.value, s);
    if newLevel < needed {
      var reqs := dependentSkill.value.prereqs.value;
      var k :| k in reqs && RefersTo(reqs[k], s) && LevelOr1(reqs[k]) == needed;
      return false;
    }
    return true;
  }

  /** `canDecrease`, walking the dependents the reverse map lists for `s`. */
  method CheckDecrease(alloc: Alloc, s: Entry, skills: seq<Entry>, reverseDeps: Deps) returns (ok: bool)
    requires DependentsOf(reverseDeps, ReversePairs(skills))
    ensures ok == CanDecrease(alloc, s, skills)
  {
    var cur := Get(alloc, s.id);
    if cur <= 0 {
      return false;
    }
    var newLevel := cur - 1;
    var dependents := Listed(reverseDeps, s.id);
    ok := CheckDependents(alloc, s, skills, dependents, newLevel);
    if ok {
      DependentsAllow(alloc, s, skills, reverseDeps, newLevel);
    } else {
      var u :| 0 <= u < |dependents| && !DependentAllows(alloc, s, skills, dependents[u], newLevel);
      DependentBlocks(alloc, s, skills, reverseDeps, dependents[u], newLevel);
    }
  }

  /** The loop of `canDecrease` over the listed dependents: stop at the first that refuses. */
  method CheckDependents(alloc: Alloc, s: Entry, skills: seq<Entry>, dependents: seq<string>, newLevel: nat)
    returns (ok: bool)
    ensures ok <==> forall u :: 0 <= u < |dependents| ==> DependentAllows(alloc, s, skills, dependents[u], newLevel)
  {
    var t := 0;
    while t < |dependents|
      invariant 0 <= t <= |dependents|
      invariant forall u :: 0 <= u < t ==> DependentAllows(alloc, s, skills, dependents[u], newLevel)
    {
      var depOk := CheckDependent(alloc, s, skills, dependents[t], newLevel);
      if !depOk {
        return false;
      }
      t := t + 1;
    }
    return true;
  }

  /** A listed dependent that refuses the lower level refuses the decrease. */
  lemma DependentBlocks(alloc: Alloc, s: Entry, skills: seq<Entry>, reverseDeps: Deps, depId: string, newLevel: int)
    requires DependentsOf(reverseDeps, ReversePairs(skills))
    requires s.id in reverseDeps && depId in reverseDeps[s.id]
    requires newLevel == Get(alloc, s.id) - 1
    requires !DependentAllows(alloc, s, skills, depId, newLevel)
    ensures !CanDecrease(alloc, s, skills)
  {
    ReverseMapMeaning(skills, reverseDeps, s.id, depId);
  }

  /** When every listed dependent allows the lower level, the decrease is allowed. */
  lemma DependentsAllow(alloc: Alloc, s: Entry, skills: seq<Entry>, reverseDeps: Deps, newLevel: int)
    requires DependentsOf(reverseDeps, ReversePairs(skills))
    requires Get(alloc, s.id) > 0 && newLevel == Get(alloc, s.id) - 1
    requires forall u :: 0 <= u < |Listed(reverseDeps, s.id)| ==>
      DependentAllows(alloc, s, skills, Listed(reverseDeps, s.id)[u], newLevel)
    ensures CanDecrease(alloc, s, skills)
  {
    forall i | 0 <= i < |skills| && s.id in RefIds(skills[i]) && Get(alloc, skills[i].id) > 0
      ensures FindById(skills, skills[i].id).Some? && Allows(FindById(skills, skills[i].id).value, s, newLevel)
    {
      ReverseMapMeaning(skills, reverseDeps, s.id, skills[i].id);
      var dependents := Listed(reverseDeps, s.id);
      var u :| 0 <= u < |dependents| && dependents[u] == skills[i].id;
      assert DependentAllows(alloc, s, skills, dependents[u], newLevel);
    }
  }

  // ---------------------------------------------------------------------------
  // The effect of the buttons

  /** The skill `+` button: one more level when `canIncrease` holds, else nothing. */
  ghost function AfterIncrease(alloc: Alloc, s: Entry, entered: int): Alloc
  {
    if CanIncrease(alloc, s, entered) then alloc[s.id := Get(alloc, s.id) + 1] else alloc
  }

  /** A `-` button's update: one level less when above 0, and the key dropped at 0. */
  function Lowered(m: Alloc, id: string): Alloc
  {
    var m1 := if Get(m, id) > 0 then m[id := Get(m, id) - 1] else m;
    if id in m1 && m1[id] == 0 then m1 - {id} else m1
  }

  /** The skill `-` button: lowered when `canDecrease` holds, else nothing. */
  function AfterDecrease(alloc: Alloc, s: Entry, skills: seq<Entry>): Alloc
  {
    if CanDecrease(alloc, s, skills) then Lowered(alloc, s.id) else alloc
  }

  /** The DNA `+` button: one more level below the maximum, with no points cap. */
  function AfterDnaIncrease(dna: Alloc, d: Entry): Alloc
  {
    if Get(dna, d.id) < MaxLevelOf(d) then dna[d.id := Get(dna, d.id) + 1] else dna
  }

  /**
   * A raise adds exactly one point to the skill when allowed and leaves every other skill as it
   * was; starting within the cap and the skill's maximum, it stays within both.
   */
  lemma IncreaseKeepsBounds(alloc: Alloc, s: Entry, entered: int)
    ensures Total(AfterIncrease(alloc, s, entered)) == Total(alloc) + (if CanIncrease(alloc, s, entered) then 1 else 0)
    ensures forall id :: id != s.id ==> Get(AfterIncrease(alloc, s, entered), id) == Get(alloc, id)
    ensures Total(alloc) <= SkillPointsCap(entered) ==> Total(AfterIncrease(alloc, s, entered)) <= SkillPointsCap(entered)
    ensures Get(alloc, s.id) <= MaxLevelOf(s) ==> Get(AfterIncrease(alloc, s, entered), s.id) <= MaxLevelOf(s)
    ensures Positive(alloc) ==> Positive(AfterIncrease(alloc, s, entered))
  {
    var cur := Get(alloc, s.id);
    TotalUpdate(alloc, s.id, cur + 1);
    if s.id in alloc {
      assert alloc - {s.id} + map[s.id := cur] == alloc;
    } else {
      assert alloc - {s.id} == alloc;
    }
  }

  /**
   * Lowering takes one point off an allocated id and none off any other, keeps every other id,
   * drops the key when it reaches 0, and keeps no key at 0.
   */
  lemma LoweredMeaning(m: Alloc, id: string)
    ensures Get(Lowered(m, id), id) == if Get(m, id) > 0 then Get(m, id) - 1 else 0
    ensures id in Lowered(m, id) <==> Get(m, id) > 1
    ensures forall k :: k != id ==> Get(Lowered(m, id), k) == Get(m, k) && (k in Lowered(m, id) <==> k in m)
    ensures Total(Lowered(m, id)) == Total(m) - (if Get(m, id) > 0 then 1 else 0)
    ensures Positive(m) ==> Positive(Lowered(m, id))
  {
    var cur := Get(m, id);
    TotalUpdate(m, id, if cur > 0 then cur - 1 else 0);
    var r := Lowered(m, id);
    if cur > 0 {
      if cur == 1 {
        assert r == m - {id};
        TotalUpdate(m - {id}, id, 0);
        assert (m - {id}) - {id} == m - {id};
      }
    } else if id in m {
      assert r == m - {id};
    } else {
      assert r == m && m - {id} == m;
    }
  }

  /**
   * After an allowed decrease, every invested dependent that names `s` is still satisfied by
   * the new level of `s`.
   */
  lemma DecreaseKeepsDependents(alloc: Alloc, s: Entry, skills: seq<Entry>, i: nat)
    requires CanDecrease(alloc, s, skills)
    requires i < |skills| && s.id in RefIds(skills[i]) && Get(alloc, skills[i].id) > 0
    ensures FindById(skills, skills[i].id).Some?
    ensures Allows(FindById(skills, skills[i].id).value, s, Get(AfterDecrease(alloc, s, skills), s.id))
  {
    LoweredMeaning(alloc, s.id);
  }

  /** A DNA raise never passes the maximum, adds at most one level and needs no points. */
  lemma DnaIncreaseBounds(dna: Alloc, d: Entry)
    ensures Get(AfterDnaIncrease(dna, d), d.id) == if Get(dna, d.id) < MaxLevelOf(d) then Get(dna, d.id) + 1 else Get(dna, d.id)
    ensures Get(dna, d.id) <= MaxLevelOf(d) ==> Get(AfterDnaIncrease(dna, d), d.id) <= MaxLevelOf(d)
    ensures forall id :: id != d.id ==> Get(AfterDnaIncrease(dna, d), id) == Get(dna, id)
    ensures Total(AfterDnaIncrease(dna, d)) <= Total(dna) + 1
    ensures Positive(dna) ==> Positive(AfterDnaIncrease(dna, d))
  {
    var cur := Get(dna, d.id);
    TotalUpdate(dna, d.id, cur + 1);
  }

  // ---------------------------------------------------------------------------
  // The refusal message's lookup of prerequisites named without an id

  /** `skills.find(x => norm(x.name) === n)`: the first skill whose normalised name is `n`. */
  function FindByName(skills: seq<Entry>, n: string): (r: Option<Entry>)
    ensures r.None? <==> forall i :: 0 <= i < |skills| ==> NormalizeName(skills[i].name) != n
    ensures r.Some? ==> exists i :: 0 <= i < |skills| && skills[i] == r.value && NormalizeName(r.value.name) == n
                                   && forall j :: 0 <= j < i ==> NormalizeName(skills[j].name) != n
  {
    if |skills| == 0 then None
    else if NormalizeName(skills[0].name) == n then
      assert skills[0] == skills[0];
      Some(skills[0])
    else
      var r := FindByName(skills[1..], n);
      assert forall i :: 1 <= i < |skills| ==> skills[i] == skills[1..][i - 1];
      if r.Some? then
        var i :| 0 <= i < |skills[1..]| && skills[1..][i] == r.value && NormalizeName(r.value.name) == n
                 && forall j :: 0 <= j < i ==> NormalizeName(skills[1..][j].name) != n;
        assert skills[i + 1] == r.value;
        r
      else r
  }

  /**
   * One prerequisite after `unmetRequirementsMessage` has looked it up: one with a name and
   * no id takes the id of the first shown skill with the same normalised name; any other is
   * left as it was.
   */
  function CachedPrereq(p: Prereq, skills: seq<Entry>): (q: Prereq)
    ensures q.name == p.name && q.level == p.level
    ensures HasId(p) || !HasName(p) ==> q == p
    ensures HasName(p) && (forall i :: 0 <= i < |skills| ==> NormalizeName(skills[i].name) != NormalizeName(p.name.value)) ==> q == p
    ensures !HasId(p) && HasName(p) && (exists i :: 0 <= i < |skills| && NormalizeName(skills[i].name) == NormalizeName(p.name.value)) ==>
      q.id.Some? && exists i :: 0 <= i < |skills| && skills[i].id == q.id.value
                               && NormalizeName(skills[i].name) == NormalizeName(p.name.value)
                               && forall j :: 0 <= j < i ==> NormalizeName(skills[j].name) != NormalizeName(p.name.value)
  {
    if HasId(p) || !HasName(p) then p
    else
      match FindByName(skills, NormalizeName(p.name.value))
      case Some(t) => p.(id := Some(t.id))
      case None => p
  }

  /**
   * The skill after a refused `+`: `unmetRequirementsMessage` writes the found id into every
   * prerequisite it resolved by name. Nothing else of the skill changes.
   */
  function CachedIds(s: Entry, skills: seq<Entry>): (c: Entry)
    ensures c.(prereqs := s.prereqs) == s
    ensures c.prereqs.Some? <==> s.prereqs.Some?
    ensures s.prereqs.Some? ==> c.prereqs.value.Keys == s.prereqs.value.Keys
    ensures s.prereqs.Some? ==> forall k :: k in s.prereqs.value ==> c.prereqs.value[k] == CachedPrereq(s.prereqs.value[k], skills)
  {
    if s.prereqs.None? then s
    else s.(prereqs := Some(map k | k in s.prereqs.value :: CachedPrereq(s.prereqs.value[k], skills)))
  }

  /**
   * A prerequisite the refusal resolved by name turns from a job gate on the character level
   * into a skill gate on the found skill's allocation: before, it blocked only through its
   * level against `charLvl`; after, it blocks while the found skill is below its level.
   */
  lemma CachingGate(alloc: Alloc, s: Entry, skills: seq<Entry>, k: string, t: Entry, charLvl: int)
    requires s.prereqs.Some? && k in s.prereqs.value
    requires !HasId(s.prereqs.value[k]) && HasName(s.prereqs.value[k])
    requires FindByName(skills, NormalizeName(s.prereqs.value[k].name.value)) == Some(t) && t.id != ""
    ensures PrereqBlocks(alloc, s.prereqs.value[k], charLvl) <==>
      s.prereqs.value[k].level.Some? && s.prereqs.value[k].level.value != 0 && charLvl < s.prereqs.value[k].level.value
    ensures PrereqBlocks(alloc, CachedIds(s, skills).prereqs.value[k], charLvl) <==>
      Get(alloc, t.id) < LevelOr1(s.prereqs.value[k])
  {
    assert CachedIds(s, skills).prereqs.value[k] == s.prereqs.value[k].(id := Some(t.id));
  }

  /**
   * A refused `+` can refuse later raises that were allowed before: a prerequisite with a name
   * and no level, which `canIncrease` skips, once resolved blocks while its skill is unallocated.
   */
  lemma RefusalAddsGate(alloc: Alloc, s: Entry, skills: seq<Entry>, entered: int, k: string, t: Entry)
    requires s.prereqs.Some? && k in s.prereqs.value
    requires !HasId(s.prereqs.value[k]) && HasName(s.prereqs.value[k]) && s.prereqs.value[k].level.None?
    requires FindByName(skills, NormalizeName(s.prereqs.value[k].name.value)) == Some(t) && t.id != ""
    requires Get(alloc, t.id) == 0
    ensures !PrereqBlocks(alloc, s.prereqs.value[k], CharLevel(entered))
    ensures !CanIncrease(alloc, CachedIds(s, skills), entered)
  {
    CachingGate(alloc, s, skills, k, t, CharLevel(entered));
    var c := CachedIds(s, skills);
    assert PrereqBlocks(alloc, c.prereqs.value[k], CharLevel(entered));
  }

  /**
   * The reverse map built at the last render goes stale when a refusal resolves a prerequisite
   * by name: the resolved skill gains a dependent the map does not list, so the map no longer
   * describes the shown skills.
   */
  lemma CachingStalesReverseMap(list: seq<Entry>, i: nat, deps: Deps, k: string, t: Entry)
    requires i < |list| && DependentsOf(deps, ReversePairs(list))
    requires forall j :: 0 <= j < |list| && list[j].id == list[i].id ==> j == i
    requires list[i].prereqs.Some? && k in list[i].prereqs.value
    requires !HasId(list[i].prereqs.value[k]) && HasName(list[i].prereqs.value[k])
    requires FindByName(list, NormalizeName(list[i].prereqs.value[k].name.value)) == Some(t) && t.id != ""
    requires t.id !in RefIds(list[i])
    ensures !DependentsOf(deps, ReversePairs(list[i := CachedIds(list[i], list)]))
  {
    var s := list[i];
    var c := CachedIds(s, list);
    var list' := list[i := c];
    assert c.prereqs.value[k] == s.prereqs.value[k].(id := Some(t.id));
    assert t.id in RefIds(c);
    assert list'[i].id == s.id && t.id in RefIds(list'[i]);
    ReverseMapMeaning(list, deps, t.id, s.id);
    if DependentsOf(deps, ReversePairs(list')) {
      ReverseMapMeaning(list', deps, t.id, s.id);
      assert false;
    }
  }

  /** Every dependent listed for `s` still allows it at `newLevel`: the loop of `canDecrease` passes. */
  predicate ListedAllow(alloc: Alloc, s: Entry, skills: seq<Entry>, dependents: seq<string>, newLevel: int) {
    forall u :: 0 <= u < |dependents| ==> DependentAllows(alloc, s, skills, dependents[u], newLevel)
  }

  /**
   * The skill `-` button as the page runs it: the dependents come from the reverse map built
   * at the last render, and each is read from the shown skills as they are now.
   */
  function AfterListedDecrease(alloc: Alloc, s: Entry, skills: seq<Entry>, reverseDeps: Deps): Alloc
  {
    var cur := Get(alloc, s.id);
    if cur > 0 && ListedAllow(alloc, s, skills, Listed(reverseDeps, s.id), cur - 1) then Lowered(alloc, s.id) else alloc
  }

  /** With a reverse map that describes the skills, the listed dependents allow exactly when `canDecrease` does. */
  lemma ListedAllowExact(alloc: Alloc, s: Entry, skills: seq<Entry>, reverseDeps: Deps)
    requires DependentsOf(reverseDeps, ReversePairs(skills))
    requires Get(alloc, s.id) > 0
    ensures ListedAllow(alloc, s, skills, Listed(reverseDeps, s.id), Get(alloc, s.id) - 1) <==> CanDecrease(alloc, s, skills)
  {
    var newLevel := Get(alloc, s.id) - 1;
    var dependents := Listed(reverseDeps, s.id);
    if ListedAllow(alloc, s, skills, dependents, newLevel) {
      DependentsAllow(alloc, s, skills, reverseDeps, newLevel);
    } else {
      var u :| 0 <= u < |dependents| && !DependentAllows(alloc, s, skills, dependents[u], newLevel);
      DependentBlocks(alloc, s, skills, reverseDeps, dependents[u], newLevel);
    }
  }

  /** With a reverse map that describes the shown skills, the page's `-` is the gated lowering. */
  lemma ListedDecreaseExact(alloc: Alloc, s: Entry, skills: seq<Entry>, reverseDeps: Deps)
    requires DependentsOf(reverseDeps, ReversePairs(skills))
    ensures AfterListedDecrease(alloc, s, skills, reverseDeps) == AfterDecrease(alloc, s, skills)
  {
    if Get(alloc, s.id) > 0 {
      ListedAllowExact(alloc, s, skills, reverseDeps);
    }
  }

  // ---------------------------------------------------------------------------
  // The calculator's state

  /**
   * The allocation, the race, job and spec whose skills are shown, the store's skill lists
   * by spec id (`data.skills`, which a refused `+` writes ids into), and the reverse map built
   * when the skill grid was last drawn.
   */
  class Calculator {
    var skills: Alloc
    var dna: Alloc
    var groupId: Option<string>
    var jobId: Option<string>
    var specId: Option<string>
    var lists: map<string, seq<Entry>>
    var reverseDeps: Deps

    /** No id is kept at level 0. */
    ghost predicate Valid()
      reads this
    {
      Positive(skills) && Positive(dna)
    }

    /** `data.skills[currentSubclassId] || []`: the skills on the grid. */
    function Shown(): seq<Entry>
      reads this
    {
      if specId.Some? && specId.value in lists then lists[specId.value] else []
    }

    /** The reverse map describes the shown skills, as it does right after drawing them. */
    ghost predicate Drawn()
      reads this
    {
      DependentsOf(reverseDeps, ReversePairs(Shown()))
    }

    /** The page's start: nothing allocated, nothing chosen, nothing drawn. */
    constructor(store: map<string, seq<Entry>>)
      ensures Valid() && Drawn()
      ensures skills == map[] && dna == map[] && groupId == None && jobId == None && specId == None
      ensures lists == store && reverseDeps == map[]
    {
      skills := map[];
      dna := map[];
      groupId := None;
      jobId := None;
      specId := None;
      lists := store;
      reverseDeps := map[];
      new;
      assert ReversePairs([]) == [];
    }

    /** `renderSkills`: the reverse map is rebuilt from the shown skills. */
    method Render()
      modifies this
      ensures Drawn()
      ensures skills == old(skills) && dna == old(dna) && lists == old(lists)
      ensures groupId == old(groupId) && jobId == old(jobId) && specId == old(specId)
    {
      reverseDeps := BuildReverseDependencyMap(Shown());
    }

    /**
     * The race select: `jobs` is the race's job list. Its first job and that job's first spec
     * become current and the grid is drawn again; the allocation is kept. With no job nothing
     * but the race changes, and a first job without specs keeps the spec that was shown.
     */
    method ChooseGroup(id: string, jobs: seq<Job>)
      requires Valid()
      modifies this
      ensures Valid()
      ensures skills == old(skills) && dna == old(dna) && lists == old(lists) && groupId == Some(id)
      ensures jobId == if |jobs| > 0 then Some(jobs[0].id) else old(jobId)
      ensures specId == if |jobs| > 0 && |jobs[0].specs| > 0 then Some(jobs[0].specs[0].id) else old(specId)
      ensures |jobs| > 0 ==> Drawn()
      ensures |jobs| == 0 ==> reverseDeps == old(reverseDeps)
    {
      groupId := Some(id);
      if |jobs| > 0 {
        jobId := Some(jobs[0].id);
        if |jobs[0].specs| > 0 {
          specId := Some(jobs[0].specs[0].id);
        }
        Render();
      }
    }

    /** A job pill: the job becomes current, its first spec is shown, and the allocation is emptied. */
    method ChooseJob(job: Job)
      modifies this
      ensures Valid() && Drawn()
      ensures jobId == Some(job.id) && skills == map[] && dna == map[]
      ensures specId == if |job.specs| > 0 then Some(job.specs[0].id) else old(specId)
      ensures groupId == old(groupId) && lists == old(lists)
    {
      jobId := Some(job.id);
      skills := map[];
      dna := map[];
      if |job.specs| > 0 {
        specId := Some(job.specs[0].id);
      }
      Render();
    }

    /** A spec pill: the spec becomes current and the allocation is emptied. */
    method ChooseSpec(spec: Spec)
      modifies this
      ensures Valid() && Drawn()
      ensures specId == Some(spec.id) && skills == map[] && dna == map[] && jobId == old(jobId)
      ensures groupId == old(groupId) && lists == old(lists)
    {
      specId := Some(spec.id);
      skills := map[];
      dna := map[];
      Render();
    }

    /** The reset button: the allocation is emptied, the choices stay, and the grid is drawn again. */
    method Reset()
      modifies this
      ensures Valid() && Drawn()
      ensures skills == map[] && dna == map[] && jobId == old(jobId) && specId == old(specId)
      ensures groupId == old(groupId) && lists == old(lists)
    {
      skills := map[];
      dna := map[];
      Render();
    }

    /**
     * The `+` button of the `i`-th shown skill. A refused raise runs `unmetRequirementsMessage`,
     * which writes the ids it resolved by name into that skill's prerequisites in the store;
     * the reverse map is not rebuilt.
     */
    method IncreaseSkill(i: nat, entered: int)
      requires Valid() && i < |Shown()|
      modifies this
      ensures Valid()
      ensures skills == AfterIncrease(old(skills), old(Shown())[i], entered)
      ensures dna == old(dna) && groupId == old(groupId) && jobId == old(jobId) && specId == old(specId)
      ensures lists == if CanIncrease(old(skills), old(Shown())[i], entered) then old(lists)
                       else old(lists)[old(specId).value := old(Shown())[i := CachedIds(old(Shown())[i], old(Shown()))]]
      ensures reverseDeps == old(reverseDeps)
    {
      var shown := Shown();
      var s := shown[i];
      var ok := CheckIncrease(skills, s, entered);
      if !ok {
        lists := lists[specId.value := shown[i := CachedIds(s, shown)]];
        return;
      }
      var cur := Get(skills, s.id);
      skills := skills[s.id := cur + 1];
    }

    /**
     * The `-` button of the `i`-th shown skill, walking the dependents the reverse map lists;
     * while the map describes the shown skills this is the gated lowering.
     */
    method DecreaseSkill(i: nat)
      requires Valid() && i < |Shown()|
      modifies this
      ensures Valid()
      ensures skills == AfterListedDecrease(old(skills), old(Shown())[i], old(Shown()), old(reverseDeps))
      ensures old(Drawn()) ==> skills == AfterDecrease(old(skills), old(Shown())[i], old(Shown()))
      ensures dna == old(dna) && groupId == old(groupId) && jobId == old(jobId) && specId == old(specId)
      ensures lists == old(lists) && reverseDeps == old(reverseDeps)
    {
      var shown := Shown();
      var s := shown[i];
      var alloc := skills;
      if Drawn() {
        ListedDecreaseExact(alloc, s, shown, reverseDeps);
      }
      var cur := Get(alloc, s.id);
      if cur <= 0 {
        return;
      }
      var ok := CheckDependents(alloc, s, shown, Listed(reverseDeps, s.id), cur - 1);
      if !ok {
        return;
      }
      LoweredMeaning(alloc, s.id);
      var lowered := alloc[s.id := cur - 1];
      if lowered[s.id] == 0 {
        lowered := lowered - {s.id};
      }
      assert lowered == Lowered(alloc, s.id);
      skills := lowered;
    }

    /** A DNA `+` button. */
    method IncreaseDna(d: Entry)
      requires Valid()
      modifies this
      ensures Valid()
      ensures dna == AfterDnaIncrease(old(dna), d)
      ensures skills == old(skills) && groupId == old(groupId) && jobId == old(jobId) && specId == old(specId)
      ensures lists == old(lists) && reverseDeps == old(reverseDeps)
    {
      var cur := Get(dna, d.id);
      if cur < MaxLevelOf(d) {
        dna := dna[d.id := cur + 1];
      }
    }

    /** A DNA `-` button. */
    method DecreaseDna(d: Entry)
      requires Valid()
      modifies this
      ensures Valid()
      ensures dna == Lowered(old(dna), d.id)
      ensures skills == old(skills) && groupId == old(groupId) && jobId == old(jobId) && specId == old(specId)
      ensures lists == old(lists) && reverseDeps == old(reverseDeps)
    {
      LoweredMeaning(dna, d.id);
      var cur := Get(dna, d.id);
      if cur > 0 {
        dna := dna[d.id := cur - 1];
      }
      if d.id in dna && dna[d.id] == 0 {
        dna := dna - {d.id};
      }
    }
  }
}
