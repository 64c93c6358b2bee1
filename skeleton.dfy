/**
 * The one-shot skeleton extraction from the calculator snapshots: races and first jobs from
 * the calculator index, skills and DNA from each subclass page, and the choice of the newest
 * snapshot. The regular-expression scans are taken as already matched: each scan is the
 * sequence of its matches' groups, in page order.
 */
module Skeleton {
  import opened Wrappers
  import opened Text
  import opened CanonicalStore

  // ---------------------------------------------------------------------------
  // `_space_from_camel`

  /** A space before every capital after the first character, then outer whitespace stripped. */
  function SpaceFromCamel(name: string): (r: string)
    ensures |r| == 0 || (!IsSpace(r[0]) && !IsSpace(r[|r| - 1]))
  {
    Strip(SpaceBeforeCapitals(name))
  }

  /**
   * The spaced name holds the same non-space characters as the key, in order, and a key with
   * no inner capital and no outer whitespace comes back unchanged.
   */
  lemma SpaceFromCamelShape(name: string)
    ensures Delete(SpaceBeforeCapitals(name), ' ') == Delete(name, ' ')
    ensures forall c :: c in SpaceFromCamel(name) ==> c in SpaceBeforeCapitals(name)
    ensures !HasInnerCapital(name) && (|name| == 0 || (!IsSpace(name[0]) && !IsSpace(name[|name| - 1]))) ==>
      SpaceFromCamel(name) == name
  {
    SpaceBeforeCapitalsDespaced(name);
    StripChars(SpaceBeforeCapitals(name));
    SpaceBeforeCapitalsChanges(name);
  }

  // ---------------------------------------------------------------------------
  // Races and first jobs (`parse_groups_and_subclasses`)

  /** `GROUP_FROM_BG`: background image key -> race name. */
  const GroupFromBg: map<string, string> := map[
    "Defender" := "Turian",
    "Templar" := "Turian",
    "Warrior" := "Bartuk",
    "Shaman" := "Bartuk",
    "Rogue" := "Kruxena",
    "SoulHunter" := "Kruxena",
    "Hunter" := "Xenoa",
    "BattleMagician" := "Xenoa"
  ]

  function RaceName(bgKey: string): string
  {
    if bgKey in GroupFromBg then GroupFromBg[bgKey] else SpaceFromCamel(bgKey)
  }

  /** `race_name.lower().replace(" ", "-")` */
  function RaceId(raceName: string): string
  {
    Subst(Lower(raceName), ' ', '-')
  }

  /** A race id has the name's length, no space and no capital, and deriving it again changes nothing. */
  lemma RaceIdShape(raceName: string)
    ensures |RaceId(raceName)| == |raceName|
    ensures ' ' !in RaceId(raceName)
    ensures forall i :: 0 <= i < |RaceId(raceName)| ==> !IsUpper(RaceId(raceName)[i])
    ensures RaceId(RaceId(raceName)) == RaceId(raceName)
  {
    var r := RaceId(raceName);
    assert forall i :: 0 <= i < |r| ==> !IsUpper(r[i]) && r[i] != ' ';
    assert Lower(r) == r;
  }

  /** One match of the group pattern: background key, first-job id, and the subclass links of its block. */
  datatype GroupMatch = GroupMatch(bgKey: string, firstJobId: string, subclasses: seq<(string, string)>)

  /** `f` applied to every item, in order. */
  function Mapped<T, U>(xs: seq<T>, f: T -> U): (r: seq<U>)
    ensures |r| == |xs| && forall i :: 0 <= i < |xs| ==> r[i] == f(xs[i])
  {
    seq(|xs|, i requires 0 <= i < |xs| => f(xs[i]))
  }

  /** Mapping one more item appends its image. */
  lemma MappedStep<T, U>(xs: seq<T>, f: T -> U, i: nat)
    requires i < |xs|
    ensures Mapped(xs[..i + 1], f) == Mapped(xs[..i], f) + [f(xs[i])]
  {
  }

  /** The spec of one subclass link: its id and its camel-spaced image key. */
  function SpecOf(link: (string, string)): Spec
  {
    Spec(link.0, SpaceFromCamel(link.1))
  }

  /** The specs of one block, in link order. */
  function SpecsOf(subclasses: seq<(string, string)>): (r: seq<Spec>)
    ensures |r| == |subclasses|
    ensures forall i :: 0 <= i < |r| ==> r[i].id == subclasses[i].0 && r[i].name == SpaceFromCamel(subclasses[i].1)
  {
    Mapped(subclasses, SpecOf)
  }

  /**
   * What a block's spec list promises: one spec per link with the link's id, and a name with no
   * outer whitespace, made of the key's characters and spaces; a key with no inner capital and
   * no outer whitespace is the name itself.
   */
  lemma SpecsShape(subclasses: seq<(string, string)>)
    ensures |SpecsOf(subclasses)| == |subclasses|
    ensures forall i :: 0 <= i < |subclasses| ==>
      var name, key := SpecsOf(subclasses)[i].name, subclasses[i].1;
      SpecsOf(subclasses)[i].id == subclasses[i].0
      && Stripped(name)
      && (forall c :: c in name ==> c in key || c == ' ')
      && (!HasInnerCapital(key) && Stripped(key) ==> name == key)
  {
    forall i | 0 <= i < |subclasses|
      ensures var name, key := SpecsOf(subclasses)[i].name, subclasses[i].1;
        Stripped(name)
        && (forall c :: c in name ==> c in key || c == ' ')
        && (!HasInnerCapital(key) && Stripped(key) ==> name == key)
    {
      SpecName(subclasses[i].1);
    }
  }

  lemma SpecName(key: string)
    ensures Stripped(SpaceFromCamel(key))
    ensures forall c :: c in SpaceFromCamel(key) ==> c in key || c == ' '
    ensures !HasInnerCapital(key) && Stripped(key) ==> SpaceFromCamel(key) == key
  {
    SpaceFromCamelShape(key);
    var spaced := SpaceBeforeCapitals(key);
    forall c | c in SpaceFromCamel(key) && c != ' ' ensures c in key {
      DeleteMembers(spaced, ' ', c);
      DeleteMembers(key, ' ', c);
    }
  }

  /** The inner `finditer` loop over a block's subclass links. */
  method CollectSpecs(subclasses: seq<(string, string)>) returns (specs: seq<Spec>)
    ensures specs == SpecsOf(subclasses)
  {
    specs := [];
    for i := 0 to |subclasses|
      invariant specs == Mapped(subclasses[..i], SpecOf)
    {
      MappedStep(subclasses, SpecOf, i);
      specs := specs + [Spec(subclasses[i].0, SpaceFromCamel(subclasses[i].1))];
    }
    assert subclasses[..|subclasses|] == subclasses;
  }

  /** The first-job record of one group block; its name is the camel-spaced background key. */
  function JobOf(m: GroupMatch): Job
  {
    Job(m.firstJobId, SpaceFromCamel(m.bgKey), SpecsOf(m.subclasses))
  }

  function RaceOf(m: GroupMatch): string
  {
    RaceId(RaceName(m.bgKey))
  }

  /** A Python dict as its items in insertion order. */
  type Dict<V> = seq<(string, V)>

  function Keys<V>(d: Dict<V>): (ks: seq<string>)
    ensures |ks| == |d| && forall i :: 0 <= i < |d| ==> ks[i] == d[i].0
  {
    seq(|d|, i requires 0 <= i < |d| => d[i].0)
  }

  /** `d.get(k, dflt)` */
  function Get<V>(d: Dict<V>, k: string, dflt: V): V
  {
    if |d| == 0 then dflt else if d[0].0 == k then d[0].1 else Get(d[1..], k, dflt)
  }

  /** `d[k] = v`: an existing key keeps its place, a new key goes last. */
  function Put<V>(d: Dict<V>, k: string, v: V): Dict<V>
  {
    if |d| == 0 then [(k, v)] else if d[0].0 == k then [(k, v)] + d[1..] else [d[0]] + Put(d[1..], k, v)
  }

  predicate DistinctKeys<V>(d: Dict<V>) {
    forall i, j :: 0 <= i < j < |d| ==> d[i].0 != d[j].0
  }

  /** Assignment keeps the key order, adds a new key at the end, and keeps keys distinct. */
  lemma {:induction false} PutKeys<V>(d: Dict<V>, k: string, v: V)
    requires DistinctKeys(d)
    ensures Keys(Put(d, k, v)) == if k in Keys(d) then Keys(d) else Keys(d) + [k]
    ensures DistinctKeys(Put(d, k, v))
  {
    if |d| > 0 {
      var rest := d[1..];
      PutKeys(rest, k, v);
      assert Keys(d) == [d[0].0] + Keys(rest);
      if d[0].0 == k {
        assert Keys(Put(d, k, v)) == [k] + Keys(rest);
        assert k !in Keys(rest);
      } else {
        assert Keys(Put(d, k, v)) == [d[0].0] + Keys(Put(rest, k, v));
      }
    }
  }

  /** Assignment changes only the value under `k`. */
  lemma {:induction false} PutGet<V>(d: Dict<V>, k: string, v: V, k': string, dflt: V)
    ensures Get(Put(d, k, v), k', dflt) == if k' == k then v else Get(d, k', dflt)
  {
    if |d| > 0 && d[0].0 != k {
      PutGet(d[1..], k, v, k', dflt);
    }
  }

  /** A key that is not among the keys reads as the default (`d.get(k, dflt)`). */
  lemma {:induction false} GetDefault<V>(d: Dict<V>, k: string, dflt: V)
    ensures k !in Keys(d) ==> Get(d, k, dflt) == dflt
  {
    if |d| > 0 {
      GetDefault(d[1..], k, dflt);
      assert Keys(d) == [d[0].0] + Keys(d[1..]);
    }
  }

  /** The dict after `d[key(x)] = val(x)` for every item, in order. */
  function PutAll<T, V>(xs: seq<T>, key: T -> string, val: T -> V): Dict<V>
  {
    if |xs| == 0 then [] else
      var x := xs[|xs| - 1];
      Put(PutAll(xs[..|xs| - 1], key, val), key(x), val(x))
  }

  /** The dict after `d.setdefault(key(x), []).append(val(x))` for every item, in order. */
  function AppendAll<T, V>(xs: seq<T>, key: T -> string, val: T -> V): Dict<seq<V>>
  {
    if |xs| == 0 then [] else
      var x := xs[|xs| - 1];
      var d := AppendAll(xs[..|xs| - 1], key, val);
      Put(d, key(x), Get(d, key(x), []) + [val(x)])
  }

  /** The fold step at item `i`, stated on prefixes of `xs`. */
  lemma FoldPrefix<T, V, W>(xs: seq<T>, i: nat, key: T -> string, val: T -> V, item: T -> W)
    requires i < |xs|
    ensures PutAll(xs[..i + 1], key, val) == Put(PutAll(xs[..i], key, val), key(xs[i]), val(xs[i]))
    ensures AppendAll(xs[..i + 1], key, item) ==
      Put(AppendAll(xs[..i], key, item), key(xs[i]), Get(AppendAll(xs[..i], key, item), key(xs[i]), []) + [item(xs[i])])
  {
    assert xs[..i + 1][..i] == xs[..i];
  }

  /** The key of every item, in order. */
  function KeysOf<T>(xs: seq<T>, key: T -> string): (ks: seq<string>)
    ensures |ks| == |xs| && forall i :: 0 <= i < |xs| ==> ks[i] == key(xs[i])
  {
    seq(|xs|, i requires 0 <= i < |xs| => key(xs[i]))
  }

  /** The values of the items whose key is `k`, in order. */
  function ValuesUnder<T, V>(xs: seq<T>, key: T -> string, val: T -> V, k: string): seq<V>
  {
    if |xs| == 0 then [] else
      var x := xs[|xs| - 1];
      ValuesUnder(xs[..|xs| - 1], key, val, k) + if key(x) == k then [val(x)] else []
  }

  /** Both loops give the same keys in the same order, and no key twice. */
  lemma {:induction false} SameKeys<T, V, W>(xs: seq<T>, key: T -> string, val: T -> V, item: T -> W)
    ensures Keys(PutAll(xs, key, val)) == Keys(AppendAll(xs, key, item))
    ensures DistinctKeys(PutAll(xs, key, val)) && DistinctKeys(AppendAll(xs, key, item))
  {
    if |xs| > 0 {
      var n := |xs| - 1;
      var init, x := xs[..n], xs[n];
      SameKeys(init, key, val, item);
      FoldPrefix(xs, n, key, val, item);
      assert xs[..n + 1] == xs;
      var p, d := PutAll(init, key, val), AppendAll(init, key, item);
      PutKeys(p, key(x), val(x));
      PutKeys(d, key(x), Get(d, key(x), []) + [item(x)]);
    }
  }

  /** A key is present exactly when some item has it. */
  lemma {:induction false} AppendAllKeys<T, W>(xs: seq<T>, key: T -> string, item: T -> W)
    ensures forall k :: k in Keys(AppendAll(xs, key, item)) <==> k in KeysOf(xs, key)
  {
    if |xs| > 0 {
      var n := |xs| - 1;
      var init, x := xs[..n], xs[n];
      AppendAllKeys(init, key, item);
      SameKeys(init, key, item, item);
      FoldPrefix(xs, n, key, item, item);
      assert xs[..n + 1] == xs;
      var d := AppendAll(init, key, item);
      PutKeys(d, key(x), Get(d, key(x), []) + [item(x)]);
      assert KeysOf(xs, key) == KeysOf(init, key) + [key(x)];
    }
  }


  /** The list under `k` is the values of the items with key `k`, in order. */
  lemma {:induction false} AppendAllGet<T, V>(xs: seq<T>, key: T -> string, val: T -> V, k: string)
    ensures Get(AppendAll(xs, key, val), k, []) == ValuesUnder(xs, key, val, k)
  {
    if |xs| > 0 {
      var init, x := xs[..|xs| - 1], xs[|xs| - 1];
      AppendAllGet(init, key, val, k);
      var d := AppendAll(init, key, val);
      PutGet(d, key(x), Get(d, key(x), []) + [val(x)], k, []);
    }
  }

  function GroupNameOf(m: GroupMatch): string
  {
    RaceName(m.bgKey)
  }

  /** `[{"id": gid, "name": gname} for gid, gname in groups.items()]` */
  function GroupList(groups: Dict<string>): (r: seq<Group>)
    ensures |r| == |groups| && forall i :: 0 <= i < |r| ==> r[i] == Group(groups[i].0, groups[i].1)
  {
    seq(|groups|, i requires 0 <= i < |groups| => Group(groups[i].0, groups[i].1))
  }

  /**
   * The `groups` list has no race twice, lists a race exactly when some block has it, and
   * follows the key order of the race -> first-job lists.
   */
  lemma GroupIds(ms: seq<GroupMatch>, r: string)
    ensures var g, jobs := GroupList(PutAll(ms, RaceOf, GroupNameOf)), AppendAll(ms, RaceOf, JobOf);
      |g| == |jobs| && (forall i :: 0 <= i < |g| ==> g[i].id == jobs[i].0)
      && (forall a, b :: 0 <= a < b < |g| ==> g[a].id != g[b].id)
      && ((exists i :: 0 <= i < |g| && g[i].id == r) <==> exists j :: 0 <= j < |ms| && RaceOf(ms[j]) == r)
  {
    KeyedGroups(ms, RaceOf, GroupNameOf, JobOf, r);
  }

  lemma KeyedGroups<T, W>(xs: seq<T>, key: T -> string, val: T -> string, item: T -> W, r: string)
    ensures var g, jobs := GroupList(PutAll(xs, key, val)), AppendAll(xs, key, item);
      |g| == |jobs| && (forall i :: 0 <= i < |g| ==> g[i].id == jobs[i].0)
      && (forall a, b :: 0 <= a < b < |g| ==> g[a].id != g[b].id)
      && ((exists i :: 0 <= i < |g| && g[i].id == r) <==> exists j :: 0 <= j < |xs| && key(xs[j]) == r)
  {
    SameKeys(xs, key, val, item);
    AppendAllKeys(xs, key, item);
    ListedGroups(PutAll(xs, key, val), AppendAll(xs, key, item), KeysOf(xs, key), r);
    var ks := KeysOf(xs, key);
    assert r in ks <==> exists j :: 0 <= j < |xs| && key(xs[j]) == r by {
      if r in ks {
        var j :| 0 <= j < |ks| && ks[j] == r;
      }
      if exists j :: 0 <= j < |xs| && key(xs[j]) == r {
        var j :| 0 <= j < |xs| && key(xs[j]) == r;
        assert ks[j] == r;
      }
    }
  }

  /** The group list of a dict whose keys are distinct and match another dict's keys. */
  lemma ListedGroups<W>(d: Dict<string>, jobs: Dict<W>, ks: seq<string>, r: string)
    requires Keys(d) == Keys(jobs) && DistinctKeys(d)
    requires forall k :: k in Keys(jobs) <==> k in ks
    ensures var g := GroupList(d);
      |g| == |jobs| && (forall i :: 0 <= i < |g| ==> g[i].id == jobs[i].0)
      && (forall a, b :: 0 <= a < b < |g| ==> g[a].id != g[b].id)
      && ((exists i :: 0 <= i < |g| && g[i].id == r) <==> r in ks)
  {
    var g := GroupList(d);
    assert |d| == |Keys(d)| == |Keys(jobs)| == |jobs|;
    forall i | 0 <= i < |g| ensures g[i].id == jobs[i].0 {
      assert g[i].id == Keys(d)[i] == Keys(jobs)[i];
    }
    if r in ks {
      var i :| 0 <= i < |Keys(jobs)| && Keys(jobs)[i] == r;
      assert g[i].id == r;
    }
    if exists i :: 0 <= i < |g| && g[i].id == r {
      var i :| 0 <= i < |g| && g[i].id == r;
      assert Keys(jobs)[i] == r;
    }
  }

  /** The group loop over the matched blocks, in page order. */
  method ParseGroupsAndSubclasses(ms: seq<GroupMatch>) returns (groups: seq<Group>, jobsByGroup: JobLists)
    ensures groups == GroupList(PutAll(ms, RaceOf, GroupNameOf))
    ensures jobsByGroup == AppendAll(ms, RaceOf, JobOf)
  {
    var groupMap: Dict<string> := [];
    jobsByGroup := [];
    var k := 0;
    while k < |ms|
      invariant 0 <= k <= |ms|
      invariant groupMap == PutAll(ms[..k], RaceOf, GroupNameOf) && jobsByGroup == AppendAll(ms[..k], RaceOf, JobOf)
    {
      FoldPrefix(ms, k, RaceOf, GroupNameOf, JobOf);
      groupMap, jobsByGroup := AddBlock(groupMap, jobsByGroup, ms[k]);
      k := k + 1;
    }
    assert ms[..|ms|] == ms;
    groups := GroupList(groupMap);
  }

  /** The loop body for one block: record the race, then append the first job under it. */
  method AddBlock(groupMap: Dict<string>, jobsByGroup: JobLists, m: GroupMatch)
    returns (groupMap': Dict<string>, jobsByGroup': JobLists)
    ensures groupMap' == Put(groupMap, RaceOf(m), GroupNameOf(m))
    ensures jobsByGroup' == Put(jobsByGroup, RaceOf(m), Get(jobsByGroup, RaceOf(m), []) + [JobOf(m)])
  {
    var raceName := if m.bgKey in GroupFromBg then GroupFromBg[m.bgKey] else SpaceFromCamel(m.bgKey);
    var raceId := Subst(Lower(raceName), ' ', '-');
    var firstJobName := SpaceFromCamel(m.bgKey);
    groupMap' := Put(groupMap, raceId, raceName);
    var specs := CollectSpecs(m.subclasses);
    jobsByGroup' := Put(jobsByGroup, raceId, Get(jobsByGroup, raceId, []) + [Job(m.firstJobId, firstJobName, specs)]);
  }

  /**
   * Races and job lists have the same keys in the same order, with no race twice; a race is
   * present exactly when some block has it, and its job list is the first jobs of its blocks,
   * in page order.
   */
  lemma GroupsAndJobs(ms: seq<GroupMatch>, r: string)
    ensures Keys(PutAll(ms, RaceOf, GroupNameOf)) == Keys(AppendAll(ms, RaceOf, JobOf))
    ensures DistinctKeys(PutAll(ms, RaceOf, GroupNameOf))
    ensures r in Keys(AppendAll(ms, RaceOf, JobOf)) <==> exists i :: 0 <= i < |ms| && RaceOf(ms[i]) == r
    ensures Get(AppendAll(ms, RaceOf, JobOf), r, []) == ValuesUnder(ms, RaceOf, JobOf, r)
  {
    SameKeys(ms, RaceOf, GroupNameOf, JobOf);
    AppendAllKeys(ms, RaceOf, JobOf);
    AppendAllGet(ms, RaceOf, JobOf, r);
    assert r in KeysOf(ms, RaceOf) <==> exists i :: 0 <= i < |ms| && RaceOf(ms[i]) == r;
  }

  // ---------------------------------------------------------------------------
  // `_clean_skill_filename`

  /** `s.rsplit("/", 1)[-1]`: the text after the last `/`. */
  function LastSegment(s: string): (r: string)
    ensures '/' !in r && |r| <= |s| && r == s[|s| - |r|..]
    ensures |r| < |s| ==> s[|s| - |r| - 1] == '/'
  {
    if |s| == 0 then ""
    else if s[|s| - 1] == '/' then ""
    else
      var r := LastSegment(s[..|s| - 1]);
      assert s[..|s| - 1][|s| - 1 - |r|..] + [s[|s| - 1]] == s[|s| - 1 - |r|..];
      r + [s[|s| - 1]]
  }

  /** `s.rsplit(".", 1)[0]`: the text before the last `.`, or all of it without one. */
  function DropExtension(s: string): (r: string)
    ensures |r| <= |s| && r == s[..|r|]
    ensures '.' !in s ==> r == s
    ensures '.' in s ==> |r| < |s| && s[|r|] == '.' && '.' !in s[|r| + 1..]
  {
    if |s| == 0 then ""
    else if s[|s| - 1] == '.' then s[..|s| - 1]
    else if '.' in s[..|s| - 1] then
      var r := DropExtension(s[..|s| - 1]);
      assert s[|r| + 1..] == s[..|s| - 1][|r| + 1..] + [s[|s| - 1]];
      r
    else
      assert forall i :: 0 <= i < |s| - 1 ==> s[i] == s[..|s| - 1][i];
      s
  }

  /** `s.endswith(suffix)` */
  predicate EndsWith(s: string, suffix: string) {
    |suffix| <= |s| && s[|s| - |suffix|..] == suffix
  }

  /** The file's base name: after the last `/`, before the last `.`; it has no `/`. */
  function SkillBase(filename: string): (base: string)
    ensures '/' !in base
  {
    var seg := LastSegment(filename);
    var base := DropExtension(seg);
    assert forall c :: c in base ==> c in seg;
    base
  }

  /** The `DNA_` prefix removed when present. */
  function WithoutDna(base: string): (r: string)
    ensures forall c :: c in r ==> c in base
  {
    if StartsWith(base, "DNA_") then base[4..] else base
  }

  /** The last step: `_` read as a space, then outer whitespace stripped. */
  function Finish(base: string): string
  {
    Strip(Subst(base, '_', ' '))
  }

  /** The cleaner as written: every `_G` is deleted, wherever it stands, before the `DNA_` test. */
  function CleanSkillFilenameAsWritten(filename: string): string
  {
    Finish(WithoutDna(Replace(SkillBase(filename), "_G", "")))
  }

  /** Only a trailing `_G` marker removed. */
  function WithoutMarker(base: string): (r: string)
    ensures forall c :: c in r ==> c in base
  {
    if EndsWith(base, "_G") then base[..|base| - 2] else base
  }

  /** The cleaner with only the trailing `_G` marker removed. */
  function CleanSkillFilename(filename: string): string
  {
    Finish(WithoutDna(WithoutMarker(SkillBase(filename))))
  }

  /** Turning `_` into spaces and stripping leaves neither `_` nor `/` when the base had no `/`. */
  lemma FinishChars(base: string)
    requires '/' !in base
    ensures '_' !in Finish(base) && '/' !in Finish(base)
  {
    var spaced := Subst(base, '_', ' ');
    assert '_' !in spaced;
    assert '/' !in spaced by {
      forall i | 0 <= i < |spaced| ensures spaced[i] != '/' {
        assert base[i] in base;
      }
    }
    StripChars(spaced);
  }

  /** The cleaner gives a name with neither `_` nor `/`. */
  lemma CleanedNameShape(filename: string)
    ensures '_' !in CleanSkillFilename(filename) && '/' !in CleanSkillFilename(filename)
  {
    FinishChars(WithoutDna(WithoutMarker(SkillBase(filename))));
  }

  /** So does the cleaner as written. */
  lemma WrittenNameShape(filename: string)
    ensures '_' !in CleanSkillFilenameAsWritten(filename) && '/' !in CleanSkillFilenameAsWritten(filename)
  {
    var base := SkillBase(filename);
    ReplaceEmptyChars(base, "_G");
    FinishChars(WithoutDna(Replace(base, "_G", "")));
  }

  /** A name without `/` is its own last segment. */
  lemma WholeSegment(s: string)
    requires '/' !in s
    ensures LastSegment(s) == s
  {
  }

  /** Dropping the extension of `w + ".png"` gives back `w` when `w` has no `.`. */
  lemma DropPng(w: string)
    requires '.' !in w
    ensures DropExtension(w + ".png") == w
  {
    var s := w + ".png";
    assert s[|w|] == '.';
    assert s[..|w|] == w;
  }

  /** A word with no `_`, `.`, `/` or whitespace. */
  predicate PlainWord(w: string) {
    forall i :: 0 <= i < |w| ==> w[i] != '_' && w[i] != '.' && w[i] != '/' && !IsSpace(w[i])
  }

  /** A prefix without `_` passes through the deletion of `_G` unchanged. */
  lemma {:induction false} ReplaceKeeps(x: string, rest: string)
    requires '_' !in x
    ensures Replace(x + rest, "_G", "") == x + Replace(rest, "_G", "")
    decreases |x|
  {
    if |x| > 0 {
      assert !StartsWith(x + rest, "_G") by { assert (x + rest)[0] == x[0]; }
      assert (x + rest)[1..] == x[1..] + rest;
      ReplaceKeeps(x[1..], rest);
      assert [x[0]] + x[1..] == x;
    } else {
      assert x + rest == rest;
    }
  }

  /** The name part of `DNA_G<w>_G.png` is `DNA_G<w>_G`. */
  lemma MarkedBase(w: string)
    requires PlainWord(w)
    ensures SkillBase("DNA_G" + w + "_G.png") == "DNA_G" + w + "_G"
  {
    var f := "DNA_G" + w + "_G.png";
    var base := "DNA_G" + w + "_G";
    assert f == base + ".png";
    assert '/' !in f by {
      forall i | 0 <= i < |f| ensures f[i] != '/' {
        if 5 <= i < 5 + |w| { assert f[i] == w[i - 5]; }
      }
    }
    assert '.' !in base by {
      forall i | 0 <= i < |base| ensures base[i] != '.' {
        if 5 <= i < 5 + |w| { assert base[i] == w[i - 5]; }
      }
    }
    WholeSegment(f);
    DropPng(base);
  }

  /** Deleting every `_G` from `DNA_G<w>_G` also deletes the `G` that starts the name. */
  lemma DeleteMarkers(w: string)
    requires '_' !in w
    ensures Replace("DNA_G" + w + "_G", "_G", "") == "DNA" + w
  {
    assert "DNA_G" + w + "_G" == "DNA" + ("_G" + (w + "_G"));
    ReplaceKeeps("DNA", "_G" + (w + "_G"));
    DeleteLeadingMarker(w);
  }

  lemma DeleteLeadingMarker(w: string)
    requires '_' !in w
    ensures Replace("_G" + (w + "_G"), "_G", "") == w
  {
    assert StartsWith("_G" + (w + "_G"), "_G");
    assert ("_G" + (w + "_G"))[2..] == w + "_G";
    ReplaceKeeps(w, "_G");
    assert "_G"[2..] == "";
  }

  /** As written, the base of `DNA_G<w>_G.png` loses both `_G`s. */
  lemma WrittenBase(w: string)
    requires PlainWord(w)
    ensures Replace(SkillBase("DNA_G" + w + "_G.png"), "_G", "") == "DNA" + w
  {
    MarkedBase(w);
    assert '_' !in w by {
      forall i | 0 <= i < |w| ensures w[i] != '_' { }
    }
    DeleteMarkers(w);
  }

  /** `DNA<w>` does not start with `DNA_`. */
  lemma NoDnaPrefix(w: string)
    requires PlainWord(w)
    ensures !StartsWith("DNA" + w, "DNA_")
  {
    if |w| > 0 { assert ("DNA" + w)[3] == w[0]; }
  }

  /** A word without `_` and outer whitespace comes out of the last step as it went in. */
  lemma FinishedAsIs(x: string)
    requires |x| > 0 && PlainWord(x[1..]) && !IsSpace(x[0]) && x[0] != '_'
    ensures Finish(x) == x
  {
    assert forall i :: 1 <= i < |x| ==> x[i] == x[1..][i - 1];
    assert Subst(x, '_', ' ') == x;
    StripStripped(x);
  }

  /** `DNA<w>` comes out of the last step as it went in. */
  lemma DnaFinished(w: string)
    requires PlainWord(w)
    ensures Finish("DNA" + w) == "DNA" + w
  {
    var written := "DNA" + w;
    assert Subst(written, '_', ' ') == written;
    assert written[0] == 'D';
    StripStripped(written);
  }

  /**
   * Deleting every `_G`, as written, turns `DNA_G<w>_G.png` into `DNA<w>` (so `DNA_Gun_G.png`
   * becomes `DNAun`): the `G` of the name goes with the marker and the `DNA_` prefix is no
   * longer recognised.
   */
  lemma GMarkerAsWritten(w: string)
    requires PlainWord(w)
    ensures CleanSkillFilenameAsWritten("DNA_G" + w + "_G.png") == "DNA" + w
  {
    WrittenBase(w);
    NoDnaPrefix(w);
    DnaFinished(w);
  }

  /** A trailing `_G` is dropped. */
  lemma MarkerDropped(b: string)
    ensures WithoutMarker(b + "_G") == b
  {
    assert EndsWith(b + "_G", "_G");
    assert (b + "_G")[..|b|] == b;
  }

  /** A leading `DNA_` is dropped. */
  lemma DnaDropped(x: string)
    ensures WithoutDna("DNA_" + x) == x
  {
    assert StartsWith("DNA_" + x, "DNA_");
    assert ("DNA_" + x)[4..] == x;
  }

  lemma MarkedSplit(w: string)
    ensures "DNA_G" + w + "_G" == ("DNA_" + ("G" + w)) + "_G"
  {
  }

  /** The corrected cleaner keeps the `DNA_` test and the name: `DNA_G<w>_G.png` gives `G<w>`. */
  lemma GMarkerKept(w: string)
    requires PlainWord(w)
    ensures CleanSkillFilename("DNA_G" + w + "_G.png") == "G" + w
  {
    var x := "G" + w;
    MarkedBase(w);
    MarkedSplit(w);
    MarkerDropped("DNA_" + x);
    DnaDropped(x);
    assert x[1..] == w;
    FinishedAsIs(x);
  }

  /**
   * The corrected cleaner turns `DNA_<w>_G.png` into `w` with its underscores read as spaces,
   * whatever letters `w` starts with.
   */
  lemma GMarkerCorrected(w: string)
    requires '/' !in w && '.' !in w
    ensures CleanSkillFilename("DNA_" + w + "_G.png") == Finish(w)
  {
    var f := "DNA_" + w + "_G.png";
    assert f == ("DNA_" + w + "_G") + ".png";
    assert '/' !in f by {
      forall i | 0 <= i < |f| ensures f[i] != '/' {
        if 4 <= i < 4 + |w| {
          assert f[i] == w[i - 4] && w[i - 4] in w;
        }
      }
    }
    WholeSegment(f);
    assert '.' !in "DNA_" + w + "_G" by {
      var b := "DNA_" + w + "_G";
      forall i | 0 <= i < |b| ensures b[i] != '.' {
        if 4 <= i < 4 + |w| {
          assert b[i] == w[i - 4] && w[i - 4] in w;
        }
      }
    }
    DropPng("DNA_" + w + "_G");
    assert SkillBase(f) == "DNA_" + w + "_G";
    MarkerDropped("DNA_" + w);
    DnaDropped(w);
  }

  // ---------------------------------------------------------------------------
  // `parse_skills_and_dna_from_subclass`

  /** One match of the skill-image pattern: type code, id, image source. */
  datatype ImgMatch = ImgMatch(typeCode: string, sid: string, src: string)

  const SkillCode: string := "0"
  const DnaCode: string := "1"
  /** The `maxLevel` every extracted record gets. */
  const DefaultMaxLevel: int := 10

  /** The record an image yields: its id, its file name cleaned by `clean`, level cap 10, nothing else. */
  function SkeletonEntry(m: ImgMatch, clean: string -> string): Entry
  {
    Entry(m.sid, clean(m.src), DefaultMaxLevel, None, None, None, None)
  }

  /** Match `i` has type `code` and no earlier match of that type has its id. */
  predicate FirstOf(ms: seq<ImgMatch>, code: string, i: int) {
    0 <= i < |ms| && ms[i].typeCode == code
    && forall j :: 0 <= j < i ==> !(ms[j].typeCode == code && ms[j].sid == ms[i].sid)
  }

  /** The first match of each id of type `code`, in page order. */
  function FirstMatches(ms: seq<ImgMatch>, code: string): seq<ImgMatch>
  {
    if |ms| == 0 then [] else
      FirstMatches(ms[..|ms| - 1], code) + if FirstOf(ms, code, |ms| - 1) then [ms[|ms| - 1]] else []
  }

  /** The records of a list of matches, in order. */
  function Records(fs: seq<ImgMatch>, clean: string -> string): (r: seq<Entry>)
    ensures |r| == |fs| && forall k :: 0 <= k < |fs| ==> r[k] == SkeletonEntry(fs[k], clean)
  {
    seq(|fs|, k requires 0 <= k < |fs| => SkeletonEntry(fs[k], clean))
  }

  /** The ids of the matches of type `code`. */
  function Seen(ms: seq<ImgMatch>, code: string): set<string>
  {
    set j | 0 <= j < |ms| && ms[j].typeCode == code :: ms[j].sid
  }

  /** One more match: it is a first occurrence exactly when its id was not seen for its type. */
  lemma SeenStep(ms: seq<ImgMatch>, i: nat, code: string)
    requires i < |ms|
    ensures FirstOf(ms[..i + 1], code, i) <==> ms[i].typeCode == code && ms[i].sid !in Seen(ms[..i], code)
    ensures Seen(ms[..i + 1], code) == Seen(ms[..i], code) + if ms[i].typeCode == code then {ms[i].sid} else {}
    ensures FirstMatches(ms[..i + 1], code) ==
      FirstMatches(ms[..i], code) + if FirstOf(ms[..i + 1], code, i) then [ms[i]] else []
  {
    assert ms[..i + 1][..i] == ms[..i];
    if ms[i].typeCode == code && ms[i].sid in Seen(ms[..i], code) {
      var j :| 0 <= j < i && ms[..i][j].typeCode == code && ms[..i][j].sid == ms[i].sid;
      assert ms[..i + 1][j] == ms[j];
    }
  }

  /** One image of type `code`: its record is appended unless its id was already seen. */
  method KeepFirst(ms: seq<ImgMatch>, i: nat, code: string, clean: string -> string, out: seq<Entry>, seen: set<string>)
    returns (out': seq<Entry>, seen': set<string>)
    requires i < |ms| && ms[i].typeCode == code
    requires out == Records(FirstMatches(ms[..i], code), clean) && seen == Seen(ms[..i], code)
    ensures out' == Records(FirstMatches(ms[..i + 1], code), clean) && seen' == Seen(ms[..i + 1], code)
  {
    SeenStep(ms, i, code);
    out', seen' := out, seen;
    if ms[i].sid !in seen {
      seen' := seen + {ms[i].sid};
      out' := out + [SkeletonEntry(ms[i], clean)];
      assert FirstMatches(ms[..i + 1], code) == FirstMatches(ms[..i], code) + [ms[i]];
    }
  }

  /** The image loop: a type-0 match becomes a skill and a type-1 match a DNA record, each id once. */
  method ParseSkillsAndDna(ms: seq<ImgMatch>) returns (skills: seq<Entry>, dna: seq<Entry>)
    ensures skills == Records(FirstMatches(ms, SkillCode), CleanSkillFilenameAsWritten)
    ensures dna == Records(FirstMatches(ms, DnaCode), CleanSkillFilenameAsWritten)
  {
    skills, dna := [], [];
    var seenSkill: set<string> := {};
    var seenDna: set<string> := {};
    for i := 0 to |ms|
      invariant skills == Records(FirstMatches(ms[..i], SkillCode), CleanSkillFilenameAsWritten)
      invariant seenSkill == Seen(ms[..i], SkillCode)
      invariant dna == Records(FirstMatches(ms[..i], DnaCode), CleanSkillFilenameAsWritten)
      invariant seenDna == Seen(ms[..i], DnaCode)
    {
      if ms[i].typeCode == SkillCode {
        SeenStep(ms, i, DnaCode);
        skills, seenSkill := KeepFirst(ms, i, SkillCode, CleanSkillFilenameAsWritten, skills, seenSkill);
      } else if ms[i].typeCode == DnaCode {
        SeenStep(ms, i, SkillCode);
        dna, seenDna := KeepFirst(ms, i, DnaCode, CleanSkillFilenameAsWritten, dna, seenDna);
      } else {
        SeenStep(ms, i, SkillCode);
        SeenStep(ms, i, DnaCode);
      }
    }
    assert ms[..|ms|] == ms;
  }

  /**
   * The image loop stores the name the cleaner as written gives: a DNA image
   * `DNA_G<w>_G.png` becomes the record `DNA<w>`.
   */
  lemma DnaRecordAsWritten(sid: string, w: string)
    requires PlainWord(w)
    ensures Records(FirstMatches([ImgMatch(DnaCode, sid, "DNA_G" + w + "_G.png")], DnaCode), CleanSkillFilenameAsWritten)
      == [Entry(sid, "DNA" + w, DefaultMaxLevel, None, None, None, None)]
  {
    var ms := [ImgMatch(DnaCode, sid, "DNA_G" + w + "_G.png")];
    assert ms[..0] == [];
    assert FirstOf(ms, DnaCode, 0);
    assert FirstMatches(ms, DnaCode) == ms;
    GMarkerAsWritten(w);
  }

  /** The ids of a list of matches. */
  function Sids(fs: seq<ImgMatch>): set<string>
  {
    set k | 0 <= k < |fs| :: fs[k].sid
  }

  /** The first matches of type `code` carry exactly the ids seen for that type. */
  lemma {:induction false} FirstMatchesIds(ms: seq<ImgMatch>, code: string)
    ensures Sids(FirstMatches(ms, code)) == Seen(ms, code)
  {
    if |ms| > 0 {
      var n := |ms| - 1;
      FirstMatchesIds(ms[..n], code);
      SeenStep(ms, n, code);
      assert ms[..n + 1] == ms;
      var r, r0 := FirstMatches(ms, code), FirstMatches(ms[..n], code);
      if FirstOf(ms, code, n) {
        assert r == r0 + [ms[n]];
        assert ms[n].typeCode == code;
        assert Seen(ms, code) == Seen(ms[..n], code) + {ms[n].sid};
        assert Sids(r) == Sids(r0) + {ms[n].sid} by {
          assert forall k :: 0 <= k < |r0| ==> r[k] == r0[k];
          assert r[|r0|] == ms[n];
        }
      } else {
        assert r == r0;
        assert Seen(ms, code) == Seen(ms[..n], code);
      }
    }
  }

  /** No id is kept twice for one type. */
  lemma {:induction false} FirstMatchesDistinct(ms: seq<ImgMatch>, code: string)
    ensures forall a, b :: 0 <= a < b < |FirstMatches(ms, code)| ==>
      FirstMatches(ms, code)[a].sid != FirstMatches(ms, code)[b].sid
  {
    if |ms| > 0 {
      var n := |ms| - 1;
      FirstMatchesDistinct(ms[..n], code);
      FirstMatchesIds(ms[..n], code);
      SeenStep(ms, n, code);
      assert ms[..n + 1] == ms;
      var r, r0 := FirstMatches(ms, code), FirstMatches(ms[..n], code);
      if FirstOf(ms, code, n) {
        assert r == r0 + [ms[n]];
        forall a, b | 0 <= a < b < |r| ensures r[a].sid != r[b].sid {
          if b == |r0| {
            assert r0[a].sid in Sids(r0);
          }
        }
      }
    }
  }

  /** `x` is the first image of its id among those of type `code`. */
  ghost predicate IsFirst(ms: seq<ImgMatch>, code: string, x: ImgMatch) {
    exists i :: FirstOf(ms, code, i) && ms[i] == x
  }

  /** Every kept match is the first image of its id and type. */
  lemma {:induction false} FirstMatchesOrigin(ms: seq<ImgMatch>, code: string)
    ensures forall x :: x in FirstMatches(ms, code) ==> IsFirst(ms, code, x)
  {
    if |ms| > 0 {
      var n := |ms| - 1;
      var init := ms[..n];
      FirstMatchesOrigin(init, code);
      SeenStep(ms, n, code);
      assert ms[..n + 1] == ms;
      var r0 := FirstMatches(init, code);
      assert FirstMatches(ms, code) == r0 + if FirstOf(ms, code, n) then [ms[n]] else [];
      forall x | x in FirstMatches(ms, code) ensures IsFirst(ms, code, x) {
        if x in r0 {
          var i :| FirstOf(init, code, i) && init[i] == x;
          assert init[i] == ms[i];
          assert FirstOf(ms, code, i);
        } else {
          assert FirstOf(ms, code, n) && ms[n] == x;
        }
      }
    }
  }

  /**
   * The records extracted for one type: pairwise distinct ids, exactly the ids of that
   * type's images, each record built from the first image carrying its id, with `maxLevel` 10.
   */
  lemma SkeletonRecords(ms: seq<ImgMatch>, code: string, clean: string -> string)
    ensures var es := Records(FirstMatches(ms, code), clean);
      && (forall a, b :: 0 <= a < b < |es| ==> es[a].id != es[b].id)
      && (forall id :: id in Seen(ms, code) <==> exists k :: 0 <= k < |es| && es[k].id == id)
      && (forall k :: 0 <= k < |es| ==> es[k].maxLevel == DefaultMaxLevel)
    ensures forall e :: e in Records(FirstMatches(ms, code), clean) ==>
      exists m :: IsFirst(ms, code, m) && e == SkeletonEntry(m, clean)
  {
    var fs := FirstMatches(ms, code);
    var es := Records(fs, clean);
    FirstMatchesIds(ms, code);
    FirstMatchesDistinct(ms, code);
    FirstMatchesOrigin(ms, code);
    assert forall k :: 0 <= k < |fs| ==> es[k].id == fs[k].sid;
    forall id | id in Seen(ms, code) ensures exists k :: 0 <= k < |es| && es[k].id == id {
      assert id in Sids(fs);
    }
    forall e | e in es ensures exists m :: IsFirst(ms, code, m) && e == SkeletonEntry(m, clean) {
      var k :| 0 <= k < |es| && es[k] == e;
      assert fs[k] in fs;
    }
  }

  // ---------------------------------------------------------------------------
  // `find_latest_calculator_index` / `find_latest_subclass_page`

  /** A snapshot file: the name of its timestamp folder and its full path. */
  datatype Snapshot = Snapshot(folder: string, path: string)

  /** `ts_key`: the folder as a number (0 when it is not one), then the path. */
  function TsKey(c: Snapshot): (nat, string)
  {
    (if AllDigits(c.folder) then DigitsValue(c.folder) else 0, c.path)
  }

  /** Tuple order on keys. */
  predicate KeyBelow(a: (nat, string), b: (nat, string)) {
    a.0 < b.0 || (a.0 == b.0 && LexLess(a.1, b.1))
  }

  lemma KeyOrder(a: (nat, string), b: (nat, string), c: (nat, string))
    ensures a == b || KeyBelow(a, b) || KeyBelow(b, a)
    ensures !KeyBelow(a, a) && !(KeyBelow(a, b) && KeyBelow(b, a))
    ensures KeyBelow(a, b) && KeyBelow(b, c) ==> KeyBelow(a, c)
  {
    LexTotal(a.1, b.1);
    LexTotal(a.1, a.1);
    if KeyBelow(a, b) && KeyBelow(b, c) && a.0 == b.0 && b.0 == c.0 {
      LexTransitive(a.1, b.1, c.1);
    }
  }

  /** Sorting by descending key and taking the head: `None` without candidates, else one with the largest key. */
  method LatestSnapshot(cs: seq<Snapshot>) returns (latest: Option<Snapshot>)
    ensures latest.None? <==> |cs| == 0
    ensures latest.Some? ==> latest.value in cs && forall c :: c in cs ==> !KeyBelow(TsKey(latest.value), TsKey(c))
  {
    if |cs| == 0 {
      return None;
    }
    var best := cs[0];
    KeyOrder(TsKey(best), TsKey(best), TsKey(best));
    for i := 1 to |cs|
      invariant best in cs
      invariant forall j :: 0 <= j < i ==> !KeyBelow(TsKey(best), TsKey(cs[j]))
    {
      if KeyBelow(TsKey(best), TsKey(cs[i])) {
        forall j | 0 <= j <= i ensures !KeyBelow(TsKey(cs[i]), TsKey(cs[j])) {
          KeyOrder(TsKey(cs[j]), TsKey(best), TsKey(cs[i]));
          KeyOrder(TsKey(cs[j]), TsKey(cs[i]), TsKey(cs[i]));
        }
        best := cs[i];
      }
    }
    KeyOrder(TsKey(best), TsKey(best), TsKey(best));
    latest := Some(best);
  }
}
