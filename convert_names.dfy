/**
 * The name-conversion script: skill, job and spec names are re-keyed against the wiki's
 * titles by their lower-case, space-free form, and DNA names written without spaces are
 * spelled out from an override table or by spacing their capitals.
 */
module ConvertNames {
  import opened Wrappers
  import opened Text
  import opened CanonicalStore
  import opened DnaNames
  import Wiki

  // ---------------------------------------------------------------------------
  // DNA names (`convert_names_from_russian`)

  const DnaStatsMarker: string := "DNA Stats"

  /** A DNA name after the pass: its override, else (unless it mentions DNA stats) its capitals spaced. */
  function RussianName(name: string): string
  {
    match DnaName(name)
    case Some(v) => v
    case None => if Contains(name, DnaStatsMarker) then name else SpaceBeforeCapitals(name)
  }

  function RussianFixer(): Entry -> Entry
  {
    (e: Entry) => e.(name := RussianName(e.name))
  }

  /** An override key becomes its spelled-out value, which is the key with spaces put back. */
  lemma OverrideApplies(name: string)
    requires DnaName(name).Some?
    ensures RussianName(name) == DnaName(name).value
    ensures Delete(RussianName(name), ' ') == name
  {
    DnaNameDespaced(name);
  }

  /** A name mentioning "DNA Stats" is never an override key, so the pass leaves it alone. */
  lemma DnaStatsKept(name: string)
    requires Contains(name, DnaStatsMarker)
    ensures RussianName(name) == name
  {
    var i :| 0 <= i <= |name| - |DnaStatsMarker| && OccursAt(name, DnaStatsMarker, i);
    assert name[i + 3] == DnaStatsMarker[3] == ' ';
    if DnaName(name).Some? {
      OverriddenNameHasNoSpace(name);
    }
  }

  /** Output of the fallback never mentions "DNA Stats": its `N` would follow a space, not a `D`. */
  lemma FallbackNeverMarked(s: string)
    ensures !Contains(SpaceBeforeCapitals(s), DnaStatsMarker)
  {
    var r := SpaceBeforeCapitals(s);
    SpaceBeforeCapitalsSpaced(s);
    forall i | 0 <= i <= |r| - |DnaStatsMarker| ensures !OccursAt(r, DnaStatsMarker, i) {
      assert r[i + 1] == 'N' ==> r[i] == ' ';
    }
  }

  /**
   * The fallback changes an unmapped, unmarked name exactly when it has a capital after its
   * first character, and such a name keeps changing on every later run.
   */
  lemma FallbackNotIdempotent(name: string)
    requires DnaName(name).None? && !Contains(name, DnaStatsMarker)
    ensures RussianName(name) != name <==> HasInnerCapital(name)
    ensures HasInnerCapital(name) ==> RussianName(RussianName(name)) != RussianName(name)
  {
    SpaceBeforeCapitalsChanges(name);
    if HasInnerCapital(name) {
      var r := SpaceBeforeCapitals(name);
      SpaceBeforeCapitalsSpaced(name);
      SpaceBeforeCapitalsNotIdempotent(name);
      FallbackNeverMarked(name);
      if DnaName(r).Some? {
        OverriddenNameHasNoSpace(r);
      }
    }
  }

  /** The store after `convert_names_from_russian`: only DNA names change. */
  function RussianStore(store: Store): Store
  {
    store.(dna := MapLists(store.dna, RussianFixer()))
  }

  method ConvertNamesFromRussian(store: Store) returns (result: Store, updatedCount: nat, write: bool)
    ensures result == RussianStore(store)
    ensures updatedCount == ListsChanged(store.dna, RussianFixer())
    ensures write <==> result != store
  {
    var dna, n := RewriteLists(store.dna, RussianFixer());
    result := store.(dna := dna);
    updatedCount := n;
    write := updatedCount > 0;
    ListsChangedZero(store.dna, RussianFixer());
  }

  // ---------------------------------------------------------------------------
  // Skill, job and spec names (`convert_names`)

  /** A wiki map as `get_wiki_skill_names` builds it: each key is its title's spaceless lower-case form. */
  predicate KeyedByTitle(m: map<string, string>)
  {
    forall k :: k in m ==> SpacelessLower(m[k]) == k
  }

  lemma SkillMapKeyed(files: seq<string>)
    ensures KeyedByTitle(Wiki.SkillMap(files))
  {
    Wiki.SkillMapKeys(files);
  }

  /** A skill: the title under its key, else, for the misspelling "radient", the "radiant" title. */
  function SkillName(m: map<string, string>, name: string): string
  {
    var key := SpacelessLower(name);
    if key in m then m[key]
    else if key == "radient" && "radiant" in m then m["radiant"]
    else name
  }

  /** A job: the title under its key; there is no "radient" redirect. */
  function JobName(m: map<string, string>, name: string): string
  {
    var key := SpacelessLower(name);
    if key in m then m[key] else name
  }

  /**
   * A spec: the title under its key when it differs; otherwise (also when the key is mapped
   * to the name itself) "radient" is redirected to the "radiant" title.
   */
  function SpecName(m: map<string, string>, name: string): string
  {
    var key := SpacelessLower(name);
    if key in m && name != m[key] then m[key]
    else if key == "radient" && "radiant" in m then m["radiant"]
    else name
  }

  function SkillFixer(m: map<string, string>): Entry -> Entry
  {
    (e: Entry) => e.(name := SkillName(m, e.name))
  }

  function JobFixer(m: map<string, string>): string -> string
  {
    (n: string) => JobName(m, n)
  }

  function SpecFixer(m: map<string, string>): string -> string
  {
    (n: string) => SpecName(m, n)
  }

  /**
   * A skill or job is renamed only to the title filed under its own key (skills also to the
   * "radiant" title when the key is "radient" and unmapped); with a map built from wiki
   * titles, the rename keeps the key, so it changes only spacing and case.
   */
  lemma RenamedOnlyByKey(m: map<string, string>, name: string)
    requires KeyedByTitle(m)
    ensures JobName(m, name) != name ==>
      SpacelessLower(name) in m && JobName(m, name) == m[SpacelessLower(name)]
    ensures SkillName(m, name) != name ==>
      (SpacelessLower(name) in m && SkillName(m, name) == m[SpacelessLower(name)])
      || (SpacelessLower(name) == "radient" && "radiant" in m && SkillName(m, name) == m["radiant"])
    ensures SpacelessLower(name) in m ==> SpacelessLower(JobName(m, name)) == SpacelessLower(name)
    ensures SpacelessLower(name) in m ==> SpacelessLower(SkillName(m, name)) == SpacelessLower(name)
  {
  }

  /** With a map built from wiki titles, converting skills or jobs twice equals converting once. */
  lemma SkillAndJobIdempotent(m: map<string, string>, name: string)
    requires KeyedByTitle(m)
    ensures SkillName(m, SkillName(m, name)) == SkillName(m, name)
    ensures JobName(m, JobName(m, name)) == JobName(m, name)
  {
    var key := SpacelessLower(name);
    if key in m {
      assert SpacelessLower(m[key]) == key;
    } else if key == "radient" && "radiant" in m {
      assert SpacelessLower(m["radiant"]) == "radiant";
    }
  }

  /**
   * Skills and specs differ on "radient": when the wiki has both a "radient" and a "radiant"
   * title, a spec already carrying the "radient" title is still moved to the "radiant" one,
   * while a skill or job with that name is left alone.
   */
  lemma RadientRedirect(m: map<string, string>)
    requires KeyedByTitle(m) && "radient" in m && "radiant" in m
    ensures SkillName(m, m["radient"]) == m["radient"]
    ensures JobName(m, m["radient"]) == m["radient"]
    ensures SpecName(m, m["radient"]) == m["radiant"] != m["radient"]
  {
    assert SpacelessLower(m["radient"]) == "radient";
    assert SpacelessLower(m["radiant"]) == "radiant";
  }

  /** The store after `convert_names`: skill, job and spec names; DNA is untouched. */
  function ConvertedStore(store: Store, m: map<string, string>): Store
  {
    store.(skills := MapLists(store.skills, SkillFixer(m)),
           jobs := RenameJobLists(store.jobs, JobFixer(m), SpecFixer(m)))
  }

  function ConvertCount(store: Store, m: map<string, string>): nat
  {
    ListsChanged(store.skills, SkillFixer(m)) + JobListsChanged(store.jobs, JobFixer(m), SpecFixer(m))
  }

  method ConvertNames(store: Store, files: seq<string>) returns (result: Store, updatedCount: nat, write: bool)
    ensures result == ConvertedStore(store, Wiki.SkillMap(files))
    ensures updatedCount == ConvertCount(store, Wiki.SkillMap(files))
    ensures write <==> result != store
  {
    var m := Wiki.BuildSkillMap(files);
    var skills, n1 := RewriteLists(store.skills, SkillFixer(m));
    var jobs, n2 := RewriteJobLists(store.jobs, JobFixer(m), SpecFixer(m));
    result := store.(skills := skills, jobs := jobs);
    updatedCount := n1 + n2;
    write := updatedCount > 0;
    ListsChangedZero(store.skills, SkillFixer(m));
    JobListsChangedZero(store.jobs, JobFixer(m), SpecFixer(m));
  }

  /** A second run of the skill conversion over its own output renames no skill. */
  lemma SkillConversionSettles(store: Store, files: seq<string>)
    ensures ListsChanged(ConvertedStore(store, Wiki.SkillMap(files)).skills, SkillFixer(Wiki.SkillMap(files))) == 0
  {
    var m := Wiki.SkillMap(files);
    SkillMapKeyed(files);
    forall e: Entry ensures SkillFixer(m)(SkillFixer(m)(e)) == SkillFixer(m)(e) {
      SkillAndJobIdempotent(m, e.name);
    }
    IdempotentRewrite(store.skills, SkillFixer(m));
  }
}
