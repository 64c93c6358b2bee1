/**
 * The comprehensive name fix: every skill, DNA, job and spec name is looked up first in a
 * table of manual corrections and otherwise matched against the wiki's skill titles by a
 * similarity score, and a name is overwritten (and counted) only when the result is a
 * different, non-empty name. The similarity metric itself is a parameter.
 */
module NameFix {
  import opened Wrappers
  import opened CanonicalStore
  import Wiki

  /** A similarity ratio. */
  type Score = r: real | 0.0 <= r <= 1.0

  /** Threshold and acceptance bound for skill and DNA names. */
  const SkillLimit: real := 0.8
  /** Threshold and acceptance bound for job and spec names. */
  const JobLimit: real := 0.9

  /** The result of `find_best_match`: the chosen wiki title, if any, and its score. */
  datatype Match = Match(best: Option<string>, score: real)

  /** The best match among the first candidates, as the scan leaves it. */
  function BestMatch(name: string, ws: seq<string>, threshold: real, sim: (string, string) -> Score): Match
  {
    if |ws| == 0 then Match(None, 0.0)
    else
      var m := BestMatch(name, ws[..|ws| - 1], threshold, sim);
      var score := sim(name, ws[|ws| - 1]);
      if score > m.score && score >= threshold then Match(Some(ws[|ws| - 1]), score) else m
  }

  /** Candidate `i` is the one the scan keeps: the first with the top score, which clears the threshold. */
  predicate ChosenAt(name: string, ws: seq<string>, threshold: real, sim: (string, string) -> Score, i: int, score: real)
  {
    0 <= i < |ws| && sim(name, ws[i]) == score && score >= threshold && score > 0.0
    && (forall j :: 0 <= j < i ==> sim(name, ws[j]) < score)
    && (forall j :: 0 <= j < |ws| ==> sim(name, ws[j]) <= score)
  }

  /** No candidate clears the threshold with a positive score. */
  predicate NoneQualifies(name: string, ws: seq<string>, threshold: real, sim: (string, string) -> Score)
  {
    forall j :: 0 <= j < |ws| ==> sim(name, ws[j]) < threshold || sim(name, ws[j]) <= 0.0
  }

  /**
   * The scan finds nothing (score 0) exactly when no candidate qualifies; otherwise it
   * returns the earliest candidate with the maximum score, and that score clears the threshold.
   */
  lemma {:induction false} BestMatchChoice(name: string, ws: seq<string>, threshold: real, sim: (string, string) -> Score)
    ensures BestMatch(name, ws, threshold, sim).best.None? <==> NoneQualifies(name, ws, threshold, sim)
    ensures BestMatch(name, ws, threshold, sim).best.None? ==> BestMatch(name, ws, threshold, sim).score == 0.0
    ensures BestMatch(name, ws, threshold, sim).best.Some? ==>
      exists i :: ChosenAt(name, ws, threshold, sim, i, BestMatch(name, ws, threshold, sim).score)
        && ws[i] == BestMatch(name, ws, threshold, sim).best.value
  {
    if |ws| > 0 {
      var n := |ws| - 1;
      var init := ws[..n];
      BestMatchChoice(name, init, threshold, sim);
      var m := BestMatch(name, init, threshold, sim);
      var score := sim(name, ws[n]);
      assert forall j :: 0 <= j < n ==> ws[j] == init[j];
      if score > m.score && score >= threshold {
        if m.best.Some? {
          var i :| ChosenAt(name, init, threshold, sim, i, m.score) && init[i] == m.best.value;
        }
        assert ChosenAt(name, ws, threshold, sim, n, score);
      } else if m.best.Some? {
        var i :| ChosenAt(name, init, threshold, sim, i, m.score) && init[i] == m.best.value;
        assert ChosenAt(name, ws, threshold, sim, i, m.score);
      }
    }
  }

  /** `find_best_match`: scan the candidates, keeping a strictly better score that clears the threshold. */
  method FindBestMatch(name: string, ws: seq<string>, threshold: real, sim: (string, string) -> Score)
    returns (bestMatch: Option<string>, bestScore: real)
    ensures Match(bestMatch, bestScore) == BestMatch(name, ws, threshold, sim)
    ensures bestMatch.None? <==> NoneQualifies(name, ws, threshold, sim)
    ensures bestMatch.Some? ==> exists i :: ChosenAt(name, ws, threshold, sim, i, bestScore) && ws[i] == bestMatch.value
  {
    bestMatch, bestScore := None, 0.0;
    var i := 0;
    while i < |ws|
      invariant 0 <= i <= |ws|
      invariant Match(bestMatch, bestScore) == BestMatch(name, ws[..i], threshold, sim)
    {
      assert ws[..i + 1][..i] == ws[..i];
      var score := sim(name, ws[i]);
      if score > bestScore && score >= threshold {
        bestScore := score;
        bestMatch := Some(ws[i]);
      }
      i := i + 1;
    }
    assert ws[..|ws|] == ws;
    BestMatchChoice(name, ws, threshold, sim);
  }

  // ---------------------------------------------------------------------------
  // Manual corrections

  /** `get_manual_corrections`. */
  const Manual: map<string, string> := map[
    "Frame Nova" := "Flame Nova",
    "Frame Thrower" := "Flame Thrower",
    "Frame Stone" := "Flame Stone",
    "Give Cold Lightning" := "Cold Lightning",
    "Give Curse Flame" := "Cursed Flame",
    "Throw Cold Lightning" := "Cold Lightning Throw",
    "Throw Hydrogen" := "Hydrogen Throw",
    "Throw Pollution" := "Pollution Throw",
    "Throw Wide" := "Wide Throw",
    "Spining Slash" := "Spinning Slash",
    "Bears Stamina" := "Bear Stamina",
    "BloodNailTime" := "Blood Nail Time",
    "Unimia" := "Stealth",
    "Battle Magician" := "Druid",
    "Shield Sence" := "Shield Sense"
  ]

  function ApplyManual(name: string): string
  {
    if name in Manual then Manual[name] else name
  }

  /** No corrected name is itself a key, so applying the table twice equals applying it once. */
  lemma ManualIdempotent(name: string)
    ensures forall k :: k in Manual ==> Manual[k] !in Manual
    ensures ApplyManual(ApplyManual(name)) == ApplyManual(name)
  {
    assert forall k :: k in Manual ==> Manual[k] !in Manual;
  }

  // ---------------------------------------------------------------------------
  // The per-name decision at the call sites

  /** The replacement a call site picks: the manual correction, else a fuzzy match scoring above `limit`. */
  function NewName(name: string, ws: seq<string>, limit: real, sim: (string, string) -> Score): Option<string>
  {
    if name in Manual then Some(Manual[name])
    else
      var m := BestMatch(name, ws, limit, sim);
      if m.best.Some? && m.best.value != "" && m.score > limit then m.best else None
  }

  /** The name after the call site: overwritten only by a non-empty, different replacement. */
  function FixedName(name: string, ws: seq<string>, limit: real, sim: (string, string) -> Score): string
  {
    match NewName(name, ws, limit, sim)
    case Some(n) => if n != "" && name != n then n else name
    case None => name
  }

  /** A name with a manual correction gets it, whatever the wiki titles and the similarity say. */
  lemma ManualFirst(name: string, ws: seq<string>, limit: real, sim: (string, string) -> Score)
    requires name in Manual
    ensures FixedName(name, ws, limit, sim) == Manual[name]
    ensures forall ws', sim' :: NewName(name, ws', limit, sim') == NewName(name, ws, limit, sim)
  {
  }

  /**
   * Without a manual correction, a name is replaced only by a wiki title that scores strictly
   * above the limit and at least as well as every other title; a best score equal to the
   * limit replaces nothing.
   */
  lemma FuzzyStrict(name: string, ws: seq<string>, limit: real, sim: (string, string) -> Score)
    requires name !in Manual
    ensures FixedName(name, ws, limit, sim) != name ==>
      var n := FixedName(name, ws, limit, sim);
      n in ws && sim(name, n) > limit && forall j :: 0 <= j < |ws| ==> sim(name, ws[j]) <= sim(name, n)
    ensures BestMatch(name, ws, limit, sim).score == limit ==> FixedName(name, ws, limit, sim) == name
  {
    BestMatchChoice(name, ws, limit, sim);
    var m := BestMatch(name, ws, limit, sim);
    if FixedName(name, ws, limit, sim) != name {
      var i :| ChosenAt(name, ws, limit, sim, i, m.score) && ws[i] == m.best.value;
    }
  }

  function EntryFixer(ws: seq<string>, sim: (string, string) -> Score): Entry -> Entry
  {
    (e: Entry) => e.(name := FixedName(e.name, ws, SkillLimit, sim))
  }

  function JobNameFixer(ws: seq<string>, sim: (string, string) -> Score): string -> string
  {
    (n: string) => FixedName(n, ws, JobLimit, sim)
  }

  /** An entry changes only in its name, and only when a different non-empty replacement exists. */
  lemma EntryFixerChangesOnlyName(ws: seq<string>, sim: (string, string) -> Score, e: Entry)
    ensures EntryFixer(ws, sim)(e) == e.(name := EntryFixer(ws, sim)(e).name)
    ensures EntryFixer(ws, sim)(e) != e <==>
      var n := NewName(e.name, ws, SkillLimit, sim); n.Some? && n.value != "" && n.value != e.name
  {
  }

  /** The store after the pass. */
  function FixedStore(store: Store, ws: seq<string>, sim: (string, string) -> Score): Store
  {
    store.(skills := MapLists(store.skills, EntryFixer(ws, sim)),
           dna := MapLists(store.dna, EntryFixer(ws, sim)),
           jobs := RenameJobLists(store.jobs, JobNameFixer(ws, sim), JobNameFixer(ws, sim)))
  }

  /** The number of names the pass overwrites. */
  function FixCount(store: Store, ws: seq<string>, sim: (string, string) -> Score): nat
  {
    ListsChanged(store.skills, EntryFixer(ws, sim)) + ListsChanged(store.dna, EntryFixer(ws, sim))
    + JobListsChanged(store.jobs, JobNameFixer(ws, sim), JobNameFixer(ws, sim))
  }

  /** `fix_all_names`: skills, then DNA, then each job and its specs; write back when something changed. */
  method FixAllNames(store: Store, files: seq<string>, sim: (string, string) -> Score)
    returns (result: Store, updatedCount: nat, write: bool)
    ensures result == FixedStore(store, Wiki.Titles(files), sim)
    ensures updatedCount == FixCount(store, Wiki.Titles(files), sim)
    ensures write <==> result != store
  {
    var ws := Wiki.WikiSkillNames(files);
    var skills, n1 := RewriteLists(store.skills, EntryFixer(ws, sim));
    var dna, n2 := RewriteLists(store.dna, EntryFixer(ws, sim));
    var jobs, n3 := RewriteJobLists(store.jobs, JobNameFixer(ws, sim), JobNameFixer(ws, sim));
    result := store.(skills := skills, dna := dna, jobs := jobs);
    updatedCount := n1 + n2 + n3;
    write := updatedCount > 0;
    FixCountZero(store, ws, sim);
  }

  /** The count is zero exactly when the pass leaves the store as it was. */
  lemma FixCountZero(store: Store, ws: seq<string>, sim: (string, string) -> Score)
    ensures FixCount(store, ws, sim) == 0 <==> FixedStore(store, ws, sim) == store
  {
    ListsChangedZero(store.skills, EntryFixer(ws, sim));
    ListsChangedZero(store.dna, EntryFixer(ws, sim));
    JobListsChangedZero(store.jobs, JobNameFixer(ws, sim), JobNameFixer(ws, sim));
  }
}
