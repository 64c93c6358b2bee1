/**
 * The DNA cleanup: every spec's DNA list keeps, in order, only the records with a
 * meaningful name, and the pass counts what it removed and what it kept.
 */
module CleanupDna {
  import opened Text
  import opened CanonicalStore

  /** The generic label of placeholder DNA records. */
  const Placeholder: string := "DNA Stats"

  /** A record is kept when its stripped name is non-empty and does not start with the label. */
  predicate Meaningful(e: Entry) {
    var name := Strip(e.name);
    name != "" && name != Placeholder && !StartsWith(name, Placeholder)
  }

  /** The records of one list that `keep` accepts, in their original order. */
  function Kept(es: seq<Entry>, keep: Entry -> bool): seq<Entry>
  {
    if |es| == 0 then [] else Kept(es[..|es| - 1], keep) + (if keep(es[|es| - 1]) then [es[|es| - 1]] else [])
  }

  /** How many records of one list `keep` rejects. */
  function Removed(es: seq<Entry>, keep: Entry -> bool): nat
  {
    if |es| == 0 then 0 else Removed(es[..|es| - 1], keep) + (if keep(es[|es| - 1]) then 0 else 1)
  }

  /** Every spec's list filtered; the spec keys and their order stay. */
  function Cleaned(ls: EntryLists, keep: Entry -> bool): (r: EntryLists)
    ensures |r| == |ls| && forall i :: 0 <= i < |ls| ==> r[i].0 == ls[i].0
  {
    seq(|ls|, i requires 0 <= i < |ls| => (ls[i].0, Kept(ls[i].1, keep)))
  }

  /** The number of records over all lists. */
  function Total(ls: EntryLists): nat
  {
    if |ls| == 0 then 0 else Total(ls[..|ls| - 1]) + |ls[|ls| - 1].1|
  }

  /** The number of dropped records over all lists. */
  function TotalRemoved(ls: EntryLists, keep: Entry -> bool): nat
  {
    if |ls| == 0 then 0 else TotalRemoved(ls[..|ls| - 1], keep) + Removed(ls[|ls| - 1].1, keep)
  }

  /** The filter of one list, with its two counters. */
  method FilterDna(dnaList: seq<Entry>) returns (filtered: seq<Entry>, removed: nat, kept: nat)
    ensures filtered == Kept(dnaList, Meaningful) && removed == Removed(dnaList, Meaningful) && kept == |filtered|
  {
    filtered, removed, kept := [], 0, 0;
    for i := 0 to |dnaList|
      invariant filtered == Kept(dnaList[..i], Meaningful) && removed == Removed(dnaList[..i], Meaningful)
      invariant kept == |filtered|
    {
      assert dnaList[..i + 1][..i] == dnaList[..i];
      var dna := dnaList[i];
      var name := Strip(dna.name);
      if name != "" && name != Placeholder && !StartsWith(name, Placeholder) {
        filtered := filtered + [dna];
        kept := kept + 1;
      } else {
        removed := removed + 1;
      }
    }
    assert dnaList[..|dnaList|] == dnaList;
  }

  /** `main`: filter every spec's DNA list in place; write back when something was removed. */
  method CleanupDnaStore(store: Store) returns (result: Store, totalRemoved: nat, totalKept: nat, write: bool)
    ensures result == store.(dna := Cleaned(store.dna, Meaningful))
    ensures totalRemoved == TotalRemoved(store.dna, Meaningful)
    ensures totalKept == Total(result.dna)
    ensures totalRemoved + totalKept == Total(store.dna)
    ensures write <==> result != store
  {
    var dna := store.dna;
    totalRemoved, totalKept := 0, 0;
    for i := 0 to |dna|
      invariant |dna| == |store.dna| && dna[i..] == store.dna[i..]
      invariant dna[..i] == Cleaned(store.dna[..i], Meaningful)
      invariant totalRemoved == TotalRemoved(store.dna[..i], Meaningful) && totalKept == Total(dna[..i])
    {
      var filtered, removed, kept := FilterDna(dna[i].1);
      CleanStep(store.dna, dna, i, filtered);
      totalRemoved := totalRemoved + removed;
      totalKept := totalKept + kept;
      dna := dna[i := (dna[i].0, filtered)];
    }
    assert store.dna[..|dna|] == store.dna;
    assert dna[..|dna|] == dna;
    result := store.(dna := dna);
    write := totalRemoved > 0;
    CleanedCounts(store.dna, Meaningful);
    RemovedNone(store.dna, Meaningful);
  }

  /** Replacing list `i` by its filtered form extends the cleaned prefix by one list. */
  lemma CleanStep(ls: EntryLists, cur: EntryLists, i: nat, filtered: seq<Entry>)
    requires i < |ls| == |cur| && cur[i..] == ls[i..]
    requires cur[..i] == Cleaned(ls[..i], Meaningful)
    requires filtered == Kept(ls[i].1, Meaningful)
    ensures cur[i := (cur[i].0, filtered)][i + 1..] == ls[i + 1..]
    ensures cur[i := (cur[i].0, filtered)][..i + 1] == Cleaned(ls[..i + 1], Meaningful)
    ensures cur[i := (cur[i].0, filtered)][..i + 1] == cur[..i] + [(ls[i].0, filtered)]
    ensures TotalRemoved(ls[..i + 1], Meaningful) == TotalRemoved(ls[..i], Meaningful) + Removed(ls[i].1, Meaningful)
  {
    assert cur[i] == ls[i];
    assert ls[..i + 1][..i] == ls[..i];
    var next := cur[i := (cur[i].0, filtered)];
    assert next[..i + 1] == cur[..i] + [(ls[i].0, filtered)];
    assert next[i + 1..] == cur[i + 1..];
  }

  /** Each list splits into the kept and the dropped records. */
  lemma {:induction false} KeptCounts(es: seq<Entry>, keep: Entry -> bool)
    ensures |Kept(es, keep)| + Removed(es, keep) == |es|
  {
    if |es| > 0 {
      KeptCounts(es[..|es| - 1], keep);
    }
  }

  /** Over the whole collection, removed plus kept is the number of records before the pass. */
  lemma {:induction false} CleanedCounts(ls: EntryLists, keep: Entry -> bool)
    ensures Total(Cleaned(ls, keep)) + TotalRemoved(ls, keep) == Total(ls)
  {
    if |ls| > 0 {
      var n := |ls| - 1;
      CleanedCounts(ls[..n], keep);
      KeptCounts(ls[n].1, keep);
      assert Cleaned(ls, keep)[..n] == Cleaned(ls[..n], keep);
    }
  }

  /** A record is kept exactly when it is in the list and accepted: kept records are the originals, unchanged. */
  lemma {:induction false} KeptMembers(es: seq<Entry>, keep: Entry -> bool, e: Entry)
    ensures e in Kept(es, keep) <==> e in es && keep(e)
  {
    if |es| > 0 {
      KeptMembers(es[..|es| - 1], keep, e);
      assert es == es[..|es| - 1] + [es[|es| - 1]];
    }
  }

  /** Filtering splits over a concatenation, so the kept records stay in their order. */
  lemma {:induction false} KeptAppend(a: seq<Entry>, b: seq<Entry>, keep: Entry -> bool)
    ensures Kept(a + b, keep) == Kept(a, keep) + Kept(b, keep)
  {
    if |b| > 0 {
      var n := |b| - 1;
      KeptAppend(a, b[..n], keep);
      assert (a + b)[..|a + b| - 1] == a + b[..n];
    } else {
      assert a + b == a;
    }
  }

  /** A list loses nothing exactly when `keep` accepts all its records. */
  lemma {:induction false} RemovedZero(es: seq<Entry>, keep: Entry -> bool)
    ensures Removed(es, keep) == 0 <==> forall i :: 0 <= i < |es| ==> keep(es[i])
  {
    if |es| > 0 {
      var n := |es| - 1;
      var init := es[..n];
      RemovedZero(init, keep);
      assert forall i :: 0 <= i < n ==> init[i] == es[i];
    }
  }

  /** A list loses nothing exactly when it is kept whole. */
  lemma {:induction false} RemovedZeroKept(es: seq<Entry>, keep: Entry -> bool)
    ensures Removed(es, keep) == 0 <==> Kept(es, keep) == es
  {
    KeptCounts(es, keep);
    if |es| > 0 {
      var n := |es| - 1;
      var init := es[..n];
      RemovedZeroKept(init, keep);
      assert es == init + [es[n]];
    }
  }

  /** The pass writes exactly when it changes the store. */
  lemma {:induction false} RemovedNone(ls: EntryLists, keep: Entry -> bool)
    ensures TotalRemoved(ls, keep) == 0 <==> Cleaned(ls, keep) == ls
  {
    if |ls| > 0 {
      var n := |ls| - 1;
      var init, last := ls[..n], ls[n];
      RemovedNone(init, keep);
      RemovedZeroKept(last.1, keep);
      assert Cleaned(ls, keep) == Cleaned(init, keep) + [(last.0, Kept(last.1, keep))];
      assert ls == init + [last];
      if Cleaned(ls, keep) == ls {
        assert Cleaned(ls, keep)[..n] == Cleaned(init, keep);
        assert Kept(last.1, keep) == Cleaned(ls, keep)[n].1;
      }
    }
  }

  /** Every kept record is accepted, so running the cleanup on its own output removes nothing. */
  lemma CleanupSettles(ls: EntryLists, keep: Entry -> bool)
    ensures TotalRemoved(Cleaned(ls, keep), keep) == 0
    ensures Cleaned(Cleaned(ls, keep), keep) == Cleaned(ls, keep)
  {
    var c := Cleaned(ls, keep);
    forall i | 0 <= i < |c|
      ensures Removed(c[i].1, keep) == 0
    {
      var kept := Kept(ls[i].1, keep);
      forall j | 0 <= j < |kept|
        ensures keep(kept[j])
      {
        KeptMembers(ls[i].1, keep, kept[j]);
      }
      RemovedZero(kept, keep);
    }
    SettledLists(c, keep);
    RemovedNone(c, keep);
  }

  /** A collection whose lists all lose nothing loses nothing. */
  lemma {:induction false} SettledLists(ls: EntryLists, keep: Entry -> bool)
    requires forall i :: 0 <= i < |ls| ==> Removed(ls[i].1, keep) == 0
    ensures TotalRemoved(ls, keep) == 0
  {
    if |ls| > 0 {
      SettledLists(ls[..|ls| - 1], keep);
    }
  }
}
