/**
 * The level-requirement extraction: for every skill whose normalised name has a wiki page
 * with a "Prerequisite Level" row, set the skill's `lvlReq` to the numbers in that row.
 */
module WikiLevels {
  import opened Wrappers
  import opened Text
  import opened CanonicalStore
  import Wiki

  /**
   * `extract_prereq_levels`: the numbers of the row's digit runs; `None` when the page has
   * no such row or the row holds no number.
   */
  function PrereqLevels(row: Option<seq<Wiki.DigitRun>>): (r: Option<seq<nat>>)
    ensures r.Some? <==> row.Some? && |row.value| > 0
    ensures r.Some? ==> |r.value| == |row.value| > 0
  {
    match row
    case None => None
    case Some(runs) => if |runs| == 0 then None else Some(seq(|runs|, i requires 0 <= i < |runs| => DigitsValue(runs[i])))
  }

  /** The JSON list of plain numbers, as `lvlReq` stores it. */
  function AsLevels(ns: seq<nat>): (r: seq<Option<nat>>)
    ensures |r| == |ns| && forall i :: 0 <= i < |r| ==> r[i] == Some(ns[i])
  {
    seq(|ns|, i requires 0 <= i < |ns| => Some(ns[i]))
  }

  /** One skill after the loop body: `lvlReq` set when its page gives levels. */
  function WithLevels(e: Entry, idx: map<string, Wiki.Page>): Entry
  {
    match Wiki.PageOf(idx, e.name)
    case None => e
    case Some(page) =>
      match PrereqLevels(page.prereqLevelRow)
      case None => e
      case Some(ns) => e.(lvlReq := Some(AsLevels(ns)))
  }

  function LevelsFixer(idx: map<string, Wiki.Page>): Entry -> Entry
  {
    (e: Entry) => WithLevels(e, idx)
  }

  /**
   * A skill changes only in `lvlReq`, only when its page has a non-empty level row, and the
   * new list then holds one known level per digit run of that row; a second pass changes nothing.
   */
  lemma WithLevelsChanges(e: Entry, idx: map<string, Wiki.Page>)
    ensures WithLevels(e, idx) == e.(lvlReq := WithLevels(e, idx).lvlReq)
    ensures WithLevels(e, idx) != e ==>
      var page := Wiki.PageOf(idx, e.name);
      page.Some? && page.value.prereqLevelRow.Some?
      && var runs := page.value.prereqLevelRow.value;
      var r := WithLevels(e, idx).lvlReq;
      r.Some? && |r.value| == |runs| > 0
      && forall i :: 0 <= i < |runs| ==> r.value[i] == Some(DigitsValue(runs[i]))
    ensures WithLevels(WithLevels(e, idx), idx) == WithLevels(e, idx)
  {
  }

  function LevelsStore(store: Store, pages: seq<Wiki.Page>): Store
  {
    store.(skills := MapLists(store.skills, LevelsFixer(Wiki.Index(pages))))
  }

  /** `main`: skills only; DNA, jobs and groups are left as they are. */
  method ExtractRequirementsFromWiki(store: Store, pages: seq<Wiki.Page>)
    returns (result: Store, updatedCount: nat, write: bool)
    ensures result == LevelsStore(store, pages)
    ensures updatedCount == ListsChanged(store.skills, LevelsFixer(Wiki.Index(pages)))
    ensures write <==> result != store
  {
    var wikiIdx := Wiki.BuildIndex(pages);
    var skills, n := RewriteLists(store.skills, LevelsFixer(wikiIdx));
    result := store.(skills := skills);
    updatedCount := n;
    write := updatedCount > 0;
    ListsChangedZero(store.skills, LevelsFixer(wikiIdx));
  }

  /** Running the pass on its own output changes no skill. */
  lemma LevelsSettle(store: Store, pages: seq<Wiki.Page>)
    ensures ListsChanged(LevelsStore(store, pages).skills, LevelsFixer(Wiki.Index(pages))) == 0
  {
    var f := LevelsFixer(Wiki.Index(pages));
    forall e ensures f(f(e)) == f(e) {
      WithLevelsChanges(e, Wiki.Index(pages));
    }
    IdempotentRewrite(store.skills, f);
  }
}
