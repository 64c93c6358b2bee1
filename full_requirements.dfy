/**
 * The full-requirements enrichment: for every skill whose normalised name has a wiki page,
 * read the page's "Prerequisites" table and its "Level needed" row, link prerequisite names
 * to skill ids, and overwrite the skill's `requires` and `lvlReq` when the page gives
 * something new.
 */
module FullRequirements {
  import opened Wrappers
  import opened Text
  import opened Dicts
  import opened CanonicalStore
  import Wiki

  // ---------------------------------------------------------------------------
  // `parse_prereqs_table`

  /** A record with no field set (`job_req = {}`). */
  const NoFields: Prereq := Prereq(None, None, None)

  /** A comma part that talks about a level. */
  predicate IsLevelPart(part: string) {
    Contains(Lower(part), "level")
  }

  /** One comma part: a level part sets `level` to its first integer (if it has one), any other part sets `name`. */
  function ApplyPart(req: Prereq, part: string): Prereq
  {
    if IsLevelPart(part) then
      match FirstInt(part)
      case Some(n) => req.(level := Some(n))
      case None => req
    else req.(name := Some(part))
  }

  /** The record built from the comma parts, in order. */
  function ReadParts(parts: seq<string>): Prereq
  {
    if |parts| == 0 then NoFields else ApplyPart(ReadParts(parts[..|parts| - 1]), parts[|parts| - 1])
  }

  /** The key of a row: its first cell without colons, lower-cased. */
  function RowKey(row: seq<string>): (key: string)
    requires |row| >= 1
    ensures ':' !in key
  {
    var key := Lower(Delete(row[0], ':'));
    assert forall i :: 0 <= i < |key| ==> key[i] != ':';
    key
  }

  predicate IsReqKey(key: string) {
    Contains(key, "job") || Contains(key, "skill")
  }

  /** What a table row contributes: a job or skill row with at least one field read from its value cell. */
  function RowRecord(row: seq<string>): Option<(string, Prereq)>
  {
    if |row| < 2 then None
    else
      var key := RowKey(row);
      if !IsReqKey(key) then None
      else
        var req := ReadParts(SplitStrip(row[1], ','));
        if req == NoFields then None else Some((key, req))
  }

  /** The prerequisites of a page: `None` without a table or when no row gives a record. */
  function ParsePrereqs(table: Option<seq<seq<string>>>): (r: Option<map<string, Prereq>>)
    ensures r.Some? ==> r.value != map[]
  {
    match table
    case None => None
    case Some(rows) =>
      var reqs := Collect(rows, RowRecord);
      if reqs == map[] then None else Some(reqs)
  }

  /** The comma parts of one value cell, read left to right. */
  method ParseRequirementParts(parts: seq<string>) returns (jobReq: Prereq)
    ensures jobReq == ReadParts(parts)
  {
    jobReq := NoFields;
    for i := 0 to |parts|
      invariant jobReq == ReadParts(parts[..i])
    {
      assert parts[..i + 1][..i] == parts[..i];
      var part := parts[i];
      if Contains(Lower(part), "level") {
        var lvlMatch := FirstInt(part);
        if lvlMatch.Some? {
          jobReq := jobReq.(level := Some(lvlMatch.value));
        }
      } else {
        jobReq := jobReq.(name := Some(part));
      }
    }
    assert parts[..|parts|] == parts;
  }

  /** `parse_prereqs_table` over the rows of the table holding the "Prerequisites" header. */
  method ParsePrereqsTable(table: Option<seq<seq<string>>>) returns (result: Option<map<string, Prereq>>)
    ensures result == ParsePrereqs(table)
  {
    if table.None? {
      return None;
    }
    var rows := table.value;
    var reqs: map<string, Prereq> := map[];
    for i := 0 to |rows|
      invariant reqs == Collect(rows[..i], RowRecord)
    {
      CollectStep(rows, i, RowRecord);
      var row := ParseRow(rows[i]);
      if row.Some? {
        reqs := reqs[row.value.0 := row.value.1];
      }
    }
    assert rows[..|rows|] == rows;
    result := if reqs == map[] then None else Some(reqs);
  }

  /** The body of the row loop of `parse_prereqs_table`: one row's key and record, if it gives one. */
  method ParseRow(cells: seq<string>) returns (row: Option<(string, Prereq)>)
    ensures row == RowRecord(cells)
  {
    row := None;
    if |cells| >= 2 {
      var key := Lower(Delete(cells[0], ':'));
      if Contains(key, "job") || Contains(key, "skill") {
        var jobReq := ParseRequirementParts(SplitStrip(cells[1], ','));
        if jobReq != NoFields {
          row := Some((key, jobReq));
        }
      }
    }
  }

  /** What one part does to each field. */
  lemma ApplyPartFields(req: Prereq, part: string)
    ensures ApplyPart(req, part).id == req.id
    ensures ApplyPart(req, part).name == (if IsLevelPart(part) then req.name else Some(part))
    ensures ApplyPart(req, part).level == (if SetsLevel(part) then FirstInt(part) else req.level)
  {
  }

  /** Part `i` is the last part that is not about a level. */
  predicate LastNamePart(parts: seq<string>, i: int) {
    0 <= i < |parts| && !IsLevelPart(parts[i]) && forall j :: i < j < |parts| ==> IsLevelPart(parts[j])
  }

  /** A level part with a number in it. */
  predicate SetsLevel(part: string) {
    IsLevelPart(part) && FirstInt(part).Some?
  }

  /** Part `i` is the last level part with a number. */
  predicate LastLevelPart(parts: seq<string>, i: int) {
    0 <= i < |parts| && SetsLevel(parts[i]) && forall j :: i < j < |parts| ==> !SetsLevel(parts[j])
  }

  /**
   * The name is the last part that does not mention a level (absent when every part does);
   * later parts overwrite earlier ones.
   */
  lemma {:induction false} ReadPartsName(parts: seq<string>)
    ensures ReadParts(parts).id.None?
    ensures ReadParts(parts).name.None? <==> forall i :: 0 <= i < |parts| ==> IsLevelPart(parts[i])
    ensures forall i :: LastNamePart(parts, i) ==> ReadParts(parts).name == Some(parts[i])
  {
    if |parts| > 0 {
      var n := |parts| - 1;
      var init := parts[..n];
      ReadPartsName(init);
      var before := ReadParts(init);
      assert ReadParts(parts) == ApplyPart(before, parts[n]);
      ApplyPartFields(before, parts[n]);
      assert forall i :: 0 <= i < n ==> init[i] == parts[i];
      forall i | LastNamePart(parts, i) ensures ReadParts(parts).name == Some(parts[i]) {
        if i < n {
          assert IsLevelPart(parts[n]);
          assert LastNamePart(init, i);
        }
      }
    }
  }

  /**
   * The level is the first integer of the last level part that has one (absent when no
   * level part has a number); a level part without a number changes nothing.
   */
  lemma {:induction false} ReadPartsLevel(parts: seq<string>)
    ensures ReadParts(parts).level.None? <==> forall i :: 0 <= i < |parts| ==> !SetsLevel(parts[i])
    ensures forall i :: LastLevelPart(parts, i) ==> ReadParts(parts).level == FirstInt(parts[i])
  {
    if |parts| > 0 {
      var n := |parts| - 1;
      var init := parts[..n];
      ReadPartsLevel(init);
      var before := ReadParts(init);
      assert ReadParts(parts) == ApplyPart(before, parts[n]);
      ApplyPartFields(before, parts[n]);
      assert forall i :: 0 <= i < n ==> init[i] == parts[i];
      forall i | LastLevelPart(parts, i) ensures ReadParts(parts).level == FirstInt(parts[i]) {
        if i < n {
          assert !SetsLevel(parts[n]);
          assert LastLevelPart(init, i);
        }
      }
    }
  }

  /** A contributing row is keyed by a colon-free key that names a job or a skill. */
  lemma RowRecordKey(row: seq<string>)
    requires RowRecord(row).Some?
    ensures IsReqKey(RowRecord(row).value.0) && ':' !in RowRecord(row).value.0
  {
    assert RowRecord(row).value.0 == RowKey(row);
  }

  /**
   * The table gives `None` exactly when no row contributes; otherwise its keys are the keys
   * of contributing rows, each naming a job or a skill and free of colons.
   */
  lemma ParsePrereqsRows(rows: seq<seq<string>>, k: string)
    ensures ParsePrereqs(Some(rows)).None? <==> forall i :: 0 <= i < |rows| ==> RowRecord(rows[i]).None?
    ensures ParsePrereqs(Some(rows)).Some? ==>
      (k in ParsePrereqs(Some(rows)).value <==> exists i :: 0 <= i < |rows| && Yields(RowRecord, rows[i], k))
    ensures ParsePrereqs(Some(rows)).Some? && k in ParsePrereqs(Some(rows)).value ==>
      IsReqKey(k) && ':' !in k
  {
    var reqs := Collect(rows, RowRecord);
    CollectLast(rows, RowRecord, k);
    CollectEmpty(rows, RowRecord);
    if k in reqs {
      var i :| 0 <= i < |rows| && Yields(RowRecord, rows[i], k);
      RowRecordKey(rows[i]);
    }
  }

  // ---------------------------------------------------------------------------
  // `parse_level_needed_row`

  /** The cells of the "Level needed" row: its `td`s, else its `th`s after the header. */
  function LevelCells(row: Wiki.LevelRow): seq<string>
  {
    if |row.tds| > 0 then row.tds
    else if |row.ths| > 1 then row.ths[1..]
    else []
  }

  /** The value of the last all-digit cell, if any (`last_level` after the cells). */
  function LastLevel(cells: seq<string>): Option<nat>
  {
    if |cells| == 0 then None
    else if AllDigits(cells[|cells| - 1]) then Some(DigitsValue(cells[|cells| - 1]))
    else LastLevel(cells[..|cells| - 1])
  }

  /** One level per cell: the last level known at that cell. */
  function Filled(cells: seq<string>): (levels: seq<Option<nat>>)
    ensures |levels| == |cells|
  {
    seq(|cells|, i requires 0 <= i < |cells| => LastLevel(cells[..i + 1]))
  }

  /** A non-empty list shorter than five is padded with its last element up to five. */
  function Padded(levels: seq<Option<nat>>): seq<Option<nat>>
  {
    if 0 < |levels| < 5 then levels + seq(5 - |levels|, _ => levels[|levels| - 1]) else levels
  }

  function ParseLevelNeeded(row: Option<Wiki.LevelRow>): Option<seq<Option<nat>>>
  {
    match row
    case None => None
    case Some(r) =>
      var levels := Padded(Filled(LevelCells(r)));
      if |levels| == 0 then None else Some(levels)
  }

  /** `parse_level_needed_row`: forward-fill the cells, then pad. */
  method ParseLevelNeededRow(row: Option<Wiki.LevelRow>) returns (result: Option<seq<Option<nat>>>)
    ensures result == ParseLevelNeeded(row)
  {
    if row.None? {
      return None;
    }
    var cells := LevelCells(row.value);
    var levels: seq<Option<nat>> := [];
    var lastLevel: Option<nat> := None;
    for i := 0 to |cells|
      invariant |levels| == i
      invariant lastLevel == LastLevel(cells[..i])
      invariant forall k :: 0 <= k < i ==> levels[k] == LastLevel(cells[..k + 1])
    {
      assert cells[..i + 1][..i] == cells[..i];
      var val := cells[i];
      if AllDigits(val) {
        lastLevel := Some(DigitsValue(val));
        levels := levels + [lastLevel];
      } else {
        levels := levels + [lastLevel];
      }
    }
    assert levels == Filled(cells);
    levels := PadLevels(levels);
    result := if |levels| > 0 then Some(levels) else None;
  }

  /** The padding `while` of `parse_level_needed_row`. */
  method PadLevels(levels: seq<Option<nat>>) returns (padded: seq<Option<nat>>)
    ensures padded == Padded(levels)
  {
    padded := levels;
    if |levels| > 0 && |levels| < 5 {
      var lastVal := levels[|levels| - 1];
      while |padded| < 5
        invariant |levels| <= |padded| <= 5
        invariant padded == levels + seq(|padded| - |levels|, _ => lastVal)
      {
        padded := padded + [lastVal];
      }
    }
  }

  /** Cell `i` is the last cell that is a number. */
  predicate LastDigitCell(cells: seq<string>, i: int) {
    0 <= i < |cells| && AllDigits(cells[i]) && forall j :: i < j < |cells| ==> !AllDigits(cells[j])
  }

  /**
   * `last_level` is the value of the last digit cell, and `None` when no cell so far is a
   * number.
   */
  lemma {:induction false} LastLevelMeaning(cells: seq<string>)
    ensures LastLevel(cells).None? <==> forall i :: 0 <= i < |cells| ==> !AllDigits(cells[i])
    ensures LastLevel(cells).Some? ==>
      exists i :: LastDigitCell(cells, i) && LastLevel(cells).value == DigitsValue(cells[i])
  {
    if |cells| > 0 {
      var n := |cells| - 1;
      var init := cells[..n];
      LastLevelMeaning(init);
      assert forall i :: 0 <= i < n ==> init[i] == cells[i];
      if AllDigits(cells[n]) {
        assert LastDigitCell(cells, n);
      } else {
        assert LastLevel(cells) == LastLevel(init);
        if LastLevel(init).Some? {
          var i :| LastDigitCell(init, i) && LastLevel(init).value == DigitsValue(init[i]);
          assert LastDigitCell(cells, i);
        }
      }
    }
  }

  /**
   * The row gives `None` exactly when it is missing or has no cells; otherwise the list has
   * one forward-filled level per cell, padded with the last one up to five, and a leading
   * non-numeric cell gives a null first entry.
   */
  lemma LevelNeededShape(r: Wiki.LevelRow)
    ensures ParseLevelNeeded(Some(r)).None? <==> |LevelCells(r)| == 0
    ensures ParseLevelNeeded(Some(r)).Some? ==>
      var levels := ParseLevelNeeded(Some(r)).value;
      var cells := LevelCells(r);
      |levels| == (if |cells| < 5 then 5 else |cells|)
      && levels[..|cells|] == Filled(cells)
      && (forall i :: |cells| <= i < |levels| ==> levels[i] == levels[|cells| - 1])
      && (!AllDigits(cells[0]) ==> levels[0].None?)
  {
    var cells := LevelCells(r);
    if |cells| > 0 {
      var first := cells[..1];
      assert first[..0] == [] && first[0] == cells[0];
      assert Padded(Filled(cells))[0] == Filled(cells)[0] == LastLevel(first);
      if !AllDigits(cells[0]) {
        assert LastLevel(first) == LastLevel(first[..0]);
      }
    }
  }

  // ---------------------------------------------------------------------------
  // The merge loop of `main`

  /** The `name_to_id_map` entry of one skill. */
  function IdEntry(e: Entry): Option<(string, string)>
  {
    Some((NormalizeName(e.name), e.id))
  }

  /** All entries of a collection, list by list. */
  function Flatten(ls: EntryLists): seq<Entry>
  {
    if |ls| == 0 then [] else Flatten(ls[..|ls| - 1]) + ls[|ls| - 1].1
  }

  /** `name_to_id_map`: normalised skill name -> id; a later skill with the same key wins. */
  function NameIds(skills: EntryLists): map<string, string>
  {
    Collect(Flatten(skills), IdEntry)
  }

  method BuildNameIds(skills: EntryLists) returns (ids: map<string, string>)
    ensures ids == NameIds(skills)
  {
    ids := map[];
    for i := 0 to |skills|
      invariant ids == Collect(Flatten(skills[..i]), IdEntry)
    {
      FlattenStep(skills, i);
      ids := AddNameIds(ids, Flatten(skills[..i]), skills[i].1);
    }
    assert skills[..|skills|] == skills;
  }

  lemma FlattenStep(skills: EntryLists, i: nat)
    requires i < |skills|
    ensures Flatten(skills[..i + 1]) == Flatten(skills[..i]) + skills[i].1
  {
    assert skills[..i + 1][..i] == skills[..i];
  }

  /** The inner loop of the map build: file every skill of one list under its normalised name. */
  method AddNameIds(ids: map<string, string>, ghost done: seq<Entry>, es: seq<Entry>) returns (out: map<string, string>)
    requires ids == Collect(done, IdEntry)
    ensures out == Collect(done + es, IdEntry)
  {
    out := ids;
    assert done + es[..0] == done;
    for j := 0 to |es|
      invariant out == Collect(done + es[..j], IdEntry)
    {
      assert done + es[..j + 1] == (done + es[..j]) + [es[j]];
      CollectSnoc(done + es[..j], es[j], IdEntry);
      out := out[NormalizeName(es[j].name) := es[j].id];
    }
    assert es[..|es|] == es;
  }

  /** A requirement whose normalised name is a skill's gets that skill's id. */
  function Link(req: Prereq, ids: map<string, string>): Prereq
  {
    if req.name.Some? && NormalizeName(req.name.value) in ids then req.(id := Some(ids[NormalizeName(req.name.value)]))
    else req
  }

  function Linked(reqs: map<string, Prereq>, ids: map<string, string>): map<string, Prereq>
  {
    map k | k in reqs :: Link(reqs[k], ids)
  }

  /**
   * One skill after the loop body: looked up by its normalised name, then `requires` set to
   * the linked prerequisites and `lvlReq` to the level row, each only when the page gives
   * one (setting a field to its own value leaves the skill as it was).
   */
  function Enriched(e: Entry, idx: map<string, Wiki.Page>, ids: map<string, string>): Entry
  {
    match Wiki.PageOf(idx, e.name)
    case None => e
    case Some(page) =>
      var e1 := match ParsePrereqs(page.prereqTable)
        case None => e
        case Some(reqs) => e.(prereqs := Some(Linked(reqs, ids)));
      match ParseLevelNeeded(page.levelRow)
      case None => e1
      case Some(levels) => e1.(lvlReq := Some(levels))
  }

  function Enricher(idx: map<string, Wiki.Page>, ids: map<string, string>): Entry -> Entry
  {
    (e: Entry) => Enriched(e, idx, ids)
  }

  /**
   * A skill changes only in `requires` and `lvlReq`, only when its normalised name is
   * non-empty and has a page, and each changed field holds what the page gives.
   */
  lemma EnrichedChanges(e: Entry, idx: map<string, Wiki.Page>, ids: map<string, string>)
    ensures var r := Enriched(e, idx, ids);
      r == e.(prereqs := r.prereqs, lvlReq := r.lvlReq)
    ensures Enriched(e, idx, ids) != e ==> NormalizeName(e.name) != "" && NormalizeName(e.name) in idx
    ensures Enriched(e, idx, ids).prereqs != e.prereqs ==>
      var reqs := ParsePrereqs(idx[NormalizeName(e.name)].prereqTable);
      reqs.Some? && Enriched(e, idx, ids).prereqs == Some(Linked(reqs.value, ids))
    ensures Enriched(e, idx, ids).lvlReq != e.lvlReq ==>
      Enriched(e, idx, ids).lvlReq == ParseLevelNeeded(idx[NormalizeName(e.name)].levelRow)
      && Enriched(e, idx, ids).lvlReq.Some?
  {
  }

  /**
   * A normalised name is in the id map exactly when some skill has it, and it maps to the
   * id of the last such skill.
   */
  lemma NameIdsLastWins(skills: EntryLists, key: string)
    ensures key in NameIds(skills) <==> exists e :: e in Flatten(skills) && NormalizeName(e.name) == key
    ensures key in NameIds(skills) ==>
      exists i :: LastYield(Flatten(skills), IdEntry, i, key) && NameIds(skills)[key] == Flatten(skills)[i].id
  {
    var es := Flatten(skills);
    CollectLast(es, IdEntry, key);
    if exists e :: e in es && NormalizeName(e.name) == key {
      var e :| e in es && NormalizeName(e.name) == key;
      var i :| 0 <= i < |es| && es[i] == e;
      assert Yields(IdEntry, es[i], key);
    }
  }

  /** Linking sets only `id`, and sets it exactly when the requirement's name has an id. */
  lemma LinkedIds(reqs: map<string, Prereq>, ids: map<string, string>, k: string)
    requires k in reqs
    ensures k in Linked(reqs, ids)
    ensures Linked(reqs, ids)[k] == reqs[k].(id := Linked(reqs, ids)[k].id)
    ensures reqs[k].name.Some? && NormalizeName(reqs[k].name.value) in ids ==>
      Linked(reqs, ids)[k].id == Some(ids[NormalizeName(reqs[k].name.value)])
    ensures !(reqs[k].name.Some? && NormalizeName(reqs[k].name.value) in ids) ==>
      Linked(reqs, ids)[k] == reqs[k]
  {
  }

  /** The store after the pass: only skills change. */
  function EnrichedStore(store: Store, pages: seq<Wiki.Page>): Store
  {
    store.(skills := MapLists(store.skills, Enricher(Wiki.Index(pages), NameIds(store.skills))))
  }

  function EnrichCount(store: Store, pages: seq<Wiki.Page>): nat
  {
    ListsChanged(store.skills, Enricher(Wiki.Index(pages), NameIds(store.skills)))
  }

  /** `main`: index the pages, map names to ids, enrich every skill, write back when one changed. */
  method EnrichWithFullRequirements(store: Store, pages: seq<Wiki.Page>)
    returns (result: Store, updatedCount: nat, write: bool)
    ensures result == EnrichedStore(store, pages)
    ensures updatedCount == EnrichCount(store, pages)
    ensures write <==> result != store
  {
    var wikiIdx := Wiki.BuildIndex(pages);
    var nameToId := BuildNameIds(store.skills);
    var skills, n := RewriteLists(store.skills, Enricher(wikiIdx, nameToId));
    result := store.(skills := skills);
    updatedCount := n;
    write := updatedCount > 0;
    ListsChangedZero(store.skills, Enricher(wikiIdx, nameToId));
  }

  /** Rewriting every entry commutes with flattening the lists. */
  lemma {:induction false} FlattenMapLists(ls: EntryLists, f: Entry -> Entry)
    ensures Flatten(MapLists(ls, f)) == MapEntries(Flatten(ls), f)
  {
    if |ls| > 0 {
      var n := |ls| - 1;
      FlattenMapLists(ls[..n], f);
      assert MapLists(ls, f)[..n] == MapLists(ls[..n], f);
      var a, b := Flatten(ls[..n]), ls[n].1;
      assert MapEntries(a + b, f) == MapEntries(a, f) + MapEntries(b, f);
    }
  }

  /** A rewrite that keeps every name and id leaves the id map as it was. */
  lemma {:induction false} NameIdsKept(es: seq<Entry>, f: Entry -> Entry)
    requires forall e :: f(e).name == e.name && f(e).id == e.id
    ensures Collect(MapEntries(es, f), IdEntry) == Collect(es, IdEntry)
  {
    if |es| > 0 {
      var n := |es| - 1;
      NameIdsKept(es[..n], f);
      assert MapEntries(es, f)[..n] == MapEntries(es[..n], f);
    }
  }

  /** Running the pass on its own output changes no skill, so the second run writes nothing. */
  lemma EnrichSettles(store: Store, pages: seq<Wiki.Page>)
    ensures EnrichCount(EnrichedStore(store, pages), pages) == 0
    ensures EnrichedStore(EnrichedStore(store, pages), pages) == EnrichedStore(store, pages)
  {
    var idx := Wiki.Index(pages);
    var f := Enricher(idx, NameIds(store.skills));
    forall e ensures f(e).name == e.name && f(e).id == e.id && f(f(e)) == f(e) {
      EnrichedChanges(e, idx, NameIds(store.skills));
    }
    FlattenMapLists(store.skills, f);
    NameIdsKept(Flatten(store.skills), f);
    assert NameIds(MapLists(store.skills, f)) == NameIds(store.skills);
    IdempotentRewrite(store.skills, f);
  }
}
