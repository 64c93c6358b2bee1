/**
 * The skill-stats enrichment: for every skill whose normalised name has a wiki page, read
 * the page's info table and its per-level progression table, and overwrite the skill's
 * `info` and `progression` when the page gives something new.
 */
module SkillStats {
  import opened Wrappers
  import opened Text
  import opened Dicts
  import opened CanonicalStore
  import Wiki

  // ---------------------------------------------------------------------------
  // `parse_skill_info_table`

  /** The `info` keys the parser can set. */
  const InfoKeys: set<string> := {"type", "levels", "cast_time", "cooldown", "weapons", "range", "target"}

  /** The key cell cleaned: colons and bold tags removed, stripped, lower-cased. */
  function InfoKey(cell: string): string
  {
    Lower(Strip(Replace(Replace(Delete(cell, ':'), "<b>", ""), "</b>", "")))
  }

  /** The `info` entry a cleaned key and stripped value set, if the key is recognised. */
  function InfoPair(key: string, value: string): Option<(string, InfoValue)>
  {
    if key == "type" then Some(("type", Text(value)))
    else if key == "levels" then Some(("levels", Count(if AllDigits(value) then Some(DigitsValue(value)) else None)))
    else if key == "casting time" then Some(("cast_time", Text(value)))
    else if key == "skill downtime" then Some(("cooldown", Text(value)))
    else if key == "compatible weapon" then Some(("weapons", Names(SplitStrip(value, ','))))
    else if key == "range" then Some(("range", Text(value)))
    else if key == "target" then Some(("target", Text(value)))
    else None
  }

  /** The `info` entry one row sets: rows with fewer than two cells set nothing. */
  function InfoEntry(row: seq<string>): Option<(string, InfoValue)>
  {
    if |row| < 2 then None else InfoPair(InfoKey(row[0]), Strip(row[1]))
  }

  /** The info of a page: `None` without the table or when no row is recognised. */
  function ParseInfo(table: Option<seq<seq<string>>>): (r: Option<Info>)
    ensures r.Some? ==> r.value != map[]
  {
    match table
    case None => None
    case Some(rows) =>
      var info := Collect(rows, InfoEntry);
      if info == map[] then None else Some(info)
  }

  method ParseSkillInfoTable(table: Option<seq<seq<string>>>) returns (result: Option<Info>)
    ensures result == ParseInfo(table)
  {
    if table.None? {
      return None;
    }
    var rows := table.value;
    var info: Info := map[];
    for i := 0 to |rows|
      invariant info == Collect(rows[..i], InfoEntry)
    {
      assert rows[..i + 1] == rows[..i] + [rows[i]];
      CollectSnoc(rows[..i], rows[i], InfoEntry);
      var entry := InfoEntry(rows[i]);
      if entry.Some? {
        info := info[entry.value.0 := entry.value.1];
      }
    }
    assert rows[..|rows|] == rows;
    result := if info == map[] then None else Some(info);
  }

  /**
   * Each recognised row sets one of the seven keys: `levels` to a number exactly when the
   * value is all digits, `weapons` to the stripped comma parts, the others to the stripped text.
   */
  lemma InfoPairKinds(key: string, value: string)
    requires InfoPair(key, value).Some?
    ensures InfoPair(key, value).value.0 in InfoKeys
    ensures InfoPair(key, value).value.1.Count? <==> InfoPair(key, value).value.0 == "levels"
    ensures InfoPair(key, value).value.1.Names? <==> InfoPair(key, value).value.0 == "weapons"
    ensures InfoPair(key, value).value.1.Count? ==>
      (InfoPair(key, value).value.1.n.Some? <==> AllDigits(value))
  {
  }

  /**
   * The table gives `None` exactly when no row is recognised; otherwise a key is present
   * exactly when some row sets it, and holds what the last such row sets.
   */
  lemma ParseInfoRows(rows: seq<seq<string>>, k: string)
    ensures ParseInfo(Some(rows)).None? <==> forall i :: 0 <= i < |rows| ==> InfoEntry(rows[i]).None?
    ensures ParseInfo(Some(rows)).Some? ==>
      (k in ParseInfo(Some(rows)).value <==> exists i :: 0 <= i < |rows| && Yields(InfoEntry, rows[i], k))
    ensures ParseInfo(Some(rows)).Some? && k in ParseInfo(Some(rows)).value ==>
      k in InfoKeys && exists i :: LastYield(rows, InfoEntry, i, k) && ParseInfo(Some(rows)).value[k] == InfoEntry(rows[i]).value.1
  {
    CollectEmpty(rows, InfoEntry);
    CollectLast(rows, InfoEntry, k);
    if k in Collect(rows, InfoEntry) {
      var i :| 0 <= i < |rows| && Yields(InfoEntry, rows[i], k);
      InfoPairKinds(InfoKey(rows[i][0]), Strip(rows[i][1]));
    }
  }

  // ---------------------------------------------------------------------------
  // `parse_progression_table`

  /** A stat cell: the number left after removing every `+`, else the text as it is. */
  function ProgCell(v: string): Cell
  {
    var t := Delete(v, '+');
    if AllDigits(t) then Num(DigitsValue(t)) else Str(v)
  }

  /** What columns `1 .. n-1` of one full row add to the list of header `h`. */
  function RowPart(headers: seq<string>, row: seq<string>, n: nat, h: string): seq<Cell>
    requires n <= |headers| == |row|
  {
    if n <= 1 then [] else RowPart(headers, row, n - 1, h) + (if headers[n - 1] == h then [ProgCell(row[n - 1])] else [])
  }

  /** The list of header `h` after the given data rows; rows whose cell count differs are skipped. */
  function ColumnOf(headers: seq<string>, rows: seq<seq<string>>, h: string): seq<Cell>
  {
    if |rows| == 0 then []
    else
      var row := rows[|rows| - 1];
      ColumnOf(headers, rows[..|rows| - 1], h) + (if |row| == |headers| then RowPart(headers, row, |headers|, h) else [])
  }

  /** The stats of a page: `None` without the table or when its first header is not "level". */
  function Progression(table: Option<Wiki.ProgTable>): Option<map<string, seq<Cell>>>
  {
    match table
    case None => None
    case Some(t) =>
      if |t.headers| == 0 || t.headers[0] != "level" then None
      else Some(map h | h in t.headers[1..] :: ColumnOf(t.headers, t.rows, h))
  }

  /** The statistics for the later headers after the given data rows. */
  function Columns(headers: seq<string>, rows: seq<seq<string>>): map<string, seq<Cell>>
    requires |headers| >= 1
  {
    map h | h in headers[1..] :: ColumnOf(headers, rows, h)
  }

  /** Every list with the values one full row adds to it. */
  function AppendRow(headers: seq<string>, stats: map<string, seq<Cell>>, row: seq<string>): map<string, seq<Cell>>
    requires |row| == |headers|
  {
    map h | h in stats :: stats[h] + RowPart(headers, row, |headers|, h)
  }

  /** The inner loop over the cells of one full row. */
  method AddRow(headers: seq<string>, stats: map<string, seq<Cell>>, cells: seq<string>)
    returns (next: map<string, seq<Cell>>)
    requires |headers| >= 1 && |cells| == |headers|
    requires forall h :: h in headers[1..] ==> h in stats
    ensures next == AppendRow(headers, stats, cells)
  {
    next := stats;
    for i := 1 to |headers|
      invariant next.Keys == stats.Keys
      invariant forall h :: h in stats ==> next[h] == stats[h] + RowPart(headers, cells, i, h)
    {
      var h := headers[i];
      assert h in headers[1..];
      next := next[h := next[h] + [ProgCell(cells[i])]];
    }
    assert next == AppendRow(headers, stats, cells);
  }

  method ParseProgressionTable(table: Option<Wiki.ProgTable>) returns (result: Option<map<string, seq<Cell>>>)
    ensures result == Progression(table)
  {
    if table.None? {
      return None;
    }
    var headers := table.value.headers;
    var rows := table.value.rows;
    if |headers| == 0 || headers[0] != "level" {
      return None;
    }
    var stats: map<string, seq<Cell>> := map h | h in headers[1..] :: [];
    assert rows[..0] == [];
    for r := 0 to |rows|
      invariant stats == Columns(headers, rows[..r])
    {
      assert rows[..r + 1] == rows[..r] + [rows[r]];
      ColumnsStep(headers, rows[..r], rows[r]);
      var cells := rows[r];
      if |cells| == |headers| {
        stats := AddRow(headers, stats, cells);
      }
    }
    assert rows[..|rows|] == rows;
    result := Some(stats);
  }

  /** The number of data rows whose cell count matches the headers. */
  function KeptCount(headers: seq<string>, rows: seq<seq<string>>): nat
  {
    if |rows| == 0 then 0
    else KeptCount(headers, rows[..|rows| - 1]) + (if |rows[|rows| - 1]| == |headers| then 1 else 0)
  }

  lemma {:induction false} RowPartSize(headers: seq<string>, row: seq<string>, n: nat, h: string)
    requires 1 <= n <= |headers| == |row|
    ensures |RowPart(headers, row, n, h)| == multiset(headers[1..n])[h]
  {
    if n > 1 {
      RowPartSize(headers, row, n - 1, h);
      assert headers[1..n] == headers[1..n - 1] + [headers[n - 1]];
    }
  }

  lemma {:induction false} ColumnSize(headers: seq<string>, rows: seq<seq<string>>, h: string)
    requires |headers| >= 1
    ensures |ColumnOf(headers, rows, h)| == KeptCount(headers, rows) * multiset(headers[1..])[h]
  {
    if |rows| > 0 {
      var init, last := rows[..|rows| - 1], rows[|rows| - 1];
      var m := multiset(headers[1..])[h];
      var k := KeptCount(headers, init);
      ColumnSize(headers, init, h);
      if |last| == |headers| {
        RowPartSize(headers, last, |headers|, h);
        assert headers[1..|headers|] == headers[1..];
        MulSucc(k, m);
      }
    }
  }

  /** `k + 1` copies of `m` are `k` copies and one more. */
  lemma MulSucc(k: nat, m: nat)
    ensures (k + 1) * m == k * m + m
  {
  }

  /** One more data row extends every list exactly when its cell count matches the headers. */
  lemma ColumnsStep(headers: seq<string>, rows: seq<seq<string>>, row: seq<string>)
    requires |headers| >= 1
    ensures |row| == |headers| ==> Columns(headers, rows + [row]) == AppendRow(headers, Columns(headers, rows), row)
    ensures |row| != |headers| ==> Columns(headers, rows + [row]) == Columns(headers, rows)
  {
    assert (rows + [row])[..|rows|] == rows;
    if |row| == |headers| {
      var a, b := Columns(headers, rows + [row]), AppendRow(headers, Columns(headers, rows), row);
      assert a.Keys == b.Keys;
      forall h | h in a ensures a[h] == b[h] {
        assert a[h] == ColumnOf(headers, rows, h) + RowPart(headers, row, |headers|, h);
      }
      assert a == b;
    } else {
      var a, b := Columns(headers, rows + [row]), Columns(headers, rows);
      forall h | h in a ensures a[h] == b[h] {
        assert a[h] == ColumnOf(headers, rows, h);
      }
      assert a == b;
    }
  }

  /**
   * The parser gives `None` exactly when the table is missing or its first header is not
   * "level"; otherwise the keys are the later headers, and each list holds one value per
   * kept row and per column carrying that header (one per kept row when headers are distinct).
   */
  lemma ProgressionShape(table: Option<Wiki.ProgTable>)
    ensures Progression(table).None? <==>
      table.None? || |table.value.headers| == 0 || table.value.headers[0] != "level"
    ensures Progression(table).Some? ==>
      var t := table.value;
      (forall h :: h in Progression(table).value <==> h in t.headers[1..])
      && forall h :: h in Progression(table).value ==>
        |Progression(table).value[h]| == KeptCount(t.headers, t.rows) * multiset(t.headers[1..])[h]
  {
    if Progression(table).Some? {
      var t := table.value;
      forall h | h in t.headers[1..]
        ensures |ColumnOf(t.headers, t.rows, h)| == KeptCount(t.headers, t.rows) * multiset(t.headers[1..])[h]
      {
        ColumnSize(t.headers, t.rows, h);
      }
    }
  }

  // ---------------------------------------------------------------------------
  // The merge loop of `main`

  /** One skill after the loop body: `info` and `progression` set when the page gives a non-empty one. */
  function WithStats(e: Entry, idx: map<string, Wiki.Page>): Entry
  {
    match Wiki.PageOf(idx, e.name)
    case None => e
    case Some(page) =>
      var e1 := match ParseInfo(page.infoTable)
        case None => e
        case Some(info) => e.(info := Some(info));
      match Progression(page.progTable)
      case None => e1
      case Some(prog) => if prog == map[] then e1 else e1.(progression := Some(prog))
  }

  function StatsFixer(idx: map<string, Wiki.Page>): Entry -> Entry
  {
    (e: Entry) => WithStats(e, idx)
  }

  /**
   * A skill changes only in `info` and `progression`, only when it has a page, and each
   * changed field holds the page's non-empty value.
   */
  lemma WithStatsChanges(e: Entry, idx: map<string, Wiki.Page>)
    ensures var r := WithStats(e, idx);
      r == e.(info := r.info, progression := r.progression)
    ensures WithStats(e, idx) != e ==> Wiki.PageOf(idx, e.name).Some?
    ensures WithStats(e, idx).info != e.info ==>
      WithStats(e, idx).info == ParseInfo(Wiki.PageOf(idx, e.name).value.infoTable)
      && WithStats(e, idx).info.Some? && WithStats(e, idx).info.value != map[]
    ensures WithStats(e, idx).progression != e.progression ==>
      WithStats(e, idx).progression == Progression(Wiki.PageOf(idx, e.name).value.progTable)
      && WithStats(e, idx).progression.Some? && WithStats(e, idx).progression.value != map[]
    ensures WithStats(WithStats(e, idx), idx) == WithStats(e, idx)
  {
  }

  function StatsStore(store: Store, pages: seq<Wiki.Page>): Store
  {
    store.(skills := MapLists(store.skills, StatsFixer(Wiki.Index(pages))))
  }

  /** `main`: index the pages, enrich every skill, write back when one changed. */
  method EnrichWithSkillStats(store: Store, pages: seq<Wiki.Page>)
    returns (result: Store, updatedCount: nat, write: bool)
    ensures result == StatsStore(store, pages)
    ensures updatedCount == ListsChanged(store.skills, StatsFixer(Wiki.Index(pages)))
    ensures write <==> result != store
  {
    var wikiIdx := Wiki.BuildIndex(pages);
    var skills, n := RewriteLists(store.skills, StatsFixer(wikiIdx));
    result := store.(skills := skills);
    updatedCount := n;
    write := updatedCount > 0;
    ListsChangedZero(store.skills, StatsFixer(wikiIdx));
  }

  /** Running the pass on its own output changes no skill. */
  lemma StatsSettles(store: Store, pages: seq<Wiki.Page>)
    ensures ListsChanged(StatsStore(store, pages).skills, StatsFixer(Wiki.Index(pages))) == 0
  {
    var f := StatsFixer(Wiki.Index(pages));
    forall e ensures f(f(e)) == f(e) {
      WithStatsChanges(e, Wiki.Index(pages));
    }
    IdempotentRewrite(store.skills, f);
  }
}
