/**
 * The cached wiki pages as the enrichment scripts see them: file names in the cache
 * directory, the title a file name encodes, and pages pre-parsed into the few tables
 * the scripts read. HTML parsing itself is not modelled; each page carries the text of
 * the elements the scripts look up.
 */
module Wiki {
  import opened Wrappers
  import opened Text
  import opened Dicts

  // ---------------------------------------------------------------------------
  // `re.match(r"site_pages_[A-Z0-9]_(.+)\.html\.html", filename)`

  const FilePrefix: string := "site_pages_"
  const FileSuffix: string := ".html.html"

  /** The fixed part before the group: `site_pages_`, one capital or digit, `_`. */
  predicate HasFileHeader(f: string) {
    |f| >= 13 && f[..11] == FilePrefix && (IsUpper(f[11]) || IsDigit(f[11])) && f[12] == '_'
  }

  /** The group can end after `j` characters: `.` does not cross a newline, then the suffix follows. */
  predicate GroupEndsAt(f: string, j: int) {
    1 <= j && 13 + j + |FileSuffix| <= |f|
    && '\n' !in f[13..13 + j]
    && f[13 + j..13 + j + |FileSuffix|] == FileSuffix
  }

  /** The last `j <= i` at which the group can end (greedy `.+` backtracks from the longest). */
  function LastGroupEnd(f: string, i: int): (r: Option<nat>)
    requires HasFileHeader(f)
    ensures r.Some? ==> r.value <= i && GroupEndsAt(f, r.value)
    ensures forall j :: (if r.Some? then r.value else 0) < j <= i ==> !GroupEndsAt(f, j)
    decreases i
  {
    if i < 1 then None
    else if GroupEndsAt(f, i) then Some(i)
    else LastGroupEnd(f, i - 1)
  }

  /** Group 1 of the wiki file-name pattern, or `None` when the name does not match. */
  function MatchFileName(f: string): (r: Option<string>)
    ensures r.Some? <==> HasFileHeader(f) && exists j :: GroupEndsAt(f, j)
    ensures r.Some? ==> GroupEndsAt(f, |r.value|) && r.value == f[13..13 + |r.value|]
    ensures r.Some? ==> forall j :: |r.value| < j ==> !GroupEndsAt(f, j)
  {
    if !HasFileHeader(f) then None
    else
      match LastGroupEnd(f, |f|)
      case None => None
      case Some(j) => Some(f[13..13 + j])
  }

  /** The skill title a cache file name encodes: the group with `_` read as a space. */
  function FileTitle(f: string): (r: Option<string>)
    ensures r.Some? <==> MatchFileName(f).Some?
    ensures r.Some? ==> |r.value| >= 1 && '_' !in r.value
  {
    match MatchFileName(f)
    case None => None
    case Some(g) => Some(Subst(g, '_', ' '))
  }

  // ---------------------------------------------------------------------------
  // The wiki title lists built from the directory listing

  /** The titles of the listed files, in listing order. */
  function Titles(files: seq<string>): seq<string>
  {
    if |files| == 0 then []
    else
      var init := Titles(files[..|files| - 1]);
      match FileTitle(files[|files| - 1])
      case None => init
      case Some(t) => init + [t]
  }

  /** `get_wiki_skill_names` of the name-fix script: every matching file's title, in order. */
  method WikiSkillNames(files: seq<string>) returns (names: seq<string>)
    ensures names == Titles(files)
  {
    names := [];
    var i := 0;
    while i < |files|
      invariant 0 <= i <= |files|
      invariant names == Titles(files[..i])
    {
      assert files[..i + 1][..i] == files[..i];
      var m := MatchFileName(files[i]);
      if m.Some? {
        names := names + [Subst(m.value, '_', ' ')];
      }
      i := i + 1;
    }
    assert files[..|files|] == files;
  }

  /** A name is in the list exactly when some listed file carries it as its title. */
  lemma {:induction false} TitlesMembers(files: seq<string>, t: string)
    ensures t in Titles(files) <==> exists f :: f in files && FileTitle(f) == Some(t)
  {
    if |files| > 0 {
      var init := files[..|files| - 1];
      var last := files[|files| - 1];
      TitlesMembers(init, t);
      assert files == init + [last];
      if t in Titles(files) && t !in Titles(init) {
        assert FileTitle(last) == Some(t);
      }
      if exists f :: f in files && FileTitle(f) == Some(t) {
        var f :| f in files && FileTitle(f) == Some(t);
        if f != last {
          assert f in init;
        }
      }
    }
  }

  /** The map entry a listed file contributes: spaceless lower-case title -> title. */
  function TitleEntry(f: string): Option<(string, string)>
  {
    match FileTitle(f)
    case None => None
    case Some(t) => Some((SpacelessLower(t), t))
  }

  /** The spaced-mode map of the conversion script; a later file overwrites an earlier key. */
  function SkillMap(files: seq<string>): map<string, string>
  {
    Collect(files, TitleEntry)
  }

  /** `get_wiki_skill_names` of the conversion script. */
  method BuildSkillMap(files: seq<string>) returns (skillMap: map<string, string>)
    ensures skillMap == SkillMap(files)
  {
    skillMap := map[];
    var i := 0;
    while i < |files|
      invariant 0 <= i <= |files|
      invariant skillMap == Collect(files[..i], TitleEntry)
    {
      assert files[..i + 1][..i] == files[..i];
      var m := MatchFileName(files[i]);
      if m.Some? {
        var correctName := Subst(m.value, '_', ' ');
        skillMap := skillMap[SpacelessLower(correctName) := correctName];
      }
      i := i + 1;
    }
    assert files[..|files|] == files;
  }

  /**
   * Every key of the map is the spaceless lower-case form of its own title, and a key is
   * present exactly when some listed file's title has that form.
   */
  lemma SkillMapKeys(files: seq<string>)
    ensures forall k :: k in SkillMap(files) ==> k == SpacelessLower(SkillMap(files)[k])
    ensures forall k :: k in SkillMap(files) <==>
      exists f :: f in files && FileTitle(f).Some? && SpacelessLower(FileTitle(f).value) == k
  {
    forall k
      ensures k in SkillMap(files) ==> k == SpacelessLower(SkillMap(files)[k])
      ensures k in SkillMap(files) <==>
        exists f :: f in files && FileTitle(f).Some? && SpacelessLower(FileTitle(f).value) == k
    {
      CollectLast(files, TitleEntry, k);
      if exists f :: f in files && FileTitle(f).Some? && SpacelessLower(FileTitle(f).value) == k {
        var f :| f in files && FileTitle(f).Some? && SpacelessLower(FileTitle(f).value) == k;
        var i :| 0 <= i < |files| && files[i] == f;
        assert Yields(TitleEntry, files[i], k);
      }
      if k in SkillMap(files) {
        var i :| LastYield(files, TitleEntry, i, k) && SkillMap(files)[k] == TitleEntry(files[i]).value.1;
        assert files[i] in files;
      }
    }
  }

  /** The title stored under a key is the one from the last listed file with that key. */
  lemma SkillMapLastWins(files: seq<string>, i: nat)
    requires i < |files| && FileTitle(files[i]).Some?
    requires forall j :: i < j < |files| && FileTitle(files[j]).Some? ==>
      SpacelessLower(FileTitle(files[j]).value) != SpacelessLower(FileTitle(files[i]).value)
    ensures SpacelessLower(FileTitle(files[i]).value) in SkillMap(files)
    ensures SkillMap(files)[SpacelessLower(FileTitle(files[i]).value)] == FileTitle(files[i]).value
  {
    CollectLastWins(files, TitleEntry, i, SpacelessLower(FileTitle(files[i]).value));
  }

  // ---------------------------------------------------------------------------
  // Pre-parsed pages and the index keyed by normalised title

  /** The "Level needed" row of the progression table: its `td` texts and its `th` texts. */
  datatype LevelRow = LevelRow(tds: seq<string>, ths: seq<string>)

  /** The progression table: the lower-cased `th` texts and, per row after the first, its `td` texts. */
  datatype ProgTable = ProgTable(headers: seq<string>, rows: seq<seq<string>>)

  /** A run of decimal digits captured by `(\d+)`. */
  type DigitRun = s: string | AllDigits(s) witness "0"

  /**
   * One cached page. Cell texts are already `get_text(strip=True)`; a table is `None`
   * when the element the scripts look for is missing.
   */
  datatype Page = Page(
    fileName: string,
    readable: bool,
    heading: Option<string>,
    prereqTable: Option<seq<seq<string>>>,
    levelRow: Option<LevelRow>,
    infoTable: Option<seq<seq<string>>>,
    progTable: Option<ProgTable>,
    prereqLevelRow: Option<seq<DigitRun>>)

  /** `glob('site_pages_*.html.html')` on one file name. */
  predicate GlobMatches(name: string) {
    |name| >= |FilePrefix| + |FileSuffix|
    && name[..|FilePrefix|] == FilePrefix
    && name[|name| - |FileSuffix|..] == FileSuffix
  }

  /** `p.stem`: the file name without its last `.html`. */
  function Stem(name: string): (r: string)
    requires GlobMatches(name)
    ensures r + ".html" == name
  {
    name[..|name| - 5]
  }

  /** The page's title: the `page-title` heading when present, else the file stem. */
  function PageTitle(p: Page): string
    requires GlobMatches(p.fileName)
  {
    match p.heading
    case Some(h) => h
    case None => Stem(p.fileName)
  }

  predicate Indexed(p: Page) {
    GlobMatches(p.fileName) && p.readable
  }

  function PageKey(p: Page): string
    requires Indexed(p)
  {
    NormalizeName(PageTitle(p))
  }

  /**
   * The page a record's name leads to: its normalised name must be non-empty and filed in
   * the index.
   */
  function PageOf(idx: map<string, Page>, name: string): (r: Option<Page>)
    ensures r.Some? <==> NormalizeName(name) != "" && NormalizeName(name) in idx
    ensures r.Some? ==> r.value == idx[NormalizeName(name)]
  {
    var key := NormalizeName(name);
    if key == "" || key !in idx then None else Some(idx[key])
  }

  /** The index entry a page contributes: readable pages are filed under their key. */
  function Filing(p: Page): Option<(string, Page)>
  {
    if Indexed(p) then Some((PageKey(p), p)) else None
  }

  /** `build_wiki_index`: normalised title -> page; unreadable pages are skipped, later pages overwrite. */
  function Index(pages: seq<Page>): map<string, Page>
  {
    Collect(pages, Filing)
  }

  method BuildIndex(pages: seq<Page>) returns (idx: map<string, Page>)
    ensures idx == Index(pages)
  {
    idx := map[];
    var i := 0;
    while i < |pages|
      invariant 0 <= i <= |pages|
      invariant idx == Collect(pages[..i], Filing)
    {
      assert pages[..i + 1][..i] == pages[..i];
      var p := pages[i];
      if GlobMatches(p.fileName) && p.readable {
        var title := if p.heading.Some? then p.heading.value else Stem(p.fileName);
        idx := idx[NormalizeName(title) := p];
      }
      i := i + 1;
    }
    assert pages[..|pages|] == pages;
  }

  /** The index files page `p` under `k`. */
  predicate FiledUnder(p: Page, k: string) {
    Indexed(p) && PageKey(p) == k
  }

  /** Page `i` is the last one filed under `k`. */
  predicate LastFiled(pages: seq<Page>, i: int, k: string) {
    0 <= i < |pages| && FiledUnder(pages[i], k) && forall j :: i < j < |pages| ==> !FiledUnder(pages[j], k)
  }

  /**
   * A key is in the index exactly when some readable page normalises to it, and then it
   * holds the last such page.
   */
  lemma IndexLastWins(pages: seq<Page>, k: string)
    ensures k in Index(pages) <==> exists i :: 0 <= i < |pages| && FiledUnder(pages[i], k)
    ensures k in Index(pages) ==> exists i :: LastFiled(pages, i, k) && Index(pages)[k] == pages[i]
  {
    CollectLast(pages, Filing, k);
    assert forall p :: Yields(Filing, p, k) <==> FiledUnder(p, k);
  }
}
