/**
 * String helpers with the meaning of the Python `str` operations the scripts use
 * (`lower`, `strip`, `replace`, `split`, `isdigit`, `in`, `startswith`) and of the
 * two name normalisations built from them. Case mapping and digit tests are ASCII.
 */
module Text {
  import opened Wrappers

  predicate IsUpper(c: char) { 'A' <= c <= 'Z' }

  predicate IsDigit(c: char) { '0' <= c <= '9' }

  predicate IsLowerAlnum(c: char) { 'a' <= c <= 'z' || IsDigit(c) }

  /** `str.isspace()` on one character: the characters Python's `strip()` removes. */
  predicate IsSpace(c: char) {
    c == ' ' || '\U{9}' <= c <= '\U{d}' || '\U{1c}' <= c <= '\U{1f}' || c == '\U{85}' || c == '\U{a0}'
    || c == '\U{1680}' || '\U{2000}' <= c <= '\U{200a}' || c == '\U{2028}' || c == '\U{2029}'
    || c == '\U{202f}' || c == '\U{205f}' || c == '\U{3000}'
  }

  function LowerChar(c: char): char {
    if IsUpper(c) then (c as int + 32) as char else c
  }

  /** `s.lower()` */
  function Lower(s: string): (r: string)
    ensures |r| == |s| && forall i :: 0 <= i < |s| ==> r[i] == LowerChar(s[i])
  {
    seq(|s|, i requires 0 <= i < |s| => LowerChar(s[i]))
  }

  /** `s.replace(c, '')` for a one-character `c` */
  function Delete(s: string, c: char): (r: string)
    ensures c !in r && |r| <= |s|
  {
    if |s| == 0 then [] else (if s[0] == c then [] else [s[0]]) + Delete(s[1..], c)
  }

  lemma {:induction false} DeleteAppend(a: string, b: string, c: char)
    ensures Delete(a + b, c) == Delete(a, c) + Delete(b, c)
  {
    if |a| == 0 {
      assert a + b == b;
    } else {
      var h := if a[0] == c then [] else [a[0]];
      assert (a + b)[0] == a[0] && (a + b)[1..] == a[1..] + b;
      assert Delete(a + b, c) == h + Delete(a[1..] + b, c);
      DeleteAppend(a[1..], b, c);
      assert Delete(a, c) == h + Delete(a[1..], c);
    }
  }

  /** Deleting `c` keeps exactly the other characters. */
  lemma {:induction false} DeleteMembers(s: string, c: char, x: char)
    ensures x in Delete(s, c) <==> x in s && x != c
  {
    if |s| > 0 {
      DeleteMembers(s[1..], c, x);
      assert s == [s[0]] + s[1..];
    }
  }

  lemma {:induction false} DeleteAbsent(w: string, c: char)
    requires c !in w
    ensures Delete(w, c) == w
  {
    if |w| > 0 {
      assert forall x :: x in w[1..] ==> x in w;
      DeleteAbsent(w[1..], c);
    }
  }

  /** `s.replace(a, b)` for one-character `a` and `b` */
  function Subst(s: string, a: char, b: char): (r: string)
    ensures |r| == |s| && forall i :: 0 <= i < |s| ==> r[i] == (if s[i] == a then b else s[i])
  {
    seq(|s|, i requires 0 <= i < |s| => if s[i] == a then b else s[i])
  }

  predicate StartsWith(s: string, prefix: string) {
    |prefix| <= |s| && s[..|prefix|] == prefix
  }

  /** `pat in s` */
  predicate Contains(s: string, pat: string) {
    exists i :: 0 <= i <= |s| - |pat| && OccursAt(s, pat, i)
  }

  predicate OccursAt(s: string, pat: string, i: int)
    requires 0 <= i <= |s| - |pat|
  {
    s[i..i + |pat|] == pat
  }

  /** `s.replace(pat, rep)`: every occurrence, scanned left to right, without overlaps. */
  function Replace(s: string, pat: string, rep: string): string
    requires |pat| > 0
    decreases |s|
  {
    if |s| == 0 then []
    else if StartsWith(s, pat) then rep + Replace(s[|pat|..], pat, rep)
    else [s[0]] + Replace(s[1..], pat, rep)
  }

  function StripLeft(s: string): (r: string)
    ensures |r| == 0 || !IsSpace(r[0])
    ensures |r| <= |s| && r == s[|s| - |r|..]
  {
    if |s| > 0 && IsSpace(s[0]) then StripLeft(s[1..]) else s
  }

  function StripRight(s: string): (r: string)
    ensures |r| == 0 || !IsSpace(r[|r| - 1])
    ensures |r| <= |s| && r == s[..|r|]
  {
    if |s| > 0 && IsSpace(s[|s| - 1]) then StripRight(s[..|s| - 1]) else s
  }

  /** `s.strip()` */
  function Strip(s: string): (r: string)
    ensures |r| == 0 || (!IsSpace(r[0]) && !IsSpace(r[|r| - 1]))
  {
    var l := StripLeft(s);
    var r := StripRight(l);
    assert |r| > 0 ==> r[0] == l[0];
    r
  }

  /** `s.split(sep)` for a one-character separator. */
  function Split(s: string, sep: char): (parts: seq<string>)
    ensures |parts| >= 1
    ensures forall p :: p in parts ==> sep !in p
  {
    if |s| == 0 then [""]
    else if s[0] == sep then [""] + Split(s[1..], sep)
    else
      var rest := Split(s[1..], sep);
      assert rest[0] in rest;
      [[s[0]] + rest[0]] + rest[1..]
  }

  /** `[p.strip() for p in s.split(sep)]` */
  function SplitStrip(s: string, sep: char): (parts: seq<string>)
    ensures |parts| == |Split(s, sep)|
    ensures forall i :: 0 <= i < |parts| ==> parts[i] == Strip(Split(s, sep)[i])
  {
    var raw := Split(s, sep);
    seq(|raw|, i requires 0 <= i < |raw| => Strip(raw[i]))
  }

  /** No whitespace at either end: what `strip()` leaves. */
  predicate Stripped(s: string) {
    |s| == 0 || (!IsSpace(s[0]) && !IsSpace(s[|s| - 1]))
  }

  /**
   * The comma parts as the requirement and weapon parsers read them: at least one part, none
   * with outer whitespace or a separator, each taken from the matching raw piece, and the raw
   * pieces joined by the separator give back the text.
   */
  lemma SplitStripParts(s: string, sep: char)
    ensures |SplitStrip(s, sep)| >= 1
    ensures forall i :: 0 <= i < |SplitStrip(s, sep)| ==>
      Stripped(SplitStrip(s, sep)[i]) && sep !in SplitStrip(s, sep)[i]
      && forall c :: c in SplitStrip(s, sep)[i] ==> c in Split(s, sep)[i]
    ensures JoinWith(Split(s, sep), sep) == s
  {
    SplitJoin(s, sep);
    var raw, parts := Split(s, sep), SplitStrip(s, sep);
    forall i | 0 <= i < |parts|
      ensures Stripped(parts[i]) && sep !in parts[i] && forall c :: c in parts[i] ==> c in raw[i]
    {
      assert raw[i] in raw;
      StrippedPart(raw[i], sep);
    }
  }

  lemma StrippedPart(piece: string, sep: char)
    requires sep !in piece
    ensures Stripped(Strip(piece)) && sep !in Strip(piece)
    ensures forall c :: c in Strip(piece) ==> c in piece
  {
    StripChars(piece);
  }

  /** `sep.join(parts)` for a one-character separator. */
  function JoinWith(parts: seq<string>, sep: char): string
  {
    if |parts| == 0 then "" else if |parts| == 1 then parts[0] else parts[0] + [sep] + JoinWith(parts[1..], sep)
  }

  /** `''.join(parts)` */
  function Concat(parts: seq<string>): string
  {
    if |parts| == 0 then "" else parts[0] + Concat(parts[1..])
  }

  /** Deleting the separator from words joined by it concatenates the words. */
  lemma {:induction false} DeleteJoin(words: seq<string>, sep: char)
    requires forall w :: w in words ==> sep !in w
    ensures Delete(JoinWith(words, sep), sep) == Concat(words)
  {
    if |words| == 1 {
      DeleteAbsent(words[0], sep);
      assert Concat(words[1..]) == "";
    } else if |words| > 1 {
      DeleteJoin(words[1..], sep);
      DeleteAppend(words[0] + [sep], JoinWith(words[1..], sep), sep);
      DeleteAppend(words[0], [sep], sep);
      DeleteAbsent(words[0], sep);
      assert Delete([sep], sep) == "";
    }
  }

  /** Splitting on a separator and joining with it again gives back the text. */
  lemma {:induction false} SplitJoin(s: string, sep: char)
    ensures JoinWith(Split(s, sep), sep) == s
  {
    if |s| > 0 {
      SplitJoin(s[1..], sep);
      var rest := Split(s[1..], sep);
      if s[0] != sep && |rest| > 1 {
        assert Split(s, sep)[1..] == rest[1..];
        assert s == [s[0]] + s[1..];
      }
    }
  }

  /** `s.isdigit()` restricted to ASCII digits. */
  predicate AllDigits(s: string) {
    |s| > 0 && forall i :: 0 <= i < |s| ==> IsDigit(s[i])
  }

  /** `int(s)` for a string of decimal digits. */
  function DigitsValue(s: string): nat
    requires forall i :: 0 <= i < |s| ==> IsDigit(s[i])
  {
    if |s| == 0 then 0
    else
      assert IsDigit(s[|s| - 1]);
      DigitsValue(s[..|s| - 1]) * 10 + (s[|s| - 1] as int - '0' as int)
  }

  /** The digits at the start of `s`. */
  function LeadingDigits(s: string): (d: string)
    ensures |d| <= |s| && d == s[..|d|]
    ensures forall i :: 0 <= i < |d| ==> IsDigit(d[i])
    ensures |d| < |s| ==> !IsDigit(s[|d|])
  {
    if |s| > 0 && IsDigit(s[0]) then [s[0]] + LeadingDigits(s[1..]) else []
  }

  /** `re.search(r'(\d+)', s)`: the value of the leftmost run of digits, if any. */
  function FirstInt(s: string): (r: Option<nat>)
    ensures r.None? <==> forall i :: 0 <= i < |s| ==> !IsDigit(s[i])
  {
    if |s| == 0 then None
    else if IsDigit(s[0]) then Some(DigitsValue(LeadingDigits(s)))
    else
      var r := FirstInt(s[1..]);
      assert forall i :: 1 <= i < |s| ==> s[i] == s[1..][i - 1];
      r
  }

  /** Inserts one space before every upper-case letter that is not the first character. */
  function SpaceBeforeCapitals(s: string): string
  {
    if |s| == 0 then [] else [s[0]] + SpaceBeforeUpper(s[1..])
  }

  function SpaceBeforeUpper(t: string): string
  {
    if |t| == 0 then [] else (if IsUpper(t[0]) then [' ', t[0]] else [t[0]]) + SpaceBeforeUpper(t[1..])
  }

  predicate HasUpper(t: string) {
    exists i :: 0 <= i < |t| && IsUpper(t[i])
  }

  /** There is an upper-case letter after the first character. */
  predicate HasInnerCapital(s: string) {
    exists i :: 1 <= i < |s| && IsUpper(s[i])
  }

  lemma {:induction false} SpaceBeforeUpperShape(t: string)
    ensures |SpaceBeforeUpper(t)| >= |t|
    ensures |SpaceBeforeUpper(t)| == |t| <==> !HasUpper(t)
    ensures HasUpper(t) ==> HasUpper(SpaceBeforeUpper(t))
  {
    if |t| > 0 {
      SpaceBeforeUpperShape(t[1..]);
      var head := if IsUpper(t[0]) then [' ', t[0]] else [t[0]];
      var rest := SpaceBeforeUpper(t[1..]);
      assert SpaceBeforeUpper(t) == head + rest;
      if HasUpper(t[1..]) {
        var j :| 0 <= j < |rest| && IsUpper(rest[j]);
        assert SpaceBeforeUpper(t)[|head| + j] == rest[j];
      }
      if IsUpper(t[0]) {
        assert SpaceBeforeUpper(t)[1] == t[0];
      }
      if !IsUpper(t[0]) && !HasUpper(t[1..]) {
        forall i | 0 <= i < |t| ensures !IsUpper(t[i]) {
          if i > 0 { assert t[i] == t[1..][i - 1]; }
        }
      }
      if HasUpper(t) && !IsUpper(t[0]) {
        var i :| 0 <= i < |t| && IsUpper(t[i]);
        assert t[1..][i - 1] == t[i];
      }
    }
  }

  /**
   * The camel-case fallback changes a name exactly when the name has an upper-case
   * letter after its first character.
   */
  lemma SpaceBeforeCapitalsChanges(s: string)
    ensures SpaceBeforeCapitals(s) != s <==> HasInnerCapital(s)
  {
    if |s| > 0 {
      SpaceBeforeUpperShape(s[1..]);
      assert HasInnerCapital(s) <==> HasUpper(s[1..]) by {
        if HasInnerCapital(s) {
          var i :| 1 <= i < |s| && IsUpper(s[i]);
          assert s[1..][i - 1] == s[i];
        }
        if HasUpper(s[1..]) {
          var i :| 0 <= i < |s[1..]| && IsUpper(s[1..][i]);
          assert s[i + 1] == s[1..][i];
        }
      }
      if !HasUpper(s[1..]) {
        SpaceBeforeUpperNoUpper(s[1..]);
      }
    }
  }

  lemma {:induction false} SpaceBeforeUpperNoUpper(t: string)
    requires !HasUpper(t)
    ensures SpaceBeforeUpper(t) == t
  {
    if |t| > 0 {
      assert !IsUpper(t[0]);
      forall i | 0 <= i < |t[1..]| ensures !IsUpper(t[1..][i]) {
        assert t[1..][i] == t[i + 1];
      }
      SpaceBeforeUpperNoUpper(t[1..]);
    }
  }

  /**
   * The fallback is not idempotent: applied to a name it changes, it changes the
   * result again, because every inner capital survives (now after a space).
   */
  lemma SpaceBeforeCapitalsNotIdempotent(s: string)
    requires HasInnerCapital(s)
    ensures SpaceBeforeCapitals(s) != s
    ensures SpaceBeforeCapitals(SpaceBeforeCapitals(s)) != SpaceBeforeCapitals(s)
  {
    SpaceBeforeCapitalsChanges(s);
    var t := SpaceBeforeCapitals(s);
    assert HasUpper(s[1..]) by {
      var i :| 1 <= i < |s| && IsUpper(s[i]);
      assert s[1..][i - 1] == s[i];
    }
    SpaceBeforeUpperShape(s[1..]);
    var rest := SpaceBeforeUpper(s[1..]);
    var j :| 0 <= j < |rest| && IsUpper(rest[j]);
    assert t[j + 1] == rest[j];
    assert HasInnerCapital(t);
    SpaceBeforeCapitalsChanges(t);
  }

  /** In the output of `SpaceBeforeUpper`, every upper-case letter comes right after a space. */
  lemma {:induction false} SpaceBeforeUpperSpaced(t: string)
    ensures forall i :: 0 <= i < |SpaceBeforeUpper(t)| && IsUpper(SpaceBeforeUpper(t)[i]) ==>
      i >= 1 && SpaceBeforeUpper(t)[i - 1] == ' '
  {
    if |t| > 0 {
      SpaceBeforeUpperSpaced(t[1..]);
      var head := if IsUpper(t[0]) then [' ', t[0]] else [t[0]];
      var rest := SpaceBeforeUpper(t[1..]);
      assert SpaceBeforeUpper(t) == head + rest;
      forall j | 0 <= j < |rest| && IsUpper(rest[j])
        ensures SpaceBeforeUpper(t)[|head| + j - 1] == ' '
      {
        assert SpaceBeforeUpper(t)[|head| + j - 1] == rest[j - 1];
      }
    }
  }

  /**
   * After the camel-case fallback every upper-case letter past the first character follows
   * a space, so a name with an inner capital comes out holding a space.
   */
  lemma SpaceBeforeCapitalsSpaced(s: string)
    ensures forall i :: 1 <= i < |SpaceBeforeCapitals(s)| && IsUpper(SpaceBeforeCapitals(s)[i]) ==>
      SpaceBeforeCapitals(s)[i - 1] == ' '
    ensures HasInnerCapital(s) ==> ' ' in SpaceBeforeCapitals(s)
  {
    if |s| > 0 {
      var rest := SpaceBeforeUpper(s[1..]);
      SpaceBeforeUpperSpaced(s[1..]);
      SpaceBeforeUpperShape(s[1..]);
      assert SpaceBeforeCapitals(s) == [s[0]] + rest;
      if HasInnerCapital(s) {
        var i :| 1 <= i < |s| && IsUpper(s[i]);
        assert s[1..][i - 1] == s[i];
        var j :| 0 <= j < |rest| && IsUpper(rest[j]);
        assert SpaceBeforeCapitals(s)[j] == rest[j - 1];
      }
    }
  }

  /** The fallback only inserts spaces: deleting every space gives the same text before and after. */
  lemma {:induction false} SpaceBeforeUpperDespaced(t: string)
    ensures Delete(SpaceBeforeUpper(t), ' ') == Delete(t, ' ')
  {
    if |t| > 0 {
      SpaceBeforeUpperDespaced(t[1..]);
      var head := if IsUpper(t[0]) then [' ', t[0]] else [t[0]];
      DeleteAppend(head, SpaceBeforeUpper(t[1..]), ' ');
      DeleteAppend([t[0]], t[1..], ' ');
      assert t == [t[0]] + t[1..];
      if IsUpper(t[0]) {
        assert Delete(head, ' ') == [t[0]];
      }
    }
  }

  lemma SpaceBeforeCapitalsDespaced(s: string)
    ensures Delete(SpaceBeforeCapitals(s), ' ') == Delete(s, ' ')
  {
    if |s| > 0 {
      SpaceBeforeUpperDespaced(s[1..]);
      DeleteAppend([s[0]], SpaceBeforeUpper(s[1..]), ' ');
      DeleteAppend([s[0]], s[1..], ' ');
      assert s == [s[0]] + s[1..];
    }
  }

  /** `s.strip()` keeps a contiguous part of `s`, so it holds no character `s` does not. */
  lemma StripChars(s: string)
    ensures forall c :: c in Strip(s) ==> c in s
  {
    var l := StripLeft(s);
    assert forall c :: c in l ==> c in s by {
      assert l == s[|s| - |l|..];
    }
    var r := StripRight(l);
    assert forall c :: c in r ==> c in l by {
      assert r == l[..|r|];
    }
  }

  /** Text without outer whitespace is its own `strip()`. */
  lemma StripStripped(s: string)
    requires |s| == 0 || (!IsSpace(s[0]) && !IsSpace(s[|s| - 1]))
    ensures Strip(s) == s
  {
  }

  /** `s.replace(pat, '')` holds no character `s` does not. */
  lemma {:induction false} ReplaceEmptyChars(s: string, pat: string)
    requires |pat| > 0
    ensures forall c :: c in Replace(s, pat, "") ==> c in s
    decreases |s|
  {
    if |s| > 0 {
      if StartsWith(s, pat) {
        ReplaceEmptyChars(s[|pat|..], pat);
        assert forall c :: c in s[|pat|..] ==> c in s;
      } else {
        ReplaceEmptyChars(s[1..], pat);
        assert forall c :: c in s[1..] ==> c in s;
      }
    }
  }

  function KeepLowerAlnum(s: string): (r: string)
    ensures forall i :: 0 <= i < |r| ==> IsLowerAlnum(r[i])
  {
    if |s| == 0 then []
    else
      var rest := KeepLowerAlnum(s[1..]);
      if IsLowerAlnum(s[0]) then [s[0]] + rest else rest
  }

  /**
   * `re.sub(r"[^a-z0-9]", "", name.lower())` in the enrichment scripts, and `norm` in
   * the calculator page: the loose comparison key of a name.
   */
  function NormalizeName(name: string): (key: string)
  {
    KeepLowerAlnum(Lower(name))
  }

  lemma {:induction false} KeepLowerAlnumFixed(s: string)
    requires forall i :: 0 <= i < |s| ==> IsLowerAlnum(s[i])
    ensures KeepLowerAlnum(s) == s
  {
    if |s| > 0 {
      KeepLowerAlnumFixed(s[1..]);
    }
  }

  /** The loose key holds only `[a-z0-9]` and normalising it again changes nothing. */
  lemma NormalizeNameIdempotent(name: string)
    ensures forall i :: 0 <= i < |NormalizeName(name)| ==> IsLowerAlnum(NormalizeName(name)[i])
    ensures NormalizeName(NormalizeName(name)) == NormalizeName(name)
  {
    var k := NormalizeName(name);
    assert Lower(k) == k;
    KeepLowerAlnumFixed(k);
  }

  /** `name.lower().replace(' ', '')`: the spaced-mode key of the name-conversion script. */
  function SpacelessLower(name: string): string
  {
    Delete(Lower(name), ' ')
  }

  /** Python's `<` on strings: code-point lexicographic order. */
  predicate LexLess(a: string, b: string)
    decreases |a|
  {
    if |a| == 0 then |b| > 0
    else if |b| == 0 then false
    else if a[0] != b[0] then a[0] < b[0]
    else LexLess(a[1..], b[1..])
  }

  lemma {:induction false} LexTotal(a: string, b: string)
    ensures a == b || LexLess(a, b) || LexLess(b, a)
    ensures !(LexLess(a, b) && LexLess(b, a))
    ensures !LexLess(a, a)
    decreases |a|
  {
    if |a| > 0 && |b| > 0 && a[0] == b[0] {
      LexTotal(a[1..], b[1..]);
      if a[1..] == b[1..] {
        assert a == [a[0]] + a[1..] && b == [b[0]] + b[1..];
      }
    }
    if |a| > 0 { LexIrreflexive(a); }
  }

  lemma {:induction false} LexIrreflexive(a: string)
    ensures !LexLess(a, a)
    decreases |a|
  {
    if |a| > 0 { LexIrreflexive(a[1..]); }
  }

  lemma {:induction false} LexTransitive(a: string, b: string, c: string)
    requires LexLess(a, b) && LexLess(b, c)
    ensures LexLess(a, c)
    decreases |a|
  {
    if |a| > 0 && |b| > 0 && |c| > 0 && a[0] == b[0] && b[0] == c[0] {
      LexTransitive(a[1..], b[1..], c[1..]);
    }
  }
}
