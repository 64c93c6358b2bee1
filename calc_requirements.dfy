/**
 * The calculator's reading of skill requirements: the loose JSON shapes a requirement can
 * take, normalised to `{id, level}` pairs, and the two dependency maps built from them.
 * Values follow JavaScript's rules for truthiness, `??`, `String()` and `parseInt`.
 */
module CalcRequirements {
  import opened Wrappers
  import opened Text
  import opened Dicts
  import opened CanonicalStore

  /** A parsed JSON value; numbers are integers in this model. */
  datatype Json = JNull | JBool(b: bool) | JNum(n: int) | JStr(s: string) | JArr(items: seq<Json>) | JObj(fields: map<string, Json>)

  /** A value that may be `undefined`, written `None`. */
  type Val = Option<Json>

  /** JavaScript truthiness. */
  predicate Truthy(v: Val) {
    match v
    case None => false
    case Some(j) =>
      match j
      case JNull => false
      case JBool(b) => b
      case JNum(n) => n != 0
      case JStr(s) => s != ""
      case _ => true
  }

  /** `a ?? b` */
  function Coalesce(a: Val, b: Val): Val {
    if a.None? || a.value.JNull? then b else a
  }

  /** `obj[key]` on an object. */
  function Field(v: Json, key: string): Val {
    if v.JObj? && key in v.fields then Some(v.fields[key]) else None
  }

  /** `arr[i]` on an array. */
  function Item(items: seq<Json>, i: nat): Val {
    if i < |items| then Some(items[i]) else None
  }

  // ---------------------------------------------------------------------------
  // `String()` and `parseInt(·, 10)`

  function DigitChar(d: nat): (c: char)
    requires d < 10
    ensures IsDigit(c) && c as int - '0' as int == d
  {
    ['0', '1', '2', '3', '4', '5', '6', '7', '8', '9'][d]
  }

  /** The decimal digits of `n`, without leading zeros. */
  function NatToString(n: nat): (s: string)
    ensures AllDigits(s) && DigitsValue(s) == n
    ensures |s| == 1 || s[0] != '0'
  {
    if n < 10 then [DigitChar(n)]
    else
      var p := NatToString(n / 10);
      var s := p + [DigitChar(n % 10)];
      assert s[..|s| - 1] == p;
      s
  }

  /** `String(n)` for an integer. */
  function IntToString(n: int): string
  {
    if n < 0 then "-" + NatToString(-n) else NatToString(n)
  }

  /** `String(v)` */
  function ToStr(v: Json): string
  {
    match v
    case JNull => "null"
    case JBool(b) => if b then "true" else "false"
    case JNum(n) => IntToString(n)
    case JStr(s) => s
    case JArr(items) => JoinItems(items)
    case JObj(_) => "[object Object]"
  }

  /** An array's string: its elements' strings joined with commas, `null` elements as empty. */
  function JoinItems(items: seq<Json>): string
  {
    if |items| == 0 then ""
    else
      (if items[0].JNull? then "" else ToStr(items[0]))
      + (if |items| == 1 then "" else "," + JoinItems(items[1..]))
  }

  /** The white space and line terminators `parseInt` skips. */
  predicate IsJsSpace(c: char) {
    c == '\t' || c == '\n' || c == '\U{b}' || c == '\U{c}' || c == '\r' || c == ' ' || c == '\U{a0}'
    || c == '\U{1680}' || '\U{2000}' <= c <= '\U{200a}' || c == '\U{2028}' || c == '\U{2029}'
    || c == '\U{202f}' || c == '\U{205f}' || c == '\U{3000}' || c == '\U{feff}'
  }

  function SkipJsSpace(s: string): (r: string)
    ensures |r| <= |s| && r == s[|s| - |r|..]
    ensures |r| > 0 ==> !IsJsSpace(r[0])
    ensures |s| > 0 && !IsJsSpace(s[0]) ==> r == s
  {
    if |s| > 0 && IsJsSpace(s[0]) then SkipJsSpace(s[1..]) else s
  }

  /** The value of the leading run of digits, or `None` when there is none. */
  function LeadingDigitValue(b: string): Option<int>
  {
    var d := LeadingDigits(b);
    if |d| == 0 then None else Some(DigitsValue(d))
  }

  /** The value of an optional sign and a run of digits, or `None` when no digit follows. */
  function SignedDigits(t: string): Option<int>
  {
    if |t| > 0 && t[0] == '-' then
      match LeadingDigitValue(t[1..])
      case None => None
      case Some(v) => Some(0 - v)
    else if |t| > 0 && t[0] == '+' then LeadingDigitValue(t[1..])
    else LeadingDigitValue(t)
  }

  /**
   * `parseInt(s, 10)`: leading white space, an optional sign, then the longest run of
   * decimal digits; `None` stands for `NaN`, when there is no digit.
   */
  function ParseInt(s: string): Option<int>
  {
    SignedDigits(SkipJsSpace(s))
  }

  /** The leading run of `a + rest` is `a` when `rest` does not start with a digit. */
  lemma LeadingStop(a: string, rest: string)
    requires AllDigits(a) && (|rest| == 0 || !IsDigit(rest[0]))
    ensures LeadingDigits(a + rest) == a
  {
    var s := a + rest;
    var ld := LeadingDigits(s);
    assert s[..|a|] == a;
  }

  /** A string made only of digits is its own leading run. */
  lemma LeadingDigitValueAll(d: string)
    requires AllDigits(d)
    ensures LeadingDigitValue(d) == Some(DigitsValue(d))
  {
    LeadingStop(d, "");
    assert d + "" == d;
  }

  /** A run of digits reads back as its value. */
  lemma ParseDigits(d: string)
    requires AllDigits(d)
    ensures ParseInt(d) == Some(DigitsValue(d))
  {
    DigitStart(d);
    LeadingDigitValueAll(d);
  }

  /** A string starting with a digit has no white space or sign to skip. */
  lemma DigitStart(t: string)
    requires |t| > 0 && IsDigit(t[0])
    ensures ParseInt(t) == LeadingDigitValue(t)
  {
    assert !IsJsSpace(t[0]);
    assert SkipJsSpace(t) == t;
  }

  /** A minus sign before a run that reads as a number negates it. */
  lemma SignedNegative(t: string, d: string)
    requires |t| > 0 && t[0] == '-' && t[1..] == d && AllDigits(d) && LeadingDigitValue(d) == Some(DigitsValue(d))
    ensures SignedDigits(t) == Some(0 - DigitsValue(d))
  {
  }

  /** A minus sign and a run of digits read back as the negated value. */
  lemma ParseNegative(d: string)
    requires AllDigits(d)
    ensures ParseInt("-" + d) == Some(0 - DigitsValue(d))
  {
    var t := "-" + d;
    assert t[0] == '-' && t[1..] == d;
    assert SkipJsSpace(t) == t;
    LeadingDigitValueAll(d);
    SignedNegative(t, d);
  }

  /** `parseInt(String(n), 10) == n` for every integer. */
  lemma ParseIntToString(n: int)
    ensures ParseInt(IntToString(n)) == Some(n)
  {
    if n < 0 {
      ParseNegative(NatToString(-n));
    } else {
      ParseDigits(NatToString(n));
    }
  }

  // ---------------------------------------------------------------------------
  // `normalizeRequirements`

  /** A normalised requirement; a `level` of `None` stands for `NaN`. */
  datatype Req = Req(id: string, level: Option<int>)

  /** The level `push` stores: `Math.max(1, parseInt(level || '1', 10))`. */
  function LevelOf(level: Val): (r: Option<int>)
    ensures r.Some? ==> r.value >= 1
  {
    match ParseInt(if Truthy(level) then ToStr(level.value) else "1")
    case None => None
    case Some(n) => Some(if n < 1 then 1 else n)
  }

  /** A truthy level is parsed from its string and raised to at least 1. */
  lemma LevelOfParsed(v: Json, n: int)
    requires Truthy(Some(v)) && ParseInt(ToStr(v)) == Some(n)
    ensures LevelOf(Some(v)) == Some(if n < 1 then 1 else n)
  {
  }

  /** A falsy level falls back to `'1'`. */
  lemma LevelOfFalsy(v: Val)
    requires !Truthy(v)
    ensures LevelOf(v) == Some(1)
  {
    assert AllDigits("1") && DigitsValue("1") == 1;
    ParseDigits("1");
  }

  /** A number given as the level is stored as itself, raised to at least 1. */
  lemma LevelOfNumber(k: int)
    ensures LevelOf(Some(JNum(k))) == Some(if k < 1 then 1 else k)
  {
    if k == 0 {
      LevelOfFalsy(Some(JNum(0)));
    } else {
      ParseIntToString(k);
      LevelOfParsed(JNum(k), k);
    }
  }

  /** A string of digits given as the level is stored as its value, raised to at least 1. */
  lemma LevelOfDigits(b: string)
    requires AllDigits(b)
    ensures LevelOf(Some(JStr(b))) == Some(if DigitsValue(b) < 1 then 1 else DigitsValue(b))
  {
    ParseDigits(b);
    LevelOfParsed(JStr(b), DigitsValue(b));
  }

  /** `push(id, level)`: nothing when the id is falsy. */
  function Push(id: Val, level: Val): seq<Req>
  {
    if Truthy(id) then [Req(ToStr(id.value), LevelOf(level))] else []
  }

  /**
   * `r.match(/^(\d+)(?::(\d+))?$/)`: group 1 and group 2 (`None` when the optional part is
   * absent), or `None` when the string does not match.
   */
  function MatchReqString(s: string): (r: Option<(string, Option<string>)>)
    ensures r.Some? ==> AllDigits(r.value.0)
    ensures r.Some? && r.value.1.None? ==> s == r.value.0
    ensures r.Some? && r.value.1.Some? ==> AllDigits(r.value.1.value) && s == r.value.0 + ":" + r.value.1.value
  {
    var d := LeadingDigits(s);
    if |d| == 0 then None
    else if |d| == |s| then Some((s, None))
    else if s[|d|] == ':' && AllDigits(s[|d| + 1..]) then
      assert s == d + ":" + s[|d| + 1..];
      Some((d, Some(s[|d| + 1..])))
    else None
  }

  /** The two shapes the pattern accepts are matched, with the expected groups. */
  lemma MatchReqStringComplete(a: string, b: string)
    requires AllDigits(a) && AllDigits(b)
    ensures MatchReqString(a) == Some((a, None))
    ensures MatchReqString(a + ":" + b) == Some((a, Some(b)))
  {
    var s := a + ":" + b;
    assert s == a + (":" + b) && s[|a| + 1..] == b;
    LeadingStop(a, ":" + b);
    LeadingStop(a, "");
    assert a + "" == a;
  }

  /** What one element of the requirement array contributes. */
  function ReqsOf(r: Json): (out: seq<Req>)
    ensures |out| <= 1
  {
    if !Truthy(Some(r)) && r != JNum(0) then []
    else
      match r
      case JObj(_) =>
        Push(Coalesce(Coalesce(Field(r, "id"), Field(r, "skillId")), Field(r, "0")),
             Coalesce(Coalesce(Coalesce(Field(r, "level"), Field(r, "lv")), Field(r, "1")), Some(JNum(1))))
      case JArr(items) => Push(Item(items, 0), Coalesce(Item(items, 1), Some(JNum(1))))
      case JStr(s) =>
        var m := MatchReqString(s);
        if m.None? then []
        else Push(Some(JStr(m.value.0)), Coalesce(if m.value.1.Some? then Some(JStr(m.value.1.value)) else None, Some(JNum(1))))
      case JNum(_) => Push(Some(r), Some(JNum(1)))
      case _ => []
  }

  /** The elements the loop visits: an array's items, any other value alone. */
  function Elements(reqVal: Json): seq<Json>
  {
    if reqVal.JArr? then reqVal.items else [reqVal]
  }

  /** The requirements of a prefix of the elements. */
  function ReqsOfAll(rs: seq<Json>): seq<Req>
  {
    if |rs| == 0 then [] else ReqsOfAll(rs[..|rs| - 1]) + ReqsOf(rs[|rs| - 1])
  }

  /** The result of `normalizeRequirements(reqVal)`. */
  function Normalized(reqVal: Val): seq<Req>
  {
    if !Truthy(reqVal) then [] else ReqsOfAll(Elements(reqVal.value))
  }

  /** `normalizeRequirements` */
  method NormalizeRequirements(reqVal: Val) returns (out: seq<Req>)
    ensures out == Normalized(reqVal)
  {
    if !Truthy(reqVal) {
      return [];
    }
    out := [];
    var arr := if reqVal.value.JArr? then reqVal.value.items else [reqVal.value];
    var i := 0;
    while i < |arr|
      invariant 0 <= i <= |arr|
      invariant out == ReqsOfAll(arr[..i])
    {
      assert arr[..i + 1][..i] == arr[..i];
      var r := arr[i];
      i := i + 1;
      if !Truthy(Some(r)) && r != JNum(0) {
        continue;
      }
      if r.JObj? {
        out := out + Push(Coalesce(Coalesce(Field(r, "id"), Field(r, "skillId")), Field(r, "0")),
                          Coalesce(Coalesce(Coalesce(Field(r, "level"), Field(r, "lv")), Field(r, "1")), Some(JNum(1))));
      } else if r.JArr? {
        out := out + Push(Item(r.items, 0), Coalesce(Item(r.items, 1), Some(JNum(1))));
      } else if r.JStr? {
        var m := MatchReqString(r.s);
        if m.Some? {
          out := out + Push(Some(JStr(m.value.0)), Coalesce(if m.value.1.Some? then Some(JStr(m.value.1.value)) else None, Some(JNum(1))));
        }
      } else if r.JNum? {
        out := out + Push(Some(r), Some(JNum(1)));
      }
    }
    assert arr[..|arr|] == arr;
  }

  /** Every level is at least 1 or `NaN`, and no element yields more than one requirement. */
  lemma {:induction false} ReqsOfAllShape(rs: seq<Json>)
    ensures |ReqsOfAll(rs)| <= |rs|
    ensures forall q :: q in ReqsOfAll(rs) ==> q.level.None? || q.level.value >= 1
  {
    if |rs| > 0 {
      ReqsOfAllShape(rs[..|rs| - 1]);
      assert forall q :: q in ReqsOf(rs[|rs| - 1]) ==> q.level.None? || q.level.value >= 1;
    }
  }

  /**
   * A falsy value has no requirements; otherwise there is at most one per element, and every
   * level is at least 1 (or `NaN` when the level text has no leading digits).
   */
  lemma NormalizedShape(reqVal: Val)
    ensures !Truthy(reqVal) ==> Normalized(reqVal) == []
    ensures Truthy(reqVal) ==> |Normalized(reqVal)| <= |Elements(reqVal.value)|
    ensures forall q :: q in Normalized(reqVal) ==> q.level.None? || q.level.value >= 1
  {
    if Truthy(reqVal) {
      ReqsOfAllShape(Elements(reqVal.value));
    }
  }

  /** A string the pattern matches is pushed with its groups. */
  lemma MatchedString(s: string, a: string, b: Option<string>)
    requires MatchReqString(s) == Some((a, b))
    ensures ReqsOf(JStr(s)) == Push(Some(JStr(a)), Coalesce(if b.Some? then Some(JStr(b.value)) else None, Some(JNum(1))))
  {
  }

  /** A string of digits is an id at level 1. */
  lemma DigitsRequirement(a: string)
    requires AllDigits(a)
    ensures ReqsOf(JStr(a)) == [Req(a, Some(1))]
  {
    MatchReqStringComplete(a, "0");
    MatchedString(a, a, None);
    LevelOfNumber(1);
  }

  /** `"<digits>:<digits>"` is an id and a level, the level raised to at least 1. */
  lemma DigitsLevelRequirement(a: string, b: string)
    requires AllDigits(a) && AllDigits(b)
    ensures ReqsOf(JStr(a + ":" + b)) == [Req(a, Some(if DigitsValue(b) < 1 then 1 else DigitsValue(b)))]
  {
    MatchReqStringComplete(a, b);
    MatchedString(a + ":" + b, a, Some(b));
    LevelOfDigits(b);
  }

  /** Any other string contributes nothing. */
  lemma OtherString(s: string)
    requires !AllDigits(s)
    requires forall a, b :: AllDigits(a) && AllDigits(b) ==> s != a + ":" + b
    ensures ReqsOf(JStr(s)) == []
  {
  }

  /** `push` with a truthy id stores one requirement. */
  lemma PushTruthy(id: Json, level: Val)
    requires Truthy(Some(id))
    ensures Push(Some(id), level) == [Req(ToStr(id), LevelOf(level))]
  {
  }

  /** A number is an id at level 1, except 0, which `push` drops. */
  lemma NumberRequirement(n: int)
    ensures ReqsOf(JNum(n)) == if n == 0 then [] else [Req(IntToString(n), Some(1))]
  {
    if n != 0 {
      assert ReqsOf(JNum(n)) == Push(Some(JNum(n)), Some(JNum(1)));
      PushTruthy(JNum(n), Some(JNum(1)));
      LevelOfNumber(1);
    }
  }

  /** An object pushes its first present id key with its first present level key. */
  lemma ObjectReqs(f: map<string, Json>)
    ensures ReqsOf(JObj(f)) ==
      Push(Coalesce(Coalesce(Field(JObj(f), "id"), Field(JObj(f), "skillId")), Field(JObj(f), "0")),
           Coalesce(Coalesce(Coalesce(Field(JObj(f), "level"), Field(JObj(f), "lv")), Field(JObj(f), "1")), Some(JNum(1))))
  {
  }

  /** `{id, level}` with a truthy id and a numeric level. */
  lemma ObjectRequirement(f: map<string, Json>, id: Json, k: int)
    requires "id" in f && f["id"] == id && Truthy(Some(id))
    requires "level" in f && f["level"] == JNum(k)
    ensures ReqsOf(JObj(f)) == [Req(ToStr(id), Some(if k < 1 then 1 else k))]
  {
    ObjectReqs(f);
    assert Field(JObj(f), "id") == Some(id) && Field(JObj(f), "level") == Some(JNum(k));
    PushTruthy(id, Some(JNum(k)));
    LevelOfNumber(k);
  }

  /** An object without any level key gets level 1. */
  lemma ObjectDefaultLevel(f: map<string, Json>, id: Json)
    requires "id" in f && f["id"] == id && Truthy(Some(id))
    requires "level" !in f && "lv" !in f && "1" !in f
    ensures ReqsOf(JObj(f)) == [Req(ToStr(id), Some(1))]
  {
    ObjectReqs(f);
    assert Field(JObj(f), "id") == Some(id);
    assert Field(JObj(f), "level") == None && Field(JObj(f), "lv") == None && Field(JObj(f), "1") == None;
    PushTruthy(id, Some(JNum(1)));
    LevelOfNumber(1);
  }

  /** An object with no `id`, `skillId` or `0` key contributes nothing. */
  lemma ObjectWithoutId(f: map<string, Json>)
    requires "id" !in f && "skillId" !in f && "0" !in f
    ensures ReqsOf(JObj(f)) == []
  {
    ObjectReqs(f);
  }

  /** An array pushes its first item with its second as the level. */
  lemma ArrayReqs(items: seq<Json>)
    ensures ReqsOf(JArr(items)) == Push(Item(items, 0), Coalesce(Item(items, 1), Some(JNum(1))))
  {
    assert Truthy(Some(JArr(items)));
  }

  /** `[id, level]` with a truthy id and a numeric level. */
  lemma PairRequirement(id: Json, k: int)
    requires Truthy(Some(id))
    ensures ReqsOf(JArr([id, JNum(k)])) == [Req(ToStr(id), Some(if k < 1 then 1 else k))]
  {
    var two := [id, JNum(k)];
    ArrayReqs(two);
    assert Item(two, 0) == Some(id) && Item(two, 1) == Some(JNum(k));
    PushTruthy(id, Some(JNum(k)));
    LevelOfNumber(k);
  }

  /** `[id]` gets level 1. */
  lemma SingleRequirement(id: Json)
    requires Truthy(Some(id))
    ensures ReqsOf(JArr([id])) == [Req(ToStr(id), Some(1))]
  {
    var one := [id];
    ArrayReqs(one);
    assert Item(one, 0) == Some(id) && Item(one, 1) == None;
    PushTruthy(id, Some(JNum(1)));
    LevelOfNumber(1);
  }

  // ---------------------------------------------------------------------------
  // Dependents maps

  /** Required id -> ids of the skills that require it. */
  type Deps = map<string, seq<string>>

  /** `arr = deps[r] = deps[r] || []; if (!arr.includes(sid)) arr.push(sid)` */
  function AddDependent(deps: Deps, r: string, sid: string): Deps
  {
    var arr := if r in deps then deps[r] else [];
    deps[r := if sid in arr then arr else arr + [sid]]
  }

  predicate NoDup(s: seq<string>) {
    forall i, j :: 0 <= i < j < |s| ==> s[i] != s[j]
  }

  /** Some skill listed with id `sid` requires `r`; each skill is listed with the ids it requires. */
  ghost predicate Mentions(ps: seq<(string, set<string>)>, r: string, sid: string) {
    exists i :: 0 <= i < |ps| && ps[i].0 == sid && r in ps[i].1
  }

  /** Some listed skill requires `r`. */
  ghost predicate Required(ps: seq<(string, set<string>)>, r: string) {
    exists i :: 0 <= i < |ps| && r in ps[i].1
  }

  /**
   * `deps` has a key for every required id and no other, and lists under it exactly the
   * skills that require it, each once.
   */
  ghost predicate DependentsOf(deps: Deps, ps: seq<(string, set<string>)>) {
    (forall r :: r in deps <==> Required(ps, r))
    && (forall r, sid :: r in deps ==> (sid in deps[r] <==> Mentions(ps, r, sid)))
    && (forall r :: r in deps ==> NoDup(deps[r]))
  }

  /** Each element, in order, with the id and the set of ids `f` gives it. */
  function Pairs<T>(xs: seq<T>, f: T -> (string, set<string>)): (ps: seq<(string, set<string>)>)
    ensures |ps| == |xs| && forall i :: 0 <= i < |xs| ==> ps[i] == f(xs[i])
  {
    seq(|xs|, i requires 0 <= i < |xs| => f(xs[i]))
  }

  /** Visiting element `i` appends its pair. */
  lemma PairsPrefix<T>(xs: seq<T>, f: T -> (string, set<string>), i: nat)
    requires i < |xs|
    ensures Pairs(xs, f)[..i + 1] == Pairs(xs, f)[..i] + [f(xs[i])]
  {
  }

  /** Read back through `Pairs`, the dependents map lists `sid` under `r` exactly when some element with id `sid` names `r`. */
  lemma PairsMeaning<T>(xs: seq<T>, f: T -> (string, set<string>), deps: Deps, r: string, sid: string)
    requires DependentsOf(deps, Pairs(xs, f))
    ensures r in deps && sid in deps[r] <==> exists i :: 0 <= i < |xs| && f(xs[i]).0 == sid && r in f(xs[i]).1
    ensures r in deps <==> exists i :: 0 <= i < |xs| && r in f(xs[i]).1
  {
    var ps := Pairs(xs, f);
    if exists i :: 0 <= i < |xs| && f(xs[i]).0 == sid && r in f(xs[i]).1 {
      var i :| 0 <= i < |xs| && f(xs[i]).0 == sid && r in f(xs[i]).1;
      assert ps[i].0 == sid && r in ps[i].1;
    }
    if exists i :: 0 <= i < |xs| && r in f(xs[i]).1 {
      var i :| 0 <= i < |xs| && r in f(xs[i]).1;
      assert r in ps[i].1;
    }
  }

  lemma MentionsSnoc(ps: seq<(string, set<string>)>, sid: string, refs: set<string>, r: string, s: string)
    ensures Mentions(ps + [(sid, refs)], r, s) <==> Mentions(ps, r, s) || (s == sid && r in refs)
    ensures Required(ps + [(sid, refs)], r) <==> Required(ps, r) || r in refs
  {
    var qs := ps + [(sid, refs)];
    assert qs[|ps|] == (sid, refs);
    assert forall i :: 0 <= i < |ps| ==> qs[i] == ps[i];
    if Mentions(qs, r, s) && !(s == sid && r in refs) {
      var i :| 0 <= i < |qs| && qs[i].0 == s && r in qs[i].1;
      assert i < |ps|;
    }
    if Required(qs, r) && r !in refs {
      var i :| 0 <= i < |qs| && r in qs[i].1;
      assert i < |ps|;
    }
  }

  /** A skill that requires nothing yet leaves the map as it is. */
  lemma DependentsStart(deps: Deps, ps: seq<(string, set<string>)>, sid: string)
    requires DependentsOf(deps, ps)
    ensures DependentsOf(deps, ps + [(sid, {})])
  {
    forall r ensures r in deps <==> Required(ps + [(sid, {})], r) {
      MentionsSnoc(ps, sid, {}, r, sid);
    }
    forall r, s | r in deps ensures s in deps[r] <==> Mentions(ps + [(sid, {})], r, s) {
      MentionsSnoc(ps, sid, {}, r, s);
    }
  }

  /** Recording one more required id of the current skill keeps the map exact. */
  lemma AddDependentStep(deps: Deps, ps: seq<(string, set<string>)>, sid: string, done: set<string>, r: string)
    requires DependentsOf(deps, ps + [(sid, done)])
    ensures DependentsOf(AddDependent(deps, r, sid), ps + [(sid, done + {r})])
  {
    var d := AddDependent(deps, r, sid);
    var after := ps + [(sid, done + {r})];
    forall x ensures x in d <==> Required(after, x) {
      MentionsSnoc(ps, sid, done, x, sid);
      MentionsSnoc(ps, sid, done + {r}, x, sid);
    }
    forall x, s | x in d ensures s in d[x] <==> Mentions(after, x, s) {
      MentionsSnoc(ps, sid, done, x, s);
      MentionsSnoc(ps, sid, done + {r}, x, s);
    }
    forall x | x in d ensures NoDup(d[x]) {
      if x == r && r in deps {
        var arr := deps[r];
        assert NoDup(arr);
      }
    }
  }

  /** Two maps that both list the dependents of the same skills agree on every key and member. */
  lemma DependentsUnique(d1: Deps, d2: Deps, ps: seq<(string, set<string>)>)
    requires DependentsOf(d1, ps) && DependentsOf(d2, ps)
    ensures d1.Keys == d2.Keys
    ensures forall r :: r in d1 ==> |d1[r]| == |d2[r]| && (forall sid :: sid in d1[r] <==> sid in d2[r])
  {
    forall r | r in d1 ensures |d1[r]| == |d2[r]| {
      NoDupSize(d1[r], d2[r]);
    }
  }

  /** Two duplicate-free lists with the same members have the same length. */
  lemma {:induction false} NoDupSize(a: seq<string>, b: seq<string>)
    requires NoDup(a) && NoDup(b) && forall x :: x in a <==> x in b
    ensures |a| == |b|
  {
    NoDupCard(a);
    NoDupCard(b);
    assert (set x | x in a) == (set x | x in b);
  }

  /** A duplicate-free list has as many members as elements. */
  lemma {:induction false} NoDupCard(a: seq<string>)
    requires NoDup(a)
    ensures |set x | x in a| == |a|
  {
    if |a| > 0 {
      var init := a[..|a| - 1];
      assert NoDup(init);
      NoDupCard(init);
      assert (set x | x in a) == (set x | x in init) + {a[|a| - 1]} by {
        assert a == init + [a[|a| - 1]];
      }
      assert a[|a| - 1] !in init;
    }
  }

  // ---------------------------------------------------------------------------
  // `buildDependencyIndex`

  /** A skill record as the dependency index reads it: its id, its `req` value and its `requires` value (`prereqs`). */
  datatype RawSkill = RawSkill(id: Json, req: Val, prereqs: Val)

  /** The skill's normalised requirements: `normalizeRequirements(s.req || s.requires)`. */
  function SkillReqs(s: RawSkill): seq<Req>
  {
    Normalized(if Truthy(s.req) then s.req else s.prereqs)
  }

  function ReqIds(req: seq<Req>): (ids: set<string>)
    ensures forall r :: r in ids <==> exists q :: q in req && q.id == r
  {
    set q | q in req :: q.id
  }

  lemma ReqIdsSnoc(req: seq<Req>, q: Req)
    ensures ReqIds(req + [q]) == ReqIds(req) + {q.id}
  {
    assert forall x :: x in req + [q] <==> x in req || x == q;
  }

  /** A skill with the ids its requirements name. */
  function IndexPair(s: RawSkill): (string, set<string>)
  {
    (ToStr(s.id), ReqIds(SkillReqs(s)))
  }

  /** Each skill, in order, with the ids its requirements name. */
  function IndexPairs(skills: seq<RawSkill>): seq<(string, set<string>)>
  {
    Pairs(skills, IndexPair)
  }

  /** The `requiresById` entry of a skill: its requirements under its id, when there are any. */
  function RequiresEntry(s: RawSkill): Option<(string, seq<Req>)>
  {
    var req := SkillReqs(s);
    if |req| > 0 then Some((ToStr(s.id), req)) else None
  }

  /** The inner loop of `buildDependencyIndex`: list skill `sid` under every id it requires. */
  method RecordRequirements(deps: Deps, ghost ps: seq<(string, set<string>)>, sid: string, req: seq<Req>)
    returns (out: Deps)
    requires DependentsOf(deps, ps)
    ensures DependentsOf(out, ps + [(sid, ReqIds(req))])
  {
    out := deps;
    DependentsStart(out, ps, sid);
    assert req[..0] == [];
    assert ReqIds(req[..0]) == {};
    var j := 0;
    while j < |req|
      invariant 0 <= j <= |req|
      invariant DependentsOf(out, ps + [(sid, ReqIds(req[..j]))])
    {
      var r := req[j].id;
      AddDependentStep(out, ps, sid, ReqIds(req[..j]), r);
      ReqIdsSnoc(req[..j], req[j]);
      assert req[..j + 1] == req[..j] + [req[j]];
      var arr := if r in out then out[r] else [];
      if sid !in arr {
        arr := arr + [sid];
      }
      out := out[r := arr];
      j := j + 1;
    }
    assert req[..|req|] == req;
  }

  /** What visiting skill `i` adds to `requiresById`. */
  lemma RequiresStep(skills: seq<RawSkill>, i: nat, req: seq<Req>)
    requires i < |skills| && req == SkillReqs(skills[i])
    ensures Collect(skills[..i + 1], RequiresEntry) ==
      if |req| > 0 then Collect(skills[..i], RequiresEntry)[ToStr(skills[i].id) := req] else Collect(skills[..i], RequiresEntry)
  {
    CollectSnoc(skills[..i], skills[i], RequiresEntry);
    assert skills[..i + 1] == skills[..i] + [skills[i]];
  }

  /** `buildDependencyIndex` over the spec's skill list. */
  method BuildDependencyIndex(skills: seq<RawSkill>) returns (requiresById: map<string, seq<Req>>, dependentsById: Deps)
    ensures requiresById == Collect(skills, RequiresEntry)
    ensures DependentsOf(dependentsById, IndexPairs(skills))
  {
    requiresById := map[];
    dependentsById := map[];
    var i := 0;
    while i < |skills|
      invariant 0 <= i <= |skills|
      invariant requiresById == Collect(skills[..i], RequiresEntry)
      invariant DependentsOf(dependentsById, IndexPairs(skills)[..i])
    {
      var s := skills[i];
      var sid := ToStr(s.id);
      var req := NormalizeRequirements(if Truthy(s.req) then s.req else s.prereqs);
      RequiresStep(skills, i, req);
      PairsPrefix(skills, IndexPair, i);
      if |req| > 0 {
        requiresById := requiresById[sid := req];
      }
      ghost var ps := IndexPairs(skills)[..i];
      dependentsById := RecordRequirements(dependentsById, ps, sid, req);
      i := i + 1;
    }
    assert skills[..|skills|] == skills;
    assert IndexPairs(skills)[..|skills|] == IndexPairs(skills);
  }

  /**
   * A skill's id is listed under `r` exactly when that skill's normalised requirements name
   * `r`.
   */
  lemma DependencyIndexMeaning(skills: seq<RawSkill>, deps: Deps, r: string, sid: string)
    requires DependentsOf(deps, IndexPairs(skills))
    ensures r in deps && sid in deps[r] <==>
      exists i :: 0 <= i < |skills| && ToStr(skills[i].id) == sid && r in ReqIds(SkillReqs(skills[i]))
  {
    PairsMeaning(skills, IndexPair, deps, r, sid);
  }

  /** `requiresById` has a key for exactly the ids of the skills with some requirement. */
  lemma RequiresIndexMeaning(skills: seq<RawSkill>, sid: string)
    ensures sid in Collect(skills, RequiresEntry) <==>
      exists i :: 0 <= i < |skills| && ToStr(skills[i].id) == sid && |SkillReqs(skills[i])| > 0
  {
    CollectLast(skills, RequiresEntry, sid);
  }

  // ---------------------------------------------------------------------------
  // `buildReverseDependencyMap`

  /** `r && r.id`: the prerequisite names a skill by id. */
  predicate HasId(p: Prereq) {
    p.id.Some? && p.id.value != ""
  }

  /** The ids named by the prerequisites under keys outside `rest`. */
  function RefsOutside(reqs: map<string, Prereq>, rest: set<string>): set<string>
  {
    set k | k in reqs && k !in rest && HasId(reqs[k]) :: reqs[k].id.value
  }

  /** The ids a store skill's prerequisites name. */
  function RefIds(e: Entry): set<string>
  {
    if e.prereqs.None? then {} else RefsOutside(e.prereqs.value, {})
  }

  lemma RefsStep(reqs: map<string, Prereq>, rest: set<string>, k: string)
    requires k in rest && k in reqs
    ensures RefsOutside(reqs, rest - {k}) ==
      RefsOutside(reqs, rest) + if HasId(reqs[k]) then {reqs[k].id.value} else {}
  {
  }

  /** Each store skill, in order, with the ids its prerequisites name. */
  function ReversePair(e: Entry): (string, set<string>)
  {
    (e.id, RefIds(e))
  }

  function ReversePairs(skills: seq<Entry>): seq<(string, set<string>)>
  {
    Pairs(skills, ReversePair)
  }

  /** The inner loop of `buildReverseDependencyMap`: list skill `sid` under every id its prerequisites name. */
  method RecordPrereqs(deps: Deps, ghost ps: seq<(string, set<string>)>, sid: string, reqs: map<string, Prereq>)
    returns (out: Deps)
    requires DependentsOf(deps, ps)
    ensures DependentsOf(out, ps + [(sid, RefsOutside(reqs, {}))])
  {
    out := deps;
    DependentsStart(out, ps, sid);
    var rest := reqs.Keys;
    assert RefsOutside(reqs, rest) == {};
    while rest != {}
      invariant rest <= reqs.Keys
      invariant DependentsOf(out, ps + [(sid, RefsOutside(reqs, rest))])
      decreases rest
    {
      var k :| k in rest;
      var r := reqs[k];
      RefsStep(reqs, rest, k);
      ghost var done := RefsOutside(reqs, rest);
      if r.id.Some? && r.id.value != "" {
        AddDependentStep(out, ps, sid, done, r.id.value);
        ghost var before := out;
        var arr := if r.id.value in out then out[r.id.value] else [];
        if sid !in arr {
          arr := arr + [sid];
        }
        out := out[r.id.value := arr];
        assert out == AddDependent(before, r.id.value, sid);
        assert RefsOutside(reqs, rest - {k}) == done + {r.id.value};
      } else {
        assert RefsOutside(reqs, rest - {k}) == done;
      }
      rest := rest - {k};
    }
  }

  /** `buildReverseDependencyMap` over the spec's skill list. */
  method BuildReverseDependencyMap(skills: seq<Entry>) returns (dependents: Deps)
    ensures DependentsOf(dependents, ReversePairs(skills))
  {
    dependents := map[];
    var i := 0;
    while i < |skills|
      invariant 0 <= i <= |skills|
      invariant DependentsOf(dependents, ReversePairs(skills)[..i])
    {
      var s := skills[i];
      var reqs := if s.prereqs.Some? then s.prereqs.value else map[];
      ghost var ps := ReversePairs(skills)[..i];
      dependents := RecordPrereqs(dependents, ps, s.id, reqs);
      assert RefsOutside(reqs, {}) == RefIds(s);
      PairsPrefix(skills, ReversePair, i);
      i := i + 1;
    }
    assert ReversePairs(skills)[..|skills|] == ReversePairs(skills);
  }

  /**
   * `sid` is listed under `r` exactly when a skill with id `sid` has a prerequisite naming
   * `r` by id; an id no prerequisite names has no key.
   */
  lemma ReverseMapMeaning(skills: seq<Entry>, deps: Deps, r: string, sid: string)
    requires DependentsOf(deps, ReversePairs(skills))
    ensures r in deps && sid in deps[r] <==> exists i :: 0 <= i < |skills| && skills[i].id == sid && r in RefIds(skills[i])
    ensures r !in deps <==> forall i :: 0 <= i < |skills| ==> r !in RefIds(skills[i])
  {
    PairsMeaning(skills, ReversePair, deps, r, sid);
  }
}
