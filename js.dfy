/** The slice of JavaScript semantics the handlers depend on: request-body
    fields that may be `undefined` or `null`, truthiness of the values the
    handlers test, and the String and Array methods they call. */
module Js {

  datatype Option<+T> = None | Some(value: T)

  /** One destructured request-body field: missing (`undefined`), an explicit
      JSON `null`, or a value of the JSON type the schema expects. */
  datatype Field<+T> = Undefined | Null | Present(value: T)

  /** `if (x)` on a string field: only a non-empty string is truthy. */
  predicate StringTruthy(f: Field<string>) {
    f.Present? && f.value != ""
  }

  /** `if (x)` on a number field: only a non-zero number is truthy. */
  predicate NumberTruthy(f: Field<real>) {
    f.Present? && f.value != 0.0
  }

  /** `if (x)` on an array field: every array, even `[]`, is truthy. */
  predicate ArrayTruthy<T>(f: Field<seq<T>>) {
    f.Present?
  }

  /** `if (x) copy.x = x` on a field whose falsy values are `falsy`: `o` holds
      the field's value exactly when it is present and not one of them. */
  predicate CopiedUnlessFalsy<T(==)>(o: Option<T>, f: Field<T>, falsy: set<T>) {
    o == (if f.Present? && f.value !in falsy then Some(f.value) else None)
  }

  /** express-validator's string view of a present field: `null` reads as "". */
  function StringOf(f: Field<string>): string {
    match f
    case Present(s) => s
    case _ => ""
  }

  /** The characters `String.prototype.trim` removes: WhiteSpace (TAB, VT, FF,
      ZWNBSP and the Space_Separator category) and LineTerminator. */
  predicate IsWhitespace(c: char) {
    || c == '\t' || c == '\n' || c == '\U{000B}' || c == '\U{000C}' || c == '\r'
    || c == ' ' || c == '\U{00A0}' || c == '\U{1680}'
    || ('\U{2000}' <= c <= '\U{200A}')
    || c == '\U{2028}' || c == '\U{2029}' || c == '\U{202F}' || c == '\U{205F}'
    || c == '\U{3000}' || c == '\U{FEFF}'
  }

  predicate AllWhitespace(s: string) {
    forall i :: 0 <= i < |s| ==> IsWhitespace(s[i])
  }

  /** Drops leading whitespace. */
  function TrimStart(s: string): string {
    if s != [] && IsWhitespace(s[0]) then TrimStart(s[1..]) else s
  }

  /** Drops trailing whitespace. */
  function TrimEnd(s: string): string {
    if s != [] && IsWhitespace(s[|s| - 1]) then TrimEnd(s[..|s| - 1]) else s
  }

  /** `String.prototype.trim`: never longer than its input, and neither end
      of the result is whitespace. */
  function Trim(s: string): (r: string)
    ensures |r| <= |s|
    ensures r != [] ==> !IsWhitespace(r[0]) && !IsWhitespace(r[|r| - 1])
  {
    TrimStartFacts(s);
    TrimEndFacts(TrimStart(s));
    var t := TrimStart(s);
    var r := TrimEnd(t);
    assert r != [] ==> r[0] == t[0];
    r
  }

  /** TrimStart leaves a suffix of `s` that does not start with whitespace,
      and everything it drops is whitespace. */
  lemma {:induction false} TrimStartFacts(s: string)
    ensures var r := TrimStart(s);
      && |r| <= |s| && r == s[|s| - |r|..]
      && (r != [] ==> !IsWhitespace(r[0]))
      && AllWhitespace(s[..|s| - |r|])
  {
    if s != [] && IsWhitespace(s[0]) {
      TrimStartFacts(s[1..]);
      var r := TrimStart(s[1..]);
      assert s[..|s| - |r|] == [s[0]] + s[1..][..|s| - 1 - |r|];
    }
  }

  /** TrimEnd leaves a prefix of `s` that does not end with whitespace, and
      everything it drops is whitespace. */
  lemma {:induction false} TrimEndFacts(s: string)
    ensures var r := TrimEnd(s);
      && |r| <= |s| && r == s[..|r|]
      && (r != [] ==> !IsWhitespace(r[|r| - 1]))
      && AllWhitespace(s[|r|..])
  {
    if s != [] && IsWhitespace(s[|s| - 1]) {
      TrimEndFacts(s[..|s| - 1]);
      var r := TrimEnd(s[..|s| - 1]);
      assert s[|r|..] == s[..|s| - 1][|r|..] + [s[|s| - 1]];
    }
  }

  /** Trim leaves a slice of its input with whitespace at neither end, and
      removes nothing but whitespace. */
  lemma TrimIsWhitespaceFreeSlice(s: string)
    ensures var r := Trim(s);
      exists i :: OccursAt(s, r, i) && AllWhitespace(s[..i]) && AllWhitespace(s[i + |r|..])
    ensures Trim(s) != [] ==> !IsWhitespace(Trim(s)[0]) && !IsWhitespace(Trim(s)[|Trim(s)| - 1])
  {
    var t := TrimStart(s);
    TrimStartFacts(s);
    var r := TrimEnd(t);
    TrimEndFacts(t);
    assert r == Trim(s);
    var i := |s| - |t|;
    assert t == s[i..];
    assert r == t[..|r|];
    assert s[i..i + |r|] == t[..|r|];
    assert OccursAt(s, r, i);
    assert AllWhitespace(s[..i]);
    assert s[i + |r|..] == t[|r|..];
    assert AllWhitespace(s[i + |r|..]);
    if r != [] {
      assert r[0] == t[0];
    }
  }

  /** Trimming twice is trimming once: a stored (trimmed) title is its own cast. */
  lemma TrimIdempotent(s: string)
    ensures Trim(Trim(s)) == Trim(s)
  {
    var r := Trim(s);
    TrimIsWhitespaceFreeSlice(s);
    if r != [] {
      assert TrimStart(r) == r;
      assert TrimEnd(r) == r;
    }
  }

  /** ASCII upper-casing of one character. */
  function UpperChar(c: char): char {
    if 'a' <= c <= 'z' then (c as int - 32) as char else c
  }

  /** ASCII lower-casing of one character. */
  function LowerChar(c: char): char {
    if 'A' <= c <= 'Z' then (c as int + 32) as char else c
  }

  function Lower(s: string): (r: string)
    ensures |r| == |s|
  {
    seq(|s|, i requires 0 <= i < |s| => LowerChar(s[i]))
  }

  /** `s.charAt(0).toUpperCase() + s.slice(1)`. */
  function Capitalize(s: string): (r: string)
    ensures |r| == |s|
    ensures s != [] ==> r[0] == UpperChar(s[0]) && r[1..] == s[1..]
    ensures s != [] && 'a' <= s[0] <= 'z' ==> 'A' <= r[0] <= 'Z' && LowerChar(r[0]) == s[0]
  {
    if s == [] then "" else [UpperChar(s[0])] + s[1..]
  }

  /** `Array.prototype.join(sep)`: "" for no elements, otherwise a string
      that starts with the first element. */
  function Join(xs: seq<string>, sep: string): (r: string)
    ensures xs == [] ==> r == ""
    ensures xs != [] ==> IsPrefix(xs[0], r)
  {
    if |xs| == 0 then "" else if |xs| == 1 then xs[0] else xs[0] + sep + Join(xs[1..], sep)
  }

  predicate IsPrefix(p: string, s: string) {
    |p| <= |s| && s[..|p|] == p
  }

  /** `sub` occurs in `s` starting at index `i`. */
  predicate OccursAt(s: string, sub: string, i: int) {
    0 <= i <= |s| - |sub| && s[i..i + |sub|] == sub
  }

  /** `s` contains `sub` as a contiguous substring. */
  predicate Contains(s: string, sub: string)
    decreases |s|
  {
    IsPrefix(sub, s) || (s != [] && Contains(s[1..], sub))
  }

  /** Contains agrees with the slice definition of a substring, in both directions. */
  lemma {:induction false} ContainsIffSlice(s: string, sub: string)
    ensures Contains(s, sub) <==> exists i :: OccursAt(s, sub, i)
  {
    if IsPrefix(sub, s) {
      assert OccursAt(s, sub, 0);
    } else if s == [] {
    } else {
      ContainsIffSlice(s[1..], sub);
      if exists i :: OccursAt(s, sub, i) {
        var i :| OccursAt(s, sub, i);
        assert i != 0;
        assert OccursAt(s[1..], sub, i - 1);
      }
      if Contains(s[1..], sub) {
        var j :| OccursAt(s[1..], sub, j);
        assert s[j + 1..j + 1 + |sub|] == s[1..][j..j + |sub|];
        assert OccursAt(s, sub, j + 1);
      }
    }
  }

  lemma {:induction false} ContainsInLeft(a: string, b: string, sub: string)
    requires Contains(a, sub)
    ensures Contains(a + b, sub)
  {
    if IsPrefix(sub, a) {
      assert (a + b)[..|sub|] == a[..|sub|];
    } else {
      assert (a + b)[1..] == a[1..] + b;
      ContainsInLeft(a[1..], b, sub);
    }
  }

  lemma {:induction false} ContainsInRight(a: string, b: string, sub: string)
    requires Contains(b, sub)
    ensures Contains(a + b, sub)
  {
    if a != [] {
      assert (a + b)[1..] == a[1..] + b;
      ContainsInRight(a[1..], b, sub);
    } else {
      assert a + b == b;
    }
  }

  lemma ContainsSelf(s: string)
    ensures Contains(s, s)
  {
    assert IsPrefix(s, s);
  }

  /** Joining loses no element: every joined string occurs in the result. */
  lemma {:induction false} JoinContainsEvery(xs: seq<string>, sep: string, k: nat)
    requires k < |xs|
    ensures Contains(Join(xs, sep), xs[k])
  {
    if |xs| == 1 {
      ContainsSelf(xs[0]);
    } else if k == 0 {
      ContainsSelf(xs[0]);
      ContainsInLeft(xs[0], sep + Join(xs[1..], sep), xs[0]);
      assert xs[0] + sep + Join(xs[1..], sep) == xs[0] + (sep + Join(xs[1..], sep));
    } else {
      JoinContainsEvery(xs[1..], sep, k - 1);
      ContainsInRight(xs[0] + sep, Join(xs[1..], sep), xs[k]);
    }
  }

  /** The variation selectors U+FE0E and U+FE0F, which pick text or emoji
      presentation for the character before them. */
  predicate IsPresentationSelector(c: char) {
    c == '\U{FE0E}' || c == '\U{FE0F}'
  }

  /** The length validator.js's `isLength` compares with its bounds: the code
      points of `s`, not counting presentation selectors. */
  function IsLengthCount(s: string): (n: nat)
    ensures n <= |s|
  {
    if s == [] then 0
    else (if IsPresentationSelector(s[0]) then 0 else 1) + IsLengthCount(s[1..])
  }

  /** Without presentation selectors, `isLength` counts every code point. */
  lemma {:induction false} IsLengthCountWithoutSelectors(s: string)
    requires forall i :: 0 <= i < |s| ==> !IsPresentationSelector(s[i])
    ensures IsLengthCount(s) == |s|
  {
    if s != [] {
      assert forall i :: 0 <= i < |s[1..]| ==> s[1..][i] == s[i + 1];
      IsLengthCountWithoutSelectors(s[1..]);
    }
  }

  /** `isLength` counts the two parts of a concatenation separately. */
  lemma {:induction false} IsLengthCountAppend(s: string, t: string)
    ensures IsLengthCount(s + t) == IsLengthCount(s) + IsLengthCount(t)
  {
    if s == [] {
      assert s + t == t;
    } else {
      assert (s + t)[1..] == s[1..] + t;
      IsLengthCountAppend(s[1..], t);
    }
  }

  /** The case-insensitive literal match of the title filter (ASCII case folding). */
  predicate ContainsIgnoringCase(s: string, sub: string): (b: bool)
    ensures b ==> |sub| <= |s|
  {
    ContainsIffSlice(Lower(s), Lower(sub));
    Contains(Lower(s), Lower(sub))
  }

  /** `sub` sits at index `i` of `s` when letters are compared without case. */
  predicate OccursAtIgnoringCase(s: string, sub: string, i: int) {
    0 <= i <= |s| - |sub| && forall k :: 0 <= k < |sub| ==> LowerChar(s[i + k]) == LowerChar(sub[k])
  }

  lemma OccursAtLower(s: string, sub: string, i: int)
    ensures OccursAt(Lower(s), Lower(sub), i) <==> OccursAtIgnoringCase(s, sub, i)
  {
    if 0 <= i <= |s| - |sub| {
      var w := Lower(s)[i..i + |sub|];
      assert forall k :: 0 <= k < |sub| ==> w[k] == LowerChar(s[i + k]);
      if OccursAtIgnoringCase(s, sub, i) {
        assert w == Lower(sub);
      }
      if w == Lower(sub) {
        assert forall k :: 0 <= k < |sub| ==> LowerChar(s[i + k]) == w[k] == LowerChar(sub[k]);
      }
    }
  }

  /** The title filter holds exactly when the search text occurs somewhere in
      the title, letter by letter up to case. */
  lemma ContainsIgnoringCaseIff(s: string, sub: string)
    ensures ContainsIgnoringCase(s, sub) <==> exists i :: OccursAtIgnoringCase(s, sub, i)
  {
    ContainsIffSlice(Lower(s), Lower(sub));
    if ContainsIgnoringCase(s, sub) {
      var i :| OccursAt(Lower(s), Lower(sub), i);
      OccursAtLower(s, sub, i);
    }
    if exists i :: OccursAtIgnoringCase(s, sub, i) {
      var i :| OccursAtIgnoringCase(s, sub, i);
      OccursAtLower(s, sub, i);
    }
  }
}
