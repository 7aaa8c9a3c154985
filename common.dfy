// Shared vocabulary of the freeq model: optional values and results,
// ASCII case folding, UTF-8 byte encoding, decimal rendering and a few
// string helpers that several source files use in the same way.

module Common {

  datatype Option<T> = None | Some(value: T)
  {
    predicate IsSome() { this.Some? }
    function UnwrapOr(default: T): T
    {
      match this
      case Some(v) => v
      case None => default
    }
  }

  datatype Result<T, E> = Ok(value: T) | Err(error: E)

  /** A byte, Rust's `u8`. */
  type byte = b: int | 0 <= b < 256

  function Min(a: nat, b: nat): nat { if a < b then a else b }

  // ---------------------------------------------------------------------
  // ASCII case folding (the model of Rust's `to_lowercase`/`to_ascii_lowercase`).

  function Lower(c: char): char
  {
    if 'A' <= c <= 'Z' then (c as int + 32) as char else c
  }

  function Upper(c: char): char
  {
    if 'a' <= c <= 'z' then (c as int - 32) as char else c
  }

  function LowerStr(s: string): (r: string)
    ensures |r| == |s|
    ensures forall i :: 0 <= i < |s| ==> r[i] == Lower(s[i])
  {
    if s == [] then [] else [Lower(s[0])] + LowerStr(s[1..])
  }

  function UpperStr(s: string): (r: string)
    ensures |r| == |s|
    ensures forall i :: 0 <= i < |s| ==> r[i] == Upper(s[i])
  {
    if s == [] then [] else [Upper(s[0])] + UpperStr(s[1..])
  }

  predicate IsLowerStr(s: string)
  {
    forall i :: 0 <= i < |s| ==> !('A' <= s[i] <= 'Z')
  }

  lemma LowerStrIsLower(s: string)
    ensures IsLowerStr(LowerStr(s))
  {
  }

  lemma LowerStrIdempotent(s: string)
    ensures LowerStr(LowerStr(s)) == LowerStr(s)
  {
    assert forall i :: 0 <= i < |s| ==> Lower(Lower(s[i])) == Lower(s[i]);
  }

  lemma LowerStrOfLower(s: string)
    requires IsLowerStr(s)
    ensures LowerStr(s) == s
  {
  }

  lemma LowerStrAppend(a: string, b: string)
    ensures LowerStr(a + b) == LowerStr(a) + LowerStr(b)
  {
  }

  // ---------------------------------------------------------------------
  // Lexicographic order on strings by code point, the order of Rust's `str`
  // comparison operators (UTF-8 byte order agrees with code point order).

  predicate LexLess(a: string, b: string)
  {
    if a == [] then b != []
    else if b == [] then false
    else if a[0] != b[0] then a[0] < b[0]
    else LexLess(a[1..], b[1..])
  }

  predicate LexLessEq(a: string, b: string)
  {
    a == b || LexLess(a, b)
  }

  lemma {:induction false} LexLessIrreflexive(a: string)
    ensures !LexLess(a, a)
  {
    if a != [] { LexLessIrreflexive(a[1..]); }
  }

  lemma {:induction false} LexLessTotal(a: string, b: string)
    ensures a == b || LexLess(a, b) || LexLess(b, a)
  {
    if a != [] && b != [] && a[0] == b[0] {
      LexLessTotal(a[1..], b[1..]);
      if a[1..] == b[1..] { assert a == [a[0]] + a[1..] && b == [b[0]] + b[1..]; }
    }
  }

  lemma {:induction false} LexLessAsymmetric(a: string, b: string)
    ensures !(LexLess(a, b) && LexLess(b, a))
  {
    if a != [] && b != [] && a[0] == b[0] { LexLessAsymmetric(a[1..], b[1..]); }
  }

  lemma {:induction false} LexLessTransitive(a: string, b: string, c: string)
    requires LexLess(a, b) && LexLess(b, c)
    ensures LexLess(a, c)
  {
    if a != [] && b != [] && c != [] && a[0] == b[0] && b[0] == c[0] {
      LexLessTransitive(a[1..], b[1..], c[1..]);
    }
  }

  lemma LexLessEqAntisymmetric(a: string, b: string)
    requires LexLessEq(a, b) && LexLessEq(b, a)
    ensures a == b
  {
    LexLessAsymmetric(a, b);
  }

  predicate IsMaxOf(x: string, s: set<string>)
  {
    x in s && forall y | y in s :: LexLessEq(y, x)
  }

  predicate IsMinOf(x: string, s: set<string>)
  {
    x in s && forall y | y in s :: LexLessEq(x, y)
  }

  /** Adding one element to a set whose greatest element is known. */
  lemma MaxStep(s: set<string>, x: string, m: string)
    requires x in s && IsMaxOf(m, s - {x})
    ensures IsMaxOf(if LexLess(m, x) then x else m, s)
  {
    LexLessTotal(m, x);
    if LexLess(m, x) {
      forall y | y in s ensures LexLessEq(y, x) {
        if y != x {
          assert y in s - {x};
          if y != m { LexLessTransitive(y, m, x); }
        }
      }
    }
  }

  lemma MinStep(s: set<string>, x: string, m: string)
    requires x in s && IsMinOf(m, s - {x})
    ensures IsMinOf(if LexLess(x, m) then x else m, s)
  {
    LexLessTotal(m, x);
    if LexLess(x, m) {
      forall y | y in s ensures LexLessEq(x, y) {
        if y != x {
          assert y in s - {x};
          if y != m { LexLessTransitive(x, m, y); }
        }
      }
    }
  }

  /** Every non-empty finite set of strings has a greatest element. */
  lemma {:induction false} MaxStringExists(s: set<string>)
    requires s != {}
    ensures exists x :: IsMaxOf(x, s)
    decreases |s|
  {
    var x :| x in s;
    if s == {x} {
      assert IsMaxOf(x, s);
    } else {
      MaxStringExists(s - {x});
      var m :| IsMaxOf(m, s - {x});
      MaxStep(s, x, m);
    }
  }

  /** Every non-empty finite set of strings has a least element. */
  lemma {:induction false} MinStringExists(s: set<string>)
    requires s != {}
    ensures exists x :: IsMinOf(x, s)
    decreases |s|
  {
    var x :| x in s;
    if s == {x} {
      assert IsMinOf(x, s);
    } else {
      MinStringExists(s - {x});
      var m :| IsMinOf(m, s - {x});
      MinStep(s, x, m);
    }
  }

  /** The greatest key of a `BTreeMap` (what `iter().rev()` visits first). */
  function MaxString(s: set<string>): (r: string)
    requires s != {}
    ensures r in s && forall y | y in s :: LexLessEq(y, r)
  {
    MaxStringExists(s);
    forall a, b | LexLessEq(a, b) && LexLessEq(b, a) ensures a == b {
      LexLessEqAntisymmetric(a, b);
    }
    var x :| IsMaxOf(x, s);
    x
  }

  /** The least key of a `BTreeMap` (what `iter()` visits first). */
  function MinString(s: set<string>): (r: string)
    requires s != {}
    ensures r in s && forall y | y in s :: LexLessEq(r, y)
  {
    MinStringExists(s);
    forall a, b | LexLessEq(a, b) && LexLessEq(b, a) ensures a == b {
      LexLessEqAntisymmetric(a, b);
    }
    var x :| IsMinOf(x, s);
    x
  }

  // ---------------------------------------------------------------------
  // UTF-8 (Rust's `str::as_bytes`).

  function Utf8Char(c: char): (r: seq<byte>)
    ensures 1 <= |r| <= 4
    ensures (c as int < 0x80) == (|r| == 1)
    ensures c as int < 0x80 ==> r == [c as int]
    ensures c as int >= 0x80 ==> forall i :: 0 <= i < |r| ==> r[i] >= 0x80
  {
    var n := c as int;
    var q1 := n / 64;
    var q2 := q1 / 64;
    var q3 := q2 / 64;
    if n < 0x80 then [n]
    else if n < 0x800 then [0xC0 + q1, 0x80 + n % 64]
    else if n < 0x10000 then [0xE0 + q2, 0x80 + q1 % 64, 0x80 + n % 64]
    else [0xF0 + q3, 0x80 + q2 % 64, 0x80 + q1 % 64, 0x80 + n % 64]
  }

  /** The number of bytes a UTF-8 sequence has, read off its lead byte. */
  function Utf8LenFromLead(b: byte): nat
  {
    if b < 0x80 then 1 else if b < 0xE0 then 2 else if b < 0xF0 then 3 else 4
  }

  lemma Utf8CharLead(c: char)
    ensures Utf8LenFromLead(Utf8Char(c)[0]) == |Utf8Char(c)|
  {
  }

  /** The code point a one-character UTF-8 sequence stands for. */
  function Utf8CharValue(r: seq<int>): int
  {
    if |r| == 1 then r[0]
    else if |r| == 2 then (r[0] - 0xC0) * 64 + (r[1] - 0x80)
    else if |r| == 3 then ((r[0] - 0xE0) * 64 + (r[1] - 0x80)) * 64 + (r[2] - 0x80)
    else if |r| == 4 then (((r[0] - 0xF0) * 64 + (r[1] - 0x80)) * 64 + (r[2] - 0x80)) * 64 + (r[3] - 0x80)
    else 0
  }

  lemma Utf8CharValueOf(c: char)
    ensures Utf8CharValue(Utf8Char(c)) == c as int
  {
    var n := c as int;
    var q1 := n / 64;
    var q2 := q1 / 64;
    var q3 := q2 / 64;
    assert n == q1 * 64 + n % 64;
    assert q1 == q2 * 64 + q1 % 64;
    assert q2 == q3 * 64 + q2 % 64;
  }

  lemma Utf8CharInjective(c: char, d: char)
    requires Utf8Char(c) == Utf8Char(d)
    ensures c == d
  {
    Utf8CharValueOf(c);
    Utf8CharValueOf(d);
  }

  function Utf8(s: string): (r: seq<byte>)
    ensures |r| >= |s|
  {
    if s == [] then [] else Utf8Char(s[0]) + Utf8(s[1..])
  }

  lemma Utf8Append(a: string, b: string)
    ensures Utf8(a + b) == Utf8(a) + Utf8(b)
  {
    if a != [] {
      assert (a + b)[0] == a[0] && (a + b)[1..] == a[1..] + b;
      Utf8Append(a[1..], b);
      assert Utf8(a + b) == Utf8Char(a[0]) + Utf8(a[1..] + b);
    } else {
      assert a + b == b;
    }
  }

  lemma {:induction false} Utf8Injective(a: string, b: string)
    requires Utf8(a) == Utf8(b)
    ensures a == b
  {
    if a != [] && b != [] {
      var ea, eb := Utf8Char(a[0]), Utf8Char(b[0]);
      assert Utf8(a)[0] == ea[0] && Utf8(b)[0] == eb[0];
      Utf8CharLead(a[0]);
      Utf8CharLead(b[0]);
      assert |ea| == |eb|;
      assert Utf8(a)[..|ea|] == ea && Utf8(b)[..|eb|] == eb;
      Utf8CharInjective(a[0], b[0]);
      assert Utf8(a)[|ea|..] == Utf8(a[1..]);
      assert Utf8(b)[|eb|..] == Utf8(b[1..]);
      Utf8Injective(a[1..], b[1..]);
      assert a == [a[0]] + a[1..] && b == [b[0]] + b[1..];
    }
  }

  /** ASCII characters are the only ones whose UTF-8 contains a byte below 0x80. */
  lemma {:induction false} Utf8AsciiByte(s: string, k: nat, v: byte)
    requires k < |Utf8(s)| && Utf8(s)[k] == v && v < 0x80
    ensures (v as char) in s
  {
    if s != [] {
      var e := Utf8Char(s[0]);
      if k < |e| {
        assert e[k] == v;
        assert s[0] == v as char;
      } else {
        assert Utf8(s)[k] == Utf8(s[1..])[k - |e|];
        Utf8AsciiByte(s[1..], k - |e|, v);
      }
    }
  }

  // ---------------------------------------------------------------------
  // Decimal rendering and parsing of unsigned integers.

  const U64_MAX: int := 0x1_0000_0000_0000_0000 - 1

  predicate IsDigit(c: char) { '0' <= c <= '9' }

  function DigitChar(d: nat): char
    requires d < 10
  {
    ((d + '0' as int) as char)
  }

  function DecimalString(n: nat): (r: string)
    ensures |r| >= 1
    ensures forall i :: 0 <= i < |r| ==> IsDigit(r[i])
    decreases n
  {
    if n < 10 then [DigitChar(n)] else DecimalString(n / 10) + [DigitChar(n % 10)]
  }

  /** The value of a nonempty run of decimal digits. */
  function DigitsValue(s: string): nat
    requires forall i :: 0 <= i < |s| ==> IsDigit(s[i])
  {
    if s == [] then 0
    else
      assert IsDigit(s[|s| - 1]);
      DigitsValue(s[..|s| - 1]) * 10 + (s[|s| - 1] as int - '0' as int)
  }

  lemma {:induction false} DecimalStringValue(n: nat)
    ensures DigitsValue(DecimalString(n)) == n
  {
    if n >= 10 {
      var r := DecimalString(n);
      assert r[..|r| - 1] == DecimalString(n / 10);
      DecimalStringValue(n / 10);
    }
  }

  lemma {:induction false} DecimalStringInjective(m: nat, n: nat)
    requires DecimalString(m) == DecimalString(n)
    ensures m == n
  {
    DecimalStringValue(m);
    DecimalStringValue(n);
  }

  /** Rust's `str::parse::<u64>`: an optional `+`, then one or more digits, value at most 2^64-1. */
  function ParseU64(s: string): (r: Option<nat>)
    ensures r.Some? ==> r.value <= U64_MAX
  {
    var digits := if |s| > 0 && s[0] == '+' then s[1..] else s;
    if digits == [] || exists i :: 0 <= i < |digits| && !IsDigit(digits[i]) then None
    else if DigitsValue(digits) > U64_MAX then None
    else Some(DigitsValue(digits))
  }

  lemma ParseU64Decimal(n: nat)
    requires n <= U64_MAX
    ensures ParseU64(DecimalString(n)) == Some(n)
  {
    DecimalStringValue(n);
  }

  // ---------------------------------------------------------------------
  // Searching, splitting and trimming.

  predicate StartsWith(s: string, p: string) { p <= s }

  predicate EndsWith(s: string, p: string)
  {
    |p| <= |s| && s[|s| - |p|..] == p
  }

  predicate ContainsAt(s: string, sub: string, i: nat)
  {
    i + |sub| <= |s| && s[i..i + |sub|] == sub
  }

  predicate Contains(s: string, sub: string)
  {
    exists i: nat | i <= |s| :: ContainsAt(s, sub, i)
  }

  /** An occurrence survives putting text before or after it. */
  lemma ContainsWithin(pre: string, s: string, post: string, sub: string)
    requires Contains(s, sub)
    ensures Contains(pre + s + post, sub)
  {
    var i: nat :| i <= |s| && ContainsAt(s, sub, i);
    var t := pre + s + post;
    assert t[|pre| + i..|pre| + i + |sub|] == s[i..i + |sub|];
    assert ContainsAt(t, sub, |pre| + i);
  }

  lemma ContainsSelf(s: string)
    ensures Contains(s, s)
  {
    assert s[0..|s|] == s;
    assert ContainsAt(s, s, 0);
  }

  lemma AppendAssoc(a: string, b: string, c: string)
    ensures a + b + c == a + (b + c)
  {
  }

  /** `p + u` starts with `p` and ends with the end of `u`. */
  lemma AppendEnds(p: string, u: string, e: string)
    requires EndsWith(u, e)
    ensures StartsWith(p + u, p) && EndsWith(p + u, e)
  {
    var t := p + u;
    assert t[..|p|] == p;
    assert t[|t| - |e|..] == u[|u| - |e|..];
  }

  /** A string that starts with `p` is `p` followed by the rest. */
  lemma PrefixThenRest(s: string, p: string)
    requires StartsWith(s, p)
    ensures s == p + s[|p|..]
  {
    assert s == s[..|p|] + s[|p|..];
  }

  /** A string occurs in itself with text put before it. */
  lemma ContainsSuffix(pre: string, s: string)
    ensures Contains(pre + s, s)
  {
    var t := pre + s;
    assert t[|pre|..|pre| + |s|] == s;
    assert ContainsAt(t, s, |pre|);
  }

  /** Index of the first occurrence of `sub` in `s` (Rust's `str::find`). */
  function FindFrom(s: string, sub: string, from: nat): (r: Option<nat>)
    requires from <= |s|
    ensures r.Some? ==> from <= r.value && ContainsAt(s, sub, r.value)
    ensures r.Some? ==> forall j: nat :: from <= j < r.value ==> !ContainsAt(s, sub, j)
    ensures r.None? ==> forall j: nat :: from <= j ==> !ContainsAt(s, sub, j)
    decreases |s| - from
  {
    if ContainsAt(s, sub, from) then Some(from)
    else if from + |sub| >= |s| then None
    else FindFrom(s, sub, from + 1)
  }

  function Find(s: string, sub: string): (r: Option<nat>)
    ensures r.Some? ==> ContainsAt(s, sub, r.value)
    ensures r.Some? ==> forall j: nat :: j < r.value ==> !ContainsAt(s, sub, j)
    ensures r.None? <==> !Contains(s, sub)
  {
    FindFrom(s, sub, 0)
  }

  /** Index of the first occurrence of a character. */
  function FindChar(s: string, c: char): (r: Option<nat>)
    ensures r.Some? ==> r.value < |s| && s[r.value] == c && c !in s[..r.value]
    ensures r.None? <==> c !in s
  {
    if s == [] then None
    else if s[0] == c then Some(0)
    else match FindChar(s[1..], c)
      case None => None
      case Some(i) => assert s[..i + 1] == [s[0]] + s[1..][..i]; Some(i + 1)
  }

  /** The first occurrence of a character that the prefix before it does not contain. */
  lemma {:induction false} FindCharAfter(a: string, c: char, b: string)
    requires c !in a
    ensures FindChar(a + [c] + b, c) == Some(|a|)
  {
    if a != [] {
      assert (a + [c] + b)[1..] == a[1..] + [c] + b;
      FindCharAfter(a[1..], c, b);
    }
  }

  /** Index of the last occurrence of a character (for `rsplit_once`). */
  function RFindChar(s: string, c: char): (r: Option<nat>)
    ensures r.Some? ==> r.value < |s| && s[r.value] == c && c !in s[r.value + 1..]
    ensures r.None? <==> c !in s
  {
    if s == [] then None
    else if s[|s| - 1] == c then Some(|s| - 1)
    else
      var r := RFindChar(s[..|s| - 1], c);
      assert s == s[..|s| - 1] + [s[|s| - 1]];
      r
  }

  /** An occurrence with no later occurrence is the one `RFindChar` finds. */
  lemma {:induction false} RFindCharAt(s: string, c: char, i: nat)
    requires i < |s| && s[i] == c && c !in s[i + 1..]
    ensures RFindChar(s, c) == Some(i)
    decreases |s|
  {
    if i < |s| - 1 {
      assert s[|s| - 1] in s[i + 1..];
      var init := s[..|s| - 1];
      assert init[i + 1..] <= s[i + 1..];
      RFindCharAt(init, c, i);
    }
  }

  /** Rust's `char::is_whitespace` (the Unicode White_Space property). */
  predicate IsWhitespace(c: char)
  {
    var n := c as int;
    (0x09 <= n <= 0x0D) || n == 0x20 || n == 0x85 || n == 0xA0 || n == 0x1680
    || (0x2000 <= n <= 0x200A) || n == 0x2028 || n == 0x2029 || n == 0x202F
    || n == 0x205F || n == 0x3000
  }

  function TrimStart(s: string): (r: string)
    ensures r == [] || !IsWhitespace(r[0])
    ensures |r| <= |s| && r == s[|s| - |r|..]
    ensures forall i :: 0 <= i < |s| - |r| ==> IsWhitespace(s[i])
  {
    if s == [] || !IsWhitespace(s[0]) then s else TrimStart(s[1..])
  }

  function TrimEnd(s: string): (r: string)
    ensures r <= s
    ensures r == [] || !IsWhitespace(r[|r| - 1])
    ensures forall i :: |r| <= i < |s| ==> IsWhitespace(s[i])
  {
    if s == [] || !IsWhitespace(s[|s| - 1]) then s else TrimEnd(s[..|s| - 1])
  }

  /** Rust's `str::trim`. */
  function Trim(s: string): (r: string)
    ensures r == [] || (!IsWhitespace(r[0]) && !IsWhitespace(r[|r| - 1]))
  {
    TrimEnd(TrimStart(s))
  }

  /** Text with no whitespace at either end is its own trim. */
  lemma TrimUnchanged(s: string)
    requires s == [] || (!IsWhitespace(s[0]) && !IsWhitespace(s[|s| - 1]))
    ensures Trim(s) == s
  {
    assert TrimStart(s) == s;
    assert TrimEnd(s) == s;
  }

  /** The first occurrence of a character after text that lacks it. */
  lemma FindAfter(pre: string, c: char, post: string)
    requires c !in pre
    ensures FindChar(pre + [c] + post, c) == Some(|pre|)
  {
    var s := pre + [c] + post;
    assert s[|pre|] == c && s[..|pre|] == pre;
  }

  /** `Trim` removes only leading and trailing whitespace. */
  lemma TrimIsTrimmed(s: string)
    ensures exists k :: TrimmedAt(s, Trim(s), k)
  {
    TrimmedAtStart(s);
    assert TrimmedAt(s, Trim(s), |s| - |TrimStart(s)|);
  }

  lemma TrimmedAtStart(s: string)
    ensures TrimmedAt(s, TrimEnd(TrimStart(s)), |s| - |TrimStart(s)|)
  {
    var t := TrimStart(s);
    var k := |s| - |t|;
    TrimEndInside(s, t, k);
    TrimmedAtOf(s, TrimEnd(t), k);
  }

  lemma TrimmedAtOf(s: string, r: string, k: int)
    requires 0 <= k <= k + |r| <= |s| && s[k..k + |r|] == r
    requires forall i :: 0 <= i < k ==> IsWhitespace(s[i])
    requires forall i :: k + |r| <= i < |s| ==> IsWhitespace(s[i])
    ensures TrimmedAt(s, r, k)
  {
  }

  lemma TrimEndInside(s: string, t: string, k: int)
    requires 0 <= k <= |s| && t == s[k..]
    ensures var r := TrimEnd(t);
      k + |r| <= |s| && s[k..k + |r|] == r && forall i :: k + |r| <= i < |s| ==> IsWhitespace(s[i])
  {
    var r := TrimEnd(t);
    assert r == t[..|r|];
    forall i | k + |r| <= i < |s| ensures IsWhitespace(s[i]) {
      assert s[i] == t[i - k];
    }
  }

  /** `r` sits at offset `k` of `s` with only whitespace around it. */
  predicate TrimmedAt(s: string, r: string, k: int)
  {
    0 <= k <= k + |r| <= |s| && s[k..k + |r|] == r
    && (forall i :: 0 <= i < k ==> IsWhitespace(s[i]))
    && (forall i :: k + |r| <= i < |s| ==> IsWhitespace(s[i]))
  }

  predicate NoWhitespace(w: string)
  {
    forall i :: 0 <= i < |w| ==> !IsWhitespace(w[i])
  }

  /** Length of the leading run of non-whitespace characters. */
  function WordEnd(s: string): (n: nat)
    ensures n <= |s| && NoWhitespace(s[..n]) && (n == |s| || IsWhitespace(s[n]))
    ensures s != [] && !IsWhitespace(s[0]) ==> n >= 1
  {
    if s == [] || IsWhitespace(s[0]) then 0 else 1 + WordEnd(s[1..])
  }

  /** Rust's `str::split_whitespace`: the maximal runs of non-whitespace characters, in order. */
  function Words(s: string): (r: seq<string>)
    ensures forall i :: 0 <= i < |r| ==> IsWord(r[i])
    decreases |s|
  {
    var t := TrimStart(s);
    if t == [] then []
    else
      var n := WordEnd(t);
      var rest := Words(t[n..]);
      ConsWord(t[..n], rest);
      [t[..n]] + rest
  }

  lemma ConsWord(w: string, rest: seq<string>)
    requires IsWord(w) && forall i :: 0 <= i < |rest| ==> IsWord(rest[i])
    ensures forall i :: 0 <= i < |[w] + rest| ==> IsWord(([w] + rest)[i])
  {
  }

  /** A non-empty run of non-whitespace characters. */
  predicate IsWord(w: string)
  {
    w != [] && NoWhitespace(w)
  }

  /** Rust's `str::split(c)`: every field, empty ones included. */
  function Split(s: string, c: char): (r: seq<string>)
    ensures |r| >= 1
    ensures forall i :: 0 <= i < |r| ==> c !in r[i]
    decreases |s|
  {
    match FindChar(s, c)
    case None => [s]
    case Some(i) => [s[..i]] + Split(s[i + 1..], c)
  }

  /** Joining fields with a separator (Rust's `join`, Python's `str.join`). */
  function Join(parts: seq<string>, sep: string): string
  {
    if parts == [] then []
    else if |parts| == 1 then parts[0]
    else parts[0] + sep + Join(parts[1..], sep)
  }

  lemma {:induction false} SplitJoin(s: string, c: char)
    ensures Join(Split(s, c), [c]) == s
    decreases |s|
  {
    match FindChar(s, c)
    case None =>
    case Some(i) =>
      var rest := Split(s[i + 1..], c);
      assert Split(s, c) == [s[..i]] + rest;
      assert ([s[..i]] + rest)[1..] == rest;
      assert Join(Split(s, c), [c]) == s[..i] + [c] + Join(rest, [c]);
      SplitJoin(s[i + 1..], c);
      assert s == s[..i] + [c] + s[i + 1..];
  }

  /** A sequence with no repeated element. */
  predicate Distinct<T(==)>(s: seq<T>)
  {
    forall i, j :: 0 <= i < j < |s| ==> s[i] != s[j]
  }
  /** A map whose values are pairwise distinct has as many values as keys. */
  lemma {:induction false} InjectiveMapCard<K, V>(m: map<K, V>)
    requires forall a, b :: a in m && b in m && a != b ==> m[a] != m[b]
    ensures |m.Keys| == |m.Values|
    decreases |m|
  {
    if |m| > 0 {
      var k :| k in m;
      var rest := m - {k};
      assert rest.Keys == m.Keys - {k};
      assert rest.Values == m.Values - {m[k]} by {
        forall v | v in m.Values - {m[k]} ensures v in rest.Values {
          var a :| a in m && m[a] == v;
          assert a != k && a in rest;
        }
      }
      InjectiveMapCard(rest);
    }
  }

  // ---------------------------------------------------------------------
  // Byte offsets as character boundaries (Rust's byte-indexed `&s[..n]` and `String::truncate`).

  /** The byte offset `n` of `s` as a character index, if it falls on a character boundary. */
  function BoundaryIndex(s: string, n: nat): (r: Option<nat>)
    ensures r.Some? ==> r.value <= |s| && |Utf8(s[..r.value])| == n
  {
    if n == 0 then
      assert s[..0] == [];
      Some(0)
    else if s == [] then None
    else
      var w := |Utf8Char(s[0])|;
      if w > n then None
      else match BoundaryIndex(s[1..], n - w)
        case None => None
        case Some(k) =>
          Utf8PrefixStep(s, k + 1);
          Some(k + 1)
  }

  lemma Utf8PrefixStep(s: string, k: nat)
    requires 1 <= k <= |s|
    ensures Utf8(s[..k]) == Utf8Char(s[0]) + Utf8(s[1..][..k - 1])
  {
    assert s[..k][0] == s[0] && s[..k][1..] == s[1..][..k - 1];
  }

  /** Every character boundary is found. */
  lemma {:induction false} BoundaryIndexComplete(s: string, n: nat, k: nat)
    requires k <= |s| && |Utf8(s[..k])| == n
    ensures BoundaryIndex(s, n) == Some(k)
    decreases k
  {
    if k == 0 {
      assert s[..0] == [];
    } else {
      Utf8PrefixStep(s, k);
      BoundaryIndexComplete(s[1..], n - |Utf8Char(s[0])|, k - 1);
    }
  }

  lemma {:induction false} Utf8AsciiLength(s: string)
    requires forall i | 0 <= i < |s| :: s[i] as int < 0x80
    ensures |Utf8(s)| == |s|
  {
    if s != [] {
      Utf8AsciiLength(s[1..]);
    }
  }

  /** `n` copies of 'é', two bytes each in UTF-8. */
  function EAcute(n: nat): (r: string)
    ensures |r| == n && forall i | 0 <= i < n :: r[i] == 'é'
  {
    if n == 0 then [] else ['é'] + EAcute(n - 1)
  }

  lemma {:induction false} EAcuteNoOddBoundary(n: nat, m: nat)
    requires m % 2 == 1
    ensures BoundaryIndex(EAcute(n), m) == None
    decreases n
  {
    var s := EAcute(n);
    if s != [] {
      assert s[0] == 'é' && |Utf8Char('é')| == 2;
      if m >= 2 {
        assert s[1..] == EAcute(n - 1);
        EAcuteNoOddBoundary(n - 1, m - 2);
      }
    }
  }

  lemma {:induction false} EAcuteUtf8Length(n: nat)
    ensures |Utf8(EAcute(n))| == 2 * n
    decreases n
  {
    if n > 0 {
      var s := EAcute(n);
      assert s[0] == 'é' && s[1..] == EAcute(n - 1);
      EAcuteUtf8Length(n - 1);
    }
  }

  /** The longest character prefix of `s` that fits in `n` bytes, as a character count. */
  function FloorBoundary(s: string, n: nat): (k: nat)
    ensures k <= |s| && |Utf8(s[..k])| <= n
    ensures k < |s| ==> |Utf8(s[..k + 1])| > n
    ensures |Utf8(s)| <= n <==> k == |s|
  {
    assert s[..0] == [] && s[..|s|] == s;
    if s == [] then 0
    else
      var w := |Utf8Char(s[0])|;
      if w > n then
        Utf8PrefixStep(s, 1);
        0
      else
        var k := FloorBoundary(s[1..], n - w);
        Utf8PrefixStep(s, k + 1);
        if k + 1 < |s| then
          Utf8PrefixStep(s, k + 2);
          k + 1
        else
          k + 1
  }

  /** A prefix that fits is never longer than the longest one. */
  lemma {:induction false} FloorBoundaryAtLeast(s: string, n: nat, j: nat)
    requires j <= |s| && |Utf8(s[..j])| <= n
    ensures FloorBoundary(s, n) >= j
    decreases j
  {
    if j > 0 {
      Utf8PrefixStep(s, j);
      FloorBoundaryAtLeast(s[1..], n - |Utf8Char(s[0])|, j - 1);
    }
  }

  /** A prefix that does not fit is longer than the longest one that does. */
  lemma FloorBoundaryBelow(s: string, n: nat, j: nat)
    requires j <= |s| && |Utf8(s[..j])| > n
    ensures FloorBoundary(s, n) < j
  {
    var k := FloorBoundary(s, n);
    if k >= j {
      assert s[..k] == s[..j] + s[j..k];
      Utf8Append(s[..j], s[j..k]);
    }
  }

  /** A character boundary at exactly `n` bytes is where the longest fitting prefix ends. */
  lemma {:induction false} FloorBoundaryAt(s: string, n: nat, k: nat)
    requires k <= |s| && |Utf8(s[..k])| == n
    ensures FloorBoundary(s, n) == k
    decreases k
  {
    if k == 0 {
      assert s[..0] == [];
      if s != [] {
        assert |Utf8Char(s[0])| > n;
      }
    } else {
      Utf8PrefixStep(s, k);
      FloorBoundaryAt(s[1..], n - |Utf8Char(s[0])|, k - 1);
    }
  }

  // ---------------------------------------------------------------------
  // Rust's `char::is_alphanumeric`, exact on code points below U+0100.

  predicate IsAlphanumeric(c: char)
  {
    var n := c as int;
    ('a' <= c <= 'z') || ('A' <= c <= 'Z') || ('0' <= c <= '9') ||
    n == 0xAA || n == 0xB2 || n == 0xB3 || n == 0xB5 || n == 0xB9 || n == 0xBA ||
    (0xBC <= n <= 0xBE) || (0xC0 <= n <= 0xFF && n != 0xD7 && n != 0xF7)
  }

  // ---------------------------------------------------------------------
  // Python's `str.strip()`.

  /** Python's `str.isspace` for one character: Unicode white space plus the separators U+001C..U+001F. */
  predicate PyIsSpace(c: char)
  {
    IsWhitespace(c) || ('\U{1C}' <= c <= '\U{1F}')
  }

  function PyStripStart(s: string): (r: string)
    ensures |r| <= |s| && r == s[|s| - |r|..]
    ensures r == [] || !PyIsSpace(r[0])
    decreases |s|
  {
    if s != [] && PyIsSpace(s[0]) then PyStripStart(s[1..]) else s
  }

  function PyStripEnd(s: string): (r: string)
    ensures r <= s
    ensures r == [] || !PyIsSpace(r[|r| - 1])
    decreases |s|
  {
    if s != [] && PyIsSpace(s[|s| - 1]) then PyStripEnd(s[..|s| - 1]) else s
  }

  /** `str.strip()` with no argument. */
  function PyStrip(s: string): (r: string)
    ensures r == [] || (!PyIsSpace(r[0]) && !PyIsSpace(r[|r| - 1]))
  {
    PyStripEnd(PyStripStart(s))
  }
}
