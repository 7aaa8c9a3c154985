// freeq-server/src/policy/canonical.rs: canonical JSON (RFC 8785, the JSON
// Canonicalization Scheme) of a JSON value, and its SHA-256 hex digest.
// An object is the sequence of its members in insertion order; every
// member's value is rendered, the members are sorted by key, and the
// rendered members are joined. SHA-256 is a function parameter; floating
// point numbers are not modelled (a number is an integer).
//
// Section 3.2.3 of RFC 8785 sorts property names by their UTF-16 code
// units; freeq sorts Rust `String`s, that is by code point. The two
// orders are `CodePoint` and `Utf16Units` below: `CanonicalizeAsWritten`
// uses the first, `Canonicalize` the second.

module Canonical {
  import opened Common

  datatype Json =
    | JNull
    | JBool(b: bool)
    | JNumber(n: int)
    | JString(s: string)
    | JArray(items: seq<Json>)
    | JObject(members: seq<Member>)

  datatype Member = Member(key: string, value: Json)

  /** A member with its value already rendered. */
  datatype Entry = Entry(key: string, text: string)

  datatype KeyOrder = CodePoint | Utf16Units

  // ---------------------------------------------------------------------
  // UTF-16 code units, written as characters in an order-preserving way:
  // a unit below 0xD800 is itself, a unit from 0xD800 up is moved up by
  // 0x800 (past the surrogate gap of `char`).

  function Unit(u: int): (c: char)
    requires 0 <= u < 0x10000
    ensures u < 0xD800 ==> c as int == u
    ensures u >= 0xD800 ==> c as int == u + 0x800
  {
    if u < 0xD800 then u as char else (u + 0x800) as char
  }

  /** The UTF-16 encoding of one character. */
  function Utf16Char(c: char): (r: string)
    ensures 1 <= |r| <= 2
  {
    var n := c as int;
    if n < 0x10000 then [Unit(n)]
    else
      var m := n - 0x10000;
      [Unit(0xD800 + m / 0x400), Unit(0xDC00 + m % 0x400)]
  }

  function Utf16(s: string): string
  {
    if s == [] then [] else Utf16Char(s[0]) + Utf16(s[1..])
  }

  /** Reading UTF-16 units back into characters. */
  function Utf16Decode(u: string): string
    decreases |u|
  {
    if u == [] then []
    else
      var v := u[0] as int;
      if 0xE000 <= v < 0xE400 && |u| >= 2 && 0xE400 <= u[1] as int < 0xE800 then
        var hi := v - 0x800 - 0xD800;
        var lo := u[1] as int - 0x800 - 0xDC00;
        var n := 0x10000 + hi * 0x400 + lo;
        (if n < 0x110000 then [n as char] else []) + Utf16Decode(u[2..])
      else if v < 0xD800 then [v as char] + Utf16Decode(u[1..])
      else if v >= 0xE800 then [(v - 0x800) as char] + Utf16Decode(u[1..])
      else Utf16Decode(u[1..])
  }

  lemma Utf16CharDecodes(c: char, rest: string)
    ensures Utf16Decode(Utf16Char(c) + rest) == [c] + Utf16Decode(rest)
  {
    var n := c as int;
    var u := Utf16Char(c) + rest;
    if n < 0x10000 {
      assert u[0] == Unit(n) && u[1..] == rest;
    } else {
      var m := n - 0x10000;
      assert m == (m / 0x400) * 0x400 + m % 0x400;
      assert u[0] == Unit(0xD800 + m / 0x400) && u[1] == Unit(0xDC00 + m % 0x400) && u[2..] == rest;
    }
  }

  lemma {:induction false} Utf16RoundTrip(s: string)
    ensures Utf16Decode(Utf16(s)) == s
  {
    if s != [] {
      Utf16CharDecodes(s[0], Utf16(s[1..]));
      Utf16RoundTrip(s[1..]);
    }
  }

  /** The string a key is compared by. */
  function SortKey(o: KeyOrder, k: string): string
  {
    match o
    case CodePoint => k
    case Utf16Units => Utf16(k)
  }

  lemma SortKeyInjective(o: KeyOrder, a: string, b: string)
    requires SortKey(o, a) == SortKey(o, b)
    ensures a == b
  {
    if o == Utf16Units {
      Utf16RoundTrip(a);
      Utf16RoundTrip(b);
    }
  }

  // ---------------------------------------------------------------------
  // Sorting members by key (`pairs.sort_by_key`, a stable sort).

  predicate KeyLessEq(o: KeyOrder, a: string, b: string)
  {
    LexLessEq(SortKey(o, a), SortKey(o, b))
  }

  predicate Sorted(o: KeyOrder, es: seq<Entry>)
  {
    forall i, j | 0 <= i < j < |es| :: KeyLessEq(o, es[i].key, es[j].key)
  }

  lemma KeyLessEqTotal(o: KeyOrder, a: string, b: string)
    ensures KeyLessEq(o, a, b) || KeyLessEq(o, b, a)
  {
    LexLessTotal(SortKey(o, a), SortKey(o, b));
  }

  lemma KeyLessEqTransitive(o: KeyOrder, a: string, b: string, c: string)
    requires KeyLessEq(o, a, b) && KeyLessEq(o, b, c)
    ensures KeyLessEq(o, a, c)
  {
    var x, y, z := SortKey(o, a), SortKey(o, b), SortKey(o, c);
    if x != y && y != z {
      LexLessTransitive(x, y, z);
    }
  }

  function Insert(o: KeyOrder, e: Entry, s: seq<Entry>): (r: seq<Entry>)
    ensures multiset(r) == multiset(s) + multiset{e}
  {
    if s == [] then [e]
    else if KeyLessEq(o, e.key, s[0].key) then [e] + s
    else
      assert s == [s[0]] + s[1..];
      [s[0]] + Insert(o, e, s[1..])
  }

  lemma {:induction false} InsertSorted(o: KeyOrder, e: Entry, s: seq<Entry>)
    requires Sorted(o, s)
    ensures Sorted(o, Insert(o, e, s))
    decreases |s|
  {
    if s != [] && KeyLessEq(o, e.key, s[0].key) {
      var r := [e] + s;
      forall i, j | 0 <= i < j < |r| ensures KeyLessEq(o, r[i].key, r[j].key) {
        if i == 0 && j > 1 {
          KeyLessEqTransitive(o, e.key, s[0].key, s[j - 1].key);
        }
      }
    } else if s != [] {
      KeyLessEqTotal(o, e.key, s[0].key);
      InsertSorted(o, e, s[1..]);
      var t := Insert(o, e, s[1..]);
      var r := [s[0]] + t;
      forall i, j | 0 <= i < j < |r| ensures KeyLessEq(o, r[i].key, r[j].key) {
        if i == 0 {
          assert r[j] in multiset(t);
          assert r[j] in multiset(s[1..]) + multiset{e};
          if r[j] != e {
            assert r[j] in s[1..];
            var k :| 0 <= k < |s[1..]| && s[1..][k] == r[j];
            assert s[k + 1] == r[j];
          }
        }
      }
    }
  }

  /** Insertion sort by key. */
  function SortEntries(o: KeyOrder, es: seq<Entry>): (r: seq<Entry>)
    ensures multiset(r) == multiset(es)
    ensures Sorted(o, r)
  {
    if es == [] then []
    else
      var rest := SortEntries(o, es[1..]);
      InsertSorted(o, es[0], rest);
      assert es == [es[0]] + es[1..];
      Insert(o, es[0], rest)
  }

  /** Within `m`, an entry is determined by its key. */
  predicate KeysIdentify(m: multiset<Entry>)
  {
    forall x, y | x in m && y in m :: x.key == y.key ==> x == y
  }

  lemma SortedTail(o: KeyOrder, a: seq<Entry>)
    requires a != [] && Sorted(o, a)
    ensures Sorted(o, a[1..])
  {
    forall i, j | 0 <= i < j < |a[1..]| ensures KeyLessEq(o, a[1..][i].key, a[1..][j].key) {
      assert a[1..][i] == a[i + 1] && a[1..][j] == a[j + 1];
    }
  }

  /** The first element of a sorted sequence is at most every element. */
  lemma SortedHeadLeast(o: KeyOrder, a: seq<Entry>, x: Entry)
    requires a != [] && Sorted(o, a) && x in multiset(a)
    ensures KeyLessEq(o, a[0].key, x.key)
  {
    var j :| 0 <= j < |a| && a[j] == x;
    if j == 0 {
      assert SortKey(o, a[0].key) == SortKey(o, x.key);
    }
  }

  lemma SortedHeadsEqual(o: KeyOrder, a: seq<Entry>, b: seq<Entry>)
    requires a != [] && b != []
    requires Sorted(o, a) && Sorted(o, b) && multiset(a) == multiset(b) && KeysIdentify(multiset(a))
    ensures a[0] == b[0]
  {
    assert a[0] in multiset(a) && b[0] in multiset(b);
    SortedHeadLeast(o, a, b[0]);
    SortedHeadLeast(o, b, a[0]);
    LexLessEqAntisymmetric(SortKey(o, a[0].key), SortKey(o, b[0].key));
    SortKeyInjective(o, a[0].key, b[0].key);
  }

  /** Two sorted arrangements of the same entries, whose keys identify them, are the same sequence. */
  lemma {:induction false} SortedUnique(o: KeyOrder, a: seq<Entry>, b: seq<Entry>)
    requires Sorted(o, a) && Sorted(o, b) && multiset(a) == multiset(b) && KeysIdentify(multiset(a))
    ensures a == b
    decreases |a|
  {
    if a != [] {
      assert |b| == |multiset(b)| == |multiset(a)| == |a|;
      SortedHeadsEqual(o, a, b);
      assert a == [a[0]] + a[1..] && b == [b[0]] + b[1..];
      assert multiset(a) == multiset{a[0]} + multiset(a[1..]);
      assert multiset(b) == multiset{b[0]} + multiset(b[1..]);
      SortedTail(o, a);
      SortedTail(o, b);
      assert multiset(a[1..]) <= multiset(a);
      SortedUnique(o, a[1..], b[1..]);
    }
  }

  // ---------------------------------------------------------------------
  // Rendering.

  const HEX_DIGITS := "0123456789abcdef"

  /** serde_json's escape of one string character (`\uXXXX` with lower-case hex for other controls). */
  function EscapeChar(c: char): string
  {
    if c == '"' then "\\\""
    else if c == '\\' then "\\\\"
    else if c as int == 0x08 then "\\b"
    else if c as int == 0x0C then "\\f"
    else if c == '\n' then "\\n"
    else if c == '\r' then "\\r"
    else if c == '\t' then "\\t"
    else if c < ' ' then "\\u00" + [HEX_DIGITS[c as int / 16], HEX_DIGITS[c as int % 16]]
    else [c]
  }

  function Escape(s: string): string
  {
    if s == [] then [] else EscapeChar(s[0]) + Escape(s[1..])
  }

  /** `serde_json::to_string` of a string. */
  function Quote(s: string): string
  {
    "\"" + Escape(s) + "\""
  }

  function RenderNumber(n: int): string
  {
    if n < 0 then "-" + DecimalString(-n) else DecimalString(n)
  }

  /** `canonicalize_value`: arrays keep their order, objects are sorted by key under `o`. */
  function Render(o: KeyOrder, v: Json): string
    decreases v, 2
  {
    match v
    case JNull => "null"
    case JBool(b) => if b then "true" else "false"
    case JNumber(n) => RenderNumber(n)
    case JString(s) => Quote(s)
    case JArray(items) => "[" + RenderItems(o, items) + "]"
    case JObject(ms) => "{" + RenderEntries(SortEntries(o, Entries(o, ms))) + "}"
  }

  /** The rendered items joined by ",". */
  function RenderItems(o: KeyOrder, vs: seq<Json>): string
    decreases vs, 1
  {
    if vs == [] then ""
    else if |vs| == 1 then Render(o, vs[0])
    else Render(o, vs[0]) + "," + RenderItems(o, vs[1..])
  }

  /** Every member with its value rendered, in insertion order. */
  function Entries(o: KeyOrder, ms: seq<Member>): (r: seq<Entry>)
    ensures |r| == |ms|
    ensures forall i | 0 <= i < |ms| :: r[i].key == ms[i].key
    decreases ms, 1
  {
    if ms == [] then [] else [Entry(ms[0].key, Render(o, ms[0].value))] + Entries(o, ms[1..])
  }

  function RenderEntry(e: Entry): string
  {
    Quote(e.key) + ":" + e.text
  }

  /** The rendered members joined by ",". */
  function RenderEntries(es: seq<Entry>): string
  {
    if es == [] then ""
    else if |es| == 1 then RenderEntry(es[0])
    else RenderEntry(es[0]) + "," + RenderEntries(es[1..])
  }

  /** `canonicalize` as written: keys in code-point order. */
  function CanonicalizeAsWritten(v: Json): string
  {
    Render(CodePoint, v)
  }

  /** Canonical JSON as RFC 8785 defines it: keys in UTF-16 code-unit order. */
  function Canonicalize(v: Json): string
  {
    Render(Utf16Units, v)
  }

  // ---------------------------------------------------------------------
  // Properties.

  predicate DistinctKeys(ms: seq<Member>)
  {
    forall i, j | 0 <= i < j < |ms| :: ms[i].key != ms[j].key
  }

  lemma {:induction false} EntriesAppend(o: KeyOrder, a: seq<Member>, b: seq<Member>)
    ensures Entries(o, a + b) == Entries(o, a) + Entries(o, b)
    decreases |a|
  {
    if a != [] {
      assert (a + b)[0] == a[0] && (a + b)[1..] == a[1..] + b;
      EntriesAppend(o, a[1..], b);
    } else {
      assert a + b == b;
    }
  }

  lemma RemoveOne<T>(s: seq<T>, k: nat)
    requires k < |s|
    ensures multiset(s) == multiset{s[k]} + multiset(s[..k] + s[k + 1..])
  {
    assert s == s[..k] + [s[k]] + s[k + 1..];
  }

  lemma CancelOne<T>(x: T, p: multiset<T>, q: multiset<T>)
    requires multiset{x} + p == multiset{x} + q
    ensures p == q
  {
    assert p == (multiset{x} + p) - multiset{x};
  }

  lemma PermutationTail<T>(a: seq<T>, b: seq<T>, k: nat)
    requires a != [] && k < |b| && b[k] == a[0] && multiset(a) == multiset(b)
    ensures multiset(a[1..]) == multiset(b[..k] + b[k + 1..])
  {
    RemoveOne(a, 0);
    RemoveOne(b, k);
    assert a[..0] + a[1..] == a[1..];
    CancelOne(a[0], multiset(a[1..]), multiset(b[..k] + b[k + 1..]));
  }

  /** Rendering the members around a removed one. */
  lemma EntriesSplit(o: KeyOrder, b: seq<Member>, k: nat)
    requires k < |b|
    ensures multiset(Entries(o, b)) == multiset(Entries(o, b[..k] + b[k + 1..])) + multiset{Entry(b[k].key, Render(o, b[k].value))}
  {
    var x := b[k];
    assert b == b[..k] + [x] + b[k + 1..];
    EntriesAppend(o, b[..k] + [x], b[k + 1..]);
    EntriesAppend(o, b[..k], [x]);
    EntriesAppend(o, b[..k], b[k + 1..]);
  }

  lemma EntriesHead(o: KeyOrder, a: seq<Member>)
    requires a != []
    ensures multiset(Entries(o, a)) == multiset(Entries(o, a[1..])) + multiset{Entry(a[0].key, Render(o, a[0].value))}
  {
    EntriesSplit(o, a, 0);
    assert a[..0] + a[1..] == a[1..];
  }

  lemma IndexIn<T>(b: seq<T>, x: T) returns (k: nat)
    requires x in multiset(b)
    ensures k < |b| && b[k] == x
  {
    assert x in b;
    k :| 0 <= k < |b| && b[k] == x;
  }

  /** Rendering the members of a permuted object gives a permutation of the entries. */
  lemma {:induction false} EntriesPermutation(o: KeyOrder, a: seq<Member>, b: seq<Member>)
    requires multiset(a) == multiset(b)
    ensures multiset(Entries(o, a)) == multiset(Entries(o, b))
    decreases |a|
  {
    if a == [] {
      assert |b| == |multiset(b)| == 0;
    } else {
      var k := IndexIn(b, a[0]);
      PermutationTail(a, b, k);
      EntriesPermutation(o, a[1..], b[..k] + b[k + 1..]);
      EntriesSplit(o, b, k);
      EntriesHead(o, a);
    }
  }

  lemma EntriesIdentifiedByKey(o: KeyOrder, ms: seq<Member>)
    requires DistinctKeys(ms)
    ensures KeysIdentify(multiset(Entries(o, ms)))
  {
    var es := Entries(o, ms);
    forall x: Entry, y: Entry | x in multiset(es) && y in multiset(es) && x.key == y.key ensures x == y {
      var i :| 0 <= i < |es| && es[i] == x;
      var j :| 0 <= j < |es| && es[j] == y;
      assert ms[i].key == ms[j].key;
    }
  }

  /**
   * Insertion order does not matter: two objects with the same members,
   * keys distinct, render the same under either key order.
   */
  lemma InsertionOrderIrrelevant(o: KeyOrder, a: seq<Member>, b: seq<Member>)
    requires DistinctKeys(a) && multiset(a) == multiset(b)
    ensures Render(o, JObject(a)) == Render(o, JObject(b))
  {
    EntriesPermutation(o, a, b);
    EntriesIdentifiedByKey(o, a);
    SortedUnique(o, SortEntries(o, Entries(o, a)), SortEntries(o, Entries(o, b)));
  }

  /** Arrays keep their order: `[3,1,2]` renders as written. */
  lemma ArrayOrderKept(o: KeyOrder)
    ensures Render(o, JArray([JNumber(3), JNumber(1), JNumber(2)])) == "[3,1,2]"
  {
    var vs := [JNumber(3), JNumber(1), JNumber(2)];
    assert vs[1..] == [JNumber(1), JNumber(2)] && vs[1..][1..] == [JNumber(2)];
  }

  /** Strings whose only whitespace is control characters (which get escaped). */
  predicate PlainString(s: string)
  {
    forall i | 0 <= i < |s| :: IsWhitespace(s[i]) ==> s[i] < ' '
  }

  predicate PlainJson(v: Json)
    decreases v, 1
  {
    match v
    case JString(s) => PlainString(s)
    case JArray(items) => forall i | 0 <= i < |items| :: PlainJson(items[i])
    case JObject(ms) => forall i | 0 <= i < |ms| :: PlainString(ms[i].key) && PlainJson(ms[i].value)
    case _ => true
  }

  lemma NoWhitespaceAppend(a: string, b: string)
    requires NoWhitespace(a) && NoWhitespace(b)
    ensures NoWhitespace(a + b)
  {
    forall i | 0 <= i < |a + b| ensures !IsWhitespace((a + b)[i]) {
      if i >= |a| { assert (a + b)[i] == b[i - |a|]; }
    }
  }

  lemma {:induction false} EscapeNoWhitespace(s: string)
    requires PlainString(s)
    ensures NoWhitespace(Escape(s))
  {
    if s != [] {
      EscapeNoWhitespace(s[1..]);
      NoWhitespaceAppend(EscapeChar(s[0]), Escape(s[1..]));
    }
  }

  lemma QuoteNoWhitespace(s: string)
    requires PlainString(s)
    ensures NoWhitespace(Quote(s))
  {
    EscapeNoWhitespace(s);
    NoWhitespaceAppend("\"", Escape(s));
    NoWhitespaceAppend("\"" + Escape(s), "\"");
  }

  /**
   * No whitespace is added: the only separators are `,` and `:` and the
   * delimiters `{}` and `[]`, so whitespace can only come from inside strings.
   */
  lemma {:induction false} RenderNoWhitespace(o: KeyOrder, v: Json)
    requires PlainJson(v)
    ensures NoWhitespace(Render(o, v))
    decreases v, 2
  {
    match v {
      case JNull =>
      case JBool(_) =>
      case JNumber(n) =>
      case JString(s) => QuoteNoWhitespace(s);
      case JArray(items) =>
        ItemsNoWhitespace(o, items);
        NoWhitespaceAppend("[", RenderItems(o, items));
        NoWhitespaceAppend("[" + RenderItems(o, items), "]");
      case JObject(ms) =>
        EntriesNoWhitespace(o, ms);
        SortedObjectNoWhitespace(o, Entries(o, ms));
    }
  }

  lemma SortedObjectNoWhitespace(o: KeyOrder, es: seq<Entry>)
    requires forall e | e in es :: PlainString(e.key) && NoWhitespace(e.text)
    ensures NoWhitespace("{" + RenderEntries(SortEntries(o, es)) + "}")
  {
    var sorted := SortEntries(o, es);
    forall i | 0 <= i < |sorted| ensures PlainString(sorted[i].key) && NoWhitespace(sorted[i].text) {
      assert sorted[i] in multiset(es);
    }
    RenderedEntriesNoWhitespace(sorted);
    NoWhitespaceAppend("{", RenderEntries(sorted));
    NoWhitespaceAppend("{" + RenderEntries(sorted), "}");
  }

  lemma {:induction false} ItemsNoWhitespace(o: KeyOrder, vs: seq<Json>)
    requires forall i | 0 <= i < |vs| :: PlainJson(vs[i])
    ensures NoWhitespace(RenderItems(o, vs))
    decreases vs, 1
  {
    if vs != [] {
      RenderNoWhitespace(o, vs[0]);
      if |vs| > 1 {
        ItemsNoWhitespace(o, vs[1..]);
        NoWhitespaceAppend(Render(o, vs[0]), ",");
        NoWhitespaceAppend(Render(o, vs[0]) + ",", RenderItems(o, vs[1..]));
      }
    }
  }

  lemma {:induction false} EntriesNoWhitespace(o: KeyOrder, ms: seq<Member>)
    requires forall i | 0 <= i < |ms| :: PlainString(ms[i].key) && PlainJson(ms[i].value)
    ensures forall e | e in Entries(o, ms) :: PlainString(e.key) && NoWhitespace(e.text)
    decreases ms, 1
  {
    if ms != [] {
      RenderNoWhitespace(o, ms[0].value);
      EntriesNoWhitespace(o, ms[1..]);
    }
  }

  lemma {:induction false} RenderedEntriesNoWhitespace(es: seq<Entry>)
    requires forall i | 0 <= i < |es| :: PlainString(es[i].key) && NoWhitespace(es[i].text)
    ensures NoWhitespace(RenderEntries(es))
    decreases |es|
  {
    if es != [] {
      var e := es[0];
      QuoteNoWhitespace(e.key);
      NoWhitespaceAppend(Quote(e.key), ":");
      NoWhitespaceAppend(Quote(e.key) + ":", e.text);
      if |es| > 1 {
        RenderedEntriesNoWhitespace(es[1..]);
        NoWhitespaceAppend(RenderEntry(e), ",");
        NoWhitespaceAppend(RenderEntry(e) + ",", RenderEntries(es[1..]));
      }
    }
  }

  // ---------------------------------------------------------------------
  // The key-order discrepancy.

  /**
   * U+E000 sorts before U+10000 by code point, but after it by UTF-16 code
   * units (0xE000 against the high surrogate 0xD800).
   */
  lemma KeyOrdersDisagree()
    ensures var a, b := [0xE000 as char], [0x10000 as char];
      LexLess(SortKey(CodePoint, a), SortKey(CodePoint, b)) && LexLess(SortKey(Utf16Units, b), SortKey(Utf16Units, a))
  {
    var a, b := [0xE000 as char], [0x10000 as char];
    assert Utf16(a) == [Unit(0xE000)];
    assert Utf16(b) == [Unit(0xD800), Unit(0xDC00)];
  }

  lemma SortTwoInOrder(o: KeyOrder, x: Entry, y: Entry)
    requires KeyLessEq(o, x.key, y.key)
    ensures SortEntries(o, [x, y]) == [x, y]
  {
    assert [x, y][1..] == [y];
    assert SortEntries(o, [y]) == [y] by { assert [y][1..] == []; }
  }

  lemma SortTwoSwapped(o: KeyOrder, x: Entry, y: Entry)
    requires !KeyLessEq(o, x.key, y.key)
    ensures SortEntries(o, [x, y]) == [y, x]
  {
    assert [x, y][1..] == [y];
    assert SortEntries(o, [y]) == [y] by { assert [y][1..] == []; }
    assert Insert(o, x, [y]) == [y] + Insert(o, x, []);
  }

  /** Under RFC 8785 the key with the smaller UTF-16 code units comes first, whatever the insertion order. */
  lemma CanonicalizeOrdersByUtf16(a: string, b: string, va: Json, vb: Json)
    requires LexLess(Utf16(a), Utf16(b))
    ensures Canonicalize(JObject([Member(b, vb), Member(a, va)]))
      == "{" + ((Quote(a) + ":" + Canonicalize(va)) + "," + (Quote(b) + ":" + Canonicalize(vb))) + "}"
  {
    var ea, eb := Entry(a, Canonicalize(va)), Entry(b, Canonicalize(vb));
    TwoEntries(Utf16Units, Member(b, vb), Member(a, va));
    LexLessAsymmetric(Utf16(a), Utf16(b));
    SortTwoSwapped(Utf16Units, eb, ea);
    RenderTwo(ea, eb);
  }

  lemma TwoEntries(o: KeyOrder, x: Member, y: Member)
    ensures Entries(o, [x, y]) == [Entry(x.key, Render(o, x.value)), Entry(y.key, Render(o, y.value))]
  {
    assert [x, y][1..] == [y] && [y][1..] == [];
  }

  lemma RenderTwo(x: Entry, y: Entry)
    ensures RenderEntries([x, y]) == RenderEntry(x) + "," + RenderEntry(y)
  {
    assert [x, y][1..] == [y];
  }

  /** A one-character key that needs no escaping shows up right after `{"`. */
  lemma FirstKeyShown(x: Entry, y: Entry)
    requires |x.key| == 1 && x.key[0] >= ' ' && x.key[0] != '"' && x.key[0] != '\\'
    ensures ("{" + RenderEntries([x, y]) + "}")[2] == x.key[0]
  {
    assert Escape(x.key) == EscapeChar(x.key[0]) + Escape([]) by { assert x.key[1..] == []; }
    assert [x, y][1..] == [y];
    var q := Quote(x.key);
    assert q[1] == x.key[0];
    assert RenderEntries([x, y]) == q + ":" + x.text + "," + RenderEntries([y]);
  }

  /** The same object canonicalises differently as written and under RFC 8785. */
  lemma AsWrittenDiffersFromRfc()
    ensures var v := JObject([Member([0xE000 as char], JNull), Member([0x10000 as char], JNull)]);
      CanonicalizeAsWritten(v) != Canonicalize(v)
  {
    var a, b := [0xE000 as char], [0x10000 as char];
    KeyOrdersDisagree();
    var ms := [Member(a, JNull), Member(b, JNull)];
    var ea, eb := Entry(a, "null"), Entry(b, "null");
    assert ms[1..] == [Member(b, JNull)] && ms[1..][1..] == [];
    assert Entries(CodePoint, ms) == [ea, eb];
    assert Entries(Utf16Units, ms) == [ea, eb];
    LexLessAsymmetric(SortKey(Utf16Units, a), SortKey(Utf16Units, b));
    SortTwoInOrder(CodePoint, ea, eb);
    SortTwoSwapped(Utf16Units, ea, eb);
    FirstKeyShown(ea, eb);
    FirstKeyShown(eb, ea);
    assert CanonicalizeAsWritten(JObject(ms))[2] == a[0];
    assert Canonicalize(JObject(ms))[2] == b[0];
  }

  // ---------------------------------------------------------------------
  // `sha256_hex` and `hash_canonical`.

  function HexByte(b: byte): string
  {
    [HEX_DIGITS[b / 16], HEX_DIGITS[b % 16]]
  }

  /** `hex::encode`: two lower-case hex digits per byte. */
  function HexEncode(bs: seq<byte>): (r: string)
    ensures |r| == 2 * |bs|
    ensures forall i | 0 <= i < |r| :: r[i] in HEX_DIGITS
  {
    if bs == [] then [] else HexByte(bs[0]) + HexEncode(bs[1..])
  }

  /** `sha256_hex`, for a digest function returning 32 bytes. */
  function Sha256Hex(sha256: seq<byte> -> seq<byte>, data: seq<byte>): (r: string)
    requires |sha256(data)| == 32
    ensures |r| == 64 && forall i | 0 <= i < 64 :: r[i] in HEX_DIGITS
  {
    HexEncode(sha256(data))
  }

  /** `hash_canonical`: the digest of the UTF-8 bytes of the canonical form, as written. */
  function HashCanonical(sha256: seq<byte> -> seq<byte>, v: Json): (r: string)
    requires |sha256(Utf8(CanonicalizeAsWritten(v)))| == 32
    ensures |r| == 64
  {
    Sha256Hex(sha256, Utf8(CanonicalizeAsWritten(v)))
  }

  /** Objects that differ only in insertion order hash alike. */
  lemma HashIgnoresInsertionOrder(sha256: seq<byte> -> seq<byte>, a: seq<Member>, b: seq<Member>)
    requires DistinctKeys(a) && multiset(a) == multiset(b)
    requires forall data :: |sha256(data)| == 32
    ensures HashCanonical(sha256, JObject(a)) == HashCanonical(sha256, JObject(b))
  {
    InsertionOrderIrrelevant(CodePoint, a, b);
  }

  /** With a collision-free digest, two documents hash alike exactly when their canonical forms agree. */
  lemma HashCanonicalInjective(sha256: seq<byte> -> seq<byte>, a: Json, b: Json)
    requires forall data :: |sha256(data)| == 32
    requires forall x, y | sha256(x) == sha256(y) :: x == y
    ensures HashCanonical(sha256, a) == HashCanonical(sha256, b) <==> CanonicalizeAsWritten(a) == CanonicalizeAsWritten(b)
  {
    var ca, cb := CanonicalizeAsWritten(a), CanonicalizeAsWritten(b);
    if HashCanonical(sha256, a) == HashCanonical(sha256, b) {
      HexEncodeInjective(sha256(Utf8(ca)), sha256(Utf8(cb)));
      Utf8Injective(ca, cb);
    }
  }

  /** Hex encoding is injective, so distinct digests give distinct hashes. */
  lemma {:induction false} HexEncodeInjective(a: seq<byte>, b: seq<byte>)
    requires HexEncode(a) == HexEncode(b)
    ensures a == b
  {
    if a != [] && b != [] {
      var ha, hb := HexEncode(a), HexEncode(b);
      assert ha[0] == HEX_DIGITS[a[0] / 16] && hb[0] == HEX_DIGITS[b[0] / 16];
      assert ha[1] == HEX_DIGITS[a[0] % 16] && hb[1] == HEX_DIGITS[b[0] % 16];
      HexDigitInjective(a[0] / 16, b[0] / 16);
      HexDigitInjective(a[0] % 16, b[0] % 16);
      assert ha[2..] == HexEncode(a[1..]) && hb[2..] == HexEncode(b[1..]);
      HexEncodeInjective(a[1..], b[1..]);
      assert a == [a[0]] + a[1..] && b == [b[0]] + b[1..];
    }
  }

  lemma HexDigitInjective(x: int, y: int)
    requires 0 <= x < 16 && 0 <= y < 16 && HEX_DIGITS[x] == HEX_DIGITS[y]
    ensures x == y
  {
  }
}
