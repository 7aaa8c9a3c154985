// ULID-style message ids: 26 Crockford base-32 characters, ten for the
// millisecond timestamp and sixteen for 80 random bits.

module MsgId {
  import opened Common

  /** Crockford's base-32 alphabet: no I, L, O or U. */
  const CROCKFORD: string := "0123456789ABCDEFGHJKMNPQRSTVWXYZ"

  const TIMESTAMP_CHARS: nat := 10
  const RANDOM_CHARS: nat := 16

  function Pow32(k: nat): (r: nat)
    ensures r >= 1
  {
    if k == 0 then 1 else 32 * Pow32(k - 1)
  }

  /**
   * The alphabet's `d`-th character, spelled out by ranges: the ten digits,
   * then A-H, J-K, M-N, P-T and V-Z.
   */
  function DigitChar(d: nat): (c: char)
    requires d < 32
  {
    if d < 10 then (48 + d) as char
    else if d < 18 then (65 + d - 10) as char
    else if d < 20 then (74 + d - 18) as char
    else if d < 22 then (77 + d - 20) as char
    else if d < 27 then (80 + d - 22) as char
    else (86 + d - 27) as char
  }

  /** The table and its range form agree entry by entry. */
  lemma CrockfordTable()
    ensures |CROCKFORD| == 32
    ensures forall d | 0 <= d < 32 :: CROCKFORD[d] == DigitChar(d)
  {
  }

  /** A character of the alphabet. */
  predicate IsDigitChar(c: char)
  {
    ('0' <= c <= '9' || 'A' <= c <= 'Z') && c != 'I' && c != 'L' && c != 'O' && c != 'U'
  }

  /** The digit an alphabet character stands for. */
  function DigitOf(c: char): (d: nat)
    requires IsDigitChar(c)
    ensures d < 32 && DigitChar(d) == c
  {
    var n := c as int;
    if n <= 57 then n - 48
    else if n <= 72 then n - 65 + 10
    else if n <= 75 then n - 74 + 18
    else if n <= 78 then n - 77 + 20
    else if n <= 84 then n - 80 + 22
    else n - 86 + 27
  }

  /** Distinct digits have distinct characters, in increasing order, and every one is in the alphabet. */
  lemma DigitCharFacts(d: nat, e: nat)
    requires d < 32 && e < 32
    ensures IsDigitChar(DigitChar(d)) && DigitOf(DigitChar(d)) == d
    ensures d < e ==> DigitChar(d) < DigitChar(e)
  {
  }

  /**
   * The low `k` base-32 digits of `n`, most significant first, one
   * alphabet character each: what a loop writing `CROCKFORD[n & 0x1F]`
   * from the right while shifting `n` right by 5 produces.
   */
  function Encode(n: nat, k: nat): (r: string)
    ensures |r| == k
    ensures forall i | 0 <= i < |r| :: IsDigitChar(r[i])
  {
    if k == 0 then "" else Encode(n / 32, k - 1) + [DigitChar(n % 32)]
  }

  /** Reads a Crockford string back as a number, most significant digit first. */
  function Decode(s: string): nat
    requires forall i | 0 <= i < |s| :: IsDigitChar(s[i])
  {
    if s == [] then 0 else Decode(s[..|s| - 1]) * 32 + DigitOf(s[|s| - 1])
  }

  /** Below `32^k`, decoding an encoding gives the number back. */
  lemma {:induction false} DecodeEncode(n: nat, k: nat)
    requires n < Pow32(k)
    ensures Decode(Encode(n, k)) == n
  {
    if k > 0 {
      var e := Encode(n, k);
      assert e[..k - 1] == Encode(n / 32, k - 1);
      assert 32 * (n / 32) <= n < 32 * Pow32(k - 1);
      DecodeEncode(n / 32, k - 1);
      DigitCharFacts(n % 32, 0);
    }
  }

  /** Encoding looks only at the low `k` digits: adding a multiple of `32^k` changes nothing. */
  lemma {:induction false} EncodeWraps(n: nat, c: nat, k: nat)
    ensures Encode(n + c * Pow32(k), k) == Encode(n, k)
  {
    if k > 0 {
      var p := Pow32(k - 1);
      assert c * Pow32(k) == 32 * (c * p);
      var m := n + 32 * (c * p);
      assert m % 32 == n % 32 && m / 32 == n / 32 + c * p;
      EncodeWraps(n / 32, c, k - 1);
    }
  }

  /** Every alphabet string is the encoding of its own value: decoding loses nothing. */
  lemma {:induction false} EncodeDecode(s: string)
    requires forall i | 0 <= i < |s| :: IsDigitChar(s[i])
    ensures Encode(Decode(s), |s|) == s
  {
    if s != [] {
      var init := s[..|s| - 1];
      var d := DigitOf(s[|s| - 1]);
      EncodeDecode(init);
      var v := Decode(init) * 32 + d;
      DivModDigit(Decode(init), d);
      assert Encode(v, |s|) == Encode(Decode(init), |init|) + [DigitChar(d)];
      assert s == init + [s[|s| - 1]];
    }
  }

  lemma DivModDigit(q: nat, d: nat)
    requires d < 32
    ensures (q * 32 + d) % 32 == d && (q * 32 + d) / 32 == q
  {
  }

  /** Below `32^k` the encoding is one-to-one. */
  lemma EncodeInjective(n: nat, m: nat, k: nat)
    requires n < Pow32(k) && m < Pow32(k)
    requires Encode(n, k) == Encode(m, k)
    ensures n == m
  {
    DecodeEncode(n, k);
    DecodeEncode(m, k);
  }

  lemma {:induction false} LexLessSnoc(a: string, b: string, x: char, y: char)
    requires |a| == |b|
    requires LexLess(a, b) || (a == b && x < y)
    ensures LexLess(a + [x], b + [y])
  {
    if a != [] {
      assert (a + [x])[1..] == a[1..] + [x];
      assert (b + [y])[1..] == b[1..] + [y];
      if a[0] == b[0] {
        LexLessSnoc(a[1..], b[1..], x, y);
      }
    }
  }

  lemma {:induction false} LexLessAppend(a: string, b: string, x: string, y: string)
    requires |a| == |b| && LexLess(a, b)
    ensures LexLess(a + x, b + y)
  {
    assert a != [] && b != [];
    assert (a + x)[1..] == a[1..] + x;
    assert (b + y)[1..] == b[1..] + y;
    if a[0] == b[0] {
      LexLessAppend(a[1..], b[1..], x, y);
    }
  }

  /** Below `32^k` a larger number has a lexicographically larger encoding. */
  lemma {:induction false} EncodeMonotone(n: nat, m: nat, k: nat)
    requires n < m < Pow32(k)
    ensures LexLess(Encode(n, k), Encode(m, k))
  {
    assert k > 0;
    var q := Pow32(k - 1);
    assert m / 32 < q by {
      assert 32 * (m / 32) <= m < 32 * q;
    }
    DigitCharFacts(n % 32, m % 32);
    assert Encode(n, k) == Encode(n / 32, k - 1) + [DigitChar(n % 32)];
    assert Encode(m, k) == Encode(m / 32, k - 1) + [DigitChar(m % 32)];
    if n / 32 < m / 32 {
      EncodeMonotone(n / 32, m / 32, k - 1);
    }
    LexLessSnoc(Encode(n / 32, k - 1), Encode(m / 32, k - 1), DigitChar(n % 32), DigitChar(m % 32));
  }

  /** `rand_hi as u128 | (rand_lo as u128) << 16`: the bits do not overlap, so the or is a sum. */
  function RandomValue(randHi: nat, randLo: nat): nat
  {
    randHi + randLo * 65536
  }

  /** Fifty bits of timestamp and eighty of randomness. */
  lemma Spans()
    ensures Pow32(TIMESTAMP_CHARS) == 1125899906842624
    ensures Pow32(RANDOM_CHARS) == 65536 * (U64_MAX + 1)
  {
    assert Pow32(5) == 33554432;
    assert Pow32(10) == 33554432 * Pow32(5);
    assert Pow32(16) == 1073741824 * Pow32(10);
  }

  /**
   * The id for a timestamp and two random draws: the timestamp's low 50
   * bits in ten characters, then the 80-bit random value in sixteen.
   */
  function MsgIdOf(nowMs: nat, randHi: nat, randLo: nat): (r: string)
    requires randHi < 65536 && randLo <= U64_MAX
    ensures |r| == TIMESTAMP_CHARS + RANDOM_CHARS
    ensures forall i | 0 <= i < |r| :: IsDigitChar(r[i])
    ensures Decode(r[..TIMESTAMP_CHARS]) == nowMs % 1125899906842624
    ensures Decode(r[TIMESTAMP_CHARS..]) == RandomValue(randHi, randLo)
  {
    var ts := Encode(nowMs, TIMESTAMP_CHARS);
    var rnd := Encode(RandomValue(randHi, randLo), RANDOM_CHARS);
    Spans();
    var low := nowMs % 1125899906842624;
    assert nowMs == low + (nowMs / 1125899906842624) * Pow32(TIMESTAMP_CHARS);
    EncodeWraps(low, nowMs / 1125899906842624, TIMESTAMP_CHARS);
    DecodeEncode(low, TIMESTAMP_CHARS);
    DecodeEncode(RandomValue(randHi, randLo), RANDOM_CHARS);
    assert (ts + rnd)[..TIMESTAMP_CHARS] == ts;
    assert (ts + rnd)[TIMESTAMP_CHARS..] == rnd;
    ts + rnd
  }

  /**
   * One of `generate`'s loops: writes the low `hi - lo` digits of `v` into
   * `buf[lo..hi]` from the right, taking `v & 0x1F` and shifting right by 5.
   */
  method FillDigits(buf: array<char>, lo: nat, hi: nat, v: nat)
    requires lo <= hi <= buf.Length
    modifies buf
    ensures buf[lo..hi] == Encode(v, hi - lo)
    ensures buf[..lo] == old(buf[..lo]) && buf[hi..] == old(buf[hi..])
  {
    CrockfordTable();
    var x := v;
    var i := hi;
    while i > lo
      invariant lo <= i <= hi
      invariant Encode(v, hi - lo) == Encode(x, i - lo) + buf[i..hi]
      invariant buf[..lo] == old(buf[..lo]) && buf[hi..] == old(buf[hi..])
    {
      buf[i - 1] := CROCKFORD[x % 32];
      assert buf[i - 1..hi] == [DigitChar(x % 32)] + buf[i..hi];
      x := x / 32;
      i := i - 1;
    }
  }

  /** `generate`, with the clock and the random draws as parameters. */
  method Generate(nowMs: nat, randHi: nat, randLo: nat) returns (id: string)
    requires nowMs <= U64_MAX && randHi < 65536 && randLo <= U64_MAX
    ensures id == MsgIdOf(nowMs, randHi, randLo)
  {
    var buf := new char[26](_ => '0');
    FillDigits(buf, 0, TIMESTAMP_CHARS, nowMs);
    FillDigits(buf, TIMESTAMP_CHARS, 26, RandomValue(randHi, randLo));
    id := buf[..];
    assert id == buf[..10] + buf[10..];
  }

  /** Equal ids come from the same draws and the same timestamp modulo 2^50. */
  lemma MsgIdInjective(t1: nat, h1: nat, l1: nat, t2: nat, h2: nat, l2: nat)
    requires h1 < 65536 && l1 <= U64_MAX && h2 < 65536 && l2 <= U64_MAX
    requires MsgIdOf(t1, h1, l1) == MsgIdOf(t2, h2, l2)
    ensures h1 == h2 && l1 == l2
    ensures t1 % 1125899906842624 == t2 % 1125899906842624
  {
    assert RandomValue(h1, l1) % 65536 == h1 && RandomValue(h1, l1) / 65536 == l1;
    assert RandomValue(h2, l2) % 65536 == h2 && RandomValue(h2, l2) / 65536 == l2;
  }

  /** Ids sort by timestamp: below 2^50 ms a later timestamp gives a larger id, whatever the draws. */
  lemma MsgIdChronological(t1: nat, h1: nat, l1: nat, t2: nat, h2: nat, l2: nat)
    requires h1 < 65536 && l1 <= U64_MAX && h2 < 65536 && l2 <= U64_MAX
    requires t1 < t2 < 1125899906842624
    ensures LexLess(MsgIdOf(t1, h1, l1), MsgIdOf(t2, h2, l2))
  {
    Spans();
    EncodeMonotone(t1, t2, TIMESTAMP_CHARS);
    LexLessAppend(Encode(t1, TIMESTAMP_CHARS), Encode(t2, TIMESTAMP_CHARS),
      Encode(RandomValue(h1, l1), RANDOM_CHARS), Encode(RandomValue(h2, l2), RANDOM_CHARS));
  }
}
