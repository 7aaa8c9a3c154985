// The conversion of an iroh endpoint ID (an ed25519 public key in hex)
// into the `publicKeyMultibase` value of a did:web document: Bitcoin
// base58 over the multicodec prefix 0xed 0x01 and the 32 key bytes, with
// the multibase tag "z" in front. The decoder below is not part of the
// program; it is the inverse the encoding is proved against.

module Multibase {
  import opened Common

  /** The base58 alphabet (Bitcoin and IPFS): digits and letters without 0, O, I and l. */
  const ALPHABET: string := "123456789" + "ABCDEFGH" + "JKLMN" + "PQRSTUVWXYZ" + "abcdefghijk" + "mnopqrstuvwxyz"

  /** The ed25519 multicodec prefix. */
  const ED25519_PREFIX: seq<byte> := [0xed, 0x01]

  // ---------------------------------------------------------------------
  // Digits and values.

  /** The digit for a value below 58, by the alphabet's six runs. */
  function Digit58Char(d: nat): char
    requires d < 58
  {
    if d < 9 then ('1' as int + d) as char
    else if d < 17 then ('A' as int + (d - 9)) as char
    else if d < 22 then ('J' as int + (d - 17)) as char
    else if d < 33 then ('P' as int + (d - 22)) as char
    else if d < 44 then ('a' as int + (d - 33)) as char
    else ('m' as int + (d - 44)) as char
  }

  /** `k` consecutive characters from `first` on. */
  function Run(first: char, k: nat): (r: string)
    requires first as int + k <= 128
    ensures |r| == k && forall i | 0 <= i < k :: r[i] == (first as int + i) as char
  {
    if k == 0 then [] else Run(first, k - 1) + [(first as int + k - 1) as char]
  }

  /** The alphabet spelled as its six runs. */
  lemma AlphabetIsRuns()
    ensures ALPHABET == Run('1', 9) + Run('A', 8) + Run('J', 5) + Run('P', 11) + Run('a', 11) + Run('m', 14)
  {
    RunIs('1', "123456789");
    RunIs('A', "ABCDEFGH");
    RunIs('J', "JKLMN");
    RunIs('P', "PQRSTUVWXYZ");
    RunIs('a', "abcdefghijk");
    RunIs('m', "mnopqrstuvwxyz");
  }

  lemma RunIs(first: char, s: string)
    requires first as int + |s| <= 128
    requires forall i | 0 <= i < |s| :: s[i] as int == first as int + i
    ensures Run(first, |s|) == s
  {
  }

  /** The alphabet's characters are the digits of their positions. */
  lemma AlphabetRuns(d: nat)
    requires d < 58
    ensures ALPHABET[d] == Digit58Char(d)
  {
    AlphabetIsRuns();
  }

  /** The value of a base58 digit; none for a character outside the alphabet. */
  function Digit58Of(c: char): (r: Option<nat>)
    ensures r.Some? ==> r.value < 58 && Digit58Char(r.value) == c
  {
    if '1' <= c <= '9' then Some(c as int - '1' as int)
    else if 'A' <= c <= 'H' then Some(9 + (c as int - 'A' as int))
    else if 'J' <= c <= 'N' then Some(17 + (c as int - 'J' as int))
    else if 'P' <= c <= 'Z' then Some(22 + (c as int - 'P' as int))
    else if 'a' <= c <= 'k' then Some(33 + (c as int - 'a' as int))
    else if 'm' <= c <= 'z' then Some(44 + (c as int - 'm' as int))
    else None
  }

  lemma Digit58Inverse(d: nat)
    requires d < 58
    ensures Digit58Of(Digit58Char(d)) == Some(d)
  {
  }

  /** Only the digit for zero is '1'. */
  lemma OnlyZeroIsOne(d: nat)
    requires 0 < d < 58
    ensures Digit58Char(d) != '1'
  {
  }

  /** `int.from_bytes(data, "big")`. */
  function BigEndian(data: seq<byte>): nat
  {
    if data == [] then 0 else BigEndian(data[..|data| - 1]) * 256 + data[|data| - 1]
  }

  /** The base58 digits of a number, most significant first; none for zero. */
  function Digits58(n: nat): (r: seq<nat>)
    ensures forall i | 0 <= i < |r| :: r[i] < 58
    ensures n == 0 <==> r == []
    ensures n > 0 ==> r[0] != 0
    decreases n
  {
    if n == 0 then [] else Digits58(n / 58) + [n % 58]
  }

  /** The value of base58 digits, most significant first. */
  function Value58(ds: seq<nat>): nat
  {
    if ds == [] then 0 else Value58(ds[..|ds| - 1]) * 58 + ds[|ds| - 1]
  }

  lemma {:induction false} Value58Digits(n: nat)
    ensures Value58(Digits58(n)) == n
    decreases n
  {
    if n > 0 {
      var ds := Digits58(n);
      assert ds[..|ds| - 1] == Digits58(n / 58);
      Value58Digits(n / 58);
    }
  }

  /** The number of leading zero bytes. */
  function LeadingZeros(data: seq<byte>): (k: nat)
    ensures k <= |data|
    ensures forall i | 0 <= i < k :: data[i] == 0
    ensures k < |data| ==> data[k] != 0
  {
    if data != [] && data[0] == 0 then 1 + LeadingZeros(data[1..]) else 0
  }

  function Ones(k: nat): (r: string)
    ensures |r| == k && forall i | 0 <= i < k :: r[i] == '1'
  {
    if k == 0 then [] else "1" + Ones(k - 1)
  }

  /** The characters of base58 digits. */
  function Chars(ds: seq<nat>): (r: string)
    requires forall i | 0 <= i < |ds| :: ds[i] < 58
    ensures |r| == |ds|
    ensures forall i | 0 <= i < |ds| :: r[i] == Digit58Char(ds[i])
  {
    if ds == [] then [] else [Digit58Char(ds[0])] + Chars(ds[1..])
  }

  lemma {:induction false} CharsAppend(a: seq<nat>, b: seq<nat>)
    requires forall i | 0 <= i < |a| :: a[i] < 58
    requires forall i | 0 <= i < |b| :: b[i] < 58
    ensures Chars(a + b) == Chars(a) + Chars(b)
    decreases |a|
  {
    if a == [] {
      assert a + b == b;
    } else {
      assert (a + b)[1..] == a[1..] + b;
      CharsAppend(a[1..], b);
    }
  }

  /**
   * `b58encode`: one '1' for each leading zero byte, then the base58
   * digits of the whole input read as a big-endian number.
   */
  function B58(data: seq<byte>): (s: string)
    ensures |s| >= LeadingZeros(data)
    ensures s[..LeadingZeros(data)] == Ones(LeadingZeros(data))
    ensures s[LeadingZeros(data)..] == Chars(Digits58(BigEndian(data)))
  {
    var z := LeadingZeros(data);
    var s := Ones(z) + Chars(Digits58(BigEndian(data)));
    assert s[..z] == Ones(z);
    s
  }

  /** Every character of an encoding is in the alphabet. */
  lemma B58Alphabet(data: seq<byte>)
    ensures forall i | 0 <= i < |B58(data)| :: B58(data)[i] in ALPHABET
  {
    var z := LeadingZeros(data);
    var ds := Digits58(BigEndian(data));
    var s := Ones(z) + Chars(ds);
    assert s == B58(data);
    forall i | 0 <= i < |s|
      ensures s[i] in ALPHABET
    {
      if i < z {
        AlphabetRuns(0);
      } else {
        var d := ds[i - z];
        assert s[i] == Digit58Char(d);
        AlphabetRuns(d);
      }
    }
  }

  /** The empty input encodes to the empty string. */
  lemma B58Empty()
    ensures B58([]) == ""
  {
  }

  // ---------------------------------------------------------------------
  // The encoding loop.

  function Reverse<T>(s: seq<T>): (r: seq<T>)
    ensures |r| == |s|
  {
    if s == [] then [] else Reverse(s[1..]) + [s[0]]
  }

  lemma {:induction false} ReverseAppend<T>(a: seq<T>, b: seq<T>)
    ensures Reverse(a + b) == Reverse(b) + Reverse(a)
    decreases |a|
  {
    if a == [] {
      assert a + b == b;
    } else {
      assert (a + b)[1..] == a[1..] + b;
      ReverseAppend(a[1..], b);
    }
  }

  lemma {:induction false} ReverseOnes(k: nat)
    ensures Reverse(Ones(k)) == Ones(k)
  {
    if k > 0 {
      ReverseOnes(k - 1);
      assert Ones(k) == Ones(k - 1) + "1";
      ReverseAppend(Ones(k - 1), "1");
    }
  }

  /** The digit loop's step: the lowest digit is appended, the rest remain to be produced. */
  lemma DigitStep(n: nat, result: string)
    requires n > 0
    ensures Chars(Digits58(n / 58)) + Reverse(result + [ALPHABET[n % 58]]) ==
            Chars(Digits58(n)) + Reverse(result)
  {
    var c := ALPHABET[n % 58];
    AlphabetRuns(n % 58);
    ReverseAppend(result, [c]);
    assert Reverse([c]) == [c];
    CharsAppend(Digits58(n / 58), [n % 58]);
    assert Chars([n % 58]) == [c];
  }

  /** `b58encode` as written: divmod by 58 until zero, then a '1' per leading zero byte, then reversed. */
  method B58Encode(data: seq<byte>) returns (s: string)
    ensures s == B58(data)
  {
    var n := BigEndian(data);
    var result: string := [];
    while n > 0
      invariant Chars(Digits58(n)) + Reverse(result) == Chars(Digits58(BigEndian(data)))
      decreases n
    {
      var r := n % 58;
      DigitStep(n, result);
      n := n / 58;
      result := result + [ALPHABET[r]];
    }
    assert Reverse(result) == Chars(Digits58(BigEndian(data)));
    ghost var digits := result;
    var i := 0;
    while i < |data| && data[i] == 0
      invariant i <= LeadingZeros(data)
      invariant result == digits + Ones(i)
    {
      assert Ones(i + 1) == Ones(i) + "1" by {
        OnesSnoc(i);
      }
      result := result + "1";
      i := i + 1;
    }
    FinishEncoding(data, digits, i);
    s := Reverse(result);
  }

  /** Reversing the digits and the '1's gives the encoding. */
  lemma FinishEncoding(data: seq<byte>, digits: string, i: nat)
    requires Reverse(digits) == Chars(Digits58(BigEndian(data)))
    requires i == LeadingZeros(data)
    ensures Reverse(digits + Ones(i)) == B58(data)
  {
    ReverseAppend(digits, Ones(i));
    ReverseOnes(i);
  }

  lemma {:induction false} OnesSnoc(k: nat)
    ensures Ones(k + 1) == Ones(k) + "1"
  {
    if k > 0 {
      OnesSnoc(k - 1);
    }
  }

  // ---------------------------------------------------------------------
  // The inverse.

  /** The number of leading '1's. */
  function LeadingOnes(s: string): (k: nat)
    ensures k <= |s|
  {
    if s != [] && s[0] == '1' then 1 + LeadingOnes(s[1..]) else 0
  }

  /** The digits of base58 text; none when a character is outside the alphabet. */
  function DigitsOf(s: string): (r: Option<seq<nat>>)
    ensures r.Some? ==> |r.value| == |s| && forall i | 0 <= i < |r.value| :: r.value[i] < 58
  {
    if s == [] then Some([])
    else match Digit58Of(s[0])
      case None => None
      case Some(d) =>
        match DigitsOf(s[1..])
        case None => None
        case Some(rest) => Some([d] + rest)
  }

  /** The minimal big-endian bytes of a number; none for zero. */
  function BytesOf(n: nat): (r: seq<byte>)
    ensures n == 0 <==> r == []
    decreases n
  {
    if n == 0 then [] else BytesOf(n / 256) + [n % 256]
  }

  function Zeros(k: nat): (r: seq<byte>)
    ensures |r| == k && forall i | 0 <= i < k :: r[i] == 0
  {
    if k == 0 then [] else [0] + Zeros(k - 1)
  }

  /** Base58 decoding: a zero byte per leading '1', then the bytes of the value of the rest. */
  function B58Decode(s: string): Option<seq<byte>>
  {
    var z := LeadingOnes(s);
    match DigitsOf(s[z..])
    case None => None
    case Some(ds) => Some(Zeros(z) + BytesOf(Value58(ds)))
  }

  lemma {:induction false} LeadingOnesOf(k: nat, t: string)
    requires t == [] || t[0] != '1'
    ensures LeadingOnes(Ones(k) + t) == k
  {
    if k > 0 {
      assert (Ones(k) + t)[1..] == Ones(k - 1) + t;
      LeadingOnesOf(k - 1, t);
    }
  }

  lemma {:induction false} DigitsOfChars(ds: seq<nat>)
    requires forall i | 0 <= i < |ds| :: ds[i] < 58
    ensures DigitsOf(Chars(ds)) == Some(ds)
    decreases |ds|
  {
    if ds != [] {
      Digit58Inverse(ds[0]);
      DigitsOfChars(ds[1..]);
      assert [ds[0]] + ds[1..] == ds;
    }
  }

  /** Leading zero bytes do not change the big-endian value. */
  lemma {:induction false} BigEndianDropZeros(data: seq<byte>, k: nat)
    requires k <= |data| && forall i | 0 <= i < k :: data[i] == 0
    ensures BigEndian(data) == BigEndian(data[k..])
    decreases |data|
  {
    if k < |data| {
      var init := data[..|data| - 1];
      assert data[k..][..|data[k..]| - 1] == init[k..];
      BigEndianDropZeros(init, k);
    } else {
      assert data[k..] == [];
      BigEndianZeros(data);
    }
  }

  lemma {:induction false} BigEndianZeros(data: seq<byte>)
    requires forall i | 0 <= i < |data| :: data[i] == 0
    ensures BigEndian(data) == 0
    decreases |data|
  {
    if data != [] {
      BigEndianZeros(data[..|data| - 1]);
    }
  }

  /** Bytes that do not start with zero have a positive value, if any. */
  lemma {:induction false} BigEndianPositive(data: seq<byte>)
    requires data != [] && data[0] != 0
    ensures BigEndian(data) > 0
    decreases |data|
  {
    if |data| > 1 {
      BigEndianPositive(data[..|data| - 1]);
    }
  }

  lemma DivMod256(a: nat, b: nat)
    requires b < 256
    ensures (a * 256 + b) / 256 == a && (a * 256 + b) % 256 == b
  {
  }

  /** Bytes without a leading zero are the minimal bytes of their value. */
  lemma {:induction false} BytesOfBigEndian(data: seq<byte>)
    requires data == [] || data[0] != 0
    ensures BytesOf(BigEndian(data)) == data
    decreases |data|
  {
    if data != [] {
      var init := data[..|data| - 1];
      var b := data[|data| - 1];
      if init != [] {
        assert init[0] == data[0];
        BigEndianPositive(data);
        BytesOfBigEndian(init);
      }
      DivMod256(BigEndian(init), b);
      assert init + [b] == data;
    }
  }

  /** Decoding an encoding gives the bytes back. */
  lemma B58RoundTrip(data: seq<byte>)
    ensures B58Decode(B58(data)) == Some(data)
  {
    var z := LeadingZeros(data);
    var n := BigEndian(data);
    var ds := Digits58(n);
    var rest := data[z..];
    assert B58(data) == Ones(z) + Chars(ds);
    DecodeDigits(z, ds);
    Value58Digits(n);
    BigEndianDropZeros(data, z);
    assert BytesOf(Value58(ds)) == BytesOf(BigEndian(rest));
    BytesOfBigEndian(rest);
    ZerosThenRest(data, z);
  }

  /** Data whose first `z` bytes are zero is `z` zeros followed by the rest. */
  lemma ZerosThenRest(data: seq<byte>, z: nat)
    requires z <= |data| && forall i | 0 <= i < z :: data[i] == 0
    ensures Zeros(z) + data[z..] == data
  {
  }

  /** '1's then digits not starting with zero decode to zero bytes then the digits' value. */
  lemma DecodeDigits(z: nat, ds: seq<nat>)
    requires forall i | 0 <= i < |ds| :: ds[i] < 58
    requires ds == [] || ds[0] != 0
    ensures B58Decode(Ones(z) + Chars(ds)) == Some(Zeros(z) + BytesOf(Value58(ds)))
  {
    var s := Ones(z) + Chars(ds);
    if ds != [] {
      OnlyZeroIsOne(ds[0]);
    }
    LeadingOnesOf(z, Chars(ds));
    assert s[z..] == Chars(ds);
    DigitsOfChars(ds);
  }

  /** Each leading zero byte gives exactly one leading '1'. */
  lemma B58LeadingOnes(data: seq<byte>)
    ensures LeadingOnes(B58(data)) == LeadingZeros(data)
  {
    var ds := Digits58(BigEndian(data));
    if ds != [] {
      OnlyZeroIsOne(ds[0]);
    }
    assert B58(data) == Ones(LeadingZeros(data)) + Chars(ds);
    LeadingOnesOf(LeadingZeros(data), Chars(ds));
  }

  /** After the leading '1's the digits spell the input's big-endian value. */
  lemma B58DigitsValue(data: seq<byte>)
    ensures DigitsOf(B58(data)[LeadingZeros(data)..]) == Some(Digits58(BigEndian(data)))
    ensures Value58(Digits58(BigEndian(data))) == BigEndian(data)
  {
    DigitsOfChars(Digits58(BigEndian(data)));
    Value58Digits(BigEndian(data));
  }

  // ---------------------------------------------------------------------
  // Multibase.

  /** `"z" + b58encode(ED25519_PREFIX + pub_bytes)`. */
  function MultibaseOf(key: seq<byte>): (r: string)
    ensures r != [] && r[0] == 'z'
  {
    "z" + B58(ED25519_PREFIX + key)
  }

  /** The multibase value of a key has no leading '1': the prefix byte 0xed is not zero. */
  lemma MultibaseHasNoOnes(key: seq<byte>)
    ensures LeadingOnes(MultibaseOf(key)[1..]) == 0
  {
    assert (ED25519_PREFIX + key)[0] == 0xed;
    B58LeadingOnes(ED25519_PREFIX + key);
    assert MultibaseOf(key)[1..] == B58(ED25519_PREFIX + key);
  }

  /** Reading a multibase ed25519 key: tag "z", base58, the prefix, 32 bytes. */
  function KeyOfMultibase(s: string): Option<seq<byte>>
  {
    if s == [] || s[0] != 'z' then None
    else match B58Decode(s[1..])
      case None => None
      case Some(b) =>
        if |b| == 34 && b[..2] == ED25519_PREFIX then Some(b[2..]) else None
  }

  lemma MultibaseRoundTrip(key: seq<byte>)
    requires |key| == 32
    ensures KeyOfMultibase(MultibaseOf(key)) == Some(key)
  {
    var b := ED25519_PREFIX + key;
    assert MultibaseOf(key)[1..] == B58(b);
    B58RoundTrip(b);
    assert b[..2] == ED25519_PREFIX && b[2..] == key;
  }

  // ---------------------------------------------------------------------
  // Hex.

  /** The ASCII white space `bytes.fromhex` skips between byte pairs. */
  predicate IsAsciiSpace(c: char)
  {
    c == ' ' || c == '\t' || c == '\n' || c == '\r' || c == '\U{0B}' || c == '\U{0C}'
  }

  function HexDigit(c: char): (r: Option<nat>)
    ensures r.Some? ==> r.value < 16
  {
    if '0' <= c <= '9' then Some(c as int - '0' as int)
    else if 'a' <= c <= 'f' then Some(10 + (c as int - 'a' as int))
    else if 'A' <= c <= 'F' then Some(10 + (c as int - 'A' as int))
    else None
  }

  /** `bytes.fromhex`: pairs of hex digits, white space allowed before each pair; anything else fails. */
  function FromHex(s: string): (r: Option<seq<byte>>)
    ensures r.Some? ==> 2 * |r.value| <= |s|
    decreases |s|
  {
    if s == [] then Some([])
    else if IsAsciiSpace(s[0]) then FromHex(s[1..])
    else if |s| < 2 || HexDigit(s[0]).None? || HexDigit(s[1]).None? then None
    else match FromHex(s[2..])
      case None => None
      case Some(rest) => Some([HexDigit(s[0]).value * 16 + HexDigit(s[1]).value] + rest)
  }

  /** A hex text without white space has two digits per byte. */
  lemma {:induction false} FromHexLength(s: string)
    requires FromHex(s).Some?
    requires forall i | 0 <= i < |s| :: !IsAsciiSpace(s[i])
    ensures |s| == 2 * |FromHex(s).value|
    decreases |s|
  {
    if s != [] {
      FromHexLength(s[2..]);
    }
  }

  function HexChar(d: nat): (c: char)
    requires d < 16
    ensures HexDigit(c) == Some(d) && !IsAsciiSpace(c) && !PyIsSpace(c)
  {
    if d < 10 then ('0' as int + d) as char else ('a' as int + (d - 10)) as char
  }

  /** Lower-case hex, two digits per byte. */
  function ToHex(b: seq<byte>): (s: string)
    ensures |s| == 2 * |b|
    ensures forall i | 0 <= i < |s| :: !IsAsciiSpace(s[i]) && !PyIsSpace(s[i])
  {
    if b == [] then [] else [HexChar(b[0] / 16), HexChar(b[0] % 16)] + ToHex(b[1..])
  }

  lemma {:induction false} FromHexToHex(b: seq<byte>)
    ensures FromHex(ToHex(b)) == Some(b)
  {
    if b != [] {
      var s := ToHex(b);
      assert s[2..] == ToHex(b[1..]);
      FromHexToHex(b[1..]);
      assert [b[0] / 16 * 16 + b[0] % 16] + b[1..] == b;
    }
  }

  // ---------------------------------------------------------------------
  // The command line.

  /** The argument: missing, a path that exists (with the file's contents), or anything else. */
  datatype Input = NoArgument | ExistingFile(content: string) | Argument(text: string)

  /** What the script ends with: usage, one of its errors, or the converted value. */
  datatype Outcome =
    | Usage
    | SecretKeyFile
    | NotHex(id: string)
    | WrongLength(got: nat)
    | Converted(id: string, multibase: string)

  /** The endpoint ID the script goes on with; none for the secret-key case. */
  function EndpointId(input: Input): Option<string>
    requires !input.NoArgument?
  {
    match input
    case ExistingFile(content) =>
      var hex := PyStrip(content);
      if |hex| == 64 then None else Some(hex)
    case Argument(text) => Some(PyStrip(text))
  }

  /**
   * `main`: no argument prints the usage; a file of 64 characters is taken
   * for a secret key and refused; the ID must be hex and exactly 32 bytes.
   */
  function Convert(input: Input): (r: Outcome)
    ensures r.Converted? <==>
      !input.NoArgument? && EndpointId(input).Some? &&
      FromHex(EndpointId(input).value).Some? && |FromHex(EndpointId(input).value).value| == 32
    ensures r.Converted? ==>
      r.id == EndpointId(input).value && r.multibase == MultibaseOf(FromHex(r.id).value)
    ensures r.WrongLength? ==> r.got != 32
  {
    match input
    case NoArgument => Usage
    case _ =>
      match EndpointId(input)
      case None => SecretKeyFile
      case Some(id) =>
        match FromHex(id)
        case None => NotHex(id)
        case Some(key) =>
          if |key| != 32 then WrongLength(|key|) else Converted(id, MultibaseOf(key))
  }

  /** A converted value reads back as the key the ID names. */
  lemma ConvertedReadsBack(input: Input)
    requires Convert(input).Converted?
    ensures KeyOfMultibase(Convert(input).multibase) == FromHex(Convert(input).id)
  {
    MultibaseRoundTrip(FromHex(Convert(input).id).value);
  }

  /** A key given in hex on the command line converts. */
  lemma HexArgumentConverts(key: seq<byte>)
    requires |key| == 32
    ensures Convert(Argument(ToHex(key))) == Converted(ToHex(key), MultibaseOf(key))
  {
    var s := ToHex(key);
    assert PyStripStart(s) == s;
    assert PyStrip(s) == s;
    FromHexToHex(key);
  }

  /** A file holding a key as plain hex, without inner white space, is always taken for a secret key. */
  lemma PlainHexFileRefused(content: string)
    requires forall i | 0 <= i < |PyStrip(content)| :: !IsAsciiSpace(PyStrip(content)[i])
    ensures !Convert(ExistingFile(content)).Converted?
  {
    var hex := PyStrip(content);
    if FromHex(hex).Some? {
      FromHexLength(hex);
    }
  }
}
