// The Double Ratchet session of the client SDK: the 40-byte message header,
// the `ENC3:` wire format, and the bookkeeping of chain keys, counters and
// skipped-message keys done by encrypt, decrypt and skip_messages.
//
// The cryptography is symbolic. A key is named by how it was derived
// (HKDF and HMAC are treated as collision-free, so distinct derivations are
// distinct keys), X25519 outputs are named by the secret and public key that
// went in, and base64url, AES-256-GCM sealing/opening and UTF-8 validation
// are functions the caller supplies.

module Ratchet {
  import opened Common

  const ENC3_PREFIX: string := "ENC3:"
  const MAX_SKIP: nat := 1000
  const U32_MOD: nat := 0x1_0000_0000
  const HEADER_LEN: nat := 40
  const NONCE_LEN: nat := 12

  datatype RatchetError =
    | NotEncrypted
    | MalformedMessage
    | MalformedHeader
    | NoSendChain
    | NoReceiveChain
    | TooManySkipped
    | DecryptFailed
    | CryptoError
    | InvalidUtf8

  // ---------------------------------------------------------------------
  // The header.

  /** The sender's ratchet public key, the previous sending chain's length and the message number. */
  datatype Header = Header(ratchetKey: seq<byte>, prevChainLen: nat, msgNum: nat)

  /** The field widths: a 32-byte key and two `u32`s. */
  predicate ValidHeader(h: Header)
  {
    |h.ratchetKey| == 32 && h.prevChainLen < U32_MOD && h.msgNum < U32_MOD
  }

  /** `u32::to_be_bytes`. */
  function BigEndian32(v: nat): (r: seq<byte>)
    requires v < U32_MOD
    ensures |r| == 4
  {
    [v / 0x100_0000, (v / 0x1_0000) % 256, (v / 256) % 256, v % 256]
  }

  /** `u32::from_be_bytes`. */
  function FromBigEndian32(b: seq<byte>): (v: nat)
    requires |b| == 4
    ensures v < U32_MOD
  {
    (b[0] as int) * 0x100_0000 + (b[1] as int) * 0x1_0000 + (b[2] as int) * 256 + b[3] as int
  }

  lemma BigEndian32RoundTrip(v: nat)
    requires v < U32_MOD
    ensures FromBigEndian32(BigEndian32(v)) == v
  {
    var b := BigEndian32(v);
    assert v == (b[0] as int) * 0x100_0000 + (v % 0x100_0000);
    assert v % 0x100_0000 == (b[1] as int) * 0x1_0000 + (v % 0x1_0000);
    assert v % 0x1_0000 == (b[2] as int) * 256 + b[3] as int;
  }

  lemma BigEndian32Of(b: seq<byte>)
    requires |b| == 4
    ensures BigEndian32(FromBigEndian32(b)) == b
  {
    var v := FromBigEndian32(b);
    var low3 := (b[1] as int) * 0x1_0000 + (b[2] as int) * 256 + b[3] as int;
    var low2 := (b[2] as int) * 256 + b[3] as int;
    assert v == (b[0] as int) * 0x100_0000 + low3 && low3 < 0x100_0000;
    assert v / 0x100_0000 == b[0];
    assert v / 0x1_0000 == (b[0] as int) * 256 + b[1] as int;
    assert v / 256 == (b[0] as int) * 0x1_0000 + (b[1] as int) * 256 + b[2] as int;
    var r := BigEndian32(v);
    assert r[0] == b[0] && r[1] == b[1] && r[2] == b[2] && r[3] == b[3];
  }

  /** `Header::to_bytes`: the key, then the two counters big-endian. */
  function HeaderBytes(h: Header): (r: seq<byte>)
    requires ValidHeader(h)
    ensures |r| == HEADER_LEN
    ensures r[..32] == h.ratchetKey
    ensures FromBigEndian32(r[32..36]) == h.prevChainLen && FromBigEndian32(r[36..40]) == h.msgNum
  {
    BigEndian32RoundTrip(h.prevChainLen);
    BigEndian32RoundTrip(h.msgNum);
    var r := h.ratchetKey + BigEndian32(h.prevChainLen) + BigEndian32(h.msgNum);
    assert r[32..36] == BigEndian32(h.prevChainLen) && r[36..40] == BigEndian32(h.msgNum);
    r
  }

  /** `Header::from_bytes`: anything but exactly 40 bytes is a malformed header. */
  function HeaderFromBytes(data: seq<byte>): (r: Result<Header, RatchetError>)
    ensures r.Err? <==> |data| != HEADER_LEN
    ensures r.Err? ==> r.error == MalformedHeader
    ensures r.Ok? ==> ValidHeader(r.value) && r.value.ratchetKey == data[..32]
  {
    if |data| != HEADER_LEN then Err(MalformedHeader)
    else Ok(Header(data[..32], FromBigEndian32(data[32..36]), FromBigEndian32(data[36..40])))
  }

  /** Reading a header's bytes back gives the header. */
  lemma HeaderRoundTrip(h: Header)
    requires ValidHeader(h)
    ensures HeaderFromBytes(HeaderBytes(h)) == Ok(h)
  {
  }

  /** Every 40-byte string is the encoding of the header read from it. */
  lemma HeaderBytesRoundTrip(data: seq<byte>)
    requires |data| == HEADER_LEN
    ensures HeaderBytes(HeaderFromBytes(data).value) == data
  {
    var h := HeaderFromBytes(data).value;
    BigEndian32Of(data[32..36]);
    BigEndian32Of(data[36..40]);
    assert data == data[..32] + data[32..36] + data[36..40];
  }

  // ---------------------------------------------------------------------
  // Symbolic keys.

  /** An X25519 output, named by the secret and the public key that went in. */
  datatype DhOut = DhOut(secret: seq<byte>, public: seq<byte>)

  /** A key named by its derivation. */
  datatype Key =
    | Shared(bytes: seq<byte>)       // the X3DH shared secret
    | Root(parent: Key, dh: DhOut)   // kdf_root's new root key
    | Chain(root: Key, dh: DhOut)    // kdf_root's chain key
    | Next(prev: Key)                // kdf_chain's next chain key, HMAC(ck, 0x02)
    | Msg(chain: Key)                // kdf_chain's message key, HMAC(ck, 0x01)

  /** `kdf_root`: the new root key and a fresh chain key. */
  function KdfRoot(root: Key, dh: DhOut): (Key, Key)
  {
    (Root(root, dh), Chain(root, dh))
  }

  /** How many times a chain key has been advanced since its chain began. */
  function ChainIndex(k: Key): nat
  {
    if k.Next? then ChainIndex(k.prev) + 1 else 0
  }

  /** A chain key advanced `n` times. */
  function Advance(ck: Key, n: nat): (r: Key)
    ensures ChainIndex(r) == ChainIndex(ck) + n
  {
    if n == 0 then ck else Next(Advance(ck, n - 1))
  }

  // ---------------------------------------------------------------------
  // The wire format.

  /** The primitives the session calls into. */
  datatype Primitives = Primitives(
    encode: seq<byte> -> string,                                      // base64url, no padding
    decode: string -> Option<seq<byte>>,
    seal: (Key, seq<byte>, seq<byte>, seq<byte>) -> seq<byte>,       // AES-256-GCM: key, nonce, aad, plaintext
    open: (Key, seq<byte>, seq<byte>, seq<byte>) -> Option<seq<byte>>, // key, nonce, aad, ciphertext
    utf8: seq<byte> -> Option<string>)                                // `String::from_utf8`

  /** A base64 codec that inverts itself and never emits `':'`, as base64url does not. */
  ghost predicate GoodCodec(p: Primitives)
  {
    (forall b :: p.decode(p.encode(b)) == Some(b)) && (forall b :: ':' !in p.encode(b))
  }

  /** `is_encrypted`. */
  predicate IsEncrypted(text: string)
  {
    StartsWith(text, ENC3_PREFIX)
  }

  lemma SplitAround(s: string, i: nat)
    requires i < |s| && s[i] == ':'
    ensures s == s[..i] + [':'] + s[i + 1..]
  {
  }

  /** `splitn(3, ':')` when it yields three parts: up to the first colon, up to the second, the rest. */
  function SplitN3(body: string): (r: Option<(string, string, string)>)
    ensures r.Some? ==> body == r.value.0 + [':'] + r.value.1 + [':'] + r.value.2
    ensures r.Some? ==> ':' !in r.value.0 && ':' !in r.value.1
    ensures ':' !in body ==> r.None?
  {
    match FindChar(body, ':')
    case None => None
    case Some(i) =>
      var rest := body[i + 1..];
      match FindChar(rest, ':')
      case None => None
      case Some(j) =>
        SplitAround(body, i);
        SplitAround(rest, j);
        JoinThree(body, body[..i], rest, rest[..j], rest[j + 1..]);
        Some((body[..i], rest[..j], rest[j + 1..]))
  }

  lemma JoinThree(body: string, a: string, rest: string, b: string, c: string)
    requires body == a + [':'] + rest && rest == b + [':'] + c
    ensures body == a + [':'] + b + [':'] + c
  {
  }

  /** Three parts joined with colons, the first two colon-free, split back into themselves. */
  lemma SplitN3Of(a: string, b: string, c: string)
    requires ':' !in a && ':' !in b
    ensures SplitN3(a + [':'] + b + [':'] + c) == Some((a, b, c))
  {
    var rest := b + [':'] + c;
    var body := a + [':'] + rest;
    assert body == a + [':'] + b + [':'] + c;
    FindCharAfter(a, ':', rest);
    assert body[|a| + 1..] == rest && body[..|a|] == a;
    FindCharAfter(b, ':', c);
    assert rest[..|b|] == b && rest[|b| + 1..] == c;
  }

  /** The decoded parts of a wire message. */
  datatype Wire = Wire(header: Header, headerBytes: seq<byte>, nonce: seq<byte>, ct: seq<byte>)

  /** `ENC3:<header>:<nonce>:<ciphertext>`, each part base64url. */
  function WireText(headerBytes: seq<byte>, nonce: seq<byte>, ct: seq<byte>, p: Primitives): string
  {
    ENC3_PREFIX + p.encode(headerBytes) + [':'] + p.encode(nonce) + [':'] + p.encode(ct)
  }

  /**
   * The parsing half of `decrypt`: the prefix, three parts, each part
   * base64-decoded in order, a 12-byte nonce, and a well-formed header.
   */
  function ParseWire(wire: string, p: Primitives): (r: Result<Wire, RatchetError>)
    ensures r == Err(NotEncrypted) <==> !IsEncrypted(wire)
    ensures IsEncrypted(wire) && SplitN3(wire[|ENC3_PREFIX|..]).None? ==> r == Err(MalformedMessage)
    ensures r.Ok? ==> IsEncrypted(wire) && SplitN3(wire[|ENC3_PREFIX|..]).Some?
    ensures r.Ok? ==>
      var parts := SplitN3(wire[|ENC3_PREFIX|..]).value;
      p.decode(parts.0) == Some(r.value.headerBytes) && p.decode(parts.1) == Some(r.value.nonce) &&
      p.decode(parts.2) == Some(r.value.ct)
    ensures r.Ok? ==> |r.value.nonce| == NONCE_LEN && HeaderFromBytes(r.value.headerBytes) == Ok(r.value.header)
  {
    if !IsEncrypted(wire) then Err(NotEncrypted)
    else match SplitN3(wire[|ENC3_PREFIX|..])
      case None => Err(MalformedMessage)
      case Some(parts) =>
        match (p.decode(parts.0), p.decode(parts.1), p.decode(parts.2))
        case (Some(hb), Some(nonce), Some(ct)) =>
          if |nonce| != NONCE_LEN then Err(MalformedMessage)
          else (match HeaderFromBytes(hb)
            case Err(e) => Err(e)
            case Ok(h) => Ok(Wire(h, hb, nonce, ct)))
        case _ => Err(MalformedMessage)
  }

  /** What `encrypt` emits parses back into its header, nonce and ciphertext. */
  lemma WireRoundTrip(h: Header, nonce: seq<byte>, ct: seq<byte>, p: Primitives)
    requires ValidHeader(h) && |nonce| == NONCE_LEN && GoodCodec(p)
    ensures IsEncrypted(WireText(HeaderBytes(h), nonce, ct, p))
    ensures ParseWire(WireText(HeaderBytes(h), nonce, ct, p), p) == Ok(Wire(h, HeaderBytes(h), nonce, ct))
  {
    var hb := HeaderBytes(h);
    var wire := WireText(hb, nonce, ct, p);
    var body := p.encode(hb) + [':'] + p.encode(nonce) + [':'] + p.encode(ct);
    assert wire == ENC3_PREFIX + body;
    assert wire[|ENC3_PREFIX|..] == body;
    SplitN3Of(p.encode(hb), p.encode(nonce), p.encode(ct));
    HeaderRoundTrip(h);
  }

  // ---------------------------------------------------------------------
  // The session state and its transitions.

  const ZERO_KEY: seq<byte> := [0, 0, 0, 0, 0, 0, 0, 0, 0, 0, 0, 0, 0, 0, 0, 0, 0, 0, 0, 0, 0, 0, 0, 0, 0, 0, 0, 0, 0, 0, 0, 0]

  /** The fields of a session. `skipped` maps (ratchet key, message number) to a stored message key. */
  datatype State = State(
    dhSelfSecret: seq<byte>,
    dhSelfPublic: seq<byte>,
    dhRemote: Option<seq<byte>>,
    rootKey: Key,
    sendChainKey: Option<Key>,
    sendMsgNum: nat,
    recvChainKey: Option<Key>,
    recvMsgNum: nat,
    prevSendChainLen: nat,
    skipped: map<(seq<byte>, nat), Key>,
    isInitiator: bool)

  /** The field types: 32-byte keys and `u32` counters. */
  predicate Valid(s: State)
  {
    |s.dhSelfSecret| == 32 && |s.dhSelfPublic| == 32 &&
    (s.dhRemote.Some? ==> |s.dhRemote.value| == 32) &&
    s.sendMsgNum < U32_MOD && s.recvMsgNum < U32_MOD && s.prevSendChainLen < U32_MOD
  }

  /**
   * The counters agree with the chains: each chain key's index is its
   * counter (modulo 2^32, the counters being `u32`), and each stored key is
   * the message key for the number it is stored under.
   */
  predicate InSync(s: State)
  {
    SendInSync(s) && RecvInSync(s) && SkippedInSync(s.skipped)
  }

  predicate SendInSync(s: State)
  {
    s.sendChainKey.Some? ==> ChainIndex(s.sendChainKey.value) % U32_MOD == s.sendMsgNum
  }

  predicate RecvInSync(s: State)
  {
    s.recvChainKey.Some? ==> ChainIndex(s.recvChainKey.value) % U32_MOD == s.recvMsgNum
  }

  predicate SkippedInSync(skipped: map<(seq<byte>, nat), Key>)
  {
    forall id | id in skipped :: skipped[id].Msg? && ChainIndex(skipped[id].chain) % U32_MOD == id.1
  }

  lemma ModAdd(x: nat, d: nat)
    ensures (x + d) % U32_MOD == (x % U32_MOD + d) % U32_MOD
  {
    var q := x / U32_MOD;
    assert x == q * U32_MOD + x % U32_MOD;
    assert x + d == q * U32_MOD + (x % U32_MOD + d);
  }

  /** A chain in step with `from`, advanced `d` more steps without passing 2^32, is in step with `from + d`. */
  lemma AdvanceInStep(ck: Key, from: nat, d: nat)
    requires ChainIndex(ck) % U32_MOD == from && from + d < U32_MOD
    ensures ChainIndex(Advance(ck, d)) % U32_MOD == from + d
  {
    ModAdd(ChainIndex(ck), d);
  }

  /** Moving a counter by less than a full turn changes it. */
  lemma ModOffset(x: nat, d: nat)
    requires 0 < d < U32_MOD
    ensures (x + d) % U32_MOD != x % U32_MOD
  {
    ModAdd(x, d);
    var r := x % U32_MOD;
    if r + d < U32_MOD {
      assert (r + d) % U32_MOD == r + d;
    } else {
      assert (r + d) % U32_MOD == r + d - U32_MOD;
    }
  }

  /** `init_alice`: the first DH step with Bob's ratchet key gives a sending chain; no receiving chain yet. */
  function AliceState(shared: seq<byte>, theirRatchetKey: seq<byte>, ourSecret: seq<byte>, ourPublic: seq<byte>): (s: State)
    requires |shared| == 32 && |theirRatchetKey| == 32 && |ourSecret| == 32 && |ourPublic| == 32
    ensures Valid(s) && InSync(s)
    ensures s.sendChainKey.Some? && s.recvChainKey.None? && s.dhRemote == Some(theirRatchetKey)
  {
    var (root, send) := KdfRoot(Shared(shared), DhOut(ourSecret, theirRatchetKey));
    State(ourSecret, ourPublic, Some(theirRatchetKey), root, Some(send), 0, None, 0, 0, map[], true)
  }

  /** `init_bob`: no chains until Alice's first message arrives. */
  function BobState(shared: seq<byte>, ourSecret: seq<byte>, ourPublic: seq<byte>): (s: State)
    requires |shared| == 32 && |ourSecret| == 32 && |ourPublic| == 32
    ensures Valid(s) && InSync(s)
    ensures s.sendChainKey.None? && s.recvChainKey.None? && s.dhRemote.None?
  {
    State(ourSecret, ourPublic, None, Shared(shared), None, 0, None, 0, 0, map[], false)
  }

  /** The header `encrypt` stamps: our ratchet key and the current counters. */
  function SendHeader(s: State): (h: Header)
    requires Valid(s)
    ensures ValidHeader(h)
  {
    Header(s.dhSelfPublic, s.prevSendChainLen, s.sendMsgNum)
  }

  /**
   * `encrypt`: without a sending chain, NoSendChain and no change.
   * Otherwise the chain advances, the header carries the current message
   * number, the counter goes up by one (`u32` arithmetic), and the
   * plaintext is sealed under the chain's message key with the header as
   * associated data.
   */
  function EncryptStep(s: State, plaintext: string, nonce: seq<byte>, p: Primitives): (r: (State, Result<string, RatchetError>))
    requires Valid(s)
    ensures r.1.Err? <==> s.sendChainKey.None?
    ensures r.1.Err? ==> r.0 == s && r.1.error == NoSendChain
    ensures r.1.Ok? ==>
      var ck := s.sendChainKey.value;
      r.0 == s.(sendChainKey := Some(Next(ck)), sendMsgNum := (s.sendMsgNum + 1) % U32_MOD) &&
      r.1.value == WireText(HeaderBytes(SendHeader(s)), nonce, p.seal(Msg(ck), nonce, HeaderBytes(SendHeader(s)), Utf8(plaintext)), p)
  {
    match s.sendChainKey
    case None => (s, Err(NoSendChain))
    case Some(ck) =>
      var hb := HeaderBytes(SendHeader(s));
      var ct := p.seal(Msg(ck), nonce, hb, Utf8(plaintext));
      (s.(sendChainKey := Some(Next(ck)), sendMsgNum := (s.sendMsgNum + 1) % U32_MOD), Ok(WireText(hb, nonce, ct, p)))
  }

  /**
   * Encrypting keeps the session in sync, and the message is sealed under
   * the key whose chain index is the message number in its header.
   */
  lemma EncryptKeepsSync(s: State, plaintext: string, nonce: seq<byte>, p: Primitives)
    requires Valid(s) && InSync(s) && s.sendChainKey.Some?
    ensures Valid(EncryptStep(s, plaintext, nonce, p).0) && InSync(EncryptStep(s, plaintext, nonce, p).0)
    ensures ChainIndex(s.sendChainKey.value) % U32_MOD == SendHeader(s).msgNum
  {
    var s2 := EncryptStep(s, plaintext, nonce, p).0;
    var ck := s.sendChainKey.value;
    ModAdd(ChainIndex(ck), 1);
    assert SendInSync(s2);
  }

  /** The receiver parses back exactly the header, nonce and ciphertext `encrypt` put on the wire. */
  lemma EncryptWireParses(s: State, plaintext: string, nonce: seq<byte>, p: Primitives)
    requires Valid(s) && s.sendChainKey.Some? && |nonce| == NONCE_LEN && GoodCodec(p)
    ensures EncryptStep(s, plaintext, nonce, p).1.Ok?
    ensures IsEncrypted(EncryptStep(s, plaintext, nonce, p).1.value)
    ensures ParseWire(EncryptStep(s, plaintext, nonce, p).1.value, p) ==
      Ok(Wire(SendHeader(s), HeaderBytes(SendHeader(s)), nonce,
              p.seal(Msg(s.sendChainKey.value), nonce, HeaderBytes(SendHeader(s)), Utf8(plaintext))))
  {
    var hb := HeaderBytes(SendHeader(s));
    WireRoundTrip(SendHeader(s), nonce, p.seal(Msg(s.sendChainKey.value), nonce, hb, Utf8(plaintext)), p);
  }

  /** The keys `skip_messages` stores: message numbers `from .. until-1`, each with the key that many steps along the chain. */
  function SkipKeys(skipped: map<(seq<byte>, nat), Key>, rk: seq<byte>, ck: Key, from: nat, until: nat): map<(seq<byte>, nat), Key>
    decreases until
  {
    if until <= from then skipped
    else SkipKeys(skipped, rk, ck, from, until - 1)[(rk, until - 1) := Msg(Advance(ck, until - 1 - from))]
  }

  /**
   * `skip_messages`: nothing when `until < from`; TooManySkipped (and no
   * change) when more than MAX_SKIP would be stored; otherwise the keys are
   * stored and the receiving chain points past them.
   */
  function SkipState(s: State, rk: seq<byte>, ck: Key, from: nat, until: nat): (r: Result<State, RatchetError>)
    ensures until < from ==> r == Ok(s)
    ensures r.Err? <==> from <= until && until - from > MAX_SKIP
    ensures r.Err? ==> r.error == TooManySkipped
    ensures r.Ok? && from <= until ==>
      r.value == s.(skipped := SkipKeys(s.skipped, rk, ck, from, until), recvChainKey := Some(Advance(ck, until - from)))
  {
    if until < from then Ok(s)
    else if until - from > MAX_SKIP then Err(TooManySkipped)
    else Ok(s.(skipped := SkipKeys(s.skipped, rk, ck, from, until), recvChainKey := Some(Advance(ck, until - from))))
  }

  /** Skipping stores one key under each skipped number and leaves every other stored key alone. */
  lemma {:induction false} SkipKeysStored(skipped: map<(seq<byte>, nat), Key>, rk: seq<byte>, ck: Key, from: nat, until: nat)
    ensures forall n: nat | from <= n < until ::
      (rk, n) in SkipKeys(skipped, rk, ck, from, until) && SkipKeys(skipped, rk, ck, from, until)[(rk, n)] == Msg(Advance(ck, n - from))
    ensures forall id | id in skipped && !(id.0 == rk && from <= id.1 < until) ::
      id in SkipKeys(skipped, rk, ck, from, until) && SkipKeys(skipped, rk, ck, from, until)[id] == skipped[id]
    ensures forall id | id in SkipKeys(skipped, rk, ck, from, until) :: id in skipped || (id.0 == rk && from <= id.1 < until)
    decreases until
  {
    if from < until {
      SkipKeysStored(skipped, rk, ck, from, until - 1);
    }
  }

  /** Different numbers of steps along a chain give different keys, so every skipped message has its own key. */
  lemma AdvanceInjective(ck: Key, i: nat, j: nat)
    requires i != j
    ensures Advance(ck, i) != Advance(ck, j)
  {
    assert ChainIndex(Advance(ck, i)) != ChainIndex(Advance(ck, j));
  }

  /**
   * The DH ratchet step of `decrypt` on a new remote key: a receiving
   * chain from our current secret, a fresh key pair (drawn by the caller),
   * and a sending chain from the fresh secret.
   */
  function DhStep(s: State, their: seq<byte>, newSecret: seq<byte>, newPublic: seq<byte>): State
  {
    var (root1, recv) := KdfRoot(s.rootKey, DhOut(s.dhSelfSecret, their));
    var (root2, send) := KdfRoot(root1, DhOut(newSecret, their));
    s.(dhRemote := Some(their), rootKey := root2, recvChainKey := Some(recv), recvMsgNum := 0,
       prevSendChainLen := s.sendMsgNum, sendMsgNum := 0, dhSelfSecret := newSecret, dhSelfPublic := newPublic,
       sendChainKey := Some(send))
  }

  /** On a changed remote key: skip what is left of the old receiving chain, then the DH step. */
  function RatchetState(s: State, h: Header, newSecret: seq<byte>, newPublic: seq<byte>): (r: Result<State, RatchetError>)
    ensures r.Err? ==> r.error == TooManySkipped
  {
    var skipped := if s.recvChainKey.Some?
      then SkipState(s, s.dhRemote.UnwrapOr(ZERO_KEY), s.recvChainKey.value, s.recvMsgNum, h.prevChainLen)
      else Ok(s);
    match skipped
    case Err(e) => Err(e)
    case Ok(s1) => Ok(DhStep(s1, h.ratchetKey, newSecret, newPublic))
  }

  /** `decrypt_with_key`: AES-GCM open with the header as associated data, then UTF-8. */
  function Open(p: Primitives, key: Key, w: Wire): Result<string, RatchetError>
  {
    match p.open(key, w.nonce, w.headerBytes, w.ct)
    case None => Err(DecryptFailed)
    case Some(bytes) =>
      match p.utf8(bytes)
      case None => Err(InvalidUtf8)
      case Some(text) => Ok(text)
  }

  /** What a decrypt leaves behind: the new state, the result, and the message key it opened with. */
  datatype Outcome = Outcome(state: State, result: Result<string, RatchetError>, key: Option<Key>)

  /**
   * The receiving-chain half of `decrypt`, as written: skip up to the
   * message number, take the next message key, and set the counter to one
   * past the message number.
   */
  function ReceiveOnChain(s: State, w: Wire, p: Primitives): (o: Outcome)
  {
    match s.recvChainKey
    case None => Outcome(s, Err(NoReceiveChain), None)
    case Some(ck0) =>
      match SkipState(s, w.header.ratchetKey, ck0, s.recvMsgNum, w.header.msgNum)
      case Err(e) => Outcome(s, Err(e), None)
      case Ok(s2) =>
        var ck := s2.recvChainKey.value;
        Outcome(s2.(recvChainKey := Some(Next(ck)), recvMsgNum := (w.header.msgNum + 1) % U32_MOD),
                Open(p, Msg(ck), w), Some(Msg(ck)))
  }

  /**
   * `decrypt` as written: parse; a stored skipped key is removed and used;
   * otherwise a changed remote key triggers the DH ratchet step, and the
   * message is taken from the receiving chain.
   */
  function DecryptStep(s: State, wire: string, p: Primitives, newSecret: seq<byte>, newPublic: seq<byte>): (o: Outcome)
  {
    match ParseWire(wire, p)
    case Err(e) => Outcome(s, Err(e), None)
    case Ok(w) =>
      var id := (w.header.ratchetKey, w.header.msgNum);
      if id in s.skipped then
        Outcome(s.(skipped := s.skipped - {id}), Open(p, s.skipped[id], w), Some(s.skipped[id]))
      else if s.dhRemote != Some(w.header.ratchetKey) then
        match RatchetState(s, w.header, newSecret, newPublic)
        case Err(e) => Outcome(s, Err(e), None)
        case Ok(s1) => ReceiveOnChain(s1, w, p)
      else ReceiveOnChain(s, w, p)
  }

  // ---------------------------------------------------------------------
  // What decrypt does, and what it keeps.

  /** A message that does not carry the `ENC3:` prefix is refused and changes nothing. */
  lemma DecryptNotEncrypted(s: State, wire: string, p: Primitives, newSecret: seq<byte>, newPublic: seq<byte>)
    requires !IsEncrypted(wire)
    ensures DecryptStep(s, wire, p, newSecret, newPublic) == Outcome(s, Err(NotEncrypted), None)
  {
  }

  /** Any parse failure (missing part, bad base64, nonce not 12 bytes, header not 40 bytes) changes nothing. */
  lemma DecryptMalformed(s: State, wire: string, p: Primitives, newSecret: seq<byte>, newPublic: seq<byte>)
    requires ParseWire(wire, p).Err?
    ensures DecryptStep(s, wire, p, newSecret, newPublic) == Outcome(s, Err(ParseWire(wire, p).error), None)
  {
  }

  /**
   * A stored skipped key is used for its message and removed at once,
   * whether or not the message then opens: the same wire message cannot
   * use it a second time.
   */
  lemma SkippedKeyConsumed(s: State, wire: string, p: Primitives, newSecret: seq<byte>, newPublic: seq<byte>, w: Wire)
    requires ParseWire(wire, p) == Ok(w) && (w.header.ratchetKey, w.header.msgNum) in s.skipped
    ensures var id := (w.header.ratchetKey, w.header.msgNum);
      var o := DecryptStep(s, wire, p, newSecret, newPublic);
      o.key == Some(s.skipped[id]) && o.result == Open(p, s.skipped[id], w) &&
      o.state == s.(skipped := s.skipped - {id}) && id !in o.state.skipped
  {
  }

  /** Keys stored by a skip that starts from a chain in step with `from` are in sync with their numbers. */
  lemma {:induction false} SkipKeysInSync(skipped: map<(seq<byte>, nat), Key>, rk: seq<byte>, ck: Key, from: nat, until: nat)
    requires SkippedInSync(skipped) && ChainIndex(ck) % U32_MOD == from && until <= U32_MOD
    ensures SkippedInSync(SkipKeys(skipped, rk, ck, from, until))
    decreases until
  {
    if from < until {
      SkipKeysInSync(skipped, rk, ck, from, until - 1);
      AdvanceInStep(ck, from, until - 1 - from);
    }
  }

  /** Skipping keeps the stored keys in sync when it starts from the receiving counter, and leaves the chain at `until`. */
  lemma SkipKeepsSync(s: State, rk: seq<byte>, until: nat)
    requires InSync(s) && s.recvChainKey.Some? && until < U32_MOD
    ensures var r := SkipState(s, rk, s.recvChainKey.value, s.recvMsgNum, until);
      r.Ok? ==> (SendInSync(r.value) && SkippedInSync(r.value.skipped) && r.value.recvMsgNum == s.recvMsgNum &&
        r.value.sendChainKey == s.sendChainKey && r.value.recvChainKey.Some? &&
        (s.recvMsgNum <= until ==> ChainIndex(r.value.recvChainKey.value) % U32_MOD == until))
  {
    var ck := s.recvChainKey.value;
    var from := s.recvMsgNum;
    if from <= until && until - from <= MAX_SKIP {
      SkipKeysInSync(s.skipped, rk, ck, from, until);
      AdvanceInStep(ck, from, until - from);
    }
  }

  /** The receiving half of decrypt with the check freeq omits: a number below the counter whose key is not stored is refused. */
  function ReceiveOnChainChecked(s: State, w: Wire, p: Primitives): (o: Outcome)
  {
    if s.recvChainKey.Some? && w.header.msgNum < s.recvMsgNum then Outcome(s, Err(DecryptFailed), None)
    else ReceiveOnChain(s, w, p)
  }

  /** `decrypt` with that check in place; everything else as written. */
  function DecryptChecked(s: State, wire: string, p: Primitives, newSecret: seq<byte>, newPublic: seq<byte>): (o: Outcome)
  {
    match ParseWire(wire, p)
    case Err(e) => Outcome(s, Err(e), None)
    case Ok(w) =>
      var id := (w.header.ratchetKey, w.header.msgNum);
      if id in s.skipped then
        Outcome(s.(skipped := s.skipped - {id}), Open(p, s.skipped[id], w), Some(s.skipped[id]))
      else if s.dhRemote != Some(w.header.ratchetKey) then
        match RatchetState(s, w.header, newSecret, newPublic)
        case Err(e) => Outcome(s, Err(e), None)
        case Ok(s1) => ReceiveOnChainChecked(s1, w, p)
      else ReceiveOnChainChecked(s, w, p)
  }

  /** The checked receive keeps the session in sync and opens with the key for the message's own number. */
  lemma ReceiveCheckedKeepsSync(s: State, w: Wire, p: Primitives)
    requires Valid(s) && InSync(s) && ValidHeader(w.header)
    ensures var o := ReceiveOnChainChecked(s, w, p);
      Valid(o.state) && InSync(o.state) &&
      (o.key.Some? ==> o.key.value.Msg? && ChainIndex(o.key.value.chain) % U32_MOD == w.header.msgNum)
  {
    if s.recvChainKey.Some? && s.recvMsgNum <= w.header.msgNum {
      SkipKeepsSync(s, w.header.ratchetKey, w.header.msgNum);
      var r := SkipState(s, w.header.ratchetKey, s.recvChainKey.value, s.recvMsgNum, w.header.msgNum);
      if r.Ok? {
        var ck := r.value.recvChainKey.value;
        ModAdd(ChainIndex(ck), 1);
      }
    }
  }

  /** The DH ratchet step restarts both chains at zero and keeps the stored keys in sync. */
  lemma RatchetKeepsSync(s: State, h: Header, newSecret: seq<byte>, newPublic: seq<byte>)
    requires Valid(s) && InSync(s) && ValidHeader(h) && |newSecret| == 32 && |newPublic| == 32
    ensures var r := RatchetState(s, h, newSecret, newPublic);
      r.Ok? ==> Valid(r.value) && InSync(r.value) && r.value.recvMsgNum == 0
  {
    if s.recvChainKey.Some? {
      SkipKeepsSync(s, s.dhRemote.UnwrapOr(ZERO_KEY), h.prevChainLen);
    }
  }

  /**
   * With the check, every decrypt keeps the session valid and in sync, and
   * whatever key it opens with is the message key for the number in the
   * message's header.
   */
  lemma DecryptCheckedKeepsSync(s: State, wire: string, p: Primitives, newSecret: seq<byte>, newPublic: seq<byte>)
    requires Valid(s) && InSync(s) && |newSecret| == 32 && |newPublic| == 32
    ensures var o := DecryptChecked(s, wire, p, newSecret, newPublic);
      Valid(o.state) && InSync(o.state) &&
      (o.key.Some? ==> (ParseWire(wire, p).Ok? && o.key.value.Msg? &&
        ChainIndex(o.key.value.chain) % U32_MOD == ParseWire(wire, p).value.header.msgNum))
  {
    match ParseWire(wire, p)
    case Err(_) =>
    case Ok(w) =>
      var id := (w.header.ratchetKey, w.header.msgNum);
      if id in s.skipped {
      } else if s.dhRemote != Some(w.header.ratchetKey) {
        RatchetKeepsSync(s, w.header, newSecret, newPublic);
        match RatchetState(s, w.header, newSecret, newPublic)
        case Err(_) =>
        case Ok(s1) => ReceiveCheckedKeepsSync(s1, w, p);
      } else {
        ReceiveCheckedKeepsSync(s, w, p);
      }
  }

  /** With the check, a replayed message whose key was used on the chain is refused and changes nothing. */
  lemma DecryptCheckedRefusesReplay(s: State, wire: string, p: Primitives, newSecret: seq<byte>, newPublic: seq<byte>, w: Wire)
    requires ParseWire(wire, p) == Ok(w) && (w.header.ratchetKey, w.header.msgNum) !in s.skipped
    requires s.dhRemote == Some(w.header.ratchetKey) && s.recvChainKey.Some? && w.header.msgNum < s.recvMsgNum
    ensures DecryptChecked(s, wire, p, newSecret, newPublic) == Outcome(s, Err(DecryptFailed), None)
  {
  }

  /**
   * As written, the same replay is not refused: it advances the receiving
   * chain and moves the counter back to one past the replayed number, so
   * the session is out of sync, and it opens with a key that is not the
   * replayed message's key.
   */
  lemma ReplayBreaksSync(s: State, wire: string, p: Primitives, newSecret: seq<byte>, newPublic: seq<byte>, w: Wire)
    requires InSync(s)
    requires ParseWire(wire, p) == Ok(w) && (w.header.ratchetKey, w.header.msgNum) !in s.skipped
    requires s.dhRemote == Some(w.header.ratchetKey) && s.recvChainKey.Some? && w.header.msgNum < s.recvMsgNum
    ensures var o := DecryptStep(s, wire, p, newSecret, newPublic);
      o.state.recvMsgNum == w.header.msgNum + 1 && !RecvInSync(o.state) &&
      o.key == Some(Msg(s.recvChainKey.value)) && ChainIndex(s.recvChainKey.value) % U32_MOD != w.header.msgNum
  {
    DecryptOnChain(s, wire, p, newSecret, newPublic, w);
    ReceiveReplay(s, w, p);
  }

  /** On an unchanged remote key with no stored key, decrypt is the receive on the current chain. */
  lemma DecryptOnChain(s: State, wire: string, p: Primitives, newSecret: seq<byte>, newPublic: seq<byte>, w: Wire)
    requires ParseWire(wire, p) == Ok(w) && (w.header.ratchetKey, w.header.msgNum) !in s.skipped
    requires s.dhRemote == Some(w.header.ratchetKey)
    ensures DecryptStep(s, wire, p, newSecret, newPublic) == ReceiveOnChain(s, w, p)
  {
  }

  /** The receive on the chain, as written, for a number below the counter: one step along, counter set back, current key used. */
  lemma ReceiveReplay(s: State, w: Wire, p: Primitives)
    requires RecvInSync(s) && s.recvChainKey.Some? && w.header.msgNum < s.recvMsgNum
    ensures var ck := s.recvChainKey.value;
      var o := ReceiveOnChain(s, w, p);
      o.state == s.(recvChainKey := Some(Next(ck)), recvMsgNum := w.header.msgNum + 1) &&
      o.key == Some(Msg(ck)) && !RecvInSync(o.state) && ChainIndex(ck) % U32_MOD != w.header.msgNum
  {
    var ck := s.recvChainKey.value;
    ModAdd(ChainIndex(ck), 1);
    assert (s.recvMsgNum + 1) % U32_MOD != w.header.msgNum + 1 by {
      if s.recvMsgNum + 1 < U32_MOD {
        assert (s.recvMsgNum + 1) % U32_MOD == s.recvMsgNum + 1;
      }
    }
  }

  /** Receiving message `m` on a chain whose counter is `from`, within the skip bound, opens with the key `m - from` steps along. */
  lemma ReceiveKey(s: State, w: Wire, p: Primitives)
    requires s.recvChainKey.Some? && s.recvMsgNum <= w.header.msgNum && w.header.msgNum - s.recvMsgNum <= MAX_SKIP
    ensures ReceiveOnChain(s, w, p).key == Some(Msg(Advance(s.recvChainKey.value, w.header.msgNum - s.recvMsgNum)))
  {
  }

  /**
   * And the damage lasts: after that replay, the next message in order
   * (number equal to the old counter, not stored as skipped) is either
   * refused for skipping too many or opened with a key that is not its own.
   */
  lemma ReplayThenNextMisses(s: State, replay: string, next: string, p: Primitives,
                             newSecret: seq<byte>, newPublic: seq<byte>, w1: Wire, w2: Wire)
    requires InSync(s)
    requires ParseWire(replay, p) == Ok(w1) && (w1.header.ratchetKey, w1.header.msgNum) !in s.skipped
    requires s.dhRemote == Some(w1.header.ratchetKey) && s.recvChainKey.Some? && w1.header.msgNum < s.recvMsgNum
    requires ParseWire(next, p) == Ok(w2) && w2.header.ratchetKey == w1.header.ratchetKey && w2.header.msgNum == s.recvMsgNum
    requires (w2.header.ratchetKey, w2.header.msgNum) !in s.skipped
    ensures var s1 := DecryptStep(s, replay, p, newSecret, newPublic).state;
      var o := DecryptStep(s1, next, p, newSecret, newPublic);
      o.result == Err(TooManySkipped) ||
      (o.key.Some? && o.key.value.Msg? && ChainIndex(o.key.value.chain) % U32_MOD != w2.header.msgNum)
  {
    var ck := s.recvChainKey.value;
    var n := w1.header.msgNum;
    var big := s.recvMsgNum;
    DecryptOnChain(s, replay, p, newSecret, newPublic, w1);
    ReceiveReplay(s, w1, p);
    var s1 := DecryptStep(s, replay, p, newSecret, newPublic).state;
    DecryptOnChain(s1, next, p, newSecret, newPublic, w2);
    ReplayNextKey(s1, ck, big, w2, p);
  }

  lemma ReplayNextKey(s1: State, ck: Key, big: nat, w2: Wire, p: Primitives)
    requires ChainIndex(ck) % U32_MOD == big && s1.recvChainKey == Some(Next(ck)) && s1.recvMsgNum <= big
    requires w2.header.msgNum == big
    ensures var o := ReceiveOnChain(s1, w2, p);
      o.result == Err(TooManySkipped) ||
      (o.key.Some? && o.key.value.Msg? && ChainIndex(o.key.value.chain) % U32_MOD != big)
  {
    var n1 := s1.recvMsgNum;
    if big - n1 <= MAX_SKIP {
      ReceiveKey(s1, w2, p);
      var d := big - n1 + 1;
      var k := Advance(Next(ck), big - n1);
      assert ChainIndex(k) == ChainIndex(ck) + d;
      OffsetFromStep(ChainIndex(ck), big, d);
    }
  }

  lemma OffsetFromStep(x: nat, big: nat, d: nat)
    requires x % U32_MOD == big && 0 < d <= MAX_SKIP + 1
    ensures (x + d) % U32_MOD != big
  {
    ModOffset(x, d);
  }

  /** AES-GCM opens what it sealed under the same key, nonce and associated data; UTF-8 decoding reads back encoded text. */
  ghost predicate GoodAead(p: Primitives)
  {
    (forall k, n, aad, pt :: p.open(k, n, aad, p.seal(k, n, aad, pt)) == Some(pt)) &&
    (forall t :: p.utf8(Utf8(t)) == Some(t))
  }

  /** The receiver's chain for the sender's ratchet key is at the very point of the sender's sending chain. */
  predicate Aligned(sender: State, receiver: State)
  {
    sender.sendChainKey.Some? && receiver.dhRemote == Some(sender.dhSelfPublic) &&
    receiver.recvChainKey == sender.sendChainKey && receiver.recvMsgNum == sender.sendMsgNum &&
    (sender.dhSelfPublic, sender.sendMsgNum) !in receiver.skipped
  }

  /**
   * In-order delivery on aligned chains: the receiver gets the plaintext
   * back, and both chains step together, so they stay aligned for the
   * next message.
   */
  lemma EncryptThenDecrypt(a: State, b: State, plaintext: string, nonce: seq<byte>, p: Primitives,
                           newSecret: seq<byte>, newPublic: seq<byte>)
    requires Valid(a) && Aligned(a, b) && |nonce| == NONCE_LEN && GoodCodec(p) && GoodAead(p)
    ensures var e := EncryptStep(a, plaintext, nonce, p);
      e.1.Ok? &&
      DecryptStep(b, e.1.value, p, newSecret, newPublic) ==
        Outcome(b.(recvChainKey := e.0.sendChainKey, recvMsgNum := e.0.sendMsgNum), Ok(plaintext), Some(Msg(a.sendChainKey.value)))
  {
    SentWireFits(a, b, plaintext, nonce, p);
    var e := EncryptStep(a, plaintext, nonce, p);
    DeliverAfter(b, e.1.value, SentWire(a, plaintext, nonce, p), a.sendChainKey.value, plaintext, p,
                 newSecret, newPublic, e.0);
  }

  /** The wire message `encrypt` sends from `s`: its header, the nonce and the sealed plaintext. */
  function SentWire(s: State, plaintext: string, nonce: seq<byte>, p: Primitives): Wire
    requires Valid(s) && s.sendChainKey.Some?
  {
    var hb := HeaderBytes(SendHeader(s));
    Wire(SendHeader(s), hb, nonce, p.seal(Msg(s.sendChainKey.value), nonce, hb, Utf8(plaintext)))
  }

  /** On aligned chains the sent message parses back and is the one the receiver expects next. */
  lemma SentWireFits(a: State, b: State, plaintext: string, nonce: seq<byte>, p: Primitives)
    requires Valid(a) && Aligned(a, b) && |nonce| == NONCE_LEN && GoodCodec(p)
    ensures var e := EncryptStep(a, plaintext, nonce, p);
      var w := SentWire(a, plaintext, nonce, p);
      var ck := a.sendChainKey.value;
      e.1.Ok? && ParseWire(e.1.value, p) == Ok(w) &&
      b.dhRemote == Some(w.header.ratchetKey) && (w.header.ratchetKey, w.header.msgNum) !in b.skipped &&
      b.recvChainKey == Some(ck) && w.header.msgNum == b.recvMsgNum &&
      w.ct == p.seal(Msg(ck), w.nonce, w.headerBytes, Utf8(plaintext)) &&
      e.0.sendChainKey == Some(Next(ck)) && e.0.sendMsgNum == (b.recvMsgNum + 1) % U32_MOD
  {
    EncryptWireParses(a, plaintext, nonce, p);
  }

  /** DeliverInOrder, with the receiving chain's new position read off the sender's state after the step. */
  lemma DeliverAfter(b: State, wire: string, w: Wire, ck: Key, plaintext: string, p: Primitives,
                     newSecret: seq<byte>, newPublic: seq<byte>, sender: State)
    requires ParseWire(wire, p) == Ok(w) && GoodAead(p)
    requires b.dhRemote == Some(w.header.ratchetKey) && (w.header.ratchetKey, w.header.msgNum) !in b.skipped
    requires b.recvChainKey == Some(ck) && w.header.msgNum == b.recvMsgNum
    requires w.ct == p.seal(Msg(ck), w.nonce, w.headerBytes, Utf8(plaintext))
    requires sender.sendChainKey == Some(Next(ck)) && sender.sendMsgNum == (b.recvMsgNum + 1) % U32_MOD
    ensures DecryptStep(b, wire, p, newSecret, newPublic)
      == Outcome(b.(recvChainKey := sender.sendChainKey, recvMsgNum := sender.sendMsgNum), Ok(plaintext), Some(Msg(ck)))
  {
    DeliverInOrder(b, wire, w, ck, plaintext, p, newSecret, newPublic);
  }

  /** A parsed message on the receiver's current ratchet key, numbered as expected, sealed under the chain's key. */
  lemma DeliverInOrder(b: State, wire: string, w: Wire, ck: Key, plaintext: string, p: Primitives,
                       newSecret: seq<byte>, newPublic: seq<byte>)
    requires ParseWire(wire, p) == Ok(w) && GoodAead(p)
    requires b.dhRemote == Some(w.header.ratchetKey) && (w.header.ratchetKey, w.header.msgNum) !in b.skipped
    requires b.recvChainKey == Some(ck) && w.header.msgNum == b.recvMsgNum
    requires w.ct == p.seal(Msg(ck), w.nonce, w.headerBytes, Utf8(plaintext))
    ensures DecryptStep(b, wire, p, newSecret, newPublic)
      == Outcome(b.(recvChainKey := Some(Next(ck)), recvMsgNum := (b.recvMsgNum + 1) % U32_MOD), Ok(plaintext), Some(Msg(ck)))
  {
    DecryptOnChain(b, wire, p, newSecret, newPublic, w);
    ReceiveInOrder(b, w, p);
    SealThenOpen(p, ck, w, plaintext);
  }

  /** The message the receiving chain expects next: no key is skipped and the chain moves one step. */
  lemma ReceiveInOrder(s: State, w: Wire, p: Primitives)
    requires s.recvChainKey.Some? && w.header.msgNum == s.recvMsgNum
    ensures var ck := s.recvChainKey.value;
      var o := ReceiveOnChain(s, w, p);
      o.state == s.(recvChainKey := Some(Next(ck)), recvMsgNum := (s.recvMsgNum + 1) % U32_MOD) &&
      o.result == Open(p, Msg(ck), w)
  {
    var ck := s.recvChainKey.value;
    assert SkipKeys(s.skipped, w.header.ratchetKey, ck, s.recvMsgNum, s.recvMsgNum) == s.skipped;
    assert Advance(ck, 0) == ck;
    assert s.(skipped := s.skipped, recvChainKey := Some(ck)) == s;
  }

  /** A sealed plaintext opens under the same key, nonce and header. */
  lemma SealThenOpen(p: Primitives, ck: Key, w: Wire, plaintext: string)
    requires GoodAead(p) && w.ct == p.seal(Msg(ck), w.nonce, w.headerBytes, Utf8(plaintext))
    ensures Open(p, Msg(ck), w) == Ok(plaintext)
  {
  }

  // ---------------------------------------------------------------------
  // The session object, updated in place.

  /** The loop of `skip_messages`: one key stored per number, the chain advanced once per key. */
  method SkipLoop(skipped: map<(seq<byte>, nat), Key>, rk: seq<byte>, ck: Key, from: nat, until: nat)
    returns (stored: map<(seq<byte>, nat), Key>, chain: Key)
    requires from <= until
    ensures stored == SkipKeys(skipped, rk, ck, from, until) && chain == Advance(ck, until - from)
  {
    chain := ck;
    stored := skipped;
    for n := from to until
      invariant chain == Advance(ck, n - from)
      invariant stored == SkipKeys(skipped, rk, ck, from, n)
    {
      stored := stored[(rk, n) := Msg(chain)];
      chain := Next(chain);
    }
  }

  /** `Session`: one peer's Double Ratchet state. */
  class Session {
    var dhSelfSecret: seq<byte>
    var dhSelfPublic: seq<byte>
    var dhRemote: Option<seq<byte>>
    var rootKey: Key
    var sendChainKey: Option<Key>
    var sendMsgNum: nat
    var recvChainKey: Option<Key>
    var recvMsgNum: nat
    var prevSendChainLen: nat
    var skipped: map<(seq<byte>, nat), Key>
    var isInitiator: bool

    /** The fields as one value, to compare with the step functions. */
    function Snapshot(): State
      reads this
    {
      State(dhSelfSecret, dhSelfPublic, dhRemote, rootKey, sendChainKey, sendMsgNum,
            recvChainKey, recvMsgNum, prevSendChainLen, skipped, isInitiator)
    }

    /** `init_alice`: the initial DH step against Bob's ratchet key, with a fresh key pair drawn by the caller. */
    constructor InitAlice(shared: seq<byte>, theirRatchetKey: seq<byte>, ourSecret: seq<byte>, ourPublic: seq<byte>)
      requires |shared| == 32 && |theirRatchetKey| == 32 && |ourSecret| == 32 && |ourPublic| == 32
      ensures Snapshot() == AliceState(shared, theirRatchetKey, ourSecret, ourPublic)
      ensures Valid(Snapshot()) && InSync(Snapshot())
    {
      var (root, send) := KdfRoot(Shared(shared), DhOut(ourSecret, theirRatchetKey));
      dhSelfSecret, dhSelfPublic, dhRemote := ourSecret, ourPublic, Some(theirRatchetKey);
      rootKey, sendChainKey, sendMsgNum := root, Some(send), 0;
      recvChainKey, recvMsgNum, prevSendChainLen := None, 0, 0;
      skipped, isInitiator := map[], true;
    }

    /** `init_bob`: our signed pre-key is the first ratchet key; the shared secret is the root key. */
    constructor InitBob(shared: seq<byte>, ourSecret: seq<byte>, ourPublic: seq<byte>)
      requires |shared| == 32 && |ourSecret| == 32 && |ourPublic| == 32
      ensures Snapshot() == BobState(shared, ourSecret, ourPublic)
      ensures Valid(Snapshot()) && InSync(Snapshot())
    {
      dhSelfSecret, dhSelfPublic, dhRemote := ourSecret, ourPublic, None;
      rootKey, sendChainKey, sendMsgNum := Shared(shared), None, 0;
      recvChainKey, recvMsgNum, prevSendChainLen := None, 0, 0;
      skipped, isInitiator := map[], false;
    }

    /** `our_public_key`. */
    function OurPublicKey(): (r: seq<byte>)
      reads this
      requires Valid(Snapshot())
      ensures |r| == 32 && r == Snapshot().dhSelfPublic
    {
      dhSelfPublic
    }

    /** `encrypt`: the nonce is drawn by the caller. */
    method Encrypt(plaintext: string, nonce: seq<byte>, p: Primitives) returns (r: Result<string, RatchetError>)
      requires Valid(Snapshot())
      modifies this
      ensures (Snapshot(), r) == EncryptStep(old(Snapshot()), plaintext, nonce, p)
    {
      if sendChainKey.None? {
        return Err(NoSendChain);
      }
      var ck := sendChainKey.value;
      sendChainKey := Some(Next(ck));
      var header := Header(dhSelfPublic, prevSendChainLen, sendMsgNum);
      sendMsgNum := (sendMsgNum + 1) % U32_MOD;
      var headerBytes := HeaderBytes(header);
      var ct := p.seal(Msg(ck), nonce, headerBytes, Utf8(plaintext));
      r := Ok(WireText(headerBytes, nonce, ct, p));
    }

    /** `skip_messages`: store the keys for numbers `from` up to `until` and move the receiving chain past them. */
    method SkipMessages(rk: seq<byte>, ck: Key, from: nat, until: nat) returns (r: Result<(), RatchetError>)
      modifies this
      ensures match SkipState(old(Snapshot()), rk, ck, from, until)
        case Ok(s1) => r == Ok(()) && Snapshot() == s1
        case Err(e) => r == Err(e) && Snapshot() == old(Snapshot())
    {
      if until < from {
        return Ok(());
      }
      if until - from > MAX_SKIP {
        return Err(TooManySkipped);
      }
      var stored, chain := SkipLoop(skipped, rk, ck, from, until);
      skipped := stored;
      recvChainKey := Some(chain);
      r := Ok(());
    }

    /** The DH ratchet step of `decrypt`, with the fresh key pair drawn by the caller. */
    method DhRatchet(their: seq<byte>, newSecret: seq<byte>, newPublic: seq<byte>)
      modifies this
      ensures Snapshot() == DhStep(old(Snapshot()), their, newSecret, newPublic)
    {
      var dh1 := DhOut(dhSelfSecret, their);
      var root1 := Root(rootKey, dh1);
      var dh2 := DhOut(newSecret, their);
      dhRemote, recvChainKey, recvMsgNum := Some(their), Some(Chain(rootKey, dh1)), 0;
      prevSendChainLen, sendMsgNum := sendMsgNum, 0;
      dhSelfSecret, dhSelfPublic := newSecret, newPublic;
      rootKey, sendChainKey := Root(root1, dh2), Some(Chain(root1, dh2));
    }

    /** The changed-key branch of `decrypt`: skip what is left of the old receiving chain, then the DH step. */
    method Ratchet(h: Header, newSecret: seq<byte>, newPublic: seq<byte>) returns (r: Result<(), RatchetError>)
      modifies this
      ensures match RatchetState(old(Snapshot()), h, newSecret, newPublic)
        case Ok(s1) => r == Ok(()) && Snapshot() == s1
        case Err(e) => r == Err(e) && Snapshot() == old(Snapshot())
    {
      if recvChainKey.Some? {
        r := SkipMessages(dhRemote.UnwrapOr(ZERO_KEY), recvChainKey.value, recvMsgNum, h.prevChainLen);
        if r.Err? {
          return;
        }
      }
      DhRatchet(h.ratchetKey, newSecret, newPublic);
      r := Ok(());
    }

    /** The end of `decrypt`: skip up to the message number on the receiving chain, take its key and open. */
    method Receive(w: Wire, p: Primitives) returns (r: Result<string, RatchetError>)
      modifies this
      ensures var o := ReceiveOnChain(old(Snapshot()), w, p);
        Snapshot() == o.state && r == o.result
    {
      if recvChainKey.None? {
        return Err(NoReceiveChain);
      }
      var e := SkipMessages(w.header.ratchetKey, recvChainKey.value, recvMsgNum, w.header.msgNum);
      if e.Err? {
        return Err(e.error);
      }
      var ck := recvChainKey.value;
      recvChainKey := Some(Next(ck));
      recvMsgNum := (w.header.msgNum + 1) % U32_MOD;
      r := Open(p, Msg(ck), w);
    }

    /** `decrypt`, as written; the fresh key pair for a DH step is drawn by the caller. */
    method Decrypt(wire: string, p: Primitives, newSecret: seq<byte>, newPublic: seq<byte>)
      returns (r: Result<string, RatchetError>)
      modifies this
      ensures var o := DecryptStep(old(Snapshot()), wire, p, newSecret, newPublic);
        Snapshot() == o.state && r == o.result
    {
      var parsed := ParseWire(wire, p);
      if parsed.Err? {
        return Err(parsed.error);
      }
      var w := parsed.value;
      var id := (w.header.ratchetKey, w.header.msgNum);
      if id in skipped {
        var key := skipped[id];
        skipped := skipped - {id};
        return Open(p, key, w);
      }
      if dhRemote != Some(w.header.ratchetKey) {
        var e := Ratchet(w.header, newSecret, newPublic);
        if e.Err? {
          return Err(e.error);
        }
      }
      r := Receive(w, p);
    }
  }
}
