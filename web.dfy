// The web gateway: the WebSocket <-> IRC line bridge, the OAuth origin and
// client-id derivation, the mobile nick, the channel-history query limits,
// the pending-OAuth expiry and the HTML entity decoding of link previews.

module Web {
  import opened Common

  // ---------------------------------------------------------------------
  // WebSocket -> IRC: every frame becomes CRLF-terminated bytes.

  const CR: byte := 13
  const LF: byte := 10
  const CRLF: seq<byte> := [CR, LF]

  predicate EndsWithCrlf(b: seq<byte>)
  {
    |b| >= 2 && b[|b| - 2..] == CRLF
  }

  /** A text frame: its UTF-8 bytes with CRLF always appended. */
  function InboundText(text: string): (r: seq<byte>)
    ensures EndsWithCrlf(r) && r[..|r| - 2] == Utf8(text)
  {
    Utf8(text) + CRLF
  }

  /** A binary frame: CRLF is appended only when the frame does not already end with it. */
  function InboundBinary(data: seq<byte>): (r: seq<byte>)
    ensures EndsWithCrlf(r)
    ensures EndsWithCrlf(data) ==> r == data
    ensures !EndsWithCrlf(data) ==> |r| == |data| + 2 && r[..|data|] == data
  {
    if EndsWithCrlf(data) then data else data + CRLF
  }

  /** Framing a binary frame twice is framing it once. */
  lemma InboundBinaryIdempotent(data: seq<byte>)
    ensures InboundBinary(InboundBinary(data)) == InboundBinary(data)
  {
  }

  // ---------------------------------------------------------------------
  // IRC -> WebSocket: the bridge buffer is cut at each CRLF.

  predicate CrlfAt(b: seq<byte>, i: int)
  {
    0 <= i && i + 1 < |b| && b[i] == CR && b[i + 1] == LF
  }

  predicate HasCrlf(b: seq<byte>)
  {
    exists i | 0 <= i < |b| :: CrlfAt(b, i)
  }

  /** Position of the first CRLF (`windows(2).position`). */
  function FindCrlf(b: seq<byte>): (r: Option<nat>)
    ensures r.None? <==> !HasCrlf(b)
    ensures r.Some? ==> CrlfAt(b, r.value) && forall j | 0 <= j < r.value :: !CrlfAt(b, j)
  {
    if |b| < 2 then None
    else if b[0] == CR && b[1] == LF then assert CrlfAt(b, 0); Some(0)
    else
      match FindCrlf(b[1..])
      case None =>
        assert forall j | 1 <= j < |b| :: CrlfAt(b, j) ==> CrlfAt(b[1..], j - 1);
        None
      case Some(k) =>
        assert forall j | 1 <= j <= k :: CrlfAt(b, j) ==> CrlfAt(b[1..], j - 1);
        assert CrlfAt(b, k + 1);
        Some(k + 1)
  }

  /** Lines put back on the wire, each followed by CRLF. */
  function Framed(lines: seq<seq<byte>>): seq<byte>
  {
    if lines == [] then [] else lines[0] + CRLF + Framed(lines[1..])
  }

  lemma {:induction false} FramedSnoc(lines: seq<seq<byte>>, l: seq<byte>)
    ensures Framed(lines + [l]) == Framed(lines) + l + CRLF
  {
    if lines == [] {
      assert [] + [l] == [l];
      assert Framed([l]) == l + CRLF + Framed([]);
    } else {
      assert (lines + [l])[1..] == lines[1..] + [l];
      FramedSnoc(lines[1..], l);
    }
  }

  /** The first CRLF of `line + CRLF + rest` ends `line`, when `line` holds none. */
  lemma FirstCrlf(line: seq<byte>, rest: seq<byte>)
    requires !HasCrlf(line)
    ensures FindCrlf(line + CRLF + rest) == Some(|line|)
  {
    var b := line + CRLF + rest;
    assert CrlfAt(b, |line|);
    forall j | 0 <= j < |line| ensures !CrlfAt(b, j) {
      if j + 1 < |line| {
        assert !CrlfAt(line, j);
      }
    }
  }

  /** The framing of a non-empty list, split after its first line. */
  lemma FramedHead(l: seq<seq<byte>>, p: seq<byte>)
    requires l != [] && !HasCrlf(l[0])
    ensures Framed(l) + p == l[0] + CRLF + (Framed(l[1..]) + p)
    ensures FindCrlf(Framed(l) + p) == Some(|l[0]|)
  {
    assert Framed(l) == l[0] + CRLF + Framed(l[1..]);
    FirstCrlf(l[0], Framed(l[1..]) + p);
  }

  lemma FramedHasCrlf(l: seq<seq<byte>>, p: seq<byte>)
    requires l != [] && !HasCrlf(l[0])
    ensures HasCrlf(Framed(l) + p)
  {
    FramedHead(l, p);
  }

  /** Lines without CRLF and a tail without CRLF are recovered from their framing. */
  lemma {:induction false} FramedUnique(l1: seq<seq<byte>>, p1: seq<byte>, l2: seq<seq<byte>>, p2: seq<byte>)
    requires forall i | 0 <= i < |l1| :: !HasCrlf(l1[i])
    requires forall i | 0 <= i < |l2| :: !HasCrlf(l2[i])
    requires !HasCrlf(p1) && !HasCrlf(p2)
    requires Framed(l1) + p1 == Framed(l2) + p2
    ensures l1 == l2 && p1 == p2
  {
    if l1 == [] || l2 == [] {
      assert Framed([]) == [];
      if l1 != [] {
        assert Framed(l2) + p2 == p2;
        FramedHasCrlf(l1, p1);
      } else if l2 != [] {
        assert Framed(l1) + p1 == p1;
        FramedHasCrlf(l2, p2);
      } else {
        assert p1 == Framed(l1) + p1 == Framed(l2) + p2 == p2;
      }
    } else {
      FramedHead(l1, p1);
      FramedHead(l2, p2);
      var b := Framed(l1) + p1;
      var n := |l1[0]|;
      assert l1[0] == b[..n] == l2[0];
      assert Framed(l1[1..]) + p1 == b[n + 2..] == Framed(l2[1..]) + p2;
      FramedUnique(l1[1..], p1, l2[1..], p2);
      assert l1 == [l1[0]] + l1[1..];
      assert l2 == [l2[0]] + l2[1..];
    }
  }

  /**
   * The drain loop: cut every complete line off the front of `data` and
   * keep the partial line.
   */
  method CutLines(data: seq<byte>) returns (lines: seq<seq<byte>>, rest: seq<byte>)
    ensures data == Framed(lines) + rest
    ensures forall i | 0 <= i < |lines| :: !HasCrlf(lines[i])
    ensures !HasCrlf(rest)
  {
    lines, rest := [], data;
    while FindCrlf(rest).Some?
      invariant data == Framed(lines) + rest
      invariant forall i | 0 <= i < |lines| :: !HasCrlf(lines[i])
      decreases |rest|
    {
      var pos := FindCrlf(rest).value;
      var line := rest[..pos];
      assert !HasCrlf(line) by {
        forall j | 0 <= j < |line| ensures !CrlfAt(line, j) {
          assert !CrlfAt(rest, j);
        }
      }
      FramedSnoc(lines, line);
      assert rest == line + CRLF + rest[pos + 2..];
      lines := lines + [line];
      rest := rest[pos + 2..];
    }
  }

  /** The bridge's `line_buf`: bytes read from the IRC side that do not yet form a line. */
  class LineBuffer {
    var pending: seq<byte>

    constructor ()
      ensures pending == []
    {
      pending := [];
    }

    /**
     * Append what was read and emit every completed line, without its CRLF,
     * in order; `FramedUnique` makes the emitted lines and the new buffer
     * the only ones that fit.
     */
    method Feed(chunk: seq<byte>) returns (lines: seq<seq<byte>>)
      modifies this
      ensures old(pending) + chunk == Framed(lines) + pending
      ensures forall i | 0 <= i < |lines| :: !HasCrlf(lines[i])
      ensures !HasCrlf(pending)
    {
      var rest;
      lines, rest := CutLines(pending + chunk);
      pending := rest;
    }
  }

  // ---------------------------------------------------------------------
  // String replacement (`str::replace`: leftmost, non-overlapping).

  function ReplaceAll(s: string, pat: string, rep: string): (r: string)
    requires pat != ""
    ensures !Contains(s, pat) ==> r == s
    decreases |s|
  {
    if s == [] then []
    else if ContainsAt(s, pat, 0) then rep + ReplaceAll(s[|pat|..], pat, rep)
    else
      NotContainedTail(s, pat);
      [s[0]] + ReplaceAll(s[1..], pat, rep)
  }

  lemma NotContainedTail(s: string, pat: string)
    requires s != []
    ensures !Contains(s, pat) ==> !Contains(s[1..], pat)
  {
    if Contains(s[1..], pat) {
      var i: nat :| i <= |s[1..]| && ContainsAt(s[1..], pat, i);
      assert s[i + 1..i + 1 + |pat|] == s[1..][i..i + |pat|];
      assert ContainsAt(s, pat, i + 1);
    }
  }

  // ---------------------------------------------------------------------
  // Web origin and OAuth client id.

  const DEFAULT_HOST: string := "127.0.0.1:8080"

  predicate IsPrivateHost(host: string)
  {
    StartsWith(host, "127.") || StartsWith(host, "192.168.") || StartsWith(host, "10.")
  }

  /** The origin and scheme for a host: plain http for private addresses, https otherwise. */
  function OriginOfHost(host: string): (r: (string, string))
    ensures r.1 == (if IsPrivateHost(host) then "http" else "https") && r.0 == r.1 + "://" + host
  {
    var scheme := if IsPrivateHost(host) then "http" else "https";
    (scheme + "://" + host, scheme)
  }

  /**
   * `derive_web_origin`: the Host header (by default `127.0.0.1:8080`) with
   * `localhost` rewritten. The origin is the scheme, `://` and a host in
   * which no `localhost` is left; the scheme is http exactly for a private
   * host; a header without `localhost` is kept as it is.
   */
  function DeriveWebOrigin(hostHeader: Option<string>): (r: (string, string))
    ensures r.1 == "http" || r.1 == "https"
    ensures |r.0| >= |r.1| + 3 && r.0[..|r.1| + 3] == r.1 + "://"
    ensures !Contains(r.0[|r.1| + 3..], "localhost")
    ensures r.1 == "http" <==> IsPrivateHost(r.0[|r.1| + 3..])
    ensures hostHeader.None? ==> r == ("http://127.0.0.1:8080", "http")
    ensures hostHeader.Some? && !Contains(hostHeader.value, "localhost") ==> r.0 == r.1 + "://" + hostHeader.value
  {
    var raw := if hostHeader.Some? then hostHeader.value else DEFAULT_HOST;
    var host := ReplaceAll(raw, "localhost", "127.0.0.1");
    LoopbackDisjoint();
    ReplaceGone(raw, "localhost", "127.0.0.1");
    DefaultHostShape();
    DefaultOrigin();
    var r := OriginOfHost(host);
    assert r.0[|r.1| + 3..] == host;
    r
  }

  /** The default host holds no `localhost` and is private. */
  lemma DefaultHostShape()
    ensures !Contains(DEFAULT_HOST, "localhost") && IsPrivateHost(DEFAULT_HOST)
  {
    assert 'l' !in DEFAULT_HOST;
    AbsentFirstChar(DEFAULT_HOST, "localhost");
    assert DEFAULT_HOST[..4] == "127.";
  }

  /** Without a Host header the origin is the loopback address over plain http. */
  lemma DefaultOrigin()
    ensures OriginOfHost(DEFAULT_HOST) == ("http://127.0.0.1:8080", "http")
  {
    DefaultHostShape();
    assert "http" + "://" + DEFAULT_HOST == "http://127.0.0.1:8080";
  }

  /** A text without the first character of `sub` does not contain `sub`. */
  lemma AbsentFirstChar(s: string, sub: string)
    requires sub != [] && sub[0] !in s
    ensures !Contains(s, sub)
  {
    forall i: nat | i <= |s| ensures !ContainsAt(s, sub, i) {
      if i + |sub| <= |s| {
        assert s[i..i + |sub|][0] == s[i];
      }
    }
  }

  /** `localhost` and `127.0.0.1` share no character. */
  lemma LoopbackDisjoint()
    ensures forall k | 0 <= k < |"localhost"| :: "localhost"[k] !in "127.0.0.1"
  {
  }

  /** One step of the replacement: a match at the front is replaced, any other first character is copied. */
  lemma ReplaceAllHead(s: string, pat: string, rep: string)
    requires pat != [] && s != []
    ensures ContainsAt(s, pat, 0) ==> ReplaceAll(s, pat, rep) == rep + ReplaceAll(s[|pat|..], pat, rep)
    ensures !ContainsAt(s, pat, 0) ==> ReplaceAll(s, pat, rep) == [s[0]] + ReplaceAll(s[1..], pat, rep)
  {
  }

  /**
   * Text before the first replacement is copied from the input: a prefix of
   * the result without any character of `rep` is a prefix of the input.
   */
  lemma {:induction false} ReplacePrefixFromSource(s: string, pat: string, rep: string, w: string)
    requires pat != [] && rep != []
    requires forall k | 0 <= k < |w| :: w[k] !in rep
    requires StartsWith(ReplaceAll(s, pat, rep), w)
    ensures StartsWith(s, w)
    decreases |s|
  {
    if w != [] && s != [] {
      var r := ReplaceAll(s, pat, rep);
      assert w[0] !in rep && w[0] == r[0];
      ReplaceAllHead(s, pat, rep);
      if ContainsAt(s, pat, 0) {
        assert false;
      } else {
        var x := ReplaceAll(s[1..], pat, rep);
        assert r == [s[0]] + x;
        assert StartsWith(x, w[1..]) by { assert w[1..] == r[1..|w|] == x[..|w| - 1]; }
        ReplacePrefixFromSource(s[1..], pat, rep, w[1..]);
        assert s == [s[0]] + s[1..] && w == [w[0]] + w[1..];
      }
    }
  }

  /** Replacing every `pat` leaves none, when `rep` shares no character with `pat`. */
  lemma {:induction false} ReplaceGone(s: string, pat: string, rep: string)
    requires pat != [] && rep != []
    requires forall k | 0 <= k < |pat| :: pat[k] !in rep
    ensures !Contains(ReplaceAll(s, pat, rep), pat)
    decreases |s|
  {
    if s != [] {
      if ContainsAt(s, pat, 0) {
        ReplaceGone(s[|pat|..], pat, rep);
        GoneAfterReplacement(s, pat, rep);
      } else {
        ReplaceGone(s[1..], pat, rep);
        GoneAfterCopy(s, pat, rep);
      }
    }
  }

  /** A replacement at the front starts no occurrence: its characters are not in `pat`. */
  lemma GoneAfterReplacement(s: string, pat: string, rep: string)
    requires pat != [] && rep != [] && pat[0] !in rep
    requires ContainsAt(s, pat, 0)
    requires !Contains(ReplaceAll(s[|pat|..], pat, rep), pat)
    ensures !Contains(ReplaceAll(s, pat, rep), pat)
  {
    var x := ReplaceAll(s[|pat|..], pat, rep);
    ReplaceAllHead(s, pat, rep);
    forall i: nat | i <= |rep| + |x| ensures !ContainsAt(rep + x, pat, i) {
      if ContainsAt(rep + x, pat, i) {
        ShiftOccurrence(rep, x, pat, i);
      }
    }
  }

  /** A copied first character starts no occurrence, since the input does not start with `pat`. */
  lemma GoneAfterCopy(s: string, pat: string, rep: string)
    requires pat != [] && rep != []
    requires forall k | 0 <= k < |pat| :: pat[k] !in rep
    requires s != [] && !ContainsAt(s, pat, 0)
    requires !Contains(ReplaceAll(s[1..], pat, rep), pat)
    ensures !Contains(ReplaceAll(s, pat, rep), pat)
  {
    var x := ReplaceAll(s[1..], pat, rep);
    ReplaceAllHead(s, pat, rep);
    forall i: nat | i <= 1 + |x| ensures !ContainsAt([s[0]] + x, pat, i) {
      if ContainsAt([s[0]] + x, pat, i) {
        ShiftOccurrence([s[0]], x, pat, i);
        if i == 0 {
          ReplacePrefixFromSource(s[1..], pat, rep, pat[1..]);
          ConsPrefix(s, pat);
        }
      }
    }
  }

  /** An occurrence in `a + x` starts inside `a` or is an occurrence in `x`. */
  lemma ShiftOccurrence(a: string, x: string, pat: string, i: nat)
    requires pat != [] && ContainsAt(a + x, pat, i)
    ensures i < |a| ==> (a + x)[i] == pat[0]
    ensures i >= |a| ==> ContainsAt(x, pat, i - |a|)
    ensures i == 0 && |a| == 1 ==> a[0] == pat[0] && StartsWith(x, pat[1..])
  {
    if i >= |a| {
      assert x[i - |a|..i - |a| + |pat|] == (a + x)[i..i + |pat|];
    }
    if i == 0 && |a| == 1 {
      assert pat[1..] == (a + x)[1..|pat|] == x[..|pat| - 1];
    }
  }

  lemma ConsPrefix(s: string, pat: string)
    requires s != [] && pat != [] && s[0] == pat[0] && StartsWith(s[1..], pat[1..])
    ensures ContainsAt(s, pat, 0)
  {
    assert s[..|pat|] == [s[0]] + s[1..][..|pat| - 1];
  }

  /** A `localhost` Host header is served as `127.0.0.1` over plain http. */
  lemma LocalhostOverHttp(rest: string)
    ensures DeriveWebOrigin(Some("localhost" + rest)).1 == "http"
    ensures StartsWith(DeriveWebOrigin(Some("localhost" + rest)).0, "http://127.0.0.1")
  {
    var s := "localhost" + rest;
    assert ContainsAt(s, "localhost", 0) by { assert s[..9] == "localhost"; }
    assert s[9..] == rest;
    var host := ReplaceAll(s, "localhost", "127.0.0.1");
    assert host == "127.0.0.1" + ReplaceAll(rest, "localhost", "127.0.0.1");
    assert host[..4] == "127.";
  }

  predicate IsUnreserved(b: byte)
  {
    (48 <= b <= 57) || (65 <= b <= 90) || (97 <= b <= 122)
  }

  const HEX: string := "0123456789ABCDEF"

  function HexValue(c: char): Option<nat>
  {
    if '0' <= c <= '9' then Some(c as nat - '0' as nat)
    else if 'A' <= c <= 'F' then Some(c as nat - 'A' as nat + 10)
    else None
  }

  lemma HexValueOf(i: nat)
    requires i < 16
    ensures HexValue(HEX[i]) == Some(i)
  {
  }

  /** `utf8_percent_encode(.., NON_ALPHANUMERIC)` on the UTF-8 bytes. */
  function PercentEncode(b: seq<byte>): (r: string)
  {
    if b == [] then ""
    else
      (if IsUnreserved(b[0]) then [b[0] as char] else ['%', HEX[b[0] / 16], HEX[b[0] % 16]])
      + PercentEncode(b[1..])
  }

  function PercentDecode(s: string): Option<seq<byte>>
    decreases |s|
  {
    if s == "" then Some([])
    else if s[0] == '%' then
      if |s| < 3 || HexValue(s[1]).None? || HexValue(s[2]).None? then None
      else
        match PercentDecode(s[3..])
        case None => None
        case Some(rest) => Some([(HexValue(s[1]).value * 16 + HexValue(s[2]).value) as byte] + rest)
    else if s[0] as int < 256 && IsUnreserved(s[0] as int as byte) then
      match PercentDecode(s[1..])
      case None => None
      case Some(rest) => Some([s[0] as int as byte] + rest)
    else None
  }

  /** Percent-encoding loses nothing: the bytes are decoded back. */
  lemma {:induction false} PercentRoundTrip(b: seq<byte>)
    ensures PercentDecode(PercentEncode(b)) == Some(b)
  {
    if b != [] {
      PercentRoundTrip(b[1..]);
      var s := PercentEncode(b);
      if IsUnreserved(b[0]) {
        assert s == [b[0] as char] + PercentEncode(b[1..]);
        assert s[1..] == PercentEncode(b[1..]);
      } else {
        assert s == ['%', HEX[b[0] / 16], HEX[b[0] % 16]] + PercentEncode(b[1..]);
        assert s[3..] == PercentEncode(b[1..]);
        HexValueOf(b[0] / 16);
        HexValueOf(b[0] % 16);
      }
      assert b == [b[0]] + b[1..];
    }
  }

  const OAUTH_SCOPE: string := "atproto transition:generic"

  predicate IsLoopbackOrigin(origin: string)
  {
    StartsWith(origin, "http://127.") || StartsWith(origin, "http://192.168.") || StartsWith(origin, "http://10.")
  }

  const LOOPBACK_PREFIX: string := "http://localhost?redirect_uri="

  /** The redirect URI and the scope as percent-encoded query parameters. */
  function ClientIdQuery(redirectUri: string, scope: string): string
  {
    PercentEncode(Utf8(redirectUri)) + "&scope=" + PercentEncode(Utf8(scope))
  }

  /** The loopback client id. */
  function LoopbackClientId(redirectUri: string, scope: string): string
  {
    LOOPBACK_PREFIX + ClientIdQuery(redirectUri, scope)
  }

  /** `build_client_id`: the loopback form for private http origins, the metadata URL otherwise. */
  function BuildClientId(origin: string, redirectUri: string): (r: string)
    ensures IsLoopbackOrigin(origin) ==> r == LoopbackClientId(redirectUri, OAUTH_SCOPE)
    ensures !IsLoopbackOrigin(origin) ==> r == origin + "/client-metadata.json"
  {
    if IsLoopbackOrigin(origin) then LoopbackClientId(redirectUri, OAUTH_SCOPE)
    else origin + "/client-metadata.json"
  }

  lemma {:induction false} PercentEncodeNoAmp(b: seq<byte>)
    ensures '&' !in PercentEncode(b)
  {
    if b != [] {
      PercentEncodeNoAmp(b[1..]);
      assert '&' as int == 38;
      assert forall i | 0 <= i < 16 :: HEX[i] != '&';
    }
  }

  /** A query `r&scope=sc` with no `&` in `r` splits back into `r` and `sc`. */
  lemma QuerySplits(r: string, sc: string)
    requires '&' !in r
    ensures var q := r + "&scope=" + sc;
      FindChar(q, '&') == Some(|r|) && q[..|r|] == r && q[|r|..|r| + 7] == "&scope=" && q[|r| + 7..] == sc
  {
    var q := r + "&scope=" + sc;
    assert q == r + ['&'] + ("scope=" + sc);
    FindCharAfter(r, '&', "scope=" + sc);
  }

  /**
   * The loopback client id parses back: the redirect parameter runs to the
   * first `&` and decodes to the redirect URI's bytes, and the scope
   * parameter decodes to the scope's.
   */
  lemma LoopbackClientIdParses(redirectUri: string, scope: string)
    ensures StartsWith(LoopbackClientId(redirectUri, scope), LOOPBACK_PREFIX)
    ensures LoopbackClientId(redirectUri, scope)[|LOOPBACK_PREFIX|..] == ClientIdQuery(redirectUri, scope)
    ensures var q := ClientIdQuery(redirectUri, scope);
      FindChar(q, '&').Some? &&
      var k := FindChar(q, '&').value;
      k + 7 <= |q| && q[k..k + 7] == "&scope=" &&
      PercentDecode(q[..k]) == Some(Utf8(redirectUri)) && PercentDecode(q[k + 7..]) == Some(Utf8(scope))
  {
    var r := PercentEncode(Utf8(redirectUri));
    var sc := PercentEncode(Utf8(scope));
    PercentEncodeNoAmp(Utf8(redirectUri));
    QuerySplits(r, sc);
    PercentRoundTrip(Utf8(redirectUri));
    PercentRoundTrip(Utf8(scope));
  }

  /** An origin takes the loopback client id exactly when it is served over http. */
  lemma LoopbackIffHttp(host: string)
    ensures IsLoopbackOrigin(OriginOfHost(host).0) <==> OriginOfHost(host).1 == "http"
  {
    var o := OriginOfHost(host);
    if IsPrivateHost(host) {
      assert o.0 == "http://" + host;
      if StartsWith(host, "127.") {
        assert o.0[..11] == "http://" + host[..4];
      } else if StartsWith(host, "192.168.") {
        assert o.0[..15] == "http://" + host[..8];
      } else {
        assert o.0[..10] == "http://" + host[..3];
      }
    } else {
      assert o.0 == "https://" + host;
      assert o.0[4] == 's';
      assert !StartsWith(o.0, "http://127.") by { assert "http://127."[4] == ':'; }
      assert !StartsWith(o.0, "http://192.168.") by { assert "http://192.168."[4] == ':'; }
      assert !StartsWith(o.0, "http://10.") by { assert "http://10."[4] == ':'; }
    }
  }

  // ---------------------------------------------------------------------
  // Mobile nick.

  const STANDARD_SUFFIXES: seq<string> := [".bsky.social", ".bsky.app", ".bsky.team", ".bsky.network"]

  /** Strip the first of `suffixes` that ends `handle`. */
  function StripFirstSuffix(handle: string, suffixes: seq<string>): (r: string)
    ensures (forall i | 0 <= i < |suffixes| :: !EndsWith(handle, suffixes[i])) ==> r == handle
    ensures (exists i | 0 <= i < |suffixes| :: EndsWith(handle, suffixes[i])) ==>
      exists i | 0 <= i < |suffixes| ::
        EndsWith(handle, suffixes[i]) && r == handle[..|handle| - |suffixes[i]|] &&
        forall j | 0 <= j < i :: !EndsWith(handle, suffixes[j])
  {
    if suffixes == [] then handle
    else if EndsWith(handle, suffixes[0]) then handle[..|handle| - |suffixes[0]|]
    else
      var r := StripFirstSuffix(handle, suffixes[1..]);
      assert forall i | 1 <= i < |suffixes| :: suffixes[i] == suffixes[1..][i - 1];
      r
  }

  /** `mobile_nick_from_handle`. */
  function MobileNick(handle: string): string
  {
    StripFirstSuffix(handle, STANDARD_SUFFIXES)
  }

  /** A handle on any standard host gives back the name before the host. */
  lemma MobileNickStandard(name: string, i: nat)
    requires i < |STANDARD_SUFFIXES|
    ensures MobileNick(name + STANDARD_SUFFIXES[i]) == name
  {
    var h := name + STANDARD_SUFFIXES[i];
    assert EndsWith(h, STANDARD_SUFFIXES[i]) by { assert h[|h| - |STANDARD_SUFFIXES[i]|..] == STANDARD_SUFFIXES[i]; }
    // The standard hosts differ in their last letter, so only suffix `i` can match.
    forall j | 0 <= j < |STANDARD_SUFFIXES| && j != i ensures !EndsWith(h, STANDARD_SUFFIXES[j]) {
      var sj := STANDARD_SUFFIXES[j];
      var si := STANDARD_SUFFIXES[i];
      assert h[|h| - 1] == si[|si| - 1];
      assert sj[|sj| - 1] != si[|si| - 1];
    }
    assert h[..|h| - |STANDARD_SUFFIXES[i]|] == name;
  }

  // ---------------------------------------------------------------------
  // Channel history query.

  const DEFAULT_HISTORY_LIMIT: nat := 50
  const MAX_HISTORY_LIMIT: nat := 200

  /** The channel in the path, with `#` added when missing. */
  function HistoryChannel(name: string): (r: string)
    ensures StartsWith(r, "#")
    ensures StartsWith(name, "#") ==> r == name
    ensures !StartsWith(name, "#") ==> r == "#" + name
  {
    if StartsWith(name, "#") then name else "#" + name
  }

  lemma HistoryChannelIdempotent(name: string)
    ensures HistoryChannel(HistoryChannel(name)) == HistoryChannel(name)
  {
  }

  /** `limit.unwrap_or(50).min(200)`. */
  function HistoryLimit(limit: Option<nat>): (r: nat)
    ensures r <= MAX_HISTORY_LIMIT
    ensures limit.None? ==> r == DEFAULT_HISTORY_LIMIT
    ensures limit.Some? ==> r == Min(limit.value, MAX_HISTORY_LIMIT)
  {
    Min(if limit.Some? then limit.value else DEFAULT_HISTORY_LIMIT, MAX_HISTORY_LIMIT)
  }

  // ---------------------------------------------------------------------
  // Pending OAuth expiry.

  const OAUTH_PENDING_TTL: nat := 300
  const U64_MOD: nat := 0x1_0000_0000_0000_0000

  /** `now - created_at > 300` on `u64`, the subtraction wrapping as in a release build. */
  predicate OAuthExpired(now: nat, createdAt: nat)
    requires now < U64_MOD && createdAt < U64_MOD
  {
    (now - createdAt) % U64_MOD > OAUTH_PENDING_TTL
  }

  /** With a forward clock the state lives exactly 300 seconds; a clock that went back (by less than 2^64 - 300 s) expires it. */
  lemma OAuthExpiry(now: nat, createdAt: nat)
    requires now < U64_MOD && createdAt < U64_MOD
    ensures createdAt <= now ==> (OAuthExpired(now, createdAt) <==> now - createdAt > OAUTH_PENDING_TTL)
    ensures now < createdAt < now + U64_MOD - OAUTH_PENDING_TTL ==> OAuthExpired(now, createdAt)
  {
    if now < createdAt {
      assert (now - createdAt) % U64_MOD == now - createdAt + U64_MOD;
    }
  }

  // ---------------------------------------------------------------------
  // HTML entities in link previews.

  /** The entities `decode_html_entities` replaces, in its order. */
  const ENTITIES: seq<(string, string)> := [
    ("&amp;", "&"), ("&lt;", "<"), ("&gt;", ">"), ("&quot;", "\""), ("&#39;", "'"),
    ("&apos;", "'"), ("&#x27;", "'"), ("&#x2F;", "/"), ("&nbsp;", " ")]

  /** `decode_html_entities` as written: one full `replace` pass per entity, in order. */
  function DecodeEntitiesAsWritten(s: string): string
  {
    ReplaceChain(s, ENTITIES)
  }

  function ReplaceChain(s: string, pairs: seq<(string, string)>): string
    requires forall i | 0 <= i < |pairs| :: pairs[i].0 != ""
    decreases |pairs|
  {
    if pairs == [] then s else ReplaceChain(ReplaceAll(s, pairs[0].0, pairs[0].1), pairs[1..])
  }

  /** The entity that starts `s`, if any. */
  function EntityAt(s: string, k: nat): Option<(string, string)>
    requires k <= |ENTITIES|
    decreases |ENTITIES| - k
  {
    if k == |ENTITIES| then None
    else if StartsWith(s, ENTITIES[k].0) then Some(ENTITIES[k])
    else EntityAt(s, k + 1)
  }

  /** A single left-to-right pass: decoded text is never decoded again. */
  function DecodeEntities(s: string): (r: string)
    ensures |r| <= |s|
    decreases |s|
  {
    if s == "" then ""
    else
      match EntityAt(s, 0)
      case Some(e) => e.1 + DecodeEntities(s[|e.0|..])
      case None => [s[0]] + DecodeEntities(s[1..])
  }

  /** The escaping an HTML producer applies to `& < > " '`. */
  function EscapeChar(c: char): (r: string)
    ensures |r| >= 1
  {
    match c
    case '&' => "&amp;"
    case '<' => "&lt;"
    case '>' => "&gt;"
    case '"' => "&quot;"
    case '\'' => "&#39;"
    case _ => [c]
  }

  function Escape(s: string): string
  {
    if s == "" then "" else EscapeChar(s[0]) + Escape(s[1..])
  }

  predicate Special(c: char)
  {
    c == '&' || c == '<' || c == '>' || c == '"' || c == '\''
  }

  lemma EntityOfEscaped(c: char, rest: string)
    ensures EntityAt(EscapeChar(c) + rest, 0) == (if Special(c) then Some((EscapeChar(c), [c])) else None)
  {
    var e := EscapeChar(c);
    var s := e + rest;
    EntityShapes();
    if !Special(c) {
      assert s[0] == c;
      EntityNone(s, 0);
    } else {
      // The entities differ in their second character, so the escape of `c` is the one that matches.
      assert s[..|e|] == e;
      var k := if c == '&' then 0 else if c == '<' then 1 else if c == '>' then 2 else if c == '"' then 3 else 4;
      assert ENTITIES[k] == (e, [c]);
      assert s[1] == e[1];
      forall j | 0 <= j < k ensures !StartsWith(s, ENTITIES[j].0) {
        assert ENTITIES[j].0[1] != e[1];
      }
      EntitySkip(s, 0, k);
    }
  }

  lemma {:induction false} EntityNone(s: string, k: nat)
    requires k <= |ENTITIES| && s != [] && s[0] != '&'
    requires forall j | 0 <= j < |ENTITIES| :: |ENTITIES[j].0| >= 1 && ENTITIES[j].0[0] == '&'
    ensures EntityAt(s, k) == None
    decreases |ENTITIES| - k
  {
    if k < |ENTITIES| {
      assert !StartsWith(s, ENTITIES[k].0) by {
        assert ENTITIES[k].0[0] != s[0];
      }
      EntityNone(s, k + 1);
    }
  }

  lemma {:induction false} EntitySkip(s: string, k: nat, m: nat)
    requires k <= m < |ENTITIES|
    requires forall j | k <= j < m :: !StartsWith(s, ENTITIES[j].0)
    requires StartsWith(s, ENTITIES[m].0)
    ensures EntityAt(s, k) == Some(ENTITIES[m])
    decreases m - k
  {
    if k < m {
      EntitySkip(s, k + 1, m);
    }
  }

  /** Decoding undoes escaping, for every text. */
  lemma {:induction false} DecodeEscape(s: string)
    ensures DecodeEntities(Escape(s)) == s
  {
    if s != "" {
      var e := EscapeChar(s[0]);
      var t := Escape(s);
      assert t == e + Escape(s[1..]);
      EntityOfEscaped(s[0], Escape(s[1..]));
      DecodeEscape(s[1..]);
      if Special(s[0]) {
        assert t[|e|..] == Escape(s[1..]);
      } else {
        assert e == [s[0]];
        assert t[1..] == Escape(s[1..]);
      }
      assert s == [s[0]] + s[1..];
    }
  }

  /** `&lt;` escapes to `&amp;lt;`, which the single pass decodes back to `&lt;`. */
  lemma EscapedEntityDecodes()
    ensures Escape("&lt;") == "&amp;lt;"
    ensures DecodeEntities("&amp;lt;") == "&lt;"
  {
    var s := "&lt;";
    assert Escape(s) == EscapeChar('&') + Escape(s[1..]);
    assert s[1..] == "lt;" && Escape("lt;") == "l" + Escape("t;");
    assert "lt;"[1..] == "t;" && Escape("t;") == "t" + Escape(";");
    assert "t;"[1..] == ";" && Escape(";") == ";" + Escape("");
    DecodeEscape(s);
  }

  lemma AmpReplaced()
    ensures ReplaceAll("&amp;lt;", "&amp;", "&") == "&lt;"
  {
    var s0 := "&amp;lt;";
    assert ContainsAt(s0, "&amp;", 0) by { assert s0[..5] == "&amp;"; }
    assert s0[5..] == "lt;";
    assert !Contains("lt;", "&amp;");
  }

  lemma LtReplaced()
    ensures ReplaceAll("&lt;", "&lt;", "<") == "<"
  {
    var s1 := "&lt;";
    assert ContainsAt(s1, "&lt;", 0) by { assert s1[..4] == "&lt;"; }
    assert s1[4..] == "";
  }

  /**
   * The chained `replace` decodes twice: the escaped text `&lt;` comes out
   * as `<` instead of `&lt;`.
   */
  lemma DecodeAsWrittenDoubleDecodes()
    ensures DecodeEntitiesAsWritten(Escape("&lt;")) == "<"
    ensures DecodeEntities(Escape("&lt;")) == "&lt;"
  {
    EscapedEntityDecodes();
    AmpReplaced();
    LtReplaced();
    EntityShapes();
    forall i | 2 <= i < |ENTITIES| ensures ENTITIES[i].0 != "" && !Contains("<", ENTITIES[i].0) {
      LongerNotContained("<", ENTITIES[i].0);
    }
    assert ENTITIES[2..] == ENTITIES[1..][1..] == ENTITIES[..][1..][1..];
    ChainUnchanged("<", ENTITIES[2..]);
  }

  /** Every entity is an ampersand followed by at least three characters. */
  lemma EntityShapes()
    ensures forall k | 0 <= k < |ENTITIES| :: |ENTITIES[k].0| >= 4 && ENTITIES[k].0[0] == '&'
  {
  }

  /** A pattern longer than the text cannot occur in it. */
  lemma LongerNotContained(s: string, pat: string)
    requires |pat| > |s|
    ensures !Contains(s, pat)
  {
  }

  lemma {:induction false} ChainUnchanged(s: string, pairs: seq<(string, string)>)
    requires forall i | 0 <= i < |pairs| :: pairs[i].0 != "" && !Contains(s, pairs[i].0)
    ensures ReplaceChain(s, pairs) == s
  {
    if pairs != [] {
      ChainUnchanged(s, pairs[1..]);
    }
  }
}
