// freeq-server/src/connection/policy_cmd.rs: the IRC `POLICY` command.
// Tree queries over requirements, the REQUIRE rewrite and its argument and
// URL checks, the operator test, and the SET / SET-ROLE / REQUIRE / INFO
// handlers over the policy engine. Replies are the notice texts (`Err`) or
// the stored document (`Ok`); SHA-256, JSON parsing and percent-decoding
// are function parameters.

module PolicyCmd {
  import opened Common
  import opened PolicyEval
  import opened PolicyEngine
  import opened Server

  // ---------------------------------------------------------------------
  // Dispatch.

  datatype Subcommand = SetCmd | SetRoleCmd | VerifyCmd | InfoCmd | AcceptCmd | ClearCmd | RequireCmd

  const NOT_ENABLED := "Policy framework is not enabled on this server"
  const SHORT_USAGE := "Usage: POLICY <channel> SET|SET-ROLE|VERIFY|INFO|ACCEPT|CLEAR"
  const NOT_A_CHANNEL := "POLICY only applies to channels"
  const FULL_USAGE := "Usage: POLICY <channel> SET|SET-ROLE|REQUIRE|VERIFY|INFO|ACCEPT|CLEAR"
  const NOT_OP := "You're not channel operator"
  const NO_BASE_POLICY := "Set a base policy first with POLICY <channel> SET <rules>"

  /** The subcommand named by an already upper-cased word. */
  function SubcommandOf(word: string): Option<Subcommand>
  {
    if word == "SET" then Some(SetCmd)
    else if word == "SET-ROLE" then Some(SetRoleCmd)
    else if word == "VERIFY" then Some(VerifyCmd)
    else if word == "INFO" then Some(InfoCmd)
    else if word == "ACCEPT" then Some(AcceptCmd)
    else if word == "CLEAR" then Some(ClearCmd)
    else if word == "REQUIRE" then Some(RequireCmd)
    else None
  }

  /**
   * The checks `handle_policy` makes before running a subcommand, in order:
   * engine present, two parameters, a `#` target, a known subcommand.
   */
  function Dispatch(engineEnabled: bool, params: seq<string>): (r: Result<(string, Subcommand), string>)
    ensures r.Ok? ==> engineEnabled && |params| >= 2 && r.value.0 == params[0] && StartsWith(params[0], "#")
    ensures r.Ok? ==> SubcommandOf(UpperStr(params[1])) == Some(r.value.1)
    ensures !engineEnabled ==> r == Err(NOT_ENABLED)
  {
    if !engineEnabled then Err(NOT_ENABLED)
    else if |params| < 2 then Err(SHORT_USAGE)
    else if !StartsWith(params[0], "#") then Err(NOT_A_CHANNEL)
    else match SubcommandOf(UpperStr(params[1]))
      case None => Err(FULL_USAGE)
      case Some(c) => Ok((params[0], c))
  }

  /** Subcommands are matched without regard to case. */
  lemma DispatchIgnoresCase(engineEnabled: bool, params: seq<string>, word: string)
    requires |params| >= 2 && UpperStr(word) == UpperStr(params[1])
    ensures Dispatch(engineEnabled, params[1 := word]) == Dispatch(engineEnabled, params)
  {
    assert params[1 := word][0] == params[0];
  }

  /** Every spelling of `require` reaches REQUIRE on a channel target. */
  lemma LowerCaseRequireDispatches(params: seq<string>)
    requires |params| >= 2 && params[1] == "require" && StartsWith(params[0], "#")
    ensures Dispatch(true, params) == Ok((params[0], RequireCmd))
  {
    assert UpperStr("require") == "REQUIRE";
  }

  /** A target without `#` is refused whatever the subcommand. */
  lemma NonChannelRejected(params: seq<string>)
    requires |params| >= 2 && !StartsWith(params[0], "#")
    ensures Dispatch(true, params) == Err(NOT_A_CHANNEL)
  {
  }

  // ---------------------------------------------------------------------
  // `is_channel_op`.

  /** A session is an operator if it holds `+o`, or its DID is a DID-op or the founder. */
  predicate IsChannelOp(channels: map<string, ChannelState>, channel: string, sid: string, did: Option<string>)
  {
    channel in channels
    && (sid in channels[channel].ops
        || (did.Some? && (did.value in channels[channel].didOps || channels[channel].founderDid == did)))
  }

  /** The founder counts as an operator from any session, and nobody is an operator of a missing channel. */
  lemma FounderIsChannelOp(channels: map<string, ChannelState>, channel: string, sid: string, d: string)
    requires channel in channels && channels[channel].founderDid == Some(d)
    ensures IsChannelOp(channels, channel, sid, Some(d))
    ensures forall c | c !in channels :: !IsChannelOp(channels, c, sid, Some(d))
  {
  }

  /** Without an authenticated DID only `+o` counts. */
  lemma GuestNeedsPlusO(channels: map<string, ChannelState>, channel: string, sid: string)
    ensures IsChannelOp(channels, channel, sid, None) <==> channel in channels && sid in channels[channel].ops
  {
  }

  // ---------------------------------------------------------------------
  // Tree queries.

  /** `sub` is the tree `req` or one of its subtrees, under All, Any or Not. */
  predicate Occurs(sub: Requirement, req: Requirement)
    decreases req, 1
  {
    sub == req
    || match req
       case All(rs) => OccursIn(sub, rs)
       case Any(rs) => OccursIn(sub, rs)
       case Not(r) => Occurs(sub, r)
       case _ => false
  }

  predicate OccursIn(sub: Requirement, rs: seq<Requirement>)
    decreases rs, 0
  {
    exists i | 0 <= i < |rs| :: Occurs(sub, rs[i])
  }

  /** `extract_accept_hash`. */
  function AcceptHashes(req: Requirement): set<string>
    decreases req, 1
  {
    match req
    case Accept(h) => {h}
    case All(rs) => AcceptHashesIn(rs)
    case Any(rs) => AcceptHashesIn(rs)
    case Not(r) => AcceptHashes(r)
    case _ => {}
  }

  function AcceptHashesIn(rs: seq<Requirement>): set<string>
    decreases rs, 0
  {
    if rs == [] then {} else AcceptHashes(rs[0]) + AcceptHashesIn(rs[1..])
  }

  lemma OccursInCons(sub: Requirement, rs: seq<Requirement>)
    requires rs != []
    ensures OccursIn(sub, rs) <==> Occurs(sub, rs[0]) || OccursIn(sub, rs[1..])
  {
    if OccursIn(sub, rs) {
      var i :| 0 <= i < |rs| && Occurs(sub, rs[i]);
      if i > 0 {
        assert rs[1..][i - 1] == rs[i];
      }
    }
    if OccursIn(sub, rs[1..]) {
      var j :| 0 <= j < |rs[1..]| && Occurs(sub, rs[1..][j]);
      assert rs[j + 1] == rs[1..][j];
    }
  }

  /** The collected hashes are exactly those of the Accept nodes anywhere in the tree, under Not included. */
  lemma {:induction false} AcceptHashesExact(req: Requirement, h: string)
    ensures h in AcceptHashes(req) <==> Occurs(Accept(h), req)
    decreases req, 1
  {
    match req
    case All(rs) => AcceptHashesInExact(rs, h);
    case Any(rs) => AcceptHashesInExact(rs, h);
    case Not(r) => AcceptHashesExact(r, h);
    case _ =>
  }

  lemma {:induction false} AcceptHashesInExact(rs: seq<Requirement>, h: string)
    ensures h in AcceptHashesIn(rs) <==> OccursIn(Accept(h), rs)
    decreases rs, 0
  {
    if rs != [] {
      AcceptHashesExact(rs[0], h);
      AcceptHashesInExact(rs[1..], h);
      OccursInCons(Accept(h), rs);
    }
  }

  /** `already_requires_credential`: some Present node names the type (its issuer is not looked at). */
  predicate RequiresCredential(req: Requirement, credentialType: string)
    decreases req, 1
  {
    match req
    case Present(t, _) => t == credentialType
    case All(rs) => SomeRequires(rs, credentialType)
    case Any(rs) => SomeRequires(rs, credentialType)
    case Not(r) => RequiresCredential(r, credentialType)
    case _ => false
  }

  predicate SomeRequires(rs: seq<Requirement>, credentialType: string)
    decreases rs, 0
  {
    rs != [] && (RequiresCredential(rs[0], credentialType) || SomeRequires(rs[1..], credentialType))
  }

  /** A tree requires a credential type only through a Present node of that type, with some issuer. */
  lemma {:induction false} RequiresWitness(req: Requirement, ct: string) returns (iss: Option<string>)
    requires RequiresCredential(req, ct)
    ensures Occurs(Present(ct, iss), req)
    decreases req, 1
  {
    match req {
      case Present(_, i) => iss := i;
      case All(rs) => iss := SomeRequiresWitness(rs, ct);
      case Any(rs) => iss := SomeRequiresWitness(rs, ct);
      case Not(r) => iss := RequiresWitness(r, ct);
    }
  }

  lemma {:induction false} SomeRequiresWitness(rs: seq<Requirement>, ct: string) returns (iss: Option<string>)
    requires SomeRequires(rs, ct)
    ensures OccursIn(Present(ct, iss), rs)
    decreases rs, 0
  {
    if RequiresCredential(rs[0], ct) {
      iss := RequiresWitness(rs[0], ct);
    } else {
      iss := SomeRequiresWitness(rs[1..], ct);
    }
    OccursInCons(Present(ct, iss), rs);
  }

  /** Conversely a Present node of the type, whatever its issuer, makes the tree require it. */
  lemma {:induction false} PresentMeansRequired(req: Requirement, ct: string, iss: Option<string>)
    requires Occurs(Present(ct, iss), req)
    ensures RequiresCredential(req, ct)
    decreases req, 1
  {
    match req {
      case Present(_, _) =>
      case All(rs) => PresentInMeansRequired(rs, ct, iss);
      case Any(rs) => PresentInMeansRequired(rs, ct, iss);
      case Not(r) => PresentMeansRequired(r, ct, iss);
    }
  }

  lemma {:induction false} PresentInMeansRequired(rs: seq<Requirement>, ct: string, iss: Option<string>)
    requires OccursIn(Present(ct, iss), rs)
    ensures SomeRequires(rs, ct)
    decreases rs, 0
  {
    OccursInCons(Present(ct, iss), rs);
    if Occurs(Present(ct, iss), rs[0]) {
      PresentMeansRequired(rs[0], ct, iss);
    } else {
      PresentInMeansRequired(rs[1..], ct, iss);
    }
  }

  // ---------------------------------------------------------------------
  // The REQUIRE rewrite.

  /** The tree REQUIRE stores: unchanged if the type is already required, else one more Present under an All. */
  function RequireRewrite(current: Requirement, ct: string, issuer: string): Requirement
  {
    if RequiresCredential(current, ct) then current
    else
      var p := Present(ct, Some(issuer));
      match current
      case All(rs) => All(rs + [p])
      case _ => All([current, p])
  }

  lemma {:induction false} SomeRequiresAppend(rs: seq<Requirement>, extra: seq<Requirement>, ct: string)
    ensures SomeRequires(rs + extra, ct) <==> SomeRequires(rs, ct) || SomeRequires(extra, ct)
    decreases |rs|
  {
    if rs != [] {
      assert (rs + extra)[0] == rs[0] && (rs + extra)[1..] == rs[1..] + extra;
      SomeRequiresAppend(rs[1..], extra, ct);
    } else {
      assert rs + extra == extra;
    }
  }

  lemma {:induction false} AllHoldAppend(rs: seq<Requirement>, extra: seq<Requirement>, ev: UserEvidence)
    ensures AllHold(rs + extra, ev) <==> AllHold(rs, ev) && AllHold(extra, ev)
    decreases |rs|
  {
    if rs != [] {
      assert (rs + extra)[0] == rs[0] && (rs + extra)[1..] == rs[1..] + extra;
      AllHoldAppend(rs[1..], extra, ev);
    } else {
      assert rs + extra == extra;
    }
  }

  lemma {:induction false} AcceptHashesInAppend(rs: seq<Requirement>, extra: seq<Requirement>)
    ensures AcceptHashesIn(rs + extra) == AcceptHashesIn(rs) + AcceptHashesIn(extra)
    decreases |rs|
  {
    if rs != [] {
      assert (rs + extra)[0] == rs[0] && (rs + extra)[1..] == rs[1..] + extra;
      AcceptHashesInAppend(rs[1..], extra);
    } else {
      assert rs + extra == extra;
    }
  }

  /** After REQUIRE the tree always requires the credential type. */
  lemma RewriteRequires(current: Requirement, ct: string, issuer: string)
    ensures RequiresCredential(RequireRewrite(current, ct, issuer), ct)
  {
    var p := Present(ct, Some(issuer));
    if !RequiresCredential(current, ct) {
      assert SomeRequires([p], ct);
      match current {
        case All(rs) => SomeRequiresAppend(rs, [p], ct);
        case _ => assert [current, p][1..] == [p];
      }
    }
  }

  /**
   * When the type was not yet required, the new tree holds exactly when the
   * old one does and the user shows that credential from that issuer.
   */
  lemma RewriteMeaning(current: Requirement, ct: string, issuer: string, ev: UserEvidence)
    requires !RequiresCredential(current, ct)
    ensures Holds(RequireRewrite(current, ct, issuer), ev) <==> Holds(current, ev) && HasCredential(ev, ct, Some(issuer))
  {
    var p := Present(ct, Some(issuer));
    assert AllHold([p], ev) <==> HasCredential(ev, ct, Some(issuer)) by {
      assert [p][1..] == [];
    }
    match current {
      case All(rs) => AllHoldAppend(rs, [p], ev);
      case _ => assert [current, p][1..] == [p];
    }
  }

  /** REQUIRE never adds or removes an ACCEPT hash. */
  lemma RewriteKeepsAcceptHashes(current: Requirement, ct: string, issuer: string)
    ensures AcceptHashes(RequireRewrite(current, ct, issuer)) == AcceptHashes(current)
  {
    var p := Present(ct, Some(issuer));
    if !RequiresCredential(current, ct) {
      assert AcceptHashesIn([p]) == {} by { assert [p][1..] == []; }
      match current {
        case All(rs) => AcceptHashesInAppend(rs, [p]);
        case _ =>
          assert [current, p][1..] == [p];
          assert AcceptHashesIn([current, p]) == AcceptHashes(current) + AcceptHashesIn([p]);
      }
    }
  }

  // ---------------------------------------------------------------------
  // REQUIRE arguments: `issuer=`, `url=` and `label=` words, the last of each kind winning.

  datatype RequireArgs = RequireArgs(issuer: string, url: string, labelText: string)

  /** The value of the last word starting with `key`, with the key removed. */
  function LastValue(ws: seq<string>, key: string): (r: Option<string>)
    ensures r.Some? ==> key + r.value in ws
  {
    if ws == [] then None
    else
      var w := ws[|ws| - 1];
      if StartsWith(w, key) then
        assert w == key + w[|key|..];
        Some(w[|key|..])
      else
        var r := LastValue(ws[..|ws| - 1], key);
        assert r.Some? ==> key + r.value in ws[..|ws| - 1];
        r
  }

  /** `LastValue` finds a value iff some word carries the key, and it is the last such word's. */
  lemma {:induction false} LastValueIsLast(ws: seq<string>, key: string)
    ensures LastValue(ws, key).Some? <==> exists i | 0 <= i < |ws| :: StartsWith(ws[i], key)
    ensures LastValue(ws, key).Some? ==> exists i | 0 <= i < |ws| ::
      ws[i] == key + LastValue(ws, key).value && forall j | i < j < |ws| :: !StartsWith(ws[j], key)
    decreases |ws|
  {
    if ws != [] {
      var n := |ws| - 1;
      var w := ws[n];
      var init := ws[..n];
      LastValueIsLast(init, key);
      assert forall i | 0 <= i < n :: init[i] == ws[i];
      if StartsWith(w, key) {
        assert w == key + w[|key|..];
        assert LastValue(ws, key) == Some(w[|key|..]);
        assert ws[n] == key + LastValue(ws, key).value;
      } else {
        assert LastValue(ws, key) == LastValue(init, key);
        if LastValue(init, key).Some? {
          var i :| 0 <= i < n && init[i] == key + LastValue(init, key).value && forall j | i < j < n :: !StartsWith(init[j], key);
          assert ws[i] == key + LastValue(ws, key).value && forall j | i < j < |ws| :: !StartsWith(ws[j], key);
        }
      }
    }
  }

  /** `str::replace(c, d)` on single characters. */
  function ReplaceChar(s: string, c: char, d: char): (r: string)
    ensures |r| == |s|
    ensures forall i | 0 <= i < |s| :: r[i] == (if s[i] == c then d else s[i])
  {
    if s == [] then [] else [if s[0] == c then d else s[0]] + ReplaceChar(s[1..], c, d)
  }

  function LabelOf(v: Option<string>, ct: string): string
  {
    match v
    case None => "Verify " + ct
    case Some(l) => ReplaceChar(l, '_', ' ')
  }

  /** What the argument loop leaves in `issuer`, `url` and `label`. */
  function RequireArgsOf(ws: seq<string>, ct: string): RequireArgs
  {
    RequireArgs(LastValue(ws, "issuer=").UnwrapOr(""), LastValue(ws, "url=").UnwrapOr(""), LabelOf(LastValue(ws, "label="), ct))
  }

  /** Extending the words by one re-reads only that word. */
  lemma LastValueStep(ws: seq<string>, i: nat, key: string)
    requires i < |ws|
    ensures LastValue(ws[..i + 1], key) == if StartsWith(ws[i], key) then Some(ws[i][|key|..]) else LastValue(ws[..i], key)
  {
    assert ws[..i + 1][..i] == ws[..i] && ws[..i + 1][i] == ws[i];
  }

  /** No word starts with two of the three keys. */
  lemma KeysExclusive(w: string)
    ensures StartsWith(w, "issuer=") ==> !StartsWith(w, "url=") && !StartsWith(w, "label=")
    ensures StartsWith(w, "url=") ==> !StartsWith(w, "label=")
  {
    if StartsWith(w, "issuer=") { assert w[0] == 'i'; }
    if StartsWith(w, "url=") { assert w[0] == 'u'; }
  }

  /** The argument loop over the whitespace-separated words of `rest`. */
  method ParseRequireArgs(rest: string, ct: string) returns (a: RequireArgs)
    ensures a == RequireArgsOf(Words(rest), ct)
  {
    var ws := Words(rest);
    var issuer, url, labelText := "", "", "Verify " + ct;
    var i := 0;
    while i < |ws|
      invariant 0 <= i <= |ws|
      invariant issuer == LastValue(ws[..i], "issuer=").UnwrapOr("")
      invariant url == LastValue(ws[..i], "url=").UnwrapOr("")
      invariant labelText == LabelOf(LastValue(ws[..i], "label="), ct)
    {
      var part := ws[i];
      LastValueStep(ws, i, "issuer=");
      LastValueStep(ws, i, "url=");
      LastValueStep(ws, i, "label=");
      KeysExclusive(part);
      if StartsWith(part, "issuer=") {
        issuer := part[7..];
      } else if StartsWith(part, "url=") {
        url := part[4..];
      } else if StartsWith(part, "label=") {
        labelText := ReplaceChar(part[6..], '_', ' ');
      }
      i := i + 1;
    }
    assert ws[..i] == ws;
    a := RequireArgs(issuer, url, labelText);
  }

  /** A later `issuer=` word overrides an earlier one; unrelated words change nothing. */
  lemma LaterIssuerWins(ws: seq<string>, ct: string, x: string, other: string)
    requires !StartsWith(other, "issuer=") && !StartsWith(other, "url=") && !StartsWith(other, "label=")
    ensures RequireArgsOf(ws + ["issuer=" + x], ct).issuer == x
    ensures RequireArgsOf(ws + [other], ct) == RequireArgsOf(ws, ct)
  {
    var w := "issuer=" + x;
    assert (ws + [w])[|ws + [w]| - 1] == w;
    assert w[|"issuer="|..] == x;
    assert (ws + [other])[..|ws + [other]| - 1] == ws;
  }

  /** A missing label reads "Verify <type>"; a given one has its underscores turned into spaces. */
  lemma LabelDefaults(ct: string, l: string)
    ensures RequireArgsOf([], ct).labelText == "Verify " + ct
    ensures var t := RequireArgsOf(["label=" + l], ct).labelText;
      |t| == |l| && forall i | 0 <= i < |l| :: t[i] == (if l[i] == '_' then ' ' else l[i])
  {
    var w := "label=" + l;
    assert w[0] == 'l' && w[..6] == "label=";
    assert !StartsWith(w, "issuer=") && !StartsWith(w, "url=");
    assert w[6..] == l;
  }

  // ---------------------------------------------------------------------
  // REQUIRE URL checks.

  const FORBIDDEN_URL := "Invalid URL: contains forbidden characters"
  const BAD_URL_SCHEME := "URL must be a relative path (/) or https:// URL"

  predicate ForbiddenUrl(d: string)
  {
    '<' in d || '>' in d || '"' in d || Contains(d, "javascript:")
  }

  /**
   * The forbidden-content test runs on the decoded URL (the raw URL when
   * decoding fails); the scheme test runs on the raw URL, and only after.
   */
  function CheckRequireUrl(url: string, decoded: Option<string>): (r: Result<(), string>)
    ensures r.Ok? <==> !ForbiddenUrl(decoded.UnwrapOr(url)) && (StartsWith(url, "/") || StartsWith(url, "https://"))
    ensures ForbiddenUrl(decoded.UnwrapOr(url)) ==> r == Err(FORBIDDEN_URL)
    ensures r.Err? && !ForbiddenUrl(decoded.UnwrapOr(url)) ==> r == Err(BAD_URL_SCHEME)
  {
    var d := decoded.UnwrapOr(url);
    if ForbiddenUrl(d) then Err(FORBIDDEN_URL)
    else if !StartsWith(url, "/") && !StartsWith(url, "https://") then Err(BAD_URL_SCHEME)
    else Ok(())
  }

  /** A `javascript:` URL is refused, percent-encoded or not. */
  lemma JavascriptUrlRejected(url: string, decoded: Option<string>)
    requires StartsWith(decoded.UnwrapOr(url), "javascript:")
    ensures CheckRequireUrl(url, decoded) == Err(FORBIDDEN_URL)
  {
    assert ContainsAt(decoded.UnwrapOr(url), "javascript:", 0);
  }

  /** A plain http URL passes the content test and fails the scheme test. */
  lemma PlainHttpRejected(rest: string)
    ensures CheckRequireUrl("http://" + rest, None) == Err(BAD_URL_SCHEME) || CheckRequireUrl("http://" + rest, None) == Err(FORBIDDEN_URL)
  {
    var u := "http://" + rest;
    assert u[..4] == "http";
    assert !StartsWith(u, "/") && !StartsWith(u, "https://") by {
      assert u[0] == 'h' && u[4] == ':';
    }
  }

  // ---------------------------------------------------------------------
  // Accept hashes offered by POLICY ACCEPT: the main tree's and every role tree's.

  function RoleAcceptHashes(roles: map<string, Requirement>): set<string>
  {
    set k, h | k in roles && h in AcceptHashes(roles[k]) :: h
  }

  function AcceptedHashesFor(p: PolicyDocument): set<string>
  {
    AcceptHashes(p.requirements) + RoleAcceptHashes(p.roleRequirements)
  }

  /** ACCEPT offers exactly the hashes of the Accept nodes of the main tree and of every role tree. */
  lemma AcceptedHashesExact(p: PolicyDocument, h: string)
    ensures h in AcceptedHashesFor(p) <==>
      Occurs(Accept(h), p.requirements) || exists k | k in p.roleRequirements :: Occurs(Accept(h), p.roleRequirements[k])
  {
    AcceptHashesExact(p.requirements, h);
    forall k | k in p.roleRequirements {
      AcceptHashesExact(p.roleRequirements[k], h);
    }
  }

  // ---------------------------------------------------------------------
  // `describe_requirement`.

  /**
   * `&hash[..12.min(hash.len())]` as written: a slice of the first 12 BYTES,
   * which panics (None) when byte 12 falls inside a multi-byte character.
   */
  function AcceptPrefixAsWritten(hash: string): (r: Option<string>)
    ensures r.Some? ==> r.value <= hash && |Utf8(r.value)| == Min(12, |Utf8(hash)|)
  {
    match BoundaryIndex(hash, Min(12, |Utf8(hash)|))
    case None => None
    case Some(k) => Some(hash[..k])
  }

  /** The first 12 characters of the hash, which never fails. */
  function AcceptPrefix(hash: string): (r: string)
    ensures r <= hash && |r| == Min(12, |hash|)
  {
    hash[..Min(12, |hash|)]
  }

  /** On ASCII hashes (every hex SHA-256 that SET stores) the byte slice is the character prefix. */
  lemma AsWrittenAgreesOnAscii(hash: string)
    requires forall i | 0 <= i < |hash| :: hash[i] as int < 0x80
    ensures AcceptPrefixAsWritten(hash) == Some(AcceptPrefix(hash))
  {
    Utf8AsciiLength(hash);
    var n := Min(12, |hash|);
    Utf8AsciiLength(hash[..n]);
    BoundaryIndexComplete(hash, n, n);
  }

  /**
   * The hash "aééééééé" (15 bytes) set through SET-ROLE's JSON makes
   * POLICY INFO panic: byte 12 is the second byte of the sixth 'é'.
   */
  lemma AcceptPrefixPanics()
    ensures var h := "a" + EAcute(7);
      AcceptPrefixAsWritten(h) == None && |AcceptPrefix(h)| == 8
  {
    var h := "a" + EAcute(7);
    EAcuteUtf8Length(7);
    assert h[0] == 'a' && h[1..] == EAcute(7);
    assert |Utf8(h)| == 15;
    EAcuteNoOddBoundary(7, 11);
    assert BoundaryIndex(h, 12) == None;
  }

  /** `describe_requirement`, showing the first 12 characters of an Accept hash. */
  function Describe(req: Requirement): (r: string)
    ensures |r| > 0 && r[|r| - 1] == ')'
    decreases req, 1
  {
    match req
    case Accept(h) => "ACCEPT(" + AcceptPrefix(h) + "...)"
    case Present(t, iss) =>
      if iss.Some? then "PRESENT(" + t + ", issuer=" + iss.value + ")" else "PRESENT(" + t + ")"
    case Prove(p) => "PROVE(" + p + ")"
    case All(rs) => "ALL(" + DescribeAll(rs) + ")"
    case Any(rs) => "ANY(" + DescribeAll(rs) + ")"
    case Not(r) => "NOT(" + Describe(r) + ")"
  }

  /** The children's descriptions joined by ", ". */
  function DescribeAll(rs: seq<Requirement>): string
    decreases rs, 0
  {
    if rs == [] then ""
    else if |rs| == 1 then Describe(rs[0])
    else Describe(rs[0]) + ", " + DescribeAll(rs[1..])
  }

  /** Hashes that agree on their first 12 characters are described alike. */
  lemma DescribeShowsTwelve(h1: string, h2: string)
    requires |h1| >= 12 && |h2| >= 12 && h1[..12] == h2[..12]
    ensures Describe(Accept(h1)) == Describe(Accept(h2))
  {
    assert AcceptPrefix(h1) == h1[..12] && AcceptPrefix(h2) == h2[..12];
  }

  /** A hash of at most 12 characters is shown whole. */
  lemma DescribeShortHash(h: string)
    requires |h| <= 12
    ensures Describe(Accept(h)) == "ACCEPT(" + h + "...)"
  {
    assert AcceptPrefix(h) == h[..|h|] == h;
  }

  /** A group's description lists each child's description in order. */
  lemma {:induction false} DescribeAllContains(rs: seq<Requirement>, i: nat)
    requires i < |rs|
    ensures Contains(DescribeAll(rs), Describe(rs[i]))
    decreases |rs|
  {
    var first := Describe(rs[0]);
    ContainsSelf(first);
    if |rs| == 1 {
    } else {
      var rest := DescribeAll(rs[1..]);
      assert DescribeAll(rs) == first + ", " + rest;
      if i == 0 {
        ContainsWithin([], first, ", " + rest, first);
        assert [] + first + (", " + rest) == first + ", " + rest;
      } else {
        assert rs[1..][i - 1] == rs[i];
        DescribeAllContains(rs[1..], i - 1);
        ContainsWithin(first + ", ", rest, [], Describe(rs[i]));
        assert first + ", " + rest + [] == first + ", " + rest;
      }
    }
  }

  // ---------------------------------------------------------------------
  // Handlers over the engine.

  /** POLICY SET: the rules text's hash becomes the only requirement; role requirements are dropped. */
  method HandleSet(e: Engine, channels: map<string, ChannelState>, channel: string, sid: string, did: Option<string>,
                   params: seq<string>, sha256Hex: string -> string, now: nat,
                   joinId: string, nonce: string, attestationId: string)
    returns (r: Result<PolicyDocument, string>)
    requires |params| >= 2
    modifies e
    ensures !IsChannelOp(channels, channel, sid, did) ==> r == Err(NOT_OP) && unchanged(e)
    ensures IsChannelOp(channels, channel, sid, did) && |params| <= 2 ==> r == Err("Usage: POLICY <channel> SET <rules text>") && unchanged(e)
    ensures r.Ok? ==>
      |params| > 2 && r.value.requirements == Accept(sha256Hex(Join(params[2..], " ")))
      && r.value.roleRequirements == map[] && e.CurrentPolicy(channel) == Some(r.value)
      && (old(e.CurrentPolicy(channel)).Some? ==> r.value.version == old(e.CurrentPolicy(channel)).value.version + 1)
    ensures r.Err? ==> unchanged(e)
    ensures r.Ok? ==> e.policies == old(e.policies)[channel := old(e.ChainOf(channel)) + [r.value]]
    ensures r.Ok? && old(e.CurrentPolicy(channel)).Some? ==> e.authoritySets == old(e.authoritySets)
    ensures r.Ok? && old(e.CurrentPolicy(channel)).None? ==>
      e.authoritySets == old(e.authoritySets)[r.value.authoritySetHash := AuthoritySet(channel, e.authorityDid, e.publicKeyLabel, 1, 3600)]
    ensures r.Ok? && did.Some? ==>
      e.AttestationOf(channel, did.value).Some? && e.AttestationOf(channel, did.value).value.policyId == r.value.policyId.UnwrapOr("")
    ensures r.Ok? && did.Some? ==>
      var d := JoinDecision(Some(r.value), old(e.AttestationOf(channel, did.value)), AutoEvidence(r.value.requirements.hash), now);
      (d.Reuse? || d.Admit?)
      && (d.Reuse? ==> e.attestations == old(e.attestations) && e.receipts == old(e.receipts) && e.joinStates == old(e.joinStates))
      && (d.Admit? ==>
            e.attestations == old(e.attestations)[(channel, did.value) := e.Issued(attestationId, channel, r.value, did.value, d.role, joinId, now)]
            && e.receipts == old(e.receipts)[joinId := AdmitReceipt(channel, r.value, joinId, did.value, now, nonce)]
            && e.joinStates == old(e.joinStates)[joinId := JoinConfirmed])
    ensures r.Ok? && did.None? ==>
      e.attestations == old(e.attestations) && e.receipts == old(e.receipts) && e.joinStates == old(e.joinStates)
  {
    if !IsChannelOp(channels, channel, sid, did) {
      return Err(NOT_OP);
    }
    if |params| <= 2 {
      return Err("Usage: POLICY <channel> SET <rules text>");
    }
    var req := Accept(sha256Hex(Join(params[2..], " ")));
    var current := e.CurrentPolicy(channel);
    var res;
    if current.Some? {
      UpdateChains(e.ChainOf(channel), channel, req, map[], None, now, e.hashPolicy);
      res := e.UpdateChannelPolicy(channel, req, map[], None, now);
    } else {
      res := e.CreateChannelPolicy(channel, req, map[], now);
      if res.Ok? {
        LatestAfterNewerVersion([], res.value);
        assert old(e.ChainOf(channel)) == [];
      }
    }
    match res {
      case Err(msg) =>
        return Err("Failed to set policy: " + msg);
      case Ok(_) =>
    }
    r := res;
    if did.Some? {
      AutoAttest(e, channel, did.value, req.hash, now, joinId, nonce, attestationId);
    }
  }

  /** The evidence the op who set the rules is credited with: exactly their acceptance of the rules' hash. */
  function AutoEvidence(hash: string): UserEvidence
  {
    UserEvidence({hash}, [], {})
  }

  /**
   * The op who set the rules is attested at once, with evidence accepting
   * exactly their hash: a still-valid attestation under this policy is kept,
   * otherwise the join is admitted and its attestation, receipt and state stored.
   */
  method AutoAttest(e: Engine, channel: string, did: string, hash: string, now: nat,
                    joinId: string, nonce: string, attestationId: string)
    requires e.CurrentPolicy(channel).Some?
    requires e.CurrentPolicy(channel).value.requirements == Accept(hash)
    modifies e
    ensures e.policies == old(e.policies) && e.authoritySets == old(e.authoritySets)
    ensures e.AttestationOf(channel, did).Some?
    ensures e.AttestationOf(channel, did).value.policyId == old(e.CurrentPolicy(channel)).value.policyId.UnwrapOr("")
    ensures var d := JoinDecision(old(e.CurrentPolicy(channel)), old(e.AttestationOf(channel, did)), AutoEvidence(hash), now);
      (d.Reuse? || d.Admit?)
      && (d.Reuse? ==> unchanged(e))
      && (d.Admit? ==>
            d.policy == old(e.CurrentPolicy(channel)).value
            && e.attestations == old(e.attestations)[(channel, did) := e.Issued(attestationId, channel, d.policy, did, d.role, joinId, now)]
            && e.receipts == old(e.receipts)[joinId := AdmitReceipt(channel, d.policy, joinId, did, now, nonce)]
            && e.joinStates == old(e.joinStates)[joinId := JoinConfirmed])
  {
    var ev := AutoEvidence(hash);
    LeafSemantics(ev, hash, "", None, "");
    var _ := e.ProcessJoin(channel, did, ev, now, joinId, nonce, attestationId);
  }

  /** POLICY SET-ROLE: the parsed requirement replaces the role's entry; the main tree is kept. */
  method HandleSetRole(e: Engine, channels: map<string, ChannelState>, channel: string, sid: string, did: Option<string>,
                       params: seq<string>, parseJson: string -> Option<Requirement>, now: nat)
    returns (r: Result<PolicyDocument, string>)
    requires |params| >= 2
    modifies e
    ensures !IsChannelOp(channels, channel, sid, did) ==> r == Err(NOT_OP) && unchanged(e)
    ensures r.Ok? ==>
      |params| >= 4 && old(e.CurrentPolicy(channel)).Some?
      && var cur := old(e.CurrentPolicy(channel)).value;
      var role := LowerStr(params[2]);
      parseJson(Join(params[3..], " ")).Some?
      && r.value.roleRequirements == cur.roleRequirements[role := parseJson(Join(params[3..], " ")).value]
      && r.value.requirements == cur.requirements
      && r.value.version == cur.version + 1
      && e.CurrentPolicy(channel) == Some(r.value)
    ensures old(e.CurrentPolicy(channel)).None? ==> r.Err? && e.policies == old(e.policies)
    ensures IsChannelOp(channels, channel, sid, did) && |params| >= 4 && parseJson(Join(params[3..], " ")).None? ==>
      r == Err("Invalid requirement JSON") && unchanged(e)
    ensures r.Err? ==> unchanged(e)
    ensures r.Ok? ==> e.policies == old(e.policies)[channel := old(e.ChainOf(channel)) + [r.value]]
    ensures e.authoritySets == old(e.authoritySets)
    ensures e.attestations == old(e.attestations) && e.receipts == old(e.receipts) && e.joinStates == old(e.joinStates)
  {
    if !IsChannelOp(channels, channel, sid, did) {
      return Err(NOT_OP);
    }
    if |params| < 4 {
      return Err("Usage: POLICY <channel> SET-ROLE <role_name> <requirement_json>");
    }
    var role := LowerStr(params[2]);
    var parsed := parseJson(Join(params[3..], " "));
    if parsed.None? {
      return Err("Invalid requirement JSON");
    }
    var current := e.CurrentPolicy(channel);
    if current.None? {
      return Err(NO_BASE_POLICY);
    }
    var roles := current.value.roleRequirements[role := parsed.value];
    UpdateChains(e.ChainOf(channel), channel, current.value.requirements, roles, None, now, e.hashPolicy);
    var res := e.UpdateChannelPolicy(channel, current.value.requirements, roles, None, now);
    if res.Err? {
      return Err("Failed to set role: " + res.error);
    }
    r := res;
  }

  /**
   * The checks REQUIRE makes before it looks at the stored policy: the
   * credential type (lower-cased), then the arguments, then the URL.
   */
  function RequireRequest(params: seq<string>, urlDecode: string -> Option<string>): (r: Result<(string, RequireArgs), string>)
    requires |params| >= 3
    ensures r.Ok? ==> r.value.1.issuer != [] && r.value.1.url != [] && CheckRequireUrl(r.value.1.url, urlDecode(r.value.1.url)).Ok?
    ensures r.Ok? ==> IsLowerStr(r.value.0)
  {
    var ct := LowerStr(params[2]);
    var a := RequireArgsOf(Words(Join(params[3..], " ")), ct);
    if a.issuer == [] || a.url == [] then Err("issuer= and url= are required")
    else
      var check := CheckRequireUrl(a.url, urlDecode(a.url));
      if check.Err? then Err(check.error)
      else
        LowerStrIsLower(params[2]);
        Ok((ct, a))
  }

  /** POLICY REQUIRE: record a credential endpoint and require the credential in the main tree. */
  method HandleRequire(e: Engine, channels: map<string, ChannelState>, channel: string, sid: string, did: Option<string>,
                       params: seq<string>, urlDecode: string -> Option<string>, now: nat)
    returns (r: Result<PolicyDocument, string>)
    requires |params| >= 2
    modifies e
    ensures !IsChannelOp(channels, channel, sid, did) ==> r == Err(NOT_OP) && unchanged(e)
    ensures IsChannelOp(channels, channel, sid, did) && |params| < 3 ==> r.Err? && unchanged(e)
    ensures IsChannelOp(channels, channel, sid, did) && |params| >= 3 && RequireRequest(params, urlDecode).Err? ==>
      r == Err(RequireRequest(params, urlDecode).error) && unchanged(e)
    ensures r.Ok? ==>
      |params| >= 3 && RequireRequest(params, urlDecode).Ok? && old(e.CurrentPolicy(channel)).Some?
      && var cur := old(e.CurrentPolicy(channel)).value;
      var (ct, a) := RequireRequest(params, urlDecode).value;
      r.value.requirements == RequireRewrite(cur.requirements, ct, a.issuer)
      && r.value.roleRequirements == cur.roleRequirements
      && r.value.credentialEndpoints == cur.credentialEndpoints[ct := CredentialEndpoint(a.issuer, a.url, a.labelText, None)]
      && r.value.version == cur.version + 1
      && e.CurrentPolicy(channel) == Some(r.value)
    ensures r.Err? ==> unchanged(e)
    ensures r.Ok? ==> e.policies == old(e.policies)[channel := old(e.ChainOf(channel)) + [r.value]]
    ensures e.authoritySets == old(e.authoritySets)
    ensures e.attestations == old(e.attestations) && e.receipts == old(e.receipts) && e.joinStates == old(e.joinStates)
  {
    if !IsChannelOp(channels, channel, sid, did) {
      return Err(NOT_OP);
    }
    if |params| < 3 {
      return Err("Usage: POLICY <channel> REQUIRE <credential_type> issuer=<did> url=<url> label=<text>");
    }
    var ct := LowerStr(params[2]);
    var a := ParseRequireArgs(Join(params[3..], " "), ct);
    if a.issuer == [] || a.url == [] {
      assert RequireRequest(params, urlDecode) == Err("issuer= and url= are required");
      return Err("issuer= and url= are required");
    }
    var urlCheck := CheckRequireUrl(a.url, urlDecode(a.url));
    if urlCheck.Err? {
      assert RequireRequest(params, urlDecode) == Err(urlCheck.error);
      return Err(urlCheck.error);
    }
    assert RequireRequest(params, urlDecode) == Ok((ct, a));
    var current := e.CurrentPolicy(channel);
    if current.None? {
      return Err(NO_BASE_POLICY);
    }
    r := StoreRequire(e, channel, current.value, ct, a, now);
  }

  /** The tail of REQUIRE: store the rewritten tree and the new endpoint as the next version. */
  method StoreRequire(e: Engine, channel: string, cur: PolicyDocument, ct: string, a: RequireArgs, now: nat)
    returns (r: Result<PolicyDocument, string>)
    requires e.CurrentPolicy(channel) == Some(cur)
    modifies e
    ensures r.Ok? ==>
      r.value.requirements == RequireRewrite(cur.requirements, ct, a.issuer)
      && r.value.roleRequirements == cur.roleRequirements
      && r.value.credentialEndpoints == cur.credentialEndpoints[ct := CredentialEndpoint(a.issuer, a.url, a.labelText, None)]
      && r.value.version == cur.version + 1
      && e.CurrentPolicy(channel) == Some(r.value)
    ensures r.Err? ==> unchanged(e)
    ensures r.Ok? ==> e.policies == old(e.policies)[channel := old(e.ChainOf(channel)) + [r.value]]
    ensures e.authoritySets == old(e.authoritySets)
    ensures e.attestations == old(e.attestations) && e.receipts == old(e.receipts) && e.joinStates == old(e.joinStates)
  {
    var endpoints := cur.credentialEndpoints[ct := CredentialEndpoint(a.issuer, a.url, a.labelText, None)];
    var req := RequireRewrite(cur.requirements, ct, a.issuer);
    UpdateChains(e.ChainOf(channel), channel, req, cur.roleRequirements, Some(endpoints), now, e.hashPolicy);
    var res := e.UpdateChannelPolicy(channel, req, cur.roleRequirements, Some(endpoints), now);
    if res.Err? {
      return Err("Failed: " + res.error);
    }
    r := res;
  }
}
