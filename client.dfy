// The SDK's IRC client loop: capability negotiation, nick retries, SASL
// progress, the pre-registration command queue, and the translation of
// server lines into events for the UI.

module Client {
  import opened Common
  import Canonical

  /** What the client reports to the UI. */
  datatype Event =
    | Connected
    | Registered(nick: string)
    | Authenticated(did: string)
    | AuthFailed(reason: string)
    | Joined(channel: string, nick: string)
    | Parted(channel: string, nick: string)
    | Message(sender: string, target: string, text: string, tags: map<string, string>)
    | TagMsg(sender: string, target: string, tags: map<string, string>)
    | BatchStart(id: string, batchType: string, target: string)
    | BatchEnd(id: string)
    | Names(channel: string, nicks: seq<string>)
    | NamesEnd(channel: string)
    | ModeChanged(channel: string, mode: string, arg: Option<string>, setBy: string)
    | Kicked(channel: string, nick: string, kicker: string, reason: string)
    | AwayChanged(nick: string, awayMsg: Option<string>)
    | NickChanged(oldNick: string, newNick: string)
    | Invited(channel: string, inviter: string)
    | TopicChanged(channel: string, topic: string, topicSetBy: Option<string>)
    | WhoisReply(nick: string, info: string)
    | ServerNotice(text: string)
    | UserQuit(nick: string, reason: string)
    | Disconnected(reason: string)
    | RawLine(line: string)

  /** What the UI asks the client to send. */
  datatype Command = JoinChannel(channel: string) | Privmsg(target: string, text: string) | Raw(line: string) | Quit(msg: Option<string>)

  /** A parsed server line; the line parser itself is not part of this model. */
  datatype IrcMessage = IrcMessage(tags: map<string, string>, prefix: Option<string>, command: string, params: seq<string>)

  function Get(ps: seq<string>, i: nat): (r: Option<string>)
    ensures r.Some? <==> i < |ps|
    ensures r.Some? ==> r.value == ps[i]
  {
    if i < |ps| then Some(ps[i]) else None
  }

  function GetOr(ps: seq<string>, i: nat, default: string): string
  {
    if i < |ps| then ps[i] else default
  }

  function Last(ps: seq<string>): Option<string>
  {
    if ps == [] then None else Some(ps[|ps| - 1])
  }

  /** The nick part of a prefix: everything before the first `!`, or the default without a prefix. */
  function NickOf(prefix: Option<string>, default: string): (r: string)
    ensures prefix.None? ==> r == default
    ensures prefix.Some? ==> ('!' !in r && StartsWith(prefix.value, r) &&
      (r == prefix.value || prefix.value[|r|] == '!'))
  {
    match prefix
    case None => default
    case Some(p) =>
      match FindChar(p, '!')
      case None => p
      case Some(i) => p[..i]
  }

  // ---------------------------------------------------------------------
  // Capability negotiation.

  /** The optional capabilities asked for, in this order, after `message-tags`. */
  const WANTED_CAPS: seq<string> := ["server-time", "batch", "echo-message", "away-notify", "account-notify", "extended-join", "draft/chathistory"]

  /** The members of `caps` that occur (as substrings) in the LS list, in order. */
  function Offered(caps: seq<string>, ls: string): (r: seq<string>)
    ensures forall c :: c in r <==> c in caps && Contains(ls, c)
    ensures |r| <= |caps|
  {
    if caps == [] then []
    else (if Contains(ls, caps[0]) then [caps[0]] else []) + Offered(caps[1..], ls)
  }

  /** The `req_caps` built on LS: `message-tags`, the wanted caps, then `sasl` when it can be used. */
  function CapsToRequest(ls: string, canSasl: bool): seq<string>
  {
    (if Contains(ls, "message-tags") then ["message-tags"] else []) +
    Offered(WANTED_CAPS, ls) +
    (if Contains(ls, "sasl") && canSasl then ["sasl"] else [])
  }

  /**
   * A capability is requested exactly when the server lists it and it is
   * `message-tags` or one of the wanted caps, or it is `sasl` and there is a
   * signer or a web token.
   */
  lemma CapsRequestedIff(ls: string, canSasl: bool, c: string)
    ensures c in CapsToRequest(ls, canSasl) <==>
      ((c == "message-tags" || c in WANTED_CAPS) && Contains(ls, c)) || (c == "sasl" && Contains(ls, c) && canSasl)
  {
    assert "sasl" !in WANTED_CAPS;
  }

  /** The loop that keeps the offered members of a list, in order. */
  method KeepOffered(caps: seq<string>, ls: string) returns (req: seq<string>)
    ensures req == Offered(caps, ls)
  {
    req := [];
    for i := 0 to |caps|
      invariant req == Offered(caps[..i], ls)
    {
      OfferedSnoc(caps[..i], caps[i], ls);
      assert caps[..i + 1] == caps[..i] + [caps[i]];
      if Contains(ls, caps[i]) {
        req := req + [caps[i]];
      }
    }
    assert caps[..|caps|] == caps;
  }

  /** The request list built on LS. */
  method RequestCaps(ls: string, canSasl: bool) returns (req: seq<string>)
    ensures req == CapsToRequest(ls, canSasl)
  {
    req := [];
    if Contains(ls, "message-tags") {
      req := req + ["message-tags"];
    }
    var wanted := KeepOffered(WANTED_CAPS, ls);
    req := req + wanted;
    if Contains(ls, "sasl") && canSasl {
      req := req + ["sasl"];
    }
  }

  lemma {:induction false} OfferedSnoc(caps: seq<string>, c: string, ls: string)
    ensures Offered(caps + [c], ls) == Offered(caps, ls) + (if Contains(ls, c) then [c] else [])
  {
    if caps == [] {
      assert [c][1..] == [];
    } else {
      assert (caps + [c])[1..] == caps[1..] + [c];
      OfferedSnoc(caps[1..], c, ls);
    }
  }

  /** The reply to LS: `CAP END` when nothing is requested, else one `CAP REQ` with the caps space-separated. */
  function CapLsReply(req: seq<string>): (r: string)
    ensures req == [] <==> r == "CAP END\r\n"
    ensures req != [] ==> r == "CAP REQ :" + Join(req, " ") + "\r\n"
  {
    if req == [] then "CAP END\r\n" else "CAP REQ :" + Join(req, " ") + "\r\n"
  }

  /**
   * `handle_cap_response`: the lines written and the new SASL flag. The
   * subcommand is the second parameter upper-cased; the caps are the last
   * parameter.
   */
  function CapResponse(params: seq<string>, canSasl: bool, sasl: bool): (r: (seq<string>, bool))
    ensures var sub := Get(params, 1);
      var caps := if params == [] then "" else params[|params| - 1];
      (sub.Some? && UpperStr(sub.value) == "LS" ==>
        r == ([CapLsReply(CapsToRequest(caps, canSasl))], sasl)) &&
      (sub.Some? && UpperStr(sub.value) == "ACK" ==>
        r == (if Contains(caps, "sasl") then (["AUTHENTICATE ATPROTO-CHALLENGE\r\n"], true) else (["CAP END\r\n"], sasl))) &&
      (sub.Some? && UpperStr(sub.value) == "NAK" ==> r == (["CAP END\r\n"], sasl)) &&
      (!(sub.Some? && UpperStr(sub.value) in {"LS", "ACK", "NAK"}) ==> r == ([], sasl))
  {
    var caps := match Last(params) case Some(c) => c case None => "";
    match Get(params, 1)
    case None => ([], sasl)
    case Some(sub) =>
      var s := UpperStr(sub);
      if s == "LS" then ([CapLsReply(CapsToRequest(caps, canSasl))], sasl)
      else if s == "ACK" then
        (if Contains(caps, "sasl") then (["AUTHENTICATE ATPROTO-CHALLENGE\r\n"], true) else (["CAP END\r\n"], sasl))
      else if s == "NAK" then (["CAP END\r\n"], sasl)
      else ([], sasl)
  }

  // ---------------------------------------------------------------------
  // Nick retries, the 900 DID, BATCH and numerics.

  const U32_MAX: nat := 0xFFFF_FFFF
  const MAX_NICK_TRIES: nat := 5

  /** The nick tried after the `tries`-th 433: the configured nick with the count appended. */
  function NickAttempt(base: string, tries: nat): (r: string)
    ensures StartsWith(r, base) && |r| > |base|
  {
    base + DecimalString(tries)
  }

  /** The five fallback nicks are pairwise different. */
  lemma NickAttemptsDistinct(base: string, i: nat, j: nat)
    requires i != j
    ensures NickAttempt(base, i) != NickAttempt(base, j)
  {
    if NickAttempt(base, i) == NickAttempt(base, j) {
      assert NickAttempt(base, i)[|base|..] == DecimalString(i);
      assert NickAttempt(base, j)[|base|..] == DecimalString(j);
      DecimalStringInjective(i, j);
    }
  }

  /**
   * Where the last piece of `s.split(sep)` starts: scanning left to right
   * from `i`, every match starts a new piece after it; `start` is where the
   * current piece began and no match starts in between.
   */
  function PieceStart(s: string, sep: string, start: nat, i: nat): (r: nat)
    requires |sep| > 0 && start <= i <= |s|
    requires forall j: nat :: start <= j < i ==> !ContainsAt(s, sep, j)
    ensures start <= r <= |s|
    ensures r == start || (|sep| <= r && ContainsAt(s, sep, r - |sep|))
    ensures forall j: nat :: r <= j ==> !ContainsAt(s, sep, j)
    decreases |s| - i
  {
    if i + |sep| > |s| then start
    else if ContainsAt(s, sep, i) then PieceStart(s, sep, i + |sep|, i + |sep|)
    else PieceStart(s, sep, start, i + 1)
  }

  /** Rust's `text.split(sep).last()`: the text after the last separator, or all of it. */
  function AfterLast(s: string, sep: string): (r: string)
    requires |sep| > 0
  {
    s[PieceStart(s, sep, 0, 0)..]
  }

  /** The piece after the last separator holds no separator, and is all of the text or directly follows one. */
  lemma AfterLastSplits(s: string, sep: string)
    requires |sep| > 0
    ensures var r := AfterLast(s, sep);
      |r| <= |s| && s[|s| - |r|..] == r && !Contains(r, sep) &&
      (r == s || (|r| + |sep| <= |s| && ContainsAt(s, sep, |s| - |r| - |sep|)))
  {
    var k := PieceStart(s, sep, 0, 0);
    var r := s[k..];
    if Contains(r, sep) {
      var j: nat :| j <= |r| && ContainsAt(r, sep, j);
      ContainsAtShift(s, sep, k, j);
    }
    if k == 0 {
      assert r == s;
    }
  }

  lemma ContainsAtShift(s: string, sub: string, off: nat, k: nat)
    requires off <= |s| && ContainsAt(s[off..], sub, k)
    ensures ContainsAt(s, sub, off + k)
  {
    assert s[off + k..off + k + |sub|] == s[off..][k..k + |sub|];
  }

  /** The DID announced by RPL_LOGGEDIN: the trimmed text after the last `as `, if it starts with `did:`. */
  function DidFrom900(params: seq<string>): (r: Option<string>)
    ensures r.Some? ==> StartsWith(r.value, "did:")
  {
    match Last(params)
    case None => None
    case Some(text) =>
      var d := Trim(AfterLast(text, "as "));
      if StartsWith(d, "did:") then Some(d) else None
  }

  /** The announced DID never holds the separator it was cut at. */
  lemma DidHasNoSeparator(params: seq<string>)
    requires DidFrom900(params).Some?
    ensures !Contains(DidFrom900(params).value, "as ")
  {
    var text := params[|params| - 1];
    AfterLastSplits(text, "as ");
    TrimInside(AfterLast(text, "as "));
  }

  /** Trimming keeps a contiguous part, so it cannot create an occurrence. */
  lemma TrimInside(s: string)
    requires !Contains(s, "as ")
    ensures !Contains(Trim(s), "as ")
  {
    TrimmedAtStart(s);
    var t := Trim(s);
    var k := |s| - |TrimStart(s)|;
    assert s == s[..k] + t + s[k + |t|..];
    if Contains(t, "as ") {
      ContainsWithin(s[..k], t, s[k + |t|..], "as ");
    }
  }

  /** The usual RPL_LOGGEDIN text yields the DID it ends with. */
  lemma DidFrom900Of(nick: string, head: string, did: string)
    requires StartsWith(did, "did:") && !Contains(did, "as ") && did != []
    requires !IsWhitespace(did[0]) && !IsWhitespace(did[|did| - 1])
    ensures DidFrom900([nick, head + "as " + did]) == Some(did)
  {
    AfterLastOf(head, did);
  }

  lemma AfterLastOf(head: string, did: string)
    requires StartsWith(did, "did:") && !Contains(did, "as ")
    ensures AfterLast(head + "as " + did, "as ") == did
  {
    var s := head + "as " + did;
    var r := AfterLast(s, "as ");
    AfterLastSplits(s, "as ");
    assert r == s || (|r| + 3 <= |s| && ContainsAt(s, "as ", |s| - |r| - 3));
    assert !Contains(r, "as ");
    OnlySuffixAfterSeparator(head, did, r);
  }

  /** In `head + "as " + did` with no separator in `did`, the only separator-free suffix that is all or follows a separator is `did`. */
  lemma OnlySuffixAfterSeparator(head: string, did: string, r: string)
    requires !Contains(did, "as ") && |r| <= |head + "as " + did| && (head + "as " + did)[|head| + 3 + |did| - |r|..] == r
    requires !Contains(r, "as ")
    requires var s := head + "as " + did; r == s || (|r| + 3 <= |s| && ContainsAt(s, "as ", |s| - |r| - 3))
    ensures r == did
  {
    var s := head + "as " + did;
    var n := |did|;
    assert s[|s| - n..] == did;
    SeparatorChars(head, did);
    if r != s {
      OccurrenceChars(s, |s| - |r| - 3);
    }
    if |r| >= n + 3 {
      assert r[|r| - n - 3..|r| - n] == s[|s| - n - 3..|s| - n];
      assert ContainsAt(r, "as ", |r| - n - 3);
      assert false;
    } else if |r| == n + 2 {
      assert false;
    } else if |r| == n + 1 {
      assert false;
    } else if |r| < n {
      var j := |s| - |r| - 3;
      if j >= |head| + 3 {
        NotContainsAt(did, "as ", j - |head| - 3);
        assert false;
      } else if j == |head| + 2 {
        assert false;
      } else {
        assert false;
      }
    }
  }

  lemma NotContainsAt(s: string, sub: string, i: nat)
    requires !Contains(s, sub) && i <= |s|
    ensures !ContainsAt(s, sub, i)
  {
  }

  lemma SeparatorChars(head: string, did: string)
    ensures var s := head + "as " + did; s[|head|] == 'a' && s[|head| + 1] == 's' && s[|head| + 2] == ' '
  {
  }

  lemma OccurrenceChars(s: string, k: nat)
    requires ContainsAt(s, "as ", k)
    ensures s[k] == 'a' && s[k + 1] == 's' && s[k + 2] == ' '
  {
    assert s[k..k + 3][2] == s[k + 2];
  }

  /** `BATCH +id type target` starts a batch, `BATCH -id` ends one. */
  function BatchEvent(params: seq<string>): (r: Option<Event>)
    ensures params != [] && params[0] != [] && params[0][0] == '+' ==>
      r == Some(BatchStart(params[0][1..], GetOr(params, 1, ""), GetOr(params, 2, "")))
    ensures params != [] && params[0] != [] && params[0][0] == '-' ==> r == Some(BatchEnd(params[0][1..]))
    ensures r.Some? ==> params != [] && params[0] != [] && params[0][0] in "+-"
  {
    if params == [] || params[0] == [] then None
    else if params[0][0] == '+' then Some(BatchStart(params[0][1..], GetOr(params, 1, ""), GetOr(params, 2, "")))
    else if params[0][0] == '-' then Some(BatchEnd(params[0][1..]))
    else None
  }

  /** Rust's `parse::<u16>`. */
  function ParseU16(s: string): (r: Option<nat>)
    ensures r.Some? ==> r.value < 65536
  {
    match ParseU64(s)
    case Some(n) => if n < 65536 then Some(n) else None
    case None => None
  }

  /** The parameters after our own nick, or all of them when there is at most one. */
  function NoticeText(params: seq<string>): string
  {
    if |params| > 1 then Join(params[1..], " ") else Join(params, " ")
  }

  /** `MOTD:` and the body with one leading `- ` removed. */
  function MotdText(params: seq<string>): (r: string)
    ensures StartsWith(r, "MOTD:")
  {
    if |params| > 1 then
      var body := Join(params[1..], " ");
      "MOTD:" + (if StartsWith(body, "- ") then body[2..] else body)
    else "MOTD:"
  }

  /** An unmatched command: error numerics and the MOTD lines become server notices; anything else is dropped. */
  function NumericEvent(command: string, params: seq<string>): (r: Option<Event>)
    ensures r.Some? ==> r.value.ServerNotice? && ParseU16(command).Some?
    ensures ParseU16(command).Some? && (400 <= ParseU16(command).value < 700 || 900 <= ParseU16(command).value < 1000) ==>
      r == Some(ServerNotice(NoticeText(params)))
    ensures ParseU16(command) == Some(372) ==> r == Some(ServerNotice(MotdText(params)))
  {
    match ParseU16(command)
    case None => None
    case Some(n) =>
      if 400 <= n < 700 || 900 <= n < 1000 then Some(ServerNotice(NoticeText(params)))
      else if n == 372 then Some(ServerNotice(MotdText(params)))
      else if n == 375 then Some(ServerNotice("MOTD:START"))
      else if n == 376 then Some(ServerNotice("MOTD:END"))
      else None
  }

  /** PRIVMSG and NOTICE: a NOTICE from a prefix without `!` is a server notice, everything else a message. */
  function ChatEvent(m: IrcMessage): (r: Option<Event>)
    requires m.command == "PRIVMSG" || m.command == "NOTICE"
    ensures |m.params| < 2 <==> r.None?
    ensures r.Some? && m.command == "NOTICE" && (m.prefix.None? || '!' !in m.prefix.value) ==>
      r == Some(ServerNotice(m.params[1]))
    ensures r.Some? && (m.command == "PRIVMSG" || (m.prefix.Some? && '!' in m.prefix.value)) ==>
      r.value.Message? && r.value.target == m.params[0] && r.value.text == m.params[1] && r.value.tags == m.tags &&
      r.value.sender == NickOf(m.prefix, "")
  {
    if |m.params| < 2 then None
    else
      var prefix := match m.prefix case Some(p) => p case None => "";
      if m.command == "NOTICE" && '!' !in prefix then Some(ServerNotice(m.params[1]))
      else Some(Message(NickOf(m.prefix, ""), m.params[0], m.params[1], m.tags))
  }

  /** The commands with a dedicated branch in the read loop; everything else reaches the numeric fallback. */
  predicate HasBranch(c: string)
  {
    c == "433" || c == "CAP" || c == "AUTHENTICATE" || c == "NOTICE" || c == "900" || c == "903" || c == "904" ||
    c == "BATCH" || c == "001" || c == "353" || c == "PING" || c == "JOIN" || c == "PART" || c == "NICK" ||
    c == "MODE" || c == "KICK" || c == "INVITE" || c == "AWAY" || c == "TOPIC" || c == "332" || c == "331" ||
    c == "333" || c == "311" || c == "312" || c == "319" || c == "330" || c == "318" || c == "401" ||
    c == "QUIT" || c == "PRIVMSG" || c == "TAGMSG" || c == "FAIL"
  }

  /** The event for a line whose branch changes no client state. */
  function Translate(m: IrcMessage): (r: Option<Event>)
    ensures !HasBranch(m.command) ==> r == NumericEvent(m.command, m.params)
    ensures m.command == "BATCH" ==> r == BatchEvent(m.params)
    ensures m.command == "PRIVMSG" || m.command == "NOTICE" ==> r == ChatEvent(m)
  {
    var ps := m.params;
    var c := m.command;
    if c == "BATCH" then BatchEvent(ps)
    else if c == "353" then (if |ps| >= 4 then Some(Names(ps[2], Words(ps[3]))) else None)
    else if c == "JOIN" then Some(Joined(GetOr(ps, 0, ""), NickOf(m.prefix, "")))
    else if c == "PART" then Some(Parted(GetOr(ps, 0, ""), NickOf(m.prefix, "")))
    else if c == "NICK" then
      var oldNick := NickOf(m.prefix, "");
      var newNick := GetOr(ps, 0, "");
      if oldNick != "" && newNick != "" then Some(NickChanged(oldNick, newNick)) else None
    else if c == "MODE" then
      if |ps| >= 2 && (StartsWith(ps[0], "#") || StartsWith(ps[0], "&"))
      then Some(ModeChanged(ps[0], ps[1], Get(ps, 2), NickOf(m.prefix, "server")))
      else None
    else if c == "KICK" then
      if |ps| >= 2 then Some(Kicked(ps[0], ps[1], NickOf(m.prefix, "server"), GetOr(ps, 2, ""))) else None
    else if c == "INVITE" then (if |ps| >= 2 then Some(Invited(ps[1], NickOf(m.prefix, "someone"))) else None)
    else if c == "AWAY" then Some(AwayChanged(NickOf(m.prefix, ""), Get(ps, 0)))
    else if c == "TOPIC" then
      if ps == [] then None
      else Some(TopicChanged(ps[0], GetOr(ps, 1, ""), if m.prefix.Some? then Some(NickOf(m.prefix, "")) else None))
    else if c == "332" then (if |ps| >= 3 then Some(TopicChanged(ps[1], ps[2], None)) else None)
    else if c == "331" || c == "333" || c == "318" then None
    else if c == "311" then
      (if |ps| >= 5 then Some(WhoisReply(ps[1], ps[1] + " is " + ps[2] + "@" + ps[3] + " (" + ps[4] + ")")) else None)
    else if c == "312" then
      (if |ps| >= 4 then Some(WhoisReply(ps[1], ps[1] + " using " + ps[2] + " (" + ps[3] + ")")) else None)
    else if c == "319" then (if |ps| >= 3 then Some(WhoisReply(ps[1], ps[1] + " on " + ps[2])) else None)
    else if c == "330" then
      (if |ps| >= 3 then Some(WhoisReply(ps[1], ps[1] + " " + GetOr(ps, 3, "is authenticated as") + " " + ps[2])) else None)
    else if c == "401" then (if |ps| >= 3 then Some(WhoisReply(ps[1], ps[1] + ": No such nick")) else None)
    else if c == "QUIT" then Some(UserQuit(NickOf(m.prefix, ""), GetOr(ps, 0, "")))
    else if c == "PRIVMSG" || c == "NOTICE" then ChatEvent(m)
    else if c == "TAGMSG" then (if ps != [] then Some(TagMsg(NickOf(m.prefix, ""), ps[0], m.tags)) else None)
    else if c == "FAIL" then Some(ServerNotice(Join(ps, " ")))
    else if HasBranch(c) then None
    else NumericEvent(c, ps)
  }

  // ---------------------------------------------------------------------
  // Outgoing commands.

  /** The text a PRIVMSG signature covers: DID, target, text and the time in seconds, NUL-separated. */
  function SignedText(did: string, target: string, text: string, now: nat): string
  {
    did + ['\0'] + target + ['\0'] + text + ['\0'] + DecimalString(now)
  }

  /**
   * `execute_command`: the line for a command. With a session signing key
   * (present exactly when the signing DID is), a PRIVMSG carries the
   * `+freeq.at/sig` tag; `sign` is the key's signature, base64url-encoded.
   */
  function CommandLine(cmd: Command, signingDid: Option<string>, sign: string -> string, now: nat): (r: string)
    ensures EndsWith(r, "\r\n")
    ensures cmd.Privmsg? ==> EndsWith(r, "PRIVMSG " + cmd.target + " :" + cmd.text + "\r\n")
    ensures cmd.Privmsg? ==> (signingDid.Some? <==> StartsWith(r, "@+freeq.at/sig="))
  {
    match cmd
    case JoinChannel(ch) => EndsWithAppend("JOIN " + ch, "\r\n"); "JOIN " + ch + "\r\n"
    case Privmsg(target, text) =>
      var plain := "PRIVMSG " + target + " :" + text + "\r\n";
      EndsWithAppend("PRIVMSG " + target + " :" + text, "\r\n");
      if signingDid.Some? then
        var tag := "@+freeq.at/sig=" + sign(SignedText(signingDid.value, target, text, now)) + " ";
        EndsWithAppend(tag, plain);
        assert (tag + plain)[|tag + plain| - 2..] == plain[|plain| - 2..];
        tag + plain
      else assert plain[0] == 'P'; plain
    case Raw(line) => EndsWithAppend(line, "\r\n"); line + "\r\n"
    case Quit(msg) =>
      if msg.Some? then EndsWithAppend("QUIT :" + msg.value, "\r\n"); "QUIT :" + msg.value + "\r\n" else "QUIT\r\n"
  }

  lemma EndsWithAppend(a: string, b: string)
    ensures EndsWith(a + b, b)
  {
    assert (a + b)[|a|..] == b;
  }

  function CommandLines(cmds: seq<Command>, signingDid: Option<string>, sign: string -> string, now: nat): (r: seq<string>)
    ensures |r| == |cmds|
    ensures forall i | 0 <= i < |cmds| :: r[i] == CommandLine(cmds[i], signingDid, sign, now)
  {
    if cmds == [] then [] else [CommandLine(cmds[0], signingDid, sign, now)] + CommandLines(cmds[1..], signingDid, sign, now)
  }

  // ---------------------------------------------------------------------
  // The read loop's state and its steps.

  /** The connection settings the loop reads. */
  datatype Config = Config(nick: string, user: string, realname: string, webToken: Option<string>, signerDid: Option<string>)

  /**
   * What the loop draws from outside on a step: the signer's encoded answer
   * to a challenge (None when decoding or signing fails), unpadded base64url of a text's UTF-8 bytes, the public half of
   * a fresh message-signing key (base64url), the signing function and the
   * clock in seconds.
   */
  datatype Env = Env(challengeAnswer: Option<string>, base64url: string -> string, signingPublic: string,
                     sign: string -> string, now: nat)

  /** The web-token SASL answer before encoding: an empty DID, the method, and the token as the signature. */
  function WebTokenJson(token: string): string
  {
    "{\"did\":\"\",\"method\":\"web-token\",\"signature\":" + Canonical.Quote(token) + "}"
  }

  datatype State = State(
    saslInProgress: bool,
    registered: bool,
    nickTries: nat,
    webToken: Option<string>,
    authenticatedDid: Option<string>,
    pending: seq<Command>,
    signingDid: Option<string>,
    dpopNonce: Option<string>,
    sent: seq<string>,
    events: seq<Event>,
    running: bool)

  /** Commands wait in the queue only before registration. */
  predicate QueueOk(s: State)
  {
    s.registered ==> s.pending == []
  }

  /** The lines written on connect and the loop's starting state. */
  function Start(cfg: Config): (s: State)
    ensures QueueOk(s) && !s.registered && s.running && s.nickTries == 0
    ensures s.sent == ["CAP LS 302\r\n", "NICK " + cfg.nick + "\r\n", "USER " + cfg.user + " 0 * :" + cfg.realname + "\r\n"]
  {
    State(false, false, 0, cfg.webToken, None, [], None, None,
          ["CAP LS 302\r\n", "NICK " + cfg.nick + "\r\n", "USER " + cfg.user + " 0 * :" + cfg.realname + "\r\n"], [], true)
  }

  /** ERR_NICKNAMEINUSE: count the try (saturating at 2^32-1); try `nick1` to `nick5`, then give up. */
  function On433(s: State, cfg: Config): (r: State)
    ensures var t := Min(s.nickTries + 1, U32_MAX);
      r.nickTries == t &&
      (t <= MAX_NICK_TRIES ==> r == s.(nickTries := t, sent := s.sent + ["NICK " + NickAttempt(cfg.nick, t) + "\r\n"])) &&
      (t > MAX_NICK_TRIES ==> r == s.(nickTries := t, events := s.events + [Disconnected("Nick in use")], running := false))
  {
    var t := Min(s.nickTries + 1, U32_MAX);
    if t <= MAX_NICK_TRIES then s.(nickTries := t, sent := s.sent + ["NICK " + NickAttempt(cfg.nick, t) + "\r\n"])
    else s.(nickTries := t, events := s.events + [Disconnected("Nick in use")], running := false)
  }

  /**
   * AUTHENTICATE: with a web token, a non-empty challenge is answered with
   * the token; else the signer answers, and a failure to answer ends the loop.
   */
  function OnAuthenticate(s: State, cfg: Config, m: IrcMessage, env: Env): (r: State)
    ensures s.webToken.Some? && GetOr(m.params, 0, "") != "" ==>
      r == s.(sent := s.sent + ["AUTHENTICATE " + env.base64url(WebTokenJson(s.webToken.value)) + "\r\n"])
    ensures s.webToken.None? && cfg.signerDid.Some? && env.challengeAnswer.None? ==> r == s.(running := false)
    ensures r.events == s.events && r.pending == s.pending
  {
    match s.webToken
    case Some(token) =>
      if GetOr(m.params, 0, "") != "" then s.(sent := s.sent + ["AUTHENTICATE " + env.base64url(WebTokenJson(token)) + "\r\n"]) else s
    case None =>
      if cfg.signerDid.None? then s
      else match env.challengeAnswer
        case Some(answer) => s.(sent := s.sent + ["AUTHENTICATE " + answer + "\r\n"])
        case None => s.(running := false)
  }

  /** A NOTICE during SASL carrying `DPOP_NONCE ` hands the trimmed nonce to the signer; nothing is shown. */
  function OnSaslNotice(s: State, cfg: Config, m: IrcMessage): State
  {
    match Last(m.params)
    case None => s
    case Some(text) =>
      if StartsWith(text, "DPOP_NONCE ") && cfg.signerDid.Some? then s.(dpopNonce := Some(Trim(text[11..]))) else s
  }

  /** RPL_SASLSUCCESS: SASL is over; a known DID is announced and gets a message-signing key; the token is dropped; CAP END. */
  function On903(s: State, cfg: Config, env: Env): (r: State)
    ensures !r.saslInProgress && r.authenticatedDid.None? && r.webToken.None?
    ensures |r.sent| > 0 && r.sent[|r.sent| - 1] == "CAP END\r\n"
  {
    var did := if s.authenticatedDid.Some? then s.authenticatedDid.value
               else if cfg.signerDid.Some? then cfg.signerDid.value else "";
    var s1 := s.(saslInProgress := false, authenticatedDid := None);
    var s2 := if did != "" then
      s1.(events := s1.events + [Authenticated(did)], signingDid := Some(did),
          sent := s1.sent + ["MSGSIG " + env.signingPublic + "\r\n"])
      else s1;
    s2.(webToken := None, sent := s2.sent + ["CAP END\r\n"])
  }

  /** RPL_WELCOME: announce, mark registered, and send the queued commands in order. */
  function On001(s: State, m: IrcMessage, env: Env): (r: State)
    ensures r.registered && r.pending == [] && QueueOk(r)
    ensures r.sent == s.sent + CommandLines(s.pending, s.signingDid, env.sign, env.now)
    ensures r.events == s.events + [Registered(GetOr(m.params, 0, ""))]
  {
    s.(events := s.events + [Registered(GetOr(m.params, 0, ""))], registered := true,
       sent := s.sent + CommandLines(s.pending, s.signingDid, env.sign, env.now), pending := [])
  }

  /** CAP: the negotiation reply; SASL can be offered with a signer or a web token. */
  function OnCap(s: State, cfg: Config, m: IrcMessage): State
  {
    var (lines, sasl) := CapResponse(m.params, cfg.signerDid.Some? || s.webToken.Some?, s.saslInProgress);
    s.(sent := s.sent + lines, saslInProgress := sasl)
  }

  /** RPL_LOGGEDIN: remember the announced DID, when there is one. */
  function On900(s: State, m: IrcMessage): State
  {
    match DidFrom900(m.params)
    case Some(did) => s.(authenticatedDid := Some(did))
    case None => s
  }

  /** ERR_SASLFAIL: SASL is over, the failure is reported and negotiation ends. */
  function On904(s: State, m: IrcMessage): State
  {
    s.(saslInProgress := false, events := s.events + [AuthFailed(GetOr(m.params, 1, "Unknown"))],
       sent := s.sent + ["CAP END\r\n"])
  }

  /** PING is answered with PONG and the same token. */
  function OnPing(s: State, m: IrcMessage): State
  {
    s.(sent := s.sent + ["PONG :" + GetOr(m.params, 0, "") + "\r\n"])
  }

  /** Every other line only adds its event, if it has one. */
  function OnOther(s: State, m: IrcMessage): (r: State)
    ensures r == s || (Translate(m).Some? && r == s.(events := s.events + [Translate(m).value]))
  {
    match Translate(m)
    case Some(e) => s.(events := s.events + [e])
    case None => s
  }

  /** One parsed server line. */
  function OnMessage(s: State, cfg: Config, m: IrcMessage, env: Env): State
  {
    var c := m.command;
    if c == "433" then On433(s, cfg)
    else if c == "CAP" then OnCap(s, cfg, m)
    else if c == "AUTHENTICATE" then OnAuthenticate(s, cfg, m, env)
    else if c == "NOTICE" && s.saslInProgress then OnSaslNotice(s, cfg, m)
    else if c == "900" then On900(s, m)
    else if c == "903" then On903(s, cfg, env)
    else if c == "904" then On904(s, m)
    else if c == "001" then On001(s, m, env)
    else if c == "PING" then OnPing(s, m)
    else OnOther(s, m)
  }

  /** One line read: the raw line (trailing whitespace removed) is always reported, then the parsed message is handled. */
  function OnLine(s: State, cfg: Config, raw: string, parsed: Option<IrcMessage>, env: Env): State
  {
    var s1 := s.(events := s.events + [RawLine(TrimEnd(raw))]);
    match parsed
    case None => s1
    case Some(m) => OnMessage(s1, cfg, m, env)
  }

  /** A command from the UI: sent at once when registered or a Quit (a Quit before registration ends the loop), else queued. */
  function OnCommand(s: State, cmd: Command, env: Env): (r: State)
    ensures s.registered || cmd.Quit? ==>
      r.sent == s.sent + [CommandLine(cmd, s.signingDid, env.sign, env.now)] && r.pending == s.pending &&
      r.running == (s.running && s.registered)
    ensures !s.registered && !cmd.Quit? ==> r == s.(pending := s.pending + [cmd])
  {
    if s.registered || cmd.Quit? then
      var s1 := s.(sent := s.sent + [CommandLine(cmd, s.signingDid, env.sign, env.now)]);
      if !s.registered then s1.(running := false) else s1
    else s.(pending := s.pending + [cmd])
  }

  /** End of stream. */
  function OnEof(s: State): (r: State)
    ensures !r.running && r.events == s.events + [Disconnected("EOF")]
  {
    s.(events := s.events + [Disconnected("EOF")], running := false)
  }

  /** The keepalive timer: a ping, or a disconnect when the server has been silent past the timeout. */
  function OnTimer(s: State, silentTooLong: bool): (r: State)
    ensures silentTooLong ==> !r.running && r.events == s.events + [Disconnected("Ping timeout")]
    ensures !silentTooLong ==> r == s.(sent := s.sent + ["PING :keepalive\r\n"])
  {
    if silentTooLong then s.(events := s.events + [Disconnected("Ping timeout")], running := false)
    else s.(sent := s.sent + ["PING :keepalive\r\n"])
  }

  // ---------------------------------------------------------------------
  // Properties of the loop.

  /** Every step keeps queued commands confined to the time before registration. */
  lemma LinesKeepQueueOk(s: State, cfg: Config, m: IrcMessage, raw: string, env: Env)
    requires QueueOk(s)
    ensures QueueOk(OnLine(s, cfg, raw, Some(m), env))
  {
    var s1 := s.(events := s.events + [RawLine(TrimEnd(raw))]);
    assert QueueOk(s1);
  }

  /** Commands, the end of the stream and the timer keep it too. */
  lemma CommandsKeepQueueOk(s: State, cmd: Command, env: Env)
    requires QueueOk(s)
    ensures QueueOk(OnCommand(s, cmd, env)) && QueueOk(OnEof(s)) && QueueOk(OnTimer(s, true)) && QueueOk(OnTimer(s, false))
  {
  }

  function Repeat433(s: State, cfg: Config, n: nat): State
  {
    if n == 0 then s else On433(Repeat433(s, cfg, n - 1), cfg)
  }

  /**
   * From a fresh count, the k-th 433 (k up to 5) makes the client try
   * `nick` followed by k and keeps it running; the sixth reports
   * "Nick in use" and stops.
   */
  lemma {:induction false} NickRetries(s: State, cfg: Config, k: nat)
    requires s.nickTries == 0 && s.running && 1 <= k <= MAX_NICK_TRIES + 1
    ensures var r := Repeat433(s, cfg, k);
      r.nickTries == k &&
      (k <= MAX_NICK_TRIES ==> (r.running && r.sent[|r.sent| - 1] == "NICK " + NickAttempt(cfg.nick, k) + "\r\n" &&
        r.events == s.events)) &&
      (k == MAX_NICK_TRIES + 1 ==> !r.running && r.events == s.events + [Disconnected("Nick in use")])
  {
    if k > 1 {
      NickRetries(s, cfg, k - 1);
    }
  }

  function SubmitAll(s: State, cmds: seq<Command>, env: Env): State
    decreases |cmds|
  {
    if cmds == [] then s else SubmitAll(OnCommand(s, cmds[0], env), cmds[1..], env)
  }

  /** Commands other than Quit submitted before registration only join the queue, in order. */
  lemma {:induction false} SubmitQueues(s: State, cmds: seq<Command>, env: Env)
    requires !s.registered && forall i | 0 <= i < |cmds| :: !cmds[i].Quit?
    ensures SubmitAll(s, cmds, env) == s.(pending := s.pending + cmds)
    decreases |cmds|
  {
    if cmds != [] {
      var s1 := s.(pending := s.pending + [cmds[0]]);
      assert OnCommand(s, cmds[0], env) == s1;
      assert forall i | 0 <= i < |cmds[1..]| :: !cmds[1..][i].Quit? by {
        forall i | 0 <= i < |cmds[1..]| ensures !cmds[1..][i].Quit? {
          assert cmds[1..][i] == cmds[i + 1];
        }
      }
      SubmitQueues(s1, cmds[1..], env);
      assert s.pending + cmds == s1.pending + cmds[1..];
    }
  }

  /**
   * Commands submitted before registration (none of them a Quit) are held
   * back, and on 001 they are written in the order they were submitted.
   */
  lemma QueuedThenFlushed(s: State, cmds: seq<Command>, m: IrcMessage, env: Env)
    requires !s.registered && forall i | 0 <= i < |cmds| :: !cmds[i].Quit?
    ensures var q := SubmitAll(s, cmds, env);
      q.sent == s.sent && On001(q, m, env).sent == s.sent + CommandLines(s.pending + cmds, s.signingDid, env.sign, env.now)
  {
    SubmitQueues(s, cmds, env);
  }

  /** An ACK that includes `sasl` starts SASL; every other ACK and every NAK ends negotiation. */
  lemma AckAndNak(s: State, cfg: Config, m: IrcMessage, env: Env)
    requires m.command == "CAP" && |m.params| >= 2
    ensures var r := OnMessage(s, cfg, m, env);
      var caps := m.params[|m.params| - 1];
      (UpperStr(m.params[1]) == "ACK" && Contains(caps, "sasl") ==>
        r.saslInProgress && r.sent == s.sent + ["AUTHENTICATE ATPROTO-CHALLENGE\r\n"]) &&
      (UpperStr(m.params[1]) == "ACK" && !Contains(caps, "sasl") ==> r.sent == s.sent + ["CAP END\r\n"]) &&
      (UpperStr(m.params[1]) == "NAK" ==> r.sent == s.sent + ["CAP END\r\n"])
  {
  }

  /** A server NOTICE during SASL is consumed by the nonce handling and produces no event. */
  lemma SaslNoticeHidden(s: State, cfg: Config, m: IrcMessage, env: Env)
    requires m.command == "NOTICE" && s.saslInProgress
    ensures OnMessage(s, cfg, m, env).events == s.events
  {
  }

  // ---------------------------------------------------------------------
  // The loop's variables, updated in place.

  class IrcClient {
    const cfg: Config
    var saslInProgress: bool
    var registered: bool
    var nickTries: nat
    var webToken: Option<string>
    var authenticatedDid: Option<string>
    var pending: seq<Command>
    var signingDid: Option<string>
    var dpopNonce: Option<string>
    var sent: seq<string>
    var events: seq<Event>
    var running: bool

    function Snapshot(): State
      reads this
    {
      State(saslInProgress, registered, nickTries, webToken, authenticatedDid, pending, signingDid, dpopNonce,
            sent, events, running)
    }

    /** Connect: CAP LS 302, NICK and USER are written before the loop starts. */
    constructor (config: Config)
      ensures cfg == config && Snapshot() == Start(config)
    {
      cfg := config;
      saslInProgress, registered, nickTries := false, false, 0;
      webToken, authenticatedDid, pending := config.webToken, None, [];
      signingDid, dpopNonce := None, None;
      sent := ["CAP LS 302\r\n", "NICK " + config.nick + "\r\n", "USER " + config.user + " 0 * :" + config.realname + "\r\n"];
      events, running := [], true;
    }

    method HandleCap(m: IrcMessage)
      modifies this
      ensures Snapshot() == OnCap(old(Snapshot()), cfg, m)
    {
      var caps := match Last(m.params) case Some(c) => c case None => "";
      var sub := Get(m.params, 1);
      if sub.None? {
        return;
      }
      var s := UpperStr(sub.value);
      if s == "LS" {
        var req := RequestCaps(caps, cfg.signerDid.Some? || webToken.Some?);
        sent := sent + [CapLsReply(req)];
      } else if s == "ACK" {
        if Contains(caps, "sasl") {
          saslInProgress := true;
          sent := sent + ["AUTHENTICATE ATPROTO-CHALLENGE\r\n"];
        } else {
          sent := sent + ["CAP END\r\n"];
        }
      } else if s == "NAK" {
        sent := sent + ["CAP END\r\n"];
      }
    }

    method HandleNickInUse()
      modifies this
      ensures Snapshot() == On433(old(Snapshot()), cfg)
    {
      nickTries := Min(nickTries + 1, U32_MAX);
      if nickTries <= MAX_NICK_TRIES {
        sent := sent + ["NICK " + NickAttempt(cfg.nick, nickTries) + "\r\n"];
      } else {
        events := events + [Disconnected("Nick in use")];
        running := false;
      }
    }

    method HandleSaslSuccess(env: Env)
      modifies this
      ensures Snapshot() == On903(old(Snapshot()), cfg, env)
    {
      saslInProgress := false;
      var did := "";
      if authenticatedDid.Some? {
        did := authenticatedDid.value;
      } else if cfg.signerDid.Some? {
        did := cfg.signerDid.value;
      }
      authenticatedDid := None;
      if did != "" {
        events := events + [Authenticated(did)];
        signingDid := Some(did);
        sent := sent + ["MSGSIG " + env.signingPublic + "\r\n"];
      }
      webToken := None;
      sent := sent + ["CAP END\r\n"];
    }

    /** The flush on 001: one `execute_command` per queued command, in order. */
    method HandleWelcome(m: IrcMessage, env: Env)
      modifies this
      ensures Snapshot() == On001(old(Snapshot()), m, env)
    {
      events := events + [Registered(GetOr(m.params, 0, ""))];
      registered := true;
      var lines := FlushLines(pending, signingDid, env);
      sent := sent + lines;
      pending := [];
    }

    method HandleAuthenticate(m: IrcMessage, env: Env)
      modifies this
      ensures Snapshot() == OnAuthenticate(old(Snapshot()), cfg, m, env)
    {
      if webToken.Some? {
        if GetOr(m.params, 0, "") != "" {
          sent := sent + ["AUTHENTICATE " + env.base64url(WebTokenJson(webToken.value)) + "\r\n"];
        }
      } else if cfg.signerDid.Some? {
        if env.challengeAnswer.Some? {
          sent := sent + ["AUTHENTICATE " + env.challengeAnswer.value + "\r\n"];
        } else {
          running := false;
        }
      }
    }

    method HandleSaslNotice(m: IrcMessage)
      modifies this
      ensures Snapshot() == OnSaslNotice(old(Snapshot()), cfg, m)
    {
      var text := Last(m.params);
      if text.Some? && StartsWith(text.value, "DPOP_NONCE ") && cfg.signerDid.Some? {
        dpopNonce := Some(Trim(text.value[11..]));
      }
    }

    method HandleLoggedIn(m: IrcMessage)
      modifies this
      ensures Snapshot() == On900(old(Snapshot()), m)
    {
      var did := DidFrom900(m.params);
      if did.Some? {
        authenticatedDid := Some(did.value);
      }
    }

    method HandleSaslFail(m: IrcMessage)
      modifies this
      ensures Snapshot() == On904(old(Snapshot()), m)
    {
      saslInProgress := false;
      events := events + [AuthFailed(GetOr(m.params, 1, "Unknown"))];
      sent := sent + ["CAP END\r\n"];
    }

    method HandlePing(m: IrcMessage)
      modifies this
      ensures Snapshot() == OnPing(old(Snapshot()), m)
    {
      sent := sent + ["PONG :" + GetOr(m.params, 0, "") + "\r\n"];
    }

    method HandleOther(m: IrcMessage)
      modifies this
      ensures Snapshot() == OnOther(old(Snapshot()), m)
    {
      var e := Translate(m);
      if e.Some? {
        events := events + [e.value];
      }
    }

    /** The read loop's dispatch on the command of a parsed line. */
    method HandleMessage(m: IrcMessage, env: Env)
      modifies this
      ensures Snapshot() == OnMessage(old(Snapshot()), cfg, m, env)
    {
      var c := m.command;
      if c == "433" {
        HandleNickInUse();
      } else if c == "CAP" {
        HandleCap(m);
      } else if c == "AUTHENTICATE" {
        HandleAuthenticate(m, env);
      } else if c == "NOTICE" && saslInProgress {
        HandleSaslNotice(m);
      } else if c == "900" {
        HandleLoggedIn(m);
      } else if c == "903" {
        HandleSaslSuccess(env);
      } else if c == "904" {
        HandleSaslFail(m);
      } else if c == "001" {
        HandleWelcome(m, env);
      } else if c == "PING" {
        HandlePing(m);
      } else {
        HandleOther(m);
      }
    }

    /** One line from the server. */
    method HandleLine(raw: string, parsed: Option<IrcMessage>, env: Env)
      modifies this
      ensures Snapshot() == OnLine(old(Snapshot()), cfg, raw, parsed, env)
    {
      events := events + [RawLine(TrimEnd(raw))];
      if parsed.Some? {
        HandleMessage(parsed.value, env);
      }
    }

    /** One command from the UI. */
    method HandleCommand(cmd: Command, env: Env)
      modifies this
      ensures Snapshot() == OnCommand(old(Snapshot()), cmd, env)
    {
      if registered || cmd.Quit? {
        sent := sent + [CommandLine(cmd, signingDid, env.sign, env.now)];
        if !registered {
          running := false;
        }
      } else {
        pending := pending + [cmd];
      }
    }
  }

  /** The queued commands' lines, one `execute_command` per command in order. */
  method FlushLines(queue: seq<Command>, signingDid: Option<string>, env: Env) returns (lines: seq<string>)
    ensures lines == CommandLines(queue, signingDid, env.sign, env.now)
  {
    lines := [];
    for i := 0 to |queue|
      invariant lines == CommandLines(queue[..i], signingDid, env.sign, env.now)
    {
      assert queue[..i + 1] == queue[..i] + [queue[i]];
      CommandLinesSnoc(queue[..i], queue[i], signingDid, env.sign, env.now);
      lines := lines + [CommandLine(queue[i], signingDid, env.sign, env.now)];
    }
    assert queue[..|queue|] == queue;
  }

  lemma {:induction false} CommandLinesSnoc(cmds: seq<Command>, c: Command, did: Option<string>, sign: string -> string, now: nat)
    ensures CommandLines(cmds + [c], did, sign, now) == CommandLines(cmds, did, sign, now) + [CommandLine(c, did, sign, now)]
  {
    if cmds != [] {
      assert (cmds + [c])[1..] == cmds[1..] + [c];
      CommandLinesSnoc(cmds[1..], c, did, sign, now);
    }
  }
}
