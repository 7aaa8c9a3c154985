// IRCv3 capability negotiation (CAP LS / REQ / END) and the AUTHENTICATE
// state machine of the ATPROTO-CHALLENGE SASL mechanism.

module Cap {
  import opened Common
  import opened Server
  import Registration

  const ERR_SASLFAIL: nat := 904

  datatype Capability =
    | Sasl | MessageTags | MultiPrefix | EchoMessage | ServerTime | Batch
    | Chathistory | AccountNotify | ExtendedJoin | AwayNotify

  /** The capability's name on the wire. */
  function CapName(c: Capability): string
  {
    match c
    case Sasl => "sasl"
    case MessageTags => "message-tags"
    case MultiPrefix => "multi-prefix"
    case EchoMessage => "echo-message"
    case ServerTime => "server-time"
    case Batch => "batch"
    case Chathistory => "draft/chathistory"
    case AccountNotify => "account-notify"
    case ExtendedJoin => "extended-join"
    case AwayNotify => "away-notify"
  }

  /** The capabilities `CAP LS` advertises, before the optional `iroh=` entry. */
  const ADVERTISED: string :=
    "sasl message-tags multi-prefix echo-message server-time batch draft/chathistory account-notify extended-join away-notify"

  /** Capabilities the server also records in a shared per-capability session set. */
  predicate Tracked(c: Capability)
  {
    c != Sasl && c != Chathistory
  }

  const ALL_CAPS: seq<Capability> :=
    [Sasl, MessageTags, MultiPrefix, EchoMessage, ServerTime, Batch, Chathistory, AccountNotify, ExtendedJoin, AwayNotify]

  lemma AllCapsListed(c: Capability)
    ensures c in ALL_CAPS
  {
    match c
    case Sasl => assert ALL_CAPS[0] == c;
    case MessageTags => assert ALL_CAPS[1] == c;
    case MultiPrefix => assert ALL_CAPS[2] == c;
    case EchoMessage => assert ALL_CAPS[3] == c;
    case ServerTime => assert ALL_CAPS[4] == c;
    case Batch => assert ALL_CAPS[5] == c;
    case Chathistory => assert ALL_CAPS[6] == c;
    case AccountNotify => assert ALL_CAPS[7] == c;
    case ExtendedJoin => assert ALL_CAPS[8] == c;
    case AwayNotify => assert ALL_CAPS[9] == c;
  }

  /** The first capability in `cs` named `l`. */
  function FindName(l: string, cs: seq<Capability>): (r: Option<Capability>)
    ensures r.Some? ==> r.value in cs && CapName(r.value) == l
    ensures r.None? ==> forall c | c in cs :: CapName(c) != l
  {
    if cs == [] then None
    else if CapName(cs[0]) == l then Some(cs[0])
    else FindName(l, cs[1..])
  }

  /** A requested token, matched ignoring ASCII case against every capability name. */
  function ParseCap(token: string): (r: Option<Capability>)
    ensures r.Some? ==> CapName(r.value) == LowerStr(token)
    ensures r.None? ==> forall c :: CapName(c) != LowerStr(token)
  {
    forall c: Capability ensures c in ALL_CAPS {
      AllCapsListed(c);
    }
    FindName(LowerStr(token), ALL_CAPS)
  }

  /** Two capabilities never share a name. */
  lemma CapNameInjective(a: Capability, b: Capability)
    requires CapName(a) == CapName(b)
    ensures a == b
  {
  }

  /** Every capability is recognised under its own name, in any case. */
  lemma ParseCapName(c: Capability, token: string)
    requires LowerStr(token) == CapName(c)
    ensures ParseCap(token) == Some(c)
  {
    CapNameInjective(ParseCap(token).value, c);
  }

  // ---------------------------------------------------------------------
  // CAP REQ.

  /** Each requested token, parsed. */
  function ParseAll(words: seq<string>): (r: seq<Option<Capability>>)
    ensures |r| == |words| && forall i | 0 <= i < |words| :: r[i] == ParseCap(words[i])
  {
    seq(|words|, i requires 0 <= i < |words| => ParseCap(words[i]))
  }

  lemma ParseAllSnoc(words: seq<string>, i: nat)
    requires i < |words|
    ensures ParseAll(words[..i + 1]) == ParseAll(words[..i]) + [ParseCap(words[i])]
  {
    var lhs, rhs := ParseAll(words[..i + 1]), ParseAll(words[..i]) + [ParseCap(words[i])];
    forall k | 0 <= k < |lhs| ensures lhs[k] == rhs[k] {
      if k < i {
        assert words[..i + 1][k] == words[..i][k];
      }
    }
  }

  /** Every requested token names a capability. */
  predicate AllKnown(ps: seq<Option<Capability>>)
  {
    forall i | 0 <= i < |ps| :: ps[i].Some?
  }

  /** The capabilities named among the tokens. */
  function Named(ps: seq<Option<Capability>>): set<Capability>
  {
    set i | 0 <= i < |ps| && ps[i].Some? :: ps[i].value
  }

  /** The names pushed to `acked`, in request order. */
  function AckedNames(ps: seq<Option<Capability>>): (r: seq<string>)
    ensures |r| <= |ps|
  {
    if ps == [] then []
    else
      var rest := AckedNames(ps[..|ps| - 1]);
      match ps[|ps| - 1]
      case Some(c) => rest + [CapName(c)]
      case None => rest
  }

  /** When every token is known, the acknowledged names are the known capabilities' names, in order. */
  lemma {:induction false} AckedNamesOfKnown(ps: seq<Option<Capability>>)
    requires AllKnown(ps)
    ensures |AckedNames(ps)| == |ps|
    ensures forall i | 0 <= i < |ps| :: AckedNames(ps)[i] == CapName(ps[i].value)
  {
    if ps != [] {
      var init := ps[..|ps| - 1];
      assert AllKnown(init) by {
        forall i | 0 <= i < |init| ensures init[i].Some? {
          assert init[i] == ps[i];
        }
      }
      AckedNamesOfKnown(init);
      var last := ps[|ps| - 1];
      assert ps == init + [last];
      StepFacts(init, last);
      var a := AckedNames(ps);
      forall i | 0 <= i < |ps| ensures a[i] == CapName(ps[i].value) {
        if i < |init| {
          assert ps[i] == init[i];
        }
      }
    }
  }

  /** ACK lists each requested token lower-cased, in request order. */
  lemma AckEchoesRequest(words: seq<string>)
    requires AllKnown(ParseAll(words))
    ensures |AckedNames(ParseAll(words))| == |words|
    ensures forall i | 0 <= i < |words| :: AckedNames(ParseAll(words))[i] == LowerStr(words[i])
  {
    AckedNamesOfKnown(ParseAll(words));
  }

  lemma StepFacts(ps: seq<Option<Capability>>, p: Option<Capability>)
    ensures AllKnown(ps + [p]) <==> AllKnown(ps) && p.Some?
    ensures AckedNames(ps + [p]) == AckedNames(ps) + (if p.Some? then [CapName(p.value)] else [])
    ensures Named(ps + [p]) == Named(ps) + (if p.Some? then {p.value} else {})
  {
    var qs := ps + [p];
    assert qs[..|qs| - 1] == ps;
    assert qs[|qs| - 1] == p;
    if AllKnown(qs) {
      forall i | 0 <= i < |ps| ensures ps[i].Some? {
        assert qs[i] == ps[i];
      }
    }
    forall c | c in Named(qs) ensures c in Named(ps) + (if p.Some? then {p.value} else {}) {
      var i :| 0 <= i < |qs| && qs[i].Some? && qs[i].value == c;
      if i < |ps| { assert qs[i] == ps[i]; }
    }
    forall c | c in Named(ps) ensures c in Named(qs) {
      var i :| 0 <= i < |ps| && ps[i].Some? && ps[i].value == c;
      assert qs[i] == ps[i];
    }
  }

  datatype CapReply = Ls(caps: string) | Ack(caps: string) | Nak(caps: string)

  /** The ACK/NAK decision: ACK only when the list is non-empty and every token is known. */
  function ReqReply(caps: string): (r: CapReply)
    ensures r.Ack? <==> Words(caps) != [] && AllKnown(ParseAll(Words(caps)))
    ensures r.Ack? ==> r.caps == Join(AckedNames(ParseAll(Words(caps))), " ")
    ensures r.Nak? ==> r.caps == caps
  {
    var ps := ParseAll(Words(caps));
    if !AllKnown(ps) then Nak(caps)
    else
      AckedNamesOfKnown(ps);
      if AckedNames(ps) != [] then Ack(Join(AckedNames(ps), " ")) else Nak(caps)
  }

  /** A connection's capability flags and the server's per-capability session sets. */
  class CapRegistry {
    /** The `cap_*` flags set on this connection (`cap_sasl_requested` for `sasl`). */
    var enabled: set<Capability>
    /** Sessions that negotiated each tracked capability. */
    var sessions: map<Capability, set<string>>

    constructor ()
      ensures enabled == {} && sessions == map[]
    {
      enabled := {};
      sessions := map[];
    }
  }

  function SessionsOf(sessions: map<Capability, set<string>>, c: Capability): set<string>
  {
    if c in sessions then sessions[c] else {}
  }

  /** The shared sets after `sid` is recorded, token by token, under each tracked capability. */
  function Recorded(base: map<Capability, set<string>>, ps: seq<Option<Capability>>, sid: string)
    : map<Capability, set<string>>
  {
    if ps == [] then base
    else
      var before := Recorded(base, ps[..|ps| - 1], sid);
      var p := ps[|ps| - 1];
      if p.Some? && Tracked(p.value) then before[p.value := SessionsOf(before, p.value) + {sid}] else before
  }

  lemma RecordedSnoc(base: map<Capability, set<string>>, ps: seq<Option<Capability>>, p: Option<Capability>, sid: string)
    ensures Recorded(base, ps + [p], sid) ==
      var before := Recorded(base, ps, sid);
      if p.Some? && Tracked(p.value) then before[p.value := SessionsOf(before, p.value) + {sid}] else before
  {
    assert (ps + [p])[..|ps|] == ps;
  }

  /** The session is added to exactly the tracked capabilities that were named; nothing else changes. */
  lemma {:induction false} RecordedSpec(base: map<Capability, set<string>>, ps: seq<Option<Capability>>, sid: string)
    ensures forall c :: c in Recorded(base, ps, sid) <==> c in base || (c in Named(ps) && Tracked(c))
    ensures forall c | c in Recorded(base, ps, sid) ::
      Recorded(base, ps, sid)[c] == SessionsOf(base, c) + (if c in Named(ps) && Tracked(c) then {sid} else {})
  {
    if ps == [] {
      assert Named(ps) == {};
    } else {
      var init := ps[..|ps| - 1];
      var p := ps[|ps| - 1];
      assert ps == init + [p];
      RecordedSpec(base, init, sid);
      StepFacts(init, p);
    }
  }

  /** Set this connection's flag for `c` and, for a tracked capability, record the session. */
  method Grant(reg: CapRegistry, sid: string, c: Capability)
    modifies reg
    ensures reg.enabled == old(reg.enabled) + {c}
    ensures reg.sessions == if Tracked(c) then old(reg.sessions)[c := SessionsOf(old(reg.sessions), c) + {sid}]
                            else old(reg.sessions)
  {
    reg.enabled := reg.enabled + {c};
    if Tracked(c) {
      reg.sessions := reg.sessions[c := SessionsOf(reg.sessions, c) + {sid}];
    }
  }

  /** One step of the REQ loop: grant the parsed token, if it is known. */
  method GrantParsed(reg: CapRegistry, sid: string, p: Option<Capability>,
                     ghost enabled0: set<Capability>, ghost sessions0: map<Capability, set<string>>,
                     ghost done: seq<Option<Capability>>)
    modifies reg
    requires reg.enabled == enabled0 + Named(done)
    requires reg.sessions == Recorded(sessions0, done, sid)
    ensures reg.enabled == enabled0 + Named(done + [p])
    ensures reg.sessions == Recorded(sessions0, done + [p], sid)
  {
    StepFacts(done, p);
    RecordedSnoc(sessions0, done, p, sid);
    if p.Some? {
      Grant(reg, sid, p.value);
    }
  }

  /** The REQ loop: grant every known token in order, collecting the ACK names. */
  method GrantAll(reg: CapRegistry, sid: string, requested: seq<string>) returns (acked: seq<string>, allOk: bool)
    modifies reg
    ensures acked == AckedNames(ParseAll(requested))
    ensures allOk <==> AllKnown(ParseAll(requested))
    ensures reg.enabled == old(reg.enabled) + Named(ParseAll(requested))
    ensures reg.sessions == Recorded(old(reg.sessions), ParseAll(requested), sid)
  {
    ghost var done: seq<Option<Capability>> := [];
    acked, allOk := [], true;
    var i := 0;
    while i < |requested|
      invariant 0 <= i <= |requested|
      invariant done == ParseAll(requested[..i])
      invariant acked == AckedNames(done)
      invariant allOk <==> AllKnown(done)
      invariant reg.enabled == old(reg.enabled) + Named(done)
      invariant reg.sessions == Recorded(old(reg.sessions), done, sid)
    {
      var parsed := ParseCap(requested[i]);
      StepFacts(done, parsed);
      GrantParsed(reg, sid, parsed, old(reg.enabled), old(reg.sessions), done);
      if parsed.Some? {
        acked := acked + [CapName(parsed.value)];
      } else {
        allOk := false;
      }
      ParseAllSnoc(requested, i);
      done := done + [parsed];
      i := i + 1;
    }
    assert requested[..|requested|] == requested;
  }

  /**
   * CAP REQ: set the flag of every known token (even when the reply is a
   * NAK), record the session for tracked capabilities, and reply.
   */
  method Req(reg: CapRegistry, sid: string, caps: string) returns (reply: CapReply)
    modifies reg
    ensures reply == ReqReply(caps)
    ensures reg.enabled == old(reg.enabled) + Named(ParseAll(Words(caps)))
    ensures reg.sessions == Recorded(old(reg.sessions), ParseAll(Words(caps)), sid)
  {
    var acked, allOk := GrantAll(reg, sid, Words(caps));
    if allOk && acked != [] {
      reply := Ack(Join(acked, " "));
    } else {
      reply := Nak(caps);
    }
  }

  // ---------------------------------------------------------------------
  // CAP LS / END and the dispatcher.

  /** The LS list: the fixed capabilities, then `iroh={id}` when the server has an iroh id. */
  function LsLine(irohId: Option<string>): (r: string)
    ensures StartsWith(r, ADVERTISED)
    ensures irohId.None? ==> r == ADVERTISED
    ensures irohId.Some? ==> r[|ADVERTISED|..] == " iroh=" + irohId.value
  {
    match irohId
    case None => ADVERTISED
    case Some(id) => ADVERTISED + " iroh=" + id
  }

  /** The LS line tells apart servers with and without an iroh id, and recovers the id. */
  lemma LsLineInjective(a: Option<string>, b: Option<string>)
    requires LsLine(a) == LsLine(b)
    ensures a == b
  {
    if a.Some? && b.Some? {
      assert LsLine(a)[|ADVERTISED| + 6..] == a.value;
      assert LsLine(b)[|ADVERTISED| + 6..] == b.value;
    }
  }

  /**
   * `handle_cap`: the subcommand is matched ignoring case. LS starts
   * negotiation, REQ with a list replies ACK or NAK, END finishes
   * negotiation and tries to complete registration; anything else is
   * ignored.
   */
  method HandleCap(conn: Registration.Conn, st: Registration.Shared, reg: CapRegistry, sid: string,
                   params: seq<string>, irohId: Option<string>, draw: nat) returns (reply: Option<CapReply>)
    requires st.Valid()
    modifies conn`capNegotiating, conn`nick, conn`ghostChannels, conn`registered, reg
    modifies st`didSessions, st`ghosts, st`channels, st.nicks
    ensures st.Valid()
    ensures params == [] || UpperStr(params[0]) !in {"LS", "REQ", "END"} ==>
      reply.None? && unchanged(conn) && unchanged(st) && unchanged(st.nicks) && unchanged(reg)
    ensures params != [] && UpperStr(params[0]) == "LS" ==>
      conn.capNegotiating && reply == Some(Ls(LsLine(irohId))) && unchanged(reg)
    ensures params != [] && UpperStr(params[0]) == "REQ" && |params| < 2 ==>
      reply.None? && unchanged(conn) && unchanged(reg)
    ensures params != [] && UpperStr(params[0]) == "REQ" && |params| >= 2 ==>
      reply == Some(ReqReply(params[1])) && reg.enabled == old(reg.enabled) + Named(ParseAll(Words(params[1]))) &&
      conn.capNegotiating == old(conn.capNegotiating) && conn.registered == old(conn.registered)
    ensures params != [] && UpperStr(params[0]) == "END" ==>
      reply.None? && !conn.capNegotiating && unchanged(reg) &&
      (old(!conn.registered && !conn.saslInProgress && conn.nick.Some? && conn.user.Some?) ==> conn.registered)
  {
    reply := None;
    if params == [] {
      return;
    }
    var sub := UpperStr(params[0]);
    if sub == "LS" {
      conn.capNegotiating := true;
      reply := Some(Ls(LsLine(irohId)));
    } else if sub == "REQ" {
      if |params| >= 2 {
        var r := Req(reg, sid, params[1]);
        reply := Some(r);
      }
    } else if sub == "END" {
      conn.capNegotiating := false;
      st.TryCompleteRegistration(conn, sid, draw);
    }
  }

  // ---------------------------------------------------------------------
  // AUTHENTICATE.

  /**
   * What decoding the response, taking the stored challenge and verifying
   * the signature yielded; these steps are outside this model.
   */
  datatype SaslCheck = BadResponse | NoChallenge | Rejected(reason: string) | Verified(did: string)

  datatype AuthReply =
    | Aborted              // 904 "SASL authentication aborted"
    | ChallengeSent(encoded: string)
    | LoggedIn(did: string) // 900 then 903
    | Failed(check: SaslCheck) // 904
    | Unsupported          // 904 "Unsupported SASL mechanism"

  function AuthNumeric(r: AuthReply): (n: Option<nat>)
    ensures n == Some(ERR_SASLFAIL) <==> r.Aborted? || r.Failed? || r.Unsupported?
  {
    if r.Aborted? || r.Failed? || r.Unsupported? then Some(ERR_SASLFAIL) else None
  }

  /** `eq_ignore_ascii_case("ATPROTO-CHALLENGE")`. */
  predicate IsMechanism(param: string)
  {
    LowerStr(param) == "atproto-challenge"
  }

  /**
   * `handle_authenticate`. `*` aborts; the mechanism name (any case) starts
   * an exchange with the fresh `challenge`; inside an exchange any other
   * parameter is the response, checked by `check`; outside one it is an
   * unsupported mechanism.
   */
  method Authenticate(conn: Registration.Conn, st: Registration.Shared, sid: string, param: string,
                      challenge: string, check: SaslCheck) returns (reply: AuthReply)
    modifies conn`saslInProgress, conn`authenticatedDid, st`sessionDids, st`nickOwners, st`didNicks
    ensures conn.saslInProgress <==> param != "*" && IsMechanism(param)
    ensures param == "*" ==> reply == Aborted
    ensures param != "*" && IsMechanism(param) ==> reply == ChallengeSent(challenge)
    ensures param != "*" && !IsMechanism(param) && !old(conn.saslInProgress) ==> reply == Unsupported
    ensures param != "*" && !IsMechanism(param) && old(conn.saslInProgress) ==>
      reply == (if check.Verified? then LoggedIn(check.did) else Failed(check))
    ensures reply.LoggedIn? ==>
      conn.authenticatedDid == Some(reply.did) && st.sessionDids == old(st.sessionDids)[sid := reply.did] &&
      (conn.nick.Some? ==> st.nickOwners == old(st.nickOwners)[LowerStr(conn.nick.value) := reply.did] &&
                           st.didNicks == old(st.didNicks)[reply.did := LowerStr(conn.nick.value)]) &&
      (conn.nick.None? ==> st.nickOwners == old(st.nickOwners) && st.didNicks == old(st.didNicks))
    ensures !reply.LoggedIn? ==>
      conn.authenticatedDid == old(conn.authenticatedDid) && st.sessionDids == old(st.sessionDids) &&
      st.nickOwners == old(st.nickOwners) && st.didNicks == old(st.didNicks)
  {
    if param == "*" {
      conn.saslInProgress := false;
      reply := Aborted;
      return;
    }
    if IsMechanism(param) {
      conn.saslInProgress := true;
      reply := ChallengeSent(challenge);
    } else if conn.saslInProgress {
      conn.saslInProgress := false;
      match check {
        case Verified(did) =>
          conn.authenticatedDid := Some(did);
          st.sessionDids := st.sessionDids[sid := did];
          if conn.nick.Some? {
            var lower := LowerStr(conn.nick.value);
            st.didNicks := st.didNicks[did := lower];
            st.nickOwners := st.nickOwners[lower := did];
          }
          reply := LoggedIn(did);
        case _ =>
          reply := Failed(check);
      }
    } else {
      reply := Unsupported;
    }
  }

  /** After a successful login the connection's nick is owned by its DID, so no guest rename follows. */
  lemma LoginOwnsNick(nick: string, did: string, owners: map<string, string>)
    ensures !Registration.HeldWithoutOwnership(Some(nick), owners[LowerStr(nick) := did], Some(did))
  {
  }
}
