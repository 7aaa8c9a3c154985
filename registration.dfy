// Completing IRC registration: the guard before the welcome burst, the
// guest rename of a nick registered to another DID, and attaching a new
// session to a DID that is already known (ghost reclaim, first-session nick
// reclaim, multi-device attach), plus the NAMES list replayed to the new
// session.

module Registration {
  import opened Common
  import opened Server
  import Connection

  /** Guest nicks carry a number below this bound. */
  const GUEST_RANGE: nat := 100000

  /** A channel a disconnected session was in, with its op, voice and halfop flags. */
  datatype GhostChannel = GhostChannel(name: string, wasOp: bool, wasVoiced: bool, wasHalfop: bool)

  /** A DID's recently disconnected session, kept so a reconnect can take it over. */
  datatype Ghost = Ghost(nick: string, channels: seq<GhostChannel>)

  // ---------------------------------------------------------------------
  // Guest nicks.

  function Pow10(w: nat): nat
  {
    if w == 0 then 1 else 10 * Pow10(w - 1)
  }

  lemma {:induction false} DecimalStringWidth(n: nat, w: nat)
    requires 0 < w && n < Pow10(w)
    ensures |DecimalString(n)| <= w
  {
    if n >= 10 {
      assert w > 1;
      assert n / 10 < Pow10(w - 1);
      DecimalStringWidth(n / 10, w - 1);
    }
  }

  lemma {:induction false} AsciiUtf8Length(s: string)
    requires forall i | 0 <= i < |s| :: s[i] as int < 0x80
    ensures |Utf8(s)| == |s|
  {
    if s != [] {
      AsciiUtf8Length(s[1..]);
    }
  }

  /** `Guest{n}`, where `n` is the random draw reduced below 100000. */
  function GuestNick(draw: nat): (r: string)
    ensures StartsWith(r, "Guest") && 5 < |r| <= 10
    ensures forall i | 5 <= i < |r| :: IsDigit(r[i])
    ensures DigitsValue(r[5..]) == draw % GUEST_RANGE < GUEST_RANGE
  {
    var digits := DecimalString(draw % GUEST_RANGE);
    DecimalStringValue(draw % GUEST_RANGE);
    assert Pow10(5) == GUEST_RANGE;
    DecimalStringWidth(draw % GUEST_RANGE, 5);
    assert ("Guest" + digits)[5..] == digits;
    "Guest" + digits
  }

  /** A guest nick always passes the NICK syntax check. */
  lemma GuestNickAccepted(draw: nat)
    ensures Connection.NickError(GuestNick(draw)).None?
  {
    var g := GuestNick(draw);
    forall i | 0 <= i < |g|
      ensures g[i] as int < 0x80 && !Connection.ForbiddenNickChar(g[i])
    {
      if i >= 5 {
        assert IsDigit(g[i]);
      } else {
        assert g[i] == "Guest"[i];
      }
    }
    AsciiUtf8Length(g);
  }

  /** Two draws give the same guest nick only when they agree modulo 100000. */
  lemma GuestNickDeterminesDraw(a: nat, b: nat)
    requires GuestNick(a) == GuestNick(b)
    ensures a % GUEST_RANGE == b % GUEST_RANGE
  {
    assert GuestNick(a)[5..] == GuestNick(b)[5..];
  }

  // ---------------------------------------------------------------------
  // First-session nick reclaim.

  /** `trim_end_matches('_')`: the longest prefix not ending in an underscore. */
  function TrimUnderscores(s: string): (r: string)
    ensures r <= s
    ensures r == [] || r[|r| - 1] != '_'
    ensures forall i | |r| <= i < |s| :: s[i] == '_'
  {
    if s != [] && s[|s| - 1] == '_' then TrimUnderscores(s[..|s| - 1]) else s
  }

  /** A fallback nick (one ending in `_`) differs from its trimmed form even ignoring case. */
  lemma FallbackDiffersFromTrimmed(n: string)
    requires EndsWith(n, "_")
    ensures |TrimUnderscores(n)| < |n| && !NickEq(n, TrimUnderscores(n))
  {
    assert n[|n| - 1] == "_"[0];
  }

  // ---------------------------------------------------------------------
  // Channel membership flags.

  datatype Role = Member | Op | Voice | Halfop

  predicate Grants(g: GhostChannel, role: Role)
  {
    match role
    case Member => true
    case Op => g.wasOp
    case Voice => g.wasVoiced
    case Halfop => g.wasHalfop
  }

  /** Some recorded channel lower-cases to `key` and carries `role`. */
  ghost predicate Recorded(gcs: seq<GhostChannel>, key: string, role: Role)
  {
    exists i | 0 <= i < |gcs| :: LowerStr(gcs[i].name) == key && Grants(gcs[i], role)
  }

  lemma RecordedSnoc(gcs: seq<GhostChannel>, g: GhostChannel, key: string, role: Role)
    ensures Recorded(gcs + [g], key, role) <==> Recorded(gcs, key, role) || (LowerStr(g.name) == key && Grants(g, role))
  {
    if Recorded(gcs + [g], key, role) && !(LowerStr(g.name) == key && Grants(g, role)) {
      var i :| 0 <= i < |gcs + [g]| && LowerStr((gcs + [g])[i].name) == key && Grants((gcs + [g])[i], role);
      assert i < |gcs| && gcs[i] == (gcs + [g])[i];
    }
    if Recorded(gcs, key, role) {
      var i :| 0 <= i < |gcs| && LowerStr(gcs[i].name) == key && Grants(gcs[i], role);
      assert (gcs + [g])[i] == gcs[i];
    }
    if LowerStr(g.name) == key && Grants(g, role) {
      assert (gcs + [g])[|gcs|] == g;
    }
  }

  function WithSid(s: set<string>, sid: string, add: bool): set<string>
  {
    if add then s + {sid} else s
  }

  /** The channel `key` after the ghost's session `sid` is re-added with its recorded flags. */
  ghost function Rejoined(ch: ChannelState, sid: string, gcs: seq<GhostChannel>, key: string): (r: ChannelState)
    ensures forall s | s != sid ::
      (s in r.members <==> s in ch.members) && (s in r.ops <==> s in ch.ops) &&
      (s in r.voiced <==> s in ch.voiced) && (s in r.halfops <==> s in ch.halfops)
    ensures sid in r.members <==> sid in ch.members || Recorded(gcs, key, Member)
    ensures sid in r.ops <==> sid in ch.ops || Recorded(gcs, key, Op)
    ensures sid in r.voiced <==> sid in ch.voiced || Recorded(gcs, key, Voice)
    ensures sid in r.halfops <==> sid in ch.halfops || Recorded(gcs, key, Halfop)
    ensures r.(members := ch.members, ops := ch.ops, voiced := ch.voiced, halfops := ch.halfops) == ch
  {
    ch.(members := WithSid(ch.members, sid, Recorded(gcs, key, Member)),
        ops := WithSid(ch.ops, sid, Recorded(gcs, key, Op)),
        voiced := WithSid(ch.voiced, sid, Recorded(gcs, key, Voice)),
        halfops := WithSid(ch.halfops, sid, Recorded(gcs, key, Halfop)))
  }

  /** Reclaiming the same ghost twice changes nothing the first reclaim did not. */
  lemma RejoinedIdempotent(ch: ChannelState, sid: string, gcs: seq<GhostChannel>, key: string)
    ensures Rejoined(Rejoined(ch, sid, gcs, key), sid, gcs, key) == Rejoined(ch, sid, gcs, key)
  {
    var once := Rejoined(ch, sid, gcs, key);
    var twice := Rejoined(once, sid, gcs, key);
    assert twice.members == once.members;
    assert twice.ops == once.ops;
    assert twice.voiced == once.voiced;
    assert twice.halfops == once.halfops;
  }

  /** One more recorded channel adds `sid` with its flags to the channel it names, and to no other. */
  lemma RejoinStep(ch: ChannelState, sid: string, pre: seq<GhostChannel>, g: GhostChannel, k: string)
    ensures var before := Rejoined(ch, sid, pre, k);
      Rejoined(ch, sid, pre + [g], k) ==
        if LowerStr(g.name) == k then
          before.(members := before.members + {sid},
                  ops := WithSid(before.ops, sid, g.wasOp),
                  voiced := WithSid(before.voiced, sid, g.wasVoiced),
                  halfops := WithSid(before.halfops, sid, g.wasHalfop))
        else before
  {
    RecordedSnoc(pre, g, k, Member);
    RecordedSnoc(pre, g, k, Op);
    RecordedSnoc(pre, g, k, Voice);
    RecordedSnoc(pre, g, k, Halfop);
  }

  /**
   * Ghost reclaim: walk the recorded channels and, for each that still
   * exists under its lower-cased name, re-add `sid` with its flags.
   */
  method RejoinGhostChannels(channels: map<string, ChannelState>, sid: string, gcs: seq<GhostChannel>)
    returns (r: map<string, ChannelState>)
    ensures r.Keys == channels.Keys
    ensures forall k | k in channels :: r[k] == Rejoined(channels[k], sid, gcs, k)
  {
    r := channels;
    var i := 0;
    while i < |gcs|
      invariant 0 <= i <= |gcs|
      invariant r.Keys == channels.Keys
      invariant forall k | k in channels :: r[k] == Rejoined(channels[k], sid, gcs[..i], k)
    {
      var g := gcs[i];
      var key := LowerStr(g.name);
      assert gcs[..i + 1] == gcs[..i] + [g];
      ghost var prev := r;
      if key in r {
        var ch := r[key];
        r := r[key := ch.(members := ch.members + {sid},
                          ops := WithSid(ch.ops, sid, g.wasOp),
                          voiced := WithSid(ch.voiced, sid, g.wasVoiced),
                          halfops := WithSid(ch.halfops, sid, g.wasHalfop))];
      }
      forall k | k in channels ensures r[k] == Rejoined(channels[k], sid, gcs[..i + 1], k) {
        RejoinStep(channels[k], sid, gcs[..i], g, k);
      }
      i := i + 1;
    }
    assert gcs[..|gcs|] == gcs;
  }

  function ChannelNames(gcs: seq<GhostChannel>): (r: seq<string>)
    ensures |r| == |gcs| && forall i | 0 <= i < |gcs| :: r[i] == gcs[i].name
  {
    seq(|gcs|, i requires 0 <= i < |gcs| => gcs[i].name)
  }

  // ---------------------------------------------------------------------
  // Multi-device attach.

  /** Some existing session of the DID is in the channel. */
  predicate Shares(ch: ChannelState, existing: set<string>)
  {
    ch.members * existing != {}
  }

  /** The channel after `sid` joins it beside the DID's other sessions, copying op and voice. */
  function Attached(ch: ChannelState, sid: string, existing: set<string>): (r: ChannelState)
    ensures forall s | s != sid ::
      (s in r.members <==> s in ch.members) && (s in r.ops <==> s in ch.ops) && (s in r.voiced <==> s in ch.voiced)
    ensures sid in r.members
    ensures sid in r.ops <==> sid in ch.ops || exists s | s in existing :: s in ch.ops
    ensures sid in r.voiced <==> sid in ch.voiced || exists s | s in existing :: s in ch.voiced
    ensures r.halfops == ch.halfops
    ensures r.(members := ch.members, ops := ch.ops, voiced := ch.voiced) == ch
  {
    ch.(members := ch.members + {sid},
        ops := WithSid(ch.ops, sid, ch.ops * existing != {}),
        voiced := WithSid(ch.voiced, sid, ch.voiced * existing != {}))
  }

  /** Attaching twice is attaching once, as long as `sid` is not one of the existing sessions. */
  lemma AttachedIdempotent(ch: ChannelState, sid: string, existing: set<string>)
    requires sid !in existing
    ensures Attached(Attached(ch, sid, existing), sid, existing) == Attached(ch, sid, existing)
  {
    var once := Attached(ch, sid, existing);
    assert once.ops * existing == ch.ops * existing;
    assert once.voiced * existing == ch.voiced * existing;
  }

  /**
   * Add `sid` to every channel one of `existing` is in, silently. Returns
   * the new channel map and the set of channels joined.
   */
  method MultiDeviceJoin(channels: map<string, ChannelState>, sid: string, existing: set<string>)
    returns (r: map<string, ChannelState>, joined: set<string>)
    ensures joined == set k | k in channels && Shares(channels[k], existing)
    ensures r.Keys == channels.Keys
    ensures forall k | k in channels ::
      r[k] == if k in joined then Attached(channels[k], sid, existing) else channels[k]
  {
    joined := set k | k in channels && Shares(channels[k], existing);
    r := channels;
    var todo := joined;
    while todo != {}
      invariant todo <= joined
      invariant r.Keys == channels.Keys
      invariant forall k | k in channels ::
        r[k] == if k in joined && k !in todo then Attached(channels[k], sid, existing) else channels[k]
      decreases todo
    {
      var k :| k in todo;
      var ch := r[k];
      ch := ch.(members := ch.members + {sid});
      var isOp := ch.ops * existing != {};
      var isVoiced := ch.voiced * existing != {};
      if isOp { ch := ch.(ops := ch.ops + {sid}); }
      if isVoiced { ch := ch.(voiced := ch.voiced + {sid}); }
      r := r[k := ch];
      todo := todo - {k};
    }
  }

  /** Nicks of other sessions of `did` that a new session `sid` may adopt. */
  function CanonicalCandidates(sidToNick: map<string, string>, sessionDids: map<string, string>,
                               did: string, sid: string): set<string>
  {
    set s | s in sidToNick && s in sessionDids && sessionDids[s] == did && s != sid :: sidToNick[s]
  }

  /** Every nick the new session may adopt is held by another session of the same DID. */
  lemma CandidateHeldByOtherSession(sidToNick: map<string, string>, sessionDids: map<string, string>,
                                    did: string, sid: string, n: string)
    requires n in CanonicalCandidates(sidToNick, sessionDids, did, sid)
    ensures exists s | s in sidToNick && s != sid :: sidToNick[s] == n && s in sessionDids && sessionDids[s] == did
  {
  }

  /**
   * The canonical-nick lookup as written: any nick whose session has this
   * DID, including the new session's own entry.
   */
  function CanonicalCandidatesAsWritten(sidToNick: map<string, string>, sessionDids: map<string, string>,
                                        did: string): set<string>
  {
    set s | s in sidToNick && s in sessionDids && sessionDids[s] == did :: sidToNick[s]
  }

  /**
   * A second device whose own nick is already mapped can pick that nick as
   * the "canonical" one, and so keeps a nick no other session of the DID has.
   */
  lemma AsWrittenMayKeepOwnNick()
    ensures var sidToNick := map["s1" := "alice", "s2" := "alice2"];
      var sessionDids := map["s1" := "did:plc:a", "s2" := "did:plc:a"];
      "alice2" in CanonicalCandidatesAsWritten(sidToNick, sessionDids, "did:plc:a") &&
      "alice2" !in CanonicalCandidates(sidToNick, sessionDids, "did:plc:a", "s2") &&
      CanonicalCandidates(sidToNick, sessionDids, "did:plc:a", "s2") == {"alice"}
  {
    var sidToNick := map["s1" := "alice", "s2" := "alice2"];
    var sessionDids := map["s1" := "did:plc:a", "s2" := "did:plc:a"];
    assert sidToNick["s2"] == "alice2";
    assert sidToNick["s1"] == "alice";
    assert "alice" != "alice2";
    var c := CanonicalCandidates(sidToNick, sessionDids, "did:plc:a", "s2");
    forall n | n in c ensures n == "alice" {
      var s :| s in sidToNick && s in sessionDids && sessionDids[s] == "did:plc:a" && s != "s2" && sidToNick[s] == n;
      assert s == "s1";
    }
    assert "alice" in c;
  }

  /** Pick a canonical nick, in no particular order (the server walks a hash map). */
  method PickCanonical(sidToNick: map<string, string>, sessionDids: map<string, string>, did: string, sid: string)
    returns (r: Option<string>)
    ensures r.Some? <==> CanonicalCandidates(sidToNick, sessionDids, did, sid) != {}
    ensures r.Some? ==> r.value in CanonicalCandidates(sidToNick, sessionDids, did, sid)
  {
    var c := CanonicalCandidates(sidToNick, sessionDids, did, sid);
    if c == {} {
      r := None;
    } else {
      var n :| n in c;
      r := Some(n);
    }
  }

  // ---------------------------------------------------------------------
  // The NAMES list replayed to an attached session.

  /** `@` for an op, else `+` for a voiced member, else nothing. */
  function NamesPrefix(ch: ChannelState, sid: string): string
  {
    if sid in ch.ops then "@" else if sid in ch.voiced then "+" else ""
  }

  ghost function LowerNicks(nickOf: map<string, string>, listed: seq<string>): set<string>
  {
    set i | 0 <= i < |listed| && listed[i] in nickOf :: LowerStr(nickOf[listed[i]])
  }

  lemma LowerNicksSnoc(nickOf: map<string, string>, listed: seq<string>, m: string)
    requires m in nickOf
    ensures LowerNicks(nickOf, listed + [m]) == LowerNicks(nickOf, listed) + {LowerStr(nickOf[m])}
  {
    var l2 := listed + [m];
    forall x | x in LowerNicks(nickOf, l2) ensures x in LowerNicks(nickOf, listed) + {LowerStr(nickOf[m])} {
      var i :| 0 <= i < |l2| && l2[i] in nickOf && x == LowerStr(nickOf[l2[i]]);
      if i < |listed| { assert l2[i] == listed[i]; }
    }
    forall x | x in LowerNicks(nickOf, listed) ensures x in LowerNicks(nickOf, l2) {
      var i :| 0 <= i < |listed| && listed[i] in nickOf && x == LowerStr(nickOf[listed[i]]);
      assert l2[i] == listed[i];
    }
    assert l2[|listed|] == m;
  }

  /**
   * Build the NAMES entries for a channel: each member with a nick, once
   * per nick ignoring case (a DID's devices share one), prefixed by its
   * status. Returns the entries and the sessions they were taken from.
   */
  method NamesReplay(ch: ChannelState, nickOf: map<string, string>) returns (names: seq<string>, listed: seq<string>)
    ensures |names| == |listed|
    ensures forall i | 0 <= i < |listed| ::
      listed[i] in ch.members && listed[i] in nickOf && names[i] == NamesPrefix(ch, listed[i]) + nickOf[listed[i]]
    ensures forall i, j | 0 <= i < j < |listed| :: !NickEq(nickOf[listed[i]], nickOf[listed[j]])
    ensures forall m | m in ch.members && m in nickOf :: LowerStr(nickOf[m]) in LowerNicks(nickOf, listed)
  {
    names, listed := [], [];
    var seen: set<string> := {};
    var rest := ch.members;
    while rest != {}
      invariant rest <= ch.members
      invariant |names| == |listed|
      invariant forall i | 0 <= i < |listed| ::
        listed[i] in ch.members && listed[i] in nickOf && names[i] == NamesPrefix(ch, listed[i]) + nickOf[listed[i]]
      invariant forall i, j | 0 <= i < j < |listed| :: !NickEq(nickOf[listed[i]], nickOf[listed[j]])
      invariant seen == LowerNicks(nickOf, listed)
      invariant forall m | m in ch.members && m !in rest && m in nickOf :: LowerStr(nickOf[m]) in seen
      decreases rest
    {
      var m :| m in rest;
      if m in nickOf {
        var lower := LowerStr(nickOf[m]);
        if lower !in seen {
          forall i | 0 <= i < |listed| ensures !NickEq(nickOf[listed[i]], nickOf[m]) {
            assert LowerStr(nickOf[listed[i]]) in seen;
          }
          LowerNicksSnoc(nickOf, listed, m);
          seen := seen + {lower};
          names := names + [NamesPrefix(ch, m) + nickOf[m]];
          listed := listed + [m];
        }
      }
      rest := rest - {m};
    }
  }

  // ---------------------------------------------------------------------
  // Connection and shared state.

  /** The connection fields registration reads and writes. */
  class Conn {
    var nick: Option<string>
    var user: Option<string>
    var registered: bool
    var capNegotiating: bool
    var saslInProgress: bool
    var authenticatedDid: Option<string>
    var ghostChannels: Option<seq<string>>

    constructor ()
      ensures nick.None? && user.None? && !registered && !capNegotiating && !saslInProgress
      ensures authenticatedDid.None? && ghostChannels.None?
    {
      nick := None;
      user := None;
      registered := false;
      capNegotiating := false;
      saslInProgress := false;
      authenticatedDid := None;
      ghostChannels := None;
    }
  }

  /** `try_complete_registration` proceeds only from this state. */
  predicate MayComplete(c: Conn)
    reads c
  {
    !c.registered && !c.capNegotiating && !c.saslInProgress && c.nick.Some? && c.user.Some?
  }

  /** The nick is registered to a DID the connection has not authenticated as. */
  predicate HeldWithoutOwnership(nick: Option<string>, nickOwners: map<string, string>, did: Option<string>)
  {
    nick.Some? && LowerStr(nick.value) in nickOwners && did != Some(nickOwners[LowerStr(nick.value)])
  }

  /** The shared server state registration touches. */
  class Shared {
    const nicks: NickMap
    /** Lower-case nick to the DID that owns it. */
    var nickOwners: map<string, string>
    /** DID to the lower-case nick it owns. */
    var didNicks: map<string, string>
    var didSessions: map<string, set<string>>
    var sessionDids: map<string, string>
    var ghosts: map<string, Ghost>
    var channels: map<string, ChannelState>

    ghost predicate Valid()
      reads this, nicks
    {
      nicks.Valid()
    }

    constructor ()
      ensures Valid() && fresh(nicks) && nicks.sidToNick == map[]
      ensures nickOwners == map[] && didNicks == map[] && didSessions == map[] && sessionDids == map[]
      ensures ghosts == map[] && channels == map[]
    {
      nicks := new NickMap();
      nickOwners := map[];
      didNicks := map[];
      didSessions := map[];
      sessionDids := map[];
      ghosts := map[];
      channels := map[];
    }

    /** Rename a connection holding someone else's registered nick to a guest nick. */
    method EnforceNickOwnership(conn: Conn, sid: string, draw: nat)
      requires Valid()
      modifies conn`nick, nicks
      ensures Valid()
      ensures HeldWithoutOwnership(old(conn.nick), nickOwners, conn.authenticatedDid) ==>
        conn.nick == Some(GuestNick(draw)) && nicks.GetNick(sid) == Some(GuestNick(draw)) &&
        (!NickEq(old(conn.nick).value, GuestNick(draw)) ==> !nicks.ContainsNick(old(conn.nick).value))
      ensures !HeldWithoutOwnership(old(conn.nick), nickOwners, conn.authenticatedDid) ==>
        conn.nick == old(conn.nick) && nicks.sidToNick == old(nicks.sidToNick) && nicks.nickToSid == old(nicks.nickToSid)
    {
      if conn.nick.Some? {
        var n := conn.nick.value;
        var lower := LowerStr(n);
        if lower in nickOwners && conn.authenticatedDid != Some(nickOwners[lower]) {
          var guest := GuestNick(draw);
          var removed := nicks.RemoveByNick(n);
          ghost var between := nicks.sidToNick;
          nicks.Insert(guest, sid);
          InsertPairFacts(between, guest, sid);
          conn.nick := Some(guest);
        }
      }
    }

    /** Take over the ghost `g`: its nick, and its channels with their flags. */
    method ReclaimGhost(conn: Conn, sid: string, g: Ghost)
      requires Valid()
      modifies this`channels, conn`nick, conn`ghostChannels, nicks
      ensures Valid()
      ensures conn.nick.Some? && NickEq(conn.nick.value, g.nick)
      ensures old(conn.nick).Some? && NickEq(old(conn.nick).value, g.nick) ==> conn.nick == old(conn.nick)
      ensures nicks.GetNick(sid) == Some(g.nick)
      ensures old(conn.nick).Some? && !NickEq(old(conn.nick).value, g.nick) ==> !nicks.ContainsNick(old(conn.nick).value)
      ensures channels.Keys == old(channels).Keys
      ensures forall k | k in channels :: channels[k] == Rejoined(old(channels)[k], sid, g.channels, k)
      ensures conn.ghostChannels == Some(ChannelNames(g.channels))
    {
      if conn.nick.None? || LowerStr(conn.nick.value) != LowerStr(g.nick) {
        if conn.nick.Some? {
          var removed := nicks.RemoveByNick(conn.nick.value);
        }
        conn.nick := Some(g.nick);
      }
      ghost var between := nicks.sidToNick;
      nicks.Insert(g.nick, sid);
      InsertPairFacts(between, g.nick, sid);
      var r := RejoinGhostChannels(channels, sid, g.channels);
      channels := r;
      conn.ghostChannels := Some(ChannelNames(g.channels));
    }

    /**
     * The DID's only session: make sure its nick is mapped, then trade a
     * fallback nick ending in `_` for the trimmed one if that is free.
     */
    method FirstSession(conn: Conn, sid: string)
      requires Valid()
      modifies conn`nick, nicks
      ensures Valid()
      ensures old(conn.nick).None? ==> conn.nick.None? && nicks.sidToNick == old(nicks.sidToNick)
      ensures conn.nick.Some? ==> nicks.ContainsNick(conn.nick.value)
      ensures old(conn.nick).Some? && !EndsWith(old(conn.nick).value, "_") ==> conn.nick == old(conn.nick)
      ensures (old(conn.nick).Some? && EndsWith(old(conn.nick).value, "_") &&
               !old(nicks.ContainsNick(TrimUnderscores(conn.nick.value)))) ==>
        conn.nick == Some(TrimUnderscores(old(conn.nick).value)) && nicks.GetNick(sid) == conn.nick
      ensures (old(conn.nick).Some? &&
               exists s | s in old(nicks.sidToNick) && s != sid ::
                 NickEq(old(nicks.sidToNick)[s], TrimUnderscores(old(conn.nick).value))) ==>
        conn.nick == old(conn.nick)
    {
      if conn.nick.Some? {
        var n := conn.nick.value;
        ghost var before := nicks.sidToNick;
        if !nicks.ContainsNick(n) {
          nicks.Insert(n, sid);
          InsertPairFacts(before, n, sid);
        }
        if EndsWith(n, "_") {
          var desired := TrimUnderscores(n);
          FallbackDiffersFromTrimmed(n);
          if !nicks.ContainsNick(desired) {
            var removed := nicks.RemoveByNick(n);
            ghost var between := nicks.sidToNick;
            nicks.Insert(desired, sid);
            InsertPairFacts(between, desired, sid);
            conn.nick := Some(desired);
          } else {
            assert nicks.ContainsNick(n);
          }
        }
      }
    }

    /**
     * Another session of the DID exists: adopt a nick one of them holds,
     * then join every channel they are in with their op and voice status.
     */
    method MultiDevice(conn: Conn, sid: string, did: string, existing: set<string>)
      requires Valid()
      modifies this`channels, conn`nick, nicks
      ensures Valid()
      ensures CanonicalCandidates(old(nicks.sidToNick), sessionDids, did, sid) != {} ==>
        conn.nick.Some? &&
        exists s | s in nicks.sidToNick && s != sid :: NickEq(nicks.sidToNick[s], conn.nick.value) &&
          s in sessionDids && sessionDids[s] == did
      ensures CanonicalCandidates(old(nicks.sidToNick), sessionDids, did, sid) == {} ==>
        conn.nick == old(conn.nick) && nicks.sidToNick == old(nicks.sidToNick)
      ensures channels.Keys == old(channels).Keys
      ensures forall k | k in channels ::
        channels[k] == if Shares(old(channels)[k], existing) then Attached(old(channels)[k], sid, existing) else old(channels)[k]
    {
      var canon := PickCanonical(nicks.sidToNick, sessionDids, did, sid);
      if canon.Some? {
        var c := canon.value;
        ghost var s0 :| s0 in nicks.sidToNick && s0 in sessionDids && sessionDids[s0] == did && s0 != sid &&
          nicks.sidToNick[s0] == c;
        if conn.nick.None? || LowerStr(conn.nick.value) != LowerStr(c) {
          if conn.nick.Some? {
            var removed := nicks.RemoveByNick(conn.nick.value);
          }
          conn.nick := Some(c);
        }
        assert s0 in nicks.sidToNick && NickEq(nicks.sidToNick[s0], conn.nick.value);
      }
      var r, joined := MultiDeviceJoin(channels, sid, existing);
      channels := r;
    }

    /**
     * `attach_same_did`: record the session under its DID, then reclaim a
     * ghost, or treat it as the first session, or attach it as another device.
     */
    method AttachSameDid(conn: Conn, sid: string)
      requires Valid()
      modifies this`didSessions, this`ghosts, this`channels, conn`nick, conn`ghostChannels, nicks
      ensures Valid()
      ensures old(conn.authenticatedDid).None? ==>
        unchanged(this) && unchanged(conn) && unchanged(nicks)
      ensures conn.authenticatedDid.Some? ==>
        var did := conn.authenticatedDid.value;
        did in didSessions && sid in didSessions[did] &&
        didSessions == old(didSessions)[did := didSessions[did]] &&
        didSessions[did] == (if did in old(didSessions) then old(didSessions)[did] else {}) + {sid}
      ensures conn.authenticatedDid.Some? && conn.authenticatedDid.value in old(ghosts) ==>
        var g := old(ghosts)[conn.authenticatedDid.value];
        ghosts == old(ghosts) - {conn.authenticatedDid.value} &&
        conn.nick.Some? && NickEq(conn.nick.value, g.nick) && nicks.GetNick(sid) == Some(g.nick) &&
        channels.Keys == old(channels).Keys &&
        (forall k | k in channels :: channels[k] == Rejoined(old(channels)[k], sid, g.channels, k))
      ensures conn.authenticatedDid.Some? && conn.authenticatedDid.value !in old(ghosts) ==>
        ghosts == old(ghosts) && conn.ghostChannels == old(conn.ghostChannels)
      ensures conn.authenticatedDid.Some? && conn.authenticatedDid.value !in old(ghosts) ==>
        var existing := set s | s in sessionDids && sessionDids[s] == conn.authenticatedDid.value && s != sid;
        channels.Keys == old(channels).Keys &&
        forall k | k in channels ::
          channels[k] == if Shares(old(channels)[k], existing) then Attached(old(channels)[k], sid, existing) else old(channels)[k]
    {
      if conn.authenticatedDid.None? {
        return;
      }
      var did := conn.authenticatedDid.value;
      var sessions := if did in didSessions then didSessions[did] else {};
      didSessions := didSessions[did := sessions + {sid}];
      if did in ghosts {
        var g := ghosts[did];
        ghosts := ghosts - {did};
        ReclaimGhost(conn, sid, g);
        return;
      }
      var existing := set s | s in sessionDids && sessionDids[s] == did && s != sid;
      if existing == {} {
        FirstSession(conn, sid);
        forall k | k in channels ensures !Shares(channels[k], existing) { }
        return;
      }
      MultiDevice(conn, sid, did, existing);
    }

    /**
     * `try_complete_registration`: once nick and user are known and no CAP
     * or SASL exchange is pending, enforce nick ownership, attach to the
     * DID's other sessions and mark the connection registered.
     */
    method TryCompleteRegistration(conn: Conn, sid: string, draw: nat)
      requires Valid()
      modifies this`didSessions, this`ghosts, this`channels, conn`nick, conn`ghostChannels, conn`registered, nicks
      ensures Valid()
      ensures !old(MayComplete(conn)) ==> unchanged(this) && unchanged(conn) && unchanged(nicks)
      ensures old(MayComplete(conn)) ==> conn.registered
      ensures !MayComplete(conn)
    {
      if conn.registered || conn.capNegotiating || conn.saslInProgress {
        return;
      }
      if conn.nick.None? || conn.user.None? {
        return;
      }
      EnforceNickOwnership(conn, sid, draw);
      AttachSameDid(conn, sid);
      conn.registered := true;
    }
  }
}
