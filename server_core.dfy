// freeq-server/src/server.rs: channel state, hostmask/DID bans, the
// case-insensitive nick <-> session table, remote-member helpers, the
// per-peer S2S rate limiter and the SyncResponse merge.

module Server {
  import opened Common

  // ---------------------------------------------------------------------
  // Channel state

  datatype RemoteMember = RemoteMember(origin: string, did: Option<string>, handle: Option<string>, isOp: bool)

  datatype BanEntry = BanEntry(mask: string, setBy: string, setAt: nat)

  datatype TopicInfo = TopicInfo(text: string, setBy: string, setAt: nat)

  datatype HistoryMessage = HistoryMessage(
    from: string, text: string, timestamp: nat, tags: map<string, string>, msgid: Option<string>)

  datatype PinnedMessage = PinnedMessage(msgid: string, pinnedBy: string, pinnedAt: nat)

  datatype ChannelState = ChannelState(
    members: set<string>,
    remoteMembers: map<string, RemoteMember>,
    ops: set<string>,
    halfops: set<string>,
    voiced: set<string>,
    founderDid: Option<string>,
    didOps: set<string>,
    createdAt: nat,
    bans: seq<BanEntry>,
    inviteOnly: bool,
    invites: set<string>,
    history: seq<HistoryMessage>,
    topic: Option<TopicInfo>,
    topicLocked: bool,
    noExtMsg: bool,
    moderated: bool,
    encryptedOnly: bool,
    key: Option<string>,
    pins: seq<PinnedMessage>)

  /** `ChannelState::default()`. */
  function DefaultChannel(): ChannelState
  {
    ChannelState({}, map[], {}, {}, {}, None, {}, 0, [], false, {}, [], None, false, false, false, false, None, [])
  }

  const MAX_HISTORY: nat := 100

  // ---------------------------------------------------------------------
  // Wildcard hostmask matching.  The source lowercases both sides and then
  // walks their UTF-8 bytes, so `?` stands for one byte.

  const STAR: byte := 42
  const QMARK: byte := 63

  function MatchBytes(p: seq<byte>, t: seq<byte>): bool
    decreases |p| + |t|
  {
    if p == [] then t == []
    else if p[0] == STAR then MatchBytes(p[1..], t) || (t != [] && MatchBytes(p, t[1..]))
    else if t == [] then false
    else if p[0] == QMARK then MatchBytes(p[1..], t[1..])
    else p[0] == t[0] && MatchBytes(p[1..], t[1..])
  }

  function WildcardMatch(pattern: string, text: string): bool
  {
    MatchBytes(Utf8(LowerStr(pattern)), Utf8(LowerStr(text)))
  }

  /** Without wildcard bytes a pattern matches exactly the equal byte string. */
  lemma {:induction false} MatchLiteral(p: seq<byte>, t: seq<byte>)
    requires STAR !in p && QMARK !in p
    ensures MatchBytes(p, t) <==> p == t
  {
    if p != [] && t != [] {
      MatchLiteral(p[1..], t[1..]);
      assert p == [p[0]] + p[1..] && t == [t[0]] + t[1..];
    }
  }

  lemma {:induction false} NoWildcardBytes(s: string)
    requires '*' !in s && '?' !in s
    ensures STAR !in Utf8(s) && QMARK !in Utf8(s)
  {
    if STAR in Utf8(s) {
      var k :| 0 <= k < |Utf8(s)| && Utf8(s)[k] == STAR;
      Utf8AsciiByte(s, k, STAR);
    }
    if QMARK in Utf8(s) {
      var k :| 0 <= k < |Utf8(s)| && Utf8(s)[k] == QMARK;
      Utf8AsciiByte(s, k, QMARK);
    }
  }

  /** A mask with no `*` or `?` matches iff the lowercased strings are equal. */
  lemma WildcardLiteral(pattern: string, text: string)
    requires '*' !in pattern && '?' !in pattern
    ensures WildcardMatch(pattern, text) <==> LowerStr(pattern) == LowerStr(text)
  {
    var lp, lt := LowerStr(pattern), LowerStr(text);
    assert '*' !in lp && '?' !in lp by {
      forall i | 0 <= i < |lp| ensures lp[i] != '*' && lp[i] != '?' {
        assert lp[i] == Lower(pattern[i]);
      }
    }
    NoWildcardBytes(lp);
    MatchLiteral(Utf8(lp), Utf8(lt));
    if Utf8(lp) == Utf8(lt) { Utf8Injective(lp, lt); }
  }

  /** `*` absorbs any run of bytes, the empty run included. */
  lemma {:induction false} StarAbsorbs(p: seq<byte>, u: seq<byte>, t: seq<byte>)
    requires MatchBytes(p, t)
    ensures MatchBytes([STAR] + p, u + t)
    decreases |u|
  {
    var sp := [STAR] + p;
    assert sp[1..] == p;
    if u == [] {
      assert u + t == t;
    } else {
      StarAbsorbs(p, u[1..], t);
      assert (u + t)[1..] == u[1..] + t;
    }
  }

  /** The mask `*` matches every hostmask. */
  lemma StarMatchesEverything(text: string)
    ensures WildcardMatch("*", text)
  {
    assert Utf8(LowerStr("*")) == [STAR];
    MatchEmptyPattern();
    StarAbsorbs([], Utf8(LowerStr(text)), []);
    assert Utf8(LowerStr(text)) + [] == Utf8(LowerStr(text));
  }

  lemma MatchEmptyPattern()
    ensures MatchBytes([], [])
  {
  }

  /** `?` consumes exactly one byte: it never matches empty text. */
  lemma {:induction false} QuestionNeedsOneByte(p: seq<byte>, t: seq<byte>)
    ensures MatchBytes([QMARK] + p, t) <==> (t != [] && MatchBytes(p, t[1..]))
  {
    assert ([QMARK] + p)[1..] == p;
  }

  /** Because matching is bytewise, `?` does not match a two-byte character such as 'é'. */
  lemma QuestionIsOneByte()
    ensures !WildcardMatch("?", "é")
  {
    assert LowerStr("é") == "é";
    assert Utf8("é") == [0xC3, 0xA9];
    assert Utf8(LowerStr("?")) == [QMARK];
    QuestionNeedsOneByte([], [0xC3, 0xA9]);
    MatchLiteral([], [0xA9]);
  }

  // ---------------------------------------------------------------------
  // Bans

  function BanMatches(b: BanEntry, hostmask: string, did: Option<string>): bool
  {
    if StartsWith(b.mask, "did:") then did.Some? && did.value == b.mask
    else WildcardMatch(b.mask, hostmask)
  }

  /** A DID ban matches only the exact DID, never through the hostmask. */
  lemma DidBanExact(b: BanEntry, hostmask: string, did: Option<string>)
    requires StartsWith(b.mask, "did:")
    ensures BanMatches(b, hostmask, did) <==> did == Some(b.mask)
    ensures !BanMatches(b, hostmask, None)
  {
  }

  function IsBanned(bans: seq<BanEntry>, hostmask: string, did: Option<string>): bool
  {
    if bans == [] then false
    else BanMatches(bans[0], hostmask, did) || IsBanned(bans[1..], hostmask, did)
  }

  /** `is_banned` holds iff some entry matches. */
  lemma {:induction false} IsBannedIff(bans: seq<BanEntry>, hostmask: string, did: Option<string>)
    ensures IsBanned(bans, hostmask, did) <==> exists i :: 0 <= i < |bans| && BanMatches(bans[i], hostmask, did)
  {
    if bans != [] {
      IsBannedIff(bans[1..], hostmask, did);
      if exists i :: 0 <= i < |bans| && BanMatches(bans[i], hostmask, did) {
        var i :| 0 <= i < |bans| && BanMatches(bans[i], hostmask, did);
        if i > 0 { assert BanMatches(bans[1..][i - 1], hostmask, did); }
      }
    }
  }

  /** A user without a DID is never caught by a list of DID bans. */
  lemma {:induction false} GuestEscapesDidBans(bans: seq<BanEntry>, hostmask: string)
    requires forall i :: 0 <= i < |bans| ==> StartsWith(bans[i].mask, "did:")
    ensures !IsBanned(bans, hostmask, None)
  {
    if bans != [] { GuestEscapesDidBans(bans[1..], hostmask); }
  }

  // ---------------------------------------------------------------------
  // Case-insensitive remote-member helpers.  The source scans a HashMap in
  // its unspecified iteration order and takes the first key that matches;
  // the methods below pick any matching key.

  predicate NickEq(a: string, b: string) { LowerStr(a) == LowerStr(b) }

  predicate HasRemoteMember(remote: map<string, RemoteMember>, nick: string)
  {
    exists k | k in remote :: NickEq(k, nick)
  }

  method RemoteMemberKey(remote: map<string, RemoteMember>, nick: string) returns (key: Option<string>)
    ensures key.None? <==> !HasRemoteMember(remote, nick)
    ensures key.Some? ==> key.value in remote && NickEq(key.value, nick)
  {
    if HasRemoteMember(remote, nick) {
      var k :| k in remote && NickEq(k, nick);
      key := Some(k);
    } else {
      key := None;
    }
  }

  method LookupRemoteMember(remote: map<string, RemoteMember>, nick: string) returns (r: Option<RemoteMember>)
    ensures r.None? <==> !HasRemoteMember(remote, nick)
    ensures r.Some? ==> exists k | k in remote :: NickEq(k, nick) && remote[k] == r.value
  {
    var key := RemoteMemberKey(remote, nick);
    if key.Some? {
      r := Some(remote[key.value]);
    } else {
      r := None;
    }
  }

  method RemoveRemoteMember(ch: ChannelState, nick: string) returns (r: ChannelState, removed: Option<RemoteMember>)
    ensures removed.None? <==> !HasRemoteMember(ch.remoteMembers, nick)
    ensures removed.None? ==> r == ch
    ensures removed.Some? ==> exists k | k in ch.remoteMembers ::
      NickEq(k, nick) && ch.remoteMembers[k] == removed.value
      && r == ch.(remoteMembers := ch.remoteMembers - {k})
  {
    var key := RemoteMemberKey(ch.remoteMembers, nick);
    if key.Some? {
      removed := Some(ch.remoteMembers[key.value]);
      r := ch.(remoteMembers := ch.remoteMembers - {key.value});
    } else {
      removed := None;
      r := ch;
    }
  }

  /** Removing the only key that matches case-insensitively leaves none. */
  lemma RemoveOnlyMatch(remote: map<string, RemoteMember>, k: string, nick: string)
    requires k in remote && NickEq(k, nick)
    requires forall k' | k' in remote && NickEq(k', nick) :: k' == k
    ensures !HasRemoteMember(remote - {k}, nick)
  {
  }

  // ---------------------------------------------------------------------
  // NickMap: lowercase nick -> session id, and session id -> display nick.

  /** No two sessions hold nicks that are equal up to case. */
  ghost predicate UniqueNicks(pairs: map<string, string>)
  {
    forall a, b :: a in pairs && b in pairs && a != b ==> LowerStr(pairs[a]) != LowerStr(pairs[b])
  }

  /** The pairs left after `insert(nick, sid)`: the session's old nick and the nick's old holder are gone. */
  function InsertPair(pairs: map<string, string>, nick: string, sid: string): map<string, string>
  {
    (map k | k in pairs && k != sid && LowerStr(pairs[k]) != LowerStr(nick) :: pairs[k])[sid := nick]
  }

  lemma InsertPairFacts(pairs: map<string, string>, nick: string, sid: string)
    requires UniqueNicks(pairs)
    ensures UniqueNicks(InsertPair(pairs, nick, sid))
    ensures sid in InsertPair(pairs, nick, sid) && InsertPair(pairs, nick, sid)[sid] == nick
    ensures forall k | k in InsertPair(pairs, nick, sid) && k != sid ::
      k in pairs && InsertPair(pairs, nick, sid)[k] == pairs[k] && LowerStr(pairs[k]) != LowerStr(nick)
    ensures forall k | k in pairs && k != sid && LowerStr(pairs[k]) != LowerStr(nick) ::
      k in InsertPair(pairs, nick, sid)
  {
  }

  /** `n2s` (lowercase nick to session) and `s2n` (session to display nick) are mutual inverses. */
  ghost predicate Inverse(n2s: map<string, string>, s2n: map<string, string>)
  {
    (forall l | l in n2s :: n2s[l] in s2n && LowerStr(s2n[n2s[l]]) == l)
    && (forall s | s in s2n :: LowerStr(s2n[s]) in n2s && n2s[LowerStr(s2n[s])] == s)
  }

  lemma InverseUnique(n2s: map<string, string>, s2n: map<string, string>)
    requires Inverse(n2s, s2n)
    ensures UniqueNicks(s2n)
  {
  }

  lemma RemoveBySid(n2s: map<string, string>, s2n: map<string, string>, sid: string)
    requires Inverse(n2s, s2n) && sid in s2n
    ensures Inverse(n2s - {LowerStr(s2n[sid])}, s2n - {sid})
  {
  }

  lemma RemoveByLower(n2s: map<string, string>, s2n: map<string, string>, l: string)
    requires Inverse(n2s, s2n) && l in n2s
    ensures Inverse(n2s - {l}, s2n - {n2s[l]})
  {
  }

  lemma AddFreshPair(n2s: map<string, string>, s2n: map<string, string>, nick: string, sid: string)
    requires Inverse(n2s, s2n) && LowerStr(nick) !in n2s && sid !in s2n
    ensures Inverse(n2s[LowerStr(nick) := sid], s2n[sid := nick])
  {
  }

  /** Under `Inverse`, filtering out the nick's holder is removing `n2s[l]`. */
  lemma FilterHolder(n2s: map<string, string>, s2n: map<string, string>, sid: string, nick: string)
    requires Inverse(n2s, s2n)
    ensures var l := LowerStr(nick);
      InsertPair(s2n, nick, sid) == ((s2n - {sid}) - (if l in n2s then {n2s[l]} else {}))[sid := nick]
  {
    var l := LowerStr(nick);
    var lhs := map k | k in s2n && k != sid && LowerStr(s2n[k]) != l :: s2n[k];
    var gone: set<string> := if l in n2s then {n2s[l]} else {};
    var rhs := (s2n - {sid}) - gone;
    forall k | k in s2n ensures (LowerStr(s2n[k]) == l) <==> k in gone {
    }
    assert forall k :: k in lhs <==> k in rhs;
    forall k | k in lhs ensures lhs[k] == rhs[k] {
    }
    assert lhs == rhs;
  }

  class NickMap {
    var nickToSid: map<string, string>
    var sidToNick: map<string, string>

    /** The two maps are mutual inverses modulo lowercasing. */
    ghost predicate Valid()
      reads this
    {
      Inverse(nickToSid, sidToNick)
    }

    constructor ()
      ensures Valid() && nickToSid == map[] && sidToNick == map[]
    {
      nickToSid := map[];
      sidToNick := map[];
    }

    function GetSession(nick: string): (r: Option<string>)
      reads this
      requires Valid()
      ensures r.Some? ==> r.value in sidToNick && NickEq(sidToNick[r.value], nick)
      ensures r.None? ==> forall s | s in sidToNick :: !NickEq(sidToNick[s], nick)
    {
      var l := LowerStr(nick);
      if l in nickToSid then Some(nickToSid[l]) else None
    }

    function GetNick(sid: string): (r: Option<string>)
      reads this
      requires Valid()
      ensures r.Some? ==> GetSession(r.value) == Some(sid)
      ensures r.None? ==> sid !in sidToNick
    {
      if sid in sidToNick then Some(sidToNick[sid]) else None
    }

    function ContainsNick(nick: string): (r: bool)
      reads this
      requires Valid()
      ensures r <==> exists s | s in sidToNick :: NickEq(sidToNick[s], nick)
    {
      LowerStr(nick) in nickToSid
    }

    function NickBelongsTo(nick: string, sid: string): (r: bool)
      reads this
      requires Valid()
      ensures r <==> sid in sidToNick && NickEq(sidToNick[sid], nick)
    {
      var l := LowerStr(nick);
      l in nickToSid && nickToSid[l] == sid
    }

    /** The number of entries: counting lowercase nicks counts the pairs. */
    function Len(): (n: nat)
      reads this
      requires Valid()
      ensures n == |sidToNick|
    {
      InjectiveMapCard(nickToSid);
      assert nickToSid.Values == sidToNick.Keys;
      |nickToSid|
    }

    method Insert(displayNick: string, sid: string)
      requires Valid()
      modifies this
      ensures Valid()
      ensures sidToNick == InsertPair(old(sidToNick), displayNick, sid)
      ensures forall n | NickEq(n, displayNick) :: GetSession(n) == Some(sid)
      ensures GetNick(sid) == Some(displayNick)
    {
      var lower := LowerStr(displayNick);
      ghost var pairs, index := sidToNick, nickToSid;
      FilterHolder(index, pairs, sid, displayNick);
      if sid in sidToNick {
        var oldNick := sidToNick[sid];
        RemoveBySid(nickToSid, sidToNick, sid);
        sidToNick := sidToNick - {sid};
        nickToSid := nickToSid - {LowerStr(oldNick)};
      }
      if lower in nickToSid {
        var oldSid := nickToSid[lower];
        assert oldSid == index[lower];
        RemoveByLower(nickToSid, sidToNick, lower);
        nickToSid := nickToSid - {lower};
        sidToNick := sidToNick - {oldSid};
      } else if lower in index {
        assert index[lower] == sid;
      }
      assert sidToNick == (pairs - {sid}) - (if lower in index then {index[lower]} else {});
      AddFreshPair(nickToSid, sidToNick, displayNick, sid);
      nickToSid := nickToSid[lower := sid];
      sidToNick := sidToNick[sid := displayNick];
    }

    method RemoveByNick(nick: string) returns (r: Option<string>)
      requires Valid()
      modifies this
      ensures Valid()
      ensures r.None? ==> sidToNick == old(sidToNick) && forall s | s in sidToNick :: !NickEq(sidToNick[s], nick)
      ensures r.Some? ==> (r.value in old(sidToNick) && NickEq(old(sidToNick)[r.value], nick)
        && sidToNick == old(sidToNick) - {r.value})
    {
      var lower := LowerStr(nick);
      if lower in nickToSid {
        var sid := nickToSid[lower];
        RemoveByLower(nickToSid, sidToNick, lower);
        nickToSid := nickToSid - {lower};
        sidToNick := sidToNick - {sid};
        r := Some(sid);
      } else {
        r := None;
      }
    }

    method RemoveBySession(sid: string) returns (r: Option<string>)
      requires Valid()
      modifies this
      ensures Valid()
      ensures r == (if sid in old(sidToNick) then Some(old(sidToNick)[sid]) else None)
      ensures sidToNick == old(sidToNick) - {sid}
    {
      if sid in sidToNick {
        var nick := sidToNick[sid];
        RemoveBySid(nickToSid, sidToNick, sid);
        sidToNick := sidToNick - {sid};
        nickToSid := nickToSid - {LowerStr(nick)};
        r := Some(nick);
      } else {
        r := None;
      }
    }
  }

  // ---------------------------------------------------------------------
  // Per-peer S2S rate limit: at most 100 events per peer per wall-clock second.

  const S2S_MAX_EVENTS_PER_SEC: nat := 100

  datatype RateEntry = RateEntry(second: nat, count: nat)

  /** One event from `peer` at second `now`: the new table and whether the event passes. */
  function RateStep(limits: map<string, RateEntry>, peer: string, now: nat): (map<string, RateEntry>, bool)
  {
    var e := if peer in limits then limits[peer] else RateEntry(now, 0);
    if e.second == now then
      (limits[peer := RateEntry(now, e.count + 1)], e.count + 1 <= S2S_MAX_EVENTS_PER_SEC)
    else
      (limits[peer := RateEntry(now, 1)], true)
  }

  class S2sRateLimiter {
    var limits: map<string, RateEntry>

    constructor ()
      ensures limits == map[]
    {
      limits := map[];
    }

    method Admit(peer: string, now: nat) returns (pass: bool)
      modifies this
      ensures (limits, pass) == RateStep(old(limits), peer, now)
    {
      if peer !in limits {
        limits := limits[peer := RateEntry(now, 0)];
      }
      var e := limits[peer];
      ghost var start := old(limits);
      assert e == (if peer in start then start[peer] else RateEntry(now, 0));
      if e.second == now {
        limits := limits[peer := RateEntry(now, e.count + 1)];
        pass := e.count + 1 <= S2S_MAX_EVENTS_PER_SEC;
        assert limits == start[peer := RateEntry(now, e.count + 1)];
      } else {
        limits := limits[peer := RateEntry(now, 1)];
        pass := true;
        assert limits == start[peer := RateEntry(now, 1)];
      }
    }
  }

  datatype Arrival = Arrival(peer: string, second: nat)

  /** How many of `evs`, fed in order from table `limits`, pass for `peer` in second `t`. */
  function PassedAt(limits: map<string, RateEntry>, evs: seq<Arrival>, peer: string, t: nat): nat
    decreases |evs|
  {
    if evs == [] then 0
    else
      var (next, pass) := RateStep(limits, evs[0].peer, evs[0].second);
      (if pass && evs[0].peer == peer && evs[0].second == t then 1 else 0) + PassedAt(next, evs[1..], peer, t)
  }

  /** Each peer's clock never runs backwards, starting from its table entry. */
  ghost predicate MonotoneFrom(limits: map<string, RateEntry>, evs: seq<Arrival>)
  {
    (forall i, j :: 0 <= i < j < |evs| && evs[i].peer == evs[j].peer ==> evs[i].second <= evs[j].second)
    && (forall i :: 0 <= i < |evs| && evs[i].peer in limits ==> limits[evs[i].peer].second <= evs[i].second)
  }

  /** What the table already charges to `peer` in second `t`. */
  function Charged(limits: map<string, RateEntry>, peer: string, t: nat): nat
  {
    if peer in limits && limits[peer].second == t then
      if limits[peer].count < S2S_MAX_EVENTS_PER_SEC then limits[peer].count else S2S_MAX_EVENTS_PER_SEC
    else 0
  }

  lemma {:induction false} PassedAtNoneLater(limits: map<string, RateEntry>, evs: seq<Arrival>, peer: string, t: nat)
    requires forall i :: 0 <= i < |evs| && evs[i].peer == peer ==> evs[i].second != t
    ensures PassedAt(limits, evs, peer, t) == 0
    decreases |evs|
  {
    if evs != [] {
      var (next, pass) := RateStep(limits, evs[0].peer, evs[0].second);
      PassedAtNoneLater(next, evs[1..], peer, t);
    }
  }

  /** With monotone clocks, at most 100 events pass per peer per second, counting what the table already holds. */
  lemma {:induction false} RateLimitBound(limits: map<string, RateEntry>, evs: seq<Arrival>, peer: string, t: nat)
    requires MonotoneFrom(limits, evs)
    ensures PassedAt(limits, evs, peer, t) + Charged(limits, peer, t) <= S2S_MAX_EVENTS_PER_SEC
    decreases |evs|
  {
    if evs != [] {
      var e := evs[0];
      var (next, pass) := RateStep(limits, e.peer, e.second);
      assert MonotoneFrom(next, evs[1..]) by {
        forall i | 0 <= i < |evs[1..]| && evs[1..][i].peer in next
          ensures next[evs[1..][i].peer].second <= evs[1..][i].second
        {
          assert evs[1..][i] == evs[i + 1];
          if evs[i + 1].peer == e.peer {
            assert e.second <= evs[i + 1].second;
          }
        }
      }
      RateLimitBound(next, evs[1..], peer, t);
      if e.peer == peer && e.second != t && e.second > t {
        PassedAtNoneLater(next, evs[1..], peer, t) by {
          forall i | 0 <= i < |evs[1..]| && evs[1..][i].peer == peer ensures evs[1..][i].second != t {
            assert evs[1..][i] == evs[i + 1];
          }
        }
      }
    }
  }

  /** A fresh table with monotone clocks: never more than 100 per peer per second. */
  lemma RateLimitFromEmpty(evs: seq<Arrival>, peer: string, t: nat)
    requires forall i, j :: 0 <= i < j < |evs| && evs[i].peer == evs[j].peer ==> evs[i].second <= evs[j].second
    ensures PassedAt(map[], evs, peer, t) <= S2S_MAX_EVENTS_PER_SEC
  {
    RateLimitBound(map[], evs, peer, t);
  }

  /** A new second resets the peer's counter to 1 and lets the event through. */
  lemma NewSecondResets(limits: map<string, RateEntry>, peer: string, now: nat)
    requires peer in limits && limits[peer].second != now
    ensures RateStep(limits, peer, now).0[peer] == RateEntry(now, 1)
    ensures RateStep(limits, peer, now).1
  {
  }

  // ---------------------------------------------------------------------
  // SyncResponse merge

  datatype SyncNick = SyncNick(nick: string, isOp: bool, did: Option<string>)

  datatype SyncChannelInfo = SyncChannelInfo(
    name: string,
    topic: Option<string>,
    nicks: seq<string>,
    nickInfo: seq<SyncNick>,
    founderDid: Option<string>,
    didOps: seq<string>,
    createdAt: nat,
    topicLocked: bool,
    inviteOnly: bool,
    noExtMsg: bool,
    moderated: bool,
    key: Option<string>,
    bans: seq<string>)

  const MAX_SYNC_CHANNELS: nat := 500

  /** Channel modes as the sync merge sees them. */
  datatype Modes = Modes(topicLocked: bool, inviteOnly: bool, noExtMsg: bool, moderated: bool, key: Option<string>)

  function ModesOf(ch: ChannelState): Modes
  {
    Modes(ch.topicLocked, ch.inviteOnly, ch.noExtMsg, ch.moderated, ch.key)
  }

  /** `a` protects at least as much as `b`: every flag of `b` is on in `a`, and a key of `b` is kept. */
  predicate AtLeastAsStrict(a: Modes, b: Modes)
  {
    (b.topicLocked ==> a.topicLocked) && (b.inviteOnly ==> a.inviteOnly)
    && (b.noExtMsg ==> a.noExtMsg) && (b.moderated ==> a.moderated)
    && (b.key.Some? ==> a.key == b.key)
  }

  /** Mode adoption on sync: copy when there are no local members, otherwise only tighten. */
  function MergeModes(local: Modes, hasLocalMembers: bool, info: SyncChannelInfo): Modes
  {
    if !hasLocalMembers then
      Modes(info.topicLocked, info.inviteOnly, info.noExtMsg, info.moderated,
            if info.key.Some? then info.key else local.key)
    else
      Modes(local.topicLocked || info.topicLocked, local.inviteOnly || info.inviteOnly,
            local.noExtMsg || info.noExtMsg, local.moderated || info.moderated,
            if local.key.None? then info.key else local.key)
  }

  lemma MergeModesOnlyTightens(local: Modes, info: SyncChannelInfo)
    ensures AtLeastAsStrict(MergeModes(local, true, info), local)
    ensures info.topicLocked ==> MergeModes(local, true, info).topicLocked
    ensures info.inviteOnly ==> MergeModes(local, true, info).inviteOnly
    ensures info.noExtMsg ==> MergeModes(local, true, info).noExtMsg
    ensures info.moderated ==> MergeModes(local, true, info).moderated
    ensures local.key.None? ==> MergeModes(local, true, info).key == info.key
  {
  }

  lemma MergeModesCopiesWithoutMembers(local: Modes, info: SyncChannelInfo)
    ensures var m := MergeModes(local, false, info);
      m.topicLocked == info.topicLocked && m.inviteOnly == info.inviteOnly
      && m.noExtMsg == info.noExtMsg && m.moderated == info.moderated
      && (info.key.Some? ==> m.key == info.key) && (info.key.None? ==> m.key == local.key)
  {
  }

  function ApplyModes(ch: ChannelState, m: Modes): ChannelState
  {
    ch.(topicLocked := m.topicLocked, inviteOnly := m.inviteOnly, noExtMsg := m.noExtMsg,
        moderated := m.moderated, key := m.key)
  }

  /** Whether the sync may add DID ops at all: some founder or op exists, or the server does not insist. */
  predicate MayAddDidOps(ch: ChannelState, info: SyncChannelInfo, requireDid: bool)
  {
    info.founderDid.Some? || ch.founderDid.Some? || ch.didOps != {} || !requireDid
  }

  /** The DID ops a sync accepts: well-formed ones, and only with authority when the server demands it. */
  function AcceptedDidOps(dids: seq<string>, allowed: bool): set<string>
  {
    set d | d in dids && StartsWith(d, "did:") && allowed
  }

  method MergeDidOps(ch: ChannelState, info: SyncChannelInfo, requireDid: bool) returns (r: ChannelState)
    ensures r == WithSyncedDidOps(ch, info, requireDid)
  {
    var allowed := MayAddDidOps(ch, info, requireDid);
    var ops := ch.didOps;
    var i := 0;
    while i < |info.didOps|
      invariant 0 <= i <= |info.didOps|
      invariant ops == ch.didOps + AcceptedDidOps(info.didOps[..i], allowed)
      invariant (info.founderDid.Some? || ch.founderDid.Some? || ops != {} || !requireDid) == allowed
    {
      var did := info.didOps[i];
      assert info.didOps[..i + 1] == info.didOps[..i] + [did];
      if StartsWith(did, "did:") {
        var hasAuthority := info.founderDid.Some? || ch.founderDid.Some? || ops != {};
        if hasAuthority || !requireDid {
          ops := ops + {did};
        }
      }
      i := i + 1;
    }
    assert info.didOps[..i] == info.didOps;
    r := ch.(didOps := ops);
  }

  /** Remote members after inserting a sync's nick list, later entries winning. */
  function InsertSyncedNicks(remote: map<string, RemoteMember>, peer: string, info: SyncChannelInfo): map<string, RemoteMember>
  {
    if info.nickInfo != [] then InsertNickInfo(remote, peer, info.nickInfo)
    else InsertPlainNicks(remote, peer, info.nicks)
  }

  function InsertNickInfo(remote: map<string, RemoteMember>, peer: string, nis: seq<SyncNick>): map<string, RemoteMember>
  {
    if nis == [] then remote
    else
      var ni := nis[|nis| - 1];
      InsertNickInfo(remote, peer, nis[..|nis| - 1])[ni.nick := RemoteMember(peer, ni.did, None, ni.isOp)]
  }

  function InsertPlainNicks(remote: map<string, RemoteMember>, peer: string, nicks: seq<string>): map<string, RemoteMember>
  {
    if nicks == [] then remote
    else InsertPlainNicks(remote, peer, nicks[..|nicks| - 1])[nicks[|nicks| - 1] := RemoteMember(peer, None, None, false)]
  }

  lemma {:induction false} InsertPlainNicksFacts(remote: map<string, RemoteMember>, peer: string, nicks: seq<string>)
    ensures forall n :: n in InsertPlainNicks(remote, peer, nicks) <==> n in remote || n in nicks
    ensures forall n | n in nicks :: InsertPlainNicks(remote, peer, nicks)[n] == RemoteMember(peer, None, None, false)
    ensures forall n | n in remote && n !in nicks :: InsertPlainNicks(remote, peer, nicks)[n] == remote[n]
  {
    if nicks != [] {
      InsertPlainNicksFacts(remote, peer, nicks[..|nicks| - 1]);
      assert nicks == nicks[..|nicks| - 1] + [nicks[|nicks| - 1]];
    }
  }

  method InsertRemoteNicks(ch: ChannelState, peer: string, info: SyncChannelInfo) returns (r: ChannelState)
    ensures r == WithSyncedNicks(ch, peer, info)
  {
    r := ch;
    if info.nickInfo != [] {
      var i := 0;
      while i < |info.nickInfo|
        invariant 0 <= i <= |info.nickInfo|
        invariant r == ch.(remoteMembers := InsertNickInfo(ch.remoteMembers, peer, info.nickInfo[..i]))
      {
        var ni := info.nickInfo[i];
        assert info.nickInfo[..i + 1][..i] == info.nickInfo[..i];
        r := r.(remoteMembers := r.remoteMembers[ni.nick := RemoteMember(peer, ni.did, None, ni.isOp)]);
        i := i + 1;
      }
      assert info.nickInfo[..i] == info.nickInfo;
    } else {
      var i := 0;
      while i < |info.nicks|
        invariant 0 <= i <= |info.nicks|
        invariant r == ch.(remoteMembers := InsertPlainNicks(ch.remoteMembers, peer, info.nicks[..i]))
      {
        assert info.nicks[..i + 1][..i] == info.nicks[..i];
        r := r.(remoteMembers := r.remoteMembers[info.nicks[i] := RemoteMember(peer, None, None, false)]);
        i := i + 1;
      }
      assert info.nicks[..i] == info.nicks;
    }
  }

  predicate HasBanMask(bans: seq<BanEntry>, mask: string)
  {
    exists i :: 0 <= i < |bans| && bans[i].mask == mask
  }

  lemma PrefixMasks(a: seq<BanEntry>, b: seq<BanEntry>)
    requires a <= b
    ensures forall m :: HasBanMask(a, m) ==> HasBanMask(b, m)
  {
    forall m | HasBanMask(a, m) ensures HasBanMask(b, m) {
      var j :| 0 <= j < |a| && a[j].mask == m;
      assert b[j] == a[j];
    }
  }

  /** Ban masks pairwise distinct. */
  predicate DistinctMasks(bans: seq<BanEntry>)
  {
    forall i, j :: 0 <= i < j < |bans| ==> bans[i].mask != bans[j].mask
  }

  /** One remote ban mask merged in: appended unless a ban with that mask already exists. */
  function AddSyncedBan(bans: seq<BanEntry>, mask: string, peer: string, now: nat): seq<BanEntry>
  {
    if HasBanMask(bans, mask) then bans else bans + [BanEntry(mask, "s2s:" + peer, now)]
  }

  /** Additive ban merge: local bans stay, each new remote mask is appended once, in order. */
  function MergedBans(bans: seq<BanEntry>, masks: seq<string>, peer: string, now: nat): seq<BanEntry>
    decreases |masks|
  {
    if masks == [] then bans else MergedBans(AddSyncedBan(bans, masks[0], peer, now), masks[1..], peer, now)
  }

  lemma {:induction false} MergedBansExtends(bans: seq<BanEntry>, masks: seq<string>, peer: string, now: nat)
    ensures bans <= MergedBans(bans, masks, peer, now)
    ensures forall m | m in masks :: HasBanMask(MergedBans(bans, masks, peer, now), m)
    decreases |masks|
  {
    if masks != [] {
      var next := AddSyncedBan(bans, masks[0], peer, now);
      MergedBansExtends(next, masks[1..], peer, now);
      PrefixMasks(next, MergedBans(next, masks[1..], peer, now));
      if !HasBanMask(bans, masks[0]) {
        assert next[|next| - 1].mask == masks[0];
      }
      forall m | m in masks ensures HasBanMask(MergedBans(bans, masks, peer, now), m) {
        if m != masks[0] {
          assert m in masks[1..];
        }
      }
    }
  }

  /** Every appended entry is a remote mask that was not banned before, recorded as set by the peer. */
  lemma {:induction false} MergedBansOnlyNew(bans: seq<BanEntry>, masks: seq<string>, peer: string, now: nat)
    ensures var r := MergedBans(bans, masks, peer, now);
      forall i | |bans| <= i < |r| ::
        r[i].mask in masks && !HasBanMask(bans, r[i].mask) && r[i].setBy == "s2s:" + peer
    decreases |masks|
  {
    if masks != [] {
      var next := AddSyncedBan(bans, masks[0], peer, now);
      var r := MergedBans(bans, masks, peer, now);
      MergedBansOnlyNew(next, masks[1..], peer, now);
      MergedBansExtends(next, masks[1..], peer, now);
      PrefixMasks(bans, next);
      forall i | |bans| <= i < |r|
        ensures r[i].mask in masks && !HasBanMask(bans, r[i].mask) && r[i].setBy == "s2s:" + peer
      {
        if i < |next| {
          assert r[i] == next[i];
          assert next[i] == BanEntry(masks[0], "s2s:" + peer, now);
        } else {
          assert r[i].mask in masks[1..] && !HasBanMask(next, r[i].mask);
        }
      }
    }
  }

  /** Merging never introduces a duplicate mask. */
  lemma {:induction false} MergedBansDistinct(bans: seq<BanEntry>, masks: seq<string>, peer: string, now: nat)
    requires DistinctMasks(bans)
    ensures DistinctMasks(MergedBans(bans, masks, peer, now))
    decreases |masks|
  {
    if masks != [] {
      var next := AddSyncedBan(bans, masks[0], peer, now);
      if !HasBanMask(bans, masks[0]) {
        forall i, j | 0 <= i < j < |next| ensures next[i].mask != next[j].mask {
          if j == |bans| {
            assert next[i] == bans[i];
          }
        }
      }
      MergedBansDistinct(next, masks[1..], peer, now);
    }
  }

  method MergeBans(ch: ChannelState, masks: seq<string>, peer: string, now: nat) returns (r: ChannelState)
    ensures r == WithSyncedBans(ch, masks, peer, now)
  {
    var bans := ch.bans;
    var i := 0;
    while i < |masks|
      invariant 0 <= i <= |masks|
      invariant MergedBans(bans, masks[i..], peer, now) == MergedBans(ch.bans, masks, peer, now)
    {
      assert masks[i..][1..] == masks[i + 1..];
      if !HasBanMask(bans, masks[i]) {
        bans := bans + [BanEntry(masks[i], "s2s:" + peer, now)];
      }
      i := i + 1;
    }
    r := ch.(bans := bans);
  }

  /** The session's DID is the channel founder or one of its DID ops. */
  predicate HasDidAuthority(ch: ChannelState, dids: map<string, string>, s: string)
  {
    s in dids && (ch.founderDid == Some(dids[s]) || dids[s] in ch.didOps)
  }

  /** Members whose DID carries authority. */
  function AuthorizedMembers(ch: ChannelState, dids: map<string, string>): set<string>
  {
    set s | s in ch.members && HasDidAuthority(ch, dids, s)
  }

  predicate AnyRemoteOp(remote: map<string, RemoteMember>)
  {
    exists k | k in remote :: remote[k].isOp
  }

  /** The op set after sync: authorised members gain op; if anyone holds real authority, the rest lose it. */
  function ReconciledOps(ch: ChannelState, dids: map<string, string>): set<string>
  {
    var auth := AuthorizedMembers(ch, dids);
    if auth != {} || AnyRemoteOp(ch.remoteMembers) then (ch.ops + auth) - (ch.members - auth) else ch.ops + auth
  }

  /** First pass: every member with DID authority gains op. */
  method GrantAuthorized(ch: ChannelState, dids: map<string, string>) returns (ops: set<string>, granted: bool)
    ensures ops == ch.ops + AuthorizedMembers(ch, dids)
    ensures granted <==> AuthorizedMembers(ch, dids) != {}
  {
    ops := ch.ops;
    granted := false;
    var todo := ch.members;
    while todo != {}
      invariant todo <= ch.members
      invariant forall x :: x in ops <==> x in ch.ops || (x in ch.members && x !in todo && HasDidAuthority(ch, dids, x))
      invariant granted <==> exists x :: x in ch.members && x !in todo && HasDidAuthority(ch, dids, x)
      decreases |todo|
    {
      var s :| s in todo;
      if HasDidAuthority(ch, dids, s) {
        ops := ops + {s};
        granted := true;
      }
      todo := todo - {s};
    }
    if granted {
      var x :| x in ch.members && HasDidAuthority(ch, dids, x);
      assert x in AuthorizedMembers(ch, dids);
    }
  }

  /** Second pass: members without DID authority lose op. */
  method StripUnauthorized(ch: ChannelState, dids: map<string, string>, ops0: set<string>) returns (ops: set<string>)
    ensures ops == ops0 - (ch.members - AuthorizedMembers(ch, dids))
  {
    ops := ops0;
    var todo := ch.members;
    while todo != {}
      invariant todo <= ch.members
      invariant forall x :: x in ops <==> x in ops0 && !(x in ch.members && x !in todo && !HasDidAuthority(ch, dids, x))
      decreases |todo|
    {
      var s :| s in todo;
      if !HasDidAuthority(ch, dids, s) {
        ops := ops - {s};
      }
      todo := todo - {s};
    }
  }

  method ReconcileOps(ch: ChannelState, dids: map<string, string>) returns (r: ChannelState)
    ensures r == WithReconciledOps(ch, dids)
  {
    var ops, granted := GrantAuthorized(ch, dids);
    if granted || AnyRemoteOp(ch.remoteMembers) {
      ops := StripUnauthorized(ch, dids, ops);
    }
    r := ch.(ops := ops);
  }

  /** Remote members from `peer` dropped (the first step of a SyncResponse, on every channel). */
  function DropPeerMembers(ch: ChannelState, peer: string): (r: ChannelState)
    ensures r.members == ch.members && r.founderDid == ch.founderDid && ModesOf(r) == ModesOf(ch)
    ensures forall k | k in r.remoteMembers :: r.remoteMembers[k].origin != peer
  {
    ch.(remoteMembers := map k | k in ch.remoteMembers && ch.remoteMembers[k].origin != peer :: ch.remoteMembers[k])
  }

  /** A new channel starts +nt; a channel without founder adopts a well-formed remote founder. */
  function AdoptFounder(ch: ChannelState, isNew: bool, info: SyncChannelInfo): (r: ChannelState)
    ensures r.members == ch.members && r.didOps == ch.didOps && r.topic == ch.topic && r.bans == ch.bans
    ensures r.key == ch.key && (!isNew ==> ModesOf(r) == ModesOf(ch))
    ensures ch.founderDid.Some? ==> r.founderDid == ch.founderDid
    ensures ch.founderDid.None? ==>
      r.founderDid == (if info.founderDid.Some? && StartsWith(info.founderDid.value, "did:") then info.founderDid else None)
  {
    var c := if isNew then ch.(noExtMsg := true, topicLocked := true) else ch;
    if c.founderDid.None? && info.founderDid.Some? && StartsWith(info.founderDid.value, "did:")
    then c.(founderDid := info.founderDid) else c
  }

  /** A channel without topic adopts the remote one, attributed to the remote founder or "unknown". */
  function AdoptTopic(ch: ChannelState, info: SyncChannelInfo, now: nat): (r: ChannelState)
    ensures r.members == ch.members && r.didOps == ch.didOps && r.founderDid == ch.founderDid && r.bans == ch.bans
    ensures ModesOf(r) == ModesOf(ch)
    ensures ch.topic.Some? ==> r.topic == ch.topic
  {
    if ch.topic.None? && info.topic.Some? then
      var setBy := if info.founderDid.Some? then info.founderDid.value else "unknown";
      ch.(topic := Some(TopicInfo(info.topic.value, setBy, now)))
    else ch
  }

  function WithSyncedDidOps(ch: ChannelState, info: SyncChannelInfo, requireDid: bool): (r: ChannelState)
    ensures r.members == ch.members && r.topic == ch.topic && r.founderDid == ch.founderDid && r.bans == ch.bans
    ensures ModesOf(r) == ModesOf(ch)
  {
    ch.(didOps := ch.didOps + AcceptedDidOps(info.didOps, MayAddDidOps(ch, info, requireDid)))
  }

  function WithSyncedNicks(ch: ChannelState, peer: string, info: SyncChannelInfo): (r: ChannelState)
    ensures r.members == ch.members && r.didOps == ch.didOps && r.topic == ch.topic
    ensures r.founderDid == ch.founderDid && r.bans == ch.bans && ModesOf(r) == ModesOf(ch)
  {
    ch.(remoteMembers := InsertSyncedNicks(ch.remoteMembers, peer, info))
  }

  function WithSyncedModes(ch: ChannelState, info: SyncChannelInfo): (r: ChannelState)
    ensures ModesOf(r) == MergeModes(ModesOf(ch), ch.members != {}, info)
    ensures r.members == ch.members && r.didOps == ch.didOps && r.topic == ch.topic
    ensures r.founderDid == ch.founderDid && r.bans == ch.bans
  {
    ApplyModes(ch, MergeModes(ModesOf(ch), ch.members != {}, info))
  }

  function WithSyncedBans(ch: ChannelState, masks: seq<string>, peer: string, now: nat): (r: ChannelState)
    ensures r.members == ch.members && r.didOps == ch.didOps && r.topic == ch.topic
    ensures r.founderDid == ch.founderDid && ModesOf(r) == ModesOf(ch)
  {
    ch.(bans := MergedBans(ch.bans, masks, peer, now))
  }

  function WithReconciledOps(ch: ChannelState, dids: map<string, string>): (r: ChannelState)
    ensures r.members == ch.members && r.didOps == ch.didOps && r.topic == ch.topic
    ensures r.founderDid == ch.founderDid && r.bans == ch.bans && ModesOf(r) == ModesOf(ch)
  {
    ch.(ops := ReconciledOps(ch, dids))
  }

  /** The whole per-channel merge of a SyncResponse, step by step as the server performs it. */
  function SyncedChannel(ch0: ChannelState, isNew: bool, info: SyncChannelInfo, peer: string,
                         dids: map<string, string>, requireDid: bool, now: nat): ChannelState
  {
    WithReconciledOps(BeforeOps(ch0, isNew, info, peer, requireDid, now), dids)
  }

  /** Everything up to the op reconciliation. */
  function BeforeOps(ch0: ChannelState, isNew: bool, info: SyncChannelInfo, peer: string,
                     requireDid: bool, now: nat): ChannelState
  {
    WithSyncedBans(BeforeBans(ch0, isNew, info, peer, requireDid, now), info.bans, peer, now)
  }

  /** Everything up to the ban merge. */
  function BeforeBans(ch0: ChannelState, isNew: bool, info: SyncChannelInfo, peer: string,
                      requireDid: bool, now: nat): ChannelState
  {
    WithSyncedModes(AdoptTopic(WithSyncedNicks(WithSyncedDidOps(AdoptFounder(ch0, isNew, info), info, requireDid), peer, info), info, now), info)
  }

  /** The steps of the merge before the ban merge: founder, DID ops, remote nicks, topic, modes. */
  method MergeSyncedMetadata(ch0: ChannelState, isNew: bool, info: SyncChannelInfo, peer: string,
                             requireDid: bool, now: nat)
    returns (ch: ChannelState)
    ensures ch == BeforeBans(ch0, isNew, info, peer, requireDid, now)
  {
    ch := MergeSyncedFounder(ch0, isNew, info);
    ch := MergeDidOps(ch, info, requireDid);
    ch := InsertRemoteNicks(ch, peer, info);
    ch := MergeSyncedTopic(ch, info, now);
    ch := ApplyModes(ch, MergeModes(ModesOf(ch), ch.members != {}, info));
  }

  method MergeSyncedFounder(ch0: ChannelState, isNew: bool, info: SyncChannelInfo) returns (ch: ChannelState)
    ensures ch == AdoptFounder(ch0, isNew, info)
  {
    ch := ch0;
    if isNew {
      ch := ch.(noExtMsg := true, topicLocked := true);
    }
    if ch.founderDid.None? && info.founderDid.Some? && StartsWith(info.founderDid.value, "did:") {
      ch := ch.(founderDid := info.founderDid);
    }
  }

  method MergeSyncedTopic(ch0: ChannelState, info: SyncChannelInfo, now: nat) returns (ch: ChannelState)
    ensures ch == AdoptTopic(ch0, info, now)
  {
    ch := ch0;
    if ch.topic.None? && info.topic.Some? {
      var setBy := if info.founderDid.Some? then info.founderDid.value else "unknown";
      ch := ch.(topic := Some(TopicInfo(info.topic.value, setBy, now)));
    }
  }

  /** Merging one synced channel into local state `ch0` (a default state when `isNew`). */
  method MergeSyncedChannel(ch0: ChannelState, isNew: bool, info: SyncChannelInfo, peer: string,
                            dids: map<string, string>, requireDid: bool, now: nat)
    returns (r: ChannelState)
    ensures r == SyncedChannel(ch0, isNew, info, peer, dids, requireDid, now)
  {
    var ch := MergeSyncedMetadata(ch0, isNew, info, peer, requireDid, now);
    ch := MergeBans(ch, info.bans, peer, now);
    r := ReconcileOps(ch, dids);
  }

  /** Modes: copied from the peer when nobody is here locally, otherwise only tightened. */
  lemma SyncedChannelModes(ch0: ChannelState, isNew: bool, info: SyncChannelInfo, peer: string,
                           dids: map<string, string>, requireDid: bool, now: nat)
    ensures var r := SyncedChannel(ch0, isNew, info, peer, dids, requireDid, now);
      (ch0.members == {} ==>
         ModesOf(r) == Modes(info.topicLocked, info.inviteOnly, info.noExtMsg, info.moderated,
                             if info.key.Some? then info.key else ch0.key))
      && (ch0.members != {} ==> AtLeastAsStrict(ModesOf(r), ModesOf(ch0)))
  {
    var c1 := AdoptFounder(ch0, isNew, info);
    var c3 := AdoptTopic(WithSyncedNicks(WithSyncedDidOps(c1, info, requireDid), peer, info), info, now);
    assert ModesOf(c3) == ModesOf(c1) && c3.members == ch0.members;
    var c4 := BeforeBans(ch0, isNew, info, peer, requireDid, now);
    assert ModesOf(c4) == MergeModes(ModesOf(c1), ch0.members != {}, info);
    var r := SyncedChannel(ch0, isNew, info, peer, dids, requireDid, now);
    assert ModesOf(r) == ModesOf(c4);
    if ch0.members == {} {
      MergeModesCopiesWithoutMembers(ModesOf(c1), info);
    } else {
      assert AtLeastAsStrict(ModesOf(c1), ModesOf(ch0));
      MergeModesOnlyTightens(ModesOf(c1), info);
    }
  }

  /** Founder: an existing founder is never replaced; otherwise only a `did:` founder is adopted. */
  lemma SyncedChannelFounder(ch0: ChannelState, isNew: bool, info: SyncChannelInfo, peer: string,
                             dids: map<string, string>, requireDid: bool, now: nat)
    ensures var r := SyncedChannel(ch0, isNew, info, peer, dids, requireDid, now);
      (ch0.founderDid.Some? ==> r.founderDid == ch0.founderDid)
      && (ch0.founderDid.None? ==>
            r.founderDid == (if info.founderDid.Some? && StartsWith(info.founderDid.value, "did:") then info.founderDid else None))
  {
  }

  /** DID ops only grow, only by well-formed DIDs the peer sent, and not at all without authority when required. */
  lemma SyncedChannelDidOps(ch0: ChannelState, isNew: bool, info: SyncChannelInfo, peer: string,
                            dids: map<string, string>, requireDid: bool, now: nat)
    ensures var r := SyncedChannel(ch0, isNew, info, peer, dids, requireDid, now);
      ch0.didOps <= r.didOps
      && (forall d | d in r.didOps - ch0.didOps :: StartsWith(d, "did:") && d in info.didOps)
      && (requireDid && info.founderDid.None? && ch0.founderDid.None? && ch0.didOps == {} ==> r.didOps == {})
  {
    var c1 := AdoptFounder(ch0, isNew, info);
    assert c1.didOps == ch0.didOps;
  }

  /** Local members, an existing topic and existing bans survive the merge, and every remote ban is present. */
  lemma SyncedChannelKeeps(ch0: ChannelState, isNew: bool, info: SyncChannelInfo, peer: string,
                           dids: map<string, string>, requireDid: bool, now: nat)
    ensures var r := SyncedChannel(ch0, isNew, info, peer, dids, requireDid, now);
      r.members == ch0.members
      && (ch0.topic.Some? ==> r.topic == ch0.topic)
      && ch0.bans <= r.bans
      && (forall m | m in info.bans :: HasBanMask(r.bans, m))
  {
    MergedBansExtends(ch0.bans, info.bans, peer, now);
  }

  /** The first 500 synced channels; the rest of a SyncResponse is ignored. */
  function CappedInfos(infos: seq<SyncChannelInfo>): (r: seq<SyncChannelInfo>)
    ensures |r| <= MAX_SYNC_CHANNELS && r <= infos
    ensures |infos| <= MAX_SYNC_CHANNELS ==> r == infos
  {
    if |infos| > MAX_SYNC_CHANNELS then infos[..MAX_SYNC_CHANNELS] else infos
  }

  function DropPeerEverywhere(chs: map<string, ChannelState>, peer: string): map<string, ChannelState>
  {
    map name | name in chs :: DropPeerMembers(chs[name], peer)
  }

  /** The channel map after merging `infos` in order, creating missing channels from the default. */
  function MergeInfos(chs: map<string, ChannelState>, infos: seq<SyncChannelInfo>, peer: string,
                      dids: map<string, string>, requireDid: bool, now: nat): map<string, ChannelState>
    decreases |infos|
  {
    if infos == [] then chs
    else MergeInfo(MergeInfos(chs, infos[..|infos| - 1], peer, dids, requireDid, now), infos[|infos| - 1], peer, dids, requireDid, now)
  }

  /** One synced channel merged into the map. */
  function MergeInfo(chs: map<string, ChannelState>, info: SyncChannelInfo, peer: string,
                     dids: map<string, string>, requireDid: bool, now: nat): map<string, ChannelState>
  {
    var isNew := info.name !in chs;
    var ch := if isNew then DefaultChannel() else chs[info.name];
    chs[info.name := SyncedChannel(ch, isNew, info, peer, dids, requireDid, now)]
  }

  /** The channel map after a whole SyncResponse from `peer`. */
  function SyncedChannels(chs: map<string, ChannelState>, peer: string, infos: seq<SyncChannelInfo>,
                          dids: map<string, string>, requireDid: bool, now: nat): map<string, ChannelState>
  {
    MergeInfos(DropPeerEverywhere(chs, peer), CappedInfos(infos), peer, dids, requireDid, now)
  }

  predicate NamedIn(infos: seq<SyncChannelInfo>, name: string)
  {
    exists i | 0 <= i < |infos| :: infos[i].name == name
  }

  /** Channels are only ever added, and only those the peer named. */
  lemma {:induction false} MergeInfosDomain(chs: map<string, ChannelState>, infos: seq<SyncChannelInfo>, peer: string,
                                            dids: map<string, string>, requireDid: bool, now: nat)
    ensures var r := MergeInfos(chs, infos, peer, dids, requireDid, now);
      forall name :: name in r <==> name in chs || NamedIn(infos, name)
    decreases |infos|
  {
    if infos != [] {
      var init := infos[..|infos| - 1];
      MergeInfosDomain(chs, init, peer, dids, requireDid, now);
      forall name ensures NamedIn(infos, name) <==> NamedIn(init, name) || infos[|infos| - 1].name == name {
        NamedInSnoc(infos, name);
      }
    }
  }

  lemma NamedInSnoc(infos: seq<SyncChannelInfo>, name: string)
    requires infos != []
    ensures NamedIn(infos, name) <==> NamedIn(infos[..|infos| - 1], name) || infos[|infos| - 1].name == name
  {
    var init := infos[..|infos| - 1];
    if NamedIn(init, name) {
      var i :| 0 <= i < |init| && init[i].name == name;
      assert infos[i].name == name;
    }
    if NamedIn(infos, name) && infos[|infos| - 1].name != name {
      var i :| 0 <= i < |infos| && infos[i].name == name;
      assert init[i].name == name;
    }
  }

  /** A channel the peer did not name is left as it was. */
  lemma {:induction false} MergeInfosUntouched(chs: map<string, ChannelState>, infos: seq<SyncChannelInfo>, peer: string,
                                               dids: map<string, string>, requireDid: bool, now: nat, name: string)
    requires name in chs && !NamedIn(infos, name)
    ensures var r := MergeInfos(chs, infos, peer, dids, requireDid, now);
      name in r && r[name] == chs[name]
    decreases |infos|
  {
    if infos != [] {
      var init := infos[..|infos| - 1];
      NamedInSnoc(infos, name);
      MergeInfosUntouched(chs, init, peer, dids, requireDid, now, name);
      assert infos[|infos| - 1].name != name;
    }
  }

  /** An existing channel with local members keeps them, keeps its founder, and its modes only tighten. */
  lemma {:induction false} MergeInfosProtectsLocal(chs: map<string, ChannelState>, infos: seq<SyncChannelInfo>, peer: string,
                                                   dids: map<string, string>, requireDid: bool, now: nat, name: string)
    requires name in chs
    ensures var r := MergeInfos(chs, infos, peer, dids, requireDid, now);
      name in r && r[name].members == chs[name].members
      && (chs[name].founderDid.Some? ==> r[name].founderDid == chs[name].founderDid)
      && (chs[name].members != {} ==> AtLeastAsStrict(ModesOf(r[name]), ModesOf(chs[name])))
    decreases |infos|
  {
    if infos != [] {
      var init := infos[..|infos| - 1];
      MergeInfosProtectsLocal(chs, init, peer, dids, requireDid, now, name);
      var prev := MergeInfos(chs, init, peer, dids, requireDid, now);
      var info := infos[|infos| - 1];
      if info.name == name {
        SyncedChannelKeeps(prev[name], false, info, peer, dids, requireDid, now);
        SyncedChannelFounder(prev[name], false, info, peer, dids, requireDid, now);
        SyncedChannelModes(prev[name], false, info, peer, dids, requireDid, now);
      }
    }
  }

  /** SyncResponse: every local channel survives, channels are created only for names the peer sent,
      a channel it did not name only loses the peer's remote members, and a channel with local members
      keeps its members and founder while its modes only tighten. */
  lemma SyncedChannelsFacts(chs: map<string, ChannelState>, peer: string, infos: seq<SyncChannelInfo>,
                            dids: map<string, string>, requireDid: bool, now: nat)
    ensures var r := SyncedChannels(chs, peer, infos, dids, requireDid, now);
      (forall name :: name in r <==> name in chs || NamedIn(CappedInfos(infos), name))
      && (forall name | name in chs && !NamedIn(CappedInfos(infos), name) ::
            r[name] == DropPeerMembers(chs[name], peer))
      && (forall name | name in chs ::
            r[name].members == chs[name].members
            && (chs[name].founderDid.Some? ==> r[name].founderDid == chs[name].founderDid)
            && (chs[name].members != {} ==> AtLeastAsStrict(ModesOf(r[name]), ModesOf(chs[name]))))
  {
    var dropped := DropPeerEverywhere(chs, peer);
    var capped := CappedInfos(infos);
    MergeInfosDomain(dropped, capped, peer, dids, requireDid, now);
    forall name | name in chs && !NamedIn(capped, name)
      ensures SyncedChannels(chs, peer, infos, dids, requireDid, now)[name] == DropPeerMembers(chs[name], peer)
    {
      MergeInfosUntouched(dropped, capped, peer, dids, requireDid, now, name);
    }
    forall name | name in chs
      ensures var r := SyncedChannels(chs, peer, infos, dids, requireDid, now);
        r[name].members == chs[name].members
        && (chs[name].founderDid.Some? ==> r[name].founderDid == chs[name].founderDid)
        && (chs[name].members != {} ==> AtLeastAsStrict(ModesOf(r[name]), ModesOf(chs[name])))
    {
      MergeInfosProtectsLocal(dropped, capped, peer, dids, requireDid, now, name);
    }
  }

  /** The merge loop over the (capped) synced channels. */
  method MergeSyncedChannels(chs: map<string, ChannelState>, capped: seq<SyncChannelInfo>, peer: string,
                             dids: map<string, string>, requireDid: bool, now: nat)
    returns (r: map<string, ChannelState>)
    ensures r == MergeInfos(chs, capped, peer, dids, requireDid, now)
  {
    r := chs;
    var i := 0;
    while i < |capped|
      invariant 0 <= i <= |capped|
      invariant r == MergeInfos(chs, capped[..i], peer, dids, requireDid, now)
    {
      MergeInfosSnoc(chs, capped, i, peer, dids, requireDid, now);
      r := MergeSyncedInfo(r, capped[i], peer, dids, requireDid, now);
      i := i + 1;
    }
    assert capped[..i] == capped;
  }

  lemma MergeInfosSnoc(chs: map<string, ChannelState>, infos: seq<SyncChannelInfo>, i: nat, peer: string,
                       dids: map<string, string>, requireDid: bool, now: nat)
    requires i < |infos|
    ensures MergeInfos(chs, infos[..i + 1], peer, dids, requireDid, now)
      == MergeInfo(MergeInfos(chs, infos[..i], peer, dids, requireDid, now), infos[i], peer, dids, requireDid, now)
  {
    assert infos[..i + 1][..i] == infos[..i];
  }

  /** One synced channel: looked up, or created from the default, then merged. */
  method MergeSyncedInfo(chs: map<string, ChannelState>, info: SyncChannelInfo, peer: string,
                         dids: map<string, string>, requireDid: bool, now: nat)
    returns (r: map<string, ChannelState>)
    ensures r == MergeInfo(chs, info, peer, dids, requireDid, now)
  {
    var isNew := info.name !in chs;
    var ch := if isNew then DefaultChannel() else chs[info.name];
    var merged := MergeSyncedChannel(ch, isNew, info, peer, dids, requireDid, now);
    r := chs[info.name := merged];
  }

  // ---------------------------------------------------------------------
  // Shared server state (the parts the modelled handlers touch).

  datatype GhostChannel = GhostChannel(name: string, isOp: bool, isVoiced: bool, isHalfop: bool)

  /** A recently disconnected DID user kept for a grace period. */
  datatype GhostSession = GhostSession(nick: string, hostmask: string, channels: seq<GhostChannel>)

  class SharedState {
    var channels: map<string, ChannelState>
    var nicks: NickMap
    var sessionDids: map<string, string>
    var didSessions: map<string, set<string>>
    var nickOwners: map<string, string>
    var didNicks: map<string, string>
    var connections: set<string>
    var capMessageTags: set<string>
    var capMultiPrefix: set<string>
    var capEchoMessage: set<string>
    var capServerTime: set<string>
    var capBatch: set<string>
    var capAccountNotify: set<string>
    var capExtendedJoin: set<string>
    var capAwayNotify: set<string>
    var sessionAway: map<string, string>
    var serverIrohId: Option<string>
    var msgTimestamps: map<string, seq<nat>>
    var ghostSessions: map<string, GhostSession>
    var requireDidForOps: bool
    var hasS2s: bool

    ghost predicate Valid()
      reads this, nicks
    {
      nicks.Valid()
    }

    constructor (requireDid: bool)
      ensures Valid() && fresh(nicks)
      ensures channels == map[] && nicks.sidToNick == map[] && sessionDids == map[]
      ensures requireDidForOps == requireDid
    {
      channels := map[];
      nicks := new NickMap();
      sessionDids := map[];
      didSessions := map[];
      nickOwners := map[];
      didNicks := map[];
      connections := {};
      capMessageTags := {};
      capMultiPrefix := {};
      capEchoMessage := {};
      capServerTime := {};
      capBatch := {};
      capAccountNotify := {};
      capExtendedJoin := {};
      capAwayNotify := {};
      sessionAway := map[];
      serverIrohId := None;
      msgTimestamps := map[];
      ghostSessions := map[];
      requireDidForOps := requireDid;
      hasS2s := false;
    }

    /** SyncResponse from `peer`: the peer's remote members are dropped everywhere, then at most 500 channels are merged. */
    method ApplySyncResponse(peer: string, infos: seq<SyncChannelInfo>, now: nat)
      modifies this
      ensures channels == SyncedChannels(old(channels), peer, infos, old(sessionDids), requireDidForOps, now)
      ensures nicks == old(nicks) && sessionDids == old(sessionDids)
    {
      var capped := CappedInfos(infos);
      var dropped := map name | name in channels :: DropPeerMembers(channels[name], peer);
      channels := MergeSyncedChannels(dropped, capped, peer, sessionDids, requireDidForOps, now);
    }
  }
}
