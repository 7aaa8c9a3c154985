// WHO replies, the LUSERS remote-user count, and AWAY with its away-notify
// broadcast.

module Queries {
  import opened Common
  import opened Server
  import Helpers

  // ---------------------------------------------------------------------
  // WHO.

  /** A member's channel status as WHO shows it: op wins over voice. */
  datatype Status = Plain | Voiced | Op

  function StatusOf(ch: ChannelState, sid: string): Status
  {
    if sid in ch.ops then Op else if sid in ch.voiced then Voiced else Plain
  }

  /** The WHO flags: `G` when away, else `H`, then `@` for an op or `+` for a voiced member. */
  function WhoFlags(away: bool, st: Status): (r: string)
    ensures 1 <= |r| <= 2
    ensures r[0] == (if away then 'G' else 'H')
    ensures |r| == 2 <==> !st.Plain?
  {
    (if away then "G" else "H") + (match st case Op => "@" case Voiced => "+" case Plain => "")
  }

  /** Reads the away state and status back from WHO flags. */
  function ParseWhoFlags(f: string): Option<(bool, Status)>
  {
    if |f| == 0 || |f| > 2 || (f[0] != 'G' && f[0] != 'H') then None
    else if |f| == 1 then Some((f[0] == 'G', Plain))
    else if f[1] == '@' then Some((f[0] == 'G', Op))
    else if f[1] == '+' then Some((f[0] == 'G', Voiced))
    else None
  }

  /** The flags lose nothing: away state and status are recovered from them. */
  lemma WhoFlagsRoundTrip(away: bool, st: Status)
    ensures ParseWhoFlags(WhoFlags(away, st)) == Some((away, st))
  {
    var f := WhoFlags(away, st);
    match st
    case Op => assert f[1] == '@';
    case Voiced => assert f[1] == '+';
    case Plain =>
  }

  /** The realname field: `0 {did}` for an authenticated session, else `0 IRC User`. */
  function Realname(did: Option<string>): (r: string)
    ensures StartsWith(r, "0 ")
    ensures did.Some? ==> r[2..] == did.value
  {
    match did
    case Some(d) => "0 " + d
    case None => "0 IRC User"
  }

  function Lookup(m: map<string, string>, k: string): Option<string>
  {
    if k in m then Some(m[k]) else None
  }

  /** One RPL_WHOREPLY: the channel field, the member's nick, its flags and its realname. */
  datatype WhoReply = WhoReply(channel: string, nick: string, flags: string, realname: string)

  /** A channel member's WHO line, given the session→nick map, the away map and the DIDs. */
  function MemberReply(channel: string, ch: ChannelState, sid: string, nickOf: map<string, string>,
                       away: map<string, string>, dids: map<string, string>): WhoReply
    requires sid in nickOf
  {
    WhoReply(channel, nickOf[sid], WhoFlags(sid in away, StatusOf(ch, sid)), Realname(Lookup(dids, sid)))
  }

  predicate IsChannelTarget(target: string)
  {
    |target| > 0 && (target[0] == '#' || target[0] == '&')
  }

  /**
   * WHO on a channel: one reply per member that has a nick (members whose
   * nick is unknown are skipped), under the normalised channel name; an
   * unknown channel gives no replies.
   */
  method WhoChannel(channels: map<string, ChannelState>, target: string, nickOf: map<string, string>,
                    away: map<string, string>, dids: map<string, string>)
    returns (replies: seq<WhoReply>, ghost order: seq<string>)
    requires IsChannelTarget(target)
    ensures Helpers.NormalizeChannel(target) !in channels ==> replies == []
    ensures Helpers.NormalizeChannel(target) in channels ==>
      var name := Helpers.NormalizeChannel(target);
      |replies| == |order| && Distinct(order) &&
      (forall s :: s in order <==> s in channels[name].members && s in nickOf) &&
      forall i | 0 <= i < |order| :: order[i] in nickOf && replies[i] == MemberReply(name, channels[name], order[i], nickOf, away, dids)
  {
    var name := Helpers.NormalizeChannel(target);
    replies, order := [], [];
    if name !in channels {
      return;
    }
    var ch := channels[name];
    var todo := ch.members;
    while todo != {}
      invariant todo <= ch.members
      invariant |replies| == |order| && Distinct(order)
      invariant forall s :: s in order <==> s in ch.members && s !in todo && s in nickOf
      invariant forall i | 0 <= i < |order| :: order[i] in nickOf && replies[i] == MemberReply(name, ch, order[i], nickOf, away, dids)
      decreases todo
    {
      var s :| s in todo;
      if s in nickOf {
        replies := replies + [MemberReply(name, ch, s, nickOf, away, dids)];
        order := order + [s];
      }
      todo := todo - {s};
    }
  }

  /**
   * WHO on a nick: the holder found ignoring case gets one reply with channel
   * `*`, the nick as the requester typed it and the away flag alone.
   */
  function WhoNick(nicks: NickMap, target: string, away: map<string, string>, dids: map<string, string>)
    : (r: Option<WhoReply>)
    reads nicks
    requires nicks.Valid()
    ensures r.Some? <==> nicks.ContainsNick(target)
    ensures r.Some? ==> (r.value.channel == "*" && r.value.nick == target && |r.value.flags| == 1 &&
      exists s | s in nicks.sidToNick && NickEq(nicks.sidToNick[s], target) ::
        r.value.flags == WhoFlags(s in away, Plain) && r.value.realname == Realname(Lookup(dids, s)))
  {
    match nicks.GetSession(target)
    case None => None
    case Some(s) => Some(WhoReply("*", target, WhoFlags(s in away, Plain), Realname(Lookup(dids, s))))
  }

  // ---------------------------------------------------------------------
  // LUSERS.

  /** Every remote nick seen in any channel. */
  function RemoteNicks(channels: map<string, ChannelState>): set<string>
  {
    set k, n | k in channels && n in channels[k].remoteMembers :: n
  }

  /** The dedup loop over channels: each remote nick is counted once. */
  method RemoteCount(channels: map<string, ChannelState>) returns (count: nat)
    ensures count == |RemoteNicks(channels)|
  {
    var seen: set<string> := {};
    var todo := channels.Keys;
    while todo != {}
      invariant todo <= channels.Keys
      invariant seen == set k, n | k in channels && k !in todo && n in channels[k].remoteMembers :: n
      decreases todo
    {
      var k :| k in todo;
      seen := seen + channels[k].remoteMembers.Keys;
      todo := todo - {k};
    }
    assert seen == RemoteNicks(channels);
    count := |seen|;
  }

  lemma {:induction false} SubsetCard<T>(a: set<T>, b: set<T>)
    requires a <= b
    ensures |a| <= |b|
    decreases b
  {
    if a != {} {
      var x :| x in a;
      SubsetCard(a - {x}, b - {x});
    }
  }

  /** The dedup count is never below the number of remote members of any single channel. */
  lemma RemoteCountBounds(channels: map<string, ChannelState>, k: string)
    requires k in channels
    ensures |channels[k].remoteMembers| <= |RemoteNicks(channels)|
  {
    assert channels[k].remoteMembers.Keys <= RemoteNicks(channels);
    SubsetCard(channels[k].remoteMembers.Keys, RemoteNicks(channels));
  }

  /** The first LUSERS line's total: local connections plus distinct remote nicks. */
  method LusersTotal(connections: set<string>, channels: map<string, ChannelState>) returns (total: nat, remote: nat)
    ensures remote == |RemoteNicks(channels)|
    ensures total == |connections| + remote
  {
    remote := RemoteCount(channels);
    total := |connections| + remote;
  }

  // ---------------------------------------------------------------------
  // AWAY.

  /** The away map after AWAY: a non-empty message is recorded, anything else clears the entry. */
  function AwayAfter(away: map<string, string>, sid: string, msg: Option<string>): (r: map<string, string>)
    ensures msg.Some? && msg.value != "" ==> sid in r && r[sid] == msg.value
    ensures !(msg.Some? && msg.value != "") ==> sid !in r
    ensures forall s | s != sid :: (s in r <==> s in away) && (s in r ==> r[s] == away[s])
  {
    if msg.Some? && msg.value != "" then away[sid := msg.value] else away - {sid}
  }

  /** Going away and coming back leaves no away entry; other sessions are untouched. */
  lemma AwayThenBack(away: map<string, string>, sid: string, msg: string)
    ensures AwayAfter(AwayAfter(away, sid, Some(msg)), sid, None) == away - {sid}
  {
  }

  /** The away state a later WHO reports: `G` exactly after a non-empty AWAY. */
  lemma AwayShowsInWho(away: map<string, string>, sid: string, msg: Option<string>, st: Status)
    ensures WhoFlags(sid in AwayAfter(away, sid, msg), st)[0] == (if msg.Some? && msg.value != "" then 'G' else 'H')
  {
  }

  /** The AWAY line sent to co-members, with the reason only when setting away. */
  function AwayLine(hostmask: string, msg: Option<string>): (r: string)
    ensures StartsWith(r, ":" + hostmask + " AWAY") && EndsWith(r, "\r\n")
    ensures msg.None? ==> r == ":" + hostmask + " AWAY\r\n"
    ensures msg.Some? ==> EndsWith(r, " :" + msg.value + "\r\n")
  {
    match msg
    case Some(m) => ":" + hostmask + " AWAY :" + m + "\r\n"
    case None => ":" + hostmask + " AWAY\r\n"
  }

  /** `m` shares some channel with `sid`. */
  predicate CoMember(channels: map<string, ChannelState>, sid: string, m: string)
  {
    exists k | k in channels :: sid in channels[k].members && m in channels[k].members
  }

  /**
   * `broadcast_away`: nothing when no session has away-notify; otherwise
   * every co-member with away-notify, never the sender itself, once each.
   */
  method AwayTargets(channels: map<string, ChannelState>, sid: string, awayCaps: set<string>)
    returns (targets: set<string>)
    ensures awayCaps == {} ==> targets == {}
    ensures forall m :: m in targets <==> m != sid && m in awayCaps && CoMember(channels, sid, m)
  {
    targets := {};
    if awayCaps == {} {
      return;
    }
    var todo := channels.Keys;
    while todo != {}
      invariant todo <= channels.Keys
      invariant forall m :: m in targets <==>
        m != sid && m in awayCaps && exists k | k in channels && k !in todo :: sid in channels[k].members && m in channels[k].members
      decreases todo
    {
      var k :| k in todo;
      if sid in channels[k].members {
        targets := targets + (set m | m in channels[k].members && m != sid && m in awayCaps);
      }
      todo := todo - {k};
    }
  }

  /** The shared away table (`session_away`). */
  class AwayTable {
    var away: map<string, string>

    constructor ()
      ensures away == map[]
    {
      away := map[];
    }

    /**
     * `handle_away`: record or clear the session's away message, and return
     * whether the reply is RPL_NOWAWAY together with the line and the
     * sessions it goes to (only those still connected receive it).
     */
    method HandleAway(channels: map<string, ChannelState>, sid: string, hostmask: string, msg: Option<string>,
                      awayCaps: set<string>, connected: set<string>)
      returns (nowAway: bool, line: string, sent: set<string>)
      modifies this
      ensures away == AwayAfter(old(away), sid, msg)
      ensures nowAway <==> msg.Some? && msg.value != ""
      ensures line == AwayLine(hostmask, if nowAway then msg else None)
      ensures forall m :: m in sent <==> m != sid && m in awayCaps && m in connected && CoMember(channels, sid, m)
    {
      nowAway := msg.Some? && msg.value != "";
      if nowAway {
        away := away[sid := msg.value];
        line := AwayLine(hostmask, msg);
      } else {
        away := away - {sid};
        line := AwayLine(hostmask, None);
      }
      var targets := AwayTargets(channels, sid, awayCaps);
      sent := targets * connected;
    }
  }
}
