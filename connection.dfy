// The per-connection rules of the command loop: the hostmask and its cloaked
// host, NICK validation, the line-length cap, the PIN/UNPIN list, ISON and
// USERHOST lookups, and the channel clean-up when a session disconnects.

module Connection {
  import opened Common
  import opened Server

  const ERR_INPUTTOOLONG: nat := 417
  const ERR_ERRONEUSNICKNAME: nat := 432
  const ERR_NEEDMOREPARAMS: nat := 461
  const ERR_CHANOPRIVSNEEDED: nat := 482

  const MAX_LINE_LEN: nat := 8192
  const MAX_NICK_LEN: nat := 64
  const MAX_PINS: nat := 50
  const USERHOST_MAX: nat := 5

  // ---------------------------------------------------------------------
  // Hostmask and cloaked host.

  /** `cloaked_host`: `freeq/{method}/{first 8 of id}` for a DID, `freeq/did` without a method, `freeq/guest` for guests. */
  function CloakedHost(did: Option<string>): (r: string)
    ensures StartsWith(r, "freeq/")
    ensures did.None? ==> r == "freeq/guest"
  {
    match did
    case None => "freeq/guest"
    case Some(d) =>
      var short := if StartsWith(d, "did:") then d[4..] else d;
      match FindChar(short, ':')
      case None => "freeq/did"
      case Some(i) =>
        var id := short[i + 1..];
        "freeq/" + short[..i] + "/" + id[..Min(8, |id|)]
  }

  /** A `did:{method}:{id}` is cloaked as its method and the first 8 characters of its id. */
  lemma CloakedHostOfDid(m: string, id: string)
    requires ':' !in m
    ensures CloakedHost(Some("did:" + m + ":" + id)) == "freeq/" + m + "/" + id[..Min(8, |id|)]
  {
    var d := "did:" + m + ":" + id;
    assert StartsWith(d, "did:");
    var short := d[4..];
    assert short == m + [':'] + id;
    FindCharAfter(m, ':', id);
    assert short[..|m|] == m && short[|m| + 1..] == id;
  }

  /** A DID with a single segment after `did:` has no method to show. */
  lemma CloakedHostNoMethod(rest: string)
    requires ':' !in rest
    ensures CloakedHost(Some("did:" + rest)) == "freeq/did"
  {
    var d := "did:" + rest;
    assert StartsWith(d, "did:");
    assert d[4..] == rest;
  }

  /** `hostmask`: `nick!user@host` with `*` and `~u` for a missing nick or user. */
  function Hostmask(nick: Option<string>, user: Option<string>, did: Option<string>): (r: string)
    ensures r == nick.UnwrapOr("*") + "!" + user.UnwrapOr("~u") + "@" + CloakedHost(did)
  {
    nick.UnwrapOr("*") + "!" + user.UnwrapOr("~u") + "@" + CloakedHost(did)
  }

  /** Without `!` in the nick, the sender nick of a hostmask is the connection's nick. */
  lemma HostmaskNick(nick: string, user: Option<string>, did: Option<string>)
    requires '!' !in nick
    ensures var h := Hostmask(Some(nick), user, did);
      FindChar(h, '!') == Some(|nick|) && h[..|nick|] == nick
  {
    var rest := user.UnwrapOr("~u") + "@" + CloakedHost(did);
    assert Hostmask(Some(nick), user, did) == nick + ['!'] + rest;
    FindCharAfter(nick, '!', rest);
  }

  // ---------------------------------------------------------------------
  // NICK validation and the line cap.

  /** Rust's `char::is_control`: the C0 and C1 control characters. */
  predicate IsControl(c: char)
  {
    c as int < 0x20 || (0x7f <= c as int < 0xa0)
  }

  predicate ForbiddenNickChar(c: char)
  {
    IsControl(c) || c in {' ', ',', '*', '?', '!', '@', '#', '&', ':'}
  }

  /** NICK is refused with 432 when empty, over 64 bytes, or holding a forbidden character. */
  function NickError(nick: string): (r: Option<nat>)
    ensures r.None? <==> 0 < |Utf8(nick)| <= MAX_NICK_LEN && forall i | 0 <= i < |nick| :: !ForbiddenNickChar(nick[i])
    ensures r.Some? ==> r.value == ERR_ERRONEUSNICKNAME
  {
    if |Utf8(nick)| == 0 || |Utf8(nick)| > MAX_NICK_LEN || exists i | 0 <= i < |nick| :: ForbiddenNickChar(nick[i])
    then Some(ERR_ERRONEUSNICKNAME)
    else None
  }

  /** An accepted nick can be told apart in a hostmask, a channel list and a mask. */
  lemma AcceptedNickIsClean(nick: string)
    requires NickError(nick).None?
    ensures nick != [] && '!' !in nick && '@' !in nick && ' ' !in nick && ',' !in nick
    ensures !StartsWith(nick, "#") && !StartsWith(nick, "&")
  {
    forall i | 0 <= i < |nick|
      ensures nick[i] !in {'!', '@', ' ', ',', '#', '&'}
    {
      assert !ForbiddenNickChar(nick[i]);
    }
  }

  /** A line read from the socket is dropped with 417 when it is longer than 8192 bytes. */
  function LineCheck(line: string): (r: Option<nat>)
    ensures r.Some? <==> |Utf8(line)| > MAX_LINE_LEN
    ensures r.Some? ==> r.value == ERR_INPUTTOOLONG
  {
    if |Utf8(line)| > MAX_LINE_LEN then Some(ERR_INPUTTOOLONG) else None
  }

  // ---------------------------------------------------------------------
  // PIN and UNPIN.

  predicate IsPinned(pins: seq<PinnedMessage>, msgid: string)
  {
    exists i | 0 <= i < |pins| :: pins[i].msgid == msgid
  }

  predicate DistinctPins(pins: seq<PinnedMessage>)
  {
    forall i, j | 0 <= i < j < |pins| :: pins[i].msgid != pins[j].msgid
  }

  datatype PinOutcome = NeedMoreParams | NotOperator | NoChannel | AlreadyPinned | Pinned | NotPinned | Unpinned

  /** PIN on an existing channel: refuse a msgid already pinned, else insert at the front and keep 50. */
  function PinSpec(pins: seq<PinnedMessage>, p: PinnedMessage): (r: seq<PinnedMessage>)
    ensures IsPinned(pins, p.msgid) ==> r == pins
    ensures |r| <= |pins| + 1
    ensures !IsPinned(pins, p.msgid) ==> 0 < |r| <= MAX_PINS && r[0] == p && r[1..] == pins[..|r| - 1]
  {
    if IsPinned(pins, p.msgid) then pins
    else
      var s := [p] + pins;
      s[..Min(MAX_PINS, |s|)]
  }

  /** Pinning keeps the list free of duplicates and never longer than 50. */
  lemma PinKeepsDistinct(pins: seq<PinnedMessage>, p: PinnedMessage)
    requires DistinctPins(pins) && |pins| <= MAX_PINS
    ensures DistinctPins(PinSpec(pins, p)) && |PinSpec(pins, p)| <= MAX_PINS
    ensures IsPinned(PinSpec(pins, p), p.msgid)
  {
    var r := PinSpec(pins, p);
    if !IsPinned(pins, p.msgid) {
      forall i, j | 0 <= i < j < |r| ensures r[i].msgid != r[j].msgid {
        if i == 0 {
          assert r[j] == pins[j - 1];
        } else {
          assert r[i] == pins[i - 1] && r[j] == pins[j - 1];
        }
      }
    }
  }

  /** UNPIN: remove every pin with the msgid. */
  function WithoutPin(pins: seq<PinnedMessage>, msgid: string): (r: seq<PinnedMessage>)
    ensures |r| <= |pins|
    ensures forall p :: p in r <==> p in pins && p.msgid != msgid
  {
    if pins == [] then []
    else
      assert pins == [pins[0]] + pins[1..];
      if pins[0].msgid == msgid then WithoutPin(pins[1..], msgid) else [pins[0]] + WithoutPin(pins[1..], msgid)
  }

  lemma {:induction false} WithoutPinShorter(pins: seq<PinnedMessage>, msgid: string)
    ensures |WithoutPin(pins, msgid)| < |pins| <==> IsPinned(pins, msgid)
  {
    if pins != [] {
      WithoutPinShorter(pins[1..], msgid);
      if IsPinned(pins[1..], msgid) {
        var i :| 0 <= i < |pins[1..]| && pins[1..][i].msgid == msgid;
        assert pins[i + 1].msgid == msgid;
      }
      if IsPinned(pins, msgid) && pins[0].msgid != msgid {
        var i :| 0 <= i < |pins| && pins[i].msgid == msgid;
        assert pins[1..][i - 1].msgid == msgid;
      }
    }
  }

  lemma {:induction false} WithoutPinAppend(a: seq<PinnedMessage>, b: seq<PinnedMessage>, msgid: string)
    ensures WithoutPin(a + b, msgid) == WithoutPin(a, msgid) + WithoutPin(b, msgid)
  {
    if a == [] {
      assert a + b == b;
    } else {
      assert (a + b)[1..] == a[1..] + b;
      WithoutPinAppend(a[1..], b, msgid);
    }
  }

  /** UNPIN's `retain` loop and its "not pinned" test on the length. */
  method Unpin(pins: seq<PinnedMessage>, msgid: string) returns (r: seq<PinnedMessage>, removed: bool)
    ensures r == WithoutPin(pins, msgid)
    ensures removed <==> IsPinned(pins, msgid)
    ensures !IsPinned(r, msgid)
  {
    r := [];
    var i := 0;
    while i < |pins|
      invariant 0 <= i <= |pins|
      invariant r == WithoutPin(pins[..i], msgid)
    {
      assert pins[..i + 1] == pins[..i] + [pins[i]];
      WithoutPinAppend(pins[..i], [pins[i]], msgid);
      if pins[i].msgid != msgid {
        r := r + [pins[i]];
      }
      i := i + 1;
    }
    assert pins[..|pins|] == pins;
    WithoutPinShorter(pins, msgid);
    removed := |r| < |pins|;
    assert forall k | 0 <= k < |r| :: r[k] in r;
  }

  /** PIN's `insert(0, ..)` and `truncate(50)`. */
  method Pin(pins: seq<PinnedMessage>, p: PinnedMessage) returns (r: seq<PinnedMessage>, added: bool)
    ensures r == PinSpec(pins, p)
    ensures added <==> !IsPinned(pins, p.msgid)
  {
    added := true;
    var i := 0;
    while i < |pins|
      invariant 0 <= i <= |pins|
      invariant forall j | 0 <= j < i :: pins[j].msgid != p.msgid
    {
      if pins[i].msgid == p.msgid {
        return pins, false;
      }
      i := i + 1;
    }
    r := [p] + pins;
    if |r| > MAX_PINS {
      r := r[..MAX_PINS];
    }
  }

  /**
   * PIN/UNPIN: 461 without two parameters, 482 unless channel or server
   * operator, nothing for an unknown channel.
   */
  method PinCommand(channels: map<string, ChannelState>, sid: string, isServerOper: bool, nick: string,
                    params: seq<string>, isPin: bool, now: nat)
    returns (outcome: PinOutcome, r: map<string, ChannelState>)
    ensures |params| < 2 ==> outcome == NeedMoreParams && r == channels
    ensures outcome == NotOperator <==>
      |params| >= 2 && !isServerOper &&
      !(LowerStr(params[0]) in channels && sid in channels[LowerStr(params[0])].ops)
    ensures outcome in {Pinned, Unpinned} ==>
      var name := LowerStr(params[0]);
      name in channels && name in r && r == channels[name := channels[name].(pins := r[name].pins)] &&
      (if isPin then r[name].pins == PinSpec(channels[name].pins, PinnedMessage(params[1], nick, now))
       else r[name].pins == WithoutPin(channels[name].pins, params[1]))
    ensures outcome !in {Pinned, Unpinned} ==> r == channels
    ensures outcome == AlreadyPinned ==>
      isPin && LowerStr(params[0]) in channels && IsPinned(channels[LowerStr(params[0])].pins, params[1])
    ensures outcome == NotPinned ==>
      !isPin && LowerStr(params[0]) in channels && !IsPinned(channels[LowerStr(params[0])].pins, params[1])
  {
    r := channels;
    if |params| < 2 {
      return NeedMoreParams, r;
    }
    var name := LowerStr(params[0]);
    var isOp := name in channels && sid in channels[name].ops;
    if !isOp && !isServerOper {
      return NotOperator, r;
    }
    if name !in channels {
      return NoChannel, r;
    }
    var ch := channels[name];
    if isPin {
      var pins, added := Pin(ch.pins, PinnedMessage(params[1], nick, now));
      if !added {
        return AlreadyPinned, r;
      }
      r := channels[name := ch.(pins := pins)];
      outcome := Pinned;
    } else {
      var pins, removed := Unpin(ch.pins, params[1]);
      if !removed {
        return NotPinned, r;
      }
      r := channels[name := ch.(pins := pins)];
      outcome := Unpinned;
    }
  }

  // ---------------------------------------------------------------------
  // ISON and USERHOST. `index` is the nick map's lowercase-nick -> session table.

  /** ISON: the given nicks that are online, in the order given. */
  function Ison(params: seq<string>, index: map<string, string>): (r: seq<string>)
    ensures |r| <= |params|
    ensures forall n :: n in r <==> n in params && LowerStr(n) in index
  {
    if params == [] then []
    else
      assert params == [params[0]] + params[1..];
      var rest := Ison(params[1..], index);
      if LowerStr(params[0]) in index then [params[0]] + rest else rest
  }

  /** USERHOST: one entry per online nick among the first five, `nick[*]=+nick@host`. */
  function Userhost(params: seq<string>, index: map<string, string>, isOp: string -> bool,
                    host: string -> string): (r: seq<string>)
    ensures |r| <= USERHOST_MAX
    ensures |r| == |Ison(params[..Min(USERHOST_MAX, |params|)], index)|
  {
    UserhostReplies(params[..Min(USERHOST_MAX, |params|)], index, isOp, host)
  }

  function UserhostReplies(nicks: seq<string>, index: map<string, string>, isOp: string -> bool,
                           host: string -> string): (r: seq<string>)
    ensures |r| <= |nicks|
    ensures |r| == |Ison(nicks, index)|
    ensures forall k | 0 <= k < |r| :: StartsWith(r[k], Ison(nicks, index)[k])
  {
    if nicks == [] then []
    else
      var rest := UserhostReplies(nicks[1..], index, isOp, host);
      var n := nicks[0];
      if LowerStr(n) in index then
        var sid := index[LowerStr(n)];
        var entry := n + (if isOp(sid) then "*" else "") + "=+" + n + "@" + host(sid);
        assert StartsWith(entry, n);
        [entry] + rest
      else rest
  }

  /** Only the first five nicks are looked up. */
  lemma UserhostIgnoresExtra(params: seq<string>, extra: seq<string>, index: map<string, string>,
                             isOp: string -> bool, host: string -> string)
    requires |params| >= USERHOST_MAX
    ensures Userhost(params + extra, index, isOp, host) == Userhost(params, index, isOp, host)
  {
    assert (params + extra)[..USERHOST_MAX] == params[..USERHOST_MAX];
  }

  // ---------------------------------------------------------------------
  // Disconnect.

  /** The session leaves a channel's member, op, voice and halfop sets. */
  function Strip(ch: ChannelState, sid: string): (r: ChannelState)
    ensures r == ch.(members := ch.members - {sid}, ops := ch.ops - {sid},
                     voiced := ch.voiced - {sid}, halfops := ch.halfops - {sid})
  {
    ch.(members := ch.members - {sid}, ops := ch.ops - {sid},
        voiced := ch.voiced - {sid}, halfops := ch.halfops - {sid})
  }

  /** A channel is kept while it has members, remote members, a founder, a topic or bans. */
  predicate Survives(ch: ChannelState)
  {
    ch.members != {} || ch.remoteMembers != map[] || ch.founderDid.Some? || ch.topic.Some? || ch.bans != []
  }

  function Disconnected(channels: map<string, ChannelState>, sid: string): map<string, ChannelState>
  {
    map k | k in channels && Survives(Strip(channels[k], sid)) :: Strip(channels[k], sid)
  }

  /** After a disconnect the session holds no seat anywhere, and only empty, unowned channels vanish. */
  lemma DisconnectRemovesSession(channels: map<string, ChannelState>, sid: string)
    ensures forall k | k in Disconnected(channels, sid) ::
      var c := Disconnected(channels, sid)[k];
      sid !in c.members && sid !in c.ops && sid !in c.voiced && sid !in c.halfops
    ensures forall k | k in channels ::
      k !in Disconnected(channels, sid) <==>
        channels[k].members <= {sid} && channels[k].remoteMembers == map[] &&
        channels[k].founderDid.None? && channels[k].topic.None? && channels[k].bans == []
  {
    forall k | k in channels
      ensures k !in Disconnected(channels, sid) <==>
        channels[k].members <= {sid} && channels[k].remoteMembers == map[] &&
        channels[k].founderDid.None? && channels[k].topic.None? && channels[k].bans == []
    {
      var s := Strip(channels[k], sid);
      assert s.members == {} <==> channels[k].members <= {sid};
    }
  }

  /** A surviving channel keeps everything but the session's seats. */
  lemma DisconnectKeepsRest(channels: map<string, ChannelState>, sid: string, k: string)
    requires k in Disconnected(channels, sid)
    ensures var c := Disconnected(channels, sid)[k];
      c.members == channels[k].members - {sid} && c.topic == channels[k].topic &&
      c.bans == channels[k].bans && c.history == channels[k].history && c.pins == channels[k].pins
  {
  }

  /** The disconnect loop over the channel table followed by `retain`. */
  method Disconnect(channels: map<string, ChannelState>, sid: string) returns (r: map<string, ChannelState>)
    ensures r == Disconnected(channels, sid)
  {
    r := map[];
    var todo := channels.Keys;
    while todo != {}
      invariant todo <= channels.Keys
      invariant forall k | k in r :: k in channels && k !in todo && Survives(Strip(channels[k], sid)) && r[k] == Strip(channels[k], sid)
      invariant forall k | k in channels && k !in todo && Survives(Strip(channels[k], sid)) :: k in r
      decreases todo
    {
      var k :| k in todo;
      var s := Strip(channels[k], sid);
      if Survives(s) {
        r := r[k := s];
      }
      todo := todo - {k};
    }
  }
}
