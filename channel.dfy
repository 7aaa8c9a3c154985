// freeq-server/src/connection/channel.rs: JOIN admission and auto-op, the
// MODE query and the MODE change loop, KICK, INVITE, TOPIC and PART.
// Broadcasts, S2S relays, database writes and CRDT updates are left out;
// the numeric replies sent to the acting session are returned.

module Channel {
  import opened Common
  import opened Server

  /** A numeric reply to the acting session, without its trailing human-readable text. */
  datatype Reply = Reply(code: nat, params: seq<string>)

  const RPL_NOTOPIC: nat := 331
  const RPL_TOPIC: nat := 332
  const RPL_TOPICWHOTIME: nat := 333
  const RPL_INVITING: nat := 341
  const RPL_CHANNELMODEIS: nat := 324
  const RPL_BANLIST: nat := 367
  const RPL_ENDOFBANLIST: nat := 368
  const ERR_NOSUCHNICK: nat := 401
  const ERR_USERNOTINCHANNEL: nat := 441
  const ERR_NOTONCHANNEL: nat := 442
  const ERR_NEEDMOREPARAMS: nat := 461
  const ERR_UNKNOWNMODE: nat := 472
  const ERR_INVITEONLYCHAN: nat := 473
  const ERR_BANNEDFROMCHAN: nat := 474
  const ERR_BADCHANNELKEY: nat := 475
  const ERR_NEEDPOLICY: nat := 477
  const ERR_CHANOPRIVSNEEDED: nat := 482

  predicate InChannel(chans: map<string, ChannelState>, name: string, sid: string)
  {
    name in chans && sid in chans[name].members
  }

  predicate IsChanOp(chans: map<string, ChannelState>, name: string, sid: string)
  {
    name in chans && sid in chans[name].ops
  }

  // ---------------------------------------------------------------------
  // JOIN

  /** A channel is new when absent, or present with no members, remote members, founder, topic or ops. */
  predicate IsNewChannel(chans: map<string, ChannelState>, name: string)
  {
    name !in chans ||
    (chans[name].members == {} && chans[name].remoteMembers == map[] && chans[name].founderDid.None?
     && chans[name].topic.None? && chans[name].ops == {})
  }

  /** The three forms an invitation for this user can take: the session, the DID, `nick:<nick>`. */
  function InviteForms(sid: string, did: Option<string>, nick: string): (r: set<string>)
    ensures sid in r && "nick:" + nick in r
    ensures did.Some? ==> did.value in r
    ensures forall x :: x in r ==> x == sid || x == "nick:" + nick || (did.Some? && x == did.value)
  {
    {sid, "nick:" + nick} + (if did.Some? then {did.value} else {})
  }

  predicate HasInvite(invites: set<string>, sid: string, did: Option<string>, nick: string)
  {
    sid in invites || (did.Some? && did.value in invites) || "nick:" + nick in invites
  }

  /** Holding an invite is holding one of its three forms. */
  lemma HasInviteIff(invites: set<string>, sid: string, did: Option<string>, nick: string)
    ensures HasInvite(invites, sid, did, nick) <==> invites * InviteForms(sid, did, nick) != {}
  {
    var f := InviteForms(sid, did, nick);
    if HasInvite(invites, sid, did, nick) {
      if sid in invites { assert sid in invites * f; }
      else if did.Some? && did.value in invites { assert did.value in invites * f; }
      else { assert "nick:" + nick in invites * f; }
    } else {
      forall x | x in f ensures x !in invites { }
      assert invites * f == {};
    }
  }

  /** The existing-channel checks, in order: key (475), bans (474), invite-only (473). */
  function Admission(ch: ChannelState, sid: string, nick: string, hostmask: string,
                     did: Option<string>, suppliedKey: Option<string>): (r: Option<nat>)
    ensures r == Some(ERR_BADCHANNELKEY) <==> ch.key.Some? && suppliedKey != ch.key
    ensures r == Some(ERR_BANNEDFROMCHAN) <==>
      !(ch.key.Some? && suppliedKey != ch.key) && IsBanned(ch.bans, hostmask, did)
    ensures r == Some(ERR_INVITEONLYCHAN) <==>
      !(ch.key.Some? && suppliedKey != ch.key) && !IsBanned(ch.bans, hostmask, did)
      && ch.inviteOnly && !HasInvite(ch.invites, sid, did, nick)
    ensures r.Some? ==> r.value in {ERR_BADCHANNELKEY, ERR_BANNEDFROMCHAN, ERR_INVITEONLYCHAN}
  {
    if ch.key.Some? && suppliedKey != ch.key then Some(ERR_BADCHANNELKEY)
    else if IsBanned(ch.bans, hostmask, did) then Some(ERR_BANNEDFROMCHAN)
    else if ch.inviteOnly && !HasInvite(ch.invites, sid, did, nick) then Some(ERR_INVITEONLYCHAN)
    else None
  }

  /** A successful +i join spends every form of the invitation. */
  function ConsumeInvites(ch: ChannelState, sid: string, did: Option<string>, nick: string): (r: ChannelState)
    ensures !HasInvite(r.invites, sid, did, nick)
  {
    ch.(invites := ch.invites - InviteForms(sid, did, nick))
  }

  /** What the policy engine says about this channel: no policy, or the membership lookup for the joiner's DID. */
  datatype PolicyAnswer = NoPolicy | Gated(membership: Result<Option<string>, string>)

  /**
   * The policy gate: a gated channel refuses guests and DIDs without an
   * attestation (477); an engine error fails open. Ok carries the attested role.
   */
  function PolicyGate(p: PolicyAnswer, did: Option<string>): (r: Result<Option<string>, nat>)
    ensures r.Err? <==> p.Gated? && (did.None? || p.membership == Ok(None))
    ensures r.Err? ==> r.error == ERR_NEEDPOLICY
    ensures r.Ok? && r.value.Some? <==> p.Gated? && did.Some? && p.membership.Ok? && p.membership.value.Some?
    ensures r.Ok? && r.value.Some? ==> r.value == p.membership.value
  {
    match p
    case NoPolicy => Ok(None)
    case Gated(m) =>
      if did.None? then Err(ERR_NEEDPOLICY)
      else match m
        case Ok(Some(role)) => Ok(Some(role))
        case Ok(None) => Err(ERR_NEEDPOLICY)
        case Err(_) => Ok(None)
  }

  predicate IsOpRole(role: string) { role == "op" || role == "admin" || role == "owner" || role == "moderator" }
  predicate IsVoiceRole(role: string) { role == "voice" || role == "voiced" || role == "speaker" }

  /** The attested role's IRC modes: op-like roles give ops (and a persistent DID op), voice-like ones voice. */
  function ApplyRole(ch: ChannelState, sid: string, did: Option<string>, role: string): (r: ChannelState)
    ensures r == ch.(ops := r.ops, didOps := r.didOps, voiced := r.voiced)
  {
    if IsOpRole(role) then
      ch.(ops := ch.ops + {sid}, didOps := if did.Some? then ch.didOps + {did.value} else ch.didOps)
    else if IsVoiceRole(role) then ch.(voiced := ch.voiced + {sid})
    else ch
  }

  /** A new channel: created now, the joiner is op, +n and +t, and an authenticated joiner is founder and a DID op. */
  function NewChannelSetup(ch: ChannelState, sid: string, did: Option<string>, now: nat): (r: ChannelState)
    ensures r == ch.(createdAt := r.createdAt, founderDid := r.founderDid, didOps := r.didOps, ops := r.ops,
                     noExtMsg := r.noExtMsg, topicLocked := r.topicLocked)
  {
    ch.(createdAt := now,
        founderDid := if did.Some? then did else ch.founderDid,
        didOps := if did.Some? then ch.didOps + {did.value} else ch.didOps,
        ops := ch.ops + {sid},
        noExtMsg := true,
        topicLocked := true)
  }

  /** Auto-op on an existing channel, decided after the joiner was added to `members`. */
  predicate AutoOpped(ch: ChannelState, did: Option<string>)
  {
    (did.Some? && (ch.founderDid == did || did.value in ch.didOps))
    || (|ch.members| == 1 && ch.remoteMembers == map[] && !(ch.ops != {} || AnyRemoteOp(ch.remoteMembers)))
  }

  function AutoOp(ch: ChannelState, sid: string, did: Option<string>): (r: ChannelState)
    ensures r == ch.(ops := r.ops)
  {
    if AutoOpped(ch, did) then ch.(ops := ch.ops + {sid}) else ch
  }

  datatype JoinOutcome = JoinOutcome(chans: map<string, ChannelState>, rejected: Option<nat>)

  /** The joiner's channel entry after admission: member, then new-channel setup or auto-op, then the role's modes. */
  function JoinedEntry(ch0: ChannelState, isNew: bool, sid: string, did: Option<string>, role: Option<string>, now: nat): (r: ChannelState)
    ensures r.members == ch0.members + {sid}
    ensures r.key == ch0.key && r.bans == ch0.bans && r.inviteOnly == ch0.inviteOnly && r.invites == ch0.invites
    ensures r.remoteMembers == ch0.remoteMembers && r.topic == ch0.topic
  {
    var ch1 := ch0.(members := ch0.members + {sid});
    var ch2 := if isNew then NewChannelSetup(ch1, sid, did, now) else AutoOp(ch1, sid, did);
    if role.Some? then ApplyRole(ch2, sid, did, role.value) else ch2
  }

  /**
   * The existing-channel checks and the invite they spend: Err with the
   * numeric when a check fails, otherwise the table with the invite consumed
   * (only on a +i channel).
   */
  function AdmitStage(chans: map<string, ChannelState>, name: string, sid: string, nick: string, hostmask: string,
                      did: Option<string>, suppliedKey: Option<string>): (r: Result<map<string, ChannelState>, nat>)
    ensures r.Err? <==> !IsNewChannel(chans, name) && Admission(chans[name], sid, nick, hostmask, did, suppliedKey).Some?
    ensures r.Ok? ==> r.value.Keys == chans.Keys
    ensures r.Ok? && name in chans ==> r.value[name] == chans[name].(invites := r.value[name].invites)
  {
    if IsNewChannel(chans, name) then Ok(chans)
    else
      var adm := Admission(chans[name], sid, nick, hostmask, did, suppliedKey);
      if adm.Some? then Err(adm.value)
      else if chans[name].inviteOnly then Ok(chans[name := ConsumeInvites(chans[name], sid, did, nick)])
      else Ok(chans)
  }

  /** `handle_join` on the channel table. */
  function JoinSpec(chans: map<string, ChannelState>, name: string, sid: string, nick: string, hostmask: string,
                    did: Option<string>, suppliedKey: Option<string>, p: PolicyAnswer, now: nat): JoinOutcome
  {
    match AdmitStage(chans, name, sid, nick, hostmask, did, suppliedKey)
    case Err(code) => JoinOutcome(chans, Some(code))
    case Ok(chans1) =>
      match PolicyGate(p, did)
      case Err(code) => JoinOutcome(chans1, Some(code))
      case Ok(role) =>
        var ch0 := if name in chans1 then chans1[name] else DefaultChannel();
        JoinOutcome(chans1[name := JoinedEntry(ch0, IsNewChannel(chans, name), sid, did, role, now)], None)
  }

  /** A join is admitted exactly when the channel is new or passes the checks, and the policy gate lets it through. */
  lemma JoinAdmittedIff(chans: map<string, ChannelState>, name: string, sid: string, nick: string, hostmask: string,
                        did: Option<string>, suppliedKey: Option<string>, p: PolicyAnswer, now: nat)
    ensures var r := JoinSpec(chans, name, sid, nick, hostmask, did, suppliedKey, p, now);
      r.rejected.None? <==> (IsNewChannel(chans, name) || Admission(chans[name], sid, nick, hostmask, did, suppliedKey).None?)
                            && PolicyGate(p, did).Ok?
    ensures var r := JoinSpec(chans, name, sid, nick, hostmask, did, suppliedKey, p, now);
      r.rejected.None? ==> name in r.chans && sid in r.chans[name].members
  {
  }

  /** A refused join changes nobody's membership or modes; at most the invitation was spent. */
  lemma JoinRefusedKeepsChannel(chans: map<string, ChannelState>, name: string, sid: string, nick: string, hostmask: string,
                                did: Option<string>, suppliedKey: Option<string>, p: PolicyAnswer, now: nat)
    ensures var r := JoinSpec(chans, name, sid, nick, hostmask, did, suppliedKey, p, now);
      r.rejected.Some? ==>
        (r.chans.Keys == chans.Keys
         && (name in chans ==> r.chans[name] == chans[name].(invites := r.chans[name].invites))
         && (forall k :: k in chans && k != name ==> r.chans[k] == chans[k]))
  {
  }

  /** A new channel makes the joiner op with +n and +t; an authenticated joiner becomes founder and a DID op. */
  lemma NewChannelFounder(chans: map<string, ChannelState>, name: string, sid: string, nick: string, hostmask: string,
                          did: Option<string>, suppliedKey: Option<string>, p: PolicyAnswer, now: nat)
    requires IsNewChannel(chans, name) && PolicyGate(p, did).Ok?
    ensures var r := JoinSpec(chans, name, sid, nick, hostmask, did, suppliedKey, p, now);
      r.rejected.None? && sid in r.chans[name].ops && r.chans[name].noExtMsg && r.chans[name].topicLocked
      && r.chans[name].createdAt == now
      && (did.Some? ==> r.chans[name].founderDid == did && did.value in r.chans[name].didOps)
  {
    var ch0 := if name in chans then chans[name] else DefaultChannel();
    var role := PolicyGate(p, did).value;
    NewEntryFounder(ch0, sid, did, role, now);
  }

  lemma NewEntryFounder(ch0: ChannelState, sid: string, did: Option<string>, role: Option<string>, now: nat)
    ensures var e := JoinedEntry(ch0, true, sid, did, role, now);
      sid in e.ops && e.noExtMsg && e.topicLocked && e.createdAt == now
      && (did.Some? ==> e.founderDid == did && did.value in e.didOps)
  {
  }

  /** `members.len() == 1` after the insert means the joiner is alone. */
  lemma AloneAfterInsert(members: set<string>, sid: string)
    ensures |members + {sid}| == 1 <==> members <= {sid}
  {
    if members <= {sid} {
      assert members + {sid} == {sid};
    } else {
      var x :| x in members && x != sid;
      assert {x, sid} <= members + {sid};
      assert |{x, sid}| == 2;
      SubsetCard({x, sid}, members + {sid});
    }
  }

  lemma SubsetCard(a: set<string>, b: set<string>)
    requires a <= b
    ensures |a| <= |b|
  {
    assert b == a + (b - a);
  }

  /** The auto-op rule on the entry itself, stated on the channel before the joiner was added. */
  lemma AutoOpEntry(ch: ChannelState, sid: string, did: Option<string>, now: nat)
    ensures sid in JoinedEntry(ch, false, sid, did, None, now).ops <==>
        sid in ch.ops
        || (did.Some? && (ch.founderDid == did || did.value in ch.didOps))
        || (ch.members <= {sid} && ch.remoteMembers == map[] && ch.ops == {})
  {
    AloneAfterInsert(ch.members, sid);
  }

  /**
   * On an existing channel with no attested role, the joiner is opped iff it
   * already was, its DID is the founder or a DID op, or it is alone with no
   * remote members and no ops.
   */
  lemma AutoOpIff(chans: map<string, ChannelState>, name: string, sid: string, nick: string, hostmask: string,
                  did: Option<string>, suppliedKey: Option<string>, p: PolicyAnswer, now: nat)
    requires !IsNewChannel(chans, name) && PolicyGate(p, did) == Ok(None)
    requires Admission(chans[name], sid, nick, hostmask, did, suppliedKey).None?
    ensures var r := JoinSpec(chans, name, sid, nick, hostmask, did, suppliedKey, p, now);
      var ch := chans[name];
      r.rejected.None? &&
      (sid in r.chans[name].ops <==>
        sid in ch.ops
        || (did.Some? && (ch.founderDid == did || did.value in ch.didOps))
        || (ch.members <= {sid} && ch.remoteMembers == map[] && ch.ops == {}))
  {
    var chans1 := AdmitStage(chans, name, sid, nick, hostmask, did, suppliedKey).value;
    AutoOpEntry(chans1[name], sid, did, now);
  }

  /** An attested op-like role makes the joiner op and its DID a persistent op. */
  lemma AttestedOpRole(chans: map<string, ChannelState>, name: string, sid: string, nick: string, hostmask: string,
                       did: Option<string>, suppliedKey: Option<string>, p: PolicyAnswer, now: nat)
    requires IsNewChannel(chans, name) || Admission(chans[name], sid, nick, hostmask, did, suppliedKey).None?
    requires p.Gated? && did.Some? && p.membership.Ok? && p.membership.value.Some? && IsOpRole(p.membership.value.value)
    ensures var r := JoinSpec(chans, name, sid, nick, hostmask, did, suppliedKey, p, now);
      r.rejected.None? && sid in r.chans[name].ops && did.value in r.chans[name].didOps
  {
  }

  /** A guest cannot join a policy-gated channel. */
  lemma GuestRefusedByPolicy(chans: map<string, ChannelState>, name: string, sid: string, nick: string, hostmask: string,
                             suppliedKey: Option<string>, m: Result<Option<string>, string>, now: nat)
    ensures JoinSpec(chans, name, sid, nick, hostmask, None, suppliedKey, Gated(m), now).rejected.Some?
  {
  }

  /**
   * Passing the +i check spends the invitation before the policy gate runs,
   * so the invite is gone even when the gate then refuses the join.
   */
  lemma InviteSpentBeforePolicy(chans: map<string, ChannelState>, name: string, sid: string, nick: string, hostmask: string,
                                did: Option<string>, suppliedKey: Option<string>, p: PolicyAnswer, now: nat)
    requires !IsNewChannel(chans, name) && chans[name].inviteOnly
    requires Admission(chans[name], sid, nick, hostmask, did, suppliedKey).None?
    ensures var r := JoinSpec(chans, name, sid, nick, hostmask, did, suppliedKey, p, now);
      r.chans[name].invites == chans[name].invites - InviteForms(sid, did, nick)
      && !HasInvite(r.chans[name].invites, sid, did, nick)
  {
  }

  /** An invitation is single-use: the same user joining again (still +i, same key and bans) is refused with 473. */
  lemma InviteSingleUse(chans: map<string, ChannelState>, name: string, sid: string, nick: string, hostmask: string,
                        did: Option<string>, suppliedKey: Option<string>, p: PolicyAnswer, now: nat)
    requires !IsNewChannel(chans, name) && chans[name].inviteOnly
    requires Admission(chans[name], sid, nick, hostmask, did, suppliedKey).None?
    ensures var r := JoinSpec(chans, name, sid, nick, hostmask, did, suppliedKey, p, now);
      Admission(r.chans[name], sid, nick, hostmask, did, suppliedKey) == Some(ERR_INVITEONLYCHAN)
  {
    var r := JoinSpec(chans, name, sid, nick, hostmask, did, suppliedKey, p, now);
    var c := ConsumeInvites(chans[name], sid, did, nick);
    assert r.chans[name].key == c.key && r.chans[name].bans == c.bans;
    assert r.chans[name].inviteOnly && r.chans[name].invites == c.invites;
  }

  // ---------------------------------------------------------------------
  // MODE query

  /** Position of a mode letter in the reply order `n t i m k`. */
  function ModeRank(c: char): nat
  {
    if c == 'n' then 0 else if c == 't' then 1 else if c == 'i' then 2 else if c == 'm' then 3 else 4
  }

  /** The letters of `cs` whose flag in `bs` is set, in the order of `cs`. */
  function SetFlags(bs: seq<bool>, cs: string): string
    requires |bs| == |cs|
  {
    if cs == [] then [] else (if bs[0] then [cs[0]] else []) + SetFlags(bs[1..], cs[1..])
  }

  /** Every chosen letter comes from `cs`. */
  lemma {:induction false} SetFlagsFrom(bs: seq<bool>, cs: string)
    requires |bs| == |cs|
    ensures forall k :: 0 <= k < |SetFlags(bs, cs)| ==> SetFlags(bs, cs)[k] in cs
  {
    if cs != [] {
      SetFlagsFrom(bs[1..], cs[1..]);
      var rest := SetFlags(bs[1..], cs[1..]);
      var h: string := if bs[0] then [cs[0]] else [];
      assert SetFlags(bs, cs) == h + rest;
      forall k | 0 <= k < |h + rest| ensures (h + rest)[k] in cs {
        if k >= |h| {
          assert rest[k - |h|] in cs[1..];
        }
      }
    }
  }

  /** Over letters listed in rank order, the chosen letters come out in rank order. */
  lemma {:induction false} SetFlagsOrdered(bs: seq<bool>, cs: string)
    requires |bs| == |cs|
    requires forall i, j :: 0 <= i < j < |cs| ==> ModeRank(cs[i]) < ModeRank(cs[j])
    ensures forall i, j :: 0 <= i < j < |SetFlags(bs, cs)| ==> ModeRank(SetFlags(bs, cs)[i]) < ModeRank(SetFlags(bs, cs)[j])
  {
    if cs != [] {
      SetFlagsOrdered(bs[1..], cs[1..]);
      SetFlagsFrom(bs[1..], cs[1..]);
      var rest := SetFlags(bs[1..], cs[1..]);
      var h: string := if bs[0] then [cs[0]] else [];
      assert SetFlags(bs, cs) == h + rest;
      forall k | 0 <= k < |rest| ensures ModeRank(cs[0]) < ModeRank(rest[k]) {
        assert rest[k] in cs[1..];
        var i :| 0 <= i < |cs[1..]| && cs[1..][i] == rest[k];
        assert cs[i + 1] == rest[k];
      }
      forall i, j | 0 <= i < j < |h + rest| ensures ModeRank((h + rest)[i]) < ModeRank((h + rest)[j]) {
        assert (h + rest)[j] == rest[j - |h|];
        if i >= |h| { assert (h + rest)[i] == rest[i - |h|]; } else { assert (h + rest)[i] == cs[0]; }
      }
    }
  }

  /** Over letters listed in rank order, a letter is chosen exactly when its flag is set. */
  lemma {:induction false} SetFlagsChosen(bs: seq<bool>, cs: string)
    requires |bs| == |cs|
    requires forall i, j :: 0 <= i < j < |cs| ==> ModeRank(cs[i]) < ModeRank(cs[j])
    ensures forall i :: 0 <= i < |cs| ==> (cs[i] in SetFlags(bs, cs) <==> bs[i])
  {
    if cs != [] {
      SetFlagsChosen(bs[1..], cs[1..]);
      SetFlagsFrom(bs[1..], cs[1..]);
      var rest := SetFlags(bs[1..], cs[1..]);
      var h: string := if bs[0] then [cs[0]] else [];
      assert SetFlags(bs, cs) == h + rest;
      forall k | 0 <= k < |rest| ensures rest[k] != cs[0] {
        assert rest[k] in cs[1..];
        var i :| 0 <= i < |cs[1..]| && cs[1..][i] == rest[k];
        assert cs[i + 1] == rest[k];
        assert ModeRank(cs[0]) < ModeRank(cs[i + 1]);
      }
      forall i | 0 <= i < |cs| ensures (cs[i] in h + rest <==> bs[i]) {
        if i > 0 {
          assert cs[i] == cs[1..][i - 1] && bs[i] == bs[1..][i - 1];
          assert ModeRank(cs[0]) < ModeRank(cs[i]);
        }
      }
    }
  }

  /** The RPL_CHANNELMODEIS string: `+` then the set flags among n, t, i, m, k in that order. */
  function ModeQuery(ch: ChannelState): (r: string)
    ensures |r| >= 1 && r[0] == '+'
    ensures 'n' in r[1..] <==> ch.noExtMsg
    ensures 't' in r[1..] <==> ch.topicLocked
    ensures 'i' in r[1..] <==> ch.inviteOnly
    ensures 'm' in r[1..] <==> ch.moderated
    ensures 'k' in r[1..] <==> ch.key.Some?
    ensures forall i :: 1 <= i < |r| ==> r[i] in "ntimk"
    ensures forall i, j :: 1 <= i < j < |r| ==> ModeRank(r[i]) < ModeRank(r[j])
  {
    var cs := "ntimk";
    assert cs[0] == 'n' && cs[1] == 't' && cs[2] == 'i' && cs[3] == 'm' && cs[4] == 'k';
    var bs := [ch.noExtMsg, ch.topicLocked, ch.inviteOnly, ch.moderated, ch.key.Some?];
    SetFlagsFrom(bs, cs);
    SetFlagsOrdered(bs, cs);
    SetFlagsChosen(bs, cs);
    var f := SetFlags(bs, cs);
    assert ("+" + f)[1..] == f;
    "+" + f
  }

  // ---------------------------------------------------------------------
  // MODE changes

  /** How `resolve_channel_target` placed the o/v argument. */
  datatype ChannelTarget = LocalMember(sid: string) | RemoteTarget(member: RemoteMember) | NotPresent

  /** The fixed inputs of one MODE command: argument, resolved target, session DIDs, and reply context. */
  datatype ModeContext = ModeContext(
    arg: Option<string>, target: ChannelTarget, dids: map<string, string>,
    nick: string, channel: string, hostmask: string, now: nat)

  /** One mode letter's effect; `stop` when the handler returns there. */
  datatype ModeStep = ModeStep(ch: ChannelState, replies: seq<Reply>, stop: bool)

  /** The persistent DID op list on +o/-o; the founder is never removed. */
  function DidOpsChange(ch: ChannelState, did: string, adding: bool): (r: ChannelState)
    ensures r == ch.(didOps := r.didOps)
    ensures ch.founderDid.Some? && ch.founderDid.value in ch.didOps ==> ch.founderDid.value in r.didOps
  {
    if !adding && ch.founderDid == Some(did) then ch
    else if adding then ch.(didOps := ch.didOps + {did})
    else ch.(didOps := ch.didOps - {did})
  }

  /** +o/-o/+v/-v on a resolved target. */
  function TargetChange(ch: ChannelState, c: char, adding: bool, targetNick: string, ctx: ModeContext): (r: ModeStep)
    ensures r.ch.members == ch.members && r.ch.founderDid == ch.founderDid && r.ch.bans == ch.bans
    ensures ch.founderDid.Some? && ch.founderDid.value in ch.didOps ==> ch.founderDid.value in r.ch.didOps
  {
    match ctx.target
    case LocalMember(t) =>
      var ch1 := if c == 'o' then ch.(ops := if adding then ch.ops + {t} else ch.ops - {t})
                 else ch.(voiced := if adding then ch.voiced + {t} else ch.voiced - {t});
      var ch2 := if c == 'o' && t in ctx.dids then DidOpsChange(ch1, ctx.dids[t], adding) else ch1;
      ModeStep(ch2, [], false)
    case RemoteTarget(rm) =>
      var ch1 := if c == 'o' && targetNick in ch.remoteMembers
                 then ch.(remoteMembers := ch.remoteMembers[targetNick := ch.remoteMembers[targetNick].(isOp := adding)])
                 else ch;
      var ch2 := if c == 'o' && rm.did.Some? then DidOpsChange(ch1, rm.did.value, adding) else ch1;
      ModeStep(ch2, [], false)
    case NotPresent =>
      ModeStep(ch, [Reply(ERR_USERNOTINCHANNEL, [ctx.nick, targetNick, ctx.channel])], true)
  }

  /** `bans.retain(|b| b.mask != mask)`. */
  function WithoutMask(bans: seq<BanEntry>, mask: string): (r: seq<BanEntry>)
    ensures !HasBanMask(r, mask)
    ensures forall b :: b in r <==> b in bans && b.mask != mask
    ensures |r| <= |bans|
    ensures DistinctMasks(bans) ==> DistinctMasks(r)
  {
    if bans == [] then []
    else if bans[0].mask == mask then WithoutMask(bans[1..], mask)
    else [bans[0]] + WithoutMask(bans[1..], mask)
  }

  function BanList(bans: seq<BanEntry>, nick: string, channel: string): (r: seq<Reply>)
    ensures |r| == |bans|
    ensures forall i :: 0 <= i < |bans| ==>
      r[i] == Reply(RPL_BANLIST, [nick, channel, bans[i].mask, bans[i].setBy, DecimalString(bans[i].setAt)])
  {
    if bans == [] then []
    else [Reply(RPL_BANLIST, [nick, channel, bans[0].mask, bans[0].setBy, DecimalString(bans[0].setAt)])]
         + BanList(bans[1..], nick, channel)
  }

  /** +b/-b: list without argument, add a mask that is not there yet, or drop every entry with the mask. */
  function BanChange(ch: ChannelState, adding: bool, ctx: ModeContext): (r: ModeStep)
    ensures r.ch == ch.(bans := r.ch.bans)
    ensures DistinctMasks(ch.bans) ==> DistinctMasks(r.ch.bans)
  {
    if !adding && ctx.arg.None? then ModeStep(ch, [], true)
    else if adding && ctx.arg.None? then
      ModeStep(ch, BanList(ch.bans, ctx.nick, ctx.channel) + [Reply(RPL_ENDOFBANLIST, [ctx.nick, ctx.channel])], true)
    else if adding then
      if HasBanMask(ch.bans, ctx.arg.value) then ModeStep(ch, [], false)
      else ModeStep(ch.(bans := ch.bans + [BanEntry(ctx.arg.value, ctx.hostmask, ctx.now)]), [], false)
    else ModeStep(ch.(bans := WithoutMask(ch.bans, ctx.arg.value)), [], false)
  }

  /** One mode letter other than `+`/`-`. */
  function ModeChar(ch: ChannelState, c: char, adding: bool, ctx: ModeContext): ModeStep
  {
    if c == 'o' || c == 'v' then
      if ctx.arg.None? then ModeStep(ch, [Reply(ERR_NEEDMOREPARAMS, [ctx.nick, "MODE"])], true)
      else TargetChange(ch, c, adding, ctx.arg.value, ctx)
    else if c == 'b' then BanChange(ch, adding, ctx)
    else if c == 'i' then ModeStep(ch.(inviteOnly := adding, invites := if adding then ch.invites else {}), [], false)
    else if c == 't' then ModeStep(ch.(topicLocked := adding), [], false)
    else if c == 'k' then
      if !adding then ModeStep(ch.(key := None), [], false)
      else if ctx.arg.None? then ModeStep(ch, [Reply(ERR_NEEDMOREPARAMS, [ctx.nick, "MODE"])], true)
      else ModeStep(ch.(key := ctx.arg), [], false)
    else if c == 'n' then ModeStep(ch.(noExtMsg := adding), [], false)
    else if c == 'm' then ModeStep(ch.(moderated := adding), [], false)
    else ModeStep(ch, [Reply(ERR_UNKNOWNMODE, [ctx.nick, [c]])], false)
  }

  /** The mode-string loop: `+`/`-` switch `adding`, every other letter applies, a stopping letter ends the command. */
  function ModeRun(ch: ChannelState, s: string, adding: bool, out: seq<Reply>, ctx: ModeContext): (ChannelState, seq<Reply>)
    decreases |s|
  {
    if s == [] then (ch, out)
    else if s[0] == '+' then ModeRun(ch, s[1..], true, out, ctx)
    else if s[0] == '-' then ModeRun(ch, s[1..], false, out, ctx)
    else
      var st := ModeChar(ch, s[0], adding, ctx);
      if st.stop then (st.ch, out + st.replies)
      else ModeRun(st.ch, s[1..], adding, out + st.replies, ctx)
  }

  /** What no mode letter may change: membership, the founder and its DID op, and distinct ban masks. */
  predicate KeepsRoster(a: ChannelState, b: ChannelState)
  {
    b.members == a.members && b.founderDid == a.founderDid
    && (a.founderDid.Some? && a.founderDid.value in a.didOps ==> a.founderDid.value in b.didOps)
    && (DistinctMasks(a.bans) ==> DistinctMasks(b.bans))
  }

  lemma FlagCharKeeps(ch: ChannelState, c: char, adding: bool, ctx: ModeContext)
    requires c != 'o' && c != 'v' && c != 'b'
    ensures var r := ModeChar(ch, c, adding, ctx).ch;
      r.members == ch.members && r.founderDid == ch.founderDid && r.didOps == ch.didOps && r.bans == ch.bans
  {
    if c == 'i' {
      InviteCharKeeps(ch, adding, ctx);
    } else if c == 'k' {
      KeyCharKeeps(ch, adding, ctx);
    } else {
      OtherCharKeeps(ch, c, adding, ctx);
    }
  }

  lemma InviteCharKeeps(ch: ChannelState, adding: bool, ctx: ModeContext)
    ensures var r := ModeChar(ch, 'i', adding, ctx).ch;
      r.members == ch.members && r.founderDid == ch.founderDid && r.didOps == ch.didOps && r.bans == ch.bans
  {
  }

  lemma KeyCharKeeps(ch: ChannelState, adding: bool, ctx: ModeContext)
    ensures var r := ModeChar(ch, 'k', adding, ctx).ch;
      r.members == ch.members && r.founderDid == ch.founderDid && r.didOps == ch.didOps && r.bans == ch.bans
  {
  }

  lemma OtherCharKeeps(ch: ChannelState, c: char, adding: bool, ctx: ModeContext)
    requires c !in "ovbik"
    ensures var r := ModeChar(ch, c, adding, ctx).ch;
      r.members == ch.members && r.founderDid == ch.founderDid && r.didOps == ch.didOps && r.bans == ch.bans
  {
    if c == 't' || c == 'n' || c == 'm' {
      SwitchCharKeeps(ch, c, adding, ctx);
    } else {
      assert ModeChar(ch, c, adding, ctx).ch == ch;
    }
  }

  lemma SwitchCharKeeps(ch: ChannelState, c: char, adding: bool, ctx: ModeContext)
    requires c == 't' || c == 'n' || c == 'm'
    ensures var r := ModeChar(ch, c, adding, ctx).ch;
      r.members == ch.members && r.founderDid == ch.founderDid && r.didOps == ch.didOps && r.bans == ch.bans
  {
  }

  /** One letter keeps the roster. */
  lemma ModeCharKeeps(ch: ChannelState, c: char, adding: bool, ctx: ModeContext)
    ensures KeepsRoster(ch, ModeChar(ch, c, adding, ctx).ch)
  {
    if c == 'o' || c == 'v' {
    } else if c == 'b' {
    } else {
      FlagCharKeeps(ch, c, adding, ctx);
    }
  }

  /** A whole MODE command never changes membership or the founder, never drops the founder's DID op, and keeps ban masks distinct. */
  lemma {:induction false} ModeRunKeeps(ch: ChannelState, s: string, adding: bool, out: seq<Reply>, ctx: ModeContext)
    ensures var r := ModeRun(ch, s, adding, out, ctx).0;
      r.members == ch.members && r.founderDid == ch.founderDid
      && (ch.founderDid.Some? && ch.founderDid.value in ch.didOps ==> ch.founderDid.value in r.didOps)
      && (DistinctMasks(ch.bans) ==> DistinctMasks(r.bans))
    decreases |s|
  {
    if s != [] {
      if s[0] == '+' {
        ModeRunKeeps(ch, s[1..], true, out, ctx);
      } else if s[0] == '-' {
        ModeRunKeeps(ch, s[1..], false, out, ctx);
      } else {
        var st := ModeChar(ch, s[0], adding, ctx);
        ModeCharKeeps(ch, s[0], adding, ctx);
        if !st.stop {
          ModeRunKeeps(st.ch, s[1..], adding, out + st.replies, ctx);
        }
      }
    }
  }

  /** `+b mask` leaves exactly one way to find the mask: added once, never twice. */
  lemma AddBanNoDuplicate(ch: ChannelState, ctx: ModeContext)
    requires ctx.arg.Some? && DistinctMasks(ch.bans)
    ensures var r := ModeChar(ch, 'b', true, ctx).ch;
      HasBanMask(r.bans, ctx.arg.value) && DistinctMasks(r.bans)
      && (HasBanMask(ch.bans, ctx.arg.value) ==> r.bans == ch.bans)
  {
    var m := ctx.arg.value;
    if !HasBanMask(ch.bans, m) {
      var r := ch.bans + [BanEntry(m, ctx.hostmask, ctx.now)];
      assert r[|ch.bans|].mask == m;
    }
  }

  /** `-b mask` removes every entry with that mask and keeps all others. */
  lemma RemoveBanAll(ch: ChannelState, ctx: ModeContext)
    requires ctx.arg.Some?
    ensures var r := ModeChar(ch, 'b', false, ctx).ch;
      !HasBanMask(r.bans, ctx.arg.value)
      && (forall b :: b in r.bans <==> b in ch.bans && b.mask != ctx.arg.value)
  {
  }

  /** `-i` lifts invite-only and forgets every pending invitation; `+i` keeps them. */
  lemma InviteOnlyOff(ch: ChannelState, ctx: ModeContext)
    ensures ModeChar(ch, 'i', false, ctx).ch.invites == {} && !ModeChar(ch, 'i', false, ctx).ch.inviteOnly
    ensures ModeChar(ch, 'i', true, ctx).ch.invites == ch.invites && ModeChar(ch, 'i', true, ctx).ch.inviteOnly
  {
  }

  /** `-o` on the founder, local or remote, leaves the DID op list as it was. */
  lemma FounderDeopIgnored(ch: ChannelState, ctx: ModeContext, targetNick: string)
    requires ctx.arg == Some(targetNick) && ch.founderDid.Some?
    requires (ctx.target.LocalMember? && ctx.target.sid in ctx.dids && ctx.dids[ctx.target.sid] == ch.founderDid.value)
          || (ctx.target.RemoteTarget? && ctx.target.member.did == ch.founderDid)
    ensures ModeChar(ch, 'o', false, ctx).ch.didOps == ch.didOps
  {
  }

  // ---------------------------------------------------------------------
  // KICK, INVITE, TOPIC, PART

  /** A kicked local target leaves the member, op and voice sets; nothing else changes. */
  function KickLocal(ch: ChannelState, target: string): (r: ChannelState)
    ensures target !in r.members && target !in r.ops && target !in r.voiced
    ensures r.members == ch.members - {target} && r.ops == ch.ops - {target} && r.voiced == ch.voiced - {target}
  {
    ch.(members := ch.members - {target}, ops := ch.ops - {target}, voiced := ch.voiced - {target})
  }

  /** How `resolve_network_target` placed the INVITE target. */
  datatype NetworkTarget = LocalUser(sid: string) | RemoteUser(did: Option<string>) | Unknown

  /** INVITE records the local target's session and DID, or the remote target's DID and `nick:<nick>`. */
  function InviteEffect(ch: ChannelState, target: NetworkTarget, targetNick: string, dids: map<string, string>): ChannelState
  {
    match target
    case LocalUser(t) => ch.(invites := ch.invites + {t} + (if t in dids then {dids[t]} else {}))
    case RemoteUser(d) => ch.(invites := ch.invites + (if d.Some? then {d.value} else {}) + {"nick:" + targetNick})
    case Unknown => ch
  }

  /** An invited local session passes the +i check when the key and bans let it through. */
  lemma InviteThenJoinLocal(ch: ChannelState, t: string, targetNick: string, dids: map<string, string>,
                            nick: string, hostmask: string, did: Option<string>, suppliedKey: Option<string>)
    requires !(ch.key.Some? && suppliedKey != ch.key) && !IsBanned(ch.bans, hostmask, did)
    ensures Admission(InviteEffect(ch, LocalUser(t), targetNick, dids), t, nick, hostmask, did, suppliedKey).None?
  {
    assert t in InviteEffect(ch, LocalUser(t), targetNick, dids).invites;
  }

  /** A remote invitee passes the +i check under the invited nick, whatever session it later joins from. */
  lemma InviteThenJoinRemote(ch: ChannelState, d: Option<string>, targetNick: string, dids: map<string, string>,
                             sid: string, hostmask: string, did: Option<string>, suppliedKey: Option<string>)
    requires !(ch.key.Some? && suppliedKey != ch.key) && !IsBanned(ch.bans, hostmask, did)
    ensures Admission(InviteEffect(ch, RemoteUser(d), targetNick, dids), sid, targetNick, hostmask, did, suppliedKey).None?
  {
    assert "nick:" + targetNick in InviteEffect(ch, RemoteUser(d), targetNick, dids).invites;
  }

  function SetTopic(ch: ChannelState, text: string, hostmask: string, now: nat): ChannelState
  {
    ch.(topic := Some(TopicInfo(text, hostmask, now)))
  }

  /** The TOPIC query replies: 332 and 333 when a topic is set, 331 otherwise. */
  function TopicQuery(ch: ChannelState, nick: string, channel: string): (r: seq<Reply>)
    ensures ch.topic.None? <==> |r| == 1
    ensures ch.topic.None? ==> r[0].code == RPL_NOTOPIC
  {
    match ch.topic
    case None => [Reply(RPL_NOTOPIC, [nick, channel])]
    case Some(t) => [Reply(RPL_TOPIC, [nick, channel, t.text]),
                     Reply(RPL_TOPICWHOTIME, [nick, channel, t.setBy, DecimalString(t.setAt)])]
  }

  /** Setting a topic and then querying it returns the text and who set it. */
  lemma TopicSetThenQuery(ch: ChannelState, text: string, hostmask: string, now: nat, nick: string, channel: string)
    ensures TopicQuery(SetTopic(ch, text, hostmask, now), nick, channel)
      == [Reply(RPL_TOPIC, [nick, channel, text]), Reply(RPL_TOPICWHOTIME, [nick, channel, hostmask, DecimalString(now)])]
  {
  }

  // ---------------------------------------------------------------------
  // The handlers over the shared channel table

  class ChannelTable {
    var channels: map<string, ChannelState>
    var sessionDids: map<string, string>

    constructor (dids: map<string, string>)
      ensures channels == map[] && sessionDids == dids
    {
      channels := map[];
      sessionDids := dids;
    }

    /** `handle_join`: the rejection numeric, if any, and the new table. */
    method Join(name: string, sid: string, nick: string, hostmask: string, did: Option<string>,
                suppliedKey: Option<string>, p: PolicyAnswer, now: nat) returns (rejected: Option<nat>)
      modifies this
      ensures sessionDids == old(sessionDids)
      ensures channels == JoinSpec(old(channels), name, sid, nick, hostmask, did, suppliedKey, p, now).chans
      ensures rejected == JoinSpec(old(channels), name, sid, nick, hostmask, did, suppliedKey, p, now).rejected
    {
      var isNew := IsNewChannel(channels, name);
      var admit := AdmitStage(channels, name, sid, nick, hostmask, did, suppliedKey);
      if admit.Err? {
        rejected := Some(admit.error);
        return;
      }
      channels := admit.value;
      var gate := PolicyGate(p, did);
      if gate.Err? {
        rejected := Some(gate.error);
        return;
      }
      var ch := if name in channels then channels[name] else DefaultChannel();
      channels := channels[name := JoinedEntry(ch, isNew, sid, did, gate.value, now)];
      rejected := None;
    }

    /** `handle_mode`: query without a mode string, otherwise the letter loop for a channel op. */
    method Mode(name: string, sid: string, modeStr: Option<string>, ctx: ModeContext) returns (replies: seq<Reply>)
      modifies this
      ensures sessionDids == old(sessionDids)
      ensures !InChannel(old(channels), name, sid) ==>
        replies == [Reply(ERR_NOTONCHANNEL, [ctx.nick, name])] && channels == old(channels)
      ensures InChannel(old(channels), name, sid) && modeStr.None? ==>
        replies == [Reply(RPL_CHANNELMODEIS, [ctx.nick, name, ModeQuery(old(channels)[name])])] && channels == old(channels)
      ensures InChannel(old(channels), name, sid) && modeStr.Some? && !IsChanOp(old(channels), name, sid) ==>
        replies == [Reply(ERR_CHANOPRIVSNEEDED, [ctx.nick, name])] && channels == old(channels)
      ensures InChannel(old(channels), name, sid) && modeStr.Some? && IsChanOp(old(channels), name, sid) ==>
        var r := ModeRun(old(channels)[name], modeStr.value, true, [], ctx);
        channels == old(channels)[name := r.0] && replies == r.1
    {
      if !InChannel(channels, name, sid) {
        return [Reply(ERR_NOTONCHANNEL, [ctx.nick, name])];
      }
      if modeStr.None? {
        return [Reply(RPL_CHANNELMODEIS, [ctx.nick, name, ModeQuery(channels[name])])];
      }
      if !IsChanOp(channels, name, sid) {
        return [Reply(ERR_CHANOPRIVSNEEDED, [ctx.nick, name])];
      }
      var s := modeStr.value;
      var ch0 := channels[name];
      var ch := ch0;
      var adding := true;
      replies := [];
      var i := 0;
      while i < |s|
        invariant 0 <= i <= |s|
        invariant ModeRun(ch, s[i..], adding, replies, ctx) == ModeRun(ch0, s, true, [], ctx)
      {
        if s[i] == '+' {
          adding := true;
        } else if s[i] == '-' {
          adding := false;
        } else {
          var st := ModeChar(ch, s[i], adding, ctx);
          ch := st.ch;
          replies := replies + st.replies;
          if st.stop {
            channels := channels[name := ch];
            return;
          }
        }
        assert s[i..][1..] == s[i + 1..];
        i := i + 1;
      }
      channels := channels[name := ch];
    }

    /** `handle_kick`: the kicker must be a member (442) and an op (482); the target leaves the roster. */
    method Kick(name: string, sid: string, nick: string, targetNick: string, target: ChannelTarget)
      returns (replies: seq<Reply>)
      modifies this
      ensures sessionDids == old(sessionDids)
      ensures !InChannel(old(channels), name, sid) ==>
        replies == [Reply(ERR_NOTONCHANNEL, [nick, name])] && channels == old(channels)
      ensures InChannel(old(channels), name, sid) && !IsChanOp(old(channels), name, sid) ==>
        replies == [Reply(ERR_CHANOPRIVSNEEDED, [nick, name])] && channels == old(channels)
      ensures InChannel(old(channels), name, sid) && IsChanOp(old(channels), name, sid) ==>
        match target
        case LocalMember(t) => replies == [] && channels == old(channels)[name := KickLocal(old(channels)[name], t)]
        case RemoteTarget(_) =>
          replies == [] && name in channels && channels == old(channels)[name := channels[name]]
          && channels[name] == old(channels)[name].(remoteMembers := channels[name].remoteMembers)
          && (HasRemoteMember(old(channels)[name].remoteMembers, targetNick) ==>
                exists k | k in old(channels)[name].remoteMembers :: NickEq(k, targetNick)
                  && channels[name].remoteMembers == old(channels)[name].remoteMembers - {k})
          && (!HasRemoteMember(old(channels)[name].remoteMembers, targetNick) ==> channels == old(channels))
        case NotPresent =>
          replies == [Reply(ERR_USERNOTINCHANNEL, [nick, targetNick, name])] && channels == old(channels)
    {
      if !InChannel(channels, name, sid) {
        return [Reply(ERR_NOTONCHANNEL, [nick, name])];
      }
      if !IsChanOp(channels, name, sid) {
        return [Reply(ERR_CHANOPRIVSNEEDED, [nick, name])];
      }
      match target
      case LocalMember(t) =>
        channels := channels[name := KickLocal(channels[name], t)];
        replies := [];
      case RemoteTarget(_) =>
        var ch, removed := RemoveRemoteMember(channels[name], targetNick);
        channels := channels[name := ch];
        replies := [];
      case NotPresent =>
        replies := [Reply(ERR_USERNOTINCHANNEL, [nick, targetNick, name])];
    }

    /** `handle_invite`: members may invite, but only ops on a +i channel (482); an unknown nick gets 401. */
    method Invite(name: string, sid: string, nick: string, targetNick: string, target: NetworkTarget)
      returns (replies: seq<Reply>)
      modifies this
      ensures sessionDids == old(sessionDids)
      ensures !InChannel(old(channels), name, sid) ==>
        replies == [Reply(ERR_NOTONCHANNEL, [nick, name])] && channels == old(channels)
      ensures InChannel(old(channels), name, sid) && old(channels)[name].inviteOnly && !IsChanOp(old(channels), name, sid) ==>
        replies == [Reply(ERR_CHANOPRIVSNEEDED, [nick, name])] && channels == old(channels)
      ensures InChannel(old(channels), name, sid) && (!old(channels)[name].inviteOnly || IsChanOp(old(channels), name, sid)) ==>
        channels == old(channels)[name := InviteEffect(old(channels)[name], target, targetNick, sessionDids)]
        && replies == if target.Unknown? then [Reply(ERR_NOSUCHNICK, [nick, targetNick])]
                      else [Reply(RPL_INVITING, [nick, targetNick, name])]
    {
      if !InChannel(channels, name, sid) {
        return [Reply(ERR_NOTONCHANNEL, [nick, name])];
      }
      if channels[name].inviteOnly && !IsChanOp(channels, name, sid) {
        return [Reply(ERR_CHANOPRIVSNEEDED, [nick, name])];
      }
      channels := channels[name := InviteEffect(channels[name], target, targetNick, sessionDids)];
      if target.Unknown? {
        replies := [Reply(ERR_NOSUCHNICK, [nick, targetNick])];
      } else {
        replies := [Reply(RPL_INVITING, [nick, targetNick, name])];
      }
    }

    /** `handle_topic`: members query; setting on a +t channel needs op (482). */
    method Topic(name: string, sid: string, nick: string, hostmask: string, newTopic: Option<string>, now: nat)
      returns (replies: seq<Reply>)
      modifies this
      ensures sessionDids == old(sessionDids)
      ensures !InChannel(old(channels), name, sid) ==>
        replies == [Reply(ERR_NOTONCHANNEL, [nick, name])] && channels == old(channels)
      ensures InChannel(old(channels), name, sid) && newTopic.None? ==>
        replies == TopicQuery(old(channels)[name], nick, name) && channels == old(channels)
      ensures InChannel(old(channels), name, sid) && newTopic.Some? ==>
        if old(channels)[name].topicLocked && !IsChanOp(old(channels), name, sid) then
          replies == [Reply(ERR_CHANOPRIVSNEEDED, [nick, name])] && channels == old(channels)
        else
          replies == [] && channels == old(channels)[name := SetTopic(old(channels)[name], newTopic.value, hostmask, now)]
    {
      if !InChannel(channels, name, sid) {
        return [Reply(ERR_NOTONCHANNEL, [nick, name])];
      }
      if newTopic.None? {
        return TopicQuery(channels[name], nick, name);
      }
      if channels[name].topicLocked && !IsChanOp(channels, name, sid) {
        return [Reply(ERR_CHANOPRIVSNEEDED, [nick, name])];
      }
      channels := channels[name := SetTopic(channels[name], newTopic.value, hostmask, now)];
      replies := [];
    }

    /** `handle_part`: the session leaves the member set; no membership check. */
    method Part(name: string, sid: string)
      modifies this
      ensures sessionDids == old(sessionDids)
      ensures name in old(channels) ==>
        channels == old(channels)[name := old(channels)[name].(members := old(channels)[name].members - {sid})]
      ensures name !in old(channels) ==> channels == old(channels)
    {
      if name in channels {
        channels := channels[name := channels[name].(members := channels[name].members - {sid})];
      }
    }
  }
}
