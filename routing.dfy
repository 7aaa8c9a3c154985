// Private-message routing: a nick is delivered locally when the nick map
// knows it, relayed to every S2S peer when federation is active, and is
// otherwise unreachable. Remote-member caches play no part in the decision.

module Routing {
  import opened Common
  import opened Server

  datatype RouteResult = Local(sid: string) | Relayed | Unreachable

  /** The PRIVMSG broadcast to S2S peers on a relay. */
  datatype RelayedPrivmsg = RelayedPrivmsg(
    eventId: string, from: string, target: string, text: string, origin: string,
    msgid: Option<string>, sig: Option<string>)

  datatype Routed = Routed(result: RouteResult, broadcast: Option<RelayedPrivmsg>)

  /**
   * `relay_to_nick`. `hasS2s` says whether an S2S manager exists, and
   * `originId` is the server's iroh id when known.
   */
  function RelayToNick(nicks: NickMap, hasS2s: bool, originId: Option<string>, from: string,
                       target: string, text: string, eventId: string): (r: Routed)
    reads nicks
    requires nicks.Valid()
    ensures r.result.Local? <==> nicks.GetSession(target).Some?
    ensures r.result.Local? ==> r.result.sid in nicks.sidToNick && NickEq(nicks.sidToNick[r.result.sid], target)
    ensures r.result == Relayed <==> nicks.GetSession(target).None? && hasS2s
    ensures r.result == Unreachable <==> nicks.GetSession(target).None? && !hasS2s
    ensures r.broadcast.Some? <==> r.result == Relayed
    ensures r.broadcast.Some? ==>
      r.broadcast.value.msgid.None? && r.broadcast.value.sig.None? &&
      r.broadcast.value.target == target && r.broadcast.value.text == text && r.broadcast.value.from == from
  {
    match nicks.GetSession(target)
    case Some(sid) => Routed(Local(sid), None)
    case None =>
      if hasS2s then
        Routed(Relayed, Some(RelayedPrivmsg(eventId, from, target, text, originId.UnwrapOr(""), None, None)))
      else Routed(Unreachable, None)
  }

  /** A nick known locally is delivered locally whatever its case, and never relayed. */
  lemma LocalNickNeverRelayed(nicks: NickMap, sid: string, hasS2s: bool, originId: Option<string>,
                              from: string, target: string, text: string, eventId: string)
    requires nicks.Valid()
    requires sid in nicks.sidToNick && NickEq(nicks.sidToNick[sid], target)
    ensures RelayToNick(nicks, hasS2s, originId, from, target, text, eventId) == Routed(Local(sid), None)
  {
    assert LowerStr(nicks.sidToNick[sid]) in nicks.nickToSid;
  }
}
