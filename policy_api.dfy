// The HTTP face of the policy engine: channel-name normalisation and the
// mapping of a join outcome to a status code and a response body.

module PolicyApi {
  import opened Common
  import opened PolicyEval
  import opened PolicyEngine

  /** `normalize_channel`: prefix `#` when missing, then lowercase. */
  function NormalizeChannel(channel: string): (r: string)
    ensures |r| > 0 && r[0] == '#' && IsLowerStr(r)
    ensures |r| == if StartsWith(channel, "#") then |channel| else |channel| + 1
  {
    var ch := if StartsWith(channel, "#") then channel else "#" + channel;
    LowerStrIsLower(ch);
    LowerStr(ch)
  }

  /** The `#` is added only when missing: a name that has one keeps its (lowercased) text. */
  lemma NormalizeKeepsPrefixed(channel: string)
    requires StartsWith(channel, "#")
    ensures NormalizeChannel(channel) == LowerStr(channel)
  {
  }

  /** Normalising twice is normalising once. */
  lemma NormalizeIdempotent(channel: string)
    ensures NormalizeChannel(NormalizeChannel(channel)) == NormalizeChannel(channel)
  {
    var n := NormalizeChannel(channel);
    assert StartsWith(n, "#") by { assert n[..1] == "#"; }
    LowerStrOfLower(n);
  }

  /** The body of a join reply; absent fields are None. */
  datatype JoinResponse = JoinResponse(
    status: string,
    joinId: Option<string>,
    attestation: Option<Attestation>,
    error: Option<string>,
    missing: Option<seq<string>>)

  /** A reply: either a JSON body with a status code, or a plain-text error with a status code. */
  datatype Reply = JsonReply(code: nat, body: JoinResponse) | TextReply(code: nat, text: string)

  /** `join_channel`: the outcome of `process_join` (or its storage error) as an HTTP reply. */
  function JoinReply(outcome: Result<JoinResult, string>): (r: Reply)
    ensures outcome.Err? <==> r.TextReply?
    ensures outcome.Err? ==> r == TextReply(500, outcome.error)
    ensures outcome.Ok? && outcome.value.Confirmed? ==>
      r == JsonReply(200, JoinResponse("confirmed", Some(outcome.value.joinId), Some(outcome.value.attestation), None, None))
    ensures outcome == Ok(NoPolicy) <==> r == JsonReply(200, JoinResponse("open", None, None, None, None))
    ensures outcome.Ok? && outcome.value.Pending? ==>
      r == JsonReply(202, JoinResponse("pending", Some(outcome.value.pendingJoinId), None, None, Some(outcome.value.missing)))
    ensures outcome.Ok? && outcome.value.Failed? ==>
      r == JsonReply(403, JoinResponse("failed", None, None, Some(outcome.value.reason), None))
  {
    match outcome
    case Err(e) => TextReply(500, e)
    case Ok(Confirmed(att, id)) => JsonReply(200, JoinResponse("confirmed", Some(id), Some(att), None, None))
    case Ok(NoPolicy) => JsonReply(200, JoinResponse("open", None, None, None, None))
    case Ok(Pending(id, missing)) => JsonReply(202, JoinResponse("pending", Some(id), None, None, Some(missing)))
    case Ok(Failed(reason)) => JsonReply(403, JoinResponse("failed", None, None, Some(reason), None))
  }

  /** Only a confirmed join carries an attestation, and only a failed one an error text. */
  lemma ReplyFieldsMatchStatus(outcome: Result<JoinResult, string>)
    requires outcome.Ok?
    ensures JoinReply(outcome).JsonReply?
    ensures JoinReply(outcome).body.attestation.Some? <==> outcome.value.Confirmed?
    ensures JoinReply(outcome).body.error.Some? <==> outcome.value.Failed?
    ensures JoinReply(outcome).body.missing.Some? <==> outcome.value.Pending?
    ensures JoinReply(outcome).code == 200 <==> outcome.value.Confirmed? || outcome.value.NoPolicy?
  {
  }

  /**
   * A join submitted through the API runs the engine's join decision on the
   * normalised channel, and the reply reports that decision: "open" with no
   * policy, the re-used or newly issued attestation when admitted, and the
   * reason when refused.
   */
  method JoinChannel(e: Engine, channel: string, did: string, ev: UserEvidence, now: nat,
                     joinId: string, nonce: string, attestationId: string)
    returns (reply: Reply)
    modifies e
    ensures var nc := NormalizeChannel(channel);
      var d := JoinDecision(old(e.CurrentPolicy(nc)), old(e.AttestationOf(nc, did)), ev, now);
      (d.NoPolicyYet? ==> reply == JsonReply(200, JoinResponse("open", None, None, None, None)))
      && (d.Reuse? ==>
            reply == JsonReply(200, JoinResponse("confirmed", Some(d.existing.joinId.UnwrapOr("")), Some(d.existing), None, None)))
      && (d.Admit? ==>
            reply == JsonReply(200, JoinResponse("confirmed", Some(joinId),
                                                 Some(e.Issued(attestationId, nc, d.policy, did, d.role, joinId, now)), None, None)))
      && (d.Reject? ==> reply == JsonReply(403, JoinResponse("failed", None, None, Some(d.reason), None)))
    ensures var nc := NormalizeChannel(channel);
      var d := JoinDecision(old(e.CurrentPolicy(nc)), old(e.AttestationOf(nc, did)), ev, now);
      (d.Admit? ==>
         e.attestations == old(e.attestations)[(nc, did) := e.Issued(attestationId, nc, d.policy, did, d.role, joinId, now)]
         && e.receipts == old(e.receipts)[joinId := AdmitReceipt(nc, d.policy, joinId, did, now, nonce)]
         && e.joinStates == old(e.joinStates)[joinId := JoinConfirmed]
         && e.policies == old(e.policies) && e.authoritySets == old(e.authoritySets))
      && (!d.Admit? ==> unchanged(e))
  {
    var r := e.ProcessJoin(NormalizeChannel(channel), did, ev, now, joinId, nonce, attestationId);
    reply := JoinReply(Ok(r));
  }
}
