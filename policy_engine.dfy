// freeq-server/src/policy/engine.rs: channel policy creation and version
// chaining, the join flow (re-use of a live attestation, evaluation, receipt,
// role selection, attestation issue) and role escalation.  The SQLite store
// (policy/store.rs) is a set of maps; hashing and HMAC signing are functions
// fixed when the engine is built; the clock and the generated ids are
// parameters.

module PolicyEngine {
  import opened Common
  import opened PolicyEval

  datatype ValidityModel = JoinTime | Continuous

  datatype ReceiptEmbedding = Require | Allow | Forbid

  datatype CredentialEndpoint = CredentialEndpoint(issuer: string, url: string, labelText: string, description: Option<string>)

  /** A channel policy document; `policyId` is the hash of the document stored without it. */
  datatype PolicyDocument = PolicyDocument(
    channelId: string,
    policyId: Option<string>,
    version: int,
    effectiveAt: nat,
    previousPolicyHash: Option<string>,
    authoritySetHash: string,
    requirements: Requirement,
    roleRequirements: map<string, Requirement>,
    validityModel: ValidityModel,
    receiptEmbedding: ReceiptEmbedding,
    policyLocations: seq<string>,
    credentialEndpoints: map<string, CredentialEndpoint>)

  /** The authority set created with a channel's first policy (one HMAC signer, threshold 1). */
  datatype AuthoritySet = AuthoritySet(channelId: string, signerDid: string, publicKey: string, policyThreshold: int, refreshTtl: nat)

  datatype JoinReceipt = JoinReceipt(
    channelId: string, policyId: string, joinId: string, subjectDid: string,
    timestamp: nat, nonce: string, embeddedPolicy: Option<PolicyDocument>, signature: string)

  datatype JoinState = JoinPending | JoinConfirmed | JoinFailed | JoinStale

  datatype Attestation = Attestation(
    attestationId: string,
    channelId: string,
    policyId: string,
    authoritySetHash: string,
    subjectDid: string,
    role: string,
    issuedAt: nat,
    expiresAt: Option<nat>,
    joinId: Option<string>,
    signature: string,
    issuerDid: string)

  datatype JoinResult =
    | Confirmed(attestation: Attestation, joinId: string)
    | NoPolicy
    | Pending(pendingJoinId: string, missing: seq<string>)
    | Failed(reason: string)

  /** Continuous attestations live one hour. */
  const CONTINUOUS_TTL: nat := 3600

  // ---------------------------------------------------------------------
  // The current policy of a channel: the highest version stored.

  function Latest(chain: seq<PolicyDocument>): (r: Option<PolicyDocument>)
    ensures r.None? <==> chain == []
    ensures r.Some? ==> r.value in chain && forall d | d in chain :: d.version <= r.value.version
  {
    if chain == [] then None
    else
      var rest := Latest(chain[..|chain| - 1]);
      var d := chain[|chain| - 1];
      assert chain == chain[..|chain| - 1] + [d];
      if rest.Some? && rest.value.version > d.version then rest else Some(d)
  }

  /** A document whose version exceeds every stored one becomes the current policy. */
  lemma LatestAfterNewerVersion(chain: seq<PolicyDocument>, d: PolicyDocument)
    requires forall e | e in chain :: e.version < d.version
    ensures Latest(chain + [d]) == Some(d)
  {
    assert (chain + [d])[..|chain + [d]| - 1] == chain;
  }

  // ---------------------------------------------------------------------
  // Role selection (`evaluate_role`): role requirements are visited in
  // descending key order and the first satisfied role wins.

  predicate RoleSatisfied(roles: map<string, Requirement>, k: string, ev: UserEvidence)
    requires k in roles
  {
    Evaluate(roles[k], ev).Satisfied?
  }

  function EvaluateRole(roles: map<string, Requirement>, ev: UserEvidence): string
    decreases |roles|
  {
    if roles == map[] then "member"
    else
      var k := MaxString(roles.Keys);
      if Evaluate(roles[k], ev).Satisfied? then k
      else EvaluateRole(roles - {k}, ev)
  }

  /** The role is the greatest satisfied role name, or "member" when no role is satisfied. */
  lemma {:induction false} EvaluateRoleIsGreatestSatisfied(roles: map<string, Requirement>, ev: UserEvidence)
    ensures var r := EvaluateRole(roles, ev);
      ((forall k | k in roles :: !RoleSatisfied(roles, k, ev)) ==> r == "member")
      && ((exists k | k in roles :: RoleSatisfied(roles, k, ev)) ==>
            r in roles && RoleSatisfied(roles, r, ev)
            && forall k | k in roles && LexLess(r, k) :: !RoleSatisfied(roles, k, ev))
    decreases |roles|
  {
    if roles != map[] {
      var k := MaxString(roles.Keys);
      if !Evaluate(roles[k], ev).Satisfied? {
        var rest := roles - {k};
        EvaluateRoleIsGreatestSatisfied(rest, ev);
        var r := EvaluateRole(rest, ev);
        if exists j | j in roles :: RoleSatisfied(roles, j, ev) {
          var j :| j in roles && RoleSatisfied(roles, j, ev);
          assert j in rest && RoleSatisfied(rest, j, ev);
          forall j' | j' in roles && LexLess(r, j') ensures !RoleSatisfied(roles, j', ev) {
            if j' != k { assert j' in rest; }
          }
        } else {
          forall j | j in rest ensures !RoleSatisfied(rest, j, ev) {
            assert j in roles;
          }
        }
      } else {
        forall j | j in roles ensures !LexLess(k, j) {
          LexLessAsymmetric(k, j);
          LexLessIrreflexive(k);
        }
      }
    }
  }

  // ---------------------------------------------------------------------
  // Validation of a new policy's requirements.

  /** The first role, in ascending key order, whose requirement fails validation, with the error. */
  function FirstInvalidRole(roles: map<string, Requirement>): (r: Option<(string, string)>)
    ensures r.Some? ==> r.value.0 in roles && ValidateStructure(roles[r.value.0]).Err?
    ensures r.None? ==> forall k | k in roles :: ValidateStructure(roles[k]).Ok?
    decreases |roles|
  {
    if roles == map[] then None
    else
      var k := MinString(roles.Keys);
      match ValidateStructure(roles[k])
      case Err(e) => Some((k, e))
      case Ok(_) =>
        var rest := FirstInvalidRole(roles - {k});
        assert forall j | j in roles && j != k :: j in roles - {k};
        rest
  }

  /** The error of `create_channel_policy`'s validation step, if any: the main requirement first, then the roles. */
  function CreateValidationError(req: Requirement, roles: map<string, Requirement>): Option<string>
  {
    match ValidateStructure(req)
    case Err(e) => Some(e)
    case Ok(_) =>
      match FirstInvalidRole(roles)
      case Some(p) => Some("Role " + p.0 + ": " + p.1)
      case None => None
  }

  /** Creation fails exactly when the main requirement or some role requirement fails validation. */
  lemma CreateValidationIff(req: Requirement, roles: map<string, Requirement>)
    ensures CreateValidationError(req, roles).None? <==>
      ValidateStructure(req).Ok? && forall k | k in roles :: ValidateStructure(roles[k]).Ok?
  {
  }

  // ---------------------------------------------------------------------
  // Version chaining.

  /** The document `update_channel_policy` builds from the current one (before its id is computed). */
  function NextVersion(current: PolicyDocument, channel: string, req: Requirement, roles: map<string, Requirement>,
                       endpoints: Option<map<string, CredentialEndpoint>>, now: nat): PolicyDocument
  {
    PolicyDocument(channel, None, current.version + 1, now, current.policyId, current.authoritySetHash,
                   req, roles, current.validityModel, current.receiptEmbedding, current.policyLocations,
                   if endpoints.Some? then endpoints.value else current.credentialEndpoints)
  }

  /** The join decision made before anything is written. */
  datatype Decision = NoPolicyYet | Reuse(existing: Attestation) | Admit(policy: PolicyDocument, role: string) | Reject(reason: string)

  /** An attestation still counts for the current policy: same policy id, and no expiry or an expiry in the future. */
  predicate StillValid(existing: Attestation, policyId: string, now: nat)
  {
    existing.policyId == policyId && (existing.expiresAt.None? || existing.expiresAt.value > now)
  }

  function JoinDecision(policy: Option<PolicyDocument>, existing: Option<Attestation>, ev: UserEvidence, now: nat): Decision
  {
    if policy.None? then NoPolicyYet
    else
      var p := policy.value;
      var pid := p.policyId.UnwrapOr("");
      if existing.Some? && StillValid(existing.value, pid, now) then Reuse(existing.value)
      else
        match Evaluate(p.requirements, ev)
        case Satisfied => Admit(p, EvaluateRole(p.roleRequirements, ev))
        case Failed(reason) => Reject(reason)
        case Error(e) => Reject("Evaluation error: " + e)
  }

  /** The expiry an attestation issued at `now` carries under a validity model. */
  function ExpiryFor(model: ValidityModel, now: nat): (r: Option<nat>)
    ensures model == Continuous <==> r.Some?
    ensures r.Some? ==> r.value > now
  {
    match model
    case Continuous => Some(now + CONTINUOUS_TTL)
    case JoinTime => None
  }

  /** Unsigned attestation as `issue_attestation` builds it for the channel the join named. */
  function UnsignedAttestation(attestationId: string, channel: string, p: PolicyDocument, did: string, role: string,
                               joinId: string, now: nat, issuerDid: string): Attestation
  {
    Attestation(attestationId, channel, p.policyId.UnwrapOr(""), p.authoritySetHash, did, role, now,
                ExpiryFor(p.validityModel, now), Some(joinId), "", issuerDid)
  }

  /** The server-side receipt of an admitted join: no user signature, the policy embedded only when it demands it. */
  function AdmitReceipt(channel: string, p: PolicyDocument, joinId: string, did: string, now: nat, nonce: string): JoinReceipt
  {
    JoinReceipt(channel, p.policyId.UnwrapOr(""), joinId, did, now, nonce,
                if p.receiptEmbedding == Require then Some(p) else None, "")
  }

  /** Joining again under the same policy before the attestation lapses re-uses it: same attestation id, no re-evaluation. */
  lemma RepeatJoinReusesAttestation(channel: string, p: PolicyDocument, did: string, role: string, joinId: string, attestationId: string,
                                    issuerDid: string, sig: string, now: nat, later: nat, ev: UserEvidence, ev2: UserEvidence)
    requires now <= later && (p.validityModel == Continuous ==> later < now + CONTINUOUS_TTL)
    ensures var a := UnsignedAttestation(attestationId, channel, p, did, role, joinId, now, issuerDid).(signature := sig);
      JoinDecision(Some(p), Some(a), ev2, later) == Reuse(a)
  {
  }

  /** An attestation issued under one policy does not satisfy a later policy with a different id. */
  lemma PolicyChangeForcesReevaluation(a: Attestation, p: PolicyDocument, ev: UserEvidence, now: nat)
    requires a.policyId != p.policyId.UnwrapOr("")
    ensures !JoinDecision(Some(p), Some(a), ev, now).Reuse?
  {
  }

  /** Unsatisfied requirements are rejected whenever no live attestation exists. */
  lemma UnsatisfiedIsRejected(p: PolicyDocument, existing: Option<Attestation>, ev: UserEvidence, now: nat)
    requires existing.None? || !StillValid(existing.value, p.policyId.UnwrapOr(""), now)
    requires !Evaluate(p.requirements, ev).Satisfied?
    ensures JoinDecision(Some(p), existing, ev, now).Reject?
  {
  }

  // ---------------------------------------------------------------------
  // The engine and its store.

  class Engine {
    const authorityDid: string
    /** `"hmac-sha256:"` followed by the hex of the first 16 key bytes. */
    const publicKeyLabel: string
    const hashPolicy: PolicyDocument -> string
    const hashAuthoritySet: AuthoritySet -> string
    /** HMAC-SHA256 over the canonical form of an attestation. */
    const sign: Attestation -> string

    var policies: map<string, seq<PolicyDocument>>
    var authoritySets: map<string, AuthoritySet>
    /** The latest valid attestation per (channel, subject DID). */
    var attestations: map<(string, string), Attestation>
    var receipts: map<string, JoinReceipt>
    var joinStates: map<string, JoinState>

    constructor (authorityDid: string, publicKeyLabel: string, hashPolicy: PolicyDocument -> string,
                 hashAuthoritySet: AuthoritySet -> string, sign: Attestation -> string)
      ensures this.authorityDid == authorityDid && this.publicKeyLabel == publicKeyLabel
      ensures this.hashPolicy == hashPolicy && this.hashAuthoritySet == hashAuthoritySet && this.sign == sign
      ensures policies == map[] && authoritySets == map[] && attestations == map[] && receipts == map[] && joinStates == map[]
    {
      this.authorityDid := authorityDid;
      this.publicKeyLabel := publicKeyLabel;
      this.hashPolicy := hashPolicy;
      this.hashAuthoritySet := hashAuthoritySet;
      this.sign := sign;
      policies := map[];
      authoritySets := map[];
      attestations := map[];
      receipts := map[];
      joinStates := map[];
    }

    function CurrentPolicy(channel: string): Option<PolicyDocument>
      reads this
    {
      if channel in policies then Latest(policies[channel]) else None
    }

    /** The attestation `issue_attestation` stores: the unsigned form, signed with the engine's key. */
    function Issued(attestationId: string, channel: string, p: PolicyDocument, did: string, role: string,
                    joinId: string, now: nat): Attestation
    {
      var u := UnsignedAttestation(attestationId, channel, p, did, role, joinId, now, authorityDid);
      u.(signature := sign(u))
    }

    function ChainOf(channel: string): seq<PolicyDocument>
      reads this
    {
      if channel in policies then policies[channel] else []
    }

    function AttestationOf(channel: string, did: string): Option<Attestation>
      reads this
    {
      if (channel, did) in attestations then Some(attestations[(channel, did)]) else None
    }

    /** `store_policy`: the id is the hash of the document without an id; the document joins the channel's chain. */
    method StorePolicy(doc: PolicyDocument) returns (stored: PolicyDocument)
      modifies this
      ensures stored == doc.(policyId := Some(hashPolicy(doc.(policyId := None))))
      ensures policies == old(policies)[doc.channelId := old(ChainOf(doc.channelId)) + [stored]]
      ensures authoritySets == old(authoritySets) && attestations == old(attestations)
      ensures receipts == old(receipts) && joinStates == old(joinStates)
    {
      var unsigned := doc.(policyId := None);
      stored := unsigned.(policyId := Some(hashPolicy(unsigned)));
      policies := policies[doc.channelId := ChainOf(doc.channelId) + [stored]];
    }

    /** `create_channel_policy`: validate, store a fresh authority set, store version 1. */
    method CreateChannelPolicy(channel: string, req: Requirement, roles: map<string, Requirement>, now: nat)
      returns (r: Result<PolicyDocument, string>)
      modifies this
      ensures CreateValidationError(req, roles).Some? ==>
        r == Err(CreateValidationError(req, roles).value) && policies == old(policies) && authoritySets == old(authoritySets)
      ensures CreateValidationError(req, roles).None? ==> r.Ok?
      ensures r.Ok? ==>
        var aset := AuthoritySet(channel, authorityDid, publicKeyLabel, 1, 3600);
        var h := hashAuthoritySet(aset);
        var doc := PolicyDocument(channel, None, 1, now, None, h, req, roles, JoinTime, Require, [], map[]);
        authoritySets == old(authoritySets)[h := aset]
        && r.value == doc.(policyId := Some(hashPolicy(doc)))
        && policies == old(policies)[channel := old(ChainOf(channel)) + [r.value]]
      ensures r.Err? ==> unchanged(this)
      ensures attestations == old(attestations) && receipts == old(receipts) && joinStates == old(joinStates)
    {
      var err := CreateValidationError(req, roles);
      if err.Some? {
        return Err(err.value);
      }
      var aset := AuthoritySet(channel, authorityDid, publicKeyLabel, 1, 3600);
      var h := hashAuthoritySet(aset);
      authoritySets := authoritySets[h := aset];
      var doc := PolicyDocument(channel, None, 1, now, None, h, req, roles, JoinTime, Require, [], map[]);
      var stored := StorePolicy(doc);
      r := Ok(stored);
    }

    /** `update_channel_policy` (endpoints None) and `update_channel_policy_with_endpoints` (endpoints Some). */
    method UpdateChannelPolicy(channel: string, req: Requirement, roles: map<string, Requirement>,
                               endpoints: Option<map<string, CredentialEndpoint>>, now: nat)
      returns (r: Result<PolicyDocument, string>)
      modifies this
      ensures ValidateStructure(req).Err? ==> r == Err(ValidateStructure(req).error) && policies == old(policies)
      ensures ValidateStructure(req).Ok? && old(CurrentPolicy(channel)).None? ==>
        r == Err("No existing policy to update") && policies == old(policies)
      ensures ValidateStructure(req).Ok? && old(CurrentPolicy(channel)).Some? ==>
        var next := NextVersion(old(CurrentPolicy(channel)).value, channel, req, roles, endpoints, now);
        r == Ok(next.(policyId := Some(hashPolicy(next))))
        && policies == old(policies)[channel := old(ChainOf(channel)) + [r.value]]
      ensures r.Err? ==> unchanged(this)
      ensures authoritySets == old(authoritySets) && attestations == old(attestations)
      ensures receipts == old(receipts) && joinStates == old(joinStates)
    {
      var valid := ValidateStructure(req);
      if valid.Err? {
        return Err(valid.error);
      }
      var current := CurrentPolicy(channel);
      if current.None? {
        return Err("No existing policy to update");
      }
      var next := NextVersion(current.value, channel, req, roles, endpoints, now);
      var stored := StorePolicy(next);
      r := Ok(stored);
    }

    /** `issue_attestation`: build, sign the unsigned form, store. */
    method IssueAttestation(channel: string, p: PolicyDocument, did: string, role: string, joinId: string, attestationId: string, now: nat)
      returns (a: Attestation)
      modifies this
      ensures a == Issued(attestationId, channel, p, did, role, joinId, now)
      ensures attestations == old(attestations)[(channel, did) := a]
      ensures policies == old(policies) && authoritySets == old(authoritySets)
      ensures receipts == old(receipts) && joinStates == old(joinStates)
    {
      var u := UnsignedAttestation(attestationId, channel, p, did, role, joinId, now, authorityDid);
      a := u.(signature := sign(u));
      attestations := attestations[(channel, did) := a];
    }

    /** `process_join`. */
    method ProcessJoin(channel: string, did: string, ev: UserEvidence, now: nat,
                       joinId: string, nonce: string, attestationId: string)
      returns (r: JoinResult)
      modifies this
      ensures var d := JoinDecision(old(CurrentPolicy(channel)), old(AttestationOf(channel, did)), ev, now);
        (d.NoPolicyYet? ==> r == NoPolicy && unchanged(this))
        && (d.Reuse? ==> r == Confirmed(d.existing, d.existing.joinId.UnwrapOr("")) && unchanged(this))
        && (d.Reject? ==> r == JoinResult.Failed(d.reason) && unchanged(this))
        && (d.Admit? ==>
              var a := Issued(attestationId, channel, d.policy, did, d.role, joinId, now);
              r == Confirmed(a, joinId)
              && attestations == old(attestations)[(channel, did) := a]
              && receipts == old(receipts)[joinId := AdmitReceipt(channel, d.policy, joinId, did, now, nonce)]
              && joinStates == old(joinStates)[joinId := JoinConfirmed]
              && policies == old(policies) && authoritySets == old(authoritySets))
    {
      var policy := CurrentPolicy(channel);
      if policy.None? {
        return NoPolicy;
      }
      var p := policy.value;
      var pid := p.policyId.UnwrapOr("");
      var existing := AttestationOf(channel, did);
      if existing.Some? && existing.value.policyId == pid {
        if existing.value.expiresAt.Some? {
          if existing.value.expiresAt.value > now {
            return Confirmed(existing.value, existing.value.joinId.UnwrapOr(""));
          }
        } else {
          return Confirmed(existing.value, existing.value.joinId.UnwrapOr(""));
        }
      }
      var result := Evaluate(p.requirements, ev);
      match result {
        case Satisfied =>
          receipts := receipts[joinId := AdmitReceipt(channel, p, joinId, did, now, nonce)];
          joinStates := joinStates[joinId := JoinPending];
          var role := EvaluateRole(p.roleRequirements, ev);
          var a := IssueAttestation(channel, p, did, role, joinId, attestationId, now);
          joinStates := joinStates[joinId := JoinConfirmed];
          r := Confirmed(a, joinId);
        case Failed(reason) =>
          r := JoinResult.Failed(reason);
        case Error(e) =>
          r := JoinResult.Failed("Evaluation error: " + e);
      }
    }

    /** `verify_attestation`: recompute the signature over the form with an empty signature. */
    predicate VerifyAttestation(a: Attestation)
    {
      sign(a.(signature := "")) == a.signature
    }

    /** `remove_policy`: every policy, attestation and receipt of the channel goes; reports whether anything did. */
    method RemovePolicy(channel: string) returns (removed: bool)
      modifies this
      ensures removed <==> channel in old(policies) || (exists k | k in old(attestations) :: k.0 == channel)
                           || (exists j | j in old(receipts) :: old(receipts)[j].channelId == channel)
      ensures policies == old(policies) - {channel}
      ensures attestations == map k | k in old(attestations) && k.0 != channel :: old(attestations)[k]
      ensures receipts == map j | j in old(receipts) && old(receipts)[j].channelId != channel :: old(receipts)[j]
      ensures joinStates == map j | j in old(joinStates) && (j in old(receipts) ==> old(receipts)[j].channelId != channel) :: old(joinStates)[j]
      ensures authoritySets == old(authoritySets)
    {
      removed := channel in policies || (exists k | k in attestations :: k.0 == channel)
                 || (exists j | j in receipts :: receipts[j].channelId == channel);
      var rs := receipts;
      policies := policies - {channel};
      attestations := map k | k in attestations && k.0 != channel :: attestations[k];
      joinStates := map j | j in joinStates && (j in rs ==> rs[j].channelId != channel) :: joinStates[j];
      receipts := map j | j in receipts && receipts[j].channelId != channel :: receipts[j];
    }

    /** `get_member_role`. */
    function MemberRole(channel: string, did: string): (r: Option<string>)
      reads this
      ensures r.Some? <==> (channel, did) in attestations
      ensures r.Some? ==> r.value == attestations[(channel, did)].role
    {
      if (channel, did) in attestations then Some(attestations[(channel, did)].role) else None
    }
  }

  /** Every attestation the engine issues verifies under its own signer. */
  lemma IssuedAttestationVerifies(e: Engine, attestationId: string, channel: string, p: PolicyDocument, did: string, role: string, joinId: string, now: nat)
    ensures var u := UnsignedAttestation(attestationId, channel, p, did, role, joinId, now, e.authorityDid);
      e.VerifyAttestation(u.(signature := e.sign(u)))
  {
    var u := UnsignedAttestation(attestationId, channel, p, did, role, joinId, now, e.authorityDid);
    assert u.(signature := e.sign(u)).(signature := "") == u;
  }

  /** With an injective signer, changing a signed attestation's role breaks verification. */
  lemma TamperedRoleFails(e: Engine, a: Attestation, role: string)
    requires e.VerifyAttestation(a) && role != a.role
    requires forall x, y :: e.sign(x) == e.sign(y) ==> x == y
    ensures !e.VerifyAttestation(a.(role := role))
  {
    assert a.(role := role).(signature := "") != a.(signature := "");
  }

  /** After an update the current policy is the new version, one above the old, chained to the old id, under the same authority set. */
  lemma UpdateChains(chain: seq<PolicyDocument>, channel: string, req: Requirement, roles: map<string, Requirement>,
                     endpoints: Option<map<string, CredentialEndpoint>>, now: nat, hash: PolicyDocument -> string)
    requires chain != []
    ensures var cur := Latest(chain).value;
      var next := NextVersion(cur, channel, req, roles, endpoints, now);
      var stored := next.(policyId := Some(hash(next)));
      Latest(chain + [stored]) == Some(stored)
      && stored.version == cur.version + 1
      && stored.previousPolicyHash == cur.policyId
      && stored.authoritySetHash == cur.authoritySetHash
      && stored.validityModel == cur.validityModel
  {
    var cur := Latest(chain).value;
    var next := NextVersion(cur, channel, req, roles, endpoints, now);
    LatestAfterNewerVersion(chain, next.(policyId := Some(hash(next))));
  }
}
