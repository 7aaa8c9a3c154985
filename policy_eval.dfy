// freeq-server/src/policy/eval.rs: the requirement DSL evaluator and the
// structural validator, both bounded by a depth of 8 and 64 visited nodes.
// The `&mut node_count` counter is threaded through as an in/out value.

module PolicyEval {
  import opened Common

  /** A requirement tree (`policy::types::Requirement`). */
  datatype Requirement =
    | Accept(hash: string)
    | Present(credentialType: string, issuer: Option<string>)
    | Prove(proofType: string)
    | All(requirements: seq<Requirement>)
    | Any(requirements: seq<Requirement>)
    | Not(requirement: Requirement)

  datatype Credential = Credential(credentialType: string, issuer: string)

  /** What a user offers during a join or role request. */
  datatype UserEvidence = UserEvidence(acceptedHashes: set<string>, credentials: seq<Credential>, proofs: set<string>)

  datatype EvalResult = Satisfied | Failed(reason: string) | Error(message: string)

  /** A result together with the node counter after the call. */
  datatype Evaluated = Evaluated(result: EvalResult, count: nat)

  datatype Validated = Validated(result: Result<(), string>, count: nat)

  const MAX_DEPTH: nat := 8
  const MAX_NODES: nat := 64

  // ---------------------------------------------------------------------
  // Reference meaning of a requirement, and the size measures of a tree.

  /** A credential of the right type, from the required issuer when one is named. */
  predicate HasCredential(ev: UserEvidence, credentialType: string, issuer: Option<string>)
  {
    exists i | 0 <= i < |ev.credentials| ::
      ev.credentials[i].credentialType == credentialType
      && (issuer.None? || ev.credentials[i].issuer == issuer.value)
  }

  /** The logical meaning of a requirement, with no limits. */
  predicate Holds(req: Requirement, ev: UserEvidence)
    decreases req, 1
  {
    match req
    case Accept(h) => h in ev.acceptedHashes
    case Present(t, iss) => HasCredential(ev, t, iss)
    case Prove(p) => p in ev.proofs
    case All(rs) => AllHold(rs, ev)
    case Any(rs) => AnyHolds(rs, ev)
    case Not(r) => !Holds(r, ev)
  }

  predicate AllHold(rs: seq<Requirement>, ev: UserEvidence)
    decreases rs, 0
  {
    rs == [] || (Holds(rs[0], ev) && AllHold(rs[1..], ev))
  }

  predicate AnyHolds(rs: seq<Requirement>, ev: UserEvidence)
    decreases rs, 0
  {
    rs != [] && (Holds(rs[0], ev) || AnyHolds(rs[1..], ev))
  }

  /** Number of nodes in the tree. */
  function Size(req: Requirement): nat
    decreases req, 1
  {
    match req
    case All(rs) => 1 + SizeList(rs)
    case Any(rs) => 1 + SizeList(rs)
    case Not(r) => 1 + Size(r)
    case _ => 1
  }

  function SizeList(rs: seq<Requirement>): nat
    decreases rs, 0
  {
    if rs == [] then 0 else Size(rs[0]) + SizeList(rs[1..])
  }

  /** Distance from the root to the deepest node. */
  function Height(req: Requirement): nat
    decreases req, 1
  {
    match req
    case All(rs) => if rs == [] then 0 else 1 + HeightList(rs)
    case Any(rs) => if rs == [] then 0 else 1 + HeightList(rs)
    case Not(r) => 1 + Height(r)
    case _ => 0
  }

  function HeightList(rs: seq<Requirement>): nat
    decreases rs, 0
  {
    if rs == [] then 0
    else
      var h := Height(rs[0]);
      var t := HeightList(rs[1..]);
      if h < t then t else h
  }

  /** No All or Any node anywhere in the tree is empty. */
  predicate NoEmptyGroups(req: Requirement)
    decreases req, 1
  {
    match req
    case All(rs) => rs != [] && NoEmptyGroupsList(rs)
    case Any(rs) => rs != [] && NoEmptyGroupsList(rs)
    case Not(r) => NoEmptyGroups(r)
    case _ => true
  }

  predicate NoEmptyGroupsList(rs: seq<Requirement>)
    decreases rs, 0
  {
    rs == [] || (NoEmptyGroups(rs[0]) && NoEmptyGroupsList(rs[1..]))
  }

  // ---------------------------------------------------------------------
  // The evaluator.  Each call returns its result and the node counter after it.

  /** `eval_inner`: depth check, count this node, node-count check, then the case. */
  function EvalInner(req: Requirement, ev: UserEvidence, depth: nat, count: nat): Evaluated
    decreases req, 1
  {
    if depth > MAX_DEPTH then Evaluated(Error("Max depth 8 exceeded"), count)
    else if count + 1 > MAX_NODES then Evaluated(Error("Max node count 64 exceeded"), count + 1)
    else
      var c: nat := count + 1;
      match req
      case Accept(h) =>
        Evaluated(if h in ev.acceptedHashes then Satisfied else Failed("User has not accepted rules hash: " + h), c)
      case Present(t, iss) =>
        if HasCredential(ev, t, iss) then Evaluated(Satisfied, c)
        else if iss.Some? then Evaluated(Failed("Missing credential: " + t + " from " + iss.value), c)
        else Evaluated(Failed("Missing credential: " + t), c)
      case Prove(p) =>
        Evaluated(if p in ev.proofs then Satisfied else Failed("Missing proof: " + p), c)
      case All(rs) => EvalAll(rs, ev, depth + 1, c)
      case Any(rs) => EvalAny(rs, ev, depth + 1, c, "")
      case Not(r) =>
        var inner := EvalInner(r, ev, depth + 1, c);
        match inner.result
        case Satisfied => Evaluated(Failed("NOT condition: inner requirement was satisfied"), inner.count)
        case Failed(_) => Evaluated(Satisfied, inner.count)
        case Error(e) => Evaluated(Error(e), inner.count)
  }

  /** The All loop: the first child that is not satisfied decides. */
  function EvalAll(rs: seq<Requirement>, ev: UserEvidence, depth: nat, count: nat): Evaluated
    decreases rs, 0
  {
    if rs == [] then Evaluated(Satisfied, count)
    else
      var Evaluated(res, c) := EvalInner(rs[0], ev, depth, count);
      if !res.Satisfied? then Evaluated(res, c) else EvalAll(rs[1..], ev, depth, c)
  }

  /** The Any loop: the first satisfied child or the first error decides; otherwise the last failure is reported. */
  function EvalAny(rs: seq<Requirement>, ev: UserEvidence, depth: nat, count: nat, lastFailure: string): Evaluated
    decreases rs, 0
  {
    if rs == [] then Evaluated(Failed("No alternative satisfied: " + lastFailure), count)
    else
      var Evaluated(res, c) := EvalInner(rs[0], ev, depth, count);
      match res
      case Satisfied => Evaluated(Satisfied, c)
      case Error(e) => Evaluated(Error(e), c)
      case Failed(msg) => EvalAny(rs[1..], ev, depth, c, msg)
  }

  /** `evaluate`. */
  function Evaluate(req: Requirement, ev: UserEvidence): EvalResult
  {
    EvalInner(req, ev, 0, 0).result
  }

  // ---------------------------------------------------------------------
  // The validator.

  function ValidateInner(req: Requirement, depth: nat, count: nat): Validated
    decreases req, 1
  {
    if depth > MAX_DEPTH then Validated(Err("Requirement tree exceeds max depth of 8"), count)
    else if count + 1 > MAX_NODES then Validated(Err("Requirement tree exceeds max node count of 64"), count + 1)
    else
      var c: nat := count + 1;
      match req
      case All(rs) =>
        if rs == [] then Validated(Err("ALL/ANY must have at least one sub-requirement"), c)
        else ValidateList(rs, depth + 1, c)
      case Any(rs) =>
        if rs == [] then Validated(Err("ALL/ANY must have at least one sub-requirement"), c)
        else ValidateList(rs, depth + 1, c)
      case Not(r) => ValidateInner(r, depth + 1, c)
      case _ => Validated(Ok(()), c)
  }

  function ValidateList(rs: seq<Requirement>, depth: nat, count: nat): Validated
    decreases rs, 0
  {
    if rs == [] then Validated(Ok(()), count)
    else
      var Validated(res, c) := ValidateInner(rs[0], depth, count);
      if res.Err? then Validated(res, c) else ValidateList(rs[1..], depth, c)
  }

  /** `validate_structure`. */
  function ValidateStructure(req: Requirement): Result<(), string>
  {
    ValidateInner(req, 0, 0).result
  }

  // ---------------------------------------------------------------------
  // Properties.

  /** The leaves: Accept, Prove and Present are satisfied exactly when the evidence holds the hash, proof or credential. */
  lemma LeafSemantics(ev: UserEvidence, h: string, t: string, iss: Option<string>, p: string)
    ensures Evaluate(Accept(h), ev).Satisfied? <==> h in ev.acceptedHashes
    ensures Evaluate(Prove(p), ev).Satisfied? <==> p in ev.proofs
    ensures Evaluate(Present(t, iss), ev).Satisfied? <==>
      exists c | c in ev.credentials :: c.credentialType == t && (iss.None? || c.issuer == iss.value)
  {
    if Evaluate(Present(t, iss), ev).Satisfied? {
      var i :| 0 <= i < |ev.credentials| && ev.credentials[i].credentialType == t
        && (iss.None? || ev.credentials[i].issuer == iss.value);
      assert ev.credentials[i] in ev.credentials;
    }
  }

  /** Not flips Satisfied and Failed and passes an Error through, keeping the child's node count. */
  lemma NotFlips(r: Requirement, ev: UserEvidence, depth: nat, count: nat)
    requires depth <= MAX_DEPTH && count < MAX_NODES
    ensures var Evaluated(inner, c1) := EvalInner(r, ev, depth + 1, count + 1);
      var Evaluated(outer, c2) := EvalInner(Not(r), ev, depth, count);
      c2 == c1
      && (inner.Satisfied? ==> outer.Failed?)
      && (inner.Failed? ==> outer.Satisfied?)
      && (inner.Error? ==> outer == inner)
  {
  }

  /** The counter never goes down. */
  lemma {:induction false} CountGrows(req: Requirement, ev: UserEvidence, depth: nat, count: nat)
    ensures EvalInner(req, ev, depth, count).count >= count
    decreases req, 1
  {
    if depth <= MAX_DEPTH && count + 1 <= MAX_NODES {
      match req
      case All(rs) => CountGrowsAll(rs, ev, depth + 1, count + 1);
      case Any(rs) => CountGrowsAny(rs, ev, depth + 1, count + 1, "");
      case Not(r) => CountGrows(r, ev, depth + 1, count + 1);
      case _ =>
    }
  }

  lemma {:induction false} CountGrowsAll(rs: seq<Requirement>, ev: UserEvidence, depth: nat, count: nat)
    ensures EvalAll(rs, ev, depth, count).count >= count
    decreases rs, 0
  {
    if rs != [] {
      CountGrows(rs[0], ev, depth, count);
      var Evaluated(res, c) := EvalInner(rs[0], ev, depth, count);
      if res.Satisfied? {
        CountGrowsAll(rs[1..], ev, depth, c);
      }
    }
  }

  lemma {:induction false} CountGrowsAny(rs: seq<Requirement>, ev: UserEvidence, depth: nat, count: nat, last: string)
    ensures EvalAny(rs, ev, depth, count, last).count >= count
    decreases rs, 0
  {
    if rs != [] {
      CountGrows(rs[0], ev, depth, count);
      var Evaluated(res, c) := EvalInner(rs[0], ev, depth, count);
      if res.Failed? {
        CountGrowsAny(rs[1..], ev, depth, c, res.reason);
      }
    }
  }

  /** Whenever the evaluator does not hit a limit, its verdict is the logical meaning of the tree. */
  lemma {:induction false} EvalSound(req: Requirement, ev: UserEvidence, depth: nat, count: nat)
    ensures var res := EvalInner(req, ev, depth, count).result;
      res.Error? || (res.Satisfied? <==> Holds(req, ev))
    decreases req, 1
  {
    if depth <= MAX_DEPTH && count + 1 <= MAX_NODES {
      match req
      case All(rs) => EvalSoundAll(rs, ev, depth + 1, count + 1);
      case Any(rs) => EvalSoundAny(rs, ev, depth + 1, count + 1, "");
      case Not(r) => EvalSound(r, ev, depth + 1, count + 1);
      case _ =>
    }
  }

  lemma {:induction false} EvalSoundAll(rs: seq<Requirement>, ev: UserEvidence, depth: nat, count: nat)
    ensures var res := EvalAll(rs, ev, depth, count).result;
      res.Error? || (res.Satisfied? <==> AllHold(rs, ev))
    decreases rs, 0
  {
    if rs != [] {
      EvalSound(rs[0], ev, depth, count);
      var Evaluated(res, c) := EvalInner(rs[0], ev, depth, count);
      if res.Satisfied? {
        EvalSoundAll(rs[1..], ev, depth, c);
      }
    }
  }

  lemma {:induction false} EvalSoundAny(rs: seq<Requirement>, ev: UserEvidence, depth: nat, count: nat, last: string)
    ensures var res := EvalAny(rs, ev, depth, count, last).result;
      res.Error? || (res.Satisfied? <==> AnyHolds(rs, ev))
    decreases rs, 0
  {
    if rs != [] {
      EvalSound(rs[0], ev, depth, count);
      var Evaluated(res, c) := EvalInner(rs[0], ev, depth, count);
      if res.Failed? {
        EvalSoundAny(rs[1..], ev, depth, c, res.reason);
      }
    }
  }

  /** Within the limits the evaluator never errs, and it visits at most the tree's nodes. */
  lemma {:induction false} EvalWithinLimits(req: Requirement, ev: UserEvidence, depth: nat, count: nat)
    requires depth + Height(req) <= MAX_DEPTH && count + Size(req) <= MAX_NODES
    ensures var Evaluated(res, c) := EvalInner(req, ev, depth, count);
      !res.Error? && c <= count + Size(req)
    decreases req, 1
  {
    match req
    case All(rs) =>
      if rs != [] {
        EvalAllWithinLimits(rs, ev, depth + 1, count + 1);
      }
    case Any(rs) =>
      if rs != [] {
        EvalAnyWithinLimits(rs, ev, depth + 1, count + 1, "");
      }
    case Not(r) =>
      EvalWithinLimits(r, ev, depth + 1, count + 1);
      assert Size(req) == 1 + Size(r);
    case _ =>
  }

  lemma {:induction false} EvalAllWithinLimits(rs: seq<Requirement>, ev: UserEvidence, depth: nat, count: nat)
    requires rs != [] ==> depth + HeightList(rs) <= MAX_DEPTH
    requires count + SizeList(rs) <= MAX_NODES
    ensures var Evaluated(res, c) := EvalAll(rs, ev, depth, count);
      !res.Error? && c <= count + SizeList(rs)
    decreases rs, 0
  {
    if rs != [] {
      EvalWithinLimits(rs[0], ev, depth, count);
      var Evaluated(res, c) := EvalInner(rs[0], ev, depth, count);
      if res.Satisfied? {
        EvalAllWithinLimits(rs[1..], ev, depth, c);
      }
    }
  }

  lemma {:induction false} EvalAnyWithinLimits(rs: seq<Requirement>, ev: UserEvidence, depth: nat, count: nat, last: string)
    requires rs != [] ==> depth + HeightList(rs) <= MAX_DEPTH
    requires count + SizeList(rs) <= MAX_NODES
    ensures var Evaluated(res, c) := EvalAny(rs, ev, depth, count, last);
      !res.Error? && c <= count + SizeList(rs)
    decreases rs, 0
  {
    if rs != [] {
      EvalWithinLimits(rs[0], ev, depth, count);
      var Evaluated(res, c) := EvalInner(rs[0], ev, depth, count);
      if res.Failed? {
        EvalAnyWithinLimits(rs[1..], ev, depth, c, res.reason);
      }
    }
  }

  /** `validate_structure` succeeds exactly for trees within both limits with no empty All or Any, and then counts every node. */
  lemma {:induction false} ValidateIff(req: Requirement, depth: nat, count: nat)
    ensures var Validated(res, c) := ValidateInner(req, depth, count);
      (res.Ok? <==> depth + Height(req) <= MAX_DEPTH && count + Size(req) <= MAX_NODES && NoEmptyGroups(req))
      && (res.Ok? ==> c == count + Size(req))
    decreases req, 1
  {
    if depth <= MAX_DEPTH && count + 1 <= MAX_NODES {
      match req
      case All(rs) => if rs != [] { ValidateListIff(rs, depth + 1, count + 1); }
      case Any(rs) => if rs != [] { ValidateListIff(rs, depth + 1, count + 1); }
      case Not(r) => ValidateIff(r, depth + 1, count + 1);
      case _ =>
    } else {
      SizePositive(req);
    }
  }

  lemma {:induction false} ValidateListIff(rs: seq<Requirement>, depth: nat, count: nat)
    requires count <= MAX_NODES
    ensures var Validated(res, c) := ValidateList(rs, depth, count);
      (res.Ok? <==> (rs != [] ==> depth + HeightList(rs) <= MAX_DEPTH) && count + SizeList(rs) <= MAX_NODES && NoEmptyGroupsList(rs))
      && (res.Ok? ==> c == count + SizeList(rs))
    decreases rs, 0
  {
    if rs != [] {
      ValidateIff(rs[0], depth, count);
      var Validated(res, c) := ValidateInner(rs[0], depth, count);
      assert SizeList(rs) == Size(rs[0]) + SizeList(rs[1..]);
      assert NoEmptyGroupsList(rs) <==> NoEmptyGroups(rs[0]) && NoEmptyGroupsList(rs[1..]);
      if res.Ok? {
        ValidateListIff(rs[1..], depth, c);
        assert depth + HeightList(rs) <= MAX_DEPTH <==>
          depth + Height(rs[0]) <= MAX_DEPTH && (rs[1..] != [] ==> depth + HeightList(rs[1..]) <= MAX_DEPTH);
      } else {
        // The first child already breaks a limit, or holds an empty group.
        ValidateFailsLater(rs, depth, count);
      }
    }
  }

  /** If the first child fails validation, so does the whole list's condition. */
  lemma ValidateFailsLater(rs: seq<Requirement>, depth: nat, count: nat)
    requires rs != []
    requires !(depth + Height(rs[0]) <= MAX_DEPTH && count + Size(rs[0]) <= MAX_NODES && NoEmptyGroups(rs[0]))
    ensures !((depth + HeightList(rs) <= MAX_DEPTH) && count + SizeList(rs) <= MAX_NODES && NoEmptyGroupsList(rs))
  {
  }

  lemma SizePositive(req: Requirement)
    ensures Size(req) >= 1
  {
  }

  /** A tree that passes `validate_structure` is evaluated without error, to its logical meaning. */
  lemma ValidatedEvaluatesToMeaning(req: Requirement, ev: UserEvidence)
    requires ValidateStructure(req).Ok?
    ensures !Evaluate(req, ev).Error?
    ensures Evaluate(req, ev).Satisfied? <==> Holds(req, ev)
  {
    ValidateIff(req, 0, 0);
    EvalWithinLimits(req, ev, 0, 0);
    EvalSound(req, ev, 0, 0);
  }

  /** A tree nested deeper than 8 is refused by both the validator and the evaluator. */
  lemma TooDeepRejected(req: Requirement, ev: UserEvidence)
    requires Height(req) > MAX_DEPTH
    ensures ValidateStructure(req).Err?
  {
    ValidateIff(req, 0, 0);
  }

  /** A tree of more than 64 nodes is refused by the validator. */
  lemma TooLargeRejected(req: Requirement)
    requires Size(req) > MAX_NODES
    ensures ValidateStructure(req).Err?
  {
    ValidateIff(req, 0, 0);
  }

  /** An All or Any without children is refused by the validator. */
  lemma EmptyGroupRejected(rs: seq<Requirement>)
    requires rs == []
    ensures ValidateStructure(All(rs)).Err? && ValidateStructure(Any(rs)).Err?
  {
  }

  /** Nine nested Nots put a leaf at depth 9: the evaluator reports an Error. */
  lemma DepthNineIsError(ev: UserEvidence)
    ensures Evaluate(Not(Not(Not(Not(Not(Not(Not(Not(Not(Prove("x")))))))))), ev).Error?
  {
  }
}
