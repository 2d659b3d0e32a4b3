/** The fast-path route table: whether one matched workflow may take the fast path, given
    the statuses of its inputs and the capability and authority envelopes at use time. */
module FastPathRoute {
  import opened Wrappers
  import opened Texts
  import opened KnowledgeRevalidation

  // A capability is compared by its canonical text only.
  type Capability = Text

  datatype Requirement = Requirement(actor: Text, tenant: Text, action: Text, target: Text, scope: Option<Text>)

  datatype Grant = Grant(
    requirement: Requirement, approvalDigest: Text, validFromMs: int, validUntilMs: int, budgetLimitCents: Option<int>)

  datatype KnowledgeStatus =
    | KnowledgeCurrent | KnowledgeMissing | KnowledgeUnavailable
    | KnowledgeExpired | KnowledgeSuperseded | KnowledgeRevoked

  // `wellShaped` stands for the checks of single strings, digests and numbers.
  datatype Input = Input(
    wellShaped: bool, useTimeMs: int, matched: seq<Text>,
    inputsComplete: bool, knowledge: KnowledgeStatus, versionExact: bool, digestMatches: bool,
    evidenceComplete: bool, boundaryAvailable: bool,
    ceiling: seq<Capability>, policy: seq<Capability>, requested: seq<Capability>,
    requirements: seq<Requirement>, grants: seq<Grant>, stopped: bool)

  datatype Decision = Decision(status: Status, reason: Reason)

  /** The shape checks that relate fields: no repeated reference or capability, and no
      empty grant window. */
  predicate WellFormed(x: Input) {
    && x.wellShaped && NoRepeats(x.matched)
    && NoRepeats(x.ceiling) && NoRepeats(x.policy) && NoRepeats(x.requested)
    && (forall g :: g in x.grants ==> g.validFromMs < g.validUntilMs)
  }

  predicate NoRepeats(s: seq<Text>) {
    forall i, j :: 0 <= i < j < |s| ==> s[i] != s[j]
  }

  /** Exact coverage: every field of the requirement, and the window, both ends included. */
  predicate Covers(g: Grant, r: Requirement, useTimeMs: int) {
    g.requirement == r && g.validFromMs <= useTimeMs <= g.validUntilMs
  }

  predicate Covered(r: Requirement, grants: seq<Grant>, useTimeMs: int) {
    exists g :: g in grants && Covers(g, r, useTimeMs)
  }

  predicate Narrow(x: Input) {
    forall c :: c in x.requested ==> c in x.ceiling && c in x.policy
  }

  predicate Authorized(x: Input) {
    !x.stopped && forall r :: r in x.requirements ==> Covered(r, x.grants, x.useTimeMs)
  }

  /** What the statuses alone say, before the envelopes. */
  function StatusDecision(x: Input): Option<Decision> {
    if !x.inputsComplete then Some(Decision(FAST_PATH_ABORTED, MISSING_INPUT))
    else if x.knowledge == KnowledgeMissing || x.knowledge == KnowledgeUnavailable then
      Some(Decision(REVALIDATION_REQUIRED, KNOWLEDGE_MISSING))
    else if x.knowledge == KnowledgeExpired then Some(Decision(REVALIDATION_REQUIRED, STALE_KNOWLEDGE))
    else if x.knowledge == KnowledgeSuperseded || x.knowledge == KnowledgeRevoked then
      Some(Decision(REVALIDATION_REQUIRED, KNOWLEDGE_SUPERSEDED))
    else if !x.versionExact then Some(Decision(REVALIDATION_REQUIRED, VERSION_DRIFT))
    else if !x.digestMatches then Some(Decision(REVALIDATION_REQUIRED, DIGEST_MISMATCH))
    else if !x.evidenceComplete then Some(Decision(REVALIDATION_REQUIRED, EVIDENCE_INCOMPLETE))
    else if !x.boundaryAvailable then Some(Decision(REVALIDATION_REQUIRED, BOUNDARY_UNAVAILABLE))
    else None
  }

  function RouteOf(x: Input): Decision {
    if !WellFormed(x) then Decision(FAST_PATH_ABORTED, INVALID_INPUT)
    else if |x.matched| == 0 then Decision(FAST_PATH_ABORTED, NOT_APPLICABLE)
    else if |x.matched| > 1 then Decision(FAST_PATH_ABORTED, AMBIGUOUS_MATCH)
    else if StatusDecision(x).Some? then StatusDecision(x).value
    else if !Narrow(x) then Decision(FAST_PATH_ABORTED, CAPABILITY_WIDENING)
    else if !Authorized(x) then Decision(FAST_PATH_ABORTED, AUTHORITY_WIDENING)
    else Decision(FAST_PATH_ALLOWED, NONE)
  }

  method Route(x: Input) returns (d: Decision)
    ensures d == RouteOf(x)
  {
    hide NoRepeats;
    if !WellFormed(x) {
      return Decision(FAST_PATH_ABORTED, INVALID_INPUT);
    }
    if |x.matched| == 0 {
      return Decision(FAST_PATH_ABORTED, NOT_APPLICABLE);
    }
    if |x.matched| > 1 {
      return Decision(FAST_PATH_ABORTED, AMBIGUOUS_MATCH);
    }
    if StatusDecision(x).Some? {
      return StatusDecision(x).value;
    }
    for i := 0 to |x.requested|
      invariant forall j :: 0 <= j < i ==> x.requested[j] in x.ceiling && x.requested[j] in x.policy
    {
      if x.requested[i] !in x.ceiling || x.requested[i] !in x.policy {
        return Decision(FAST_PATH_ABORTED, CAPABILITY_WIDENING);
      }
    }
    assert Narrow(x);
    if x.stopped {
      return Decision(FAST_PATH_ABORTED, AUTHORITY_WIDENING);
    }
    for i := 0 to |x.requirements|
      invariant forall j :: 0 <= j < i ==> Covered(x.requirements[j], x.grants, x.useTimeMs)
    {
      var covered := false;
      for k := 0 to |x.grants|
        invariant covered <==> exists j :: 0 <= j < k && Covers(x.grants[j], x.requirements[i], x.useTimeMs)
      {
        covered := covered || Covers(x.grants[k], x.requirements[i], x.useTimeMs);
      }
      if !covered {
        assert x.requirements[i] in x.requirements && !Covered(x.requirements[i], x.grants, x.useTimeMs);
        return Decision(FAST_PATH_ABORTED, AUTHORITY_WIDENING);
      }
    }
    return Decision(FAST_PATH_ALLOWED, NONE);
  }

  /** Allowed exactly when everything is in order; the order of the checks is irrelevant
      for that. */
  lemma RouteAllowedIff(x: Input)
    ensures RouteOf(x).status == FAST_PATH_ALLOWED <==>
            && WellFormed(x) && |x.matched| == 1 && x.inputsComplete && x.knowledge == KnowledgeCurrent
            && x.versionExact && x.digestMatches && x.evidenceComplete && x.boundaryAvailable
            && Narrow(x) && Authorized(x)
    ensures RouteOf(x).status == FAST_PATH_ALLOWED <==> RouteOf(x).reason == NONE
  {
  }

  /** Narrowing is safe: fewer requested capabilities, a wider ceiling, a wider policy,
      fewer requirements or more grants never take an allowed route away. */
  lemma NarrowingKeepsAllowed(x: Input, y: Input)
    requires RouteOf(x).status == FAST_PATH_ALLOWED && WellFormed(y)
    requires forall c :: c in y.requested ==> c in x.requested
    requires forall c :: c in x.ceiling ==> c in y.ceiling
    requires forall c :: c in x.policy ==> c in y.policy
    requires forall r :: r in y.requirements ==> r in x.requirements
    requires forall g :: g in x.grants ==> g in y.grants
    requires y == x.(requested := y.requested, ceiling := y.ceiling, policy := y.policy,
                     requirements := y.requirements, grants := y.grants)
    ensures RouteOf(y) == RouteOf(x)
  {
    hide NoRepeats;
    RouteAllowedIff(x);
    forall r | r in y.requirements ensures Covered(r, y.grants, y.useTimeMs) {
      assert Covered(r, x.grants, x.useTimeMs);
      var g :| g in x.grants && Covers(g, r, x.useTimeMs);
      assert g in y.grants;
    }
  }

  // What a refusal means: the faults in the order in which they are reported.

  const PRIORITY: seq<Reason> := [
    INVALID_INPUT, NOT_APPLICABLE, AMBIGUOUS_MATCH, MISSING_INPUT, KNOWLEDGE_MISSING, STALE_KNOWLEDGE,
    KNOWLEDGE_SUPERSEDED, VERSION_DRIFT, DIGEST_MISMATCH, EVIDENCE_INCOMPLETE, BOUNDARY_UNAVAILABLE,
    CAPABILITY_WIDENING, AUTHORITY_WIDENING]

  const CURABLE: set<Reason> := {
    KNOWLEDGE_MISSING, STALE_KNOWLEDGE, KNOWLEDGE_SUPERSEDED, VERSION_DRIFT, DIGEST_MISMATCH,
    EVIDENCE_INCOMPLETE, BOUNDARY_UNAVAILABLE}

  predicate Fault(x: Input, r: Reason) {
    match r
    case INVALID_INPUT => !WellFormed(x)
    case NOT_APPLICABLE => |x.matched| == 0
    case AMBIGUOUS_MATCH => |x.matched| > 1
    case MISSING_INPUT => !x.inputsComplete
    case KNOWLEDGE_MISSING => x.knowledge.KnowledgeMissing? || x.knowledge.KnowledgeUnavailable?
    case STALE_KNOWLEDGE => x.knowledge.KnowledgeExpired?
    case KNOWLEDGE_SUPERSEDED => x.knowledge.KnowledgeSuperseded? || x.knowledge.KnowledgeRevoked?
    case VERSION_DRIFT => !x.versionExact
    case DIGEST_MISMATCH => !x.digestMatches
    case EVIDENCE_INCOMPLETE => !x.evidenceComplete
    case BOUNDARY_UNAVAILABLE => !x.boundaryAvailable
    case CAPABILITY_WIDENING => !Narrow(x)
    case AUTHORITY_WIDENING => !Authorized(x)
    case _ => false
  }

  predicate FirstFault(x: Input, i: nat)
    requires i < |PRIORITY|
  {
    Fault(x, PRIORITY[i]) && forall j :: 0 <= j < i ==> !Fault(x, PRIORITY[j])
  }

  lemma EarlyFault(x: Input, i: nat)
    requires i < 6 && FirstFault(x, i)
    ensures RouteOf(x).reason == PRIORITY[i]
    ensures RouteOf(x).status == if PRIORITY[i] in CURABLE then REVALIDATION_REQUIRED else FAST_PATH_ABORTED
  {
    hide WellFormed, Narrow, Authorized;
    assert 0 < i ==> !Fault(x, PRIORITY[0]);
    assert 1 < i ==> !Fault(x, PRIORITY[1]);
    assert 2 < i ==> !Fault(x, PRIORITY[2]);
    assert 3 < i ==> !Fault(x, PRIORITY[3]);
    assert 4 < i ==> !Fault(x, PRIORITY[4]);
  }

  lemma LateFault(x: Input, i: nat)
    requires 6 <= i < |PRIORITY| && FirstFault(x, i)
    ensures RouteOf(x).reason == PRIORITY[i]
    ensures RouteOf(x).status == if PRIORITY[i] in CURABLE then REVALIDATION_REQUIRED else FAST_PATH_ABORTED
  {
    hide WellFormed, Narrow, Authorized;
    assert !Fault(x, PRIORITY[0]) && !Fault(x, PRIORITY[1]) && !Fault(x, PRIORITY[2]);
    assert !Fault(x, PRIORITY[3]) && !Fault(x, PRIORITY[4]) && !Fault(x, PRIORITY[5]);
    assert 6 < i ==> !Fault(x, PRIORITY[6]);
    assert 7 < i ==> !Fault(x, PRIORITY[7]);
    assert 8 < i ==> !Fault(x, PRIORITY[8]);
    assert 9 < i ==> !Fault(x, PRIORITY[9]);
    assert 10 < i ==> !Fault(x, PRIORITY[10]);
    assert 11 < i ==> !Fault(x, PRIORITY[11]);
  }

  /** A refusal reports the most important fault that there is, and asks for revalidation
      exactly when that fault can be cured. */
  lemma RefusalIsFirstFault(x: Input, i: nat)
    requires i < |PRIORITY| && FirstFault(x, i)
    ensures RouteOf(x).reason == PRIORITY[i]
    ensures RouteOf(x).status == if PRIORITY[i] in CURABLE then REVALIDATION_REQUIRED else FAST_PATH_ABORTED
  {
    hide RouteOf, FirstFault;
    if i < 6 {
      EarlyFault(x, i);
    } else {
      LateFault(x, i);
    }
  }
}
