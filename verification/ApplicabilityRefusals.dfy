/** What a refusal of the applicability gate means: everything that can be in the way, in the
    order of importance, and what the decision says of the first of it. */
module ApplicabilityRefusals {
  import opened Wrappers
  import opened Texts
  import opened CanonicalJson
  import opened SetDigest
  import opened KnowledgeRevalidation
  import opened WorkflowApplicability
  import FastPathRoute
  import opened Envelopes

  datatype Obstacle =
    | Misshapen | CapabilitiesChanged | AuthorityChanged | InputsInconsistent | InputsIncomplete
    | WorkflowRepeated | NothingFits | SeveralFit | KnowledgeFaulty | OtherUseTime | NoEvidence | NoBoundary
    | RouteMisshapen | RequestTooWide | NotAuthorized

  const ORDER: seq<Obstacle> := [
    Misshapen, CapabilitiesChanged, AuthorityChanged, InputsInconsistent, InputsIncomplete,
    WorkflowRepeated, NothingFits, SeveralFit, KnowledgeFaulty, OtherUseTime, NoEvidence, NoBoundary,
    RouteMisshapen, RequestTooWide, NotAuthorized]

  predicate Fits(x: Input, m: Match) {
    m.contextDigest == x.contextDigest && m.contractDigest == x.contractDigest
  }

  ghost predicate Stands(x: Input, o: Obstacle) {
    var c, a := x.capabilities, x.authority;
    match o
    case Misshapen => !x.wellShaped
    case CapabilitiesChanged =>
      || multiset(c.baselineCeiling) != multiset(c.currentCeiling)
      || multiset(c.baselineEnabled) != multiset(c.currentEnabled)
    case AuthorityChanged =>
      || multiset(a.baselineRequirements) != multiset(a.currentRequirements)
      || multiset(a.baselineGrants) != multiset(a.currentGrants)
    case InputsInconsistent => !InputsConsistent(x.declarations, x.provided)
    case InputsIncomplete => !InputsComplete(x.declarations, x.provided)
    case WorkflowRepeated =>
      exists i, j :: 0 <= i < j < |x.matches| && x.matches[i].workflowRef == x.matches[j].workflowRef
    case NothingFits => forall m :: m in x.matches ==> !Fits(x, m)
    case SeveralFit => exists i, j :: 0 <= i < j < |x.matches| && Fits(x, x.matches[i]) && Fits(x, x.matches[j])
    case KnowledgeFaulty => !KnowledgeHolds(x.knowledge)
    case OtherUseTime => x.knowledge.asOfMs != x.useTimeMs
    case NoEvidence => !x.evidenceComplete
    case NoBoundary => !x.boundaryAvailable
    case RouteMisshapen =>
      || !x.routeShaped || !Distinct(c.currentCeiling) || !Distinct(c.currentEnabled) || !Distinct(c.requested)
      || (exists g :: g in a.currentGrants && g.validUntilMs <= g.validFromMs)
    case RequestTooWide => exists t :: t in c.requested && !(t in c.currentCeiling && t in c.currentEnabled)
    case NotAuthorized =>
      || a.stopped
      || (exists r :: r in a.currentRequirements && !FastPathRoute.Covered(r, a.currentGrants, x.useTimeMs))
  }

  ghost predicate Clear(x: Input, i: nat)
    requires i <= |ORDER|
  {
    forall j :: 0 <= j < i ==> !Stands(x, ORDER[j])
  }

  /** What is reported of faulty Knowledge: its shape, or every fault of every dependency. */
  ghost predicate KnowledgeFault(k: KnowledgeInput, r: Reason) {
    if !k.wellShaped then r == INVALID_INPUT else Raised(KnowledgeSubjects(k), k.records, k.asOfMs, r)
  }

  ghost predicate Says(d: Decision, status: Status, reason: Reason) {
    d.status == status && d.reasons == {reason}
  }

  /** What the decision says when `o` is the first obstacle. */
  ghost predicate Explains(x: Input, o: Obstacle, d: Decision) {
    && (match o
        case Misshapen => Says(d, FAST_PATH_ABORTED, INVALID_INPUT)
        case CapabilitiesChanged => Says(d, FAST_PATH_ABORTED, CAPABILITY_WIDENING)
        case AuthorityChanged => Says(d, FAST_PATH_ABORTED, AUTHORITY_WIDENING)
        case InputsInconsistent => Says(d, FAST_PATH_ABORTED, INVALID_INPUT)
        case InputsIncomplete => Says(d, FAST_PATH_ABORTED, MISSING_INPUT)
        case WorkflowRepeated => Says(d, FAST_PATH_ABORTED, AMBIGUOUS_MATCH)
        case NothingFits => Says(d, FAST_PATH_ABORTED, NOT_APPLICABLE)
        case SeveralFit => Says(d, FAST_PATH_ABORTED, AMBIGUOUS_MATCH)
        case KnowledgeFaulty =>
          && (forall r :: r in d.reasons <==> KnowledgeFault(x.knowledge, r))
          && d.status == (if d.reasons <= {INVALID_INPUT, AMBIGUOUS_MATCH} then FAST_PATH_ABORTED
                          else REVALIDATION_REQUIRED)
        case OtherUseTime => Says(d, REVALIDATION_REQUIRED, VERSION_DRIFT)
        case NoEvidence => Says(d, REVALIDATION_REQUIRED, EVIDENCE_INCOMPLETE)
        case NoBoundary => Says(d, REVALIDATION_REQUIRED, BOUNDARY_UNAVAILABLE)
        case RouteMisshapen => Says(d, FAST_PATH_ABORTED, INVALID_INPUT)
        case RequestTooWide => Says(d, FAST_PATH_ABORTED, CAPABILITY_WIDENING)
        case NotAuthorized => Says(d, FAST_PATH_ABORTED, AUTHORITY_WIDENING))
    && if o in {RouteMisshapen, RequestTooWide, NotAuthorized} then d.matched.Some? && OnlyFit(x, d.matched.value)
       else d.matched == None
  }

  // The gate in these terms

  lemma EnvelopeObstacles(x: Input)
    ensures SameCapabilities(x.capabilities) <==> !Stands(x, CapabilitiesChanged)
    ensures SameAuthority(x.authority) <==> !Stands(x, AuthorityChanged)
  {
    hide CapabilityEnvelopeDigest, AuthorityEnvelopeDigest;
    var c, a := x.capabilities, x.authority;
    CapabilityEnvelopesAgree(c.baselineCeiling, c.baselineEnabled, c.currentCeiling, c.currentEnabled);
    AuthorityEnvelopesAgree(a.baselineRequirements, a.baselineGrants, a.currentRequirements, a.currentGrants,
                            a.stopped);
  }

  lemma RepeatObstacle(x: Input)
    ensures Distinct(Map(Workflow, x.matches)) <==> !Stands(x, WorkflowRepeated)
  {
    hide Map;
    var names := Map(Workflow, x.matches);
    assert forall i :: 0 <= i < |x.matches| ==> names[i] == x.matches[i].workflowRef;
  }

  lemma FitObstacles(x: Input)
    ensures |Selected(x)| == 0 <==> Stands(x, NothingFits)
    ensures |Selected(x)| > 1 <==> Stands(x, SeveralFit)
  {
    hide Filter;
    var fits := (m: Match) => Compatible(m, x.contextDigest, x.contractDigest);
    assert Selected(x) == Filter(fits, x.matches);
    TwiceIsFiltered(fits, x.matches);
    NonEmpty(Selected(x));
  }

  lemma TypedObstacles(x: Input)
    ensures TypedInputsOf(x.declarations, x.provided) == Invalid <==> Stands(x, InputsInconsistent)
    ensures !Stands(x, InputsInconsistent) ==>
              (TypedInputsOf(x.declarations, x.provided) == Missing <==> Stands(x, InputsIncomplete))
  {
    hide InputsConsistent, InputsComplete;
  }

  lemma GateObstacle(x: Input, i: nat)
    requires i < 8 && Clear(x, i) && Stands(x, ORDER[i])
    ensures Gate(x).Some? && Explains(x, ORDER[i], Gate(x).value)
  {
    hide Stands, Selected, TypedInputsOf, SameCapabilities, SameAuthority, Distinct, Map, OnlyFit;
    ClearBefore(x, i);
    ShapeObstacle(x);
    EnvelopeObstacles(x);
    TypedObstacles(x);
    RepeatObstacle(x);
    FitObstacles(x);
  }

  lemma ShapeObstacle(x: Input)
    ensures Stands(x, Misshapen) <==> !x.wellShaped
    ensures Stands(x, OtherUseTime) <==> x.knowledge.asOfMs != x.useTimeMs
    ensures Stands(x, NoEvidence) <==> !x.evidenceComplete
    ensures Stands(x, NoBoundary) <==> !x.boundaryAvailable
  {
  }

  lemma ClearBefore(x: Input, i: nat)
    requires i <= |ORDER| && Clear(x, i)
    ensures 0 < i ==> !Stands(x, Misshapen)
    ensures 1 < i ==> !Stands(x, CapabilitiesChanged)
    ensures 2 < i ==> !Stands(x, AuthorityChanged)
    ensures 3 < i ==> !Stands(x, InputsInconsistent)
    ensures 4 < i ==> !Stands(x, InputsIncomplete)
    ensures 5 < i ==> !Stands(x, WorkflowRepeated)
    ensures 6 < i ==> !Stands(x, NothingFits)
    ensures 7 < i ==> !Stands(x, SeveralFit)
  {
    hide Stands;
    assert 0 < i ==> !Stands(x, ORDER[0]);
    assert 1 < i ==> !Stands(x, ORDER[1]);
    assert 2 < i ==> !Stands(x, ORDER[2]);
    assert 3 < i ==> !Stands(x, ORDER[3]);
    assert 4 < i ==> !Stands(x, ORDER[4]);
    assert 5 < i ==> !Stands(x, ORDER[5]);
    assert 6 < i ==> !Stands(x, ORDER[6]);
    assert 7 < i ==> !Stands(x, ORDER[7]);
  }

  lemma ClearAfter(x: Input, i: nat)
    requires 8 <= i <= |ORDER| && Clear(x, i)
    ensures 8 < i ==> !Stands(x, KnowledgeFaulty)
    ensures 9 < i ==> !Stands(x, OtherUseTime)
    ensures 10 < i ==> !Stands(x, NoEvidence)
    ensures 11 < i ==> !Stands(x, NoBoundary)
    ensures 12 < i ==> !Stands(x, RouteMisshapen)
    ensures 13 < i ==> !Stands(x, RequestTooWide)
    ensures 14 < i ==> !Stands(x, NotAuthorized)
  {
    hide Stands;
    assert 8 < i ==> !Stands(x, ORDER[8]);
    assert 9 < i ==> !Stands(x, ORDER[9]);
    assert 10 < i ==> !Stands(x, ORDER[10]);
    assert 11 < i ==> !Stands(x, ORDER[11]);
    assert 12 < i ==> !Stands(x, ORDER[12]);
    assert 13 < i ==> !Stands(x, ORDER[13]);
    assert 14 < i ==> !Stands(x, ORDER[14]);
  }

  lemma GatePassed(x: Input, i: nat)
    requires 8 <= i <= |ORDER| && Clear(x, i)
    ensures Gate(x).None? && |Selected(x)| == 1 && OnlyFit(x, Selected(x)[0].workflowRef)
  {
    hide Stands, Selected, TypedInputsOf, SameCapabilities, SameAuthority, Distinct, Map, OnlyFit;
    ClearBefore(x, i);
    ShapeObstacle(x);
    EnvelopeObstacles(x);
    TypedObstacles(x);
    RepeatObstacle(x);
    FitObstacles(x);
    SelectedIsOnlyFit(x);
  }

  // What comes after the gate

  lemma KnowledgeObstacle(x: Input)
    requires Clear(x, 8) && Stands(x, KnowledgeFaulty)
    ensures Explains(x, KnowledgeFaulty, Decide(x))
  {
    hide Gate, Raised, KnowledgeSubjects, KnowledgeHolds, Selected, OnlyFit, FastPathRoute.RouteOf;
    GatePassed(x, 8);
    KnowledgeHoldsIff(x.knowledge);
    var k := x.knowledge;
    forall r | r in KnowledgeReasons(k) ensures r in RAISABLE {
      if k.wellShaped {
        RaisedIsRaisable(KnowledgeSubjects(k), k.records, k.asOfMs, r);
      }
    }
    if KnowledgeReasons(k) <= {INVALID_INPUT, AMBIGUOUS_MATCH} {
      assert KnowledgeReasons(k) * DRIFT == {};
    } else {
      var r :| r in KnowledgeReasons(k) && r !in {INVALID_INPUT, AMBIGUOUS_MATCH};
      assert r in KnowledgeReasons(k) * DRIFT;
    }
  }

  lemma LaterObstacle(x: Input, i: nat)
    requires 9 <= i < 12 && Clear(x, i) && Stands(x, ORDER[i])
    ensures Explains(x, ORDER[i], Decide(x))
  {
    hide Stands, Gate, KnowledgeReasons, Selected, OnlyFit, FastPathRoute.RouteOf, KnowledgeHolds;
    GatePassed(x, i);
    ClearAfter(x, i);
    ShapeObstacle(x);
    KnowledgeClear(x);
  }

  lemma KnowledgeClear(x: Input)
    ensures Stands(x, KnowledgeFaulty) <==> KnowledgeReasons(x.knowledge) != {}
  {
    hide KnowledgeHolds, KnowledgeReasons;
    KnowledgeHoldsIff(x.knowledge);
  }

  lemma RouteObstacles(x: Input, workflow: Text)
    ensures FastPathRoute.WellFormed(RouteInput(x, workflow)) <==> !Stands(x, RouteMisshapen)
    ensures FastPathRoute.Narrow(RouteInput(x, workflow)) <==> !Stands(x, RequestTooWide)
    ensures FastPathRoute.Authorized(RouteInput(x, workflow)) <==> !Stands(x, NotAuthorized)
  {
    hide FastPathRoute.Covered;
  }

  lemma RouteObstacle(x: Input, i: nat)
    requires 12 <= i < |ORDER| && Clear(x, i) && Stands(x, ORDER[i])
    ensures Explains(x, ORDER[i], Decide(x))
  {
    hide Stands, Gate, KnowledgeReasons, Selected, OnlyFit, KnowledgeHolds;
    hide FastPathRoute.WellFormed, FastPathRoute.Narrow, FastPathRoute.Authorized;
    GatePassed(x, i);
    ClearAfter(x, i);
    ShapeObstacle(x);
    KnowledgeClear(x);
    RouteObstacles(x, Selected(x)[0].workflowRef);
  }

  /** The decision on every input that is not allowed: it reports the first obstacle, with
      exactly the reasons that belong to it. */
  lemma RefusalIsFirstObstacle(x: Input, i: nat)
    requires i < |ORDER| && Clear(x, i) && Stands(x, ORDER[i])
    ensures Explains(x, ORDER[i], Decide(x))
  {
    hide Stands, Clear, Explains, Gate, KnowledgeReasons, FastPathRoute.RouteOf, Selected;
    if i < 8 {
      GateObstacle(x, i);
    } else if i == 8 {
      assert ORDER[8] == KnowledgeFaulty;
      KnowledgeObstacle(x);
    } else if i < 12 {
      LaterObstacle(x, i);
    } else {
      RouteObstacle(x, i);
    }
  }

  /** And on every other input. */
  lemma AllowedIffClear(x: Input)
    ensures Decide(x).status == FAST_PATH_ALLOWED <==> Clear(x, |ORDER|)
    ensures Clear(x, |ORDER|) ==>
              && Decide(x).reasons == {NONE}
              && Decide(x).matched.Some? && OnlyFit(x, Decide(x).matched.value)
  {
    hide Stands, Gate, KnowledgeReasons, Selected, OnlyFit, Explains, KnowledgeHolds;
    hide FastPathRoute.WellFormed, FastPathRoute.Narrow, FastPathRoute.Authorized;
    if Clear(x, |ORDER|) {
      GatePassed(x, |ORDER|);
      ClearAfter(x, |ORDER|);
      ShapeObstacle(x);
      KnowledgeClear(x);
      RouteObstacles(x, Selected(x)[0].workflowRef);
    } else {
      var i := FirstStanding(x, |ORDER|);
      RefusalIsFirstObstacle(x, i);
      ExplainsRefusal(x, i, Decide(x));
    }
  }

  lemma {:induction false} FirstStanding(x: Input, n: nat) returns (i: nat)
    requires n <= |ORDER| && !Clear(x, n)
    ensures i < n && Clear(x, i) && Stands(x, ORDER[i])
  {
    hide Stands;
    if Clear(x, n - 1) {
      i := n - 1;
    } else {
      i := FirstStanding(x, n - 1);
    }
  }

  lemma ExplainsRefusal(x: Input, i: nat, d: Decision)
    requires i < |ORDER| && Explains(x, ORDER[i], d)
    ensures d.status != FAST_PATH_ALLOWED
  {
    hide OnlyFit, KnowledgeFault;
  }
}
