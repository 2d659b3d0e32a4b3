/** Shadow replay: recorded projections of a baseline and a governed path are compared on
    holdouts that have to pass the applicability gate, next to holdouts that have to be
    refused by it. */
module ShadowReplay {
  import opened Wrappers
  import opened Texts
  import opened Json
  import opened CanonicalJson
  import opened SetDigest
  import opened KnowledgeRevalidation
  import WorkflowApplicability

  datatype Metric = Metric(metricId: Text, metricVersion: Text, higherIsBetter: bool, value: real)

  // `rest` stands for the workflow and function references and the derived digests.
  datatype Dependencies = Dependencies(
    workflowInputs: seq<Binding>, functionInputs: seq<Binding>, receipts: seq<Text>, rest: Text)

  datatype Projection = Projection(
    output: Value, verification: Text, rollback: Text, dependencies: Dependencies, quality: Metric, cost: Metric)

  datatype Expected = Applicable | SafeAbort

  // `wellShaped` stands for the checks of single strings and digests.
  datatype Holdout = Holdout(
    wellShaped: bool, holdoutId: Text, input: WorkflowApplicability.Input, expected: Expected,
    expectedReasons: seq<Reason>, baseline: Option<Projection>, governed: Option<Projection>)

  datatype HoldoutOutcome = ParityVerified | SafelyAborted | Rejected

  datatype Result = Result(holdoutId: Text, outcome: HoldoutOutcome)

  datatype Verdict = ShadowParityVerified | ShadowReplayAborted

  // Reason codes come out in one fixed order, so a set says as much as the list.
  datatype Decision = Decision(
    verdict: Verdict, reasons: set<Reason>, applicable: nat, safeAborts: nat, results: seq<Result>)

  const SAFE_ABORT_REASONS: set<Reason> := {
    INVALID_INPUT, MISSING_INPUT, NOT_APPLICABLE, AMBIGUOUS_MATCH, KNOWLEDGE_MISSING, STALE_KNOWLEDGE,
    KNOWLEDGE_SUPERSEDED, VERSION_DRIFT, DIGEST_MISMATCH, EVIDENCE_INCOMPLETE, BOUNDARY_UNAVAILABLE,
    CAPABILITY_WIDENING, AUTHORITY_WIDENING}

  // Shapes

  predicate ProjectionShaped(p: Projection) {
    Proper(p.output) && p.quality.higherIsBetter && !p.cost.higherIsBetter
  }

  predicate IsHoldout(h: Holdout) {
    && h.wellShaped && h.expectedReasons != [] && NoRepeats(h.expectedReasons)
    && if h.expected == Applicable then
         && h.expectedReasons == [NONE] && h.baseline.Some? && h.governed.Some?
         && ProjectionShaped(h.baseline.value) && ProjectionShaped(h.governed.value)
       else
         && h.baseline.None? && h.governed.None?
         && forall r :: r in h.expectedReasons ==> r in SAFE_ABORT_REASONS
  }

  predicate NoRepeats(s: seq<Reason>) {
    forall i, j :: 0 <= i < j < |s| ==> s[i] != s[j]
  }

  predicate WellFormed(holdouts: seq<Holdout>, required: seq<Reason>) {
    && (forall i :: 0 <= i < |holdouts| ==> IsHoldout(holdouts[i]))
    && holdouts != [] && (forall i, j :: 0 <= i < j < |holdouts| ==> holdouts[i].holdoutId != holdouts[j].holdoutId)
    && required != [] && NoRepeats(required)
  }

  // Dependencies are compared by the digest of their canonical text.

  function BindingMembers(b: Binding): seq<Member> {
    [Member(Ascii("knowledgeId"), String(b.knowledgeId)), Member(Ascii("version"), String(b.version)),
     Member(Ascii("digest"), String(b.digest)), Member(Ascii("freshness"), FreshnessValue(b.freshness)),
     Member(Ascii("scope"), String(b.scope))]
  }

  function BindingValue(b: Binding): Value {
    Object(BindingMembers(b))
  }

  function BindingsValue(bindings: seq<Binding>): Value {
    Array(Map(BindingValue, bindings))
  }

  function TextsValue(texts: seq<Text>): Value {
    Array(Map(AsString, texts))
  }

  function DependencyMembers(d: Dependencies): seq<Member> {
    [Member(Ascii("knowledgeWorkflowInputs"), BindingsValue(d.workflowInputs)),
     Member(Ascii("knowledgeFunctionInputs"), BindingsValue(d.functionInputs)),
     Member(Ascii("historicalReceipts"), TextsValue(d.receipts)), Member(Ascii("rest"), String(d.rest))]
  }

  function DependenciesValue(d: Dependencies): Value {
    Object(DependencyMembers(d))
  }

  function ValueDigest(v: Value): Digest {
    Sha256(Canonical(v))
  }

  /** Equal up to the order in which freshness windows list their keys. */
  predicate SameBindings(a: seq<Binding>, b: seq<Binding>) {
    Map(Plain, a) == Map(Plain, b)
  }

  predicate SameDependencies(d: Dependencies, e: Dependencies) {
    && SameBindings(d.workflowInputs, e.workflowInputs) && SameBindings(d.functionInputs, e.functionInputs)
    && d.receipts == e.receipts && d.rest == e.rest
  }

  lemma BindingIsProper(b: Binding)
    ensures KeysDiffer(BindingMembers(b)) && Proper(BindingValue(b))
  {
    hide Ascii, FreshnessValue;
    FreshnessIsProper(b.freshness);
  }

  lemma BindingValuesAgree(b: Binding, c: Binding)
    ensures Equal(BindingValue(b), BindingValue(c)) <==> Plain(b) == Plain(c)
  {
    hide Ascii, FreshnessValue, Equal, KeysDiffer;
    var ms, ns := BindingMembers(b), BindingMembers(c);
    BindingIsProper(c);
    AlignedObjects(ms, ns);
    StringsMatch(b.knowledgeId, c.knowledgeId);
    StringsMatch(b.version, c.version);
    StringsMatch(b.digest, c.digest);
    FreshnessValuesAgree(b.freshness, c.freshness);
    StringsMatch(b.scope, c.scope);
    if forall i :: 0 <= i < 5 ==> Equal(ms[i].value, ns[i].value) {
      assert Equal(ms[0].value, ns[0].value) && Equal(ms[1].value, ns[1].value) && Equal(ms[2].value, ns[2].value);
      assert Equal(ms[3].value, ns[3].value) && Equal(ms[4].value, ns[4].value);
    }
  }

  lemma ProperArray(a: seq<Value>)
    requires forall i :: 0 <= i < |a| ==> Proper(a[i])
    ensures Proper(Array(a))
  {
  }

  lemma BindingsAreProper(a: seq<Binding>)
    ensures Proper(BindingsValue(a))
  {
    hide Map, BindingValue, Proper;
    forall i | 0 <= i < |a| ensures Proper(Map(BindingValue, a)[i]) {
      BindingIsProper(a[i]);
    }
    ProperArray(Map(BindingValue, a));
  }

  lemma BindingsValuesAgree(a: seq<Binding>, b: seq<Binding>)
    ensures Equal(BindingsValue(a), BindingsValue(b)) <==> SameBindings(a, b)
  {
    hide Map, BindingValue, Equal, Plain;
    var x, y := Map(Plain, a), Map(Plain, b);
    EqualArrays(Map(BindingValue, a), Map(BindingValue, b));
    if |a| == |b| {
      forall i | 0 <= i < |a| ensures Equal(Map(BindingValue, a)[i], Map(BindingValue, b)[i]) <==> x[i] == y[i] {
        BindingValuesAgree(a[i], b[i]);
      }
    }
    assert x == y <==> |x| == |y| && forall i :: 0 <= i < |x| ==> x[i] == y[i];
  }

  lemma TextsAreProper(a: seq<Text>)
    ensures Proper(TextsValue(a))
  {
    hide Map;
    ProperArray(Map(AsString, a));
  }

  lemma TextsValuesAgree(a: seq<Text>, b: seq<Text>)
    ensures Equal(TextsValue(a), TextsValue(b)) <==> a == b
  {
    hide Map, Equal;
    EqualArrays(Map(AsString, a), Map(AsString, b));
    if |a| == |b| {
      forall i | 0 <= i < |a| ensures Equal(Map(AsString, a)[i], Map(AsString, b)[i]) <==> a[i] == b[i] {
        StringsMatch(a[i], b[i]);
      }
    }
  }

  lemma DependenciesAreProper(d: Dependencies)
    ensures KeysDiffer(DependencyMembers(d)) && Proper(DependenciesValue(d))
  {
    hide Ascii, BindingsValue, TextsValue;
    AsciiDiffer("knowledgeWorkflowInputs", "knowledgeFunctionInputs", 9);
    BindingsAreProper(d.workflowInputs);
    BindingsAreProper(d.functionInputs);
    TextsAreProper(d.receipts);
  }

  /** Dependency snapshots have one digest exactly when they agree on everything but the
      order of keys. */
  lemma DependenciesAgree(d: Dependencies, e: Dependencies)
    ensures ValueDigest(DependenciesValue(d)) == ValueDigest(DependenciesValue(e)) <==> SameDependencies(d, e)
  {
    hide Ascii, BindingsValue, TextsValue, Equal, KeysDiffer, Proper, Canonical, SameBindings;
    var ms, ns := DependencyMembers(d), DependencyMembers(e);
    DependenciesAreProper(d);
    DependenciesAreProper(e);
    CanonicalAgrees(DependenciesValue(d), DependenciesValue(e));
    AlignedObjects(ms, ns);
    BindingsValuesAgree(d.workflowInputs, e.workflowInputs);
    BindingsValuesAgree(d.functionInputs, e.functionInputs);
    TextsValuesAgree(d.receipts, e.receipts);
    StringsMatch(d.rest, e.rest);
    if forall i :: 0 <= i < 4 ==> Equal(ms[i].value, ns[i].value) {
      assert Equal(ms[0].value, ns[0].value) && Equal(ms[1].value, ns[1].value);
      assert Equal(ms[2].value, ns[2].value) && Equal(ms[3].value, ns[3].value);
    }
  }

  predicate SameKnowledgeInputs(x: WorkflowApplicability.Input, d: Dependencies) {
    && ValueDigest(BindingsValue(x.knowledge.workflowInputs)) == ValueDigest(BindingsValue(d.workflowInputs))
    && ValueDigest(BindingsValue(x.knowledge.functionInputs)) == ValueDigest(BindingsValue(d.functionInputs))
    && ValueDigest(TextsValue(x.knowledge.receipts)) == ValueDigest(TextsValue(d.receipts))
  }

  /** The snapshot records the very Knowledge that the gate looked at. */
  predicate RecordsKnowledge(x: WorkflowApplicability.Input, d: Dependencies) {
    && SameBindings(x.knowledge.workflowInputs, d.workflowInputs)
    && SameBindings(x.knowledge.functionInputs, d.functionInputs) && x.knowledge.receipts == d.receipts
  }

  lemma SameKnowledgeIff(x: WorkflowApplicability.Input, d: Dependencies)
    ensures SameKnowledgeInputs(x, d) <==> RecordsKnowledge(x, d)
  {
    hide BindingsValue, TextsValue, Equal, Proper, Canonical, SameBindings;
    var k := x.knowledge;
    BindingsAreProper(k.workflowInputs);
    BindingsAreProper(d.workflowInputs);
    BindingsAreProper(k.functionInputs);
    BindingsAreProper(d.functionInputs);
    TextsAreProper(k.receipts);
    TextsAreProper(d.receipts);
    CanonicalAgrees(BindingsValue(k.workflowInputs), BindingsValue(d.workflowInputs));
    CanonicalAgrees(BindingsValue(k.functionInputs), BindingsValue(d.functionInputs));
    CanonicalAgrees(TextsValue(k.receipts), TextsValue(d.receipts));
    BindingsValuesAgree(k.workflowInputs, d.workflowInputs);
    BindingsValuesAgree(k.functionInputs, d.functionInputs);
    TextsValuesAgree(k.receipts, d.receipts);
  }

  // The comparison of two projections

  predicate SameMetric(a: Metric, b: Metric) {
    a.metricId == b.metricId && a.metricVersion == b.metricVersion && a.higherIsBetter == b.higherIsBetter
  }

  /** The failed comparisons. */
  function Failures(baseline: Projection, governed: Projection): set<Reason> {
    (if ValueDigest(governed.output) != ValueDigest(baseline.output) then {OUTPUT_MISMATCH} else {})
    + (if governed.verification != baseline.verification then {VERIFICATION_MISMATCH} else {})
    + (if governed.rollback != baseline.rollback then {ROLLBACK_MISMATCH} else {})
    + (if ValueDigest(DependenciesValue(governed.dependencies)) != ValueDigest(DependenciesValue(baseline.dependencies))
       then {DEPENDENCY_MISMATCH} else {})
    + (if !SameMetric(governed.quality, baseline.quality) || governed.quality.value < baseline.quality.value
       then {QUALITY_REGRESSION} else {})
    + (if !SameMetric(governed.cost, baseline.cost) || governed.cost.value >= baseline.cost.value
       then {REASONING_COST_NOT_LOWER} else {})
  }

  /** The governed path does the same work, at least as well and strictly cheaper. */
  ghost predicate Parity(baseline: Projection, governed: Projection) {
    && Equal(governed.output, baseline.output)
    && governed.verification == baseline.verification && governed.rollback == baseline.rollback
    && SameDependencies(governed.dependencies, baseline.dependencies)
    && SameMetric(governed.quality, baseline.quality) && governed.quality.value >= baseline.quality.value
    && SameMetric(governed.cost, baseline.cost) && governed.cost.value < baseline.cost.value
  }

  lemma NoFailuresIsParity(baseline: Projection, governed: Projection)
    requires Proper(baseline.output) && Proper(governed.output)
    ensures Failures(baseline, governed) == {} <==> Parity(baseline, governed)
  {
    hide Canonical, Proper, Equal, DependenciesValue, SameDependencies;
    CanonicalAgrees(governed.output, baseline.output);
    DependenciesAgree(governed.dependencies, baseline.dependencies);
  }

  /** Which difference gives which reason. */
  lemma FailuresMean(baseline: Projection, governed: Projection)
    requires Proper(baseline.output) && Proper(governed.output)
    ensures var fs := Failures(baseline, governed);
      && (OUTPUT_MISMATCH in fs <==> !Equal(governed.output, baseline.output))
      && (VERIFICATION_MISMATCH in fs <==> governed.verification != baseline.verification)
      && (ROLLBACK_MISMATCH in fs <==> governed.rollback != baseline.rollback)
      && (DEPENDENCY_MISMATCH in fs <==> !SameDependencies(governed.dependencies, baseline.dependencies))
      && (QUALITY_REGRESSION in fs <==>
            !(SameMetric(governed.quality, baseline.quality) && baseline.quality.value <= governed.quality.value))
      && (REASONING_COST_NOT_LOWER in fs <==>
            !(SameMetric(governed.cost, baseline.cost) && governed.cost.value < baseline.cost.value))
      && fs <= {OUTPUT_MISMATCH, VERIFICATION_MISMATCH, ROLLBACK_MISMATCH, DEPENDENCY_MISMATCH,
                QUALITY_REGRESSION, REASONING_COST_NOT_LOWER}
  {
    hide Canonical, Proper, Equal, DependenciesValue, SameDependencies, SameMetric;
    CanonicalAgrees(governed.output, baseline.output);
    DependenciesAgree(governed.dependencies, baseline.dependencies);
  }

  // Single holdouts

  function SetOf(reasons: seq<Reason>): set<Reason> {
    set r | r in reasons
  }

  /** What an applicable holdout has to show. */
  ghost predicate ApplicableHolds(h: Holdout)
    requires IsHoldout(h) && h.expected == Applicable
  {
    && WorkflowApplicability.Decide(h.input).status == FAST_PATH_ALLOWED
    && RecordsKnowledge(h.input, h.baseline.value.dependencies)
    && RecordsKnowledge(h.input, h.governed.value.dependencies)
    && Parity(h.baseline.value, h.governed.value)
  }

  /** What a refused holdout has to show: refusal, for exactly the expected reasons. */
  ghost predicate AbortHolds(h: Holdout) {
    && WorkflowApplicability.Decide(h.input).status != FAST_PATH_ALLOWED
    && WorkflowApplicability.Decide(h.input).reasons == SetOf(h.expectedReasons)
  }

  ghost predicate Holds(h: Holdout)
    requires IsHoldout(h)
  {
    if h.expected == Applicable then ApplicableHolds(h) else AbortHolds(h)
  }

  ghost function OutcomeOf(h: Holdout): HoldoutOutcome
    requires IsHoldout(h)
  {
    if !Holds(h) then Rejected else if h.expected == Applicable then ParityVerified else SafelyAborted
  }

  /** What a holdout adds to the reasons of the replay. */
  ghost function AddedReasons(h: Holdout): set<Reason>
    requires IsHoldout(h)
  {
    var d := WorkflowApplicability.Decide(h.input);
    if h.expected == SafeAbort then if AbortHolds(h) then {} else {SAFE_ABORT_REQUIRED}
    else if d.status != FAST_PATH_ALLOWED then d.reasons
    else if !RecordsKnowledge(h.input, h.baseline.value.dependencies)
         || !RecordsKnowledge(h.input, h.governed.value.dependencies) then {DEPENDENCY_MISMATCH}
    else Failures(h.baseline.value, h.governed.value)
  }

  /** Exactly the rejected holdouts add reasons, and never NONE. */
  lemma AddedIffRejected(h: Holdout)
    requires IsHoldout(h)
    ensures OutcomeOf(h) == Rejected <==> AddedReasons(h) != {}
    ensures NONE !in AddedReasons(h)
  {
    hide WorkflowApplicability.Decide, Failures, Proper, Parity, RecordsKnowledge;
    WorkflowApplicability.AllowedIffNone(h.input);
    if h.expected == Applicable {
      NoFailuresIsParity(h.baseline.value, h.governed.value);
      FailuresAreNamed(h.baseline.value, h.governed.value);
    }
  }

  /** One turn of the loop: the outcome, and the reasons that it adds. */
  method Judge(h: Holdout) returns (outcome: HoldoutOutcome, added: set<Reason>)
    requires IsHoldout(h)
    ensures outcome == OutcomeOf(h)
    ensures added == AddedReasons(h)
  {
    hide WorkflowApplicability.Decide, Failures, Proper, Parity, SameKnowledgeInputs, RecordsKnowledge;
    var d := WorkflowApplicability.Evaluate(h.input);
    WorkflowApplicability.AllowedIffNone(h.input);
    var exactReasonParity := d.reasons == SetOf(h.expectedReasons);
    if h.expected == Applicable {
      SameKnowledgeIff(h.input, h.baseline.value.dependencies);
      SameKnowledgeIff(h.input, h.governed.value.dependencies);
      if d.status != FAST_PATH_ALLOWED || !exactReasonParity {
        return Rejected, d.reasons;
      }
      if !SameKnowledgeInputs(h.input, h.baseline.value.dependencies)
         || !SameKnowledgeInputs(h.input, h.governed.value.dependencies) {
        return Rejected, {DEPENDENCY_MISMATCH};
      }
      var failures := Failures(h.baseline.value, h.governed.value);
      NoFailuresIsParity(h.baseline.value, h.governed.value);
      return if failures == {} then ParityVerified else Rejected, failures;
    }
    if d.status == FAST_PATH_ALLOWED || !exactReasonParity {
      return Rejected, {SAFE_ABORT_REQUIRED};
    }
    return SafelyAborted, {};
  }

  lemma FailuresAreNamed(baseline: Projection, governed: Projection)
    ensures NONE !in Failures(baseline, governed)
  {
    hide ValueDigest, DependenciesValue, SameMetric;
  }

  // Whole replays

  predicate IsApplicable(h: Holdout) {
    h.expected == Applicable
  }

  ghost predicate AbortsSafely(h: Holdout) {
    IsHoldout(h) && OutcomeOf(h) == SafelyAborted
  }

  ghost function Count(p: Holdout -> bool, holdouts: seq<Holdout>): nat {
    if holdouts == [] then 0
    else Count(p, holdouts[..|holdouts| - 1]) + if p(holdouts[|holdouts| - 1]) then 1 else 0
  }

  lemma {:induction false} CountIsZero(p: Holdout -> bool, holdouts: seq<Holdout>)
    ensures Count(p, holdouts) == 0 <==> forall h :: h in holdouts ==> !p(h)
  {
    if holdouts != [] {
      var n := |holdouts| - 1;
      CountIsZero(p, holdouts[..n]);
      assert holdouts == holdouts[..n] + [holdouts[n]];
    }
  }

  predicate Expects(h: Holdout, r: Reason) {
    h.expected == SafeAbort && r in h.expectedReasons
  }

  predicate SomeExpects(holdouts: seq<Holdout>, r: Reason) {
    exists h :: h in holdouts && Expects(h, r)
  }

  ghost predicate AddedBy(done: seq<Holdout>, r: Reason)
    requires forall i :: 0 <= i < |done| ==> IsHoldout(done[i])
  {
    exists i :: 0 <= i < |done| && r in AddedReasons(done[i])
  }

  lemma AddedBySnoc(done: seq<Holdout>, h: Holdout, r: Reason)
    requires IsHoldout(h) && forall i :: 0 <= i < |done| ==> IsHoldout(done[i])
    ensures forall i :: 0 <= i < |done + [h]| ==> IsHoldout((done + [h])[i])
    ensures AddedBy(done + [h], r) <==> AddedBy(done, r) || r in AddedReasons(h)
  {
    hide IsHoldout, AddedReasons;
    var all := done + [h];
    assert all[|done|] == h && forall i :: 0 <= i < |done| ==> all[i] == done[i];
  }

  /** The state of the first loop after `done`. */
  ghost predicate Progress(done: seq<Holdout>, results: seq<Result>, reasons: set<Reason>, invalid: bool,
                           applicable: nat, safeAborts: nat)
    requires forall i :: 0 <= i < |done| ==> IsHoldout(done[i])
  {
    && |results| == |done|
    && (forall i :: 0 <= i < |done| ==> results[i] == Result(done[i].holdoutId, OutcomeOf(done[i])))
    && (invalid <==> exists i :: 0 <= i < |done| && OutcomeOf(done[i]) == Rejected)
    && (forall r :: r in reasons <==> AddedBy(done, r))
    && applicable == Count(IsApplicable, done) && safeAborts == Count(AbortsSafely, done)
  }

  lemma ProgressStep(done: seq<Holdout>, results: seq<Result>, reasons: set<Reason>, invalid: bool,
                     applicable: nat, safeAborts: nat, h: Holdout, outcome: HoldoutOutcome, added: set<Reason>)
    requires IsHoldout(h) && forall i :: 0 <= i < |done| ==> IsHoldout(done[i])
    requires Progress(done, results, reasons, invalid, applicable, safeAborts)
    requires outcome == OutcomeOf(h) && added == AddedReasons(h)
    ensures forall i :: 0 <= i < |done + [h]| ==> IsHoldout((done + [h])[i])
    ensures Progress(done + [h], results + [Result(h.holdoutId, outcome)], reasons + added,
                     invalid || outcome == Rejected,
                     applicable + (if h.expected == Applicable then 1 else 0),
                     safeAborts + (if outcome == SafelyAborted then 1 else 0))
  {
    hide IsHoldout, OutcomeOf, AddedReasons, AddedBy;
    var all := done + [h];
    assert all[..|done|] == done && all[|done|] == h;
    forall r ensures r in reasons + added <==> AddedBy(all, r) {
      AddedBySnoc(done, h, r);
    }
    forall i | 0 <= i < |all| ensures IsHoldout(all[i]) {
      if i < |done| {
        assert all[i] == done[i];
      }
    }
    forall i | 0 <= i < |all|
      ensures (results + [Result(h.holdoutId, outcome)])[i] == Result(all[i].holdoutId, OutcomeOf(all[i]))
    {
      if i < |done| {
        assert all[i] == done[i];
      }
    }
    if i :| 0 <= i < |done| && OutcomeOf(done[i]) == Rejected {
      assert OutcomeOf(all[i]) == Rejected;
    }
    if i :| 0 <= i < |all| && OutcomeOf(all[i]) == Rejected {
      assert i < |done| ==> OutcomeOf(done[i]) == Rejected;
    }
  }

  /** Every required reason is expected by some refused holdout. */
  predicate Covered(holdouts: seq<Holdout>, required: seq<Reason>) {
    forall r :: r in required ==> SomeExpects(holdouts, r)
  }

  lemma RejectedIffAdded(holdouts: seq<Holdout>)
    requires forall i :: 0 <= i < |holdouts| ==> IsHoldout(holdouts[i])
    ensures (exists i :: 0 <= i < |holdouts| && OutcomeOf(holdouts[i]) == Rejected) <==>
            exists r :: AddedBy(holdouts, r)
    ensures !AddedBy(holdouts, NONE)
  {
    hide IsHoldout, OutcomeOf, AddedReasons;
    forall i | 0 <= i < |holdouts|
      ensures OutcomeOf(holdouts[i]) == Rejected <==> AddedReasons(holdouts[i]) != {}
      ensures NONE !in AddedReasons(holdouts[i])
    {
      AddedIffRejected(holdouts[i]);
    }
    if i :| 0 <= i < |holdouts| && OutcomeOf(holdouts[i]) == Rejected {
      var r :| r in AddedReasons(holdouts[i]);
      assert AddedBy(holdouts, r);
    }
  }

  /** A replay reports what its holdouts add, and three complaints of its own. */
  ghost predicate Reported(holdouts: seq<Holdout>, required: seq<Reason>, r: Reason)
    requires WellFormed(holdouts, required)
  {
    || AddedBy(holdouts, r)
    || (r == SAFE_ABORT_REQUIRED && !Covered(holdouts, required))
    || (r == SAFE_ABORT_REQUIRED && forall h :: h in holdouts ==> !AbortsSafely(h))
    || (r == NOT_APPLICABLE && forall h :: h in holdouts ==> !IsApplicable(h))
  }

  /** What a replay has to say. */
  ghost predicate IsDecision(holdouts: seq<Holdout>, required: seq<Reason>, d: Decision)
    requires WellFormed(holdouts, required)
  {
    && |d.results| == |holdouts|
    && (forall i :: 0 <= i < |holdouts| ==> d.results[i] == Result(holdouts[i].holdoutId, OutcomeOf(holdouts[i])))
    && d.applicable == Count(IsApplicable, holdouts) && d.safeAborts == Count(AbortsSafely, holdouts)
    && (d.verdict == ShadowParityVerified <==>
        && (forall i :: 0 <= i < |holdouts| ==> OutcomeOf(holdouts[i]) != Rejected)
        && d.applicable > 0 && d.safeAborts > 0
        && Covered(holdouts, required))
    && (d.verdict == ShadowParityVerified ==> d.reasons == {NONE})
    && (d.verdict == ShadowReplayAborted ==> forall r :: r in d.reasons <==> Reported(holdouts, required, r))
  }

  method JudgeAll(holdouts: seq<Holdout>)
    returns (results: seq<Result>, reasons: set<Reason>, invalid: bool, applicable: nat, safeAborts: nat)
    requires forall i :: 0 <= i < |holdouts| ==> IsHoldout(holdouts[i])
    ensures Progress(holdouts, results, reasons, invalid, applicable, safeAborts)
  {
    hide IsHoldout, OutcomeOf, Progress, AddedReasons;
    results, reasons, invalid, applicable, safeAborts := [], {}, false, 0, 0;
    NothingJudged();
    for i := 0 to |holdouts|
      invariant Progress(holdouts[..i], results, reasons, invalid, applicable, safeAborts)
    {
      var h := holdouts[i];
      var outcome, added := Judge(h);
      ProgressStep(holdouts[..i], results, reasons, invalid, applicable, safeAborts, h, outcome, added);
      assert holdouts[..i + 1] == holdouts[..i] + [h];
      results, reasons := results + [Result(h.holdoutId, outcome)], reasons + added;
      invalid := invalid || outcome == Rejected;
      applicable := applicable + if h.expected == Applicable then 1 else 0;
      safeAborts := safeAborts + if outcome == SafelyAborted then 1 else 0;
    }
    assert holdouts[..|holdouts|] == holdouts;
  }

  lemma NothingJudged()
    ensures Progress([], [], {}, false, 0, 0)
  {
  }

  method Replay(holdouts: seq<Holdout>, required: seq<Reason>) returns (d: Decision)
    ensures !WellFormed(holdouts, required) ==> d == Decision(ShadowReplayAborted, {INVALID_INPUT}, 0, 0, [])
    ensures WellFormed(holdouts, required) ==> IsDecision(holdouts, required, d)
  {
    hide IsHoldout, OutcomeOf, SomeExpects, AddedBy, AbortsSafely, Count, NoRepeats;
    if !WellFormed(holdouts, required) {
      return Decision(ShadowReplayAborted, {INVALID_INPUT}, 0, 0, []);
    }
    var results, reasons, invalid, applicable, safeAborts := JudgeAll(holdouts);
    ghost var judged, rejected := reasons, invalid;
    for k := 0 to |required|
      invariant invalid <==> rejected || !Covered(holdouts, required[..k])
      invariant reasons == judged + if Covered(holdouts, required[..k]) then {} else {SAFE_ABORT_REQUIRED}
    {
      assert required[..k + 1] == required[..k] + [required[k]];
      if !SomeExpects(holdouts, required[k]) {
        invalid, reasons := true, reasons + {SAFE_ABORT_REQUIRED};
      }
    }
    assert required[..|required|] == required;
    if applicable == 0 {
      invalid, reasons := true, reasons + {NOT_APPLICABLE};
    }
    if safeAborts == 0 {
      invalid, reasons := true, reasons + {SAFE_ABORT_REQUIRED};
    }
    CountIsZero(IsApplicable, holdouts);
    CountIsZero(AbortsSafely, holdouts);
    RejectedIffAdded(holdouts);
    d := Decision(if invalid then ShadowReplayAborted else ShadowParityVerified,
                  if reasons == {} then {NONE} else reasons, applicable, safeAborts, results);
  }

  /** What one rejected holdout is reported for: a refusal that should not have been, for the
      refusal's own reasons; a safe abort that did not happen, or for other reasons; or what
      the two projections differ in, the Knowledge that they record coming first. */
  lemma AddedMeans(h: Holdout)
    requires IsHoldout(h)
    ensures h.expected == SafeAbort ==> AddedReasons(h) == if AbortHolds(h) then {} else {SAFE_ABORT_REQUIRED}
    ensures h.expected == Applicable && WorkflowApplicability.Decide(h.input).status != FAST_PATH_ALLOWED ==>
              AddedReasons(h) == WorkflowApplicability.Decide(h.input).reasons
    ensures h.expected == Applicable && WorkflowApplicability.Decide(h.input).status == FAST_PATH_ALLOWED ==>
              var b, g := h.baseline.value, h.governed.value;
              AddedReasons(h) ==
                if RecordsKnowledge(h.input, b.dependencies) && RecordsKnowledge(h.input, g.dependencies)
                then Failures(b, g) else {DEPENDENCY_MISMATCH}
  {
    hide WorkflowApplicability.Decide, Failures, Proper, RecordsKnowledge, AbortHolds;
  }

  /** The three closing rules, seen where every holdout holds: what is then reported is that
      there is no holdout of one kind, or that a required reason is expected by none. */
  lemma ClosingReasons(holdouts: seq<Holdout>, required: seq<Reason>, d: Decision)
    requires WellFormed(holdouts, required) && IsDecision(holdouts, required, d)
    requires d.verdict == ShadowReplayAborted && forall i :: 0 <= i < |holdouts| ==> Holds(holdouts[i])
    ensures NOT_APPLICABLE in d.reasons <==> forall h :: h in holdouts ==> h.expected != Applicable
    ensures SAFE_ABORT_REQUIRED in d.reasons <==>
            || (forall h :: h in holdouts ==> h.expected != SafeAbort)
            || (exists r :: r in required && !SomeExpects(holdouts, r))
    ensures d.reasons <= {NOT_APPLICABLE, SAFE_ABORT_REQUIRED}
  {
    hide WorkflowApplicability.Decide, IsHoldout, Proper, AddedReasons, SomeExpects, NoRepeats;
    hide ApplicableHolds, AbortHolds, Count;
    forall r ensures !AddedBy(holdouts, r) {
      if AddedBy(holdouts, r) {
        var i :| 0 <= i < |holdouts| && r in AddedReasons(holdouts[i]);
        AddedIffRejected(holdouts[i]);
      }
    }
    RefusalsHappen(holdouts);
  }

  lemma RefusalsHappen(holdouts: seq<Holdout>)
    requires forall i :: 0 <= i < |holdouts| ==> IsHoldout(holdouts[i]) && Holds(holdouts[i])
    ensures forall h :: h in holdouts ==> (AbortsSafely(h) <==> h.expected == SafeAbort)
  {
    hide WorkflowApplicability.Decide, IsHoldout, ApplicableHolds, AbortHolds;
  }

  /** A refusal that really happened gave this reason. */
  ghost predicate Witnessed(holdouts: seq<Holdout>, r: Reason) {
    exists h :: h in holdouts && h.expected == SafeAbort && r in WorkflowApplicability.Decide(h.input).reasons
  }

  /** End to end: parity is verified exactly when the input is well formed, there is a
      holdout of each kind, every one of them holds, and every required reason is among
      the reasons that some refused holdout was actually given. */
  lemma VerifiedIff(holdouts: seq<Holdout>, required: seq<Reason>, d: Decision)
    requires WellFormed(holdouts, required) && IsDecision(holdouts, required, d)
    ensures d.verdict == ShadowParityVerified <==>
            && (forall i :: 0 <= i < |holdouts| ==> Holds(holdouts[i]))
            && (exists h :: h in holdouts && h.expected == Applicable)
            && (exists h :: h in holdouts && h.expected == SafeAbort)
            && (forall r :: r in required ==> Witnessed(holdouts, r))
    ensures d.verdict == ShadowParityVerified <==> d.reasons == {NONE}
  {
    hide WorkflowApplicability.Decide, IsHoldout, Proper, ApplicableHolds, AddedBy, NoRepeats;
    RejectedIffAdded(holdouts);
    CountIsZero(IsApplicable, holdouts);
    CountIsZero(AbortsSafely, holdouts);
    assert (forall i :: 0 <= i < |holdouts| ==> OutcomeOf(holdouts[i]) != Rejected) <==>
           (forall i :: 0 <= i < |holdouts| ==> Holds(holdouts[i]));
    if forall i :: 0 <= i < |holdouts| ==> Holds(holdouts[i]) {
      RefusalsAreExpected(holdouts);
      assert forall r :: Witnessed(holdouts, r) <==> SomeExpects(holdouts, r);
    }
  }

  lemma RefusalsAreExpected(holdouts: seq<Holdout>)
    requires forall i :: 0 <= i < |holdouts| ==> IsHoldout(holdouts[i]) && Holds(holdouts[i])
    ensures forall h :: h in holdouts && h.expected == SafeAbort ==> AbortsSafely(h)
    ensures forall h, r :: h in holdouts && h.expected == SafeAbort ==>
              (r in WorkflowApplicability.Decide(h.input).reasons <==> Expects(h, r))
  {
    hide WorkflowApplicability.Decide, IsHoldout, ApplicableHolds;
  }
}
