/** The applicability gate before a shadow replay: envelopes, typed inputs, the one
    compatible workflow, Knowledge, and then the route table. */
module WorkflowApplicability {
  import opened Wrappers
  import opened Texts
  import opened CanonicalJson
  import opened SetDigest
  import opened KnowledgeRevalidation
  import FastPathRoute
  import opened Envelopes

  datatype InputType = StringInput | IntegerInput | NumberInput | BooleanInput | ObjectInput | ArrayInput | NullInput

  // `wellShaped` stands for the checks of one entry on its own.
  datatype Declaration = Declaration(wellShaped: bool, name: Text, inputType: InputType, required: bool)

  datatype Provided = Provided(wellShaped: bool, name: Text, inputType: InputType)

  datatype Match = Match(workflowRef: Text, contextDigest: Text, contractDigest: Text)

  datatype TypedInputs = Valid | Missing | Invalid

  datatype KnowledgeInput = KnowledgeInput(
    wellShaped: bool, asOfMs: int,
    workflowInputs: seq<Binding>, functionInputs: seq<Binding>, records: seq<Record>, receipts: seq<Text>)

  datatype Capabilities = Capabilities(
    baselineCeiling: seq<Text>, currentCeiling: seq<Text>,
    baselineEnabled: seq<Text>, currentEnabled: seq<Text>, requested: seq<Text>)

  datatype Authority = Authority(
    baselineRequirements: seq<FastPathRoute.Requirement>, currentRequirements: seq<FastPathRoute.Requirement>,
    baselineGrants: seq<FastPathRoute.Grant>, currentGrants: seq<FastPathRoute.Grant>, stopped: bool)

  // `routeShaped` is `wellShaped` for the stricter checks of the route table.
  datatype Input = Input(
    wellShaped: bool, routeShaped: bool, useTimeMs: int, contextDigest: Text, contractDigest: Text,
    declarations: seq<Declaration>, provided: seq<Provided>, matches: seq<Match>,
    knowledge: KnowledgeInput, evidenceComplete: bool, boundaryAvailable: bool,
    capabilities: Capabilities, authority: Authority)

  // Reason codes always come out in one fixed order, so a set says as much as the list.
  datatype Decision = Decision(status: Status, reasons: set<Reason>, matched: Option<Text>)

  // Envelopes are compared by digest.

  predicate SameCapabilities(c: Capabilities) {
    CapabilityEnvelopeDigest(c.baselineCeiling, c.baselineEnabled)
    == CapabilityEnvelopeDigest(c.currentCeiling, c.currentEnabled)
  }

  predicate SameAuthority(a: Authority) {
    AuthorityEnvelopeDigest(a.baselineRequirements, a.baselineGrants, a.stopped)
    == AuthorityEnvelopeDigest(a.currentRequirements, a.currentGrants, a.stopped)
  }

  /** Neither envelope has changed since the baseline, as a set with repetitions. */
  predicate EnvelopesUnchanged(c: Capabilities, a: Authority) {
    && multiset(c.baselineCeiling) == multiset(c.currentCeiling)
    && multiset(c.baselineEnabled) == multiset(c.currentEnabled)
    && multiset(a.baselineRequirements) == multiset(a.currentRequirements)
    && multiset(a.baselineGrants) == multiset(a.currentGrants)
  }

  /** Equal envelope digests mean exactly that. */
  lemma UnchangedIff(c: Capabilities, a: Authority)
    ensures SameCapabilities(c) && SameAuthority(a) <==> EnvelopesUnchanged(c, a)
  {
    hide CapabilityEnvelopeDigest, AuthorityEnvelopeDigest;
    CapabilityEnvelopesAgree(c.baselineCeiling, c.baselineEnabled, c.currentCeiling, c.currentEnabled);
    AuthorityEnvelopesAgree(a.baselineRequirements, a.baselineGrants, a.currentRequirements, a.currentGrants,
                            a.stopped);
  }

  // Typed inputs

  predicate Declares(d: Declaration, p: Provided) {
    d.name == p.name && d.inputType == p.inputType
  }

  predicate DeclarationsSound(declarations: seq<Declaration>) {
    && (forall i :: 0 <= i < |declarations| ==> declarations[i].wellShaped)
    && (forall i, j :: 0 <= i < j < |declarations| ==> declarations[i].name != declarations[j].name)
  }

  predicate ProvidedSound(provided: seq<Provided>) {
    && (forall i :: 0 <= i < |provided| ==> provided[i].wellShaped)
    && (forall i, j :: 0 <= i < j < |provided| ==> provided[i].name != provided[j].name)
  }

  predicate IsDeclared(declarations: seq<Declaration>, p: Provided) {
    exists d :: d in declarations && Declares(d, p)
  }

  predicate IsProvided(provided: seq<Provided>, d: Declaration) {
    exists p :: p in provided && p.name == d.name
  }

  /** Nothing is wrong with what is there. */
  predicate InputsConsistent(declarations: seq<Declaration>, provided: seq<Provided>) {
    && DeclarationsSound(declarations) && ProvidedSound(provided)
    && (forall p :: p in provided ==> IsDeclared(declarations, p))
  }

  /** Nothing that is required is absent. */
  predicate InputsComplete(declarations: seq<Declaration>, provided: seq<Provided>) {
    forall d :: d in declarations ==> d.required ==> IsProvided(provided, d)
  }

  function TypedInputsOf(declarations: seq<Declaration>, provided: seq<Provided>): TypedInputs {
    if !InputsConsistent(declarations, provided) then Invalid
    else if !InputsComplete(declarations, provided) then Missing
    else Valid
  }

  predicate TableOf(declarations: seq<Declaration>, declared: map<Text, InputType>) {
    && (forall d :: d in declarations ==> d.name in declared && declared[d.name] == d.inputType)
    && (forall n :: n in declared ==> exists d :: d in declarations && d.name == n)
  }

  lemma TableSnoc(declarations: seq<Declaration>, declared: map<Text, InputType>, d: Declaration)
    requires TableOf(declarations, declared) && DeclarationsSound(declarations) && d.wellShaped
    ensures d.name in declared <==> exists e :: e in declarations && e.name == d.name
    ensures d.name !in declared ==>
              && TableOf(declarations + [d], declared[d.name := d.inputType]) && DeclarationsSound(declarations + [d])
  {
    if d.name !in declared {
      var table := declared[d.name := d.inputType];
      forall n | n in table ensures exists e :: e in declarations + [d] && e.name == n {
        if n == d.name {
          assert d in declarations + [d];
        } else {
          var e :| e in declarations && e.name == n;
          assert e in declarations + [d];
        }
      }
    }
  }

  lemma EmptyTable()
    ensures TableOf([], map[])
  {
  }

  method CheckDeclarations(declarations: seq<Declaration>) returns (ok: bool, declared: map<Text, InputType>)
    ensures ok <==> DeclarationsSound(declarations)
    ensures ok ==> TableOf(declarations, declared)
  {
    hide TableOf;
    declared := map[];
    EmptyTable();
    for i := 0 to |declarations|
      invariant DeclarationsSound(declarations[..i]) && TableOf(declarations[..i], declared)
    {
      var d := declarations[i];
      if !d.wellShaped {
        return false, declared;
      }
      TableSnoc(declarations[..i], declared, d);
      if d.name in declared {
        var e :| e in declarations[..i] && e.name == d.name;
        return false, declared;
      }
      assert declarations[..i + 1] == declarations[..i] + [d];
      declared := declared[d.name := d.inputType];
    }
    assert declarations[..|declarations|] == declarations;
    ok := true;
  }

  predicate NamesOf(provided: seq<Provided>, names: set<Text>) {
    && (forall p :: p in provided ==> p.name in names)
    && (forall n :: n in names ==> exists p :: p in provided && p.name == n)
  }

  method CheckProvided(provided: seq<Provided>) returns (ok: bool, names: set<Text>)
    ensures ok <==> ProvidedSound(provided)
    ensures ok ==> NamesOf(provided, names)
  {
    names := {};
    for i := 0 to |provided|
      invariant ProvidedSound(provided[..i]) && NamesOf(provided[..i], names)
    {
      var p := provided[i];
      if !p.wellShaped {
        return false, names;
      }
      if p.name in names {
        var q :| q in provided[..i] && q.name == p.name;
        return false, names;
      }
      assert provided[..i + 1] == provided[..i] + [p];
      names := names + {p.name};
    }
    assert provided[..|provided|] == provided;
    ok := true;
  }

  method ValidateTypedInputs(declarations: seq<Declaration>, provided: seq<Provided>) returns (r: TypedInputs)
    ensures r == TypedInputsOf(declarations, provided)
  {
    hide DeclarationsSound, ProvidedSound;
    var ok, declared := CheckDeclarations(declarations);
    if !ok {
      return Invalid;
    }
    var sound, names := CheckProvided(provided);
    if !sound {
      return Invalid;
    }
    for i := 0 to |provided|
      invariant forall j :: 0 <= j < i ==> IsDeclared(declarations, provided[j])
    {
      var p := provided[i];
      UniqueDeclaration(declarations, declared, p);
      if p.name !in declared || declared[p.name] != p.inputType {
        assert p in provided;
        return Invalid;
      }
    }
    for i := 0 to |declarations|
      invariant forall j :: 0 <= j < i ==> declarations[j].required ==> IsProvided(provided, declarations[j])
    {
      var d := declarations[i];
      if d.required && d.name !in names {
        assert d in declarations && !IsProvided(provided, d);
        return Missing;
      }
    }
    return Valid;
  }

  lemma UniqueDeclaration(declarations: seq<Declaration>, declared: map<Text, InputType>, p: Provided)
    requires TableOf(declarations, declared)
    ensures IsDeclared(declarations, p) <==> p.name in declared && declared[p.name] == p.inputType
  {
    if p.name in declared && declared[p.name] == p.inputType {
      var d :| d in declarations && d.name == p.name;
      assert Declares(d, p);
    }
  }

  // Matches

  predicate Compatible(m: Match, contextDigest: Text, contractDigest: Text) {
    m.contextDigest == contextDigest && m.contractDigest == contractDigest
  }

  function Workflow(m: Match): Text {
    m.workflowRef
  }

  function Selected(x: Input): seq<Match> {
    Filter((m: Match) => Compatible(m, x.contextDigest, x.contractDigest), x.matches)
  }

  /** Exactly one match fits the context and the contract, and it names this workflow. */
  ghost predicate OnlyFit(x: Input, workflow: Text) {
    exists i :: FitsAlone(x, i) && x.matches[i].workflowRef == workflow
  }

  predicate FitsAlone(x: Input, i: int) {
    && 0 <= i < |x.matches| && Compatible(x.matches[i], x.contextDigest, x.contractDigest)
    && forall j :: 0 <= j < |x.matches| && j != i ==> !Compatible(x.matches[j], x.contextDigest, x.contractDigest)
  }

  lemma SelectedIsOnlyFit(x: Input)
    ensures |Selected(x)| == 1 ==> OnlyFit(x, Selected(x)[0].workflowRef)
    ensures (exists w :: OnlyFit(x, w)) ==> |Selected(x)| == 1
  {
    var fits := (m: Match) => Compatible(m, x.contextDigest, x.contractDigest);
    assert Selected(x) == Filter(fits, x.matches);
    TwiceIsFiltered(fits, x.matches);
    if |Selected(x)| == 1 {
      var m := Selected(x)[0];
      assert m in Selected(x);
      var i :| 0 <= i < |x.matches| && x.matches[i] == m;
      OthersDoNotFit(x, i);
    }
    if w :| OnlyFit(x, w) {
      var i :| FitsAlone(x, i);
      assert x.matches[i] in Selected(x);
    }
  }

  lemma OthersDoNotFit(x: Input, i: nat)
    requires i < |x.matches| && Compatible(x.matches[i], x.contextDigest, x.contractDigest)
    requires !Twice((m: Match) => Compatible(m, x.contextDigest, x.contractDigest), x.matches)
    ensures FitsAlone(x, i)
  {
    forall j | 0 <= j < |x.matches| && j != i ensures !Compatible(x.matches[j], x.contextDigest, x.contractDigest) {
      assert i < j || j < i;
    }
  }

  lemma {:induction false} SetSize<T(!new)>(s: seq<T>)
    ensures |(set v | v in s)| == |s| <==> Distinct(s)
    ensures |(set v | v in s)| <= |s|
  {
    var all := set v | v in s;
    if s != [] {
      hide Distinct;
      SetSize(s[1..]);
      DistinctCons(s);
      var rest := set v | v in s[1..];
      assert s == [s[0]] + s[1..];
      assert all == rest + {s[0]};
    }
  }

  // The decision

  function Aborted(reason: Reason): Decision {
    Decision(FAST_PATH_ABORTED, {reason}, None)
  }

  function Revalidate(reason: Reason): Decision {
    Decision(REVALIDATION_REQUIRED, {reason}, None)
  }

  function KnowledgeSubjects(k: KnowledgeInput): seq<Subject> {
    AllSubjects(k.workflowInputs, k.functionInputs)
  }

  ghost function KnowledgeReasons(k: KnowledgeInput): set<Reason> {
    if !k.wellShaped then {INVALID_INPUT} else ReasonsOf(KnowledgeSubjects(k), k.records, k.asOfMs)
  }

  function RouteInput(x: Input, workflow: Text): FastPathRoute.Input {
    FastPathRoute.Input(
      x.routeShaped, x.useTimeMs, [workflow], true, FastPathRoute.KnowledgeCurrent, true, true,
      x.evidenceComplete, x.boundaryAvailable,
      x.capabilities.currentCeiling, x.capabilities.currentEnabled, x.capabilities.requested,
      x.authority.currentRequirements, x.authority.currentGrants, x.authority.stopped)
  }

  /** What comes before Knowledge is looked at. */
  ghost function Gate(x: Input): Option<Decision> {
    if !x.wellShaped then Some(Aborted(INVALID_INPUT))
    else if !SameCapabilities(x.capabilities) then Some(Aborted(CAPABILITY_WIDENING))
    else if !SameAuthority(x.authority) then Some(Aborted(AUTHORITY_WIDENING))
    else if TypedInputsOf(x.declarations, x.provided) == Invalid then Some(Aborted(INVALID_INPUT))
    else if TypedInputsOf(x.declarations, x.provided) == Missing then Some(Aborted(MISSING_INPUT))
    else if !Distinct(Map(Workflow, x.matches)) then Some(Aborted(AMBIGUOUS_MATCH))
    else if |Selected(x)| == 0 then Some(Aborted(NOT_APPLICABLE))
    else if |Selected(x)| != 1 then Some(Aborted(AMBIGUOUS_MATCH))
    else None
  }

  ghost function Decide(x: Input): Decision {
    var reasons := KnowledgeReasons(x.knowledge);
    if Gate(x).Some? then Gate(x).value
    else if reasons != {} then Decision(StatusOf(reasons), reasons, None)
    else if x.knowledge.asOfMs != x.useTimeMs then Revalidate(VERSION_DRIFT)
    else if !x.evidenceComplete then Revalidate(EVIDENCE_INCOMPLETE)
    else if !x.boundaryAvailable then Revalidate(BOUNDARY_UNAVAILABLE)
    else if |Selected(x)| != 1 then Aborted(INVALID_INPUT)
    else
      var route := FastPathRoute.RouteOf(RouteInput(x, Selected(x)[0].workflowRef));
      Decision(route.status, {route.reason}, Some(Selected(x)[0].workflowRef))
  }

  const RAISABLE: set<Reason> := DRIFT + {INVALID_INPUT, AMBIGUOUS_MATCH}

  lemma RaisedIsRaisable(subjects: seq<Subject>, records: seq<Record>, asOfMs: int, r: Reason)
    requires Raised(subjects, records, asOfMs, r)
    ensures r in RAISABLE
  {
    hide Distinct, IsAmbiguous, HasIdentity, HasOtherDigest, HasId, SameIdentity;
  }

  lemma OrderedMembers(reasons: set<Reason>)
    requires reasons <= RAISABLE && reasons != {}
    ensures (set r | r in Ordered(reasons)) == reasons
  {
    hide Filter;
    forall r | r in reasons ensures r in REASON_ORDER {
      assert REASON_ORDER[2] == INVALID_INPUT && REASON_ORDER[4] == AMBIGUOUS_MATCH;
      assert REASON_ORDER[5] == KNOWLEDGE_MISSING && REASON_ORDER[6] == STALE_KNOWLEDGE;
      assert REASON_ORDER[7] == KNOWLEDGE_SUPERSEDED && REASON_ORDER[8] == VERSION_DRIFT;
      assert REASON_ORDER[9] == DIGEST_MISMATCH;
    }
  }

  /** The listed reasons of a resolution, as a set. */
  lemma OutcomeReasons(k: KnowledgeInput)
    requires k.wellShaped
    ensures var o := OutcomeOf(KnowledgeSubjects(k), k.records, k.asOfMs);
      && o.status == StatusOf(KnowledgeReasons(k))
      && (set r | r in o.reasons) == if o.status == FAST_PATH_ALLOWED then {NONE} else KnowledgeReasons(k)
  {
    hide Raised, Survivors, Ordered, Map, TuplesDigest, KnowledgeSubjects;
    var reasons := KnowledgeReasons(k);
    forall r | r in reasons ensures r in RAISABLE {
      RaisedIsRaisable(KnowledgeSubjects(k), k.records, k.asOfMs, r);
    }
    if reasons != {} {
      OrderedMembers(reasons);
    } else {
      OrderedNone();
    }
  }

  lemma OrderedNone()
    ensures Ordered({}) == [NONE]
  {
  }

  method ResolveKnowledge(k: KnowledgeInput) returns (status: Status, reasons: set<Reason>)
    ensures status == StatusOf(KnowledgeReasons(k))
    ensures reasons == if status == FAST_PATH_ALLOWED then {NONE} else KnowledgeReasons(k)
  {
    hide Raised, OutcomeOf, ReasonsOf;
    var o := Resolve(k.wellShaped, k.asOfMs, k.workflowInputs, k.functionInputs, k.records);
    status, reasons := o.status, set r | r in o.reasons;
    if k.wellShaped {
      OutcomeReasons(k);
    }
  }

  method Evaluate(x: Input) returns (d: Decision)
    ensures d == Decide(x)
  {
    hide SameCapabilities, SameAuthority, TypedInputsOf, Distinct, KnowledgeReasons, FastPathRoute.RouteOf, Filter;
    if !x.wellShaped {
      return Aborted(INVALID_INPUT);
    }
    if !SameCapabilities(x.capabilities) {
      return Aborted(CAPABILITY_WIDENING);
    }
    if !SameAuthority(x.authority) {
      return Aborted(AUTHORITY_WIDENING);
    }
    var typed := ValidateTypedInputs(x.declarations, x.provided);
    if typed == Invalid {
      return Aborted(INVALID_INPUT);
    }
    if typed == Missing {
      return Aborted(MISSING_INPUT);
    }
    var workflows := Map(Workflow, x.matches);
    SetSize(workflows);
    if |(set w | w in workflows)| != |x.matches| {
      return Aborted(AMBIGUOUS_MATCH);
    }
    var compatible := Selected(x);
    if |compatible| == 0 {
      return Aborted(NOT_APPLICABLE);
    }
    if |compatible| != 1 {
      return Aborted(AMBIGUOUS_MATCH);
    }
    var status, reasons := ResolveKnowledge(x.knowledge);
    if status != FAST_PATH_ALLOWED {
      return Decision(status, reasons, None);
    }
    if x.knowledge.asOfMs != x.useTimeMs {
      return Revalidate(VERSION_DRIFT);
    }
    if !x.evidenceComplete {
      return Revalidate(EVIDENCE_INCOMPLETE);
    }
    if !x.boundaryAvailable {
      return Revalidate(BOUNDARY_UNAVAILABLE);
    }
    var route := FastPathRoute.Route(RouteInput(x, compatible[0].workflowRef));
    return Decision(route.status, {route.reason}, Some(compatible[0].workflowRef));
  }

  // What follows

  /** A decision allows the fast path exactly when its reasons are NONE alone, and a
      refusal always names some other reason. */
  lemma GateIsNamed(x: Input)
    ensures Gate(x).Some? ==>
              && Gate(x).value.status == FAST_PATH_ABORTED && Gate(x).value.matched.None?
              && Gate(x).value.reasons != {} && NONE !in Gate(x).value.reasons
  {
    hide Selected, TypedInputsOf, SameCapabilities, SameAuthority, Distinct, Map;
  }

  lemma KnowledgeIsNamed(k: KnowledgeInput)
    ensures NONE !in KnowledgeReasons(k)
    ensures KnowledgeReasons(k) != {} ==> StatusOf(KnowledgeReasons(k)) != FAST_PATH_ALLOWED
  {
    hide Raised, KnowledgeSubjects;
    if NONE in KnowledgeReasons(k) {
      RaisedIsRaisable(KnowledgeSubjects(k), k.records, k.asOfMs, NONE);
    }
  }

  lemma AllowedIffNone(x: Input)
    ensures Decide(x).status == FAST_PATH_ALLOWED <==> Decide(x).reasons == {NONE}
    ensures Decide(x).reasons != {} && (NONE in Decide(x).reasons ==> Decide(x).reasons == {NONE})
  {
    hide FastPathRoute.RouteOf, Selected, Gate, KnowledgeReasons, StatusOf;
    GateIsNamed(x);
    KnowledgeIsNamed(x.knowledge);
    if |Selected(x)| == 1 {
      FastPathRoute.RouteAllowedIff(RouteInput(x, Selected(x)[0].workflowRef));
    }
  }

  /** Every dependency of this input is backed, and none is listed twice. */
  ghost predicate KnowledgeHolds(k: KnowledgeInput) {
    && k.wellShaped && Distinct(Map(Plain, k.workflowInputs)) && Distinct(Map(Plain, k.functionInputs))
    && (forall b :: b in k.workflowInputs || b in k.functionInputs ==> Backed(k.records, k.asOfMs, b))
  }

  lemma KnowledgeHoldsIff(k: KnowledgeInput)
    ensures KnowledgeHolds(k) <==> KnowledgeReasons(k) == {}
  {
    hide Backed, IsVerdict, Distinct, AllSubjects, NoRepeats, ReasonsOf;
    if k.wellShaped {
      NothingRaisedIff(KnowledgeSubjects(k), k.records, k.asOfMs);
      SubjectsHold(k);
    }
  }

  lemma SubjectsHold(k: KnowledgeInput)
    ensures NoRepeats(KnowledgeSubjects(k)) <==>
            Distinct(Map(Plain, k.workflowInputs)) && Distinct(Map(Plain, k.functionInputs))
    ensures (forall s :: s in KnowledgeSubjects(k) ==> IsVerdict(k.records, k.asOfMs, s.binding, None)) <==>
            (forall b :: b in k.workflowInputs || b in k.functionInputs ==> Backed(k.records, k.asOfMs, b))
  {
    hide AllSubjects, IsVerdict, Backed, Distinct, NoRepeats;
    DistinctSubjects(k.workflowInputs, k.functionInputs);
    SubjectsCover(k.workflowInputs, k.functionInputs);
    forall b ensures Backed(k.records, k.asOfMs, b) <==> IsVerdict(k.records, k.asOfMs, b, None) {
      BackedHasNoFault(k.records, k.asOfMs, b);
    }
  }

  /** The envelopes are unchanged, sound, and wide enough for the request at use time. */
  ghost predicate EnvelopesHold(x: Input) {
    var c, a := x.capabilities, x.authority;
    && EnvelopesUnchanged(c, a)
    && Distinct(c.currentCeiling) && Distinct(c.currentEnabled) && Distinct(c.requested)
    && (forall g :: g in a.currentGrants ==> g.validFromMs < g.validUntilMs)
    && (forall t :: t in c.requested ==> t in c.currentCeiling && t in c.currentEnabled)
    && !a.stopped
    && (forall r :: r in a.currentRequirements ==> FastPathRoute.Covered(r, a.currentGrants, x.useTimeMs))
  }

  lemma RouteHolds(x: Input, workflow: Text)
    requires SameCapabilities(x.capabilities) && SameAuthority(x.authority)
    ensures FastPathRoute.RouteOf(RouteInput(x, workflow)).status == FAST_PATH_ALLOWED <==>
            x.routeShaped && x.evidenceComplete && x.boundaryAvailable && EnvelopesHold(x)
  {
    hide FastPathRoute.Covered, SameCapabilities, SameAuthority, EnvelopesUnchanged;
    UnchangedIff(x.capabilities, x.authority);
    FastPathRoute.RouteAllowedIff(RouteInput(x, workflow));
  }

  /** End to end: the fast path is allowed exactly when the input is well shaped, the
      envelopes hold, the typed inputs are complete and consistent, no workflow is matched
      twice and exactly one fits, every Knowledge dependency is backed at the use time, and
      evidence and boundary are there. */
  lemma AllowedIff(x: Input)
    ensures Decide(x).status == FAST_PATH_ALLOWED <==>
            && x.wellShaped && x.routeShaped && EnvelopesHold(x)
            && InputsConsistent(x.declarations, x.provided) && InputsComplete(x.declarations, x.provided)
            && Distinct(Map(Workflow, x.matches)) && (exists w :: OnlyFit(x, w))
            && KnowledgeHolds(x.knowledge) && x.knowledge.asOfMs == x.useTimeMs
            && x.evidenceComplete && x.boundaryAvailable
    ensures Decide(x).status == FAST_PATH_ALLOWED ==> Decide(x).matched.Some? && OnlyFit(x, Decide(x).matched.value)
  {
    hide FastPathRoute.RouteOf, Selected, InputsConsistent, InputsComplete, SameCapabilities, SameAuthority;
    hide KnowledgeHolds, KnowledgeReasons, Distinct, OnlyFit, EnvelopesUnchanged;
    UnchangedIff(x.capabilities, x.authority);
    SelectedIsOnlyFit(x);
    KnowledgeHoldsIff(x.knowledge);
    if |Selected(x)| == 1 && SameCapabilities(x.capabilities) && SameAuthority(x.authority) {
      RouteHolds(x, Selected(x)[0].workflowRef);
    }
  }

  /** Everything that revalidation cannot cure is in order. */
  ghost predicate Eligible(x: Input) {
    && x.wellShaped && EnvelopesUnchanged(x.capabilities, x.authority)
    && InputsConsistent(x.declarations, x.provided) && InputsComplete(x.declarations, x.provided)
    && Distinct(Map(Workflow, x.matches)) && (exists w :: OnlyFit(x, w))
  }

  lemma GateIsEligible(x: Input)
    ensures Gate(x).None? <==> Eligible(x)
    ensures Gate(x).Some? ==> Gate(x).value.status == FAST_PATH_ABORTED
  {
    hide Selected, InputsConsistent, InputsComplete, SameCapabilities, SameAuthority;
    hide Distinct, OnlyFit, EnvelopesUnchanged;
    UnchangedIff(x.capabilities, x.authority);
    SelectedIsOnlyFit(x);
  }

  lemma RouteAfterStatuses(x: Input, workflow: Text)
    requires x.evidenceComplete && x.boundaryAvailable
    ensures FastPathRoute.RouteOf(RouteInput(x, workflow)).status != REVALIDATION_REQUIRED
  {
    hide FastPathRoute.WellFormed, FastPathRoute.Narrow, FastPathRoute.Authorized;
  }

  /** Revalidation is asked for exactly when everything else is in order and either some
      Knowledge has drifted, or it holds but not at the use time, or evidence or boundary
      is missing. */
  lemma RevalidationIff(x: Input)
    ensures Decide(x).status == REVALIDATION_REQUIRED <==>
            && Eligible(x)
            && if KnowledgeHolds(x.knowledge)
               then x.knowledge.asOfMs != x.useTimeMs || !x.evidenceComplete || !x.boundaryAvailable
               else KnowledgeReasons(x.knowledge) * DRIFT != {}
  {
    hide FastPathRoute.RouteOf, Selected, Gate, KnowledgeHolds, KnowledgeReasons, Eligible;
    GateIsEligible(x);
    KnowledgeHoldsIff(x.knowledge);
    if x.evidenceComplete && x.boundaryAvailable && |Selected(x)| == 1 {
      RouteAfterStatuses(x, Selected(x)[0].workflowRef);
    }
  }
}
