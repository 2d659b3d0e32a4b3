/** The order of the lists that an applicability input carries leaves no trace in the
    decision. */
module ApplicabilityOrder {
  import opened Texts
  import opened CanonicalJson
  import opened SetDigest
  import opened KnowledgeRevalidation
  import opened WorkflowApplicability
  import opened Envelopes
  import FastPathRoute

  lemma MembersPermute<T(!new)>(a: seq<T>, b: seq<T>)
    requires multiset(a) == multiset(b)
    ensures |a| == |b| && forall v :: v in a <==> v in b
  {
    assert |multiset(a)| == |multiset(b)|;
    assert forall v :: v in a <==> v in multiset(a);
    assert forall v :: v in b <==> v in multiset(b);
  }

  lemma DistinctPermutes<T(!new)>(a: seq<T>, b: seq<T>)
    requires multiset(a) == multiset(b)
    ensures Distinct(a) <==> Distinct(b)
  {
    DistinctIsCounted(a);
    DistinctIsCounted(b);
  }

  /** The same input with its lists in other orders. */
  ghost predicate Permuted(x: Input, y: Input) {
    && y == x.(declarations := y.declarations, provided := y.provided, matches := y.matches,
               knowledge := y.knowledge, capabilities := y.capabilities, authority := y.authority)
    && multiset(x.declarations) == multiset(y.declarations) && multiset(x.provided) == multiset(y.provided)
    && multiset(x.matches) == multiset(y.matches)
    && KnowledgePermuted(x.knowledge, y.knowledge)
    && CapabilitiesPermuted(x.capabilities, y.capabilities) && AuthorityPermuted(x.authority, y.authority)
  }

  ghost predicate KnowledgePermuted(k: KnowledgeInput, l: KnowledgeInput) {
    && k.wellShaped == l.wellShaped && k.asOfMs == l.asOfMs && multiset(k.records) == multiset(l.records)
    && multiset(k.workflowInputs) == multiset(l.workflowInputs)
    && multiset(k.functionInputs) == multiset(l.functionInputs)
  }

  ghost predicate CapabilitiesPermuted(c: Capabilities, d: Capabilities) {
    && multiset(c.baselineCeiling) == multiset(d.baselineCeiling)
    && multiset(c.currentCeiling) == multiset(d.currentCeiling)
    && multiset(c.baselineEnabled) == multiset(d.baselineEnabled)
    && multiset(c.currentEnabled) == multiset(d.currentEnabled)
    && multiset(c.requested) == multiset(d.requested)
  }

  ghost predicate AuthorityPermuted(a: Authority, b: Authority) {
    && multiset(a.baselineRequirements) == multiset(b.baselineRequirements)
    && multiset(a.currentRequirements) == multiset(b.currentRequirements)
    && multiset(a.baselineGrants) == multiset(b.baselineGrants)
    && multiset(a.currentGrants) == multiset(b.currentGrants)
    && a.stopped == b.stopped
  }

  // Typed inputs

  function DeclaredName(d: Declaration): Text { d.name }

  function ProvidedName(p: Provided): Text { p.name }

  lemma DeclarationsPermute(a: seq<Declaration>, b: seq<Declaration>)
    requires multiset(a) == multiset(b) && DeclarationsSound(a)
    ensures DeclarationsSound(b)
  {
    hide Map, Distinct;
    MembersPermute(a, b);
    MapsPermute(DeclaredName, a, b);
    DistinctPermutes(Map(DeclaredName, a), Map(DeclaredName, b));
    NamesDistinct(a);
    NamesDistinct(b);
    forall i | 0 <= i < |b| ensures b[i].wellShaped {
      assert b[i] in a;
    }
  }

  lemma NamesDistinct(a: seq<Declaration>)
    ensures Distinct(Map(DeclaredName, a)) <==> forall i, j :: 0 <= i < j < |a| ==> a[i].name != a[j].name
  {
    hide Map;
    var names := Map(DeclaredName, a);
    assert forall i :: 0 <= i < |a| ==> names[i] == a[i].name;
  }

  lemma ProvidedPermute(a: seq<Provided>, b: seq<Provided>)
    requires multiset(a) == multiset(b) && ProvidedSound(a)
    ensures ProvidedSound(b)
  {
    hide Map, Distinct;
    MembersPermute(a, b);
    MapsPermute(ProvidedName, a, b);
    DistinctPermutes(Map(ProvidedName, a), Map(ProvidedName, b));
    ProvidedDistinct(a);
    ProvidedDistinct(b);
    forall i | 0 <= i < |b| ensures b[i].wellShaped {
      assert b[i] in a;
    }
  }

  lemma ProvidedDistinct(a: seq<Provided>)
    ensures Distinct(Map(ProvidedName, a)) <==> forall i, j :: 0 <= i < j < |a| ==> a[i].name != a[j].name
  {
    hide Map;
    var names := Map(ProvidedName, a);
    assert forall i :: 0 <= i < |a| ==> names[i] == a[i].name;
  }

  lemma TypedInputsPermute(d: seq<Declaration>, e: seq<Declaration>, p: seq<Provided>, q: seq<Provided>)
    requires multiset(d) == multiset(e) && multiset(p) == multiset(q)
    ensures TypedInputsOf(d, p) == TypedInputsOf(e, q)
  {
    hide DeclarationsSound, ProvidedSound;
    MembersPermute(d, e);
    MembersPermute(p, q);
    if DeclarationsSound(d) {
      DeclarationsPermute(d, e);
    }
    if DeclarationsSound(e) {
      DeclarationsPermute(e, d);
    }
    if ProvidedSound(p) {
      ProvidedPermute(p, q);
    }
    if ProvidedSound(q) {
      ProvidedPermute(q, p);
    }
    assert forall r :: IsDeclared(d, r) <==> IsDeclared(e, r);
    assert forall c :: IsProvided(p, c) <==> IsProvided(q, c);
  }

  // Matches

  lemma SelectedPermutes(x: Input, y: Input)
    requires multiset(x.matches) == multiset(y.matches)
    requires x.contextDigest == y.contextDigest && x.contractDigest == y.contractDigest
    ensures |Selected(x)| == |Selected(y)|
    ensures |Selected(x)| == 1 ==> Selected(x)[0] == Selected(y)[0]
    ensures Distinct(Map(Workflow, x.matches)) <==> Distinct(Map(Workflow, y.matches))
  {
    hide Filter, Map, Distinct;
    MapsPermute(Workflow, x.matches, y.matches);
    DistinctPermutes(Map(Workflow, x.matches), Map(Workflow, y.matches));
    var fits := (m: Match) => Compatible(m, x.contextDigest, x.contractDigest);
    assert Selected(x) == Filter(fits, x.matches);
    assert Selected(y) == Filter(fits, y.matches);
    FilterPermutes(fits, x.matches, y.matches);
    MembersPermute(x.matches, y.matches);
    if |Selected(x)| == 1 {
      assert Selected(x)[0] in Selected(x);
      assert Selected(x)[0] in Selected(y);
    }
  }

  // Knowledge

  lemma KnowledgePermutes(k: KnowledgeInput, l: KnowledgeInput)
    requires KnowledgePermuted(k, l)
    ensures KnowledgeReasons(k) == KnowledgeReasons(l)
  {
    hide ReasonsOf, Subjects, AllSubjects;
    AllSubjectsPermute(k.workflowInputs, k.functionInputs, l.workflowInputs, l.functionInputs);
    ReasonsPermute(KnowledgeSubjects(k), KnowledgeSubjects(l), k.records, l.records, k.asOfMs);
  }

  // The route

  lemma TextsPermute(a: seq<Text>, b: seq<Text>)
    requires multiset(a) == multiset(b)
    ensures FastPathRoute.NoRepeats(a) <==> FastPathRoute.NoRepeats(b)
    ensures forall v :: v in a <==> v in b
  {
    MembersPermute(a, b);
    DistinctPermutes(a, b);
    assert FastPathRoute.NoRepeats(a) <==> Distinct(a);
    assert FastPathRoute.NoRepeats(b) <==> Distinct(b);
  }

  lemma RoutePermutes(x: Input, y: Input, workflow: Text)
    requires Permuted(x, y)
    ensures FastPathRoute.RouteOf(RouteInput(x, workflow)) == FastPathRoute.RouteOf(RouteInput(y, workflow))
  {
    hide FastPathRoute.NoRepeats, KnowledgePermuted;
    TextsPermute(x.capabilities.currentCeiling, y.capabilities.currentCeiling);
    TextsPermute(x.capabilities.currentEnabled, y.capabilities.currentEnabled);
    TextsPermute(x.capabilities.requested, y.capabilities.requested);
    MembersPermute(x.authority.currentRequirements, y.authority.currentRequirements);
    MembersPermute(x.authority.currentGrants, y.authority.currentGrants);
    var p, q := RouteInput(x, workflow), RouteInput(y, workflow);
    assert forall r ::
        FastPathRoute.Covered(r, p.grants, p.useTimeMs) <==> FastPathRoute.Covered(r, q.grants, q.useTimeMs);
    assert FastPathRoute.WellFormed(p) <==> FastPathRoute.WellFormed(q);
    assert FastPathRoute.Narrow(p) <==> FastPathRoute.Narrow(q);
    assert FastPathRoute.Authorized(p) <==> FastPathRoute.Authorized(q);
  }

  /** Both sides of the envelope comparisons may be reordered. */
  lemma EnvelopesPermute(x: Input, y: Input)
    requires Permuted(x, y)
    ensures SameCapabilities(x.capabilities) <==> SameCapabilities(y.capabilities)
    ensures SameAuthority(x.authority) <==> SameAuthority(y.authority)
  {
    hide KnowledgePermuted, CapabilityEnvelopeDigest, AuthorityEnvelopeDigest;
    var c, d, a, b := x.capabilities, y.capabilities, x.authority, y.authority;
    CapabilityEnvelopesAgree(c.baselineCeiling, c.baselineEnabled, c.currentCeiling, c.currentEnabled);
    CapabilityEnvelopesAgree(d.baselineCeiling, d.baselineEnabled, d.currentCeiling, d.currentEnabled);
    AuthorityEnvelopesAgree(a.baselineRequirements, a.baselineGrants, a.currentRequirements, a.currentGrants,
                            a.stopped);
    AuthorityEnvelopesAgree(b.baselineRequirements, b.baselineGrants, b.currentRequirements, b.currentGrants,
                            b.stopped);
  }

  lemma GatePermutes(x: Input, y: Input)
    requires Permuted(x, y)
    ensures Gate(x) == Gate(y)
  {
    hide KnowledgePermuted, TypedInputsOf, Selected, Distinct, Map, SameCapabilities, SameAuthority;
    EnvelopesPermute(x, y);
    TypedInputsPermute(x.declarations, y.declarations, x.provided, y.provided);
    SelectedPermutes(x, y);
  }

  /** Reordering any of the lists changes neither status nor reasons nor the match. */
  lemma OrderIsIrrelevant(x: Input, y: Input)
    requires Permuted(x, y)
    ensures Decide(x) == Decide(y)
  {
    hide Gate, KnowledgeReasons, KnowledgePermuted, Selected, FastPathRoute.RouteOf, StatusOf, Distinct, Map;
    GatePermutes(x, y);
    SelectedPermutes(x, y);
    KnowledgePermutes(x.knowledge, y.knowledge);
    KnowledgeTimes(x.knowledge, y.knowledge);
    if |Selected(x)| == 1 {
      RoutePermutes(x, y, Selected(x)[0].workflowRef);
    }
  }

  lemma KnowledgeTimes(k: KnowledgeInput, l: KnowledgeInput)
    requires KnowledgePermuted(k, l)
    ensures k.asOfMs == l.asOfMs
  {
  }
}
