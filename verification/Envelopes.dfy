/** The digests by which the applicability gate compares capability and authority
    envelopes: every entry is digested, the digests are sorted, and the sorted list is
    digested in its turn. */
module Envelopes {
  import opened Wrappers
  import opened Texts
  import opened Json
  import opened CanonicalJson
  import opened SetDigest
  import opened KnowledgeRevalidation
  import opened FastPathRoute

  // `entries` are canonical texts. A digest inside a text is represented by the content that
  // it digests, which identifies it. In which order digests sort is irrelevant here.
  function SortedSetDigest(entries: seq<Text>): Digest {
    TuplesDigest(Map(AsString, entries))
  }

  /** The digest of a set of entries identifies their multiset, and nothing else. */
  lemma SortedSetDigestsAgree(a: seq<Text>, b: seq<Text>)
    ensures SortedSetDigest(a) == SortedSetDigest(b) <==> multiset(a) == multiset(b)
  {
    hide TuplesDigest, Rigid, Map;
    StringsAllRigid(a);
    StringsAllRigid(b);
    TuplesDigestAgrees(Map(AsString, a), Map(AsString, b));
    MapsArePermutations(AsString, a, b);
  }

  lemma StringsAllRigid(a: seq<Text>)
    ensures forall v :: v in Map(AsString, a) ==> Rigid(v)
  {
    hide Map, Rigid;
    ScalarsAreRigid();
    forall v | v in Map(AsString, a) ensures Rigid(v) {
      var i :| 0 <= i < |a| && Map(AsString, a)[i] == v;
    }
  }

  function OptionValue(o: Option<Text>): Value {
    if o.None? then Null else String(o.value)
  }

  function LimitValue(o: Option<int>): Value {
    if o.None? then Null else Number(o.value)
  }

  function RequirementMembers(r: Requirement): seq<Member> {
    [Member(Ascii("actor"), String(r.actor)), Member(Ascii("tenant"), String(r.tenant)),
     Member(Ascii("action"), String(r.action)), Member(Ascii("target"), String(r.target)),
     Member(Ascii("scope"), OptionValue(r.scope))]
  }

  function GrantMembers(g: Grant): seq<Member> {
    RequirementMembers(g.requirement)
    + [Member(Ascii("approvalDigest"), String(g.approvalDigest)),
       Member(Ascii("validFromMs"), Number(g.validFromMs)), Member(Ascii("validUntilMs"), Number(g.validUntilMs)),
       Member(Ascii("budgetLimitCents"), LimitValue(g.budgetLimitCents))]
  }

  function RequirementText(r: Requirement): Text {
    Canonical(Object(RequirementMembers(r)))
  }

  function GrantText(g: Grant): Text {
    Canonical(Object(GrantMembers(g)))
  }

  function CapabilityText(c: Capability): Text {
    Canonical(String(c))
  }

  // The record of set digests that is digested as a whole.

  function CapabilityMembers(ceiling: seq<Capability>, enabled: seq<Capability>): seq<Member> {
    [Member(Ascii("ceiling"), String(SortedSetDigest(Map(CapabilityText, ceiling)).content)),
     Member(Ascii("enabled"), String(SortedSetDigest(Map(CapabilityText, enabled)).content))]
  }

  function CapabilityEnvelopeDigest(ceiling: seq<Capability>, enabled: seq<Capability>): Digest {
    Sha256(Canonical(Object(CapabilityMembers(ceiling, enabled))))
  }

  function AuthorityMembers(requirements: seq<Requirement>, grants: seq<Grant>, stopped: bool): seq<Member> {
    [Member(Ascii("requirements"), String(SortedSetDigest(Map(RequirementText, requirements)).content)),
     Member(Ascii("grants"), String(SortedSetDigest(Map(GrantText, grants)).content)),
     Member(Ascii("stopState"), String(if stopped then Ascii("STOPPED") else Ascii("NONE")))]
  }

  function AuthorityEnvelopeDigest(requirements: seq<Requirement>, grants: seq<Grant>, stopped: bool): Digest {
    Sha256(Canonical(Object(AuthorityMembers(requirements, grants, stopped))))
  }

  // Objects with the same keys in the same places

  predicate Flat(ms: seq<Member>) {
    forall i :: 0 <= i < |ms| ==> !ms[i].value.Array? && !ms[i].value.Object?
  }

  /** For flat objects over one list of keys, equal texts mean equal members. */
  lemma FlatObjectsAgree(ms: seq<Member>, ns: seq<Member>)
    requires Flat(ms) && Flat(ns) && KeysDiffer(ms) && KeysDiffer(ns) && |ms| == |ns|
    requires forall i :: 0 <= i < |ms| ==> ms[i].key == ns[i].key
    ensures Canonical(Object(ms)) == Canonical(Object(ns)) <==> ms == ns
  {
    hide Canonical, Equal, KeysDiffer;
    FlatIsProper(ms);
    FlatIsProper(ns);
    CanonicalAgrees(Object(ms), Object(ns));
    if Equal(Object(ms), Object(ns)) {
      forall i | 0 <= i < |ms| ensures ms[i] == ns[i] {
        EqualMembersMatch(ms, ns, i, i);
        ScalarsMatch(ms[i].value, ns[i].value);
      }
    }
  }

  lemma FlatIsProper(ms: seq<Member>)
    requires Flat(ms) && KeysDiffer(ms)
    ensures Proper(Object(ms))
  {
  }

  lemma ScalarsMatch(v: Value, w: Value)
    requires !v.Array? && !v.Object? && Equal(v, w)
    ensures v == w
  {
  }

  lemma KeysApart()
    ensures Ascii("actor") != Ascii("scope") && Ascii("tenant") != Ascii("action")
    ensures Ascii("tenant") != Ascii("target") && Ascii("action") != Ascii("target")
    ensures Ascii("ceiling") != Ascii("enabled")
  {
    hide Ascii;
    AsciiDiffer("actor", "scope", 0);
    AsciiDiffer("tenant", "action", 0);
    AsciiDiffer("tenant", "target", 1);
    AsciiDiffer("action", "target", 0);
    AsciiDiffer("ceiling", "enabled", 0);
  }

  lemma RequirementKeysDiffer(r: Requirement)
    ensures KeysDiffer(RequirementMembers(r)) && Flat(RequirementMembers(r))
  {
    hide Ascii;
    KeysApart();
  }

  lemma GrantKeysDiffer(g: Grant)
    ensures KeysDiffer(GrantMembers(g)) && Flat(GrantMembers(g))
  {
    hide Ascii, RequirementMembers;
    RequirementKeysDiffer(g.requirement);
    RequirementKeyLengths(g.requirement);
  }

  lemma RequirementKeyLengths(r: Requirement)
    ensures |RequirementMembers(r)| == 5
    ensures forall i :: 0 <= i < 5 ==> |RequirementMembers(r)[i].key| <= 6
  {
    hide Ascii;
  }

  lemma RequirementTextIsInjective(r: Requirement, q: Requirement)
    requires RequirementText(r) == RequirementText(q)
    ensures r == q
  {
    hide Ascii, Canonical, KeysDiffer, Flat;
    RequirementKeysDiffer(r);
    RequirementKeysDiffer(q);
    FlatObjectsAgree(RequirementMembers(r), RequirementMembers(q));
    MembersTellRequirement(r, q);
  }

  lemma MembersTellRequirement(r: Requirement, q: Requirement)
    requires RequirementMembers(r) == RequirementMembers(q)
    ensures r == q
  {
    hide Ascii;
    var x, y := RequirementMembers(r), RequirementMembers(q);
    assert x[0] == y[0] && x[1] == y[1] && x[2] == y[2] && x[3] == y[3] && x[4] == y[4];
  }

  lemma GrantTextIsInjective(g: Grant, h: Grant)
    requires GrantText(g) == GrantText(h)
    ensures g == h
  {
    hide Ascii, Canonical, KeysDiffer, Flat, RequirementMembers;
    GrantKeysDiffer(g);
    GrantKeysDiffer(h);
    RequirementKeyLengths(g.requirement);
    RequirementKeyLengths(h.requirement);
    SameRequirementKeys(g.requirement, h.requirement);
    var x, y := GrantMembers(g), GrantMembers(h);
    FlatObjectsAgree(x, y);
    assert x[..5] == RequirementMembers(g.requirement) && y[..5] == RequirementMembers(h.requirement);
    assert x[5] == y[5] && x[6] == y[6] && x[7] == y[7] && x[8] == y[8];
    MembersTellRequirement(g.requirement, h.requirement);
  }

  lemma SameRequirementKeys(r: Requirement, q: Requirement)
    ensures forall i :: 0 <= i < 5 ==> RequirementMembers(r)[i].key == RequirementMembers(q)[i].key
  {
    hide Ascii;
  }

  lemma CapabilityTextIsInjective()
    ensures Injective(CapabilityText)
  {
    hide Canonical;
    forall c, e | CapabilityText(c) == CapabilityText(e) ensures c == e {
      CanonicalAgrees(String(c), String(e));
      StringsMatch(c, e);
    }
  }

  /** Capability envelopes have one digest exactly when both of their sets agree. */
  lemma CapabilityEnvelopesAgree(c: seq<Capability>, e: seq<Capability>, c': seq<Capability>, e': seq<Capability>)
    ensures CapabilityEnvelopeDigest(c, e) == CapabilityEnvelopeDigest(c', e') <==>
            multiset(c) == multiset(c') && multiset(e) == multiset(e')
  {
    hide Ascii, Canonical, SortedSetDigest, Map, CapabilityText;
    KeysApart();
    var ms, ns := CapabilityMembers(c, e), CapabilityMembers(c', e');
    FlatObjectsAgree(ms, ns);
    SortedSetDigestsAgree(Map(CapabilityText, c), Map(CapabilityText, c'));
    SortedSetDigestsAgree(Map(CapabilityText, e), Map(CapabilityText, e'));
    CapabilityTextIsInjective();
    MapsArePermutations(CapabilityText, c, c');
    MapsArePermutations(CapabilityText, e, e');
    assert ms == ns <==> ms[0] == ns[0] && ms[1] == ns[1];
  }

  /** Authority envelopes with one stop state have one digest exactly when requirements and
      grants agree. */
  lemma AuthorityEnvelopesAgree(
    r: seq<Requirement>, g: seq<Grant>, r': seq<Requirement>, g': seq<Grant>, stopped: bool)
    ensures AuthorityEnvelopeDigest(r, g, stopped) == AuthorityEnvelopeDigest(r', g', stopped) <==>
            multiset(r) == multiset(r') && multiset(g) == multiset(g')
  {
    hide Ascii, Canonical, SortedSetDigest, Map, RequirementText, GrantText;
    var ms, ns := AuthorityMembers(r, g, stopped), AuthorityMembers(r', g', stopped);
    FlatObjectsAgree(ms, ns);
    SortedSetDigestsAgree(Map(RequirementText, r), Map(RequirementText, r'));
    SortedSetDigestsAgree(Map(GrantText, g), Map(GrantText, g'));
    TextsAreInjective();
    MapsArePermutations(RequirementText, r, r');
    MapsArePermutations(GrantText, g, g');
    assert ms == ns <==> ms[0] == ns[0] && ms[1] == ns[1] && ms[2] == ns[2];
  }

  lemma TextsAreInjective()
    ensures Injective(RequirementText) && Injective(GrantText)
  {
    hide RequirementText, GrantText;
    forall r, q | RequirementText(r) == RequirementText(q) ensures r == q {
      RequirementTextIsInjective(r, q);
    }
    forall g, h | GrantText(g) == GrantText(h) ensures g == h {
      GrantTextIsInjective(g, h);
    }
  }
}
