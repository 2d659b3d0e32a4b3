/** Resolution of the Knowledge bindings that workflow and function inputs carry, against
    a snapshot of the Knowledge registry at one moment. */
module KnowledgeRevalidation {
  import opened Wrappers
  import opened Texts
  import opened Json
  import opened CanonicalJson
  import opened SetDigest

  // `untilFirst` says which of its two keys the object lists first. Nothing but
  // `JSON.stringify` can tell.
  datatype Freshness = Freshness(validFromMs: int, validUntilMs: int, untilFirst: bool)

  datatype Binding = Binding(knowledgeId: Text, version: Text, digest: Text, freshness: Freshness, scope: Text)

  datatype State = CURRENT | SUPERSEDED | REVOKED | UNAVAILABLE

  datatype Record = Record(binding: Binding, state: State)

  datatype SubjectKind = WORKFLOW | FUNCTION

  // A binding together with the kind of input that carries it.
  datatype Subject = Subject(kind: SubjectKind, binding: Binding)

  datatype Resolved = Resolved(subject: Subject, registryState: State)

  datatype Reason =
    | NONE | MISSING_INPUT | INVALID_INPUT | NOT_APPLICABLE | AMBIGUOUS_MATCH
    | KNOWLEDGE_MISSING | STALE_KNOWLEDGE | KNOWLEDGE_SUPERSEDED | VERSION_DRIFT | DIGEST_MISMATCH
    | EVIDENCE_INCOMPLETE | BOUNDARY_UNAVAILABLE | CAPABILITY_WIDENING | AUTHORITY_WIDENING | INVALID_CONTRACT
    | OUTPUT_MISMATCH | VERIFICATION_MISMATCH | ROLLBACK_MISMATCH | DEPENDENCY_MISMATCH
    | QUALITY_REGRESSION | REASONING_COST_NOT_LOWER | SAFE_ABORT_REQUIRED

  // The last seven belong to shadow replay and never come out of a resolution.
  const REASON_ORDER: seq<Reason> := [
    NONE, MISSING_INPUT, INVALID_INPUT, NOT_APPLICABLE, AMBIGUOUS_MATCH,
    KNOWLEDGE_MISSING, STALE_KNOWLEDGE, KNOWLEDGE_SUPERSEDED, VERSION_DRIFT, DIGEST_MISMATCH,
    EVIDENCE_INCOMPLETE, BOUNDARY_UNAVAILABLE, CAPABILITY_WIDENING, AUTHORITY_WIDENING, INVALID_CONTRACT]

  const DRIFT: set<Reason> := {KNOWLEDGE_MISSING, STALE_KNOWLEDGE, KNOWLEDGE_SUPERSEDED, VERSION_DRIFT, DIGEST_MISMATCH}

  datatype Status = FAST_PATH_ALLOWED | REVALIDATION_REQUIRED | FAST_PATH_ABORTED

  datatype Outcome = Outcome(status: Status, reasons: seq<Reason>, resolved: seq<Resolved>, dependencySetDigest: Digest)

  predicate SameWindow(f: Freshness, g: Freshness) {
    f.validFromMs == g.validFromMs && f.validUntilMs == g.validUntilMs
  }

  /** A binding, and a subject, up to key order. */
  function Plain(b: Binding): Binding {
    b.(freshness := b.freshness.(untilFirst := false))
  }

  function PlainSubject(s: Subject): Subject {
    s.(binding := Plain(s.binding))
  }

  function Filter<T(!new)>(p: T -> bool, s: seq<T>): (r: seq<T>)
    ensures forall x :: x in r <==> x in s && p(x)
  {
    if s == [] then [] else (if p(s[0]) then [s[0]] else []) + Filter(p, s[1..])
  }

  // What the code compares, in the declarative form of the verdicts.

  predicate SameIdentity(r: Binding, b: Binding) {
    r.knowledgeId == b.knowledgeId && r.version == b.version && r.digest == b.digest && r.scope == b.scope
  }

  predicate IsAmbiguous(records: seq<Record>, b: Binding) {
    exists i, j :: 0 <= i < j < |records| && SameIdentity(records[i].binding, b) && SameIdentity(records[j].binding, b)
  }

  lemma AmbiguityIsCounted(records: seq<Record>, b: Binding, same: Record -> bool)
    requires forall r :: same(r) <==> SameIdentity(r.binding, b)
    ensures IsAmbiguous(records, b) <==> |Filter(same, records)| > 1
  {
    TwiceIsFiltered(same, records);
  }

  predicate HasIdentity(records: seq<Record>, b: Binding) {
    exists r :: r in records && SameIdentity(r.binding, b)
  }

  predicate OtherDigest(r: Binding, b: Binding) {
    r.knowledgeId == b.knowledgeId && r.version == b.version && r.scope == b.scope && r.digest != b.digest
  }

  predicate HasOtherDigest(records: seq<Record>, b: Binding) {
    exists r :: r in records && OtherDigest(r.binding, b)
  }

  predicate HasId(records: seq<Record>, b: Binding) {
    exists r :: r in records && r.binding.knowledgeId == b.knowledgeId
  }

  predicate InWindow(f: Freshness, asOfMs: int) {
    f.validFromMs <= asOfMs < f.validUntilMs
  }

  /** What is wrong with a binding that has this record. */
  function RecordVerdict(r: Record, asOfMs: int, b: Binding): Option<Reason> {
    if !SameWindow(r.binding.freshness, b.freshness) then Some(VERSION_DRIFT)
    else if r.state == SUPERSEDED || r.state == REVOKED then Some(KNOWLEDGE_SUPERSEDED)
    else if r.state == UNAVAILABLE then Some(KNOWLEDGE_MISSING)
    else if !InWindow(r.binding.freshness, asOfMs) then Some(STALE_KNOWLEDGE)
    else None
  }

  /** `verdict` is what is wrong with binding `b`, without any order among the records. */
  ghost predicate IsVerdict(records: seq<Record>, asOfMs: int, b: Binding, verdict: Option<Reason>) {
    if IsAmbiguous(records, b) then verdict == Some(AMBIGUOUS_MATCH)
    else if HasIdentity(records, b) then
      exists r :: r in records && SameIdentity(r.binding, b) && verdict == RecordVerdict(r, asOfMs, b)
    else if HasOtherDigest(records, b) then verdict == Some(DIGEST_MISMATCH)
    else if HasId(records, b) then verdict == Some(VERSION_DRIFT)
    else verdict == Some(KNOWLEDGE_MISSING)
  }

  lemma {:induction false} FilterFilter<T(!new)>(p: T -> bool, q: T -> bool, s: seq<T>)
    requires forall x :: q(x) ==> p(x)
    ensures Filter(q, Filter(p, s)) == Filter(q, s)
  {
    if s != [] {
      FilterFilter(p, q, s[1..]);
      var rest := Filter(p, s[1..]);
      if p(s[0]) {
        assert Filter(p, s) == [s[0]] + rest && ([s[0]] + rest)[1..] == rest;
      } else {
        assert Filter(p, s) == [] + rest == rest;
        assert Filter(q, s) == [] + Filter(q, s[1..]);
      }
    }
  }

  lemma {:induction false} FilterCounts<T(!new)>(p: T -> bool, s: seq<T>, x: T)
    ensures multiset(Filter(p, s))[x] == if p(x) then multiset(s)[x] else 0
  {
    if s != [] {
      FilterCounts(p, s[1..], x);
      assert s == [s[0]] + s[1..];
    }
  }

  lemma FilterPermutes<T(!new)>(p: T -> bool, s: seq<T>, t: seq<T>)
    requires multiset(s) == multiset(t)
    ensures |Filter(p, s)| == |Filter(p, t)|
  {
    forall x ensures multiset(Filter(p, s))[x] == multiset(Filter(p, t))[x] {
      FilterCounts(p, s, x);
      FilterCounts(p, t, x);
    }
    assert multiset(Filter(p, s)) == multiset(Filter(p, t));
    assert |multiset(Filter(p, s))| == |multiset(Filter(p, t))|;
  }

  predicate Twice<T>(p: T -> bool, s: seq<T>) {
    exists i, j :: 0 <= i < j < |s| && p(s[i]) && p(s[j])
  }

  lemma {:induction false} TwiceIsFiltered<T(!new)>(p: T -> bool, s: seq<T>)
    ensures |Filter(p, s)| > 1 <==> Twice(p, s)
  {
    if s != [] {
      var rest := s[1..];
      TwiceIsFiltered(p, rest);
      if Twice(p, rest) {
        var i, j :| 0 <= i < j < |rest| && p(rest[i]) && p(rest[j]);
        assert s[i + 1] == rest[i] && s[j + 1] == rest[j];
      }
      if Twice(p, s) {
        var i, j :| 0 <= i < j < |s| && p(s[i]) && p(s[j]);
        assert rest[j - 1] == s[j] && rest[j - 1] in Filter(p, rest);
        assert i > 0 ==> rest[i - 1] == s[i];
      }
      if p(s[0]) && |Filter(p, rest)| > 0 {
        var x := Filter(p, rest)[0];
        assert x in Filter(p, rest);
        var j :| 0 <= j < |rest| && rest[j] == x;
        assert s[j + 1] == x && s[0] == s[0];
      }
    }
  }

  lemma NonEmpty<T>(s: seq<T>)
    ensures |s| > 0 ==> s[0] in s
    ensures |s| == 0 <==> forall x :: x !in s
  {
    if |s| > 0 {
      assert s[0] in s;
    }
  }

  // The inner body of the loop for one binding.
  method Judge(records: seq<Record>, asOfMs: int, b: Binding) returns (verdict: Option<Reason>)
    ensures IsVerdict(records, asOfMs, b, verdict)
  {
    hide Filter, IsAmbiguous;
    var hasId := (r: Record) => r.binding.knowledgeId == b.knowledgeId;
    var same := (r: Record) => SameIdentity(r.binding, b);
    var sameId := Filter(hasId, records);
    var exactIdentity := Filter(same, sameId);
    FilterFilter(hasId, same, records);
    AmbiguityIsCounted(records, b, same);
    assert forall r :: r in exactIdentity <==> r in records && SameIdentity(r.binding, b);
    NonEmpty(exactIdentity);
    NonEmpty(sameId);
    if |exactIdentity| > 1 {
      return Some(AMBIGUOUS_MATCH);
    }
    if |exactIdentity| == 0 {
      var sameVersionScope :=
        Filter((r: Record) => r.binding.version == b.version && r.binding.scope == b.scope, sameId);
      var sameVersion := Filter((r: Record) => r.binding.version == b.version, sameId);
      var sameScope := Filter((r: Record) => r.binding.scope == b.scope, sameId);
      NonEmpty(sameVersion);
      NonEmpty(sameScope);
      if exists r :: r in sameVersionScope && r.binding.digest != b.digest {
        return Some(DIGEST_MISMATCH);
      } else if |sameVersion| > 0 || |sameScope| > 0 || |sameId| > 0 {
        return Some(VERSION_DRIFT);
      } else {
        return Some(KNOWLEDGE_MISSING);
      }
    }
    var matched := exactIdentity[0];
    if !SameWindow(matched.binding.freshness, b.freshness) {
      return Some(VERSION_DRIFT);
    }
    if matched.state == SUPERSEDED || matched.state == REVOKED {
      return Some(KNOWLEDGE_SUPERSEDED);
    }
    if matched.state == UNAVAILABLE {
      return Some(KNOWLEDGE_MISSING);
    }
    if !InWindow(matched.binding.freshness, asOfMs) {
      return Some(STALE_KNOWLEDGE);
    }
    return None;
  }

  /** A binding has one verdict, however the records are ordered. */
  lemma VerdictIsUnique(rs: seq<Record>, ss: seq<Record>, asOfMs: int, b: Binding, u: Option<Reason>, v: Option<Reason>)
    requires multiset(rs) == multiset(ss)
    requires IsVerdict(rs, asOfMs, b, u) && IsVerdict(ss, asOfMs, b, v)
    ensures u == v
  {
    hide Filter;
    var same := (r: Record) => SameIdentity(r.binding, b);
    AmbiguityIsCounted(rs, b, same);
    AmbiguityIsCounted(ss, b, same);
    FilterPermutes(same, rs, ss);
    assert forall r :: r in rs <==> r in multiset(rs);
    assert forall r :: r in ss <==> r in multiset(ss);
    if !IsAmbiguous(rs, b) && HasIdentity(rs, b) {
      var q :| q in rs && SameIdentity(q.binding, b) && u == RecordVerdict(q, asOfMs, b);
      var r :| r in ss && SameIdentity(r.binding, b) && v == RecordVerdict(r, asOfMs, b);
      UniqueRecord(rs, b, q, r);
    }
  }

  lemma UniqueRecord(records: seq<Record>, b: Binding, q: Record, r: Record)
    requires !IsAmbiguous(records, b) && q in records && r in records
    requires SameIdentity(q.binding, b) && SameIdentity(r.binding, b)
    ensures q == r
  {
    var i :| 0 <= i < |records| && records[i] == q;
    var j :| 0 <= j < |records| && records[j] == r;
    assert i < j || i == j || j < i;
  }

  /** The only record of a binding's identity. */
  ghost predicate IsOnlyRecord(records: seq<Record>, b: Binding, r: Record) {
    r in records && SameIdentity(r.binding, b) && !IsAmbiguous(records, b)
  }

  predicate InForce(r: Record, b: Binding) {
    SameWindow(r.binding.freshness, b.freshness) && r.state == CURRENT
  }

  /** What each verdict means, read on its own. */
  lemma VerdictMeans(records: seq<Record>, asOfMs: int, b: Binding, v: Option<Reason>)
    requires IsVerdict(records, asOfMs, b, v)
    ensures v == Some(AMBIGUOUS_MATCH) <==> IsAmbiguous(records, b)
    ensures v == Some(DIGEST_MISMATCH) <==> !HasIdentity(records, b) && HasOtherDigest(records, b)
    ensures v == Some(VERSION_DRIFT) <==>
            || (!HasIdentity(records, b) && !HasOtherDigest(records, b) && HasId(records, b))
            || (exists r :: IsOnlyRecord(records, b, r) && !SameWindow(r.binding.freshness, b.freshness))
    ensures v == Some(KNOWLEDGE_MISSING) <==>
            || (!HasIdentity(records, b) && !HasOtherDigest(records, b) && !HasId(records, b))
            || (exists r :: IsOnlyRecord(records, b, r) && SameWindow(r.binding.freshness, b.freshness)
                            && r.state == UNAVAILABLE)
    ensures v == Some(KNOWLEDGE_SUPERSEDED) <==>
            exists r :: IsOnlyRecord(records, b, r) && SameWindow(r.binding.freshness, b.freshness)
                        && (r.state == SUPERSEDED || r.state == REVOKED)
    ensures v == Some(STALE_KNOWLEDGE) <==>
            exists r :: IsOnlyRecord(records, b, r) && InForce(r, b) && !InWindow(b.freshness, asOfMs)
    ensures v == None <==> exists r :: IsOnlyRecord(records, b, r) && InForce(r, b) && InWindow(b.freshness, asOfMs)
  {
    hide HasOtherDigest, HasId;
    if IsAmbiguous(records, b) {
      AmbiguousHasIdentity(records, b);
    } else if HasIdentity(records, b) {
      var r :| r in records && SameIdentity(r.binding, b) && v == RecordVerdict(r, asOfMs, b);
      OnlyOne(records, b, r);
      assert IsOnlyRecord(records, b, r);
      assert SameWindow(r.binding.freshness, b.freshness) ==>
          InWindow(r.binding.freshness, asOfMs) == InWindow(b.freshness, asOfMs);
    }
  }

  lemma AmbiguousHasIdentity(records: seq<Record>, b: Binding)
    requires IsAmbiguous(records, b)
    ensures HasIdentity(records, b)
  {
    var i, j :| 0 <= i < j < |records| && SameIdentity(records[i].binding, b) && SameIdentity(records[j].binding, b);
    assert records[i] in records;
  }

  lemma OnlyOne(records: seq<Record>, b: Binding, r: Record)
    requires r in records && SameIdentity(r.binding, b) && !IsAmbiguous(records, b)
    ensures forall q :: IsOnlyRecord(records, b, q) <==> q == r
  {
    forall q | IsOnlyRecord(records, b, q) ensures q == r {
      UniqueRecord(records, b, q, r);
    }
  }

  /** Key order never matters to a verdict. */
  lemma VerdictIgnoresKeyOrder(records: seq<Record>, asOfMs: int, b: Binding, c: Binding, v: Option<Reason>)
    requires Plain(b) == Plain(c) && IsVerdict(records, asOfMs, b, v)
    ensures IsVerdict(records, asOfMs, c, v)
  {
    assert SameWindow(b.freshness, c.freshness);
    assert forall r: Record :: SameIdentity(r.binding, b) <==> SameIdentity(r.binding, c);
    assert forall r: Record :: OtherDigest(r.binding, b) <==> OtherDigest(r.binding, c);
    assert forall r: Record :: RecordVerdict(r, asOfMs, b) == RecordVerdict(r, asOfMs, c);
  }

  // Binding keys

  function KindText(kind: SubjectKind): Text {
    if kind == WORKFLOW then Ascii("WORKFLOW") else Ascii("FUNCTION")
  }

  lemma KindTextIsInjective(k: SubjectKind, l: SubjectKind)
    requires KindText(k) == KindText(l)
    ensures k == l
  {
    hide Ascii;
    AsciiDiffer("WORKFLOW", "FUNCTION", 0);
  }

  function FromMember(f: Freshness): Member {
    Member(Ascii("validFromMs"), Number(f.validFromMs))
  }

  function UntilMember(f: Freshness): Member {
    Member(Ascii("validUntilMs"), Number(f.validUntilMs))
  }

  function FreshnessValue(f: Freshness): Value {
    Object(if f.untilFirst then [UntilMember(f), FromMember(f)] else [FromMember(f), UntilMember(f)])
  }

  function KeyValue(s: Subject): Value {
    Object([
      Member(Ascii("kind"), String(KindText(s.kind))),
      Member(Ascii("knowledgeId"), String(s.binding.knowledgeId)),
      Member(Ascii("version"), String(s.binding.version)),
      Member(Ascii("digest"), String(s.binding.digest)),
      Member(Ascii("freshness"), FreshnessValue(s.binding.freshness)),
      Member(Ascii("scope"), String(s.binding.scope))])
  }

  function BindingKey(s: Subject): Digest {
    Sha256(Canonical(KeyValue(s)))
  }

  lemma EqualMembersMatch(ms: seq<Member>, ns: seq<Member>, i: nat, k: nat)
    requires |ms| == |ns| && i < |ms| && k < |ns| && KeysDiffer(ns) && ms[i].key == ns[k].key
    requires Equal(Object(ms), Object(ns))
    ensures Equal(ms[i].value, ns[k].value)
  {
    assert HasEqual(ms[i], ns);
    var j :| 0 <= j < |ns| && EqualMembers(ms[i], ns[j]);
    assert k == j;
  }

  /** Objects that list the same keys in the same places are compared place by place. */
  lemma AlignedObjects(ms: seq<Member>, ns: seq<Member>)
    requires |ms| == |ns| && KeysDiffer(ns) && forall i :: 0 <= i < |ms| ==> ms[i].key == ns[i].key
    ensures Equal(Object(ms), Object(ns)) <==> forall i :: 0 <= i < |ms| ==> Equal(ms[i].value, ns[i].value)
  {
    hide Equal, KeysDiffer;
    EqualObjects(ms, ns);
    if Equal(Object(ms), Object(ns)) {
      forall i | 0 <= i < |ms| ensures Equal(ms[i].value, ns[i].value) {
        EqualMembersMatch(ms, ns, i, i);
      }
    } else {
      var i :| 0 <= i < |ms| && !HasEqual(ms[i], ns);
      assert !EqualMembers(ms[i], ns[i]);
    }
  }

  lemma FreshnessIsProper(f: Freshness)
    ensures KeysDiffer(FreshnessValue(f).members) && Proper(FreshnessValue(f))
  {
    hide Ascii;
  }

  lemma KeyValueIsProper(s: Subject)
    ensures KeysDiffer(KeyValue(s).members) && Proper(KeyValue(s))
  {
    hide Ascii, FreshnessValue;
    FreshnessIsProper(s.binding.freshness);
  }

  lemma NumbersMatch(a: int, b: int)
    ensures Equal(Number(a), Number(b)) <==> a == b
  {
  }

  lemma StringsMatch(a: Text, b: Text)
    ensures Equal(String(a), String(b)) <==> a == b
  {
  }

  /** As JSON values, windows are equal whichever key they list first. */
  lemma FreshnessValuesAgree(f: Freshness, g: Freshness)
    ensures Equal(FreshnessValue(f), FreshnessValue(g)) <==> SameWindow(f, g)
  {
    hide Ascii, Equal, KeysDiffer;
    var ms, ns := FreshnessValue(f).members, FreshnessValue(g).members;
    FreshnessIsProper(g);
    NumbersMatch(f.validFromMs, g.validFromMs);
    NumbersMatch(f.validUntilMs, g.validUntilMs);
    if Equal(FreshnessValue(f), FreshnessValue(g)) {
      EqualMembersMatch(ms, ns, if f.untilFirst then 1 else 0, if g.untilFirst then 1 else 0);
      EqualMembersMatch(ms, ns, if f.untilFirst then 0 else 1, if g.untilFirst then 0 else 1);
    }
    if SameWindow(f, g) {
      assert EqualMembers(FromMember(f), FromMember(g)) && EqualMembers(UntilMember(f), UntilMember(g));
      assert ns[if g.untilFirst then 1 else 0] == FromMember(g) && ns[if g.untilFirst then 0 else 1] == UntilMember(g);
      EqualObjects(ms, ns);
    }
  }

  lemma KeyValuesAligned(s: Subject, t: Subject)
    ensures Equal(KeyValue(s), KeyValue(t)) <==>
            forall i :: 0 <= i < 6 ==> Equal(KeyValue(s).members[i].value, KeyValue(t).members[i].value)
  {
    hide Ascii, Equal, KindText, FreshnessValue;
    KeyValueIsProper(t);
    AlignedObjects(KeyValue(s).members, KeyValue(t).members);
  }

  /** Two subjects share a key exactly when they are the same up to key order. */
  lemma BindingKeysAgree(s: Subject, t: Subject)
    ensures BindingKey(s) == BindingKey(t) <==> PlainSubject(s) == PlainSubject(t)
  {
    hide Ascii, Equal, Proper, Canonical, KindText, FreshnessValue;
    KeyValueIsProper(s);
    KeyValueIsProper(t);
    CanonicalAgrees(KeyValue(s), KeyValue(t));
    KeyValuesAligned(s, t);
    FieldsMatch(s, t);
  }

  lemma FieldsMatch(s: Subject, t: Subject)
    ensures (forall i :: 0 <= i < 6 ==> Equal(KeyValue(s).members[i].value, KeyValue(t).members[i].value)) <==>
            PlainSubject(s) == PlainSubject(t)
  {
    hide Ascii, Equal, KindText, FreshnessValue;
    var x, y := KeyValue(s).members, KeyValue(t).members;
    StringsMatch(KindText(s.kind), KindText(t.kind));
    StringsMatch(s.binding.knowledgeId, t.binding.knowledgeId);
    StringsMatch(s.binding.version, t.binding.version);
    StringsMatch(s.binding.digest, t.binding.digest);
    FreshnessValuesAgree(s.binding.freshness, t.binding.freshness);
    StringsMatch(s.binding.scope, t.binding.scope);
    if forall i :: 0 <= i < 6 ==> Equal(x[i].value, y[i].value) {
      assert Equal(x[0].value, y[0].value) && Equal(x[1].value, y[1].value) && Equal(x[2].value, y[2].value);
      assert Equal(x[3].value, y[3].value) && Equal(x[4].value, y[4].value) && Equal(x[5].value, y[5].value);
      KindTextIsInjective(s.kind, t.kind);
    }
  }

  // Resolution

  function Subjects(kind: SubjectKind, bindings: seq<Binding>): (r: seq<Subject>)
    ensures |r| == |bindings| && forall i :: 0 <= i < |r| ==> r[i] == Subject(kind, bindings[i])
  {
    if bindings == [] then [] else [Subject(kind, bindings[0])] + Subjects(kind, bindings[1..])
  }

  function AllSubjects(workflowInputs: seq<Binding>, functionInputs: seq<Binding>): seq<Subject> {
    Subjects(WORKFLOW, workflowInputs) + Subjects(FUNCTION, functionInputs)
  }

  function SubjectTuple(s: Subject): Value {
    var b := s.binding;
    Array([String(KindText(s.kind)), String(b.knowledgeId), String(b.version),
           String(b.digest), FreshnessValue(b.freshness), String(b.scope)])
  }

  function DependencyTuple(d: Resolved): Value {
    SubjectTuple(d.subject)
  }

  function Ordered(reasons: set<Reason>): seq<Reason> {
    if reasons == {} then [NONE] else Filter((r: Reason) => r in reasons, REASON_ORDER)
  }

  function StatusOf(reasons: set<Reason>): Status {
    if reasons == {} then FAST_PATH_ALLOWED
    else if reasons * DRIFT != {} then REVALIDATION_REQUIRED
    else FAST_PATH_ABORTED
  }

  /** Revalidation is worth trying if anything but a malformed or an ambiguous dependency is
      among the reasons. */
  lemma StatusMeans(reasons: set<Reason>)
    requires forall r :: r in reasons ==> r in DRIFT || r in {INVALID_INPUT, AMBIGUOUS_MATCH}
    ensures StatusOf(reasons) == FAST_PATH_ALLOWED <==> reasons == {}
    ensures StatusOf(reasons) == REVALIDATION_REQUIRED <==> !(reasons <= {INVALID_INPUT, AMBIGUOUS_MATCH})
  {
    if r :| r in reasons && r !in {INVALID_INPUT, AMBIGUOUS_MATCH} {
      assert r in reasons * DRIFT;
    }
  }

  /** The same subject comes earlier, up to key order. */
  predicate Repeats(before: seq<Subject>, s: Subject) {
    exists t :: t in before && PlainSubject(t) == PlainSubject(s)
  }

  ghost predicate NoRepeats(subjects: seq<Subject>) {
    Distinct(Map(PlainSubject, subjects))
  }

  /** Reason `r` is due for these subjects. */
  ghost predicate Raised(subjects: seq<Subject>, records: seq<Record>, asOfMs: int, r: Reason) {
    (r == INVALID_INPUT && !NoRepeats(subjects))
    || exists s :: s in subjects && IsVerdict(records, asOfMs, s.binding, Some(r))
  }

  ghost function ReasonsOf(subjects: seq<Subject>, records: seq<Record>, asOfMs: int): set<Reason> {
    set r: Reason | Raised(subjects, records, asOfMs, r)
  }

  /** The dependencies that are found backed, each where it first occurs, as written there. */
  ghost function Survivors(subjects: seq<Subject>, records: seq<Record>, asOfMs: int): seq<Resolved> {
    if subjects == [] then []
    else
      var n := |subjects| - 1;
      Survivors(subjects[..n], records, asOfMs)
      + if Repeats(subjects[..n], subjects[n]) || !IsVerdict(records, asOfMs, subjects[n].binding, None) then []
        else [Resolved(subjects[n], CURRENT)]
  }

  /** What a resolution of these subjects against these records has to say. */
  ghost function OutcomeOf(subjects: seq<Subject>, records: seq<Record>, asOfMs: int): Outcome {
    var reasons := ReasonsOf(subjects, records, asOfMs);
    var resolved := Survivors(subjects, records, asOfMs);
    Outcome(StatusOf(reasons), Ordered(reasons), resolved, TuplesDigest(Map(DependencyTuple, resolved)))
  }

  predicate Seen(subjects: seq<Subject>, seen: set<Digest>) {
    && (forall k :: k in seen ==> exists s :: s in subjects && BindingKey(s) == k)
    && (forall s :: s in subjects ==> BindingKey(s) in seen)
  }

  /** The state of the loops after `subjects`. */
  ghost predicate Progress(subjects: seq<Subject>, records: seq<Record>, asOfMs: int,
                           seen: set<Digest>, reasons: set<Reason>, resolved: seq<Resolved>)
  {
    && Seen(subjects, seen) && resolved == Survivors(subjects, records, asOfMs)
    && forall r :: r in reasons <==> Raised(subjects, records, asOfMs, r)
  }

  lemma SeenTells(subjects: seq<Subject>, seen: set<Digest>, s: Subject)
    requires Seen(subjects, seen)
    ensures BindingKey(s) in seen <==> Repeats(subjects, s)
  {
    hide BindingKey, PlainSubject;
    if BindingKey(s) in seen {
      var t :| t in subjects && BindingKey(t) == BindingKey(s);
      BindingKeysAgree(s, t);
    }
    if Repeats(subjects, s) {
      var t :| t in subjects && PlainSubject(t) == PlainSubject(s);
      BindingKeysAgree(s, t);
    }
  }

  lemma DistinctSnoc<T(!new)>(s: seq<T>, x: T)
    ensures Distinct(s + [x]) <==> Distinct(s) && x !in s
  {
    var t := s + [x];
    if Distinct(t) {
      forall i, j | 0 <= i < j < |s| ensures s[i] != s[j] {
        assert t[i] != t[j];
      }
      forall i | 0 <= i < |s| ensures s[i] != x {
        assert t[i] != t[|s|];
      }
    }
  }

  lemma NoRepeatsSnoc(subjects: seq<Subject>, s: Subject)
    ensures NoRepeats(subjects + [s]) <==> NoRepeats(subjects) && !Repeats(subjects, s)
  {
    hide PlainSubject, Distinct, Map;
    var plain := Map(PlainSubject, subjects);
    MapConcat(PlainSubject, subjects, [s]);
    assert Map(PlainSubject, [s]) == [PlainSubject(s)];
    DistinctSnoc(plain, PlainSubject(s));
    RepeatsIsMapped(subjects, s);
  }

  lemma RepeatsIsMapped(subjects: seq<Subject>, s: Subject)
    ensures Repeats(subjects, s) <==> PlainSubject(s) in Map(PlainSubject, subjects)
  {
    hide PlainSubject, Map;
    var plain := Map(PlainSubject, subjects);
    if PlainSubject(s) in plain {
      var i :| 0 <= i < |plain| && plain[i] == PlainSubject(s);
      assert subjects[i] in subjects;
    }
    if Repeats(subjects, s) {
      var t :| t in subjects && PlainSubject(t) == PlainSubject(s);
      var i :| 0 <= i < |subjects| && subjects[i] == t;
      assert plain[i] == PlainSubject(s);
    }
  }

  lemma SurvivorsSnoc(subjects: seq<Subject>, s: Subject, records: seq<Record>, asOfMs: int)
    ensures Survivors(subjects + [s], records, asOfMs) ==
            Survivors(subjects, records, asOfMs)
            + if Repeats(subjects, s) || !IsVerdict(records, asOfMs, s.binding, None) then []
              else [Resolved(s, CURRENT)]
  {
    hide IsVerdict, Repeats;
    assert (subjects + [s])[..|subjects|] == subjects;
  }

  lemma RepeatedSubject(subjects: seq<Subject>, s: Subject, records: seq<Record>, asOfMs: int,
                        seen: set<Digest>, reasons: set<Reason>, resolved: seq<Resolved>)
    requires Progress(subjects, records, asOfMs, seen, reasons, resolved) && Repeats(subjects, s)
    ensures Progress(subjects + [s], records, asOfMs, seen, reasons + {INVALID_INPUT}, resolved)
  {
    hide IsVerdict, BindingKey, NoRepeats, Survivors, Plain;
    NoRepeatsSnoc(subjects, s);
    SurvivorsSnoc(subjects, s, records, asOfMs);
    SeenTells(subjects, seen, s);
    var t :| t in subjects && PlainSubject(t) == PlainSubject(s);
    forall v | IsVerdict(records, asOfMs, s.binding, v) ensures IsVerdict(records, asOfMs, t.binding, v) {
      VerdictIgnoresKeyOrder(records, asOfMs, s.binding, t.binding, v);
    }
    assert forall x :: x in subjects + [s] <==> x in subjects || x == s;
  }

  lemma NewSubject(subjects: seq<Subject>, s: Subject, records: seq<Record>, asOfMs: int,
                   seen: set<Digest>, reasons: set<Reason>, resolved: seq<Resolved>, verdict: Option<Reason>)
    requires Progress(subjects, records, asOfMs, seen, reasons, resolved) && !Repeats(subjects, s)
    requires IsVerdict(records, asOfMs, s.binding, verdict)
    ensures verdict.Some? ==>
              Progress(subjects + [s], records, asOfMs, seen + {BindingKey(s)}, reasons + {verdict.value}, resolved)
    ensures verdict.None? ==>
              Progress(subjects + [s], records, asOfMs, seen + {BindingKey(s)}, reasons,
                       resolved + [Resolved(s, CURRENT)])
  {
    hide IsVerdict, BindingKey, NoRepeats, Survivors, Repeats;
    forall v | IsVerdict(records, asOfMs, s.binding, v) ensures v == verdict {
      VerdictIsUnique(records, records, asOfMs, s.binding, v, verdict);
    }
    NoRepeatsSnoc(subjects, s);
    SurvivorsSnoc(subjects, s, records, asOfMs);
    assert forall t :: t in subjects + [s] <==> t in subjects || t == s;
  }

  method ResolveKind(ghost before: seq<Subject>, kind: SubjectKind, bindings: seq<Binding>,
                     records: seq<Record>, asOfMs: int,
                     seenBefore: set<Digest>, reasonsBefore: set<Reason>, resolvedBefore: seq<Resolved>)
    returns (seen: set<Digest>, reasons: set<Reason>, resolved: seq<Resolved>)
    requires Progress(before, records, asOfMs, seenBefore, reasonsBefore, resolvedBefore)
    ensures Progress(before + Subjects(kind, bindings), records, asOfMs, seen, reasons, resolved)
  {
    hide Progress, BindingKey, IsVerdict, Subjects, Repeats;
    seen, reasons, resolved := seenBefore, reasonsBefore, resolvedBefore;
    ghost var all := Subjects(kind, bindings);
    ghost var done := before;
    for i := 0 to |bindings|
      invariant done == before + all[..i]
      invariant Progress(done, records, asOfMs, seen, reasons, resolved)
    {
      var s := Subject(kind, bindings[i]);
      var key := BindingKey(s);
      ProgressTells(done, records, asOfMs, seen, reasons, resolved, s);
      if key in seen {
        RepeatedSubject(done, s, records, asOfMs, seen, reasons, resolved);
        reasons := reasons + {INVALID_INPUT};
      } else {
        var verdict := Judge(records, asOfMs, s.binding);
        NewSubject(done, s, records, asOfMs, seen, reasons, resolved, verdict);
        seen := seen + {key};
        if verdict.Some? {
          reasons := reasons + {verdict.value};
        } else {
          resolved := resolved + [Resolved(s, CURRENT)];
        }
      }
      assert before + all[..i + 1] == done + [s];
      done := done + [s];
    }
    assert all[..|bindings|] == all;
  }

  lemma ProgressTells(subjects: seq<Subject>, records: seq<Record>, asOfMs: int,
                      seen: set<Digest>, reasons: set<Reason>, resolved: seq<Resolved>, s: Subject)
    requires Progress(subjects, records, asOfMs, seen, reasons, resolved)
    ensures BindingKey(s) in seen <==> Repeats(subjects, s)
  {
    SeenTells(subjects, seen, s);
  }

  /** `wellFormed` stands for the shape checks on the input. */
  method Resolve(wellFormed: bool, asOfMs: int, workflowInputs: seq<Binding>, functionInputs: seq<Binding>,
                 records: seq<Record>)
    returns (o: Outcome)
    ensures !wellFormed ==> o == Outcome(FAST_PATH_ABORTED, [INVALID_INPUT], [], Sha256(Canonical(Array([]))))
    ensures wellFormed ==> o == OutcomeOf(AllSubjects(workflowInputs, functionInputs), records, asOfMs)
  {
    hide Subjects, Filter, Canonical, TuplesDigest, Map, DependencyTuple, IsVerdict, NoRepeats, Survivors, Raised;
    if !wellFormed {
      return Outcome(FAST_PATH_ABORTED, [INVALID_INPUT], [], Sha256(Canonical(Array([]))));
    }
    NothingYet(records, asOfMs);
    var seen, reasons, resolved := ResolveKind([], WORKFLOW, workflowInputs, records, asOfMs, {}, {}, []);
    seen, reasons, resolved :=
      ResolveKind([] + Subjects(WORKFLOW, workflowInputs), FUNCTION, functionInputs, records, asOfMs, seen,
                  reasons, resolved);
    assert [] + Subjects(WORKFLOW, workflowInputs) == Subjects(WORKFLOW, workflowInputs);
    assert reasons == ReasonsOf(AllSubjects(workflowInputs, functionInputs), records, asOfMs);
    o := Outcome(StatusOf(reasons), Ordered(reasons), resolved, TuplesDigest(Map(DependencyTuple, resolved)));
  }

  lemma NothingYet(records: seq<Record>, asOfMs: int)
    ensures Progress([], records, asOfMs, {}, {}, [])
  {
  }

  // What follows for callers

  /** A binding is backed when exactly one record has its identity, and that record has an
      equal window, is current and is in force. */
  ghost predicate Backed(records: seq<Record>, asOfMs: int, b: Binding) {
    !IsAmbiguous(records, b) && exists r :: r in records && Backs(r, asOfMs, b)
  }

  predicate Backs(r: Record, asOfMs: int, b: Binding) {
    && SameIdentity(r.binding, b) && SameWindow(r.binding.freshness, b.freshness) && r.state == CURRENT
    && b.freshness.validFromMs <= asOfMs < b.freshness.validUntilMs
  }

  lemma BackedHasNoFault(records: seq<Record>, asOfMs: int, b: Binding)
    ensures Backed(records, asOfMs, b) <==> IsVerdict(records, asOfMs, b, None)
  {
    if !IsAmbiguous(records, b) && HasIdentity(records, b) {
      if IsVerdict(records, asOfMs, b, None) {
        var r :| r in records && SameIdentity(r.binding, b) && None == RecordVerdict(r, asOfMs, b);
        assert Backs(r, asOfMs, b);
      }
      if Backed(records, asOfMs, b) {
        var r :| r in records && Backs(r, asOfMs, b);
        assert RecordVerdict(r, asOfMs, b) == None;
      }
    }
  }

  lemma VerdictExists(records: seq<Record>, asOfMs: int, b: Binding)
    ensures exists v :: IsVerdict(records, asOfMs, b, v)
  {
    if IsAmbiguous(records, b) {
      assert IsVerdict(records, asOfMs, b, Some(AMBIGUOUS_MATCH));
    } else if HasIdentity(records, b) {
      var r :| r in records && SameIdentity(r.binding, b);
      assert IsVerdict(records, asOfMs, b, RecordVerdict(r, asOfMs, b));
    } else if HasOtherDigest(records, b) {
      assert IsVerdict(records, asOfMs, b, Some(DIGEST_MISMATCH));
    } else if HasId(records, b) {
      assert IsVerdict(records, asOfMs, b, Some(VERSION_DRIFT));
    } else {
      assert IsVerdict(records, asOfMs, b, Some(KNOWLEDGE_MISSING));
    }
  }

  lemma FaultIsRaised(subjects: seq<Subject>, records: seq<Record>, asOfMs: int, s: Subject)
    requires s in subjects && !IsVerdict(records, asOfMs, s.binding, None)
    ensures exists r :: Raised(subjects, records, asOfMs, r)
  {
    hide IsVerdict;
    VerdictExists(records, asOfMs, s.binding);
    var v :| IsVerdict(records, asOfMs, s.binding, v);
    assert Raised(subjects, records, asOfMs, v.value);
  }

  lemma NothingRaisedIff(subjects: seq<Subject>, records: seq<Record>, asOfMs: int)
    ensures ReasonsOf(subjects, records, asOfMs) == {} <==>
            NoRepeats(subjects) && forall s :: s in subjects ==> IsVerdict(records, asOfMs, s.binding, None)
  {
    hide IsVerdict, NoRepeats;
    assert forall r :: r in ReasonsOf(subjects, records, asOfMs) <==> Raised(subjects, records, asOfMs, r);
    if forall r :: !Raised(subjects, records, asOfMs, r) {
      assert !Raised(subjects, records, asOfMs, INVALID_INPUT);
      forall s | s in subjects ensures IsVerdict(records, asOfMs, s.binding, None) {
        if !IsVerdict(records, asOfMs, s.binding, None) {
          FaultIsRaised(subjects, records, asOfMs, s);
        }
      }
    } else if NoRepeats(subjects) {
      var r :| Raised(subjects, records, asOfMs, r);
      var s :| s in subjects && IsVerdict(records, asOfMs, s.binding, Some(r));
      if IsVerdict(records, asOfMs, s.binding, None) {
        VerdictIsUnique(records, records, asOfMs, s.binding, None, Some(r));
      }
    }
  }

  lemma SubjectsCover(ws: seq<Binding>, fs: seq<Binding>)
    ensures forall b :: b in ws || b in fs <==> exists s :: s in AllSubjects(ws, fs) && s.binding == b
  {
    hide Subjects;
    var w, f := Subjects(WORKFLOW, ws), Subjects(FUNCTION, fs);
    forall b | b in ws ensures Subject(WORKFLOW, b) in w + f {
      var i :| 0 <= i < |ws| && ws[i] == b;
      assert w[i] == Subject(WORKFLOW, b);
    }
    forall b | b in fs ensures Subject(FUNCTION, b) in w + f {
      var i :| 0 <= i < |fs| && fs[i] == b;
      assert f[i] == Subject(FUNCTION, b);
    }
    forall s | s in w + f ensures s.binding in ws || s.binding in fs {
      if s in w {
        var i :| 0 <= i < |w| && w[i] == s;
        assert ws[i] == s.binding;
      } else {
        var i :| 0 <= i < |f| && f[i] == s;
        assert fs[i] == s.binding;
      }
    }
  }

  lemma DistinctSubjects(ws: seq<Binding>, fs: seq<Binding>)
    ensures NoRepeats(AllSubjects(ws, fs)) <==> Distinct(Map(Plain, ws)) && Distinct(Map(Plain, fs))
  {
    hide Subjects, Map;
    var all := Map(PlainSubject, AllSubjects(ws, fs));
    var w, f := Map(Plain, ws), Map(Plain, fs);
    var n := |ws|;
    assert forall i :: 0 <= i < n ==> all[i] == Subject(WORKFLOW, w[i]);
    assert forall i :: 0 <= i < |fs| ==> all[n + i] == Subject(FUNCTION, f[i]);
    if Distinct(all) {
      forall i, j | 0 <= i < j < |ws| ensures w[i] != w[j] {
        assert all[i] != all[j];
      }
      forall i, j | 0 <= i < j < |fs| ensures f[i] != f[j] {
        assert all[n + i] != all[n + j];
      }
    }
    if Distinct(w) && Distinct(f) {
      forall i, j | 0 <= i < j < |all| ensures all[i] != all[j] {
        if i >= n {
          assert all[i] == all[n + (i - n)] && all[j] == all[n + (j - n)];
        } else if j >= n {
          assert all[j] == all[n + (j - n)];
        }
      }
    }
  }

  /** The fast path is allowed exactly when no binding repeats within its kind, in whatever
      key order, and every binding is backed. */
  lemma AllowedIffBacked(ws: seq<Binding>, fs: seq<Binding>, records: seq<Record>, asOfMs: int)
    ensures OutcomeOf(AllSubjects(ws, fs), records, asOfMs).status == FAST_PATH_ALLOWED <==>
            && Distinct(Map(Plain, ws)) && Distinct(Map(Plain, fs))
            && (forall b :: b in ws || b in fs ==> Backed(records, asOfMs, b))
  {
    hide Subjects, IsVerdict, Backed, NoRepeats, ReasonsOf, Ordered, AllSubjects;
    DistinctSubjects(ws, fs);
    SubjectsCover(ws, fs);
    forall b ensures Backed(records, asOfMs, b) <==> IsVerdict(records, asOfMs, b, None) {
      BackedHasNoFault(records, asOfMs, b);
    }
    NothingRaisedIff(AllSubjects(ws, fs), records, asOfMs);
  }

  lemma TwiceIsCounted<T(!new)>(s: seq<T>, i: nat, j: nat)
    requires i < j < |s| && s[i] == s[j]
    ensures multiset(s)[s[i]] >= 2
  {
    var a, b, c := s[..i], s[i + 1..j], s[j + 1..];
    assert s == a + ([s[i]] + (b + ([s[j]] + c)));
  }

  lemma DistinctIsCounted<T(!new)>(s: seq<T>)
    ensures Distinct(s) <==> forall x :: multiset(s)[x] <= 1
  {
    if Distinct(s) {
      CountsAtMostOne(s);
    } else {
      var i, j :| 0 <= i < j < |s| && s[i] == s[j];
      TwiceIsCounted(s, i, j);
    }
  }

  lemma NoRepeatsPermute(ss: seq<Subject>, ts: seq<Subject>)
    requires multiset(ss) == multiset(ts)
    ensures NoRepeats(ss) <==> NoRepeats(ts)
  {
    MapsPermute(PlainSubject, ss, ts);
    DistinctIsCounted(Map(PlainSubject, ss));
    DistinctIsCounted(Map(PlainSubject, ts));
  }

  lemma SameVerdict(rs: seq<Record>, qs: seq<Record>, asOfMs: int, b: Binding, v: Option<Reason>)
    requires multiset(rs) == multiset(qs) && IsVerdict(rs, asOfMs, b, v)
    ensures IsVerdict(qs, asOfMs, b, v)
  {
    hide IsVerdict;
    VerdictExists(qs, asOfMs, b);
    var u :| IsVerdict(qs, asOfMs, b, u);
    VerdictIsUnique(rs, qs, asOfMs, b, v, u);
  }

  lemma RaisedPermutes(ss: seq<Subject>, ts: seq<Subject>, rs: seq<Record>, qs: seq<Record>, asOfMs: int, r: Reason)
    requires multiset(ss) == multiset(ts) && multiset(rs) == multiset(qs)
    requires Raised(ss, rs, asOfMs, r)
    ensures Raised(ts, qs, asOfMs, r)
  {
    hide IsVerdict, NoRepeats;
    NoRepeatsPermute(ss, ts);
    if s :| s in ss && IsVerdict(rs, asOfMs, s.binding, Some(r)) {
      assert s in multiset(ts);
      SameVerdict(rs, qs, asOfMs, s.binding, Some(r));
    }
  }

  /** Reasons do not depend on the order of bindings or records. */
  lemma ReasonsPermute(ss: seq<Subject>, ts: seq<Subject>, rs: seq<Record>, qs: seq<Record>, asOfMs: int)
    requires multiset(ss) == multiset(ts) && multiset(rs) == multiset(qs)
    ensures ReasonsOf(ss, rs, asOfMs) == ReasonsOf(ts, qs, asOfMs)
  {
    hide Raised;
    forall r ensures Raised(ss, rs, asOfMs, r) <==> Raised(ts, qs, asOfMs, r) {
      if Raised(ss, rs, asOfMs, r) {
        RaisedPermutes(ss, ts, rs, qs, asOfMs, r);
      }
      if Raised(ts, qs, asOfMs, r) {
        RaisedPermutes(ts, ss, qs, rs, asOfMs, r);
      }
    }
  }

  lemma SubjectsPermute(kind: SubjectKind, a: seq<Binding>, b: seq<Binding>)
    requires multiset(a) == multiset(b)
    ensures multiset(Subjects(kind, a)) == multiset(Subjects(kind, b))
  {
    hide Subjects, Map;
    var f := (b: Binding) => Subject(kind, b);
    assert Subjects(kind, a) == Map(f, a) && Subjects(kind, b) == Map(f, b);
    MapsPermute(f, a, b);
  }

  lemma AllSubjectsPermute(ws: seq<Binding>, fs: seq<Binding>, vs: seq<Binding>, gs: seq<Binding>)
    requires multiset(ws) == multiset(vs) && multiset(fs) == multiset(gs)
    ensures multiset(AllSubjects(ws, fs)) == multiset(AllSubjects(vs, gs))
  {
    hide Subjects;
    SubjectsPermute(WORKFLOW, ws, vs);
    SubjectsPermute(FUNCTION, fs, gs);
  }

  // The dependencies of an outcome

  function PlainOf(d: Resolved): Subject {
    PlainSubject(d.subject)
  }

  /** Up to key order, the survivors are the backed subjects, each once. */
  ghost predicate AreBacked(subjects: seq<Subject>, records: seq<Record>, asOfMs: int, resolved: seq<Resolved>) {
    && Distinct(Map(PlainOf, resolved))
    && (forall d :: d in resolved ==>
          IsBackedSubject(subjects, records, asOfMs, d.subject) && d.registryState == CURRENT)
    && (forall s :: IsBackedSubject(subjects, records, asOfMs, s) ==> PlainSubject(s) in Map(PlainOf, resolved))
  }

  ghost predicate IsBackedSubject(subjects: seq<Subject>, records: seq<Record>, asOfMs: int, s: Subject) {
    s in subjects && IsVerdict(records, asOfMs, s.binding, None)
  }

  lemma {:induction false} SurvivorsAreBacked(subjects: seq<Subject>, records: seq<Record>, asOfMs: int)
    ensures AreBacked(subjects, records, asOfMs, Survivors(subjects, records, asOfMs))
  {
    hide AreBacked, IsVerdict, Repeats;
    if subjects == [] {
      NoneBacked(records, asOfMs);
    } else {
      var n := |subjects| - 1;
      var before, s := subjects[..n], subjects[n];
      assert subjects == before + [s];
      SurvivorsAreBacked(before, records, asOfMs);
      var resolved := Survivors(before, records, asOfMs);
      assert resolved + [] == resolved;
      if !IsVerdict(records, asOfMs, s.binding, None) {
        FaultyIsSkipped(before, s, records, asOfMs, resolved);
      } else if Repeats(before, s) {
        RepeatIsSkipped(before, s, records, asOfMs, resolved);
      } else {
        FirstIsAdded(before, s, records, asOfMs, resolved);
      }
    }
  }

  lemma NoneBacked(records: seq<Record>, asOfMs: int)
    ensures AreBacked([], records, asOfMs, Survivors([], records, asOfMs))
  {
  }

  lemma FaultyIsSkipped(before: seq<Subject>, s: Subject, records: seq<Record>, asOfMs: int, resolved: seq<Resolved>)
    requires AreBacked(before, records, asOfMs, resolved) && !IsVerdict(records, asOfMs, s.binding, None)
    ensures AreBacked(before + [s], records, asOfMs, resolved)
  {
    hide IsVerdict, Map, PlainSubject;
  }

  lemma RepeatIsSkipped(before: seq<Subject>, s: Subject, records: seq<Record>, asOfMs: int, resolved: seq<Resolved>)
    requires AreBacked(before, records, asOfMs, resolved) && Repeats(before, s)
    requires IsVerdict(records, asOfMs, s.binding, None)
    ensures AreBacked(before + [s], records, asOfMs, resolved)
  {
    hide IsVerdict, Map;
    var t :| t in before && PlainSubject(t) == PlainSubject(s);
    VerdictIgnoresKeyOrder(records, asOfMs, s.binding, t.binding, None);
    assert IsBackedSubject(before, records, asOfMs, t);
  }

  lemma FirstIsAdded(before: seq<Subject>, s: Subject, records: seq<Record>, asOfMs: int, resolved: seq<Resolved>)
    requires AreBacked(before, records, asOfMs, resolved) && !Repeats(before, s)
    requires IsVerdict(records, asOfMs, s.binding, None)
    ensures AreBacked(before + [s], records, asOfMs, resolved + [Resolved(s, CURRENT)])
  {
    hide IsVerdict, Map, PlainSubject, Distinct;
    var plain := Map(PlainOf, resolved);
    MapConcat(PlainOf, resolved, [Resolved(s, CURRENT)]);
    assert Map(PlainOf, [Resolved(s, CURRENT)]) == [PlainSubject(s)];
    DistinctSnoc(plain, PlainSubject(s));
    forall i | 0 <= i < |plain| ensures plain[i] != PlainSubject(s) {
      assert resolved[i] in resolved;
    }
  }

  /** They come in input order, and of several copies the first survives, as it is written. */
  lemma {:induction false} SurvivorsInOrder(subjects: seq<Subject>, records: seq<Record>, asOfMs: int)
    returns (places: seq<nat>)
    ensures var resolved := Survivors(subjects, records, asOfMs);
      && |places| == |resolved|
      && (forall i :: 0 <= i < |places| ==>
            && places[i] < |subjects| && resolved[i] == Resolved(subjects[places[i]], CURRENT)
            && !Repeats(subjects[..places[i]], subjects[places[i]]))
      && (forall i, j :: 0 <= i < j < |places| ==> places[i] < places[j])
  {
    hide IsVerdict, Repeats;
    if subjects == [] {
      places := [];
    } else {
      var n := |subjects| - 1;
      var before := subjects[..n];
      places := SurvivorsInOrder(before, records, asOfMs);
      assert subjects == before + [subjects[n]];
      forall i | 0 <= i < |places| ensures subjects[..places[i]] == before[..places[i]] {
      }
      if IsVerdict(records, asOfMs, subjects[n].binding, None) && !Repeats(before, subjects[n]) {
        places := places + [n];
      }
    }
  }

  /** Permuting bindings or records changes neither status nor reasons nor, up to key
      order, the dependencies. What it can do to their digest is the subject of `KeyOrder`. */
  lemma OrderIsIrrelevant(ss: seq<Subject>, ts: seq<Subject>, rs: seq<Record>, qs: seq<Record>, asOfMs: int)
    requires multiset(ss) == multiset(ts) && multiset(rs) == multiset(qs)
    ensures var o, p := OutcomeOf(ss, rs, asOfMs), OutcomeOf(ts, qs, asOfMs);
      && o.status == p.status && o.reasons == p.reasons
      && multiset(Map(PlainOf, o.resolved)) == multiset(Map(PlainOf, p.resolved))
  {
    hide ReasonsOf, Survivors, StatusOf, Ordered, Map, AreBacked;
    ReasonsPermute(ss, ts, rs, qs, asOfMs);
    SurvivorsAreBacked(ss, rs, asOfMs);
    SurvivorsAreBacked(ts, qs, asOfMs);
    BackedAgree(ss, ts, rs, qs, asOfMs, Survivors(ss, rs, asOfMs), Survivors(ts, qs, asOfMs));
  }

  lemma BackedAgree(ss: seq<Subject>, ts: seq<Subject>, rs: seq<Record>, qs: seq<Record>, asOfMs: int,
                    a: seq<Resolved>, b: seq<Resolved>)
    requires multiset(ss) == multiset(ts) && multiset(rs) == multiset(qs)
    requires AreBacked(ss, rs, asOfMs, a) && AreBacked(ts, qs, asOfMs, b)
    ensures multiset(Map(PlainOf, a)) == multiset(Map(PlainOf, b))
  {
    hide AreBacked;
    BackedIncluded(ss, ts, rs, qs, asOfMs, a, b);
    BackedIncluded(ts, ss, qs, rs, asOfMs, b, a);
    BackedDistinct(ss, rs, asOfMs, a);
    BackedDistinct(ts, qs, asOfMs, b);
    DistinctAgreeSet(Map(PlainOf, a), Map(PlainOf, b));
  }

  lemma BackedDistinct(ss: seq<Subject>, rs: seq<Record>, asOfMs: int, a: seq<Resolved>)
    requires AreBacked(ss, rs, asOfMs, a)
    ensures Distinct(Map(PlainOf, a))
  {
  }

  lemma BackedIncluded(ss: seq<Subject>, ts: seq<Subject>, rs: seq<Record>, qs: seq<Record>, asOfMs: int,
                       a: seq<Resolved>, b: seq<Resolved>)
    requires multiset(ss) == multiset(ts) && multiset(rs) == multiset(qs)
    requires AreBacked(ss, rs, asOfMs, a) && AreBacked(ts, qs, asOfMs, b)
    ensures forall x :: x in Map(PlainOf, a) ==> x in Map(PlainOf, b)
  {
    hide IsVerdict, Map, PlainSubject, Distinct;
    forall x | x in Map(PlainOf, a) ensures x in Map(PlainOf, b) {
      var i :| 0 <= i < |a| && Map(PlainOf, a)[i] == x;
      var s := a[i].subject;
      assert a[i] in a && s in multiset(ts);
      SameVerdict(rs, qs, asOfMs, s.binding, None);
      assert IsBackedSubject(ts, qs, asOfMs, s);
    }
  }
}
