/** Digests of set-like arrays: each entry becomes a tuple, the tuples are sorted by their
    canonical text, and the sorted array is digested. */
module SetDigest {
  import opened Texts
  import opened Json
  import opened CanonicalJson

  // SHA-256 as a free constructor: equal digests come from equal contents only.
  datatype Digest = Sha256(content: Text)

  datatype Ref = Ref(kind: Text, id: Text, schemaVersion: Text, version: Text, digest: Text)

  // The part of a reference that a set digest sees: `schemaVersion` is not in it.
  datatype RefCore = RefCore(kind: Text, id: Text, version: Text, digest: Text)

  datatype Knowledge = Knowledge(
    recordId: Text, schemaVersion: Text, edition: Text,
    contentDigest: Text, applicabilityDigest: Text, evidenceDigest: Text,
    validFromMs: int, validUntilMs: int, supersessionLineage: seq<Text>)

  function Map<T, U>(f: T -> U, s: seq<T>): (r: seq<U>)
    ensures |r| == |s| && forall i :: 0 <= i < |s| ==> r[i] == f(s[i])
  {
    if s == [] then [] else [f(s[0])] + Map(f, s[1..])
  }

  ghost predicate Injective<T(!new), U(!new)>(f: T -> U) {
    forall x, y :: f(x) == f(y) ==> x == y
  }

  lemma {:induction false} MapCounts<T(!new), U(!new)>(f: T -> U, s: seq<T>, x: T)
    requires Injective(f)
    ensures multiset(Map(f, s))[f(x)] == multiset(s)[x]
  {
    if s != [] {
      MapCounts(f, s[1..], x);
      assert s == [s[0]] + s[1..];
      assert f(s[0]) == f(x) <==> s[0] == x;
    }
  }

  lemma MapConcat<T, U>(f: T -> U, a: seq<T>, b: seq<T>)
    ensures Map(f, a + b) == Map(f, a) + Map(f, b)
  {
    hide Map;
  }

  lemma MiddleOut<U>(x: seq<U>, u: U, y: seq<U>)
    ensures multiset(x + ([u] + y)) == multiset(x + y) + multiset{u}
  {
  }

  lemma MapMiddle<T, U>(f: T -> U, l: seq<T>, t: T, r: seq<T>)
    ensures multiset(Map(f, l + ([t] + r))) == multiset(Map(f, l + r)) + multiset{f(t)}
  {
    hide Map;
    MapConcat(f, l, r);
    MapConcat(f, l, [t] + r);
    MapConcat(f, [t], r);
    assert Map(f, [t]) == [f(t)];
    MiddleOut(Map(f, l), f(t), Map(f, r));
  }

  lemma SplitAt<T>(b: seq<T>, j: nat)
    requires j < |b|
    ensures b == b[..j] + ([b[j]] + b[j + 1..])
  {
  }

  lemma MapWithoutOne<T, U>(f: T -> U, b: seq<T>, j: nat)
    requires j < |b|
    ensures multiset(Map(f, b)) == multiset(Map(f, b[..j] + b[j + 1..])) + multiset{f(b[j])}
  {
    hide Map;
    SplitAt(b, j);
    MapMiddle(f, b[..j], b[j], b[j + 1..]);
  }

  lemma MapsPermuteStep<T, U>(f: T -> U, a: seq<T>, b: seq<T>, j: nat)
    requires a != [] && j < |b| && b[j] == a[0]
    requires multiset(Map(f, a[1..])) == multiset(Map(f, b[..j] + b[j + 1..]))
    ensures multiset(Map(f, a)) == multiset(Map(f, b))
  {
    hide Map;
    MapWithoutOne(f, a, 0);
    MapWithoutOne(f, b, j);
    assert a[..0] + a[1..] == a[1..];
  }

  lemma {:induction false} MapsPermute<T(!new), U(!new)>(f: T -> U, a: seq<T>, b: seq<T>)
    requires multiset(a) == multiset(b)
    ensures multiset(Map(f, a)) == multiset(Map(f, b))
  {
    hide Map;
    if a == [] {
      assert |multiset(b)| == 0;
    } else {
      var j := PlaceIn(a, b);
      MapsPermute(f, a[1..], b[..j] + b[j + 1..]);
      MapsPermuteStep(f, a, b, j);
    }
  }

  lemma PlaceIn<T(!new)>(a: seq<T>, b: seq<T>) returns (j: nat)
    requires a != [] && multiset(a) == multiset(b)
    ensures j < |b| && b[j] == a[0] && multiset(a[1..]) == multiset(b[..j] + b[j + 1..])
  {
    assert a[0] in multiset(b);
    j :| 0 <= j < |b| && b[j] == a[0];
    WithoutOne(b, j);
    assert a == [a[0]] + a[1..];
  }

  lemma MapsArePermutations<T(!new), U(!new)>(f: T -> U, a: seq<T>, b: seq<T>)
    requires Injective(f)
    ensures multiset(Map(f, a)) == multiset(Map(f, b)) <==> multiset(a) == multiset(b)
  {
    hide Map, Injective;
    if multiset(Map(f, a)) == multiset(Map(f, b)) {
      forall t ensures multiset(a)[t] == multiset(b)[t] {
        MapCounts(f, a, t);
        MapCounts(f, b, t);
      }
    }
    if multiset(a) == multiset(b) {
      MapsPermute(f, a, b);
    }
  }

  // Rigid values have one text only: arrays of scalars do, and so do objects whose
  // members already stand in key order.
  predicate Rigid(v: Value) {
    Normal(v) == v
  }

  lemma CanonicalOfRigid(v: Value)
    requires Rigid(v)
    ensures Canonical(v) == Print(v)
  {
    CanonicalIsPrint(v);
  }

  lemma RigidArray(items: seq<Value>)
    requires forall v :: v in items ==> Rigid(v)
    ensures Rigid(Array(items))
  {
    hide NormalItems;
    var r := NormalItems(items);
    forall i | 0 <= i < |items| ensures r[i] == items[i] {
      assert items[i] in items;
    }
    assert r == items;
  }

  function WithText(v: Value): Keyed<Value> {
    Keyed(Print(v), v)
  }

  function WithCanonical(v: Value): Keyed<Value> {
    Keyed(Canonical(v), v)
  }

  function SortedTuples(tuples: seq<Value>): seq<Value> {
    Unkeyed(Sort(Map(WithText, tuples)))
  }

  /** Sorted by `JSON.stringify`, digested as canonical JSON. */
  function TuplesDigest(tuples: seq<Value>): Digest {
    Sha256(Canonical(Array(SortedTuples(tuples))))
  }

  /** Sorted by canonical JSON, digested as canonical JSON. */
  function CanonicalTuplesDigest(tuples: seq<Value>): Digest {
    Sha256(Canonical(Array(Unkeyed(Sort(Map(WithCanonical, tuples))))))
  }

  lemma TuplesDigestsCoincide(tuples: seq<Value>)
    requires forall v :: v in tuples ==> Rigid(v)
    ensures CanonicalTuplesDigest(tuples) == TuplesDigest(tuples)
  {
    hide Canonical, Print, Sort, Rigid;
    var x, y := Map(WithCanonical, tuples), Map(WithText, tuples);
    forall i | 0 <= i < |tuples| ensures x[i] == y[i] {
      assert tuples[i] in tuples;
      CanonicalOfRigid(tuples[i]);
    }
    assert x == y;
  }

  lemma SortedTuplesElements(tuples: seq<Value>)
    ensures forall k :: k in Sort(Map(WithText, tuples)) ==> k.key == Print(k.item) && k.item in tuples
    ensures forall v :: v in SortedTuples(tuples) ==> v in tuples
  {
    var keyed := Map(WithText, tuples);
    forall k | k in Sort(keyed) ensures k.key == Print(k.item) && k.item in tuples {
      assert k in multiset(Sort(keyed)) && k in keyed;
      var i :| 0 <= i < |keyed| && keyed[i] == k;
      assert k == WithText(tuples[i]);
    }
    forall v | v in SortedTuples(tuples) ensures v in tuples {
      var i :| 0 <= i < |SortedTuples(tuples)| && SortedTuples(tuples)[i] == v;
      assert Sort(keyed)[i] in Sort(keyed);
    }
  }

  lemma UnkeyedTuples(a: seq<Value>, b: seq<Value>)
    requires SortedTuples(a) == SortedTuples(b)
    ensures Sort(Map(WithText, a)) == Sort(Map(WithText, b))
  {
    hide Sort, Map, Print;
    var x, y := Sort(Map(WithText, a)), Sort(Map(WithText, b));
    SortedTuplesElements(a);
    SortedTuplesElements(b);
    assert |Unkeyed(x)| == |x| && |Unkeyed(y)| == |y|;
    forall i | 0 <= i < |x| ensures x[i] == y[i] {
      assert x[i] in x && y[i] in y;
      assert Unkeyed(x)[i] == x[i].item && Unkeyed(y)[i] == y[i].item;
    }
  }

  /** The digest of a set of rigid tuples identifies their multiset, and nothing else. */
  lemma TuplesDigestAgrees(a: seq<Value>, b: seq<Value>)
    requires forall v :: v in a ==> Rigid(v)
    requires forall v :: v in b ==> Rigid(v)
    ensures TuplesDigest(a) == TuplesDigest(b) <==> multiset(a) == multiset(b)
  {
    hide Canonical, Sort, Map, Print, Rigid, SortedTuples;
    TextIsInjective();
    MapsArePermutations(WithText, a, b);
    var x, y := Map(WithText, a), Map(WithText, b);
    TextsIdentify(a);
    SortsAgree(x, y);
    if TuplesDigest(a) == TuplesDigest(b) {
      SortedTuplesElements(a);
      SortedTuplesElements(b);
      RigidArray(SortedTuples(a));
      RigidArray(SortedTuples(b));
      CanonicalOfRigid(Array(SortedTuples(a)));
      CanonicalOfRigid(Array(SortedTuples(b)));
      PrintIsInjective(Array(SortedTuples(a)), Array(SortedTuples(b)));
      UnkeyedTuples(a, b);
    }
    if Sort(x) == Sort(y) {
      SortedTuplesOf(a, b);
    }
  }

  lemma SortedTuplesOf(a: seq<Value>, b: seq<Value>)
    requires Sort(Map(WithText, a)) == Sort(Map(WithText, b))
    ensures SortedTuples(a) == SortedTuples(b)
  {
  }

  /** Whatever the tuples, their order leaves no trace. */
  lemma TuplesDigestPermutes(a: seq<Value>, b: seq<Value>)
    requires multiset(a) == multiset(b)
    ensures TuplesDigest(a) == TuplesDigest(b)
  {
    hide Canonical, Sort, Map, Print, SortedTuples;
    MapsPermute(WithText, a, b);
    TextsIdentify(a);
    SortsAgree(Map(WithText, a), Map(WithText, b));
    SortedTuplesOf(a, b);
  }

  lemma TextIsInjective()
    ensures Injective(WithText)
  {
  }

  lemma TextsIdentify(tuples: seq<Value>)
    ensures KeysIdentify(Map(WithText, tuples))
  {
    hide Print;
    var keyed := Map(WithText, tuples);
    forall k, l | k in keyed && l in keyed && k.key == l.key ensures k == l {
      var i :| 0 <= i < |keyed| && keyed[i] == k;
      var j :| 0 <= j < |keyed| && keyed[j] == l;
      PrintIsInjective(tuples[i], tuples[j]);
    }
  }

  // References

  function Core(r: Ref): RefCore {
    RefCore(r.kind, r.id, r.version, r.digest)
  }

  function CoreTuple(c: RefCore): Value {
    Array([String(c.kind), String(c.id), String(c.version), String(c.digest)])
  }

  lemma StringsAreRigid(ts: seq<Text>)
    ensures Rigid(Array(Map(AsString, ts)))
  {
    forall v | v in Map(AsString, ts) ensures Rigid(v) {
      var i :| 0 <= i < |ts| && Map(AsString, ts)[i] == v;
      assert v == String(ts[i]);
    }
    RigidArray(Map(AsString, ts));
  }

  function AsString(t: Text): Value {
    String(t)
  }

  method RefSetDigest(refs: seq<Ref>) returns (d: Digest)
    ensures d == CanonicalTuplesDigest(Map(CoreTuple, Map(Core, refs)))
  {
    hide CanonicalTuplesDigest, CoreTuple, Core, Map;
    var tuples: seq<Value> := [];
    for i := 0 to |refs|
      invariant tuples == Map(CoreTuple, Map(Core, refs))[..i]
    {
      tuples := tuples + [CoreTuple(Core(refs[i]))];
    }
    assert tuples == Map(CoreTuple, Map(Core, refs));
    d := CanonicalTuplesDigest(tuples);
  }

  lemma CoreTuplesAreRigid(cores: seq<RefCore>)
    ensures Injective(CoreTuple)
    ensures forall v :: v in Map(CoreTuple, cores) ==> Rigid(v)
  {
    forall c, e | CoreTuple(c) == CoreTuple(e) ensures c == e {
      assert CoreTuple(c).items[0] == CoreTuple(e).items[0];
      assert CoreTuple(c).items[1] == CoreTuple(e).items[1];
      assert CoreTuple(c).items[2] == CoreTuple(e).items[2];
      assert CoreTuple(c).items[3] == CoreTuple(e).items[3];
    }
    forall v | v in Map(CoreTuple, cores) ensures Rigid(v) {
      var i :| 0 <= i < |cores| && Map(CoreTuple, cores)[i] == v;
      CoreIsRigid(cores[i]);
    }
  }

  lemma CoreIsRigid(c: RefCore)
    ensures Rigid(CoreTuple(c))
  {
    RigidArray(CoreTuple(c).items);
  }

  /** Equal set digests mean permutations of the same (kind, id, version, digest) tuples. */
  lemma RefSetDigestsAgree(a: seq<Ref>, b: seq<Ref>)
    ensures CanonicalTuplesDigest(Map(CoreTuple, Map(Core, a))) == CanonicalTuplesDigest(Map(CoreTuple, Map(Core, b)))
       <==> multiset(Map(Core, a)) == multiset(Map(Core, b))
  {
    hide CanonicalTuplesDigest, TuplesDigest, Rigid, Injective, Map;
    var x, y := Map(Core, a), Map(Core, b);
    CoreTuplesAreRigid(x);
    CoreTuplesAreRigid(y);
    TuplesDigestsCoincide(Map(CoreTuple, x));
    TuplesDigestsCoincide(Map(CoreTuple, y));
    TuplesDigestAgrees(Map(CoreTuple, x), Map(CoreTuple, y));
    MapsArePermutations(CoreTuple, x, y);
  }

  /** The check on a reference array: every reference exact, and no two with the same
      core. Only exact references enter the comparison. `exact` stands for the field
      checks of a single reference. */
  method ValidateRefArray(refs: seq<Ref>, exact: Ref -> bool) returns (ok: bool, duplicate: bool)
    ensures ok <==> (forall i :: 0 <= i < |refs| ==> exact(refs[i])) && Distinct(Map(Core, refs))
    ensures duplicate <==>
            exists i, j :: 0 <= i < j < |refs| && exact(refs[i]) && exact(refs[j]) && Core(refs[i]) == Core(refs[j])
  {
    hide Canonical, CoreTuple, Core, Map;
    ok, duplicate := true, false;
    var seen: set<Text> := {};
    for i := 0 to |refs|
      invariant seen == (set j | 0 <= j < i && exact(refs[j]) :: Canonical(CoreTuple(Core(refs[j]))))
      invariant duplicate <==>
                exists j, k :: 0 <= j < k < i && exact(refs[j]) && exact(refs[k]) && Core(refs[j]) == Core(refs[k])
      invariant ok <==> !duplicate && forall j :: 0 <= j < i ==> exact(refs[j])
    {
      if exact(refs[i]) {
        var key := Canonical(CoreTuple(Core(refs[i])));
        forall j | 0 <= j < i ensures Canonical(CoreTuple(Core(refs[j]))) == key <==> Core(refs[j]) == Core(refs[i]) {
          CoreTextIsInjective(Core(refs[j]), Core(refs[i]));
        }
        if key in seen {
          ok, duplicate := false, true;
        }
        seen := seen + {key};
      } else {
        ok := false;
      }
    }
  }

  lemma CoreTextIsInjective(c: RefCore, e: RefCore)
    ensures Canonical(CoreTuple(c)) == Canonical(CoreTuple(e)) <==> c == e
  {
    hide Canonical, Rigid, Print;
    CoreIsRigid(c);
    CoreIsRigid(e);
    CanonicalOfRigid(CoreTuple(c));
    CanonicalOfRigid(CoreTuple(e));
    CoreTuplesAreRigid([c, e]);
    if Canonical(CoreTuple(c)) == Canonical(CoreTuple(e)) {
      PrintIsInjective(CoreTuple(c), CoreTuple(e));
    }
  }

  /** For arrays that pass the check, the digest identifies the set. */
  lemma ValidRefSetsAgree(a: seq<Ref>, b: seq<Ref>)
    requires Distinct(Map(Core, a)) && Distinct(Map(Core, b))
    ensures CanonicalTuplesDigest(Map(CoreTuple, Map(Core, a))) == CanonicalTuplesDigest(Map(CoreTuple, Map(Core, b)))
       <==> forall c :: c in Map(Core, a) <==> c in Map(Core, b)
  {
    hide CanonicalTuplesDigest, Map, Core;
    RefSetDigestsAgree(a, b);
    SameElements(Map(Core, a), Map(Core, b));
  }

  lemma SameElements<T(!new)>(x: seq<T>, y: seq<T>)
    requires Distinct(x) && Distinct(y)
    ensures multiset(x) == multiset(y) <==> forall c :: c in x <==> c in y
  {
    if multiset(x) == multiset(y) {
      assert forall c :: c in x <==> c in multiset(x);
      assert forall c :: c in y <==> c in multiset(y);
    } else if forall c :: c in x <==> c in y {
      DistinctAgreeSet(x, y);
    }
  }

  lemma DistinctAgreeSet<T(!new)>(x: seq<T>, y: seq<T>)
    requires Distinct(x) && Distinct(y) && forall c :: c in x <==> c in y
    ensures multiset(x) == multiset(y)
  {
    CountsAtMostOne(x);
    CountsAtMostOne(y);
    forall c ensures multiset(x)[c] == multiset(y)[c] {
      assert c in x <==> c in multiset(x);
      assert c in y <==> c in multiset(y);
    }
  }

  lemma {:induction false} CountsAtMostOne<T(!new)>(x: seq<T>)
    requires Distinct(x)
    ensures forall c :: multiset(x)[c] <= 1
  {
    if x != [] {
      CountsAtMostOne(x[1..]);
      assert x == [x[0]] + x[1..];
      assert x[0] !in x[1..];
    }
  }

  // Knowledge dependencies

  function KnowledgeTuple(k: Knowledge): Value {
    Array([String(k.recordId), String(k.schemaVersion), String(k.edition),
           String(k.contentDigest), String(k.applicabilityDigest), String(k.evidenceDigest),
           Number(k.validFromMs), Number(k.validUntilMs), Array(Map(AsString, k.supersessionLineage))])
  }

  method KnowledgeSetDigest(dependencies: seq<Knowledge>) returns (d: Digest)
    ensures d == CanonicalTuplesDigest(Map(KnowledgeTuple, dependencies))
  {
    hide CanonicalTuplesDigest, KnowledgeTuple, Map;
    var tuples: seq<Value> := [];
    for i := 0 to |dependencies|
      invariant tuples == Map(KnowledgeTuple, dependencies)[..i]
    {
      tuples := tuples + [KnowledgeTuple(dependencies[i])];
    }
    assert tuples == Map(KnowledgeTuple, dependencies);
    d := CanonicalTuplesDigest(tuples);
  }

  lemma KnowledgeIsRigid(k: Knowledge)
    ensures Rigid(KnowledgeTuple(k))
  {
    hide Normal;
    StringsAreRigid(k.supersessionLineage);
    ScalarsAreRigid();
    RigidArray(KnowledgeTuple(k).items);
  }

  lemma ScalarsAreRigid()
    ensures forall v: Value :: !v.Array? && !v.Object? ==> Rigid(v)
  {
  }

  lemma LineageIsInjective(a: seq<Text>, b: seq<Text>)
    requires Map(AsString, a) == Map(AsString, b)
    ensures a == b
  {
    assert |a| == |b|;
    forall i | 0 <= i < |a| ensures a[i] == b[i] {
      assert Map(AsString, a)[i] == String(a[i]) && Map(AsString, b)[i] == String(b[i]);
    }
  }

  lemma KnowledgeTupleIsInjective(k: Knowledge, l: Knowledge)
    requires KnowledgeTuple(k) == KnowledgeTuple(l)
    ensures k == l
  {
    hide Map;
    var x, y := KnowledgeTuple(k).items, KnowledgeTuple(l).items;
    assert x[0] == y[0] && x[1] == y[1] && x[2] == y[2] && x[3] == y[3] && x[4] == y[4];
    assert x[5] == y[5] && x[6] == y[6] && x[7] == y[7] && x[8] == y[8];
    LineageIsInjective(k.supersessionLineage, l.supersessionLineage);
  }

  /** Equal set digests mean the same dependencies, on all nine fields, in some order. */
  lemma KnowledgeSetDigestsAgree(a: seq<Knowledge>, b: seq<Knowledge>)
    ensures CanonicalTuplesDigest(Map(KnowledgeTuple, a)) == CanonicalTuplesDigest(Map(KnowledgeTuple, b))
       <==> multiset(a) == multiset(b)
  {
    hide CanonicalTuplesDigest, TuplesDigest, Rigid, Map, KnowledgeTuple;
    KnowledgeTuplesAreRigid(a);
    KnowledgeTuplesAreRigid(b);
    forall k, l | KnowledgeTuple(k) == KnowledgeTuple(l) ensures k == l {
      KnowledgeTupleIsInjective(k, l);
    }
    TuplesDigestsCoincide(Map(KnowledgeTuple, a));
    TuplesDigestsCoincide(Map(KnowledgeTuple, b));
    TuplesDigestAgrees(Map(KnowledgeTuple, a), Map(KnowledgeTuple, b));
    MapsArePermutations(KnowledgeTuple, a, b);
  }

  lemma KnowledgeTuplesAreRigid(a: seq<Knowledge>)
    ensures forall v :: v in Map(KnowledgeTuple, a) ==> Rigid(v)
  {
    hide Rigid, KnowledgeTuple;
    forall v | v in Map(KnowledgeTuple, a) ensures Rigid(v) {
      var i :| 0 <= i < |a| && Map(KnowledgeTuple, a)[i] == v;
      KnowledgeIsRigid(a[i]);
    }
  }
}
