/** The very texts that set digests are taken of: which field stands where in a tuple, and
    which tuple stands where in the list. That digests identify sets leaves this open. */
module TupleForms {
  import opened Wrappers
  import opened Texts
  import opened Json
  import opened JsonForms
  import opened CanonicalJson
  import opened SetDigest
  import opened KnowledgeRevalidation
  import KeyOrder

  function ListText(texts: seq<Text>): Text {
    Ascii("[") + Commas(texts) + Ascii("]")
  }

  function TextOf(s: Text): Text {
    Ascii("\"") + Escape(s) + Ascii("\"")
  }

  predicate InOrder(texts: seq<Text>) {
    forall i, j :: 0 <= i < j < |texts| ==> AtMost(texts[i], texts[j])
  }

  lemma ArrayText(items: seq<Value>)
    ensures Print(Array(items)) == ListText(Map(Print, items))
  {
    hide Ascii, Print, Commas, Map;
    PrintForms(Array(items));
    assert Printed(items) == Map(Print, items);
  }

  lemma StringText(s: Text)
    ensures Print(String(s)) == TextOf(s)
  {
    hide Ascii, Print;
    PrintForms(String(s));
  }

  /** A set digest is that of the list of its tuples' texts, in code-unit order. */
  lemma SetText(tuples: seq<Value>) returns (texts: seq<Text>)
    requires forall v :: v in tuples ==> Rigid(v)
    ensures CanonicalTuplesDigest(tuples) == Sha256(ListText(texts))
    ensures multiset(texts) == multiset(Map(Print, tuples)) && InOrder(texts)
  {
    hide Ascii, Print, Canonical, Commas, Rigid, CanonicalTuplesDigest, Map, AtMost, ListText;
    var sorted := SortedTuples(tuples);
    texts := Map(Print, sorted);
    TuplesDigestsCoincide(tuples);
    SortedIsPermuted(tuples);
    forall v | v in sorted ensures Rigid(v) {
      assert v in multiset(sorted) && v in tuples;
    }
    RigidArray(sorted);
    CanonicalOfRigid(Array(sorted));
    ArrayText(sorted);
    MapsPermute(Print, sorted, tuples);
    SortedTexts(tuples);
  }

  lemma SortedIsPermuted(tuples: seq<Value>)
    ensures multiset(SortedTuples(tuples)) == multiset(tuples)
  {
    hide Print, Map, Sort;
    var keyed := Map(WithText, tuples);
    KeyOrder.UnkeyedPermutes(Sort(keyed), keyed);
    assert Unkeyed(keyed) == tuples;
  }

  lemma SortedTexts(tuples: seq<Value>)
    ensures InOrder(Map(Print, SortedTuples(tuples)))
  {
    hide Print, Map, Sort, AtMost;
    var keyed := Map(WithText, tuples);
    var sorted := Sort(keyed);
    SortIsSorted(keyed);
    forall x | x in sorted ensures x.key == Print(x.item) {
      assert x in multiset(sorted) && x in keyed;
    }
    var texts := Map(Print, SortedTuples(tuples));
    forall i, j | 0 <= i < j < |texts| ensures AtMost(texts[i], texts[j]) {
      SortedAt(sorted, i, j);
      assert sorted[i] in sorted && sorted[j] in sorted;
    }
  }

  // References

  /** (kind, id, version, digest). */
  function RefText(r: Ref): Text {
    ListText([TextOf(r.kind), TextOf(r.id), TextOf(r.version), TextOf(r.digest)])
  }

  lemma FourTexts(a: Text, b: Text, c: Text, d: Text)
    ensures Print(Array([String(a), String(b), String(c), String(d)])) ==
            ListText([TextOf(a), TextOf(b), TextOf(c), TextOf(d)])
  {
    hide Ascii, Print, Commas, TextOf, ListText, Map;
    var items := [String(a), String(b), String(c), String(d)];
    ArrayText(items);
    StringText(a);
    StringText(b);
    StringText(c);
    StringText(d);
    assert Map(Print, items) == [TextOf(a), TextOf(b), TextOf(c), TextOf(d)];
  }

  lemma RefSetText(refs: seq<Ref>) returns (texts: seq<Text>)
    ensures CanonicalTuplesDigest(Map(CoreTuple, Map(Core, refs))) == Sha256(ListText(texts))
    ensures multiset(texts) == multiset(Map(RefText, refs)) && InOrder(texts)
  {
    hide Map, Print, Rigid, CanonicalTuplesDigest, ListText, TextOf, RefText, InOrder;
    var tuples := Map(CoreTuple, Map(Core, refs));
    CoreTuplesAreRigid(Map(Core, refs));
    texts := SetText(tuples);
    forall i | 0 <= i < |refs| ensures Map(Print, tuples)[i] == Map(RefText, refs)[i] {
      RefTupleText(refs[i]);
    }
    assert Map(Print, tuples) == Map(RefText, refs);
  }

  lemma RefTupleText(r: Ref)
    ensures Print(CoreTuple(Core(r))) == RefText(r)
  {
    hide Print, ListText, TextOf;
    FourTexts(r.kind, r.id, r.version, r.digest);
  }

  // Knowledge dependencies of governed assets

  function NumberText(n: int): Text {
    Print(Number(n))
  }

  /** All nine fields, the lineage as a list of its own. */
  function KnowledgeText(k: Knowledge): Text {
    ListText([TextOf(k.recordId), TextOf(k.schemaVersion), TextOf(k.edition),
              TextOf(k.contentDigest), TextOf(k.applicabilityDigest), TextOf(k.evidenceDigest),
              NumberText(k.validFromMs), NumberText(k.validUntilMs), ListText(Map(TextOf, k.supersessionLineage))])
  }

  lemma LineageText(lineage: seq<Text>)
    ensures Print(Array(Map(AsString, lineage))) == ListText(Map(TextOf, lineage))
  {
    hide Ascii, Print, Commas, TextOf, ListText, Map;
    ArrayText(Map(AsString, lineage));
    forall i | 0 <= i < |lineage| ensures Map(Print, Map(AsString, lineage))[i] == Map(TextOf, lineage)[i] {
      StringText(lineage[i]);
    }
    assert Map(Print, Map(AsString, lineage)) == Map(TextOf, lineage);
  }

  lemma KnowledgeTupleText(k: Knowledge)
    ensures Print(KnowledgeTuple(k)) == KnowledgeText(k)
  {
    hide Ascii, Print, Commas, TextOf, ListText, Map;
    var items := KnowledgeTuple(k).items;
    ArrayText(items);
    StringText(k.recordId);
    StringText(k.schemaVersion);
    StringText(k.edition);
    StringText(k.contentDigest);
    StringText(k.applicabilityDigest);
    StringText(k.evidenceDigest);
    LineageText(k.supersessionLineage);
    assert Map(Print, items) ==
      [TextOf(k.recordId), TextOf(k.schemaVersion), TextOf(k.edition),
       TextOf(k.contentDigest), TextOf(k.applicabilityDigest), TextOf(k.evidenceDigest),
       NumberText(k.validFromMs), NumberText(k.validUntilMs), ListText(Map(TextOf, k.supersessionLineage))];
  }

  lemma KnowledgeSetText(dependencies: seq<Knowledge>) returns (texts: seq<Text>)
    ensures CanonicalTuplesDigest(Map(KnowledgeTuple, dependencies)) == Sha256(ListText(texts))
    ensures multiset(texts) == multiset(Map(KnowledgeText, dependencies)) && InOrder(texts)
  {
    hide Map, Print, Rigid, CanonicalTuplesDigest, ListText, KnowledgeText, KnowledgeTuple, InOrder;
    var tuples := Map(KnowledgeTuple, dependencies);
    KnowledgeTuplesAreRigid(dependencies);
    texts := SetText(tuples);
    forall i | 0 <= i < |dependencies| ensures Map(Print, tuples)[i] == Map(KnowledgeText, dependencies)[i] {
      KnowledgeTupleText(dependencies[i]);
    }
    assert Map(Print, tuples) == Map(KnowledgeText, dependencies);
  }

  // Resolved Knowledge bindings

  function WindowText(f: Freshness): Text {
    Ascii("{") + Commas([Ascii("\"validFromMs\":") + NumberText(f.validFromMs),
                         Ascii("\"validUntilMs\":") + NumberText(f.validUntilMs)]) + Ascii("}")
  }

  /** (kind, knowledgeId, version, digest, freshness, scope), the window with sorted keys. */
  function SubjectText(s: Subject): Text {
    ListText([TextOf(if s.kind == WORKFLOW then Ascii("WORKFLOW") else Ascii("FUNCTION")),
              TextOf(s.binding.knowledgeId), TextOf(s.binding.version), TextOf(s.binding.digest),
              WindowText(s.binding.freshness), TextOf(s.binding.scope)])
  }

  lemma KeyText(key: string, quoted: string, n: int)
    requires |quoted| == |key| + 3 && quoted[0] == '"' && quoted[|key| + 1..] == "\":"
    requires quoted[1..|key| + 1] == key && KeyOrder.Letters(Ascii(key))
    ensures PrintMember(Member(Ascii(key), Number(n))) == Ascii(quoted) + NumberText(n)
  {
    hide Ascii, Print, KeyOrder.Letters;
    MemberForm(Member(Ascii(key), Number(n)));
    KeyOrder.EscapeLetters(Ascii(key));
    forall i | 0 <= i < |quoted| ensures (Ascii("\"") + Ascii(key) + Ascii("\":"))[i] == Ascii(quoted)[i] {
      AsciiAt(quoted, i);
      if i == 0 {
        AsciiAt("\"", 0);
      } else if i <= |key| {
        AsciiAt(key, i - 1);
        assert quoted[1..|key| + 1][i - 1] == quoted[i];
      } else {
        AsciiAt("\":", i - |key| - 1);
        assert quoted[|key| + 1..][i - |key| - 1] == quoted[i];
      }
    }
    assert Ascii("\"") + Ascii(key) + Ascii("\":") == Ascii(quoted);
  }

  lemma FromText(f: Freshness)
    ensures PrintMember(FromMember(f)) == Ascii("\"validFromMs\":") + NumberText(f.validFromMs)
  {
    hide Ascii, Print, PrintMember;
    KeyOrder.WindowKeys();
    KeyText("validFromMs", "\"validFromMs\":", f.validFromMs);
  }

  lemma UntilText(f: Freshness)
    ensures PrintMember(UntilMember(f)) == Ascii("\"validUntilMs\":") + NumberText(f.validUntilMs)
  {
    hide Ascii, Print, PrintMember;
    KeyOrder.WindowKeys();
    KeyText("validUntilMs", "\"validUntilMs\":", f.validUntilMs);
  }

  lemma TwoMembers(m: Member, n: Member)
    ensures Print(Object([m, n])) == Ascii("{") + Commas([PrintMember(m), PrintMember(n)]) + Ascii("}")
  {
    hide Ascii, Print, Commas, PrintMember, Escape;
    PrintForms(Object([m, n]));
    MemberForm(m);
    MemberForm(n);
    assert PrintedMembers([m, n]) == [PrintMember(m), PrintMember(n)];
  }

  lemma WindowIsText(f: Freshness)
    requires !f.untilFirst
    ensures Print(FreshnessValue(f)) == WindowText(f)
  {
    hide Ascii, Print, Commas, PrintMember, FromMember, UntilMember, NumberText;
    FromText(f);
    UntilText(f);
    TwoMembers(FromMember(f), UntilMember(f));
  }

  lemma SubjectIsText(s: Subject)
    requires !s.binding.freshness.untilFirst
    ensures Print(SubjectTuple(s)) == SubjectText(s)
  {
    hide Ascii, Print, Commas, TextOf, ListText, Map, WindowText, FreshnessValue;
    var items := SubjectTuple(s).items;
    ArrayText(items);
    StringText(KindText(s.kind));
    StringText(s.binding.knowledgeId);
    StringText(s.binding.version);
    StringText(s.binding.digest);
    WindowIsText(s.binding.freshness);
    StringText(s.binding.scope);
    assert Map(Print, items) ==
      [TextOf(KindText(s.kind)), TextOf(s.binding.knowledgeId), TextOf(s.binding.version), TextOf(s.binding.digest),
       WindowText(s.binding.freshness), TextOf(s.binding.scope)];
  }

  /** The dependency set digest is that of the list of the dependencies' texts, in the order
      in which sorting by `JSON.stringify` brings them. */
  lemma DependencySetText(resolved: seq<Resolved>)
    ensures TuplesDigest(Map(DependencyTuple, resolved)) ==
            Sha256(ListText(Map(SubjectText, KeyOrder.DigestOrder(resolved))))
  {
    hide Map, Print, Canonical, SortedTuples, KeyOrder.DigestOrder, SubjectTuple, SubjectText, ListText, Normal;
    var tuples := Map(DependencyTuple, resolved);
    var subjects := KeyOrder.DigestOrder(resolved);
    KeyOrder.NormalSorted(resolved);
    KeyOrder.NormalMapped(SortedTuples(tuples));
    CanonicalIsPrint(Array(SortedTuples(tuples)));
    ArrayText(Map(SubjectTuple, subjects));
    PlainInOrder(resolved);
    forall i | 0 <= i < |subjects| ensures Map(Print, Map(SubjectTuple, subjects))[i] == Map(SubjectText, subjects)[i] {
      SubjectIsText(subjects[i]);
    }
    assert Map(Print, Map(SubjectTuple, subjects)) == Map(SubjectText, subjects);
  }

  lemma PlainInOrder(resolved: seq<Resolved>)
    ensures forall s :: s in KeyOrder.DigestOrder(resolved) ==> !s.binding.freshness.untilFirst
  {
    hide Print, Sort, Map, Unkeyed, KeyOrder.TupleText;
    var ranked := Map(KeyOrder.Ranked, resolved);
    var sorted := Sort(ranked);
    forall i | 0 <= i < |sorted| ensures !sorted[i].item.binding.freshness.untilFirst {
      assert sorted[i] in multiset(sorted) && sorted[i] in ranked;
      var j :| 0 <= j < |ranked| && ranked[j] == sorted[i];
      RankedIsPlain(resolved[j]);
    }
    forall s | s in KeyOrder.DigestOrder(resolved) ensures !s.binding.freshness.untilFirst {
      var i :| 0 <= i < |sorted| && Unkeyed(sorted)[i] == s;
    }
  }

  lemma RankedIsPlain(d: Resolved)
    ensures !KeyOrder.Ranked(d).item.binding.freshness.untilFirst
  {
    hide KeyOrder.TupleText;
  }
}
