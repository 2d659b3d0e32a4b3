/** What the order of keys inside a freshness window can do to the dependency set digest.
    The tuples are sorted by `JSON.stringify`, which keeps the order of keys, and digested
    as canonical JSON, which does not. */
module KeyOrder {
  import opened Wrappers
  import opened Texts
  import opened Json
  import opened CanonicalJson
  import opened SetDigest
  import opened KnowledgeRevalidation

  // The order of the tuples

  function TupleText(s: Subject): Text {
    Print(SubjectTuple(s))
  }

  predicate Before(s: Subject, t: Subject) {
    AtMost(TupleText(s), TupleText(t))
  }

  function Ranked(d: Resolved): Keyed<Subject> {
    Keyed(TupleText(d.subject), PlainOf(d))
  }

  /** The dependencies up to key order, in the order in which their tuples are digested. */
  function DigestOrder(resolved: seq<Resolved>): seq<Subject> {
    Unkeyed(Sort(Map(Ranked, resolved)))
  }

  lemma UnkeyedRelabel<T, U>(f: T -> U, s: seq<Keyed<T>>)
    ensures Unkeyed(Relabel(f, s)) == Map(f, Unkeyed(s))
  {
    hide Unkeyed, Relabel, Map;
  }

  lemma PlainWindowIsNormal(f: Freshness)
    ensures Normal(FreshnessValue(f)) == FreshnessValue(f.(untilFirst := false))
  {
    hide AtMost, Ascii, NormalEntries, Sort, Unkeyed;
    KeysInOrder();
    NumberMember(FromMember(f));
    NumberMember(UntilMember(f));
    var ms := FreshnessValue(f).members;
    var a, b := Keyed(FromMember(f).key, FromMember(f)), Keyed(UntilMember(f).key, UntilMember(f));
    TwoEntries(ms);
    SortTwo(if f.untilFirst then b else a, if f.untilFirst then a else b);
    assert Unkeyed([a, b]) == [FromMember(f), UntilMember(f)];
  }

  lemma TwoEntries(ms: seq<Member>)
    requires |ms| == 2
    ensures NormalEntries(ms) ==
            [Keyed(ms[0].key, NormalMember(ms[0])), Keyed(ms[1].key, NormalMember(ms[1]))]
  {
    hide NormalEntries, NormalMember;
  }

  lemma SortTwo<T>(x: Keyed<T>, y: Keyed<T>)
    ensures Sort([x, y]) == if AtMost(x.key, y.key) then [x, y] else [y, x]
  {
    hide AtMost;
    assert [x, y][1..] == [y] && [y][1..] == [];
    assert Sort([y]) == [y];
  }

  lemma NumberMember(m: Member)
    requires m.value.Number?
    ensures NormalMember(m) == m
  {
  }

  lemma NormalTuple(s: Subject)
    ensures Normal(SubjectTuple(s)) == SubjectTuple(PlainSubject(s))
  {
    hide FreshnessValue, KindText, Normal, NormalItems;
    PlainWindowIsNormal(s.binding.freshness);
    var items := SubjectTuple(s).items;
    forall i | 0 <= i < 6 && i != 4 ensures Normal(items[i]) == items[i] {
      NormalString(items[i]);
    }
    NormalArray(items);
    assert NormalItems(items) == SubjectTuple(PlainSubject(s)).items;
  }

  lemma NormalString(v: Value)
    requires v.String?
    ensures Normal(v) == v
  {
  }

  /** Normalising the sorted tuples gives the tuples of the digest order. */
  lemma NormalSorted(resolved: seq<Resolved>)
    ensures Map(Normal, SortedTuples(Map(DependencyTuple, resolved))) == Map(SubjectTuple, DigestOrder(resolved))
  {
    hide Normal, SubjectTuple, Sort, Map, Relabel, Unkeyed;
    var keyed := Map(WithText, Map(DependencyTuple, resolved));
    var ranked := Map(Ranked, resolved);
    forall i | 0 <= i < |resolved| ensures Relabel(Normal, keyed)[i] == Relabel(SubjectTuple, ranked)[i] {
      NormalTuple(resolved[i].subject);
    }
    assert Relabel(Normal, keyed) == Relabel(SubjectTuple, ranked);
    RelabelSort(Normal, keyed);
    RelabelSort(SubjectTuple, ranked);
    UnkeyedRelabel(Normal, Sort(keyed));
    UnkeyedRelabel(SubjectTuple, Sort(ranked));
  }

  lemma SubjectTupleIsInjective(s: Subject, t: Subject)
    requires SubjectTuple(s) == SubjectTuple(t)
    ensures s == t
  {
    hide KindText, Ascii;
    var x, y := SubjectTuple(s).items, SubjectTuple(t).items;
    assert x[0] == y[0] && x[1] == y[1] && x[2] == y[2] && x[3] == y[3] && x[4] == y[4] && x[5] == y[5];
    KindTextIsInjective(s.kind, t.kind);
    WindowIsInjective(s.binding.freshness, t.binding.freshness);
  }

  lemma WindowIsInjective(f: Freshness, g: Freshness)
    requires FreshnessValue(f) == FreshnessValue(g)
    ensures f == g
  {
    hide Ascii;
    assert FreshnessValue(f).members[0] == FreshnessValue(g).members[0];
    assert FreshnessValue(f).members[1] == FreshnessValue(g).members[1];
  }

  lemma MapIsInjective<T(!new), U(!new)>(f: T -> U, a: seq<T>, b: seq<T>)
    requires Injective(f) && Map(f, a) == Map(f, b)
    ensures a == b
  {
    hide Map;
    assert |a| == |b|;
    forall i | 0 <= i < |a| ensures a[i] == b[i] {
      assert Map(f, a)[i] == f(a[i]) && Map(f, b)[i] == f(b[i]);
    }
  }

  lemma NormalMapped(items: seq<Value>)
    ensures Normal(Array(items)) == Array(Map(Normal, items))
  {
    hide NormalItems, Map, Normal;
    NormalArray(items);
    assert NormalItems(items) == Map(Normal, items);
  }

  /** Two lists of dependencies have one digest exactly when, up to key order, their tuples
      come in the same order. */
  lemma DigestIsOrder(a: seq<Resolved>, b: seq<Resolved>)
    ensures TuplesDigest(Map(DependencyTuple, a)) == TuplesDigest(Map(DependencyTuple, b)) <==>
            DigestOrder(a) == DigestOrder(b)
  {
    hide Canonical, Print, SortedTuples, Map, DigestOrder, SubjectTuple, Normal;
    var x, y := SortedTuples(Map(DependencyTuple, a)), SortedTuples(Map(DependencyTuple, b));
    NormalSorted(a);
    NormalSorted(b);
    NormalMapped(x);
    NormalMapped(y);
    CanonicalIsPrint(Array(x));
    CanonicalIsPrint(Array(y));
    if Canonical(Array(x)) == Canonical(Array(y)) {
      PrintIsInjective(Normal(Array(x)), Normal(Array(y)));
      forall s, t | SubjectTuple(s) == SubjectTuple(t) ensures s == t {
        SubjectTupleIsInjective(s, t);
      }
      MapIsInjective(SubjectTuple, DigestOrder(a), DigestOrder(b));
    }
  }

  // The two ways to print a window

  // "valid", "FromMs" and "UntilMs".
  const VALID: Text := [118, 97, 108, 105, 100]
  const FROM: Text := [70, 114, 111, 109, 77, 115]
  const UNTIL: Text := [85, 110, 116, 105, 108, 77, 115]

  lemma WindowKeys()
    ensures Ascii("validFromMs") == VALID + FROM && Ascii("validUntilMs") == VALID + UNTIL
  {
    hide Ascii;
    forall i | 0 <= i < 11 ensures Ascii("validFromMs")[i] == (VALID + FROM)[i] {
      AsciiAt("validFromMs", i);
    }
    forall i | 0 <= i < 12 ensures Ascii("validUntilMs")[i] == (VALID + UNTIL)[i] {
      AsciiAt("validUntilMs", i);
    }
  }

  lemma KeysInOrder()
    ensures AtMost(Ascii("validFromMs"), Ascii("validUntilMs")) && !AtMost(Ascii("validUntilMs"), Ascii("validFromMs"))
  {
    hide Ascii, AtMost;
    WindowKeys();
    FirstDifference(VALID, FROM, UNTIL);
  }

  lemma {:induction false} AtMostAfter(p: Text, a: Text, b: Text)
    ensures AtMost(p + a, p + b) <==> AtMost(a, b)
  {
    if p == [] {
      assert p + a == a && p + b == b;
    } else {
      AtMostAfter(p[1..], a, b);
      assert (p + a)[1..] == p[1..] + a && (p + b)[1..] == p[1..] + b;
    }
  }

  lemma FirstDifference(p: Text, a: Text, b: Text)
    requires a != [] && b != [] && a[0] < b[0]
    ensures AtMost(p + a, p + b) && !AtMost(p + b, p + a)
  {
    AtMostAfter(p, a, b);
    AtMostAfter(p, b, a);
  }

  predicate Letters(s: Text) {
    forall i :: 0 <= i < |s| ==> 65 <= s[i] < 91 || 97 <= s[i] < 123
  }

  lemma {:induction false} EscapeLetters(s: Text)
    requires Letters(s)
    ensures Escape(s) == s
  {
    if s != [] {
      EscapeLetters(s[1..]);
      assert s == [s[0]] + s[1..];
    }
  }

  // An object of two members, printed, when its first key consists of letters.
  lemma PrintTwo(key: Text, v: Value, m: Member)
    requires Letters(key)
    ensures Print(Object([Member(key, v), m])) ==
            [OPEN_OBJECT, QUOTE] + key + ([QUOTE, COLON] + (Print(v) + ([COMMA] + PrintMember(m) + [CLOSE_OBJECT])))
  {
    hide Escape, PrintMember, PrintMembers, Print;
    var ms := [Member(key, v), m];
    EscapeLetters(key);
    PrintPair(ms);
    assert PrintMember(ms[0]) == [QUOTE] + key + [QUOTE] + [COLON] + Print(v) by {
      PrintedMember(ms[0]);
    }
  }

  lemma PrintedMember(m: Member)
    ensures PrintMember(m) == [QUOTE] + Escape(m.key) + [QUOTE] + [COLON] + Print(m.value)
  {
    hide Escape, Print;
  }

  lemma PrintPair(ms: seq<Member>)
    requires |ms| == 2
    ensures Print(Object(ms)) == [OPEN_OBJECT] + (PrintMember(ms[0]) + [COMMA] + PrintMember(ms[1])) + [CLOSE_OBJECT]
  {
    hide PrintMember;
    assert ms[1..] == [ms[1]];
    assert PrintMembers([ms[1]]) == PrintMember(ms[1]);
  }

  // What comes after the part that the two first keys have in common.
  lemma PrintWindow(f: Freshness) returns (rest: Text)
    ensures Print(FreshnessValue(f)) == [OPEN_OBJECT, QUOTE] + VALID + ((if f.untilFirst then UNTIL else FROM) + rest)
  {
    hide Ascii, PrintMember, Escape, PrintMembers, Print;
    WindowKeys();
    var m := FreshnessValue(f).members[0];
    var n := FreshnessValue(f).members[1];
    rest := [QUOTE, COLON] + (Print(m.value) + ([COMMA] + PrintMember(n) + [CLOSE_OBJECT]));
    var key := VALID + if f.untilFirst then UNTIL else FROM;
    PrintTwo(key, m.value, n);
    assert FreshnessValue(f) == Object([Member(key, m.value), n]);
  }

  lemma WindowsInOrder(f: Freshness, g: Freshness, t: Text, u: Text)
    requires !f.untilFirst && g.untilFirst
    ensures AtMost(Print(FreshnessValue(f)) + t, Print(FreshnessValue(g)) + u)
    ensures !AtMost(Print(FreshnessValue(g)) + u, Print(FreshnessValue(f)) + t)
  {
    hide Print, AtMost, FreshnessValue;
    var from := PrintWindow(f);
    var until := PrintWindow(g);
    var p := [OPEN_OBJECT, QUOTE] + VALID;
    FirstDifference(p, FROM + from + t, UNTIL + until + u);
    assert Print(FreshnessValue(f)) + t == p + (FROM + from + t);
    assert Print(FreshnessValue(g)) + u == p + (UNTIL + until + u);
  }

  // The part of a tuple before its window

  function Fields(s: Subject): seq<Text> {
    [KindText(s.kind), s.binding.knowledgeId, s.binding.version, s.binding.digest]
  }

  function FrontOf(fields: seq<Text>): Text {
    if fields == [] then [] else Quoted(fields[0]) + ([COMMA] + FrontOf(fields[1..]))
  }

  function Back(s: Subject): Text {
    Print(FreshnessValue(s.binding.freshness)) + ([COMMA] + Quoted(s.binding.scope) + [CLOSE_ARRAY])
  }

  lemma TupleTextIs(s: Subject)
    ensures TupleText(s) == [OPEN_ARRAY] + FrontOf(Fields(s)) + Back(s)
  {
    hide Quoted, KindText, FreshnessValue, FrontOf, PrintItems;
    var items, fields := SubjectTuple(s).items, Fields(s);
    var last := PrintItems(items[4..]);
    LastTwo(items);
    FrontThenRest(items, fields, 0);
    assert items[0..] == items && fields[0..] == fields;
    assert last + [CLOSE_ARRAY] == Back(s);
  }

  lemma {:induction false} FrontThenRest(items: seq<Value>, fields: seq<Text>, i: nat)
    requires i <= |fields| == 4 && |items| == 6
    requires forall k :: 0 <= k < 4 ==> items[k] == String(fields[k])
    ensures PrintItems(items[i..]) == FrontOf(fields[i..]) + PrintItems(items[4..])
    decreases 4 - i
  {
    hide FrontOf, PrintItems;
    if i == 4 {
      NoFront();
      assert fields[4..] == [];
    } else {
      FrontThenRest(items, fields, i + 1);
      FrontStep(items, fields, i);
      var f, rest := FrontOf(fields[i + 1..]), PrintItems(items[4..]);
      assert Quoted(fields[i]) + ([COMMA] + (f + rest)) == Quoted(fields[i]) + ([COMMA] + f) + rest;
    }
  }

  lemma NoFront()
    ensures FrontOf([]) == []
  {
  }

  lemma LastTwo(items: seq<Value>)
    requires |items| == 6
    ensures PrintItems(items[4..]) == Print(items[4]) + [COMMA] + Print(items[5])
  {
    hide Print;
    assert items[4..][1..] == [items[5]];
    assert PrintItems([items[5]]) == Print(items[5]);
  }

  // One more string in front.
  lemma FrontStep(items: seq<Value>, fields: seq<Text>, i: nat)
    requires i < |fields| == 4 && |items| == 6 && items[i] == String(fields[i])
    ensures PrintItems(items[i..]) == Quoted(fields[i]) + ([COMMA] + PrintItems(items[i + 1..]))
    ensures FrontOf(fields[i..]) == Quoted(fields[i]) + ([COMMA] + FrontOf(fields[i + 1..]))
  {
    hide Quoted;
    assert items[i..][1..] == items[i + 1..] && fields[i..][1..] == fields[i + 1..];
  }

  /** Quoted strings delimit themselves: no front is a prefix of another. */
  lemma {:induction false} FrontsAreApart(xs: seq<Text>, ys: seq<Text>, w: Text)
    requires |xs| == |ys| && FrontOf(ys) == FrontOf(xs) + w
    ensures xs == ys
  {
    hide Quoted, ReadString;
    if xs != [] {
      var u, v := FrontOf(xs[1..]) + w, FrontOf(ys[1..]);
      assert FrontOf(xs) + w == Quoted(xs[0]) + ([COMMA] + u);
      StringRoundTrip(xs[0], [COMMA] + u);
      StringRoundTrip(ys[0], [COMMA] + v);
      assert ([COMMA] + u)[1..] == u && ([COMMA] + v)[1..] == v;
      FrontsAreApart(xs[1..], ys[1..], w);
      assert xs == [xs[0]] + xs[1..] && ys == [ys[0]] + ys[1..];
    }
  }

  lemma {:induction false} AtMostApart(p: Text, q: Text, a: Text, b: Text)
    requires !(p <= q) && !(q <= p)
    ensures AtMost(p + a, q + b) <==> AtMost(p, q)
  {
    assert p != [] && q != [];
    assert (p + a)[1..] == p[1..] + a && (q + b)[1..] == q[1..] + b;
    if p[0] == q[0] {
      assert p == [p[0]] + p[1..] && q == [q[0]] + q[1..];
      AtMostApart(p[1..], q[1..], a, b);
    }
  }

  /** Two dependencies agree on everything that is compared before their windows. */
  predicate Alike(s: Subject, t: Subject) {
    Fields(s) == Fields(t)
  }

  /** Then the keys that the windows list first decide. */
  lemma FromBeforeUntil(s: Subject, t: Subject)
    requires Alike(s, t) && !s.binding.freshness.untilFirst && t.binding.freshness.untilFirst
    ensures Before(s, t) && !Before(t, s)
  {
    hide Print, AtMost, FrontOf, FreshnessValue, SubjectTuple, Quoted;
    TupleTextIs(s);
    TupleTextIs(t);
    var p := [OPEN_ARRAY] + FrontOf(Fields(s));
    AtMostAfter(p, Back(s), Back(t));
    AtMostAfter(p, Back(t), Back(s));
    WindowsInOrder(s.binding.freshness, t.binding.freshness,
                   [COMMA] + Quoted(s.binding.scope) + [CLOSE_ARRAY],
                   [COMMA] + Quoted(t.binding.scope) + [CLOSE_ARRAY]);
  }

  /** Otherwise the windows are never looked at. */
  lemma UnlikeIsStable(s: Subject, t: Subject, s': Subject, t': Subject)
    requires !Alike(s, t) && PlainSubject(s) == PlainSubject(s') && PlainSubject(t) == PlainSubject(t')
    ensures Before(s, t) <==> Before(s', t')
  {
    hide Print, AtMost, FrontOf, FreshnessValue, SubjectTuple, Quoted, Back;
    TupleTextIs(s);
    TupleTextIs(t);
    TupleTextIs(s');
    TupleTextIs(t');
    assert Fields(s) == Fields(s') && Fields(t) == Fields(t');
    ApartFronts(Fields(s), Fields(t));
    var p, q := [OPEN_ARRAY] + FrontOf(Fields(s)), [OPEN_ARRAY] + FrontOf(Fields(t));
    AtMostApart(p, q, Back(s), Back(t));
    AtMostApart(p, q, Back(s'), Back(t'));
  }

  lemma ApartFronts(xs: seq<Text>, ys: seq<Text>)
    requires |xs| == |ys| && xs != ys
    ensures !([OPEN_ARRAY] + FrontOf(xs) <= [OPEN_ARRAY] + FrontOf(ys))
    ensures !([OPEN_ARRAY] + FrontOf(ys) <= [OPEN_ARRAY] + FrontOf(xs))
  {
    hide FrontOf;
    var p, q := FrontOf(xs), FrontOf(ys);
    if [OPEN_ARRAY] + p <= [OPEN_ARRAY] + q {
      assert ([OPEN_ARRAY] + p)[1..] == p && ([OPEN_ARRAY] + q)[1..] == q;
      assert q == p + q[|p|..];
      FrontsAreApart(xs, ys, q[|p|..]);
    }
    if [OPEN_ARRAY] + q <= [OPEN_ARRAY] + p {
      assert ([OPEN_ARRAY] + p)[1..] == p && ([OPEN_ARRAY] + q)[1..] == q;
      assert p == q + p[|q|..];
      FrontsAreApart(ys, xs, p[|q|..]);
    }
  }

  // When two lists of the same dependencies have one digest

  predicate KeysAgree(x: Keyed<Subject>, y: Keyed<Subject>, u: Keyed<Subject>, v: Keyed<Subject>) {
    x.item == u.item && y.item == v.item && x.item != y.item ==>
      (AtMost(x.key, y.key) <==> AtMost(u.key, v.key)) && u.key != v.key
  }

  /** Any two items are in the same order in `a` and in `b`. */
  ghost predicate Agree(a: seq<Keyed<Subject>>, b: seq<Keyed<Subject>>) {
    forall x, y, u, v :: x in a && y in a && u in b && v in b ==> KeysAgree(x, y, u, v)
  }

  lemma {:induction false} SortedItemsAgree(a: seq<Keyed<Subject>>, b: seq<Keyed<Subject>>)
    requires Sorted(a) && Sorted(b) && Agree(a, b)
    requires multiset(Unkeyed(a)) == multiset(Unkeyed(b))
    ensures Unkeyed(a) == Unkeyed(b)
  {
    hide Unkeyed;
    if a == [] {
      assert |multiset(Unkeyed(b))| == 0;
    } else {
      HeadsAgree(a, b);
      TailOf(Unkeyed(a));
      TailOf(Unkeyed(b));
      UnkeyedTail(a);
      UnkeyedTail(b);
      SortedItemsAgree(a[1..], b[1..]);
    }
  }

  lemma UnkeyedTail<T>(s: seq<Keyed<T>>)
    requires s != []
    ensures Unkeyed(s)[0] == s[0].item && Unkeyed(s)[1..] == Unkeyed(s[1..])
    ensures Unkeyed(s) == [s[0].item] + Unkeyed(s[1..])
  {
  }

  lemma FindItem(s: seq<Keyed<Subject>>, x: Subject) returns (i: nat)
    requires x in multiset(Unkeyed(s))
    ensures i < |s| && s[i].item == x
  {
    hide Unkeyed;
    i :| 0 <= i < |Unkeyed(s)| && Unkeyed(s)[i] == x;
  }

  lemma HeadsAgree(a: seq<Keyed<Subject>>, b: seq<Keyed<Subject>>)
    requires a != [] && Sorted(a) && Sorted(b) && Agree(a, b)
    requires multiset(Unkeyed(a)) == multiset(Unkeyed(b))
    ensures b != [] && a[0].item == b[0].item
  {
    hide Unkeyed, Sorted, AtMost;
    assert Unkeyed(a)[0] == a[0].item && a[0].item in multiset(Unkeyed(a));
    var j := FindItem(b, a[0].item);
    assert Unkeyed(b)[0] == b[0].item && b[0].item in multiset(Unkeyed(b));
    var i := FindItem(a, b[0].item);
    if a[0].item != b[0].item {
      SortedAt(a, 0, i);
      SortedAt(b, 0, j);
      assert a[0] in a && a[i] in a && b[0] in b && b[j] in b;
      AtMostIsAntisymmetric(b[0].key, b[j].key);
    }
  }

  lemma RankedItems(a: seq<Resolved>)
    ensures Unkeyed(Map(Ranked, a)) == Map(PlainOf, a)
    ensures multiset(DigestOrder(a)) == multiset(Map(PlainOf, a))
  {
    hide Unkeyed, Sort, Map, TupleText, PlainSubject;
    var x := Map(Ranked, a);
    assert Unkeyed(x) == Map(PlainOf, a);
    UnkeyedPermutes(x, Sort(x));
  }

  lemma UnkeyedPermutes<T(!new)>(x: seq<Keyed<T>>, y: seq<Keyed<T>>)
    requires multiset(x) == multiset(y)
    ensures multiset(Unkeyed(x)) == multiset(Unkeyed(y))
  {
    hide Unkeyed, Map;
    var f := (k: Keyed<T>) => k.item;
    assert Unkeyed(x) == Map(f, x) && Unkeyed(y) == Map(f, y);
    MapsPermute(f, x, y);
  }

  predicate ComparedAlike(d: Resolved, e: Resolved, d': Resolved, e': Resolved) {
    PlainOf(d) == PlainOf(d') && PlainOf(e) == PlainOf(e') && PlainOf(d) != PlainOf(e) ==>
      (Before(d.subject, e.subject) <==> Before(d'.subject, e'.subject))
  }

  /** Any two dependencies are compared alike, as written in `a` and as written in `b`. */
  ghost predicate Stable(a: seq<Resolved>, b: seq<Resolved>) {
    forall d, e, d', e' :: d in a && e in a && d' in b && e' in b ==> ComparedAlike(d, e, d', e')
  }

  lemma StableAgrees(a: seq<Resolved>, b: seq<Resolved>)
    requires Stable(a, b)
    ensures Agree(Sort(Map(Ranked, a)), Sort(Map(Ranked, b)))
  {
    hide Stable, Sort, Map, AtMost, TupleText, PlainSubject, KeysAgree;
    var x, y := Sort(Map(Ranked, a)), Sort(Map(Ranked, b));
    forall k, l, m, n | k in x && l in x && m in y && n in y ensures KeysAgree(k, l, m, n) {
      StableKeys(a, b, k, l, m, n);
    }
  }

  lemma StableKeys(a: seq<Resolved>, b: seq<Resolved>,
                   k: Keyed<Subject>, l: Keyed<Subject>, m: Keyed<Subject>, n: Keyed<Subject>)
    requires Stable(a, b)
    requires k in Sort(Map(Ranked, a)) && l in Sort(Map(Ranked, a))
    requires m in Sort(Map(Ranked, b)) && n in Sort(Map(Ranked, b))
    ensures KeysAgree(k, l, m, n)
  {
    hide Sort, Map, AtMost, TupleText, PlainSubject;
    var d := RankOf(a, k);
    var e := RankOf(a, l);
    var d' := RankOf(b, m);
    var e' := RankOf(b, n);
    assert ComparedAlike(d, e, d', e');
    if m.key == n.key {
      TextsDiffer(d'.subject, e'.subject);
    }
  }

  lemma RankOf(a: seq<Resolved>, k: Keyed<Subject>) returns (d: Resolved)
    requires k in Sort(Map(Ranked, a))
    ensures d in a && k == Ranked(d)
  {
    hide Sort, Map, TupleText, PlainSubject;
    var x := Map(Ranked, a);
    assert k in multiset(Sort(x)) && k in x;
    var i :| 0 <= i < |x| && x[i] == k;
    d := a[i];
  }

  lemma TextsDiffer(s: Subject, t: Subject)
    requires TupleText(s) == TupleText(t)
    ensures s == t
  {
    hide Print, SubjectTuple;
    PrintIsInjective(SubjectTuple(s), SubjectTuple(t));
    SubjectTupleIsInjective(s, t);
  }

  lemma StableDigest(a: seq<Resolved>, b: seq<Resolved>)
    requires multiset(Map(PlainOf, a)) == multiset(Map(PlainOf, b)) && Stable(a, b)
    ensures TuplesDigest(Map(DependencyTuple, a)) == TuplesDigest(Map(DependencyTuple, b))
  {
    hide TuplesDigest, Stable, Agree, Sort, Map, Unkeyed;
    DigestIsOrder(a, b);
    RankedItems(a);
    RankedItems(b);
    SortIsSorted(Map(Ranked, a));
    SortIsSorted(Map(Ranked, b));
    StableAgrees(a, b);
    SortedItemsAgree(Sort(Map(Ranked, a)), Sort(Map(Ranked, b)));
  }

  /** Where two dependencies stand in the digest order. */
  lemma PlacesInOrder(a: seq<Resolved>, d: Resolved, e: Resolved) returns (i: nat, j: nat)
    requires d in a && e in a && PlainOf(d) != PlainOf(e) && Before(d.subject, e.subject)
    ensures i < j < |DigestOrder(a)| && DigestOrder(a)[i] == PlainOf(d) && DigestOrder(a)[j] == PlainOf(e)
  {
    hide Sort, Map, TupleText, PlainSubject, AtMost, Sorted, Unkeyed;
    var x := Sort(Map(Ranked, a));
    SortIsSorted(Map(Ranked, a));
    i := PlaceOf(a, d);
    j := PlaceOf(a, e);
    if j < i {
      SortedAt(x, j, i);
      AtMostIsAntisymmetric(TupleText(d.subject), TupleText(e.subject));
      TextsDiffer(d.subject, e.subject);
    }
  }

  lemma PlaceOf(a: seq<Resolved>, d: Resolved) returns (i: nat)
    requires d in a
    ensures i < |Sort(Map(Ranked, a))| && Sort(Map(Ranked, a))[i] == Ranked(d)
  {
    hide Sort, Map, TupleText, PlainSubject;
    var x := Map(Ranked, a);
    var k :| 0 <= k < |a| && a[k] == d;
    assert x[k] == Ranked(d) && x[k] in multiset(Sort(x));
    i :| 0 <= i < |Sort(x)| && Sort(x)[i] == Ranked(d);
  }

  lemma {:induction false} DistinctMultiset<T(!new)>(x: seq<T>, y: seq<T>)
    requires multiset(x) == multiset(y) && Distinct(x)
    ensures Distinct(y)
  {
    DistinctIsCounted(x);
    DistinctIsCounted(y);
  }

  /** Two dependencies compared differently give two digests. */
  lemma UnstableDigest(a: seq<Resolved>, b: seq<Resolved>, d: Resolved, e: Resolved, d': Resolved, e': Resolved)
    requires Distinct(Map(PlainOf, a)) && d in a && e in a && d' in b && e' in b
    requires PlainOf(d) == PlainOf(d') && PlainOf(e) == PlainOf(e') && PlainOf(d) != PlainOf(e)
    requires Before(d.subject, e.subject) && !Before(d'.subject, e'.subject)
    ensures TuplesDigest(Map(DependencyTuple, a)) != TuplesDigest(Map(DependencyTuple, b))
  {
    hide TuplesDigest, DigestOrder, Map, TupleText, PlainSubject, AtMost;
    DigestIsOrder(a, b);
    AtMostIsTotal(TupleText(d'.subject), TupleText(e'.subject));
    var i, j := PlacesInOrder(a, d, e);
    var k, l := PlacesInOrder(b, e', d');
    RankedItems(a);
    DistinctMultiset(Map(PlainOf, a), DigestOrder(a));
  }

  // The condition on the input

  ghost function DigestOf(subjects: seq<Subject>, records: seq<Record>, asOfMs: int): Digest {
    OutcomeOf(subjects, records, asOfMs).dependencySetDigest
  }

  /** The same subjects with their windows written down in any key orders. */
  predicate Rewritten(ss: seq<Subject>, ts: seq<Subject>) {
    |ss| == |ts| && forall i :: 0 <= i < |ss| ==> PlainSubject(ss[i]) == PlainSubject(ts[i])
  }

  /** No two different backed subjects agree on kind, id, version and digest. */
  ghost predicate NoneAlike(subjects: seq<Subject>, records: seq<Record>, asOfMs: int) {
    forall s, t :: IsBackedSubject(subjects, records, asOfMs, s) && IsBackedSubject(subjects, records, asOfMs, t) ==>
      Alike(s, t) ==> PlainSubject(s) == PlainSubject(t)
  }

  ghost predicate KeyOrderIrrelevant(subjects: seq<Subject>, records: seq<Record>, asOfMs: int) {
    forall ts, us :: Rewritten(subjects, ts) && Rewritten(subjects, us) ==>
      DigestOf(ts, records, asOfMs) == DigestOf(us, records, asOfMs)
  }

  lemma RewrittenBacked(ss: seq<Subject>, ts: seq<Subject>, records: seq<Record>, asOfMs: int, t: Subject)
    returns (s: Subject)
    requires Rewritten(ss, ts) && IsBackedSubject(ts, records, asOfMs, t)
    ensures IsBackedSubject(ss, records, asOfMs, s) && PlainSubject(s) == PlainSubject(t)
  {
    hide IsVerdict;
    var i :| 0 <= i < |ts| && ts[i] == t;
    s := ss[i];
    VerdictIgnoresKeyOrder(records, asOfMs, t.binding, s.binding, None);
  }

  lemma RewrittenBack(ss: seq<Subject>, ts: seq<Subject>)
    requires Rewritten(ss, ts)
    ensures Rewritten(ts, ss)
  {
  }

  /** A backed subject survives, up to key order, and what survives was in the input. */
  lemma SurvivorFor(subjects: seq<Subject>, records: seq<Record>, asOfMs: int, s: Subject) returns (d: Resolved)
    requires IsBackedSubject(subjects, records, asOfMs, s)
    ensures d in Survivors(subjects, records, asOfMs) && PlainOf(d) == PlainSubject(s)
    ensures d.subject in subjects
  {
    hide IsVerdict, Survivors, Map, Distinct, PlainSubject;
    SurvivorsAreBacked(subjects, records, asOfMs);
    var a := Survivors(subjects, records, asOfMs);
    var i :| 0 <= i < |a| && Map(PlainOf, a)[i] == PlainSubject(s);
    d := a[i];
    assert d in a;
  }

  lemma RewrittenIncluded(ts: seq<Subject>, us: seq<Subject>, records: seq<Record>, asOfMs: int)
    requires Rewritten(ts, us)
    ensures forall x :: x in Map(PlainOf, Survivors(ts, records, asOfMs)) ==>
                          x in Map(PlainOf, Survivors(us, records, asOfMs))
  {
    hide IsVerdict, Survivors, Map, Distinct, PlainSubject, Rewritten;
    var a, b := Survivors(ts, records, asOfMs), Survivors(us, records, asOfMs);
    SurvivorsAreBacked(ts, records, asOfMs);
    RewrittenBack(ts, us);
    forall x | x in Map(PlainOf, a) ensures x in Map(PlainOf, b) {
      var i :| 0 <= i < |a| && Map(PlainOf, a)[i] == x;
      assert a[i] in a;
      var u := RewrittenBacked(us, ts, records, asOfMs, a[i].subject);
      var e := SurvivorFor(us, records, asOfMs, u);
      var j :| 0 <= j < |b| && b[j] == e;
      assert Map(PlainOf, b)[j] == x;
    }
  }

  lemma RewrittenSurvivors(ts: seq<Subject>, us: seq<Subject>, records: seq<Record>, asOfMs: int)
    requires Rewritten(ts, us)
    ensures multiset(Map(PlainOf, Survivors(ts, records, asOfMs))) ==
            multiset(Map(PlainOf, Survivors(us, records, asOfMs)))
  {
    hide IsVerdict, Survivors, Map, Distinct, Rewritten, AreBacked;
    RewrittenBack(ts, us);
    RewrittenIncluded(ts, us, records, asOfMs);
    RewrittenIncluded(us, ts, records, asOfMs);
    SurvivorsAreBacked(ts, records, asOfMs);
    SurvivorsAreBacked(us, records, asOfMs);
    BackedDistinct(ts, records, asOfMs, Survivors(ts, records, asOfMs));
    BackedDistinct(us, records, asOfMs, Survivors(us, records, asOfMs));
    DistinctAgreeSet(Map(PlainOf, Survivors(ts, records, asOfMs)), Map(PlainOf, Survivors(us, records, asOfMs)));
  }

  /** What survives of a rewriting stems from a backed subject of the input. */
  lemma SurvivorStems(ss: seq<Subject>, ts: seq<Subject>, records: seq<Record>, asOfMs: int, d: Resolved)
    returns (s: Subject)
    requires Rewritten(ss, ts) && d in Survivors(ts, records, asOfMs)
    ensures IsBackedSubject(ss, records, asOfMs, s) && PlainSubject(s) == PlainOf(d)
  {
    hide IsVerdict, Survivors, Map, Distinct, PlainSubject, Rewritten, IsBackedSubject;
    SurvivorsAreBacked(ts, records, asOfMs);
    s := RewrittenBacked(ss, ts, records, asOfMs, d.subject);
  }

  lemma NoneAlikeIsStable(ss: seq<Subject>, ts: seq<Subject>, us: seq<Subject>, records: seq<Record>, asOfMs: int)
    requires Rewritten(ss, ts) && Rewritten(ss, us) && NoneAlike(ss, records, asOfMs)
    ensures Stable(Survivors(ts, records, asOfMs), Survivors(us, records, asOfMs))
  {
    hide IsVerdict, Survivors, Rewritten, IsBackedSubject, Before;
    forall d, e, d', e' | d in Survivors(ts, records, asOfMs) && e in Survivors(ts, records, asOfMs)
      && d' in Survivors(us, records, asOfMs) && e' in Survivors(us, records, asOfMs)
      ensures ComparedAlike(d, e, d', e')
    {
      if PlainOf(d) == PlainOf(d') && PlainOf(e) == PlainOf(e') && PlainOf(d) != PlainOf(e) {
        var s := SurvivorStems(ss, ts, records, asOfMs, d);
        var t := SurvivorStems(ss, ts, records, asOfMs, e);
        assert Alike(s, t) <==> Alike(d.subject, e.subject);
        UnlikeIsStable(d.subject, e.subject, d'.subject, e'.subject);
      }
    }
  }

  /** The windows of one subject list `validUntilMs` first, all others `validFromMs`. */
  function Write(subjects: seq<Subject>, y: Subject): (r: seq<Subject>)
    ensures |r| == |subjects|
    ensures forall i :: 0 <= i < |r| ==> r[i] == Writing(subjects[i], y)
  {
    if subjects == [] then [] else [Writing(subjects[0], y)] + Write(subjects[1..], y)
  }

  function Writing(s: Subject, y: Subject): Subject {
    s.(binding := s.binding.(freshness := s.binding.freshness.(untilFirst := PlainSubject(s) == y)))
  }

  lemma WriteIsRewritten(subjects: seq<Subject>, y: Subject)
    ensures Rewritten(subjects, Write(subjects, y))
    ensures forall t :: t in Write(subjects, y) ==> t.binding.freshness.untilFirst == (PlainSubject(t) == y)
  {
    hide Write;
  }

  lemma SurvivorAsWritten(subjects: seq<Subject>, records: seq<Record>, asOfMs: int, s: Subject, y: Subject)
    returns (d: Resolved)
    requires IsBackedSubject(subjects, records, asOfMs, s)
    ensures d in Survivors(Write(subjects, y), records, asOfMs) && PlainOf(d) == PlainSubject(s)
    ensures d.subject.binding.freshness.untilFirst == (PlainSubject(s) == y)
  {
    hide IsVerdict, Survivors, Write, Rewritten, IsBackedSubject, PlainSubject;
    WriteIsRewritten(subjects, y);
    RewrittenBack(subjects, Write(subjects, y));
    var t := RewrittenBacked(Write(subjects, y), subjects, records, asOfMs, s);
    d := SurvivorFor(Write(subjects, y), records, asOfMs, t);
  }

  lemma AlikeMatters(subjects: seq<Subject>, records: seq<Record>, asOfMs: int, s: Subject, t: Subject)
    requires IsBackedSubject(subjects, records, asOfMs, s) && IsBackedSubject(subjects, records, asOfMs, t)
    requires Alike(s, t) && PlainSubject(s) != PlainSubject(t)
    ensures !KeyOrderIrrelevant(subjects, records, asOfMs)
  {
    hide IsVerdict, Survivors, Write, Rewritten, IsBackedSubject, Before, TuplesDigest, Map;
    hide AreBacked, Ordered, StatusOf, ReasonsOf;
    var x, y := PlainSubject(s), PlainSubject(t);
    var ts, us := Write(subjects, y), Write(subjects, x);
    WriteIsRewritten(subjects, y);
    WriteIsRewritten(subjects, x);
    var d := SurvivorAsWritten(subjects, records, asOfMs, s, y);
    var e := SurvivorAsWritten(subjects, records, asOfMs, t, y);
    var d' := SurvivorAsWritten(subjects, records, asOfMs, s, x);
    var e' := SurvivorAsWritten(subjects, records, asOfMs, t, x);
    FromBeforeUntil(d.subject, e.subject);
    FromBeforeUntil(e'.subject, d'.subject);
    SurvivorsAreBacked(ts, records, asOfMs);
    BackedDistinct(ts, records, asOfMs, Survivors(ts, records, asOfMs));
    UnstableDigest(Survivors(ts, records, asOfMs), Survivors(us, records, asOfMs), d, e, d', e');
    assert DigestOf(ts, records, asOfMs) != DigestOf(us, records, asOfMs);
  }

  /** For every input: the order of keys inside the windows is irrelevant to the digest if
      and only if no two different backed subjects agree on kind, id, version and digest. */
  lemma KeyOrderIff(subjects: seq<Subject>, records: seq<Record>, asOfMs: int)
    ensures KeyOrderIrrelevant(subjects, records, asOfMs) <==> NoneAlike(subjects, records, asOfMs)
  {
    hide Survivors, Rewritten, IsBackedSubject, TuplesDigest, Map, Alike, PlainSubject;
    hide Ordered, StatusOf, ReasonsOf, Stable;
    if NoneAlike(subjects, records, asOfMs) {
      forall ts, us | Rewritten(subjects, ts) && Rewritten(subjects, us)
        ensures DigestOf(ts, records, asOfMs) == DigestOf(us, records, asOfMs)
      {
        RewrittenSurvivors(subjects, ts, records, asOfMs);
        RewrittenSurvivors(subjects, us, records, asOfMs);
        NoneAlikeIsStable(subjects, ts, us, records, asOfMs);
        StableDigest(Survivors(ts, records, asOfMs), Survivors(us, records, asOfMs));
      }
    } else {
      var s, t :| IsBackedSubject(subjects, records, asOfMs, s) && IsBackedSubject(subjects, records, asOfMs, t)
        && Alike(s, t) && PlainSubject(s) != PlainSubject(t);
      AlikeMatters(subjects, records, asOfMs, s, t);
    }
  }

  // The order of bindings and records

  predicate ComparedAlikeSubjects(s: Subject, t: Subject, s': Subject, t': Subject) {
    PlainSubject(s) == PlainSubject(s') && PlainSubject(t) == PlainSubject(t') && PlainSubject(s) != PlainSubject(t) ==>
      (Before(s, t) <==> Before(s', t'))
  }

  /** Every two backed subjects are compared alike, whichever of their copies is taken. */
  ghost predicate Consistent(subjects: seq<Subject>, records: seq<Record>, asOfMs: int) {
    forall s, t, s', t' ::
      && IsBackedSubject(subjects, records, asOfMs, s) && IsBackedSubject(subjects, records, asOfMs, t)
      && IsBackedSubject(subjects, records, asOfMs, s') && IsBackedSubject(subjects, records, asOfMs, t') ==>
        ComparedAlikeSubjects(s, t, s', t')
  }

  ghost predicate OrderIrrelevant(ws: seq<Binding>, fs: seq<Binding>, records: seq<Record>, asOfMs: int) {
    forall vs, gs, qs ::
      multiset(vs) == multiset(ws) && multiset(gs) == multiset(fs) && multiset(qs) == multiset(records) ==>
        DigestOf(AllSubjects(vs, gs), qs, asOfMs) == DigestOf(AllSubjects(ws, fs), records, asOfMs)
  }

  lemma BackedPermute(ss: seq<Subject>, ts: seq<Subject>, rs: seq<Record>, qs: seq<Record>, asOfMs: int, s: Subject)
    requires multiset(ss) == multiset(ts) && multiset(rs) == multiset(qs) && IsBackedSubject(ss, rs, asOfMs, s)
    ensures IsBackedSubject(ts, qs, asOfMs, s)
  {
    hide IsVerdict;
    assert s in multiset(ts);
    SameVerdict(rs, qs, asOfMs, s.binding, None);
  }

  lemma SurvivorIsBacked(ss: seq<Subject>, rs: seq<Record>, asOfMs: int, d: Resolved)
    requires d in Survivors(ss, rs, asOfMs)
    ensures IsBackedSubject(ss, rs, asOfMs, d.subject)
  {
    hide Survivors, IsVerdict;
    SurvivorsAreBacked(ss, rs, asOfMs);
  }

  lemma ConsistentIsStable(ss: seq<Subject>, ts: seq<Subject>, rs: seq<Record>, qs: seq<Record>, asOfMs: int)
    requires multiset(ss) == multiset(ts) && multiset(rs) == multiset(qs) && Consistent(ss, rs, asOfMs)
    ensures Stable(Survivors(ss, rs, asOfMs), Survivors(ts, qs, asOfMs))
  {
    hide Survivors, IsBackedSubject, Before, PlainSubject;
    forall d, e, d', e' | d in Survivors(ss, rs, asOfMs) && e in Survivors(ss, rs, asOfMs)
      && d' in Survivors(ts, qs, asOfMs) && e' in Survivors(ts, qs, asOfMs)
      ensures ComparedAlike(d, e, d', e')
    {
      SurvivorIsBacked(ss, rs, asOfMs, d);
      SurvivorIsBacked(ss, rs, asOfMs, e);
      SurvivorIsBacked(ts, qs, asOfMs, d');
      SurvivorIsBacked(ts, qs, asOfMs, e');
      BackedPermute(ts, ss, qs, rs, asOfMs, d'.subject);
      BackedPermute(ts, ss, qs, rs, asOfMs, e'.subject);
      assert ComparedAlikeSubjects(d.subject, e.subject, d'.subject, e'.subject);
    }
  }

  lemma {:induction false} FirstSurvives(subjects: seq<Subject>, records: seq<Record>, asOfMs: int, i: nat)
    requires i < |subjects| && !Repeats(subjects[..i], subjects[i])
    requires IsVerdict(records, asOfMs, subjects[i].binding, None)
    ensures Resolved(subjects[i], CURRENT) in Survivors(subjects, records, asOfMs)
  {
    hide Repeats, IsVerdict;
    var n := |subjects| - 1;
    if i < n {
      assert subjects[..n][..i] == subjects[..i];
      FirstSurvives(subjects[..n], records, asOfMs, i);
    }
  }

  lemma TakeOut<T(!new)>(s: seq<T>, x: T) returns (rest: seq<T>)
    requires x in s
    ensures multiset(s) == multiset{x} + multiset(rest)
    ensures forall y :: y in s && y != x ==> y in rest
  {
    var i :| 0 <= i < |s| && s[i] == x;
    rest := s[..i] + s[i + 1..];
    WithoutOne(s, i);
    assert s == s[..i] + [s[i]] + s[i + 1..];
  }

  lemma BringForward<T(!new)>(s: seq<T>, x: T, y: T) returns (r: seq<T>)
    requires x in s && y in s && x != y
    ensures multiset(r) == multiset(s) && |r| >= 2 && r[0] == x && r[1] == y
  {
    var rest := TakeOut(s, x);
    var others := TakeOut(rest, y);
    r := [x] + ([y] + others);
  }

  /** Two subjects of one kind can be moved to the front of their kind, and then both
      survive as they are written. */
  lemma MoveForward(ws: seq<Binding>, fs: seq<Binding>, records: seq<Record>, asOfMs: int, s: Subject, t: Subject)
    returns (vs: seq<Binding>, gs: seq<Binding>)
    requires IsBackedSubject(AllSubjects(ws, fs), records, asOfMs, s)
    requires IsBackedSubject(AllSubjects(ws, fs), records, asOfMs, t)
    requires s.kind == t.kind && PlainSubject(s) != PlainSubject(t)
    ensures multiset(vs) == multiset(ws) && multiset(gs) == multiset(fs)
    ensures Resolved(s, CURRENT) in Survivors(AllSubjects(vs, gs), records, asOfMs)
    ensures Resolved(t, CURRENT) in Survivors(AllSubjects(vs, gs), records, asOfMs)
  {
    hide IsVerdict, Survivors, Subjects;
    KindsApart(ws, fs, s);
    KindsApart(ws, fs, t);
    vs, gs := ws, fs;
    if s.kind == WORKFLOW {
      vs := BringForward(ws, s.binding, t.binding);
    } else {
      gs := BringForward(fs, s.binding, t.binding);
    }
    var n := if s.kind == WORKFLOW then 0 else |vs|;
    var all := AllSubjects(vs, gs);
    assert all[n] == s && all[n + 1] == t;
    assert all[..n + 1] == all[..n] + [s];
    assert forall i :: 0 <= i < n ==> all[i].kind == WORKFLOW;
    FirstSurvives(all, records, asOfMs, n);
    FirstSurvives(all, records, asOfMs, n + 1);
  }

  lemma KindsApart(ws: seq<Binding>, fs: seq<Binding>, s: Subject)
    requires s in AllSubjects(ws, fs)
    ensures if s.kind == WORKFLOW then s.binding in ws else s.binding in fs
  {
    hide Subjects;
    var w, f := Subjects(WORKFLOW, ws), Subjects(FUNCTION, fs);
    if s in w {
      var i :| 0 <= i < |w| && w[i] == s;
      assert ws[i] == s.binding;
    } else {
      var i :| 0 <= i < |f| && f[i] == s;
      assert fs[i] == s.binding;
    }
  }

  lemma InconsistentMatters(ws: seq<Binding>, fs: seq<Binding>, records: seq<Record>, asOfMs: int,
                            s: Subject, t: Subject, s': Subject, t': Subject)
    requires var all := AllSubjects(ws, fs);
      && IsBackedSubject(all, records, asOfMs, s) && IsBackedSubject(all, records, asOfMs, t)
      && IsBackedSubject(all, records, asOfMs, s') && IsBackedSubject(all, records, asOfMs, t')
    requires PlainSubject(s) == PlainSubject(s') && PlainSubject(t) == PlainSubject(t')
    requires PlainSubject(s) != PlainSubject(t)
    requires Before(s, t) && !Before(s', t')
    ensures !OrderIrrelevant(ws, fs, records, asOfMs)
  {
    hide IsVerdict, Survivors, Subjects, Before, TuplesDigest, Map, AreBacked;
    hide Ordered, StatusOf, ReasonsOf, AllSubjects;
    hide IsBackedSubject, Distinct, DigestOf;
    if !Alike(s, t) {
      UnlikeIsStable(s, t, s', t');
    }
    SameKind(s, t);
    var vs, gs := MoveForward(ws, fs, records, asOfMs, s, t);
    var us, hs := MoveForward(ws, fs, records, asOfMs, s', t');
    TwoOrdersDiffer(AllSubjects(vs, gs), AllSubjects(us, hs), records, asOfMs, s, t, s', t');
  }

  lemma TwoOrdersDiffer(ts: seq<Subject>, us: seq<Subject>, records: seq<Record>, asOfMs: int,
                        s: Subject, t: Subject, s': Subject, t': Subject)
    requires Resolved(s, CURRENT) in Survivors(ts, records, asOfMs)
    requires Resolved(t, CURRENT) in Survivors(ts, records, asOfMs)
    requires Resolved(s', CURRENT) in Survivors(us, records, asOfMs)
    requires Resolved(t', CURRENT) in Survivors(us, records, asOfMs)
    requires PlainSubject(s) == PlainSubject(s') && PlainSubject(t) == PlainSubject(t')
    requires PlainSubject(s) != PlainSubject(t)
    requires Before(s, t) && !Before(s', t')
    ensures DigestOf(ts, records, asOfMs) != DigestOf(us, records, asOfMs)
  {
    hide IsVerdict, Survivors, Before, TuplesDigest, Map, AreBacked, Ordered, StatusOf, ReasonsOf, PlainSubject;
    var a, b := Survivors(ts, records, asOfMs), Survivors(us, records, asOfMs);
    SurvivorsAreBacked(ts, records, asOfMs);
    BackedDistinct(ts, records, asOfMs, a);
    UnstableDigest(a, b, Resolved(s, CURRENT), Resolved(t, CURRENT), Resolved(s', CURRENT), Resolved(t', CURRENT));
  }

  lemma SameKind(s: Subject, t: Subject)
    requires Alike(s, t)
    ensures s.kind == t.kind
  {
    assert Fields(s)[0] == Fields(t)[0];
    KindTextIsInjective(s.kind, t.kind);
  }

  /** For every input: permuting bindings within their kinds, and records, leaves the digest
      as it is if and only if every two backed subjects are compared alike in all copies in
      which they occur. */
  lemma OrderIff(ws: seq<Binding>, fs: seq<Binding>, records: seq<Record>, asOfMs: int)
    ensures OrderIrrelevant(ws, fs, records, asOfMs) <==> Consistent(AllSubjects(ws, fs), records, asOfMs)
  {
    hide IsBackedSubject, Survivors, AllSubjects, Before, TuplesDigest, Map, Ordered;
    hide StatusOf, ReasonsOf, Stable, PlainSubject;
    var all := AllSubjects(ws, fs);
    if Consistent(all, records, asOfMs) {
      forall vs, gs, qs
        | multiset(vs) == multiset(ws) && multiset(gs) == multiset(fs) && multiset(qs) == multiset(records)
        ensures DigestOf(AllSubjects(vs, gs), qs, asOfMs) == DigestOf(all, records, asOfMs)
      {
        AllSubjectsPermute(ws, fs, vs, gs);
        OrderIsIrrelevant(all, AllSubjects(vs, gs), records, qs, asOfMs);
        ConsistentIsStable(all, AllSubjects(vs, gs), records, qs, asOfMs);
        StableDigest(Survivors(all, records, asOfMs), Survivors(AllSubjects(vs, gs), qs, asOfMs));
      }
    } else {
      var s, t, s', t' :|
        && IsBackedSubject(all, records, asOfMs, s) && IsBackedSubject(all, records, asOfMs, t)
        && IsBackedSubject(all, records, asOfMs, s') && IsBackedSubject(all, records, asOfMs, t')
        && !ComparedAlikeSubjects(s, t, s', t');
      if Before(s, t) {
        InconsistentMatters(ws, fs, records, asOfMs, s, t, s', t');
      } else {
        InconsistentMatters(ws, fs, records, asOfMs, s', t', s, t);
      }
    }
  }

  predicate OneKeyOrder(subjects: seq<Subject>) {
    forall s, t :: s in subjects && t in subjects ==> s.binding.freshness.untilFirst == t.binding.freshness.untilFirst
  }

  /** Two plain ways to be safe: write all windows alike, or depend on no two bindings that
      agree on kind, id, version and digest. */
  lemma SafeInputs(ws: seq<Binding>, fs: seq<Binding>, records: seq<Record>, asOfMs: int)
    requires OneKeyOrder(AllSubjects(ws, fs)) || NoneAlike(AllSubjects(ws, fs), records, asOfMs)
    ensures OrderIrrelevant(ws, fs, records, asOfMs)
  {
    hide IsVerdict, AllSubjects, Before, OrderIrrelevant, KindText;
    OrderIff(ws, fs, records, asOfMs);
    var all := AllSubjects(ws, fs);
    forall s, t, s', t' |
      && IsBackedSubject(all, records, asOfMs, s) && IsBackedSubject(all, records, asOfMs, t)
      && IsBackedSubject(all, records, asOfMs, s') && IsBackedSubject(all, records, asOfMs, t')
      ensures ComparedAlikeSubjects(s, t, s', t')
    {
      if PlainSubject(s) == PlainSubject(s') && PlainSubject(t) == PlainSubject(t')
         && PlainSubject(s) != PlainSubject(t) {
        if OneKeyOrder(all) {
          assert s == s' && t == t';
        } else {
          UnlikeIsStable(s, t, s', t');
        }
      }
    }
  }

  predicate WrittenAlike(a: seq<Resolved>, b: seq<Resolved>) {
    forall d, e :: d in a && e in b ==> d.subject.binding.freshness.untilFirst == e.subject.binding.freshness.untilFirst
  }

  /** The digest always tells the dependencies apart, and with one key order it tells
      nothing else. */
  lemma DigestIdentifiesDependencies(a: seq<Resolved>, b: seq<Resolved>)
    ensures TuplesDigest(Map(DependencyTuple, a)) == TuplesDigest(Map(DependencyTuple, b)) ==>
              multiset(Map(PlainOf, a)) == multiset(Map(PlainOf, b))
    ensures WrittenAlike(a, b) && multiset(Map(PlainOf, a)) == multiset(Map(PlainOf, b)) ==>
              TuplesDigest(Map(DependencyTuple, a)) == TuplesDigest(Map(DependencyTuple, b))
  {
    hide TuplesDigest, DigestOrder, Map, Stable, WrittenAlike;
    DigestIsOrder(a, b);
    RankedItems(a);
    RankedItems(b);
    if WrittenAlike(a, b) && multiset(Map(PlainOf, a)) == multiset(Map(PlainOf, b)) {
      AlikeIsStable(a, b);
      StableDigest(a, b);
    }
  }

  lemma AlikeIsStable(a: seq<Resolved>, b: seq<Resolved>)
    requires WrittenAlike(a, b)
    ensures Stable(a, b)
  {
    hide Before;
    forall d, e, d', e' | d in a && e in a && d' in b && e' in b ensures ComparedAlike(d, e, d', e') {
      if PlainOf(d) == PlainOf(d') && PlainOf(e) == PlainOf(e') {
        assert d.subject == d'.subject && e.subject == e'.subject;
      }
    }
  }

  function Flipped(b: Binding): Binding {
    b.(freshness := b.freshness.(untilFirst := !b.freshness.untilFirst))
  }

  // The first and the third of four bindings survive, if the second repeats the first.
  lemma PairSurvives(p: Binding, q: Binding, r: Binding, t: Binding, records: seq<Record>, asOfMs: int)
    requires Plain(p) == Plain(q) != Plain(r)
    requires IsVerdict(records, asOfMs, p, None) && IsVerdict(records, asOfMs, r, None)
    ensures var resolved := Survivors(AllSubjects([p, q, r, t], []), records, asOfMs);
      && Resolved(Subject(WORKFLOW, p), CURRENT) in resolved && Resolved(Subject(WORKFLOW, r), CURRENT) in resolved
      && Distinct(Map(PlainOf, resolved))
  {
    hide IsVerdict, Survivors, Subjects, Map;
    var all := AllSubjects([p, q, r, t], []);
    assert all[..0] == [] && all[..2] == [Subject(WORKFLOW, p), Subject(WORKFLOW, q)];
    FirstSurvives(all, records, asOfMs, 0);
    FirstSurvives(all, records, asOfMs, 2);
    SurvivorsAreBacked(all, records, asOfMs);
    BackedDistinct(all, records, asOfMs, Survivors(all, records, asOfMs));
  }

  // `a'` and `b'` are `a` and `b` with their windows the other way round.
  lemma CopiesDiffer(a: Binding, a': Binding, b: Binding, b': Binding, records: seq<Record>, asOfMs: int)
    requires Plain(a) == Plain(a') != Plain(b) == Plain(b')
    requires Alike(Subject(WORKFLOW, a), Subject(WORKFLOW, b))
    requires !a.freshness.untilFirst && !b.freshness.untilFirst && a'.freshness.untilFirst && b'.freshness.untilFirst
    requires IsVerdict(records, asOfMs, a, None) && IsVerdict(records, asOfMs, b, None)
    requires IsVerdict(records, asOfMs, a', None) && IsVerdict(records, asOfMs, b', None)
    ensures DigestOf(AllSubjects([a, a', b', b], []), records, asOfMs)
            != DigestOf(AllSubjects([a', a, b, b'], []), records, asOfMs)
  {
    hide IsVerdict, Survivors, Before, TuplesDigest, Map, Ordered, StatusOf, ReasonsOf, AllSubjects, KindText;
    PairSurvives(a, a', b', b, records, asOfMs);
    PairSurvives(a', a, b, b', records, asOfMs);
    var s, t, s', t' := Subject(WORKFLOW, a), Subject(WORKFLOW, b), Subject(WORKFLOW, a'), Subject(WORKFLOW, b');
    FromBeforeUntil(s, t');
    FromBeforeUntil(t, s');
    UnstableDigest(Survivors(AllSubjects([a, a', b', b], []), records, asOfMs),
                   Survivors(AllSubjects([a', a, b, b'], []), records, asOfMs),
                   Resolved(s, CURRENT), Resolved(t', CURRENT), Resolved(s', CURRENT), Resolved(t, CURRENT));
  }

  /** And inputs that are not: two backed bindings alike up to window and scope, each given
      in both key orders. Permuting these four changes what `Resolve` digests. */
  lemma CopiesCanFlipDigest(a: Binding, b: Binding, asOfMs: int)
    requires a.knowledgeId == b.knowledgeId && a.version == b.version && a.digest == b.digest && a.scope != b.scope
    requires InWindow(a.freshness, asOfMs) && InWindow(b.freshness, asOfMs)
    requires !a.freshness.untilFirst && !b.freshness.untilFirst
    ensures multiset([a, Flipped(a), Flipped(b), b]) == multiset([Flipped(a), a, b, Flipped(b)])
    ensures var records := [Record(a, CURRENT), Record(b, CURRENT)];
      DigestOf(AllSubjects([a, Flipped(a), Flipped(b), b], []), records, asOfMs)
      != DigestOf(AllSubjects([Flipped(a), a, b, Flipped(b)], []), records, asOfMs)
  {
    hide IsVerdict, DigestOf, AllSubjects, KindText;
    SwapPairs(a, Flipped(a), b, Flipped(b));
    BackedByTwo(a, b, asOfMs);
    CopiesDiffer(a, Flipped(a), b, Flipped(b), [Record(a, CURRENT), Record(b, CURRENT)], asOfMs);
  }

  lemma SwapPairs<T>(a: T, a': T, b: T, b': T)
    ensures multiset([a, a', b', b]) == multiset([a', a, b, b'])
  {
  }

  lemma BackedByTwo(a: Binding, b: Binding, asOfMs: int)
    requires a.scope != b.scope && InWindow(a.freshness, asOfMs) && InWindow(b.freshness, asOfMs)
    ensures var records := [Record(a, CURRENT), Record(b, CURRENT)];
      && IsVerdict(records, asOfMs, a, None) && IsVerdict(records, asOfMs, b, None)
      && IsVerdict(records, asOfMs, Flipped(a), None) && IsVerdict(records, asOfMs, Flipped(b), None)
  {
    hide IsVerdict;
    var records := [Record(a, CURRENT), Record(b, CURRENT)];
    BackedHere(records, asOfMs, a, Record(a, CURRENT));
    BackedHere(records, asOfMs, b, Record(b, CURRENT));
    VerdictIgnoresKeyOrder(records, asOfMs, a, Flipped(a), None);
    VerdictIgnoresKeyOrder(records, asOfMs, b, Flipped(b), None);
  }

  lemma BackedHere(records: seq<Record>, asOfMs: int, b: Binding, r: Record)
    requires r in records && r == Record(b, CURRENT) && InWindow(b.freshness, asOfMs)
    requires |records| == 2 && records[0].binding.scope != records[1].binding.scope
    ensures IsVerdict(records, asOfMs, b, None)
  {
    hide IsVerdict;
    assert Backs(r, asOfMs, b);
    BackedHasNoFault(records, asOfMs, b);
  }
}
