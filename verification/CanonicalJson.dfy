/** The canonical printer: `JSON.stringify` with the members sorted by key at every depth. */
module CanonicalJson {
  import opened Wrappers
  import opened Texts
  import opened Json

  function Join(ts: seq<Text>): Text {
    if ts == [] then []
    else if |ts| == 1 then ts[0]
    else ts[0] + [COMMA] + Join(ts[1..])
  }

  function Canonical(v: Value): Text
    decreases v
  {
    match v
    case Array(items) => [OPEN_ARRAY] + Join(CanonicalItems(items)) + [CLOSE_ARRAY]
    case Object(members) => [OPEN_OBJECT] + Join(Unkeyed(Sort(Entries(members)))) + [CLOSE_OBJECT]
    case _ => Print(v)
  }

  function CanonicalItems(items: seq<Value>): seq<Text>
    decreases items
  {
    if items == [] then [] else [Canonical(items[0])] + CanonicalItems(items[1..])
  }

  function Entry(m: Member): Keyed<Text>
    decreases m
  {
    Keyed(m.key, Quoted(m.key) + [COLON] + Canonical(m.value))
  }

  function Entries(members: seq<Member>): seq<Keyed<Text>>
    decreases members
  {
    if members == [] then [] else [Entry(members[0])] + Entries(members[1..])
  }

  /** Every object holds each key once, as JavaScript objects do. */
  predicate Proper(v: Value)
    decreases v
  {
    match v
    case Array(items) => forall i :: 0 <= i < |items| ==> Proper(items[i])
    case Object(members) =>
      && (forall i, j :: 0 <= i < j < |members| ==> members[i].key != members[j].key)
      && (forall i :: 0 <= i < |members| ==> Proper(members[i].value))
    case _ => true
  }

  /** The same JSON value: objects are compared as finite maps, whatever the order of
      their members, at every depth. */
  predicate Equal(v: Value, w: Value)
    decreases v
  {
    match (v, w)
    case (Array(a), Array(b)) => |a| == |b| && forall i :: 0 <= i < |a| ==> Equal(a[i], b[i])
    case (Object(ms), Object(ns)) =>
      |ms| == |ns| && forall i :: 0 <= i < |ms| ==> HasEqual(ms[i], ns)
    case _ => v == w
  }

  predicate HasEqual(m: Member, ns: seq<Member>)
    decreases m, 1
  {
    exists j :: 0 <= j < |ns| && EqualMembers(m, ns[j])
  }

  predicate EqualMembers(m: Member, n: Member)
    decreases m, 0
  {
    m.key == n.key && Equal(m.value, n.value)
  }

  /** The value that the canonical text stands for: members sorted by key. */
  function Normal(v: Value): Value
    decreases v
  {
    match v
    case Array(items) => Array(NormalItems(items))
    case Object(members) => Object(Unkeyed(Sort(NormalEntries(members))))
    case _ => v
  }

  function NormalItems(items: seq<Value>): (r: seq<Value>)
    ensures |r| == |items| && forall i :: 0 <= i < |items| ==> r[i] == Normal(items[i])
    decreases items
  {
    if items == [] then [] else [Normal(items[0])] + NormalItems(items[1..])
  }

  function NormalMember(m: Member): Member
    decreases m
  {
    Member(m.key, Normal(m.value))
  }

  function NormalEntries(members: seq<Member>): (r: seq<Keyed<Member>>)
    ensures |r| == |members|
    ensures forall i :: 0 <= i < |members| ==> r[i] == Keyed(members[i].key, NormalMember(members[i]))
    decreases members
  {
    if members == [] then []
    else [Keyed(members[0].key, NormalMember(members[0]))] + NormalEntries(members[1..])
  }

  // Sorting the printed members is printing the sorted members.

  lemma {:induction false} JoinPrinted(s: seq<Keyed<Member>>)
    ensures Join(Unkeyed(Relabel(PrintMember, s))) == PrintMembers(Unkeyed(s))
  {
    hide PrintMember;
    if s != [] {
      JoinPrinted(s[1..]);
      assert Unkeyed(Relabel(PrintMember, s))[1..] == Unkeyed(Relabel(PrintMember, s[1..]));
      assert Unkeyed(s)[1..] == Unkeyed(s[1..]);
    }
  }

  lemma {:induction false} CanonicalIsPrint(v: Value)
    ensures Canonical(v) == Print(Normal(v))
    decreases v
  {
    hide Join, Sort, PrintMembers, PrintItems;
    match v {
      case Array(items) =>
        ItemsArePrinted(items);
      case Object(members) =>
        EntriesArePrinted(members);
        RelabelSort(PrintMember, NormalEntries(members));
        JoinPrinted(Sort(NormalEntries(members)));
      case _ =>
    }
  }

  lemma {:induction false} ItemsArePrinted(items: seq<Value>)
    ensures Join(CanonicalItems(items)) == PrintItems(NormalItems(items))
    decreases items
  {
    hide Canonical, Print, Normal;
    if items != [] {
      CanonicalIsPrint(items[0]);
      ItemsArePrinted(items[1..]);
      assert NormalItems(items)[1..] == NormalItems(items[1..]);
      assert CanonicalItems(items)[1..] == CanonicalItems(items[1..]);
      assert |CanonicalItems(items[1..])| == 0 <==> items[1..] == [];
    }
  }

  lemma {:induction false} EntriesArePrinted(members: seq<Member>)
    ensures Entries(members) == Relabel(PrintMember, NormalEntries(members))
    decreases members
  {
    hide Canonical, Print, Normal, Quoted;
    if members != [] {
      CanonicalIsPrint(members[0].value);
      EntriesArePrinted(members[1..]);
      assert NormalEntries(members)[1..] == NormalEntries(members[1..]);
    }
  }

  // Normal forms agree exactly when the values are equal.

  ghost predicate Distinct<T(!new)>(s: seq<T>) {
    forall i, j :: 0 <= i < j < |s| ==> s[i] != s[j]
  }

  lemma WithoutOne<T(!new)>(b: seq<T>, j: nat)
    requires j < |b|
    ensures multiset(b[..j] + b[j + 1..]) == multiset(b) - multiset{b[j]}
    ensures forall x :: x in b && x != b[j] ==> x in b[..j] + b[j + 1..]
  {
    assert b == b[..j] + [b[j]] + b[j + 1..];
  }

  lemma DistinctCons<T(!new)>(a: seq<T>)
    requires a != []
    ensures Distinct(a) <==> Distinct(a[1..]) && a[0] !in a[1..]
  {
    assert forall i :: 0 < i < |a| ==> a[i] == a[1..][i - 1];
  }

  lemma {:induction false} DistinctAgree<T(!new)>(a: seq<T>, b: seq<T>)
    requires Distinct(a) && |a| == |b| && forall x :: x in a ==> x in b
    ensures multiset(a) == multiset(b)
  {
    hide Distinct;
    if a != [] {
      assert a[0] in b;
      var j :| 0 <= j < |b| && b[j] == a[0];
      WithoutOne(b, j);
      DistinctCons(a);
      assert a == [a[0]] + a[1..];
      forall x | x in a[1..] ensures x in b[..j] + b[j + 1..] {
        assert x in a && x != b[j];
      }
      DistinctAgree(a[1..], b[..j] + b[j + 1..]);
      assert b[j] in multiset(b);
    }
  }

  lemma {:induction false} UnkeyedIsInjective(a: seq<Keyed<Member>>, b: seq<Keyed<Member>>)
    requires forall x :: x in a ==> x.key == x.item.key
    requires forall x :: x in b ==> x.key == x.item.key
    ensures Unkeyed(a) == Unkeyed(b) <==> a == b
  {
    if Unkeyed(a) == Unkeyed(b) {
      assert |a| == |b|;
      forall i | 0 <= i < |a| ensures a[i] == b[i] {
        assert Unkeyed(a)[i] == a[i].item && Unkeyed(b)[i] == b[i].item;
        assert a[i] in a && b[i] in b;
      }
    }
  }

  lemma SortedEntriesKeepKeys(members: seq<Member>)
    ensures forall x :: x in Sort(NormalEntries(members)) ==> x.key == x.item.key
  {
    var entries := NormalEntries(members);
    forall x | x in Sort(entries) ensures x.key == x.item.key {
      assert x in multiset(Sort(entries)) && x in entries;
    }
  }

  predicate KeysDiffer(members: seq<Member>) {
    forall i, j :: 0 <= i < j < |members| ==> members[i].key != members[j].key
  }

  /** The members of a sorted object come in the code-unit order of their keys. */
  lemma NormalIsSorted(members: seq<Member>)
    ensures var sorted := Normal(Object(members)).members;
      |sorted| == |members| && forall i, j :: 0 <= i < j < |sorted| ==> AtMost(sorted[i].key, sorted[j].key)
  {
    hide AtMost, NormalMember, NormalEntries;
    var entries := Sort(NormalEntries(members));
    SortIsSorted(NormalEntries(members));
    SortedEntriesKeepKeys(members);
    var sorted := Normal(Object(members)).members;
    forall i, j | 0 <= i < j < |sorted| ensures AtMost(sorted[i].key, sorted[j].key) {
      SortedAt(entries, i, j);
      assert entries[i] in entries && entries[j] in entries;
    }
  }

  lemma EntriesIdentify(members: seq<Member>)
    requires KeysDiffer(members)
    ensures KeysIdentify(NormalEntries(members)) && Distinct(NormalEntries(members))
  {
    hide NormalMember;
  }

  /** Sorted objects agree exactly when each entry of the one is an entry of the other. */
  lemma SortedEntriesAgree(ms: seq<Member>, ns: seq<Member>)
    requires KeysDiffer(ms)
    ensures Normal(Object(ms)) == Normal(Object(ns)) <==>
            |ms| == |ns| && forall x :: x in NormalEntries(ms) ==> x in NormalEntries(ns)
  {
    hide NormalEntries, Sort, Unkeyed, KeysIdentify, Distinct;
    var a, b := NormalEntries(ms), NormalEntries(ns);
    EntriesIdentify(ms);
    SortsAgree(a, b);
    SortedEntriesKeepKeys(ms);
    SortedEntriesKeepKeys(ns);
    UnkeyedIsInjective(Sort(a), Sort(b));
    if multiset(a) == multiset(b) {
      assert |multiset(a)| == |multiset(b)|;
      forall x | x in a ensures x in b {
        assert x in multiset(b);
      }
    } else if |a| == |b| && forall x :: x in a ==> x in b {
      DistinctAgree(a, b);
    }
  }

  // What the members have to satisfy for their objects to agree.
  predicate MemberAgrees(m: Member, n: Member) {
    NormalMember(m) == NormalMember(n) <==> EqualMembers(m, n)
  }

  lemma ObjectsAgree(ms: seq<Member>, ns: seq<Member>)
    requires KeysDiffer(ms)
    requires forall i, j :: 0 <= i < |ms| && 0 <= j < |ns| ==> MemberAgrees(ms[i], ns[j])
    ensures Normal(Object(ms)) == Normal(Object(ns)) <==> Equal(Object(ms), Object(ns))
  {
    hide Normal, NormalMember, NormalEntries, HasEqual, Equal, MemberAgrees;
    var a, b := NormalEntries(ms), NormalEntries(ns);
    SortedEntriesAgree(ms, ns);
    EqualObjects(ms, ns);
    if Normal(Object(ms)) == Normal(Object(ns)) {
      forall i | 0 <= i < |ms| ensures HasEqual(ms[i], ns) {
        assert a[i] in a;
        EntryAgrees(ms, ns, i);
      }
    }
    if Equal(Object(ms), Object(ns)) {
      forall x | x in a ensures x in b {
        var i :| 0 <= i < |a| && a[i] == x;
        assert HasEqual(ms[i], ns);
        EntryAgrees(ms, ns, i);
      }
    }
  }

  lemma EqualObjects(ms: seq<Member>, ns: seq<Member>)
    ensures Equal(Object(ms), Object(ns)) <==> |ms| == |ns| && forall i :: 0 <= i < |ms| ==> HasEqual(ms[i], ns)
  {
    hide HasEqual;
  }

  lemma EntryAgrees(ms: seq<Member>, ns: seq<Member>, i: nat)
    requires i < |ms| && forall j :: 0 <= j < |ns| ==> MemberAgrees(ms[i], ns[j])
    ensures NormalEntries(ms)[i] in NormalEntries(ns) <==> HasEqual(ms[i], ns)
  {
    hide Normal, Equal;
    var a, b := NormalEntries(ms), NormalEntries(ns);
    if a[i] in b {
      var j :| 0 <= j < |b| && b[j] == a[i];
      assert MemberAgrees(ms[i], ns[j]);
    }
    if j :| 0 <= j < |ns| && EqualMembers(ms[i], ns[j]) {
      assert MemberAgrees(ms[i], ns[j]);
      assert b[j] == a[i];
    }
  }

  lemma EqualArrays(a: seq<Value>, b: seq<Value>)
    ensures Equal(Array(a), Array(b)) <==> |a| == |b| && forall i :: 0 <= i < |a| ==> Equal(a[i], b[i])
  {
  }

  lemma NormalArray(items: seq<Value>)
    ensures Normal(Array(items)) == Array(NormalItems(items))
  {
    hide NormalItems;
  }

  lemma ArraysAgree(a: seq<Value>, b: seq<Value>)
    requires |a| == |b| ==> forall i :: 0 <= i < |a| ==> (Normal(a[i]) == Normal(b[i]) <==> Equal(a[i], b[i]))
    ensures Normal(Array(a)) == Normal(Array(b)) <==> Equal(Array(a), Array(b))
  {
    hide Normal, NormalItems, Equal;
    NormalArray(a);
    NormalArray(b);
    EqualArrays(a, b);
    var x, y := NormalItems(a), NormalItems(b);
    assert x == y <==> |x| == |y| && forall i :: 0 <= i < |x| ==> x[i] == y[i];
  }

  lemma {:induction false} NormalAgree(v: Value, w: Value)
    requires Proper(v) && Proper(w)
    ensures Normal(v) == Normal(w) <==> Equal(v, w)
    decreases v
  {
    match (v, w) {
      case (Array(a), Array(b)) =>
        if |a| == |b| {
          forall i | 0 <= i < |a| ensures Normal(a[i]) == Normal(b[i]) <==> Equal(a[i], b[i]) {
            NormalAgree(a[i], b[i]);
          }
        }
        ArraysAgree(a, b);
      case (Object(ms), Object(ns)) =>
        forall i, j | 0 <= i < |ms| && 0 <= j < |ns| ensures MemberAgrees(ms[i], ns[j]) {
          NormalAgree(ms[i].value, ns[j].value);
        }
        ObjectsAgree(ms, ns);
      case _ =>
    }
  }

  /** Equal texts mean equal values, and the order of keys leaves no trace at any depth. */
  lemma CanonicalAgrees(v: Value, w: Value)
    requires Proper(v) && Proper(w)
    ensures Canonical(v) == Canonical(w) <==> Equal(v, w)
  {
    hide Proper, Normal, Equal, Canonical, Print;
    CanonicalIsPrint(v);
    CanonicalIsPrint(w);
    NormalAgree(v, w);
    if Print(Normal(v)) == Print(Normal(w)) {
      PrintIsInjective(Normal(v), Normal(w));
    }
  }

  lemma {:induction false} NormalIsEqual(v: Value)
    ensures Equal(v, Normal(v))
    decreases v
  {
    match v {
      case Array(items) =>
        forall i | 0 <= i < |items| ensures Equal(items[i], Normal(items[i])) {
          NormalIsEqual(items[i]);
        }
      case Object(members) =>
        forall i | 0 <= i < |members| ensures Equal(members[i].value, Normal(members[i].value)) {
          NormalIsEqual(members[i].value);
        }
        MembersAreKept(members);
      case _ =>
    }
  }

  lemma MembersAreKept(members: seq<Member>)
    requires forall i :: 0 <= i < |members| ==> Equal(members[i].value, Normal(members[i].value))
    ensures Equal(Object(members), Normal(Object(members)))
  {
    var entries := NormalEntries(members);
    var sorted := Sort(entries);
    forall i | 0 <= i < |members|
      ensures HasEqual(members[i], Unkeyed(sorted))
    {
      hide Equal, Normal, Sort;
      assert entries[i] in multiset(sorted);
      var j :| 0 <= j < |sorted| && sorted[j] == entries[i];
      assert EqualMembers(members[i], Unkeyed(sorted)[j]);
    }
  }

  /** Reading the canonical text back gives the value, up to the order of keys. */
  lemma CanonicalRoundTrip(v: Value)
    ensures Parse(Canonical(v)) == Some(Normal(v)) && Equal(v, Normal(v))
  {
    hide Normal, Equal, Canonical, Print, Parse;
    CanonicalIsPrint(v);
    ParsePrint(Normal(v));
    NormalIsEqual(v);
  }
}
