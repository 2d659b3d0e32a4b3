/** JavaScript strings as sequences of UTF-16 code units, their order, and sorting by it. */
module Texts {
  type CodeUnit = n: int | 0 <= n < 0x1_0000

  type Text = seq<CodeUnit>

  /** The order of `<` and of the default `sort`: code unit by code unit (RFC 8785,
      section 3.2.3), which is not code point order for supplementary characters. */
  predicate AtMost(a: Text, b: Text) {
    a == [] || (b != [] && (a[0] < b[0] || (a[0] == b[0] && AtMost(a[1..], b[1..]))))
  }

  lemma {:induction false} AtMostIsTotal(a: Text, b: Text)
    ensures AtMost(a, b) || AtMost(b, a)
  {
    if a != [] && b != [] {
      AtMostIsTotal(a[1..], b[1..]);
    }
  }

  lemma {:induction false} AtMostIsReflexive(a: Text)
    ensures AtMost(a, a)
  {
    if a != [] {
      AtMostIsReflexive(a[1..]);
    }
  }

  lemma {:induction false} AtMostIsAntisymmetric(a: Text, b: Text)
    requires AtMost(a, b) && AtMost(b, a)
    ensures a == b
  {
    if a != [] && b != [] {
      AtMostIsAntisymmetric(a[1..], b[1..]);
      assert a == [a[0]] + a[1..] && b == [b[0]] + b[1..];
    }
  }

  lemma {:induction false} AtMostIsTransitive(a: Text, b: Text, c: Text)
    requires AtMost(a, b) && AtMost(b, c)
    ensures AtMost(a, c)
  {
    if a != [] && b != [] && c != [] && a[0] == b[0] == c[0] {
      AtMostIsTransitive(a[1..], b[1..], c[1..]);
    }
  }

  /** The first difference is at `k`, and there `a` has the smaller unit. */
  predicate SmallerAt(a: Text, b: Text, k: nat) {
    k < |a| && k < |b| && a[..k] == b[..k] && a[k] < b[k]
  }

  lemma CommonHead(a: Text, b: Text, k: nat)
    requires SmallerAt(a, b, k)
    ensures if k > 0 then a[0] == b[0] else a[0] < b[0]
  {
    assert k > 0 ==> a[..k][0] == a[0] && b[..k][0] == b[0];
  }

  /** What the order is: a text comes before another exactly if it is a prefix of it or has
      the smaller code unit where they first differ. */
  lemma {:induction false} AtMostIff(a: Text, b: Text)
    ensures AtMost(a, b) <==> a <= b || exists k: nat :: SmallerAt(a, b, k)
  {
    if a != [] && b != [] && a[0] == b[0] {
      var x, y := a[1..], b[1..];
      AtMostIff(x, y);
      assert a == [a[0]] + x && b == [b[0]] + y;
      if k: nat :| SmallerAt(x, y, k) {
        SmallerLater(a, b, k);
      }
      if k: nat :| SmallerAt(a, b, k) {
        SmallerEarlier(a, b, k);
      }
    } else if a != [] && b != [] && a[0] < b[0] {
      assert SmallerAt(a, b, 0);
    } else if k: nat :| SmallerAt(a, b, k) {
      CommonHead(a, b, k);
    }
  }

  lemma SmallerLater(a: Text, b: Text, k: nat)
    requires a != [] && b != [] && a[0] == b[0] && SmallerAt(a[1..], b[1..], k)
    ensures SmallerAt(a, b, k + 1)
  {
    assert a[..k + 1] == [a[0]] + a[1..][..k] && b[..k + 1] == [b[0]] + b[1..][..k];
  }

  lemma SmallerEarlier(a: Text, b: Text, k: nat)
    requires a != [] && b != [] && a[0] == b[0] && SmallerAt(a, b, k)
    ensures k > 0 && SmallerAt(a[1..], b[1..], k - 1)
  {
    assert a[1..][..k - 1] == a[..k][1..] && b[1..][..k - 1] == b[..k][1..];
  }

  /** A value under the text that it is sorted by. */
  datatype Keyed<T> = Keyed(key: Text, item: T)

  // A stable sort has one result, so insertion stands for whichever one the engine uses.
  function Insert<T>(x: Keyed<T>, s: seq<Keyed<T>>): (r: seq<Keyed<T>>)
    ensures |r| == |s| + 1 && multiset(r) == multiset{x} + multiset(s)
  {
    if s == [] then [x]
    else if AtMost(x.key, s[0].key) then [x] + s
    else
      assert s == [s[0]] + s[1..];
      [s[0]] + Insert(x, s[1..])
  }

  function Sort<T>(s: seq<Keyed<T>>): (r: seq<Keyed<T>>)
    ensures |r| == |s| && multiset(r) == multiset(s)
  {
    if s == [] then []
    else
      assert s == [s[0]] + s[1..];
      Insert(s[0], Sort(s[1..]))
  }

  ghost predicate Below<T>(x: Keyed<T>, s: seq<Keyed<T>>) {
    forall y :: y in s ==> AtMost(x.key, y.key)
  }

  ghost predicate Sorted<T>(s: seq<Keyed<T>>) {
    s == [] || (Below(s[0], s[1..]) && Sorted(s[1..]))
  }

  lemma {:induction false} InsertIsSorted<T>(x: Keyed<T>, s: seq<Keyed<T>>)
    requires Sorted(s)
    ensures Sorted(Insert(x, s))
  {
    if s != [] {
      if AtMost(x.key, s[0].key) {
        forall y | y in s ensures AtMost(x.key, y.key) {
          if y != s[0] {
            assert y in s[1..];
            AtMostIsTransitive(x.key, s[0].key, y.key);
          }
        }
        assert ([x] + s)[1..] == s;
      } else {
        AtMostIsTotal(x.key, s[0].key);
        InsertIsSorted(x, s[1..]);
        var r := Insert(x, s[1..]);
        forall y | y in r ensures AtMost(s[0].key, y.key) {
          assert y in multiset(r);
        }
        assert ([s[0]] + r)[1..] == r;
      }
    }
  }

  lemma {:induction false} SortIsSorted<T>(s: seq<Keyed<T>>)
    ensures Sorted(Sort(s))
  {
    if s != [] {
      SortIsSorted(s[1..]);
      InsertIsSorted(s[0], Sort(s[1..]));
    }
  }

  /** Equal keys belong to equal values. */
  ghost predicate KeysIdentify<T(!new)>(s: seq<Keyed<T>>) {
    forall x, y :: x in s && y in s && x.key == y.key ==> x == y
  }

  lemma TailOf<T>(s: seq<T>)
    requires s != []
    ensures multiset(s[1..]) == multiset(s) - multiset{s[0]}
  {
    assert s == [s[0]] + s[1..];
  }

  lemma SameHead<T(!new)>(a: seq<Keyed<T>>, b: seq<Keyed<T>>)
    requires Sorted(a) && Sorted(b) && multiset(a) == multiset(b) && KeysIdentify(a) && a != []
    ensures b != [] && a[0] == b[0]
  {
    assert a[0] in multiset(b);
    assert b[0] in multiset(a);
    AtMostIsReflexive(a[0].key);
    assert forall y :: y in a ==> y == a[0] || y in a[1..];
    assert forall y :: y in b ==> y == b[0] || y in b[1..];
    AtMostIsAntisymmetric(a[0].key, b[0].key);
  }

  /** Sorting forgets the order, and nothing else. */
  lemma {:induction false} SortedIsUnique<T(!new)>(a: seq<Keyed<T>>, b: seq<Keyed<T>>)
    requires Sorted(a) && Sorted(b) && multiset(a) == multiset(b) && KeysIdentify(a)
    ensures a == b
  {
    if a == [] {
      assert |multiset(b)| == 0;
    } else {
      SameHead(a, b);
      TailOf(a);
      TailOf(b);
      SortedIsUnique(a[1..], b[1..]);
      assert a == [a[0]] + a[1..] && b == [b[0]] + b[1..];
    }
  }

  /** The two directions together: sorted forms agree exactly when the inputs are
      permutations of each other. */
  lemma SortsAgree<T(!new)>(a: seq<Keyed<T>>, b: seq<Keyed<T>>)
    requires KeysIdentify(a)
    ensures Sort(a) == Sort(b) <==> multiset(a) == multiset(b)
  {
    if multiset(a) == multiset(b) {
      SortIsSorted(a);
      SortIsSorted(b);
      forall x | x in Sort(a) ensures x in a {
        assert x in multiset(Sort(a));
      }
      SortedIsUnique(Sort(a), Sort(b));
    } else {
      assert multiset(Sort(a)) != multiset(Sort(b));
    }
  }

  function Unkeyed<T>(s: seq<Keyed<T>>): (r: seq<T>)
    ensures |r| == |s| && forall i :: 0 <= i < |s| ==> r[i] == s[i].item
  {
    if s == [] then [] else [s[0].item] + Unkeyed(s[1..])
  }

  function Relabel<T, U>(f: T -> U, s: seq<Keyed<T>>): (r: seq<Keyed<U>>)
    ensures |r| == |s| && forall i :: 0 <= i < |s| ==> r[i] == Keyed(s[i].key, f(s[i].item))
  {
    if s == [] then [] else [Keyed(s[0].key, f(s[0].item))] + Relabel(f, s[1..])
  }

  lemma {:induction false} RelabelInsert<T, U>(f: T -> U, x: Keyed<T>, s: seq<Keyed<T>>)
    ensures Relabel(f, Insert(x, s)) == Insert(Keyed(x.key, f(x.item)), Relabel(f, s))
  {
    hide AtMost;
    if s != [] {
      RelabelInsert(f, x, s[1..]);
      assert Relabel(f, s)[1..] == Relabel(f, s[1..]);
      assert ([x] + s)[1..] == s;
      var r := Insert(x, s[1..]);
      assert ([s[0]] + r)[1..] == r;
    }
  }

  /** Sorting looks at keys only. */
  lemma {:induction false} RelabelSort<T, U>(f: T -> U, s: seq<Keyed<T>>)
    ensures Relabel(f, Sort(s)) == Sort(Relabel(f, s))
  {
    hide Insert;
    if s != [] {
      RelabelSort(f, s[1..]);
      RelabelInsert(f, s[0], Sort(s[1..]));
      assert Relabel(f, s)[1..] == Relabel(f, s[1..]);
    }
  }

  lemma {:induction false} SortedAt<T>(s: seq<Keyed<T>>, i: nat, j: nat)
    requires Sorted(s) && i < j < |s|
    ensures AtMost(s[i].key, s[j].key)
  {
    if i == 0 {
      assert s[j] in s[1..] by { assert s[1..][j - 1] == s[j]; }
    } else {
      SortedAt(s[1..], i - 1, j - 1);
    }
  }

  // Texts that are given as literals.
  function Ascii(s: string): (t: Text)
    ensures |t| == |s|
  {
    if s == "" then [] else [s[0] as int % 0x1_0000] + Ascii(s[1..])
  }

  lemma {:induction false} AsciiAt(s: string, i: nat)
    requires i < |s|
    ensures Ascii(s)[i] == s[i] as int % 0x1_0000
  {
    if i > 0 {
      AsciiAt(s[1..], i - 1);
    }
  }

  lemma AsciiDiffer(s: string, t: string, i: nat)
    requires i < |s| && i < |t| && s[i] as int % 0x1_0000 != t[i] as int % 0x1_0000
    ensures Ascii(s) != Ascii(t)
  {
    AsciiAt(s, i);
    AsciiAt(t, i);
  }
}
