/** Sorting the names of an object, and why the result does not depend on the order they came in. */
module KeySort {
  import opened Basics
  import opened KeyOrder

  function Insert<V>(style: Style, e: Entry<V>, es: seq<Entry<V>>): seq<Entry<V>> {
    if es == [] || Less(style, e.key, es[0].key) then [e] + es
    else [es[0]] + Insert(style, e, es[1..])
  }

  function Sort<V>(style: Style, es: seq<Entry<V>>): seq<Entry<V>> {
    if es == [] then [] else Insert(style, es[0], Sort(style, es[1..]))
  }

  ghost predicate DistinctKeys<V>(es: seq<Entry<V>>) {
    forall i, j :: 0 <= i < j < |es| ==> es[i].key != es[j].key
  }

  ghost predicate Sorted<V>(style: Style, es: seq<Entry<V>>) {
    forall i, j :: 0 <= i < j < |es| ==> Less(style, es[i].key, es[j].key)
  }

  lemma {:induction false} InsertMembers<V>(style: Style, e: Entry<V>, es: seq<Entry<V>>)
    ensures multiset(Insert(style, e, es)) == multiset(es) + multiset{e}
  {
    if es != [] && !Less(style, e.key, es[0].key) {
      InsertMembers(style, e, es[1..]);
      assert es == [es[0]] + es[1..];
    }
  }

  lemma {:induction false} SortMembers<V>(style: Style, es: seq<Entry<V>>)
    ensures multiset(Sort(style, es)) == multiset(es)
    ensures |Sort(style, es)| == |es|
  {
    if es != [] {
      SortMembers(style, es[1..]);
      InsertMembers(style, es[0], Sort(style, es[1..]));
      assert es == [es[0]] + es[1..];
    }
    assert |multiset(Sort(style, es))| == |multiset(es)|;
  }

  lemma {:induction false} InsertSorted<V>(style: Style, e: Entry<V>, es: seq<Entry<V>>)
    requires Sorted(style, es)
    requires forall x :: x in es ==> x.key != e.key
    ensures Sorted(style, Insert(style, e, es))
  {
    if es == [] {
    } else if Less(style, e.key, es[0].key) {
      forall i | 1 <= i < |es| ensures Less(style, e.key, es[i].key) {
        StrictTotalOrder(style, e.key, es[0].key, es[i].key);
      }
    } else {
      var rest := Insert(style, e, es[1..]);
      InsertSorted(style, e, es[1..]);
      InsertMembers(style, e, es[1..]);
      StrictTotalOrder(style, e.key, es[0].key, e.key);
      forall i | 0 <= i < |rest| ensures Less(style, es[0].key, rest[i].key) {
        assert rest[i] in multiset(rest);
        assert rest[i] == e || rest[i] in es[1..];
      }
    }
  }

  /** Sorting distinct names puts them in strictly ascending order. */
  lemma {:induction false} SortSorted<V>(style: Style, es: seq<Entry<V>>)
    requires DistinctKeys(es)
    ensures Sorted(style, Sort(style, es))
  {
    if es != [] {
      SortSorted(style, es[1..]);
      SortMembers(style, es[1..]);
      forall x | x in Sort(style, es[1..]) ensures x.key != es[0].key {
        assert x in multiset(es[1..]);
      }
      InsertSorted(style, es[0], Sort(style, es[1..]));
    }
  }

  /** The head of a sorted sequence is the only member with nothing below it. */
  lemma SortedHeads<V>(style: Style, a: seq<Entry<V>>, b: seq<Entry<V>>)
    requires Sorted(style, a) && Sorted(style, b)
    requires a != [] && b != []
    requires forall x :: x in a <==> x in b
    ensures a[0] == b[0]
    ensures forall x :: x in a[1..] <==> x in b[1..]
  {
    assert a[0] in b && b[0] in a;
    var i :| 0 <= i < |b| && b[i] == a[0];
    var j :| 0 <= j < |a| && a[j] == b[0];
    StrictTotalOrder(style, a[0].key, b[0].key, a[0].key);
    SortedTail(style, a);
    SortedTail(style, b);
  }

  lemma SortedTail<V>(style: Style, a: seq<Entry<V>>)
    requires Sorted(style, a) && a != []
    ensures forall x :: x in a[1..] <==> x in a && x != a[0]
  {
    forall x | x in a[1..] ensures x != a[0] {
      StrictTotalOrder(style, x.key, x.key, x.key);
    }
    assert a == [a[0]] + a[1..];
  }

  lemma {:induction false} SortedUnique<V>(style: Style, a: seq<Entry<V>>, b: seq<Entry<V>>)
    requires Sorted(style, a) && Sorted(style, b)
    requires forall x :: x in a <==> x in b
    ensures a == b
  {
    if a == [] {
      assert forall i :: 0 <= i < |b| ==> b[i] in a;
    } else {
      assert a[0] in b;
      SortedHeads(style, a, b);
      SortedUnique(style, a[1..], b[1..]);
      assert a == [a[0]] + a[1..] && b == [b[0]] + b[1..];
    }
  }

  /** Two objects sort to the same sequence exactly when they have the same members. */
  lemma SortCanonical<V>(style: Style, a: seq<Entry<V>>, b: seq<Entry<V>>)
    requires DistinctKeys(a) && DistinctKeys(b)
    ensures Sort(style, a) == Sort(style, b) <==> forall x :: x in a <==> x in b
  {
    SortMembers(style, a);
    SortMembers(style, b);
    assert forall x :: x in a <==> x in multiset(a);
    assert forall x :: x in b <==> x in multiset(b);
    if forall x :: x in a <==> x in b {
      SortSorted(style, a);
      SortSorted(style, b);
      forall x ensures x in Sort(style, a) <==> x in Sort(style, b) {
        assert x in Sort(style, a) <==> x in multiset(Sort(style, a));
        assert x in Sort(style, b) <==> x in multiset(Sort(style, b));
      }
      SortedUnique(style, Sort(style, a), Sort(style, b));
    }
  }
}
