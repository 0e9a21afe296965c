/** Key-value listings in key order, ascending or descending: what every store
    iterator of the source walks through. */
module Listing {
  import opened Bytes

  datatype Pair<+V> = Pair(key: bytes, value: V)

  predicate Before(a: bytes, b: bytes, ascending: bool)
  {
    if ascending then Less(a, b) else Less(b, a)
  }

  lemma BeforeOrder(a: bytes, b: bytes, asc: bool)
    ensures Before(a, b, asc) ==> a != b && !Before(b, a, asc)
    ensures a != b ==> Before(a, b, asc) || Before(b, a, asc)
  {
    CompareTotal(a, b);
    CompareTotal(b, a);
  }

  lemma BeforeTransitive(a: bytes, b: bytes, c: bytes, asc: bool)
    requires Before(a, b, asc) && Before(b, c, asc)
    ensures Before(a, c, asc)
  {
    if asc {
      LessTransitive(a, b, c);
    } else {
      LessTransitive(c, b, a);
    }
  }

  /** Every key of xs comes after k. */
  predicate AllAfter<V>(k: bytes, xs: seq<Pair<V>>, asc: bool)
  {
    forall i :: 0 <= i < |xs| ==> Before(k, xs[i].key, asc)
  }

  /** Strict key order, hence every key once. */
  predicate Sorted<V>(xs: seq<Pair<V>>, asc: bool)
  {
    xs != [] ==> AllAfter(xs[0].key, xs[1..], asc) && Sorted(xs[1..], asc)
  }

  function MapOf<V>(xs: seq<Pair<V>>): map<bytes, V>
  {
    if xs == [] then map[] else MapOf(xs[1..])[xs[0].key := xs[0].value]
  }

  lemma {:induction false} AllAfterTransitive<V>(a: bytes, b: bytes, xs: seq<Pair<V>>, asc: bool)
    requires Before(a, b, asc) && AllAfter(b, xs, asc)
    ensures AllAfter(a, xs, asc)
  {
    forall i | 0 <= i < |xs|
      ensures Before(a, xs[i].key, asc)
    {
      BeforeTransitive(a, b, xs[i].key, asc);
    }
  }

  lemma {:induction false} SortedAdjacent<V>(xs: seq<Pair<V>>, asc: bool, i: nat)
    requires Sorted(xs, asc) && 0 < i < |xs|
    ensures Before(xs[i - 1].key, xs[i].key, asc)
  {
    assert xs[i] == xs[1..][i - 1];
    if i > 1 {
      assert xs[i - 1] == xs[1..][i - 2];
      SortedAdjacent(xs[1..], asc, i - 1);
    }
  }

  lemma {:induction false} KeysOfMap<V>(xs: seq<Pair<V>>)
    ensures forall i :: 0 <= i < |xs| ==> xs[i].key in MapOf(xs)
    ensures forall k :: k in MapOf(xs) ==> exists i :: 0 <= i < |xs| && xs[i].key == k
  {
    if xs != [] {
      KeysOfMap(xs[1..]);
      forall i | 0 <= i < |xs|
        ensures xs[i].key in MapOf(xs)
      {
        if i > 0 {
          assert xs[i] == xs[1..][i - 1];
        }
      }
      forall k | k in MapOf(xs)
        ensures exists i :: 0 <= i < |xs| && xs[i].key == k
      {
        if k != xs[0].key {
          var i :| 0 <= i < |xs[1..]| && xs[1..][i].key == k;
          assert xs[i + 1].key == k;
        }
      }
    }
  }

  /** A key before all of xs is not among them. */
  lemma AfterIsAbsent<V>(k: bytes, xs: seq<Pair<V>>, asc: bool)
    requires AllAfter(k, xs, asc)
    ensures k !in MapOf(xs)
  {
    KeysOfMap(xs);
    BeforeOrder(k, k, asc);
  }

  lemma AfterByKeys<V>(k: bytes, xs: seq<Pair<V>>, asc: bool)
    ensures AllAfter(k, xs, asc) <==> forall j :: j in MapOf(xs) ==> Before(k, j, asc)
  {
    KeysOfMap(xs);
  }

  /** There is only one listing of a map in a given direction. */
  lemma {:induction false} ListingUnique<V>(xs: seq<Pair<V>>, ys: seq<Pair<V>>, asc: bool)
    requires Sorted(xs, asc) && Sorted(ys, asc) && MapOf(xs) == MapOf(ys)
    ensures xs == ys
  {
    if xs == [] || ys == [] {
      KeysOfMap(xs);
      KeysOfMap(ys);
    } else {
      FirstKey(xs, ys, asc);
      FirstKey(ys, xs, asc);
      BeforeOrder(xs[0].key, ys[0].key, asc);
      var k := xs[0].key;
      AfterIsAbsent(k, xs[1..], asc);
      AfterIsAbsent(k, ys[1..], asc);
      assert MapOf(xs)[k] == xs[0].value && MapOf(ys)[k] == ys[0].value;
      assert MapOf(xs[1..]) == MapOf(xs) - {k} == MapOf(ys) - {k} == MapOf(ys[1..]);
      ListingUnique(xs[1..], ys[1..], asc);
      assert xs == [xs[0]] + xs[1..] && ys == [ys[0]] + ys[1..];
    }
  }

  lemma FirstKey<V>(xs: seq<Pair<V>>, ys: seq<Pair<V>>, asc: bool)
    requires xs != [] && ys != [] && Sorted(xs, asc) && MapOf(xs) == MapOf(ys)
    ensures xs[0].key == ys[0].key || Before(xs[0].key, ys[0].key, asc)
  {
    KeysOfMap(xs);
    KeysOfMap(ys);
    var i :| 0 <= i < |xs| && xs[i].key == ys[0].key;
    if i > 0 {
      assert xs[i] == xs[1..][i - 1];
    }
  }

  lemma {:induction false} KeysOrdered<V>(xs: seq<Pair<V>>, i: nat, j: nat)
    requires Sorted(xs, true) && i < j < |xs|
    ensures Less(xs[i].key, xs[j].key)
  {
    if i > 0 {
      KeysOrdered(xs[1..], i - 1, j - 1);
    } else {
      assert xs[j] == xs[1..][j - 1];
    }
  }
}
