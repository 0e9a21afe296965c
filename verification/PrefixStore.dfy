/** types/store.go PrefixEndBytes and store/prefixstore.go: the part of a store whose
    keys start with a given prefix, seen as a store of its own. */
module PrefixStore {
  import opened Bytes
  import opened Listing
  import opened Overlays
  import opened MergeIterator
  import opened CacheStore

  // ---------------------------------------------------------------- the end of a prefix

  /** The least byte string above every string with prefix p; none if there is no such string. */
  function PrefixEnd(p: bytes): (end: Option<bytes>)
    ensures end.Some? ==> end.value != []
  {
    if p == [] then None
    else if p[|p| - 1] != 255 then Some(p[..|p| - 1] + [p[|p| - 1] + 1])
    else PrefixEnd(p[..|p| - 1])
  }

  method PrefixEndBytes(prefix: bytes) returns (end: Option<bytes>)
    ensures end == PrefixEnd(prefix)
    ensures forall key :: prefix <= key <==> InDomain(key, prefix, end)
  {
    forall key
      ensures prefix <= key <==> InDomain(key, prefix, PrefixEnd(prefix))
    {
      PrefixRange(prefix, key);
    }
    hide InDomain;
    if |prefix| == 0 {
      return None;
    }
    var e := prefix;
    while true
      invariant e != [] && PrefixEnd(e) == PrefixEnd(prefix)
      decreases |e|
    {
      if e[|e| - 1] != 255 {
        assert e[|e| - 1 := e[|e| - 1] + 1] == e[..|e| - 1] + [e[|e| - 1] + 1];
        return Some(e[|e| - 1 := e[|e| - 1] + 1]);
      }
      e := e[..|e| - 1];
      if |e| == 0 {
        return None;
      }
    }
  }

  /** The end of a prefix, from its first byte on. */
  lemma {:induction false} PrefixEndFront(a: byte, q: bytes)
    ensures PrefixEnd([a] + q) ==
            if PrefixEnd(q).Some? then Some([a] + PrefixEnd(q).value)
            else if a != 255 then Some([a + 1]) else None
  {
    var p := [a] + q;
    if q == [] {
      assert p == [a] && p[..|p| - 1] == [];
      assert a != 255 ==> [] + [a + 1] == [a + 1];
    } else {
      var n := |q| - 1;
      assert p[..|p| - 1] == [a] + q[..n];
      assert p[|p| - 1] == q[n];
      if q[n] == 255 {
        PrefixEndFront(a, q[..n]);
      } else {
        assert p[..|p| - 1] + [q[n] + 1] == [a] + (q[..n] + [q[n] + 1]);
      }
    }
  }

  /** A key has prefix p exactly when it lies between p and the end of p. */
  lemma {:induction false} PrefixRange(p: bytes, key: bytes)
    ensures p <= key <==> InDomain(key, p, PrefixEnd(p))
  {
    if p != [] {
      var a, q := p[0], p[1..];
      assert p == [a] + q;
      PrefixEndFront(a, q);
      if key != [] {
        PrefixRange(q, key[1..]);
        assert key == [key[0]] + key[1..];
        assert p <= key <==> a == key[0] && q <= key[1..];
        var e := PrefixEnd(q);
        assert e.Some? ==> ([a] + e.value)[1..] == e.value;
        assert a != 255 ==> [a + 1][1..] == [];
        assert Less(key, p) <==> key[0] < a || (key[0] == a && Less(key[1..], q));
        if e.Some? {
          assert Less(key, [a] + e.value) <==> key[0] < a || (key[0] == a && Less(key[1..], e.value));
        } else if a != 255 {
          assert Less(key, [a + 1]) <==> key[0] <= a;
        }
      }
    }
  }

  // ---------------------------------------------------------------- the part of a map under a prefix

  /** The entries under prefix p, with the prefix stripped. */
  function Under(m: map<bytes, bytes>, p: bytes): map<bytes, bytes>
  {
    map k | k in (set j | j in m && p <= j :: j[|p|..]) && p + k in m :: m[p + k]
  }

  lemma UnderLookup(m: map<bytes, bytes>, p: bytes, k: bytes)
    ensures Lookup(Under(m, p), k) == Lookup(m, p + k)
  {
    if p + k in m {
      assert p <= p + k && (p + k)[|p|..] == k;
    }
  }

  lemma SameUnder(m: map<bytes, bytes>, p: bytes, n: map<bytes, bytes>)
    requires forall k :: Lookup(n, k) == Lookup(m, p + k)
    ensures Under(m, p) == n
  {
    forall k
      ensures Lookup(Under(m, p), k) == Lookup(n, k)
    {
      UnderLookup(m, p, k);
    }
    SameLookups(Under(m, p), n);
  }

  /** A prefix of a prefix is one longer prefix. */
  lemma NestedPrefix(m: map<bytes, bytes>, p: bytes, q: bytes)
    ensures Under(Under(m, p), q) == Under(m, p + q)
  {
    forall k
      ensures Lookup(Under(m, p + q), k) == Lookup(Under(m, p), q + k)
    {
      UnderLookup(m, p + q, k);
      UnderLookup(m, p, q + k);
      Assoc(p, q, k);
    }
    SameUnder(Under(m, p), q, Under(m, p + q));
  }

  /** Writing under a prefix is writing in the part under it. */
  lemma UnderEdit(m: map<bytes, bytes>, p: bytes, k: bytes, v: bytes)
    ensures Under(m[p + k := v], p) == Under(m, p)[k := v]
    ensures Under(m - {p + k}, p) == Under(m, p) - {k}
  {
    forall j
      ensures Lookup(Under(m, p)[k := v], j) == Lookup(m[p + k := v], p + j)
      ensures Lookup(Under(m, p) - {k}, j) == Lookup(m - {p + k}, p + j)
    {
      UnderLookup(m, p, j);
      SameTail(p, k, j);
    }
    SameUnder(m[p + k := v], p, Under(m, p)[k := v]);
    SameUnder(m - {p + k}, p, Under(m, p) - {k});
  }

  lemma SameTail(p: bytes, a: bytes, b: bytes)
    ensures p + a == p + b <==> a == b
  {
    assert (p + a)[|p|..] == a && (p + b)[|p|..] == b;
  }

  /** A key under two prefixes shows that one extends the other. */
  lemma CommonKey(p: bytes, k: bytes, q: bytes, j: bytes)
    ensures p + k == q + j ==> p <= q || q <= p
  {
    if p + k == q + j {
      if |p| <= |q| {
        assert q[..|p|] == (q + j)[..|p|] == p;
      } else {
        assert p[..|q|] == (p + k)[..|q|] == q;
      }
    }
  }

  /** Prefixes of which neither extends the other never interfere. */
  lemma DisjointPrefixes(m: map<bytes, bytes>, p: bytes, q: bytes, k: bytes, v: bytes)
    requires !(p <= q) && !(q <= p)
    ensures Under(m[p + k := v], q) == Under(m, q) == Under(m - {p + k}, q)
  {
    forall j
      ensures Lookup(Under(m, q), j) == Lookup(m[p + k := v], q + j) == Lookup(m - {p + k}, q + j)
    {
      UnderLookup(m, q, j);
      CommonKey(p, k, q, j);
    }
    SameUnder(m[p + k := v], q, Under(m, q));
    SameUnder(m - {p + k}, q, Under(m, q));
  }

  // ---------------------------------------------------------------- iteration

  /** The part of the parent's domain that a domain under the prefix stands for. */
  function NewEnd(p: bytes, end: Option<bytes>): Option<bytes>
  {
    if end == None then PrefixEnd(p) else Some(p + end.value)
  }

  /** The parent keys in the translated domain are exactly the prefixed keys of the domain. */
  lemma DomainUnder(p: bytes, start: bytes, end: Option<bytes>, key: bytes)
    ensures InDomain(key, p + start, NewEnd(p, end)) <==> p <= key && InDomain(key[|p|..], start, end)
  {
    if p <= key {
      var k := key[|p|..];
      assert key == p + k;
      LessCommonPrefix(p, k, start);
      if end.Some? {
        LessCommonPrefix(p, k, end.value);
      }
      PrefixRange(p, key);
    } else {
      PrefixRange(p, key);
      NotUnder(p, start, key);
      if end.Some? {
        NotUnder(p, end.value, key);
      }
    }
  }

  lemma PrefixTail(p: bytes, key: bytes)
    requires p != [] && key != [] && key[0] == p[0]
    ensures p <= key <==> p[1..] <= key[1..]
  {
    assert p == [p[0]] + p[1..] && key == [key[0]] + key[1..];
  }

  /** A key without prefix p is on the same side of all the keys with it. */
  lemma {:induction false} NotUnder(p: bytes, t: bytes, key: bytes)
    requires !(p <= key)
    ensures Less(key, p + t) <==> Less(key, p)
    ensures Less(key, p) || InDomain(key, p, None)
  {
    if p != [] && key != [] && key[0] == p[0] {
      assert (p + t)[1..] == p[1..] + t;
      PrefixTail(p, key);
      NotUnder(p[1..], t, key[1..]);
    }
  }

  function Strip(xs: seq<Pair<bytes>>, p: bytes): seq<Pair<bytes>>
  {
    if xs == [] || !(p <= xs[0].key) then []
    else [Pair(xs[0].key[|p|..], xs[0].value)] + Strip(xs[1..], p)
  }

  /** Stripping a listing of prefixed keys gives the listing of the part under the prefix. */
  lemma {:induction false} StripListing(xs: seq<Pair<bytes>>, p: bytes, asc: bool)
    requires Sorted(xs, asc) && forall i :: 0 <= i < |xs| ==> p <= xs[i].key
    ensures Sorted(Strip(xs, p), asc)
    ensures |Strip(xs, p)| == |xs| && forall i :: 0 <= i < |xs| ==> Strip(xs, p)[i] == Pair(xs[i].key[|p|..], xs[i].value)
    ensures MapOf(Strip(xs, p)) == Under(MapOf(xs), p)
  {
    if xs == [] {
      SameUnder(map[], p, map[]);
    } else {
      StripListing(xs[1..], p, asc);
      var k, t := xs[0].key[|p|..], Strip(xs[1..], p);
      assert xs[0].key == p + k;
      forall i | 0 <= i < |t|
        ensures Before(k, t[i].key, asc)
      {
        assert xs[1..][i].key == p + t[i].key;
        LessCommonPrefix(p, k, t[i].key);
        LessCommonPrefix(p, t[i].key, k);
      }
      assert Strip(xs, p)[1..] == t;
      UnderEdit(MapOf(xs[1..]), p, k, xs[0].value);
    }
  }

  /** prefixIterator: strips the prefix from each key, and ends where keys leave the prefix. */
  class PrefixIterator {
    const prefix: bytes
    const iter: MemIterator<bytes>
    var valid: bool

    constructor (prefix: bytes, iter: MemIterator<bytes>)
      ensures this.prefix == prefix && this.iter == iter && Consistent()
    {
      this.prefix, this.iter := prefix, iter;
      valid := iter.Valid() && prefix <= iter.Key();
    }

    ghost predicate Consistent()
      reads this, iter
    {
      valid <==> iter.items != [] && prefix <= iter.items[0].key
    }

    ghost function View(): seq<Pair<bytes>>
      reads this, iter
    {
      Strip(iter.items, prefix)
    }

    predicate Valid()
      reads this, iter
    {
      valid && iter.Valid()
    }

    method Next()
      requires Consistent() && Valid()
      modifies this, iter
      ensures Consistent() && View() == old(View())[1..]
    {
      iter.Next();
      if !iter.Valid() || !(prefix <= iter.Key()) {
        valid := false;
      }
    }

    function Key(): (k: bytes)
      requires Consistent() && Valid()
      reads this, iter
      ensures k == View()[0].key
    {
      iter.Key()[|prefix|..]
    }

    function Value(): (v: bytes)
      requires Consistent() && Valid()
      reads this, iter
      ensures v == View()[0].value
    {
      iter.Value()
    }
  }

  /** A whole walk with a prefix iterator. */
  method StripAll(items: seq<Pair<bytes>>, p: bytes) returns (out: seq<Pair<bytes>>)
    ensures out == Strip(items, p)
  {
    WholeDomain(items);
    var iter := new MemIterator([], None, items);
    var it := new PrefixIterator(p, iter);
    out := [];
    while it.Valid()
      invariant it.Consistent() && fresh(it) && fresh(it.iter)
      invariant out + it.View() == Strip(items, p)
      decreases |it.View()|
    {
      ghost var view := it.View();
      assert view == [view[0]] + view[1..];
      Assoc(out, [view[0]], view[1..]);
      out := out + [Pair(it.Key(), it.Value())];
      it.Next();
    }
  }

  lemma ListedUnder(items: seq<Pair<bytes>>, m: map<bytes, bytes>, p: bytes, start: bytes, end: Option<bytes>)
    requires MapOf(items) == RestrictMap(m, p + start, NewEnd(p, end))
    ensures forall i :: 0 <= i < |items| ==> p <= items[i].key
  {
    forall i | 0 <= i < |items|
      ensures p <= items[i].key
    {
      KeysOfMap(items);
      assert items[i].key in MapOf(items);
      DomainUnder(p, start, end, items[i].key);
    }
  }

  lemma RestrictUnder(m: map<bytes, bytes>, p: bytes, start: bytes, end: Option<bytes>)
    ensures Under(RestrictMap(m, p + start, NewEnd(p, end)), p) == RestrictMap(Under(m, p), start, end)
  {
    forall k
      ensures Lookup(RestrictMap(Under(m, p), start, end), k) == Lookup(RestrictMap(m, p + start, NewEnd(p, end)), p + k)
    {
      UnderLookup(m, p, k);
      DomainUnder(p, start, end, p + k);
      assert (p + k)[|p|..] == k;
    }
    SameUnder(RestrictMap(m, p + start, NewEnd(p, end)), p, RestrictMap(Under(m, p), start, end));
  }

  // ---------------------------------------------------------------- the store

  /** A store, or the part of one under a prefix. */
  datatype KV = Plain(store: Store) | Prefixed(parent: KV, prefix: bytes)

  function StoreOf(kv: KV): Store
  {
    match kv case Plain(s) => s case Prefixed(parent, _) => StoreOf(parent)
  }

  /** All prefixes together, outermost first. */
  function FullPrefix(kv: KV): bytes
  {
    match kv case Plain(_) => [] case Prefixed(parent, p) => FullPrefix(parent) + p
  }

  ghost function View(kv: KV): map<bytes, bytes>
    requires StoreOf(kv).Valid()
    reads StoreOf(kv), StoreOf(kv).chain
  {
    match kv
    case Plain(s) => s.View()
    case Prefixed(parent, p) => Under(View(parent), p)
  }

  /** However deeply prefixes are nested, the store shows the part under their concatenation. */
  lemma {:induction false} ViewIsUnder(kv: KV)
    requires StoreOf(kv).Valid()
    ensures View(kv) == Under(StoreOf(kv).View(), FullPrefix(kv))
  {
    match kv
    case Plain(s) =>
      forall k
        ensures Lookup(s.View(), k) == Lookup(s.View(), [] + k)
      {
        assert [] + k == k;
      }
      SameUnder(s.View(), [], s.View());
    case Prefixed(parent, p) =>
      ViewIsUnder(parent);
      NestedPrefix(StoreOf(kv).View(), FullPrefix(parent), p);
  }

  method Get(kv: KV, key: bytes) returns (value: Option<bytes>)
    requires StoreOf(kv).Valid()
    modifies StoreOf(kv).chain
    ensures StoreOf(kv).Valid() && StoreOf(kv).View() == old(StoreOf(kv).View())
    ensures value == Lookup(View(kv), key)
    decreases kv
  {
    match kv
    case Plain(s) =>
      value := s.Get(key);
    case Prefixed(parent, p) =>
      value := Get(parent, p + key);
      UnderLookup(View(parent), p, key);
  }

  method Set(kv: KV, key: bytes, value: bytes)
    requires StoreOf(kv).Valid()
    modifies StoreOf(kv)
    ensures StoreOf(kv).Valid() && StoreOf(kv).View() == old(StoreOf(kv).View())[FullPrefix(kv) + key := value]
    ensures View(kv) == old(View(kv))[key := value]
    decreases kv
  {
    match kv
    case Plain(s) =>
      assert [] + key == key;
      s.Set(key, value);
    case Prefixed(parent, p) =>
      ghost var m := View(parent);
      Set(parent, p + key, value);
      UnderEdit(m, p, key, value);
      Assoc(FullPrefix(parent), p, key);
  }

  method Delete(kv: KV, key: bytes)
    requires StoreOf(kv).Valid()
    modifies StoreOf(kv)
    ensures StoreOf(kv).Valid() && StoreOf(kv).View() == old(StoreOf(kv).View()) - {FullPrefix(kv) + key}
    ensures View(kv) == old(View(kv)) - {key}
    decreases kv
  {
    match kv
    case Plain(s) =>
      assert [] + key == key;
      s.Delete(key);
    case Prefixed(parent, p) =>
      ghost var m := View(parent);
      Delete(parent, p + key);
      UnderEdit(m, p, key, []);
      Assoc(FullPrefix(parent), p, key);
  }

  /** Iterator and ReverseIterator: exactly the entries under the prefix, within the
      domain, stripped and in key order. */
  method Iterate(kv: KV, start: bytes, end: Option<bytes>, asc: bool) returns (out: seq<Pair<bytes>>)
    requires StoreOf(kv).Valid()
    ensures Sorted(out, asc)
    ensures MapOf(out) == RestrictMap(View(kv), start, end)
    decreases kv, 1
  {
    match kv
    case Plain(s) =>
      out := s.Iterate(start, end, asc);
    case Prefixed(parent, p) =>
      out := IterateUnder(kv, start, end, asc);
  }

  method IterateUnder(kv: KV, start: bytes, end: Option<bytes>, asc: bool) returns (out: seq<Pair<bytes>>)
    requires kv.Prefixed? && StoreOf(kv).Valid()
    ensures Sorted(out, asc)
    ensures MapOf(out) == RestrictMap(View(kv), start, end)
    decreases kv, 0
  {
    hide RestrictMap, Under, MapOf, Sorted, Strip, PrefixEnd, InDomain, NewEnd, Overlay, Dirty;
    var parent, p := kv.parent, kv.prefix;
    assert StoreOf(kv) == StoreOf(parent);
    StoreAllocated(kv);
    var newend := EndUnder(p, end);
    ViewSame(kv);
    var items := Iterate(parent, p + start, newend, asc);
    ghost var m := View(parent);
    label walked:
    out := StripAll(items, p);
    WalkUnder(items, m, p, start, end, asc);
    ViewSame@walked(kv);
  }

  lemma {:induction false} StoreAllocated(kv: KV)
    ensures allocated(StoreOf(kv)) && allocated(StoreOf(kv).chain)
  {
    if kv.Prefixed? {
      StoreAllocated(kv.parent);
    }
  }

  twostate lemma ViewSame(kv: KV)
    requires old(StoreOf(kv).Valid()) && unchanged(StoreOf(kv).chain)
    ensures StoreOf(kv).Valid() && View(kv) == old(View(kv))
  {
    if kv.Prefixed? {
      ViewSame(kv.parent);
    }
  }

  /** The end of the domain in the parent. */
  method EndUnder(p: bytes, end: Option<bytes>) returns (newend: Option<bytes>)
    ensures newend == NewEnd(p, end)
  {
    if end == None {
      newend := PrefixEndBytes(p);
    } else {
      newend := Some(p + end.value);
    }
  }

  lemma WalkUnder(items: seq<Pair<bytes>>, m: map<bytes, bytes>, p: bytes, start: bytes, end: Option<bytes>, asc: bool)
    requires Sorted(items, asc) && MapOf(items) == RestrictMap(m, p + start, NewEnd(p, end))
    ensures Sorted(Strip(items, p), asc) && MapOf(Strip(items, p)) == RestrictMap(Under(m, p), start, end)
  {
    hide RestrictMap, Under, MapOf, Sorted, Strip, NewEnd;
    ListedUnder(items, m, p, start, end);
    StripListing(items, p, asc);
    RestrictUnder(m, p, start, end);
  }
}
