/** A write-back cache over a map, as values: what both the store cache and the
    account cache of the source keep, and what each shows. */
module Overlays {
  import opened Bytes
  import opened Listing

  /** A cached entry. Not dirty: a remembered read, possibly of nothing. */
  datatype CValue<+V> = CValue(value: Option<V>, deleted: bool, dirty: bool)

  function Lookup<V>(m: map<bytes, V>, k: bytes): Option<V>
  {
    if k in m then Some(m[k]) else None
  }

  lemma SameLookups<V>(a: map<bytes, V>, b: map<bytes, V>)
    requires forall k :: Lookup(a, k) == Lookup(b, k)
    ensures a == b
  {
    forall k
      ensures (k in a <==> k in b) && (k in a ==> a[k] == b[k])
    {
      assert Lookup(a, k) == Lookup(b, k);
    }
  }

  /** The cache laid over the parent: its values win, its tombstones delete. */
  function Overlay<V>(parent: map<bytes, V>, cache: map<bytes, Option<V>>): map<bytes, V>
  {
    map k | k in parent.Keys + cache.Keys && (k in cache ==> cache[k].Some?) ::
      if k in cache then cache[k].value else parent[k]
  }

  /** The entries that Write would send to the parent, and iterators show. */
  function Dirty<V>(cache: map<bytes, CValue<V>>): map<bytes, Option<V>>
  {
    map k | k in cache && cache[k].dirty :: cache[k].value
  }

  /** Sets have a value, deletes have none, and remembered reads agree with the parent. */
  ghost predicate Coherent<V>(cache: map<bytes, CValue<V>>, parent: map<bytes, V>)
  {
    forall k :: k in cache ==>
      && (cache[k].deleted ==> cache[k].dirty && cache[k].value.None?)
      && (cache[k].dirty && !cache[k].deleted ==> cache[k].value.Some?)
      && (!cache[k].dirty ==> cache[k].value == Lookup(parent, k))
  }

  lemma OverlayAdds<V>(pm: map<bytes, V>, cm: map<bytes, Option<V>>, e: Pair<Option<V>>)
    requires e.key !in pm && e.key !in cm
    ensures Overlay(pm, cm[e.key := e.value])
            == if e.value.Some? then Overlay(pm, cm)[e.key := e.value.value] else Overlay(pm, cm)
  {
  }

  lemma OverlayShadows<V>(pm: map<bytes, V>, cm: map<bytes, Option<V>>, v: V, e: Pair<Option<V>>)
    ensures Overlay(pm[e.key := v], cm[e.key := e.value]) == Overlay(pm, cm[e.key := e.value])
  {
  }

  lemma OverlayKeeps<V>(pm: map<bytes, V>, cm: map<bytes, Option<V>>, e: Pair<V>)
    requires e.key !in cm
    ensures Overlay(pm[e.key := e.value], cm) == Overlay(pm, cm)[e.key := e.value]
  {
  }

  lemma OverlayEdit<V>(parent: map<bytes, V>, dirty: map<bytes, Option<V>>, k: bytes, v: Option<V>)
    ensures Overlay(parent, dirty[k := v])
            == if v.Some? then Overlay(parent, dirty)[k := v.value] else Overlay(parent, dirty) - {k}
  {
  }

  lemma EmptyShows<V>(parent: map<bytes, V>)
    ensures Coherent(map[], parent) && Overlay(parent, Dirty(map[])) == parent == Overlay(parent, map[])
  {
  }

  /** Remembering a read changes nothing. */
  lemma Remembered<V>(cache: map<bytes, CValue<V>>, parent: map<bytes, V>, k: bytes)
    requires Coherent(cache, parent) && k !in cache
    ensures Coherent(cache[k := CValue(Lookup(parent, k), false, false)], parent)
    ensures Dirty(cache[k := CValue(Lookup(parent, k), false, false)]) == Dirty(cache)
    ensures Lookup(Overlay(parent, Dirty(cache)), k) == Lookup(parent, k)
  {
  }

  /** A cached entry is what the layer shows. */
  lemma CachedIsShown<V>(cache: map<bytes, CValue<V>>, parent: map<bytes, V>, k: bytes)
    requires Coherent(cache, parent) && k in cache
    ensures cache[k].value == Lookup(Overlay(parent, Dirty(cache)), k)
  {
  }

  lemma SetShows<V>(cache: map<bytes, CValue<V>>, parent: map<bytes, V>, k: bytes, v: V)
    requires Coherent(cache, parent)
    ensures Coherent(cache[k := CValue(Some(v), false, true)], parent)
    ensures Overlay(parent, Dirty(cache[k := CValue(Some(v), false, true)])) == Overlay(parent, Dirty(cache))[k := v]
  {
    assert Dirty(cache[k := CValue(Some(v), false, true)]) == Dirty(cache)[k := Some(v)];
    OverlayEdit(parent, Dirty(cache), k, Some(v));
  }

  lemma DeleteShows<V>(cache: map<bytes, CValue<V>>, parent: map<bytes, V>, k: bytes)
    requires Coherent(cache, parent)
    ensures Coherent(cache[k := CValue(None, true, true)], parent)
    ensures Overlay(parent, Dirty(cache[k := CValue(None, true, true)])) == Overlay(parent, Dirty(cache)) - {k}
  {
    assert Dirty(cache[k := CValue(None, true, true)]) == Dirty(cache)[k := None];
    OverlayEdit(parent, Dirty(cache), k, None);
  }

  /** The part of a map at some keys. */
  function Among<V>(m: map<bytes, V>, keys: set<bytes>): map<bytes, V>
  {
    map k | k in m && k in keys :: m[k]
  }

  lemma AmongGrows<V>(m: map<bytes, V>, keys: set<bytes>, k: bytes)
    requires k in m
    ensures Among(m, keys + {k}) == Among(m, keys)[k := m[k]]
  {
  }

  lemma AmongNoneOrAll<V>(m: map<bytes, V>, keys: set<bytes>)
    ensures Among(m, {}) == map[]
    ensures m.Keys <= keys ==> Among(m, keys) == m
  {
  }

  lemma DirtyKeys<V>(cache: map<bytes, CValue<V>>, parent: map<bytes, V>)
    requires Coherent(cache, parent)
    ensures forall k :: k in Dirty(cache) <==> k in cache && cache[k].dirty
    ensures forall k :: k in cache && cache[k].dirty ==> Dirty(cache)[k] == cache[k].value && (cache[k].deleted <==> cache[k].value.None?)
    ensures forall k :: k in cache && cache[k].deleted ==> cache[k].dirty
  {
  }

  // ---------------------------------------------------------------- visiting dirty entries

  /** Where sorting puts an entry with a new key. */
  function Insert<V>(e: Pair<V>, xs: seq<Pair<V>>, asc: bool): (r: seq<Pair<V>>)
    requires Sorted(xs, asc) && e.key !in MapOf(xs)
    ensures Sorted(r, asc) && MapOf(r) == MapOf(xs)[e.key := e.value]
  {
    if xs == [] then [e]
    else if Before(e.key, xs[0].key, asc) then
      AllAfterTransitive(e.key, xs[0].key, xs[1..], asc);
      assert ([e] + xs)[1..] == xs;
      [e] + xs
    else
      BeforeOrder(e.key, xs[0].key, asc);
      var t := Insert(e, xs[1..], asc);
      AfterByKeys(xs[0].key, xs[1..], asc);
      AfterByKeys(xs[0].key, t, asc);
      assert ([xs[0]] + t)[1..] == t;
      [xs[0]] + t
  }

  /** The entries of a map in key order. Go's map iteration gives them in any order, and they are sorted. */
  method ListMap<V>(m: map<bytes, V>, asc: bool) returns (out: seq<Pair<V>>)
    ensures Sorted(out, asc) && MapOf(out) == m
  {
    out := [];
    var pending := m.Keys;
    while pending != {}
      invariant Sorted(out, asc) && pending <= m.Keys
      invariant MapOf(out) == map k | k in m && k !in pending :: m[k]
      decreases pending
    {
      var k :| k in pending;
      pending := pending - {k};
      out := Insert(Pair(k, m[k]), out, asc);
    }
  }

  lemma DirtyEntry<V>(cache: map<bytes, CValue<V>>, parent: map<bytes, V>, items: seq<Pair<Option<V>>>, i: nat)
    requires Coherent(cache, parent) && MapOf(items) == Dirty(cache) && Sorted(items, true) && i < |items|
    ensures var e := items[i];
            && e.key in cache && cache[e.key].dirty && cache[e.key].value == e.value
            && (cache[e.key].deleted <==> e.value.None?)
  {
    SortedLookup(items, i);
  }

  lemma {:induction false} SortedLookup<V>(items: seq<Pair<V>>, i: nat)
    requires Sorted(items, true) && i < |items|
    ensures items[i].key in MapOf(items) && MapOf(items)[items[i].key] == items[i].value
  {
    if i > 0 {
      SortedLookup(items[1..], i - 1);
      AfterIsAbsent(items[0].key, items[1..], true);
    }
  }

  /** One more entry of a listing adds one more entry to the map listed. */
  lemma NextItem<V>(items: seq<Pair<V>>, i: nat)
    requires Sorted(items, true) && i < |items|
    ensures MapOf(items[..i + 1]) == MapOf(items[..i])[items[i].key := items[i].value]
  {
    KeysDistinct(items, i);
    KeysOfMap(items[..i]);
    assert items[..i + 1] == items[..i] + [items[i]];
    MapOfSnoc(items[..i], items[i]);
  }

  lemma {:induction false} MapOfSnoc<V>(xs: seq<Pair<V>>, e: Pair<V>)
    requires e.key !in MapOf(xs)
    ensures MapOf(xs + [e]) == MapOf(xs)[e.key := e.value]
  {
    if xs == [] {
      assert [e][1..] == [];
      assert xs + [e] == [e];
    } else {
      assert (xs + [e])[1..] == xs[1..] + [e];
      MapOfSnoc(xs[1..], e);
    }
  }

  lemma {:induction false} KeysDistinct<V>(items: seq<Pair<V>>, i: nat)
    requires Sorted(items, true) && i < |items|
    ensures forall j :: 0 <= j < i ==> items[j].key != items[i].key
  {
    if i > 0 {
      KeysDistinct(items[1..], i - 1);
      BeforeOrder(items[0].key, items[i].key, true);
      assert items[i] == items[1..][i - 1];
      assert forall j :: 0 < j < i ==> items[j] == items[1..][j - 1];
    }
  }
}
