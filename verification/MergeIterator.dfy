/** store/cachemergeiterator.go and store/memiterator.go: walking a parent store and
    the dirty entries of a cache together, the cache shadowing the parent and its
    tombstones (no value) hiding parent entries. */
module MergeIterator {
  import opened Bytes
  import opened Listing
  import opened Overlays

  // ---------------------------------------------------------------- what is walked

  /** The merged listing, taken from the fronts of both. */
  function Merge(p: seq<Pair<bytes>>, c: seq<Pair<Option<bytes>>>, asc: bool): seq<Pair<bytes>>
    decreases |p| + |c|
  {
    if c == [] then p
    else if p == [] || Before(c[0].key, p[0].key, asc) then Live(c[0]) + Merge(p, c[1..], asc)
    else if p[0].key == c[0].key then Live(c[0]) + Merge(p[1..], c[1..], asc)
    else [p[0]] + Merge(p[1..], c, asc)
  }

  function Live(e: Pair<Option<bytes>>): seq<Pair<bytes>>
  {
    if e.value.None? then [] else [Pair(e.key, e.value.value)]
  }

  lemma {:induction false} MergeAfter(k: bytes, p: seq<Pair<bytes>>, c: seq<Pair<Option<bytes>>>, asc: bool)
    requires AllAfter(k, p, asc) && AllAfter(k, c, asc)
    ensures AllAfter(k, Merge(p, c, asc), asc)
    decreases |p| + |c|
  {
    if c != [] {
      if p == [] || Before(c[0].key, p[0].key, asc) {
        MergeAfter(k, p, c[1..], asc);
      } else if p[0].key == c[0].key {
        MergeAfter(k, p[1..], c[1..], asc);
      } else {
        MergeAfter(k, p[1..], c, asc);
      }
    }
  }

  /** The merged listing is in strict key order and lists exactly the overlaid map. */
  lemma {:induction false} MergeIsOverlay(p: seq<Pair<bytes>>, c: seq<Pair<Option<bytes>>>, asc: bool)
    requires Sorted(p, asc) && Sorted(c, asc)
    ensures Sorted(Merge(p, c, asc), asc)
    ensures MapOf(Merge(p, c, asc)) == Overlay(MapOf(p), MapOf(c))
    decreases |p| + |c|
  {
    if c == [] {
      assert Overlay(MapOf(p), map[]) == MapOf(p);
    } else if p == [] || Before(c[0].key, p[0].key, asc) {
      MergeIsOverlay(p, c[1..], asc);
      if p != [] {
        AllAfterTransitive(c[0].key, p[0].key, p[1..], asc);
      }
      Consed(c[0], p, c[1..], asc);
      OverlayAdds(MapOf(p), MapOf(c[1..]), c[0]);
    } else if p[0].key == c[0].key {
      MergeIsOverlay(p[1..], c[1..], asc);
      Consed(c[0], p[1..], c[1..], asc);
      OverlayAdds(MapOf(p[1..]), MapOf(c[1..]), c[0]);
      OverlayShadows(MapOf(p[1..]), MapOf(c[1..]), p[0].value, c[0]);
    } else {
      BeforeOrder(p[0].key, c[0].key, asc);
      MergeIsOverlay(p[1..], c, asc);
      AllAfterTransitive(p[0].key, c[0].key, c[1..], asc);
      ParentFirst(p, c, asc);
    }
  }

  lemma ParentFirst(p: seq<Pair<bytes>>, c: seq<Pair<Option<bytes>>>, asc: bool)
    requires p != [] && Sorted(p, asc) && AllAfter(p[0].key, c, asc)
    requires Sorted(Merge(p[1..], c, asc), asc)
    requires MapOf(Merge(p[1..], c, asc)) == Overlay(MapOf(p[1..]), MapOf(c))
    ensures Sorted([p[0]] + Merge(p[1..], c, asc), asc)
    ensures MapOf([p[0]] + Merge(p[1..], c, asc)) == Overlay(MapOf(p), MapOf(c))
  {
    hide Merge;
    var rest := Merge(p[1..], c, asc);
    var all := [p[0]] + rest;
    assert all[0] == p[0] && all[1..] == rest;
    MergeAfter(p[0].key, p[1..], c, asc);
    AfterIsAbsent(p[0].key, c, asc);
    OverlayKeeps(MapOf(p[1..]), MapOf(c), p[0]);
  }

  lemma Consed(e: Pair<Option<bytes>>, p: seq<Pair<bytes>>, c: seq<Pair<Option<bytes>>>, asc: bool)
    requires AllAfter(e.key, p, asc) && AllAfter(e.key, c, asc)
    requires Sorted(Merge(p, c, asc), asc)
    ensures Sorted(Live(e) + Merge(p, c, asc), asc)
    ensures MapOf(Live(e) + Merge(p, c, asc))
            == if e.value.Some? then MapOf(Merge(p, c, asc))[e.key := e.value.value] else MapOf(Merge(p, c, asc))
    ensures e.key !in MapOf(p) && e.key !in MapOf(c)
  {
    MergeAfter(e.key, p, c, asc);
    AfterIsAbsent(e.key, p, asc);
    AfterIsAbsent(e.key, c, asc);
    var rest := Merge(p, c, asc);
    if e.value.None? {
      assert Live(e) + rest == rest;
    } else {
      var all := Live(e) + rest;
      assert all[0] == Pair(e.key, e.value.value) && all[1..] == rest;
    }
  }

  // ---------------------------------------------------------------- iterators

  /** The half-open range [start, end); no end means unbounded. */
  predicate InDomain(key: bytes, start: bytes, end: Option<bytes>)
  {
    !Less(key, start) && (end.Some? ==> Less(key, end.value))
  }

  function Restrict<V>(xs: seq<Pair<V>>, start: bytes, end: Option<bytes>): seq<Pair<V>>
  {
    if xs == [] then []
    else (if InDomain(xs[0].key, start, end) then [xs[0]] else []) + Restrict(xs[1..], start, end)
  }

  /** memIterator: walks a slice of items. */
  class MemIterator<V> {
    var items: seq<Pair<V>>

    constructor (start: bytes, end: Option<bytes>, items: seq<Pair<V>>)
      ensures this.items == Restrict(items, start, end)
    {
      var inDomain: seq<Pair<V>> := [];
      for i := 0 to |items|
        invariant inDomain + Restrict(items[i..], start, end) == Restrict(items, start, end)
      {
        RestrictStep(items[i..], inDomain, start, end);
        assert items[i..][1..] == items[i + 1..];
        if InDomain(items[i].key, start, end) {
          inDomain := inDomain + [items[i]];
        }
      }
      this.items := inDomain;
    }

    predicate Valid()
      reads this
    {
      |items| > 0
    }

    method Next()
      requires Valid()
      modifies this
      ensures items == old(items)[1..]
    {
      items := items[1..];
    }

    function Key(): bytes
      requires Valid()
      reads this
    {
      items[0].key
    }

    function Value(): V
      requires Valid()
      reads this
    {
      items[0].value
    }
  }

  lemma RestrictStep<V>(xs: seq<Pair<V>>, done: seq<Pair<V>>, start: bytes, end: Option<bytes>)
    requires xs != []
    ensures done + Restrict(xs, start, end)
            == (if InDomain(xs[0].key, start, end) then done + [xs[0]] else done) + Restrict(xs[1..], start, end)
  {
    Assoc(done, [xs[0]], Restrict(xs[1..], start, end));
  }

  function RestrictMap<V>(m: map<bytes, V>, start: bytes, end: Option<bytes>): map<bytes, V>
  {
    map k | k in m && InDomain(k, start, end) :: m[k]
  }

  lemma RestrictMapAdd<V>(m: map<bytes, V>, e: Pair<V>, start: bytes, end: Option<bytes>)
    requires e.key !in m
    ensures RestrictMap(m[e.key := e.value], start, end)
            == if InDomain(e.key, start, end) then RestrictMap(m, start, end)[e.key := e.value]
               else RestrictMap(m, start, end)
  {
  }

  /** Restricting a listing keeps its order, and restricts the map it lists. */
  lemma {:induction false} RestrictListing<V>(xs: seq<Pair<V>>, start: bytes, end: Option<bytes>, asc: bool)
    requires Sorted(xs, asc)
    ensures Sorted(Restrict(xs, start, end), asc)
    ensures MapOf(Restrict(xs, start, end)) == RestrictMap(MapOf(xs), start, end)
  {
    hide InDomain;
    if xs != [] {
      RestrictListing(xs[1..], start, end, asc);
      AfterByKeys(xs[0].key, xs[1..], asc);
      AfterIsAbsent(xs[0].key, xs[1..], asc);
      var rest := Restrict(xs[1..], start, end);
      AfterByKeys(xs[0].key, rest, asc);
      RestrictMapAdd(MapOf(xs[1..]), xs[0], start, end);
      if InDomain(xs[0].key, start, end) {
        var all := [xs[0]] + rest;
        assert all[0] == xs[0] && all[1..] == rest;
      } else {
        assert [] + rest == rest;
      }
    }
  }

  /** cacheMergeIterator: shows the merged listing without ever building it. */
  class CacheMergeIterator {
    const parent: MemIterator<bytes>
    const cache: MemIterator<Option<bytes>>
    const ascending: bool

    constructor (parent: MemIterator<bytes>, cache: MemIterator<Option<bytes>>, ascending: bool)
      ensures this.parent == parent && this.cache == cache && this.ascending == ascending
    {
      this.parent, this.cache, this.ascending := parent, cache, ascending;
    }

    /** What is still to be shown. */
    ghost function View(): seq<Pair<bytes>>
      reads parent, cache
    {
      Merge(parent.items, cache.items, ascending)
    }

    /** The fronts show the next entry: the cache's front, if it comes first, is not a tombstone. */
    ghost predicate Settled()
      reads parent, cache
    {
      cache.items != [] && (parent.items == [] || !Before(parent.items[0].key, cache.items[0].key, ascending))
      ==> cache.items[0].value.Some?
    }

    function Compare(a: bytes, b: bytes): (r: int)
      ensures r == -1 <==> Before(a, b, ascending)
      ensures r == 0 <==> a == b
      ensures r == 1 <==> Before(b, a, ascending)
      ensures -1 <= r <= 1
    {
      if ascending then Bytes.Compare(a, b) else Bytes.Compare(a, b) * -1
    }

    /** Skips tombstones that come before `until`; no limit if there is none. */
    method SkipCacheDeletes(until: Option<bytes>)
      requires until == if parent.items == [] then None else Some(parent.items[0].key)
      modifies cache
      ensures View() == old(View())
      ensures |cache.items| <= old(|cache.items|)
      ensures old(cache.items != [] && cache.items[0].value.None?)
              && (until.Some? ==> old(cache.items != [] && Before(cache.items[0].key, until.value, ascending)))
              ==> |cache.items| < old(|cache.items|)
      ensures cache.items != [] && cache.items[0].value.None?
              ==> until.Some? && !Before(cache.items[0].key, until.value, ascending)
    {
      while cache.Valid() && cache.Value() == None && (until == None || Compare(cache.Key(), until.value) < 0)
        invariant View() == old(View())
        invariant |cache.items| <= old(|cache.items|)
        invariant cache.items == old(cache.items) || |cache.items| < old(|cache.items|)
        decreases |cache.items|
      {
        cache.Next();
      }
    }

    /** Moves past every hidden entry; returns whether anything is left to show. */
    method SkipUntilExistsOrInvalid() returns (valid: bool)
      modifies parent, cache
      ensures View() == old(View()) && Settled()
      ensures valid <==> View() != []
      ensures valid <==> parent.items != [] || cache.items != []
    {
      while true
        invariant View() == old(View())
        decreases |parent.items| + |cache.items|
      {
        if !parent.Valid() {
          SkipCacheDeletes(None);
          return cache.Valid();
        }
        if !cache.Valid() {
          return true;
        }
        var keyP, keyC := parent.Key(), cache.Key();
        BeforeOrder(keyP, keyC, ascending);
        var cmp := Compare(keyP, keyC);
        if cmp == -1 {
          return true;
        } else if cmp == 0 {
          if cache.Value() != None {
            return true;
          }
          parent.Next();
          cache.Next();
        } else {
          if cache.Value() != None {
            return true;
          }
          SkipCacheDeletes(Some(keyP));
        }
      }
    }

    method Valid() returns (valid: bool)
      modifies parent, cache
      ensures View() == old(View()) && Settled()
      ensures valid <==> View() != []
    {
      valid := SkipUntilExistsOrInvalid();
    }

    /** Next moves on by exactly one entry. */
    method Next()
      requires View() != []
      modifies parent, cache
      ensures View() == old(View())[1..]
    {
      var _ := SkipUntilExistsOrInvalid();
      if !parent.Valid() {
        cache.Next();
        return;
      }
      if !cache.Valid() {
        parent.Next();
        return;
      }
      var keyP, keyC := parent.Key(), cache.Key();
      BeforeOrder(keyP, keyC, ascending);
      var cmp := Compare(keyP, keyC);
      if cmp == -1 {
        parent.Next();
      } else if cmp == 0 {
        parent.Next();
        cache.Next();
      } else {
        cache.Next();
      }
    }

    method Key() returns (key: bytes)
      requires View() != []
      modifies parent, cache
      ensures View() == old(View()) && key == View()[0].key
    {
      var _ := SkipUntilExistsOrInvalid();
      if !parent.Valid() {
        return cache.Key();
      }
      if !cache.Valid() {
        return parent.Key();
      }
      var keyP, keyC := parent.Key(), cache.Key();
      BeforeOrder(keyP, keyC, ascending);
      var cmp := Compare(keyP, keyC);
      return if cmp == 1 then keyC else keyP;
    }

    method Value() returns (value: bytes)
      requires View() != []
      modifies parent, cache
      ensures View() == old(View()) && value == View()[0].value
    {
      var _ := SkipUntilExistsOrInvalid();
      if !parent.Valid() {
        return cache.Value().value;
      }
      if !cache.Valid() {
        return parent.Value();
      }
      var keyP, keyC := parent.Key(), cache.Key();
      BeforeOrder(keyP, keyC, ascending);
      var cmp := Compare(keyP, keyC);
      return if cmp == -1 then parent.Value() else cache.Value().value;
    }
  }

  /** A whole walk, as callers write it. */
  method Collect(it: CacheMergeIterator) returns (out: seq<Pair<bytes>>)
    modifies it.parent, it.cache
    ensures out == old(it.View())
  {
    out := [];
    var valid := it.Valid();
    while valid
      invariant out + it.View() == old(it.View())
      invariant valid <==> it.View() != []
      decreases |it.View()|
    {
      ghost var view := it.View();
      var key := it.Key();
      var value := it.Value();
      it.Next();
      Assoc(out, [view[0]], view[1..]);
      assert view == [view[0]] + view[1..];
      out := out + [Pair(key, value)];
      valid := it.Valid();
    }
  }
}
