/** store/cachekvstore.go: write-back caches stacked on a store to any depth. */
module CacheStore {
  import opened Bytes
  import opened Listing
  import opened Overlays
  import opened MergeIterator

  /** One layer: a root store if it has no parent, a cacheKVStore otherwise. */
  class Store {
    const parent: Store?
    var data: map<bytes, bytes>     // contents of a root store
    var cache: map<bytes, CValue<bytes>>   // of a cache
    ghost const chain: set<Store>
    ghost const depth: nat

    constructor Root(data: map<bytes, bytes>)
      ensures Valid() && parent == null && chain == {this} && View() == data
    {
      parent := null;
      this.data, cache := data, map[];
      chain, depth := {this}, 0;
    }

    /** CacheWrap: a fresh cache shows what is beneath it. */
    constructor Cache(parent: Store)
      requires parent.Valid()
      ensures Valid() && this.parent == parent && chain == {this} + parent.chain
      ensures View() == parent.View()
    {
      this.parent := parent;
      data, cache := map[], map[];
      chain, depth := {this} + parent.chain, parent.depth + 1;
      new;
      assert Overlay(parent.View(), Dirty(cache)) == parent.View();
    }

    ghost predicate Valid()
      reads this, chain
      decreases depth, 0
    {
      && this in chain
      && (forall s :: s in chain && s != this ==> s.chain <= chain - {this})
      && (parent == null ==> chain == {this})
      && (parent != null ==>
            && parent in chain && parent.chain == chain - {this} && parent.depth < depth
            && parent.Valid() && Coherent(cache, parent.View()))
    }

    /** What a reader of this layer sees. */
    ghost function View(): map<bytes, bytes>
      requires Valid()
      reads this, chain
      decreases depth, 1
    {
      if parent == null then data else Overlay(parent.View(), Dirty(cache))
    }

    method Get(key: bytes) returns (value: Option<bytes>)
      requires Valid()
      modifies chain
      ensures Valid() && View() == old(View())
      ensures value == Lookup(View(), key)
      ensures forall s :: s in chain && old(s.Valid()) ==> s.Valid() && s.View() == old(s.View())
      decreases depth
    {
      hide Overlay, Dirty, Coherent, Lookup;
      if parent == null {
        return Lookup(data, key);
      }
      if key in cache {
        value := cache[key].value;
        CachedIsShown(cache, parent.View(), key);
      } else {
        value := parent.Get(key);
        ghost var before := cache;
        cache := cache[key := CValue(value, false, false)];
        Remembered(before, parent.View(), key);
        assert parent.Valid();
      }
    }

    method Has(key: bytes) returns (has: bool)
      requires Valid()
      modifies chain
      ensures Valid() && View() == old(View())
      ensures has <==> key in View()
      ensures forall s :: s in chain && old(s.Valid()) ==> s.Valid() && s.View() == old(s.View())
    {
      var value := Get(key);
      has := value != None;
    }

    method Set(key: bytes, value: bytes)
      requires Valid()
      modifies this
      ensures Valid() && View() == old(View())[key := value]
    {
      hide Overlay, Dirty, Coherent;
      if parent == null {
        data := data[key := value];
      } else {
        SetShows(cache, parent.View(), key, value);
        cache := cache[key := CValue(Some(value), false, true)];
        assert parent.Valid();
      }
    }

    method Delete(key: bytes)
      requires Valid()
      modifies this
      ensures Valid() && View() == old(View()) - {key}
    {
      hide Overlay, Dirty, Coherent;
      if parent == null {
        data := data - {key};
      } else {
        DeleteShows(cache, parent.View(), key);
        cache := cache[key := CValue(None, true, true)];
        assert parent.Valid();
      }
    }

    /** Write: the parent comes to show what this layer showed; the layer starts afresh. */
    method Write()
      requires Valid() && parent != null
      modifies this, parent
      ensures Valid() && View() == old(View())
      ensures parent.Valid() && parent.View() == old(View())
    {
      hide Overlay, Dirty, Coherent;
      var items := ListMap(Dirty(cache), true);
      ghost var below := parent.View();
      EmptyShows(below);
      for i := 0 to |items|
        invariant parent.Valid() && cache == old(cache)
        invariant parent.View() == Overlay(below, MapOf(items[..i]))
      {
        var key := items[i].key;
        DirtyEntry(cache, below, items, i);
        var cv := cache[key];
        NextItem(items, i);
        OverlayEdit(below, MapOf(items[..i]), key, items[i].value);
        if cv.deleted {
          parent.Delete(key);
        } else if cv.value == None {
        } else {
          parent.Set(key, cv.value.value);
        }
      }
      assert items[..|items|] == items;
      cache := map[];
      EmptyShows(parent.View());
      assert parent.Valid();
    }

    /** Iterator and ReverseIterator: the entries shown, within the domain, in key order;
        at every depth the parent's walk is merged with this layer's dirty entries. */
    method Iterate(start: bytes, end: Option<bytes>, asc: bool) returns (out: seq<Pair<bytes>>)
      requires Valid()
      ensures Sorted(out, asc)
      ensures MapOf(out) == RestrictMap(View(), start, end)
      decreases depth
    {
      hide Overlay, Dirty, Coherent, RestrictMap, Restrict, Merge, MapOf, Sorted;
      if parent == null {
        var all := ListMap(data, asc);
        RestrictListing(all, start, end, asc);
        var it := new MemIterator(start, end, all);
        return it.items;
      }
      var below := parent.Iterate(start, end, asc);
      var dirty := ListMap(Dirty(cache), asc);
      out := MergeWalk(below, dirty, start, end, asc);
      OverlayRestrict(parent.View(), Dirty(cache), start, end);
    }
  }

  /** cacheKVStore.iterator: the parent's walk and the dirty entries in the domain, merged. */
  method MergeWalk(below: seq<Pair<bytes>>, dirty: seq<Pair<Option<bytes>>>, start: bytes, end: Option<bytes>, asc: bool)
    returns (out: seq<Pair<bytes>>)
    requires Sorted(below, asc) && Sorted(dirty, asc)
    ensures Sorted(out, asc)
    ensures MapOf(out) == Overlay(MapOf(below), RestrictMap(MapOf(dirty), start, end))
  {
    hide Overlay, RestrictMap, Restrict, Merge, MapOf, Sorted;
    RestrictListing(dirty, start, end, asc);
    WholeDomain(below);
    var p := new MemIterator([], None, below);
    var c := new MemIterator(start, end, dirty);
    MergeIsOverlay(p.items, c.items, asc);
    var it := new CacheMergeIterator(p, c, asc);
    out := Collect(it);
  }

  lemma {:induction false} WholeDomain<V>(xs: seq<Pair<V>>)
    ensures Restrict(xs, [], None) == xs
  {
    if xs != [] {
      WholeDomain(xs[1..]);
      assert xs == [xs[0]] + xs[1..];
    }
  }

  lemma OverlayRestrict(p: map<bytes, bytes>, c: map<bytes, Option<bytes>>, start: bytes, end: Option<bytes>)
    ensures Overlay(RestrictMap(p, start, end), RestrictMap(c, start, end)) == RestrictMap(Overlay(p, c), start, end)
  {
  }

  // ---------------------------------------------------------------- whole runs

  /** What code holding a store may do: read, write, list, and run more such code in a
      cache of its own that is afterwards written back or thrown away. */
  datatype Op =
    | Get(key: bytes)
    | Has(key: bytes)
    | Set(key: bytes, value: bytes)
    | Delete(key: bytes)
    | List(start: bytes, end: Option<bytes>, asc: bool)
    | Nested(ops: seq<Op>, commit: bool)

  datatype Seen = Value(value: Option<bytes>) | Flag(has: bool) | Entries(entries: seq<Pair<bytes>>)

  datatype Outcome = Outcome(store: map<bytes, bytes>, seen: seq<Seen>)

  /** The listing of a map. */
  ghost function ListingOf(m: map<bytes, bytes>, asc: bool): (xs: seq<Pair<bytes>>)
    ensures Sorted(xs, asc) && MapOf(xs) == m
  {
    if m == map[] then []
    else
      var k :| k in m;
      Insert(Pair(k, m[k]), ListingOf(m - {k}, asc), asc)
  }

  /** The same code run on one flat map, where a cache is a copy of the whole map. */
  ghost function FlatOps(m: map<bytes, bytes>, ops: seq<Op>): Outcome
    decreases ops, 0
  {
    if ops == [] then Outcome(m, [])
    else
      var first := FlatOp(m, ops[0]);
      var rest := FlatOps(first.store, ops[1..]);
      Outcome(rest.store, first.seen + rest.seen)
  }

  ghost function FlatOp(m: map<bytes, bytes>, op: Op): Outcome
    decreases op, 1
  {
    match op
    case Get(k) => Outcome(m, [Value(Lookup(m, k))])
    case Has(k) => Outcome(m, [Flag(k in m)])
    case Set(k, v) => Outcome(m[k := v], [])
    case Delete(k) => Outcome(m - {k}, [])
    case List(start, end, asc) => Outcome(m, [Entries(ListingOf(RestrictMap(m, start, end), asc))])
    case Nested(inner, commit) =>
      var r := FlatOps(m, inner);
      Outcome(if commit then r.store else m, r.seen)
  }

  /** A nested cache that is written back is as if there were none, and one that is thrown away leaves nothing; what was
      read in it is the same either way. */
  lemma NestedMeans(m: map<bytes, bytes>, inner: seq<Op>, commit: bool)
    ensures var r := FlatOps(m, [Nested(inner, commit)]);
            r.seen == FlatOps(m, inner).seen && r.store == if commit then FlatOps(m, inner).store else m
  {
    hide ListingOf, RestrictMap;
    assert [Nested(inner, commit)][1..] == [];
    assert FlatOp(m, Nested(inner, commit)).seen + [] == FlatOp(m, Nested(inner, commit)).seen;
  }

  /** The layers beneath s show what they showed. */
  twostate predicate Untouched(s: Store)
    reads s, s.chain
  {
    forall t :: t in s.chain && t != s && t.chain <= s.chain && old(allocated(t)) && old(t.Valid())
                ==> t.Valid() && t.View() == old(t.View())
  }

  /** What leaves alone all that is beneath a cache leaves alone its parent and all beneath that. */
  twostate lemma Deeper(s: Store)
    requires old(s.Valid()) && s.parent != null && Untouched(s)
    ensures s.parent.Valid() && s.parent.View() == old(s.parent.View()) && Untouched(s.parent)
  {
    hide Overlay, Dirty, Coherent;
  }

  /** Write, with what it leaves alone. */
  method WriteBack(s: Store, child: Store)
    requires child.Valid() && child.parent == s
    modifies child, s
    ensures s.Valid() && Untouched(s) && s.View() == old(child.View())
    ensures child.Valid() && child.View() == old(child.View())
  {
    hide Overlay, Dirty, Coherent;
    child.Write();
  }

  /** Set, with what it leaves alone. */
  method Put(s: Store, k: bytes, v: bytes)
    requires s.Valid()
    modifies s
    ensures s.Valid() && Untouched(s) && s.View() == old(s.View())[k := v]
  {
    hide Overlay, Dirty, Coherent;
    s.Set(k, v);
  }

  /** Delete, with what it leaves alone. */
  method Remove(s: Store, k: bytes)
    requires s.Valid()
    modifies s
    ensures s.Valid() && Untouched(s) && s.View() == old(s.View()) - {k}
  {
    hide Overlay, Dirty, Coherent;
    s.Delete(k);
  }

  /** Caches stacked to any depth behave as the flat map: same contents, same answers to
      every read, and nothing beneath changes until a cache is written back. */
  method Run(s: Store, ops: seq<Op>) returns (seen: seq<Seen>)
    requires s.Valid()
    modifies s.chain
    ensures s.Valid() && Untouched(s)
    ensures Outcome(s.View(), seen) == FlatOps(old(s.View()), ops)
    decreases ops, 0
  {
    hide Overlay, Dirty, Coherent, RestrictMap, FlatOp;
    seen := [];
    for i := 0 to |ops|
      invariant s.Valid() && Untouched(s)
      invariant var rest := FlatOps(s.View(), ops[i..]);
                Outcome(rest.store, seen + rest.seen) == FlatOps(old(s.View()), ops)
    {
      assert ops[i..][0] == ops[i] && ops[i..][1..] == ops[i + 1..];
      ghost var m := s.View();
      ghost var first := FlatOp(m, ops[i]);
      ghost var rest := FlatOps(first.store, ops[i + 1..]);
      Assoc(seen, first.seen, rest.seen);
      var more := Step(s, ops[i]);
      seen := seen + more;
    }
  }

  method Step(s: Store, op: Op) returns (seen: seq<Seen>)
    requires s.Valid()
    modifies s.chain
    ensures s.Valid() && Untouched(s)
    ensures Outcome(s.View(), seen) == FlatOp(old(s.View()), op)
    decreases op, 1
  {
    hide Overlay, Dirty, Coherent, RestrictMap;
    match op
    case Get(k) =>
      var v := s.Get(k);
      seen := [Value(v)];
    case Has(k) =>
      var b := s.Has(k);
      seen := [Flag(b)];
    case Set(k, v) =>
      s.Set(k, v);
      seen := [];
    case Delete(k) =>
      s.Delete(k);
      seen := [];
    case List(start, end, asc) =>
      var xs := s.Iterate(start, end, asc);
      ListingUnique(xs, ListingOf(RestrictMap(s.View(), start, end), asc), asc);
      seen := [Entries(xs)];
    case Nested(inner, commit) =>
      seen := RunNested(s, inner, commit);
  }

  method RunNested(s: Store, inner: seq<Op>, commit: bool) returns (seen: seq<Seen>)
    requires s.Valid()
    modifies s.chain
    ensures s.Valid() && Untouched(s)
    ensures var r := FlatOps(old(s.View()), inner);
            seen == r.seen && s.View() == if commit then r.store else old(s.View())
    decreases inner, 1
  {
    hide Store.View, Coherent, RestrictMap, FlatOps;
    var child := new Store.Cache(s);
    label cached:
    seen := Run(child, inner);
    Deeper@cached(child);
    if commit {
      WriteBack(s, child);
    }
  }
}
