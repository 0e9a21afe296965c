/** store/statesync_helper.go, second half: the stores are rebuilt from chunks that
    arrive in any order. A node stands for its bytes. */
module Recovery {
  import opened Bytes
  import opened Snapshot

  /** Part of a cut node that has arrived. */
  datatype Item = Item(idx: int, kind: Completeness, part: bytes)

  /** The database of one store, for the nodes numbered from start up to end. */
  datatype Db = Db(start: int, end: int, nodes: map<int, bytes>)

  /** StoreInfo: a store and its root node, which is its first. */
  datatype Info = Info(store: nat, root: Option<bytes>)

  // ---------------------------------------------------------------- what has been stored

  /** The stores divide the nodes among themselves. */
  predicate Layout(dbs: seq<Db>, total: int)
  {
    && (forall s :: 0 <= s < |dbs| ==> dbs[s].start <= dbs[s].end)
    && (forall s :: 0 < s < |dbs| ==> dbs[s - 1].end == dbs[s].start)
    && (if dbs == [] then total == 0 else dbs[0].start == 0 && dbs[|dbs| - 1].end == total)
  }

  predicate Empty(db: Db)
  {
    db.start == db.end
  }

  /** A database has, of the nodes saved so far, exactly its own, with their bytes. */
  ghost predicate SavedIn(db: Db, nodes: seq<bytes>, saved: set<int>)
  {
    && (forall j :: j in db.nodes <==> j in saved && db.start <= j < db.end)
    && (forall j :: j in db.nodes ==> 0 <= j < |nodes| && db.nodes[j] == nodes[j])
  }

  ghost predicate Saved(dbs: seq<Db>, nodes: seq<bytes>, saved: set<int>)
  {
    && (forall j :: j in saved ==> 0 <= j < |nodes|)
    && (forall s :: 0 <= s < |dbs| ==> SavedIn(dbs[s], nodes, saved))
  }

  function InfoFor(dbs: seq<Db>, nodes: seq<bytes>, s: nat): Info
    requires s < |dbs|
  {
    Info(s, if !Empty(dbs[s]) && 0 <= dbs[s].start < |nodes| then Some(nodes[dbs[s].start]) else None)
  }

  /** One info for each store in `done`, and no other. */
  ghost predicate Informed(infos: seq<Info>, dbs: seq<Db>, nodes: seq<bytes>, done: set<nat>)
  {
    && (forall a :: 0 <= a < |infos| ==> infos[a].store in done && infos[a].store < |dbs| && infos[a] == InfoFor(dbs, nodes, infos[a].store))
    && (forall a, b :: 0 <= a < b < |infos| ==> infos[a].store != infos[b].store)
    && (forall s :: s in done ==> exists a :: 0 <= a < |infos| && infos[a].store == s)
  }

  /** The stores whose root has been saved. */
  ghost function Rooted(dbs: seq<Db>, saved: set<int>): set<nat>
  {
    set s: nat | s < |dbs| && !Empty(dbs[s]) && dbs[s].start in saved
  }

  /** The bounds of the stores, which never change. */
  predicate SameBounds(a: seq<Db>, b: seq<Db>)
  {
    |a| == |b| && forall s :: 0 <= s < |a| ==> a[s].start == b[s].start && a[s].end == b[s].end
  }

  lemma NotEmpty(s: set<int>)
    ensures s == {} || exists j :: j in s
  {
    assert (forall j :: j !in s) ==> s == {};
  }

  lemma SameBoundsRefl(a: seq<Db>)
    ensures SameBounds(a, a)
  {
  }

  lemma SameBoundsTrans(a: seq<Db>, b: seq<Db>, c: seq<Db>)
    requires SameBounds(a, b) && SameBounds(b, c)
    ensures SameBounds(a, c)
  {
  }

  lemma InformedSnoc(infos: seq<Info>, dbs: seq<Db>, nodes: seq<bytes>, done: set<nat>, s: nat)
    requires Informed(infos, dbs, nodes, done) && s < |dbs| && s !in done
    ensures Informed(infos + [InfoFor(dbs, nodes, s)], dbs, nodes, done + {s})
  {
    var all := infos + [InfoFor(dbs, nodes, s)];
    assert forall a :: 0 <= a < |infos| ==> all[a] == infos[a];
    assert all[|infos|].store == s;
    forall x | x in done + {s}
      ensures exists a :: 0 <= a < |all| && all[a].store == x
    {
      if x != s {
        var a :| 0 <= a < |infos| && infos[a].store == x;
        assert all[a].store == x;
      }
    }
  }

  lemma InformedSame(infos: seq<Info>, a: seq<Db>, b: seq<Db>, nodes: seq<bytes>, done: set<nat>)
    requires Informed(infos, a, nodes, done) && SameBounds(a, b)
    ensures Informed(infos, b, nodes, done)
  {
    forall i | 0 <= i < |infos|
      ensures infos[i] == InfoFor(b, nodes, infos[i].store)
    {
      assert infos[i] == InfoFor(a, nodes, infos[i].store);
    }
  }

  lemma {:induction false} Increasing(dbs: seq<Db>, total: int, s: nat, t: nat)
    requires Layout(dbs, total) && s < t < |dbs|
    ensures dbs[s].end <= dbs[t].start
    decreases t - s
  {
    if s + 1 < t {
      Increasing(dbs, total, s, t - 1);
    }
  }

  // ---------------------------------------------------------------- parts that have arrived

  predicate PartAt(chunks: seq<Chunk>, p: int, j: int)
  {
    0 <= p < |chunks| && chunks[p].kind != Complete && chunks[p].start == j
  }

  function ItemOf(chunks: seq<Chunk>, p: int): Item
    requires 0 <= p < |chunks|
  {
    Item(p, chunks[p].kind, if chunks[p].nodes == [] then [] else chunks[p].nodes[0])
  }

  /** The items are exactly the parts of node j that have been seen, each once. */
  ghost predicate Parts(items: seq<Item>, chunks: seq<Chunk>, seen: set<int>, j: int)
  {
    && (forall i :: 0 <= i < |items| ==>
          items[i].idx in seen && PartAt(chunks, items[i].idx, j) && items[i] == ItemOf(chunks, items[i].idx))
    && (forall i, k :: 0 <= i < k < |items| ==> items[i].idx != items[k].idx)
    && (forall p :: p in seen && PartAt(chunks, p, j) ==> HasIdx(items, p))
  }

  predicate HasIdx(items: seq<Item>, p: int)
  {
    exists i :: 0 <= i < |items| && items[i].idx == p
  }

  function ItemsAt(incomplete: map<int, seq<Item>>, j: int): seq<Item>
  {
    if j in incomplete then incomplete[j] else []
  }

  ghost predicate Listed(incomplete: map<int, seq<Item>>, chunks: seq<Chunk>, seen: set<int>)
  {
    && (forall j :: Parts(ItemsAt(incomplete, j), chunks, seen, j))
    && (forall j :: j in incomplete ==> incomplete[j] != [])
  }

  lemma PartsSnoc(items: seq<Item>, chunks: seq<Chunk>, seen: set<int>, j: int, p: int)
    requires Parts(items, chunks, seen, j) && p !in seen && PartAt(chunks, p, j)
    ensures Parts(items + [ItemOf(chunks, p)], chunks, seen + {p}, j)
  {
    var all := items + [ItemOf(chunks, p)];
    assert forall i :: 0 <= i < |items| ==> all[i] == items[i];
    assert all[|items|].idx == p;
    forall q | q in seen + {p} && PartAt(chunks, q, j)
      ensures HasIdx(all, q)
    {
      if q != p {
        assert HasIdx(items, q);
        var i :| 0 <= i < |items| && items[i].idx == q;
        assert all[i].idx == q;
      }
    }
  }

  lemma PartsOther(items: seq<Item>, chunks: seq<Chunk>, seen: set<int>, j: int, p: int)
    requires Parts(items, chunks, seen, j) && !PartAt(chunks, p, j)
    ensures Parts(items, chunks, seen + {p}, j)
  {
  }

  lemma ListedSnoc(incomplete: map<int, seq<Item>>, chunks: seq<Chunk>, seen: set<int>, j: int, p: int)
    requires Listed(incomplete, chunks, seen) && p !in seen && PartAt(chunks, p, j)
    ensures Listed(incomplete[j := ItemsAt(incomplete, j) + [ItemOf(chunks, p)]], chunks, seen + {p})
  {
    var after := incomplete[j := ItemsAt(incomplete, j) + [ItemOf(chunks, p)]];
    forall k
      ensures Parts(ItemsAt(after, k), chunks, seen + {p}, k)
    {
      assert Parts(ItemsAt(incomplete, k), chunks, seen, k);
      if k == j {
        PartsSnoc(ItemsAt(incomplete, j), chunks, seen, j, p);
      } else {
        PartsOther(ItemsAt(incomplete, k), chunks, seen, k, p);
      }
    }
  }

  lemma ListedOther(incomplete: map<int, seq<Item>>, chunks: seq<Chunk>, seen: set<int>, p: int)
    requires Listed(incomplete, chunks, seen) && 0 <= p < |chunks| && chunks[p].kind == Complete
    ensures Listed(incomplete, chunks, seen + {p})
  {
    forall k
      ensures Parts(ItemsAt(incomplete, k), chunks, seen + {p}, k)
    {
      assert Parts(ItemsAt(incomplete, k), chunks, seen, k);
      PartsOther(ItemsAt(incomplete, k), chunks, seen, k, p);
    }
  }

  // ---------------------------------------------------------------- complete chunks that have arrived

  /** The nodes of the complete chunks seen so far. */
  ghost function SavedBy(chunks: seq<Chunk>, nodes: seq<bytes>, seen: set<int>): set<int>
  {
    set j | j in UpTo(0, |nodes|) && exists p :: p in seen && 0 <= p < |chunks| && Within(chunks[p], j)
  }

  lemma SavedBySnoc(chunks: seq<Chunk>, nodes: seq<bytes>, cuts: map<int, Range>, seen: set<int>, p: int)
    requires Tidy(chunks, nodes, cuts, |nodes|) && 0 <= p < |chunks| && p !in seen
    ensures chunks[p].kind == Complete ==>
              && Stretch(chunks[p], nodes)
              && SavedBy(chunks, nodes, seen + {p}) == SavedBy(chunks, nodes, seen) + UpTo(chunks[p].start, chunks[p].start + |chunks[p].nodes|)
              && forall j :: chunks[p].start <= j < chunks[p].start + |chunks[p].nodes| ==> j !in SavedBy(chunks, nodes, seen)
    ensures chunks[p].kind != Complete ==> SavedBy(chunks, nodes, seen + {p}) == SavedBy(chunks, nodes, seen)
  {
    var c := chunks[p];
    if c.kind == Complete {
      assert Stretch(c, nodes);
      forall j | c.start <= j < c.start + |c.nodes|
        ensures j !in SavedBy(chunks, nodes, seen)
      {
        assert Within(chunks[p], j);
      }
      forall j
        ensures j in SavedBy(chunks, nodes, seen + {p}) <==>
                j in SavedBy(chunks, nodes, seen) || j in UpTo(c.start, c.start + |c.nodes|)
      {
        if j in UpTo(c.start, c.start + |c.nodes|) {
          assert p in seen + {p} && Within(chunks[p], j);
        }
      }
    } else {
      forall j
        ensures !Within(chunks[p], j)
      {
      }
    }
  }

  // ---------------------------------------------------------------- putting parts together

  predicate Ascending(items: seq<Item>)
  {
    forall i, k :: 0 <= i < k < |items| ==> items[i].idx < items[k].idx
  }

  /** Where sorting by chunk number puts an item. */
  function Insert(item: Item, items: seq<Item>): (r: seq<Item>)
    requires Ascending(items) && !HasIdx(items, item.idx)
    ensures Ascending(r) && |r| == |items| + 1
    ensures forall x :: x in r <==> x == item || x in items
  {
    if items == [] then [item]
    else if item.idx < items[0].idx then [item] + items
    else
      assert !HasIdx(items[1..], item.idx) by {
        assert forall i :: 0 <= i < |items[1..]| ==> items[1..][i] == items[i + 1];
      }
      assert items == [items[0]] + items[1..];
      assert items[0].idx != item.idx;
      var rest := Insert(item, items[1..]);
      assert forall i :: 0 <= i < |rest| ==> rest[i] in rest;
      assert forall x :: x in items[1..] ==> items[0].idx < x.idx;
      [items[0]] + rest
  }

  method Sort(items: seq<Item>) returns (r: seq<Item>)
    requires forall i, k :: 0 <= i < k < |items| ==> items[i].idx != items[k].idx
    ensures Ascending(r) && |r| == |items| && forall x :: x in r <==> x in items
  {
    r := [];
    for n := 0 to |items|
      invariant Ascending(r) && |r| == n && forall x :: x in r <==> x in items[..n]
    {
      assert items[..n + 1] == items[..n] + [items[n]];
      assert !HasIdx(r, items[n].idx) by {
        assert forall i :: 0 <= i < |r| ==> r[i] in items[..n];
      }
      r := Insert(items[n], r);
    }
    assert items[..|items|] == items;
  }

  /** Ascending numbers that are exactly those from a up to b are a, a + 1, and so on. */
  lemma {:induction false} Consecutive(r: seq<Item>, a: int, b: int)
    requires Ascending(r) && a <= b
    requires forall i :: 0 <= i < |r| ==> a <= r[i].idx < b
    requires forall p :: a <= p < b ==> HasIdx(r, p)
    ensures |r| == b - a && forall i :: 0 <= i < |r| ==> r[i].idx == a + i
    decreases b - a
  {
    assert r != [] ==> a <= r[0].idx < b;
    if a < b {
      assert forall k :: 0 < k < |r| ==> r[0].idx < r[k].idx;
      assert HasIdx(r, a);
      var i :| 0 <= i < |r| && r[i].idx == a;
      var rest := r[1..];
      assert forall k :: 0 <= k < |rest| ==> rest[k] == r[k + 1];
      forall p | a + 1 <= p < b
        ensures HasIdx(rest, p)
      {
        assert HasIdx(r, p);
        var k :| 0 <= k < |r| && r[k].idx == p;
        assert rest[k - 1].idx == p;
      }
      Consecutive(rest, a + 1, b);
      assert forall k :: 0 < k < |r| ==> r[k] == rest[k - 1];
    }
  }

  /** Once all parts have arrived, sorting puts them in the order in which they were cut. */
  lemma SortedParts(items: seq<Item>, r: seq<Item>, chunks: seq<Chunk>, seen: set<int>, j: int, a: nat, b: nat, node: bytes)
    requires Parts(items, chunks, seen, j) && IsCut(chunks, a, b, node, j)
    requires forall p :: 0 <= p < |chunks| ==> p in seen
    requires forall p :: PartAt(chunks, p, j) ==> a <= p < b
    requires Ascending(r) && |r| == |items| && forall x :: x in r <==> x in items
    ensures |r| == b - a && forall i :: 0 <= i < |r| ==> r[i] == ItemOf(chunks, a + i)
  {
    assert forall i :: 0 <= i < |r| ==> r[i] in items;
    forall p | a <= p < b
      ensures HasIdx(r, p)
    {
      assert PartAt(chunks, p, j);
      assert HasIdx(items, p);
      var i :| 0 <= i < |items| && items[i].idx == p;
      assert items[i] in r;
      var k :| 0 <= k < |r| && r[k] == items[i];
    }
    Consecutive(r, a, b);
  }

  /** The checks on the sorted parts, and their concatenation. */
  method CheckAndJoin(items: seq<Item>) returns (r: Option<bytes>)
    requires items != []
    ensures r.Some? <==> WellCut(items)
    ensures r.Some? ==> r.value == Join(seq(|items|, i requires 0 <= i < |items| => items[i].part))
  {
    var n := |items|;
    if items[n - 1].idx - items[0].idx + 1 != n {
      return None;
    }
    var node: bytes := [];
    ghost var parts := seq(|items|, i requires 0 <= i < |items| => items[i].part);
    for i := 0 to n
      invariant node == Join(parts[..i])
      invariant forall k :: 0 <= k < i ==> items[k].kind == if k == 0 then First else if k == n - 1 then Last else Mid
    {
      if i == 0 {
        if items[i].kind != First {
          return None;
        }
      } else if i == n - 1 {
        if items[i].kind != Last {
          return None;
        }
      } else if items[i].kind != Mid {
        return None;
      }
      assert parts[..i + 1][..i] == parts[..i];
      node := node + items[i].part;
    }
    assert parts[..n] == parts;
    return Some(node);
  }

  predicate WellCut(items: seq<Item>)
  {
    && items != [] && items[|items| - 1].idx - items[0].idx + 1 == |items|
    && forall i :: 0 <= i < |items| ==>
         items[i].kind == if i == 0 then First else if i == |items| - 1 then Last else Mid
  }

  /** All the parts, in order, are accepted and make up the node. */
  lemma PartsJoin(r: seq<Item>, chunks: seq<Chunk>, a: nat, b: nat, node: bytes, j: int)
    requires IsCut(chunks, a, b, node, j) && |r| == b - a && forall i :: 0 <= i < |r| ==> r[i] == ItemOf(chunks, a + i)
    ensures WellCut(r) && Join(seq(|r|, i requires 0 <= i < |r| => r[i].part)) == node
  {
    assert seq(|r|, i requires 0 <= i < |r| => r[i].part) == PartsIn(chunks, a, b);
  }

  /** Stores without nodes, among `extra`. */
  predicate AllEmpty(dbs: seq<Db>, extra: set<nat>)
  {
    forall s :: s in extra ==> s < |dbs| && Empty(dbs[s])
  }

  /** What has been stored: the nodes in `saved`, and infos of their stores and of `extra`. */
  ghost predicate Stored(dbs: seq<Db>, infos: seq<Info>, nodes: seq<bytes>, saved: set<int>, extra: set<nat>)
  {
    && Layout(dbs, |nodes|) && Saved(dbs, nodes, saved) && AllEmpty(dbs, extra)
    && Informed(infos, dbs, nodes, Rooted(dbs, saved) + extra)
  }

  class Helper {
    var hashesToIdx: map<bytes, int>
    var incomplete: map<int, seq<Item>>
    var dbs: seq<Db>
    var infos: seq<Info>

    /** saveNode: the node goes to its own store; the first of a store is its root. */
    method SaveNode(j: int, node: bytes, ghost nodes: seq<bytes>, ghost saved: set<int>, ghost extra: set<nat>)
      requires Stored(dbs, infos, nodes, saved, extra) && 0 <= j < |nodes| && j !in saved && node == nodes[j]
      modifies `dbs, `infos
      ensures SameBounds(old(dbs), dbs) && Stored(dbs, infos, nodes, saved + {j}, extra)
    {
      hide Saved, Informed, Rooted;
      var s := 0;
      while s < |dbs|
        invariant 0 <= s <= |dbs| && dbs == old(dbs) && infos == old(infos)
        invariant forall i :: 0 <= i < s ==> dbs[i].end <= j
      {
        assert s > 0 ==> dbs[s - 1].end <= j;
        if j < dbs[s].end {
          PutNode(s, j, node, nodes, saved, extra);
          return;
        }
        s := s + 1;
      }
    }

    method PutNode(s: nat, j: int, node: bytes, ghost nodes: seq<bytes>, ghost saved: set<int>, ghost extra: set<nat>)
      requires Stored(dbs, infos, nodes, saved, extra) && 0 <= j < |nodes| && j !in saved && node == nodes[j]
      requires s < |dbs| && dbs[s].start <= j < dbs[s].end
      modifies `dbs, `infos
      ensures SameBounds(old(dbs), dbs) && Stored(dbs, infos, nodes, saved + {j}, extra)
    {
      ghost var before, done := dbs, Rooted(dbs, saved) + extra;
      hide Saved, Informed;
      if j == dbs[s].start {
        assert s !in done;
        InformedSnoc(infos, dbs, nodes, done, s);
        infos := infos + [Info(s, Some(node))];
      }
      dbs := dbs[s := dbs[s].(nodes := dbs[s].nodes[j := node])];
      PutSaved(before, dbs, nodes, saved, s, j);
      RootedPut(before, dbs, nodes, saved, s, j);
      assert Rooted(dbs, saved + {j}) + extra == if j == before[s].start then done + {s} else done;
      InformedSame(infos, before, dbs, nodes, Rooted(dbs, saved + {j}) + extra);
    }

    /** StartRecovery: the manifest says how many nodes each store has, and in which order the
        chunks were written. */
    method StartRecovery(hashes: seq<bytes>, numKeys: seq<nat>, stores: nat) returns (ok: bool)
      requires Distinct(hashes)
      modifies this
      ensures ok <==> |numKeys| == stores
      ensures ok ==> incomplete == map[] && infos == [] && Fresh(dbs, numKeys)
      ensures ok ==> forall p :: 0 <= p < |hashes| ==> hashes[p] in hashesToIdx && hashesToIdx[hashes[p]] == p
    {
      hashesToIdx, incomplete, dbs, infos := map[], map[], [], [];
      for p := 0 to |hashes|
        invariant forall q :: 0 <= q < p ==> hashes[q] in hashesToIdx && hashesToIdx[hashes[q]] == q
        invariant incomplete == map[] && infos == [] && dbs == []
      {
        hashesToIdx := hashesToIdx[hashes[p] := p];
      }
      if |numKeys| != stores {
        return false;
      }
      var start := 0;
      assert numKeys[..0] == [];
      for s := 0 to |numKeys|
        invariant incomplete == map[] && infos == [] && start == Total(numKeys[..s]) && Fresh(dbs, numKeys[..s])
        invariant forall q :: 0 <= q < |hashes| ==> hashes[q] in hashesToIdx && hashesToIdx[hashes[q]] == q
      {
        FreshSnoc(dbs, numKeys, s);
        dbs := dbs + [Db(start, start + numKeys[s], map[])];
        start := start + numKeys[s];
      }
      assert numKeys[..|numKeys|] == numKeys;
      return true;
    }

    /** WriteRecoveryChunk, the part before completion. */
    method WriteChunk(hash: bytes, chunk: Chunk, ghost chunks: seq<Chunk>, ghost nodes: seq<bytes>, ghost cuts: map<int, Range>, ghost seen: set<int>)
      returns (ok: bool)
      requires Tidy(chunks, nodes, cuts, |nodes|) && Gathered(dbs, infos, incomplete, chunks, nodes, seen)
      requires Arrives(hash, chunk, hashesToIdx, chunks, seen)
      modifies `dbs, `infos, `incomplete
      ensures ok <==> chunk.nodes != []
      ensures SameBounds(old(dbs), dbs)
      ensures ok ==> Gathered(dbs, infos, incomplete, chunks, nodes, seen + {hashesToIdx[hash]})
    {
      hide Tidy, Stored, Listed, SavedBy, Stretch;
      ghost var p := hashesToIdx[hash];
      SavedBySnoc(chunks, nodes, cuts, seen, p);
      PartShape(chunks, nodes, cuts, p);
      var n := |chunk.nodes|;
      if n == 0 {
        return false;
      }
      var complete: seq<bytes> := [];
      match chunk.kind {
      case Complete =>
        complete := chunk.nodes;
        ListedOther(incomplete, chunks, seen, p);
      case First =>
        complete := chunk.nodes[..n - 1];
        var j := chunk.start + n - 1;
        ListedSnoc(incomplete, chunks, seen, j, p);
        incomplete := incomplete[j := ItemsAt(incomplete, j) + [Item(hashesToIdx[hash], chunk.kind, chunk.nodes[n - 1])]];
      case _ =>
        var j := chunk.start;
        ListedSnoc(incomplete, chunks, seen, j, p);
        incomplete := incomplete[j := ItemsAt(incomplete, j) + [Item(hashesToIdx[hash], chunk.kind, chunk.nodes[0])]];
      }
      ghost var saved := SavedBy(chunks, nodes, seen);
      assert chunk.kind != Complete ==> complete == [] && saved + UpTo(chunk.start, chunk.start) == saved;
      SaveNodes(chunk.start, complete, nodes, saved);
      return true;
    }

    /** finishCompleteChunkWrite, up to the commit of the database. */
    method FinishCompleteChunkWrite(ghost chunks: seq<Chunk>, ghost nodes: seq<bytes>, ghost cuts: map<int, Range>, ghost seen: set<int>)
      returns (ok: bool)
      requires Tidy(chunks, nodes, cuts, |nodes|) && Gathered(dbs, infos, incomplete, chunks, nodes, seen)
      requires forall p :: 0 <= p < |chunks| ==> p in seen
      modifies `dbs, `infos
      ensures ok && SameBounds(old(dbs), dbs) && Recovered(dbs, infos, nodes)
    {
      AllSaved(chunks, nodes, cuts, seen);
      hide Tidy, Stored, Listed, SavedBy, Covered;
      ghost var saved := SavedBy(chunks, nodes, seen);
      PrepareEmptyStores(nodes, saved);
      ghost var empties, before := Empties(dbs, |dbs|), dbs;
      ok := SaveIncompleteChunks(chunks, nodes, cuts, seen, saved, empties);
      EmptiesSame(before, dbs);
    }

    /** WriteRecoveryChunk. Rejects a chunk without nodes; with the completion flag, once all
        chunks have arrived, everything has been rebuilt. */
    method WriteRecoveryChunk(hash: bytes, chunk: Option<Chunk>, isComplete: bool, ghost chunks: seq<Chunk>, ghost nodes: seq<bytes>, ghost cuts: map<int, Range>, ghost seen: set<int>)
      returns (ok: bool)
      requires Tidy(chunks, nodes, cuts, |nodes|) && Gathered(dbs, infos, incomplete, chunks, nodes, seen)
      requires chunk.Some? ==> Arrives(hash, chunk.value, hashesToIdx, chunks, seen)
      requires isComplete ==> forall p :: 0 <= p < |chunks| ==> p in seen || (chunk.Some? && p == hashesToIdx[hash])
      modifies `dbs, `infos, `incomplete
      ensures ok <==> chunk.Some? ==> chunk.value.nodes != []
      ensures SameBounds(old(dbs), dbs)
      ensures ok && !isComplete ==>
                Gathered(dbs, infos, incomplete, chunks, nodes, if chunk.Some? then seen + {hashesToIdx[hash]} else seen)
      ensures ok && isComplete ==> Recovered(dbs, infos, nodes)
    {
      hide Tidy, Gathered, Recovered;
      ghost var now, before := seen, dbs;
      SameBoundsRefl(dbs);
      if chunk.Some? {
        ok := WriteChunk(hash, chunk.value, chunks, nodes, cuts, seen);
        if !ok {
          return;
        }
        now := seen + {hashesToIdx[hash]};
      }
      ok := true;
      if isComplete {
        ghost var middle := dbs;
        ok := FinishCompleteChunkWrite(chunks, nodes, cuts, now);
        SameBoundsTrans(before, middle, dbs);
      }
    }

    /** prepareEmptyStores: an info for every store that has no nodes. */
    method PrepareEmptyStores(ghost nodes: seq<bytes>, ghost saved: set<int>)
      requires Stored(dbs, infos, nodes, saved, {})
      modifies `infos
      ensures Stored(dbs, infos, nodes, saved, Empties(dbs, |dbs|))
    {
      assert Empties(dbs, 0) == {};
      for s := 0 to |dbs|
        invariant Stored(dbs, infos, nodes, saved, Empties(dbs, s))
      {
        ghost var done := Rooted(dbs, saved) + Empties(dbs, s);
        if dbs[s].end == dbs[s].start {
          assert Rooted(dbs, saved) + Empties(dbs, s + 1) == done + {s};
          InformedSnoc(infos, dbs, nodes, done, s);
          infos := infos + [Info(s, None)];
        } else {
          assert Empties(dbs, s + 1) == Empties(dbs, s);
        }
      }
    }

    /** saveIncompleteChunks: Go visits the map in any order. */
    method SaveIncompleteChunks(ghost chunks: seq<Chunk>, ghost nodes: seq<bytes>, ghost cuts: map<int, Range>, ghost seen: set<int>, ghost saved: set<int>, ghost extra: set<nat>)
      returns (ok: bool)
      requires Tidy(chunks, nodes, cuts, |nodes|) && Listed(incomplete, chunks, seen) && forall p :: 0 <= p < |chunks| ==> p in seen
      requires Stored(dbs, infos, nodes, saved, extra) && forall j :: j in cuts ==> j !in saved
      modifies `dbs, `infos
      ensures ok && SameBounds(old(dbs), dbs) && Stored(dbs, infos, nodes, saved + cuts.Keys, extra)
    {
      hide Tidy, Listed, Stored, SameBounds;
      SameBoundsRefl(dbs);
      KeysAreCuts(incomplete, chunks, nodes, cuts, seen);
      var pending := incomplete.Keys;
      assert saved + (cuts.Keys - pending) == saved;
      while pending != {}
        invariant pending <= cuts.Keys && SameBounds(old(dbs), dbs)
        invariant Stored(dbs, infos, nodes, saved + (cuts.Keys - pending), extra)
        decreases pending
      {
        NotEmpty(pending);
        var j :| j in pending;
        ghost var before := dbs;
        ok := SaveCut(j, chunks, nodes, cuts, seen, saved + (cuts.Keys - pending), extra);
        if !ok {
          return;
        }
        SameBoundsTrans(old(dbs), before, dbs);
        assert saved + (cuts.Keys - pending) + {j} == saved + (cuts.Keys - (pending - {j}));
        pending := pending - {j};
      }
      assert saved + (cuts.Keys - {}) == saved + cuts.Keys;
      ok := true;
    }

    /** One round of the loop: sort the parts, check them, join them and save the node. */
    method SaveCut(j: int, ghost chunks: seq<Chunk>, ghost nodes: seq<bytes>, ghost cuts: map<int, Range>, ghost seen: set<int>, ghost saved: set<int>, ghost extra: set<nat>)
      returns (ok: bool)
      requires Tidy(chunks, nodes, cuts, |nodes|) && Listed(incomplete, chunks, seen) && forall p :: 0 <= p < |chunks| ==> p in seen
      requires j in incomplete && j in cuts && j !in saved && Stored(dbs, infos, nodes, saved, extra)
      modifies `dbs, `infos
      ensures ok && SameBounds(old(dbs), dbs) && Stored(dbs, infos, nodes, saved + {j}, extra)
    {
      CutFacts(incomplete, chunks, nodes, cuts, seen, j);
      hide Tidy, Listed, Stored, IsCut;
      var items := Sort(incomplete[j]);
      SortedParts(incomplete[j], items, chunks, seen, j, cuts[j].a, cuts[j].b, nodes[j]);
      PartsJoin(items, chunks, cuts[j].a, cuts[j].b, nodes[j], j);
      if |items| == 0 {
        return false;
      }
      var node := CheckAndJoin(items);
      if node == None {
        return false;
      }
      SaveNode(j, node.value, nodes, saved, extra);
      return true;
    }

    /** The complete nodes of a chunk, one after another. */
    method SaveNodes(start: int, chunk: seq<bytes>, ghost nodes: seq<bytes>, ghost saved: set<int>)
      requires Stored(dbs, infos, nodes, saved, {}) && Stretch(Chunk(start, Complete, chunk), nodes)
      requires forall j :: start <= j < start + |chunk| ==> j !in saved
      modifies `dbs, `infos
      ensures SameBounds(old(dbs), dbs) && Stored(dbs, infos, nodes, saved + UpTo(start, start + |chunk|), {})
    {
      hide Stored;
      assert saved + UpTo(start, start) == saved;
      for k := 0 to |chunk|
        invariant SameBounds(old(dbs), dbs) && Stored(dbs, infos, nodes, saved + UpTo(start, start + k), {})
      {
        assert chunk[k] == nodes[start + k];
        SaveNode(start + k, chunk[k], nodes, saved + UpTo(start, start + k), {});
        assert saved + UpTo(start, start + k) + {start + k} == saved + UpTo(start, start + k + 1);
      }
    }
  }

  /** A chunk of the snapshot that has not arrived before. */
  predicate Arrives(hash: bytes, chunk: Chunk, hashesToIdx: map<bytes, int>, chunks: seq<Chunk>, seen: set<int>)
  {
    && hash in hashesToIdx && 0 <= hashesToIdx[hash] < |chunks|
    && chunks[hashesToIdx[hash]] == chunk && hashesToIdx[hash] !in seen
  }

  /** Everything is stored, and every store has its info. */
  ghost predicate Recovered(dbs: seq<Db>, infos: seq<Info>, nodes: seq<bytes>)
  {
    Stored(dbs, infos, nodes, UpTo(0, |nodes|), Empties(dbs, |dbs|))
  }

  lemma EmptiesSame(a: seq<Db>, b: seq<Db>)
    requires SameBounds(a, b)
    ensures Empties(a, |a|) == Empties(b, |b|)
  {
  }

  /** Complete chunks and cuts together hold every node, and no node twice. */
  lemma AllSaved(chunks: seq<Chunk>, nodes: seq<bytes>, cuts: map<int, Range>, seen: set<int>)
    requires Tidy(chunks, nodes, cuts, |nodes|) && forall p :: 0 <= p < |chunks| ==> p in seen
    ensures SavedBy(chunks, nodes, seen) + cuts.Keys == UpTo(0, |nodes|)
    ensures forall j :: j in cuts ==> j !in SavedBy(chunks, nodes, seen)
  {
    forall j | 0 <= j < |nodes| && j !in cuts
      ensures j in SavedBy(chunks, nodes, seen)
    {
      assert Holds(chunks, j);
      var p :| 0 <= p < |chunks| && Within(chunks[p], j);
    }
  }

  /** The stores without nodes among the first n. */
  function Empties(dbs: seq<Db>, n: nat): set<nat>
  {
    set s: nat | s < n && s < |dbs| && Empty(dbs[s])
  }

  /** The nodes that arrived in parts are exactly the cut ones. */
  lemma KeysAreCuts(incomplete: map<int, seq<Item>>, chunks: seq<Chunk>, nodes: seq<bytes>, cuts: map<int, Range>, seen: set<int>)
    requires Tidy(chunks, nodes, cuts, |nodes|) && Listed(incomplete, chunks, seen) && forall p :: 0 <= p < |chunks| ==> p in seen
    ensures incomplete.Keys == cuts.Keys
  {
    forall j
      ensures j in incomplete <==> j in cuts
    {
      assert Parts(ItemsAt(incomplete, j), chunks, seen, j);
      if j in incomplete {
        assert PartAt(chunks, incomplete[j][0].idx, j);
      }
      if j in cuts {
        assert PartAt(chunks, cuts[j].a, j);
        assert HasIdx(ItemsAt(incomplete, j), cuts[j].a);
      }
    }
  }

  lemma CutFacts(incomplete: map<int, seq<Item>>, chunks: seq<Chunk>, nodes: seq<bytes>, cuts: map<int, Range>, seen: set<int>, j: int)
    requires Tidy(chunks, nodes, cuts, |nodes|) && Listed(incomplete, chunks, seen) && j in incomplete && j in cuts
    ensures 0 <= j < |nodes| && IsCut(chunks, cuts[j].a, cuts[j].b, nodes[j], j)
    ensures Parts(incomplete[j], chunks, seen, j) && forall p :: PartAt(chunks, p, j) ==> cuts[j].a <= p < cuts[j].b
  {
    assert Parts(ItemsAt(incomplete, j), chunks, seen, j);
  }

  function Total(ns: seq<nat>): nat
  {
    if ns == [] then 0 else Total(ns[..|ns| - 1]) + ns[|ns| - 1]
  }

  /** Databases of the given sizes, side by side and still empty. */
  predicate Fresh(dbs: seq<Db>, numKeys: seq<nat>)
  {
    && |dbs| == |numKeys|
    && forall s :: 0 <= s < |dbs| ==>
         dbs[s].start == Total(numKeys[..s]) && dbs[s].end == dbs[s].start + numKeys[s] && dbs[s].nodes == map[]
  }

  lemma FreshSnoc(dbs: seq<Db>, numKeys: seq<nat>, s: nat)
    requires s < |numKeys| && Fresh(dbs, numKeys[..s])
    ensures Fresh(dbs + [Db(Total(numKeys[..s]), Total(numKeys[..s]) + numKeys[s], map[])], numKeys[..s + 1])
    ensures Total(numKeys[..s + 1]) == Total(numKeys[..s]) + numKeys[s]
  {
    assert numKeys[..s + 1][..s] == numKeys[..s];
    assert forall i :: 0 <= i <= s ==> numKeys[..s + 1][..i] == numKeys[..i];
    assert forall i :: 0 <= i < s ==> numKeys[..s][..i] == numKeys[..i];
  }

  /** What the helper knows after the chunks in `seen` have arrived. */
  ghost predicate Gathered(dbs: seq<Db>, infos: seq<Info>, incomplete: map<int, seq<Item>>, chunks: seq<Chunk>, nodes: seq<bytes>, seen: set<int>)
  {
    Stored(dbs, infos, nodes, SavedBy(chunks, nodes, seen), {}) && Listed(incomplete, chunks, seen)
  }

  lemma PartShape(chunks: seq<Chunk>, nodes: seq<bytes>, cuts: map<int, Range>, p: int)
    requires Tidy(chunks, nodes, cuts, |nodes|) && 0 <= p < |chunks|
    ensures chunks[p].kind != Complete ==> |chunks[p].nodes| == 1 && Stretch(Chunk(chunks[p].start, Complete, []), nodes)
  {
  }

  function UpTo(a: int, b: int): (r: set<int>)
    ensures forall j :: j in r <==> a <= j < b
    decreases b - a
  {
    if b <= a then {} else UpTo(a, b - 1) + {b - 1}
  }

  lemma Elsewhere(dbs: seq<Db>, total: int, s: nat, t: nat, j: int)
    requires Layout(dbs, total) && s < |dbs| && t < |dbs| && s != t && dbs[s].start <= j < dbs[s].end
    ensures !(dbs[t].start <= j < dbs[t].end)
  {
    if s < t {
      Increasing(dbs, total, s, t);
    } else {
      Increasing(dbs, total, t, s);
    }
  }

  lemma LayoutSame(a: seq<Db>, b: seq<Db>, total: int)
    requires Layout(a, total) && SameBounds(a, b)
    ensures Layout(b, total)
  {
  }

  lemma PutSaved(before: seq<Db>, after: seq<Db>, nodes: seq<bytes>, saved: set<int>, s: nat, j: int)
    requires Layout(before, |nodes|) && Saved(before, nodes, saved) && s < |before| && before[s].start <= j < before[s].end && 0 <= j < |nodes|
    requires after == before[s := before[s].(nodes := before[s].nodes[j := nodes[j]])]
    ensures SameBounds(before, after) && Layout(after, |nodes|)
    ensures Saved(after, nodes, saved + {j})
  {
    LayoutSame(before, after, |nodes|);
    forall t | 0 <= t < |after|
      ensures SavedIn(after[t], nodes, saved + {j})
    {
      assert SavedIn(before[t], nodes, saved);
      if t != s {
        Elsewhere(before, |nodes|, s, t, j);
      }
    }
  }

  lemma RootedPut(before: seq<Db>, after: seq<Db>, nodes: seq<bytes>, saved: set<int>, s: nat, j: int)
    requires Layout(before, |nodes|) && s < |before| && before[s].start <= j < before[s].end && SameBounds(before, after)
    ensures Rooted(after, saved + {j}) == if j == before[s].start then Rooted(before, saved) + {s} else Rooted(before, saved)
  {
    forall t: nat | t < |before| && t != s && !Empty(before[t])
      ensures before[t].start != j
    {
      Elsewhere(before, |nodes|, s, t, j);
    }
  }

  // ---------------------------------------------------------------- the round trip

  /** Every number below n once, in some order. */
  ghost predicate Permutation(order: seq<int>, n: nat)
  {
    && |order| == n
    && (forall i :: 0 <= i < n ==> 0 <= order[i] < n)
    && (forall i, k :: 0 <= i < k < n ==> order[i] != order[k])
    && (forall p :: 0 <= p < n ==> p in order)
  }

  lemma {:induction false} FlatTotal(stores: seq<seq<bytes>>, numKeys: seq<nat>)
    requires |numKeys| == |stores| && forall i :: 0 <= i < |stores| ==> numKeys[i] == |stores[i]|
    ensures Total(numKeys) == |Flat(stores)|
  {
    if stores != [] {
      FlatTotal(stores[..|stores| - 1], numKeys[..|stores| - 1]);
    }
  }

  /** Where a store's nodes are among all. */
  lemma {:induction false} FlatAt(stores: seq<seq<bytes>>, s: nat, k: nat)
    requires s < |stores| && k < |stores[s]|
    ensures |Flat(stores[..s])| + k < |Flat(stores)| && Flat(stores)[|Flat(stores[..s])| + k] == stores[s][k]
    decreases |stores|
  {
    var front := stores[..|stores| - 1];
    if s < |front| {
      FlatAt(front, s, k);
      assert front[..s] == stores[..s];
    } else {
      assert stores[..s] == front;
    }
  }

  lemma FreshEnds(dbs: seq<Db>, numKeys: seq<nat>, s: nat)
    requires Fresh(dbs, numKeys) && s < |dbs|
    ensures dbs[s].end == Total(numKeys[..s + 1])
  {
    assert numKeys[..s + 1][..s] == numKeys[..s];
  }

  lemma FreshLayout(dbs: seq<Db>, numKeys: seq<nat>)
    requires Fresh(dbs, numKeys)
    ensures Layout(dbs, Total(numKeys))
  {
    forall s | 0 <= s < |dbs|
      ensures dbs[s].end == Total(numKeys[..s + 1])
    {
      FreshEnds(dbs, numKeys, s);
    }
    hide Total;
    assert numKeys[..|dbs|] == numKeys;
    if dbs == [] {
      NoKeys();
    } else {
      NoKeys();
      assert numKeys[..0] == [];
    }
  }

  lemma NoKeys()
    ensures Total([]) == 0
  {
  }

  lemma FreshStarts(dbs: seq<Db>, numKeys: seq<nat>, stores: seq<seq<bytes>>, s: nat)
    requires Fresh(dbs, numKeys) && |numKeys| == |stores| && (forall i :: 0 <= i < |stores| ==> numKeys[i] == |stores[i]|) && s < |dbs|
    ensures dbs[s].start == |Flat(stores[..s])| && dbs[s].end == dbs[s].start + |stores[s]|
  {
    FlatTotal(stores[..s], numKeys[..s]);
  }

  /** The databases are where the stores' nodes are. */
  ghost predicate Placed(dbs: seq<Db>, stores: seq<seq<bytes>>)
  {
    && |dbs| == |stores| && Layout(dbs, |Flat(stores)|)
    && forall s :: 0 <= s < |dbs| ==> dbs[s].start == |Flat(stores[..s])| && dbs[s].end == dbs[s].start + |stores[s]|
  }

  lemma FreshPlaced(dbs: seq<Db>, numKeys: seq<nat>, stores: seq<seq<bytes>>)
    requires Fresh(dbs, numKeys) && |numKeys| == |stores| && forall i :: 0 <= i < |stores| ==> numKeys[i] == |stores[i]|
    ensures Placed(dbs, stores)
  {
    hide Flat, Total;
    FreshLayout(dbs, numKeys);
    FlatTotal(stores, numKeys);
    forall s | 0 <= s < |dbs|
      ensures dbs[s].start == |Flat(stores[..s])| && dbs[s].end == dbs[s].start + |stores[s]|
    {
      FreshStarts(dbs, numKeys, stores, s);
    }
  }

  lemma PlacedSame(a: seq<Db>, b: seq<Db>, stores: seq<seq<bytes>>)
    requires Placed(a, stores) && SameBounds(a, b)
    ensures Placed(b, stores)
  {
    LayoutSame(a, b, |Flat(stores)|);
    hide Flat, Layout;
  }

  lemma FreshGathered(dbs: seq<Db>, numKeys: seq<nat>, chunks: seq<Chunk>, nodes: seq<bytes>)
    requires Fresh(dbs, numKeys) && Layout(dbs, |nodes|)
    ensures Gathered(dbs, [], map[], chunks, nodes, {})
  {
    assert SavedBy(chunks, nodes, {}) == {};
    assert Rooted(dbs, {}) + {} == {};
    forall j
      ensures Parts(ItemsAt(map[], j), chunks, {}, j)
    {
    }
  }

  /** Every database holds its own store, node for node, and there is exactly one info for every
      store, with the store's first node as its root. */
  ghost predicate Rebuilt(dbs: seq<Db>, infos: seq<Info>, stores: seq<seq<bytes>>)
  {
    && |dbs| == |stores| && |infos| == |stores|
    && (forall s :: 0 <= s < |stores| ==> |dbs[s].nodes| == |stores[s]| && Rebuilds(dbs[s], stores[s]))
    && (forall s: nat :: s < |stores| ==> RootInfo(s, stores[s]) in infos)
  }

  predicate Rebuilds(db: Db, store: seq<bytes>)
  {
    forall k :: 0 <= k < |store| ==> db.start + k in db.nodes && db.nodes[db.start + k] == store[k]
  }

  function RootInfo(s: nat, store: seq<bytes>): Info
  {
    Info(s, if store == [] then None else Some(store[0]))
  }

  lemma {:induction false} UpToSize(a: int, b: int)
    requires a <= b
    ensures |UpTo(a, b)| == b - a
    decreases b - a
  {
    if a < b {
      UpToSize(a, b - 1);
    }
  }

  function StoreSet(infos: seq<Info>): set<int>
  {
    if infos == [] then {} else StoreSet(infos[..|infos| - 1]) + {infos[|infos| - 1].store}
  }

  lemma {:induction false} StoreSetIs(infos: seq<Info>)
    ensures forall x :: x in StoreSet(infos) <==> exists a :: 0 <= a < |infos| && infos[a].store == x
    ensures (forall a, b :: 0 <= a < b < |infos| ==> infos[a].store != infos[b].store) ==> |StoreSet(infos)| == |infos|
  {
    if infos != [] {
      var front, n := infos[..|infos| - 1], |infos| - 1;
      StoreSetIs(front);
      assert forall a :: 0 <= a < n ==> front[a] == infos[a];
      forall x
        ensures x in StoreSet(infos) <==> exists a :: 0 <= a < |infos| && infos[a].store == x
      {
        if x in StoreSet(front) {
          var a :| 0 <= a < n && front[a].store == x;
          assert infos[a].store == x;
        } else if x == infos[n].store {
          assert 0 <= n < |infos|;
        }
      }
    }
  }

  /** One info for each of n stores makes n infos. */
  lemma InfoCount(infos: seq<Info>, dbs: seq<Db>, nodes: seq<bytes>, done: set<nat>)
    requires Informed(infos, dbs, nodes, done) && forall s: nat :: s < |dbs| <==> s in done
    ensures |infos| == |dbs|
  {
    StoreSetIs(infos);
    UpToSize(0, |dbs|);
    hide StoreSet, UpTo, InfoFor;
    forall x
      ensures x in StoreSet(infos) <==> 0 <= x < |dbs|
    {
      if x in StoreSet(infos) {
        var a :| 0 <= a < |infos| && infos[a].store == x;
        assert infos[a].store in done;
      }
      if 0 <= x < |dbs| {
        assert (x as nat) in done;
      }
    }
    assert StoreSet(infos) == UpTo(0, |dbs|);
  }

  lemma AllInformed(dbs: seq<Db>, nodes: seq<bytes>, s: nat)
    requires Layout(dbs, |nodes|)
    ensures s < |dbs| <==> s in Rooted(dbs, UpTo(0, |nodes|)) + Empties(dbs, |dbs|)
  {
    if s < |dbs| && !Empty(dbs[s]) {
      InBounds(dbs, |nodes|, s);
    }
  }

  lemma InBounds(dbs: seq<Db>, total: int, s: nat)
    requires Layout(dbs, total) && s < |dbs|
    ensures 0 <= dbs[s].start && dbs[s].end <= total
  {
    if s > 0 {
      Increasing(dbs, total, 0, s);
    }
    if s < |dbs| - 1 {
      Increasing(dbs, total, s, |dbs| - 1);
    }
  }

  lemma StoreRebuilt(db: Db, stores: seq<seq<bytes>>, s: nat)
    requires s < |stores| && db.start == |Flat(stores[..s])| && db.end == db.start + |stores[s]|
    requires SavedIn(db, Flat(stores), UpTo(0, |Flat(stores)|))
    ensures |db.nodes| == |stores[s]| && Rebuilds(db, stores[s])
  {
    hide Flat, UpTo;
    forall k | 0 <= k < |stores[s]|
      ensures db.start + k in db.nodes && db.nodes[db.start + k] == stores[s][k]
    {
      FlatAt(stores, s, k);
    }
    KeysRebuilt(db, stores, s);
    UpToSize(db.start, db.end);
    assert |db.nodes| == |db.nodes.Keys|;
  }

  lemma KeysRebuilt(db: Db, stores: seq<seq<bytes>>, s: nat)
    requires s < |stores| && db.start == |Flat(stores[..s])| && db.end == db.start + |stores[s]|
    requires SavedIn(db, Flat(stores), UpTo(0, |Flat(stores)|))
    ensures db.nodes.Keys == UpTo(db.start, db.end)
  {
    hide Flat, UpTo;
    forall j
      ensures j in db.nodes <==> j in UpTo(db.start, db.end)
    {
      if db.start <= j < db.end {
        FlatAt(stores, s, j - db.start);
      }
    }
  }

  lemma InfosRebuilt(dbs: seq<Db>, infos: seq<Info>, stores: seq<seq<bytes>>)
    requires Placed(dbs, stores) && Informed(infos, dbs, Flat(stores), Rooted(dbs, UpTo(0, |Flat(stores)|)) + Empties(dbs, |dbs|))
    ensures |infos| == |stores| && forall s: nat :: s < |stores| ==> RootInfo(s, stores[s]) in infos
  {
    var nodes := Flat(stores);
    var done := Rooted(dbs, UpTo(0, |nodes|)) + Empties(dbs, |dbs|);
    forall s: nat
      ensures s < |dbs| <==> s in done
    {
      AllInformed(dbs, nodes, s);
    }
    InfoCount(infos, dbs, nodes, done);
    hide Rooted, Empties, Flat, RootInfo, InfoFor, Layout;
    forall s: nat | s < |stores|
      ensures RootInfo(s, stores[s]) in infos
    {
      assert s in done;
      var a :| 0 <= a < |infos| && infos[a].store == s;
      InfoIsRoot(dbs, stores, s);
      assert infos[a] == InfoFor(dbs, nodes, s);
    }
  }

  lemma RecoveredIsRebuilt(dbs: seq<Db>, infos: seq<Info>, stores: seq<seq<bytes>>)
    requires Placed(dbs, stores) && Recovered(dbs, infos, Flat(stores))
    ensures Rebuilt(dbs, infos, stores)
  {
    hide Flat, Rooted, Empties, Informed, Layout;
    InfosRebuilt(dbs, infos, stores);
    forall s | 0 <= s < |stores|
      ensures |dbs[s].nodes| == |stores[s]| && Rebuilds(dbs[s], stores[s])
    {
      StoreRebuilt(dbs[s], stores, s);
    }
  }

  lemma InfoIsRoot(dbs: seq<Db>, stores: seq<seq<bytes>>, s: nat)
    requires s < |stores| && s < |dbs| && dbs[s].start == |Flat(stores[..s])| && dbs[s].end == dbs[s].start + |stores[s]|
    ensures InfoFor(dbs, Flat(stores), s) == RootInfo(s, stores[s])
  {
    if stores[s] != [] {
      FlatAt(stores, s, 0);
    }
  }

  /** Feeding the chunks to recovery in any order, once each, with the completion flag on the
      last, rebuilds all stores; it is refused exactly if some chunk is empty. */
  method Recover(h: Helper, stores: seq<seq<bytes>>, numKeys: seq<nat>, chunks: seq<Chunk>, ghost cuts: map<int, Range>, hashes: seq<bytes>, order: seq<int>)
    returns (ok: bool)
    requires Tidy(chunks, Flat(stores), cuts, |Flat(stores)|)
    requires |numKeys| == |stores| && forall i :: 0 <= i < |stores| ==> numKeys[i] == |stores[i]|
    requires |hashes| == |chunks| && Distinct(hashes)
    requires Permutation(order, |chunks|)
    modifies h
    ensures ok <==> NoEmpty(chunks)
    ensures ok ==> Rebuilt(h.dbs, h.infos, stores)
  {
    ghost var nodes := Flat(stores);
    ok := h.StartRecovery(hashes, numKeys, |stores|);
    FreshPlaced(h.dbs, numKeys, stores);
    FreshGathered(h.dbs, numKeys, chunks, nodes);
    ghost var start := h.dbs;
    hide Tidy, Gathered, Recovered, Fresh, Placed, Rebuilt, SameBounds;
    if |chunks| == 0 {
      ok := h.WriteRecoveryChunk([], None, true, chunks, nodes, cuts, {});
      PlacedSame(start, h.dbs, stores);
      RecoveredIsRebuilt(h.dbs, h.infos, stores);
      return;
    }
    ok := Feed(h, nodes, chunks, cuts, hashes, order);
    if ok {
      PlacedSame(start, h.dbs, stores);
      RecoveredIsRebuilt(h.dbs, h.infos, stores);
    }
  }

  method Feed(h: Helper, ghost nodes: seq<bytes>, chunks: seq<Chunk>, ghost cuts: map<int, Range>, hashes: seq<bytes>, order: seq<int>)
    returns (ok: bool)
    requires Tidy(chunks, nodes, cuts, |nodes|) && Gathered(h.dbs, h.infos, h.incomplete, chunks, nodes, {})
    requires |hashes| == |chunks| > 0 && Permutation(order, |chunks|)
    requires forall p :: 0 <= p < |hashes| ==> hashes[p] in h.hashesToIdx && h.hashesToIdx[hashes[p]] == p
    modifies h
    ensures ok <==> NoEmpty(chunks)
    ensures SameBounds(old(h.dbs), h.dbs)
    ensures ok ==> Recovered(h.dbs, h.infos, nodes)
  {
    hide Tidy, Gathered, Recovered, SameBounds;
    SameBoundsRefl(h.dbs);
    ghost var seen: set<int> := {};
    var n := |chunks|;
    for i := 0 to n
      invariant h.hashesToIdx == old(h.hashesToIdx) && SameBounds(old(h.dbs), h.dbs)
      invariant seen == set p | p in order[..i]
      invariant forall k :: 0 <= k < i ==> chunks[order[k]].nodes != []
      invariant i < n ==> Gathered(h.dbs, h.infos, h.incomplete, chunks, nodes, seen)
      invariant i == n ==> Recovered(h.dbs, h.infos, nodes)
    {
      ghost var before := h.dbs;
      var p := order[i];
      NotYet(order, n, i);
      ok := h.WriteRecoveryChunk(hashes[p], Some(chunks[p]), i == n - 1, chunks, nodes, cuts, seen);
      SameBoundsTrans(old(h.dbs), before, h.dbs);
      if !ok {
        return;
      }
      assert order[..i + 1] == order[..i] + [p];
      seen := seen + {p};
    }
    forall p | 0 <= p < n
      ensures chunks[p].nodes != []
    {
      assert p in order;
      var k :| 0 <= k < n && order[k] == p;
    }
    ok := true;
  }

  lemma NotYet(order: seq<int>, n: nat, i: nat)
    requires Permutation(order, n) && i < n
    ensures order[i] !in order[..i] && 0 <= order[i] < n
    ensures i == n - 1 ==> forall p :: 0 <= p < n ==> p in order[..i] || p == order[i]
  {
    assert forall k :: 0 <= k < i ==> order[k] != order[i];
    assert forall k :: 0 <= k < i ==> order[..i][k] == order[k];
    assert i == n - 1 ==> order == order[..i] + [order[i]];
    forall p | 0 <= p < n && i == n - 1
      ensures p in order[..i] || p == order[i]
    {
      assert p in order;
    }
  }

  predicate Distinct(hashes: seq<bytes>)
  {
    forall p, q :: 0 <= p < q < |hashes| ==> hashes[p] != hashes[q]
  }

  /** The round trip: if the chunks hash differently, the stores come back exactly if no oversized
      node comes first or directly after another one, in whatever order the chunks arrive. */
  method RoundTrip(h: Helper, stores: seq<seq<bytes>>, max: nat, hash: Chunk -> bytes, arrival: nat -> seq<int>)
    returns (chunks: seq<Chunk>, ok: bool)
    requires max > 0 && forall n: nat :: Permutation(arrival(n), n)
    modifies h
    ensures NoEmpty(chunks) <==> Roomy(Flat(stores), max)
    ensures Distinct(seq(|chunks|, i requires 0 <= i < |chunks| => hash(chunks[i]))) ==>
              (ok <==> Roomy(Flat(stores), max)) && (ok ==> Rebuilt(h.dbs, h.infos, stores))
  {
    var numKeys;
    ghost var cuts;
    chunks, numKeys, cuts := TakeSnapshot(stores, max);
    var hashes := seq(|chunks|, i requires 0 <= i < |chunks| => hash(chunks[i]));
    if !Distinct(hashes) {
      return chunks, false;
    }
    hide Tidy, Rebuilt, Roomy, NoEmpty, Permutation;
    ok := Recover(h, stores, numKeys, chunks, cuts, hashes, arrival(|chunks|));
  }

  /** One store whose only node is too large for a chunk: its snapshot has an empty chunk, which
      recovery refuses. */
  method OversizedRefused(h: Helper, hash: Chunk -> bytes, arrival: nat -> seq<int>) returns (chunks: seq<Chunk>, ok: bool)
    requires forall n: nat :: Permutation(arrival(n), n)
    modifies h
    ensures exists p :: 0 <= p < |chunks| && chunks[p].nodes == []
    ensures Distinct(seq(|chunks|, i requires 0 <= i < |chunks| => hash(chunks[i]))) ==> !ok
  {
    OversizedFirst();
    hide Roomy, Flat, Rebuilt, Permutation;
    chunks, ok := RoundTrip(h, [[[0, 0]]], 1, hash, arrival);
  }
}
