/** store/statesync_helper.go, first half: the nodes of all stores are packed into
    chunks of bounded size; a node larger than a chunk is cut into parts. */
module Snapshot {
  import opened Bytes

  datatype Completeness = Complete | First | Mid | Last

  datatype Chunk = Chunk(start: int, kind: Completeness, nodes: seq<bytes>)

  /** Total length of some nodes. */
  function Size(nodes: seq<bytes>): nat
  {
    if nodes == [] then 0 else Size(nodes[..|nodes| - 1]) + |nodes[|nodes| - 1]|
  }

  function Join(parts: seq<bytes>): bytes
  {
    if parts == [] then [] else Join(parts[..|parts| - 1]) + parts[|parts| - 1]
  }

  predicate Oversized(node: bytes, max: nat)
  {
    |node| > max
  }

  // ---------------------------------------------------------------- what the chunks say

  /** The chunks from a up to b are the parts of one node, in order. */
  predicate IsCut(chunks: seq<Chunk>, a: nat, b: nat, node: bytes, j: int)
  {
    && a + 2 <= b <= |chunks|
    && (forall p :: a <= p < b ==>
          && chunks[p].start == j && |chunks[p].nodes| == 1
          && chunks[p].kind == if p == a then First else if p == b - 1 then Last else Mid)
    && Join(PartsIn(chunks, a, b)) == node
  }

  function PartsIn(chunks: seq<Chunk>, a: nat, b: nat): seq<bytes>
    requires a <= b <= |chunks|
  {
    seq(b - a, i requires 0 <= i < b - a => if chunks[a + i].nodes == [] then [] else chunks[a + i].nodes[0])
  }

  /** Where the chunks of a cut node are. */
  datatype Range = Range(a: nat, b: nat)

  /** A complete chunk holds a stretch of the nodes. */
  predicate Stretch(c: Chunk, nodes: seq<bytes>)
  {
    0 <= c.start && c.start + |c.nodes| <= |nodes| && c.nodes == nodes[c.start..c.start + |c.nodes|]
  }

  predicate Within(c: Chunk, j: int)
  {
    c.kind == Complete && c.start <= j < c.start + |c.nodes|
  }

  predicate Stretches(chunks: seq<Chunk>, nodes: seq<bytes>, upto: int)
  {
    forall p :: 0 <= p < |chunks| && chunks[p].kind == Complete ==>
      Stretch(chunks[p], nodes) && chunks[p].start + |chunks[p].nodes| <= upto
  }

  /** No node is in two complete chunks, or in one and also cut. */
  ghost predicate Disjoint(chunks: seq<Chunk>, cuts: map<int, Range>)
  {
    && (forall p, q, j :: 0 <= p < q < |chunks| ==> !(Within(chunks[p], j) && Within(chunks[q], j)))
    && (forall p, j :: 0 <= p < |chunks| && Within(chunks[p], j) ==> j !in cuts)
  }

  ghost predicate CutsHold(chunks: seq<Chunk>, nodes: seq<bytes>, cuts: map<int, Range>, upto: int)
  {
    && (forall j :: j in cuts ==> 0 <= j < upto && j < |nodes| && IsCut(chunks, cuts[j].a, cuts[j].b, nodes[j], j))
    && (forall p :: 0 <= p < |chunks| && chunks[p].kind != Complete ==>
          chunks[p].start in cuts && cuts[chunks[p].start].a <= p < cuts[chunks[p].start].b)
  }

  ghost predicate Covered(chunks: seq<Chunk>, cuts: map<int, Range>, upto: int)
  {
    forall j :: 0 <= j < upto ==> j in cuts || Holds(chunks, j)
  }

  /** Some complete chunk holds node j. */
  predicate Holds(chunks: seq<Chunk>, j: int)
  {
    exists p :: 0 <= p < |chunks| && Within(chunks[p], j)
  }

  /** The chunks hold the first `upto` nodes, each exactly once. */
  ghost predicate Tidy(chunks: seq<Chunk>, nodes: seq<bytes>, cuts: map<int, Range>, upto: int)
  {
    && 0 <= upto <= |nodes|
    && Stretches(chunks, nodes, upto) && Disjoint(chunks, cuts)
    && CutsHold(chunks, nodes, cuts, upto) && Covered(chunks, cuts, upto)
  }

  /** Recovery refuses a chunk without nodes. */
  predicate NoEmpty(chunks: seq<Chunk>)
  {
    forall p :: 0 <= p < |chunks| ==> chunks[p].nodes != []
  }

  /** No oversized node comes first or directly after another one. */
  predicate Roomy(nodes: seq<bytes>, max: nat)
  {
    forall i :: 0 <= i < |nodes| && Oversized(nodes[i], max) ==> i > 0 && !Oversized(nodes[i - 1], max)
  }

  /** A store whose first node is too large for a chunk. */
  lemma OversizedFirst()
    ensures !Roomy(Flat([[[0, 0]]]), 1)
  {
    var stores: seq<seq<bytes>> := [[[0, 0]]];
    assert stores[..0] == [];
    assert Flat(stores) == [] + stores[0];
    assert Oversized(Flat(stores)[0], 1);
  }

  predicate Bounded(chunks: seq<Chunk>, max: nat)
  {
    forall p :: 0 <= p < |chunks| ==> Size(chunks[p].nodes) <= max
  }

  // ---------------------------------------------------------------- cutting a node

  /** The parts of an oversized node, in a loop as long as more than a chunk is left. */
  method CutNode(node: bytes, j: int, max: nat) returns (parts: seq<Chunk>)
    requires max > 0 && |node| > max
    ensures IsCut(parts, 0, |parts|, node, j) && NoEmpty(parts) && Bounded(parts, max)
  {
    var first := node[..max];
    parts := [Chunk(j, First, [first])];
    var done := max;
    assert PartsIn(parts, 0, 1) == [first];
    OneSize(first);
    assert Join([first]) == first;
    while done + max < |node|
      invariant 0 < done < |node| && |parts| >= 1
      invariant forall p :: 0 <= p < |parts| ==>
                  parts[p].start == j && |parts[p].nodes| == 1 && parts[p].kind == (if p == 0 then First else Mid)
      invariant forall p :: 0 <= p < |parts| ==> |parts[p].nodes[0]| <= max
      invariant Join(PartsIn(parts, 0, |parts|)) == node[..done]
    {
      var c := Chunk(j, Mid, [node[done..done + max]]);
      OnePart(parts, c);
      assert node[..done] + node[done..done + max] == node[..done + max];
      parts, done := parts + [c], done + max;
    }
    var last := Chunk(j, Last, [node[done..]]);
    OnePart(parts, last);
    assert node[..done] + node[done..] == node;
    parts := parts + [last];
    forall p | 0 <= p < |parts|
      ensures Size(parts[p].nodes) <= max
    {
      OneSize(parts[p].nodes[0]);
      assert parts[p].nodes == [parts[p].nodes[0]];
    }
  }

  lemma OnePart(parts: seq<Chunk>, c: Chunk)
    requires |c.nodes| == 1
    ensures Join(PartsIn(parts + [c], 0, |parts| + 1)) == Join(PartsIn(parts, 0, |parts|)) + c.nodes[0]
  {
    assert PartsIn(parts + [c], 0, |parts| + 1)[..|parts|] == PartsIn(parts, 0, |parts|);
  }

  lemma OneSize(x: bytes)
    ensures Size([x]) == |x| && Join([x]) == x
  {
    assert [x][..0] == [];
  }

  // ---------------------------------------------------------------- packing

  /** The variables of the packing loop: chunks written, and the chunk being filled. */
  datatype Packer = Packer(chunks: seq<Chunk>, cur: seq<bytes>, start: int, size: nat)

  ghost predicate Packed(pk: Packer, nodes: seq<bytes>, cuts: map<int, Range>, max: nat)
  {
    && Tidy(pk.chunks, nodes, cuts, pk.start) && pk.cur == nodes[pk.start..]
    && pk.size == Size(pk.cur) && pk.size <= max && Bounded(pk.chunks, max)
    && (NoEmpty(pk.chunks) <==> Roomy(nodes, max))
    && (pk.cur == [] <==> nodes == [] || Oversized(nodes[|nodes| - 1], max))
  }

  lemma TidyGrow(chunks: seq<Chunk>, nodes: seq<bytes>, cuts: map<int, Range>, upto: int, x: bytes)
    requires Tidy(chunks, nodes, cuts, upto)
    ensures Tidy(chunks, nodes + [x], cuts, upto)
  {
    hide IsCut, Disjoint, Covered;
    forall p | 0 <= p < |chunks| && chunks[p].kind == Complete
      ensures Stretch(chunks[p], nodes + [x])
    {
      assert Stretch(chunks[p], nodes);
    }
  }

  lemma CutExtends(chunks: seq<Chunk>, more: seq<Chunk>, a: nat, b: nat, node: bytes, j: int)
    requires IsCut(chunks, a, b, node, j)
    ensures IsCut(chunks + more, a, b, node, j)
  {
    assert PartsIn(chunks + more, a, b) == PartsIn(chunks, a, b);
  }

  lemma CutShifts(chunks: seq<Chunk>, parts: seq<Chunk>, node: bytes, j: int)
    requires IsCut(parts, 0, |parts|, node, j)
    ensures IsCut(chunks + parts, |chunks|, |chunks| + |parts|, node, j)
  {
    assert PartsIn(chunks + parts, |chunks|, |chunks| + |parts|) == PartsIn(parts, 0, |parts|);
    forall p | |chunks| <= p < |chunks| + |parts|
      ensures (chunks + parts)[p] == parts[p - |chunks|]
    {
    }
  }

  lemma CutsExtend(chunks: seq<Chunk>, more: seq<Chunk>, nodes: seq<bytes>, cuts: map<int, Range>, upto: int, now: int)
    requires CutsHold(chunks, nodes, cuts, upto) && upto <= now
    ensures forall j :: j in cuts ==> 0 <= j < now && j < |nodes| && IsCut(chunks + more, cuts[j].a, cuts[j].b, nodes[j], j)
  {
    forall j | j in cuts
      ensures IsCut(chunks + more, cuts[j].a, cuts[j].b, nodes[j], j)
    {
      CutExtends(chunks, more, cuts[j].a, cuts[j].b, nodes[j], j);
    }
  }

  lemma CoveredExtends(chunks: seq<Chunk>, more: seq<Chunk>, cuts: map<int, Range>, upto: int)
    requires Covered(chunks, cuts, upto)
    ensures Covered(chunks + more, cuts, upto)
  {
    forall j | 0 <= j < upto && j !in cuts
      ensures Holds(chunks + more, j)
    {
      assert Holds(chunks, j);
      var p :| 0 <= p < |chunks| && Within(chunks[p], j);
      assert (chunks + more)[p] == chunks[p];
    }
  }

  lemma DisjointFlush(chunks: seq<Chunk>, nodes: seq<bytes>, cuts: map<int, Range>, upto: int, c: Chunk)
    requires Stretches(chunks, nodes, upto) && Disjoint(chunks, cuts) && c.start == upto
    requires forall j :: j in cuts ==> j < upto
    ensures Disjoint(chunks + [c], cuts)
  {
    hide Stretch;
    var r := chunks + [c];
    assert forall p :: 0 <= p < |chunks| ==> r[p] == chunks[p];
    assert r[|chunks|] == c;
  }

  lemma StretchesFlush(chunks: seq<Chunk>, nodes: seq<bytes>, upto: int, c: Chunk)
    requires Stretches(chunks, nodes, upto) && 0 <= upto <= |nodes| && c == Chunk(upto, Complete, nodes[upto..])
    ensures Stretches(chunks + [c], nodes, |nodes|)
  {
    assert Stretch(c, nodes);
    hide Stretch;
  }

  lemma CutsFlush(chunks: seq<Chunk>, nodes: seq<bytes>, cuts: map<int, Range>, upto: int, c: Chunk)
    requires CutsHold(chunks, nodes, cuts, upto) && upto <= |nodes| && c.kind == Complete
    ensures CutsHold(chunks + [c], nodes, cuts, |nodes|)
  {
    CutsExtend(chunks, [c], nodes, cuts, upto, |nodes|);
    hide IsCut;
    assert forall p :: 0 <= p < |chunks| ==> (chunks + [c])[p] == chunks[p];
  }

  lemma CoveredFlush(chunks: seq<Chunk>, nodes: seq<bytes>, cuts: map<int, Range>, upto: int, c: Chunk)
    requires Covered(chunks, cuts, upto) && 0 <= upto <= |nodes| && c == Chunk(upto, Complete, nodes[upto..])
    ensures Covered(chunks + [c], cuts, |nodes|)
  {
    CoveredExtends(chunks, [c], cuts, upto);
    forall j | upto <= j < |nodes|
      ensures Holds(chunks + [c], j)
    {
      assert Within((chunks + [c])[|chunks|], j);
    }
  }

  /** Writing the chunk being filled. */
  lemma TidyFlush(chunks: seq<Chunk>, nodes: seq<bytes>, cuts: map<int, Range>, upto: int, c: Chunk)
    requires Tidy(chunks, nodes, cuts, upto) && c == Chunk(upto, Complete, nodes[upto..])
    ensures Tidy(chunks + [c], nodes, cuts, |nodes|)
  {
    assert forall j :: j in cuts ==> j < upto;
    hide Stretches, Disjoint, CutsHold, Covered;
    StretchesFlush(chunks, nodes, upto, c);
    DisjointFlush(chunks, nodes, cuts, upto, c);
    CutsFlush(chunks, nodes, cuts, upto, c);
    CoveredFlush(chunks, nodes, cuts, upto, c);
  }

  lemma DisjointCut(chunks: seq<Chunk>, nodes: seq<bytes>, cuts: map<int, Range>, j: int, range: Range, parts: seq<Chunk>)
    requires Stretches(chunks, nodes, j) && Disjoint(chunks, cuts)
    requires forall p :: 0 <= p < |parts| ==> parts[p].kind != Complete
    ensures Disjoint(chunks + parts, cuts[j := range])
  {
    hide Stretch;
    var r := chunks + parts;
    assert forall p :: 0 <= p < |chunks| ==> r[p] == chunks[p];
    assert forall p :: |chunks| <= p < |r| ==> r[p] == parts[p - |chunks|];
  }

  /** Writing the parts of a node. */
  lemma TidyCut(chunks: seq<Chunk>, nodes: seq<bytes>, cuts: map<int, Range>, node: bytes, parts: seq<Chunk>)
    requires Tidy(chunks, nodes, cuts, |nodes|) && IsCut(parts, 0, |parts|, node, |nodes|)
    ensures Tidy(chunks + parts, nodes + [node], cuts[|nodes| := Range(|chunks|, |chunks| + |parts|)], |nodes| + 1)
  {
    var n := |nodes|;
    var r, all, range := chunks + parts, nodes + [node], Range(|chunks|, |chunks| + |parts|);
    TidyGrow(chunks, nodes, cuts, n, node);
    CutShifts(chunks, parts, node, n);
    CutsExtend(chunks, parts, all, cuts, n, n + 1);
    CoveredExtends(chunks, parts, cuts, n);
    assert forall p :: 0 <= p < |parts| ==> parts[p].kind != Complete && parts[p].start == n;
    DisjointCut(chunks, nodes, cuts, n, range, parts);
    hide IsCut, Disjoint, Stretch, Within;
    assert forall p :: 0 <= p < |chunks| ==> r[p] == chunks[p];
    assert forall p :: |chunks| <= p < |r| ==> r[p] == parts[p - |chunks|];
  }

  lemma PackedAppend(pk: Packer, nodes: seq<bytes>, cuts: map<int, Range>, node: bytes, max: nat)
    requires Packed(pk, nodes, cuts, max) && pk.size + |node| <= max
    ensures Packed(pk.(cur := pk.cur + [node], size := pk.size + |node|), nodes + [node], cuts, max)
  {
    TidyGrow(pk.chunks, nodes, cuts, pk.start, node);
    hide Tidy, Size, Roomy, NoEmpty;
    SizeSnoc(pk.cur, node);
    RoomySnoc(nodes, node, max);
    TidyBounds(pk.chunks, nodes, cuts, pk.start);
    assert (nodes + [node])[pk.start..] == nodes[pk.start..] + [node];
  }

  lemma TidyBounds(chunks: seq<Chunk>, nodes: seq<bytes>, cuts: map<int, Range>, upto: int)
    requires Tidy(chunks, nodes, cuts, upto)
    ensures 0 <= upto <= |nodes|
  {
  }

  lemma NoEmptySnoc(chunks: seq<Chunk>, c: Chunk)
    ensures NoEmpty(chunks + [c]) <==> NoEmpty(chunks) && c.nodes != []
  {
    assert (chunks + [c])[|chunks|] == c;
    assert forall p :: 0 <= p < |chunks| ==> (chunks + [c])[p] == chunks[p];
  }

  lemma NoEmptyJoin(a: seq<Chunk>, b: seq<Chunk>)
    requires NoEmpty(b)
    ensures NoEmpty(a + b) <==> NoEmpty(a)
  {
    assert forall p :: 0 <= p < |a| ==> (a + b)[p] == a[p];
    assert forall p :: |a| <= p < |a + b| ==> (a + b)[p] == b[p - |a|];
  }

  lemma BoundedJoin(a: seq<Chunk>, b: seq<Chunk>, max: nat)
    requires Bounded(a, max) && Bounded(b, max)
    ensures Bounded(a + b, max)
  {
    hide Size;
    assert forall p :: |a| <= p < |a + b| ==> (a + b)[p] == b[p - |a|];
  }

  lemma BoundedOne(c: Chunk, max: nat)
    requires Size(c.nodes) <= max
    ensures Bounded([c], max)
  {
  }

  /** The chunk being filled is written, and a new one is begun with the node. */
  lemma PackedFresh(pk: Packer, nodes: seq<bytes>, cuts: map<int, Range>, node: bytes, max: nat, c: Chunk)
    requires Packed(pk, nodes, cuts, max) && |node| <= max && pk.cur != [] && c == Chunk(pk.start, Complete, pk.cur)
    ensures Packed(Packer(pk.chunks + [c], [node], |nodes|, |node|), nodes + [node], cuts, max)
  {
    hide Tidy, Size, Roomy, NoEmpty, Bounded;
    TidyFlush(pk.chunks, nodes, cuts, pk.start, c);
    TidyGrow(pk.chunks + [c], nodes, cuts, |nodes|, node);
    OneSize(node);
    RoomySnoc(nodes, node, max);
    NoEmptySnoc(pk.chunks, c);
    BoundedOne(c, max);
    BoundedJoin(pk.chunks, [c], max);
    assert (nodes + [node])[|nodes|..] == [node];
  }

  /** The chunk being filled is written, though it may be empty, and then the parts of the node. */
  lemma PackedCut(pk: Packer, nodes: seq<bytes>, cuts: map<int, Range>, node: bytes, max: nat, c: Chunk, parts: seq<Chunk>)
    requires Packed(pk, nodes, cuts, max) && Oversized(node, max) && c == Chunk(pk.start, Complete, pk.cur)
    requires IsCut(parts, 0, |parts|, node, |nodes|) && NoEmpty(parts) && Bounded(parts, max)
    ensures Packed(Packer(pk.chunks + [c] + parts, [], |nodes| + 1, 0), nodes + [node],
                   cuts[|nodes| := Range(|pk.chunks| + 1, |pk.chunks| + 1 + |parts|)], max)
  {
    hide Tidy, IsCut, Size, Roomy, NoEmpty, Bounded;
    TidyFlush(pk.chunks, nodes, cuts, pk.start, c);
    TidyCut(pk.chunks + [c], nodes, cuts, node, parts);
    RoomySnoc(nodes, node, max);
    NoEmptySnoc(pk.chunks, c);
    NoEmptyJoin(pk.chunks + [c], parts);
    BoundedOne(c, max);
    BoundedJoin(pk.chunks, [c], max);
    BoundedJoin(pk.chunks + [c], parts, max);
    assert (nodes + [node])[|nodes| + 1..] == [];
    EmptySize();
  }

  lemma EmptySize()
    ensures Size([]) == 0
  {
  }

  /** The body of the packing loop. */
  method AddNode(pk: Packer, ghost nodes: seq<bytes>, ghost cuts: map<int, Range>, node: bytes, max: nat)
    returns (r: Packer, ghost now: map<int, Range>)
    requires Packed(pk, nodes, cuts, max) && max > 0
    ensures Packed(r, nodes + [node], now, max)
  {
    hide Tidy, IsCut, Size, Roomy, NoEmpty, Bounded;
    now := cuts;
    if pk.size + |node| <= max {
      PackedAppend(pk, nodes, cuts, node, max);
      return pk.(cur := pk.cur + [node], size := pk.size + |node|), now;
    }
    var c := Chunk(pk.start, Complete, pk.cur);
    var chunks, start := pk.chunks + [c], pk.start + |pk.cur|;
    TidyBounds(pk.chunks, nodes, cuts, pk.start);
    if |node| > max {
      var parts := CutNode(node, start, max);
      PackedCut(pk, nodes, cuts, node, max, c, parts);
      now := cuts[|nodes| := Range(|pk.chunks| + 1, |pk.chunks| + 1 + |parts|)];
      return Packer(chunks + parts, [], start + 1, 0), now;
    }
    EmptySize();
    PackedFresh(pk, nodes, cuts, node, max, c);
    return Packer(chunks, [node], start, |node|), now;
  }

  lemma SizeSnoc(xs: seq<bytes>, x: bytes)
    ensures Size(xs + [x]) == Size(xs) + |x|
  {
    assert (xs + [x])[..|xs|] == xs;
  }

  lemma RoomySnoc(nodes: seq<bytes>, x: bytes, max: nat)
    ensures Roomy(nodes + [x], max) <==>
            Roomy(nodes, max) && (Oversized(x, max) ==> nodes != [] && !Oversized(nodes[|nodes| - 1], max))
  {
    var all := nodes + [x];
    assert forall i :: 0 <= i < |nodes| ==> all[i] == nodes[i];
    assert all[|nodes|] == x;
  }

  function Flat(stores: seq<seq<bytes>>): seq<bytes>
  {
    if stores == [] then [] else Flat(stores[..|stores| - 1]) + stores[|stores| - 1]
  }

  /** takeSnapshotImpl: the chunks hold every node of every store exactly once, in chunks of at
      most `max` bytes; an empty chunk is written exactly if an oversized node comes first or
      directly after another one. */
  method TakeSnapshot(stores: seq<seq<bytes>>, max: nat)
    returns (chunks: seq<Chunk>, numKeys: seq<nat>, ghost cuts: map<int, Range>)
    requires max > 0
    ensures |numKeys| == |stores| && forall i :: 0 <= i < |stores| ==> numKeys[i] == |stores[i]|
    ensures Tidy(chunks, Flat(stores), cuts, |Flat(stores)|) && Bounded(chunks, max)
    ensures NoEmpty(chunks) <==> Roomy(Flat(stores), max)
  {
    hide Tidy, Packed, Roomy, NoEmpty, Bounded;
    var pk := Packer([], [], 0, 0);
    cuts, numKeys := map[], [];
    ghost var nodes: seq<bytes> := [];
    assert stores[..0] == [];
    PackedStart(max);
    for s := 0 to |stores|
      invariant nodes == Flat(stores[..s]) && Packed(pk, nodes, cuts, max)
      invariant |numKeys| == s && forall i :: 0 <= i < s ==> numKeys[i] == |stores[i]|
    {
      assert stores[..s + 1][..s] == stores[..s];
      pk, cuts := AddStore(pk, nodes, cuts, stores[s], max);
      nodes := nodes + stores[s];
      numKeys := numKeys + [|stores[s]|];
    }
    assert stores[..|stores|] == stores;
    chunks, cuts := Finish(pk, nodes, cuts, max);
  }

  lemma PackedStart(max: nat)
    ensures Packed(Packer([], [], 0, 0), [], map[], max)
  {
  }

  method AddStore(pk: Packer, ghost nodes: seq<bytes>, ghost cuts: map<int, Range>, store: seq<bytes>, max: nat)
    returns (r: Packer, ghost now: map<int, Range>)
    requires Packed(pk, nodes, cuts, max) && max > 0
    ensures Packed(r, nodes + store, now, max)
  {
    hide Packed;
    r, now := pk, cuts;
    assert nodes + store[..0] == nodes;
    for i := 0 to |store|
      invariant Packed(r, nodes + store[..i], now, max)
    {
      assert nodes + store[..i + 1] == nodes + store[..i] + [store[i]];
      r, now := AddNode(r, nodes + store[..i], now, store[i], max);
    }
    assert store[..|store|] == store;
  }

  method Finish(pk: Packer, ghost nodes: seq<bytes>, ghost cuts: map<int, Range>, max: nat)
    returns (chunks: seq<Chunk>, ghost now: map<int, Range>)
    requires Packed(pk, nodes, cuts, max)
    ensures Tidy(chunks, nodes, now, |nodes|) && Bounded(chunks, max) && (NoEmpty(chunks) <==> Roomy(nodes, max))
  {
    hide IsCut, Size, Roomy, NoEmpty;
    TidyBounds(pk.chunks, nodes, cuts, pk.start);
    now := cuts;
    if |pk.cur| > 0 {
      var c := Chunk(pk.start, Complete, pk.cur);
      TidyFlush(pk.chunks, nodes, cuts, pk.start, c);
      NoEmptySnoc(pk.chunks, c);
      return pk.chunks + [c], now;
    }
    return pk.chunks, now;
  }
}
