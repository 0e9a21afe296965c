/** store/proofs: Merkle audit paths turned into inner operations that hash a leaf up
    to the root, and proofs that a key is absent. */
module MerkleProofs {
  import opened Bytes
  import opened Listing
  import Overlays
  import CacheStore

  /** The hash function, and the bytes of a leaf for a key and its value. */
  datatype Scheme = Scheme(hash: bytes -> bytes, leaf: (bytes, bytes) -> bytes)

  // ---------------------------------------------------------------- the tree of RFC 6962, section 2.1

  /** k is the largest power of two below n. */
  ghost predicate IsSplit(n: int, k: int)
  {
    k < n <= 2 * k && exists e: nat :: k == Pow2(e)
  }

  function Pow2(e: nat): nat
  {
    if e == 0 then 1 else 2 * Pow2(e - 1)
  }

  /** bits.Len: the number of bits in n. */
  function BitLen(n: nat): nat
  {
    if n == 0 then 0 else 1 + BitLen(n / 2)
  }

  function SplitPoint(n: nat): nat
    requires n >= 1
  {
    var k := Pow2(BitLen(n) - 1);
    if k == n then k / 2 else k
  }

  lemma {:induction false} BitLenBounds(n: nat)
    requires n >= 1
    ensures BitLen(n) >= 1 && Pow2(BitLen(n) - 1) <= n < 2 * Pow2(BitLen(n) - 1)
  {
    if n > 1 {
      BitLenBounds(n / 2);
      assert BitLen(n) - 1 == BitLen(n / 2);
      assert Pow2(BitLen(n) - 1) == 2 * Pow2(BitLen(n / 2) - 1);
    }
  }

  /** getSplitPoint is the split of RFC 6962, wherever there is one. */
  lemma SplitPointSplits(n: nat)
    requires n >= 2
    ensures IsSplit(n, SplitPoint(n))
    ensures forall k :: IsSplit(n, k) ==> k == SplitPoint(n)
  {
    BitLenBounds(n);
    var e: nat := BitLen(n) - 1;
    var k := SplitPoint(n);
    if Pow2(e) == n {
      assert e >= 1 && k == Pow2(e - 1);
    } else {
      assert k == Pow2(e);
    }
    forall j | IsSplit(n, j)
      ensures j == k
    {
      var f: nat, g: nat :| j == Pow2(f) && k == Pow2(g);
      if f < g {
        Doubling(f, g);
      } else if g < f {
        Doubling(g, f);
      }
    }
  }

  lemma {:induction false} Doubling(f: nat, g: nat)
    requires f < g
    ensures 2 * Pow2(f) <= Pow2(g)
    decreases g
  {
    if f + 1 < g {
      Doubling(f, g - 1);
    }
  }

  function LeafHash(s: Scheme, d: bytes): bytes
  {
    s.hash([0] + d)
  }

  function NodeHash(s: Scheme, l: bytes, r: bytes): bytes
  {
    s.hash([1] + l + r)
  }

  lemma SplitInside(n: nat)
    requires n >= 2
    ensures 0 < SplitPoint(n) < n
  {
    SplitPointSplits(n);
  }

  /** The Merkle Tree Hash. */
  function TreeHash(s: Scheme, ds: seq<bytes>): bytes
    decreases |ds|
  {
    if |ds| == 0 then s.hash([])
    else if |ds| == 1 then LeafHash(s, ds[0])
    else
      SplitInside(|ds|);
      var k := SplitPoint(|ds|);
      NodeHash(s, TreeHash(s, ds[..k]), TreeHash(s, ds[k..]))
  }

  /** A sibling on the way up, and whether it is to the right. */
  datatype Aunt = Aunt(hash: bytes, right: bool)

  /** The audit path of leaf m (section 2.1.1), from the leaf to the root. */
  function AuditPath(s: Scheme, ds: seq<bytes>, m: nat): seq<Aunt>
    requires m < |ds|
    decreases |ds|
  {
    if |ds| == 1 then []
    else
      SplitInside(|ds|);
      var k := SplitPoint(|ds|);
      if m < k then AuditPath(s, ds[..k], m) + [Aunt(TreeHash(s, ds[k..]), true)]
      else AuditPath(s, ds[k..], m - k) + [Aunt(TreeHash(s, ds[..k]), false)]
  }

  // ---------------------------------------------------------------- convert.go

  /** buildPath: on which side the sibling is, from the leaf to the root. */
  function BuildPath(idx: int, total: nat): seq<bool>
    decreases total
  {
    if total < 2 then []
    else
      SplitInside(total);
      var k := SplitPoint(total);
      if idx < k then BuildPath(idx, k) + [true] else BuildPath(idx - k, total - k) + [false]
  }

  /** buildPath has the length and the sides of the audit path. */
  lemma {:induction false} BuildPathIsAudit(s: Scheme, ds: seq<bytes>, m: nat)
    requires m < |ds|
    ensures |BuildPath(m, |ds|)| == |AuditPath(s, ds, m)|
    ensures forall i :: 0 <= i < |BuildPath(m, |ds|)| ==> BuildPath(m, |ds|)[i] == AuditPath(s, ds, m)[i].right
    decreases |ds|
  {
    if |ds| >= 2 {
      SplitInside(|ds|);
      var k := SplitPoint(|ds|);
      if m < k {
        BuildPathIsAudit(s, ds[..k], m);
      } else {
        BuildPathIsAudit(s, ds[k..], m - k);
      }
    }
  }

  /** merkle.SimpleProof: the audit path without the sides. */
  datatype SimpleProof = SimpleProof(index: int, total: nat, aunts: seq<bytes>)

  datatype InnerOp = InnerOp(prefix: bytes, suffix: bytes)

  method ConvertInnerOps(p: SimpleProof) returns (r: Option<seq<InnerOp>>)
    ensures r.Some? <==> |p.aunts| == |BuildPath(p.index, p.total)|
    ensures r.Some? ==> |r.value| == |p.aunts| && forall i :: 0 <= i < |r.value| ==>
              r.value[i] == OpFor(Aunt(p.aunts[i], BuildPath(p.index, p.total)[i]))
  {
    var path := BuildPath(p.index, p.total);
    if |p.aunts| != |path| {
      return None;
    }
    var inners := [];
    for i := 0 to |p.aunts|
      invariant |inners| == i && forall j :: 0 <= j < i ==> inners[j] == OpFor(Aunt(p.aunts[j], path[j]))
    {
      if path[i] {
        inners := inners + [InnerOp([1], p.aunts[i])];
      } else {
        inners := inners + [InnerOp([1] + p.aunts[i], [])];
      }
    }
    return Some(inners);
  }

  function OpFor(a: Aunt): InnerOp
  {
    if a.right then InnerOp([1], a.hash) else InnerOp([1] + a.hash, [])
  }

  /** What a verifier does with the inner operations. */
  function Fold(s: Scheme, ops: seq<InnerOp>, leaf: bytes): bytes
  {
    if ops == [] then leaf
    else
      var op := ops[|ops| - 1];
      s.hash(op.prefix + Fold(s, ops[..|ops| - 1], leaf) + op.suffix)
  }

  function OpsFor(path: seq<Aunt>): seq<InnerOp>
  {
    if path == [] then [] else OpsFor(path[..|path| - 1]) + [OpFor(path[|path| - 1])]
  }

  /** Hashing a leaf up its audit path gives the Merkle Tree Hash. */
  lemma {:induction false} FoldIsTreeHash(s: Scheme, ds: seq<bytes>, m: nat)
    requires m < |ds|
    ensures Fold(s, OpsFor(AuditPath(s, ds, m)), LeafHash(s, ds[m])) == TreeHash(s, ds)
    decreases |ds|
  {
    if |ds| >= 2 {
      SplitInside(|ds|);
      var k := SplitPoint(|ds|);
      var left, right := ds[..k], ds[k..];
      if m < k {
        FoldIsTreeHash(s, left, m);
        FoldStep(s, AuditPath(s, left, m), Aunt(TreeHash(s, right), true), LeafHash(s, ds[m]));
      } else {
        FoldIsTreeHash(s, right, m - k);
        FoldStep(s, AuditPath(s, right, m - k), Aunt(TreeHash(s, left), false), LeafHash(s, ds[m]));
      }
    }
  }

  lemma FoldStep(s: Scheme, path: seq<Aunt>, a: Aunt, leaf: bytes)
    ensures var below := Fold(s, OpsFor(path), leaf);
            Fold(s, OpsFor(path + [a]), leaf) == if a.right then NodeHash(s, below, a.hash) else NodeHash(s, a.hash, below)
  {
    assert (path + [a])[..|path|] == path;
    var ops := OpsFor(path + [a]);
    assert ops[..|ops| - 1] == OpsFor(path);
    var below := Fold(s, OpsFor(path), leaf);
    assert [1] + a.hash + below + [] == [1] + a.hash + below;
  }

  // ---------------------------------------------------------------- create.go

  datatype ExistenceProof = ExistenceProof(key: bytes, value: bytes, path: seq<InnerOp>)

  datatype NonExistenceProof = NonExistenceProof(key: bytes, left: Option<ExistenceProof>, right: Option<ExistenceProof>)

  type Data = map<bytes, bytes>

  function Leaves(s: Scheme, xs: seq<Pair<bytes>>): seq<bytes>
  {
    seq(|xs|, i requires 0 <= i < |xs| => s.leaf(xs[i].key, xs[i].value))
  }

  /** The root of the tree over a map, whose leaves are sorted by key. */
  ghost function Root(s: Scheme, data: Data): bytes
  {
    TreeHash(s, Leaves(s, CacheStore.ListingOf(data, true)))
  }

  /** The proof leads from its key and value to the root. */
  ghost predicate Verifies(s: Scheme, root: bytes, p: ExistenceProof)
  {
    Fold(s, p.path, LeafHash(s, s.leaf(p.key, p.value))) == root
  }

  function AuntHashes(path: seq<Aunt>): seq<bytes>
  {
    seq(|path|, i requires 0 <= i < |path| => path[i].hash)
  }

  /** merkle.SimpleProofsFromMap, for one key: the audit path in the sorted tree. */
  method SimpleProofFor(s: Scheme, data: Data, key: bytes) returns (p: SimpleProof, ghost m: nat)
    requires key in data
    ensures var xs := CacheStore.ListingOf(data, true);
            && m < |xs| && xs[m] == Pair(key, data[key])
            && p == SimpleProof(m, |xs|, AuntHashes(AuditPath(s, Leaves(s, xs), m)))
  {
    hide *;
    var xs := Overlays.ListMap(data, true);
    ListingUnique(xs, CacheStore.ListingOf(data, true), true);
    var i := IndexOf(xs, key);
    Overlays.SortedLookup(xs, i);
    m := i;
    assert xs[i] == Pair(key, data[key]);
    LeafCount(s, xs);
    p := SimpleProof(i, |xs|, AuntHashes(AuditPath(s, Leaves(s, xs), i)));
  }

  lemma LeafCount(s: Scheme, xs: seq<Pair<bytes>>)
    ensures |Leaves(s, xs)| == |xs|
  {
  }

  method IndexOf(xs: seq<Pair<bytes>>, key: bytes) returns (i: nat)
    requires key in MapOf(xs)
    ensures i < |xs| && xs[i].key == key
  {
    KeysOfMap(xs);
    hide MapOf;
    i := 0;
    while i < |xs| && xs[i].key != key
      invariant 0 <= i <= |xs| && forall j :: 0 <= j < i ==> xs[j].key != key
    {
      i := i + 1;
    }
  }

  predicate HasEmptyKey(data: Data)
  {
    [] in data
  }

  /** createExistenceProof: succeeds exactly for keys in the map, unless an empty key is in it, and
      then verifies against the root. */
  method CreateExistenceProof(s: Scheme, data: Data, key: bytes) returns (r: Option<ExistenceProof>)
    ensures r.Some? <==> !HasEmptyKey(data) && key in data
    ensures r.Some? ==> r.value.key == key && r.value.value == data[key] && Verifies(s, Root(s, data), r.value)
  {
    if [] in data {
      return None;
    }
    if key !in data {
      return None;
    }
    var p, m := SimpleProofFor(s, data, key);
    ghost var xs := CacheStore.ListingOf(data, true);
    ghost var ds := Leaves(s, xs);
    BuildPathIsAudit(s, ds, m);
    var ops := ConvertInnerOps(p);
    if ops == None {
      return None;
    }
    OpsAre(AuditPath(s, ds, m), ops.value);
    FoldIsTreeHash(s, ds, m);
    return Some(ExistenceProof(key, data[key], ops.value));
  }

  lemma {:induction false} OpsAre(path: seq<Aunt>, ops: seq<InnerOp>)
    requires |ops| == |path| && forall i :: 0 <= i < |path| ==> ops[i] == OpFor(path[i])
    ensures ops == OpsFor(path)
  {
    if path != [] {
      OpsAre(path[..|path| - 1], ops[..|path| - 1]);
      assert ops == ops[..|path| - 1] + [ops[|path| - 1]];
    }
  }

  /** CreateMembershipProof. */
  method CreateMembershipProof(s: Scheme, data: Data, key: bytes) returns (r: Option<ExistenceProof>)
    ensures r.Some? <==> key != [] && !HasEmptyKey(data) && key in data
    ensures r.Some? ==> r.value.key == key && r.value.value == data[key] && Verifies(s, Root(s, data), r.value)
  {
    if |key| == 0 {
      return None;
    }
    r := CreateExistenceProof(s, data, key);
  }

  /** sort.SearchStrings: the first index whose key is not below the one sought. */
  method Search(xs: seq<Pair<bytes>>, key: bytes) returns (r: nat)
    requires Sorted(xs, true)
    ensures r <= |xs|
    ensures forall i :: 0 <= i < r ==> Less(xs[i].key, key)
    ensures forall i :: r <= i < |xs| ==> !Less(xs[i].key, key)
  {
    var lo, hi := 0, |xs|;
    while lo < hi
      invariant 0 <= lo <= hi <= |xs|
      invariant forall i :: 0 <= i < lo ==> Less(xs[i].key, key)
      invariant forall i :: hi <= i < |xs| ==> !Less(xs[i].key, key)
    {
      var mid := (lo + hi) / 2;
      if Less(xs[mid].key, key) {
        forall i | lo <= i < mid
          ensures Less(xs[i].key, key)
        {
          KeysOrdered(xs, i, mid);
          LessTransitive(xs[i].key, xs[mid].key, key);
        }
        lo := mid + 1;
      } else {
        forall i | mid < i < hi
          ensures !Less(xs[i].key, key)
        {
          KeysOrdered(xs, mid, i);
          if Less(xs[i].key, key) {
            LessTransitive(xs[mid].key, xs[i].key, key);
          }
        }
        hi := mid;
      }
    }
    r := lo;
  }

  /** No key of the map lies between the two, and the one sought does. */
  ghost predicate Neighbours(data: Data, key: bytes, left: Option<bytes>, right: Option<bytes>)
  {
    && (left.Some? ==> left.value in data && Less(left.value, key))
    && (right.Some? ==> right.value in data && Less(key, right.value))
    && (forall k :: k in data && Less(k, key) ==> left.Some? && LessEq(k, left.value))
    && (forall k :: k in data && Less(key, k) ==> right.Some? && LessEq(right.value, k))
  }

  function KeyOf(p: Option<ExistenceProof>): Option<bytes>
  {
    if p.None? then None else Some(p.value.key)
  }

  /** CreateNonMembershipProof: for a key that is not in the map, proofs of the keys next to it. */
  method CreateNonMembershipProof(s: Scheme, data: Data, key: bytes) returns (r: Option<NonExistenceProof>)
    ensures r.Some? <==> key != [] && key !in data && !HasEmptyKey(data)
    ensures r.Some? ==> r.value.key == key && Neighbours(data, key, KeyOf(r.value.left), KeyOf(r.value.right))
    ensures r.Some? && r.value.left.Some? ==> Verifies(s, Root(s, data), r.value.left.value)
    ensures r.Some? && r.value.right.Some? ==> Verifies(s, Root(s, data), r.value.right.value)
  {
    if |key| == 0 {
      return None;
    }
    if key in data {
      return None;
    }
    var xs := Overlays.ListMap(data, true);
    KeysOfMap(xs);
    var at := Search(xs, key);
    FoundNeighbours(xs, data, key, at);
    var left, right := None, None;
    if at >= 1 {
      left := CreateExistenceProof(s, data, xs[at - 1].key);
      if left == None {
        return None;
      }
    }
    if at < |xs| {
      right := CreateExistenceProof(s, data, xs[at].key);
      if right == None {
        return None;
      }
    }
    return Some(NonExistenceProof(key, left, right));
  }

  lemma FoundNeighbours(xs: seq<Pair<bytes>>, data: Data, key: bytes, at: nat)
    requires Sorted(xs, true) && MapOf(xs) == data && key !in data && at <= |xs|
    requires forall i :: 0 <= i < at ==> Less(xs[i].key, key)
    requires forall i :: at <= i < |xs| ==> !Less(xs[i].key, key)
    ensures Neighbours(data, key, if at >= 1 then Some(xs[at - 1].key) else None, if at < |xs| then Some(xs[at].key) else None)
    ensures HasEmptyKey(data) ==> at >= 1 || key == []
  {
    KeysOfMap(xs);
    forall k | k in data
      ensures Less(k, key) ==> at >= 1 && LessEq(k, xs[at - 1].key)
      ensures Less(key, k) ==> at < |xs| && LessEq(xs[at].key, k)
      ensures k == [] && key != [] ==> at >= 1
    {
      var i :| 0 <= i < |xs| && xs[i].key == k;
      CompareTotal(k, key);
      if i < at - 1 {
        KeysOrdered(xs, i, at - 1);
      } else if i > at {
        KeysOrdered(xs, at, i);
      }
    }
    if at < |xs| {
      CompareTotal(xs[at].key, key);
    }
  }
}
