/** baseapp/baseapp.go over several blocks: check and deliver state, and what commits. */
module Blocks {
  import opened Bytes
  import opened AccountCache
  import opened Transactions
  import opened Sequences
  import Overlays
  import CacheStore

  /** BeginBlock; CheckTx, ReCheckTx, Simulate or DeliverTx, as the mode says; Commit. */
  datatype Happening = Begin | Tx(d: Delivery) | Commit

  /** What is committed, and what the two states show. */
  datatype Node = Node(root: World, check: World, deliver: Option<World>)

  predicate Delivers(mode: Mode)
  {
    mode == Deliver || mode == DeliverAfterPre
  }

  /** Without a deliver state, delivering and committing would dereference nil; here they do nothing. */
  ghost function Next(n: Node, h: Happening): Node
  {
    match h
    case Begin => if n.deliver == None then n.(deliver := Some(n.root)) else n
    case Tx(d) =>
      if !Delivers(d.mode) then n.(check := After(n.check, d))
      else if n.deliver == None then n
      else n.(deliver := Some(After(n.deliver.value, d)))
    case Commit => if n.deliver == None then n else Node(n.deliver.value, n.deliver.value, None)
  }

  ghost function Nodes(n: Node, hs: seq<Happening>): Node
    decreases |hs|
  {
    if hs == [] then n else Next(Nodes(n, hs[..|hs| - 1]), hs[|hs| - 1])
  }

  // ---------------------------------------------------------------- what one happening does

  /** A transaction took effect on a state as a whole, or not at all. */
  ghost predicate Happened(before: World, after: World, d: Delivery)
  {
    exists ok :: Atomic(d.chain, before, after, d.tx, d.mode, d.h, ok)
  }

  /** A block begins on what is committed. A delivery concerns the deliver state and any other transaction
      the check state, each as a whole or not at all. A commit makes what was delivered the committed
      state and the check state. Nothing else changes. */
  ghost predicate StepsTo(a: Node, h: Happening, b: Node)
  {
    match h
    case Begin => b == a.(deliver := Some(if a.deliver.Some? then a.deliver.value else a.root))
    case Tx(d) =>
      if d.mode == Deliver || d.mode == DeliverAfterPre then
        && b.root == a.root && b.check == a.check && (b.deliver.Some? <==> a.deliver.Some?)
        && (a.deliver.Some? ==> Happened(a.deliver.value, b.deliver.value, d))
      else
        b.root == a.root && b.deliver == a.deliver && Happened(a.check, b.check, d)
    case Commit => b == if a.deliver.Some? then Node(a.deliver.value, a.deliver.value, None) else a
  }

  lemma NextSteps(n: Node, h: Happening)
    ensures StepsTo(n, h, Next(n, h))
  {
    hide Atomic, After, Succeeds;
    if h.Tx? {
      DeliveryAtomic(n.check, h.d);
      if n.deliver.Some? {
        DeliveryAtomic(n.deliver.value, h.d);
      }
    }
  }

  /** Every happening of a run does what it should. */
  ghost predicate AllStep(n: Node, hs: seq<Happening>)
  {
    forall i :: 0 <= i < |hs| ==> StepsTo(Nodes(n, hs[..i]), hs[i], Nodes(n, hs[..i + 1]))
  }

  lemma RunSteps(n: Node, hs: seq<Happening>)
    ensures AllStep(n, hs)
  {
    hide Next, StepsTo;
    forall i | 0 <= i < |hs|
      ensures StepsTo(Nodes(n, hs[..i]), hs[i], Nodes(n, hs[..i + 1]))
    {
      assert hs[..i + 1][..i] == hs[..i];
      NextSteps(Nodes(n, hs[..i]), hs[i]);
    }
  }

  // ---------------------------------------------------------------- on flat maps

  /** What the next delivery would run on. */
  ghost function Tip(n: Node): World
  {
    if n.deliver.Some? then n.deliver.value else n.root
  }

  /** The deliveries that had a deliver state to run on. */
  ghost function Delivered(n: Node, hs: seq<Happening>): seq<Delivery>
    decreases |hs|
  {
    if hs == [] then []
    else
      var front, h := hs[..|hs| - 1], hs[|hs| - 1];
      Delivered(n, front)
      + if h.Tx? && Delivers(h.d.mode) && Nodes(n, front).deliver.Some? then [h.d] else []
  }

  /** Whatever is checked, begun and committed in between, the blocks carry one run of deliveries:
      every delivery runs on what all before it, in all blocks, have made. */
  lemma {:induction false} BlocksAreOneRun(n: Node, hs: seq<Happening>)
    ensures Tip(Nodes(n, hs)) == FlatRun(Tip(n), Delivered(n, hs))
    decreases |hs|
  {
    hide After;
    if hs != [] {
      var front, h := hs[..|hs| - 1], hs[|hs| - 1];
      BlocksAreOneRun(n, front);
      var done := Delivered(n, front);
      if h.Tx? && Delivers(h.d.mode) && Nodes(n, front).deliver.Some? {
        assert (done + [h.d])[..|done|] == done;
      } else {
        assert done + [] == done;
      }
    }
  }

  /** Right after a commit, what is committed and what is checked against are the run so far. */
  lemma CommittedIsRun(n: Node, hs: seq<Happening>)
    requires hs != [] && hs[|hs| - 1] == Commit && Nodes(n, hs[..|hs| - 1]).deliver.Some?
    ensures var r := Nodes(n, hs);
            r.root == r.check == FlatRun(Tip(n), Delivered(n, hs)) && r.deliver == None
  {
    BlocksAreOneRun(n, hs);
  }

  /** What was last committed, and the transactions checked since. */
  ghost function Checked(n: Node, hs: seq<Happening>): (World, seq<Delivery>)
    decreases |hs|
  {
    if hs == [] then (n.check, [])
    else
      var front, h := hs[..|hs| - 1], hs[|hs| - 1];
      var (base, ds) := Checked(n, front);
      if h == Commit && Nodes(n, front).deliver.Some? then (Nodes(n, front).deliver.value, [])
      else if h.Tx? && !Delivers(h.d.mode) then (base, ds + [h.d])
      else (base, ds)
  }

  /** Whatever is delivered in between, transactions are checked one after another on what was last committed. */
  lemma {:induction false} ChecksAreOneRun(n: Node, hs: seq<Happening>)
    ensures var (base, ds) := Checked(n, hs); Nodes(n, hs).check == FlatRun(base, ds)
    decreases |hs|
  {
    hide After;
    if hs != [] {
      var front, h := hs[..|hs| - 1], hs[|hs| - 1];
      ChecksAreOneRun(n, front);
      var (base, ds) := Checked(n, front);
      if h.Tx? {
        assert (ds + [h.d])[..|ds|] == ds;
      }
    }
  }

  /** One signed transaction succeeds at most once over all blocks. */
  lemma AtMostOnceOverBlocks(n: Node, hs: seq<Happening>, i: nat, j: nat)
    requires var ds := Delivered(n, hs);
             Gentle(Tip(n), ds) && i < j < |ds| < TWO_64 && ds[i].tx == ds[j].tx
    ensures var ds := Delivered(n, hs);
            !(Succeeds(FlatRun(Tip(n), ds[..i]), ds[i]) && Succeeds(FlatRun(Tip(n), ds[..j]), ds[j]))
  {
    AllDeliver(n, hs);
    AtMostOnce(Tip(n), Delivered(n, hs), i, j);
  }

  lemma {:induction false} AllDeliver(n: Node, hs: seq<Happening>)
    ensures forall i :: 0 <= i < |Delivered(n, hs)| ==> Delivers(Delivered(n, hs)[i].mode)
    decreases |hs|
  {
    if hs != [] {
      AllDeliver(n, hs[..|hs| - 1]);
    }
  }

  // ---------------------------------------------------------------- on caches

  datatype Roots = Roots(accounts: Layer, store: CacheStore.Store)

  function OtherOf(check: Branch, deliver: Option<Branch>): Branch
  {
    if deliver.Some? then deliver.value else check
  }

  ghost predicate OnRoots(r: Roots, b: Branch)
  {
    b.accounts.parent == r.accounts && b.store.parent == r.store && r.accounts.parent == null && r.store.parent == null
  }

  /** Both states stand on the committed roots. */
  ghost predicate Fine(r: Roots, check: Branch, deliver: Option<Branch>)
    reads check.accounts, check.accounts.chain, check.accounts.Objects(), check.store, check.store.chain
    reads var o := OtherOf(check, deliver); {o.accounts} + o.accounts.chain + {o.store} + o.store.chain
    reads OtherOf(check, deliver).accounts.Objects()
  {
    && Stands(check) && OnRoots(r, check) && r.accounts.Valid() && Keyed(r.accounts.View()) && r.store.Valid()
    && (deliver.Some? ==> Stands(deliver.value) && Siblings(check, deliver.value))
  }

  ghost function NodeOf(r: Roots, check: Branch, deliver: Option<Branch>): Node
    requires Fine(r, check, deliver)
    reads check.accounts, check.accounts.chain, check.accounts.Objects(), check.store, check.store.chain
    reads var o := OtherOf(check, deliver); {o.accounts} + o.accounts.chain + {o.store} + o.store.chain
    reads OtherOf(check, deliver).accounts.Objects()
  {
    Node(World(r.accounts.View(), r.store.View()), Shown(check), if deliver.Some? then Some(Shown(deliver.value)) else None)
  }

  /** A transaction on one of two states. */
  method RunFirst(b: Branch, ghost other: Branch, d: Delivery)
    requires Stands(b) && Stands(other) && Siblings(b, other)
    modifies b.accounts.chain, b.store.chain
    ensures Stands(b) && Stands(other) && Shown(other) == old(Shown(other)) && RootsStay(b)
    ensures Shown(b) == After(old(Shown(b)), d)
  {
    hide Layer.View, CacheStore.Store.View, Overlays.Coherent, FlatTx, Commits, Keyed;
    if d.tx.valid {
      var _ := RunBeside(d.chain, b, other, d.tx, d.mode, d.h);
    }
  }

  method RunDeliver(r: Roots, check: Branch, deliver: Branch, d: Delivery)
    requires Fine(r, check, Some(deliver)) && Delivers(d.mode)
    modifies deliver.accounts.chain, deliver.store.chain
    ensures Fine(r, check, Some(deliver))
    ensures NodeOf(r, check, Some(deliver)) == Next(old(NodeOf(r, check, Some(deliver))), Happening.Tx(d))
  {
    hide Layer.Valid, Layer.View, CacheStore.Store.Valid, CacheStore.Store.View, Keyed, After;
    RunFirst(deliver, check, d);
  }

  method RunCheck(r: Roots, check: Branch, deliver: Branch, d: Delivery)
    requires Fine(r, check, Some(deliver)) && !Delivers(d.mode)
    modifies check.accounts.chain, check.store.chain
    ensures Fine(r, check, Some(deliver))
    ensures NodeOf(r, check, Some(deliver)) == Next(old(NodeOf(r, check, Some(deliver))), Happening.Tx(d))
  {
    hide Layer.Valid, Layer.View, CacheStore.Store.Valid, CacheStore.Store.View, Keyed, After;
    RunFirst(check, deliver, d);
  }

  method RunCheckAlone(r: Roots, check: Branch, d: Delivery)
    requires Fine(r, check, None) && !Delivers(d.mode)
    modifies check.accounts.chain, check.store.chain
    ensures Fine(r, check, None)
    ensures NodeOf(r, check, None) == Next(old(NodeOf(r, check, None)), Happening.Tx(d))
  {
    hide Layer.View, CacheStore.Store.View, Overlays.Coherent, FlatTx, Commits, Keyed;
    if d.tx.valid {
      var _ := RunOn(d.chain, check, d.tx, d.mode, d.h);
    }
  }

  /** SetDeliverState. */
  method BeginBlock(r: Roots, check: Branch) returns (deliver: Branch)
    requires Fine(r, check, None)
    ensures fresh(deliver.accounts) && fresh(deliver.store) && Fine(r, check, Some(deliver))
    ensures NodeOf(r, check, Some(deliver)) == Next(old(NodeOf(r, check, None)), Begin)
  {
    hide Layer.View, CacheStore.Store.View, Overlays.Coherent, Keyed;
    deliver := NewBranch(r.accounts, r.store);
    OnTop(check.accounts);
    StoreOnTop(check.store);
  }

  /** Commit; the node halts if it would delete from the account store itself. */
  method CommitBlock(r: Roots, check: Branch, deliver: Branch) returns (ok: bool, next: Branch)
    requires Fine(r, check, Some(deliver))
    modifies deliver.accounts.chain, deliver.store.chain
    ensures ok <==> forall k :: k in old(deliver.accounts.cache) ==> !old(deliver.accounts.cache)[k].deleted
    ensures !ok ==> next == check
    ensures ok ==> fresh(next.accounts) && fresh(next.store) && Fine(r, next, None)
    ensures ok ==> NodeOf(r, next, None) == Next(old(NodeOf(r, check, Some(deliver))), Commit)
  {
    hide Layer.View, CacheStore.Store.View, Overlays.Coherent, Keyed;
    next := check;
    ok := WriteRoots(deliver);
    if ok {
      next := NewBranch(r.accounts, r.store);
    }
  }

  /** The layers of a state that stands on the roots. */
  lemma ChainsOf(r: Roots, b: Branch)
    requires Stands(b) && OnRoots(r, b)
    ensures b.accounts.chain == {b.accounts, r.accounts} && b.store.chain == {b.store, r.store}
  {
    hide Layer.View, CacheStore.Store.View, Overlays.Coherent, Keyed;
    assert r.accounts.Valid() && r.store.Valid();
    assert b.accounts.chain == (b.accounts.chain - {b.accounts}) + {b.accounts};
    assert b.store.chain == (b.store.chain - {b.store}) + {b.store};
  }

  ghost function ObjectsOf(r: Roots, check: Branch, deliver: Option<Branch>): set<object>
  {
    {r.accounts, r.store, check.accounts, check.store, OtherOf(check, deliver).accounts, OtherOf(check, deliver).store}
  }

  /** One happening. `ok` is false only for a commit of a block in which an account was removed. */
  method Advance(r: Roots, check: Branch, deliver: Option<Branch>, h: Happening) returns (ok: bool, check': Branch, deliver': Option<Branch>)
    requires Fine(r, check, deliver)
    modifies ObjectsOf(r, check, deliver)
    ensures ok ==> Fine(r, check', deliver') && NodeOf(r, check', deliver') == Next(old(NodeOf(r, check, deliver)), h)
    ensures fresh(ObjectsOf(r, check', deliver') - ObjectsOf(r, check, deliver))
    ensures !ok ==> h == Commit && deliver.Some?
                    && exists k :: k in old(deliver.value.accounts.cache) && old(deliver.value.accounts.cache)[k].deleted
  {
    ChainsOf(r, check);
    if deliver.Some? {
      ChainsOf(r, deliver.value);
    }
    hide Layer.Valid, Layer.View, CacheStore.Store.Valid, CacheStore.Store.View, Keyed, After, Stands;
    ok, check', deliver' := true, check, deliver;
    match h {
    case Begin =>
      if deliver == None {
        var b := BeginBlock(r, check);
        deliver' := Some(b);
      }
    case Tx(d) =>
      if Delivers(d.mode) {
        if deliver.Some? {
          RunDeliver(r, check, deliver.value, d);
        }
      } else if deliver.Some? {
        RunCheck(r, check, deliver.value, d);
      } else {
        RunCheckAlone(r, check, d);
      }
    case Commit =>
      if deliver.Some? {
        ok, check' := CommitBlock(r, check, deliver.value);
        deliver' := None;
      }
    }
  }

  /** Any run over any number of blocks ends as the flat node says, unless it halts at a commit. */
  method Run(r: Roots, check0: Branch, deliver0: Option<Branch>, hs: seq<Happening>) returns (done: nat, check: Branch, deliver: Option<Branch>)
    requires Fine(r, check0, deliver0)
    modifies ObjectsOf(r, check0, deliver0)
    ensures done <= |hs| && (done < |hs| ==> hs[done] == Commit)
    ensures done == |hs| ==> Fine(r, check, deliver) && NodeOf(r, check, deliver) == Nodes(old(NodeOf(r, check0, deliver0)), hs)
    ensures AllStep(old(NodeOf(r, check0, deliver0)), hs)
  {
    hide Fine, NodeOf, Next, AllStep;
    check, deliver := check0, deliver0;
    ghost var n := NodeOf(r, check0, deliver0);
    RunSteps(n, hs);
    assert hs[..0] == [];
    for i := 0 to |hs|
      invariant Fine(r, check, deliver) && NodeOf(r, check, deliver) == Nodes(n, hs[..i])
      invariant fresh(ObjectsOf(r, check, deliver) - ObjectsOf(r, check0, deliver0))
    {
      assert hs[..i + 1][..i] == hs[..i];
      var ok;
      ok, check, deliver := Advance(r, check, deliver, hs[i]);
      if !ok {
        return i, check, deliver;
      }
    }
    assert hs[..|hs|] == hs;
    done := |hs|;
  }
}
