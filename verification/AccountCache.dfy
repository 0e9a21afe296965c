/** x/auth/mapper.go: accounts kept as objects in a chain of caches over an
    account store. Objects are cloned on their way in and on their way out, so a
    holder of an account may change it without changing any cache. */
module AccountCache {
  import opened Bytes
  import opened Coins
  import opened Overlays
  import Listing

  /** What an account object holds. */
  datatype State = State(address: bytes, number: int64, sequence: int64, pubKey: Option<bytes>, coins: seq<Coin>)

  class Account {
    var state: State

    constructor (state: State)
      ensures this.state == state
    {
      this.state := state;
    }

    method Clone() returns (c: Account)
      ensures fresh(c) && c.state == state
    {
      c := new Account(state);
    }
  }

  datatype Entry = Entry(acc: Account?, deleted: bool, dirty: bool)

  ghost function ValueOf(acc: Account?): Option<State>
    reads acc
  {
    if acc == null then None else Some(acc.state)
  }

  /** One layer: accountStoreCache if it has no parent, accountCache otherwise. */
  class Layer {
    const parent: Layer?
    var store: map<bytes, State>       // accountStoreCache: the encoded accounts
    var lru: map<bytes, Account>       // accountStoreCache: some of them, decoded
    var cache: map<bytes, Entry>       // accountCache
    ghost var owned: set<Account>      // the account objects in lru and cache
    ghost const chain: set<Layer>
    ghost const depth: nat

    /** NewAccountStoreCache. */
    constructor Root(store: map<bytes, State>)
      ensures Valid() && parent == null && chain == {this} && owned == {} && View() == store
    {
      parent := null;
      this.store, lru, cache, owned := store, map[], map[], {};
      chain, depth := {this}, 0;
    }

    /** NewAccountCache and Cache: a fresh cache shows what is beneath it. */
    constructor Cache(parent: Layer)
      requires parent.Valid()
      ensures Valid() && this.parent == parent && chain == {this} + parent.chain && owned == {}
      ensures View() == parent.View() == old(parent.View())
      ensures forall s :: s in parent.chain && old(s.Valid()) ==> s.Valid() && s.View() == old(s.View())
    {
      this.parent := parent;
      store, lru, cache, owned := map[], map[], map[], {};
      chain, depth := {this} + parent.chain, parent.depth + 1;
      new;
      forall s | s in parent.chain && old(s.Valid())
        ensures s.Valid() && s.View() == old(s.View())
      {
        Same(s);
      }
      Same(parent);
      EmptyShows(parent.View());
      assert Values() == map[];
    }

    ghost function Objects(): set<Account>
      reads chain
    {
      set s, a | s in chain && a in s.owned :: a
    }

    ghost predicate Owned()
      reads this
    {
      && (forall k :: k in lru ==> lru[k] in owned)
      && (forall k :: k in cache && cache[k].acc != null ==> cache[k].acc in owned)
    }

    /** The cache entries as values. */
    ghost function Values(): map<bytes, CValue<State>>
      requires Owned()
      reads this, owned
    {
      map k | k in cache :: CValue(ValueOf(cache[k].acc), cache[k].deleted, cache[k].dirty)
    }

    ghost predicate Linked()
    {
      && this in chain
      && (forall s :: s in chain && s != this ==> s.chain <= chain - {this})
      && (parent == null ==> chain == {this})
      && (parent != null ==> parent in chain && parent.chain == chain - {this} && parent.depth < depth)
    }

    ghost predicate Valid()
      reads this, chain, Objects()
      decreases depth, 0
    {
      && Linked() && Owned()
      && (parent == null ==> forall k :: k in lru ==> k in store && lru[k].state == store[k])
      && (parent != null ==> parent.Valid() && Coherent(Values(), parent.View()))
    }

    /** What a reader of this layer sees. */
    ghost function View(): map<bytes, State>
      requires Valid()
      reads this, chain, Objects()
      decreases depth, 1
    {
      if parent == null then store else Overlay(parent.View(), Dirty(Values()))
    }

    /** The layers have only gained objects that nobody held before. */
    twostate predicate Grown()
      reads chain, Objects()
    {
      fresh(Objects() - old(Objects()))
    }

    /** setAccountToCache: keeps a clone. */
    method Keep(addr: bytes, acc: Account?, deleted: bool, dirty: bool)
      requires Owned()
      modifies this
      ensures Owned() && old(owned) <= owned && fresh(owned - old(owned))
      ensures cache.Keys == old(cache.Keys) + {addr}
      ensures Values() == old(Values())[addr := CValue(ValueOf(acc), deleted, dirty)]
    {
      var c := acc;
      if acc != null {
        c := acc.Clone();
        owned := owned + {c};
      }
      cache := cache[addr := Entry(c, deleted, dirty)];
    }

    /** Adds a clone of the object to the LRU cache, which may drop any others. */
    method Remember(addr: bytes, acc: Account)
      requires Owned()
      modifies `lru, `owned
      ensures Owned() && old(owned) <= owned && fresh(owned - old(owned))
      ensures forall k :: k in lru ==> if k == addr then lru[k].state == acc.state else k in old(lru) && lru[k] == old(lru)[k]
    {
      var c := acc.Clone();
      var kept :| kept <= lru.Keys;
      lru := (map k | k in lru && k in kept :: lru[k])[addr := c];
      owned := owned + {c};
    }

    /** The account shown at the address, as an object that no cache holds. */
    method GetAccount(addr: bytes) returns (acc: Account?)
      requires Valid()
      modifies chain
      ensures Valid() && View() == old(View()) && Grown()
      ensures forall s :: s in chain && old(s.Valid()) ==> s.Valid() && s.View() == old(s.View())
      ensures ValueOf(acc) == Lookup(View(), addr)
      ensures acc != null ==> fresh(acc) && acc !in Objects()
      decreases depth
    {
      hide Overlay, Dirty, Coherent;
      if parent == null {
        if addr in lru {
          acc := lru[addr].Clone();
          return;
        }
        if addr !in store {
          return null;
        }
        acc := new Account(store[addr]);
        Remember(addr, acc);
      } else {
        acc := GetThrough(addr);
      }
    }

    /** Looks the account up beneath and remembers it, unless it is cached. */
    method Fill(addr: bytes)
      requires Valid() && parent != null
      modifies chain
      ensures Valid() && View() == old(View()) && Grown() && addr in cache
      ensures forall s :: s in chain && old(s.Valid()) ==> s.Valid() && s.View() == old(s.View())
      decreases depth, 0
    {
      hide Overlay, Dirty, Coherent;
      if addr !in cache {
        var acc := parent.GetAccount(addr);
        label read:
        Remembered(Values(), parent.View(), addr);
        Keep(addr, acc, false, false);
        forall s | s in parent.chain && old(s.Valid())
          ensures s.Valid() && s.View() == old(s.View())
        {
          Same@read(s);
        }
      }
    }

    method GetThrough(addr: bytes) returns (acc: Account?)
      requires Valid() && parent != null
      modifies chain
      ensures Valid() && View() == old(View()) && Grown()
      ensures forall s :: s in chain && old(s.Valid()) ==> s.Valid() && s.View() == old(s.View())
      ensures ValueOf(acc) == Lookup(View(), addr)
      ensures acc != null ==> fresh(acc) && acc !in Objects()
      decreases depth, 1
    {
      hide Overlay, Dirty, Coherent;
      Fill(addr);
      CachedIsShown(Values(), parent.View(), addr);
      acc := cache[addr].acc;
      label filled:
      if acc != null {
        acc := acc.Clone();
      }
      forall s | s in chain && old(s.Valid())
        ensures s.Valid() && s.View() == old(s.View())
      {
        Same@filled(s);
      }
      Same@filled(this);
    }

    method SetAccount(addr: bytes, acc: Account)
      requires Valid()
      modifies this
      ensures Valid() && View() == old(View())[addr := acc.state]
      ensures old(owned) <= owned && fresh(owned - old(owned))
    {
      hide Overlay, Dirty, Coherent;
      if parent == null {
        Remember(addr, acc);
        store := store[addr := acc.state];
      } else {
        SetShows(Values(), parent.View(), addr, acc.state);
        Keep(addr, acc, false, true);
        Beneath();
      }
    }

    /** Delete on the account store itself clones nil, which panics. */
    method Delete(addr: bytes) returns (ok: bool)
      requires Valid()
      modifies this
      ensures ok <==> parent != null
      ensures ok ==> Valid() && View() == old(View()) - {addr}
      ensures !ok ==> unchanged(this)
      ensures old(owned) <= owned && fresh(owned - old(owned))
    {
      hide Overlay, Dirty, Coherent;
      if parent == null {
        return false;
      }
      DeleteShows(Values(), parent.View(), addr);
      Keep(addr, null, true, true);
      Beneath();
      return true;
    }

    /** Write: the parent comes to show what this layer showed; the layer starts
        afresh. Fails exactly if it would delete from the account store itself. */
    method Write() returns (ok: bool)
      requires Valid() && parent != null
      modifies this, parent
      ensures ok <==> parent.parent != null || forall k :: k in old(cache) ==> !old(cache)[k].deleted
      ensures ok ==> Valid() && parent.Valid() && View() == old(View()) && parent.View() == old(View())
      ensures owned == old(owned) && old(parent.owned) <= parent.owned && fresh(parent.owned - old(parent.owned))
    {
      hide Overlay, Dirty, Coherent, Listing.Sorted, Listing.MapOf, Among;
      ghost var below, vals := parent.View(), Values();
      DirtyKeys(vals, below);
      var keys := DirtyList();
      Same(parent);
      assert (forall i :: 0 <= i < |keys| ==> !cache[keys[i]].deleted) <==> forall k :: k in cache ==> !cache[k].deleted by {
        forall k | k in cache && cache[k].deleted
          ensures exists i :: 0 <= i < |keys| && cache[keys[i]].deleted
        {
          assert vals[k].deleted && k in keys;
        }
      }
      ok := Send(keys, below);
      if ok {
        AmongNoneOrAll(Dirty(vals), set k | k in keys);
        ClearCache();
      }
    }

    /** A cleared cache shows what is beneath it. */
    method ClearCache()
      requires Linked() && Owned() && parent != null && parent.Valid()
      modifies `cache
      ensures Valid() && View() == parent.View() && parent.Valid() && parent.View() == old(parent.View())
    {
      hide Overlay, Dirty, Coherent;
      cache := map[];
      Same(parent);
      EmptyShows(parent.View());
      assert Values() == map[];
    }

    /** One step of Write. */
    method SendOne(key: bytes) returns (ok: bool)
      requires Owned() && parent != null && parent != this && parent.Valid() && key in cache
      modifies parent
      ensures ok <==> parent.parent != null || !cache[key].deleted
      ensures ok ==> parent.Valid()
      ensures ok ==> var m, e := old(parent.View()), cache[key];
                     parent.View() == if e.deleted then m - {key} else if e.acc == null then m else m[key := e.acc.state]
      ensures old(parent.owned) <= parent.owned && fresh(parent.owned - old(parent.owned))
    {
      hide Overlay, Dirty, Coherent;
      var cv := cache[key];
      ok := true;
      if cv.deleted {
        ok := parent.Delete(key);
      } else if cv.acc == null {
        // it already does not exist beneath
      } else {
        parent.SetAccount(key, cv.acc);
      }
    }

    /** The keys of the dirty entries, sorted. */
    method DirtyList() returns (keys: seq<bytes>)
      ensures forall i :: 0 <= i < |keys| ==> keys[i] in cache && cache[keys[i]].dirty
      ensures forall k :: k in cache && cache[k].dirty ==> k in keys
      ensures forall i :: 0 < i < |keys| ==> Less(keys[i - 1], keys[i])
    {
      var items := ListMap(map k | k in cache && cache[k].dirty :: cache[k], true);
      Listing.KeysOfMap(items);
      keys := seq(|items|, i requires 0 <= i < |items| => items[i].key);
      forall k | k in cache && cache[k].dirty
        ensures k in keys
      {
        assert k in Listing.MapOf(items);
        var i :| 0 <= i < |items| && items[i].key == k;
        assert keys[i] == k;
      }
      forall i | 0 < i < |keys|
        ensures Less(keys[i - 1], keys[i])
      {
        Listing.SortedAdjacent(items, true, i);
      }
    }

    method Send(keys: seq<bytes>, ghost below: map<bytes, State>) returns (ok: bool)
      requires Owned() && parent != null && parent.Valid() && parent.View() == below && Coherent(Values(), below)
      requires parent != this && parent.chain == chain - {this}
      requires forall i :: 0 <= i < |keys| ==> keys[i] in cache && cache[keys[i]].dirty
      modifies parent
      ensures ok <==> parent.parent != null || forall i :: 0 <= i < |keys| ==> !cache[keys[i]].deleted
      ensures ok ==> parent.Valid() && parent.View() == Overlay(below, Among(Dirty(Values()), set k | k in keys))
      ensures old(parent.owned) <= parent.owned && fresh(parent.owned - old(parent.owned))
    {
      hide Layer.Valid, Layer.View, Overlay, Dirty, Coherent, Among, Lookup;
      ghost var vals := Values();
      ghost var done: set<bytes> := {};
      DirtyKeys(vals, below);
      AmongNoneOrAll(Dirty(vals), {});
      EmptyShows(below);
      for i := 0 to |keys|
        invariant Owned() && Values() == vals
        invariant parent.Valid() && parent.View() == Overlay(below, Among(Dirty(vals), done))
        invariant old(parent.owned) <= parent.owned && fresh(parent.owned - old(parent.owned))
        invariant done == set k | k in keys[..i]
        invariant parent.parent == null ==> forall j :: 0 <= j < i ==> !cache[keys[j]].deleted
      {
        AmongGrows(Dirty(vals), done, keys[i]);
        OverlayEdit(below, Among(Dirty(vals), done), keys[i], vals[keys[i]].value);
        ok := SendOne(keys[i]);
        if !ok {
          return;
        }
        done := done + {keys[i]};
        assert keys[..i + 1] == keys[..i] + [keys[i]];
      }
      assert keys[..|keys|] == keys;
      return true;
    }

    /** The layers beneath are as they were. */
    twostate lemma Beneath()
      requires old(Valid()) && (forall s :: s in chain && s != this ==> unchanged(s))
      requires forall a :: a in old(Objects()) ==> unchanged(a)
      ensures forall s :: s in chain && s != this && old(s.Valid()) ==> s.Valid() && s.View() == old(s.View())
      ensures parent != null ==> parent.Valid() && parent.View() == old(parent.View())
    {
      forall s | s in chain && s != this && old(s.Valid())
        ensures s.Valid() && s.View() == old(s.View())
      {
        assert s.chain <= chain - {this};
        assert old(s.Objects()) <= old(Objects());
        Same(s);
      }
    }
  }

  /** A layer depends only on the layers beneath and on the objects they own. */
  twostate lemma Same(s: Layer)
    requires old(s.Valid()) && unchanged(s.chain) && unchanged(old(s.Objects()))
    ensures s.Valid() && s.View() == old(s.View())
  {
    assert s.Objects() == old(s.Objects());
  }

  // ---------------------------------------------------------------- whole runs

  /** What code using an account keeper may do. Accounts it was given are named
      by the order in which it got them. An operation on a nil account would
      panic; here it does nothing. */
  datatype Op =
    | Fetch(addr: bytes)
    | Create(state: State)
    | Edit(i: nat, state: State)
    | Save(i: nat)
    | Remove(i: nat)
    | Nested(ops: seq<Op>, commit: bool)

  /** A flat map of accounts, and the accounts in the hands of the code, all as values. */
  datatype Picture = Picture(store: map<bytes, State>, held: seq<Option<State>>)

  ghost function FlatOps(p: Picture, ops: seq<Op>): Picture
    decreases ops, 0
  {
    if ops == [] then p else FlatOps(FlatOp(p, ops[0]), ops[1..])
  }

  ghost function FlatOp(p: Picture, op: Op): Picture
    decreases op, 1
  {
    match op
    case Fetch(addr) => p.(held := p.held + [Lookup(p.store, addr)])
    case Create(state) => p.(held := p.held + [Some(state)])
    case Edit(i, state) => if Has(p, i) then p.(held := p.held[i := Some(state)]) else p
    case Save(i) => if Has(p, i) then p.(store := p.store[p.held[i].value.address := p.held[i].value]) else p
    case Remove(i) => if Has(p, i) then p.(store := p.store - {p.held[i].value.address}) else p
    case Nested(inner, commit) =>
      var r := FlatOps(p, inner);
      Picture(if commit then r.store else p.store, r.held)
  }

  /** Accounts are stored under their own addresses. */
  predicate Keyed(m: map<bytes, State>)
  {
    forall k :: k in m ==> m[k].address == k
  }

  /** Code that only looks at accounts, makes new ones and changes those it holds. */
  predicate Quiet(ops: seq<Op>)
    decreases ops
  {
    forall i :: 0 <= i < |ops| ==>
      var op := ops[i];
      op.Fetch? || op.Create? || op.Edit? || (op.Nested? && (!op.commit || Quiet(op.ops)))
  }

  /** Nothing that is done to held accounts shows before they are saved, nor anything in a cache that is thrown away. */
  lemma {:induction false} QuietShowsNothing(p: Picture, ops: seq<Op>)
    requires Quiet(ops)
    ensures FlatOps(p, ops).store == p.store
    decreases ops
  {
    if ops != [] {
      var op := ops[0];
      if op.Nested? && op.commit {
        QuietShowsNothing(p, op.ops);
      }
      assert forall i :: 0 <= i < |ops[1..]| ==> ops[1..][i] == ops[i + 1];
      QuietShowsNothing(FlatOp(p, op), ops[1..]);
    }
  }

  /** An account saved is the one shown under its address, and nothing else changes. */
  lemma SavedShows(p: Picture, i: nat)
    requires i < |p.held| && p.held[i].Some?
    ensures var r, acc := FlatOps(p, [Save(i)]).store, p.held[i].value;
            && Lookup(r, acc.address) == Some(acc) && Lookup(FlatOps(p, [Remove(i)]).store, acc.address) == None
            && (forall a :: a != acc.address ==> Lookup(r, a) == Lookup(p.store, a) == Lookup(FlatOps(p, [Remove(i)]).store, a))
  {
    assert [Save(i)][1..] == [] && [Remove(i)][1..] == [];
  }

  /** Handlers save accounts under the addresses in them, so Keyed is kept. */
  lemma {:induction false} FlatOpsKeyed(p: Picture, ops: seq<Op>)
    requires Keyed(p.store)
    ensures Keyed(FlatOps(p, ops).store)
    decreases ops, 0
  {
    if ops != [] {
      FlatOpKeyed(p, ops[0]);
      FlatOpsKeyed(FlatOp(p, ops[0]), ops[1..]);
    }
  }

  lemma {:induction false} FlatOpKeyed(p: Picture, op: Op)
    requires Keyed(p.store)
    ensures Keyed(FlatOp(p, op).store)
    decreases op, 1
  {
    if op.Nested? {
      FlatOpsKeyed(p, op.ops);
    }
  }

  ghost predicate Has(p: Picture, i: nat)
  {
    i < |p.held| && p.held[i].Some?
  }

  ghost function Refs(held: seq<Account?>): set<Account>
  {
    set a: Account | a in held
  }

  ghost function States(held: seq<Account?>): (r: seq<Option<State>>)
    reads Refs(held)
    ensures |r| == |held| && forall i :: 0 <= i < |held| ==> r[i] == ValueOf(held[i])
  {
    if held == [] then []
    else
      var front, last := held[..|held| - 1], held[|held| - 1];
      assert Refs(front) <= Refs(held) && (last != null ==> last in Refs(held));
      States(front) + [ValueOf(last)]
  }

  /** The held accounts are different objects, and none of them is in a cache. */
  ghost predicate Apart(s: Layer, held: seq<Account?>)
    reads s.chain
  {
    && (forall i, j :: 0 <= i < j < |held| && held[i] != null ==> held[i] != held[j])
    && Refs(held) !! s.Objects()
  }

  ghost function Now(s: Layer, held: seq<Account?>): Picture
    requires s.Valid()
    reads s, s.chain, s.Objects(), Refs(held)
  {
    Picture(s.View(), States(held))
  }

  /** The layers beneath s show what they showed. */
  twostate predicate Untouched(s: Layer)
    reads s, s.chain, s.Objects()
  {
    forall t :: t in s.chain && t != s && t.chain <= s.chain && old(allocated(t)) && old(t.Valid())
                ==> t.Valid() && t.View() == old(t.View())
  }

  /** What leaves alone all that is beneath a cache leaves alone its parent and all beneath that. */
  twostate lemma Deeper(s: Layer)
    requires old(s.Valid()) && s.parent != null && Untouched(s)
    ensures s.parent.Valid() && s.parent.View() == old(s.parent.View()) && Untouched(s.parent)
  {
    hide Overlay, Dirty, Coherent;
  }

  lemma StatesAppend(held: seq<Account?>, acc: Account?)
    ensures States(held + [acc]) == States(held) + [ValueOf(acc)]
  {
  }

  lemma HoldsNothing(a: Layer)
    requires a.Valid()
    ensures Apart(a, []) && Now(a, []) == Picture(a.View(), [])
  {
  }

  lemma NowStore(a: Layer, held: seq<Account?>)
    requires a.Valid()
    ensures Now(a, held).store == a.View()
  {
  }

  method DoFetch(s: Layer, before: seq<Account?>, addr: bytes) returns (held: seq<Account?>)
    requires s.Valid() && Apart(s, before)
    modifies s.chain
    ensures s.Valid() && Untouched(s) && Apart(s, held) && fresh(Refs(held) - Refs(before))
    ensures Now(s, held) == FlatOp(old(Now(s, before)), Fetch(addr))
  {
    hide Overlay, Dirty, Coherent, Lookup;
    var acc := s.GetAccount(addr);
    StatesAppend(before, acc);
    held := before + [acc];
  }

  method DoSave(s: Layer, held: seq<Account?>, i: nat)
    requires s.Valid() && Apart(s, held)
    modifies s.chain
    ensures s.Valid() && Untouched(s) && Apart(s, held)
    ensures Now(s, held) == FlatOp(old(Now(s, held)), Save(i))
  {
    hide Overlay, Dirty, Coherent, Lookup;
    if i < |held| && held[i] != null {
      s.SetAccount(held[i].state.address, held[i]);
      s.Beneath();
    }
  }

  method DoRemove(s: Layer, held: seq<Account?>, i: nat)
    requires s.Valid() && s.parent != null && Apart(s, held)
    modifies s.chain
    ensures s.Valid() && Untouched(s) && Apart(s, held)
    ensures Now(s, held) == FlatOp(old(Now(s, held)), Remove(i))
  {
    hide Overlay, Dirty, Coherent, Lookup;
    if i < |held| && held[i] != null {
      var ok := s.Delete(held[i].state.address);
      s.Beneath();
    }
  }

  method DoEdit(s: Layer, held: seq<Account?>, i: nat, state: State)
    requires s.Valid() && Apart(s, held)
    modifies Refs(held)
    ensures s.Valid() && Untouched(s) && Apart(s, held)
    ensures Now(s, held) == FlatOp(old(Now(s, held)), Edit(i, state))
  {
    hide Overlay, Dirty, Coherent, Lookup;
    if i < |held| && held[i] != null {
      held[i].state := state;
      Same(s);
      s.Beneath();
      assert States(held) == old(States(held))[i := Some(state)];
    }
  }

  method DoCreate(s: Layer, before: seq<Account?>, state: State) returns (held: seq<Account?>)
    requires s.Valid() && Apart(s, before)
    ensures s.Valid() && Untouched(s) && Apart(s, held) && fresh(Refs(held) - Refs(before))
    ensures Now(s, held) == FlatOp(old(Now(s, before)), Create(state))
  {
    hide Overlay, Dirty, Coherent, Lookup;
    var acc := new Account(state);
    StatesAppend(before, acc);
    held := before + [acc];
    Same(s);
    s.Beneath();
  }

  /** Caches stacked to any depth, and accounts that may be changed at any time by
      the code that holds them, behave as the flat map: nothing shows what was
      done to a held account until it is saved, and nothing beneath changes until
      a cache is written back. */
  method Run(s: Layer, before: seq<Account?>, ops: seq<Op>) returns (held: seq<Account?>)
    requires s.Valid() && s.parent != null && Apart(s, before)
    modifies s.chain, Refs(before)
    ensures s.Valid() && Untouched(s) && Apart(s, held) && fresh(Refs(held) - Refs(before))
    ensures Now(s, held) == FlatOps(old(Now(s, before)), ops)
    decreases ops, 0
  {
    hide Overlay, Dirty, Coherent, FlatOp, Now, Apart;
    held := before;
    for i := 0 to |ops|
      invariant s.Valid() && Untouched(s) && Apart(s, held) && fresh(Refs(held) - Refs(before))
      invariant FlatOps(Now(s, held), ops[i..]) == FlatOps(old(Now(s, before)), ops)
    {
      assert ops[i..][0] == ops[i] && ops[i..][1..] == ops[i + 1..];
      held := Step(s, held, ops[i]);
    }
  }

  method Step(s: Layer, before: seq<Account?>, op: Op) returns (held: seq<Account?>)
    requires s.Valid() && s.parent != null && Apart(s, before)
    modifies s.chain, Refs(before)
    ensures s.Valid() && Untouched(s) && Apart(s, held) && fresh(Refs(held) - Refs(before))
    ensures Now(s, held) == FlatOp(old(Now(s, before)), op)
    decreases op, 1
  {
    hide Overlay, Dirty, Coherent, Apart, Lookup;
    held := before;
    match op
    case Fetch(addr) =>
      held := DoFetch(s, before, addr);
    case Create(state) =>
      held := DoCreate(s, before, state);
    case Edit(i, state) =>
      DoEdit(s, before, i, state);
    case Save(i) =>
      DoSave(s, before, i);
    case Remove(i) =>
      DoRemove(s, before, i);
    case Nested(inner, commit) =>
      held := RunNested(s, before, inner, commit);
  }

  method RunNested(s: Layer, before: seq<Account?>, inner: seq<Op>, commit: bool) returns (held: seq<Account?>)
    requires s.Valid() && s.parent != null && Apart(s, before)
    modifies s.chain, Refs(before)
    ensures s.Valid() && Untouched(s) && Apart(s, held) && fresh(Refs(held) - Refs(before))
    ensures var p := old(Now(s, before));
            var r := FlatOps(p, inner);
            Now(s, held) == Picture(if commit then r.store else p.store, r.held)
    decreases inner, 2
  {
    hide Overlay, Dirty, Coherent, FlatOps;
    var child;
    child, held := RunInside(s, before, inner);
    if commit {
      label ran:
      WriteBack(s, child, held);
    }
  }

  method RunInside(s: Layer, before: seq<Account?>, inner: seq<Op>) returns (child: Layer, held: seq<Account?>)
    requires s.Valid() && s.parent != null && Apart(s, before)
    modifies s.chain, Refs(before)
    ensures fresh(child) && child.Valid() && child.parent == s
    ensures s.Valid() && s.View() == old(s.View()) && Untouched(s)
    ensures Apart(child, held) && fresh(Refs(held) - Refs(before))
    ensures Now(child, held) == FlatOps(old(Now(s, before)), inner)
    decreases inner, 1
  {
    hide Overlay, Dirty, Coherent, FlatOps;
    child := Open(s);
    held := Run(child, before, inner);
  }

  /** A fresh cache over s, which is not changed by it. */
  method Open(s: Layer) returns (child: Layer)
    requires s.Valid()
    ensures fresh(child) && child.Valid() && child.parent == s && child.View() == s.View() && child in child.chain
    ensures s.chain == child.chain - {child} && child.Objects() == s.Objects() == old(s.Objects())
    ensures s.Valid() && s.View() == old(s.View()) && Untouched(s)
  {
    hide Overlay, Dirty, Coherent;
    child := new Layer.Cache(s);
    assert s.Objects() == old(s.Objects());
    assert child.Objects() == s.Objects();
  }

  method WriteBack(s: Layer, child: Layer, held: seq<Account?>)
    requires child.Valid() && child.parent == s && s.parent != null && Apart(child, held)
    modifies child, s
    ensures s.Valid() && s.View() == old(child.View()) && Untouched(s)
    ensures Apart(s, held) && States(held) == old(States(held))
  {
    hide Overlay, Dirty, Coherent;
    var ok := child.Write();
    s.Beneath();
  }
}
