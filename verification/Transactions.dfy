/** baseapp/baseapp.go and x/auth/ante.go: a transaction runs in a branch of the
    state that is written back only if the signature checks and the message
    handler succeed. */
module Transactions {
  import opened Bytes
  import opened AccountCache
  import opened Overlays
  import CacheStore

  datatype Mode = Check | CheckAfterPre | ReCheck | Simulate | Deliver | DeliverAfterPre

  /** A signature; `signs` are the public keys under which it verifies over the
      bytes of the transaction it belongs to. */
  datatype Sig = Sig(number: int64, sequence: int64, pubKey: Option<bytes>, signs: set<bytes>)

  /** A decoded transaction. `valid` is the outcome of ValidateBasic on its one message. */
  datatype Tx = Tx(signers: seq<bytes>, sigs: seq<Sig>, memo: nat, valid: bool)

  /** What one execution of the message handler does, and how it ends. */
  datatype Handling = Handling(accounts: seq<AccountCache.Op>, store: seq<CacheStore.Op>, ok: bool)

  const MAX_MEMO: nat := 100

  const DUMMY_KEY: bytes := [
    0x03, 0x5A, 0xD6, 0x81, 0x0A, 0x47, 0xF0, 0x73, 0x55, 0x3F, 0xF3, 0x0D, 0x2F, 0xCC, 0x7E, 0x0D, 0x3B,
    0x1C, 0x0B, 0x74, 0xB6, 0x1A, 0x1A, 0xAA, 0x25, 0x82, 0x34, 0x40, 0x37, 0x15, 0x1E, 0x14, 0x3A
  ]

  /** Block height, and the address a public key belongs to. */
  datatype Chain = Chain(height: int, addressOf: bytes -> bytes)

  // ---------------------------------------------------------------- what the ante handler accepts

  /** processPubKey. */
  function KeyOf(chain: Chain, acc: State, sig: Sig, mode: Mode): Option<bytes>
  {
    if mode == Simulate then (if acc.pubKey.Some? then acc.pubKey else Some(DUMMY_KEY))
    else if acc.pubKey.Some? then acc.pubKey
    else if sig.pubKey.Some? && chain.addressOf(sig.pubKey.value) == acc.address then sig.pubKey
    else None
  }

  /** processSig: the account with its key set and its sequence raised. */
  function ProcessSig(chain: Chain, acc: State, sig: Sig, mode: Mode): Option<State>
  {
    var key := KeyOf(chain, acc, sig, mode);
    if key.None? then None
    else if (mode == Check || mode == Deliver) && key.value !in sig.signs then None
    else Some(acc.(pubKey := key, sequence := Wrap(acc.sequence + 1)))
  }

  /** The number and sequence that a signature must carry. */
  predicate Matches(chain: Chain, acc: State, sig: Sig)
  {
    sig.number == (if chain.height == 0 then 0 else acc.number) && sig.sequence == acc.sequence
  }

  predicate Basic(tx: Tx)
  {
    tx.sigs != [] && |tx.sigs| == |tx.signers| && tx.memo <= MAX_MEMO
  }

  /** The i-th signer's account once its signature has been processed. */
  function Signer(chain: Chain, m: map<bytes, State>, tx: Tx, mode: Mode, i: nat): Option<State>
  {
    if i < |tx.signers| && i < |tx.sigs| && tx.signers[i] in m
    then ProcessSig(chain, m[tx.signers[i]], tx.sigs[i], mode)
    else None
  }

  /** Every signer has an account that its signature fits. */
  predicate Accepts(chain: Chain, m: map<bytes, State>, tx: Tx, mode: Mode)
  {
    && (mode == ReCheck || Basic(tx))
    && |tx.sigs| == |tx.signers|
    && forall i :: 0 <= i < |tx.signers| ==>
         tx.signers[i] in m && Matches(chain, m[tx.signers[i]], tx.sigs[i]) && Signer(chain, m, tx, mode, i).Some?
  }

  lemma AcceptedIsBasic(chain: Chain, m: map<bytes, State>, tx: Tx, mode: Mode)
    requires Accepts(chain, m, tx, mode)
    ensures |tx.sigs| == |tx.signers| && (mode != ReCheck ==> |tx.sigs| > 0 && tx.memo <= 100)
  {
  }

  /** An accepted signer has an account, and its signature carries the number of that account, or 0 at
      height 0, and its sequence. Where signatures are checked, it signed with the key its account has
      or, if it has none, with one that hashes to its address. It is charged nothing but that sequence. */
  lemma AcceptedIsSigned(chain: Chain, m: map<bytes, State>, tx: Tx, mode: Mode, i: nat)
    requires Accepts(chain, m, tx, mode) && i < |tx.signers|
    ensures |tx.sigs| == |tx.signers| && tx.signers[i] in m
    ensures var a, sig := m[tx.signers[i]], tx.sigs[i];
            && (chain.height != 0 ==> sig.number == a.number) && (chain.height == 0 ==> sig.number == 0)
            && sig.sequence == a.sequence
            && (a.pubKey.None? && mode != Simulate ==> sig.pubKey.Some? && chain.addressOf(sig.pubKey.value) == a.address)
            && (mode == Check || mode == Deliver ==> (if a.pubKey.Some? then a.pubKey else sig.pubKey).value in sig.signs)
    ensures Signer(chain, m, tx, mode, i).Some?
    ensures var a, b := m[tx.signers[i]], Signer(chain, m, tx, mode, i).value;
            && b == a.(pubKey := b.pubKey, sequence := Wrap(a.sequence + 1)) && b.pubKey.Some?
            && (a.pubKey.Some? ==> b.pubKey == a.pubKey)
            && (a.pubKey.None? ==> b.pubKey == if mode == Simulate then Some(DUMMY_KEY) else tx.sigs[i].pubKey)
  {
    assert Matches(chain, m[tx.signers[i]], tx.sigs[i]) && Signer(chain, m, tx, mode, i).Some?;
  }

  /** Conversely, a transaction is accepted if there are signatures, as many as signers, the memo is not too
      long, and every signer has an account that the number, the sequence and the key of its signature fit;
      an account that has no key yet is given the one in the signature. */
  lemma FittingIsAccepted(chain: Chain, m: map<bytes, State>, tx: Tx, mode: Mode)
    requires |tx.sigs| == |tx.signers| && (mode == ReCheck || (|tx.sigs| > 0 && tx.memo <= 100))
    requires forall i :: 0 <= i < |tx.signers| ==> tx.signers[i] in m
    requires forall i :: 0 <= i < |tx.signers| ==>
               tx.sigs[i].number == (if chain.height == 0 then 0 else m[tx.signers[i]].number)
    requires forall i :: 0 <= i < |tx.signers| ==> tx.sigs[i].sequence == m[tx.signers[i]].sequence
    requires mode == Simulate || forall i :: 0 <= i < |tx.signers| ==>
               var a, sig := m[tx.signers[i]], tx.sigs[i];
               && (a.pubKey.Some? || (sig.pubKey.Some? && chain.addressOf(sig.pubKey.value) == a.address))
               && (mode == Check || mode == Deliver ==> (if a.pubKey.Some? then a.pubKey else sig.pubKey).value in sig.signs)
    ensures Accepts(chain, m, tx, mode)
  {
    forall i | 0 <= i < |tx.signers|
      ensures tx.signers[i] in m && Matches(chain, m[tx.signers[i]], tx.sigs[i]) && Signer(chain, m, tx, mode, i).Some?
    {
      assert tx.signers[i] in m && tx.sigs[i].sequence == m[tx.signers[i]].sequence;
    }
  }

  /** The accounts after the first n signers have been charged. */
  function Charged(chain: Chain, m: map<bytes, State>, tx: Tx, mode: Mode, n: nat): map<bytes, State>
  {
    if n == 0 then m
    else
      var rest := Charged(chain, m, tx, mode, n - 1);
      var acc := Signer(chain, m, tx, mode, n - 1);
      if acc.Some? then rest[tx.signers[n - 1] := acc.value] else rest
  }

  /** The signer accounts that the ante handler has in its hands, the first n of them charged. */
  function Holding(chain: Chain, m: map<bytes, State>, tx: Tx, mode: Mode, n: nat): seq<Option<State>>
  {
    seq(|tx.signers|, i requires 0 <= i < |tx.signers| =>
      if i < n then Signer(chain, m, tx, mode, i) else Lookup(m, tx.signers[i]))
  }

  lemma {:induction false} ChargedStep(chain: Chain, m: map<bytes, State>, tx: Tx, mode: Mode, i: nat)
    requires Keyed(m) && Signer(chain, m, tx, mode, i).Some?
    ensures var acc := Signer(chain, m, tx, mode, i).value;
            var p := AfterAnte(chain, m, tx, mode, i);
            FlatOp(FlatOp(p, Edit(i, acc)), Save(i)) == AfterAnte(chain, m, tx, mode, i + 1)
  {
  }

  // ---------------------------------------------------------------- the ante handler

  ghost function Looked(m: map<bytes, State>, keys: seq<bytes>): seq<Option<State>>
  {
    if keys == [] then [] else Looked(m, keys[..|keys| - 1]) + [Lookup(m, keys[|keys| - 1])]
  }

  lemma {:induction false} LookedAt(m: map<bytes, State>, keys: seq<bytes>)
    ensures |Looked(m, keys)| == |keys|
    ensures forall i :: 0 <= i < |keys| ==> Looked(m, keys)[i] == Lookup(m, keys[i])
  {
    if keys != [] {
      LookedAt(m, keys[..|keys| - 1]);
    }
  }

  lemma HeldStates(a: Layer, held: seq<Account?>)
    requires a.Valid()
    ensures Now(a, held).store == a.View() && |Now(a, held).held| == |held|
    ensures forall i :: 0 <= i < |held| ==> Now(a, held).held[i] == ValueOf(held[i])
  {
  }

  /** getSignerAccs. */
  method SignerAccounts(a: Layer, signers: seq<bytes>) returns (ok: bool, held: seq<Account?>)
    requires a.Valid()
    modifies a.chain
    ensures a.Valid() && Untouched(a) && a.View() == old(a.View()) && Apart(a, held) && fresh(Refs(held))
    ensures ok <==> forall i :: 0 <= i < |signers| ==> Lookup(a.View(), signers[i]).Some?
    ensures ok ==> Now(a, held) == Picture(a.View(), Looked(a.View(), signers))
  {
    hide Overlay, Dirty, Coherent, Apart, Now, Lookup;
    held := [];
    ghost var m := a.View();
    HoldsNothing(a);
    assert signers[..0] == [];
    for i := 0 to |signers|
      invariant a.Valid() && Untouched(a) && Apart(a, held) && fresh(Refs(held)) && |held| == i
      invariant Now(a, held) == Picture(m, Looked(m, signers[..i])) && a.View() == m
      invariant forall j :: 0 <= j < i ==> Lookup(m, signers[j]).Some?
    {
      held := DoFetch(a, held, signers[i]);
      assert signers[..i + 1][..i] == signers[..i];
      LookedAt(m, signers[..i + 1]);
      HeldStates(a, held);
      if held[i] == null {
        return false, held;
      }
    }
    assert signers[..|signers|] == signers;
    return true, held;
  }

  /** validateAccNumAndSequence; reading past the signatures panics. */
  method ValidateAccounts(chain: Chain, accs: seq<Account>, sigs: seq<Sig>) returns (ok: bool)
    ensures ok <==> |accs| <= |sigs| && forall i :: 0 <= i < |accs| ==> Matches(chain, accs[i].state, sigs[i])
  {
    for i := 0 to |accs|
      invariant i <= |sigs| && forall j :: 0 <= j < i ==> Matches(chain, accs[j].state, sigs[j])
    {
      if i >= |sigs| {
        return false;
      }
      if chain.height == 0 && sigs[i].number != 0 {
        return false;
      }
      if chain.height != 0 && accs[i].state.number != sigs[i].number {
        return false;
      }
      if accs[i].state.sequence != sigs[i].sequence {
        return false;
      }
    }
    return true;
  }

  /** The ante handler: charges the signers if it accepts the transaction.
      Whether it aborts or panics otherwise, the branch is thrown away. */
  method Ante(chain: Chain, a: Layer, tx: Tx, mode: Mode) returns (pass: bool, held: seq<Account?>)
    requires a.Valid() && Keyed(a.View())
    modifies a.chain
    ensures a.Valid() && Untouched(a) && Apart(a, held) && fresh(Refs(held))
    ensures pass <==> Accepts(chain, old(a.View()), tx, mode)
    ensures pass ==> Now(a, held) == AfterAnte(chain, old(a.View()), tx, mode, |tx.signers|)
  {
    hide Overlay, Dirty, Coherent, Apart, Now, ProcessSig, Matches, Looked, AfterAnte;
    HoldsNothing(a);
    held := [];
    if mode != ReCheck && !(|tx.sigs| != 0 && |tx.sigs| == |tx.signers| && tx.memo <= MAX_MEMO) {
      return false, held;
    }
    var ok;
    ok, held := Fetch(chain, a, tx);
    if !ok {
      return false, held;
    }
    pass := Charge(chain, a, held, tx, mode, a.View());
  }

  /** The signers' accounts, fetched and compared with the signatures. */
  method Fetch(chain: Chain, a: Layer, tx: Tx) returns (ok: bool, held: seq<Account?>)
    requires a.Valid()
    modifies a.chain
    ensures a.Valid() && Untouched(a) && a.View() == old(a.View()) && Apart(a, held) && fresh(Refs(held))
    ensures ok <==> |tx.signers| <= |tx.sigs| && forall i :: 0 <= i < |tx.signers| ==>
                      tx.signers[i] in a.View() && Matches(chain, a.View()[tx.signers[i]], tx.sigs[i])
    ensures ok ==> Now(a, held) == Picture(a.View(), Looked(a.View(), tx.signers))
  {
    hide Overlay, Dirty, Coherent, Apart, Now, Matches;
    ok, held := SignerAccounts(a, tx.signers);
    if !ok {
      return false, held;
    }
    LookedAt(a.View(), tx.signers);
    HeldStates(a, held);
    label fetched:
    ok := ValidateAccounts(chain, held, tx.sigs);
    Same@fetched(a);
    a.Beneath@fetched();
    assert a.Objects() == old@fetched(a.Objects());
  }

  /** What the ante handler makes of the accounts, and of the objects it fetched,
      once the first n signers are charged. */
  ghost function AfterAnte(chain: Chain, m: map<bytes, State>, tx: Tx, mode: Mode, n: nat): Picture
  {
    Picture(Charged(chain, m, tx, mode, n), Holding(chain, m, tx, mode, n))
  }

  lemma BeforeAnte(chain: Chain, m: map<bytes, State>, tx: Tx, mode: Mode)
    ensures AfterAnte(chain, m, tx, mode, 0) == Picture(m, Looked(m, tx.signers))
  {
    LookedAt(m, tx.signers);
  }

  /** The signature loop. */
  method Charge(chain: Chain, a: Layer, held: seq<Account?>, tx: Tx, mode: Mode, ghost m: map<bytes, State>) returns (pass: bool)
    requires a.Valid() && Apart(a, held) && Keyed(m)
    requires Now(a, held) == Picture(m, Looked(m, tx.signers))
    requires |tx.signers| <= |tx.sigs|
    requires forall i :: 0 <= i < |tx.signers| ==> tx.signers[i] in m && Matches(chain, m[tx.signers[i]], tx.sigs[i])
    requires mode == ReCheck || Basic(tx)
    modifies a.chain, Refs(held)
    ensures a.Valid() && Untouched(a) && Apart(a, held)
    ensures pass <==> Accepts(chain, m, tx, mode)
    ensures pass ==> Now(a, held) == AfterAnte(chain, m, tx, mode, |tx.signers|)
  {
    hide Layer.Valid, Layer.View, Layer.Objects, Apart, Now, ProcessSig, Matches, FlatOp, AfterAnte, Keyed;
    BeforeAnte(chain, m, tx, mode);
    for i := 0 to |tx.sigs|
      invariant a.Valid() && Untouched(a) && Apart(a, held)
      invariant forall j :: 0 <= j < i ==> Signer(chain, m, tx, mode, j).Some?
      invariant i <= |tx.signers| && Now(a, held) == AfterAnte(chain, m, tx, mode, i)
    {
      HeldStates(a, held);
      HoldingAt(chain, m, tx, mode, i);
      if i >= |held| {
        return false;
      }
      var acc := ProcessSig(chain, held[i].state, tx.sigs[i], mode);
      if acc == None {
        return false;
      }
      ChargedStep(chain, m, tx, mode, i);
      DoEdit(a, held, i, acc.value);
      DoSave(a, held, i);
    }
    return true;
  }

  lemma HoldingAt(chain: Chain, m: map<bytes, State>, tx: Tx, mode: Mode, i: nat)
    ensures |AfterAnte(chain, m, tx, mode, i).held| == |tx.signers|
    ensures i < |tx.signers| ==> AfterAnte(chain, m, tx, mode, i).held[i] == Lookup(m, tx.signers[i])
  {
  }

  // ---------------------------------------------------------------- running a transaction

  /** The two maps that make up the state. */
  datatype World = World(accounts: map<bytes, State>, store: map<bytes, bytes>)

  /** A transaction changes state exactly if its signatures are accepted, its
      handler succeeds, and it is not simulated. */
  predicate Commits(chain: Chain, m: map<bytes, State>, tx: Tx, mode: Mode, h: Handling)
  {
    Accepts(chain, m, tx, mode) && h.ok && mode != Simulate
  }

  /** What it then does: the charged signers, and all that its handler did. */
  ghost function FlatTx(chain: Chain, w: World, tx: Tx, mode: Mode, h: Handling): World
  {
    if Commits(chain, w.accounts, tx, mode, h) then
      World(FlatOps(AfterAnte(chain, w.accounts, tx, mode, |tx.signers|), h.accounts).store,
            CacheStore.FlatOps(w.store, h.store).store)
    else w
  }

  /** One account before and after it was charged: its sequence is one higher, and it has a key. */
  predicate ChargedFrom(before: State, after: State, sig: Sig, mode: Mode)
  {
    && after == before.(sequence := Wrap(before.sequence + 1), pubKey := after.pubKey) && after.pubKey.Some?
    && (before.pubKey.Some? ==> after.pubKey == before.pubKey)
    && (before.pubKey.None? ==> after.pubKey == if mode == Simulate then Some(DUMMY_KEY) else sig.pubKey)
  }

  /** Every signer has been charged once, no other account has changed, and the objects at hand are the
      signers' charged accounts. */
  ghost predicate SignersCharged(m: map<bytes, State>, tx: Tx, mode: Mode, p: Picture)
  {
    && |p.held| == |tx.signers| == |tx.sigs|
    && (forall i :: 0 <= i < |tx.signers| ==>
          tx.signers[i] in m && p.held[i].Some? && ChargedFrom(m[tx.signers[i]], p.held[i].value, tx.sigs[i], mode))
    && (forall a :: a !in tx.signers ==> Lookup(p.store, a) == Lookup(m, a))
    && (forall a :: a in tx.signers ==> exists i :: 0 <= i < |tx.signers| && tx.signers[i] == a && Lookup(p.store, a) == p.held[i])
  }

  lemma {:induction false} ChargedOthers(chain: Chain, m: map<bytes, State>, tx: Tx, mode: Mode, n: nat, a: bytes)
    requires n <= |tx.signers| && forall i :: 0 <= i < n ==> Signer(chain, m, tx, mode, i).Some?
    ensures a !in tx.signers[..n] ==> Lookup(Charged(chain, m, tx, mode, n), a) == Lookup(m, a)
    ensures a in tx.signers[..n] ==>
              exists i :: 0 <= i < n && tx.signers[i] == a && Lookup(Charged(chain, m, tx, mode, n), a) == Signer(chain, m, tx, mode, i)
  {
    hide Signer;
    if n > 0 {
      ChargedOthers(chain, m, tx, mode, n - 1, a);
      assert tx.signers[..n] == tx.signers[..n - 1] + [tx.signers[n - 1]];
      assert Signer(chain, m, tx, mode, n - 1).Some?;
    }
  }

  /** What the ante handler leaves of an accepted transaction. */
  lemma AnteCharges(chain: Chain, m: map<bytes, State>, tx: Tx, mode: Mode)
    requires Accepts(chain, m, tx, mode)
    ensures SignersCharged(m, tx, mode, AfterAnte(chain, m, tx, mode, |tx.signers|))
  {
    var p := AfterAnte(chain, m, tx, mode, |tx.signers|);
    forall i | 0 <= i < |tx.signers|
      ensures tx.signers[i] in m && p.held[i].Some? && ChargedFrom(m[tx.signers[i]], p.held[i].value, tx.sigs[i], mode)
    {
      AcceptedIsSigned(chain, m, tx, mode, i);
    }
    hide Accepts, Signer, Charged, ChargedFrom, Lookup;
    assert tx.signers[..|tx.signers|] == tx.signers;
    forall a
      ensures a !in tx.signers ==> Lookup(p.store, a) == Lookup(m, a)
      ensures a in tx.signers ==> exists i :: 0 <= i < |tx.signers| && tx.signers[i] == a && Lookup(p.store, a) == p.held[i]
    {
      ChargedOthers(chain, m, tx, mode, |tx.signers|, a);
    }
  }

  /** A transaction that took effect: its signers were charged, and on that its handler did all it did. */
  ghost predicate TookEffect(before: World, after: World, tx: Tx, mode: Mode, h: Handling)
  {
    exists p :: SignersCharged(before.accounts, tx, mode, p)
                && after == World(FlatOps(p, h.accounts).store, CacheStore.FlatOps(before.store, h.store).store)
  }

  /** All or nothing. */
  ghost predicate Atomic(chain: Chain, before: World, after: World, tx: Tx, mode: Mode, h: Handling, ok: bool)
  {
    && (ok <==> tx.valid && h.ok && mode != Simulate && Accepts(chain, before.accounts, tx, mode))
    && (ok ==> TookEffect(before, after, tx, mode, h))
    && (!ok ==> after == before)
  }

  lemma FlatTxAtomic(chain: Chain, w: World, tx: Tx, mode: Mode, h: Handling)
    requires tx.valid
    ensures Atomic(chain, w, FlatTx(chain, w, tx, mode, h), tx, mode, h, Commits(chain, w.accounts, tx, mode, h))
  {
    if Commits(chain, w.accounts, tx, mode, h) {
      AnteCharges(chain, w.accounts, tx, mode);
      hide SignersCharged, AfterAnte, FlatOps, CacheStore.FlatOps, Accepts;
    }
  }

  /** The ante handler and the account side of the message handler, in a branch. */
  method TryAccounts(chain: Chain, a: Layer, tx: Tx, mode: Mode, h: Handling) returns (commit: bool, child: Layer, held: seq<Account?>)
    requires a.Valid() && Keyed(a.View())
    modifies a.chain
    ensures fresh(child) && child.Valid() && child.parent == a && Apart(child, held)
    ensures a.Valid() && a.View() == old(a.View()) && Untouched(a)
    ensures commit <==> Commits(chain, old(a.View()), tx, mode, h)
    ensures commit ==> child.View() == FlatOps(AfterAnte(chain, old(a.View()), tx, mode, |tx.signers|), h.accounts).store
  {
    hide Overlay, Dirty, Coherent, FlatOps, AfterAnte, Accepts, Keyed;
    child := Open(a);
    commit, held := AnteAndHandle(chain, child, tx, mode, h);
  }

  method AnteAndHandle(chain: Chain, a: Layer, tx: Tx, mode: Mode, h: Handling) returns (commit: bool, held: seq<Account?>)
    requires a.Valid() && a.parent != null && Keyed(a.View())
    modifies a.chain
    ensures a.Valid() && Untouched(a) && Apart(a, held)
    ensures commit <==> Commits(chain, old(a.View()), tx, mode, h)
    ensures commit ==> a.View() == FlatOps(AfterAnte(chain, old(a.View()), tx, mode, |tx.signers|), h.accounts).store
  {
    hide Overlay, Dirty, Coherent, FlatOps, AfterAnte, Accepts, Keyed, Apart, Now;
    commit, held := Ante(chain, a, tx, mode);
    if commit {
      held := AccountCache.Run(a, held, h.accounts);
      commit := h.ok && mode != Simulate;
      NowStore(a, held);
    }
  }

  method RunAccounts(chain: Chain, a: Layer, tx: Tx, mode: Mode, h: Handling) returns (commit: bool)
    requires a.Valid() && a.parent != null && Keyed(a.View())
    modifies a.chain
    ensures a.Valid() && Untouched(a)
    ensures commit <==> Commits(chain, old(a.View()), tx, mode, h)
    ensures a.View() == if commit
                        then FlatOps(AfterAnte(chain, old(a.View()), tx, mode, |tx.signers|), h.accounts).store
                        else old(a.View())
  {
    hide Overlay, Dirty, Coherent, FlatOps, AfterAnte, Accepts, Commits, Keyed;
    var child, held;
    commit, child, held := TryAccounts(chain, a, tx, mode, h);
    if commit {
      WriteBack(a, child, held);
    }
  }

  // ---------------------------------------------------------------- the application

  /** CheckState or DeliverState: a cache of accounts and a cache of the stores. */
  datatype Branch = Branch(accounts: Layer, store: CacheStore.Store)

  /** A cache directly on the root depends on the root only through what it shows. */
  twostate lemma OnTop(d: Layer)
    requires old(d.Valid()) && d.parent != null && unchanged(d) && unchanged(d.owned)
    requires d.parent.Valid() && d.parent.View() == old(d.parent.View())
    ensures d.Valid() && d.View() == old(d.View())
  {
    hide Overlay, Dirty, Coherent;
    assert d.Values() == old(d.Values());
  }

  twostate lemma StoreOnTop(d: CacheStore.Store)
    requires old(d.Valid()) && d.parent != null && unchanged(d)
    requires d.parent.Valid() && d.parent.View() == old(d.parent.View())
    ensures d.Valid() && d.View() == old(d.View())
  {
    hide Overlay, Dirty, Coherent;
  }

  ghost predicate Stands(b: Branch)
    reads b.accounts, b.accounts.chain, b.accounts.Objects(), b.store, b.store.chain
  {
    && b.accounts.Valid() && b.accounts.parent != null && Keyed(b.accounts.View())
    && b.store.Valid() && b.store.parent != null
  }

  ghost function Shown(b: Branch): World
    requires Stands(b)
    reads b.accounts, b.accounts.chain, b.accounts.Objects(), b.store, b.store.chain
  {
    World(b.accounts.View(), b.store.View())
  }

  lemma {:induction false} ChargedKeyed(chain: Chain, m: map<bytes, State>, tx: Tx, mode: Mode, n: nat)
    requires Keyed(m)
    ensures Keyed(Charged(chain, m, tx, mode, n))
  {
    if n > 0 {
      ChargedKeyed(chain, m, tx, mode, n - 1);
    }
  }

  lemma FlatTxKeyed(chain: Chain, w: World, tx: Tx, mode: Mode, h: Handling)
    requires Keyed(w.accounts)
    ensures Keyed(FlatTx(chain, w, tx, mode, h).accounts)
  {
    ChargedKeyed(chain, w.accounts, tx, mode, |tx.signers|);
    FlatOpsKeyed(AfterAnte(chain, w.accounts, tx, mode, |tx.signers|), h.accounts);
  }

  /** A transaction on both parts of a branch. */
  method RunParts(chain: Chain, b: Branch, tx: Tx, mode: Mode, h: Handling) returns (ok: bool)
    requires Stands(b)
    modifies b.accounts.chain, b.store.chain
    ensures Stands(b) && Untouched(b.accounts) && CacheStore.Untouched(b.store)
    ensures Shown(b) == FlatTx(chain, old(Shown(b)), tx, mode, h)
    ensures ok <==> Commits(chain, old(Shown(b)).accounts, tx, mode, h)
  {
    hide Overlay, Dirty, Coherent, FlatOps, AfterAnte, Accepts, Commits, Keyed, CacheStore.FlatOps;
    FlatTxKeyed(chain, Shown(b), tx, mode, h);
    ok := RunAccounts(chain, b.accounts, tx, mode, h);
    label settled:
    var _ := CacheStore.RunNested(b.store, h.store, ok);
    Same@settled(b.accounts);
    b.accounts.Beneath@settled();
  }

  /** RunTx past the message checks, and ReRunTx: the branch ends up as if the
      transaction had run on flat maps, or unchanged. */
  method RunOn(chain: Chain, b: Branch, tx: Tx, mode: Mode, h: Handling) returns (ok: bool)
    requires Stands(b)
    modifies b.accounts.chain, b.store.chain
    ensures Stands(b) && Untouched(b.accounts) && CacheStore.Untouched(b.store)
    ensures Shown(b) == FlatTx(chain, old(Shown(b)), tx, mode, h)
    ensures ok <==> Commits(chain, old(Shown(b)).accounts, tx, mode, h)
    ensures tx.valid ==> Atomic(chain, old(Shown(b)), Shown(b), tx, mode, h, ok)
  {
    hide Stands, Shown, FlatTx, Commits, Atomic;
    if tx.valid {
      FlatTxAtomic(chain, Shown(b), tx, mode, h);
    }
    ok := RunParts(chain, b, tx, mode, h);
  }

  /** Two branches on the same roots. */
  ghost predicate Siblings(b: Branch, other: Branch)
  {
    && b.accounts != other.accounts && b.store != other.store
    && b.accounts.parent == other.accounts.parent && b.accounts.parent != null && b.accounts.parent.parent == null
    && b.store.parent == other.store.parent && b.store.parent != null && b.store.parent.parent == null
  }

  /** What is beneath the branch shows what it showed. */
  twostate predicate RootsStay(b: Branch)
    requires old(Stands(b)) && b.accounts.parent != null && b.store.parent != null
    reads b.accounts, b.accounts.chain, b.accounts.Objects(), b.store, b.store.chain
  {
    && b.accounts.parent.Valid() && b.accounts.parent.View() == old(b.accounts.parent.View())
    && b.store.parent.Valid() && b.store.parent.View() == old(b.store.parent.View())
  }

  method RunBeside(chain: Chain, b: Branch, ghost other: Branch, tx: Tx, mode: Mode, h: Handling) returns (ok: bool)
    requires Stands(b) && Stands(other) && Siblings(b, other)
    modifies b.accounts.chain, b.store.chain
    ensures Stands(b) && Stands(other) && Shown(other) == old(Shown(other)) && RootsStay(b)
    ensures Shown(b) == FlatTx(chain, old(Shown(b)), tx, mode, h)
    ensures ok <==> Commits(chain, old(Shown(b)).accounts, tx, mode, h)
  {
    hide Overlay, Dirty, Coherent, FlatTx, Commits, Keyed;
    ok := RunOn(chain, b, tx, mode, h);
    OnTop(other.accounts);
    StoreOnTop(other.store);
  }

  method WriteRoots(b: Branch) returns (ok: bool)
    requires Stands(b) && b.accounts.parent.parent == null && b.store.parent.parent == null
    modifies b.accounts.chain, b.store.chain
    ensures ok <==> forall k :: k in old(b.accounts.cache) ==> !old(b.accounts.cache)[k].deleted
    ensures ok ==> b.accounts.parent.Valid() && b.accounts.parent.View() == old(Shown(b)).accounts
    ensures ok ==> b.store.parent.Valid() && b.store.parent.View() == old(Shown(b)).store
  {
    hide Overlay, Dirty, Coherent, Keyed;
    ok := b.accounts.Write();
    if ok {
      label written:
      b.store.Write();
      Same@written(b.accounts.parent);
    }
  }

  /** SetCheckState and SetDeliverState: new caches on the roots. */
  method NewBranch(accounts: Layer, store: CacheStore.Store) returns (b: Branch)
    requires accounts.Valid() && store.Valid() && Keyed(accounts.View())
    ensures fresh(b.accounts) && fresh(b.store) && b.accounts.parent == accounts && b.store.parent == store
    ensures Stands(b) && Shown(b) == World(accounts.View(), store.View())
    ensures accounts.Valid() && accounts.View() == old(accounts.View())
    ensures store.Valid() && store.View() == old(store.View())
  {
    hide Overlay, Dirty, Coherent, Keyed;
    var s := new CacheStore.Store.Cache(store);
    Same(accounts);
    var a := Open(accounts);
    b := Branch(a, s);
  }

  class App {
    const chain: Chain
    var check: Branch
    var deliver: Option<Branch>

    constructor (chain: Chain, check: Branch, deliver: Option<Branch>)
      ensures this.chain == chain && this.check == check && this.deliver == deliver
    {
      this.chain, this.check, this.deliver := chain, check, deliver;
    }

    /** getState. */
    function StateOf(mode: Mode): Option<Branch>
      reads this
    {
      if mode == Deliver || mode == DeliverAfterPre then deliver else Some(check)
    }

    /** RunTx in a mode that concerns branch b leaves the other branch alone, and
        a transaction that is rejected, fails, panics or is simulated leaves b alone. */
    method RunTx(b: Branch, ghost other: Branch, tx: Tx, mode: Mode, h: Handling) returns (ok: bool)
      requires StateOf(mode) == Some(b)
      requires Stands(b) && Stands(other) && Siblings(b, other)
      modifies b.accounts.chain, b.store.chain
      ensures Stands(b) && Stands(other) && Shown(other) == old(Shown(other))
      ensures Shown(b) == if tx.valid then FlatTx(chain, old(Shown(b)), tx, mode, h) else old(Shown(b))
      ensures ok <==> tx.valid && Commits(chain, old(Shown(b)).accounts, tx, mode, h)
      ensures !tx.valid || !h.ok || mode == Simulate ==> !ok
      ensures !ok ==> Shown(b) == old(Shown(b))
      ensures Atomic(chain, old(Shown(b)), Shown(b), tx, mode, h, ok)
    {
      hide Overlay, Dirty, Coherent, FlatTx, Commits, Keyed, TookEffect, Accepts;
      if !tx.valid {
        return false;
      }
      FlatTxAtomic(chain, Shown(b), tx, mode, h);
      ok := RunBeside(chain, b, other, tx, mode, h);
    }

    /** Commit: the roots come to show what was delivered, and a new CheckState
        stands on them. Fails exactly if an account was removed in the block. */
    method Commit(b: Branch) returns (ok: bool)
      requires deliver == Some(b) && Stands(b) && b.accounts.parent.parent == null && b.store.parent.parent == null
      modifies this, b.accounts.chain, b.store.chain
      ensures ok <==> forall k :: k in old(b.accounts.cache) ==> !old(b.accounts.cache)[k].deleted
      ensures ok ==> Stands(check) && deliver == None
      ensures ok ==> check.accounts.parent == b.accounts.parent && check.store.parent == b.store.parent
      ensures ok ==> Shown(check) == old(Shown(b))
      ensures ok ==> check.accounts.parent.Valid() && check.accounts.parent.View() == old(Shown(b)).accounts
      ensures ok ==> check.store.parent.Valid() && check.store.parent.View() == old(Shown(b)).store
    {
      hide Overlay, Dirty, Coherent, FlatTx, Commits, Keyed;
      ok := WriteRoots(b);
      if ok {
        assert Keyed(b.accounts.parent.View());
        var next := NewBranch(b.accounts.parent, b.store.parent);
        label made:
        check, deliver := next, None;
        Same@made(next.accounts);
        Same@made(next.accounts.parent);
      }
    }
  }
}
