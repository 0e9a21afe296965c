/** Account sequence numbers over runs of delivered transactions: what keeps a
    signed transaction from being executed twice. */
module Sequences {
  import opened Bytes
  import opened AccountCache
  import opened Transactions

  datatype Delivery = Delivery(chain: Chain, tx: Tx, mode: Mode, h: Handling)

  predicate Succeeds(w: World, d: Delivery)
  {
    d.tx.valid && Commits(d.chain, w.accounts, d.tx, d.mode, d.h)
  }

  ghost function After(w: World, d: Delivery): World
  {
    if d.tx.valid then FlatTx(d.chain, w, d.tx, d.mode, d.h) else w
  }

  /** Every delivery takes effect as a whole or not at all. */
  lemma DeliveryAtomic(w: World, d: Delivery)
    ensures Atomic(d.chain, w, After(w, d), d.tx, d.mode, d.h, Succeeds(w, d))
  {
    hide Accepts, TookEffect, Commits, FlatTx;
    if d.tx.valid {
      FlatTxAtomic(d.chain, w, d.tx, d.mode, d.h);
    }
  }

  ghost function FlatRun(w: World, ds: seq<Delivery>): World
  {
    if ds == [] then w else After(FlatRun(w, ds[..|ds| - 1]), ds[|ds| - 1])
  }

  /** Transactions delivered one after another leave the branch as the flat run says,
      and a branch beside it as it was. */
  method DeliverAll(b: Branch, ghost other: Branch, ds: seq<Delivery>)
    requires Stands(b) && Stands(other) && Siblings(b, other)
    modifies b.accounts.chain, b.store.chain
    ensures Stands(b) && Stands(other) && Shown(other) == old(Shown(other))
    ensures Shown(b) == FlatRun(old(Shown(b)), ds)
  {
    hide FlatTx, Stands, Shown;
    for i := 0 to |ds|
      invariant Stands(b) && Stands(other) && Shown(other) == old(Shown(other))
      invariant Shown(b) == FlatRun(old(Shown(b)), ds[..i])
    {
      assert ds[..i + 1][..i] == ds[..i];
      if ds[i].tx.valid {
        var _ := RunBeside(ds[i].chain, b, other, ds[i].tx, ds[i].mode, ds[i].h);
      }
    }
    assert ds[..|ds|] == ds;
  }

  /** Accounts stay, with their sequences. */
  predicate KeepsSequences(before: map<bytes, State>, after: map<bytes, State>)
  {
    forall k :: k in before ==> k in after && after[k].sequence == before[k].sequence
  }

  /** The handler of a delivery that succeeds does not touch sequences or remove accounts. */
  ghost predicate GentleStep(w: World, d: Delivery)
  {
    var p := AfterAnte(d.chain, w.accounts, d.tx, d.mode, |d.tx.signers|);
    Succeeds(w, d) ==> KeepsSequences(p.store, FlatOps(p, d.h.accounts).store)
  }

  ghost predicate Gentle(w: World, ds: seq<Delivery>)
  {
    forall i :: 0 <= i < |ds| ==> GentleStep(FlatRun(w, ds[..i]), ds[i])
  }

  /** How many successful transactions of the run the address signed. */
  ghost function SignedBy(w: World, ds: seq<Delivery>, a: bytes): nat
  {
    if ds == [] then 0
    else
      var front, d := ds[..|ds| - 1], ds[|ds| - 1];
      SignedBy(w, front, a) + (if Succeeds(FlatRun(w, front), d) && a in d.tx.signers then 1 else 0)
  }

  lemma {:induction false} ChargedSequence(chain: Chain, m: map<bytes, State>, tx: Tx, mode: Mode, n: nat, a: bytes)
    requires Accepts(chain, m, tx, mode) && n <= |tx.signers| && a in m
    ensures a in Charged(chain, m, tx, mode, n)
    ensures Charged(chain, m, tx, mode, n)[a].sequence
            == if a in tx.signers[..n] then Wrap(m[a].sequence + 1) else m[a].sequence
  {
    hide Wrap, Matches, KeyOf;
    if n > 0 {
      ChargedSequence(chain, m, tx, mode, n - 1, a);
      assert tx.signers[..n] == tx.signers[..n - 1] + [tx.signers[n - 1]];
      assert Signer(chain, m, tx, mode, n - 1).Some?;
    }
  }

  lemma WrapAdds(x: int, n: int)
    ensures Wrap(Wrap(x) + n) == Wrap(x + n)
  {
    var q := (x + TWO_63) / TWO_64;
    assert Wrap(x) == x - q * TWO_64;
    Period(x + n, q);
  }

  lemma Period(x: int, q: int)
    ensures Wrap(x - q * TWO_64) == Wrap(x)
  {
    Mod(x + TWO_63, q);
  }

  lemma {:induction false} Mod(y: int, q: int)
    ensures (y - q * TWO_64) % TWO_64 == y % TWO_64
    decreases if q < 0 then 0 - q else q
  {
    if q > 0 {
      Mod(y - TWO_64, q - 1);
    } else if q < 0 {
      Mod(y + TWO_64, q + 1);
    }
  }

  lemma StepSequence(w: World, d: Delivery, a: bytes)
    requires GentleStep(w, d) && a in w.accounts
    ensures a in After(w, d).accounts
    ensures After(w, d).accounts[a].sequence
            == if Succeeds(w, d) && a in d.tx.signers then Wrap(w.accounts[a].sequence + 1) else w.accounts[a].sequence
  {
    hide Wrap, Accepts, FlatOps, Charged;
    if Succeeds(w, d) {
      ChargedSequence(d.chain, w.accounts, d.tx, d.mode, |d.tx.signers|, a);
      assert d.tx.signers[..|d.tx.signers|] == d.tx.signers;
    }
  }

  /** An account's sequence rises by exactly one per successful transaction it
      signs, and not otherwise. */
  lemma {:induction false} SequenceRises(w: World, ds: seq<Delivery>, a: bytes)
    requires Gentle(w, ds) && a in w.accounts
    ensures a in FlatRun(w, ds).accounts
    ensures FlatRun(w, ds).accounts[a].sequence == Wrap(w.accounts[a].sequence + SignedBy(w, ds, a))
  {
    hide Wrap, Succeeds, After, GentleStep;
    if ds != [] {
      var front := ds[..|ds| - 1];
      GentleFront(w, ds, |ds| - 1);
      SequenceRises(w, front, a);
      StepSequence(FlatRun(w, front), ds[|ds| - 1], a);
      WrapAdds(w.accounts[a].sequence + SignedBy(w, front, a), 1);
    }
  }

  lemma GentleFront(w: World, ds: seq<Delivery>, n: nat)
    requires Gentle(w, ds) && n <= |ds|
    ensures Gentle(w, ds[..n])
  {
    forall i | 0 <= i < n
      ensures ds[..n][..i] == ds[..i] && ds[..n][i] == ds[i]
    {
    }
  }

  lemma {:induction false} RunsCompose(w: World, ds: seq<Delivery>, i: nat)
    requires i <= |ds|
    ensures FlatRun(FlatRun(w, ds[..i]), ds[i..]) == FlatRun(w, ds)
    ensures Gentle(w, ds) ==> Gentle(FlatRun(w, ds[..i]), ds[i..])
    decreases |ds| - i
  {
    hide After, GentleStep;
    forall j | i <= j <= |ds|
      ensures FlatRun(FlatRun(w, ds[..i]), ds[i..][..j - i]) == FlatRun(w, ds[..j])
    {
      Composed(w, ds, i, j);
    }
    assert ds[i..][..|ds| - i] == ds[i..] && ds[..|ds|] == ds;
    if Gentle(w, ds) {
      forall j | 0 <= j < |ds[i..]|
        ensures GentleStep(FlatRun(FlatRun(w, ds[..i]), ds[i..][..j]), ds[i..][j])
      {
        assert GentleStep(FlatRun(w, ds[..i + j]), ds[i + j]);
        assert FlatRun(FlatRun(w, ds[..i]), ds[i..][..i + j - i]) == FlatRun(w, ds[..i + j]);
      }
    }
  }

  lemma {:induction false} Composed(w: World, ds: seq<Delivery>, i: nat, j: nat)
    requires i <= j <= |ds|
    ensures FlatRun(FlatRun(w, ds[..i]), ds[i..][..j - i]) == FlatRun(w, ds[..j])
    decreases j
  {
    hide After;
    if i < j {
      Composed(w, ds, i, j - 1);
      assert ds[i..][..j - i][..j - i - 1] == ds[i..][..j - 1 - i];
      assert ds[..j][..j - 1] == ds[..j - 1];
      assert ds[i..][..j - i][j - i - 1] == ds[..j][j - 1];
    }
  }

  lemma {:induction false} SignedByBound(w: World, ds: seq<Delivery>, a: bytes)
    ensures SignedBy(w, ds, a) <= |ds|
    ensures ds != [] && Succeeds(w, ds[0]) && a in ds[0].tx.signers ==> SignedBy(w, ds, a) >= 1
  {
    hide Succeeds, After;
    if |ds| > 1 {
      var front := ds[..|ds| - 1];
      assert front[0] == ds[0];
      SignedByBound(w, front, a);
    } else if |ds| == 1 {
      assert ds[..0] == [];
    }
  }

  lemma WrapMoves(x: int64, n: nat)
    requires 0 < n < TWO_64
    ensures Wrap(x + n) != x
  {
  }

  /** The first signer's sequence is the one it signed. */
  lemma SignedSequence(w: World, d: Delivery)
    requires Succeeds(w, d)
    ensures |d.tx.sigs| == |d.tx.signers| && (d.mode != ReCheck ==> d.tx.signers != [])
    ensures d.tx.signers != [] ==>
              d.tx.signers[0] in w.accounts && w.accounts[d.tx.signers[0]].sequence == d.tx.sigs[0].sequence
  {
  }

  /** One signed transaction succeeds at most once in a run. */
  lemma AtMostOnce(w: World, ds: seq<Delivery>, i: nat, j: nat)
    requires Gentle(w, ds) && i < j < |ds| < TWO_64
    requires ds[i].tx == ds[j].tx && ds[i].mode != ReCheck
    ensures !(Succeeds(FlatRun(w, ds[..i]), ds[i]) && Succeeds(FlatRun(w, ds[..j]), ds[j]))
  {
    hide Succeeds, Gentle, FlatRun, SignedBy, Wrap;
    var v, u := FlatRun(w, ds[..i]), FlatRun(w, ds[..j]);
    if Succeeds(v, ds[i]) && Succeeds(u, ds[j]) {
      SignedSequence(v, ds[i]);
      SignedSequence(u, ds[j]);
      var a, mid := ds[i].tx.signers[0], ds[i..][..j - i];
      RunsCompose(w, ds, i);
      Composed(w, ds, i, j);
      GentleFront(v, ds[i..], j - i);
      SequenceRises(v, mid, a);
      SignedByBound(v, mid, a);
      WrapMoves(v.accounts[a].sequence, SignedBy(v, mid, a));
    }
  }
}
