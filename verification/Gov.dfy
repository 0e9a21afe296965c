/** x/gov: deposits held in escrow while their proposals are open, on all chains
    that share the escrow account. */
module Gov {
  import opened Bytes
  import opened Coins
  import opened Proposals
  import Bank
  import MapSum

  // ---------------------------------------------------------------- sums over records

  ghost function Amounts(deposits: Deposits, d: bytes): map<Slot, int>
  {
    map k | k in deposits :: Amount(deposits[k], d) as int
  }

  /** All that is deposited. */
  ghost function Live(deposits: Deposits, d: bytes): int
  {
    MapSum.Sum(Amounts(deposits, d))
  }

  ghost function PerChain(chains: map<bytes, Chain>, d: bytes): map<bytes, int>
  {
    map c | c in chains :: Live(chains[c].deposits, d)
  }

  /** All that is deposited on any chain. */
  ghost function LiveAll(chains: map<bytes, Chain>, d: bytes): int
  {
    MapSum.Sum(PerChain(chains, d))
  }

  predicate AllProper(deposits: Deposits)
  {
    forall k :: k in deposits ==> Bank.Proper(deposits[k])
  }

  function RecordOf(deposits: Deposits, k: Slot): seq<Coin>
  {
    if k in deposits then deposits[k] else []
  }

  lemma LivePut(deposits: Deposits, k: Slot, cs: seq<Coin>, d: bytes)
    ensures Live(deposits[k := cs], d) == Live(deposits, d) - Amount(RecordOf(deposits, k), d) + Amount(cs, d)
  {
    assert Amounts(deposits[k := cs], d) == Amounts(deposits, d)[k := Amount(cs, d)];
    MapSum.SumPut(Amounts(deposits, d), k, Amount(cs, d));
  }

  lemma LiveRemove(deposits: Deposits, k: Slot, d: bytes)
    requires k in deposits
    ensures Live(deposits - {k}, d) == Live(deposits, d) - Amount(deposits[k], d)
  {
    assert Amounts(deposits - {k}, d) == Amounts(deposits, d) - {k};
    MapSum.SumWithout(Amounts(deposits, d), k);
  }

  lemma LiveNonNegative(deposits: Deposits, d: bytes)
    requires AllProper(deposits)
    ensures Live(deposits, d) >= 0
    ensures forall k :: k in deposits ==> Amount(deposits[k], d) <= Live(deposits, d)
  {
    forall k | k in deposits
      ensures Amounts(deposits, d)[k] >= 0
    {
      Bank.ProperAmount(deposits[k], d);
    }
    MapSum.SumNonNegative(Amounts(deposits, d));
    assert forall k :: k in deposits ==> Amounts(deposits, d)[k] == Amount(deposits[k], d);
  }

  /** The records of one proposal and those of the others make up all. */
  lemma {:induction false} LiveSplit(deposits: Deposits, id: int, d: bytes)
    ensures Live(deposits, d) == Live(Only(deposits, id), d) + Live(Without(deposits, id), d)
    decreases deposits
  {
    if deposits == map[] {
      assert Only(deposits, id) == map[] && Without(deposits, id) == map[];
      assert Amounts(map[], d) == map[];
    } else {
      var k :| k in deposits;
      LiveSplit(deposits - {k}, id, d);
      LiveRemove(deposits, k, d);
      if k.id == id {
        assert Only(deposits - {k}, id) == Only(deposits, id) - {k};
        assert Without(deposits - {k}, id) == Without(deposits, id);
        LiveRemove(Only(deposits, id), k, d);
      } else {
        assert Only(deposits - {k}, id) == Only(deposits, id);
        assert Without(deposits - {k}, id) == Without(deposits, id) - {k};
        LiveRemove(Without(deposits, id), k, d);
      }
    }
  }

  lemma LiveAllPut(chains: map<bytes, Chain>, c: bytes, ch: Chain, d: bytes)
    requires c in chains
    ensures LiveAll(chains[c := ch], d) == LiveAll(chains, d) - Live(chains[c].deposits, d) + Live(ch.deposits, d)
  {
    assert PerChain(chains[c := ch], d) == PerChain(chains, d)[c := Live(ch.deposits, d)];
    MapSum.SumPut(PerChain(chains, d), c, Live(ch.deposits, d));
  }

  lemma LiveWithinAll(chains: map<bytes, Chain>, c: bytes, d: bytes)
    requires c in chains && forall k :: k in chains ==> AllProper(chains[k].deposits)
    ensures 0 <= Live(chains[c].deposits, d) <= LiveAll(chains, d)
  {
    forall k | k in chains
      ensures PerChain(chains, d)[k] >= 0
    {
      LiveNonNegative(chains[k].deposits, d);
    }
    MapSum.SumNonNegative(PerChain(chains, d));
    assert PerChain(chains, d)[c] == Live(chains[c].deposits, d);
  }

  // ---------------------------------------------------------------- payments

  /** Balances are sound and all that exists fits into 64 bits. */
  ghost predicate Backed(bank: Bank.Balances)
  {
    Bank.Sound(bank) && forall d :: Int64(Bank.Supply(bank, d))
  }

  function BalanceOf(bank: Bank.Balances, a: bytes, d: bytes): int64
  {
    Amount(Bank.Balance(bank, a), d)
  }

  /** `amt` went from one account to another and nowhere else. */
  ghost predicate Paid(before: Bank.Balances, after: Bank.Balances, from: bytes, to: bytes, amt: seq<Coin>)
  {
    forall a, d :: BalanceOf(after, a, d)
                   == BalanceOf(before, a, d) - (if a == from then Amount(amt, d) else 0) + (if a == to then Amount(amt, d) else 0)
  }

  lemma ShareOne(a: bytes, cs: seq<Coin>, b: bytes, d: bytes)
    ensures Bank.Share([Bank.Entry(a, cs)], b, d) == if a == b then Amount(cs, d) else 0
    ensures Bank.Total([Bank.Entry(a, cs)], d) == Amount(cs, d)
  {
    assert [Bank.Entry(a, cs)][..0] == [];
    assert Bank.Share([], b, d) == 0 && Bank.Total([], d) == 0;
  }

  /** Two accounts together have no more than there is. */
  lemma TwoWithinSupply(bank: Bank.Balances, a: bytes, b: bytes, d: bytes)
    requires Bank.Sound(bank) && a != b
    ensures 0 <= BalanceOf(bank, a, d) && 0 <= BalanceOf(bank, b, d)
    ensures BalanceOf(bank, a, d) + BalanceOf(bank, b, d) <= Bank.Supply(bank, d)
  {
    var m := Bank.Holdings(bank, d);
    Bank.ProperAmount(Bank.Balance(bank, a), d);
    Bank.ProperAmount(Bank.Balance(bank, b), d);
    forall k | k in m
      ensures m[k] >= 0
    {
      Bank.ProperAmount(bank[k], d);
    }
    MapSum.SumNonNegative(m);
    assert if a in bank then m[a] == BalanceOf(bank, a, d) else BalanceOf(bank, a, d) == 0;
    assert if b in bank then m[b] == BalanceOf(bank, b, d) else BalanceOf(bank, b, d) == 0;
    if a in bank && b in bank {
      MapSum.SumWithout(m, a);
      MapSum.SumNonNegative(m - {a});
      assert b in m - {a};
    }
  }

  /** A payment that the payer can afford goes through. */
  lemma Affordable(bank: Bank.Balances, from: bytes, to: bytes, amt: seq<Coin>)
    requires Backed(bank) && Bank.Proper(amt) && Covers(Bank.Balance(bank, from), amt)
    ensures Bank.Funded(bank, [Bank.Entry(from, amt)])
    ensures Bank.InRange(bank, [Bank.Entry(from, amt)], [Bank.Entry(to, amt)])
  {
    forall a, d
      ensures Bank.Share([Bank.Entry(from, amt)], a, d) <= Amount(Bank.Balance(bank, a), d)
    {
      ShareOne(from, amt, a, d);
      Bank.ProperAmount(Bank.Balance(bank, a), d);
      assert Amount(Bank.Balance(bank, from), d) >= Amount(amt, d);
    }
    forall a, d
      ensures Int64(Amount(Bank.Balance(bank, a), d) - Bank.Share([Bank.Entry(from, amt)], a, d) + Bank.Share([Bank.Entry(to, amt)], a, d))
    {
      ShareOne(from, amt, a, d);
      ShareOne(to, amt, a, d);
      Bank.ProperAmount(amt, d);
      Bank.ProperAmount(Bank.Balance(bank, a), d);
      assert Amount(Bank.Balance(bank, from), d) >= Amount(amt, d);
      if from != to {
        TwoWithinSupply(bank, from, to, d);
      }
    }
  }

  lemma MovedIsPaid(before: Bank.Balances, after: Bank.Balances, from: bytes, to: bytes, amt: seq<Coin>)
    requires Backed(before) && Bank.Moved(before, after, [Bank.Entry(from, amt)], [Bank.Entry(to, amt)])
    ensures Backed(after) && Paid(before, after, from, to, amt)
  {
    forall d
      ensures Int64(Bank.Supply(after, d))
    {
      ShareOne(from, amt, from, d);
      ShareOne(to, amt, to, d);
    }
    forall a, d
      ensures BalanceOf(after, a, d)
              == BalanceOf(before, a, d) - (if a == from then Amount(amt, d) else 0) + (if a == to then Amount(amt, d) else 0)
    {
      ShareOne(from, amt, a, d);
      ShareOne(to, amt, a, d);
    }
  }

  // ---------------------------------------------------------------- the books

  /** Every record is of an open proposal and a depositor other than the escrow, and the
      total of an open proposal is the sum of its records. */
  ghost predicate Booked(c: Chain, escrow: bytes)
  {
    && AllProper(c.deposits)
    && (forall k :: k in c.deposits ==> k.id in c.proposals && IsOpen(c.proposals[k.id]) && k.depositer != escrow)
    && (forall id :: id in c.proposals && IsOpen(c.proposals[id]) ==> Totalled(c, id))
  }

  ghost predicate Totalled(c: Chain, id: int)
    requires id in c.proposals
  {
    Bank.Proper(c.proposals[id].total) && forall d :: Amount(c.proposals[id].total, d) == Live(Only(c.deposits, id), d)
  }

  ghost predicate AllBooked(chains: map<bytes, Chain>, escrow: bytes)
  {
    forall c :: c in chains ==> Booked(chains[c], escrow)
  }

  /** The escrow account holds at least what is deposited on all chains. */
  ghost predicate Solvent(bank: Bank.Balances, chains: map<bytes, Chain>, escrow: bytes)
  {
    && Backed(bank) && AllBooked(chains, escrow)
    && forall d :: BalanceOf(bank, escrow, d) >= LiveAll(chains, d)
  }

  /** Records of a chain can be paid out of the escrow account. */
  lemma EscrowCovers(bank: Bank.Balances, chains: map<bytes, Chain>, escrow: bytes, c: bytes, d: bytes)
    requires Solvent(bank, chains, escrow) && c in chains
    ensures 0 <= Live(chains[c].deposits, d) <= BalanceOf(bank, escrow, d)
  {
    LiveWithinAll(chains, c, d);
  }

  /** From c to r, proposal `id` is closed or dropped, its records are gone, and nothing else
      about open proposals has changed. */
  ghost predicate Closes(c: Chain, r: Chain, id: int)
  {
    && r.deposits == Without(c.deposits, id)
    && (forall k :: k in r.proposals && IsOpen(r.proposals[k]) ==> k != id && k in c.proposals && r.proposals[k] == c.proposals[k])
    && (forall k :: k in c.proposals && k != id && IsOpen(c.proposals[k]) ==> k in r.proposals && r.proposals[k] == c.proposals[k])
  }

  lemma ClosedBooked(c: Chain, r: Chain, escrow: bytes, id: int)
    requires Booked(c, escrow) && Closes(c, r, id)
    ensures Booked(r, escrow)
  {
    forall k | k in r.proposals && IsOpen(r.proposals[k])
      ensures Totalled(r, k)
    {
      assert Totalled(c, k);
      assert Only(r.deposits, k) == Only(c.deposits, k);
    }
  }

  lemma ClosedSolvent(bank: Bank.Balances, after: Bank.Balances, chains: map<bytes, Chain>, escrow: bytes, c: bytes, r: Chain, id: int, to: bytes)
    requires Solvent(bank, chains, escrow) && Backed(after) && c in chains && Closes(chains[c], r, id)
    requires PaidBack(bank, after, escrow, chains[c].deposits, id) || PaidOut(bank, after, escrow, chains[c].deposits, id, to)
    ensures Solvent(after, chains[c := r], escrow)
  {
    assert Booked(chains[c], escrow);
    ClosedBooked(chains[c], r, escrow, id);
    forall d
      ensures BalanceOf(after, escrow, d) >= LiveAll(chains[c := r], d)
    {
      LiveAllPut(chains, c, r, d);
      LiveSplit(chains[c].deposits, id, d);
      LiveNonNegative(Only(chains[c].deposits, id), d);
      assert BalanceOf(bank, escrow, d) >= LiveAll(chains, d);
    }
  }

  lemma PopCloses(c: Chain, now: int)
    requires Orderly(c, now)
    ensures c.inactive != [] && c.inactive[0] in c.proposals && c.proposals[c.inactive[0]].status == DepositPeriod ==>
              Closes(c, PopInactive(c), c.inactive[0])
    ensures forall v :: c.active != [] && c.active[0] in c.proposals ==> Closes(c, PopActive(c, v), c.active[0])
  {
  }

  /** A deposit adds the same amount to the record, to the total and to the escrow account. */
  lemma DepositedBooked(c: Chain, r: Chain, escrow: bytes, slot: Slot, amt: seq<Coin>, total: seq<Coin>, record: seq<Coin>)
    requires Booked(c, escrow) && slot.id in c.proposals && IsOpen(c.proposals[slot.id]) && slot.depositer != escrow
    requires Bank.Proper(total) && Bank.Proper(record)
    requires forall d :: Amount(total, d) == Amount(c.proposals[slot.id].total, d) + Amount(amt, d)
    requires forall d :: Amount(record, d) == Amount(RecordOf(c.deposits, slot), d) + Amount(amt, d)
    requires r.deposits == c.deposits[slot := record] && r.proposals.Keys == c.proposals.Keys
    requires r.proposals[slot.id].total == total && IsOpen(r.proposals[slot.id])
    requires forall k :: k in c.proposals && k != slot.id ==> r.proposals[k] == c.proposals[k]
    ensures Booked(r, escrow)
  {
    forall k | k in r.proposals && IsOpen(r.proposals[k])
      ensures Totalled(r, k)
    {
      assert Totalled(c, k);
      if k == slot.id {
        assert Only(r.deposits, k) == Only(c.deposits, k)[slot := record];
        assert RecordOf(Only(c.deposits, k), slot) == RecordOf(c.deposits, slot);
        forall d
          ensures Amount(total, d) == Live(Only(r.deposits, k), d)
        {
          LivePut(Only(c.deposits, k), slot, record, d);
        }
      } else {
        assert Only(r.deposits, k) == Only(c.deposits, k);
      }
    }
  }

  lemma DepositedSolvent(bank: Bank.Balances, after: Bank.Balances, chains: map<bytes, Chain>, escrow: bytes, c: bytes, r: Chain, slot: Slot, amt: seq<Coin>, record: seq<Coin>)
    requires Solvent(bank, chains, escrow) && Backed(after) && c in chains && Booked(r, escrow)
    requires slot.depositer != escrow && Paid(bank, after, slot.depositer, escrow, amt)
    requires r.deposits == chains[c].deposits[slot := record]
    requires forall d :: Amount(record, d) == Amount(RecordOf(chains[c].deposits, slot), d) + Amount(amt, d)
    ensures Solvent(after, chains[c := r], escrow)
  {
    forall d
      ensures BalanceOf(after, escrow, d) >= LiveAll(chains[c := r], d)
    {
      LiveAllPut(chains, c, r, d);
      LivePut(chains[c].deposits, slot, record, d);
      assert BalanceOf(bank, escrow, d) >= LiveAll(chains, d);
      assert BalanceOf(after, escrow, d) == BalanceOf(bank, escrow, d) + Amount(amt, d);
    }
  }

  /** What a depositor can pay never overflows the total or the record. */
  lemma DepositFits(bank: Bank.Balances, chains: map<bytes, Chain>, escrow: bytes, c: bytes, slot: Slot, amt: seq<Coin>, d: bytes)
    requires Solvent(bank, chains, escrow) && c in chains && slot.id in chains[c].proposals && IsOpen(chains[c].proposals[slot.id])
    requires slot.depositer != escrow && Bank.Proper(amt) && Covers(Bank.Balance(bank, slot.depositer), amt)
    ensures Int64(Amount(chains[c].proposals[slot.id].total, d) + Amount(amt, d))
    ensures Int64(Amount(RecordOf(chains[c].deposits, slot), d) + Amount(amt, d))
  {
    var ch := chains[c];
    assert Booked(ch, escrow) && Totalled(ch, slot.id);
    EscrowCovers(bank, chains, escrow, c, d);
    LiveSplit(ch.deposits, slot.id, d);
    LiveNonNegative(ch.deposits, d);
    LiveNonNegative(Only(ch.deposits, slot.id), d);
    LiveNonNegative(Without(ch.deposits, slot.id), d);
    TwoWithinSupply(bank, escrow, slot.depositer, d);
    Bank.ProperAmount(amt, d);
    assert Amount(Bank.Balance(bank, slot.depositer), d) >= Amount(amt, d);
    if slot in ch.deposits {
      Bank.ProperAmount(ch.deposits[slot], d);
    }
  }

  /** Hence both additions succeed. */
  lemma DepositAdds(bank: Bank.Balances, chains: map<bytes, Chain>, escrow: bytes, c: bytes, slot: Slot, amt: seq<Coin>)
    requires Solvent(bank, chains, escrow) && c in chains && slot.id in chains[c].proposals && IsOpen(chains[c].proposals[slot.id])
    requires slot.depositer != escrow && Bank.Proper(amt) && Covers(Bank.Balance(bank, slot.depositer), amt)
    ensures var total := Sum(chains[c].proposals[slot.id].total, amt);
            total.Some? && Bank.Proper(total.value)
            && forall d :: Amount(total.value, d) == Amount(chains[c].proposals[slot.id].total, d) + Amount(amt, d)
    ensures var record := Sum(RecordOf(chains[c].deposits, slot), amt);
            record.Some? && Bank.Proper(record.value)
            && forall d :: Amount(record.value, d) == Amount(RecordOf(chains[c].deposits, slot), d) + Amount(amt, d)
  {
    hide *;
    ProperBooks(bank, chains, escrow, c, slot.id);
    forall d
      ensures Int64(Amount(chains[c].proposals[slot.id].total, d) + Amount(amt, d))
      ensures Int64(Amount(RecordOf(chains[c].deposits, slot), d) + Amount(amt, d))
    {
      DepositFits(bank, chains, escrow, c, slot, amt, d);
    }
    ProperRecordOf(chains[c].deposits, slot);
    Bank.SumProper(chains[c].proposals[slot.id].total, amt);
    Bank.SumProper(RecordOf(chains[c].deposits, slot), amt);
  }

  lemma ProperBooks(bank: Bank.Balances, chains: map<bytes, Chain>, escrow: bytes, c: bytes, id: int)
    requires Solvent(bank, chains, escrow) && c in chains && id in chains[c].proposals && IsOpen(chains[c].proposals[id])
    ensures Bank.Proper(chains[c].proposals[id].total) && AllProper(chains[c].deposits)
  {
    assert Booked(chains[c], escrow) && Totalled(chains[c], id);
  }

  lemma ProperRecordOf(deposits: Deposits, k: Slot)
    requires AllProper(deposits)
    ensures Bank.Proper(RecordOf(deposits, k))
  {
  }

  /** The records that are still to be paid. */
  function Pending(deposits: Deposits, pending: set<Slot>): Deposits
  {
    map k | k in deposits && k in pending :: deposits[k]
  }

  /** The balances after the records of `id` outside `pending` have been paid back. */
  ghost predicate Refunded(before: Bank.Balances, bank: Bank.Balances, escrow: bytes, deposits: Deposits, id: int, pending: set<Slot>)
  {
    && (forall a, d :: a != escrow ==>
          BalanceOf(bank, a, d) == BalanceOf(before, a, d)
                                   + (if Slot(id, a) in pending then 0 else Amount(RecordOf(deposits, Slot(id, a)), d)))
    && (forall d :: BalanceOf(bank, escrow, d)
                    == BalanceOf(before, escrow, d) - Live(Only(deposits, id), d) + Live(Pending(deposits, pending), d))
  }

  lemma RefundStarts(bank: Bank.Balances, escrow: bytes, deposits: Deposits, id: int)
    ensures Refunded(bank, bank, escrow, deposits, id, Only(deposits, id).Keys)
  {
    assert Pending(deposits, Only(deposits, id).Keys) == Only(deposits, id);
  }

  lemma RefundCovers(before: Bank.Balances, bank: Bank.Balances, escrow: bytes, deposits: Deposits, id: int, pending: set<Slot>, k: Slot)
    requires Refunded(before, bank, escrow, deposits, id, pending) && AllProper(deposits) && k in pending && k in deposits
    requires forall d :: Live(Only(deposits, id), d) <= BalanceOf(before, escrow, d)
    ensures Covers(Bank.Balance(bank, escrow), deposits[k])
  {
    hide Only, Live;
    forall d
      ensures Amount(Bank.Balance(bank, escrow), d) >= Amount(deposits[k], d)
    {
      LiveNonNegative(Pending(deposits, pending), d);
      assert k in Pending(deposits, pending);
      assert BalanceOf(bank, escrow, d) >= Live(Pending(deposits, pending), d);
    }
  }

  lemma RefundStep(before: Bank.Balances, bank: Bank.Balances, after: Bank.Balances, escrow: bytes, deposits: Deposits, id: int, pending: set<Slot>, k: Slot)
    requires Refunded(before, bank, escrow, deposits, id, pending) && k in pending && k in deposits && k.id == id && k.depositer != escrow
    requires Paid(bank, after, escrow, k.depositer, deposits[k])
    ensures Refunded(before, after, escrow, deposits, id, pending - {k})
  {
    hide Only, Live, BalanceOf;
    assert k == Slot(id, k.depositer);
    forall d
      ensures Live(Pending(deposits, pending - {k}), d) == Live(Pending(deposits, pending), d) - Amount(deposits[k], d)
    {
      assert Pending(deposits, pending - {k}) == Pending(deposits, pending) - {k};
      LiveRemove(Pending(deposits, pending), k, d);
    }
  }

  /** Every depositor of the proposal got exactly the record back, out of the escrow account. */
  ghost predicate PaidBack(before: Bank.Balances, after: Bank.Balances, escrow: bytes, deposits: Deposits, id: int)
  {
    forall a, d :: BalanceOf(after, a, d)
                   == BalanceOf(before, a, d)
                      + if a == escrow then 0 - Live(Only(deposits, id), d) else Amount(RecordOf(deposits, Slot(id, a)), d)
  }

  /** All records of the proposal went from the escrow account to `to`. */
  ghost predicate PaidOut(before: Bank.Balances, after: Bank.Balances, escrow: bytes, deposits: Deposits, id: int, to: bytes)
  {
    forall a, d :: BalanceOf(after, a, d)
                   == BalanceOf(before, a, d) - (if a == escrow then Live(Only(deposits, id), d) else 0)
                      + (if a == to then Live(Only(deposits, id), d) else 0)
  }

  lemma RefundEnds(before: Bank.Balances, bank: Bank.Balances, escrow: bytes, deposits: Deposits, id: int)
    requires Refunded(before, bank, escrow, deposits, id, {})
    ensures PaidBack(before, bank, escrow, deposits, id)
  {
    assert Pending(deposits, {}) == map[];
    forall d
      ensures Live(map[], d) == 0
    {
      assert Amounts(map[], d) == map[];
    }
  }

  // ---------------------------------------------------------------- who is paid when proposals are settled

  /** The records of one depositor. */
  function By(deposits: Deposits, who: bytes): Deposits
  {
    map k | k in deposits && k.depositer == who :: deposits[k]
  }

  /** Every depositor got back what is `returned`, the block proposer got all that is `forfeited`, and both came
      out of the escrow account. */
  ghost predicate SettledUp(before: Bank.Balances, after: Bank.Balances, escrow: bytes, proposer: bytes, returned: Deposits, forfeited: Deposits)
  {
    forall a, d :: BalanceOf(after, a, d)
                   == BalanceOf(before, a, d) + Live(By(returned, a), d) + (if a == proposer then Live(forfeited, d) else 0)
                      - (if a == escrow then Live(returned, d) + Live(forfeited, d) else 0)
  }

  lemma LiveNone(none: Deposits, who: bytes, d: bytes)
    requires none == map[]
    ensures Live(none, d) == 0 && Live(By(none, who), d) == 0
  {
    assert Amounts(none, d) == map[] && By(none, who) == none;
  }

  lemma NothingSettled(bank: Bank.Balances, escrow: bytes, proposer: bytes, none: Deposits)
    requires none == map[]
    ensures SettledUp(bank, bank, escrow, proposer, none, none)
  {
    hide Live, By, BalanceOf;
    if !SettledUp(bank, bank, escrow, proposer, none, none) {
      var a, d :| BalanceOf(bank, a, d)
                  != BalanceOf(bank, a, d) + Live(By(none, a), d) + (if a == proposer then Live(none, d) else 0)
                     - (if a == escrow then Live(none, d) + Live(none, d) else 0);
      LiveNone(none, a, d);
      assert false;
    }
  }

  /** Records of one more proposal add up with those of others. */
  lemma LiveJoin(some: Deposits, cur: Deposits, id: int, d: bytes)
    requires forall k :: k in some ==> k.id != id
    ensures Live(some + Only(cur, id), d) == Live(some, d) + Live(Only(cur, id), d)
  {
    var all := some + Only(cur, id);
    LiveSplit(all, id, d);
    assert Only(all, id) == Only(cur, id);
    assert Without(all, id) == some;
  }

  lemma ByJoin(some: Deposits, cur: Deposits, id: int, who: bytes, d: bytes)
    requires forall k :: k in some ==> k.id != id
    ensures Live(By(some + Only(cur, id), who), d) == Live(By(some, who), d) + Amount(RecordOf(cur, Slot(id, who)), d)
  {
    var k := Slot(id, who);
    if k in cur {
      assert By(some + Only(cur, id), who) == By(some, who)[k := cur[k]];
      LivePut(By(some, who), k, cur[k], d);
    } else {
      assert By(some + Only(cur, id), who) == By(some, who);
    }
  }

  lemma ReturnStep(before: Bank.Balances, bank: Bank.Balances, after: Bank.Balances, escrow: bytes, proposer: bytes, r: Deposits, f: Deposits, cur: Deposits, id: int)
    requires SettledUp(before, bank, escrow, proposer, r, f) && PaidBack(bank, after, escrow, cur, id)
    requires (forall k :: k in r ==> k.id != id) && Slot(id, escrow) !in cur
    ensures SettledUp(before, after, escrow, proposer, r + Only(cur, id), f)
  {
    hide Live, By, Only, BalanceOf;
    forall a, d
      ensures BalanceOf(after, a, d)
              == BalanceOf(before, a, d) + Live(By(r + Only(cur, id), a), d) + (if a == proposer then Live(f, d) else 0)
                 - (if a == escrow then Live(r + Only(cur, id), d) + Live(f, d) else 0)
    {
      LiveJoin(r, cur, id, d);
      ByJoin(r, cur, id, a, d);
      assert BalanceOf(bank, a, d)
             == BalanceOf(before, a, d) + Live(By(r, a), d) + (if a == proposer then Live(f, d) else 0)
                - (if a == escrow then Live(r, d) + Live(f, d) else 0);
    }
  }

  lemma ForfeitStep(before: Bank.Balances, bank: Bank.Balances, after: Bank.Balances, escrow: bytes, proposer: bytes, r: Deposits, f: Deposits, cur: Deposits, id: int)
    requires SettledUp(before, bank, escrow, proposer, r, f) && PaidOut(bank, after, escrow, cur, id, proposer)
    requires forall k :: k in f ==> k.id != id
    ensures SettledUp(before, after, escrow, proposer, r, f + Only(cur, id))
  {
    hide Live, By, Only, BalanceOf;
    forall a, d
      ensures BalanceOf(after, a, d)
              == BalanceOf(before, a, d) + Live(By(r, a), d) + (if a == proposer then Live(f + Only(cur, id), d) else 0)
                 - (if a == escrow then Live(r, d) + Live(f + Only(cur, id), d) else 0)
    {
      LiveJoin(f, cur, id, d);
      assert BalanceOf(bank, a, d)
             == BalanceOf(before, a, d) + Live(By(r, a), d) + (if a == proposer then Live(f, d) else 0)
                - (if a == escrow then Live(r, d) + Live(f, d) else 0);
    }
  }

  /** Between `first` and `cur`, exactly the records that are gone were paid, to those they should go to. */
  ghost predicate PaidSoFar(first: Chain, cur: Chain, before: Bank.Balances, bank: Bank.Balances, escrow: bytes, proposer: bytes,
                            now: int, maxDeposit: int, tally: int -> Option<Verdict>)
  {
    && Follows(first, cur)
    && SettledUp(before, bank, escrow, proposer,
                 Gone(ReturnedOf(first, now, tally), cur.deposits), Gone(ForfeitedOf(first, now, maxDeposit, tally), cur.deposits))
  }

  lemma PaidNothing(first: Chain, bank: Bank.Balances, escrow: bytes, proposer: bytes, now: int, maxDeposit: int, tally: int -> Option<Verdict>)
    ensures PaidSoFar(first, first, bank, bank, escrow, proposer, now, maxDeposit, tally)
  {
    FollowsRefl(first);
    NothingSettled(bank, escrow, proposer, map[]);
    assert Gone(ReturnedOf(first, now, tally), first.deposits) == map[];
    assert Gone(ForfeitedOf(first, now, maxDeposit, tally), first.deposits) == map[];
  }

  /** What is among the returned and the forfeited records, when a proposal with records `cur` is closed. */
  lemma GoneParts(first: Chain, cur: Chain, id: int, now: int, maxDeposit: int, tally: int -> Option<Verdict>)
    requires Follows(first, cur) && id in first.proposals && Find(cur.proposals, id) == Find(first.proposals, id)
    ensures var r, f, left := ReturnedOf(first, now, tally), ForfeitedOf(first, now, maxDeposit, tally), Without(cur.deposits, id);
            && Gone(r, left) == (if Returns(first, now, tally, id) then Gone(r, cur.deposits) + Only(cur.deposits, id) else Gone(r, cur.deposits))
            && Gone(f, left) == (if Forfeits(first, now, maxDeposit, tally, id) then Gone(f, cur.deposits) + Only(cur.deposits, id) else Gone(f, cur.deposits))
            && (forall k :: k in Gone(r, cur.deposits) || k in Gone(f, cur.deposits) ==> k.id != id)
  {
    GoneMore(first.deposits, cur.deposits, ReturnedOf(first, now, tally), id, Returns(first, now, tally, id));
    GoneMore(first.deposits, cur.deposits, ForfeitedOf(first, now, maxDeposit, tally), id, Forfeits(first, now, maxDeposit, tally, id));
  }

  lemma DropPaid(first: Chain, cur: Chain, before: Bank.Balances, bank: Bank.Balances, after: Bank.Balances, escrow: bytes, proposer: bytes,
                 now: int, maxDeposit: int, tally: int -> Option<Verdict>)
    requires PaidSoFar(first, cur, before, bank, escrow, proposer, now, maxDeposit, tally) && Settling(first, cur, now, maxDeposit, tally)
    requires ShouldPopInactive(cur, now, maxDeposit)
    requires if cur.proposals[cur.inactive[0]].status == DepositPeriod
             then PaidOut(bank, after, escrow, cur.deposits, cur.inactive[0], proposer) else after == bank
    ensures PaidSoFar(first, PopInactive(cur), before, after, escrow, proposer, now, maxDeposit, tally)
  {
    var id := cur.inactive[0];
    PopInactiveFollows(first, cur, now, maxDeposit, tally);
    hide SettledUp, Gone, Follows, PaidOut, Settling, ReturnedOf, ForfeitedOf;
    if cur.proposals[id].status == DepositPeriod {
      GoneParts(first, cur, id, now, maxDeposit, tally);
      ForfeitStep(before, bank, after, escrow, proposer, Gone(ReturnedOf(first, now, tally), cur.deposits),
                  Gone(ForfeitedOf(first, now, maxDeposit, tally), cur.deposits), cur.deposits, id);
    }
  }

  lemma ClosePaid(first: Chain, cur: Chain, before: Bank.Balances, bank: Bank.Balances, after: Bank.Balances, escrow: bytes, proposer: bytes,
                  now: int, maxDeposit: int, tally: int -> Option<Verdict>, verdict: Verdict)
    requires PaidSoFar(first, cur, before, bank, escrow, proposer, now, maxDeposit, tally) && Settling(first, cur, now, maxDeposit, tally)
    requires ShouldPopActive(cur, now) && cur.proposals[cur.active[0]].status == VotingPeriod
    requires tally(cur.active[0]) == Some(verdict) && Slot(cur.active[0], escrow) !in cur.deposits
    requires if verdict.passes || verdict.refund
             then PaidBack(bank, after, escrow, cur.deposits, cur.active[0])
             else PaidOut(bank, after, escrow, cur.deposits, cur.active[0], proposer)
    ensures PaidSoFar(first, PopActive(cur, verdict), before, after, escrow, proposer, now, maxDeposit, tally)
  {
    var id := cur.active[0];
    PopActiveFollows(first, cur, now, maxDeposit, tally, verdict);
    hide SettledUp, Gone, Follows, PaidBack, PaidOut, Settling, ReturnedOf, ForfeitedOf;
    GoneParts(first, cur, id, now, maxDeposit, tally);
    var r, f := Gone(ReturnedOf(first, now, tally), cur.deposits), Gone(ForfeitedOf(first, now, maxDeposit, tally), cur.deposits);
    if verdict.passes || verdict.refund {
      ReturnStep(before, bank, after, escrow, proposer, r, f, cur.deposits, id);
    } else {
      ForfeitStep(before, bank, after, escrow, proposer, r, f, cur.deposits, id);
    }
  }

  /** What one round of the first loop keeps. */
  lemma DropRound(first: Chain, cur: Chain, before: Bank.Balances, bank: Bank.Balances, after: Bank.Balances, escrow: bytes, proposer: bytes,
                  now: int, maxDeposit: int, tally: int -> Option<Verdict>)
    requires Orderly(cur, now) && Progress(first, cur) && Settling(first, cur, now, maxDeposit, tally)
    requires PaidSoFar(first, cur, before, bank, escrow, proposer, now, maxDeposit, tally) && ShouldPopInactive(cur, now, maxDeposit)
    requires if cur.proposals[cur.inactive[0]].status == DepositPeriod
             then PaidOut(bank, after, escrow, cur.deposits, cur.inactive[0], proposer) else after == bank
    ensures var next := PopInactive(cur);
            && Orderly(next, now) && Progress(first, next) && Settling(first, next, now, maxDeposit, tally)
            && PaidSoFar(first, next, before, after, escrow, proposer, now, maxDeposit, tally)
            && |next.inactive| < |cur.inactive|
  {
    PopShrinks(cur);
    hide Orderly, Progress, Settling, PaidSoFar, PaidOut, PopInactive, Moves;
    PopInactiveOrderly(cur, now);
    PopInactiveSettles(first, cur, now, maxDeposit, tally);
    DropPaid(first, cur, before, bank, after, escrow, proposer, now, maxDeposit, tally);
    ProgressStep(first, cur, PopInactive(cur), now);
  }

  /** What one round of the second loop keeps. */
  lemma CloseRound(first: Chain, start: Chain, cur: Chain, before: Bank.Balances, bank: Bank.Balances, after: Bank.Balances, escrow: bytes, proposer: bytes,
                   now: int, maxDeposit: int, tally: int -> Option<Verdict>, verdict: Verdict)
    requires Orderly(cur, now) && Progress(start, cur) && Settling(first, cur, now, maxDeposit, tally) && DepositsInTime(cur, now, maxDeposit)
    requires PaidSoFar(first, cur, before, bank, escrow, proposer, now, maxDeposit, tally) && ShouldPopActive(cur, now)
    requires tally(cur.active[0]) == Some(verdict) && Slot(cur.active[0], escrow) !in cur.deposits
    requires if verdict.passes || verdict.refund
             then PaidBack(bank, after, escrow, cur.deposits, cur.active[0])
             else PaidOut(bank, after, escrow, cur.deposits, cur.active[0], proposer)
    ensures var next := PopActive(cur, verdict);
            && Orderly(next, now) && Progress(start, next) && Settling(first, next, now, maxDeposit, tally) && DepositsInTime(next, now, maxDeposit)
            && PaidSoFar(first, next, before, after, escrow, proposer, now, maxDeposit, tally)
            && |next.active| < |cur.active|
  {
    PopShrinks(cur);
    hide Orderly, Progress, Settling, DepositsInTime, PaidSoFar, PaidBack, PaidOut, PopActive, Moves;
    OrderlyNumbers(cur, now);
    PopActiveOrderly(cur, now, verdict);
    PopActiveSettles(first, cur, now, maxDeposit, tally);
    PopActiveInTime(cur, now, maxDeposit, verdict);
    ClosePaid(first, cur, before, bank, after, escrow, proposer, now, maxDeposit, tally, verdict);
    ProgressStep(start, cur, PopActive(cur, verdict), now);
  }

  lemma NoneOfEscrow(bank: Bank.Balances, chains: map<bytes, Chain>, escrow: bytes, c: bytes)
    requires Solvent(bank, chains, escrow) && c in chains
    ensures forall id :: Slot(id, escrow) !in chains[c].deposits
    ensures forall k :: k in chains[c].deposits ==> k.id in chains[c].proposals
  {
    assert Booked(chains[c], escrow);
  }

  /** Settling as a whole: every proposal is dropped, decided or kept as its own times and tally say, its records
      go where they should and the others stay, and nobody else is paid. */
  ghost predicate SettledChain(first: Chain, last: Chain, before: Bank.Balances, after: Bank.Balances, escrow: bytes, proposer: bytes,
                               now: int, maxDeposit: int, tally: int -> Option<Verdict>)
  {
    && Decided(first, last, now, maxDeposit, tally)
    && last.deposits == KeptOf(first, now, maxDeposit, tally)
    && SettledUp(before, after, escrow, proposer, ReturnedOf(first, now, tally), ForfeitedOf(first, now, maxDeposit, tally))
  }

  lemma SettlingPaid(first: Chain, last: Chain, before: Bank.Balances, after: Bank.Balances, escrow: bytes, proposer: bytes,
                     now: int, maxDeposit: int, tally: int -> Option<Verdict>)
    requires PaidSoFar(first, last, before, after, escrow, proposer, now, maxDeposit, tally)
    requires Settled(first, last, now, maxDeposit, tally) && Decidable(first, now, tally)
    requires forall k :: k in first.deposits ==> k.id in first.proposals
    ensures SettledChain(first, last, before, after, escrow, proposer, now, maxDeposit, tally)
  {
    hide SettledUp, Settled, Decidable, Decided, Follows;
    SettledDecides(first, last, now, maxDeposit, tally);
    AllGone(first, last, now, maxDeposit, tally);
  }

  /** Only one chain has changed. */
  predicate OneChange(a: map<bytes, Chain>, b: map<bytes, Chain>, c: bytes)
  {
    c in b && b == a[c := b[c]]
  }

  lemma ChangedAgain(a: map<bytes, Chain>, b: map<bytes, Chain>, c: bytes, r: Chain)
    requires OneChange(a, b, c)
    ensures OneChange(a, b[c := r], c)
  {
  }

  lemma ChangedOnce(a: map<bytes, Chain>, b: map<bytes, Chain>, c: bytes)
    ensures c in a && b == a ==> OneChange(a, b, c)
    ensures OneChange(a, b, c) ==> c in b && b == a[c := b[c]]
  {
  }

  lemma ChangedTwice(a: map<bytes, Chain>, b: map<bytes, Chain>, d: map<bytes, Chain>, c: bytes)
    requires OneChange(a, b, c) && OneChange(b, d, c)
    ensures OneChange(a, d, c)
  {
  }

  /** A chain with one more proposal, under the next number and last in the inactive queue. */
  function WithProposal(c: Chain, p: Proposal): Chain
  {
    c.(proposals := c.proposals[c.nextId := p], inactive := c.inactive + [c.nextId], nextId := c.nextId + 1)
  }

  lemma FirstDeposit(c: Chain, now: int, votingPeriod: int)
    ensures var r := Submitted(c, now, votingPeriod);
            && r == WithProposal(c, Proposal(DepositPeriod, [], now, 0, votingPeriod)) && r.deposits == c.deposits
            && c.nextId in r.proposals && r.proposals[c.nextId].total == [] && r.proposals[c.nextId].status == DepositPeriod
    ensures forall d :: Amount([], d) == 0
  {
  }

  datatype DepositResult =
    | Added(total: seq<Coin>, record: seq<Coin>, activated: bool)
    | Unknown
    | Finished
    | Refused

  /** The same amount goes from the depositor into escrow, onto the total and onto the record, and the vote opens
      exactly if the proposal was waiting for deposits and the new total covers the minimum. */
  ghost predicate Booking(c: Chain, before: Bank.Balances, after: Bank.Balances, escrow: bytes, slot: Slot, amt: seq<Coin>, minDeposit: seq<Coin>, r: DepositResult)
  {
    && slot.id in c.proposals && r.Added?
    && Paid(before, after, slot.depositer, escrow, amt)
    && (forall d :: Amount(r.total, d) == Amount(c.proposals[slot.id].total, d) + Amount(amt, d))
    && (forall d :: Amount(r.record, d) == Amount(RecordOf(c.deposits, slot), d) + Amount(amt, d))
    && (r.activated <==> c.proposals[slot.id].status == DepositPeriod && Covers(r.total, minDeposit))
  }

  /** A deposit that is made: the booking, and what it makes of the chain. */
  ghost predicate DepositMade(a: Chain, b: Chain, before: Bank.Balances, after: Bank.Balances, escrow: bytes, now: int, slot: Slot,
                              amt: seq<Coin>, minDeposit: seq<Coin>, r: DepositResult)
  {
    && Booking(a, before, after, escrow, slot, amt, minDeposit, r)
    && OneDeposit(a, b, now, slot, r.total, r.record, r.activated)
    && b == Deposited(a, now, slot, r.total, r.record, r.activated)
  }

  /** A submission: one more proposal, submitted now and waiting for deposits, and a deposit on it that makes up its total
      and its only record. */
  ghost predicate Submission(a: Chain, b: Chain, before: Bank.Balances, after: Bank.Balances, escrow: bytes, now: int, votingPeriod: int,
                             proposer: bytes, amt: seq<Coin>, minDeposit: seq<Coin>, r: DepositResult)
  {
    && DepositMade(WithProposal(a, Proposal(DepositPeriod, [], now, 0, votingPeriod)), b, before, after, escrow, now, Slot(a.nextId, proposer), amt, minDeposit, r)
    && b == Deposited(Submitted(a, now, votingPeriod), now, Slot(a.nextId, proposer), r.total, r.record, r.activated)
    && (forall d :: Amount(r.total, d) == Amount(amt, d)) && (forall d :: Amount(r.record, d) == Amount(amt, d))
    && (r.activated <==> Covers(r.total, minDeposit))
  }

  lemma FirstDepositMade(a: Chain, b: Chain, before: Bank.Balances, after: Bank.Balances, escrow: bytes, now: int, votingPeriod: int,
                         proposer: bytes, amt: seq<Coin>, minDeposit: seq<Coin>, r: DepositResult)
    requires DepositMade(Submitted(a, now, votingPeriod), b, before, after, escrow, now, Slot(a.nextId, proposer), amt, minDeposit, r)
    requires RecordOf(a.deposits, Slot(a.nextId, proposer)) == []
    ensures Submission(a, b, before, after, escrow, now, votingPeriod, proposer, amt, minDeposit, r)
  {
    hide Paid, Covers, OneDeposit, Deposited;
    FirstDeposit(a, now, votingPeriod);
  }

  lemma DepositIsMade(chains: map<bytes, Chain>, c: bytes, before: Bank.Balances, after: Bank.Balances, escrow: bytes, now: int, slot: Slot,
                      amt: seq<Coin>, minDeposit: seq<Coin>, r: DepositResult)
    requires Solvent(before, chains, escrow) && c in chains && slot.depositer != escrow && Backed(after)
    requires slot.id in chains[c].proposals && IsOpen(chains[c].proposals[slot.id])
    requires Booking(chains[c], before, after, escrow, slot, amt, minDeposit, r) && Bank.Proper(r.total) && Bank.Proper(r.record)
    ensures var b := Deposited(chains[c], now, slot, r.total, r.record, r.activated);
            Solvent(after, chains[c := b], escrow) && DepositMade(chains[c], b, before, after, escrow, now, slot, amt, minDeposit, r)
  {
    var b := Deposited(chains[c], now, slot, r.total, r.record, r.activated);
    assert Booked(chains[c], escrow);
    DepositedMeans(chains[c], now, slot, r.total, r.record, r.activated);
    hide Covers, Paid, Backed, RecordOf, Inserted, Solvent, Booked, Bank.Proper;
    DepositedBooked(chains[c], b, escrow, slot, amt, r.total, r.record);
    DepositedSolvent(before, after, chains, escrow, c, b, slot, amt, r.record);
  }

  class Keeper {
    const escrow: bytes
    const bank: Bank.Keeper
    var chains: map<bytes, Chain>

    constructor (escrow: bytes, bank: Bank.Keeper, chains: map<bytes, Chain>)
      ensures this.escrow == escrow && this.bank == bank && this.chains == chains
    {
      this.escrow, this.bank, this.chains := escrow, bank, chains;
    }

    ghost predicate Holds()
      reads this, bank
    {
      Solvent(bank.accounts, chains, escrow)
    }

    /** A payment that the payer can afford: never refused, never out of range. */
    method Pay(from: bytes, to: bytes, amt: seq<Coin>) returns (r: Bank.Outcome)
      requires Backed(bank.accounts) && Bank.Proper(amt) && Covers(Bank.Balance(bank.accounts, from), amt)
      modifies bank
      ensures r == Bank.Done && Backed(bank.accounts) && Paid(old(bank.accounts), bank.accounts, from, to, amt)
    {
      hide *;
      Affordable(bank.accounts, from, to, amt);
      BackedSound(bank.accounts);
      ghost var before := bank.accounts;
      r := bank.SendCoins(from, to, amt);
      MovedIsPaid(before, bank.accounts, from, to, amt);
    }

    /** AddDeposit. A failed message is reverted, so only success changes anything; the
        sums never overflow and the payment into escrow is refused only for lack of funds. */
    method AddDeposit(c: bytes, now: int, slot: Slot, amt: seq<Coin>, minDeposit: seq<Coin>) returns (r: DepositResult)
      requires Holds() && c in chains && slot.depositer != escrow && Bank.Proper(amt) && Bank.Proper(minDeposit)
      modifies this, bank
      ensures Holds()
      ensures r.Unknown? <==> slot.id !in old(chains)[c].proposals
      ensures r.Finished? <==> slot.id in old(chains)[c].proposals && !IsOpen(old(chains)[c].proposals[slot.id])
      ensures r.Refused? || r.Added? ==> (r.Refused? <==> !Covers(Bank.Balance(old(bank.accounts), slot.depositer), amt))
      ensures !r.Added? ==> chains == old(chains) && bank.accounts == old(bank.accounts)
      ensures r.Added? ==> OneChange(old(chains), chains, c)
      ensures r.Added? ==> DepositMade(old(chains)[c], chains[c], old(bank.accounts), bank.accounts, escrow, now, slot, amt, minDeposit, r)
    {
      var ch := chains[c];
      if slot.id !in ch.proposals {
        return Unknown;
      }
      var p := ch.proposals[slot.id];
      if p.status != DepositPeriod && p.status != VotingPeriod {
        return Finished;
      }
      hide Solvent, Covers, DepositMade, Booking, Bank.Proper, Deposited, Bank.Balance;
      ghost var before, all := bank.accounts, chains;
      var paid := TakeDeposit(slot.depositer, amt);
      if !paid {
        return Refused;
      }
      r := NewAmounts(before, bank.accounts, chains, c, slot, amt, minDeposit);
      DepositIsMade(all, c, before, bank.accounts, escrow, now, slot, amt, minDeposit, r);
      var next := Book(ch, now, slot, r.total, r.record, r.activated);
      chains := chains[c := next];
    }

    /** The new total and record, and whether the vote opens. */
    method NewAmounts(ghost before: Bank.Balances, ghost after: Bank.Balances, chains: map<bytes, Chain>, c: bytes, slot: Slot, amt: seq<Coin>, minDeposit: seq<Coin>)
      returns (r: DepositResult)
      requires Solvent(before, chains, escrow) && c in chains && slot.id in chains[c].proposals && IsOpen(chains[c].proposals[slot.id])
      requires slot.depositer != escrow && Bank.Proper(amt) && Bank.Proper(minDeposit) && Covers(Bank.Balance(before, slot.depositer), amt)
      requires Paid(before, after, slot.depositer, escrow, amt)
      ensures Booking(chains[c], before, after, escrow, slot, amt, minDeposit, r) && Bank.Proper(r.total) && Bank.Proper(r.record)
    {
      hide Solvent, Paid, Covers, Sum, Bank.Proper;
      var p := chains[c].proposals[slot.id];
      DepositAdds(before, chains, escrow, c, slot, amt);
      var total := Plus(p.total, amt);
      var activated := false;
      if p.status == DepositPeriod {
        activated := Suffices(total.value, minDeposit);
      }
      var record := Plus(RecordOf(chains[c].deposits, slot), amt);
      r := Added(total.value, record.value, activated);
    }

    /** Stores the new total and record, and opens the vote if it is time. */
    method Book(ch: Chain, now: int, slot: Slot, total: seq<Coin>, record: seq<Coin>, activate: bool) returns (r: Chain)
      requires slot.id in ch.proposals
      ensures r == Deposited(ch, now, slot, total, record, activate)
    {
      r := ch.(proposals := ch.proposals[slot.id := ch.proposals[slot.id].(total := total)]);
      if activate {
        r := Activate(r, slot.id, now);
        assert r.proposals == ch.proposals[slot.id := r.proposals[slot.id]];
      }
      r := r.(deposits := r.deposits[slot := record]);
    }

    /** handleMsgSubmitProposal: a new proposal with a first deposit. A message that fails is
        reverted as a whole. */
    method Submit(c: bytes, now: int, votingPeriod: int, proposer: bytes, amt: seq<Coin>, minDeposit: seq<Coin>)
      returns (r: DepositResult)
      requires Holds() && c in chains && Orderly(chains[c], now)
      requires proposer != escrow && Bank.Proper(amt) && Bank.Proper(minDeposit)
      modifies this, bank
      ensures Holds() && !r.Unknown? && !r.Finished?
      ensures r.Refused? <==> !Covers(Bank.Balance(old(bank.accounts), proposer), amt)
      ensures !r.Added? ==> chains == old(chains) && bank.accounts == old(bank.accounts)
      ensures r.Added? ==> OneChange(old(chains), chains, c)
      ensures r.Added? ==>
                Submission(old(chains)[c], chains[c], old(bank.accounts), bank.accounts, escrow, now, votingPeriod, proposer, amt, minDeposit, r)
    {
      hide *;
      HoldsNow();
      var saved := chains;
      var id := chains[c].nextId;
      ghost var before, ch := bank.accounts, chains[c];
      Propose(c, now, votingPeriod);
      ghost var all := chains;
      r := AddDeposit(c, now, Slot(id, proposer), amt, minDeposit);
      if r.Added? {
        ChangedTwice(saved, all, chains, c);
        FirstDepositMade(ch, chains[c], before, bank.accounts, escrow, now, votingPeriod, proposer, amt, minDeposit, r);
      } else {
        Restore(saved);
      }
    }

    /** NewTextProposal: the proposal, still without a deposit. */
    method Propose(c: bytes, now: int, votingPeriod: int)
      requires Holds() && c in chains && Orderly(chains[c], now)
      modifies this
      ensures Holds() && OneChange(old(chains), chains, c) && c in chains && chains[c] == Submitted(old(chains)[c], now, votingPeriod)
      ensures var id := old(chains)[c].nextId;
              && id in chains[c].proposals && IsOpen(chains[c].proposals[id])
              && forall a :: RecordOf(old(chains)[c].deposits, Slot(id, a)) == []
    {
      SubmittedSolvent(bank.accounts, chains, escrow, c, now, votingPeriod);
      hide Solvent, Orderly, RecordOf;
      chains := chains[c := Submitted(chains[c], now, votingPeriod)];
    }

    lemma HoldsNow()
      requires Holds()
      ensures Solvent(bank.accounts, chains, escrow)
    {
    }

    /** A message that fails is reverted. */
    method Restore(saved: map<bytes, Chain>)
      requires Solvent(bank.accounts, saved, escrow)
      modifies this
      ensures Holds() && chains == saved
    {
      chains := saved;
    }

    lemma RecordsKnown(c: bytes)
      requires Holds() && c in chains
      ensures forall id :: Slot(id, escrow) !in chains[c].deposits
      ensures forall k :: k in chains[c].deposits ==> k.id in chains[c].proposals
    {
      NoneOfEscrow(bank.accounts, chains, escrow, c);
    }

    /** settleProposals: exactly the overdue proposals are dropped or decided, and afterwards
        nothing on the chain is overdue. Every payment it makes out of escrow succeeds. */
    method Settle(c: bytes, now: int, maxDeposit: int, tally: int -> Option<Verdict>, proposer: bytes) returns (ok: bool, panics: bool)
      requires Holds() && c in chains && Orderly(chains[c], now)
      modifies this, bank
      ensures ok && Holds() && c in chains
      ensures OneChange(old(chains), chains, c)
      ensures Orderly(chains[c], now) && Progress(old(chains)[c], chains[c])
      ensures panics <==> !Decidable(old(chains)[c], now, tally)
      ensures !panics ==> DepositsInTime(chains[c], now, maxDeposit) && VotesInTime(chains[c], now)
      ensures !panics ==> Settled(old(chains)[c], chains[c], now, maxDeposit, tally)
      ensures PaidSoFar(old(chains)[c], chains[c], old(bank.accounts), bank.accounts, escrow, proposer, now, maxDeposit, tally)
      ensures !panics ==> SettledChain(old(chains)[c], chains[c], old(bank.accounts), bank.accounts, escrow, proposer, now, maxDeposit, tally)
    {
      hide *;
      RecordsKnown(c);
      ghost var start, before := chains[c], bank.accounts;
      panics := false;
      ok := SettleInactive(c, now, maxDeposit, tally, proposer);
      if ok {
        ghost var middle, all := chains[c], chains;
        ok, panics := SettleActive(c, now, maxDeposit, tally, proposer, start, before);
        ChangedTwice(old(chains), all, chains, c);
        OrderlyNumbers(middle, now);
        ProgressTransitive(start, middle, chains[c]);
        if !panics {
          SettlingEnds(start, chains[c], now, maxDeposit, tally);
          SettlingPaid(start, chains[c], before, bank.accounts, escrow, proposer, now, maxDeposit, tally);
        }
      }
    }

    /** The loop that drops proposals which did not get their deposit in time. */
    method SettleInactive(c: bytes, now: int, maxDeposit: int, ghost tally: int -> Option<Verdict>, proposer: bytes) returns (ok: bool)
      requires Holds() && c in chains && Orderly(chains[c], now)
      modifies this, bank
      ensures ok && Holds() && c in chains && OneChange(old(chains), chains, c)
      ensures Orderly(chains[c], now) && Progress(old(chains)[c], chains[c]) && DepositsInTime(chains[c], now, maxDeposit)
      ensures Settling(old(chains)[c], chains[c], now, maxDeposit, tally)
      ensures PaidSoFar(old(chains)[c], chains[c], old(bank.accounts), bank.accounts, escrow, proposer, now, maxDeposit, tally)
    {
      ghost var start, before := chains[c], bank.accounts;
      ProgressRefl(start);
      SettlingRefl(start, now, maxDeposit, tally);
      PaidNothing(start, before, escrow, proposer, now, maxDeposit, tally);
      ChangedOnce(old(chains), chains, c);
      hide Solvent, Orderly, Progress, PopInactive, Moves, Settling, PaidOut, PaidSoFar, OneChange;
      while ShouldPopInactive(chains[c], now, maxDeposit)
        invariant Holds() && c in chains && OneChange(old(chains), chains, c)
        invariant Orderly(chains[c], now) && Progress(start, chains[c]) && Settling(start, chains[c], now, maxDeposit, tally)
        invariant PaidSoFar(start, chains[c], before, bank.accounts, escrow, proposer, now, maxDeposit, tally)
        decreases |chains[c].inactive|
      {
        ghost var ch, had := chains[c], bank.accounts;
        ChangedAgain(old(chains), chains, c, PopInactive(ch));
        ok := DropFirst(c, now, proposer);
        if !ok {
          return;
        }
        DropRound(start, ch, before, had, bank.accounts, escrow, proposer, now, maxDeposit, tally);
      }
      InactiveAllInTime(chains[c], now, maxDeposit);
      ok := true;
    }

    /** The loop that closes proposals whose voting period is over. */
    method SettleActive(c: bytes, now: int, ghost maxDeposit: int, tally: int -> Option<Verdict>, proposer: bytes, ghost first: Chain, ghost before: Bank.Balances) returns (ok: bool, panics: bool)
      requires Holds() && c in chains && Orderly(chains[c], now) && DepositsInTime(chains[c], now, maxDeposit)
      requires Settling(first, chains[c], now, maxDeposit, tally)
      requires PaidSoFar(first, chains[c], before, bank.accounts, escrow, proposer, now, maxDeposit, tally)
      modifies this, bank
      ensures ok && Holds() && c in chains && OneChange(old(chains), chains, c)
      ensures Orderly(chains[c], now) && Progress(old(chains)[c], chains[c])
      ensures panics ==> !Decidable(first, now, tally)
      ensures !panics ==> DepositsInTime(chains[c], now, maxDeposit) && VotesInTime(chains[c], now)
      ensures !panics ==> Settling(first, chains[c], now, maxDeposit, tally)
      ensures PaidSoFar(first, chains[c], before, bank.accounts, escrow, proposer, now, maxDeposit, tally)
    {
      ghost var start := chains[c];
      ProgressRefl(start);
      ChangedOnce(old(chains), chains, c);
      hide *;
      ok, panics := true, false;
      while ShouldPopActive(chains[c], now)
        invariant ok && !panics && Holds() && c in chains && OneChange(old(chains), chains, c)
        invariant Orderly(chains[c], now) && Progress(start, chains[c])
        invariant DepositsInTime(chains[c], now, maxDeposit) && Settling(first, chains[c], now, maxDeposit, tally)
        invariant PaidSoFar(first, chains[c], before, bank.accounts, escrow, proposer, now, maxDeposit, tally)
        decreases |chains[c].active|
      {
        ghost var all := chains;
        ok, panics := CloseNext(c, now, maxDeposit, tally, proposer, first, start, before);
        ChangedTwice(old(chains), all, chains, c);
        if !ok || panics {
          return;
        }
      }
      ActiveAllInTime(chains[c], now);
    }

    /** One round of the loop. */
    method CloseNext(c: bytes, now: int, ghost maxDeposit: int, tally: int -> Option<Verdict>, proposer: bytes,
                     ghost first: Chain, ghost start: Chain, ghost before: Bank.Balances) returns (ok: bool, panics: bool)
      requires Holds() && c in chains && Orderly(chains[c], now) && DepositsInTime(chains[c], now, maxDeposit) && Progress(start, chains[c])
      requires Settling(first, chains[c], now, maxDeposit, tally) && ShouldPopActive(chains[c], now)
      requires PaidSoFar(first, chains[c], before, bank.accounts, escrow, proposer, now, maxDeposit, tally)
      modifies this, bank
      ensures ok && Holds() && c in chains && OneChange(old(chains), chains, c)
      ensures Orderly(chains[c], now) && Progress(start, chains[c]) && DepositsInTime(chains[c], now, maxDeposit)
      ensures Settling(first, chains[c], now, maxDeposit, tally)
      ensures PaidSoFar(first, chains[c], before, bank.accounts, escrow, proposer, now, maxDeposit, tally)
      ensures panics ==> !Decidable(first, now, tally)
      ensures !panics ==> |chains[c].active| < |old(chains)[c].active|
    {
      hide Solvent, Orderly, Progress, PopActive, Decidable, Moves, DepositsInTime, Settling, PaidBack, PaidOut, PaidSoFar;
      ghost var ch, had := chains[c], bank.accounts;
      RecordsKnown(c);
      OrderlyNumbers(ch, now);
      var verdict := tally(chains[c].active[0]);
      if verdict == None {
        Undecidable(first, ch, now, maxDeposit, tally);
        return true, true;
      }
      panics := false;
      ok := CloseFirst(c, now, verdict.value, proposer);
      if ok {
        CloseRound(first, start, ch, before, had, bank.accounts, escrow, proposer, now, maxDeposit, tally, verdict.value);
      }
    }

    /** The payment into escrow. */
    method TakeDeposit(who: bytes, amt: seq<Coin>) returns (ok: bool)
      requires Backed(bank.accounts) && Bank.Proper(amt)
      modifies bank
      ensures ok <==> Covers(Bank.Balance(old(bank.accounts), who), amt)
      ensures ok ==> Backed(bank.accounts) && Paid(old(bank.accounts), bank.accounts, who, escrow, amt)
      ensures !ok ==> bank.accounts == old(bank.accounts)
    {
      hide *;
      ghost var before := bank.accounts;
      BackedSound(before);
      PayOutcome(before, who, escrow, amt);
      var r := bank.SendCoins(who, escrow, amt);
      ok := r == Bank.Done;
      if ok {
        MovedIsPaid(before, bank.accounts, who, escrow, amt);
      }
    }

    method Suffices(total: seq<Coin>, minDeposit: seq<Coin>) returns (ok: bool)
      requires Bank.Proper(total) && Bank.Proper(minDeposit)
      ensures ok <==> Covers(total, minDeposit)
    {
      Bank.DifferenceProper(total, minDeposit);
      var r := IsGTE(total, minDeposit);
      ok := r.value;
    }

    /** ActivateVotingPeriod. */
    method Activate(ch: Chain, id: int, now: int) returns (r: Chain)
      requires id in ch.proposals
      ensures var p := ch.proposals[id].(votingStart := now, status := VotingPeriod);
              var proposals := ch.proposals[id := p];
              r == ch.(proposals := proposals, active := Inserted(proposals, ch.active, id, Expiry(p)))
    {
      var p := ch.proposals[id].(votingStart := now, status := VotingPeriod);
      var proposals := ch.proposals[id := p];
      var queue := Push(proposals, ch.active, id, Expiry(p));
      r := ch.(proposals := proposals, active := queue);
    }

    /** RefundDeposits: every depositor of the proposal gets exactly the record back. The
        payments never fail, so the panic after them is never reached. */
    method RefundDeposits(c: bytes, id: int) returns (ok: bool)
      requires Holds() && c in chains
      modifies this, bank
      ensures ok && Backed(bank.accounts)
      ensures chains == old(chains)[c := old(chains)[c].(deposits := Without(old(chains)[c].deposits, id))]
      ensures PaidBack(old(bank.accounts), bank.accounts, escrow, old(chains)[c].deposits, id)
    {
      RefundReady(bank.accounts, chains, escrow, c, id);
      hide *;
      ghost var before, all := bank.accounts, chains[c].deposits;
      var records := Only(chains[c].deposits, id);
      var pending := records.Keys;
      RefundStarts(before, escrow, all, id);
      assert chains[c].(deposits := all) == chains[c];
      assert chains == chains[c := chains[c]];
      while pending != {}
        invariant pending <= records.Keys
        invariant Backed(bank.accounts) && Refunded(before, bank.accounts, escrow, all, id, pending)
        invariant chains == old(chains)[c := old(chains)[c].(deposits := Left(all, id, pending))]
        decreases pending
      {
        var k :| k in pending;
        ok := RefundOne(before, all, records, c, id, pending, k);
        if !ok {
          return;
        }
        pending := pending - {k};
      }
      RefundEnds(before, bank.accounts, escrow, all, id);
      ok := true;
    }

    /** DistributeDeposits: the records of the proposal go to the block proposer's account. */
    method DistributeDeposits(c: bytes, id: int, proposer: bytes) returns (ok: bool)
      requires Holds() && c in chains
      modifies this, bank
      ensures ok && Backed(bank.accounts)
      ensures chains == old(chains)[c := old(chains)[c].(deposits := Without(old(chains)[c].deposits, id))]
      ensures PaidOut(old(bank.accounts), bank.accounts, escrow, old(chains)[c].deposits, id, proposer)
    {
      RefundReady(bank.accounts, chains, escrow, c, id);
      hide *;
      ghost var all := chains[c].deposits;
      var records := Only(chains[c].deposits, id);
      var sum := AddUp(all, bank.accounts, id, records);
      if sum == None {
        return false;
      }
      chains := chains[c := chains[c].(deposits := Without(chains[c].deposits, id))];
      SumCovered(bank.accounts, escrow, sum.value, Only(all, id));
      ghost var before := bank.accounts;
      var r := Pay(escrow, proposer, sum.value);
      PaidSum(before, bank.accounts, escrow, proposer, sum.value, all, id);
      ok := r == Bank.Done;
    }

    /** The loop that adds the records up. */
    method AddUp(ghost all: Deposits, ghost accounts: Bank.Balances, ghost id: int, records: Deposits) returns (sum: Option<seq<Coin>>)
      requires AllProper(all) && records == Only(all, id)
      requires forall d :: Live(records, d) <= BalanceOf(accounts, escrow, d)
      ensures sum.Some? && Bank.Proper(sum.value) && forall d :: Amount(sum.value, d) == Live(records, d)
    {
      var pending := records.Keys;
      sum := Some([]);
      AddUpStarts(records);
      hide Live;
      while pending != {}
        invariant pending <= records.Keys && sum.Some? && Bank.Proper(sum.value)
        invariant forall d :: Amount(sum.value, d) == Live(records, d) - Live(Pending(records, pending), d)
        decreases pending
      {
        var k :| k in pending;
        AddUpStep(records, pending, k, sum.value, accounts, escrow);
        sum := Plus(sum.value, records[k]);
        if sum == None {
          return;
        }
        pending := pending - {k};
      }
      AddUpEnds(records);
    }

    /** The first proposal of the inactive queue is taken off, and dropped with its deposits
        going to the block proposer if it is still in its deposit period. */
    method DropFirst(c: bytes, now: int, proposer: bytes) returns (ok: bool)
      requires Holds() && c in chains && Orderly(chains[c], now) && chains[c].inactive != [] && chains[c].inactive[0] in chains[c].proposals
      modifies this, bank
      ensures ok && Holds()
      ensures chains == old(chains)[c := PopInactive(old(chains)[c])]
      ensures var ch := old(chains)[c];
              if ch.proposals[ch.inactive[0]].status == DepositPeriod
              then PaidOut(old(bank.accounts), bank.accounts, escrow, ch.deposits, ch.inactive[0], proposer)
              else bank.accounts == old(bank.accounts)
    {
      ghost var before, all := bank.accounts, chains;
      var id := chains[c].inactive[0];
      var p := chains[c].proposals[id];
      if p.status != DepositPeriod {
        PoppedBooked(before, chains, escrow, c);
        chains := chains[c := chains[c].(inactive := chains[c].inactive[1..])];
        return true;
      }
      PopCloses(chains[c], now);
      hide Backed, Orderly, Closes, Solvent, PaidBack, PaidOut;
      ok := DistributeDeposits(c, id, proposer);
      if ok {
        ghost var r := PopInactive(all[c]);
        ClosedSolvent(before, bank.accounts, all, escrow, c, r, id, proposer);
        chains := chains[c := chains[c].(inactive := chains[c].inactive[1..], proposals := chains[c].proposals - {id})];
        assert chains == all[c := r];
      }
    }

    /** The first proposal of the active queue is closed with the verdict of the tally, its
        deposits going back to the depositors or to the block proposer. */
    method CloseFirst(c: bytes, now: int, verdict: Verdict, proposer: bytes) returns (ok: bool)
      requires Holds() && c in chains && Orderly(chains[c], now) && chains[c].active != [] && chains[c].active[0] in chains[c].proposals
      modifies this, bank
      ensures ok && Holds()
      ensures chains == old(chains)[c := PopActive(old(chains)[c], verdict)]
      ensures var ch := old(chains)[c];
              if verdict.passes || verdict.refund
              then PaidBack(old(bank.accounts), bank.accounts, escrow, ch.deposits, ch.active[0])
              else PaidOut(old(bank.accounts), bank.accounts, escrow, ch.deposits, ch.active[0], proposer)
    {
      ghost var before, all := bank.accounts, chains;
      var id := chains[c].active[0];
      var p := chains[c].proposals[id];
      PopCloses(chains[c], now);
      hide Backed, Orderly, Closes, Solvent, PaidBack, PaidOut;
      if verdict.passes || verdict.refund {
        ok := RefundDeposits(c, id);
      } else {
        ok := DistributeDeposits(c, id, proposer);
      }
      if ok {
        ghost var r := PopActive(all[c], verdict);
        ClosedSolvent(before, bank.accounts, all, escrow, c, r, id, proposer);
        var q := p.(status := if verdict.passes then Passed else Rejected);
        chains := chains[c := chains[c].(active := chains[c].active[1..], proposals := chains[c].proposals[id := q])];
        assert chains == all[c := r];
      }
    }

    /** One round of the loop. */
    method RefundOne(ghost before: Bank.Balances, ghost all: Deposits, records: Deposits, c: bytes, ghost id: int, ghost pending: set<Slot>, k: Slot)
      returns (ok: bool)
      requires c in chains && k in pending && k in records && Owing(all, id, records, escrow) && AllProper(all)
      requires Backed(bank.accounts) && Refunded(before, bank.accounts, escrow, all, id, pending)
      requires chains[c].deposits == Left(all, id, pending)
      requires forall d :: Live(Only(all, id), d) <= BalanceOf(before, escrow, d)
      modifies this, bank
      ensures ok && Backed(bank.accounts) && Refunded(before, bank.accounts, escrow, all, id, pending - {k})
      ensures chains == old(chains)[c := old(chains)[c].(deposits := Left(all, id, pending - {k}))]
    {
      hide Only, Live, Refunded, Paid, Backed, AllProper, BalanceOf;
      RefundCovers(before, bank.accounts, escrow, all, id, pending, k);
      ProperRecord(all, k);
      ghost var bank0 := bank.accounts;
      var r := Pay(escrow, k.depositer, records[k]);
      if r != Bank.Done {
        return false;
      }
      RefundStep(before, bank0, bank.accounts, escrow, all, id, pending, k);
      assert Left(all, id, pending) - {k} == Left(all, id, pending - {k});
      chains := chains[c := chains[c].(deposits := chains[c].deposits - {k})];
      return true;
    }
  }

  lemma AddUpStarts(records: Deposits)
    ensures forall d :: Amount([], d) == Live(records, d) - Live(Pending(records, records.Keys), d)
  {
    assert Pending(records, records.Keys) == records;
  }

  lemma AddUpStep(records: Deposits, pending: set<Slot>, k: Slot, sum: seq<Coin>, accounts: Bank.Balances, escrow: bytes)
    requires AllProper(records) && k in pending && k in records && Bank.Proper(sum)
    requires forall d :: Amount(sum, d) == Live(records, d) - Live(Pending(records, pending), d)
    requires forall d :: Live(records, d) <= BalanceOf(accounts, escrow, d)
    ensures Sum(sum, records[k]).Some? && Bank.Proper(Sum(sum, records[k]).value)
    ensures forall d :: Amount(Sum(sum, records[k]).value, d) == Live(records, d) - Live(Pending(records, pending - {k}), d)
  {
    hide Live, Sum, Bank.Proper, AllProper, Pending, BalanceOf;
    ProperRecord(records, k);
    Bank.SumProper(sum, records[k]);
    forall d
      ensures Int64(Amount(sum, d) + Amount(records[k], d))
      ensures Amount(sum, d) + Amount(records[k], d) == Live(records, d) - Live(Pending(records, pending - {k}), d)
    {
      assert Live(records, d) <= BalanceOf(accounts, escrow, d);
      assert Amount(sum, d) == Live(records, d) - Live(Pending(records, pending), d);
      AddUpAt(records, pending, k, sum, d);
    }
  }

  lemma AddUpAt(records: Deposits, pending: set<Slot>, k: Slot, sum: seq<Coin>, d: bytes)
    requires AllProper(records) && k in pending && k in records && Bank.Proper(sum)
    ensures Live(Pending(records, pending - {k}), d) == Live(Pending(records, pending), d) - Amount(records[k], d)
    ensures Live(Pending(records, pending - {k}), d) >= 0 && Amount(sum, d) >= 0 && Amount(records[k], d) >= 0
  {
    assert Pending(records, pending - {k}) == Pending(records, pending) - {k};
    LiveRemove(Pending(records, pending), k, d);
    LiveNonNegative(Pending(records, pending - {k}), d);
    Bank.ProperAmount(sum, d);
    Bank.ProperAmount(records[k], d);
  }

  lemma AddUpEnds(records: Deposits)
    ensures forall d :: Live(Pending(records, {}), d) == 0
  {
    assert Pending(records, {}) == map[];
    forall d
      ensures Live(map[], d) == 0
    {
      assert Amounts(map[], d) == map[];
    }
  }

  lemma SumCovered(bank: Bank.Balances, escrow: bytes, sum: seq<Coin>, records: Deposits)
    requires forall d :: Amount(sum, d) == Live(records, d) && Live(records, d) <= BalanceOf(bank, escrow, d)
    ensures Covers(Bank.Balance(bank, escrow), sum)
  {
    forall d
      ensures Amount(Bank.Balance(bank, escrow), d) >= Amount(sum, d)
    {
      assert Amount(sum, d) == Live(records, d) && Live(records, d) <= BalanceOf(bank, escrow, d);
    }
  }

  lemma PaidSum(before: Bank.Balances, after: Bank.Balances, escrow: bytes, to: bytes, sum: seq<Coin>, deposits: Deposits, id: int)
    requires Paid(before, after, escrow, to, sum) && forall d :: Amount(sum, d) == Live(Only(deposits, id), d)
    ensures PaidOut(before, after, escrow, deposits, id, to)
  {
  }

  lemma ProperRecord(deposits: Deposits, k: Slot)
    requires AllProper(deposits) && k in deposits
    ensures Bank.Proper(deposits[k])
  {
  }

  /** The records are those of one proposal, and none is the escrow's own. */
  predicate Owing(deposits: Deposits, id: int, records: Deposits, escrow: bytes)
  {
    forall k :: k in records ==> k in deposits && k.id == id && k.depositer != escrow && records[k] == deposits[k]
  }

  /** What is left of the records while those of `id` are being paid back. */
  function Left(deposits: Deposits, id: int, pending: set<Slot>): Deposits
  {
    map k | k in deposits && (k.id != id || k in pending) :: deposits[k]
  }

  lemma RefundReady(bank: Bank.Balances, chains: map<bytes, Chain>, escrow: bytes, c: bytes, id: int)
    requires Solvent(bank, chains, escrow) && c in chains
    ensures Backed(bank) && AllProper(chains[c].deposits)
    ensures Left(chains[c].deposits, id, Only(chains[c].deposits, id).Keys) == chains[c].deposits
    ensures Left(chains[c].deposits, id, {}) == Without(chains[c].deposits, id)
    ensures Owing(chains[c].deposits, id, Only(chains[c].deposits, id), escrow)
    ensures forall d :: Live(Only(chains[c].deposits, id), d) <= BalanceOf(bank, escrow, d)
  {
    var deposits := chains[c].deposits;
    assert Booked(chains[c], escrow);
    forall d
      ensures Live(Only(deposits, id), d) <= BalanceOf(bank, escrow, d)
    {
      EscrowCovers(bank, chains, escrow, c, d);
      LiveSplit(deposits, id, d);
      LiveNonNegative(Without(deposits, id), d);
    }
  }

  /** Between sound accounts within the supply, a payment is refused only for lack of funds. */
  lemma PayOutcome(bank: Bank.Balances, from: bytes, to: bytes, amt: seq<Coin>)
    requires Backed(bank) && Bank.Proper(amt)
    ensures Bank.Funded(bank, [Bank.Entry(from, amt)]) <==> Covers(Bank.Balance(bank, from), amt)
    ensures Covers(Bank.Balance(bank, from), amt) ==> Bank.InRange(bank, [Bank.Entry(from, amt)], [Bank.Entry(to, amt)])
  {
    if Covers(Bank.Balance(bank, from), amt) {
      Affordable(bank, from, to, amt);
    } else {
      var d :| Amount(Bank.Balance(bank, from), d) < Amount(amt, d);
      ShareOne(from, amt, from, d);
    }
  }

  lemma PoppedBooked(bank: Bank.Balances, chains: map<bytes, Chain>, escrow: bytes, c: bytes)
    requires Solvent(bank, chains, escrow) && c in chains && chains[c].inactive != []
    ensures Solvent(bank, chains[c := chains[c].(inactive := chains[c].inactive[1..])], escrow)
  {
    var r := chains[c].(inactive := chains[c].inactive[1..]);
    assert Booked(chains[c], escrow);
    assert Booked(r, escrow) by {
      forall id | id in r.proposals && IsOpen(r.proposals[id])
        ensures Totalled(r, id)
      {
        assert Totalled(chains[c], id);
      }
    }
    forall d
      ensures LiveAll(chains[c := r], d) == LiveAll(chains, d)
    {
      LiveAllPut(chains, c, r, d);
    }
  }

  lemma SubmittedSolvent(bank: Bank.Balances, chains: map<bytes, Chain>, escrow: bytes, c: bytes, now: int, votingPeriod: int)
    requires Solvent(bank, chains, escrow) && c in chains && Orderly(chains[c], now)
    ensures Solvent(bank, chains[c := Submitted(chains[c], now, votingPeriod)], escrow)
    ensures RecordOf(chains[c].deposits, Slot(chains[c].nextId, escrow)) == []
    ensures forall a :: RecordOf(chains[c].deposits, Slot(chains[c].nextId, a)) == []
  {
    var r := Submitted(chains[c], now, votingPeriod);
    var id := chains[c].nextId;
    assert Booked(chains[c], escrow);
    assert id !in chains[c].proposals;
    forall k | k in r.proposals && IsOpen(r.proposals[k])
      ensures Totalled(r, k)
    {
      if k == id {
        assert Only(r.deposits, id) == map[];
        forall d
          ensures Live(map[], d) == 0
        {
          assert Amounts(map[], d) == map[];
        }
      } else {
        assert Totalled(chains[c], k);
      }
    }
    assert Booked(r, escrow);
    forall d
      ensures LiveAll(chains[c := r], d) == LiveAll(chains, d)
    {
      LiveAllPut(chains, c, r, d);
    }
  }

  lemma PopShrinks(c: Chain)
    ensures c.inactive != [] && c.inactive[0] in c.proposals ==> |PopInactive(c).inactive| < |c.inactive|
    ensures forall v :: c.active != [] && c.active[0] in c.proposals ==> |PopActive(c, v).active| < |c.active|
  {
  }

  lemma InactiveAllInTime(c: Chain, now: int, maxDeposit: int)
    requires Orderly(c, now) && !ShouldPopInactive(c, now, maxDeposit)
    ensures DepositsInTime(c, now, maxDeposit)
  {
    forall id | id in c.proposals && c.proposals[id].status == DepositPeriod
      ensures now < c.proposals[id].submitTime + maxDeposit
    {
      InactiveInTime(c, now, maxDeposit, id);
    }
  }

  lemma ActiveAllInTime(c: Chain, now: int)
    requires Orderly(c, now) && !ShouldPopActive(c, now)
    ensures VotesInTime(c, now)
  {
    forall id | id in c.proposals && c.proposals[id].status == VotingPeriod
      ensures now < c.proposals[id].votingStart + c.proposals[id].votingPeriod
    {
      ActiveInTime(c, now, id);
    }
  }

  lemma BackedSound(bank: Bank.Balances)
    requires Backed(bank)
    ensures Bank.Sound(bank)
  {
  }

  // ---------------------------------------------------------------- whole runs

  /** What happens to the escrow: messages and end-of-block settling on any chain, and
      payments between accounts that the escrow does not make. */
  datatype Step =
    | Propose(c: bytes, now: int, votingPeriod: int, proposer: bytes, amt: seq<Coin>, minDeposit: seq<Coin>)
    | Deposit(c: bytes, now: int, slot: Slot, amt: seq<Coin>, minDeposit: seq<Coin>)
    | EndBlock(c: bytes, now: int, maxDeposit: int, tally: int -> Option<Verdict>, proposer: bytes)
    | Transfer(now: int, from: bytes, to: bytes, amt: seq<Coin>)

  predicate Allowed(s: Step, chains: set<bytes>, escrow: bytes)
  {
    match s
    case Propose(c, _, _, proposer, amt, minDeposit) => c in chains && proposer != escrow && Bank.Proper(amt) && Bank.Proper(minDeposit)
    case Deposit(c, _, slot, amt, minDeposit) => c in chains && slot.depositer != escrow && Bank.Proper(amt) && Bank.Proper(minDeposit)
    case EndBlock(c, _, _, _, _) => c in chains
    case Transfer(_, from, _, amt) => from != escrow && Bank.Proper(amt)
  }

  ghost predicate AllOrderly(chains: map<bytes, Chain>, now: int)
  {
    forall c :: c in chains ==> Orderly(chains[c], now)
  }

  ghost predicate AllProgress(a: map<bytes, Chain>, b: map<bytes, Chain>)
  {
    a.Keys == b.Keys && forall c :: c in a ==> Progress(a[c], b[c])
  }

  lemma DepositedProgress(c: Chain, now: int, slot: Slot, total: seq<Coin>, record: seq<Coin>, activate: bool)
    requires Orderly(c, now) && slot.id in c.proposals && (activate ==> c.proposals[slot.id].status == DepositPeriod)
    ensures Orderly(Deposited(c, now, slot, total, record, activate), now)
    ensures Progress(c, Deposited(c, now, slot, total, record, activate))
  {
    DepositedOrderly(c, now, now, slot, total, record, activate);
    MovesIsProgress(c, Deposited(c, now, slot, total, record, activate));
  }

  lemma SubmittedProgress(c: Chain, now: int, votingPeriod: int, who: bytes, total: seq<Coin>, record: seq<Coin>, activate: bool)
    requires Orderly(c, now)
    ensures var r := Deposited(Submitted(c, now, votingPeriod), now, Slot(c.nextId, who), total, record, activate);
            Orderly(r, now) && Progress(c, r)
  {
    var m := Submitted(c, now, votingPeriod);
    SubmittedOrderly(c, now, now, votingPeriod);
    MovesIsProgress(c, m);
    DepositedProgress(m, now, Slot(c.nextId, who), total, record, activate);
    OrderlyNumbers(m, now);
    ProgressTransitive(c, m, Deposited(m, now, Slot(c.nextId, who), total, record, activate));
  }

  /** All chains and all balances. */
  datatype Books = Books(chains: map<bytes, Chain>, accounts: Bank.Balances)

  lemma DepositOrderly(a: Books, b: Books, escrow: bytes, c: bytes, now: int, slot: Slot, amt: seq<Coin>, minDeposit: seq<Coin>, r: DepositResult)
    requires c in a.chains && AllOrderly(a.chains, now) && OneChange(a.chains, b.chains, c)
    requires DepositMade(a.chains[c], b.chains[c], a.accounts, b.accounts, escrow, now, slot, amt, minDeposit, r)
    ensures AllOrderly(b.chains, now) && AllProgress(a.chains, b.chains)
  {
    hide Orderly, Progress, Deposited, Covers, Paid, OneDeposit;
    DepositedProgress(a.chains[c], now, slot, r.total, r.record, r.activated);
    OneChain(a.chains, c, b.chains[c], now);
  }

  lemma SubmissionOrderly(a: Books, b: Books, escrow: bytes, c: bytes, now: int, votingPeriod: int, proposer: bytes,
                          amt: seq<Coin>, minDeposit: seq<Coin>, r: DepositResult)
    requires c in a.chains && AllOrderly(a.chains, now) && OneChange(a.chains, b.chains, c)
    requires Submission(a.chains[c], b.chains[c], a.accounts, b.accounts, escrow, now, votingPeriod, proposer, amt, minDeposit, r)
    ensures AllOrderly(b.chains, now) && AllProgress(a.chains, b.chains)
  {
    hide Orderly, Progress, Deposited, Submitted, Covers, Paid, OneDeposit;
    SubmittedProgress(a.chains[c], now, votingPeriod, proposer, r.total, r.record, r.activated);
    OneChain(a.chains, c, b.chains[c], now);
  }

  /** Changing one chain in order changes them all in order. */
  lemma OneChain(chains: map<bytes, Chain>, c: bytes, r: Chain, now: int)
    requires c in chains && AllOrderly(chains, now) && Orderly(r, now) && Progress(chains[c], r)
    ensures AllOrderly(chains[c := r], now) && AllProgress(chains, chains[c := r])
  {
    hide Orderly, Progress;
    forall k | k in chains
      ensures Progress(chains[k], chains[c := r][k])
    {
      ProgressRefl(chains[k]);
    }
  }

  lemma NoChain(chains: map<bytes, Chain>)
    ensures AllProgress(chains, chains)
  {
    forall k | k in chains
      ensures Progress(chains[k], chains[k])
    {
      ProgressRefl(chains[k]);
    }
  }

  lemma LaterAllOrderly(chains: map<bytes, Chain>, before: int, now: int)
    requires AllOrderly(chains, before) && before <= now
    ensures AllOrderly(chains, now)
  {
    forall c | c in chains
      ensures Orderly(chains[c], now)
    {
      LaterOrderly(chains[c], before, now);
    }
  }

  lemma AllProgressTransitive(a: map<bytes, Chain>, b: map<bytes, Chain>, c: map<bytes, Chain>, now: int)
    requires AllProgress(a, b) && AllProgress(b, c) && AllOrderly(b, now)
    ensures AllProgress(a, c)
  {
    hide Progress, Orderly;
    forall k | k in a
      ensures Progress(a[k], c[k])
    {
      OrderlyNumbers(b[k], now);
      ProgressTransitive(a[k], b[k], c[k]);
    }
  }

  lemma TransferSolvent(bank: Bank.Balances, after: Bank.Balances, chains: map<bytes, Chain>, escrow: bytes, from: bytes, to: bytes, amt: seq<Coin>)
    requires Solvent(bank, chains, escrow) && Backed(after) && from != escrow && Bank.Proper(amt) && Paid(bank, after, from, to, amt)
    ensures Solvent(after, chains, escrow)
  {
    forall d
      ensures BalanceOf(after, escrow, d) >= LiveAll(chains, d)
    {
      Bank.ProperAmount(amt, d);
      assert BalanceOf(bank, escrow, d) >= LiveAll(chains, d);
    }
  }

  /** A vote that the step has to decide has a tally that panics. */
  ghost predicate Panics(s: Step, chains: map<bytes, Chain>)
  {
    s.EndBlock? && s.c in chains && !Decidable(chains[s.c], s.now, s.tally)
  }

  ghost predicate DepositDone(a: Chain, b: Chain, before: Bank.Balances, after: Bank.Balances, escrow: bytes, now: int, slot: Slot, amt: seq<Coin>, minDeposit: seq<Coin>)
  {
    exists r :: DepositMade(a, b, before, after, escrow, now, slot, amt, minDeposit, r)
  }

  ghost predicate SubmissionDone(a: Chain, b: Chain, before: Bank.Balances, after: Bank.Balances, escrow: bytes, now: int, votingPeriod: int,
                                 proposer: bytes, amt: seq<Coin>, minDeposit: seq<Coin>)
  {
    exists r :: Submission(a, b, before, after, escrow, now, votingPeriod, proposer, amt, minDeposit, r)
  }

  /** What one step does. A submission, a deposit and a transfer are made exactly if the payer can afford them, and a deposit
      only on an open proposal; otherwise nothing changes. Settling pays and decides what is due on its chain, or, if a
      tally panics, what it got to. */
  ghost predicate Did(s: Step, escrow: bytes, a: Books, b: Books)
  {
    match s
    case Propose(c, now, votingPeriod, proposer, amt, minDeposit) =>
      if Covers(Bank.Balance(a.accounts, proposer), amt)
      then && c in a.chains && OneChange(a.chains, b.chains, c)
           && SubmissionDone(a.chains[c], b.chains[c], a.accounts, b.accounts, escrow, now, votingPeriod, proposer, amt, minDeposit)
      else b == a
    case Deposit(c, now, slot, amt, minDeposit) =>
      if c in a.chains && slot.id in a.chains[c].proposals && IsOpen(a.chains[c].proposals[slot.id])
         && Covers(Bank.Balance(a.accounts, slot.depositer), amt)
      then && OneChange(a.chains, b.chains, c)
           && DepositDone(a.chains[c], b.chains[c], a.accounts, b.accounts, escrow, now, slot, amt, minDeposit)
      else b == a
    case EndBlock(c, now, maxDeposit, tally, proposer) =>
      && c in a.chains && OneChange(a.chains, b.chains, c)
      && PaidSoFar(a.chains[c], b.chains[c], a.accounts, b.accounts, escrow, proposer, now, maxDeposit, tally)
      && (Decidable(a.chains[c], now, tally) ==>
            SettledChain(a.chains[c], b.chains[c], a.accounts, b.accounts, escrow, proposer, now, maxDeposit, tally))
    case Transfer(_, from, to, amt) =>
      && b.chains == a.chains
      && if Covers(Bank.Balance(a.accounts, from), amt) then Paid(a.accounts, b.accounts, from, to, amt) else b == a
  }

  /** One step. `ok` is false only if a payment out of escrow failed, which never happens. */
  method Perform(k: Keeper, s: Step) returns (ok: bool, panics: bool)
    requires k.Holds() && AllOrderly(k.chains, s.now) && Allowed(s, k.chains.Keys, k.escrow)
    modifies k, k.bank
    ensures ok && k.Holds() && AllOrderly(k.chains, s.now) && AllProgress(old(k.chains), k.chains)
    ensures panics <==> Panics(s, old(k.chains))
    ensures Did(s, k.escrow, Books(old(k.chains), old(k.bank.accounts)), Books(k.chains, k.bank.accounts))
  {
    hide Solvent, Orderly, Progress, Covers, Bank.Proper, Decidable, OneChange, DepositMade, Submission, Bank.Balance, Paid, PaidSoFar, SettledChain;
    ghost var before, had := k.chains, k.bank.accounts;
    NoChain(before);
    ok, panics := true, false;
    match s
    case Propose(c, now, votingPeriod, proposer, amt, minDeposit) =>
      var r := k.Submit(c, now, votingPeriod, proposer, amt, minDeposit);
      if r.Added? {
        SubmissionOrderly(Books(before, had), Books(k.chains, k.bank.accounts), k.escrow, c, now, votingPeriod, proposer, amt, minDeposit, r);
      }
    case Deposit(c, now, slot, amt, minDeposit) =>
      var r := k.AddDeposit(c, now, slot, amt, minDeposit);
      if r.Added? {
        DepositOrderly(Books(before, had), Books(k.chains, k.bank.accounts), k.escrow, c, now, slot, amt, minDeposit, r);
      }
    case EndBlock(c, now, maxDeposit, tally, proposer) =>
      ok, panics := k.Settle(c, now, maxDeposit, tally, proposer);
      ChangedOnce(before, k.chains, c);
      OneChain(before, c, k.chains[c], now);
    case Transfer(now, from, to, amt) =>
      TransferOne(k, from, to, amt);
  }

  method TransferOne(k: Keeper, from: bytes, to: bytes, amt: seq<Coin>)
    requires k.Holds() && from != k.escrow && Bank.Proper(amt)
    modifies k.bank
    ensures k.Holds() && k.chains == old(k.chains)
    ensures if Covers(Bank.Balance(old(k.bank.accounts), from), amt) then Paid(old(k.bank.accounts), k.bank.accounts, from, to, amt)
            else k.bank.accounts == old(k.bank.accounts)
  {
    ghost var before := k.bank.accounts;
    PayOutcome(before, from, to, amt);
    BackedSound(before);
    hide Bank.Funded, Bank.InRange, Bank.Moved, Solvent, Covers, Backed;
    var r := k.bank.SendCoins(from, to, amt);
    if r == Bank.Done {
      MovedIsPaid(before, k.bank.accounts, from, to, amt);
      TransferSolvent(before, k.bank.accounts, k.chains, k.escrow, from, to, amt);
    }
  }

  /** Times do not run backwards. */
  predicate InTimeOrder(steps: seq<Step>, start: int)
  {
    forall i :: 0 <= i < |steps| ==> start <= steps[i].now && (i > 0 ==> steps[i - 1].now <= steps[i].now)
  }

  /** The books after each step, from those before the first. */
  ghost predicate Trace(steps: seq<Step>, escrow: bytes, books: seq<Books>)
  {
    && 0 < |books| <= |steps| + 1
    && forall i :: 0 <= i < |books| - 1 ==> Did(steps[i], escrow, books[i], books[i + 1])
  }

  lemma TraceStep(steps: seq<Step>, escrow: bytes, books: seq<Books>, b: Books)
    requires Trace(steps, escrow, books) && |books| <= |steps| && Did(steps[|books| - 1], escrow, books[|books| - 1], b)
    ensures Trace(steps, escrow, books + [b])
  {
    hide Did;
    var more := books + [b];
    forall i | 0 <= i < |more| - 1
      ensures Did(steps[i], escrow, more[i], more[i + 1])
    {
      assert more[i] == books[i] && (i < |books| - 1 ==> more[i + 1] == books[i + 1]);
    }
  }

  /** Whatever is submitted, deposited, transferred and settled on the chains that share the
      escrow, in whatever order: every step does what it should and no more; the escrow stays solvent,
      so no payment out of it ever fails; the queues stay in order; and proposals only make progress.
      The run stops only where a tally panics. */
  method Run(k: Keeper, steps: seq<Step>, ghost start: int) returns (ok: bool, done: nat, ghost books: seq<Books>)
    requires k.Holds() && AllOrderly(k.chains, start) && InTimeOrder(steps, start)
    requires forall i :: 0 <= i < |steps| ==> Allowed(steps[i], k.chains.Keys, k.escrow)
    modifies k, k.bank
    ensures ok && k.Holds() && AllProgress(old(k.chains), k.chains)
    ensures done <= |steps| && (done < |steps| ==> steps[done].EndBlock? && exists id :: steps[done].tally(id) == None)
    ensures AllOrderly(k.chains, if done < |steps| then steps[done].now else if steps == [] then start else steps[|steps| - 1].now)
    ensures Trace(steps, k.escrow, books) && |books| == if done < |steps| then done + 2 else done + 1
    ensures books[0] == Books(old(k.chains), old(k.bank.accounts)) && books[|books| - 1] == Books(k.chains, k.bank.accounts)
  {
    hide Solvent, Orderly, Progress, Allowed, Did, Trace;
    NoChain(k.chains);
    ghost var now := start;
    books := [Books(k.chains, k.bank.accounts)];
    TraceStarts(steps, k.escrow, books[0]);
    for i := 0 to |steps|
      invariant k.Holds() && AllOrderly(k.chains, now) && AllProgress(old(k.chains), k.chains)
      invariant now == if i == 0 then start else steps[i - 1].now
      invariant |books| == i + 1 && Trace(steps, k.escrow, books)
      invariant books[0] == Books(old(k.chains), old(k.bank.accounts)) && books[i] == Books(k.chains, k.bank.accounts)
    {
      ghost var before := k.chains;
      LaterAllOrderly(before, now, steps[i].now);
      now := steps[i].now;
      var panics;
      done := i;
      ok, panics := Perform(k, steps[i]);
      TraceStep(steps, k.escrow, books, Books(k.chains, k.bank.accounts));
      books := books + [Books(k.chains, k.bank.accounts)];
      AllProgressTransitive(old(k.chains), before, k.chains, now);
      if !ok || panics {
        return;
      }
    }
    ok, done := true, |steps|;
  }

  lemma TraceStarts(steps: seq<Step>, escrow: bytes, b: Books)
    ensures Trace(steps, escrow, [b])
  {
  }
}
