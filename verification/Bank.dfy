/** x/bank: balances kept in accounts, moved by subtracting at the inputs of a
    MsgSend and adding at its outputs. An operation that fails half way leaves
    its partial changes behind; the transaction that contains it is discarded. */
module Bank {
  import opened Bytes
  import opened Coins
  import MapSum

  type Balances = map<bytes, seq<Coin>>

  /** One input or output of a MsgSend. */
  datatype Entry = Entry(address: bytes, coins: seq<Coin>)

  datatype Outcome = Done | Insufficient | Panicked

  const ADDR_LEN: nat := 20

  /** getCoins: an unknown account holds nothing. */
  function Balance(bank: Balances, a: bytes): seq<Coin>
  {
    if a in bank then bank[a] else []
  }

  /** Coins as accounts hold them: sorted, with no negative amount. */
  predicate Proper(cs: seq<Coin>)
  {
    Sorted(cs) && NotNegative(cs)
  }

  predicate Sound(bank: Balances)
  {
    forall a :: a in bank ==> Proper(bank[a])
  }

  /** No account lists a denomination it has nothing of. */
  predicate ZeroFree(bank: Balances)
  {
    forall a :: a in bank ==> NoZero(bank[a])
  }

  ghost function Holdings(bank: Balances, d: bytes): map<bytes, int>
  {
    map a | a in bank :: Amount(bank[a], d)
  }

  /** Everything that exists of a denomination. */
  ghost function Supply(bank: Balances, d: bytes): int
  {
    MapSum.Sum(Holdings(bank, d))
  }

  // ---------------------------------------------------------------- sums over entries

  function Total(es: seq<Entry>, d: bytes): int
  {
    if es == [] then 0 else Total(es[..|es| - 1], d) + Amount(es[|es| - 1].coins, d)
  }

  /** What the entries of one address add up to. */
  function Share(es: seq<Entry>, a: bytes, d: bytes): int
  {
    if es == [] then 0
    else
      var last := es[|es| - 1];
      Share(es[..|es| - 1], a, d) + (if last.address == a then Amount(last.coins, d) else 0)
  }

  predicate AllProper(es: seq<Entry>)
  {
    forall i :: 0 <= i < |es| ==> Proper(es[i].coins)
  }

  predicate NoZeros(es: seq<Entry>)
  {
    forall i :: 0 <= i < |es| ==> NoZero(es[i].coins)
  }

  lemma PrefixStep(es: seq<Entry>, i: nat)
    requires i < |es|
    ensures es[..i + 1][..i] == es[..i] && es[..i + 1][i] == es[i]
    ensures NoZeros(es[..i + 1]) <==> NoZeros(es[..i]) && NoZero(es[i].coins)
    ensures forall d :: Total(es[..i + 1], d) == Total(es[..i], d) + Amount(es[i].coins, d)
    ensures forall a, d :: Share(es[..i + 1], a, d) == Share(es[..i], a, d) + (if es[i].address == a then Amount(es[i].coins, d) else 0)
  {
    assert es[..i + 1][..i] == es[..i];
  }

  lemma ProperAmount(cs: seq<Coin>, d: bytes)
    requires Proper(cs)
    ensures Amount(cs, d) >= 0
  {
    AmountInList(cs, d);
  }

  /** Sums of proper entries only grow along the list. */
  lemma {:induction false} SumsGrow(es: seq<Entry>, i: nat, a: bytes, d: bytes)
    requires AllProper(es) && i <= |es|
    ensures 0 <= Total(es[..i], d) <= Total(es, d)
    ensures 0 <= Share(es[..i], a, d) <= Share(es, a, d)
    decreases |es|
  {
    if i == |es| {
      assert es[..i] == es;
      if es != [] {
        SumsGrow(es[..i - 1], i - 1, a, d);
        assert es[..i - 1][..i - 1] == es[..i - 1];
        ProperAmount(es[i - 1].coins, d);
      }
    } else {
      var front := es[..|es| - 1];
      SumsGrow(front, i, a, d);
      assert front[..i] == es[..i];
      ProperAmount(es[|es| - 1].coins, d);
    }
  }

  // ---------------------------------------------------------------- proper coins

  /** Sorted lists of positive amounts are equal exactly if they hold the same amounts. */
  lemma {:induction false} PositiveUnique(a: seq<Coin>, b: seq<Coin>)
    requires Sorted(a) && Positive(a) && Sorted(b) && Positive(b)
    requires forall d :: Amount(a, d) == Amount(b, d)
    ensures a == b
  {
    assert a != [] ==> Amount(a, a[0].denom) != Amount([], a[0].denom);
    assert b != [] ==> Amount(b, b[0].denom) != Amount([], b[0].denom);
    if a != [] && b != [] {
      HeadsAgree(a, b);
      AboveIsAbsent(a[0].denom, a[1..]);
      AboveIsAbsent(b[0].denom, b[1..]);
      forall d
        ensures Amount(a[1..], d) == Amount(b[1..], d)
      {
        assert Amount(a, d) == Amount(b, d);
      }
      PositiveUnique(a[1..], b[1..]);
      assert a == [a[0]] + a[1..];
      assert b == [b[0]] + b[1..];
    }
  }

  lemma HeadsAgree(a: seq<Coin>, b: seq<Coin>)
    requires Sorted(a) && Positive(a) && Sorted(b) && Positive(b) && a != [] && b != []
    requires forall d :: Amount(a, d) == Amount(b, d)
    ensures a[0] == b[0]
  {
    var x, y := a[0].denom, b[0].denom;
    assert Above(x, a[1..]) && Above(y, b[1..]);
    hide Less, Sorted;
    assert Amount(a, x) == a[0].amount && Amount(b, y) == b[0].amount;
    assert Amount(a, x) == Amount(b, x) && Amount(a, y) == Amount(b, y);
    CompareTotal(x, y);
    if Less(x, y) {
      AboveTransitive(x, y, b[1..]);
      AboveIsAbsent(x, b);
    } else if Less(y, x) {
      AboveTransitive(y, x, a[1..]);
      AboveIsAbsent(y, a);
    }
  }

  /** A sum of proper lists is proper, and overflows exactly if some amount does. */
  lemma SumProper(a: seq<Coin>, b: seq<Coin>)
    requires Proper(a) && Proper(b)
    ensures Sum(a, b).Some? <==> forall d :: Int64(Amount(a, d) + Amount(b, d))
    ensures Sum(a, b).Some? ==> Proper(Sum(a, b).value) && (NoZero(a) && NoZero(b) ==> NoZero(Sum(a, b).value))
    ensures Sum(a, b).Some? ==> forall d :: Amount(Sum(a, b).value, d) == Amount(a, d) + Amount(b, d)
  {
    if Sum(a, b).None? {
      var d := SumPanics(a, b);
    } else {
      SumIsPointwise(a, b);
      SumNotNegative(Sum(a, b).value, a, b);
      if NoZero(a) && NoZero(b) {
        SumNoZero(a, b);
      }
    }
  }

  lemma SumNotNegative(cs: seq<Coin>, a: seq<Coin>, b: seq<Coin>)
    requires Sorted(cs) && Proper(a) && Proper(b)
    requires forall d :: Amount(cs, d) == Amount(a, d) + Amount(b, d)
    ensures NotNegative(cs)
  {
    forall i | 0 <= i < |cs|
      ensures cs[i].amount >= 0
    {
      AmountAt(cs, i);
      ProperAmount(a, cs[i].denom);
      ProperAmount(b, cs[i].denom);
    }
  }

  /** Taking a proper list from another never overflows, and leaves a proper
      list exactly if there is enough of everything. */
  lemma DifferenceProper(a: seq<Coin>, b: seq<Coin>)
    requires Proper(a) && Proper(b)
    ensures Difference(a, b).Some?
    ensures NotNegative(Difference(a, b).value) <==> Covers(a, b)
    ensures NotNegative(Difference(a, b).value) ==> Proper(Difference(a, b).value)
    ensures NoZero(a) && NoZero(b) ==> NoZero(Difference(a, b).value)
    ensures forall d :: Amount(Difference(a, b).value, d) == Amount(a, d) - Amount(b, d)
  {
    DifferenceInRange(a, b);
    DifferenceIsPointwise(a, b);
    DifferenceCovers(a, b);
    NotNegativeIsPointwise(Difference(a, b).value);
    forall d
      ensures Amount(Difference(a, b).value, d) == Amount(a, d) - Amount(b, d)
    {
      ProperAmount(b, d);
      WrapNegative(Amount(b, d));
    }
  }

  lemma DifferenceInRange(a: seq<Coin>, b: seq<Coin>)
    requires Proper(a) && Proper(b)
    ensures Difference(a, b).Some?
  {
    NegatedIsPointwise(b);
    if Difference(a, b).None? {
      var d := SumPanics(a, Negated(b));
      ProperAmount(a, d);
      ProperAmount(b, d);
      WrapNegative(Amount(b, d));
    }
  }

  // ---------------------------------------------------------------- balances after a change

  /** What storing new coins does to the holdings of every account. */
  lemma PutBalance(bank: Balances, a: bytes, cs: seq<Coin>)
    ensures forall d :: Supply(bank[a := cs], d) == Supply(bank, d) - Amount(Balance(bank, a), d) + Amount(cs, d)
    ensures Sound(bank) && Proper(cs) ==> Sound(bank[a := cs])
    ensures ZeroFree(bank) && NoZero(cs) ==> ZeroFree(bank[a := cs])
  {
    forall d
      ensures Supply(bank[a := cs], d) == Supply(bank, d) - Amount(Balance(bank, a), d) + Amount(cs, d)
    {
      assert Holdings(bank[a := cs], d) == Holdings(bank, d)[a := Amount(cs, d)];
      MapSum.SumPut(Holdings(bank, d), a, Amount(cs, d));
    }
  }

  /** `after` is `before` with the inputs taken out and the outputs put in. */
  ghost predicate Moved(before: Balances, after: Balances, inputs: seq<Entry>, outputs: seq<Entry>)
  {
    && Sound(after)
    && (forall a, d :: Amount(Balance(after, a), d) == Amount(Balance(before, a), d) - Share(inputs, a, d) + Share(outputs, a, d))
    && (forall d :: Supply(after, d) == Supply(before, d) - Total(inputs, d) + Total(outputs, d))
    && (ZeroFree(before) && NoZeros(inputs) && NoZeros(outputs) ==> ZeroFree(after))
  }

  /** Every account can pay its inputs. */
  ghost predicate Funded(bank: Balances, inputs: seq<Entry>)
  {
    forall a, d :: Share(inputs, a, d) <= Amount(Balance(bank, a), d)
  }

  /** No account's amounts leave the 64-bit range. */
  ghost predicate InRange(bank: Balances, inputs: seq<Entry>, outputs: seq<Entry>)
  {
    forall a, d :: Int64(Amount(Balance(bank, a), d) - Share(inputs, a, d) + Share(outputs, a, d))
  }

  lemma Unmoved(bank: Balances)
    requires Sound(bank)
    ensures Moved(bank, bank, [], [])
  {
  }

  lemma DebitMoves(before: Balances, bank: Balances, inputs: seq<Entry>, i: nat)
    requires AllProper(inputs) && i < |inputs|
    requires Moved(before, bank, inputs[..i], [])
    requires Covers(Balance(bank, inputs[i].address), inputs[i].coins)
    requires Proper(Balance(bank, inputs[i].address))
    requires Difference(Balance(bank, inputs[i].address), inputs[i].coins).Some?
    ensures Moved(before, bank[inputs[i].address := Difference(Balance(bank, inputs[i].address), inputs[i].coins).value], inputs[..i + 1], [])
  {
    var e := inputs[i];
    DifferenceProper(Balance(bank, e.address), e.coins);
    PutBalance(bank, e.address, Difference(Balance(bank, e.address), e.coins).value);
    PrefixStep(inputs, i);
    hide Sorted, Difference, Share, Total, Supply;
  }

  lemma CreditMoves(before: Balances, bank: Balances, inputs: seq<Entry>, outputs: seq<Entry>, i: nat)
    requires AllProper(outputs) && i < |outputs|
    requires Moved(before, bank, inputs, outputs[..i])
    requires Proper(Balance(bank, outputs[i].address))
    requires Sum(Balance(bank, outputs[i].address), outputs[i].coins).Some?
    ensures Moved(before, bank[outputs[i].address := Sum(Balance(bank, outputs[i].address), outputs[i].coins).value], inputs, outputs[..i + 1])
  {
    var e := outputs[i];
    SumProper(Balance(bank, e.address), e.coins);
    PutBalance(bank, e.address, Sum(Balance(bank, e.address), e.coins).value);
    PrefixStep(outputs, i);
    hide Sorted, Sum, Share, Total, Supply;
  }

  /** An input that its account cannot pay shows that the account cannot pay them all. */
  lemma NotFunded(before: Balances, bank: Balances, inputs: seq<Entry>, i: nat)
    requires AllProper(inputs) && i < |inputs|
    requires Moved(before, bank, inputs[..i], [])
    requires !Covers(Balance(bank, inputs[i].address), inputs[i].coins)
    ensures !Funded(before, inputs)
  {
    var e := inputs[i];
    var d :| Amount(Balance(bank, e.address), d) < Amount(e.coins, d);
    PrefixStep(inputs, i);
    SumsGrow(inputs, i + 1, e.address, d);
    assert Share(inputs, e.address, d) > Amount(Balance(before, e.address), d);
  }

  /** An output that overflows its account shows that the whole does. */
  lemma NotInRange(before: Balances, bank: Balances, inputs: seq<Entry>, outputs: seq<Entry>, i: nat)
    requires AllProper(outputs) && i < |outputs|
    requires Moved(before, bank, inputs, outputs[..i]) && Proper(Balance(bank, outputs[i].address))
    requires Sum(Balance(bank, outputs[i].address), outputs[i].coins).None?
    ensures !InRange(before, inputs, outputs)
  {
    var e := outputs[i];
    var d := SumPanics(Balance(bank, e.address), e.coins);
    PrefixStep(outputs, i);
    SumsGrow(outputs, i + 1, e.address, d);
    ProperAmount(Balance(bank, e.address), d);
    ProperAmount(e.coins, d);
    assert !Int64(Amount(Balance(before, e.address), d) - Share(inputs, e.address, d) + Share(outputs, e.address, d));
  }

  lemma MovedInRange(before: Balances, after: Balances, inputs: seq<Entry>, outputs: seq<Entry>)
    requires Moved(before, after, inputs, outputs)
    ensures InRange(before, inputs, outputs)
  {
    forall a, d
      ensures Int64(Amount(Balance(before, a), d) - Share(inputs, a, d) + Share(outputs, a, d))
    {
      assert Int64(Amount(Balance(after, a), d));
    }
  }

  lemma MovedFunded(before: Balances, after: Balances, inputs: seq<Entry>)
    requires Moved(before, after, inputs, [])
    ensures Funded(before, inputs)
  {
    forall a, d
      ensures Share(inputs, a, d) <= Amount(Balance(before, a), d)
    {
      ProperAmount(Balance(after, a), d);
      assert Share([], a, d) == 0;
    }
  }

  /** What storing `cs` as the new balance does: an overflow panics, a negative
      amount is refused, and otherwise only this balance changes. */
  predicate Stored(bank: Balances, a: bytes, cs: Option<seq<Coin>>, r: Outcome, after: Balances)
  {
    && (r == Panicked <==> cs == None)
    && (r == Done <==> cs.Some? && NotNegative(cs.value))
    && after == if r == Done then bank[a := cs.value] else bank
  }

  lemma Single(e: Entry)
    requires Proper(e.coins)
    ensures AllProper([e]) && [e][..0] == [] && [e][..1] == [e]
  {
  }

  lemma DebitStep(before: Balances, bank: Balances, inputs: seq<Entry>, i: nat, r: Outcome, after: Balances)
    requires AllProper(inputs) && i < |inputs|
    requires Moved(before, bank, inputs[..i], [])
    requires Stored(bank, inputs[i].address, Difference(Balance(bank, inputs[i].address), inputs[i].coins), r, after)
    ensures r == Done ==> Moved(before, after, inputs[..i + 1], [])
    ensures r != Done ==> r == Insufficient && !Funded(before, inputs) && after == bank
  {
    assert Proper(Balance(bank, inputs[i].address));
    DifferenceProper(Balance(bank, inputs[i].address), inputs[i].coins);
    if r == Done {
      DebitMoves(before, bank, inputs, i);
    } else {
      NotFunded(before, bank, inputs, i);
    }
  }

  lemma CreditStep(before: Balances, bank: Balances, inputs: seq<Entry>, outputs: seq<Entry>, i: nat, r: Outcome, after: Balances)
    requires AllProper(outputs) && i < |outputs|
    requires Moved(before, bank, inputs, outputs[..i])
    requires Stored(bank, outputs[i].address, Sum(Balance(bank, outputs[i].address), outputs[i].coins), r, after)
    ensures r == Done ==> Moved(before, after, inputs, outputs[..i + 1])
    ensures r != Done ==> r == Panicked && !InRange(before, inputs, outputs)
  {
    assert Proper(Balance(bank, outputs[i].address));
    SumProper(Balance(bank, outputs[i].address), outputs[i].coins);
    if r == Done {
      CreditMoves(before, bank, inputs, outputs, i);
    } else {
      NotInRange(before, bank, inputs, outputs, i);
    }
  }

  // ---------------------------------------------------------------- the keeper

  class Keeper {
    var accounts: Balances

    /** setCoins creates the account if there is none. */
    method SetCoins(a: bytes, cs: seq<Coin>)
      modifies this
      ensures accounts == old(accounts)[a := cs]
    {
      accounts := accounts[a := cs];
    }

    method SubtractCoins(a: bytes, amt: seq<Coin>) returns (r: Outcome)
      modifies this
      ensures Stored(old(accounts), a, Difference(Balance(old(accounts), a), amt), r, accounts)
    {
      var before := Balance(accounts, a);
      var left := Minus(before, amt);
      if left == None {
        return Panicked;
      }
      var ok := IsNotNegative(left.value);
      if !ok {
        return Insufficient;
      }
      SetCoins(a, left.value);
      return Done;
    }

    method AddCoins(a: bytes, amt: seq<Coin>) returns (r: Outcome)
      modifies this
      ensures Stored(old(accounts), a, Sum(Balance(old(accounts), a), amt), r, accounts)
    {
      var before := Balance(accounts, a);
      var sum := Plus(before, amt);
      if sum == None {
        return Panicked;
      }
      var ok := IsNotNegative(sum.value);
      if !ok {
        return Insufficient;
      }
      SetCoins(a, sum.value);
      return Done;
    }

    /** Takes every input out of its account, which succeeds exactly if every
        account can pay the sum of its inputs. */
    method SubtractAll(inputs: seq<Entry>) returns (r: Outcome)
      requires Sound(accounts) && AllProper(inputs)
      modifies this
      ensures r != Panicked && (r == Done <==> Funded(old(accounts), inputs))
      ensures r == Done ==> Moved(old(accounts), accounts, inputs, [])
    {
      ghost var before := accounts;
      assert inputs[..0] == [];
      Unmoved(accounts);
      for i := 0 to |inputs|
        invariant Moved(before, accounts, inputs[..i], [])
      {
        ghost var bank := accounts;
        r := SubtractCoins(inputs[i].address, inputs[i].coins);
        DebitStep(before, bank, inputs, i, r, accounts);
        if r != Done {
          return;
        }
      }
      assert inputs[..|inputs|] == inputs;
      MovedFunded(before, accounts, inputs);
      return Done;
    }

    method AddAll(ghost before: Balances, ghost inputs: seq<Entry>, outputs: seq<Entry>) returns (r: Outcome)
      requires Moved(before, accounts, inputs, []) && AllProper(outputs)
      modifies this
      ensures r != Insufficient && (r == Done <==> InRange(before, inputs, outputs))
      ensures r == Done ==> Moved(before, accounts, inputs, outputs)
    {
      assert outputs[..0] == [];
      for i := 0 to |outputs|
        invariant Moved(before, accounts, inputs, outputs[..i])
      {
        ghost var bank := accounts;
        r := AddCoins(outputs[i].address, outputs[i].coins);
        CreditStep(before, bank, inputs, outputs, i, r, accounts);
        if r != Done {
          return;
        }
      }
      assert outputs[..|outputs|] == outputs;
      MovedInRange(before, accounts, inputs, outputs);
      return Done;
    }

    /** inputOutputCoins: every account ends with its balance less its inputs
        plus its outputs, however often addresses repeat. */
    method InputOutputCoins(inputs: seq<Entry>, outputs: seq<Entry>) returns (r: Outcome)
      requires Sound(accounts) && AllProper(inputs) && AllProper(outputs)
      modifies this
      ensures r == Done <==> Funded(old(accounts), inputs) && InRange(old(accounts), inputs, outputs)
      ensures r == Insufficient <==> !Funded(old(accounts), inputs)
      ensures r == Done ==> Moved(old(accounts), accounts, inputs, outputs)
    {
      hide *;
      ghost var before := accounts;
      r := SubtractAll(inputs);
      if r == Done {
        r := AddAll(before, inputs, outputs);
      }
    }

    /** sendCoins is the transfer with one input and one output. */
    method SendCoins(from: bytes, to: bytes, amt: seq<Coin>) returns (r: Outcome)
      requires Sound(accounts) && Proper(amt)
      modifies this
      ensures r == Done <==> Funded(old(accounts), [Entry(from, amt)]) && InRange(old(accounts), [Entry(from, amt)], [Entry(to, amt)])
      ensures r == Insufficient <==> !Funded(old(accounts), [Entry(from, amt)])
      ensures r == Insufficient ==> accounts == old(accounts)
      ensures r == Done ==> Moved(old(accounts), accounts, [Entry(from, amt)], [Entry(to, amt)])
    {
      hide *;
      ghost var before, inputs, outputs := accounts, [Entry(from, amt)], [Entry(to, amt)];
      Single(Entry(from, amt));
      Single(Entry(to, amt));
      Unmoved(before);
      r := SubtractCoins(from, amt);
      DebitStep(before, before, inputs, 0, r, accounts);
      if r != Done {
        return;
      }
      MovedFunded(before, accounts, inputs);
      ghost var bank := accounts;
      r := AddCoins(to, amt);
      CreditStep(before, bank, inputs, outputs, 0, r, accounts);
      if r != Done {
        return;
      }
      MovedInRange(before, accounts, inputs, outputs);
    }
  }

  // ---------------------------------------------------------------- MsgSend

  /** Input.ValidateBasic and Output.ValidateBasic: IsPositive makes up for the first
      amount, which IsValid does not look at. */
  predicate Acceptable(e: Entry)
  {
    |e.address| == ADDR_LEN && e.coins != [] && Sorted(e.coins) && Positive(e.coins)
  }

  predicate AllAcceptable(es: seq<Entry>)
  {
    forall i :: 0 <= i < |es| ==> Acceptable(es[i])
  }

  method ValidateEntry(e: Entry) returns (ok: bool)
    ensures ok <==> |e.address| == 20 && e.coins != [] && Sorted(e.coins) && forall i :: 0 <= i < |e.coins| ==> e.coins[i].amount > 0
  {
    if |e.address| != ADDR_LEN {
      return false;
    }
    var valid := IsValid(e.coins);
    if !valid {
      if Positive(e.coins) && e.coins != [] {
        NoZeroTail(e.coins);
      }
      return false;
    }
    ok := IsPositive(e.coins);
  }

  lemma NoZeroTail(cs: seq<Coin>)
    requires Positive(cs) && cs != []
    ensures NoZero(cs) && NoZero(cs[1..])
  {
  }

  method IsPositive(cs: seq<Coin>) returns (r: bool)
    ensures r <==> cs != [] && Positive(cs)
  {
    if |cs| == 0 {
      return false;
    }
    for i := 0 to |cs|
      invariant Positive(cs[..i])
    {
      if cs[i].amount <= 0 {
        return false;
      }
    }
    assert cs[..|cs|] == cs;
    return true;
  }

  /** One of the two loops of MsgSend.ValidateBasic: checks every entry and adds
      them up. Stops with None at a bad entry or at an overflow. */
  method AddUp(es: seq<Entry>) returns (total: Option<seq<Coin>>)
    ensures total.Some? <==> AllAcceptable(es) && forall d :: Int64(Total(es, d))
    ensures total.Some? ==> Sorted(total.value) && Positive(total.value) && forall d :: Amount(total.value, d) == Total(es, d)
  {
    total := Some([]);
    assert es[..0] == [];
    for i := 0 to |es|
      invariant AllAcceptable(es[..i]) && total.Some? && Proper(total.value) && NoZero(total.value)
      invariant forall d :: Amount(total.value, d) == Total(es[..i], d)
    {
      var ok := ValidateEntry(es[i]);
      if !ok {
        return None;
      }
      PrefixStep(es, i);
      SumProper(total.value, es[i].coins);
      ghost var sum := total.value;
      total := Plus(total.value, es[i].coins);
      if total == None {
        Overflows(es, i, sum);
        return None;
      }
    }
    assert es[..|es|] == es;
  }

  lemma Overflows(es: seq<Entry>, i: nat, sum: seq<Coin>)
    requires i < |es| && Proper(sum) && Proper(es[i].coins)
    requires forall d :: Amount(sum, d) == Total(es[..i], d)
    requires Sum(sum, es[i].coins).None?
    ensures AllAcceptable(es) ==> !forall d :: Int64(Total(es, d))
  {
    if AllAcceptable(es) {
      var d := SumPanics(sum, es[i].coins);
      PrefixStep(es, i);
      SumsGrow(es, i + 1, [], d);
      ProperAmount(sum, d);
      ProperAmount(es[i].coins, d);
      assert !Int64(Total(es, d));
    }
  }

  /** MsgSend.ValidateBasic accepts exactly the non-empty transfers of
      acceptable entries whose inputs and outputs agree in every denomination,
      within the 64-bit range. */
  method ValidateBasic(inputs: seq<Entry>, outputs: seq<Entry>) returns (ok: bool)
    ensures ok <==> Balanced(inputs, outputs)
  {
    if |inputs| == 0 || |outputs| == 0 {
      return false;
    }
    var totalIn := AddUp(inputs);
    if totalIn == None {
      return false;
    }
    var totalOut := AddUp(outputs);
    if totalOut == None {
      return false;
    }
    if Balanced(inputs, outputs) {
      PositiveUnique(totalIn.value, totalOut.value);
    }
    return totalIn.value == totalOut.value;
  }

  ghost predicate Balanced(inputs: seq<Entry>, outputs: seq<Entry>)
  {
    && inputs != [] && outputs != []
    && AllAcceptable(inputs) && AllAcceptable(outputs)
    && (forall d :: Int64(Total(inputs, d)) && Total(inputs, d) == Total(outputs, d))
  }

  /** A MsgSend from ValidateBasic to the end of its handler: if it succeeds the
      supply of every denomination is what it was, and balances stay sound. */
  method HandleSend(keeper: Keeper, inputs: seq<Entry>, outputs: seq<Entry>) returns (r: Option<Outcome>)
    requires Sound(keeper.accounts)
    modifies keeper
    ensures r.Some? <==> Balanced(inputs, outputs)
    ensures r == None ==> keeper.accounts == old(keeper.accounts)
    ensures r == Some(Done) <==>
            && Balanced(inputs, outputs)
            && Funded(old(keeper.accounts), inputs)
            && InRange(old(keeper.accounts), inputs, outputs)
    ensures r == Some(Done) ==> Moved(old(keeper.accounts), keeper.accounts, inputs, outputs)
    ensures r == Some(Done) ==> forall d :: Supply(keeper.accounts, d) == Supply(old(keeper.accounts), d)
  {
    var ok := ValidateBasic(inputs, outputs);
    if !ok {
      return None;
    }
    var outcome := keeper.InputOutputCoins(inputs, outputs);
    return Some(outcome);
  }
}
