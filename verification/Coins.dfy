/** types/coin.go: amounts of several currencies as a list sorted by denomination,
    in 64-bit arithmetic that panics on overflow. A panic is modelled as None. */
module Coins {
  import opened Bytes

  datatype Coin = Coin(denom: bytes, amount: int64)

  /** safePlus: adds with wrap-around and detects it afterwards. */
  function SafePlus(a: int64, b: int64): (r: Option<int64>)
    ensures r.Some? <==> Int64(a + b)
    ensures r.Some? ==> r.value == a + b
  {
    WrapRange(a, b);
    var c := Wrap(a + b);
    if (c > a) != (b > 0) then None else Some(c)
  }

  lemma WrapRange(a: int64, b: int64)
    ensures Int64(a + b) ==> Wrap(a + b) == a + b
    ensures a + b >= TWO_63 ==> Wrap(a + b) == a + b - TWO_64
    ensures a + b < -TWO_63 ==> Wrap(a + b) == a + b + TWO_64
  {
  }

  // ---------------------------------------------------------------- what a list holds

  /** The amount of a denomination, by plain search. */
  function Amount(cs: seq<Coin>, d: bytes): int64
  {
    if cs == [] then 0 else if cs[0].denom == d then cs[0].amount else Amount(cs[1..], d)
  }

  predicate Above(d: bytes, cs: seq<Coin>)
  {
    forall i :: 0 <= i < |cs| ==> Less(d, cs[i].denom)
  }

  /** Strictly sorted by denomination. */
  predicate Sorted(cs: seq<Coin>)
  {
    cs != [] ==> Above(cs[0].denom, cs[1..]) && Sorted(cs[1..])
  }

  predicate NoZero(cs: seq<Coin>)
  {
    forall i :: 0 <= i < |cs| ==> cs[i].amount != 0
  }

  lemma {:induction false} AboveTransitive(a: bytes, b: bytes, cs: seq<Coin>)
    requires Less(a, b) && Above(b, cs)
    ensures Above(a, cs)
  {
    forall i | 0 <= i < |cs|
      ensures Less(a, cs[i].denom)
    {
      LessTransitive(a, b, cs[i].denom);
    }
  }

  lemma {:induction false} AboveIsAbsent(d: bytes, cs: seq<Coin>)
    requires Above(d, cs)
    ensures Amount(cs, d) == 0
  {
    if cs != [] {
      CompareTotal(d, cs[0].denom);
      AboveIsAbsent(d, cs[1..]);
    }
  }

  // ---------------------------------------------------------------- AmountOf

  /** AmountOf: binary search. */
  function AmountOf(cs: seq<Coin>, d: bytes): int64
    decreases |cs|
  {
    if |cs| == 0 then 0
    else if |cs| == 1 then (if cs[0].denom == d then cs[0].amount else 0)
    else
      var mid := |cs| / 2;
      if Less(d, cs[mid].denom) then AmountOf(cs[..mid], d)
      else if d == cs[mid].denom then cs[mid].amount
      else AmountOf(cs[mid + 1..], d)
  }

  lemma {:induction false} AmountSplit(a: seq<Coin>, b: seq<Coin>, d: bytes)
    requires Sorted(a + b)
    ensures Sorted(a) && Sorted(b)
    ensures Amount(a, d) == 0 ==> Amount(a + b, d) == Amount(b, d)
    ensures b != [] && Less(d, b[0].denom) ==> Amount(a + b, d) == Amount(a, d)
    ensures b != [] ==> forall i :: 0 <= i < |a| ==> Less(a[i].denom, b[0].denom)
  {
    if a == [] {
      assert a + b == b;
      if b != [] && Less(d, b[0].denom) {
        AboveTransitive(d, b[0].denom, b[1..]);
        AboveIsAbsent(d, b);
      }
    } else {
      assert (a + b)[1..] == a[1..] + b;
      AmountSplit(a[1..], b, d);
      assert forall i :: 0 <= i < |a[1..]| ==> (a + b)[1..][i] == a[1..][i];
      if b != [] {
        assert (a[1..] + b)[|a| - 1] == b[0];
      }
      if a[0].denom == d && a[0].amount == 0 {
        assert Amount(a, d) == 0;
        SkipHead(a, b, d);
      }
    }
  }

  lemma SkipHead(a: seq<Coin>, b: seq<Coin>, d: bytes)
    requires a != [] && Sorted(a + b) && a[0].denom == d && a[0].amount == 0
    ensures Amount(b, d) == 0
  {
    assert forall i :: 0 <= i < |b| ==> (a + b)[1..][|a| - 1 + i] == b[i];
    AboveIsAbsent(d, b);
  }

  /** On a sorted list, binary search finds what plain search finds. */
  lemma {:induction false} AmountOfIsAmount(cs: seq<Coin>, d: bytes)
    requires Sorted(cs)
    ensures AmountOf(cs, d) == Amount(cs, d)
    decreases |cs|
  {
    if |cs| == 1 {
      assert cs[1..] == [];
    } else if |cs| > 1 {
      var mid := |cs| / 2;
      var a, b := cs[..mid], cs[mid..];
      assert cs == a + b && b[1..] == cs[mid + 1..];
      AmountSplit(a, b, d);
      CompareTotal(d, b[0].denom);
      if Less(d, b[0].denom) {
        AmountOfIsAmount(a, d);
      } else {
        NotBelow(a, b[0].denom, d);
        if d != b[0].denom {
          AmountOfIsAmount(b[1..], d);
        }
      }
    }
  }

  lemma {:induction false} NotBelow(a: seq<Coin>, m: bytes, d: bytes)
    requires forall i :: 0 <= i < |a| ==> Less(a[i].denom, m)
    requires d == m || Less(m, d)
    ensures Amount(a, d) == 0
  {
    if a != [] {
      CompareTotal(a[0].denom, m);
      CompareTotal(m, d);
      NotBelow(a[1..], m, d);
      if Less(m, d) {
        LessTransitive(a[0].denom, m, d);
        CompareTotal(a[0].denom, d);
      }
    }
  }

  // ---------------------------------------------------------------- Plus

  function Consed(c: Coin, rest: Option<seq<Coin>>): Option<seq<Coin>>
  {
    if rest.None? then None else Some([c] + rest.value)
  }

  /** The merged sum, taken from the fronts of both lists. */
  function Sum(a: seq<Coin>, b: seq<Coin>): Option<seq<Coin>>
    decreases |a| + |b|
  {
    if a == [] then Some(b)
    else if b == [] then Some(a)
    else if Less(a[0].denom, b[0].denom) then Consed(a[0], Sum(a[1..], b))
    else if a[0].denom == b[0].denom then
      var s := SafePlus(a[0].amount, b[0].amount);
      if s.None? then None
      else if s.value == 0 then Sum(a[1..], b[1..])
      else Consed(Coin(a[0].denom, s.value), Sum(a[1..], b[1..]))
    else Consed(b[0], Sum(a, b[1..]))
  }

  function Prepend(front: seq<Coin>, rest: Option<seq<Coin>>): Option<seq<Coin>>
  {
    if rest.None? then None else Some(front + rest.value)
  }

  method Plus(a: seq<Coin>, b: seq<Coin>) returns (r: Option<seq<Coin>>)
    ensures r == Sum(a, b)
  {
    var sum: seq<Coin>, i, j := [], 0, 0;
    assert a[0..] == a && b[0..] == b;
    assert Sum(a, b).Some? ==> [] + Sum(a, b).value == Sum(a, b).value;
    while true
      invariant 0 <= i <= |a| && 0 <= j <= |b|
      invariant Sum(a, b) == Prepend(sum, Sum(a[i..], b[j..]))
      decreases |a| - i + |b| - j
    {
      if i == |a| {
        return Some(sum + b[j..]);
      } else if j == |b| {
        return Some(sum + a[i..]);
      }
      var x, y := a[i], b[j];
      assert a[i..][0] == x && a[i..][1..] == a[i + 1..];
      assert b[j..][0] == y && b[j..][1..] == b[j + 1..];
      CompareTotal(x.denom, y.denom);
      var cmp := Compare(x.denom, y.denom);
      if cmp == -1 {
        PrependStep(sum, x, Sum(a[i + 1..], b[j..]));
        sum, i := sum + [x], i + 1;
      } else if cmp == 0 {
        var s := SafePlus(x.amount, y.amount);
        if s == None {
          return None;
        }
        if s.value != 0 {
          PrependStep(sum, Coin(x.denom, s.value), Sum(a[i + 1..], b[j + 1..]));
          sum := sum + [Coin(x.denom, s.value)];
        }
        i, j := i + 1, j + 1;
      } else {
        PrependStep(sum, y, Sum(a[i..], b[j + 1..]));
        sum, j := sum + [y], j + 1;
      }
    }
  }

  lemma PrependStep(front: seq<Coin>, c: Coin, rest: Option<seq<Coin>>)
    ensures Prepend(front, Consed(c, rest)) == Prepend(front + [c], rest)
  {
    if rest.Some? {
      Assoc(front, [c], rest.value);
    }
  }

  lemma {:induction false} SumAbove(d: bytes, a: seq<Coin>, b: seq<Coin>)
    requires Above(d, a) && Above(d, b) && Sum(a, b).Some?
    ensures Above(d, Sum(a, b).value)
    decreases |a| + |b|
  {
    if a != [] && b != [] {
      if Less(a[0].denom, b[0].denom) {
        SumAbove(d, a[1..], b);
      } else if a[0].denom == b[0].denom {
        SumAbove(d, a[1..], b[1..]);
      } else {
        SumAbove(d, a, b[1..]);
      }
    }
  }

  /** On sorted lists Plus is the sum denomination by denomination, again sorted. */
  lemma {:induction false} SumIsPointwise(a: seq<Coin>, b: seq<Coin>)
    requires Sorted(a) && Sorted(b) && Sum(a, b).Some?
    ensures Sorted(Sum(a, b).value)
    ensures forall d :: Amount(Sum(a, b).value, d) == Amount(a, d) + Amount(b, d)
    decreases |a| + |b|
  {
    if a != [] && b != [] {
      CompareTotal(a[0].denom, b[0].denom);
      if Less(a[0].denom, b[0].denom) {
        SumIsPointwise(a[1..], b);
        AboveTransitive(a[0].denom, b[0].denom, b[1..]);
        FrontAmount(a[0].denom, b, a[1..], a[1..], b);
      } else if a[0].denom == b[0].denom {
        SumIsPointwise(a[1..], b[1..]);
        FrontAmount(a[0].denom, a[1..], b[1..], a[1..], b[1..]);
      } else {
        SumIsPointwise(a, b[1..]);
        AboveTransitive(b[0].denom, a[0].denom, a[1..]);
        FrontAmount(b[0].denom, a, b[1..], a, b[1..]);
      }
    }
  }

  /** A denomination below everything in the lists is in neither, nor in their sum. */
  lemma FrontAmount(d: bytes, x: seq<Coin>, y: seq<Coin>, a: seq<Coin>, b: seq<Coin>)
    requires Above(d, x) && Above(d, y) && Above(d, a) && Above(d, b) && Sum(a, b).Some?
    ensures Amount(x, d) == 0 && Amount(y, d) == 0 && Amount(Sum(a, b).value, d) == 0
    ensures Above(d, Sum(a, b).value)
    ensures forall c :: ([c] + Sum(a, b).value)[1..] == Sum(a, b).value
  {
    AboveIsAbsent(d, x);
    AboveIsAbsent(d, y);
    SumAbove(d, a, b);
    AboveIsAbsent(d, Sum(a, b).value);
  }

  /** Plus never makes a zero out of lists without zeros. */
  lemma {:induction false} SumNoZero(a: seq<Coin>, b: seq<Coin>)
    requires NoZero(a) && NoZero(b) && Sum(a, b).Some?
    ensures NoZero(Sum(a, b).value)
    decreases |a| + |b|
  {
    if a != [] && b != [] {
      if Less(a[0].denom, b[0].denom) {
        SumNoZero(a[1..], b);
      } else if a[0].denom == b[0].denom {
        SumNoZero(a[1..], b[1..]);
      } else {
        SumNoZero(a, b[1..]);
      }
    }
  }

  /** Plus panics only if some denomination really overflows. */
  lemma {:induction false} SumPanics(a: seq<Coin>, b: seq<Coin>) returns (d: bytes)
    requires Sorted(a) && Sorted(b) && Sum(a, b).None?
    ensures !Int64(Amount(a, d) + Amount(b, d))
    decreases |a| + |b|
  {
    CompareTotal(a[0].denom, b[0].denom);
    if Less(a[0].denom, b[0].denom) {
      d := SumPanics(a[1..], b);
      AboveTransitive(a[0].denom, b[0].denom, b[1..]);
      AboveIsAbsent(a[0].denom, b);
      AboveIsAbsent(a[0].denom, a[1..]);
    } else if a[0].denom == b[0].denom {
      d := a[0].denom;
      if SafePlus(a[0].amount, b[0].amount).Some? {
        d := SumPanics(a[1..], b[1..]);
        AboveIsAbsent(a[0].denom, a[1..]);
        AboveIsAbsent(a[0].denom, b[1..]);
      }
    } else {
      d := SumPanics(a, b[1..]);
      AboveTransitive(b[0].denom, a[0].denom, a[1..]);
      AboveIsAbsent(b[0].denom, a);
      AboveIsAbsent(b[0].denom, b[1..]);
    }
  }

  /** On sorted lists Plus panics exactly if some denomination's sum leaves 64 bits. */
  lemma PlusPanics(a: seq<Coin>, b: seq<Coin>)
    requires Sorted(a) && Sorted(b)
    ensures Sum(a, b).None? <==> exists d :: !Int64(Amount(a, d) + Amount(b, d))
  {
    if Sum(a, b).None? {
      var d := SumPanics(a, b);
    } else {
      SumIsPointwise(a, b);
      forall d
        ensures Int64(Amount(a, d) + Amount(b, d))
      {
        assert Amount(Sum(a, b).value, d) == Amount(a, d) + Amount(b, d);
      }
    }
  }

  // ---------------------------------------------------------------- Negative, Minus, IsGTE

  function Negated(cs: seq<Coin>): seq<Coin>
  {
    if cs == [] then [] else [Coin(cs[0].denom, Wrap(0 - cs[0].amount))] + Negated(cs[1..])
  }

  lemma NegatedStep(cs: seq<Coin>, i: nat)
    requires i < |cs|
    ensures Negated(cs[i..]) == [Coin(cs[i].denom, Wrap(0 - cs[i].amount))] + Negated(cs[i + 1..])
  {
    hide Wrap;
    assert cs[i..][1..] == cs[i + 1..];
  }

  /** Negative: the least int64 is its own negative. */
  method Negative(cs: seq<Coin>) returns (r: seq<Coin>)
    ensures r == Negated(cs)
  {
    r := [];
    assert cs[0..] == cs && cs[|cs|..] == [] && Negated([]) == [];
    hide Wrap, Negated;
    for i := 0 to |cs|
      invariant r + Negated(cs[i..]) == Negated(cs)
    {
      var c := Coin(cs[i].denom, Wrap(0 - cs[i].amount));
      NegatedStep(cs, i);
      Assoc(r, [c], Negated(cs[i + 1..]));
      r := r + [c];
    }
  }

  /** No amount is the least int64, so every amount has a negative. */
  predicate Negatable(cs: seq<Coin>)
  {
    forall i :: 0 <= i < |cs| ==> cs[i].amount != -TWO_63
  }

  lemma WrapNegative(x: int64)
    ensures Wrap(0 - x) == if x == -TWO_63 then x else 0 - x
  {
  }

  lemma {:induction false} NegatedCoins(cs: seq<Coin>)
    ensures |Negated(cs)| == |cs|
    ensures forall i :: 0 <= i < |cs| ==> Negated(cs)[i] == Coin(cs[i].denom, Wrap(0 - cs[i].amount))
  {
    hide Wrap;
    if cs != [] {
      NegatedCoins(cs[1..]);
    }
  }

  lemma {:induction false} NegatedAmount(cs: seq<Coin>, d: bytes)
    ensures Amount(Negated(cs), d) == Wrap(0 - Amount(cs, d))
  {
    WrapNegative(0);
    hide Wrap;
    if cs != [] {
      NegatedAmount(cs[1..], d);
      assert Negated(cs)[1..] == Negated(cs[1..]);
    }
  }

  lemma NegatedIsPointwise(cs: seq<Coin>)
    ensures forall d :: Amount(Negated(cs), d) == Wrap(0 - Amount(cs, d))
    ensures Sorted(cs) ==> Sorted(Negated(cs))
  {
    hide Wrap, Amount, Negated, Less;
    forall d
      ensures Amount(Negated(cs), d) == Wrap(0 - Amount(cs, d))
    {
      NegatedAmount(cs, d);
    }
    NegatedCoins(cs);
    SortedIsIncreasing(cs);
    SortedIsIncreasing(Negated(cs));
  }

  function Difference(a: seq<Coin>, b: seq<Coin>): Option<seq<Coin>>
  {
    Sum(a, Negated(b))
  }

  method Minus(a: seq<Coin>, b: seq<Coin>) returns (r: Option<seq<Coin>>)
    ensures r == Difference(a, b)
  {
    var n := Negative(b);
    r := Plus(a, n);
  }

  lemma DifferenceIsPointwise(a: seq<Coin>, b: seq<Coin>)
    requires Sorted(a) && Sorted(b) && Difference(a, b).Some?
    ensures Sorted(Difference(a, b).value)
    ensures forall d :: Amount(Difference(a, b).value, d) == Amount(a, d) + Wrap(0 - Amount(b, d))
    ensures NoZero(a) && NoZero(b) ==> NoZero(Difference(a, b).value)
  {
    NegatedIsPointwise(b);
    NegatedCoins(b);
    SumIsPointwise(a, Negated(b));
    if NoZero(a) && NoZero(b) {
      forall i | 0 <= i < |b|
        ensures Negated(b)[i].amount != 0
      {
        WrapNegative(b[i].amount);
      }
      SumNoZero(a, Negated(b));
    }
  }

  predicate NotNegative(cs: seq<Coin>)
  {
    forall i :: 0 <= i < |cs| ==> cs[i].amount >= 0
  }

  method IsNotNegative(cs: seq<Coin>) returns (r: bool)
    ensures r <==> NotNegative(cs)
  {
    for i := 0 to |cs|
      invariant NotNegative(cs[..i])
    {
      if cs[i].amount < 0 {
        return false;
      }
    }
    assert cs[..|cs|] == cs;
    return true;
  }

  lemma {:induction false} AmountInList(cs: seq<Coin>, d: bytes)
    ensures Amount(cs, d) == 0 || exists i :: 0 <= i < |cs| && cs[i].amount == Amount(cs, d)
  {
    if cs != [] && cs[0].denom != d {
      AmountInList(cs[1..], d);
      if Amount(cs, d) != 0 {
        var i :| 0 <= i < |cs[1..]| && cs[1..][i].amount == Amount(cs, d);
        assert cs[i + 1].amount == Amount(cs, d);
      }
    }
  }

  lemma {:induction false} AmountAt(cs: seq<Coin>, i: nat)
    requires Sorted(cs) && i < |cs|
    ensures Amount(cs, cs[i].denom) == cs[i].amount
  {
    if i > 0 {
      AmountAt(cs[1..], i - 1);
      assert cs[i] == cs[1..][i - 1];
      CompareTotal(cs[0].denom, cs[i].denom);
    }
  }

  /** At least as much of every denomination. */
  ghost predicate Covers(a: seq<Coin>, b: seq<Coin>)
  {
    forall d :: Amount(a, d) >= Amount(b, d)
  }

  /** A sorted list has no negative coin exactly if it holds no negative amount. */
  lemma NotNegativeIsPointwise(cs: seq<Coin>)
    requires Sorted(cs)
    ensures NotNegative(cs) <==> Covers(cs, [])
  {
    if NotNegative(cs) {
      forall d
        ensures Amount(cs, d) >= Amount([], d)
      {
        AmountInList(cs, d);
      }
    } else {
      var i :| 0 <= i < |cs| && cs[i].amount < 0;
      AmountAt(cs, i);
      assert Amount(cs, cs[i].denom) < Amount([], cs[i].denom);
    }
  }

  lemma NegatableIsPointwise(cs: seq<Coin>)
    requires Sorted(cs)
    ensures Negatable(cs) <==> forall d :: Amount(cs, d) != -TWO_63
  {
    if Negatable(cs) {
      forall d
        ensures Amount(cs, d) != -TWO_63
      {
        AmountInList(cs, d);
      }
    } else {
      var i :| 0 <= i < |cs| && cs[i].amount == -TWO_63;
      AmountAt(cs, i);
      assert Amount(cs, cs[i].denom) == -TWO_63;
    }
  }

  lemma DifferenceCovers(a: seq<Coin>, b: seq<Coin>)
    requires Sorted(a) && Sorted(b) && Difference(a, b).Some?
    ensures Covers(Difference(a, b).value, []) <==> Covers(a, b) && Negatable(b)
  {
    DifferenceIsPointwise(a, b);
    NegatableIsPointwise(b);
    hide Wrap, Sorted, Negated, Sum, Difference;
    var diff := Difference(a, b).value;
    if Negatable(b) && Covers(a, b) {
      forall d
        ensures Amount(diff, d) >= Amount([], d)
      {
        WrapNegative(Amount(b, d));
        assert Amount(a, d) >= Amount(b, d);
        assert Amount(b, d) != -TWO_63;
      }
    } else {
      var d :| Amount(b, d) == -TWO_63 || Amount(a, d) < Amount(b, d);
      WrapNegative(Amount(b, d));
      assert Amount(diff, d) < Amount([], d);
    }
  }

  /** Nothing is more than the least int64, but taking it away, which adds its negative, leaves it. */
  lemma LeastIsNotCovered(d: bytes)
    ensures var least := [Coin(d, -TWO_63)];
            Covers([], least) && Difference([], least) == Some(least)
  {
    var least := [Coin(d, -TWO_63)];
    NegatedCoins(least);
    assert Negated(least) == least;
  }

  /** On sorted lists Minus panics exactly if some amount less the wrapped negative of the other
      leaves 64 bits. */
  lemma MinusPanics(a: seq<Coin>, b: seq<Coin>)
    requires Sorted(a) && Sorted(b)
    ensures Difference(a, b).None? <==> exists d :: !Int64(Amount(a, d) + Wrap(0 - Amount(b, d)))
  {
    hide Sum, Negated, Amount, Wrap, Int64, Sorted;
    NegatedIsPointwise(b);
    PlusPanics(a, Negated(b));
    if Difference(a, b).None? {
      var d :| !Int64(Amount(a, d) + Amount(Negated(b), d));
      assert !Int64(Amount(a, d) + Wrap(0 - Amount(b, d)));
    } else {
      forall d
        ensures Int64(Amount(a, d) + Wrap(0 - Amount(b, d)))
      {
        assert Int64(Amount(a, d) + Amount(Negated(b), d));
      }
    }
  }

  /** The most there can be covers minus one, and minus one has a negative, and yet the comparison panics. */
  lemma MostPanics(d: bytes)
    ensures var most, minus := [Coin(d, TWO_63 - 1)], [Coin(d, -1)];
            Sorted(most) && Sorted(minus) && Covers(most, minus) && Negatable(minus) && Difference(most, minus).None?
  {
    var most, minus := [Coin(d, TWO_63 - 1)], [Coin(d, -1)];
    assert most[1..] == [] && minus[1..] == [];
    MinusPanics(most, minus);
    WrapNegative(-1);
    assert !Int64(Amount(most, d) + Wrap(0 - Amount(minus, d)));
  }

  /** IsGTE panics exactly if the difference leaves 64 bits somewhere, and is otherwise true exactly
      if there is at least as much of every denomination and the right side has no least int64. */
  method IsGTE(a: seq<Coin>, b: seq<Coin>) returns (r: Option<bool>)
    requires Sorted(a) && Sorted(b)
    ensures r.None? <==> Difference(a, b).None?
    ensures r.None? <==> exists d :: !Int64(Amount(a, d) + Wrap(0 - Amount(b, d)))
    ensures r.Some? ==> (r.value <==> Covers(a, b) && Negatable(b))
  {
    MinusPanics(a, b);
    var diff := Minus(a, b);
    if diff == None {
      return None;
    }
    DifferenceIsPointwise(a, b);
    DifferenceCovers(a, b);
    NotNegativeIsPointwise(diff.value);
    if |diff.value| == 0 {
      return Some(true);
    }
    var ok := IsNotNegative(diff.value);
    return Some(ok);
  }

  // ---------------------------------------------------------------- validity

  /** What IsValid accepts, although its comment says that no amount may be zero. */
  lemma ZeroFirst(c: bytes, d: bytes)
    requires Less(c, d)
    ensures var cs := [Coin(c, 0), Coin(d, 1)];
            Sorted(cs) && NoZero(cs[1..]) && !NoZero(cs)
  {
    var cs := [Coin(c, 0), Coin(d, 1)];
    assert cs[1..] == [Coin(d, 1)] && cs[1..][1..] == [];
    assert cs[0].amount == 0;
  }

  /** IsValid, on lists of two or more coins, does not look at the first amount. */
  method IsValid(cs: seq<Coin>) returns (r: bool)
    ensures r <==> Sorted(cs) && (if |cs| == 1 then NoZero(cs) else cs != [] ==> NoZero(cs[1..]))
  {
    if |cs| == 0 {
      return true;
    }
    if |cs| == 1 {
      assert cs[1..] == [] && Sorted(cs);
      return cs[0].amount != 0;
    }
    var low := cs[0].denom;
    for i := 1 to |cs|
      invariant low == cs[i - 1].denom
      invariant Increasing(cs[..i]) && NoZero(cs[1..i])
    {
      assert cs[..i + 1] == cs[..i] + [cs[i]];
      if !Less(low, cs[i].denom) {
        SortedIsIncreasing(cs);
        return false;
      }
      if cs[i].amount == 0 {
        assert cs[1..][i - 1].amount == 0;
        return false;
      }
      low := cs[i].denom;
    }
    assert cs[..|cs|] == cs;
    SortedIsIncreasing(cs);
    return true;
  }

  predicate Increasing(cs: seq<Coin>)
  {
    forall i :: 0 < i < |cs| ==> Less(cs[i - 1].denom, cs[i].denom)
  }

  lemma {:induction false} SortedIsIncreasing(cs: seq<Coin>)
    ensures Sorted(cs) <==> Increasing(cs)
  {
    if |cs| >= 2 {
      var t := cs[1..];
      SortedIsIncreasing(t);
      assert forall i :: 0 <= i < |t| ==> t[i] == cs[i + 1];
      if Sorted(cs) {
        assert Less(cs[0].denom, t[0].denom);
        forall i | 0 < i < |cs|
          ensures Less(cs[i - 1].denom, cs[i].denom)
        {
          if i > 1 {
            assert Less(t[i - 2].denom, t[i - 1].denom);
          }
        }
      }
      if Increasing(cs) {
        forall i | 0 < i < |t|
          ensures Less(t[i - 1].denom, t[i].denom)
        {
          assert Less(cs[i].denom, cs[i + 1].denom);
        }
        assert Less(cs[0].denom, cs[1].denom);
        AboveTransitive(cs[0].denom, t[0].denom, t[1..]);
      }
    }
  }

  predicate Positive(cs: seq<Coin>)
  {
    forall i :: 0 <= i < |cs| ==> cs[i].amount > 0
  }
}
