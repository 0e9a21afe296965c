/** types/decimal.go: fixed-point numbers with eight decimals in a 64-bit
    integer. A value is its raw integer; a panic is None. */
module Decimal {
  import opened Bytes
  import Coins

  type Dec = int64

  const K: int := 100_000_000

  function Checked(x: int): (r: Option<Dec>)
  {
    if Int64(x) then Some(x) else None
  }

  /** Add panics exactly if the sum does not fit. */
  function Add(a: Dec, b: Dec): (r: Option<Dec>)
    ensures r == Checked(a + b)
  {
    Coins.WrapRange(a, b);
    var c := Wrap(a + b);
    if (c > a) != (b > 0) then None else Some(c)
  }

  lemma WrapDifference(a: Dec, b: Dec)
    ensures Int64(a - b) ==> Wrap(a - b) == a - b
    ensures a - b >= TWO_63 ==> Wrap(a - b) == a - b - TWO_64
    ensures a - b < -TWO_63 ==> Wrap(a - b) == a - b + TWO_64
  {
  }

  /** Sub panics exactly if the difference does not fit. */
  function Sub(a: Dec, b: Dec): (r: Option<Dec>)
    ensures r == Checked(a - b)
  {
    WrapDifference(a, b);
    var c := Wrap(a - b);
    if (c < a) != (b > 0) then None else Some(c)
  }

  // ---------------------------------------------------------------- rounding

  /** chopPrecisionAndRound: drops eight digits and rounds what is left. */
  function Chop(d: int): int
    decreases d < 0
  {
    if d < 0 then 0 - Chop(0 - d)
    else
      var quo, rem := d / K, d % K;
      if rem == 0 then quo
      else if rem < K / 2 then quo
      else if rem > K / 2 then quo + 1
      else if quo % 2 == 0 then quo
      else quo + 1
  }

  function Abs(x: int): nat
  {
    if x < 0 then 0 - x else x
  }

  /** r is the integer nearest to d / K, the even one of two equally near. */
  predicate Nearest(d: int, r: int)
  {
    2 * Abs(K * r - d) < K || (2 * Abs(K * r - d) == K && r % 2 == 0)
  }

  lemma {:induction false} ChopIsNearest(d: int)
    ensures Nearest(d, Chop(d))
    decreases d < 0
  {
    if d < 0 {
      ChopIsNearest(0 - d);
    }
  }

  lemma NearestUnique(d: int, r: int, q: int)
    requires Nearest(d, r) && Nearest(d, q)
    ensures r == q
  {
  }

  /** Chop is rounding to nearest, ties to even. */
  lemma ChopExact(d: int, r: int)
    ensures Chop(d) == r <==> Nearest(d, r)
  {
    ChopIsNearest(d);
    if Nearest(d, r) {
      NearestUnique(d, r, Chop(d));
    }
  }

  // ---------------------------------------------------------------- Mul and Quo

  /** Mul panics exactly if the rounded product does not fit. */
  function Mul(a: Dec, b: Dec): Option<Dec>
  {
    Checked(Chop(a * b))
  }

  /** big.Int's Quo: truncates toward zero. */
  function TruncDiv(a: int, b: int): int
    requires b != 0
  {
    if (a < 0) == (b < 0) then Abs(a) / Abs(b) else 0 - Abs(a) / Abs(b)
  }

  function Quo(a: Dec, b: Dec): Option<Dec>
  {
    if b == 0 then None else Checked(Chop(TruncDiv(a * K * K, b)))
  }

  lemma MulExact(a: Dec, b: Dec, r: Dec)
    ensures Mul(a, b) == Some(r) <==> Nearest(a * b, r)
  {
    ChopExact(a * b, r);
  }

  lemma DivBounds(a: nat, b: nat)
    requires b > 0
    ensures (a / b) * b <= a < (a / b) * b + b
  {
  }

  lemma TruncDivNear(a: int, b: int)
    requires b != 0
    ensures Abs(TruncDiv(a, b) * b - a) < Abs(b)
  {
    DivBounds(Abs(a), Abs(b));
    var q := Abs(a) / Abs(b);
    assert q * Abs(b) == if b < 0 then (0 - q) * b else q * b;
  }

  /** Quo is within 1/2 + 1/K units of the exact quotient a * K / b; here with
      the denominators multiplied out. */
  lemma QuoNear(a: Dec, b: Dec)
    requires Quo(a, b).Some?
    ensures b != 0 && 2 * K * Abs(Quo(a, b).value * b - a * K) < (K + 2) * Abs(b)
  {
    var n := a * K * K;
    var q := TruncDiv(n, b);
    var r := Chop(q);
    TruncDivNear(n, b);
    ChopIsNearest(q);
    QuoArithmetic(a, b, q, r);
  }

  lemma QuoArithmetic(a: int, b: int, q: int, r: int)
    requires b != 0 && Abs(q * b - a * K * K) < Abs(b) && 2 * Abs(K * r - q) <= K
    ensures 2 * K * Abs(r * b - a * K) < (K + 2) * Abs(b)
  {
    var e, f, x := K * r - q, q * b - a * K * K, r * b - a * K;
    Expand(a, b, q, r);
    Product(e, b);
    var eb := e * b;
    assert K * x == eb + f;
    assert K * Abs(x) <= Abs(eb) + Abs(f);
  }

  lemma Expand(a: int, b: int, q: int, r: int)
    ensures K * (r * b - a * K) == (K * r - q) * b + (q * b - a * K * K)
  {
    assert (K * r - q) * b == K * (r * b) - q * b;
  }

  lemma Scale(x: int, y: int, z: nat)
    requires x <= y
    ensures x * z <= y * z
  {
  }

  lemma AbsProduct(e: int, b: int)
    ensures Abs(e * b) == Abs(e) * Abs(b)
  {
    assert (0 - e) * b == 0 - e * b;
    assert e * (0 - b) == 0 - e * b;
    assert (0 - e) * (0 - b) == e * b;
    if e >= 0 && b >= 0 {
      assert e * b >= 0;
    } else if e < 0 && b < 0 {
      assert (0 - e) * (0 - b) >= 0;
    } else if e < 0 {
      assert (0 - e) * b >= 0;
    } else {
      assert e * (0 - b) >= 0;
    }
  }

  lemma Product(e: int, b: int)
    requires 2 * Abs(e) <= K
    ensures 2 * Abs(e * b) <= K * Abs(b)
  {
    AbsProduct(e, b);
    Scale(2 * Abs(e), K, Abs(b));
    assert 2 * Abs(e) * Abs(b) == 2 * (Abs(e) * Abs(b));
  }
}
