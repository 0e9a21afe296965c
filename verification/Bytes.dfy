/** Byte strings, the machine integers the source uses, minimal big-endian
    integers, and the byte-wise lexicographic order of Go's bytes.Compare. */
module Bytes {

  /** A value, or Go's nil. */
  datatype Option<+T> = None | Some(value: T)

  type byte = x: int | 0 <= x < 256

  type bytes = seq<byte>

  const TWO_64: int := 0x1_0000_0000_0000_0000

  type uint64 = x: int | 0 <= x < 0x1_0000_0000_0000_0000

  const TWO_63: int := 0x8000_0000_0000_0000

  type int64 = x: int | -0x8000_0000_0000_0000 <= x < 0x8000_0000_0000_0000

  predicate Int64(x: int)
  {
    -TWO_63 <= x < TWO_63
  }

  /** Two's complement truncation to 64 bits: what Go's `+` and `-` on int64 do. */
  function Wrap(x: int): (r: int64)
    ensures -TWO_63 <= x < TWO_63 ==> r == x
  {
    (x + TWO_63) % TWO_64 - TWO_63
  }

  /** Concatenation groups either way; stated because the verifier does not look for it. */
  lemma Assoc<T>(a: seq<T>, b: seq<T>, c: seq<T>)
    ensures a + b + c == a + (b + c)
  {
  }

  // ---------------------------------------------------------------- big endian

  /** The shortest big-endian form of n; empty for zero. */
  function BigEndian(n: nat): (bs: bytes)
    ensures bs == [] <==> n == 0
    ensures bs != [] ==> bs[0] != 0
  {
    if n == 0 then [] else BigEndian(n / 256) + [n % 256]
  }

  /** The number a big-endian byte string denotes. */
  function FromBigEndian(bs: bytes): nat
  {
    if bs == [] then 0 else FromBigEndian(bs[..|bs| - 1]) * 256 + bs[|bs| - 1]
  }

  function Pow256(k: nat): (r: nat)
    ensures r >= 1
  {
    if k == 0 then 1 else 256 * Pow256(k - 1)
  }

  lemma {:induction false} BigEndianInverse(n: nat)
    ensures FromBigEndian(BigEndian(n)) == n
  {
    if n != 0 {
      BigEndianInverse(n / 256);
      var bs := BigEndian(n);
      assert bs[..|bs| - 1] == BigEndian(n / 256);
    }
  }

  /** A byte string without leading zero is the shortest form of its number. */
  lemma {:induction false} FromBigEndianInverse(bs: bytes)
    requires bs != [] ==> bs[0] != 0
    ensures BigEndian(FromBigEndian(bs)) == bs
  {
    if bs != [] {
      var front := bs[..|bs| - 1];
      FromBigEndianInverse(front);
      if front != [] {
        assert FromBigEndian(front) != 0;
      }
      assert bs == front + [bs[|bs| - 1]];
      var n := FromBigEndian(bs);
      assert n / 256 == FromBigEndian(front) && n % 256 == bs[|bs| - 1];
    }
  }

  lemma {:induction false} FromBigEndianBound(bs: bytes)
    ensures FromBigEndian(bs) < Pow256(|bs|)
  {
    if bs != [] {
      FromBigEndianBound(bs[..|bs| - 1]);
    }
  }

  lemma {:induction false} BigEndianLength(n: nat, k: nat)
    ensures |BigEndian(n)| <= k <==> n < Pow256(k)
  {
    if n != 0 && k != 0 {
      BigEndianLength(n / 256, k - 1);
    }
  }

  lemma {:induction false} Pow256Monotone(j: nat, k: nat)
    requires j <= k
    ensures Pow256(j) <= Pow256(k)
  {
    if j < k {
      Pow256Monotone(j, k - 1);
    }
  }

  lemma {:induction false} Pow256Values()
    ensures Pow256(1) == 256 && Pow256(2) == 0x1_0000 && Pow256(3) == 0x100_0000
    ensures Pow256(4) == 0x1_0000_0000 && Pow256(5) == 0x100_0000_0000
    ensures Pow256(6) == 0x1_0000_0000_0000 && Pow256(7) == 0x100_0000_0000_0000
    ensures Pow256(8) == TWO_64
  {
    assert Pow256(1) == 256 * Pow256(0);
    assert Pow256(2) == 256 * Pow256(1);
    assert Pow256(3) == 256 * Pow256(2);
    assert Pow256(4) == 256 * Pow256(3);
    assert Pow256(5) == 256 * Pow256(4);
    assert Pow256(6) == 256 * Pow256(5);
    assert Pow256(7) == 256 * Pow256(6);
    assert Pow256(8) == 256 * Pow256(7);
  }

  /** Eight bytes suffice exactly for the numbers a uint64 holds. */
  lemma BigEndianUint64(n: nat)
    ensures |BigEndian(n)| <= 8 <==> n < TWO_64
    ensures n != 0 ==> |BigEndian(n)| >= 1
  {
    Pow256Values();
    BigEndianLength(n, 8);
  }

  // ---------------------------------------------------------------- order

  /** bytes.Compare(a, b) < 0, also Go's `<` on strings. */
  predicate Less(a: bytes, b: bytes)
  {
    b != [] && (a == [] || a[0] < b[0] || (a[0] == b[0] && Less(a[1..], b[1..])))
  }

  predicate LessEq(a: bytes, b: bytes)
  {
    a == b || Less(a, b)
  }

  /** bytes.Compare: -1, 0 or 1. */
  function Compare(a: bytes, b: bytes): (r: int)
    ensures r == 0 <==> a == b
    ensures r == -1 <==> Less(a, b)
    ensures r == 1 <==> Less(b, a)
    ensures -1 <= r <= 1
  {
    CompareTotal(a, b);
    if a == b then 0 else if Less(a, b) then -1 else 1
  }

  lemma {:induction false} CompareTotal(a: bytes, b: bytes)
    ensures Less(a, b) ==> a != b && !Less(b, a)
    ensures a != b ==> Less(a, b) || Less(b, a)
  {
    if a != [] && b != [] && a[0] == b[0] {
      CompareTotal(a[1..], b[1..]);
      assert a == [a[0]] + a[1..];
      assert b == [b[0]] + b[1..];
    }
  }

  lemma {:induction false} LessTransitive(a: bytes, b: bytes, c: bytes)
    requires Less(a, b) && Less(b, c)
    ensures Less(a, c)
  {
    if a != [] && a[0] == b[0] && b[0] == c[0] {
      LessTransitive(a[1..], b[1..], c[1..]);
    }
  }

  /** A common prefix does not change the order. */
  lemma {:induction false} LessCommonPrefix(p: bytes, a: bytes, b: bytes)
    ensures Less(p + a, p + b) <==> Less(a, b)
  {
    if p == [] {
      assert p + a == a && p + b == b;
    } else {
      assert (p + a)[1..] == p[1..] + a;
      assert (p + b)[1..] == p[1..] + b;
      LessCommonPrefix(p[1..], a, b);
    }
  }
}
