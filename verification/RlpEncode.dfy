/** bsc/rlp/encode.go: the encoder that keeps list headers beside a flat string
    buffer, fills in their sizes when a list closes, and splices them on output. */
module RlpEncode {
  import opened Bytes
  import opened Rlp

  // ---------------------------------------------------------------- integers

  /** The digits of a size, or of an integer value, as putint writes them. */
  function Digits(i: nat): bytes
  {
    if i == 0 then [0] else BigEndian(i)
  }

  lemma DigitStep(i: nat)
    requires i >= 256
    ensures Digits(i) == Digits(i / 256) + [i % 256]
  {
  }

  /** Shifting right by whole bytes, one byte at a time. */
  lemma Shifts(i: nat)
    ensures i / 0x100 / 0x100 == i / 0x1_0000
    ensures i / 0x1_0000 / 0x100 == i / 0x100_0000
    ensures i / 0x100_0000 / 0x100 == i / 0x1_0000_0000
    ensures i / 0x1_0000_0000 / 0x100 == i / 0x100_0000_0000
    ensures i / 0x100_0000_0000 / 0x100 == i / 0x1_0000_0000_0000
    ensures i / 0x1_0000_0000_0000 / 0x100 == i / 0x100_0000_0000_0000
  {
  }

  lemma Digits1(i: uint64)
    requires i < 0x100
    ensures Digits(i) == [i % 256]
  {
  }

  lemma Digits2(i: uint64)
    requires 0x100 <= i < 0x1_0000
    ensures Digits(i) == [i / 0x100 % 256, i % 256]
  {
    Shifts(i);
    DigitStep(i);
  }

  lemma Digits3(i: uint64)
    requires 0x1_0000 <= i < 0x100_0000
    ensures Digits(i) == [i / 0x1_0000 % 256, i / 0x100 % 256, i % 256]
  {
    Shifts(i);
    DigitStep(i);
    DigitStep(i / 0x100);
  }

  lemma Digits4(i: uint64)
    requires 0x100_0000 <= i < 0x1_0000_0000
    ensures Digits(i) == [i / 0x100_0000 % 256, i / 0x1_0000 % 256, i / 0x100 % 256, i % 256]
  {
    Shifts(i);
    DigitStep(i);
    DigitStep(i / 0x100);
    DigitStep(i / 0x1_0000);
  }

  lemma Digits5(i: uint64)
    requires 0x1_0000_0000 <= i < 0x100_0000_0000
    ensures Digits(i) == [i / 0x1_0000_0000 % 256, i / 0x100_0000 % 256, i / 0x1_0000 % 256, i / 0x100 % 256, i % 256]
  {
    Shifts(i);
    DigitStep(i);
    DigitStep(i / 0x100);
    DigitStep(i / 0x1_0000);
    DigitStep(i / 0x100_0000);
  }

  lemma Digits6(i: uint64)
    requires 0x100_0000_0000 <= i < 0x1_0000_0000_0000
    ensures Digits(i) == [i / 0x100_0000_0000 % 256, i / 0x1_0000_0000 % 256, i / 0x100_0000 % 256, i / 0x1_0000 % 256, i / 0x100 % 256, i % 256]
  {
    Shifts(i);
    DigitStep(i);
    DigitStep(i / 0x100);
    DigitStep(i / 0x1_0000);
    DigitStep(i / 0x100_0000);
    DigitStep(i / 0x1_0000_0000);
  }

  lemma Digits7(i: uint64)
    requires 0x1_0000_0000_0000 <= i < 0x100_0000_0000_0000
    ensures Digits(i) == [i / 0x1_0000_0000_0000 % 256, i / 0x100_0000_0000 % 256, i / 0x1_0000_0000 % 256, i / 0x100_0000 % 256, i / 0x1_0000 % 256, i / 0x100 % 256, i % 256]
  {
    Shifts(i);
    DigitStep(i);
    DigitStep(i / 0x100);
    DigitStep(i / 0x1_0000);
    DigitStep(i / 0x100_0000);
    DigitStep(i / 0x1_0000_0000);
    DigitStep(i / 0x100_0000_0000);
  }

  lemma Digits8(i: uint64)
    requires 0x100_0000_0000_0000 <= i
    ensures Digits(i) == [i / 0x100_0000_0000_0000 % 256, i / 0x1_0000_0000_0000 % 256, i / 0x100_0000_0000 % 256, i / 0x1_0000_0000 % 256, i / 0x100_0000 % 256, i / 0x1_0000 % 256, i / 0x100 % 256, i % 256]
  {
    Shifts(i);
    DigitStep(i);
    DigitStep(i / 0x100);
    DigitStep(i / 0x1_0000);
    DigitStep(i / 0x100_0000);
    DigitStep(i / 0x1_0000_0000);
    DigitStep(i / 0x100_0000_0000);
    DigitStep(i / 0x1_0000_0000_0000);
  }

  /** putint: writes i at b[at..], most significant byte first, in the fewest bytes. */
  method PutInt(b: array<byte>, at: nat, i: uint64) returns (size: nat)
    requires at + |Digits(i)| <= b.Length
    modifies b
    ensures size == |Digits(i)|
    ensures forall j :: 0 <= j < size ==> b[at + j] == Digits(i)[j]
    ensures forall j :: 0 <= j < b.Length && !(at <= j < at + size) ==> b[j] == old(b[j])
  {
    if i < 0x100 {
      Digits1(i);
      b[at] :=
        i % 256;
      size := 1;
    } else if i < 0x1_0000 {
      Digits2(i);
      b[at], b[at + 1] :=
        i / 0x100 % 256, i % 256;
      size := 2;
    } else if i < 0x100_0000 {
      Digits3(i);
      b[at], b[at + 1], b[at + 2] :=
        i / 0x1_0000 % 256, i / 0x100 % 256, i % 256;
      size := 3;
    } else if i < 0x1_0000_0000 {
      Digits4(i);
      b[at], b[at + 1], b[at + 2], b[at + 3] :=
        i / 0x100_0000 % 256, i / 0x1_0000 % 256, i / 0x100 % 256, i % 256;
      size := 4;
    } else if i < 0x100_0000_0000 {
      Digits5(i);
      b[at], b[at + 1], b[at + 2], b[at + 3], b[at + 4] :=
        i / 0x1_0000_0000 % 256, i / 0x100_0000 % 256, i / 0x1_0000 % 256, i / 0x100 % 256, i % 256;
      size := 5;
    } else if i < 0x1_0000_0000_0000 {
      Digits6(i);
      b[at], b[at + 1], b[at + 2], b[at + 3], b[at + 4], b[at + 5] :=
        i / 0x100_0000_0000 % 256, i / 0x1_0000_0000 % 256, i / 0x100_0000 % 256, i / 0x1_0000 % 256, i / 0x100 % 256, i % 256;
      size := 6;
    } else if i < 0x100_0000_0000_0000 {
      Digits7(i);
      b[at], b[at + 1], b[at + 2], b[at + 3], b[at + 4], b[at + 5], b[at + 6] :=
        i / 0x1_0000_0000_0000 % 256, i / 0x100_0000_0000 % 256, i / 0x1_0000_0000 % 256, i / 0x100_0000 % 256, i / 0x1_0000 % 256, i / 0x100 % 256, i % 256;
      size := 7;
    } else {
      Digits8(i);
      b[at], b[at + 1], b[at + 2], b[at + 3], b[at + 4], b[at + 5], b[at + 6], b[at + 7] :=
        i / 0x100_0000_0000_0000 % 256, i / 0x1_0000_0000_0000 % 256, i / 0x100_0000_0000 % 256, i / 0x1_0000_0000 % 256, i / 0x100_0000 % 256, i / 0x1_0000 % 256, i / 0x100 % 256, i % 256;
      size := 8;
    }
  }

  /** intsize: the least number of bytes that hold i. */
  method IntSize(i: uint64) returns (size: nat)
    ensures size == |Digits(i)|
    ensures 1 <= size <= 8
  {
    size := 1;
    var rest: nat := i / 256;
    BigEndianUint64(i);
    while rest != 0
      invariant 1 <= size
      invariant rest == 0 ==> size == |Digits(i)|
      invariant rest != 0 ==> |Digits(i)| == size + |BigEndian(rest)|
      decreases rest
    {
      rest := rest / 256;
      size := size + 1;
    }
  }

  // ---------------------------------------------------------------- what the buffer holds

  /** A closed list header: where it belongs in the string data, and its content size. */
  datatype Head = Head(offset: nat, size: nat)

  /** The bytes of one item without its list headers. */
  function Flat(item: Item): bytes
    decreases item, 1
  {
    match item
    case Str(b) => Encode(item)
    case List(xs) => FlatAll(xs)
  }

  function FlatAll(xs: seq<Item>): bytes
    decreases xs, 0
  {
    if xs == [] then [] else Flat(xs[0]) + FlatAll(xs[1..])
  }

  /** The list headers of one item whose string data starts at offset. */
  function HeadsOf(item: Item, offset: nat): seq<Head>
    decreases item, 1
  {
    match item
    case Str(_) => []
    case List(xs) => [Head(offset, |EncodeAll(xs)|)] + HeadsOfAll(xs, offset)
  }

  function HeadsOfAll(xs: seq<Item>, offset: nat): seq<Head>
    decreases xs, 0
  {
    if xs == [] then []
    else HeadsOf(xs[0], offset) + HeadsOfAll(xs[1..], offset + |Flat(xs[0])|)
  }

  function HeadBytes(heads: seq<Head>): nat
  {
    if heads == [] then 0 else |Header(LIST_BASE, heads[0].size)| + HeadBytes(heads[1..])
  }

  lemma {:induction false} HeadBytesAppend(a: seq<Head>, b: seq<Head>)
    ensures HeadBytes(a + b) == HeadBytes(a) + HeadBytes(b)
  {
    if a == [] {
      assert a + b == b;
    } else {
      assert (a + b)[1..] == a[1..] + b;
      HeadBytesAppend(a[1..], b);
    }
  }

  /** String data and headers together make up the encoding's length. */
  lemma {:induction false} SizeOf(item: Item, offset: nat)
    ensures |Flat(item)| + HeadBytes(HeadsOf(item, offset)) == |Encode(item)|
    decreases item, 1
  {
    match item
    case Str(_) =>
    case List(xs) =>
      SizeOfAll(xs, offset);
      assert HeadsOf(item, offset)[1..] == HeadsOfAll(xs, offset);
  }

  lemma {:induction false} SizeOfAll(xs: seq<Item>, offset: nat)
    ensures |FlatAll(xs)| + HeadBytes(HeadsOfAll(xs, offset)) == |EncodeAll(xs)|
    decreases xs, 0
  {
    if xs == [] {
      assert HeadsOfAll(xs, offset) == [];
    } else {
      var x, rest, mid := xs[0], xs[1..], offset + |Flat(xs[0])|;
      SizeOf(x, offset);
      SizeOfAll(rest, mid);
      HeadBytesAppend(HeadsOf(x, offset), HeadsOfAll(rest, mid));
      assert HeadsOfAll(xs, offset) == HeadsOf(x, offset) + HeadsOfAll(rest, mid);
    }
  }

  lemma {:induction false} FlatAllSnoc(xs: seq<Item>, x: Item, offset: nat)
    ensures FlatAll(xs + [x]) == FlatAll(xs) + Flat(x)
    ensures HeadsOfAll(xs + [x], offset) == HeadsOfAll(xs, offset) + HeadsOf(x, offset + |FlatAll(xs)|)
  {
    if xs == [] {
      assert xs + [x] == [x] && [x][1..] == [];
    } else {
      assert (xs + [x])[1..] == xs[1..] + [x];
      var mid := offset + |Flat(xs[0])|;
      FlatAllSnoc(xs[1..], x, mid);
      Assoc(Flat(xs[0]), FlatAll(xs[1..]), Flat(x));
      Assoc(HeadsOf(xs[0], offset), HeadsOfAll(xs[1..], mid), HeadsOf(x, offset + |FlatAll(xs)|));
    }
  }

  // ---------------------------------------------------------------- splicing

  /** Headers lie in order between lo and hi, and each has an encoding. */
  predicate Ordered(heads: seq<Head>, lo: nat, hi: nat)
  {
    if heads == [] then lo <= hi
    else lo <= heads[0].offset && heads[0].size < TWO_64 && Ordered(heads[1..], heads[0].offset, hi)
  }

  /** String data that starts at position `from`, with every header put in its place. */
  function Splice(data: bytes, from: nat, heads: seq<Head>): bytes
  {
    if heads == [] || !(from <= heads[0].offset <= from + |data|) then data
    else
      var n := heads[0].offset - from;
      data[..n] + (Header(LIST_BASE, heads[0].size) + Splice(data[n..], heads[0].offset, heads[1..]))
  }

  lemma {:induction false} OrderedRange(heads: seq<Head>, lo: nat, hi: nat)
    requires Ordered(heads, lo, hi)
    ensures lo <= hi
    ensures heads != [] ==> lo <= heads[0].offset <= hi
  {
    if heads != [] {
      OrderedRange(heads[1..], heads[0].offset, hi);
    }
  }

  lemma {:induction false} OrderedAppend(a: seq<Head>, b: seq<Head>, lo: nat, mid: nat, hi: nat)
    requires Ordered(a, lo, mid) && Ordered(b, mid, hi)
    ensures Ordered(a + b, lo, hi)
  {
    if a == [] {
      assert a + b == b;
      if b == [] {
      }
    } else {
      assert (a + b)[1..] == a[1..] + b;
      OrderedAppend(a[1..], b, a[0].offset, mid, hi);
    }
  }

  lemma {:induction false} OrderedItem(item: Item, offset: nat)
    requires Encodable(item)
    ensures Ordered(HeadsOf(item, offset), offset, offset + |Flat(item)|)
    decreases item, 1
  {
    match item
    case Str(_) =>
    case List(xs) =>
      OrderedAll(xs, offset);
      assert HeadsOf(item, offset)[1..] == HeadsOfAll(xs, offset);
  }

  lemma {:induction false} OrderedAll(xs: seq<Item>, offset: nat)
    requires AllEncodable(xs)
    ensures Ordered(HeadsOfAll(xs, offset), offset, offset + |FlatAll(xs)|)
    decreases xs, 0
  {
    if xs != [] {
      var mid := offset + |Flat(xs[0])|;
      OrderedItem(xs[0], offset);
      OrderedAll(xs[1..], mid);
      OrderedAppend(HeadsOf(xs[0], offset), HeadsOfAll(xs[1..], mid), offset, mid, offset + |FlatAll(xs)|);
    }
  }

  predicate StartsAt(heads: seq<Head>, from: nat)
  {
    heads != [] ==> from <= heads[0].offset
  }

  /** Plain string data before the next header is copied through. */
  lemma {:induction false} SpliceSkip(plain: bytes, data: bytes, from: nat, heads: seq<Head>)
    requires StartsAt(heads, from + |plain|)
    ensures Splice(plain + data, from, heads) == plain + Splice(data, from + |plain|, heads)
  {
    if heads != [] && heads[0].offset <= from + |plain| + |data| {
      var n := heads[0].offset - from;
      assert (plain + data)[..n] == plain + data[..n - |plain|];
      assert (plain + data)[n..] == data[n - |plain|..];
    }
  }

  /** A header at the current position comes out first. */
  lemma {:induction false} SpliceHere(data: bytes, from: nat, payload: bytes,
                                      heads: seq<Head>, after: seq<Head>, rest: bytes)
    requires Splice(data, from, heads + after) == payload + rest
    ensures Splice(data, from, [Head(from, |payload|)] + heads + after)
            == Header(LIST_BASE, |payload|) + payload + rest
  {
    var all := [Head(from, |payload|)] + heads + after;
    assert all[1..] == heads + after;
    assert data[..0] == [] && data[0..] == data;
    Assoc(Header(LIST_BASE, |payload|), payload, rest);
  }

  lemma {:induction false} HeadsStart(xs: seq<Item>, from: nat)
    ensures StartsAt(HeadsOfAll(xs, from), from)
  {
    if xs != [] {
      HeadsStart(xs[1..], from + |Flat(xs[0])|);
    }
  }

  /** Splicing an item's headers into its string data gives its encoding, whatever follows. */
  lemma {:induction false} SpliceItem(item: Item, data: bytes, from: nat, after: seq<Head>)
    requires StartsAt(after, from + |Flat(item)|)
    ensures Splice(Flat(item) + data, from, HeadsOf(item, from) + after)
            == Encode(item) + Splice(data, from + |Flat(item)|, after)
    decreases item, 1
  {
    hide Header;
    match item
    case Str(_) =>
      assert HeadsOf(item, from) + after == after;
      SpliceSkip(Flat(item), data, from, after);
    case List(xs) =>
      SpliceAll(xs, data, from, after);
      SpliceHere(FlatAll(xs) + data, from, EncodeAll(xs), HeadsOfAll(xs, from), after,
                 Splice(data, from + |FlatAll(xs)|, after));
  }

  lemma {:induction false} SpliceAll(xs: seq<Item>, data: bytes, from: nat, after: seq<Head>)
    requires StartsAt(after, from + |FlatAll(xs)|)
    ensures Splice(FlatAll(xs) + data, from, HeadsOfAll(xs, from) + after)
            == EncodeAll(xs) + Splice(data, from + |FlatAll(xs)|, after)
    decreases xs, 1
  {
    if xs == [] {
      var t := Splice(data, from, after);
      assert HeadsOfAll(xs, from) + after == after;
      assert FlatAll(xs) + data == data;
      assert EncodeAll(xs) + t == t;
    } else {
      SpliceCons(xs, data, from, after);
    }
  }

  lemma {:induction false} SpliceCons(xs: seq<Item>, data: bytes, from: nat, after: seq<Head>)
    requires xs != [] && StartsAt(after, from + |FlatAll(xs)|)
    ensures var x, ys, mid := xs[0], xs[1..], from + |Flat(xs[0])|;
            Splice(Flat(x) + FlatAll(ys) + data, from, HeadsOf(x, from) + HeadsOfAll(ys, mid) + after)
            == Encode(x) + EncodeAll(ys) + Splice(data, from + |FlatAll(xs)|, after)
    decreases xs, 0
  {
    hide Header, Splice, Encode, EncodeAll, HeadsOf, Flat;
    var x, ys, mid := xs[0], xs[1..], from + |Flat(xs[0])|;
    var end := from + |FlatAll(xs)|;
    var rest := Splice(data, end, after);
    assert end == mid + |FlatAll(ys)|;
    assert Splice(Flat(x) + (FlatAll(ys) + data), from, HeadsOf(x, from) + (HeadsOfAll(ys, mid) + after))
           == Encode(x) + (EncodeAll(ys) + rest) by {
      SpliceAll(ys, data, mid, after);
      HeadsStart(ys, mid);
      SpliceItem(x, FlatAll(ys) + data, from, HeadsOfAll(ys, mid) + after);
    }
    Regroup(Flat(x), FlatAll(ys), data, from, HeadsOf(x, from), HeadsOfAll(ys, mid), after,
            Encode(x), EncodeAll(ys), rest);
  }

  lemma Regroup(fx: bytes, fy: bytes, data: bytes, from: nat,
                hx: seq<Head>, hy: seq<Head>, after: seq<Head>, ex: bytes, ey: bytes, rest: bytes)
    requires Splice(fx + (fy + data), from, hx + (hy + after)) == ex + (ey + rest)
    ensures Splice(fx + fy + data, from, hx + hy + after) == ex + ey + rest
  {
    assert fx + fy + data == fx + (fy + data);
    assert hx + hy + after == hx + (hy + after);
  }

  /** A buffer holding exactly one item splices to that item's encoding. */
  lemma SpliceWhole(item: Item)
    ensures Splice(Flat(item), 0, HeadsOf(item, 0)) == Encode(item)
  {
    SpliceItem(item, [], 0, []);
    assert HeadsOf(item, 0) + [] == HeadsOf(item, 0);
    assert Flat(item) + [] == Flat(item);
  }

  lemma {:induction false} SpliceLength(data: bytes, from: nat, heads: seq<Head>)
    requires Ordered(heads, from, from + |data|)
    ensures |Splice(data, from, heads)| == |data| + HeadBytes(heads)
  {
    if heads != [] {
      OrderedRange(heads, from, from + |data|);
      SpliceLength(data[heads[0].offset - from..], heads[0].offset, heads[1..]);
    }
  }

  /** One header further: the string data before it, the header, and the rest. */
  lemma {:induction false} SpliceNext(str: bytes, pos: nat, heads: seq<Head>)
    requires heads != [] && Ordered(heads, pos, |str|)
    ensures pos <= heads[0].offset <= |str|
    ensures Splice(str[pos..], pos, heads) == str[pos..heads[0].offset]
            + (Header(LIST_BASE, heads[0].size) + Splice(str[heads[0].offset..], heads[0].offset, heads[1..]))
  {
    OrderedRange(heads, pos, |str|);
    var n := heads[0].offset - pos;
    assert str[pos..][..n] == str[pos..heads[0].offset];
    assert str[pos..][n..] == str[heads[0].offset..];
  }

  /** The next piece is the string data before the next header or, if there is none, the header. */
  lemma {:induction false} NextPiece(str: bytes, pos: nat, lheads: seq<Head>, i: nat)
    requires i < |lheads| && Ordered(lheads[i..], pos, |str|)
    ensures pos <= lheads[i].offset <= |str| && lheads[i].size < TWO_64
    ensures var off := lheads[i].offset;
            Ordered(lheads[i..], off, |str|) && Ordered(lheads[i + 1..], off, |str|)
            && Splice(str[pos..], pos, lheads[i..]) == str[pos..off] + Splice(str[off..], off, lheads[i..])
            && Splice(str[off..], off, lheads[i..])
               == Header(LIST_BASE, lheads[i].size) + Splice(str[off..], off, lheads[i + 1..])
  {
    var heads, off := lheads[i..], lheads[i].offset;
    assert heads[0] == lheads[i] && heads[1..] == lheads[i + 1..];
    OrderedRange(heads, pos, |str|);
    assert str[pos..] == str[pos..off] + str[off..];
    SpliceSkip(str[pos..off], str[off..], pos, heads);
    SpliceFirst(str[off..], off, heads);
  }

  lemma SpliceEnd(str: bytes, pos: nat)
    requires pos <= |str|
    ensures Splice(str[pos..], pos, []) == str[pos..]
    ensures Splice(str[|str|..], |str|, []) == []
    ensures Ordered([], |str|, |str|)
  {
  }

  lemma {:induction false} SpliceFirst(data: bytes, from: nat, heads: seq<Head>)
    requires heads != [] && heads[0].offset == from
    ensures Splice(data, from, heads) == Header(LIST_BASE, heads[0].size) + Splice(data, from, heads[1..])
  {
    assert data[..0] == [] && data[0..] == data;
  }

  // ---------------------------------------------------------------- the buffer

  /** puthead: a string or list header at buf[at..]. */
  method PutHead(buf: array<byte>, at: nat, base: int, size: uint64) returns (n: nat)
    requires base == STRING_BASE || base == LIST_BASE
    requires at + |Header(base, size)| <= buf.Length
    modifies buf
    ensures n == |Header(base, size)|
    ensures forall j :: 0 <= j < n ==> buf[at + j] == Header(base, size)[j]
    ensures forall j :: 0 <= j < buf.Length && !(at <= j < at + n) ==> buf[j] == old(buf[j])
  {
    if size < 56 {
      buf[at] := base + size;
      return 1;
    }
    BigEndianUint64(size);
    var sizesize := PutInt(buf, at + 1, size);
    buf[at] := base + 55 + sizesize;
    return sizesize + 1;
  }

  class EncBuf {
    var str: bytes
    var lheads: seq<Head>
    var lhsize: nat
    const sizebuf: array<byte>

    constructor ()
      ensures str == [] && lheads == [] && lhsize == 0
      ensures fresh(sizebuf) && sizebuf.Length == 9
    {
      str, lheads, lhsize := [], [], 0;
      sizebuf := new byte[9];
    }

    function Size(): nat
      reads this
    {
      |str| + lhsize
    }

    method EncodeString(b: bytes)
      requires |b| < TWO_64 && sizebuf.Length == 9
      modifies this`str, sizebuf
      ensures str == old(str) + Encode(Str(b))
    {
      if |b| == 1 && b[0] <= 0x7F {
        str := str + [b[0]];
      } else {
        EncodeStringHeader(|b|);
        str := str + b;
      }
    }

    method EncodeStringHeader(size: uint64)
      requires sizebuf.Length == 9
      modifies this`str, sizebuf
      ensures str == old(str) + Header(STRING_BASE, size)
    {
      if size < 56 {
        str := str + [0x80 + size];
      } else {
        BigEndianUint64(size);
        var sizesize := PutInt(sizebuf, 1, size);
        sizebuf[0] := 0xB7 + sizesize;
        assert sizebuf[..sizesize + 1] == Header(STRING_BASE, size);
        str := str + sizebuf[..sizesize + 1];
      }
    }

    /** writeUint: an integer is the string of its shortest big-endian bytes. */
    method WriteUint(i: uint64)
      requires sizebuf.Length == 9
      modifies this`str, sizebuf
      ensures str == old(str) + Encode(Str(BigEndian(i)))
    {
      BigEndianUint64(i);
      Pow256Values();
      BigEndianLength(i, 1);
      if i == 0 {
        str := str + [0x80];
      } else if i < 128 {
        assert BigEndian(i) == [i];
        str := str + [i];
      } else {
        assert BigEndian(i) == BigEndian(i / 256) + [i % 256];
        var s := PutInt(sizebuf, 1, i);
        sizebuf[0] := 0x80 + s;
        assert sizebuf[1..s + 1] == BigEndian(i);
        assert sizebuf[..s + 1] == [sizebuf[0]] + sizebuf[1..s + 1];
        str := str + sizebuf[..s + 1];
      }
    }

    /** Opens a list: its header is known by its position, and holds lhsize until it closes. */
    method List() returns (lh: nat)
      modifies this`lheads
      ensures lh == |old(lheads)| && lheads == old(lheads) + [Head(|str|, lhsize)]
    {
      lh := |lheads|;
      lheads := lheads + [Head(|str|, lhsize)];
    }

    method ListEnd(lh: nat)
      requires lh < |lheads|
      requires 0 <= Size() - lheads[lh].offset - lheads[lh].size < TWO_64
      modifies this`lhsize, this`lheads
      ensures var size := old(Size() - lheads[lh].offset - lheads[lh].size);
              lheads == old(lheads[lh := Head(lheads[lh].offset, size)])
              && lhsize == old(lhsize) + |Header(LIST_BASE, size)|
    {
      var size := Size() - lheads[lh].offset - lheads[lh].size;
      lheads := lheads[lh := lheads[lh].(size := size)];
      if size < 56 {
        lhsize := lhsize + 1;
      } else {
        var n := IntSize(size);
        lhsize := lhsize + 1 + n;
      }
    }

    /** Encoding an item appends its string data and its closed list headers, and
        leaves the headers of lists still open untouched. */
    method EncodeItem(item: Item)
      requires Encodable(item) && sizebuf.Length == 9
      modifies this, sizebuf
      ensures str == old(str) + Flat(item)
      ensures lheads == old(lheads) + HeadsOf(item, |old(str)|)
      ensures lhsize == old(lhsize) + HeadBytes(HeadsOf(item, |old(str)|))
      decreases item, 1
    {
      match item
      case Str(b) =>
        EncodeString(b);
      case List(xs) =>
        EncodeSlice(xs);
    }

    /** makeSliceWriter: open a list, write the elements, close the list. */
    method EncodeSlice(xs: seq<Item>)
      requires AllEncodable(xs) && |EncodeAll(xs)| < TWO_64 && sizebuf.Length == 9
      modifies this, sizebuf
      ensures str == old(str) + FlatAll(xs)
      ensures lheads == old(lheads) + HeadsOf(Item.List(xs), |old(str)|)
      ensures lhsize == old(lhsize) + HeadBytes(HeadsOf(Item.List(xs), |old(str)|))
      decreases xs, 1
    {
      ghost var off, before := |str|, lheads;
      var lh := List();
      EncodeElems(xs);
      SizeOfAll(xs, off);
      ListEnd(lh);
      ghost var heads := HeadsOf(Item.List(xs), off);
      assert heads[1..] == HeadsOfAll(xs, off);
      assert lheads == before + heads;
    }

    /** The elements of a slice, without a header of their own (a slice tagged "tail"). */
    method EncodeElems(xs: seq<Item>)
      requires AllEncodable(xs) && sizebuf.Length == 9
      modifies this, sizebuf
      ensures str == old(str) + FlatAll(xs)
      ensures lheads == old(lheads) + HeadsOfAll(xs, |old(str)|)
      ensures lhsize == old(lhsize) + HeadBytes(HeadsOfAll(xs, |old(str)|))
      decreases xs, 0
    {
      hide Encode, EncodeAll, Encodable, Flat, HeadsOf;
      ghost var off := |str|;
      for i := 0 to |xs|
        invariant str == old(str) + FlatAll(xs[..i])
        invariant lhsize == old(lhsize) + HeadBytes(HeadsOfAll(xs[..i], off))
        invariant lheads == old(lheads) + HeadsOfAll(xs[..i], off)
      {
        ElementEncodable(xs, i);
        ghost var done := xs[..i];
        Assoc(old(str), FlatAll(done), Flat(xs[i]));
        Assoc(old(lheads), HeadsOfAll(done, off), HeadsOf(xs[i], |str|));
        EncodeItem(xs[i]);
        NextElement(xs, i, off);
      }
      assert xs[..|xs|] == xs;
    }

    /** Every list is closed, and lhsize counts exactly the headers. */
    ghost predicate Closed()
      reads this
    {
      Ordered(lheads, 0, |str|) && lhsize == HeadBytes(lheads)
    }

    method ToBytes() returns (out: array<byte>)
      requires Closed()
      ensures fresh(out) && out[..] == Splice(str, 0, lheads)
    {
      out := new byte[Size()];
      ghost var total := Splice(str, 0, lheads);
      SpliceLength(str, 0, lheads);
      var strpos: nat, pos: nat := 0, 0;
      ghost var done: bytes := [];
      assert str[0..] == str && lheads[0..] == lheads && out[..0] == done;
      for i := 0 to |lheads|
        invariant Ordered(lheads[i..], strpos, |str|) && strpos <= |str|
        invariant pos + (|str| - strpos) + HeadBytes(lheads[i..]) == out.Length == |total|
        invariant pos <= out.Length && out[..pos] == done
        invariant done + Splice(str[strpos..], strpos, lheads[i..]) == total
      {
        var head := lheads[i];
        assert lheads[i..][0] == head && lheads[i..][1..] == lheads[i + 1..];
        SpliceAdvance(done, str, strpos, lheads[i..], total);
        pos := PutPiece(out, pos, str[strpos..head.offset], head.size);
        done := done + str[strpos..head.offset] + Header(LIST_BASE, head.size);
        strpos := head.offset;
      }
      assert lheads[|lheads|..] == [];
      var n := Copy(out, pos, str[strpos..]);
      assert out[..] == out[..pos + n];
    }

    /** toWriter: on success the sink has received the whole encoding; on failure a prefix of it. */
    method ToWriter(out: Sink) returns (ok: bool)
      requires Closed() && sizebuf.Length == 9
      modifies out, sizebuf
      ensures ok ==> out.data == old(out.data) + Splice(str, 0, lheads)
      ensures Received(old(out.data), out.data, Splice(str, 0, lheads))
    {
      ghost var total := Splice(str, 0, lheads);
      var strpos: nat := 0;
      assert str[0..] == str && lheads[0..] == lheads;
      ghost var sent := [];
      for i := 0 to |lheads|
        invariant Ordered(lheads[i..], strpos, |str|) && strpos <= |str|
        invariant out.data == old(out.data) + sent
        invariant sent + Splice(str[strpos..], strpos, lheads[i..]) == total
      {
        var head := lheads[i];
        assert lheads[i..][0] == head && lheads[i..][1..] == lheads[i + 1..];
        SpliceAdvance(sent, str, strpos, lheads[i..], total);
        ghost var piece := str[strpos..head.offset] + Header(LIST_BASE, head.size);
        ghost var rest := Splice(str[head.offset..], head.offset, lheads[i + 1..]);
        Assoc(sent, str[strpos..head.offset], Header(LIST_BASE, head.size));
        var good := WritePiece(out, str[strpos..head.offset], head.size);
        Onwards(old(out.data), sent, piece, rest, out.data, total);
        if !good {
          return false;
        }
        sent := sent + piece;
        strpos := head.offset;
      }
      assert lheads[|lheads|..] == [];
      ok := true;
      if strpos < |str| {
        var _, good := out.Write(str[strpos..]);
        Onwards(old(out.data), sent, str[strpos..], [], out.data, total);
        ok := good;
      }
    }

    /** The string data before a header, if there is any, then the header. */
    method WritePiece(out: Sink, plain: bytes, size: uint64) returns (ok: bool)
      requires sizebuf.Length == 9
      modifies out, sizebuf
      ensures ok ==> out.data == old(out.data) + (plain + Header(LIST_BASE, size))
      ensures Received(old(out.data), out.data, plain + Header(LIST_BASE, size))
    {
      hide Splice, Ordered;
      ghost var hd := Header(LIST_BASE, size);
      if |plain| > 0 {
        var _, good := out.Write(plain);
        Onwards(old(out.data), [], plain, hd, out.data, plain + hd);
        if !good {
          return false;
        }
      }
      assert out.data == old(out.data) + plain;
      BigEndianUint64(size);
      var m := PutHead(sizebuf, 0, LIST_BASE, size);
      Extended(sizebuf[..], [], hd);
      assert sizebuf[..m] == hd;
      var _, good := out.Write(sizebuf[..m]);
      Onwards(old(out.data), plain, hd, [], out.data, plain + hd);
      ok := good;
    }
  }

  /** Having sent a prefix of total, receiving a prefix of the next piece is receiving a prefix of total. */
  lemma Onwards(before: bytes, sent: bytes, piece: bytes, rest: bytes, now: bytes, total: bytes)
    requires sent + piece + rest == total
    requires Received(before + sent, now, piece)
    ensures Received(before, now, total)
    ensures now == before + sent + piece ==> now == before + (sent + piece)
  {
    var n := |now| - |before + sent|;
    var got := now[|before + sent|..];
    assert now == before + sent + got;
    Assoc(before, sent, got);
    assert now[|before|..] == sent + got;
    assert got == piece[..n];
    assert sent + got == total[..|sent| + n];
  }

  /** Some prefix of total has been appended to what was there before. */
  ghost predicate Received(before: bytes, now: bytes, total: bytes)
  {
    before <= now && now[|before|..] <= total
  }

  /** Copying the string data up to the next header, and the header, keeps the whole. */
  lemma {:induction false} SpliceAdvance(done: bytes, str: bytes, pos: nat, heads: seq<Head>, total: bytes)
    requires heads != [] && Ordered(heads, pos, |str|)
    requires pos <= |str| && done + Splice(str[pos..], pos, heads) == total
    ensures pos <= heads[0].offset <= |str| && heads[0].size < TWO_64
    ensures Ordered(heads[1..], heads[0].offset, |str|)
    ensures done + str[pos..heads[0].offset] + Header(LIST_BASE, heads[0].size)
            + Splice(str[heads[0].offset..], heads[0].offset, heads[1..]) == total
  {
    SpliceNext(str, pos, heads);
    var plain, hd := str[pos..heads[0].offset], Header(LIST_BASE, heads[0].size);
    var rest := Splice(str[heads[0].offset..], heads[0].offset, heads[1..]);
    Assoc(done, plain, hd + rest);
    Assoc(done + plain, hd, rest);
  }

  lemma NextElement(xs: seq<Item>, i: nat, off: nat)
    requires i < |xs|
    ensures var next := HeadsOf(xs[i], off + |FlatAll(xs[..i])|);
            FlatAll(xs[..i + 1]) == FlatAll(xs[..i]) + Flat(xs[i])
            && HeadsOfAll(xs[..i + 1], off) == HeadsOfAll(xs[..i], off) + next
            && HeadBytes(HeadsOfAll(xs[..i + 1], off)) == HeadBytes(HeadsOfAll(xs[..i], off)) + HeadBytes(next)
  {
    assert xs[..i + 1] == xs[..i] + [xs[i]];
    FlatAllSnoc(xs[..i], xs[i], off);
    HeadBytesAppend(HeadsOfAll(xs[..i], off), HeadsOf(xs[i], off + |FlatAll(xs[..i])|));
  }

  lemma {:induction false} ElementEncodable(xs: seq<Item>, i: nat)
    requires AllEncodable(xs) && i < |xs|
    ensures Encodable(xs[i])
  {
    if i > 0 {
      ElementEncodable(xs[1..], i - 1);
    }
  }

  /** Go's copy: as much of src as fits at dst[at..]. */
  method Copy(dst: array<byte>, at: nat, src: bytes) returns (n: nat)
    requires at <= dst.Length
    modifies dst
    ensures n == if |src| <= dst.Length - at then |src| else dst.Length - at
    ensures dst[..at + n] == old(dst[..at]) + src[..n]
    ensures forall k :: at + n <= k < dst.Length ==> dst[k] == old(dst[k])
  {
    n := if |src| <= dst.Length - at then |src| else dst.Length - at;
    forall k | 0 <= k < n {
      dst[at + k] := src[k];
    }
  }

  /** String data followed by a list header, at out[pos..]. */
  method PutPiece(out: array<byte>, pos: nat, plain: bytes, size: uint64) returns (end: nat)
    requires pos + |plain| + |Header(LIST_BASE, size)| <= out.Length
    modifies out
    ensures end == pos + |plain| + |Header(LIST_BASE, size)|
    ensures out[..end] == old(out[..pos]) + plain + Header(LIST_BASE, size)
  {
    hide Header;
    var n := Copy(out, pos, plain);
    ghost var before := out[..pos + n];
    var m := PutHead(out, pos + n, LIST_BASE, size);
    end := pos + n + m;
    Extended(out[..], before, Header(LIST_BASE, size));
  }

  lemma Extended(all: bytes, front: bytes, piece: bytes)
    requires |front| + |piece| <= |all|
    requires forall j :: 0 <= j < |front| ==> all[j] == front[j]
    requires forall j :: 0 <= j < |piece| ==> all[|front| + j] == piece[j]
    ensures all[..|front| + |piece|] == front + piece
  {
  }

  /** An io.Writer that may run out of room: it takes what fits and reports a short write. */
  class Sink {
    var data: bytes
    const room: nat

    constructor (room: nat)
      ensures data == [] && this.room == room
    {
      data, this.room := [], room;
    }

    method Write(b: bytes) returns (n: nat, ok: bool)
      modifies this
      ensures n <= |b| && data == old(data) + b[..n]
      ensures ok <==> n == |b|
      ensures Received(old(data), data, b)
      ensures ok ==> data == old(data) + b
    {
      n := if |data| + |b| <= room then |b| else if |data| <= room then room - |data| else 0;
      ok := n == |b|;
      data := data + b[..n];
    }
  }

  // ---------------------------------------------------------------- reading the encoding

  /** encReader: hands out the spliced bytes piece by piece. */
  class EncReader {
    var buf: EncBuf?
    var lhpos: nat
    var strpos: nat
    var piece: Option<bytes>

    constructor (buf: EncBuf)
      requires buf.Closed() && buf.sizebuf.Length == 9
      ensures Valid() && this.buf == buf && Rest() == Splice(buf.str, 0, buf.lheads)
    {
      this.buf, lhpos, strpos, piece := buf, 0, 0, None;
      new;
      assert buf.str[0..] == buf.str && buf.lheads[0..] == buf.lheads;
    }

    ghost predicate Valid()
      reads this, buf
    {
      && (piece.Some? ==> piece.value != [])
      && (buf != null ==>
            && buf.sizebuf.Length == 9
            && lhpos <= |buf.lheads| && strpos <= |buf.str|
            && Ordered(buf.lheads[lhpos..], strpos, |buf.str|))
    }

    /** The bytes still to come after the piece at hand. */
    ghost function Ahead(): bytes
      requires Valid()
      reads this, buf
    {
      if buf == null then [] else Splice(buf.str[strpos..], strpos, buf.lheads[lhpos..])
    }

    /** The bytes still to be read. */
    ghost function Rest(): bytes
      requires Valid()
      reads this, buf
    {
      if buf == null then [] else if piece.Some? then piece.value + Ahead() else Ahead()
    }

    method Next() returns (p: Option<bytes>)
      requires Valid()
      modifies this`lhpos, this`strpos, if buf == null then {} else {buf.sizebuf}
      ensures Valid()
      ensures p.None? ==> old(Rest()) == []
      ensures p.Some? ==> buf != null && p.value != [] && old(Rest()) == p.value + Ahead()
    {
      hide Splice, Ordered, Header;
      if buf == null {
        return None;
      }
      if piece.Some? {
        return piece;
      }
      if lhpos < |buf.lheads| {
        var head := buf.lheads[lhpos];
        NextPiece(buf.str, strpos, buf.lheads, lhpos);
        var sizebefore := head.offset - strpos;
        if sizebefore > 0 {
          p := Some(buf.str[strpos..head.offset]);
          strpos := strpos + sizebefore;
          return;
        }
        lhpos := lhpos + 1;
        var enc := EncodeHead(head.size, buf.sizebuf);
        return Some(enc);
      }
      assert buf.lheads[lhpos..] == [];
      SpliceEnd(buf.str, strpos);
      if strpos < |buf.str| {
        p := Some(buf.str[strpos..]);
        strpos := |buf.str|;
        return;
      }
      return None;
    }

    /** One turn of Read's loop: fetch a piece, copy what fits, keep what does not. */
    method CopyPiece(b: array<byte>, n: nat) returns (m: nat, more: bool)
      requires Valid() && n <= b.Length && (buf != null ==> b != buf.sizebuf)
      modifies this, b, if buf == null then {} else {buf.sizebuf}
      ensures Valid() && n <= m <= b.Length
      ensures old(b[..n] + Rest()) == b[..m] + Rest()
      ensures more ==> buf == old(buf) && |Rest()| < old(|Rest()|)
      ensures !more && buf != null ==> buf == old(buf) && m == b.Length && Rest() != []
    {
      hide Splice, Ordered, Header;
      ghost var total := b[..n] + Rest();
      piece := Next();
      if piece == None {
        buf := null;
        return n, false;
      }
      var p := piece.value;
      ghost var got, ahead := b[..n], Ahead();
      var nn := Copy(b, n, p);
      TakePart(total, got, p, nn, ahead);
      m := n + nn;
      if nn < |p| {
        piece, more := Some(p[nn..]), false;
      } else {
        piece, more := None, true;
      }
    }

    /** Fills b with the next bytes; the end of the encoding is reported exactly when it is reached. */
    method Read(b: array<byte>) returns (n: nat, eof: bool)
      requires Valid() && (buf != null ==> b != buf.sizebuf)
      modifies this, b, if buf == null then {} else {buf.sizebuf}
      ensures Valid() && (buf == null || buf == old(buf))
      ensures n <= b.Length && old(Rest()) == b[..n] + Rest()
      ensures eof <==> buf == null
      ensures eof ==> Rest() == []
      ensures !eof ==> n == b.Length && Rest() != []
    {
      hide Splice, Ordered, Header;
      n := 0;
      var more := true;
      while more
        invariant Valid() && n <= b.Length && (buf == null || buf == old(buf))
        invariant old(Rest()) == b[..n] + Rest()
        invariant !more && buf != null ==> n == b.Length && Rest() != []
        decreases more, if more then |Rest()| else 0
      {
        n, more := CopyPiece(b, n);
      }
      eof := buf == null;
    }
  }

  /** Taking the first n bytes of the piece at hand. */
  lemma TakePart(total: bytes, got: bytes, p: bytes, n: nat, ahead: bytes)
    requires n <= |p| && total == got + (p + ahead)
    ensures total == got + p[..n] + (p[n..] + ahead)
    ensures n == |p| ==> total == got + p[..n] + ahead
  {
    assert p == p[..n] + p[n..];
    Assoc(p[..n], p[n..], ahead);
    Assoc(got, p[..n], p[n..] + ahead);
  }

  method EncodeHead(size: uint64, sizebuf: array<byte>) returns (enc: bytes)
    requires sizebuf.Length == 9
    modifies sizebuf
    ensures enc == Header(LIST_BASE, size) && enc != []
  {
    BigEndianUint64(size);
    var m := PutHead(sizebuf, 0, LIST_BASE, size);
    Extended(sizebuf[..], [], Header(LIST_BASE, size));
    enc := sizebuf[..m];
  }

  // ---------------------------------------------------------------- the entry points

  method EncodeToBuffer(item: Item) returns (eb: EncBuf)
    requires Encodable(item)
    ensures fresh(eb) && fresh(eb.sizebuf) && eb.sizebuf.Length == 9
    ensures eb.Closed() && eb.Size() == |Encode(item)|
    ensures Splice(eb.str, 0, eb.lheads) == Encode(item)
  {
    eb := new EncBuf();
    eb.EncodeItem(item);
    assert eb.str == Flat(item) && eb.lheads == HeadsOf(item, 0);
    SpliceWhole(item);
    OrderedItem(item, 0);
    SizeOf(item, 0);
  }

  /** EncodeToBytes gives exactly the recursive encoding. */
  method EncodeToBytes(item: Item) returns (out: bytes)
    requires Encodable(item)
    ensures out == Encode(item)
  {
    var eb := EncodeToBuffer(item);
    var a := eb.ToBytes();
    out := a[..];
  }

  /** Encode sends exactly the recursive encoding, or fails having sent a prefix of it. */
  method EncodeToSink(w: Sink, item: Item) returns (ok: bool)
    requires Encodable(item)
    modifies w
    ensures ok ==> w.data == old(w.data) + Encode(item)
    ensures Received(old(w.data), w.data, Encode(item))
  {
    var eb := EncodeToBuffer(item);
    ok := eb.ToWriter(w);
  }

  function Concat(parts: seq<bytes>): bytes
  {
    if parts == [] then [] else Concat(parts[..|parts| - 1]) + parts[|parts| - 1]
  }

  lemma ConcatSnoc(parts: seq<bytes>, p: bytes, rest: bytes)
    ensures Concat(parts + [p]) + rest == Concat(parts) + (p + rest)
  {
    assert (parts + [p])[..|parts|] == parts;
    Assoc(Concat(parts), p, rest);
  }

  /** Every part has the size that was asked for. */
  predicate Filled(parts: seq<bytes>, sizes: seq<nat>)
  {
    |parts| <= |sizes| && forall i :: 0 <= i < |parts| ==> |parts[i]| == sizes[i]
  }

  /** A run of reads with buffers of any sizes takes the remaining bytes in order. */
  method ReadParts(r: EncReader, sizes: seq<nat>) returns (parts: seq<bytes>, eof: bool)
    requires r.Valid() && r.buf != null
    modifies r, r.buf.sizebuf
    ensures r.Valid() && old(r.Rest()) == Concat(parts) + r.Rest()
    ensures eof ==> r.Rest() == []
    ensures !eof ==> |parts| == |sizes| && Filled(parts, sizes)
  {
    parts, eof := [], false;
    assert Concat(parts) == [];
    while |parts| < |sizes| && !eof
      invariant r.Valid() && (r.buf == null || r.buf == old(r.buf))
      invariant old(r.Rest()) == Concat(parts) + r.Rest()
      invariant eof ==> r.Rest() == []
      invariant |parts| <= |sizes| && (!eof ==> Filled(parts, sizes))
      decreases !eof, |sizes| - |parts|
    {
      hide *;
      var b := new byte[sizes[|parts|]];
      var n, end := r.Read(b);
      ConcatSnoc(parts, b[..n], r.Rest());
      if !end {
        FilledSnoc(parts, sizes, b[..n]);
      }
      parts := parts + [b[..n]];
      eof := end;
    }
  }

  lemma FilledSnoc(parts: seq<bytes>, sizes: seq<nat>, p: bytes)
    requires Filled(parts, sizes) && |parts| < |sizes| && |p| == sizes[|parts|]
    ensures Filled(parts + [p], sizes)
  {
  }

  /** Reading through EncodeToReader with buffers of any sizes gives the recursive encoding in order:
      all of it once the end is reported, otherwise its first bytes, with every buffer filled. */
  method EncodeAndRead(item: Item, sizes: seq<nat>) returns (size: nat, parts: seq<bytes>, eof: bool)
    requires Encodable(item)
    ensures size == |Encode(item)|
    ensures Concat(parts) <= Encode(item)
    ensures eof ==> Concat(parts) == Encode(item)
    ensures !eof ==> |parts| == |sizes| && Filled(parts, sizes)
  {
    hide *;
    var eb := EncodeToBuffer(item);
    size := eb.Size();
    var r := new EncReader(eb);
    parts, eof := ReadParts(r, sizes);
  }
}
