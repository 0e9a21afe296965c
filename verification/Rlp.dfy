/** Recursive Length Prefix, as Appendix B of the Ethereum Yellow Paper defines it:
    the reference the buffered encoder and the streaming decoder are held to. */
module Rlp {
  import opened Bytes

  /** What decodeInterface produces: a byte string or a list of items. */
  datatype Item = Str(content: bytes) | List(items: seq<Item>)

  datatype Kind = ByteKind | StringKind | ListKind

  const STRING_BASE: int := 0x80
  const LIST_BASE: int := 0xC0

  /** The header of a string (base 0x80) or list (base 0xC0) with n bytes of content.
      Sizes of 2^64 and above have no encoding. */
  function Header(base: int, n: nat): (h: bytes)
    requires base == STRING_BASE || base == LIST_BASE
  {
    BigEndianUint64(n);
    if n < 56 then [base + n]
    else if n < TWO_64 then [base + 55 + |BigEndian(n)|] + BigEndian(n)
    else []
  }

  function Encode(item: Item): bytes
    decreases item, 1
  {
    match item
    case Str(b) => if |b| == 1 && b[0] < 0x80 then b else Header(STRING_BASE, |b|) + b
    case List(xs) => Header(LIST_BASE, |EncodeAll(xs)|) + EncodeAll(xs)
  }

  function EncodeAll(xs: seq<Item>): bytes
    decreases xs, 0
  {
    if xs == [] then [] else Encode(xs[0]) + EncodeAll(xs[1..])
  }

  /** Every size in the item is below 2^64, so every header exists. */
  ghost predicate Encodable(item: Item)
    decreases item, 1
  {
    match item
    case Str(b) => |b| < TWO_64
    case List(xs) => |EncodeAll(xs)| < TWO_64 && AllEncodable(xs)
  }

  ghost predicate AllEncodable(xs: seq<Item>)
    decreases xs, 0
  {
    xs != [] ==> Encodable(xs[0]) && AllEncodable(xs[1..])
  }

  lemma {:induction false} EncodeAllAppend(xs: seq<Item>, ys: seq<Item>)
    ensures EncodeAll(xs + ys) == EncodeAll(xs) + EncodeAll(ys)
    ensures AllEncodable(xs + ys) <==> AllEncodable(xs) && AllEncodable(ys)
  {
    if xs == [] {
      assert xs + ys == ys;
    } else {
      assert (xs + ys)[1..] == xs[1..] + ys;
      EncodeAllAppend(xs[1..], ys);
    }
  }

  lemma EncodeAllSnoc(xs: seq<Item>, x: Item)
    ensures EncodeAll(xs + [x]) == EncodeAll(xs) + Encode(x)
    ensures AllEncodable(xs + [x]) <==> AllEncodable(xs) && Encodable(x)
  {
    EncodeAllAppend(xs, [x]);
    assert EncodeAll([x]) == Encode(x) + EncodeAll([]);
    assert [x][1..] == [];
  }

  lemma EncodeNonEmpty(x: Item)
    requires Encodable(x)
    ensures |Encode(x)| >= 1
  {
  }

  // ---------------------------------------------------------------- headers

  /** What a header says: the kind of value, the bytes taken by the header itself
      (none for a single byte below 0x80) and the bytes of content. */
  datatype Info = Info(kind: Kind, tag: nat, size: nat)

  /** The header of an item that has an encoding. */
  function InfoOf(item: Item): Info
  {
    match item
    case Str(b) =>
      if |b| == 1 && b[0] < 0x80 then Info(ByteKind, 0, 1)
      else Info(StringKind, |Header(STRING_BASE, |b|)|, |b|)
    case List(xs) => Info(ListKind, |Header(LIST_BASE, |EncodeAll(xs)|)|, |EncodeAll(xs)|)
  }

  /** The canonical header at the front of s, if there is one. */
  function ParseHeader(s: bytes): (r: Option<Info>)
  {
    if s == [] then None
    else if s[0] < 0x80 then Some(Info(ByteKind, 0, 1))
    else if s[0] < 0xB8 then Some(Info(StringKind, 1, s[0] - 0x80))
    else if s[0] < 0xC0 then ParseLong(StringKind, s[0] - 0xB7, s[1..])
    else if s[0] < 0xF8 then Some(Info(ListKind, 1, s[0] - 0xC0))
    else ParseLong(ListKind, s[0] - 0xF7, s[1..])
  }

  function ParseLong(kind: Kind, sizesize: nat, s: bytes): (r: Option<Info>)
    requires sizesize >= 1
  {
    if |s| < sizesize || s[0] == 0 || FromBigEndian(s[..sizesize]) < 56 then None
    else Some(Info(kind, 1 + sizesize, FromBigEndian(s[..sizesize])))
  }

  /** Reading a header back gives the size it was made from. */
  lemma HeaderParses(base: int, n: nat, rest: bytes)
    requires base == STRING_BASE || base == LIST_BASE
    requires n < TWO_64
    ensures ParseHeader(Header(base, n) + rest) ==
            Some(Info(if base == STRING_BASE then StringKind else ListKind, |Header(base, n)|, n))
  {
    BigEndianUint64(n);
    if n >= 56 {
      var s := Header(base, n) + rest;
      assert s[1..] == BigEndian(n) + rest;
      assert s[1..][..|BigEndian(n)|] == BigEndian(n);
      BigEndianInverse(n);
    }
  }

  /** Only canonical headers parse: the bytes read are the header of the size read. */
  lemma ParsedHeaderIsCanonical(s: bytes)
    requires ParseHeader(s).Some? && ParseHeader(s).value.kind != ByteKind
    ensures var h := ParseHeader(s).value;
            var base := if h.kind == StringKind then STRING_BASE else LIST_BASE;
            h.size < TWO_64 && h.tag <= |s| && s[..h.tag] == Header(base, h.size)
  {
    hide FromBigEndian, BigEndian;
    var h := ParseHeader(s).value;
    if 0xB8 <= s[0] < 0xC0 || s[0] >= 0xF8 {
      var digits := s[1..][..h.tag - 1];
      FromBigEndianInverse(digits);
      BigEndianUint64(h.size);
      assert s[..h.tag] == [s[0]] + digits;
    }
  }

  lemma EncodeParses(x: Item, rest: bytes)
    requires Encodable(x)
    ensures ParseHeader(Encode(x) + rest) == Some(InfoOf(x))
    ensures |Encode(x)| == InfoOf(x).tag + InfoOf(x).size
    ensures InfoOf(x).size < TWO_64
  {
    match x
    case Str(b) =>
      if !(|b| == 1 && b[0] < 0x80) {
        HeaderParses(STRING_BASE, |b|, b + rest);
        assert Encode(x) + rest == Header(STRING_BASE, |b|) + (b + rest);
      }
    case List(xs) =>
      var p := EncodeAll(xs);
      HeaderParses(LIST_BASE, |p|, p + rest);
      assert Encode(x) + rest == Header(LIST_BASE, |p|) + (p + rest);
  }

  // ---------------------------------------------------------------- unique reading

  /** No two items have encodings that start the same byte string: RLP is
      prefix-free, hence injective and self-delimiting. */
  lemma {:induction false} PrefixFree(a: Item, b: Item, s: bytes)
    requires Encodable(a) && Encodable(b)
    requires Encode(a) <= s && Encode(b) <= s
    ensures a == b
    decreases a, 1
  {
    var ra, rb := s[|Encode(a)|..], s[|Encode(b)|..];
    assert s == Encode(a) + ra == Encode(b) + rb;
    EncodeParses(a, ra);
    EncodeParses(b, rb);
    var h := InfoOf(a);
    assert h == InfoOf(b);
    assert Encode(a)[h.tag..] == s[h.tag..h.tag + h.size] == Encode(b)[h.tag..];
    match (a, b)
    case (Str(x), Str(y)) =>
      assert x == Encode(a)[h.tag..] && y == Encode(b)[h.tag..];
    case (List(xs), List(ys)) =>
      assert EncodeAll(xs) == Encode(a)[h.tag..] && EncodeAll(ys) == Encode(b)[h.tag..];
      AllUnique(xs, ys);
    case _ =>
      assert false;
  }

  lemma {:induction false} AllUnique(xs: seq<Item>, ys: seq<Item>)
    requires AllEncodable(xs) && AllEncodable(ys)
    requires EncodeAll(xs) == EncodeAll(ys)
    ensures xs == ys
    decreases xs, 0
  {
    if xs == [] {
      if ys != [] {
        EncodeNonEmpty(ys[0]);
      }
    } else {
      EncodeNonEmpty(xs[0]);
      assert ys != [];
      var s := EncodeAll(xs);
      PrefixFree(xs[0], ys[0], s);
      assert s[|Encode(xs[0])|..] == EncodeAll(xs[1..]) == EncodeAll(ys[1..]);
      AllUnique(xs[1..], ys[1..]);
      assert xs == [xs[0]] + xs[1..] && ys == [ys[0]] + ys[1..];
    }
  }
}
