/** bsc/rlp/raw.go: taking an encoded value apart without decoding it. */
module RlpRaw {
  import opened Bytes
  import opened Rlp
  import opened RlpDecode

  /** readSize: the size digits of a long header. */
  function ReadSize(b: bytes, slen: nat): Result<uint64>
    requires 1 <= slen <= 8
  {
    if slen > |b| then Err(UnexpectedEOF)
    else
      SmallNumber(b[..slen]);
      var s := FromBigEndian(b[..slen]);
      if s < 56 || b[0] == 0 then Err(CanonSize) else Ok(s)
  }

  /** readKind: kind, header size and content size of the first value, which must fit in buf. */
  function ReadKind(buf: bytes): (r: Result<Info>)
    ensures r.Ok? ==> r.value.tag + r.value.size <= |buf| && r.value.tag + r.value.size >= 1
  {
    if buf == [] then Err(UnexpectedEOF)
    else
      var b := buf[0];
      if b < 0x80 then Bounded(buf, ByteKind, 0, Ok(1))
      else if b < 0xB8 then
        if b == 0x81 && |buf| > 1 && buf[1] < 128 then Err(CanonSize)
        else Bounded(buf, StringKind, 1, Ok(b - 0x80))
      else if b < 0xC0 then Bounded(buf, StringKind, b - 0xB7 + 1, ReadSize(buf[1..], b - 0xB7))
      else if b < 0xF8 then Bounded(buf, ListKind, 1, Ok(b - 0xC0))
      else Bounded(buf, ListKind, b - 0xF7 + 1, ReadSize(buf[1..], b - 0xF7))
  }

  /** Rejects values larger than the input; the header itself always fits, so nothing underflows. */
  function Bounded(buf: bytes, k: Kind, tag: nat, size: Result<uint64>): (r: Result<Info>)
    requires size.Ok? ==> tag <= |buf|
    ensures r.Ok? ==> size.Ok? && r.value == Info(k, tag, size.value) && tag + size.value <= |buf|
  {
    if size.Err? then Err(size.error)
    else if size.value > |buf| - tag then Err(ValueTooLarge)
    else Ok(Info(k, tag, size.value))
  }

  /** A one-byte string that should have been the byte itself. */
  predicate Overlong(buf: bytes, h: Info)
  {
    h.kind == StringKind && h.size == 1 && h.tag < |buf| && buf[h.tag] < 128
  }

  /** readKind accepts exactly the canonical headers of values that are there in full. */
  lemma ReadKindExact(buf: bytes, h: Info)
    ensures ReadKind(buf) == Ok(h) <==>
            ParseHeader(buf) == Some(h) && h.tag + h.size <= |buf| && !Overlong(buf, h)
  {
    hide FromBigEndian;
  }

  datatype Parts = Parts(kind: Kind, content: bytes, rest: bytes)

  /** Split: the content of the first value and what comes after it. */
  function Split(b: bytes): (r: Result<Parts>)
    ensures r.Ok? ==> ReadKind(b).Ok? && b == b[..ReadKind(b).value.tag] + r.value.content + r.value.rest
  {
    var k := ReadKind(b);
    if k.Err? then Err(k.error)
    else
      var Info(kind, tag, size) := k.value;
      Ok(Parts(kind, b[tag..tag + size], b[tag + size..]))
  }

  function Content(x: Item): bytes
  {
    match x case Str(b) => b case List(xs) => EncodeAll(xs)
  }

  /** Splitting an encoding gives back the kind, the content and whatever followed. */
  lemma SplitEncoding(x: Item, rest: bytes)
    requires Encodable(x)
    ensures Split(Encode(x) + rest) == Ok(Parts(InfoOf(x).kind, Content(x), rest))
    ensures ReadKind(Encode(x) + rest) == Ok(InfoOf(x))
  {
    hide ParseHeader, ReadKind, FromBigEndian;
    var b, h := Encode(x) + rest, InfoOf(x);
    EncodeParses(x, rest);
    assert b[h.tag..h.tag + h.size] == Content(x);
    assert b[h.tag + h.size..] == rest;
    ReadKindExact(b, h);
  }

  /** The canonical bytes a split value was made of: its header encodes exactly its content. */
  lemma SplitIsCanonical(b: bytes)
    requires Split(b).Ok? && Split(b).value.kind == StringKind
    ensures var p := Split(b).value; Encodable(Str(p.content)) && b == Encode(Str(p.content)) + p.rest
  {
    hide ParseHeader, ReadKind, FromBigEndian, Encode, Encodable;
    var h := ReadKind(b).value;
    ReadKindExact(b, h);
    StringSound(b, h.tag, h.size);
    assert b == b[..h.tag + h.size] + b[h.tag + h.size..];
  }

  /** The values b consists of, undecoded; none if some value is malformed or cut short. */
  function Values(b: bytes): Option<seq<bytes>>
  {
    if b == [] then Some([])
    else
      var k := ReadKind(b);
      if k.Err? then None
      else
        var n := k.value.tag + k.value.size;
        var more := Values(b[n..]);
        if more.None? then None else Some([b[..n]] + more.value)
  }

  /** CountValues: the number of values b consists of. */
  method CountValues(b: bytes) returns (r: Result<nat>)
    ensures r.Ok? <==> Values(b).Some?
    ensures r.Ok? ==> r.value == |Values(b).value|
  {
    var i, rest := 0, b;
    while |rest| > 0
      invariant Values(b).Some? <==> Values(rest).Some?
      invariant Values(b).Some? ==> |Values(b).value| == i + |Values(rest).value|
      decreases |rest|
    {
      hide ReadKind;
      var k := ReadKind(rest);
      if k.Err? {
        return Err(k.error);
      }
      ReadKindPositive(rest);
      rest := rest[k.value.tag + k.value.size..];
      i := i + 1;
    }
    return Ok(i);
  }

  lemma ReadKindPositive(b: bytes)
    ensures ReadKind(b).Ok? ==> 1 <= ReadKind(b).value.tag + ReadKind(b).value.size <= |b|
  {
  }

  function Encodings(xs: seq<Item>): seq<bytes>
  {
    if xs == [] then [] else [Encode(xs[0])] + Encodings(xs[1..])
  }

  /** On the payload of an encoded list, the values are the encodings of its elements, in order. */
  lemma {:induction false} ValuesOfPayload(xs: seq<Item>)
    requires AllEncodable(xs)
    ensures Values(EncodeAll(xs)) == Some(Encodings(xs))
    ensures |Encodings(xs)| == |xs|
  {
    if xs != [] {
      hide ReadKind, ParseHeader, InfoOf;
      var x, ys := xs[0], xs[1..];
      var b := Encode(x) + EncodeAll(ys);
      EncodeNonEmpty(x);
      SplitEncoding(x, EncodeAll(ys));
      EncodeParses(x, EncodeAll(ys));
      assert b[..|Encode(x)|] == Encode(x) && b[|Encode(x)|..] == EncodeAll(ys);
      ValuesOfPayload(ys);
    }
  }

  method CountElements(xs: seq<Item>) returns (n: nat)
    requires AllEncodable(xs)
    ensures n == |xs|
  {
    ValuesOfPayload(xs);
    var r := CountValues(EncodeAll(xs));
    n := r.value;
  }
}
