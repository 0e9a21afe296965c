/** bsc/rlp/decode.go: the stream that reads one value at a time, keeping a stack of
    the lists it is inside of and refusing every form that is not canonical. */
module RlpDecode {
  import opened Bytes
  import opened Rlp
  import RlpEncode

  datatype Error =
    | EOL | EOF | UnexpectedEOF
    | ExpectedString | ExpectedList
    | CanonInt | CanonSize
    | ElemTooLarge | ValueTooLarge | MoreThanOneValue
    | NotInList | NotAtEOL | UintOverflow

  datatype Result<+T> = Ok(value: T) | Err(error: Error)

  datatype ListPos = ListPos(pos: uint64, size: uint64)

  // ---------------------------------------------------------------- the stack of lists

  /** Positions never pass sizes, and an inner list fits in what its parent has left. */
  ghost predicate Nested(stack: seq<ListPos>)
  {
    var n := |stack|;
    n > 0 ==>
      && stack[n - 1].pos <= stack[n - 1].size
      && (n > 1 ==> stack[n - 1].size <= stack[n - 2].size - stack[n - 2].pos)
      && Nested(stack[..n - 1])
  }

  /** What the lists still expect does not exceed the input that is left. */
  ghost predicate Fits(stack: seq<ListPos>, left: int)
  {
    var n := |stack|;
    n > 0 ==>
      && stack[n - 1].size - stack[n - 1].pos <= left
      && Fits(stack[..n - 1], left + stack[n - 1].pos)
  }

  /** n more bytes of the innermost list have been read. */
  function Advance(stack: seq<ListPos>, n: nat): (r: seq<ListPos>)
    requires stack != [] ==> stack[|stack| - 1].pos + n < TWO_64
  {
    if stack == [] then []
    else
      var top := stack[|stack| - 1];
      stack[|stack| - 1 := ListPos(top.pos + n, top.size)]
  }

  predicate Room(stack: seq<ListPos>, n: nat)
  {
    stack != [] ==> n <= stack[|stack| - 1].size - stack[|stack| - 1].pos
  }

  lemma AdvanceKeeps(stack: seq<ListPos>, n: nat, left: int)
    requires Nested(stack) && Room(stack, n)
    ensures Nested(Advance(stack, n))
    ensures Fits(stack, left) ==> Fits(Advance(stack, n), left - n)
  {
    if stack != [] {
      var r := Advance(stack, n);
      assert r[..|r| - 1] == stack[..|stack| - 1];
    }
  }

  lemma AdvanceTwice(stack: seq<ListPos>, n: nat, m: nat)
    requires Room(stack, n) && Room(Advance(stack, n), m)
    ensures Room(stack, n + m) && Advance(Advance(stack, n), m) == Advance(stack, n + m)
  {
  }

  lemma PushKeeps(stack: seq<ListPos>, size: uint64, left: int)
    requires Nested(stack) && Room(stack, size)
    ensures Nested(stack + [ListPos(0, size)])
    ensures Fits(stack, left) && size <= left ==> Fits(stack + [ListPos(0, size)], left)
  {
    var r := stack + [ListPos(0, size)];
    assert r[..|r| - 1] == stack;
  }

  /** Leaving a list that was read to its end counts its bytes in the parent. */
  lemma PopKeeps(stack: seq<ListPos>, size: uint64, left: int)
    requires Nested(stack + [ListPos(size, size)])
    ensures Room(stack, size) && Nested(Advance(stack, size))
    ensures Fits(stack + [ListPos(size, size)], left) ==> Fits(Advance(stack, size), left)
  {
    var r := stack + [ListPos(size, size)];
    assert r[..|r| - 1] == stack;
    assert Nested(stack);
    assert Fits(r, left) ==> Fits(stack, left + size);
    if stack != [] {
      assert stack[|stack| - 1] == r[|r| - 2];
      var t := Advance(stack, size);
      assert t[..|t| - 1] == stack[..|stack| - 1];
    }
  }

  // ---------------------------------------------------------------- the stream

  /** Where a stream stands: in its input, in its input limit, and in every open list. */
  datatype Cursor = Cursor(at: nat, remaining: int, stack: seq<ListPos>)

  function Moved(c: Cursor, n: nat, limited: bool): Cursor
    requires Room(c.stack, n)
  {
    Cursor(c.at + n, if limited then c.remaining - n else c.remaining, Advance(c.stack, n))
  }

  lemma MovedTwice(c: Cursor, n: nat, m: nat, limited: bool)
    requires Room(c.stack, n) && Room(Advance(c.stack, n), m)
    ensures Room(c.stack, n + m)
    ensures Moved(Moved(c, n, limited), m, limited) == Moved(c, n + m, limited)
  {
    AdvanceTwice(c.stack, n, m);
  }

  /** Between places c and d exactly the bytes e were read. */
  ghost predicate Took(data: bytes, limited: bool, c: Cursor, d: Cursor, e: bytes)
  {
    && Room(c.stack, |e|) && d == Moved(c, |e|, limited)
    && d.at <= |data| && data[c.at..d.at] == e
  }

  lemma TookTwice(data: bytes, limited: bool, a: Cursor, b: Cursor, c: Cursor, e: bytes, f: bytes)
    requires Took(data, limited, a, b, e) && Took(data, limited, b, c, f)
    ensures Took(data, limited, a, c, e + f)
  {
    MovedTwice(a, |e|, |f|, limited);
    assert data[a.at..c.at] == data[a.at..b.at] + data[b.at..c.at];
  }

  class Stream {
    const data: bytes
    const limited: bool
    var at: nat
    var remaining: uint64
    var kind: Option<Kind>
    var size: uint64
    var byteval: byte
    var kinderr: Option<Error>
    var stack: seq<ListPos>
    ghost var entry: Cursor

    /** NewStream: a limit of zero means the input's own length if the reader is a
        byte slice, and no limit otherwise. */
    constructor (data: bytes, inputLimit: uint64, slice: bool)
      requires |data| < TWO_64
      ensures this.data == data && this.limited == (inputLimit > 0 || slice)
      ensures at == 0 && stack == [] && kind.None? && kinderr.None?
      ensures limited ==> remaining == if inputLimit > 0 then inputLimit else |data|
      ensures Valid()
    {
      this.data := data;
      this.limited := inputLimit > 0 || slice;
      remaining := if inputLimit > 0 then inputLimit else if slice then |data| else 0;
      at, size, byteval, stack, entry := 0, 0, 0, [], Cursor(0, 0, []);
      kind, kinderr := None, None;
    }

    ghost function Place(): Cursor
      reads this
    {
      Cursor(at, remaining, stack)
    }

    /** No counter has passed its bound. */
    ghost predicate Sound()
      reads this
    {
      at <= |data| && Nested(stack) && (limited ==> Fits(stack, remaining))
    }

    /** n bytes may be taken: the innermost list and the input limit allow it. */
    ghost predicate Allowed(n: nat)
      reads this
    {
      Room(stack, n) && (limited ==> n <= remaining)
    }

    /** The header of the value ahead has been read, and its content is allowed. */
    ghost predicate Ready()
      reads this
    {
      && entry.at < at
      && HeaderAt(data, entry.at, kind, at - entry.at, size, byteval)
      && Room(entry.stack, at - entry.at) && Place() == Moved(entry, at - entry.at, limited)
      && Allowed(size)
    }

    ghost predicate Valid()
      reads this
    {
      Sound() && (kind.Some? && kinderr.None? ==> Ready())
    }

    /** Where the value ahead begins, whether or not its header has been read already. */
    ghost function Entry(): Cursor
      reads this
    {
      if kind.Some? then entry else Place()
    }

    method WillRead(n: uint64) returns (err: Option<Error>)
      requires Sound()
      modifies this
      ensures Sound() && kind.None? && at == old(at) && entry == old(entry)
      ensures err.None? <==> old(Allowed(n))
      ensures err.None? ==> Place() == Moved(old(Place()), n, limited).(at := at)
      ensures err.Some? ==> Place() == old(Place()) && err.value in {ElemTooLarge, ValueTooLarge}
      ensures size == old(size) && byteval == old(byteval) && kinderr == old(kinderr)
    {
      kind := None;
      AdvanceKeeps(stack, if Room(stack, n) then n else 0, remaining);
      if |stack| > 0 {
        var tos := stack[|stack| - 1];
        if n > tos.size - tos.pos {
          return Some(ElemTooLarge);
        }
        stack := stack[|stack| - 1 := ListPos(tos.pos + n, tos.size)];
      }
      if limited {
        if n > remaining {
          return Some(ValueTooLarge);
        }
        remaining := remaining - n;
      }
      return None;
    }

    /** The reader underneath may return fewer bytes than asked for, at least one unless at its end. */
    method Fetch(want: nat) returns (chunk: bytes, eof: bool)
      requires Sound() && want > 0
      modifies this`at
      ensures eof <==> old(at) == |data|
      ensures eof ==> chunk == [] && at == old(at)
      ensures !eof ==> 1 <= |chunk| <= want && at == old(at) + |chunk| <= |data|
      ensures chunk == data[old(at)..at]
    {
      if at == |data| {
        return [], true;
      }
      var n: nat :| 1 <= n <= want && at + n <= |data|;
      chunk, eof := data[at..at + n], false;
      at := at + n;
    }

    method ReadFull(n: uint64) returns (r: Result<bytes>)
      requires Sound()
      modifies this
      ensures Sound() && kind.None? && at >= old(at) && entry == old(entry)
      ensures r.Ok? <==> old(Allowed(n)) && old(at) + n <= |data|
      ensures r.Ok? ==> |r.value| == n && Read(old(Place()), r.value)
      ensures r.Err? ==> r.error in {ElemTooLarge, ValueTooLarge, UnexpectedEOF}
      ensures size == old(size) && byteval == old(byteval) && kinderr == old(kinderr)
    {
      var err := WillRead(n);
      if err.Some? {
        return Err(err.value);
      }
      var buf: bytes, eof := [], false;
      while |buf| < n && !eof
        invariant Sound() && old(at) <= at <= |data| && |buf| <= n
        invariant buf == data[old(at)..at]
        invariant eof ==> at == |data| && |buf| < n
        invariant Place() == Moved(old(Place()), n, limited).(at := at)
        invariant kind.None? && entry == old(entry)
        invariant size == old(size) && byteval == old(byteval) && kinderr == old(kinderr)
        decreases !eof, n - |buf|
      {
        var chunk, end := Fetch(n - |buf|);
        buf, eof := buf + chunk, end;
      }
      r := if eof then Err(UnexpectedEOF) else Ok(buf);
    }

    method ReadByte() returns (r: Result<byte>)
      requires Sound()
      modifies this
      ensures Sound() && kind.None? && at >= old(at) && entry == old(entry)
      ensures r.Ok? <==> old(Allowed(1)) && old(at) < |data|
      ensures r.Ok? ==> Place() == Moved(old(Place()), 1, limited) && at == old(at) + 1 && r.value == data[old(at)]
      ensures r.Err? ==> r.error in {ElemTooLarge, ValueTooLarge, UnexpectedEOF}
      ensures size == old(size) && byteval == old(byteval) && kinderr == old(kinderr)
    {
      var err := WillRead(1);
      if err.Some? {
        return Err(err.value);
      }
      if at == |data| {
        return Err(UnexpectedEOF);
      }
      r := Ok(data[at]);
      at := at + 1;
    }

    /** readUint: n big-endian bytes; more than one byte must not start with zero. */
    method ReadUint(n: nat) returns (r: Result<uint64>)
      requires Sound() && n <= 8
      modifies this
      ensures Sound() && kind.None? && at >= old(at) && entry == old(entry)
      ensures r.Ok? <==> old(Allowed(n)) && old(at) + n <= |data| && !(n > 1 && data[old(at)] == 0)
      ensures r.Ok? ==> at == old(at) + n && r.value == FromBigEndian(data[old(at)..at])
      ensures r.Ok? ==> Read(old(Place()), data[old(at)..at])
      ensures r.Err? ==> r.error in {ElemTooLarge, ValueTooLarge, UnexpectedEOF, CanonSize}
      ensures r == Err(CanonSize) <==> old(Allowed(n)) && old(at) + n <= |data| && n > 1 && data[old(at)] == 0
      ensures size == old(size) && byteval == old(byteval) && kinderr == old(kinderr)
    {
      if n == 0 {
        kind := None;
        return Ok(0);
      }
      if n == 1 {
        var b := ReadByte();
        if b.Err? {
          return Err(b.error);
        }
        OneByte(data, old(at), b.value);
        return Ok(b.value);
      }
      var digits := ReadFull(n);
      if digits.Err? {
        return Err(digits.error);
      }
      if digits.value[0] == 0 {
        return Err(CanonSize);
      }
      SmallNumber(digits.value);
      return Ok(FromBigEndian(digits.value));
    }

    /** readKind: the header at the read position, if it is canonical and may be read. */
    method ReadKind() returns (k: Kind, n: uint64, err: Option<Error>)
      requires Sound()
      modifies this
      ensures Sound() && kind.None? && at >= old(at) && entry == old(entry) && kinderr == old(kinderr)
      ensures err.None? ==> at > old(at) && HeaderAt(data, old(at), Some(k), at - old(at), n, byteval)
      ensures err.None? ==> Room(old(stack), at - old(at)) && Place() == Moved(old(Place()), at - old(at), limited)
      ensures err != Some(EOL)
      ensures var h := ParseHeader(data[old(at)..]);
              h.Some? && old(Allowed(if h.value.tag == 0 then 1 else h.value.tag)) ==> err.None?
    {
      hide Nested, Fits, FromBigEndian;
      ghost var s := data[at..];
      var b := ReadByte();
      if b.Err? {
        var e := if |stack| == 0 && b.error in {UnexpectedEOF, ValueTooLarge} then EOF else b.error;
        return ByteKind, 0, Some(e);
      }
      byteval := 0;
      assert s[0] == b.value;
      if b.value < 0x80 {
        byteval := b.value;
        return ByteKind, 0, None;
      } else if b.value < 0xB8 {
        return StringKind, b.value - 0x80, None;
      } else if b.value < 0xC0 {
        n, err := ReadSize(b.value - 0xB7, s, old(Place()));
        return StringKind, n, err;
      } else if b.value < 0xF8 {
        return ListKind, b.value - 0xC0, None;
      } else {
        n, err := ReadSize(b.value - 0xF7, s, old(Place()));
        return ListKind, n, err;
      }
    }

    /** The size digits after a long header's first byte. */
    method ReadSize(sizesize: nat, ghost s: bytes, ghost c: Cursor) returns (n: uint64, err: Option<Error>)
      requires Sound() && 1 <= sizesize <= 8 && kind.None?
      requires Room(c.stack, 1) && Place() == Moved(c, 1, limited) && c.at < |data| && s == data[c.at..]
      modifies this
      ensures Sound() && kind.None? && at >= old(at) && entry == old(entry)
      ensures kinderr == old(kinderr) && byteval == old(byteval)
      ensures err != Some(EOL)
      ensures var p := ParseLong(StringKind, sizesize, s[1..]);
              && (err.None? ==> p.Some? && n == p.value.size)
              && (err.None? ==> Room(c.stack, 1 + sizesize) && Place() == Moved(c, 1 + sizesize, limited))
              && (p.Some? && old(Allowed(sizesize)) ==> err.None?)
    {
      hide Nested, Fits, FromBigEndian;
      ghost var t := s[1..];
      assert t == data[at..];
      var r := ReadUint(sizesize);
      if r.Err? {
        return 0, Some(r.error);
      }
      assert t[..sizesize] == data[old(at)..at];
      MovedTwice(c, 1, sizesize, limited);
      if sizesize == 1 {
        OneDigit(t[..1]);
      }
      n := r.value;
      err := if n < 56 then Some(CanonSize) else None;
    }

    ghost predicate AtEndOfList()
      reads this
    {
      kind.None? && stack != [] && stack[|stack| - 1].pos == stack[|stack| - 1].size
    }

    /** The header ahead, read or not. */
    ghost function HeaderAhead(): Option<Info>
      reads this
    {
      if Entry().at <= |data| then ParseHeader(data[Entry().at..]) else None
    }

    /** A value with a canonical header lies ahead, it is allowed here, and reading it has not failed. */
    ghost predicate Promising()
      reads this
    {
      var c, h := Entry(), HeaderAhead();
      && (kind.Some? ==> kinderr.None?) && h.Some?
      && Room(c.stack, h.value.tag + h.value.size)
      && (limited ==> h.value.tag + h.value.size <= c.remaining)
    }

    /** The encoding of x lies ahead in full, and may be read. */
    ghost predicate Ahead(x: Item)
      reads this
    {
      var c := Entry();
      && Encodable(x) && (kind.Some? ==> kinderr.None?)
      && c.at <= |data| && Encode(x) <= data[c.at..]
      && Room(c.stack, |Encode(x)|) && (limited ==> |Encode(x)| <= c.remaining)
    }

    lemma AheadPromises(x: Item)
      requires Ahead(x)
      ensures Promising() && HeaderAhead() == Some(InfoOf(x))
    {
      ListComplete(data[Entry().at..], x);
    }

    /** Kind: the kind and size of the value ahead; only the first call reads the header. */
    method GetKind() returns (k: Kind, n: uint64, err: Option<Error>)
      requires Valid()
      modifies this
      ensures Valid() && at >= old(at)
      ensures err.None? ==> kind == Some(k) && size == n && kinderr.None? && entry == old(Entry())
      ensures err == Some(EOL) && old(kind.None?) ==> Place() == old(Place()) && kind.None?
      ensures old(kind.None?) ==> (err == Some(EOL) <==> old(AtEndOfList()))
      ensures old(kind.Some? && kinderr.None?) ==> err.None?
      ensures old(Promising()) ==> err.None?
    {
      hide Nested, Fits, ParseHeader;
      if kind.Some? {
        return kind.value, size, kinderr;
      }
      kinderr := None;
      ByteHeader(data[at..]);
      if |stack| > 0 && stack[|stack| - 1].pos == stack[|stack| - 1].size {
        return ByteKind, 0, Some(EOL);
      }
      ghost var from := Place();
      k, n, err := ReadKind();
      entry := from;
      kind, size, kinderr := Some(k), n, err;
      if kinderr == None {
        if |stack| == 0 {
          if limited && size > remaining {
            kinderr := Some(ValueTooLarge);
          }
        } else if size > stack[|stack| - 1].size - stack[|stack| - 1].pos {
          kinderr := Some(ElemTooLarge);
        }
      }
      if limited && kinderr == None {
        FitsRoom(stack, remaining, size);
      }
      return kind.value, size, kinderr;
    }

    /** List: enters the list ahead. */
    method List() returns (r: Result<uint64>)
      requires Valid()
      modifies this
      ensures Valid() && at >= old(at)
      ensures r.Ok? ==>
                var c, tag := old(Entry()), at - old(Entry()).at;
                && kind.None? && tag >= 1 && HeaderAt(data, c.at, Some(ListKind), tag, r.value, 0)
                && Room(c.stack, tag)
                && Place() == Moved(c, tag, limited).(stack := Advance(c.stack, tag) + [ListPos(0, r.value)])
      ensures old(kind.None?) ==> (r == Err(EOL) <==> old(AtEndOfList()))
      ensures old(kind.Some? && kinderr.None?) ==> r != Err(EOL)
      ensures old(Promising() && HeaderAhead().value.kind == ListKind) ==> r == Ok(old(HeaderAhead()).value.size)
    {
      hide Nested, Fits, ParseHeader;
      ByteHeader(if Entry().at <= |data| then data[Entry().at..] else []);
      var k, n, err := GetKind();
      if err.Some? {
        return Err(err.value);
      }
      if k != ListKind {
        return Err(ExpectedList);
      }
      PushKeeps(stack, n, remaining);
      stack := stack + [ListPos(0, n)];
      kind, size := None, 0;
      return Ok(n);
    }

    /** ListEnd: leaves a list read to its end, counting its bytes in the enclosing list. */
    method ListEnd() returns (err: Option<Error>)
      requires Valid()
      modifies this
      ensures Valid()
      ensures err == Some(NotInList) <==> old(stack) == []
      ensures err == Some(NotAtEOL) <==> old(stack != [] && stack[|stack| - 1].pos != stack[|stack| - 1].size)
      ensures err.None? ==>
                var outer, n := old(stack[..|stack| - 1]), old(stack[|stack| - 1].size);
                kind.None? && Room(outer, n) && Place() == old(Place()).(stack := Advance(outer, n))
      ensures err.Some? ==> err.value in {NotInList, NotAtEOL}
    {
      hide Nested, Fits;
      if |stack| == 0 {
        return Some(NotInList);
      }
      var tos := stack[|stack| - 1];
      if tos.pos != tos.size {
        return Some(NotAtEOL);
      }
      assert stack == stack[..|stack| - 1] + [ListPos(tos.size, tos.size)];
      PopKeeps(stack[..|stack| - 1], tos.size, remaining);
      stack := stack[..|stack| - 1];
      if |stack| > 0 {
        var top := stack[|stack| - 1];
        stack := stack[|stack| - 1 := ListPos(top.pos + tos.size, top.size)];
      }
      kind, size := None, 0;
      return None;
    }

    /** Bytes: what is read is exactly the canonical encoding of the string returned. */
    method Bytes(ghost want: Option<bytes>) returns (r: Result<bytes>)
      requires Valid() && (want.Some? ==> Ahead(Str(want.value)))
      modifies this
      ensures Valid() && at >= old(at)
      ensures r.Ok? ==>
                kind.None? && Encodable(Str(r.value)) && Read(old(Entry()), Encode(Str(r.value)))
      ensures old(kind.None?) ==> (r == Err(EOL) <==> old(AtEndOfList()))
      ensures old(kind.Some? && kinderr.None?) ==> r != Err(EOL)
      ensures want.Some? ==> r == Ok(want.value)
    {
      hide Nested, Fits, ParseHeader, Encode, Encodable, FromBigEndian, Took;
      ghost var c := Entry();
      ghost var s := if c.at <= |data| then data[c.at..] else [];
      ByteHeader(s);
      if want.Some? {
        AheadPromises(Str(want.value));
        StringComplete(s, want.value);
      }
      var k, n, err := GetKind();
      if err.Some? {
        return Err(err.value);
      }
      match k
      case ByteKind =>
        kind := None;
        ByteTook(data, limited, c, Place(), byteval);
        return Ok([byteval]);
      case StringKind =>
        r := StringContent(n, c, s, want);
      case ListKind =>
        return Err(ExpectedString);
    }

    method StringContent(n: uint64, ghost c: Cursor, ghost s: bytes, ghost want: Option<bytes>)
      returns (r: Result<bytes>)
      requires Valid() && kind == Some(StringKind) && kinderr.None? && size == n && entry == c
      requires s == data[c.at..] && (want.Some? ==> StringAt(s, Info(StringKind, at - c.at, n), want.value))
      modifies this
      ensures Valid() && kind.None? && at >= old(at) && r != Err(EOL)
      ensures r.Ok? ==>
                Encodable(Str(r.value)) && Read(c, Encode(Str(r.value)))
      ensures want.Some? ==> r == Ok(want.value)
    {
      hide Nested, Fits, ParseHeader, Encode, Encodable, FromBigEndian, Took;
      ghost var tag := at - c.at;
      r := ReadFull(n);
      if r.Err? {
        return;
      }
      StringTook(data, limited, c, Place(), tag, r.value);
      if n == 1 && r.value[0] < 128 {
        return Err(CanonSize);
      }
    }

    /** Raw: the bytes of the value ahead as they stood in the input, header included. */
    method Raw() returns (r: Result<bytes>)
      requires Valid()
      modifies this
      ensures Valid() && at >= old(at)
      ensures r.Ok? ==> kind.None? && Read(old(Entry()), r.value)
      ensures var c, h := old(Entry()), old(HeaderAhead());
              old(Promising()) && c.at + h.value.tag + h.value.size <= |data|
              ==> r.Ok? && |r.value| == h.value.tag + h.value.size
    {
      hide Nested, Fits, ParseHeader, Header, FromBigEndian, Took;
      ghost var c := Entry();
      ghost var s := if c.at <= |data| then data[c.at..] else [];
      ByteHeader(s);
      var k, n, err := GetKind();
      if err.Some? {
        return Err(err.value);
      }
      if k == ByteKind {
        kind := None;
        RawTook(data, limited, c, Place(), k, 1, [], byteval);
        return Ok([byteval]);
      }
      ghost var tag := at - c.at;
      var content := ReadFull(n);
      if content.Err? {
        return content;
      }
      RawTook(data, limited, c, Place(), k, tag, content.value, byteval);
      return Ok(Header(if k == StringKind then STRING_BASE else LIST_BASE, n) + content.value);
    }

    /** uint: an integer is returned only for its canonical encoding, within the given
        width in bytes, and is returned whenever that encoding lies ahead. */
    method Uint(width: nat, ghost want: Option<nat>) returns (r: Result<uint64>)
      requires Valid() && 1 <= width <= 8
      requires want.Some? ==> |BigEndian(want.value)| <= width && Ahead(Str(BigEndian(want.value)))
      modifies this
      ensures Valid() && at >= old(at)
      ensures r.Ok? ==>
                && kind.None? && |BigEndian(r.value)| <= width
                && Read(old(Entry()), Encode(Str(BigEndian(r.value))))
      ensures want.Some? ==> r == Ok(want.value)
    {
      hide Nested, Fits, ParseHeader, Encode, Encodable, FromBigEndian, BigEndian;
      ghost var c := Entry();
      ghost var s := if c.at <= |data| then data[c.at..] else [];
      ByteHeader(s);
      if want.Some? {
        AheadPromises(Str(BigEndian(want.value)));
        StringComplete(s, BigEndian(want.value));
      }
      var k, n, err := GetKind();
      if err.Some? {
        return Err(err.value);
      }
      match k
      case ByteKind =>
        DigitValue(byteval);
        ByteTook(data, limited, c, Place(), byteval);
        if byteval == 0 {
          return Err(CanonInt);
        }
        kind := None;
        return Ok(byteval);
      case StringKind =>
        r := UintContent(n, width, c, s, want);
      case ListKind =>
        return Err(ExpectedString);
    }

    method UintContent(n: uint64, width: nat, ghost c: Cursor, ghost s: bytes, ghost want: Option<nat>)
      returns (r: Result<uint64>)
      requires Valid() && kind == Some(StringKind) && kinderr.None? && size == n && entry == c
      requires 1 <= width <= 8 && s == data[c.at..]
      requires want.Some? ==> && |BigEndian(want.value)| <= width
                              && StringAt(s, Info(StringKind, at - c.at, n), BigEndian(want.value))
      modifies this
      ensures Valid() && at >= old(at)
      ensures r.Ok? ==>
                && kind.None? && |BigEndian(r.value)| <= width
                && Read(c, Encode(Str(BigEndian(r.value))))
      ensures want.Some? ==> r == Ok(want.value)
    {
      hide Nested, Fits, ParseHeader, Encode, Encodable, FromBigEndian, BigEndian, Took;
      ghost var tag := at - c.at;
      if want.Some? {
        SliceOfRest(data, c.at, tag, tag + n);
        CanonicalDigits(want.value);
      }
      if n > width {
        return Err(UintOverflow);
      }
      r := ReadUint(n);
      if r == Err(CanonSize) {
        return Err(CanonInt);
      }
      if r.Err? {
        return;
      }
      ghost var digits := data[c.at + tag..at];
      SliceOfRest(data, c.at, tag, tag + n);
      ValueOfDigits(digits);
      StringTook(data, limited, c, Place(), tag, digits);
      if n > 0 && r.value < 128 {
        return Err(CanonSize);
      }
    }

    /** decodeInterface: an item is returned only for exactly its canonical encoding,
        and is returned whenever that encoding lies ahead. */
    method DecodeItem(ghost want: Option<Item>) returns (r: Result<Item>)
      requires Valid()
      requires want.Some? ==> Ahead(want.value)
      modifies this
      ensures Valid() && at >= old(at)
      ensures r.Ok? ==> kind.None? && Encodable(r.value) && Read(old(Entry()), Encode(r.value))
      ensures old(kind.None?) ==> (r == Err(EOL) <==> old(AtEndOfList()))
      ensures old(kind.None?) && r == Err(EOL) ==> Place() == old(Place()) && kind.None?
      ensures want.Some? ==> r == Ok(want.value)
      decreases |data| - Entry().at, 5
    {
      hide Nested, Fits, ParseHeader, Encode, Encodable;
      ghost var c := Entry();
      ByteHeader(if c.at <= |data| then data[c.at..] else []);
      if want.Some? {
        AheadPromises(want.value);
      }
      var k, _, err := GetKind();
      if err.Some? {
        return Err(err.value);
      }
      assert want.Some? ==> Ahead(want.value) && (want.value.List? <==> k == ListKind);
      if k == ListKind {
        var xs := DecodeList(c, want);
        r := if xs.Ok? then Ok(Item.List(xs.value)) else Err(xs.error);
      } else {
        var b := Bytes(if want.Some? then Some(want.value.content) else None);
        r := if b.Ok? then Ok(Str(b.value)) else Err(b.error);
      }
    }

    /** Exactly the bytes e have been read since place c. */
    ghost predicate Read(c: Cursor, e: bytes)
      reads this
    {
      Took(data, limited, c, Place(), e)
    }

    /** decodeListSlice, for elements of any kind. */
    method DecodeList(ghost c: Cursor, ghost want: Option<Item>) returns (r: Result<seq<Item>>)
      requires Valid() && kind == Some(ListKind) && kinderr.None? && entry == c
      requires want.Some? ==> Ahead(want.value)
      modifies this
      ensures Valid() && at >= old(at) && r != Err(EOL)
      ensures r.Ok? ==> kind.None? && Encodable(Item.List(r.value)) && Read(c, Encode(Item.List(r.value)))
      ensures want.Some? ==> r.Ok? && Item.List(r.value) == want.value
      decreases |data| - Entry().at, 4
    {
      hide Nested, Fits, ParseHeader, Encode, Encodable, EncodeAll, AllEncodable, ElemsAhead, Took;
      ghost var s := data[c.at..];
      ByteHeader(s);
      if want.Some? {
        ListComplete(s, want.value);
        ListPayload(s, want.value);
      }
      var n := List();
      if n.Err? {
        return Err(n.error);
      }
      ghost var tag := at - c.at;
      ghost var outer := Advance(c.stack, tag);
      SliceOfRest(data, c.at, tag, tag);
      r := DecodeBody(outer, n.value, if want.Some? then Some(want.value.items) else None);
      if r.Err? {
        return;
      }
      ListTook(data, limited, c, Place(), tag, r.value);
    }

    /** The elements and the end of a list just entered. */
    method DecodeBody(ghost outer: seq<ListPos>, n: uint64, ghost want: Option<seq<Item>>)
      returns (r: Result<seq<Item>>)
      requires Valid() && kind.None? && stack == outer + [ListPos(0, n)]
      requires want.Some? ==> ElemsAhead(want.value, data[at..], n)
      modifies this
      ensures Valid() && at >= old(at) && r != Err(EOL)
      ensures r.Ok? ==>
                && kind.None? && AllEncodable(r.value) && |EncodeAll(r.value)| == n
                && Read(old(Place()).(stack := outer), EncodeAll(r.value))
      ensures want.Some? ==> r == Ok(want.value)
      decreases |data| - Entry().at, 8
    {
      EmptyElems();
      if want.Some? {
        NextElem(want.value, data[at..], n);
      }
      hide Nested, Fits, ParseHeader, Encode, Encodable, EncodeAll, AllEncodable, ElemsAhead;
      if n == 0 {
        r := Ok([]);
      } else {
        r := DecodeElems(outer, n, want);
        if r.Err? {
          return;
        }
      }
      assert stack == outer + [ListPos(n, n)];
      assert stack[..|stack| - 1] == outer;
      var err := ListEnd();
    }

    lemma AllowedHere(n: nat)
      requires Valid() && stack != [] && Room(stack, n)
      ensures Allowed(n) && at <= |data|
    {
      if limited {
        FitsRoom(stack, remaining, n);
      }
    }

    method DecodeElems(ghost outer: seq<ListPos>, ghost n: nat, ghost want: Option<seq<Item>>)
      returns (r: Result<seq<Item>>)
      requires Valid() && kind.None? && n < TWO_64 && stack == outer + [ListPos(0, n)]
      requires want.Some? ==> ElemsAhead(want.value, data[at..], n)
      modifies this
      ensures Valid() && at >= old(at) && r != Err(EOL)
      ensures r.Ok? ==>
                && kind.None? && AllEncodable(r.value) && |EncodeAll(r.value)| == n
                && Read(old(Place()), EncodeAll(r.value)) && stack == outer + [ListPos(n, n)]
      ensures want.Some? ==> r == Ok(want.value)
      decreases |data| - Entry().at, 7
    {
      hide Nested, Fits, Encode, Encodable, EncodeAll, AllEncodable, ElemsAhead, Took, Moved,
        HeaderAt, ParseHeader, Advance, Prefix, Going, Room, Stream.Ready;
      var items: seq<Item> := [];
      ghost var c := Place();
      ghost var rest := if want.Some? then want.value else [];
      EmptyElems();
      TookNothing(data, limited, c);
      GoingStarts(want, data[at..], n);
      while true
        invariant Valid() && kind.None? && at >= old(at)
        invariant AllEncodable(items) && Read(c, EncodeAll(items))
        invariant |EncodeAll(items)| <= n && stack == outer + [ListPos(|EncodeAll(items)|, n)]
        invariant Going(items, rest, want, data[at..], n - |EncodeAll(items)|)
        decreases |data| - at
      {
        ghost var mid, s, p := Place(), data[at..], |EncodeAll(items)|;
        GoingOn(items, rest, want, s, n - p);
        var next := DecodeElem(outer, p, n, rest);
        if next == Err(EOL) {
          break;
        }
        if next.Err? {
          return Err(next.error);
        }
        TookTwice(data, limited, c, mid, Place(), EncodeAll(items), Encode(next.value));
        EncodeAllSnoc(items, next.value);
        GoingStep(items, rest, want, s, n - p, next.value);
        items := items + [next.value];
        rest := if rest != [] then rest[1..] else [];
      }
      return Ok(items);
    }

    /** One element of a list of which p of n bytes have been read. */
    method DecodeElem(ghost outer: seq<ListPos>, ghost p: nat, ghost n: nat, ghost rest: seq<Item>) returns (next: Result<Item>)
      requires Valid() && kind.None? && p <= n < TWO_64 && stack == outer + [ListPos(p, n)]
      requires rest != [] ==> Encodable(rest[0]) && Encode(rest[0]) <= data[at..] && |Encode(rest[0])| <= n - p
      modifies this
      ensures Valid() && at >= old(at)
      ensures next == Err(EOL) <==> p == n
      ensures next == Err(EOL) ==> Place() == old(Place()) && kind.None?
      ensures next.Ok? ==>
                var e := Encode(next.value);
                && kind.None? && Encodable(next.value) && Read(old(Place()), e)
                && at > old(at) && p + |e| <= n && stack == outer + [ListPos(p + |e|, n)]
                && |e| <= |data[old(at)..]| && data[at..] == data[old(at)..][|e|..]
      ensures rest != [] ==> next == Ok(rest[0])
      decreases |data| - Entry().at, 6
    {
      hide Nested, Fits, Encode, Encodable, Took, Moved, HeaderAt, ParseHeader, Advance, Stream.Ready;
      ghost var mid := Place();
      AllowedHere(n - p);
      next := DecodeItem(if rest != [] then Some(rest[0]) else None);
      if next.Ok? {
        EncodeNonEmpty(next.value);
        TookOne(data, limited, mid, Place(), Encode(next.value), outer, p, n);
      }
    }
  }

  lemma TookNothing(data: bytes, limited: bool, c: Cursor)
    requires c.at <= |data| && Nested(c.stack)
    ensures Took(data, limited, c, c, [])
  {
    assert Advance(c.stack, 0) == c.stack;
  }

  /** The elements still wanted are those at the front of what is left of the list. */
  ghost predicate Going(items: seq<Item>, rest: seq<Item>, want: Option<seq<Item>>, s: bytes, left: nat)
  {
    if want.Some? then Prefix(items, rest, want.value) && ElemsAhead(rest, s, left) else rest == []
  }

  lemma GoingStarts(want: Option<seq<Item>>, s: bytes, n: nat)
    requires want.Some? ==> ElemsAhead(want.value, s, n)
    ensures Going([], if want.Some? then want.value else [], want, s, n)
  {
    if want.Some? {
      PrefixStart(want.value);
    }
  }

  lemma GoingOn(items: seq<Item>, rest: seq<Item>, want: Option<seq<Item>>, s: bytes, left: nat)
    requires Going(items, rest, want, s, left)
    ensures rest != [] ==> want.Some? && Encodable(rest[0]) && Encode(rest[0]) <= s && |Encode(rest[0])| <= left
    ensures want.Some? ==> (left == 0 <==> rest == []) && (rest == [] ==> items == want.value)
  {
    if want.Some? {
      NextElem(rest, s, left);
      if rest == [] {
        PrefixDone(items, rest, want.value);
      }
    }
  }

  lemma GoingStep(items: seq<Item>, rest: seq<Item>, want: Option<seq<Item>>, s: bytes, left: nat, x: Item)
    requires Going(items, rest, want, s, left) && |Encode(x)| <= |s| && |Encode(x)| <= left
    requires want.Some? ==> rest != [] && x == rest[0]
    ensures Going(items + [x], if rest != [] then rest[1..] else [], want, s[|Encode(x)|..], left - |Encode(x)|)
  {
    if want.Some? {
      NextElem(rest, s, left);
      PrefixStep(items, rest, want.value);
    }
  }

  ghost predicate Prefix(done: seq<Item>, rest: seq<Item>, all: seq<Item>)
  {
    |done| + |rest| == |all| && done == all[..|done|] && rest == all[|done|..]
  }

  lemma PrefixDone(done: seq<Item>, rest: seq<Item>, all: seq<Item>)
    requires Prefix(done, rest, all) && rest == []
    ensures done == all
  {
  }

  lemma PrefixStart(all: seq<Item>)
    ensures Prefix([], all, all)
  {
  }

  lemma PrefixStep(done: seq<Item>, rest: seq<Item>, all: seq<Item>)
    requires Prefix(done, rest, all) && rest != []
    ensures Prefix(done + [rest[0]], rest[1..], all)
  {
  }

  lemma TookOne(data: bytes, limited: bool, c: Cursor, d: Cursor, e: bytes, outer: seq<ListPos>, p: uint64, n: uint64)
    requires c.at <= |data| && Took(data, limited, c, d, e) && c.stack == outer + [ListPos(p, n)] && p <= n
    ensures d.at == c.at + |e| <= |data| && p + |e| <= n
    ensures d.stack == outer + [ListPos(p + |e|, n)]
    ensures data[d.at..] == data[c.at..][|e|..]
  {
    assert Advance(c.stack, |e|) == outer + [ListPos(p + |e|, n)];
  }

  /** The encodings of xs, n bytes in all, are at the front of s. */
  ghost predicate ElemsAhead(xs: seq<Item>, s: bytes, n: nat)
  {
    AllEncodable(xs) && |EncodeAll(xs)| == n && EncodeAll(xs) <= s
  }

  lemma EmptyElems()
    ensures EncodeAll([]) == [] && AllEncodable([])
  {
  }

  lemma NextElem(xs: seq<Item>, s: bytes, n: nat)
    requires ElemsAhead(xs, s, n)
    ensures n == 0 <==> xs == []
    ensures xs != [] ==>
              var e := Encode(xs[0]);
              && Encodable(xs[0]) && e <= s && 1 <= |e| <= n
              && ElemsAhead(xs[1..], s[|e|..], n - |e|)
  {
    if xs != [] {
      var e := Encode(xs[0]);
      EncodeNonEmpty(xs[0]);
      assert e == EncodeAll(xs)[..|e|] == s[..|e|];
      assert EncodeAll(xs[1..]) == EncodeAll(xs)[|e|..] <= s[|e|..];
    }
  }

  lemma ListPayload(s: bytes, x: Item)
    requires Encodable(x) && Encode(x) <= s
    ensures x.List? ==> ElemsAhead(x.items, s[InfoOf(x).tag..], InfoOf(x).size)
  {
    if x.List? {
      var e, h := Encode(x), InfoOf(x);
      assert EncodeAll(x.items) == e[h.tag..] == s[h.tag..][..h.size];
    }
  }

  /** A list header and its elements make up the encoding of the list. */
  lemma ListTook(data: bytes, limited: bool, c: Cursor, d: Cursor, tag: nat, xs: seq<Item>)
    requires HeaderAt(data, c.at, Some(ListKind), tag, |EncodeAll(xs)|, 0)
    requires Room(c.stack, tag) && Took(data, limited, Moved(c, tag, limited), d, EncodeAll(xs))
    requires AllEncodable(xs)
    ensures Encodable(Item.List(xs)) && Took(data, limited, c, d, Encode(Item.List(xs)))
  {
    hide ParseHeader, Encode, EncodeAll, AllEncodable, Encodable;
    var p := EncodeAll(xs);
    var s := data[c.at..];
    SliceOfRest(data, c.at, 0, tag + |p|);
    SliceOfRest(data, c.at, tag, tag + |p|);
    MovedTwice(c, tag, |p|, limited);
    ListSound(s, tag, xs);
  }

  lemma ListSound(s: bytes, tag: nat, xs: seq<Item>)
    requires ParseHeader(s) == Some(Info(ListKind, tag, |EncodeAll(xs)|))
    requires AllEncodable(xs) && EncodeAll(xs) <= s[tag..]
    ensures Encodable(Item.List(xs)) && Encode(Item.List(xs)) == s[..tag + |EncodeAll(xs)|]
  {
    ParsedHeaderIsCanonical(s);
    var p := EncodeAll(xs);
    assert s[..tag + |p|] == s[..tag] + s[tag..][..|p|];
  }

  /** Header h at the front of s announces the string b. */
  ghost predicate StringAt(s: bytes, h: Info, b: bytes)
  {
    && ParseHeader(s) == Some(h) && h.kind != ListKind && h.tag + h.size <= |s|
    && b == s[h.tag..h.tag + h.size]
    && (h.kind == StringKind ==> !(|b| == 1 && b[0] < 128))
  }

  lemma SliceOfRest(s: bytes, a: nat, i: nat, j: nat)
    requires i <= j && a + j <= |s|
    ensures s[a..][i..j] == s[a + i..a + j]
    ensures s[a..][i..] == s[a + i..]
    ensures i == 0 ==> s[a..][..j] == s[a..a + j]
  {
  }

  lemma ListComplete(s: bytes, x: Item)
    requires Encodable(x) && Encode(x) <= s
    ensures ParseHeader(s) == Some(InfoOf(x)) && |Encode(x)| == InfoOf(x).tag + InfoOf(x).size
  {
    var e := Encode(x);
    assert s == e + s[|e|..];
    EncodeParses(x, s[|e|..]);
  }

  lemma StringComplete(s: bytes, b: bytes)
    requires Encodable(Str(b)) && Encode(Str(b)) <= s
    ensures StringAt(s, InfoOf(Str(b)), b)
    ensures |Encode(Str(b))| == InfoOf(Str(b)).tag + InfoOf(Str(b)).size
  {
    var e := Encode(Str(b));
    assert s == e + s[|e|..];
    EncodeParses(Str(b), s[|e|..]);
    var h := InfoOf(Str(b));
    assert s[h.tag..h.tag + h.size] == e[h.tag..];
  }

  /** The digits of an integer that does not fit in a byte below 0x80, or of zero. */
  ghost predicate CanonicalInt(digits: bytes)
  {
    digits == [] || (digits[0] != 0 && FromBigEndian(digits) >= 128)
  }

  lemma CanonicalDigits(v: nat)
    ensures FromBigEndian(BigEndian(v)) == v
    ensures !(|BigEndian(v)| == 1 && BigEndian(v)[0] < 128) ==> CanonicalInt(BigEndian(v))
  {
    BigEndianInverse(v);
    if v < 128 && v != 0 {
      DigitValue(v);
    }
  }

  lemma DigitValue(v: byte)
    ensures v != 0 ==> BigEndian(v) == [v]
    ensures forall w: nat :: BigEndian(w) == [v] ==> w == v
    ensures v == 0 ==> forall w: nat :: BigEndian(w) != [v]
  {
    if v != 0 {
      assert BigEndian(v) == BigEndian(0) + [v];
    }
    forall w: nat | BigEndian(w) == [v]
      ensures w == v
    {
      BigEndianInverse(w);
      OneDigit([v]);
    }
  }

  lemma ValueOfDigits(digits: bytes)
    ensures digits == [] ==> FromBigEndian(digits) == 0
    ensures digits != [] && digits[0] != 0 ==> BigEndian(FromBigEndian(digits)) == digits
    ensures |digits| == 1 ==> FromBigEndian(digits) == digits[0]
    ensures FromBigEndian([]) == 0 && BigEndian(0) == []
  {
    if digits != [] && digits[0] != 0 {
      FromBigEndianInverse(digits);
    }
    if |digits| == 1 {
      OneDigit(digits);
    }
  }

  lemma RawTook(data: bytes, limited: bool, c: Cursor, d: Cursor, k: Kind, tag: nat, b: bytes, v: byte)
    requires HeaderAt(data, c.at, Some(k), tag, |b|, v) && Room(c.stack, tag)
    requires if k == ByteKind then d == Moved(c, tag, limited) else Took(data, limited, Moved(c, tag, limited), d, b)
    ensures if k == ByteKind then Took(data, limited, c, d, [v])
            else
              var h := Header(if k == StringKind then STRING_BASE else LIST_BASE, |b|);
              |h| == tag && Took(data, limited, c, d, h + b)
  {
    hide ParseHeader, Header;
    if k == ByteKind {
      SliceOfRest(data, c.at, 0, 1);
    } else {
      ParsedHeaderIsCanonical(data[c.at..]);
      SliceOfRest(data, c.at, 0, tag);
      var mid := Moved(c, tag, limited);
      TookTwice(data, limited, c, mid, d, data[c.at..mid.at], b);
    }
  }

  lemma ByteTook(data: bytes, limited: bool, c: Cursor, d: Cursor, v: byte)
    requires HeaderAt(data, c.at, Some(ByteKind), 1, 0, v) && Room(c.stack, 1) && d == Moved(c, 1, limited)
    ensures Encodable(Str([v])) && Took(data, limited, c, d, Encode(Str([v])))
    ensures data[c.at..][0..1] == [v]
  {
    ByteSound(data[c.at..], v);
    SliceOfRest(data, c.at, 0, 1);
  }

  /** A string header and its content: the content as it stood in the input, and together the
      encoding of that string unless it should have been a single byte. */
  lemma StringTook(data: bytes, limited: bool, c: Cursor, d: Cursor, tag: nat, b: bytes)
    requires HeaderAt(data, c.at, Some(StringKind), tag, |b|, 0)
    requires Room(c.stack, tag) && Took(data, limited, Moved(c, tag, limited), d, b)
    ensures b == data[c.at..][tag..tag + |b|]
    ensures !(|b| == 1 && b[0] < 128) ==> Encodable(Str(b)) && Took(data, limited, c, d, Encode(Str(b)))
  {
    hide ParseHeader, Encode, Encodable;
    SliceOfRest(data, c.at, 0, tag + |b|);
    SliceOfRest(data, c.at, tag, tag + |b|);
    MovedTwice(c, tag, |b|, limited);
    if !(|b| == 1 && b[0] < 128) {
      StringSound(data[c.at..], tag, |b|);
    }
  }

  lemma ByteSound(s: bytes, v: byte)
    requires s != [] && s[0] == v < 0x80
    ensures Encodable(Str([v])) && Encode(Str([v])) == [v] == s[..1]
  {
  }

  lemma StringSound(s: bytes, tag: nat, n: nat)
    requires ParseHeader(s) == Some(Info(StringKind, tag, n)) && tag + n <= |s|
    requires !(n == 1 && s[tag] < 128)
    ensures Encodable(Str(s[tag..tag + n])) && Encode(Str(s[tag..tag + n])) == s[..tag + n]
  {
    ParsedHeaderIsCanonical(s);
    assert s[..tag + n] == s[..tag] + s[tag..tag + n];
  }

  lemma FitsRoom(stack: seq<ListPos>, left: int, n: nat)
    requires Fits(stack, left) && Room(stack, n)
    ensures stack != [] ==> n <= left
  {
  }

  lemma ByteHeader(s: bytes)
    ensures ParseHeader(s).Some? ==> s != []
    ensures s != [] && s[0] < 0x80 ==> ParseHeader(s) == Some(Info(ByteKind, 0, 1))
    ensures ParseHeader(s).Some? && s[0] >= 0x80 ==> ParseHeader(s).value.kind != ByteKind && ParseHeader(s).value.tag >= 1
  {
  }

  lemma OneByte(data: bytes, i: nat, v: byte)
    requires i < |data| && data[i] == v
    ensures data[i..i + 1] == [v] && FromBigEndian(data[i..i + 1]) == v
  {
    assert data[i..i + 1] == [v];
    OneDigit([v]);
  }

  lemma OneDigit(t: bytes)
    requires |t| == 1
    ensures FromBigEndian(t) == t[0]
  {
    var front := t[..0];
    assert front == [] && FromBigEndian(front) == 0;
  }

  lemma SmallNumber(digits: bytes)
    requires |digits| <= 8
    ensures FromBigEndian(digits) < TWO_64
  {
    FromBigEndianBound(digits);
    Pow256Monotone(|digits|, 8);
    Pow256Values();
  }

  /** The canonical header found at data[start..], as Kind reports it. */
  ghost predicate HeaderAt(data: bytes, start: nat, kind: Option<Kind>, tag: nat, size: nat, byteval: byte)
  {
    && kind.Some? && start + tag <= |data|
    && if kind.value == ByteKind
       then tag == 1 && size == 0 && byteval == data[start] && byteval < 0x80
       else ParseHeader(data[start..]) == Some(Info(kind.value, tag, size))
  }

  // ---------------------------------------------------------------- the entry points

  /** The widths in bytes of Go's unsigned integers. */
  type Width = w: int | 1 <= w <= 8 witness 1

  datatype Call = AskKind | Enter | Leave | ReadBytes | ReadRaw | ReadUint(width: Width) | ReadItem

  /** Whatever is called in whatever order on whatever input, no position passes its list's size,
      every inner list stays within what its parent has left, and the lists stay within the limit. */
  method RunCalls(data: bytes, inputLimit: uint64, slice: bool, calls: seq<Call>) returns (s: Stream)
    requires |data| < TWO_64
    ensures fresh(s) && s.data == data && s.at <= |data|
    ensures Nested(s.stack) && (s.limited ==> Fits(s.stack, s.remaining))
  {
    s := new Stream(data, inputLimit, slice);
    for i := 0 to |calls|
      invariant s.Valid() && s.data == data
    {
      hide Nested, Fits, Stream.Ready;
      match calls[i] {
      case AskKind => var _, _, _ := s.GetKind();
      case Enter => var _ := s.List();
      case Leave => var _ := s.ListEnd();
      case ReadBytes => var _ := s.Bytes(None);
      case ReadRaw => var _ := s.Raw();
      case ReadUint(width) => var _ := s.Uint(width, None);
      case ReadItem => var _ := s.DecodeItem(None);
      }
    }
  }

  /** The encoding of x is at the front of the input, within its limit (zero: none). */
  ghost predicate Starts(x: Item, data: bytes, inputLimit: nat)
  {
    Encodable(x) && Encode(x) <= data && (inputLimit > 0 ==> |Encode(x)| <= inputLimit)
  }

  /** Decode on a fresh stream: the value returned is the one whose encoding starts the
      input, and there is one exactly if some encoding within the limit does. */
  method DecodeFirst(data: bytes, inputLimit: uint64, slice: bool) returns (r: Result<Item>, used: nat)
    requires |data| < TWO_64
    ensures r.Ok? ==> Starts(r.value, data, inputLimit) && used == |Encode(r.value)|
    ensures forall x :: Starts(x, data, inputLimit) ==> r == Ok(x)
  {
    hide Nested, Fits, Encode, Encodable;
    var s := new Stream(data, inputLimit, slice);
    ghost var want := if exists x :: Starts(x, data, inputLimit)
                      then (var x :| Starts(x, data, inputLimit); Some(x)) else None;
    assert data[0..] == data;
    r := s.DecodeItem(want);
    used := s.at;
    assert data[0..used] == data[..used];
    forall x | Starts(x, data, inputLimit)
      ensures r == Ok(x)
    {
      PrefixFree(x, want.value, data);
    }
  }

  /** DecodeBytes accepts exactly the encodings, and returns what was encoded. */
  method DecodeBytes(b: bytes) returns (r: Result<Item>)
    requires |b| < TWO_64
    ensures r.Ok? ==> Encodable(r.value) && Encode(r.value) == b
    ensures forall x :: Encodable(x) && Encode(x) == b ==> r == Ok(x)
  {
    var used;
    r, used := DecodeFirst(b, |b|, true);
    forall x | Encodable(x) && Encode(x) == b
      ensures Starts(x, b, |b|)
    {
    }
    if r.Ok? && |b| - used > 0 {
      r := Err(MoreThanOneValue);
    }
  }

  /** What the buffered encoder writes, the stream decoder reads back. */
  method RoundTrip(item: Item) returns (r: Result<Item>)
    requires Encodable(item) && |Encode(item)| < TWO_64
    ensures r == Ok(item)
  {
    var b := RlpEncode.EncodeToBytes(item);
    r := DecodeBytes(b);
  }

  /** What the stream decoder accepts, the buffered encoder writes back byte for byte. */
  method Reencode(b: bytes) returns (ok: bool, out: bytes)
    requires |b| < TWO_64
    ensures ok ==> out == b
    ensures !ok ==> forall x :: Encodable(x) ==> Encode(x) != b
  {
    var r := DecodeBytes(b);
    ok, out := r.Ok?, [];
    if ok {
      out := RlpEncode.EncodeToBytes(r.value);
    }
  }
}
