/** x/ibc and x/sidechain: packages to other chains, kept under ordered keys until they are
    confirmed, and the counters and permissions of channels. */
module Ibc {
  import opened Bytes
  import opened Listing
  import opened Overlays
  import CacheStore
  import MergeIterator
  import PrefixStore

  /** The stores of both modules behind one cache: their keys differ. */
  type Store = CacheStore.Store
  type Contents = map<bytes, bytes>

  // ---------------------------------------------------------------- fixed-width integers

  /** binary.BigEndian.PutUint16 and PutUint64: n in exactly k bytes. */
  function Fixed(n: nat, k: nat): (bs: bytes)
    ensures |bs| == k
  {
    if k == 0 then [] else Fixed(n / 256, k - 1) + [n % 256]
  }

  lemma {:induction false} FixedInverse(n: nat, k: nat)
    requires n < Pow256(k)
    ensures FromBigEndian(Fixed(n, k)) == n
  {
    if k > 0 {
      FixedInverse(n / 256, k - 1);
      assert Fixed(n, k)[..k - 1] == Fixed(n / 256, k - 1);
    }
  }

  /** Numbers of the same width are ordered as their bytes. */
  lemma {:induction false} FixedOrder(m: nat, n: nat, k: nat)
    requires m < Pow256(k) && n < Pow256(k)
    ensures Less(Fixed(m, k), Fixed(n, k)) <==> m < n
    decreases k
  {
    if k > 0 {
      FixedOrder(m / 256, n / 256, k - 1);
      FixedOrder(n / 256, m / 256, k - 1);
      FixedInverse(m / 256, k - 1);
      FixedInverse(n / 256, k - 1);
      LastByte(Fixed(m / 256, k - 1), Fixed(n / 256, k - 1), m % 256, n % 256);
      CompareTotal(Fixed(m / 256, k - 1), Fixed(n / 256, k - 1));
    }
  }

  lemma {:induction false} LastByte(a: bytes, b: bytes, x: byte, y: byte)
    requires |a| == |b|
    ensures Less(a + [x], b + [y]) <==> Less(a, b) || (a == b && x < y)
  {
    if a == [] {
      assert a + [x] == [x] && b + [y] == [y];
      assert [x][1..] == [] && [y][1..] == [];
    } else {
      LastByte(a[1..], b[1..], x, y);
      assert (a + [x])[1..] == a[1..] + [x];
      assert (b + [y])[1..] == b[1..] + [y];
      assert a == [a[0]] + a[1..] && b == [b[0]] + b[1..];
    }
  }

  // ---------------------------------------------------------------- package keys

  type uint16 = x: int | 0 <= x < 0x1_0000

  /** A channel to another chain. */
  datatype Channel = Channel(dest: uint16, id: byte)

  const KEY_LENGTH: nat := 14

  /** buildIBCPackageKeyPrefix. */
  function KeyPrefix(src: uint16, c: Channel): (key: bytes)
    ensures |key| == 6
  {
    [0] + Fixed(src, 2) + Fixed(c.dest, 2) + [c.id]
  }

  /** buildIBCPackageKey. */
  function Key(src: uint16, c: Channel, sequence: uint64): (key: bytes)
    ensures |key| == KEY_LENGTH
  {
    KeyPrefix(src, c) + Fixed(sequence, 8)
  }

  /** The sequence in a key, as cleanup reads it. */
  function SequenceOf(key: bytes): nat
    requires |key| == KEY_LENGTH
  {
    FromBigEndian(key[6..])
  }

  lemma SequenceOfKey(src: uint16, c: Channel, sequence: uint64)
    ensures SequenceOf(Key(src, c, sequence)) == sequence
  {
    Pow256Values();
    FixedInverse(sequence, 8);
    assert Key(src, c, sequence)[6..] == Fixed(sequence, 8);
  }

  /** Where the parts of a key are, as big-endian numbers. */
  lemma KeyReads(src: uint16, c: Channel, sequence: uint64)
    ensures var key := Key(src, c, sequence);
            && key[0] == 0 && FromBigEndian(key[1..3]) == src && FromBigEndian(key[3..5]) == c.dest
            && key[5] == c.id && FromBigEndian(key[6..14]) == sequence
  {
    Pow256Values();
    FixedInverse(src, 2);
    FixedInverse(c.dest, 2);
    FixedInverse(sequence, 8);
    var key := Key(src, c, sequence);
    assert key[1..3] == Fixed(src, 2) && key[3..5] == Fixed(c.dest, 2) && key[6..14] == Fixed(sequence, 8);
  }

  lemma PrefixInjective(src: uint16, c: Channel, d: Channel)
    requires KeyPrefix(src, c) == KeyPrefix(src, d)
    ensures c == d
  {
    Pow256Values();
    FixedInverse(c.dest, 2);
    FixedInverse(d.dest, 2);
    var a, b := KeyPrefix(src, c), KeyPrefix(src, d);
    assert a[3..5] == Fixed(c.dest, 2) && b[3..5] == Fixed(d.dest, 2);
    assert a[5] == c.id && b[5] == d.id;
  }

  /** Keys name their channel and sequence, and within a channel are ordered by sequence. */
  lemma KeyInjective(src: uint16, c: Channel, m: uint64, d: Channel, n: uint64)
    ensures Key(src, c, m) == Key(src, d, n) <==> c == d && m == n
    ensures Less(Key(src, c, m), Key(src, c, n)) <==> m < n
  {
    Pow256Values();
    FixedOrder(m, n, 8);
    LessCommonPrefix(KeyPrefix(src, c), Fixed(m, 8), Fixed(n, 8));
    if Key(src, c, m) == Key(src, d, n) {
      assert Key(src, c, m)[..6] == KeyPrefix(src, c) && Key(src, d, n)[..6] == KeyPrefix(src, d);
      PrefixInjective(src, c, d);
      SequenceOfKey(src, c, m);
      SequenceOfKey(src, d, n);
    }
  }

  // ---------------------------------------------------------------- counters and permissions

  const SEND: byte := 0xF0
  const RECEIVE: byte := 0xF1
  const PERMISSION: byte := 0xC0

  /** buildChannelSequenceKey and buildChannelPermissionKey. */
  function ChannelKey(prefix: byte, c: Channel): (key: bytes)
    ensures |key| == 4 && key[0] == prefix
  {
    [prefix] + Fixed(c.dest, 2) + [c.id]
  }

  lemma ChannelKeyInjective(p: byte, c: Channel, q: byte, d: Channel)
    ensures ChannelKey(p, c) == ChannelKey(q, d) <==> p == q && c == d
  {
    Pow256Values();
    FixedInverse(c.dest, 2);
    FixedInverse(d.dest, 2);
    var a, b := ChannelKey(p, c), ChannelKey(q, d);
    assert a[1..3] == Fixed(c.dest, 2) && b[1..3] == Fixed(d.dest, 2);
    assert a[3] == c.id && b[3] == d.id;
  }

  lemma ChannelKeyReads(p: byte, c: Channel)
    ensures var key := ChannelKey(p, c);
            key[0] == p && FromBigEndian(key[1..3]) == c.dest && key[3] == c.id
  {
    Pow256Values();
    FixedInverse(c.dest, 2);
    assert ChannelKey(p, c)[1..3] == Fixed(c.dest, 2);
  }

  /** getSequence: a missing counter stands at zero. */
  function Counter(m: Contents, k: bytes): uint64
  {
    if k in m && |m[k]| == 8 then Uint64Value(m[k]); FromBigEndian(m[k]) else 0
  }

  lemma Uint64Value(bs: bytes)
    requires |bs| == 8
    ensures FromBigEndian(bs) < TWO_64
  {
    FromBigEndianBound(bs);
    Pow256Values();
  }

  /** incrSequence: counters have 64 bits. */
  function Bumped(m: Contents, k: bytes): Contents
  {
    m[k := Fixed((Counter(m, k) + 1) % TWO_64, 8)]
  }

  lemma CounterBumped(m: Contents, k: bytes, j: bytes)
    ensures Counter(Bumped(m, k), j) == if j == k then (Counter(m, k) + 1) % TWO_64 else Counter(m, j)
  {
    Pow256Values();
    FixedInverse((Counter(m, k) + 1) % TWO_64, 8);
  }

  /** GetChannelSendPermission: a channel without an entry is forbidden. */
  predicate Allowed(m: Contents, c: Channel)
  {
    var k := ChannelKey(PERMISSION, c);
    k in m && m[k] != [] && m[k][0] == 1
  }

  function Next(m: Contents, c: Channel): uint64
  {
    Counter(m, ChannelKey(SEND, c))
  }

  // ---------------------------------------------------------------- sending

  datatype PackageType = Syn | Ack | FailAck

  datatype Package = Package(c: Channel, t: PackageType, load: bytes, fee: nat)

  datatype Sent = Sequence(sequence: uint64) | Forbidden | Duplicated

  const HEADER_LENGTH: nat := 33

  function TypeByte(t: PackageType): byte
  {
    match t case Syn => 0 case Ack => 1 case FailAck => 2
  }

  /** EncodePackageHeader: the type, and the relayer fee in 32 bytes. */
  function Header(t: PackageType, fee: nat): bytes
  {
    [TypeByte(t)] + Fixed(fee, 32)
  }

  function SentAs(src: uint16, m: Contents, p: Package): Sent
  {
    if p.t == Syn && !Allowed(m, p.c) then Forbidden
    else if Key(src, p.c, Next(m, p.c)) in m then Duplicated
    else Sequence(Next(m, p.c))
  }

  function AfterSend(src: uint16, m: Contents, p: Package): Contents
  {
    if SentAs(src, m, p).Sequence? then
      Bumped(m[Key(src, p.c, Next(m, p.c)) := Header(p.t, p.fee) + p.load], ChannelKey(SEND, p.c))
    else m
  }

  method ReadCounter(s: Store, k: bytes) returns (n: uint64)
    requires s.Valid()
    modifies s.chain
    ensures s.Valid() && CacheStore.Untouched(s) && s.View() == old(s.View())
    ensures n == Counter(s.View(), k)
  {
    hide CacheStore.Store.Valid, CacheStore.Store.View, FromBigEndian;
    var bz := s.Get(k);
    if bz == None || |bz.value| != 8 {
      return 0;
    }
    Uint64Value(bz.value);
    return FromBigEndian(bz.value);
  }

  /** incrSequence. */
  method Bump(s: Store, k: bytes)
    requires s.Valid()
    modifies s.chain
    ensures s.Valid() && CacheStore.Untouched(s) && s.View() == Bumped(old(s.View()), k)
  {
    hide CacheStore.Store.View, Counter, Fixed;
    var n := ReadCounter(s, k);
    CacheStore.Put(s, k, Fixed((n + 1) % TWO_64, 8));
  }

  method IsAllowed(s: Store, c: Channel) returns (b: bool)
    requires s.Valid()
    modifies s.chain
    ensures s.Valid() && CacheStore.Untouched(s) && s.View() == old(s.View())
    ensures b <==> Allowed(s.View(), c)
  {
    hide CacheStore.Store.Valid, CacheStore.Store.View, ChannelKey;
    var bz := s.Get(ChannelKey(PERMISSION, c));
    return bz.Some? && bz.value != [] && bz.value[0] == 1;
  }

  method Exists(s: Store, k: bytes) returns (has: bool)
    requires s.Valid()
    modifies s.chain
    ensures s.Valid() && CacheStore.Untouched(s) && s.View() == old(s.View())
    ensures has <==> k in s.View()
  {
    hide CacheStore.Store.Valid, CacheStore.Store.View;
    has := s.Has(k);
  }

  /** CreateRawIBCPackageByIdWithFee. */
  method CreatePackage(s: Store, src: uint16, p: Package) returns (r: Sent)
    requires s.Valid()
    modifies s.chain
    ensures s.Valid() && CacheStore.Untouched(s)
    ensures r == SentAs(src, old(s.View()), p) && s.View() == AfterSend(src, old(s.View()), p)
  {
    hide CacheStore.Store.View, Allowed, Counter, Bumped, Key, ChannelKey, Header;
    ghost var m := s.View();
    if p.t == Syn {
      var allowed := IsAllowed(s, p.c);
      if !allowed {
        return Forbidden;
      }
    }
    var sequence := ReadCounter(s, ChannelKey(SEND, p.c));
    var key := Key(src, p.c, sequence);
    var taken := Exists(s, key);
    if taken {
      return Duplicated;
    }
    CacheStore.Put(s, key, Header(p.t, p.fee) + p.load);
    Bump(s, ChannelKey(SEND, p.c));
    return Sequence(sequence);
  }

  /** A channel without an entry is forbidden, and one with an entry is as the entry says: a Syn package on
      it is stored, unless the key is taken, exactly if the first byte is 1. Answers are always sent. */
  lemma PermissionMeans(src: uint16, m: Contents, p: Package)
    ensures var k := ChannelKey(PERMISSION, p.c);
            SentAs(src, m, p) == Forbidden <==> p.t == Syn && (k !in m || m[k] == [] || m[k][0] != 1)
    ensures SentAs(src, m, p) == Forbidden ==> AfterSend(src, m, p) == m
  {
  }

  // ---------------------------------------------------------------- the window of stored packages

  function LowOf(low: map<Channel, uint64>, c: Channel): uint64
  {
    if c in low then low[c] else 0
  }

  /** The stored packages of every channel are exactly those from `low` up to the next sequence. */
  ghost predicate Windows(src: uint16, m: Contents, low: map<Channel, uint64>)
  {
    && (forall c :: LowOf(low, c) <= Next(m, c))
    && (forall c, s: uint64 :: Key(src, c, s) in m <==> LowOf(low, c) <= s < Next(m, c))
    && (forall k :: k in m && OfPackage(k) ==> IsKey(src, k))
  }

  predicate OfPackage(k: bytes)
  {
    k != [] && k[0] == 0
  }

  ghost predicate IsKey(src: uint16, k: bytes)
  {
    exists c, s: uint64 :: k == Key(src, c, s)
  }

  /** Windows are a matter of packages and send counters only. */
  lemma SameWindows(src: uint16, m: Contents, n: Contents, low: map<Channel, uint64>)
    requires Windows(src, m, low)
    requires forall k :: OfPackage(k) || (k != [] && k[0] == SEND) ==> Lookup(n, k) == Lookup(m, k)
    ensures Windows(src, n, low) && forall c :: Next(n, c) == Next(m, c)
  {
    forall c
      ensures Next(n, c) == Next(m, c)
    {
      assert Lookup(n, ChannelKey(SEND, c)) == Lookup(m, ChannelKey(SEND, c));
    }
    forall c, s: uint64
      ensures Key(src, c, s) in n <==> Key(src, c, s) in m
    {
      assert OfPackage(Key(src, c, s));
      assert Lookup(n, Key(src, c, s)) == Lookup(m, Key(src, c, s));
    }
    forall k | k in n && OfPackage(k)
      ensures IsKey(src, k)
    {
      assert Lookup(n, k) == Lookup(m, k);
    }
  }

  lemma NextAfterSend(src: uint16, m: Contents, p: Package, d: Channel)
    ensures Next(AfterSend(src, m, p), d)
            == if d == p.c && SentAs(src, m, p).Sequence? then (Next(m, d) + 1) % TWO_64 else Next(m, d)
  {
    hide Allowed, Header, Key, Counter, ChannelKey;
    if SentAs(src, m, p).Sequence? {
      var put := m[Key(src, p.c, Next(m, p.c)) := Header(p.t, p.fee) + p.load];
      ChannelKeyInjective(SEND, p.c, SEND, d);
      PutCounter(src, m, p.c, Next(m, p.c), Header(p.t, p.fee) + p.load, d);
      PutCounter(src, m, p.c, Next(m, p.c), Header(p.t, p.fee) + p.load, p.c);
      CounterBumped(put, ChannelKey(SEND, p.c), ChannelKey(SEND, d));
    }
  }

  lemma PutCounter(src: uint16, m: Contents, c: Channel, n: uint64, v: bytes, d: Channel)
    ensures Next(m[Key(src, c, n) := v], d) == Next(m, d)
  {
    assert |Key(src, c, n)| != |ChannelKey(SEND, d)|;
  }

  /** Below 2^64 - 1 the duplicate check never fires, and sending widens one window by one. */
  lemma SentWindow(src: uint16, m: Contents, low: map<Channel, uint64>, p: Package)
    requires Windows(src, m, low) && Next(m, p.c) < TWO_64 - 1
    ensures SentAs(src, m, p) != Duplicated
    ensures Windows(src, AfterSend(src, m, p), low)
  {
    hide Allowed, Header, Counter;
    var n, r := Next(m, p.c), AfterSend(src, m, p);
    if SentAs(src, m, p).Sequence? {
      forall d
        ensures Next(r, d) == if d == p.c then n + 1 else Next(m, d)
      {
        NextAfterSend(src, m, p, d);
      }
      forall d, s: uint64
        ensures Key(src, d, s) in r <==> LowOf(low, d) <= s < Next(r, d)
      {
        KeyInjective(src, p.c, n, d, s);
        assert |Key(src, d, s)| != |ChannelKey(SEND, p.c)|;
      }
      assert IsKey(src, Key(src, p.c, n));
    }
  }

  /** What remains of a store after cleaning up a channel. */
  function Cleaned(src: uint16, m: Contents, c: Channel, confirmed: uint64): Contents
  {
    map k | k in m && !(|k| == KEY_LENGTH && KeyPrefix(src, c) <= k && SequenceOf(k) <= confirmed) :: m[k]
  }

  /** The lowest sequence kept: confirming what was never sent confirms no more than was sent. */
  function LowAfter(low: uint64, next: uint64, confirmed: uint64): uint64
  {
    if confirmed < low then low else if confirmed < next then confirmed + 1 else next
  }

  lemma CleanedNext(src: uint16, m: Contents, c: Channel, confirmed: uint64, prefix: byte, d: Channel)
    ensures Counter(Cleaned(src, m, c, confirmed), ChannelKey(prefix, d)) == Counter(m, ChannelKey(prefix, d))
  {
  }

  lemma CleanedWindow(src: uint16, m: Contents, low: map<Channel, uint64>, c: Channel, confirmed: uint64)
    requires Windows(src, m, low)
    ensures Windows(src, Cleaned(src, m, c, confirmed), low[c := LowAfter(LowOf(low, c), Next(m, c), confirmed)])
  {
    var after := Cleaned(src, m, c, confirmed);
    var now := low[c := LowAfter(LowOf(low, c), Next(m, c), confirmed)];
    assert LowOf(low, c) <= Next(m, c);
    forall d
      ensures Next(after, d) == Next(m, d) && LowOf(now, d) <= Next(after, d)
    {
      CleanedNext(src, m, c, confirmed, SEND, d);
      assert LowOf(low, d) <= Next(m, d);
    }
    forall d, s: uint64
      ensures Key(src, d, s) in after <==> LowOf(now, d) <= s < Next(after, d)
    {
      SequenceOfKey(src, d, s);
      PrefixOfKey(src, c, d, s);
    }
  }

  lemma PrefixOfKey(src: uint16, c: Channel, d: Channel, s: uint64)
    ensures KeyPrefix(src, c) <= Key(src, d, s) <==> c == d
  {
    assert Key(src, d, s)[..6] == KeyPrefix(src, d);
    if KeyPrefix(src, c) <= Key(src, d, s) {
      assert KeyPrefix(src, c) == KeyPrefix(src, d);
      PrefixInjective(src, c, d);
    }
  }

  // ---------------------------------------------------------------- cleaning up

  /** CleanupIBCPackage: deletes exactly the packages of the channel up to the confirmed sequence. */
  method Cleanup(s: Store, src: uint16, c: Channel, confirmed: uint64)
    requires s.Valid()
    modifies s.chain
    ensures s.Valid() && CacheStore.Untouched(s) && s.View() == Cleaned(src, old(s.View()), c, confirmed)
  {
    ghost var all := s.View();
    var entries := ListPackages(s, src, c);
    var n := DeleteUpTo(s, entries, confirmed);
    hide *;
    CleanedIs(src, all, entries, c, confirmed, n);
  }

  /** KVStorePrefixIterator over the packages of a channel. */
  method ListPackages(s: Store, src: uint16, c: Channel) returns (entries: seq<Pair<bytes>>)
    requires s.Valid()
    ensures Sorted(entries, true) && Listed(src, s.View(), entries, c)
  {
    hide KeyPrefix, MapOf, Sorted, CacheStore.Store.Valid, CacheStore.Store.View;
    var prefix := KeyPrefix(src, c);
    var end := PrefixStore.PrefixEndBytes(prefix);
    entries := s.Iterate(prefix, end, true);
    ListedIs(src, s.View(), entries, c, end);
  }

  lemma ListedIs(src: uint16, m: Contents, entries: seq<Pair<bytes>>, c: Channel, end: Option<bytes>)
    requires MapOf(entries) == MergeIterator.RestrictMap(m, KeyPrefix(src, c), end)
    requires forall key :: KeyPrefix(src, c) <= key <==> MergeIterator.InDomain(key, KeyPrefix(src, c), end)
    ensures Listed(src, m, entries, c)
  {
    hide MapOf, KeyPrefix, MergeIterator.InDomain;
    KeysOfMap(entries);
    forall k | k in m && KeyPrefix(src, c) <= k
      ensures exists i :: 0 <= i < |entries| && entries[i].key == k
    {
      assert k in MapOf(entries);
    }
  }

  /** The loop: skips keys of another length and stops at the first later sequence. */
  method DeleteUpTo(s: Store, entries: seq<Pair<bytes>>, confirmed: uint64) returns (n: nat)
    requires s.Valid()
    modifies s.chain
    ensures s.Valid() && CacheStore.Untouched(s)
    ensures n <= |entries| && s.View() == Without(old(s.View()), entries, n)
    ensures forall j :: 0 <= j < n && |entries[j].key| == KEY_LENGTH ==> SequenceOf(entries[j].key) <= confirmed
    ensures n < |entries| ==> |entries[n].key| == KEY_LENGTH && SequenceOf(entries[n].key) > confirmed
  {
    hide SequenceOf, CacheStore.Store.View;
    ghost var all := s.View();
    assert Without(all, entries, 0) == all;
    n := 0;
    while n < |entries|
      invariant s.Valid() && CacheStore.Untouched(s)
      invariant 0 <= n <= |entries| && s.View() == Without(all, entries, n)
      invariant forall j :: 0 <= j < n && |entries[j].key| == KEY_LENGTH ==> SequenceOf(entries[j].key) <= confirmed
    {
      var key := entries[n].key;
      WithoutNext(all, entries, n);
      if |key| == KEY_LENGTH {
        if SequenceOf(key) > confirmed {
          return;
        }
        CacheStore.Remove(s, key);
      }
      n := n + 1;
    }
  }

  /** The entries have exactly the keys under the channel's prefix. */
  ghost predicate Listed(src: uint16, m: Contents, entries: seq<Pair<bytes>>, c: Channel)
  {
    && (forall i :: 0 <= i < |entries| ==> entries[i].key in m && KeyPrefix(src, c) <= entries[i].key)
    && (forall k :: k in m && KeyPrefix(src, c) <= k ==> exists i :: 0 <= i < |entries| && entries[i].key == k)
  }

  /** The store without the packages among the first n entries. */
  function Without(store: map<bytes, bytes>, entries: seq<Pair<bytes>>, n: nat): map<bytes, bytes>
    requires n <= |entries|
  {
    map k | k in store && !(|k| == KEY_LENGTH && Among(k, entries, n)) :: store[k]
  }

  predicate Among(k: bytes, entries: seq<Pair<bytes>>, n: nat)
    requires n <= |entries|
  {
    exists i :: 0 <= i < n && entries[i].key == k
  }

  lemma WithoutNext(store: map<bytes, bytes>, entries: seq<Pair<bytes>>, n: nat)
    requires n < |entries|
    ensures Without(store, entries, n + 1) == if |entries[n].key| == KEY_LENGTH then Without(store, entries, n) - {entries[n].key} else Without(store, entries, n)
  {
    forall k
      ensures Among(k, entries, n + 1) <==> Among(k, entries, n) || k == entries[n].key
    {
    }
  }

  /** Keys of the same length under one prefix are ordered as the numbers after it. */
  lemma TailsOrdered(a: bytes, b: bytes, p: bytes)
    requires |a| == |b| == KEY_LENGTH && |p| == 6 && p <= a && p <= b && Less(a, b)
    ensures SequenceOf(a) < SequenceOf(b)
  {
    assert a == p + a[6..] && b == p + b[6..];
    LessCommonPrefix(p, a[6..], b[6..]);
    BigEndianOrder(a[6..], b[6..]);
  }

  lemma {:induction false} BigEndianOrder(a: bytes, b: bytes)
    requires |a| == |b| && Less(a, b)
    ensures FromBigEndian(a) < FromBigEndian(b)
  {
    FixedOf(a);
    FixedOf(b);
    FromBigEndianBound(a);
    FromBigEndianBound(b);
    FixedOrder(FromBigEndian(a), FromBigEndian(b), |a|);
  }

  lemma {:induction false} FixedOf(bs: bytes)
    ensures Fixed(FromBigEndian(bs), |bs|) == bs
  {
    if bs != [] {
      var front := bs[..|bs| - 1];
      FixedOf(front);
      assert bs == front + [bs[|bs| - 1]];
    }
  }

  /** Stopping at the first later sequence misses nothing, whatever is in the store. */
  lemma CleanedIs(src: uint16, m: Contents, entries: seq<Pair<bytes>>, c: Channel, confirmed: uint64, n: nat)
    requires Sorted(entries, true) && Listed(src, m, entries, c) && n <= |entries|
    requires forall i :: 0 <= i < n && |entries[i].key| == KEY_LENGTH ==> SequenceOf(entries[i].key) <= confirmed
    requires n < |entries| ==> |entries[n].key| == KEY_LENGTH && SequenceOf(entries[n].key) > confirmed
    ensures Without(m, entries, n) == Cleaned(src, m, c, confirmed)
  {
    hide SequenceOf, Sorted, KeyPrefix;
    forall k | k in m && |k| == KEY_LENGTH
      ensures Among(k, entries, n) <==> KeyPrefix(src, c) <= k && SequenceOf(k) <= confirmed
    {
      if KeyPrefix(src, c) <= k {
        var i :| 0 <= i < |entries| && entries[i].key == k;
        if i < n {
          assert Among(k, entries, n);
        } else {
          if i > n {
            KeysOrdered(entries, n, i);
            TailsOrdered(entries[n].key, k, KeyPrefix(src, c));
          }
        }
      }
    }
  }

  // ---------------------------------------------------------------- whole runs

  datatype Op = Send(p: Package) | Confirm(c: Channel, confirmed: uint64) | Permit(c: Channel, allow: bool)

  /** What one message to the keepers makes of the stores. */
  function After(src: uint16, m: Contents, op: Op): Contents
  {
    match op
    case Send(p) => AfterSend(src, m, p)
    case Confirm(c, confirmed) => Cleaned(src, m, c, confirmed)
    case Permit(c, allow) => m[ChannelKey(PERMISSION, c) := [if allow then 1 else 0]]
  }

  function AfterAll(src: uint16, m: Contents, ops: seq<Op>): Contents
  {
    if ops == [] then m else After(src, AfterAll(src, m, ops[..|ops| - 1]), ops[|ops| - 1])
  }

  function LowAfterOp(m: Contents, low: map<Channel, uint64>, op: Op): map<Channel, uint64>
  {
    if op.Confirm? then low[op.c := LowAfter(LowOf(low, op.c), Next(m, op.c), op.confirmed)] else low
  }

  /** Messages touch only packages, send counters and permissions. */
  lemma Elsewhere(src: uint16, m: Contents, op: Op, k: bytes)
    requires k != [] && k[0] != 0 && k[0] != SEND && k[0] != PERMISSION
    ensures Lookup(After(src, m, op), k) == Lookup(m, k)
  {
    hide Allowed, Header, Counter, SequenceOf;
  }

  lemma {:induction false} AllElsewhere(src: uint16, m: Contents, ops: seq<Op>, k: bytes)
    requires k != [] && k[0] != 0 && k[0] != SEND && k[0] != PERMISSION
    ensures Lookup(AfterAll(src, m, ops), k) == Lookup(m, k)
  {
    hide After;
    if ops != [] {
      AllElsewhere(src, m, ops[..|ops| - 1], k);
      Elsewhere(src, AfterAll(src, m, ops[..|ops| - 1]), ops[|ops| - 1], k);
    }
  }

  /** k more packages on any channel stay below 2^64 - 1. */
  ghost predicate Room(m: Contents, k: nat)
  {
    forall c :: Next(m, c) + k < TWO_64
  }

  /** Every message keeps the windows, moves no counter back, and takes up at most one more. */
  lemma OpKeepsWindows(src: uint16, m: Contents, low: map<Channel, uint64>, op: Op, k: nat)
    requires Windows(src, m, low) && Room(m, k + 1)
    ensures Windows(src, After(src, m, op), LowAfterOp(m, low, op)) && Room(After(src, m, op), k)
    ensures op.Send? ==> SentAs(src, m, op.p) != Duplicated
    ensures forall c :: Next(m, c) <= Next(After(src, m, op), c) <= Next(m, c) + 1
  {
    hide Counter, Cleaned, Key, ChannelKey, Windows;
    var r := After(src, m, op);
    match op {
    case Send(p) =>
      assert Next(m, p.c) + k + 1 < TWO_64;
      SentWindow(src, m, low, p);
    case Confirm(c, confirmed) =>
      CleanedWindow(src, m, low, c, confirmed);
    case Permit(c, allow) =>
      PermittedWindow(src, m, low, c, allow);
    }
    forall d
      ensures Next(m, d) <= Next(r, d) <= Next(m, d) + 1 && Next(r, d) + k < TWO_64
    {
      assert Next(m, d) + k + 1 < TWO_64;
      NextAfter(src, m, op, d);
    }
  }

  lemma PermittedWindow(src: uint16, m: Contents, low: map<Channel, uint64>, c: Channel, allow: bool)
    requires Windows(src, m, low)
    ensures Windows(src, After(src, m, Permit(c, allow)), low)
  {
    hide Windows;
    SameWindows(src, m, After(src, m, Permit(c, allow)), low);
  }

  lemma NextAfter(src: uint16, m: Contents, op: Op, d: Channel)
    ensures Next(After(src, m, op), d) == Next(m, d) || (op.Send? && d == op.p.c && Next(After(src, m, op), d) == (Next(m, d) + 1) % TWO_64)
  {
    match op {
    case Send(p) => NextAfterSend(src, m, p, d);
    case Confirm(c, confirmed) => CleanedNext(src, m, c, confirmed, SEND, d);
    case Permit(c, allow) => ChannelKeyInjective(PERMISSION, c, SEND, d);
    }
  }

  lemma {:induction false} AllKeepWindows(src: uint16, m: Contents, low: map<Channel, uint64>, ops: seq<Op>, k: nat) returns (now: map<Channel, uint64>)
    requires Windows(src, m, low) && Room(m, |ops| + k)
    ensures Windows(src, AfterAll(src, m, ops), now) && Room(AfterAll(src, m, ops), k)
  {
    hide Windows, Room, After, LowAfterOp;
    if ops == [] {
      return low;
    }
    var front, last := ops[..|ops| - 1], ops[|ops| - 1];
    now := AllKeepWindows(src, m, low, front, k + 1);
    OpKeepsWindows(src, AfterAll(src, m, front), now, last, k);
    now := LowAfterOp(AfterAll(src, m, front), now, last);
  }

  method Perform(s: Store, src: uint16, op: Op) returns (sent: Option<Sent>)
    requires s.Valid()
    modifies s.chain
    ensures s.Valid() && CacheStore.Untouched(s) && s.View() == After(src, old(s.View()), op)
    ensures sent == if op.Send? then Some(SentAs(src, old(s.View()), op.p)) else None
  {
    hide CacheStore.Store.View, AfterSend, SentAs, Cleaned, ChannelKey;
    match op {
    case Send(p) =>
      var r := CreatePackage(s, src, p);
      return Some(r);
    case Confirm(c, confirmed) =>
      Cleanup(s, src, c, confirmed);
      return None;
    case Permit(c, allow) =>
      CacheStore.Put(s, ChannelKey(PERMISSION, c), [if allow then 1 else 0]);
      return None;
    }
  }

  /** Any messages, one after another. */
  method PerformAll(s: Store, src: uint16, ops: seq<Op>)
    requires s.Valid()
    modifies s.chain
    ensures s.Valid() && CacheStore.Untouched(s) && s.View() == AfterAll(src, old(s.View()), ops)
  {
    hide CacheStore.Store.View, After;
    ghost var m := s.View();
    assert ops[..0] == [];
    for i := 0 to |ops|
      invariant s.Valid() && CacheStore.Untouched(s) && s.View() == AfterAll(src, m, ops[..i])
    {
      assert ops[..i + 1][..i] == ops[..i];
      var _ := Perform(s, src, ops[i]);
    }
    assert ops[..|ops|] == ops;
  }

  /** The same in a cache of its own, which counts only if it is written back. */
  method PerformNested(s: Store, src: uint16, ops: seq<Op>, commit: bool)
    requires s.Valid()
    modifies s.chain
    ensures s.Valid() && CacheStore.Untouched(s)
    ensures s.View() == if commit then AfterAll(src, old(s.View()), ops) else old(s.View())
  {
    hide CacheStore.Store.View, Coherent, AfterAll;
    var child := new CacheStore.Store.Cache(s);
    label cached:
    PerformAll(child, src, ops);
    CacheStore.Deeper@cached(child);
    if commit {
      CacheStore.WriteBack(s, child);
    }
  }

  // ---------------------------------------------------------------- what every run does

  /** What the sender of one message is told. */
  function Answer(src: uint16, m: Contents, op: Op): Option<Sent>
  {
    if op.Send? then Some(SentAs(src, m, op.p)) else None
  }

  function Answers(src: uint16, m: Contents, ops: seq<Op>): (r: seq<Option<Sent>>)
    ensures |r| == |ops|
  {
    if ops == [] then []
    else
      var front := ops[..|ops| - 1];
      Answers(src, m, front) + [Answer(src, AfterAll(src, m, front), ops[|ops| - 1])]
  }

  /** What the last change of permission said, or what the store said at the start. */
  predicate Permitted(m: Contents, ops: seq<Op>, c: Channel)
  {
    if ops == [] then Allowed(m, c)
    else
      var last := ops[|ops| - 1];
      if last.Permit? && last.c == c then last.allow else Permitted(m, ops[..|ops| - 1], c)
  }

  /** Only a change of its permission allows or forbids a channel. */
  lemma AllowedAfter(src: uint16, m: Contents, op: Op, c: Channel)
    ensures Allowed(After(src, m, op), c) <==> if op.Permit? && op.c == c then op.allow else Allowed(m, c)
  {
    hide Counter, Header, SequenceOf;
    match op {
    case Send(p) => ChannelKeyInjective(PERMISSION, c, SEND, p.c);
    case Confirm(d, confirmed) =>
    case Permit(d, allow) => ChannelKeyInjective(PERMISSION, c, PERMISSION, d);
    }
  }

  lemma {:induction false} AllowedAfterAll(src: uint16, m: Contents, ops: seq<Op>, c: Channel)
    ensures Allowed(AfterAll(src, m, ops), c) <==> Permitted(m, ops, c)
  {
    hide After, Allowed;
    if ops != [] {
      AllowedAfterAll(src, m, ops[..|ops| - 1], c);
      AllowedAfter(src, AfterAll(src, m, ops[..|ops| - 1]), ops[|ops| - 1], c);
    }
  }

  /** A message is refused exactly if it is a Syn package on a channel whose last change of permission
      before it closed it, or that was never changed and closed at the start. */
  ghost predicate Obeyed(m: Contents, ops: seq<Op>, sent: seq<Option<Sent>>)
    requires |sent| == |ops|
  {
    forall i :: 0 <= i < |ops| ==>
      (sent[i] == Some(Forbidden) <==> ops[i].Send? && ops[i].p.t == Syn && !Permitted(m, ops[..i], ops[i].p.c))
  }

  lemma {:induction false} RunObeys(src: uint16, m: Contents, ops: seq<Op>)
    ensures Obeyed(m, ops, Answers(src, m, ops))
  {
    hide After, Allowed, Key;
    if ops != [] {
      var front, last := ops[..|ops| - 1], ops[|ops| - 1];
      RunObeys(src, m, front);
      assert forall i :: 0 <= i < |front| ==> front[..i] == ops[..i] && front[i] == ops[i];
      if last.Send? {
        AllowedAfterAll(src, m, front, last.p.c);
      }
    }
  }

  /** The sequences given out on a channel, in order. */
  function Given(ops: seq<Op>, sent: seq<Option<Sent>>, c: Channel): seq<int>
    requires |sent| == |ops|
  {
    if ops == [] then []
    else
      var n := |ops| - 1;
      Given(ops[..n], sent[..n], c)
      + if ops[n].Send? && ops[n].p.c == c && sent[n].Some? && sent[n].value.Sequence? then [sent[n].value.sequence] else []
  }

  /** They are consecutive, from where the counter stood to where it stands. */
  ghost predicate Numbered(m: Contents, r: Contents, ops: seq<Op>, sent: seq<Option<Sent>>, c: Channel)
    requires |sent| == |ops|
  {
    var xs := Given(ops, sent, c);
    Next(r, c) == Next(m, c) + |xs| && forall j :: 0 <= j < |xs| ==> xs[j] == Next(m, c) + j
  }

  lemma NextExactly(src: uint16, m: Contents, op: Op, c: Channel)
    ensures Next(After(src, m, op), c)
            == if op.Send? && op.p.c == c && SentAs(src, m, op.p).Sequence? then (Next(m, c) + 1) % TWO_64 else Next(m, c)
  {
    match op {
    case Send(p) => NextAfterSend(src, m, p, c);
    case Confirm(d, confirmed) => CleanedNext(src, m, d, confirmed, SEND, c);
    case Permit(d, allow) => ChannelKeyInjective(PERMISSION, d, SEND, c);
    }
  }

  lemma SentIsNext(src: uint16, m: Contents, p: Package)
    ensures SentAs(src, m, p).Sequence? ==> SentAs(src, m, p).sequence == Next(m, p.c)
  {
  }

  lemma {:induction false} RunNumbers(src: uint16, m: Contents, ops: seq<Op>, c: Channel)
    requires Next(m, c) + |ops| < TWO_64
    ensures Numbered(m, AfterAll(src, m, ops), ops, Answers(src, m, ops), c)
  {
    hide After, Next, SentAs;
    if ops != [] {
      var front, last := ops[..|ops| - 1], ops[|ops| - 1];
      RunNumbers(src, m, front, c);
      GivenBound(front, Answers(src, m, front), c);
      NextExactly(src, AfterAll(src, m, front), last, c);
      if last.Send? {
        SentIsNext(src, AfterAll(src, m, front), last.p);
      }
      assert Answers(src, m, ops)[..|front|] == Answers(src, m, front);
    }
  }

  lemma {:induction false} GivenBound(ops: seq<Op>, sent: seq<Option<Sent>>, c: Channel)
    requires |sent| == |ops|
    ensures |Given(ops, sent, c)| <= |ops|
  {
    if ops != [] {
      GivenBound(ops[..|ops| - 1], sent[..|ops| - 1], c);
    }
  }

  /** Once a sequence was given out, its package goes only by being confirmed, and nothing replaces it. */
  lemma PackageStays(src: uint16, m: Contents, op: Op, c: Channel, n: uint64)
    requires n < Next(m, c)
    ensures Lookup(After(src, m, op), Key(src, c, n))
            == if op.Confirm? && op.c == c && n <= op.confirmed then None else Lookup(m, Key(src, c, n))
  {
    hide Counter, Header, Allowed;
    match op {
    case Send(p) => KeyInjective(src, c, n, p.c, Next(m, p.c));
    case Confirm(d, confirmed) =>
      PrefixOfKey(src, d, c, n);
      SequenceOfKey(src, c, n);
    case Permit(d, allow) =>
    }
  }

  /** The sequence n of channel c is confirmed by one of the messages from the i-th on. */
  predicate ConfirmedFrom(ops: seq<Op>, i: nat, c: Channel, n: uint64)
  {
    exists j :: i <= j < |ops| && ops[j].Confirm? && ops[j].c == c && n <= ops[j].confirmed
  }

  /** A package that was given a sequence is stored under it, with its header, until it is confirmed. */
  ghost predicate Kept(src: uint16, r: Contents, ops: seq<Op>, i: nat, p: Package, n: uint64)
  {
    && n < Next(r, p.c)
    && Lookup(r, Key(src, p.c, n)) == if ConfirmedFrom(ops, i + 1, p.c, n) then None else Some(Header(p.t, p.fee) + p.load)
  }

  ghost predicate Delivered(src: uint16, r: Contents, ops: seq<Op>, sent: seq<Option<Sent>>)
    requires |sent| == |ops|
  {
    forall i :: 0 <= i < |ops| && ops[i].Send? && sent[i].Some? && sent[i].value.Sequence? ==>
      Kept(src, r, ops, i, ops[i].p, sent[i].value.sequence)
  }

  lemma ConfirmedMore(ops: seq<Op>, op: Op, i: nat, c: Channel, n: uint64)
    requires i <= |ops|
    ensures ConfirmedFrom(ops + [op], i, c, n) <==> ConfirmedFrom(ops, i, c, n) || (op.Confirm? && op.c == c && n <= op.confirmed)
  {
    var all := ops + [op];
    assert all[|ops|] == op;
    if ConfirmedFrom(ops, i, c, n) {
      var j :| i <= j < |ops| && ops[j].Confirm? && ops[j].c == c && n <= ops[j].confirmed;
      assert all[j] == ops[j];
    }
  }

  lemma KeptOn(src: uint16, m: Contents, ops: seq<Op>, op: Op, i: nat, p: Package, n: uint64)
    requires Kept(src, m, ops, i, p, n) && i < |ops| && Next(m, p.c) + 1 < TWO_64
    ensures Kept(src, After(src, m, op), ops + [op], i, p, n)
  {
    hide After, Next, SentAs, Key, Header, ConfirmedFrom, Lookup;
    NextExactly(src, m, op, p.c);
    PackageStays(src, m, op, p.c, n);
    ConfirmedMore(ops, op, i + 1, p.c, n);
  }

  lemma KeptFirst(src: uint16, m: Contents, ops: seq<Op>, p: Package)
    requires SentAs(src, m, p).Sequence? && Next(m, p.c) + 1 < TWO_64
    ensures Kept(src, After(src, m, Send(p)), ops + [Send(p)], |ops|, p, SentAs(src, m, p).sequence)
  {
    hide After, Next, SentAs, Key, Header, ConfirmedFrom, Lookup;
    NextExactly(src, m, Send(p), p.c);
    SentIsNext(src, m, p);
    PackageJustSent(src, m, p);
    NoneAfter(ops + [Send(p)], p.c, SentAs(src, m, p).sequence);
  }

  lemma {:induction false} RunDelivers(src: uint16, m: Contents, ops: seq<Op>)
    requires Room(m, |ops|)
    ensures Delivered(src, AfterAll(src, m, ops), ops, Answers(src, m, ops))
  {
    if ops != [] {
      var front, last := ops[..|ops| - 1], ops[|ops| - 1];
      RoomFront(m, |ops|);
      hide After, Next, SentAs, Kept, Room;
      RunDelivers(src, m, front);
      var before, sent := AfterAll(src, m, front), Answers(src, m, ops);
      assert ops == front + [last];
      forall i | 0 <= i < |ops| && ops[i].Send? && sent[i].Some? && sent[i].value.Sequence?
        ensures Kept(src, After(src, before, last), ops, i, ops[i].p, sent[i].value.sequence)
      {
        RoomLater(src, m, front, |ops|, ops[i].p.c);
        if i < |front| {
          assert front[i] == ops[i] && Answers(src, m, front)[i] == sent[i];
          KeptOn(src, before, front, last, i, ops[i].p, sent[i].value.sequence);
        } else {
          KeptFirst(src, before, front, last.p);
        }
      }
    }
  }

  lemma RoomFront(m: Contents, k: nat)
    requires Room(m, k) && k > 0
    ensures Room(m, k - 1)
  {
    forall c
      ensures Next(m, c) + (k - 1) < TWO_64
    {
      assert Next(m, c) + k < TWO_64;
    }
  }

  lemma RoomLater(src: uint16, m: Contents, ops: seq<Op>, k: nat, c: Channel)
    requires Room(m, k) && |ops| < k
    ensures Next(AfterAll(src, m, ops), c) + 1 < TWO_64
  {
    hide AfterAll, Next, Given;
    RoomFor(m, k, c);
    RunNumbers(src, m, ops, c);
    GivenBound(ops, Answers(src, m, ops), c);
  }

  lemma PackageJustSent(src: uint16, m: Contents, p: Package)
    requires SentAs(src, m, p).Sequence?
    ensures Lookup(After(src, m, Send(p)), Key(src, p.c, Next(m, p.c))) == Some(Header(p.t, p.fee) + p.load)
  {
    hide Counter, Header, Allowed;
  }

  lemma NoneAfter(ops: seq<Op>, c: Channel, n: uint64)
    ensures !ConfirmedFrom(ops, |ops|, c, n)
  {
  }

  /** Whatever is sent, confirmed and permitted on whatever channels, in whatever order: what is refused is
      what the last change of permission forbids; every other package gets the next sequence of its channel
      and stays stored, byte for byte, until it is confirmed; and the stored packages are windows of sequences. */
  method Run(s: Store, src: uint16, ops: seq<Op>, ghost low: map<Channel, uint64>) returns (sent: seq<Option<Sent>>, ghost now: map<Channel, uint64>)
    requires s.Valid() && Windows(src, s.View(), low) && Room(s.View(), |ops|)
    modifies s.chain
    ensures s.Valid() && CacheStore.Untouched(s) && Windows(src, s.View(), now)
    ensures |sent| == |ops| && Some(Duplicated) !in sent
    ensures Obeyed(old(s.View()), ops, sent)
    ensures forall c :: Numbered(old(s.View()), s.View(), ops, sent, c)
    ensures Delivered(src, s.View(), ops, sent)
  {
    hide CacheStore.Store.View, Windows, Room, After, SentAs, LowAfterOp, Obeyed, Numbered, Delivered;
    sent, now := [], low;
    ghost var m := s.View();
    assert ops[..0] == [];
    for i := 0 to |ops|
      invariant s.Valid() && CacheStore.Untouched(s) && Windows(src, s.View(), now) && Room(s.View(), |ops| - i)
      invariant s.View() == AfterAll(src, m, ops[..i]) && sent == Answers(src, m, ops[..i]) && Some(Duplicated) !in sent
    {
      assert ops[..i + 1][..i] == ops[..i];
      OpKeepsWindows(src, s.View(), now, ops[i], |ops| - i - 1);
      now := LowAfterOp(s.View(), now, ops[i]);
      var r := Perform(s, src, ops[i]);
      sent := sent + [r];
    }
    assert ops[..|ops|] == ops;
    RunObeys(src, m, ops);
    RunDelivers(src, m, ops);
    forall c
      ensures Numbered(m, s.View(), ops, sent, c)
    {
      RoomFor(m, |ops|, c);
      RunNumbers(src, m, ops, c);
    }
  }

  lemma RoomFor(m: Contents, k: nat, c: Channel)
    requires Room(m, k)
    ensures Next(m, c) + k < TWO_64
  {
  }
}
