/** Runs of claims and of other transactions: what was executed, in which order, with which effect. */
module OracleRuns {
  import opened Bytes
  import opened Coins
  import opened AccountCache
  import opened Oracle
  import Overlays
  import CacheStore
  import Ibc

  /** What happens on the chain: claims, and transactions of any other kind, which do anything to
      accounts, to applications, and to packages and permissions through their keepers. */
  datatype Event = Claimed(claim: Claim) | Other(execution: Execution)

  ghost function After(cfg: Config, w: World, e: Event): World
  {
    match e
    case Claimed(claim) => AfterClaim(cfg, w, claim).world
    case Other(execution) => AfterExecution(cfg, w, execution)
  }

  ghost function AfterRun(cfg: Config, w: World, es: seq<Event>): World
    decreases |es|
  {
    if es == [] then w else After(cfg, AfterRun(cfg, w, es[..|es| - 1]), es[|es| - 1])
  }

  method Step(cfg: Config, x: Context, e: Event)
    requires Stands(x)
    modifies x.accounts.chain, x.app.chain, x.keepers.chain
    ensures Stands(x) && Below(x) && Shown(x) == After(cfg, old(Shown(x)), e)
  {
    hide Stands, Shown, Below, AfterClaim, AfterExecution;
    match e {
    case Claimed(claim) =>
      var _ := HandleClaim(cfg, x, claim);
    case Other(execution) =>
      Execute(cfg, x, execution);
    }
  }

  // ---------------------------------------------------------------- what was executed

  /** A package that was executed, between the states before and after it. */
  datatype Record = Record(before: World, chain: Ibc.uint16, d: Delivery, after: World)

  function ChannelOf(r: Record): Ibc.Channel
  {
    Ibc.Channel(r.chain, r.d.package.channel)
  }

  ghost function PackageHistory(cfg: Config, w: World, chain: Ibc.uint16, ds: seq<Delivery>): seq<Record>
    decreases |ds|
  {
    if ds == [] then []
    else
      var r := AfterPackage(cfg, w, chain, ds[0]);
      if r == None then [] else [Record(w, chain, ds[0], r.value)] + PackageHistory(cfg, r.value, chain, ds[1..])
  }

  /** The packages that one event executed for good. */
  ghost function EventHistory(cfg: Config, w: World, e: Event): seq<Record>
  {
    if e.Claimed? && e.claim.deliveries.Some? && AfterClaim(cfg, w, e.claim).result == Done
    then PackageHistory(cfg, w, e.claim.chain, e.claim.deliveries.value)
    else []
  }

  ghost function History(cfg: Config, w: World, es: seq<Event>): seq<Record>
    decreases |es|
  {
    if es == [] then []
    else
      var front := es[..|es| - 1];
      History(cfg, w, front) + EventHistory(cfg, AfterRun(cfg, w, front), es[|es| - 1])
  }

  /** What one event comes to. A claim that won, is next, and all of whose packages were executed in turn leaves
      what the last of them left, with the claim counted; any other claim leaves nothing. Any other transaction
      leaves all it did if it succeeded, and nothing if not. */
  ghost predicate Comes(cfg: Config, w: World, e: Event, r: World)
  {
    match e
    case Claimed(claim) =>
      var ds := if claim.deliveries.Some? then claim.deliveries.value else [];
      var done := PackageHistory(cfg, w, claim.chain, ds);
      if claim.status == Won && claim.sequence == Received(w, Relay(claim)) && claim.deliveries.Some? && |done| == |ds|
      then r == Counted(if done == [] then w else done[|done| - 1].after, Relay(claim))
      else r == w
    case Other(execution) => r == if execution.ending == Succeeded then Performed(cfg, w, execution) else w
  }

  /** Packages are accepted together exactly if all of them are executed, each on what the one before it left. */
  lemma {:induction false} AllExecuted(cfg: Config, w: World, chain: Ibc.uint16, ds: seq<Delivery>)
    ensures var r, done := AfterPackages(cfg, w, chain, ds), PackageHistory(cfg, w, chain, ds);
            && |done| <= |ds| && (r.Some? <==> |done| == |ds|)
            && (forall i :: 0 <= i < |done| ==> done[i].d == ds[i] && done[i].chain == chain)
            && (forall i :: 0 <= i < |done| ==> done[i].before == if i == 0 then w else done[i - 1].after)
            && (r.Some? ==> r.value == if done == [] then w else done[|done| - 1].after)
    decreases |ds|
  {
    hide AfterPackage;
    if ds != [] && AfterPackage(cfg, w, chain, ds[0]).Some? {
      AllExecuted(cfg, AfterPackage(cfg, w, chain, ds[0]).value, chain, ds[1..]);
    }
  }

  lemma EventComes(cfg: Config, w: World, e: Event)
    ensures Comes(cfg, w, e, After(cfg, w, e))
  {
    hide PackageHistory, AfterPackages, Performed, Received, Counted;
    if e.Claimed? && e.claim.deliveries.Some? {
      AllExecuted(cfg, w, e.claim.chain, e.claim.deliveries.value);
    }
  }

  ghost predicate AllCome(cfg: Config, w: World, es: seq<Event>)
  {
    forall i :: 0 <= i < |es| ==> Comes(cfg, AfterRun(cfg, w, es[..i]), es[i], AfterRun(cfg, w, es[..i + 1]))
  }

  lemma RunComes(cfg: Config, w: World, es: seq<Event>)
    ensures AllCome(cfg, w, es)
  {
    hide After, Comes;
    forall i | 0 <= i < |es|
      ensures Comes(cfg, AfterRun(cfg, w, es[..i]), es[i], AfterRun(cfg, w, es[..i + 1]))
    {
      assert es[..i + 1][..i] == es[..i];
      EventComes(cfg, AfterRun(cfg, w, es[..i]), es[i]);
    }
  }

  /** The package is one of a claim of the run that won. */
  ghost predicate WasWon(es: seq<Event>, r: Record)
  {
    exists j :: 0 <= j < |es| && es[j].Claimed? && es[j].claim.status == Won && es[j].claim.chain == r.chain
                && es[j].claim.deliveries.Some? && r.d in es[j].claim.deliveries.value
  }

  ghost predicate AllWon(es: seq<Event>, history: seq<Record>)
  {
    forall i :: 0 <= i < |history| ==> WasWon(es, history[i])
  }

  lemma WonEarlier(es: seq<Event>, e: Event, r: Record)
    requires WasWon(es, r)
    ensures WasWon(es + [e], r)
  {
    var j :| 0 <= j < |es| && es[j].Claimed? && es[j].claim.status == Won && es[j].claim.chain == r.chain
             && es[j].claim.deliveries.Some? && r.d in es[j].claim.deliveries.value;
    assert (es + [e])[j] == es[j];
  }

  lemma WonNow(cfg: Config, w: World, es: seq<Event>, e: Event, i: nat)
    requires i < |EventHistory(cfg, w, e)|
    ensures WasWon(es + [e], EventHistory(cfg, w, e)[i])
  {
    hide PackageHistory, AfterPackages, Received, Counted;
    assert (es + [e])[|es|] == e;
    AllExecuted(cfg, w, e.claim.chain, e.claim.deliveries.value);
  }

  /** Every package executed in a run came with a claim that won. */
  lemma {:induction false} OnlyWonExecuted(cfg: Config, w: World, es: seq<Event>)
    ensures AllWon(es, History(cfg, w, es))
    decreases |es|
  {
    hide WasWon, EventHistory;
    if es != [] {
      var front, e := es[..|es| - 1], es[|es| - 1];
      OnlyWonExecuted(cfg, w, front);
      var before, more := History(cfg, w, front), EventHistory(cfg, AfterRun(cfg, w, front), e);
      assert es == front + [e];
      forall i | 0 <= i < |before + more|
        ensures WasWon(es, (before + more)[i])
      {
        if i < |before| {
          WonEarlier(front, e, before[i]);
        } else {
          WonNow(cfg, AfterRun(cfg, w, front), front, e, i - |before|);
        }
      }
    }
  }

  /** The sequences of the packages executed on one channel, in order. */
  function SequencesOn(history: seq<Record>, c: Ibc.Channel): seq<int>
  {
    if history == [] then []
    else
      var last := history[|history| - 1];
      SequencesOn(history[..|history| - 1], c) + if ChannelOf(last) == c then [last.d.package.sequence] else []
  }

  /** The sequences of the claims of one chain that were done, in order. */
  ghost function ClaimsOf(cfg: Config, w: World, es: seq<Event>, chain: Ibc.uint16): seq<int>
    decreases |es|
  {
    if es == [] then []
    else
      var front, e := es[..|es| - 1], es[|es| - 1];
      ClaimsOf(cfg, w, front, chain)
      + if e.Claimed? && e.claim.chain == chain && AfterClaim(cfg, AfterRun(cfg, w, front), e.claim).result == Done
        then [e.claim.sequence] else []
  }

  lemma {:induction false} SequencesJoin(a: seq<Record>, b: seq<Record>, c: Ibc.Channel)
    ensures SequencesOn(a + b, c) == SequencesOn(a, c) + SequencesOn(b, c)
  {
    if b == [] {
      assert a + b == a;
    } else {
      var front := b[..|b| - 1];
      SequencesJoin(a, front, c);
      assert (a + b)[..|a + b| - 1] == a + front;
      var tail := if ChannelOf(b[|b| - 1]) == c then [b[|b| - 1].d.package.sequence] else [];
      Assoc(SequencesOn(a, c), SequencesOn(front, c), tail);
    }
  }

  // ---------------------------------------------------------------- order

  /** n, n + 1 and so on, k of them, as a 64-bit counter goes. */
  function CountUp(n: uint64, k: nat): seq<int>
  {
    if k == 0 then [] else CountUp(n, k - 1) + [(n + k - 1) % TWO_64]
  }

  /** The counter stood at n and now stands at m, and what was counted is all that lies between. */
  predicate Counts(log: seq<int>, n: uint64, m: uint64)
  {
    log == CountUp(n, |log|) && m == (n + |log|) % TWO_64
  }

  lemma {:induction false} ModAdd(x: nat, j: nat)
    ensures (x % TWO_64 + j) % TWO_64 == (x + j) % TWO_64
    decreases x
  {
    if x >= TWO_64 {
      ModAdd(x - TWO_64, j);
      Turn(x - TWO_64);
      Turn(x - TWO_64 + j);
    }
  }

  lemma Turn(x: nat)
    ensures (x + TWO_64) % TWO_64 == x % TWO_64
  {
  }

  lemma {:induction false} CountUpJoin(n: uint64, i: nat, j: nat)
    ensures |CountUp(n, i)| == i
    ensures CountUp(n, i + j) == CountUp(n, i) + CountUp((n + i) % TWO_64, j)
    decreases i + j
  {
    if j > 0 {
      CountUpJoin(n, i, j - 1);
      ModAdd(n + i, j - 1);
      Assoc(CountUp(n, i), CountUp((n + i) % TWO_64, j - 1), [(n + i + j - 1) % TWO_64]);
    } else if i > 0 {
      CountUpJoin(n, i - 1, 0);
    }
  }

  lemma CountsJoin(a: seq<int>, b: seq<int>, n: uint64, m: uint64, l: uint64)
    requires Counts(a, n, m) && Counts(b, m, l)
    ensures Counts(a + b, n, l)
  {
    CountUpJoin(n, |a|, |b|);
    ModAdd(n + |a|, |b|);
  }

  lemma CountsNone(n: uint64)
    ensures Counts([], n, n)
  {
  }

  lemma CountsOne(n: uint64)
    ensures Counts([n], n, (n + 1) % TWO_64)
  {
    assert CountUp(n, 1) == CountUp(n, 0) + [n];
  }

  /** 0, 1, 2 and so on, n of them. */
  function Numbers(n: nat): seq<int>
  {
    if n == 0 then [] else Numbers(n - 1) + [n - 1]
  }

  lemma {:induction false} CountUpFromZero(k: nat)
    requires k <= TWO_64
    ensures CountUp(0, k) == Numbers(k)
  {
    if k > 0 {
      CountUpFromZero(k - 1);
    }
  }

  // ---------------------------------------------------------------- who counts

  lemma ReceivedPaid(cfg: Config, w: World, amount: int64, c: Ibc.Channel)
    requires Paid(cfg, w, amount).Some?
    ensures Received(Paid(cfg, w, amount).value, c) == Received(w, c)
  {
    hide Difference, NotNegative;
    Ibc.CounterBumped(w.keepers, NUMBER, Ibc.ChannelKey(Ibc.RECEIVE, c));
  }

  lemma ReceivedExecuted(cfg: Config, w: World, e: Execution, c: Ibc.Channel)
    ensures Received(AfterExecution(cfg, w, e), c) == Received(w, c)
  {
    hide Ibc.AfterAll, CacheStore.FlatOps, AccountCache.FlatOps, Ibc.ChannelKey;
    Ibc.AllElsewhere(cfg.src, w.keepers, e.messages, Ibc.ChannelKey(Ibc.RECEIVE, c));
  }

  lemma ReceivedAnswered(cfg: Config, w: World, chain: Ibc.uint16, d: Delivery, c: Ibc.Channel)
    requires Answered(cfg, w, chain, d).Some?
    ensures Received(Answered(cfg, w, chain, d).value, c) == Received(w, c)
  {
    hide AnswerTo, Ibc.AfterSend, Ibc.SentAs, Ibc.ChannelKey;
    var answer := AnswerTo(cfg, chain, d);
    if answer.Some? {
      Ibc.Elsewhere(cfg.src, w.keepers, Ibc.Send(answer.value), Ibc.ChannelKey(Ibc.RECEIVE, c));
    }
  }

  lemma ReceivedCounted(w: World, c: Ibc.Channel, d: Ibc.Channel)
    ensures Received(Counted(w, c), d) == if d == c then (Received(w, c) + 1) % TWO_64 else Received(w, d)
  {
    Ibc.ChannelKeyInjective(Ibc.RECEIVE, c, Ibc.RECEIVE, d);
    Ibc.CounterBumped(w.keepers, Ibc.ChannelKey(Ibc.RECEIVE, c), Ibc.ChannelKey(Ibc.RECEIVE, d));
  }

  /** An accepted package has the sequence its channel is at, and advances only that channel. */
  lemma PackageCounts(cfg: Config, w: World, chain: Ibc.uint16, d: Delivery, c: Ibc.Channel)
    requires AfterPackage(cfg, w, chain, d).Some?
    ensures var own, r := Ibc.Channel(chain, d.package.channel), AfterPackage(cfg, w, chain, d).value;
            && d.package.sequence == Received(w, own) && d.package.channel in cfg.apps
            && |d.package.payload| >= 33 && d.package.payload[0] in {0, 1, 2} && FeeOf(d.package.payload) >= 0
            && Received(r, c) == if c == own then (Received(w, c) + 1) % TWO_64 else Received(w, c)
  {
    hide Paid, AfterExecution, Answered, Received, FeeOf, Counted;
    var paid := Paid(cfg, w, FeeOf(d.package.payload)).value;
    var run := AfterExecution(cfg, paid, d.execution);
    ReceivedPaid(cfg, w, FeeOf(d.package.payload), c);
    ReceivedExecuted(cfg, paid, d.execution, c);
    ReceivedAnswered(cfg, run, chain, d, c);
    ReceivedCounted(Answered(cfg, run, chain, d).value, Ibc.Channel(chain, d.package.channel), c);
  }

  lemma {:induction false} PackagesCount(cfg: Config, w: World, chain: Ibc.uint16, ds: seq<Delivery>, c: Ibc.Channel)
    requires AfterPackages(cfg, w, chain, ds).Some?
    ensures Counts(SequencesOn(PackageHistory(cfg, w, chain, ds), c), Received(w, c), Received(AfterPackages(cfg, w, chain, ds).value, c))
    ensures c.id !in cfg.apps ==> Received(AfterPackages(cfg, w, chain, ds).value, c) == Received(w, c)
    decreases |ds|
  {
    hide AfterPackage, Received, Counts;
    CountsNone(Received(w, c));
    if ds != [] {
      var r := AfterPackage(cfg, w, chain, ds[0]).value;
      var first, rest := [Record(w, chain, ds[0], r)], PackageHistory(cfg, r, chain, ds[1..]);
      PackageCounts(cfg, w, chain, ds[0], c);
      PackagesCount(cfg, r, chain, ds[1..], c);
      SequencesJoin(first, rest, c);
      CountsOne(Received(w, c));
      assert first[..0] == [];
      assert SequencesOn(first, c) == if ChannelOf(first[0]) == c then [ds[0].package.sequence] else [];
      CountsJoin(SequencesOn(first, c), SequencesOn(rest, c), Received(w, c), Received(r, c), Received(AfterPackages(cfg, w, chain, ds).value, c));
    }
  }

  lemma EventCounts(cfg: Config, w: World, e: Event, c: Ibc.Channel)
    requires RELAY !in cfg.apps && c.id != RELAY
    ensures Counts(SequencesOn(EventHistory(cfg, w, e), c), Received(w, c), Received(After(cfg, w, e), c))
  {
    hide AfterPackages, PackageHistory, AfterExecution, Received, Counted, Counts;
    CountsNone(Received(w, c));
    match e {
    case Other(execution) =>
      ReceivedExecuted(cfg, w, execution, c);
    case Claimed(claim) =>
      if AfterClaim(cfg, w, claim).result == Done {
        var ds := claim.deliveries.value;
        PackagesCount(cfg, w, claim.chain, ds, c);
        ReceivedCounted(AfterPackages(cfg, w, claim.chain, ds).value, Relay(claim), c);
      }
    }
  }

  /** Over every run, the packages executed on a channel have all the sequences from where its
      counter stood to where it stands, in order, without gap or repeat. */
  lemma {:induction false} RunInOrder(cfg: Config, w: World, es: seq<Event>, c: Ibc.Channel)
    requires RELAY !in cfg.apps && c.id != RELAY
    ensures Counts(SequencesOn(History(cfg, w, es), c), Received(w, c), Received(AfterRun(cfg, w, es), c))
    decreases |es|
  {
    hide After, EventHistory, Received, Counts;
    CountsNone(Received(w, c));
    if es != [] {
      var front, e := es[..|es| - 1], es[|es| - 1];
      var v := AfterRun(cfg, w, front);
      RunInOrder(cfg, w, front, c);
      EventCounts(cfg, v, e, c);
      SequencesJoin(History(cfg, w, front), EventHistory(cfg, v, e), c);
      CountsJoin(SequencesOn(History(cfg, w, front), c), SequencesOn(EventHistory(cfg, v, e), c), Received(w, c), Received(v, c), Received(After(cfg, v, e), c));
    }
  }

  /** And so have the claims of a chain that were done. */
  lemma {:induction false} ClaimsInOrder(cfg: Config, w: World, es: seq<Event>, chain: Ibc.uint16)
    requires RELAY !in cfg.apps
    ensures var c := Ibc.Channel(chain, RELAY);
            Counts(ClaimsOf(cfg, w, es, chain), Received(w, c), Received(AfterRun(cfg, w, es), c))
    decreases |es|
  {
    hide After, AfterClaim, Received, Counts;
    var c := Ibc.Channel(chain, RELAY);
    CountsNone(Received(w, c));
    if es != [] {
      var front, e := es[..|es| - 1], es[|es| - 1];
      var v := AfterRun(cfg, w, front);
      ClaimsInOrder(cfg, w, front, chain);
      ClaimCounts(cfg, v, e, c);
      var more := if e.Claimed? && e.claim.chain == chain && AfterClaim(cfg, v, e.claim).result == Done then [e.claim.sequence] else [];
      CountsJoin(ClaimsOf(cfg, w, front, chain), more, Received(w, c), Received(v, c), Received(After(cfg, v, e), c));
    }
  }

  lemma ClaimCounts(cfg: Config, w: World, e: Event, c: Ibc.Channel)
    requires RELAY !in cfg.apps && c.id == RELAY
    ensures var more := if e.Claimed? && e.claim.chain == c.dest && AfterClaim(cfg, w, e.claim).result == Done then [e.claim.sequence] else [];
            Counts(more, Received(w, c), Received(After(cfg, w, e), c))
  {
    hide AfterPackages, AfterExecution, Received, Counted, Counts;
    CountsNone(Received(w, c));
    CountsOne(Received(w, c));
    match e {
    case Other(execution) =>
      ReceivedExecuted(cfg, w, execution, c);
    case Claimed(claim) =>
      if AfterClaim(cfg, w, claim).result == Done {
        var ds := claim.deliveries.value;
        PackagesCount(cfg, w, claim.chain, ds, c);
        ReceivedCounted(AfterPackages(cfg, w, claim.chain, ds).value, Relay(claim), c);
      }
    }
  }

  // ---------------------------------------------------------------- what failure leaves behind

  function PackageKey(cfg: Config, w: World, c: Ibc.Channel): bytes
  {
    Ibc.Key(cfg.src, c, Ibc.Next(w.keepers, c))
  }

  /** The entries of the keepers that handling a package of channel c writes by itself. */
  predicate Bookkeeping(cfg: Config, w: World, c: Ibc.Channel, k: bytes)
  {
    k in {NUMBER, Ibc.ChannelKey(Ibc.RECEIVE, c), Ibc.ChannelKey(Ibc.SEND, c), PackageKey(cfg, w, c)}
  }

  /** The peg account is short of exactly the fee, and no other account has changed. */
  ghost predicate OnlyFee(cfg: Config, before: World, after: World, fee: int64)
  {
    && after.app == before.app
    && (forall a :: a != cfg.peg ==> Overlays.Lookup(after.accounts, a) == Overlays.Lookup(before.accounts, a))
    && cfg.peg in after.accounts
    && (cfg.peg in before.accounts ==> after.accounts[cfg.peg] == before.accounts[cfg.peg].(coins := after.accounts[cfg.peg].coins))
    && (Sorted(CoinsOf(before.accounts, cfg.peg)) ==>
          forall d :: Amount(CoinsOf(after.accounts, cfg.peg), d)
                      == Amount(CoinsOf(before.accounts, cfg.peg), d) - if d == cfg.token then fee else 0)
  }

  /** The keepers show new counters and, if an answer was due, one new package: that answer. */
  ghost predicate OnlyAnswer(cfg: Config, before: World, after: World, c: Ibc.Channel, answer: Option<Ibc.Package>)
  {
    var key := PackageKey(cfg, before, c);
    && (forall k :: !Bookkeeping(cfg, before, c, k) ==> Overlays.Lookup(after.keepers, k) == Overlays.Lookup(before.keepers, k))
    && (answer == None ==> Overlays.Lookup(after.keepers, key) == Overlays.Lookup(before.keepers, key))
    && (answer.Some? ==> key !in before.keepers
                         && Overlays.Lookup(after.keepers, key) == Some(Ibc.Header(answer.value.t, answer.value.fee) + answer.value.load))
  }

  /** A package whose application failed or crashed: whatever the application did to accounts,
      stores, packages and permissions is gone. */
  ghost predicate LeavesNothing(cfg: Config, r: Record)
  {
    && OnlyFee(cfg, r.before, r.after, FeeOf(r.d.package.payload))
    && OnlyAnswer(cfg, r.before, r.after, ChannelOf(r), AnswerTo(cfg, r.chain, r.d))
  }

  lemma FeeTaken(cfg: Config, w: World, amount: int64)
    requires Keyed(w.accounts) && amount >= 0 && Paid(cfg, w, amount).Some?
    ensures var r := Paid(cfg, w, amount).value;
            && r.app == w.app && Keyed(r.accounts) && cfg.peg in r.accounts
            && (cfg.peg in w.accounts ==> r.accounts[cfg.peg] == w.accounts[cfg.peg].(coins := r.accounts[cfg.peg].coins))
            && (forall a :: a != cfg.peg ==> Overlays.Lookup(r.accounts, a) == Overlays.Lookup(w.accounts, a))
            && Difference(CoinsOf(w.accounts, cfg.peg), FeeCoins(cfg, amount)).Some?
            && CoinsOf(r.accounts, cfg.peg) == Difference(CoinsOf(w.accounts, cfg.peg), FeeCoins(cfg, amount)).value
            && (forall k :: k != NUMBER ==> Overlays.Lookup(r.keepers, k) == Overlays.Lookup(w.keepers, k))
  {
    hide Difference, NotNegative, Ibc.Counter, Ibc.Fixed;
  }

  lemma FeeAmount(cfg: Config, before: seq<Coin>, amount: int64)
    requires Sorted(before) && amount >= 0 && Difference(before, FeeCoins(cfg, amount)).Some?
    ensures forall d :: Amount(Difference(before, FeeCoins(cfg, amount)).value, d) == Amount(before, d) - if d == cfg.token then amount else 0
  {
    var fee := FeeCoins(cfg, amount);
    assert fee[1..] == [];
    DifferenceIsPointwise(before, fee);
    forall d
      ensures Amount(fee, d) == if d == cfg.token then amount else 0
    {
    }
  }

  lemma SentPackage(cfg: Config, w: World, p: Ibc.Package)
    requires Ibc.SentAs(cfg.src, w.keepers, p).Sequence?
    ensures var r, key := Ibc.AfterSend(cfg.src, w.keepers, p), PackageKey(cfg, w, p.c);
            && key !in w.keepers && key in r && r[key] == Ibc.Header(p.t, p.fee) + p.load
            && (forall k :: k != key && k != Ibc.ChannelKey(Ibc.SEND, p.c) ==> Overlays.Lookup(r, k) == Overlays.Lookup(w.keepers, k))
  {
    hide Ibc.Allowed, Ibc.Header, Ibc.Counter, Ibc.Fixed;
    assert |PackageKey(cfg, w, p.c)| != |Ibc.ChannelKey(Ibc.SEND, p.c)|;
  }

  /** The next package key does not depend on the number of accounts. */
  lemma SameKey(cfg: Config, v: World, w: World, c: Ibc.Channel)
    requires forall k :: k != NUMBER ==> Overlays.Lookup(v.keepers, k) == Overlays.Lookup(w.keepers, k)
    ensures PackageKey(cfg, v, c) == PackageKey(cfg, w, c)
  {
    assert Overlays.Lookup(v.keepers, Ibc.ChannelKey(Ibc.SEND, c)) == Overlays.Lookup(w.keepers, Ibc.ChannelKey(Ibc.SEND, c));
  }

  lemma FeeOnly(cfg: Config, w: World, amount: int64, keepers: Ibc.Contents)
    requires Keyed(w.accounts) && amount >= 0 && Paid(cfg, w, amount).Some?
    ensures OnlyFee(cfg, w, Paid(cfg, w, amount).value.(keepers := keepers), amount)
  {
    hide Paid, Difference;
    FeeTaken(cfg, w, amount);
    if Sorted(CoinsOf(w.accounts, cfg.peg)) {
      FeeAmount(cfg, CoinsOf(w.accounts, cfg.peg), amount);
    }
  }

  lemma AnswerOnly(cfg: Config, w: World, paid: World, chain: Ibc.uint16, d: Delivery)
    requires forall k :: k != NUMBER ==> Overlays.Lookup(paid.keepers, k) == Overlays.Lookup(w.keepers, k)
    requires Answered(cfg, paid, chain, d).Some?
    ensures var c := Ibc.Channel(chain, d.package.channel);
            OnlyAnswer(cfg, w, Counted(Answered(cfg, paid, chain, d).value, c), c, AnswerTo(cfg, chain, d))
  {
    hide AnswerTo, Ibc.SentAs, Ibc.AfterSend, Ibc.Header, PackageKey, Ibc.ChannelKey, Ibc.Fixed, Ibc.Counter;
    var c, answer := Ibc.Channel(chain, d.package.channel), AnswerTo(cfg, chain, d);
    SameKey(cfg, paid, w, c);
    AnswerChannel(cfg, chain, d);
    KeysDiffer(cfg, w, c);
    if answer.Some? {
      SentPackage(cfg, paid, answer.value);
      assert Overlays.Lookup(paid.keepers, PackageKey(cfg, w, c)) == Overlays.Lookup(w.keepers, PackageKey(cfg, w, c));
    }
  }

  lemma FailedLeavesNothing(cfg: Config, w: World, chain: Ibc.uint16, d: Delivery)
    requires Keyed(w.accounts) && AfterPackage(cfg, w, chain, d).Some? && d.execution.ending != Succeeded
    ensures LeavesNothing(cfg, Record(w, chain, d, AfterPackage(cfg, w, chain, d).value))
  {
    hide Paid, TypeOf, FeeOf, Received, OnlyFee, OnlyAnswer, AnswerTo;
    var fee := FeeOf(d.package.payload);
    var paid, r := Paid(cfg, w, fee).value, AfterPackage(cfg, w, chain, d).value;
    FeeTaken(cfg, w, fee);
    FeeOnly(cfg, w, fee, r.keepers);
    AnswerOnly(cfg, w, paid, chain, d);
    assert r == paid.(keepers := r.keepers);
  }

  lemma AnswerChannel(cfg: Config, chain: Ibc.uint16, d: Delivery)
    ensures AnswerTo(cfg, chain, d).Some? ==> AnswerTo(cfg, chain, d).value.c == Ibc.Channel(chain, d.package.channel)
  {
  }

  lemma KeysDiffer(cfg: Config, w: World, c: Ibc.Channel)
    ensures PackageKey(cfg, w, c) != Ibc.ChannelKey(Ibc.RECEIVE, c) && PackageKey(cfg, w, c) != NUMBER
  {
    assert |PackageKey(cfg, w, c)| == 14;
  }

  /** An answer is due for a Syn package whose application crashed or gave one. */
  predicate Answerable(d: Delivery)
  {
    && |d.package.payload| >= 33 && d.package.payload[0] == 0
    && (d.execution.ending == Crashed || d.execution.answer != [])
  }

  /** It goes back on the channel the package came on, with the fee that was looked up: a FailAck with what
      came, without its header since the fix, or an Ack with what the application gave. */
  lemma AnswerMeans(cfg: Config, chain: Ibc.uint16, d: Delivery)
    ensures var a, fee := AnswerTo(cfg, chain, d), if d.fee.Some? then d.fee.value else 0;
            && (a.Some? <==> Answerable(d))
            && (a.Some? ==> a.value.c == Ibc.Channel(chain, d.package.channel) && a.value.fee == fee)
            && (a.Some? && d.execution.ending == Crashed ==>
                  a.value.t == Ibc.FailAck && a.value.load == if cfg.fixed then d.package.payload[33..] else d.package.payload)
            && (a.Some? && d.execution.ending != Crashed ==> a.value.t == Ibc.Ack && a.value.load == d.execution.answer)
  {
  }

  /** A Syn package whose application did not crash and gave an answer sends, after all that the application
      sent itself, exactly one package: an Ack that carries the answer, with the fee that was looked up. */
  lemma AnsweredSyn(cfg: Config, w: World, chain: Ibc.uint16, d: Delivery)
    requires AfterPackage(cfg, w, chain, d).Some? && Answerable(d) && d.execution.ending != Crashed
    ensures var run := AfterExecution(cfg, Paid(cfg, w, FeeOf(d.package.payload)).value, d.execution);
            var r, key := AfterPackage(cfg, w, chain, d).value, PackageKey(cfg, run, Ibc.Channel(chain, d.package.channel));
            && d.fee.Some? && key !in run.keepers && key in r.keepers && |r.keepers[key]| >= 33
            && TypeOf(r.keepers[key]) == Some(Ibc.Ack) && r.keepers[key][33..] == d.execution.answer
            && (d.fee.value < TWO_63 ==> FeeOf(r.keepers[key]) == d.fee.value)
            && (forall k :: k != key && k != Ibc.ChannelKey(Ibc.SEND, Ibc.Channel(chain, d.package.channel))
                            && k != Ibc.ChannelKey(Ibc.RECEIVE, Ibc.Channel(chain, d.package.channel)) ==>
                  Overlays.Lookup(r.keepers, k) == Overlays.Lookup(run.keepers, k))
  {
    AnswerMeans(cfg, chain, d);
    hide AnswerTo, Answerable, TypeOf, FeeOf, Received, Paid, AfterExecution, Ibc.SentAs, Ibc.AfterSend, Ibc.Header, PackageKey, Ibc.ChannelKey, Ibc.Fixed, Ibc.Counter;
    var run := AfterExecution(cfg, Paid(cfg, w, FeeOf(d.package.payload)).value, d.execution);
    SentPackage(cfg, run, AnswerTo(cfg, chain, d).value);
    KeysDiffer(cfg, run, Ibc.Channel(chain, d.package.channel));
    HeaderReads(Ibc.Ack, d.fee.value, d.execution.answer);
    if d.fee.value < TWO_63 {
      HeaderRoundTrip(Ibc.Ack, d.fee.value, d.execution.answer);
    }
  }

  /** Where no answer is due, nothing is sent besides what the application sent itself. */
  lemma NotAnswered(cfg: Config, w: World, chain: Ibc.uint16, d: Delivery)
    requires AfterPackage(cfg, w, chain, d).Some? && !Answerable(d)
    ensures var run := AfterExecution(cfg, Paid(cfg, w, FeeOf(d.package.payload)).value, d.execution);
            AfterPackage(cfg, w, chain, d).value == Counted(run, Ibc.Channel(chain, d.package.channel))
  {
    AnswerMeans(cfg, chain, d);
  }

  /** The fee can be paid exactly if the peg account has it. */
  lemma PaidExactly(cfg: Config, w: World, fee: int64)
    requires Sorted(CoinsOf(w.accounts, cfg.peg)) && fee >= 0
    ensures Paid(cfg, w, fee).Some? <==>
              forall d :: Amount(CoinsOf(w.accounts, cfg.peg), d) >= if d == cfg.token then fee else 0
  {
    var coins, cost := CoinsOf(w.accounts, cfg.peg), FeeCoins(cfg, fee);
    CostIs(cfg, fee);
    CostCovered(cfg, coins, fee);
    MinusPanics(coins, cost);
    hide Difference, Wrap, Amount, Sorted, FeeCoins;
    if Difference(coins, cost).Some? {
      DifferenceCovers(coins, cost);
      DifferenceIsPointwise(coins, cost);
      NotNegativeIsPointwise(Difference(coins, cost).value);
      assert NotNegative(Difference(coins, cost).value) <==> Covers(coins, cost);
    } else {
      var d :| !Int64(Amount(coins, d) + Wrap(0 - Amount(cost, d)));
      WrapNegative(Amount(cost, d));
      assert Amount(coins, d) < Amount(cost, d);
    }
  }

  lemma CostCovered(cfg: Config, coins: seq<Coin>, fee: int64)
    requires fee >= 0
    ensures Covers(coins, FeeCoins(cfg, fee)) <==> forall d :: Amount(coins, d) >= if d == cfg.token then fee else 0
  {
    CostIs(cfg, fee);
    hide FeeCoins;
    if Covers(coins, FeeCoins(cfg, fee)) {
      forall d
        ensures Amount(coins, d) >= if d == cfg.token then fee else 0
      {
        assert Amount(coins, d) >= Amount(FeeCoins(cfg, fee), d);
      }
    } else {
      var d :| Amount(coins, d) < Amount(FeeCoins(cfg, fee), d);
      assert !(Amount(coins, d) >= if d == cfg.token then fee else 0);
    }
  }

  lemma CostIs(cfg: Config, fee: int64)
    requires fee >= 0
    ensures Sorted(FeeCoins(cfg, fee)) && Negatable(FeeCoins(cfg, fee))
    ensures forall d :: Amount(FeeCoins(cfg, fee), d) == if d == cfg.token then fee else 0
  {
    assert FeeCoins(cfg, fee)[1..] == [];
  }

  /** A Syn package whose application crashed sends exactly one package: a FailAck that carries it back. */
  lemma CrashedSyn(cfg: Config, w: World, chain: Ibc.uint16, d: Delivery)
    requires Keyed(w.accounts) && AfterPackage(cfg, w, chain, d).Some?
    requires TypeOf(d.package.payload) == Some(Ibc.Syn) && d.execution.ending == Crashed
    ensures var r, key := AfterPackage(cfg, w, chain, d).value, PackageKey(cfg, w, Ibc.Channel(chain, d.package.channel));
            && key !in w.keepers && key in r.keepers
            && TypeOf(r.keepers[key]) == Some(Ibc.FailAck)
            && r.keepers[key][Ibc.HEADER_LENGTH..] == d.package.payload[if cfg.fixed then Ibc.HEADER_LENGTH else 0..]
            && d.fee.Some? && (d.fee.value < TWO_63 ==> FeeOf(r.keepers[key]) == d.fee.value)
    ensures LeavesNothing(cfg, Record(w, chain, d, AfterPackage(cfg, w, chain, d).value))
  {
    FailedLeavesNothing(cfg, w, chain, d);
    assert d.fee.Some?;
    hide AfterPackage, OnlyFee, PackageKey, Ibc.Header, Keyed, Bookkeeping;
    var answer := AnswerTo(cfg, chain, d).value;
    HeaderReads(Ibc.FailAck, answer.fee, answer.load);
    if answer.fee < TWO_63 {
      HeaderRoundTrip(Ibc.FailAck, answer.fee, answer.load);
    }
  }

  // ---------------------------------------------------------------- every package of every run

  lemma KeyedExecution(cfg: Config, w: World, e: Execution)
    requires Keyed(w.accounts)
    ensures Keyed(AfterExecution(cfg, w, e).accounts)
  {
    hide Keyed, AccountCache.FlatOps, CacheStore.FlatOps, Ibc.AfterAll;
    FlatOpsKeyed(Picture(w.accounts, []), e.accounts);
  }

  lemma KeyedPackage(cfg: Config, w: World, chain: Ibc.uint16, d: Delivery)
    requires Keyed(w.accounts) && AfterPackage(cfg, w, chain, d).Some?
    ensures Keyed(AfterPackage(cfg, w, chain, d).value.accounts)
  {
    hide Keyed, Paid, AfterExecution, TypeOf, FeeOf, AnswerTo, Received;
    var fee := FeeOf(d.package.payload);
    FeeTaken(cfg, w, fee);
    KeyedExecution(cfg, Paid(cfg, w, fee).value, d.execution);
  }

  lemma {:induction false} KeyedPackages(cfg: Config, w: World, chain: Ibc.uint16, ds: seq<Delivery>)
    requires Keyed(w.accounts) && AfterPackages(cfg, w, chain, ds).Some?
    ensures Keyed(AfterPackages(cfg, w, chain, ds).value.accounts)
    decreases |ds|
  {
    hide Keyed, AfterPackage;
    if ds != [] {
      KeyedPackage(cfg, w, chain, ds[0]);
      KeyedPackages(cfg, AfterPackage(cfg, w, chain, ds[0]).value, chain, ds[1..]);
    }
  }

  lemma {:induction false} KeyedRun(cfg: Config, w: World, es: seq<Event>)
    requires Keyed(w.accounts)
    ensures Keyed(AfterRun(cfg, w, es).accounts)
    decreases |es|
  {
    hide Keyed, AfterExecution, AfterPackages, Received;
    if es != [] {
      var v, e := AfterRun(cfg, w, es[..|es| - 1]), es[|es| - 1];
      KeyedRun(cfg, w, es[..|es| - 1]);
      match e {
      case Other(execution) =>
        KeyedExecution(cfg, v, execution);
      case Claimed(claim) =>
        if AfterClaim(cfg, v, claim).result == Done {
          KeyedPackages(cfg, v, claim.chain, claim.deliveries.value);
        }
      }
    }
  }

  /** A package whose application succeeded: after the fee, all that the application did to accounts,
      stores and keepers is there as on flat maps, and besides it only the answer and the counters. */
  ghost predicate KeepsAll(cfg: Config, r: Record)
  {
    var paid := Paid(cfg, r.before, FeeOf(r.d.package.payload));
    && paid.Some?
    && r.after.accounts == AccountCache.FlatOps(Picture(paid.value.accounts, []), r.d.execution.accounts).store
    && r.after.app == CacheStore.FlatOps(r.before.app, r.d.execution.steps).store
    && OnlyAnswer(cfg, Performed(cfg, paid.value, r.d.execution), r.after, ChannelOf(r), AnswerTo(cfg, r.chain, r.d))
  }

  lemma SucceededKeepsAll(cfg: Config, w: World, chain: Ibc.uint16, d: Delivery)
    requires AfterPackage(cfg, w, chain, d).Some? && d.execution.ending == Succeeded
    ensures KeepsAll(cfg, Record(w, chain, d, AfterPackage(cfg, w, chain, d).value))
  {
    hide OnlyAnswer, FeeOf, AnswerTo, CoinsOf, FeeCoins, Ibc.AfterAll, Ibc.AfterSend, Ibc.SentAs, Ibc.Bumped;
    var paid := Paid(cfg, w, FeeOf(d.package.payload)).value;
    var run := Performed(cfg, paid, d.execution);
    AnswerOnly(cfg, run, run, chain, d);
  }

  /** The record is of a package that was accepted; its effect is the fee, all that the application
      did if it succeeded and nothing of it otherwise, the answer, and the sequence. */
  ghost predicate Faithful(cfg: Config, r: Record)
  {
    && AfterPackage(cfg, r.before, r.chain, r.d) == Some(r.after)
    && if r.d.execution.ending == Succeeded then KeepsAll(cfg, r) else LeavesNothing(cfg, r)
  }

  ghost predicate AllFaithful(cfg: Config, history: seq<Record>)
  {
    forall i :: 0 <= i < |history| ==> Faithful(cfg, history[i])
  }

  lemma {:induction false} PackagesFaithful(cfg: Config, w: World, chain: Ibc.uint16, ds: seq<Delivery>)
    requires Keyed(w.accounts)
    ensures AllFaithful(cfg, PackageHistory(cfg, w, chain, ds))
    decreases |ds|
  {
    hide Keyed, AfterPackage, KeepsAll, LeavesNothing;
    if ds != [] && AfterPackage(cfg, w, chain, ds[0]).Some? {
      KeyedPackage(cfg, w, chain, ds[0]);
      if ds[0].execution.ending == Succeeded {
        SucceededKeepsAll(cfg, w, chain, ds[0]);
      } else {
        FailedLeavesNothing(cfg, w, chain, ds[0]);
      }
      PackagesFaithful(cfg, AfterPackage(cfg, w, chain, ds[0]).value, chain, ds[1..]);
    }
  }

  /** In every run, of every package that was executed. */
  lemma {:induction false} RunFaithful(cfg: Config, w: World, es: seq<Event>)
    requires Keyed(w.accounts)
    ensures AllFaithful(cfg, History(cfg, w, es))
    decreases |es|
  {
    hide Keyed, Faithful, PackageHistory, After, AfterClaim;
    if es != [] {
      var front, e := es[..|es| - 1], es[|es| - 1];
      RunFaithful(cfg, w, front);
      KeyedRun(cfg, w, front);
      if e.Claimed? && e.claim.deliveries.Some? {
        PackagesFaithful(cfg, AfterRun(cfg, w, front), e.claim.chain, e.claim.deliveries.value);
      }
    }
  }

  // ---------------------------------------------------------------- windows of sent packages

  /** How many packages an event sends at most. */
  function Weight(e: Event): nat
  {
    match e
    case Claimed(claim) => if claim.deliveries.Some? then PackagesWeight(claim.deliveries.value) else 0
    case Other(execution) => |execution.messages|
  }

  function PackagesWeight(ds: seq<Delivery>): nat
  {
    if ds == [] then 0 else |ds[0].execution.messages| + 1 + PackagesWeight(ds[1..])
  }

  function RunWeight(es: seq<Event>): nat
  {
    if es == [] then 0 else RunWeight(es[..|es| - 1]) + Weight(es[|es| - 1])
  }

  type Lows = map<Ibc.Channel, uint64>

  lemma RoomLess(m: Ibc.Contents, j: nat, k: nat)
    requires Ibc.Room(m, k) && j <= k
    ensures Ibc.Room(m, j)
  {
    hide Ibc.Counter;
    forall c
      ensures Ibc.Next(m, c) + j < TWO_64
    {
      assert Ibc.Next(m, c) + k < TWO_64;
    }
  }

  lemma BumpedWindows(src: Ibc.uint16, m: Ibc.Contents, low: Lows, k: bytes, room: nat)
    requires Ibc.Windows(src, m, low) && Ibc.Room(m, room) && k != [] && k[0] != 0 && k[0] != Ibc.SEND
    ensures Ibc.Windows(src, Ibc.Bumped(m, k), low) && Ibc.Room(Ibc.Bumped(m, k), room)
  {
    hide Ibc.Windows, Ibc.Counter, Ibc.Fixed;
    Ibc.SameWindows(src, m, Ibc.Bumped(m, k), low);
  }

  lemma PaidWindows(cfg: Config, w: World, amount: int64, low: Lows, room: nat)
    requires Ibc.Windows(cfg.src, w.keepers, low) && Ibc.Room(w.keepers, room) && Paid(cfg, w, amount).Some?
    ensures Ibc.Windows(cfg.src, Paid(cfg, w, amount).value.keepers, low) && Ibc.Room(Paid(cfg, w, amount).value.keepers, room)
  {
    hide Ibc.Windows, Ibc.Room, Difference, NotNegative, Ibc.Bumped;
    BumpedWindows(cfg.src, w.keepers, low, NUMBER, room);
  }

  lemma ExecutedWindows(cfg: Config, w: World, e: Execution, low: Lows, room: nat) returns (now: Lows)
    requires Ibc.Windows(cfg.src, w.keepers, low) && Ibc.Room(w.keepers, |e.messages| + room)
    ensures var r := AfterExecution(cfg, w, e).keepers; Ibc.Windows(cfg.src, r, now) && Ibc.Room(r, room)
  {
    hide Ibc.Windows, Ibc.Room, Ibc.AfterAll, CacheStore.FlatOps, AccountCache.FlatOps;
    RoomLess(w.keepers, room, |e.messages| + room);
    now := low;
    if e.ending == Succeeded {
      now := Ibc.AllKeepWindows(cfg.src, w.keepers, low, e.messages, room);
    }
  }

  /** An answer is never refused as a duplicate. */
  lemma AnsweredWindows(cfg: Config, w: World, chain: Ibc.uint16, d: Delivery, low: Lows, room: nat)
    requires Ibc.Windows(cfg.src, w.keepers, low) && Ibc.Room(w.keepers, room + 1)
    ensures var r := Answered(cfg, w, chain, d);
            && (r.Some? <==> (AnswerTo(cfg, chain, d).Some? ==> d.fee.Some?))
            && (r.Some? ==> Ibc.Windows(cfg.src, r.value.keepers, low) && Ibc.Room(r.value.keepers, room))
  {
    AnswerType(cfg, chain, d);
    hide Ibc.Windows, Ibc.Room, Ibc.AfterSend, AnswerTo, Ibc.Allowed, Ibc.Key, Ibc.Counter;
    RoomLess(w.keepers, room, room + 1);
    var answer := AnswerTo(cfg, chain, d);
    if answer.Some? {
      Ibc.OpKeepsWindows(cfg.src, w.keepers, low, Ibc.Send(answer.value), room);
    }
  }

  lemma AnswerType(cfg: Config, chain: Ibc.uint16, d: Delivery)
    ensures AnswerTo(cfg, chain, d).Some? ==> AnswerTo(cfg, chain, d).value.t != Ibc.Syn
  {
  }

  lemma AdmittedExactly(cfg: Config, w: World, chain: Ibc.uint16, p: Package)
    ensures Admitted(cfg, w, chain, p) <==>
              && p.channel in cfg.apps && p.sequence == Received(w, Ibc.Channel(chain, p.channel))
              && |p.payload| >= 33 && p.payload[0] in {0, 1, 2} && FeeOf(p.payload) >= 0
  {
    hide FeeOf, Received;
  }

  /** Within the windows a package is accepted exactly if it is the next of a channel with an
      application, has a valid header, its fee can be paid, and the fee of a due answer is known. */
  lemma PackageWindows(cfg: Config, w: World, chain: Ibc.uint16, d: Delivery, low: Lows, room: nat) returns (now: Lows)
    requires Ibc.Windows(cfg.src, w.keepers, low) && Ibc.Room(w.keepers, |d.execution.messages| + 1 + room)
    ensures var r := AfterPackage(cfg, w, chain, d);
            && (r.Some? <==> && d.package.channel in cfg.apps
                             && d.package.sequence == Received(w, Ibc.Channel(chain, d.package.channel))
                             && |d.package.payload| >= 33 && d.package.payload[0] in {0, 1, 2} && FeeOf(d.package.payload) >= 0
                             && Paid(cfg, w, FeeOf(d.package.payload)).Some?
                             && (Answerable(d) ==> d.fee.Some?))
            && (r.Some? ==> Ibc.Windows(cfg.src, r.value.keepers, now) && Ibc.Room(r.value.keepers, room))
  {
    AdmittedExactly(cfg, w, chain, d.package);
    AnswerMeans(cfg, chain, d);
    hide Ibc.Windows, Ibc.Room, Admitted, Paid, AfterExecution, Answered, AnswerTo, Answerable, FeeOf, Received, Ibc.Bumped;
    now := low;
    var paid := Paid(cfg, w, FeeOf(d.package.payload));
    if Admitted(cfg, w, chain, d.package) && paid.Some? {
      PaidWindows(cfg, w, FeeOf(d.package.payload), low, |d.execution.messages| + 1 + room);
      now := ExecutedWindows(cfg, paid.value, d.execution, low, 1 + room);
      var run := AfterExecution(cfg, paid.value, d.execution);
      AnsweredWindows(cfg, run, chain, d, now, room);
      if Answered(cfg, run, chain, d).Some? {
        BumpedWindows(cfg.src, Answered(cfg, run, chain, d).value.keepers, now, Ibc.ChannelKey(Ibc.RECEIVE, Ibc.Channel(chain, d.package.channel)), room);
      }
    }
  }

  lemma {:induction false} PackagesWindows(cfg: Config, w: World, chain: Ibc.uint16, ds: seq<Delivery>, low: Lows, room: nat) returns (now: Lows)
    requires Ibc.Windows(cfg.src, w.keepers, low) && Ibc.Room(w.keepers, PackagesWeight(ds) + room)
    ensures var r := AfterPackages(cfg, w, chain, ds); r.Some? ==> Ibc.Windows(cfg.src, r.value.keepers, now) && Ibc.Room(r.value.keepers, room)
    decreases |ds|
  {
    hide Ibc.Windows, Ibc.Room, AfterPackage, Admitted, Paid, AnswerTo;
    now := low;
    if ds != [] {
      now := PackageWindows(cfg, w, chain, ds[0], low, PackagesWeight(ds[1..]) + room);
      var r := AfterPackage(cfg, w, chain, ds[0]);
      if r.Some? {
        now := PackagesWindows(cfg, r.value, chain, ds[1..], now, room);
      }
    }
  }

  lemma EventWindows(cfg: Config, w: World, e: Event, low: Lows, room: nat) returns (now: Lows)
    requires Ibc.Windows(cfg.src, w.keepers, low) && Ibc.Room(w.keepers, Weight(e) + room)
    ensures var r := After(cfg, w, e); Ibc.Windows(cfg.src, r.keepers, now) && Ibc.Room(r.keepers, room)
  {
    hide Ibc.Windows, Ibc.Room, AfterPackages, AfterExecution, PackagesWeight, Received, Ibc.Bumped;
    RoomLess(w.keepers, room, Weight(e) + room);
    now := low;
    match e {
    case Other(execution) =>
      now := ExecutedWindows(cfg, w, execution, low, room);
    case Claimed(claim) =>
      if AfterClaim(cfg, w, claim).result == Done {
        now := PackagesWindows(cfg, w, claim.chain, claim.deliveries.value, low, room);
        BumpedWindows(cfg.src, AfterPackages(cfg, w, claim.chain, claim.deliveries.value).value.keepers, now, Ibc.ChannelKey(Ibc.RECEIVE, Relay(claim)), room);
      }
    }
  }

  /** Over every run of claims and other transactions, what is stored of every channel stays a
      window of sequences. */
  lemma {:induction false} RunWindows(cfg: Config, w: World, es: seq<Event>, low: Lows, room: nat) returns (now: Lows)
    requires Ibc.Windows(cfg.src, w.keepers, low) && Ibc.Room(w.keepers, RunWeight(es) + room)
    ensures var r := AfterRun(cfg, w, es); Ibc.Windows(cfg.src, r.keepers, now) && Ibc.Room(r.keepers, room)
    decreases |es|
  {
    hide Ibc.Windows, Ibc.Room, After, Weight;
    now := low;
    if es != [] {
      var front, e := es[..|es| - 1], es[|es| - 1];
      now := RunWindows(cfg, w, front, low, Weight(e) + room);
      now := EventWindows(cfg, AfterRun(cfg, w, front), e, now, room);
    }
  }

  // ---------------------------------------------------------------- the run itself

  /** The sequences executed on c are all from where its counter stood to where it stands. */
  ghost predicate InOrder(cfg: Config, w: World, r: World, es: seq<Event>, c: Ibc.Channel)
  {
    if c.id == RELAY then Counts(ClaimsOf(cfg, w, es, c.dest), Received(w, c), Received(r, c))
    else Counts(SequencesOn(History(cfg, w, es), c), Received(w, c), Received(r, c))
  }

  /** Any run of claims and other transactions behind the caches: what shows is what the flat run
      says; every claim and every other transaction came to what it should; every package that was
      executed came with a claim that won and had the effect it should have and no other; every
      channel executed its sequences in order; and nothing beneath the caches has changed. */
  method Run(cfg: Config, x: Context, es: seq<Event>)
    requires Stands(x) && RELAY !in cfg.apps && Keyed(Shown(x).accounts)
    modifies x.accounts.chain, x.app.chain, x.keepers.chain
    ensures Stands(x) && Below(x) && Shown(x) == AfterRun(cfg, old(Shown(x)), es)
    ensures AllFaithful(cfg, History(cfg, old(Shown(x)), es))
    ensures forall c :: InOrder(cfg, old(Shown(x)), Shown(x), es, c)
    ensures AllCome(cfg, old(Shown(x)), es) && AllWon(es, History(cfg, old(Shown(x)), es))
  {
    hide Stands, Shown, Layer.Valid, Layer.View, CacheStore.Store.Valid, CacheStore.Store.View, After, Received, Counts, History, Faithful, Keyed, AllCome, AllWon;
    ghost var w := Shown(x);
    assert es[..0] == [];
    for i := 0 to |es|
      invariant Stands(x) && Below(x) && Shown(x) == AfterRun(cfg, w, es[..i])
    {
      assert es[..i + 1][..i] == es[..i];
      Step(cfg, x, es[i]);
    }
    assert es[..|es|] == es;
    RunFaithful(cfg, w, es);
    RunComes(cfg, w, es);
    OnlyWonExecuted(cfg, w, es);
    forall c
      ensures InOrder(cfg, w, AfterRun(cfg, w, es), es, c)
    {
      if c.id == RELAY {
        ClaimsInOrder(cfg, w, es, c.dest);
      } else {
        RunInOrder(cfg, w, es, c);
      }
    }
  }

  /** From a counter at zero, and with fewer than 2^64 packages, these are 0, 1, 2 and so on. */
  lemma FromZero(cfg: Config, w: World, es: seq<Event>, c: Ibc.Channel)
    requires RELAY !in cfg.apps && c.id != RELAY && Received(w, c) == 0
    requires |SequencesOn(History(cfg, w, es), c)| < TWO_64
    ensures SequencesOn(History(cfg, w, es), c) == Numbers(Received(AfterRun(cfg, w, es), c))
  {
    hide History, Received, AfterRun;
    RunInOrder(cfg, w, es, c);
    CountUpFromZero(|SequencesOn(History(cfg, w, es), c)|);
  }
}
