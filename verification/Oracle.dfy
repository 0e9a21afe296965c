/** x/oracle/handler.go: claims bring packages from other chains, which applications
    execute in the order of their sequences. */
module Oracle {
  import opened Bytes
  import opened Coins
  import opened AccountCache
  import Overlays
  import CacheStore
  import Ibc

  datatype Package = Package(channel: byte, sequence: uint64, payload: bytes)

  datatype Ending = Succeeded | Failed | Crashed

  /** What an application does with a package: to accounts, to the stores of applications and to
      the keepers of packages and permissions; how it ends; and its answer. */
  datatype Execution = Execution(accounts: seq<AccountCache.Op>, steps: seq<CacheStore.Op>, messages: seq<Ibc.Op>,
                                 ending: Ending, answer: bytes)

  /** A package, what executing it does, and the relayer fee for an answer if one is known. */
  datatype Delivery = Delivery(package: Package, execution: Execution, fee: Option<nat>)

  /** The claims of a chain are counted on a channel of their own, which has no application. */
  const RELAY: byte := 0

  /** The account and the token that pay relayers, the channels with an application, and whether
      the FixFailAckPackage upgrade is on. */
  datatype Config = Config(src: Ibc.uint16, apps: set<byte>, peg: bytes, token: bytes, fixed: bool)

  // ---------------------------------------------------------------- package headers

  /** DecodePackageHeader and IsValidCrossChainPackageType. */
  function TypeOf(payload: bytes): Option<Ibc.PackageType>
  {
    if |payload| < Ibc.HEADER_LENGTH then None
    else if payload[0] == 0 then Some(Ibc.Syn)
    else if payload[0] == 1 then Some(Ibc.Ack)
    else if payload[0] == 2 then Some(Ibc.FailAck)
    else None
  }

  /** The relayer fee in a header, cut to 64 bits. */
  function FeeOf(payload: bytes): int64
  {
    if |payload| < Ibc.HEADER_LENGTH then 0 else Wrap(FromBigEndian(payload[1..Ibc.HEADER_LENGTH]))
  }

  lemma HeaderReads(t: Ibc.PackageType, fee: nat, load: bytes)
    ensures var payload := Ibc.Header(t, fee) + load;
            && |payload| == Ibc.HEADER_LENGTH + |load| && TypeOf(payload) == Some(t)
            && payload[1..Ibc.HEADER_LENGTH] == Ibc.Fixed(fee, 32) && payload[Ibc.HEADER_LENGTH..] == load
  {
    assert |Ibc.Header(t, fee)| == Ibc.HEADER_LENGTH;
  }

  /** A package arrives with the type, the fee and the load it was sent with. */
  lemma HeaderRoundTrip(t: Ibc.PackageType, fee: nat, load: bytes)
    requires fee < TWO_63
    ensures var payload := Ibc.Header(t, fee) + load;
            && |payload| >= Ibc.HEADER_LENGTH && TypeOf(payload) == Some(t)
            && FeeOf(payload) == fee && payload[Ibc.HEADER_LENGTH..] == load
  {
    HeaderReads(t, fee, load);
    Pow256Monotone(8, 32);
    Pow256Values();
    Ibc.FixedInverse(fee, 32);
  }

  // ---------------------------------------------------------------- packages on flat maps

  /** Everything a claim or another transaction can change. */
  datatype World = World(accounts: map<bytes, State>, app: map<bytes, bytes>, keepers: Ibc.Contents)

  function Received(w: World, c: Ibc.Channel): uint64
  {
    Ibc.Counter(w.keepers, Ibc.ChannelKey(Ibc.RECEIVE, c))
  }

  predicate Admitted(cfg: Config, w: World, chain: Ibc.uint16, p: Package)
  {
    && p.channel in cfg.apps
    && p.sequence == Received(w, Ibc.Channel(chain, p.channel))
    && TypeOf(p.payload).Some?
    && FeeOf(p.payload) >= 0
  }

  /** Where the number of the next account is kept. */
  const NUMBER: bytes := [103, 108, 111, 98, 97, 108, 65, 99, 99, 111, 117, 110, 116, 78, 117, 109, 98, 101, 114]

  function CoinsOf(m: map<bytes, State>, a: bytes): seq<Coin>
  {
    if a in m then m[a].coins else []
  }

  function FeeCoins(cfg: Config, amount: int64): seq<Coin>
  {
    [Coin(cfg.token, amount)]
  }

  /** SubtractCoins from the peg account, which comes into being if it does not exist. */
  function Paid(cfg: Config, w: World, amount: int64): Option<World>
  {
    var left := Difference(CoinsOf(w.accounts, cfg.peg), FeeCoins(cfg, amount));
    if left == None || !NotNegative(left.value) then None
    else if cfg.peg in w.accounts then
      var acc := w.accounts[cfg.peg].(coins := left.value);
      Some(w.(accounts := w.accounts[acc.address := acc]))
    else
      var acc := State(cfg.peg, Wrap(Ibc.Counter(w.keepers, NUMBER)), 0, None, left.value);
      Some(w.(accounts := w.accounts[acc.address := acc], keepers := Ibc.Bumped(w.keepers, NUMBER)))
  }

  /** All that an execution does, on flat maps. */
  ghost function Performed(cfg: Config, w: World, e: Execution): World
  {
    World(AccountCache.FlatOps(Picture(w.accounts, []), e.accounts).store,
          CacheStore.FlatOps(w.app, e.steps).store,
          Ibc.AfterAll(cfg.src, w.keepers, e.messages))
  }

  /** An execution counts as a whole or not at all. */
  ghost function AfterExecution(cfg: Config, w: World, e: Execution): World
  {
    if e.ending == Succeeded then Performed(cfg, w, e) else w
  }

  /** The package sent back: a FailAck with the load of a Syn package whose application crashed
      (with its header too, before the fix), an Ack with the answer the application gave, if any. */
  function AnswerTo(cfg: Config, chain: Ibc.uint16, d: Delivery): Option<Ibc.Package>
  {
    var payload := d.package.payload;
    var c := Ibc.Channel(chain, d.package.channel);
    var fee := if d.fee.Some? then d.fee.value else 0;
    if TypeOf(payload) != Some(Ibc.Syn) then None
    else if d.execution.ending == Crashed then
      Some(Ibc.Package(c, Ibc.FailAck, if cfg.fixed then payload[Ibc.HEADER_LENGTH..] else payload, fee))
    else if d.execution.answer != [] then Some(Ibc.Package(c, Ibc.Ack, d.execution.answer, fee))
    else None
  }

  ghost function Answered(cfg: Config, w: World, chain: Ibc.uint16, d: Delivery): Option<World>
  {
    var answer := AnswerTo(cfg, chain, d);
    if answer == None then Some(w)
    else if d.fee == None || !Ibc.SentAs(cfg.src, w.keepers, answer.value).Sequence? then None
    else Some(w.(keepers := Ibc.AfterSend(cfg.src, w.keepers, answer.value)))
  }

  function Counted(w: World, c: Ibc.Channel): World
  {
    w.(keepers := Ibc.Bumped(w.keepers, Ibc.ChannelKey(Ibc.RECEIVE, c)))
  }

  /** The fee, the execution and the answer. */
  ghost function Effects(cfg: Config, w: World, chain: Ibc.uint16, d: Delivery): Option<World>
  {
    var paid := Paid(cfg, w, FeeOf(d.package.payload));
    if paid == None then None else Answered(cfg, AfterExecution(cfg, paid.value, d.execution), chain, d)
  }

  /** One package with its effects and its sequence; None if it is not accepted. */
  ghost function AfterPackage(cfg: Config, w: World, chain: Ibc.uint16, d: Delivery): Option<World>
  {
    if !Admitted(cfg, w, chain, d.package) then None
    else
      var r := Effects(cfg, w, chain, d);
      if r == None then None else Some(Counted(r.value, Ibc.Channel(chain, d.package.channel)))
  }

  /** Packages one after another, all of them or none. */
  ghost function AfterPackages(cfg: Config, w: World, chain: Ibc.uint16, ds: seq<Delivery>): Option<World>
    decreases |ds|
  {
    if ds == [] then Some(w)
    else
      var r := AfterPackage(cfg, w, chain, ds[0]);
      if r == None then None else AfterPackages(cfg, r.value, chain, ds[1..])
  }

  // ---------------------------------------------------------------- claims on flat maps

  /** What the votes on a claim have led to. */
  datatype Status = Invalid | Undecided | Lost | Won

  datatype Claim = Claim(chain: Ibc.uint16, sequence: uint64, status: Status, deliveries: Option<seq<Delivery>>)

  datatype Result = Refused | Waiting | Done

  function Relay(claim: Claim): Ibc.Channel
  {
    Ibc.Channel(claim.chain, RELAY)
  }

  datatype Outcome = Outcome(result: Result, world: World)

  /** A claim out of turn or found invalid is refused, one that is undecided or lost waits, and one
      that won is done if all its packages are accepted in turn; the claim is then counted too. */
  ghost function AfterClaim(cfg: Config, w: World, claim: Claim): Outcome
  {
    if claim.sequence != Received(w, Relay(claim)) || claim.status == Invalid then Outcome(Refused, w)
    else if claim.status != Won then Outcome(Waiting, w)
    else if claim.deliveries == None then Outcome(Refused, w)
    else
      var r := AfterPackages(cfg, w, claim.chain, claim.deliveries.value);
      if r == None then Outcome(Refused, w) else Outcome(Done, Counted(r.value, Relay(claim)))
  }

  // ---------------------------------------------------------------- the same behind caches

  /** What a transaction works on: a cache of accounts and caches of the stores. */
  datatype Context = Context(accounts: Layer, app: CacheStore.Store, keepers: Ibc.Store)

  ghost predicate Stands(x: Context)
    reads x.accounts, x.accounts.chain, x.accounts.Objects(), x.app, x.app.chain, x.keepers, x.keepers.chain
  {
    && x.accounts.Valid() && x.accounts.parent != null && x.accounts in x.accounts.chain
    && x.app.Valid() && x.keepers.Valid() && x.app.chain !! x.keepers.chain
  }

  ghost function Shown(x: Context): World
    requires Stands(x)
    reads x.accounts, x.accounts.chain, x.accounts.Objects(), x.app, x.app.chain, x.keepers, x.keepers.chain
  {
    World(x.accounts.View(), x.app.View(), x.keepers.View())
  }

  /** What is beneath the caches of the transaction is as it was. */
  twostate predicate Below(x: Context)
    reads x.accounts, x.accounts.chain, x.accounts.Objects(), x.app, x.app.chain, x.keepers, x.keepers.chain
  {
    AccountCache.Untouched(x.accounts) && CacheStore.Untouched(x.app) && CacheStore.Untouched(x.keepers)
  }

  /** The peg account's balance, fetched. */
  method FetchPeg(a: Layer, peg: bytes) returns (held: seq<Account?>, coins: seq<Coin>)
    requires a.Valid()
    modifies a.chain
    ensures a.Valid() && Untouched(a) && Apart(a, held) && fresh(Refs(held)) && |held| == 1
    ensures a.View() == old(a.View()) && Now(a, held) == Picture(a.View(), [Overlays.Lookup(a.View(), peg)])
    ensures coins == CoinsOf(a.View(), peg) && (held[0] == null <==> peg !in a.View())
    ensures held[0] != null ==> held[0].state == a.View()[peg]
  {
    hide Layer.Valid, Layer.View;
    held := DoFetch(a, [], peg);
    coins := if held[0] == null then [] else held[0].state.coins;
  }

  method UpdatePeg(a: Layer, held: seq<Account?>, state: State)
    requires a.Valid() && Apart(a, held) && |held| == 1 && held[0] != null
    modifies a.chain, Refs(held)
    ensures a.Valid() && Untouched(a) && a.View() == old(a.View())[state.address := state]
  {
    hide Layer.Valid, Layer.View;
    DoEdit(a, held, 0, state);
    DoSave(a, held, 0);
  }

  method CreatePeg(a: Layer, state: State)
    requires a.Valid()
    modifies a.chain
    ensures a.Valid() && Untouched(a) && a.View() == old(a.View())[state.address := state]
  {
    hide Layer.Valid, Layer.View;
    var held := DoCreate(a, [], state);
    DoSave(a, held, 0);
  }

  /** SubtractCoins from the peg account, as far as accounts are concerned. */
  method TakeFee(cfg: Config, a: Layer, amount: int64, number: int64) returns (ok: bool, created: bool)
    requires a.Valid()
    modifies a.chain
    ensures a.Valid() && Untouched(a)
    ensures var m := old(a.View());
            var left := Difference(CoinsOf(m, cfg.peg), FeeCoins(cfg, amount));
            && (ok <==> left.Some? && NotNegative(left.value)) && (created <==> ok && cfg.peg !in m)
            && a.View() == if !ok then m
                           else if created then m[cfg.peg := State(cfg.peg, number, 0, None, left.value)]
                           else m[m[cfg.peg].address := m[cfg.peg].(coins := left.value)]
  {
    hide Layer.Valid, Layer.View, Difference, NotNegative, Apart, Now;
    var held, before := FetchPeg(a, cfg.peg);
    var left := Difference(before, FeeCoins(cfg, amount));
    if left == None || !NotNegative(left.value) {
      return false, false;
    }
    if held[0] == null {
      CreatePeg(a, State(cfg.peg, number, 0, None, left.value));
      return true, true;
    }
    UpdatePeg(a, held, held[0].state.(coins := left.value));
    return true, false;
  }

  /** Nothing that happens to stores is seen in accounts. */
  twostate lemma AccountsStay(x: Context)
    requires old(x.accounts.Valid()) && unchanged(x.accounts.chain) && unchanged(old(x.accounts.Objects()))
    ensures x.accounts.Valid() && x.accounts.View() == old(x.accounts.View()) && Untouched(x.accounts)
  {
    Same(x.accounts);
    x.accounts.Beneath();
  }

  method ReadNumber(x: Context) returns (n: uint64)
    requires Stands(x)
    modifies x.keepers.chain
    ensures Stands(x) && Below(x) && Shown(x) == old(Shown(x)) && n == Ibc.Counter(Shown(x).keepers, NUMBER)
  {
    hide Layer.Valid, Layer.View, CacheStore.Store.View, Ibc.Counter;
    n := Ibc.ReadCounter(x.keepers, NUMBER);
    AccountsStay(x);
  }

  method Count(x: Context, k: bytes)
    requires Stands(x)
    modifies x.keepers.chain
    ensures Stands(x) && Below(x) && Shown(x) == old(Shown(x)).(keepers := Ibc.Bumped(old(Shown(x)).keepers, k))
  {
    hide Layer.Valid, Layer.View, CacheStore.Store.View, Ibc.Bumped;
    Ibc.Bump(x.keepers, k);
    AccountsStay(x);
  }

  method Send(cfg: Config, x: Context, p: Ibc.Package) returns (r: Ibc.Sent)
    requires Stands(x)
    modifies x.keepers.chain
    ensures Stands(x) && Below(x) && r == Ibc.SentAs(cfg.src, old(Shown(x)).keepers, p)
    ensures Shown(x) == old(Shown(x)).(keepers := Ibc.AfterSend(cfg.src, old(Shown(x)).keepers, p))
  {
    hide Layer.Valid, Layer.View, CacheStore.Store.View, Ibc.SentAs, Ibc.AfterSend;
    r := Ibc.CreatePackage(x.keepers, cfg.src, p);
    AccountsStay(x);
  }

  /** The account side of the fee. */
  method TakeFeeFrom(cfg: Config, x: Context, amount: int64, number: int64) returns (ok: bool, created: bool)
    requires Stands(x) && number == Wrap(Ibc.Counter(Shown(x).keepers, NUMBER))
    modifies x.accounts.chain
    ensures Stands(x) && Below(x)
    ensures var w := old(Shown(x));
            var paid := Paid(cfg, w, amount);
            && (ok <==> paid.Some?) && (created <==> ok && cfg.peg !in w.accounts)
            && (ok ==> Shown(x) == paid.value.(keepers := w.keepers))
  {
    hide Layer.View, CacheStore.Store.View, Difference, NotNegative, Ibc.Counter, Ibc.Bumped, Overlays.Coherent;
    ok, created := TakeFee(cfg, x.accounts, amount, number);
  }

  /** SubtractCoins from the peg account. The number that a new account would get is read ahead. */
  method Pay(cfg: Config, x: Context, amount: int64) returns (ok: bool)
    requires Stands(x)
    modifies x.accounts.chain, x.keepers.chain
    ensures Stands(x) && Below(x)
    ensures ok <==> Paid(cfg, old(Shown(x)), amount).Some?
    ensures ok ==> Some(Shown(x)) == Paid(cfg, old(Shown(x)), amount)
  {
    hide Stands, Shown, Layer.Valid, Layer.View, CacheStore.Store.Valid, CacheStore.Store.View, Difference, NotNegative, Ibc.Counter, Ibc.Bumped;
    var n := ReadNumber(x);
    var created;
    ok, created := TakeFeeFrom(cfg, x, amount, Wrap(n));
    if created {
      Count(x, NUMBER);
    }
  }

  // The cached context of an execution, component by component: none of them sees the others.

  method ExecuteOnAccounts(x: Context, ops: seq<AccountCache.Op>, commit: bool)
    requires Stands(x)
    modifies x.accounts.chain
    ensures Stands(x) && Below(x)
    ensures var w := old(Shown(x));
            Shown(x) == if commit then w.(accounts := AccountCache.FlatOps(Picture(w.accounts, []), ops).store) else w
  {
    hide Layer.Valid, Layer.View, CacheStore.Store.View, AccountCache.FlatOps, Now, Apart;
    HoldsNothing(x.accounts);
    var held := AccountCache.RunNested(x.accounts, [], ops, commit);
    NowStore(x.accounts, held);
  }

  method ExecuteOnStore(x: Context, steps: seq<CacheStore.Op>, commit: bool)
    requires Stands(x)
    modifies x.app.chain
    ensures Stands(x) && Below(x)
    ensures var w := old(Shown(x));
            Shown(x) == if commit then w.(app := CacheStore.FlatOps(w.app, steps).store) else w
  {
    hide Layer.Valid, Layer.View, CacheStore.Store.View, CacheStore.FlatOps;
    var _ := CacheStore.RunNested(x.app, steps, commit);
    AccountsStay(x);
  }

  method ExecuteOnKeepers(cfg: Config, x: Context, messages: seq<Ibc.Op>, commit: bool)
    requires Stands(x)
    modifies x.keepers.chain
    ensures Stands(x) && Below(x)
    ensures var w := old(Shown(x));
            Shown(x) == if commit then w.(keepers := Ibc.AfterAll(cfg.src, w.keepers, messages)) else w
  {
    hide Layer.Valid, Layer.View, CacheStore.Store.View, Ibc.AfterAll;
    Ibc.PerformNested(x.keepers, cfg.src, messages, commit);
    AccountsStay(x);
  }

  /** executeClaim in a cached context that is written back only if it succeeds. */
  method Execute(cfg: Config, x: Context, e: Execution)
    requires Stands(x)
    modifies x.accounts.chain, x.app.chain, x.keepers.chain
    ensures Stands(x) && Below(x) && Shown(x) == AfterExecution(cfg, old(Shown(x)), e)
  {
    hide Stands, Shown, Layer.Valid, Layer.View, CacheStore.Store.Valid, CacheStore.Store.View, Ibc.AfterAll, CacheStore.FlatOps, AccountCache.FlatOps;
    var commit := e.ending == Succeeded;
    ExecuteOnAccounts(x, e.accounts, commit);
    ExecuteOnStore(x, e.steps, commit);
    ExecuteOnKeepers(cfg, x, e.messages, commit);
  }

  /** The end of handlePackage, where the answer is written. */
  method Answer(cfg: Config, x: Context, chain: Ibc.uint16, d: Delivery) returns (ok: bool)
    requires Stands(x)
    modifies x.keepers.chain
    ensures Stands(x) && Below(x)
    ensures ok <==> Answered(cfg, old(Shown(x)), chain, d).Some?
    ensures ok ==> Some(Shown(x)) == Answered(cfg, old(Shown(x)), chain, d)
  {
    hide Stands, Shown, Layer.Valid, Layer.View, CacheStore.Store.Valid, CacheStore.Store.View, Ibc.SentAs, Ibc.AfterSend, AnswerTo;
    var answer := AnswerTo(cfg, chain, d);
    if answer == None {
      return true;
    }
    if d.fee == None {
      return false;
    }
    var r := Send(cfg, x, answer.value);
    return r.Sequence?;
  }

  /** The checks of handlePackage. */
  method Admit(cfg: Config, x: Context, chain: Ibc.uint16, p: Package) returns (ok: bool)
    requires Stands(x)
    modifies x.keepers.chain
    ensures Stands(x) && Below(x) && Shown(x) == old(Shown(x))
    ensures ok <==> Admitted(cfg, Shown(x), chain, p)
  {
    hide Layer.Valid, Layer.View, CacheStore.Store.View, Ibc.Counter, TypeOf, FeeOf;
    if p.channel !in cfg.apps {
      return false;
    }
    var sequence := Ibc.ReadCounter(x.keepers, Ibc.ChannelKey(Ibc.RECEIVE, Ibc.Channel(chain, p.channel)));
    AccountsStay(x);
    if sequence != p.sequence {
      return false;
    }
    if TypeOf(p.payload) == None {
      return false;
    }
    return FeeOf(p.payload) >= 0;
  }

  /** What handlePackage does once a package is admitted. */
  method Perform(cfg: Config, x: Context, chain: Ibc.uint16, d: Delivery) returns (ok: bool)
    requires Stands(x)
    modifies x.accounts.chain, x.app.chain, x.keepers.chain
    ensures Stands(x) && Below(x)
    ensures ok <==> Effects(cfg, old(Shown(x)), chain, d).Some?
    ensures ok ==> Some(Shown(x)) == Effects(cfg, old(Shown(x)), chain, d)
  {
    hide Stands, Shown, Layer.Valid, Layer.View, CacheStore.Store.Valid, CacheStore.Store.View, Paid, AfterExecution, Answered, FeeOf;
    ok := Pay(cfg, x, FeeOf(d.package.payload));
    if ok {
      Execute(cfg, x, d.execution);
      ok := Answer(cfg, x, chain, d);
    }
  }

  /** handlePackage and the step of the receive sequence after it. */
  method HandlePackage(cfg: Config, x: Context, chain: Ibc.uint16, d: Delivery) returns (ok: bool)
    requires Stands(x)
    modifies x.accounts.chain, x.app.chain, x.keepers.chain
    ensures Stands(x) && Below(x)
    ensures ok <==> AfterPackage(cfg, old(Shown(x)), chain, d).Some?
    ensures ok ==> Some(Shown(x)) == AfterPackage(cfg, old(Shown(x)), chain, d)
  {
    hide Stands, Shown, Layer.Valid, Layer.View, CacheStore.Store.Valid, CacheStore.Store.View, Admitted, Effects, Ibc.Bumped;
    ok := Admit(cfg, x, chain, d.package);
    if ok {
      ok := Perform(cfg, x, chain, d);
    }
    if ok {
      Count(x, Ibc.ChannelKey(Ibc.RECEIVE, Ibc.Channel(chain, d.package.channel)));
    }
  }

  /** The loop of handleClaimMsg, which stops at the first package that is not accepted. */
  method HandlePackages(cfg: Config, x: Context, chain: Ibc.uint16, ds: seq<Delivery>) returns (ok: bool)
    requires Stands(x)
    modifies x.accounts.chain, x.app.chain, x.keepers.chain
    ensures Stands(x) && Below(x)
    ensures ok <==> AfterPackages(cfg, old(Shown(x)), chain, ds).Some?
    ensures ok ==> Some(Shown(x)) == AfterPackages(cfg, old(Shown(x)), chain, ds)
  {
    hide Stands, Shown, Layer.Valid, Layer.View, CacheStore.Store.Valid, CacheStore.Store.View, AfterPackage;
    for i := 0 to |ds|
      invariant Stands(x) && Below(x)
      invariant AfterPackages(cfg, Shown(x), chain, ds[i..]) == AfterPackages(cfg, old(Shown(x)), chain, ds)
    {
      assert ds[i..][0] == ds[i] && ds[i..][1..] == ds[i + 1..];
      ok := HandlePackage(cfg, x, chain, ds[i]);
      if !ok {
        return;
      }
    }
    ok := true;
  }

  method ReadReceived(x: Context, c: Ibc.Channel) returns (n: uint64)
    requires Stands(x)
    modifies x.keepers.chain
    ensures Stands(x) && Below(x) && Shown(x) == old(Shown(x)) && n == Received(Shown(x), c)
  {
    hide Layer.Valid, Layer.View, CacheStore.Store.View, Ibc.Counter;
    n := Ibc.ReadCounter(x.keepers, Ibc.ChannelKey(Ibc.RECEIVE, c));
    AccountsStay(x);
  }

  /** handleClaimMsg, in the caches of its transaction. */
  method TryClaim(cfg: Config, x: Context, claim: Claim) returns (r: Result)
    requires Stands(x)
    modifies x.accounts.chain, x.app.chain, x.keepers.chain
    ensures Stands(x) && Below(x) && r == AfterClaim(cfg, old(Shown(x)), claim).result
    ensures r != Refused ==> Shown(x) == AfterClaim(cfg, old(Shown(x)), claim).world
  {
    hide Stands, Shown, Layer.Valid, Layer.View, CacheStore.Store.Valid, CacheStore.Store.View, AfterPackages, Received, Ibc.Bumped;
    var sequence := ReadReceived(x, Relay(claim));
    if sequence != claim.sequence || claim.status == Invalid {
      return Refused;
    }
    if claim.status != Won {
      return Waiting;
    }
    if claim.deliveries == None {
      return Refused;
    }
    var ok := HandlePackages(cfg, x, claim.chain, claim.deliveries.value);
    if !ok {
      return Refused;
    }
    Count(x, Ibc.ChannelKey(Ibc.RECEIVE, Relay(claim)));
    return Done;
  }

  ghost predicate Over(y: Context, x: Context)
  {
    && y.accounts.parent == x.accounts && x.accounts.chain == y.accounts.chain - {y.accounts}
    && y.app.parent == x.app && y.app.chain == {y.app} + x.app.chain
    && y.keepers.parent == x.keepers && y.keepers.chain == {y.keepers} + x.keepers.chain
  }

  method OpenStores(x: Context) returns (app: CacheStore.Store, keepers: Ibc.Store)
    requires Stands(x)
    ensures Stands(x) && Shown(x) == old(Shown(x)) && Below(x)
    ensures fresh(app) && app.Valid() && app.View() == x.app.View() && app.parent == x.app && app.chain == {app} + x.app.chain
    ensures fresh(keepers) && keepers.Valid() && keepers.View() == x.keepers.View()
    ensures keepers.parent == x.keepers && keepers.chain == {keepers} + x.keepers.chain && keepers != app
  {
    hide Layer.Valid, Layer.View, CacheStore.Store.View;
    app := new CacheStore.Store.Cache(x.app);
    keepers := new CacheStore.Store.Cache(x.keepers);
    AccountsStay(x);
  }

  /** The caches of a transaction. */
  method OpenContext(x: Context) returns (y: Context)
    requires Stands(x)
    ensures Stands(x) && Shown(x) == old(Shown(x)) && Below(x)
    ensures Over(y, x) && Stands(y) && Shown(y) == Shown(x)
    ensures fresh(y.accounts) && fresh(y.app) && fresh(y.keepers)
  {
    hide Layer.Valid, Layer.View, CacheStore.Store.View;
    var app, keepers := OpenStores(x);
    var accounts := Open(x.accounts);
    y := Context(accounts, app, keepers);
  }

  method WriteApp(x: Context, y: Context)
    requires Over(y, x) && Stands(x) && Stands(y)
    modifies x.app, y.app
    ensures Stands(x) && Below(x) && Stands(y) && Shown(y) == old(Shown(y))
    ensures Shown(x) == old(Shown(x)).(app := old(Shown(y)).app)
  {
    hide Layer.Valid, Layer.View, CacheStore.Store.View;
    CacheStore.WriteBack(x.app, y.app);
    AccountsStay(x);
    AccountsStay(y);
  }

  method WriteKeepers(x: Context, y: Context)
    requires Over(y, x) && Stands(x) && Stands(y)
    modifies x.keepers, y.keepers
    ensures Stands(x) && Below(x) && Stands(y) && Shown(y) == old(Shown(y))
    ensures Shown(x) == old(Shown(x)).(keepers := old(Shown(y)).keepers)
  {
    hide Layer.Valid, Layer.View, CacheStore.Store.View;
    CacheStore.WriteBack(x.keepers, y.keepers);
    AccountsStay(x);
    AccountsStay(y);
  }

  method WriteAccounts(x: Context, y: Context)
    requires Over(y, x) && Stands(x) && Stands(y)
    modifies x.accounts, y.accounts
    ensures Stands(x) && Below(x) && Shown(x) == old(Shown(x)).(accounts := old(Shown(y)).accounts)
  {
    hide Layer.View, CacheStore.Store.View, Overlays.Coherent;
    assert Apart(y.accounts, []);
    WriteBack(x.accounts, y.accounts, []);
  }

  /** Write on all caches of a transaction. */
  method WriteContext(x: Context, y: Context)
    requires Over(y, x) && Stands(x) && Stands(y)
    modifies x.accounts, y.accounts, x.app, y.app, x.keepers, y.keepers
    ensures Stands(x) && Below(x) && Shown(x) == old(Shown(y))
  {
    hide Stands, Shown, Layer.Valid, Layer.View, CacheStore.Store.Valid, CacheStore.Store.View;
    WriteApp(x, y);
    WriteKeepers(x, y);
    WriteAccounts(x, y);
  }

  /** A claim in caches of its own leaves what is beneath them alone. */
  method TryInside(cfg: Config, x: Context, claim: Claim) returns (r: Result, y: Context)
    requires Stands(x)
    modifies x.accounts.chain, x.app.chain, x.keepers.chain
    ensures Stands(x) && Shown(x) == old(Shown(x)) && Below(x)
    ensures Over(y, x) && Stands(y) && fresh(y.accounts) && fresh(y.app) && fresh(y.keepers)
    ensures r == AfterClaim(cfg, old(Shown(x)), claim).result
    ensures r != Refused ==> Shown(y) == AfterClaim(cfg, old(Shown(x)), claim).world
  {
    hide Layer.Valid, Layer.View, CacheStore.Store.View, AfterClaim;
    y := OpenContext(x);
    label cached:
    r := TryClaim(cfg, y, claim);
    AccountCache.Deeper@cached(y.accounts);
    CacheStore.Deeper@cached(y.app);
    CacheStore.Deeper@cached(y.keepers);
  }

  /** A claim is done exactly if it is next, has won, and its payload decodes to packages that are accepted
      one after another; otherwise nothing changes. It waits exactly if it is next and undecided or lost. */
  method HandleClaim(cfg: Config, x: Context, claim: Claim) returns (r: Result)
    requires Stands(x)
    modifies x.accounts.chain, x.app.chain, x.keepers.chain
    ensures Stands(x) && Below(x)
    ensures Outcome(r, Shown(x)) == AfterClaim(cfg, old(Shown(x)), claim)
    ensures r == Done <==>
              && claim.status == Won && claim.sequence == Received(old(Shown(x)), Relay(claim)) && claim.deliveries.Some?
              && AfterPackages(cfg, old(Shown(x)), claim.chain, claim.deliveries.value).Some?
    ensures r == Waiting <==>
              claim.sequence == Received(old(Shown(x)), Relay(claim)) && (claim.status == Undecided || claim.status == Lost)
    ensures claim.status != Won || r != Done ==> Shown(x) == old(Shown(x))
  {
    hide Layer.Valid, Layer.View, CacheStore.Store.View, AfterPackages, Received, Ibc.Bumped;
    var y;
    r, y := TryInside(cfg, x, claim);
    if r != Refused {
      WriteContext(x, y);
    }
  }
}
