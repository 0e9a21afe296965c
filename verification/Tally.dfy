/** x/gov/tally.go: the power behind each option of a vote, counted in rounded
    fixed-point arithmetic. */
module Tally {
  import opened Bytes
  import opened Decimal
  import MapSum

  datatype VoteOption = Empty | Yes | Abstain | No | NoWithVeto

  datatype Delegation = Delegation(validator: bytes, shares: Dec)

  /** A vote, with the delegations its voter has. */
  datatype Vote = Vote(voter: bytes, option: VoteOption, delegations: seq<Delegation>)

  datatype Validator = Validator(power: Dec, shares: Dec)

  /** validatorGovInfo. */
  datatype Info = Info(power: Dec, shares: Dec, deductions: Dec, vote: VoteOption)

  /** The running counts. */
  datatype Count = Count(infos: map<bytes, Info>, results: map<VoteOption, Dec>, total: Dec)

  function ResultOf(results: map<VoteOption, Dec>, o: VoteOption): Dec
  {
    if o in results then results[o] else 0
  }

  // ---------------------------------------------------------------- the power of one vote

  /** The power that `shares` of a validator's shares carry. */
  function PowerOf(v: Validator, shares: Dec): Option<Dec>
  {
    var part := Quo(shares, v.shares);
    if part == None then None else Mul(v.power, part.value)
  }

  /** 2 * K * K times the largest rounding error of one vote. */
  function Margin(power: int): int
  {
    power * (K + 2) + K * K
  }

  /** The power of a vote differs from the exact power * shares / v.shares by at
      most Margin / (2 * K * K). */
  lemma PowerNear(v: Validator, shares: Dec)
    requires v.power >= 0 && v.shares > 0 && PowerOf(v, shares).Some?
    ensures 2 * K * K * Abs(PowerOf(v, shares).value * v.shares - v.power * shares) <= Margin(v.power) * v.shares
  {
    var q := Quo(shares, v.shares).value;
    var p := PowerOf(v, shares).value;
    QuoNear(shares, v.shares);
    MulExact(v.power, q, p);
    PowerArithmetic(v.power, v.shares, shares, q, p);
  }

  lemma PowerArithmetic(power: int, all: int, shares: int, q: int, p: int)
    requires power >= 0 && all > 0
    requires 2 * K * Abs(q * all - shares * K) <= (K + 2) * all
    requires 2 * Abs(K * p - power * q) <= K
    ensures 2 * K * K * Abs(p * all - power * shares) <= Margin(power) * all
  {
    var e, f := K * p - power * q, q * all - shares * K;
    Product(e, all);
    AbsProduct(power, f);
    Scale(2 * K * Abs(f), (K + 2) * all, power);
    Split(power, all, shares, q, p);
    Regroup(power, all, Abs(f));
    Combine(p * all - power * shares, e * all, power * f, all, ((K + 2) * all) * power);
  }

  lemma Regroup(power: int, all: int, f: int)
    ensures (2 * K * f) * power == 2 * K * (power * f)
    ensures K * K * all + ((K + 2) * all) * power == Margin(power) * all
  {
  }

  lemma Combine(x: int, u: int, w: int, all: int, b: int)
    requires K * x == u + w && 2 * Abs(u) <= K * all && 2 * K * Abs(w) <= b
    ensures 2 * K * K * Abs(x) <= K * K * all + b
  {
    assert K * Abs(x) <= Abs(u) + Abs(w);
  }

  lemma Split(power: int, all: int, shares: int, q: int, p: int)
    ensures K * (p * all - power * shares) == (K * p - power * q) * all + power * (q * all - shares * K)
  {
    assert (K * p - power * q) * all == K * (p * all) - power * (q * all);
    assert power * (q * all - shares * K) == power * (q * all) - K * (power * shares);
  }

  // ---------------------------------------------------------------- what is to be counted

  /** A delegator's vote for the part of a validator that it holds. */
  datatype Entry = Entry(validator: bytes, option: VoteOption, shares: Dec, power: Option<Dec>)

  type Validators = map<bytes, Validator>

  /** The entries of the first n delegations of a vote. */
  function EntriesOfVote(vals: Validators, vote: Vote, n: nat): seq<Entry>
    requires n <= |vote.delegations|
  {
    if n == 0 then []
    else
      var d := vote.delegations[n - 1];
      EntriesOfVote(vals, vote, n - 1) +
      if d.validator in vals then [Entry(d.validator, vote.option, d.shares, PowerOf(vals[d.validator], d.shares))] else []
  }

  /** The entries of all votes that are not a validator's own. */
  function Entries(vals: Validators, votes: seq<Vote>): seq<Entry>
  {
    if votes == [] then []
    else
      var vote := votes[|votes| - 1];
      Entries(vals, votes[..|votes| - 1]) + if vote.voter in vals then [] else EntriesOfVote(vals, vote, |vote.delegations|)
  }

  /** The last vote of a validator that has shares at all. */
  function VoteOf(vals: Validators, votes: seq<Vote>, v: bytes): VoteOption
  {
    if votes == [] then Empty
    else
      var vote := votes[|votes| - 1];
      if vote.voter == v && v in vals && vals[v].shares > 0 then vote.option else VoteOf(vals, votes[..|votes| - 1], v)
  }

  function Value(p: Option<Dec>): Dec
  {
    if p.Some? then p.value else 0
  }

  /** The shares of a validator in the hands of those who voted themselves. */
  function SharesOf(es: seq<Entry>, v: bytes): int
  {
    if es == [] then 0
    else
      var e := es[|es| - 1];
      SharesOf(es[..|es| - 1], v) + if e.validator == v then e.shares else 0
  }

  function PowerFor(es: seq<Entry>, o: VoteOption): int
  {
    if es == [] then 0
    else
      var e := es[|es| - 1];
      PowerFor(es[..|es| - 1], o) + if e.option == o then Value(e.power) else 0
  }

  function TotalPower(es: seq<Entry>): int
  {
    if es == [] then 0 else TotalPower(es[..|es| - 1]) + Value(es[|es| - 1].power)
  }

  lemma Append(es: seq<Entry>, e: Entry)
    ensures TotalPower(es + [e]) == TotalPower(es) + Value(e.power)
    ensures forall v :: SharesOf(es + [e], v) == SharesOf(es, v) + if e.validator == v then e.shares else 0
    ensures forall o :: PowerFor(es + [e], o) == PowerFor(es, o) + if e.option == o then Value(e.power) else 0
  {
    assert (es + [e])[..|es|] == es;
  }

  /** Every entry can be computed, nothing is negative, and no sum leaves the 64-bit range. */
  ghost predicate Countable(es: seq<Entry>)
  {
    && (forall i :: 0 <= i < |es| ==> es[i].shares >= 0 && es[i].power.Some? && es[i].power.value >= 0)
    && (forall v :: Int64(SharesOf(es, v)))
    && Int64(TotalPower(es))
  }

  lemma {:induction false} CountableFront(es: seq<Entry>, n: nat)
    requires Countable(es) && n <= |es|
    ensures Countable(es[..n])
    ensures TotalPower(es[..n]) <= TotalPower(es) && forall v :: SharesOf(es[..n], v) <= SharesOf(es, v)
    decreases |es| - n
  {
    if n == |es| {
      assert es[..n] == es;
      NonNegative(es);
    } else {
      CountableFront(es, n + 1);
      assert es[..n + 1][..n] == es[..n];
      NonNegative(es[..n]);
      forall v
        ensures Int64(SharesOf(es[..n], v)) && SharesOf(es[..n], v) <= SharesOf(es, v)
      {
        assert SharesOf(es[..n], v) <= SharesOf(es[..n + 1], v);
      }
    }
  }

  lemma {:induction false} NonNegative(es: seq<Entry>)
    requires forall i :: 0 <= i < |es| ==> es[i].shares >= 0 && es[i].power.Some? && es[i].power.value >= 0
    ensures TotalPower(es) >= 0 && (forall v :: SharesOf(es, v) >= 0)
    ensures forall o :: 0 <= PowerFor(es, o) <= TotalPower(es)
  {
    if es != [] {
      NonNegative(es[..|es| - 1]);
    }
  }

  // ---------------------------------------------------------------- the votes

  /** The running counts are what the entries add up to. */
  ghost predicate Agrees(vals: Validators, votes: seq<Vote>, es: seq<Entry>, c: Count)
  {
    && c.infos.Keys == vals.Keys
    && (forall v :: v in vals ==>
          && c.infos[v].power == vals[v].power && c.infos[v].shares == vals[v].shares
          && c.infos[v].deductions == SharesOf(es, v) && c.infos[v].vote == VoteOf(vals, votes, v))
    && (forall o :: ResultOf(c.results, o) == PowerFor(es, o))
    && c.total == TotalPower(es)
  }

  method Start(vals: Validators) returns (c: Count)
    ensures Agrees(vals, [], [], c)
  {
    var infos := map v | v in vals :: Info(vals[v].power, vals[v].shares, 0, Empty);
    c := Count(infos, map[Yes := 0, Abstain := 0, No := 0, NoWithVeto := 0], 0);
  }

  /** One delegation of a voter: the body of the inner loop. */
  method CountDelegation(ghost vals: Validators, ghost votes: seq<Vote>, ghost es: seq<Entry>, c: Count, option: VoteOption, d: Delegation)
    returns (r: Option<Count>)
    requires Agrees(vals, votes, es, c) && d.validator in vals
    ensures var e := Entry(d.validator, option, d.shares, PowerOf(vals[d.validator], d.shares));
            && (r.Some? ==> e.power.Some? && Agrees(vals, votes, es + [e], r.value))
            && (Countable(es + [e]) ==> r.Some?)
  {
    ghost var e := Entry(d.validator, option, d.shares, PowerOf(vals[d.validator], d.shares));
    Append(es, e);
    Room(es, e);
    var info := c.infos[d.validator];
    var deductions := Add(info.deductions, d.shares);
    if deductions == None {
      return None;
    }
    var infos := c.infos[d.validator := info.(deductions := deductions.value)];
    var share := Quo(d.shares, info.shares);
    if share == None {
      return None;
    }
    var power := Mul(info.power, share.value);
    if power == None {
      return None;
    }
    var result := Add(ResultOf(c.results, option), power.value);
    if result == None {
      return None;
    }
    var total := Add(c.total, power.value);
    if total == None {
      return None;
    }
    return Some(Count(infos, c.results[option := result.value], total.value));
  }

  lemma Room(es: seq<Entry>, e: Entry)
    ensures Countable(es + [e]) ==>
              && Int64(SharesOf(es, e.validator) + e.shares) && e.power.Some?
              && Int64(PowerFor(es, e.option) + Value(e.power)) && Int64(TotalPower(es) + Value(e.power))
  {
    if Countable(es + [e]) {
      Append(es, e);
      NonNegative(es + [e]);
      assert (es + [e])[|es|] == e;
      assert Int64(SharesOf(es + [e], e.validator));
      assert PowerFor(es + [e], e.option) <= TotalPower(es + [e]);
    }
  }

  /** The delegations of one voter. */
  method CountVoter(vals: Validators, ghost votes: seq<Vote>, ghost es: seq<Entry>, c: Count, vote: Vote) returns (r: Option<Count>)
    requires Agrees(vals, votes, es, c)
    ensures var all := es + EntriesOfVote(vals, vote, |vote.delegations|);
            && (r.Some? ==> Agrees(vals, votes, all, r.value))
            && (Countable(all) ==> r.Some?)
  {
    var now := c;
    ghost var n := |vote.delegations|;
    assert es + [] == es;
    for i := 0 to |vote.delegations|
      invariant Agrees(vals, votes, es + EntriesOfVote(vals, vote, i), now)
    {
      var d := vote.delegations[i];
      Longer(vals, vote, es, i + 1);
      Longer(vals, vote, es, i);
      if d.validator in now.infos {
        ghost var e := Entry(d.validator, vote.option, d.shares, PowerOf(vals[d.validator], d.shares));
        Assoc(es, EntriesOfVote(vals, vote, i), [e]);
        var next := CountDelegation(vals, votes, es + EntriesOfVote(vals, vote, i), now, vote.option, d);
        if next == None {
          return None;
        }
        now := next.value;
      } else {
        assert EntriesOfVote(vals, vote, i) + [] == EntriesOfVote(vals, vote, i);
      }
    }
    return Some(now);
  }

  /** The entries counted so far are a front part of all of them. */
  lemma {:induction false} Longer(vals: Validators, vote: Vote, es: seq<Entry>, i: nat)
    requires i <= |vote.delegations|
    ensures es + EntriesOfVote(vals, vote, i) <= es + EntriesOfVote(vals, vote, |vote.delegations|)
    ensures Countable(es + EntriesOfVote(vals, vote, |vote.delegations|)) ==> Countable(es + EntriesOfVote(vals, vote, i))
    decreases |vote.delegations| - i
  {
    if i < |vote.delegations| {
      Longer(vals, vote, es, i + 1);
    }
    var part, all := es + EntriesOfVote(vals, vote, i), es + EntriesOfVote(vals, vote, |vote.delegations|);
    if Countable(all) {
      CountableFront(all, |part|);
      assert all[..|part|] == part;
    }
  }

  /** One vote: a validator's is recorded, a delegator's is counted. */
  method CountVote(vals: Validators, votes: seq<Vote>, i: nat, now: Count) returns (r: Option<Count>)
    requires i < |votes| && Agrees(vals, votes[..i], Entries(vals, votes[..i]), now)
    ensures r.Some? ==> Agrees(vals, votes[..i + 1], Entries(vals, votes[..i + 1]), r.value)
    ensures Countable(Entries(vals, votes[..i + 1])) ==> r.Some?
  {
    hide Countable, EntriesOfVote, PowerFor, TotalPower;
    var vote := votes[i];
    ghost var es := Entries(vals, votes[..i]);
    assert votes[..i + 1][..i] == votes[..i];
    if vote.voter in now.infos {
      var info := now.infos[vote.voter];
      assert es + [] == es;
      r := Some(now);
      if info.shares > 0 {
        r := Some(now.(infos := now.infos[vote.voter := info.(vote := vote.option)]));
      }
    } else {
      SameVotes(vals, votes, i);
      r := CountVoter(vals, votes[..i + 1], es, now, vote);
    }
  }

  /** The loop over all votes. */
  method CountVotes(vals: Validators, votes: seq<Vote>) returns (r: Option<Count>)
    ensures r.Some? ==> Agrees(vals, votes, Entries(vals, votes), r.value)
    ensures Countable(Entries(vals, votes)) ==> r.Some?
  {
    hide Agrees, Countable, EntriesOfVote;
    var now := Start(vals);
    assert votes[..0] == [];
    for i := 0 to |votes|
      invariant Agrees(vals, votes[..i], Entries(vals, votes[..i]), now)
    {
      FrontCountable(vals, votes, i + 1);
      var next := CountVote(vals, votes, i, now);
      if next == None {
        return None;
      }
      now := next.value;
    }
    assert votes[..|votes|] == votes;
    return Some(now);
  }

  lemma SameVotes(vals: Validators, votes: seq<Vote>, i: nat)
    requires i < |votes| && votes[i].voter !in vals
    ensures forall v :: v in vals ==> VoteOf(vals, votes[..i + 1], v) == VoteOf(vals, votes[..i], v)
  {
    assert votes[..i + 1][..i] == votes[..i];
  }

  lemma {:induction false} FrontCountable(vals: Validators, votes: seq<Vote>, i: nat)
    requires i <= |votes|
    ensures Entries(vals, votes[..i]) <= Entries(vals, votes)
    ensures Countable(Entries(vals, votes)) ==> Countable(Entries(vals, votes[..i]))
    decreases |votes| - i
  {
    hide Countable, EntriesOfVote;
    if i == |votes| {
      assert votes[..i] == votes;
    } else {
      FrontCountable(vals, votes, i + 1);
      assert votes[..i + 1][..i] == votes[..i];
      var part, all := Entries(vals, votes[..i]), Entries(vals, votes);
      assert part <= Entries(vals, votes[..i + 1]);
      if Countable(all) {
        CountableFront(all, |part|);
        assert all[..|part|] == part;
      }
    }
  }

  // ---------------------------------------------------------------- the validators

  /** What a validator's own vote carries: the shares nobody else voted with. */
  function OwnPower(vals: Validators, es: seq<Entry>, v: bytes): Option<Dec>
    requires v in vals
  {
    var left := vals[v].shares - SharesOf(es, v);
    if Int64(left) then PowerOf(vals[v], left) else None
  }

  /** The powers behind an option that come from validators among `done`. */
  ghost function Own(vals: Validators, votes: seq<Vote>, done: set<bytes>, o: VoteOption): map<bytes, int>
  {
    map v | v in vals && v in done && VoteOf(vals, votes, v) == o :: Value(OwnPower(vals, Entries(vals, votes), v)) as int
  }

  ghost function OwnAll(vals: Validators, votes: seq<Vote>, done: set<bytes>): map<bytes, int>
  {
    map v | v in vals && v in done && VoteOf(vals, votes, v) != Empty :: Value(OwnPower(vals, Entries(vals, votes), v)) as int
  }

  /** Validators' own votes can be counted too. */
  ghost predicate OwnCountable(vals: Validators, votes: seq<Vote>)
  {
    && Countable(Entries(vals, votes))
    && (forall v :: v in vals && VoteOf(vals, votes, v) != Empty ==>
          var p := OwnPower(vals, Entries(vals, votes), v);
          p.Some? && p.value >= 0)
    && Int64(TotalPower(Entries(vals, votes)) + MapSum.Sum(OwnAll(vals, votes, vals.Keys)))
  }

  /** The power behind an option: of the delegators who voted, and of the validators. */
  ghost function Behind(vals: Validators, votes: seq<Vote>, done: set<bytes>, o: VoteOption): int
  {
    PowerFor(Entries(vals, votes), o) + MapSum.Sum(Own(vals, votes, done, o))
  }

  ghost function InAll(vals: Validators, votes: seq<Vote>, done: set<bytes>): int
  {
    TotalPower(Entries(vals, votes)) + MapSum.Sum(OwnAll(vals, votes, done))
  }

  lemma OneMore(vals: Validators, votes: seq<Vote>, done: set<bytes>, v: bytes, o: VoteOption)
    requires v in vals && v !in done
    ensures Behind(vals, votes, done + {v}, o)
            == Behind(vals, votes, done, o) + if o == VoteOf(vals, votes, v) then Value(OwnPower(vals, Entries(vals, votes), v)) else 0
  {
    hide VoteOf, OwnPower, Entries;
    var p := Value(OwnPower(vals, Entries(vals, votes), v));
    if o == VoteOf(vals, votes, v) {
      assert Own(vals, votes, done + {v}, o) == Own(vals, votes, done, o)[v := p];
      MapSum.SumPut(Own(vals, votes, done, o), v, p);
    } else {
      assert Own(vals, votes, done + {v}, o) == Own(vals, votes, done, o);
    }
  }

  lemma OneMoreInAll(vals: Validators, votes: seq<Vote>, done: set<bytes>, v: bytes)
    requires v in vals && v !in done
    ensures InAll(vals, votes, done + {v})
            == InAll(vals, votes, done) + if VoteOf(vals, votes, v) != Empty then Value(OwnPower(vals, Entries(vals, votes), v)) else 0
  {
    hide VoteOf, OwnPower, Entries;
    var p := Value(OwnPower(vals, Entries(vals, votes), v));
    if VoteOf(vals, votes, v) != Empty {
      assert OwnAll(vals, votes, done + {v}) == OwnAll(vals, votes, done)[v := p];
      MapSum.SumPut(OwnAll(vals, votes, done), v, p);
    } else {
      assert OwnAll(vals, votes, done + {v}) == OwnAll(vals, votes, done);
    }
  }

  /** The results agree with the counts over `done`, whatever order led there. */
  ghost predicate Settled(vals: Validators, votes: seq<Vote>, done: set<bytes>, results: map<VoteOption, Dec>, total: Dec)
  {
    && (forall o :: o != Empty ==> ResultOf(results, o) == Behind(vals, votes, done, o))
    && ResultOf(results, Empty) == PowerFor(Entries(vals, votes), Empty)
    && total == InAll(vals, votes, done)
  }

  /** Sums over some validators are within the sum over all. */
  lemma Within(vals: Validators, votes: seq<Vote>, done: set<bytes>)
    requires OwnCountable(vals, votes)
    ensures forall o :: o != Empty ==> 0 <= Behind(vals, votes, done, o) <= InAll(vals, votes, vals.Keys)
    ensures 0 <= InAll(vals, votes, done) <= InAll(vals, votes, vals.Keys)
  {
    var es := Entries(vals, votes);
    NonNegative(es);
    var all := OwnAll(vals, votes, vals.Keys);
    assert forall v :: v in all ==> all[v] >= 0;
    hide VoteOf, OwnPower, Entries, Countable;
    MapSum.SumPart(OwnAll(vals, votes, done), all);
    MapSum.SumNonNegative(OwnAll(vals, votes, done));
    forall o | o != Empty
      ensures 0 <= Behind(vals, votes, done, o) <= InAll(vals, votes, vals.Keys)
    {
      MapSum.SumPart(Own(vals, votes, done, o), all);
      MapSum.SumNonNegative(Own(vals, votes, done, o));
    }
  }

  lemma OwnDefined(vals: Validators, votes: seq<Vote>, v: bytes)
    requires OwnCountable(vals, votes) && v in vals && VoteOf(vals, votes, v) != Empty
    ensures OwnPower(vals, Entries(vals, votes), v).Some? && Int64(InAll(vals, votes, vals.Keys))
  {
    hide VoteOf, Entries, Countable, OwnPower, OwnAll;
  }

  lemma OwnRoom(vals: Validators, votes: seq<Vote>, done: set<bytes>, v: bytes, vote: VoteOption)
    requires OwnCountable(vals, votes) && v in vals && v !in done && vote == VoteOf(vals, votes, v) && vote != Empty
    ensures var p := OwnPower(vals, Entries(vals, votes), v);
            p.Some? && Int64(Behind(vals, votes, done, vote) + p.value) && Int64(InAll(vals, votes, done) + p.value)
  {
    hide Behind, InAll, VoteOf, Entries, OwnPower, OwnCountable;
    OneMore(vals, votes, done, v, vote);
    OneMoreInAll(vals, votes, done, v);
    Within(vals, votes, done + {v});
    OwnDefined(vals, votes, v);
  }

  lemma SettledStep(vals: Validators, votes: seq<Vote>, done: set<bytes>, v: bytes, vote: VoteOption, p: Dec,
                    results: map<VoteOption, Dec>, total: Dec, result: Dec, sum: Dec)
    requires v in vals && v !in done && Settled(vals, votes, done, results, total)
    requires vote == VoteOf(vals, votes, v) && OwnPower(vals, Entries(vals, votes), v) == Some(p)
    requires result == ResultOf(results, vote) + p && sum == total + p && vote != Empty
    ensures Settled(vals, votes, done + {v}, results[vote := result], sum)
  {
    hide Behind, InAll, VoteOf, Entries, OwnPower;
    forall o | o != Empty
      ensures ResultOf(results[vote := result], o) == Behind(vals, votes, done + {v}, o)
    {
      OneMore(vals, votes, done, v, o);
    }
    OneMoreInAll(vals, votes, done, v);
  }

  lemma SettledEmpty(vals: Validators, votes: seq<Vote>, done: set<bytes>, v: bytes, results: map<VoteOption, Dec>, total: Dec)
    requires v in vals && v !in done && Settled(vals, votes, done, results, total) && VoteOf(vals, votes, v) == Empty
    ensures Settled(vals, votes, done + {v}, results, total)
  {
    hide Behind, InAll, VoteOf, Entries, OwnPower;
    forall o | o != Empty
      ensures ResultOf(results, o) == Behind(vals, votes, done + {v}, o)
    {
      OneMore(vals, votes, done, v, o);
    }
    OneMoreInAll(vals, votes, done, v);
  }

  lemma SettledRoom(vals: Validators, votes: seq<Vote>, done: set<bytes>, v: bytes, vote: VoteOption, results: map<VoteOption, Dec>, total: Dec)
    requires v in vals && v !in done && Settled(vals, votes, done, results, total) && vote == VoteOf(vals, votes, v) && vote != Empty
    ensures OwnCountable(vals, votes) ==>
              var p := OwnPower(vals, Entries(vals, votes), v);
              p.Some? && Int64(ResultOf(results, vote) + p.value) && Int64(total + p.value)
  {
    hide Behind, InAll, VoteOf, Entries, OwnPower, OwnCountable;
    if OwnCountable(vals, votes) {
      OwnRoom(vals, votes, done, v, vote);
    }
  }

  lemma OwnIsOwn(vals: Validators, votes: seq<Vote>, v: bytes, val: Info)
    requires v in vals && val.power == vals[v].power && val.shares == vals[v].shares
    requires val.deductions == SharesOf(Entries(vals, votes), v)
    ensures OwnFrom(val) == OwnPower(vals, Entries(vals, votes), v)
  {
  }

  /** The same power, from the record the loop works on. */
  function OwnFrom(val: Info): Option<Dec>
  {
    var left := Sub(val.shares, val.deductions);
    if left == None then None
    else
      var part := Quo(left.value, val.shares);
      if part == None then None else Mul(val.power, part.value)
  }

  /** One round of the loop over the validators. */
  method CountOwn(ghost vals: Validators, ghost votes: seq<Vote>, ghost done: set<bytes>, v: bytes, val: Info, results: map<VoteOption, Dec>, total: Dec)
    returns (r: Option<(map<VoteOption, Dec>, Dec)>)
    requires v in vals && v !in done && Settled(vals, votes, done, results, total)
    requires val.power == vals[v].power && val.shares == vals[v].shares && val.vote == VoteOf(vals, votes, v)
    requires val.deductions == SharesOf(Entries(vals, votes), v)
    ensures r.Some? ==> Settled(vals, votes, done + {v}, r.value.0, r.value.1)
    ensures OwnCountable(vals, votes) ==> r.Some?
  {
    hide Settled, OwnCountable, OwnPower, OwnFrom, VoteOf, Entries, SharesOf, ResultOf, Wrap;
    OwnIsOwn(vals, votes, v, val);
    if val.vote == Empty {
      SettledEmpty(vals, votes, done, v, results, total);
      return Some((results, total));
    }
    SettledRoom(vals, votes, done, v, val.vote, results, total);
    var power := OwnFrom(val);
    if power == None {
      return None;
    }
    var result := Add(ResultOf(results, val.vote), power.value);
    if result == None {
      return None;
    }
    var sum := Add(total, power.value);
    if sum == None {
      return None;
    }
    SettledStep(vals, votes, done, v, val.vote, power.value, results, total, result.value, sum.value);
    return Some((results[val.vote := result.value], sum.value));
  }

  /** The loop over the validators. Go visits the map in any order; the outcome
      does not depend on it. */
  method CountValidators(vals: Validators, votes: seq<Vote>, c: Count) returns (r: Option<Count>)
    requires Agrees(vals, votes, Entries(vals, votes), c)
    ensures r.Some? ==> Settled(vals, votes, vals.Keys, r.value.results, r.value.total)
    ensures OwnCountable(vals, votes) ==> r.Some?
  {
    var now, pending := c, c.infos.Keys;
    NoneDone(vals, votes);
    while pending != {}
      invariant pending <= vals.Keys && now.infos == c.infos
      invariant Settled(vals, votes, vals.Keys - pending, now.results, now.total)
      decreases pending
    {
      var v :| v in pending;
      var next := CountOwn(vals, votes, vals.Keys - pending, v, now.infos[v], now.results, now.total);
      if next == None {
        return None;
      }
      assert vals.Keys - (pending - {v}) == (vals.Keys - pending) + {v};
      now, pending := now.(results := next.value.0, total := next.value.1), pending - {v};
    }
    assert vals.Keys - {} == vals.Keys;
    return Some(now);
  }

  lemma NoneDone(vals: Validators, votes: seq<Vote>)
    ensures vals.Keys - vals.Keys == {}
    ensures forall o :: Behind(vals, votes, {}, o) == PowerFor(Entries(vals, votes), o)
    ensures InAll(vals, votes, {}) == TotalPower(Entries(vals, votes))
  {
    assert OwnAll(vals, votes, {}) == map[];
    forall o
      ensures Own(vals, votes, {}, o) == map[]
    {
    }
  }

  // ---------------------------------------------------------------- the options make up the total

  lemma {:induction false} EntriesByOption(es: seq<Entry>)
    ensures PowerFor(es, Empty) + PowerFor(es, Yes) + PowerFor(es, Abstain) + PowerFor(es, No) + PowerFor(es, NoWithVeto) == TotalPower(es)
  {
    if es != [] {
      EntriesByOption(es[..|es| - 1]);
    }
  }

  lemma {:induction false} ByOption(vals: Validators, votes: seq<Vote>, done: set<bytes>)
    requires done <= vals.Keys
    ensures PowerFor(Entries(vals, votes), Empty) + Behind(vals, votes, done, Yes) + Behind(vals, votes, done, Abstain)
            + Behind(vals, votes, done, No) + Behind(vals, votes, done, NoWithVeto) == InAll(vals, votes, done)
    decreases done
  {
    if done == {} {
      NoneDone(vals, votes);
      EntriesByOption(Entries(vals, votes));
    } else {
      hide Behind, InAll, VoteOf, Entries, OwnPower, PowerFor;
      var v :| v in done;
      var rest := done - {v};
      assert done == rest + {v};
      ByOption(vals, votes, rest);
      OneMore(vals, votes, rest, v, Yes);
      OneMore(vals, votes, rest, v, Abstain);
      OneMore(vals, votes, rest, v, No);
      OneMore(vals, votes, rest, v, NoWithVeto);
      OneMoreInAll(vals, votes, rest, v);
    }
  }

  // ---------------------------------------------------------------- the rounding error

  /** The entries for one validator. */
  function CountOf(es: seq<Entry>, v: bytes): nat
  {
    if es == [] then 0 else CountOf(es[..|es| - 1], v) + if es[|es| - 1].validator == v then 1 else 0
  }

  function PowerBy(es: seq<Entry>, v: bytes): int
  {
    if es == [] then 0 else PowerBy(es[..|es| - 1], v) + if es[|es| - 1].validator == v then Value(es[|es| - 1].power) else 0
  }

  /** Every entry carries the power of its shares. */
  ghost predicate Rated(vals: Validators, es: seq<Entry>)
  {
    forall i :: 0 <= i < |es| ==>
      es[i].validator in vals && es[i].power == PowerOf(vals[es[i].validator], es[i].shares)
  }

  ghost predicate AllDefined(es: seq<Entry>)
  {
    forall i :: 0 <= i < |es| ==> es[i].power.Some?
  }

  lemma {:induction false} VoteRated(vals: Validators, vote: Vote, n: nat)
    requires n <= |vote.delegations|
    ensures Rated(vals, EntriesOfVote(vals, vote, n))
  {
    hide PowerOf;
    if n > 0 {
      VoteRated(vals, vote, n - 1);
    }
  }

  lemma {:induction false} EntriesRated(vals: Validators, votes: seq<Vote>)
    ensures Rated(vals, Entries(vals, votes))
  {
    hide PowerOf, EntriesOfVote;
    if votes != [] {
      var vote := votes[|votes| - 1];
      EntriesRated(vals, votes[..|votes| - 1]);
      VoteRated(vals, vote, |vote.delegations|);
    }
  }

  lemma {:induction false} EntriesNear(vals: Validators, es: seq<Entry>, v: bytes)
    requires Rated(vals, es) && AllDefined(es) && v in vals && vals[v].power >= 0 && vals[v].shares > 0
    ensures 2 * K * K * Abs(PowerBy(es, v) * vals[v].shares - vals[v].power * SharesOf(es, v))
            <= CountOf(es, v) * (Margin(vals[v].power) * vals[v].shares)
  {
    if es != [] {
      var front, e := es[..|es| - 1], es[|es| - 1];
      EntriesNear(vals, front, v);
      if e.validator == v {
        PowerNear(vals[v], e.shares);
        AddNear(vals[v].power, vals[v].shares, SharesOf(front, v), PowerBy(front, v), CountOf(front, v), e.shares, e.power.value);
      }
    }
  }

  lemma AddNear(power: int, all: int, shares: int, counted: int, n: int, s: int, p: int)
    requires 2 * K * K * Abs(counted * all - power * shares) <= n * (Margin(power) * all)
    requires 2 * K * K * Abs(p * all - power * s) <= Margin(power) * all
    ensures 2 * K * K * Abs((counted + p) * all - power * (shares + s)) <= (n + 1) * (Margin(power) * all)
  {
    var m, x, y := Margin(power) * all, counted * all - power * shares, p * all - power * s;
    assert (counted + p) * all - power * (shares + s) == x + y;
    assert (n + 1) * m == n * m + m;
  }

  /** If n delegators vote apart from a validator that votes, the power counted for
      the validator in all differs from its power P by at most
      (n + 1) * (P * (1/2 + 1/K) / K + 1/2); here with 2 * K * K multiplied out. */
  lemma ValidatorNear(vals: Validators, votes: seq<Vote>, v: bytes)
    requires v in vals && vals[v].power >= 0 && vals[v].shares > 0
    requires var es := Entries(vals, votes); AllDefined(es) && OwnPower(vals, es, v).Some?
    ensures var es := Entries(vals, votes);
            2 * K * K * Abs(PowerBy(es, v) + OwnPower(vals, es, v).value - vals[v].power)
            <= (CountOf(es, v) + 1) * Margin(vals[v].power)
  {
    EntriesRated(vals, votes);
    hide Entries, Margin, PowerOf, SharesOf, PowerBy, CountOf, OwnPower, Abs, Rated, AllDefined;
    var es, power, all := Entries(vals, votes), vals[v].power, vals[v].shares;
    var left, own := all - SharesOf(es, v), OwnPower(vals, es, v).value;
    OwnIs(vals, es, v);
    EntriesNear(vals, es, v);
    PowerNear(vals[v], left);
    AddNear(power, all, SharesOf(es, v), PowerBy(es, v), CountOf(es, v), left, own);
    assert SharesOf(es, v) + left == all;
    Divide(PowerBy(es, v) + own, power, all, CountOf(es, v) + 1);
  }

  lemma OwnIs(vals: Validators, es: seq<Entry>, v: bytes)
    requires v in vals && OwnPower(vals, es, v).Some?
    ensures var left := vals[v].shares - SharesOf(es, v);
            Int64(left) && PowerOf(vals[v], left) == OwnPower(vals, es, v)
  {
  }

  lemma Divide(counted: int, power: int, all: int, n: int)
    requires all > 0 && 2 * K * K * Abs(counted * all - power * all) <= n * (Margin(power) * all)
    ensures 2 * K * K * Abs(counted - power) <= n * Margin(power)
  {
    var x, m := counted - power, Margin(power);
    assert counted * all - power * all == x * all;
    AbsProduct(x, all);
    assert n * (m * all) == (n * m) * all;
    assert 2 * K * K * (Abs(x) * all) == (2 * K * K * Abs(x)) * all;
    Cancel(2 * K * K * Abs(x), n * m, all);
  }

  lemma Cancel(a: int, b: int, c: int)
    requires c > 0 && a * c <= b * c
    ensures a <= b
  {
  }

  /** What is counted for each of some validators: by delegators and by its own vote. */
  ghost function Counted(vals: Validators, votes: seq<Vote>, done: set<bytes>): map<bytes, int>
  {
    map v | v in vals && v in done ::
      PowerBy(Entries(vals, votes), v) + if VoteOf(vals, votes, v) != Empty then Value(OwnPower(vals, Entries(vals, votes), v)) else 0
  }

  /** What should be: the whole power of a validator that votes, and of another what its
      delegators were counted for. */
  ghost function Expected(vals: Validators, votes: seq<Vote>): map<bytes, int>
  {
    map v | v in vals :: if VoteOf(vals, votes, v) != Empty then vals[v].power else PowerBy(Entries(vals, votes), v)
  }

  /** 2 * K * K times how far off each may be. */
  ghost function Margins(vals: Validators, votes: seq<Vote>): map<bytes, int>
  {
    map v | v in vals :: if VoteOf(vals, votes, v) != Empty then (CountOf(Entries(vals, votes), v) + 1) * Margin(vals[v].power) else 0
  }

  ghost function ByValidator(vals: Validators, es: seq<Entry>): map<bytes, int>
  {
    map v | v in vals :: PowerBy(es, v)
  }

  lemma {:induction false} ZeroSum(m: map<bytes, int>)
    requires forall v :: v in m ==> m[v] == 0
    ensures MapSum.Sum(m) == 0
    decreases m
  {
    if m != map[] {
      var v :| v in m;
      MapSum.SumWithout(m, v);
      ZeroSum(m - {v});
    }
  }

  /** Every entry is some validator's. */
  lemma {:induction false} TotalByValidator(vals: Validators, es: seq<Entry>)
    requires forall i :: 0 <= i < |es| ==> es[i].validator in vals
    ensures MapSum.Sum(ByValidator(vals, es)) == TotalPower(es)
  {
    if es == [] {
      ZeroSum(ByValidator(vals, es));
    } else {
      var front, e := es[..|es| - 1], es[|es| - 1];
      TotalByValidator(vals, front);
      var p := PowerBy(front, e.validator) + Value(e.power);
      assert ByValidator(vals, es) == ByValidator(vals, front)[e.validator := p];
      MapSum.SumPut(ByValidator(vals, front), e.validator, p);
    }
  }

  /** Adding what validators' own votes carry, one after another. */
  lemma {:induction false} CountedTotal(vals: Validators, votes: seq<Vote>, done: set<bytes>, direct: map<bytes, int>)
    requires done <= vals.Keys && direct == map v | v in done :: PowerBy(Entries(vals, votes), v)
    ensures MapSum.Sum(Counted(vals, votes, done)) - MapSum.Sum(direct) == InAll(vals, votes, done) - TotalPower(Entries(vals, votes))
    decreases done
  {
    if done == {} {
      NoneDone(vals, votes);
      assert Counted(vals, votes, done) == map[] && direct == map[];
    } else {
      hide InAll, VoteOf, Entries, OwnPower, PowerBy, TotalPower;
      var v :| v in done;
      var rest := done - {v};
      assert done == rest + {v};
      CountedTotal(vals, votes, rest, direct - {v});
      OneMoreInAll(vals, votes, rest, v);
      MapSum.SumWithout(direct, v);
      MapSum.SumWithout(Counted(vals, votes, done), v);
      assert Counted(vals, votes, done) - {v} == Counted(vals, votes, rest);
    }
  }

  lemma {:induction false} SumsNear(a: map<bytes, int>, b: map<bytes, int>, c: map<bytes, int>, scale: nat)
    requires a.Keys == b.Keys == c.Keys && forall v :: v in a ==> scale * Abs(a[v] - b[v]) <= c[v]
    ensures scale * Abs(MapSum.Sum(a) - MapSum.Sum(b)) <= MapSum.Sum(c)
    decreases a
  {
    if a == map[] {
      assert b == map[] && c == map[];
    } else {
      var v :| v in a;
      SumsNear(a - {v}, b - {v}, c - {v}, scale);
      MapSum.SumWithout(a, v);
      MapSum.SumWithout(b, v);
      MapSum.SumWithout(c, v);
      AddScaled(scale, a[v] - b[v], MapSum.Sum(a - {v}) - MapSum.Sum(b - {v}), c[v], MapSum.Sum(c - {v}));
    }
  }

  lemma AddScaled(scale: nat, x: int, y: int, c: int, d: int)
    requires scale * Abs(x) <= c && scale * Abs(y) <= d
    ensures scale * Abs(x + y) <= c + d
  {
    Scale(Abs(x + y), Abs(x) + Abs(y), scale);
    assert scale * Abs(x + y) == Abs(x + y) * scale;
    assert scale * (Abs(x) + Abs(y)) == scale * Abs(x) + scale * Abs(y);
  }

  lemma CountedIsTotal(vals: Validators, votes: seq<Vote>)
    ensures MapSum.Sum(Counted(vals, votes, vals.Keys)) == InAll(vals, votes, vals.Keys)
  {
    var es := Entries(vals, votes);
    EntriesRated(vals, votes);
    TotalByValidator(vals, es);
    CountedTotal(vals, votes, vals.Keys, ByValidator(vals, es));
  }

  /** Every validator's own part of the votes is defined. */
  ghost predicate OwnDefinedFor(vals: Validators, votes: seq<Vote>, v: bytes)
  {
    v in vals && VoteOf(vals, votes, v) != Empty ==>
      vals[v].power >= 0 && vals[v].shares > 0 && OwnPower(vals, Entries(vals, votes), v).Some?
  }

  lemma OneNear(vals: Validators, votes: seq<Vote>, v: bytes)
    requires AllDefined(Entries(vals, votes)) && v in vals && OwnDefinedFor(vals, votes, v)
    ensures 2 * K * K * Abs(Counted(vals, votes, vals.Keys)[v] - Expected(vals, votes)[v]) <= Margins(vals, votes)[v]
  {
    hide VoteOf, Entries, OwnPower, PowerBy, Margin, CountOf, AllDefined;
    if VoteOf(vals, votes, v) != Empty {
      ValidatorNear(vals, votes, v);
    }
  }

  /** The total that the decision divides by differs from the exact power of the validators that
      voted, plus what the delegators of others were counted for, by at most the sum of the bounds. */
  lemma TotalNear(vals: Validators, votes: seq<Vote>)
    requires AllDefined(Entries(vals, votes)) && forall v :: OwnDefinedFor(vals, votes, v)
    ensures 2 * K * K * Abs(InAll(vals, votes, vals.Keys) - MapSum.Sum(Expected(vals, votes))) <= MapSum.Sum(Margins(vals, votes))
  {
    hide InAll, Entries, AllDefined, OwnDefinedFor, Counted, Expected, Margins, VoteOf;
    CountedIsTotal(vals, votes);
    var a, b, c := Counted(vals, votes, vals.Keys), Expected(vals, votes), Margins(vals, votes);
    SameKeys(vals, votes);
    forall v | v in a
      ensures 2 * K * K * Abs(a[v] - b[v]) <= c[v]
    {
      OneNear(vals, votes, v);
    }
    SumsNear(a, b, c, 2 * K * K);
  }

  lemma SameKeys(vals: Validators, votes: seq<Vote>)
    ensures Counted(vals, votes, vals.Keys).Keys == Expected(vals, votes).Keys == Margins(vals, votes).Keys == vals.Keys
  {
  }

  // ---------------------------------------------------------------- each vote for its own option

  /** The votes cast for one option. */
  function For(votes: seq<Vote>, o: VoteOption): seq<Vote>
  {
    if votes == [] then []
    else For(votes[..|votes| - 1], o) + if votes[|votes| - 1].option == o then [votes[|votes| - 1]] else []
  }

  lemma {:induction false} VoteForOption(vals: Validators, vote: Vote, n: nat, es: seq<Entry>, o: VoteOption)
    requires n <= |vote.delegations|
    ensures var all := es + EntriesOfVote(vals, vote, n);
            if vote.option == o then PowerFor(all, o) - PowerFor(es, o) == TotalPower(all) - TotalPower(es)
            else PowerFor(all, o) == PowerFor(es, o)
  {
    if n == 0 {
      assert es + EntriesOfVote(vals, vote, 0) == es;
    } else {
      VoteForOption(vals, vote, n - 1, es, o);
      var d, front := vote.delegations[n - 1], EntriesOfVote(vals, vote, n - 1);
      if d.validator in vals {
        var e := Entry(d.validator, vote.option, d.shares, PowerOf(vals[d.validator], d.shares));
        Append(es + front, e);
        assert es + (front + [e]) == es + front + [e];
      } else {
        assert front + [] == front;
      }
    }
  }

  /** What one vote adds to a total does not depend on what is there already. */
  lemma {:induction false} VoteAdds(vals: Validators, vote: Vote, n: nat, es: seq<Entry>)
    requires n <= |vote.delegations|
    ensures TotalPower(es + EntriesOfVote(vals, vote, n)) == TotalPower(es) + TotalPower(EntriesOfVote(vals, vote, n))
  {
    if n == 0 {
      assert es + EntriesOfVote(vals, vote, 0) == es;
    } else {
      VoteAdds(vals, vote, n - 1, es);
      var d, front := vote.delegations[n - 1], EntriesOfVote(vals, vote, n - 1);
      if d.validator in vals {
        var e := Entry(d.validator, vote.option, d.shares, PowerOf(vals[d.validator], d.shares));
        Append(es + front, e);
        Append(front, e);
        assert es + (front + [e]) == es + front + [e];
      } else {
        assert front + [] == front;
      }
    }
  }

  /** Behind an option are exactly the delegators who voted for it: counting it among all votes is
      counting everything among the votes for it. */
  lemma {:induction false} EachForItsOption(vals: Validators, votes: seq<Vote>, o: VoteOption)
    ensures PowerFor(Entries(vals, votes), o) == TotalPower(Entries(vals, For(votes, o)))
  {
    hide EntriesOfVote, PowerFor, TotalPower;
    if votes == [] {
      NothingCounted(o);
    } else {
      var front, vote := votes[..|votes| - 1], votes[|votes| - 1];
      EachForItsOption(vals, front, o);
      var own, some := EntriesOfVote(vals, vote, |vote.delegations|), For(front, o);
      assert Entries(vals, front) + [] == Entries(vals, front) && Entries(vals, some) + [] == Entries(vals, some);
      assert some + [] == some && (some + [vote])[..|some|] == some;
      if vote.voter !in vals {
        VoteForOption(vals, vote, |vote.delegations|, Entries(vals, front), o);
        VoteAdds(vals, vote, |vote.delegations|, Entries(vals, front));
        VoteAdds(vals, vote, |vote.delegations|, Entries(vals, some));
      }
    }
  }

  lemma NothingCounted(o: VoteOption)
    ensures PowerFor([], o) == 0 && TotalPower([]) == 0
  {
  }

  /** A validator that has shares votes as the last vote in its name says, and any other not at all. */
  lemma {:induction false} LastVote(vals: Validators, votes: seq<Vote>, v: bytes)
    ensures (v !in vals || vals[v].shares <= 0 || forall i :: 0 <= i < |votes| ==> votes[i].voter != v) ==> VoteOf(vals, votes, v) == Empty
    ensures v in vals && vals[v].shares > 0 ==>
              forall i :: 0 <= i < |votes| && votes[i].voter == v && (forall j :: i < j < |votes| ==> votes[j].voter != v) ==>
                VoteOf(vals, votes, v) == votes[i].option
  {
    if votes != [] {
      var front, last := votes[..|votes| - 1], votes[|votes| - 1];
      LastVote(vals, front, v);
      assert forall i :: 0 <= i < |front| ==> front[i] == votes[i];
    }
  }

  /** No vote is empty, as AddVote demands. */
  predicate AllCast(votes: seq<Vote>)
  {
    forall i :: 0 <= i < |votes| ==> votes[i].option != Empty
  }

  /** An option that nobody voted for has no power behind it. */
  lemma {:induction false} NoneFor(votes: seq<Vote>, o: VoteOption)
    requires forall i :: 0 <= i < |votes| ==> votes[i].option != o
    ensures For(votes, o) == []
  {
    if votes != [] {
      NoneFor(votes[..|votes| - 1], o);
    }
  }

  lemma NoneEmpty(vals: Validators, votes: seq<Vote>)
    requires AllCast(votes)
    ensures PowerFor(Entries(vals, votes), Empty) == 0
  {
    EachForItsOption(vals, votes, Empty);
    NoneFor(votes, Empty);
  }

  // ---------------------------------------------------------------- the decision

  datatype Params = Params(quorum: Dec, veto: Dec, threshold: Dec)

  datatype Decision = Decision(passes: bool, refund: bool)

  function Decide(results: map<VoteOption, Dec>, total: Dec, totalPower: Dec, params: Params): Option<Decision>
  {
    if totalPower == 0 then Some(Decision(false, true))
    else
      var percent := Quo(total, totalPower);
      if percent == None then None
      else if percent.value < params.quorum then Some(Decision(false, true))
      else
        var heard := Sub(total, ResultOf(results, Abstain));
        if heard == None then None
        else if heard.value == 0 then Some(Decision(false, true))
        else
          var veto := Quo(ResultOf(results, NoWithVeto), total);
          if veto == None then None
          else if veto.value > params.veto then Some(Decision(false, false))
          else
            var yes := Quo(ResultOf(results, Yes), heard.value);
            if yes == None then None
            else Some(Decision(yes.value > params.threshold, yes.value > params.threshold))
  }

  /** What a decision says about the counts, up to half a unit in the eighth decimal. A proposal that
      passes had the quorum, was not vetoed and exceeded the threshold, and its deposits go back. One that
      fails has them back only if the quorum was missed or nobody took sides; otherwise it was vetoed or
      had too few votes. */
  ghost predicate Justified(d: Decision, results: map<VoteOption, Dec>, total: Dec, totalPower: Dec, params: Params)
  {
    var abstain := ResultOf(results, Abstain);
    && (d.passes ==>
          && d.refund && totalPower > 0 && total > abstain
          && 2 * K * K * total > (2 * K * params.quorum - K - 2) * totalPower
          && 2 * K * K * ResultOf(results, NoWithVeto) < (2 * K * params.veto + K + 2) * total
          && 2 * K * K * ResultOf(results, Yes) > (2 * K * params.threshold + K - 2) * (total - abstain))
    && (!d.passes && d.refund ==>
          totalPower == 0 || total == abstain || 2 * K * K * total < (2 * K * params.quorum - K + 2) * totalPower)
    && (!d.refund ==>
          && totalPower > 0 && total > abstain
          && 2 * K * K * total > (2 * K * params.quorum - K - 2) * totalPower
          && (|| 2 * K * K * ResultOf(results, NoWithVeto) > (2 * K * params.veto + K - 2) * total
              || 2 * K * K * ResultOf(results, Yes) < (2 * K * params.threshold + K + 2) * (total - abstain)))
  }

  /** Exactly, in the rounded quotients: what makes a proposal pass and what gives deposits back. */
  ghost predicate Ruled(d: Decision, results: map<VoteOption, Dec>, total: Dec, totalPower: Dec, params: Params)
  {
    var abstain := ResultOf(results, Abstain);
    var silent := totalPower == 0 || Value(Quo(total, totalPower)) < params.quorum || total == abstain;
    && (d.passes <==> && !silent && Value(Quo(ResultOf(results, NoWithVeto), total)) <= params.veto
                      && Int64(total - abstain) && Value(Quo(ResultOf(results, Yes), total - abstain)) > params.threshold)
    && (d.refund <==> silent || d.passes)
  }

  lemma DecisionRuled(results: map<VoteOption, Dec>, total: Dec, totalPower: Dec, params: Params)
    ensures var d := Decide(results, total, totalPower, params);
            d.Some? ==> Ruled(d.value, results, total, totalPower, params)
  {
    hide Quo, ResultOf;
  }

  lemma PassesMeans(results: map<VoteOption, Dec>, total: Dec, totalPower: Dec, params: Params, d: Decision)
    requires totalPower >= 0 && total >= ResultOf(results, Abstain) >= 0
    requires Decide(results, total, totalPower, params) == Some(d) && d.passes
    ensures Justified(d, results, total, totalPower, params)
  {
    DecisionRuled(results, total, totalPower, params);
    hide Decide;
    var heard := total - ResultOf(results, Abstain);
    assert Quo(total, totalPower).Some? by { DecisionDefined(results, total, totalPower, params); }
    assert Quo(ResultOf(results, NoWithVeto), total).Some? by { DecisionDefined(results, total, totalPower, params); }
    assert Quo(ResultOf(results, Yes), heard).Some? by { DecisionDefined(results, total, totalPower, params); }
    QuoAtLeast(total, totalPower, params.quorum);
    QuoAtMost(ResultOf(results, NoWithVeto), total, params.veto);
    QuoAtLeast(ResultOf(results, Yes), heard, params.threshold + 1);
    assert (2 * K * (params.threshold + 1) - K - 2) * heard == (2 * K * params.threshold + K - 2) * heard;
  }

  /** What a decision had to compute could be computed. */
  lemma DecisionDefined(results: map<VoteOption, Dec>, total: Dec, totalPower: Dec, params: Params)
    requires Decide(results, total, totalPower, params).Some? && totalPower != 0
    ensures Quo(total, totalPower).Some?
    ensures var heard := total - ResultOf(results, Abstain);
            Value(Quo(total, totalPower)) >= params.quorum && heard != 0 ==>
              && Int64(heard) && Quo(ResultOf(results, NoWithVeto), total).Some?
              && (Value(Quo(ResultOf(results, NoWithVeto), total)) <= params.veto ==> Quo(ResultOf(results, Yes), heard).Some?)
  {
    hide Quo, ResultOf;
  }

  lemma FailsMeans(results: map<VoteOption, Dec>, total: Dec, totalPower: Dec, params: Params, d: Decision)
    requires totalPower >= 0 && total >= ResultOf(results, Abstain) >= 0
    requires Decide(results, total, totalPower, params) == Some(d) && !d.passes
    ensures Justified(d, results, total, totalPower, params)
  {
    DecisionRuled(results, total, totalPower, params);
    if totalPower != 0 {
      DecisionDefined(results, total, totalPower, params);
      hide Decide;
      var heard := total - ResultOf(results, Abstain);
      if d.refund {
        if heard != 0 {
          QuoAtMost(total, totalPower, params.quorum - 1);
          assert (2 * K * (params.quorum - 1) + K + 2) * totalPower == (2 * K * params.quorum - K + 2) * totalPower;
        }
      } else {
        QuoAtLeast(total, totalPower, params.quorum);
        if Quo(ResultOf(results, NoWithVeto), total).value > params.veto {
          QuoAtLeast(ResultOf(results, NoWithVeto), total, params.veto + 1);
          assert (2 * K * (params.veto + 1) - K - 2) * total == (2 * K * params.veto + K - 2) * total;
        } else {
          QuoAtMost(ResultOf(results, Yes), heard, params.threshold);
        }
      }
    }
  }

  /** Every decision is justified by the counts. */
  lemma DecisionMeans(results: map<VoteOption, Dec>, total: Dec, totalPower: Dec, params: Params)
    requires totalPower >= 0 && total >= ResultOf(results, Abstain) >= 0
    ensures var d := Decide(results, total, totalPower, params);
            d.Some? ==> Justified(d.value, results, total, totalPower, params)
  {
    hide Decide, Justified;
    var d := Decide(results, total, totalPower, params);
    if d.Some? {
      if d.value.passes {
        PassesMeans(results, total, totalPower, params, d.value);
      } else {
        FailsMeans(results, total, totalPower, params, d.value);
      }
    }
  }

  lemma QuoAtLeast(a: Dec, b: Dec, t: int)
    requires b > 0 && Quo(a, b).Some? && Quo(a, b).value >= t
    ensures 2 * K * K * a > (2 * K * t - K - 2) * b
  {
    QuoNear(a, b);
    hide Quo;
    var q := Quo(a, b).value;
    Scale(t, q, b);
    Spread(a, b, q, t);
  }

  lemma QuoAtMost(a: Dec, b: Dec, t: int)
    requires b > 0 && Quo(a, b).Some? && Quo(a, b).value <= t
    ensures 2 * K * K * a < (2 * K * t + K + 2) * b
  {
    QuoNear(a, b);
    hide Quo;
    var q := Quo(a, b).value;
    Scale(q, t, b);
    Spread(a, b, q, t);
  }

  lemma Spread(a: int, b: int, q: int, t: int)
    ensures (2 * K * t - K - 2) * b == 2 * K * (t * b) - (K + 2) * b
    ensures (2 * K * t + K + 2) * b == 2 * K * (t * b) + (K + 2) * b
  {
  }

  lemma AbstainWithin(vals: Validators, votes: seq<Vote>)
    requires OwnCountable(vals, votes)
    ensures 0 <= Behind(vals, votes, vals.Keys, Abstain) <= InAll(vals, votes, vals.Keys)
  {
    hide Behind, InAll, OwnCountable;
    Within(vals, votes, vals.Keys);
  }

  /** Tally: whatever the order of the validators, the results are the powers behind
      the options, the options make up the total, and the decision follows from them. */
  method Tally(vals: Validators, votes: seq<Vote>, totalPower: Dec, params: Params)
    returns (r: Option<Decision>, results: map<VoteOption, Dec>, total: Dec)
    ensures r.Some? ==> Settled(vals, votes, vals.Keys, results, total)
    ensures r.Some? ==> r == Decide(results, total, totalPower, params)
    ensures r.Some? ==> total == ResultOf(results, Empty) + ResultOf(results, Yes) + ResultOf(results, Abstain)
                                 + ResultOf(results, No) + ResultOf(results, NoWithVeto)
    ensures r.Some? && AllCast(votes) ==> total == ResultOf(results, Yes) + ResultOf(results, Abstain)
                                                   + ResultOf(results, No) + ResultOf(results, NoWithVeto)
    ensures OwnCountable(vals, votes) ==>
              Settled(vals, votes, vals.Keys, results, total) && r == Decide(results, total, totalPower, params)
    ensures r.Some? ==> Ruled(r.value, results, total, totalPower, params)
    ensures r.Some? && totalPower >= 0 && (OwnCountable(vals, votes) || total >= ResultOf(results, Abstain) >= 0) ==>
              Justified(r.value, results, total, totalPower, params)
  {
    hide Decide, Ruled, Justified, AllCast, Countable;
    results, total := map[], 0;
    var c := CountVotes(vals, votes);
    if c == None {
      return None, results, total;
    }
    c := CountValidators(vals, votes, c.value);
    if c == None {
      return None, results, total;
    }
    ByOption(vals, votes, vals.Keys);
    if AllCast(votes) {
      NoneEmpty(vals, votes);
    }
    results, total := c.value.results, c.value.total;
    r := Decide(results, total, totalPower, params);
    DecisionRuled(results, total, totalPower, params);
    if OwnCountable(vals, votes) {
      AbstainWithin(vals, votes);
    }
    if totalPower >= 0 && total >= ResultOf(results, Abstain) >= 0 {
      DecisionMeans(results, total, totalPower, params);
    }
  }
}
