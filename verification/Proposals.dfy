/** x/gov: the proposals of one chain, their deposits and the two queues, as
    values, and what every step keeps of their order. */
module Proposals {
  import opened Bytes
  import opened Coins

  datatype Status = DepositPeriod | VotingPeriod | Passed | Rejected

  datatype Proposal = Proposal(status: Status, total: seq<Coin>, submitTime: int, votingStart: int, votingPeriod: int)

  /** Who deposited on which proposal. */
  datatype Slot = Slot(id: int, depositer: bytes)

  type Deposits = map<Slot, seq<Coin>>

  datatype Chain = Chain(proposals: map<int, Proposal>, deposits: Deposits, active: seq<int>, inactive: seq<int>, nextId: int)

  /** What the tally says of a proposal. */
  datatype Verdict = Verdict(passes: bool, refund: bool)

  predicate IsOpen(p: Proposal)
  {
    p.status == DepositPeriod || p.status == VotingPeriod
  }

  function Expiry(p: Proposal): int
  {
    p.votingStart + p.votingPeriod
  }

  function ExpiryOf(proposals: map<int, Proposal>, id: int): int
  {
    if id in proposals then Expiry(proposals[id]) else 0
  }

  function SubmitOf(proposals: map<int, Proposal>, id: int): int
  {
    if id in proposals then proposals[id].submitTime else 0
  }

  // ---------------------------------------------------------------- order

  predicate ByExpiry(proposals: map<int, Proposal>, queue: seq<int>)
  {
    forall i, j :: 0 <= i < j < |queue| ==> ExpiryOf(proposals, queue[i]) <= ExpiryOf(proposals, queue[j]) && queue[i] != queue[j]
  }

  predicate BySubmission(proposals: map<int, Proposal>, queue: seq<int>)
  {
    forall i, j :: 0 <= i < j < |queue| ==> SubmitOf(proposals, queue[i]) <= SubmitOf(proposals, queue[j]) && queue[i] < queue[j]
  }

  /** The queues hold what they should, in order, and no number is used twice. */
  ghost predicate Orderly(c: Chain, now: int)
  {
    && (forall id :: id in c.proposals ==> id < c.nextId && c.proposals[id].submitTime <= now)
    && (forall id :: id in c.inactive ==> id in c.proposals)
    && BySubmission(c.proposals, c.inactive)
    && (forall id :: id in c.proposals && c.proposals[id].status == DepositPeriod ==> id in c.inactive)
    && ByExpiry(c.proposals, c.active)
    && (forall id :: id in c.active <==> id in c.proposals && c.proposals[id].status == VotingPeriod)
  }

  /** The steps a proposal may take; from a deposit period it may also go away. */
  predicate MayBecome(a: Status, b: Status)
  {
    || a == b
    || (a == DepositPeriod && b == VotingPeriod)
    || (a == VotingPeriod && (b == Passed || b == Rejected))
  }

  /** What one step does to the proposals: numbers once used are not used again. */
  ghost predicate Moves(a: Chain, b: Chain)
  {
    && a.nextId <= b.nextId
    && (forall id :: id in a.proposals && id in b.proposals ==> MayBecome(a.proposals[id].status, b.proposals[id].status))
    && (forall id :: id in a.proposals && id !in b.proposals ==> a.proposals[id].status == DepositPeriod)
    && (forall id :: id in b.proposals && id !in a.proposals ==> id >= a.nextId && b.proposals[id].status == DepositPeriod)
  }

  predicate Leads(a: Status, b: Status)
  {
    a == b || a == DepositPeriod || (a == VotingPeriod && (b == Passed || b == Rejected))
  }

  /** What any number of steps does: a settled proposal stays as it is, and one that is
      gone does not come back. */
  ghost predicate Progress(a: Chain, b: Chain)
  {
    && a.nextId <= b.nextId
    && (forall id :: id in a.proposals && id in b.proposals ==> Leads(a.proposals[id].status, b.proposals[id].status))
    && (forall id :: id in a.proposals && id !in b.proposals ==> a.proposals[id].status == DepositPeriod)
    && (forall id :: id in b.proposals && id !in a.proposals ==> id >= a.nextId)
  }

  lemma MovesIsProgress(a: Chain, b: Chain)
    requires Moves(a, b)
    ensures Progress(a, b)
  {
  }

  lemma ProgressTransitive(a: Chain, b: Chain, c: Chain)
    requires Progress(a, b) && Progress(b, c)
    requires forall id :: id in b.proposals ==> id < b.nextId
    ensures Progress(a, c)
  {
  }

  // ---------------------------------------------------------------- submitting

  lemma SubmissionSnoc(p: map<int, Proposal>, r: map<int, Proposal>, queue: seq<int>, x: int)
    requires BySubmission(p, queue)
    requires forall id :: id in queue ==> SubmitOf(r, id) == SubmitOf(p, id) && SubmitOf(r, id) <= SubmitOf(r, x) && id < x
    ensures BySubmission(r, queue + [x])
  {
    hide SubmitOf;
    var q := queue + [x];
    forall i, j | 0 <= i < j < |q|
      ensures SubmitOf(r, q[i]) <= SubmitOf(r, q[j]) && q[i] < q[j]
    {
      assert q[i] == queue[i] && queue[i] in queue;
      if j < |queue| {
        assert q[j] == queue[j] && queue[j] in queue;
      }
    }
  }

  /** NewTextProposal. */
  function Submitted(c: Chain, now: int, votingPeriod: int): Chain
  {
    c.(proposals := c.proposals[c.nextId := Proposal(DepositPeriod, [], now, 0, votingPeriod)],
       inactive := c.inactive + [c.nextId], nextId := c.nextId + 1)
  }

  lemma SubmittedOrderly(c: Chain, before: int, now: int, votingPeriod: int)
    requires Orderly(c, before) && before <= now
    ensures Orderly(Submitted(c, now, votingPeriod), now)
    ensures Moves(c, Submitted(c, now, votingPeriod))
  {
    var r := Submitted(c, now, votingPeriod);
    ExpirySame(c.proposals, r.proposals, c.active);
    SubmissionSnoc(c.proposals, r.proposals, c.inactive, c.nextId);
    hide BySubmission, ByExpiry;
  }

  // ---------------------------------------------------------------- activating

  /** Where a proposal that expires at `expiry` belongs in the queue. */
  function Inserted(proposals: map<int, Proposal>, queue: seq<int>, id: int, expiry: int): seq<int>
  {
    if queue == [] then [id]
    else if ExpiryOf(proposals, queue[0]) > expiry then [id] + queue
    else [queue[0]] + Inserted(proposals, queue[1..], id, expiry)
  }

  /** ActiveProposalQueuePush. */
  method Push(proposals: map<int, Proposal>, queue: seq<int>, id: int, expiry: int) returns (r: seq<int>)
    ensures r == Inserted(proposals, queue, id, expiry)
  {
    if |queue| == 0 {
      return [id];
    }
    r := [];
    var placed := false;
    assert queue[0..] == queue;
    for i := 0 to |queue|
      invariant !placed && |r| == i && r + Inserted(proposals, queue[i..], id, expiry) == Inserted(proposals, queue, id, expiry)
    {
      assert queue[i..][0] == queue[i] && queue[i..][1..] == queue[i + 1..];
      if ExpiryOf(proposals, queue[i]) > expiry {
        Assoc(r, [id], queue[i..]);
        r, placed := r + [id] + queue[i..], true;
        break;
      } else {
        Assoc(r, [queue[i]], Inserted(proposals, queue[i + 1..], id, expiry));
        r := r + [queue[i]];
      }
    }
    if |r| == |queue| {
      r := r + [id];
    }
  }

  lemma {:induction false} InsertedMembers(proposals: map<int, Proposal>, queue: seq<int>, id: int, expiry: int)
    ensures forall x :: x in Inserted(proposals, queue, id, expiry) <==> x == id || x in queue
  {
    hide ExpiryOf;
    if queue != [] {
      InsertedMembers(proposals, queue[1..], id, expiry);
      assert queue == [queue[0]] + queue[1..];
    }
  }

  lemma ByExpiryCons(proposals: map<int, Proposal>, x: int, queue: seq<int>)
    requires ByExpiry(proposals, queue)
    requires forall y :: y in queue ==> ExpiryOf(proposals, x) <= ExpiryOf(proposals, y) && x != y
    ensures ByExpiry(proposals, [x] + queue)
  {
    hide ExpiryOf;
    var r := [x] + queue;
    forall i, j | 0 <= i < j < |r|
      ensures ExpiryOf(proposals, r[i]) <= ExpiryOf(proposals, r[j]) && r[i] != r[j]
    {
      assert r[j] == queue[j - 1] && queue[j - 1] in queue;
      if i > 0 {
        assert r[i] == queue[i - 1];
      }
    }
  }

  lemma {:induction false} InsertedOrder(proposals: map<int, Proposal>, queue: seq<int>, id: int, expiry: int)
    requires ByExpiry(proposals, queue) && id !in queue && ExpiryOf(proposals, id) == expiry
    ensures ByExpiry(proposals, Inserted(proposals, queue, id, expiry))
    ensures forall x :: x in Inserted(proposals, queue, id, expiry) <==> x == id || x in queue
  {
    InsertedMembers(proposals, queue, id, expiry);
    hide ExpiryOf;
    if queue != [] {
      if ExpiryOf(proposals, queue[0]) > expiry {
        ByExpiryCons(proposals, id, queue);
      } else {
        ExpiryTail(proposals, proposals, queue);
        InsertedOrder(proposals, queue[1..], id, expiry);
        ByExpiryCons(proposals, queue[0], Inserted(proposals, queue[1..], id, expiry));
      }
    }
  }

  /** A deposit: a new total, a new record, and perhaps ActivateVotingPeriod. */
  function Deposited(c: Chain, now: int, slot: Slot, total: seq<Coin>, record: seq<Coin>, activate: bool): Chain
    requires slot.id in c.proposals
  {
    var p := c.proposals[slot.id].(total := total);
    if activate then
      var q := p.(votingStart := now, status := VotingPeriod);
      var proposals := c.proposals[slot.id := q];
      c.(proposals := proposals, active := Inserted(proposals, c.active, slot.id, Expiry(q)), deposits := c.deposits[slot := record])
    else
      c.(proposals := c.proposals[slot.id := p], deposits := c.deposits[slot := record])
  }

  /** What a deposit changes: the total of the proposal and the record of the depositor; and if the vote opens, it
      does so now, and the proposal joins the active queue. */
  ghost predicate OneDeposit(a: Chain, b: Chain, now: int, slot: Slot, total: seq<Coin>, record: seq<Coin>, opens: bool)
  {
    && slot.id in a.proposals
    && b.proposals == a.proposals[slot.id := if opens then a.proposals[slot.id].(total := total, status := VotingPeriod, votingStart := now)
                                             else a.proposals[slot.id].(total := total)]
    && b.deposits == a.deposits[slot := record] && b.inactive == a.inactive && b.nextId == a.nextId
    && (if opens then forall id :: id in b.active <==> id == slot.id || id in a.active else b.active == a.active)
  }

  lemma DepositedMeans(c: Chain, now: int, slot: Slot, total: seq<Coin>, record: seq<Coin>, activate: bool)
    requires slot.id in c.proposals
    ensures OneDeposit(c, Deposited(c, now, slot, total, record, activate), now, slot, total, record, activate)
  {
    if activate {
      var q := c.proposals[slot.id].(total := total, votingStart := now, status := VotingPeriod);
      InsertedMembers(c.proposals[slot.id := q], c.active, slot.id, Expiry(q));
    }
  }

  lemma DepositedOrderly(c: Chain, before: int, now: int, slot: Slot, total: seq<Coin>, record: seq<Coin>, activate: bool)
    requires Orderly(c, before) && before <= now && slot.id in c.proposals
    requires activate ==> c.proposals[slot.id].status == DepositPeriod
    ensures Orderly(Deposited(c, now, slot, total, record, activate), now)
    ensures Moves(c, Deposited(c, now, slot, total, record, activate))
  {
    var r := Deposited(c, now, slot, total, record, activate);
    SubmissionSame(c.proposals, r.proposals, c.inactive);
    ExpirySame(c.proposals, r.proposals, c.active);
    if activate {
      InsertedOrder(r.proposals, c.active, slot.id, ExpiryOf(r.proposals, slot.id));
    }
    hide BySubmission, ByExpiry, Inserted;
  }

  // ---------------------------------------------------------------- settling

  /** The records of all other proposals. */
  function Without(deposits: Deposits, id: int): Deposits
  {
    map k | k in deposits && k.id != id :: deposits[k]
  }

  /** The records of one proposal. */
  function Only(deposits: Deposits, id: int): Deposits
  {
    map k | k in deposits && k.id == id :: deposits[k]
  }

  predicate ShouldPopInactive(c: Chain, now: int, maxDeposit: int)
  {
    && c.inactive != [] && c.inactive[0] in c.proposals
    && var p := c.proposals[c.inactive[0]];
       p.status != DepositPeriod || now >= p.submitTime + maxDeposit
  }

  /** Takes the first proposal off the inactive queue, and drops it if it is still short of deposits. */
  function PopInactive(c: Chain): Chain
    requires c.inactive != [] && c.inactive[0] in c.proposals
  {
    var id := c.inactive[0];
    if c.proposals[id].status != DepositPeriod then c.(inactive := c.inactive[1..])
    else c.(inactive := c.inactive[1..], proposals := c.proposals - {id}, deposits := Without(c.deposits, id))
  }

  predicate ShouldPopActive(c: Chain, now: int)
  {
    c.active != [] && c.active[0] in c.proposals && now >= Expiry(c.proposals[c.active[0]])
  }

  /** Takes the first proposal off the active queue and closes it. */
  function PopActive(c: Chain, verdict: Verdict): Chain
    requires c.active != [] && c.active[0] in c.proposals
  {
    var id := c.active[0];
    c.(active := c.active[1..], deposits := Without(c.deposits, id),
       proposals := c.proposals[id := c.proposals[id].(status := if verdict.passes then Passed else Rejected)])
  }

  lemma SubmissionTail(p: map<int, Proposal>, r: map<int, Proposal>, queue: seq<int>)
    requires queue != [] && BySubmission(p, queue)
    requires forall id :: id in queue && id != queue[0] ==> SubmitOf(r, id) == SubmitOf(p, id)
    ensures BySubmission(r, queue[1..])
    ensures forall id :: id in queue[1..] <==> id in queue && id != queue[0]
  {
    hide SubmitOf;
    assert forall i :: 0 <= i < |queue[1..]| ==> queue[1..][i] == queue[i + 1] && queue[i + 1] in queue && queue[i + 1] != queue[0];
  }

  lemma ExpiryTail(p: map<int, Proposal>, r: map<int, Proposal>, queue: seq<int>)
    requires queue != [] && ByExpiry(p, queue)
    requires forall id :: id in queue && id != queue[0] ==> ExpiryOf(r, id) == ExpiryOf(p, id)
    ensures ByExpiry(r, queue[1..])
    ensures forall id :: id in queue[1..] <==> id in queue && id != queue[0]
  {
    hide ExpiryOf;
    assert forall i :: 0 <= i < |queue[1..]| ==> queue[1..][i] == queue[i + 1] && queue[i + 1] in queue && queue[i + 1] != queue[0];
  }

  lemma SubmissionSame(p: map<int, Proposal>, r: map<int, Proposal>, queue: seq<int>)
    requires BySubmission(p, queue) && forall id :: id in queue ==> SubmitOf(r, id) == SubmitOf(p, id)
    ensures BySubmission(r, queue)
  {
    hide SubmitOf;
    assert forall i :: 0 <= i < |queue| ==> queue[i] in queue;
  }

  lemma ExpirySame(p: map<int, Proposal>, r: map<int, Proposal>, queue: seq<int>)
    requires ByExpiry(p, queue) && forall id :: id in queue ==> ExpiryOf(r, id) == ExpiryOf(p, id)
    ensures ByExpiry(r, queue)
  {
    hide ExpiryOf;
    assert forall i :: 0 <= i < |queue| ==> queue[i] in queue;
  }

  lemma PopInactiveOrderly(c: Chain, now: int)
    requires Orderly(c, now) && c.inactive != []
    ensures c.inactive[0] in c.proposals
    ensures Orderly(PopInactive(c), now) && Moves(c, PopInactive(c))
  {
    assert c.inactive[0] in c.inactive;
    var r := PopInactive(c);
    SubmissionTail(c.proposals, r.proposals, c.inactive);
    ExpirySame(c.proposals, r.proposals, c.active);
    hide BySubmission, ByExpiry, Without;
  }

  lemma PopActiveOrderly(c: Chain, now: int, verdict: Verdict)
    requires Orderly(c, now) && c.active != []
    ensures c.active[0] in c.proposals
    ensures Orderly(PopActive(c, verdict), now) && Moves(c, PopActive(c, verdict))
  {
    assert c.active[0] in c.active;
    var r := PopActive(c, verdict);
    ExpiryTail(c.proposals, r.proposals, c.active);
    SubmissionSame(c.proposals, r.proposals, c.inactive);
    hide BySubmission, ByExpiry, Without;
  }

  /** Once the loop over the inactive queue stops, no deposit period is overdue. */
  lemma InactiveInTime(c: Chain, now: int, maxDeposit: int, id: int)
    requires Orderly(c, now) && !ShouldPopInactive(c, now, maxDeposit)
    requires id in c.proposals && c.proposals[id].status == DepositPeriod
    ensures now < c.proposals[id].submitTime + maxDeposit
  {
    assert id in c.inactive;
    var k :| 0 <= k < |c.inactive| && c.inactive[k] == id;
    assert c.inactive[0] in c.inactive;
    assert SubmitOf(c.proposals, c.inactive[0]) <= SubmitOf(c.proposals, id);
  }

  /** Once the loop over the active queue stops, no voting period is overdue. */
  lemma ActiveInTime(c: Chain, now: int, id: int)
    requires Orderly(c, now) && !ShouldPopActive(c, now)
    requires id in c.proposals && c.proposals[id].status == VotingPeriod
    ensures now < c.proposals[id].votingStart + c.proposals[id].votingPeriod
  {
    assert id in c.active;
    var k :| 0 <= k < |c.active| && c.active[k] == id;
    assert c.active[0] in c.active;
    assert ExpiryOf(c.proposals, c.active[0]) <= ExpiryOf(c.proposals, id);
  }

  /** The deposit period, or the voting period, is over. */
  predicate DepositOver(p: Proposal, now: int, maxDeposit: int)
  {
    p.status == DepositPeriod && now >= p.submitTime + maxDeposit
  }

  predicate VoteOver(p: Proposal, now: int)
  {
    p.status == VotingPeriod && now >= p.votingStart + p.votingPeriod
  }

  /** No open proposal has run out of time. */
  ghost predicate DepositsInTime(c: Chain, now: int, maxDeposit: int)
  {
    forall id :: id in c.proposals && c.proposals[id].status == DepositPeriod ==> now < c.proposals[id].submitTime + maxDeposit
  }

  ghost predicate VotesInTime(c: Chain, now: int)
  {
    forall id :: id in c.proposals && c.proposals[id].status == VotingPeriod ==>
      now < c.proposals[id].votingStart + c.proposals[id].votingPeriod
  }

  lemma PopActiveInTime(c: Chain, now: int, maxDeposit: int, verdict: Verdict)
    requires DepositsInTime(c, now, maxDeposit) && c.active != [] && c.active[0] in c.proposals
    ensures DepositsInTime(PopActive(c, verdict), now, maxDeposit)
  {
  }

  lemma LaterOrderly(c: Chain, before: int, now: int)
    requires Orderly(c, before) && before <= now
    ensures Orderly(c, now)
  {
  }

  lemma OrderlyNumbers(c: Chain, now: int)
    requires Orderly(c, now)
    ensures forall id :: id in c.proposals ==> id < c.nextId
    ensures c.inactive != [] ==> c.inactive[0] in c.proposals
    ensures c.active != [] ==> c.active[0] in c.proposals && c.proposals[c.active[0]].status == VotingPeriod
  {
    if c.inactive != [] {
      assert c.inactive[0] in c.inactive;
    }
    if c.active != [] {
      assert c.active[0] in c.active;
    }
  }

  lemma ProgressRefl(c: Chain)
    ensures Progress(c, c)
  {
  }

  /** One more step is progress from the start. */
  lemma ProgressStep(a: Chain, b: Chain, c: Chain, now: int)
    requires Progress(a, b) && Orderly(b, now) && Moves(b, c)
    ensures Progress(a, c)
  {
    OrderlyNumbers(b, now);
    MovesIsProgress(b, c);
    ProgressTransitive(a, b, c);
  }

  // ---------------------------------------------------------------- what settling comes to

  function Find(proposals: map<int, Proposal>, id: int): Option<Proposal>
  {
    if id in proposals then Some(proposals[id]) else None
  }

  /** What becomes of one proposal: an overdue deposit period ends it, an overdue vote is decided
      by the tally, and otherwise it stays as it is. */
  function SettledAs(p: Proposal, now: int, maxDeposit: int, verdict: Option<Verdict>): Option<Proposal>
  {
    if p.status == DepositPeriod && now >= p.submitTime + maxDeposit then None
    else if p.status == VotingPeriod && now >= Expiry(p) && verdict.Some? then
      Some(p.(status := if verdict.value.passes then Passed else Rejected))
    else Some(p)
  }

  /** On the way, every proposal is as it was or as it will be. */
  ghost predicate Settling(a: Chain, b: Chain, now: int, maxDeposit: int, tally: int -> Option<Verdict>)
  {
    forall id :: Find(b.proposals, id) == Find(a.proposals, id)
                 || (id in a.proposals && Find(b.proposals, id) == SettledAs(a.proposals[id], now, maxDeposit, tally(id)))
  }

  ghost predicate Settled(a: Chain, b: Chain, now: int, maxDeposit: int, tally: int -> Option<Verdict>)
  {
    forall id :: Find(b.proposals, id)
                 == if id in a.proposals then SettledAs(a.proposals[id], now, maxDeposit, tally(id)) else None
  }

  lemma SettlingRefl(a: Chain, now: int, maxDeposit: int, tally: int -> Option<Verdict>)
    ensures Settling(a, a, now, maxDeposit, tally)
  {
  }

  lemma PopInactiveSettles(a: Chain, c: Chain, now: int, maxDeposit: int, tally: int -> Option<Verdict>)
    requires Settling(a, c, now, maxDeposit, tally) && ShouldPopInactive(c, now, maxDeposit)
    ensures Settling(a, PopInactive(c), now, maxDeposit, tally)
  {
    var r, first := PopInactive(c), c.inactive[0];
    forall id
      ensures Find(r.proposals, id) == Find(a.proposals, id)
              || (id in a.proposals && Find(r.proposals, id) == SettledAs(a.proposals[id], now, maxDeposit, tally(id)))
    {
      assert id != first ==> Find(r.proposals, id) == Find(c.proposals, id);
    }
  }

  lemma PopActiveSettles(a: Chain, c: Chain, now: int, maxDeposit: int, tally: int -> Option<Verdict>)
    requires Settling(a, c, now, maxDeposit, tally) && ShouldPopActive(c, now) && c.proposals[c.active[0]].status == VotingPeriod
    requires tally(c.active[0]).Some?
    ensures Settling(a, PopActive(c, tally(c.active[0]).value), now, maxDeposit, tally)
  {
    var first := c.active[0];
    var r := PopActive(c, tally(first).value);
    forall id
      ensures Find(r.proposals, id) == Find(a.proposals, id)
              || (id in a.proposals && Find(r.proposals, id) == SettledAs(a.proposals[id], now, maxDeposit, tally(id)))
    {
      assert id != first ==> Find(r.proposals, id) == Find(c.proposals, id);
    }
  }

  /** No vote that has to be decided now has a tally that panics. */
  ghost predicate Decidable(c: Chain, now: int, tally: int -> Option<Verdict>)
  {
    forall id :: id in c.proposals && VoteOver(c.proposals[id], now) ==> tally(id).Some?
  }

  lemma Undecidable(a: Chain, c: Chain, now: int, maxDeposit: int, tally: int -> Option<Verdict>)
    requires Settling(a, c, now, maxDeposit, tally) && ShouldPopActive(c, now) && c.proposals[c.active[0]].status == VotingPeriod
    requires tally(c.active[0]).None?
    ensures !Decidable(a, now, tally)
  {
    var id := c.active[0];
    assert Find(c.proposals, id) == Some(c.proposals[id]);
    assert id in a.proposals && a.proposals[id] == c.proposals[id];
  }

  /** Once nothing is overdue, every proposal is as it will be. */
  lemma SettlingEnds(a: Chain, b: Chain, now: int, maxDeposit: int, tally: int -> Option<Verdict>)
    requires Settling(a, b, now, maxDeposit, tally) && DepositsInTime(b, now, maxDeposit) && VotesInTime(b, now)
    ensures Settled(a, b, now, maxDeposit, tally) && Decidable(a, now, tally)
  {
    forall id | id in a.proposals && VoteOver(a.proposals[id], now)
      ensures tally(id).Some?
    {
      assert Find(b.proposals, id) == Find(a.proposals, id) || Find(b.proposals, id) == SettledAs(a.proposals[id], now, maxDeposit, tally(id));
    }
    forall id
      ensures Find(b.proposals, id) == if id in a.proposals then SettledAs(a.proposals[id], now, maxDeposit, tally(id)) else None
    {
    }
  }

  /** Nothing else: a proposal whose deposit period is over is gone, one whose vote is over is passed or
      rejected as its tally says, every other is as it was, and none is new. */
  ghost predicate Decided(a: Chain, b: Chain, now: int, maxDeposit: int, tally: int -> Option<Verdict>)
  {
    && (forall id :: id in b.proposals ==> id in a.proposals)
    && (forall id :: id in a.proposals ==>
          var p := a.proposals[id];
          if DepositOver(p, now, maxDeposit) then id !in b.proposals
          else && id in b.proposals
               && if VoteOver(p, now)
                  then tally(id).Some? && b.proposals[id] == p.(status := if tally(id).value.passes then Passed else Rejected)
                  else b.proposals[id] == p)
  }

  lemma SettledDecides(a: Chain, b: Chain, now: int, maxDeposit: int, tally: int -> Option<Verdict>)
    requires Settled(a, b, now, maxDeposit, tally) && Decidable(a, now, tally)
    ensures Decided(a, b, now, maxDeposit, tally)
  {
    forall id
      ensures Find(b.proposals, id) == if id in a.proposals then SettledAs(a.proposals[id], now, maxDeposit, tally(id)) else None
    {
    }
  }

  // ---------------------------------------------------------------- whose records go where

  /** The records of proposals that are as they were. */
  ghost predicate Follows(a: Chain, b: Chain)
  {
    b.deposits == map k | k in a.deposits && Find(b.proposals, k.id) == Find(a.proposals, k.id) :: a.deposits[k]
  }

  lemma FollowsRefl(a: Chain)
    ensures Follows(a, a)
  {
  }

  lemma PopInactiveFollows(a: Chain, c: Chain, now: int, maxDeposit: int, tally: int -> Option<Verdict>)
    requires Follows(a, c) && Settling(a, c, now, maxDeposit, tally) && ShouldPopInactive(c, now, maxDeposit)
    ensures Follows(a, PopInactive(c))
    ensures c.proposals[c.inactive[0]].status == DepositPeriod ==>
              c.inactive[0] in a.proposals && a.proposals[c.inactive[0]] == c.proposals[c.inactive[0]]
  {
    var r, first := PopInactive(c), c.inactive[0];
    assert Find(c.proposals, first) == Some(c.proposals[first]);
    assert forall id :: id != first ==> Find(r.proposals, id) == Find(c.proposals, id);
  }

  lemma PopActiveFollows(a: Chain, c: Chain, now: int, maxDeposit: int, tally: int -> Option<Verdict>, verdict: Verdict)
    requires Follows(a, c) && Settling(a, c, now, maxDeposit, tally) && ShouldPopActive(c, now) && c.proposals[c.active[0]].status == VotingPeriod
    ensures Follows(a, PopActive(c, verdict))
    ensures c.active[0] in a.proposals && a.proposals[c.active[0]] == c.proposals[c.active[0]] && VoteOver(c.proposals[c.active[0]], now)
  {
    var r, first := PopActive(c, verdict), c.active[0];
    assert Find(c.proposals, first) == Some(c.proposals[first]);
    assert forall id :: id != first ==> Find(r.proposals, id) == Find(c.proposals, id);
  }

  /** The depositors of a proposal get their deposits back: its vote is over and it passed, or the tally says so. */
  predicate Returns(c: Chain, now: int, tally: int -> Option<Verdict>, id: int)
  {
    && id in c.proposals && VoteOver(c.proposals[id], now)
    && tally(id).Some? && (tally(id).value.passes || tally(id).value.refund)
  }

  /** They lose them: it did not get its deposit in time, or it was rejected and the tally does not say otherwise. */
  predicate Forfeits(c: Chain, now: int, maxDeposit: int, tally: int -> Option<Verdict>, id: int)
  {
    && id in c.proposals
    && (|| DepositOver(c.proposals[id], now, maxDeposit)
        || (VoteOver(c.proposals[id], now) && tally(id).Some? && !tally(id).value.passes && !tally(id).value.refund))
  }

  function ReturnedOf(c: Chain, now: int, tally: int -> Option<Verdict>): Deposits
  {
    map k | k in c.deposits && Returns(c, now, tally, k.id) :: c.deposits[k]
  }

  function ForfeitedOf(c: Chain, now: int, maxDeposit: int, tally: int -> Option<Verdict>): Deposits
  {
    map k | k in c.deposits && Forfeits(c, now, maxDeposit, tally, k.id) :: c.deposits[k]
  }

  /** All other records. */
  function KeptOf(c: Chain, now: int, maxDeposit: int, tally: int -> Option<Verdict>): Deposits
  {
    map k | k in c.deposits && !Returns(c, now, tally, k.id) && !Forfeits(c, now, maxDeposit, tally, k.id) :: c.deposits[k]
  }

  /** The records of some that are no longer there. */
  function Gone(some: Deposits, left: Deposits): Deposits
  {
    map k | k in some && k !in left :: some[k]
  }

  /** Once all is decided, the records that are gone are those returned and those forfeited. */
  lemma AllGone(a: Chain, b: Chain, now: int, maxDeposit: int, tally: int -> Option<Verdict>)
    requires Follows(a, b) && Decided(a, b, now, maxDeposit, tally)
    requires forall k :: k in a.deposits ==> k.id in a.proposals
    ensures b.deposits == KeptOf(a, now, maxDeposit, tally)
    ensures Gone(ReturnedOf(a, now, tally), b.deposits) == ReturnedOf(a, now, tally)
    ensures Gone(ForfeitedOf(a, now, maxDeposit, tally), b.deposits) == ForfeitedOf(a, now, maxDeposit, tally)
  {
    forall k | k in a.deposits
      ensures k in b.deposits <==> !Returns(a, now, tally, k.id) && !Forfeits(a, now, maxDeposit, tally, k.id)
    {
      assert k.id in a.proposals;
    }
  }

  /** Closing one proposal adds its records to those gone, if they are among `part`. */
  lemma GoneMore(all: Deposits, cur: Deposits, part: Deposits, id: int, member: bool)
    requires forall k :: k in part ==> k in all && part[k] == all[k]
    requires forall k :: k in cur ==> k in all && cur[k] == all[k]
    requires forall k :: k in all && k.id == id ==> k in cur && (k in part <==> member)
    ensures Gone(part, Without(cur, id)) == if member then Gone(part, cur) + Only(cur, id) else Gone(part, cur)
    ensures forall k :: k in Gone(part, cur) ==> k.id != id
  {
  }
}
