/** server/concurrent/async_local_client.go: several clients of one application
    share a wait group and four locks. Every API call and every worker is a
    thread; a run interleaves their steps in any order. */
module AsyncClient {
  import opened Bytes
  import MapSum

  datatype Kind = CheckTx | DeliverTx | Block | Exclusive | Shared

  /** Where a call stands; the names say which locks it holds or what it has done.
      CheckTx:   Begin HasLow HasLowMid HasAll MidFree Queued Counted CommitFree LowFree Returned
      DeliverTx: Begin Queued Counted Returned
      Block (Commit and EndBlock): Begin HasMid HasBoth Waiting Drained Running Ran Returned
      Exclusive (BeginBlock, InitChain, ReCheckTx, the Sync transactions, ...): Begin Running Returned
      Shared (Query, Info): Begin Reading Returned */
  datatype Pc =
    | Begin | HasLow | HasLowMid | HasAll | MidFree | Queued | Counted | CommitFree | LowFree
    | HasMid | HasBoth | Waiting | Drained | Running | Ran | Reading | Returned

  datatype Thread = Thread(kind: Kind, client: nat, pc: Pc)

  /** The check or the deliver queue of a client, with its worker. */
  datatype QueueId = QueueId(client: nat, deliver: bool)

  datatype Worker = Idle | Took(i: nat) | Ready(i: nat) | Critical(i: nat) | Responded(i: nat)

  /** `waiting` is the channel. What was ever put into it and what was ever
      completed are kept only to state the order. */
  datatype Line = Line(waiting: seq<nat>, worker: Worker, submitted: seq<nat>, completed: seq<nat>)

  datatype Holder = Caller(t: nat) | Server(q: QueueId)

  /** A work item has the number of the call that made it; `open` are the items
      whose mutex has been released by the pool. */
  datatype Sys = Sys(threads: map<nat, Thread>, low: Option<nat>, mid: Option<nat>, commit: Option<nat>, wg: int,
                     writer: Option<Holder>, readers: set<nat>, lines: map<QueueId, Line>, open: set<nat>)

  const CAPACITY: nat := 32

  /** How many pre-checks the pool of a queue holds: its workers and its own channel. */
  function PoolSize(q: QueueId): nat
  {
    if q.deliver then 16 + 16 else 8 + 8
  }

  datatype Event =
    | Call(t: nat, kind: Kind, client: nat)   // an API call begins
    | Move(t: nat)                            // a call takes its next step
    | Work(q: QueueId)                        // a worker takes its next step
    | Task(t: nat)                            // the pool finishes the pre-check of an item

  predicate IsItem(kind: Kind)
  {
    kind == CheckTx || kind == DeliverTx
  }

  function QueueOf(c: Thread): QueueId
  {
    QueueId(c.client, c.kind == DeliverTx)
  }

  predicate Free(s: Sys)
  {
    s.writer == None && s.readers == {}
  }

  // ---------------------------------------------------------------- steps of calls

  /** The call's next step need not wait. */
  predicate CanMove(s: Sys, t: nat)
  {
    && t in s.threads
    && var c := s.threads[t];
       match c.kind
       case CheckTx => CanCheck(s, c)
       case DeliverTx => CanDeliver(s, c)
       case Block => CanBlock(s, c)
       case Exclusive => c.pc.Running? || (c.pc.Begin? && Free(s))
       case Shared => c.pc.Reading? || (c.pc.Begin? && s.writer == None)
  }

  predicate CanCheck(s: Sys, c: Thread)
  {
    match c.pc
    case Begin => s.low == None
    case HasLow => s.mid == None
    case HasLowMid => s.commit == None
    case MidFree => HasRoom(s, QueueOf(c))
    case LowFree => PoolRoom(s, QueueOf(c))
    case _ => c.pc.HasAll? || c.pc.Queued? || c.pc.Counted? || c.pc.CommitFree?
  }

  predicate CanDeliver(s: Sys, c: Thread)
  {
    match c.pc
    case Begin => HasRoom(s, QueueOf(c))
    case Counted => PoolRoom(s, QueueOf(c))
    case _ => c.pc.Queued?
  }

  predicate CanBlock(s: Sys, c: Thread)
  {
    match c.pc
    case Begin => s.mid == None
    case HasMid => s.commit == None
    case Waiting => s.wg == 0
    case Drained => Free(s)
    case _ => c.pc.HasBoth? || c.pc.Running? || c.pc.Ran?
  }

  predicate HasRoom(s: Sys, q: QueueId)
  {
    q in s.lines && |s.lines[q].waiting| < CAPACITY
  }

  /** The items whose pre-check is scheduled and not finished. */
  function Unfinished(s: Sys, q: QueueId): set<nat>
  {
    set t | t in s.threads && IsItem(s.threads[t].kind) && QueueOf(s.threads[t]) == q && s.threads[t].pc == Returned && t !in s.open
  }

  /** Schedule need not wait. */
  predicate PoolRoom(s: Sys, q: QueueId)
  {
    |Unfinished(s, q)| < PoolSize(q)
  }

  function At(s: Sys, t: nat, pc: Pc): Sys
    requires t in s.threads
  {
    s.(threads := s.threads[t := s.threads[t].(pc := pc)])
  }

  function Enqueue(s: Sys, q: QueueId, t: nat): Sys
  {
    if q !in s.lines then s
    else
      var l := s.lines[q];
      s.(lines := s.lines[q := l.(waiting := l.waiting + [t], submitted := l.submitted + [t])])
  }

  function DoMove(s: Sys, t: nat): Sys
    requires t in s.threads
  {
    match s.threads[t].kind
    case CheckTx => DoCheck(s, t)
    case DeliverTx => DoDeliver(s, t)
    case Block => DoBlock(s, t)
    case Exclusive => DoExclusive(s, t)
    case Shared => DoShared(s, t)
  }

  function DoCheck(s: Sys, t: nat): Sys
    requires t in s.threads
  {
    match s.threads[t].pc
    case Begin => At(s, t, HasLow).(low := Some(t))
    case HasLow => At(s, t, HasLowMid).(mid := Some(t))
    case HasLowMid => At(s, t, HasAll).(commit := Some(t))
    case HasAll => At(s, t, MidFree).(mid := None)
    case MidFree => Enqueue(At(s, t, Queued), QueueOf(s.threads[t]), t)
    case Queued => At(s, t, Counted).(wg := s.wg + 1)
    case Counted => At(s, t, CommitFree).(commit := None)
    case CommitFree => At(s, t, LowFree).(low := None)
    case LowFree => At(s, t, Returned)
    case _ => s
  }

  function DoDeliver(s: Sys, t: nat): Sys
    requires t in s.threads
  {
    match s.threads[t].pc
    case Begin => Enqueue(At(s, t, Queued), QueueOf(s.threads[t]), t)
    case Queued => At(s, t, Counted).(wg := s.wg + 1)
    case Counted => At(s, t, Returned)
    case _ => s
  }

  function DoBlock(s: Sys, t: nat): Sys
    requires t in s.threads
  {
    match s.threads[t].pc
    case Begin => At(s, t, HasMid).(mid := Some(t))
    case HasMid => At(s, t, HasBoth).(commit := Some(t))
    case HasBoth => At(s, t, Waiting).(mid := None)
    case Waiting => At(s, t, Drained)
    case Drained => At(s, t, Running).(writer := Some(Caller(t)))
    case Running => At(s, t, Ran).(writer := None)
    case Ran => At(s, t, Returned).(commit := None)
    case _ => s
  }

  function DoExclusive(s: Sys, t: nat): Sys
    requires t in s.threads
  {
    match s.threads[t].pc
    case Begin => At(s, t, Running).(writer := Some(Caller(t)))
    case Running => At(s, t, Returned).(writer := None)
    case _ => s
  }

  function DoShared(s: Sys, t: nat): Sys
    requires t in s.threads
  {
    match s.threads[t].pc
    case Begin => At(s, t, Reading).(readers := s.readers + {t})
    case Reading => At(s, t, Returned).(readers := s.readers - {t})
    case _ => s
  }

  // ---------------------------------------------------------------- steps of workers

  predicate CanWork(s: Sys, q: QueueId)
  {
    && q in s.lines
    && match s.lines[q].worker
       case Idle => s.lines[q].waiting != []
       case Took(i) => i in s.open
       case Ready(i) => Free(s)
       case _ => true
  }

  function DoWork(s: Sys, q: QueueId): Sys
    requires CanWork(s, q)
  {
    var l := s.lines[q];
    match l.worker
    case Idle => s.(lines := s.lines[q := l.(worker := Took(l.waiting[0]), waiting := l.waiting[1..])])
    case Took(i) => s.(lines := s.lines[q := l.(worker := Ready(i))])
    case Ready(i) => s.(lines := s.lines[q := l.(worker := Critical(i))], writer := Some(Server(q)))
    case Critical(i) =>
      s.(lines := s.lines[q := l.(worker := Responded(i), completed := l.completed + [i])], wg := s.wg - 1)
    case Responded(i) => s.(lines := s.lines[q := l.(worker := Idle)], writer := None)
  }

  // ---------------------------------------------------------------- runs

  predicate Active(c: Thread, kind: Kind)
  {
    c.kind == kind && c.pc != Returned
  }

  /** What may happen next. The application's caller never lets a DeliverTx overlap
      a Commit or EndBlock. */
  predicate Enabled(s: Sys, e: Event)
  {
    match e
    case Call(t, kind, client) =>
      && t !in s.threads && QueueId(client, false) in s.lines && QueueId(client, true) in s.lines
      && (kind == DeliverTx ==> forall u :: u in s.threads ==> !Active(s.threads[u], Block))
      && (kind == Block ==> forall u :: u in s.threads ==> !Active(s.threads[u], DeliverTx))
    case Move(t) => CanMove(s, t)
    case Work(q) => CanWork(s, q)
    case Task(t) => t in s.threads && IsItem(s.threads[t].kind) && s.threads[t].pc == Returned && t !in s.open
  }

  function Do(s: Sys, e: Event): Sys
    requires Enabled(s, e)
  {
    match e
    case Call(t, kind, client) => s.(threads := s.threads[t := Thread(kind, client, Begin)])
    case Move(t) => DoMove(s, t)
    case Work(q) => DoWork(s, q)
    case Task(t) => s.(open := s.open + {t})
  }

  function Initial(clients: set<nat>): Sys
  {
    var lines := map c: nat, d: bool | c in clients && d in {false, true} :: QueueId(c, d) := Line([], Idle, [], []);
    Sys(map[], None, None, None, 0, None, {}, lines, {})
  }

  predicate Legal(s: Sys, es: seq<Event>)
    decreases |es|
  {
    es != [] ==> Enabled(s, es[0]) && Legal(Do(s, es[0]), es[1..])
  }

  function Final(s: Sys, es: seq<Event>): Sys
    requires Legal(s, es)
    decreases |es|
  {
    if es == [] then s else Final(Do(s, es[0]), es[1..])
  }

  // ---------------------------------------------------------------- the invariant

  predicate Fits(kind: Kind, pc: Pc)
  {
    match kind
    case CheckTx => (pc.Begin? || pc.HasLow? || pc.HasLowMid? || pc.HasAll? || pc.MidFree? || pc.Queued? || pc.Counted? || pc.CommitFree? || pc.LowFree? || pc.Returned?)
    case DeliverTx => (pc.Begin? || pc.Queued? || pc.Counted? || pc.Returned?)
    case Block => (pc.Begin? || pc.HasMid? || pc.HasBoth? || pc.Waiting? || pc.Drained? || pc.Running? || pc.Ran? || pc.Returned?)
    case Exclusive => (pc.Begin? || pc.Running? || pc.Returned?)
    case Shared => (pc.Begin? || pc.Reading? || pc.Returned?)
  }

  predicate HoldsLow(c: Thread)
  {
    (c.pc.HasLow? || c.pc.HasLowMid? || c.pc.HasAll? || c.pc.MidFree? || c.pc.CommitFree?) || (c.kind == CheckTx && (c.pc.Queued? || c.pc.Counted?))
  }

  predicate HoldsMid(c: Thread)
  {
    (c.pc.HasLowMid? || c.pc.HasAll? || c.pc.HasMid? || c.pc.HasBoth?)
  }

  predicate HoldsCommit(c: Thread)
  {
    || (c.pc.HasAll? || c.pc.MidFree? || c.pc.HasBoth? || c.pc.Waiting? || c.pc.Drained? || c.pc.Ran?)
    || (c.kind == CheckTx && (c.pc.Queued? || c.pc.Counted?))
    || (c.kind == Block && c.pc == Running)
  }

  /** Every call is at a place of its own kind, on a known client. */
  predicate Shaped(s: Sys)
  {
    forall t :: t in s.threads ==>
      && Fits(s.threads[t].kind, s.threads[t].pc)
      && QueueId(s.threads[t].client, false) in s.lines && QueueId(s.threads[t].client, true) in s.lines
  }

  predicate LowLock(s: Sys)
  {
    && (forall t :: t in s.threads ==> (HoldsLow(s.threads[t]) <==> s.low == Some(t)))
    && (s.low.Some? ==> s.low.value in s.threads)
  }

  predicate MidLock(s: Sys)
  {
    && (forall t :: t in s.threads ==> (HoldsMid(s.threads[t]) <==> s.mid == Some(t)))
    && (s.mid.Some? ==> s.mid.value in s.threads)
  }

  predicate CommitLock(s: Sys)
  {
    && (forall t :: t in s.threads ==> (HoldsCommit(s.threads[t]) <==> s.commit == Some(t)))
    && (s.commit.Some? ==> s.commit.value in s.threads)
  }

  /** Each mutex is held by exactly the call whose place says so. */
  predicate Locks(s: Sys)
  {
    LowLock(s) && MidLock(s) && CommitLock(s)
  }

  predicate InCritical(w: Worker)
  {
    w.Critical? || w.Responded?
  }

  ghost predicate RwLock(s: Sys)
  {
    && (forall t :: t in s.threads ==> (s.threads[t].pc == Running <==> s.writer == Some(Caller(t))))
    && (forall q :: q in s.lines ==> (InCritical(s.lines[q].worker) <==> s.writer == Some(Server(q))))
    && (forall t :: t in s.threads ==> (s.threads[t].pc == Reading <==> t in s.readers))
    && (s.writer.Some? ==> s.readers == {})
    && (forall t :: s.writer == Some(Caller(t)) ==> t in s.threads)
    && (forall q :: s.writer == Some(Server(q)) ==> q in s.lines)
    && (forall t :: t in s.readers ==> t in s.threads)
  }

  /** The item the worker has taken and not completed. */
  function Held(w: Worker): seq<nat>
  {
    match w
    case Took(i) => [i]
    case Ready(i) => [i]
    case Critical(i) => [i]
    case _ => []
  }

  predicate Distinct(xs: seq<nat>)
  {
    forall i, j :: 0 <= i < j < |xs| ==> xs[i] != xs[j]
  }

  predicate WasQueued(c: Thread)
  {
    (c.pc.Queued? || c.pc.Counted? || c.pc.CommitFree? || c.pc.LowFree?) || (IsItem(c.kind) && c.pc == Returned)
  }

  predicate WasCounted(c: Thread)
  {
    (c.pc.Counted? || c.pc.CommitFree? || c.pc.LowFree?) || (IsItem(c.kind) && c.pc == Returned)
  }

  /** Items are completed in the order in which they were submitted. */
  predicate InOrder(l: Line)
  {
    l.submitted == l.completed + Held(l.worker) + l.waiting && Distinct(l.submitted)
  }

  predicate Belongs(s: Sys, q: QueueId, t: nat)
  {
    t in s.threads && QueueOf(s.threads[t]) == q && WasQueued(s.threads[t])
  }

  ghost predicate LineOf(s: Sys, q: QueueId)
    requires q in s.lines
  {
    InOrder(s.lines[q]) && forall t :: t in s.lines[q].submitted <==> Belongs(s, q, t)
  }

  ghost predicate Lines(s: Sys)
  {
    forall q :: q in s.lines ==> LineOf(s, q)
  }

  /** Only the pool opens an item, after the call that made it has counted it. */
  ghost predicate Opened(s: Sys)
  {
    && (forall t :: t in s.open ==> t in s.threads && IsItem(s.threads[t].kind) && s.threads[t].pc == Returned)
    && (forall q :: q in s.lines && (s.lines[q].worker.Ready? || s.lines[q].worker.Critical?) ==> s.lines[q].worker.i in s.open)
    && (forall q, t :: q in s.lines && t in s.lines[q].completed ==> t in s.open)
  }

  predicate Completed(s: Sys, t: nat)
    requires t in s.threads && QueueOf(s.threads[t]) in s.lines
  {
    t in s.lines[QueueOf(s.threads[t])].completed
  }

  /** The items that have been counted and not yet completed. */
  function Outstanding(s: Sys): set<nat>
    requires Shaped(s)
  {
    set t | t in s.threads && WasCounted(s.threads[t]) && !Completed(s, t)
  }

  /** DeliverTx calls and Commit or EndBlock calls do not overlap. */
  predicate Apart(s: Sys)
  {
    forall t, u :: t in s.threads && u in s.threads ==> !(Active(s.threads[t], DeliverTx) && Active(s.threads[u], Block))
  }

  predicate PastWait(c: Thread)
  {
    c.kind == Block && (c.pc.Drained? || c.pc.Running?)
  }

  ghost predicate Inv(s: Sys)
  {
    && Shaped(s) && Locks(s) && RwLock(s) && Lines(s) && Opened(s) && Apart(s)
    && s.wg == |Outstanding(s)|
    && (forall t :: t in s.threads && PastWait(s.threads[t]) ==> s.wg == 0)
  }

  // ---------------------------------------------------------------- every step keeps it

  /** What one step of a call does to the mutexes, told by what the call holds before and after. */
  predicate Locking(s: Sys, t: nat, c: Thread, d: Thread, r: Sys)
  {
    && Fits(d.kind, d.pc) && d.kind == c.kind && d.client == c.client && c.pc != Returned
    && (HoldsLow(d) && !HoldsLow(c) ==> s.low == None)
    && (HoldsMid(d) && !HoldsMid(c) ==> s.mid == None)
    && (HoldsCommit(d) && !HoldsCommit(c) ==> s.commit == None)
    && r.low == (if HoldsLow(d) == HoldsLow(c) then s.low else if HoldsLow(d) then Some(t) else None)
    && r.mid == (if HoldsMid(d) == HoldsMid(c) then s.mid else if HoldsMid(d) then Some(t) else None)
    && r.commit == (if HoldsCommit(d) == HoldsCommit(c) then s.commit else if HoldsCommit(d) then Some(t) else None)
  }

  predicate RwLocking(s: Sys, t: nat, c: Thread, d: Thread, r: Sys)
  {
    && (d.pc == Running ==> Free(s))
    && (d.pc == Reading ==> s.writer == None)
    && r.writer == (if d.pc == Running then Some(Caller(t)) else if c.pc == Running then None else s.writer)
    && r.readers == (if d.pc == Reading then s.readers + {t} else if c.pc == Reading then s.readers - {t} else s.readers)
  }

  predicate Queueing(s: Sys, t: nat, c: Thread, d: Thread, r: Sys)
  {
    && (WasQueued(c) ==> WasQueued(d)) && (WasCounted(c) ==> WasCounted(d))
    && (WasQueued(d) && !WasQueued(c) ==> HasRoom(s, QueueOf(c)) && r.lines == Enqueue(s, QueueOf(c), t).lines && !WasCounted(d))
    && (WasQueued(d) == WasQueued(c) ==> r.lines == s.lines)
    && r.wg == s.wg + (if WasCounted(d) && !WasCounted(c) then 1 else 0)
    && (WasCounted(d) && !WasCounted(c) ==> (c.kind == CheckTx && HoldsCommit(c)) || c.kind == DeliverTx)
    && (PastWait(d) && !PastWait(c) ==> s.wg == 0)
    && (PastWait(d) ==> HoldsCommit(d))
  }

  predicate Effect(s: Sys, t: nat, c: Thread, d: Thread, r: Sys)
  {
    && r.threads == s.threads[t := d] && r.open == s.open
    && Locking(s, t, c, d, r) && RwLocking(s, t, c, d, r) && Queueing(s, t, c, d, r)
  }

  lemma DoCheckLocking(s: Sys, t: nat, c: Thread, d: Thread, r: Sys)
    requires CanMove(s, t) && c == s.threads[t] && c.kind == CheckTx && r == DoCheck(s, t)
    requires t in r.threads && d == r.threads[t]
    ensures Locking(s, t, c, d, r)
  {
    hide WasQueued, WasCounted;
  }

  lemma DoCheckRwLocking(s: Sys, t: nat, c: Thread, d: Thread, r: Sys)
    requires CanMove(s, t) && c == s.threads[t] && c.kind == CheckTx && r == DoCheck(s, t)
    requires t in r.threads && d == r.threads[t]
    ensures RwLocking(s, t, c, d, r)
  {
  }

  lemma DoCheckQueueing(s: Sys, t: nat, c: Thread, d: Thread, r: Sys)
    requires CanMove(s, t) && c == s.threads[t] && c.kind == CheckTx && r == DoCheck(s, t)
    requires t in r.threads && d == r.threads[t]
    ensures Queueing(s, t, c, d, r)
  {
    hide HoldsLow, HoldsMid, Fits;
  }

  lemma DoCheckEffect(s: Sys, t: nat, c: Thread, d: Thread, r: Sys)
    requires CanMove(s, t) && c == s.threads[t] && c.kind == CheckTx && r == DoCheck(s, t)
    requires t in r.threads && d == r.threads[t]
    ensures Effect(s, t, c, d, r)
  {
    assert r.threads == s.threads[t := d] && r.open == s.open;
    hide DoCheck, CanMove, Locking, RwLocking, Queueing;
    DoCheckLocking(s, t, c, d, r);
    DoCheckRwLocking(s, t, c, d, r);
    DoCheckQueueing(s, t, c, d, r);
  }

  lemma DoDeliverEffect(s: Sys, t: nat, c: Thread, d: Thread, r: Sys)
    requires CanMove(s, t) && c == s.threads[t] && c.kind == DeliverTx && r == DoDeliver(s, t)
    requires t in r.threads && d == r.threads[t]
    ensures Effect(s, t, c, d, r)
  {
  }

  lemma DoBlockLocking(s: Sys, t: nat, c: Thread, d: Thread, r: Sys)
    requires CanMove(s, t) && c == s.threads[t] && c.kind == Block && r == DoBlock(s, t)
    requires t in r.threads && d == r.threads[t]
    ensures Locking(s, t, c, d, r)
  {
    hide WasQueued, WasCounted;
  }

  lemma DoBlockRwLocking(s: Sys, t: nat, c: Thread, d: Thread, r: Sys)
    requires CanMove(s, t) && c == s.threads[t] && c.kind == Block && r == DoBlock(s, t)
    requires t in r.threads && d == r.threads[t]
    ensures RwLocking(s, t, c, d, r)
  {
  }

  lemma DoBlockQueueing(s: Sys, t: nat, c: Thread, d: Thread, r: Sys)
    requires CanMove(s, t) && c == s.threads[t] && c.kind == Block && r == DoBlock(s, t)
    requires t in r.threads && d == r.threads[t]
    ensures Queueing(s, t, c, d, r)
  {
    hide HoldsLow, HoldsMid, Fits;
  }

  lemma DoBlockEffect(s: Sys, t: nat, c: Thread, d: Thread, r: Sys)
    requires CanMove(s, t) && c == s.threads[t] && c.kind == Block && r == DoBlock(s, t)
    requires t in r.threads && d == r.threads[t]
    ensures Effect(s, t, c, d, r)
  {
    assert r.threads == s.threads[t := d] && r.open == s.open;
    hide DoBlock, CanMove, Locking, RwLocking, Queueing;
    DoBlockLocking(s, t, c, d, r);
    DoBlockRwLocking(s, t, c, d, r);
    DoBlockQueueing(s, t, c, d, r);
  }

  lemma DoExclusiveEffect(s: Sys, t: nat, c: Thread, d: Thread, r: Sys)
    requires CanMove(s, t) && c == s.threads[t] && c.kind == Exclusive && r == DoExclusive(s, t)
    requires t in r.threads && d == r.threads[t]
    ensures Effect(s, t, c, d, r)
  {
  }

  lemma DoSharedEffect(s: Sys, t: nat, c: Thread, d: Thread, r: Sys)
    requires CanMove(s, t) && c == s.threads[t] && c.kind == Shared && r == DoShared(s, t)
    requires t in r.threads && d == r.threads[t]
    ensures Effect(s, t, c, d, r)
  {
  }

  lemma MoveEffect(s: Sys, t: nat) returns (d: Thread)
    requires CanMove(s, t)
    ensures Effect(s, t, s.threads[t], d, DoMove(s, t))
  {
    var c, r := s.threads[t], DoMove(s, t);
    d := r.threads[t];
    hide Effect, DoCheck, DoDeliver, DoBlock, DoExclusive, DoShared;
    match c.kind
    case CheckTx => DoCheckEffect(s, t, c, d, r);
    case DeliverTx => DoDeliverEffect(s, t, c, d, r);
    case Block => DoBlockEffect(s, t, c, d, r);
    case Exclusive => DoExclusiveEffect(s, t, c, d, r);
    case Shared => DoSharedEffect(s, t, c, d, r);
  }

  lemma MoveKeepsShaped(s: Sys, t: nat, d: Thread, r: Sys)
    requires Shaped(s) && t in s.threads && Effect(s, t, s.threads[t], d, r)
    ensures Shaped(r)
  {
    hide HoldsLow, HoldsMid, HoldsCommit, WasQueued, WasCounted, PastWait, RwLocking;
  }

  lemma MoveKeepsLowLock(s: Sys, t: nat, d: Thread, r: Sys)
    requires LowLock(s) && t in s.threads && Effect(s, t, s.threads[t], d, r)
    ensures LowLock(r)
  {
    hide HoldsLow, HoldsMid, HoldsCommit, WasQueued, WasCounted, PastWait, RwLocking, Queueing, Fits;
  }

  lemma MoveKeepsMidLock(s: Sys, t: nat, d: Thread, r: Sys)
    requires MidLock(s) && t in s.threads && Effect(s, t, s.threads[t], d, r)
    ensures MidLock(r)
  {
    hide HoldsLow, HoldsMid, HoldsCommit, WasQueued, WasCounted, PastWait, RwLocking, Queueing, Fits;
  }

  lemma MoveKeepsCommitLock(s: Sys, t: nat, d: Thread, r: Sys)
    requires CommitLock(s) && t in s.threads && Effect(s, t, s.threads[t], d, r)
    ensures CommitLock(r)
  {
    hide HoldsLow, HoldsMid, HoldsCommit, WasQueued, WasCounted, PastWait, RwLocking, Queueing, Fits;
  }

  lemma MoveKeepsRwLock(s: Sys, t: nat, d: Thread, r: Sys)
    requires RwLock(s) && t in s.threads && Effect(s, t, s.threads[t], d, r)
    ensures RwLock(r)
  {
    hide HoldsLow, HoldsMid, HoldsCommit, WasQueued, WasCounted, Fits, PastWait, Locking, InCritical;
  }

  lemma MoveKeepsApart(s: Sys, t: nat, d: Thread, r: Sys)
    requires Apart(s) && t in s.threads && Effect(s, t, s.threads[t], d, r)
    ensures Apart(r)
  {
    hide HoldsLow, HoldsMid, HoldsCommit, Fits, PastWait, RwLocking, Queueing;
  }

  predicate NewlyQueued(c: Thread, d: Thread)
  {
    WasQueued(d) && !WasQueued(c)
  }

  /** A step of a call appends at most its own item to at most its own queue. */
  lemma LineAfter(s: Sys, t: nat, d: Thread, r: Sys, q: QueueId)
    requires t in s.threads && Effect(s, t, s.threads[t], d, r)
    ensures q in r.lines <==> q in s.lines
    ensures q in s.lines ==> r.lines[q].completed == s.lines[q].completed && r.lines[q].worker == s.lines[q].worker
    ensures q in s.lines && !(NewlyQueued(s.threads[t], d) && q == QueueOf(d)) ==> r.lines[q] == s.lines[q]
    ensures q in s.lines && NewlyQueued(s.threads[t], d) && q == QueueOf(d) ==>
              var l := s.lines[q];
              r.lines[q] == l.(waiting := l.waiting + [t], submitted := l.submitted + [t])
  {
    hide HoldsLow, HoldsMid, HoldsCommit, WasQueued, WasCounted, Fits, PastWait, RwLocking;
  }

  lemma BelongsAfter(s: Sys, t: nat, d: Thread, r: Sys, q: QueueId, u: nat)
    requires t in s.threads && Effect(s, t, s.threads[t], d, r)
    ensures Belongs(r, q, u) <==> Belongs(s, q, u) || (u == t && q == QueueOf(d) && NewlyQueued(s.threads[t], d))
  {
    hide HoldsLow, HoldsMid, HoldsCommit, WasQueued, WasCounted, Fits, PastWait, RwLocking, Enqueue;
  }

  lemma EnqueueInOrder(l: Line, t: nat)
    requires InOrder(l) && t !in l.submitted
    ensures InOrder(l.(waiting := l.waiting + [t], submitted := l.submitted + [t]))
  {
    Assoc(l.completed + Held(l.worker), l.waiting, [t]);
  }

  lemma MoveKeepsLines(s: Sys, t: nat, d: Thread, r: Sys)
    requires Lines(s) && t in s.threads && Effect(s, t, s.threads[t], d, r)
    ensures Lines(r)
  {
    hide Effect, InOrder, Belongs;
    forall q | q in r.lines
      ensures LineOf(r, q)
    {
      LineAfter(s, t, d, r, q);
      assert LineOf(s, q);
      forall u
        ensures u in r.lines[q].submitted <==> Belongs(r, q, u)
      {
        BelongsAfter(s, t, d, r, q, u);
      }
      if NewlyQueued(s.threads[t], d) && q == QueueOf(d) {
        NotYet(s, q, t);
        EnqueueInOrder(s.lines[q], t);
      }
    }
  }

  lemma NotYet(s: Sys, q: QueueId, t: nat)
    requires t in s.threads && !WasQueued(s.threads[t])
    ensures !Belongs(s, q, t)
  {
  }

  lemma MoveKeepsOpened(s: Sys, t: nat, d: Thread, r: Sys)
    requires Opened(s) && t in s.threads && Effect(s, t, s.threads[t], d, r)
    ensures Opened(r)
  {
    assert forall u :: u in r.open ==> u in r.threads && IsItem(r.threads[u].kind) && r.threads[u].pc == Returned;
    assert r.open == s.open;
    hide Effect;
    forall q | q in r.lines
      ensures r.lines[q].worker.Ready? || r.lines[q].worker.Critical? ==> r.lines[q].worker.i in r.open
      ensures forall u :: u in r.lines[q].completed ==> u in r.open
    {
      LineAfter(s, t, d, r, q);
    }
  }

  predicate NewlyCounted(c: Thread, d: Thread)
  {
    WasCounted(d) && !WasCounted(c)
  }

  lemma StillOutstanding(s: Sys, t: nat, d: Thread, r: Sys, u: nat)
    requires Shaped(s) && Opened(s) && t in s.threads && Effect(s, t, s.threads[t], d, r) && Shaped(r)
    ensures u in Outstanding(r) <==> u in Outstanding(s) || (u == t && NewlyCounted(s.threads[t], d))
  {
    if u in s.threads {
      LineAfter(s, t, d, r, QueueOf(s.threads[u]));
    }
  }

  lemma CountsOnce(s: Sys, t: nat, d: Thread, r: Sys)
    requires Shaped(s) && t in s.threads && Effect(s, t, s.threads[t], d, r)
    ensures r.wg == s.wg + (if NewlyCounted(s.threads[t], d) then 1 else 0)
    ensures NewlyCounted(s.threads[t], d) ==> t !in Outstanding(s)
  {
    hide WasCounted, WasQueued, Locking, RwLocking;
  }

  /** The wait group counts exactly the items counted and not completed. */
  lemma MoveKeepsCount(s: Sys, t: nat, d: Thread, r: Sys)
    requires Shaped(s) && Opened(s) && t in s.threads && Effect(s, t, s.threads[t], d, r) && Shaped(r)
    requires s.wg == |Outstanding(s)|
    ensures r.wg == |Outstanding(r)|
  {
    hide *;
    var c := s.threads[t];
    CountsOnce(s, t, d, r);
    forall u
      ensures u in Outstanding(r) <==> u in Outstanding(s) || (u == t && NewlyCounted(c, d))
    {
      StillOutstanding(s, t, d, r, u);
    }
    assert Outstanding(r) == Outstanding(s) + (if NewlyCounted(c, d) then {t} else {});
  }

  lemma MoveKeepsDrained(s: Sys, t: nat, d: Thread, r: Sys)
    requires Locks(s) && Apart(s) && t in s.threads && Effect(s, t, s.threads[t], d, r)
    requires forall u :: u in s.threads && PastWait(s.threads[u]) ==> s.wg == 0
    ensures forall u :: u in r.threads && PastWait(r.threads[u]) ==> r.wg == 0
  {
    forall u | u in r.threads && PastWait(r.threads[u])
      ensures r.wg == 0
    {
      if u != t {
        assert PastWait(s.threads[u]) && HoldsCommit(s.threads[u]) && Active(s.threads[u], Block);
      }
    }
  }

  lemma EffectKeeps(s: Sys, t: nat, d: Thread, r: Sys)
    requires Inv(s) && t in s.threads && Effect(s, t, s.threads[t], d, r)
    ensures Inv(r)
  {
    hide Shaped, LowLock, MidLock, CommitLock, RwLock, Lines, Opened, Apart, Outstanding, PastWait, Effect;
    MoveKeepsShaped(s, t, d, r);
    MoveKeepsLowLock(s, t, d, r);
    MoveKeepsMidLock(s, t, d, r);
    MoveKeepsCommitLock(s, t, d, r);
    MoveKeepsRwLock(s, t, d, r);
    MoveKeepsApart(s, t, d, r);
    MoveKeepsLines(s, t, d, r);
    MoveKeepsOpened(s, t, d, r);
    MoveKeepsCount(s, t, d, r);
    MoveKeepsDrained(s, t, d, r);
  }

  lemma MoveKeeps(s: Sys, t: nat)
    requires Inv(s) && CanMove(s, t)
    ensures Inv(DoMove(s, t))
  {
    hide Inv, Effect, DoMove;
    var d := MoveEffect(s, t);
    EffectKeeps(s, t, d, DoMove(s, t));
  }

  // ---------------------------------------------------------------- steps of workers keep it

  /** What one step of a worker does. */
  predicate WorkEffect(s: Sys, q: QueueId, l: Line, m: Line, r: Sys)
  {
    && r == s.(lines := s.lines[q := m], wg := r.wg, writer := r.writer)
    && m.submitted == l.submitted
    && (InCritical(m.worker) && !InCritical(l.worker) ==> Free(s))
    && r.writer == (if InCritical(m.worker) == InCritical(l.worker) then s.writer
                    else if InCritical(m.worker) then Some(Server(q)) else None)
    && (m.worker.Ready? ==> m.worker.i in s.open)
    && (m.worker.Critical? ==> l.worker.Ready? && m.worker.i == l.worker.i)
    && (if l.worker.Critical? then m.completed == l.completed + [l.worker.i] && r.wg == s.wg - 1
        else m.completed == l.completed && r.wg == s.wg)
    && (InOrder(l) ==> InOrder(m))
  }

  lemma WorkHasEffect(s: Sys, q: QueueId)
    requires CanWork(s, q)
    ensures WorkEffect(s, q, s.lines[q], DoWork(s, q).lines[q], DoWork(s, q))
  {
    var l, m := s.lines[q], DoWork(s, q).lines[q];
    if l.worker.Idle? {
      assert l.waiting == [l.waiting[0]] + m.waiting;
      Assoc(l.completed, [l.waiting[0]], m.waiting);
      assert l.completed + [] == l.completed;
    } else if l.worker.Critical? {
      assert l.completed + [l.worker.i] + [] == l.completed + [l.worker.i];
    }
  }

  lemma WorkKeepsLocks(s: Sys, q: QueueId, m: Line, r: Sys)
    requires Shaped(s) && Locks(s) && RwLock(s) && Apart(s) && q in s.lines && WorkEffect(s, q, s.lines[q], m, r)
    ensures Shaped(r) && Locks(r) && RwLock(r) && Apart(r)
  {
    hide HoldsLow, HoldsMid, HoldsCommit, Fits, InOrder, Active;
  }

  lemma WorkKeepsLines(s: Sys, q: QueueId, m: Line, r: Sys)
    requires Lines(s) && q in s.lines && WorkEffect(s, q, s.lines[q], m, r)
    ensures Lines(r)
  {
    assert LineOf(s, q);
    hide InOrder, InCritical;
    assert forall p, t :: Belongs(r, p, t) <==> Belongs(s, p, t);
    hide Belongs;
    forall p | p in r.lines
      ensures LineOf(r, p)
    {
      assert LineOf(s, p);
    }
  }

  lemma WorkKeepsOpened(s: Sys, q: QueueId, m: Line, r: Sys)
    requires Opened(s) && q in s.lines && WorkEffect(s, q, s.lines[q], m, r)
    ensures Opened(r)
  {
    hide InOrder, InCritical;
  }

  /** The item a worker is about to complete is outstanding. */
  lemma CriticalItem(s: Sys, q: QueueId)
    requires Shaped(s) && Lines(s) && Opened(s) && q in s.lines && s.lines[q].worker.Critical?
    ensures s.lines[q].worker.i in Outstanding(s)
    ensures QueueOf(s.threads[s.lines[q].worker.i]) == q
  {
    var l := s.lines[q];
    var i, n := l.worker.i, |l.completed|;
    assert LineOf(s, q);
    assert l.submitted[n] == i;
    assert Belongs(s, q, i);
    assert i !in l.completed by {
      assert forall j :: 0 <= j < n ==> l.submitted[j] == l.completed[j];
    }
  }

  /** The item that a worker's next step completes. */
  function DoneBy(l: Line): set<nat>
  {
    if l.worker.Critical? then {l.worker.i} else {}
  }

  lemma WorkCounts(s: Sys, q: QueueId, m: Line, r: Sys)
    requires Shaped(s) && Lines(s) && Opened(s) && q in s.lines && WorkEffect(s, q, s.lines[q], m, r)
    ensures r.wg == s.wg - |DoneBy(s.lines[q])| && DoneBy(s.lines[q]) <= Outstanding(s)
    ensures forall i :: i in DoneBy(s.lines[q]) ==> i in s.threads && QueueOf(s.threads[i]) == q
  {
    if s.lines[q].worker.Critical? {
      CriticalItem(s, q);
    }
  }

  lemma WorkOutstanding(s: Sys, q: QueueId, m: Line, r: Sys, u: nat)
    requires Shaped(s) && Shaped(r) && q in s.lines && WorkEffect(s, q, s.lines[q], m, r)
    requires forall i :: i in DoneBy(s.lines[q]) ==> i in s.threads && QueueOf(s.threads[i]) == q
    ensures u in Outstanding(r) <==> u in Outstanding(s) && u !in DoneBy(s.lines[q])
  {
    hide InOrder, WasCounted, InCritical, Free;
  }

  lemma WorkKeepsCount(s: Sys, q: QueueId, m: Line, r: Sys)
    requires Shaped(s) && Shaped(r) && Lines(s) && Opened(s) && q in s.lines && WorkEffect(s, q, s.lines[q], m, r)
    requires s.wg == |Outstanding(s)|
    ensures r.wg == |Outstanding(r)|
    ensures s.wg == 0 ==> r.wg == 0
  {
    hide *;
    var done := DoneBy(s.lines[q]);
    WorkCounts(s, q, m, r);
    forall u
      ensures u in Outstanding(r) <==> u in Outstanding(s) && u !in done
    {
      WorkOutstanding(s, q, m, r, u);
    }
    assert Outstanding(r) == Outstanding(s) - done;
  }

  lemma WorkKeeps(s: Sys, q: QueueId)
    requires Inv(s) && CanWork(s, q)
    ensures Inv(DoWork(s, q))
  {
    var r := DoWork(s, q);
    var m := r.lines[q];
    WorkHasEffect(s, q);
    assert r.threads == s.threads;
    hide DoWork, CanWork, Shaped, Locks, RwLock, Lines, Opened, Apart, Outstanding, PastWait, WorkEffect;
    WorkKeepsLocks(s, q, m, r);
    WorkKeepsLines(s, q, m, r);
    WorkKeepsOpened(s, q, m, r);
    WorkKeepsCount(s, q, m, r);
  }

  // ---------------------------------------------------------------- every run

  lemma CallKeepsLocks(s: Sys, t: nat, c: Thread, r: Sys)
    requires Shaped(s) && Locks(s) && t !in s.threads && r == s.(threads := s.threads[t := c]) && c.pc == Begin
    requires QueueId(c.client, false) in s.lines && QueueId(c.client, true) in s.lines
    ensures Shaped(r) && Locks(r)
  {
    assert Fits(c.kind, c.pc) && !HoldsLow(c) && !HoldsMid(c) && !HoldsCommit(c);
    hide Fits, HoldsLow, HoldsMid, HoldsCommit;
  }

  lemma CallKeepsRwLock(s: Sys, t: nat, c: Thread, r: Sys)
    requires RwLock(s) && t !in s.threads && r == s.(threads := s.threads[t := c]) && c.pc == Begin
    ensures RwLock(r)
  {
    hide InCritical;
  }

  lemma CallKeepsLines(s: Sys, t: nat, c: Thread, r: Sys)
    requires Lines(s) && Opened(s) && t !in s.threads && r == s.(threads := s.threads[t := c]) && c.pc == Begin
    ensures Lines(r) && Opened(r)
  {
    hide InOrder;
    forall q | q in r.lines
      ensures LineOf(r, q)
    {
      assert LineOf(s, q);
      assert forall u :: Belongs(r, q, u) <==> Belongs(s, q, u);
    }
  }

  lemma CallKeepsCount(s: Sys, t: nat, c: Thread, r: Sys)
    requires Shaped(s) && t !in s.threads && r == s.(threads := s.threads[t := c]) && c.pc == Begin && Shaped(r)
    ensures Outstanding(r) == Outstanding(s)
    ensures (forall u :: u in s.threads && PastWait(s.threads[u]) ==> s.wg == 0) ==>
              forall u :: u in r.threads && PastWait(r.threads[u]) ==> r.wg == 0
  {
    assert !WasCounted(c) && !PastWait(c);
    hide WasCounted, PastWait;
    forall u
      ensures u in Outstanding(r) <==> u in Outstanding(s)
    {
    }
  }

  lemma CallKeeps(s: Sys, t: nat, kind: Kind, client: nat)
    requires Inv(s) && Enabled(s, Call(t, kind, client))
    ensures Inv(Do(s, Call(t, kind, client)))
  {
    var r, c := Do(s, Call(t, kind, client)), Thread(kind, client, Begin);
    assert Apart(r);
    hide Shaped, Locks, RwLock, Lines, Opened, Apart, Outstanding, PastWait;
    CallKeepsLocks(s, t, c, r);
    CallKeepsRwLock(s, t, c, r);
    CallKeepsLines(s, t, c, r);
    CallKeepsCount(s, t, c, r);
  }

  lemma TaskKeepsLocks(s: Sys, t: nat, r: Sys)
    requires Shaped(s) && Locks(s) && RwLock(s) && Apart(s) && r == s.(open := s.open + {t})
    ensures Shaped(r) && Locks(r) && RwLock(r) && Apart(r)
  {
    hide Fits, HoldsLow, HoldsMid, HoldsCommit, InCritical, Active;
  }

  lemma TaskKeepsLines(s: Sys, t: nat, r: Sys)
    requires Lines(s) && r == s.(open := s.open + {t})
    ensures Lines(r)
  {
    hide InOrder;
    forall q | q in r.lines
      ensures LineOf(r, q)
    {
      assert LineOf(s, q);
      assert forall u :: Belongs(r, q, u) <==> Belongs(s, q, u);
    }
  }

  lemma TaskKeepsCount(s: Sys, t: nat, r: Sys)
    requires Shaped(s) && Shaped(r) && r == s.(open := s.open + {t})
    ensures Outstanding(r) == Outstanding(s)
  {
    hide WasCounted;
  }

  lemma TaskKeepsOpened(s: Sys, t: nat, r: Sys)
    requires Opened(s) && r == s.(open := s.open + {t})
    requires t in s.threads && IsItem(s.threads[t].kind) && s.threads[t].pc == Returned
    ensures Opened(r)
  {
  }

  lemma TaskKeeps(s: Sys, t: nat)
    requires Inv(s) && Enabled(s, Task(t))
    ensures Inv(Do(s, Task(t)))
  {
    var r := Do(s, Task(t));
    TaskKeepsOpened(s, t, r);
    hide Shaped, Locks, RwLock, Lines, Opened, Apart, Outstanding, PastWait;
    TaskKeepsLocks(s, t, r);
    TaskKeepsLines(s, t, r);
    TaskKeepsCount(s, t, r);
  }

  lemma StepKeeps(s: Sys, e: Event)
    requires Inv(s) && Enabled(s, e)
    ensures Inv(Do(s, e))
  {
    hide Inv;
    match e
    case Call(t, kind, client) => CallKeeps(s, t, kind, client);
    case Move(t) => MoveKeeps(s, t);
    case Work(q) => WorkKeeps(s, q);
    case Task(t) => TaskKeeps(s, t);
  }

  lemma InitialInv(clients: set<nat>)
    ensures Inv(Initial(clients))
  {
  }

  /** Whatever the interleaving. */
  lemma {:induction false} RunKeeps(s: Sys, es: seq<Event>)
    requires Inv(s) && Legal(s, es)
    ensures Inv(Final(s, es))
    decreases |es|
  {
    hide Inv, Enabled, Do;
    if es != [] {
      StepKeeps(s, es[0]);
      RunKeeps(Do(s, es[0]), es[1..]);
    }
  }

  /** In every interleaving the wait group holds the number of items counted and
      not completed; it never goes negative, although items are queued before
      they are counted. */
  lemma WaitGroupCounts(clients: set<nat>, es: seq<Event>)
    requires Legal(Initial(clients), es)
    ensures var s := Final(Initial(clients), es);
            Shaped(s) && s.wg == |Outstanding(s)| && s.wg >= 0
  {
    InitialInv(clients);
    RunKeeps(Initial(clients), es);
  }

  /** An item that is queued, or taken and not completed, is outstanding unless
      its call has not counted it yet. */
  lemma QueuedItem(s: Sys, q: QueueId, i: nat)
    requires Inv(s) && q in s.lines && i in Held(s.lines[q].worker) + s.lines[q].waiting
    ensures i in s.threads && QueueOf(s.threads[i]) == q && WasQueued(s.threads[i])
    ensures WasCounted(s.threads[i]) ==> i in Outstanding(s)
  {
    var l := s.lines[q];
    hide Shaped, Locks, RwLock, Opened, Apart, Outstanding, PastWait;
    assert LineOf(s, q);
    Assoc(l.completed, Held(l.worker), l.waiting);
    NotCompleted(l, i);
    assert Belongs(s, q, i);
    OutstandingIs(s, i);
  }

  lemma NotCompleted(l: Line, i: nat)
    requires InOrder(l) && i in Held(l.worker) + l.waiting
    ensures i in l.submitted && i !in l.completed
  {
    var rest := Held(l.worker) + l.waiting;
    Assoc(l.completed, Held(l.worker), l.waiting);
    var k :| 0 <= k < |rest| && rest[k] == i;
    assert l.submitted[|l.completed| + k] == i;
    assert forall j :: 0 <= j < |l.completed| ==> l.submitted[j] == l.completed[j];
  }

  lemma OutstandingIs(s: Sys, i: nat)
    requires Shaped(s) && i in s.threads
    ensures i in Outstanding(s) <==> WasCounted(s.threads[i]) && !Completed(s, i)
  {
  }

  /** While a Commit or EndBlock is past its wait, every queued item has been counted. */
  lemma QueuedIsCounted(s: Sys, t: nat, i: nat)
    requires CommitLock(s) && Apart(s) && t in s.threads && PastWait(s.threads[t])
    requires i in s.threads && Fits(s.threads[i].kind, s.threads[i].pc) && WasQueued(s.threads[i])
    ensures WasCounted(s.threads[i])
  {
    assert HoldsCommit(s.threads[t]) && Active(s.threads[t], Block);
    var c := s.threads[i];
    assert c.pc == Queued ==> Active(c, DeliverTx) || HoldsCommit(c);
  }

  lemma NothingQueued(s: Sys, t: nat, q: QueueId)
    requires Inv(s) && t in s.threads && PastWait(s.threads[t]) && q in s.lines
    ensures Held(s.lines[q].worker) + s.lines[q].waiting == []
  {
    hide LowLock, MidLock, CommitLock, RwLock, Lines, Opened, Apart, Outstanding, PastWait, WasQueued, WasCounted, Fits, Held, QueueOf;
    var rest := Held(s.lines[q].worker) + s.lines[q].waiting;
    assert Outstanding(s) == {};
    if rest != [] {
      QueuedItem(s, q, rest[0]);
      QueuedIsCounted(s, t, rest[0]);
    }
  }

  /** If no item is outstanding, no pre-check is scheduled or in progress. */
  lemma NothingPending(s: Sys, u: nat)
    requires Inv(s) && s.wg == 0
    ensures !Enabled(s, Task(u))
  {
    hide Locks, RwLock, Lines, Apart, PastWait;
    assert Outstanding(s) == {};
    if Enabled(s, Task(u)) {
      OutstandingIs(s, u);
    }
  }

  /** Commit and EndBlock run alone: no item is queued, taken or counted, no pre-check is going on,
      no worker is in its critical section, and no other call holds the lock. */
  lemma BlockRunsAlone(s: Sys, t: nat)
    requires Inv(s) && t in s.threads && s.threads[t].kind == Block && s.threads[t].pc == Running
    ensures s.wg == 0 && Outstanding(s) == {} && s.readers == {}
    ensures forall q :: q in s.lines ==> s.lines[q].waiting == [] && s.lines[q].worker == Idle
    ensures forall u :: u in s.threads && u != t ==> s.threads[u].pc != Running && s.threads[u].pc != Reading
    ensures forall u :: !Enabled(s, Task(u))
  {
    assert s.writer == Some(Caller(t)) && PastWait(s.threads[t]);
    hide Shaped, Locks, Lines, Opened, Apart, Outstanding, PastWait, Enabled;
    forall u
      ensures !Enabled(s, Task(u))
    {
      NothingPending(s, u);
    }
    forall q | q in s.lines
      ensures s.lines[q].waiting == [] && s.lines[q].worker == Idle
    {
      NothingQueued(s, t, q);
    }
  }

  /** Whoever submitted first is completed first. */
  lemma CompletesInOrder(s: Sys, q: QueueId, i: nat, j: nat)
    requires Inv(s) && q in s.lines && i < j < |s.lines[q].submitted|
    ensures s.lines[q].submitted[j] in s.lines[q].completed ==>
              s.lines[q].submitted[i] in s.lines[q].completed && i < |s.lines[q].completed|
  {
    var l := s.lines[q];
    assert LineOf(s, q);
    if l.submitted[j] in l.completed {
      var k :| 0 <= k < |l.completed| && l.completed[k] == l.submitted[j];
      assert l.submitted[k] == l.completed[k];
      assert l.submitted[i] == l.completed[i];
    }
  }

  /** In every interleaving Commit and EndBlock run alone. */
  lemma BlocksRunAlone(clients: set<nat>, es: seq<Event>, t: nat)
    requires Legal(Initial(clients), es)
    ensures var s := Final(Initial(clients), es);
            t in s.threads && s.threads[t].kind == Block && s.threads[t].pc == Running ==>
              && s.wg == 0 && s.readers == {} && (forall u :: !Enabled(s, Task(u)))
              && (forall q :: q in s.lines ==> s.lines[q].waiting == [] && s.lines[q].worker == Idle)
              && (forall u :: u in s.threads && u != t ==> s.threads[u].pc != Running && s.threads[u].pc != Reading)
  {
    hide Inv, Enabled, Legal, Final, Initial;
    InitialInv(clients);
    RunKeeps(Initial(clients), es);
    var s := Final(Initial(clients), es);
    if t in s.threads && s.threads[t].kind == Block && s.threads[t].pc == Running {
      BlockRunsAlone(s, t);
    }
  }

  /** In every interleaving the items of a queue complete in the order of submission. */
  lemma RunsCompleteInOrder(clients: set<nat>, es: seq<Event>, q: QueueId, i: nat, j: nat)
    requires Legal(Initial(clients), es)
    ensures var s := Final(Initial(clients), es);
            q in s.lines && i < j < |s.lines[q].submitted| && s.lines[q].submitted[j] in s.lines[q].completed ==>
              s.lines[q].submitted[i] in s.lines[q].completed
  {
    hide Inv, Legal, Final, Initial;
    InitialInv(clients);
    RunKeeps(Initial(clients), es);
    var s := Final(Initial(clients), es);
    if q in s.lines && i < j < |s.lines[q].submitted| {
      CompletesInOrder(s, q, i, j);
    }
  }

  // ---------------------------------------------------------------- no deadlock

  /** Steps other than the beginning of a new call. */
  predicate Internal(e: Event)
  {
    !e.Call?
  }

  /** Every call has returned and everything submitted has been completed. */
  predicate Quiet(s: Sys)
  {
    && (forall t :: t in s.threads ==> s.threads[t].pc == Returned)
    && (forall q :: q in s.lines ==> s.lines[q].waiting == [] && s.lines[q].worker == Idle)
  }

  predicate Served(s: Sys)
  {
    forall q :: q in s.lines ==> s.lines[q].waiting == [] && s.lines[q].worker == Idle
  }

  predicate MovesOrWaitsForPool(s: Sys, t: nat)
    requires t in s.threads
  {
    CanMove(s, t) || !PoolRoom(s, QueueOf(s.threads[t]))
  }

  /** A call past the locks only waits for the queue, the pool, the workers and the rw lock. */
  lemma HolderMoves(s: Sys, t: nat)
    requires Shaped(s) && t in s.threads && Free(s) && s.wg == 0
    requires forall q :: q in s.lines ==> |s.lines[q].waiting| < CAPACITY
    ensures HoldsCommit(s.threads[t]) ==> MovesOrWaitsForPool(s, t)
    ensures s.commit == None && HoldsMid(s.threads[t]) ==> MovesOrWaitsForPool(s, t)
    ensures s.commit == None && s.mid == None && HoldsLow(s.threads[t]) ==> MovesOrWaitsForPool(s, t)
    ensures s.commit == None && s.mid == None && s.low == None && s.threads[t].pc != Returned ==> MovesOrWaitsForPool(s, t)
  {
    hide PoolRoom;
    var c := s.threads[t];
    assert Fits(c.kind, c.pc);
    assert QueueOf(c) in s.lines;
  }

  /** If the pool is full, it has a pre-check to finish. */
  lemma PoolMoves(s: Sys, t: nat) returns (e: Event)
    requires t in s.threads && MovesOrWaitsForPool(s, t)
    ensures Internal(e) && Enabled(s, e)
  {
    hide CanMove;
    e := Move(t);
    if !CanMove(s, t) {
      var pending := Unfinished(s, QueueOf(s.threads[t]));
      assert pending != {};
      var u :| u in pending;
      e := Task(u);
    }
  }

  lemma ServedCount(s: Sys)
    requires Inv(s) && Served(s)
    ensures s.wg == 0
  {
    hide LowLock, MidLock, CommitLock, RwLock, Opened, Apart, PastWait, Fits;
    forall t | t in s.threads && WasCounted(s.threads[t])
      ensures Completed(s, t)
    {
      var q := QueueOf(s.threads[t]);
      assert LineOf(s, q);
      assert Belongs(s, q, t);
      assert s.lines[q].submitted == s.lines[q].completed;
    }
    assert Outstanding(s) == {};
  }

  /** If every queue is served, some call can move. */
  lemma SomeCallMoves(s: Sys, t: nat) returns (e: Event)
    requires Inv(s) && Served(s) && Free(s) && t in s.threads && s.threads[t].pc != Returned
    ensures Internal(e) && Enabled(s, e)
  {
    ServedCount(s);
    hide RwLock, Lines, Opened, Apart, PastWait, Fits, MovesOrWaitsForPool, Outstanding, Enabled;
    var u := t;
    if s.commit.Some? {
      u := s.commit.value;
    } else if s.mid.Some? {
      u := s.mid.value;
    } else if s.low.Some? {
      u := s.low.value;
    }
    HolderMoves(s, u);
    e := PoolMoves(s, u);
  }

  /** Whoever holds the read-write lock can move. */
  lemma WriterMoves(s: Sys) returns (e: Event)
    requires Shaped(s) && RwLock(s) && !Free(s)
    ensures Internal(e) && Enabled(s, e)
  {
    if s.writer.Some? {
      match s.writer.value
      case Caller(t) =>
        assert Fits(s.threads[t].kind, s.threads[t].pc);
        e := Move(t);
      case Server(q) =>
        e := Work(q);
    } else {
      var t :| t in s.readers;
      assert Fits(s.threads[t].kind, s.threads[t].pc);
      e := Move(t);
    }
  }

  /** A worker with something to do can move, or is waited for by someone who can. */
  lemma LineMoves(s: Sys, q: QueueId) returns (e: Event)
    requires Inv(s) && Free(s) && q in s.lines && !(s.lines[q].waiting == [] && s.lines[q].worker == Idle)
    ensures Internal(e) && Enabled(s, e)
  {
    var w := s.lines[q].worker;
    assert !InCritical(w);
    hide LowLock, MidLock, CommitLock, RwLock, Lines, Opened, Apart, PastWait, Outstanding, Shaped;
    e := Work(q);
    if w.Took? && w.i !in s.open {
      QueuedItem(s, q, w.i);
      ItemMoves(s, w.i);
      if s.threads[w.i].pc == Returned {
        e := Task(w.i);
      } else {
        e := PoolMoves(s, w.i);
      }
    }
  }

  lemma ItemMoves(s: Sys, i: nat)
    requires Shaped(s) && i in s.threads && WasQueued(s.threads[i])
    ensures s.threads[i].pc == Returned ==> IsItem(s.threads[i].kind)
    ensures s.threads[i].pc != Returned ==> MovesOrWaitsForPool(s, i)
  {
    hide PoolRoom;
    assert Fits(s.threads[i].kind, s.threads[i].pc);
  }

  /** No interleaving deadlocks: unless all is quiet, some step is possible that
      does not need a new call. */
  lemma NoDeadlock(s: Sys) returns (e: Event)
    requires Inv(s) && !Quiet(s)
    ensures Internal(e) && Enabled(s, e)
  {
    if !Free(s) {
      e := WriterMoves(s);
    } else if !Served(s) {
      var q :| q in s.lines && !(s.lines[q].waiting == [] && s.lines[q].worker == Idle);
      e := LineMoves(s, q);
    } else {
      var t :| t in s.threads && s.threads[t].pc != Returned;
      e := SomeCallMoves(s, t);
    }
  }

  // ---------------------------------------------------------------- every run without new calls ends

  /** Steps a call has still to take. */
  function Remaining(c: Thread): nat
  {
    match c.pc
    case Begin => (match c.kind case CheckTx => 9 case DeliverTx => 3 case Block => 7 case _ => 2)
    case HasLow => 8
    case HasLowMid => 7
    case HasAll => 6
    case MidFree => 5
    case Queued => if c.kind == DeliverTx then 2 else 4
    case Counted => if c.kind == DeliverTx then 1 else 3
    case CommitFree => 2
    case LowFree => 1
    case HasMid => 6
    case HasBoth => 5
    case Waiting => 4
    case Drained => 3
    case Running => if c.kind == Block then 2 else 1
    case Ran => 1
    case Reading => 1
    case Returned => 0
  }

  /** A call's own steps, the pre-check of its item, and the steps a worker will take for an item not yet queued. */
  function CallWeight(c: Thread, open: bool): nat
  {
    Remaining(c) + (if IsItem(c.kind) && !open then 1 else 0) + (if IsItem(c.kind) && !WasQueued(c) then 5 else 0)
  }

  function LineWeight(l: Line): nat
  {
    5 * |l.waiting| + match l.worker case Took(_) => 4 case Ready(_) => 3 case Critical(_) => 2 case Responded(_) => 1 case Idle => 0
  }

  ghost function CallWeights(s: Sys): map<nat, int>
  {
    map t | t in s.threads :: CallWeight(s.threads[t], t in s.open)
  }

  ghost function LineWeights(s: Sys): map<QueueId, int>
  {
    map q | q in s.lines :: LineWeight(s.lines[q])
  }

  /** What is left to do. */
  ghost function Load(s: Sys): nat
  {
    MapSum.SumNonNegative(CallWeights(s));
    MapSum.SumNonNegative(LineWeights(s));
    MapSum.Sum(CallWeights(s)) + MapSum.Sum(LineWeights(s))
  }

  lemma MoveLightens(s: Sys, t: nat, c: Thread, d: Thread)
    requires CanMove(s, t) && c == s.threads[t] && Fits(c.kind, c.pc) && d == DoMove(s, t).threads[t]
    ensures Remaining(d) == Remaining(c) - 1
  {
  }

  lemma MoveLoad(s: Sys, t: nat)
    requires Inv(s) && CanMove(s, t)
    ensures Load(DoMove(s, t)) < Load(s)
  {
    var r := DoMove(s, t);
    var d := MoveEffect(s, t);
    MoveLightens(s, t, s.threads[t], d);
    assert Fits(s.threads[t].kind, s.threads[t].pc);
    hide DoMove, CanMove, Inv;
    EffectLoad(s, t, d, r);
  }

  lemma CallWeightsAfter(s: Sys, t: nat, d: Thread, r: Sys)
    requires t in s.threads && r.threads == s.threads[t := d] && r.open == s.open
    ensures CallWeights(r) == CallWeights(s)[t := CallWeight(d, t in s.open)]
  {
    hide CallWeight;
  }

  lemma LineWeightsAfter(s: Sys, t: nat, d: Thread, r: Sys, q: QueueId)
    requires t in s.threads && Effect(s, t, s.threads[t], d, r) && q == QueueOf(d) && q in s.lines
    ensures NewlyQueued(s.threads[t], d) ==> LineWeights(r) == LineWeights(s)[q := LineWeight(s.lines[q]) + 5]
    ensures !NewlyQueued(s.threads[t], d) ==> LineWeights(r) == LineWeights(s)
  {
    hide Effect, NewlyQueued;
    forall p
      ensures p in r.lines <==> p in s.lines
      ensures p in s.lines ==>
                LineWeight(r.lines[p]) == LineWeight(s.lines[p]) + (if NewlyQueued(s.threads[t], d) && p == q then 5 else 0)
    {
      LineAfter(s, t, d, r, p);
    }
    hide LineWeight;
  }

  lemma WeightAfter(s: Sys, t: nat, c: Thread, d: Thread, r: Sys, open: bool)
    requires t in s.threads && c == s.threads[t] && Effect(s, t, c, d, r) && Remaining(d) == Remaining(c) - 1
    requires Fits(c.kind, c.pc)
    ensures CallWeight(d, open) == CallWeight(c, open) - 1 - (if NewlyQueued(c, d) then 5 else 0)
  {
    hide HoldsLow, HoldsMid, HoldsCommit, PastWait, RwLocking, Remaining;
  }

  lemma EffectLoad(s: Sys, t: nat, d: Thread, r: Sys)
    requires t in s.threads && Effect(s, t, s.threads[t], d, r) && Remaining(d) == Remaining(s.threads[t]) - 1
    requires QueueOf(d) in s.lines && Fits(s.threads[t].kind, s.threads[t].pc)
    ensures Load(r) < Load(s)
  {
    var c, q := s.threads[t], QueueOf(d);
    assert r.threads == s.threads[t := d] && r.open == s.open;
    hide Effect, Fits, NewlyQueued, CallWeight, LineWeight, Remaining;
    WeightAfter(s, t, c, d, r, t in s.open);
    CallWeightsAfter(s, t, d, r);
    LineWeightsAfter(s, t, d, r, q);
    MapSum.SumPut(CallWeights(s), t, CallWeight(d, t in s.open));
    MapSum.SumPut(LineWeights(s), q, LineWeight(s.lines[q]) + 5);
  }

  lemma WorkLoad(s: Sys, q: QueueId)
    requires CanWork(s, q)
    ensures Load(DoWork(s, q)) < Load(s)
  {
    var r := DoWork(s, q);
    var m := r.lines[q];
    assert LineWeight(m) == LineWeight(s.lines[q]) - 1;
    assert CallWeights(r) == CallWeights(s);
    assert LineWeights(r) == LineWeights(s)[q := LineWeight(m)];
    MapSum.SumPut(LineWeights(s), q, LineWeight(m));
  }

  lemma TaskLoad(s: Sys, t: nat)
    requires Enabled(s, Task(t))
    ensures Load(Do(s, Task(t))) < Load(s)
  {
    var r := Do(s, Task(t));
    assert CallWeights(r) == CallWeights(s)[t := CallWeight(s.threads[t], true)];
    MapSum.SumPut(CallWeights(s), t, CallWeight(s.threads[t], true));
    assert LineWeights(r) == LineWeights(s);
  }

  lemma StepLoad(s: Sys, e: Event)
    requires Inv(s) && Enabled(s, e) && Internal(e)
    ensures Load(Do(s, e)) < Load(s)
  {
    hide Inv, Load;
    match e
    case Move(t) => MoveLoad(s, t);
    case Work(q) => WorkLoad(s, q);
    case Task(t) => TaskLoad(s, t);
  }

  predicate AllInternal(es: seq<Event>)
  {
    forall i :: 0 <= i < |es| ==> Internal(es[i])
  }

  /** Without new calls no run is longer than what is left to do, and a run that
      cannot go on has ended with every call returned and every item completed. */
  lemma {:induction false} RunsEnd(s: Sys, es: seq<Event>)
    requires Inv(s) && Legal(s, es) && AllInternal(es)
    ensures |es| <= Load(s)
    ensures (forall e :: Internal(e) ==> !Enabled(Final(s, es), e)) ==> Quiet(Final(s, es))
    decreases |es|
  {
    hide Inv, Enabled, Do, Load, Quiet;
    if es != [] {
      StepKeeps(s, es[0]);
      StepLoad(s, es[0]);
      RunsEnd(Do(s, es[0]), es[1..]);
    } else if !Quiet(s) {
      var e := NoDeadlock(s);
    }
  }
}
