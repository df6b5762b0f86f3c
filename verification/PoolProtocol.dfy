/** The work pool as a step relation: any number of workers, the deliverer, the
    retry loop and the pool's clients, one step per channel operation or mutex
    section (process/pool.go, process/pool_worker.go). */
module PoolProtocol {
  import opened Mailboxes
  import opened PoolItems

  /** A worker is `Idle` outside Get, `Waiting` in Get's select with a permit,
      `Received` between the channel receive and the table lookup, `Working`
      once Get has returned, and `Leaving` on Get's error path before the
      deferred release. */
  datatype Worker = Idle | Waiting | Received(id: Id) | Working(item: Item) | Leaving | Stopped

  /** `Batch(rest, checked)`: the ids retrieved but not yet handed over; `checked`
      once the head has been looked up and the send is pending. */
  datatype Deliverer = Selecting | Notified | Batch(rest: seq<Id>, checked: bool) | Halted(left: seq<Id>)

  /** What an observer of one id can see. */
  datatype Event =
    | AddCalled(item: Item)
    | Got(item: Item)
    | Retried(id: Id, when: int)
    | Completed(id: Id)
    | ForceCalled(id: Id)
    | Ticked(id: Id, now: int)

  /** `dropped` collects the ids that fell out of a full mailbox; `log` is the
      history of the run. */
  datatype State = State(
    clock: int,
    table: Table,
    deliverer: Deliverer,
    workers: seq<Worker>,
    concurrency: nat,
    stopping: bool,
    dropped: multiset<Id>,
    log: seq<Event>)

  datatype Label =
    | Add(item: Item) | Force(id: Id) | Tick(id: Id) | Advance(now: int) | Shutdown
    | TakeNotify | RetrieveAll | Check | EndBatch | Halt
    | Acquire(i: nat) | Handoff(i: nat) | Lookup(i: nat)
    | Retry(i: nat, when: int) | Finish(i: nat)
    | Quit(i: nat) | Abort(i: nat) | Release(i: nat)

  function Initial(clock: int, workers: nat, concurrency: nat): State {
    State(clock, EmptyTable(), Selecting, seq(workers, _ => Idle), concurrency, false, multiset{}, [])
  }

  predicate Sending(d: Deliverer) {
    d.Batch? && d.rest != [] && d.checked
  }

  predicate Enabled(s: State, l: Label) {
    match l
    case Add(_) => true
    case Force(id) => id in s.table.entries
    case Tick(id) => Due(s.table.entries, id, s.clock)
    case Advance(now) => s.clock < now
    case Shutdown => !s.stopping
    case TakeNotify => s.deliverer.Selecting? && s.table.box.notify
    case RetrieveAll => s.deliverer.Notified?
    case Check => s.deliverer.Batch? && s.deliverer.rest != [] && !s.deliverer.checked
    case EndBatch => s.deliverer.Batch? && s.deliverer.rest == []
    case Halt => s.stopping && (s.deliverer.Selecting? || Sending(s.deliverer))
    case Acquire(i) => i < |s.workers| && s.workers[i].Idle? && s.table.taken < s.concurrency
    case Handoff(i) => i < |s.workers| && s.workers[i].Waiting? && Sending(s.deliverer)
    case Lookup(i) => i < |s.workers| && s.workers[i].Received?
    case Retry(i, _) => i < |s.workers| && s.workers[i].Working?
    case Finish(i) => i < |s.workers| && s.workers[i].Working?
    case Quit(i) => i < |s.workers| && s.workers[i].Idle? && s.stopping
    case Abort(i) => i < |s.workers| && s.workers[i].Waiting? && s.stopping
    case Release(i) => i < |s.workers| && s.workers[i].Leaving?
  }

  /** The step runs into one of the panics: the deliverer's, Get's two,
      setState's, or the semaphore's on a release without a permit. */
  predicate Panics(s: State, l: Label)
    requires Enabled(s, l)
  {
    var entries := s.table.entries;
    match l
    case Check => s.deliverer.rest[0] in entries && !entries[s.deliverer.rest[0]].st.Available?
    case Lookup(i) => !Is(entries, s.workers[i].id, Available)
    case Retry(i, _) => s.workers[i].item.id !in entries || s.table.taken == 0
    case Finish(i) => s.workers[i].item.id !in entries || s.table.taken == 0
    case Release(i) => s.table.taken == 0
    case _ => false
  }

  /** What the next delivery pushes out of the mailbox. */
  function Overflow(b: Box<Id>): multiset<Id> {
    if Overflows(b) then multiset{b.queue[|b.queue| - 1]} else multiset{}
  }

  function Next(s: State, l: Label): State
    requires Enabled(s, l) && !Panics(s, l)
  {
    match l
    case Add(item) =>
      s.(table := Added(s.table, item),
         dropped := s.dropped + if item.id in s.table.entries then multiset{} else Overflow(s.table.box),
         log := s.log + [AddCalled(item)])
    case Force(id) =>
      s.(table := Forced(s.table, id),
         dropped := s.dropped
           + if Is(s.table.entries, id, InRetryPool) then Overflow(s.table.box) else multiset{},
         log := s.log + [ForceCalled(id)])
    case Tick(id) =>
      s.(table := Requeued(s.table, id), dropped := s.dropped + Overflow(s.table.box),
         log := s.log + [Ticked(id, s.clock)])
    case Advance(now) => s.(clock := now)
    case Shutdown => s.(stopping := true)
    case TakeNotify => s.(table := s.table.(box := Quieted(s.table.box)), deliverer := Notified)
    case RetrieveAll =>
      s.(table := s.table.(box := Emptied(s.table.box)), deliverer := Batch(Fifo(s.table.box), false))
    case Check =>
      if s.deliverer.rest[0] in s.table.entries then s.(deliverer := s.deliverer.(checked := true))
      else s.(deliverer := Batch(s.deliverer.rest[1..], false))
    case EndBatch => s.(deliverer := Selecting)
    case Halt => s.(deliverer := Halted(if s.deliverer.Batch? then s.deliverer.rest else []))
    case Acquire(i) =>
      s.(workers := s.workers[i := Waiting], table := s.table.(taken := s.table.taken + 1))
    case Handoff(i) =>
      s.(workers := s.workers[i := Received(s.deliverer.rest[0])],
         deliverer := Batch(s.deliverer.rest[1..], false))
    case Lookup(i) =>
      var item := s.table.entries[s.workers[i].id].item;
      s.(workers := s.workers[i := Working(item)], log := s.log + [Got(item)])
    case Retry(i, when) =>
      var id := s.workers[i].item.id;
      s.(workers := s.workers[i := Idle], table := PutBack(s.table, id, InRetryPool, when),
         log := s.log + [Retried(id, when)])
    case Finish(i) =>
      var id := s.workers[i].item.id;
      s.(workers := s.workers[i := Idle], table := PutBack(s.table, id, Done, ZERO_TIME),
         log := s.log + [Completed(id)])
    case Quit(i) => s.(workers := s.workers[i := Stopped])
    case Abort(i) => s.(workers := s.workers[i := Leaving])
    case Release(i) =>
      s.(workers := s.workers[i := Stopped], table := s.table.(taken := s.table.taken - 1))
  }

  /** `ls` is a run from `s` to `t` in which no step panics. */
  predicate Run(s: State, ls: seq<Label>, t: State)
    decreases |ls|
  {
    if ls == [] then s == t
    else Enabled(s, ls[0]) && !Panics(s, ls[0]) && Run(Next(s, ls[0]), ls[1..], t)
  }

  // ------------------------------------------------------------ invariant

  function InTransit(d: Deliverer): seq<Id> {
    match d
    case Batch(rest, _) => rest
    case Halted(left) => left
    case _ => []
  }

  predicate Holds(w: Worker, id: Id) {
    match w
    case Received(held) => held == id
    case Working(item) => item.id == id
    case _ => false
  }

  function HandCount(ws: seq<Worker>, id: Id): nat {
    if ws == [] then 0
    else HandCount(ws[..|ws| - 1], id) + if Holds(ws[|ws| - 1], id) then 1 else 0
  }

  /** The tokens of an id: its places in the mailbox, the batch and the hands. */
  function Tokens(s: State, id: Id): nat {
    multiset(s.table.box.queue)[id] + multiset(InTransit(s.deliverer))[id] + HandCount(s.workers, id)
  }

  predicate HasPermit(w: Worker) {
    w.Waiting? || w.Received? || w.Working? || w.Leaving?
  }

  function Permits(ws: seq<Worker>): nat {
    if ws == [] then 0
    else Permits(ws[..|ws| - 1]) + if HasPermit(ws[|ws| - 1]) then 1 else 0
  }

  /** An id is Available exactly when it has one token, or had one dropped. */
  ghost predicate Conserved(s: State) {
    forall id :: Tokens(s, id) + s.dropped[id] == if Is(s.table.entries, id, Available) then 1 else 0
  }

  ghost predicate TableOk(s: State) {
    && (forall id :: id in s.table.entries ==>
          s.table.entries[id].item.id == id && !s.table.entries[id].st.InUse?)
    && (forall i :: 0 <= i < |s.workers| && s.workers[i].Working? ==>
          var item := s.workers[i].item;
          item.id in s.table.entries && s.table.entries[item.id].item == item)
  }

  ghost predicate PermitsOk(s: State) {
    s.table.taken == Permits(s.workers) && s.table.taken <= s.concurrency
  }

  ghost predicate MailboxOk(s: State) {
    && s.table.box.capacity == MAILBOX_SLOTS
    && WithinCapacity(s.table.box)
    && (s.table.box.queue != [] ==> s.table.box.notify || s.deliverer.Notified? || s.deliverer.Halted?)
    && (s.deliverer.Batch? && s.deliverer.checked ==> s.deliverer.rest != [])
  }

  ghost predicate Inv(s: State) {
    Conserved(s) && TableOk(s) && PermitsOk(s) && MailboxOk(s)
  }

  // -------------------------------------------------------- counting lemmas

  lemma {:induction false} HandCountUpdate(ws: seq<Worker>, i: nat, w: Worker, id: Id)
    requires i < |ws|
    ensures HandCount(ws[i := w], id) + (if Holds(ws[i], id) then 1 else 0)
            == HandCount(ws, id) + if Holds(w, id) then 1 else 0
  {
    var last := |ws| - 1;
    if i < last {
      assert ws[i := w][..last] == ws[..last][i := w];
      HandCountUpdate(ws[..last], i, w, id);
    } else {
      assert ws[i := w][..last] == ws[..last];
    }
  }

  lemma {:induction false} PermitsUpdate(ws: seq<Worker>, i: nat, w: Worker)
    requires i < |ws|
    ensures Permits(ws[i := w]) + (if HasPermit(ws[i]) then 1 else 0)
            == Permits(ws) + if HasPermit(w) then 1 else 0
  {
    var last := |ws| - 1;
    if i < last {
      assert ws[i := w][..last] == ws[..last][i := w];
      PermitsUpdate(ws[..last], i, w);
    } else {
      assert ws[i := w][..last] == ws[..last];
    }
  }

  lemma {:induction false} HandCountAt(ws: seq<Worker>, i: nat, id: Id)
    requires i < |ws| && Holds(ws[i], id)
    ensures HandCount(ws, id) >= 1
    ensures forall j :: 0 <= j < |ws| && j != i && Holds(ws[j], id) ==> HandCount(ws, id) >= 2
  {
    var last := |ws| - 1;
    if i < last {
      HandCountAt(ws[..last], i, id);
    } else {
      forall j | 0 <= j < last && Holds(ws[j], id) ensures HandCount(ws, id) >= 2 {
        HandCountAt(ws[..last], j, id);
      }
    }
  }

  /** One delivery adds one token and drops exactly the oldest queued one when
      the mailbox is full. */
  lemma DeliveryTokens(b: Box<Id>, x: Id)
    requires WithinCapacity(b)
    ensures WithinCapacity(Delivered(b, x))
    ensures multiset(Delivered(b, x).queue) + Overflow(b) == multiset(b.queue) + multiset{x}
    ensures Overflow(b) == if Overflows(b) then multiset{Fifo(b)[0]} else multiset{}
  {
    if Overflows(b) {
      var last := |b.queue| - 1;
      OldestIsFront(b);
      assert [x] + b.queue == Delivered(b, x).queue + [b.queue[last]];
      assert multiset([x] + b.queue) == multiset(b.queue) + multiset{x};
    }
  }

  // ---------------------------------------------- every step keeps the invariant

  /** An id without tokens becomes Available and is delivered. */
  lemma RequeueKeepsInv(s: State, t: Table, id: Id, s': State)
    requires Inv(s) && !Is(s.table.entries, id, Available)
    requires t.entries.Keys == s.table.entries.Keys + {id} && Is(t.entries, id, Available)
    requires forall k :: k in s.table.entries && k != id ==> t.entries[k] == s.table.entries[k]
    requires t.entries[id].item.id == id
    requires id in s.table.entries ==> t.entries[id].item == s.table.entries[id].item
    requires t.box == Delivered(s.table.box, id) && t.taken == s.table.taken
    requires s' == s.(table := t, dropped := s.dropped + Overflow(s.table.box), log := s'.log)
    ensures Inv(s')
  {
    DeliveryTokens(s.table.box, id);
    forall k ensures Tokens(s', k) + s'.dropped[k] == if Is(t.entries, k, Available) then 1 else 0 {
      assert Tokens(s, k) + s.dropped[k] == if Is(s.table.entries, k, Available) then 1 else 0;
      assert (multiset(t.box.queue) + Overflow(s.table.box))[k] == (multiset(s.table.box.queue) + multiset{id})[k];
    }
  }

  /** Only the clock, the stop flag, the log or the deliverer change, and every
      id keeps its number of queued and batched places. */
  lemma QuietKeepsInv(s: State, s': State)
    requires Inv(s) && MailboxOk(s')
    requires s'.workers == s.workers && s'.dropped == s.dropped && s'.concurrency == s.concurrency
    requires s'.table.entries == s.table.entries && s'.table.taken == s.table.taken
    requires multiset(s'.table.box.queue) + multiset(InTransit(s'.deliverer))
             == multiset(s.table.box.queue) + multiset(InTransit(s.deliverer))
    ensures Inv(s')
  {
    forall k ensures Tokens(s', k) + s'.dropped[k] == if Is(s'.table.entries, k, Available) then 1 else 0 {
      assert Tokens(s, k) + s.dropped[k] == if Is(s.table.entries, k, Available) then 1 else 0;
      assert (multiset(s'.table.box.queue) + multiset(InTransit(s'.deliverer)))[k]
          == (multiset(s.table.box.queue) + multiset(InTransit(s.deliverer)))[k];
    }
  }

  lemma ClientStepKeepsInv(s: State, l: Label)
    requires Inv(s) && Enabled(s, l) && !Panics(s, l)
    requires l.Add? || l.Force? || l.Tick?
    ensures Inv(Next(s, l))
  {
    var s' := Next(s, l);
    var id := if l.Add? then l.item.id else l.id;
    if s'.table == s.table {
      QuietKeepsInv(s, s');
    } else {
      RequeueKeepsInv(s, s'.table, id, s');
    }
  }

  lemma DelivererStepKeepsInv(s: State, l: Label)
    requires Inv(s) && Enabled(s, l) && !Panics(s, l)
    requires l.TakeNotify? || l.EndBatch? || l.Halt?
    ensures Inv(Next(s, l))
  {
    QuietKeepsInv(s, Next(s, l));
  }

  lemma CheckKeepsInv(s: State, l: Label)
    requires Inv(s) && l.Check? && Enabled(s, l) && !Panics(s, l)
    ensures Inv(Next(s, l))
  {
    HeadIsAvailable(s);
    QuietKeepsInv(s, Next(s, l));
  }

  lemma RetrieveAllKeepsInv(s: State, l: Label)
    requires Inv(s) && l.RetrieveAll? && Enabled(s, l)
    ensures Inv(Next(s, l))
  {
    ReversedBag(s.table.box.queue);
    QuietKeepsInv(s, Next(s, l));
  }

  lemma HeadIsAvailable(s: State)
    requires Conserved(s) && s.deliverer.Batch? && s.deliverer.rest != []
    ensures Is(s.table.entries, s.deliverer.rest[0], Available)
  {
    var id := s.deliverer.rest[0];
    assert multiset(s.deliverer.rest)[id] > 0;
    assert Tokens(s, id) > 0;
  }

  lemma HeldIsAvailable(s: State, i: nat, id: Id)
    requires Conserved(s) && i < |s.workers| && Holds(s.workers[i], id)
    ensures Is(s.table.entries, id, Available)
    ensures Tokens(s, id) == HandCount(s.workers, id) == 1 && s.dropped[id] == 0
    ensures forall j :: 0 <= j < |s.workers| && j != i ==> !Holds(s.workers[j], id)
  {
    HandCountAt(s.workers, i, id);
    assert Tokens(s, id) + s.dropped[id] == if Is(s.table.entries, id, Available) then 1 else 0;
  }

  /** A worker changes without taking or giving up an id. */
  lemma WorkerConserves(s: State, s': State, i: nat, w: Worker)
    requires Conserved(s) && i < |s.workers| && s'.workers == s.workers[i := w]
    requires s'.table.entries == s.table.entries && s'.table.box == s.table.box
    requires s'.deliverer == s.deliverer && s'.dropped == s.dropped
    requires forall id :: Holds(w, id) == Holds(s.workers[i], id)
    ensures Conserved(s')
  {
    forall k ensures Tokens(s', k) + s'.dropped[k] == if Is(s'.table.entries, k, Available) then 1 else 0 {
      HandCountUpdate(s.workers, i, w, k);
      assert Tokens(s, k) + s.dropped[k] == if Is(s.table.entries, k, Available) then 1 else 0;
    }
  }

  lemma WorkerStepKeepsInv(s: State, l: Label)
    requires Inv(s) && Enabled(s, l) && !Panics(s, l)
    requires l.Acquire? || l.Lookup? || l.Quit? || l.Abort? || l.Release?
    ensures Inv(Next(s, l))
  {
    var s' := Next(s, l);
    var w := s'.workers[l.i];
    PermitsUpdate(s.workers, l.i, w);
    if l.Lookup? {
      assert s.table.entries[s.workers[l.i].id].item.id == s.workers[l.i].id;
    }
    WorkerConserves(s, s', l.i, w);
  }

  lemma HandoffConserves(s: State, s': State, i: nat, id: Id, rest: seq<Id>)
    requires Conserved(s) && i < |s.workers| && s.workers[i].Waiting? && s'.workers == s.workers[i := Received(id)]
    requires s'.table == s.table && s'.dropped == s.dropped
    requires InTransit(s.deliverer) == [id] + rest && InTransit(s'.deliverer) == rest
    ensures Conserved(s')
  {
    forall k ensures Tokens(s', k) + s'.dropped[k] == if Is(s'.table.entries, k, Available) then 1 else 0 {
      HandCountUpdate(s.workers, i, Received(id), k);
      assert multiset([id] + rest)[k] == multiset{id}[k] + multiset(rest)[k];
      assert Tokens(s, k) + s.dropped[k] == if Is(s.table.entries, k, Available) then 1 else 0;
    }
  }

  lemma HandoffKeepsInv(s: State, l: Label)
    requires Inv(s) && l.Handoff? && Enabled(s, l)
    ensures Inv(Next(s, l))
  {
    var id, rest := s.deliverer.rest[0], s.deliverer.rest[1..];
    PermitsUpdate(s.workers, l.i, Received(id));
    assert s.deliverer.rest == [id] + rest;
    HandoffConserves(s, Next(s, l), l.i, id, rest);
  }

  lemma PutBackConserves(s: State, s': State, i: nat, id: Id)
    requires Conserved(s) && i < |s.workers| && Holds(s.workers[i], id) && s'.workers == s.workers[i := Idle]
    requires s'.table.box == s.table.box && s'.deliverer == s.deliverer && s'.dropped == s.dropped
    requires forall k :: Is(s'.table.entries, k, Available) <==> k != id && Is(s.table.entries, k, Available)
    ensures Conserved(s')
  {
    HeldIsAvailable(s, i, id);
    forall k ensures Tokens(s', k) + s'.dropped[k] == if Is(s'.table.entries, k, Available) then 1 else 0 {
      HandCountUpdate(s.workers, i, Idle, k);
      assert Holds(s.workers[i], k) <==> k == id;
      assert Tokens(s, k) + s.dropped[k] == if Is(s.table.entries, k, Available) then 1 else 0;
    }
  }

  lemma PutBackKeepsTable(s: State, s': State, i: nat, id: Id, st: ItemState, when: int)
    requires Conserved(s) && TableOk(s) && i < |s.workers| && Holds(s.workers[i], id) && id in s.table.entries
    requires s'.table.entries == SetState(s.table.entries, id, st, when) && !st.InUse?
    requires s'.workers == s.workers[i := Idle]
    ensures TableOk(s')
  {
    HeldIsAvailable(s, i, id);
    assert forall j :: 0 <= j < |s'.workers| && s'.workers[j].Working? ==> Holds(s.workers[j], s'.workers[j].item.id);
  }

  lemma PutBackKeepsInv(s: State, l: Label)
    requires Inv(s) && (l.Retry? || l.Finish?) && Enabled(s, l) && !Panics(s, l)
    ensures Inv(Next(s, l))
  {
    var s' := Next(s, l);
    var id := s.workers[l.i].item.id;
    PermitsUpdate(s.workers, l.i, Idle);
    PutBackConserves(s, s', l.i, id);
    PutBackKeepsTable(s, s', l.i, id, s'.table.entries[id].st, s'.table.entries[id].retryWhen);
  }

  lemma StepKeepsInv(s: State, l: Label)
    requires Inv(s) && Enabled(s, l) && !Panics(s, l)
    ensures Inv(Next(s, l))
  {
    match l {
      case Add(_) => ClientStepKeepsInv(s, l);
      case Force(_) => ClientStepKeepsInv(s, l);
      case Tick(_) => ClientStepKeepsInv(s, l);
      case Advance(_) => QuietKeepsInv(s, Next(s, l));
      case Shutdown => QuietKeepsInv(s, Next(s, l));
      case TakeNotify => DelivererStepKeepsInv(s, l);
      case RetrieveAll => RetrieveAllKeepsInv(s, l);
      case Check => CheckKeepsInv(s, l);
      case EndBatch => DelivererStepKeepsInv(s, l);
      case Halt => DelivererStepKeepsInv(s, l);
      case Handoff(_) => HandoffKeepsInv(s, l);
      case Retry(_, _) => PutBackKeepsInv(s, l);
      case Finish(_) => PutBackKeepsInv(s, l);
      case _ => WorkerStepKeepsInv(s, l);
    }
  }

  lemma InitialInv(clock: int, workers: nat, concurrency: nat)
    ensures Inv(Initial(clock, workers, concurrency))
  {
    var s := Initial(clock, workers, concurrency);
    NoHandsAtStart(s.workers);
  }

  lemma {:induction false} NoHandsAtStart(ws: seq<Worker>)
    requires forall i :: 0 <= i < |ws| ==> ws[i].Idle?
    ensures Permits(ws) == 0 && forall id :: HandCount(ws, id) == 0
  {
    if ws != [] {
      NoHandsAtStart(ws[..|ws| - 1]);
    }
  }

  lemma {:induction false} RunKeepsInv(s: State, ls: seq<Label>, t: State)
    requires Inv(s) && Run(s, ls, t)
    ensures Inv(t)
    decreases |ls|
  {
    if ls != [] {
      StepKeepsInv(s, ls[0]);
      RunKeepsInv(Next(s, ls[0]), ls[1..], t);
    }
  }
}
