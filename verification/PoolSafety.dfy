/** What holds in every state that the pool can reach. */
module PoolSafety {
  import opened Mailboxes
  import opened Wrappers
  import opened PoolItems
  import opened PoolProtocol

  ghost predicate Reachable(t: State) {
    exists clock: int, workers: nat, concurrency: nat, ls :: Run(Initial(clock, workers, concurrency), ls, t)
  }

  lemma ReachableInv(t: State)
    requires Reachable(t)
    ensures Inv(t)
  {
    var clock: int, workers: nat, concurrency: nat, ls :| Run(Initial(clock, workers, concurrency), ls, t);
    InitialInv(clock, workers, concurrency);
    RunKeepsInv(Initial(clock, workers, concurrency), ls, t);
  }

  /** No two hands ever hold one id; an id in a hand is neither queued nor
      batched, a queued one not batched, none twice; whatever has a token is
      Available in the table, so retried and done ids have none. */
  lemma MutualExclusion(t: State, id: Id)
    requires Reachable(t)
    ensures Tokens(t, id) <= 1
    ensures Tokens(t, id) == 1 ==> Is(t.table.entries, id, Available)
    ensures forall i, j :: 0 <= i < |t.workers| && 0 <= j < |t.workers| && Holds(t.workers[i], id) && Holds(t.workers[j], id)
              ==> i == j && id !in t.table.box.queue && id !in InTransit(t.deliverer)
    ensures id in t.table.box.queue ==> id !in InTransit(t.deliverer)
  {
    ReachableInv(t);
    assert Tokens(t, id) + t.dropped[id] == if Is(t.table.entries, id, Available) then 1 else 0;
    forall i, j | 0 <= i < |t.workers| && 0 <= j < |t.workers| && Holds(t.workers[i], id) && Holds(t.workers[j], id)
      ensures i == j && id !in t.table.box.queue && id !in InTransit(t.deliverer)
    {
      HeldIsAvailable(t, i, id);
      assert multiset(t.table.box.queue)[id] == 0 && multiset(InTransit(t.deliverer))[id] == 0;
    }
    if id in t.table.box.queue {
      assert multiset(t.table.box.queue)[id] > 0;
      assert multiset(InTransit(t.deliverer))[id] == 0;
    }
  }

  lemma {:induction false} PermitsAt(ws: seq<Worker>, i: nat)
    requires i < |ws| && HasPermit(ws[i])
    ensures Permits(ws) > 0
  {
    if i < |ws| - 1 {
      PermitsAt(ws[..|ws| - 1], i);
    }
  }

  /** None of the panics of the pool, its deliverer, Get, or the semaphore can
      be reached. */
  lemma PanicsAreUnreachable(t: State, l: Label)
    requires Reachable(t) && Enabled(t, l)
    ensures !Panics(t, l)
  {
    ReachableInv(t);
    match l {
      case Check => HeadIsAvailable(t);
      case Lookup(i) => HeldIsAvailable(t, i, t.workers[i].id);
      case Retry(i, _) => PermitsAt(t.workers, i);
      case Finish(i) => PermitsAt(t.workers, i);
      case Release(i) => PermitsAt(t.workers, i);
      case _ =>
    }
  }

  /** Permits taken are exactly the callers between Acquire and Release, and the
      concurrency bound is never exceeded. */
  lemma SemaphoreAccounting(t: State)
    requires Reachable(t)
    ensures t.table.taken == Permits(t.workers) <= t.concurrency
  {
    ReachableInv(t);
  }

  /** As long as nothing overflowed, Available means exactly one token. */
  lemma TokenConservation(t: State, id: Id)
    requires Reachable(t) && t.dropped == multiset{}
    ensures Is(t.table.entries, id, Available) <==> Tokens(t, id) == 1
    ensures !Is(t.table.entries, id, Available) <==> Tokens(t, id) == 0
  {
    ReachableInv(t);
    assert Tokens(t, id) + t.dropped[id] == if Is(t.table.entries, id, Available) then 1 else 0;
  }

  predicate Delivers(s: State, l: Label) {
    match l
    case Add(item) => item.id !in s.table.entries
    case Force(id) => Is(s.table.entries, id, InRetryPool)
    case Tick(_) => true
    case _ => false
  }

  predicate DeliversIntoFull(s: State, l: Label) {
    Delivers(s, l) && |s.table.box.queue| == MAILBOX_SLOTS
  }

  lemma DroppedByStep(s: State, l: Label)
    requires Inv(s) && Enabled(s, l) && !Panics(s, l)
    ensures Next(s, l).dropped == s.dropped +
              if DeliversIntoFull(s, l) then multiset{Fifo(s.table.box)[0]} else multiset{}
  {
    DeliveryTokens(s.table.box, 0);
  }

  /** A step loses a token exactly when it delivers into a full mailbox, and then
      it is the oldest queued id that goes: Available, but with no token left. */
  lemma OverflowLosesOldest(t: State, l: Label)
    requires Reachable(t) && Enabled(t, l) && !Panics(t, l)
    ensures Next(t, l).dropped == t.dropped +
              if DeliversIntoFull(t, l) then multiset{Fifo(t.table.box)[0]} else multiset{}
    ensures DeliversIntoFull(t, l) ==>
              var lost := Fifo(t.table.box)[0];
              Is(Next(t, l).table.entries, lost, Available) && Tokens(Next(t, l), lost) == 0 && Tokens(t, lost) == 1
  {
    ReachableInv(t);
    DroppedByStep(t, l);
    if DeliversIntoFull(t, l) {
      QueuedHasToken(t, Fifo(t.table.box)[0]);
      StepKeepsInv(t, l);
      DroppedStaysDropped(Next(t, l), Fifo(t.table.box)[0]);
    }
  }

  lemma QueuedHasToken(s: State, id: Id)
    requires Inv(s) && s.table.box.queue != [] && id == Fifo(s.table.box)[0]
    ensures Tokens(s, id) == 1
  {
    OldestIsFront(s.table.box);
    assert id in s.table.box.queue;
    assert multiset(s.table.box.queue)[id] > 0;
    assert Tokens(s, id) + s.dropped[id] == if Is(s.table.entries, id, Available) then 1 else 0;
  }

  lemma DroppedStaysDropped(s: State, id: Id)
    requires Inv(s) && s.dropped[id] > 0
    ensures Is(s.table.entries, id, Available) && Tokens(s, id) == 0 && s.dropped[id] == 1
  {
    assert Tokens(s, id) + s.dropped[id] == if Is(s.table.entries, id, Available) then 1 else 0;
  }

  ghost predicate NeverGot(log: seq<Event>, id: Id) {
    forall k :: 0 <= k < |log| && log[k].Got? ==> log[k].item.id != id
  }

  lemma NeverGotJoin(early: seq<Event>, middle: seq<Event>, late: seq<Event>, id: Id)
    requires early <= middle <= late
    requires NeverGot(middle[|early|..], id) && NeverGot(late[|middle|..], id)
    ensures NeverGot(late[|early|..], id)
  {
    assert late[|early|..] == middle[|early|..] + late[|middle|..];
  }

  lemma StepNeverGets(s: State, l: Label, id: Id)
    requires Inv(s) && Enabled(s, l) && !Panics(s, l) && s.dropped[id] > 0
    ensures s.dropped[id] <= Next(s, l).dropped[id]
    ensures s.log <= Next(s, l).log && NeverGot(Next(s, l).log[|s.log|..], id)
  {
    if l.Lookup? {
      HeldIsAvailable(s, l.i, s.workers[l.i].id);
    }
  }

  /** An overflowed id is lost for good: whatever happens afterwards (Add and
      ForceRetry of it included) it stays Available, so it counts as pending, but
      no call of Get ever returns it again. */
  lemma {:induction false} LostForever(s: State, ls: seq<Label>, t: State, id: Id)
    requires Inv(s) && Run(s, ls, t) && s.dropped[id] > 0
    ensures Is(t.table.entries, id, Available) && Tokens(t, id) == 0
    ensures s.log <= t.log && NeverGot(t.log[|s.log|..], id)
    decreases |ls|
  {
    DroppedStaysDropped(s, id);
    if ls != [] {
      var s' := Next(s, ls[0]);
      StepKeepsInv(s, ls[0]);
      StepNeverGets(s, ls[0], id);
      LostForever(s', ls[1..], t, id);
      NeverGotJoin(s.log, s'.log, t.log, id);
    }
  }

  function Ticks(order: seq<Id>): seq<Label> {
    if order == [] then [] else Ticks(order[..|order| - 1]) + [Tick(order[|order| - 1])]
  }

  ghost predicate AllDue(s: State, order: seq<Id>) {
    forall id :: id in order ==> id in s.table.entries && Due(s.table.entries, id, s.clock)
  }

  lemma StillDue(s: State, order: seq<Id>, id: Id)
    requires AllDue(s, order) && id !in order && Due(s.table.entries, id, s.clock)
    ensures Due(RequeuedAll(s.table, order).entries, id, s.clock)
  {
    RequeuedAllEntries(s.table, order);
  }

  /** The retry loop's tick, done in one critical section, is a run of Tick steps
      of this model: it ends with the table that `RequeuedAll` describes. */
  lemma {:induction false} TickIsRun(s: State, order: seq<Id>) returns (t: State)
    requires NoDuplicates(order) && AllDue(s, order)
    ensures Run(s, Ticks(order), t)
    ensures t == s.(table := RequeuedAll(s.table, order), dropped := t.dropped, log := t.log)
    decreases |order|
  {
    if order == [] {
      t := s;
    } else {
      var last := |order| - 1;
      var before := TickIsRun(s, order[..last]);
      assert order[last] in order;
      StillDue(s, order[..last], order[last]);
      t := Next(before, Tick(order[last]));
      RunSnoc(s, Ticks(order[..last]), before, Tick(order[last]));
    }
  }

  lemma {:induction false} RunSnoc(s: State, ls: seq<Label>, t: State, l: Label)
    requires Run(s, ls, t) && Enabled(t, l) && !Panics(t, l)
    ensures Run(s, ls + [l], Next(t, l))
    decreases |ls|
  {
    if ls == [] {
      assert Run(Next(t, l), [], Next(t, l));
      assert ([] + [l])[1..] == [];
    } else {
      assert (ls + [l])[1..] == ls[1..] + [l];
      RunSnoc(Next(s, ls[0]), ls[1..], t, l);
    }
  }
}
