/** Without shutdown, and when items ask for finitely many retries, the pool
    finishes every item: a measure bounds the steps that do something, and a
    state with an unfinished item always has such a step, at the latest after
    the clock has moved on. */
module PoolProgress {
  import opened PoolItems
  import opened PoolProtocol
  import opened PoolSafety
  import opened PoolCapacity
  import opened Wrappers

  /** A step that moves an item, a worker or the deliverer. */
  predicate Works(s: State, l: Label) {
    match l
    case Tick(_) => true
    case Force(id) => Is(s.table.entries, id, InRetryPool)
    case TakeNotify => true
    case RetrieveAll => true
    case Check => true
    case EndBatch => true
    case Acquire(_) => true
    case Handoff(_) => true
    case Lookup(_) => true
    case Retry(_, _) => true
    case Finish(_) => true
    case Halt => true
    case Quit(_) => true
    case Abort(_) => true
    case Release(_) => true
    case _ => false
  }

  /** A step of the pool itself: ForceRetry is a client's. */
  predicate WorksAlone(s: State, l: Label) {
    Works(s, l) && !l.Force?
  }

  /** A step that changes nothing but the clock or the log. */
  predicate Idles(s: State, l: Label) {
    match l
    case Advance(_) => true
    case Add(item) => item.id in s.table.entries
    case Force(id) => !Is(s.table.entries, id, InRetryPool)
    case _ => false
  }

  // --------------------------------------------------------------- measure

  ghost function ParkedIds(s: State): set<Id> {
    set id | id in s.table.entries && s.table.entries[id].st.InRetryPool?
  }

  function WorkerRank(w: Worker): nat {
    match w
    case Received(_) => 5
    case Working(_) => 4
    case Idle => 3
    case Waiting => 2
    case Leaving => 1
    case Stopped => 0
  }

  function WorkerRanks(ws: seq<Worker>): nat {
    if ws == [] then 0 else WorkerRanks(ws[..|ws| - 1]) + WorkerRank(ws[|ws| - 1])
  }

  function DelivererRank(d: Deliverer): nat {
    match d
    case Notified => 3
    case Batch(rest, checked) => 5 * |rest| + (if checked then 1 else 2)
    case Selecting => 1
    case Halted(_) => 0
  }

  /** `retries` is how many more times items will ask to be retried. */
  ghost function Measure(s: State, retries: nat): nat {
    10 * retries + 10 * |ParkedIds(s)| + 5 * |s.table.box.queue| + (if s.table.box.notify then 4 else 0)
      + DelivererRank(s.deliverer) + WorkerRanks(s.workers)
  }

  lemma {:induction false} WorkerRanksUpdate(ws: seq<Worker>, i: nat, w: Worker)
    requires i < |ws|
    ensures WorkerRanks(ws[i := w]) + WorkerRank(ws[i]) == WorkerRanks(ws) + WorkerRank(w)
  {
    var last := |ws| - 1;
    if i < last {
      assert ws[i := w][..last] == ws[..last][i := w];
      WorkerRanksUpdate(ws[..last], i, w);
    } else {
      assert ws[i := w][..last] == ws[..last];
    }
  }

  lemma UnparkShrinks(s: State, id: Id)
    requires Inv(s) && Is(s.table.entries, id, InRetryPool)
    ensures var s' := s.(table := Requeued(s.table, id));
            |ParkedIds(s')| == |ParkedIds(s)| - 1 && |s'.table.box.queue| <= |s.table.box.queue| + 1
  {
    var s' := s.(table := Requeued(s.table, id));
    assert ParkedIds(s) == ParkedIds(s') + {id};
  }

  lemma ParkGrows(s: State, id: Id, when: int, t: Table)
    requires id in s.table.entries && t.entries == SetState(s.table.entries, id, InRetryPool, when)
    ensures |ParkedIds(s.(table := t))| <= |ParkedIds(s)| + 1
  {
    var s' := s.(table := t);
    SubsetSize(ParkedIds(s'), ParkedIds(s) + {id});
    assert |ParkedIds(s) + {id}| <= |ParkedIds(s)| + 1;
  }

  lemma FinishParks(s: State, id: Id, t: Table)
    requires id in s.table.entries && t.entries == SetState(s.table.entries, id, Done, ZERO_TIME)
    ensures |ParkedIds(s.(table := t))| <= |ParkedIds(s)|
  {
    SubsetSize(ParkedIds(s.(table := t)), ParkedIds(s));
  }

  function Spent(l: Label): nat { if l.Retry? then 1 else 0 }

  lemma RequeueDecreases(s: State, l: Label, retries: nat)
    requires Inv(s) && Enabled(s, l) && !Panics(s, l) && Works(s, l)
    requires l.Tick? || l.Force?
    ensures Measure(Next(s, l), retries) < Measure(s, retries)
  {
    UnparkShrinks(s, l.id);
    assert ParkedIds(Next(s, l)) == ParkedIds(s.(table := Requeued(s.table, l.id)));
  }

  lemma DelivererDecreases(s: State, l: Label, retries: nat)
    requires Inv(s) && Enabled(s, l) && !Panics(s, l)
    requires l.TakeNotify? || l.RetrieveAll? || l.Check? || l.EndBatch? || l.Halt?
    ensures Measure(Next(s, l), retries) < Measure(s, retries)
  {
    assert ParkedIds(Next(s, l)) == ParkedIds(s);
    if l.Check? {
      HeadIsAvailable(s);
    }
  }

  lemma WorkerDecreases(s: State, l: Label, retries: nat)
    requires Inv(s) && Enabled(s, l) && !Panics(s, l)
    requires l.Acquire? || l.Handoff? || l.Lookup? || l.Quit? || l.Abort? || l.Release?
    ensures Measure(Next(s, l), retries) < Measure(s, retries)
  {
    WorkerRanksUpdate(s.workers, l.i, Next(s, l).workers[l.i]);
    assert ParkedIds(Next(s, l)) == ParkedIds(s);
  }

  lemma PutBackDecreases(s: State, l: Label, retries: nat)
    requires Inv(s) && Enabled(s, l) && !Panics(s, l)
    requires l.Retry? || l.Finish?
    requires Spent(l) <= retries
    ensures Measure(Next(s, l), retries - Spent(l)) < Measure(s, retries)
  {
    var s' := Next(s, l);
    var id := s.workers[l.i].item.id;
    WorkerRanksUpdate(s.workers, l.i, Idle);
    assert ParkedIds(s') == ParkedIds(s.(table := s'.table));
    if l.Retry? {
      ParkGrows(s, id, l.when, s'.table);
    } else {
      FinishParks(s, id, s'.table);
    }
  }

  lemma StepDecreases(s: State, l: Label, retries: nat)
    requires Inv(s) && Enabled(s, l) && !Panics(s, l) && Works(s, l)
    requires Spent(l) <= retries
    ensures Measure(Next(s, l), retries - Spent(l)) < Measure(s, retries)
  {
    match l {
      case Tick(_) => RequeueDecreases(s, l, retries);
      case Force(_) => RequeueDecreases(s, l, retries);
      case TakeNotify => DelivererDecreases(s, l, retries);
      case RetrieveAll => DelivererDecreases(s, l, retries);
      case Check => DelivererDecreases(s, l, retries);
      case EndBatch => DelivererDecreases(s, l, retries);
      case Halt => DelivererDecreases(s, l, retries);
      case Retry(_, _) => PutBackDecreases(s, l, retries);
      case Finish(_) => PutBackDecreases(s, l, retries);
      case _ => WorkerDecreases(s, l, retries);
    }
  }

  // ---------------------------------------------------------- no stuck state

  /** No shutdown has begun, and somebody works. */
  ghost predicate Running(s: State) {
    && !s.stopping && !s.deliverer.Halted?
    && 0 < |s.workers| && 0 < s.concurrency
    && forall i :: 0 <= i < |s.workers| ==> !s.workers[i].Leaving? && !s.workers[i].Stopped?
  }

  ghost predicate AllDone(s: State) {
    forall id :: id in s.table.entries ==> s.table.entries[id].st.Done?
  }

  ghost predicate CanWork(s: State) {
    exists l :: Enabled(s, l) && WorksAlone(s, l)
  }

  /** Now, or as soon as the clock has moved far enough. */
  ghost predicate CanWorkLater(s: State) {
    CanWork(s) || exists now :: Enabled(s, Advance(now)) && CanWork(Next(s, Advance(now)))
  }

  lemma {:induction false} SomeHandHolds(ws: seq<Worker>, id: Id) returns (i: nat)
    requires HandCount(ws, id) > 0
    ensures i < |ws| && Holds(ws[i], id)
  {
    var last := |ws| - 1;
    if Holds(ws[last], id) {
      i := last;
    } else {
      i := SomeHandHolds(ws[..last], id);
    }
  }

  lemma {:induction false} IdleNeedsNoPermit(ws: seq<Worker>)
    requires forall i :: 0 <= i < |ws| ==> ws[i].Idle?
    ensures Permits(ws) == 0
  {
    if ws != [] {
      IdleNeedsNoPermit(ws[..|ws| - 1]);
    }
  }

  lemma HandWorks(s: State, i: nat)
    requires Inv(s) && i < |s.workers| && (s.workers[i].Received? || s.workers[i].Working?)
    ensures CanWork(s)
  {
    if s.workers[i].Received? {
      assert Enabled(s, Lookup(i)) && WorksAlone(s, Lookup(i));
    } else {
      assert Enabled(s, Finish(i)) && WorksAlone(s, Finish(i));
    }
  }

  lemma DelivererWorks(s: State)
    requires Inv(s) && Running(s) && !s.deliverer.Selecting?
    ensures CanWork(s)
  {
    match s.deliverer {
      case Notified => assert Enabled(s, Label.RetrieveAll) && WorksAlone(s, Label.RetrieveAll);
      case Batch(rest, checked) =>
        if rest == [] {
          assert Enabled(s, EndBatch) && WorksAlone(s, EndBatch);
        } else if !checked {
          assert Enabled(s, Check) && WorksAlone(s, Check);
        } else if i :| 0 <= i < |s.workers| && s.workers[i].Waiting? {
          assert Enabled(s, Handoff(i)) && WorksAlone(s, Handoff(i));
        } else if i :| 0 <= i < |s.workers| && !s.workers[i].Idle? {
          HandWorks(s, i);
        } else {
          IdleNeedsNoPermit(s.workers);
          assert Enabled(s, Acquire(0)) && WorksAlone(s, Acquire(0));
        }
    }
  }

  lemma AvailableMoves(s: State, id: Id)
    requires Inv(s) && Running(s) && s.dropped == multiset{} && Is(s.table.entries, id, Available)
    ensures CanWork(s)
  {
    assert Tokens(s, id) + s.dropped[id] == 1;
    if HandCount(s.workers, id) > 0 {
      var i := SomeHandHolds(s.workers, id);
      HandWorks(s, i);
    } else if !s.deliverer.Selecting? {
      DelivererWorks(s);
    } else {
      assert multiset(s.table.box.queue)[id] > 0;
      assert Enabled(s, TakeNotify) && WorksAlone(s, TakeNotify);
    }
  }

  lemma NeverStuck(s: State)
    requires Inv(s) && Running(s) && s.dropped == multiset{}
    ensures CanWorkLater(s) || AllDone(s)
  {
    if AllDone(s) {
      return;
    }
    var id :| id in s.table.entries && !s.table.entries[id].st.Done?;
    if s.table.entries[id].st.Available? {
      AvailableMoves(s, id);
    } else {
      var when := s.table.entries[id].retryWhen;
      if when < s.clock {
        assert Enabled(s, Tick(id)) && WorksAlone(s, Tick(id));
      } else {
        var later := Next(s, Advance(when + 1));
        assert Enabled(s, Advance(when + 1));
        assert Enabled(later, Tick(id)) && WorksAlone(later, Tick(id));
        assert CanWork(later);
      }
    }
  }

  // ------------------------------------------------------------- whole runs

  /** A run of working and idle steps only. */
  predicate DrainRun(s: State, ls: seq<Label>, t: State)
    decreases |ls|
  {
    if ls == [] then s == t
    else
      && Enabled(s, ls[0]) && !Panics(s, ls[0]) && (Works(s, ls[0]) || Idles(s, ls[0]))
      && DrainRun(Next(s, ls[0]), ls[1..], t)
  }

  function RetryAnswers(ls: seq<Label>): nat {
    if ls == [] then 0 else Spent(ls[0]) + RetryAnswers(ls[1..])
  }

  function WorkDone(s: State, ls: seq<Label>, t: State): nat
    requires DrainRun(s, ls, t)
    decreases |ls|
  {
    if ls == [] then 0 else (if Works(s, ls[0]) then 1 else 0) + WorkDone(Next(s, ls[0]), ls[1..], t)
  }

  lemma DrainStep(s: State, l: Label, retries: nat)
    requires Inv(s) && Enabled(s, l) && !Panics(s, l) && (Works(s, l) || Idles(s, l))
    requires Spent(l) <= retries
    ensures Measure(Next(s, l), retries - Spent(l)) + (if Works(s, l) then 1 else 0) <= Measure(s, retries)
  {
    if Works(s, l) {
      StepDecreases(s, l, retries);
    } else {
      assert ParkedIds(Next(s, l)) == ParkedIds(s);
    }
  }

  lemma {:induction false} DrainBound(s: State, ls: seq<Label>, t: State, retries: nat)
    requires Inv(s) && DrainRun(s, ls, t) && RetryAnswers(ls) <= retries
    ensures WorkDone(s, ls, t) + Measure(t, retries - RetryAnswers(ls)) <= Measure(s, retries)
    ensures Inv(t)
    decreases |ls|
  {
    if ls != [] {
      StepKeepsInv(s, ls[0]);
      DrainStep(s, ls[0], retries);
      DrainBound(Next(s, ls[0]), ls[1..], t, retries - Spent(ls[0]));
    }
  }

  lemma {:induction false} DrainKeepsRunning(s: State, ls: seq<Label>, t: State)
    requires DrainRun(s, ls, t)
    ensures Running(s) ==> Running(t)
    ensures t.stopping == s.stopping
    decreases |ls|
  {
    if ls != [] {
      DrainKeepsRunning(Next(s, ls[0]), ls[1..], t);
    }
  }

  lemma {:induction false} DrainIsModest(s: State, ls: seq<Label>, t: State, limit: nat)
    requires DrainRun(s, ls, t)
    ensures ModestRun(s, ls, t, limit)
    decreases |ls|
  {
    if ls != [] {
      DrainIsModest(Next(s, ls[0]), ls[1..], t, limit);
    }
  }

  lemma DrainEnds(s: State, ls: seq<Label>, t: State, retries: nat)
    requires Inv(s) && Running(s) && DrainRun(s, ls, t) && RetryAnswers(ls) <= retries
    ensures t.dropped == multiset{} ==> CanWorkLater(t) || AllDone(t)
  {
    DrainBound(s, ls, t, retries);
    DrainKeepsRunning(s, ls, t);
    if t.dropped == multiset{} {
      NeverStuck(t);
    }
  }

  /** From any reachable state before shutdown, every run with at most `retries`
      retry answers does at most Measure(s, retries) useful steps, however many idle
      ones lie between; and where nothing was lost and the pool itself has no useful
      step left, now or later, every item is Done. */
  lemma PoolDrains(s: State, ls: seq<Label>, t: State, retries: nat)
    requires Reachable(s) && Running(s)
    requires DrainRun(s, ls, t) && RetryAnswers(ls) <= retries
    ensures WorkDone(s, ls, t) <= Measure(s, retries)
    ensures t.dropped == multiset{} ==> CanWorkLater(t) || AllDone(t)
  {
    ReachableInv(s);
    DrainBound(s, ls, t, retries);
    DrainEnds(s, ls, t, retries);
  }

  /** With up to 1000 items pending and nothing lost so far, nothing is lost on the
      way either. */
  lemma PendingThousandDrains(s: State, ls: seq<Label>, t: State, retries: nat)
    requires Reachable(s) && Running(s) && s.dropped == multiset{} && |PendingIds(s)| <= MAILBOX_SLOTS
    requires DrainRun(s, ls, t) && RetryAnswers(ls) <= retries
    ensures CanWorkLater(t) || AllDone(t)
  {
    ReachableInv(s);
    DrainIsModest(s, ls, t, MAILBOX_SLOTS);
    ModestRunDropsNothing(s, ls, t, MAILBOX_SLOTS);
    PoolDrains(s, ls, t, retries);
  }

  // --------------------------------------------------------------- shutdown

  /** A step of a worker or of the deliverer; the retry loop may have returned. */
  predicate OwnStep(s: State, l: Label) {
    WorksAlone(s, l) && !l.Tick?
  }

  ghost predicate CanMove(s: State) {
    exists l :: Enabled(s, l) && OwnStep(s, l)
  }

  /** Workers and deliverer have returned, and no permit is out. */
  ghost predicate Stands(s: State) {
    && (forall i :: 0 <= i < |s.workers| ==> s.workers[i].Stopped?)
    && s.deliverer.Halted? && s.table.taken == 0
  }

  lemma WorkerStops(s: State, i: nat)
    requires s.stopping && i < |s.workers| && !CanMove(s)
    ensures s.workers[i].Stopped?
  {
    assert !(Enabled(s, Quit(i)) && OwnStep(s, Quit(i)));
    assert !(Enabled(s, Abort(i)) && OwnStep(s, Abort(i)));
    assert !(Enabled(s, Release(i)) && OwnStep(s, Release(i)));
    assert !(Enabled(s, Lookup(i)) && OwnStep(s, Lookup(i)));
    assert !(Enabled(s, Finish(i)) && OwnStep(s, Finish(i)));
  }

  lemma DelivererStops(s: State)
    requires s.stopping && !CanMove(s)
    ensures s.deliverer.Halted?
  {
    assert !(Enabled(s, Halt) && OwnStep(s, Halt));
    assert !(Enabled(s, Label.RetrieveAll) && OwnStep(s, Label.RetrieveAll));
    assert !(Enabled(s, EndBatch) && OwnStep(s, EndBatch));
    assert !(Enabled(s, Check) && OwnStep(s, Check));
  }

  lemma {:induction false} StoppedHoldNothing(ws: seq<Worker>, id: Id)
    requires forall i :: 0 <= i < |ws| ==> ws[i].Stopped?
    ensures Permits(ws) == HandCount(ws, id) == 0
  {
    if ws != [] {
      StoppedHoldNothing(ws[..|ws| - 1], id);
    }
  }

  lemma AtRest(t: State)
    requires Inv(t) && t.stopping && !CanMove(t)
    ensures Stands(t)
    ensures forall id :: multiset(t.table.box.queue + InTransit(t.deliverer))[id] + t.dropped[id]
                         == if Is(t.table.entries, id, Available) then 1 else 0
  {
    DelivererStops(t);
    forall i | 0 <= i < |t.workers| ensures t.workers[i].Stopped? {
      WorkerStops(t, i);
    }
    forall id ensures multiset(t.table.box.queue + InTransit(t.deliverer))[id] + t.dropped[id]
                      == (if Is(t.table.entries, id, Available) then 1 else 0)
                      && t.table.taken == 0
    {
      StoppedHoldNothing(t.workers, id);
      assert Tokens(t, id) + t.dropped[id] == if Is(t.table.entries, id, Available) then 1 else 0;
    }
  }

  /** Once shutdown has begun the pool stops: the useful steps of every run are
      bounded as before, and where no worker and not the deliverer can move they
      have returned, every permit is back, and every item that was neither done,
      parked nor lost stands exactly once in the mailbox or the deliverer's rest. */
  lemma PoolStops(s: State, ls: seq<Label>, t: State, retries: nat)
    requires Reachable(s) && s.stopping && DrainRun(s, ls, t) && RetryAnswers(ls) <= retries
    ensures WorkDone(s, ls, t) <= Measure(s, retries)
    ensures !CanMove(t) ==> Stands(t)
    ensures !CanMove(t) ==> forall id :: multiset(t.table.box.queue + InTransit(t.deliverer))[id] + t.dropped[id]
                                         == if Is(t.table.entries, id, Available) then 1 else 0
  {
    ReachableInv(s);
    DrainBound(s, ls, t, retries);
    DrainKeepsRunning(s, ls, t);
    if !CanMove(t) {
      AtRest(t);
    }
  }
}
