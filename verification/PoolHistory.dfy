/** The history of one id over any run of the pool: what clients can observe is
    always a word of one small life-cycle automaton. */
module PoolHistory {
  import opened Wrappers
  import opened PoolItems
  import opened PoolProtocol
  import opened PoolSafety

  datatype Life =
    | Absent
    | Ready(item: Item)
    | Out(item: Item)
    | Parked(item: Item, when: int)
    | Closed(item: Item)

  /** One event seen from `id`; None when the life cycle forbids it. */
  function Follow(a: Life, e: Event, id: Id): Option<Life> {
    match e
    case AddCalled(item) =>
      Some(if item.id == id && a.Absent? then Ready(item) else a)
    case Got(item) =>
      if item.id != id then Some(a)
      else if a == Ready(item) then Some(Out(item))
      else None
    case Retried(k, when) =>
      if k != id then Some(a) else if a.Out? then Some(Parked(a.item, when)) else None
    case Completed(k) =>
      if k != id then Some(a) else if a.Out? then Some(Closed(a.item)) else None
    case ForceCalled(k) =>
      if k != id then Some(a)
      else if a.Absent? then None
      else Some(if a.Parked? then Ready(a.item) else a)
    case Ticked(k, now) =>
      if k != id then Some(a) else if a.Parked? && a.when < now then Some(Ready(a.item)) else None
  }

  function LifeOf(log: seq<Event>, id: Id): Option<Life> {
    if log == [] then Some(Absent)
    else
      match LifeOf(log[..|log| - 1], id)
      case None => None
      case Some(a) => Follow(a, log[|log| - 1], id)
  }

  // ------------------------------------------------ the pool obeys the automaton

  ghost predicate Busy(ws: seq<Worker>, id: Id) {
    exists i :: 0 <= i < |ws| && ws[i].Working? && ws[i].item.id == id
  }

  /** The state of the automaton that table and workers show. */
  ghost function LifeIn(entries: map<Id, Entry>, ws: seq<Worker>, id: Id): Life {
    if id !in entries then Absent
    else
      var e := entries[id];
      match e.st
      case Done => Closed(e.item)
      case InRetryPool => Parked(e.item, e.retryWhen)
      case _ => if Busy(ws, id) then Out(e.item) else Ready(e.item)
  }

  ghost function LifeNow(s: State, id: Id): Life {
    LifeIn(s.table.entries, s.workers, id)
  }

  lemma BusyIsHeld(s: State, id: Id)
    requires Inv(s) && Busy(s.workers, id)
    ensures Is(s.table.entries, id, Available)
  {
    var i :| 0 <= i < |s.workers| && s.workers[i].Working? && s.workers[i].item.id == id;
    HeldIsAvailable(s, i, id);
  }

  /** A worker changes between two states outside Work. */
  lemma BusyFrame(ws: seq<Worker>, i: nat, w: Worker, id: Id)
    requires i < |ws| && !(ws[i].Working? && ws[i].item.id == id) && !(w.Working? && w.item.id == id)
    ensures Busy(ws[i := w], id) <==> Busy(ws, id)
  {
    var ws' := ws[i := w];
    if Busy(ws, id) {
      var j :| 0 <= j < |ws| && ws[j].Working? && ws[j].item.id == id;
      assert ws'[j] == ws[j];
    }
    if Busy(ws', id) {
      var j :| 0 <= j < |ws'| && ws'[j].Working? && ws'[j].item.id == id;
      assert ws'[j] == ws[j];
    }
  }

  // What each event does to the table and the workers, it does to the automaton.

  lemma AddFollows(entries: map<Id, Entry>, ws: seq<Worker>, item: Item, id: Id)
    requires item.id !in entries ==> !Busy(ws, item.id)
    ensures var after := if item.id in entries then entries else entries[item.id := Entry(item, Available, ZERO_TIME)];
            Follow(LifeIn(entries, ws, id), AddCalled(item), id) == Some(LifeIn(after, ws, id))
  {
  }

  lemma ForceFollows(entries: map<Id, Entry>, ws: seq<Worker>, k: Id, id: Id)
    requires k in entries && (Is(entries, k, InRetryPool) ==> !Busy(ws, k))
    ensures var after := if Is(entries, k, InRetryPool) then SetState(entries, k, Available, ZERO_TIME) else entries;
            Follow(LifeIn(entries, ws, id), ForceCalled(k), id) == Some(LifeIn(after, ws, id))
  {
  }

  lemma TickFollows(entries: map<Id, Entry>, ws: seq<Worker>, k: Id, now: int, id: Id)
    requires Due(entries, k, now) && !Busy(ws, k)
    ensures Follow(LifeIn(entries, ws, id), Ticked(k, now), id)
            == Some(LifeIn(SetState(entries, k, Available, ZERO_TIME), ws, id))
  {
  }

  lemma GotFollows(entries: map<Id, Entry>, ws: seq<Worker>, i: nat, item: Item, id: Id)
    requires i < |ws| && ws[i].Received? && !Busy(ws, item.id)
    requires Is(entries, item.id, Available) && entries[item.id].item == item
    ensures Follow(LifeIn(entries, ws, id), Got(item), id) == Some(LifeIn(entries, ws[i := Working(item)], id))
  {
    if item.id == id {
      assert ws[i := Working(item)][i] == Working(item);
    } else {
      BusyFrame(ws, i, Working(item), id);
    }
  }

  lemma PutBackFollows(entries: map<Id, Entry>, ws: seq<Worker>, i: nat, st: ItemState, when: int, id: Id)
    requires i < |ws| && ws[i].Working? && Is(entries, ws[i].item.id, Available)
    requires st == InRetryPool || st == Done
    ensures var k := ws[i].item.id;
            var e := if st == Done then Completed(k) else Retried(k, when);
            Follow(LifeIn(entries, ws, id), e, id) == Some(LifeIn(SetState(entries, k, st, when), ws[i := Idle], id))
  {
    if ws[i].item.id == id {
      assert Busy(ws, id);
    } else {
      BusyFrame(ws, i, Idle, id);
    }
  }

  lemma ParkedIsIdle(s: State, id: Id)
    requires Inv(s) && !Is(s.table.entries, id, Available)
    ensures !Busy(s.workers, id)
  {
    if Busy(s.workers, id) {
      BusyIsHeld(s, id);
    }
  }

  lemma ClientStepLife(s: State, l: Label, id: Id)
    requires Inv(s) && Enabled(s, l) && (l.Add? || l.Force? || l.Tick?)
    ensures var s' := Next(s, l);
            |s'.log| == |s.log| + 1 && s'.log[..|s.log|] == s.log
            && Follow(LifeNow(s, id), s'.log[|s.log|], id) == Some(LifeNow(s', id))
  {
    match l {
      case Add(item) =>
        if item.id !in s.table.entries {
          ParkedIsIdle(s, item.id);
        }
        AddFollows(s.table.entries, s.workers, item, id);
      case Force(k) =>
        if Is(s.table.entries, k, InRetryPool) {
          ParkedIsIdle(s, k);
        }
        ForceFollows(s.table.entries, s.workers, k, id);
      case Tick(k) =>
        ParkedIsIdle(s, k);
        TickFollows(s.table.entries, s.workers, k, s.clock, id);
      case _ =>
    }
  }

  lemma LookupLife(s: State, i: nat, id: Id)
    requires Inv(s) && Enabled(s, Lookup(i)) && !Panics(s, Lookup(i))
    ensures var s' := Next(s, Lookup(i));
            |s'.log| == |s.log| + 1 && s'.log[..|s.log|] == s.log
            && Follow(LifeNow(s, id), s'.log[|s.log|], id) == Some(LifeNow(s', id))
  {
    var k := s.workers[i].id;
    HeldIsAvailable(s, i, k);
    GotFollows(s.table.entries, s.workers, i, s.table.entries[k].item, id);
  }

  lemma PutBackLife(s: State, l: Label, id: Id)
    requires Inv(s) && (l.Retry? || l.Finish?) && Enabled(s, l) && !Panics(s, l)
    ensures var s' := Next(s, l);
            |s'.log| == |s.log| + 1 && s'.log[..|s.log|] == s.log
            && Follow(LifeNow(s, id), s'.log[|s.log|], id) == Some(LifeNow(s', id))
  {
    HeldIsAvailable(s, l.i, s.workers[l.i].item.id);
    if l.Retry? {
      PutBackFollows(s.table.entries, s.workers, l.i, InRetryPool, l.when, id);
    } else {
      PutBackFollows(s.table.entries, s.workers, l.i, Done, ZERO_TIME, id);
    }
  }

  /** A step that no observer sees leaves every life as it is. */
  lemma SilentStepLife(s: State, l: Label, id: Id)
    requires Inv(s) && Enabled(s, l) && !Panics(s, l)
    requires !l.Add? && !l.Force? && !l.Tick? && !l.Lookup? && !l.Retry? && !l.Finish?
    ensures Next(s, l).log == s.log && LifeNow(Next(s, l), id) == LifeNow(s, id)
  {
    match l {
      case Acquire(i) => BusyFrame(s.workers, i, Waiting, id);
      case Handoff(i) => BusyFrame(s.workers, i, Received(s.deliverer.rest[0]), id);
      case Quit(i) => BusyFrame(s.workers, i, Stopped, id);
      case Abort(i) => BusyFrame(s.workers, i, Leaving, id);
      case Release(i) => BusyFrame(s.workers, i, Stopped, id);
      case _ =>
    }
  }

  lemma StepLife(s: State, l: Label, id: Id)
    requires Inv(s) && Enabled(s, l) && !Panics(s, l)
    requires LifeOf(s.log, id) == Some(LifeNow(s, id))
    ensures LifeOf(Next(s, l).log, id) == Some(LifeNow(Next(s, l), id))
  {
    match l {
      case Add(_) => ClientStepLife(s, l, id);
      case Force(_) => ClientStepLife(s, l, id);
      case Tick(_) => ClientStepLife(s, l, id);
      case Lookup(i) => LookupLife(s, i, id);
      case Retry(_, _) => PutBackLife(s, l, id);
      case Finish(_) => PutBackLife(s, l, id);
      case _ => SilentStepLife(s, l, id);
    }
  }

  lemma {:induction false} RunLife(s: State, ls: seq<Label>, t: State, id: Id)
    requires Inv(s) && Run(s, ls, t)
    requires LifeOf(s.log, id) == Some(LifeNow(s, id))
    ensures LifeOf(t.log, id) == Some(LifeNow(t, id))
    decreases |ls|
  {
    if ls != [] {
      StepKeepsInv(s, ls[0]);
      StepLife(s, ls[0], id);
      RunLife(Next(s, ls[0]), ls[1..], t, id);
    }
  }

  /** In every reachable state the log of every id is a legal life, and it ends
      where the table and the workers say it ends. */
  lemma EveryHistoryIsALife(t: State, id: Id)
    requires Reachable(t)
    ensures LifeOf(t.log, id) == Some(LifeNow(t, id))
  {
    var clock: int, workers: nat, concurrency: nat, ls :| Run(Initial(clock, workers, concurrency), ls, t);
    InitialInv(clock, workers, concurrency);
    RunLife(Initial(clock, workers, concurrency), ls, t, id);
  }

  // ---------------------------------------------------- what legal lives imply

  predicate IsGot(e: Event, id: Id) { e.Got? && e.item.id == id }
  predicate IsRetry(e: Event, id: Id) { e.Retried? && e.id == id }
  predicate IsCompletion(e: Event, id: Id) { e.Completed? && e.id == id }

  /** The event ends the wait that RetryLater(id, when) began. */
  predicate Wakes(e: Event, id: Id, when: int) {
    e == ForceCalled(id) || (e.Ticked? && e.id == id && e.now > when)
  }

  function Gets(log: seq<Event>, id: Id): nat {
    if log == [] then 0 else Gets(log[..|log| - 1], id) + if IsGot(log[|log| - 1], id) then 1 else 0
  }

  function Retries(log: seq<Event>, id: Id): nat {
    if log == [] then 0 else Retries(log[..|log| - 1], id) + if IsRetry(log[|log| - 1], id) then 1 else 0
  }

  function Completions(log: seq<Event>, id: Id): nat {
    if log == [] then 0 else Completions(log[..|log| - 1], id) + if IsCompletion(log[|log| - 1], id) then 1 else 0
  }

  function FirstAdded(log: seq<Event>, id: Id): Option<Item> {
    if log == [] then None
    else if log[0].AddCalled? && log[0].item.id == id then Some(log[0].item)
    else FirstAdded(log[1..], id)
  }

  lemma {:induction false} PrefixIsLegal(log: seq<Event>, id: Id, k: nat)
    requires LifeOf(log, id).Some? && k < |log|
    ensures LifeOf(log[..k + 1], id).Some? && LifeOf(log[..k], id).Some?
    ensures Follow(LifeOf(log[..k], id).value, log[k], id) == LifeOf(log[..k + 1], id)
  {
    if k + 1 == |log| {
      assert log[..k + 1] == log;
    } else {
      var last := |log| - 1;
      assert log[..last][..k + 1] == log[..k + 1] && log[..last][..k] == log[..k];
      PrefixIsLegal(log[..last], id, k);
    }
  }

  lemma {:induction false} LifeCounts(log: seq<Event>, id: Id)
    requires LifeOf(log, id).Some?
    ensures var a := LifeOf(log, id).value;
            && Gets(log, id) == Retries(log, id) + Completions(log, id) + (if a.Out? then 1 else 0)
            && Completions(log, id) == if a.Closed? then 1 else 0
  {
    if log != [] {
      LifeCounts(log[..|log| - 1], id);
    }
  }

  lemma {:induction false} FirstAddedSnoc(log: seq<Event>, e: Event, id: Id)
    ensures FirstAdded(log + [e], id) ==
              if FirstAdded(log, id).Some? then FirstAdded(log, id)
              else if e.AddCalled? && e.item.id == id then Some(e.item)
              else None
  {
    if log == [] {
      assert ([] + [e])[1..] == [];
    } else {
      assert (log + [e])[1..] == log[1..] + [e];
      FirstAddedSnoc(log[1..], e, id);
    }
  }

  lemma {:induction false} LifeKeepsFirstItem(log: seq<Event>, id: Id)
    requires LifeOf(log, id).Some?
    ensures var a := LifeOf(log, id).value;
            FirstAdded(log, id) == if a.Absent? then None else Some(a.item)
  {
    if log != [] {
      var before, e := log[..|log| - 1], log[|log| - 1];
      LifeKeepsFirstItem(before, id);
      FirstAddedSnoc(before, e, id);
      assert log == before + [e];
    }
  }

  lemma {:induction false} ClosedStays(log: seq<Event>, id: Id, k: nat)
    requires LifeOf(log, id).Some? && k < |log| && IsCompletion(log[k], id)
    ensures LifeOf(log, id).value.Closed?
  {
    if k < |log| - 1 {
      assert log[..|log| - 1][k] == log[k];
      ClosedStays(log[..|log| - 1], id, k);
    }
  }

  lemma {:induction false} ParkedUntilWoken(log: seq<Event>, id: Id, k: nat)
    requires LifeOf(log, id).Some? && k < |log| && IsRetry(log[k], id)
    requires forall m :: k < m < |log| ==> !Wakes(log[m], id, log[k].when)
    ensures LifeOf(log, id).value.Parked? && LifeOf(log, id).value.when == log[k].when
  {
    var before := log[..|log| - 1];
    if k < |log| - 1 {
      assert forall m :: 0 <= m < |before| ==> before[m] == log[m];
      ParkedUntilWoken(before, id, k);
    }
  }

  /** In every run an id is handed out once, plus once per RetryLater: every Get
      so far has been answered by one RetryLater or the one Complete, except the
      one that is being worked on. */
  lemma GetsAreBounded(t: State, id: Id)
    requires Reachable(t)
    ensures Gets(t.log, id) == Retries(t.log, id) + Completions(t.log, id) + (if Busy(t.workers, id) then 1 else 0)
    ensures Completions(t.log, id) <= 1
    ensures Gets(t.log, id) <= 1 + Retries(t.log, id)
  {
    EveryHistoryIsALife(t, id);
    LifeCounts(t.log, id);
    ReachableInv(t);
    if Busy(t.workers, id) {
      BusyIsHeld(t, id);
    }
  }

  /** After Complete(id) no Get returns the id again, whatever Add and ForceRetry
      calls come in between. */
  lemma NeverGotAfterComplete(t: State, id: Id, k: nat, m: nat)
    requires Reachable(t) && k < m < |t.log| && IsCompletion(t.log[k], id)
    ensures !IsGot(t.log[m], id)
  {
    EveryHistoryIsALife(t, id);
    PrefixIsLegal(t.log, id, m);
    assert t.log[..m][k] == t.log[k];
    ClosedStays(t.log[..m], id, k);
  }

  /** Between RetryLater(id, when) and the next Get of the id lies a tick later
      than `when`, or a ForceRetry. */
  lemma RetryWaits(t: State, id: Id, k: nat, m: nat)
    requires Reachable(t) && k < m < |t.log| && IsRetry(t.log[k], id) && IsGot(t.log[m], id)
    ensures exists j :: k < j < m && Wakes(t.log[j], id, t.log[k].when)
  {
    EveryHistoryIsALife(t, id);
    PrefixIsLegal(t.log, id, m);
    var before := t.log[..m];
    if forall j :: k < j < m ==> !Wakes(t.log[j], id, t.log[k].when) {
      assert before[k] == t.log[k];
      ParkedUntilWoken(before, id, k);
      assert false;
    }
  }

  /** Get always returns the item that was added first under its id. */
  lemma GetReturnsFirstAdded(t: State, id: Id, m: nat)
    requires Reachable(t) && m < |t.log| && IsGot(t.log[m], id)
    ensures FirstAdded(t.log[..m], id) == Some(t.log[m].item)
  {
    EveryHistoryIsALife(t, id);
    PrefixIsLegal(t.log, id, m);
    LifeKeepsFirstItem(t.log[..m], id);
  }
}
