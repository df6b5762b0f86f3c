/** What the pool grants to its workers and clients: which steps are open to whom,
    when a tick wakes an item, what counts as pending. */
module PoolService {
  import opened Wrappers
  import opened Mailboxes
  import opened MailboxCells
  import opened PoolItems
  import opened PoolProtocol
  import opened PoolSafety
  import opened PoolHistory

  // --------------------------------------------------------------- permits

  /** A worker gets past the semaphore exactly while fewer permits are out than the
      concurrency allows; permits are held by whoever waits, works or is leaving. */
  lemma AcquireIff(s: State, i: nat)
    requires Reachable(s) && i < |s.workers| && s.workers[i].Idle?
    ensures Enabled(s, Acquire(i)) <==> Permits(s.workers) < s.concurrency
  {
    ReachableInv(s);
  }

  /** Any waiting worker may take the next id, whoever received one looks it up, and
      whoever works may answer either way, with any retry time. */
  lemma WorkersAreServed(s: State, i: nat, when: int)
    requires Reachable(s) && i < |s.workers|
    ensures s.workers[i].Waiting? && Sending(s.deliverer) ==> Enabled(s, Handoff(i))
    ensures s.workers[i].Received? ==> Enabled(s, Lookup(i)) && !Panics(s, Lookup(i))
    ensures s.workers[i].Working? ==>
              && Enabled(s, Finish(i)) && !Panics(s, Finish(i))
              && Enabled(s, Retry(i, when)) && !Panics(s, Retry(i, when))
  {
    if s.workers[i].Received? {
      PanicsAreUnreachable(s, Lookup(i));
    }
    if s.workers[i].Working? {
      PanicsAreUnreachable(s, Finish(i));
      PanicsAreUnreachable(s, Retry(i, when));
    }
  }

  /** Clients are never turned away: any item may be added and any known one forced, the
      clock may always move on, and shutdown can begin once. */
  lemma ClientsAreServed(s: State, item: Item, now: int)
    ensures Enabled(s, Add(item)) && !Panics(s, Add(item))
    ensures Enabled(s, Force(item.id)) <==> item.id in s.table.entries
    ensures s.clock < now ==> Enabled(s, Advance(now)) && Next(s, Advance(now)).clock == now
    ensures Enabled(s, Shutdown) <==> !s.stopping
  {
  }

  /** Shutdown, and nothing else, makes workers and deliverer give up. */
  lemma StopsOnlyWhenStopping(s: State, i: nat)
    requires i < |s.workers|
    ensures s.workers[i].Idle? ==> (Enabled(s, Quit(i)) <==> s.stopping)
    ensures s.workers[i].Waiting? ==> (Enabled(s, Abort(i)) <==> s.stopping)
    ensures s.deliverer.Selecting? || Sending(s.deliverer) ==> (Enabled(s, Halt) <==> s.stopping)
    ensures forall l :: Enabled(s, l) && !Panics(s, l) ==> (Next(s, l).stopping <==> s.stopping || l.Shutdown?)
  {
  }

  lemma ReachableStep(s: State, l: Label)
    requires Reachable(s) && Enabled(s, l) && !Panics(s, l)
    ensures Reachable(Next(s, l))
  {
    var clock: int, workers: nat, concurrency: nat, ls :| Run(Initial(clock, workers, concurrency), ls, s);
    RunSnoc(Initial(clock, workers, concurrency), ls, s, l);
  }

  /** The first `k` of `n` workers work on the items 0, 1, .., k-1, and nothing is underway. */
  ghost predicate Loaded(s: State, n: nat, k: nat) {
    && |s.workers| == n && s.concurrency == n && k <= n && s.table.taken == k
    && s.deliverer == Selecting && s.table.box == Box([], false, 1000)
    && WorkersLoaded(s.workers, k)
    && (forall id :: id in s.table.entries ==> id < k)
  }

  lemma DeliverOne(s: State, n: nat, k: nat) returns (t: State)
    requires Reachable(s) && Loaded(s, n, k) && k < n
    ensures Reachable(t) && t.deliverer == Notified && t.workers == s.workers && t.concurrency == n
    ensures t.table == Table(s.table.entries[k := Entry(Item(k, 0), Available, 0)], Box([k], false, 1000), k)
  {
    var s1 := Next(s, Add(Item(k, 0)));
    ReachableStep(s, Add(Item(k, 0)));
    assert [k] + [] == [k];
    assert s1.table.box == Box([k], true, 1000);
    t := Next(s1, TakeNotify);
    ReachableStep(s1, TakeNotify);
  }

  lemma OfferOne(s: State, k: nat) returns (t: State)
    requires Reachable(s) && s.deliverer == Notified && s.table.box == Box([k], false, 1000)
    requires Is(s.table.entries, k, Available)
    ensures Reachable(t) && t.deliverer == Batch([k], true) && t.workers == s.workers && t.concurrency == s.concurrency
    ensures t.table == s.table.(box := Box([], false, 1000))
  {
    FifoIsBackwards(s.table.box);
    assert Backwards([k]) == [k];
    var s1 := Next(s, Label.RetrieveAll);
    ReachableStep(s, Label.RetrieveAll);
    assert s1.deliverer == Batch([k], false);
    t := Next(s1, Check);
    ReachableStep(s1, Check);
  }

  /** The first `k` workers are at work, and the others idle. */
  predicate WorkersLoaded(ws: seq<Worker>, k: nat) {
    forall j :: 0 <= j < |ws| ==> ws[j] == if j < k then Working(Item(j, 0)) else Idle
  }

  lemma TakeOffer(t: State, n: nat, k: nat) returns (u: State)
    requires Reachable(t) && t.deliverer == Batch([k], true) && t.table.box == Box([], false, 1000)
    requires |t.workers| == n && t.concurrency == n && k < n && t.table.taken == k && t.workers[k].Idle?
    ensures Reachable(u) && u == t.(deliverer := Batch([], false), table := t.table.(taken := k + 1),
                                    workers := t.workers[k := Received(k)])
  {
    var t1 := Next(t, Acquire(k));
    ReachableStep(t, Acquire(k));
    u := Next(t1, Handoff(k));
    ReachableStep(t1, Handoff(k));
    assert [k][1..] == [];
    assert t1.workers[k := Received(k)] == t.workers[k := Received(k)];
  }

  lemma WorkOnOffer(t: State, n: nat, k: nat, idle: seq<Worker>) returns (u: State)
    requires Reachable(t) && t.deliverer == Batch([], false) && t.table.box == Box([], false, 1000)
    requires |idle| == n && t.concurrency == n && k < n && t.table.taken == k + 1
    requires WorkersLoaded(idle, k) && t.workers == idle[k := Received(k)]
    requires k in t.table.entries && t.table.entries[k] == Entry(Item(k, 0), Available, 0)
    requires forall id :: id in t.table.entries ==> id <= k
    ensures Reachable(u) && Loaded(u, n, k + 1)
  {
    var t1 := Next(t, Lookup(k));
    ReachableStep(t, Lookup(k));
    u := Next(t1, EndBatch);
    ReachableStep(t1, EndBatch);
  }

  lemma {:induction false} LoadUp(n: nat, k: nat) returns (s: State)
    requires k <= n
    ensures Reachable(s) && Loaded(s, n, k)
  {
    if k == 0 {
      s := Initial(0, n, n);
      assert Run(s, [], s);
    } else {
      var before := LoadUp(n, k - 1);
      var delivered := DeliverOne(before, n, k - 1);
      var t := OfferOne(delivered, k - 1);
      var u := TakeOffer(t, n, k - 1);
      s := WorkOnOffer(u, n, k - 1, before.workers);
    }
  }

  /** With any concurrency, that many workers can be at work at once, each on its own item. */
  lemma AllWorkAtOnce(n: nat) returns (s: State)
    ensures Reachable(s) && s.concurrency == |s.workers| == n
    ensures forall i :: 0 <= i < n ==> s.workers[i].Working?
    ensures forall i, j :: 0 <= i < j < n ==> s.workers[i].item.id != s.workers[j].item.id
  {
    s := LoadUp(n, n);
  }

  // ----------------------------------------------------------- ticks and pending

  /** The log holds RetryLater(id, when), and neither a tick of the id nor a ForceRetry
      since. */
  ghost predicate Unanswered(log: seq<Event>, id: Id, k: nat) {
    && k < |log| && IsRetry(log[k], id)
    && forall m :: k < m < |log| ==> log[m] != ForceCalled(id) && !(log[m].Ticked? && log[m].id == id)
  }

  lemma {:induction false} ParkedSince(log: seq<Event>, id: Id) returns (k: nat)
    requires LifeOf(log, id).Some? && LifeOf(log, id).value.Parked?
    ensures Unanswered(log, id, k) && log[k].when == LifeOf(log, id).value.when
  {
    var last := |log| - 1;
    if IsRetry(log[last], id) {
      k := last;
    } else {
      k := ParkedSince(log[..last], id);
      assert log[..last][k] == log[k];
      assert forall m :: k < m < last ==> log[..last][m] == log[m];
    }
  }

  lemma {:induction false} TicksBefore(s: State, ls: seq<Label>, t: State)
    requires Run(s, ls, t)
    requires forall m :: 0 <= m < |s.log| && s.log[m].Ticked? ==> s.log[m].now <= s.clock
    ensures forall m :: 0 <= m < |t.log| && t.log[m].Ticked? ==> t.log[m].now <= t.clock
    decreases |ls|
  {
    if ls != [] {
      TicksBefore(Next(s, ls[0]), ls[1..], t);
    }
  }

  /** No tick is logged with a time that the clock has not reached; so RetryWaits speaks of
      real time. */
  lemma TicksAreInThePast(t: State, m: nat)
    requires Reachable(t) && m < |t.log| && t.log[m].Ticked?
    ensures t.log[m].now <= t.clock
  {
    var clock: int, workers: nat, concurrency: nat, ls :| Run(Initial(clock, workers, concurrency), ls, t);
    TicksBefore(Initial(clock, workers, concurrency), ls, t);
  }

  /** A tick wakes an item exactly if its RetryLater is unanswered and its time has
      passed. */
  lemma TickWakesIff(t: State, id: Id)
    requires Reachable(t)
    ensures Enabled(t, Tick(id)) <==> exists k: nat :: Unanswered(t.log, id, k) && t.log[k].when < t.clock
  {
    ReachableInv(t);
    EveryHistoryIsALife(t, id);
    if k: nat :| Unanswered(t.log, id, k) && t.log[k].when < t.clock {
      ParkedUntilWoken(t.log, id, k);
    }
    if Enabled(t, Tick(id)) {
      var k := ParkedSince(t.log, id);
      assert t.log[k].when < t.clock;
    }
  }

  /** NumItemsPending counts an id exactly if it was added and never completed. */
  lemma PendingIff(t: State, id: Id)
    requires Reachable(t)
    ensures Pending(t.table.entries, id) <==> FirstAdded(t.log, id).Some? && Completions(t.log, id) == 0
  {
    ReachableInv(t);
    EveryHistoryIsALife(t, id);
    LifeCounts(t.log, id);
    LifeKeepsFirstItem(t.log, id);
  }

  /** ForceRetry of a parked item makes it Available at once, ahead of its time. */
  lemma ForceWakes(t: State, id: Id)
    requires Reachable(t) && Is(t.table.entries, id, InRetryPool)
    ensures Enabled(t, Force(id))
    ensures var u := Next(t, Force(id));
            Is(u.table.entries, id, Available) && Newest(u.table.box, id) && Tokens(u, id) == 1
  {
    ReachableInv(t);
    StepKeepsInv(t, Force(id));
    var u := Next(t, Force(id));
    assert multiset(u.table.box.queue)[u.table.box.queue[0]] > 0;
    assert Tokens(u, id) + u.dropped[id] == 1;
  }
}
