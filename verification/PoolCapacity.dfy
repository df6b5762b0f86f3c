/** How many items the pool can hold before its mailbox loses one. */
module PoolCapacity {
  import opened PoolItems
  import opened PoolProtocol
  import opened PoolSafety
  import opened Wrappers

  lemma {:induction false} DistinctFits(q: seq<Id>, ids: set<Id>)
    requires forall id :: multiset(q)[id] <= 1
    requires forall i :: 0 <= i < |q| ==> q[i] in ids
    ensures |q| <= |ids|
  {
    if q != [] {
      var rest := q[1..];
      assert q == [q[0]] + rest;
      forall id ensures multiset(rest)[id] <= 1 {
        assert multiset(q)[id] == multiset([q[0]])[id] + multiset(rest)[id];
      }
      assert multiset(q)[q[0]] == 1 + multiset(rest)[q[0]];
      forall i | 0 <= i < |rest| ensures rest[i] in ids - {q[0]} {
        assert rest[i] == q[i + 1];
        assert multiset(rest)[rest[i]] > 0;
      }
      assert ids == (ids - {q[0]}) + {q[0]};
      DistinctFits(rest, ids - {q[0]});
    }
  }

  ghost function AvailableIds(s: State): set<Id> {
    set id | id in s.table.entries && s.table.entries[id].st.Available?
  }

  /** What NumItemsPending counts. */
  ghost function PendingIds(s: State): set<Id> {
    set id | id in s.table.entries && Pending(s.table.entries, id)
  }

  /** The queue holds distinct Available ids. */
  lemma QueueFits(s: State)
    requires Inv(s)
    ensures |s.table.box.queue| <= |AvailableIds(s)|
  {
    var q := s.table.box.queue;
    forall k ensures multiset(q)[k] <= 1 && (k in q ==> k in AvailableIds(s)) {
      assert Tokens(s, k) + s.dropped[k] == if Is(s.table.entries, k, Available) then 1 else 0;
      assert k in q ==> multiset(q)[k] > 0;
    }
    DistinctFits(q, AvailableIds(s));
  }

  lemma AvailableArePending(s: State)
    ensures |AvailableIds(s)| <= |PendingIds(s)|
    ensures (exists id :: Is(s.table.entries, id, InRetryPool)) ==> |AvailableIds(s)| < |PendingIds(s)|
  {
    SubsetSize(AvailableIds(s), PendingIds(s));
    if id :| Is(s.table.entries, id, InRetryPool) {
      SubsetSize(AvailableIds(s) + {id}, PendingIds(s));
    }
  }

  predicate AddsNew(s: State, l: Label) {
    l.Add? && l.item.id !in s.table.entries
  }

  /** An Add of a new id comes only while fewer than `limit` items are pending. */
  ghost predicate Modest(s: State, l: Label, limit: nat) {
    AddsNew(s, l) ==> |PendingIds(s)| < limit
  }

  lemma PendingBefore(s: State, l: Label, id: Id)
    requires Inv(s) && Enabled(s, l) && !Panics(s, l) && Pending(Next(s, l).table.entries, id)
    ensures Pending(s.table.entries, id) || (AddsNew(s, l) && l.item.id == id)
  {
    if l.Retry? || l.Finish? {
      HeldIsAvailable(s, l.i, s.workers[l.i].item.id);
    }
  }

  lemma PendingGrows(s: State, l: Label)
    requires Inv(s) && Enabled(s, l) && !Panics(s, l)
    ensures |PendingIds(Next(s, l))| <= |PendingIds(s)| + if AddsNew(s, l) then 1 else 0
  {
    var s' := Next(s, l);
    var added := if AddsNew(s, l) then {l.item.id} else {};
    forall id | id in PendingIds(s') ensures id in PendingIds(s) + added {
      PendingBefore(s, l, id);
    }
    SubsetSize(PendingIds(s'), PendingIds(s) + added);
  }

  /** Below the limit no step overflows, and the limit is kept. */
  lemma ModestStep(s: State, l: Label, limit: nat)
    requires Inv(s) && Enabled(s, l) && !Panics(s, l)
    requires |PendingIds(s)| <= limit <= MAILBOX_SLOTS && Modest(s, l, limit)
    ensures Next(s, l).dropped == s.dropped && |PendingIds(Next(s, l))| <= limit
  {
    QueueFits(s);
    AvailableArePending(s);
    DroppedByStep(s, l);
    PendingGrows(s, l);
    assert l.Tick? || (l.Force? && Delivers(s, l)) ==> Is(s.table.entries, l.id, InRetryPool);
  }

  ghost predicate ModestRun(s: State, ls: seq<Label>, t: State, limit: nat)
    decreases |ls|
  {
    if ls == [] then s == t
    else
      && Enabled(s, ls[0]) && !Panics(s, ls[0]) && Modest(s, ls[0], limit)
      && ModestRun(Next(s, ls[0]), ls[1..], t, limit)
  }

  lemma {:induction false} ModestRunDropsNothing(s: State, ls: seq<Label>, t: State, limit: nat)
    requires Inv(s) && ModestRun(s, ls, t, limit) && |PendingIds(s)| <= limit <= MAILBOX_SLOTS
    ensures t.dropped == s.dropped && |PendingIds(t)| <= limit
    decreases |ls|
  {
    if ls != [] {
      StepKeepsInv(s, ls[0]);
      ModestStep(s, ls[0], limit);
      ModestRunDropsNothing(Next(s, ls[0]), ls[1..], t, limit);
    }
  }

  lemma {:induction false} ModestSnoc(s: State, ls: seq<Label>, t: State, l: Label, limit: nat)
    requires ModestRun(s, ls, t, limit) && Enabled(t, l) && !Panics(t, l) && Modest(t, l, limit)
    ensures ModestRun(s, ls + [l], Next(t, l), limit)
    decreases |ls|
  {
    if ls == [] {
      assert ModestRun(Next(t, l), [], Next(t, l), limit);
      assert ([] + [l])[1..] == [];
    } else {
      assert (ls + [l])[1..] == ls[1..] + [l];
      ModestSnoc(Next(s, ls[0]), ls[1..], t, l, limit);
    }
  }

  /** The ids 0, 1, .., n-1 are in the table and in the mailbox, all Available. */
  ghost predicate Holding(s: State, n: nat) {
    && PendingIds(s) == s.table.entries.Keys && |PendingIds(s)| == |s.table.box.queue| == n
    && s.table.box.capacity == MAILBOX_SLOTS
    && forall id :: id in s.table.entries <==> 0 <= id < n
  }

  lemma AddOne(s: State, n: nat)
    requires Holding(s, n) && n < MAILBOX_SLOTS
    ensures Holding(Next(s, Add(Item(n, 0))), n + 1)
  {
    var t := Next(s, Add(Item(n, 0)));
    assert t.table.entries.Keys == s.table.entries.Keys + {n};
    assert PendingIds(t) == PendingIds(s) + {n};
  }

  /** Adding 0, 1, .., n-1 while nothing else runs. */
  lemma {:induction false} AddMany(s: State, n: nat, limit: nat) returns (ls: seq<Label>, t: State)
    requires s == Initial(0, 0, 0) && n <= MAILBOX_SLOTS < limit
    ensures ModestRun(s, ls, t, limit) && Holding(t, n)
  {
    if n == 0 {
      ls, t := [], s;
      assert PendingIds(s) == {};
    } else {
      var before, u := AddMany(s, n - 1, limit);
      var l := Add(Item(n - 1, 0));
      AddOne(u, n - 1);
      ModestSnoc(s, before, u, l, limit);
      ls, t := before + [l], Next(u, l);
    }
  }

  ghost predicate NeverLoses(limit: nat) {
    forall clock: int, workers: nat, concurrency: nat, ls, t ::
      ModestRun(Initial(clock, workers, concurrency), ls, t, limit) ==> t.dropped == multiset{}
  }

  /** A client that adds a new item only while NumItemsPending() is below `limit`
      loses none, in any run, exactly when `limit` is at most the 1000 slots of
      the mailbox; however many items are Done by then does not matter. */
  lemma NothingLostIff(limit: nat)
    ensures NeverLoses(limit) <==> limit <= 1000
  {
    if limit <= MAILBOX_SLOTS {
      forall clock: int, workers: nat, concurrency: nat, ls, t
        | ModestRun(Initial(clock, workers, concurrency), ls, t, limit)
        ensures t.dropped == multiset{}
      {
        var s := Initial(clock, workers, concurrency);
        InitialInv(clock, workers, concurrency);
        assert PendingIds(s) == {};
        ModestRunDropsNothing(s, ls, t, limit);
      }
    } else {
      var s := Initial(0, 0, 0);
      var ls, u := AddMany(s, MAILBOX_SLOTS, limit);
      var l := Add(Item(MAILBOX_SLOTS, 0));
      ModestSnoc(s, ls, u, l, limit);
      var lost := u.table.box.queue[|u.table.box.queue| - 1];
      assert Next(u, l).dropped[lost] >= 1;
    }
  }
}
