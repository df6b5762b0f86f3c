/** The state that process/pool.go keeps under `poolItemsMu`: the table of items,
    the mailbox of available ids and the permits of the semaphore.  The functions
    say what each critical section does; class `Pool` runs them in place. */
module PoolItems {
  import opened Mailboxes
  import opened Wrappers

  /** Ids are only ever compared, so any type with equality would do. */
  type Id = int

  datatype Item = Item(id: Id, payload: int)

  datatype ItemState = Available | InUse | Done | InRetryPool

  datatype Entry = Entry(item: Item, st: ItemState, retryWhen: int)

  datatype Table = Table(entries: map<Id, Entry>, box: Box<Id>, taken: nat)

  const MAILBOX_SLOTS: nat := 1000
  const ZERO_TIME: int := 0

  function EmptyTable(): Table {
    Table(map[], Box([], false, MAILBOX_SLOTS), 0)
  }

  predicate Is(entries: map<Id, Entry>, id: Id, st: ItemState) {
    id in entries && entries[id].st == st
  }

  function SetState(entries: map<Id, Entry>, id: Id, st: ItemState, when: int): map<Id, Entry>
    requires id in entries
  {
    entries[id := entries[id].(st := st, retryWhen := when)]
  }

  function Added(t: Table, item: Item): Table {
    if item.id in t.entries then t
    else t.(entries := t.entries[item.id := Entry(item, Available, ZERO_TIME)], box := Delivered(t.box, item.id))
  }

  /** Back to Available and into the mailbox. */
  function Requeued(t: Table, id: Id): Table
    requires id in t.entries
  {
    t.(entries := SetState(t.entries, id, Available, ZERO_TIME), box := Delivered(t.box, id))
  }

  function Forced(t: Table, id: Id): Table
    requires id in t.entries
  {
    if t.entries[id].st == InRetryPool then Requeued(t, id) else t
  }

  function PutBack(t: Table, id: Id, st: ItemState, when: int): Table
    requires id in t.entries && t.taken > 0
  {
    t.(entries := SetState(t.entries, id, st, when), taken := t.taken - 1)
  }

  predicate Due(entries: map<Id, Entry>, id: Id, now: int) {
    Is(entries, id, InRetryPool) && entries[id].retryWhen < now
  }

  /** One whole tick, for the order in which the table happened to be walked. */
  function RequeuedAll(t: Table, order: seq<Id>): (r: Table)
    requires forall id :: id in order ==> id in t.entries
    ensures r.entries.Keys == t.entries.Keys
  {
    if order == [] then t
    else Requeued(RequeuedAll(t, order[..|order| - 1]), order[|order| - 1])
  }

  lemma {:induction false} RequeuedAllEntries(t: Table, order: seq<Id>)
    requires forall id :: id in order ==> id in t.entries
    ensures var t' := RequeuedAll(t, order);
            && t'.taken == t.taken
            && t'.entries == map id | id in t.entries ::
                 if id in order then t.entries[id].(st := Available, retryWhen := ZERO_TIME) else t.entries[id]
  {
    if order != [] {
      var last := |order| - 1;
      assert order == order[..last] + [order[last]];
      RequeuedAllEntries(t, order[..last]);
    }
  }

  /** What one tick leaves: of the parked entries exactly those whose time has passed
      are Available again. */
  function AfterTick(entries: map<Id, Entry>, now: int): map<Id, Entry> {
    map id | id in entries ::
      if entries[id].st.InRetryPool? && entries[id].retryWhen < now then Entry(entries[id].item, Available, 0)
      else entries[id]
  }

  lemma TickIsAfterTick(t: Table, order: seq<Id>, now: int)
    requires forall id :: id in order <==> Due(t.entries, id, now)
    requires forall id :: id in order ==> id in t.entries
    ensures RequeuedAll(t, order).entries == AfterTick(t.entries, now)
  {
    RequeuedAllEntries(t, order);
    var after := RequeuedAll(t, order).entries;
    forall id | id in t.entries ensures after[id] == AfterTick(t.entries, now)[id] {
      assert id in order <==> Is(t.entries, id, InRetryPool) && t.entries[id].retryWhen < now;
    }
  }

  /** `x` was delivered last, and the consumer is notified. */
  predicate Newest(b: Box<Id>, x: Id) {
    b.queue != [] && b.queue[0] == x && b.notify
  }

  ghost predicate Pending(entries: map<Id, Entry>, id: Id) {
    Is(entries, id, Available) || Is(entries, id, InRetryPool)
  }

  class Pool {
    var poolItems: map<Id, Entry>
    var taken: nat
    const itemsAvailable: Mailbox<Id>
    const concurrency: nat

    ghost function View(): Table
      reads this, itemsAvailable
    {
      Table(poolItems, itemsAvailable.View(), taken)
    }

    constructor (concurrency: nat)
      ensures View() == EmptyTable() && this.concurrency == concurrency
      ensures fresh(itemsAvailable)
    {
      poolItems, taken := map[], 0;
      itemsAvailable := new Mailbox(MAILBOX_SLOTS);
      this.concurrency := concurrency;
    }

    method Add(item: Item)
      modifies this, itemsAvailable
      ensures View() == Added(old(View()), item)
      ensures item.id in old(poolItems) ==> View() == old(View())
      ensures item.id !in old(poolItems) ==>
                && poolItems == old(poolItems)[item.id := Entry(item, Available, 0)]
                && Newest(itemsAvailable.View(), item.id)
    {
      if item.id in poolItems {
        return;
      }
      poolItems := poolItems[item.id := Entry(item, Available, ZERO_TIME)];
      itemsAvailable.Deliver(item.id);
    }

    method SetItemState(id: Id, st: ItemState, retryWhen: int)
      requires id in poolItems
      modifies this`poolItems
      ensures poolItems == SetState(old(poolItems), id, st, retryWhen)
    {
      var entry := poolItems[id];
      entry := entry.(st := st);
      entry := entry.(retryWhen := retryWhen);
      poolItems := poolItems[id := entry];
    }

    method Requeue(id: Id)
      requires id in poolItems
      modifies this`poolItems, itemsAvailable
      ensures View() == Requeued(old(View()), id)
      ensures poolItems == old(poolItems)[id := Entry(old(poolItems)[id].item, Available, 0)]
      ensures Newest(itemsAvailable.View(), id)
    {
      SetItemState(id, Available, ZERO_TIME);
      itemsAvailable.Deliver(id);
    }

    method RetryLater(id: Id, when: int)
      requires id in poolItems && taken > 0
      modifies this
      ensures View() == PutBack(old(View()), id, InRetryPool, when)
      ensures poolItems == old(poolItems)[id := Entry(old(poolItems)[id].item, InRetryPool, when)]
      ensures taken == old(taken) - 1
    {
      SetItemState(id, InRetryPool, when);
      taken := taken - 1;
    }

    method Complete(id: Id)
      requires id in poolItems && taken > 0
      modifies this
      ensures View() == PutBack(old(View()), id, Done, ZERO_TIME)
      ensures poolItems == old(poolItems)[id := Entry(old(poolItems)[id].item, Done, 0)]
      ensures taken == old(taken) - 1
    {
      SetItemState(id, Done, ZERO_TIME);
      taken := taken - 1;
    }

    method ForceRetry(id: Id)
      requires id in poolItems
      modifies this, itemsAvailable
      ensures View() == Forced(old(View()), id)
      ensures old(poolItems)[id].st != InRetryPool ==> View() == old(View())
      ensures old(poolItems)[id].st == InRetryPool ==>
                && poolItems == old(poolItems)[id := Entry(old(poolItems)[id].item, Available, 0)]
                && Newest(itemsAvailable.View(), id)
    {
      match poolItems[id].st {
        case Available =>
        case InUse =>
        case InRetryPool =>
          Requeue(id);
        case Done =>
      }
    }

    /** The body of one tick of the retry loop: every due item, and no other,
        goes back to the mailbox once, in the order the map is walked. */
    method RequeueDue(now: int) returns (ghost order: seq<Id>)
      modifies this, itemsAvailable
      ensures NoDuplicates(order) && (forall id :: id in order <==> Due(old(View()).entries, id, now))
      ensures forall id :: id in order ==> id in old(View()).entries
      ensures View() == RequeuedAll(old(View()), order)
      ensures poolItems == AfterTick(old(poolItems), now)
    {
      ghost var was := View();
      order := [];
      var todo := poolItems.Keys;
      while todo != {}
        invariant todo <= was.entries.Keys == poolItems.Keys
        invariant NoDuplicates(order)
        invariant forall id :: id in order <==> id !in todo && Due(was.entries, id, now)
        invariant forall id :: id in todo ==> poolItems[id] == was.entries[id]
        invariant View() == RequeuedAll(was, order)
        decreases |todo|
      {
        var id := AnyElement(todo);
        var entry := poolItems[id];
        todo := todo - {id};
        if entry.st != InRetryPool || !(entry.retryWhen < now) {
          continue;
        }
        assert (order + [id])[..|order|] == order;
        order := order + [id];
        Requeue(id);
      }
      RequeuedAllEntries(was, order);
      TickIsAfterTick(was, order, now);
    }

    method NumItemsPending() returns (n: nat)
      ensures n == |set id | id in poolItems && Pending(poolItems, id)|
      ensures n == |set id | id in poolItems && (poolItems[id].st.Available? || poolItems[id].st.InRetryPool?)|
    {
      assert (set id | id in poolItems && Pending(poolItems, id))
          == set id | id in poolItems && (poolItems[id].st.Available? || poolItems[id].st.InRetryPool?);
      ghost var pending := set id | id in poolItems && Pending(poolItems, id);
      n := 0;
      var todo := poolItems.Keys;
      ghost var counted: set<Id> := {};
      while todo != {}
        invariant todo <= poolItems.Keys
        invariant counted == pending - todo
        invariant n == |counted|
        decreases |todo|
      {
        var id := AnyElement(todo);
        todo := todo - {id};
        if poolItems[id].st == Available || poolItems[id].st == InRetryPool {
          n := n + 1;
          counted := counted + {id};
        }
      }
    }
  }
}
