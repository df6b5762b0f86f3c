/** Does a consumer that sleeps on Notify() ever sleep on a non-empty mailbox?

    One consumer and any number of producers share a box; every step is one
    critical section or one receive from the notification channel. */
module MailboxWakeups {
  import opened Mailboxes

  /** What the consumer does with one notification: `TakeAll` is the pool's
      deliverer, `TakeOne` the periodic task, `UntilEmpty` the loop that calls
      Retrieve until it returns nil. */
  datatype Discipline = TakeAll | TakeOne | UntilEmpty

  datatype State = State(box: Box<int>, woken: bool)

  datatype Label = Produce(x: int) | Empty | TakeToken | Consume

  predicate Enabled(s: State, l: Label) {
    match l
    case Produce(_) => true
    case Empty => true
    case TakeToken => !s.woken && s.box.notify
    case Consume => s.woken
  }

  function Next(d: Discipline, s: State, l: Label): State
    requires Enabled(s, l)
  {
    match l
    case Produce(x) => s.(box := Delivered(s.box, x))
    case Empty => s.(box := Emptied(s.box))
    case TakeToken => State(Quieted(s.box), true)
    case Consume =>
      match d
      case TakeAll => State(Emptied(s.box), false)
      case TakeOne => State(WithoutOldest(s.box), false)
      case UntilEmpty => State(WithoutOldest(s.box), s.box.queue != [])
  }

  /** The loop over Retrieve ends exactly with the call that finds nothing. */
  lemma LoopEndsOnEmpty(s: State)
    requires Enabled(s, Consume)
    ensures Next(UntilEmpty, s, Consume).woken <==> s.box.queue != []
  {
  }

  /** `ls` is a run from `s` that ends in `t`. */
  predicate Run(d: Discipline, s: State, ls: seq<Label>, t: State)
    decreases |ls|
  {
    if ls == [] then s == t
    else Enabled(s, ls[0]) && Run(d, Next(d, s, ls[0]), ls[1..], t)
  }

  function Fresh(capacity: nat): State {
    State(Box([], false, capacity), false)
  }

  predicate Asleep(s: State) {
    s.box.queue != [] && !s.box.notify && !s.woken
  }

  ghost predicate Inv(d: Discipline, capacity: nat, s: State) {
    && s.box.capacity == capacity
    && WithinCapacity(s.box)
    && !Asleep(s)
  }

  lemma {:induction false} RunKeepsInv(d: Discipline, capacity: nat, s: State, ls: seq<Label>, t: State)
    requires d == TakeOne ==> capacity == 1
    requires Inv(d, capacity, s) && Run(d, s, ls, t)
    ensures Inv(d, capacity, t)
    decreases |ls|
  {
    if ls != [] {
      RunKeepsInv(d, capacity, Next(d, s, ls[0]), ls[1..], t);
    }
  }

  /** Two deliveries, one notification, one Retrieve. */
  lemma TakeOneLosesWakeup(capacity: nat) returns (ls: seq<Label>, t: State)
    requires capacity != 1
    ensures Run(TakeOne, Fresh(capacity), ls, t) && Asleep(t)
  {
    var s0 := Fresh(capacity);
    var s1 := Next(TakeOne, s0, Produce(1));
    var s2 := Next(TakeOne, s1, Produce(2));
    var s3 := Next(TakeOne, s2, TakeToken);
    t := Next(TakeOne, s3, Consume);
    assert s2.box.queue == [2, 1];
    assert t.box.queue == [2];
    ls := [Consume];
    assert Run(TakeOne, s3, [Consume], t);
    assert Run(TakeOne, s2, [TakeToken, Consume], t);
    assert Run(TakeOne, s1, [Produce(2), TakeToken, Consume], t);
    ls := [Produce(1), Produce(2), TakeToken, Consume];
    assert ls[1..] == [Produce(2), TakeToken, Consume];
    assert Run(TakeOne, s0, ls, t);
  }

  ghost predicate NeverAsleep(d: Discipline, capacity: nat) {
    forall ls, t :: Run(d, Fresh(capacity), ls, t) ==> !Asleep(t)
  }

  /** A wake-up can be lost exactly when one message is taken per notification
      and the capacity is not 1. */
  lemma WakeupsAreNeverLostIff(d: Discipline, capacity: nat)
    ensures NeverAsleep(d, capacity) <==> (d != TakeOne || capacity == 1)
  {
    if d == TakeOne && capacity != 1 {
      var ls, t := TakeOneLosesWakeup(capacity);
      assert !NeverAsleep(TakeOne, capacity);
    } else {
      forall ls, t | Run(d, Fresh(capacity), ls, t) ensures !Asleep(t) {
        RunKeepsInv(d, capacity, Fresh(capacity), ls, t);
      }
    }
  }
}
