/** The order in which the pool hands its items out. */
module PoolOrder {
  import opened Wrappers
  import opened Mailboxes
  import opened MailboxCells
  import opened PoolItems
  import opened PoolProtocol
  import opened PoolSafety

  /** The id that a step puts into the mailbox. */
  function NewDelivery(s: State, l: Label): seq<Id> {
    match l
    case Add(item) => if item.id in s.table.entries then [] else [item.id]
    case Force(id) => if Is(s.table.entries, id, InRetryPool) then [id] else []
    case Tick(id) => [id]
    case _ => []
  }

  /** The id that the worker at the other end of the channel holds after the step. */
  function NewReceipt(s: State, l: Label): seq<Id>
    requires Enabled(s, l) && !Panics(s, l)
  {
    if !l.Handoff? then []
    else
      match Next(s, l).workers[l.i]
      case Received(id) => [id]
      case _ => []
  }

  function Deliveries(s: State, ls: seq<Label>, t: State): seq<Id>
    requires Run(s, ls, t)
    decreases |ls|
  {
    if ls == [] then [] else NewDelivery(s, ls[0]) + Deliveries(Next(s, ls[0]), ls[1..], t)
  }

  function Receipts(s: State, ls: seq<Label>, t: State): seq<Id>
    requires Run(s, ls, t)
    decreases |ls|
  {
    if ls == [] then [] else NewReceipt(s, ls[0]) + Receipts(Next(s, ls[0]), ls[1..], t)
  }

  /** The ids on their way to the workers: the deliverer's, then the mailbox from its
      last cell to its first. */
  function Underway(s: State): seq<Id> {
    InTransit(s.deliverer) + Backwards(s.table.box.queue)
  }

  /** Received and underway are the delivered ones in order; all of them, if none was lost. */
  ghost predicate InOrder(received: seq<Id>, s: State, delivered: seq<Id>) {
    && Subsequence(received + Underway(s), delivered)
    && (s.dropped == multiset{} ==> received + Underway(s) == delivered)
  }

  // ------------------------------------------------------------- subsequences

  lemma {:induction false} SubsequenceSelf<T>(a: seq<T>)
    ensures Subsequence(a, a)
  {
    if a != [] {
      SubsequenceSelf(a[1..]);
    }
  }

  lemma {:induction false} SubsequenceSnoc<T>(a: seq<T>, b: seq<T>, x: T)
    requires Subsequence(a, b)
    ensures Subsequence(a + [x], b + [x])
  {
    if b == [] {
      assert a + [x] == [x] && b + [x] == [x];
      SubsequenceSelf([x]);
    } else {
      assert (b + [x])[1..] == b[1..] + [x];
      if a != [] && a[0] == b[0] {
        assert (a + [x])[1..] == a[1..] + [x];
        SubsequenceSnoc(a[1..], b[1..], x);
      } else {
        SubsequenceSnoc(a, b[1..], x);
        SubsequenceWeaken(a + [x], b[0], b[1..] + [x]);
        assert b + [x] == [b[0]] + (b[1..] + [x]);
      }
    }
  }

  lemma {:induction false} SubsequenceWithout<T>(a: seq<T>, x: T, c: seq<T>, b: seq<T>)
    requires Subsequence(a + [x] + c, b)
    ensures Subsequence(a + c, b)
    decreases |b|
  {
    var whole := a + [x] + c;
    if a == [] {
      SubsequenceTail(whole, b);
      assert whole[1..] == c && a + c == c;
    } else if whole[0] == b[0] {
      assert whole[1..] == a[1..] + [x] + c && (a + c)[1..] == a[1..] + c;
      SubsequenceWithout(a[1..], x, c, b[1..]);
    } else {
      SubsequenceWithout(a, x, c, b[1..]);
    }
  }

  // ------------------------------------------------------------------ one step

  /** A delivery into the box, seen oldest first. */
  lemma DeliveryBackwards(b: Box<Id>, x: Id)
    requires WithinCapacity(b)
    ensures !Overflows(b) ==> Backwards(Delivered(b, x).queue) == Backwards(b.queue) + [x]
    ensures Overflows(b) ==> b.queue != [] && Backwards(Delivered(b, x).queue) == Backwards(b.queue)[1..] + [x]
  {
  }

  lemma DeliveryInOrder(received: seq<Id>, s: State, delivered: seq<Id>, x: Id, t: State)
    requires InOrder(received, s, delivered) && WithinCapacity(s.table.box)
    requires t.deliverer == s.deliverer && t.table.box == Delivered(s.table.box, x)
    requires t.dropped == s.dropped + Overflow(s.table.box)
    ensures InOrder(received, t, delivered + [x])
  {
    var q := Backwards(s.table.box.queue);
    var front := received + InTransit(s.deliverer);
    DeliveryBackwards(s.table.box, x);
    assert received + Underway(s) == front + q;
    SubsequenceSnoc(front + q, delivered, x);
    if Overflows(s.table.box) {
      assert t.dropped[s.table.box.queue[|s.table.box.queue| - 1]] > 0;
      assert front + q + [x] == front + [q[0]] + (q[1..] + [x]);
      SubsequenceWithout(front, q[0], q[1..] + [x], delivered + [x]);
      assert received + Underway(t) == front + (q[1..] + [x]);
    } else {
      assert received + Underway(t) == front + q + [x];
    }
  }

  lemma StillInOrder(received: seq<Id>, s: State, delivered: seq<Id>, receipt: seq<Id>, t: State)
    requires InOrder(received, s, delivered) && t.dropped == s.dropped
    requires Underway(s) == receipt + Underway(t)
    ensures InOrder(received + receipt, t, delivered)
  {
    assert received + Underway(s) == (received + receipt) + Underway(t);
  }

  lemma ClientStepInOrder(received: seq<Id>, s: State, delivered: seq<Id>, l: Label)
    requires Inv(s) && InOrder(received, s, delivered) && Enabled(s, l) && !Panics(s, l)
    requires l.Add? || l.Force? || l.Tick?
    ensures InOrder(received, Next(s, l), delivered + NewDelivery(s, l))
  {
    var t := Next(s, l);
    if NewDelivery(s, l) == [] {
      assert delivered + [] == delivered && received + [] == received;
      StillInOrder(received, s, delivered, [], t);
    } else {
      DeliveryInOrder(received, s, delivered, NewDelivery(s, l)[0], t);
    }
  }

  lemma RetrievedUnderway(s: State)
    requires Enabled(s, Label.RetrieveAll)
    ensures Underway(Next(s, Label.RetrieveAll)) == Underway(s)
  {
    FifoIsBackwards(s.table.box);
    var t := Next(s, Label.RetrieveAll);
    assert InTransit(s.deliverer) == [] && Backwards(t.table.box.queue) == [];
  }

  lemma HandedUnderway(s: State, i: nat)
    requires Enabled(s, Handoff(i))
    ensures Underway(s) == NewReceipt(s, Handoff(i)) + Underway(Next(s, Handoff(i)))
  {
    var id, rest, q := s.deliverer.rest[0], s.deliverer.rest[1..], Backwards(s.table.box.queue);
    assert s.deliverer.rest == [id] + rest;
    assert ([id] + rest) + q == [id] + (rest + q);
  }

  /** A step that neither delivers nor hands over leaves what is underway as it is. */
  lemma UnderwayStays(s: State, l: Label)
    requires Inv(s) && Enabled(s, l) && !Panics(s, l)
    requires !l.Add? && !l.Force? && !l.Tick? && !l.RetrieveAll? && !l.Handoff?
    ensures InTransit(Next(s, l).deliverer) == InTransit(s.deliverer)
    ensures Next(s, l).table.box.queue == s.table.box.queue
  {
    if l.Check? {
      HeadIsAvailable(s);
    }
  }

  lemma UnderwayAfter(s: State, l: Label)
    requires Inv(s) && Enabled(s, l) && !Panics(s, l) && !l.Add? && !l.Force? && !l.Tick?
    ensures Underway(s) == NewReceipt(s, l) + Underway(Next(s, l))
  {
    if l.Handoff? {
      HandedUnderway(s, l.i);
    } else {
      assert NewReceipt(s, l) + Underway(Next(s, l)) == Underway(Next(s, l));
      if l.RetrieveAll? {
        RetrievedUnderway(s);
      } else {
        UnderwayStays(s, l);
      }
    }
  }

  lemma NothingDropped(s: State, l: Label)
    requires Enabled(s, l) && !Panics(s, l) && !l.Add? && !l.Force? && !l.Tick?
    ensures Next(s, l).dropped == s.dropped && NewDelivery(s, l) == []
  {
  }

  lemma OtherStepInOrder(received: seq<Id>, s: State, delivered: seq<Id>, l: Label)
    requires Inv(s) && InOrder(received, s, delivered) && Enabled(s, l) && !Panics(s, l)
    requires !l.Add? && !l.Force? && !l.Tick?
    ensures InOrder(received + NewReceipt(s, l), Next(s, l), delivered + NewDelivery(s, l))
  {
    NothingDropped(s, l);
    UnderwayAfter(s, l);
    StillInOrder(received, s, delivered, NewReceipt(s, l), Next(s, l));
    assert delivered + [] == delivered;
  }

  lemma StepInOrder(received: seq<Id>, s: State, delivered: seq<Id>, l: Label)
    requires Inv(s) && InOrder(received, s, delivered) && Enabled(s, l) && !Panics(s, l)
    ensures InOrder(received + NewReceipt(s, l), Next(s, l), delivered + NewDelivery(s, l))
  {
    if l.Add? || l.Force? || l.Tick? {
      ClientStepInOrder(received, s, delivered, l);
      assert NewReceipt(s, l) == [] && received + [] == received;
    } else {
      OtherStepInOrder(received, s, delivered, l);
    }
  }

  lemma {:induction false} RunInOrder(received: seq<Id>, s: State, delivered: seq<Id>, ls: seq<Label>, t: State)
    requires Inv(s) && InOrder(received, s, delivered) && Run(s, ls, t)
    ensures InOrder(received + Receipts(s, ls, t), t, delivered + Deliveries(s, ls, t))
    decreases |ls|
  {
    if ls == [] {
      assert received + [] == received && delivered + [] == delivered;
    } else {
      var next, r, d := Next(s, ls[0]), NewReceipt(s, ls[0]), NewDelivery(s, ls[0]);
      StepKeepsInv(s, ls[0]);
      StepInOrder(received, s, delivered, ls[0]);
      RunInOrder(received + r, next, delivered + d, ls[1..], t);
      Regroup(received, r, Receipts(next, ls[1..], t));
      Regroup(delivered, d, Deliveries(next, ls[1..], t));
    }
  }

  /** Over any run the ids that workers received, then those the deliverer still has,
      then those in the mailbox are a subsequence of the delivered ids in the order
      of delivery, and all of them while nothing was lost. */
  lemma HandedOutInOrder(clock: int, workers: nat, concurrency: nat, ls: seq<Label>, t: State)
    requires Run(Initial(clock, workers, concurrency), ls, t)
    ensures var s := Initial(clock, workers, concurrency);
            var handled := Receipts(s, ls, t) + InTransit(t.deliverer) + Backwards(t.table.box.queue);
            && Subsequence(handled, Deliveries(s, ls, t))
            && (t.dropped == multiset{} ==> handled == Deliveries(s, ls, t))
  {
    var s := Initial(clock, workers, concurrency);
    InitialInv(clock, workers, concurrency);
    assert [] + Underway(s) == [];
    RunInOrder([], s, [], ls, t);
    assert [] + Receipts(s, ls, t) == Receipts(s, ls, t) && [] + Deliveries(s, ls, t) == Deliveries(s, ls, t);
    Regroup(Receipts(s, ls, t), InTransit(t.deliverer), Backwards(t.table.box.queue));
  }
}
