/** The mailbox read off its cells: where a delivery goes, in which order messages
    leave, and what became of every message that ever left. */
module MailboxCells {
  import opened Wrappers
  import opened Mailboxes

  /** The cells from the last to the first. */
  function Backwards<T>(q: seq<T>): seq<T> {
    seq(|q|, k requires 0 <= k < |q| => q[|q| - 1 - k])
  }

  lemma FifoIsBackwards<T>(b: Box<T>)
    ensures Fifo(b) == Backwards(b.queue)
  {
    forall k | 0 <= k < |b.queue| ensures Fifo(b)[k] == Backwards(b.queue)[k] {
      ReversedAt(b.queue, k);
    }
  }

  /** A delivery puts the message into the first cell, gives notice, and pushes out the
      last cell exactly when the box has a positive capacity and was full. */
  lemma DeliveredCells<T>(b: Box<T>, x: T)
    requires WithinCapacity(b)
    ensures var after := Delivered(b, x);
            && |after.queue| == (if b.capacity > 0 && |b.queue| == b.capacity then b.capacity else |b.queue| + 1)
            && after.queue[0] == x && after.notify && after.capacity == b.capacity
            && forall k :: 0 < k < |after.queue| ==> after.queue[k] == b.queue[k - 1]
  {
  }

  lemma {:induction false} FateSplit<T>(a: seq<(T, Fate)>, b: seq<(T, Fate)>, f: Fate)
    ensures WithFate(a + b, f) == WithFate(a, f) + WithFate(b, f)
  {
    if a == [] {
      assert a + b == b;
    } else {
      var rest, x := WithFate(a[1..], f), if a[0].1 == f then [a[0].0] else [];
      assert (a + b)[1..] == a[1..] + b && (a + b)[0] == a[0];
      FateSplit(a[1..], b, f);
      Regroup(x, rest, WithFate(b, f));
    }
  }

  lemma {:induction false} FateTagged<T>(xs: seq<T>, g: Fate, f: Fate)
    ensures WithFate(Tagged(xs, g), f) == if f == g then xs else []
  {
    if xs != [] {
      FateTagged(xs[1..], g, f);
    }
  }

  /** What leaves the box with one operation, read off its cells: the last cell of a full
      box is lost to a delivery, Retrieve takes the last cell, RetrieveAll takes all
      from the last to the first, and Clear wipes them. */
  function Leaves<T>(b: Box<T>, op: Op<T>, f: Fate): seq<T> {
    var n := |b.queue|;
    match op
    case Deliver(_) => if f == Lost && b.capacity > 0 && n == b.capacity then [b.queue[n - 1]] else []
    case Retrieve => if f == Taken && n > 0 then [b.queue[n - 1]] else []
    case RetrieveAll => if f == Taken then Backwards(b.queue) else []
    case Clear => if f == Wiped then Backwards(b.queue) else []
  }

  lemma ApplyFates<T>(l: Ledger<T>, op: Op<T>, f: Fate)
    requires WithinCapacity(l.box)
    ensures WithFate(Apply(l, op).gone, f) == WithFate(l.gone, f) + Leaves(l.box, op, f)
  {
    var q := Fifo(l.box);
    FifoIsBackwards(l.box);
    match op {
      case Deliver(_) =>
        if Overflows(l.box) {
          GoneWith(l.gone, q[..1], Lost, f);
        } else {
          GoneWith(l.gone, [], Lost, f);
        }
      case Retrieve =>
        if l.box.queue != [] {
          GoneWith(l.gone, q[..1], Taken, f);
        } else {
          GoneWith(l.gone, [], Taken, f);
        }
      case RetrieveAll => GoneWith(l.gone, q, Taken, f);
      case Clear => GoneWith(l.gone, q, Wiped, f);
    }
  }

  lemma GoneWith<T>(gone: seq<(T, Fate)>, xs: seq<T>, g: Fate, f: Fate)
    ensures WithFate(gone + Tagged(xs, g), f) == WithFate(gone, f) + if f == g then xs else []
    ensures gone + [] == gone
  {
    FateSplit(gone, Tagged(xs, g), f);
    FateTagged(xs, g, f);
  }

  /** The messages that leave over a run with the given fate. */
  function LeavesAlong<T>(l: Ledger<T>, ops: seq<Op<T>>, f: Fate): seq<T>
    decreases |ops|
  {
    if ops == [] then [] else Leaves(l.box, ops[0], f) + LeavesAlong(Apply(l, ops[0]), ops[1..], f)
  }

  /** Every message has the fate that the operation it left with gives it: what
      Retrieve and RetrieveAll returned was taken, what Clear found was wiped, what a
      delivery pushed out was lost. */
  lemma {:induction false} FatesAreTrue<T>(l: Ledger<T>, ops: seq<Op<T>>, f: Fate)
    requires Accounted(l)
    ensures WithFate(RunOps(l, ops).gone, f) == WithFate(l.gone, f) + LeavesAlong(l, ops, f)
    decreases |ops|
  {
    if ops == [] {
      assert WithFate(l.gone, f) + [] == WithFate(l.gone, f);
    } else {
      var next := Apply(l, ops[0]);
      ApplyAccounted(l, ops[0]);
      ApplyFates(l, ops[0], f);
      FatesAreTrue(next, ops[1..], f);
      Regroup(WithFate(l.gone, f), Leaves(l.box, ops[0], f), LeavesAlong(next, ops[1..], f));
    }
  }
}
