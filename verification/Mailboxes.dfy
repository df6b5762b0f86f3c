/** The bounded, drop-oldest mailbox of utils/mailbox.go.

    `Box` is the value of a mailbox between two critical sections; the functions
    on it say what one critical section does, and class `Mailbox` runs them in
    place.  `Ledger` accounts for every message ever delivered. */
module Mailboxes {
  import opened Wrappers

  /** `queue` is newest first, as in the source; `notify` says whether the
      one-slot notification channel holds its token; capacity 0 is unbounded. */
  datatype Box<T> = Box(queue: seq<T>, notify: bool, capacity: nat)

  ghost predicate WithinCapacity<T>(b: Box<T>) {
    b.capacity > 0 ==> |b.queue| <= b.capacity
  }

  function Reversed<T>(s: seq<T>): (r: seq<T>)
    ensures |r| == |s|
  {
    if s == [] then [] else Reversed(s[1..]) + [s[0]]
  }

  /** Oldest first: the order in which messages leave. */
  function Fifo<T>(b: Box<T>): seq<T> {
    Reversed(b.queue)
  }

  predicate Overflows<T>(b: Box<T>) {
    b.capacity > 0 && |b.queue| >= b.capacity
  }

  function Delivered<T>(b: Box<T>, x: T): Box<T> {
    var queue := [x] + b.queue;
    b.(queue := if Overflows(b) then queue[..|queue| - 1] else queue, notify := true)
  }

  function WithoutOldest<T>(b: Box<T>): Box<T> {
    if b.queue == [] then b else b.(queue := b.queue[..|b.queue| - 1])
  }

  function Emptied<T>(b: Box<T>): Box<T> {
    b.(queue := [])
  }

  /** The notification token has been received. */
  function Quieted<T>(b: Box<T>): Box<T> {
    b.(notify := false)
  }

  lemma {:induction false} ReversedAt<T>(s: seq<T>, k: nat)
    requires k < |s|
    ensures Reversed(s)[k] == s[|s| - 1 - k]
  {
    if k < |s| - 1 {
      ReversedAt(s[1..], k);
    }
  }

  lemma {:induction false} ReversedSnoc<T>(s: seq<T>, x: T)
    ensures Reversed(s + [x]) == [x] + Reversed(s)
  {
    if s == [] {
    } else {
      assert (s + [x])[1..] == s[1..] + [x];
      ReversedSnoc(s[1..], x);
    }
  }

  lemma {:induction false} ReversedBag<T>(s: seq<T>)
    ensures multiset(Reversed(s)) == multiset(s)
  {
    if s == [] {
    } else {
      ReversedBag(s[1..]);
      assert s == [s[0]] + s[1..];
    }
  }

  /** Seen oldest first, a delivery appends at the back and, when the box is
      full, loses exactly the front. */
  lemma DeliverAppends<T>(b: Box<T>, x: T)
    requires WithinCapacity(b)
    ensures WithinCapacity(Delivered(b, x))
    ensures !Overflows(b) ==> Fifo(Delivered(b, x)) == Fifo(b) + [x]
    ensures Overflows(b) ==> Fifo(b) != [] && Fifo(Delivered(b, x)) == Fifo(b)[1..] + [x]
  {
    if Overflows(b) {
      var last := |b.queue| - 1;
      assert b.queue == b.queue[..last] + [b.queue[last]];
      ReversedSnoc(b.queue[..last], b.queue[last]);
      assert Delivered(b, x).queue == [x] + b.queue[..last];
    }
  }

  /** Dropping the last queue cell takes the front of the FIFO. */
  lemma OldestIsFront<T>(b: Box<T>)
    requires b.queue != []
    ensures Fifo(b) == [b.queue[|b.queue| - 1]] + Fifo(WithoutOldest(b))
  {
    var last := |b.queue| - 1;
    assert b.queue == b.queue[..last] + [b.queue[last]];
    ReversedSnoc(b.queue[..last], b.queue[last]);
  }

  class Mailbox<T> {
    var queue: seq<T>
    var notify: bool
    const capacity: nat

    ghost function View(): Box<T>
      reads this
    {
      Box(queue, notify, capacity)
    }

    constructor (capacity: nat)
      ensures View() == Box([], false, capacity)
    {
      this.queue, this.notify, this.capacity := [], false, capacity;
    }

    method Deliver(x: T)
      modifies this
      ensures View() == Delivered(old(View()), x)
    {
      queue := [x] + queue;
      if |queue| > capacity && capacity > 0 {
        queue := queue[..|queue| - 1];
      }
      notify := true;
    }

    /** Takes the notification token, as a receive on Notify() does. */
    method TakeNotify()
      requires notify
      modifies this
      ensures View() == Quieted(old(View())) && queue == old(queue) && !notify
    {
      notify := false;
    }

    method Retrieve() returns (x: Option<T>)
      modifies this
      ensures x == if old(queue) == [] then None else Some(Fifo(old(View()))[0])
      ensures View() == WithoutOldest(old(View()))
    {
      if |queue| == 0 {
        return None;
      }
      OldestIsFront(View());
      x := Some(queue[|queue| - 1]);
      queue := queue[..|queue| - 1];
    }

    method RetrieveAll() returns (all: seq<T>)
      modifies this
      ensures all == Fifo(old(View()))
      ensures View() == Emptied(old(View())) && queue == [] && notify == old(notify)
    {
      ghost var was := queue;
      all := queue;
      queue := [];
      var i, j := 0, |all| - 1;
      while i < j
        invariant 0 <= i <= j + 1 && i + j == |was| - 1 && |all| == |was|
        invariant forall k :: 0 <= k < |was| && !(i <= k <= j) ==> all[k] == was[|was| - 1 - k]
        invariant forall k :: i <= k <= j ==> all[k] == was[k]
      {
        all := all[i := all[j]][j := all[i]];
        i, j := i + 1, j - 1;
      }
      forall k | 0 <= k < |was| ensures all[k] == Reversed(was)[k] {
        ReversedAt(was, k);
      }
    }

    method Clear()
      modifies this
      ensures View() == Emptied(old(View())) && queue == [] && notify == old(notify)
    {
      queue := [];
    }
  }

  // ---------------------------------------------------------------- ledger

  datatype Op<T> = Deliver(x: T) | Retrieve | RetrieveAll | Clear

  datatype Fate = Taken | Lost | Wiped

  /** A box with its history: `gone` lists the messages that left, in leaving
      order, with the way they left. */
  datatype Ledger<T> = Ledger(box: Box<T>, delivered: seq<T>, gone: seq<(T, Fate)>)

  function Tagged<T>(xs: seq<T>, f: Fate): seq<(T, Fate)> {
    if xs == [] then [] else [(xs[0], f)] + Tagged(xs[1..], f)
  }

  function Apply<T>(l: Ledger<T>, op: Op<T>): Ledger<T> {
    match op
    case Deliver(x) =>
      Ledger(Delivered(l.box, x), l.delivered + [x],
             l.gone + if Overflows(l.box) then Tagged(Fifo(l.box)[..1], Lost) else [])
    case Retrieve =>
      l.(box := WithoutOldest(l.box),
         gone := l.gone + if l.box.queue != [] then Tagged(Fifo(l.box)[..1], Taken) else [])
    case RetrieveAll => l.(box := Emptied(l.box), gone := l.gone + Tagged(Fifo(l.box), Taken))
    case Clear => l.(box := Emptied(l.box), gone := l.gone + Tagged(Fifo(l.box), Wiped))
  }

  function RunOps<T>(l: Ledger<T>, ops: seq<Op<T>>): Ledger<T>
    decreases |ops|
  {
    if ops == [] then l else RunOps(Apply(l, ops[0]), ops[1..])
  }

  function Messages<T>(gone: seq<(T, Fate)>): (r: seq<T>)
    ensures |r| == |gone|
  {
    if gone == [] then [] else [gone[0].0] + Messages(gone[1..])
  }

  function WithFate<T>(gone: seq<(T, Fate)>, f: Fate): seq<T> {
    if gone == [] then []
    else (if gone[0].1 == f then [gone[0].0] else []) + WithFate(gone[1..], f)
  }

  ghost predicate Accounted<T>(l: Ledger<T>) {
    WithinCapacity(l.box) && l.delivered == Messages(l.gone) + Fifo(l.box)
  }

  predicate Subsequence<T(==)>(a: seq<T>, b: seq<T>) {
    if a == [] then true
    else if b == [] then false
    else if a[0] == b[0] then Subsequence(a[1..], b[1..])
    else Subsequence(a, b[1..])
  }

  lemma {:induction false} MessagesSplit<T>(a: seq<(T, Fate)>, b: seq<(T, Fate)>)
    ensures Messages(a + b) == Messages(a) + Messages(b)
  {
    if a == [] {
      assert a + b == b;
    } else {
      assert (a + b)[1..] == a[1..] + b;
      MessagesSplit(a[1..], b);
    }
  }

  lemma {:induction false} MessagesTagged<T>(xs: seq<T>, f: Fate)
    ensures Messages(Tagged(xs, f)) == xs
  {
    if xs != [] {
      MessagesTagged(xs[1..], f);
    }
  }

  lemma RegroupFront<T>(gone: seq<T>, q: seq<T>, k: nat, arriving: seq<T>)
    requires k <= |q|
    ensures gone + q + arriving == gone + q[..k] + (q[k..] + arriving)
  {
    assert q == q[..k] + q[k..];
  }

  /** The first `k` queued messages leave with fate `f`, and `arriving` joins. */
  lemma FrontLeaves<T>(l: Ledger<T>, k: nat, f: Fate, arriving: seq<T>, after: Box<T>)
    requires Accounted(l) && k <= |Fifo(l.box)|
    requires Fifo(after) == Fifo(l.box)[k..] + arriving
    ensures l.delivered + arriving == Messages(l.gone + Tagged(Fifo(l.box)[..k], f)) + Fifo(after)
  {
    var q := Fifo(l.box);
    MessagesSplit(l.gone, Tagged(q[..k], f));
    MessagesTagged(q[..k], f);
    RegroupFront(Messages(l.gone), q, k, arriving);
  }

  lemma ApplyAccounted<T>(l: Ledger<T>, op: Op<T>)
    requires Accounted(l)
    ensures Accounted(Apply(l, op))
  {
    var after := Apply(l, op).box;
    match op {
      case Deliver(x) =>
        DeliverAppends(l.box, x);
        FrontLeaves(l, if Overflows(l.box) then 1 else 0, Lost, [x], after);
        assert !Overflows(l.box) ==> Tagged(Fifo(l.box)[..0], Lost) == [];
      case Retrieve =>
        if l.box.queue != [] {
          OldestIsFront(l.box);
          FrontLeaves(l, 1, Taken, [], after);
        } else {
          assert l.gone + [] == l.gone;
        }
      case RetrieveAll =>
        assert Fifo(l.box)[..|Fifo(l.box)|] == Fifo(l.box);
        FrontLeaves(l, |Fifo(l.box)|, Taken, [], after);
      case Clear =>
        assert Fifo(l.box)[..|Fifo(l.box)|] == Fifo(l.box);
        FrontLeaves(l, |Fifo(l.box)|, Wiped, [], after);
    }
  }

  /** What a list of operations puts into the box. */
  function Deliveries<T>(ops: seq<Op<T>>): seq<T> {
    if ops == [] then [] else (if ops[0].Deliver? then [ops[0].x] else []) + Deliveries(ops[1..])
  }

  lemma ApplyDelivers<T>(l: Ledger<T>, op: Op<T>)
    ensures var after := Apply(l, op);
            after.box.capacity == l.box.capacity && after.delivered == l.delivered + (if op.Deliver? then [op.x] else [])
  {
    assert l.delivered + [] == l.delivered;
  }

  lemma {:induction false} RunDelivers<T>(l: Ledger<T>, ops: seq<Op<T>>)
    ensures var after := RunOps(l, ops);
            after.box.capacity == l.box.capacity && after.delivered == l.delivered + Deliveries(ops)
    decreases |ops|
  {
    if ops == [] {
      assert l.delivered + [] == l.delivered;
    } else {
      var x := if ops[0].Deliver? then [ops[0].x] else [];
      ApplyDelivers(l, ops[0]);
      RunDelivers(Apply(l, ops[0]), ops[1..]);
      assert l.delivered + (x + Deliveries(ops[1..])) == (l.delivered + x) + Deliveries(ops[1..]);
    }
  }

  lemma {:induction false} RunAccounted<T>(l: Ledger<T>, ops: seq<Op<T>>)
    requires Accounted(l)
    ensures Accounted(RunOps(l, ops))
    decreases |ops|
  {
    if ops != [] {
      ApplyAccounted(l, ops[0]);
      RunAccounted(Apply(l, ops[0]), ops[1..]);
    }
  }

  lemma SubsequenceCons<T>(a: seq<T>, x: T, b: seq<T>)
    requires Subsequence(a, b)
    ensures Subsequence([x] + a, [x] + b)
  {
    assert ([x] + a)[1..] == a && ([x] + b)[1..] == b;
  }

  lemma {:induction false} FateIsSubsequence<T>(gone: seq<(T, Fate)>, f: Fate, rest: seq<T>)
    ensures Subsequence(WithFate(gone, f), Messages(gone) + rest)
  {
    if gone != [] {
      var x, picked, tail := gone[0].0, WithFate(gone[1..], f), Messages(gone[1..]) + rest;
      FateIsSubsequence(gone[1..], f, rest);
      assert Messages(gone) + rest == [x] + tail;
      if gone[0].1 == f {
        SubsequenceCons(picked, x, tail);
      } else {
        SubsequenceWeaken(picked, x, tail);
        assert WithFate(gone, f) == picked;
      }
    }
  }

  lemma {:induction false} SubsequenceTail<T>(a: seq<T>, b: seq<T>)
    requires a != [] && Subsequence(a, b)
    ensures Subsequence(a[1..], b)
    decreases |b|, 0
  {
    if a[0] == b[0] {
      if a[1..] != [] {
        SubsequenceWeaken(a[1..], b[0], b[1..]);
        assert [b[0]] + b[1..] == b;
      }
    } else {
      SubsequenceTail(a, b[1..]);
      SubsequenceWeaken(a[1..], b[0], b[1..]);
      assert [b[0]] + b[1..] == b;
    }
  }

  lemma {:induction false} SubsequenceWeaken<T>(a: seq<T>, x: T, b: seq<T>)
    requires Subsequence(a, b)
    ensures Subsequence(a, [x] + b)
    decreases |b|, 1
  {
    assert ([x] + b)[1..] == b;
    if a != [] && a[0] == x {
      SubsequenceTail(a, b);
    }
  }

  /** Any run from an empty box: the length never exceeds a positive capacity;
      the messages that left, followed by those still queued, are exactly the
      delivered ones in delivery order, so each has one fate or is still queued;
      and the retrieved ones come out in delivery order. */
  lemma EveryMessageHasOneFate<T>(capacity: nat, ops: seq<Op<T>>)
    ensures var l := RunOps(Ledger(Box([], false, capacity), [], []), ops);
            && (capacity > 0 ==> |l.box.queue| <= capacity)
            && Deliveries(ops) == Messages(l.gone) + Fifo(l.box)
            && Subsequence(WithFate(l.gone, Taken), Deliveries(ops))
  {
    var start: Ledger<T> := Ledger(Box([], false, capacity), [], []);
    RunAccounted(start, ops);
    RunDelivers(start, ops);
    var l := RunOps(start, ops);
    FateIsSubsequence(l.gone, Taken, Fifo(l.box));
  }
}
