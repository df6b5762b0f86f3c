/** The life cycle of a tree of processes (process/process.go) as a step relation:
    StartChild, Close, one watcher goroutine per child, one step per channel
    operation, WaitGroup operation or mutex section. */
module ProcessTree {
  import opened Wrappers
  import ChildLists

  /** Processes are numbered in the order of OnContextInit. */
  type Pid = nat

  /** How far the body of Close has come; `Open` before closeOnce is entered.
      Claimed: state is Closing; Signalled: chClosing is closed; Waiting: OnClosing
      has returned; Drained: running.Wait() has returned and state is Closed;
      Finished: OnClosed has returned and chClosed is closed. */
  datatype Phase = Open | Claimed | Signalled | Waiting | Drained | Finished

  datatype ProcState = Started | Closing | Closed

  /** The watcher goroutine: in its select, inside child.Close(), at the receive
      from child.Done(), between running.Done() and the removal, returned. */
  datatype Watch = Selecting | ClosingChild | AwaitingDone | Deregistering | Gone

  /** How far StartChild has brought a process: initialised, past the check of the
      parent's state, in the parent's subs, counted and watched. */
  datatype Link =
    | Root
    | Refused
    | Unchecked(parent: Pid)
    | Checked(parent: Pid)
    | Enlisted(parent: Pid)
    | Watched(parent: Pid, watch: Watch)

  datatype Proc = Proc(phase: Phase, link: Link, running: nat, subs: seq<Pid>)

  type Forest = seq<Proc>

  datatype Label =
    | StartRoot | Spawn(parent: Pid)
    | Check(c: Pid) | Enlist(c: Pid) | Count(c: Pid)
    | CallClose(n: Pid)
    | Signal(n: Pid) | CallbackReturns(n: Pid) | Drain(n: Pid) | Finish(n: Pid)
    | SeeParent(c: Pid) | SeeChild(c: Pid) | WatcherCloses(c: Pid) | CloseReturns(c: Pid)
    | ObserveDone(c: Pid) | Deregister(c: Pid)

  function StateOf(p: Phase): ProcState {
    match p
    case Open => Started
    case Drained => Closed
    case Finished => Closed
    case _ => Closing
  }

  /** chClosing is closed. */
  predicate ClosingSeen(p: Phase) {
    p.Signalled? || p.Waiting? || p.Drained? || p.Finished?
  }

  /** The wait for the children is over. */
  predicate Ended(p: Phase) {
    p.Drained? || p.Finished?
  }

  predicate HasParent(l: Link) {
    !l.Root? && !l.Refused?
  }

  /** The watcher of `c` exists, and is at `w`. */
  predicate At(f: Forest, c: Pid, w: Watch) {
    c < |f| && f[c].link.Watched? && f[c].link.watch == w
  }

  predicate PhaseIs(f: Forest, n: Pid, p: Phase) {
    n < |f| && f[n].phase == p
  }

  predicate Enabled(f: Forest, l: Label) {
    match l
    case StartRoot => true
    case Spawn(p) => p < |f|
    case Check(c) => c < |f| && f[c].link.Unchecked? && f[c].link.parent < |f|
    case Enlist(c) => c < |f| && f[c].link.Checked? && f[c].link.parent < |f|
    case Count(c) => c < |f| && f[c].link.Enlisted? && f[c].link.parent < |f|
    case CallClose(n) => PhaseIs(f, n, Open)
    case Signal(n) => PhaseIs(f, n, Claimed)
    case CallbackReturns(n) => PhaseIs(f, n, Signalled)
    case Drain(n) => PhaseIs(f, n, Waiting) && f[n].running == 0
    case Finish(n) => PhaseIs(f, n, Drained)
    case SeeParent(c) => At(f, c, Selecting) && f[c].link.parent < |f| && ClosingSeen(f[f[c].link.parent].phase)
    case SeeChild(c) => At(f, c, Selecting) && ClosingSeen(f[c].phase)
    case WatcherCloses(c) => At(f, c, ClosingChild) && f[c].phase.Open?
    case CloseReturns(c) => At(f, c, ClosingChild) && f[c].phase.Finished?
    case ObserveDone(c) => At(f, c, AwaitingDone) && f[c].phase.Finished? && f[c].link.parent < |f|
    case Deregister(c) => At(f, c, Deregistering) && f[c].link.parent < |f|
  }

  /** running.Done() would take the counter below zero. */
  predicate Panics(f: Forest, l: Label)
    requires Enabled(f, l)
  {
    l.ObserveDone? && f[f[l.c].link.parent].running == 0
  }

  function SetPhase(f: Forest, n: Pid, p: Phase): Forest
    requires n < |f|
  {
    f[n := f[n].(phase := p)]
  }

  function SetLink(f: Forest, c: Pid, l: Link): Forest
    requires c < |f|
  {
    f[c := f[c].(link := l)]
  }

  function Moved(f: Forest, c: Pid, w: Watch): Forest
    requires c < |f| && f[c].link.Watched?
  {
    SetLink(f, c, f[c].link.(watch := w))
  }

  /** The parent's counter and list change together with the child's link. */
  function Both(f: Forest, p: Pid, running: nat, subs: seq<Pid>, c: Pid, l: Link): Forest
    requires p < |f| && c < |f|
  {
    SetLink(f[p := f[p].(running := running, subs := subs)], c, l)
  }

  function NewProc(l: Link): Proc {
    Proc(Open, l, 0, [])
  }

  function Next(f: Forest, l: Label): Forest
    requires Enabled(f, l) && !Panics(f, l)
  {
    match l
    case StartRoot => f + [NewProc(Root)]
    case Spawn(p) => f + [NewProc(Unchecked(p))]
    case Check(c) =>
      var p := f[c].link.parent;
      SetLink(f, c, if StateOf(f[p].phase).Started? then Checked(p) else Refused)
    case Enlist(c) =>
      var p := f[c].link.parent;
      Both(f, p, f[p].running, f[p].subs + [c], c, Enlisted(p))
    case Count(c) =>
      var p := f[c].link.parent;
      Both(f, p, f[p].running + 1, f[p].subs, c, Watched(p, Selecting))
    case CallClose(n) => SetPhase(f, n, Claimed)
    case Signal(n) => SetPhase(f, n, Signalled)
    case CallbackReturns(n) => SetPhase(f, n, Waiting)
    case Drain(n) => SetPhase(f, n, Drained)
    case Finish(n) => SetPhase(f, n, Finished)
    case SeeParent(c) => Moved(f, c, ClosingChild)
    case SeeChild(c) => Moved(f, c, AwaitingDone)
    case WatcherCloses(c) => SetPhase(f, c, Claimed)
    case CloseReturns(c) => Moved(f, c, AwaitingDone)
    case ObserveDone(c) =>
      var p := f[c].link.parent;
      Both(f, p, f[p].running - 1, f[p].subs, c, Watched(p, Deregistering))
    case Deregister(c) =>
      var p := f[c].link.parent;
      Both(f, p, f[p].running, ChildLists.Pruned(f[p].subs, c), c, Watched(p, Gone))
  }

  predicate Run(f: Forest, ls: seq<Label>, g: Forest)
    decreases |ls|
  {
    if ls == [] then f == g
    else Enabled(f, ls[0]) && !Panics(f, ls[0]) && Run(Next(f, ls[0]), ls[1..], g)
  }

  // ------------------------------------------------------------- invariant

  /** The watcher of `c` has been counted in `p` and not yet called Done. */
  predicate Counted(x: Proc, p: Pid) {
    && x.link.Watched? && x.link.parent == p
    && (x.link.watch.Selecting? || x.link.watch.ClosingChild? || x.link.watch.AwaitingDone?)
  }

  function CountedIn(f: Forest, p: Pid): nat {
    if f == [] then 0
    else CountedIn(f[..|f| - 1], p) + if Counted(f[|f| - 1], p) then 1 else 0
  }

  /** `c` is registered under `p`: listed, and not yet removed. */
  predicate Registered(x: Proc, p: Pid) {
    || x.link == Enlisted(p)
    || (x.link.Watched? && x.link.parent == p && !x.link.watch.Gone?)
  }

  ghost predicate LinksOk(f: Forest) {
    forall c :: 0 <= c < |f| ==>
      && (HasParent(f[c].link) ==> f[c].link.parent < c)
      && (At(f, c, AwaitingDone) ==> ClosingSeen(f[c].phase))
      && (At(f, c, Deregistering) || At(f, c, Gone) ==> f[c].phase.Finished?)
  }

  ghost predicate CountsOk(f: Forest) {
    forall p :: 0 <= p < |f| ==> f[p].running == CountedIn(f, p)
  }

  ghost predicate SubsOk(f: Forest) {
    forall p :: 0 <= p < |f| ==>
      && NoDuplicates(f[p].subs)
      && forall c :: c in f[p].subs <==> 0 <= c < |f| && Registered(f[c], p)
  }

  ghost predicate Inv(f: Forest) {
    LinksOk(f) && CountsOk(f) && SubsOk(f)
  }

  // --------------------------------------------------------- counting lemmas

  lemma {:induction false} CountedInUpdate(f: Forest, c: Pid, x: Proc, p: Pid)
    requires c < |f|
    ensures CountedIn(f[c := x], p) + (if Counted(f[c], p) then 1 else 0)
            == CountedIn(f, p) + if Counted(x, p) then 1 else 0
  {
    var last := |f| - 1;
    if c < last {
      assert f[c := x][..last] == f[..last][c := x];
      CountedInUpdate(f[..last], c, x, p);
    } else {
      assert f[c := x][..last] == f[..last];
    }
  }

  lemma {:induction false} CountedAt(f: Forest, c: Pid, p: Pid)
    requires c < |f| && Counted(f[c], p)
    ensures CountedIn(f, p) > 0
  {
    if c < |f| - 1 {
      CountedAt(f[..|f| - 1], c, p);
    }
  }

  lemma {:induction false} SomeCounted(f: Forest, p: Pid) returns (c: Pid)
    requires CountedIn(f, p) > 0
    ensures c < |f| && Counted(f[c], p)
  {
    var last := |f| - 1;
    if Counted(f[last], p) {
      c := last;
    } else {
      c := SomeCounted(f[..last], p);
    }
  }

  // --------------------------------------------- every step keeps the invariant

  lemma NewProcKeepsInv(f: Forest, l: Link)
    requires Inv(f) && (l.Root? || (l.Unchecked? && l.parent < |f|))
    ensures Inv(f + [NewProc(l)])
  {
    var g := f + [NewProc(l)];
    forall p | 0 <= p < |g| ensures g[p].running == CountedIn(g, p) {
      assert g[..|f|] == f;
      if p == |f| {
        NoneCounted(f, p);
      }
    }
    assert forall c :: 0 <= c < |f| ==> g[c] == f[c];
    forall c | 0 <= c < |f| ensures !Registered(f[c], |f|) {
      assert HasParent(f[c].link) ==> f[c].link.parent < c;
    }
  }

  lemma {:induction false} NoneCounted(f: Forest, p: Pid)
    requires forall c :: 0 <= c < |f| ==> !Counted(f[c], p)
    ensures CountedIn(f, p) == 0
  {
    if f != [] {
      NoneCounted(f[..|f| - 1], p);
    }
  }

  /** One process changes its phase. */
  lemma PhaseKeepsInv(f: Forest, n: Pid, p: Phase)
    requires Inv(f) && n < |f|
    requires ClosingSeen(f[n].phase) ==> ClosingSeen(p)
    requires !f[n].phase.Finished?
    ensures Inv(SetPhase(f, n, p))
  {
    var g := SetPhase(f, n, p);
    forall q | 0 <= q < |g| ensures g[q].running == CountedIn(g, q) {
      CountedInUpdate(f, n, g[n], q);
    }
    assert forall c :: 0 <= c < |f| ==> g[c].link == f[c].link && g[c].subs == f[c].subs;
  }

  /** A link changes without touching the parent's counter or list. */
  lemma LinkKeepsInv(f: Forest, c: Pid, l: Link)
    requires Inv(f) && c < |f|
    requires HasParent(l) ==> HasParent(f[c].link) && l.parent == f[c].link.parent
    requires forall p: Pid :: Counted(f[c].(link := l), p) == Counted(f[c], p)
    requires forall p: Pid :: Registered(f[c].(link := l), p) == Registered(f[c], p)
    requires l.Watched? && l.watch.AwaitingDone? ==> ClosingSeen(f[c].phase)
    requires l.Watched? && (l.watch.Deregistering? || l.watch.Gone?) ==> f[c].phase.Finished?
    ensures Inv(SetLink(f, c, l))
  {
    var g := SetLink(f, c, l);
    forall q | 0 <= q < |g| ensures g[q].running == CountedIn(g, q) {
      CountedInUpdate(f, c, g[c], q);
    }
    assert forall d :: 0 <= d < |f| && d != c ==> g[d] == f[d];
  }

  lemma BothCounts(f: Forest, p: Pid, running: nat, subs: seq<Pid>, c: Pid, l: Link)
    requires CountsOk(f) && p < c < |f| && HasParent(f[c].link) && f[c].link.parent == p
    requires HasParent(l) && l.parent == p
    requires running + (if Counted(f[c], p) then 1 else 0)
             == f[p].running + if Counted(f[c].(link := l), p) then 1 else 0
    ensures CountsOk(Both(f, p, running, subs, c, l))
  {
    var h := f[p := f[p].(running := running, subs := subs)];
    var g := Both(f, p, running, subs, c, l);
    forall q | 0 <= q < |g| ensures g[q].running == CountedIn(g, q) {
      CountedInUpdate(f, p, h[p], q);
      CountedInUpdate(h, c, g[c], q);
    }
  }

  lemma BothSubs(f: Forest, p: Pid, running: nat, subs: seq<Pid>, c: Pid, l: Link)
    requires SubsOk(f) && p < c < |f| && HasParent(f[c].link) && f[c].link.parent == p
    requires HasParent(l) && l.parent == p
    requires NoDuplicates(subs)
    requires forall d :: d != c ==> (d in subs <==> d in f[p].subs)
    requires c in subs <==> Registered(f[c].(link := l), p)
    ensures SubsOk(Both(f, p, running, subs, c, l))
  {
    var g := Both(f, p, running, subs, c, l);
    forall q | 0 <= q < |g|
      ensures NoDuplicates(g[q].subs)
      ensures forall d :: d in g[q].subs <==> 0 <= d < |g| && Registered(g[d], q)
    {
      assert forall d :: 0 <= d < |f| && d != c ==> g[d].link == f[d].link;
      if q == p {
        assert g[q].subs == subs;
      } else {
        assert g[q].subs == f[q].subs;
      }
    }
  }

  lemma BothLinks(f: Forest, p: Pid, running: nat, subs: seq<Pid>, c: Pid, l: Link)
    requires LinksOk(f) && p < c < |f| && HasParent(l) && l.parent == p
    requires l.Watched? ==> !l.watch.AwaitingDone?
    requires l.Watched? && (l.watch.Deregistering? || l.watch.Gone?) ==> f[c].phase.Finished?
    ensures LinksOk(Both(f, p, running, subs, c, l))
  {
    var g := Both(f, p, running, subs, c, l);
    assert forall d :: 0 <= d < |f| && d != c ==> g[d].link == f[d].link;
    assert forall d :: 0 <= d < |f| ==> g[d].phase == f[d].phase;
  }

  lemma BothKeepsInv(f: Forest, p: Pid, running: nat, subs: seq<Pid>, c: Pid, l: Link)
    requires Inv(f) && p < |f| && c < |f| && HasParent(f[c].link) && f[c].link.parent == p
    requires HasParent(l) && l.parent == p
    requires l.Watched? ==> !l.watch.AwaitingDone?
    requires l.Watched? && (l.watch.Deregistering? || l.watch.Gone?) ==> f[c].phase.Finished?
    requires running + (if Counted(f[c], p) then 1 else 0)
             == f[p].running + if Counted(f[c].(link := l), p) then 1 else 0
    requires NoDuplicates(subs)
    requires forall d :: d != c ==> (d in subs <==> d in f[p].subs)
    requires c in subs <==> Registered(f[c].(link := l), p)
    ensures Inv(Both(f, p, running, subs, c, l))
  {
    BothLinks(f, p, running, subs, c, l);
    BothCounts(f, p, running, subs, c, l);
    BothSubs(f, p, running, subs, c, l);
  }

  lemma EnlistKeepsInv(f: Forest, c: Pid)
    requires Inv(f) && Enabled(f, Enlist(c))
    ensures Inv(Next(f, Enlist(c)))
  {
    var p := f[c].link.parent;
    assert !Registered(f[c], p);
    ChildLists.AppendKeepsNoDuplicates(f[p].subs, c);
    BothKeepsInv(f, p, f[p].running, f[p].subs + [c], c, Enlisted(p));
  }

  lemma CountKeepsInv(f: Forest, c: Pid)
    requires Inv(f) && Enabled(f, Count(c))
    ensures Inv(Next(f, Count(c)))
  {
    var p := f[c].link.parent;
    assert f[c].link == Enlisted(p) && Registered(f[c], p);
    assert Next(f, Count(c)) == Both(f, p, f[p].running + 1, f[p].subs, c, Watched(p, Selecting));
    BothKeepsInv(f, p, f[p].running + 1, f[p].subs, c, Watched(p, Selecting));
  }

  lemma ObserveDoneKeepsInv(f: Forest, c: Pid)
    requires Inv(f) && Enabled(f, ObserveDone(c)) && !Panics(f, ObserveDone(c))
    ensures Inv(Next(f, ObserveDone(c)))
  {
    var p := f[c].link.parent;
    var running := f[p].running - 1;
    assert f[c].link == Watched(p, AwaitingDone) && Registered(f[c], p);
    BothKeepsInv(f, p, running, f[p].subs, c, Watched(p, Deregistering));
  }

  lemma DeregisterKeepsInv(f: Forest, c: Pid)
    requires Inv(f) && Enabled(f, Deregister(c))
    ensures Inv(Next(f, Deregister(c)))
  {
    var p := f[c].link.parent;
    ChildLists.PrunedRemovesOne(f[p].subs, c);
    BothKeepsInv(f, p, f[p].running, ChildLists.Pruned(f[p].subs, c), c, Watched(p, Gone));
  }

  lemma StepKeepsInv(f: Forest, l: Label)
    requires Inv(f) && Enabled(f, l) && !Panics(f, l)
    ensures Inv(Next(f, l))
  {
    match l {
      case StartRoot => NewProcKeepsInv(f, Root);
      case Spawn(p) => NewProcKeepsInv(f, Unchecked(p));
      case Check(c) => LinkKeepsInv(f, c, Next(f, l)[c].link);
      case Enlist(c) => EnlistKeepsInv(f, c);
      case Count(c) => CountKeepsInv(f, c);
      case CallClose(n) => PhaseKeepsInv(f, n, Claimed);
      case Signal(n) => PhaseKeepsInv(f, n, Signalled);
      case CallbackReturns(n) => PhaseKeepsInv(f, n, Waiting);
      case Drain(n) => PhaseKeepsInv(f, n, Drained);
      case Finish(n) => PhaseKeepsInv(f, n, Finished);
      case SeeParent(c) => LinkKeepsInv(f, c, Next(f, l)[c].link);
      case SeeChild(c) => LinkKeepsInv(f, c, Next(f, l)[c].link);
      case WatcherCloses(c) => PhaseKeepsInv(f, c, Claimed);
      case CloseReturns(c) => LinkKeepsInv(f, c, Next(f, l)[c].link);
      case ObserveDone(c) => ObserveDoneKeepsInv(f, c);
      case Deregister(c) => DeregisterKeepsInv(f, c);
    }
  }

  lemma {:induction false} RunKeepsInv(f: Forest, ls: seq<Label>, g: Forest)
    requires Inv(f) && Run(f, ls, g)
    ensures Inv(g)
    decreases |ls|
  {
    if ls != [] {
      StepKeepsInv(f, ls[0]);
      RunKeepsInv(Next(f, ls[0]), ls[1..], g);
    }
  }

  ghost predicate Reachable(f: Forest) {
    exists ls :: Run([], ls, f)
  }

  lemma ReachableInv(f: Forest)
    requires Reachable(f)
    ensures Inv(f)
  {
    var ls :| Run([], ls, f);
    RunKeepsInv([], ls, f);
  }

  /** The WaitGroup counter is the number of watchers that have not called Done,
      so it never goes negative, and every registered child is listed exactly
      once under its parent. */
  lemma ChildBookkeeping(f: Forest, l: Label)
    requires Reachable(f) && Enabled(f, l)
    ensures !Panics(f, l)
    ensures CountsOk(f) && SubsOk(f)
  {
    ReachableInv(f);
    if l.ObserveDone? {
      CountedAt(f, l.c, f[l.c].link.parent);
    }
  }
}
