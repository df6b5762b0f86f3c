/** Close of a process closes the whole tree below it, and ends. */
module ProcessShutdown {
  import ChildLists
  import opened ProcessTree
  import opened ProcessCompletion

  // ------------------------------------------------------ shutdown terminates

  function PhaseRank(p: Phase): nat {
    match p
    case Open => 5
    case Claimed => 4
    case Signalled => 3
    case Waiting => 2
    case Drained => 1
    case Finished => 0
  }

  function LinkRank(l: Link): nat {
    match l
    case Root => 0
    case Refused => 0
    case Unchecked(_) => 7
    case Checked(_) => 6
    case Enlisted(_) => 5
    case Watched(_, w) =>
      match w
      case Selecting => 4
      case ClosingChild => 3
      case AwaitingDone => 2
      case Deregistering => 1
      case Gone => 0
  }

  function Rank(x: Proc): nat {
    PhaseRank(x.phase) + LinkRank(x.link)
  }

  function Measure(f: Forest): nat {
    if f == [] then 0 else Measure(f[..|f| - 1]) + Rank(f[|f| - 1])
  }

  lemma {:induction false} MeasureUpdate(f: Forest, n: Pid, x: Proc)
    requires n < |f|
    ensures Measure(f[n := x]) + Rank(f[n]) == Measure(f) + Rank(x)
  {
    var last := |f| - 1;
    if n < last {
      assert f[n := x][..last] == f[..last][n := x];
      MeasureUpdate(f[..last], n, x);
    } else {
      assert f[n := x][..last] == f[..last];
    }
  }

  predicate Creates(l: Label) {
    l.StartRoot? || l.Spawn?
  }

  lemma BothDecreases(f: Forest, p: Pid, running: nat, subs: seq<Pid>, c: Pid, l: Link)
    requires p < c < |f| && LinkRank(l) < LinkRank(f[c].link)
    ensures Measure(Both(f, p, running, subs, c, l)) < Measure(f)
  {
    var x := f[p].(running := running, subs := subs);
    MeasureUpdate(f, p, x);
    MeasureUpdate(f[p := x], c, f[c].(link := l));
  }

  lemma EnlistDecreases(f: Forest, c: Pid)
    requires Enabled(f, Enlist(c)) && f[c].link.parent < c
    ensures Measure(Next(f, Enlist(c))) < Measure(f)
  {
    var p := f[c].link.parent;
    assert f[c].link == Checked(p);
    BothDecreases(f, p, f[p].running, f[p].subs + [c], c, Enlisted(p));
  }

  lemma CountDecreases(f: Forest, c: Pid)
    requires Enabled(f, Count(c)) && f[c].link.parent < c
    ensures Measure(Next(f, Count(c))) < Measure(f)
  {
    var p := f[c].link.parent;
    assert f[c].link == Enlisted(p);
    BothDecreases(f, p, f[p].running + 1, f[p].subs, c, Watched(p, Selecting));
  }

  lemma ObserveDoneDecreases(f: Forest, c: Pid)
    requires Enabled(f, ObserveDone(c)) && !Panics(f, ObserveDone(c)) && f[c].link.parent < c
    ensures Measure(Next(f, ObserveDone(c))) < Measure(f)
  {
    var p, running := f[c].link.parent, f[f[c].link.parent].running - 1;
    assert f[c].link == Watched(p, AwaitingDone);
    assert Next(f, ObserveDone(c)) == Both(f, p, running, f[p].subs, c, Watched(p, Deregistering));
    BothDecreases(f, p, running, f[p].subs, c, Watched(p, Deregistering));
  }

  lemma DeregisterDecreases(f: Forest, c: Pid)
    requires Enabled(f, Deregister(c)) && f[c].link.parent < c
    ensures Measure(Next(f, Deregister(c))) < Measure(f)
  {
    var p := f[c].link.parent;
    BothDecreases(f, p, f[p].running, ChildLists.Pruned(f[p].subs, c), c, Watched(p, Gone));
  }

  lemma PhaseStepDecreases(f: Forest, n: Pid, p: Phase)
    requires n < |f| && PhaseRank(p) < PhaseRank(f[n].phase)
    ensures Measure(SetPhase(f, n, p)) < Measure(f)
  {
    MeasureUpdate(f, n, f[n].(phase := p));
  }

  lemma LinkStepDecreases(f: Forest, c: Pid, l: Link)
    requires c < |f| && LinkRank(l) < LinkRank(f[c].link)
    ensures Measure(SetLink(f, c, l)) < Measure(f)
  {
    MeasureUpdate(f, c, f[c].(link := l));
  }

  lemma CloseStepDecreases(f: Forest, l: Label)
    requires Enabled(f, l)
    requires l.CallClose? || l.Signal? || l.CallbackReturns? || l.Drain? || l.Finish?
    ensures Measure(Next(f, l)) < Measure(f)
  {
    PhaseStepDecreases(f, l.n, Next(f, l)[l.n].phase);
  }

  lemma WatchStepDecreases(f: Forest, l: Label)
    requires Enabled(f, l)
    requires l.Check? || l.SeeParent? || l.SeeChild? || l.CloseReturns?
    ensures Measure(Next(f, l)) < Measure(f)
  {
    LinkStepDecreases(f, l.c, Next(f, l)[l.c].link);
  }

  lemma StepDecreases(f: Forest, l: Label)
    requires Inv(f) && Enabled(f, l) && !Panics(f, l) && !Creates(l)
    ensures Measure(Next(f, l)) < Measure(f)
  {
    if l.Enlist? {
      EnlistDecreases(f, l.c);
    } else if l.Count? {
      CountDecreases(f, l.c);
    } else if l.ObserveDone? {
      ObserveDoneDecreases(f, l.c);
    } else if l.Deregister? {
      DeregisterDecreases(f, l.c);
    } else if l.WatcherCloses? {
      PhaseStepDecreases(f, l.c, Claimed);
    } else if l.Check? || l.SeeParent? || l.SeeChild? || l.CloseReturns? {
      WatchStepDecreases(f, l);
    } else {
      CloseStepDecreases(f, l);
    }
  }

  predicate NoStarts(ls: seq<Label>) {
    forall k :: 0 <= k < |ls| ==> !Creates(ls[k])
  }

  /** No goroutine of the tree can move on its own; only a client could still
      call Close, or start a process. */
  ghost predicate Quiescent(f: Forest) {
    forall l :: Enabled(f, l) ==> Creates(l) || l.CallClose?
  }

  lemma {:induction false} ClosedWhenQuiescent(f: Forest, n: Pid)
    requires Inv(f) && Quiescent(f) && n < |f| && !f[n].phase.Open?
    ensures f[n].phase.Finished?
    decreases |f| - n, 0
  {
    assert !Enabled(f, Signal(n)) && !Enabled(f, CallbackReturns(n));
    assert !Enabled(f, Drain(n)) && !Enabled(f, Finish(n));
    if f[n].phase.Waiting? {
      var c := SomeCounted(f, n);
      WatcherIsGone(f, c);
    }
  }

  lemma NotSelecting(f: Forest, c: Pid)
    requires Quiescent(f) && c < |f| && f[c].link.Watched? && f[c].link.parent < |f|
    requires ClosingSeen(f[c].phase) || ClosingSeen(f[f[c].link.parent].phase)
    ensures !At(f, c, Selecting)
  {
    assert !Enabled(f, SeeParent(c)) && !Enabled(f, SeeChild(c));
  }

  lemma NotClosing(f: Forest, c: Pid)
    requires Quiescent(f) && c < |f| && (f[c].phase.Open? || f[c].phase.Finished?)
    ensures !At(f, c, ClosingChild)
  {
    assert !Enabled(f, WatcherCloses(c)) && !Enabled(f, CloseReturns(c));
  }

  lemma NotLeaving(f: Forest, c: Pid)
    requires Inv(f) && Quiescent(f) && c < |f| && f[c].phase.Finished?
    ensures !At(f, c, AwaitingDone) && !At(f, c, Deregistering)
  {
    assert !Enabled(f, ObserveDone(c)) && !Enabled(f, Deregister(c));
  }

  /** In a quiescent state the watcher of a child has returned as soon as the
      child or its parent has begun to close. */
  lemma {:induction false} WatcherIsGone(f: Forest, c: Pid)
    requires Inv(f) && Quiescent(f) && c < |f| && f[c].link.Watched? && f[c].link.parent < |f|
    requires !f[c].phase.Open? || ClosingSeen(f[f[c].link.parent].phase)
    ensures f[c].link.watch.Gone? && f[c].phase.Finished?
    decreases |f| - c, 1
  {
    if !f[c].phase.Open? {
      ClosedWhenQuiescent(f, c);
      NotLeaving(f, c);
    }
    NotSelecting(f, c);
    NotClosing(f, c);
    assert At(f, c, f[c].link.watch);
  }

  lemma NothingLeft(f: Forest, a: Pid)
    requires Inv(f) && Quiescent(f) && a < |f| && !f[a].phase.Open?
    ensures f[a].phase.Finished? && f[a].subs == []
  {
    ClosedWhenQuiescent(f, a);
    if f[a].subs != [] {
      var c := f[a].subs[0];
      assert c in f[a].subs;
      assert Registered(f[c], a) && !Enabled(f, Count(c));
      WatcherIsGone(f, c);
      assert false;
    }
  }

  lemma {:induction false} TreeIsClosed(f: Forest, a: Pid, d: Pid)
    requires Inv(f) && Quiescent(f) && Below(f, a, d) && a < |f| && !f[a].phase.Open?
    ensures f[d].phase.Finished? && At(f, d, Gone) && f[d].subs == []
    decreases d
  {
    var p := f[d].link.parent;
    assert !Enabled(f, Count(d));
    if p != a {
      TreeIsClosed(f, a, p);
    } else {
      ClosedWhenQuiescent(f, a);
    }
    WatcherIsGone(f, d);
    NothingLeft(f, d);
  }

  lemma StepKeepsClosing(f: Forest, l: Label)
    requires Enabled(f, l) && !Panics(f, l)
    ensures |f| <= |Next(f, l)|
    ensures forall n :: 0 <= n < |f| && !f[n].phase.Open? ==> !Next(f, l)[n].phase.Open?
  {
  }

  lemma {:induction false} ShutdownBound(f: Forest, ls: seq<Label>, g: Forest)
    requires Inv(f) && Run(f, ls, g) && NoStarts(ls)
    ensures |ls| + Measure(g) <= Measure(f) && Inv(g)
    decreases |ls|
  {
    if ls != [] {
      StepKeepsInv(f, ls[0]);
      StepDecreases(f, ls[0]);
      ShutdownBound(Next(f, ls[0]), ls[1..], g);
    }
  }

  lemma {:induction false} ClosingStays(f: Forest, ls: seq<Label>, g: Forest, n: Pid)
    requires Run(f, ls, g) && n < |f| && !f[n].phase.Open?
    ensures n < |g| && !g[n].phase.Open?
    decreases |ls|
  {
    if ls != [] {
      StepKeepsClosing(f, ls[0]);
      ClosingStays(Next(f, ls[0]), ls[1..], g, n);
    }
  }

  /** Once Close of `a` has begun and no process is started any more, every run is
      finite, with at most Measure(f) steps; and where it can go no further (even
      if the functions run by Go never return, so that no client closes anything)
      `a` and all its descendants are closed and nothing is listed under them. */
  lemma ShutdownClosesTheTree(f: Forest, ls: seq<Label>, g: Forest, a: Pid)
    requires Reachable(f) && Run(f, ls, g) && NoStarts(ls)
    requires a < |f| && !f[a].phase.Open?
    ensures |ls| <= Measure(f)
    ensures Quiescent(g) ==> a < |g| && g[a].phase.Finished? && g[a].subs == []
    ensures Quiescent(g) ==> forall d: Pid :: Below(g, a, d) ==> g[d].phase.Finished? && g[d].subs == []
  {
    ReachableInv(f);
    ShutdownBound(f, ls, g);
    ClosingStays(f, ls, g, a);
    if Quiescent(g) {
      NothingLeft(g, a);
      forall d: Pid | Below(g, a, d) ensures g[d].phase.Finished? && g[d].subs == [] {
        TreeIsClosed(g, a, d);
      }
    }
  }

  /** A child that closes on its own, for instance because its OnContextStarted
      failed, ends up deregistered although its parent goes on running. */
  lemma ClosedChildIsDeregistered(f: Forest, ls: seq<Label>, g: Forest, c: Pid)
    requires Reachable(f) && Run(f, ls, g) && NoStarts(ls) && Quiescent(g)
    requires c < |f| && !f[c].phase.Open? && c < |g| && g[c].link.Watched?
    ensures g[c].phase.Finished? && g[c].link.watch.Gone?
    ensures g[c].link.parent < c && c !in g[g[c].link.parent].subs
  {
    ReachableInv(f);
    ShutdownBound(f, ls, g);
    ClosingStays(f, ls, g, c);
    WatcherIsGone(g, c);
  }
}
