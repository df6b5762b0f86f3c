/** "Done means children done", for every process ever registered below another. */
module ProcessCompletion {
  import opened Wrappers
  import opened ProcessTree

  /** StartChild has appended the child to the subs of `p`. */
  predicate IsChild(x: Proc, p: Pid) {
    x.link == Enlisted(p) || (x.link.Watched? && x.link.parent == p)
  }

  /** `d` is a descendant of `a`, at any depth. */
  predicate Below(f: Forest, a: Pid, d: Pid)
    decreases d
  {
    && d < |f| && HasParent(f[d].link) && IsChild(f[d], f[d].link.parent) && f[d].link.parent < d
    && (f[d].link.parent == a || Below(f, a, f[d].link.parent))
  }

  ghost predicate DoneMeansChildrenDone(f: Forest) {
    forall a: Pid, d: Pid :: Below(f, a, d) && PhaseIs(f, a, Finished) ==> f[d].phase.Finished?
  }

  /** Done means children done, and goes on meaning it when a process whose wait is
      over closes its chClosed. */
  ghost predicate Complete(f: Forest) {
    && DoneMeansChildrenDone(f)
    && forall n: Pid :: Enabled(f, Finish(n)) ==> DoneMeansChildrenDone(Next(f, Finish(n)))
  }

  /** A child is appended while its parent can still wait, or when it is done; and no
      parent stops waiting while an open child is appended and not yet counted. */
  predicate Safe(f: Forest, l: Label)
    requires Enabled(f, l)
  {
    match l
    case Enlist(c) => !Ended(f[f[c].link.parent].phase) || f[c].phase.Finished?
    case Drain(n) => forall c :: 0 <= c < |f| && f[c].link == Enlisted(n) ==> f[c].phase.Finished?
    case _ => true
  }

  // ---------------------------------------------------------------- one state

  ghost predicate ChildrenDone(f: Forest, n: Pid) {
    forall c: Pid :: c < |f| && IsChild(f[c], n) ==> f[c].phase.Finished?
  }

  /** A process that has stopped waiting has only done children. */
  ghost predicate EndedHaveDone(f: Forest) {
    forall n: Pid :: n < |f| && Ended(f[n].phase) ==> ChildrenDone(f, n)
  }

  lemma {:induction false} BelowEnded(f: Forest, n: Pid, d: Pid)
    requires EndedHaveDone(f) && n < |f| && Ended(f[n].phase) && Below(f, n, d)
    ensures f[d].phase.Finished?
    decreases d
  {
    var p := f[d].link.parent;
    if p != n {
      BelowEnded(f, n, p);
    }
    assert ChildrenDone(f, p);
  }

  lemma EndedMeansDone(f: Forest)
    requires EndedHaveDone(f)
    ensures DoneMeansChildrenDone(f)
  {
    forall a: Pid, d: Pid | Below(f, a, d) && PhaseIs(f, a, Finished) ensures f[d].phase.Finished? {
      BelowEnded(f, a, d);
    }
  }

  lemma OpenChildShows(f: Forest, n: Pid, c: Pid)
    requires Inv(f) && Complete(f) && n < |f| && Ended(f[n].phase) && c < |f| && IsChild(f[c], n)
    ensures f[c].phase.Finished?
  {
    assert f[c].link.parent < c;
    if f[n].phase.Finished? {
      assert Below(f, n, c);
    } else {
      var g := Next(f, Finish(n));
      assert Enabled(f, Finish(n)) && DoneMeansChildrenDone(g);
      assert g[c] == f[c] && g[n].phase.Finished?;
      assert Below(g, n, c);
    }
  }

  /** What is seen through Done, now and one Finish later, is exactly that no
      process that has stopped waiting has an open child. */
  lemma CompleteIff(f: Forest)
    requires Inv(f)
    ensures Complete(f) <==> EndedHaveDone(f)
  {
    if Complete(f) {
      forall n: Pid, c: Pid | n < |f| && Ended(f[n].phase) && c < |f| && IsChild(f[c], n)
        ensures f[c].phase.Finished?
      {
        OpenChildShows(f, n, c);
      }
    }
    if EndedHaveDone(f) {
      EndedMeansDone(f);
      forall n: Pid | Enabled(f, Finish(n)) ensures DoneMeansChildrenDone(Next(f, Finish(n))) {
        SafeStepKeeps(f, Finish(n));
        EndedMeansDone(Next(f, Finish(n)));
      }
    }
  }

  // ----------------------------------------------------------------- one step

  lemma ChildBefore(f: Forest, l: Label, c: Pid, p: Pid)
    requires Inv(f) && Enabled(f, l) && !Panics(f, l) && c < |Next(f, l)| && IsChild(Next(f, l)[c], p)
    ensures c < |f| && HasParent(f[c].link) && f[c].link.parent == p < c
    ensures IsChild(f[c], p) || l == Enlist(c)
  {
  }

  lemma FinishedStays(f: Forest, l: Label, c: Pid)
    requires Enabled(f, l) && !Panics(f, l) && c < |f| && f[c].phase.Finished?
    ensures c < |Next(f, l)| && Next(f, l)[c].phase.Finished?
  {
  }

  lemma EndedBefore(f: Forest, l: Label, n: Pid)
    requires Enabled(f, l) && !Panics(f, l) && n < |Next(f, l)| && Ended(Next(f, l)[n].phase)
    ensures n < |f| && (Ended(f[n].phase) || l == Drain(n))
  {
  }

  /** When the wait ends the counter is zero, so no watcher is still waiting for its child. */
  lemma DrainedCountsNone(f: Forest, n: Pid, c: Pid)
    requires Inv(f) && Enabled(f, Drain(n)) && c < |f| && f[c].link.Watched? && f[c].link.parent == n
    ensures f[c].phase.Finished? && (At(f, c, Deregistering) || At(f, c, Gone))
  {
    if Counted(f[c], n) {
      CountedAt(f, c, n);
      assert false;
    }
    assert At(f, c, f[c].link.watch);
  }

  lemma SafeStepKeeps(f: Forest, l: Label)
    requires Inv(f) && EndedHaveDone(f) && Enabled(f, l) && !Panics(f, l) && Safe(f, l)
    ensures EndedHaveDone(Next(f, l))
  {
    var g := Next(f, l);
    forall n: Pid, c: Pid | n < |g| && Ended(g[n].phase) && c < |g| && IsChild(g[c], n)
      ensures g[c].phase.Finished?
    {
      ChildBefore(f, l, c, n);
      EndedBefore(f, l, n);
      if l == Drain(n) {
        if f[c].link.Watched? {
          DrainedCountsNone(f, n, c);
        }
      } else if l != Enlist(c) {
        assert ChildrenDone(f, n);
      }
      FinishedStays(f, l, c);
    }
  }

  lemma UnsafeEnlistBreaks(f: Forest, c: Pid)
    requires Inv(f) && Enabled(f, Enlist(c)) && !Safe(f, Enlist(c))
    ensures !EndedHaveDone(Next(f, Enlist(c)))
  {
    var g, p := Next(f, Enlist(c)), f[c].link.parent;
    assert IsChild(g[c], p) && !g[c].phase.Finished?;
    assert Ended(g[p].phase) && !ChildrenDone(g, p);
  }

  lemma UnsafeDrainBreaks(f: Forest, n: Pid)
    requires Enabled(f, Drain(n)) && !Safe(f, Drain(n))
    ensures !EndedHaveDone(Next(f, Drain(n)))
  {
    var g := Next(f, Drain(n));
    var c :| 0 <= c < |f| && f[c].link == Enlisted(n) && !f[c].phase.Finished?;
    assert IsChild(g[c], n) && !g[c].phase.Finished?;
    assert Ended(g[n].phase) && !ChildrenDone(g, n);
  }

  /** A step keeps every process that has stopped waiting without open children,
      exactly if it is safe. */
  lemma StepKeepsCompletionIff(f: Forest, l: Label)
    requires Inv(f) && EndedHaveDone(f) && Enabled(f, l) && !Panics(f, l)
    ensures EndedHaveDone(Next(f, l)) <==> Safe(f, l)
  {
    if Safe(f, l) {
      SafeStepKeeps(f, l);
    } else if l.Enlist? {
      UnsafeEnlistBreaks(f, l.c);
    } else {
      UnsafeDrainBreaks(f, l.n);
    }
  }

  // --------------------------------------------------------------- whole runs

  /** `Complete` holds in every state of the run. */
  ghost predicate CompleteAlong(f: Forest, ls: seq<Label>, g: Forest)
    requires Run(f, ls, g)
    decreases |ls|
  {
    Complete(f) && (ls != [] ==> CompleteAlong(Next(f, ls[0]), ls[1..], g))
  }

  predicate SafeAlong(f: Forest, ls: seq<Label>, g: Forest)
    requires Run(f, ls, g)
    decreases |ls|
  {
    ls != [] ==> Safe(f, ls[0]) && SafeAlong(Next(f, ls[0]), ls[1..], g)
  }

  lemma {:induction false} CompleteAlongIff(f: Forest, ls: seq<Label>, g: Forest)
    requires Inv(f) && EndedHaveDone(f) && Run(f, ls, g)
    ensures CompleteAlong(f, ls, g) <==> SafeAlong(f, ls, g)
    decreases |ls|
  {
    CompleteIff(f);
    if ls != [] {
      var next := Next(f, ls[0]);
      StepKeepsInv(f, ls[0]);
      StepKeepsCompletionIff(f, ls[0]);
      if Safe(f, ls[0]) {
        CompleteAlongIff(next, ls[1..], g);
      } else {
        CompleteIff(next);
      }
    }
  }

  /** Done means children done, at any depth and from the append on, in every state of
      a run and after any Finish that its states allow, exactly when every append and
      every end of a wait in the run is safe. */
  lemma BottomUpCompletionIff(ls: seq<Label>, g: Forest)
    requires Run([], ls, g)
    ensures CompleteAlong([], ls, g) <==> SafeAlong([], ls, g)
  {
    CompleteAlongIff([], ls, g);
  }

  // ------------------------------------------------- what a Done process lists

  /** A process that has stopped waiting lists only done children, whose watchers are
      between running.Done() and the removal. */
  ghost predicate OnlyLeavingListed(f: Forest) {
    forall n: Pid, c: Pid :: n < |f| && Ended(f[n].phase) && c < |f| && Registered(f[c], n) ==>
      f[c].phase.Finished? && At(f, c, Deregistering)
  }

  /** As `Safe`, done children included. */
  predicate Timely(f: Forest, l: Label)
    requires Enabled(f, l)
  {
    match l
    case Enlist(c) => !Ended(f[f[c].link.parent].phase)
    case Drain(n) => forall c :: 0 <= c < |f| ==> f[c].link != Enlisted(n)
    case _ => true
  }

  lemma RegisteredBefore(f: Forest, l: Label, c: Pid, n: Pid)
    requires Inv(f) && Enabled(f, l) && !Panics(f, l) && c < |Next(f, l)| && Registered(Next(f, l)[c], n)
    ensures c < |f| && (Registered(f[c], n) || (l == Enlist(c) && f[c].link == Checked(n)))
    ensures At(f, c, Deregistering) ==> At(Next(f, l), c, Deregistering)
  {
  }

  lemma LeavesAfter(f: Forest, l: Label, n: Pid, c: Pid)
    requires Inv(f) && OnlyLeavingListed(f) && Enabled(f, l) && !Panics(f, l) && Timely(f, l)
    requires c < |f| && n < |f| && Registered(f[c], n) && (Ended(f[n].phase) || l == Drain(n))
    ensures f[c].phase.Finished? && At(f, c, Deregistering)
  {
    if l == Drain(n) {
      assert f[c].link != Enlisted(n);
      DrainedCountsNone(f, n, c);
    }
  }

  lemma NoLateArrival(f: Forest, l: Label, n: Pid, c: Pid)
    requires Inv(f) && Enabled(f, l) && !Panics(f, l) && Timely(f, l)
    requires n < |Next(f, l)| && Ended(Next(f, l)[n].phase) && c < |Next(f, l)| && Registered(Next(f, l)[c], n)
    ensures n < |f| && (Ended(f[n].phase) || l == Drain(n)) && c < |f| && Registered(f[c], n)
  {
    EndedBefore(f, l, n);
    RegisteredBefore(f, l, c, n);
  }

  lemma LeavesNext(f: Forest, l: Label, n: Pid, c: Pid)
    requires Inv(f) && OnlyLeavingListed(f) && Enabled(f, l) && !Panics(f, l) && Timely(f, l)
    requires n < |Next(f, l)| && Ended(Next(f, l)[n].phase) && c < |Next(f, l)| && Registered(Next(f, l)[c], n)
    ensures Next(f, l)[c].phase.Finished? && At(Next(f, l), c, Deregistering)
  {
    NoLateArrival(f, l, n, c);
    LeavesAfter(f, l, n, c);
    RegisteredBefore(f, l, c, n);
    FinishedStays(f, l, c);
  }

  lemma TimelyStepKeeps(f: Forest, l: Label)
    requires Inv(f) && OnlyLeavingListed(f) && Enabled(f, l) && !Panics(f, l) && Timely(f, l)
    ensures OnlyLeavingListed(Next(f, l))
  {
    var g := Next(f, l);
    forall n: Pid, c: Pid | n < |g| && Ended(g[n].phase) && c < |g| && Registered(g[c], n)
      ensures g[c].phase.Finished? && At(g, c, Deregistering)
    {
      LeavesNext(f, l, n, c);
    }
  }

  lemma UntimelyEnlistBreaks(f: Forest, c: Pid)
    requires Inv(f) && Enabled(f, Enlist(c)) && !Timely(f, Enlist(c))
    ensures !OnlyLeavingListed(Next(f, Enlist(c)))
  {
    var g, p := Next(f, Enlist(c)), f[c].link.parent;
    assert Ended(g[p].phase) && Registered(g[c], p) && !At(g, c, Deregistering);
  }

  lemma UntimelyDrainBreaks(f: Forest, n: Pid)
    requires Enabled(f, Drain(n)) && !Timely(f, Drain(n))
    ensures !OnlyLeavingListed(Next(f, Drain(n)))
  {
    var g := Next(f, Drain(n));
    var c :| 0 <= c < |f| && f[c].link == Enlisted(n);
    assert g[c].link == f[c].link;
    assert Ended(g[n].phase) && Registered(g[c], n) && !At(g, c, Deregistering);
  }

  lemma StepKeepsListsIff(f: Forest, l: Label)
    requires Inv(f) && OnlyLeavingListed(f) && Enabled(f, l) && !Panics(f, l)
    ensures OnlyLeavingListed(Next(f, l)) <==> Timely(f, l)
  {
    if Timely(f, l) {
      TimelyStepKeeps(f, l);
    } else if l.Enlist? {
      UntimelyEnlistBreaks(f, l.c);
    } else {
      UntimelyDrainBreaks(f, l.n);
    }
  }

  ghost predicate ListsAlong(f: Forest, ls: seq<Label>, g: Forest)
    requires Run(f, ls, g)
    decreases |ls|
  {
    OnlyLeavingListed(f) && (ls != [] ==> ListsAlong(Next(f, ls[0]), ls[1..], g))
  }

  predicate TimelyAlong(f: Forest, ls: seq<Label>, g: Forest)
    requires Run(f, ls, g)
    decreases |ls|
  {
    ls != [] ==> Timely(f, ls[0]) && TimelyAlong(Next(f, ls[0]), ls[1..], g)
  }

  lemma {:induction false} ListsAlongIff(f: Forest, ls: seq<Label>, g: Forest)
    requires Inv(f) && OnlyLeavingListed(f) && Run(f, ls, g)
    ensures ListsAlong(f, ls, g) <==> TimelyAlong(f, ls, g)
    decreases |ls|
  {
    if ls != [] {
      StepKeepsInv(f, ls[0]);
      StepKeepsListsIff(f, ls[0]);
      if Timely(f, ls[0]) {
        ListsAlongIff(Next(f, ls[0]), ls[1..], g);
      }
    }
  }

  /** In every state of a run the processes that have stopped waiting list none but
      done children on their way out, exactly when no child is appended under such a
      process, and no wait ends between an append and its running.Add. */
  lemma DoneListsOnlyLeavingIff(ls: seq<Label>, g: Forest)
    requires Run([], ls, g)
    ensures ListsAlong([], ls, g) <==> TimelyAlong([], ls, g)
  {
    ListsAlongIff([], ls, g);
  }

  // ----------------------------------------------------------- atomic starts

  /** The check of StartChild lets the child pass. */
  predicate Admitted(f: Forest, l: Label)
    requires Enabled(f, l)
  {
    l.Check? && StateOf(f[f[l.c].link.parent].phase).Started?
  }

  /** Nothing comes between the check of the parent's state, the append and the Add. */
  predicate AtomicStarts(f: Forest, ls: seq<Label>, g: Forest)
    requires Run(f, ls, g)
    decreases |ls|
  {
    ls != [] ==>
      && (Admitted(f, ls[0]) ==> [Enlist(ls[0].c), Count(ls[0].c)] <= ls[1..])
      && AtomicStarts(Next(f, ls[0]), ls[1..], g)
  }

  /** A child past the check has the rest of its StartChild next, and an open parent. */
  ghost predicate StartsNext(f: Forest, ls: seq<Label>) {
    forall c: Pid :: c < |f| && (f[c].link.Checked? || f[c].link.Enlisted?) ==>
      && f[c].link.parent < |f| && f[f[c].link.parent].phase.Open?
      && (if f[c].link.Checked? then [Enlist(c), Count(c)] <= ls else [Count(c)] <= ls)
  }

  lemma AtomicStep(f: Forest, ls: seq<Label>, g: Forest)
    requires Run(f, ls, g) && ls != [] && AtomicStarts(f, ls, g) && StartsNext(f, ls)
    ensures StartsNext(Next(f, ls[0]), ls[1..])
  {
    var l, next := ls[0], Next(f, ls[0]);
    forall c: Pid | c < |next| && (next[c].link.Checked? || next[c].link.Enlisted?)
      ensures next[c].link.parent < |next| && next[next[c].link.parent].phase.Open?
      ensures if next[c].link.Checked? then [Enlist(c), Count(c)] <= ls[1..] else [Count(c)] <= ls[1..]
    {
      if c < |f| && (f[c].link.Checked? || f[c].link.Enlisted?) {
        assert l == Enlist(c) || l == Count(c);
      } else {
        assert l == Check(c) && Admitted(f, l);
      }
    }
  }

  lemma AtomicStepIsTimely(f: Forest, ls: seq<Label>)
    requires ls != [] && Enabled(f, ls[0]) && StartsNext(f, ls)
    ensures Timely(f, ls[0]) && Safe(f, ls[0])
  {
  }

  lemma {:induction false} AtomicIsTimely(f: Forest, ls: seq<Label>, g: Forest)
    requires Run(f, ls, g) && AtomicStarts(f, ls, g) && StartsNext(f, ls)
    ensures TimelyAlong(f, ls, g) && SafeAlong(f, ls, g)
    decreases |ls|
  {
    if ls != [] {
      AtomicStep(f, ls, g);
      AtomicStepIsTimely(f, ls);
      AtomicIsTimely(Next(f, ls[0]), ls[1..], g);
    }
  }

  /** Were StartChild's check, append and running.Add one step, Done of a process would
      mean Done of every descendant, at any depth, in every state of every run, and
      a process that has stopped waiting would list only done children on their
      way out. */
  lemma AtomicStartsComplete(ls: seq<Label>, g: Forest)
    requires Run([], ls, g) && AtomicStarts([], ls, g)
    ensures CompleteAlong([], ls, g) && ListsAlong([], ls, g)
  {
    AtomicIsTimely([], ls, g);
    BottomUpCompletionIff(ls, g);
    DoneListsOnlyLeavingIff(ls, g);
  }

  // ---------------------------------------------------------------- witnesses

  const ROOT_AND_CHECKED: Forest := [Proc(Open, Root, 0, []), Proc(Open, Checked(0), 0, [])]
  const ROOT_DONE: Forest := [Proc(Finished, Root, 0, []), Proc(Open, Checked(0), 0, [])]
  const DONE_WITH_APPENDED: Forest := [Proc(Finished, Root, 0, [1]), Proc(Open, Enlisted(0), 0, [])]
  const DONE_WITH_COUNTED: Forest := [Proc(Finished, Root, 1, [1]), Proc(Open, Watched(0, Selecting), 0, [])]
  const ROOT_AND_CHILD: Forest := [Proc(Open, Root, 1, [1]), Proc(Open, Watched(0, Selecting), 0, [])]
  const ROOT_AND_DONE_CHILD: Forest := [Proc(Open, Root, 1, [1]), Proc(Finished, Watched(0, Selecting), 0, [])]
  const CHILD_LEAVING: Forest := [Proc(Open, Root, 0, [1]), Proc(Finished, Watched(0, Deregistering), 0, [])]
  const DONE_STILL_LISTING: Forest := [Proc(Finished, Root, 0, [1]), Proc(Finished, Watched(0, Deregistering), 0, [])]

  lemma StartAndCheck()
    ensures Reachable(ROOT_AND_CHECKED)
  {
    var f1 := Next([], StartRoot);
    var f2 := Next(f1, Spawn(0));
    assert Run([], [], []);
    assert Next(f2, Check(1)) == ROOT_AND_CHECKED;
    ReachableStep([], StartRoot);
    ReachableStep(f1, Spawn(0));
    ReachableStep(f2, Check(1));
  }

  /** Close of a process without counted children, undisturbed. */
  lemma ReachableClose(f: Forest, n: Pid)
    requires Reachable(f) && PhaseIs(f, n, Open) && f[n].running == 0
    ensures Reachable(SetPhase(f, n, Finished))
  {
    var f1, f2, f3, f4 := SetPhase(f, n, Claimed), SetPhase(f, n, Signalled), SetPhase(f, n, Waiting), SetPhase(f, n, Drained);
    assert SetPhase(f1, n, Signalled) == f2 && SetPhase(f2, n, Waiting) == f3;
    assert SetPhase(f3, n, Drained) == f4 && SetPhase(f4, n, Finished) == SetPhase(f, n, Finished);
    ReachableStep(f, CallClose(n));
    ReachableStep(f1, Signal(n));
    ReachableStep(f2, CallbackReturns(n));
    ReachableStep(f3, Drain(n));
    ReachableStep(f4, Finish(n));
  }

  lemma LateAppend()
    ensures Reachable(DONE_WITH_APPENDED)
  {
    StartAndCheck();
    ReachableClose(ROOT_AND_CHECKED, 0);
    assert SetPhase(ROOT_AND_CHECKED, 0, Finished) == ROOT_DONE;
    EnlistOne(ROOT_DONE);
    ReachableStep(ROOT_DONE, Enlist(1));
  }

  lemma LateCount()
    ensures Reachable(DONE_WITH_COUNTED)
  {
    LateAppend();
    CountOne(DONE_WITH_APPENDED);
    ReachableStep(DONE_WITH_APPENDED, Count(1));
  }

  /** Child 1 of process 0 is appended, and counted. */
  lemma EnlistOne(f: Forest)
    requires |f| == 2 && f[0].subs == [] && f[1] == Proc(Open, Checked(0), 0, [])
    ensures Next(f, Enlist(1)) == [f[0].(subs := [1]), Proc(Open, Enlisted(0), 0, [])]
  {
    assert f[0].subs + [1] == [1];
  }

  lemma CountOne(f: Forest)
    requires |f| == 2 && f[1] == Proc(Open, Enlisted(0), 0, [])
    ensures Next(f, Count(1)) == [f[0].(running := f[0].running + 1), Proc(Open, Watched(0, Selecting), 0, [])]
  {
  }

  /** The code does not lock the check and the rest together: a child that passes the
      check before the parent's Close, and is appended after it, is listed and open,
      counted or not, under a parent that is done. */
  lemma LateStartBreaksCompletion()
    ensures Reachable(DONE_WITH_APPENDED) && !DoneMeansChildrenDone(DONE_WITH_APPENDED)
    ensures Reachable(DONE_WITH_COUNTED) && !DoneMeansChildrenDone(DONE_WITH_COUNTED)
  {
    LateAppend();
    LateCount();
    assert Below(DONE_WITH_APPENDED, 0, 1) && PhaseIs(DONE_WITH_APPENDED, 0, Finished);
    assert Below(DONE_WITH_COUNTED, 0, 1) && PhaseIs(DONE_WITH_COUNTED, 0, Finished);
  }

  lemma StartChildUndisturbed()
    ensures Reachable(ROOT_AND_CHILD)
  {
    StartAndCheck();
    EnlistOne(ROOT_AND_CHECKED);
    ReachableStep(ROOT_AND_CHECKED, Enlist(1));
    var f1 := Next(ROOT_AND_CHECKED, Enlist(1));
    CountOne(f1);
    ReachableStep(f1, Count(1));
  }

  lemma SeeOne(f: Forest)
    requires |f| == 2 && f[1] == Proc(Finished, Watched(0, Selecting), 0, [])
    ensures Next(f, SeeChild(1)) == [f[0], Proc(Finished, Watched(0, AwaitingDone), 0, [])]
  {
  }

  lemma ObserveOne(f: Forest)
    requires |f| == 2 && f[0].running == 1 && f[1] == Proc(Finished, Watched(0, AwaitingDone), 0, [])
    ensures Next(f, ObserveDone(1)) == [f[0].(running := 0), Proc(Finished, Watched(0, Deregistering), 0, [])]
  {
  }

  lemma ChildLeaves()
    ensures Reachable(CHILD_LEAVING)
  {
    StartChildUndisturbed();
    ReachableClose(ROOT_AND_CHILD, 1);
    assert SetPhase(ROOT_AND_CHILD, 1, Finished) == ROOT_AND_DONE_CHILD;
    SeeOne(ROOT_AND_DONE_CHILD);
    ReachableStep(ROOT_AND_DONE_CHILD, SeeChild(1));
    var f1 := Next(ROOT_AND_DONE_CHILD, SeeChild(1));
    ObserveOne(f1);
    ReachableStep(f1, ObserveDone(1));
  }

  /** running.Done() comes before the removal, so even an ordinary run reaches a state
      in which a Done process still lists a child. */
  lemma DoneCanStillList()
    ensures Reachable(DONE_STILL_LISTING) && PhaseIs(DONE_STILL_LISTING, 0, Finished) && 1 in DONE_STILL_LISTING[0].subs
  {
    ChildLeaves();
    ReachableClose(CHILD_LEAVING, 0);
    assert SetPhase(CHILD_LEAVING, 0, Finished) == DONE_STILL_LISTING;
  }

  lemma ReachableStep(f: Forest, l: Label)
    requires Reachable(f) && Enabled(f, l) && !Panics(f, l)
    ensures Reachable(Next(f, l))
  {
    var ls :| Run([], ls, f);
    RunSnoc([], ls, f, l);
  }

  lemma {:induction false} RunSnoc(f: Forest, ls: seq<Label>, g: Forest, l: Label)
    requires Run(f, ls, g) && Enabled(g, l) && !Panics(g, l)
    ensures Run(f, ls + [l], Next(g, l))
    decreases |ls|
  {
    if ls == [] {
      assert Run(Next(g, l), [], Next(g, l));
      assert ([] + [l])[1..] == [];
    } else {
      assert (ls + [l])[1..] == ls[1..] + [l];
      RunSnoc(Next(f, ls[0]), ls[1..], g, l);
    }
  }
}
