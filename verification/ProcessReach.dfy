/** Which trees StartChild can build, whom its check admits, and who can make a
    process close. */
module ProcessReach {
  import opened Wrappers
  import opened ProcessTree
  import opened ProcessCompletion
  import opened ProcessShutdown

  // ------------------------------------------------------------ StartChild

  /** The check of StartChild refuses a child exactly if its parent is not open. */
  lemma CheckAdmitsIff(f: Forest, c: Pid)
    requires Enabled(f, Check(c))
    ensures var p := f[c].link.parent;
            Next(f, Check(c))[c].link == if f[p].phase.Open? then Checked(p) else Refused
  {
  }

  /** A StartChild under way is never blocked, whatever its parent does meanwhile. */
  lemma StartChildNeverBlocks(f: Forest, c: Pid)
    requires Inv(f) && c < |f|
    ensures f[c].link.Unchecked? ==> Enabled(f, Check(c))
    ensures f[c].link.Checked? ==> Enabled(f, Enlist(c))
    ensures f[c].link.Enlisted? ==> Enabled(f, Count(c))
  {
    assert HasParent(f[c].link) ==> f[c].link.parent < c;
  }

  /** Anyone may start a child under any process, closing or not, and call Close on any
      open one. */
  lemma ClientsMayCall(f: Forest, n: Pid)
    ensures Enabled(f, StartRoot)
    ensures n < |f| ==> Enabled(f, Spawn(n)) && Next(f, Spawn(n))[|f|].link == Unchecked(n)
    ensures n < |f| ==> (Enabled(f, CallClose(n)) <==> f[n].phase.Open?)
  {
  }

  /** For each process its parent, if it has one; parents come before children. */
  type Shape = seq<Option<Pid>>

  predicate IsShape(shape: Shape) {
    forall i :: 0 <= i < |shape| && shape[i].Some? ==> shape[i].value < i
  }

  /** All processes are open, and started as roots or children as the shape says. */
  ghost predicate Has(f: Forest, shape: Shape) {
    && |f| == |shape|
    && forall i :: 0 <= i < |f| ==>
         && f[i].phase.Open?
         && f[i].link == match shape[i] { case None => Root case Some(p) => Watched(p, Selecting) }
  }

  lemma StartRootWhole(f: Forest) returns (g: Forest)
    requires Reachable(f)
    ensures Reachable(g) && |g| == |f| + 1 && g[|f|].phase.Open? && g[|f|].link.Root?
    ensures forall i :: 0 <= i < |f| ==> g[i] == f[i]
  {
    g := Next(f, StartRoot);
    ReachableStep(f, StartRoot);
  }

  lemma StartChildWhole(f: Forest, p: Pid) returns (g: Forest)
    requires Reachable(f) && PhaseIs(f, p, Open)
    ensures Reachable(g) && |g| == |f| + 1
    ensures g[|f|].phase.Open? && g[|f|].link == Watched(p, Selecting)
    ensures forall i :: 0 <= i < |f| ==> g[i].phase == f[i].phase && g[i].link == f[i].link
    ensures g[p].running == f[p].running + 1 && g[p].subs == f[p].subs + [|f|]
  {
    var c := |f|;
    var f1 := Next(f, Spawn(p));
    ReachableStep(f, Spawn(p));
    CheckAdmitsIff(f1, c);
    var f2 := Next(f1, Check(c));
    ReachableStep(f1, Check(c));
    assert f2[c].link == Checked(p) && f2[p] == f[p];
    var f3 := Next(f2, Enlist(c));
    ReachableStep(f2, Enlist(c));
    assert f3[c].link == Enlisted(p);
    g := Next(f3, Count(c));
    ReachableStep(f3, Count(c));
  }

  /** Every finite forest, of any depth and branching, can be started. */
  lemma {:induction false} EveryShapeIsReachable(shape: Shape) returns (f: Forest)
    requires IsShape(shape)
    ensures Reachable(f) && Has(f, shape)
  {
    if shape == [] {
      f := [];
      assert Run([], [], f);
    } else {
      var n := |shape| - 1;
      var before := EveryShapeIsReachable(shape[..n]);
      if shape[n].None? {
        f := StartRootWhole(before);
      } else {
        f := StartChildWhole(before, shape[n].value);
      }
    }
  }

  // ------------------------------------------------------------------ Close

  /** Every step leaves each process in its phase or moves it to the next one. */
  lemma PhasesInOrder(f: Forest, l: Label, n: Pid)
    requires Enabled(f, l) && !Panics(f, l) && n < |f|
    ensures n < |Next(f, l)|
    ensures PhaseRank(f[n].phase) - 1 <= PhaseRank(Next(f, l)[n].phase) <= PhaseRank(f[n].phase)
  {
  }

  /** As soon as a process has closed chClosing, and before its OnClosing returns, every
      child still watched can be told, and its own watcher sees it. */
  lemma SignalReachesChildren(f: Forest, n: Pid, c: Pid)
    requires Enabled(f, Signal(n)) && At(f, c, Selecting)
    ensures f[c].link.parent == n ==> Enabled(Next(f, Signal(n)), SeeParent(c))
    ensures c == n ==> Enabled(Next(f, Signal(n)), SeeChild(c))
  {
  }

  /** The watcher gets out of child.Close(), and past child.Done(), only when the child is
      closed; and it turns to the child only because one of the two is closing. */
  lemma WatcherWaits(f: Forest, l: Label, c: Pid, w: Watch)
    requires Enabled(f, l) && !Panics(f, l) && At(f, c, w) && !At(Next(f, l), c, w)
    ensures w.ClosingChild? || w.AwaitingDone? ==> f[c].phase.Finished?
    ensures w.Selecting? ==> ClosingSeen(f[c].phase) || (f[c].link.parent < |f| && ClosingSeen(f[f[c].link.parent].phase))
  {
  }

  /** The processes on which a client called Close. */
  function Closed(ls: seq<Label>): set<Pid> {
    if ls == [] then {}
    else Closed(ls[..|ls| - 1]) + if ls[|ls| - 1].CallClose? then {ls[|ls| - 1].n} else {}
  }

  /** `n` or one of its ancestors is in `asked`. */
  predicate Asked(f: Forest, asked: set<Pid>, n: Pid)
    decreases n
  {
    || n in asked
    || (n < |f| && HasParent(f[n].link) && IsChild(f[n], f[n].link.parent) && f[n].link.parent < n
        && Asked(f, asked, f[n].link.parent))
  }

  ghost predicate OnlyAsked(f: Forest, asked: set<Pid>) {
    && (forall n: Pid :: n < |f| && !f[n].phase.Open? ==> Asked(f, asked, n))
    && (forall c: Pid :: At(f, c, ClosingChild) && f[c].link.parent < |f| ==> !f[f[c].link.parent].phase.Open?)
  }

  lemma {:induction false} AskedStays(f: Forest, asked: set<Pid>, l: Label, more: set<Pid>, n: Pid)
    requires Enabled(f, l) && !Panics(f, l) && asked <= more && Asked(f, asked, n)
    ensures Asked(Next(f, l), more, n)
    decreases n
  {
    if n !in asked {
      var p := f[n].link.parent;
      AskedStays(f, asked, l, more, p);
      ChildStays(f, l, n);
    }
  }

  lemma ChildStays(f: Forest, l: Label, c: Pid)
    requires Enabled(f, l) && !Panics(f, l) && c < |f| && HasParent(f[c].link) && IsChild(f[c], f[c].link.parent)
    ensures c < |Next(f, l)| && HasParent(Next(f, l)[c].link) && Next(f, l)[c].link.parent == f[c].link.parent
    ensures IsChild(Next(f, l)[c], f[c].link.parent)
  {
  }

  /** Who leaves Open with a step: the process that Close is called on, or a child whose
      watcher has seen the parent closing. */
  lemma LeavesOpen(f: Forest, l: Label, n: Pid)
    requires Inv(f) && Enabled(f, l) && !Panics(f, l) && n < |f|
    requires f[n].phase.Open? && !Next(f, l)[n].phase.Open?
    ensures l == CallClose(n) || At(f, n, ClosingChild)
  {
  }

  lemma ToldByParent(f: Forest, l: Label, c: Pid)
    requires Inv(f) && Enabled(f, l) && !Panics(f, l) && At(Next(f, l), c, ClosingChild)
    ensures c < |f| && f[c].link.Watched? && f[c].link.parent == Next(f, l)[c].link.parent < c
    ensures At(f, c, ClosingChild) || !f[f[c].link.parent].phase.Open?
  {
  }

  lemma AskedNext(f: Forest, asked: set<Pid>, l: Label, more: set<Pid>, n: Pid)
    requires Inv(f) && OnlyAsked(f, asked) && Enabled(f, l) && !Panics(f, l)
    requires asked <= more && (l.CallClose? ==> l.n in more)
    requires n < |Next(f, l)| && !Next(f, l)[n].phase.Open?
    ensures Asked(Next(f, l), more, n)
  {
    assert n < |f|;
    if f[n].phase.Open? {
      LeavesOpen(f, l, n);
      if l != CallClose(n) {
        assert f[n].link.parent < n;
        assert Asked(f, asked, f[n].link.parent);
        assert Asked(f, asked, n);
        AskedStays(f, asked, l, more, n);
      }
    } else {
      AskedStays(f, asked, l, more, n);
    }
  }

  lemma StepKeepsAsked(f: Forest, asked: set<Pid>, l: Label, more: set<Pid>)
    requires Inv(f) && OnlyAsked(f, asked) && Enabled(f, l) && !Panics(f, l)
    requires asked <= more && (l.CallClose? ==> l.n in more)
    ensures OnlyAsked(Next(f, l), more)
  {
    var g := Next(f, l);
    forall n: Pid | n < |g| && !g[n].phase.Open? ensures Asked(g, more, n) {
      AskedNext(f, asked, l, more, n);
    }
    StepKeepsClosing(f, l);
    forall c: Pid | At(g, c, ClosingChild) && g[c].link.parent < |g| ensures !g[g[c].link.parent].phase.Open? {
      ToldByParent(f, l, c);
    }
  }

  lemma {:induction false} RunKeepsAsked(f: Forest, asked: set<Pid>, ls: seq<Label>, g: Forest, more: set<Pid>)
    requires Inv(f) && OnlyAsked(f, asked) && Run(f, ls, g) && asked <= more
    requires forall k :: 0 <= k < |ls| && ls[k].CallClose? ==> ls[k].n in more
    ensures OnlyAsked(g, more)
    decreases |ls|
  {
    if ls == [] {
      forall n: Pid | n < |f| && !f[n].phase.Open? ensures Asked(f, more, n) {
        AskedOfMore(f, asked, more, n);
      }
    } else {
      StepKeepsAsked(f, asked, ls[0], more);
      StepKeepsInv(f, ls[0]);
      RunKeepsAsked(Next(f, ls[0]), more, ls[1..], g, more);
    }
  }

  lemma {:induction false} AskedOfMore(f: Forest, asked: set<Pid>, more: set<Pid>, n: Pid)
    requires asked <= more && Asked(f, asked, n)
    ensures Asked(f, more, n)
    decreases n
  {
    if n !in asked {
      AskedOfMore(f, asked, more, f[n].link.parent);
    }
  }

  lemma {:induction false} ClosedHas(ls: seq<Label>)
    ensures forall a :: a in Closed(ls) <==> exists k :: 0 <= k < |ls| && ls[k] == CallClose(a)
  {
    if ls != [] {
      var last := |ls| - 1;
      ClosedHas(ls[..last]);
      forall a | a in Closed(ls) ensures exists k :: 0 <= k < |ls| && ls[k] == CallClose(a) {
        if a in Closed(ls[..last]) {
          var k :| 0 <= k < last && ls[..last][k] == CallClose(a);
          assert ls[k] == CallClose(a);
        } else {
          assert ls[last] == CallClose(a);
        }
      }
      forall a, k | 0 <= k < |ls| && ls[k] == CallClose(a) ensures a in Closed(ls) {
        if k < last {
          assert ls[..last][k] == CallClose(a);
        }
      }
    }
  }

  lemma {:induction false} AskedFrom(f: Forest, asked: set<Pid>, n: Pid) returns (a: Pid)
    requires n < |f| && Asked(f, asked, n)
    ensures a in asked && (a == n || Below(f, a, n))
    decreases n
  {
    if n in asked {
      a := n;
    } else {
      a := AskedFrom(f, asked, f[n].link.parent);
    }
  }

  /** In every run a process is closing or closed only if a client called Close on it or
      on one of its ancestors. */
  lemma NothingClosesUnasked(ls: seq<Label>, f: Forest, n: Pid) returns (a: Pid, k: nat)
    requires Run([], ls, f) && n < |f| && !f[n].phase.Open?
    ensures a == n || Below(f, a, n)
    ensures k < |ls| && ls[k] == CallClose(a)
  {
    ClosedHas(ls);
    RunKeepsAsked([], {}, ls, f, Closed(ls));
    a := AskedFrom(f, Closed(ls), n);
    k :| 0 <= k < |ls| && ls[k] == CallClose(a);
  }
}
