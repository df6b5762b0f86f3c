/** The object behind one process: the fields that Close, StartChild and the
    watchers update (process/api.process.go, lines 11-32), step by step.  Every
    step is proved to do to the object what the step relation does to the tree. */
module Processes {
  import opened ChildLists
  import opened ProcessTree

  class Process {
    var state: ProcState
    var closeEntered: bool // closeOnce
    var closing: bool      // chClosing is closed
    var closed: bool       // chClosed is closed
    var onClosing: bool    // a callback is set
    var onClosed: bool
    var running: nat
    const subs: ChildList<Pid>

    /** How far the goroutine inside Close has come. */
    ghost var phase: Phase

    ghost predicate Valid()
      reads this, subs
    {
      && subs.Valid()
      && state == StateOf(phase)
      && closeEntered == !phase.Open?
      && closing == ClosingSeen(phase)
      && closed == phase.Finished?
      && (phase.Waiting? || Ended(phase) ==> !onClosing)
      && (phase.Finished? ==> !onClosed)
    }

    /** This object is process `n` of the tree. */
    ghost predicate Shows(f: Forest, n: Pid)
      reads this, subs, subs.cells
    {
      && Valid() && n < |f|
      && f[n].phase == phase && f[n].running == running && f[n].subs == subs.Subs()
    }

    /** OnContextInit, which also forgets callbacks set before; a cell that holds no child holds zero. */
    constructor ()
      ensures Valid() && phase == Open && running == 0 && subs.Subs() == []
      ensures state == Started && !closing && !closed
      ensures fresh(subs) && fresh(subs.cells)
    {
      state, closeEntered, closing, closed, running, phase := Started, false, false, false, 0, Open;
      onClosing, onClosed := false, false;
      subs := new ChildList(0, 0);
    }

    /** The embedding type sets the callbacks before anyone can call Close. */
    method SetCallbacks(onClosing: bool, onClosed: bool)
      requires Valid() && !closeEntered
      modifies this`onClosing, this`onClosed
      ensures Valid() && this.onClosing == onClosing && this.onClosed == onClosed
    {
      this.onClosing, this.onClosed := onClosing, onClosed;
    }

    // ------------------------------------------------------------------ Close

    /** The first caller runs the body; any other waits for `closed`. */
    method EnterClose(ghost f: Forest, ghost n: Pid) returns (first: bool)
      requires Shows(f, n)
      modifies this`state, this`closeEntered, this`phase
      ensures first == Enabled(f, CallClose(n)) && state == if first then Closing else old(state)
      ensures Shows(if first then Next(f, CallClose(n)) else f, n)
    {
      first := !closeEntered;
      if first {
        closeEntered, state, phase := true, Closing, Claimed;
      }
    }

    method SignalClosing(ghost f: Forest, ghost n: Pid)
      requires Shows(f, n) && Enabled(f, Signal(n))
      modifies this`closing, this`phase
      ensures !old(closing) && closing && Shows(Next(f, Signal(n)), n)
    {
      closing, phase := true, Signalled;
    }

    /** The callback fires if one is set, and is then forgotten. */
    method FireOnClosing(ghost f: Forest, ghost n: Pid) returns (fired: bool)
      requires Shows(f, n) && Enabled(f, CallbackReturns(n))
      modifies this`onClosing, this`phase
      ensures fired == old(onClosing) && !onClosing && Shows(Next(f, CallbackReturns(n)), n)
    {
      fired := onClosing;
      onClosing, phase := false, Waiting;
    }

    /** running.Wait() returns only at zero. */
    method TryDrain(ghost f: Forest, ghost n: Pid) returns (drained: bool)
      requires Shows(f, n) && PhaseIs(f, n, Waiting)
      modifies this`state, this`phase
      ensures drained == Enabled(f, Drain(n)) && state == if drained then Closed else old(state)
      ensures Shows(if drained then Next(f, Drain(n)) else f, n)
    {
      drained := running == 0;
      if drained {
        state, phase := Closed, Drained;
      }
    }

    method CloseDone(ghost f: Forest, ghost n: Pid) returns (fired: bool)
      requires Shows(f, n) && Enabled(f, Finish(n))
      modifies this`onClosed, this`closed, this`phase
      ensures fired == old(onClosed) && !onClosed
      ensures !old(closed) && closed && Shows(Next(f, Finish(n)), n)
    {
      fired, onClosed := onClosed, false;
      closed, phase := true, Finished;
    }

    // ------------------------------------------- StartChild and its watcher

    method MayStart(ghost f: Forest, ghost n: Pid, ghost c: Pid) returns (ok: bool)
      requires Shows(f, n) && Enabled(f, Check(c)) && f[c].link.parent == n
      ensures ok <==> f[n].phase.Open?
      ensures Next(f, Check(c))[c].link == if ok then Checked(n) else Refused
      ensures Shows(Next(f, Check(c)), n)
    {
      ok := state == Started;
    }

    method AddSub(ghost f: Forest, ghost n: Pid, c: Pid)
      requires Shows(f, n) && Enabled(f, Enlist(c)) && f[c].link.parent == n < c
      modifies subs, subs.cells
      ensures Shows(Next(f, Enlist(c)), n)
      ensures subs.cells == old(subs.cells) || fresh(subs.cells)
    {
      subs.Append(c);
    }

    method AddRunning(ghost f: Forest, ghost n: Pid, ghost c: Pid)
      requires Shows(f, n) && Enabled(f, Count(c)) && f[c].link.parent == n < c
      modifies this`running
      ensures Shows(Next(f, Count(c)), n)
    {
      running := running + 1;
    }

    /** running.Done(), which panics below zero; that it never gets there follows
        from what is reachable. */
    method ChildDone(ghost f: Forest, ghost n: Pid, ghost c: Pid)
      requires Reachable(f) && Shows(f, n) && Enabled(f, ObserveDone(c)) && f[c].link.parent == n < c
      modifies this`running
      ensures !Panics(f, ObserveDone(c)) && Shows(Next(f, ObserveDone(c)), n)
    {
      ChildBookkeeping(f, ObserveDone(c));
      running := running - 1;
    }

    method RemoveSub(ghost f: Forest, ghost n: Pid, c: Pid)
      requires Shows(f, n) && Enabled(f, Deregister(c)) && f[c].link.parent == n < c
      modifies subs`len, subs.cells
      ensures Shows(Next(f, Deregister(c)), n)
    {
      subs.Remove(c);
    }
  }

  /** A step changes only the object of the process whose field it writes, so the
      objects of all others go on showing theirs. */
  function Written(f: Forest, l: Label): (n: Pid)
    requires Enabled(f, l) && !l.StartRoot? && !l.Spawn?
  {
    match l
    case CallClose(n) => n
    case Signal(n) => n
    case CallbackReturns(n) => n
    case Drain(n) => n
    case Finish(n) => n
    case WatcherCloses(c) => c
    case Check(c) => f[c].link.parent
    case Enlist(c) => f[c].link.parent
    case Count(c) => f[c].link.parent
    case SeeParent(c) => f[c].link.parent
    case SeeChild(c) => f[c].link.parent
    case CloseReturns(c) => f[c].link.parent
    case ObserveDone(c) => f[c].link.parent
    case Deregister(c) => f[c].link.parent
  }

  lemma OthersStillShow(f: Forest, l: Label, p: Process, n: Pid)
    requires p.Shows(f, n) && Enabled(f, l) && !Panics(f, l)
    requires l.StartRoot? || l.Spawn? || n != Written(f, l)
    ensures p.Shows(Next(f, l), n)
  {
  }
}
