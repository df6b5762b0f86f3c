/** The callers of WaitGroupChan (utils/channels.go, lines 83-123) together with its
    server, one step per channel operation: who returns, who panics, who is stuck. */
module WaitGroupCallers {
  import opened Wrappers
  import opened WaitGroupChans

  datatype Call = AddCall(delta: int) | DoneCall

  /** In the select; its request taken, waiting for the reply; returned; panicked on
      an error reply; turned away because Wait was called before. */
  datatype Stage = Asking | Taken | Returned | Panicked(reply: Reply) | Refused

  datatype Caller = Caller(call: Call, stage: Stage)

  /** In its select; about to send a reply; about to close chWait after "called
      Done() too many times"; returned. */
  datatype Server = Selecting | Replying(c: nat, reply: Reply) | Failing | Gone

  /** `log` is the history of the server's select. */
  datatype State = State(
    server: Server,
    total: int,
    done: bool,
    waitClosed: bool,
    ctxDone: bool,
    stopped: bool,
    waited: bool,
    callers: seq<Caller>,
    log: seq<Event>)

  datatype Label =
    | Start(call: Call) | CallWait | CtxEnds | CallClose
    | SeeCtx(c: nat) | SeeStop(c: nat) | SeeWait(c: nat) | Take(c: nat)
    | GiveReply | CloseWait | ServerCtx | ServerStop

  const INITIAL := State(Selecting, 0, false, false, false, false, false, [], [])

  function Delta(call: Call): int {
    if call.AddCall? then call.delta else -1
  }

  predicate Asks(s: State, c: nat) {
    c < |s.callers| && s.callers[c].stage.Asking?
  }

  predicate Enabled(s: State, l: Label) {
    match l
    case Start(_) => true
    case CallWait => true
    case CtxEnds => !s.ctxDone
    case CallClose => !s.stopped
    case SeeCtx(c) => Asks(s, c) && s.ctxDone
    case SeeStop(c) => Asks(s, c) && s.stopped
    case SeeWait(c) => Asks(s, c) && s.callers[c].call.DoneCall? && s.waitClosed
    case Take(c) => Asks(s, c) && s.server.Selecting?
    case GiveReply => s.server.Replying? && s.server.c < |s.callers|
    case CloseWait => s.server.Failing?
    case ServerCtx => s.server.Selecting? && s.ctxDone
    case ServerStop => s.server.Selecting? && s.stopped
  }

  function Staged(s: State, c: nat, stage: Stage): seq<Caller>
    requires c < |s.callers|
  {
    s.callers[c := s.callers[c].(stage := stage)]
  }

  /** The server's handling of one request, up to its reply. */
  function Handled(s: State, c: nat): State
    requires c < |s.callers|
  {
    var delta := Delta(s.callers[c].call);
    var t := s.(callers := Staged(s, c, Taken), log := s.log + [Request(delta)]);
    if s.done then t.(server := Replying(c, AlreadyFinished))
    else
      var total := s.total + delta;
      if total < 0 then t.(total := total, server := Replying(c, TooManyDone))
      else if total == 0 then t.(total := total, done := true, waitClosed := true, server := Replying(c, Accepted))
      else t.(total := total, server := Replying(c, Accepted))
  }

  function Next(s: State, l: Label): State
    requires Enabled(s, l)
  {
    match l
    case Start(call) =>
      s.(callers := s.callers + [Caller(call, if call.AddCall? && s.waited then Refused else Asking)])
    case CallWait => s.(waited := true)
    case CtxEnds => s.(ctxDone := true)
    case CallClose => s.(stopped := true)
    case SeeCtx(c) => s.(callers := Staged(s, c, Returned))
    case SeeStop(c) => s.(callers := Staged(s, c, Returned))
    case SeeWait(c) => s.(callers := Staged(s, c, Returned))
    case Take(c) => Handled(s, c)
    case GiveReply =>
      var c, r := s.server.c, s.server.reply;
      s.(callers := Staged(s, c, if r.Accepted? then Returned else Panicked(r)),
         server := if r.Accepted? then Selecting else if r.TooManyDone? then Failing else Gone)
    case CloseWait => s.(server := Gone, waitClosed := true)
    case ServerCtx => s.(server := Gone, waitClosed := true, log := s.log + [CtxDone])
    case ServerStop => s.(server := Gone, waitClosed := true, log := s.log + [Stop])
  }

  predicate Run(s: State, ls: seq<Label>, t: State)
    decreases |ls|
  {
    if ls == [] then s == t else Enabled(s, ls[0]) && Run(Next(s, ls[0]), ls[1..], t)
  }

  ghost predicate Reachable(t: State) {
    exists ls :: Run(INITIAL, ls, t)
  }

  // ------------------------------------------------------------- invariant

  ghost predicate ReplyIs(s: State, r: Reply) {
    s.log != [] && ReplyTo(s.log, |s.log| - 1) == Some(r)
  }

  /** The server's fields follow the events it has seen. */
  ghost predicate InStep(s: State) {
    && s.done == s.waitClosed == ReleasedBefore(s.log, |s.log|)
    && (!s.done ==> s.total == Total(s.log, |s.log|))
  }

  ghost predicate ServerOk(s: State) {
    match s.server
    case Selecting => InStep(s)
    case Replying(c, r) =>
      && ReplyIs(s, r)
      && (r.Accepted? ==> InStep(s))
      && (r.TooManyDone? <==> !s.waitClosed && ReleasedBefore(s.log, |s.log|))
      && (!r.Accepted? ==> ReleasedBefore(s.log, |s.log|))
    case Failing => !s.waitClosed && ReplyIs(s, TooManyDone) && ReleasedBefore(s.log, |s.log|)
    case Gone => s.waitClosed && ReleasedBefore(s.log, |s.log|)
  }

  predicate Failed(s: State, c: nat) {
    c < |s.callers| && s.callers[c].stage.Panicked?
  }

  /** The reply on its way has one receiver. */
  ghost predicate ReceiverOk(s: State) {
    && (s.server.Replying? ==> s.server.c < |s.callers|)
    && forall c :: 0 <= c < |s.callers| ==>
         (s.callers[c].stage.Taken? <==> s.server.Replying? && s.server.c == c)
  }

  predicate Serving(s: State) {
    s.server.Selecting? || s.server.Replying?
  }

  /** An error reply is the last one, and without one only a signal ends the server. */
  ghost predicate FailuresOk(s: State) {
    && (forall c: nat :: Failed(s, c) ==>
          !Serving(s) && !s.callers[c].stage.reply.Accepted? && ReplyIs(s, s.callers[c].stage.reply))
    && (forall c: nat, d: nat :: Failed(s, c) && Failed(s, d) ==> c == d)
    && (!Serving(s) ==> s.ctxDone || s.stopped || exists c: nat :: Failed(s, c))
  }

  ghost predicate Inv(s: State) {
    ServerOk(s) && ReceiverOk(s) && FailuresOk(s)
  }

  lemma LogGrows(log: seq<Event>, e: Event)
    ensures var after := log + [e];
            && Total(after, |after|) == Total(log, |log|) + (if e.Request? then e.delta else 0)
            && (ReleasedBefore(after, |log|) <==> ReleasedBefore(log, |log|))
            && (ReleasedBefore(after, |after|) <==> ReleasedBefore(log, |log|) || Releases(after, |log|))
  {
    var after := log + [e];
    TotalPrefix(log, [e], |log|);
    forall j | 0 <= j < |log| ensures Releases(after, j) == Releases(log, j) {
      TotalPrefix(log, [e], j + 1);
    }
    ReleasedStep(after, |log|);
  }

  lemma TakeKeepsServer(s: State, c: nat)
    requires ServerOk(s) && Enabled(s, Take(c))
    ensures ServerOk(Next(s, Take(c)))
  {
    LogGrows(s.log, Request(Delta(s.callers[c].call)));
  }

  lemma StepKeepsServer(s: State, l: Label)
    requires Inv(s) && Enabled(s, l)
    ensures ServerOk(Next(s, l))
  {
    match l {
      case Take(c) => TakeKeepsServer(s, c);
      case ServerCtx => LogGrows(s.log, CtxDone);
      case ServerStop => LogGrows(s.log, Stop);
      case _ =>
    }
  }

  lemma TakeKeepsReceiver(s: State, c: nat)
    requires ReceiverOk(s) && Enabled(s, Take(c))
    ensures ReceiverOk(Next(s, Take(c)))
  {
    var t := Next(s, Take(c));
    assert t.server.Replying? && t.server.c == c && t.callers == Staged(s, c, Taken);
  }

  lemma StepKeepsReceiver(s: State, l: Label)
    requires ReceiverOk(s) && Enabled(s, l)
    ensures ReceiverOk(Next(s, l))
  {
    if l.Take? {
      TakeKeepsReceiver(s, l.c);
    }
  }

  lemma ReplyKeepsFailures(s: State)
    requires Inv(s) && Enabled(s, GiveReply)
    ensures FailuresOk(Next(s, GiveReply))
  {
    var t, c := Next(s, GiveReply), s.server.c;
    assert forall d: nat :: Failed(t, d) ==> d == c;
    assert !s.server.reply.Accepted? ==> Failed(t, c);
  }

  lemma SameFailures(s: State, l: Label, c: nat)
    requires Inv(s) && Enabled(s, l) && !l.GiveReply?
    ensures Failed(Next(s, l), c) <==> Failed(s, c)
    ensures Failed(s, c) ==> Next(s, l).callers[c] == s.callers[c]
  {
  }

  lemma ServingEnds(s: State, l: Label)
    requires Enabled(s, l) && !l.GiveReply?
    ensures !Serving(s) ==> !Serving(Next(s, l)) && Next(s, l).log == s.log
    ensures !Serving(Next(s, l)) ==> !Serving(s) || Next(s, l).ctxDone || Next(s, l).stopped
    ensures (s.ctxDone ==> Next(s, l).ctxDone) && (s.stopped ==> Next(s, l).stopped)
  {
  }

  lemma StepKeepsFailures(s: State, l: Label)
    requires Inv(s) && Enabled(s, l)
    ensures FailuresOk(Next(s, l))
  {
    if l.GiveReply? {
      ReplyKeepsFailures(s);
    } else {
      ServingEnds(s, l);
      forall c: nat ensures Failed(Next(s, l), c) <==> Failed(s, c)
        ensures Failed(s, c) ==> Next(s, l).callers[c] == s.callers[c]
      {
        SameFailures(s, l, c);
      }
    }
  }

  lemma StepKeepsInv(s: State, l: Label)
    requires Inv(s) && Enabled(s, l)
    ensures Inv(Next(s, l))
  {
    StepKeepsServer(s, l);
    StepKeepsReceiver(s, l);
    StepKeepsFailures(s, l);
  }

  lemma {:induction false} RunKeepsInv(s: State, ls: seq<Label>, t: State)
    requires Inv(s) && Run(s, ls, t)
    ensures Inv(t)
    decreases |ls|
  {
    if ls != [] {
      StepKeepsInv(s, ls[0]);
      RunKeepsInv(Next(s, ls[0]), ls[1..], t);
    }
  }

  lemma ReachableInv(t: State)
    requires Reachable(t)
    ensures Inv(t)
  {
    var ls :| Run(INITIAL, ls, t);
    RunKeepsInv(INITIAL, ls, t);
  }

  /** In every reachable state at most one call has panicked on an error reply, and
      it was the last request that the server took. */
  lemma OnePanicAtMost(s: State, c: nat, d: nat)
    requires Reachable(s) && Failed(s, c) && Failed(s, d)
    ensures c == d && !Serving(s)
    ensures ReplyIs(s, s.callers[c].stage.reply) && !s.callers[c].stage.reply.Accepted?
  {
    ReachableInv(s);
  }

  /** While the server serves, chWait is closed exactly if an event released. */
  lemma WaitClosedIff(s: State)
    requires Reachable(s) && s.server.Selecting?
    ensures s.waitClosed <==> ReleasedBefore(s.log, |s.log|)
  {
    ReachableInv(s);
  }

  // --------------------------------------------------------- when the server ends

  /** The server is past the last event that it takes. */
  predicate Over(s: State) {
    !s.server.Selecting? && (s.server.Replying? ==> !s.server.reply.Accepted?)
  }

  /** No event but the last ends the server, and the last one does exactly if it is over. */
  ghost predicate EndsLast(s: State) {
    forall k :: 0 <= k < |s.log| ==> (Ends(s.log, k) <==> Over(s) && k == |s.log| - 1)
  }

  lemma EndsPrefix(log: seq<Event>, e: Event, k: nat)
    requires k < |log|
    ensures Ends(log + [e], k) <==> Ends(log, k)
  {
    TotalPrefix(log, [e], k + 1);
    forall j | 0 <= j < k ensures Releases(log + [e], j) <==> Releases(log, j) {
      TotalPrefix(log, [e], j + 1);
    }
  }

  lemma StepKeepsEndsLast(s: State, l: Label)
    requires Inv(s) && EndsLast(s) && Enabled(s, l)
    ensures EndsLast(Next(s, l))
  {
    var t := Next(s, l);
    if |t.log| == |s.log| + 1 {
      var e := t.log[|s.log|];
      assert t.log == s.log + [e];
      LogGrows(s.log, e);
      forall k | 0 <= k < |s.log| ensures !Ends(t.log, k) {
        EndsPrefix(s.log, e, k);
      }
      StepKeepsServer(s, l);
    }
  }

  lemma {:induction false} RunKeepsEndsLast(s: State, ls: seq<Label>, t: State)
    requires Inv(s) && EndsLast(s) && Run(s, ls, t)
    ensures EndsLast(t)
    decreases |ls|
  {
    if ls != [] {
      StepKeepsInv(s, ls[0]);
      StepKeepsEndsLast(s, ls[0]);
      RunKeepsEndsLast(Next(s, ls[0]), ls[1..], t);
    }
  }

  /** In every reachable state the events that the server took are as Serve says: none but
      the last ends it, and it goes on to its end exactly if the last one does. */
  lemma ServerEndsAtItsEnd(t: State)
    requires Reachable(t)
    ensures EndsLast(t)
  {
    var ls :| Run(INITIAL, ls, t);
    RunKeepsEndsLast(INITIAL, ls, t);
  }

  // ------------------------------------------------------- what the server counts

  /** The deltas of the Adds that the server took, minus the Dones it took. */
  function TakenSum(s: State, ls: seq<Label>, t: State): int
    requires Run(s, ls, t)
    decreases |ls|
  {
    if ls == [] then 0
    else
      var here := if !ls[0].Take? then 0
                  else match s.callers[ls[0].c].call { case AddCall(delta) => delta case DoneCall => -1 };
      here + TakenSum(Next(s, ls[0]), ls[1..], t)
  }

  lemma StepTotal(s: State, l: Label)
    requires Enabled(s, l)
    ensures Total(Next(s, l).log, |Next(s, l).log|) == Total(s.log, |s.log|)
              + if !l.Take? then 0 else match s.callers[l.c].call { case AddCall(delta) => delta case DoneCall => -1 }
  {
    match l {
      case Take(c) => LogGrows(s.log, Request(Delta(s.callers[c].call)));
      case ServerCtx => LogGrows(s.log, CtxDone);
      case ServerStop => LogGrows(s.log, Stop);
      case _ =>
    }
  }

  lemma {:induction false} RunTotal(s: State, ls: seq<Label>, t: State)
    requires Run(s, ls, t)
    ensures Total(t.log, |t.log|) == Total(s.log, |s.log|) + TakenSum(s, ls, t)
    decreases |ls|
  {
    if ls != [] {
      StepTotal(s, ls[0]);
      RunTotal(Next(s, ls[0]), ls[1..], t);
    }
  }

  /** While the server has not released, its counter is what the Adds it took have
      added minus the number of Dones it took, and that is positive once it took any. */
  lemma CounterIsAddsMinusDones(ls: seq<Label>, t: State)
    requires Run(INITIAL, ls, t) && t.server.Selecting? && !t.done
    ensures t.total == TakenSum(INITIAL, ls, t)
    ensures t.log != [] ==> t.total > 0
  {
    assert Run(INITIAL, ls, t) && Reachable(t);
    ReachableInv(t);
    RunTotal(INITIAL, ls, t);
    if t.log != [] {
      assert !Releases(t.log, |t.log| - 1);
    }
  }

  /** A refused call stays refused, and a call under way is not refused later. */
  lemma StepStage(s: State, l: Label, c: nat)
    requires Enabled(s, l) && c < |s.callers| && ReceiverOk(s)
    ensures c < |Next(s, l).callers|
    ensures Next(s, l).callers[c].stage.Refused? <==> s.callers[c].stage.Refused?
  {
    match l {
      case Take(d) => assert Next(s, l).callers == Staged(s, d, Taken);
      case GiveReply => assert s.callers[s.server.c].stage.Taken?;
      case _ =>
    }
  }

  lemma {:induction false} RunStage(s: State, ls: seq<Label>, t: State, c: nat)
    requires Inv(s) && Run(s, ls, t) && c < |s.callers|
    ensures c < |t.callers|
    ensures t.callers[c].stage.Refused? <==> s.callers[c].stage.Refused?
    decreases |ls|
  {
    if ls != [] {
      StepStage(s, ls[0], c);
      StepKeepsInv(s, ls[0]);
      RunStage(Next(s, ls[0]), ls[1..], t, c);
    }
  }

  lemma {:induction false} WaitedIff(s: State, ls: seq<Label>, t: State)
    requires Run(s, ls, t)
    ensures t.waited <==> s.waited || CallWait in ls
    decreases |ls|
  {
    if ls != [] {
      WaitedIff(Next(s, ls[0]), ls[1..], t);
      assert CallWait in ls <==> ls[0] == CallWait || CallWait in ls[1..];
    }
  }

  /** A call is turned away, in every run, exactly if it is an Add that comes after a
      call of Wait. */
  lemma RefusedIff(before: seq<Label>, s: State, call: Call, after: seq<Label>, t: State)
    requires Run(INITIAL, before, s) && Run(Next(s, Start(call)), after, t)
    ensures |s.callers| < |t.callers|
    ensures t.callers[|s.callers|].stage.Refused? <==> call.AddCall? && CallWait in before
  {
    RunKeepsInv(INITIAL, before, s);
    WaitedIff(INITIAL, before, s);
    StepKeepsInv(s, Start(call));
    RunStage(Next(s, Start(call)), after, t, |s.callers|);
  }

  // ---------------------------------------------------------- who returns

  /** A step of the server or of a call under way. */
  predicate Own(l: Label) {
    !l.Start? && !l.CallWait? && !l.CtxEnds? && !l.CallClose?
  }

  ghost predicate Quiescent(s: State) {
    forall l :: Enabled(s, l) ==> !Own(l)
  }

  function ServerRank(v: Server): nat {
    match v
    case Replying(_, _) => 4
    case Selecting => 2
    case Failing => 1
    case Gone => 0
  }

  function Asked(callers: seq<Caller>): nat {
    if callers == [] then 0
    else Asked(callers[..|callers| - 1]) + if callers[|callers| - 1].stage.Asking? then 3 else 0
  }

  function Measure(s: State): nat {
    Asked(s.callers) + ServerRank(s.server)
  }

  lemma {:induction false} AskedUpdate(callers: seq<Caller>, c: nat, to: Caller)
    requires c < |callers| && !to.stage.Asking?
    ensures Asked(callers[c := to]) + (if callers[c].stage.Asking? then 3 else 0) == Asked(callers)
  {
    var last := |callers| - 1;
    if c < last {
      assert callers[c := to][..last] == callers[..last][c := to];
      AskedUpdate(callers[..last], c, to);
    } else {
      assert callers[c := to][..last] == callers[..last];
    }
  }

  lemma StagedDecreases(s: State, c: nat, t: State)
    requires c < |s.callers| && |t.callers| == |s.callers| && t.callers == s.callers[c := t.callers[c]]
    requires !t.callers[c].stage.Asking?
    requires ServerRank(t.server) < ServerRank(s.server) + if Asks(s, c) then 3 else 0
    ensures Measure(t) < Measure(s)
  {
    AskedUpdate(s.callers, c, t.callers[c]);
  }

  lemma OwnStepDecreases(s: State, l: Label)
    requires Enabled(s, l) && Own(l)
    ensures Measure(Next(s, l)) < Measure(s)
  {
    match l {
      case GiveReply => StagedDecreases(s, s.server.c, Next(s, l));
      case Take(c) => StagedDecreases(s, c, Next(s, l));
      case SeeCtx(c) => StagedDecreases(s, c, Next(s, l));
      case SeeStop(c) => StagedDecreases(s, c, Next(s, l));
      case SeeWait(c) => StagedDecreases(s, c, Next(s, l));
      case _ =>
    }
  }

  predicate OwnRun(ls: seq<Label>) {
    forall k :: 0 <= k < |ls| ==> Own(ls[k])
  }

  lemma {:induction false} OwnRunsEnd(s: State, ls: seq<Label>, t: State)
    requires Run(s, ls, t) && OwnRun(ls)
    ensures |ls| + Measure(t) <= Measure(s)
    decreases |ls|
  {
    if ls != [] {
      OwnStepDecreases(s, ls[0]);
      OwnRunsEnd(Next(s, ls[0]), ls[1..], t);
    }
  }

  lemma StillAskingMeans(s: State, c: nat)
    requires Inv(s) && Quiescent(s) && c < |s.callers| && (s.callers[c].stage.Asking? || s.callers[c].stage.Taken?)
    ensures s.callers[c].stage.Asking? && s.callers[c].call.AddCall?
    ensures s.server.Gone? && !s.ctxDone && !s.stopped
  {
    assert !Enabled(s, GiveReply) && !Enabled(s, CloseWait);
    assert !Enabled(s, Take(c)) && !Enabled(s, SeeWait(c));
    assert !Enabled(s, SeeCtx(c)) && !Enabled(s, SeeStop(c));
  }

  /** Every call returns, is refused or panics, unless some call has panicked on an
      error reply: the steps of server and calls are bounded by the measure, and
      where none is left a call that is still under way is an Add, the server has
      returned because of another call's error, and neither context nor Close
      has come to its help. */
  lemma CallsReturnUnlessOneFailed(s: State, ls: seq<Label>, t: State, c: nat)
    requires Reachable(s) && Run(s, ls, t) && OwnRun(ls)
    ensures |ls| <= Measure(s)
    ensures Quiescent(t) && c < |t.callers| && (t.callers[c].stage.Asking? || t.callers[c].stage.Taken?) ==>
              t.callers[c].call.AddCall? && !t.ctxDone && !t.stopped && exists d: nat :: d != c && Failed(t, d)
  {
    ReachableInv(s);
    RunKeepsInv(s, ls, t);
    OwnRunsEnd(s, ls, t);
    if Quiescent(t) && c < |t.callers| && (t.callers[c].stage.Asking? || t.callers[c].stage.Taken?) {
      StillAskingMeans(t, c);
    }
  }

  /** Where nothing can move, those in Wait have been let go exactly if an event released:
      always once the context has ended or Close was called. */
  lemma WaitersAreReleasedIff(s: State)
    requires Reachable(s) && Quiescent(s)
    ensures s.ctxDone || s.stopped ==> s.waitClosed
    ensures s.waitClosed <==> ReleasedBefore(s.log, |s.log|)
  {
    ReachableInv(s);
    assert !Enabled(s, GiveReply) && !Enabled(s, CloseWait);
    assert !Enabled(s, ServerCtx) && !Enabled(s, ServerStop);
  }

  /** A call in its select gets out at once, without the server, when the context ends or
      Close is called, and a Done, but not an Add, when chWait is closed. */
  lemma SignalsFreeCalls(s: State, c: nat)
    requires Asks(s, c)
    ensures Enabled(s, SeeCtx(c)) <==> s.ctxDone
    ensures Enabled(s, SeeStop(c)) <==> s.stopped
    ensures Enabled(s, SeeWait(c)) <==> s.waitClosed && s.callers[c].call.DoneCall?
  {
  }

  /** The server takes no request any more. */
  predicate Doomed(s: State) {
    s.server.Failing? || s.server.Gone? || (s.server.Replying? && !s.server.reply.Accepted?)
  }

  lemma DoomedStays(s: State, l: Label, c: nat)
    requires Enabled(s, l) && Doomed(s) && Asks(s, c)
    requires s.callers[c].call.AddCall? && !s.ctxDone && !s.stopped && (s.server.Replying? ==> s.server.c != c)
    ensures Doomed(Next(s, l)) && Asks(Next(s, l), c) && Next(s, l).callers[c].call == s.callers[c].call
  {
  }

  lemma {:induction false} LateAddWaits(s: State, ls: seq<Label>, t: State, c: nat)
    requires Inv(s) && Run(s, ls, t) && Doomed(s) && Asks(s, c) && s.callers[c].call.AddCall?
    requires !t.ctxDone && !t.stopped
    ensures Asks(t, c)
    decreases |ls|
  {
    if ls != [] {
      var next := Next(s, ls[0]);
      SignalsStay(s, ls, t);
      StepKeepsInv(s, ls[0]);
      DoomedStays(s, ls[0], c);
      LateAddWaits(next, ls[1..], t, c);
    }
  }

  lemma StepSignals(s: State, l: Label)
    requires Enabled(s, l)
    ensures (s.ctxDone ==> Next(s, l).ctxDone) && (s.stopped ==> Next(s, l).stopped)
    ensures |s.callers| <= |Next(s, l).callers|
    ensures forall c :: 0 <= c < |s.callers| ==> Next(s, l).callers[c].call == s.callers[c].call
  {
  }

  lemma {:induction false} SignalsStay(s: State, ls: seq<Label>, t: State)
    requires Run(s, ls, t)
    ensures (s.ctxDone ==> t.ctxDone) && (s.stopped ==> t.stopped)
    ensures |s.callers| <= |t.callers| && forall c :: 0 <= c < |s.callers| ==> t.callers[c].call == s.callers[c].call
    decreases |ls|
  {
    if ls != [] {
      StepSignals(s, ls[0]);
      SignalsStay(Next(s, ls[0]), ls[1..], t);
    }
  }

  /** A call that is in its select when the server takes no request any more is
      stuck for good exactly if it is an Add, until the context ends or Close is
      called; a Done always gets out, through chWait. */
  lemma LateCallIsStuckIff(s: State, ls: seq<Label>, t: State, c: nat)
    requires Reachable(s) && Doomed(s) && Asks(s, c) && Run(s, ls, t) && Quiescent(t)
    ensures Asks(t, c) <==> s.callers[c].call.AddCall? && !t.ctxDone && !t.stopped
  {
    ReachableInv(s);
    RunKeepsInv(s, ls, t);
    SignalsStay(s, ls, t);
    if Asks(t, c) {
      StillAskingMeans(t, c);
    } else if s.callers[c].call.AddCall? && !t.ctxDone && !t.stopped {
      LateAddWaits(s, ls, t, c);
    }
  }

  lemma ReachableStep(s: State, l: Label)
    requires Reachable(s) && Enabled(s, l)
    ensures Reachable(Next(s, l))
  {
    var ls :| Run(INITIAL, ls, s);
    RunSnoc(INITIAL, ls, s, l);
  }

  lemma {:induction false} RunSnoc(s: State, ls: seq<Label>, t: State, l: Label)
    requires Run(s, ls, t) && Enabled(t, l)
    ensures Run(s, ls + [l], Next(t, l))
    decreases |ls|
  {
    if ls == [] {
      assert Run(Next(t, l), [], Next(t, l));
      assert ([] + [l])[1..] == [];
    } else {
      assert (ls + [l])[1..] == ls[1..] + [l];
      RunSnoc(Next(s, ls[0]), ls[1..], t, l);
    }
  }

  /** One Done too many has brought the server down. */
  const ONE_DONE_TOO_MANY := State(Gone, -1, false, true, false, false, false,
                                   [Caller(DoneCall, Panicked(TooManyDone))], [Request(-1)])

  lemma DoneTooEarly()
    ensures Reachable(ONE_DONE_TOO_MANY)
  {
    assert Run(INITIAL, [], INITIAL);
    var s1 := Next(INITIAL, Start(DoneCall));
    ReachableStep(INITIAL, Start(DoneCall));
    assert s1.callers == [Caller(DoneCall, Asking)];
    var s2 := Next(s1, Take(0));
    ReachableStep(s1, Take(0));
    assert s2.callers == [Caller(DoneCall, Taken)] && s2.log == [Request(-1)];
    var s3 := Next(s2, GiveReply);
    ReachableStep(s2, GiveReply);
    assert s3.callers == [Caller(DoneCall, Panicked(TooManyDone))];
    ReachableStep(s3, CloseWait);
    assert Next(s3, CloseWait) == ONE_DONE_TOO_MANY;
  }

  /** Such a call exists: after one Done too many, the next Add is stuck. */
  lemma AddCanBeStuck(delta: int)
    ensures var s := Next(ONE_DONE_TOO_MANY, Start(AddCall(delta)));
            Reachable(s) && Quiescent(s) && Asks(s, 1) && s.callers[1].call == AddCall(delta)
  {
    var s := Next(ONE_DONE_TOO_MANY, Start(AddCall(delta)));
    DoneTooEarly();
    ReachableStep(ONE_DONE_TOO_MANY, Start(AddCall(delta)));
    assert s.callers[0] == Caller(DoneCall, Panicked(TooManyDone)) && s.callers[1] == Caller(AddCall(delta), Asking);
    assert |s.callers| == 2 && s.server == Gone && !s.ctxDone && !s.stopped;
  }
}
