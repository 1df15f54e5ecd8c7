/** A start leads to readiness, and a stop that has begun always has a next step until it is over. */
module MediationLifecycle {
  import opened Wrappers
  import opened Mediation
  import opened MediationSafety
  import opened MediationTheorems
  import opened MediationProgress

  // ---------------------------------------------------------------- starting

  /** A start whose listener and registration succeed makes a mediation without a recorded error ready,
      with both workers waiting; every failure leads into the stop. */
  lemma StartDecided(c: Config, s: Sys, listens: bool, registers: bool)
    requires Inv(c, s) && s.life.New?
    ensures
      var s1 := s.(life := Starting, boss := Register, out := s.out.(worker := Waiting), cb := s.cb.(worker := Waiting));
      && After(c, s, [ByStart(StartCall)] + [ByStart(ListenDone(listens))] + (if listens then [ByStart(RegisterDone(registers))] else [])
                     + (if listens && registers then [ByStart(AnnounceReady)] else []))
         == Some(if !listens then s.(life := Starting, boss := SetFlags)
                 else if !registers || s.fatal then s1.(boss := SetFlags)
                 else s1.(life := Running, boss := Idle, ready := true, everReady := true))
      && (!s.fatal ==> IsReady(s1.(life := Running, boss := Idle, ready := true, everReady := true)))
  {
    hide After, Inv, SubmitterStep, AcceptorStep, StopStep, FinishStep, DrainStep, DoWork, DoMint;
    NewFacts(c, s);
    var t1 := [ByStart(StartCall)];
    NoSteps(c, s);
    OneMore(c, s, [], ByStart(StartCall));
    assert [] + t1 == t1;
    OneMore(c, s, t1, ByStart(ListenDone(listens)));
    var t2 := t1 + [ByStart(ListenDone(listens))];
    assert t2 + [] == t2;
    if listens {
      OneMore(c, s, t2, ByStart(RegisterDone(registers)));
      var t3 := t2 + [ByStart(RegisterDone(registers))];
      assert t3 + [] == t3;
      if registers {
        OneMore(c, s, t3, ByStart(AnnounceReady));
      }
    }
  }

  lemma NewFacts(c: Config, s: Sys)
    requires Inv(c, s) && s.life.New?
    ensures !s.panicked && s.boss.Idle? && !s.stopping
  {
    hide Sum, CountersOk, StartOk, StopOk, LanesOk, LocksOk;
  }

  // ---------------------------------------------------------------- stopping

  function WorkStep(l: Lane): Work {
    if l.worker.Waiting? then (if l.queue == [] then SeeClosed else Receive)
    else if l.worker.Dequeued? then FreeSlot else Succeed
  }

  /** How much a worker still has to do. */
  function WorkRank(l: Lane): nat {
    3 * |l.queue| + match l.worker
      case NotStarted => 0 case Exited => 0 case Waiting => 1 case Failing(_) => 1 case Holding(_) => 2 case Dequeued(_) => 3
  }

  /** Whose step it is while a stop is under way: the holder of what the stop waits for, else the stop. */
  function StopNext(c: Config, s: Sys): Step {
    match s.boss
    case SetFlags => ByStop(DoSetFlags)
    case Cancel => ByStop(DoCancel)
    case GrabGate => if s.submitter.Some? then HolderStep(c, s, s.submitter.value) else ByStop(DoGrabGate)
    case CloseOutbound => ByStop(DoCloseOutbound)
    case ReturnGate => ByStop(DoReturnGate)
    case GrabMutex => if s.acceptor.Some? then CbStep(c, s, s.acceptor.value) else ByFinish(DoGrabMutex)
    case CloseCallback => ByFinish(DoCloseCallback)
    case ReturnMutex => ByFinish(DoReturnMutex)
    case AwaitWorkers =>
      if s.out.worker.Failing? then OutboundExit
      else if !WorkerStopped(s.out) then ByOutbound(WorkStep(s.out))
      else if s.cb.worker.Failing? then CallbackExit
      else if !WorkerStopped(s.cb) then ByCallback(WorkStep(s.cb))
      else ByFinish(WorkersDone)
    case DrainOutbound => ByDrain(if s.out.queue != [] then DrainOutboundOne else DrainOutboundEnd)
    case DrainCallback => ByDrain(if s.cb.queue != [] then DrainCallbackOne else DrainCallbackEnd)
    case _ => ByFinish(DoFinish)
  }

  /** What is left to do at the present stage of the stop. */
  function Todo(s: Sys): nat {
    match s.boss
    case GrabGate => Rank(s.submitter)
    case GrabMutex => CbRank(s.acceptor)
    case AwaitWorkers => WorkRank(s.out) + WorkRank(s.cb)
    case DrainOutbound => |s.out.queue|
    case DrainCallback => |s.cb.queue|
    case _ => 0
  }

  predicate Closing(s: Sys) {
    2 <= Phase(s) <= 13
  }

  /** The stop moves to its next stage, or the present one gets shorter. */
  predicate Closer(s: Sys, s': Sys) {
    Phase(s') > Phase(s) || (Phase(s') == Phase(s) && s'.boss == s.boss && Todo(s') < Todo(s))
  }

  predicate ClosesOn(c: Config, s: Sys) {
    var next := Next(c, s, StopNext(c, s));
    && next.Some? && Closer(s, next.value)
    && (if s.boss.Finish? then next.value.life == Stopped(s.boss.workersStopped) else Closing(next.value))
    && (next.value.boss.Finish? ==> next.value.boss.workersStopped)
  }

  lemma BossFacts(c: Config, s: Sys)
    requires Inv(c, s) && Closing(s)
    ensures !s.panicked && (s.boss.GrabGate? ==> s.cancelled && (s.submitter.None? ==> s.gate == 1))
    ensures s.boss.CloseOutbound? ==> !s.out.closed
    ensures s.boss.ReturnGate? ==> s.gate == 0
    ensures s.boss.GrabMutex? && s.acceptor.None? ==> s.mutex == 1
    ensures s.boss.CloseCallback? ==> !s.cb.closed
    ensures s.boss.ReturnMutex? ==> s.mutex == 0
    ensures s.boss.AwaitWorkers? ==> s.out.closed && s.cb.closed
  {
    hide Sum, CountersOk, StartOk, StopOk, LanesOk;
  }

  lemma SlotFacts(c: Config, s: Sys)
    requires Inv(c, s)
    ensures (s.out.queue != [] || s.out.worker.Dequeued?) ==> s.out.slots > 0
    ensures (s.cb.queue != [] || s.cb.worker.Dequeued?) ==> s.cb.slots > 0
  {
    hide Sum, CountersOk, StartOk, StopOk, LocksOk, PhaseOk;
  }

  /** Steps of the stop itself. */
  lemma BossClosesOn(c: Config, s: Sys)
    requires Inv(c, s) && Closing(s)
    requires s.boss.GrabGate? ==> s.submitter.None?
    requires s.boss.GrabMutex? ==> s.acceptor.None?
    requires !s.boss.AwaitWorkers? && !s.boss.DrainOutbound? && !s.boss.DrainCallback? && !s.boss.Finish?
    ensures ClosesOn(c, s)
  {
    hide Inv, SubmitterStep, AcceptorStep, StartStep, DrainStep, DoWork, DoMint, Fatal, WorkRank;
    BossFacts(c, s);
  }

  /** A producer's step leaves the lifecycle alone. */
  lemma ProducerTouches(c: Config, s: Sys, step: Step)
    requires BySelf(step) || step.ByAcceptor? || step.CbLeave?
    requires Next(c, s, step).Some?
    ensures Next(c, s, step).value.boss == s.boss && Next(c, s, step).value.life == s.life
  {
    hide SubmitterMove, AcceptorMove, Apply, Enabled, NextCounter;
  }

  lemma HolderClosesOn(c: Config, s: Sys)
    requires Inv(c, s) && s.boss.GrabGate? && s.submitter.Some?
    ensures ClosesOn(c, s)
  {
    hide Inv, Next, Rank, CbRank, WorkRank;
    BossFacts(c, s);
    HolderSteps(c, s);
    ProducerTouches(c, s, HolderStep(c, s, s.submitter.value));
  }

  lemma AcceptorClosesOn(c: Config, s: Sys)
    requires Inv(c, s) && s.boss.GrabMutex? && s.acceptor.Some?
    ensures ClosesOn(c, s)
  {
    hide Inv, Next, Rank, CbRank, CbFate, WorkRank;
    BossFacts(c, s);
    CbAlwaysStepsOn(c, s);
    ProducerTouches(c, s, CbStep(c, s, s.acceptor.value));
  }

  lemma WorkCloses(l: Lane)
    requires !WorkerStopped(l) && !l.worker.Failing? && l.closed && (l.queue != [] || l.worker.Dequeued? ==> l.slots > 0)
    ensures DoWork(l, WorkStep(l)).Some? && WorkRank(DoWork(l, WorkStep(l)).value) < WorkRank(l)
  {
  }

  lemma OutboundClosesOn(c: Config, s: Sys)
    requires Inv(c, s) && s.boss.AwaitWorkers? && !WorkerStopped(s.out)
    ensures ClosesOn(c, s)
  {
    hide Inv, SubmitterStep, AcceptorStep, StartStep, StopStep, FinishStep, DrainStep, DoMint, Rank, CbRank, DoWork, WorkStep;
    BossFacts(c, s);
    SlotFacts(c, s);
    if !s.out.worker.Failing? {
      hide WorkRank;
      WorkCloses(s.out);
    }
  }

  lemma CallbackClosesOn(c: Config, s: Sys)
    requires Inv(c, s) && s.boss.AwaitWorkers? && WorkerStopped(s.out) && !WorkerStopped(s.cb)
    ensures ClosesOn(c, s)
  {
    hide Inv, SubmitterStep, AcceptorStep, StartStep, StopStep, FinishStep, DrainStep, DoMint, Rank, CbRank, DoWork, WorkStep;
    BossFacts(c, s);
    SlotFacts(c, s);
    if !s.cb.worker.Failing? {
      hide WorkRank;
      WorkCloses(s.cb);
    }
  }

  lemma WaitEnds(c: Config, s: Sys)
    requires Inv(c, s) && s.boss.AwaitWorkers? && WorkerStopped(s.out) && WorkerStopped(s.cb)
    ensures ClosesOn(c, s)
  {
    hide Inv, SubmitterStep, AcceptorStep, StartStep, StopStep, DrainStep, DoMint, Rank, CbRank, DoWork, WorkStep, WorkRank;
    BossFacts(c, s);
  }

  lemma DrainClosesOn(c: Config, s: Sys)
    requires Inv(c, s) && (s.boss.DrainOutbound? || s.boss.DrainCallback? || s.boss.Finish?)
    ensures ClosesOn(c, s)
  {
    hide Inv, SubmitterStep, AcceptorStep, StartStep, StopStep, DoWork, DoMint, Rank, CbRank, Fatal;
    BossFacts(c, s);
    SlotFacts(c, s);
  }

  lemma AlwaysCloses(c: Config, s: Sys)
    requires Inv(c, s) && Closing(s)
    ensures ClosesOn(c, s)
  {
    hide Inv, ClosesOn;
    match s.boss
    case GrabGate =>
      if s.submitter.Some? {
        HolderClosesOn(c, s);
      } else {
        BossClosesOn(c, s);
      }
    case GrabMutex =>
      if s.acceptor.Some? {
        AcceptorClosesOn(c, s);
      } else {
        BossClosesOn(c, s);
      }
    case AwaitWorkers =>
      if !WorkerStopped(s.out) {
        OutboundClosesOn(c, s);
      } else if !WorkerStopped(s.cb) {
        CallbackClosesOn(c, s);
      } else {
        WaitEnds(c, s);
      }
    case DrainOutbound => DrainClosesOn(c, s);
    case DrainCallback => DrainClosesOn(c, s);
    case Finish(_) => DrainClosesOn(c, s);
    case _ => BossClosesOn(c, s);
  }

  /** The stop carried through by those whose step it is. */
  function Closed(c: Config, s: Sys): Sys
    decreases 20 - Min(20, Phase(s)), Todo(s)
  {
    if !Closing(s) then s
    else
      var next := Next(c, s, StopNext(c, s));
      if next.None? || !Closer(s, next.value) || Phase(s) > 20 then s else Closed(c, next.value)
  }

  /** From every reachable state in which a stop has begun, the steps it waits for and its own lead to
      its end: whoever holds the gate or the mutex gives it back, the workers finish, the queues are
      drained. Unless it had already timed out on the workers, the stop is a clean one. */
  lemma {:induction false} StopFinishes(c: Config, s: Sys)
    requires Inv(c, s) && Closing(s)
    ensures Inv(c, Closed(c, s)) && Closed(c, s).life.Stopped?
    ensures s.boss != Finish(false) ==> Closed(c, s).life == Stopped(true)
    decreases 20 - Min(20, Phase(s)), Todo(s)
  {
    hide Inv, Next, StopNext, Todo, ClosesOn;
    AlwaysCloses(c, s);
    CloseFacts(c, s);
    NextKeeps(c, s, StopNext(c, s));
    var s' := Next(c, s, StopNext(c, s)).value;
    if Closing(s') {
      StopFinishes(c, s');
    }
  }

  lemma CloseFacts(c: Config, s: Sys)
    requires ClosesOn(c, s) && Closing(s)
    ensures
      var next := Next(c, s, StopNext(c, s));
      && next.Some? && Closer(s, next.value)
      && (if s.boss.Finish? then next.value.life == Stopped(s.boss.workersStopped) else Closing(next.value))
      && (next.value.boss.Finish? ==> next.value.boss.workersStopped)
  {
    hide Next, StopNext;
  }

  /** Whenever no one holds the lifecycle lock and the mediation is not stopped yet, a stop can begin. */
  lemma StopBegins(c: Config, s: Sys)
    requires Inv(c, s) && s.boss.Idle? && !s.life.Stopped?
    ensures
      var s' := s.(life := Stopping, boss := SetFlags);
      Next(c, s, ByStop(StopCall)) == Some(s') && Inv(c, s') && Closing(s')
  {
    hide Inv, SubmitterStep, AcceptorStep, StartStep, FinishStep, DrainStep, DoWork, DoMint;
    LaneFacts(c, s);
    NextKeeps(c, s, ByStop(StopCall));
  }

  /** A stop that awaits the workers can stop waiting at any moment; that is recorded as an error, and the
      stop is not a clean one. */
  lemma StopTimesOut(c: Config, s: Sys)
    requires Inv(c, s) && s.boss.AwaitWorkers?
    ensures After(c, s, [ByFinish(WorkersTimeout)] + [ByFinish(DoFinish)])
         == Some(Fatal(s).(life := Stopped(false), boss := Idle))
  {
    hide Inv, After, SubmitterStep, AcceptorStep, StartStep, StopStep, DrainStep, DoWork, DoMint, Fatal;
    LaneFacts(c, s);
    NoSteps(c, s);
    OneMore(c, s, [], ByFinish(WorkersTimeout));
    assert [] + [ByFinish(WorkersTimeout)] == [ByFinish(WorkersTimeout)];
    FatalUnpanicked(s);
    OneMore(c, s, [ByFinish(WorkersTimeout)], ByFinish(DoFinish));
  }

  lemma FatalUnpanicked(s: Sys)
    ensures Fatal(s).panicked == s.panicked
  {
  }
}
