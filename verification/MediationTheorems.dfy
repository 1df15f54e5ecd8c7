/** The promises of the mediation layer, for every interleaving. */
module MediationTheorems {
  import opened Wrappers
  import opened Mediation
  import opened MediationSafety

  /** In every reachable state the byte counters are the bytes queued, in the worker's hands and
      reserved by a producer in transit, and stay within their limits; nothing was ever sent on a
      closed queue and no queue was closed twice; and at most one fatal error was signalled. */
  lemma AccountsBalance(c: Config, steps: seq<Step>)
    requires ValidConfig(c) && Run(c, steps).Some?
    ensures
      var s := Run(c, steps).value;
      && s.out.bytes == Sum(s.out.queue) + Sum(Hand(s.out.worker)) + Bytes(s.submitter) <= c.outLimit
      && s.cb.bytes == Sum(s.cb.queue) + Sum(Hand(s.cb.worker)) + CbBytes(s.acceptor) <= c.cbLimit
      && s.out.slots == |s.out.queue| + (if s.out.worker.Dequeued? then 1 else 0) + Token(s.submitter) <= c.outCap
      && s.cb.slots == |s.cb.queue| + (if s.cb.worker.Dequeued? then 1 else 0) + CbToken(s.acceptor) <= c.cbCap
      && !s.panicked && s.signals <= 1 && (s.fatal ==> !IsReady(s) && s.signals == 1)
  {
    hide Run, Sum, CountersOk, StartOk, StopOk, LocksOk, PhaseOk;
    RunKeeps(c, steps);
  }

  /** No enqueue, no return of a slot or of the gate, and no drain ever finds its channel in a
      state that would block it. */
  lemma NothingBlocks(c: Config, steps: seq<Step>)
    requires ValidConfig(c) && Run(c, steps).Some?
    ensures
      var s := Run(c, steps).value;
      && (s.submitter.Some? && s.submitter.value.Minted? ==> |s.out.queue| < c.outCap && !s.out.closed)
      && (s.acceptor.Some? && s.acceptor.value.Counted? ==> |s.cb.queue| < c.cbCap && !s.cb.closed)
      && (Token(s.submitter) == 1 || s.out.worker.Dequeued? || s.out.queue != [] ==> s.out.slots > 0)
      && (CbToken(s.acceptor) == 1 || s.cb.worker.Dequeued? || s.cb.queue != [] ==> s.cb.slots > 0)
      && (s.submitter.Some? || s.boss.ReturnGate? ==> s.gate == 0)
      && (s.acceptor.Some? || s.boss.ReturnMutex? ==> s.mutex == 0)
  {
    hide Run, Sum, CountersOk, StartOk, StopOk;
    RunKeeps(c, steps);
    NoSendOnClosed(c, Run(c, steps).value);
  }

  // ---------------------------------------------------------------- the gate comes back

  /** The step a gate holder takes once the context is cancelled; none of them is a timeout. */
  function HolderStep(c: Config, s: Sys, pc: Submitter): Step {
    match pc
    case HasGate(_, _, blocking) =>
      BySubmitter(if blocking then SlotCancelled else if s.out.slots < c.outCap then TakeSlot else SlotFull)
    case Admitted(_, _) => BySubmitter(CheckReady)
    case Cleared(_, _) => BySubmitter(CheckBytes)
    case Fits(_, _) => BySubmitter(AddBytes)
    case Reserved(_, _) => Mint
    case Minted(_) => BySubmitter(Enqueue)
    case Refunding(_) => BySubmitter(Refund)
    case Dropping(_) => BySubmitter(DropSlot)
    case Reporting => Report
    case Leaving => Leave
  }

  function Rank(p: Option<Submitter>): nat {
    if p.None? then 0
    else match p.value
      case HasGate(_, _, _) => 9 case Admitted(_, _) => 8 case Cleared(_, _) => 7 case Fits(_, _) => 6
      case Reserved(_, _) => 5 case Minted(_) => 4 case Refunding(_) => 4 case Dropping(_) => 3
      case Reporting => 2 case Leaving => 1
  }

  /** Once shutdown has cancelled the context, a gate holder can always step, and comes closer to
      giving the gate back. */
  lemma HolderSteps(c: Config, s: Sys)
    requires Inv(c, s) && s.cancelled && s.submitter.Some?
    ensures
      var next := Next(c, s, HolderStep(c, s, s.submitter.value));
      next.Some? && Rank(next.value.submitter) < Rank(s.submitter) && next.value.cancelled
  {
    hide Inv, SubmitterStep, AcceptorStep, DoWork, StartStep, StopStep, FinishStep, DrainStep;
    var pc := s.submitter.value;
    HolderFacts(c, s);
    if HolderStep(c, s, pc).BySubmitter? {
      HolderMoves(c, s, pc, HolderStep(c, s, pc).submitOp);
    }
  }

  lemma HolderFacts(c: Config, s: Sys)
    requires Inv(c, s) && s.submitter.Some?
    ensures !s.panicked && s.gate == 0 && (Token(s.submitter) == 1 ==> s.out.slots > 0)
    ensures s.submitter.value.Minted? ==> !s.out.closed && |s.out.queue| < c.outCap
  {
    hide Sum, CountersOk, StartOk, StopOk, PhaseOk;
    NoSendOnClosed(c, s);
  }

  lemma HolderMoves(c: Config, s: Sys, pc: Submitter, op: SubmitOp)
    requires s.submitter == Some(pc) && s.cancelled && HolderStep(c, s, pc) == BySubmitter(op)
    requires Token(s.submitter) == 1 ==> s.out.slots > 0
    requires pc.Minted? ==> !s.out.closed && |s.out.queue| < c.outCap
    ensures
      var next := SubmitterStep(c, s, pc, op);
      next.Some? && next.value.submitter.Some? && Rank(next.value.submitter) < Rank(Some(pc)) && next.value.cancelled
  {
    hide Apply, Push;
  }

  /** The holder running on its own. */
  function Settle(c: Config, s: Sys): Sys
    decreases Rank(s.submitter)
  {
    if s.submitter.None? then s
    else match Next(c, s, HolderStep(c, s, s.submitter.value))
      case None => s
      case Some(s') => if Rank(s'.submitter) < Rank(s.submitter) then Settle(c, s') else s
  }

  lemma {:induction false} GateComesBack(c: Config, s: Sys)
    requires Inv(c, s) && s.cancelled && (s.submitter.Some? || s.boss.GrabGate?)
    ensures Settle(c, s).submitter.None? && Inv(c, Settle(c, s))
    decreases Rank(s.submitter)
  {
    hide Inv, Next, HolderStep;
    if s.submitter.Some? {
      HolderSteps(c, s);
      NextKeeps(c, s, HolderStep(c, s, s.submitter.value));
      var s' := Next(c, s, HolderStep(c, s, s.submitter.value)).value;
      if s'.submitter.Some? {
        GateComesBack(c, s');
      }
    }
  }

  // ---------------------------------------------------------------- what a stop leaves behind

  /** When Stop has returned, every admitted message was posted and every accepted callback was
      dispatched, or a fatal error is recorded. If the workers stopped, no bytes are left and the
      only slot token is that of a submitter still on its way out. */
  lemma StopDelivers(c: Config, steps: seq<Step>)
    requires ValidConfig(c) && Run(c, steps).Some? && Run(c, steps).value.life.Stopped?
    ensures
      var s := Run(c, steps).value;
      && s.out.closed && s.cb.closed
      && (s.fatal || (s.out.done == s.out.admitted && s.cb.done == s.cb.admitted))
      && (s.life.workersStopped ==>
            && s.out.bytes == 0 && s.cb.bytes == 0 && s.cb.slots == 0 && s.out.slots == Token(s.submitter)
            && s.out.queue == [] && s.cb.queue == [])
      && (!s.life.workersStopped ==> s.fatal)
  {
    hide Run, CountersOk;
    RunKeeps(c, steps);
    StoppedLane(c, Run(c, steps).value);
  }

  lemma StoppedLane(c: Config, s: Sys)
    requires Inv(c, s) && s.life.Stopped?
    ensures Bytes(s.submitter) == 0 && CbBytes(s.acceptor) == 0 && CbToken(s.acceptor) == 0 && s.out.closed && s.cb.closed
    ensures s.life.workersStopped && !s.fatal ==> s.out.done == s.out.admitted && s.cb.done == s.cb.admitted
    ensures s.life.workersStopped ==> s.out.bytes == 0 && s.cb.bytes == 0
    ensures s.life.workersStopped ==> s.cb.slots == 0 && s.out.slots == Token(s.submitter)
  {
    hide CountersOk;
    assert s.boss.Idle?;
  }

  // ---------------------------------------------------------------- the IDs of a destination

  /** The counters of the items for one destination, in order. */
  function CountersFor(items: seq<Item>, peer: nat): seq<nat> {
    if items == [] then []
    else
      var rest, last := CountersFor(items[..|items| - 1], peer), items[|items| - 1];
      if last.peer == peer then rest + [last.counter] else rest
  }

  function UpTo(n: nat): seq<nat> {
    if n == 0 then [] else UpTo(n - 1) + [n - 1]
  }

  lemma {:induction false} NumberedIsDense(items: seq<Item>, peer: nat)
    requires Numbered(items)
    ensures CountersFor(items, peer) == UpTo(CountFor(items, peer))
  {
    hide Numbered;
    if items != [] {
      var front := items[..|items| - 1];
      PrefixNumbered(items, |items| - 1);
      LastNumber(items);
      NumberedIsDense(front, peer);
    }
  }

  lemma LastNumber(items: seq<Item>)
    requires Numbered(items) && items != []
    ensures items[|items| - 1].counter == CountFor(items[..|items| - 1], items[|items| - 1].peer)
  {
    hide CountFor;
  }

  lemma PrefixNumbered(items: seq<Item>, n: nat)
    requires Numbered(items) && n <= |items|
    ensures Numbered(items[..n])
  {
    hide CountFor;
    var front := items[..n];
    forall i | 0 <= i < n
      ensures front[i] == items[i] && front[..i] == items[..i]
    {
    }
  }

  /** For each destination the counters of the admitted messages are 0, 1, 2, ... without gap or
      repeat, whatever was rejected in between, and what was posted is a prefix of what was
      admitted, so the posted counters are an initial stretch of the same. */
  lemma CountersAreDense(c: Config, steps: seq<Step>, peer: nat)
    requires ValidConfig(c) && Run(c, steps).Some?
    ensures
      var s := Run(c, steps).value;
      && CountersFor(s.out.admitted, peer) == UpTo(CountFor(s.out.admitted, peer))
      && s.out.done <= s.out.admitted
      && CountersFor(s.out.done, peer) == UpTo(CountFor(s.out.done, peer))
      && s.cb.done <= s.cb.admitted
  {
    hide Run, CountFor, Numbered, StartOk, StopOk, FlagsOk;
    RunKeeps(c, steps);
    var s := Run(c, steps).value;
    var minted := AllMinted(s.out.admitted, s.submitter);
    assert minted[..|s.out.admitted|] == s.out.admitted;
    PrefixNumbered(minted, |s.out.admitted|);
    NumberedIsDense(s.out.admitted, peer);
    assert s.out.admitted[..|s.out.done|] == s.out.done;
    PrefixNumbered(s.out.admitted, |s.out.done|);
    NumberedIsDense(s.out.done, peer);
  }

  // ---------------------------------------------------------------- a token that outlives the stop

  const TINY := Config(1, 1, 1, 1, 1)

  lemma Extend(c: Config, steps: seq<Step>, step: Step)
    requires Run(c, steps).Some?
    ensures Run(c, steps + [step]) == Next(c, Run(c, steps).value, step)
  {
    assert (steps + [step])[..|steps|] == steps;
  }

  lemma Begin(c: Config) returns (t: seq<Step>)
    ensures Run(c, t) == Some(INIT)
  {
    t := [];
  }

  function Quiet(closed: bool, slots: nat): Lane {
    Lane([], closed, slots, 0, NotStarted, [], [], [])
  }

  /** A stop in progress, with at most one submitter on its way. */
  function Amid(out: Lane, cb: Lane, gate: nat, p: Option<Submitter>, mutex: nat, boss: Boss): Sys {
    Sys(out, cb, gate, p, mutex, None, 0, Counters(map[]), false, false, true, false, 0, true, Stopping, boss, false)
  }

  lemma Cancelled() returns (t: seq<Step>)
    ensures Run(TINY, t) == Some(Amid(Quiet(false, 0), Quiet(false, 0), 1, None, 1, GrabGate))
  {
    hide Run, StartStep, DoWork, AcceptorStep, DoMint, DrainStep, SubmitterStep;
    t := Begin(TINY);
    Extend(TINY, t, ByStop(StopCall));
    t := t + [ByStop(StopCall)];
    Extend(TINY, t, ByStop(DoSetFlags));
    t := t + [ByStop(DoSetFlags)];
    Extend(TINY, t, ByStop(DoCancel));
    t := t + [ByStop(DoCancel)];
  }

  lemma Closed() returns (t: seq<Step>)
    ensures Run(TINY, t) == Some(Amid(Quiet(true, 0), Quiet(false, 0), 1, None, 1, GrabMutex))
  {
    hide Run, StartStep, DoWork, AcceptorStep, DoMint, DrainStep, SubmitterStep;
    t := Cancelled();
    Extend(TINY, t, ByStop(DoGrabGate));
    t := t + [ByStop(DoGrabGate)];
    Extend(TINY, t, ByStop(DoCloseOutbound));
    t := t + [ByStop(DoCloseOutbound)];
    Extend(TINY, t, ByStop(DoReturnGate));
    t := t + [ByStop(DoReturnGate)];
  }

  lemma Late() returns (t: seq<Step>)
    ensures Run(TINY, t) == Some(Amid(Quiet(true, 1), Quiet(false, 0), 0, Some(Admitted(0, 1)), 1, GrabMutex))
  {
    hide Run, StartStep, StopStep, FinishStep, DoWork, AcceptorStep, DoMint, DrainStep;
    t := Closed();
    Extend(TINY, t, TakeGate(0, 1, false));
    t := t + [TakeGate(0, 1, false)];
    Extend(TINY, t, BySubmitter(TakeSlot));
    t := t + [BySubmitter(TakeSlot)];
  }

  lemma BothClosed() returns (t: seq<Step>)
    ensures Run(TINY, t) == Some(Amid(Quiet(true, 1), Quiet(true, 0), 0, Some(Admitted(0, 1)), 1, AwaitWorkers))
  {
    hide Run, StartStep, DoWork, AcceptorStep, DoMint, DrainStep, SubmitterStep;
    t := Late();
    Extend(TINY, t, ByFinish(DoGrabMutex));
    t := t + [ByFinish(DoGrabMutex)];
    Extend(TINY, t, ByFinish(DoCloseCallback));
    t := t + [ByFinish(DoCloseCallback)];
    Extend(TINY, t, ByFinish(DoReturnMutex));
    t := t + [ByFinish(DoReturnMutex)];
  }

  lemma Drained() returns (t: seq<Step>)
    ensures Run(TINY, t) == Some(Amid(Quiet(true, 1), Quiet(true, 0), 0, Some(Admitted(0, 1)), 1, Finish(true)))
  {
    hide Run, StartStep, DoWork, AcceptorStep, DoMint, SubmitterStep;
    t := BothClosed();
    Extend(TINY, t, ByFinish(WorkersDone));
    t := t + [ByFinish(WorkersDone)];
    Extend(TINY, t, ByDrain(DrainOutboundEnd));
    t := t + [ByDrain(DrainOutboundEnd)];
    Extend(TINY, t, ByDrain(DrainCallbackEnd));
    t := t + [ByDrain(DrainCallbackEnd)];
  }

  /** A submitter that takes the gate after the queue closed can still hold a slot when Stop
      returns, so the slot count alone need not be zero. */
  lemma LateSubmitterHoldsToken()
    ensures exists t :: Run(TINY, t).Some? && Run(TINY, t).value.life == Stopped(true) && Run(TINY, t).value.out.slots == 1
  {
    hide Run, StartStep, DoWork, AcceptorStep, DoMint, DrainStep, SubmitterStep;
    var t := Drained();
    Extend(TINY, t, ByFinish(DoFinish));
    t := t + [ByFinish(DoFinish)];
  }
}
