/** What the mediation layer gets done: which submissions and callbacks are admitted, what a worker
    delivers, and that a start leads to readiness and a stop to its end. */
module MediationProgress {
  import opened Wrappers
  import opened Mediation
  import opened MediationSafety
  import opened MediationTheorems

  // ---------------------------------------------------------------- a submission

  /** The step a submitter takes when it runs on its own: it waits for a slot only as long as there is
      none to be had. */
  function OwnStep(c: Config, s: Sys, pc: Submitter): Step {
    if pc.HasGate? then BySubmitter(if s.out.slots < c.outCap then TakeSlot else if pc.blocking then SlotTimeout else SlotFull)
    else HolderStep(c, s, pc)
  }

  /** The submitter running on its own until it has left. */
  function Alone(c: Config, s: Sys): Sys
    decreases Rank(s.submitter)
  {
    if s.submitter.None? then s
    else match Next(c, s, OwnStep(c, s, s.submitter.value))
      case None => s
      case Some(s') => if Rank(s'.submitter) < Rank(s.submitter) then Alone(c, s') else s
  }

  predicate BySelf(step: Step) {
    step.BySubmitter? || step.Mint? || step.Report? || step.Leave?
  }

  /** Past the wait for a slot a submitter has no choice; while it waits, all it can do instead is to
      give up, without having touched the lane: at once if it does not block and no slot is free, otherwise
      after its timeout or once the context is cancelled. */
  lemma NoOtherStep(c: Config, s: Sys, step: Step)
    requires s.submitter.Some? && BySelf(step) && Next(c, s, step).Some?
    ensures !s.submitter.value.HasGate? ==> step == OwnStep(c, s, s.submitter.value)
    ensures s.submitter.value.HasGate? && step != BySubmitter(TakeSlot) ==>
              && Next(c, s, step).value == s.(submitter := Some(Leaving))
              && (if s.submitter.value.blocking
                  then step == BySubmitter(SlotTimeout) || (step == BySubmitter(SlotCancelled) && s.cancelled)
                  else step == BySubmitter(SlotFull) && s.out.slots >= c.outCap)
  {
    hide AcceptorStep, DoWork, StartStep, StopStep, FinishStep, DrainStep, DoMint, Fatal;
  }

  /** A submitter that has left. */
  function Left(s: Sys): Sys {
    s.(submitter := None, gate := 1)
  }

  /** The lane with one more item, its slot and its bytes. */
  function Grown(l: Lane, item: Item): Lane {
    l.(slots := l.slots + 1, bytes := l.bytes + item.bytes, queue := l.queue + [item], admitted := l.admitted + [item])
  }

  function SlotBack(l: Lane): Lane {
    Apply(l, SlotDown)
  }

  /** What becomes of a submission that runs on its own: it is admitted with the next number of its
      destination exactly if a slot is free, the mediation is ready, its bytes fit and a number is to be
      had; otherwise nothing is left of it. Only a missing number is fatal. */
  function Submitted(c: Config, s: Sys, dest: nat, size: nat): Sys {
    if s.out.slots >= c.outCap || !IsReady(s) || s.out.bytes + size > c.outLimit then Left(s)
    else Ended(c, s, dest, size, s.out)
  }

  /** The end of a submission that has everything but its number; `l` is the lane without it. */
  function Ended(c: Config, s: Sys, dest: nat, size: nat, l: Lane): Sys {
    var n := NextCounter(c, s.counters.next, dest);
    if n.None? then Left(Fatal(s).(out := l))
    else Left(s.(counters := Counters(s.counters.next[dest := n.value + 1]), out := Grown(l, Item(dest, n.value, size))))
  }

  /** The same from every place on the way. */
  function Fate(c: Config, s: Sys, pc: Submitter): Sys {
    match pc
    case HasGate(dest, size, _) => Submitted(c, s, dest, size)
    case Admitted(dest, size) =>
      if !IsReady(s) || s.out.bytes + size > c.outLimit then Left(s.(out := SlotBack(s.out)))
      else Ended(c, s, dest, size, SlotBack(s.out))
    case Cleared(dest, size) =>
      if s.out.bytes + size > c.outLimit then Left(s.(out := SlotBack(s.out))) else Ended(c, s, dest, size, SlotBack(s.out))
    case Fits(dest, size) => Ended(c, s, dest, size, SlotBack(s.out))
    case Reserved(dest, size) => Ended(c, s, dest, size, SlotBack(s.out.(bytes := s.out.bytes - size)))
    case Minted(item) => Left(s.(out := Push(s.out, item)))
    case Refunding(size) => Left(Fatal(s).(out := SlotBack(s.out.(bytes := s.out.bytes - size))))
    case Dropping(fatally) => Left((if fatally then Fatal(s) else s).(out := SlotBack(s.out)))
    case Reporting => Left(Fatal(s))
    case Leaving => Left(s)
  }

  /** The next step is possible, brings the submitter closer to its end, and keeps what that end is. */
  ghost predicate StepsOn(c: Config, s: Sys, pc: Submitter) {
    var next := Next(c, s, OwnStep(c, s, pc));
    && next.Some? && Rank(next.value.submitter) < Rank(Some(pc))
    && Fate(c, s, pc) == if next.value.submitter.None? then next.value else Fate(c, next.value, next.value.submitter.value)
  }

  /** The latch reads neither the submitter nor the lane nor the counters. */
  lemma FatalElsewhere(s: Sys, p: Option<Submitter>, l: Lane)
    ensures Fatal(s.(submitter := p, out := l)) == Fatal(s).(submitter := p, out := l)
    ensures IsReady(s.(submitter := p, out := l)) == IsReady(s)
  {
  }

  lemma EndedElsewhere(c: Config, s: Sys, p: Option<Submitter>, l: Lane, dest: nat, size: nat, l': Lane)
    ensures Ended(c, s.(submitter := p, out := l), dest, size, l') == Ended(c, s, dest, size, l')
  {
    hide NextCounter, Fatal, Grown;
    FatalElsewhere(s, p, l);
  }

  /** One step on the lane. */
  lemma LaneStep(c: Config, s: Sys, pc: Submitter, op: SubmitOp, pc': Submitter, e: Effect)
    requires !s.panicked && s.submitter == Some(pc) && SubmitterMove(c, s, pc, op) == Some((pc', e))
    requires Enabled(s.out, c.outCap, e) && (e.Send? ==> !s.out.closed)
    ensures Next(c, s, BySubmitter(op)) == Some(s.(submitter := Some(pc'), out := Apply(s.out, e)))
  {
    hide SubmitterMove, Enabled, Apply;
  }

  lemma AtFullGate(c: Config, s: Sys, dest: nat, size: nat, blocking: bool)
    requires Inv(c, s) && s.submitter == Some(HasGate(dest, size, blocking)) && s.out.slots >= c.outCap
    ensures StepsOn(c, s, HasGate(dest, size, blocking))
  {
    hide Inv, Next, Fatal, IsReady, Ended, SlotBack, Push, HolderStep;
    HolderFacts(c, s);
    LaneStep(c, s, HasGate(dest, size, blocking), if blocking then SlotTimeout else SlotFull, Leaving, Nothing);
  }

  lemma AtFreeGate(c: Config, s: Sys, dest: nat, size: nat, blocking: bool)
    requires Inv(c, s) && s.submitter == Some(HasGate(dest, size, blocking)) && s.out.slots < c.outCap
    ensures StepsOn(c, s, HasGate(dest, size, blocking))
  {
    hide Inv, Next, Fatal, IsReady, Ended, Push, HolderStep;
    HolderFacts(c, s);
    var p, l := Some(Admitted(dest, size)), s.out.(slots := s.out.slots + 1);
    LaneStep(c, s, HasGate(dest, size, blocking), TakeSlot, p.value, SlotUp);
    FatalElsewhere(s, p, l);
    EndedElsewhere(c, s, p, l, dest, size, s.out);
    assert SlotBack(l) == s.out;
  }

  lemma AtAdmitted(c: Config, s: Sys, dest: nat, size: nat)
    requires Inv(c, s) && s.submitter == Some(Admitted(dest, size))
    ensures StepsOn(c, s, Admitted(dest, size))
  {
    hide Inv, Next, Fatal, IsReady, Ended, Push, SlotBack;
    HolderFacts(c, s);
    var pc' := if IsReady(s) then Cleared(dest, size) else Dropping(false);
    LaneStep(c, s, Admitted(dest, size), CheckReady, pc', Nothing);
    EndedElsewhere(c, s, Some(pc'), s.out, dest, size, SlotBack(s.out));
  }

  lemma AtCleared(c: Config, s: Sys, dest: nat, size: nat)
    requires Inv(c, s) && s.submitter == Some(Cleared(dest, size))
    ensures StepsOn(c, s, Cleared(dest, size))
  {
    hide Inv, Next, Fatal, IsReady, Ended, Push, SlotBack;
    HolderFacts(c, s);
    var pc' := if s.out.bytes + size > c.outLimit then Dropping(false) else Fits(dest, size);
    LaneStep(c, s, Cleared(dest, size), CheckBytes, pc', Nothing);
    EndedElsewhere(c, s, Some(pc'), s.out, dest, size, SlotBack(s.out));
  }

  lemma AtFits(c: Config, s: Sys, dest: nat, size: nat)
    requires Inv(c, s) && s.submitter == Some(Fits(dest, size))
    ensures StepsOn(c, s, Fits(dest, size))
  {
    hide Inv, Next, Fatal, IsReady, Ended, Push, SlotBack;
    HolderFacts(c, s);
    var l := s.out.(bytes := s.out.bytes + size);
    LaneStep(c, s, Fits(dest, size), AddBytes, Reserved(dest, size), BytesUp(size));
    EndedElsewhere(c, s, Some(Reserved(dest, size)), l, dest, size, SlotBack(s.out));
    assert l.(bytes := l.bytes - size) == s.out;
  }

  lemma AtReserved(c: Config, s: Sys, dest: nat, size: nat)
    requires Inv(c, s) && s.submitter == Some(Reserved(dest, size))
    ensures StepsOn(c, s, Reserved(dest, size))
  {
    hide Inv, Fatal, IsReady, NextCounter, Next, Push, Grown, SlotBack;
    HolderFacts(c, s);
    MintStep(c, s, dest, size);
    FatalElsewhere(s, Some(Refunding(size)), s.out);
    var n := NextCounter(c, s.counters.next, dest);
    if n.Some? {
      PushIsGrown(s.out, Item(dest, n.value, size));
    }
  }

  lemma MintStep(c: Config, s: Sys, dest: nat, size: nat)
    requires !s.panicked && s.submitter == Some(Reserved(dest, size))
    ensures Next(c, s, Mint) == Some(DoMint(c, s, dest, size))
  {
    hide DoMint;
  }

  lemma PushIsGrown(l: Lane, item: Item)
    requires l.slots > 0
    ensures Grown(SlotBack(l.(bytes := l.bytes - item.bytes)), item) == Push(l, item)
  {
  }

  lemma AtMinted(c: Config, s: Sys, item: Item)
    requires Inv(c, s) && s.submitter == Some(Minted(item))
    ensures StepsOn(c, s, Minted(item))
  {
    hide Inv, Next, Fatal, IsReady, Ended, Push, SlotBack;
    HolderFacts(c, s);
    LaneStep(c, s, Minted(item), Enqueue, Leaving, Send(item));
  }

  lemma AtRefunding(c: Config, s: Sys, size: nat)
    requires Inv(c, s) && s.submitter == Some(Refunding(size))
    ensures StepsOn(c, s, Refunding(size))
  {
    hide Inv, Next, Fatal, IsReady, Ended, Push, SlotBack;
    HolderFacts(c, s);
    LaneStep(c, s, Refunding(size), Refund, Dropping(true), BytesDown(size));
    FatalElsewhere(s, Some(Dropping(true)), s.out.(bytes := s.out.bytes - size));
  }

  lemma AtDropping(c: Config, s: Sys, fatally: bool)
    requires Inv(c, s) && s.submitter == Some(Dropping(fatally))
    ensures StepsOn(c, s, Dropping(fatally))
  {
    hide Inv, Next, Fatal, IsReady, Ended, Push;
    HolderFacts(c, s);
    var pc' := if fatally then Reporting else Leaving;
    LaneStep(c, s, Dropping(fatally), DropSlot, pc', SlotDown);
    FatalElsewhere(s, Some(pc'), SlotBack(s.out));
  }

  lemma AtExit(c: Config, s: Sys, pc: Submitter)
    requires Inv(c, s) && s.submitter == Some(pc) && (pc.Reporting? || pc.Leaving?)
    ensures StepsOn(c, s, pc)
  {
    hide Inv, SubmitterStep, DoMint;
    HolderFacts(c, s);
  }

  lemma AlwaysStepsOn(c: Config, s: Sys)
    requires Inv(c, s) && s.submitter.Some?
    ensures StepsOn(c, s, s.submitter.value)
  {
    hide Inv, StepsOn;
    match s.submitter.value
    case HasGate(dest, size, blocking) =>
      if s.out.slots < c.outCap {
        AtFreeGate(c, s, dest, size, blocking);
      } else {
        AtFullGate(c, s, dest, size, blocking);
      }
    case Admitted(dest, size) => AtAdmitted(c, s, dest, size);
    case Cleared(dest, size) => AtCleared(c, s, dest, size);
    case Fits(dest, size) => AtFits(c, s, dest, size);
    case Reserved(dest, size) => AtReserved(c, s, dest, size);
    case Minted(item) => AtMinted(c, s, item);
    case Refunding(size) => AtRefunding(c, s, size);
    case Dropping(fatally) => AtDropping(c, s, fatally);
    case Reporting => AtExit(c, s, s.submitter.value);
    case Leaving => AtExit(c, s, s.submitter.value);
  }

  lemma {:induction false} AloneMeetsFate(c: Config, s: Sys)
    requires Inv(c, s) && s.submitter.Some?
    ensures Alone(c, s) == Fate(c, s, s.submitter.value)
    decreases Rank(s.submitter)
  {
    hide Inv, Next, OwnStep, Rank, Fate;
    AlwaysStepsOn(c, s);
    var s' := Next(c, s, OwnStep(c, s, s.submitter.value)).value;
    if s'.submitter.Some? {
      NextKeeps(c, s, OwnStep(c, s, s.submitter.value));
      AloneMeetsFate(c, s');
    }
  }

  /** There is a number left for the destination: it has been used before and its numbers are not
      exhausted, or there is room to remember one more destination. */
  predicate NumberLeft(c: Config, s: Sys, dest: nat) {
    if dest in s.counters.next then CountFor(s.out.admitted, dest) < 0xFFFF_FFFF_FFFF_FFFF
    else |s.counters.next| < c.registryCap
  }

  /** The next number of a destination is the count of what was admitted for it. */
  lemma NumberIs(c: Config, s: Sys, dest: nat)
    requires Inv(c, s) && s.submitter.Some? && s.submitter.value.HasGate?
    ensures NextCounter(c, s.counters.next, dest)
         == if NumberLeft(c, s, dest) then Some(CountFor(s.out.admitted, dest)) else None
  {
    hide LanesOk, FlagsOk, StartOk, StopOk, RoomOk, CountFor, Numbered;
    assert AllMinted(s.out.admitted, s.submitter) == s.out.admitted;
  }

  /** From every reachable state a submission that runs on its own is admitted, with the number that comes
      next for its destination, exactly if a slot is free, the mediation is ready, its bytes fit and there
      is a number left; otherwise nothing is left of it, and only a missing number is recorded as an
      error. */
  lemma SubmissionDecided(c: Config, s: Sys, dest: nat, size: nat, blocking: bool)
    requires Inv(c, s) && s.submitter == Some(HasGate(dest, size, blocking))
    ensures
      var s', item := Alone(c, s), Item(dest, CountFor(s.out.admitted, dest), size);
      var fits := s.out.slots < c.outCap && s.ready && !s.stopping && !s.fatal && s.out.bytes + size <= c.outLimit;
      if fits && NumberLeft(c, s, dest) then
        s' == s.(submitter := None, gate := 1, counters := Counters(s.counters.next[dest := item.counter + 1]),
                 out := s.out.(slots := s.out.slots + 1, bytes := s.out.bytes + size,
                               queue := s.out.queue + [item], admitted := s.out.admitted + [item]))
      else s' == (if fits then Fatal(s) else s).(submitter := None, gate := 1)
  {
    hide Inv, Alone, NextCounter, CountFor, NumberLeft;
    AloneMeetsFate(c, s);
    NumberIs(c, s, dest);
  }

  // ---------------------------------------------------------------- errors

  /** The steps that record an error: a submission that violates its route, a number that is not to be
      had, a failed listener, a worker that gives up, a callback that was refused while nothing stops, and
      a stop that does not wait for the workers any longer. */
  predicate IsFailure(s: Sys, step: Step) {
    || step.InvalidSubmission? || step.Report? || step.ListenerFails? || step.OutboundExit? || step.CallbackExit?
    || (step.CbRefuse? && !s.stopping) || step == ByFinish(WorkersTimeout)
  }

  /** Exactly those steps end readiness with the first error, which is signalled once and for all. */
  lemma FatalExactly(c: Config, s: Sys, step: Step)
    requires Inv(c, s) && Next(c, s, step).Some?
    ensures
      var s' := Next(c, s, step).value;
      && (s'.fatal <==> s.fatal || IsFailure(s, step))
      && (s'.fatal ==> s'.signals == 1 && !s'.ready && !IsReady(s'))
  {
    hide Inv;
    NextKeeps(c, s, step);
    LatchFacts(c, s);
    LatchFacts(c, Next(c, s, step).value);
    FatalStep(c, s, step);
  }

  lemma ProducersQuiet(c: Config, s: Sys, step: Step)
    requires (step.BySubmitter? || step.Mint? || step.ByAcceptor?) && Next(c, s, step).Some?
    ensures Next(c, s, step).value.fatal == s.fatal
  {
    hide SubmitterMove, AcceptorMove, Apply, Enabled, NextCounter;
  }

  lemma StartQuiet(s: Sys, op: StartOp)
    requires StartStep(s, op).Some?
    ensures StartStep(s, op).value.fatal == s.fatal
  {
  }

  lemma StopQuiet(s: Sys, op: StopOp)
    requires StopStep(s, op).Some?
    ensures StopStep(s, op).value.fatal == s.fatal
  {
  }

  lemma FinishQuiet(s: Sys, op: FinishOp)
    requires FinishStep(s, op).Some?
    ensures FinishStep(s, op).value.fatal == (s.fatal || op.WorkersTimeout?)
  {
    hide WorkerStopped;
  }

  lemma DrainQuiet(s: Sys, op: DrainOp)
    requires DrainStep(s, op).Some?
    ensures DrainStep(s, op).value.fatal == s.fatal
  {
    hide DrainOne;
  }

  lemma LifecycleQuiet(c: Config, s: Sys, step: Step)
    requires (step.ByStart? || step.ByStop? || step.ByFinish? || step.ByDrain?) && Next(c, s, step).Some?
    ensures Next(c, s, step).value.fatal == (s.fatal || step == ByFinish(WorkersTimeout))
  {
    hide StartStep, StopStep, FinishStep, DrainStep;
    match step
    case ByStart(op) => StartQuiet(s, op);
    case ByStop(op) => StopQuiet(s, op);
    case ByFinish(op) => FinishQuiet(s, op);
    case ByDrain(op) => DrainQuiet(s, op);
  }

  lemma FatalStep(c: Config, s: Sys, step: Step)
    requires Next(c, s, step).Some?
    ensures Next(c, s, step).value.fatal <==> s.fatal || IsFailure(s, step)
  {
    if step.BySubmitter? || step.Mint? || step.ByAcceptor? {
      hide Next;
      ProducersQuiet(c, s, step);
    } else if step.ByStart? || step.ByStop? || step.ByFinish? || step.ByDrain? {
      hide Next;
      LifecycleQuiet(c, s, step);
    } else {
      OthersQuiet(c, s, step);
    }
  }

  lemma OthersQuiet(c: Config, s: Sys, step: Step)
    requires !(step.BySubmitter? || step.Mint? || step.ByAcceptor?) && Next(c, s, step).Some?
    requires !(step.ByStart? || step.ByStop? || step.ByFinish? || step.ByDrain?)
    ensures Next(c, s, step).value.fatal <==> s.fatal || IsFailure(s, step)
  {
    hide SubmitterStep, AcceptorStep, StartStep, StopStep, FinishStep, DrainStep, DoWork, DoMint;
  }

  lemma LatchFacts(c: Config, s: Sys)
    requires Inv(c, s)
    ensures !s.panicked && (s.fatal ==> !s.ready && s.signals == 1)
  {
    hide LanesOk, LocksOk, PhaseOk, StartOk, StopOk, RoomOk, CountersOk;
  }

  /** A bad submission is recorded whenever it comes, a failed listener whenever there is one. */
  lemma FailuresAreSeen(c: Config, s: Sys)
    requires Inv(c, s)
    ensures Next(c, s, InvalidSubmission).Some?
    ensures Next(c, s, ListenerFails).Some? <==> !s.out.worker.NotStarted?
    ensures Next(c, s, CbRefuse).Some? <==> s.refused > 0
  {
    hide Inv, Fatal;
    LatchFacts(c, s);
  }

  /** The gate is open to a submitter, and the mutex to a callback, unless another holds it or the stop
      is closing the queue. */
  lemma DoorsOpen(c: Config, s: Sys, dest: nat, size: nat, blocking: bool, item: Item)
    requires Inv(c, s)
    ensures Next(c, s, TakeGate(dest, size, blocking))
         == if s.submitter.Some? || s.boss.CloseOutbound? || s.boss.ReturnGate? then None
            else Some(s.(gate := 0, submitter := Some(HasGate(dest, size, blocking))))
    ensures Next(c, s, CbEnter(item))
         == if s.acceptor.Some? || s.boss.CloseCallback? || s.boss.ReturnMutex? then None
            else Some(s.(mutex := 0, acceptor := Some(Entered(item))))
  {
    hide LanesOk, StartOk, StopOk, RoomOk, CountersOk, PhaseOk, Fatal, SubmitterStep, AcceptorStep;
  }

  // ---------------------------------------------------------------- a callback

  function CbStep(c: Config, s: Sys, pc: Acceptor): Step {
    match pc
    case Entered(_) => ByAcceptor(CbCheckReady)
    case SawReady(_) => ByAcceptor(if s.cb.slots < c.cbCap then CbTakeSlot else CbSlotsFull)
    case HasSlot(_) => ByAcceptor(CbCheckBytes)
    case SawRoom(_) => ByAcceptor(CbAddBytes)
    case Counted(_) => ByAcceptor(CbEnqueue)
    case GivingSlot => ByAcceptor(CbGiveSlot)
    case Done(_) => CbLeave
  }

  function CbRank(p: Option<Acceptor>): nat {
    if p.None? then 0
    else match p.value
      case Entered(_) => 7 case SawReady(_) => 6 case HasSlot(_) => 5 case SawRoom(_) => 4
      case Counted(_) => 3 case GivingSlot => 2 case Done(_) => 1
  }

  /** The handler running on its own until it has left. */
  function CbAlone(c: Config, s: Sys): Sys
    decreases CbRank(s.acceptor)
  {
    if s.acceptor.None? then s
    else match Next(c, s, CbStep(c, s, s.acceptor.value))
      case None => s
      case Some(s') => if CbRank(s'.acceptor) < CbRank(s.acceptor) then CbAlone(c, s') else s
  }

  function CbLeft(s: Sys, accepted: bool): Sys {
    s.(acceptor := None, mutex := 1, refused := if accepted then s.refused else s.refused + 1)
  }

  /** What becomes of a callback that runs on its own: it is queued exactly if the mediation is ready, a
      slot is free and its bytes fit; otherwise it is refused and the lane is as before. */
  function CbFate(c: Config, s: Sys, pc: Acceptor): Sys {
    match pc
    case Entered(item) =>
      if !IsReady(s) || s.cb.slots >= c.cbCap || s.cb.bytes + item.bytes > c.cbLimit then CbLeft(s, false)
      else CbLeft(s.(cb := Grown(s.cb, item)), true)
    case SawReady(item) =>
      if s.cb.slots >= c.cbCap || s.cb.bytes + item.bytes > c.cbLimit then CbLeft(s, false)
      else CbLeft(s.(cb := Grown(s.cb, item)), true)
    case HasSlot(item) =>
      if s.cb.bytes + item.bytes > c.cbLimit then CbLeft(s.(cb := SlotBack(s.cb)), false)
      else CbLeft(s.(cb := Grown(SlotBack(s.cb), item)), true)
    case SawRoom(item) => CbLeft(s.(cb := Grown(SlotBack(s.cb), item)), true)
    case Counted(item) => CbLeft(s.(cb := Push(s.cb, item)), true)
    case GivingSlot => CbLeft(s.(cb := SlotBack(s.cb)), false)
    case Done(accepted) => CbLeft(s, accepted)
  }

  ghost predicate CbStepsOn(c: Config, s: Sys, pc: Acceptor) {
    var next := Next(c, s, CbStep(c, s, pc));
    && next.Some? && CbRank(next.value.acceptor) < CbRank(Some(pc))
    && CbFate(c, s, pc) == if next.value.acceptor.None? then next.value else CbFate(c, next.value, next.value.acceptor.value)
  }

  lemma CbFacts(c: Config, s: Sys)
    requires Inv(c, s) && s.acceptor.Some?
    ensures !s.panicked && s.mutex == 0 && (CbToken(s.acceptor) == 1 ==> s.cb.slots > 0)
    ensures s.acceptor.value.Counted? ==> !s.cb.closed && |s.cb.queue| < c.cbCap
  {
    hide Sum, CountersOk, StartOk, StopOk, PhaseOk;
    NoSendOnClosed(c, s);
  }

  lemma CbLaneStep(c: Config, s: Sys, pc: Acceptor, op: AcceptOp, pc': Acceptor, e: Effect)
    requires !s.panicked && s.acceptor == Some(pc) && AcceptorMove(c, s, pc, op) == Some((pc', e))
    requires Enabled(s.cb, c.cbCap, e) && (e.Send? ==> !s.cb.closed)
    ensures Next(c, s, ByAcceptor(op)) == Some(s.(acceptor := Some(pc'), cb := Apply(s.cb, e)))
  {
    hide AcceptorMove, Enabled, Apply;
  }

  lemma CbAtEntry(c: Config, s: Sys, item: Item)
    requires Inv(c, s) && s.acceptor == Some(Entered(item))
    ensures CbStepsOn(c, s, Entered(item))
  {
    hide Inv, Next, IsReady, Push, Grown, SlotBack;
    CbFacts(c, s);
    CbLaneStep(c, s, Entered(item), CbCheckReady, if IsReady(s) then SawReady(item) else Done(false), Nothing);
  }

  lemma CbAtReady(c: Config, s: Sys, item: Item)
    requires Inv(c, s) && s.acceptor == Some(SawReady(item))
    ensures CbStepsOn(c, s, SawReady(item))
  {
    hide Inv, CbStepsOn;
    if s.cb.slots >= c.cbCap {
      CbAtFull(c, s, item);
    } else {
      CbAtFree(c, s, item);
    }
  }

  lemma CbAtFull(c: Config, s: Sys, item: Item)
    requires Inv(c, s) && s.acceptor == Some(SawReady(item)) && s.cb.slots >= c.cbCap
    ensures CbStepsOn(c, s, SawReady(item))
  {
    hide Inv, Next, IsReady, Push, Grown, SlotBack;
    CbFacts(c, s);
    CbLaneStep(c, s, SawReady(item), CbSlotsFull, Done(false), Nothing);
  }

  lemma CbAtFree(c: Config, s: Sys, item: Item)
    requires Inv(c, s) && s.acceptor == Some(SawReady(item)) && s.cb.slots < c.cbCap
    ensures CbStepsOn(c, s, SawReady(item))
  {
    hide Inv, Next, IsReady, Push, Grown, SlotBack;
    CbFacts(c, s);
    CbLaneStep(c, s, SawReady(item), CbTakeSlot, HasSlot(item), SlotUp);
    UpAndBack(s.cb);
  }

  lemma UpAndBack(l: Lane)
    ensures SlotBack(l.(slots := l.slots + 1)) == l
  {
  }

  lemma CbAtSlot(c: Config, s: Sys, pc: Acceptor)
    requires Inv(c, s) && s.acceptor == Some(pc) && (pc.HasSlot? || pc.SawRoom?)
    ensures CbStepsOn(c, s, pc)
  {
    hide Inv, Next, IsReady, Push, Grown;
    CbFacts(c, s);
    if pc.HasSlot? {
      CbLaneStep(c, s, pc, CbCheckBytes, if s.cb.bytes + pc.item.bytes > c.cbLimit then GivingSlot else SawRoom(pc.item), Nothing);
    } else {
      CbLaneStep(c, s, pc, CbAddBytes, Counted(pc.item), BytesUp(pc.item.bytes));
      PushIsGrown(s.cb.(bytes := s.cb.bytes + pc.item.bytes), pc.item);
    }
  }

  lemma CbAtEnd(c: Config, s: Sys, pc: Acceptor)
    requires Inv(c, s) && s.acceptor == Some(pc) && (pc.Counted? || pc.GivingSlot?)
    ensures CbStepsOn(c, s, pc)
  {
    hide Inv, Next, IsReady, Push, Grown;
    CbFacts(c, s);
    if pc.Counted? {
      CbLaneStep(c, s, pc, CbEnqueue, Done(true), Send(pc.item));
    } else {
      CbLaneStep(c, s, pc, CbGiveSlot, Done(false), SlotDown);
    }
  }

  lemma CbAtExit(c: Config, s: Sys, pc: Acceptor)
    requires Inv(c, s) && s.acceptor == Some(pc) && pc.Done?
    ensures CbStepsOn(c, s, pc)
  {
    hide Inv, AcceptorStep;
    CbFacts(c, s);
  }

  lemma CbAlwaysStepsOn(c: Config, s: Sys)
    requires Inv(c, s) && s.acceptor.Some?
    ensures CbStepsOn(c, s, s.acceptor.value)
  {
    hide Inv, CbStepsOn;
    var pc := s.acceptor.value;
    if pc.Entered? {
      CbAtEntry(c, s, pc.item);
    } else if pc.SawReady? {
      CbAtReady(c, s, pc.item);
    } else if pc.HasSlot? || pc.SawRoom? {
      CbAtSlot(c, s, pc);
    } else if pc.Counted? || pc.GivingSlot? {
      CbAtEnd(c, s, pc);
    } else {
      CbAtExit(c, s, pc);
    }
  }

  lemma {:induction false} CbAloneMeetsFate(c: Config, s: Sys)
    requires Inv(c, s) && s.acceptor.Some?
    ensures CbAlone(c, s) == CbFate(c, s, s.acceptor.value)
    decreases CbRank(s.acceptor)
  {
    hide Inv, Next, CbStep, CbRank, CbFate;
    CbAlwaysStepsOn(c, s);
    var s' := Next(c, s, CbStep(c, s, s.acceptor.value)).value;
    if s'.acceptor.Some? {
      NextKeeps(c, s, CbStep(c, s, s.acceptor.value));
      CbAloneMeetsFate(c, s');
    }
  }

  lemma CallbackDecided(c: Config, s: Sys, item: Item)
    requires Inv(c, s) && s.acceptor == Some(Entered(item))
    ensures
      CbAlone(c, s) ==
      if s.ready && !s.stopping && !s.fatal && s.cb.slots < c.cbCap && s.cb.bytes + item.bytes <= c.cbLimit then
        s.(acceptor := None, mutex := 1,
           cb := s.cb.(slots := s.cb.slots + 1, bytes := s.cb.bytes + item.bytes, queue := s.cb.queue + [item],
                       admitted := s.cb.admitted + [item]))
      else s.(acceptor := None, mutex := 1, refused := s.refused + 1)
  {
    hide Inv, CbAlone;
    CbAloneMeetsFate(c, s);
  }

  // ---------------------------------------------------------------- a worker

  /** The state after the steps, or nothing if one of them is not possible. */
  function After(c: Config, s: Sys, steps: seq<Step>): Option<Sys> {
    if steps == [] then Some(s)
    else match After(c, s, steps[..|steps| - 1])
      case None => None
      case Some(s') => Next(c, s', steps[|steps| - 1])
  }

  lemma OneMore(c: Config, s: Sys, steps: seq<Step>, step: Step)
    requires After(c, s, steps).Some?
    ensures After(c, s, steps + [step]) == Next(c, After(c, s, steps).value, step)
  {
    hide Next;
    assert (steps + [step])[..|steps|] == steps;
  }

  /** The lane after its first item was delivered. */
  function Delivered(l: Lane): Lane
    requires l.queue != [] && l.slots > 0
  {
    l.(queue := l.queue[1..], slots := l.slots - 1, bytes := l.bytes - l.queue[0].bytes, done := l.done + [l.queue[0]])
  }

  function Rounds(outbound: bool, n: nat): seq<Step> {
    if n == 0 then []
    else if outbound then Rounds(true, n - 1) + [ByOutbound(Receive)] + [ByOutbound(FreeSlot)] + [ByOutbound(Succeed)]
    else Rounds(false, n - 1) + [ByCallback(Receive)] + [ByCallback(FreeSlot)] + [ByCallback(Succeed)]
  }

  /** The lane after `n` rounds of its worker. */
  function Emptied(l: Lane, n: nat): Lane
    requires n <= |l.queue| && n <= l.slots
  {
    l.(queue := l.queue[n..], slots := l.slots - n, bytes := l.bytes - Sum(l.queue[..n]), done := l.done + l.queue[..n])
  }

  lemma EmptiedStep(l: Lane, n: nat)
    requires n < |l.queue| && n < l.slots
    ensures Emptied(l, n + 1) == Delivered(Emptied(l, n))
  {
    assert l.queue[..n + 1] == l.queue[..n] + [l.queue[n]];
    SumAppend(l.queue[..n], l.queue[n]);
    assert l.done + l.queue[..n + 1] == l.done + l.queue[..n] + [l.queue[n]];
  }

  lemma OutboundRound(c: Config, s: Sys)
    requires !s.panicked && s.out.worker.Waiting? && s.out.queue != [] && s.out.slots > 0
    ensures
      var s1 := Next(c, s, ByOutbound(Receive));
      && s1.Some? && Next(c, s1.value, ByOutbound(FreeSlot)).Some?
      && Next(c, Next(c, s1.value, ByOutbound(FreeSlot)).value, ByOutbound(Succeed)) == Some(s.(out := Delivered(s.out)))
  {
  }

  lemma CallbackRound(c: Config, s: Sys)
    requires !s.panicked && s.cb.worker.Waiting? && s.cb.queue != [] && s.cb.slots > 0
    ensures
      var s1 := Next(c, s, ByCallback(Receive));
      && s1.Some? && Next(c, s1.value, ByCallback(FreeSlot)).Some?
      && Next(c, Next(c, s1.value, ByCallback(FreeSlot)).value, ByCallback(Succeed)) == Some(s.(cb := Delivered(s.cb)))
  {
  }

  lemma LaneFacts(c: Config, s: Sys)
    requires Inv(c, s)
    ensures !s.panicked && |s.out.queue| <= s.out.slots && |s.cb.queue| <= s.cb.slots
  {
    hide Sum, CountersOk, StartOk, StopOk, PhaseOk, LocksOk;
  }

  /** A started worker whose posts succeed delivers its queue in order, item by item. */
  lemma {:induction false} OutboundDelivers(c: Config, s: Sys, n: nat)
    requires Inv(c, s) && s.out.worker.Waiting? && n <= |s.out.queue|
    ensures |s.out.queue| <= s.out.slots && After(c, s, Rounds(true, n)) == Some(s.(out := Emptied(s.out, n)))
  {
    hide Inv, Next, After, Emptied;
    LaneFacts(c, s);
    if n == 0 {
      NothingEmptied(s.out);
      NoSteps(c, s);
    } else {
      OutboundDelivers(c, s, n - 1);
      var s0, t := s.(out := Emptied(s.out, n - 1)), Rounds(true, n - 1);
      EmptiedFacts(s.out, n - 1);
      OutboundRound(c, s0);
      EmptiedStep(s.out, n - 1);
      OneMore(c, s, t, ByOutbound(Receive));
      OneMore(c, s, t + [ByOutbound(Receive)], ByOutbound(FreeSlot));
      OneMore(c, s, t + [ByOutbound(Receive)] + [ByOutbound(FreeSlot)], ByOutbound(Succeed));
    }
  }

  lemma {:induction false} CallbackDelivers(c: Config, s: Sys, n: nat)
    requires Inv(c, s) && s.cb.worker.Waiting? && n <= |s.cb.queue|
    ensures |s.cb.queue| <= s.cb.slots && After(c, s, Rounds(false, n)) == Some(s.(cb := Emptied(s.cb, n)))
  {
    hide Inv, Next, After, Emptied;
    LaneFacts(c, s);
    if n == 0 {
      NothingEmptied(s.cb);
      NoSteps(c, s);
    } else {
      CallbackDelivers(c, s, n - 1);
      var s0, t := s.(cb := Emptied(s.cb, n - 1)), Rounds(false, n - 1);
      EmptiedFacts(s.cb, n - 1);
      CallbackRound(c, s0);
      EmptiedStep(s.cb, n - 1);
      OneMore(c, s, t, ByCallback(Receive));
      OneMore(c, s, t + [ByCallback(Receive)], ByCallback(FreeSlot));
      OneMore(c, s, t + [ByCallback(Receive)] + [ByCallback(FreeSlot)], ByCallback(Succeed));
    }
  }

  lemma NoSteps(c: Config, s: Sys)
    ensures After(c, s, []) == Some(s)
  {
  }

  lemma NothingEmptied(l: Lane)
    ensures Emptied(l, 0) == l
  {
    assert l.queue[0..] == l.queue && l.queue[..0] == [] && l.done + [] == l.done;
  }

  lemma EmptiedFacts(l: Lane, n: nat)
    requires n < |l.queue| <= l.slots
    ensures
      var l' := Emptied(l, n);
      l'.worker == l.worker && l'.queue != [] && l'.slots > 0
  {
  }

  /** A post that fails loses its item and stops the worker for good, with the error recorded. */
  lemma FailureIsFatal(c: Config, s: Sys)
    requires !s.panicked && s.out.worker.Holding?
    ensures
      var item := s.out.worker.item;
      After(c, s, [ByOutbound(Fail)] + [OutboundExit]) ==
      Some(Fatal(s).(out := s.out.(worker := Exited, bytes := s.out.bytes - item.bytes, gone := s.out.gone + [item])))
  {
    hide After, SubmitterStep, AcceptorStep, StartStep, StopStep, FinishStep, DrainStep;
    NoSteps(c, s);
    OneMore(c, s, [], ByOutbound(Fail));
    assert [] + [ByOutbound(Fail)] == [ByOutbound(Fail)];
    OneMore(c, s, [ByOutbound(Fail)], OutboundExit);
  }
}
