/** The controller mediation layer as interleaved steps: submitters behind a one-token gate, a
    callback acceptor behind a mutex, two workers, a fatal latch, and start and stop under the
    lifecycle lock. Channels are bounded sequences with a closed flag, slot channels are counts. */
module Mediation {
  import opened Wrappers

  const MAX_COUNTER: nat := 0xFFFF_FFFF_FFFF_FFFF

  datatype Item = Item(peer: nat, counter: nat, bytes: nat)

  datatype Worker = NotStarted | Waiting | Dequeued(item: Item) | Holding(item: Item) | Failing(item: Item) | Exited

  /** A queue with its slot channel, its byte counter and its worker. The last three fields record
      history: what was admitted, what was posted or dispatched, what left without that. */
  datatype Lane = Lane(
    queue: seq<Item>, closed: bool, slots: nat, bytes: int, worker: Worker,
    admitted: seq<Item>, done: seq<Item>, gone: seq<Item>)

  /** The submitter that took the gate token. */
  datatype Submitter =
    | HasGate(dest: nat, size: nat, blocking: bool)
    | Admitted(dest: nat, size: nat)      // holds a slot
    | Cleared(dest: nat, size: nat)       // saw the mediation ready
    | Fits(dest: nat, size: nat)          // saw room for its bytes
    | Reserved(dest: nat, size: nat)      // counted its bytes
    | Minted(item: Item)                  // has an ID
    | Refunding(size: nat)                // no ID to be had: bytes, slot and a fatal error follow
    | Dropping(fatally: bool)             // gives the slot back
    | Reporting                           // records the fatal error
    | Leaving                             // gives the gate back

  /** The handler that took the callback mutex. */
  datatype Acceptor =
    | Entered(item: Item)
    | SawReady(item: Item)
    | HasSlot(item: Item)
    | SawRoom(item: Item)
    | Counted(item: Item)
    | GivingSlot
    | Done(accepted: bool)

  datatype Life = New | Starting | Running | Stopping | Stopped(workersStopped: bool)

  /** What the holder of the lifecycle lock is about to do. */
  datatype Boss =
    | Idle
    | Listen | Register | Announce
    | SetFlags | Cancel | GrabGate | CloseOutbound | ReturnGate | GrabMutex | CloseCallback | ReturnMutex
    | AwaitWorkers | DrainOutbound | DrainCallback | Finish(workersStopped: bool)

  datatype Sys = Sys(
    out: Lane, cb: Lane,
    gate: nat, submitter: Option<Submitter>,
    mutex: nat, acceptor: Option<Acceptor>, refused: nat,
    counters: Counters,
    ready: bool, everReady: bool, stopping: bool, fatal: bool, signals: nat, cancelled: bool,
    life: Life, boss: Boss,
    panicked: bool)

  /** The next counter per destination. */
  datatype Counters = Counters(next: map<nat, nat>)

  datatype Config = Config(outCap: nat, outLimit: int, cbCap: nat, cbLimit: int, registryCap: nat)

  const NEW_LANE := Lane([], false, 0, 0, NotStarted, [], [], [])

  const INIT := Sys(NEW_LANE, NEW_LANE, 1, None, 1, None, 0, Counters(map[]), false, false, false, false, 0, false, New, Idle, false)

  predicate IsReady(s: Sys) {
    s.ready && !s.stopping && !s.fatal
  }

  /** The fatal latch: only the first error is kept and signalled. */
  function Fatal(s: Sys): Sys {
    if s.fatal then s else s.(fatal := true, ready := false, signals := s.signals + 1)
  }

  // ---------------------------------------------------------------- operations on a lane

  function Push(l: Lane, item: Item): Lane {
    l.(queue := l.queue + [item], admitted := l.admitted + [item])
  }

  /** What a producer in transit does to its lane. */
  datatype Effect = Nothing | SlotUp | SlotDown | BytesUp(size: nat) | BytesDown(size: nat) | Send(item: Item)

  function Apply(l: Lane, e: Effect): Lane {
    match e
    case Nothing => l
    case SlotUp => l.(slots := l.slots + 1)
    case SlotDown => if l.slots > 0 then l.(slots := l.slots - 1) else l
    case BytesUp(size) => l.(bytes := l.bytes + size)
    case BytesDown(size) => l.(bytes := l.bytes - size)
    case Send(item) => Push(l, item)
  }

  /** A receive from an empty slot channel and a send to a full queue would block. */
  predicate Enabled(l: Lane, cap: nat, e: Effect) {
    match e
    case SlotUp => l.slots < cap
    case SlotDown => l.slots > 0
    case Send(_) => |l.queue| < cap
    case _ => true
  }

  datatype Work = Receive | SeeClosed | FreeSlot | Succeed | Fail

  /** One step of a worker; its exit after a failure is a step of the whole system. */
  function DoWork(l: Lane, w: Work): Option<Lane> {
    match w
    case Receive =>
      if l.worker.Waiting? && l.queue != [] then Some(l.(worker := Dequeued(l.queue[0]), queue := l.queue[1..])) else None
    case SeeClosed =>
      if l.worker.Waiting? && l.queue == [] && l.closed then Some(l.(worker := Exited)) else None
    case FreeSlot =>
      if l.worker.Dequeued? && l.slots > 0 then Some(l.(worker := Holding(l.worker.item), slots := l.slots - 1)) else None
    case Succeed =>
      if l.worker.Holding? then
        Some(l.(worker := Waiting, bytes := l.bytes - l.worker.item.bytes, done := l.done + [l.worker.item]))
      else None
    case Fail =>
      if l.worker.Holding? then
        Some(l.(worker := Failing(l.worker.item), bytes := l.bytes - l.worker.item.bytes, gone := l.gone + [l.worker.item]))
      else None
  }

  predicate WorkerStopped(l: Lane) {
    l.worker.NotStarted? || l.worker.Exited?
  }

  /** Releases the reservation of the first queued item. */
  function DrainOne(l: Lane): Option<Lane> {
    if l.queue == [] || l.slots == 0 then None
    else Some(l.(queue := l.queue[1..], slots := l.slots - 1, bytes := l.bytes - l.queue[0].bytes, gone := l.gone + [l.queue[0]]))
  }

  // ---------------------------------------------------------------- steps

  datatype SubmitOp =
    | TakeSlot | SlotTimeout | SlotCancelled | SlotFull
    | CheckReady | CheckBytes | AddBytes | Refund | DropSlot | Enqueue

  datatype AcceptOp = CbCheckReady | CbTakeSlot | CbSlotsFull | CbCheckBytes | CbAddBytes | CbEnqueue | CbGiveSlot

  datatype StartOp = StartCall | ListenDone(ok: bool) | RegisterDone(ok: bool) | AnnounceReady

  datatype StopOp = StopCall | DoSetFlags | DoCancel | DoGrabGate | DoCloseOutbound | DoReturnGate

  datatype FinishOp = DoGrabMutex | DoCloseCallback | DoReturnMutex | WorkersDone | WorkersTimeout | DoFinish

  datatype DrainOp = DrainOutboundOne | DrainOutboundEnd | DrainCallbackOne | DrainCallbackEnd

  datatype Step =
    | TakeGate(dest: nat, size: nat, blocking: bool)
    | BySubmitter(submitOp: SubmitOp) | Mint | Report | Leave
    | InvalidSubmission
    | CbEnter(item: Item) | ByAcceptor(acceptOp: AcceptOp) | CbLeave | CbRefuse
    | ListenerFails
    | ByOutbound(work: Work) | OutboundExit
    | ByCallback(work: Work) | CallbackExit
    | ByStart(startOp: StartOp) | ByStop(stopOp: StopOp) | ByFinish(finishOp: FinishOp) | ByDrain(drainOp: DrainOp)

  /** Where the submitter goes next and what it does to the outbound lane. */
  function SubmitterMove(c: Config, s: Sys, pc: Submitter, op: SubmitOp): Option<(Submitter, Effect)> {
    match op
    case TakeSlot => if pc.HasGate? then Some((Admitted(pc.dest, pc.size), SlotUp)) else None
    case SlotTimeout => if pc.HasGate? && pc.blocking then Some((Leaving, Nothing)) else None
    case SlotCancelled => if pc.HasGate? && pc.blocking && s.cancelled then Some((Leaving, Nothing)) else None
    case SlotFull => if pc.HasGate? && !pc.blocking && s.out.slots >= c.outCap then Some((Leaving, Nothing)) else None
    case CheckReady =>
      if pc.Admitted? then Some((if IsReady(s) then Cleared(pc.dest, pc.size) else Dropping(false), Nothing)) else None
    case CheckBytes =>
      if pc.Cleared? then
        Some((if s.out.bytes + pc.size > c.outLimit then Dropping(false) else Fits(pc.dest, pc.size), Nothing))
      else None
    case AddBytes => if pc.Fits? then Some((Reserved(pc.dest, pc.size), BytesUp(pc.size))) else None
    case Refund => if pc.Refunding? then Some((Dropping(true), BytesDown(pc.size))) else None
    case DropSlot => if pc.Dropping? then Some((if pc.fatally then Reporting else Leaving, SlotDown)) else None
    case Enqueue => if pc.Minted? then Some((Leaving, Send(pc.item))) else None
  }

  function SubmitterStep(c: Config, s: Sys, pc: Submitter, op: SubmitOp): Option<Sys> {
    match SubmitterMove(c, s, pc, op)
    case None => None
    case Some((pc', e)) =>
      if !Enabled(s.out, c.outCap, e) then None
      else if e.Send? && s.out.closed then Some(s.(panicked := true))
      else Some(s.(submitter := Some(pc'), out := Apply(s.out, e)))
  }

  /** The next counter for a destination, unless the registry or the counter is exhausted. */
  function NextCounter(c: Config, counters: map<nat, nat>, dest: nat): Option<nat> {
    if dest !in counters then (if |counters| >= c.registryCap then None else Some(0))
    else if counters[dest] == MAX_COUNTER then None
    else Some(counters[dest])
  }

  function DoMint(c: Config, s: Sys, dest: nat, size: nat): Sys {
    match NextCounter(c, s.counters.next, dest)
    case None => s.(submitter := Some(Refunding(size)))
    case Some(n) => s.(submitter := Some(Minted(Item(dest, n, size))), counters := Counters(s.counters.next[dest := n + 1]))
  }

  function AcceptorMove(c: Config, s: Sys, pc: Acceptor, op: AcceptOp): Option<(Acceptor, Effect)> {
    match op
    case CbCheckReady =>
      if pc.Entered? then Some((if IsReady(s) then SawReady(pc.item) else Done(false), Nothing)) else None
    case CbTakeSlot => if pc.SawReady? then Some((HasSlot(pc.item), SlotUp)) else None
    case CbSlotsFull => if pc.SawReady? && s.cb.slots >= c.cbCap then Some((Done(false), Nothing)) else None
    case CbCheckBytes =>
      if pc.HasSlot? then
        Some((if s.cb.bytes + pc.item.bytes > c.cbLimit then GivingSlot else SawRoom(pc.item), Nothing))
      else None
    case CbAddBytes => if pc.SawRoom? then Some((Counted(pc.item), BytesUp(pc.item.bytes))) else None
    case CbEnqueue => if pc.Counted? then Some((Done(true), Send(pc.item))) else None
    case CbGiveSlot => if pc.GivingSlot? then Some((Done(false), SlotDown)) else None
  }

  function AcceptorStep(c: Config, s: Sys, pc: Acceptor, op: AcceptOp): Option<Sys> {
    match AcceptorMove(c, s, pc, op)
    case None => None
    case Some((pc', e)) =>
      if !Enabled(s.cb, c.cbCap, e) then None
      else if e.Send? && s.cb.closed then Some(s.(panicked := true))
      else Some(s.(acceptor := Some(pc'), cb := Apply(s.cb, e)))
  }

  function StartStep(s: Sys, op: StartOp): Option<Sys> {
    match op
    case StartCall => if s.boss.Idle? && s.life.New? then Some(s.(life := Starting, boss := Listen)) else None
    case ListenDone(ok) =>
      if !s.boss.Listen? then None
      else if !ok then Some(s.(boss := SetFlags))
      else Some(s.(boss := Register, out := s.out.(worker := Waiting), cb := s.cb.(worker := Waiting)))
    case RegisterDone(ok) =>
      if s.boss.Register? then Some(s.(boss := if ok then Announce else SetFlags)) else None
    case AnnounceReady =>
      if !s.boss.Announce? then None
      else if s.fatal then Some(s.(boss := SetFlags))
      else Some(s.(ready := true, everReady := true, life := Running, boss := Idle))
  }

  /** Stopping up to the point where the outbound queue is closed. */
  function StopStep(s: Sys, op: StopOp): Option<Sys> {
    match op
    case StopCall => if s.boss.Idle? && !s.life.Stopped? then Some(s.(life := Stopping, boss := SetFlags)) else None
    case DoSetFlags => if s.boss.SetFlags? then Some(s.(ready := false, stopping := true, boss := Cancel)) else None
    case DoCancel => if s.boss.Cancel? then Some(s.(cancelled := true, boss := GrabGate)) else None
    case DoGrabGate => if s.boss.GrabGate? && s.gate > 0 then Some(s.(gate := s.gate - 1, boss := CloseOutbound)) else None
    case DoCloseOutbound =>
      if !s.boss.CloseOutbound? then None
      else if s.out.closed then Some(s.(panicked := true))
      else Some(s.(out := s.out.(closed := true), boss := ReturnGate))
    case DoReturnGate => if s.boss.ReturnGate? && s.gate == 0 then Some(s.(gate := 1, boss := GrabMutex)) else None
  }

  /** Stopping from there on. */
  function FinishStep(s: Sys, op: FinishOp): Option<Sys> {
    match op
    case DoGrabMutex => if s.boss.GrabMutex? && s.mutex > 0 then Some(s.(mutex := s.mutex - 1, boss := CloseCallback)) else None
    case DoCloseCallback =>
      if !s.boss.CloseCallback? then None
      else if s.cb.closed then Some(s.(panicked := true))
      else Some(s.(cb := s.cb.(closed := true), boss := ReturnMutex))
    case DoReturnMutex => if s.boss.ReturnMutex? && s.mutex == 0 then Some(s.(mutex := 1, boss := AwaitWorkers)) else None
    case WorkersDone =>
      if s.boss.AwaitWorkers? && WorkerStopped(s.out) && WorkerStopped(s.cb) then Some(s.(boss := DrainOutbound)) else None
    case WorkersTimeout => if s.boss.AwaitWorkers? then Some(Fatal(s).(boss := Finish(false))) else None
    case DoFinish => if s.boss.Finish? then Some(s.(life := Stopped(s.boss.workersStopped), boss := Idle)) else None
  }

  function DrainStep(s: Sys, op: DrainOp): Option<Sys> {
    match op
    case DrainOutboundOne =>
      if s.boss.DrainOutbound? && DrainOne(s.out).Some? then Some(s.(out := DrainOne(s.out).value)) else None
    case DrainOutboundEnd => if s.boss.DrainOutbound? && s.out.queue == [] then Some(s.(boss := DrainCallback)) else None
    case DrainCallbackOne =>
      if s.boss.DrainCallback? && DrainOne(s.cb).Some? then Some(s.(cb := DrainOne(s.cb).value)) else None
    case DrainCallbackEnd => if s.boss.DrainCallback? && s.cb.queue == [] then Some(s.(boss := Finish(true))) else None
  }

  /** One step of the whole system, or nothing when it is not enabled. */
  function Next(c: Config, s: Sys, step: Step): Option<Sys> {
    if s.panicked then None
    else match step
      case TakeGate(dest, size, blocking) =>
        if s.gate > 0 then Some(s.(gate := s.gate - 1, submitter := Some(HasGate(dest, size, blocking)))) else None
      case BySubmitter(op) => if s.submitter.Some? then SubmitterStep(c, s, s.submitter.value, op) else None
      case Mint =>
        if s.submitter.Some? && s.submitter.value.Reserved?
        then Some(DoMint(c, s, s.submitter.value.dest, s.submitter.value.size)) else None
      case Report => if s.submitter == Some(Reporting) then Some(Fatal(s).(submitter := Some(Leaving))) else None
      case Leave => if s.submitter == Some(Leaving) && s.gate == 0 then Some(s.(submitter := None, gate := 1)) else None
      case InvalidSubmission => Some(Fatal(s))
      case CbEnter(item) => if s.mutex > 0 then Some(s.(mutex := s.mutex - 1, acceptor := Some(Entered(item)))) else None
      case ByAcceptor(op) => if s.acceptor.Some? then AcceptorStep(c, s, s.acceptor.value, op) else None
      case CbLeave =>
        if s.acceptor.Some? && s.acceptor.value.Done? && s.mutex == 0 then
          Some(s.(acceptor := None, mutex := 1, refused := if s.acceptor.value.accepted then s.refused else s.refused + 1))
        else None
      case CbRefuse =>
        if s.refused > 0 then Some((if s.stopping then s else Fatal(s)).(refused := s.refused - 1)) else None
      case ListenerFails => if s.out.worker.NotStarted? then None else Some(Fatal(s))
      case ByOutbound(w) => if DoWork(s.out, w).Some? then Some(s.(out := DoWork(s.out, w).value)) else None
      case OutboundExit => if s.out.worker.Failing? then Some(Fatal(s).(out := s.out.(worker := Exited))) else None
      case ByCallback(w) => if DoWork(s.cb, w).Some? then Some(s.(cb := DoWork(s.cb, w).value)) else None
      case CallbackExit => if s.cb.worker.Failing? then Some(Fatal(s).(cb := s.cb.(worker := Exited))) else None
      case ByStart(op) => StartStep(s, op)
      case ByStop(op) => StopStep(s, op)
      case ByFinish(op) => FinishStep(s, op)
      case ByDrain(op) => DrainStep(s, op)
  }

  function Run(c: Config, steps: seq<Step>): Option<Sys> {
    if steps == [] then Some(INIT)
    else match Run(c, steps[..|steps| - 1])
      case None => None
      case Some(s) => Next(c, s, steps[|steps| - 1])
  }
}
