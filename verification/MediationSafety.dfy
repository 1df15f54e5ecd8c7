/** What every interleaving of the mediation layer keeps. */
module MediationSafety {
  import opened Wrappers
  import opened Mediation

  // ---------------------------------------------------------------- a lane on its own

  function Sum(q: seq<Item>): int {
    if q == [] then 0 else q[0].bytes + Sum(q[1..])
  }

  function Hand(w: Worker): seq<Item> {
    if w.Dequeued? || w.Holding? then [w.item] else []
  }

  /** The slot tokens are those of the queue, of an item just received and of a producer in
      transit; the bytes are those queued, in the worker's hands and reserved by that producer;
      and whatever was admitted is done, gone, in the worker's hands or queued, in this order. */
  predicate LaneOk(l: Lane, cap: nat, limit: int, token: nat, reserved: int) {
    && l.slots == |l.queue| + (if l.worker.Dequeued? then 1 else 0) + token
    && l.slots <= cap && token <= 1 && (token == 0 ==> reserved == 0)
    && l.bytes == Sum(l.queue) + Sum(Hand(l.worker)) + reserved
    && l.bytes <= limit
    && l.admitted == l.done + l.gone + Hand(l.worker) + l.queue
    && (l.worker.Failing? ==> l.gone != [])
    && (l.gone != [] ==> l.worker.Failing? || l.worker.Exited?)
  }

  lemma {:induction false} SumAppend(q: seq<Item>, item: Item)
    ensures Sum(q + [item]) == Sum(q) + item.bytes
  {
    if q == [] {
      assert q + [item] == [item];
    } else {
      assert (q + [item])[1..] == q[1..] + [item];
      SumAppend(q[1..], item);
    }
  }

  lemma SumOne(item: Item)
    ensures Sum([item]) == item.bytes
  {
  }

  lemma PushOk(l: Lane, cap: nat, limit: int, item: Item)
    requires LaneOk(l, cap, limit, 1, item.bytes)
    ensures LaneOk(Push(l, item), cap, limit, 0, 0)
  {
    hide Sum;
    SumAppend(l.queue, item);
  }

  lemma SumFront(q: seq<Item>)
    requires q != []
    ensures Sum(q) == Sum([q[0]]) + Sum(q[1..]) && Sum([]) == 0 && q == [q[0]] + q[1..]
  {
    SumOne(q[0]);
  }

  lemma ReceiveOk(l: Lane, cap: nat, limit: int, token: nat, reserved: int)
    requires LaneOk(l, cap, limit, token, reserved) && l.worker.Waiting? && l.queue != []
    ensures LaneOk(l.(worker := Dequeued(l.queue[0]), queue := l.queue[1..]), cap, limit, token, reserved)
  {
    hide Sum;
    SumFront(l.queue);
    assert l.done + l.gone + [] + l.queue == l.done + l.gone + [l.queue[0]] + l.queue[1..];
  }

  lemma HandOff(done: seq<Item>, item: Item, queue: seq<Item>)
    ensures done + [] + [item] + queue == done + [item] + [] + [] + queue
    ensures done + [] + [item] + queue == done + [item] + [] + queue
    ensures Sum([item]) == item.bytes && Sum([]) == 0
  {
    SumOne(item);
  }

  lemma WorkOk(l: Lane, w: Work, cap: nat, limit: int, token: nat, reserved: int)
    requires LaneOk(l, cap, limit, token, reserved) && DoWork(l, w).Some?
    ensures LaneOk(DoWork(l, w).value, cap, limit, token, reserved)
  {
    hide Sum;
    if w.Receive? {
      ReceiveOk(l, cap, limit, token, reserved);
    } else if l.worker.Dequeued? || l.worker.Holding? {
      HandOff(l.done, l.worker.item, l.queue);
    }
  }

  lemma DrainOk(l: Lane, cap: nat, limit: int, token: nat, reserved: int)
    requires LaneOk(l, cap, limit, token, reserved) && WorkerStopped(l) && l.queue != [] && l.worker.Exited?
    ensures DrainOne(l).Some? && LaneOk(DrainOne(l).value, cap, limit, token, reserved)
    ensures var l' := DrainOne(l).value; l'.admitted == l.admitted && l'.closed == l.closed
  {
    assert l.queue == [l.queue[0]] + l.queue[1..];
    assert Sum(l.queue) == l.queue[0].bytes + Sum(l.queue[1..]);
    assert Sum([]) == 0;
    hide Sum;
  }

  // ---------------------------------------------------------------- tokens and reservations in transit

  function Token(p: Option<Submitter>): nat {
    if p.Some? && (p.value.Admitted? || p.value.Cleared? || p.value.Fits? || p.value.Reserved? || p.value.Minted?
                   || p.value.Refunding? || p.value.Dropping?) then 1 else 0
  }

  function Bytes(p: Option<Submitter>): int {
    if p.None? then 0
    else match p.value
      case Reserved(_, size) => size
      case Minted(item) => item.bytes
      case Refunding(size) => size
      case _ => 0
  }

  /** A submitter that saw the mediation ready and has not yet left. */
  predicate Committed(p: Option<Submitter>) {
    p.Some? && (p.value.Cleared? || p.value.Fits? || p.value.Reserved? || p.value.Minted? || p.value.Refunding?)
  }

  function CbToken(p: Option<Acceptor>): nat {
    if p.Some? && (p.value.HasSlot? || p.value.SawRoom? || p.value.Counted? || p.value.GivingSlot?) then 1 else 0
  }

  function CbBytes(p: Option<Acceptor>): int {
    if p.Some? && p.value.Counted? then p.value.item.bytes else 0
  }

  predicate CbCommitted(p: Option<Acceptor>) {
    p.Some? && (p.value.SawReady? || p.value.HasSlot? || p.value.SawRoom? || p.value.Counted? || p.value.GivingSlot?)
  }

  // ---------------------------------------------------------------- the lifecycle

  /** How far the holder of the lifecycle lock, or a finished stop, has come. */
  function Phase(s: Sys): nat {
    match s.boss
    case Idle => if s.life.Stopped? then 20 else 0
    case Listen => 1 case Register => 1 case Announce => 1
    case SetFlags => 2 case Cancel => 3 case GrabGate => 4 case CloseOutbound => 5 case ReturnGate => 6
    case GrabMutex => 7 case CloseCallback => 8 case ReturnMutex => 9 case AwaitWorkers => 10
    case DrainOutbound => 11 case DrainCallback => 12 case Finish(_) => 13
  }

  /** One gate token exists, and nobody commits past it once the queue is about to close. */
  predicate GateOk(s: Sys) {
    && s.gate + (if s.submitter.Some? then 1 else 0) + (if Phase(s) == 5 || Phase(s) == 6 then 1 else 0) == 1
    && (Phase(s) >= 5 ==> !Committed(s.submitter))
  }

  predicate MutexOk(s: Sys) {
    && s.mutex + (if s.acceptor.Some? then 1 else 0) + (if Phase(s) == 8 || Phase(s) == 9 then 1 else 0) == 1
    && (Phase(s) >= 8 ==> !CbCommitted(s.acceptor))
  }

  predicate LocksOk(s: Sys) {
    GateOk(s) && MutexOk(s)
  }

  predicate LatchOk(s: Sys) {
    && !s.panicked
    && (s.ready ==> s.everReady && !s.fatal)
    && s.signals == (if s.fatal then 1 else 0)
  }

  predicate PhaseOk(s: Sys) {
    && (s.stopping <==> Phase(s) > 2) && (s.cancelled <==> Phase(s) > 3)
    && (s.out.closed <==> Phase(s) > 5) && (s.cb.closed <==> Phase(s) > 8)
    && (s.boss.Idle? ==> !s.life.Starting? && !s.life.Stopping?)
    && (!s.boss.Idle? ==> !s.life.Stopped?)
    && (s.life.New? ==> s.boss.Idle?)
    && (Phase(s) == 1 ==> !s.everReady)
  }

  predicate FlagsOk(s: Sys) {
    LocksOk(s) && LatchOk(s) && PhaseOk(s)
  }

  predicate NothingYet(l: Lane) {
    l.admitted == [] && l.queue == [] && l.done == [] && l.gone == []
  }

  predicate StartOk(s: Sys) {
    && (s.out.worker.NotStarted? <==> s.cb.worker.NotStarted?)
    && (s.out.worker.NotStarted? ==> !s.everReady)
    && (!s.everReady ==> NothingYet(s.out) && NothingYet(s.cb) && !Committed(s.submitter) && !CbCommitted(s.acceptor))
    && (s.life.New? || s.boss.Listen? ==> s.out.worker.NotStarted?)
    && (s.boss.Register? || s.boss.Announce? || s.life.Running? ==> !s.out.worker.NotStarted?)
  }

  /** A worker leaves only after a recorded failure or with everything done. */
  predicate ExitOk(l: Lane, fatal: bool) {
    && (l.worker.Exited? ==> fatal || (l.closed && l.queue == [] && l.gone == []))
    && (l.gone != [] ==> fatal || l.worker.Failing?)
  }

  /** The workers had stopped when the queues were drained. */
  predicate Clean(s: Sys) {
    (s.boss.Finish? && s.boss.workersStopped) || (s.life.Stopped? && s.life.workersStopped)
  }

  predicate StopOk(s: Sys) {
    && ExitOk(s.out, s.fatal) && ExitOk(s.cb, s.fatal)
    && (s.boss.DrainOutbound? || s.boss.DrainCallback? || Clean(s) ==> WorkerStopped(s.out) && WorkerStopped(s.cb))
    && (s.boss.DrainCallback? || Clean(s) ==> s.out.queue == [])
    && (Clean(s) ==> s.cb.queue == [])
    && ((s.boss.Finish? && !s.boss.workersStopped) || (s.life.Stopped? && !s.life.workersStopped) ==> s.fatal)
  }

  predicate RoomOk(c: Config, s: Sys) {
    && (s.submitter.Some? && s.submitter.value.Fits? ==> s.out.bytes + s.submitter.value.size <= c.outLimit)
    && (s.acceptor.Some? && s.acceptor.value.SawRoom? ==> s.cb.bytes + s.acceptor.value.item.bytes <= c.cbLimit)
  }

  // ---------------------------------------------------------------- counters

  function CountFor(items: seq<Item>, peer: nat): nat {
    if items == [] then 0
    else CountFor(items[..|items| - 1], peer) + (if items[|items| - 1].peer == peer then 1 else 0)
  }

  /** Every item carries the number of earlier items for the same destination. */
  predicate Numbered(items: seq<Item>) {
    forall i :: 0 <= i < |items| ==> items[i].counter == CountFor(items[..i], items[i].peer)
  }

  function AllMinted(admitted: seq<Item>, p: Option<Submitter>): seq<Item> {
    if p.Some? && p.value.Minted? then admitted + [p.value.item] else admitted
  }

  ghost predicate CountersOk(cap: nat, minted: seq<Item>, counters: map<nat, nat>) {
    && Numbered(minted)
    && (forall d: nat :: d in counters ==> counters[d] == CountFor(minted, d) && 0 < counters[d] <= MAX_COUNTER)
    && (forall d: nat :: d !in counters ==> CountFor(minted, d) == 0)
    && |counters| <= cap
  }

  predicate LanesOk(c: Config, s: Sys) {
    && LaneOk(s.out, c.outCap, c.outLimit, Token(s.submitter), Bytes(s.submitter))
    && LaneOk(s.cb, c.cbCap, c.cbLimit, CbToken(s.acceptor), CbBytes(s.acceptor))
  }

  ghost predicate Inv(c: Config, s: Sys) {
    && LanesOk(c, s) && FlagsOk(s) && StartOk(s) && StopOk(s) && RoomOk(c, s)
    && CountersOk(c.registryCap, AllMinted(s.out.admitted, s.submitter), s.counters.next)
  }

  // ---------------------------------------------------------------- what the kinds of steps leave alone

  /** The latch after a step that may have recorded an error. */
  predicate Latched(s: Sys, s': Sys) {
    || (s'.fatal == s.fatal && s'.ready == s.ready && s'.signals == s.signals)
    || (s'.fatal == Fatal(s).fatal && s'.ready == Fatal(s).ready && s'.signals == Fatal(s).signals)
  }

  /** The parts only the lifecycle changes. */
  predicate SameLife(s: Sys, s': Sys) {
    && s'.boss == s.boss && s'.life == s.life && s'.stopping == s.stopping && s'.cancelled == s.cancelled
    && s'.everReady == s.everReady && s'.out.closed == s.out.closed && s'.cb.closed == s.cb.closed
    && Latched(s, s') && s'.panicked == s.panicked
  }

  predicate SameHistory(l: Lane, l': Lane) {
    l'.worker == l.worker && l'.done == l.done && l'.gone == l.gone && l'.closed == l.closed
  }

  lemma LatchKept(s: Sys, s': Sys)
    requires SameLife(s, s') && LatchOk(s) && PhaseOk(s)
    ensures LatchOk(s') && PhaseOk(s')
  {
  }

  // ---------------------------------------------------------------- a producer in transit

  /** An effect moves the token and the reservation of the producer as it moves the lane's. */
  predicate Balanced(e: Effect, bytes: int, limit: int, token: nat, reserved: int, token': nat, reserved': int) {
    match e
    case Nothing => token' == token && reserved' == reserved
    case SlotUp => token == 0 && token' == 1 && reserved == reserved' == 0
    case SlotDown => token == 1 && token' == 0 && reserved == reserved' == 0
    case BytesUp(size) => token == token' == 1 && reserved == 0 && reserved' == size && bytes + size <= limit
    case BytesDown(size) => token == token' && reserved == size && reserved' == 0
    case Send(item) => token == 1 && reserved == item.bytes && token' == 0 && reserved' == 0
  }

  lemma EffectOk(l: Lane, e: Effect, cap: nat, limit: int, token: nat, reserved: int, token': nat, reserved': int)
    requires LaneOk(l, cap, limit, token, reserved) && Enabled(l, cap, e)
    requires Balanced(e, l.bytes, limit, token, reserved, token', reserved')
    ensures LaneOk(Apply(l, e), cap, limit, token', reserved')
  {
    hide Sum;
    if e.Send? {
      PushOk(l, cap, limit, e.item);
    }
  }

  // ---------------------------------------------------------------- steps of the submitter

  lemma SubmitterBalanced(c: Config, s: Sys, pc: Submitter, op: SubmitOp)
    requires s.submitter == Some(pc) && RoomOk(c, s) && SubmitterMove(c, s, pc, op).Some?
    ensures
      var (pc', e) := SubmitterMove(c, s, pc, op).value;
      Balanced(e, s.out.bytes, c.outLimit, Token(Some(pc)), Bytes(Some(pc)), Token(Some(pc')), Bytes(Some(pc')))
  {
  }

  lemma SubmitterFacts(c: Config, s: Sys, pc: Submitter, op: SubmitOp)
    requires SubmitterMove(c, s, pc, op).Some?
    ensures
      var (pc', e) := SubmitterMove(c, s, pc, op).value;
      && (Committed(Some(pc')) ==> Committed(Some(pc)) || IsReady(s))
      && (e.Send? <==> pc.Minted?) && (e.Send? ==> e.item == pc.item) && !pc'.Minted?
      && (pc'.Fits? ==> e.Nothing? && s.out.bytes + pc'.size <= c.outLimit)
  {
  }

  /** The submitter does not move the lifecycle, the latch or the other lane. */
  lemma SubmitterKeeps(c: Config, s: Sys, op: SubmitOp)
    requires Inv(c, s) && s.submitter.Some? && SubmitterStep(c, s, s.submitter.value, op).Some?
    ensures Inv(c, SubmitterStep(c, s, s.submitter.value, op).value)
  {
    var pc := s.submitter.value;
    SubmitterBalanced(c, s, pc, op);
    SubmitterFacts(c, s, pc, op);
    var (pc', e) := SubmitterMove(c, s, pc, op).value;
    EffectOk(s.out, e, c.outCap, c.outLimit, Token(s.submitter), Bytes(s.submitter), Token(Some(pc')), Bytes(Some(pc')));
    hide SubmitterMove, Balanced, LaneOk, CountersOk, Enabled, Apply;
    NoSendOnClosed(c, s);
    ProducerKeeps(c, s, Some(pc'), e, s.counters);
  }

  /** A submitter with an ID in hand finds its queue open and not full. */
  lemma NoSendOnClosed(c: Config, s: Sys)
    requires Inv(c, s)
    ensures s.submitter.Some? && s.submitter.value.Minted? ==> !s.out.closed && |s.out.queue| < c.outCap
    ensures s.acceptor.Some? && s.acceptor.value.Counted? ==> !s.cb.closed && |s.cb.queue| < c.cbCap
  {
    hide Sum, CountersOk, StartOk, StopOk;
  }

  lemma ProducerKeeps(c: Config, s: Sys, p: Option<Submitter>, e: Effect, counters: Counters)
    requires FlagsOk(s) && StartOk(s) && StopOk(s) && RoomOk(c, s) && s.submitter.Some? && p.Some?
    requires LaneOk(s.cb, c.cbCap, c.cbLimit, CbToken(s.acceptor), CbBytes(s.acceptor))
    requires LaneOk(Apply(s.out, e), c.outCap, c.outLimit, Token(p), Bytes(p))
    requires Committed(p) ==> Committed(s.submitter) || IsReady(s)
    requires e.Send? ==> Committed(s.submitter) && !s.out.closed
    requires p.value.Fits? ==> e.Nothing? && s.out.bytes + p.value.size <= c.outLimit
    requires CountersOk(c.registryCap, AllMinted(Apply(s.out, e).admitted, p), counters.next)
    ensures Inv(c, s.(submitter := p, out := Apply(s.out, e), counters := counters))
  {
    hide LaneOk, CountersOk, Token, Bytes, StopOk, StartOk, Apply;
    EffectFrame(s.out, e);
    var s' := s.(submitter := p, out := Apply(s.out, e), counters := counters);
    StopsWithOutbound(s, s');
    StartsWithOutbound(s, s');
  }

  /** What an effect leaves alone. */
  lemma EffectFrame(l: Lane, e: Effect)
    ensures SameHistory(l, Apply(l, e))
    ensures e.Send? || (Apply(l, e).queue == l.queue && Apply(l, e).admitted == l.admitted)
    ensures e.Nothing? ==> Apply(l, e) == l
  {
  }

  /** A lane whose worker and history stand still; only an open one may gain items. */
  predicate Grows(l: Lane, l': Lane) {
    SameHistory(l, l') && (l.closed ==> l'.queue == l.queue && l'.admitted == l.admitted)
  }

  lemma StopsWithOutbound(s: Sys, s': Sys)
    requires StopOk(s) && PhaseOk(s) && Grows(s.out, s'.out) && s'.cb == s.cb && s'.boss == s.boss && s'.life == s.life
    requires s'.fatal == s.fatal
    ensures StopOk(s')
  {
  }

  lemma StopsWithCallback(s: Sys, s': Sys)
    requires StopOk(s) && PhaseOk(s) && Grows(s.cb, s'.cb) && s'.out == s.out && s'.boss == s.boss && s'.life == s.life
    requires s'.fatal == s.fatal
    ensures StopOk(s')
  {
  }

  lemma StartsWithOutbound(s: Sys, s': Sys)
    requires StartOk(s) && LatchOk(s) && SameHistory(s.out, s'.out) && s'.cb == s.cb && s'.acceptor == s.acceptor
    requires s'.boss == s.boss && s'.life == s.life && s'.everReady == s.everReady
    requires (s'.out.queue == s.out.queue && s'.out.admitted == s.out.admitted) || Committed(s.submitter)
    requires Committed(s'.submitter) ==> Committed(s.submitter) || IsReady(s)
    ensures StartOk(s')
  {
  }

  lemma StartsWithCallback(s: Sys, s': Sys)
    requires StartOk(s) && LatchOk(s) && SameHistory(s.cb, s'.cb) && s'.out == s.out && s'.submitter == s.submitter
    requires s'.boss == s.boss && s'.life == s.life && s'.everReady == s.everReady
    requires (s'.cb.queue == s.cb.queue && s'.cb.admitted == s.cb.admitted) || CbCommitted(s.acceptor)
    requires CbCommitted(s'.acceptor) ==> CbCommitted(s.acceptor) || IsReady(s)
    ensures StartOk(s')
  {
  }

  lemma MintKeeps(c: Config, s: Sys, dest: nat, size: nat)
    requires Inv(c, s) && s.submitter == Some(Reserved(dest, size))
    ensures Inv(c, DoMint(c, s, dest, size))
  {
    hide LaneOk, CountersOk, NextCounter, StopOk, StartOk, FlagsOk, RoomOk;
    MintCounts(c, s.out.admitted, s.counters.next, dest, size);
    var s' := DoMint(c, s, dest, size);
    ProducerKeeps(c, s, s'.submitter, Nothing, s'.counters);
  }

  lemma ReportKeeps(c: Config, s: Sys)
    requires Inv(c, s) && s.submitter == Some(Reporting)
    ensures Inv(c, Fatal(s).(submitter := Some(Leaving)))
  {
    FatalKeeps(c, s);
    hide LaneOk, CountersOk, Fatal, StopOk, StartOk, FlagsOk, RoomOk;
    ProducerKeeps(c, Fatal(s), Some(Leaving), Nothing, Fatal(s).counters);
    FatalProducers(s);
  }

  lemma FatalProducers(s: Sys)
    ensures Fatal(s).submitter == s.submitter && Fatal(s).acceptor == s.acceptor && Fatal(s).counters == s.counters
  {
  }

  lemma LeaveKeeps(c: Config, s: Sys)
    requires Inv(c, s) && s.submitter == Some(Leaving) && s.gate == 0
    ensures Inv(c, s.(submitter := None, gate := 1))
  {
    hide LaneOk, CountersOk, PhaseOk, NothingYet, StopOk;
    LatchKept(s, s.(submitter := None, gate := 1));
    StopKept(s, s.(submitter := None, gate := 1));
  }

  /** What the stop depends on. */
  lemma StopKept(s: Sys, s': Sys)
    requires StopOk(s) && s'.out == s.out && s'.cb == s.cb && s'.boss == s.boss && s'.life == s.life && s'.fatal == s.fatal
    ensures StopOk(s')
  {
  }

  lemma MintCounts(c: Config, admitted: seq<Item>, counters: map<nat, nat>, dest: nat, size: nat)
    requires CountersOk(c.registryCap, admitted, counters)
    ensures
      var n := NextCounter(c, counters, dest);
      n.Some? ==> CountersOk(c.registryCap, admitted + [Item(dest, n.value, size)], counters[dest := n.value + 1])
  {
    hide CountFor, Numbered;
    var n := NextCounter(c, counters, dest);
    if n.Some? {
      var item := Item(dest, n.value, size);
      MintNumbers(admitted, item);
      forall d: nat
        ensures CountFor(admitted + [item], d) == CountFor(admitted, d) + (if d == dest then 1 else 0)
      {
        CountAppend(admitted, item, d);
      }
      if dest !in counters {
        assert counters[dest := n.value + 1].Keys == counters.Keys + {dest};
        assert |counters[dest := n.value + 1].Keys| == |counters.Keys| + 1;
      } else {
        assert counters[dest := n.value + 1].Keys == counters.Keys;
      }
    }
  }

  lemma CountAppend(items: seq<Item>, item: Item, d: nat)
    ensures CountFor(items + [item], d) == CountFor(items, d) + (if d == item.peer then 1 else 0)
  {
    assert (items + [item])[..|items|] == items;
  }

  lemma MintNumbers(items: seq<Item>, item: Item)
    requires Numbered(items) && item.counter == CountFor(items, item.peer)
    ensures Numbered(items + [item])
  {
    hide CountFor;
    var more := items + [item];
    assert more[..|items|] == items;
    forall i | 0 <= i < |items|
      ensures more[i] == items[i] && more[..i] == items[..i]
    {
    }
  }

  // ---------------------------------------------------------------- steps of the acceptor

  lemma AcceptorBalanced(c: Config, s: Sys, pc: Acceptor, op: AcceptOp)
    requires s.acceptor == Some(pc) && RoomOk(c, s) && AcceptorMove(c, s, pc, op).Some?
    ensures
      var (pc', e) := AcceptorMove(c, s, pc, op).value;
      Balanced(e, s.cb.bytes, c.cbLimit, CbToken(Some(pc)), CbBytes(Some(pc)), CbToken(Some(pc')), CbBytes(Some(pc')))
  {
  }

  lemma AcceptorFacts(c: Config, s: Sys, pc: Acceptor, op: AcceptOp)
    requires AcceptorMove(c, s, pc, op).Some?
    ensures
      var (pc', e) := AcceptorMove(c, s, pc, op).value;
      && (CbCommitted(Some(pc')) ==> CbCommitted(Some(pc)) || IsReady(s))
      && (e.Send? <==> pc.Counted?)
      && (pc'.SawRoom? ==> e.Nothing? && s.cb.bytes + pc'.item.bytes <= c.cbLimit)
  {
  }

  lemma AcceptorKeeps(c: Config, s: Sys, op: AcceptOp)
    requires Inv(c, s) && s.acceptor.Some? && AcceptorStep(c, s, s.acceptor.value, op).Some?
    ensures Inv(c, AcceptorStep(c, s, s.acceptor.value, op).value)
  {
    var pc := s.acceptor.value;
    AcceptorBalanced(c, s, pc, op);
    AcceptorFacts(c, s, pc, op);
    var (pc', e) := AcceptorMove(c, s, pc, op).value;
    EffectOk(s.cb, e, c.cbCap, c.cbLimit, CbToken(s.acceptor), CbBytes(s.acceptor), CbToken(Some(pc')), CbBytes(Some(pc')));
    hide AcceptorMove, Balanced, LaneOk, CountersOk, Enabled, Apply;
    NoSendOnClosed(c, s);
    HandlerKeeps(c, s, Some(pc'), e);
  }

  lemma HandlerKeeps(c: Config, s: Sys, p: Option<Acceptor>, e: Effect)
    requires Inv(c, s) && s.acceptor.Some? && p.Some?
    requires LaneOk(Apply(s.cb, e), c.cbCap, c.cbLimit, CbToken(p), CbBytes(p))
    requires CbCommitted(p) ==> CbCommitted(s.acceptor) || IsReady(s)
    requires e.Send? ==> CbCommitted(s.acceptor) && !s.cb.closed
    requires p.value.SawRoom? ==> e.Nothing? && s.cb.bytes + p.value.item.bytes <= c.cbLimit
    ensures Inv(c, s.(acceptor := p, cb := Apply(s.cb, e)))
  {
    hide LaneOk, CountersOk, CbToken, CbBytes, Token, Bytes, AllMinted, StopOk, StartOk, Apply;
    EffectFrame(s.cb, e);
    var s' := s.(acceptor := p, cb := Apply(s.cb, e));
    StopsWithCallback(s, s');
    StartsWithCallback(s, s');
  }

  lemma CbLeaveKeeps(c: Config, s: Sys, refused: nat)
    requires Inv(c, s) && s.acceptor.Some? && s.acceptor.value.Done? && s.mutex == 0
    ensures Inv(c, s.(acceptor := None, mutex := 1, refused := refused))
  {
    hide LaneOk, CountersOk, PhaseOk, NothingYet, StopOk;
    LatchKept(s, s.(acceptor := None, mutex := 1, refused := refused));
    StopKept(s, s.(acceptor := None, mutex := 1, refused := refused));
  }

  // ---------------------------------------------------------------- steps of the workers

  /** A worker that works has started, goes on until it exits, and has work only once something
      was admitted. */
  predicate WorkMoves(l: Lane, l': Lane) {
    && !WorkerStopped(l) && !l'.worker.NotStarted? && l'.admitted == l.admitted && l'.closed == l.closed
    && l'.bytes <= l.bytes
    && (NothingYet(l) ==> NothingYet(l')) && (l.queue == [] ==> l'.queue == [])
    && (ExitOk(l, true) ==> ExitOk(l', true)) && (ExitOk(l, false) ==> ExitOk(l', false))
  }

  lemma WorkFrame(l: Lane, w: Work, cap: nat, limit: int, token: nat, reserved: int)
    requires LaneOk(l, cap, limit, token, reserved) && DoWork(l, w).Some?
    ensures WorkMoves(l, DoWork(l, w).value)
  {
    hide Sum;
    HandNeedsAdmission(l, cap, limit, token, reserved);
    HandBytes(l.worker);
  }

  lemma HandBytes(w: Worker)
    ensures w.Dequeued? || w.Holding? ==> Sum(Hand(w)) == w.item.bytes >= 0
  {
    if w.Dequeued? || w.Holding? {
      SumOne(w.item);
    }
  }

  lemma HandNeedsAdmission(l: Lane, cap: nat, limit: int, token: nat, reserved: int)
    requires LaneOk(l, cap, limit, token, reserved)
    ensures l.admitted == [] ==> l.queue == [] && l.done == [] && l.gone == [] && Hand(l.worker) == []
  {
    hide Sum;
    assert |l.admitted| == |l.done| + |l.gone| + |Hand(l.worker)| + |l.queue|;
  }

  lemma OutboundKeeps(c: Config, s: Sys, w: Work)
    requires Inv(c, s) && DoWork(s.out, w).Some?
    ensures Inv(c, s.(out := DoWork(s.out, w).value))
  {
    hide LaneOk, CountersOk, DoWork, ExitOk, NothingYet, LatchOk, PhaseOk;
    var s' := s.(out := DoWork(s.out, w).value);
    WorkOk(s.out, w, c.outCap, c.outLimit, Token(s.submitter), Bytes(s.submitter));
    WorkFrame(s.out, w, c.outCap, c.outLimit, Token(s.submitter), Bytes(s.submitter));
    LatchKept(s, s');
  }

  lemma CallbackKeeps(c: Config, s: Sys, w: Work)
    requires Inv(c, s) && DoWork(s.cb, w).Some?
    ensures Inv(c, s.(cb := DoWork(s.cb, w).value))
  {
    hide LaneOk, CountersOk, DoWork, ExitOk, NothingYet, LatchOk, PhaseOk;
    var s' := s.(cb := DoWork(s.cb, w).value);
    WorkOk(s.cb, w, c.cbCap, c.cbLimit, CbToken(s.acceptor), CbBytes(s.acceptor));
    WorkFrame(s.cb, w, c.cbCap, c.cbLimit, CbToken(s.acceptor), CbBytes(s.acceptor));
    LatchKept(s, s');
  }

  lemma ExitKeeps(l: Lane, cap: nat, limit: int, token: nat, reserved: int)
    requires LaneOk(l, cap, limit, token, reserved) && l.worker.Failing?
    ensures LaneOk(l.(worker := Exited), cap, limit, token, reserved) && ExitOk(l.(worker := Exited), true)
    ensures !NothingYet(l)
  {
    hide Sum;
  }

  lemma OutboundExits(c: Config, s: Sys)
    requires Inv(c, s) && s.out.worker.Failing?
    ensures Inv(c, Fatal(s).(out := s.out.(worker := Exited)))
  {
    hide LaneOk, CountersOk, NothingYet, LatchOk, PhaseOk;
    ExitKeeps(s.out, c.outCap, c.outLimit, Token(s.submitter), Bytes(s.submitter));
    LatchKept(s, Fatal(s).(out := s.out.(worker := Exited)));
  }

  lemma CallbackExits(c: Config, s: Sys)
    requires Inv(c, s) && s.cb.worker.Failing?
    ensures Inv(c, Fatal(s).(cb := s.cb.(worker := Exited)))
  {
    hide LaneOk, CountersOk, NothingYet, LatchOk, PhaseOk;
    ExitKeeps(s.cb, c.cbCap, c.cbLimit, CbToken(s.acceptor), CbBytes(s.acceptor));
    LatchKept(s, Fatal(s).(cb := s.cb.(worker := Exited)));
  }

  // ---------------------------------------------------------------- steps of the lifecycle

  /** The lanes, the counters and the producers do not depend on the lifecycle. */
  lemma LanesKept(c: Config, s: Sys, s': Sys)
    requires LanesOk(c, s) && RoomOk(c, s)
    requires s'.submitter == s.submitter && s'.acceptor == s.acceptor
    requires LaneTouched(s.out, s'.out) && LaneTouched(s.cb, s'.cb)
    ensures LanesOk(c, s') && RoomOk(c, s') && s'.out.admitted == s.out.admitted
  {
    hide LaneOk, LaneTouched;
    TouchedOk(s.out, s'.out, c.outCap, c.outLimit, Token(s.submitter), Bytes(s.submitter));
    TouchedOk(s.cb, s'.cb, c.cbCap, c.cbLimit, CbToken(s.acceptor), CbBytes(s.acceptor));
  }

  /** What the lifecycle does to a lane: nothing, start its worker, close it, or drain it. */
  predicate LaneTouched(l: Lane, l': Lane) {
    || l' == l
    || (l.worker.NotStarted? && NothingYet(l) && l' == l.(worker := Waiting))
    || l' == l.(closed := true)
    || (l.worker.Exited? && DrainOne(l) == Some(l'))
  }

  lemma TouchedOk(l: Lane, l': Lane, cap: nat, limit: int, token: nat, reserved: int)
    requires LaneOk(l, cap, limit, token, reserved) && LaneTouched(l, l')
    ensures LaneOk(l', cap, limit, token, reserved) && l'.admitted == l.admitted && l'.bytes <= l.bytes
  {
    hide Sum;
    if l.queue != [] && l.worker.Exited? {
      DrainOk(l, cap, limit, token, reserved);
    }
  }

  lemma StartLocks(s: Sys, op: StartOp)
    requires FlagsOk(s) && StartOk(s) && StartStep(s, op).Some?
    ensures LocksOk(StartStep(s, op).value)
  {
    match op
    case StartCall =>
    case ListenDone(_) =>
    case RegisterDone(_) =>
    case AnnounceReady =>
  }

  lemma StartPhase(s: Sys, op: StartOp)
    requires FlagsOk(s) && StartOk(s) && StartStep(s, op).Some?
    ensures LatchOk(StartStep(s, op).value) && PhaseOk(StartStep(s, op).value)
  {
    match op
    case StartCall =>
    case ListenDone(_) =>
    case RegisterDone(_) =>
    case AnnounceReady =>
  }

  lemma StartStarts(s: Sys, op: StartOp)
    requires FlagsOk(s) && StartOk(s) && StartStep(s, op).Some?
    ensures StartOk(StartStep(s, op).value)
  {
    hide LocksOk;
    match op
    case StartCall =>
    case ListenDone(_) =>
    case RegisterDone(_) =>
    case AnnounceReady =>
  }

  lemma StartStops(s: Sys, op: StartOp)
    requires FlagsOk(s) && StartOk(s) && StopOk(s) && StartStep(s, op).Some?
    ensures StopOk(StartStep(s, op).value)
  {
    hide LocksOk, LatchOk;
  }

  lemma StartOnLanes(s: Sys, op: StartOp)
    requires StartOk(s) && StartStep(s, op).Some?
    ensures
      var s' := StartStep(s, op).value;
      && s'.out == (if op.ListenDone? && op.ok then s.out.(worker := Waiting) else s.out)
      && s'.cb == (if op.ListenDone? && op.ok then s.cb.(worker := Waiting) else s.cb)
  {
  }

  lemma StartOnProducers(s: Sys, op: StartOp)
    requires StartOk(s) && StartStep(s, op).Some?
    ensures
      var s' := StartStep(s, op).value;
      && s'.submitter == s.submitter && s'.acceptor == s.acceptor && s'.counters == s.counters
      && (op.ListenDone? && op.ok ==> s.out.worker.NotStarted? && s.cb.worker.NotStarted? && NothingYet(s.out) && NothingYet(s.cb))
  {
    hide NothingYet, Committed, CbCommitted;
    match op
    case StartCall =>
    case ListenDone(_) =>
    case RegisterDone(_) =>
    case AnnounceReady =>
  }

  lemma StartingTouches(l: Lane)
    requires l.worker.NotStarted? && NothingYet(l)
    ensures LaneTouched(l, l.(worker := Waiting))
  {
  }

  lemma StartKeeps(c: Config, s: Sys, op: StartOp)
    requires Inv(c, s) && StartStep(s, op).Some?
    ensures Inv(c, StartStep(s, op).value)
  {
    hide LanesOk, RoomOk, LocksOk, LatchOk, PhaseOk, StartOk, StopOk, CountersOk, StartStep, LaneTouched;
    StartLocks(s, op);
    StartPhase(s, op);
    StartStarts(s, op);
    StartStops(s, op);
    StartOnLanes(s, op);
    StartOnProducers(s, op);
    if op.ListenDone? && op.ok {
      StartingTouches(s.out);
      StartingTouches(s.cb);
    } else {
      ClosingTouches(s.out, s.out);
      ClosingTouches(s.cb, s.cb);
    }
    LanesKept(c, s, StartStep(s, op).value);
  }

  lemma ClosingTouches(l: Lane, l': Lane)
    requires l' == l.(closed := l'.closed) && (l.closed ==> l'.closed)
    ensures LaneTouched(l, l')
  {
  }

  lemma StopLocks(s: Sys, op: StopOp)
    requires FlagsOk(s) && StopStep(s, op).Some?
    ensures LocksOk(StopStep(s, op).value)
  {
    hide WorkerStopped;
  }

  lemma StopPhase(s: Sys, op: StopOp)
    requires FlagsOk(s) && StopStep(s, op).Some?
    ensures LatchOk(StopStep(s, op).value) && PhaseOk(StopStep(s, op).value)
  {
    hide WorkerStopped;
  }

  lemma StopStarts(s: Sys, op: StopOp)
    requires FlagsOk(s) && StartOk(s) && StopStep(s, op).Some?
    ensures StartOk(StopStep(s, op).value)
  {
    hide Committed, CbCommitted, LocksOk, WorkerStopped;
  }

  lemma StopStops(s: Sys, op: StopOp)
    requires FlagsOk(s) && StopOk(s) && StopStep(s, op).Some?
    ensures StopOk(StopStep(s, op).value)
  {
    hide LocksOk;
  }

  lemma StopOnLanes(s: Sys, op: StopOp)
    requires StopStep(s, op).Some?
    ensures
      var s' := StopStep(s, op).value;
      && s'.out == (if op.DoCloseOutbound? && !s.out.closed then s.out.(closed := true) else s.out)
      && s'.cb == s.cb
  {
    hide WorkerStopped;
  }

  lemma StopOnProducers(s: Sys, op: StopOp)
    requires StopStep(s, op).Some?
    ensures
      var s' := StopStep(s, op).value;
      s'.submitter == s.submitter && s'.acceptor == s.acceptor
  {
    match op
    case StopCall =>
    case DoSetFlags =>
    case DoCancel =>
    case DoGrabGate =>
    case DoCloseOutbound =>
    case DoReturnGate =>
  }

  lemma StopOnCounters(s: Sys, op: StopOp)
    requires StopStep(s, op).Some?
    ensures StopStep(s, op).value.counters == s.counters
  {
    match op
    case StopCall =>
    case DoSetFlags =>
    case DoCancel =>
    case DoGrabGate =>
    case DoCloseOutbound =>
    case DoReturnGate =>
  }

  lemma StopKeeps(c: Config, s: Sys, op: StopOp)
    requires Inv(c, s) && StopStep(s, op).Some?
    ensures Inv(c, StopStep(s, op).value)
  {
    hide LanesOk, RoomOk, LocksOk, LatchOk, PhaseOk, StartOk, StopOk, CountersOk, StopStep, LaneTouched;
    StopLocks(s, op);
    StopPhase(s, op);
    StopStarts(s, op);
    StopStops(s, op);
    StopOnLanes(s, op);
    StopOnProducers(s, op);
    StopOnCounters(s, op);
    ClosingTouches(s.out, StopStep(s, op).value.out);
    ClosingTouches(s.cb, StopStep(s, op).value.cb);
    LanesKept(c, s, StopStep(s, op).value);
  }

  lemma FinishLocks(s: Sys, op: FinishOp)
    requires FlagsOk(s) && FinishStep(s, op).Some?
    ensures LocksOk(FinishStep(s, op).value)
  {
    hide WorkerStopped;
  }

  lemma FinishPhase(s: Sys, op: FinishOp)
    requires FlagsOk(s) && FinishStep(s, op).Some?
    ensures LatchOk(FinishStep(s, op).value) && PhaseOk(FinishStep(s, op).value)
  {
    hide WorkerStopped;
  }

  lemma FinishStarts(s: Sys, op: FinishOp)
    requires FlagsOk(s) && StartOk(s) && FinishStep(s, op).Some?
    ensures StartOk(FinishStep(s, op).value)
  {
    hide Committed, CbCommitted, LocksOk, WorkerStopped;
  }

  lemma FinishStops(s: Sys, op: FinishOp)
    requires FlagsOk(s) && StopOk(s) && FinishStep(s, op).Some?
    ensures StopOk(FinishStep(s, op).value)
  {
    hide LocksOk;
  }

  lemma FinishOnLanes(s: Sys, op: FinishOp)
    requires FinishStep(s, op).Some?
    ensures
      var s' := FinishStep(s, op).value;
      && s'.cb == (if op.DoCloseCallback? && !s.cb.closed then s.cb.(closed := true) else s.cb)
      && s'.out == s.out
  {
    hide WorkerStopped;
  }

  lemma FinishOnProducers(s: Sys, op: FinishOp)
    requires FinishStep(s, op).Some?
    ensures
      var s' := FinishStep(s, op).value;
      s'.submitter == s.submitter && s'.acceptor == s.acceptor
  {
    match op
    case DoGrabMutex =>
    case DoCloseCallback =>
    case DoReturnMutex =>
    case WorkersDone =>
    case WorkersTimeout =>
    case DoFinish =>
  }

  lemma FinishOnCounters(s: Sys, op: FinishOp)
    requires FinishStep(s, op).Some?
    ensures FinishStep(s, op).value.counters == s.counters
  {
    match op
    case DoGrabMutex =>
    case DoCloseCallback =>
    case DoReturnMutex =>
    case WorkersDone =>
    case WorkersTimeout =>
    case DoFinish =>
  }

  lemma FinishKeeps(c: Config, s: Sys, op: FinishOp)
    requires Inv(c, s) && FinishStep(s, op).Some?
    ensures Inv(c, FinishStep(s, op).value)
  {
    hide LanesOk, RoomOk, LocksOk, LatchOk, PhaseOk, StartOk, StopOk, CountersOk, FinishStep, LaneTouched;
    FinishLocks(s, op);
    FinishPhase(s, op);
    FinishStarts(s, op);
    FinishStops(s, op);
    FinishOnLanes(s, op);
    FinishOnProducers(s, op);
    FinishOnCounters(s, op);
    ClosingTouches(s.out, FinishStep(s, op).value.out);
    ClosingTouches(s.cb, FinishStep(s, op).value.cb);
    LanesKept(c, s, FinishStep(s, op).value);
  }

  lemma DrainKeeps(c: Config, s: Sys, op: DrainOp)
    requires Inv(c, s) && DrainStep(s, op).Some?
    ensures Inv(c, DrainStep(s, op).value)
  {
    hide LaneOk, CountersOk, Token, Bytes, CbToken, CbBytes, RoomOk, LanesOk;
    LanesKept(c, s, DrainStep(s, op).value);
  }

  // ---------------------------------------------------------------- the remaining steps

  lemma FatalKeeps(c: Config, s: Sys)
    requires Inv(c, s)
    ensures Inv(c, Fatal(s))
  {
    hide LaneOk, CountersOk, PhaseOk, NothingYet;
    LatchKept(s, Fatal(s));
  }

  lemma RefuseKeeps(c: Config, s: Sys, n: nat)
    requires Inv(c, s)
    ensures Inv(c, s.(refused := n))
  {
    hide LaneOk, CountersOk, PhaseOk, NothingYet;
    LatchKept(s, s.(refused := n));
  }

  lemma TakeGateKeeps(c: Config, s: Sys, dest: nat, size: nat, blocking: bool)
    requires Inv(c, s) && s.gate > 0
    ensures Inv(c, s.(gate := s.gate - 1, submitter := Some(HasGate(dest, size, blocking))))
  {
    hide LaneOk, CountersOk, PhaseOk, NothingYet;
    LatchKept(s, s.(gate := s.gate - 1, submitter := Some(HasGate(dest, size, blocking))));
  }

  lemma CbEnterKeeps(c: Config, s: Sys, item: Item)
    requires Inv(c, s) && s.mutex > 0
    ensures Inv(c, s.(mutex := s.mutex - 1, acceptor := Some(Entered(item))))
  {
    hide LaneOk, CountersOk, PhaseOk, NothingYet;
    LatchKept(s, s.(mutex := s.mutex - 1, acceptor := Some(Entered(item))));
  }

  // ---------------------------------------------------------------- whole runs

  lemma NextKeeps(c: Config, s: Sys, step: Step)
    requires Inv(c, s) && Next(c, s, step).Some?
    ensures Inv(c, Next(c, s, step).value)
  {
    hide Inv, SubmitterStep, AcceptorStep, StartStep, StopStep, FinishStep, DrainStep, DoWork, DoMint;
    match step
    case TakeGate(dest, size, blocking) => TakeGateKeeps(c, s, dest, size, blocking);
    case CbEnter(item) => CbEnterKeeps(c, s, item);
    case CbRefuse =>
      FatalKeeps(c, s);
      RefuseKeeps(c, if s.stopping then s else Fatal(s), s.refused - 1);
    case InvalidSubmission => FatalKeeps(c, s);
    case ListenerFails => FatalKeeps(c, s);
    case BySubmitter(op) => SubmitterKeeps(c, s, op);
    case ByAcceptor(op) => AcceptorKeeps(c, s, op);
    case ByOutbound(w) => OutboundKeeps(c, s, w);
    case ByCallback(w) => CallbackKeeps(c, s, w);
    case OutboundExit => OutboundExits(c, s);
    case CallbackExit => CallbackExits(c, s);
    case Mint => MintKeeps(c, s, s.submitter.value.dest, s.submitter.value.size);
    case Report => ReportKeeps(c, s);
    case Leave => LeaveKeeps(c, s);
    case CbLeave => CbLeaveKeeps(c, s, if s.acceptor.value.accepted then s.refused else s.refused + 1);
    case ByStart(op) => StartKeeps(c, s, op);
    case ByStop(op) => StopKeeps(c, s, op);
    case ByFinish(op) => FinishKeeps(c, s, op);
    case ByDrain(op) => DrainKeeps(c, s, op);
  }

  predicate ValidConfig(c: Config) {
    c.outLimit >= 0 && c.cbLimit >= 0
  }

  /** The invariant holds in every state of every interleaving. */
  lemma {:induction false} RunKeeps(c: Config, steps: seq<Step>)
    requires ValidConfig(c) && Run(c, steps).Some?
    ensures Inv(c, Run(c, steps).value)
  {
    if steps == [] {
      InitOk(c);
    } else {
      hide Inv, Next;
      RunKeeps(c, steps[..|steps| - 1]);
      NextKeeps(c, Run(c, steps[..|steps| - 1]).value, steps[|steps| - 1]);
    }
  }

  lemma InitOk(c: Config)
    requires ValidConfig(c)
    ensures Inv(c, INIT)
  {
  }
}
