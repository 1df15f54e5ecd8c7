/** Restoring a snapshot: one applier takes chunks from the queue and follows the application's
    answers, while fetchers allocate and add chunks in between. */
module ChunkSync {
  import opened Wrappers
  import opened Chunks

  /** What happened to chunks, in order. A discard counts only for chunks it removed. */
  datatype Event =
    | Allocated(index: nat) | Applied(index: nat, body: seq<nat>) | Retried(index: nat) | RetriedAll
    | Removed(indices: set<nat>)

  datatype Verdict = Accept | Retry | RetrySnapshot | GiveUp

  datatype Outcome = Restored | StartOver | Failed

  datatype Answer = Answer(refetch: seq<nat>, reject: seq<Peer>, verdict: Verdict)

  datatype Applier =
    | Idle
    | Waiting(index: nat)                     // the chunk is handed out but has not arrived
    | Applying(index: nat, body: seq<nat>)    // the chunk, as it was read, is with the application
    | Following(index: nat, answer: Answer)   // the application's wishes are carried out
    | Returned(outcome: Outcome, open: bool)

  datatype Restore = Restore(q: Queue, applier: Applier, log: seq<Event>)

  datatype Step =
    | Arrive(chunk: Chunk)
    | Fetch
    | Close
    | TakeNext
    | Wake
    | TimeOut
    | Answered(answer: Answer)
    | CallFails
    | Refetch
    | RejectSender
    | Conclude
    | RetryAll

  function Follow(r: Restore, index: nat, answer: Answer, step: Step): Option<Restore> {
    match step
    case Refetch =>
      if answer.refetch == [] then None
      else
        var i := answer.refetch[0];
        Some(Restore(Discarded(r.q, {i}), Following(index, answer.(refetch := answer.refetch[1..])), Gone(r, {i})))
    case RejectSender =>
      if answer.refetch != [] || answer.reject == [] then None
      else
        var p, rest := answer.reject[0], Following(index, answer.(reject := answer.reject[1..]));
        if p == NO_PEER then Some(r.(applier := rest))
        else Some(Restore(SenderDiscarded(r.q, p), rest, Gone(r, FromSender(r.q, p))))
    case Conclude =>
      if answer.refetch != [] || answer.reject != [] then None
      else if answer.verdict.GiveUp? then Some(r.(applier := Returned(Failed, !r.q.closed)))
      else if answer.verdict.RetrySnapshot? then Some(r.(applier := Returned(StartOver, !r.q.closed)))
      else if answer.verdict.Retry? then
        Some(Restore(r.q.(returned := r.q.returned - {index}), Idle, r.log + [Retried(index)]))
      else Some(r.(applier := Idle))
    case _ => None
  }

  /** The log after a discard of `keys`. */
  function Gone(r: Restore, keys: set<nat>): seq<Event> {
    r.log + [Removed(if r.q.closed then {} else keys * r.q.files.Keys)]
  }

  function Next(r: Restore, step: Step): Option<Restore> {
    match step
    case Arrive(chunk) => Some(r.(q := AddChunk(r.q, chunk)))
    case Fetch =>
      var i := Unallocated(r.q);
      if i.None? then None else Some(r.(q := r.q.(taken := r.q.taken + {i.value}), log := r.log + [Allocated(i.value)]))
    case Close => Some(r.(q := r.q.(closed := true)))
    case TakeNext =>
      if !r.applier.Idle? then None
      else
        var i := NextUp(r.q);
        if i.None? then Some(r.(applier := Returned(Restored, !r.q.closed)))
        else Some(r.(q := r.q.(returned := r.q.returned + {i.value}),
                     applier := if i.value in r.q.files then Applying(i.value, r.q.files[i.value]) else Waiting(i.value)))
    case Wake =>
      if !r.applier.Waiting? then None
      else if r.q.closed then Some(r.(applier := Returned(Restored, false)))
      else if r.applier.index in r.q.files then
        Some(r.(q := r.q.(returned := r.q.returned + {r.applier.index}),
                applier := Applying(r.applier.index, r.q.files[r.applier.index])))
      else None
    case TimeOut => if r.applier.Waiting? then Some(r.(applier := Returned(Failed, !r.q.closed))) else None
    case Answered(answer) =>
      if r.applier.Applying?
      then Some(r.(applier := Following(r.applier.index, answer), log := r.log + [Applied(r.applier.index, r.applier.body)]))
      else None
    case CallFails => if r.applier.Applying? then Some(r.(applier := Returned(Failed, !r.q.closed))) else None
    case RetryAll =>
      if r.applier.Returned? && r.applier.outcome.StartOver?
      then Some(Restore(r.q.(returned := {}), Idle, r.log + [RetriedAll])) else None
    case _ => if r.applier.Following? then Follow(r, r.applier.index, r.applier.answer, step) else None
  }

  function Run(q: Queue, steps: seq<Step>): Option<Restore> {
    if steps == [] then Some(Restore(q, Idle, []))
    else match Run(q, steps[..|steps| - 1])
      case None => None
      case Some(r) => Next(r, steps[|steps| - 1])
  }

  // ---------------------------------------------------------------- reading the log

  /** The body of a chunk whose last event was its application; nothing if it was never applied, or
      retried or removed since. */
  function LastApplied(log: seq<Event>, i: nat): Option<seq<nat>> {
    if log == [] then None else AppliedAfter(log[|log| - 1], LastApplied(log[..|log| - 1], i), i)
  }

  function AppliedAfter(e: Event, before: Option<seq<nat>>, i: nat): Option<seq<nat>> {
    match e
    case Allocated(_) => before
    case Applied(k, body) => if k == i then Some(body) else before
    case Retried(k) => if k == i then None else before
    case RetriedAll => None
    case Removed(keys) => if i in keys then None else before
  }

  /** The chunk was allocated, and not removed since. */
  predicate Claimed(log: seq<Event>, i: nat) {
    log != [] && ClaimedAfter(log[|log| - 1], Claimed(log[..|log| - 1], i), i)
  }

  predicate ClaimedAfter(e: Event, before: bool, i: nat) {
    match e
    case Allocated(k) => k == i || before
    case Applied(_, _) => before
    case Retried(_) => before
    case RetriedAll => before
    case Removed(keys) => i !in keys && before
  }

  /** Between two allocations of a chunk lies a removal of it. */
  predicate Separated(log: seq<Event>) {
    forall a, b :: 0 <= a < b < |log| && log[a].Allocated? && log[b] == log[a] ==> RemovedBetween(log, a, b, log[a].index)
  }

  predicate RemovedBetween(log: seq<Event>, a: int, b: int, i: nat)
    requires 0 <= a < b < |log|
  {
    exists c :: a < c < b && log[c].Removed? && i in log[c].indices
  }

  predicate InHand(a: Applier, i: nat) {
    (a.Waiting? || a.Applying?) && a.index == i
  }

  /** The chunks handed out are those last applied, and the one in hand. */
  ghost predicate MarksOk(q: Queue, a: Applier, log: seq<Event>) {
    (a.Returned? ==> a.outcome.Restored? && a.open) ==> forall i: nat :: i in q.returned <==> LastApplied(log, i).Some? || InHand(a, i)
  }

  ghost predicate ClaimsOk(q: Queue, log: seq<Event>) {
    forall i: nat :: i in q.taken <==> Claimed(log, i)
  }

  ghost predicate DoneOk(q: Queue, a: Applier, log: seq<Event>) {
    a.Returned? && a.outcome.Restored? && a.open ==> forall i :: 0 <= i < q.size ==> LastApplied(log, i).Some?
  }

  /** What was last applied, and what is with the application, is what is stored. */
  ghost predicate BodiesOk(q: Queue, a: Applier, log: seq<Event>) {
    && (a.Applying? ==> a.index in q.files && q.files[a.index] == a.body)
    && forall i: nat :: LastApplied(log, i).Some? ==> i in q.files && q.files[i] == LastApplied(log, i).value
  }

  ghost predicate Inv(r: Restore) {
    && BodiesOk(r.q, r.applier, r.log) && MarksOk(r.q, r.applier, r.log) && DoneOk(r.q, r.applier, r.log)
    && ClaimsOk(r.q, r.log) && Separated(r.log)
  }

  // ---------------------------------------------------------------- one more event

  lemma Appended(log: seq<Event>, e: Event, i: nat)
    ensures LastApplied(log + [e], i) == AppliedAfter(e, LastApplied(log, i), i)
    ensures Claimed(log + [e], i) <==> ClaimedAfter(e, Claimed(log, i), i)
  {
    assert (log + [e])[..|log|] == log;
  }

  lemma {:induction false} RemovedSince(log: seq<Event>, a: nat)
    requires a < |log| && log[a].Allocated? && !Claimed(log, log[a].index)
    ensures exists c :: a < c < |log| && log[c].Removed? && log[a].index in log[c].indices
  {
    var front, last := log[..|log| - 1], log[|log| - 1];
    if last.Removed? && log[a].index in last.indices {
      assert a < |log| - 1;
    } else {
      assert a < |front| && front[a] == log[a];
      RemovedSince(front, a);
      var c :| a < c < |front| && front[c].Removed? && log[a].index in front[c].indices;
      assert log[c] == front[c];
    }
  }

  lemma SeparatedGrows(log: seq<Event>, e: Event)
    requires Separated(log) && (e.Allocated? ==> !Claimed(log, e.index))
    ensures Separated(log + [e])
  {
    hide Claimed;
    var more := log + [e];
    forall a, b | 0 <= a < b < |more| && more[a].Allocated? && more[b] == more[a]
      ensures RemovedBetween(more, a, b, more[a].index)
    {
      if b < |log| {
        assert RemovedBetween(log, a, b, log[a].index);
        var c :| a < c < b && log[c].Removed? && log[a].index in log[c].indices;
        assert more[c] == log[c];
      } else {
        RemovedSince(log, a);
        var c :| a < c < |log| && log[c].Removed? && log[a].index in log[c].indices;
        assert more[c] == log[c];
      }
    }
  }

  // ---------------------------------------------------------------- steps

  /** Removing stored chunks takes their marks with them. */
  lemma RemovalKeeps(r: Restore, keys: set<nat>, q: Queue, next: Applier)
    requires Inv(r) && r.applier.Following? && next.Following? && next.index == r.applier.index
    requires q == Discarded(r.q, keys).(senders := q.senders)
    ensures Inv(Restore(q, next, Gone(r, keys)))
  {
    hide LastApplied, Claimed, Separated;
    var e := Removed(if r.q.closed then {} else keys * r.q.files.Keys);
    SeparatedGrows(r.log, e);
    forall i: nat
      ensures LastApplied(r.log + [e], i) == if i in e.indices then None else LastApplied(r.log, i)
      ensures Claimed(r.log + [e], i) <==> i !in e.indices && Claimed(r.log, i)
    {
      Appended(r.log, e, i);
    }
  }

  lemma FollowKeeps(r: Restore, step: Step)
    requires Inv(r) && r.applier.Following? && Follow(r, r.applier.index, r.applier.answer, step).Some?
    ensures Inv(Follow(r, r.applier.index, r.applier.answer, step).value)
  {
    hide LastApplied, Claimed, Separated, Discarded, FromSender, Gone;
    var index, answer := r.applier.index, r.applier.answer;
    var r' := Follow(r, index, answer, step).value;
    match step
    case Refetch =>
      SendersKept(r.q, {answer.refetch[0]});
      RemovalKeeps(r, {answer.refetch[0]}, r'.q, r'.applier);
    case RejectSender =>
      if answer.reject[0] != NO_PEER {
        RemovalKeeps(r, FromSender(r.q, answer.reject[0]), r'.q, r'.applier);
      }
    case Conclude =>
      if answer.verdict.Retry? {
        var e := Retried(index);
        SeparatedGrows(r.log, e);
        forall i: nat
          ensures LastApplied(r.log + [e], i) == if i == index then None else LastApplied(r.log, i)
          ensures Claimed(r.log + [e], i) <==> Claimed(r.log, i)
        {
          Appended(r.log, e, i);
        }
      }
  }

  lemma SendersKept(q: Queue, keys: set<nat>)
    ensures Discarded(q, keys).senders == q.senders
  {
  }

  lemma FetchKeeps(r: Restore)
    requires Inv(r) && Next(r, Fetch).Some?
    ensures Inv(Next(r, Fetch).value)
  {
    hide LastApplied, Claimed, Separated;
    var e := Allocated(Unallocated(r.q).value);
    SeparatedGrows(r.log, e);
    forall i: nat
      ensures LastApplied(r.log + [e], i) == LastApplied(r.log, i)
      ensures Claimed(r.log + [e], i) <==> i == e.index || Claimed(r.log, i)
    {
      Appended(r.log, e, i);
    }
  }

  lemma RetryAllKeeps(r: Restore)
    requires Inv(r) && Next(r, RetryAll).Some?
    ensures Inv(Next(r, RetryAll).value)
  {
    hide LastApplied, Claimed, Separated;
    SeparatedGrows(r.log, RetriedAll);
    forall i: nat
      ensures LastApplied(r.log + [RetriedAll], i).None? && (Claimed(r.log + [RetriedAll], i) <==> Claimed(r.log, i))
    {
      Appended(r.log, RetriedAll, i);
    }
  }

  lemma AnsweredKeeps(r: Restore, answer: Answer)
    requires Inv(r) && r.applier.Applying?
    ensures Inv(Next(r, Answered(answer)).value)
  {
    hide LastApplied, Claimed, Separated;
    var e := Applied(r.applier.index, r.applier.body);
    SeparatedGrows(r.log, e);
    forall i: nat
      ensures LastApplied(r.log + [e], i) == if i == e.index then Some(e.body) else LastApplied(r.log, i)
      ensures Claimed(r.log + [e], i) <==> Claimed(r.log, i)
    {
      Appended(r.log, e, i);
    }
  }

  lemma NextKeeps(r: Restore, step: Step)
    requires Inv(r) && Next(r, step).Some?
    ensures Inv(Next(r, step).value)
  {
    hide LastApplied, Claimed, Separated, Follow;
    match step
    case Fetch => FetchKeeps(r);
    case Answered(answer) => AnsweredKeeps(r, answer);
    case RetryAll => RetryAllKeeps(r);
    case Refetch => FollowKeeps(r, step);
    case RejectSender => FollowKeeps(r, step);
    case Conclude => FollowKeeps(r, step);
    case _ =>
  }

  lemma {:induction false} RunKeeps(height: nat, format: nat, size: nat, steps: seq<Step>)
    requires Run(NewQueue(height, format, size), steps).Some?
    ensures Inv(Run(NewQueue(height, format, size), steps).value)
  {
    hide Inv, Next;
    var q := NewQueue(height, format, size);
    if steps == [] {
      FreshKeeps(height, format, size);
    } else {
      RunKeeps(height, format, size, steps[..|steps| - 1]);
      NextKeeps(Run(q, steps[..|steps| - 1]).value, steps[|steps| - 1]);
    }
  }

  lemma FreshKeeps(height: nat, format: nat, size: nat)
    ensures Inv(Restore(NewQueue(height, format, size), Idle, []))
  {
  }

  lemma {:induction false} SizeStays(q: Queue, steps: seq<Step>)
    requires Run(q, steps).Some?
    ensures Run(q, steps).value.q.size == q.size
  {
    if steps != [] {
      SizeStays(q, steps[..|steps| - 1]);
      hide Discarded, FromSender, AddChunk;
      SizeKept(Run(q, steps[..|steps| - 1]).value, steps[|steps| - 1]);
    }
  }

  lemma SizeKept(r: Restore, step: Step)
    requires Next(r, step).Some?
    ensures Next(r, step).value.q.size == r.q.size
  {
  }

  /** If the applier succeeds on a queue that was still open, be it after starting over any number of
      times, the last thing that happened to every chunk of the snapshot is the application of the body
      stored for it; and over the whole run, two allocations of a chunk are always separated by a discard
      that removed it. */
  lemma RestoredCompletely(height: nat, format: nat, size: nat, steps: seq<Step>)
    requires Run(NewQueue(height, format, size), steps).Some?
    ensures
      var r := Run(NewQueue(height, format, size), steps).value;
      && (r.applier == Returned(Restored, true) ==> forall i :: 0 <= i < size ==>
            i in r.q.files && LastApplied(r.log, i) == Some(r.q.files[i]))
      && Separated(r.log)
  {
    hide Run, LastApplied, Separated;
    RunKeeps(height, format, size, steps);
    SizeStays(NewQueue(height, format, size), steps);
  }

  // ---------------------------------------------------------------- getting done

  /** The application takes the chunk and wishes nothing. */
  const ACCEPTED := Answer([], [], Accept)

  /** The applier on its own, with everything stored and accepted. */
  function Finish(r: Restore): Restore
    decreases if NextUp(r.q).None? then 0 else r.q.size - Min(r.q.size, NextUp(r.q).value) + 1
  {
    var taken := Next(r, TakeNext);
    if taken.None? || NextUp(r.q).None? then (if taken.None? then r else taken.value)
    else
      var answered := Next(taken.value, Answered(ACCEPTED));
      var done := if answered.None? then None else Next(answered.value, Conclude);
      if done.None? || !Later(NextUp(r.q), NextUp(done.value.q), r.q.size, done.value.q.size) then r else Finish(done.value)
  }

  predicate Later(i: Option<nat>, j: Option<nat>, size: nat, size': nat) {
    size == size' && i.Some? && i.value < size && (j.None? || i.value < j.value)
  }

  /** One chunk is taken, applied and accepted. */
  lemma OneApplied(r: Restore, i: nat)
    requires r.applier.Idle? && !r.q.closed && NextUp(r.q) == Some(i) && i in r.q.files
    ensures
      var taken := Next(r, TakeNext);
      && taken.Some? && Next(taken.value, Answered(ACCEPTED)).Some?
      && Next(Next(taken.value, Answered(ACCEPTED)).value, Conclude)
         == Some(Restore(r.q.(returned := r.q.returned + {i}), Idle, r.log + [Applied(i, r.q.files[i])]))
  {
    hide FirstMissing;
  }

  lemma NextIsLater(q: Queue, i: nat)
    requires !q.closed && NextUp(q) == Some(i)
    ensures Later(Some(i), NextUp(q.(returned := q.returned + {i})), q.size, q.size)
  {
  }

  /** With every chunk stored and an application that accepts them all, an applier on an open queue comes
      to the end of the snapshot, whatever was applied, retried or refetched before. */
  lemma {:induction false} Finishes(r: Restore)
    requires r.applier.Idle? && !r.q.closed && forall i :: 0 <= i < r.q.size ==> i in r.q.files
    ensures Finish(r).applier == Returned(Restored, true) && Finish(r).q.files == r.q.files
    decreases if NextUp(r.q).None? then 0 else r.q.size - Min(r.q.size, NextUp(r.q).value) + 1
  {
    hide FirstMissing, Next, Follow;
    var i := NextUp(r.q);
    if i.None? {
      LastTaken(r);
    } else {
      OneApplied(r, i.value);
      NextIsLater(r.q, i.value);
      Finishes(Restore(r.q.(returned := r.q.returned + {i.value}), Idle, r.log + [Applied(i.value, r.q.files[i.value])]));
    }
  }

  lemma LastTaken(r: Restore)
    requires r.applier.Idle? && !r.q.closed && NextUp(r.q).None?
    ensures Next(r, TakeNext) == Some(r.(applier := Returned(Restored, true)))
  {
    hide FirstMissing;
  }

  /** A chunk that is waited for is applied as soon as it has arrived; the wait can time out at any moment,
      and ends when the queue is closed. */
  lemma ArrivalWakes(r: Restore, c: Chunk)
    requires r.applier == Waiting(c.index) && !r.q.closed && Fits(r.q, c) && c.index !in r.q.files
    ensures
      var arrived := Next(r, Arrive(c));
      && arrived.Some? && Next(arrived.value, Wake).Some?
      && Next(arrived.value, Wake).value.applier == Applying(c.index, c.body)
    ensures Next(r, TimeOut) == Some(r.(applier := Returned(Failed, true)))
    ensures Next(r.(q := r.q.(closed := true)), Wake) == Some(r.(q := r.q.(closed := true), applier := Returned(Restored, false)))
  {
  }
}
