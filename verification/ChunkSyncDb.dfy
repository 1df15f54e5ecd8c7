/** Restoring a snapshot as the source runs it: each step is a call on the shared queue. */
module ChunkSyncDb {
  import opened Wrappers
  import opened Chunks
  import opened ChunkSync

  /** The applier carries out the application's wishes. */
  method DoFollow(q: ChunkQueue, index: nat, answer: ChunkSync.Answer, step: Step, ghost log: seq<Event>)
    returns (ok: bool, applier: Applier, ghost log': seq<Event>)
    requires q.Valid()
    modifies q
    ensures q.Valid()
    ensures
      var next := Follow(Restore(old(q.View()), Following(index, answer), log), index, answer, step);
      if ok then Some(Restore(q.View(), applier, log')) == next else next.None? && q.View() == old(q.View())
  {
    ghost var r := Restore(q.View(), Following(index, answer), log);
    ok, applier, log' := true, Following(index, answer), log;
    match step
    case Refetch =>
      if answer.refetch == [] {
        return false, applier, log;
      }
      log' := Gone(r, {answer.refetch[0]});
      q.Discard(answer.refetch[0]);
      applier := Following(index, answer.(refetch := answer.refetch[1..]));
    case RejectSender =>
      if answer.refetch != [] || answer.reject == [] {
        return false, applier, log;
      }
      var p := answer.reject[0];
      applier := Following(index, answer.(reject := answer.reject[1..]));
      if p != NO_PEER {
        log' := Gone(r, FromSender(r.q, p));
        q.DiscardSender(p);
      }
    case Conclude =>
      if answer.refetch != [] || answer.reject != [] {
        return false, applier, log;
      }
      match answer.verdict {
        case GiveUp => applier := Returned(Failed, !q.closed);
        case RetrySnapshot => applier := Returned(StartOver, !q.closed);
        case Retry =>
          q.Retry(index);
          applier, log' := Idle, log + [Retried(index)];
        case Accept => applier := Idle;
      }
    case _ => ok := false;
  }

  /** One step of a fetcher, of the applier or of the syncer around it. */
  method Do(q: ChunkQueue, applier: Applier, step: Step, ghost log: seq<Event>)
    returns (ok: bool, applier': Applier, ghost log': seq<Event>)
    requires q.Valid()
    modifies q
    ensures q.Valid()
    ensures
      var next := Next(Restore(old(q.View()), applier, log), step);
      if ok then Some(Restore(q.View(), applier', log')) == next else next.None? && q.View() == old(q.View())
  {
    hide Follow;
    ok, applier', log' := true, applier, log;
    match step
    case Arrive(chunk) =>
      var added := q.Add(chunk);
    case Fetch =>
      var i := q.Allocate();
      if i.None? {
        return false, applier, log;
      }
      log' := log + [Allocated(i.value)];
    case Close =>
      q.Close();
    case TakeNext =>
      if !applier.Idle? {
        return false, applier, log;
      }
      var i, found := q.Next();
      if i.None? {
        applier' := Returned(Restored, !q.closed);
      } else if found {
        applier' := Applying(i.value, q.files[i.value]);
      } else {
        applier' := Waiting(i.value);
      }
    case Wake =>
      if !applier.Waiting? {
        return false, applier, log;
      }
      if q.closed {
        return true, Returned(Restored, false), log;
      }
      var body := q.Collect(applier.index);
      if body.None? {
        return false, applier, log;
      }
      applier' := Applying(applier.index, body.value);
    case TimeOut =>
      ok := applier.Waiting?;
      applier' := Returned(Failed, !q.closed);
    case Answered(answer) =>
      if !applier.Applying? {
        return false, applier, log;
      }
      applier', log' := Following(applier.index, answer), log + [Applied(applier.index, applier.body)];
    case CallFails =>
      ok := applier.Applying?;
      applier' := Returned(Failed, !q.closed);
    case RetryAll =>
      if !applier.Returned? || !applier.outcome.StartOver? {
        return false, applier, log;
      }
      q.RetryAll();
      applier', log' := Idle, log + [RetriedAll];
    case _ =>
      if !applier.Following? {
        return false, applier, log;
      }
      ok, applier', log' := DoFollow(q, applier.index, applier.answer, step, log);
  }

  /** The calls on one queue, in any order the steps allow, are a run of the model. */
  method Perform(height: nat, format: nat, size: nat, steps: seq<Step>)
    returns (q: ChunkQueue, ok: bool, applier: Applier, ghost log: seq<Event>)
    ensures fresh(q)
    ensures
      var run := Run(NewQueue(height, format, size), steps);
      if ok then Some(Restore(q.View(), applier, log)) == run else run.None?
  {
    hide Next;
    q := new ChunkQueue(height, format, size);
    ok, applier, log := true, Idle, [];
    for i := 0 to |steps|
      invariant fresh(q) && q.Valid() && ok
      invariant Run(NewQueue(height, format, size), steps[..i]) == Some(Restore(q.View(), applier, log))
    {
      assert steps[..i + 1][..i] == steps[..i];
      ok, applier, log := Do(q, applier, steps[i], log);
      if !ok {
        Refused(NewQueue(height, format, size), steps, i + 1);
        return;
      }
    }
    assert steps[..|steps|] == steps;
  }

  lemma {:induction false} Refused(q: Queue, steps: seq<Step>, i: nat)
    requires i <= |steps| && Run(q, steps[..i]).None?
    ensures Run(q, steps).None?
    decreases |steps|
  {
    hide Next;
    if i < |steps| {
      assert steps[..|steps| - 1][..i] == steps[..i];
      Refused(q, steps[..|steps| - 1], i);
    } else {
      assert steps[..i] == steps;
    }
  }
}
