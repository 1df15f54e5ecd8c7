/** The rechecks of a mempool as their beginnings, endings and signals: when a recheck is left open
    although nobody waits for it any more. */
module RecheckLogs {
  /** A recheck began; the last of its entries was answered; a wait ended by taking the signal; a wait
      ended by its timeout. */
  datatype Mark = Began | Finished | TookSignal | RanOut

  /** A recheck is under way. */
  predicate Open(log: seq<Mark>) {
    log != [] && OpenAfter(log[|log| - 1], Open(log[..|log| - 1]))
  }

  predicate OpenAfter(m: Mark, before: bool) {
    match m
    case Began => true
    case Finished => false
    case TookSignal => before
    case RanOut => false
  }

  /** The signal of a finished recheck is in the channel. */
  predicate Unread(log: seq<Mark>) {
    log != [] && UnreadAfter(log[|log| - 1], Unread(log[..|log| - 1]))
  }

  predicate UnreadAfter(m: Mark, before: bool) {
    match m
    case Began => before
    case Finished => true
    case TookSignal => false
    case RanOut => before
  }

  /** Nobody waits: the wait of the last recheck has ended. */
  predicate Waited(log: seq<Mark>) {
    log == [] || WaitedAfter(log[|log| - 1], Waited(log[..|log| - 1]))
  }

  predicate WaitedAfter(m: Mark, before: bool) {
    match m
    case Began => false
    case Finished => before
    case TookSignal => true
    case RanOut => true
  }

  /** What can happen next: a recheck begins only when none is open and nobody waits, its last entry is
      answered only while it is open, a wait takes only a signal that is there, and a wait ends once. */
  predicate Legal(log: seq<Mark>, m: Mark) {
    match m
    case Began => !Open(log) && Waited(log)
    case Finished => Open(log)
    case TookSignal => Unread(log) && !Waited(log)
    case RanOut => !Waited(log)
  }

  predicate LogOk(log: seq<Mark>) {
    log == [] || (LogOk(log[..|log| - 1]) && Legal(log[..|log| - 1], log[|log| - 1]))
  }

  lemma Appended(log: seq<Mark>, m: Mark)
    ensures Open(log + [m]) <==> OpenAfter(m, Open(log))
    ensures Unread(log + [m]) <==> UnreadAfter(m, Unread(log))
    ensures Waited(log + [m]) <==> WaitedAfter(m, Waited(log))
    ensures LogOk(log + [m]) <==> LogOk(log) && Legal(log, m)
  {
    assert (log + [m])[..|log|] == log;
  }

  /** The last recheck began with a signal left over, and its wait took that signal, and nothing
      happened since. */
  predicate EndedByLeftover(log: seq<Mark>) {
    && |log| >= 2 && log[|log| - 2].Began? && log[|log| - 1].TookSignal?
    && Unread(log[..|log| - 2])
  }

  /** When nobody waits, a recheck is still open if and only if its wait was ended by the signal of an
      earlier one and its own last entry has not been answered since. */
  lemma OpenExactly(log: seq<Mark>)
    requires LogOk(log) && Waited(log)
    ensures Open(log) <==> EndedByLeftover(log)
  {
    if log != [] {
      var front := log[..|log| - 1];
      if log[|log| - 1].TookSignal? && front != [] {
        assert front[..|front| - 1] == log[..|log| - 2];
        if Open(front) {
          OpenUnwaited(front);
        }
      }
    }
  }

  /** A recheck that is open and waited for began just now. */
  lemma {:induction false} OpenUnwaited(log: seq<Mark>)
    requires LogOk(log) && Open(log) && !Waited(log)
    ensures log[|log| - 1].Began?
  {
  }

  /** A signal is left over if and only if some recheck was answered to its end and no wait took a
      signal since. */
  lemma {:induction false} UnreadExactly(log: seq<Mark>)
    ensures Unread(log) <==> exists k :: 0 <= k < |log| && log[k].Finished? && forall j :: k < j < |log| ==> !log[j].TookSignal?
  {
    if log != [] {
      var front, last := log[..|log| - 1], |log| - 1;
      UnreadExactly(front);
      assert forall k :: 0 <= k < |front| ==> front[k] == log[k];
      if log[last].Finished? {
        assert 0 <= last < |log| && log[last].Finished?;
      } else if !log[last].TookSignal? {
        if Unread(front) {
          var k :| 0 <= k < |front| && front[k].Finished? && forall j :: k < j < |front| ==> !front[j].TookSignal?;
          assert log[k].Finished?;
        }
        if k :| 0 <= k < |log| && log[k].Finished? && forall j :: k < j < |log| ==> !log[j].TookSignal? {
          assert front[k].Finished?;
        }
      }
    }
  }

  predicate NoTimeout(log: seq<Mark>) {
    forall k :: 0 <= k < |log| ==> !log[k].RanOut?
  }

  /** Without a timeout no signal is ever left over, and no recheck is left open. */
  lemma {:induction false} OnlyTimeoutsLeaveOpen(log: seq<Mark>)
    requires LogOk(log) && NoTimeout(log)
    ensures if Waited(log) then !Open(log) && !Unread(log) else Open(log) <==> !Unread(log)
  {
    if log != [] {
      var front := log[..|log| - 1];
      assert forall k :: 0 <= k < |front| ==> front[k] == log[k];
      OnlyTimeoutsLeaveOpen(front);
    }
  }

  /** It happens from any idle state: a recheck that is answered to its end just when its wait runs out
      leaves a signal, and the wait of the next one takes it. */
  lemma LeftoverHappens(log: seq<Mark>)
    requires LogOk(log) && Waited(log) && !Open(log)
    ensures var log' := log + [Began] + [Finished] + [RanOut] + [Began] + [TookSignal];
            LogOk(log') && Waited(log') && Open(log')
  {
    hide Open, Unread, Waited, LogOk;
    Appended(log, Began);
    Appended(log + [Began], Finished);
    Appended(log + [Began] + [Finished], RanOut);
    Appended(log + [Began] + [Finished] + [RanOut], Began);
    Appended(log + [Began] + [Finished] + [RanOut] + [Began], TookSignal);
  }

  // ---------------------------------------------------------------- a log kept beside the mempool

  /** The log tells the recheck flag and the channel of the mempool. */
  predicate Logged(log: seq<Mark>, open: bool, token: bool) {
    LogOk(log) && (Open(log) <==> open) && (Unread(log) <==> token)
  }

  /** The log went on without a wait beginning or ending, and without a timeout. */
  predicate WentOn(log: seq<Mark>, log': seq<Mark>) {
    (Waited(log') <==> Waited(log)) && (NoTimeout(log) ==> NoTimeout(log'))
  }

  lemma LogBegins(log: seq<Mark>, token: bool)
    requires Logged(log, false, token) && Waited(log)
    ensures Logged(log + [Began], true, token) && !Waited(log + [Began])
    ensures NoTimeout(log) ==> NoTimeout(log + [Began])
  {
    Appended(log, Began);
  }

  lemma LogFinishes(log: seq<Mark>, token: bool)
    requires Logged(log, true, token)
    ensures Logged(log + [Finished], false, true) && WentOn(log, log + [Finished])
  {
    Appended(log, Finished);
  }

  lemma LogTakes(log: seq<Mark>, open: bool)
    requires Logged(log, open, true) && !Waited(log)
    ensures Logged(log + [TookSignal], open, false) && Waited(log + [TookSignal])
    ensures NoTimeout(log) ==> NoTimeout(log + [TookSignal])
  {
    Appended(log, TookSignal);
  }

  lemma LogRunsOut(log: seq<Mark>, open: bool, token: bool)
    requires Logged(log, open, token) && !Waited(log)
    ensures Logged(log + [RanOut], false, token) && Waited(log + [RanOut])
  {
    Appended(log, RanOut);
  }
}
