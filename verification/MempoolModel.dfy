/** The mempool as a sequence of transactions, and rechecking as a walk along it. */
module MempoolModel {
  import opened Wrappers

  type Tx = seq<nat>

  datatype Limits = Limits(maxTxs: int, maxTxsBytes: int)

  /** `todo` holds the entries from the cursor to the end while a recheck is under way. */
  datatype Pool = Pool(txs: seq<Tx>, todo: Option<seq<Tx>>, pending: int, full: bool, token: bool)

  const EMPTY_POOL := Pool([], None, 0, false, false)

  function Bytes(txs: seq<Tx>): int {
    if txs == [] then 0 else Bytes(txs[..|txs| - 1]) + |txs[|txs| - 1]|
  }

  predicate Distinct<T(==)>(s: seq<T>) {
    forall i, j :: 0 <= i < j < |s| ==> s[i] != s[j]
  }

  function IndexOf<T(==)>(s: seq<T>, x: T): (i: nat)
    requires x in s
    ensures i < |s| && s[i] == x && x !in s[..i]
  {
    if s[0] == x then 0
    else
      assert s == [s[0]] + s[1..];
      var i := 1 + IndexOf(s[1..], x);
      assert s[..i] == [s[0]] + s[1..][..i - 1];
      i
  }

  function Without<T(==)>(s: seq<T>, x: T): seq<T> {
    if x in s then s[..IndexOf(s, x)] + s[IndexOf(s, x) + 1..] else s
  }

  predicate IsFull(l: Limits, p: Pool, size: nat) {
    |p.txs| >= l.maxTxs || size + Bytes(p.txs) > l.maxTxsBytes || p.full
  }

  /** The first check of a transaction came back. Nothing stands for the panic on a callback in the
      middle of a recheck. */
  function Checked(l: Limits, p: Pool, tx: Tx, valid: bool): Option<Pool> {
    if p.todo.Some? then None
    else if !valid || IsFull(l, p, |tx|) || tx in p.txs then Some(p)
    else Some(p.(txs := p.txs + [tx]))
  }

  /** What is left when the committed transactions leave. */
  function Remaining(txs: seq<Tx>, committed: seq<Tx>): seq<Tx> {
    if committed == [] then txs
    else Without(Remaining(txs, committed[..|committed| - 1]), committed[|committed| - 1])
  }

  /** A recheck begins at the first entry and ends at the present last one. */
  function Begin(p: Pool): Pool {
    if p.txs == [] then p else p.(todo := Some(p.txs), pending := 0)
  }

  /** A recheck response: entries before the answered one are skipped, an invalid one is removed,
      and answering the last one finishes. Nothing stands for running off the end of the list. */
  function Rechecked(p: Pool, tx: Tx, valid: bool): Option<Pool> {
    if p.todo.None? then Some(p)
    else if tx !in p.todo.value then None
    else
      var rest := p.todo.value[IndexOf(p.todo.value, tx) + 1..];
      var finished := rest == [];
      Some(Pool(if valid then p.txs else Without(p.txs, tx),
                if finished then None else Some(rest),
                p.pending - 1,
                !finished && p.full,
                finished || p.token))
  }

  function TimedOut(p: Pool): Pool {
    p.(todo := None, full := false)
  }

  // ---------------------------------------------------------------- facts about removal

  lemma IndexOfAt<T>(s: seq<T>, k: nat)
    requires Distinct(s) && k < |s|
    ensures IndexOf(s, s[k]) == k
  {
  }

  /** Removing an entry of a list without duplicates closes the gap it leaves. */
  lemma WithoutAt<T>(s: seq<T>, k: nat)
    requires Distinct(s) && k < |s|
    ensures Without(s, s[k]) == s[..k] + s[k + 1..] && |Without(s, s[k])| == |s| - 1
    ensures forall i :: 0 <= i < |s| - 1 ==> Without(s, s[k])[i] == s[if i < k then i else i + 1]
    ensures Distinct(Without(s, s[k]))
  {
    hide IndexOf;
    IndexOfAt(s, k);
    var t := s[..k] + s[k + 1..];
    forall i | 0 <= i < |t|
      ensures t[i] == s[if i < k then i else i + 1]
    {
    }
    forall i, j | 0 <= i < j < |t|
      ensures t[i] != t[j]
    {
      assert s[if i < k then i else i + 1] != s[if j < k then j else j + 1];
    }
  }

  lemma WithoutIs<T>(s: seq<T>, x: T)
    requires Distinct(s)
    ensures Distinct(Without(s, x))
    ensures forall y :: y in Without(s, x) <==> y in s && y != x
    ensures |Without(s, x)| == if x in s then |s| - 1 else |s|
  {
    if x in s {
      var i := IndexOf(s, x);
      var t := s[..i] + s[i + 1..];
      assert forall k :: 0 <= k < |t| ==> t[k] == if k < i then s[k] else s[k + 1];
      forall y
        ensures y in t <==> y in s && y != x
      {
        if y in s && y != x {
          var k := IndexOf(s, y);
          assert t[if k < i then k else k - 1] == y;
        }
      }
    }
  }

  lemma {:induction false} BytesSplit(a: seq<Tx>, b: seq<Tx>)
    ensures Bytes(a + b) == Bytes(a) + Bytes(b)
  {
    if b == [] {
      assert a + b == a;
    } else {
      BytesSplit(a, b[..|b| - 1]);
      assert (a + b)[..|a + b| - 1] == a + b[..|b| - 1];
    }
  }

  lemma BytesWithout(s: seq<Tx>, x: Tx)
    ensures Bytes(Without(s, x)) == if x in s then Bytes(s) - |x| else Bytes(s)
  {
    if x in s {
      var i := IndexOf(s, x);
      BytesSplit(s[..i], s[i + 1..]);
      BytesSplit(s[..i], [x]);
      BytesSplit(s[..i] + [x], s[i + 1..]);
      assert s == s[..i] + [x] + s[i + 1..];
      assert Bytes([x]) == |x| by {
        assert [x][..0] == [];
      }
    }
  }

  predicate WithinLimits(l: Limits, p: Pool) {
    |p.txs| <= l.maxTxs && Bytes(p.txs) <= l.maxTxsBytes && Distinct(p.txs)
  }

  /** Admission never takes the pool over its limits and never admits a transaction twice; while the
      pool counts as full for a recheck it admits nothing. */
  lemma CheckedWithinLimits(l: Limits, p: Pool, tx: Tx, valid: bool)
    requires WithinLimits(l, p) && Checked(l, p, tx, valid).Some?
    ensures
      var q := Checked(l, p, tx, valid).value;
      && WithinLimits(l, q) && (p.full ==> q == p)
      && (tx in q.txs <==> tx in p.txs || (valid && !p.full && |p.txs| < l.maxTxs && Bytes(p.txs) + |tx| <= l.maxTxsBytes))
  {
    BytesSplit(p.txs, [tx]);
    assert Bytes([tx]) == |tx| by {
      assert [tx][..0] == [];
    }
  }

  /** Exactly the entries that were not committed remain. */
  lemma {:induction false} RemainingAre(txs: seq<Tx>, committed: seq<Tx>, x: Tx)
    requires Distinct(txs)
    ensures Distinct(Remaining(txs, committed))
    ensures x in Remaining(txs, committed) <==> x in txs && x !in committed
  {
    hide Without, IndexOf, Distinct;
    if committed != [] {
      var front, last := committed[..|committed| - 1], committed[|committed| - 1];
      RemainingAre(txs, front, x);
      WithoutIs(Remaining(txs, front), last);
      assert committed == front + [last];
    }
  }

  // ---------------------------------------------------------------- whole rechecks

  /** An answer: the position in the list at the start, and whether the transaction is still valid. */
  datatype Answer = Answer(at: nat, valid: bool)

  predicate InOrder(n: nat, answers: seq<Answer>) {
    && (forall k :: 0 <= k < |answers| ==> answers[k].at < n)
    && (forall j, k :: 0 <= j < k < |answers| ==> answers[j].at < answers[k].at)
  }

  /** The recheck of `start` after the answers, from a pool with every entry sent out. */
  function Process(start: Pool, answers: seq<Answer>): Option<Pool>
    requires InOrder(|start.txs|, answers)
  {
    if answers == [] then Some(Begin(start).(pending := |start.txs|))
    else
      assert InOrder(|start.txs|, answers[..|answers| - 1]);
      match Process(start, answers[..|answers| - 1])
      case None => None
      case Some(p) => Rechecked(p, start.txs[answers[|answers| - 1].at], answers[|answers| - 1].valid)
  }

  /** The entries of `txs` that no answer called invalid. */
  function Survivors(txs: seq<Tx>, answers: seq<Answer>): seq<Tx>
    requires InOrder(|txs|, answers)
  {
    if answers == [] then txs
    else
      assert InOrder(|txs|, answers[..|answers| - 1]);
      var last, rest := answers[|answers| - 1], Survivors(txs, answers[..|answers| - 1]);
      if last.valid then rest else Without(rest, txs[last.at])
  }

  predicate AnsweredLast(n: nat, answers: seq<Answer>) {
    answers != [] && answers[|answers| - 1].at == n - 1
  }

  /** The survivors keep their order and lack exactly the entries answered invalid. */
  lemma {:induction false} SurvivorsAre(txs: seq<Tx>, answers: seq<Answer>, x: Tx)
    requires Distinct(txs) && InOrder(|txs|, answers)
    ensures Distinct(Survivors(txs, answers)) && Ordered(txs, Survivors(txs, answers))
    ensures x in Survivors(txs, answers) <==> x in txs && !CalledInvalid(txs, answers, x)
  {
    hide Without, IndexOf, Distinct, Ordered;
    if answers == [] {
      OrderedSelf(txs);
    } else {
      var front, last := answers[..|answers| - 1], answers[|answers| - 1];
      assert InOrder(|txs|, front);
      SurvivorsAre(txs, front, x);
      assert forall k :: 0 <= k < |front| ==> front[k] == answers[k];
      if !last.valid {
        WithoutIs(Survivors(txs, front), txs[last.at]);
        WithoutOrdered(txs, Survivors(txs, front), txs[last.at]);
      }
    }
  }

  predicate CalledInvalid(txs: seq<Tx>, answers: seq<Answer>, x: Tx)
    requires InOrder(|txs|, answers)
  {
    exists k :: 0 <= k < |answers| && !answers[k].valid && txs[answers[k].at] == x
  }

  lemma OrderedSelf(txs: seq<Tx>)
    requires Distinct(txs)
    ensures Ordered(txs, txs)
  {
    hide IndexOf;
    forall k | 0 <= k < |txs|
      ensures IndexOf(txs, txs[k]) == k
    {
      IndexOfAt(txs, k);
    }
  }

  /** `s` lists entries of `txs` in their order there. */
  predicate Ordered(txs: seq<Tx>, s: seq<Tx>) {
    && (forall k :: 0 <= k < |s| ==> s[k] in txs)
    && (forall j, k :: 0 <= j < k < |s| ==> IndexOf(txs, s[j]) < IndexOf(txs, s[k]))
  }

  lemma WithoutOrdered(txs: seq<Tx>, s: seq<Tx>, x: Tx)
    requires Ordered(txs, s)
    ensures Ordered(txs, Without(s, x))
  {
    hide IndexOf;
    if x in s {
      var i := IndexOf(s, x);
      var t := s[..i] + s[i + 1..];
      forall k | 0 <= k < |t|
        ensures t[k] == (if k < i then s[k] else s[k + 1]) && t[k] in txs
      {
      }
      forall j, k | 0 <= j < k < |t|
        ensures IndexOf(txs, t[j]) < IndexOf(txs, t[k])
      {
        var j', k' := if j < i then j else j + 1, if k < i then k else k + 1;
        assert IndexOf(txs, s[j']) < IndexOf(txs, s[k']);
      }
    }
  }

  /** Answers in list order, with any of them missing: the cursor never passes the end; the recheck
      is over exactly when the last entry was answered; the pending count is the number of entries
      left unanswered; and the pool is the original order minus the entries answered invalid. */
  lemma {:induction false} RecheckOutcome(start: Pool, answers: seq<Answer>)
    requires start.txs != [] && Distinct(start.txs) && start.todo.None? && InOrder(|start.txs|, answers)
    ensures Process(start, answers).Some? && Outcome(start, answers, Process(start, answers).value)
  {
    hide Outcome, Rechecked;
    if answers == [] {
      NothingAnswered(start);
    } else {
      var front := answers[..|answers| - 1];
      assert InOrder(|start.txs|, front);
      RecheckOutcome(start, front);
      AnswerStep(start, answers, Process(start, front).value);
    }
  }

  predicate Outcome(start: Pool, answers: seq<Answer>, p: Pool)
    requires InOrder(|start.txs|, answers)
  {
    && p.txs == Survivors(start.txs, answers)
    && p.pending == |start.txs| - |answers|
    && p.token == (start.token || AnsweredLast(|start.txs|, answers))
    && (if AnsweredLast(|start.txs|, answers) then p.todo.None? && !p.full
        else p.todo == Some(start.txs[Cursor(answers)..]) && p.full == start.full && Cursor(answers) < |start.txs|)
  }

  /** The position after the last answer. */
  function Cursor(answers: seq<Answer>): nat {
    if answers == [] then 0 else answers[|answers| - 1].at + 1
  }

  lemma NothingAnswered(start: Pool)
    requires start.txs != [] && InOrder(|start.txs|, [])
    ensures Outcome(start, [], Begin(start).(pending := |start.txs|))
  {
  }

  lemma AnswerStep(start: Pool, answers: seq<Answer>, p: Pool)
    requires Distinct(start.txs) && InOrder(|start.txs|, answers) && answers != []
    requires InOrder(|start.txs|, answers[..|answers| - 1]) && Outcome(start, answers[..|answers| - 1], p)
    ensures
      var last := answers[|answers| - 1];
      && Rechecked(p, start.txs[last.at], last.valid).Some?
      && Outcome(start, answers, Rechecked(p, start.txs[last.at], last.valid).value)
  {
    hide IndexOf, Without, Survivors, InOrder, Distinct;
    var front, last := answers[..|answers| - 1], answers[|answers| - 1];
    CursorRises(|start.txs|, answers);
    SurvivorsStep(start.txs, answers);
    NextEntry(start.txs, Cursor(front), last.at);
  }

  lemma CursorRises(n: nat, answers: seq<Answer>)
    requires InOrder(n, answers) && answers != []
    ensures Cursor(answers[..|answers| - 1]) <= answers[|answers| - 1].at < n
    ensures !AnsweredLast(n, answers[..|answers| - 1])
  {
    var front := answers[..|answers| - 1];
    assert front != [] ==> front[|front| - 1] == answers[|answers| - 2];
  }

  lemma SurvivorsStep(txs: seq<Tx>, answers: seq<Answer>)
    requires InOrder(|txs|, answers) && answers != []
    ensures
      var last, front := answers[|answers| - 1], answers[..|answers| - 1];
      && last.at < |txs| && InOrder(|txs|, front)
      && Survivors(txs, answers) == if last.valid then Survivors(txs, front) else Without(Survivors(txs, front), txs[last.at])
  {
    hide Without;
  }

  lemma NextEntry(txs: seq<Tx>, at: nat, k: nat)
    requires Distinct(txs) && at <= k < |txs|
    ensures txs[k] in txs[at..] && txs[at..][IndexOf(txs[at..], txs[k]) + 1..] == txs[k + 1..]
    ensures (txs[k + 1..] == []) <==> k == |txs| - 1
  {
    var s := txs[at..];
    assert s[k - at] == txs[k];
    assert IndexOf(s, txs[k]) == k - at;
  }

  // ---------------------------------------------------------------- answers while requests are sent

  /** Entry after entry is sent out; a synchronous application answers before the next one. */
  function Sent(start: Pool, immediate: seq<Option<bool>>, i: nat): Option<Pool>
    requires i <= |immediate| == |start.txs|
  {
    if i == 0 then Some(Begin(start))
    else match Sent(start, immediate, i - 1)
      case None => None
      case Some(p) =>
        var q := p.(pending := p.pending + 1);
        if immediate[i - 1].None? then Some(q) else Rechecked(q, start.txs[i - 1], immediate[i - 1].value)
  }

  /** The answers given while the first `i` entries were sent. */
  function Given(immediate: seq<Option<bool>>, i: nat): seq<Answer>
    requires i <= |immediate|
  {
    if i == 0 then []
    else if immediate[i - 1].None? then Given(immediate, i - 1)
    else Given(immediate, i - 1) + [Answer(i - 1, immediate[i - 1].value)]
  }

  lemma {:induction false} GivenInOrder(immediate: seq<Option<bool>>, i: nat)
    requires i <= |immediate|
    ensures InOrder(i, Given(immediate, i)) && InOrder(|immediate|, Given(immediate, i))
    ensures |Given(immediate, i)| <= i && Cursor(Given(immediate, i)) <= i
  {
    if i > 0 {
      GivenInOrder(immediate, i - 1);
    }
  }

  predicate SentOk(start: Pool, answers: seq<Answer>, p: Pool, i: nat) {
    && InOrder(|start.txs|, answers) && Cursor(answers) <= i
    && p.pending == i - |answers| && Outcome(start, answers, p.(pending := |start.txs| - |answers|))
    && (i < |start.txs| ==> p.todo.Some? && start.txs[i] in p.todo.value)
  }

  /** Sending with answers on the way never fails, and stands where the answers alone would. */
  lemma {:induction false} SentOutcome(start: Pool, immediate: seq<Option<bool>>, i: nat)
    requires i <= |immediate| == |start.txs| && start.txs != [] && Distinct(start.txs) && start.todo.None?
    ensures Sent(start, immediate, i).Some? && SentOk(start, Given(immediate, i), Sent(start, immediate, i).value, i)
  {
    hide Rechecked, SentOk;
    GivenInOrder(immediate, i);
    if i == 0 {
      NothingSent(start);
    } else {
      SentOutcome(start, immediate, i - 1);
      var p, answers := Sent(start, immediate, i - 1).value, Given(immediate, i);
      if immediate[i - 1].Some? {
        assert answers[..|answers| - 1] == Given(immediate, i - 1);
        SentAnswered(start, answers, p, i);
      } else {
        SentSilent(start, answers, p, i);
      }
    }
  }

  lemma NothingSent(start: Pool)
    requires start.txs != []
    ensures SentOk(start, [], Begin(start), 0)
  {
    NothingAnswered(start);
  }

  lemma SentSilent(start: Pool, answers: seq<Answer>, p: Pool, i: nat)
    requires 0 < i <= |start.txs| && SentOk(start, answers, p, i - 1)
    ensures SentOk(start, answers, p.(pending := p.pending + 1), i)
  {
    hide Outcome, InOrder;
    NextIsTodo(start, answers, p.(pending := p.pending + 1), i);
  }

  lemma SentAnswered(start: Pool, answers: seq<Answer>, p: Pool, i: nat)
    requires 0 < i <= |start.txs| && Distinct(start.txs) && answers != [] && SentOk(start, answers[..|answers| - 1], p, i - 1)
    requires InOrder(|start.txs|, answers) && answers[|answers| - 1].at == i - 1
    ensures
      var r := Rechecked(p.(pending := p.pending + 1), start.txs[i - 1], answers[|answers| - 1].valid);
      r.Some? && SentOk(start, answers, r.value, i)
  {
    hide Outcome, InOrder, Rechecked, Distinct;
    var n, valid := |start.txs| - |answers| + 1, answers[|answers| - 1].valid;
    AnswerStep(start, answers, p.(pending := n));
    PendingShifts(p.(pending := p.pending + 1), n, start.txs[i - 1], valid);
    var r := Rechecked(p.(pending := p.pending + 1), start.txs[i - 1], valid);
    NextIsTodo(start, answers, r.value, i);
  }

  lemma PendingShifts(p: Pool, pending: int, tx: Tx, valid: bool)
    requires p.todo.Some?
    ensures
      var a, b := Rechecked(p, tx, valid), Rechecked(p.(pending := pending), tx, valid);
      a.Some? == b.Some? && (a.Some? ==> a.value.(pending := pending - 1) == b.value && a.value.pending == p.pending - 1)
  {
  }

  lemma NextIsTodo(start: Pool, answers: seq<Answer>, p: Pool, i: nat)
    requires InOrder(|start.txs|, answers) && Cursor(answers) <= i
    requires Outcome(start, answers, p.(pending := |start.txs| - |answers|))
    ensures i < |start.txs| ==> p.todo.Some? && start.txs[i] in p.todo.value
  {
    if i < |start.txs| {
      var c := Cursor(answers);
      assert start.txs[c..][i - c] == start.txs[i];
    }
  }

  /** Whether answers come while the requests are sent or after that makes no difference. */
  lemma SentIsProcess(start: Pool, immediate: seq<Option<bool>>)
    requires |immediate| == |start.txs| && start.txs != [] && Distinct(start.txs) && start.todo.None?
    ensures InOrder(|start.txs|, Given(immediate, |immediate|))
    ensures Sent(start, immediate, |immediate|) == Process(start, Given(immediate, |immediate|))
  {
    hide Rechecked, Survivors, Process, Sent;
    SentOutcome(start, immediate, |immediate|);
    RecheckOutcome(start, Given(immediate, |immediate|));
  }

  // ---------------------------------------------------------------- the signal that a recheck is over

  /** The signal tells whether a recheck is over, if and only if no signal was left over when it
      started or the last entry has been answered since. */
  lemma SignalMeansDone(start: Pool, answers: seq<Answer>)
    requires start.txs != [] && Distinct(start.txs) && start.todo.None? && InOrder(|start.txs|, answers)
    ensures Process(start, answers).Some?
    ensures
      var p := Process(start, answers).value;
      (p.token <==> p.todo.None?) <==> !start.token || AnsweredLast(|start.txs|, answers)
  {
    hide Process, Survivors;
    RecheckOutcome(start, answers);
  }

  /** When the timeout wins against the last answer, the signal stays behind, and the next recheck
      finds it before any of its entries was answered. */
  lemma LeftoverSignal(tx: Tx)
    ensures
      var start := Pool([tx], None, 0, false, false);
      && InOrder(1, [Answer(0, true)]) && Process(start, [Answer(0, true)]).Some?
      && var late := TimedOut(Process(start, [Answer(0, true)]).value);
      && late.token && late.todo.None? && late.txs == [tx]
      && Begin(late).token && Begin(late).todo == Some([tx])
  {
    var start, answers := Pool([tx], None, 0, false, false), [Answer(0, true)];
    assert answers[..0] == [];
    assert InOrder(1, answers);
    RecheckOutcome(start, answers);
    SurvivorsStep([tx], answers);
  }
}
