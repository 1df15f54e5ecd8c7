/** The mempool as the source runs it: a linked list, a map into it, a byte counter, and the
    cursor of a recheck. */
module Mempools {
  import opened Wrappers
  import opened MempoolModel
  import opened CLists
  import opened RecheckLogs

  /** What can reach the mempool between updates. An update brings what happens while it rechecks:
      the answers that come back at once, what arrives during the wait, and whether the wait runs
      out of time. */
  datatype Event =
    | FirstCheck(tx: Tx, valid: bool)
    | Arrive(arrival: Arrival)
    | FlushAll
    | UpdateTo(committed: seq<Tx>, recheck: bool, immediate: seq<Option<bool>>, arrivals: seq<Arrival>, timeout: bool)

  /** What needs no lock: the answer to a recheck, and the notice that a block is decided. */
  datatype Arrival = Answered(tx: Tx, valid: bool) | Decided

  /** Done, or the way it did not end: a panic on a recheck that is still open, a panic on an answer
      that matches no entry from the cursor on, or a wait for a signal that never comes. */
  datatype Ending = Done | Collided | Stray | Stuck

  class Mempool {
    const list: CList
    const limits: Limits
    var txsMap: map<Tx, nat>
    var txsBytes: int
    // the recheck in progress
    var cursor: Option<nat>
    var end: Option<nat>
    var pending: int
    var isRechecking: bool
    var recheckFull: bool
    var token: bool      // the buffered signal that rechecking has finished
    ghost var log: seq<Mark>

    ghost function Txs(): seq<Tx>
      reads this, list
    {
      TxsOf(list.nodes, list.order)
    }

    /** The map and the byte counter agree with the list, which holds no transaction twice. */
    ghost predicate Agrees()
      reads this, list
    {
      list.Valid() && Indexed(Txs(), list.order, txsMap) && txsBytes == Bytes(Txs())
    }

    /** What holds in every state: the cursor may stand on an element that has left the list. */
    ghost predicate Sound()
      reads this, list
    {
      Agrees() && Standing(list.nodes, cursor) && Logged(log, isRechecking, token)
    }

    /** Sound, with the cursor in the list: no entry was removed ahead of the cursor. */
    ghost predicate Valid()
      reads this, list
    {
      && Sound()
      && (isRechecking ==> CursorOk(list.order, cursor, end))
    }

    ghost function View(): Pool
      requires Valid()
      reads this, list
    {
      Pool(Txs(), if isRechecking then Some(FromCursor(list.nodes, list.order, cursor, end)) else None, pending, recheckFull, token)
    }

    /** The cursor is past the entry. */
    ghost predicate Behind(tx: Tx)
      reads this, list
    {
      Valid() && (isRechecking ==> tx !in View().todo.value)
    }

    constructor (limits: Limits)
      ensures Valid() && fresh(list) && View() == EMPTY_POOL && this.limits == limits && log == []
    {
      hide Linked, Rising, Logged, Bytes;
      this.limits := limits;
      list := new CList();
      txsMap, txsBytes := map[], 0;
      cursor, end, pending, isRechecking, recheckFull, token := None, None, 0, false, false, false;
      log := [];
      NothingYet();
      new;
      assert Txs() == [];
    }

    method Full(size: nat) returns (full: bool)
      requires Valid()
      ensures full <==> IsFull(limits, View(), size)
    {
      hide Linked, Distinct, IndexOf;
      full := list.len >= limits.maxTxs || size + txsBytes > limits.maxTxsBytes || recheckFull;
    }

    method AddTx(tx: Tx)
      requires Valid() && !isRechecking && tx !in Txs()
      modifies this`txsMap, this`txsBytes, list
      ensures Valid() && View() == old(View()).(txs := old(Txs()) + [tx])
    {
      hide Linked, IndexOf, Bytes, TxsOf, Logged;
      ghost var nodes0, order0, txs0 := list.nodes, list.order, Txs();
      var e := list.PushBack(tx);
      txsMap := txsMap[tx := e];
      txsBytes := txsBytes + |tx|;
      TxsPushed(nodes0, list.nodes, order0, e, tx);
      BytesSplit(txs0, [tx]);
      BytesOne(tx);
    }

    method RemoveTxByKey(tx: Tx) returns (ok: bool)
      requires Sound()
      modifies this`txsMap, this`txsBytes, list
      ensures Sound() && Txs() == Without(old(Txs()), tx) && (ok <==> tx in old(Txs()))
      ensures old(Behind(tx)) ==> Valid() && View() == old(View()).(txs := Without(old(Txs()), tx))
      ensures SameTxs(old(list.nodes), list.nodes)
      ensures Leaves(old(list.nodes), list.nodes, old(list.order), list.order, if ok then Some(old(txsMap)[tx]) else None)
    {
      hide Linked, Without, Indexed, CursorOk, FromCursor, Bytes, TxsOf, SameTxs, Logged, Standing;
      if tx !in txsMap {
        NotThere(Txs(), list.order, txsMap, tx);
        assert SameTxs(list.nodes, list.nodes) by { SameTxsSelf(list.nodes); }
        return false;
      }
      var e := txsMap[tx];
      ghost var nodes0, order0, map0 := list.nodes, list.order, txsMap;
      RemoveFacts(nodes0, order0, map0, tx);
      list.Remove(e);
      txsMap := txsMap - {tx};
      txsBytes := txsBytes - |tx|;
      TxsSame(nodes0, list.nodes, list.order);
      StandsStill(nodes0, list.nodes, cursor);
      if old(Behind(tx)) && isRechecking {
        CursorKept(nodes0, list.nodes, order0, map0, tx, cursor, end);
      }
      ok := true;
    }

    // -------------------------------------------------------------- first checks

    /** The response to the first check of a transaction; fails only in the middle of a recheck. */
    method HandleCheckTxResponse(tx: Tx, valid: bool) returns (ok: bool)
      requires Sound()
      modifies this`txsMap, this`txsBytes, list
      ensures Sound() && (ok <==> !isRechecking)
      ensures ok ==> old(Valid()) && Valid() && Some(View()) == Checked(limits, old(View()), tx, valid)
      ensures !ok ==> unchanged(this) && unchanged(list)
    {
      hide Linked, Indexed, CursorOk, FromCursor, Bytes, TxsOf, IsFull, Logged, Standing;
      if isRechecking {
        return false;
      }
      ok := true;
      if !valid {
        return;
      }
      var full := Full(|tx|);
      if full {
        return;
      }
      if tx in txsMap {
        Here(Txs(), list.order, txsMap, tx);
        return;
      }
      NotThere(Txs(), list.order, txsMap, tx);
      AddTx(tx);
    }

    // -------------------------------------------------------------- rechecking

    method SetDone()
      requires Agrees()
      modifies this`cursor, this`recheckFull, this`isRechecking
      ensures Agrees() && !isRechecking && cursor == None && !recheckFull
    {
      cursor, recheckFull, isRechecking := None, false, false;
    }

    /** The wait for responses ran out of time. */
    method TimeOut()
      requires Sound() && !Waited(log)
      modifies this`cursor, this`recheckFull, this`isRechecking, this`log
      ensures Valid() && !isRechecking && log == old(log) + [RanOut] && Waited(log)
      ensures old(Valid()) ==> View() == TimedOut(old(View()))
    {
      hide Logged, Waited, CursorOk, FromCursor, Linked, Indexed, Bytes, TxsOf;
      LogRunsOut(log, isRechecking, token);
      SetDone();
      log := log + [RanOut];
    }

    method SetRecheckFull() returns (flipped: bool)
      requires Sound()
      modifies this`recheckFull
      ensures Sound() && recheckFull == isRechecking && (flipped <==> isRechecking != old(recheckFull))
      ensures old(Valid()) ==> Valid() && View() == old(View()).(full := isRechecking)
    {
      hide Logged, CursorOk, FromCursor, Linked, Indexed, Bytes, TxsOf;
      flipped := recheckFull != isRechecking;
      recheckFull := isRechecking;
    }

    /** Walks the cursor to the entry that matches; it runs off the list when there is none. */
    method WalkTo(tx: Tx) returns (found: bool, ghost q: nat)
      requires Sound() && isRechecking
      modifies this`cursor
      ensures Standing(list.nodes, cursor) && (found ==> cursor.Some? && list.nodes[cursor.value].tx == tx)
      ensures old(Valid()) ==> (found <==> tx in old(View()).todo.value)
      ensures (old(Valid()) && found) ==>
                && old(IndexOf(list.order, cursor.value)) <= q < |list.order| && cursor == Some(list.order[q])
                && q < |Txs()| && Txs()[q] == tx
    {
      hide Linked, IndexOf, TxsOf, Indexed, Bytes, Logged, Rising;
      ghost var order, txs, inList := list.order, Txs(), Valid();
      ghost var p := if inList then IndexOf(list.order, cursor.value) else 0;
      q := p;
      ListFacts(list.nodes, order, txsMap);
      while true
        invariant Standing(list.nodes, cursor)
        invariant inList ==> Walked(order, txs, p, q, cursor, tx)
        decreases if cursor.Some? then list.made - cursor.value else 0
      {
        if cursor.None? {
          if inList {
            Absent(txs, p, tx);
          }
          return false, q;
        }
        if inList {
          At(list.nodes, order, q);
        }
        if list.nodes[cursor.value].tx == tx {
          if inList {
            Present(txs, p, q);
          }
          return true, q;
        }
        Onward(list.nodes, cursor.value);
        cursor := list.nodes[cursor.value].next;
        q := q + 1;
      }
    }

    /** Moves the cursor to the entry that matches, then past it or to the end of the recheck.
        Fails when no entry from the cursor on matches. */
    method FindNextEntryMatching(tx: Tx) returns (found: bool)
      requires Sound() && isRechecking
      modifies this`cursor, this`pending, this`isRechecking, this`recheckFull, this`token, this`log
      ensures Sound() && WentOn(old(log), log)
      ensures old(Valid()) ==> (found <==> tx in old(View()).todo.value)
      ensures (old(Valid()) && found) ==> Behind(tx) && Some(View()) == Rechecked(old(View()), tx, true)
    {
      hide Linked, IndexOf, Bytes, TxsOf, Indexed, Rechecked, Distinct, After, CursorOk, FromCursor, Logged, WentOn, Rising;
      ghost var nodes, order, txs, inList := list.nodes, list.order, Txs(), Valid();
      ListFacts(nodes, order, txsMap);
      if inList {
        CursorMeans(nodes, order, cursor, end);
      }
      ghost var p := if inList then IndexOf(order, cursor.value) else 0;
      ghost var q;
      found, q := WalkTo(tx);
      SameLog(log);
      if !found {
        return;
      }
      pending := pending - 1;
      if inList {
        CursorAnswers(nodes, order, p, q, tx);
        AnsweredAt(old(View()), txs, p, q);
      }
      if cursor == end {
        LogFinishes(log, token);
        SetDone();
        token := true;
        log := log + [Finished];
      } else {
        if inList {
          At(nodes, order, q);
          CursorMoves(nodes, order, q, end);
        }
        Onward(nodes, cursor.value);
        cursor := list.nodes[cursor.value].next;
      }
    }

    /** The response to the recheck of a transaction; a late one is ignored. */
    method HandleRecheckTxResponse(tx: Tx, valid: bool) returns (ok: bool)
      requires Sound()
      modifies this, list
      ensures Sound() && WentOn(old(log), log)
      ensures Txs() == if ok && old(isRechecking) && !valid then Without(old(Txs()), tx) else old(Txs())
      ensures old(Valid()) ==> (ok <==> Rechecked(old(View()), tx, valid).Some?)
      ensures (old(Valid()) && ok) ==> Valid() && View() == Rechecked(old(View()), tx, valid).value
      ensures ok ==> SameTxs(old(list.nodes), list.nodes)
      ensures ok ==> Leaves(old(list.nodes), list.nodes, old(list.order), list.order,
                            if valid || !old(isRechecking) || tx !in old(txsMap) then None else Some(old(txsMap)[tx]))
    {
      hide Linked, Indexed, CursorOk, FromCursor, Bytes, TxsOf, Without, SameTxs, IndexOf, Logged, WentOn, Standing;
      SameTxsSelf(list.nodes);
      SameLog(log);
      if !isRechecking {
        return true;
      }
      var found := FindNextEntryMatching(tx);
      if !found {
        return false;
      }
      if !valid {
        MappedIffListed(Txs(), list.order, txsMap, tx);
        var removed := RemoveTxByKey(tx);
      }
      ok := true;
    }

    /** Committed transactions leave the pool. */
    method RemoveCommitted(txs: seq<Tx>)
      requires Sound()
      modifies this`txsMap, this`txsBytes, list
      ensures Sound() && Txs() == Remaining(old(Txs()), txs)
      ensures !isRechecking ==> Valid() && View() == old(View()).(txs := Remaining(old(Txs()), txs))
    {
      hide Linked, Indexed, TxsOf, Without, Bytes, Logged, Standing, CursorOk, FromCursor;
      for i := 0 to |txs|
        invariant Sound() && Txs() == Remaining(old(Txs()), txs[..i])
      {
        assert txs[..i + 1][..i] == txs[..i];
        var ok := RemoveTxByKey(txs[i]);
      }
      assert txs[..|txs|] == txs;
    }

    /** Empties the pool, walking on from each element just removed. */
    method Flush()
      requires Sound()
      modifies this`txsMap, this`txsBytes, list
      ensures Sound() && Txs() == []
      ensures !isRechecking ==> Valid() && View() == old(View()).(txs := [])
    {
      hide Without, Linked, Logged, SameTxs, Rising;
      txsBytes := 0;
      var e := list.head;
      ghost var nodes0 := list.nodes;
      SameTxsSelf(nodes0);
      while e.Some?
        invariant list.Valid() && e == list.head && txsBytes == 0 && SameTxs(nodes0, list.nodes)
        decreases |list.order|
      {
        FrontFacts(list.nodes, list.order);
        ghost var nodes1 := list.nodes;
        list.Remove(e.value);
        SameTxsTransitive(nodes0, nodes1, list.nodes);
        e := list.nodes[e.value].next;
      }
      txsMap := map[];
      StandsStill(nodes0, list.nodes, cursor);
      assert Txs() == [];
    }

    /** Sends one entry for rechecking, with the answer that comes back at once, if any. The way on
        from the entry is the same even if the answer removes it. */
    method SendOne(e: nat, answer: Option<bool>) returns (next: Option<nat>)
      requires Valid() && isRechecking && e in list.order && e in list.nodes
      requires answer.Some? ==> Rechecked(Counted(View()), list.nodes[e].tx, answer.value).Some?
      modifies this, list
      ensures Valid() && SameTxs(old(list.nodes), list.nodes) && WentOn(old(log), log) && Within(Txs(), old(Txs()))
      ensures Some(View()) == if answer.None? then Some(Counted(old(View())))
                              else Rechecked(Counted(old(View())), old(list.nodes[e].tx), answer.value)
      ensures list.order == if answer == Some(false) then Without(old(list.order), e) else old(list.order)
      ensures next == old(list.nodes[e].next)
    {
      hide Linked, Indexed, TxsOf, Without, Bytes, IndexOf, SameTxs, Rechecked, FromCursor, CursorOk, Logged, WentOn, Standing,
           Within;
      SameTxsSelf(list.nodes);
      SameLog(log);
      WithinSelf(Txs());
      WithoutWithin(Txs(), list.nodes[e].tx);
      MappedToElement(list.nodes, list.order, txsMap, e);
      pending := pending + 1;
      if answer.Some? {
        var ok := HandleRecheckTxResponse(list.nodes[e].tx, answer.value);
      }
      next := list.nodes[e].next;
    }

    /** Sends every entry for rechecking. An application may answer an entry at once; the loop goes
        on from an entry that such an answer removed. Fails when a recheck is still open. */
    method RecheckTxs(immediate: seq<Option<bool>>) returns (ok: bool)
      requires Sound() && Waited(log) && |immediate| == |list.order|
      modifies this, list
      ensures Sound() && (ok <==> !old(isRechecking) || old(Txs()) == []) && Within(Txs(), old(Txs()))
      ensures (!ok || old(Txs()) == []) ==> unchanged(this) && unchanged(list)
      ensures (ok && old(Txs()) != []) ==> Valid() && Some(View()) == Sent(old(View()), immediate, |immediate|)
      ensures (ok && old(Txs()) != []) ==> !Waited(log) && (NoTimeout(old(log)) ==> NoTimeout(log))
    {
      hide Linked, Indexed, TxsOf, Without, Bytes, IndexOf, SameTxs, Rechecked, FromCursor, CursorOk, SentOk, Distinct,
           Sent, Sending, Logged, WentOn, Waited, NoTimeout, Within;
      WithinSelf(Txs());
      ListFacts(list.nodes, list.order, txsMap);
      if list.len == 0 {
        return true;
      }
      if isRechecking {
        return false;
      }
      ghost var start, order0, nodes0 := View(), list.order, list.nodes;
      LogBegins(log, token);
      cursor, end, pending, isRechecking, log := list.head, list.tail, 0, true, log + [Began];
      ghost var log0 := log;
      Init(list.nodes, list.order, cursor, end);
      HeadStands(list.nodes, list.order);
      SentNothing(start, immediate);
      SameTxsSelf(list.nodes);
      SameLog(log);
      SendingBegins(list.nodes, list.order);
      var e, i := list.head, 0;
      while e.Some?
        invariant 0 <= i <= |order0| && Valid() && WentOn(log0, log) && Within(Txs(), start.txs)
        invariant Sending(nodes0, order0, list.nodes, list.order, e, i)
        invariant Sent(start, immediate, i) == Some(View())
        decreases |order0| - i
      {
        ghost var nodes1, order1, log1, txs1 := list.nodes, list.order, log, Txs();
        SendingFacts(nodes0, order0, nodes1, order1, e, i);
        NextToSend(start, immediate, i);
        var next := SendOne(e.value, immediate[i]);
        SendingGoesOn(nodes0, order0, nodes1, order1, e, i, list.nodes, list.order, immediate[i] == Some(false), next);
        WentOnFurther(log0, log1, log);
        WithinFurther(Txs(), txs1, start.txs);
        e, i := next, i + 1;
      }
      SendingEnds(nodes0, order0, list.nodes, list.order, i);
      WentOnMeans(log0, log);
      ok := true;
    }

    // -------------------------------------------------------------- updates and whole runs

    /** An arrival; fails on an answer that matches no entry from the cursor on. */
    method Receive(a: Arrival) returns (ok: bool)
      requires Sound()
      modifies this, list
      ensures Sound() && WentOn(old(log), log) && Within(Txs(), old(Txs()))
      ensures old(Valid()) ==> (ok <==> Arrived(old(View()), a).Some?)
      ensures (old(Valid()) && ok) ==> Valid() && Some(View()) == Arrived(old(View()), a)
    {
      hide Agrees, Standing, Logged, WentOn, Without, Within, CursorOk, FromCursor, TxsOf, SameTxs, Rechecked;
      SameLog(log);
      WithinSelf(Txs());
      match a
      case Answered(tx, valid) =>
        ghost var txs := Txs();
        ok := HandleRecheckTxResponse(tx, valid);
        WithoutWithin(txs, tx);
      case Decided =>
        var flipped := SetRecheckFull();
        ok := true;
    }

    /** Waits for the signal or for the timeout, whichever the run brings. */
    method Wait(arrivals: seq<Arrival>, timeout: bool) returns (r: Ending)
      requires Valid() && !Waited(log)
      modifies this, list
      ensures Sound() && Within(Txs(), old(Txs())) && (r.Done? ==> Waited(log)) && !r.Collided?
      ensures var (p, ending) := Waits(old(View()), arrivals, timeout);
              r == ending && (p.Some? ==> Valid() && Some(View()) == p)
      ensures (!timeout && NoTimeout(old(log))) ==> NoTimeout(log)
    {
      hide Standing, Logged, WentOn, Within, CursorOk, FromCursor, TxsOf, Waited, NoTimeout, Indexed, Linked, Bytes, Rising,
           Received, Arrived;
      ghost var log0, txs0, start := log, Txs(), View();
      NothingReceived(start, arrivals);
      SameLog(log);
      WithinSelf(txs0);
      for i := 0 to |arrivals|
        invariant Valid() && WentOn(log0, log) && Within(Txs(), txs0)
        invariant Received(start, arrivals, i) == Some(View())
      {
        OneReceived(start, arrivals, i);
        ghost var log1, txs1 := log, Txs();
        var ok := Receive(arrivals[i]);
        WentOnFurther(log0, log1, log);
        WithinFurther(Txs(), txs1, txs0);
        if !ok {
          WentOnMeans(log0, log);
          StrayStays(start, arrivals, i + 1, |arrivals|);
          return Stray;
        }
      }
      WentOnMeans(log0, log);
      if timeout {
        TimeOut();
        return Done;
      }
      if !token {
        return Stuck;
      }
      LogTakes(log, isRechecking);
      token, log := false, log + [TookSignal];
      return Done;
    }

    /** A block was committed: its transactions leave, and the others are rechecked and waited for. */
    method Update(committed: seq<Tx>, recheck: bool, immediate: seq<Option<bool>>, arrivals: seq<Arrival>, timeout: bool)
      returns (r: Ending)
      requires Sound() && Waited(log)
      modifies this, list
      ensures Sound() && (r.Done? ==> Waited(log))
      ensures Within(Txs(), Remaining(old(Txs()), committed))
      ensures !old(isRechecking) ==>
                var (p, ending) := Updates(old(View()), committed, recheck, immediate, arrivals, timeout);
                r == ending && (p.Some? ==> Valid() && Some(View()) == p)
      ensures r.Collided? <==> recheck && EndedByLeftover(old(log)) && Remaining(old(Txs()), committed) != []
      ensures (!timeout && NoTimeout(old(log))) ==> NoTimeout(log)
    {
      hide Standing, WentOn, Within, CursorOk, FromCursor, TxsOf, Waited, NoTimeout, Remaining, Open, Unread, LogOk,
           EndedByLeftover, Linked, Rising, Bytes, Sent, Waits, Fitted, Indexed;
      OpenExactly(log);
      RemoveCommitted(committed);
      ghost var left := Txs();
      WithinSelf(left);
      if !recheck {
        return Done;
      }
      ListFacts(list.nodes, list.order, txsMap);
      var n := list.len;
      var fitted := Fitted(immediate, n);
      var ok := RecheckTxs(fitted);
      if !ok {
        return Collided;
      }
      if n == 0 {
        return Done;
      }
      ghost var sent := Txs();
      r := Wait(arrivals, timeout);
      WithinFurther(Txs(), sent, left);
    }

    /** One event, whatever it is. A collision is exactly a recheck left open by a leftover signal. */
    method Handle(e: Event) returns (r: Ending)
      requires Sound() && Waited(log)
      modifies this, list
      ensures Sound() && (r.Done? ==> Waited(log))
      ensures r.Collided? <==> EndedByLeftover(old(log)) && Meets(e, old(Txs()))
      ensures old(Valid()) ==>
                var (p, ending) := Handles(limits, old(View()), e);
                && ((p.Some? || !ending.Done?) ==> r == ending)
                && (p.Some? ==> Valid() && Some(View()) == p)
      ensures (!RunsOut(e) && NoTimeout(old(log))) ==> NoTimeout(log)
    {
      hide Agrees, Standing, Waited, WentOn, NoTimeout, EndedByLeftover, Remaining, TxsOf, Open, Unread, LogOk, Updates,
           CursorOk, FromCursor, Arrived, IsFull;
      OpenExactly(log);
      r := Done;
      match e
      case FirstCheck(tx, valid) =>
        var ok := HandleCheckTxResponse(tx, valid);
        r := if ok then Done else Collided;
      case Arrive(a) =>
        ghost var log0 := log;
        var ok := Receive(a);
        WentOnMeans(log0, log);
        r := if ok then Done else Stray;
      case FlushAll =>
        Flush();
      case UpdateTo(committed, recheck, immediate, arrivals, timeout) =>
        r := Update(committed, recheck, immediate, arrivals, timeout);
    }

    lemma SoundFacts()
      requires Sound()
      ensures Agrees() && Distinct(Txs()) && LogOk(log) && (isRechecking <==> Open(log))
    {
      hide Linked, Bytes, TxsOf, Standing, Open, Unread, LogOk;
    }

    /** A run: events in any order, up to the first that does not end well. List, map and byte counter
        agree in every state it reaches; between events a recheck is open exactly if its wait took a
        leftover signal; and nothing collides unless some wait ran out of time. */
    method Run(events: seq<Event>) returns (r: Ending)
      requires Sound() && Waited(log)
      modifies this, list
      ensures Sound() && Agrees() && Distinct(Txs())
      ensures r.Done? ==> (isRechecking <==> EndedByLeftover(log))
      ensures (NoTimeout(old(log)) && forall i :: 0 <= i < |events| ==> !RunsOut(events[i])) ==> !r.Collided?
      ensures old(Valid()) ==>
                var (p, ending) := Runs(limits, old(View()), events);
                && ((p.Some? || !ending.Done?) ==> r == ending)
                && (p.Some? ==> Valid() && Some(View()) == p)
    {
      hide *;
      ghost var inList, start := Valid(), if Valid() then View() else EMPTY_POOL;
      RunsNothing(limits, start);
      assert events[..0] == [];
      ghost var calm := NoTimeout(log) && forall i :: 0 <= i < |events| ==> !RunsOut(events[i]);
      for i := 0 to |events|
        invariant Sound() && Waited(log) && (calm ==> NoTimeout(log))
        invariant inList ==>
                    var (p, ending) := Runs(limits, start, events[..i]);
                    ending.Done? && (p.Some? ==> Valid() && Some(View()) == p)
      {
        RunsOneMore(limits, start, events, i);
        ghost var before := Runs(limits, start, events[..i]);
        assert (inList && before.0.Some?) ==>
            Valid() && Runs(limits, start, events[..i + 1]) == Handles(limits, View(), events[i]);
        SoundFacts();
        if calm {
          OnlyTimeoutsLeaveOpen(log);
        }
        OpenExactly(log);
        r := Handle(events[i]);
        if !r.Done? {
          SoundFacts();
          RunsStop(limits, start, events, i + 1);
          return;
        }
      }
      SoundFacts();
      OpenExactly(log);
      assert events[..|events|] == events;
      r := Done;
    }
  }

  /** Every state that a fresh mempool reaches. */
  method Reach(limits: Limits, events: seq<Event>) returns (m: Mempool, r: Ending)
    ensures fresh(m) && m.Agrees() && Distinct(m.Txs())
    ensures r.Done? ==> (m.isRechecking <==> EndedByLeftover(m.log))
    ensures (forall i :: 0 <= i < |events| ==> !RunsOut(events[i])) ==> !r.Collided?
    ensures
      var (p, ending) := Runs(limits, EMPTY_POOL, events);
      && ((p.Some? || !ending.Done?) ==> r == ending)
      && (p.Some? ==> m.Valid() && Some(m.View()) == p)
  {
    hide Runs;
    m := new Mempool(limits);
    r := m.Run(events);
  }

  /** What an arrival does to the pool; nothing stands for the panic on a stray answer. */
  function Arrived(p: Pool, a: Arrival): Option<Pool> {
    match a
    case Answered(tx, valid) => Rechecked(p, tx, valid)
    case Decided => Some(p.(full := p.todo.Some?))
  }

  /** The pool after the first `n` arrivals. */
  function Received(p: Pool, arrivals: seq<Arrival>, n: nat): Option<Pool>
    requires n <= |arrivals|
  {
    if n == 0 then Some(p)
    else if Received(p, arrivals, n - 1).None? then None
    else Arrived(Received(p, arrivals, n - 1).value, arrivals[n - 1])
  }

  /** A wait: its arrivals, and then the timeout or the signal. */
  function Waits(p: Pool, arrivals: seq<Arrival>, timeout: bool): (Option<Pool>, Ending) {
    var q := Received(p, arrivals, |arrivals|);
    if q.None? then (None, Stray)
    else if timeout then (Some(TimedOut(q.value)), Done)
    else if q.value.token then (Some(q.value.(token := false)), Done)
    else (q, Stuck)
  }

  /** The answers given at once, for as many entries as there are. */
  function Fitted(immediate: seq<Option<bool>>, n: nat): (r: seq<Option<bool>>)
    ensures |r| == n
    ensures forall i :: 0 <= i < n ==> r[i] == if i < |immediate| then immediate[i] else None
  {
    seq(n, i requires 0 <= i < n => if i < |immediate| then immediate[i] else None)
  }

  /** An update that finds no recheck open. */
  function Updates(p: Pool, committed: seq<Tx>, recheck: bool, immediate: seq<Option<bool>>, arrivals: seq<Arrival>,
                   timeout: bool): (Option<Pool>, Ending)
  {
    var q := p.(txs := Remaining(p.txs, committed));
    if !recheck || q.txs == [] then (Some(q), Done)
    else
      var sent := Sent(q, Fitted(immediate, |q.txs|), |q.txs|);
      if sent.None? then (None, Stray) else Waits(sent.value, arrivals, timeout)
  }

  /** One event. Nothing stands for a pool whose entries were removed ahead of an open recheck. */
  function Handles(l: Limits, p: Pool, e: Event): (Option<Pool>, Ending) {
    match e
    case FirstCheck(tx, valid) => if p.todo.Some? then (Some(p), Collided) else (Checked(l, p, tx, valid), Done)
    case Arrive(a) => (Arrived(p, a), if Arrived(p, a).Some? then Done else Stray)
    case FlushAll => (if p.todo.Some? then None else Some(p.(txs := [])), Done)
    case UpdateTo(committed, recheck, immediate, arrivals, timeout) =>
      if p.todo.Some? then (None, if recheck && Remaining(p.txs, committed) != [] then Collided else Done)
      else Updates(p, committed, recheck, immediate, arrivals, timeout)
  }

  /** A whole run, up to its first bad ending or the first pool that nothing stands for. */
  function Runs(l: Limits, p: Pool, events: seq<Event>): (Option<Pool>, Ending) {
    if events == [] then (Some(p), Done)
    else
      var (q, ending) := Runs(l, p, events[..|events| - 1]);
      if q.None? || !ending.Done? then (q, ending) else Handles(l, q.value, events[|events| - 1])
  }

  lemma RunsNothing(l: Limits, p: Pool)
    ensures Runs(l, p, []) == (Some(p), Done)
  {
  }

  lemma RunsOneMore(l: Limits, p: Pool, events: seq<Event>, i: nat)
    requires i < |events|
    ensures
      var (q, ending) := Runs(l, p, events[..i]);
      Runs(l, p, events[..i + 1]) == if q.None? || !ending.Done? then (q, ending) else Handles(l, q.value, events[i])
  {
    hide Handles;
    assert events[..i + 1][..i] == events[..i];
  }

  /** After a bad ending nothing more happens. */
  lemma {:induction false} RunsStop(l: Limits, p: Pool, events: seq<Event>, i: nat)
    requires i <= |events|
    ensures
      var (q, ending) := Runs(l, p, events[..i]);
      (q.None? || !ending.Done?) ==> Runs(l, p, events) == (q, ending)
    decreases |events|
  {
    hide Handles;
    if i < |events| {
      var front := events[..|events| - 1];
      assert front[..i] == events[..i];
      RunsStop(l, p, front, i);
    } else {
      assert events[..i] == events;
    }
  }

  // ---------------------------------------------------------------- a run that collides

  /** A transaction is admitted; its recheck is answered just as the wait runs out, so that the signal
      stays; and the wait of the next recheck takes it. */
  function LeavesOpen(tx: Tx): seq<Event> {
    [FirstCheck(tx, true)]
    + [UpdateTo([], true, [], [Answered(tx, true)], true)]
    + [UpdateTo([], true, [], [], false)]
  }

  lemma SentSingle(tx: Tx, token: bool)
    ensures
      var p := Pool([tx], None, 0, false, token);
      Fitted([], 1) == [None] && Sent(p, [None], 1) == Some(p.(todo := Some([tx]), pending := 1))
  {
  }

  lemma FirstUpdate(tx: Tx)
    ensures Updates(Pool([tx], None, 0, false, false), [], true, [], [Answered(tx, true)], true)
            == (Some(Pool([tx], None, 0, false, true)), Done)
  {
    SentSingle(tx, false);
    var sent := Pool([tx], Some([tx]), 1, false, false);
    assert [tx][1..] == [];
    NothingReceived(sent, [Answered(tx, true)]);
    OneReceived(sent, [Answered(tx, true)], 0);
  }

  lemma SecondUpdate(tx: Tx)
    ensures Updates(Pool([tx], None, 0, false, true), [], true, [], [], false)
            == (Some(Pool([tx], Some([tx]), 1, false, false)), Done)
  {
    SentSingle(tx, true);
  }

  /** After that, every first check and every update with an entry left to recheck collides. */
  lemma CollisionHappens(l: Limits, tx: Tx, e: Event)
    requires l.maxTxs >= 1 && |tx| <= l.maxTxsBytes && Meets(e, [tx])
    ensures Runs(l, EMPTY_POOL, LeavesOpen(tx) + [e]).1 == Collided
  {
    hide Runs, Updates;
    var events := LeavesOpen(tx) + [e];
    assert events[0] == FirstCheck(tx, true) && events[3] == e;
    assert events[1] == UpdateTo([], true, [], [Answered(tx, true)], true) && events[2] == UpdateTo([], true, [], [], false);
    assert events[..0] == [] && events[..4] == events;
    RunsNothing(l, EMPTY_POOL);
    assert [] + [tx] == [tx];
    assert Checked(l, EMPTY_POOL, tx, true) == Some(Pool([tx], None, 0, false, false));
    RunsOneMore(l, EMPTY_POOL, events, 0);
    FirstUpdate(tx);
    RunsOneMore(l, EMPTY_POOL, events, 1);
    SecondUpdate(tx);
    RunsOneMore(l, EMPTY_POOL, events, 2);
    RunsOneMore(l, EMPTY_POOL, events, 3);
  }

  /** The collision on a new mempool, as the source runs it. */
  method ReachCollision(limits: Limits, tx: Tx, e: Event) returns (m: Mempool, r: Ending)
    requires limits.maxTxs >= 1 && |tx| <= limits.maxTxsBytes && Meets(e, [tx])
    ensures r == Collided
  {
    hide *;
    CollisionHappens(limits, tx, e);
    m, r := Reach(limits, LeavesOpen(tx) + [e]);
  }

  lemma NothingReceived(p: Pool, arrivals: seq<Arrival>)
    ensures Received(p, arrivals, 0) == Some(p)
  {
  }

  lemma OneReceived(p: Pool, arrivals: seq<Arrival>, n: nat)
    requires n < |arrivals| && Received(p, arrivals, n).Some?
    ensures Received(p, arrivals, n + 1) == Arrived(Received(p, arrivals, n).value, arrivals[n])
  {
    hide Arrived;
  }

  lemma {:induction false} StrayStays(p: Pool, arrivals: seq<Arrival>, n: nat, m: nat)
    requires n <= m <= |arrivals| && Received(p, arrivals, n).None?
    ensures Received(p, arrivals, m).None?
  {
    hide Arrived;
    if n < m {
      StrayStays(p, arrivals, n, m - 1);
    }
  }

  /** The events that an open recheck stops: a first check, and an update with entries to recheck. */
  predicate Meets(e: Event, txs: seq<Tx>) {
    e.FirstCheck? || (e.UpdateTo? && e.recheck && Remaining(txs, e.committed) != [])
  }

  predicate RunsOut(e: Event) {
    e.UpdateTo? && e.timeout
  }

  /** The cursor, if any, stands on an element that was made. */
  predicate Standing(nodes: map<nat, Node>, cursor: Option<nat>) {
    cursor.Some? ==> cursor.value in nodes
  }

  lemma StandsStill(nodes: map<nat, Node>, nodes': map<nat, Node>, cursor: Option<nat>)
    requires Standing(nodes, cursor) && SameTxs(nodes, nodes')
    ensures Standing(nodes', cursor)
  {
  }

  lemma NothingYet()
    ensures Indexed([], [], map[]) && Bytes([]) == 0 && Logged([], false, false)
  {
  }

  lemma HeadStands(nodes: map<nat, Node>, order: seq<nat>)
    requires Linked(nodes, order) && order != []
    ensures order[0] in nodes
  {
    assert LinkedAt(nodes, order, 0);
  }

  lemma Onward(nodes: map<nat, Node>, k: nat)
    requires Rising(nodes) && k in nodes
    ensures Standing(nodes, nodes[k].next) && (nodes[k].next.Some? ==> nodes[k].next.value > k)
  {
  }

  /** The cursor has gone from entry `p` to entry `q` without a match. */
  ghost predicate Walked(order: seq<nat>, txs: seq<Tx>, p: nat, q: nat, cursor: Option<nat>, tx: Tx) {
    && |txs| == |order| && p <= q <= |order| && cursor == (if q < |order| then Some(order[q]) else None)
    && forall i :: p <= i < q ==> txs[i] != tx
  }

  lemma SameLog(log: seq<Mark>)
    ensures WentOn(log, log)
  {
  }

  lemma WentOnMeans(log: seq<Mark>, log': seq<Mark>)
    requires WentOn(log, log')
    ensures (Waited(log') <==> Waited(log)) && (NoTimeout(log) ==> NoTimeout(log'))
  {
  }

  lemma WentOnFurther(a: seq<Mark>, b: seq<Mark>, c: seq<Mark>)
    requires WentOn(a, b) && WentOn(b, c)
    ensures WentOn(a, c)
  {
    hide Waited, NoTimeout;
  }

  predicate Within(s: seq<Tx>, t: seq<Tx>) {
    forall i :: 0 <= i < |s| ==> s[i] in t
  }

  lemma WithinSelf(s: seq<Tx>)
    ensures Within(s, s)
  {
  }

  lemma WithinFurther(a: seq<Tx>, b: seq<Tx>, c: seq<Tx>)
    requires Within(a, b) && Within(b, c)
    ensures Within(a, c)
  {
  }

  lemma WithoutWithin(s: seq<Tx>, x: Tx)
    ensures Within(Without(s, x), s)
  {
  }

  /** While rechecking, the cursor stands in the list and the end is its last element. */
  ghost predicate CursorOk(order: seq<nat>, cursor: Option<nat>, end: Option<nat>) {
    cursor.Some? && cursor.value in order && end == Some(order[|order| - 1])
  }

  ghost function FromCursor(nodes: map<nat, Node>, order: seq<nat>, cursor: Option<nat>, end: Option<nat>): seq<Tx>
    requires CursorOk(order, cursor, end)
  {
    TxsOf(nodes, order)[IndexOf(order, cursor.value)..]
  }

  /** The map leads from each transaction of the list to its element, and from nothing else. */
  ghost predicate Indexed(txs: seq<Tx>, order: seq<nat>, txsMap: map<Tx, nat>) {
    && |txs| == |order| && Distinct(txs)
    && (forall i :: 0 <= i < |txs| ==> txs[i] in txsMap && txsMap[txs[i]] == order[i])
    && (forall tx :: tx in txsMap ==> tx in txs)
  }

  lemma Position(txs: seq<Tx>, order: seq<nat>, txsMap: map<Tx, nat>, tx: Tx) returns (k: nat)
    requires Indexed(txs, order, txsMap) && tx in txsMap
    ensures k < |order| && txs[k] == tx && order[k] == txsMap[tx]
  {
    k := IndexOf(txs, tx);
  }

  lemma SameTxsSelf(nodes: map<nat, Node>)
    ensures SameTxs(nodes, nodes)
  {
  }

  lemma Here(txs: seq<Tx>, order: seq<nat>, txsMap: map<Tx, nat>, tx: Tx)
    requires Indexed(txs, order, txsMap) && tx in txsMap
    ensures tx in txs
  {
  }

  /** The element that leaves the list, if any, keeps its way forward. */
  ghost predicate Leaves(nodes: map<nat, Node>, nodes': map<nat, Node>, order: seq<nat>, order': seq<nat>, e: Option<nat>) {
    if e.None? then nodes' == nodes && order' == order
    else && e.value in order && order' == Without(order, e.value)
         && e.value in nodes && e.value in nodes' && nodes'[e.value].next == nodes[e.value].next
  }

  lemma ListFacts(nodes: map<nat, Node>, order: seq<nat>, txsMap: map<Tx, nat>)
    requires Linked(nodes, order) && Indexed(TxsOf(nodes, order), order, txsMap)
    ensures Distinct(order) && Distinct(TxsOf(nodes, order)) && |TxsOf(nodes, order)| == |order|
  {
  }

  lemma Absent(txs: seq<Tx>, p: nat, tx: Tx)
    requires p <= |txs| && forall i :: p <= i < |txs| ==> txs[i] != tx
    ensures tx !in txs[p..]
  {
  }

  lemma Present(txs: seq<Tx>, p: nat, q: nat)
    requires p <= q < |txs|
    ensures txs[q] in txs[p..]
  {
    assert txs[p..][q - p] == txs[q];
  }

  lemma At(nodes: map<nat, Node>, order: seq<nat>, q: nat)
    requires Linked(nodes, order) && q < |order|
    ensures order[q] in nodes && nodes[order[q]].next == After(order, q)
    ensures |TxsOf(nodes, order)| == |order| && TxsOf(nodes, order)[q] == nodes[order[q]].tx
  {
    assert LinkedAt(nodes, order, q);
  }

  /** Where the cursor goes when entry `q` is answered. */
  lemma CursorAnswers(nodes: map<nat, Node>, order: seq<nat>, p: nat, q: nat, tx: Tx)
    requires Linked(nodes, order) && p <= q < |order| && Distinct(TxsOf(nodes, order)) && TxsOf(nodes, order)[q] == tx
    ensures
      var txs := TxsOf(nodes, order);
      && p <= |txs| && tx in txs[p..] && tx !in txs[q + 1..]
      && txs[p..][IndexOf(txs[p..], tx) + 1..] == txs[q + 1..]
      && ((order[q] == order[|order| - 1]) <==> txs[q + 1..] == [])
      && (q + 1 < |order| ==> order[q + 1] in order && IndexOf(order, order[q + 1]) == q + 1)
  {
    var txs := TxsOf(nodes, order);
    NextEntry(txs, p, q);
    if q + 1 < |order| {
      IndexOfAt(order, q + 1);
    }
  }

  lemma CursorMeans(nodes: map<nat, Node>, order: seq<nat>, cursor: Option<nat>, end: Option<nat>)
    requires CursorOk(order, cursor, end)
    ensures cursor.Some? && cursor.value in order && end == Some(order[|order| - 1])
    ensures |TxsOf(nodes, order)| == |order| && FromCursor(nodes, order, cursor, end) == TxsOf(nodes, order)[IndexOf(order, cursor.value)..]
  {
  }

  lemma CursorMoves(nodes: map<nat, Node>, order: seq<nat>, q: nat, end: Option<nat>)
    requires Linked(nodes, order) && q < |order| && end == Some(order[|order| - 1])
    ensures q + 1 < |order| ==>
              && CursorOk(order, After(order, q), end)
              && FromCursor(nodes, order, After(order, q), end) == TxsOf(nodes, order)[q + 1..]
  {
    if q + 1 < |order| {
      hide IndexOf;
      IndexOfAt(order, q + 1);
    }
  }

  lemma AnsweredAt(pool: Pool, txs: seq<Tx>, p: nat, q: nat)
    requires p <= q < |txs| && Distinct(txs) && pool.txs == txs && pool.todo == Some(txs[p..])
    ensures Rechecked(pool, txs[q], true)
         == Some(Pool(txs, if q + 1 == |txs| then None else Some(txs[q + 1..]), pool.pending - 1,
                      q + 1 < |txs| && pool.full, q + 1 == |txs| || pool.token))
  {
    hide IndexOf;
    NextEntry(txs, p, q);
  }

  lemma MappedIffListed(txs: seq<Tx>, order: seq<nat>, txsMap: map<Tx, nat>, tx: Tx)
    requires Indexed(txs, order, txsMap)
    ensures tx in txsMap <==> tx in txs
  {
  }

  /** The first `i` entries are sent; the others still end the list, and `e` is the first of them. */
  ghost predicate Sending(nodes0: map<nat, Node>, order0: seq<nat>, nodes: map<nat, Node>, order: seq<nat>, e: Option<nat>, i: nat) {
    && i <= |order0| && SameTxs(nodes0, nodes) && Linked(nodes0, order0) && Linked(nodes, order)
    && (exists kept :: order == kept + order0[i..])
    && e == if i < |order0| then Some(order0[i]) else None
  }

  lemma SendingBegins(nodes: map<nat, Node>, order: seq<nat>)
    requires Linked(nodes, order) && order != []
    ensures Sending(nodes, order, nodes, order, Some(order[0]), 0)
  {
    hide Linked;
    assert order == [] + order[0..];
  }

  lemma SendingFacts(nodes0: map<nat, Node>, order0: seq<nat>, nodes: map<nat, Node>, order: seq<nat>, e: Option<nat>, i: nat)
    requires Sending(nodes0, order0, nodes, order, e, i) && e.Some?
    ensures i < |order0| && e.value in order && e.value in nodes
    ensures |TxsOf(nodes0, order0)| == |order0| && nodes[e.value].tx == TxsOf(nodes0, order0)[i]
  {
    hide Linked, TxsOf;
    var kept :| order == kept + order0[i..];
    Suffix(kept, order0, i);
    Entry(nodes0, nodes, order0, i);
  }

  lemma SendingGoesOn(nodes0: map<nat, Node>, order0: seq<nat>, nodes: map<nat, Node>, order: seq<nat>, e: Option<nat>,
                      i: nat, nodes': map<nat, Node>, order': seq<nat>, removed: bool, next: Option<nat>)
    requires Sending(nodes0, order0, nodes, order, e, i) && e.Some? && e.value in nodes && next == nodes[e.value].next
    requires SameTxs(nodes, nodes') && Linked(nodes', order')
    requires order' == if removed then Without(order, e.value) else order
    ensures Sending(nodes0, order0, nodes', order', next, i + 1)
  {
    hide Linked, Without, SameTxs;
    var kept :| order == kept + order0[i..];
    Suffix(kept, order0, i);
    LinkedDistinct(nodes, order);
    At(nodes, order, |kept|);
    SameTxsTransitive(nodes0, nodes, nodes');
    assert order' == (if removed then kept else kept + [order0[i]]) + order0[i + 1..];
  }

  lemma SendingEnds(nodes0: map<nat, Node>, order0: seq<nat>, nodes: map<nat, Node>, order: seq<nat>, i: nat)
    requires Sending(nodes0, order0, nodes, order, None, i)
    ensures i == |order0|
  {
  }

  lemma LinkedDistinct(nodes: map<nat, Node>, order: seq<nat>)
    requires Linked(nodes, order)
    ensures Distinct(order)
  {
  }

  /** The entry at the front of the unsent ones, whether it stays or leaves. */
  lemma Suffix(kept: seq<nat>, order0: seq<nat>, i: nat)
    requires i < |order0|
    ensures
      var order := kept + order0[i..];
      && order[|kept|] == order0[i]
      && After(order, |kept|) == (if i + 1 < |order0| then Some(order0[i + 1]) else None)
      && order == kept + [order0[i]] + order0[i + 1..]
      && (Distinct(order) ==> Without(order, order0[i]) == kept + order0[i + 1..])
  {
    var order := kept + order0[i..];
    if Distinct(order) {
      WithoutAt(order, |kept|);
      assert order[..|kept|] == kept && order[|kept| + 1..] == order0[i + 1..];
    }
  }

  lemma Entry(nodes0: map<nat, Node>, nodes: map<nat, Node>, order0: seq<nat>, i: nat)
    requires Linked(nodes0, order0) && SameTxs(nodes0, nodes) && i < |order0|
    ensures order0[i] in nodes && |TxsOf(nodes0, order0)| == |order0| && nodes[order0[i]].tx == TxsOf(nodes0, order0)[i]
  {
    assert LinkedAt(nodes0, order0, i);
  }

  /** One more request is pending. */
  function Counted(p: Pool): Pool {
    p.(pending := p.pending + 1)
  }

  lemma NextToSend(start: Pool, immediate: seq<Option<bool>>, i: nat)
    requires i < |immediate| == |start.txs| && Distinct(start.txs) && start.todo.None?
    requires Sent(start, immediate, i).Some?
    ensures
      var p := Sent(start, immediate, i).value;
      && p.todo.Some? && Sent(start, immediate, i + 1).Some?
      && (immediate[i].Some? ==> Rechecked(Counted(p), start.txs[i], immediate[i].value).Some?)
      && Sent(start, immediate, i + 1)
         == if immediate[i].None? then Some(Counted(p)) else Rechecked(Counted(p), start.txs[i], immediate[i].value)
  {
    hide Rechecked, Sent, Given, Outcome;
    SentUnfolds(start, immediate, i);
    SentOutcome(start, immediate, i);
    SentOutcome(start, immediate, i + 1);
  }

  lemma SentUnfolds(start: Pool, immediate: seq<Option<bool>>, i: nat)
    requires i < |immediate| == |start.txs| && Sent(start, immediate, i).Some?
    ensures
      var p := Sent(start, immediate, i).value;
      Sent(start, immediate, i + 1)
      == if immediate[i].None? then Some(Counted(p)) else Rechecked(Counted(p), start.txs[i], immediate[i].value)
  {
    hide Rechecked;
  }

  lemma SentNothing(start: Pool, immediate: seq<Option<bool>>)
    requires |immediate| == |start.txs|
    ensures Sent(start, immediate, 0) == Some(if start.txs == [] then start else start.(todo := Some(start.txs), pending := 0))
  {
  }

  lemma MappedToElement(nodes: map<nat, Node>, order: seq<nat>, txsMap: map<Tx, nat>, e: nat)
    requires Linked(nodes, order) && Indexed(TxsOf(nodes, order), order, txsMap) && e in order
    ensures e in nodes && nodes[e].tx in txsMap && txsMap[nodes[e].tx] == e
  {
    hide Linked, Indexed, TxsOf;
    MappedTo(nodes, order, txsMap, IndexOf(order, e));
  }

  lemma MappedTo(nodes: map<nat, Node>, order: seq<nat>, txsMap: map<Tx, nat>, k: nat)
    requires Linked(nodes, order) && Indexed(TxsOf(nodes, order), order, txsMap) && k < |order|
    ensures Distinct(order) && order[k] in nodes && nodes[order[k]].tx in txsMap && txsMap[nodes[order[k]].tx] == order[k]
  {
    assert LinkedAt(nodes, order, k);
    assert TxsOf(nodes, order)[k] == nodes[order[k]].tx;
  }

  lemma SameTxsTransitive(a: map<nat, Node>, b: map<nat, Node>, c: map<nat, Node>)
    requires SameTxs(a, b) && SameTxs(b, c)
    ensures SameTxs(a, c)
  {
  }

  lemma Init(nodes: map<nat, Node>, order: seq<nat>, cursor: Option<nat>, end: Option<nat>)
    requires order != [] && cursor == Some(order[0]) && end == Some(order[|order| - 1])
    ensures CursorOk(order, cursor, end) && FromCursor(nodes, order, cursor, end) == TxsOf(nodes, order)
  {
  }

  lemma FrontFacts(nodes: map<nat, Node>, order: seq<nat>)
    requires Linked(nodes, order) && order != []
    ensures order[0] in nodes && |Without(order, order[0])| == |order| - 1
    ensures nodes[order[0]].next == if |order| == 1 then None else Some(Without(order, order[0])[0])
  {
    assert LinkedAt(nodes, order, 0);
    WithoutAt(order, 0);
  }

  lemma NotThere(txs: seq<Tx>, order: seq<nat>, txsMap: map<Tx, nat>, tx: Tx)
    requires Indexed(txs, order, txsMap) && tx !in txsMap
    ensures tx !in txs && Without(txs, tx) == txs
  {
  }

  lemma RemoveFacts(nodes: map<nat, Node>, order: seq<nat>, txsMap: map<Tx, nat>, tx: Tx)
    requires Linked(nodes, order) && Indexed(TxsOf(nodes, order), order, txsMap) && tx in txsMap
    ensures
      var txs, e := TxsOf(nodes, order), txsMap[tx];
      && e in order && tx in txs && TxsOf(nodes, Without(order, e)) == Without(txs, tx)
      && Indexed(Without(txs, tx), Without(order, e), txsMap - {tx})
      && (forall i :: 0 <= i < |Without(order, e)| ==> Without(order, e)[i] in nodes)
      && Bytes(Without(txs, tx)) == Bytes(txs) - |tx|
  {
    hide Linked, Without, Bytes;
    var k := Position(TxsOf(nodes, order), order, txsMap, tx);
    RemovedFacts(nodes, order, txsMap, k);
    BytesWithout(TxsOf(nodes, order), tx);
  }

  lemma CursorKept(nodes: map<nat, Node>, nodes': map<nat, Node>, order: seq<nat>, txsMap: map<Tx, nat>, tx: Tx,
                   cursor: Option<nat>, end: Option<nat>)
    requires Linked(nodes, order) && Indexed(TxsOf(nodes, order), order, txsMap) && tx in txsMap
    requires CursorOk(order, cursor, end) && tx !in FromCursor(nodes, order, cursor, end)
    requires SameTxs(nodes, nodes')
    ensures CursorOk(Without(order, txsMap[tx]), cursor, end)
    ensures FromCursor(nodes', Without(order, txsMap[tx]), cursor, end) == FromCursor(nodes, order, cursor, end)
  {
    hide Linked, Without, TxsOf, SameTxs;
    var k := Position(TxsOf(nodes, order), order, txsMap, tx);
    RemoveFacts(nodes, order, txsMap, tx);
    TxAtPosition(nodes, order, k);
    SuffixKept(nodes, order, k, cursor.value);
    TxsSame(nodes, nodes', Without(order, txsMap[tx]));
  }

  lemma TxAtPosition(nodes: map<nat, Node>, order: seq<nat>, k: nat)
    requires k < |order|
    ensures |TxsOf(nodes, order)| == |order| && TxsOf(nodes, order)[k] == TxAt(nodes, order[k])
  {
  }

  lemma RemovedFacts(nodes: map<nat, Node>, order: seq<nat>, txsMap: map<Tx, nat>, k: nat)
    requires k < |order| && Linked(nodes, order) && Indexed(TxsOf(nodes, order), order, txsMap)
    ensures
      var txs, tx, rest := TxsOf(nodes, order), TxAt(nodes, order[k]), Without(order, order[k]);
      && tx in txs && TxsOf(nodes, rest) == Without(txs, tx) && Indexed(Without(txs, tx), rest, txsMap - {tx})
      && (forall i :: 0 <= i < |rest| ==> rest[i] in nodes)
  {
    hide Without, IndexOf;
    var txs, tx, rest := TxsOf(nodes, order), TxAt(nodes, order[k]), Without(order, order[k]);
    TxsWithout(nodes, order, k);
    WithoutIs(txs, tx);
    assert txs[k] == tx;
    WithoutAt(order, k);
    WithoutAt(txs, k);
    forall i | 0 <= i < |rest|
      ensures rest[i] in nodes
    {
      assert LinkedAt(nodes, order, if i < k then i else i + 1);
    }
  }

  /** Removing an entry behind the cursor leaves the entries from the cursor on as they are. */
  lemma SuffixKept(nodes: map<nat, Node>, order: seq<nat>, k: nat, c: nat)
    requires k < |order| && Linked(nodes, order) && c in order
    requires TxAt(nodes, order[k]) !in TxsOf(nodes, order)[IndexOf(order, c)..]
    ensures
      var rest := Without(order, order[k]);
      && c in rest && rest[|rest| - 1] == order[|order| - 1]
      && TxsOf(nodes, rest)[IndexOf(rest, c)..] == TxsOf(nodes, order)[IndexOf(order, c)..]
  {
    hide Without, IndexOf, LinkedAt, TxsOf;
    var rest, p := Without(order, order[k]), IndexOf(order, c);
    LinkedDistinct(nodes, order);
    TxsSuffix(nodes, order, p);
    BeforeCursor(nodes, order, k, p);
    WithoutAt(order, k);
    assert rest[p - 1] == c;
    IndexOfAt(rest, p - 1);
    assert rest[p - 1..] == order[p..];
    TxsSuffix(nodes, rest, p - 1);
  }

  lemma TxsSuffix(nodes: map<nat, Node>, order: seq<nat>, p: nat)
    requires p <= |order|
    ensures |TxsOf(nodes, order)| == |order| && TxsOf(nodes, order)[p..] == TxsOf(nodes, order[p..])
  {
  }

  lemma BeforeCursor(nodes: map<nat, Node>, order: seq<nat>, k: nat, p: nat)
    requires k < |order| && p < |order| && |TxsOf(nodes, order)| == |order|
    requires TxAt(nodes, order[k]) !in TxsOf(nodes, order)[p..]
    ensures k < p
  {
    var txs := TxsOf(nodes, order);
    assert forall i :: p <= i < |txs| ==> txs[p..][i - p] == txs[i];
    assert txs[k] == TxAt(nodes, order[k]);
  }

  lemma BytesOne(tx: Tx)
    ensures Bytes([tx]) == |tx|
  {
    assert [tx][..0] == [];
  }

  lemma TxsPushed(nodes: map<nat, Node>, nodes': map<nat, Node>, order: seq<nat>, e: nat, tx: Tx)
    requires Linked(nodes, order) && SameTxs(nodes, nodes') && e in nodes' && nodes'[e].tx == tx
    ensures TxsOf(nodes', order + [e]) == TxsOf(nodes, order) + [tx]
  {
    forall i | 0 <= i < |order|
      ensures TxsOf(nodes', order + [e])[i] == TxsOf(nodes, order)[i]
    {
      assert LinkedAt(nodes, order, i);
    }
  }
}
