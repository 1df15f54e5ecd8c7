/** The chunk queue of state sync, and a single applier that drives it while fetchers allocate and
    add chunks at any moment. */
module Chunks {
  import opened Wrappers

  type Peer = nat

  const NO_PEER: Peer := 0

  datatype Chunk = Chunk(height: nat, format: nat, index: nat, body: seq<nat>, sender: Peer)

  datatype Queue = Queue(
    height: nat, format: nat, size: nat, closed: bool,
    files: map<nat, seq<nat>>, senders: map<nat, Peer>, taken: set<nat>, returned: set<nat>)

  function NewQueue(height: nat, format: nat, size: nat): Queue {
    Queue(height, format, size, false, map[], map[], {}, {})
  }

  // ---------------------------------------------------------------- operations

  predicate Fits(q: Queue, c: Chunk) {
    c.height == q.height && c.format == q.format && c.index < q.size
  }

  function AddChunk(q: Queue, c: Chunk): Queue {
    if q.closed || !Fits(q, c) || c.index in q.files then q
    else q.(files := q.files[c.index := c.body], senders := q.senders[c.index := c.sender])
  }

  /** The lowest number below `n` that is not in the set, from `i` on. */
  function FirstMissing(s: set<nat>, i: nat, n: nat): (r: Option<nat>)
    requires i <= n
    ensures r.Some? ==> i <= r.value < n && r.value !in s && forall j :: i <= j < r.value ==> j in s
    ensures r.None? <==> forall j :: i <= j < n ==> j in s
    decreases n - i
  {
    if i == n then None else if i !in s then Some(i) else FirstMissing(s, i + 1, n)
  }

  /** The next chunk to fetch. */
  function Unallocated(q: Queue): Option<nat> {
    if q.closed then None else FirstMissing(q.taken, 0, q.size)
  }

  /** The next chunk to apply. */
  function NextUp(q: Queue): Option<nat> {
    if q.closed then None else FirstMissing(q.returned, 0, q.size)
  }

  /** Chunks among `keys` that are stored go back to be fetched and applied again. */
  function Discarded(q: Queue, keys: set<nat>): Queue {
    if q.closed then q
    else
      var gone := keys * q.files.Keys;
      q.(files := q.files - gone, returned := q.returned - gone, taken := q.taken - gone)
  }

  function FromSender(q: Queue, peer: Peer): set<nat> {
    set i | i in q.senders && q.senders[i] == peer && i !in q.returned
  }

  /** All chunks of a sender that were not handed out yet are discarded, and their sender forgotten. */
  function SenderDiscarded(q: Queue, peer: Peer): Queue {
    Discarded(q, FromSender(q, peer)).(senders := q.senders - FromSender(q, peer))
  }

  class ChunkQueue {
    const height: nat
    const format: nat
    const size: nat
    var closed: bool
    var files: map<nat, seq<nat>>
    var senders: map<nat, Peer>
    var taken: set<nat>
    var returned: set<nat>

    function View(): Queue
      reads this
    {
      Queue(height, format, size, closed, files, senders, taken, returned)
    }

    /** Only chunks of the snapshot are ever taken. */
    predicate Valid()
      reads this
    {
      forall i :: i in taken ==> i < size
    }

    constructor (height: nat, format: nat, size: nat)
      ensures Valid() && View() == NewQueue(height, format, size)
    {
      this.height, this.format, this.size := height, format, size;
      closed, files, senders, taken, returned := false, map[], map[], {}, {};
    }

    /** Adds a chunk; an error for a chunk of another snapshot, false for one already there. */
    method Add(c: Chunk) returns (r: Result<bool>)
      modifies this`files, this`senders
      ensures View() == AddChunk(old(View()), c)
      ensures r.Err? <==> !closed && !Fits(old(View()), c)
      ensures r == Ok(true) <==> !closed && c.height == height && c.format == format && c.index < size && c.index !in old(files)
      ensures files == if r == Ok(true) then old(files)[c.index := c.body] else old(files)
      ensures senders == if r == Ok(true) then old(senders)[c.index := c.sender] else old(senders)
    {
      if closed {
        return Ok(false);
      }
      if c.height != height || c.format != format || c.index >= size {
        return Err;
      }
      if c.index in files {
        return Ok(false);
      }
      files := files[c.index := c.body];
      senders := senders[c.index := c.sender];
      return Ok(true);
    }

    /** Hands out the lowest chunk nobody is fetching. */
    method Allocate() returns (r: Option<nat>)
      requires Valid()
      modifies this`taken
      ensures Valid() && r == Unallocated(old(View()))
      ensures r.None? <==> closed || forall i :: 0 <= i < size ==> i in old(taken)
      ensures r.Some? ==> r.value < size && r.value !in old(taken) && forall i :: 0 <= i < r.value ==> i in old(taken)
      ensures taken == if r.Some? then old(taken) + {r.value} else old(taken)
    {
      if closed {
        return None;
      }
      if |taken| >= size {
        FullSet(taken, size);
        return None;
      }
      for i := 0 to size
        invariant taken == old(taken) && Unallocated(View()) == FirstMissing(taken, i, size)
      {
        if i !in taken {
          taken := taken + {i};
          return Some(i);
        }
      }
      return None;
    }

    method Discard(index: nat)
      modifies this`files, this`returned, this`taken
      ensures View() == Discarded(old(View()), {index})
      ensures !closed && index in old(files) ==> index !in files && index !in returned && index !in taken
    {
      if closed || index !in files {
        return;
      }
      files := files - {index};
      returned := returned - {index};
      taken := taken - {index};
    }

    method DiscardSender(peer: Peer)
      modifies this`files, this`returned, this`taken, this`senders
      ensures View() == SenderDiscarded(old(View()), peer)
      ensures forall i :: i in old(files) ==>
                (i !in files <==> !closed && i in old(senders) && old(senders)[i] == peer && i !in old(returned))
    {
      ghost var q, all := View(), FromSender(View(), peer);
      var left := senders.Keys;
      NothingDiscarded(q);
      assert all - left == {};
      while left != {}
        invariant left <= q.senders.Keys && senders == q.senders - (all - left)
        invariant View().(senders := q.senders) == Discarded(q, all - left)
        decreases left
      {
        var i :| i in left;
        UntouchedSender(q, all, left, i);
        OneMoreDiscarded(q, all - left, i);
        if senders[i] == peer && i !in returned {
          assert all - (left - {i}) == all - left + {i};
          Discard(i);
          senders := senders - {i};
        } else {
          assert all - (left - {i}) == all - left;
        }
        left := left - {i};
      }
      assert all - left == all;
    }

    /** The chunk to apply next, if one is left, and whether it is stored. It counts as handed out
        either way: the caller waits for one that has not arrived. */
    method Next() returns (index: Option<nat>, found: bool)
      modifies this`returned
      ensures index == NextUp(old(View())) && (found <==> index.Some? && index.value in files)
      ensures index.None? <==> closed || forall i :: 0 <= i < size ==> i in old(returned)
      ensures index.Some? ==> index.value < size && index.value !in old(returned)
                              && forall i :: 0 <= i < index.value ==> i in old(returned)
      ensures returned == if index.Some? then old(returned) + {index.value} else old(returned)
    {
      if closed {
        return None, false;
      }
      for i := 0 to size
        invariant returned == old(returned) && NextUp(View()) == FirstMissing(returned, i, size)
      {
        if i !in returned {
          returned := returned + {i};
          return Some(i), i in files;
        }
      }
      return None, false;
    }

    /** After the wait for a chunk: it is read and counts as handed out, if it has arrived. */
    method Collect(index: nat) returns (body: Option<seq<nat>>)
      modifies this`returned
      ensures body == if index in files then Some(files[index]) else None
      ensures returned == if body.Some? then old(returned) + {index} else old(returned)
    {
      if index !in files {
        return None;
      }
      returned := returned + {index};
      return Some(files[index]);
    }

    method Retry(index: nat)
      modifies this`returned
      ensures returned == old(returned) - {index}
    {
      returned := returned - {index};
    }

    method RetryAll()
      modifies this`returned
      ensures returned == {}
    {
      returned := {};
    }

    method Close()
      modifies this`closed
      ensures closed
    {
      closed := true;
    }
  }

  function Below(n: nat): set<nat> {
    if n == 0 then {} else Below(n - 1) + {n - 1}
  }

  lemma {:induction false} BelowIs(n: nat)
    ensures |Below(n)| == n && forall i: nat :: i in Below(n) <==> i < n
  {
    if n > 0 {
      BelowIs(n - 1);
    }
  }

  /** A set of `n` numbers below `n` lacks none of them. */
  lemma FullSet(s: set<nat>, n: nat)
    requires |s| >= n && forall i :: i in s ==> i < n
    ensures FirstMissing(s, 0, n).None?
  {
    BelowIs(n);
    assert s <= Below(n);
    SubsetSize(s, Below(n));
    assert s == Below(n);
  }

  lemma SubsetSize(a: set<nat>, b: set<nat>)
    requires a <= b && |a| >= |b|
    ensures a == b
  {
    assert b == a + (b - a);
    assert |b| == |a| + |b - a|;
  }

  lemma NothingDiscarded(q: Queue)
    ensures Discarded(q, {}) == q
  {
    assert {} * q.files.Keys == {};
    assert q.files - {} == q.files && q.returned - {} == q.returned && q.taken - {} == q.taken;
  }

  lemma OneMoreDiscarded(q: Queue, keys: set<nat>, i: nat)
    ensures Discarded(Discarded(q, keys), {i}) == Discarded(q, keys + {i})
  {
    if !q.closed {
      var gone := keys * q.files.Keys;
      var files := q.files - gone;
      var one := {i} * files.Keys;
      var both := (keys + {i}) * q.files.Keys;
      assert gone + one == both;
      assert files - one == q.files - both;
      assert q.returned - gone - one == q.returned - both;
      assert q.taken - gone - one == q.taken - both;
    }
  }

  /** A sender entry not visited yet is still as it was. */
  lemma UntouchedSender(q: Queue, all: set<nat>, left: set<nat>, i: nat)
    requires i in left && left <= q.senders.Keys && all <= q.senders.Keys
    ensures i in q.senders - (all - left) && (q.senders - (all - left))[i] == q.senders[i]
    ensures i in Discarded(q, all - left).returned <==> i in q.returned
  {
  }
}
