/** The linked list of the mempool: elements keep their successor when they are removed, so that
    whoever stands on one can still move on. */
module CLists {
  import opened Wrappers
  import opened MempoolModel

  datatype Node = Node(tx: Tx, prev: Option<nat>, next: Option<nat>, removed: bool)

  function After(order: seq<nat>, i: nat): Option<nat> {
    if i + 1 < |order| then Some(order[i + 1]) else None
  }

  function Before(order: seq<nat>, i: nat): Option<nat>
    requires i < |order|
  {
    if i > 0 then Some(order[i - 1]) else None
  }

  /** The nodes in `order` point at each other and at nothing else. */
  ghost predicate Linked(nodes: map<nat, Node>, order: seq<nat>) {
    && Distinct(order)
    && forall i :: 0 <= i < |order| ==> LinkedAt(nodes, order, i)
  }

  predicate LinkedAt(nodes: map<nat, Node>, order: seq<nat>, i: nat)
    requires i < |order|
  {
    && order[i] in nodes && !nodes[order[i]].removed
    && nodes[order[i]].next == After(order, i) && nodes[order[i]].prev == Before(order, i)
  }

  /** Every way forward, also that of a removed element, leads to an element made later. */
  predicate Rising(nodes: map<nat, Node>) {
    forall k :: k in nodes && nodes[k].next.Some? ==> nodes[k].next.value in nodes && nodes[k].next.value > k
  }

  predicate SameTxs(nodes: map<nat, Node>, nodes': map<nat, Node>) {
    forall k :: k in nodes ==> k in nodes' && nodes'[k].tx == nodes[k].tx
  }

  class CList {
    var nodes: map<nat, Node>
    var made: nat
    var head: Option<nat>
    var tail: Option<nat>
    var len: nat
    ghost var order: seq<nat>

    ghost predicate Valid()
      reads this
    {
      && Linked(nodes, order) && len == |order|
      && head == (if order == [] then None else Some(order[0]))
      && tail == (if order == [] then None else Some(order[|order| - 1]))
      && (forall k :: k in nodes ==> k < made) && Rising(nodes)
    }

    constructor ()
      ensures Valid() && order == [] && nodes == map[]
    {
      nodes, made, head, tail, len, order := map[], 0, None, None, 0, [];
    }

    method PushBack(tx: Tx) returns (e: nat)
      requires Valid()
      modifies this
      ensures Valid() && order == old(order) + [e] && e !in old(nodes) && e in nodes && nodes[e].tx == tx
      ensures SameTxs(old(nodes), nodes)
    {
      e, made := made, made + 1;
      len := len + 1;
      ghost var nodes0 := nodes;
      if tail.None? {
        nodes := nodes[e := Node(tx, None, None, false)];
        head, tail := Some(e), Some(e);
      } else {
        assert LinkedAt(nodes, order, |order| - 1);
        nodes := nodes[e := Node(tx, tail, None, false)];
        nodes := nodes[tail.value := nodes[tail.value].(next := Some(e))];
        tail := Some(e);
      }
      PushLinks(nodes0, order, e, tx);
      PushRises(nodes0, order, e, tx);
      order := order + [e];
    }

    /** Takes an element out and cuts its way back; its way forward stays. */
    method Remove(e: nat)
      requires Valid() && e in order
      modifies this
      ensures Valid() && order == Without(old(order), e)
      ensures e in old(nodes) && e in nodes && nodes[e] == old(nodes)[e].(removed := true, prev := None)
      ensures SameTxs(old(nodes), nodes)
    {
      hide Linked, Without, IndexOf, SameTxs, Rising;
      ghost var k, nodes0 := IndexOf(order, e), nodes;
      UnlinkOk(nodes, order, k);
      UnlinkRises(nodes, order, k);
      var node := nodes[e];
      len := len - 1;
      if node.prev.None? {
        head := node.next;
      } else {
        nodes := nodes[node.prev.value := nodes[node.prev.value].(next := node.next)];
      }
      if node.next.None? {
        tail := node.prev;
      } else {
        nodes := nodes[node.next.value := nodes[node.next.value].(prev := node.prev)];
      }
      nodes := nodes[e := node.(removed := true, prev := None)];
      assert nodes == Unlink(nodes0, e);
      EndsOf(order, k);
      order := order[..k] + order[k + 1..];
    }
  }

  lemma PushRises(nodes: map<nat, Node>, order: seq<nat>, e: nat, tx: Tx)
    requires Linked(nodes, order) && Rising(nodes) && forall k :: k in nodes ==> k < e
    ensures
      var last := if order == [] then None else Some(order[|order| - 1]);
      var with := nodes[e := Node(tx, last, None, false)];
      && (last.Some? ==> last.value in with)
      && Rising(if last.None? then with else with[last.value := with[last.value].(next := Some(e))])
  {
    if order != [] {
      assert LinkedAt(nodes, order, |order| - 1);
    }
  }

  lemma UnlinkRises(nodes: map<nat, Node>, order: seq<nat>, k: nat)
    requires Linked(nodes, order) && Rising(nodes) && k < |order|
    requires order[k] in nodes && (nodes[order[k]].prev.Some? ==> nodes[order[k]].prev.value in nodes)
    requires nodes[order[k]].next.Some? ==> nodes[order[k]].next.value in nodes
    ensures Rising(Unlink(nodes, order[k]))
  {
    assert LinkedAt(nodes, order, k);
    if k > 0 {
      assert LinkedAt(nodes, order, k - 1);
    }
  }

  /** The pointers after an element is bypassed and marked. */
  function Unlink(nodes: map<nat, Node>, e: nat): map<nat, Node>
    requires e in nodes && (nodes[e].prev.Some? ==> nodes[e].prev.value in nodes)
    requires nodes[e].next.Some? ==> nodes[e].next.value in nodes
  {
    var node := nodes[e];
    var skip := if node.prev.None? then nodes else nodes[node.prev.value := nodes[node.prev.value].(next := node.next)];
    var back := if node.next.None? then skip else skip[node.next.value := skip[node.next.value].(prev := node.prev)];
    back[e := node.(removed := true, prev := None)]
  }

  lemma EndsOf(order: seq<nat>, k: nat)
    requires k < |order|
    ensures
      var rest := order[..k] + order[k + 1..];
      && |rest| == |order| - 1
      && (if rest == [] then None else Some(rest[0])) == (if k == 0 then After(order, 0) else Some(order[0]))
      && (if rest == [] then None else Some(rest[|rest| - 1]))
         == (if k == |order| - 1 then Before(order, k) else Some(order[|order| - 1]))
  {
  }

  lemma UnlinkOk(nodes: map<nat, Node>, order: seq<nat>, k: nat)
    requires Linked(nodes, order) && k < |order|
    ensures LinkedAt(nodes, order, k)
    ensures
      var e := order[k];
      && e in nodes && (nodes[e].prev.Some? ==> nodes[e].prev.value in nodes)
      && (nodes[e].next.Some? ==> nodes[e].next.value in nodes)
      && Linked(Unlink(nodes, e), order[..k] + order[k + 1..])
      && order[..k] + order[k + 1..] == Without(order, e)
      && SameTxs(nodes, Unlink(nodes, e)) && Unlink(nodes, e).Keys == nodes.Keys
      && Unlink(nodes, e)[e] == nodes[e].(removed := true, prev := None)
  {
    var e := order[k];
    assert LinkedAt(nodes, order, k);
    if k > 0 {
      assert LinkedAt(nodes, order, k - 1);
    }
    if k + 1 < |order| {
      assert LinkedAt(nodes, order, k + 1);
    }
    forall i | 0 <= i < |order| && i != k
      ensures UnlinkedAt(nodes, Unlink(nodes, e), order, k, i)
    {
      assert LinkedAt(nodes, order, i);
    }
    RemoveLinks(nodes, Unlink(nodes, e), order, k);
  }

  lemma PushLinks(nodes: map<nat, Node>, order: seq<nat>, e: nat, tx: Tx)
    requires Linked(nodes, order) && e !in nodes
    ensures
      var last := if order == [] then None else Some(order[|order| - 1]);
      var with := nodes[e := Node(tx, last, None, false)];
      && (last.Some? ==> last.value in with)
      && Linked(if last.None? then with else with[last.value := with[last.value].(next := Some(e))], order + [e])
  {
    var longer := order + [e];
    forall i | 0 <= i < |order|
      ensures longer[i] == order[i] && order[i] in nodes && order[i] != e
    {
      assert LinkedAt(nodes, order, i);
    }
    var last := if order == [] then None else Some(order[|order| - 1]);
    var with := nodes[e := Node(tx, last, None, false)];
    var nodes' := if last.None? then with else with[last.value := with[last.value].(next := Some(e))];
    forall i | 0 <= i < |longer|
      ensures LinkedAt(nodes', longer, i)
    {
      if i < |order| {
        assert LinkedAt(nodes, order, i);
      }
    }
  }

  /** What removing position `k` does to the pointers at position `i`. */
  predicate UnlinkedAt(nodes: map<nat, Node>, nodes': map<nat, Node>, order: seq<nat>, k: nat, i: nat)
    requires k < |order| && i < |order|
  {
    && order[i] in nodes && order[i] in nodes'
    && nodes'[order[i]] == nodes[order[i]].(
         next := if i + 1 == k then After(order, k) else nodes[order[i]].next,
         prev := if i == k + 1 then Before(order, k) else nodes[order[i]].prev)
  }

  lemma RemoveLinks(nodes: map<nat, Node>, nodes': map<nat, Node>, order: seq<nat>, k: nat)
    requires Linked(nodes, order) && k < |order|
    requires forall i :: 0 <= i < |order| && i != k ==> UnlinkedAt(nodes, nodes', order, k, i)
    ensures Linked(nodes', order[..k] + order[k + 1..])
    ensures order[..k] + order[k + 1..] == Without(order, order[k])
  {
    var rest := order[..k] + order[k + 1..];
    forall i | 0 <= i < |rest|
      ensures rest[i] == order[if i < k then i else i + 1]
    {
    }
    forall i | 0 <= i < |rest|
      ensures LinkedAt(nodes', rest, i)
    {
      var j := if i < k then i else i + 1;
      assert LinkedAt(nodes, order, j) && UnlinkedAt(nodes, nodes', order, k, j);
    }
    assert IndexOf(order, order[k]) == k;
  }

  // ---------------------------------------------------------------- the transactions of a list

  function TxAt(nodes: map<nat, Node>, id: nat): Tx {
    if id in nodes then nodes[id].tx else []
  }

  function TxsOf(nodes: map<nat, Node>, order: seq<nat>): seq<Tx> {
    seq(|order|, i requires 0 <= i < |order| => TxAt(nodes, order[i]))
  }

  lemma TxsSame(nodes: map<nat, Node>, nodes': map<nat, Node>, order: seq<nat>)
    requires SameTxs(nodes, nodes') && forall i :: 0 <= i < |order| ==> order[i] in nodes
    ensures TxsOf(nodes', order) == TxsOf(nodes, order)
  {
  }

  lemma TxsWithout(nodes: map<nat, Node>, order: seq<nat>, k: nat)
    requires k < |order| && Distinct(order) && Distinct(TxsOf(nodes, order))
    ensures TxsOf(nodes, Without(order, order[k])) == Without(TxsOf(nodes, order), TxAt(nodes, order[k]))
  {
    var txs := TxsOf(nodes, order);
    assert txs[k] == TxAt(nodes, order[k]);
    assert IndexOf(order, order[k]) == k && IndexOf(txs, txs[k]) == k;
  }
}
