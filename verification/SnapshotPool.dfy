/** The pool of snapshots that peers offer, with its indexes and blacklists. Keys are opaque: the
    pool does not rely on different snapshots having different keys. */
module SnapshotPools {
  import opened Wrappers

  type Key = nat
  type Peer = nat

  /** The empty peer ID. */
  const NO_PEER: Peer := 0

  datatype Snapshot = Snapshot(height: nat, format: nat, chunks: nat, hash: nat, metadata: nat)

  const RECENT_SNAPSHOTS: nat := 10

  /** A missing entry of a map of sets reads as the empty set. */
  function Get<K, V>(m: map<K, set<V>>, k: K): set<V> {
    if k in m then m[k] else {}
  }

  function Plus<K, V>(m: map<K, set<V>>, k: K, v: V): map<K, set<V>> {
    m[k := Get(m, k) + {v}]
  }

  function Minus<K, V>(m: map<K, set<V>>, k: K, v: V): map<K, set<V>> {
    if k in m then m[k := m[k] - {v}] else m
  }

  /** What the pool means: its snapshots, who offers them, and what is banned. */
  datatype Offers = Offers(
    snapshots: map<Key, Snapshot>, peers: map<Key, set<Peer>>,
    badFormats: set<nat>, badPeers: set<Peer>, badKeys: set<Key>)

  const NO_OFFERS := Offers(map[], map[], {}, {}, {})

  function KeysOf(o: Offers, peer: Peer): set<Key> {
    set k | k in o.peers && peer in o.peers[k]
  }

  predicate Banned(o: Offers, peer: Peer, s: Snapshot, key: Key) {
    s.format in o.badFormats || peer in o.badPeers || key in o.badKeys
  }

  function Drop(o: Offers, keys: set<Key>): Offers {
    o.(snapshots := o.snapshots - keys, peers := o.peers - keys)
  }

  function OfFormat(snapshots: map<Key, Snapshot>, format: nat): set<Key> {
    set k | k in snapshots && snapshots[k].format == format
  }

  function Remaining(o: Offers, peer: Peer, keys: set<Key>, k: Key): set<Peer>
    requires k in o.peers
  {
    if k in keys then o.peers[k] - {peer} else o.peers[k]
  }

  /** The pool without a peer under the given keys, and without the snapshots nobody else offers. */
  function Without(o: Offers, peer: Peer, keys: set<Key>): Offers {
    o.(snapshots := map k | k in o.snapshots && k in o.peers && Remaining(o, peer, keys, k) != {} :: o.snapshots[k],
       peers := map k | k in o.peers && Remaining(o, peer, keys, k) != {} :: Remaining(o, peer, keys, k))
  }

  /** What can happen to the pool. */
  datatype Act = Offer(peer: Peer, s: Snapshot) | Ban(s: Snapshot) | BanAll(format: nat) | BanPeer(peer: Peer) | Leave(peer: Peer)

  function Apply(keyOf: Snapshot -> Key, o: Offers, act: Act): Offers {
    match act
    case Offer(peer, s) =>
      var key := keyOf(s);
      if Banned(o, peer, s, key) || |KeysOf(o, peer)| >= RECENT_SNAPSHOTS then o
      else o.(snapshots := if key in o.snapshots then o.snapshots else o.snapshots[key := s],
              peers := Plus(o.peers, key, peer))
    case Ban(s) => Drop(o, {keyOf(s)}).(badKeys := o.badKeys + {keyOf(s)})
    case BanAll(format) => Drop(o, OfFormat(o.snapshots, format)).(badFormats := o.badFormats + {format})
    case BanPeer(peer) =>
      if peer == NO_PEER then o else Without(o, peer, KeysOf(o, peer)).(badPeers := o.badPeers + {peer})
    case Leave(peer) => Without(o, peer, KeysOf(o, peer))
  }

  /** Greater height, then greater format, then more peers. */
  predicate Better(peers: map<Key, set<Peer>>, keyOf: Snapshot -> Key, a: Snapshot, b: Snapshot) {
    || a.height > b.height
    || (a.height == b.height && (a.format > b.format
        || (a.format == b.format && |Get(peers, keyOf(a))| > |Get(peers, keyOf(b))|)))
  }

  class SnapshotPool {
    const keyOf: Snapshot -> Key
    var snapshots: map<Key, Snapshot>
    var snapshotPeers: map<Key, set<Peer>>
    var formatIndex: map<nat, set<Key>>
    var heightIndex: map<nat, set<Key>>
    var peerIndex: map<Peer, set<Key>>
    var formatBlacklist: set<nat>
    var peerBlacklist: set<Peer>
    var snapshotBlacklist: set<Key>

    function View(): Offers
      reads this
    {
      Offers(snapshots, snapshotPeers, formatBlacklist, peerBlacklist, snapshotBlacklist)
    }

    /** The indexes are the filtered pool. While a peer is being removed, its index is stale and
        `rest` holds the keys it has yet to leave; `doomed` are keys just banned and yet to go. */
    ghost predicate Core(leaving: Option<Peer>, rest: set<Key>, doomed: set<Key>)
      reads this
    {
      && snapshotPeers.Keys == snapshots.Keys
      && Mirrors(snapshotPeers, peerIndex, leaving, rest)
      && Filters(formatIndex, Formats(snapshots)) && Filters(heightIndex, Heights(snapshots))
      && Allowed(keyOf, snapshots, doomed, snapshotBlacklist, formatBlacklist)
      && Limited(peerIndex, peerBlacklist)
    }

    ghost predicate Valid()
      reads this
    {
      Core(None, {}, {}) && Offered(snapshotPeers)
    }

    constructor (keyOf: Snapshot -> Key)
      ensures Valid() && View() == NO_OFFERS && this.keyOf == keyOf
    {
      this.keyOf := keyOf;
      snapshots, snapshotPeers, formatIndex, heightIndex, peerIndex := map[], map[], map[], map[], map[];
      formatBlacklist, peerBlacklist, snapshotBlacklist := {}, {}, {};
    }

    /** Adds an offer, unless it is banned or the peer has offered enough. */
    method Add(peer: Peer, s: Snapshot) returns (added: bool)
      requires Valid()
      modifies this`snapshots, this`snapshotPeers, this`formatIndex, this`heightIndex, this`peerIndex
      ensures Valid() && View() == Apply(keyOf, old(View()), Offer(peer, s))
      ensures added <==> keyOf(s) in snapshots && keyOf(s) !in old(snapshots)
    {
      hide Mirrors, Filters, Allowed, Limited, Offered, Formats, Heights, Plus, Get, KeysOf, Drop, Without, OfFormat;
      var key := keyOf(s);
      IndexIs(snapshotPeers, peerIndex, peer, View());
      if s.format in formatBlacklist || peer in peerBlacklist || key in snapshotBlacklist {
        return false;
      }
      if |Get(peerIndex, peer)| >= RECENT_SNAPSHOTS {
        return false;
      }
      PlusMirrors(snapshotPeers, peerIndex, key, peer);
      PlusLimited(peerIndex, peerBlacklist, peer, key);
      PlusOffered(snapshotPeers, key, peer);
      snapshotPeers := Plus(snapshotPeers, key, peer);
      peerIndex := Plus(peerIndex, peer, key);
      if key in snapshots {
        return false;
      }
      AddIndexed(key, s);
      added := true;
    }

    /** A new snapshot enters the pool and the two indexes by format and height. */
    method AddIndexed(key: Key, s: Snapshot)
      requires key == keyOf(s) && key !in snapshots && key !in snapshotBlacklist && s.format !in formatBlacklist
      requires Filters(formatIndex, Formats(snapshots)) && Filters(heightIndex, Heights(snapshots))
      requires Allowed(keyOf, snapshots, {}, snapshotBlacklist, formatBlacklist)
      modifies this`snapshots, this`formatIndex, this`heightIndex
      ensures snapshots == old(snapshots)[key := s]
      ensures Filters(formatIndex, Formats(snapshots)) && Filters(heightIndex, Heights(snapshots))
      ensures Allowed(keyOf, snapshots, {}, snapshotBlacklist, formatBlacklist)
    {
      hide Filters, Allowed, Formats, Heights, Plus;
      NewSnapshot(snapshots, key, s);
      AllowNew(keyOf, snapshots, snapshotBlacklist, formatBlacklist, s);
      PlusFilters(formatIndex, Formats(snapshots), key, s.format);
      PlusFilters(heightIndex, Heights(snapshots), key, s.height);
      snapshots := snapshots[key := s];
      formatIndex := Plus(formatIndex, s.format, key);
      heightIndex := Plus(heightIndex, s.height, key);
    }

    method RemoveSnapshot(key: Key, ghost leaving: Option<Peer>, ghost rest: set<Key>, ghost doomed: set<Key>)
      requires Core(leaving, rest, doomed) && key !in rest
      modifies this`snapshots, this`snapshotPeers, this`formatIndex, this`heightIndex, this`peerIndex
      ensures Core(leaving, rest, doomed - {key}) && View() == Drop(old(View()), {key})
      ensures leaving.Some? ==> Get(peerIndex, leaving.value) == Get(old(peerIndex), leaving.value)
    {
      hide Mirrors, Filters, Allowed, Limited, Formats, Heights, Minus, Get;
      AllowFewer(keyOf, snapshots, doomed, snapshotBlacklist, formatBlacklist, key);
      if key !in snapshots {
        return;
      }
      var s := snapshots[key];
      OldSnapshot(snapshots, key);
      MinusFilters(formatIndex, Formats(snapshots), key, s.format);
      MinusFilters(heightIndex, Heights(snapshots), key, s.height);
      snapshots := snapshots - {key};
      formatIndex := Minus(formatIndex, s.format, key);
      heightIndex := Minus(heightIndex, s.height, key);
      var peerIndex' := RemoveFromPeers(peerIndex, snapshotPeers[key], key);
      MinusMirrors(snapshotPeers, peerIndex, peerIndex', key, leaving, rest);
      MinusLimited(peerIndex, peerIndex', peerBlacklist, snapshotPeers[key], key);
      peerIndex := peerIndex';
      snapshotPeers := snapshotPeers - {key};
    }

    /** Bans a snapshot. */
    method Reject(s: Snapshot)
      requires Valid()
      modifies this`snapshots, this`snapshotPeers, this`formatIndex, this`heightIndex, this`peerIndex, this`snapshotBlacklist
      ensures Valid() && View() == Apply(keyOf, old(View()), Ban(s))
    {
      hide Mirrors, Filters, Allowed, Limited, Offered, Formats, Heights;
      var key := keyOf(s);
      BanKey(keyOf, snapshots, snapshotBlacklist, formatBlacklist, key);
      DropOffered(snapshotPeers, {key});
      snapshotBlacklist := snapshotBlacklist + {key};
      RemoveSnapshot(key, None, {}, {key});
      assert {key} - {key} == {};
    }

    /** Bans a format, with every snapshot of it. */
    method RejectFormat(format: nat)
      requires Valid()
      modifies this`snapshots, this`snapshotPeers, this`formatIndex, this`heightIndex, this`peerIndex, this`formatBlacklist
      ensures Valid() && View() == Apply(keyOf, old(View()), BanAll(format))
    {
      hide Mirrors, Filters, Allowed, Limited, Offered, Formats, Heights, Get, Drop;
      BanFormat(keyOf, snapshots, snapshotBlacklist, formatBlacklist, formatIndex, format);
      formatBlacklist := formatBlacklist + {format};
      ghost var o, keys := View(), Get(formatIndex, format);
      var left := Get(formatIndex, format);
      DropNone(o);
      assert keys - left == {};
      while left != {}
        invariant left <= keys && Core(None, {}, left) && View() == Drop(o, keys - left)
        decreases left
      {
        var key :| key in left;
        DropMore(o, keys - left, key);
        assert keys - (left - {key}) == keys - left + {key};
        RemoveSnapshot(key, None, {}, left);
        left := left - {key};
      }
      assert keys - left == keys;
      DropOffered(o.peers, keys);
      DropParts(o, keys, formatBlacklist);
      DropParts(old(View()), keys, o.badFormats);
    }

    /** A peer leaves, and with it every snapshot that only it offered. */
    method RemovePeer(peer: Peer)
      requires Valid()
      modifies this`snapshots, this`snapshotPeers, this`formatIndex, this`heightIndex, this`peerIndex
      ensures Valid() && Get(peerIndex, peer) == {}
      ensures View() == Apply(keyOf, old(View()), Leave(peer))
    {
      hide Mirrors, Filters, Allowed, Limited, Offered, Formats, Heights, Get, Without, Drop, KeysOf, Minus;
      ghost var o, keys := View(), Get(peerIndex, peer);
      IndexIs(snapshotPeers, peerIndex, peer, o);
      StartLeaving(snapshotPeers, peerIndex, peer);
      WithoutNone(o, peer);
      var left := Get(peerIndex, peer);
      assert keys - left == {};
      while left != {}
        invariant left <= keys && Core(Some(peer), left, {}) && Offered(snapshotPeers)
        invariant View() == Without(o, peer, keys - left) && Get(peerIndex, peer) == keys
        decreases left
      {
        var key :| key in left;
        LeaveOne(snapshotPeers, peerIndex, peer, left, key);
        WithoutMore(o, peer, keys - left, key, View());
        DropMinus(View(), key, peer);
        assert keys - (left - {key}) == keys - left + {key};
        snapshotPeers := Minus(snapshotPeers, key, peer);
        left := left - {key};
        if snapshotPeers[key] == {} {
          RemoveSnapshot(key, Some(peer), left, {});
          assert {} - {key} == {};
        }
      }
      assert keys - left == keys;
      FinishLeaving(snapshotPeers, peerIndex, peerBlacklist, peer);
      peerIndex := peerIndex - {peer};
    }

    /** Bans a peer. */
    method RejectPeer(peer: Peer)
      requires Valid()
      modifies this`snapshots, this`snapshotPeers, this`formatIndex, this`heightIndex, this`peerIndex, this`peerBlacklist
      ensures Valid() && View() == Apply(keyOf, old(View()), BanPeer(peer))
    {
      hide Mirrors, Filters, Allowed, Offered, Formats, Heights, Without, KeysOf;
      if peer == NO_PEER {
        return;
      }
      RemovePeer(peer);
      peerBlacklist := peerBlacklist + {peer};
    }

    /** The snapshots of the pool, best first. Nothing banned is among them. */
    method Ranked() returns (r: seq<Snapshot>)
      requires Valid()
      ensures Lists(r, snapshots, keyOf, snapshots.Keys)
      ensures forall i, j :: 0 <= i < j < |r| ==>
                || r[i].height > r[j].height
                || (r[i].height == r[j].height && r[i].format > r[j].format)
                || (r[i].height == r[j].height && r[i].format == r[j].format
                    && |Get(snapshotPeers, keyOf(r[i]))| >= |Get(snapshotPeers, keyOf(r[j]))|)
      ensures forall i :: 0 <= i < |r| ==> keyOf(r[i]) !in snapshotBlacklist && r[i].format !in formatBlacklist
    {
      hide Mirrors, Filters, Limited, Formats, Heights, Better, Lists, Sorted, Insert, Allowed;
      ListsNothing(snapshots, keyOf, snapshotPeers);
      r := [];
      var left := snapshots.Keys;
      while left != {}
        invariant left <= snapshots.Keys && Lists(r, snapshots, keyOf, snapshots.Keys - left)
        invariant Sorted(snapshotPeers, keyOf, r)
        decreases left
      {
        var key :| key in left;
        AllowedAt(keyOf, snapshots, snapshotBlacklist, formatBlacklist, key);
        InsertSorts(snapshotPeers, keyOf, snapshots[key], r);
        InsertLists(snapshotPeers, keyOf, snapshots, snapshots.Keys - left, key, r);
        assert snapshots.Keys - (left - {key}) == snapshots.Keys - left + {key};
        r := Insert(snapshotPeers, keyOf, snapshots[key], r);
        left := left - {key};
      }
      assert snapshots.Keys - left == snapshots.Keys;
      ListedAllowed(r, keyOf, snapshots, snapshotBlacklist, formatBlacklist);
      SortedMeans(snapshotPeers, keyOf, r);
    }

    /** The peers that offer a snapshot, in order. None of them is banned. */
    method GetPeers(s: Snapshot) returns (r: seq<Peer>)
      requires Valid()
      ensures forall p :: p in r <==> p in Get(snapshotPeers, keyOf(s))
      ensures forall i, j :: 0 <= i < j < |r| ==> r[i] < r[j]
      ensures forall p :: p in r ==> p !in peerBlacklist
    {
      hide Filters, Allowed, Formats, Heights, Mirrors, Limited;
      r := [];
      var left := Get(snapshotPeers, keyOf(s));
      while left != {}
        invariant left <= Get(snapshotPeers, keyOf(s))
        invariant forall p :: p in r <==> p in Get(snapshotPeers, keyOf(s)) - left
        invariant forall i, j :: 0 <= i < j < |r| ==> r[i] < r[j]
        invariant forall i, q :: 0 <= i < |r| && q in left ==> r[i] < q
        decreases left
      {
        ghost var least := HasLeast(left);
        var p :| p in left && forall q :: q in left ==> p <= q;
        r := r + [p];
        left := left - {p};
      }
      NoneBanned(snapshotPeers, peerIndex, peerBlacklist, keyOf(s));
    }
  }

  // ---------------------------------------------------------------- the parts of the invariant

  function Formats(snapshots: map<Key, Snapshot>): map<Key, nat> {
    map k | k in snapshots :: snapshots[k].format
  }

  function Heights(snapshots: map<Key, Snapshot>): map<Key, nat> {
    map k | k in snapshots :: snapshots[k].height
  }

  /** The index holds a key under exactly the value its snapshot has. */
  ghost predicate Filters(index: map<nat, set<Key>>, values: map<Key, nat>) {
    forall k, v :: k in Get(index, v) <==> k in values && values[k] == v
  }

  /** A peer offers a key exactly when the peer's index has it. */
  ghost predicate Mirrors(peers: map<Key, set<Peer>>, index: map<Peer, set<Key>>, leaving: Option<Peer>, rest: set<Key>) {
    forall k, p :: p in Get(peers, k) <==> k in Indexed(index, leaving, rest, p)
  }

  function Indexed(index: map<Peer, set<Key>>, leaving: Option<Peer>, rest: set<Key>, p: Peer): set<Key> {
    if leaving == Some(p) then rest else Get(index, p)
  }

  /** Nothing banned is in the pool, and every snapshot is under its own key. */
  predicate Allowed(keyOf: Snapshot -> Key, snapshots: map<Key, Snapshot>, doomed: set<Key>, badKeys: set<Key>, badFormats: set<nat>) {
    forall k :: k in snapshots ==>
      keyOf(snapshots[k]) == k && (k in doomed || (k !in badKeys && snapshots[k].format !in badFormats))
  }

  /** No peer has more than its share of keys, and a banned one has none. */
  ghost predicate Limited(index: map<Peer, set<Key>>, badPeers: set<Peer>) {
    forall p :: |Get(index, p)| <= if p in badPeers then 0 else RECENT_SNAPSHOTS
  }

  predicate Offered(peers: map<Key, set<Peer>>) {
    forall k :: k in peers ==> peers[k] != {}
  }

  // ---------------------------------------------------------------- how the parts are kept

  lemma GetPlus<K, V>(m: map<K, set<V>>, k: K, v: V, j: K)
    ensures Get(Plus(m, k, v), j) == if j == k then Get(m, k) + {v} else Get(m, j)
  {
  }

  lemma GetMinus<K, V>(m: map<K, set<V>>, k: K, v: V, j: K)
    ensures Get(Minus(m, k, v), j) == if j == k then Get(m, k) - {v} else Get(m, j)
  {
  }

  lemma IndexIs(peers: map<Key, set<Peer>>, index: map<Peer, set<Key>>, peer: Peer, o: Offers)
    requires Mirrors(peers, index, None, {}) && o.peers == peers
    ensures Get(index, peer) == KeysOf(o, peer)
  {
    forall k
      ensures k in Get(index, peer) <==> k in KeysOf(o, peer)
    {
      assert peer in Get(peers, k) <==> k in Indexed(index, None, {}, peer);
    }
  }

  lemma PlusMirrors(peers: map<Key, set<Peer>>, index: map<Peer, set<Key>>, key: Key, peer: Peer)
    requires Mirrors(peers, index, None, {})
    ensures Mirrors(Plus(peers, key, peer), Plus(index, peer, key), None, {})
  {
    hide Plus, Get;
    forall k, p
      ensures p in Get(Plus(peers, key, peer), k) <==> k in Indexed(Plus(index, peer, key), None, {}, p)
    {
      GetPlus(peers, key, peer, k);
      GetPlus(index, peer, key, p);
      assert p in Get(peers, k) <==> k in Indexed(index, None, {}, p);
    }
  }

  lemma PlusLimited(index: map<Peer, set<Key>>, badPeers: set<Peer>, peer: Peer, key: Key)
    requires Limited(index, badPeers) && peer !in badPeers && |Get(index, peer)| < RECENT_SNAPSHOTS
    ensures Limited(Plus(index, peer, key), badPeers)
  {
    hide Plus, Get;
    forall p
      ensures |Get(Plus(index, peer, key), p)| <= if p in badPeers then 0 else RECENT_SNAPSHOTS
    {
      GetPlus(index, peer, key, p);
    }
  }

  lemma PlusOffered(peers: map<Key, set<Peer>>, key: Key, peer: Peer)
    requires Offered(peers)
    ensures Offered(Plus(peers, key, peer)) && Plus(peers, key, peer).Keys == peers.Keys + {key}
  {
  }

  lemma PlusFilters(index: map<nat, set<Key>>, values: map<Key, nat>, key: Key, v: nat)
    requires Filters(index, values) && key !in values
    ensures Filters(Plus(index, v, key), values[key := v])
  {
    hide Plus, Get;
    forall k, w
      ensures k in Get(Plus(index, v, key), w) <==> k in values[key := v] && values[key := v][k] == w
    {
      GetPlus(index, v, key, w);
    }
  }

  lemma MinusFilters(index: map<nat, set<Key>>, values: map<Key, nat>, key: Key, v: nat)
    requires Filters(index, values) && key in values && values[key] == v
    ensures Filters(Minus(index, v, key), values - {key})
  {
    hide Minus, Get;
    forall k, w
      ensures k in Get(Minus(index, v, key), w) <==> k in values - {key} && (values - {key})[k] == w
    {
      GetMinus(index, v, key, w);
    }
  }

  lemma NewSnapshot(snapshots: map<Key, Snapshot>, key: Key, s: Snapshot)
    ensures Formats(snapshots[key := s]) == Formats(snapshots)[key := s.format]
    ensures Heights(snapshots[key := s]) == Heights(snapshots)[key := s.height]
    ensures key in Formats(snapshots) <==> key in snapshots
    ensures key in Heights(snapshots) <==> key in snapshots
  {
  }

  lemma OldSnapshot(snapshots: map<Key, Snapshot>, key: Key)
    requires key in snapshots
    ensures Formats(snapshots - {key}) == Formats(snapshots) - {key}
    ensures Heights(snapshots - {key}) == Heights(snapshots) - {key}
    ensures key in Formats(snapshots) && Formats(snapshots)[key] == snapshots[key].format
    ensures key in Heights(snapshots) && Heights(snapshots)[key] == snapshots[key].height
  {
  }

  lemma AllowNew(keyOf: Snapshot -> Key, snapshots: map<Key, Snapshot>, badKeys: set<Key>, badFormats: set<nat>, s: Snapshot)
    requires Allowed(keyOf, snapshots, {}, badKeys, badFormats) && keyOf(s) !in badKeys && s.format !in badFormats
    ensures Allowed(keyOf, snapshots[keyOf(s) := s], {}, badKeys, badFormats)
  {
  }

  lemma AllowFewer(keyOf: Snapshot -> Key, snapshots: map<Key, Snapshot>, doomed: set<Key>, badKeys: set<Key>,
                   badFormats: set<nat>, key: Key)
    requires Allowed(keyOf, snapshots, doomed, badKeys, badFormats)
    ensures Allowed(keyOf, snapshots - {key}, doomed - {key}, badKeys, badFormats)
    ensures key !in snapshots ==> Allowed(keyOf, snapshots, doomed - {key}, badKeys, badFormats)
  {
  }

  lemma BanKey(keyOf: Snapshot -> Key, snapshots: map<Key, Snapshot>, badKeys: set<Key>, badFormats: set<nat>, key: Key)
    requires Allowed(keyOf, snapshots, {}, badKeys, badFormats)
    ensures Allowed(keyOf, snapshots, {key}, badKeys + {key}, badFormats)
  {
  }

  lemma BanFormat(keyOf: Snapshot -> Key, snapshots: map<Key, Snapshot>, badKeys: set<Key>, badFormats: set<nat>,
                  index: map<nat, set<Key>>, format: nat)
    requires Allowed(keyOf, snapshots, {}, badKeys, badFormats) && Filters(index, Formats(snapshots))
    ensures Allowed(keyOf, snapshots, Get(index, format), badKeys, badFormats + {format})
    ensures Get(index, format) == OfFormat(snapshots, format)
  {
    forall k
      ensures k in Get(index, format) <==> k in snapshots && snapshots[k].format == format
    {
      assert k in Get(index, format) <==> k in Formats(snapshots) && Formats(snapshots)[k] == format;
    }
  }

  /** The key is gone from the index of every peer that offered it. */
  ghost predicate Unindexed(index: map<Peer, set<Key>>, index': map<Peer, set<Key>>, peers: set<Peer>, key: Key) {
    forall p :: Get(index', p) == if p in peers then Get(index, p) - {key} else Get(index, p)
  }

  lemma MinusMirrors(peers: map<Key, set<Peer>>, index: map<Peer, set<Key>>, index': map<Peer, set<Key>>, key: Key,
                     leaving: Option<Peer>, rest: set<Key>)
    requires key in peers && Mirrors(peers, index, leaving, rest) && Unindexed(index, index', peers[key], key) && key !in rest
    ensures Mirrors(peers - {key}, index', leaving, rest)
    ensures leaving.Some? ==> Get(index', leaving.value) == Get(index, leaving.value)
  {
    forall k, p
      ensures p in Get(peers - {key}, k) <==> k in Indexed(index', leaving, rest, p)
    {
      assert p in Get(peers, k) <==> k in Indexed(index, leaving, rest, p);
      assert p in Get(peers, key) <==> key in Indexed(index, leaving, rest, p);
    }
    if leaving.Some? {
      assert leaving.value in Get(peers, key) <==> key in Indexed(index, leaving, rest, leaving.value);
    }
  }

  lemma MinusLimited(index: map<Peer, set<Key>>, index': map<Peer, set<Key>>, badPeers: set<Peer>, peers: set<Peer>, key: Key)
    requires Limited(index, badPeers) && Unindexed(index, index', peers, key)
    ensures Limited(index', badPeers)
  {
    hide Get;
    forall p
      ensures |Get(index', p)| <= if p in badPeers then 0 else RECENT_SNAPSHOTS
    {
      Fewer(Get(index, p), key);
    }
  }

  lemma Fewer(s: set<Key>, k: Key)
    ensures |s - {k}| <= |s|
  {
  }

  lemma DropNone(o: Offers)
    ensures Drop(o, {}) == o
  {
  }

  lemma DropMore(o: Offers, keys: set<Key>, key: Key)
    ensures Drop(Drop(o, keys), {key}) == Drop(o, keys + {key})
  {
    assert o.snapshots - keys - {key} == o.snapshots - (keys + {key});
    assert o.peers - keys - {key} == o.peers - (keys + {key});
  }

  lemma DropMinus(p: Offers, key: Key, peer: Peer)
    ensures Drop(p.(peers := Minus(p.peers, key, peer)), {key}) == Drop(p, {key})
    ensures Drop(p, {key}).peers == Minus(p.peers, key, peer) - {key}
    ensures key in p.peers ==> key in Minus(p.peers, key, peer) && Minus(p.peers, key, peer)[key] == p.peers[key] - {peer}
  {
    assert Minus(p.peers, key, peer) - {key} == p.peers - {key};
  }

  lemma DropParts(o: Offers, keys: set<Key>, badFormats: set<nat>)
    ensures Drop(o, keys).peers == o.peers - keys
    ensures Drop(o.(badFormats := badFormats), keys) == Drop(o, keys).(badFormats := badFormats)
  {
  }

  lemma DropOffered(peers: map<Key, set<Peer>>, keys: set<Key>)
    requires Offered(peers)
    ensures Offered(peers - keys)
  {
  }

  // ---------------------------------------------------------------- a peer leaves

  lemma StartLeaving(peers: map<Key, set<Peer>>, index: map<Peer, set<Key>>, peer: Peer)
    requires Mirrors(peers, index, None, {})
    ensures Mirrors(peers, index, Some(peer), Get(index, peer))
  {
    forall k, p
      ensures p in Get(peers, k) <==> k in Indexed(index, Some(peer), Get(index, peer), p)
    {
      assert p in Get(peers, k) <==> k in Indexed(index, None, {}, p);
    }
  }

  lemma LeaveOne(peers: map<Key, set<Peer>>, index: map<Peer, set<Key>>, peer: Peer, rest: set<Key>, key: Key)
    requires Mirrors(peers, index, Some(peer), rest) && key in rest && Offered(peers)
    ensures key in peers && peer in peers[key] && Minus(peers, key, peer).Keys == peers.Keys
    ensures Mirrors(Minus(peers, key, peer), index, Some(peer), rest - {key})
    ensures Offered(Minus(peers, key, peer) - {key})
    ensures Minus(peers, key, peer)[key] != {} ==> Offered(Minus(peers, key, peer))
  {
    assert peer in Get(peers, key) <==> key in Indexed(index, Some(peer), rest, peer);
    forall k, p
      ensures p in Get(Minus(peers, key, peer), k) <==> k in Indexed(index, Some(peer), rest - {key}, p)
    {
      GetMinus(peers, key, peer, k);
      assert p in Get(peers, k) <==> k in Indexed(index, Some(peer), rest, p);
    }
  }

  lemma FinishLeaving(peers: map<Key, set<Peer>>, index: map<Peer, set<Key>>, badPeers: set<Peer>, peer: Peer)
    requires Mirrors(peers, index, Some(peer), {}) && Limited(index, badPeers)
    ensures Mirrors(peers, index - {peer}, None, {}) && Limited(index - {peer}, badPeers) && Get(index - {peer}, peer) == {}
  {
    forall k, p
      ensures p in Get(peers, k) <==> k in Indexed(index - {peer}, None, {}, p)
    {
      assert p in Get(peers, k) <==> k in Indexed(index, Some(peer), {}, p);
    }
    forall p
      ensures |Get(index - {peer}, p)| <= if p in badPeers then 0 else RECENT_SNAPSHOTS
    {
      assert Get(index - {peer}, p) == if p == peer then {} else Get(index, p);
    }
  }

  lemma WithoutNone(o: Offers, peer: Peer)
    requires Offered(o.peers) && o.peers.Keys == o.snapshots.Keys
    ensures Without(o, peer, {}) == o
  {
    assert Without(o, peer, {}).snapshots == o.snapshots;
    assert Without(o, peer, {}).peers == o.peers;
  }

  /** One key more: the peer goes from it, and the snapshot too if nobody is left. */
  lemma WithoutMore(o: Offers, peer: Peer, keys: set<Key>, key: Key, p: Offers)
    requires p == Without(o, peer, keys) && key !in keys && key in p.peers && o.peers.Keys == o.snapshots.Keys
    ensures
      var q := Without(o, peer, keys + {key});
      if p.peers[key] - {peer} == {} then q == Drop(p, {key}) else q == p.(peers := Minus(p.peers, key, peer))
  {
    var q := Without(o, peer, keys + {key});
    forall k | k in o.peers
      ensures Remaining(o, peer, keys + {key}, k) == if k == key then o.peers[k] - {peer} else Remaining(o, peer, keys, k)
    {
    }
    if p.peers[key] - {peer} == {} {
      assert q.snapshots == p.snapshots - {key};
      assert q.peers == p.peers - {key};
    } else {
      assert q.snapshots == p.snapshots;
      assert q.peers == Minus(p.peers, key, peer);
    }
  }

  // ---------------------------------------------------------------- ranking

  lemma {:induction false} HasLeast(s: set<Peer>) returns (p: Peer)
    requires s != {}
    ensures p in s && forall q :: q in s ==> p <= q
    decreases |s|
  {
    p :| p in s;
    var rest := s - {p};
    assert forall x :: x in s ==> x == p || x in rest;
    if rest != {} {
      assert |rest| < |s|;
      var q := HasLeast(rest);
      p := if p <= q then p else q;
    }
  }

  lemma NoneBanned(peers: map<Key, set<Peer>>, index: map<Peer, set<Key>>, badPeers: set<Peer>, key: Key)
    requires Mirrors(peers, index, None, {}) && Limited(index, badPeers)
    ensures forall p :: p in Get(peers, key) ==> p !in badPeers
  {
    forall p | p in Get(peers, key)
      ensures p !in badPeers
    {
      assert key in Indexed(index, None, {}, p);
      assert |Get(index, p)| > 0;
    }
  }

  lemma ListsNothing(snapshots: map<Key, Snapshot>, keyOf: Snapshot -> Key, peers: map<Key, set<Peer>>)
    ensures Lists([], snapshots, keyOf, snapshots.Keys - snapshots.Keys) && Sorted(peers, keyOf, [])
  {
  }

  lemma AllowedAt(keyOf: Snapshot -> Key, snapshots: map<Key, Snapshot>, badKeys: set<Key>, badFormats: set<nat>, key: Key)
    requires Allowed(keyOf, snapshots, {}, badKeys, badFormats) && key in snapshots
    ensures keyOf(snapshots[key]) == key && key !in badKeys && snapshots[key].format !in badFormats
  {
  }

  lemma ListedAllowed(r: seq<Snapshot>, keyOf: Snapshot -> Key, snapshots: map<Key, Snapshot>, badKeys: set<Key>, badFormats: set<nat>)
    requires Lists(r, snapshots, keyOf, snapshots.Keys) && Allowed(keyOf, snapshots, {}, badKeys, badFormats)
    ensures forall i :: 0 <= i < |r| ==> keyOf(r[i]) !in badKeys && r[i].format !in badFormats
  {
    forall i | 0 <= i < |r|
      ensures keyOf(r[i]) !in badKeys && r[i].format !in badFormats
    {
      assert r[i] in r;
      AllowedAt(keyOf, snapshots, badKeys, badFormats, keyOf(r[i]));
    }
  }

  lemma SortedMeans(peers: map<Key, set<Peer>>, keyOf: Snapshot -> Key, r: seq<Snapshot>)
    requires Sorted(peers, keyOf, r)
    ensures forall i, j :: 0 <= i < j < |r| ==>
              || r[i].height > r[j].height
              || (r[i].height == r[j].height && r[i].format > r[j].format)
              || (r[i].height == r[j].height && r[i].format == r[j].format
                  && |Get(peers, keyOf(r[i]))| >= |Get(peers, keyOf(r[j]))|)
  {
    hide Get;
  }

  function Insert(peers: map<Key, set<Peer>>, keyOf: Snapshot -> Key, s: Snapshot, r: seq<Snapshot>): seq<Snapshot> {
    if r == [] || Better(peers, keyOf, s, r[0]) then [s] + r else [r[0]] + Insert(peers, keyOf, s, r[1..])
  }

  predicate Sorted(peers: map<Key, set<Peer>>, keyOf: Snapshot -> Key, r: seq<Snapshot>) {
    forall i, j :: 0 <= i < j < |r| ==> !Better(peers, keyOf, r[j], r[i])
  }

  /** The list holds exactly the snapshots of the keys, each once. */
  ghost predicate Lists(r: seq<Snapshot>, snapshots: map<Key, Snapshot>, keyOf: Snapshot -> Key, keys: set<Key>) {
    && |r| == |keys|
    && (forall k :: k in keys ==> k in snapshots && snapshots[k] in r)
    && (forall s :: s in r ==> keyOf(s) in keys && keyOf(s) in snapshots && snapshots[keyOf(s)] == s)
  }

  lemma {:induction false} InsertHolds(peers: map<Key, set<Peer>>, keyOf: Snapshot -> Key, s: Snapshot, r: seq<Snapshot>)
    ensures |Insert(peers, keyOf, s, r)| == |r| + 1
    ensures forall x :: x in Insert(peers, keyOf, s, r) <==> x == s || x in r
  {
    hide Better;
    if r != [] && !Better(peers, keyOf, s, r[0]) {
      InsertHolds(peers, keyOf, s, r[1..]);
      assert r == [r[0]] + r[1..];
    }
  }

  lemma {:induction false} InsertSorts(peers: map<Key, set<Peer>>, keyOf: Snapshot -> Key, s: Snapshot, r: seq<Snapshot>)
    requires Sorted(peers, keyOf, r)
    ensures Sorted(peers, keyOf, Insert(peers, keyOf, s, r))
  {
    if r != [] {
      assert r == [r[0]] + r[1..];
      if Better(peers, keyOf, s, r[0]) {
        SortedFront(peers, keyOf, s, r);
      } else {
        InsertSorts(peers, keyOf, s, r[1..]);
        InsertHolds(peers, keyOf, s, r[1..]);
        SortedFront(peers, keyOf, r[0], Insert(peers, keyOf, s, r[1..]));
      }
    }
  }

  lemma SortedFront(peers: map<Key, set<Peer>>, keyOf: Snapshot -> Key, x: Snapshot, r: seq<Snapshot>)
    requires Sorted(peers, keyOf, r) && forall y :: y in r ==> !Better(peers, keyOf, y, x)
    ensures Sorted(peers, keyOf, [x] + r)
  {
    hide Better;
  }

  lemma InsertLists(peers: map<Key, set<Peer>>, keyOf: Snapshot -> Key, snapshots: map<Key, Snapshot>, keys: set<Key>,
                    key: Key, r: seq<Snapshot>)
    requires Lists(r, snapshots, keyOf, keys) && key !in keys && key in snapshots && keyOf(snapshots[key]) == key
    ensures Lists(Insert(peers, keyOf, snapshots[key], r), snapshots, keyOf, keys + {key})
  {
    hide Insert;
    InsertHolds(peers, keyOf, snapshots[key], r);
  }

  /** Takes the key out of the index of each of the peers, in any order. */
  method RemoveFromPeers(index: map<Peer, set<Key>>, peers: set<Peer>, key: Key) returns (index': map<Peer, set<Key>>)
    ensures Unindexed(index, index', peers, key)
  {
    index' := index;
    var left := peers;
    while left != {}
      invariant left <= peers && Unindexed(index, index', peers - left, key)
      decreases left
    {
      var p :| p in left;
      index' := Minus(index', p, key);
      left := left - {p};
    }
    assert peers - left == peers;
  }

  // ---------------------------------------------------------------- whole runs

  function Run(keyOf: Snapshot -> Key, acts: seq<Act>): Offers {
    if acts == [] then NO_OFFERS else Apply(keyOf, Run(keyOf, acts[..|acts| - 1]), acts[|acts| - 1])
  }

  /** Every snapshot is offered by someone and banned by nothing, and no peer is over its share. */
  ghost predicate OffersOk(keyOf: Snapshot -> Key, o: Offers) {
    && o.peers.Keys == o.snapshots.Keys && Offered(o.peers)
    && Allowed(keyOf, o.snapshots, {}, o.badKeys, o.badFormats)
    && forall p :: |KeysOf(o, p)| <= if p in o.badPeers then 0 else RECENT_SNAPSHOTS
  }

  lemma SmallerSet(a: set<Key>, b: set<Key>)
    requires a <= b
    ensures |a| <= |b|
  {
    if a != b {
      assert b == a + (b - a);
    }
  }

  lemma FewerKeys(o: Offers, o': Offers, p: Peer)
    requires forall k :: k in o'.peers ==> k in o.peers && (p in o'.peers[k] ==> p in o.peers[k])
    ensures KeysOf(o', p) <= KeysOf(o, p) && |KeysOf(o', p)| <= |KeysOf(o, p)|
  {
    SmallerSet(KeysOf(o', p), KeysOf(o, p));
  }

  lemma DropOk(keyOf: Snapshot -> Key, o: Offers, keys: set<Key>)
    requires OffersOk(keyOf, o)
    ensures OffersOk(keyOf, Drop(o, keys))
  {
    forall p
      ensures |KeysOf(Drop(o, keys), p)| <= |KeysOf(o, p)|
    {
      FewerKeys(o, Drop(o, keys), p);
    }
    hide KeysOf;
  }

  lemma WithoutOk(keyOf: Snapshot -> Key, o: Offers, peer: Peer)
    requires OffersOk(keyOf, o)
    ensures
      var o' := Without(o, peer, KeysOf(o, peer));
      OffersOk(keyOf, o') && KeysOf(o', peer) == {}
  {
    var o' := Without(o, peer, KeysOf(o, peer));
    forall p
      ensures |KeysOf(o', p)| <= |KeysOf(o, p)|
    {
      FewerKeys(o, o', p);
    }
    assert KeysOf(o', peer) == {};
    assert o'.peers.Keys == o'.snapshots.Keys;
  }

  lemma OfferKeys(o: Offers, peer: Peer, key: Key, p: Peer)
    ensures
      var o' := o.(peers := Plus(o.peers, key, peer));
      |KeysOf(o', p)| <= if p == peer then |KeysOf(o, p)| + 1 else |KeysOf(o, p)|
  {
    var o' := o.(peers := Plus(o.peers, key, peer));
    var bound := if p == peer then KeysOf(o, p) + {key} else KeysOf(o, p);
    forall k | k in KeysOf(o', p)
      ensures k in bound
    {
      GetPlus(o.peers, key, peer, k);
    }
    SmallerSet(KeysOf(o', p), bound);
  }

  lemma KeysOfPeers(o: Offers, o': Offers, p: Peer)
    requires o.peers == o'.peers
    ensures KeysOf(o, p) == KeysOf(o', p)
  {
  }

  lemma OfferOk(keyOf: Snapshot -> Key, o: Offers, peer: Peer, s: Snapshot)
    requires OffersOk(keyOf, o)
    ensures OffersOk(keyOf, Apply(keyOf, o, Offer(peer, s)))
  {
    hide KeysOf, Plus, Offered, Allowed;
    var o', key := Apply(keyOf, o, Offer(peer, s)), keyOf(s);
    PlusOffered(o.peers, key, peer);
    if !Banned(o, peer, s, key) {
      AllowNew(keyOf, o.snapshots, o.badKeys, o.badFormats, s);
    }
    if !Banned(o, peer, s, key) && |KeysOf(o, peer)| < RECENT_SNAPSHOTS {
      forall p
        ensures |KeysOf(o', p)| <= if p in o.badPeers then 0 else RECENT_SNAPSHOTS
      {
        OfferKeys(o, peer, key, p);
        KeysOfPeers(o', o.(peers := Plus(o.peers, key, peer)), p);
      }
    }
  }

  lemma BanOneOk(keyOf: Snapshot -> Key, o: Offers, key: Key)
    requires OffersOk(keyOf, o)
    ensures OffersOk(keyOf, Drop(o, {key}).(badKeys := o.badKeys + {key}))
  {
    hide OffersOk;
    DropOk(keyOf, o, {key});
    BanOk(keyOf, Drop(o, {key}), {key}, {}, {});
    assert o.badFormats + {} == o.badFormats && o.badPeers + {} == o.badPeers;
  }

  lemma BanAllOk(keyOf: Snapshot -> Key, o: Offers, format: nat)
    requires OffersOk(keyOf, o)
    ensures OffersOk(keyOf, Drop(o, OfFormat(o.snapshots, format)).(badFormats := o.badFormats + {format}))
  {
    hide OffersOk;
    DropOk(keyOf, o, OfFormat(o.snapshots, format));
    BanOk(keyOf, Drop(o, OfFormat(o.snapshots, format)), {}, {format}, {});
    assert o.badKeys + {} == o.badKeys && o.badPeers + {} == o.badPeers;
  }

  lemma BanPeerOk(keyOf: Snapshot -> Key, o: Offers, peer: Peer)
    requires OffersOk(keyOf, o)
    ensures OffersOk(keyOf, Without(o, peer, KeysOf(o, peer)).(badPeers := o.badPeers + {peer}))
  {
    hide OffersOk, KeysOf;
    WithoutOk(keyOf, o, peer);
    BanOk(keyOf, Without(o, peer, KeysOf(o, peer)), {}, {}, {peer});
    assert o.badKeys + {} == o.badKeys && o.badFormats + {} == o.badFormats;
  }

  lemma ApplyOk(keyOf: Snapshot -> Key, o: Offers, act: Act)
    requires OffersOk(keyOf, o)
    ensures OffersOk(keyOf, Apply(keyOf, o, act))
  {
    hide OffersOk, Drop, Without, KeysOf, OfFormat, Plus, Banned;
    match act
    case Offer(peer, s) => OfferOk(keyOf, o, peer, s);
    case Ban(s) => BanOneOk(keyOf, o, keyOf(s));
    case BanAll(format) => BanAllOk(keyOf, o, format);
    case BanPeer(peer) => BanPeerOk(keyOf, o, peer);
    case Leave(peer) => WithoutOk(keyOf, o, peer);
  }

  /** Banning what is no longer there changes nothing else. */
  lemma BanOk(keyOf: Snapshot -> Key, o: Offers, keys: set<Key>, formats: set<nat>, peers: set<Peer>)
    requires OffersOk(keyOf, o) && o.snapshots.Keys !! keys
    requires forall k :: k in o.snapshots ==> o.snapshots[k].format !in formats
    requires forall p :: p in peers ==> KeysOf(o, p) == {}
    ensures
      var o' := o.(badKeys := o.badKeys + keys, badFormats := o.badFormats + formats, badPeers := o.badPeers + peers);
      OffersOk(keyOf, o')
  {
    var o' := o.(badKeys := o.badKeys + keys, badFormats := o.badFormats + formats, badPeers := o.badPeers + peers);
    forall p
      ensures KeysOf(o', p) == KeysOf(o, p)
    {
    }
  }

  lemma {:induction false} RunOk(keyOf: Snapshot -> Key, acts: seq<Act>)
    ensures OffersOk(keyOf, Run(keyOf, acts))
  {
    hide OffersOk, Apply;
    if acts == [] {
      NoOffersOk(keyOf);
    } else {
      RunOk(keyOf, acts[..|acts| - 1]);
      ApplyOk(keyOf, Run(keyOf, acts[..|acts| - 1]), acts[|acts| - 1]);
    }
  }

  lemma NoOffersOk(keyOf: Snapshot -> Key)
    ensures OffersOk(keyOf, NO_OFFERS)
  {
  }

  lemma {:induction false} BansStay(keyOf: Snapshot -> Key, acts: seq<Act>, i: nat)
    requires i <= |acts|
    ensures
      var before, now := Run(keyOf, acts[..i]), Run(keyOf, acts);
      before.badKeys <= now.badKeys && before.badFormats <= now.badFormats && before.badPeers <= now.badPeers
    decreases |acts|
  {
    if i == |acts| {
      assert acts[..i] == acts;
    } else {
      var front := acts[..|acts| - 1];
      assert front[..i] == acts[..i];
      BansStay(keyOf, front, i);
      hide KeysOf, Without, Drop;
      BansGrow(keyOf, Run(keyOf, front), acts[|acts| - 1]);
    }
  }

  lemma BansGrow(keyOf: Snapshot -> Key, o: Offers, act: Act)
    ensures
      var o' := Apply(keyOf, o, act);
      o.badKeys <= o'.badKeys && o.badFormats <= o'.badFormats && o.badPeers <= o'.badPeers
  {
    hide KeysOf;
  }

  /** What was banned at any point of a run is not in the pool at any later point: not the snapshot,
      not a snapshot of the format, and not the peer under any snapshot. */
  lemma NeverAgain(keyOf: Snapshot -> Key, acts: seq<Act>, i: nat, k: Key)
    requires i <= |acts|
    ensures
      var before, now := Run(keyOf, acts[..i]), Run(keyOf, acts);
      && (k in before.badKeys ==> k !in now.snapshots)
      && (k in now.snapshots ==> now.snapshots[k].format !in before.badFormats && keyOf(now.snapshots[k]) == k)
      && (k in now.peers ==> now.peers[k] !! before.badPeers)
      && (forall p :: |KeysOf(now, p)| <= RECENT_SNAPSHOTS)
  {
    hide Run;
    RunOk(keyOf, acts);
    BansStay(keyOf, acts, i);
    var now := Run(keyOf, acts);
    forall p | k in now.peers && p in now.peers[k]
      ensures p !in now.badPeers
    {
      assert k in KeysOf(now, p);
    }
  }

  /** The peer offers the snapshot of the key. */
  predicate OfferedBy(o: Offers, p: Peer, k: Key) {
    k in o.peers && p in o.peers[k]
  }

  /** An offer is taken if nothing about it is banned and the peer has fewer than ten. */
  predicate Takes(keyOf: Snapshot -> Key, o: Offers, peer: Peer, s: Snapshot) {
    s.format !in o.badFormats && peer !in o.badPeers && keyOf(s) !in o.badKeys && |KeysOf(o, peer)| < 10
  }

  /** What an act leaves of a peer's offer of a key. */
  predicate Stays(keyOf: Snapshot -> Key, o: Offers, act: Act, p: Peer, k: Key)
    requires OfferedBy(o, p, k) ==> k in o.snapshots
  {
    match act
    case Offer(peer, s) => OfferedBy(o, p, k) || (Takes(keyOf, o, peer, s) && p == peer && k == keyOf(s))
    case Ban(s) => OfferedBy(o, p, k) && k != keyOf(s)
    case BanAll(format) => OfferedBy(o, p, k) && o.snapshots[k].format != format
    case BanPeer(peer) => OfferedBy(o, p, k) && (p != peer || peer == 0)
    case Leave(peer) => OfferedBy(o, p, k) && p != peer
  }

  /** In every reachable pool an act does this and no more: offers come and go as `Stays` says, a snapshot
      is in the pool exactly as long as someone offers it, it is the one first offered under its key, and
      bans are recorded. */
  lemma ActExactly(keyOf: Snapshot -> Key, acts: seq<Act>, act: Act, p: Peer, k: Key)
    ensures
      var o, o' := Run(keyOf, acts), Run(keyOf, acts + [act]);
      && (OfferedBy(o, p, k) ==> k in o.snapshots) && (OfferedBy(o', p, k) <==> Stays(keyOf, o, act, p, k))
      && (k in o'.snapshots <==> exists q :: OfferedBy(o', q, k))
      && (k in o.snapshots && k in o'.snapshots ==> o'.snapshots[k] == o.snapshots[k])
      && (k !in o.snapshots && k in o'.snapshots ==> act.Offer? && o'.snapshots[k] == act.s)
      && o'.badKeys == o.badKeys + (if act.Ban? then {keyOf(act.s)} else {})
      && o'.badFormats == o.badFormats + (if act.BanAll? then {act.format} else {})
      && o'.badPeers == o.badPeers + (if act.BanPeer? && act.peer != 0 then {act.peer} else {})
  {
    hide Run, Apply, Stays, OffersOk;
    RunOk(keyOf, acts);
    RunOk(keyOf, acts + [act]);
    RunOneMore(keyOf, acts, act);
    OfferedIn(keyOf, Run(keyOf, acts), k);
    OfferedIn(keyOf, Run(keyOf, acts + [act]), k);
    ActStays(keyOf, Run(keyOf, acts), act, p, k);
    ActKeeps(keyOf, Run(keyOf, acts), act, k);
  }

  lemma RunOneMore(keyOf: Snapshot -> Key, acts: seq<Act>, act: Act)
    ensures Run(keyOf, acts + [act]) == Apply(keyOf, Run(keyOf, acts), act)
  {
    hide Apply;
    assert (acts + [act])[..|acts|] == acts;
  }

  lemma OfferedIn(keyOf: Snapshot -> Key, o: Offers, k: Key)
    requires OffersOk(keyOf, o)
    ensures k in o.snapshots <==> exists q :: OfferedBy(o, q, k)
    ensures forall q :: OfferedBy(o, q, k) ==> k in o.snapshots
  {
    hide KeysOf, Allowed;
    if k in o.snapshots {
      var q :| q in o.peers[k];
      assert OfferedBy(o, q, k);
    }
  }

  lemma ActStays(keyOf: Snapshot -> Key, o: Offers, act: Act, p: Peer, k: Key)
    requires OffersOk(keyOf, o) && (OfferedBy(o, p, k) ==> k in o.snapshots)
    ensures OfferedBy(Apply(keyOf, o, act), p, k) <==> Stays(keyOf, o, act, p, k)
  {
    match act
    case Offer(peer, s) =>
    case Ban(s) =>
    case BanAll(format) =>
    case BanPeer(peer) => PeerLeaves(o, peer, p, k);
    case Leave(peer) => PeerLeaves(o, peer, p, k);
  }

  lemma PeerLeaves(o: Offers, peer: Peer, p: Peer, k: Key)
    ensures OfferedBy(Without(o, peer, KeysOf(o, peer)), p, k) <==> OfferedBy(o, p, k) && p != peer
  {
    if OfferedBy(o, p, k) && p != peer {
      assert p in Remaining(o, peer, KeysOf(o, peer), k);
    }
  }

  lemma ActKeeps(keyOf: Snapshot -> Key, o: Offers, act: Act, k: Key)
    ensures
      var o' := Apply(keyOf, o, act);
      && (k in o.snapshots && k in o'.snapshots ==> o'.snapshots[k] == o.snapshots[k])
      && (k !in o.snapshots && k in o'.snapshots ==> act.Offer? && o'.snapshots[k] == act.s)
      && o'.badKeys == o.badKeys + (if act.Ban? then {keyOf(act.s)} else {})
      && o'.badFormats == o.badFormats + (if act.BanAll? then {act.format} else {})
      && o'.badPeers == o.badPeers + (if act.BanPeer? && act.peer != 0 then {act.peer} else {})
  {
    hide KeysOf, OfFormat, Plus;
    match act
    case Offer(peer, s) =>
    case Ban(s) =>
    case BanAll(format) =>
    case BanPeer(peer) =>
    case Leave(peer) =>
  }
}
