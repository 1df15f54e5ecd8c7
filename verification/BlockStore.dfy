/** The block store: saving contiguous blocks and pruning old ones while keeping what is still
    needed to prove misbehaviour. */
module BlockStores {
  import opened Wrappers
  import opened StateModel

  datatype Commit = Commit(height: int, signatures: nat)

  datatype Block = Block(meta: BlockMeta, lastCommit: Commit, parts: seq<nat>, complete: bool)

  datatype Blocks = Blocks(
    base: int,
    height: int,
    metas: map<int, BlockMeta>,
    hashes: map<nat, int>,
    commits: map<int, Commit>,
    seen: map<int, Commit>,
    parts: map<(int, int), nat>)

  const NO_BLOCKS := Blocks(0, 0, map[], map[], map[], map[], map[])

  // ---------------------------------------------------------------- saving

  predicate CanSave(b: Blocks, block: Block, seen: Commit) {
    && (b.base > 0 ==> block.meta.header.height == b.height + 1)
    && block.complete
    && seen.height == block.meta.header.height
  }

  function PartTable(height: int, parts: seq<nat>): map<(int, int), nat> {
    map p | 0 <= p < |parts| :: (height, p) := parts[p]
  }

  function SaveBlock(b: Blocks, block: Block, seen: Commit): Blocks
    requires CanSave(b, block, seen)
  {
    var h := block.meta.header.height;
    Blocks(if b.base == 0 then h else b.base, h,
           b.metas[h := block.meta],
           b.hashes[block.meta.blockID := h],
           b.commits[h - 1 := block.lastCommit],
           b.seen[h := seen],
           b.parts + PartTable(h, block.parts))
  }

  // ---------------------------------------------------------------- expiry of evidence

  datatype EvidenceAge = EvidenceAge(maxDuration: int, maxBlocks: int)

  /** Evidence expires only when it is too old both in time and in blocks. */
  predicate Expired(age: EvidenceAge, heightNow: int, timeNow: int, height: int, time: int) {
    timeNow - time > age.maxDuration && heightNow - height > age.maxBlocks
  }

  datatype Now = Now(height: int, time: int, age: EvidenceAge)

  predicate ExpiredAt(now: Now, meta: BlockMeta, h: int) {
    Expired(now.age, now.height, now.time, h, meta.header.time)
  }

  /** The lowest height from `h` on whose evidence is still usable, or `to`. */
  function EvidencePoint(metas: map<int, BlockMeta>, now: Now, h: int, to: int): (p: int)
    requires h <= to
    ensures h <= p <= to
    ensures p < to ==> p in metas && !ExpiredAt(now, metas[p], p)
    ensures forall k :: h <= k < p && k in metas ==> ExpiredAt(now, metas[k], k)
    decreases (to - h)
  {
    if h == to then to
    else if h in metas && !ExpiredAt(now, metas[h], h) then h
    else EvidencePoint(metas, now, h + 1, to)
  }

  // ---------------------------------------------------------------- pruning

  predicate CanPrune(b: Blocks, to: int) {
    0 < to <= b.height && b.base <= to
  }

  /** The tables after heights lo..hi-1 are pruned; headers and commits survive from `point` on. */
  function PruneRangeOf(b: Blocks, lo: int, hi: int, point: int, base: int): Blocks {
    Blocks(base, b.height, KeptMetas(b, lo, hi, point), KeptHashes(b, lo, hi), KeptCommits(b, lo, hi, point),
           KeptSeen(b, lo, hi), KeptParts(b, lo, hi))
  }

  function KeptMetas(b: Blocks, lo: int, hi: int, point: int): map<int, BlockMeta> {
    map h | h in b.metas && !(lo <= h < hi && h < point) :: b.metas[h]
  }

  function KeptHashes(b: Blocks, lo: int, hi: int): map<nat, int> {
    map k | k in b.hashes && !HashPruned(b.metas, lo, hi, k) :: b.hashes[k]
  }

  function KeptCommits(b: Blocks, lo: int, hi: int, point: int): map<int, Commit> {
    map h | h in b.commits && !(lo <= h < hi && h in b.metas && h < point) :: b.commits[h]
  }

  function KeptSeen(b: Blocks, lo: int, hi: int): map<int, Commit> {
    map h | h in b.seen && !(lo <= h < hi && h in b.metas) :: b.seen[h]
  }

  function KeptParts(b: Blocks, lo: int, hi: int): map<(int, int), nat> {
    map q | q in b.parts && !(lo <= q.0 < hi && q.0 in b.metas && 0 <= q.1 < b.metas[q.0].parts) :: b.parts[q]
  }

  predicate HashPruned(metas: map<int, BlockMeta>, lo: int, hi: int, k: nat) {
    exists h :: lo <= h < hi && h in metas && metas[h].blockID == k
  }

  /** The heights of a range at which a block is stored. */
  function StoredIn(metas: map<int, BlockMeta>, lo: int, hi: int): set<int> {
    set h | h in metas && lo <= h < hi
  }

  function PruneBlocks(b: Blocks, to: int, now: Now): Blocks
    requires CanPrune(b, to)
  {
    PruneRangeOf(b, b.base, to, EvidencePoint(b.metas, now, b.base, to), to)
  }

  // ---------------------------------------------------------------- deleting the top block

  /** The store without its top block; whatever of that block is already missing is skipped. */
  function DeleteTop(b: Blocks): Blocks {
    var h := b.height;
    Blocks(b.base, h - 1, b.metas - {h},
           if h in b.metas then b.hashes - {b.metas[h].blockID} else b.hashes,
           b.commits - {h}, b.seen - {h},
           if h in b.metas then b.parts - (set p | 0 <= p < b.metas[h].parts :: (h, p)) else b.parts)
  }

  /** Nothing of the height after the top one is stored yet. */
  predicate NothingAbove(b: Blocks, id: nat) {
    var h := b.height + 1;
    h !in b.metas && h !in b.commits && h !in b.seen && id !in b.hashes && (forall q :: q in b.parts ==> q.0 != h)
  }

  /** Deleting the top block undoes saving it; only the commit it carried for the block below stays. */
  lemma DeleteTopUndoesSave(b: Blocks, block: Block, seen: Commit)
    requires CanSave(b, block, seen) && b.base > 0 && block.meta.parts == |block.parts|
    requires NothingAbove(b, block.meta.blockID)
    ensures DeleteTop(SaveBlock(b, block, seen)) == b.(commits := b.commits[b.height := block.lastCommit])
  {
    var h := block.meta.header.height;
    SetThenDrop(b.metas, h, block.meta);
    SetThenDrop(b.hashes, block.meta.blockID, h);
    SetThenDrop(b.seen, h, seen);
    SetThenDrop(b.commits[b.height := block.lastCommit], h, block.lastCommit);
    assert b.commits[b.height := block.lastCommit] - {h} == b.commits[b.height := block.lastCommit];
    PartsUndone(b.parts, h, block.parts);
  }

  lemma SetThenDrop<K, V>(m: map<K, V>, k: K, v: V)
    requires k !in m
    ensures m[k := v] - {k} == m
  {
  }

  lemma PartsUndone(parts: map<(int, int), nat>, h: int, blockParts: seq<nat>)
    requires forall q :: q in parts ==> q.0 != h
    ensures parts + PartTable(h, blockParts) - (set p | 0 <= p < |blockParts| :: (h, p)) == parts
  {
    var table, gone := PartTable(h, blockParts), set p | 0 <= p < |blockParts| :: (h, p);
    assert table.Keys == gone;
    hide PartTable;
    DropMerged(parts, table);
  }

  lemma DropMerged<K, V>(m: map<K, V>, n: map<K, V>)
    requires m.Keys !! n.Keys
    ensures m + n - n.Keys == m
  {
  }

  // ---------------------------------------------------------------- what a store holds

  predicate HasBlock(b: Blocks, h: int) {
    && h in b.metas && h in b.seen && b.metas[h].header.height == h
    && b.metas[h].blockID in b.hashes && b.hashes[b.metas[h].blockID] == h
    && (forall p :: 0 <= p < b.metas[h].parts ==> (h, p) in b.parts)
  }

  predicate DistinctIDs(metas: map<int, BlockMeta>) {
    forall g, h :: g in metas && h in metas && g != h ==> metas[g].blockID != metas[h].blockID
  }

  /** Every height from base to height is complete. */
  predicate Contiguous(b: Blocks) {
    && DistinctIDs(b.metas)
    && (b.base != 0 ==>
        && 0 < b.base <= b.height
        && (forall h :: b.base <= h <= b.height ==> HasBlock(b, h))
        && (forall h :: b.base <= h < b.height ==> h in b.commits))
  }

  /** A block that can be the next one: its parts are those of its meta, its ID is new. */
  predicate FreshBlock(b: Blocks, block: Block) {
    && block.meta.header.height > 0 && block.meta.parts == |block.parts|
    && (forall h :: h in b.metas ==> h < block.meta.header.height && b.metas[h].blockID != block.meta.blockID)
  }

  lemma SaveKeepsContiguous(b: Blocks, block: Block, seen: Commit)
    requires Contiguous(b) && CanSave(b, block, seen) && FreshBlock(b, block)
    ensures Contiguous(SaveBlock(b, block, seen))
  {
    var b', n := SaveBlock(b, block, seen), block.meta.header.height;
    forall h | b'.base <= h <= n
      ensures HasBlock(b', h)
    {
      if h < n {
        assert HasBlock(b, h);
        forall p | 0 <= p < b'.metas[h].parts
          ensures (h, p) in b'.parts
        {
          assert (h, p) in b.parts;
        }
      } else {
        forall p | 0 <= p < b'.metas[h].parts
          ensures (h, p) in b'.parts
        {
          assert (h, p) in PartTable(n, block.parts);
        }
      }
    }
  }

  /** When pruning returns, every height from the new base to the top is still complete. */
  lemma PruneKeepsContiguous(b: Blocks, to: int, now: Now)
    requires Contiguous(b) && b.base != 0 && CanPrune(b, to)
    ensures Contiguous(PruneBlocks(b, to, now))
  {
    var b' := PruneBlocks(b, to, now);
    forall h | to <= h <= b.height
      ensures HasBlock(b', h)
    {
      assert HasBlock(b, h);
      assert !HashPruned(b.metas, b.base, to, b.metas[h].blockID);
      forall p | 0 <= p < b'.metas[h].parts
        ensures (h, p) in b'.parts
      {
        assert (h, p) in b.parts;
      }
    }
  }

  /** Pruning keeps the header and the commit of every height that is recent enough in time or in
      blocks. */
  lemma PruneKeepsEvidence(b: Blocks, to: int, now: Now, h: int)
    requires CanPrune(b, to) && h in b.metas
    requires || h < b.base || now.time - b.metas[h].header.time <= now.age.maxDuration
             || now.height - h <= now.age.maxBlocks
    ensures
      var b' := PruneBlocks(b, to, now);
      && h in b'.metas && b'.metas[h] == b.metas[h]
      && (h in b.commits ==> h in b'.commits && b'.commits[h] == b.commits[h])
  {
  }

  /** Pruning removes the block body of every height below the target, and the header and commit
      of every height whose evidence had expired before the first usable one. */
  lemma PruneRemoves(b: Blocks, to: int, now: Now, h: int)
    requires CanPrune(b, to) && b.base <= h < to && h in b.metas
    ensures
      var b', point := PruneBlocks(b, to, now), EvidencePoint(b.metas, now, b.base, to);
      && h !in b'.seen && b.metas[h].blockID !in b'.hashes
      && (forall p :: 0 <= p < b.metas[h].parts ==> (h, p) !in b'.parts)
      && (h < point ==> h !in b'.metas && h !in b'.commits)
  {
    assert HashPruned(b.metas, b.base, to, b.metas[h].blockID);
  }

  /** Evidence is judged by the age in force when blocks are pruned: a header that pruning removed
      would still count under a longer age set afterwards. */
  lemma RaisedAgeComesTooLate(b: Blocks, to: int, now: Now, h: int)
    requires CanPrune(b, to) && h in b.metas && b.base <= h < EvidencePoint(b.metas, now, b.base, to)
    ensures
      var longer := now.(age := EvidenceAge(now.time - b.metas[h].header.time, now.age.maxBlocks));
      ExpiredAt(now, b.metas[h], h) && !ExpiredAt(longer, b.metas[h], h) && h !in PruneBlocks(b, to, now).metas
  {
    PruneRemoves(b, to, now, h);
  }
}
