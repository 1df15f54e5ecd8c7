/** The block store as the source runs it: fields that are overwritten, batches of deletions, and
    loops over heights and parts. */
module BlockStoreDb {
  import opened Wrappers
  import opened StateModel
  import opened BlockStores

  /** Pending deletions of a batch. */
  datatype Deletions = Deletions(
    metas: set<int>, hashes: set<nat>, commits: set<int>, seen: set<int>, parts: set<(int, int)>)

  const NOTHING := Deletions({}, {}, {}, {}, {})

  function Drop(b: Blocks, d: Deletions): Blocks {
    b.(metas := b.metas - d.metas, hashes := b.hashes - d.hashes, commits := b.commits - d.commits,
       seen := b.seen - d.seen, parts := b.parts - d.parts)
  }

  /** What one pruned height adds to the batch. */
  function DeletionsAt(meta: BlockMeta, h: int, headerToo: bool): Deletions {
    Deletions(if headerToo then {h} else {}, {meta.blockID}, if headerToo then {h} else {}, {h},
              set p | 0 <= p < meta.parts :: (h, p))
  }

  function Both(d: Deletions, e: Deletions): Deletions {
    Deletions(d.metas + e.metas, d.hashes + e.hashes, d.commits + e.commits, d.seen + e.seen, d.parts + e.parts)
  }

  lemma DropTwice(b: Blocks, d: Deletions, e: Deletions)
    ensures Drop(Drop(b, d), e) == Drop(b, Both(d, e))
  {
  }

  lemma PruneRangeUp(b: Blocks, lo: int, h: int, point: int, base: int)
    requires lo <= h
    ensures
      var upper, lower := PruneRangeOf(b, lo, h + 1, point, base), PruneRangeOf(b, lo, h, point, base);
      upper == if h in b.metas then Drop(lower, DeletionsAt(b.metas[h], h, h < point)) else lower
  {
    hide KeptMetas, KeptHashes, KeptCommits, KeptSeen, KeptParts;
    HeadersUp(b, lo, h, point);
    HashesUp(b, lo, h);
    SeenUp(b, lo, h);
    PartsUp(b, lo, h);
  }

  lemma HeadersUp(b: Blocks, lo: int, h: int, point: int)
    requires lo <= h
    ensures
      var gone := if h in b.metas && h < point then {h} else {};
      && KeptMetas(b, lo, h + 1, point) == KeptMetas(b, lo, h, point) - gone
      && KeptCommits(b, lo, h + 1, point) == KeptCommits(b, lo, h, point) - gone
  {
  }

  lemma HashesUp(b: Blocks, lo: int, h: int)
    requires lo <= h
    ensures KeptHashes(b, lo, h + 1) == KeptHashes(b, lo, h) - (if h in b.metas then {b.metas[h].blockID} else {})
  {
    var gone := if h in b.metas then {b.metas[h].blockID} else {};
    forall k: nat
      ensures HashPruned(b.metas, lo, h + 1, k) <==> HashPruned(b.metas, lo, h, k) || k in gone
    {
    }
  }

  lemma SeenUp(b: Blocks, lo: int, h: int)
    requires lo <= h
    ensures KeptSeen(b, lo, h + 1) == KeptSeen(b, lo, h) - (if h in b.metas then {h} else {})
  {
  }

  lemma PartsUp(b: Blocks, lo: int, h: int)
    requires lo <= h
    ensures KeptParts(b, lo, h + 1)
         == KeptParts(b, lo, h) - (if h in b.metas then (set p | 0 <= p < b.metas[h].parts :: (h, p)) else {})
  {
    var gone := if h in b.metas then (set p | 0 <= p < b.metas[h].parts :: (h, p)) else {};
    forall q: (int, int)
      ensures q in gone <==> q.0 == h && h in b.metas && 0 <= q.1 < b.metas[h].parts
    {
      if q.0 == h && h in b.metas && 0 <= q.1 < b.metas[h].parts {
        assert q == (h, q.1);
      }
    }
  }

  lemma PruneRangeEmpty(b: Blocks, lo: int, point: int)
    ensures PruneRangeOf(b, lo, lo, point, b.base) == b
  {
    assert KeptMetas(b, lo, lo, point) == b.metas && KeptCommits(b, lo, lo, point) == b.commits;
    assert KeptHashes(b, lo, lo) == b.hashes && KeptSeen(b, lo, lo) == b.seen && KeptParts(b, lo, lo) == b.parts;
  }

  class BlockStore {
    var base: int
    var height: int
    var metas: map<int, BlockMeta>
    var hashes: map<nat, int>
    var commits: map<int, Commit>
    var seen: map<int, Commit>
    var parts: map<(int, int), nat>

    constructor ()
      ensures View() == NO_BLOCKS
    {
      base, height, metas, hashes, commits, seen, parts := 0, 0, map[], map[], map[], map[], map[];
    }

    function View(): Blocks
      reads this
    {
      Blocks(base, height, metas, hashes, commits, seen, parts)
    }

    /** Saves a block; refuses a gap, an incomplete part set or a commit of another height. */
    method Save(block: Block, seenCommit: Commit) returns (ok: bool)
      modifies this
      ensures ok <==> && (old(base) > 0 ==> block.meta.header.height == old(height) + 1)
                      && block.complete && seenCommit.height == block.meta.header.height
      ensures ok <==> CanSave(old(View()), block, seenCommit)
      ensures View() == if ok then SaveBlock(old(View()), block, seenCommit) else old(View())
    {
      var h := block.meta.header.height;
      if (base > 0 && h != height + 1) || !block.complete || seenCommit.height != h {
        return false;
      }
      SaveParts(h, block.parts);
      hide PartTable;
      metas := metas[h := block.meta];
      hashes := hashes[block.meta.blockID := h];
      commits := commits[h - 1 := block.lastCommit];
      seen := seen[h := seenCommit];
      height := h;
      if base == 0 {
        base := h;
      }
      ok := true;
    }

    method SaveParts(h: int, blockParts: seq<nat>)
      modifies this`parts
      ensures parts == old(parts) + PartTable(h, blockParts)
    {
      ghost var parts0 := parts;
      assert PartTable(h, blockParts[..0]) == map[];
      assert parts == parts0 + PartTable(h, blockParts[..0]);
      hide PartTable;
      for i := 0 to |blockParts|
        invariant parts == parts0 + PartTable(h, blockParts[..i])
      {
        PartTableGrows(h, blockParts, i);
        MergeUpdate(parts0, PartTable(h, blockParts[..i]), (h, i), blockParts[i]);
        parts := parts[(h, i) := blockParts[i]];
      }
      assert blockParts[..|blockParts|] == blockParts;
    }

    method Flush(d: Deletions, newBase: int)
      modifies this
      ensures View() == Drop(old(View()), d).(base := newBase) && base == newBase
    {
      base := newBase;
      metas, hashes, commits := metas - d.metas, hashes - d.hashes, commits - d.commits;
      seen, parts := seen - d.seen, parts - d.parts;
    }

    /** Prunes below `to`, flushing every thousand blocks. Returns the number of blocks pruned and
        the lowest height whose evidence data was kept. */
    method Prune(to: int, now: Now) returns (r: Result<(nat, int)>)
      modifies this
      ensures r.Ok? <==> 0 < to <= old(height) && old(base) <= to
      ensures r.Ok? <==> CanPrune(old(View()), to)
      ensures r.Ok? ==> View() == PruneBlocks(old(View()), to, now)
      ensures r.Ok? ==> r.value.1 == EvidencePoint(old(metas), now, old(base), to)
      ensures r.Ok? ==> r.value.0 == |StoredIn(old(metas), old(base), to)|
      ensures r.Err? ==> View() == old(View())
    {
      if to <= 0 || to > height || to < base {
        return Err;
      }
      var pruned, point := PruneBelow(to, now);
      hide PruneRangeOf, ExpiredAt, EvidencePoint;
      return Ok((pruned, point));
    }

    method PruneBelow(to: int, now: Now) returns (pruned: nat, point: int)
      requires base <= to
      modifies this
      ensures point == EvidencePoint(old(metas), now, old(base), to)
      ensures View() == PruneRangeOf(old(View()), old(base), to, point, to)
      ensures pruned == |StoredIn(old(metas), old(base), to)|
    {
      hide PruneRangeOf, Drop, DeletionsAt, Both, ExpiredAt, EvidencePoint, View, StoredIn;
      ghost var b0, lo, final := View(), base, EvidencePoint(metas, now, base, to);
      pruned, point := 0, to;
      var batch, h := NOTHING, base;
      ViewFields();
      PruneRangeEmpty(b0, lo, final);
      DropNothing(b0);
      StoredInNothing(b0.metas, lo);
      ghost var flushed := lo;
      while h < to
        invariant lo <= flushed <= h <= to
        invariant View() == PruneRangeOf(b0, lo, flushed, final, base)
        invariant Drop(View(), batch) == PruneRangeOf(b0, lo, h, final, base)
        invariant if point == to then final == EvidencePoint(b0.metas, now, h, to) else point == final < h
        invariant pruned == |StoredIn(b0.metas, lo, h)|
      {
        PruneRangeUp(b0, lo, h, final, base);
        UntouchedAbove(b0, lo, flushed, final, base, h);
        PointStep(b0.metas, now, h, to);
        StoredInUp(b0.metas, lo, h);
        ViewFields();
        if h in metas {
          var meta := metas[h];
          if point == to && !ExpiredAt(now, meta, h) {
            point := h;
          }
          var more := CollectDeletions(meta, h, h < point);
          DropTwice(View(), batch, more);
          batch := Both(batch, more);
          pruned := pruned + 1;
          if pruned % FLUSH_EVERY == 0 {
            Rebase(b0, lo, h + 1, final, base, h);
            Flush(batch, h);
            batch := NOTHING;
            flushed := h + 1;
            DropNothing(View());
          }
        }
        h := h + 1;
      }
      Rebase(b0, lo, to, final, base, to);
      PointEnd(b0.metas, now, to);
      Flush(batch, to);
    }

    lemma ViewFields()
      ensures View().metas == metas && View().base == base
    {
    }

    /** The loop over the parts of one block. */
    static method CollectDeletions(meta: BlockMeta, h: int, headerToo: bool) returns (d: Deletions)
      ensures d == DeletionsAt(meta, h, headerToo)
    {
      var header := if headerToo then {h} else {};
      d := Deletions(header, {meta.blockID}, header, {h}, {});
      for p := 0 to meta.parts
        invariant d == Deletions(header, {meta.blockID}, header, {h}, set q | 0 <= q < p :: (h, q))
      {
        assert (set q | 0 <= q < p + 1 :: (h, q)) == (set q | 0 <= q < p :: (h, q)) + {(h, p)};
        d := d.(parts := d.parts + {(h, p)});
      }
    }

    /** Removes the top block; whatever of it is already missing is skipped. */
    method DeleteLatestBlock()
      modifies this
      ensures View() == DeleteTop(old(View()))
    {
      var target := height;
      if target in metas {
        var meta := metas[target];
        hashes := hashes - {meta.blockID};
        var d := CollectDeletions(meta, target, false);
        parts := parts - d.parts;
      }
      commits, seen, metas := commits - {target}, seen - {target}, metas - {target};
      height := target - 1;
    }
  }

  lemma MergeUpdate<K, V>(m: map<K, V>, n: map<K, V>, k: K, v: V)
    ensures (m + n)[k := v] == m + n[k := v]
  {
  }

  lemma PartTableGrows(h: int, parts: seq<nat>, i: nat)
    requires i < |parts|
    ensures PartTable(h, parts[..i + 1]) == PartTable(h, parts[..i])[(h, i) := parts[i]]
  {
    var small, big := PartTable(h, parts[..i]), PartTable(h, parts[..i + 1]);
    assert parts[..i + 1][i] == parts[i];
    forall p | 0 <= p < i
      ensures (h, p) in big && big[(h, p)] == parts[p]
    {
      assert parts[..i + 1][p] == parts[p];
    }
    forall p | 0 <= p < i
      ensures (h, p) in small && small[(h, p)] == parts[p]
    {
      assert parts[..i][p] == parts[p];
    }
    assert (h, i) in big;
  }

  lemma PointEnd(metas: map<int, BlockMeta>, now: Now, to: int)
    ensures EvidencePoint(metas, now, to, to) == to
  {
  }

  lemma StoredInNothing(metas: map<int, BlockMeta>, lo: int)
    ensures |StoredIn(metas, lo, lo)| == 0
  {
    assert StoredIn(metas, lo, lo) == {};
  }

  lemma StoredInUp(metas: map<int, BlockMeta>, lo: int, h: int)
    requires lo <= h
    ensures |StoredIn(metas, lo, h + 1)| == |StoredIn(metas, lo, h)| + if h in metas then 1 else 0
  {
    assert StoredIn(metas, lo, h + 1) == StoredIn(metas, lo, h) + if h in metas then {h} else {};
  }

  lemma PointStep(metas: map<int, BlockMeta>, now: Now, h: int, to: int)
    requires h < to
    ensures EvidencePoint(metas, now, h, to)
         == if h in metas && !ExpiredAt(now, metas[h], h) then h else EvidencePoint(metas, now, h + 1, to)
    ensures (h in metas && !ExpiredAt(now, metas[h], h)) || EvidencePoint(metas, now, h, to) > h
  {
    hide ExpiredAt;
  }

  lemma DropNothing(b: Blocks)
    ensures Drop(b, NOTHING) == b
  {
  }

  lemma Rebase(b: Blocks, lo: int, hi: int, point: int, base: int, base': int)
    ensures PruneRangeOf(b, lo, hi, point, base).(base := base') == PruneRangeOf(b, lo, hi, point, base')
  {
  }

  lemma UntouchedAbove(b: Blocks, lo: int, hi: int, point: int, base: int, h: int)
    requires hi <= h
    ensures
      var metas := PruneRangeOf(b, lo, hi, point, base).metas;
      (h in metas <==> h in b.metas) && (h in b.metas ==> metas[h] == b.metas[h])
  {
  }
}
