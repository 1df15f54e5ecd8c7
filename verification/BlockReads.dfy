/** Every block from base to height is read back as it was saved. */
module BlockReads {
  import opened Wrappers
  import opened StateModel
  import opened BlockStores
  import opened Pruning
  import StateHistory
  import StateRollback

  /** The store gives back the block: its meta by height and by hash, all its parts, and the commit that
      was seen for it. */
  predicate Holds(b: Blocks, h: int, block: Block, seen: BlockStores.Commit) {
    && h in b.metas && b.metas[h] == block.meta && h in b.seen && b.seen[h] == seen
    && block.meta.blockID in b.hashes && b.hashes[block.meta.blockID] == h
    && block.meta.parts == |block.parts|
    && (forall p :: 0 <= p < |block.parts| ==> (h, p) in b.parts && b.parts[(h, p)] == block.parts[p])
  }

  lemma SavedIsHeld(b: Blocks, block: Block, seen: BlockStores.Commit)
    requires CanSave(b, block, seen) && block.meta.parts == |block.parts|
    ensures Holds(SaveBlock(b, block, seen), block.meta.header.height, block, seen)
  {
    var h, table := block.meta.header.height, PartTable(block.meta.header.height, block.parts);
    forall p | 0 <= p < |block.parts|
      ensures (h, p) in table && table[(h, p)] == block.parts[p]
    {
    }
  }

  lemma SaveKeepsHeld(b: Blocks, block: Block, seen: BlockStores.Commit, h: int, kept: Block, keptSeen: BlockStores.Commit)
    requires CanSave(b, block, seen) && Holds(b, h, kept, keptSeen) && h != block.meta.header.height
    requires kept.meta.blockID != block.meta.blockID
    ensures Holds(SaveBlock(b, block, seen), h, kept, keptSeen)
  {
    var n := block.meta.header.height;
    forall p | 0 <= p < |kept.parts|
      ensures (h, p) !in PartTable(n, block.parts)
    {
    }
  }

  lemma PruneKeepsHeld(b: Blocks, to: int, now: Now, h: int, block: Block, seen: BlockStores.Commit)
    requires CanPrune(b, to) && DistinctIDs(b.metas) && to <= h && Holds(b, h, block, seen)
    ensures Holds(PruneBlocks(b, to, now), h, block, seen)
  {
    assert !HashPruned(b.metas, b.base, to, block.meta.blockID);
  }

  ghost predicate ReadsBack(events: seq<Event>, b: Blocks, h: int) {
    exists i :: 0 <= i < |events| && SavedBy(events[i], b, h)
  }

  predicate SavedBy(e: Event, b: Blocks, h: int) {
    e.Save? && e.block.meta.header.height == h && Holds(b, h, e.block, e.seen)
  }

  lemma LaterReads(events: seq<Event>, i: nat, b: Blocks, h: int)
    requires i < |events| && SavedBy(events[i], b, h)
    ensures ReadsBack(events, b, h)
  {
  }

  /** Over every run, each height from base to height reads back the block and the seen commit with which
      it was saved. */
  lemma {:induction false} BlocksReadBack(rules: Rules, ages: Ages, events: seq<Event>, h: int)
    requires Run(rules, ages, events).Some? && 0 < Run(rules, ages, events).value.blocks.base <= h
    requires h <= Run(rules, ages, events).value.blocks.height
    ensures ReadsBack(events, Run(rules, ages, events).value.blocks, h)
  {
    hide Inv, Next, Holds;
    if events != [] {
      var front, e := events[..|events| - 1], events[|events| - 1];
      var f, f' := Run(rules, ages, front).value, Run(rules, ages, events).value;
      RunKeeps(rules, ages, front);
      assert forall i :: 0 <= i < |front| ==> front[i] == events[i];
      match e
      case Save(block, seen) =>
        SaveFacts(rules, ages, f, block, seen);
        if h == block.meta.header.height {
          SavedIsHeld(f.blocks, block, seen);
          LaterReads(events, |events| - 1, f'.blocks, h);
        } else {
          BlocksReadBack(rules, ages, front, h);
          var i :| 0 <= i < |front| && SavedBy(front[i], f.blocks, h);
          OtherID(f.blocks, h, front[i].block, front[i].seen, block);
          SaveKeepsHeld(f.blocks, block, seen, h, front[i].block, front[i].seen);
          LaterReads(events, i, f'.blocks, h);
        }
      case PruneTo(to) =>
        PruneToFacts(rules, ages, f, to);
        BlocksReadBack(rules, ages, front, h);
        var i :| 0 <= i < |front| && SavedBy(front[i], f.blocks, h);
        PruneKeepsHeld(f.blocks, to, NowOf(ages, f.node.db.state.value), h, front[i].block, front[i].seen);
        LaterReads(events, i, f'.blocks, h);
      case _ =>
        SameBlocks(rules, ages, f, e);
        BlocksReadBack(rules, ages, front, h);
        var i :| 0 <= i < |front| && SavedBy(front[i], f.blocks, h);
        LaterReads(events, i, f'.blocks, h);
    }
  }

  lemma OtherID(b: Blocks, h: int, kept: Block, keptSeen: BlockStores.Commit, block: Block)
    requires Holds(b, h, kept, keptSeen) && NewID(b, block)
    ensures kept.meta.blockID != block.meta.blockID
  {
  }

  lemma SaveFacts(rules: Rules, ages: Ages, f: Full, block: Block, seen: BlockStores.Commit)
    requires Inv(f) && Next(rules, ages, f, Save(block, seen)).Some?
    ensures CanSave(f.blocks, block, seen) && NewID(f.blocks, block) && block.meta.parts == |block.parts|
    ensures
      var b' := Next(rules, ages, f, Save(block, seen)).value.blocks;
      && b' == SaveBlock(f.blocks, block, seen) && b'.height == block.meta.header.height
      && (b'.base != block.meta.header.height ==> b'.base == f.blocks.base > 0)
      && (f.blocks.base > 0 ==> b'.height == f.blocks.height + 1)
      && (f.blocks.base == 0 ==> b'.base == b'.height)
  {
    hide Inv, PartTable;
    NonNegativeBase(f);
  }

  lemma NonNegativeBase(f: Full)
    requires Inv(f)
    ensures f.blocks.base >= 0 && DistinctIDs(f.blocks.metas)
  {
    hide Accounted, PrunesPast, DroppedExpired, StateHistory.Refines;
  }

  lemma PruneToFacts(rules: Rules, ages: Ages, f: Full, to: int)
    requires Inv(f) && Next(rules, ages, f, PruneTo(to)).Some?
    ensures f.node.db.state.Some? && CanPrune(f.blocks, to) && DistinctIDs(f.blocks.metas) && 0 < f.blocks.base <= to
    ensures
      var b' := Next(rules, ages, f, PruneTo(to)).value.blocks;
      b' == PruneBlocks(f.blocks, to, NowOf(ages, f.node.db.state.value)) && b'.base == to && b'.height == f.blocks.height
  {
    hide Inv, EvidencePoint, KeptMetas, KeptHashes, KeptCommits, KeptSeen, KeptParts, StoredIn;
    NonNegativeBase(f);
    StoredInRange(f, to);
  }

  lemma SameBlocks(rules: Rules, ages: Ages, f: Full, e: Event)
    requires (e.Start? || e.StartFrom? || e.Apply?) && Next(rules, ages, f, e).Some?
    ensures Next(rules, ages, f, e).value.blocks == f.blocks
  {
    hide StateRollback.Next;
  }
}
