/** The pruner as the source runs it: one call on each store. */
module PruningDb {
  import opened Wrappers
  import opened ValidatorSets
  import opened StateModel
  import opened StateHistory
  import opened StateSteps
  import opened BlockStores
  import opened StateDb
  import opened BlockStoreDb
  import opened Pruning

  /** Prunes the block store, then the state store down to the evidence point the block store
      found. A height out of range is refused; every other one succeeds on both stores, also when the
      state store loses an anchor, and leaves them as the run's step says. */
  method PruneBlocksToHeight(bs: BlockStore, ss: DbStore, height: int, ages: Ages, ghost rules: Rules, ghost f: Full)
    returns (r: Result<(nat, int)>)
    requires ss.state.Some? && Inv(f) && f.blocks == bs.View() && f.node.db == ss.View()
    modifies bs, ss
    ensures r.Ok? <==> CanPrune(f.blocks, height)
    ensures r.Err? ==> bs.View() == f.blocks && ss.View() == f.node.db
    ensures
      var next := Next(rules, ages, f, PruneTo(height));
      r.Ok? ==>
        && next.Some? && bs.View() == next.value.blocks && ss.View() == next.value.node.db
        && r.value == (|StoredIn(f.blocks.metas, f.blocks.base, height)|, RecordOf(ages, f, height).point)
  {
    hide WellFormed, Refines, Accounted, Contiguous, PruneBlocks, PruneStates, EvidencePoint, RetainedFrom, PrunesPast,
         StateRollback.Next, PruneSucceeds, Aligned, StoredIn, DroppedExpired;
    if height <= 0 {
      return Err;
    }
    var base := bs.base;
    var now := NowOf(ages, ss.state.value);
    InvPointers(f);
    PruneAvailable(rules, ages, f, height);
    StepStores(rules, ages, f, height);
    var blocks := bs.Prune(height, now);
    if blocks.Err? {
      return Err;
    }
    var (pruned, point) := blocks.value;
    if pruned > 0 {
      var states := ss.PruneStatesTo(base, height, point);
      if states.Err? {
        return Err;
      }
    }
    return Ok((pruned, point));
  }

  lemma InvPointers(f: Full)
    requires Inv(f) && f.node.db.state.Some?
    ensures PointersBack(f.node.db.vals) && ParamPointersBack(f.node.db.params)
  {
    hide Refines, Accounted, Contiguous, Aligned, PointersBack, ParamPointersBack, PrunesPast, DroppedExpired;
  }

  /** The two stores after a prune step of the run model. */
  lemma StepStores(rules: Rules, ages: Ages, f: Full, to: int)
    requires Inv(f) && f.node.db.state.Some?
    ensures
      var next, now := Next(rules, ages, f, PruneTo(to)), NowOf(ages, f.node.db.state.value);
      next.Some? ==>
        && CanPrune(f.blocks, to) && next.value.blocks == PruneBlocks(f.blocks, to, now)
        && var point := EvidencePoint(f.blocks.metas, now, f.blocks.base, to);
        if StoredIn(f.blocks.metas, f.blocks.base, to) != {} then
          && PruneSucceeds(f.node.db, f.blocks.base, to, point)
          && next.value.node.db == PruneStates(f.node.db, f.blocks.base, to, point)
        else next.value.node.db == f.node.db
  {
    hide Refines, Accounted, Contiguous, Aligned, WellFormed, PruneBlocks, EvidencePoint, PruneStates, PruneChain,
         RetainedFrom, PruneVals, PruneParams, LoadValidators, LoadParams, PointersBack, ParamPointersBack, PrunesPast,
         DroppedExpired;
  }
}
