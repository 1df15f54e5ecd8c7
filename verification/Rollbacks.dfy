/** Rolling a node back by one block, across the block store and the state store. */
module Rollbacks {
  import opened Wrappers
  import opened ValidatorSets
  import opened StateModel
  import opened StateHistory
  import opened StateSteps
  import opened BlockStores
  import opened StateDb
  import opened BlockStoreDb
  import opened Pruning
  import StateRollback

  /** The top block was saved but never applied: the state is already right. */
  predicate OnlySaved(db: Db, b: Blocks) {
    db.state.Some? && b.height == db.state.value.lastBlockHeight + 1
  }

  /** The stores are level, and hold the two block metas, the validators and the parameters that the
      state one block earlier is rebuilt from. */
  predicate Rebuildable(db: Db, b: Blocks) {
    && db.state.Some?
    && var n := db.state.value.lastBlockHeight;
    && b.height == n && n - 1 in b.metas && n in b.metas && db.state.value.lastValidators.Some?
    && LoadValidators(db.vals, n - 1).Ok? && LoadParams(db.params, n).Ok?
  }

  /** The rebuilt state. */
  function Earlier(db: Db, b: Blocks): Result<State>
    requires Rebuildable(db, b)
  {
    var n := db.state.value.lastBlockHeight;
    RollbackState(db, b.metas[n - 1], b.metas[n])
  }

  /** A pending block is dropped, and only if asked for. Otherwise the state one block earlier is rebuilt
      and saved, and the top block goes if asked for. Whatever fails leaves both stores as they were. On a
      node that has kept at least two blocks it does not fail. */
  method Rollback(bs: BlockStore, ss: DbStore, removeBlock: bool, ghost f: Full) returns (r: Result<(int, nat)>)
    modifies bs, ss
    ensures bs.View() == if removeBlock && r.Ok? then DeleteTop(old(bs.View())) else old(bs.View())
    ensures r.Err? ==> ss.View() == old(ss.View())
    ensures r.Ok? ==> OnlySaved(old(ss.View()), old(bs.View())) || Rebuildable(old(ss.View()), old(bs.View()))
    ensures (old(ss.state).Some? && old(bs.height) == old(ss.state).value.lastBlockHeight + 1) ==>
              && ss.View() == old(ss.View())
              && r == Ok((old(ss.state).value.lastBlockHeight, old(ss.state).value.appHash))
    ensures (old(ss.state).None? || !(0 <= old(bs.height) - old(ss.state).value.lastBlockHeight <= 1)) ==> r.Err?
    ensures Rebuildable(old(ss.View()), old(bs.View())) ==>
              var n, st := old(ss.state).value.lastBlockHeight, Earlier(old(ss.View()), old(bs.View()));
              && st.Ok? && (r.Ok? <==> StateModel.Save(old(ss.View()), st.value).Ok?)
              && (r.Ok? ==> && Ok(ss.View()) == StateModel.Save(old(ss.View()), st.value) && ss.state == Some(st.value)
                            && r.value == (old(bs.metas)[n - 1].header.height, old(bs.metas)[n].header.appHash))
    ensures (OfNode(f, old(ss.View()), old(bs.View())) && KeepsTwo(f)) ==>
              && r.Ok? && r.value.0 == old(ss.state).value.lastBlockHeight - 1
              && Refines(false, ss.View(), StateRollback.RollbackChain(f.node.chain, old(ss.state).value))
  {
    hide RollbackState, StateModel.Save, DeleteTop, WellFormed, Inv, Refines, LoadValidators, LoadParams, OfNode, KeepsTwo;
    RebuildSucceeds(ss.View(), bs.View());
    if OfNode(f, ss.View(), bs.View()) && KeepsTwo(f) {
      NodeRollsBack(f, ss.View(), bs.View());
    }
    if ss.state.None? {
      return Err;
    }
    var invalid := ss.state.value;
    if bs.height == invalid.lastBlockHeight + 1 {
      if removeBlock {
        bs.DeleteLatestBlock();
      }
      return Ok((invalid.lastBlockHeight, invalid.appHash));
    }
    if bs.height != invalid.lastBlockHeight {
      return Err;
    }
    var rollbackHeight := invalid.lastBlockHeight - 1;
    if rollbackHeight !in bs.metas || invalid.lastBlockHeight !in bs.metas {
      return Err;
    }
    var st := RollbackState(ss.View(), bs.metas[rollbackHeight], bs.metas[invalid.lastBlockHeight]);
    if st.Err? {
      return Err;
    }
    SavedState(ss.View(), st.value);
    var saved := ss.SaveState(st.value);
    if !saved {
      return Err;
    }
    if removeBlock {
      bs.DeleteLatestBlock();
    }
    return Ok((st.value.lastBlockHeight, st.value.appHash));
  }

  /** The stores of a node that a run can reach, whose last block is applied. */
  ghost predicate OfNode(f: Full, db: Db, b: Blocks) {
    Inv(f) && db == f.node.db && b == f.blocks && db.state.Some? && b.height == db.state.value.lastBlockHeight
  }

  /** The block before the last one was not pruned. */
  predicate KeepsTwo(f: Full) {
    0 < f.blocks.base < f.blocks.height
  }

  lemma SavedState(db: Db, st: State)
    ensures StateModel.Save(db, st).Ok? ==> StateModel.Save(db, st).value.state == Some(st)
  {
  }

  lemma RebuildSucceeds(db: Db, b: Blocks)
    ensures Rebuildable(db, b) ==>
              && Earlier(db, b).Ok?
              && var n, st := db.state.value.lastBlockHeight, Earlier(db, b).value;
              st.lastBlockHeight == b.metas[n - 1].header.height && st.appHash == b.metas[n].header.appHash
    ensures (db.state.Some? && b.height == db.state.value.lastBlockHeight && b.height - 1 in b.metas && b.height in b.metas
             && !Rebuildable(db, b))
            ==> RollbackState(db, b.metas[b.height - 1], b.metas[b.height]).Err?
  {
    hide LoadValidators, LoadParams;
  }

  /** The stores hold what a rollback of the last block reads. */
  predicate ReadyFor(db: Db, c: Chain, b: Blocks) {
    && db.state.Some? && db.state.value.lastBlockHeight == b.height
    && b.height - 1 in b.metas && b.height in b.metas && b.metas[b.height - 1].header.height == b.height - 1
    && StateRollback.RollbackReady(db.state.value, c, b.metas[b.height - 1])
  }

  lemma NodeFacts(f: Full, db: Db, b: Blocks)
    requires OfNode(f, db, b) && KeepsTwo(f)
    ensures Refines(false, db, f.node.chain) && ReadyFor(db, f.node.chain, b)
  {
    hide Refines, Accounted, PointersBack, ParamPointersBack, PrunesPast, DroppedExpired, WellFormed;
    RefinesState(false, db, f.node.chain);
    assert HasBlock(b, b.height - 1) && HasBlock(b, b.height);
  }

  /** The rebuilt state stands one block lower, and saving it refines the history without that block. */
  predicate RollsBack(db: Db, b: Blocks, c: Chain) {
    && Rebuildable(db, b) && b.metas[b.height - 1].header.height == b.height - 1
    && var st := Earlier(db, b);
    && st.Ok? && st.value.lastBlockHeight == b.height - 1 && StateModel.Save(db, st.value).Ok?
    && Refines(false, StateModel.Save(db, st.value).value, StateRollback.RollbackChain(c, db.state.value))
  }

  lemma NodeRollsBack(f: Full, db: Db, b: Blocks)
    requires OfNode(f, db, b) && KeepsTwo(f)
    ensures !OnlySaved(db, b)
    ensures RollsBack(db, b, f.node.chain)
  {
    hide Refines, LoadValidators, LoadParams, StateModel.Save, RollbackState, OfNode, StateRollback.RollbackChain, WellFormed;
    NodeFacts(f, db, b);
    var c, n := f.node.chain, b.height;
    StateRollback.RollbackRefines(false, db, c, b.metas[n - 1], b.metas[n]);
    OfNodeTop(f, db, b);
    ReadsSucceed(db, b.metas[n - 1], b.metas[n]);
    RebuildSucceeds(db, b);
  }

  lemma OfNodeTop(f: Full, db: Db, b: Blocks)
    requires OfNode(f, db, b)
    ensures db.state.Some? && b.height == db.state.value.lastBlockHeight
  {
    hide Inv;
  }

  lemma ReadsSucceed(db: Db, previous: BlockMeta, latest: BlockMeta)
    requires db.state.Some? && RollbackState(db, previous, latest).Ok?
    ensures
      var n := db.state.value.lastBlockHeight;
      LoadValidators(db.vals, n - 1).Ok? && LoadParams(db.params, n).Ok? && db.state.value.lastValidators.Some?
  {
    hide LoadValidators, LoadParams;
  }

  lemma AppliedBy(rules: Rules, node: StateRollback.Node, blockID: nat, header: Header, resp: Response)
    requires StateRollback.Next(rules, node, StateRollback.Apply(blockID, header, resp)).Some?
    ensures
      var node' := StateRollback.Next(rules, node, StateRollback.Apply(blockID, header, resp)).value;
      node.db.state.Some? && ApplyBlock(rules, node.db, node.db.state.value, blockID, header, resp) == Ok(node'.db)
  {
    hide ApplyBlock;
  }

  predicate KnowsBefore(st: State, b: Blocks, meta: BlockMeta) {
    && st.lastValidators.Some? && b.height - 1 in b.metas
    && StateRollback.MetasMatch(st, meta.header, b.metas[b.height - 1], meta)
  }

  /** A node about to apply its pending block knows the block before it. */
  lemma BeforeApply(f: Full, meta: BlockMeta)
    requires Inv(f) && f.node.db.state.Some? && Pending(f.blocks, f.node.db.state.value) && KeepsTwo(f)
    requires f.blocks.height in f.blocks.metas && f.blocks.metas[f.blocks.height] == meta
    ensures KnowsBefore(f.node.db.state.value, f.blocks, meta)
  {
    hide Refines, Accounted, PointersBack, ParamPointersBack, PrunesPast, DroppedExpired, WellFormed;
    RefinesState(false, f.node.db, f.node.chain);
    assert HasBlock(f.blocks, f.blocks.height - 1);
  }

  lemma ReadyBefore(st: State, c: Chain, c': Chain, previous: BlockMeta)
    requires StateRollback.RollbackReady(st, c', previous) && c.valsFrom == c'.valsFrom && c.paramsFrom == c'.paramsFrom
    ensures StateRollback.RollbackReady(st, c, previous)
  {
  }

  /** Rolling back right after a block was applied rebuilds the state before it. */
  lemma RollbackUndoesApply(rules: Rules, ages: Ages, f: Full, resp: Response)
    requires Inv(f) && f.node.db.state.Some? && Next(rules, ages, f, Event.Apply(resp)).Some? && KeepsTwo(f)
    ensures
      var f', prev := Next(rules, ages, f, Event.Apply(resp)).value, f.node.db.state.value;
      var n := f.blocks.height;
      && f'.blocks == f.blocks && OfNode(f', f'.node.db, f'.blocks) && Rebuildable(f'.node.db, f'.blocks)
      && Earlier(f'.node.db, f'.blocks).Ok?
      && StateRollback.Restores(Earlier(f'.node.db, f'.blocks).value, StateRollback.Restored(prev, n, resp),
                                LoadValidators(f'.node.db.vals, n - 1))
  {
    hide Refines, LoadValidators, LoadParams, RollbackState, WellFormed, Accounted, Contiguous, PointersBack,
         ParamPointersBack, PrunesPast, DroppedExpired, StateRollback.Restores, StateRollback.Restored, Aligned,
         StateRollback.RollbackReady, StateRollback.MetasMatch, ApplyBlock;
    var f', prev := Next(rules, ages, f, Event.Apply(resp)).value, f.node.db.state.value;
    var n := f.blocks.height;
    var meta := f.blocks.metas[n];
    ApplyKeeps(rules, ages, f, Event.Apply(resp));
    ApplyAdvances(rules, f.node, meta.blockID, meta.header, resp);
    NodeFacts(f', f'.node.db, f'.blocks);
    NodeRollsBack(f', f'.node.db, f'.blocks);
    BeforeApply(f, meta);
    ReadyBefore(f'.node.db.state.value, f.node.chain, f'.node.chain, f.blocks.metas[n - 1]);
    AppliedBy(rules, f.node, meta.blockID, meta.header, resp);
    StateRollback.RollbackRestores(rules, f.node.db, f.node.chain, meta.blockID, meta.header, resp, f'.node.db,
                                   f.blocks.metas[n - 1], meta);
  }
}
