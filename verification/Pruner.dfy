/** The pruner over both stores: over every run of block saves, block applications and prunes, what
    could still prove misbehaviour is accounted for exactly. */
module Pruning {
  import opened Wrappers
  import opened ValidatorSets
  import opened StateModel
  import opened StateHistory
  import opened StateSteps
  import opened BlockStores
  import StateRollback

  type Node = StateRollback.Node

  /** One prune: when it ran, the old and the new base, the evidence point, and the end of the lost
      stretch, which is the evidence point itself unless an anchor was lost. */
  datatype Prune = Prune(now: Now, base: int, to: int, point: int, lostTo: int)

  /** A node with its block store, every block it ever saved, the commit that came for each height with
      the next block, and every prune. */
  datatype Full = Full(node: Node, blocks: Blocks, saved: map<int, BlockMeta>, carried: map<int, BlockStores.Commit>,
                       prunes: seq<Prune>)

  /** Saving a block and applying it are two steps; the pruner may run in between. */
  datatype Event =
    | Start(st: State)
    | StartFrom(st: State)
    | Save(block: Block, seen: BlockStores.Commit)
    | Apply(resp: Response)
    | PruneTo(to: int)

  /** How the consensus parameters give the maximum evidence age. */
  type Ages = ConsensusParams -> EvidenceAge

  function NowOf(ages: Ages, st: State): Now {
    Now(st.lastBlockHeight, st.lastBlockTime, ages(st.params))
  }

  const NEW_NODE := Full(StateRollback.EMPTY, NO_BLOCKS, map[], map[], [])

  /** The new block's ID collides with none stored, and its meta counts its parts. */
  predicate NewID(b: Blocks, block: Block) {
    block.meta.parts == |block.parts| && forall h :: h in b.metas ==> b.metas[h].blockID != block.meta.blockID
  }

  /** The last saved block is not applied yet. */
  predicate Pending(b: Blocks, st: State) {
    b.base > 0 && b.height == NextHeight(st)
  }

  function WithNode(f: Full, node: Option<Node>): Option<Full> {
    if node.None? then None else Some(f.(node := node.value))
  }

  function Saved(f: Full, block: Block, seen: BlockStores.Commit): Full
    requires CanSave(f.blocks, block, seen)
  {
    var h := block.meta.header.height;
    f.(blocks := SaveBlock(f.blocks, block, seen), saved := f.saved[h := block.meta],
       carried := f.carried[h - 1 := block.lastCommit])
  }

  function Next(rules: Rules, ages: Ages, f: Full, e: Event): Option<Full> {
    match e
    case Start(st) => WithNode(f, StateRollback.Next(rules, f.node, StateRollback.Genesis(st)))
    case StartFrom(st) => WithNode(f, StateRollback.Next(rules, f.node, StateRollback.BootstrapFrom(st)))
    case Save(block, seen) =>
      if f.node.db.state.None? || Pending(f.blocks, f.node.db.state.value) then None
      else if !ValidHeader(f.node.db.state.value, block.meta.header) then None
      else if !CanSave(f.blocks, block, seen) || !NewID(f.blocks, block) then None
      else Some(Saved(f, block, seen))
    case Apply(resp) =>
      if f.node.db.state.None? || !Pending(f.blocks, f.node.db.state.value) || f.blocks.height !in f.blocks.metas then None
      else
        var meta := f.blocks.metas[f.blocks.height];
        WithNode(f, StateRollback.Next(rules, f.node, StateRollback.Apply(meta.blockID, meta.header, resp)))
    case PruneTo(to) =>
      if f.node.db.state.None? || !CanPrune(f.blocks, to) then None
      else
        var now, base := NowOf(ages, f.node.db.state.value), f.blocks.base;
        var point := EvidencePoint(f.blocks.metas, now, base, to);
        var record := Prune(now, base, to, point, RetainedFrom(f.node.db.vals, base, to, point));
        var pruned := f.(blocks := PruneBlocks(f.blocks, to, now), prunes := f.prunes + [record]);
        if StoredIn(f.blocks.metas, base, to) == {} then Some(pruned)
        else WithNode(pruned, StateRollback.Next(rules, f.node, StateRollback.Prune(base, to, point)))
  }

  function Run(rules: Rules, ages: Ages, events: seq<Event>): Option<Full> {
    if events == [] then Some(NEW_NODE)
    else match Run(rules, ages, events[..|events| - 1])
      case None => None
      case Some(f) => Next(rules, ages, f, events[|events| - 1])
  }

  // ---------------------------------------------------------------- the invariant

  /** Some prune dropped the header of `h`. */
  predicate Dropped(prunes: seq<Prune>, h: int) {
    exists i :: 0 <= i < |prunes| && prunes[i].base <= h < prunes[i].point
  }

  /** Some prune kept the header of `h` but lost the set its validators are rebuilt from. */
  predicate Lost(prunes: seq<Prune>, h: int) {
    exists i :: 0 <= i < |prunes| && prunes[i].point <= h < prunes[i].lostTo
  }

  /** The validators of `h` load, with the members the history gives. */
  predicate LoadsMembers(vals: ValsTable, hist: map<int, ValSet>, h: int) {
    && h in hist && LoadValidators(vals, h).Ok?
    && SameMembers(LoadValidators(vals, h).value.validators, hist[h].validators)
  }

  /** The header is there, and below the top the commit that came with the next block. */
  predicate HeaderKept(b: Blocks, meta: BlockMeta, carried: map<int, BlockStores.Commit>, h: int) {
    && h in b.metas && b.metas[h] == meta
    && (h < b.height ==> h in b.commits && h in carried && b.commits[h] == carried[h])
  }

  /** The header and the commit are there exactly when no prune dropped them. */
  predicate HeaderExact(b: Blocks, meta: BlockMeta, carried: map<int, BlockStores.Commit>, prunes: seq<Prune>, h: int) {
    if Dropped(prunes, h) then h !in b.metas else HeaderKept(b, meta, carried, h)
  }

  /** The validators of a height whose header is there load exactly when no prune lost their anchor. */
  predicate LoadsExact(vals: ValsTable, hist: map<int, ValSet>, prunes: seq<Prune>, h: int) {
    !Dropped(prunes, h) ==> if Lost(prunes, h) then LoadValidators(vals, h).Err? else LoadsMembers(vals, hist, h)
  }

  predicate Accounted(f: Full) {
    forall h :: h in f.saved ==>
      HeaderExact(f.blocks, f.saved[h], f.carried, f.prunes, h) && LoadsExact(f.node.db.vals, f.node.chain.vals, f.prunes, h)
  }

  /** Whatever a prune dropped had expired by then. */
  predicate DroppedExpired(prunes: seq<Prune>, saved: map<int, BlockMeta>) {
    forall i, h :: 0 <= i < |prunes| && h in saved && prunes[i].base <= h < prunes[i].point ==>
      ExpiredAt(prunes[i].now, saved[h], h)
  }

  /** The block store is level with the state store or one block ahead, and the state store reaches as
      far down. Blocks carry their own heights, and the one last applied is the one the state names. */
  predicate Aligned(st: State, c: Chain, b: Blocks, saved: map<int, BlockMeta>) {
    && NextHeight(st) >= 1
    && (if b.base == 0 then b == NO_BLOCKS && c.valsFrom <= NextHeight(st) && c.paramsFrom <= NextHeight(st)
        else && 0 < b.base <= b.height && (b.height == st.lastBlockHeight || b.height == NextHeight(st))
             && c.valsFrom <= b.base && c.paramsFrom <= b.base && st.initialHeight <= b.base
             && (b.base <= st.lastBlockHeight ==> st.lastValidators.Some?))
    && (forall h :: h in b.metas ==> h in saved && b.metas[h] == saved[h])
    && (forall h :: h in saved ==> h <= b.height && saved[h].header.height == h)
    && (st.lastBlockHeight in b.metas ==> NamesBlock(st, b.metas[st.lastBlockHeight]))
  }

  predicate NamesBlock(st: State, meta: BlockMeta) {
    st.lastBlockID == meta.blockID && st.lastBlockTime == meta.header.time
  }

  predicate PrunesPast(prunes: seq<Prune>, b: Blocks, st: State) {
    forall i :: 0 <= i < |prunes| ==>
      && prunes[i].now.height <= st.lastBlockHeight && prunes[i].now.time <= st.lastBlockTime
      && prunes[i].point <= prunes[i].to <= b.base && prunes[i].lostTo <= prunes[i].to
  }

  predicate Inv(f: Full) {
    if f.node.db.state.None? then f == NEW_NODE
    else
      && Refines(false, f.node.db, f.node.chain)
      && Contiguous(f.blocks)
      && Aligned(f.node.db.state.value, f.node.chain, f.blocks, f.saved)
      && PointersBack(f.node.db.vals) && ParamPointersBack(f.node.db.params)
      && PrunesPast(f.prunes, f.blocks, f.node.db.state.value)
      && DroppedExpired(f.prunes, f.saved)
      && (f.blocks.base == 0 ==> f.saved == map[] && f.prunes == [])
      && Accounted(f)
  }

  // ---------------------------------------------------------------- starting

  lemma StartKeeps(rules: Rules, ages: Ages, f: Full, e: Event)
    requires Inv(f) && (e.Start? || e.StartFrom?) && Next(rules, ages, f, e).Some?
    ensures Inv(Next(rules, ages, f, e).value)
  {
    hide Refines, Increment, WellFormed, Contiguous;
    var f' := Next(rules, ages, f, e).value;
    assert Contiguous(NO_BLOCKS) by {
      hide *;
      NoBlocksContiguous();
    }
    if e.Start? {
      StateRollback.NextRefines(false, rules, f.node, StateRollback.Genesis(e.st));
    } else {
      StateRollback.NextRefines(false, rules, f.node, StateRollback.BootstrapFrom(e.st));
    }
  }

  lemma NoBlocksContiguous()
    ensures Contiguous(NO_BLOCKS)
  {
  }

  // ---------------------------------------------------------------- saving a block

  /** No prune reached the new top. */
  lemma Unpruned(prunes: seq<Prune>, b: Blocks, st: State, h: int)
    requires PrunesPast(prunes, b, st) && b.base <= h
    ensures !Dropped(prunes, h) && !Lost(prunes, h)
  {
  }

  lemma LoadsAtTop(db: Db, c: Chain, h: int)
    requires Refines(false, db, c) && db.state.Some? && c.valsFrom <= h <= NextHeight(db.state.value) + 1
    ensures LoadsMembers(db.vals, c.vals, h)
  {
    hide EntryRefines, Linked, LoadValidators, SameMembers, WellFormed, Increment;
    LoadMatches(false, db.vals, c, NextHeight(db.state.value) + 1, h);
  }

  lemma SaveKeepsHeader(f: Full, block: Block, seen: BlockStores.Commit, meta: BlockMeta, h: int)
    requires CanSave(f.blocks, block, seen) && HeaderKept(f.blocks, meta, f.carried, h) && h <= f.blocks.height
    requires block.meta.header.height == f.blocks.height + 1
    ensures HeaderKept(Saved(f, block, seen).blocks, meta, Saved(f, block, seen).carried, h)
  {
    hide PartTable;
  }

  lemma SavedHeader(f: Full, block: Block, seen: BlockStores.Commit)
    requires CanSave(f.blocks, block, seen)
    ensures HeaderKept(Saved(f, block, seen).blocks, block.meta, Saved(f, block, seen).carried, block.meta.header.height)
  {
    hide PartTable;
  }

  lemma SaveAccounts(f: Full, block: Block, seen: BlockStores.Commit)
    requires f.node.db.state.Some? && Refines(false, f.node.db, f.node.chain)
    requires Aligned(f.node.db.state.value, f.node.chain, f.blocks, f.saved)
    requires PrunesPast(f.prunes, f.blocks, f.node.db.state.value)
    requires Accounted(f) && CanSave(f.blocks, block, seen) && !Pending(f.blocks, f.node.db.state.value)
    requires block.meta.header.height == NextHeight(f.node.db.state.value)
    requires f.blocks.base == 0 ==> f.saved == map[] && f.prunes == []
    ensures
      var f' := Saved(f, block, seen);
      Accounted(f')
  {
    hide Refines, LoadsMembers, SaveBlock, WellFormed, LoadValidators, Dropped, Lost;
    var n, st := block.meta.header.height, f.node.db.state.value;
    var f' := Saved(f, block, seen);
    forall h | h in f'.saved
      ensures HeaderExact(f'.blocks, f'.saved[h], f'.carried, f.prunes, h) && LoadsExact(f.node.db.vals, f.node.chain.vals, f.prunes, h)
    {
      if h == n {
        if f.blocks.base != 0 {
          Unpruned(f.prunes, f.blocks, st, n);
        } else {
          NoPrunes(n);
        }
        LoadsAtTop(f.node.db, f.node.chain, n);
        SavedHeader(f, block, seen);
      } else {
        assert HeaderExact(f.blocks, f.saved[h], f.carried, f.prunes, h);
        if Dropped(f.prunes, h) {
          SaveElsewhere(f.blocks, block, seen, h);
        } else {
          SaveKeepsHeader(f, block, seen, f.saved[h], h);
        }
      }
    }
  }

  lemma NoPrunes(h: int)
    ensures !Dropped([], h) && !Lost([], h)
  {
  }

  lemma SaveElsewhere(b: Blocks, block: Block, seen: BlockStores.Commit, h: int)
    requires CanSave(b, block, seen) && h != block.meta.header.height && h !in b.metas
    ensures h !in SaveBlock(b, block, seen).metas
  {
    hide PartTable;
  }

  lemma SaveAligns(f: Full, block: Block, seen: BlockStores.Commit)
    requires f.node.db.state.Some? && CanSave(f.blocks, block, seen) && !Pending(f.blocks, f.node.db.state.value)
    requires Aligned(f.node.db.state.value, f.node.chain, f.blocks, f.saved)
    requires PrunesPast(f.prunes, f.blocks, f.node.db.state.value) && DroppedExpired(f.prunes, f.saved)
    requires block.meta.header.height == NextHeight(f.node.db.state.value) >= f.node.db.state.value.initialHeight
    requires f.blocks.base == 0 ==> f.prunes == []
    ensures
      var f' := Saved(f, block, seen);
      && Aligned(f.node.db.state.value, f.node.chain, f'.blocks, f'.saved)
      && PrunesPast(f.prunes, f'.blocks, f.node.db.state.value) && DroppedExpired(f.prunes, f'.saved)
    ensures NewID(f.blocks, block) ==> FreshBlock(f.blocks, block)
  {
    hide PartTable;
  }

  lemma SaveKeeps(rules: Rules, ages: Ages, f: Full, e: Event)
    requires Inv(f) && e.Save? && Next(rules, ages, f, e).Some?
    ensures Inv(Next(rules, ages, f, e).value)
  {
    hide Refines, Accounted, Contiguous, WellFormed, SaveBlock, Aligned, PointersBack, ParamPointersBack, FreshBlock, NewID,
         PrunesPast, DroppedExpired;
    RefinesState(false, f.node.db, f.node.chain);
    SaveAligns(f, e.block, e.seen);
    SaveKeepsContiguous(f.blocks, e.block, e.seen);
    SaveAccounts(f, e.block, e.seen);
    AlignedNext(f.node.db.state.value, f.node.chain, f.blocks, f.saved);
    SavedBase(f.blocks, e.block, e.seen);
  }

  lemma SavedBase(b: Blocks, block: Block, seen: BlockStores.Commit)
    requires CanSave(b, block, seen) && block.meta.header.height > 0
    ensures SaveBlock(b, block, seen).base != 0
  {
    hide PartTable;
  }

  lemma AlignedNext(st: State, c: Chain, b: Blocks, saved: map<int, BlockMeta>)
    requires Aligned(st, c, b, saved)
    ensures NextHeight(st) >= 1
  {
  }

  // ---------------------------------------------------------------- applying a block

  /** An entry written above `h` changes nothing that `h` is read from. */
  lemma LoadBelowWrite(vals: ValsTable, k: int, info: ValidatorsInfo, h: int)
    requires h < k && PointersBack(vals)
    ensures LoadValidators(vals[k := info], h) == LoadValidators(vals, h)
  {
    hide Increment, WellFormed;
    assert h in vals ==> vals[h].changed <= h;
    CheckpointBounds(h);
  }

  /** The table differs at one key only. */
  predicate Extends<V(==)>(table: map<int, V>, table': map<int, V>, k: int) {
    k in table' && table' == table[k := table'[k]]
  }

  /** What applying a block does to the node, seen from below its new height. */
  predicate Advances(st: State, db: Db, c: Chain, st': State, db': Db, c': Chain, blockID: nat, header: Header) {
    var n := header.height;
    && n == NextHeight(st) && st'.lastBlockHeight == n && st'.lastBlockTime == header.time >= st.lastBlockTime
    && n >= 1 && NextHeight(st') == n + 1 && st'.lastBlockID == blockID
    && st'.lastValidators.Some? && st'.initialHeight == st.initialHeight <= n
    && c'.valsFrom == c.valsFrom && c'.paramsFrom == c.paramsFrom
    && Extends(db.vals, db'.vals, n + 2) && db'.vals[n + 2].changed <= n + 2
    && Extends(db.params, db'.params, n + 1) && db'.params[n + 1].changed <= n + 1
    && Extends(c.vals, c'.vals, n + 2)
  }

  lemma ParamsChangedBack(db: Db, c: Chain)
    requires Refines(false, db, c)
    ensures db.state.value.paramsChanged <= NextHeight(db.state.value)
  {
    hide ValsRefine, Increment, SameMembers, WellFormed;
    assert ParamEntryRefines(db.params, c.params, c.paramChanges, NextHeight(db.state.value));
  }

  lemma ApplyAdvances(rules: Rules, node: Node, blockID: nat, header: Header, resp: Response)
    requires node.db.state.Some? && Refines(false, node.db, node.chain)
    requires StateRollback.Next(rules, node, StateRollback.Apply(blockID, header, resp)).Some?
    ensures
      var node' := StateRollback.Next(rules, node, StateRollback.Apply(blockID, header, resp)).value;
      && node'.db.state.Some? && Refines(false, node'.db, node'.chain)
      && Advances(node.db.state.value, node.db, node.chain, node'.db.state.value, node'.db, node'.chain, blockID, header)
  {
    hide Refines, Increment, WellFormed;
    ParamsChangedBack(node.db, node.chain);
    StateRollback.NextRefines(false, rules, node, StateRollback.Apply(blockID, header, resp));
    RefinesState(false, node.db, node.chain);
    var st, st' := node.db.state.value, UpdateState(rules, node.db.state.value, blockID, header, resp).value;
    var n := header.height;
    var info := ValidatorsInfo(st'.valsChanged, if StoredInFull(n + 2, st'.valsChanged) then Some(st'.nextValidators) else None);
    var node' := StateRollback.Next(rules, node, StateRollback.Apply(blockID, header, resp)).value;
    assert node'.db.vals == node.db.vals[n + 2 := info];
    assert node'.chain.vals == node.chain.vals[n + 2 := st'.nextValidators];
  }

  lemma CommitPointers(db: Db, db': Db, n: int)
    requires PointersBack(db.vals) && ParamPointersBack(db.params)
    requires Extends(db.vals, db'.vals, n + 2) && db'.vals[n + 2].changed <= n + 2
    requires Extends(db.params, db'.params, n + 1) && db'.params[n + 1].changed <= n + 1
    ensures PointersBack(db'.vals) && ParamPointersBack(db'.params)
  {
  }

  lemma ApplyAccounts(f: Full, f': Full, n: int)
    requires Accounted(f) && PointersBack(f.node.db.vals) && n == f.blocks.height
    requires f' == f.(node := f'.node) && (forall h :: h in f.saved ==> h <= n)
    requires Extends(f.node.db.vals, f'.node.db.vals, n + 2) && Extends(f.node.chain.vals, f'.node.chain.vals, n + 2)
    ensures Accounted(f')
  {
    hide PointersBack, LoadValidators, SameMembers, WellFormed, Dropped, Lost, HeaderExact;
    forall h | h in f'.saved
      ensures LoadsExact(f'.node.db.vals, f'.node.chain.vals, f'.prunes, h)
    {
      assert LoadsExact(f.node.db.vals, f.node.chain.vals, f.prunes, h);
      LoadBelowWrite(f.node.db.vals, n + 2, f'.node.db.vals[n + 2], h);
    }
  }

  /** The stores stand at the new height together. */
  lemma ApplyAligns(f: Full, f': Full, meta: BlockMeta)
    requires f.node.db.state.Some? && f'.node.db.state.Some? && Pending(f.blocks, f.node.db.state.value)
    requires Aligned(f.node.db.state.value, f.node.chain, f.blocks, f.saved)
    requires PrunesPast(f.prunes, f.blocks, f.node.db.state.value) && f' == f.(node := f'.node)
    requires f.blocks.height in f.blocks.metas && f.blocks.metas[f.blocks.height] == meta
    requires Advances(f.node.db.state.value, f.node.db, f.node.chain, f'.node.db.state.value, f'.node.db, f'.node.chain,
                      meta.blockID, meta.header)
    ensures Aligned(f'.node.db.state.value, f'.node.chain, f'.blocks, f'.saved)
    ensures PrunesPast(f'.prunes, f'.blocks, f'.node.db.state.value)
  {
    hide Extends;
  }

  lemma ApplyKeeps(rules: Rules, ages: Ages, f: Full, e: Event)
    requires Inv(f) && e.Apply? && Next(rules, ages, f, e).Some?
    ensures Inv(Next(rules, ages, f, e).value)
  {
    hide Refines, Accounted, Contiguous, WellFormed, StateRollback.Next, PointersBack, ParamPointersBack, Extends, PrunesPast,
         DroppedExpired;
    var f', meta := Next(rules, ages, f, e).value, f.blocks.metas[f.blocks.height];
    ApplyAdvances(rules, f.node, meta.blockID, meta.header, e.resp);
    ApplyAligns(f, f', meta);
    CommitPointers(f.node.db, f'.node.db, meta.header.height);
    ApplyAccounts(f, f', f.blocks.height);
  }

  // ---------------------------------------------------------------- pruning

  lemma StoredInRange(f: Full, to: int)
    requires Inv(f) && f.node.db.state.Some? && CanPrune(f.blocks, to)
    ensures f.blocks.base > 0
    ensures StoredIn(f.blocks.metas, f.blocks.base, to) == {} <==> f.blocks.base == to
  {
    hide Refines, Accounted;
    if f.blocks.base != 0 && f.blocks.base < to {
      assert HasBlock(f.blocks, f.blocks.base);
      assert f.blocks.base in StoredIn(f.blocks.metas, f.blocks.base, to);
    }
  }

  /** In every reachable node the pruner's two calls succeed together: whatever the block store
      prunes, the state store prunes too. */
  lemma PruneAvailable(rules: Rules, ages: Ages, f: Full, to: int)
    requires Inv(f) && f.node.db.state.Some?
    ensures Next(rules, ages, f, PruneTo(to)).Some? <==> CanPrune(f.blocks, to)
  {
    hide Refines, Accounted, Contiguous, WellFormed, EvidencePoint, PruneSucceeds, PruneBlocks, RetainedFrom, PrunesPast,
         DroppedExpired;
    if CanPrune(f.blocks, to) {
      StoredInRange(f, to);
      var point := EvidencePoint(f.blocks.metas, NowOf(ages, f.node.db.state.value), f.blocks.base, to);
      if f.blocks.base < to {
        assert PruneRange(f.node.chain, NextHeight(f.node.db.state.value), f.blocks.base, to, point);
        PruneRefines(false, f.node.db, f.node.chain, f.blocks.base, to, point);
      }
    }
  }

  /** Pruning and what loads: nothing changes below the range; from the evidence point on the lost
      stretch stops loading and everything else loads as before. */
  lemma PruneLoads(vals: ValsTable, c: Chain, top: int, from: int, to: int, ev: int, h: int)
    requires ValsRefine(false, vals, c, top) && PruneRange(c, top - 1, from, to, ev) && ev <= to && ev in vals
    requires PointersBack(vals) && h <= top && !(from <= h < ev)
    ensures
      var after := LoadValidators(PruneVals(vals, KeepVals(vals, to, ev), from, to, ev), h);
      if ev <= h < RetainedFrom(vals, from, to, ev) then after.Err? else after == LoadValidators(vals, h)
  {
    hide ValsRefine, PruneVals, KeepVals, LoadValidators, WellFormed, FirstFull;
    if h < from {
      PruneLeavesBelow(vals, KeepVals(vals, to, ev), from, to, ev, h);
    } else {
      PruneKeepsLoad(false, vals, c, top, from, to, ev, h);
    }
  }

  lemma PruneLeavesBelow(vals: ValsTable, keep: set<int>, from: int, to: int, ev: int, h: int)
    requires h < from && PointersBack(vals)
    ensures LoadValidators(PruneVals(vals, keep, from, to, ev), h) == LoadValidators(vals, h)
  {
    hide Increment, WellFormed, MaterializedVals;
    if h in vals {
      PruneLeavesLower(vals, keep, from, to, ev, h);
    }
  }

  lemma PruneKeepsPointers(vals: ValsTable, keep: set<int>, from: int, to: int, ev: int)
    requires PointersBack(vals)
    ensures PointersBack(PruneVals(vals, keep, from, to, ev))
  {
    hide LoadValidators;
  }

  lemma PruneKeepsParamPointers(params: ParamsTable, keep: set<int>, from: int, to: int)
    requires ParamPointersBack(params)
    ensures ParamPointersBack(PruneParams(params, keep, from, to))
  {
    hide LoadParams;
  }

  lemma PruneKeepsHeader(b: Blocks, to: int, now: Now, meta: BlockMeta, carried: map<int, BlockStores.Commit>, h: int)
    requires CanPrune(b, to) && (h in b.metas ==> b.metas[h] == meta)
    ensures
      var b' := PruneBlocks(b, to, now);
      if b.base <= h < EvidencePoint(b.metas, now, b.base, to) then h !in b'.metas
      else (HeaderKept(b', meta, carried, h) <==> HeaderKept(b, meta, carried, h)) && (h in b'.metas <==> h in b.metas)
  {
  }

  /** The facts about one prune step that its invariant proof uses. */
  predicate Pruned(f: Full, f': Full, to: int, r: Prune) {
    && CanPrune(f.blocks, to) && r.base == f.blocks.base <= r.point <= r.lostTo <= r.to == to
    && f'.blocks == PruneBlocks(f.blocks, to, r.now) && f'.saved == f.saved && f'.carried == f.carried
    && f'.prunes == f.prunes + [r]
    && r.point == EvidencePoint(f.blocks.metas, r.now, f.blocks.base, to)
    && f'.node.db.state == f.node.db.state && f'.node.chain.vals == f.node.chain.vals
    && f'.node.chain.valsFrom <= to && f'.node.chain.paramsFrom <= to
    && Refines(false, f'.node.db, f'.node.chain) && PointersBack(f'.node.db.vals)
    && ParamPointersBack(f'.node.db.params)
    && (forall h :: h in f.saved && !(r.base <= h < r.point) ==> LoadAfter(f.node.db.vals, f'.node.db.vals, r, h))
  }

  predicate LoadAfter(vals: ValsTable, vals': ValsTable, r: Prune, h: int) {
    if r.point <= h < r.lostTo then LoadValidators(vals', h).Err? else LoadValidators(vals', h) == LoadValidators(vals, h)
  }

  function RecordOf(ages: Ages, f: Full, to: int): Prune
    requires f.node.db.state.Some? && CanPrune(f.blocks, to)
  {
    var now, base := NowOf(ages, f.node.db.state.value), f.blocks.base;
    var point := EvidencePoint(f.blocks.metas, now, base, to);
    Prune(now, base, to, point, RetainedFrom(f.node.db.vals, base, to, point))
  }

  lemma RetainedBounds(vals: ValsTable, from: int, to: int, ev: int)
    requires ev <= to
    ensures ev <= RetainedFrom(vals, from, to, ev) <= to
    ensures from == to <= ev ==> RetainedFrom(vals, from, to, ev) == ev
  {
    hide FirstFull;
  }

  lemma PruneFacts(rules: Rules, ages: Ages, f: Full, to: int)
    requires Inv(f) && f.node.db.state.Some? && Next(rules, ages, f, PruneTo(to)).Some?
    ensures CanPrune(f.blocks, to) && Pruned(f, Next(rules, ages, f, PruneTo(to)).value, to, RecordOf(ages, f, to))
  {
    hide Accounted, Contiguous, EvidencePoint, PruneBlocks, StoredIn, WellFormed, ValsRefine, ParamsRefine, StateRefines,
         StateRollback.Next, PruneStates, KeepVals, PruneVals, KeepParams, PruneParams, RetainedFrom, PrunesPast,
         DroppedExpired, LoadValidators;
    var db, c, base, r := f.node.db, f.node.chain, f.blocks.base, RecordOf(ages, f, to);
    StoredInRange(f, to);
    RetainedBounds(db.vals, base, to, r.point);
    if base < to {
      var step := StateRollback.Prune(base, to, r.point);
      StateRollback.NextUnfold(rules, f.node, step);
      StateRollback.NextRefines(false, rules, f.node, step);
      PruneTables(db, base, to, r.point);
      PruneKeepsPointers(db.vals, KeepVals(db.vals, to, r.point), base, to, r.point);
      PruneKeepsParamPointers(db.params, KeepParams(db.params, to), base, to);
      forall h | h in f.saved && !(base <= h < r.point)
        ensures LoadAfter(db.vals, PruneStates(db, base, to, r.point).vals, r, h)
      {
        PruneLoads(db.vals, c, NextHeight(db.state.value) + 1, base, to, r.point, h);
      }
    }
  }

  lemma PruneTables(db: Db, from: int, to: int, ev: int)
    requires PruneReady(db, from, to, ev)
    ensures PruneStates(db, from, to, ev).state == db.state
    ensures PruneStates(db, from, to, ev).vals == PruneVals(db.vals, KeepVals(db.vals, to, ev), from, to, ev)
    ensures PruneStates(db, from, to, ev).params == PruneParams(db.params, KeepParams(db.params, to), from, to)
  {
    hide KeepVals, PruneVals, PruneParams;
  }

  lemma OnePruneMore(prunes: seq<Prune>, r: Prune, h: int)
    ensures Dropped(prunes + [r], h) <==> Dropped(prunes, h) || r.base <= h < r.point
    ensures Lost(prunes + [r], h) <==> Lost(prunes, h) || r.point <= h < r.lostTo
  {
    var all := prunes + [r];
    assert all[|prunes|] == r;
    assert forall i :: 0 <= i < |prunes| ==> all[i] == prunes[i];
  }

  /** A height that lost its anchor lies below every later base. */
  lemma LostIsBelow(prunes: seq<Prune>, b: Blocks, st: State, h: int)
    requires PrunesPast(prunes, b, st) && (Lost(prunes, h) || Dropped(prunes, h))
    ensures h < b.base
  {
  }

  lemma PruneAccounts(f: Full, f': Full, to: int, r: Prune)
    requires Accounted(f) && Pruned(f, f', to, r) && f.node.db.state.Some?
    requires PrunesPast(f.prunes, f.blocks, f.node.db.state.value)
    requires forall h :: h in f.blocks.metas ==> h in f.saved && f.blocks.metas[h] == f.saved[h]
    ensures Accounted(f')
  {
    hide Refines, PruneBlocks, PointersBack, ParamPointersBack, ExpiredAt, HeaderKept, WellFormed, CanPrune, Dropped, Lost,
         LoadValidators, PrunesPast, SameMembers, EvidencePoint;
    forall h | h in f'.saved
      ensures HeaderExact(f'.blocks, f'.saved[h], f'.carried, f'.prunes, h) && LoadsExact(f'.node.db.vals, f'.node.chain.vals, f'.prunes, h)
    {
      OnePruneMore(f.prunes, r, h);
      PruneKeepsHeader(f.blocks, to, r.now, f.saved[h], f.carried, h);
      if Lost(f.prunes, h) || Dropped(f.prunes, h) {
        LostIsBelow(f.prunes, f.blocks, f.node.db.state.value, h);
      }
      assert HeaderExact(f.blocks, f.saved[h], f.carried, f.prunes, h) && LoadsExact(f.node.db.vals, f.node.chain.vals, f.prunes, h);
      assert !(r.base <= h < r.point) ==> LoadAfter(f.node.db.vals, f'.node.db.vals, r, h);
    }
  }

  lemma PruneAligns(st: State, c: Chain, c': Chain, b: Blocks, saved: map<int, BlockMeta>, to: int, now: Now)
    requires Aligned(st, c, b, saved) && b.base > 0 && CanPrune(b, to) && c'.valsFrom <= to && c'.paramsFrom <= to
    ensures Aligned(st, c', PruneBlocks(b, to, now), saved)
  {
    hide KeptHashes, KeptCommits, KeptSeen, KeptParts, EvidencePoint;
  }

  /** What a prune drops has expired, and the new record lies below the new base. */
  lemma PruneRecords(ages: Ages, f: Full, f': Full, to: int)
    requires Inv(f) && f.node.db.state.Some? && CanPrune(f.blocks, to) && Pruned(f, f', to, RecordOf(ages, f, to))
    ensures PrunesPast(f'.prunes, f'.blocks, f.node.db.state.value) && DroppedExpired(f'.prunes, f'.saved)
  {
    hide Refines, Accounted, WellFormed, LoadValidators, RetainedFrom, ExpiredAt;
    var r := RecordOf(ages, f, to);
    assert forall i :: 0 <= i < |f.prunes| ==> f'.prunes[i] == f.prunes[i];
    assert f'.prunes[|f.prunes|] == r;
    forall h | h in f.saved && r.base <= h < r.point
      ensures ExpiredAt(r.now, f.saved[h], h)
    {
      assert HasBlock(f.blocks, h);
    }
  }

  lemma PruneKeeps(rules: Rules, ages: Ages, f: Full, e: Event)
    requires Inv(f) && e.PruneTo? && Next(rules, ages, f, e).Some?
    ensures Inv(Next(rules, ages, f, e).value)
  {
    hide Refines, Accounted, Contiguous, PruneBlocks, PointersBack, ParamPointersBack, WellFormed, EvidencePoint, LoadValidators,
         Aligned, PrunesPast, DroppedExpired, RetainedFrom;
    var f', st := Next(rules, ages, f, e).value, f.node.db.state.value;
    PruneFacts(rules, ages, f, e.to);
    StoredInRange(f, e.to);
    var r := RecordOf(ages, f, e.to);
    MetasSaved(st, f.node.chain, f.blocks, f.saved);
    PruneAccounts(f, f', e.to, r);
    PruneKeepsContiguous(f.blocks, e.to, r.now);
    PruneAligns(st, f.node.chain, f'.node.chain, f.blocks, f.saved, e.to, r.now);
    PruneRecords(ages, f, f', e.to);
    PrunedBase(f.blocks, e.to, r.now);
  }

  lemma MetasSaved(st: State, c: Chain, b: Blocks, saved: map<int, BlockMeta>)
    requires Aligned(st, c, b, saved)
    ensures forall h :: h in b.metas ==> h in saved && b.metas[h] == saved[h]
  {
  }

  lemma PrunedBase(b: Blocks, to: int, now: Now)
    requires CanPrune(b, to)
    ensures PruneBlocks(b, to, now).base == to > 0
  {
  }

  // ---------------------------------------------------------------- whole runs

  lemma {:induction false} RunKeeps(rules: Rules, ages: Ages, events: seq<Event>)
    requires Run(rules, ages, events).Some?
    ensures Inv(Run(rules, ages, events).value)
  {
    hide Inv, Next;
    if events == [] {
      NewNodeInv();
    } else {
      RunKeeps(rules, ages, events[..|events| - 1]);
      var f, e := Run(rules, ages, events[..|events| - 1]).value, events[|events| - 1];
      match e
      case Start(_) => StartKeeps(rules, ages, f, e);
      case StartFrom(_) => StartKeeps(rules, ages, f, e);
      case Save(_, _) => SaveKeeps(rules, ages, f, e);
      case Apply(_) => ApplyKeeps(rules, ages, f, e);
      case PruneTo(_) => PruneKeeps(rules, ages, f, e);
    }
  }

  lemma NewNodeInv()
    ensures Inv(NEW_NODE)
  {
  }

  /** Over every run, each saved height: its header and commit are there if and only if no prune
      dropped them, which happens only to expired ones; and then its validators load, with the
      members of the history, if and only if no prune lost their anchor. Every block from base to
      height is complete. */
  lemma EvidenceAccounted(rules: Rules, ages: Ages, events: seq<Event>, h: int)
    requires Run(rules, ages, events).Some? && h in Run(rules, ages, events).value.saved
    ensures
      var f := Run(rules, ages, events).value;
      && Contiguous(f.blocks)
      && (HeaderKept(f.blocks, f.saved[h], f.carried, h) <==> !Dropped(f.prunes, h))
      && (Dropped(f.prunes, h) ==> exists i :: 0 <= i < |f.prunes| && ExpiredAt(f.prunes[i].now, f.saved[h], h))
      && (!Dropped(f.prunes, h) ==> (LoadsMembers(f.node.db.vals, f.node.chain.vals, h) <==> !Lost(f.prunes, h)))
  {
    hide Run, Refines, Contiguous, LoadValidators, SameMembers, WellFormed, ExpiredAt;
    RunKeeps(rules, ages, events);
    var f := Run(rules, ages, events).value;
    assert HeaderExact(f.blocks, f.saved[h], f.carried, f.prunes, h) && LoadsExact(f.node.db.vals, f.node.chain.vals, f.prunes, h);
  }

  /** No earlier prune judged by a shorter evidence age than the one in force. */
  predicate AgeNotRaised(prunes: seq<Prune>, age: EvidenceAge) {
    forall i :: 0 <= i < |prunes| ==>
      prunes[i].now.age.maxDuration >= age.maxDuration && prunes[i].now.age.maxBlocks >= age.maxBlocks
  }

  /** While the evidence age was not raised, every saved height whose evidence has not expired keeps
      its header and its commit, and its validators load unless a prune lost their anchor. */
  lemma EvidenceSurvives(rules: Rules, ages: Ages, events: seq<Event>, h: int)
    requires Run(rules, ages, events).Some?
    requires
      var f := Run(rules, ages, events).value;
      && h in f.saved && f.node.db.state.Some?
      && var now := NowOf(ages, f.node.db.state.value);
      AgeNotRaised(f.prunes, now.age) && !ExpiredAt(now, f.saved[h], h)
    ensures
      var f := Run(rules, ages, events).value;
      && HeaderKept(f.blocks, f.saved[h], f.carried, h)
      && (LoadsMembers(f.node.db.vals, f.node.chain.vals, h) <==> !Lost(f.prunes, h))
  {
    hide Run, Refines, Contiguous, LoadsMembers, Accounted, HeaderKept;
    RunKeeps(rules, ages, events);
    EvidenceAccounted(rules, ages, events, h);
    var f := Run(rules, ages, events).value;
    NotDropped(f.prunes, f.saved, f.blocks, f.node.db.state.value, NowOf(ages, f.node.db.state.value), h);
  }

  lemma NotDropped(prunes: seq<Prune>, saved: map<int, BlockMeta>, b: Blocks, st: State, now: Now, h: int)
    requires PrunesPast(prunes, b, st) && DroppedExpired(prunes, saved) && AgeNotRaised(prunes, now.age)
    requires now.height == st.lastBlockHeight && now.time == st.lastBlockTime && h in saved && !ExpiredAt(now, saved[h], h)
    ensures !Dropped(prunes, h)
  {
  }
}
