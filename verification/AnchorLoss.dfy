/** A run of the pruner that keeps a header but loses the validators to judge it by. */
module AnchorLoss {
  import opened Wrappers
  import opened ValidatorSets
  import opened StateModel
  import opened StateHistory
  import opened StateSteps
  import opened BlockStores
  import opened Pruning
  import StateRollback

  /** One age in blocks and time units for every parameter record. */
  function FixedAge(age: int): Ages {
    p => EvidenceAge(age, age)
  }

  /** The next block without content, identified by its height. */
  function QuietBlock(st: State): Block {
    var h := NextHeight(st);
    Block(BlockMeta(StateRollback.QuietHeader(st), if h >= 0 then h else 0, 0), BlockStores.Commit(h - 1, 0), [], true)
  }

  function SeenCommit(st: State): BlockStores.Commit {
    BlockStores.Commit(NextHeight(st), 0)
  }

  /** A start, and `n` blocks without content, each saved and then applied. */
  function QuietEvents(rules: Rules, ages: Ages, st: State, n: nat): seq<Event> {
    if n == 0 then [Start(st)]
    else
      var before := QuietEvents(rules, ages, st, n - 1);
      var f := Run(rules, ages, before);
      var now := if f.Some? && f.value.node.db.state.Some? then f.value.node.db.state.value else st;
      before + [Save(QuietBlock(now), SeenCommit(now))] + [Apply(StateRollback.NO_CHANGE)]
  }

  /** Blocks 1 to `top`, one time unit apart, and nothing pruned. */
  ghost predicate QuietBlocks(f: Full, t: int, top: nat) {
    && f.prunes == [] && f.blocks.height == top && f.blocks.base == (if top == 0 then 0 else 1) && f.saved == f.blocks.metas
    && (forall h :: h in f.saved <==> 1 <= h <= top)
    && (forall h :: h in f.saved ==> f.saved[h].blockID == h && f.saved[h].header.time == t + h)
  }

  ghost predicate QuietFull(f: Full, t: int, n: nat) {
    StateRollback.QuietNode(f.node, n) && f.node.db.state.value.lastBlockTime == t + n && QuietBlocks(f, t, n)
  }

  lemma QuietStart(rules: Rules, ages: Ages, st: State)
    requires GenesisReady(st) && st.initialHeight == 1
    ensures Run(rules, ages, [Start(st)]).Some? && QuietFull(Run(rules, ages, [Start(st)]).value, st.lastBlockTime, 0)
  {
    hide Increment, WellFormed;
    StateRollback.QuietStarts(rules, st);
    assert [StateRollback.Genesis(st)][..0] == [];
    assert [Start(st)][..0] == [];
  }

  lemma QuietSaves(rules: Rules, ages: Ages, f: Full, t: int, n: nat)
    requires QuietFull(f, t, n)
    ensures
      var st := f.node.db.state.value;
      var next := Next(rules, ages, f, Save(QuietBlock(st), SeenCommit(st)));
      && next.Some? && next.value.node == f.node && QuietBlocks(next.value, t, n + 1)
      && next.value.blocks.metas[n + 1].blockID == n + 1
      && next.value.blocks.metas[n + 1].header == StateRollback.QuietHeader(st)
  {
    hide PartTable;
  }

  lemma QuietGrows(rules: Rules, ages: Ages, f: Full, t: int, n: nat)
    requires Inv(f) && QuietFull(f, t, n)
    ensures
      var st := f.node.db.state.value;
      var saved := Next(rules, ages, f, Save(QuietBlock(st), SeenCommit(st)));
      && saved.Some? && Next(rules, ages, saved.value, Apply(StateRollback.NO_CHANGE)).Some?
      && QuietFull(Next(rules, ages, saved.value, Apply(StateRollback.NO_CHANGE)).value, t, n + 1)
  {
    hide Refines, Accounted, Contiguous, Aligned, WellFormed, Increment, SaveBlock, PointersBack, ParamPointersBack,
         PrunesPast, DroppedExpired, StateRollback.Next;
    QuietSaves(rules, ages, f, t, n);
    StateRollback.QuietApplies(rules, f.node, n, n + 1);
    ApplyAdvances(rules, f.node, n + 1, StateRollback.QuietHeader(f.node.db.state.value), StateRollback.NO_CHANGE);
  }

  lemma {:induction false} QuietRun(rules: Rules, ages: Ages, st: State, n: nat)
    requires GenesisReady(st) && st.initialHeight == 1
    ensures Run(rules, ages, QuietEvents(rules, ages, st, n)).Some?
    ensures QuietFull(Run(rules, ages, QuietEvents(rules, ages, st, n)).value, st.lastBlockTime, n)
  {
    hide Next, GenesisReady, QuietFull, QuietBlock, SeenCommit, Run, Inv;
    if n == 0 {
      QuietStart(rules, ages, st);
    } else {
      var before := QuietEvents(rules, ages, st, n - 1);
      QuietRun(rules, ages, st, n - 1);
      var f := Run(rules, ages, before).value;
      RunKeeps(rules, ages, before);
      QuietState(f, st.lastBlockTime, n - 1);
      QuietGrows(rules, ages, f, st.lastBlockTime, n - 1);
      var now := f.node.db.state.value;
      OneMore(rules, ages, before, Save(QuietBlock(now), SeenCommit(now)));
      OneMore(rules, ages, before + [Save(QuietBlock(now), SeenCommit(now))], Apply(StateRollback.NO_CHANGE));
    }
  }

  lemma QuietState(f: Full, t: int, n: nat)
    requires QuietFull(f, t, n)
    ensures f.node.db.state.Some?
  {
  }

  lemma OneMore(rules: Rules, ages: Ages, events: seq<Event>, e: Event)
    requires Run(rules, ages, events).Some?
    ensures Run(rules, ages, events + [e]) == Next(rules, ages, Run(rules, ages, events).value, e)
  {
    hide Next;
    assert (events + [e])[..|events|] == events;
  }

  /** The evidence point is the first height within the age. */
  lemma QuietPoint(f: Full, t: int, n: nat, age: nat)
    requires QuietFull(f, t, n) && 0 < age < n
    ensures EvidencePoint(f.blocks.metas, Now(n, t + n, EvidenceAge(age, age)), 1, n) == n - age
  {
    var p := EvidencePoint(f.blocks.metas, Now(n, t + n, EvidenceAge(age, age)), 1, n);
    assert n - age in f.blocks.metas;
  }

  lemma QuietLoss(node: StateRollback.Node, n: nat)
    requires StateRollback.QuietNode(node, n) && Refines(false, node.db, node.chain) && n >= 200_000
    ensures RetainedFrom(node.db.vals, 1, n, 150_000) > 150_000
  {
    hide Increment, WellFormed, StateRefines, ParamsRefine, Linked;
    var vals, ev := node.db.vals, 150_000;
    assert EntryRefines(false, vals, node.chain.vals, node.chain.changes, ev);
    assert vals[ev].changed == 1;
    CheckpointBounds(n);
    assert Checkpoint(ev) == 100_000 && Checkpoint(n) >= 200_000;
    assert PruneLosesAnchor(vals, 1, n, ev);
    StretchStarts(vals, 1, n, ev);
  }

  /** After two hundred thousand or more quiet blocks, a prune to the top with evidence from height
      150000 on keeps that height's header and commit, unexpired, and its validators no longer load. */
  lemma LossAtPruner(rules: Rules, st: State, n: nat)
    requires GenesisReady(st) && st.initialHeight == 1 && n >= 200_000
    ensures
      var ages := FixedAge(n - 150_000);
      var f := Run(rules, ages, QuietEvents(rules, ages, st, n) + [PruneTo(n)]);
      && f.Some? && f.value.node.db.state.Some? && 150_000 in f.value.saved
      && !ExpiredAt(NowOf(ages, f.value.node.db.state.value), f.value.saved[150_000], 150_000)
      && HeaderKept(f.value.blocks, f.value.saved[150_000], f.value.carried, 150_000)
      && Lost(f.value.prunes, 150_000) && !LoadsMembers(f.value.node.db.vals, f.value.node.chain.vals, 150_000)
  {
    hide Next, GenesisReady, QuietEvents, Refines, Contiguous, Accounted, Aligned, PruneBlocks, LoadValidators, RetainedFrom,
         Run, EvidencePoint, PrunesPast, DroppedExpired, PointersBack, ParamPointersBack;
    var ages := FixedAge(n - 150_000);
    var events := QuietEvents(rules, ages, st, n);
    QuietRun(rules, ages, st, n);
    RunKeeps(rules, ages, events);
    var f := Run(rules, ages, events).value;
    PruneAvailable(rules, ages, f, n);
    OneMore(rules, ages, events, PruneTo(n));
    PruneFacts(rules, ages, f, n);
    QuietPoint(f, st.lastBlockTime, n, n - 150_000);
    QuietLoss(f.node, n);
    var f', r := Next(rules, ages, f, PruneTo(n)).value, RecordOf(ages, f, n);
    assert f'.prunes == [r] && r.point == 150_000 < r.lostTo;
    EvidenceAccounted(rules, ages, events + [PruneTo(n)], 150_000);
  }
}
