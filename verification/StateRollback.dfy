/** Rolling back one block, and whole runs of the state store. */
module StateRollback {
  import opened Wrappers
  import opened ValidatorSets
  import opened StateModel
  import opened StateHistory
  import opened StateSteps

  /** The history without its last height; the change heights may be raised to the new top. */
  function RollbackChain(c: Chain, invalid: State): Chain {
    var n := invalid.lastBlockHeight;
    Chain(
      map h | h in c.vals && h <= n + 1 :: c.vals[h],
      (set x | x in c.changes && x <= n + 1) + (if invalid.valsChanged > n + 1 then {n + 1} else {}),
      c.valsFrom,
      map h | h in c.params && h <= n :: c.params[h],
      (set x | x in c.paramChanges && x <= n) + (if invalid.paramsChanged > n - 1 then {n} else {}),
      c.paramsFrom)
  }

  /** The stores still hold what a rollback of the last block reads. */
  predicate RollbackReady(st: State, c: Chain, previous: BlockMeta) {
    && st.lastBlockHeight > st.initialHeight && st.lastValidators.Some?
    && previous.header.height == st.lastBlockHeight - 1
    && c.valsFrom <= st.lastBlockHeight - 1 && c.paramsFrom <= st.lastBlockHeight
  }

  lemma TruncatedEntry(exact: bool, vals: ValsTable, c: Chain, c': Chain, h: int, k: int, info: ValidatorsInfo)
    requires EntryRefines(exact, vals, c.vals, c.changes, h) && h < k
    requires forall x :: x <= h ==> (x in c'.changes <==> x in c.changes)
    requires forall x :: x <= h ==> (x in c'.vals <==> x in c.vals) && (x in c.vals ==> c'.vals[x] == c.vals[x])
    ensures EntryRefines(exact, vals[k := info], c'.vals, c'.changes, h)
  {
    hide Same;
    LastStoredGap(c.changes, vals[h].changed, h);
    assert IsLastChange(c'.changes, vals[h].changed, h);
  }

  /** What the rolled-back-from tables say about the last two heights. */
  predicate RollbackTop(exact: bool, vals: ValsTable, c: Chain, st: State, changed: int) {
    var n := st.lastBlockHeight;
    && ValsRefine(exact, vals, c, n + 2) && c.valsFrom <= n
    && n + 2 in vals && st.valsChanged == vals[n + 2].changed
    && n + 1 in c.vals && Same(exact, st.validators, c.vals[n + 1])
    && changed == Min(st.valsChanged, n + 1)
  }

  lemma RollbackTopEntry(exact: bool, vals: ValsTable, c: Chain, st: State, changed: int)
    requires RollbackTop(exact, vals, c, st, changed)
    ensures
      var n, c' := st.lastBlockHeight, RollbackChain(c, st);
      var r := SaveVals(vals, n + 1, changed, st.validators);
      r.Ok? && EntryRefines(exact, r.value, c'.vals, c'.changes, n + 1)
  {
    hide Same, Increment, Linked;
    var n, c' := st.lastBlockHeight, RollbackChain(c, st);
    var vals' := SaveVals(vals, n + 1, changed, st.validators).value;
    assert EntryRefines(exact, vals, c.vals, c.changes, n + 2);
    assert EntryRefines(exact, vals, c.vals, c.changes, n + 1);
    assert IsLastChange(c'.changes, changed, n + 1);
    LastStoredGap(c'.changes, changed, n + 1);
    if !StoredInFull(n + 1, changed) {
      LastChangeUnique(c.changes, vals[n + 1].changed, changed, n + 1, n + 2);
      LastStoredGap(c.changes, changed, n + 1);
    }
  }

  lemma RollbackLinked(exact: bool, c: Chain, st: State)
    requires Linked(exact, c.vals, c.changes)
    ensures Linked(exact, RollbackChain(c, st).vals, RollbackChain(c, st).changes)
  {
    hide Same, Increment;
  }

  lemma RollbackValsRefine(exact: bool, vals: ValsTable, c: Chain, st: State, changed: int)
    requires RollbackTop(exact, vals, c, st, changed)
    ensures
      var n := st.lastBlockHeight;
      var r := SaveVals(vals, n + 1, changed, st.validators);
      r.Ok? && ValsRefine(exact, r.value, RollbackChain(c, st), n + 1)
  {
    hide Same, Increment, EntryRefines, Linked;
    var n, c' := st.lastBlockHeight, RollbackChain(c, st);
    RollbackTopEntry(exact, vals, c, st, changed);
    var vals' := SaveVals(vals, n + 1, changed, st.validators).value;
    forall h | c'.valsFrom <= h <= n
      ensures EntryRefines(exact, vals', c'.vals, c'.changes, h)
    {
      TruncatedEntry(exact, vals, c, c', h, n + 1, vals'[n + 1]);
    }
    RollbackLinked(exact, c, st);
  }

  lemma RollbackParamsRefine(params: ParamsTable, c: Chain, st: State, changed: int, p: ConsensusParams)
    requires
      var n := st.lastBlockHeight;
      && ParamsRefine(params, c, n + 1) && c.paramsFrom <= n
      && n + 1 in params && st.paramsChanged == params[n + 1].changed
      && n in c.params && p == c.params[n]
      && changed == (if st.paramsChanged > n - 1 then n else st.paramsChanged)
    ensures
      var n := st.lastBlockHeight;
      ParamsRefine(SaveParams(params, n, changed, p), RollbackChain(c, st), n)
  {
    var n, c' := st.lastBlockHeight, RollbackChain(c, st);
    var params' := SaveParams(params, n, changed, p);
    assert ParamEntryRefines(params, c.params, c.paramChanges, n + 1);
    assert ParamEntryRefines(params, c.params, c.paramChanges, n);
    forall h | c'.paramsFrom <= h <= n
      ensures ParamEntryRefines(params', c'.params, c'.paramChanges, h)
    {
      assert ParamEntryRefines(params, c.params, c.paramChanges, h);
      if h == n && changed < n {
        LastChangeUnique(c.paramChanges, params[n].changed, changed, n, n + 1);
      }
    }
  }

  /** Rolling back succeeds and keeps the store in agreement with the shortened history. */
  lemma RollbackRefines(exact: bool, db: Db, c: Chain, previous: BlockMeta, latest: BlockMeta)
    requires Refines(exact, db, c) && RollbackReady(db.state.value, c, previous)
    requires exact ==> CalmFrom(c, Checkpoint(db.state.value.lastBlockHeight - 1))
    ensures RollbackState(db, previous, latest).Ok?
    ensures
      var st := RollbackState(db, previous, latest).value;
      Save(db, st).Ok? && Refines(exact, Save(db, st).value, RollbackChain(c, db.state.value))
  {
    hide Same, Increment, LoadValidators, LoadParams, WellFormed, Linked, CalmFrom;
    var invalid := db.state.value;
    var n := invalid.lastBlockHeight;
    assert EntryRefines(exact, db.vals, c.vals, c.changes, n);
    assert EntryRefines(exact, db.vals, c.vals, c.changes, n - 1);
    LoadMatches(exact, db.vals, c, n + 2, n - 1);
    LoadParamsMatches(db.params, c, n + 1, n);
    var st := RollbackState(db, previous, latest).value;
    hide ValsRefine, ParamsRefine, EntryRefines;
    RollbackValsRefine(exact, db.vals, c, invalid, st.valsChanged);
    RollbackParamsRefine(db.params, c, invalid, st.paramsChanged, st.params);
    RollbackStateRefines(exact, db, c, previous, latest);
  }

  lemma RollbackStateRefines(exact: bool, db: Db, c: Chain, previous: BlockMeta, latest: BlockMeta)
    requires db.state.Some? && StateRefines(exact, db.state.value, db, c)
    requires RollbackReady(db.state.value, c, previous)
    requires
      var n := db.state.value.lastBlockHeight;
      && n in c.vals && n - 1 in c.vals && n in c.params
      && LoadValidators(db.vals, n - 1).Ok? && Same(exact, LoadValidators(db.vals, n - 1).value, c.vals[n - 1])
      && LoadParams(db.params, n) == Ok(c.params[n])
    ensures
      var r := RollbackState(db, previous, latest);
      r.Ok? && (Save(db, r.value).Ok? ==>
        StateRefines(exact, r.value, Save(db, r.value).value, RollbackChain(c, db.state.value)))
  {
    hide Same, Increment, LoadValidators, LoadParams, WellFormed;
  }

  // ---------------------------------------------------------------- rollback undoes a block

  /** The state before the block, with the change heights a rollback can still tell. */
  function Restored(prev: State, n: int, resp: Response): State {
    prev.(version := Version(BLOCK_PROTOCOL, prev.params.appVersion, SOFTWARE_VERSION),
          valsChanged := if resp.valUpdates != [] then n + 1 else prev.valsChanged,
          paramsChanged := if resp.paramUpdates.Some? then n else prev.paramsChanged)
  }

  /** The metas are those of the block before and of the block being undone. */
  predicate MetasMatch(prev: State, header: Header, previous: BlockMeta, latest: BlockMeta) {
    && previous.header.height == prev.lastBlockHeight
    && previous.blockID == prev.lastBlockID && previous.header.time == prev.lastBlockTime
    && latest.header == header
  }

  lemma UpdateFields(rules: Rules, st: State, blockID: nat, header: Header, resp: Response)
    requires UpdateState(rules, st, blockID, header, resp).Ok?
    ensures
      var st' := UpdateState(rules, st, blockID, header, resp).value;
      && st'.chainID == st.chainID && st'.initialHeight == st.initialHeight && st'.lastBlockHeight == header.height
      && st'.validators == st.nextValidators && st'.lastValidators == Some(st.validators)
      && st'.valsChanged == (if resp.valUpdates != [] then header.height + 2 else st.valsChanged)
      && st'.paramsChanged == (if resp.paramUpdates.Some? then header.height + 1 else st.paramsChanged)
  {
    hide Increment;
  }

  /** The history as seen from the state: its last-but-one validator set and its parameters. */
  lemma LastValidatorsAre(db: Db, c: Chain)
    requires Refines(false, db, c)
    ensures
      var st := db.state.value;
      st.lastValidators.Some? && NextHeight(st) - 1 in c.vals ==>
        SameMembers(st.lastValidators.value.validators, c.vals[NextHeight(st) - 1].validators)
    ensures NextHeight(db.state.value) in c.params && db.state.value.params == c.params[NextHeight(db.state.value)]
  {
    hide ValsRefine, ParamsRefine, SameMembers;
  }

  /** What a rollback gives back: the wanted state, with the last validators as the store reads them.
      They have the members they had, and they are the same if and only if that height loads as it
      was. */
  predicate Restores(r: State, want: State, read: Result<ValSet>) {
    && want.lastValidators.Some? && r.lastValidators.Some? && r.(lastValidators := want.lastValidators) == want
    && SameMembers(r.lastValidators.value.validators, want.lastValidators.value.validators)
    && (r == want <==> read == Ok(want.lastValidators.value))
  }

  /** A rollback after applying block n gives back the state before n, except that the change
      heights may be raised and the version is rebuilt. */
  lemma RollbackRestores(rules: Rules, db0: Db, c0: Chain, blockID: nat, header: Header, resp: Response, db: Db,
                         previous: BlockMeta, latest: BlockMeta)
    requires Refines(false, db0, c0)
    requires ApplyBlock(rules, db0, db0.state.value, blockID, header, resp) == Ok(db) && db.state.Some?
    requires db0.state.value.lastValidators.Some? && MetasMatch(db0.state.value, header, previous, latest)
    requires RollbackReady(db.state.value, c0, previous)
    ensures RollbackState(db, previous, latest).Ok?
    ensures
      var n := db.state.value.lastBlockHeight;
      Restores(RollbackState(db, previous, latest).value, Restored(db0.state.value, n, resp), LoadValidators(db.vals, n - 1))
  {
    hide *;
    RefinesState(false, db0, c0);
    ApplyRefines(false, rules, db0, c0, blockID, header, resp, db);
    var prev, invalid := db0.state.value, db.state.value;
    var n := invalid.lastBlockHeight;
    var c := ApplyChain(c0, invalid);
    ApplyFacts(rules, db0, blockID, header, resp, db);
    UpdateFields(rules, prev, blockID, header, resp);
    ChangedBelow(false, db0, c0);
    LastValidatorsAre(db0, c0);
    RollbackReads(db, c0, c, previous);
    ReadsAre(db, c0, n);
    assert n == prev.lastBlockHeight + 1 by { RollbackHeights(prev, invalid, c0, header, previous, latest); }
    MembersShared(LoadValidators(db.vals, n - 1).value, prev.lastValidators.value, c0.vals[n - 1]);
    RollbackValue(db0, db, resp, header, previous, latest);
  }

  lemma MembersShared(a: ValSet, b: ValSet, c: ValSet)
    requires SameMembers(a.validators, c.validators) && SameMembers(b.validators, c.validators)
    ensures SameMembers(a.validators, b.validators)
  {
  }

  lemma RollbackHeights(prev: State, invalid: State, c: Chain, header: Header, previous: BlockMeta, latest: BlockMeta)
    requires MetasMatch(prev, header, previous, latest) && RollbackReady(invalid, c, previous)
    ensures invalid.lastBlockHeight == prev.lastBlockHeight + 1
  {
  }

  lemma ApplyFacts(rules: Rules, db0: Db, blockID: nat, header: Header, resp: Response, db: Db)
    requires db0.state.Some? && ApplyBlock(rules, db0, db0.state.value, blockID, header, resp) == Ok(db)
    ensures ValidHeader(db0.state.value, header) && header.height == NextHeight(db0.state.value)
    ensures UpdateState(rules, db0.state.value, blockID, header, resp).Ok?
    ensures db.state == Some(UpdateState(rules, db0.state.value, blockID, header, resp).value)
  {
    hide UpdateState;
  }

  /** The two reads of a rollback of block n. */
  predicate ReadsHistory(db: Db, c: Chain, n: int) {
    && n - 1 in c.vals && LoadValidators(db.vals, n - 1).Ok?
    && SameMembers(LoadValidators(db.vals, n - 1).value.validators, c.vals[n - 1].validators)
    && n in c.params && LoadParams(db.params, n) == Ok(c.params[n])
  }

  lemma ReadsAre(db: Db, c: Chain, n: int)
    requires ReadsHistory(db, c, n)
    ensures n - 1 in c.vals && LoadValidators(db.vals, n - 1).Ok?
    ensures SameMembers(LoadValidators(db.vals, n - 1).value.validators, c.vals[n - 1].validators)
    ensures n in c.params && LoadParams(db.params, n) == Ok(c.params[n])
  {
  }

  lemma RollbackReads(db: Db, c0: Chain, c: Chain, previous: BlockMeta)
    requires Refines(false, db, c) && RollbackReady(db.state.value, c0, previous)
    requires c == ApplyChain(c0, db.state.value)
    ensures ReadsHistory(db, c0, db.state.value.lastBlockHeight)
  {
    hide Increment, SameMembers, LoadValidators, LoadParams, EntryRefines;
    var n := db.state.value.lastBlockHeight;
    LoadMatches(false, db.vals, c, n + 2, n - 1);
    LoadParamsMatches(db.params, c, n + 1, n);
  }

  lemma RollbackValue(db0: Db, db: Db, resp: Response, header: Header, previous: BlockMeta, latest: BlockMeta)
    requires db0.state.Some? && db.state.Some? && db0.state.value.lastValidators.Some?
    requires ValidHeader(db0.state.value, header) && MetasMatch(db0.state.value, header, previous, latest)
    requires
      var prev, st' := db0.state.value, db.state.value;
      var n := st'.lastBlockHeight;
      && n == header.height == NextHeight(prev) && n == prev.lastBlockHeight + 1
      && st'.chainID == prev.chainID && st'.initialHeight == prev.initialHeight
      && st'.validators == prev.nextValidators && st'.lastValidators == Some(prev.validators)
      && st'.valsChanged == (if resp.valUpdates != [] then n + 2 else prev.valsChanged)
      && st'.paramsChanged == (if resp.paramUpdates.Some? then n + 1 else prev.paramsChanged)
      && prev.valsChanged <= n + 1 && prev.paramsChanged <= n
      && LoadValidators(db.vals, n - 1).Ok?
      && SameMembers(LoadValidators(db.vals, n - 1).value.validators, prev.lastValidators.value.validators)
      && LoadParams(db.params, n) == Ok(prev.params)
    ensures RollbackState(db, previous, latest).Ok?
    ensures
      var n := db.state.value.lastBlockHeight;
      Restores(RollbackState(db, previous, latest).value, Restored(db0.state.value, n, resp), LoadValidators(db.vals, n - 1))
  {
    hide LoadValidators, LoadParams, SameMembers;
  }

  lemma RestoredReapplies(rules: Rules, prev: State, blockID: nat, header: Header, resp: Response)
    requires ValidHeader(prev, header) && UpdateState(rules, prev, blockID, header, resp).Ok?
    ensures
      var want := Restored(prev, header.height, resp);
      (ValidHeader(want, header)
       && UpdateState(rules, want, blockID, header, resp) == UpdateState(rules, prev, blockID, header, resp))
      <==> prev.version == Version(BLOCK_PROTOCOL, prev.params.appVersion, SOFTWARE_VERSION)
  {
    hide Increment;
  }

  /** The last validators of a state are replaced, not used, by the next block. */
  lemma LastValidatorsUnused(rules: Rules, st: State, last: Option<ValSet>, blockID: nat, header: Header, resp: Response)
    ensures ValidHeader(st.(lastValidators := last), header) <==> ValidHeader(st, header)
    ensures UpdateState(rules, st.(lastValidators := last), blockID, header, resp) == UpdateState(rules, st, blockID, header, resp)
  {
    hide Increment;
  }

  /** Applying the same block again to what the rollback returns gives exactly the state that was
      rolled back, if and only if the version before the block is the one a rollback rebuilds. */
  lemma ReapplyRestores(rules: Rules, db0: Db, c0: Chain, blockID: nat, header: Header, resp: Response, db: Db,
                        previous: BlockMeta, latest: BlockMeta)
    requires Refines(false, db0, c0)
    requires ApplyBlock(rules, db0, db0.state.value, blockID, header, resp) == Ok(db) && db.state.Some?
    requires db0.state.value.lastValidators.Some? && MetasMatch(db0.state.value, header, previous, latest)
    requires RollbackReady(db.state.value, c0, previous)
    ensures RollbackState(db, previous, latest).Ok?
    ensures
      var prev, rolled := db0.state.value, RollbackState(db, previous, latest).value;
      (ValidHeader(rolled, header) && UpdateState(rules, rolled, blockID, header, resp) == Ok(db.state.value))
      <==> prev.version == Version(BLOCK_PROTOCOL, prev.params.appVersion, SOFTWARE_VERSION)
  {
    hide *;
    RefinesState(false, db0, c0);
    RollbackRestores(rules, db0, c0, blockID, header, resp, db, previous, latest);
    ApplyFacts(rules, db0, blockID, header, resp, db);
    var prev, rolled := db0.state.value, RollbackState(db, previous, latest).value;
    UpdateFields(rules, prev, blockID, header, resp);
    RestoredReapplies(rules, prev, blockID, header, resp);
    var want := Restored(prev, header.height, resp);
    RestoresUpToLast(rolled, want, LoadValidators(db.vals, header.height - 1));
    LastValidatorsUnused(rules, rolled, want.lastValidators, blockID, header, resp);
  }

  lemma RestoresUpToLast(r: State, want: State, read: Result<ValSet>)
    requires Restores(r, want, read)
    ensures r.(lastValidators := want.lastValidators) == want
  {
  }

  // ---------------------------------------------------------------- whole runs

  datatype Step =
    | Genesis(st: State)
    | BootstrapFrom(st: State)
    | Apply(blockID: nat, header: Header, resp: Response)
    | Prune(from: int, to: int, ev: int)
    | RollBack(previous: BlockMeta, latest: BlockMeta)

  datatype Node = Node(db: Db, chain: Chain)

  const EMPTY := Node(Db(map[], map[], None), Chain(map[], {}, 0, map[], {}, 0))

  /** One step of a node, or nothing when the step is refused or not possible. */
  function Next(rules: Rules, node: Node, step: Step): Option<Node> {
    var db, c := node.db, node.chain;
    match step
    case Genesis(st) =>
      if db.state.None? && GenesisReady(st) && Save(db, st).Ok?
      then Some(Node(Save(db, st).value, GenesisChain(st))) else None
    case BootstrapFrom(st) =>
      if db.state.None? && BootstrapReady(st) then Some(Node(Bootstrap(db, st), BootstrapChain(st))) else None
    case Apply(blockID, header, resp) =>
      if db.state.None? then None
      else
        var r := ApplyBlock(rules, db, db.state.value, blockID, header, resp);
        if r.Ok? && r.value.state.Some? then Some(Node(r.value, ApplyChain(c, r.value.state.value))) else None
    case Prune(from, to, ev) =>
      if db.state.Some? && PruneRange(c, NextHeight(db.state.value), from, to, ev)
         && PruneSucceeds(db, from, to, ev)
      then Some(Node(PruneStates(db, from, to, ev), PruneChain(c, db.vals, from, to, ev))) else None
    case RollBack(previous, latest) =>
      if db.state.None? || !RollbackReady(db.state.value, c, previous) then None
      else
        var st := RollbackState(db, previous, latest);
        if st.Err? || Save(db, st.value).Err? then None
        else Some(Node(Save(db, st.value).value, RollbackChain(c, db.state.value)))
  }

  function Run(rules: Rules, steps: seq<Step>): Option<Node> {
    if steps == [] then Some(EMPTY)
    else match Run(rules, steps[..|steps| - 1])
      case None => None
      case Some(node) => Next(rules, node, steps[|steps| - 1])
  }

  /** The history is calm where a rollback reads the previous validators: from the checkpoint below. */
  predicate CalmForRollback(node: Node)
    requires node.db.state.Some?
  {
    CalmFrom(node.chain, Checkpoint(node.db.state.value.lastBlockHeight - 1))
  }

  lemma NextRefines(exact: bool, rules: Rules, node: Node, step: Step)
    requires node.db.state.Some? ==> Refines(exact, node.db, node.chain)
    requires (exact && step.RollBack? && node.db.state.Some?) ==> CalmForRollback(node)
    requires Next(rules, node, step).Some?
    ensures
      var node' := Next(rules, node, step).value;
      node'.db.state.Some? && Refines(exact, node'.db, node'.chain)
  {
    hide *;
    NextUnfold(rules, node, step);
    match step
    case Genesis(st) => GenesisRefines(exact, node.db, st); RefinesState(exact, Save(node.db, st).value, GenesisChain(st));
    case BootstrapFrom(st) => BootstrapRefines(exact, node.db, st); RefinesState(exact, Bootstrap(node.db, st), BootstrapChain(st));
    case Apply(blockID, header, resp) =>
      var r := ApplyBlock(rules, node.db, node.db.state.value, blockID, header, resp);
      ApplyRefines(exact, rules, node.db, node.chain, blockID, header, resp, r.value);
    case Prune(from, to, ev) =>
      PruneRefines(exact, node.db, node.chain, from, to, ev);
      PruneReadyFacts(node.db, from, to, ev);
      RefinesState(exact, PruneStates(node.db, from, to, ev), PruneChain(node.chain, node.db.vals, from, to, ev));
    case RollBack(previous, latest) =>
      if exact {
        assert CalmFrom(node.chain, Checkpoint(node.db.state.value.lastBlockHeight - 1)) by { CalmMeans(node); }
      }
      RollbackRefines(exact, node.db, node.chain, previous, latest);
      RefinesState(exact, Save(node.db, RollbackState(node.db, previous, latest).value).value,
                   RollbackChain(node.chain, node.db.state.value));
  }

  lemma CalmMeans(node: Node)
    requires node.db.state.Some? && CalmForRollback(node)
    ensures CalmFrom(node.chain, Checkpoint(node.db.state.value.lastBlockHeight - 1))
  {
  }

  lemma PruneReadyFacts(db: Db, from: int, to: int, ev: int)
    requires PruneReady(db, from, to, ev)
    ensures 0 < from < to && Min(to, ev) in db.vals && to in db.params
  {
  }

  lemma NextUnfold(rules: Rules, node: Node, step: Step)
    requires Next(rules, node, step).Some?
    ensures
      var db, c, node' := node.db, node.chain, Next(rules, node, step).value;
      match step
      case Genesis(st) => GenesisReady(st) && Save(db, st).Ok? && node' == Node(Save(db, st).value, GenesisChain(st))
      case BootstrapFrom(st) => BootstrapReady(st) && node' == Node(Bootstrap(db, st), BootstrapChain(st))
      case Apply(blockID, header, resp) =>
        db.state.Some? && var r := ApplyBlock(rules, db, db.state.value, blockID, header, resp);
        r.Ok? && r.value.state.Some? && node' == Node(r.value, ApplyChain(c, r.value.state.value))
      case Prune(from, to, ev) =>
        db.state.Some? && PruneRange(c, NextHeight(db.state.value), from, to, ev)
        && PruneReady(db, from, to, ev)
        && node' == Node(PruneStates(db, from, to, ev), PruneChain(c, db.vals, from, to, ev))
      case RollBack(previous, latest) =>
        db.state.Some? && RollbackReady(db.state.value, c, previous) && RollbackState(db, previous, latest).Ok?
        && var st := RollbackState(db, previous, latest).value;
        Save(db, st).Ok? && node' == Node(Save(db, st).value, RollbackChain(c, db.state.value))
  {
    hide ApplyBlock, Save, Bootstrap, GenesisReady, BootstrapReady, PruneChain, PruneStates, RollbackState, PruneRange;
  }

  /** Wherever the run rolls back, the history was calm. */
  predicate CalmRollbacks(rules: Rules, steps: seq<Step>) {
    forall i :: 0 <= i < |steps| && steps[i].RollBack? && Run(rules, steps[..i]).Some? ==>
      var node := Run(rules, steps[..i]).value;
      node.db.state.Some? ==> CalmForRollback(node)
  }

  /** Over every run, the store refines the history: up to priorities always, and exactly as
      long as the history is calm wherever it is rolled back. */
  lemma {:induction false} RunRefines(exact: bool, rules: Rules, steps: seq<Step>)
    requires Run(rules, steps).Some? && steps != []
    requires exact ==> CalmRollbacks(rules, steps)
    ensures
      var node := Run(rules, steps).value;
      node.db.state.Some? && Refines(exact, node.db, node.chain)
  {
    hide Next, CalmForRollback, Refines;
    var front := steps[..|steps| - 1];
    var node := Run(rules, front).value;
    if front != [] {
      forall i | 0 <= i < |front|
        ensures front[..i] == steps[..i] && front[i] == steps[i]
      {
      }
      RunRefines(exact, rules, front);
    }
    NextRefines(exact, rules, node, steps[|steps| - 1]);
  }

  // ---------------------------------------------------------------- a run that loses an anchor

  /** The header of a block that changes nothing. */
  function QuietHeader(st: State): Header {
    Header(NextHeight(st), st.lastBlockTime + 1, st.version.app, st.lastBlockID, st.appHash, st.lastResultsHash)
  }

  const NO_CHANGE := Response([], None, 0, 0)

  /** A genesis followed by `n` blocks that change nothing. */
  function Quiet(rules: Rules, st: State, n: nat): seq<Step> {
    if n == 0 then [Genesis(st)]
    else
      var before := Quiet(rules, st, n - 1);
      var node := Run(rules, before);
      before + [Apply(0, QuietHeader(if node.Some? && node.value.db.state.Some? then node.value.db.state.value else st), NO_CHANGE)]
  }

  predicate QuietNode(node: Node, n: nat) {
    && node.db.state.Some? && node.db.state.value.lastBlockHeight == n && node.db.state.value.initialHeight == 1
    && node.db.state.value.valsChanged == 1 && node.chain.changes == {1} && node.chain.valsFrom == 1 && node.chain.paramsFrom == 1
  }

  lemma QuietStarts(rules: Rules, st: State)
    requires GenesisReady(st) && st.initialHeight == 1
    ensures Run(rules, Quiet(rules, st, 0)).Some?
    ensures
      var node := Run(rules, Quiet(rules, st, 0)).value;
      QuietNode(node, 0) && Refines(false, node.db, node.chain)
  {
    GenesisRefines(false, EMPTY.db, st);
    hide Refines, Increment;
    assert [Genesis(st)][..0] == [];
    assert Run(rules, [Genesis(st)]) == Next(rules, EMPTY, Genesis(st));
  }

  lemma QuietApplies(rules: Rules, node: Node, n: nat, blockID: nat)
    requires QuietNode(node, n) && Refines(false, node.db, node.chain)
    ensures
      var step := Apply(blockID, QuietHeader(node.db.state.value), NO_CHANGE);
      && Next(rules, node, step).Some? && QuietNode(Next(rules, node, step).value, n + 1)
      && Refines(false, Next(rules, node, step).value.db, Next(rules, node, step).value.chain)
  {
    hide Refines, Increment, WellFormed;
    var st, header := node.db.state.value, QuietHeader(node.db.state.value);
    ApplySucceeds(false, rules, node.db, node.chain, blockID, header, NO_CHANGE);
    var db := ApplyBlock(rules, node.db, st, blockID, header, NO_CHANGE).value;
    ApplyRefines(false, rules, node.db, node.chain, blockID, header, NO_CHANGE, db);
    ApplyFacts(rules, node.db, blockID, header, NO_CHANGE, db);
    UpdateFields(rules, st, blockID, header, NO_CHANGE);
  }

  lemma {:induction false} QuietRuns(rules: Rules, st: State, n: nat)
    requires GenesisReady(st) && st.initialHeight == 1
    ensures Run(rules, Quiet(rules, st, n)).Some?
    ensures
      var node := Run(rules, Quiet(rules, st, n)).value;
      QuietNode(node, n) && Refines(false, node.db, node.chain)
  {
    hide Refines, Next, QuietNode, GenesisReady, QuietHeader;
    if n == 0 {
      QuietStarts(rules, st);
    } else {
      QuietRuns(rules, st, n - 1);
      var before := Quiet(rules, st, n - 1);
      var node := Run(rules, before).value;
      QuietState(node, n - 1);
      QuietApplies(rules, node, n - 1, 0);
      var step := Apply(0, QuietHeader(node.db.state.value), NO_CHANGE);
      assert Quiet(rules, st, n) == before + [step];
      assert (before + [step])[..|before|] == before;
    }
  }

  lemma QuietState(node: Node, n: nat)
    requires QuietNode(node, n)
    ensures node.db.state.Some?
  {
  }

  /** After two hundred thousand blocks without a validator change, pruning to the top with evidence
      from height 150000 on succeeds and leaves that height's validators unloadable. */
  lemma AnchorLossIsReachable(rules: Rules, st: State, n: nat)
    requires GenesisReady(st) && st.initialHeight == 1 && n >= 200_000
    ensures
      var before, prune := Run(rules, Quiet(rules, st, n)), Prune(1, n + 1, 150_000);
      && before.Some? && Next(rules, before.value, prune).Some?
      && LoadValidators(before.value.db.vals, 150_000).Ok?
      && LoadValidators(Next(rules, before.value, prune).value.db.vals, 150_000).Err?
  {
    hide Refines, Next, Quiet, GenesisReady, LoadValidators, PruneVals, KeepVals;
    QuietRuns(rules, st, n);
    LosesAnchor(rules, Run(rules, Quiet(rules, st, n)).value, n);
  }

  lemma LosesAnchor(rules: Rules, node: Node, n: nat)
    requires QuietNode(node, n) && Refines(false, node.db, node.chain) && n >= 200_000
    ensures
      var prune := Prune(1, n + 1, 150_000);
      && Next(rules, node, prune).Some? && LoadValidators(node.db.vals, 150_000).Ok?
      && LoadValidators(Next(rules, node, prune).value.db.vals, 150_000).Err?
  {
    hide LoadValidators, PruneVals, KeepVals, Increment, WellFormed, StateRefines, ParamsRefine, FirstFull, PruneParams, Linked;
    var vals, ev, to := node.db.vals, 150_000, n + 1;
    PruneRefines(false, node.db, node.chain, 1, to, ev);
    assert EntryRefines(false, vals, node.chain.vals, node.chain.changes, ev);
    assert vals[ev].changed == 1;
    CheckpointBounds(to);
    assert Checkpoint(ev) == 100_000 && Checkpoint(to) >= 200_000;
    assert PruneLosesAnchor(vals, 1, to, ev);
    StretchStarts(vals, 1, to, ev);
    PruneKeepsLoad(false, vals, node.chain, n + 2, 1, to, ev, ev);
  }
}
