/** The state of the chain and what the state store writes and reads for it.

    The store keeps a full validator set only at a height where the set changed and at every
    checkpoint; all other heights hold a pointer to the last change. Consensus parameters are
    kept the same way, without checkpoints. */
module StateModel {
  import opened Wrappers
  import opened ValidatorSets

  const CHECKPOINT_INTERVAL: int := 100000

  datatype ConsensusParams = ConsensusParams(appVersion: nat, rest: nat)

  datatype Version = Version(block: nat, app: nat, software: string)

  datatype State = State(
    version: Version,
    chainID: nat,
    initialHeight: int,
    lastBlockHeight: int,
    lastBlockID: nat,
    lastBlockTime: int,
    nextValidators: ValSet,
    validators: ValSet,
    lastValidators: Option<ValSet>,  // none before the first block
    valsChanged: int,
    params: ConsensusParams,
    paramsChanged: int,
    lastResultsHash: nat,
    appHash: nat)

  datatype ValidatorsInfo = ValidatorsInfo(changed: int, full: Option<ValSet>)

  datatype ParamsInfo = ParamsInfo(changed: int, full: Option<ConsensusParams>)

  type ValsTable = map<int, ValidatorsInfo>
  type ParamsTable = map<int, ParamsInfo>

  datatype Db = Db(vals: ValsTable, params: ParamsTable, state: Option<State>)

  /** Every pointer points at its own height or below; no save writes anything else. */
  predicate PointersBack(vals: ValsTable) {
    forall h :: h in vals ==> vals[h].changed <= h
  }

  predicate ParamPointersBack(params: ParamsTable) {
    forall h :: h in params ==> params[h].changed <= h
  }

  /** Batches of deletions are flushed this often. */
  const FLUSH_EVERY: int := 1000

  // ---------------------------------------------------------------- reading

  function Checkpoint(height: int): int {
    height - height % CHECKPOINT_INTERVAL
  }

  function LastStoredHeight(height: int, changed: int): int {
    Max(Checkpoint(height), changed)
  }

  function LoadValidators(vals: ValsTable, height: int): Result<ValSet> {
    if height !in vals then Err
    else match vals[height].full
      case Some(s) => Ok(s)
      case None =>
        var stored := LastStoredHeight(height, vals[height].changed);
        if stored !in vals || vals[stored].full.None? || height <= stored then Err
        else Ok(Increment(vals[stored].full.value, height - stored))
  }

  function LoadParams(params: ParamsTable, height: int): Result<ConsensusParams> {
    if height !in params then Err
    else match params[height].full
      case Some(p) => Ok(p)
      case None =>
        var stored := params[height].changed;
        // A pointer to a pointer has no fields to read; the source panics there.
        if stored !in params || params[stored].full.None? then Err
        else Ok(params[stored].full.value)
  }

  // ---------------------------------------------------------------- writing

  /** The height the state is about to process. */
  function NextHeight(st: State): int {
    if st.lastBlockHeight == 0 then st.initialHeight else st.lastBlockHeight + 1
  }

  predicate StoredInFull(height: int, changed: int) {
    height == changed || height % CHECKPOINT_INTERVAL == 0
  }

  function SaveVals(vals: ValsTable, height: int, changed: int, s: ValSet): Result<ValsTable> {
    if changed > height then Err
    else Ok(vals[height := ValidatorsInfo(changed, if StoredInFull(height, changed) then Some(s) else None)])
  }

  function SaveParams(params: ParamsTable, height: int, changed: int, p: ConsensusParams): ParamsTable {
    params[height := ParamsInfo(changed, if changed == height then Some(p) else None)]
  }

  function Save(db: Db, st: State): Result<Db> {
    var next := NextHeight(st);
    var first := if st.lastBlockHeight == 0 then SaveVals(db.vals, next, next, st.validators) else Ok(db.vals);
    if first.Err? then Err
    else
      var second := SaveVals(first.value, next + 1, st.valsChanged, st.nextValidators);
      if second.Err? then Err
      else Ok(Db(second.value, SaveParams(db.params, next, st.paramsChanged, st.params), Some(st)))
  }

  function Bootstrap(db: Db, st: State): Db {
    var height := NextHeight(st);
    var v0 := if height > 1 && st.lastValidators.Some?
              then db.vals[height - 1 := ValidatorsInfo(height - 1, st.lastValidators)] else db.vals;
    var v1 := v0[height := ValidatorsInfo(height, Some(st.validators))];
    var v2 := v1[height + 1 := ValidatorsInfo(height + 1, Some(st.nextValidators))];
    Db(v2, SaveParams(db.params, height, st.paramsChanged, st.params), Some(st))
  }

  // ---------------------------------------------------------------- applying a block

  datatype ValidatorUpdate = ValidatorUpdate(address: nat, power: int)
  datatype ParamUpdate = ParamUpdate(fields: nat)

  datatype Header = Header(height: int, time: int, appVersion: nat, lastBlockID: nat, appHash: nat, lastResultsHash: nat)

  datatype Response = Response(
    valUpdates: seq<ValidatorUpdate>,
    paramUpdates: Option<ParamUpdate>,
    resultsHash: nat,
    appHash: nat)

  /** How a set absorbs updates and how parameters absorb theirs; both may refuse. */
  datatype Rules = Rules(
    changeSet: (ValSet, seq<ValidatorUpdate>) -> Result<ValSet>,
    changeParams: (ConsensusParams, ParamUpdate, int) -> Result<ConsensusParams>)

  function UpdateState(rules: Rules, st: State, blockID: nat, header: Header, resp: Response): Result<State> {
    var changed := if resp.valUpdates != [] then rules.changeSet(st.nextValidators, resp.valUpdates)
                   else Ok(st.nextValidators);
    var params := match resp.paramUpdates
      case Some(u) => rules.changeParams(st.params, u, header.height)
      case None => Ok(st.params);
    if changed.Err? || params.Err? then Err
    else Ok(State(
      version := if resp.paramUpdates.Some? then st.version.(app := params.value.appVersion) else st.version,
      chainID := st.chainID,
      initialHeight := st.initialHeight,
      lastBlockHeight := header.height,
      lastBlockID := blockID,
      lastBlockTime := header.time,
      nextValidators := Increment(changed.value, 1),
      validators := st.nextValidators,
      lastValidators := Some(st.validators),
      valsChanged := if resp.valUpdates != [] then header.height + 1 + 1 else st.valsChanged,
      params := params.value,
      paramsChanged := if resp.paramUpdates.Some? then header.height + 1 else st.paramsChanged,
      lastResultsHash := resp.resultsHash,
      // The executor fills in the application's hash before it saves the state.
      appHash := resp.appHash))
  }

  /** What block validation guarantees about a header, as far as the stores rely on it. */
  predicate ValidHeader(st: State, header: Header) {
    && header.height == NextHeight(st)
    && header.appVersion == st.version.app
    && header.lastBlockID == st.lastBlockID
    && header.appHash == st.appHash
    && header.lastResultsHash == st.lastResultsHash
    && (if header.height > st.initialHeight then header.time > st.lastBlockTime else header.time >= st.lastBlockTime)
  }

  /** Update, then save. */
  function ApplyBlock(rules: Rules, db: Db, st: State, blockID: nat, header: Header, resp: Response): Result<Db> {
    if !ValidHeader(st, header) then Err
    else
      var next := UpdateState(rules, st, blockID, header, resp);
      if next.Err? then Err else Save(db, next.value)
  }

  // ---------------------------------------------------------------- pruning

  /** Heights whose validators survive because the lowest retained height points at them. */
  function KeepVals(vals: ValsTable, to: int, ev: int): set<int>
    requires Min(to, ev) in vals
  {
    var info := vals[Min(to, ev)];
    if info.full.None? then {info.changed, LastStoredHeight(to, info.changed)} else {}
  }

  function KeepParams(params: ParamsTable, to: int): set<int>
    requires to in params
  {
    if params[to].full.None? then {params[to].changed} else {}
  }

  /** A kept height is rewritten so that it can be read on its own. */
  function MaterializedVals(vals: ValsTable, h: int): ValidatorsInfo
    requires h in vals
  {
    if vals[h].full.Some? || LoadValidators(vals, h).Err? then vals[h]
    else ValidatorsInfo(h, Some(LoadValidators(vals, h).value))
  }

  function MaterializedParams(params: ParamsTable, h: int): ParamsInfo
    requires h in params
  {
    if params[h].full.Some? || LoadParams(params, h).Err? then params[h]
    else ParamsInfo(h, Some(LoadParams(params, h).value))
  }

  function PruneVals(vals: ValsTable, keep: set<int>, from: int, to: int, ev: int): ValsTable {
    map h | h in vals && (h < from || to <= h || h in keep || ev <= h) ::
      if from <= h < to && h in keep then MaterializedVals(vals, h) else vals[h]
  }

  function PruneParams(params: ParamsTable, keep: set<int>, from: int, to: int): ParamsTable {
    map h | h in params && (h < from || to <= h || h in keep) ::
      if from <= h < to && h in keep then MaterializedParams(params, h) else params[h]
  }

  predicate PruneReady(db: Db, from: int, to: int, ev: int) {
    0 < from < to && Min(to, ev) in db.vals && to in db.params
  }

  predicate PruneSucceeds(db: Db, from: int, to: int, ev: int) {
    && PruneReady(db, from, to, ev)
    && (forall h :: h in KeepVals(db.vals, to, ev) && from <= h < to ==> LoadValidators(db.vals, h).Ok?)
    && (forall h :: h in KeepParams(db.params, to) && from <= h < to ==> LoadParams(db.params, h).Ok?)
  }

  function PruneStates(db: Db, from: int, to: int, ev: int): Db
    requires Min(to, ev) in db.vals && to in db.params
  {
    Db(PruneVals(db.vals, KeepVals(db.vals, to, ev), from, to, ev),
       PruneParams(db.params, KeepParams(db.params, to), from, to),
       db.state)
  }

  // ---------------------------------------------------------------- rolling back

  const BLOCK_PROTOCOL: nat := 11
  const SOFTWARE_VERSION: string := "1.0.1"

  datatype BlockMeta = BlockMeta(header: Header, blockID: nat, parts: nat)

  /** The state one block earlier, rebuilt from the stores and two block metas. */
  function RollbackState(db: Db, previous: BlockMeta, latest: BlockMeta): Result<State>
    requires db.state.Some?
  {
    var invalid := db.state.value;
    var height := invalid.lastBlockHeight - 1;
    var lastVals := LoadValidators(db.vals, height);
    var params := LoadParams(db.params, height + 1);
    if lastVals.Err? || params.Err? || invalid.lastValidators.None? then Err
    else Ok(State(
      version := Version(BLOCK_PROTOCOL, params.value.appVersion, SOFTWARE_VERSION),
      chainID := invalid.chainID,
      initialHeight := invalid.initialHeight,
      lastBlockHeight := previous.header.height,
      lastBlockID := previous.blockID,
      lastBlockTime := previous.header.time,
      nextValidators := invalid.validators,
      validators := invalid.lastValidators.value,
      lastValidators := Some(lastVals.value),
      valsChanged := if invalid.valsChanged > height + 2 then height + 2 else invalid.valsChanged,
      params := params.value,
      paramsChanged := if invalid.paramsChanged > height then height + 1 else invalid.paramsChanged,
      lastResultsHash := latest.header.lastResultsHash,
      appHash := latest.header.appHash))
  }
}
