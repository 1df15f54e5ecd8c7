/** Every step of a node keeps the store in agreement with the history, over whole runs. */
module StateSteps {
  import opened Wrappers
  import opened ValidatorSets
  import opened StateModel
  import opened StateHistory

  // ---------------------------------------------------------------- starting a store

  /** A genesis state as the node builds it. */
  predicate GenesisReady(st: State) {
    && st.lastBlockHeight == 0 && st.initialHeight >= 1 && st.lastValidators.None?
    && st.valsChanged == st.initialHeight && st.paramsChanged == st.initialHeight
    && st.nextValidators == Increment(st.validators, 1)
  }

  function GenesisChain(st: State): Chain {
    var h := st.initialHeight;
    Chain(map[h := st.validators, h + 1 := st.nextValidators], {h}, h, map[h := st.params], {h}, h)
  }

  lemma GenesisRefines(exact: bool, db: Db, st: State)
    requires GenesisReady(st)
    ensures Save(db, st).Ok? && Refines(exact, Save(db, st).value, GenesisChain(st))
  {
    hide Increment, WellFormed, Same, StateRefines, EntryRefines, Linked;
    var h := st.initialHeight;
    var d, c := Save(db, st).value, GenesisChain(st);
    GenesisEntries(exact, db, st);
    assert ParamEntryRefines(d.params, c.params, c.paramChanges, h);
    GenesisState(exact, db, st);
  }

  lemma GenesisEntries(exact: bool, db: Db, st: State)
    requires GenesisReady(st)
    ensures Save(db, st).Ok?
    ensures
      var h, d, c := st.initialHeight, Save(db, st).value, GenesisChain(st);
      && EntryRefines(exact, d.vals, c.vals, c.changes, h) && EntryRefines(exact, d.vals, c.vals, c.changes, h + 1)
      && Linked(exact, c.vals, c.changes)
  {
    SameReflexive(exact, st.validators);
    SameReflexive(exact, st.nextValidators);
    hide Increment, WellFormed, Same;
    var h := st.initialHeight;
    var d, c := Save(db, st).value, GenesisChain(st);
    CheckpointBounds(h);
    CheckpointBounds(h + 1);
    assert IsLastChange(c.changes, h, h) && IsLastChange(c.changes, h, h + 1);
    LastStoredGap(c.changes, h, h + 1);
  }

  lemma GenesisState(exact: bool, db: Db, st: State)
    requires GenesisReady(st) && Save(db, st).Ok?
    ensures StateRefines(exact, st, Save(db, st).value, GenesisChain(st))
  {
    SameReflexive(exact, st.validators);
    SameReflexive(exact, st.nextValidators);
    hide Increment, WellFormed, Same;
  }

  /** A state to bootstrap from as state sync builds it: both change heights are the ones the
      bootstrap writes. */
  predicate BootstrapReady(st: State) {
    && st.initialHeight >= 1 && (st.lastBlockHeight == 0 || st.lastBlockHeight >= st.initialHeight)
    && st.valsChanged == NextHeight(st) + 1
    && st.paramsChanged == NextHeight(st)
  }

  function BootstrapChain(st: State): Chain {
    var h := NextHeight(st);
    if h > 1 && st.lastValidators.Some? then
      Chain(map[h - 1 := st.lastValidators.value, h := st.validators, h + 1 := st.nextValidators],
            {h - 1, h, h + 1}, h - 1, map[h := st.params], {h}, h)
    else
      Chain(map[h := st.validators, h + 1 := st.nextValidators], {h, h + 1}, h, map[h := st.params], {h}, h)
  }

  lemma BootstrapRefines(exact: bool, db: Db, st: State)
    requires BootstrapReady(st)
    ensures Refines(exact, Bootstrap(db, st), BootstrapChain(st))
  {
    hide Increment, Same, WellFormed, StateRefines, EntryRefines;
    var h := NextHeight(st);
    var d, c := Bootstrap(db, st), BootstrapChain(st);
    forall x | c.valsFrom <= x <= h + 1
      ensures EntryRefines(exact, d.vals, c.vals, c.changes, x)
    {
      BootstrapEntry(exact, db, st, x);
    }
    assert Linked(exact, c.vals, c.changes);
    assert ParamEntryRefines(d.params, c.params, c.paramChanges, h);
    BootstrapState(exact, db, st);
  }

  lemma BootstrapEntry(exact: bool, db: Db, st: State, x: int)
    requires BootstrapReady(st) && BootstrapChain(st).valsFrom <= x <= NextHeight(st) + 1
    ensures EntryRefines(exact, Bootstrap(db, st).vals, BootstrapChain(st).vals, BootstrapChain(st).changes, x)
  {
    var h, c := NextHeight(st), BootstrapChain(st);
    assert x == h - 1 || x == h || x == h + 1;
    assert x in c.vals && Bootstrap(db, st).vals[x] == ValidatorsInfo(x, Some(c.vals[x]));
    SameReflexive(exact, c.vals[x]);
    hide Increment, Same, WellFormed;
    assert IsLastChange(c.changes, x, x);
    CheckpointBounds(x);
  }

  lemma BootstrapState(exact: bool, db: Db, st: State)
    requires BootstrapReady(st)
    ensures StateRefines(exact, st, Bootstrap(db, st), BootstrapChain(st))
  {
    SameReflexive(exact, st.validators);
    SameReflexive(exact, st.nextValidators);
    if st.lastValidators.Some? {
      SameReflexive(exact, st.lastValidators.value);
    }
    hide Increment, Same, WellFormed;
  }

  // ---------------------------------------------------------------- extending the history

  function ExtendVals(c: Chain, height: int, changed: int, s: ValSet): Chain {
    c.(vals := c.vals[height := s], changes := if changed == height then c.changes + {height} else c.changes)
  }

  function ExtendParams(c: Chain, height: int, changed: int, p: ConsensusParams): Chain {
    c.(params := c.params[height := p],
       paramChanges := if changed == height then c.paramChanges + {height} else c.paramChanges)
  }

  lemma EntryExtends(exact: bool, vals: ValsTable, c: Chain, h: int, height: int, changed: int, s: ValSet, info: ValidatorsInfo)
    requires EntryRefines(exact, vals, c.vals, c.changes, h) && h < height
    ensures
      var c' := ExtendVals(c, height, changed, s);
      EntryRefines(exact, vals[height := info], c'.vals, c'.changes, h)
  {
    LastStoredGap(c.changes, vals[h].changed, h);
  }

  /** Saving one more height keeps the relation. */
  lemma ValsExtend(exact: bool, vals: ValsTable, c: Chain, top: int, changed: int, s: ValSet)
    requires ValsRefine(exact, vals, c, top) && c.valsFrom <= top && top in vals && top in c.vals
    requires changed == top + 1 || changed == vals[top].changed
    requires changed != top + 1 ==> Same(exact, s, Increment(c.vals[top], 1))
    ensures SaveVals(vals, top + 1, changed, s).Ok?
    ensures ValsRefine(exact, SaveVals(vals, top + 1, changed, s).value, ExtendVals(c, top + 1, changed, s), top + 1)
  {
    hide Increment, Same, EntryRefines, Linked;
    var c' := ExtendVals(c, top + 1, changed, s);
    ValsExtendTop(exact, vals, c, top, changed, s);
    var vals' := SaveVals(vals, top + 1, changed, s).value;
    forall h | c'.valsFrom <= h <= top
      ensures EntryRefines(exact, vals', c'.vals, c'.changes, h)
    {
      EntryExtends(exact, vals, c, h, top + 1, changed, s, vals'[top + 1]);
    }
    LinkExtends(exact, c, top, changed, s);
  }

  lemma LinkExtends(exact: bool, c: Chain, top: int, changed: int, s: ValSet)
    requires Linked(exact, c.vals, c.changes) && top in c.vals && (forall h :: h in c.vals ==> h <= top)
    requires changed != top + 1 ==> Same(exact, s, Increment(c.vals[top], 1))
    ensures
      var c' := ExtendVals(c, top + 1, changed, s);
      Linked(exact, c'.vals, c'.changes)
  {
    hide Increment, Same;
  }

  lemma ValsExtendTop(exact: bool, vals: ValsTable, c: Chain, top: int, changed: int, s: ValSet)
    requires ValsRefine(exact, vals, c, top) && c.valsFrom <= top && top in vals && top in c.vals
    requires changed == top + 1 || changed == vals[top].changed
    ensures SaveVals(vals, top + 1, changed, s).Ok?
    ensures
      var c' := ExtendVals(c, top + 1, changed, s);
      EntryRefines(exact, SaveVals(vals, top + 1, changed, s).value, c'.vals, c'.changes, top + 1)
  {
    SameReflexive(exact, s);
    hide Increment, Same, Linked;
    var c' := ExtendVals(c, top + 1, changed, s);
    assert EntryRefines(exact, vals, c.vals, c.changes, top);
    LastStoredGap(c.changes, vals[top].changed, top);
    CheckpointBounds(top + 1);
    assert IsLastChange(c'.changes, changed, top + 1);
    LastStoredGap(c'.changes, changed, top + 1);
    if !StoredInFull(top + 1, changed) {
      assert LastStoredHeight(top + 1, changed) == LastStoredHeight(top, changed);
    }
  }

  lemma ParamsExtend(params: ParamsTable, c: Chain, top: int, changed: int, p: ConsensusParams)
    requires ParamsRefine(params, c, top) && c.paramsFrom <= top && top in params && top in c.params
    requires changed == top + 1 || (changed == params[top].changed && p == c.params[top])
    ensures ParamsRefine(SaveParams(params, top + 1, changed, p), ExtendParams(c, top + 1, changed, p), top + 1)
  {
    var c' := ExtendParams(c, top + 1, changed, p);
    var params' := SaveParams(params, top + 1, changed, p);
    assert ParamEntryRefines(params, c.params, c.paramChanges, top);
    forall h | c'.paramsFrom <= h <= top
      ensures ParamEntryRefines(params', c'.params, c'.paramChanges, h)
    {
      assert ParamEntryRefines(params, c.params, c.paramChanges, h);
    }
  }

  // ---------------------------------------------------------------- applying a block

  function ApplyChain(c: Chain, st: State): Chain {
    var next := NextHeight(st);
    ExtendParams(ExtendVals(c, next + 1, st.valsChanged, st.nextValidators), next, st.paramsChanged, st.params)
  }

  lemma IncrementSame(exact: bool, a: ValSet, b: ValSet)
    requires Same(exact, a, b)
    ensures Same(exact, Increment(a, 1), Increment(b, 1))
  {
    if !exact {
      SameMembersTransitive(Increment(a, 1).validators, a.validators, b.validators);
      SameMembersTransitive(Increment(a, 1).validators, b.validators, Increment(b, 1).validators);
    }
  }

  /** What the rest of the argument needs from an update. */
  lemma UpdateFacts(rules: Rules, st: State, blockID: nat, header: Header, resp: Response)
    requires ValidHeader(st, header) && UpdateState(rules, st, blockID, header, resp).Ok? && st.initialHeight >= 1
    requires st.lastBlockHeight == 0 || st.lastBlockHeight >= st.initialHeight
    ensures
      var st', next := UpdateState(rules, st, blockID, header, resp).value, NextHeight(st);
      && st'.lastBlockHeight == next && NextHeight(st') == next + 1 && st'.initialHeight == st.initialHeight
      && st'.validators == st.nextValidators && st'.lastValidators == Some(st.validators)
      && (st'.valsChanged == next + 2
          || (st'.valsChanged == st.valsChanged && st'.nextValidators == Increment(st.nextValidators, 1)))
      && (st'.paramsChanged == next + 1 || (st'.paramsChanged == st.paramsChanged && st'.params == st.params))
  {
    hide Increment;
  }

  /** Saving cannot fail: a block is refused only by validation or by the update itself. */
  lemma ApplySucceeds(exact: bool, rules: Rules, db: Db, c: Chain, blockID: nat, header: Header, resp: Response)
    requires Refines(exact, db, c) && ValidHeader(db.state.value, header)
    requires UpdateState(rules, db.state.value, blockID, header, resp).Ok?
    ensures ApplyBlock(rules, db, db.state.value, blockID, header, resp).Ok?
  {
    hide *;
    RefinesState(exact, db, c);
    var st := db.state.value;
    UpdateFacts(rules, st, blockID, header, resp);
    SaveNextRefines(exact, db, c, UpdateState(rules, st, blockID, header, resp).value);
    ApplyUnfold(rules, db, st, blockID, header, resp);
  }

  lemma RefinesState(exact: bool, db: Db, c: Chain)
    requires Refines(exact, db, c)
    ensures db.state.Some?
    ensures var st := db.state.value;
            st.initialHeight >= 1 && (st.lastBlockHeight == 0 || st.lastBlockHeight >= st.initialHeight)
  {
  }

  lemma ApplyUnfold(rules: Rules, db: Db, st: State, blockID: nat, header: Header, resp: Response)
    ensures
      var r, u := ApplyBlock(rules, db, st, blockID, header, resp), UpdateState(rules, st, blockID, header, resp);
      r == if ValidHeader(st, header) && u.Ok? then Save(db, u.value) else Err
  {
    hide UpdateState, Save;
  }

  /** Applying a block and saving the new state keeps the relation. */
  lemma ApplyRefines(exact: bool, rules: Rules, db: Db, c: Chain, blockID: nat, header: Header, resp: Response, db': Db)
    requires Refines(exact, db, c)
    requires ApplyBlock(rules, db, db.state.value, blockID, header, resp) == Ok(db')
    ensures db'.state.Some? && Refines(exact, db', ApplyChain(c, db'.state.value))
  {
    hide *;
    RefinesState(exact, db, c);
    var st := db.state.value;
    ApplyUnfold(rules, db, st, blockID, header, resp);
    UpdateFacts(rules, st, blockID, header, resp);
    SaveNextRefines(exact, db, c, UpdateState(rules, st, blockID, header, resp).value);
  }

  /** The set that absorbs the updates of a block, or the set itself if there are none. */
  function Absorbed(rules: Rules, s: ValSet, updates: seq<ValidatorUpdate>): Result<ValSet> {
    if updates == [] then Ok(s) else rules.changeSet(s, updates)
  }

  function AbsorbedParams(rules: Rules, p: ConsensusParams, update: Option<ParamUpdate>, height: int): Result<ConsensusParams> {
    if update.None? then Ok(p) else rules.changeParams(p, update.value, height)
  }

  /** What a block of height h leaves in the history: the set of height h + 1 absorbs the updates and
      rotates once to become that of h + 2, the parameters of h absorb theirs to become those of h + 1,
      a change is recorded exactly where there are updates, and nothing else is touched. */
  predicate HistoryGrows(rules: Rules, c: Chain, c': Chain, base: ValSet, h: int, resp: Response) {
    && h in c.params && Absorbed(rules, base, resp.valUpdates).Ok?
    && AbsorbedParams(rules, c.params[h], resp.paramUpdates, h).Ok?
    && c'.vals == c.vals[h + 2 := Increment(Absorbed(rules, base, resp.valUpdates).value, 1)]
    && c'.changes == c.changes + (if resp.valUpdates == [] then {} else {h + 2})
    && c'.params == c.params[h + 1 := AbsorbedParams(rules, c.params[h], resp.paramUpdates, h).value]
    && c'.paramChanges == c.paramChanges + (if resp.paramUpdates.None? then {} else {h + 1})
    && c'.valsFrom == c.valsFrom && c'.paramsFrom == c.paramsFrom
  }

  /** What the new state says of the block. */
  predicate RecordsBlock(st: State, st': State, blockID: nat, header: Header, resp: Response) {
    && st'.lastBlockHeight == header.height && st'.lastBlockID == blockID && st'.lastBlockTime == header.time
    && st'.lastResultsHash == resp.resultsHash && st'.appHash == resp.appHash
    && st'.chainID == st.chainID && st'.initialHeight == st.initialHeight
    && st'.version == st.version.(app := if resp.paramUpdates.Some? then st'.params.appVersion else st.version.app)
  }

  /** The header continues the state: it is the next one, names the block, the results and the application
      state before it, and is later than the last block unless it is the first. */
  predicate Continues(st: State, header: Header) {
    var next := if st.lastBlockHeight == 0 then st.initialHeight else st.lastBlockHeight + 1;
    && header == Header(next, header.time, st.version.app, st.lastBlockID, st.appHash, st.lastResultsHash)
    && header.time >= st.lastBlockTime && (next > st.initialHeight ==> header.time != st.lastBlockTime)
  }

  /** A block is applied exactly if it continues the state and its updates are absorbed; then the history grows by
      what they give, the state records the block, and the store loads the new set and parameters. */
  lemma ApplyMeans(exact: bool, rules: Rules, db: Db, c: Chain, blockID: nat, header: Header, resp: Response)
    requires Refines(exact, db, c)
    ensures
      var st, h := db.state.value, header.height;
      ApplyBlock(rules, db, st, blockID, header, resp).Ok? <==>
      && Continues(st, header) && Absorbed(rules, st.nextValidators, resp.valUpdates).Ok?
      && AbsorbedParams(rules, st.params, resp.paramUpdates, h).Ok?
    ensures
      var st, h := db.state.value, header.height;
      ApplyBlock(rules, db, st, blockID, header, resp).Ok? ==>
        var db' := ApplyBlock(rules, db, st, blockID, header, resp).value;
        && db'.state.Some? && RecordsBlock(st, db'.state.value, blockID, header, resp)
        && var c' := ApplyChain(c, db'.state.value);
        && Refines(exact, db', c') && HistoryGrows(rules, c, c', st.nextValidators, h, resp)
        && h + 1 in c.vals && Same(exact, st.nextValidators, c.vals[h + 1])
        && LoadValidators(db'.vals, h + 2).Ok?
        && SameMembers(LoadValidators(db'.vals, h + 2).value.validators,
                       Absorbed(rules, st.nextValidators, resp.valUpdates).value.validators)
        && LoadParams(db'.params, h + 1) == AbsorbedParams(rules, c.params[h], resp.paramUpdates, h)
  {
    hide *;
    RefinesState(exact, db, c);
    var st, h := db.state.value, header.height;
    ApplyUnfold(rules, db, st, blockID, header, resp);
    UpdateMeans(rules, st, blockID, header, resp);
    ValidIsNext(st, header);
    if ValidHeader(st, header) && UpdateState(rules, st, blockID, header, resp).Ok? {
      var st' := UpdateState(rules, st, blockID, header, resp).value;
      UpdateFacts(rules, st, blockID, header, resp);
      SaveNextRefines(exact, db, c, st');
      var db', c' := Save(db, st').value, ApplyChain(c, st');
      TopOf(exact, db, c, header);
      ChangedBelow(exact, db, c);
      GrowsBy(rules, c, st, st', header, resp);
      NewTopLoads(exact, db', c', h);
      IncrementKeeps(Absorbed(rules, st.nextValidators, resp.valUpdates).value,
                     LoadValidators(db'.vals, h + 2).value, c'.vals[h + 2]);
    }
  }

  lemma UpdateMeans(rules: Rules, st: State, blockID: nat, header: Header, resp: Response)
    ensures
      var u := UpdateState(rules, st, blockID, header, resp);
      var vals := Absorbed(rules, st.nextValidators, resp.valUpdates);
      var params := AbsorbedParams(rules, st.params, resp.paramUpdates, header.height);
      && (u.Ok? <==> vals.Ok? && params.Ok?)
      && (u.Ok? ==>
            && RecordsBlock(st, u.value, blockID, header, resp)
            && u.value.nextValidators == Increment(vals.value, 1) && u.value.params == params.value
            && u.value.valsChanged == (if resp.valUpdates == [] then st.valsChanged else header.height + 2)
            && u.value.paramsChanged == (if resp.paramUpdates.None? then st.paramsChanged else header.height + 1))
  {
    hide Increment;
  }

  lemma ValidIsNext(st: State, header: Header)
    ensures ValidHeader(st, header) <==> Continues(st, header)
  {
  }

  lemma TopOf(exact: bool, db: Db, c: Chain, header: Header)
    requires Refines(exact, db, c) && ValidHeader(db.state.value, header)
    ensures
      var st, h := db.state.value, header.height;
      && h == NextHeight(st) && h + 1 in c.vals && Same(exact, st.nextValidators, c.vals[h + 1])
      && h in c.params && st.params == c.params[h]
  {
    hide ValsRefine, ParamsRefine, Same;
  }

  lemma ChangedBelow(exact: bool, db: Db, c: Chain)
    requires Refines(exact, db, c)
    ensures
      var st := db.state.value;
      st.valsChanged <= NextHeight(st) + 1 && st.paramsChanged <= NextHeight(st)
  {
    hide Increment, WellFormed, Linked, AnchorRefines, Same;
    var next := NextHeight(db.state.value);
    assert EntryRefines(exact, db.vals, c.vals, c.changes, next + 1);
    assert ParamEntryRefines(db.params, c.params, c.paramChanges, next);
  }

  lemma GrowsBy(rules: Rules, c: Chain, st: State, st': State, header: Header, resp: Response)
    requires
      var vals := Absorbed(rules, st.nextValidators, resp.valUpdates);
      var params := AbsorbedParams(rules, st.params, resp.paramUpdates, header.height);
      && vals.Ok? && params.Ok? && st'.nextValidators == Increment(vals.value, 1) && st'.params == params.value
      && st'.valsChanged == (if resp.valUpdates == [] then st.valsChanged else header.height + 2)
      && st'.paramsChanged == (if resp.paramUpdates.None? then st.paramsChanged else header.height + 1)
    requires NextHeight(st') == header.height + 1 && header.height in c.params && st.params == c.params[header.height]
    requires st.valsChanged <= header.height + 1 && st.paramsChanged <= header.height
    ensures HistoryGrows(rules, c, ApplyChain(c, st'), st.nextValidators, header.height, resp)
    ensures
      var c', h := ApplyChain(c, st'), header.height;
      && h + 2 in c'.vals && c'.vals[h + 2] == Increment(Absorbed(rules, st.nextValidators, resp.valUpdates).value, 1)
      && h + 1 in c'.params && Ok(c'.params[h + 1]) == AbsorbedParams(rules, c.params[h], resp.paramUpdates, h)
  {
    hide Increment, WellFormed;
  }

  lemma NewTopLoads(exact: bool, db: Db, c: Chain, h: int)
    requires Refines(exact, db, c) && NextHeight(db.state.value) == h + 1
    ensures h + 2 in c.vals && LoadValidators(db.vals, h + 2).Ok?
    ensures SameMembers(LoadValidators(db.vals, h + 2).value.validators, c.vals[h + 2].validators)
    ensures h + 1 in c.params && LoadParams(db.params, h + 1) == Ok(c.params[h + 1])
  {
    hide EntryRefines, Increment, SameMembers, LoadValidators, LoadParams, WellFormed;
    WeakerRefines(exact, db.vals, c, h + 2);
    LoadMatches(false, db.vals, c, h + 2, h + 2);
    LoadParamsMatches(db.params, c, h + 1, h + 1);
  }

  lemma IncrementKeeps(s: ValSet, loaded: ValSet, rotated: ValSet)
    requires rotated == Increment(s, 1) && SameMembers(loaded.validators, rotated.validators)
    ensures SameMembers(loaded.validators, s.validators)
  {
  }

  lemma SaveNextRefines(exact: bool, db: Db, c: Chain, st': State)
    requires Refines(exact, db, c)
    requires
      var st := db.state.value;
      var next := NextHeight(st);
      && st'.lastBlockHeight == next && NextHeight(st') == next + 1 && st'.initialHeight == st.initialHeight
      && st'.validators == st.nextValidators && st'.lastValidators == Some(st.validators)
      && (st'.valsChanged == next + 2
          || (st'.valsChanged == st.valsChanged && st'.nextValidators == Increment(st.nextValidators, 1)))
      && (st'.paramsChanged == next + 1 || (st'.paramsChanged == st.paramsChanged && st'.params == st.params))
    ensures Save(db, st').Ok? && Save(db, st').value.state == Some(st')
    ensures Refines(exact, Save(db, st').value, ApplyChain(c, st'))
  {
    hide Increment, WellFormed, SameMembers, Same, ApplyChain, ExtendVals, ExtendParams;
    var st := db.state.value;
    var top := NextHeight(st) + 1;
    assert EntryRefines(exact, db.vals, c.vals, c.changes, top);
    assert ParamEntryRefines(db.params, c.params, c.paramChanges, top - 1);
    IncrementSame(exact, st.nextValidators, c.vals[top]);
    SameReflexive(exact, st'.nextValidators);
    ValsExtend(exact, db.vals, c, top, st'.valsChanged, st'.nextValidators);
    ParamsExtend(db.params, c, top - 1, st'.paramsChanged, st'.params);
    var db' := Save(db, st').value;
    ExtendsIndependent(exact, db', c, top, st');
    ApplyStateRefines(exact, st, st', db, db', c);
  }

  lemma ExtendsIndependent(exact: bool, db: Db, c: Chain, top: int, st: State)
    requires ValsRefine(exact, db.vals, ExtendVals(c, top + 1, st.valsChanged, st.nextValidators), top + 1)
    requires ParamsRefine(db.params, ExtendParams(c, top, st.paramsChanged, st.params), top)
    requires NextHeight(st) == top
    ensures ValsRefine(exact, db.vals, ApplyChain(c, st), top + 1)
    ensures ParamsRefine(db.params, ApplyChain(c, st), top)
  {
    hide Same, EntryRefines, ParamEntryRefines;
  }

  lemma ApplyStateRefines(exact: bool, st: State, st': State, db: Db, db': Db, c: Chain)
    requires db.state == Some(st) && StateRefines(exact, st, db, c)
    requires NextHeight(st') == NextHeight(st) + 1 && st'.initialHeight == st.initialHeight
    requires st'.lastBlockHeight == NextHeight(st)
    requires st'.validators == st.nextValidators && st'.lastValidators == Some(st.validators)
    requires Save(db, st') == Ok(db') && Same(exact, st'.nextValidators, st'.nextValidators)
    ensures StateRefines(exact, st', db', ApplyChain(c, st'))
  {
    hide Same;
  }

  // ---------------------------------------------------------------- pruning

  /** The checkpoint that rebuilds `ev` is kept only when it is also the last checkpoint of `to`.
      This is the one case in which a retained height loses its anchor. */
  predicate PruneLosesAnchor(vals: ValsTable, from: int, to: int, ev: int) {
    && ev < to && ev in vals && vals[ev].full.None?
    && vals[ev].changed < Checkpoint(ev) < Checkpoint(to)
    && from <= Checkpoint(ev)
  }

  /** The lowest height from `h` on that is stored in full, or `bound`. */
  function FirstFull(vals: ValsTable, h: int, bound: int): (f: int)
    requires h <= bound
    ensures h <= f <= bound && (f < bound ==> f in vals && vals[f].full.Some?)
    ensures forall k :: h <= k < f && k in vals ==> vals[k].full.None?
    decreases bound - h
  {
    if h == bound || (h in vals && vals[h].full.Some?) then h else FirstFull(vals, h + 1, bound)
  }

  /** The lowest height whose validators still load after a prune. When the anchor of `ev` goes, the
      heights up to the next one stored in full go with it. */
  function RetainedFrom(vals: ValsTable, from: int, to: int, ev: int): int {
    if PruneLosesAnchor(vals, from, to, ev) then FirstFull(vals, ev, to) else Min(to, ev)
  }

  /** A height that keeps its entry but not the set it is rebuilt from. */
  predicate InLostStretch(vals: ValsTable, from: int, to: int, ev: int, h: int) {
    PruneLosesAnchor(vals, from, to, ev) && ev <= h < FirstFull(vals, ev, to)
  }

  function PruneChain(c: Chain, vals: ValsTable, from: int, to: int, ev: int): Chain {
    c.(valsFrom := Max(c.valsFrom, RetainedFrom(vals, from, to, ev)), paramsFrom := Max(c.paramsFrom, to))
  }

  /** Pruning starts at a retained height and stops at the height being processed at the latest. */
  predicate PruneRange(c: Chain, next: int, from: int, to: int, ev: int) {
    && 0 < from < to <= next
    && c.valsFrom <= from && c.paramsFrom <= from && c.valsFrom <= ev
  }

  lemma LastChangeUnique(changes: set<int>, c: int, d: int, g: int, h: int)
    requires IsLastChange(changes, c, g) && IsLastChange(changes, d, h) && g <= h && d <= g
    ensures c == d
  {
  }

  lemma CheckpointShared(g: int, h: int)
    requires g <= h && Checkpoint(h) <= g
    ensures Checkpoint(g) == Checkpoint(h)
  {
    CheckpointBounds(h);
  }

  /** The height that ends the lost stretch is stored in full, so every height from it on is rebuilt
      from there or above. */
  lemma StretchEnds(exact: bool, vals: ValsTable, c: Chain, top: int, from: int, to: int, ev: int, h: int)
    requires ValsRefine(exact, vals, c, top) && PruneRange(c, top - 1, from, to, ev)
    requires PruneLosesAnchor(vals, from, to, ev) && FirstFull(vals, ev, to) <= h <= top && h in vals
    ensures LastStoredHeight(h, vals[h].changed) >= FirstFull(vals, ev, to)
  {
    hide Increment, Same, Linked, FirstFull;
    var f := FirstFull(vals, ev, to);
    assert EntryRefines(exact, vals, c.vals, c.changes, f) && EntryRefines(exact, vals, c.vals, c.changes, h);
    assert StoredInFull(f, vals[f].changed) by {
      if f == to {
        CheckpointPassed(ev, to);
        assert Checkpoint(to) < to ==> EntryRefines(exact, vals, c.vals, c.changes, Checkpoint(to));
      }
    }
    LastStoredGap(c.changes, vals[h].changed, h);
  }

  lemma CheckpointPassed(ev: int, to: int)
    requires Checkpoint(ev) < Checkpoint(to)
    ensures ev < Checkpoint(to) <= to && Checkpoint(to) % CHECKPOINT_INTERVAL == 0
  {
    CheckpointBounds(ev);
    CheckpointBounds(to);
  }

  /** The heights of the lost stretch are all rebuilt from the checkpoint of `ev`. */
  lemma StretchAnchor(exact: bool, vals: ValsTable, c: Chain, top: int, from: int, to: int, ev: int, h: int)
    requires ValsRefine(exact, vals, c, top) && PruneRange(c, top - 1, from, to, ev) && InLostStretch(vals, from, to, ev, h)
    ensures h in vals && vals[h].full.None? && LastStoredHeight(h, vals[h].changed) == Checkpoint(ev) < ev
  {
    hide Increment, Same, Linked, FirstFull;
    assert EntryRefines(exact, vals, c.vals, c.changes, ev) && EntryRefines(exact, vals, c.vals, c.changes, h);
    var s := LastStoredHeight(h, vals[h].changed);
    CheckpointBounds(ev);
    CheckpointBounds(h);
    LastStoredGap(c.changes, vals[ev].changed, ev);
    LastStoredGap(c.changes, vals[h].changed, h);
    assert s in vals && vals[s].full.Some?;
    assert s < ev;
    assert s == vals[h].changed || s % CHECKPOINT_INTERVAL == 0;
  }

  /** The anchor of a retained height is either untouched or kept. */
  lemma AnchorSurvives(exact: bool, vals: ValsTable, c: Chain, top: int, from: int, to: int, ev: int, h: int)
    requires ValsRefine(exact, vals, c, top) && PruneRange(c, top - 1, from, to, ev)
    requires Min(to, ev) in vals && RetainedFrom(vals, from, to, ev) <= h <= top && h in vals
    ensures
      var s := LastStoredHeight(h, vals[h].changed);
      s < from || to <= s || ev <= s || s in KeepVals(vals, to, ev)
  {
    hide Increment, Same, Linked, FirstFull;
    var e := Min(to, ev);
    if PruneLosesAnchor(vals, from, to, ev) {
      StretchEnds(exact, vals, c, top, from, to, ev, h);
    } else {
      assert EntryRefines(exact, vals, c.vals, c.changes, e) && EntryRefines(exact, vals, c.vals, c.changes, h);
      var s := LastStoredHeight(h, vals[h].changed);
      LastStoredGap(c.changes, vals[h].changed, h);
      if from <= s < e {
        LastChangeUnique(c.changes, vals[e].changed, vals[h].changed, e, h);
        CheckpointShared(e, h);
        LastStoredGap(c.changes, vals[e].changed, e);
        assert vals[e].full.None?;
        if to <= h {
          CheckpointShared(to, h);
        }
      }
    }
  }

  lemma LoadUsesAnchor(vals: ValsTable, vals': ValsTable, h: int)
    requires h in vals && h in vals' && vals'[h] == vals[h]
    requires vals[h].full.None? ==>
               var s := LastStoredHeight(h, vals[h].changed);
               s in vals && s in vals' && vals'[s] == vals[s]
    ensures LoadValidators(vals', h) == LoadValidators(vals, h)
  {
    hide Increment, WellFormed;
  }

  /** A kept height is already stored in full, so pruning does not rewrite it. */
  lemma KeptIsFull(exact: bool, vals: ValsTable, c: Chain, top: int, from: int, to: int, ev: int, h: int)
    requires ValsRefine(exact, vals, c, top) && PruneRange(c, top - 1, from, to, ev) && Min(to, ev) in vals
    requires h in KeepVals(vals, to, ev) && from <= h < to
    ensures h in vals && vals[h].full.Some? && LoadValidators(vals, h).Ok?
  {
    hide Increment, Same, Linked, WellFormed;
    var e := Min(to, ev);
    assert EntryRefines(exact, vals, c.vals, c.changes, e);
    assert EntryRefines(exact, vals, c.vals, c.changes, h);
    CheckpointBounds(to);
    if h == vals[e].changed {
      assert vals[h].changed == h;
    }
  }

  /** Pruning changes nothing a retained height reads, at every height below `from` and from
      min(to, ev) on. */
  lemma PruneKeepsEntry(exact: bool, vals: ValsTable, c: Chain, top: int, from: int, to: int, ev: int, h: int)
    requires ValsRefine(exact, vals, c, top) && PruneRange(c, top - 1, from, to, ev)
    requires Min(to, ev) in vals && h in vals
    requires h < from || to <= h || ev <= h || h in KeepVals(vals, to, ev)
    ensures
      var vals' := PruneVals(vals, KeepVals(vals, to, ev), from, to, ev);
      h in vals' && vals'[h] == vals[h]
  {
    hide Increment;
    if from <= h < to && h in KeepVals(vals, to, ev) {
      KeptIsFull(exact, vals, c, top, from, to, ev, h);
    }
  }

  lemma PruneValsRefine(exact: bool, vals: ValsTable, c: Chain, top: int, from: int, to: int, ev: int)
    requires ValsRefine(exact, vals, c, top) && PruneRange(c, top - 1, from, to, ev)
    ensures Min(to, ev) in vals
    ensures ValsRefine(exact, PruneVals(vals, KeepVals(vals, to, ev), from, to, ev), PruneChain(c, vals, from, to, ev), top)
  {
    hide Increment, Same, WellFormed, PruneVals, KeepVals, FirstFull;
    var e, c' := Min(to, ev), PruneChain(c, vals, from, to, ev);
    assert EntryRefines(exact, vals, c.vals, c.changes, e);
    var vals' := PruneVals(vals, KeepVals(vals, to, ev), from, to, ev);
    forall h | c'.valsFrom <= h <= top
      ensures EntryRefines(exact, vals', c'.vals, c'.changes, h)
    {
      assert EntryRefines(exact, vals, c.vals, c.changes, h);
      PruneKeepsEntry(exact, vals, c, top, from, to, ev, h);
      AnchorSurvives(exact, vals, c, top, from, to, ev, h);
      PruneKeepsEntry(exact, vals, c, top, from, to, ev, LastStoredHeight(h, vals[h].changed));
    }
  }

  lemma KeptParamsIsFull(params: ParamsTable, c: Chain, top: int, from: int, to: int, h: int)
    requires ParamsRefine(params, c, top) && c.paramsFrom <= from < to <= top && to in params
    requires h in KeepParams(params, to) && from <= h < to
    ensures h in params && params[h].full.Some? && LoadParams(params, h).Ok?
  {
    assert ParamEntryRefines(params, c.params, c.paramChanges, to);
  }

  lemma PruneParamsRefine(params: ParamsTable, c: Chain, top: int, vals: ValsTable, from: int, to: int, ev: int)
    requires ParamsRefine(params, c, top) && PruneRange(c, top, from, to, ev)
    ensures to in params
    ensures ParamsRefine(PruneParams(params, KeepParams(params, to), from, to), PruneChain(c, vals, from, to, ev), top)
  {
    hide RetainedFrom;
    var c' := PruneChain(c, vals, from, to, ev);
    assert ParamEntryRefines(params, c.params, c.paramChanges, to);
    var keep := KeepParams(params, to);
    var params' := PruneParams(params, keep, from, to);
    forall h | c'.paramsFrom <= h <= top
      ensures ParamEntryRefines(params', c'.params, c'.paramChanges, h)
    {
      assert ParamEntryRefines(params, c.params, c.paramChanges, h);
      var s := params[h].changed;
      if from <= s < to {
        LastChangeUnique(c.paramChanges, params[to].changed, s, to, h);
        KeptParamsIsFull(params, c, top, from, to, s);
      }
      assert s in params' && params'[s] == params[s];
    }
  }

  lemma PruneStateRefines(exact: bool, db: Db, c: Chain, from: int, to: int, ev: int)
    requires Refines(exact, db, c) && PruneRange(c, NextHeight(db.state.value), from, to, ev)
    requires PruneReady(db, from, to, ev)
    ensures StateRefines(exact, db.state.value, PruneStates(db, from, to, ev), PruneChain(c, db.vals, from, to, ev))
  {
    hide Same, ValsRefine, ParamsRefine, FirstFull;
  }

  /** Pruning always succeeds and keeps the relation: for parameters from `to` on, for validators
      from min(to, ev) on, or past the lost stretch when it loses an anchor. */
  lemma PruneRefines(exact: bool, db: Db, c: Chain, from: int, to: int, ev: int)
    requires Refines(exact, db, c) && PruneRange(c, NextHeight(db.state.value), from, to, ev)
    ensures PruneSucceeds(db, from, to, ev)
    ensures Refines(exact, PruneStates(db, from, to, ev), PruneChain(c, db.vals, from, to, ev))
  {
    hide Same, StateRefines, PruneVals, PruneParams, KeepVals, KeepParams, Increment, PruneChain;
    var top := NextHeight(db.state.value) + 1;
    PruneValsRefine(exact, db.vals, c, top, from, to, ev);
    PruneParamsRefine(db.params, c, top - 1, db.vals, from, to, ev);
    PruneStateRefines(exact, db, c, from, to, ev);
    forall h | h in KeepVals(db.vals, to, ev) && from <= h < to
      ensures LoadValidators(db.vals, h).Ok?
    {
      KeptIsFull(exact, db.vals, c, top, from, to, ev, h);
    }
    forall h | h in KeepParams(db.params, to) && from <= h < to
      ensures LoadParams(db.params, h).Ok?
    {
      KeptParamsIsFull(db.params, c, top - 1, from, to, h);
    }
  }

  /** Every height from `lo` to `top` loads what it loaded before. */
  predicate LoadsUnchanged(vals: ValsTable, vals': ValsTable, lo: int, top: int) {
    forall h :: lo <= h <= top ==> LoadValidators(vals', h) == LoadValidators(vals, h)
  }

  /** A height from min(to, ev) on loads what it loaded before, if and only if it is not in the lost
      stretch; there it no longer loads at all. */
  lemma PruneKeepsLoad(exact: bool, vals: ValsTable, c: Chain, top: int, from: int, to: int, ev: int, h: int)
    requires ValsRefine(exact, vals, c, top) && PruneRange(c, top - 1, from, to, ev) && Min(to, ev) in vals
    requires Min(to, ev) <= h <= top
    ensures
      var after := LoadValidators(PruneVals(vals, KeepVals(vals, to, ev), from, to, ev), h);
      && LoadValidators(vals, h).Ok?
      && (if InLostStretch(vals, from, to, ev, h) then after.Err? else after == LoadValidators(vals, h))
  {
    hide Increment, Same, WellFormed, PruneVals, KeepVals, LoadValidators, FirstFull;
    assert EntryRefines(exact, vals, c.vals, c.changes, h);
    LoadMatches(false, vals, c, top, h) by {
      WeakerRefines(exact, vals, c, top);
    }
    PruneKeepsEntry(exact, vals, c, top, from, to, ev, h);
    if InLostStretch(vals, from, to, ev, h) {
      StretchAnchor(exact, vals, c, top, from, to, ev, h);
      LostLoad(vals, from, to, ev, h);
    } else {
      AnchorSurvives(exact, vals, c, top, from, to, ev, h);
      PruneKeepsEntry(exact, vals, c, top, from, to, ev, LastStoredHeight(h, vals[h].changed));
      LoadUsesAnchor(vals, PruneVals(vals, KeepVals(vals, to, ev), from, to, ev), h);
    }
  }

  lemma LostLoad(vals: ValsTable, from: int, to: int, ev: int, h: int)
    requires PruneLosesAnchor(vals, from, to, ev) && Min(to, ev) in vals && ev <= h
    requires h in vals && vals[h].full.None? && LastStoredHeight(h, vals[h].changed) == Checkpoint(ev) < ev
    ensures LoadValidators(PruneVals(vals, KeepVals(vals, to, ev), from, to, ev), h).Err?
  {
    hide Increment, WellFormed;
    CheckpointBounds(ev);
    assert Checkpoint(ev) !in PruneVals(vals, KeepVals(vals, to, ev), from, to, ev);
  }

  /** Pruning leaves what every height from min(to, ev) on loads unchanged, if and only if it does
      not drop the checkpoint that rebuilds `ev`. */
  lemma PruneKeepsLoadsIff(exact: bool, vals: ValsTable, c: Chain, top: int, from: int, to: int, ev: int)
    requires ValsRefine(exact, vals, c, top) && PruneRange(c, top - 1, from, to, ev) && Min(to, ev) in vals
    ensures LoadsUnchanged(vals, PruneVals(vals, KeepVals(vals, to, ev), from, to, ev), Min(to, ev), top)
            <==> !PruneLosesAnchor(vals, from, to, ev)
  {
    hide Increment, Same, WellFormed, PruneVals, KeepVals, LoadValidators, FirstFull, ValsRefine;
    if PruneLosesAnchor(vals, from, to, ev) {
      StretchStarts(vals, from, to, ev);
      PruneKeepsLoad(exact, vals, c, top, from, to, ev, ev);
    } else {
      forall h | Min(to, ev) <= h <= top
        ensures LoadValidators(PruneVals(vals, KeepVals(vals, to, ev), from, to, ev), h) == LoadValidators(vals, h)
      {
        PruneKeepsLoad(exact, vals, c, top, from, to, ev, h);
      }
    }
  }

  lemma StretchStarts(vals: ValsTable, from: int, to: int, ev: int)
    requires PruneLosesAnchor(vals, from, to, ev)
    ensures InLostStretch(vals, from, to, ev, ev)
  {
  }

  lemma WeakerRefines(exact: bool, vals: ValsTable, c: Chain, top: int)
    requires ValsRefine(exact, vals, c, top)
    ensures ValsRefine(false, vals, c, top)
  {
    hide Increment, WellFormed;
    forall h | c.valsFrom <= h <= top
      ensures EntryRefines(false, vals, c.vals, c.changes, h)
    {
      assert EntryRefines(exact, vals, c.vals, c.changes, h);
    }
  }

  /** Heights below the pruned range are not touched, and neither is anything they point at. */
  lemma PruneLeavesLower(vals: ValsTable, keep: set<int>, from: int, to: int, ev: int, h: int)
    requires h < from && h in vals && vals[h].changed <= h
    ensures LoadValidators(PruneVals(vals, keep, from, to, ev), h) == LoadValidators(vals, h)
  {
    hide Increment, WellFormed, MaterializedVals;
    CheckpointBounds(h);
  }

  lemma PruneKeepsParams(exact: bool, db: Db, c: Chain, from: int, to: int, ev: int, h: int)
    requires Refines(exact, db, c) && PruneRange(c, NextHeight(db.state.value), from, to, ev)
    requires PruneReady(db, from, to, ev) && to <= h <= NextHeight(db.state.value)
    ensures LoadParams(PruneStates(db, from, to, ev).params, h) == LoadParams(db.params, h)
  {
    hide Same, ValsRefine, StateRefines, PruneVals;
    var next := NextHeight(db.state.value);
    PruneParamsRefine(db.params, c, next, db.vals, from, to, ev);
    LoadParamsMatches(db.params, c, next, h);
    LoadParamsMatches(PruneStates(db, from, to, ev).params, PruneChain(c, db.vals, from, to, ev), next, h);
  }
}
