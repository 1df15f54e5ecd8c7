/** The state store as the source runs it: tables that are overwritten, batches that are
    flushed, and loops over heights. Each method is proved against its specification. */
module StateDb {
  import opened Wrappers
  import opened ValidatorSets
  import opened StateModel
  import opened StateSteps

  /** Pending writes of a batch: a value to set, or nothing for a deletion. */
  type Batch<V> = map<int, Option<V>>

  function Flushed<V>(table: map<int, V>, batch: Batch<V>): map<int, V> {
    map h | h in table.Keys + batch.Keys && (h in batch ==> batch[h].Some?) ::
      if h in batch then batch[h].value else table[h]
  }

  lemma FlushedSet<V>(table: map<int, V>, batch: Batch<V>, h: int, v: V)
    ensures Flushed(table, batch[h := Some(v)]) == Flushed(table, batch)[h := v]
  {
  }

  lemma FlushedDelete<V>(table: map<int, V>, batch: Batch<V>, h: int)
    ensures Flushed(table, batch[h := None]) == Flushed(table, batch) - {h}
  {
  }

  lemma FlushedEmpty<V>(table: map<int, V>)
    ensures Flushed(table, map[]) == table
  {
  }

  /** Pruning one height more. */
  lemma PruneValsDown(vals: ValsTable, keep: set<int>, h: int, to: int, ev: int)
    requires h < to
    ensures
      var upper, lower := PruneVals(vals, keep, h + 1, to, ev), PruneVals(vals, keep, h, to, ev);
      lower == if h in keep then (if h in vals then upper[h := MaterializedVals(vals, h)] else upper)
               else if h < ev then upper - {h} else upper
  {
    hide MaterializedVals;
  }

  lemma PruneParamsDown(params: ParamsTable, keep: set<int>, h: int, to: int)
    requires h < to
    ensures
      var upper, lower := PruneParams(params, keep, h + 1, to), PruneParams(params, keep, h, to);
      lower == if h in keep then (if h in params then upper[h := MaterializedParams(params, h)] else upper)
               else upper - {h}
  {
    hide MaterializedParams;
  }

  lemma PruneNothing(db: Db, to: int, ev: int)
    requires Min(to, ev) in db.vals && to in db.params
    ensures PruneStates(db, to, to, ev) == db
  {
    hide MaterializedVals, MaterializedParams;
  }

  /** Below the pruned range the tables are the original ones, so reads agree. */
  lemma ReadsBelow(db: Db, low: int, to: int, ev: int, h: int)
    requires Min(to, ev) in db.vals && to in db.params && h < low <= to
    requires forall k :: k in db.vals ==> db.vals[k].changed <= k
    requires forall k :: k in db.params ==> db.params[k].changed <= k
    ensures
      var d := PruneStates(db, low, to, ev);
      && (h in d.vals <==> h in db.vals) && (h in db.vals ==> d.vals[h] == db.vals[h])
      && (h in d.params <==> h in db.params) && (h in db.params ==> d.params[h] == db.params[h])
      && LoadValidators(d.vals, h) == LoadValidators(db.vals, h)
      && LoadParams(d.params, h) == LoadParams(db.params, h)
      && (h in db.vals ==> MaterializedVals(d.vals, h) == MaterializedVals(db.vals, h))
      && (h in db.params ==> MaterializedParams(d.params, h) == MaterializedParams(db.params, h))
  {
    hide Increment, WellFormed;
    if h in db.vals {
      PruneLeavesLower(db.vals, KeepVals(db.vals, to, ev), low, to, ev, h);
    }
  }

  class DbStore {
    var vals: ValsTable
    var params: ParamsTable
    var state: Option<State>

    constructor ()
      ensures View() == Db(map[], map[], None)
    {
      vals, params, state := map[], map[], None;
    }

    function View(): Db
      reads this
    {
      Db(vals, params, state)
    }

    method SaveState(st: State) returns (ok: bool)
      modifies this
      ensures ok == Save(old(View()), st).Ok?
      ensures View() == if ok then Save(old(View()), st).value else old(View())
    {
      var batch := vals;
      var nextHeight := st.lastBlockHeight + 1;
      if nextHeight == 1 {
        nextHeight := st.initialHeight;
        batch := batch[nextHeight := ValidatorsInfo(nextHeight, Some(st.validators))];
      }
      if st.valsChanged > nextHeight + 1 {
        return false;
      }
      var full := if StoredInFull(nextHeight + 1, st.valsChanged) then Some(st.nextValidators) else None;
      batch := batch[nextHeight + 1 := ValidatorsInfo(st.valsChanged, full)];
      vals := batch;
      params := SaveParams(params, nextHeight, st.paramsChanged, st.params);
      state := Some(st);
      ok := true;
    }

    method BootstrapState(st: State)
      modifies this
      ensures View() == Bootstrap(old(View()), st)
    {
      var height := st.lastBlockHeight + 1;
      if height == 1 {
        height := st.initialHeight;
      }
      if height > 1 && st.lastValidators.Some? {
        vals := vals[height - 1 := ValidatorsInfo(height - 1, st.lastValidators)];
      }
      vals := vals[height := ValidatorsInfo(height, Some(st.validators))];
      vals := vals[height + 1 := ValidatorsInfo(height + 1, Some(st.nextValidators))];
      params := SaveParams(params, height, st.paramsChanged, st.params);
      state := Some(st);
    }

    method ReadValidators(height: int) returns (r: Result<ValSet>)
      ensures r == LoadValidators(vals, height)
    {
      hide Increment, WellFormed;
      if height !in vals {
        return Err;
      }
      var info := vals[height];
      if info.full.Some? {
        return Ok(info.full.value);
      }
      var stored := LastStoredHeight(height, info.changed);
      if stored !in vals || vals[stored].full.None? || height <= stored {
        return Err;
      }
      var s := IncrementProposerPriority(vals[stored].full.value, height - stored);
      return Ok(s);
    }

    /** The validators part of one loop iteration: keep readable, delete, or leave alone. */
    method PruneValsAt(keep: set<int>, h: int, ev: int, batch: Batch<ValidatorsInfo>)
      returns (ok: bool, batch': Batch<ValidatorsInfo>)
      requires h !in batch
      ensures ok <==> (h in keep ==> LoadValidators(vals, h).Ok?)
      ensures ok && h in keep ==> h in vals && Flushed(vals, batch') == Flushed(vals, batch)[h := MaterializedVals(vals, h)]
      ensures ok && h !in keep ==>
                Flushed(vals, batch') == if h < ev then Flushed(vals, batch) - {h} else Flushed(vals, batch)
      ensures batch'.Keys <= batch.Keys + {h}
    {
      hide Increment, WellFormed;
      ok, batch' := true, batch;
      if h in keep {
        if h !in vals || vals[h].full.None? {
          var read := ReadValidators(h);
          if read.Err? {
            return false, batch;
          }
          FlushedSet(vals, batch, h, ValidatorsInfo(h, Some(read.value)));
          batch' := batch[h := Some(ValidatorsInfo(h, Some(read.value)))];
        }
      } else if h < ev {
        FlushedDelete(vals, batch, h);
        batch' := batch[h := None];
      }
    }

    method PruneParamsAt(keep: set<int>, h: int, batch: Batch<ParamsInfo>)
      returns (ok: bool, batch': Batch<ParamsInfo>)
      requires h !in batch
      ensures ok <==> (h in keep ==> LoadParams(params, h).Ok?)
      ensures ok && h in keep ==>
                h in params && Flushed(params, batch') == Flushed(params, batch)[h := MaterializedParams(params, h)]
      ensures ok && h !in keep ==> Flushed(params, batch') == Flushed(params, batch) - {h}
      ensures batch'.Keys <= batch.Keys + {h}
    {
      ok, batch' := true, batch;
      if h in keep {
        if h !in params {
          return false, batch;
        }
        if params[h].full.None? {
          var read := LoadParams(params, h);
          if read.Err? {
            return false, batch;
          }
          FlushedSet(params, batch, h, ParamsInfo(h, Some(read.value)));
          batch' := batch[h := Some(ParamsInfo(h, Some(read.value)))];
        }
      } else {
        FlushedDelete(params, batch, h);
        batch' := batch[h := None];
      }
    }

    /** Deletes from high to low, flushing every thousand heights. A kept height that cannot be
        read stops the loop; what was flushed before stays pruned. */
    method PruneLoop(from: int, to: int, ev: int, keepVals: set<int>, keepParams: set<int>)
      returns (ok: bool, pruned: nat, ghost low: int)
      requires PointersBack(vals) && ParamPointersBack(params) && from < to && Min(to, ev) in vals && to in params
      requires keepVals == KeepVals(vals, to, ev) && keepParams == KeepParams(params, to)
      modifies this
      ensures from <= low <= to && (low == from || (to - low) % FLUSH_EVERY == 0)
      ensures View() == PruneStates(old(View()), low, to, ev)
      ensures ok ==> pruned == to - from && low == from
      ensures ok <==> && (forall k :: k in keepVals && from <= k < to ==> LoadValidators(old(vals), k).Ok?)
                      && (forall k :: k in keepParams && from <= k < to ==> LoadParams(old(params), k).Ok?)
    {
      hide LoadValidators, LoadParams, PruneVals, PruneParams, KeepVals, KeepParams, Flushed, MaterializedVals,
           MaterializedParams, Increment, WellFormed;
      ghost var db0 := View();
      PruneNothing(db0, to, ev);
      FlushedEmpty(vals);
      FlushedEmpty(params);
      var valsBatch: Batch<ValidatorsInfo>, paramsBatch: Batch<ParamsInfo> := map[], map[];
      var h := to - 1;
      pruned, low := 0, to;
      while h >= from
        invariant from - 1 <= h < low <= to && pruned == to - 1 - h
        invariant (to - low) % FLUSH_EVERY == 0
        invariant state == db0.state
        invariant vals == PruneVals(db0.vals, keepVals, low, to, ev)
        invariant params == PruneParams(db0.params, keepParams, low, to)
        invariant Flushed(vals, valsBatch) == PruneVals(db0.vals, keepVals, h + 1, to, ev)
        invariant Flushed(params, paramsBatch) == PruneParams(db0.params, keepParams, h + 1, to)
        invariant forall k :: k in valsBatch ==> h < k
        invariant forall k :: k in paramsBatch ==> h < k
        invariant forall k :: k in keepVals && h < k < to ==> LoadValidators(db0.vals, k).Ok?
        invariant forall k :: k in keepParams && h < k < to ==> LoadParams(db0.params, k).Ok?
      {
        ReadsBelow(db0, low, to, ev, h);
        PruneValsDown(db0.vals, keepVals, h, to, ev);
        PruneParamsDown(db0.params, keepParams, h, to);
        ok, valsBatch := PruneValsAt(keepVals, h, ev, valsBatch);
        if !ok {
          return;
        }
        ok, paramsBatch := PruneParamsAt(keepParams, h, paramsBatch);
        if !ok {
          return;
        }
        h, pruned := h - 1, pruned + 1;
        if pruned % FLUSH_EVERY == 0 {
          vals, params := Flushed(vals, valsBatch), Flushed(params, paramsBatch);
          valsBatch, paramsBatch := map[], map[];
          FlushedEmpty(vals);
          FlushedEmpty(params);
          low := h + 1;
        }
      }
      vals, params := Flushed(vals, valsBatch), Flushed(params, paramsBatch);
      ok, low := true, from;
    }

    method PruneStatesTo(from: int, to: int, ev: int) returns (r: Result<nat>)
      requires PointersBack(vals) && ParamPointersBack(params)
      modifies this
      ensures r.Ok? <==> PruneSucceeds(old(View()), from, to, ev)
      ensures r.Ok? ==> r.value == to - from && View() == PruneStates(old(View()), from, to, ev)
      ensures !PruneReady(old(View()), from, to, ev) ==> View() == old(View())
      ensures r.Err? && PruneReady(old(View()), from, to, ev) ==>
                exists low :: from <= low <= to && View() == PruneStates(old(View()), low, to, ev)
    {
      hide LoadValidators, LoadParams, PruneStates, KeepVals, KeepParams;
      if from <= 0 || to <= 0 || from >= to || Min(to, ev) !in vals || to !in params {
        return Err;
      }
      var ok, pruned, low := PruneLoop(from, to, ev, KeepVals(vals, to, ev), KeepParams(params, to));
      r := if ok then Ok(pruned) else Err;
    }
  }
}
