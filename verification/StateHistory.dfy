/** The compressed store refines the plain history.

    `Chain` is the specification: one validator set and one parameter record per height.
    `Refines` relates it to the store's tables, and every step of the node keeps the relation.
    With `exact` the relation is equality; without it, it is equality up to proposer
    priorities, which holds whatever the priorities do. */
module StateHistory {
  import opened Wrappers
  import opened ValidatorSets
  import opened StateModel

  datatype Chain = Chain(
    vals: map<int, ValSet>,
    changes: set<int>,       // heights at which a validator change was recorded
    valsFrom: int,           // validators are retained from this height on
    params: map<int, ConsensusParams>,
    paramChanges: set<int>,
    paramsFrom: int)

  predicate Same(exact: bool, a: ValSet, b: ValSet) {
    if exact then a == b else SameMembers(a.validators, b.validators)
  }

  /** `c` is the last height up to `h` at which a change was recorded. */
  predicate IsLastChange(changes: set<int>, c: int, h: int) {
    && c in changes && c <= h
    && (forall x :: x in changes && c < x ==> h < x)
  }

  predicate EntryRefines(exact: bool, vals: ValsTable, hist: map<int, ValSet>, changes: set<int>, h: int) {
    && h in vals
    && var info := vals[h];
    && IsLastChange(changes, info.changed, h)
    && (info.full.Some? <==> StoredInFull(h, info.changed))
    && AnchorRefines(exact, vals, hist, LastStoredHeight(h, info.changed), h)
  }

  /** The height `s` that rebuilds `h` is stored in full, and no height in between is missing
      from the history. */
  predicate AnchorRefines(exact: bool, vals: ValsTable, hist: map<int, ValSet>, s: int, h: int) {
    && s in vals && vals[s].full.Some?
    && s in hist && Same(exact, vals[s].full.value, hist[s])
    && (forall j :: s <= j <= h ==> j in hist)
  }

  /** Between changes the history advances by one rotation per height. */
  predicate Linked(exact: bool, hist: map<int, ValSet>, changes: set<int>) {
    forall j :: j in hist && j - 1 in hist && j !in changes ==> Same(exact, hist[j], Increment(hist[j - 1], 1))
  }

  predicate ValsRefine(exact: bool, vals: ValsTable, c: Chain, top: int) {
    && (forall h :: c.valsFrom <= h <= top ==> EntryRefines(exact, vals, c.vals, c.changes, h))
    && (forall x :: x in c.changes ==> x <= top)
    && (forall h :: h in c.vals ==> h <= top)
    && Linked(exact, c.vals, c.changes)
  }

  predicate ParamEntryRefines(params: ParamsTable, hist: map<int, ConsensusParams>, changes: set<int>, h: int) {
    && h in params && h in hist
    && var info := params[h];
    && IsLastChange(changes, info.changed, h)
    && (info.full.Some? <==> h == info.changed)
    && info.changed in params && params[info.changed].full == Some(hist[h])
  }

  predicate ParamsRefine(params: ParamsTable, c: Chain, top: int) {
    && (forall h :: c.paramsFrom <= h <= top ==> ParamEntryRefines(params, c.params, c.paramChanges, h))
    && (forall x :: x in c.paramChanges ==> x <= top)
  }

  /** The in-memory state is the last page of the history. */
  predicate StateRefines(exact: bool, st: State, db: Db, c: Chain) {
    var next := NextHeight(st);
    && st.initialHeight >= 1 && (st.lastBlockHeight == 0 || st.lastBlockHeight >= st.initialHeight)
    && c.valsFrom <= next + 1 && c.paramsFrom <= next
    && next + 1 in c.vals && Same(exact, st.nextValidators, c.vals[next + 1])
    && next in c.vals && Same(exact, st.validators, c.vals[next])
    && (next - 1 in c.vals && st.lastValidators.Some? ==>
          Same(exact, st.lastValidators.value, c.vals[next - 1]))
    && next + 1 in db.vals && st.valsChanged == db.vals[next + 1].changed
    && next in db.params && st.paramsChanged == db.params[next].changed
    && next in c.params && st.params == c.params[next]
  }

  predicate Refines(exact: bool, db: Db, c: Chain) {
    && db.state.Some?
    && var top := NextHeight(db.state.value) + 1;
    && ValsRefine(exact, db.vals, c, top)
    && ParamsRefine(db.params, c, top - 1)
    && StateRefines(exact, db.state.value, db, c)
  }

  /** A height that is never stored in full. */
  predicate Pointer(c: Chain, j: int) {
    j !in c.changes && j % CHECKPOINT_INTERVAL != 0
  }

  /** From `lo` on, no rotation between two heights that are both pointers starts from a set whose
      priorities have to be capped. */
  predicate CalmFrom(c: Chain, lo: int) {
    forall j :: lo <= j && j in c.vals && j + 1 in c.vals && Pointer(c, j) && Pointer(c, j + 1)
      ==> !CapFires(c.vals[j].validators)
  }

  // ---------------------------------------------------------------- reading back the history

  lemma CheckpointBounds(h: int)
    ensures Checkpoint(h) <= h < Checkpoint(h) + CHECKPOINT_INTERVAL
    ensures Checkpoint(h) % CHECKPOINT_INTERVAL == 0
    ensures forall j :: Checkpoint(h) < j <= h ==> j % CHECKPOINT_INTERVAL != 0
    ensures forall j :: Checkpoint(h) <= j <= h ==> Checkpoint(j) == Checkpoint(h)
  {
  }

  lemma LastStoredGap(changes: set<int>, c: int, h: int)
    requires IsLastChange(changes, c, h)
    ensures
      var s := LastStoredHeight(h, c);
      && s <= h && h - s < CHECKPOINT_INTERVAL
      && (s == h <==> StoredInFull(h, c))
      && (forall j :: s < j <= h ==> j !in changes && j % CHECKPOINT_INTERVAL != 0)
  {
    CheckpointBounds(h);
  }

  lemma SameMembersTransitive(a: seq<Validator>, b: seq<Validator>, c: seq<Validator>)
    requires SameMembers(a, b) && SameMembers(b, c)
    ensures SameMembers(a, c)
  {
  }

  lemma SameReflexive(exact: bool, a: ValSet)
    ensures Same(exact, a, a)
  {
  }

  /** Without changes, the history from `s` is the iterated rotation. */
  lemma {:induction false} HistoryIterates(exact: bool, hist: map<int, ValSet>, changes: set<int>, s: int, k: nat)
    requires Linked(exact, hist, changes)
    requires forall j :: s <= j <= s + k ==> j in hist
    requires forall j :: s < j <= s + k ==> j !in changes
    ensures Same(exact, Iterate(hist[s], k), hist[s + k])
  {
    hide Increment;
    if k > 0 {
      HistoryIterates(exact, hist, changes, s, k - 1);
      assert s + k - 1 in hist && s + k in hist;
      assert Same(exact, hist[s + k], Increment(hist[s + k - 1], 1));
      IterateUnfold(hist[s], k);
      hide Iterate;
      assert s + (k - 1) == s + k - 1;
      var prev := Iterate(hist[s], k - 1);
      if !exact {
        SameMembersTransitive(Increment(prev, 1).validators, prev.validators, hist[s + k - 1].validators);
        SameMembersTransitive(Increment(prev, 1).validators, hist[s + k - 1].validators, Increment(hist[s + k - 1], 1).validators);
        SameMembersTransitive(Increment(prev, 1).validators, Increment(hist[s + k - 1], 1).validators, hist[s + k].validators);
      }
    }
  }

  /** A quiet segment of the history can be rebuilt with one call. */
  lemma CalmSegment(c: Chain, lo: int, s: int, h: int)
    requires Linked(true, c.vals, c.changes) && CalmFrom(c, lo) && lo <= s + 1 && s < h
    requires forall j :: s <= j <= h ==> j in c.vals
    requires forall j :: s < j <= h ==> j !in c.changes && j % CHECKPOINT_INTERVAL != 0
    ensures Increment(c.vals[s], h - s) == c.vals[h]
  {
    hide Increment, CapFires, Iterate;
    var v, n := c.vals[s], h - s;
    forall j | 1 <= j < n
      ensures !CapFires(Iterate(v, j).validators)
    {
      HistoryIterates(true, c.vals, c.changes, s, j);
      assert s + j in c.vals && s + j + 1 in c.vals && Pointer(c, s + j) && Pointer(c, s + j + 1);
    }
    assert CapSilent(v, n);
    SilentCapAgrees(v, n);
    assert Increment(v, n) == Iterate(v, n);
    HistoryIterates(true, c.vals, c.changes, s, n);
  }

  /** Every retained height loads, and what is loaded is that height of the history: up to priorities
      always, and exactly if the history is calm from the checkpoint below on. */
  lemma LoadMatches(exact: bool, vals: ValsTable, c: Chain, top: int, h: int)
    requires ValsRefine(exact, vals, c, top) && c.valsFrom <= h <= top
    requires exact ==> CalmFrom(c, Checkpoint(h))
    ensures h in c.vals
    ensures LoadValidators(vals, h).Ok? && Same(exact, LoadValidators(vals, h).value, c.vals[h])
  {
    hide Increment, CapFires, Iterate;
    assert EntryRefines(exact, vals, c.vals, c.changes, h);
    var s := LastStoredHeight(h, vals[h].changed);
    LastStoredGap(c.changes, vals[h].changed, h);
    assert AnchorRefines(exact, vals, c.vals, s, h);
    if s < h {
      if exact {
        CalmSegment(c, Checkpoint(h), s, h);
      } else {
        HistoryIterates(exact, c.vals, c.changes, s, h - s);
        var stored := vals[s].full.value;
        SameMembersTransitive(Increment(stored, h - s).validators, stored.validators, c.vals[s].validators);
        SameMembersTransitive(Increment(stored, h - s).validators, c.vals[s].validators, Iterate(c.vals[s], h - s).validators);
        SameMembersTransitive(Increment(stored, h - s).validators, Iterate(c.vals[s], h - s).validators, c.vals[h].validators);
      }
    }
  }

  /** An entry without a set resolves to a nearby lower height that has one. */
  lemma PointerResolves(exact: bool, vals: ValsTable, c: Chain, top: int, h: int)
    requires ValsRefine(exact, vals, c, top) && c.valsFrom <= h <= top
    requires h in vals && vals[h].full.None?
    ensures
      var s := LastStoredHeight(h, vals[h].changed);
      s in vals && vals[s].full.Some? && 0 < h - s < CHECKPOINT_INTERVAL
  {
    assert EntryRefines(exact, vals, c.vals, c.changes, h);
    LastStoredGap(c.changes, vals[h].changed, h);
  }

  lemma LoadParamsMatches(params: ParamsTable, c: Chain, top: int, h: int)
    requires ParamsRefine(params, c, top) && c.paramsFrom <= h <= top
    ensures h in c.params && LoadParams(params, h) == Ok(c.params[h])
  {
    assert ParamEntryRefines(params, c.params, c.paramChanges, h);
  }

  predicate LoadsExactlyAt(vals: ValsTable, c: Chain, h: int) {
    h in c.vals && LoadValidators(vals, h) == Ok(c.vals[h])
  }

  predicate LoadsExactly(vals: ValsTable, c: Chain, top: int) {
    forall h :: c.valsFrom <= h <= top ==> LoadsExactlyAt(vals, c, h)
  }

  /** The store gives back every retained set with its exact priorities if and only if the lowest
      retained one does and the cap stays silent between the retained pointers. */
  lemma ExactIffCalm(vals: ValsTable, c: Chain, top: int)
    requires ValsRefine(true, vals, c, top) && c.valsFrom <= top
    ensures LoadsExactly(vals, c, top) <==> LoadsExactlyAt(vals, c, c.valsFrom) && CalmFrom(c, c.valsFrom)
  {
    hide Increment, CapFires, LoadValidators, EntryRefines;
    if LoadsExactlyAt(vals, c, c.valsFrom) && CalmFrom(c, c.valsFrom) {
      forall h | c.valsFrom <= h <= top
        ensures LoadsExactlyAt(vals, c, h)
      {
        ExactFromFirst(vals, c, top, h);
      }
    }
    if LoadsExactly(vals, c, top) {
      forall j | c.valsFrom <= j && j in c.vals && j + 1 in c.vals && Pointer(c, j) && Pointer(c, j + 1)
        ensures !CapFires(c.vals[j].validators)
      {
        ExactPairSilencesCap(vals, c, top, j);
      }
    }
  }

  /** A lowest retained height that is stored in full loads exactly, so only the cap decides. */
  lemma FullFirstIsExact(vals: ValsTable, c: Chain, top: int)
    requires ValsRefine(true, vals, c, top) && c.valsFrom <= top && c.valsFrom in vals && vals[c.valsFrom].full.Some?
    ensures LoadsExactlyAt(vals, c, c.valsFrom)
  {
    hide Increment;
    assert EntryRefines(true, vals, c.vals, c.changes, c.valsFrom);
    LastStoredGap(c.changes, vals[c.valsFrom].changed, c.valsFrom);
  }

  /** Two heights with nothing stored in full between the anchor of the higher one and it share
      that anchor. */
  lemma SharedAnchor(vals: ValsTable, c: Chain, top: int, g: int, h: int)
    requires ValsRefine(true, vals, c, top) && c.valsFrom <= g <= h <= top && g in vals && h in vals
    requires LastStoredHeight(h, vals[h].changed) < g
    ensures LastStoredHeight(g, vals[g].changed) == LastStoredHeight(h, vals[h].changed)
  {
    hide Increment, Linked, Same;
    assert EntryRefines(true, vals, c.vals, c.changes, g) && EntryRefines(true, vals, c.vals, c.changes, h);
    LastStoredGap(c.changes, vals[g].changed, g);
    LastStoredGap(c.changes, vals[h].changed, h);
    CheckpointBounds(g);
    CheckpointBounds(h);
  }

  lemma ExactFromFirst(vals: ValsTable, c: Chain, top: int, h: int)
    requires ValsRefine(true, vals, c, top) && c.valsFrom <= h <= top
    requires LoadsExactlyAt(vals, c, c.valsFrom) && CalmFrom(c, c.valsFrom)
    ensures LoadsExactlyAt(vals, c, h)
  {
    hide Increment, CapFires, Linked, CalmFrom;
    var g := c.valsFrom;
    assert EntryRefines(true, vals, c.vals, c.changes, h) && EntryRefines(true, vals, c.vals, c.changes, g);
    var s := LastStoredHeight(h, vals[h].changed);
    LastStoredGap(c.changes, vals[h].changed, h);
    if g <= s < h {
      CalmSegment(c, g, s, h);
    } else if s < g < h {
      SharedAnchor(vals, c, top, g, h);
      LastStoredGap(c.changes, vals[g].changed, g);
      SilentAt(c, g, h);
      IncrementSplits(c.vals[s], g - s, h - g);
      CalmSegment(c, g, g, h);
    }
  }

  lemma SilentAt(c: Chain, g: int, h: int)
    requires CalmFrom(c, g) && g < h && g in c.vals && g + 1 in c.vals && Pointer(c, g) && Pointer(c, g + 1)
    ensures !CapFires(c.vals[g].validators)
  {
  }

  lemma ExactPairSilencesCap(vals: ValsTable, c: Chain, top: int, j: int)
    requires ValsRefine(true, vals, c, top) && LoadsExactly(vals, c, top)
    requires c.valsFrom <= j < top && j in c.vals && Pointer(c, j) && Pointer(c, j + 1)
    ensures !CapFires(c.vals[j].validators)
  {
    hide Increment, CapFires;
    assert EntryRefines(true, vals, c.vals, c.changes, j) && EntryRefines(true, vals, c.vals, c.changes, j + 1);
    var s := LastStoredHeight(j, vals[j].changed);
    LastStoredGap(c.changes, vals[j].changed, j);
    LastStoredGap(c.changes, vals[j + 1].changed, j + 1);
    assert vals[j + 1].changed == vals[j].changed;
    CheckpointBounds(j + 1);
    assert LastStoredHeight(j + 1, vals[j + 1].changed) == s;
    var v, k := c.vals[s], j - s;
    HistoryIterates(true, c.vals, c.changes, s, k);
    HistoryIterates(true, c.vals, c.changes, s, k + 1);
    assert LoadsExactlyAt(vals, c, j) && LoadsExactlyAt(vals, c, j + 1);
    assert LoadValidators(vals, j) == Ok(Increment(v, k)) == Ok(c.vals[j]);
    assert LoadValidators(vals, j + 1) == Ok(Increment(v, k + 1)) == Ok(c.vals[j + 1]);
    AgreementSilencesCap(v, k);
  }
}
