/** Proposer-priority arithmetic of a validator set.

    `Increment(vs, k)` caps the spread of the priorities once, centres them once, and then
    runs k rotation steps. The block executor calls it with k = 1 at every height, while the
    state store rebuilds a missing height with one call for many steps. The two agree exactly
    as long as the cap does not fire in between; this module proves that equivalence. */
module ValidatorSets {

  const PRIORITY_WINDOW_SIZE_FACTOR := 2

  datatype Validator = Validator(address: nat, power: int, priority: int)

  datatype ValidatorSet = ValidatorSet(validators: seq<Validator>, proposer: Validator)

  /** A list of validators the rest of the system accepts: not empty, positive powers,
      no address twice. */
  predicate WellFormed(vals: seq<Validator>) {
    && |vals| > 0
    && (forall i :: 0 <= i < |vals| ==> vals[i].power > 0)
    && (forall i, j :: 0 <= i < j < |vals| ==> vals[i].address != vals[j].address)
  }

  type ValSet = vs: ValidatorSet | WellFormed(vs.validators)
    witness ValidatorSet([Validator(0, 1, 0)], Validator(0, 1, 0))

  /** Same members in the same order with the same powers; priorities may differ. */
  predicate SameMembers(a: seq<Validator>, b: seq<Validator>) {
    && |a| == |b|
    && forall i :: 0 <= i < |a| ==> a[i].address == b[i].address && a[i].power == b[i].power
  }

  function TotalPower(vals: seq<Validator>): int {
    if vals == [] then 0 else TotalPower(vals[..|vals| - 1]) + vals[|vals| - 1].power
  }

  function PrioritySum(vals: seq<Validator>): int {
    if vals == [] then 0 else PrioritySum(vals[..|vals| - 1]) + vals[|vals| - 1].priority
  }

  function MaxPriority(vals: seq<Validator>): (m: int)
    requires vals != []
    ensures forall i :: 0 <= i < |vals| ==> vals[i].priority <= m
    ensures exists i :: 0 <= i < |vals| && vals[i].priority == m
  {
    var last := vals[|vals| - 1].priority;
    if |vals| == 1 then last
    else
      var m := MaxPriority(vals[..|vals| - 1]);
      if last > m then last else m
  }

  function MinPriority(vals: seq<Validator>): (m: int)
    requires vals != []
    ensures forall i :: 0 <= i < |vals| ==> m <= vals[i].priority
    ensures exists i :: 0 <= i < |vals| && vals[i].priority == m
  {
    var last := vals[|vals| - 1].priority;
    if |vals| == 1 then last
    else
      var m := MinPriority(vals[..|vals| - 1]);
      if last < m then last else m
  }

  /** Distance between the highest and the lowest priority. */
  function Spread(vals: seq<Validator>): (d: nat)
    requires vals != []
  {
    MaxPriority(vals) - MinPriority(vals)
  }

  function Window(vals: seq<Validator>): int {
    PRIORITY_WINDOW_SIZE_FACTOR * TotalPower(vals)
  }

  /** Integer division that rounds toward zero. */
  function TruncDiv(x: int, r: int): int
    requires r > 0
  {
    if x >= 0 then x / r else -((-x) / r)
  }

  function MapPriority(vals: seq<Validator>, f: Validator -> int): (r: seq<Validator>)
    ensures SameMembers(r, vals)
    ensures forall i :: 0 <= i < |vals| ==> r[i].priority == f(vals[i])
  {
    seq(|vals|, i requires 0 <= i < |vals| => vals[i].(priority := f(vals[i])))
  }

  function Ratio(vals: seq<Validator>): int
    requires WellFormed(vals)
  {
    TotalPowerPositive(vals);
    (Spread(vals) + Window(vals) - 1) / Window(vals)
  }

  /** True when the priorities are further apart than the window allows. */
  predicate CapFires(vals: seq<Validator>)
    requires WellFormed(vals)
  {
    Spread(vals) > Window(vals)
  }

  function Rescale(vals: seq<Validator>): (r: seq<Validator>)
    requires WellFormed(vals)
    ensures SameMembers(r, vals)
  {
    if CapFires(vals) then
      RatioAtLeastTwo(vals);
      var ratio := Ratio(vals);
      MapPriority(vals, (v: Validator) => if ratio > 0 then TruncDiv(v.priority, ratio) else 0)
    else vals
  }

  function Shift(vals: seq<Validator>): (r: seq<Validator>)
    requires vals != []
    ensures SameMembers(r, vals)
  {
    var avg := PrioritySum(vals) / |vals|;
    MapPriority(vals, (v: Validator) => v.priority - avg)
  }

  function AddPower(vals: seq<Validator>): (r: seq<Validator>)
    ensures SameMembers(r, vals)
  {
    MapPriority(vals, (v: Validator) => v.priority + v.power)
  }

  /** The order in which validators are picked: higher priority first, then lower address. */
  predicate Beats(v: Validator, o: Validator) {
    v.priority > o.priority || (v.priority == o.priority && v.address < o.address)
  }

  /** Index of the validator that beats every other one. */
  function Most(vals: seq<Validator>): (m: nat)
    requires WellFormed(vals)
    ensures m < |vals|
    ensures forall i :: 0 <= i < |vals| && i != m ==> Beats(vals[m], vals[i])
  {
    if |vals| == 1 then 0
    else
      var m := Most(vals[..|vals| - 1]);
      if Beats(vals[m], vals[|vals| - 1]) then m else |vals| - 1
  }

  /** The validator whose turn the next rotation is. */
  function Winner(vals: seq<Validator>): (m: nat)
    requires WellFormed(vals)
    ensures m < |vals|
    ensures forall i :: 0 <= i < |vals| ==>
              vals[i].priority + vals[i].power <= vals[m].priority + vals[m].power
  {
    var b := AddPower(vals);
    var m := Most(b);
    assert forall i :: 0 <= i < |vals| && i != m ==> Beats(b[m], b[i]);
    m
  }

  /** One rotation: everyone gains its power, the winner pays the total. */
  function Step(vals: seq<Validator>): (r: seq<Validator>)
    requires WellFormed(vals)
    ensures SameMembers(r, vals) && WellFormed(r)
    ensures forall i :: 0 <= i < |vals| ==>
              r[i].priority == vals[i].priority + vals[i].power - (if i == Winner(vals) then TotalPower(vals) else 0)
  {
    var b := AddPower(vals);
    var m := Winner(vals);
    b[m := b[m].(priority := b[m].priority - TotalPower(vals))]
  }

  function Steps(vals: seq<Validator>, k: nat): (r: seq<Validator>)
    requires WellFormed(vals)
    ensures SameMembers(r, vals) && WellFormed(r)
  {
    if k == 0 then vals else Step(Steps(vals, k - 1))
  }

  function Centered(vals: seq<Validator>): (r: seq<Validator>)
    requires WellFormed(vals)
    ensures SameMembers(r, vals) && WellFormed(r)
  {
    Shift(Rescale(vals))
  }

  /** k rotations from a capped and centred start; the proposer is the last winner. */
  function Increment(vs: ValSet, k: nat): (r: ValSet)
    requires k > 0
    ensures SameMembers(r.validators, vs.validators)
  {
    var before := Steps(Centered(vs.validators), k - 1);
    var after := Step(before);
    ValidatorSet(after, after[Winner(before)])
  }

  /** What the executor does over k heights without a validator change. */
  function Iterate(vs: ValSet, k: nat): (r: ValSet)
    ensures SameMembers(r.validators, vs.validators)
  {
    if k == 0 then vs else Increment(Iterate(vs, k - 1), 1)
  }

  // ---------------------------------------------------------------- sums

  lemma {:induction false} TotalPowerPositive(vals: seq<Validator>)
    requires WellFormed(vals)
    ensures TotalPower(vals) >= |vals|
    ensures forall i :: 0 <= i < |vals| ==> vals[i].power <= TotalPower(vals) - |vals| + 1
  {
    if |vals| > 1 {
      TotalPowerPositive(vals[..|vals| - 1]);
    } else {
      assert vals[..0] == [];
    }
  }

  lemma {:induction false} TwoPowers(vals: seq<Validator>, i: nat, j: nat)
    requires WellFormed(vals) && i < |vals| && j < |vals| && i != j
    ensures vals[i].power + vals[j].power <= TotalPower(vals)
  {
    var front := vals[..|vals| - 1];
    TotalPowerPositive(front);
    if i < |vals| - 1 && j < |vals| - 1 {
      TwoPowers(front, i, j);
    }
  }

  lemma {:induction false} TotalPowerSameMembers(a: seq<Validator>, b: seq<Validator>)
    requires SameMembers(a, b)
    ensures TotalPower(a) == TotalPower(b)
  {
    if a != [] {
      TotalPowerSameMembers(a[..|a| - 1], b[..|b| - 1]);
    }
  }

  lemma MulStep(c: int, n: int)
    ensures c * n == c * (n - 1) + c
  {
  }

  lemma {:induction false} PrioritySumShifted(a: seq<Validator>, b: seq<Validator>, c: int)
    requires |a| == |b|
    requires forall i :: 0 <= i < |a| ==> b[i].priority == a[i].priority - c
    ensures PrioritySum(b) == PrioritySum(a) - c * |a|
  {
    if a != [] {
      PrioritySumShifted(a[..|a| - 1], b[..|b| - 1], c);
      MulStep(c, |a|);
    }
  }

  lemma {:induction false} PrioritySumAfterRotation(a: seq<Validator>, b: seq<Validator>, m: nat, t: int)
    requires |a| == |b|
    requires forall i :: 0 <= i < |a| ==>
               b[i].priority == a[i].priority + a[i].power - (if i == m then t else 0)
    ensures PrioritySum(b) == PrioritySum(a) + TotalPower(a) - (if m < |a| then t else 0)
  {
    if a != [] {
      PrioritySumAfterRotation(a[..|a| - 1], b[..|b| - 1], m, t);
    }
  }

  lemma {:induction false} PrioritySumBounds(vals: seq<Validator>, lo: int, hi: int)
    requires forall i :: 0 <= i < |vals| ==> lo <= vals[i].priority <= hi
    ensures lo * |vals| <= PrioritySum(vals) <= hi * |vals|
  {
    if vals != [] {
      PrioritySumBounds(vals[..|vals| - 1], lo, hi);
      MulStep(lo, |vals|);
      MulStep(hi, |vals|);
    }
  }

  // ---------------------------------------------------------------- what a step keeps

  /** Priorities centred so that a further shift is the identity. */
  predicate IsCentered(vals: seq<Validator>) {
    0 <= PrioritySum(vals) < |vals|
  }

  lemma StepKeepsSum(vals: seq<Validator>)
    requires WellFormed(vals)
    ensures PrioritySum(Step(vals)) == PrioritySum(vals)
  {
    hide Step, Winner, WellFormed;
    PrioritySumAfterRotation(vals, Step(vals), Winner(vals), TotalPower(vals));
  }

  lemma {:induction false} StepsKeepSum(vals: seq<Validator>, k: nat)
    requires WellFormed(vals)
    ensures PrioritySum(Steps(vals, k)) == PrioritySum(vals)
  {
    hide Step, WellFormed, SameMembers;
    if k > 0 {
      StepsKeepSum(vals, k - 1);
      StepKeepsSum(Steps(vals, k - 1));
    }
  }

  lemma ShiftCenters(vals: seq<Validator>)
    requires vals != []
    ensures IsCentered(Shift(vals))
  {
    var n := |vals|;
    var avg := PrioritySum(vals) / n;
    PrioritySumShifted(vals, Shift(vals), avg);
    assert PrioritySum(vals) == avg * n + PrioritySum(vals) % n;
  }

  lemma ShiftOfCentered(vals: seq<Validator>)
    requires vals != [] && IsCentered(vals)
    ensures Shift(vals) == vals
  {
    assert PrioritySum(vals) / |vals| == 0;
  }

  lemma {:induction false} StepsCompose(vals: seq<Validator>, a: nat, b: nat)
    requires WellFormed(vals)
    ensures Steps(Steps(vals, a), b) == Steps(vals, a + b)
  {
    hide Step, WellFormed, SameMembers;
    if b > 0 {
      StepsCompose(vals, a, b - 1);
      assert a + b - 1 == a + (b - 1);
    }
  }

  lemma IncrementIsCentered(vs: ValSet, k: nat)
    requires k > 0
    ensures Increment(vs, k).validators == Steps(Centered(vs.validators), k)
    ensures IsCentered(Increment(vs, k).validators)
  {
    ShiftCenters(Rescale(vs.validators));
    StepsKeepSum(Centered(vs.validators), k);
  }

  lemma RatioAtLeastTwo(vals: seq<Validator>)
    requires WellFormed(vals) && CapFires(vals)
    ensures Ratio(vals) >= 2
  {
    TotalPowerPositive(vals);
    var w := Window(vals);
    assert w > 0 && Spread(vals) + w - 1 >= 2 * w;
    DivAtLeast(Spread(vals) + w - 1, w, 2);
  }

  lemma MulLess(w: int, a: int, b: int)
    requires w > 0 && w * a < w * b
    ensures a < b
  {
    assert w * (a - b) == w * a - w * b;
    assert a >= b ==> w * (a - b) >= 0;
  }

  lemma DivAtLeast(x: int, w: int, q: int)
    requires w > 0 && x >= w * q
    ensures x / w >= q
  {
    var d := x / w;
    assert x == w * d + x % w;
    assert w * (d + 1) == w * d + w;
    MulLess(w, q, d + 1);
  }

  lemma DivBelow(x: int, w: int, q: int)
    requires w > 0 && x < w * q
    ensures x / w < q
  {
    var d := x / w;
    assert x == w * d + x % w;
    MulLess(w, d, q);
  }

  // ---------------------------------------------------------------- splitting an increment

  /** While the cap stays silent, k + j rotations can be done in two calls. */
  lemma IncrementSplits(vs: ValSet, a: nat, b: nat)
    requires a > 0 && b > 0
    requires !CapFires(Increment(vs, a).validators)
    ensures Increment(Increment(vs, a), b) == Increment(vs, a + b)
  {
    hide *;
    var w := Increment(vs, a).validators;
    var c := Centered(vs.validators);
    IncrementIsCentered(vs, a);
    SilentCapCentered(w);
    StepsCompose(c, a, b - 1);
    IncrementUnfold(Increment(vs, a), b, w);
    IncrementUnfold(vs, a + b, c);
    assert a + b - 1 == a + (b - 1);
  }

  lemma SilentCapCentered(w: seq<Validator>)
    requires WellFormed(w) && IsCentered(w) && !CapFires(w)
    ensures Centered(w) == w
  {
    ShiftOfCentered(w);
  }

  lemma IncrementUnfold(vs: ValSet, k: nat, c: seq<Validator>)
    requires k > 0 && Centered(vs.validators) == c
    ensures WellFormed(c)
    ensures Increment(vs, k) == ValidatorSet(Step(Steps(c, k - 1)), Step(Steps(c, k - 1))[Winner(Steps(c, k - 1))])
  {
  }

  /** Capping keeps the order of the priorities and brings them within the window. */
  lemma RescaleCaps(vals: seq<Validator>)
    requires WellFormed(vals)
    ensures Spread(Rescale(vals)) <= Window(vals)
    ensures forall i, j :: 0 <= i < |vals| && 0 <= j < |vals| && vals[i].priority <= vals[j].priority ==>
              Rescale(vals)[i].priority <= Rescale(vals)[j].priority
    ensures Spread(vals) <= Window(vals) ==> Rescale(vals) == vals
  {
    if CapFires(vals) {
      hide Rescale, Window, WellFormed, TotalPower;
      var capped := Rescale(vals);
      forall i, j | 0 <= i < |vals| && 0 <= j < |vals| && vals[i].priority <= vals[j].priority
        ensures capped[i].priority <= capped[j].priority && capped[j].priority - capped[i].priority <= Window(vals)
      {
        PairCapped(vals, i, j);
      }
      var top :| 0 <= top < |capped| && capped[top].priority == MaxPriority(capped);
      var low :| 0 <= low < |capped| && capped[low].priority == MinPriority(capped);
      if vals[low].priority > vals[top].priority {
        assert capped[top].priority <= capped[low].priority;
      }
      WindowPositive(vals);
    }
  }

  lemma WindowPositive(vals: seq<Validator>)
    requires WellFormed(vals)
    ensures Window(vals) > 0
  {
    TotalPowerPositive(vals);
  }

  lemma PairCapped(vals: seq<Validator>, i: nat, j: nat)
    requires WellFormed(vals) && CapFires(vals) && i < |vals| && j < |vals| && vals[i].priority <= vals[j].priority
    ensures 0 <= Rescale(vals)[j].priority - Rescale(vals)[i].priority <= Window(vals)
  {
    hide TruncDiv, TotalPower;
    RatioAtLeastTwo(vals);
    WindowPositive(vals);
    var r, x, y := Ratio(vals), vals[i].priority, vals[j].priority;
    hide WellFormed, Window;
    RatioCovers(Spread(vals), Window(vals));
    TruncDivApart(y, x, r);
    TruncDivMonotone(x, y, r);
    Shrinks(TruncDiv(y, r) - TruncDiv(x, r), y - x, Spread(vals), r, Window(vals));
  }

  lemma RatioCovers(d: int, w: int)
    requires w > 0
    ensures (d + w - 1) / w * w >= d
  {
  }

  lemma DivMonotone(a: int, b: int, r: int)
    requires r > 0 && 0 <= a <= b
    ensures 0 <= a / r <= b / r
  {
    var p, q := a / r, b / r;
    assert r * p <= a && b < r * q + r;
    assert r * (q + 1) == r * q + r;
    MulLess(r, p, q + 1);
  }

  lemma TruncDivMonotone(x: int, y: int, r: int)
    requires r > 0 && x <= y
    ensures TruncDiv(x, r) <= TruncDiv(y, r)
  {
    if x >= 0 {
      DivMonotone(x, y, r);
    } else if y < 0 {
      DivMonotone(-y, -x, r);
    } else {
      DivMonotone(0, y, r);
      DivMonotone(0, -x, r);
    }
  }

  lemma Shrinks(d': int, d: int, spread: int, r: int, w: int)
    requires r > 0 && r * d' <= d + r - 1 && d <= spread <= r * w
    ensures d' <= w
  {
    assert r * (w + 1) == r * w + r;
    MulLess(r, d', w + 1);
  }

  lemma TruncDivParts(x: int, r: int)
    requires r > 0
    ensures
      var rest := x - r * TruncDiv(x, r);
      if x >= 0 then 0 <= rest < r else -r < rest <= 0
  {
  }

  lemma TruncDivApart(x: int, y: int, r: int)
    requires r > 0 && y <= x
    ensures r * (TruncDiv(x, r) - TruncDiv(y, r)) <= x - y + r - 1
  {
    hide TruncDiv;
    TruncDivParts(x, r);
    TruncDivParts(y, r);
    assert r * (TruncDiv(x, r) - TruncDiv(y, r)) == r * TruncDiv(x, r) - r * TruncDiv(y, r);
  }

  /** The proposer after k rotations is the one who, in the last of them, had the highest priority after
      everybody gained its power, with the lowest address among equals; it alone pays the total. */
  lemma ProposerIsNext(vs: ValSet, k: nat)
    requires k > 0
    ensures
      var before, r := Steps(Centered(vs.validators), k - 1), Increment(vs, k);
      var m := Winner(before);
      && r.proposer == r.validators[m]
      && (forall i :: 0 <= i < |before| ==>
            r.validators[i].priority == before[i].priority + before[i].power - if i == m then TotalPower(before) else 0)
      && (forall i :: 0 <= i < |before| && i != m ==>
            var mine, theirs := before[m].priority + before[m].power, before[i].priority + before[i].power;
            mine > theirs || (mine == theirs && before[m].address < before[i].address))
  {
    hide Centered, Steps, TotalPower;
    var before := Steps(Centered(vs.validators), k - 1);
    var b, m := AddPower(before), Winner(before);
    forall i | 0 <= i < |before| && i != m
      ensures Beats(b[m], b[i])
    {
    }
  }

  lemma CenteredStraddlesZero(vals: seq<Validator>)
    requires vals != [] && IsCentered(vals)
    ensures MinPriority(vals) <= 0 <= MaxPriority(vals)
  {
    if MinPriority(vals) >= 1 {
      PrioritySumBounds(vals, 1, MaxPriority(vals));
    }
    if MaxPriority(vals) <= -1 {
      PrioritySumBounds(vals, MinPriority(vals), -1);
    }
  }

  /** Truncating division of a straddling pair shrinks their distance by the ratio. */
  lemma TruncDivDistance(x: int, y: int, r: int)
    requires r >= 2 && y <= 0 <= x
    ensures x - y - 2 * (r - 1) <= r * (TruncDiv(x, r) - TruncDiv(y, r)) <= x - y
  {
    var p, q := x / r, (-y) / r;
    assert x == r * p + x % r;
    assert -y == r * q + (-y) % r;
    assert TruncDiv(x, r) == p;
    assert TruncDiv(y, r) == -q;
    assert r * (p + q) == r * p + r * q;
  }

  /** When the cap fires on a centred list, the next rotation is not the one without it. */
  lemma CapChangesNextStep(w: seq<Validator>)
    requires WellFormed(w) && IsCentered(w) && CapFires(w)
    ensures Step(Centered(w)) != Step(w)
  {
    hide Step, Centered, CapFires, WellFormed, Winner;
    var top, low := CappedExtremes(w);
    if Step(Centered(w)) == Step(w) {
      NextWinners(w, Centered(w), top, low);
    }
  }

  /** The gap between the extremes after capping is too small for one rotation to explain. */
  lemma CappedExtremes(w: seq<Validator>) returns (top: nat, low: nat)
    requires WellFormed(w) && IsCentered(w) && CapFires(w)
    ensures top < |w| && low < |w| && top != low
    ensures
      var u, t := Centered(w), TotalPower(w);
      var d, d' := w[top].priority - w[low].priority, u[top].priority - u[low].priority;
      d - d' > t && (d - d' == 2 * t ==> d' > t - 2)
  {
    CenteredStraddlesZero(w);
    top :| 0 <= top < |w| && w[top].priority == MaxPriority(w);
    low :| 0 <= low < |w| && w[low].priority == MinPriority(w);
    CappedPair(w, top, low);
  }

  lemma CappedPair(w: seq<Validator>, top: nat, low: nat)
    requires WellFormed(w) && CapFires(w)
    requires top < |w| && w[top].priority == MaxPriority(w) >= 0
    requires low < |w| && w[low].priority == MinPriority(w) <= 0
    ensures top != low
    ensures
      var u, t := Centered(w), TotalPower(w);
      var d, d' := w[top].priority - w[low].priority, u[top].priority - u[low].priority;
      d - d' > t && (d - d' == 2 * t ==> d' > t - 2)
  {
    hide *;
    var r := Ratio(w);
    CapNumbers(w);
    TruncDivDistance(w[top].priority, w[low].priority, r);
    CappedDistance(w, top, low);
    CappedGap(Spread(w), TotalPower(w), r, TruncDiv(w[top].priority, r) - TruncDiv(w[low].priority, r));
  }

  lemma CapNumbers(w: seq<Validator>)
    requires WellFormed(w) && CapFires(w)
    ensures Spread(w) == MaxPriority(w) - MinPriority(w) > 2 * TotalPower(w) > 0
    ensures Ratio(w) == (Spread(w) + 2 * TotalPower(w) - 1) / (2 * TotalPower(w)) >= 2
  {
    TotalPowerPositive(w);
    RatioAtLeastTwo(w);
  }

  lemma CappedDistance(w: seq<Validator>, i: nat, j: nat)
    requires WellFormed(w) && CapFires(w) && i < |w| && j < |w| && Ratio(w) >= 2
    ensures Centered(w)[i].priority - Centered(w)[j].priority
         == TruncDiv(w[i].priority, Ratio(w)) - TruncDiv(w[j].priority, Ratio(w))
  {
  }

  /** If both lists step to the same list, the gap between two members shrinks by at most 2t,
      and by exactly 2t only when the winners are those two. */
  lemma NextWinners(w: seq<Validator>, u: seq<Validator>, i: nat, j: nat)
    requires WellFormed(w) && WellFormed(u) && SameMembers(w, u)
    requires i < |w| && j < |w| && i != j
    requires Step(u) == Step(w)
    ensures
      var shrink := (w[i].priority - w[j].priority) - (u[i].priority - u[j].priority);
      var t := TotalPower(w);
      shrink <= t || (shrink == 2 * t && u[i].priority - u[j].priority <= t - 2)
  {
    hide Step, Winner;
    var t := TotalPower(w);
    TotalPowerSameMembers(u, w);
    TotalPowerPositive(w);
    var next := Step(w);
    assert next[i].priority == Step(u)[i].priority;
    assert next[j].priority == Step(u)[j].priority;
    TwoPowers(w, i, j);
  }

  /** The arithmetic of a capped gap. */
  lemma CappedGap(d: int, t: int, r: int, d': int)
    requires t > 0 && d > 2 * t && r >= 2 && r == (d + 2 * t - 1) / (2 * t)
    requires d - 2 * (r - 1) <= r * d' <= d
    ensures d - d' > t
    ensures d - d' == 2 * t ==> d' > t - 2
  {
    if d' > 0 {
      assert 2 * d' <= r * d' by { assert (r - 2) * d' >= 0; }
    }
    if d - d' == 2 * t && d <= 4 * t {
      DivBelow(d + 2 * t - 1, 2 * t, 3);
    }
  }

  /** Rebuilding any of the n heights after `vs` with one call gives that height's set. */
  ghost predicate Rebuilds(vs: ValSet, n: nat) {
    forall k :: 1 <= k <= n ==> Increment(vs, k) == Iterate(vs, k)
  }

  /** The cap is silent at every height strictly inside the segment of n heights. */
  ghost predicate CapSilent(vs: ValSet, n: nat) {
    forall j :: 1 <= j < n ==> !CapFires(Iterate(vs, j).validators)
  }

  /** One call agrees with the height-by-height history at every height of a segment exactly
      when the cap is silent strictly inside it. */
  lemma IncrementMatchesHistory(vs: ValSet, n: nat)
    ensures Rebuilds(vs, n) <==> CapSilent(vs, n)
  {
    hide Increment, CapFires;
    if CapSilent(vs, n) {
      SilentCapAgrees(vs, n);
    }
    if Rebuilds(vs, n) {
      forall j | 1 <= j < n
        ensures !CapFires(Iterate(vs, j).validators)
      {
        assert Increment(vs, j) == Iterate(vs, j) && Increment(vs, j + 1) == Iterate(vs, j + 1);
        AgreementSilencesCap(vs, j);
      }
    }
  }

  lemma {:induction false} SilentCapAgrees(vs: ValSet, n: nat)
    requires CapSilent(vs, n)
    ensures Rebuilds(vs, n)
  {
    hide Increment, CapFires, Iterate;
    if n > 1 {
      SilentCapAgrees(vs, n - 1);
      IterateUnfold(vs, n);
      IncrementSplits(vs, n - 1, 1);
    } else if n == 1 {
      IterateUnfold(vs, 1);
    }
  }

  lemma IterateUnfold(vs: ValSet, k: nat)
    requires k > 0
    ensures Iterate(vs, k) == Increment(Iterate(vs, k - 1), 1)
    ensures k == 1 ==> Iterate(vs, k - 1) == vs
  {
  }

  lemma AgreementSilencesCap(vs: ValSet, j: nat)
    requires j > 0
    requires Increment(vs, j) == Iterate(vs, j) && Increment(vs, j + 1) == Iterate(vs, j + 1)
    ensures !CapFires(Iterate(vs, j).validators)
  {
    var w := Iterate(vs, j);
    IncrementIsCentered(vs, j);
    IncrementIsCentered(vs, j + 1);
    IncrementIsCentered(w, 1);
    hide Step, Increment, CapFires;
    assert Iterate(vs, j + 1) == Increment(w, 1);
    assert Steps(Centered(vs.validators), j + 1) == Step(w.validators);
    assert Steps(Centered(w.validators), 0) == Centered(w.validators);
    assert Steps(Centered(w.validators), 1) == Step(Centered(w.validators));
    if CapFires(w.validators) {
      CapChangesNextStep(w.validators);
    }
  }

  // ---------------------------------------------------------------- a set on which the cap fires

  const SKEWED: ValSet :=
    ValidatorSet([Validator(0, 1, -28), Validator(1, 10, 14), Validator(2, 10, 14)], Validator(0, 1, -28))

  lemma SkewedNumbers()
    ensures TotalPower(SKEWED.validators) == 21 && PrioritySum(SKEWED.validators) == 0
    ensures !CapFires(SKEWED.validators)
  {
    var v := SKEWED.validators;
    var v1, v2 := [v[0]], [v[0], v[1]];
    assert v1[..0] == [] && v2[..1] == v1 && v[..2] == v2;
    assert TotalPower(v1) == 1 && PrioritySum(v1) == -28;
    assert TotalPower(v2) == 11 && PrioritySum(v2) == -14;
    assert v[0].priority == -28 && v[1].priority == 14 && v[2].priority == 14;
    assert MaxPriority(v) <= 14 && MinPriority(v) >= -28;
  }

  /** Two single increments and one double increment can differ. */
  lemma SplitCanFail()
    ensures Increment(Increment(SKEWED, 1), 1) != Increment(SKEWED, 2)
  {
    hide Step, Increment, CapFires, Iterate;
    SkewedFirst();
    SkewedStep();
    IterateUnfold(SKEWED, 1);
    IterateUnfold(SKEWED, 2);
    IncrementMatchesHistory(SKEWED, 2);
    assert CapFires(Iterate(SKEWED, 1).validators);
    assert !Rebuilds(SKEWED, 2);
  }

  lemma SkewedFirst()
    ensures Increment(SKEWED, 1).validators == Step(SKEWED.validators)
  {
    hide Step, Increment, CapFires, Centered;
    var v := SKEWED.validators;
    SkewedNumbers();
    SilentCapCentered(v);
    IncrementIsCentered(SKEWED, 1);
    assert Steps(v, 0) == v;
    assert Steps(v, 1) == Step(v);
  }

  lemma SkewedStep()
    ensures CapFires(Step(SKEWED.validators))
  {
    var v := SKEWED.validators;
    hide Step;
    SkewedNumbers();
    var w := Step(v);
    TotalPowerSameMembers(w, v);
    assert w[0].priority == -27 && (w[1].priority == 24 || w[2].priority == 24);
  }

  /** The source's loop: rotate `times` times and remember the last winner. */
  method IncrementProposerPriority(vs: ValSet, times: nat) returns (r: ValSet)
    requires times > 0
    ensures r == Increment(vs, times)
  {
    var start := Centered(vs.validators);
    var vals, proposer := start, 0;
    hide Step, Centered, WellFormed, Winner;
    for i := 0 to times
      invariant WellFormed(vals) && vals == Steps(start, i)
      invariant i > 0 ==> proposer == Winner(Steps(start, i - 1))
      invariant proposer < |vals|
    {
      proposer := Winner(vals);
      vals := Step(vals);
    }
    IncrementUnfold(vs, times, start);
    r := ValidatorSet(vals, vals[proposer]);
  }
}
