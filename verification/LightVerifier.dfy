/** The light client's rules for trusting a new header because of an old one. */
module LightVerifier {
  import opened Commits

  datatype LightBlock = LightBlock(header: Header, commit: Commit, vals: MemberSet, wellFormed: bool)

  datatype Options = Options(trustingPeriod: int, maxClockDrift: int, trustLevel: Fraction, batch: bool)

  datatype Check = Valid | CantBeTrusted | Refused

  /** The trust level lies in [1/3, 1]. */
  predicate ValidTrustLevel(l: Fraction) {
    l.num * 3 >= l.den && l.num <= l.den && l.den != 0
  }

  predicate HeaderExpired(h: Header, trustingPeriod: int, now: int) {
    h.time + trustingPeriod <= now
  }

  /** `wellFormed` stands for the checks of single fields. */
  predicate ValidateBasic(b: LightBlock, chainID: nat) {
    b.wellFormed && b.header.chainID == chainID && b.commit.height == b.header.height && b.commit.blockID.hash == b.header
  }

  predicate NewHeaderAndVals(trusted: LightBlock, untrusted: LightBlock, now: int, maxClockDrift: int) {
    && ValidateBasic(untrusted, trusted.header.chainID)
    && untrusted.header.height > trusted.header.height
    && untrusted.header.time > trusted.header.time
    && untrusted.header.time < now + maxClockDrift
    && untrusted.header.validators == untrusted.vals
  }

  /** More than two thirds of the block's own set, by position. */
  function LightVerdict(chainID: nat, untrusted: LightBlock, all: bool, batch: bool): Verdict {
    if |untrusted.vals| != |untrusted.commit.sigs| || untrusted.header.height != untrusted.commit.height then Rejected
    else VerdictOf(LightQuery(chainID, untrusted, all), batch)
  }

  function LightQuery(chainID: nat, untrusted: LightBlock, all: bool): Query {
    Query(untrusted.vals, chainID, untrusted.commit, Total(untrusted.vals) * 2 / 3, true, all)
  }

  /** More than the trust level of another set, by address. */
  function TrustingVerdict(vals: MemberSet, chainID: nat, untrusted: LightBlock, level: Fraction, all: bool, batch: bool): Verdict {
    if level.den == 0 || Total(vals) * level.num > MAX_INT64 then Rejected
    else VerdictOf(TrustingQuery(vals, chainID, untrusted, level, all), batch)
  }

  function TrustingQuery(vals: MemberSet, chainID: nat, untrusted: LightBlock, level: Fraction, all: bool): Query
    requires level.den != 0
  {
    Query(vals, chainID, untrusted.commit, Total(vals) * level.num / level.den, false, all)
  }

  function VerifyNonAdjacent(o: Options, now: int, trusted: LightBlock, untrusted: LightBlock): Check {
    if untrusted.header.height == trusted.header.height + 1 then Refused
    else if HeaderExpired(trusted.header, o.trustingPeriod, now) then Refused
    else if !NewHeaderAndVals(trusted, untrusted, now, o.maxClockDrift) then Refused
    else match TrustingVerdict(trusted.vals, trusted.header.chainID, untrusted, o.trustLevel, false, o.batch)
      case NotEnough(_, _) => CantBeTrusted
      case Rejected => Refused
      case Accepted => if LightVerdict(trusted.header.chainID, untrusted, false, o.batch).Accepted? then Valid else Refused
  }

  function VerifyAdjacent(o: Options, now: int, trusted: LightBlock, untrusted: LightBlock): Check {
    if untrusted.header.height != trusted.header.height + 1 then Refused
    else if HeaderExpired(trusted.header, o.trustingPeriod, now) then Refused
    else if !NewHeaderAndVals(trusted, untrusted, now, o.maxClockDrift) then Refused
    else if untrusted.header.validators != trusted.header.nextValidators then Refused
    else if LightVerdict(trusted.header.chainID, untrusted, false, o.batch).Accepted? then Valid else Refused
  }

  function Verify(o: Options, now: int, trusted: LightBlock, untrusted: LightBlock): Check {
    if untrusted.header.height != trusted.header.height + 1 then VerifyNonAdjacent(o, now, trusted, untrusted)
    else VerifyAdjacent(o, now, trusted, untrusted)
  }

  // ---------------------------------------------------------------- what verification establishes

  /** The validators of `vals` whose valid signature for the block's header the commit carries. */
  function SignersIn(vals: Members, chainID: nat, b: LightBlock): set<nat> {
    set m, i | 0 <= m < |vals| && 0 <= i < |b.commit.sigs| && SignsBlock(b, chainID, i, vals[m].address)
      :: vals[m].address
  }

  predicate SignsBlock(b: LightBlock, chainID: nat, i: int, address: nat)
    requires 0 <= i < |b.commit.sigs|
  {
    && b.commit.sigs[i].flag == ForBlock
    && b.commit.sigs[i].sig
       == Signed(address, Precommit(chainID, b.commit.height, b.commit.round, b.commit.blockID, b.commit.sigs[i].time))
  }

  /** A share strictly above num/den of the set's power signed the block's own header. */
  predicate SignedAbove(vals: Members, chainID: nat, b: LightBlock, num: int, den: int) {
    PowerOf(vals, SignersIn(vals, chainID, b)) * den > Total(vals) * num
  }

  lemma FloorBelow(total: int, num: int, den: int, got: int)
    requires den > 0 && got > total * num / den
    ensures got * den > total * num
  {
    var d := total * num / den;
    assert total * num < (d + 1) * den;
    MulMonotone(d + 1, got, den);
  }

  lemma MulMonotone(a: int, b: int, c: int)
    requires a <= b && c >= 0
    ensures a * c <= b * c
  {
  }

  lemma QuerySigners(q: Query, b: LightBlock)
    requires Askable(q) && q.commit == b.commit
    ensures PowerOf(q.vals, AllSigners(q)) <= PowerOf(q.vals, SignersIn(q.vals, q.chainID, b))
  {
    forall a | a in AllSigners(q)
      ensures a in SignersIn(q.vals, q.chainID, b)
    {
      var k :| 0 <= k < |q.commit.sigs| && Counts(q, k) && q.vals[Checker(q, k)].address == a;
      assert SignsBlock(b, q.chainID, k, q.vals[Checker(q, k)].address);
    }
    PowerMonotone(q.vals, AllSigners(q), SignersIn(q.vals, q.chainID, b));
  }

  lemma AcceptedSigns(q: Query, batch: bool, b: LightBlock, num: int, den: int)
    requires Askable(q) && q.commit == b.commit && den > 0 && q.needed == Total(q.vals) * num / den
    requires VerdictOf(q, batch).Accepted?
    ensures SignedAbove(q.vals, q.chainID, b, num, den)
  {
    hide PowerOf, Total, SignersIn, AllSigners, Scan, GoodMembers;
    BatchAgrees(q);
    AcceptedMeans(q);
    QuerySigners(q, b);
    FloorBelow(Total(q.vals), num, den, PowerOf(q.vals, SignersIn(q.vals, q.chainID, b)));
  }

  /** What one successful verification says. */
  lemma VerifyMeans(o: Options, now: int, t: LightBlock, u: LightBlock)
    requires Verify(o, now, t, u).Valid?
    ensures u.header.height > t.header.height && t.header.time < u.header.time < now + o.maxClockDrift
    ensures u.header.validators == u.vals && u.commit.blockID.hash == u.header && u.commit.height == u.header.height
    ensures u.header.chainID == t.header.chainID && now < t.header.time + o.trustingPeriod
    ensures SignedAbove(u.vals, t.header.chainID, u, 2, 3)
    ensures if u.header.height == t.header.height + 1 then u.vals == t.header.nextValidators
            else o.trustLevel.den > 0 && SignedAbove(t.vals, t.header.chainID, u, o.trustLevel.num, o.trustLevel.den)
  {
    hide PowerOf, Total, SignedAbove, Scan, GoodMembers;
    AcceptedSigns(LightQuery(t.header.chainID, u, false), o.batch, u, 2, 3);
    if u.header.height != t.header.height + 1 {
      AcceptedSigns(TrustingQuery(t.vals, t.header.chainID, u, o.trustLevel, false), o.batch, u, o.trustLevel.num, o.trustLevel.den);
    }
  }

  // ---------------------------------------------------------------- exactly when a header is accepted

  /** What is asked of the headers alone: the trusted one is within its period, and the new one is well
      formed, of the same chain, later in height and time, not from the future, and names its validators. */
  predicate Plausible(o: Options, now: int, t: LightBlock, u: LightBlock) {
    && now < t.header.time + o.trustingPeriod
    && u.wellFormed && u.header.chainID == t.header.chainID && u.header.validators == u.vals
    && u.commit.height == u.header.height && u.commit.blockID.hash == u.header
    && u.header.height > t.header.height && t.header.time < u.header.time < now + o.maxClockDrift
  }

  /** The signatures of a commit, checked by position or by address, with no threshold. */
  function Asked(vals: MemberSet, chainID: nat, commit: Commit, byIndex: bool): Query {
    Query(vals, chainID, commit, 0, byIndex, false)
  }

  /** More than num/den of the set has signed by the time a signature is wrong or repeated. */
  predicate GoodShare(vals: MemberSet, chainID: nat, commit: Commit, byIndex: bool, num: int, den: int) {
    var q := Asked(vals, chainID, commit, byIndex);
    && Askable(q)
    && exists n :: 0 <= n <= |commit.sigs| && CleanTo(q, n) && PowerOf(vals, Signers(q, n)) * den > Total(vals) * num
  }

  /** Nothing is wrong with the signatures, but they are not worth more than num/den of the set. */
  predicate SmallShare(vals: MemberSet, chainID: nat, commit: Commit, num: int, den: int, batch: bool) {
    var q := Asked(vals, chainID, commit, false);
    if batch then Unrepeated(q, |commit.sigs|) && PowerOf(vals, Named(q, |commit.sigs|)) * den <= Total(vals) * num
    else Clean(q) && PowerOf(vals, AllSigners(q)) * den <= Total(vals) * num
  }

  /** The share to trust can be computed in 64 bits. */
  predicate Computable(vals: Members, level: Fraction) {
    level.den > 0 && Total(vals) * level.num <= 0x7FFF_FFFF_FFFF_FFFF
  }

  lemma Floor(total: int, num: int, den: int, got: int)
    requires den > 0
    ensures got > total * num / den <==> got * den > total * num
  {
    if got > total * num / den {
      FloorBelow(total, num, den, got);
    } else {
      MulMonotone(got, total * num / den, den);
    }
  }

  /** The threshold plays no part in which signatures are good. */
  lemma SameSignatures(q: Query, p: Query, n: nat)
    requires q == p.(needed := q.needed, all := q.all) && Askable(q) && n <= |q.commit.sigs|
    ensures CleanTo(q, n) <==> CleanTo(p, n)
    ensures Signers(q, n) == Signers(p, n) && Named(q, n) == Named(p, n)
    ensures Unrepeated(q, n) <==> Unrepeated(p, n)
  {
    forall k | 0 <= k < |q.commit.sigs|
      ensures Checker(q, k) == Checker(p, k) && (Counts(q, k) <==> Counts(p, k)) && (Flagged(q, k) <==> Flagged(p, k))
    {
    }
  }

  lemma ShareExactly(vals: MemberSet, chainID: nat, commit: Commit, byIndex: bool, num: nat, den: nat, batch: bool)
    requires den > 0 && Askable(Asked(vals, chainID, commit, byIndex))
    ensures
      var q := Query(vals, chainID, commit, Total(vals) * num / den, byIndex, false);
      && (VerdictOf(q, batch).Accepted? <==> GoodShare(vals, chainID, commit, byIndex, num, den))
      && (!byIndex ==> (VerdictOf(q, batch).NotEnough? <==> SmallShare(vals, chainID, commit, num, den, batch)))
  {
    hide PowerOf, Total, Scan, GoodMembers, CleanTo, Signers, Named, Unrepeated, VerdictOf, Checker;
    var p := Asked(vals, chainID, commit, byIndex);
    var q := p.(needed := Total(vals) * num / den);
    TotalNonNegative(vals);
    NonNegative(Total(vals), num, den);
    VerdictExactly(q, batch);
    forall n | 0 <= n <= |commit.sigs|
      ensures CleanTo(q, n) <==> CleanTo(p, n)
      ensures PowerOf(vals, Signers(q, n)) > q.needed <==> PowerOf(vals, Signers(p, n)) * den > Total(vals) * num
    {
      SameSignatures(q, p, n);
      Floor(Total(vals), num, den, PowerOf(vals, Signers(p, n)));
    }
    SameSignatures(q, p, |commit.sigs|);
    Floor(Total(vals), num, den, PowerOf(vals, Named(p, |commit.sigs|)));
  }

  lemma NonNegative(total: int, num: nat, den: nat)
    requires total >= 0 && den > 0
    ensures total * num / den >= 0
  {
    MulMonotone(0, total, num);
  }

  lemma TotalNonNegative(vals: MemberSet)
    ensures Total(vals) >= 0
  {
    PowerMonotone(vals, {}, {});
  }

  /** A header is accepted exactly if it is plausible, more than two thirds of its own set signed it, and
      it is either announced by the header just below or signed by more than the trust level of the
      trusted set. It calls for a header in between exactly if it is plausible, not the next one, and its
      signatures are in order but not worth that trust level. */
  lemma VerifyExactly(o: Options, now: int, t: LightBlock, u: LightBlock)
    ensures
      var next, level := u.header.height == t.header.height + 1, o.trustLevel;
      && (Verify(o, now, t, u).Valid? <==>
            && Plausible(o, now, t, u) && GoodShare(u.vals, t.header.chainID, u.commit, true, 2, 3)
            && (if next then u.vals == t.header.nextValidators
                else Computable(t.vals, level) && GoodShare(t.vals, t.header.chainID, u.commit, false, level.num, level.den)))
      && (Verify(o, now, t, u).CantBeTrusted? <==>
            && !next && Plausible(o, now, t, u) && Computable(t.vals, level)
            && SmallShare(t.vals, t.header.chainID, u.commit, level.num, level.den, o.batch))
  {
    hide PowerOf, Total, Scan, GoodMembers, GoodShare, SmallShare;
    var chainID, level := t.header.chainID, o.trustLevel;
    if |u.vals| == |u.commit.sigs| {
      ShareExactly(u.vals, chainID, u.commit, true, 2, 3, o.batch);
    } else {
      NotAligned(u.vals, chainID, u.commit);
    }
    if level.den > 0 {
      ShareExactly(t.vals, chainID, u.commit, false, level.num, level.den, o.batch);
    }
  }

  lemma NotAligned(vals: MemberSet, chainID: nat, commit: Commit)
    requires |vals| != |commit.sigs|
    ensures !GoodShare(vals, chainID, commit, true, 2, 3)
  {
  }

  // ---------------------------------------------------------------- properly signed blocks

  function Voters(b: LightBlock): set<nat>
    requires |b.vals| == |b.commit.sigs|
  {
    set i | 0 <= i < |b.vals| && b.commit.sigs[i].flag == ForBlock :: b.vals[i].address
  }

  /** A block as validators produce it: those who voted for it signed it under their own address, and
      they hold more than two thirds of its set. */
  predicate ProperBlock(b: LightBlock, chainID: nat) {
    && b.wellFormed && b.header.chainID == chainID && b.header.validators == b.vals
    && b.commit.height == b.header.height && b.commit.blockID.hash == b.header && |b.vals| == |b.commit.sigs|
    && (forall i :: 0 <= i < |b.vals| && b.commit.sigs[i].flag == ForBlock ==>
          b.commit.sigs[i].address == b.vals[i].address && SignsBlock(b, chainID, i, b.vals[i].address))
    && PowerOf(b.vals, Voters(b)) * 3 > Total(b.vals) * 2
  }

  lemma ProperByPosition(b: LightBlock, chainID: nat)
    requires ProperBlock(b, chainID)
    ensures GoodShare(b.vals, chainID, b.commit, true, 2, 3)
  {
    hide PowerOf, Total, GoodMembers;
    var q, n := Asked(b.vals, chainID, b.commit, true), |b.commit.sigs|;
    forall i | 0 <= i < n && b.commit.sigs[i].flag == ForBlock
      ensures Counts(q, i)
    {
      assert SignsBlock(b, chainID, i, b.vals[i].address);
    }
    assert Signers(q, n) == Voters(b);
    assert CleanTo(q, n);
  }

  /** Against any other set nothing is wrong or repeated. */
  lemma ProperByAddress(vals: MemberSet, b: LightBlock, chainID: nat)
    requires ProperBlock(b, chainID)
    ensures
      var q, n := Asked(vals, chainID, b.commit, false), |b.commit.sigs|;
      CleanTo(q, n) && Unrepeated(q, n) && Named(q, n) == Signers(q, n)
  {
    hide PowerOf, Total;
    var q, n := Asked(vals, chainID, b.commit, false), |b.commit.sigs|;
    forall i | 0 <= i < n && Flagged(q, i)
      ensures Counts(q, i)
    {
      assert SignsBlock(b, chainID, i, b.vals[i].address);
    }
    forall j, k | 0 <= j < k < n && Flagged(q, j) && Flagged(q, k)
      ensures Checker(q, j) != Checker(q, k)
    {
      assert b.vals[j].address != b.vals[k].address;
    }
  }

  /** A plausible and properly signed block is never refused; the one just above must be announced. */
  lemma ProperNotRefused(o: Options, now: int, t: LightBlock, u: LightBlock)
    requires Plausible(o, now, t, u) && ProperBlock(u, t.header.chainID) && Computable(t.vals, o.trustLevel)
    requires u.header.height == t.header.height + 1 ==> u.vals == t.header.nextValidators
    ensures !Verify(o, now, t, u).Refused?
  {
    hide PowerOf, Total, Verify, Plausible, ProperBlock, CleanTo, Unrepeated, Named, Signers, GoodMembers;
    VerifyExactly(o, now, t, u);
    ProperByPosition(u, t.header.chainID);
    ProperByAddress(t.vals, u, t.header.chainID);
  }

  /** A header is only ever called untrustable when another one fits in between. */
  lemma CantBeTrustedLeavesRoom(o: Options, now: int, t: LightBlock, u: LightBlock)
    requires Verify(o, now, t, u).CantBeTrusted?
    ensures u.header.height >= t.header.height + 2
  {
  }

  /** Batch verification changes only the classification of a failure. */
  lemma BatchVerifiesSame(o: Options, now: int, t: LightBlock, u: LightBlock)
    ensures Verify(o.(batch := true), now, t, u).Valid? <==> Verify(o.(batch := false), now, t, u).Valid?
    ensures Verify(o.(batch := false), now, t, u).CantBeTrusted? ==> Verify(o.(batch := true), now, t, u).CantBeTrusted?
  {
    hide PowerOf, Total, Scan, GoodMembers;
    if |u.vals| == |u.commit.sigs| {
      BatchAgrees(LightQuery(t.header.chainID, u, false));
    }
    if o.trustLevel.den != 0 {
      BatchAgrees(TrustingQuery(t.vals, t.header.chainID, u, o.trustLevel, false));
    }
  }

  // ---------------------------------------------------------------- the security model

  /** The chain the correct validators agree on, and the validators that are not correct. */
  datatype World = World(canonical: map<int, Header>, faulty: set<nat>)

  predicate Canonical(w: World, b: LightBlock) {
    b.header.height in w.canonical && b.header == w.canonical[b.header.height]
  }

  /** Correct validators sign only canonical headers. */
  predicate CorrectSignCanonical(w: World, b: LightBlock) {
    forall i :: 0 <= i < |b.commit.sigs| && b.commit.sigs[i].sig.Signed? && b.commit.sigs[i].sig.signer !in w.faulty ==>
      var m := b.commit.sigs[i].sig.message;
      m.height in w.canonical && m.blockID.hash == w.canonical[m.height]
  }

  predicate FewFaulty(w: World, vals: Members) {
    PowerOf(vals, w.faulty) * 3 < Total(vals)
  }

  lemma SignedAboveIsCanonical(w: World, vals: MemberSet, chainID: nat, b: LightBlock, num: int, den: int)
    requires SignedAbove(vals, chainID, b, num, den) && num * 3 >= den > 0
    requires FewFaulty(w, vals) && CorrectSignCanonical(w, b)
    requires b.commit.blockID.hash == b.header && b.commit.height == b.header.height
    ensures Canonical(w, b)
  {
    var signers := SignersIn(vals, chainID, b);
    PowerMonotone(vals, w.faulty, w.faulty);
    OutweighFaulty(Total(vals), PowerOf(vals, w.faulty), PowerOf(vals, signers), num, den);
    var v := CorrectSigner(vals, signers, w.faulty);
    var m, i :| 0 <= m < |vals| && 0 <= i < |b.commit.sigs| && SignsBlock(b, chainID, i, vals[m].address)
                && vals[m].address == vals[v].address;
    assert b.commit.sigs[i].sig.signer !in w.faulty;
  }

  lemma OutweighFaulty(total: int, faulty: int, got: int, num: int, den: int)
    requires got * den > total * num && num * 3 >= den > 0 && faulty * 3 < total && total >= 0
    ensures got > faulty
  {
    MulMonotone(den, num * 3, total);
    MulMonotone(3 * faulty, total, den);
    MulCancel(got, faulty, den);
  }

  lemma MulCancel(a: int, b: int, c: int)
    requires c > 0
    ensures a * c > b * c ==> a > b
  {
    if a <= b {
      MulMonotone(a, b, c);
    }
  }

  /** Under a third of the power is faulty in every set a canonical header names. */
  predicate SecureChain(w: World) {
    forall h :: h in w.canonical ==>
      FewFaulty(w, w.canonical[h].validators) && FewFaulty(w, w.canonical[h].nextValidators)
  }

  /** One verified step keeps to the canonical chain, for any trust level in [1/3, 1]. */
  lemma StepIsCanonical(w: World, o: Options, now: int, t: LightBlock, u: LightBlock)
    requires Verify(o, now, t, u).Valid? && ValidTrustLevel(o.trustLevel)
    requires SecureChain(w) && Canonical(w, t) && t.header.validators == t.vals
    requires CorrectSignCanonical(w, u)
    ensures Canonical(w, u) && u.header.validators == u.vals
  {
    hide Verify, FewFaulty, CorrectSignCanonical, SignedAbove;
    VerifyMeans(o, now, t, u);
    if u.header.height == t.header.height + 1 {
      SignedAboveIsCanonical(w, u.vals, t.header.chainID, u, 2, 3);
    } else {
      SignedAboveIsCanonical(w, t.vals, t.header.chainID, u, o.trustLevel.num, o.trustLevel.den);
    }
  }
}
