/** Commits and the two ways a validator set checks one: by position, or by address against a
    set that need not be the one that signed. Hashes are the hashed values themselves, and a
    signature names its signer and the message it covers. */
module Commits {
  const MAX_INT64: int := 0x7FFF_FFFF_FFFF_FFFF

  datatype Member = Member(address: nat, power: int)

  /** The part of a validator set its hash covers. */
  type Members = seq<Member>

  datatype Header = Header(
    chainID: nat, height: int, time: int,
    validators: Members,       // the validators hash
    nextValidators: Members,   // the next validators hash
    consensus: nat, app: nat, results: nat,   // consensus, application and last results hashes
    rest: nat)                 // last block ID, data and evidence hashes, proposer

  datatype BlockID = BlockID(hash: Header, parts: nat)

  datatype Flag = Absent | ForBlock | ForNil

  datatype SignBytes = Precommit(chainID: nat, height: int, round: int, blockID: BlockID, time: int)

  datatype Signature = Garbage | Signed(signer: nat, message: SignBytes)

  datatype CommitSig = CommitSig(flag: Flag, address: nat, time: int, sig: Signature)

  datatype Commit = Commit(height: int, round: int, blockID: BlockID, sigs: seq<CommitSig>)

  datatype Fraction = Fraction(num: nat, den: nat)

  datatype Verdict = Accepted | NotEnough(got: int, needed: int) | Rejected

  // ---------------------------------------------------------------- powers

  predicate GoodMembers(vals: Members) {
    && (forall i :: 0 <= i < |vals| ==> vals[i].power > 0)
    && (forall i, j :: 0 <= i < j < |vals| ==> vals[i].address != vals[j].address)
  }

  type MemberSet = vals: Members | GoodMembers(vals) witness []

  /** The power in `vals` of the addresses in `who`. */
  function PowerOf(vals: Members, who: set<nat>): int {
    if vals == [] then 0
    else PowerOf(vals[..|vals| - 1], who) + (if vals[|vals| - 1].address in who then vals[|vals| - 1].power else 0)
  }

  function Total(vals: Members): int {
    if vals == [] then 0 else Total(vals[..|vals| - 1]) + vals[|vals| - 1].power
  }

  function Lookup(vals: Members, address: nat): (i: int)
    ensures -1 <= i < |vals|
    ensures i >= 0 ==> vals[i].address == address
    ensures i < 0 ==> forall j :: 0 <= j < |vals| ==> vals[j].address != address
  {
    if vals == [] then -1
    else if vals[0].address == address then 0
    else var i := Lookup(vals[1..], address); if i < 0 then -1 else i + 1
  }

  // ---------------------------------------------------------------- checking a commit

  /** What is asked of a commit. With `all` every signature for the block is checked; without it the
      check may stop as soon as enough power has signed. */
  datatype Query = Query(vals: MemberSet, chainID: nat, commit: Commit, needed: int, byIndex: bool, all: bool)

  predicate Askable(q: Query) {
    q.byIndex ==> |q.vals| == |q.commit.sigs|
  }

  function VoteBytes(q: Query, i: nat): SignBytes
    requires i < |q.commit.sigs|
  {
    Precommit(q.chainID, q.commit.height, q.commit.round, q.commit.blockID, q.commit.sigs[i].time)
  }

  /** The index of the validator a signature is checked against, or -1. */
  function Checker(q: Query, i: nat): (v: int)
    requires Askable(q) && i < |q.commit.sigs|
    ensures -1 <= v < |q.vals|
  {
    if q.byIndex then i else Lookup(q.vals, q.commit.sigs[i].address)
  }

  predicate ValidSig(q: Query, i: nat, v: int)
    requires i < |q.commit.sigs| && 0 <= v < |q.vals|
  {
    q.commit.sigs[i].sig == Signed(q.vals[v].address, VoteBytes(q, i))
  }

  /** The verdict on the signatures from `i` on: `seen` holds the validators already found by
      address, `got` the power tallied. A batch defers the signature checks to the end, and
      `valid` says whether the ones deferred so far are good. */
  function Scan(q: Query, batch: bool, i: nat, seen: set<int>, got: int, valid: bool): Verdict
    requires Askable(q) && i <= |q.commit.sigs|
    decreases |q.commit.sigs| - i
  {
    if i == |q.commit.sigs| then
      if got <= q.needed then NotEnough(got, q.needed) else if valid then Accepted else Rejected
    else
      var v := Checker(q, i);
      if q.commit.sigs[i].flag != ForBlock || v < 0 then Scan(q, batch, i + 1, seen, got, valid)
      else if !q.byIndex && v in seen then Rejected
      else
        var good := ValidSig(q, i, v);
        var got' := got + q.vals[v].power;
        if !batch && !good then Rejected
        else if !q.all && got' > q.needed then (if valid && good then Accepted else Rejected)
        else Scan(q, batch, i + 1, seen + {v}, got', valid && good)
  }

  function VerdictOf(q: Query, batch: bool): Verdict
    requires Askable(q)
  {
    Scan(q, batch, 0, {}, 0, true)
  }

  /** One signature at a time, leaving as soon as enough power has signed. */
  method VerifyCommitSingle(q: Query) returns (r: Verdict)
    requires Askable(q)
    ensures r == VerdictOf(q, false)
  {
    var got, seen: set<int>, i := 0, {}, 0;
    while i < |q.commit.sigs|
      invariant i <= |q.commit.sigs|
      invariant VerdictOf(q, false) == Scan(q, false, i, seen, got, true)
    {
      var v := Checker(q, i);
      if q.commit.sigs[i].flag != ForBlock || v < 0 {
        i := i + 1;
        continue;
      }
      if !q.byIndex && v in seen {
        return Rejected;
      }
      seen := seen + {v};
      if !ValidSig(q, i, v) {
        return Rejected;
      }
      got := got + q.vals[v].power;
      if !q.all && got > q.needed {
        return Accepted;
      }
      i := i + 1;
    }
    return if got <= q.needed then NotEnough(got, q.needed) else Accepted;
  }

  /** All signatures are collected first, and checked together only when the power suffices. */
  method VerifyCommitBatch(q: Query) returns (r: Verdict)
    requires Askable(q)
    ensures r == VerdictOf(q, true)
  {
    var got, seen: set<int>, i := 0, {}, 0;
    var batched: seq<(nat, int)> := [];
    assert AllValid(q, batched);
    hide AllValid, ValidSig, Checker;
    while i < |q.commit.sigs|
      invariant i <= |q.commit.sigs|
      invariant forall k :: 0 <= k < |batched| ==> batched[k].0 < |q.commit.sigs| && 0 <= batched[k].1 < |q.vals|
      invariant VerdictOf(q, true) == Scan(q, true, i, seen, got, AllValid(q, batched))
    {
      var v := Checker(q, i);
      if q.commit.sigs[i].flag != ForBlock || v < 0 {
        i := i + 1;
        continue;
      }
      if !q.byIndex && v in seen {
        return Rejected;
      }
      seen := seen + {v};
      AllValidGrows(q, batched, i, v);
      batched := batched + [(i, v)];
      got := got + q.vals[v].power;
      i := i + 1;
      if !q.all && got > q.needed {
        break;
      }
    }
    if got <= q.needed {
      return NotEnough(got, q.needed);
    }
    return if AllValid(q, batched) then Accepted else Rejected;
  }

  predicate AllValid(q: Query, batched: seq<(nat, int)>)
    requires forall k :: 0 <= k < |batched| ==> batched[k].0 < |q.commit.sigs| && 0 <= batched[k].1 < |q.vals|
  {
    forall k :: 0 <= k < |batched| ==> ValidSig(q, batched[k].0, batched[k].1)
  }

  lemma AllValidGrows(q: Query, batched: seq<(nat, int)>, i: nat, v: int)
    requires forall k :: 0 <= k < |batched| ==> batched[k].0 < |q.commit.sigs| && 0 <= batched[k].1 < |q.vals|
    requires i < |q.commit.sigs| && 0 <= v < |q.vals|
    ensures AllValid(q, batched + [(i, v)]) <==> AllValid(q, batched) && ValidSig(q, i, v)
  {
    var all := batched + [(i, v)];
    assert all[|batched|] == (i, v);
    assert forall k :: 0 <= k < |batched| ==> all[k] == batched[k];
  }

  // ---------------------------------------------------------------- sums of power

  lemma {:induction false} PowerAdds(vals: MemberSet, who: set<nat>, v: nat)
    requires v < |vals| && vals[v].address !in who
    ensures PowerOf(vals, who + {vals[v].address}) == PowerOf(vals, who) + vals[v].power
  {
    var rest, last := vals[..|vals| - 1], vals[|vals| - 1];
    if v == |rest| {
      PowerIgnores(rest, who, last.address);
    } else {
      assert rest[v] == vals[v];
      PowerAdds(rest, who, v);
    }
  }

  lemma {:induction false} PowerIgnores(vals: Members, who: set<nat>, a: nat)
    requires forall i :: 0 <= i < |vals| ==> vals[i].address != a
    ensures PowerOf(vals, who + {a}) == PowerOf(vals, who)
  {
    if vals != [] {
      PowerIgnores(vals[..|vals| - 1], who, a);
    }
  }

  /** Inclusion and exclusion. */
  lemma {:induction false} PowerUnion(vals: Members, a: set<nat>, b: set<nat>)
    ensures PowerOf(vals, a) + PowerOf(vals, b) == PowerOf(vals, a + b) + PowerOf(vals, a * b)
  {
    if vals != [] {
      PowerUnion(vals[..|vals| - 1], a, b);
    }
  }

  lemma {:induction false} PowerMonotone(vals: MemberSet, a: set<nat>, b: set<nat>)
    requires forall i :: 0 <= i < |vals| && vals[i].address in a ==> vals[i].address in b
    ensures 0 <= PowerOf(vals, a) <= PowerOf(vals, b) <= Total(vals)
  {
    if vals != [] {
      var rest := vals[..|vals| - 1];
      assert forall i :: 0 <= i < |rest| ==> rest[i] == vals[i];
      PowerMonotone(rest, a, b);
    }
  }

  /** Signers that outweigh the faulty validators include a correct one. */
  lemma CorrectSigner(vals: MemberSet, who: set<nat>, faulty: set<nat>) returns (v: nat)
    requires PowerOf(vals, who) > PowerOf(vals, faulty)
    ensures v < |vals| && vals[v].address in who && vals[v].address !in faulty
  {
    if v' :| 0 <= v' < |vals| && vals[v'].address in who && vals[v'].address !in faulty {
      v := v';
    } else {
      PowerMonotone(vals, who, faulty);
      assert false;
    }
  }

  // ---------------------------------------------------------------- what a verdict means

  predicate Counts(q: Query, k: nat)
    requires Askable(q) && k < |q.commit.sigs|
  {
    q.commit.sigs[k].flag == ForBlock && Checker(q, k) >= 0 && ValidSig(q, k, Checker(q, k))
  }

  /** The validators of the set whose valid signature for the block is among the first `n`. */
  function Signers(q: Query, n: nat): set<nat>
    requires Askable(q) && n <= |q.commit.sigs|
  {
    set k | 0 <= k < n && Counts(q, k) :: q.vals[Checker(q, k)].address
  }

  function AllSigners(q: Query): set<nat>
    requires Askable(q)
  {
    Signers(q, |q.commit.sigs|)
  }

  /** The indices found by address among the first `n` signatures. */
  function Found(q: Query, n: nat): set<int>
    requires Askable(q) && n <= |q.commit.sigs|
  {
    set k | 0 <= k < n && q.commit.sigs[k].flag == ForBlock && Checker(q, k) >= 0 :: Checker(q, k)
  }

  /** Among the first `n` signatures none is wrong and no validator signs twice. */
  predicate CleanTo(q: Query, n: nat)
    requires Askable(q) && n <= |q.commit.sigs|
  {
    && (forall k :: 0 <= k < n && q.commit.sigs[k].flag == ForBlock && Checker(q, k) >= 0 ==> Counts(q, k))
    && (forall j, k :: 0 <= j < k < n && Counts(q, j) && Counts(q, k) ==> Checker(q, j) != Checker(q, k))
  }

  predicate Clean(q: Query)
    requires Askable(q)
  {
    CleanTo(q, |q.commit.sigs|)
  }

  lemma SignersStep(q: Query, n: nat)
    requires Askable(q) && n < |q.commit.sigs|
    ensures Signers(q, n + 1)
         == if Counts(q, n) then Signers(q, n) + {q.vals[Checker(q, n)].address} else Signers(q, n)
  {
    hide Checker, ValidSig;
    var who := Signers(q, n + 1);
    assert forall k :: 0 <= k < n && Counts(q, k) ==> q.vals[Checker(q, k)].address in who;
    assert Counts(q, n) ==> q.vals[Checker(q, n)].address in who;
  }

  lemma FoundStep(q: Query, n: nat)
    requires Askable(q) && n < |q.commit.sigs|
    ensures Found(q, n + 1)
         == if q.commit.sigs[n].flag == ForBlock && Checker(q, n) >= 0 then Found(q, n) + {Checker(q, n)} else Found(q, n)
  {
    hide Checker;
    var found := Found(q, n + 1);
    assert forall k :: 0 <= k < n && q.commit.sigs[k].flag == ForBlock && Checker(q, k) >= 0 ==> Checker(q, k) in found;
    assert q.commit.sigs[n].flag == ForBlock && Checker(q, n) >= 0 ==> Checker(q, n) in found;
  }

  /** A validator not found before has not been counted. */
  lemma NotYetCounted(q: Query, n: nat)
    requires Askable(q) && n < |q.commit.sigs| && Checker(q, n) >= 0
    requires q.byIndex || Checker(q, n) !in Found(q, n)
    ensures q.vals[Checker(q, n)].address !in Signers(q, n)
  {
    forall k | 0 <= k < n && Counts(q, k)
      ensures q.vals[Checker(q, k)].address != q.vals[Checker(q, n)].address
    {
      assert Checker(q, k) != Checker(q, n) by {
        if !q.byIndex {
          assert Checker(q, k) in Found(q, n);
        }
      }
    }
  }

  /** An accepted commit is signed by more than the needed power; one that lacks power says how
      much it got. */
  lemma {:induction false} ScanMeans(q: Query, i: nat, seen: set<int>, got: int)
    requires Askable(q) && i <= |q.commit.sigs|
    requires got == PowerOf(q.vals, Signers(q, i)) && seen == Found(q, i)
    ensures
      match Scan(q, false, i, seen, got, true)
      case Accepted => PowerOf(q.vals, AllSigners(q)) > q.needed
      case NotEnough(g, n) => g == PowerOf(q.vals, AllSigners(q)) && n == q.needed && g <= n
      case Rejected => !Clean(q)
    decreases |q.commit.sigs| - i
  {
    hide Signers, Found, PowerOf, Total, Checker, ValidSig, Clean, Lookup, GoodMembers;
    if i < |q.commit.sigs| {
      SignersStep(q, i);
      FoundStep(q, i);
      var v := Checker(q, i);
      if q.commit.sigs[i].flag != ForBlock || v < 0 {
        ScanMeans(q, i + 1, seen, got);
      } else if !q.byIndex && v in seen {
        TwiceFound(q, i);
      } else if !ValidSig(q, i, v) {
        WrongIsUnclean(q, i);
      } else {
        NotYetCounted(q, i);
        PowerAdds(q.vals, Signers(q, i), v);
        if !q.all && got + q.vals[v].power > q.needed {
          SignersMonotone(q, i + 1, |q.commit.sigs|);
          PowerMonotone(q.vals, Signers(q, i + 1), AllSigners(q));
        } else {
          ScanMeans(q, i + 1, seen + {v}, got + q.vals[v].power);
        }
      }
    }
  }

  lemma WrongIsUnclean(q: Query, i: nat)
    requires Askable(q) && i < |q.commit.sigs| && q.commit.sigs[i].flag == ForBlock && Checker(q, i) >= 0
    requires !ValidSig(q, i, Checker(q, i))
    ensures !Clean(q)
  {
    assert !Counts(q, i);
  }

  lemma TwiceFound(q: Query, i: nat)
    requires Askable(q) && i < |q.commit.sigs| && q.commit.sigs[i].flag == ForBlock && Checker(q, i) >= 0
    requires Checker(q, i) in Found(q, i)
    ensures !Clean(q)
  {
    var k :| 0 <= k < i && q.commit.sigs[k].flag == ForBlock && Checker(q, k) == Checker(q, i);
    assert Counts(q, i) && Counts(q, k) ==> !Clean(q);
  }

  lemma SignersMonotone(q: Query, m: nat, n: nat)
    requires Askable(q) && m <= n <= |q.commit.sigs|
    ensures Signers(q, m) <= Signers(q, n)
  {
  }

  /** Acceptance is sound for every commit, and complete for a clean one. */
  lemma AcceptedMeans(q: Query)
    requires Askable(q)
    ensures VerdictOf(q, false).Accepted? ==> PowerOf(q.vals, AllSigners(q)) > q.needed
    ensures VerdictOf(q, false).NotEnough? ==> PowerOf(q.vals, AllSigners(q)) <= q.needed
    ensures Clean(q) ==> (VerdictOf(q, false).Accepted? <==> PowerOf(q.vals, AllSigners(q)) > q.needed)
  {
    assert Signers(q, 0) == {} && Found(q, 0) == {};
    NoPower(q.vals);
    ScanMeans(q, 0, {}, 0);
  }

  /** Checking every signature accepts exactly the clean commits with enough power. */
  lemma AllChecked(q: Query, batch: bool)
    requires Askable(q) && q.all
    ensures VerdictOf(q, batch).Accepted? <==> Clean(q) && PowerOf(q.vals, AllSigners(q)) > q.needed
  {
    hide PowerOf, AllSigners, Scan, GoodMembers;
    BatchAgrees(q);
    AcceptedMeans(q);
    assert Found(q, 0) == {};
    ScanIsClean(q, 0, {}, 0);
  }

  lemma {:induction false} ScanIsClean(q: Query, i: nat, seen: set<int>, got: int)
    requires Askable(q) && q.all && i <= |q.commit.sigs| && seen == Found(q, i) && CleanTo(q, i)
    ensures Scan(q, false, i, seen, got, true).Accepted? ==> Clean(q)
    decreases |q.commit.sigs| - i
  {
    hide Found, Checker, ValidSig, CleanTo, Lookup, GoodMembers;
    if i < |q.commit.sigs| {
      FoundStep(q, i);
      CleanStep(q, i);
      var v := Checker(q, i);
      if q.commit.sigs[i].flag != ForBlock || v < 0 {
        ScanIsClean(q, i + 1, seen, got);
      } else if (q.byIndex || v !in seen) && ValidSig(q, i, v) {
        ScanIsClean(q, i + 1, seen + {v}, got + q.vals[v].power);
      }
    }
  }

  lemma CleanStep(q: Query, i: nat)
    requires Askable(q) && i < |q.commit.sigs| && CleanTo(q, i)
    ensures q.commit.sigs[i].flag != ForBlock || Checker(q, i) < 0 ==> CleanTo(q, i + 1)
    ensures (q.commit.sigs[i].flag == ForBlock && Checker(q, i) >= 0 && ValidSig(q, i, Checker(q, i))
             && (q.byIndex || Checker(q, i) !in Found(q, i))) ==> CleanTo(q, i + 1)
  {
    hide ValidSig, Lookup;
    forall j | 0 <= j < i && Counts(q, j)
      ensures Checker(q, j) in Found(q, i)
    {
    }
  }

  lemma {:induction false} NoPower(vals: Members)
    ensures PowerOf(vals, {}) == 0
  {
    if vals != [] {
      NoPower(vals[..|vals| - 1]);
    }
  }

  /** Batching accepts the same commits. It can only differ by reporting too little power for a
      commit that checking one by one rejects, and never on a clean commit. */
  lemma BatchAgrees(q: Query)
    requires Askable(q)
    ensures VerdictOf(q, true) == VerdictOf(q, false) || (VerdictOf(q, true).NotEnough? && VerdictOf(q, false).Rejected?)
    ensures Clean(q) ==> VerdictOf(q, true) == VerdictOf(q, false)
  {
    ScanAgrees(q, 0, {}, 0);
    AcceptedMeans(q);
    assert Signers(q, 0) == {} && Found(q, 0) == {};
    NoPower(q.vals);
    ScanMeans(q, 0, {}, 0);
  }

  lemma {:induction false} ScanAgrees(q: Query, i: nat, seen: set<int>, got: int)
    requires Askable(q) && i <= |q.commit.sigs|
    ensures
      var b, s := Scan(q, true, i, seen, got, true), Scan(q, false, i, seen, got, true);
      b == s || (b.NotEnough? && s.Rejected?)
    decreases |q.commit.sigs| - i
  {
    if i < |q.commit.sigs| {
      hide Checker, VoteBytes;
      var v := Checker(q, i);
      if q.commit.sigs[i].flag != ForBlock || v < 0 {
        ScanAgrees(q, i + 1, seen, got);
      } else if ValidSig(q, i, v) {
        ScanAgrees(q, i + 1, seen + {v}, got + q.vals[v].power);
      } else {
        SpoiltBatch(q, i + 1, seen + {v}, got + q.vals[v].power);
      }
    }
  }

  lemma {:induction false} SpoiltBatch(q: Query, i: nat, seen: set<int>, got: int)
    requires Askable(q) && i <= |q.commit.sigs|
    ensures !Scan(q, true, i, seen, got, false).Accepted?
    decreases |q.commit.sigs| - i
  {
    if i < |q.commit.sigs| {
      hide Checker, VoteBytes;
      var v := Checker(q, i);
      if q.commit.sigs[i].flag != ForBlock || v < 0 {
        SpoiltBatch(q, i + 1, seen, got);
      } else {
        SpoiltBatch(q, i + 1, seen + {v}, got + q.vals[v].power);
      }
    }
  }

  // ---------------------------------------------------------------- exactly when each verdict is given

  /** The signature is for the block and is checked against a validator of the set. */
  predicate Flagged(q: Query, k: nat)
    requires Askable(q) && k < |q.commit.sigs|
  {
    q.commit.sigs[k].flag == ForBlock && Checker(q, k) >= 0
  }

  /** The validators that the first `n` signatures name, whether they signed or not. */
  function Named(q: Query, n: nat): set<nat>
    requires Askable(q) && n <= |q.commit.sigs|
  {
    set k | 0 <= k < n && Flagged(q, k) :: q.vals[Checker(q, k)].address
  }

  predicate Unrepeated(q: Query, n: nat)
    requires Askable(q) && n <= |q.commit.sigs|
  {
    forall j, k :: 0 <= j < k < n && Flagged(q, j) && Flagged(q, k) ==> Checker(q, j) != Checker(q, k)
  }

  /** Enough power has signed by the time a signature is wrong or repeated; when all are checked, none is. */
  predicate Enough(q: Query)
    requires Askable(q)
  {
    if q.all then Clean(q) && PowerOf(q.vals, AllSigners(q)) > q.needed
    else exists n :: 0 <= n <= |q.commit.sigs| && CleanTo(q, n) && PowerOf(q.vals, Signers(q, n)) > q.needed
  }

  /** Nothing is wrong but the power; a batch that falls short is not checked for wrong signatures. */
  predicate TooFew(q: Query, batch: bool)
    requires Askable(q)
  {
    if batch then Unrepeated(q, |q.commit.sigs|) && PowerOf(q.vals, Named(q, |q.commit.sigs|)) <= q.needed
    else Clean(q) && PowerOf(q.vals, AllSigners(q)) <= q.needed
  }

  /** Both ways of checking accept exactly the commits that carry enough power, and report too little
      exactly on the others that are in order; everything else is rejected. */
  lemma VerdictExactly(q: Query, batch: bool)
    requires Askable(q) && q.needed >= 0
    ensures VerdictOf(q, batch).Accepted? <==> Enough(q)
    ensures VerdictOf(q, batch).NotEnough? <==> TooFew(q, batch)
  {
    assert Signers(q, 0) == {} && Found(q, 0) == {} && Named(q, 0) == {};
    NoPower(q.vals);
    ScanExactly(q, 0, {}, 0);
    if batch {
      BatchAgrees(q);
      BatchShort(q, 0, {}, 0, true);
    }
  }

  lemma {:induction false} ScanExactly(q: Query, i: nat, seen: set<int>, got: int)
    requires Askable(q) && i <= |q.commit.sigs| && CleanTo(q, i)
    requires got == PowerOf(q.vals, Signers(q, i)) && seen == Found(q, i) && (!q.all ==> got <= q.needed)
    ensures Scan(q, false, i, seen, got, true).Accepted? <==> Enough(q)
    ensures Scan(q, false, i, seen, got, true).NotEnough? <==> TooFew(q, false)
    decreases |q.commit.sigs| - i
  {
    hide Signers, Found, PowerOf, Total, Checker, ValidSig, CleanTo, Lookup, GoodMembers, Enough;
    if i == |q.commit.sigs| {
      ShortSoFar(q, i);
    } else {
      SignersStep(q, i);
      FoundStep(q, i);
      CleanStep(q, i);
      var v := Checker(q, i);
      if q.commit.sigs[i].flag != ForBlock || v < 0 {
        ScanExactly(q, i + 1, seen, got);
      } else if (!q.byIndex && v in seen) || !ValidSig(q, i, v) {
        SpoiltAt(q, i);
      } else {
        NotYetCounted(q, i);
        PowerAdds(q.vals, Signers(q, i), v);
        if !q.all && got + q.vals[v].power > q.needed {
          ReachedAt(q, i + 1);
        } else {
          ScanExactly(q, i + 1, seen + {v}, got + q.vals[v].power);
        }
      }
    }
  }

  /** All signatures are in order, and they do not suffice. */
  lemma ShortSoFar(q: Query, i: nat)
    requires Askable(q) && i == |q.commit.sigs| && CleanTo(q, i)
    requires !q.all ==> PowerOf(q.vals, Signers(q, i)) <= q.needed
    ensures Enough(q) <==> q.all && PowerOf(q.vals, Signers(q, i)) > q.needed
  {
    hide PowerOf, CleanTo, Signers, GoodMembers;
    SignersGrow(q, i);
  }

  lemma SignersGrow(q: Query, i: nat)
    requires Askable(q) && i <= |q.commit.sigs|
    ensures forall n :: 0 <= n <= i ==> PowerOf(q.vals, Signers(q, n)) <= PowerOf(q.vals, Signers(q, i))
  {
    forall n | 0 <= n <= i
      ensures PowerOf(q.vals, Signers(q, n)) <= PowerOf(q.vals, Signers(q, i))
    {
      SignersMonotone(q, n, i);
      PowerMonotone(q.vals, Signers(q, n), Signers(q, i));
    }
  }

  /** A wrong or repeated signature before enough power has signed. */
  lemma SpoiltAt(q: Query, i: nat)
    requires Askable(q) && i < |q.commit.sigs| && q.commit.sigs[i].flag == ForBlock && Checker(q, i) >= 0
    requires (!q.byIndex && Checker(q, i) in Found(q, i)) || !ValidSig(q, i, Checker(q, i))
    requires !q.all ==> PowerOf(q.vals, Signers(q, i)) <= q.needed
    ensures !Enough(q) && !Clean(q)
  {
    hide PowerOf, Signers, GoodMembers;
    SignersGrow(q, i);
    forall n | i < n <= |q.commit.sigs|
      ensures !CleanTo(q, n)
    {
      if !ValidSig(q, i, Checker(q, i)) {
        assert !Counts(q, i);
      } else {
        var k :| 0 <= k < i && q.commit.sigs[k].flag == ForBlock && Checker(q, k) == Checker(q, i);
        assert Counts(q, i) && (Counts(q, k) ==> !CleanTo(q, n));
      }
    }
  }

  lemma ReachedAt(q: Query, n: nat)
    requires Askable(q) && n <= |q.commit.sigs| && CleanTo(q, n) && !q.all && PowerOf(q.vals, Signers(q, n)) > q.needed
    ensures Enough(q) && !TooFew(q, false)
  {
    SignersGrow(q, |q.commit.sigs|);
  }

  lemma NamedStep(q: Query, n: nat)
    requires Askable(q) && n < |q.commit.sigs|
    ensures Named(q, n + 1)
         == if Flagged(q, n) then Named(q, n) + {q.vals[Checker(q, n)].address} else Named(q, n)
    ensures Flagged(q, n) && (q.byIndex || Checker(q, n) !in Found(q, n)) ==> q.vals[Checker(q, n)].address !in Named(q, n)
  {
    hide Lookup;
    var who := Named(q, n + 1);
    assert forall k :: 0 <= k < n && Flagged(q, k) ==> q.vals[Checker(q, k)].address in who;
    assert Flagged(q, n) ==> q.vals[Checker(q, n)].address in who;
    forall k | 0 <= k < n && Flagged(q, k)
      ensures Checker(q, k) in Found(q, n)
    {
    }
  }

  lemma NamedGrow(q: Query, m: nat, n: nat)
    requires Askable(q) && m <= n <= |q.commit.sigs|
    ensures PowerOf(q.vals, Named(q, m)) <= PowerOf(q.vals, Named(q, n))
  {
    hide PowerOf;
    assert Named(q, m) <= Named(q, n);
    PowerMonotone(q.vals, Named(q, m), Named(q, n));
  }

  lemma UnrepeatedStep(q: Query, i: nat)
    requires Askable(q) && i < |q.commit.sigs| && Unrepeated(q, i)
    ensures Unrepeated(q, i + 1) <==> !Flagged(q, i) || q.byIndex || Checker(q, i) !in Found(q, i)
    ensures !Unrepeated(q, i + 1) ==> !Unrepeated(q, |q.commit.sigs|)
  {
    hide Lookup;
    forall k | 0 <= k < i && Flagged(q, k)
      ensures Checker(q, k) in Found(q, i)
    {
    }
    if Flagged(q, i) && !q.byIndex && Checker(q, i) in Found(q, i) {
      var k :| 0 <= k < i && q.commit.sigs[k].flag == ForBlock && Checker(q, k) == Checker(q, i);
      assert Flagged(q, k);
    }
  }

  lemma {:induction false} BatchShort(q: Query, i: nat, seen: set<int>, got: int, valid: bool)
    requires Askable(q) && i <= |q.commit.sigs| && Unrepeated(q, i)
    requires got == PowerOf(q.vals, Named(q, i)) && seen == Found(q, i) && (!q.all ==> got <= q.needed)
    ensures Scan(q, true, i, seen, got, valid).NotEnough? <==> TooFew(q, true)
    decreases |q.commit.sigs| - i
  {
    hide Named, Found, PowerOf, Total, Checker, ValidSig, Unrepeated, Lookup, GoodMembers;
    if i < |q.commit.sigs| {
      NamedStep(q, i);
      FoundStep(q, i);
      UnrepeatedStep(q, i);
      var v := Checker(q, i);
      if q.commit.sigs[i].flag != ForBlock || v < 0 {
        BatchShort(q, i + 1, seen, got, valid);
      } else if q.byIndex || v !in seen {
        PowerAdds(q.vals, Named(q, i), v);
        if !q.all && got + q.vals[v].power > q.needed {
          NamedGrow(q, i + 1, |q.commit.sigs|);
        } else {
          BatchShort(q, i + 1, seen + {v}, got + q.vals[v].power, valid && ValidSig(q, i, v));
        }
      }
    }
  }
}
