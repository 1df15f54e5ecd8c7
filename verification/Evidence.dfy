/** Who is to blame for a light client attack. */
module Evidence {
  import opened Wrappers
  import opened Commits
  import opened LightVerifier

  // ---------------------------------------------------------------- ordering by power

  predicate Before(a: Member, b: Member) {
    if a.power == b.power then a.address < b.address else a.power > b.power
  }

  function Insert(m: Member, s: seq<Member>): seq<Member> {
    if s == [] then [m]
    else if Before(s[0], m) then [s[0]] + Insert(m, s[1..])
    else [m] + s
  }

  function ByPower(s: seq<Member>): seq<Member> {
    if s == [] then [] else Insert(s[|s| - 1], ByPower(s[..|s| - 1]))
  }

  /** Higher power first, and among equals the lower address. */
  predicate Ordered(s: seq<Member>) {
    forall i, j :: 0 <= i < j < |s| ==>
      s[i].power > s[j].power || (s[i].power == s[j].power && s[i].address <= s[j].address)
  }

  lemma {:induction false} InsertAdds(m: Member, s: seq<Member>)
    ensures multiset(Insert(m, s)) == multiset(s) + multiset{m}
  {
    hide Before;
    if s != [] {
      assert s == [s[0]] + s[1..];
      if Before(s[0], m) {
        InsertAdds(m, s[1..]);
      }
    }
  }

  lemma OrderedFront(x: Member, s: seq<Member>)
    requires Ordered(s) && forall y :: y in s ==> !Before(y, x)
    ensures Ordered([x] + s)
  {
    forall i | 0 <= i < |s|
      ensures !Before(s[i], x)
    {
      assert s[i] in s;
    }
  }

  lemma {:induction false} InsertOrdered(m: Member, s: seq<Member>)
    requires Ordered(s)
    ensures Ordered(Insert(m, s))
  {
    if s != [] {
      assert s == [s[0]] + s[1..];
      if Before(s[0], m) {
        InsertOrdered(m, s[1..]);
        InsertAdds(m, s[1..]);
        var rest := Insert(m, s[1..]);
        forall x | x in rest
          ensures !Before(x, s[0])
        {
          assert x in multiset(rest);
          assert x in s[1..] || x == m;
        }
        OrderedFront(s[0], rest);
      } else {
        OrderedFront(m, s);
      }
    }
  }

  lemma {:induction false} ByPowerSorts(s: seq<Member>)
    ensures Ordered(ByPower(s)) && multiset(ByPower(s)) == multiset(s)
  {
    if s != [] {
      ByPowerSorts(s[..|s| - 1]);
      InsertOrdered(s[|s| - 1], ByPower(s[..|s| - 1]));
      InsertAdds(s[|s| - 1], ByPower(s[..|s| - 1]));
      assert s == s[..|s| - 1] + [s[|s| - 1]];
    }
  }

  function Sum(s: seq<Member>): int {
    if s == [] then 0 else Sum(s[..|s| - 1]) + s[|s| - 1].power
  }

  lemma {:induction false} SumInsert(m: Member, s: seq<Member>)
    ensures Sum(Insert(m, s)) == Sum(s) + m.power
  {
    if s == [] {
      assert [m][..0] == [];
    } else if Before(s[0], m) {
      SumInsert(m, s[1..]);
      SumFront(s[0], Insert(m, s[1..]));
      SumFront(s[0], s[1..]);
      assert s == [s[0]] + s[1..];
    } else {
      SumFront(m, s);
    }
  }

  lemma {:induction false} SumFront(m: Member, s: seq<Member>)
    ensures Sum([m] + s) == m.power + Sum(s)
  {
    if s == [] {
      assert ([m] + s)[..0] == [];
      assert Sum([m] + s) == Sum(([m] + s)[..0]) + m.power;
    } else {
      SumFront(m, s[..|s| - 1]);
      assert ([m] + s)[..|s|] == [m] + s[..|s| - 1];
    }
  }

  lemma {:induction false} SumByPower(s: seq<Member>)
    ensures Sum(ByPower(s)) == Sum(s)
  {
    if s != [] {
      SumByPower(s[..|s| - 1]);
      SumInsert(s[|s| - 1], ByPower(s[..|s| - 1]));
    }
  }

  // ---------------------------------------------------------------- collecting the culprits

  predicate ConflictingHeaderIsInvalid(trusted: Header, conflicting: Header) {
    || trusted.validators != conflicting.validators
    || trusted.nextValidators != conflicting.nextValidators
    || trusted.consensus != conflicting.consensus
    || trusted.app != conflicting.app
    || trusted.results != conflicting.results
  }

  /** The common validators that voted for the header, among the first `n` signatures. */
  function Lunatics(common: MemberSet, sigs: seq<CommitSig>, n: nat): seq<Member>
    requires n <= |sigs|
  {
    if n == 0 then []
    else
      var rest, v := Lunatics(common, sigs, n - 1), Lookup(common, sigs[n - 1].address);
      if sigs[n - 1].flag != ForBlock || v < 0 then rest else rest + [common[v]]
  }

  /** The validators that voted for both headers; nothing if one of them cannot be resolved. */
  function Equivocators(vals: MemberSet, a: seq<CommitSig>, b: seq<CommitSig>, n: nat): Option<seq<Member>>
    requires n <= |a|
  {
    if n == 0 then Some([])
    else
      var rest := Equivocators(vals, a, b, n - 1);
      if rest.None? || a[n - 1].flag != ForBlock then rest
      else if n - 1 >= |b| then None
      else if b[n - 1].flag != ForBlock then rest
      else var v := Lookup(vals, a[n - 1].address); if v < 0 then None else Some(rest.value + [vals[v]])
  }

  /** The conflicting header is what a proposer could have made of the trusted state: it differs at most
      in chain, height, time and what the proposer chooses. */
  predicate Derivable(trusted: Header, h: Header) {
    h == trusted.(chainID := h.chainID, height := h.height, time := h.time, rest := h.rest)
  }

  /** The culprits, ordered by power: of a header that could not be derived, the common validators that
      voted for it; of one that could, in the same round, those who voted for both. Nothing stands for a list the source cannot build: an index
      beyond the trusted commit, or an address outside the set. */
  method GetByzantineValidators(common: MemberSet, conflicting: LightBlock, trusted: Header, trustedCommit: Commit)
    returns (r: Option<seq<Member>>)
    ensures
      var sigs := conflicting.commit.sigs;
      if !Derivable(trusted, conflicting.header) then r == Some(ByPower(Lunatics(common, sigs, |sigs|)))
      else if trustedCommit.round == conflicting.commit.round then
        var e := Equivocators(conflicting.vals, sigs, trustedCommit.sigs, |sigs|);
        if e.None? then r == None else r == Some(ByPower(e.value))
      else r == Some([])
  {
    var sigs := conflicting.commit.sigs;
    var validators: seq<Member> := [];
    if ConflictingHeaderIsInvalid(trusted, conflicting.header) {
      for i := 0 to |sigs|
        invariant validators == Lunatics(common, sigs, i)
      {
        if sigs[i].flag == ForBlock {
          var v := Lookup(common, sigs[i].address);
          if v >= 0 {
            validators := validators + [common[v]];
          }
        }
      }
      return Some(ByPower(validators));
    }
    if trustedCommit.round == conflicting.commit.round {
      for i := 0 to |sigs|
        invariant Some(validators) == Equivocators(conflicting.vals, sigs, trustedCommit.sigs, i)
      {
        if sigs[i].flag == ForBlock {
          if i >= |trustedCommit.sigs| {
            StaysNone(conflicting.vals, sigs, trustedCommit.sigs, i + 1, |sigs|);
            return None;
          }
          if trustedCommit.sigs[i].flag == ForBlock {
            var v := Lookup(conflicting.vals, sigs[i].address);
            if v < 0 {
              StaysNone(conflicting.vals, sigs, trustedCommit.sigs, i + 1, |sigs|);
              return None;
            }
            validators := validators + [conflicting.vals[v]];
          }
        }
      }
      return Some(ByPower(validators));
    }
    return Some([]);
  }

  lemma {:induction false} StaysNone(vals: MemberSet, a: seq<CommitSig>, b: seq<CommitSig>, m: nat, n: nat)
    requires m <= n <= |a| && Equivocators(vals, a, b, m).None?
    ensures Equivocators(vals, a, b, n).None?
    decreases n - m
  {
    if m < n {
      StaysNone(vals, a, b, m, n - 1);
    }
  }

  // ---------------------------------------------------------------- the lunatic branch

  predicate VotedFor(sigs: seq<CommitSig>, n: nat, address: nat)
    requires n <= |sigs|
  {
    exists i :: 0 <= i < n && sigs[i].flag == ForBlock && sigs[i].address == address
  }

  /** Exactly the common validators that voted. */
  lemma {:induction false} LunaticsAre(common: MemberSet, sigs: seq<CommitSig>, n: nat, m: Member)
    requires n <= |sigs|
    ensures m in Lunatics(common, sigs, n) <==> m in common && VotedFor(sigs, n, m.address)
  {
    if n > 0 {
      LunaticsAre(common, sigs, n - 1, m);
      var v := Lookup(common, sigs[n - 1].address);
      assert VotedFor(sigs, n, m.address) <==>
             VotedFor(sigs, n - 1, m.address) || (sigs[n - 1].flag == ForBlock && sigs[n - 1].address == m.address);
    }
  }

  /** In a clean commit every flagged entry of the set is a new valid signer. */
  lemma FlaggedCounts(q: Query, n: nat)
    requires Askable(q) && n < |q.commit.sigs| && Clean(q) && q.commit.sigs[n].flag == ForBlock && Checker(q, n) >= 0
    ensures Counts(q, n) && q.vals[Checker(q, n)].address !in Signers(q, n)
  {
    hide Lookup, ValidSig;
    assert Counts(q, n);
    forall k | 0 <= k < n && Counts(q, k)
      ensures q.vals[Checker(q, k)].address != q.vals[Checker(q, n)].address
    {
    }
  }

  /** The power collected is exactly that of the valid signers. */
  lemma {:induction false} LunaticPower(q: Query, n: nat)
    requires !q.byIndex && n <= |q.commit.sigs| && Clean(q)
    ensures Sum(Lunatics(q.vals, q.commit.sigs, n)) == PowerOf(q.vals, Signers(q, n))
  {
    hide Sum, PowerOf, Signers, Lookup, ValidSig, GoodMembers, CleanTo;
    if n == 0 {
      NoSigners(q);
    } else {
      LunaticPower(q, n - 1);
      SignersStep(q, n - 1);
      var v := Checker(q, n - 1);
      if q.commit.sigs[n - 1].flag == ForBlock && v >= 0 {
        FlaggedCounts(q, n - 1);
        SumAppend(Lunatics(q.vals, q.commit.sigs, n - 1), q.vals[v]);
        PowerAdds(q.vals, Signers(q, n - 1), v);
      }
    }
  }

  lemma NoSigners(q: Query)
    requires Askable(q)
    ensures PowerOf(q.vals, Signers(q, 0)) == 0 && Sum([]) == 0
  {
    assert Signers(q, 0) == {};
    NoPower(q.vals);
  }

  lemma SumAppend(s: seq<Member>, m: Member)
    ensures Sum(s + [m]) == Sum(s) + m.power
  {
    assert (s + [m])[..|s|] == s;
  }

  lemma PowerAtMost(vals: MemberSet, who: set<nat>, v: nat)
    requires v < |vals|
    ensures PowerOf(vals, who + {vals[v].address}) <= PowerOf(vals, who) + vals[v].power
  {
    if vals[v].address in who {
      assert who + {vals[v].address} == who;
    } else {
      PowerAdds(vals, who, v);
    }
  }

  /** The validators of the set that validly signed for the block. */
  predicate SignedIt(q: Query, m: Member)
    requires Askable(q)
  {
    exists k :: 0 <= k < |q.commit.sigs| && Counts(q, k) && q.vals[Checker(q, k)] == m
  }

  lemma VotersSigned(q: Query, m: Member)
    requires !q.byIndex && Clean(q)
    ensures m in q.vals && VotedFor(q.commit.sigs, |q.commit.sigs|, m.address) <==> SignedIt(q, m)
  {
    hide ValidSig;
    var sigs := q.commit.sigs;
    if m in q.vals && VotedFor(sigs, |sigs|, m.address) {
      var k :| 0 <= k < |sigs| && sigs[k].flag == ForBlock && sigs[k].address == m.address;
      var v :| 0 <= v < |q.vals| && q.vals[v] == m;
      assert Checker(q, k) == v by { LookupAt(q.vals, v); }
      assert Counts(q, k);
    }
  }

  /** Once every signature passed the trusting check, the lunatic branch blames exactly the common
      validators that validly signed the conflicting header, each once, in order, and together they
      hold more than the trust level's share. */
  lemma LunaticsBlamed(q: Query, batch: bool, num: int, den: int, r: seq<Member>)
    requires !q.byIndex && q.all && den > 0 && q.needed == Total(q.vals) * num / den && VerdictOf(q, batch).Accepted?
    requires r == ByPower(Lunatics(q.vals, q.commit.sigs, |q.commit.sigs|))
    ensures forall m :: m in r <==> SignedIt(q, m)
    ensures Ordered(r) && Sum(r) == PowerOf(q.vals, AllSigners(q)) && Sum(r) * den > Total(q.vals) * num
  {
    hide Sum, PowerOf, Total, ByPower, Lunatics, Scan, Signers, GoodMembers, Ordered, VotedFor, CleanTo, SignedIt;
    var sigs := q.commit.sigs;
    var blamed := Lunatics(q.vals, sigs, |sigs|);
    AllChecked(q, batch);
    LunaticPower(q, |sigs|);
    SumByPower(blamed);
    ByPowerSorts(blamed);
    FloorBelow(Total(q.vals), num, den, Sum(r));
    forall m
      ensures m in r <==> SignedIt(q, m)
    {
      LunaticsAre(q.vals, sigs, |sigs|, m);
      VotersSigned(q, m);
      assert m in r <==> m in multiset(r);
    }
  }

  // ---------------------------------------------------------------- the equivocation branch

  /** The signatures stand in the order of the set and carry its addresses. */
  predicate Aligned(vals: Members, sigs: seq<CommitSig>) {
    |sigs| == |vals| && forall i :: 0 <= i < |sigs| && sigs[i].flag == ForBlock ==> sigs[i].address == vals[i].address
  }

  predicate VotedBoth(a: seq<CommitSig>, b: seq<CommitSig>, i: nat) {
    i < |a| && i < |b| && a[i].flag == ForBlock && b[i].flag == ForBlock
  }

  lemma LookupAt(vals: MemberSet, i: nat)
    requires i < |vals|
    ensures Lookup(vals, vals[i].address) == i
  {
    var j := Lookup(vals, vals[i].address);
    assert j >= 0 && vals[j].address == vals[i].address;
  }

  lemma {:induction false} EquivocatorsAre(vals: MemberSet, a: seq<CommitSig>, b: seq<CommitSig>, n: nat, m: Member)
    requires Aligned(vals, a) && |b| == |vals| && n <= |vals|
    ensures
      var e := Equivocators(vals, a, b, n);
      e.Some? && (m in e.value <==> exists i :: 0 <= i < n && VotedBoth(a, b, i) && vals[i] == m)
  {
    if n > 0 {
      EquivocatorsAre(vals, a, b, n - 1, m);
      if VotedBoth(a, b, n - 1) {
        LookupAt(vals, n - 1);
      }
    }
  }

  /** The addresses of the validators that voted for both, among the first `n`. */
  function Both(vals: Members, a: seq<CommitSig>, b: seq<CommitSig>, n: nat): set<nat>
    requires n <= |vals|
  {
    set i | 0 <= i < n && VotedBoth(a, b, i) :: vals[i].address
  }

  lemma {:induction false} EquivocalPower(vals: MemberSet, a: seq<CommitSig>, b: seq<CommitSig>, n: nat)
    requires Aligned(vals, a) && |b| == |vals| && n <= |vals|
    ensures
      var e := Equivocators(vals, a, b, n);
      e.Some? && Sum(e.value) >= PowerOf(vals, Both(vals, a, b, n))
  {
    if n == 0 {
      assert Both(vals, a, b, 0) == {};
      NoPower(vals);
    } else {
      EquivocalPower(vals, a, b, n - 1);
      BothStep(vals, a, b, n - 1);
      if VotedBoth(a, b, n - 1) {
        LookupAt(vals, n - 1);
        SumAppend(Equivocators(vals, a, b, n - 1).value, vals[n - 1]);
        PowerAtMost(vals, Both(vals, a, b, n - 1), n - 1);
      }
    }
  }

  lemma BothStep(vals: Members, a: seq<CommitSig>, b: seq<CommitSig>, n: nat)
    requires n < |vals|
    ensures Both(vals, a, b, n + 1)
         == if VotedBoth(a, b, n) then Both(vals, a, b, n) + {vals[n].address} else Both(vals, a, b, n)
  {
    var both := Both(vals, a, b, n + 1);
    assert forall i :: 0 <= i < n && VotedBoth(a, b, i) ==> vals[i].address in both;
    assert VotedBoth(a, b, n) ==> vals[n].address in both;
  }

  /** The set's own check of a commit, with every signature for the block checked. */
  predicate TwoThirdsSigned(q: Query, batch: bool) {
    q.byIndex && q.all && Askable(q) && q.needed == Total(q.vals) * 2 / 3 && VerdictOf(q, batch).Accepted?
  }

  /** By position, voting in a clean commit is signing it. */
  lemma VotedIsSigned(qa: Query, qb: Query, i: nat)
    requires qa.byIndex && qb.byIndex && Askable(qa) && Askable(qb) && qa.vals == qb.vals && Clean(qa) && Clean(qb)
    requires i < |qa.vals|
    ensures VotedBoth(qa.commit.sigs, qb.commit.sigs, i) <==> Counts(qa, i) && Counts(qb, i)
  {
    hide ValidSig;
  }

  lemma SignersVoted(qa: Query, qb: Query)
    requires qa.byIndex && qb.byIndex && Askable(qa) && Askable(qb) && qa.vals == qb.vals
    ensures AllSigners(qa) * AllSigners(qb) <= Both(qa.vals, qa.commit.sigs, qb.commit.sigs, |qa.vals|)
  {
    forall x | x in AllSigners(qa) && x in AllSigners(qb)
      ensures x in Both(qa.vals, qa.commit.sigs, qb.commit.sigs, |qa.vals|)
    {
      var i :| 0 <= i < |qa.commit.sigs| && Counts(qa, i) && qa.vals[Checker(qa, i)].address == x;
      var j :| 0 <= j < |qb.commit.sigs| && Counts(qb, j) && qb.vals[Checker(qb, j)].address == x;
      assert i == j;
      assert VotedBoth(qa.commit.sigs, qb.commit.sigs, i);
    }
  }

  /** A validator whose signature both commits validly carry at its position. */
  predicate SignedBoth(qa: Query, qb: Query, m: Member)
    requires Askable(qa) && Askable(qb) && qa.byIndex && qb.byIndex && qa.vals == qb.vals
  {
    exists i :: 0 <= i < |qa.vals| && Counts(qa, i) && Counts(qb, i) && qa.vals[i] == m
  }

  /** Two commits of one index-aligned set, each above two thirds with every signature checked: the
      equivocation branch always yields a list, blames more than a third of the power, and exactly
      those whose valid signatures both commits carry. */
  lemma EquivocatorsBlamed(qa: Query, qb: Query, batch: bool)
    requires TwoThirdsSigned(qa, batch) && TwoThirdsSigned(qb, batch) && qa.vals == qb.vals
    requires Aligned(qa.vals, qa.commit.sigs)
    ensures
      var e := Equivocators(qa.vals, qa.commit.sigs, qb.commit.sigs, |qa.vals|);
      && e.Some? && Sum(ByPower(e.value)) * 3 > Total(qa.vals) && Ordered(ByPower(e.value))
      && (forall m :: m in ByPower(e.value) <==> SignedBoth(qa, qb, m))
  {
    hide Sum, PowerOf, Total, ByPower, Equivocators, Scan, Signers, GoodMembers, Ordered, Both, VotedBoth, AllSigners,
         CleanTo, Counts;
    var vals, a, b := qa.vals, qa.commit.sigs, qb.commit.sigs;
    EquivocalPower(vals, a, b, |vals|);
    var blamed := Equivocators(vals, a, b, |vals|).value;
    SharedThird(qa, qb, batch);
    SignersVoted(qa, qb);
    PowerMonotone(vals, AllSigners(qa) * AllSigners(qb), Both(vals, a, b, |vals|));
    SumByPower(blamed);
    ByPowerSorts(blamed);
    AllChecked(qa, batch);
    AllChecked(qb, batch);
    forall m
      ensures m in ByPower(blamed) <==> SignedBoth(qa, qb, m)
    {
      EquivocatorsAre(vals, a, b, |vals|, m);
      forall i | 0 <= i < |vals|
        ensures VotedBoth(a, b, i) <==> Counts(qa, i) && Counts(qb, i)
      {
        VotedIsSigned(qa, qb, i);
      }
      assert m in ByPower(blamed) <==> m in multiset(ByPower(blamed));
      assert m in blamed <==> m in multiset(blamed);
    }
  }

  /** Two majorities of two thirds share more than a third. */
  lemma SharedThird(qa: Query, qb: Query, batch: bool)
    requires TwoThirdsSigned(qa, batch) && TwoThirdsSigned(qb, batch) && qa.vals == qb.vals
    ensures PowerOf(qa.vals, AllSigners(qa) * AllSigners(qb)) * 3 > Total(qa.vals)
  {
    hide PowerOf, Total, Scan, AllSigners, GoodMembers;
    BatchAgrees(qa);
    BatchAgrees(qb);
    AcceptedMeans(qa);
    AcceptedMeans(qb);
    PowerUnion(qa.vals, AllSigners(qa), AllSigners(qb));
    PowerMonotone(qa.vals, AllSigners(qa) + AllSigners(qb), AllSigners(qa) + AllSigners(qb));
  }

  // ---------------------------------------------------------------- verified evidence

  const DEFAULT_TRUST_LEVEL := Fraction(1, 3)

  /** The node's check of a light client attack: one jump from the common set when the heights differ,
      otherwise a correctly derived header; two thirds of the conflicting set; and a real conflict. */
  predicate AttackVerified(commonHeight: int, common: MemberSet, conflicting: LightBlock, trusted: Header, batch: bool) {
    && (if commonHeight != conflicting.header.height
        then TrustingVerdict(common, trusted.chainID, conflicting, DEFAULT_TRUST_LEVEL, true, batch).Accepted?
        else !ConflictingHeaderIsInvalid(trusted, conflicting.header))
    && LightVerdict(trusted.chainID, conflicting, true, batch).Accepted?
    && !(conflicting.header.height > trusted.height && conflicting.header.time > trusted.time)
    && (conflicting.header.height > trusted.height || trusted != conflicting.header)
  }

  /** Whoever is blamed by verified evidence of a lunatic attack validly signed the conflicting header,
      and the blamed hold more than a third of the common set. */
  lemma VerifiedLunatics(commonHeight: int, common: MemberSet, conflicting: LightBlock, trusted: Header, batch: bool,
                         r: seq<Member>)
    requires AttackVerified(commonHeight, common, conflicting, trusted, batch)
    requires !Derivable(trusted, conflicting.header)
    requires r == ByPower(Lunatics(common, conflicting.commit.sigs, |conflicting.commit.sigs|))
    ensures Sum(r) * 3 > Total(common) && Ordered(r)
    ensures forall m :: m in r <==> SignedIt(TrustingQuery(common, trusted.chainID, conflicting, DEFAULT_TRUST_LEVEL, true), m)
    ensures forall m :: m in r ==> m in common && m.address in SignersIn(common, trusted.chainID, conflicting)
  {
    hide Sum, Total, ByPower, Lunatics, Scan, GoodMembers, Ordered, SignedIt, SignersIn, PowerOf;
    var q := TrustingQuery(common, trusted.chainID, conflicting, DEFAULT_TRUST_LEVEL, true);
    LunaticsBlamed(q, batch, 1, 3, r);
    forall m | SignedIt(q, m)
      ensures m in common && m.address in SignersIn(common, trusted.chainID, conflicting)
    {
      SignedAreSigners(q, conflicting, m);
    }
  }

  /** A valid signature of the commit, seen from the block. */
  lemma SignedAreSigners(q: Query, b: LightBlock, m: Member)
    requires !q.byIndex && q.commit == b.commit && SignedIt(q, m)
    ensures m in q.vals && m.address in SignersIn(q.vals, q.chainID, b)
  {
    var k :| 0 <= k < |q.commit.sigs| && Counts(q, k) && q.vals[Checker(q, k)] == m;
    assert SignsBlock(b, q.chainID, k, q.vals[Checker(q, k)].address);
  }
}
