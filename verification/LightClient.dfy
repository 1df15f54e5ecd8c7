/** Bisection with a cache, and the search for the point where a conflicting chain forks off. */
module LightClient {
  import opened Wrappers
  import opened Commits
  import opened LightVerifier

  datatype Answer = Found(block: LightBlock) | Unavailable | Malevolent

  /** A provider: what it answers to its n-th query for a height. */
  type Source = (nat, int) -> Answer

  /** A provider answers with a block of the height asked for. */
  ghost predicate AnswersAsked(source: Source) {
    forall n, h :: source(n, h).Found? ==> source(n, h).block.header.height == h
  }

  const NUMERATOR: int := 9
  const DENOMINATOR: int := 16

  /** Every block was verified against the one before it. */
  predicate Verified(o: Options, now: int, trace: seq<LightBlock>) {
    && trace != []
    && forall i :: 0 < i < |trace| ==> Verify(o, now, trace[i - 1], trace[i]).Valid?
  }

  function Last(trace: seq<LightBlock>): LightBlock
    requires trace != []
  {
    trace[|trace| - 1]
  }

  /** The pivot lies strictly between its bounds whenever there is room. */
  lemma PivotBetween(lo: int, hi: int)
    requires hi >= lo + 2
    ensures lo < lo + (hi - lo) * NUMERATOR / DENOMINATOR < hi
  {
  }

  // ---------------------------------------------------------------- bisection

  /** What the loop keeps about its cache: the target first, then ever lower blocks, all above
      the verified one. Everything before `depth` was found untrustable. */
  ghost predicate CacheOk(o: Options, now: int, verified: LightBlock, target: LightBlock, cache: seq<LightBlock>, depth: nat) {
    && depth < |cache| && cache[0] == target
    && (|cache| > 1 ==> forall i :: 0 <= i < |cache| ==> cache[i].header.height >= verified.header.height)
    && (forall i, j :: 0 <= i < j < |cache| ==> cache[i].header.height >= cache[j].header.height)
    && (forall i :: 0 <= i < depth ==> Verify(o, now, verified, cache[i]).CantBeTrusted?)
  }

  /** A chain as validators produce it, from `lo` to `hi`: every block is properly signed by a set that
      the block below announced, times rise, nothing is from the future, and nothing below `hi` has expired. */
  ghost predicate ProperChain(o: Options, now: int, chain: int -> LightBlock, lo: int, hi: int) {
    && lo < hi
    && (forall h :: lo <= h <= hi ==>
          && chain(h).header.height == h && ProperBlock(chain(h), chain(lo).header.chainID)
          && Computable(chain(h).vals, o.trustLevel) && chain(h).header.time < now + o.maxClockDrift)
    && (forall h :: lo <= h < hi ==> InPeriod(o, now, chain(h)) && Announces(chain, h))
    && (forall g, h :: lo <= g < h <= hi ==> chain(g).header.time < chain(h).header.time)
  }

  predicate InPeriod(o: Options, now: int, b: LightBlock) {
    now < b.header.time + o.trustingPeriod
  }

  ghost predicate Announces(chain: int -> LightBlock, h: int) {
    chain(h + 1).vals == chain(h).header.nextValidators
  }

  /** A source that serves such a chain. */
  ghost predicate Serves(o: Options, now: int, source: Source, chain: int -> LightBlock, lo: int, hi: int) {
    ProperChain(o, now, chain, lo, hi) && forall n, h :: lo <= h <= hi ==> source(n, h) == Found(chain(h))
  }

  /** What a proper chain says about two of its blocks. */
  lemma ProperAt(o: Options, now: int, chain: int -> LightBlock, lo: int, hi: int, g: int, h: int)
    requires ProperChain(o, now, chain, lo, hi) && lo <= g < h <= hi
    ensures chain(g).header.height == g && chain(h).header.height == h
    ensures ProperBlock(chain(h), chain(lo).header.chainID) && chain(g).header.chainID == chain(lo).header.chainID
    ensures Computable(chain(g).vals, o.trustLevel) && InPeriod(o, now, chain(g)) && Announces(chain, g)
    ensures chain(g).header.time < chain(h).header.time < now + o.maxClockDrift
  {
    hide Computable, InPeriod, Announces, SignsBlock, PowerOf, Total;
    assert ProperBlock(chain(g), chain(lo).header.chainID);
  }

  lemma ProperIsPlausible(o: Options, now: int, t: LightBlock, u: LightBlock)
    requires ProperBlock(u, t.header.chainID) && InPeriod(o, now, t)
    requires t.header.height < u.header.height && t.header.time < u.header.time < now + o.maxClockDrift
    ensures Plausible(o, now, t, u)
  {
    hide SignsBlock, PowerOf, Total;
  }

  lemma ProperPair(o: Options, now: int, chain: int -> LightBlock, lo: int, hi: int, g: int, h: int)
    requires ProperChain(o, now, chain, lo, hi) && lo <= g < h <= hi
    ensures !Verify(o, now, chain(g), chain(h)).Refused?
  {
    hide Verify, ProperChain, ProperBlock, Plausible, Computable;
    ProperAt(o, now, chain, lo, hi, g, h);
    ProperIsPlausible(o, now, chain(g), chain(h));
    ProperNotRefused(o, now, chain(g), chain(h));
  }

  /** A stretch of a proper chain is one. */
  lemma ServesBetween(o: Options, now: int, source: Source, chain: int -> LightBlock, lo: int, hi: int, g: int, h: int)
    requires Serves(o, now, source, chain, lo, hi) && lo <= g < h <= hi
    ensures Serves(o, now, source, chain, g, h)
  {
    hide Computable, InPeriod, Announces;
    assert chain(g).header.chainID == chain(lo).header.chainID by {
      assert ProperBlock(chain(g), chain(lo).header.chainID);
    }
    hide ProperBlock;
  }

  /** While a source serves a chain, the loop only ever sees that chain. */
  ghost predicate OnChain(chain: int -> LightBlock, lo: int, hi: int, verified: LightBlock, cache: seq<LightBlock>) {
    && verified == chain(verified.header.height) && lo <= verified.header.height < hi
    && forall i :: 0 <= i < |cache| ==>
         cache[i] == chain(cache[i].header.height) && verified.header.height < cache[i].header.height <= hi
  }

  function Gap(a: LightBlock, b: LightBlock): nat {
    Max(0, b.header.height - a.header.height)
  }

  ghost predicate Served(o: Options, now: int, source: Source, chain: int -> LightBlock, trusted: LightBlock, target: LightBlock) {
    && Serves(o, now, source, chain, trusted.header.height, target.header.height)
    && trusted == chain(trusted.header.height) && target == chain(target.header.height)
  }

  ghost predicate Start(trace: seq<LightBlock>, trusted: LightBlock, verified: LightBlock) {
    trace != [] && trace[0] == trusted && Last(trace) == verified
  }

  /** Bisects from the trusted block to the target. Each interim block enters the cache twice. */
  method VerifySkipping(o: Options, source: Source, trusted: LightBlock, target: LightBlock, now: int, queries: nat,
                        ghost chain: int -> LightBlock)
    returns (r: Result<seq<LightBlock>>, queries': nat)
    requires AnswersAsked(source)
    ensures r.Ok? ==> Verified(o, now, r.value) && |r.value| >= 2 && r.value[0] == trusted && Last(r.value) == target
    ensures Served(o, now, source, chain, trusted, target) ==> r.Ok?
  {
    hide Verify, Verified, CacheOk, OnChain, Serves, Start;
    var cache, depth := [target], 0;
    var verified, trace := trusted, [trusted];
    queries' := queries;
    ghost var lo, hi := trusted.header.height, target.header.height;
    ghost var served := Served(o, now, source, chain, trusted, target);
    Begin(o, now, source, chain, trusted, target);
    while true
      invariant 0 <= depth < |cache| && CacheOk(o, now, verified, target, cache, depth)
      invariant Verified(o, now, trace) && Start(trace, trusted, verified)
      invariant served ==> OnChain(chain, lo, hi, verified, cache)
      decreases Gap(verified, target), Gap(verified, cache[|cache| - 1]), |cache| - depth
    {
      var check := Verify(o, now, verified, cache[depth]);
      if check.Valid? {
        TraceGrows(o, now, trace, trusted, verified, cache[depth]);
        if depth == 0 {
          Finish(o, now, trace, trusted, verified, target, cache);
          return Ok(trace + [target]), queries';
        }
        CacheShrinks(o, now, verified, target, cache, depth);
        KeepsAbove(o, now, chain, lo, hi, verified, target, cache, depth, served);
        verified := cache[depth];
        cache := cache[..depth];
        depth := 0;
        trace := trace + [verified];
      } else if check.CantBeTrusted? {
        if depth == |cache| - 1 {
          CantBeTrustedLeavesRoom(o, now, verified, cache[depth]);
          PivotBetween(verified.header.height, cache[depth].header.height);
          var pivot := verified.header.height
                       + (cache[depth].header.height - verified.header.height) * NUMERATOR / DENOMINATOR;
          var answer := source(queries', pivot);
          FoundBetween(o, now, source, chain, lo, hi, verified, cache, queries', pivot, served);
          queries' := queries' + 1;
          if !answer.Found? {
            return Err, queries';
          }
          CacheGrows(o, now, verified, target, cache, depth, answer.block);
          ChainGrows(chain, lo, hi, verified, cache, answer.block, served);
          cache := cache + [answer.block, answer.block];
        } else {
          Deepens(o, now, verified, target, cache, depth);
        }
        depth := depth + 1;
      } else {
        NeverRefused(o, now, source, chain, lo, hi, verified, cache, depth);
        return Err, queries';
      }
    }
  }

  lemma Begin(o: Options, now: int, source: Source, chain: int -> LightBlock, trusted: LightBlock, target: LightBlock)
    ensures CacheOk(o, now, trusted, target, [target], 0)
    ensures Verified(o, now, [trusted]) && Start([trusted], trusted, trusted)
    ensures Served(o, now, source, chain, trusted, target) ==>
              OnChain(chain, trusted.header.height, target.header.height, trusted, [target])
  {
  }

  lemma VerifyRises(o: Options, now: int, t: LightBlock, u: LightBlock)
    requires Verify(o, now, t, u).Valid?
    ensures u.header.height > t.header.height && u.header.time > t.header.time
  {
  }

  lemma TraceGrows(o: Options, now: int, trace: seq<LightBlock>, trusted: LightBlock, verified: LightBlock, b: LightBlock)
    requires Verified(o, now, trace) && Start(trace, trusted, verified) && Verify(o, now, verified, b).Valid?
    ensures Verified(o, now, trace + [b]) && Start(trace + [b], trusted, b)
  {
    hide Verify;
    var longer := trace + [b];
    assert forall i :: 0 <= i < |trace| ==> longer[i] == trace[i];
  }

  lemma Finish(o: Options, now: int, trace: seq<LightBlock>, trusted: LightBlock, verified: LightBlock, target: LightBlock,
               cache: seq<LightBlock>)
    requires Start(trace, trusted, verified) && CacheOk(o, now, verified, target, cache, 0)
    ensures cache[0] == target && trace != [] && (trace + [target])[0] == trusted && Last(trace + [target]) == target
  {
  }

  lemma CacheShrinks(o: Options, now: int, verified: LightBlock, target: LightBlock, cache: seq<LightBlock>, depth: nat)
    requires CacheOk(o, now, verified, target, cache, depth) && 0 < depth && Verify(o, now, verified, cache[depth]).Valid?
    ensures CacheOk(o, now, cache[depth], target, cache[..depth], 0)
    ensures Gap(cache[depth], target) < Gap(verified, target)
  {
    VerifyRises(o, now, verified, cache[depth]);
    hide Verify;
  }

  lemma CacheGrows(o: Options, now: int, verified: LightBlock, target: LightBlock, cache: seq<LightBlock>, depth: nat,
                   b: LightBlock)
    requires CacheOk(o, now, verified, target, cache, depth) && depth == |cache| - 1
    requires Verify(o, now, verified, cache[depth]).CantBeTrusted?
    requires verified.header.height < b.header.height < cache[depth].header.height
    ensures CacheOk(o, now, verified, target, cache + [b, b], depth + 1)
    ensures Gap(verified, b) < Gap(verified, cache[depth])
  {
    hide Verify;
    var grown := cache + [b, b];
    forall i | 0 <= i < |cache|
      ensures grown[i] == cache[i] && cache[i].header.height >= cache[depth].header.height
    {
    }
  }

  lemma Deepens(o: Options, now: int, verified: LightBlock, target: LightBlock, cache: seq<LightBlock>, depth: nat)
    requires CacheOk(o, now, verified, target, cache, depth) && depth < |cache| - 1
    requires Verify(o, now, verified, cache[depth]).CantBeTrusted?
    ensures CacheOk(o, now, verified, target, cache, depth + 1)
  {
    hide Verify;
  }

  lemma ChainGrows(chain: int -> LightBlock, lo: int, hi: int, verified: LightBlock, cache: seq<LightBlock>, b: LightBlock,
                   served: bool)
    requires served ==> OnChain(chain, lo, hi, verified, cache) && b == chain(b.header.height)
    requires cache != [] && verified.header.height < b.header.height < cache[|cache| - 1].header.height
    ensures served ==> OnChain(chain, lo, hi, verified, cache + [b, b])
  {
    if served {
      var grown := cache + [b, b];
      assert forall i :: 0 <= i < |cache| ==> grown[i] == cache[i];
    }
  }

  lemma FoundBetween(o: Options, now: int, source: Source, chain: int -> LightBlock, lo: int, hi: int, verified: LightBlock,
                     cache: seq<LightBlock>, n: nat, pivot: int, served: bool)
    requires served ==> Serves(o, now, source, chain, lo, hi) && OnChain(chain, lo, hi, verified, cache)
    requires cache != [] && verified.header.height < pivot < cache[|cache| - 1].header.height
    ensures served ==> source(n, pivot) == Found(chain(pivot))
  {
    hide ProperChain;
  }

  lemma NeverRefused(o: Options, now: int, source: Source, chain: int -> LightBlock, lo: int, hi: int, verified: LightBlock,
                     cache: seq<LightBlock>, depth: nat)
    requires depth < |cache|
    ensures (Serves(o, now, source, chain, lo, hi) && OnChain(chain, lo, hi, verified, cache))
            ==> !Verify(o, now, verified, cache[depth]).Refused?
  {
    hide Verify, ProperChain;
    if Serves(o, now, source, chain, lo, hi) && OnChain(chain, lo, hi, verified, cache) {
      ProperPair(o, now, chain, lo, hi, verified.header.height, cache[depth].header.height);
    }
  }

  /** Under a served chain, whatever stays cached lies strictly above the new verified block. */
  lemma KeepsAbove(o: Options, now: int, chain: int -> LightBlock, lo: int, hi: int, verified: LightBlock,
                   target: LightBlock, cache: seq<LightBlock>, depth: nat, served: bool)
    requires CacheOk(o, now, verified, target, cache, depth) && Verify(o, now, verified, cache[depth]).Valid? && depth > 0
    requires served ==> OnChain(chain, lo, hi, verified, cache) && hi == target.header.height
    ensures served ==> OnChain(chain, lo, hi, cache[depth], cache[..depth])
  {
    hide Verify;
    if served {
      forall i | 0 <= i < depth
        ensures cache[depth].header.height < cache[i].header.height
      {
        assert cache[i] != cache[depth];
      }
    }
  }

  // ---------------------------------------------------------------- what a trace establishes

  /** Heights and times rise strictly along a verified trace. */
  lemma {:induction false} TraceRises(o: Options, now: int, trace: seq<LightBlock>, i: nat, j: nat)
    requires Verified(o, now, trace) && i < j < |trace|
    ensures trace[i].header.height < trace[j].header.height && trace[i].header.time < trace[j].header.time
    decreases j
  {
    hide Verify;
    VerifyRises(o, now, trace[j - 1], trace[j]);
    if i < j - 1 {
      TraceRises(o, now, trace, i, j - 1);
    }
  }

  /** Every block of a verified trace that starts on the canonical chain is canonical. */
  lemma {:induction false} TraceIsCanonical(w: World, o: Options, now: int, trace: seq<LightBlock>, i: nat)
    requires Verified(o, now, trace) && ValidTrustLevel(o.trustLevel) && SecureChain(w)
    requires Canonical(w, trace[0]) && trace[0].header.validators == trace[0].vals
    requires forall k :: 0 <= k < |trace| ==> CorrectSignCanonical(w, trace[k])
    requires i < |trace|
    ensures Canonical(w, trace[i]) && trace[i].header.validators == trace[i].vals
  {
    hide Verify, SecureChain, CorrectSignCanonical, Canonical;
    if i > 0 {
      TraceIsCanonical(w, o, now, trace, i - 1);
      StepIsCanonical(w, o, now, trace[i - 1], trace[i]);
    }
  }

  // ---------------------------------------------------------------- where a conflicting chain forks off

  /** A verified chain of the source that starts on the trace and leaves it at `divergent`: at the
      same height with another header, or by ending at a target that is older in height but not
      in time. The trace and the source agree up to the block before. */
  ghost predicate Forks(o: Options, now: int, trace: seq<LightBlock>, target: LightBlock,
                        sourceTrace: seq<LightBlock>, divergent: LightBlock) {
    && Verified(o, now, sourceTrace) && |sourceTrace| >= 2
    && exists k, d :: 0 <= k < d < |trace| && ForksAt(trace, target, sourceTrace, divergent, k, d)
  }

  ghost predicate ForksAt(trace: seq<LightBlock>, target: LightBlock, sourceTrace: seq<LightBlock>, divergent: LightBlock,
                          k: nat, d: nat)
    requires sourceTrace != [] && k < d < |trace|
  {
    var last := Last(sourceTrace);
    && divergent == trace[d] && sourceTrace[0].header == trace[k].header
    && (k == d - 1 || (k == d - 2 && trace[d - 1].header == target.header))
    && ( || (last.header.height == divergent.header.height && last.header != divergent.header)
         || (last == target && divergent.header.height > target.header.height && divergent.header.time <= target.header.time))
  }

  /** The blocks up to `i` agree with the source, and the last stretch is a verified chain. */
  ghost predicate Walked(o: Options, now: int, trace: seq<LightBlock>, target: LightBlock, i: nat,
                         previous: LightBlock, sourceTrace: seq<LightBlock>)
    requires 1 <= i <= |trace|
  {
    && previous.header == trace[i - 1].header && previous.header.height <= target.header.height
    && (previous.header.height == target.header.height ==> previous == target)
    && (if i == 1 then sourceTrace == []
        else && Verified(o, now, sourceTrace) && |sourceTrace| >= 2
             && sourceTrace[0].header == trace[i - 2].header && Last(sourceTrace) == previous)
  }

  /** Heights and times rise along the trace. */
  predicate RisingTrace(trace: seq<LightBlock>) {
    forall i, j :: 0 <= i < j < |trace| ==>
      trace[i].header.height < trace[j].header.height && trace[i].header.time < trace[j].header.time
  }

  /** A source that serves a proper chain up to the target, which starts on the trace. */
  ghost predicate Rival(o: Options, now: int, source: Source, chain: int -> LightBlock, trace: seq<LightBlock>, target: LightBlock)
    requires trace != []
  {
    && RisingTrace(trace) && Serves(o, now, source, chain, trace[0].header.height, target.header.height)
    && target == chain(target.header.height) && chain(trace[0].header.height).header == trace[0].header
  }

  /** The trace holds another header than the chain at some height up to the target, or a header above
      the target that is not later. */
  ghost predicate Diverges(chain: int -> LightBlock, trace: seq<LightBlock>, target: LightBlock) {
    exists i :: 0 <= i < |trace| && DivergesAt(chain, trace[i], target)
  }

  ghost predicate DivergesAt(chain: int -> LightBlock, b: LightBlock, target: LightBlock) {
    if b.header.height <= target.header.height then chain(b.header.height).header != b.header
    else b.header.time <= target.header.time
  }

  /** The first `i` blocks of the trace are on the chain, and `previous` is the chain's last of them. */
  ghost predicate Follows(chain: int -> LightBlock, trace: seq<LightBlock>, target: LightBlock, i: nat, previous: LightBlock)
    requires 1 <= i <= |trace|
  {
    && (forall j :: 0 <= j < i ==> trace[j].header.height <= target.header.height && !DivergesAt(chain, trace[j], target))
    && previous == chain(trace[i - 1].header.height)
  }

  /** Against a source that serves a proper chain of its own, the search succeeds exactly if the chain
      diverges from the trace. */
  method ExamineConflictingHeader(o: Options, source: Source, trace: seq<LightBlock>, target: LightBlock, now: int,
                                  queries: nat, ghost chain: int -> LightBlock)
    returns (r: Result<(seq<LightBlock>, LightBlock)>, queries': nat)
    requires AnswersAsked(source) && trace != []
    ensures target.header.height < trace[0].header.height ==> r.Err?
    ensures r.Ok? && target.header.height > trace[0].header.height ==> Forks(o, now, trace, target, r.value.0, r.value.1)
    ensures r.Ok? && target.header.height == trace[0].header.height ==> r.value.0 == [] && target.header == trace[0].header
    ensures Rival(o, now, source, chain, trace, target) ==> (r.Ok? <==> Diverges(chain, trace, target))
  {
    hide Verify, Verified, Walked, Forks, Follows, Rival, Diverges, Serves;
    queries' := queries;
    ghost var rival := Rival(o, now, source, chain, trace, target);
    if rival {
      RivalBegins(o, now, source, chain, trace, target);
    }
    if target.header.height < trace[0].header.height {
      return Err, queries';
    }
    var previous := target;
    if trace[0].header.height != target.header.height {
      var answer := source(queries', trace[0].header.height);
      queries' := queries' + 1;
      if !answer.Found? {
        return Err, queries';
      }
      previous := answer.block;
    }
    if previous.header != trace[0].header {
      return Err, queries';
    }
    WalkBegins(o, now, trace, target, previous);
    var sourceTrace: seq<LightBlock> := [];
    var i := 1;
    while i < |trace|
      invariant 1 <= i <= |trace| && Walked(o, now, trace, target, i, previous, sourceTrace)
      invariant target.header.height == trace[0].header.height ==> i == 1 && target.header == trace[0].header
      invariant rival ==> Follows(chain, trace, target, i, previous)
    {
      WalkFacts(o, now, trace, target, i, previous, sourceTrace);
      if rival {
        RivalGoesOn(o, now, source, chain, trace, target, i, previous);
      }
      if trace[i].header.height > target.header.height {
        if trace[i].header.time > target.header.time {
          return Err, queries';
        }
        if previous.header.height != target.header.height {
          var traced;
          traced, queries' := VerifySkipping(o, source, previous, target, now, queries', chain);
          if traced.Err? {
            return Err, queries';
          }
          ForkFound(o, now, trace, target, i, previous, sourceTrace, traced.value);
          return Ok((traced.value, trace[i])), queries';
        }
        if i > 1 {
          ForkAbove(o, now, trace, target, i, previous, sourceTrace);
        }
        return Ok((sourceTrace, trace[i])), queries';
      }
      var block := target;
      if trace[i].header.height != target.header.height {
        var answer := source(queries', trace[i].header.height);
        queries' := queries' + 1;
        if !answer.Found? {
          return Err, queries';
        }
        block := answer.block;
      }
      var traced;
      traced, queries' := VerifySkipping(o, source, previous, block, now, queries', chain);
      if traced.Err? {
        return Err, queries';
      }
      TraceRisesTo(o, now, traced.value);
      if block.header != trace[i].header {
        ForkFound(o, now, trace, target, i, previous, sourceTrace, traced.value);
        return Ok((traced.value, trace[i])), queries';
      }
      WalkGoesOn(o, now, trace, target, i, previous, sourceTrace, block, traced.value);
      sourceTrace, previous := traced.value, block;
      i := i + 1;
    }
    if rival {
      RivalEnds(chain, trace, target, previous);
    }
    return Err, queries';
  }

  lemma RivalBegins(o: Options, now: int, source: Source, chain: int -> LightBlock, trace: seq<LightBlock>, target: LightBlock)
    requires trace != [] && Rival(o, now, source, chain, trace, target)
    ensures trace[0].header.height < target.header.height && chain(trace[0].header.height).header == trace[0].header
    ensures forall n: nat :: source(n, trace[0].header.height) == Found(chain(trace[0].header.height))
    ensures Follows(chain, trace, target, 1, chain(trace[0].header.height))
  {
    hide ProperBlock, Computable, InPeriod, Announces;
  }

  /** What the rival answers for the next block of the trace, and what follows from it. */
  lemma RivalGoesOn(o: Options, now: int, source: Source, chain: int -> LightBlock, trace: seq<LightBlock>, target: LightBlock,
                    i: nat, previous: LightBlock)
    requires 1 <= i < |trace| && Rival(o, now, source, chain, trace, target) && Follows(chain, trace, target, i, previous)
    ensures
      var h := trace[i].header.height;
      && (h <= target.header.height ==>
            && (forall n: nat :: source(n, h) == Found(chain(h))) && Served(o, now, source, chain, previous, chain(h))
            && (h == target.header.height ==> target == chain(h))
            && (chain(h).header != trace[i].header ==> Diverges(chain, trace, target))
            && (chain(h).header == trace[i].header ==> Follows(chain, trace, target, i + 1, chain(h))))
      && (h > target.header.height ==>
            && (previous.header.height != target.header.height ==> Served(o, now, source, chain, previous, target))
            && (Diverges(chain, trace, target) <==> trace[i].header.time <= target.header.time))
  {
    hide ProperBlock, Computable, InPeriod, Announces, Serves;
    var h, lo, hi := trace[i].header.height, trace[0].header.height, target.header.height;
    RivalHeights(o, now, source, chain, trace, target, i - 1);
    assert trace[i - 1].header.height < h;
    if h <= hi {
      RivalHeights(o, now, source, chain, trace, target, i);
      ServesBetween(o, now, source, chain, lo, hi, previous.header.height, h);
      if chain(h).header != trace[i].header {
        assert DivergesAt(chain, trace[i], target);
      }
    } else {
      if previous.header.height != hi {
        ServesBetween(o, now, source, chain, lo, hi, previous.header.height, hi);
      }
      if trace[i].header.time <= target.header.time {
        assert DivergesAt(chain, trace[i], target);
      } else {
        forall j | i < j < |trace|
          ensures !DivergesAt(chain, trace[j], target)
        {
          assert trace[i].header.height < trace[j].header.height && trace[i].header.time < trace[j].header.time;
        }
      }
    }
  }

  lemma RivalHeights(o: Options, now: int, source: Source, chain: int -> LightBlock, trace: seq<LightBlock>,
                     target: LightBlock, j: nat)
    requires j < |trace| && Rival(o, now, source, chain, trace, target) && trace[j].header.height <= target.header.height
    ensures
      var h := trace[j].header.height;
      && trace[0].header.height <= h && chain(h).header.height == h && chain(target.header.height) == target
      && (forall n: nat :: source(n, h) == Found(chain(h)))
  {
    hide ProperBlock, Computable, InPeriod, Announces;
    assert j > 0 ==> trace[0].header.height < trace[j].header.height;
  }

  lemma RivalEnds(chain: int -> LightBlock, trace: seq<LightBlock>, target: LightBlock, previous: LightBlock)
    requires trace != [] && Follows(chain, trace, target, |trace|, previous)
    ensures !Diverges(chain, trace, target)
  {
  }

  lemma WalkBegins(o: Options, now: int, trace: seq<LightBlock>, target: LightBlock, previous: LightBlock)
    requires trace != [] && previous.header == trace[0].header && previous.header.height <= target.header.height
    requires previous.header.height == target.header.height ==> previous == target
    ensures Walked(o, now, trace, target, 1, previous, [])
  {
  }

  lemma WalkFacts(o: Options, now: int, trace: seq<LightBlock>, target: LightBlock, i: nat, previous: LightBlock,
                  sourceTrace: seq<LightBlock>)
    requires 1 <= i <= |trace| && Walked(o, now, trace, target, i, previous, sourceTrace)
    ensures previous.header == trace[i - 1].header && previous.header.height <= target.header.height
    ensures i == 1 ==> sourceTrace == []
  {
  }

  lemma TraceRisesTo(o: Options, now: int, trace: seq<LightBlock>)
    requires Verified(o, now, trace) && |trace| >= 2
    ensures trace[0].header.height < Last(trace).header.height
  {
    TraceRises(o, now, trace, 0, |trace| - 1);
  }

  lemma WalkGoesOn(o: Options, now: int, trace: seq<LightBlock>, target: LightBlock, i: nat, previous: LightBlock,
                   sourceTrace: seq<LightBlock>, block: LightBlock, traced: seq<LightBlock>)
    requires 1 <= i < |trace| && Walked(o, now, trace, target, i, previous, sourceTrace)
    requires Verified(o, now, traced) && |traced| >= 2 && traced[0] == previous && Last(traced) == block
    requires block.header == trace[i].header && block.header.height <= target.header.height
    requires block.header.height == target.header.height ==> block == target
    ensures Walked(o, now, trace, target, i + 1, block, traced)
  {
  }

  lemma ForkFound(o: Options, now: int, trace: seq<LightBlock>, target: LightBlock, i: nat, previous: LightBlock,
                  sourceTrace: seq<LightBlock>, traced: seq<LightBlock>)
    requires 1 <= i < |trace| && Walked(o, now, trace, target, i, previous, sourceTrace)
    requires Verified(o, now, traced) && |traced| >= 2 && traced[0] == previous
    requires
      var last := Last(traced);
      || (last.header.height == trace[i].header.height && last.header != trace[i].header)
      || (last == target && trace[i].header.height > target.header.height && trace[i].header.time <= target.header.time)
    ensures Forks(o, now, trace, target, traced, trace[i])
  {
    hide Verified;
    assert ForksAt(trace, target, traced, trace[i], i - 1, i);
  }

  lemma ForkAbove(o: Options, now: int, trace: seq<LightBlock>, target: LightBlock, i: nat, previous: LightBlock,
                  sourceTrace: seq<LightBlock>)
    requires 2 <= i < |trace| && Walked(o, now, trace, target, i, previous, sourceTrace)
    requires previous.header.height == target.header.height < trace[i].header.height
    requires trace[i].header.time <= target.header.time
    ensures Forks(o, now, trace, target, sourceTrace, trace[i])
  {
    hide Verified;
    assert ForksAt(trace, target, sourceTrace, trace[i], i - 2, i);
  }
}
