/** The file-backed validator key: it signs at most one message per height, round and step, across
    crashes and restarts. Sign bytes are the canonical message they encode. */
module FilePVs {
  import opened Wrappers

  datatype VoteType = Prevote | Precommit | UnknownType

  /** Canonical sign bytes; the encoding is injective. */
  datatype SignBytes =
    | VoteBytes(voteType: VoteType, height: int, round: int, blockID: nat, time: int, chainID: string)
    | ProposalBytes(height: int, round: int, polRound: int, blockID: nat, time: int, chainID: string)
    | ExtensionBytes(height: int, round: int, extension: seq<nat>, chainID: string)

  datatype Signature = Signature(key: nat, bytes: SignBytes)

  const NIL_BLOCK: nat := 0

  datatype Vote = Vote(voteType: VoteType, height: int, round: int, blockID: nat, time: int, extension: seq<nat>,
                       signature: Option<Signature>, extensionSignature: Option<Signature>)

  datatype Proposal = Proposal(height: int, round: int, polRound: int, blockID: nat, time: int, signature: Option<Signature>)

  const STEP_PROPOSE: int := 1
  const STEP_PREVOTE: int := 2
  const STEP_PRECOMMIT: int := 3

  function VoteSignBytes(chainID: string, v: Vote): SignBytes {
    VoteBytes(v.voteType, v.height, v.round, v.blockID, v.time, chainID)
  }

  function ProposalSignBytes(chainID: string, p: Proposal): SignBytes {
    ProposalBytes(p.height, p.round, p.polRound, p.blockID, p.time, chainID)
  }

  datatype LastSign = LastSign(height: int, round: int, step: int, signature: Option<Signature>, signBytes: Option<SignBytes>)

  const EMPTY := LastSign(0, 0, 0, None, None)

  /** A call returns an error, panics, or returns the message it was given, signed. */
  datatype Outcome<T> = Refused | Panicked | Signed(message: T)

  datatype Check = Regression | Missing | CheckPanics | Fresh | SameHRS

  // ---------------------------------------------------------------- pure rules

  function CheckHRS(last: LastSign, height: int, round: int, step: int): Check {
    if last.height > height then Regression
    else if last.height != height then Fresh
    else if last.round > round then Regression
    else if last.round != round then Fresh
    else if last.step > step then Regression
    else if last.step < step then Fresh
    else if last.signBytes.None? then Missing
    else if last.signature.None? then CheckPanics
    else SameHRS
  }

  /** How stored bytes compare with new ones; bytes of another kind cannot be read. */
  datatype TimeDiff = Unreadable | Conflict | OnlyTime(time: int)

  function CompareVotes(last: SignBytes, asked: SignBytes): TimeDiff {
    match last
    case VoteBytes(t, h, r, b, time, chainID) =>
      if !asked.VoteBytes? then Unreadable
      else if asked == VoteBytes(t, h, r, b, asked.time, chainID) then OnlyTime(time) else Conflict
    case _ => Unreadable
  }

  function CompareProposals(last: SignBytes, asked: SignBytes): TimeDiff {
    match last
    case ProposalBytes(h, r, pol, b, time, chainID) =>
      if !asked.ProposalBytes? then Unreadable
      else if asked == ProposalBytes(h, r, pol, b, asked.time, chainID) then OnlyTime(time) else Conflict
    case _ => Unreadable
  }

  function StepOf(v: Vote): int {
    match v.voteType case Prevote => STEP_PREVOTE case Precommit => STEP_PRECOMMIT case UnknownType => 0
  }

  predicate AcceptsExtension(v: Vote, signExtension: bool) {
    signExtension ==> (v.voteType.Precommit? && v.blockID != NIL_BLOCK) || v.extension == []
  }

  /** Extensions of non-nil precommits are signed anew every time. */
  predicate SignsExtension(v: Vote, signExtension: bool) {
    signExtension && v.voteType.Precommit? && v.blockID != NIL_BLOCK
  }

  function WithExtension(key: nat, chainID: string, v: Vote, signExtension: bool): Vote {
    if !signExtension then v
    else if SignsExtension(v, signExtension)
    then v.(extensionSignature := Some(Signature(key, ExtensionBytes(v.height, v.round, v.extension, chainID))))
    else v.(extensionSignature := None)
  }

  /** Signing a vote: the new sign state and the outcome. `canSign` tells whether the key works. */
  function SignVoteSpec(key: nat, last: LastSign, chainID: string, v: Vote, signExtension: bool, canSign: bool)
    : (LastSign, Outcome<Vote>)
  {
    if v.voteType.UnknownType? then (last, Panicked)
    else
      var check, bytes := CheckHRS(last, v.height, v.round, StepOf(v)), VoteSignBytes(chainID, v);
      if check.CheckPanics? then (last, Panicked)
      else if !check.Fresh? && !check.SameHRS? then (last, Refused)
      else if !AcceptsExtension(v, signExtension) || (SignsExtension(v, signExtension) && !canSign) then (last, Refused)
      else
        var v' := WithExtension(key, chainID, v, signExtension);
        if check.SameHRS? then
          if bytes == last.signBytes.value then (last, Signed(v'.(signature := last.signature)))
          else match CompareVotes(last.signBytes.value, bytes)
            case Unreadable => (last, Panicked)
            case Conflict => (last, Refused)
            case OnlyTime(t) => (last, Signed(v'.(time := t, signature := last.signature)))
        else if !canSign then (last, Refused)
        else
          var sig := Some(Signature(key, bytes));
          (LastSign(v.height, v.round, StepOf(v), sig, Some(bytes)), Signed(v'.(signature := sig)))
  }

  function SignProposalSpec(key: nat, last: LastSign, chainID: string, p: Proposal, canSign: bool): (LastSign, Outcome<Proposal>) {
    var check, bytes := CheckHRS(last, p.height, p.round, STEP_PROPOSE), ProposalSignBytes(chainID, p);
    if check.CheckPanics? then (last, Panicked)
    else if check.SameHRS? then
      if bytes == last.signBytes.value then (last, Signed(p.(signature := last.signature)))
      else match CompareProposals(last.signBytes.value, bytes)
        case Unreadable => (last, Panicked)
        case Conflict => (last, Refused)
        case OnlyTime(t) => (last, Signed(p.(time := t, signature := last.signature)))
    else if !check.Fresh? || !canSign then (last, Refused)
    else
      var sig := Some(Signature(key, bytes));
      (LastSign(p.height, p.round, STEP_PROPOSE, sig, Some(bytes)), Signed(p.(signature := sig)))
  }

  // ---------------------------------------------------------------- the key in memory and on disk

  class FilePV {
    const key: nat
    var height: int
    var round: int
    var step: int
    var signature: Option<Signature>
    var signBytes: Option<SignBytes>
    var disk: LastSign

    constructor (key: nat)
      ensures this.key == key && View() == EMPTY && disk == EMPTY
    {
      this.key := key;
      height, round, step, signature, signBytes, disk := 0, 0, 0, None, None, EMPTY;
    }

    function View(): LastSign
      reads this
    {
      LastSign(height, round, step, signature, signBytes)
    }

    /** Starts again from what was persisted. */
    method Reload()
      modifies this
      ensures View() == disk == old(disk)
    {
      height, round, step, signature, signBytes := disk.height, disk.round, disk.step, disk.signature, disk.signBytes;
    }

    /** Sets the sign state and writes it out; the node does not go on after a write that fails. */
    method SaveSigned(h: int, r: int, s: int, bytes: SignBytes, sig: Signature, canWrite: bool)
      modifies this
      ensures View() == LastSign(h, r, s, Some(sig), Some(bytes)) && disk == if canWrite then View() else old(disk)
    {
      height, round, step := h, r, s;
      signature, signBytes := Some(sig), Some(bytes);
      if canWrite {
        disk := View();
      }
    }

    /** A new sign state is on disk before the signature is given out. When it cannot be written, the
        call panics instead. */
    method SignVote(chainID: string, vote: Vote, signExtension: bool, canSign: bool, canWrite: bool) returns (r: Outcome<Vote>)
      modifies this
      ensures
        var (last, outcome) := SignVoteSpec(key, old(View()), chainID, vote, signExtension, canSign);
        && View() == last && disk == (if last != old(View()) && canWrite then last else old(disk))
        && r == if last != old(View()) && !canWrite then Panicked else outcome
    {
      var signed := vote;
      if vote.voteType.UnknownType? {
        return Panicked;
      }
      var newStep := StepOf(vote);
      var check := CheckHRS(View(), vote.height, vote.round, newStep);
      if check.CheckPanics? {
        return Panicked;
      }
      if check.Regression? || check.Missing? {
        return Refused;
      }
      var bytes := VoteSignBytes(chainID, vote);
      if signExtension {
        if vote.voteType.Precommit? && vote.blockID != NIL_BLOCK {
          if !canSign {
            return Refused;
          }
          var extension := ExtensionBytes(vote.height, vote.round, vote.extension, chainID);
          signed := signed.(extensionSignature := Some(Signature(key, extension)));
        } else if vote.extension != [] {
          return Refused;
        } else {
          signed := signed.(extensionSignature := None);
        }
      }
      if check.SameHRS? {
        if bytes == signBytes.value {
          return Signed(signed.(signature := signature));
        }
        var diff := CompareVotes(signBytes.value, bytes);
        if diff.Unreadable? {
          return Panicked;
        }
        if diff.Conflict? {
          return Refused;
        }
        return Signed(signed.(time := diff.time, signature := signature));
      }
      if !canSign {
        return Refused;
      }
      var sig := Signature(key, bytes);
      SaveSigned(vote.height, vote.round, newStep, bytes, sig, canWrite);
      if !canWrite {
        return Panicked;
      }
      return Signed(signed.(signature := Some(sig)));
    }

    method SignProposal(chainID: string, proposal: Proposal, canSign: bool, canWrite: bool) returns (r: Outcome<Proposal>)
      modifies this
      ensures
        var (last, outcome) := SignProposalSpec(key, old(View()), chainID, proposal, canSign);
        && View() == last && disk == (if last != old(View()) && canWrite then last else old(disk))
        && r == if last != old(View()) && !canWrite then Panicked else outcome
    {
      var check := CheckHRS(View(), proposal.height, proposal.round, STEP_PROPOSE);
      if check.CheckPanics? {
        return Panicked;
      }
      if check.Regression? || check.Missing? {
        return Refused;
      }
      var bytes := ProposalSignBytes(chainID, proposal);
      if check.SameHRS? {
        if bytes == signBytes.value {
          return Signed(proposal.(signature := signature));
        }
        var diff := CompareProposals(signBytes.value, bytes);
        if diff.Unreadable? {
          return Panicked;
        }
        if diff.Conflict? {
          return Refused;
        }
        return Signed(proposal.(time := diff.time, signature := signature));
      }
      if !canSign {
        return Refused;
      }
      var sig := Signature(key, bytes);
      SaveSigned(proposal.height, proposal.round, STEP_PROPOSE, bytes, sig, canWrite);
      if !canWrite {
        return Panicked;
      }
      return Signed(proposal.(signature := Some(sig)));
    }

    /** One event at the key, with the restart that follows a crash or a panic. */
    method Handle(e: Event, ghost run: Run) returns (released: Option<Release>, panicked: bool)
      requires run.memory == View() && run.disk == disk
      modifies this
      ensures Run(View(), disk, run.released + Listed(released), run.panics + if panicked then 1 else 0) == Next(key, run, e)
    {
      hide SignVoteSpec, SignProposalSpec, VoteSignBytes, ProposalSignBytes;
      released, panicked := None, false;
      var before := View();
      assert run.released + [] == run.released;
      match e
      case AskVote(chainID, vote, signExtension, canSign, crash) =>
        VotePanicKeeps(key, before, chainID, vote, signExtension, canSign);
        var r := SignVote(chainID, vote, signExtension, canSign, !crash.BeforeSave?);
        panicked := r.Panicked? && View() == before;
        if crash.NoCrash? && r.Signed? {
          released := Some(Release(View(), VoteSignBytes(chainID, r.message), r.message.signature));
        }
        if panicked || !crash.NoCrash? {
          Reload();
        }
      case AskProposal(chainID, proposal, canSign, crash) =>
        ProposalPanicKeeps(key, before, chainID, proposal, canSign);
        var r := SignProposal(chainID, proposal, canSign, !crash.BeforeSave?);
        panicked := r.Panicked? && View() == before;
        if crash.NoCrash? && r.Signed? {
          released := Some(Release(View(), ProposalSignBytes(chainID, r.message), r.message.signature));
        }
        if panicked || !crash.NoCrash? {
          Reload();
        }
      case Restart =>
        Reload();
    }
  }

  /** A panic leaves the sign state as it was. */
  lemma VotePanicKeeps(key: nat, last: LastSign, chainID: string, v: Vote, signExtension: bool, canSign: bool)
    ensures
      var (last', r) := SignVoteSpec(key, last, chainID, v, signExtension, canSign);
      r.Panicked? ==> last' == last
  {
  }

  lemma ProposalPanicKeeps(key: nat, last: LastSign, chainID: string, p: Proposal, canSign: bool)
    ensures
      var (last', r) := SignProposalSpec(key, last, chainID, p, canSign);
      r.Panicked? ==> last' == last
  {
  }

  /** A new key that is asked for signatures and interrupted in any way gives out what `Execute` says. */
  method Serve(key: nat, events: seq<Event>) returns (pv: FilePV, released: seq<Release>, panics: nat)
    ensures fresh(pv) && pv.key == key && Run(pv.View(), pv.disk, released, panics) == Execute(key, events)
  {
    hide Next;
    pv := new FilePV(key);
    released, panics := [], 0;
    for i := 0 to |events|
      invariant fresh(pv) && pv.key == key && Run(pv.View(), pv.disk, released, panics) == Execute(key, events[..i])
    {
      assert events[..i + 1][..i] == events[..i];
      var one, panicked := pv.Handle(events[i], Execute(key, events[..i]));
      released, panics := released + Listed(one), panics + if panicked then 1 else 0;
    }
    assert events[..|events|] == events;
  }

  // ---------------------------------------------------------------- what the sign state keeps

  /** The height, round and step that sign bytes are for. */
  function StepOfBytes(b: SignBytes): int {
    match b
    case VoteBytes(t, _, _, _, _, _) => (match t case Prevote => STEP_PREVOTE case Precommit => STEP_PRECOMMIT case UnknownType => 0)
    case ProposalBytes(_, _, _, _, _, _) => STEP_PROPOSE
    case ExtensionBytes(_, _, _, _) => 0
  }

  predicate BytesFor(b: SignBytes, height: int, round: int, step: int) {
    (b.VoteBytes? || b.ProposalBytes?) && b.height == height && b.round == round && StepOfBytes(b) == step && step > 0
  }

  /** What is stored is nothing at all, or a signature by this key over bytes of the stored height,
      round and step. */
  predicate Sound(key: nat, last: LastSign) {
    last != EMPTY ==>
      && last.signBytes.Some? && last.signature == Some(Signature(key, last.signBytes.value))
      && BytesFor(last.signBytes.value, last.height, last.round, last.step)
  }

  predicate NotAfter(a: LastSign, b: LastSign) {
    || a.height < b.height
    || (a.height == b.height && (a.round < b.round || (a.round == b.round && a.step <= b.step)))
  }

  /** The signature a vote carries verifies over the vote's own sign bytes. */
  predicate VerifiesVote(key: nat, chainID: string, v: Vote) {
    v.signature == Some(Signature(key, VoteSignBytes(chainID, v)))
  }

  predicate VerifiesProposal(key: nat, chainID: string, p: Proposal) {
    p.signature == Some(Signature(key, ProposalSignBytes(chainID, p)))
  }

  /** Signing a vote keeps the state sound and never goes back; it panics only on a vote of unknown
      type; a signed vote verifies, is the vote asked for up to its time, and its bytes are the ones
      now stored. */
  lemma SignVoteOk(key: nat, last: LastSign, chainID: string, v: Vote, signExtension: bool, canSign: bool)
    requires Sound(key, last)
    ensures
      var (last', r) := SignVoteSpec(key, last, chainID, v, signExtension, canSign);
      && Sound(key, last') && NotAfter(last, last')
      && (r.Panicked? <==> v.voteType.UnknownType?)
      && (NotAfter(last, last') && NotAfter(last', last) ==> last' == last)
      && (r.Signed? ==>
            && VerifiesVote(key, chainID, r.message)
            && r.message.(time := v.time, signature := v.signature, extensionSignature := v.extensionSignature) == v
            && last'.signBytes == Some(VoteSignBytes(chainID, r.message))
            && last'.height == v.height && last'.round == v.round && last'.step == StepOf(v))
  {
  }

  lemma SignProposalOk(key: nat, last: LastSign, chainID: string, p: Proposal, canSign: bool)
    requires Sound(key, last)
    ensures
      var (last', r) := SignProposalSpec(key, last, chainID, p, canSign);
      && Sound(key, last') && NotAfter(last, last')
      && !r.Panicked?
      && (NotAfter(last, last') && NotAfter(last', last) ==> last' == last)
      && (r.Signed? ==>
            && VerifiesProposal(key, chainID, r.message)
            && r.message.(time := p.time, signature := p.signature) == p
            && last'.signBytes == Some(ProposalSignBytes(chainID, r.message))
            && last'.height == p.height && last'.round == p.round && last'.step == STEP_PROPOSE)
  {
  }

  /** The height, round and step lie strictly after those of the last signature. */
  predicate Ahead(last: LastSign, height: int, round: int, step: int) {
    || height > last.height
    || (height == last.height && (round > last.round || (round == last.round && step > last.step)))
  }

  predicate At(last: LastSign, height: int, round: int, step: int) {
    height == last.height && round == last.round && step == last.step
  }

  /** The last signature is over the same vote, apart from its time. */
  predicate SignedBefore(last: LastSign, chainID: string, v: Vote) {
    && At(last, v.height, v.round, if v.voteType.Precommit? then 3 else 2) && last.signBytes.Some?
    && last.signBytes.value.VoteBytes?
    && last.signBytes.value == VoteBytes(v.voteType, v.height, v.round, v.blockID, last.signBytes.value.time, chainID)
  }

  predicate ProposedBefore(last: LastSign, chainID: string, p: Proposal) {
    && At(last, p.height, p.round, 1) && last.signBytes.Some? && last.signBytes.value.ProposalBytes?
    && last.signBytes.value == ProposalBytes(p.height, p.round, p.polRound, p.blockID, last.signBytes.value.time, chainID)
  }

  /** Extensions may be signed with a vote only if it is a precommit for a block; other votes must not
      carry one then. */
  predicate ExtensionFits(v: Vote, signExtension: bool) {
    !signExtension || (v.voteType.Precommit? && v.blockID != 0) || v.extension == []
  }

  predicate NeedsExtension(v: Vote, signExtension: bool) {
    signExtension && v.voteType.Precommit? && v.blockID != 0
  }

  /** The vote as it is given out: with the time its signature covers, the signature over its own bytes,
      and the signature over its own extension where one is due. */
  predicate GivenOut(key: nat, chainID: string, v: Vote, signExtension: bool, time: int, signed: Vote) {
    && signed.(signature := v.signature, extensionSignature := v.extensionSignature) == v.(time := time)
    && signed.signature == Some(Signature(key, VoteBytes(v.voteType, v.height, v.round, v.blockID, time, chainID)))
    && signed.extensionSignature == if !signExtension then v.extensionSignature
                                    else if NeedsExtension(v, signExtension)
                                    then Some(Signature(key, ExtensionBytes(v.height, v.round, v.extension, chainID)))
                                    else None
  }

  /** A vote of a known type is signed if and only if its extension fits, the key works where it is
      needed, and the vote lies ahead of the last signature or is the one last signed up to its time. A
      new one is signed as asked and becomes the last; one signed before comes with its old time and
      signature. Every other vote is refused and changes nothing. */
  lemma SignVoteExactly(key: nat, last: LastSign, chainID: string, v: Vote, signExtension: bool, canSign: bool)
    requires Sound(key, last) && !v.voteType.UnknownType?
    ensures
      var step := if v.voteType.Precommit? then 3 else 2;
      var (last', r) := SignVoteSpec(key, last, chainID, v, signExtension, canSign);
      && (r.Signed? <==>
            && ExtensionFits(v, signExtension) && (NeedsExtension(v, signExtension) ==> canSign)
            && ((Ahead(last, v.height, v.round, step) && canSign) || SignedBefore(last, chainID, v)))
      && (!r.Signed? ==> r.Refused? && last' == last)
      && ((r.Signed? && SignedBefore(last, chainID, v)) ==>
            last' == last && GivenOut(key, chainID, v, signExtension, last.signBytes.value.time, r.message))
      && ((r.Signed? && !SignedBefore(last, chainID, v)) ==>
            && GivenOut(key, chainID, v, signExtension, v.time, r.message)
            && last' == LastSign(v.height, v.round, step, r.message.signature, Some(r.message.signature.value.bytes)))
  {
  }

  /** The same for proposals, which carry no extension. */
  lemma SignProposalExactly(key: nat, last: LastSign, chainID: string, p: Proposal, canSign: bool)
    requires Sound(key, last)
    ensures
      var (last', r) := SignProposalSpec(key, last, chainID, p, canSign);
      var before := ProposedBefore(last, chainID, p);
      && (r.Signed? <==> (Ahead(last, p.height, p.round, 1) && canSign) || before)
      && (!r.Signed? ==> r.Refused? && last' == last)
      && (r.Signed? ==>
            var time := if before then last.signBytes.value.time else p.time;
            var bytes := ProposalBytes(p.height, p.round, p.polRound, p.blockID, time, chainID);
            && r.message == p.(time := time, signature := Some(Signature(key, bytes)))
            && last' == if before then last else LastSign(p.height, p.round, 1, Some(Signature(key, bytes)), Some(bytes)))
  {
  }

  // ---------------------------------------------------------------- whole runs

  /** Where a crash hits a call, if one does: the signature is lost before or after it is persisted. */
  datatype Crash = NoCrash | BeforeSave | AfterSave

  datatype Event =
    | AskVote(chainID: string, vote: Vote, signExtension: bool, canSign: bool, crash: Crash)
    | AskProposal(chainID: string, proposal: Proposal, canSign: bool, crash: Crash)
    | Restart

  /** A signature given out: what it was for, the bytes it signs, and the state that stood behind it. */
  datatype Release = Release(at: LastSign, bytes: SignBytes, signature: Option<Signature>)

  datatype Run = Run(memory: LastSign, disk: LastSign, released: seq<Release>, panics: nat)

  function Listed(r: Option<Release>): seq<Release> {
    if r.Some? then [r.value] else []
  }

  const BEGIN := Run(EMPTY, EMPTY, [], 0)

  /** The run after a call that leads to `last` and, if it signs, gives out `released`. A panic ends
      the process, which comes back with what is on disk. */
  function After(run: Run, last: LastSign, panicked: bool, released: Option<Release>, crash: Crash): Run {
    if panicked then run.(memory := run.disk, panics := run.panics + 1)
    else match crash
      case NoCrash =>
        run.(memory := last, disk := if last == run.memory then run.disk else last,
             released := if released.Some? then run.released + [released.value] else run.released)
      case BeforeSave => run.(memory := run.disk)
      case AfterSave =>
        var disk := if last == run.memory then run.disk else last;
        run.(memory := disk, disk := disk)
  }

  function Next(key: nat, run: Run, e: Event): Run {
    match e
    case AskVote(chainID, vote, signExtension, canSign, crash) =>
      var (last, r) := SignVoteSpec(key, run.memory, chainID, vote, signExtension, canSign);
      After(run, last, r.Panicked?,
            if r.Signed? then Some(Release(last, VoteSignBytes(chainID, r.message), r.message.signature)) else None, crash)
    case AskProposal(chainID, proposal, canSign, crash) =>
      var (last, r) := SignProposalSpec(key, run.memory, chainID, proposal, canSign);
      After(run, last, r.Panicked?,
            if r.Signed? then Some(Release(last, ProposalSignBytes(chainID, r.message), r.message.signature)) else None, crash)
    case Restart => run.(memory := run.disk)
  }

  predicate UnknownVote(e: Event) {
    e.AskVote? && e.vote.voteType.UnknownType?
  }

  function UnknownVotes(events: seq<Event>): nat {
    if events == [] then 0
    else UnknownVotes(events[..|events| - 1]) + if UnknownVote(events[|events| - 1]) then 1 else 0
  }

  function Execute(key: nat, events: seq<Event>): Run {
    if events == [] then BEGIN else Next(key, Execute(key, events[..|events| - 1]), events[|events| - 1])
  }

  predicate SameStep(a: LastSign, b: LastSign) {
    a.height == b.height && a.round == b.round && a.step == b.step
  }

  /** A release is backed by a sound state that is not after the current one. */
  predicate Backed(key: nat, r: Release, last: LastSign) {
    && Sound(key, r.at) && r.at.signBytes == Some(r.bytes) && r.signature == Some(Signature(key, r.bytes))
    && NotAfter(r.at, last) && (SameStep(r.at, last) ==> r.at == last)
  }

  predicate RunOk(key: nat, run: Run) {
    && run.memory == run.disk && Sound(key, run.memory)
    && (forall i :: 0 <= i < |run.released| ==> Backed(key, run.released[i], run.memory))
    && (forall i, j :: 0 <= i < j < |run.released| ==>
          && NotAfter(run.released[i].at, run.released[j].at)
          && (SameStep(run.released[i].at, run.released[j].at) ==> run.released[i].at == run.released[j].at))
  }

  lemma AfterOk(key: nat, run: Run, last: LastSign, panicked: bool, released: Option<Release>, crash: Crash)
    requires RunOk(key, run) && Sound(key, last) && NotAfter(run.memory, last)
    requires SameStep(run.memory, last) ==> last == run.memory
    requires released.Some? ==>
               && released.value.at == last && last.signBytes == Some(released.value.bytes)
               && released.value.signature == Some(Signature(key, released.value.bytes))
    ensures
      var run' := After(run, last, panicked, released, crash);
      RunOk(key, run') && run'.panics == run.panics + if panicked then 1 else 0
  {
    hide Sound;
  }

  lemma NextOk(key: nat, run: Run, e: Event)
    requires RunOk(key, run)
    ensures RunOk(key, Next(key, run, e)) && Next(key, run, e).panics == run.panics + if UnknownVote(e) then 1 else 0
  {
    hide SignVoteSpec, SignProposalSpec, After;
    match e
    case AskVote(chainID, vote, signExtension, canSign, crash) =>
      SignVoteOk(key, run.memory, chainID, vote, signExtension, canSign);
      var (last, r) := SignVoteSpec(key, run.memory, chainID, vote, signExtension, canSign);
      AfterOk(key, run, last, r.Panicked?,
              if r.Signed? then Some(Release(last, VoteSignBytes(chainID, r.message), r.message.signature)) else None, crash);
    case AskProposal(chainID, proposal, canSign, crash) =>
      SignProposalOk(key, run.memory, chainID, proposal, canSign);
      var (last, r) := SignProposalSpec(key, run.memory, chainID, proposal, canSign);
      AfterOk(key, run, last, r.Panicked?,
              if r.Signed? then Some(Release(last, ProposalSignBytes(chainID, r.message), r.message.signature)) else None, crash);
    case Restart =>
  }

  /** After every run memory and disk agree and are sound, and the only panics were those on votes of
      an unknown type. */
  lemma {:induction false} ExecuteOk(key: nat, events: seq<Event>)
    ensures RunOk(key, Execute(key, events)) && Execute(key, events).panics == UnknownVotes(events)
  {
    if events != [] {
      hide RunOk, Next, UnknownVote;
      ExecuteOk(key, events[..|events| - 1]);
      NextOk(key, Execute(key, events[..|events| - 1]), events[|events| - 1]);
    }
  }

  /** Over every run with crashes, panics and restarts anywhere: the height, round and step of what is
      given out never decrease; every signature given out is valid for bytes of its height, round and
      step; and any two for the same height, round and step are the same signature over the same
      bytes. */
  lemma NeverSignsTwice(key: nat, events: seq<Event>, i: nat, j: nat)
    requires i < j < |Execute(key, events).released|
    ensures
      var run := Execute(key, events);
      var a, b := run.released[i], run.released[j];
      && NotAfter(a.at, b.at)
      && (b.bytes.VoteBytes? || b.bytes.ProposalBytes?) && BytesFor(b.bytes, b.at.height, b.at.round, b.at.step)
      && b.signature == Some(Signature(key, b.bytes))
      && (SameStep(a.at, b.at) ==> a.bytes == b.bytes && a.signature == b.signature)
  {
    hide Execute;
    ExecuteOk(key, events);
    var b := Execute(key, events).released[j];
    assert Backed(key, b, Execute(key, events).memory);
  }

  /** Whatever happened before, a request that is not interrupted is answered with a signature exactly
      under the condition of `SignVoteExactly`, measured against what is on disk; a signature given out
      for the same height, round and step before is given out again. */
  lemma AnswersExactly(key: nat, events: seq<Event>, chainID: string, v: Vote, signExtension: bool, canSign: bool)
    requires !v.voteType.UnknownType?
    ensures
      var step := if v.voteType.Precommit? then 3 else 2;
      var run, run' := Execute(key, events), Execute(key, events + [AskVote(chainID, v, signExtension, canSign, NoCrash)]);
      if && ExtensionFits(v, signExtension) && (NeedsExtension(v, signExtension) ==> canSign)
         && ((Ahead(run.disk, v.height, v.round, step) && canSign) || SignedBefore(run.disk, chainID, v))
      then
        && |run'.released| == |run.released| + 1 && run'.released[..|run.released|] == run.released
        && var time := if SignedBefore(run.disk, chainID, v) then run.disk.signBytes.value.time else v.time;
        run'.released[|run.released|].bytes == VoteBytes(v.voteType, v.height, v.round, v.blockID, time, chainID)
      else run' == run
  {
    hide SignVoteSpec, Execute, Sound, Ahead, SignedBefore, ExtensionFits, NeedsExtension;
    ExecuteOk(key, events);
    var run, e := Execute(key, events), AskVote(chainID, v, signExtension, canSign, NoCrash);
    SignVoteExactly(key, run.disk, chainID, v, signExtension, canSign);
    ExecuteOneMore(key, events, e);
  }

  lemma ExecuteOneMore(key: nat, events: seq<Event>, e: Event)
    ensures Execute(key, events + [e]) == Next(key, Execute(key, events), e)
  {
    hide Next;
    assert (events + [e])[..|events|] == events;
  }
}
