# Verified model of the CometBFT stores, light client and controller mediation

This project models the parts of the CometBFT snapshot in this repository whose correctness is hardest to
see from the code, and proves what they promise. Each component has a specification on plain values, and
where the code updates state in place, a class or a method with the code's own loops that is proved against
that specification.

- **State store history.** `ValidatorSet.dfy` models proposer priorities. `StateModel.dfy` models the
  compressed tables, the state update, pruning and rollback. `StateHistory.dfy` relates the tables to a plain
  history with one validator set and one parameter record per height; `StateSteps.dfy` and
  `StateRollback.dfy` prove that every step keeps that relation. `StateDb.dfy` and `Rollbacks.dfy` are the
  procedures.
- **Block store and pruner.** `BlockStore.dfy`, `BlockStoreDb.dfy`, `Pruner.dfy`, `PrunerDb.dfy`, `AnchorLoss.dfy`,
  `BlockReads.dfy`.
- **Light client.** `Commits.dfy` (commit verification), `LightVerifier.dfy`, `LightClient.dfy` (bisection and
  fork search), `Evidence.dfy`.
- **Controller mediation.** `Mediation.dfy` is a state machine over the steps of submitters, the callback
  acceptor, two workers and the lifecycle; `MediationSafety.dfy` proves its invariant, `MediationTheorems.dfy`
  its promises, `MediationProgress.dfy` what gets done and `MediationLifecycle.dfy` that starts and stops do;
  `MediationCodec.dfy` covers what crosses the wire and the configuration limits.
- **Validator key.** `FilePV.dfy`.
- **Mempool.** `MempoolModel.dfy`, `CList.dfy`, `RecheckLog.dfy`, `Mempool.dfy`.
- **State sync.** `SnapshotPool.dfy`, `Chunks.dfy`, `ChunkSync.dfy`, `ChunkSyncDb.dfy`.

Hashes are modelled as the values they hash, signatures as the pair of signer and message, databases as maps,
clocks, timeouts and network answers as parameters or nondeterministic steps. How a validator set absorbs an
update and how parameters absorb theirs are parameters (`Rules`) that may also refuse.

Four properties one might expect do not hold, and the model keeps the code as it is. Jumping several rotations
at once does not always equal single rotations, because the priority cap is applied once per jump
(`SplitCanFail`; the exact condition is `IncrementMatchesHistory` and, for the store, `ExactIffCalm`). Pruning
with an evidence height below the target can make a stretch of heights unloadable, because the kept checkpoint
is computed from the target (`AnchorLossIsReachable`, `LossAtPruner`; exactly which heights is `PruneKeepsLoad`,
and over whole runs `EvidenceAccounted`). A slot token can outlive a clean stop (`LateSubmitterHoldsToken`;
exactly one per submitter in transit by `StopDelivers`). The signal that a recheck is over can be left behind by
a timeout, and then the next recheck stays open and stops the node (`LeftoverSignal`, `LeftoverHappens`,
`CollisionHappens`; exactly when is `SignalMeansDone`, `OpenExactly` and, over whole runs, `Handle` and `Run`).

## Model

| member | source | states |
|---|---|---|
| `ValidatorSets.IncrementProposerPriority` | cometbft/types/validator_set.go:131-155 | the loop over rounds, capping and centring included, computes `Increment` |
| `ValidatorSets.IncrementSplits` | cometbft/types/validator_set.go:131-178 | advancing by a and then by b is advancing by a+b, provided the priority cap does not fire in between |
| `ValidatorSets.CapChangesNextStep` | cometbft/types/validator_set.go:158-193 | whenever the cap fires on a centred set, the next rotation differs from the one without the cap |
| `ValidatorSets.IncrementMatchesHistory` | cometbft/types/validator_set.go:131-178 | one jump of every length up to n reproduces n single rotations if and only if the cap fires on none of the intermediate sets |
| `ValidatorSets.SplitCanFail` | cometbft/types/validator_set.go:131-178 | a concrete set of three validators on which two single rotations differ from one double rotation |
| `ValidatorSets.StepsKeepSum` | cometbft/types/validator_set.go:181-193 | rotation keeps the sum of the priorities, for any number of rounds |
| `ValidatorSets.ShiftCenters` | cometbft/types/validator_set.go:196-250 | shifting by the average leaves the sum of priorities between zero and the number of validators |
| `ValidatorSets.RescaleCaps` | cometbft/types/validator_set.go:158-178 | capping brings the priorities within the window and never reverses two of them; priorities within it are left alone |
| `ValidatorSets.ProposerIsNext` | cometbft/types/validator_set.go:148-193 | the proposer after k rotations is the one that had the highest priority in the last of them, with the lowest address among equals, and it alone paid the total |
| `StateHistory.PointerResolves` | cometbft/state/store.go:859-905 | an entry that holds no set resolves to a stored height that is present and full, between 1 and 99999 heights below |
| `StateHistory.LoadMatches` | cometbft/state/store.go:859-905 | over a store that refines the history, loading gives the history's set at every retained height: always with the same members and powers, and exactly if no rotation between pointers from the checkpoint below on is capped |
| `StateHistory.ExactIffCalm` | cometbft/state/store.go:859-905 | pruned or not, the store gives back every retained set with its exact priorities if and only if the lowest retained one loads exactly and no rotation between retained pointers starts from a capped set |
| `StateHistory.FullFirstIsExact` | cometbft/state/store.go:859-905 | a lowest retained height stored in full loads exactly, so there only the cap decides |
| `StateHistory.LoadParamsMatches` | cometbft/state/store.go:973-998 | loading consensus parameters gives the history's parameters at every retained height |
| `StateSteps.GenesisRefines` | cometbft/state/store.go:328-372 | saving a genesis state succeeds and establishes the refinement |
| `StateSteps.BootstrapRefines` | cometbft/state/store.go:375-417 | bootstrapping a state establishes the refinement, with or without last validators |
| `StateSteps.ApplySucceeds` | cometbft/state/execution.go:227-310 | applying a valid block to a refined store never fails in the store once the update is computed |
| `StateSteps.ApplyRefines` | cometbft/state/execution.go:615-682 | updating and then saving extends the history by exactly one height of validators and one of parameters, and keeps the refinement |
| `StateSteps.ApplyMeans` | cometbft/state/execution.go:615-682 | a block is applied exactly if it continues the state and its updates are absorbed; then the set of height+2 is one rotation of the state's next set with the updates absorbed, the parameters of height+1 are those of height with theirs, the state records block, time, results and application hash, and the store loads those members and parameters |
| `StateSteps.PruneRefines` | cometbft/state/store.go:427-566 | pruning always succeeds and keeps the refinement: for parameters from the target on, for validators from min(target, evidence height) on, or from the first full entry on when the anchor is lost |
| `StateSteps.PruneKeepsLoad` | cometbft/state/store.go:427-566 | each height from min(target, evidence height) on loads what it loaded before if and only if it is not in the lost stretch between the evidence height and the first full entry; there it stops loading |
| `StateSteps.PruneKeepsLoadsIff` | cometbft/state/store.go:427-566 | validators load unchanged at every height from min(to, evidence height) on if and only if pruning does not lose the anchor: the evidence height is a pointer to its own checkpoint, and that checkpoint is below the one kept for the target |
| `StateSteps.PruneKeepsParams` | cometbft/state/store.go:427-566 | consensus parameters load unchanged at every height from the target on |
| `StateRollback.AnchorLossIsReachable` | cometbft/state/store.go:427-566 | for every genesis and every run of 200000 or more quiet blocks, pruning to the top with evidence from height 150000 on succeeds and makes that height unloadable |
| `StateRollback.RollbackRefines` | cometbft/state/rollback.go:15-126 | rolling back succeeds on a refined store, and the store saved afterwards refines the history cut back by one block |
| `StateRollback.RollbackRestores` | cometbft/state/rollback.go:15-126 | rolling back right after applying block n rebuilds the state before n, with the change heights raised to n+1 for validators and n for parameters only where that block changed them, and with the versions of the running node; the last validators come back with the same members always, and equal if and only if that height loads exactly |
| `StateRollback.ReapplyRestores` | cometbft/state/rollback.go:80-110 | applying the same block and response to the state the rollback returns gives back the state rolled back from, if and only if the version before the block is the one the rollback rebuilds; the reloaded last validators make no difference |
| `StateRollback.RunRefines` | cometbft/state/store.go:324-566 | over every run of genesis, bootstrap, block, prune and rollback steps, anchor-losing prunes included, the store refines the plain history: members and powers always, priorities too if the history is calm wherever it is rolled back |
| `StateDb.DbStore.SaveState` | cometbft/state/store.go:324-372 | the batch of a save leaves exactly the saved tables, or nothing on an error |
| `StateDb.DbStore.BootstrapState` | cometbft/state/store.go:375-417 | a bootstrap leaves exactly the bootstrapped tables |
| `StateDb.DbStore.ReadValidators` | cometbft/state/store.go:859-899 | the read, with its rotation loop, returns what `LoadValidators` specifies, errors included |
| `StateDb.DbStore.PruneLoop` | cometbft/state/store.go:457-554 | the downward loop with a flush every thousand heights leaves the tables of `PruneStates`, and on an unreadable kept height the tables of a prune that stopped at a flush boundary |
| `StateDb.DbStore.PruneStatesTo` | cometbft/state/store.go:427-566 | pruning returns without error exactly when the bounds are proper, the needed entries exist and every kept height is readable; the count is the number of heights |
| `Rollbacks.Rollback` | cometbft/state/rollback.go:15-126 | heights further apart than one are refused; a pending block is only dropped, and only if asked for; otherwise the state rebuilt from the two last block metas is saved; whatever fails changes nothing; and on every reachable node that kept two blocks it succeeds, returns the height below, and leaves a state store that refines the history without the last block |
| `Rollbacks.RollbackUndoesApply` | cometbft/state/rollback.go:15-126 | on every reachable node that kept two blocks, rolling back right after a block was applied rebuilds the state before it in the sense of `Restores` |
| `BlockStores.SaveKeepsContiguous` | cometbft/store/store.go:665-746 | saving a new block keeps every height from base to height complete |
| `BlockStores.PruneKeepsContiguous` | cometbft/store/store.go:474-577 | when pruning returns, every height from the new base to the top still has its meta, hash entry, commit and all parts |
| `BlockStores.PruneKeepsEvidence` | cometbft/store/store.go:474-577 | pruning keeps header and commit of every height that is within the evidence age in time or in blocks, and of every height below the old base |
| `BlockStores.PruneRemoves` | cometbft/store/store.go:474-577 | below the target no body is left, and below the evidence point no header and commit |
| `BlockStores.RaisedAgeComesTooLate` | cometbft/store/store.go:508-533 | a header that pruning removed would still be unexpired under a longer evidence age set later |
| `BlockStores.EvidencePoint` | cometbft/store/store.go:508-517 | the point is the first height in range whose evidence is usable, everything stored before it has expired |
| `BlockStores.DeleteTopUndoesSave` | cometbft/store/store.go:859-896 | deleting the latest block undoes saving it, except for the commit it carried for the block below |
| `BlockReads.BlocksReadBack` | cometbft/store/store.go:665-746 | over every run of saves, applications and prunes, each height from base to height reads back the block, its parts and the seen commit with which it was saved |
| `BlockStoreDb.BlockStore.Save` | cometbft/store/store.go:665-746 | a save is accepted exactly for the next height, a complete part set and a commit of that height, and writes exactly its records |
| `BlockStoreDb.BlockStore.Prune` | cometbft/store/store.go:474-577 | pruning with a flush every thousand blocks leaves the tables of `PruneBlocks`, returns the evidence point and the exact number of stored blocks in range; a refused height changes nothing |
| `BlockStoreDb.BlockStore.DeleteLatestBlock` | cometbft/store/store.go:859-896 | removes the top block and skips whatever of it is missing |
| `Pruning.PruneAvailable` | cometbft/state/pruner.go:497-520 | in every reachable node the prune of both stores succeeds exactly when the block store accepts the height: the state store never refuses what the block store pruned |
| `Pruning.RunKeeps` | cometbft/state/pruner.go:497-520 | over every run of starts, saves, applications and prunes in any order, the block store is at most one block ahead, every block from base to height is complete, the state store refines the history, and every saved height is accounted for |
| `Pruning.EvidenceAccounted` | cometbft/state/pruner.go:497-520 | over every run and for each saved height: the header and, below the top, the very commit that came with the next block are there if and only if no prune dropped them, and only expired ones are dropped; of those kept, the validators load with the members of the history if and only if no prune lost their anchor |
| `Pruning.EvidenceSurvives` | cometbft/state/pruner.go:497-520 | while no earlier prune used a shorter evidence age, every saved height whose evidence is not expired keeps header and commit, and its validators load with the members of the history if and only if no prune lost their anchor |
| `AnchorLoss.LossAtPruner` | cometbft/state/pruner.go:497-520 | for every genesis and every run of 200000 or more quiet blocks saved and applied, a prune to the top with evidence from height 150000 on keeps that unexpired header and commit, and its validators no longer load |
| `PruningDb.PruneBlocksToHeight` | cometbft/state/pruner.go:497-520 | the procedure over both stores succeeds exactly for the heights the block store accepts, also when an anchor is lost; a refused height changes nothing, otherwise both stores end as the run's prune step says and the exact count and evidence point are returned |
| `Commits.VerifyCommitSingle` | cometbft/types/validation.go:329-404 | the loop computes the verdict of `Scan`, both leaving at enough power and checking every signature |
| `Commits.VerifyCommitBatch` | cometbft/types/validation.go:216-321 | collecting first and verifying at the end computes the verdict of the batched `Scan`, in both modes |
| `Commits.AcceptedMeans` | cometbft/types/validation.go:329-404 | acceptance means more than the needed power validly signed the commit; too little power means at most that; and on a commit without wrong or repeated signatures acceptance holds exactly then |
| `Commits.AllChecked` | cometbft/types/validation.go:86-180 | when every signature is checked, a commit is accepted if and only if none of its counted signatures is wrong or repeated and the signers hold more than the needed power |
| `Commits.VerdictExactly` | cometbft/types/validation.go:216-404 | both ways of checking accept exactly the commits that carry enough power before the first wrong or repeated signature, and report too little exactly on those that are in order but fall short; everything else is rejected |
| `Commits.BatchAgrees` | cometbft/types/validation.go:208-321 | batching accepts the same commits; it differs only by reporting too little power where single checking rejects, and never on a clean commit |
| `LightVerifier.VerifyMeans` | cometbft/light/verifier.go:30-190 | success means rising height and time, a matching validators hash, over two thirds of the new set, and either the announced next set or over the trust level of the trusted set |
| `LightVerifier.VerifyExactly` | cometbft/light/verifier.go:30-190 | a header is accepted exactly if it is plausible, signed by over two thirds of its own set, and announced or signed by more than the trust level of the trusted set; it calls for bisection exactly if it is plausible, not adjacent, and its signatures are in order but not worth that level |
| `LightVerifier.ProperNotRefused` | cometbft/light/verifier.go:30-190 | a plausible block that its validators signed properly is never refused |
| `LightVerifier.BatchVerifiesSame` | cometbft/light/verifier.go:133-149 | the verification mode of the keys never changes which headers are accepted |
| `LightVerifier.StepIsCanonical` | cometbft/light/verifier.go:133-202 | with under a third of faulty power in the sets that canonical headers name, a verified step from a canonical block leads to a canonical block, for every trust level in [1/3, 1] |
| `LightClient.PivotBetween` | cometbft/light/client.go:745-747 | the 9/16 pivot lies strictly between its bounds whenever it is computed |
| `LightClient.VerifySkipping` | cometbft/light/client.go:702-769 | terminates for every provider that answers with the height asked for; a returned trace starts at the trusted block, ends at the target and is verified pair by pair; and it succeeds on every source that serves a properly signed chain within the trusting period |
| `LightClient.TraceRises` | cometbft/light/client.go:702-769 | heights and times rise strictly along a verified trace |
| `LightClient.TraceIsCanonical` | cometbft/light/client.go:702-769 | every block of a verified trace that starts canonical is canonical |
| `LightClient.ExamineConflictingHeader` | cometbft/light/detector.go:302-384 | for a target above the first trace block, the source's chain is verified, starts on the trace, and the returned block is its fork: same height with another hash, or above the target and not later; at the first trace height the returned chain is empty; and against a source that serves a proper chain of its own it succeeds exactly if that chain diverges from the trace |
| `Evidence.GetByzantineValidators` | cometbft/types/evidence.go:260-319 | of a header that differs in a derived field it collects the common validators that voted for it, of one that does not, in the same round, those who voted for both, ordered by power and address; an unresolvable entry yields no list |
| `Evidence.ByPowerSorts` | cometbft/types/validator_set.go:862-877 | the culprits are a permutation of those collected, ordered by power and then address |
| `Evidence.LunaticsBlamed` | cometbft/types/evidence.go:260-284 | once every signature passed the trusting check, the lunatic branch blames exactly the common validators that validly signed the conflicting header, with exactly the signers' power, more than the trust level's share |
| `Evidence.VerifiedLunatics` | cometbft/internal/evidence/verify.go:110-155 | whoever verified evidence of a lunatic attack blames is in the common set and validly signed the conflicting header; together they hold more than a third |
| `Evidence.EquivocatorsBlamed` | cometbft/types/evidence.go:285-302 | for two commits of one index-aligned set, each above two thirds with every signature checked, the equivocation branch always yields a list, of exactly those whose valid signatures both commits carry, with more than a third of the power |
| `MediationSafety.RunKeeps` | cometbft/node/controller_mediation.go:181-476 | the system invariant holds after every interleaving of submitters, callbacks, workers, start and stop |
| `MediationTheorems.AccountsBalance` | cometbft/node/controller_mediation.go:318-408 | byte counters and slot tokens equal what is queued, in a worker's hands and held by a producer in transit, within their limits; nothing is sent on a closed queue, no queue is closed twice, at most one fatal error is signalled |
| `MediationTheorems.NothingBlocks` | cometbft/node/controller_mediation.go:340-408 | no enqueue, token return, gate return or drain ever meets a channel state that would block it |
| `MediationTheorems.HolderSteps` | cometbft/node/controller_mediation.go:374-408 | once the context is cancelled a gate holder has an enabled step that is not a timeout and brings it closer to leaving |
| `MediationTheorems.GateComesBack` | cometbft/node/controller_mediation.go:250-272 | from every reachable state after cancellation the holder, left to itself, gives the gate back |
| `MediationTheorems.StopDelivers` | cometbft/node/controller_mediation.go:239-302 | when Stop has returned everything admitted was posted or dispatched, or a fatal error is recorded; if the workers stopped, all byte counters and callback tokens are zero and the only outbound token is that of a submitter on its way out |
| `MediationTheorems.LateSubmitterHoldsToken` | cometbft/node/controller_mediation.go:250-302 | a run in which such a submitter still holds a token after Stop returned |
| `MediationTheorems.CountersAreDense` | cometbft/node/controller_mediation.go:650-667 | for each destination the admitted counters are 0, 1, 2, ... in queue order, and what was posted is a prefix of what was admitted |
| `MediationProgress.SubmissionDecided` | cometbft/node/controller_mediation.go:318-408 | from every reachable state a submission that runs on its own is admitted, with the next number of its destination, exactly if a slot is free, the mediation is ready, its bytes fit and a number is left; otherwise nothing is left of it, and only a missing number is fatal |
| `MediationProgress.NumberIs` | cometbft/node/controller_mediation.go:650-667 | the next number of a destination is the count of what was admitted for it, if one is left |
| `MediationProgress.NoOtherStep` | cometbft/node/controller_mediation.go:374-408 | past the wait for a slot a submitter has no choice; while it waits it can only give up, at once if it does not block and none is free, otherwise after a timeout or a cancellation |
| `MediationProgress.CallbackDecided` | cometbft/node/controller_mediation.go:590-608 | a callback that runs on its own is queued exactly if the mediation is ready, a slot is free and its bytes fit; otherwise it is refused and the lane is as before |
| `MediationProgress.OutboundDelivers` | cometbft/node/controller_mediation.go:455-476 | a started worker whose posts succeed delivers any number of its queued messages in order, with their slots and bytes |
| `MediationProgress.CallbackDelivers` | cometbft/node/controller_mediation.go:610-633 | the same for dispatched callbacks |
| `MediationProgress.FailureIsFatal` | cometbft/node/controller_mediation.go:464-471 | a post that fails loses its message and stops the worker, with the error recorded |
| `MediationProgress.FatalExactly` | cometbft/node/controller_mediation.go:669-689 | in every reachable state exactly the named failures record an error, and the first one ends readiness and is signalled once |
| `MediationProgress.FailuresAreSeen` | cometbft/node/controller_mediation.go:410-412 | a bad submission can be recorded at any time, a failed listener whenever there is one, a refusal whenever there was one |
| `MediationProgress.DoorsOpen` | cometbft/node/controller_mediation.go:374-408 | the gate and the mutex can be taken exactly unless another holds them or the stop is closing the queue |
| `MediationLifecycle.StartDecided` | cometbft/node/controller_mediation.go:181-237 | a start whose listener and registration succeed makes a mediation without a recorded error ready with both workers waiting; every failure leads into the stop |
| `MediationLifecycle.StopBegins` | cometbft/node/controller_mediation.go:239-248 | unless it is over or another lifecycle call is at work, a stop can begin |
| `MediationLifecycle.StopFinishes` | cometbft/node/controller_mediation.go:239-302 | from every reachable state in which a stop has begun, the steps it waits for and its own lead to its end, which is clean unless it had timed out on the workers |
| `MediationLifecycle.StopTimesOut` | cometbft/node/controller_mediation.go:274-291 | a stop that awaits the workers can give up at any moment, which is recorded as an error |
| `MediationCodec.DecodeUndoesEncode` | cometbft/node/controller_mediation.go:718-742 | encoding fails exactly above 32-bit lengths, and decoding returns the channel and bytes encoded |
| `MediationCodec.EncodeUndoesDecode` | cometbft/node/controller_mediation.go:718-742 | every accepted payload is the encoding of what it decodes to |
| `MediationCodec.MintedIDAccepted` | cometbft/node/controller_mediation.go:784-808 | the receiver accepts every minted ID and reads back its counter; an ID has at most 102 bytes |
| `MediationCodec.CheckedIDs` | cometbft/node/controller_mediation.go:792-808 | an ID is accepted exactly if it names sender and receiver, ends in a decimal number of 64 bits and has at most 128 bytes |
| `MediationCodec.IDsAreUnique` | cometbft/node/controller_mediation.go:650-667 | different sender, destination or counter give different IDs |
| `MediationCodec.Base64Length` | cometbft/config/config.go:1572-1575 | the encoding of section 4 of RFC 4648 has the length the configuration reserves |
| `MediationCodec.Base64RoundTrip` | cometbft/config/config.go:1572-1575 | decoding by section 4 of RFC 4648 gives back the bytes |
| `MediationCodec.BodyReadsBack` | cometbft/node/controller_mediation.go:744-771 | the five fields are read back from the JSON body of every message whose fields need no escaping |
| `MediationCodec.SubmittedIsReceived` | cometbft/node/controller_mediation.go:498-588 | for 40-digit identities and routes of at most 16000000 bytes, every admitted message fits an empty queue, its body fits any valid limit, and the receiver accepts it and gets back the submitted route and bytes |
| `MediationCodec.SubmissionExactly` | cometbft/node/controller_mediation.go:318-363 | a message is formed exactly for a selected message on its own route within its capacity, with its label, its ID and a payload that decodes to route and bytes |
| `MediationCodec.ReceptionExactly` | cometbft/node/controller_mediation.go:498-571 | bytes are handed on exactly for a message to this node from a well-formed identity, within the limits, with a fitting ID, on a selected route, that decodes to a sound message of the label it claims |
| `MediationCodec.BodyFits` | cometbft/config/config.go:1490-1581 | the JSON body of the longest payload stays within the reserved overhead |
| `FilePVs.FilePV.SignVote` | cometbft/privval/file.go:332-393 | the result and the new sign state are those of the rules; a new sign state is on disk before a signature is given out, and when it cannot be written the call panics and nothing is given out |
| `FilePVs.FilePV.SignProposal` | cometbft/privval/file.go:398-435 | as for votes |
| `FilePVs.SignVoteOk` | cometbft/privval/file.go:332-393 | signing keeps the stored state sound and never goes back; it panics exactly on an unknown vote type; a signed vote is the vote asked for up to its time and its signature verifies over its own bytes |
| `FilePVs.SignProposalOk` | cometbft/privval/file.go:398-435 | as for votes, and no panic is reachable |
| `FilePVs.SignVoteExactly` | cometbft/privval/file.go:332-393 | a vote of known type is signed exactly if its extension fits, the key works where needed, and it lies ahead of the last signature or equals it up to time; a new one is signed as asked and stored, an old one comes with its old time and signature, the extension is signed over its own height, round, content and chain; every other vote is refused and changes nothing |
| `FilePVs.SignProposalExactly` | cometbft/privval/file.go:398-435 | the same for proposals |
| `FilePVs.ExecuteOk` | cometbft/privval/file.go:100-139 | memory and disk agree and are sound after every run with crashes before or after the save, panics and restarts anywhere; the panics are exactly the votes of unknown type |
| `FilePVs.NeverSignsTwice` | cometbft/privval/file.go:332-491 | over every such run, whatever is asked, what is given out never goes back in height, round and step, and two signatures for the same height, round and step are identical over identical bytes |
| `FilePVs.AnswersExactly` | cometbft/privval/file.go:332-393 | after every run, an uninterrupted request is answered with a signature exactly under that condition, measured against what is on disk, and otherwise changes nothing |
| `FilePVs.Serve` | cometbft/privval/file.go:142-155 | the procedures, run over any sequence of requests, failed writes, crashes, panics and restarts, hold and give out exactly what the run of the rules says |
| `CLists.CList.PushBack` | cometbft/internal/clist/clist.go:316-351 | appends one new element and keeps the list linked |
| `CLists.CList.Remove` | cometbft/internal/clist/clist.go:356-402 | takes one element out, keeps the rest linked in order, and the removed element keeps its successor |
| `Mempools.Mempool.AddTx` | cometbft/mempool/clist_mempool.go:383-400 | list, map and byte counter grow together |
| `Mempools.Mempool.RemoveTxByKey` | cometbft/mempool/clist_mempool.go:406-419 | in every state, with a recheck open or not, list, map and byte counter shrink together; behind the cursor the entries still to be rechecked stay |
| `Mempools.Mempool.Full` | cometbft/mempool/clist_mempool.go:421-437 | full by count, by bytes, or while a recheck cannot finish in time |
| `Mempools.Mempool.HandleCheckTxResponse` | cometbft/mempool/clist_mempool.go:307-379 | fails, changing nothing, exactly while a recheck is open; otherwise adds exactly valid, new transactions that fit |
| `Mempools.Mempool.WalkTo` | cometbft/mempool/clist_mempool.go:752-762 | stops at a matching element and ends also from an element already removed; in an undisturbed recheck it runs off the list exactly when no entry from the cursor on matches |
| `Mempools.Mempool.FindNextEntryMatching` | cometbft/mempool/clist_mempool.go:716-769 | the cursor moves past the answered entry, and answering the last one ends the recheck and leaves the signal |
| `Mempools.Mempool.HandleRecheckTxResponse` | cometbft/mempool/clist_mempool.go:442-490 | late responses are ignored; list, map and bytes agree whatever was removed under the cursor; in an undisturbed recheck the result is that of the specification |
| `Mempools.Mempool.RemoveCommitted` | cometbft/mempool/clist_mempool.go:587-614 | in every state exactly the committed transactions leave, list, map and bytes alike |
| `Mempools.Mempool.RecheckTxs` | cometbft/mempool/clist_mempool.go:634-660 | fails exactly when a recheck is open and entries remain; otherwise every entry is sent once, although answers may remove entries under the loop |
| `Mempools.Mempool.Flush` | cometbft/mempool/clist_mempool.go:128-138 | in every state the pool is empty afterwards, list, map and bytes alike |
| `Mempools.Mempool.Wait` | cometbft/mempool/clist_mempool.go:664-671 | whatever arrives during the wait, the pool and the ending are those of the specification: a panic on a stray answer, else the timeout, else the signal taken, else no end; the pool only shrinks |
| `Mempools.Mempool.Update` | cometbft/mempool/clist_mempool.go:570-626 | panics on an unfinished recheck exactly when the last wait took a leftover signal, nothing was answered to the end since, and entries remain to be rechecked; with no recheck open the pool and the ending are those of the specification; only uncommitted transactions stay |
| `Mempools.Mempool.Handle` | cometbft/mempool/clist_mempool.go:307-626 | for every event in every reachable state: a first check or an update meets an unfinished recheck if and only if its wait was ended by a leftover signal; while no entry was removed ahead of an open recheck, the event does to the pool what the specification says |
| `Mempools.Mempool.Run` | cometbft/mempool/clist_mempool.go:307-769 | over every run of first checks, answers, block notices, flushes and updates, list, map and byte counter agree, and nothing meets an unfinished recheck unless some wait ran out of time |
| `Mempools.Reach` | cometbft/mempool/clist_mempool.go:307-769 | the same for every state a new mempool reaches, between events a recheck is open exactly if its wait took a leftover signal, and pool and ending are those of the specified run |
| `Mempools.CollisionHappens` | cometbft/mempool/clist_mempool.go:307-750 | for every transaction that fits: admitted, rechecked with the answer just as the wait runs out, and rechecked again, it leaves the pool in a state where every first check and every update with an entry to recheck panics |
| `Mempools.ReachCollision` | cometbft/mempool/clist_mempool.go:307-750 | the procedures, run on those events, end in that panic |
| `RecheckLogs.OpenExactly` | cometbft/mempool/clist_mempool.go:664-750 | with nobody waiting, a recheck is open if and only if it began while a signal was left over, its wait took that signal, and nothing happened since |
| `RecheckLogs.UnreadExactly` | cometbft/mempool/clist_mempool.go:731-745 | a signal is left over if and only if some recheck was answered to its end and no wait took a signal since |
| `RecheckLogs.OnlyTimeoutsLeaveOpen` | cometbft/mempool/clist_mempool.go:664-671 | without a timeout no signal is left over and no recheck is left open between waits |
| `RecheckLogs.LeftoverHappens` | cometbft/mempool/clist_mempool.go:664-745 | from every idle state a recheck answered just as its wait runs out leads to one that stays open |
| `MempoolModel.RemainingAre` | cometbft/mempool/clist_mempool.go:587-614 | exactly the entries that were not committed remain |
| `MempoolModel.RecheckOutcome` | cometbft/mempool/clist_mempool.go:634-769 | for answers in list order with any missing: no failure, the recheck is over exactly when the last entry was answered, the pending count is the number unanswered, and the list is the original minus those answered invalid |
| `MempoolModel.SurvivorsAre` | cometbft/mempool/clist_mempool.go:442-490 | the surviving list keeps the original order and lacks exactly the entries answered invalid |
| `MempoolModel.SentIsProcess` | cometbft/mempool/clist_mempool.go:634-669 | answers given while requests are still being sent lead to the same pool as answers given afterwards |
| `MempoolModel.SignalMeansDone` | cometbft/mempool/clist_mempool.go:664-671 | the signal tells whether a recheck is over if and only if none was left over at its start or its last entry has been answered |
| `MempoolModel.LeftoverSignal` | cometbft/mempool/clist_mempool.go:664-750 | when the timeout wins against the last answer, the signal stays and the next recheck finds it at once |
| `SnapshotPools.SnapshotPool.Add` | cometbft/statesync/snapshots.go:75-118 | an offer enters exactly when nothing about it is banned and the peer has fewer than ten; indexes keep agreeing with the pool |
| `SnapshotPools.SnapshotPool.RemoveSnapshot` | cometbft/statesync/snapshots.go:242-255 | one key leaves the pool and every index |
| `SnapshotPools.SnapshotPool.Reject` | cometbft/statesync/snapshots.go:191-198 | bans and removes a snapshot |
| `SnapshotPools.SnapshotPool.RejectFormat` | cometbft/statesync/snapshots.go:201-209 | bans a format and removes every snapshot of it |
| `SnapshotPools.SnapshotPool.RemovePeer` | cometbft/statesync/snapshots.go:224-239 | a peer leaves with every snapshot only it offered |
| `SnapshotPools.SnapshotPool.RejectPeer` | cometbft/statesync/snapshots.go:212-221 | bans a peer; the empty ID does nothing |
| `SnapshotPools.SnapshotPool.Ranked` | cometbft/statesync/snapshots.go:158-188 | returns every snapshot of the pool once, none better than an earlier one, none banned |
| `SnapshotPools.SnapshotPool.GetPeers` | cometbft/statesync/snapshots.go:139-153 | returns exactly the peers of a snapshot in order, none banned |
| `SnapshotPools.NeverAgain` | cometbft/statesync/snapshots.go:75-255 | over every run, what was banned at any point is not in the pool at any later point, and no peer holds more than ten keys |
| `SnapshotPools.ActExactly` | cometbft/statesync/snapshots.go:75-255 | in every reachable pool each act adds or removes exactly the offers it should, a snapshot is there exactly as long as someone offers it, and bans are recorded |
| `Chunks.ChunkQueue.Add` | cometbft/statesync/chunks.go:63-101 | stores exactly chunks of the snapshot that are not there yet |
| `Chunks.ChunkQueue.Allocate` | cometbft/statesync/chunks.go:105-121 | hands out the lowest chunk nobody fetches, and nothing exactly when all are taken or the queue is closed |
| `Chunks.ChunkQueue.Discard` | cometbft/statesync/chunks.go:147-170 | a stored chunk loses its file and both marks; one not stored is left alone |
| `Chunks.ChunkQueue.DiscardSender` | cometbft/statesync/chunks.go:174-188 | exactly the chunks of the sender that were not handed out are discarded |
| `Chunks.ChunkQueue.Next` | cometbft/statesync/chunks.go:226-272 | the lowest chunk not handed out, and whether it is stored; it counts as handed out either way |
| `ChunkSync.RunKeeps` | cometbft/statesync/syncer.go:357-410 | over every interleaving, waits and starting over included, the queue's marks are what the log of events says |
| `ChunkSync.RestoredCompletely` | cometbft/statesync/syncer.go:185-410 | if the applier succeeds on a queue still open, after starting over any number of times, the last event on every chunk is the application of the body stored for it; and two allocations of a chunk are always separated by a discard that removed it |
| `ChunkSync.Finishes` | cometbft/statesync/syncer.go:357-410 | with every chunk stored and accepted, an idle applier on an open queue comes to the end of the snapshot, whatever was applied, retried or refetched before |
| `ChunkSync.ArrivalWakes` | cometbft/statesync/chunks.go:237-256 | a chunk that is waited for is applied once it arrives; the wait can time out, and ends when the queue closes |
| `ChunkSyncDb.Perform` | cometbft/statesync/syncer.go:357-410 | the calls that fetchers and applier make on one queue, in any order the steps allow, are exactly a run of the model, refused steps included |
| `StateDb.DbStore.PruneValsAt` | cometbft/state/store.go:467-500 | one height of the loop: a kept height becomes readable on its own or stops the loop, another is deleted below the evidence height |
| `StateDb.DbStore.PruneParamsAt` | cometbft/state/store.go:502-531 | the same for consensus parameters |
| `BlockStoreDb.BlockStore.PruneBelow` | cometbft/store/store.go:508-562 | the loop alone: its evidence point, the tables it leaves, and the exact number of blocks that were stored in range |
| `BlockStoreDb.BlockStore.CollectDeletions` | cometbft/store/store.go:519-544 | one pruned height deletes its hash entry, seen commit and all parts, and header and commit only below the evidence point |
| `Commits.Lookup` | cometbft/types/validator_set.go:287-295 | finds a validator with the address, or none exactly when there is none |
| `Mempools.Mempool.TimeOut` | cometbft/mempool/clist_mempool.go:664-669 | a timeout ends the recheck, whatever the cursor, and leaves the pool, the pending count and the signal as they are |
| `Mempools.Mempool.SendOne` | cometbft/mempool/clist_mempool.go:645-658 | one entry is counted and sent, and the way on from it is the same even if its answer removed it |
| `Chunks.FirstMissing` | cometbft/statesync/chunks.go:262-272 | the first index not in the set, or none exactly when all are in it |
| `MempoolModel.CheckedWithinLimits` | cometbft/mempool/clist_mempool.go:307-437 | admission keeps the pool within its count and byte limits and without duplicates, and admits exactly valid transactions that fit |

## Left out

- Integer widths: priorities, powers and heights are unbounded integers, so the clipping of priorities at 64 bits is not modelled; the overflow check of the trusting verification is.
- The arithmetic of validator set updates, WeightedMedian and parameter validation: they enter as `Rules`.
- ValidatorSets.IncrementProposerPriority: does not model the clipping of priorities at 64 bits; and works on a value it returns, so aliasing between copies of a set is not modelled.
- StateSteps.PruneRefines: assumes pruning starts at a retained height, as the pruner's calls do; a start below the retained range is not covered.
- Pruning.EvidenceSurvives: assumes no earlier prune used a shorter evidence age; `RaisedAgeComesTooLate` shows why, and `EvidenceAccounted` says what holds without it.
- ABCI response pruning, retain-height setters, indexer pruning, caches, compaction and database errors are not modelled.
- LightClient.VerifySkipping: takes providers that answer with a block of the height asked for, as the client's providers check.
- Checks of single header and commit fields are one flag of a light block; sequential and backwards verification, divergence detection and the replacement of primaries and witnesses are not modelled.
- Commits.VerifyCommitSingle: models the light-client and evidence calls, which skip votes that are not for the block; the check of a last commit, which also verifies votes for nil, is not modelled.
- Evidence.EquivocatorsBlamed: assumes commits whose flagged entries carry the addresses of the set in order, because the check by position does not compare addresses.
- MediationTheorems.AccountsBalance: draining an item after a stop is one step, and so is recording a fatal error together with its signal.
- HTTP handling, JSON parsing beyond the form a submission writes, registration retries, metrics and logging of the mediation; peers, routes and native decoding are parameters.
- MediationCodec.SubmittedIsReceived: covers messages whose fields need no JSON escaping, which is proved of every minted message.
- Raw signing, resetting the key and loading it with an empty state: they bypass the double-sign guard on purpose.
- Reaping, the transaction cache, senders and gas of the mempool.
- Mempools.Mempool.Update: no first check comes back during its own recheck, because the application connection is flushed under the lock before.
- SnapshotPools.SnapshotPool.Ranked: the order among equally ranked snapshots is not fixed, as in the source.
- Chunks.ChunkQueue.Add: has no missing chunk or missing body to refuse; files are values, so disk errors are not modelled.
- Chunks.ChunkQueue.Next: returns at once and says whether the chunk is stored; waiting is a step of `ChunkSync`.
- Choosing, offering and verifying snapshots around the chunk queue, and fetching with timeouts.
- The consensus state machine and everything else in the repository.
