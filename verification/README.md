# Diem: quorums, commits and trust

A Dafny model of the part of Diem that decides what may be believed: how votes
become certificates, how certificates become commits, how a commit carries
trust into the next epoch, and how a replica rebuilds all of it after a crash.

- **Quorums** (`validator_verifier.dfy`, `certificates.dfy`): weighted validator
  sets, the threshold, aggregated and batched signature checks, and the checks of
  votes, quorum certificates and timeout certificates.
- **Aggregation** (`pending_votes.dfy`, `vote_aggregation.dfy`,
  `timeout_aggregation.dfy`): `PendingVotes` as an object updated in place, and what
  holds of every run of it.
- **Voting** (`safety_rules.dfy`, `safety_journal.dfy`, `voting_rules.dfy`,
  `round_manager.dfy`, `safety_initialization.dfy`): the safety rules of the 2-chain
  and the 3-chain protocol, one validator's life across rounds, epochs and crashes,
  why a certificate always lets validators go on, the event handlers of the round
  manager and what each of them sends, and the initialisation loop.
- **The protocol** (`consensus_safety.dfy`, `vote_network.dfy`): any number of
  validators, at most a third of the power faulty, a network that delivers anything
  at any time. Certificates are unique per round and all commits of an epoch lie on
  one chain.
- **Managers and protocol** (`managed_consensus.dfy`): the event handlers are sequences
  of protocol steps, so a network of round managers inherits the protocol's results;
  and a round that enough managers give up yields a timeout certificate.
- **All epochs together** (`epoch_ledger.dfy`, `grounded_consensus.dfy`): from one
  genesis ledger info, what quorums sign is shown to be one history across epochs, so
  that validators initialise with the right sets and light clients agree, with no
  history assumed.
- **Epoch changes and light clients** (`epoch_change.dfy`, `accumulator.dfy`,
  `accumulator_trees.dfy`, `trusted_state.dfy`, `light_client.dfy`): the walk over
  epoch-changing ledger infos, the Merkle accumulator and its extension by
  subtrees, the ratchet of the trusted state, where each kind of answer takes a client,
  and agreement of clients that are fed arbitrary answers.
- **Recovery, retrieval, events** (`recovery.dfy`, `block_retrieval.dfy`,
  `event_by_version.dfy`).

Conventions. Where the source computes a value, the model is a function; where it
updates something, the model is a class or a method with a loop whose `ensures`
ties it to the function, and the theorems are about the function. Hashes and
signatures are arbitrary total functions (a `const` without a value); collision
resistance and soundness of batch verification are stated as `requires` of the
members that need them. Clock, storage outcome, signing outcome, block execution
and the network are inputs. Maps that the source iterates in hash order are
iterated in an arbitrary order.

Assumptions of the whole-protocol results, all of them named predicates:

- `ConsensusSafety.Assumptions`: a validator set with the total and threshold of its
  powers, as the production constructor makes it where the doubling fits, at most a third of its power faulty, vote data hashed without
  collisions.
- `ConsensusSafety.Deliverable`: a signature of a correct validator that verifies was
  given by it; the unsigned certificate of round zero is the one of the epoch's
  genesis block; a timeout certificate handed to the safety rules is of the current
  epoch, which the safety rules themselves do not compare.
- `EpochLedger.Follows`: a block that a correct validator votes for adds to its
  parent's ledger, or repeats it after a reconfiguration, as the block executor does.
  Votes under decoupled execution carry no execution result and are not ledger infos
  in this sense.
- `GroundedConsensus.Succession`: this only names the epochs; the validators of an
  epoch are those that a ledger info ending the one before brings in.
- `LightClients.TrueHistory`, of the results on light clients alone: what a quorum
  signed is in one history. `HonestHistory` is a stronger condition that implies it,
  and `ProtocolMakesHistory` derives it from the protocol.
- `TrustedStates.Advances`: a ledger info that brings a new epoch opens a later one
  than its own. The code does not check it; it is required only where it is needed,
  with inputs that show the need, and holds on every true history.

## Model

| member | source | states |
|---|---|---|
| `ValidatorVerifiers.SumVotingPower` | types/src/validator_verifier.rs:284-291 | the checked fold adds every validator's power once, in whatever order; it has a result exactly when the sum fits in u64 |
| `ValidatorVerifiers.New` | types/src/validator_verifier.rs:85-99 | a set exactly when the sum fits, with the true total; for a non-empty set the threshold is over two thirds of it if and only if the unchecked doubling fits as well |
| `ValidatorVerifiers.DoublingMustFit` | types/src/validator_verifier.rs:85-99 | powers whose sum fits and whose doubled sum does not, and two disjoint author sets that both reach the threshold |
| `ValidatorVerifiers.CheckVotingPower` | types/src/validator_verifier.rs:224-244 | accepted if and only if all authors are known and hold a quorum; an unknown author if and only if there is one; otherwise the error carries the power they do hold and the quorum, in these places; all this for every order, and no partial sum leaves u64 |
| `ValidatorVerifiers.VerifyAggregatedStructSignature` | types/src/validator_verifier.rs:171-182 | same verdict and error for every iteration order |
| `ValidatorVerifiers.BatchVerifyAggregatedSignatures` | types/src/validator_verifier.rs:186-205 | batching, dropping of unknown authors and falling back give the iterated verdict and error on every input, given only that a successful batch is sound |
| `ValidatorVerifiers.AggregatedOk` | types/src/validator_verifier.rs:171-220 | success if and only if the signers are known, hold quorum power and all signatures are valid; the count check never refuses such a set |
| `ValidatorVerifiers.AggregatedRefusals` | types/src/validator_verifier.rs:171-220 | each refusal names the first check that fails, with the true counts and powers |
| `ValidatorVerifiers.QuorumIntersection` | types/src/validator_verifier.rs:85-99 | any two accepted author sets share more than a third of the total power |
| `ValidatorVerifiers.QuorumsShareCorrect` | types/src/validator_verifier.rs:85-99 | two quorums share an author outside any set of at most a third of the power |
| `ValidatorVerifiers.CorrectOnesDecide` | types/src/validator_verifier.rs:224-244 | an author set that misses less than a third of the power is accepted |
| `Certificates.VerifyTwoChainTc` | consensus/consensus-types/src/timeout_2chain.rs:132-156 | the loop accepts exactly the certificates with a quorum of valid signatures, each on its own round, whose timeout carries the highest of these rounds |
| `PendingVotesModel.PendingVotes.constructor` | consensus/src/pending_votes.rs:66-73 | starts empty |
| `PendingVotesModel.PendingVotes.Insert` | consensus/src/pending_votes.rs:77-156 | answer and new state of one vote are the transition's, on every path with its early returns |
| `PendingVotesModel.PendingVotes.AddTimeout` | consensus/src/pending_votes.rs:158-190 | the part on one-round timeout certificates |
| `PendingVotesModel.PendingVotes.Add2chainTimeout` | consensus/src/pending_votes.rs:192-220 | the part on 2-chain timeout certificates |
| `PendingVotesModel.InsertSummary` | consensus/src/pending_votes.rs:82-152 | when exactly a vote is a duplicate, an equivocation or completes a certificate; a refused vote changes nothing |
| `PendingVotesModel.PartitionInsert` | consensus/src/pending_votes.rs:77-220 | every vote, valid or not, keeps the partition of authors by digest and the timeout signers among the authors that timed out |
| `PendingVotesModel.PartitionRun` | consensus/src/pending_votes.rs:77-220 | in every reachable state the signers kept for a digest are the authors whose stored vote has it |
| `PendingVotesModel.SignersDisjoint` | consensus/src/pending_votes.rs:50-62 | signer sets of different digests are disjoint |
| `VoteAggregation.CertificatesVerify` | consensus/src/pending_votes.rs:115-220 | after any verified votes, re-submissions included, each quorum and timeout certificate returned passes its receivers' full verification, and no vote is refused with an error |
| `VoteAggregation.SignedRun` | consensus/src/pending_votes.rs:115-220 | everything collected at any time is validly signed by whom it is attributed to, and a partial 2-chain certificate carries the highest round signed |
| `VoteAggregation.CertifiesIff` | consensus/src/pending_votes.rs:115-139 | the k-th vote returns a certificate for a digest if and only if it is new, has the digest, and the digest's backers so far hold a quorum |
| `VoteAggregation.OrderIndependence` | consensus/src/pending_votes.rs:77-220 | some vote returns a certificate for a digest exactly when its distinct authors hold a quorum, whatever order, duplicates and re-sends |
| `VoteAggregation.AnswerCarriesPower` | consensus/src/pending_votes.rs:115-156 | in any run, a vote that completes nothing is answered with the power of the distinct authors behind its ledger info so far, which is short of a quorum |
| `VoteAggregation.StrangersAreReported` | consensus/src/pending_votes.rs:115-156 | a first vote by an unknown author is answered with that error |
| `VoteAggregation.AtMostTwoChanges` | consensus/src/pending_votes.rs:82-109 | no author moves the state more than twice in any run |
| `TimeoutAggregation.TimeoutOrderIndependence` | consensus/src/pending_votes.rs:158-220 | in a round without a quorum for any ledger info, some vote returns a timeout certificate exactly when the distinct authors that timed out hold a quorum, in any order and with any re-sends, under either protocol |
| `TimeoutAggregation.TracksRun` | consensus/src/pending_votes.rs:158-220 | in such a round the signers of the partial timeout certificate are at any time the authors that timed out so far |
| `SafetyRulesModel.SafetyRules.constructor` | consensus/safety-rules/src/safety_rules.rs:57-79 | starts from persistent data without signer and validator set |
| `SafetyRulesModel.SafetyRules.ConstructAndSignVoteTwoChain` | consensus/safety-rules/src/safety_rules_2chain.rs:48-93 | vote or error, and the safety data persisted, of the 2-chain voting rule; `VotesTwoChainIff`, `ProposalPassesIff` and `VoteBindsProposal` say which proposals get a vote and what it binds |
| `SafetyRulesModel.SafetyRules.ConstructAndSignVote` | consensus/safety-rules/src/safety_rules.rs:373-409 | the same of the 3-chain rule, with `VotesThreeChainIff` |
| `SafetyRulesModel.SafetyRules.SignTimeoutWithQc` | consensus/safety-rules/src/safety_rules_2chain.rs:17-46 | signature or error, and the data stored before signing, of a 2-chain timeout |
| `SafetyRulesModel.SafetyRules.SignTimeout` | consensus/safety-rules/src/safety_rules.rs:434-459 | the same of a 3-chain timeout |
| `SafetyRulesModel.SafetyRules.InitializeFrom` | consensus/safety-rules/src/safety_rules.rs:275-371 | waypoint, safety data, validator set and signer after an epoch change proof, on success and on each error, a failed write of the waypoint or of the safety data included |
| `SafetyJournals.VoteTwoChainKeepsSound` | consensus/safety-rules/src/safety_rules_2chain.rs:48-93 | a 2-chain vote keeps: one vote per round, every vote rests on a verified certificate and its rule and is for a block timely by the validator's clock, safety data ahead of all that was signed, timeouts admit to the certificates voted on |
| `SafetyJournals.VoteThreeChainKeepsSound` | consensus/safety-rules/src/safety_rules.rs:373-409 | a 3-chain vote keeps the same, and never goes behind the grandparent round of an earlier vote |
| `SafetyJournals.TimeoutTwoChainKeepsSound` | consensus/safety-rules/src/safety_rules_2chain.rs:17-46 | a 2-chain timeout keeps it, in particular when storing or signing fails halfway |
| `SafetyJournals.TimeoutThreeChainKeepsSound` | consensus/safety-rules/src/safety_rules.rs:434-459 | a 3-chain timeout keeps it |
| `SafetyJournals.InitializeKeepsSound` | consensus/safety-rules/src/safety_rules.rs:275-371 | initialisation from any proof keeps it, across epochs |
| `SafetyJournals.TwoChainHandsOutRecorded` | consensus/safety-rules/src/safety_rules_2chain.rs:60-72 | a vote handed out, repeated ones included, is a recorded vote of the proposal's own epoch and round |
| `SafetyJournals.ThreeChainHandsOutRecorded` | consensus/safety-rules/src/safety_rules.rs:373-409 | the same for the 3-chain rule |
| `VotingRules.ProposalPassesIff` | consensus/consensus-types/src/block.rs:223-290 | the proposals that reach the voting rule are exactly those of the epoch, not genesis, signed by a validator unless NIL, on a verified certificate of the epoch and an earlier round that does not end it, without payload after a reconfiguration, and timely |
| `VotingRules.VoteBindsProposal` | consensus/consensus-types/src/vote_proposal.rs:66-107 | the vote data name the proposal's own block, its parent and the execution result, or the placeholder under decoupled execution |
| `VotingRules.NilIsProper` | consensus/consensus-types/src/block.rs:174-182 | a NIL block on such a certificate is never refused, at any time of any clock |
| `VotingRules.VotesTwoChainIff` | consensus/safety-rules/src/safety_rules_2chain.rs:121-137 | a proposal that passes the other checks is voted on if and only if its round is new and follows its own certificate, or a timeout certificate that knows nothing higher |
| `VotingRules.VotesThreeChainIff` | consensus/safety-rules/src/safety_rules.rs:185-244 | under the 3-chain rule, if and only if it is behind neither the last vote nor the preferred round |
| `VotingRules.TimesOutIff` | consensus/safety-rules/src/safety_rules_2chain.rs:95-119 | a timeout is signed if and only if its round follows a certificate or timeout certificate, is not behind the last vote, and admits to the highest certificate seen |
| `VotingRules.TimesOutThreeChainIff` | consensus/safety-rules/src/safety_rules.rs:434-459 | a 3-chain timeout is signed if and only if its round is past the preferred one and not behind the last vote; then the round is given up, otherwise nothing changes |
| `VotingRules.VotedTimesOutIff` | consensus/src/round_manager.rs:443-510 | a manager whose vote of the round is out signs its local timeout if and only if the round follows the highest certificate or timeout certificate known and this certificate is the highest seen |
| `VotingRules.CertificateLeadsOn` | consensus/safety-rules/src/safety_rules_2chain.rs:121-137 | with the quorum certificate the aggregator returned, every validator that has not voted past the round votes for a proposal extending it |
| `VotingRules.TimeoutLeadsOn` | consensus/safety-rules/src/safety_rules_2chain.rs:121-149 | with the timeout certificate the aggregator returned, they vote for a proposal extending the certificate it carries |
| `RoundManagers.RoundManager.constructor` | consensus/src/round_manager.rs:152-187 | round zero, nothing sent |
| `RoundManagers.RoundManager.OnCertificates` | consensus/src/liveness/round_state.rs:227-253 | the round only rises, wrap-around at the last u64 included, and only a new round forgets the vote sent |
| `RoundManagers.RoundManager.Record` | consensus/src/liveness/round_state.rs:271-275 | only a vote of the current round is remembered |
| `RoundManagers.RoundManager.ExecuteThenVote` | consensus/src/round_manager.rs:579-623 | no second vote once one was sent; the vote is stored before it is handed out |
| `RoundManagers.RoundManager.OnProposal` | consensus/src/round_manager.rs:527-572 | after syncing up, a proposal of the round entered is voted on, recorded and sent |
| `RoundManagers.RoundManager.AddTimeout` | consensus/src/round_manager.rs:474-503 | the timeout added to a ballot under either rule |
| `RoundManagers.RoundManager.OnLocalTimeout` | consensus/src/round_manager.rs:443-510 | the vote of the round is sent again with a timeout, otherwise a vote for a NIL block; `TimeoutSends` and `TimeoutSilent` say what is sent and when |
| `RoundManagers.EntersNextRound` | consensus/src/liveness/round_state.rs:227-253 | the round entered is the one after the highest certified or given up, without a vote; a lower one, and the last u64, change nothing |
| `RoundManagers.ProposalSends` | consensus/src/round_manager.rs:527-623 | a valid proposal of the round entered, in time and with no vote sent yet, gets exactly one vote by this validator, of its round and without a timeout, which is stored, remembered and sent |
| `RoundManagers.ProposalSilent` | consensus/src/round_manager.rs:527-623 | on any other proposal nothing is sent |
| `RoundManagers.TimeoutSends` | consensus/src/round_manager.rs:443-510 | a local timeout sends exactly one vote, of the round, by this validator, that carries a timeout of the protocol in force and binds what the vote sent before did; it is the one remembered |
| `RoundManagers.TimeoutSilent` | consensus/src/round_manager.rs:443-510 | without a ballot or a signature on its timeout nothing is sent |
| `RoundManagers.HandleKeepsFaithful` | consensus/src/round_manager.rs:443-623 | every event keeps: all votes sent, remembered and stored are votes the safety rules recorded |
| `RoundManagers.RestartKeepsFaithful` | consensus/src/round_manager.rs:791-802 | a crash at any point keeps it, with the vote found in the database |
| `RoundManagers.RestartResumes` | consensus/src/round_manager.rs:791-802 | a crash in a round in which a vote was sent, at any point of any run, comes back to the round with that vote |
| `RoundManagers.RunKeepsFaithful` | consensus/src/round_manager.rs:443-623 | and so does every run |
| `RoundManagers.NeverEquivocates` | consensus/src/round_manager.rs:443-623 | in every run of proposals, timeouts, new rounds, re-initialisations and crashes all votes sent for a round carry the same ledger info |
| `RoundManagers.FreshNeverEquivocates` | consensus/src/round_manager.rs:443-623 | so it is for a validator that starts without having signed anything |
| `ConsensusSafety.StepKeepsInv` | consensus/safety-rules/src/safety_rules_2chain.rs:17-93 | one step of any validator, on any deliverable message, keeps every correct validator's record sound and supported |
| `ConsensusSafety.RunKeepsInv` | consensus/safety-rules/src/safety_rules_2chain.rs:17-93 | and so does every run |
| `ConsensusSafety.CertificatesUnique` | consensus/safety-rules/src/safety_rules.rs:225-244 | two certificates of one round certify the same block and commit the same ledger info |
| `ConsensusSafety.TimeoutKnowsCommitted` | consensus/safety-rules/src/safety_rules_2chain.rs:95-119 | a timeout certificate at or above a certified round knows a certificate at least as high as the certified block's parent |
| `ConsensusSafety.TwoChainLocks` | consensus/safety-rules/src/safety_rules_2chain.rs:121-171 | a block committed under the 2-chain rule is certified, and no certificate at or above its round goes around it |
| `ConsensusSafety.ThreeChainLocks` | consensus/safety-rules/src/safety_rules.rs:162-200 | the same under the 3-chain rule |
| `ConsensusSafety.LockedIsExtended` | consensus/safety-rules/src/safety_rules_2chain.rs:121-137 | every certified block at or above a locked block's round extends it |
| `ConsensusSafety.CommitSafety` | consensus/safety-rules/src/safety_rules_2chain.rs:48-171 | in any run, at any two moments, of two committed blocks one extends the other, under the 2-chain and under the 3-chain rule |
| `VoteNetwork.AggregatedIsCertificate` | consensus/src/pending_votes.rs:115-139 | a quorum certificate returned by any replica on delivered votes is one in the sense of the protocol |
| `VoteNetwork.CertificatesAgreeAcrossReplicas` | consensus/src/pending_votes.rs:77-152 | all quorum certificates returned anywhere in a round are for the same ledger info and block |
| `VoteNetwork.CorrectAuthorsNeverEquivocate` | consensus/src/pending_votes.rs:89-109 | no aggregator ever answers `EquivocateVote` for a correct author |
| `ManagedConsensus.HandleIsSteps` | consensus/src/round_manager.rs:443-623 | whatever the event, a round manager changes its validator's record by a sequence of protocol steps |
| `ManagedConsensus.NetworkIsRun` | consensus/src/round_manager.rs:443-623 | a network of round managers, on any events, runs the protocol |
| `ManagedConsensus.ManagersCertifyOnce` | consensus/src/pending_votes.rs:77-152 | any two aggregators, on any votes the managers sent in a round and any of the faulty ones, certify the same ledger info and block |
| `ManagedConsensus.ManagersNeverReported` | consensus/src/pending_votes.rs:89-109 | no aggregator answers `EquivocateVote` for what a round manager sent |
| `ManagedConsensus.ManagersCommitSafely` | consensus/src/round_manager.rs:443-623 | commits that come out of a network of round managers, at any two moments, lie on one chain |
| `ManagedConsensus.TimeoutsMakeCertificate` | consensus/src/round_manager.rs:443-510 | a round without a quorum ends: once managers with quorum power have timed out, an aggregator that receives what they sent, in any order and among any other votes, returns a timeout certificate |
| `EpochLedger.CertifiedTime` | consensus/consensus-types/src/block.rs:260-279 | the time of a certified block is past its parent's and at most five minutes past a correct validator's clock, or, for a NIL block or after a reconfiguration, its parent's own |
| `EpochLedger.PathTime` | consensus/consensus-types/src/block.rs:260-279 | along certified blocks time never falls, rises at every ordinary block, and stands still without one |
| `EpochLedger.PathContinues` | execution/executor/src/block_executor.rs:82-110 | along certified blocks the version never falls, a block at its ancestor's version left the ledger as it was, and nothing changes after a reconfiguration |
| `EpochLedger.SignedIsCommitted` | consensus/safety-rules/src/safety_rules_2chain.rs:48-93 | a ledger info of the epoch signed by a quorum is that of a commit certificate |
| `EpochLedger.SignedAgree` | consensus/safety-rules/src/safety_rules_2chain.rs:48-171 | two ledger infos signed by quorums of an epoch: the same version means the same ledger, and none is beyond the one that ends the epoch |
| `EpochLedger.SignedAdvances` | execution/executor/src/block_executor.rs:82-110 | the one that ends the epoch opens the next |
| `GroundedConsensus.InitializeStaysGrounded` | consensus/safety-rules/src/safety_rules.rs:275-345 | from a true waypoint, initialisation on any proof ends on a true waypoint and a true validator set |
| `GroundedConsensus.ProtocolMakesHistory` | consensus/safety-rules/src/safety_rules.rs:275-371 | at every moment of every run from one genesis, what quorums of all epochs have signed is one true history; nothing is assumed of it |
| `GroundedConsensus.WorldIsRun` | consensus/safety-rules/src/safety_rules.rs:275-371 | in each epoch the run is one of the protocol with the epoch's own validators, whatever proofs they are initialised from |
| `GroundedConsensus.CommitSafetyFromWaypoints` | consensus/safety-rules/src/safety_rules_2chain.rs:48-171 | commit safety in every epoch, from the genesis waypoint |
| `GroundedConsensus.ClientsOfTheProtocolAgree` | types/src/trusted_state.rs:174-296 | light clients started at the genesis waypoint and fed any ledger infos around, arranged in any way, hold the same waypoint exactly at the same place and the same validator set in the same epoch |
| `GroundedConsensus.FirstVotesSplitClients` | consensus/safety-rules/src/safety_rules_2chain.rs:152-171 | the first votes of an epoch commit its genesis block at the version at which the epoch before ended; once a quorum cast them, two clients from one waypoint hold different waypoints at that version |
| `EpochChanges.WaypointPinsFields` | types/src/waypoint.rs:37-80 | a waypoint accepts exactly the ledger infos that agree with its own in every hashed field |
| `EpochChanges.VerifyEpochChanges` | types/src/epoch_change.rs:66-118 | the loop that swaps its own verifier computes the recursive walk, error by error |
| `EpochChanges.VerifySpec` | types/src/epoch_change.rs:66-118 | a proof verifies if and only if, past its stale prefix, it is accepted by the verifier and then linked epoch by epoch and quorum by quorum; the result is its last ledger info |
| `EpochChanges.WalkFailsAt` | types/src/epoch_change.rs:92-116 | a walk that fails does so at one ledger info, all before it having been accepted by those in office; the error tells whether it was refused there or brings no validators |
| `EpochChanges.RefusedUnread` | types/src/epoch_change.rs:66-90 | a proof is called empty if and only if it is, and stale if and only if its last ledger info is |
| `EpochChanges.HistorySliceVerifies` | types/src/epoch_change.rs:66-118 | any slice of a true history verifies from any position in it, known by validator set or by waypoint |
| `EpochChanges.StalePrefixIrrelevant` | types/src/epoch_change.rs:71-90 | prepending stale ledger infos never changes the outcome of a non-empty proof |
| `EpochChanges.ChunkingAgrees` | types/src/epoch_change.rs:71-116 | a cut proof verifies whole exactly when its pieces verify in turn, up to the staleness of the last ledger info under the two starting points |
| `EpochChanges.ChunkingAgreesWhenStalenessDoes` | types/src/epoch_change.rs:71-116 | where the last ledger info is stale under both starting points or under neither, whole and pieces agree |
| `EpochChanges.CutCanMatter` | types/src/epoch_change.rs:71-90 | for all ledger infos of which the second goes back behind the first: the pieces verify and the whole does not |
| `EpochChanges.CutCanMatterBack` | types/src/epoch_change.rs:71-90 | for all linked ledger infos that go back behind the epoch of the second: the whole verifies and the second piece does not |
| `EpochChanges.ChunkingOfAdvancing` | types/src/epoch_change.rs:71-116 | from a validator set, on ledger infos that advance the epoch, no condition is left |
| `Accumulators.ComputeRootHashLoop` | types/src/proof/accumulator/mod.rs:262-291 | the loop over the bits computes the fold |
| `Accumulators.CarryLoop` | types/src/proof/accumulator/mod.rs:220-231 | the inner loop merges with equal-sized subtrees on the left |
| `Accumulators.AppendSubtreesLoop` | types/src/proof/accumulator/mod.rs:191-245 | the loop over the new subtrees, with each error |
| `Accumulators.AppendLeaves` | types/src/proof/accumulator/mod.rs:102-147 | pushing each leaf and merging on every carry computes the recursion, without leaving a count of roots that `new` would refuse |
| `Accumulators.AppendIsValid` | types/src/proof/accumulator/mod.rs:191-245 | a successful extension has the number of leaves asked for, one root per bit and their root hash |
| `Accumulators.ExtensionOutcome` | types/src/proof/definition.rs:333-354 | an extension is refused as too old if and only if the target is behind, as too large if and only if the leaves exceed the maximum, and otherwise ends at the target's version and root or not at all |
| `AccumulatorTrees.RootIsPadded` | types/src/proof/accumulator/mod.rs:262-291 | the folded root hash is the root of the lowest full Merkle tree over the leaves, placeholders where leaves are missing |
| `AccumulatorTrees.AppendRepresents` | types/src/proof/accumulator/mod.rs:102-147 | appending leaves one by one summarises the longer row of leaves |
| `AccumulatorTrees.AppendComplete` | types/src/proof/accumulator/mod.rs:191-245 | for every accumulator and all leaves appended there are subtrees that extend the one to the other |
| `AccumulatorTrees.SubtreesStandForLeaves` | types/src/proof/accumulator/mod.rs:147-245 | with these subtrees the result is the accumulator that appending the leaves gives |
| `AccumulatorTrees.ExtensionSound` | types/src/proof/accumulator/mod.rs:191-245 | whatever the subtrees: if size and root of the extension are those over true leaves, the accumulator extended summarised a prefix of them |
| `AccumulatorTrees.LeavesDetermineAccumulator` | types/src/proof/accumulator/mod.rs:66-83 | there is one accumulator over given leaves |
| `AccumulatorTrees.RootCommitsToLeaves` | types/src/proof/accumulator/mod.rs:262-291 | number of leaves and root hash determine every leaf |
| `TrustedStates.FromEpochChangeLiIsCoherent` | types/src/trusted_state.rs:80-96 | the state made from an epoch change is coherent and verifies by the set it carries |
| `TrustedStates.MoveIsCoherent` | types/src/trusted_state.rs:212-295 | after every move waypoint and accumulator commit to one ledger info that the trusted set signed or that brought it in |
| `TrustedStates.MoveKeepsVersion` | types/src/trusted_state.rs:182-295 | no move lowers the version, also on the branch that does not compare versions |
| `TrustedStates.VersionChangeIsStrict` | types/src/trusted_state.rs:258-295 | a version change is strict and stays in the epoch |
| `TrustedStates.EpochChangeIsStrict` | types/src/trusted_state.rs:212-257 | an epoch change strictly raises the epoch, if the ledger info reached opens a later epoch than its own |
| `TrustedStates.EpochCanFall` | types/src/trusted_state.rs:212-257 | for all ledger infos of which the first opens an earlier epoch than its own, and the latest leads past the client's: the epoch falls |
| `TrustedStates.RatchetInvariant` | types/src/trusted_state.rs:174-296 | along every run on arbitrary answers: coherent states and versions that never decrease |
| `TrustedStates.EpochsNeverDecrease` | types/src/trusted_state.rs:174-296 | along every run the epoch never decreases, if those answers that bring a new epoch reach such a ledger info; all others may hold anything |
| `TrustedStates.ReplayDoesNotMove` | types/src/trusted_state.rs:212-295 | a state proof that just moved the client does not move it again, on any branch; after a change of epoch under the same condition |
| `TrustedStates.ReplayCanMove` | types/src/trusted_state.rs:212-257 | for all ledger infos that open their own epoch again: the replay is taken again |
| `LightClients.QuorumSignsHistory` | types/src/epoch_state.rs:33-43 | what a quorum of an epoch signs was committed, when over two thirds sign only that |
| `LightClients.RunStaysOnHistory` | types/src/trusted_state.rs:174-296 | no sequence of answers takes a client off the true history |
| `LightClients.LightClientAgreement` | types/src/trusted_state.rs:174-296 | clients from one true waypoint, fed anything, hold the same waypoint if and only if they are at the same version, of the same epoch where the version does not tell it; and the same validator set in the same epoch |
| `LightClients.BoundaryClientsDiffer` | types/src/trusted_state.rs:212-257 | why the epoch is needed: between two epochs two clients from one waypoint come to trust the same validators, version and accumulator with different waypoints |
| `LightClients.BoundaryIsRefused` | types/src/trusted_state.rs:258-295 | and the one at the end of the epoch refuses the next epoch's ledger info at that version, whatever comes with it |
| `LightClients.HonestMajorityAgreement` | types/src/trusted_state.rs:174-296 | in particular where in each epoch over two thirds of the power sign only ledger infos of one history |
| `LightClients.AccumulatorIsTrue` | types/src/trusted_state.rs:190-211 | the accumulator a client trusts summarises exactly the transactions committed up to its version, though its first accumulator and all consistency proofs came from the servers |
| `LightClients.AccumulatorsAgree` | types/src/trusted_state.rs:174-296 | at the same version two clients hold the same accumulator; at different versions one summarises a prefix of the other |
| `LightClients.EpochChangesClimb` | types/src/trusted_state.rs:212-257 | on the true history an epoch change raises the epoch without further assumption |
| `LightClients.NothingGoesBack` | types/src/trusted_state.rs:174-296 | along every run on the true history neither version nor epoch goes back, whatever is answered |
| `LightClients.ReplayOnHistory` | types/src/trusted_state.rs:212-295 | at any point of such a run an answer that just moved the client does not move it again |
| `LightClients.ConsistencyProofExists` | types/src/proof/definition.rs:333-354 | from a true accumulator there is a consistency proof to every later version |
| `LightClients.HonestProofAdvances` | types/src/trusted_state.rs:212-257 | an honest server has, for every lagging client, a proof that brings it to the end of the history served; the next rows say where every kind of answer leads |
| `LightClients.PortionAdvances` | types/src/trusted_state.rs:223-257 | with a slice of the history that stops short of the latest ledger info's epoch and is marked as partial, the client goes to the end of the slice |
| `LightClients.GapIsRefused` | types/src/trusted_state.rs:223-257 | the same slice marked as complete is refused as inconsistent |
| `LightClients.LatestIsReached` | types/src/trusted_state.rs:223-257 | with a latest ledger info in the epoch the slice opens, the client goes to it with the new validators if they signed it, and refuses the answer if they did not |
| `LightClients.VersionIsReached` | types/src/trusted_state.rs:258-295 | within its epoch the client goes to any later ledger info and keeps its validators, if they signed it, and refuses it if they did not |
| `LightClients.KnownIsNoChange` | types/src/trusted_state.rs:182-295 | what it trusts already changes nothing; what is behind is refused |
| `LightClients.CatchesUp` | types/src/trusted_state.rs:174-296 | from any position, with the history cut into portions of any size, honest answers bring a client to the latest ledger info with the validators in office and the true accumulator |
| `SafetyInitialization.ProgressRaisesWaypoint` | consensus/safety-rules/src/safety_rules.rs:285-345 | an out-of-date answer that made progress stored a strictly higher waypoint |
| `SafetyInitialization.InitializeOutcome` | consensus/safety-rules/src/safety_rules.rs:275-371 | where the proof leads to an epoch not behind: the newer waypoint, the validator set brought in, zeroed safety data in a new epoch and untouched ones otherwise, and the key the set expects; a missing member or key is reported if and only if it is missing |
| `SafetyInitialization.PerformInitializeLoop` | consensus/src/metrics_safety_rules.rs:36-65 | the loop ends for every storage and leaves the state of the recursion |
| `SafetyInitialization.InitializedOk` | consensus/src/metrics_safety_rules.rs:36-65 | success leaves a validator set of the data's own epoch and a key; an out-of-date error that comes out made no progress |
| `SafetyInitialization.HonestStorageSuffices` | consensus/src/metrics_safety_rules.rs:36-65 | with a storage that serves the history in portions of any size and takes what is written, only membership or the key can still be missing |
| `SafetyInitialization.RetryOn` | consensus/src/metrics_safety_rules.rs:67-81 | a vote or timeout call under either protocol is made again at most once, and only after a successful initialisation |
| `SafetyInitialization.RetryIsEffective` | consensus/src/metrics_safety_rules.rs:67-81 | after the retry such a call is refused for want of initialisation only for a foreign epoch |
| `SafetyInitialization.RetryInitializes` | consensus/src/metrics_safety_rules.rs:67-81 | a validator without its key is initialised from where it was, and then answers as an initialised one does |
| `SafetyInitialization.RetryFollowsEpoch` | consensus/src/metrics_safety_rules.rs:67-81 | so is one that is asked for a timeout of another epoch than its own |
| `SafetyInitialization.RetryLeavesAlone` | consensus/src/metrics_safety_rules.rs:67-81 | one in the call's epoch is not initialised again, whatever the call answers |
| `BlockRetrieval.ProcessBlockRetrieval` | consensus/src/round_manager.rs:751-785 | the reply is the longest parent chain that count, target and store allow, and its status names the bound |
| `BlockRetrieval.ExactIsUnique` | consensus/src/round_manager.rs:758-777 | there is exactly one such reply |
| `BlockRetrieval.ReplyVerifies` | consensus/consensus-types/src/block_retrieval.rs:102-135 | of a reply computed from a store the requester accepts exactly those whose blocks are all valid |
| `BlockRetrieval.GenesisIsRefused` | consensus/consensus-types/src/block_retrieval.rs:102-135 | so a reply that goes down to the genesis block is refused |
| `BlockRetrieval.VerifiedRepliesAgree` | consensus/consensus-types/src/block_retrieval.rs:102-135 | two accepted replies to a request agree wherever both have a block |
| `Recovery.SortSorts` | consensus/src/persistent_liveness_storage.rs:118-119 | sorted by epoch and round, and a permutation |
| `Recovery.SortIsStable` | consensus/src/persistent_liveness_storage.rs:118-119 | blocks of one epoch and round stay in the order in which they were stored |
| `Recovery.FindRootInPlace` | consensus/src/persistent_liveness_storage.rs:87-145 | root, remaining blocks and certificates, or the error, with the virtual genesis at an epoch's end; `FindRootIsRight` says which |
| `Recovery.FindRootSpec` | consensus/src/persistent_liveness_storage.rs:87-145 | the root is one of the blocks and the rest are all others, in order |
| `Recovery.FindRootIsRight` | consensus/src/persistent_liveness_storage.rs:87-145 | the root is the block the ledger info commits, or the next epoch's genesis, with the first certificate for it, the first that commits it and the right ledger info; each error if and only if just that is missing |
| `Recovery.GenesisIsCertified` | consensus/consensus-types/src/quorum_cert.rs:74-97 | the virtual genesis is round zero of the next epoch on the ledger the last one ended with, and its certificate verifies for any validators |
| `Recovery.EpochEndHasRoot` | consensus/src/persistent_liveness_storage.rs:97-117 | at an epoch's end there is a root whatever was stored |
| `Recovery.FindBlocksToPrune` | consensus/src/persistent_liveness_storage.rs:283-304 | the in-place pass and the retention of certificates compute the recursion |
| `Recovery.PruneIsReachability` | consensus/src/persistent_liveness_storage.rs:283-304 | with parents first, the single pass keeps exactly the descendants of the root |
| `Recovery.OrderIsNeeded` | consensus/src/persistent_liveness_storage.rs:118-119 | with a child before its parent a descendant is lost |
| `Recovery.PruneSplits` | consensus/src/persistent_liveness_storage.rs:283-304 | kept blocks and removed ones split the input, each in its order, and the ids reported are those of the removed |
| `Recovery.KeptIsParentFirst` | consensus/src/persistent_liveness_storage.rs:283-304 | each kept block hangs on the root or on one kept before it, for any input |
| `Recovery.PruneIsIdempotent` | consensus/src/persistent_liveness_storage.rs:283-304 | a second run removes nothing, for any input |
| `Recovery.RecoveredIsReachable` | consensus/src/persistent_liveness_storage.rs:192-250 | recovery from blocks stored in any order gives exactly those that descend from the root, parents first |
| `Recovery.RecoveredCertificates` | consensus/src/persistent_liveness_storage.rs:192-250 | a certificate survives exactly when it certifies the root or a recovered block |
| `Recovery.NothingIsLost` | consensus/src/persistent_liveness_storage.rs:192-250 | every stored block is the root, recovered, or reported for removal, as often as it was stored |
| `Recovery.OtherEpochsForgotten` | consensus/src/persistent_liveness_storage.rs:192-250 | the last vote and the timeout certificates of the root's epoch survive, and only those |
| `EventByVersion.TrueCountIsExact` | types/src/contract_event.rs:454-567 | with the true count exactly the right answers are accepted, for every history and version, saturation included |
| `EventByVersion.UpperBoundSuffices` | types/src/contract_event.rs:454-567 | with an upper bound present any accepted answer is the right one, whatever count is given |
| `EventByVersion.WithoutCount` | types/src/contract_event.rs:468-483 | what exactly is accepted when the caller gives no count: exactness holds if and only if there is an upper bound |
| `EventByVersion.EmptyAnswerUnchecked` | types/src/contract_event.rs:468-495 | without a count the empty answer passes even where there are events |

## Left out

- REST and JSON-RPC handlers, database, mempool, state sync, execution and Move: outside the trust core.
- Proposing and proposer election, the block store, `sync_up` and timers: they decide liveness; their results are inputs here, arbitrary ones.
- `process_vote` around the aggregator (who collects votes, what is done with a certificate): thin dispatch; `VoteNetwork` takes any delivered votes of a round instead.
- Commit votes of decoupled execution (`sign_commit_vote`) and signing of proposals: separate signatures that the commit rules do not use.
- Reading and encoding of the persistent safety storage; failed writes are modelled, failed reads and corruption are not.
- Sparse Merkle proofs, event and transaction proofs: an event proof is an arbitrary relation, assumed sound where that is needed.
- Text, JSON and BCS forms of waypoints and ledger infos.
- Test-only constructors of validator sets, which can set any quorum.
- Root metadata of recovered blocks (only carried along) and the recovery of the ledger from storage.
- Recovery.FindRootInPlace: the two vectors are values that are reassigned, the sort is a stable insertion sort standing for the library's; the epoch of the ledger info at an epoch's end is below the last u64.
- Accumulators.AppendSubtreesLoop: an accumulator whose root count does not fit its size is refused, where the source would panic; the count of leaves is kept as an odd number times a power of two in place of bit masks.
- TrustedStates.RatchetInvariant: a missing initial accumulator is an error of the model, where the source panics.
- TrustedStates.EpochsNeverDecrease: under `Advances`, one way only: an epoch change to a ledger info that does not advance can still land in a later epoch than the client's.
- TrustedStates.ReplayDoesNotMove: after a change of epoch under `Advances`, which the code leaves to the signers.
- GroundedConsensus.ClientsOfTheProtocolAgree: validators and clients all start at the genesis waypoint; one that is set up later with a later waypoint is not a step of the run.
- Unchecked arithmetic is that of an optimised build, in which an overflow wraps around; a build with overflow checks panics there. Checked arithmetic that panics has no result.
- EpochChanges.VerifySpec: for a validator set whose powers do not sum within u64, which no constructor makes, the model compares the true sum of the signers with the threshold, where the unchecked addition of the source would wrap around; the other results on arbitrary verifiers share this.
