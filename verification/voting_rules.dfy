/**
  The voting and timeout rules read as rules: when exactly a validator that can
  sign and store, and has accepted a proposal as such, does vote or time out.
  And why the rules do not block it: what the aggregator hands out for a round
  satisfies them in the next one.
 */
module VotingRules {
  import opened Types
  import opened ValidatorVerifiers
  import opened Certificates
  import opened SafetyRulesModel
  import opened SafetyJournals
  import opened RoundManagers
  import opened PendingVotesModel
  import opened VoteAggregation

  predicate Works(env: Env) {
    env.signature.Some? && env.stored
  }

  // ----- proposals -------------------------------------------------------

  /** Whoever proposed the block signed it; a NIL block has no proposer, and genesis comes from nobody. */
  predicate Proposed(v: ValidatorVerifier, block: Block) {
    match block.data.blockType
    case Genesis => false
    case NilBlock => true
    case Proposal(_, author) =>
      && author in v.infos && block.signature.Some?
      && SignatureVerifies(v.infos[author].publicKey, BlockMessage(block.data), block.signature.value)
  }

  /** What a proposal has to be, apart from the voting rules. */
  predicate Proper(s: SafetyState, p: VoteProposal, now: U64) {
    var block, qc := p.block, p.block.data.quorumCert;
    && (s.executionKey.Some? ==> p.executionSignature.Some? && ExecutionSignatureVerifies(s.executionKey.value, p))
    && s.epochState.Some? && block.data.epoch == s.data.epoch
    && QuorumCertVerify(s.epochState.value.verifier, qc) && !qc.signedLedgerInfo.ledgerInfo.EndsEpoch()
    && qc.CertifiedBlock().epoch == block.data.epoch && qc.CertifiedBlock().round < block.data.round
    && Proposed(s.epochState.value.verifier, block)
    && Timely(block, now)
    && (p.decoupled || p.extension.Some?)
  }

  /** The proposals that get past the checks are exactly the proper ones. */
  lemma ProposalPassesIff(s: SafetyState, p: VoteProposal, now: U64)
    ensures VerifyProposal(s, p, now).Ok? <==> Proper(s, p, now)
  {
  }

  /** And this is what a vote for one binds: the block, its parent, and the execution result unless execution is decoupled. */
  lemma VoteBindsProposal(s: SafetyState, p: VoteProposal, now: U64)
    requires VerifyProposal(s, p, now).Ok?
    ensures var voteData := VerifyProposal(s, p, now).value;
            && BindsBlock(voteData.proposed, p.block)
            && voteData.parent == p.block.data.quorumCert.CertifiedBlock()
            && voteData.proposed.nextEpochState == p.nextEpochState
            && if p.decoupled then voteData.proposed.executedStateId == ACCUMULATOR_PLACEHOLDER_HASH && voteData.proposed.version == 0
               else p.extension == Some((voteData.proposed.executedStateId, voteData.proposed.version))
  {
  }

  /** A proper proposal for a new round, and a validator that can sign and store. */
  predicate Considered(s: SafetyState, p: VoteProposal, env: Env) {
    s.signer.Some? && Works(env) && Proper(s, p, env.now) && !VotedAlready(s.data, p.block)
  }

  /** A NIL block on a verified certificate of the epoch that does not end it is proper at any time. */
  lemma NilIsProper(s: SafetyState, round: U64, qc: QuorumCert, p: VoteProposal, now: U64)
    requires s.executionKey.None? && s.epochState.Some? && QuorumCertVerify(s.epochState.value.verifier, qc)
    requires qc.CertifiedBlock().epoch == s.data.epoch && qc.CertifiedBlock().round < round && !qc.signedLedgerInfo.ledgerInfo.EndsEpoch()
    requires p.block == NewNil(round, qc) && (p.decoupled || p.extension.Some?)
    ensures Proper(s, p, now)
  {
  }

  // ----- the rules -------------------------------------------------------

  predicate TcAccepted(s: SafetyState, tc: Option<TwoChainTimeoutCertificate>)
    requires s.epochState.Some?
  {
    tc.Some? ==> TwoChainTcVerify(s.epochState.value.verifier, tc.value)
  }

  /** The round before was certified, or it was given up with nothing higher known than the block's own certificate. */
  predicate MayVote(block: Block, tc: Option<TwoChainTimeoutCertificate>) {
    var qcRound := block.data.quorumCert.CertifiedBlock().round;
    || block.data.round == qcRound + 1
    || (tc.Some? && block.data.round == tc.value.timeout.round + 1 && qcRound >= tc.value.timeout.HqcRound())
  }

  lemma VotesTwoChainIff(s: SafetyState, p: VoteProposal, tc: Option<TwoChainTimeoutCertificate>, env: Env)
    requires Considered(s, p, env) && TcAccepted(s, tc)
    ensures VoteTwoChain(s, p, tc, env).Ok? <==> s.data.lastVotedRound < p.block.data.round && MayVote(p.block, tc)
  {
    ProposalPassesIff(s, p, env.now);
  }

  /** Under the 3-chain rule: behind neither the last vote nor the highest grandparent voted on. */
  lemma VotesThreeChainIff(s: SafetyState, p: VoteProposal, env: Env)
    requires Considered(s, p, env)
    ensures VoteThreeChain(s, p, env).Ok? <==>
              s.data.lastVotedRound < p.block.data.round && s.data.preferredRound <= p.block.data.quorumCert.CertifiedBlock().round
  {
    ProposalPassesIff(s, p, env.now);
  }

  /** A timeout is signed for the round after a certificate or a timeout certificate, admitting to every certificate seen. */
  lemma TimesOutIff(s: SafetyState, timeout: TwoChainTimeout, tc: Option<TwoChainTimeoutCertificate>, env: Env)
    requires s.signer.Some? && s.epochState.Some? && Works(env)
    requires timeout.epoch == s.data.epoch && TwoChainTimeoutVerify(s.epochState.value.verifier, timeout) && TcAccepted(s, tc)
    ensures TimeoutTwoChain(s, timeout, tc, env).0.Ok? <==>
              && (timeout.round == timeout.HqcRound() + 1 || (tc.Some? && timeout.round == tc.value.timeout.round + 1))
              && s.data.oneChainRound <= timeout.HqcRound()
              && s.data.lastVotedRound <= timeout.round
  {
  }

  /** Under the 3-chain rule: past the preferred round and not behind the last vote; and the round is then given up. */
  lemma TimesOutThreeChainIff(s: SafetyState, timeout: Timeout, env: Env)
    requires s.signer.Some? && Works(env) && timeout.epoch == s.data.epoch
    ensures var (r, data) := TimeoutThreeChain(s, timeout, env);
            && (r.Ok? <==> s.data.preferredRound < timeout.round && s.data.lastVotedRound <= timeout.round)
            && (r.Ok? ==> data == s.data.(lastVotedRound := timeout.round))
            && (r.Err? ==> data == s.data)
  {
  }

  /** A manager whose vote of the round is out signs the local timeout exactly when the rule allows it. */
  lemma VotedTimesOutIff(m: Manager, round: U64, out: Outside)
    requires m.voteSent.Some? && m.voteSent.value.Round() == round == m.currentRound && !m.voteSent.value.IsTimeout() && !out.syncOnly
    requires m.journal.state.signer.Some? && m.journal.state.epochState.Some? && Works(out.timeoutEnv) && TcAccepted(m.journal.state, out.highestTc)
    requires m.voteSent.value.Epoch() == m.journal.state.data.epoch
    requires TwoChainTimeoutVerify(m.journal.state.epochState.value.verifier, TwoChainTimeout(m.voteSent.value.Epoch(), round, out.highestQc))
    ensures var qcRound := out.highestQc.CertifiedBlock().round;
            SignsTimeout(m, true, round, out) <==>
              && (round == qcRound + 1 || (out.highestTc.Some? && round == out.highestTc.value.timeout.round + 1))
              && m.journal.state.data.oneChainRound <= qcRound
              && m.journal.state.data.lastVotedRound <= round
  {
    TimesOutIff(m.journal.state, TwoChainTimeout(m.voteSent.value.Epoch(), round, out.highestQc), out.highestTc, out.timeoutEnv);
  }

  // ----- the next round --------------------------------------------------

  /** A validator of the same set that has not yet voted past the round. */
  predicate ReadyAfter(s: SafetyState, v: ValidatorVerifier, round: U64) {
    s.epochState.Some? && s.epochState.value.verifier == v && s.data.lastVotedRound <= round
  }

  /** The block certified by the votes of a round can be extended in the next one by every validator that is ready. */
  lemma CertificateLeadsOn(votes: seq<Vote>, v: ValidatorVerifier, epoch: U64, round: U64, k: nat,
                           s: SafetyState, p: VoteProposal, tc: Option<TwoChainTimeoutCertificate>, env: Env)
    requires Wellformed(v) && k < |votes| && forall i :: 0 <= i < |votes| ==> VerifiedVote(v, epoch, round, votes[i])
    requires Answer(votes, v, k).NewQuorumCertificate?
    requires ReadyAfter(s, v, round) && Considered(s, p, env) && TcAccepted(s, tc)
    requires p.block.data.quorumCert == Answer(votes, v, k).qc && p.block.data.round == round + 1
    ensures VoteTwoChain(s, p, tc, env).Ok?
  {
    InsertSummary(Run(votes[..k], v), votes[k], v);
    VotesTwoChainIff(s, p, tc, env);
  }

  lemma ReturnedTcIsKept(p: Pending, vote: Vote, v: ValidatorVerifier)
    requires Wellformed(v) && InsertVote(p, vote, v).0.New2ChainTimeoutCertificate?
    ensures InsertVote(p, vote, v).1.maybePartial2chainTc == Some(InsertVote(p, vote, v).0.tc2)
  {
  }

  /**
    After a round that was given up: with the timeout certificate the
    aggregator returned, every validator that is ready votes for a proposal
    that extends the certificate carried in it.
   */
  lemma TimeoutLeadsOn(votes: seq<Vote>, v: ValidatorVerifier, epoch: U64, round: U64, k: nat,
                       s: SafetyState, p: VoteProposal, env: Env)
    requires LedgerInfoHashInjective() && Wellformed(v)
    requires k < |votes| && forall i :: 0 <= i < |votes| ==> VerifiedVote(v, epoch, round, votes[i])
    requires Answer(votes, v, k).New2ChainTimeoutCertificate?
    requires ReadyAfter(s, v, round) && Considered(s, p, env)
    requires p.block.data.quorumCert == Answer(votes, v, k).tc2.timeout.quorumCert && p.block.data.round == round + 1
    ensures VoteTwoChain(s, p, Some(Answer(votes, v, k).tc2), env).Ok?
  {
    var tc := Answer(votes, v, k).tc2;
    CertificatesVerify(votes, v, epoch, round, k);
    ReturnedTcIsKept(Run(votes[..k], v), votes[k], v);
    assert votes[..k + 1][..k] == votes[..k];
    SignedRun(votes[..k + 1], v, epoch, round);
    assert Tc2Signed(Some(tc), v, epoch, round);
    VotesTwoChainIff(s, p, Some(tc), env);
  }
}
