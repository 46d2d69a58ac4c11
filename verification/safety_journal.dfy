/**
  One validator over its whole life: the votes and timeouts its safety rules
  ever signed, across rounds, epochs and restarts, and what the rules keep
  true of them.
 */
module SafetyJournals {
  import opened Types
  import opened Certificates
  import opened EpochChanges
  import opened SafetyRulesModel

  datatype Rule = TwoChain(tc: Option<TwoChainTimeoutCertificate>) | ThreeChain

  /** A vote as it was signed, with the evidence it was signed on and the voter's clock. */
  datatype CastVote = CastVote(epochState: EpochState, block: Block, rule: Rule, now: U64, voteData: VoteData, ledgerInfo: LedgerInfo) {
    function Epoch(): U64 {
      voteData.proposed.epoch
    }

    function Round(): U64 {
      voteData.proposed.round
    }

    function Qc(): QuorumCert {
      block.data.quorumCert
    }

    function QcRound(): U64 {
      Qc().CertifiedBlock().round
    }

    function QcParentRound(): U64 {
      Qc().ParentBlock().round
    }
  }

  datatype Journal = Journal(state: SafetyState, votes: set<CastVote>, timeouts: set<TimeoutSigningRepr>)

  // ----- steps -----------------------------------------------------------

  function Record(j: Journal, p: VoteProposal, rule: Rule, now: U64, r: Result<(Vote, SafetyData), SafetyError>): Journal
    requires r.Ok? ==> j.state.epochState.Some?
  {
    if r.Err? || VotedAlready(j.state.data, p.block) then j
    else
      var (vote, data) := r.value;
      Journal(j.state.(data := data),
              j.votes + {CastVote(j.state.epochState.value, p.block, rule, now, vote.voteData, vote.ledgerInfo)},
              j.timeouts)
  }

  function StepVoteTwoChain(j: Journal, p: VoteProposal, tc: Option<TwoChainTimeoutCertificate>, env: Env): Journal {
    Record(j, p, TwoChain(tc), env.now, VoteTwoChain(j.state, p, tc, env))
  }

  function StepVoteThreeChain(j: Journal, p: VoteProposal, env: Env): Journal {
    Record(j, p, ThreeChain, env.now, VoteThreeChain(j.state, p, env))
  }

  function StepTimeoutTwoChain(j: Journal, timeout: TwoChainTimeout, tc: Option<TwoChainTimeoutCertificate>, env: Env): Journal {
    var (r, data) := TimeoutTwoChain(j.state, timeout, tc, env);
    Journal(j.state.(data := data), j.votes, if r.Ok? then j.timeouts + {timeout.SigningFormat()} else j.timeouts)
  }

  function StepTimeoutThreeChain(j: Journal, timeout: Timeout, env: Env): Journal {
    j.(state := j.state.(data := TimeoutThreeChain(j.state, timeout, env).1))
  }

  function StepInitialize(j: Journal, proof: EpochChangeProof, env: InitEnv): Journal {
    j.(state := Initialize(j.state, proof, env).1)
  }

  /** Safety data and waypoint are persistent; the signer and the epoch state are not. */
  function StepRestart(j: Journal): Journal {
    j.(state := j.state.(signer := None, epochState := None))
  }

  // ----- the evidence behind one vote --------------------------------------

  predicate RuleFollowed(c: CastVote) {
    match c.rule
    case TwoChain(tc) =>
      && (c.Round() == c.QcRound() + 1
          || (&& tc.Some? && TwoChainTcVerify(c.epochState.verifier, tc.value)
              && c.Round() == tc.value.timeout.round + 1
              && c.QcRound() >= tc.value.timeout.HqcRound()))
      && c.ledgerInfo.commitInfo == (if c.Round() == c.QcRound() + 1 then c.Qc().CertifiedBlock() else EMPTY_BLOCK_INFO)
    case ThreeChain =>
      c.ledgerInfo.commitInfo ==
        (if c.QcRound() == c.QcParentRound() + 1 && c.Round() == c.QcRound() + 1 then c.Qc().ParentBlock() else EMPTY_BLOCK_INFO)
  }

  /** Neither a NIL block nor one after a reconfiguration. */
  predicate Ordinary(block: Block) {
    block.data.blockType.Proposal? && block.data.quorumCert.CertifiedBlock().nextEpochState.None?
  }

  /**
    The time of an ordinary block is past its parent's and at most five minutes
    ahead of the clock; other blocks repeat their parent's time and carry
    nothing after a reconfiguration.
   */
  predicate Timely(block: Block, now: U64) {
    var parent := block.data.quorumCert.CertifiedBlock();
    && !block.data.blockType.Genesis?
    && (Ordinary(block) ==> parent.timestampUsecs < block.data.timestampUsecs <= now + 5 * 60 * 1_000_000)
    && (!Ordinary(block) ==> block.data.timestampUsecs == parent.timestampUsecs)
    && (!Ordinary(block) && block.data.blockType.Proposal? ==> block.data.blockType.payload == [])
  }

  predicate BindsBlock(b: BlockInfo, block: Block) {
    && b.id == block.id && b.epoch == block.data.epoch && b.round == block.data.round
    && b.timestampUsecs == block.data.timestampUsecs
  }

  /** The vote binds its block, extends a certified block of the same epoch, and obeys its rule. */
  predicate Evidenced(c: CastVote) {
    && c.epochState.epoch == c.Epoch()
    && c.voteData.parent == c.Qc().CertifiedBlock()
    && BindsBlock(c.voteData.proposed, c.block)
    && Timely(c.block, c.now)
    && c.voteData.parent.epoch == c.Epoch()
    && c.QcRound() < c.Round()
    && QuorumCertVerify(c.epochState.verifier, c.Qc())
    && c.ledgerInfo.consensusDataHash == VoteDataHash(c.voteData)
    && RuleFollowed(c)
  }

  // ----- the invariant ---------------------------------------------------

  ghost predicate AllEvidenced(votes: set<CastVote>) {
    forall c :: c in votes ==> Evidenced(c)
  }

  /** The safety data is ahead of everything signed in its epoch. */
  ghost predicate DataAhead(data: SafetyData, votes: set<CastVote>, timeouts: set<TimeoutSigningRepr>) {
    && (forall c :: c in votes ==>
          && c.Epoch() <= data.epoch
          && (c.Epoch() == data.epoch ==>
                c.Round() <= data.lastVotedRound && c.QcRound() <= data.oneChainRound && c.QcParentRound() <= data.preferredRound))
    && (forall t :: t in timeouts ==>
          t.epoch <= data.epoch && (t.epoch == data.epoch ==> t.round <= data.lastVotedRound))
  }

  ghost predicate OneVotePerRound(votes: set<CastVote>) {
    forall c, d :: c in votes && d in votes && c.Epoch() == d.Epoch() && c.Round() == d.Round() ==> c == d
  }

  /** A timeout admits to every certificate a vote up to its round was based on. */
  ghost predicate TimeoutsAdmitVotes(votes: set<CastVote>, timeouts: set<TimeoutSigningRepr>) {
    forall c, t :: c in votes && t in timeouts && c.Epoch() == t.epoch && c.Round() <= t.round ==> c.QcRound() <= t.hqcRound
  }

  /** Under the 3-chain rule no vote goes behind the grandparent round of an earlier one. */
  ghost predicate PreferredRespected(votes: set<CastVote>) {
    forall c, d :: c in votes && d in votes && c.Epoch() == d.Epoch() && c.Round() < d.Round() && d.rule.ThreeChain? ==>
      c.QcParentRound() <= d.QcRound()
  }

  ghost predicate SameVote(c: CastVote, vote: Vote) {
    c.voteData == vote.voteData && c.ledgerInfo == vote.ledgerInfo
  }

  ghost predicate LastVoteRecorded(data: SafetyData, votes: set<CastVote>) {
    data.lastVote.Some? ==> exists c :: c in votes && c.Epoch() == data.epoch && SameVote(c, data.lastVote.value)
  }

  /** As the safety rules hand it out: in the validator's name, without a timeout. */
  predicate IsOwn(s: SafetyState, vote: Vote) {
    vote.author == s.author && !vote.IsTimeout()
  }

  ghost predicate LastVoteOwn(s: SafetyState) {
    s.data.lastVote.Some? ==> IsOwn(s, s.data.lastVote.value)
  }

  ghost predicate EpochStateCurrent(s: SafetyState) {
    s.epochState.Some? ==> s.epochState.value.epoch == s.data.epoch
  }

  ghost predicate Sound(j: Journal) {
    && AllEvidenced(j.votes)
    && DataAhead(j.state.data, j.votes, j.timeouts)
    && OneVotePerRound(j.votes)
    && TimeoutsAdmitVotes(j.votes, j.timeouts)
    && PreferredRespected(j.votes)
    && LastVoteRecorded(j.state.data, j.votes)
    && LastVoteOwn(j.state)
    && EpochStateCurrent(j.state)
  }

  // ----- every step keeps it -----------------------------------------------

  /** What a newly cast vote brings along, whichever rule it was cast under. */
  ghost predicate Admissible(j: Journal, c: CastVote, data: SafetyData) {
    && Evidenced(c)
    && c.Epoch() == j.state.data.epoch == data.epoch
    && j.state.data.lastVotedRound < c.Round() == data.lastVotedRound
    && data.oneChainRound == Max(j.state.data.oneChainRound, c.QcRound())
    && data.preferredRound == Max(j.state.data.preferredRound, c.QcParentRound())
    && (c.rule.ThreeChain? ==> j.state.data.preferredRound <= c.QcRound())
    && data.lastVote.Some? && SameVote(c, data.lastVote.value) && IsOwn(j.state, data.lastVote.value)
  }

  /** The vote is past all others of its epoch. */
  ghost predicate Newest(votes: set<CastVote>, c: CastVote) {
    forall d :: d in votes && d.Epoch() == c.Epoch() ==>
      d.Round() < c.Round() && (c.rule.ThreeChain? ==> d.QcParentRound() <= c.QcRound())
  }

  lemma NewestKeepsVotes(votes: set<CastVote>, c: CastVote)
    requires Newest(votes, c) && OneVotePerRound(votes) && PreferredRespected(votes)
    ensures OneVotePerRound(votes + {c}) && PreferredRespected(votes + {c})
  {
  }

  lemma AdmissibleKeepsVotes(j: Journal, c: CastVote, data: SafetyData)
    requires Sound(j) && Admissible(j, c, data)
    ensures AllEvidenced(j.votes + {c}) && OneVotePerRound(j.votes + {c}) && PreferredRespected(j.votes + {c})
  {
    assert Newest(j.votes, c);
    NewestKeepsVotes(j.votes, c);
  }

  lemma AdmissibleKeepsData(j: Journal, c: CastVote, data: SafetyData)
    requires Sound(j) && Admissible(j, c, data)
    ensures DataAhead(data, j.votes + {c}, j.timeouts) && TimeoutsAdmitVotes(j.votes + {c}, j.timeouts)
  {
  }

  lemma AdmissibleKeepsSound(j: Journal, c: CastVote, data: SafetyData)
    requires Sound(j) && Admissible(j, c, data)
    ensures Sound(Journal(j.state.(data := data), j.votes + {c}, j.timeouts))
  {
    AdmissibleKeepsVotes(j, c, data);
    AdmissibleKeepsData(j, c, data);
    assert c in j.votes + {c} && SameVote(c, data.lastVote.value);
  }

  /** The code's check of a block's time is what it says. */
  lemma WellFormedIsTimely(block: Block, now: U64)
    requires BlockWellFormed(block, now)
    ensures Timely(block, now)
  {
  }

  lemma TwoChainAdmissible(j: Journal, p: VoteProposal, tc: Option<TwoChainTimeoutCertificate>, env: Env)
    requires EpochStateCurrent(j.state)
    requires VoteTwoChain(j.state, p, tc, env).Ok? && !VotedAlready(j.state.data, p.block)
    ensures var (vote, data) := VoteTwoChain(j.state, p, tc, env).value;
            Admissible(j, CastVote(j.state.epochState.value, p.block, TwoChain(tc), env.now, vote.voteData, vote.ledgerInfo), data)
  {
    WellFormedIsTimely(p.block, env.now);
  }

  lemma ThreeChainAdmissible(j: Journal, p: VoteProposal, env: Env)
    requires EpochStateCurrent(j.state)
    requires VoteThreeChain(j.state, p, env).Ok? && !VotedAlready(j.state.data, p.block)
    ensures var (vote, data) := VoteThreeChain(j.state, p, env).value;
            Admissible(j, CastVote(j.state.epochState.value, p.block, ThreeChain, env.now, vote.voteData, vote.ledgerInfo), data)
  {
    WellFormedIsTimely(p.block, env.now);
  }

  lemma VoteTwoChainKeepsSound(j: Journal, p: VoteProposal, tc: Option<TwoChainTimeoutCertificate>, env: Env)
    requires Sound(j)
    ensures Sound(StepVoteTwoChain(j, p, tc, env))
  {
    var r := VoteTwoChain(j.state, p, tc, env);
    if r.Ok? && !VotedAlready(j.state.data, p.block) {
      TwoChainAdmissible(j, p, tc, env);
      var (vote, data) := r.value;
      AdmissibleKeepsSound(j, CastVote(j.state.epochState.value, p.block, TwoChain(tc), env.now, vote.voteData, vote.ledgerInfo), data);
    }
  }

  lemma VoteThreeChainKeepsSound(j: Journal, p: VoteProposal, env: Env)
    requires Sound(j)
    ensures Sound(StepVoteThreeChain(j, p, env))
  {
    var r := VoteThreeChain(j.state, p, env);
    if r.Ok? && !VotedAlready(j.state.data, p.block) {
      ThreeChainAdmissible(j, p, env);
      var (vote, data) := r.value;
      AdmissibleKeepsSound(j, CastVote(j.state.epochState.value, p.block, ThreeChain, env.now, vote.voteData, vote.ledgerInfo), data);
    }
  }

  /** Raising the last voted round alone keeps everything. */
  lemma RaiseKeepsSound(j: Journal, round: U64)
    requires Sound(j)
    ensures Sound(j.(state := j.state.(data := j.state.data.(lastVotedRound := Max(j.state.data.lastVotedRound, round)))))
  {
    var data := j.state.data.(lastVotedRound := Max(j.state.data.lastVotedRound, round));
    assert DataAhead(data, j.votes, j.timeouts);
    assert LastVoteRecorded(data, j.votes);
  }

  /** What a timeout is signed on, and what it does to the safety data. */
  lemma TimeoutTwoChainFacts(s: SafetyState, timeout: TwoChainTimeout, tc: Option<TwoChainTimeoutCertificate>, env: Env)
    ensures var (r, data) := TimeoutTwoChain(s, timeout, tc, env);
            && (data == s.data || data == s.data.(lastVotedRound := Max(s.data.lastVotedRound, timeout.round)))
            && (r.Ok? ==>
                  && data == s.data.(lastVotedRound := timeout.round)
                  && timeout.epoch == s.data.epoch
                  && timeout.round >= s.data.lastVotedRound
                  && timeout.HqcRound() >= s.data.oneChainRound
                  && s.epochState.Some?)
  {
  }

  lemma TimeoutTwoChainKeepsSound(j: Journal, timeout: TwoChainTimeout, tc: Option<TwoChainTimeoutCertificate>, env: Env)
    requires Sound(j)
    ensures Sound(StepTimeoutTwoChain(j, timeout, tc, env))
  {
    TimeoutTwoChainFacts(j.state, timeout, tc, env);
    RaiseKeepsSound(j, timeout.round);
    var (r, data) := TimeoutTwoChain(j.state, timeout, tc, env);
    if r.Ok? {
      AddTimeoutKeepsSound(j, timeout.SigningFormat());
    }
  }

  lemma AddTimeoutKeepsSound(j: Journal, t: TimeoutSigningRepr)
    requires Sound(j)
    requires t.epoch == j.state.data.epoch && t.round >= j.state.data.lastVotedRound && t.hqcRound >= j.state.data.oneChainRound
    ensures Sound(Journal(j.state.(data := j.state.data.(lastVotedRound := t.round)), j.votes, j.timeouts + {t}))
  {
    RaiseKeepsSound(j, t.round);
    var timeouts := j.timeouts + {t};
    assert TimeoutsAdmitVotes(j.votes, timeouts);
    assert DataAhead(j.state.data.(lastVotedRound := t.round), j.votes, timeouts);
  }

  lemma TimeoutThreeChainFacts(s: SafetyState, timeout: Timeout, env: Env)
    ensures var (r, data) := TimeoutThreeChain(s, timeout, env);
            && (data == s.data || data == s.data.(lastVotedRound := Max(s.data.lastVotedRound, timeout.round)))
            && (r.Ok? ==> data == s.data.(lastVotedRound := timeout.round))
  {
  }

  lemma TimeoutThreeChainKeepsSound(j: Journal, timeout: Timeout, env: Env)
    requires Sound(j)
    ensures Sound(StepTimeoutThreeChain(j, timeout, env))
  {
    TimeoutThreeChainFacts(j.state, timeout, env);
    RaiseKeepsSound(j, timeout.round);
  }

  lemma InitializeKeepsSound(j: Journal, proof: EpochChangeProof, env: InitEnv)
    requires Sound(j)
    ensures Sound(StepInitialize(j, proof, env))
  {
    var s' := Initialize(j.state, proof, env).1;
    assert DataAhead(s'.data, j.votes, j.timeouts);
    assert EpochStateCurrent(s');
  }

  lemma RestartKeepsSound(j: Journal)
    requires Sound(j)
    ensures Sound(StepRestart(j))
  {
  }

  /** The vote is the validator's own, for what it recorded. */
  ghost predicate Recorded(j: Journal, vote: Vote) {
    vote.author == j.state.author && exists c :: c in j.votes && SameVote(c, vote)
  }

  lemma LastVoteIsRecorded(j: Journal)
    requires Sound(j) && j.state.data.lastVote.Some?
    ensures Recorded(j, j.state.data.lastVote.value) && j.state.data.lastVote.value.Epoch() == j.state.data.epoch
  {
    var c :| c in j.votes && c.Epoch() == j.state.data.epoch && SameVote(c, j.state.data.lastVote.value);
  }

  lemma TwoChainFacts(s: SafetyState, p: VoteProposal, tc: Option<TwoChainTimeoutCertificate>, env: Env)
    requires VoteTwoChain(s, p, tc, env).Ok?
    ensures var (vote, data) := VoteTwoChain(s, p, tc, env).value;
            && data.lastVote == Some(vote)
            && data.epoch == s.data.epoch == p.block.data.epoch
            && vote.Round() == p.block.data.round
            && (VotedAlready(s.data, p.block) ==> data == s.data)
  {
  }

  lemma ThreeChainFacts(s: SafetyState, p: VoteProposal, env: Env)
    requires VoteThreeChain(s, p, env).Ok?
    ensures var (vote, data) := VoteThreeChain(s, p, env).value;
            && data.lastVote == Some(vote)
            && data.epoch == s.data.epoch == p.block.data.epoch
            && vote.Round() == p.block.data.round
            && (VotedAlready(s.data, p.block) ==> data == s.data)
  {
  }

  lemma TwoChainHandsOutRecorded(j: Journal, p: VoteProposal, tc: Option<TwoChainTimeoutCertificate>, env: Env)
    requires Sound(j) && VoteTwoChain(j.state, p, tc, env).Ok?
    ensures var vote := VoteTwoChain(j.state, p, tc, env).value.0;
            && Recorded(StepVoteTwoChain(j, p, tc, env), vote) && IsOwn(j.state, vote)
            && vote.Epoch() == p.block.data.epoch && vote.Round() == p.block.data.round
  {
    VoteTwoChainKeepsSound(j, p, tc, env);
    TwoChainFacts(j.state, p, tc, env);
    LastVoteIsRecorded(StepVoteTwoChain(j, p, tc, env));
  }

  lemma ThreeChainHandsOutRecorded(j: Journal, p: VoteProposal, env: Env)
    requires Sound(j) && VoteThreeChain(j.state, p, env).Ok?
    ensures var vote := VoteThreeChain(j.state, p, env).value.0;
            && Recorded(StepVoteThreeChain(j, p, env), vote) && IsOwn(j.state, vote)
            && vote.Epoch() == p.block.data.epoch && vote.Round() == p.block.data.round
  {
    VoteThreeChainKeepsSound(j, p, env);
    ThreeChainFacts(j.state, p, env);
    LastVoteIsRecorded(StepVoteThreeChain(j, p, env));
  }
}
