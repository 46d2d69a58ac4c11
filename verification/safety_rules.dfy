/**
  consensus/safety-rules/src/safety_rules.rs and safety_rules_2chain.rs: the
  voting and timeout rules of one validator, for both the 2-chain and the
  3-chain protocol, and its initialisation from an epoch change proof.

  Time, the outcome of signing and the outcomes of writing to the secure
  storage are inputs (`Env`, `InitEnv`).
 */
module SafetyRulesModel {
  import opened Types
  import opened ValidatorVerifiers
  import opened Certificates
  import opened EpochChanges

  datatype SafetyData = SafetyData(
    epoch: U64,
    lastVotedRound: U64,
    preferredRound: U64,
    oneChainRound: U64,
    lastVote: Option<Vote>)

  datatype SafetyError =
    | NotInitialized
    | IncorrectEpoch(provided: U64, expected: U64)
    | IncorrectRound(wrapping: U64)
    | IncorrectLastVotedRound(round: U64, lastVotedRound: U64)
    | IncorrectPreferredRound(round: U64, preferredRound: U64)
    | InvalidProposal
    | InvalidQuorumCertificate
    | InvalidAccumulatorExtension
    | InvalidTimeout
    | InvalidTimeoutCertificate
    | NotSafeToVote(round: U64, qcRound: U64, tcRound: U64, hqcRound: U64)
    | NotSafeToTimeout(round: U64, qcRound: U64, tcRound: U64, oneChainRound: U64)
    | SigningFailed
    | StorageFailed
    | InvalidEpochChangeProof
    | InvalidLedgerInfo
    | WaypointOutOfDate(previous: U64, updated: U64, currentEpoch: U64, providedEpoch: U64)
    | ValidatorNotInSet
    | ValidatorKeyNotFound
    | VoteProposalSignatureNotFound
    | InternalError

  datatype SafetyState = SafetyState(
    author: Address,
    data: SafetyData,
    waypoint: Waypoint,
    signer: Option<PublicKey>,
    epochState: Option<EpochState>,
    executionKey: Option<PublicKey>)

  /** A block with the outcome of verifying its accumulator extension proof. */
  datatype VoteProposal = VoteProposal(
    block: Block,
    nextEpochState: Option<EpochState>,
    extension: Option<(HashValue, U64)>,
    decoupled: bool,
    executionSignature: Option<Signature>)

  /** The execution signature in the proposal is one by the key over the rest of it. */
  const ExecutionSignatureVerifies: (PublicKey, VoteProposal) -> bool

  datatype Env = Env(now: U64, signature: Option<Signature>, stored: bool)

  /** What the secure storage does during an initialisation. */
  datatype InitEnv = InitEnv(waypointStored: bool, dataStored: bool, keyAvailable: bool)

  function NextRound(round: U64): Result<U64, SafetyError> {
    if round == U64_MAX then Err(IncorrectRound(round)) else Ok(round + 1)
  }

  // ----- proposals -------------------------------------------------------

  const TIMEBOUND: U64 := 300_000_000

  predicate BlockSignatureValid(v: ValidatorVerifier, block: Block) {
    match block.data.blockType
    case Genesis => false
    case NilBlock => QuorumCertVerify(v, block.data.quorumCert)
    case Proposal(_, author) =>
      && block.signature.Some?
      && Verify(v, author, BlockMessage(block.data), block.signature.value).Ok?
      && QuorumCertVerify(v, block.data.quorumCert)
  }

  predicate BlockWellFormed(block: Block, now: U64) {
    var parent := block.data.quorumCert.CertifiedBlock();
    && !block.data.blockType.Genesis?
    && parent.round < block.data.round
    && parent.epoch == block.data.epoch
    && (parent.HasReconfiguration() && block.data.blockType.Proposal? ==> block.data.blockType.payload == [])
    && (if block.data.blockType.NilBlock? || parent.HasReconfiguration()
        then block.data.timestampUsecs == parent.timestampUsecs
        else
          && block.data.timestampUsecs > parent.timestampUsecs
          && block.data.timestampUsecs <= if now + TIMEBOUND > U64_MAX then U64_MAX else now + TIMEBOUND)
    && !block.data.quorumCert.signedLedgerInfo.ledgerInfo.EndsEpoch()
  }

  function GenVoteData(p: VoteProposal): Result<VoteData, SafetyError> {
    var d := p.block.data;
    var parent := d.quorumCert.CertifiedBlock();
    if p.decoupled then
      Ok(VoteData(BlockInfo(d.epoch, d.round, p.block.id, ACCUMULATOR_PLACEHOLDER_HASH, 0, d.timestampUsecs, p.nextEpochState), parent))
    else if p.extension.Some? then
      Ok(VoteData(BlockInfo(d.epoch, d.round, p.block.id, p.extension.value.0, p.extension.value.1, d.timestampUsecs, p.nextEpochState), parent))
    else Err(InvalidAccumulatorExtension)
  }

  function VerifyProposal(s: SafetyState, p: VoteProposal, now: U64): Result<VoteData, SafetyError> {
    if s.executionKey.Some? && p.executionSignature.None? then Err(VoteProposalSignatureNotFound)
    else if s.executionKey.Some? && !ExecutionSignatureVerifies(s.executionKey.value, p) then Err(InternalError)
    else if p.block.data.epoch != s.data.epoch then Err(IncorrectEpoch(p.block.data.epoch, s.data.epoch))
    else if s.epochState.None? then Err(NotInitialized)
    else if !QuorumCertVerify(s.epochState.value.verifier, p.block.data.quorumCert) then Err(InvalidQuorumCertificate)
    else if !BlockSignatureValid(s.epochState.value.verifier, p.block) then Err(InvalidProposal)
    else if !BlockWellFormed(p.block, now) then Err(InvalidProposal)
    else GenVoteData(p)
  }

  // ----- the rules -------------------------------------------------------

  function ObserveQc(qc: QuorumCert, data: SafetyData): SafetyData {
    data.(oneChainRound := Max(data.oneChainRound, qc.CertifiedBlock().round),
          preferredRound := Max(data.preferredRound, qc.ParentBlock().round))
  }

  function Max(x: U64, y: U64): U64 {
    if x < y then y else x
  }

  function UpdateLastVotedRound(round: U64, data: SafetyData): Result<SafetyData, SafetyError> {
    if round <= data.lastVotedRound then Err(IncorrectLastVotedRound(round, data.lastVotedRound))
    else Ok(data.(lastVotedRound := round))
  }

  function UpdatePreferredRound(qc: QuorumCert, data: SafetyData): Result<SafetyData, SafetyError> {
    if qc.CertifiedBlock().round < data.preferredRound
    then Err(IncorrectPreferredRound(qc.CertifiedBlock().round, data.preferredRound))
    else Ok(ObserveQc(qc, data))
  }

  function TcRound(tc: Option<TwoChainTimeoutCertificate>): U64 {
    if tc.Some? then tc.value.timeout.round else 0
  }

  function TcHqcRound(tc: Option<TwoChainTimeoutCertificate>): U64 {
    if tc.Some? then tc.value.timeout.HqcRound() else 0
  }

  /** Vote after the block's own certificate, or after a timeout certificate that knows nothing higher. */
  function SafeToVote(block: Block, tc: Option<TwoChainTimeoutCertificate>): Result<(), SafetyError> {
    var round, qcRound := block.data.round, block.data.quorumCert.CertifiedBlock().round;
    var afterQc :- NextRound(qcRound);
    if round == afterQc then Ok(())
    else
      var afterTc :- NextRound(TcRound(tc));
      if round == afterTc && qcRound >= TcHqcRound(tc) then Ok(())
      else Err(NotSafeToVote(round, qcRound, TcRound(tc), TcHqcRound(tc)))
  }

  function SafeToTimeout(timeout: TwoChainTimeout, tc: Option<TwoChainTimeoutCertificate>, data: SafetyData): Result<(), SafetyError> {
    var unsafe := NotSafeToTimeout(timeout.round, timeout.HqcRound(), TcRound(tc), data.oneChainRound);
    var afterQc :- NextRound(timeout.HqcRound());
    if timeout.round == afterQc then
      if timeout.HqcRound() >= data.oneChainRound then Ok(()) else Err(unsafe)
    else
      var afterTc :- NextRound(TcRound(tc));
      if timeout.round == afterTc && timeout.HqcRound() >= data.oneChainRound then Ok(()) else Err(unsafe)
  }

  /** Commits the parent when it is in the round just before. */
  function LedgerInfo2Chain(block: Block, hash: HashValue): Result<LedgerInfo, SafetyError> {
    var qc := block.data.quorumCert;
    var next :- NextRound(qc.CertifiedBlock().round);
    Ok(LedgerInfo(if next == block.data.round then qc.CertifiedBlock() else EMPTY_BLOCK_INFO, hash))
  }

  /** Commits the grandparent when the three blocks are in consecutive rounds. */
  function LedgerInfo3Chain(block: Block, hash: HashValue): Result<LedgerInfo, SafetyError> {
    var qc := block.data.quorumCert;
    var next0 :- NextRound(qc.ParentBlock().round);
    if next0 != qc.CertifiedBlock().round then Ok(LedgerInfo(EMPTY_BLOCK_INFO, hash))
    else
      var next1 :- NextRound(qc.CertifiedBlock().round);
      Ok(LedgerInfo(if next1 == block.data.round then qc.ParentBlock() else EMPTY_BLOCK_INFO, hash))
  }

  // ----- voting ----------------------------------------------------------

  /** The proposal is for the round of the last vote, which is then sent back. */
  predicate VotedAlready(data: SafetyData, block: Block) {
    data.lastVote.Some? && data.lastVote.value.Round() == block.data.round
  }

  function Cast(s: SafetyState, data: SafetyData, voteData: VoteData, li: LedgerInfo, env: Env): Result<(Vote, SafetyData), SafetyError> {
    if env.signature.None? then Err(SigningFailed)
    else
      var vote := Vote(voteData, s.author, li, env.signature.value, None, None);
      if !env.stored then Err(StorageFailed) else Ok((vote, data.(lastVote := Some(vote))))
  }

  /** The vote, and the safety data to persist with it. */
  function VoteTwoChain(s: SafetyState, p: VoteProposal, tc: Option<TwoChainTimeoutCertificate>, env: Env): Result<(Vote, SafetyData), SafetyError> {
    if s.signer.None? then Err(NotInitialized)
    else
      var voteData :- VerifyProposal(s, p, env.now);
      if tc.Some? && !TwoChainTcVerify(s.epochState.value.verifier, tc.value) then Err(InvalidTimeoutCertificate)
      else if VotedAlready(s.data, p.block) then Ok((s.data.lastVote.value, s.data))
      else
        var voted :- UpdateLastVotedRound(p.block.data.round, s.data);
        var _ :- SafeToVote(p.block, tc);
        var li :- LedgerInfo2Chain(p.block, VoteDataHash(voteData));
        Cast(s, ObserveQc(p.block.data.quorumCert, voted), voteData, li, env)
  }

  function VoteThreeChain(s: SafetyState, p: VoteProposal, env: Env): Result<(Vote, SafetyData), SafetyError> {
    if s.signer.None? then Err(NotInitialized)
    else
      var voteData :- VerifyProposal(s, p, env.now);
      if VotedAlready(s.data, p.block) then Ok((s.data.lastVote.value, s.data))
      else
        var preferred :- UpdatePreferredRound(p.block.data.quorumCert, s.data);
        var voted :- UpdateLastVotedRound(p.block.data.round, preferred);
        var li :- LedgerInfo3Chain(p.block, VoteDataHash(voteData));
        Cast(s, voted, voteData, li, env)
  }

  // ----- timeouts --------------------------------------------------------

  /** The data after a timeout that raises the last voted round is stored before the timeout is signed. */
  function StoreAndSign(data: SafetyData, round: U64, env: Env): (Result<Signature, SafetyError>, SafetyData) {
    if round > data.lastVotedRound && !env.stored then (Err(StorageFailed), data)
    else
      var data' := data.(lastVotedRound := Max(data.lastVotedRound, round));
      if env.signature.None? then (Err(SigningFailed), data') else (Ok(env.signature.value), data')
  }

  function TimeoutTwoChain(s: SafetyState, timeout: TwoChainTimeout, tc: Option<TwoChainTimeoutCertificate>, env: Env)
    : (Result<Signature, SafetyError>, SafetyData)
  {
    if s.signer.None? then (Err(NotInitialized), s.data)
    else if timeout.epoch != s.data.epoch then (Err(IncorrectEpoch(timeout.epoch, s.data.epoch)), s.data)
    else if s.epochState.None? then (Err(NotInitialized), s.data)
    else if !TwoChainTimeoutVerify(s.epochState.value.verifier, timeout) then (Err(InvalidTimeout), s.data)
    else if tc.Some? && !TwoChainTcVerify(s.epochState.value.verifier, tc.value) then (Err(InvalidTimeoutCertificate), s.data)
    else
      var safe := SafeToTimeout(timeout, tc, s.data);
      if safe.Err? then (Err(safe.error), s.data)
      else if timeout.round < s.data.lastVotedRound
      then (Err(IncorrectLastVotedRound(timeout.round, s.data.lastVotedRound)), s.data)
      else StoreAndSign(s.data, timeout.round, env)
  }

  function TimeoutThreeChain(s: SafetyState, timeout: Timeout, env: Env): (Result<Signature, SafetyError>, SafetyData) {
    if s.signer.None? then (Err(NotInitialized), s.data)
    else if timeout.epoch != s.data.epoch then (Err(IncorrectEpoch(timeout.epoch, s.data.epoch)), s.data)
    else if timeout.round <= s.data.preferredRound
    then (Err(IncorrectPreferredRound(timeout.round, s.data.preferredRound)), s.data)
    else if timeout.round < s.data.lastVotedRound
    then (Err(IncorrectLastVotedRound(timeout.round, s.data.lastVotedRound)), s.data)
    else StoreAndSign(s.data, timeout.round, env)
  }

  // ----- initialisation --------------------------------------------------

  /** The signing key is kept if it is the expected one, and looked up otherwise. */
  function ReconcileKey(s: SafetyState, es: EpochState, keyAvailable: bool): (Result<(), SafetyError>, Option<PublicKey>) {
    if s.author !in es.verifier.infos then (Err(ValidatorNotInSet), None)
    else
      var expected := es.verifier.infos[s.author].publicKey;
      if s.signer == Some(expected) || keyAvailable then (Ok(()), Some(expected)) else (Err(ValidatorKeyNotFound), None)
  }

  function Initialize(s: SafetyState, proof: EpochChangeProof, env: InitEnv): (Result<(), SafetyError>, SafetyState) {
    match VerifyProof(ByWaypoint(s.waypoint), proof.ledgerInfos)
    case Err(_) => (Err(InvalidEpochChangeProof), s)
    case Ok(last) =>
      if !last.ledgerInfo.EndsEpoch() then (Err(InvalidLedgerInfo), s)
      else
        var es := last.ledgerInfo.commitInfo.nextEpochState.value;
        var updated := NewAny(last.ledgerInfo);
        if updated.version > s.waypoint.version && !env.waypointStored then (Err(StorageFailed), s)
        else InitializeEpoch(s, if updated.version > s.waypoint.version then s.(waypoint := updated) else s, es, updated, env)
  }

  /** The part after the waypoint: a new epoch starts on fresh safety data. */
  function InitializeEpoch(s: SafetyState, s': SafetyState, es: EpochState, updated: Waypoint, env: InitEnv): (Result<(), SafetyError>, SafetyState) {
    if s.data.epoch > es.epoch then
      (Err(WaypointOutOfDate(s.waypoint.version, updated.version, s.data.epoch, es.epoch)), s')
    else if s.data.epoch < es.epoch && !env.dataStored then (Err(StorageFailed), s')
    else
      var data := if s.data.epoch < es.epoch then SafetyData(es.epoch, 0, 0, 0, None) else s.data;
      var (result, signer) := ReconcileKey(s, es, env.keyAvailable);
      (result, s'.(data := data, epochState := Some(es), signer := signer))
  }

  // ----- the object ------------------------------------------------------

  /** The state of a call that returned `r` and would persist `r`'s data on success only. */
  function Persisted(s: SafetyState, r: Result<(Vote, SafetyData), SafetyError>): SafetyState {
    if r.Ok? then s.(data := r.value.1) else s
  }

  function VoteOf(r: Result<(Vote, SafetyData), SafetyError>): Result<Vote, SafetyError> {
    if r.Ok? then Ok(r.value.0) else Err(r.error)
  }

  class SafetyRules {
    const author: Address
    const executionKey: Option<PublicKey>
    var data: SafetyData
    var waypoint: Waypoint
    var signer: Option<PublicKey>
    var epochState: Option<EpochState>

    function State(): SafetyState
      reads this
    {
      SafetyState(author, data, waypoint, signer, epochState, executionKey)
    }

    /** Starts on what the secure storage holds; neither a signer nor a validator set is known yet. */
    constructor (author: Address, data: SafetyData, waypoint: Waypoint, executionKey: Option<PublicKey>)
      ensures State() == SafetyState(author, data, waypoint, None, None, executionKey)
    {
      this.author := author;
      this.executionKey := executionKey;
      this.data := data;
      this.waypoint := waypoint;
      signer := None;
      epochState := None;
    }

    method ConstructAndSignVoteTwoChain(p: VoteProposal, tc: Option<TwoChainTimeoutCertificate>, env: Env)
      returns (r: Result<Vote, SafetyError>)
      modifies this`data
      ensures r == VoteOf(VoteTwoChain(old(State()), p, tc, env))
      ensures State() == Persisted(old(State()), VoteTwoChain(old(State()), p, tc, env))
    {
      if signer.None? {
        return Err(NotInitialized);
      }
      var verified := VerifyProposal(State(), p, env.now);
      if verified.Err? {
        return Err(verified.error);
      }
      if tc.Some? && !TwoChainTcVerify(epochState.value.verifier, tc.value) {
        return Err(InvalidTimeoutCertificate);
      }
      // A round is voted on once; the same vote is repeated.
      if VotedAlready(data, p.block) {
        return Ok(data.lastVote.value);
      }
      // First voting rule.
      if p.block.data.round <= data.lastVotedRound {
        return Err(IncorrectLastVotedRound(p.block.data.round, data.lastVotedRound));
      }
      var safetyData := data.(lastVotedRound := p.block.data.round);
      // Second voting rule.
      var safe := SafeToVote(p.block, tc);
      if safe.Err? {
        return Err(safe.error);
      }
      safetyData := ObserveQc(p.block.data.quorumCert, safetyData);
      var li := LedgerInfo2Chain(p.block, VoteDataHash(verified.value));
      if li.Err? {
        return Err(li.error);
      }
      if env.signature.None? {
        return Err(SigningFailed);
      }
      var vote := Vote(verified.value, author, li.value, env.signature.value, None, None);
      safetyData := safetyData.(lastVote := Some(vote));
      if !env.stored {
        return Err(StorageFailed);
      }
      data := safetyData;
      return Ok(vote);
    }

    method ConstructAndSignVote(p: VoteProposal, env: Env) returns (r: Result<Vote, SafetyError>)
      modifies this`data
      ensures r == VoteOf(VoteThreeChain(old(State()), p, env))
      ensures State() == Persisted(old(State()), VoteThreeChain(old(State()), p, env))
    {
      if signer.None? {
        return Err(NotInitialized);
      }
      var verified := VerifyProposal(State(), p, env.now);
      if verified.Err? {
        return Err(verified.error);
      }
      if VotedAlready(data, p.block) {
        return Ok(data.lastVote.value);
      }
      var qc := p.block.data.quorumCert;
      if qc.CertifiedBlock().round < data.preferredRound {
        return Err(IncorrectPreferredRound(qc.CertifiedBlock().round, data.preferredRound));
      }
      var safetyData := ObserveQc(qc, data);
      if p.block.data.round <= data.lastVotedRound {
        return Err(IncorrectLastVotedRound(p.block.data.round, data.lastVotedRound));
      }
      safetyData := safetyData.(lastVotedRound := p.block.data.round);
      var li := LedgerInfo3Chain(p.block, VoteDataHash(verified.value));
      if li.Err? {
        return Err(li.error);
      }
      if env.signature.None? {
        return Err(SigningFailed);
      }
      var vote := Vote(verified.value, author, li.value, env.signature.value, None, None);
      if !env.stored {
        return Err(StorageFailed);
      }
      data := safetyData.(lastVote := Some(vote));
      return Ok(vote);
    }

    method SignTimeoutWithQc(timeout: TwoChainTimeout, tc: Option<TwoChainTimeoutCertificate>, env: Env)
      returns (r: Result<Signature, SafetyError>)
      modifies this`data
      ensures (r, data) == TimeoutTwoChain(old(State()), timeout, tc, env)
    {
      if signer.None? {
        return Err(NotInitialized);
      }
      if timeout.epoch != data.epoch {
        return Err(IncorrectEpoch(timeout.epoch, data.epoch));
      }
      if epochState.None? {
        return Err(NotInitialized);
      }
      if !TwoChainTimeoutVerify(epochState.value.verifier, timeout) {
        return Err(InvalidTimeout);
      }
      if tc.Some? && !TwoChainTcVerify(epochState.value.verifier, tc.value) {
        return Err(InvalidTimeoutCertificate);
      }
      var safe := SafeToTimeout(timeout, tc, data);
      if safe.Err? {
        return Err(safe.error);
      }
      if timeout.round < data.lastVotedRound {
        return Err(IncorrectLastVotedRound(timeout.round, data.lastVotedRound));
      }
      if timeout.round > data.lastVotedRound {
        if !env.stored {
          return Err(StorageFailed);
        }
        data := data.(lastVotedRound := timeout.round);
      }
      return if env.signature.Some? then Ok(env.signature.value) else Err(SigningFailed);
    }

    method SignTimeout(timeout: Timeout, env: Env) returns (r: Result<Signature, SafetyError>)
      modifies this`data
      ensures (r, data) == TimeoutThreeChain(old(State()), timeout, env)
    {
      if signer.None? {
        return Err(NotInitialized);
      }
      if timeout.epoch != data.epoch {
        return Err(IncorrectEpoch(timeout.epoch, data.epoch));
      }
      if timeout.round <= data.preferredRound {
        return Err(IncorrectPreferredRound(timeout.round, data.preferredRound));
      }
      if timeout.round < data.lastVotedRound {
        return Err(IncorrectLastVotedRound(timeout.round, data.lastVotedRound));
      }
      if timeout.round > data.lastVotedRound {
        if !env.stored {
          return Err(StorageFailed);
        }
        data := data.(lastVotedRound := timeout.round);
      }
      return if env.signature.Some? then Ok(env.signature.value) else Err(SigningFailed);
    }

    method InitializeFrom(proof: EpochChangeProof, env: InitEnv) returns (r: Result<(), SafetyError>)
      modifies this
      ensures (r, State()) == Initialize(old(State()), proof, env)
    {
      var previous := waypoint;
      var verified := VerifyEpochChanges(ByWaypoint(previous), proof);
      if verified.Err? {
        return Err(InvalidEpochChangeProof);
      }
      var li := verified.value.ledgerInfo;
      if !li.EndsEpoch() {
        return Err(InvalidLedgerInfo);
      }
      var es := li.commitInfo.nextEpochState.value;
      var updated := NewAny(li);
      if updated.version > previous.version {
        if !env.waypointStored {
          return Err(StorageFailed);
        }
        waypoint := updated;
      }
      if data.epoch > es.epoch {
        return Err(WaypointOutOfDate(previous.version, updated.version, data.epoch, es.epoch));
      } else if data.epoch < es.epoch {
        if !env.dataStored {
          return Err(StorageFailed);
        }
        data := SafetyData(es.epoch, 0, 0, 0, None);
      }
      epochState := Some(es);
      if author !in es.verifier.infos {
        signer := None;
        return Err(ValidatorNotInSet);
      }
      var expected := es.verifier.infos[author].publicKey;
      if signer != Some(expected) && !env.keyAvailable {
        signer := None;
        return Err(ValidatorKeyNotFound);
      }
      signer := Some(expected);
      return Ok(());
    }
  }
}
