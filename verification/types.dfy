/**
  The values that consensus and its clients exchange: validator sets, block
  and ledger infos, votes, certificates, blocks.  Field for field these are
  the records of types/src and consensus/consensus-types/src.

  Cryptography is left uninterpreted.  A `const` without a value is an
  arbitrary total function: nothing is known about it beyond what a member
  states in its `requires` clause (collision resistance, soundness of batch
  verification).
 */
module Types {

  const U64_MAX: int := 0xFFFF_FFFF_FFFF_FFFF

  type U64 = x: int | 0 <= x <= U64_MAX

  /** Unchecked arithmetic of an optimised build. */
  function Wrap(x: nat): U64 {
    x % (U64_MAX + 1)
  }

  type Address = nat
  type PublicKey = nat
  type Signature = nat
  type HashValue = nat

  datatype Option<+T> = None | Some(value: T)

  datatype Result<+T, +E> = Ok(value: T) | Err(error: E) {
    predicate IsFailure() {
      Err?
    }

    function PropagateFailure<U>(): Result<U, E>
      requires Err?
    {
      Err(error)
    }

    function Extract(): T
      requires Ok?
    {
      value
    }
  }

  // ----- validator sets ------------------------------------------------

  datatype ValidatorConsensusInfo = ValidatorConsensusInfo(publicKey: PublicKey, votingPower: U64)

  datatype ValidatorVerifier = ValidatorVerifier(
    infos: map<Address, ValidatorConsensusInfo>,
    quorumVotingPower: U64,
    totalVotingPower: U64)

  datatype EpochState = EpochState(epoch: U64, verifier: ValidatorVerifier)

  // ----- ledger infos --------------------------------------------------

  datatype BlockInfo = BlockInfo(
    epoch: U64,
    round: U64,
    id: HashValue,
    executedStateId: HashValue,
    version: U64,
    timestampUsecs: U64,
    nextEpochState: Option<EpochState>)
  {
    predicate HasReconfiguration() {
      nextEpochState.Some?
    }

    function NextBlockEpoch(): U64 {
      if nextEpochState.Some? then nextEpochState.value.epoch else epoch
    }
  }

  const ZERO_HASH: HashValue := 0

  const ACCUMULATOR_PLACEHOLDER_HASH: HashValue

  /** The commit info of a ledger info that commits nothing. */
  const EMPTY_BLOCK_INFO: BlockInfo := BlockInfo(0, 0, ZERO_HASH, ZERO_HASH, 0, 0, None)

  datatype LedgerInfo = LedgerInfo(commitInfo: BlockInfo, consensusDataHash: HashValue) {
    predicate EndsEpoch() {
      commitInfo.nextEpochState.Some?
    }
  }

  datatype LedgerInfoWithSignatures = LedgerInfoWithSignatures(
    ledgerInfo: LedgerInfo,
    signatures: map<Address, Signature>)

  /** The fields of a ledger info that a waypoint commits to. */
  datatype Ledger2Waypoint = Ledger2Waypoint(
    epoch: U64,
    rootHash: HashValue,
    version: U64,
    timestampUsecs: U64,
    nextEpochState: Option<EpochState>)

  // ----- votes and certificates ----------------------------------------

  datatype VoteData = VoteData(proposed: BlockInfo, parent: BlockInfo)

  datatype QuorumCert = QuorumCert(voteData: VoteData, signedLedgerInfo: LedgerInfoWithSignatures) {
    function CertifiedBlock(): BlockInfo {
      voteData.proposed
    }

    function ParentBlock(): BlockInfo {
      voteData.parent
    }

    function CommitInfo(): BlockInfo {
      signedLedgerInfo.ledgerInfo.commitInfo
    }
  }

  datatype Timeout = Timeout(epoch: U64, round: U64)

  datatype TimeoutCertificate = TimeoutCertificate(timeout: Timeout, signatures: map<Address, Signature>)

  datatype TwoChainTimeout = TwoChainTimeout(epoch: U64, round: U64, quorumCert: QuorumCert) {
    function HqcRound(): U64 {
      quorumCert.CertifiedBlock().round
    }

    function SigningFormat(): TimeoutSigningRepr {
      TimeoutSigningRepr(epoch, round, HqcRound())
    }
  }

  datatype TimeoutSigningRepr = TimeoutSigningRepr(epoch: U64, round: U64, hqcRound: U64)

  datatype TwoChainTimeoutCertificate = TwoChainTimeoutCertificate(
    timeout: TwoChainTimeout,
    signatures: map<Address, (U64, Signature)>)

  datatype Vote = Vote(
    voteData: VoteData,
    author: Address,
    ledgerInfo: LedgerInfo,
    signature: Signature,
    timeoutSignature: Option<Signature>,
    twoChainTimeout: Option<(TwoChainTimeout, Signature)>)
  {
    predicate IsTimeout() {
      timeoutSignature.Some? || twoChainTimeout.Some?
    }

    function Epoch(): U64 {
      voteData.proposed.epoch
    }

    function Round(): U64 {
      voteData.proposed.round
    }

    function GenerateTimeout(): Timeout {
      Timeout(Epoch(), Round())
    }
  }

  // ----- blocks --------------------------------------------------------

  type Payload = seq<nat>

  datatype BlockType = Proposal(payload: Payload, author: Address) | NilBlock | Genesis

  datatype BlockData = BlockData(
    epoch: U64,
    round: U64,
    timestampUsecs: U64,
    quorumCert: QuorumCert,
    blockType: BlockType)

  datatype Block = Block(id: HashValue, data: BlockData, signature: Option<Signature>) {
    function ParentId(): HashValue {
      data.quorumCert.CertifiedBlock().id
    }
  }

  // ----- cryptography --------------------------------------------------

  /** What a validator puts its signature on; each kind is hashed in a domain of its own. */
  datatype Message =
    | LedgerInfoMessage(ledgerInfo: LedgerInfo)
    | TimeoutMessage(timeout: Timeout)
    | TwoChainTimeoutMessage(repr: TimeoutSigningRepr)
    | BlockMessage(data: BlockData)

  const SignatureVerifies: (PublicKey, Message, Signature) -> bool

  const BatchVerifies: (Message, seq<(PublicKey, Signature)>) -> bool

  const LedgerInfoHash: LedgerInfo -> HashValue

  const VoteDataHash: VoteData -> HashValue

  const BlockHash: BlockData -> HashValue

  const WaypointHash: Ledger2Waypoint -> HashValue

  ghost predicate LedgerInfoHashInjective() {
    forall x, y :: LedgerInfoHash(x) == LedgerInfoHash(y) ==> x == y
  }

  ghost predicate VoteDataHashInjective() {
    forall x, y :: VoteDataHash(x) == VoteDataHash(y) ==> x == y
  }

  ghost predicate WaypointHashInjective() {
    forall x, y :: WaypointHash(x) == WaypointHash(y) ==> x == y
  }

  /** A batch that verifies contains only valid signatures. */
  ghost predicate BatchSound() {
    forall m: Message, batch: seq<(PublicKey, Signature)>, i: int ::
      BatchVerifies(m, batch) && 0 <= i < |batch| ==> SignatureVerifies(batch[i].0, m, batch[i].1)
  }
}
