/**
  consensus/src/metrics_safety_rules.rs: initialising the safety rules from a
  storage that hands out epoch changes in limited portions, and retrying calls
  that failed for want of it.
 */
module SafetyInitialization {
  import opened Types
  import opened EpochChanges
  import opened SafetyRulesModel

  /** The epoch changes the storage gives out for a version, if any. */
  type EpochChangeStorage = U64 -> Option<EpochChangeProof>

  /**
    What the secure storage does in each turn of the loop.  The turns have
    different waypoint versions, so these name them.
   */
  type Outcomes = U64 -> InitEnv

  datatype InitError = StorageUnavailable | SafetyRulesError(error: SafetyError)

  /** An out-of-date answer that nevertheless moved the waypoint forward. */
  predicate MadeProgress(r: Result<(), SafetyError>) {
    r.Err? && r.error.WaypointOutOfDate? && r.error.previous < r.error.updated
  }

  /** The contract of `initialize` that the loop lives on: progress is a strictly higher stored waypoint. */
  lemma ProgressRaisesWaypoint(s: SafetyState, proof: EpochChangeProof, env: InitEnv)
    ensures var (r, s') := Initialize(s, proof, env);
            && s.waypoint.version <= s'.waypoint.version
            && s.data.epoch <= s'.data.epoch
            && s.author == s'.author
            && (MadeProgress(r) ==> s.waypoint.version < s'.waypoint.version == r.error.updated && s'.data == s.data)
            && (r.Ok? ==> s'.epochState.Some? && s'.epochState.value.epoch == s'.data.epoch && s'.signer.Some?)
  {
  }

  /**
    What one call leaves behind when the storage takes all writes and the proof
    leads to an epoch not behind the validator's: the newer waypoint, the set
    brought in, fresh safety data for a new epoch and the old ones otherwise,
    and the key that the set expects, if it is to be had.
   */
  lemma InitializeOutcome(s: SafetyState, proof: EpochChangeProof, env: InitEnv, last: LedgerInfoWithSignatures, es: EpochState)
    requires VerifyProof(ByWaypoint(s.waypoint), proof.ledgerInfos) == Ok(last) && last.ledgerInfo.commitInfo.nextEpochState == Some(es)
    requires s.data.epoch <= es.epoch && env.waypointStored && env.dataStored
    ensures var (r, s') := Initialize(s, proof, env);
            && s'.waypoint == (if last.ledgerInfo.commitInfo.version > s.waypoint.version then NewAny(last.ledgerInfo) else s.waypoint)
            && s'.epochState == Some(es) && s'.author == s.author && s'.executionKey == s.executionKey
            && s'.data.epoch == es.epoch
            && (s.data.epoch == es.epoch ==> s'.data == s.data)
            && (s.data.epoch < es.epoch ==>
                  s'.data.lastVotedRound == s'.data.preferredRound == s'.data.oneChainRound == 0 && s'.data.lastVote.None?)
            && (r == Err(ValidatorNotInSet) <==> s.author !in es.verifier.infos)
            && (r == Err(ValidatorKeyNotFound) <==>
                  s.author in es.verifier.infos && s.signer != Some(es.verifier.infos[s.author].publicKey) && !env.keyAvailable)
            && (if r.Ok? then s'.signer == Some(es.verifier.infos[s.author].publicKey) else s'.signer.None?)
            && (r.Ok? || r.error == ValidatorNotInSet || r.error == ValidatorKeyNotFound)
  {
  }

  function PerformInitialize(s: SafetyState, storage: EpochChangeStorage, outcomes: Outcomes): (Result<(), InitError>, SafetyState)
    decreases U64_MAX - s.waypoint.version
  {
    match storage(s.waypoint.version)
    case None => (Err(StorageUnavailable), s)
    case Some(proof) =>
      var (r, s') := Initialize(s, proof, outcomes(s.waypoint.version));
      ProgressRaisesWaypoint(s, proof, outcomes(s.waypoint.version));
      if MadeProgress(r) then PerformInitialize(s', storage, outcomes)
      else (if r.Ok? then Ok(()) else Err(SafetyRulesError(r.error)), s')
  }

  /** The loop of `perform_initialize`; it ends whatever the storage answers. */
  method PerformInitializeLoop(rules: SafetyRules, storage: EpochChangeStorage, outcomes: Outcomes) returns (r: Result<(), InitError>)
    modifies rules
    ensures (r, rules.State()) == PerformInitialize(old(rules.State()), storage, outcomes)
  {
    var waypointVersion := rules.waypoint.version;
    while true
      invariant waypointVersion == rules.waypoint.version
      invariant PerformInitialize(rules.State(), storage, outcomes) == PerformInitialize(old(rules.State()), storage, outcomes)
      decreases U64_MAX - rules.waypoint.version
    {
      var proof := storage(waypointVersion);
      if proof.None? {
        return Err(StorageUnavailable);
      }
      ghost var before := rules.State();
      var result := rules.InitializeFrom(proof.value, outcomes(waypointVersion));
      ProgressRaisesWaypoint(before, proof.value, outcomes(waypointVersion));
      if MadeProgress(result) {
        waypointVersion := result.error.updated;
      } else {
        return if result.Ok? then Ok(()) else Err(SafetyRulesError(result.error));
      }
    }
  }

  /** Success means: a validator set of the safety data's own epoch, a signing key, and nothing moved backwards. */
  lemma {:induction false} InitializedOk(s: SafetyState, storage: EpochChangeStorage, outcomes: Outcomes)
    ensures var (r, s') := PerformInitialize(s, storage, outcomes);
            && s.waypoint.version <= s'.waypoint.version && s.data.epoch <= s'.data.epoch
            && (r.Ok? ==> s'.epochState.Some? && s'.epochState.value.epoch == s'.data.epoch && s'.signer.Some?)
            && (r.Err? && r.error.SafetyRulesError? && r.error.error.WaypointOutOfDate? ==>
                  r.error.error.previous >= r.error.error.updated)
    decreases U64_MAX - s.waypoint.version
  {
    if storage(s.waypoint.version).Some? {
      var proof := storage(s.waypoint.version).value;
      var (r, s') := Initialize(s, proof, outcomes(s.waypoint.version));
      ProgressRaisesWaypoint(s, proof, outcomes(s.waypoint.version));
      if MadeProgress(r) {
        InitializedOk(s', storage, outcomes);
      }
    }
  }

  // ----- an honest storage is enough ---------------------------------------

  /** For a waypoint of the history the storage gives a portion that contains it and, if there is more, goes past it. */
  ghost predicate Serves(storage: EpochChangeStorage, h: seq<LedgerInfoWithSignatures>) {
    forall c :: 0 <= c < |h| ==> ServesAt(storage, h, c)
  }

  ghost predicate ServesAt(storage: EpochChangeStorage, h: seq<LedgerInfoWithSignatures>, c: nat)
    requires c < |h|
  {
    exists a, b, more {:trigger EpochChangeProof(h[a..b], more)} ::
      && 0 <= a <= c < b <= |h|
      && (c + 1 < |h| ==> c + 1 < b)
      && storage(h[c].ledgerInfo.commitInfo.version) == Some(EpochChangeProof(h[a..b], more))
  }

  /** One call on a portion of the history, from a waypoint inside it. */
  lemma InitializeOnPortion(s: SafetyState, env: InitEnv, h: seq<LedgerInfoWithSignatures>, a: nat, c: nat, b: nat, more: bool)
    requires EpochHistory(h) && a <= c < b <= |h|
    requires s.waypoint == NewAny(h[c].ledgerInfo) && env.waypointStored && env.dataStored
    ensures var (r, s') := Initialize(s, EpochChangeProof(h[a..b], more), env);
            if s.data.epoch > h[b - 1].ledgerInfo.commitInfo.nextEpochState.value.epoch then
              && r.Err? && r.error.WaypointOutOfDate?
              && r.error.previous == s.waypoint.version && r.error.updated == h[b - 1].ledgerInfo.commitInfo.version
              && s'.data == s.data && (c < b - 1 ==> s'.waypoint == NewAny(h[b - 1].ledgerInfo))
            else r.Ok? || r.error == ValidatorNotInSet || r.error == ValidatorKeyNotFound
  {
    HistorySliceVerifies(ByWaypoint(s.waypoint), h, a, c, b);
    assert h[b - 1].ledgerInfo.EndsEpoch();
    if c < b - 1 {
      assert h[c].ledgerInfo.commitInfo.version < h[b - 1].ledgerInfo.commitInfo.version;
    }
  }

  lemma ServedPortion(storage: EpochChangeStorage, h: seq<LedgerInfoWithSignatures>, c: nat) returns (a: nat, b: nat, more: bool)
    requires c < |h| && Serves(storage, h)
    ensures a <= c < b <= |h| && (c + 1 < |h| ==> c + 1 < b)
    ensures storage(h[c].ledgerInfo.commitInfo.version) == Some(EpochChangeProof(h[a..b], more))
  {
    assert ServesAt(storage, h, c);
    a, b, more :|
      && 0 <= a <= c < b <= |h|
      && (c + 1 < |h| ==> c + 1 < b)
      && storage(h[c].ledgerInfo.commitInfo.version) == Some(EpochChangeProof(h[a..b], more));
  }

  /**
    With a storage that serves a true history reaching the validator's own
    epoch, in portions of any size, and takes what is written, initialisation
    gets there: all that can still fail is the validator's membership or its
    key.
   */
  lemma {:induction false} HonestStorageSuffices(s: SafetyState, storage: EpochChangeStorage, outcomes: Outcomes,
                                                 h: seq<LedgerInfoWithSignatures>, c: nat)
    requires EpochHistory(h) && c < |h| && Serves(storage, h)
    requires s.waypoint == NewAny(h[c].ledgerInfo)
    requires s.data.epoch <= Last(h).ledgerInfo.commitInfo.nextEpochState.value.epoch
    requires forall version :: outcomes(version).waypointStored && outcomes(version).dataStored
    ensures var r := PerformInitialize(s, storage, outcomes).0;
            r.Ok? || r.error == SafetyRulesError(ValidatorNotInSet) || r.error == SafetyRulesError(ValidatorKeyNotFound)
    decreases |h| - c
  {
    var a, b, more := ServedPortion(storage, h, c);
    var env := outcomes(s.waypoint.version);
    InitializeOnPortion(s, env, h, a, c, b, more);
    if s.data.epoch > h[b - 1].ledgerInfo.commitInfo.nextEpochState.value.epoch {
      var s' := Initialize(s, EpochChangeProof(h[a..b], more), env).1;
      assert h[c].ledgerInfo.commitInfo.version < h[b - 1].ledgerInfo.commitInfo.version;
      HonestStorageSuffices(s', storage, outcomes, h, b - 1);
    }
  }

  // ----- retrying --------------------------------------------------------

  /** The calls that vote and time out. */
  datatype Call =
    | CallVoteTwoChain(proposal: VoteProposal, tc: Option<TwoChainTimeoutCertificate>, env: Env)
    | CallVote(proposal: VoteProposal, env: Env)
    | CallTimeoutWithQc(timeout2: TwoChainTimeout, tc: Option<TwoChainTimeoutCertificate>, env: Env)
    | CallTimeout(timeout: Timeout, env: Env)
  {
    function Epoch(): U64 {
      match this
      case CallVoteTwoChain(p, _, _) => p.block.data.epoch
      case CallVote(p, _) => p.block.data.epoch
      case CallTimeoutWithQc(t, _, _) => t.epoch
      case CallTimeout(t, _) => t.epoch
    }
  }

  datatype Reply = VoteReply(vote: Vote) | SignatureReply(signature: Signature)

  function ReplyVote(r: Result<Vote, SafetyError>): Result<Reply, SafetyError> {
    if r.Ok? then Ok(VoteReply(r.value)) else Err(r.error)
  }

  function ReplySignature(r: Result<Signature, SafetyError>): Result<Reply, SafetyError> {
    if r.Ok? then Ok(SignatureReply(r.value)) else Err(r.error)
  }

  function Perform(s: SafetyState, call: Call): (Result<Reply, SafetyError>, SafetyState) {
    match call
    case CallVoteTwoChain(p, tc, env) =>
      (ReplyVote(VoteOf(VoteTwoChain(s, p, tc, env))), Persisted(s, VoteTwoChain(s, p, tc, env)))
    case CallVote(p, env) =>
      (ReplyVote(VoteOf(VoteThreeChain(s, p, env))), Persisted(s, VoteThreeChain(s, p, env)))
    case CallTimeoutWithQc(t, tc, env) =>
      (ReplySignature(TimeoutTwoChain(s, t, tc, env).0), s.(data := TimeoutTwoChain(s, t, tc, env).1))
    case CallTimeout(t, env) =>
      (ReplySignature(TimeoutThreeChain(s, t, env).0), s.(data := TimeoutThreeChain(s, t, env).1))
  }

  method PerformOn(rules: SafetyRules, call: Call) returns (r: Result<Reply, SafetyError>)
    modifies rules
    ensures (r, rules.State()) == Perform(old(rules.State()), call)
  {
    match call {
      case CallVoteTwoChain(p, tc, env) =>
        var vote := rules.ConstructAndSignVoteTwoChain(p, tc, env);
        r := ReplyVote(vote);
      case CallVote(p, env) =>
        var vote := rules.ConstructAndSignVote(p, env);
        r := ReplyVote(vote);
      case CallTimeoutWithQc(t, tc, env) =>
        var signature := rules.SignTimeoutWithQc(t, tc, env);
        r := ReplySignature(signature);
      case CallTimeout(t, env) =>
        var signature := rules.SignTimeout(t, env);
        r := ReplySignature(signature);
    }
  }

  predicate NeedsInitialization(e: SafetyError) {
    e.NotInitialized? || e.IncorrectEpoch? || e.WaypointOutOfDate?
  }

  function Lift(r: Result<Reply, SafetyError>): Result<Reply, InitError> {
    if r.Ok? then Ok(r.value) else Err(SafetyRulesError(r.error))
  }

  /** A call through `retry`: it is made again only after a successful initialisation, and only once. */
  function Retry(s: SafetyState, storage: EpochChangeStorage, outcomes: Outcomes, call: Call): (Result<Reply, InitError>, SafetyState) {
    var (first, s1) := Perform(s, call);
    if first.Err? && NeedsInitialization(first.error) then
      var (init, s2) := PerformInitialize(s1, storage, outcomes);
      if init.Err? then (Err(init.error), s2)
      else
        var (second, s3) := Perform(s2, call);
        (Lift(second), s3)
    else (Lift(first), s1)
  }

  method RetryOn(rules: SafetyRules, storage: EpochChangeStorage, outcomes: Outcomes, call: Call) returns (r: Result<Reply, InitError>)
    modifies rules
    ensures (r, rules.State()) == Retry(old(rules.State()), storage, outcomes, call)
  {
    var first := PerformOn(rules, call);
    if first.Ok? {
      return Ok(first.value);
    }
    if !NeedsInitialization(first.error) {
      return Err(SafetyRulesError(first.error));
    }
    var init := PerformInitializeLoop(rules, storage, outcomes);
    if init.Err? {
      return Err(init.error);
    }
    var second := PerformOn(rules, call);
    return Lift(second);
  }

  /** The error asks for initialisation, but only because the epochs differ. */
  predicate ForeignEpoch(e: SafetyError, epoch: U64, current: U64) {
    NeedsInitialization(e) ==> e == IncorrectEpoch(epoch, current) && epoch != current
  }

  lemma ProposalRefusals(s: SafetyState, p: VoteProposal, now: U64)
    requires s.epochState.Some?
    ensures var r := VerifyProposal(s, p, now); r.Err? ==> ForeignEpoch(r.error, p.block.data.epoch, s.data.epoch)
  {
  }

  lemma TwoChainRefusals(s: SafetyState, p: VoteProposal, tc: Option<TwoChainTimeoutCertificate>, env: Env)
    requires s.signer.Some? && s.epochState.Some?
    ensures var r := VoteTwoChain(s, p, tc, env); r.Err? ==> ForeignEpoch(r.error, p.block.data.epoch, s.data.epoch)
  {
    ProposalRefusals(s, p, env.now);
  }

  lemma ThreeChainRefusals(s: SafetyState, p: VoteProposal, env: Env)
    requires s.signer.Some? && s.epochState.Some?
    ensures var r := VoteThreeChain(s, p, env); r.Err? ==> ForeignEpoch(r.error, p.block.data.epoch, s.data.epoch)
  {
    ProposalRefusals(s, p, env.now);
  }

  /** Once initialised, a call asks for initialisation only if it is for another epoch. */
  lemma InitializedRefusals(s: SafetyState, call: Call)
    requires s.signer.Some? && s.epochState.Some?
    ensures var r := Perform(s, call).0;
            r.Err? && NeedsInitialization(r.error) ==>
              r.error == IncorrectEpoch(call.Epoch(), s.data.epoch) && call.Epoch() != s.data.epoch
  {
    match call {
      case CallVoteTwoChain(p, tc, env) => TwoChainRefusals(s, p, tc, env);
      case CallVote(p, env) => ThreeChainRefusals(s, p, env);
      case _ =>
    }
  }

  /** A refusal for want of initialisation leaves the state alone, so the initialisation starts from where the call did. */
  lemma RefusalChangesNothing(s: SafetyState, call: Call)
    ensures var (r, s') := Perform(s, call); r.Err? && NeedsInitialization(r.error) ==> s' == s
  {
  }

  /** One retry is enough: what is still refused afterwards is refused for another reason, or for a foreign epoch. */
  lemma RetryIsEffective(s: SafetyState, storage: EpochChangeStorage, outcomes: Outcomes, call: Call)
    requires PerformInitialize(s, storage, outcomes).0.Ok?
    ensures var (r, s') := Retry(s, storage, outcomes, call);
            r.Err? && r.error.SafetyRulesError? && NeedsInitialization(r.error.error) ==>
              r.error.error == IncorrectEpoch(call.Epoch(), s'.data.epoch) && call.Epoch() != s'.data.epoch
  {
    RefusalChangesNothing(s, call);
    InitializedOk(s, storage, outcomes);
    InitializedRefusals(PerformInitialize(s, storage, outcomes).1, call);
    RefusalChangesNothing(PerformInitialize(s, storage, outcomes).1, call);
  }

  /** A validator without its key is initialised first and then does what an initialised one does; the call as such is never lost. */
  lemma RetryInitializes(s: SafetyState, storage: EpochChangeStorage, outcomes: Outcomes, call: Call)
    requires s.signer.None?
    ensures var (init, s') := PerformInitialize(s, storage, outcomes);
            Retry(s, storage, outcomes, call) ==
              if init.Err? then (Err(init.error), s') else (Lift(Perform(s', call).0), Perform(s', call).1)
  {
    RefusalChangesNothing(s, call);
  }

  /** One that is in the call's epoch is not initialised again, whatever the call answers. */
  lemma RetryLeavesAlone(s: SafetyState, storage: EpochChangeStorage, outcomes: Outcomes, call: Call)
    requires s.signer.Some? && s.epochState.Some? && call.Epoch() == s.data.epoch
    ensures Retry(s, storage, outcomes, call) == (Lift(Perform(s, call).0), Perform(s, call).1)
  {
    InitializedRefusals(s, call);
  }

  /** And one that is asked for a timeout of another epoch than its own is initialised and asked again. */
  lemma RetryFollowsEpoch(s: SafetyState, storage: EpochChangeStorage, outcomes: Outcomes, call: Call)
    requires s.signer.Some? && call.Epoch() != s.data.epoch && (call.CallTimeout? || call.CallTimeoutWithQc?)
    ensures var (init, s') := PerformInitialize(s, storage, outcomes);
            Retry(s, storage, outcomes, call) ==
              if init.Err? then (Err(init.error), s') else (Lift(Perform(s', call).0), Perform(s', call).1)
  {
    RefusalChangesNothing(s, call);
  }
}
