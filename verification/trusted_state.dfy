/**
  types/src/trusted_state.rs: the light client's trusted state and the
  ratchet that moves it forward on a state proof from an untrusted server.
 */
module TrustedStates {
  import opened Types
  import opened EpochChanges
  import opened Accumulators

  datatype TrustedState =
    | AtWaypoint(waypoint: Waypoint)
    | InEpoch(waypoint: Waypoint, epochState: EpochState, accumulator: Accumulator)
  {
    function AsVerifier(): Verifier {
      if AtWaypoint? then ByWaypoint(waypoint) else ByEpoch(epochState)
    }
  }

  datatype TrustedStateChange =
    | VersionChange(newState: TrustedState)
    | EpochChange(newState: TrustedState, latestEpochChangeLi: LedgerInfoWithSignatures)
    | NoChange

  datatype RatchetError =
    | StaleTarget
    | NoInitialAccumulator
    | EmptyEpochChangeProof
    | AccumulatorInconsistent
    | EpochChangeInvalid(error: EpochChangeError)
    | NotAnEpochChange
    | LatestNotAccepted
    | InconsistentProof
    | WaypointNeedsEpochChange
    | DoesNotMatchVerifiedState
    | ExtensionFailed(reason: AccumulatorError)

  datatype StateProof = StateProof(
    latestLi: LedgerInfoWithSignatures,
    epochChanges: EpochChangeProof,
    consistencyProof: seq<HashValue>)

  function TryFromEpochChangeLi(li: LedgerInfo, accumulator: Accumulator): Result<TrustedState, RatchetError> {
    if !VerifyConsistency(accumulator, li) then Err(AccumulatorInconsistent)
    else if !li.EndsEpoch() then Err(NotAnEpochChange)
    else Ok(InEpoch(NewAny(li), li.commitInfo.nextEpochState.value, accumulator))
  }

  /** The accumulator to extend: the trusted one, or an untrusted one that matches the first ledger info of the proof. */
  function CurrentAccumulator(ts: TrustedState, lis: seq<LedgerInfoWithSignatures>, initial: Option<Accumulator>)
    : Result<Accumulator, RatchetError>
  {
    if ts.InEpoch? then Ok(ts.accumulator)
    else if initial.None? then Err(NoInitialAccumulator)
    else if lis == [] then Err(EmptyEpochChangeProof)
    else if !VerifyConsistency(initial.value, lis[0].ledgerInfo) then Err(AccumulatorInconsistent)
    else Ok(initial.value)
  }

  function VerifyAndRatchet(ts: TrustedState, proof: StateProof, initial: Option<Accumulator>)
    : Result<TrustedStateChange, RatchetError>
  {
    if proof.latestLi.ledgerInfo.commitInfo.version < ts.waypoint.version then Err(StaleTarget)
    else
      var accumulator :- CurrentAccumulator(ts, proof.epochChanges.ledgerInfos, initial);
      if EpochChangeVerificationRequired(ts.AsVerifier(), proof.latestLi.ledgerInfo.commitInfo.NextBlockEpoch())
      then RatchetEpoch(ts, accumulator, proof)
      else RatchetVersion(ts, accumulator, proof)
  }

  /** Which ledger info to trust next, once the proof led to the epoch-changing one. */
  function SelectVerified(epochChangeLi: LedgerInfoWithSignatures, next: EpochState, proof: StateProof)
    : Result<LedgerInfoWithSignatures, RatchetError>
  {
    var latest := proof.latestLi;
    if epochChangeLi == latest then Ok(latest)
    else if latest.ledgerInfo.commitInfo.epoch == next.epoch then
      if Accepts(ByEpoch(next), latest) then Ok(latest) else Err(LatestNotAccepted)
    else if latest.ledgerInfo.commitInfo.epoch > next.epoch && proof.epochChanges.more then Ok(epochChangeLi)
    else Err(InconsistentProof)
  }

  function RatchetEpoch(ts: TrustedState, accumulator: Accumulator, proof: StateProof): Result<TrustedStateChange, RatchetError> {
    match VerifyProof(ts.AsVerifier(), proof.epochChanges.ledgerInfos)
    case Err(error) => Err(EpochChangeInvalid(error))
    case Ok(epochChangeLi) =>
      if !epochChangeLi.ledgerInfo.EndsEpoch() then Err(NotAnEpochChange)
      else
        var next := epochChangeLi.ledgerInfo.commitInfo.nextEpochState.value;
        var verified :- SelectVerified(epochChangeLi, next, proof);
        match TryExtendWithProof(accumulator, proof.consistencyProof, verified.ledgerInfo)
        case Err(reason) => Err(ExtensionFailed(reason))
        case Ok(extended) => Ok(EpochChange(InEpoch(NewAny(verified.ledgerInfo), next, extended), epochChangeLi))
  }

  function RatchetVersion(ts: TrustedState, accumulator: Accumulator, proof: StateProof): Result<TrustedStateChange, RatchetError> {
    if ts.AtWaypoint? then Err(WaypointNeedsEpochChange)
    else
      var waypoint := NewAny(proof.latestLi.ledgerInfo);
      if waypoint.version == ts.waypoint.version then
        if waypoint == ts.waypoint then Ok(NoChange) else Err(DoesNotMatchVerifiedState)
      else if !Accepts(ByEpoch(ts.epochState), proof.latestLi) then Err(LatestNotAccepted)
      else
        match TryExtendWithProof(accumulator, proof.consistencyProof, proof.latestLi.ledgerInfo)
        case Err(reason) => Err(ExtensionFailed(reason))
        case Ok(extended) => Ok(VersionChange(InEpoch(waypoint, ts.epochState, extended)))
  }

  // ----- runs ------------------------------------------------------------

  /** One answer of an untrusted server. */
  datatype Input = Input(proof: StateProof, initial: Option<Accumulator>)

  predicate Moves(ts: TrustedState, input: Input) {
    var r := VerifyAndRatchet(ts, input.proof, input.initial);
    r.Ok? && !r.value.NoChange?
  }

  /** The client keeps its state unless the ratchet hands out a new one. */
  function Next(ts: TrustedState, input: Input): TrustedState {
    if Moves(ts, input) then VerifyAndRatchet(ts, input.proof, input.initial).value.newState else ts
  }

  function Run(ts: TrustedState, inputs: seq<Input>): TrustedState
    decreases |inputs|
  {
    if inputs == [] then ts else Run(Next(ts, inputs[0]), inputs[1..])
  }

  // ----- the ratchet invariant --------------------------------------------

  /** Waypoint and accumulator both commit to the ledger info. */
  ghost predicate CommitsTo(ts: TrustedState, li: LedgerInfo)
    requires ts.InEpoch?
  {
    ts.waypoint == NewAny(li) && VerifyConsistency(ts.accumulator, li)
  }

  /** The ledger info is signed by the trusted validators, or is the one that brought them in. */
  ghost predicate Backs(li: LedgerInfoWithSignatures, ts: TrustedState)
    requires ts.InEpoch?
  {
    && CommitsTo(ts, li.ledgerInfo)
    && (Accepts(ByEpoch(ts.epochState), li) || li.ledgerInfo.commitInfo.nextEpochState == Some(ts.epochState))
  }

  /** Accumulator and waypoint come from the same verified ledger info. */
  ghost predicate Coherent(ts: TrustedState) {
    ts.InEpoch? ==> exists li :: Backs(li, ts)
  }

  lemma FromEpochChangeLiIsCoherent(li: LedgerInfo, accumulator: Accumulator)
    requires TryFromEpochChangeLi(li, accumulator).Ok?
    ensures Coherent(TryFromEpochChangeLi(li, accumulator).value)
    ensures TryFromEpochChangeLi(li, accumulator).value.AsVerifier() == ByEpoch(li.commitInfo.nextEpochState.value)
  {
    assert Backs(LedgerInfoWithSignatures(li, map[]), TryFromEpochChangeLi(li, accumulator).value);
  }

  lemma MoveIsCoherent(ts: TrustedState, input: Input)
    requires Moves(ts, input)
    ensures Next(ts, input).InEpoch? && Coherent(Next(ts, input))
  {
    var change := VerifyAndRatchet(ts, input.proof, input.initial).value;
    if change.VersionChange? {
      assert Backs(input.proof.latestLi, change.newState);
    } else {
      var next := change.latestEpochChangeLi.ledgerInfo.commitInfo.nextEpochState.value;
      var verified := SelectVerified(change.latestEpochChangeLi, next, input.proof).value;
      assert Backs(verified, change.newState);
    }
  }

  /**
    The version never goes back.  On the branch that falls back to the
    epoch-changing ledger info the code does not compare versions; there the
    accumulator, which stands at the trusted version, refuses to shrink.
   */
  lemma MoveKeepsVersion(ts: TrustedState, input: Input)
    requires Coherent(ts) && Moves(ts, input)
    ensures Next(ts, input).waypoint.version >= ts.waypoint.version
  {
    var change := VerifyAndRatchet(ts, input.proof, input.initial).value;
    if ts.InEpoch? {
      var li :| Backs(li, ts);
      assert ts.accumulator.Version() == ts.waypoint.version;
    } else {
      VerifySpec(ts.AsVerifier(), input.proof.epochChanges.ledgerInfos);
    }
  }

  /** Within an epoch a version change is strict, and keeps the validator set. */
  lemma VersionChangeIsStrict(ts: TrustedState, input: Input)
    requires Moves(ts, input) && VerifyAndRatchet(ts, input.proof, input.initial).value.VersionChange?
    ensures ts.InEpoch? && Next(ts, input).epochState == ts.epochState
    ensures Next(ts, input).waypoint.version > ts.waypoint.version
  {
  }

  predicate ChangesEpoch(ts: TrustedState, input: Input) {
    Moves(ts, input) && VerifyAndRatchet(ts, input.proof, input.initial).value.EpochChange?
  }

  /** What the code leaves to the signers, of an answer that brings a new epoch: the ledger info reached opens a later epoch than its own. */
  predicate Advances(ts: TrustedState, input: Input) {
    ChangesEpoch(ts, input) ==> AdvancesEpoch(Last(input.proof.epochChanges.ledgerInfos).ledgerInfo)
  }

  /** An epoch change strictly raises the epoch. */
  lemma EpochChangeIsStrict(ts: TrustedState, input: Input)
    requires ts.InEpoch? && ChangesEpoch(ts, input) && Advances(ts, input)
    ensures Next(ts, input).epochState.epoch > ts.epochState.epoch
  {
  }

  /**
    The condition is needed: whenever validators of the client's epoch open an
    earlier one, and those in turn a later one than the client's, the client
    falls back to the earlier epoch.
   */
  lemma EpochCanFall(ts: TrustedState, first: LedgerInfoWithSignatures, latest: LedgerInfoWithSignatures, back: EpochState,
                     consistency: seq<HashValue>, more: bool)
    requires ts.InEpoch? && Accepts(ByEpoch(ts.epochState), first) && first.ledgerInfo.commitInfo.nextEpochState == Some(back)
    requires back.epoch < ts.epochState.epoch < latest.ledgerInfo.commitInfo.NextBlockEpoch() && Accepts(ByEpoch(back), latest)
    requires latest.ledgerInfo.commitInfo.version >= ts.waypoint.version
    requires TryExtendWithProof(ts.accumulator, consistency, latest.ledgerInfo).Ok?
    ensures var input := Input(StateProof(latest, EpochChangeProof([first], more), consistency), None);
            ChangesEpoch(ts, input) && Next(ts, input).epochState == back
  {
    WalkSpec(ts.AsVerifier(), [first]);
  }

  /** Of the answers of a run, those that do bring a new epoch; refused ones and mere version changes may hold anything. */
  predicate AllAdvance(ts: TrustedState, inputs: seq<Input>)
    decreases |inputs|
  {
    inputs != [] ==> Advances(ts, inputs[0]) && AllAdvance(Next(ts, inputs[0]), inputs[1..])
  }

  lemma MoveKeepsEpoch(ts: TrustedState, input: Input)
    requires Advances(ts, input)
    ensures ts.InEpoch? ==> Next(ts, input).InEpoch? && Next(ts, input).epochState.epoch >= ts.epochState.epoch
  {
    if ts.InEpoch? && ChangesEpoch(ts, input) {
      EpochChangeIsStrict(ts, input);
    }
  }

  /** Along every run of every server: coherent states, versions that never decrease. */
  lemma {:induction false} RatchetInvariant(ts: TrustedState, inputs: seq<Input>)
    requires Coherent(ts)
    ensures Coherent(Run(ts, inputs))
    ensures Run(ts, inputs).waypoint.version >= ts.waypoint.version
    ensures ts.InEpoch? ==> Run(ts, inputs).InEpoch?
    decreases |inputs|
  {
    if inputs != [] {
      if Moves(ts, inputs[0]) {
        MoveIsCoherent(ts, inputs[0]);
        MoveKeepsVersion(ts, inputs[0]);
      }
      RatchetInvariant(Next(ts, inputs[0]), inputs[1..]);
    }
  }

  lemma {:induction false} EpochsNeverDecrease(ts: TrustedState, inputs: seq<Input>)
    requires ts.InEpoch? && AllAdvance(ts, inputs)
    ensures Run(ts, inputs).InEpoch? && Run(ts, inputs).epochState.epoch >= ts.epochState.epoch
    decreases |inputs|
  {
    if inputs != [] {
      MoveKeepsEpoch(ts, inputs[0]);
      EpochsNeverDecrease(Next(ts, inputs[0]), inputs[1..]);
    }
  }

  // ----- replay ----------------------------------------------------------

  /**
    A state proof that has just moved the client does not move it again: the
    second time it is answered with `NoChange` or an error, on every branch.
   */
  lemma ReplayDoesNotMove(ts: TrustedState, input: Input)
    requires Moves(ts, input) && Advances(ts, input)
    ensures !Moves(Next(ts, input), input)
    ensures Next(Next(ts, input), input) == Next(ts, input)
  {
    var ts' := Next(ts, input);
    if ChangesEpoch(ts, input) {
      assert IsStale(ts'.AsVerifier(), Last(input.proof.epochChanges.ledgerInfos).ledgerInfo);
      assert VerifyProof(ts'.AsVerifier(), input.proof.epochChanges.ledgerInfos) == Err(StaleProof);
    }
  }

  /**
    Here too the condition is needed: whenever validators open their own epoch
    again, the proof that brought it is taken for a change of epoch once more.
   */
  lemma ReplayCanMove(ts: TrustedState, first: LedgerInfoWithSignatures, latest: LedgerInfoWithSignatures, more: bool)
    requires ts.InEpoch? && Accepts(ByEpoch(ts.epochState), first) && first.ledgerInfo.commitInfo.nextEpochState == Some(ts.epochState)
    requires Accepts(ByEpoch(ts.epochState), latest) && ts.epochState.epoch < latest.ledgerInfo.commitInfo.NextBlockEpoch()
    requires latest.ledgerInfo.commitInfo.version >= ts.waypoint.version
    requires Valid(ts.accumulator) && ts.accumulator.numLeaves <= MAX_ACCUMULATOR_LEAVES && VerifyConsistency(ts.accumulator, latest.ledgerInfo)
    ensures var input := Input(StateProof(latest, EpochChangeProof([first], more), []), None);
            ChangesEpoch(ts, input) && ChangesEpoch(Next(ts, input), input)
  {
    WalkSpec(ts.AsVerifier(), [first]);
    ExtendByNothing(ts.accumulator, latest.ledgerInfo);
  }
}
