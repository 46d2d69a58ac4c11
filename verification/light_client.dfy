/**
  Light clients against arbitrary servers.  Where what a quorum signs is part
  of one history, every client stays on that history, so any two clients agree
  wherever they trust the same ledger info's epoch and version, or the same
  validators' epoch.
 */
module LightClients {
  import opened Types
  import opened ValidatorVerifiers
  import opened Certificates
  import opened EpochChanges
  import opened Accumulators
  import opened AccumulatorTrees
  import opened TrustedStates

  /** What was committed, and the signed ledger infos that exist: nobody can show others. */
  datatype History = History(ledger: iset<Ledger2Waypoint>, shown: iset<LedgerInfoWithSignatures>)

  ghost predicate InHistory(h: History, li: LedgerInfo) {
    WaypointFields(li) in h.ledger
  }

  /** The validator set that some committed ledger info brings in. */
  ghost predicate IsEpochOf(h: History, es: EpochState) {
    exists x :: x in h.ledger && x.nextEpochState == Some(es)
  }

  /** In an epoch the version tells the ledger info, nothing follows the one that ends it, and the next epoch is the next number. */
  ghost predicate Ordered(h: History) {
    && (forall x :: x in h.ledger && x.nextEpochState.Some? ==> x.nextEpochState.value.epoch == x.epoch + 1)
    && (forall x, y :: x in h.ledger && y in h.ledger && x.epoch == y.epoch ==>
          && (x.version == y.version ==> x == y)
          && (x.version < y.version ==> x.nextEpochState.None?))
  }

  /** The version alone tells the ledger info, across epochs. */
  ghost predicate VersionsTell(h: History) {
    forall x, y :: x in h.ledger && y in h.ledger && x.version == y.version ==> x == y
  }

  /** Whatever a quorum of the set signs in its epoch was committed. */
  ghost predicate QuorumsCommit(h: History, es: EpochState) {
    forall li :: li in h.shown && Accepts(ByEpoch(es), li) ==> InHistory(h, li.ledgerInfo)
  }

  /** All that the clients rely on. */
  ghost predicate TrueHistory(h: History) {
    && Ordered(h)
    && (forall es :: IsEpochOf(h, es) ==> QuorumsCommit(h, es))
  }

  // ----- an honest majority is enough ---------------------------------------

  /** Over two thirds of the power of the set signs, in its epoch, only what was committed. */
  ghost predicate HonestMajority(h: History, honest: set<Address>, es: EpochState) {
    && Wellformed(es.verifier) && es.verifier.infos != map[]
    && honest <= es.verifier.infos.Keys
    && 3 * Power(es.verifier.infos, honest) > 2 * es.verifier.totalVotingPower
    && (forall a: Address, li: LedgerInfoWithSignatures ::
          && a in honest && li in h.shown && a in li.signatures
          && li.ledgerInfo.commitInfo.epoch == es.epoch
          && SignatureVerifies(es.verifier.infos[a].publicKey, LedgerInfoMessage(li.ledgerInfo), li.signatures[a])
          ==> InHistory(h, li.ledgerInfo))
  }

  ghost predicate HonestHistory(h: History, honest: map<U64, set<Address>>) {
    && Ordered(h)
    && (forall es :: IsEpochOf(h, es) ==> es.epoch in honest && HonestMajority(h, honest[es.epoch], es))
  }

  /** A quorum has a member of every two-thirds majority, so what it signs was committed. */
  lemma QuorumSignsHistory(h: History, honest: set<Address>, es: EpochState, li: LedgerInfoWithSignatures)
    requires HonestMajority(h, honest, es) && li in h.shown && Accepts(ByEpoch(es), li)
    ensures InHistory(h, li.ledgerInfo)
  {
    var infos, signers := es.verifier.infos, li.signatures.Keys;
    if honest !! signers {
      PowerUnion(infos, honest, signers);
      PowerMonotone(infos, honest + signers, infos.Keys);
      assert false;
    }
    var a :| a in honest && a in signers;
    assert SignatureVerifies(infos[a].publicKey, LedgerInfoMessage(li.ledgerInfo), li.signatures[a]);
  }

  lemma HonestHistoryIsTrue(h: History, honest: map<U64, set<Address>>)
    requires HonestHistory(h, honest)
    ensures TrueHistory(h)
  {
    forall es, li | IsEpochOf(h, es) && li in h.shown && Accepts(ByEpoch(es), li)
      ensures InHistory(h, li.ledgerInfo)
    {
      QuorumSignsHistory(h, honest[es.epoch], es, li);
    }
  }

  // ----- walking an epoch change proof ---------------------------------------

  function WaypointOf(x: Ledger2Waypoint): Waypoint {
    Waypoint(x.version, WaypointHash(x))
  }

  ghost predicate AllShown(h: History, lis: seq<LedgerInfoWithSignatures>) {
    forall i :: 0 <= i < |lis| ==> lis[i] in h.shown
  }

  /** The verifier was built from the true history. */
  ghost predicate OnHistoryVerifier(h: History, v: Verifier) {
    match v
    case ByWaypoint(w) => exists x :: x in h.ledger && x.nextEpochState.Some? && w == WaypointOf(x)
    case ByEpoch(es) => IsEpochOf(h, es)
  }

  lemma AcceptedIsHistory(h: History, v: Verifier, li: LedgerInfoWithSignatures)
    requires WaypointHashInjective() && TrueHistory(h)
    requires OnHistoryVerifier(h, v) && li in h.shown && Accepts(v, li)
    ensures InHistory(h, li.ledgerInfo)
    ensures li.ledgerInfo.EndsEpoch() ==> IsEpochOf(h, li.ledgerInfo.commitInfo.nextEpochState.value)
  {
    match v {
      case ByWaypoint(w) =>
        var x :| x in h.ledger && x.nextEpochState.Some? && w == WaypointOf(x);
        assert WaypointHash(WaypointFields(li.ledgerInfo)) == WaypointHash(x);
      case ByEpoch(es) =>
        assert QuorumsCommit(h, es);
    }
    assert WaypointFields(li.ledgerInfo).nextEpochState == li.ledgerInfo.commitInfo.nextEpochState;
  }

  lemma {:induction false} WalkStaysOnHistory(h: History, v: Verifier, lis: seq<LedgerInfoWithSignatures>)
    requires WaypointHashInjective() && TrueHistory(h) && AllShown(h, lis)
    requires OnHistoryVerifier(h, v) && lis != [] && Walk(v, lis).Ok?
    ensures InHistory(h, Last(lis).ledgerInfo) && Last(lis).ledgerInfo.EndsEpoch()
    ensures IsEpochOf(h, Last(lis).ledgerInfo.commitInfo.nextEpochState.value)
    decreases |lis|
  {
    AcceptedIsHistory(h, v, lis[0]);
    if |lis| > 1 {
      WalkStaysOnHistory(h, ByEpoch(lis[0].ledgerInfo.commitInfo.nextEpochState.value), lis[1..]);
    }
  }

  lemma ProofStaysOnHistory(h: History, v: Verifier, lis: seq<LedgerInfoWithSignatures>)
    requires WaypointHashInjective() && TrueHistory(h) && AllShown(h, lis)
    requires OnHistoryVerifier(h, v) && VerifyProof(v, lis).Ok?
    ensures InHistory(h, Last(lis).ledgerInfo) && Last(lis).ledgerInfo.EndsEpoch()
    ensures IsEpochOf(h, Last(lis).ledgerInfo.commitInfo.nextEpochState.value)
  {
    var k := SkipStaleSpec(v, lis);
    assert Last(lis[k..]) == Last(lis);
    WalkStaysOnHistory(h, v, lis[k..]);
  }

  // ----- the invariant ---------------------------------------------------

  /** An answer made of ledger infos that exist; everything else in it is the server's choice. */
  ghost predicate InputShown(h: History, input: Input) {
    input.proof.latestLi in h.shown && AllShown(h, input.proof.epochChanges.ledgerInfos)
  }

  ghost predicate InputsShown(h: History, inputs: seq<Input>) {
    forall i :: 0 <= i < |inputs| ==> InputShown(h, inputs[i])
  }

  /** The committed ledger info behind the client's waypoint and accumulator root. */
  ghost predicate Trusts(h: History, ts: TrustedState, x: Ledger2Waypoint) {
    x in h.ledger && ts.waypoint == WaypointOf(x) && (ts.InEpoch? ==> ts.accumulator.rootHash == x.rootHash)
  }

  /** What the client trusts was committed: its waypoint, its validator set, its accumulator root. */
  ghost predicate OnHistory(h: History, ts: TrustedState) {
    OnHistoryVerifier(h, ts.AsVerifier()) && exists x :: Trusts(h, ts, x)
  }

  /** The ledger info selected after a verified epoch change was committed. */
  lemma SelectedIsHistory(h: History, v: Verifier, proof: StateProof, next: EpochState)
    requires WaypointHashInjective() && TrueHistory(h)
    requires proof.latestLi in h.shown && AllShown(h, proof.epochChanges.ledgerInfos)
    requires OnHistoryVerifier(h, v) && VerifyProof(v, proof.epochChanges.ledgerInfos).Ok?
    requires Last(proof.epochChanges.ledgerInfos).ledgerInfo.commitInfo.nextEpochState == Some(next)
    requires SelectVerified(Last(proof.epochChanges.ledgerInfos), next, proof).Ok?
    ensures IsEpochOf(h, next)
    ensures InHistory(h, SelectVerified(Last(proof.epochChanges.ledgerInfos), next, proof).value.ledgerInfo)
  {
    ProofStaysOnHistory(h, v, proof.epochChanges.ledgerInfos);
    assert QuorumsCommit(h, next);
  }

  lemma VersionStaysOnHistory(h: History, ts: TrustedState, input: Input)
    requires TrueHistory(h) && InputShown(h, input) && OnHistory(h, ts)
    requires Moves(ts, input) && VerifyAndRatchet(ts, input.proof, input.initial).value.VersionChange?
    ensures OnHistory(h, Next(ts, input))
  {
    assert QuorumsCommit(h, ts.epochState);
    assert Trusts(h, Next(ts, input), WaypointFields(input.proof.latestLi.ledgerInfo));
  }

  lemma EpochStaysOnHistory(h: History, ts: TrustedState, input: Input)
    requires WaypointHashInjective() && TrueHistory(h) && InputShown(h, input) && OnHistory(h, ts)
    requires Moves(ts, input) && VerifyAndRatchet(ts, input.proof, input.initial).value.EpochChange?
    ensures OnHistory(h, Next(ts, input))
  {
    var li := VerifyAndRatchet(ts, input.proof, input.initial).value.latestEpochChangeLi;
    var next := li.ledgerInfo.commitInfo.nextEpochState.value;
    SelectedIsHistory(h, ts.AsVerifier(), input.proof, next);
    assert Trusts(h, Next(ts, input), WaypointFields(SelectVerified(li, next, input.proof).value.ledgerInfo));
  }

  lemma MoveStaysOnHistory(h: History, ts: TrustedState, input: Input)
    requires WaypointHashInjective() && TrueHistory(h) && InputShown(h, input)
    requires OnHistory(h, ts) && Moves(ts, input)
    ensures OnHistory(h, Next(ts, input))
  {
    if VerifyAndRatchet(ts, input.proof, input.initial).value.VersionChange? {
      VersionStaysOnHistory(h, ts, input);
    } else {
      EpochStaysOnHistory(h, ts, input);
    }
  }

  /** No sequence of server answers, however chosen, takes a client off the true history. */
  lemma {:induction false} RunStaysOnHistory(h: History, ts: TrustedState, inputs: seq<Input>)
    requires WaypointHashInjective() && TrueHistory(h) && OnHistory(h, ts) && InputsShown(h, inputs)
    ensures OnHistory(h, Run(ts, inputs))
    decreases |inputs|
  {
    if inputs != [] {
      if Moves(ts, inputs[0]) {
        MoveStaysOnHistory(h, ts, inputs[0]);
      }
      RunStaysOnHistory(h, Next(ts, inputs[0]), inputs[1..]);
    }
  }

  lemma EpochsAreUnique(h: History, es: EpochState, fs: EpochState)
    requires Ordered(h) && IsEpochOf(h, es) && IsEpochOf(h, fs) && es.epoch == fs.epoch
    ensures es == fs
  {
    var x :| x in h.ledger && x.nextEpochState == Some(es);
    var y :| y in h.ledger && y.nextEpochState == Some(fs);
    assert x.epoch == y.epoch;
    assert !(x.version < y.version) && !(y.version < x.version);
  }

  /** Same version and same epoch of the ledger infos behind the two states; the epoch can be left out where the version tells it. */
  ghost predicate SamePlace(h: History, x: TrustedState, y: TrustedState) {
    && x.waypoint.version == y.waypoint.version
    && (VersionsTell(h) || exists p, q :: Trusts(h, x, p) && Trusts(h, y, q) && p.epoch == q.epoch)
  }

  /** Two clients on the history hold the same waypoint exactly at the same place. */
  lemma ClientsAgree(h: History, x: TrustedState, y: TrustedState)
    requires WaypointHashInjective() && TrueHistory(h) && OnHistory(h, x) && OnHistory(h, y)
    ensures x.waypoint == y.waypoint <==> SamePlace(h, x, y)
    ensures x.InEpoch? && y.InEpoch? && x.epochState.epoch == y.epochState.epoch ==> x.epochState == y.epochState
  {
    var p, q :| Trusts(h, x, p) && Trusts(h, y, q);
    if x.waypoint == y.waypoint {
      assert WaypointHash(p) == WaypointHash(q);
    }
    if x.InEpoch? && y.InEpoch? && x.epochState.epoch == y.epochState.epoch {
      EpochsAreUnique(h, x.epochState, y.epochState);
    }
  }

  /**
    Two clients start from the same true epoch waypoint and are fed any answers
    whatsoever.  They hold the same waypoint if and only if they trust the same
    version, of the same epoch where the version alone does not tell it; and
    wherever they trust validators of the same epoch they hold the same
    validator set.
   */
  lemma LightClientAgreement(h: History, start: Waypoint, xs: seq<Input>, ys: seq<Input>)
    requires WaypointHashInjective() && TrueHistory(h) && InputsShown(h, xs) && InputsShown(h, ys)
    requires OnHistory(h, AtWaypoint(start))
    ensures var x, y := Run(AtWaypoint(start), xs), Run(AtWaypoint(start), ys);
            && (x.waypoint == y.waypoint <==> SamePlace(h, x, y))
            && (x.InEpoch? && y.InEpoch? && x.epochState.epoch == y.epochState.epoch ==> x.epochState == y.epochState)
  {
    RunStaysOnHistory(h, AtWaypoint(start), xs);
    RunStaysOnHistory(h, AtWaypoint(start), ys);
    ClientsAgree(h, Run(AtWaypoint(start), xs), Run(AtWaypoint(start), ys));
  }

  /** In particular where in each epoch over two thirds of the power sign only what one history has at each version. */
  lemma HonestMajorityAgreement(h: History, honest: map<U64, set<Address>>, start: Waypoint, xs: seq<Input>, ys: seq<Input>)
    requires WaypointHashInjective() && HonestHistory(h, honest) && VersionsTell(h) && InputsShown(h, xs) && InputsShown(h, ys)
    requires OnHistory(h, AtWaypoint(start))
    ensures var x, y := Run(AtWaypoint(start), xs), Run(AtWaypoint(start), ys);
            && (x.waypoint.version == y.waypoint.version ==> x.waypoint == y.waypoint)
            && (x.InEpoch? && y.InEpoch? && x.epochState.epoch == y.epochState.epoch ==> x.epochState == y.epochState)
  {
    HonestHistoryIsTrue(h, honest);
    LightClientAgreement(h, start, xs, ys);
  }

  // ----- between two epochs ------------------------------------------------

  /**
    A ledger info that ends an epoch, one of the next epoch at the same version
    and root, signed by the validators brought in, and an accumulator there.
   */
  predicate Boundary(last: LedgerInfoWithSignatures, next: LedgerInfoWithSignatures, es: EpochState, acc: Accumulator) {
    && last.ledgerInfo.commitInfo.nextEpochState == Some(es) && last.ledgerInfo.commitInfo.epoch < es.epoch
    && Accepts(ByEpoch(es), next) && next.ledgerInfo.commitInfo.version == last.ledgerInfo.commitInfo.version
    && Summary(acc) && acc.numLeaves <= MAX_ACCUMULATOR_LEAVES
    && VerifyConsistency(acc, last.ledgerInfo) && VerifyConsistency(acc, next.ledgerInfo)
  }

  /** The answer that leads over the boundary to the given latest ledger info. */
  function Over(last: LedgerInfoWithSignatures, latest: LedgerInfoWithSignatures, acc: Accumulator): Input {
    Input(StateProof(latest, EpochChangeProof([last], false), []), Some(acc))
  }

  /**
    There the version does not tell the waypoint: of two clients from one
    waypoint, one shown the ledger info that ends the epoch and one the next
    epoch's, both trust the same validators at the same version with the same
    accumulator, and hold different waypoints.
   */
  lemma BoundaryClientsDiffer(last: LedgerInfoWithSignatures, next: LedgerInfoWithSignatures, es: EpochState, acc: Accumulator)
    requires WaypointHashInjective() && Boundary(last, next, es, acc)
    ensures var start := AtWaypoint(NewAny(last.ledgerInfo));
            var x, y := Next(start, Over(last, last, acc)), Next(start, Over(last, next, acc));
            && x == InEpoch(NewAny(last.ledgerInfo), es, acc)
            && y == InEpoch(NewAny(next.ledgerInfo), es, acc)
            && x.waypoint.version == y.waypoint.version && x.waypoint != y.waypoint
  {
    WalkSpec(ByWaypoint(NewAny(last.ledgerInfo)), [last]);
    ExtendByNothing(acc, last.ledgerInfo);
    ExtendByNothing(acc, next.ledgerInfo);
    assert WaypointFields(last.ledgerInfo).epoch != WaypointFields(next.ledgerInfo).epoch;
  }

  /** And the first of them, shown the next epoch's ledger info later, refuses it, whatever comes with it. */
  lemma BoundaryIsRefused(last: LedgerInfoWithSignatures, next: LedgerInfoWithSignatures, es: EpochState, acc: Accumulator, input: Input)
    requires WaypointHashInjective() && Boundary(last, next, es, acc) && !next.ledgerInfo.EndsEpoch()
    requires input.proof.latestLi == next
    ensures VerifyAndRatchet(InEpoch(NewAny(last.ledgerInfo), es, acc), input.proof, input.initial) == Err(DoesNotMatchVerifiedState)
  {
    assert WaypointFields(last.ledgerInfo).epoch != WaypointFields(next.ledgerInfo).epoch;
  }

  // ----- the transactions ------------------------------------------------

  /** The accumulator over the transactions up to a version, at its committed root. */
  ghost predicate TruthAt(leaves: seq<HashValue>, x: Ledger2Waypoint, truth: Accumulator) {
    x.version < |leaves| && Represents(truth, leaves[..x.version + 1]) && truth.rootHash == x.rootHash
  }

  /** Every committed root is the root over the transactions so far. */
  ghost predicate RootsAreTrue(h: History, leaves: seq<HashValue>) {
    forall x :: x in h.ledger ==> exists truth :: TruthAt(leaves, x, truth)
  }

  /** As a summary is built: from a constructed, non-empty accumulator. */
  predicate Summary(acc: Accumulator) {
    Valid(acc) && acc.numLeaves > 0
  }

  predicate Summaries(inputs: seq<Input>) {
    forall i :: 0 <= i < |inputs| && inputs[i].initial.Some? ==> Summary(inputs[i].initial.value)
  }

  ghost predicate KeepsSummary(ts: TrustedState) {
    ts.InEpoch? ==> Summary(ts.accumulator) && ts.accumulator.Version() == ts.waypoint.version
  }

  lemma ExtensionIsSummary(acc: Accumulator, subtrees: seq<HashValue>, target: LedgerInfo)
    requires Summary(acc) && TryExtendWithProof(acc, subtrees, target).Ok?
    ensures Summary(TryExtendWithProof(acc, subtrees, target).value)
    ensures TryExtendWithProof(acc, subtrees, target).value.Version() == target.commitInfo.version
  {
    AppendIsValid(acc, subtrees, target.commitInfo.version - acc.Version());
  }

  lemma MoveKeepsSummary(ts: TrustedState, input: Input)
    requires KeepsSummary(ts) && Moves(ts, input)
    requires input.initial.Some? ==> Summary(input.initial.value)
    ensures KeepsSummary(Next(ts, input))
  {
    var change := VerifyAndRatchet(ts, input.proof, input.initial).value;
    var acc := CurrentAccumulator(ts, input.proof.epochChanges.ledgerInfos, input.initial).value;
    if change.VersionChange? {
      ExtensionIsSummary(acc, input.proof.consistencyProof, input.proof.latestLi.ledgerInfo);
    } else {
      var next := change.latestEpochChangeLi.ledgerInfo.commitInfo.nextEpochState.value;
      var verified := SelectVerified(change.latestEpochChangeLi, next, input.proof).value;
      ExtensionIsSummary(acc, input.proof.consistencyProof, verified.ledgerInfo);
    }
  }

  lemma {:induction false} RunKeepsSummary(ts: TrustedState, inputs: seq<Input>)
    requires KeepsSummary(ts) && Summaries(inputs)
    ensures KeepsSummary(Run(ts, inputs))
    decreases |inputs|
  {
    if inputs != [] {
      if Moves(ts, inputs[0]) {
        MoveKeepsSummary(ts, inputs[0]);
      }
      RunKeepsSummary(Next(ts, inputs[0]), inputs[1..]);
    }
  }

  /** A summary at a committed version with its committed root is the accumulator over the true transactions. */
  lemma SummaryIsTruth(leaves: seq<HashValue>, acc: Accumulator, x: Ledger2Waypoint, truth: Accumulator)
    requires NodeHashInjective() && Summary(acc) && TruthAt(leaves, x, truth)
    requires acc.Version() == x.version && acc.rootHash == x.rootHash
    ensures acc == truth
  {
    var f :| RepresentsBy(truth, leaves[..x.version + 1], f);
    FlatSize(f, 0);
    RootDeterminesAccumulator(acc, truth);
  }

  lemma StateIsTrue(h: History, leaves: seq<HashValue>, ts: TrustedState)
    requires NodeHashInjective() && RootsAreTrue(h, leaves) && OnHistory(h, ts) && KeepsSummary(ts) && ts.InEpoch?
    ensures ts.waypoint.version < |leaves| && Represents(ts.accumulator, leaves[..ts.waypoint.version + 1])
  {
    var x :| Trusts(h, ts, x);
    var truth :| TruthAt(leaves, x, truth);
    SummaryIsTruth(leaves, ts.accumulator, x, truth);
  }

  lemma StatesAgree(h: History, leaves: seq<HashValue>, x: TrustedState, y: TrustedState)
    requires NodeHashInjective() && RootsAreTrue(h, leaves) && OnHistory(h, x) && OnHistory(h, y)
    requires KeepsSummary(x) && KeepsSummary(y) && x.InEpoch? && y.InEpoch? && x.waypoint.version <= y.waypoint.version
    ensures x.waypoint.version == y.waypoint.version ==> x.accumulator == y.accumulator
    ensures exists a, b :: Represents(x.accumulator, a) && Represents(y.accumulator, b) && a <= b
  {
    StateIsTrue(h, leaves, x);
    StateIsTrue(h, leaves, y);
    var a, b := leaves[..x.waypoint.version + 1], leaves[..y.waypoint.version + 1];
    assert a <= b;
    if x.waypoint.version == y.waypoint.version {
      LeavesDetermineAccumulator(x.accumulator, y.accumulator, a);
    }
  }

  /**
    Whatever the servers answered, first accumulator and consistency proofs
    included: the accumulator a client trusts summarises exactly the
    transactions committed up to the version it trusts.
   */
  lemma AccumulatorIsTrue(h: History, leaves: seq<HashValue>, start: Waypoint, inputs: seq<Input>, ts: TrustedState)
    requires WaypointHashInjective() && NodeHashInjective() && TrueHistory(h) && RootsAreTrue(h, leaves)
    requires OnHistory(h, AtWaypoint(start)) && InputsShown(h, inputs) && Summaries(inputs)
    requires ts == Run(AtWaypoint(start), inputs) && ts.InEpoch?
    ensures ts.waypoint.version < |leaves| && Represents(ts.accumulator, leaves[..ts.waypoint.version + 1])
  {
    RunStaysOnHistory(h, AtWaypoint(start), inputs);
    RunKeepsSummary(AtWaypoint(start), inputs);
    StateIsTrue(h, leaves, ts);
  }

  /** Two clients that trust the same version hold the same accumulator; of two versions, the one summarises a prefix of the other. */
  lemma AccumulatorsAgree(h: History, leaves: seq<HashValue>, start: Waypoint, xs: seq<Input>, ys: seq<Input>)
    requires WaypointHashInjective() && NodeHashInjective() && TrueHistory(h) && RootsAreTrue(h, leaves)
    requires OnHistory(h, AtWaypoint(start)) && InputsShown(h, xs) && InputsShown(h, ys) && Summaries(xs) && Summaries(ys)
    ensures var x, y := Run(AtWaypoint(start), xs), Run(AtWaypoint(start), ys);
            x.InEpoch? && y.InEpoch? && x.waypoint.version <= y.waypoint.version ==>
              && (x.waypoint.version == y.waypoint.version ==> x.accumulator == y.accumulator)
              && exists a, b :: Represents(x.accumulator, a) && Represents(y.accumulator, b) && a <= b
  {
    var x, y := Run(AtWaypoint(start), xs), Run(AtWaypoint(start), ys);
    RunStaysOnHistory(h, AtWaypoint(start), xs);
    RunStaysOnHistory(h, AtWaypoint(start), ys);
    RunKeepsSummary(AtWaypoint(start), xs);
    RunKeepsSummary(AtWaypoint(start), ys);
    if x.InEpoch? && y.InEpoch? && x.waypoint.version <= y.waypoint.version {
      StatesAgree(h, leaves, x, y);
    }
  }

  // ----- progress of the epoch -------------------------------------------

  /** On the true history the condition that the code leaves to the signers holds of every answer. */
  lemma HistoryAdvances(h: History, ts: TrustedState, input: Input)
    requires WaypointHashInjective() && TrueHistory(h) && OnHistory(h, ts) && InputShown(h, input)
    ensures Advances(ts, input)
  {
    if ChangesEpoch(ts, input) {
      ProofStaysOnHistory(h, ts.AsVerifier(), input.proof.epochChanges.ledgerInfos);
      assert WaypointFields(Last(input.proof.epochChanges.ledgerInfos).ledgerInfo) in h.ledger;
    }
  }

  lemma EpochChangesClimb(h: History, ts: TrustedState, input: Input)
    requires WaypointHashInjective() && TrueHistory(h) && OnHistory(h, ts) && InputShown(h, input)
    requires ts.InEpoch? && ChangesEpoch(ts, input)
    ensures Next(ts, input).epochState.epoch > ts.epochState.epoch
  {
    HistoryAdvances(h, ts, input);
    EpochChangeIsStrict(ts, input);
  }

  lemma {:induction false} RunAdvances(h: History, ts: TrustedState, inputs: seq<Input>)
    requires WaypointHashInjective() && TrueHistory(h) && OnHistory(h, ts) && InputsShown(h, inputs)
    ensures AllAdvance(ts, inputs)
    decreases |inputs|
  {
    if inputs != [] {
      HistoryAdvances(h, ts, inputs[0]);
      if Moves(ts, inputs[0]) {
        MoveStaysOnHistory(h, ts, inputs[0]);
      }
      RunAdvances(h, Next(ts, inputs[0]), inputs[1..]);
    }
  }

  /** So along every run on the true history, whatever is answered, neither version nor epoch goes back. */
  lemma NothingGoesBack(h: History, ts: TrustedState, inputs: seq<Input>)
    requires WaypointHashInjective() && TrueHistory(h) && OnHistory(h, ts) && InputsShown(h, inputs)
    requires ts.InEpoch? && Coherent(ts)
    ensures var ts' := Run(ts, inputs);
            ts'.InEpoch? && ts'.epochState.epoch >= ts.epochState.epoch && ts'.waypoint.version >= ts.waypoint.version
  {
    RunAdvances(h, ts, inputs);
    EpochsNeverDecrease(ts, inputs);
    RatchetInvariant(ts, inputs);
  }

  /** And at any point of such a run an answer that just moved the client does not move it again. */
  lemma ReplayOnHistory(h: History, ts: TrustedState, inputs: seq<Input>, input: Input)
    requires WaypointHashInjective() && TrueHistory(h) && OnHistory(h, ts) && InputsShown(h, inputs) && InputShown(h, input)
    requires Moves(Run(ts, inputs), input)
    ensures !Moves(Next(Run(ts, inputs), input), input)
  {
    RunStaysOnHistory(h, ts, inputs);
    HistoryAdvances(h, Run(ts, inputs), input);
    ReplayDoesNotMove(Run(ts, inputs), input);
  }

  lemma SubtreesToTruth(acc: Accumulator, leaves: seq<HashValue>, truth: Accumulator) returns (subtrees: seq<HashValue>)
    requires acc.numLeaves <= |leaves| <= MAX_ACCUMULATOR_LEAVES
    requires Represents(acc, leaves[..acc.numLeaves]) && Represents(truth, leaves)
    ensures AppendSubtrees(acc, subtrees, |leaves| - acc.numLeaves) == Ok(truth) && truth.numLeaves == |leaves|
  {
    var n := acc.numLeaves;
    var before, after := leaves[..n], leaves[n..];
    subtrees := AppendComplete(acc, before, after);
    assert before + after == leaves;
    LeavesDetermineAccumulator(AppendSubtrees(acc, subtrees, |after|).value, truth, leaves);
    var f :| RepresentsBy(truth, leaves, f);
    FlatSize(f, 0);
  }

  /** From a true accumulator there is a consistency proof to every later version. */
  lemma ConsistencyProofExists(acc: Accumulator, leaves: seq<HashValue>, target: LedgerInfo, truth: Accumulator) returns (consistency: seq<HashValue>)
    requires 0 < acc.numLeaves <= target.commitInfo.version + 1 == |leaves| <= MAX_ACCUMULATOR_LEAVES
    requires Represents(acc, leaves[..acc.numLeaves])
    requires Represents(truth, leaves) && target.commitInfo.executedStateId == truth.rootHash
    ensures TryExtendWithProof(acc, consistency, target) == Ok(truth)
  {
    consistency := SubtreesToTruth(acc, leaves, truth);
  }

  /**
    An honest server can always move a client that lags behind: some
    consistency proof, with the slice of epoch changes from a point the client
    has passed, brings it to the end of the slice.
   */
  lemma HonestProofAdvances(ts: TrustedState, lis: seq<LedgerInfoWithSignatures>, a: nat, c: nat, b: nat,
                            leaves: seq<HashValue>, truth: Accumulator, more: bool)
    returns (consistency: seq<HashValue>)
    requires ts.InEpoch? && EpochHistory(lis) && a <= c < b <= |lis|
    requires StandsAt(ts.AsVerifier(), lis, c) && KeepsSummary(ts)
    requires ts.waypoint.version <= lis[b - 1].ledgerInfo.commitInfo.version
    requires lis[b - 1].ledgerInfo.commitInfo.version + 1 == |leaves| <= MAX_ACCUMULATOR_LEAVES
    requires Represents(ts.accumulator, leaves[..ts.accumulator.numLeaves])
    requires Represents(truth, leaves) && lis[b - 1].ledgerInfo.commitInfo.executedStateId == truth.rootHash
    ensures var latest := lis[b - 1];
            var input := Input(StateProof(latest, EpochChangeProof(lis[a..b], more), consistency), None);
            && Moves(ts, input)
            && Next(ts, input) == InEpoch(NewAny(latest.ledgerInfo), latest.ledgerInfo.commitInfo.nextEpochState.value, truth)
  {
    consistency := ConsistencyProofExists(ts.accumulator, leaves, lis[b - 1].ledgerInfo, truth);
    HistorySliceVerifies(ts.AsVerifier(), lis, a, c, b);
    HistoryEpochs(lis, c, b - 1);
  }

  // ----- every honest answer is taken ----------------------------------------

  /**
    The client, in an epoch or at a waypoint, stands inside a slice of the
    history; `acc` is the accumulator it extends, its own or the one supplied.
   */
  ghost predicate Serves(ts: TrustedState, lis: seq<LedgerInfoWithSignatures>, a: nat, c: nat, b: nat,
                         initial: Option<Accumulator>, acc: Accumulator) {
    && EpochHistory(lis) && a <= c < b <= |lis|
    && StandsAt(ts.AsVerifier(), lis, c)
    && CurrentAccumulator(ts, lis[a..b], initial) == Ok(acc)
  }

  function Opened(li: LedgerInfoWithSignatures): EpochState
    requires li.ledgerInfo.EndsEpoch()
  {
    li.ledgerInfo.commitInfo.nextEpochState.value
  }

  lemma SliceLeads(ts: TrustedState, lis: seq<LedgerInfoWithSignatures>, a: nat, c: nat, b: nat, initial: Option<Accumulator>, acc: Accumulator)
    requires Serves(ts, lis, a, c, b, initial, acc)
    ensures VerifyProof(ts.AsVerifier(), lis[a..b]) == Ok(lis[b - 1]) && lis[b - 1].ledgerInfo.EndsEpoch()
    ensures Opened(lis[b - 1]).epoch == lis[b - 1].ledgerInfo.commitInfo.epoch + 1
    ensures ts.InEpoch? ==> ts.epochState.epoch < Opened(lis[b - 1]).epoch
  {
    HistorySliceVerifies(ts.AsVerifier(), lis, a, c, b);
    HistoryEpochs(lis, c, b - 1);
  }

  /** The latest ledger info is of a later epoch than the slice leads to. */
  predicate Beyond(latest: LedgerInfoWithSignatures, end: LedgerInfoWithSignatures) {
    && end.ledgerInfo.EndsEpoch() && latest.ledgerInfo.commitInfo.epoch > Opened(end).epoch
    && AdvancesEpoch(latest.ledgerInfo)
  }

  /** If the server says that there is more to come, the client goes to the end of the slice, unsigned as the latest one may be. */
  lemma PortionAdvances(ts: TrustedState, lis: seq<LedgerInfoWithSignatures>, a: nat, c: nat, b: nat,
                        latest: LedgerInfoWithSignatures, consistency: seq<HashValue>, initial: Option<Accumulator>,
                        acc: Accumulator, extended: Accumulator)
    requires Serves(ts, lis, a, c, b, initial, acc) && Beyond(latest, lis[b - 1])
    requires latest.ledgerInfo.commitInfo.version >= ts.waypoint.version
    requires TryExtendWithProof(acc, consistency, lis[b - 1].ledgerInfo) == Ok(extended)
    ensures VerifyAndRatchet(ts, StateProof(latest, EpochChangeProof(lis[a..b], true), consistency), initial)
         == Ok(EpochChange(InEpoch(NewAny(lis[b - 1].ledgerInfo), Opened(lis[b - 1]), extended), lis[b - 1]))
  {
    SliceLeads(ts, lis, a, c, b, initial, acc);
  }

  /** If it says that there is not, the answer contradicts itself and is refused. */
  lemma GapIsRefused(ts: TrustedState, lis: seq<LedgerInfoWithSignatures>, a: nat, c: nat, b: nat,
                     latest: LedgerInfoWithSignatures, consistency: seq<HashValue>, initial: Option<Accumulator>, acc: Accumulator)
    requires Serves(ts, lis, a, c, b, initial, acc) && Beyond(latest, lis[b - 1])
    requires latest.ledgerInfo.commitInfo.version >= ts.waypoint.version
    ensures VerifyAndRatchet(ts, StateProof(latest, EpochChangeProof(lis[a..b], false), consistency), initial) == Err(InconsistentProof)
  {
    SliceLeads(ts, lis, a, c, b, initial, acc);
  }

  /** With a latest ledger info in the epoch the slice opens, the client goes to that one, if and only if the new validators signed it. */
  lemma LatestIsReached(ts: TrustedState, lis: seq<LedgerInfoWithSignatures>, a: nat, c: nat, b: nat,
                        latest: LedgerInfoWithSignatures, consistency: seq<HashValue>, initial: Option<Accumulator>,
                        acc: Accumulator, extended: Accumulator, more: bool)
    requires Serves(ts, lis, a, c, b, initial, acc) && lis[b - 1].ledgerInfo.EndsEpoch()
    requires latest.ledgerInfo.commitInfo.epoch == Opened(lis[b - 1]).epoch && AdvancesEpoch(latest.ledgerInfo)
    requires latest.ledgerInfo.commitInfo.version >= ts.waypoint.version
    requires TryExtendWithProof(acc, consistency, latest.ledgerInfo) == Ok(extended)
    ensures VerifyAndRatchet(ts, StateProof(latest, EpochChangeProof(lis[a..b], more), consistency), initial)
         == if LedgerInfoVerify(Opened(lis[b - 1]).verifier, latest)
            then Ok(EpochChange(InEpoch(NewAny(latest.ledgerInfo), Opened(lis[b - 1]), extended), lis[b - 1]))
            else Err(LatestNotAccepted)
  {
    SliceLeads(ts, lis, a, c, b, initial, acc);
  }

  /** Within its epoch the client goes to any later ledger info, if and only if its validators signed it, whatever epoch changes come along. */
  lemma VersionIsReached(ts: TrustedState, latest: LedgerInfoWithSignatures, changes: EpochChangeProof, consistency: seq<HashValue>,
                         initial: Option<Accumulator>, extended: Accumulator)
    requires ts.InEpoch? && latest.ledgerInfo.commitInfo.NextBlockEpoch() <= ts.epochState.epoch
    requires latest.ledgerInfo.commitInfo.version > ts.waypoint.version
    requires TryExtendWithProof(ts.accumulator, consistency, latest.ledgerInfo) == Ok(extended)
    ensures VerifyAndRatchet(ts, StateProof(latest, changes, consistency), initial)
         == if latest.ledgerInfo.commitInfo.epoch == ts.epochState.epoch && LedgerInfoVerify(ts.epochState.verifier, latest)
            then Ok(VersionChange(InEpoch(NewAny(latest.ledgerInfo), ts.epochState, extended)))
            else Err(LatestNotAccepted)
  {
  }

  /** The ledger info it trusts already changes nothing; an older one is refused. */
  lemma KnownIsNoChange(ts: TrustedState, latest: LedgerInfoWithSignatures, changes: EpochChangeProof, consistency: seq<HashValue>,
                        initial: Option<Accumulator>)
    requires ts.InEpoch?
    ensures NewAny(latest.ledgerInfo) == ts.waypoint && latest.ledgerInfo.commitInfo.NextBlockEpoch() <= ts.epochState.epoch ==>
              VerifyAndRatchet(ts, StateProof(latest, changes, consistency), initial) == Ok(NoChange)
    ensures latest.ledgerInfo.commitInfo.version < ts.waypoint.version ==>
              VerifyAndRatchet(ts, StateProof(latest, changes, consistency), initial) == Err(StaleTarget)
  {
  }

  // ----- catching up -----------------------------------------------------

  /** All ledger infos are those of the given transactions. */
  ghost predicate Truthful(lis: seq<LedgerInfoWithSignatures>, leaves: seq<HashValue>) {
    |leaves| <= MAX_ACCUMULATOR_LEAVES && forall i :: 0 <= i < |lis| ==> HasTruth(lis[i].ledgerInfo, leaves)
  }

  ghost predicate HasTruth(li: LedgerInfo, leaves: seq<HashValue>) {
    exists truth :: TruthAt(leaves, WaypointFields(li), truth)
  }

  /** A client that trusts a true accumulator at its version. */
  ghost predicate Follows(ts: TrustedState, leaves: seq<HashValue>) {
    && ts.InEpoch? && KeepsSummary(ts) && ts.accumulator.numLeaves <= |leaves|
    && Represents(ts.accumulator, leaves[..ts.accumulator.numLeaves])
  }

  /** A server can extend the client's accumulator to any later ledger info, and the client follows the transactions there. */
  lemma ExtendTo(ts: TrustedState, leaves: seq<HashValue>, li: LedgerInfo, es: EpochState) returns (consistency: seq<HashValue>, truth: Accumulator)
    requires Follows(ts, leaves) && |leaves| <= MAX_ACCUMULATOR_LEAVES && HasTruth(li, leaves)
    requires ts.waypoint.version <= li.commitInfo.version
    ensures TryExtendWithProof(ts.accumulator, consistency, li) == Ok(truth)
    ensures Follows(InEpoch(NewAny(li), es, truth), leaves)
  {
    truth :| TruthAt(leaves, WaypointFields(li), truth);
    var row := leaves[..li.commitInfo.version + 1];
    var n := ts.accumulator.numLeaves;
    assert row[..n] == leaves[..n];
    consistency := ConsistencyProofExists(ts.accumulator, row, li, truth);
    var f :| RepresentsBy(truth, row, f);
    FlatSize(f, 0);
  }

  /** Where each portion ends; the client stands at c, and the last portion leads to the end of the history. */
  predicate Portions(lis: seq<LedgerInfoWithSignatures>, c: nat, ends: seq<nat>)
    decreases |ends|
  {
    && ends != [] && c < ends[0] <= |lis|
    && if |ends| == 1 then ends[0] == |lis| else Portions(lis, ends[0], ends[1..])
  }

  /** The latest ledger info that the servers show all along: signed in the epoch that the history leads to. */
  ghost predicate Newest(lis: seq<LedgerInfoWithSignatures>, latest: LedgerInfoWithSignatures, leaves: seq<HashValue>) {
    && lis != [] && Last(lis).ledgerInfo.EndsEpoch()
    && Accepts(ByEpoch(Opened(Last(lis))), latest) && !latest.ledgerInfo.EndsEpoch()
    && latest.ledgerInfo.commitInfo.version >= Last(lis).ledgerInfo.commitInfo.version
    && HasTruth(latest.ledgerInfo, leaves)
  }

  /** The answers of honest servers: the portion from where the client stands, and whether there is more. */
  predicate Honest(input: Input, lis: seq<LedgerInfoWithSignatures>, latest: LedgerInfoWithSignatures, c: nat, b: nat)
    requires c <= b <= |lis|
  {
    input.proof.latestLi == latest && input.proof.epochChanges == EpochChangeProof(lis[c..b], b < |lis|)
  }

  predicate AllHonest(inputs: seq<Input>, lis: seq<LedgerInfoWithSignatures>, latest: LedgerInfoWithSignatures, c: nat, ends: seq<nat>)
    requires Portions(lis, c, ends)
    decreases |ends|
  {
    && inputs != [] && Honest(inputs[0], lis, latest, c, ends[0])
    && if |ends| == 1 then |inputs| == 1 else AllHonest(inputs[1..], lis, latest, ends[0], ends[1..])
  }

  lemma PortionStep(ts: TrustedState, lis: seq<LedgerInfoWithSignatures>, c: nat, b: nat, latest: LedgerInfoWithSignatures, leaves: seq<HashValue>)
    returns (input: Input)
    requires EpochHistory(lis) && Truthful(lis, leaves) && Newest(lis, latest, leaves)
    requires Follows(ts, leaves) && StandsAt(ts.AsVerifier(), lis, c) && c < b < |lis|
    requires ts.waypoint.version <= lis[c].ledgerInfo.commitInfo.version
    ensures Honest(input, lis, latest, c, b)
    ensures var ts' := Next(ts, input);
            Follows(ts', leaves) && StandsAt(ts'.AsVerifier(), lis, b) && ts'.waypoint.version <= lis[b].ledgerInfo.commitInfo.version
  {
    var end := lis[b - 1];
    HistoryEpochs(lis, b - 1, |lis| - 1);
    assert Links(lis[b - 1], lis[b]);
    assert end.ledgerInfo.EndsEpoch() && Opened(end).epoch == end.ledgerInfo.commitInfo.epoch + 1;
    assert HasTruth(end.ledgerInfo, leaves);
    var consistency, truth := ExtendTo(ts, leaves, end.ledgerInfo, Opened(end));
    input := Input(StateProof(latest, EpochChangeProof(lis[c..b], true), consistency), None);
    PortionAdvances(ts, lis, c, c, b, latest, consistency, None, ts.accumulator, truth);
  }

  lemma LastPortion(ts: TrustedState, lis: seq<LedgerInfoWithSignatures>, c: nat, latest: LedgerInfoWithSignatures, leaves: seq<HashValue>)
    returns (input: Input)
    requires EpochHistory(lis) && Truthful(lis, leaves) && Newest(lis, latest, leaves)
    requires Follows(ts, leaves) && StandsAt(ts.AsVerifier(), lis, c)
    requires ts.waypoint.version <= lis[c].ledgerInfo.commitInfo.version
    ensures Honest(input, lis, latest, c, |lis|)
    ensures var ts' := Next(ts, input);
            Follows(ts', leaves) && ts'.waypoint == NewAny(latest.ledgerInfo) && ts'.epochState == Opened(Last(lis))
  {
    var consistency, truth := ExtendTo(ts, leaves, latest.ledgerInfo, Opened(Last(lis)));
    input := Input(StateProof(latest, EpochChangeProof(lis[c..|lis|], false), consistency), None);
    LatestIsReached(ts, lis, c, c, |lis|, latest, consistency, None, ts.accumulator, truth, false);
  }

  /**
    However far a client lags behind, and however small the portions in which
    it is served, honest answers bring it to the latest ledger info with the
    validators in office.
   */
  lemma {:induction false} CatchesUp(ts: TrustedState, lis: seq<LedgerInfoWithSignatures>, c: nat, ends: seq<nat>,
                                     latest: LedgerInfoWithSignatures, leaves: seq<HashValue>) returns (inputs: seq<Input>)
    requires EpochHistory(lis) && Truthful(lis, leaves) && Newest(lis, latest, leaves)
    requires Follows(ts, leaves) && StandsAt(ts.AsVerifier(), lis, c) && Portions(lis, c, ends)
    requires ts.waypoint.version <= lis[c].ledgerInfo.commitInfo.version
    ensures AllHonest(inputs, lis, latest, c, ends)
    ensures var ts' := Run(ts, inputs);
            Follows(ts', leaves) && ts'.waypoint == NewAny(latest.ledgerInfo) && ts'.epochState == Opened(Last(lis))
    decreases |ends|
  {
    if |ends| == 1 {
      var input := LastPortion(ts, lis, c, latest, leaves);
      inputs := [input];
      assert inputs[1..] == [];
    } else {
      var input := PortionStep(ts, lis, c, ends[0], latest, leaves);
      var rest := CatchesUp(Next(ts, input), lis, ends[0], ends[1..], latest, leaves);
      inputs := [input] + rest;
      assert inputs[1..] == rest;
    }
  }
}
