/**
  All epochs together, from one genesis ledger info.  A validator learns the
  validator set of an epoch from nothing but its stored waypoint and an
  unauthenticated proof of epoch changes; the set itself was committed by the
  epoch before.

  No history is assumed: the ledger infos that quorums sign in the course of a
  run are shown to form one, epoch by epoch, and with it commit safety in
  every epoch and agreement of the light clients.
 */
module GroundedConsensus {
  import opened Types
  import opened Certificates
  import opened EpochChanges
  import opened Accumulators
  import opened SafetyRulesModel
  import opened SafetyJournals
  import opened ConsensusSafety
  import opened EpochLedger
  import opened TrustedStates
  import L = LightClients

  /** The genesis ledger info, the epochs after it with their validators, and one run of everybody through all of them. */
  datatype World = World(genesis: Ledger2Waypoint, cfgs: seq<Config>, states: seq<System>, steps: seq<Step>)

  function SetOf(cfg: Config): EpochState {
    EpochState(cfg.epoch, cfg.verifier)
  }

  ghost predicate EpochsOk(w: World) {
    && w.cfgs != []
    && w.genesis.nextEpochState == Some(SetOf(w.cfgs[0]))
    && w.cfgs[0].epoch == w.genesis.epoch + 1
    && (forall k :: 0 <= k < |w.cfgs| ==> LedgerEpoch(w.cfgs[k]) && w.cfgs[k].epoch == w.cfgs[0].epoch + k)
  }

  // ----- the history a run produces ----------------------------------------

  ghost predicate IsEntry(w: World, sys: System, x: Ledger2Waypoint) {
    || x == w.genesis
    || exists k, li :: 0 <= k < |w.cfgs| && SignedIn(w.cfgs[k], sys, li) && x == WaypointFields(li.ledgerInfo)
  }

  ghost predicate Exists(w: World, sys: System, li: LedgerInfoWithSignatures) {
    forall k :: 0 <= k < |w.cfgs| ==> Authentic(w.cfgs[k], sys, li)
  }

  /** What quorums have signed so far, and the ledger infos that can be around. */
  ghost function HistoryAt(w: World, sys: System): L.History {
    L.History(iset x | IsEntry(w, sys, x), iset li | Exists(w, sys, li))
  }

  /** The validators of an epoch are those that a ledger info ending the epoch before brings in. */
  ghost predicate Succession(w: World, sys: System) {
    forall k :: 0 <= k < |w.cfgs| && HasEnded(w, sys, k) ==> k + 1 < |w.cfgs| && exists first :: Opens(w, sys, k, first)
  }

  ghost predicate HasEnded(w: World, sys: System, k: nat)
    requires k < |w.cfgs|
  {
    exists li :: SignedIn(w.cfgs[k], sys, li) && li.ledgerInfo.EndsEpoch()
  }

  ghost predicate Opens(w: World, sys: System, k: nat, li: LedgerInfoWithSignatures)
    requires k + 1 < |w.cfgs|
  {
    SignedIn(w.cfgs[k], sys, li) && li.ledgerInfo.commitInfo.nextEpochState == Some(SetOf(w.cfgs[k + 1]))
  }

  // ----- runs ------------------------------------------------------------

  /** The validator's waypoint is true, and so is the validator set it works with. */
  ghost predicate Grounded(h: L.History, s: SafetyState) {
    && L.OnHistoryVerifier(h, ByWaypoint(s.waypoint))
    && (s.epochState.Some? ==> L.IsEpochOf(h, s.epochState.value))
  }

  ghost predicate AllGrounded(h: L.History, sys: System) {
    forall a :: a in sys ==> Grounded(h, sys[a].state)
  }

  /** Any message at any time, with ledger infos that exist; correct validators vote on what they executed. */
  ghost predicate Happens(w: World, sys: System, step: Step) {
    && step.author in sys
    && (forall k :: 0 <= k < |w.cfgs| ==> Deliverable(w.cfgs[k], sys, step))
    && StepExecuted(step)
    && (step.InitializeStep? ==> L.AllShown(HistoryAt(w, sys), step.proof.ledgerInfos))
  }

  /** Everybody starts at the genesis waypoint. */
  ghost predicate Starts(w: World, sys: System) {
    && (forall k :: 0 <= k < |w.cfgs| ==> Initial(w.cfgs[k], sys))
    && (forall a :: a in sys ==> sys[a].state.waypoint == L.WaypointOf(w.genesis))
  }

  ghost predicate IsWorldRun(w: World) {
    && |w.states| == |w.steps| + 1
    && Starts(w, w.states[0])
    && (forall i :: 0 <= i < |w.states| ==> Succession(w, w.states[i]))
    && (forall i :: 0 <= i < |w.steps| ==> Happens(w, w.states[i], w.steps[i]) && w.states[i + 1] == Apply(w.states[i], w.steps[i]))
  }

  // ----- the history is one --------------------------------------------------

  /** Every epoch's protocol invariant, and blocks that follow execution. */
  ghost predicate ProtocolOk(w: World, sys: System) {
    VotesFollow(sys) && forall k :: 0 <= k < |w.cfgs| ==> Inv(w.cfgs[k], sys)
  }

  lemma EntryWitness(w: World, sys: System, x: Ledger2Waypoint) returns (k: nat, li: LedgerInfoWithSignatures)
    requires IsEntry(w, sys, x) && x != w.genesis
    ensures k < |w.cfgs| && SignedIn(w.cfgs[k], sys, li) && x == WaypointFields(li.ledgerInfo)
  {
    k, li :| 0 <= k < |w.cfgs| && SignedIn(w.cfgs[k], sys, li) && x == WaypointFields(li.ledgerInfo);
  }

  lemma EntryAdvances(w: World, sys: System, x: Ledger2Waypoint)
    requires EpochsOk(w) && ProtocolOk(w, sys) && IsEntry(w, sys, x) && x.nextEpochState.Some?
    ensures x.nextEpochState.value.epoch == x.epoch + 1
  {
    if x != w.genesis {
      var k, li := EntryWitness(w, sys, x);
      SignedAdvances(w.cfgs[k], sys, li);
    }
  }

  lemma EntriesAgree(w: World, sys: System, x: Ledger2Waypoint, y: Ledger2Waypoint)
    requires EpochsOk(w) && ProtocolOk(w, sys) && IsEntry(w, sys, x) && IsEntry(w, sys, y) && x.epoch == y.epoch
    ensures x.version == y.version ==> x == y
    ensures x.version < y.version ==> x.nextEpochState.None?
  {
    if x != w.genesis && y != w.genesis {
      var k, li := EntryWitness(w, sys, x);
      var l, mi := EntryWitness(w, sys, y);
      assert k == l;
      SignedAgree(w.cfgs[k], sys, li, mi);
    }
  }

  lemma HistoryIsOrdered(w: World, sys: System)
    requires EpochsOk(w) && ProtocolOk(w, sys)
    ensures L.Ordered(HistoryAt(w, sys))
  {
    forall x | IsEntry(w, sys, x) && x.nextEpochState.Some?
      ensures x.nextEpochState.value.epoch == x.epoch + 1
    {
      EntryAdvances(w, sys, x);
    }
    forall x, y | IsEntry(w, sys, x) && IsEntry(w, sys, y) && x.epoch == y.epoch
      ensures (x.version == y.version ==> x == y) && (x.version < y.version ==> x.nextEpochState.None?)
    {
      EntriesAgree(w, sys, x, y);
    }
  }

  /** Whatever ends an epoch brings in the validators of the next. */
  lemma EndOpensNext(w: World, sys: System, k: nat, li: LedgerInfoWithSignatures)
    requires EpochsOk(w) && ProtocolOk(w, sys) && Succession(w, sys)
    requires k < |w.cfgs| && SignedIn(w.cfgs[k], sys, li) && li.ledgerInfo.EndsEpoch()
    ensures k + 1 < |w.cfgs| && li.ledgerInfo.commitInfo.nextEpochState == Some(SetOf(w.cfgs[k + 1]))
  {
    assert HasEnded(w, sys, k);
    var first :| Opens(w, sys, k, first);
    SignedAgree(w.cfgs[k], sys, li, first);
    SignedAgree(w.cfgs[k], sys, first, li);
  }

  lemma BroughtInBy(w: World, sys: System, es: EpochState) returns (x: Ledger2Waypoint)
    requires L.IsEpochOf(HistoryAt(w, sys), es)
    ensures IsEntry(w, sys, x) && x.nextEpochState == Some(es)
  {
    x :| x in HistoryAt(w, sys).ledger && x.nextEpochState == Some(es);
  }

  lemma EntryOpensNext(w: World, sys: System, x: Ledger2Waypoint) returns (k: nat)
    requires EpochsOk(w) && ProtocolOk(w, sys) && Succession(w, sys) && IsEntry(w, sys, x) && x.nextEpochState.Some?
    ensures k < |w.cfgs| && x.nextEpochState == Some(SetOf(w.cfgs[k]))
  {
    if x == w.genesis {
      k := 0;
    } else {
      var j, li := EntryWitness(w, sys, x);
      EndOpensNext(w, sys, j, li);
      k := j + 1;
    }
  }

  /** The validator sets brought in are those of the epochs. */
  lemma EpochIsOurs(w: World, sys: System, es: EpochState) returns (k: nat)
    requires EpochsOk(w) && ProtocolOk(w, sys) && Succession(w, sys) && L.IsEpochOf(HistoryAt(w, sys), es)
    ensures k < |w.cfgs| && es == SetOf(w.cfgs[k])
  {
    var x := BroughtInBy(w, sys, es);
    k := EntryOpensNext(w, sys, x);
  }

  lemma HistoryIsTrue(w: World, sys: System)
    requires EpochsOk(w) && ProtocolOk(w, sys) && Succession(w, sys)
    ensures L.TrueHistory(HistoryAt(w, sys))
  {
    var h := HistoryAt(w, sys);
    HistoryIsOrdered(w, sys);
    forall es, li | L.IsEpochOf(h, es) && li in h.shown && Accepts(ByEpoch(es), li)
      ensures L.InHistory(h, li.ledgerInfo)
    {
      var k := EpochIsOurs(w, sys, es);
      assert SignedIn(w.cfgs[k], sys, li);
    }
  }

  // ----- every step keeps it -------------------------------------------------

  /** Initialisation from whatever proof the storage hands out keeps the validator on the true history. */
  lemma InitializeStaysGrounded(h: L.History, s: SafetyState, proof: EpochChangeProof, env: InitEnv)
    requires WaypointHashInjective() && L.TrueHistory(h) && L.AllShown(h, proof.ledgerInfos) && Grounded(h, s)
    ensures Grounded(h, Initialize(s, proof, env).1)
  {
    var v := ByWaypoint(s.waypoint);
    if VerifyProof(v, proof.ledgerInfos).Ok? {
      L.ProofStaysOnHistory(h, v, proof.ledgerInfos);
      var last := Last(proof.ledgerInfos).ledgerInfo;
      assert NewAny(last) == L.WaypointOf(WaypointFields(last));
      assert WaypointFields(last) in h.ledger && WaypointFields(last).nextEpochState.Some?;
    }
  }

  lemma StepStaysGrounded(h: L.History, j: Journal, step: Step)
    requires WaypointHashInjective() && L.TrueHistory(h) && Grounded(h, j.state)
    requires step.InitializeStep? ==> L.AllShown(h, step.proof.ledgerInfos)
    ensures Grounded(h, ApplyTo(j, step).state)
  {
    if step.InitializeStep? {
      InitializeStaysGrounded(h, j.state, step.proof, step.initEnv);
    }
  }

  lemma EntriesStay(w: World, sys: System, sys': System, x: Ledger2Waypoint)
    requires Grows(sys, sys') && IsEntry(w, sys, x)
    ensures IsEntry(w, sys', x)
  {
    if x != w.genesis {
      var k, li := EntryWitness(w, sys, x);
      AuthenticGrows(w.cfgs[k], sys, sys', li);
      assert SignedIn(w.cfgs[k], sys', li);
    }
  }

  lemma GroundedStays(w: World, sys: System, sys': System, s: SafetyState)
    requires Grows(sys, sys') && Grounded(HistoryAt(w, sys), s)
    ensures Grounded(HistoryAt(w, sys'), s)
  {
    forall x | IsEntry(w, sys, x)
      ensures IsEntry(w, sys', x)
    {
      EntriesStay(w, sys, sys', x);
    }
    var x :| IsEntry(w, sys, x) && x.nextEpochState.Some? && s.waypoint == L.WaypointOf(x);
    assert x in HistoryAt(w, sys').ledger;
    if s.epochState.Some? {
      var y :| IsEntry(w, sys, y) && y.nextEpochState == s.epochState;
      assert y in HistoryAt(w, sys').ledger;
    }
  }

  ghost predicate WorldInv(w: World, sys: System) {
    ProtocolOk(w, sys) && AllGrounded(HistoryAt(w, sys), sys)
  }

  /** After an initialisation the validator works with the epoch's own validator set, in each epoch. */
  lemma StepIsEnabled(w: World, sys: System, step: Step, k: nat)
    requires WaypointHashInjective() && EpochsOk(w) && Succession(w, sys) && WorldInv(w, sys) && Happens(w, sys, step)
    requires k < |w.cfgs|
    ensures Enabled(w.cfgs[k], sys, step)
  {
    assert Deliverable(w.cfgs[k], sys, step);
    if step.InitializeStep? {
      var s := sys[step.author].state;
      var s' := Initialize(s, step.proof, step.initEnv).1;
      HistoryIsTrue(w, sys);
      InitializeStaysGrounded(HistoryAt(w, sys), s, step.proof, step.initEnv);
      if s'.epochState.Some? && s'.epochState.value.epoch == w.cfgs[k].epoch {
        var l := EpochIsOurs(w, sys, s'.epochState.value);
        assert l == k;
      }
    }
  }

  lemma StepKeepsProtocol(w: World, sys: System, step: Step)
    requires WaypointHashInjective() && EpochsOk(w) && Succession(w, sys) && WorldInv(w, sys) && Happens(w, sys, step)
    ensures ProtocolOk(w, Apply(sys, step))
  {
    StepKeepsFollow(sys, step);
    forall k | 0 <= k < |w.cfgs|
      ensures Inv(w.cfgs[k], Apply(sys, step))
    {
      StepIsEnabled(w, sys, step, k);
      StepKeepsInv(w.cfgs[k], sys, step);
    }
  }

  lemma StepKeepsGrounded(w: World, sys: System, step: Step)
    requires WaypointHashInjective() && EpochsOk(w) && Succession(w, sys) && WorldInv(w, sys) && Happens(w, sys, step)
    ensures AllGrounded(HistoryAt(w, Apply(sys, step)), Apply(sys, step))
  {
    var sys' := Apply(sys, step);
    HistoryIsTrue(w, sys);
    ApplyGrows(sys, step);
    forall a | a in sys'
      ensures Grounded(HistoryAt(w, sys'), sys'[a].state)
    {
      if a == step.author {
        StepStaysGrounded(HistoryAt(w, sys), sys[a], step);
      }
      GroundedStays(w, sys, sys', sys'[a].state);
    }
  }

  lemma StartIsOk(w: World, sys: System)
    requires EpochsOk(w) && Starts(w, sys)
    ensures WorldInv(w, sys)
  {
    assert Initial(w.cfgs[0], sys);
    forall k | 0 <= k < |w.cfgs|
      ensures Inv(w.cfgs[k], sys)
    {
      InitialInv(w.cfgs[k], sys);
    }
    assert w.genesis in HistoryAt(w, sys).ledger;
  }

  lemma {:induction false} WorldInvHolds(w: World, i: nat)
    requires WaypointHashInjective() && EpochsOk(w) && IsWorldRun(w) && i < |w.states|
    ensures WorldInv(w, w.states[i])
  {
    if i == 0 {
      StartIsOk(w, w.states[0]);
    } else {
      WorldInvHolds(w, i - 1);
      StepKeepsProtocol(w, w.states[i - 1], w.steps[i - 1]);
      StepKeepsGrounded(w, w.states[i - 1], w.steps[i - 1]);
    }
  }

  // ----- the results -----------------------------------------------------

  /** At any time what quorums have signed, in all epochs together, is one true history. */
  lemma ProtocolMakesHistory(w: World, i: nat)
    requires WaypointHashInjective() && EpochsOk(w) && IsWorldRun(w) && i < |w.states|
    ensures L.TrueHistory(HistoryAt(w, w.states[i]))
  {
    WorldInvHolds(w, i);
    HistoryIsTrue(w, w.states[i]);
  }

  /** In each epoch the run is one of the protocol with the epoch's own validators. */
  lemma WorldIsRun(w: World, k: nat)
    requires WaypointHashInjective() && EpochsOk(w) && IsWorldRun(w) && k < |w.cfgs|
    ensures IsRun(w.cfgs[k], w.states, w.steps)
  {
    forall i | 0 <= i < |w.steps|
      ensures Enabled(w.cfgs[k], w.states[i], w.steps[i])
    {
      WorldInvHolds(w, i);
      StepIsEnabled(w, w.states[i], w.steps[i], k);
    }
  }

  /** Commit safety in every epoch, from the genesis waypoint. */
  lemma CommitSafetyFromWaypoints(w: World, k: nat, i: nat, j: nat, q: QuorumCert, r: QuorumCert)
    requires WaypointHashInjective() && EpochsOk(w) && IsWorldRun(w) && k < |w.cfgs| && i <= j < |w.states|
    requires IsCommitCertificate(w.cfgs[k], w.states[i], q) && IsCommitCertificate(w.cfgs[k], w.states[j], r)
    ensures || Extends(w.cfgs[k], w.states[j], q.CommitInfo(), r.CommitInfo())
            || Extends(w.cfgs[k], w.states[j], r.CommitInfo(), q.CommitInfo())
  {
    WorldIsRun(w, k);
    CommitSafety(w.cfgs[k], w.states, w.steps, i, j, q, r);
  }

  /**
    Light clients of the protocol: started at the genesis waypoint and fed
    whatever ledger infos are around, put together in any way, they agree.
   */
  lemma ClientsOfTheProtocolAgree(w: World, i: nat, xs: seq<Input>, ys: seq<Input>)
    requires WaypointHashInjective() && EpochsOk(w) && IsWorldRun(w) && i < |w.states|
    requires L.InputsShown(HistoryAt(w, w.states[i]), xs) && L.InputsShown(HistoryAt(w, w.states[i]), ys)
    ensures var start := AtWaypoint(L.WaypointOf(w.genesis));
            var x, y := Run(start, xs), Run(start, ys);
            && (x.waypoint == y.waypoint <==> L.SamePlace(HistoryAt(w, w.states[i]), x, y))
            && (x.InEpoch? && y.InEpoch? && x.epochState.epoch == y.epochState.epoch ==> x.epochState == y.epochState)
  {
    var h, start := HistoryAt(w, w.states[i]), L.WaypointOf(w.genesis);
    ProtocolMakesHistory(w, i);
    assert w.genesis in h.ledger;
    assert L.Trusts(h, AtWaypoint(start), w.genesis);
    L.LightClientAgreement(h, start, xs, ys);
  }

  /**
    Between two epochs the version alone does not tell the ledger info: the
    votes of the first round commit the epoch's genesis block, at the version
    at which the epoch before ended.  Once a quorum has voted, two clients from
    one waypoint can hold different waypoints there.
   */
  lemma FirstVotesSplitClients(block: Block, last: LedgerInfoWithSignatures, es: EpochState, hash: HashValue,
                               signatures: map<Address, Signature>, acc: Accumulator)
    requires WaypointHashInjective() && block.data.round == 1
    requires last.ledgerInfo.commitInfo.nextEpochState == Some(es) && es.epoch == last.ledgerInfo.commitInfo.epoch + 1
    requires var genesis := block.data.quorumCert.CertifiedBlock();
             && genesis.round == 0 && genesis.epoch == es.epoch
             && genesis.version == last.ledgerInfo.commitInfo.version
             && genesis.executedStateId == last.ledgerInfo.commitInfo.executedStateId
    requires L.Summary(acc) && acc.numLeaves <= MAX_ACCUMULATOR_LEAVES && VerifyConsistency(acc, last.ledgerInfo)
    requires LedgerInfo2Chain(block, hash).Ok? ==>
               LedgerInfoVerify(es.verifier, LedgerInfoWithSignatures(LedgerInfo2Chain(block, hash).value, signatures))
    ensures LedgerInfo2Chain(block, hash).Ok?
    ensures var next := LedgerInfoWithSignatures(LedgerInfo2Chain(block, hash).value, signatures);
            var start := AtWaypoint(NewAny(last.ledgerInfo));
            var x, y := TrustedStates.Next(start, L.Over(last, last, acc)), TrustedStates.Next(start, L.Over(last, next, acc));
            && next.ledgerInfo.commitInfo == block.data.quorumCert.CertifiedBlock()
            && x.InEpoch? && y.InEpoch? && x.epochState == y.epochState == es && x.accumulator == y.accumulator
            && x.waypoint.version == y.waypoint.version && x.waypoint != y.waypoint
  {
    var next := LedgerInfoWithSignatures(LedgerInfo2Chain(block, hash).value, signatures);
    L.BoundaryClientsDiffer(last, next, es, acc);
  }
}
