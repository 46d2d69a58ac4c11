/**
  consensus/src/round_manager.rs with liveness/round_state.rs: how one
  validator turns proposals and local timeouts into votes, round by round.

  The proposer election, the block store, the clock, the consensus database
  and the network are inputs (`Outside`); what is handed to the network is
  collected in `sent`.
 */
module RoundManagers {
  import opened Types
  import opened EpochChanges
  import opened SafetyRulesModel
  import opened SafetyJournals

  datatype Outside = Outside(
    validProposal: bool,
    deadline: U64,
    inserted: bool,
    syncOnly: bool,
    saved: bool,
    highestQc: QuorumCert,
    highestTc: Option<TwoChainTimeoutCertificate>,
    nilNextEpoch: Option<EpochState>,
    nilExtension: Option<(HashValue, U64)>,
    nilSignature: Option<Signature>,
    decoupled: bool,
    voteEnv: Env,
    timeoutEnv: Env)

  /** Round state, safety rules with their journal, the vote kept in the database, and the votes sent so far. */
  datatype Manager = Manager(
    currentRound: U64,
    voteSent: Option<Vote>,
    journal: Journal,
    stored: Option<Vote>,
    sent: seq<Vote>)

  // ----- round state -----------------------------------------------------

  function RecordVote(m: Manager, vote: Vote): Manager {
    if vote.Round() == m.currentRound then m.(voteSent := Some(vote)) else m
  }

  /** A new round starts after the highest certified or timed out round, and forgets the vote of the old one. */
  function ProcessCertificates(m: Manager, highestRound: U64): Manager {
    var newRound := Wrap(highestRound + 1);
    if newRound > m.currentRound then m.(currentRound := newRound, voteSent := None) else m
  }

  // ----- voting ----------------------------------------------------------

  function Ask(j: Journal, twoChain: bool, p: VoteProposal, out: Outside): (Result<Vote, SafetyError>, Journal) {
    if twoChain
    then (VoteOf(VoteTwoChain(j.state, p, out.highestTc, out.voteEnv)), StepVoteTwoChain(j, p, out.highestTc, out.voteEnv))
    else (VoteOf(VoteThreeChain(j.state, p, out.voteEnv)), StepVoteThreeChain(j, p, out.voteEnv))
  }

  function ExecuteAndVote(m: Manager, twoChain: bool, p: VoteProposal, out: Outside): (Option<Vote>, Manager) {
    if !out.inserted || m.voteSent.Some? || out.syncOnly then (None, m)
    else
      var (r, journal) := Ask(m.journal, twoChain, p, out);
      if r.Err? || !out.saved then (None, m.(journal := journal))
      else (Some(r.value), m.(journal := journal, stored := Some(r.value)))
  }

  function ProcessProposal(m: Manager, twoChain: bool, p: VoteProposal, out: Outside): Manager {
    if !out.validProposal || p.block.data.timestampUsecs >= out.deadline then m
    else
      var (vote, m') := ExecuteAndVote(m, twoChain, p, out);
      if vote.None? then m' else RecordVote(m', vote.value).(sent := m'.sent + [vote.value])
  }

  /** Sync up first; only a proposal of the round we are then in is voted on. */
  function ProcessProposalMsg(m: Manager, twoChain: bool, p: VoteProposal, highestRound: U64, out: Outside): Manager {
    if p.block.data.round < m.currentRound then m
    else
      var m' := ProcessCertificates(m, highestRound);
      if p.block.data.round != m'.currentRound then m' else ProcessProposal(m', twoChain, p, out)
  }

  // ----- local timeouts --------------------------------------------------

  function NewNil(round: U64, qc: QuorumCert): Block {
    var data := BlockData(qc.CertifiedBlock().epoch, round, qc.CertifiedBlock().timestampUsecs, qc, NilBlock);
    Block(BlockHash(data), data, None)
  }

  /** The vote of this round if there is one, otherwise a vote for a NIL block. */
  function TimeoutBallot(m: Manager, twoChain: bool, round: U64, out: Outside): (Option<Vote>, Manager) {
    if m.voteSent.Some? && m.voteSent.value.Round() == round then (m.voteSent, m)
    else if out.highestQc.CertifiedBlock().round >= round || out.highestQc.signedLedgerInfo.ledgerInfo.EndsEpoch() then (None, m)
    else
      ExecuteAndVote(m, twoChain, VoteProposal(NewNil(round, out.highestQc), out.nilNextEpoch, out.nilExtension, out.decoupled, out.nilSignature), out)
  }

  function SignTimeoutOn(j: Journal, twoChain: bool, vote: Vote, out: Outside): (Option<Vote>, Journal) {
    if vote.IsTimeout() then (Some(vote), j)
    else if twoChain then
      var timeout := TwoChainTimeout(vote.Epoch(), vote.Round(), out.highestQc);
      var r := TimeoutTwoChain(j.state, timeout, out.highestTc, out.timeoutEnv).0;
      (if r.Ok? then Some(vote.(twoChainTimeout := Some((timeout, r.value)))) else None,
       StepTimeoutTwoChain(j, timeout, out.highestTc, out.timeoutEnv))
    else
      var timeout := vote.GenerateTimeout();
      var r := TimeoutThreeChain(j.state, timeout, out.timeoutEnv).0;
      (if r.Ok? then Some(vote.(timeoutSignature := Some(r.value))) else None,
       StepTimeoutThreeChain(j, timeout, out.timeoutEnv))
  }

  function SendWithTimeout(m: Manager, twoChain: bool, ballot: Vote, out: Outside): Manager {
    var (vote, journal) := SignTimeoutOn(m.journal, twoChain, ballot, out);
    var m' := m.(journal := journal);
    if vote.None? then m' else RecordVote(m', vote.value).(sent := m'.sent + [vote.value])
  }

  function ProcessLocalTimeout(m: Manager, twoChain: bool, round: U64, out: Outside): Manager {
    if round != m.currentRound || out.syncOnly then m
    else
      var (ballot, m') := TimeoutBallot(m, twoChain, round, out);
      if ballot.None? then m' else SendWithTimeout(m', twoChain, ballot.value, out)
  }

  // ----- restarts and initialisation of the safety rules -------------------

  /** A crash keeps the safety data and the database; the stored vote counts if its epoch is still current. */
  function Restart(m: Manager, highestRound: U64, epoch: U64): Manager {
    var m' := ProcessCertificates(m.(currentRound := 0, voteSent := None, journal := StepRestart(m.journal)), highestRound);
    if m.stored.Some? && m.stored.value.Epoch() == epoch then RecordVote(m', m.stored.value) else m'
  }

  datatype Event =
    | ProposalEvent(proposal: VoteProposal, highestRound: U64, out: Outside)
    | TimeoutEvent(round: U64, out: Outside)
    | CertificatesEvent(highestRound: U64)
    | InitializeEvent(proof: EpochChangeProof, env: InitEnv)
    | RestartEvent(highestRound: U64, epoch: U64)

  function Handle(m: Manager, twoChain: bool, e: Event): Manager {
    match e
    case ProposalEvent(p, highest, out) => ProcessProposalMsg(m, twoChain, p, highest, out)
    case TimeoutEvent(round, out) => ProcessLocalTimeout(m, twoChain, round, out)
    case CertificatesEvent(highest) => ProcessCertificates(m, highest)
    case InitializeEvent(proof, env) => m.(journal := StepInitialize(m.journal, proof, env))
    case RestartEvent(highest, epoch) => Restart(m, highest, epoch)
  }

  /** The commit rule is a setting of the epoch, so each event comes with the one in force. */
  function HandleAll(m: Manager, events: seq<(Event, bool)>): Manager {
    if events == [] then m
    else
      var n := |events| - 1;
      Handle(HandleAll(m, events[..n]), events[n].1, events[n].0)
  }

  // ----- the invariant ---------------------------------------------------

  ghost predicate AllRecorded(j: Journal, sent: seq<Vote>) {
    forall i :: 0 <= i < |sent| ==> Recorded(j, sent[i])
  }

  /** Everything sent, remembered or stored is a vote the safety rules signed. */
  ghost predicate Faithful(m: Manager) {
    && Sound(m.journal)
    && AllRecorded(m.journal, m.sent)
    && (m.voteSent.Some? ==> Recorded(m.journal, m.voteSent.value) && m.voteSent.value.Round() == m.currentRound)
    && (m.stored.Some? ==> Recorded(m.journal, m.stored.value))
  }

  lemma RecordedStays(j: Journal, j': Journal, vote: Vote)
    requires Recorded(j, vote) && j.votes <= j'.votes && j.state.author == j'.state.author
    ensures Recorded(j', vote)
  {
    var c :| c in j.votes && SameVote(c, vote);
    assert c in j'.votes;
  }

  /** A manager stays faithful when its journal grows soundly. */
  lemma GrowthKeepsFaithful(m: Manager, journal: Journal)
    requires Faithful(m) && Sound(journal) && m.journal.votes <= journal.votes && m.journal.state.author == journal.state.author
    ensures Faithful(m.(journal := journal))
  {
    forall i | 0 <= i < |m.sent|
      ensures Recorded(journal, m.sent[i])
    {
      RecordedStays(m.journal, journal, m.sent[i]);
    }
    if m.voteSent.Some? {
      RecordedStays(m.journal, journal, m.voteSent.value);
    }
    if m.stored.Some? {
      RecordedStays(m.journal, journal, m.stored.value);
    }
  }

  lemma AskKeeps(j: Journal, twoChain: bool, p: VoteProposal, out: Outside)
    requires Sound(j)
    ensures var (r, j') := Ask(j, twoChain, p, out);
            Sound(j') && j.votes <= j'.votes && j.state.author == j'.state.author && (r.Ok? ==> Recorded(j', r.value) && IsOwn(j.state, r.value) && r.value.Round() == p.block.data.round)
  {
    if twoChain {
      VoteTwoChainKeepsSound(j, p, out.highestTc, out.voteEnv);
      if VoteTwoChain(j.state, p, out.highestTc, out.voteEnv).Ok? {
        TwoChainHandsOutRecorded(j, p, out.highestTc, out.voteEnv);
      }
    } else {
      VoteThreeChainKeepsSound(j, p, out.voteEnv);
      if VoteThreeChain(j.state, p, out.voteEnv).Ok? {
        ThreeChainHandsOutRecorded(j, p, out.voteEnv);
      }
    }
  }

  lemma ExecuteAndVoteKeeps(m: Manager, twoChain: bool, p: VoteProposal, out: Outside)
    requires Faithful(m)
    ensures var (vote, m') := ExecuteAndVote(m, twoChain, p, out);
            && Faithful(m') && m'.currentRound == m.currentRound && m'.voteSent == m.voteSent && m'.sent == m.sent
            && (vote.Some? ==> Recorded(m'.journal, vote.value) && IsOwn(m.journal.state, vote.value) && vote.value.Round() == p.block.data.round)
  {
    AskKeeps(m.journal, twoChain, p, out);
    GrowthKeepsFaithful(m, Ask(m.journal, twoChain, p, out).1);
  }

  lemma SendKeeps(m: Manager, vote: Vote)
    requires Faithful(m) && Recorded(m.journal, vote)
    ensures Faithful(RecordVote(m, vote).(sent := m.sent + [vote]))
  {
  }

  lemma SignTimeoutKeeps(j: Journal, twoChain: bool, vote: Vote, out: Outside)
    requires Sound(j) && Recorded(j, vote)
    ensures var (signed, j') := SignTimeoutOn(j, twoChain, vote, out);
            Sound(j') && j'.votes == j.votes && j'.state.author == j.state.author && (signed.Some? ==> Recorded(j', signed.value))
  {
    var c :| c in j.votes && SameVote(c, vote);
    var (signed, j') := SignTimeoutOn(j, twoChain, vote, out);
    if !vote.IsTimeout() {
      if twoChain {
        TimeoutTwoChainKeepsSound(j, TwoChainTimeout(vote.Epoch(), vote.Round(), out.highestQc), out.highestTc, out.timeoutEnv);
      } else {
        TimeoutThreeChainKeepsSound(j, vote.GenerateTimeout(), out.timeoutEnv);
      }
    }
    assert signed.Some? ==> SameVote(c, signed.value);
  }

  lemma BallotKeeps(m: Manager, twoChain: bool, round: U64, out: Outside)
    requires Faithful(m)
    ensures var (ballot, m') := TimeoutBallot(m, twoChain, round, out);
            Faithful(m') && (ballot.Some? ==> Recorded(m'.journal, ballot.value))
  {
    var p := VoteProposal(NewNil(round, out.highestQc), out.nilNextEpoch, out.nilExtension, out.decoupled, out.nilSignature);
    ExecuteAndVoteKeeps(m, twoChain, p, out);
  }

  lemma SendWithTimeoutKeeps(m: Manager, twoChain: bool, ballot: Vote, out: Outside)
    requires Faithful(m) && Recorded(m.journal, ballot)
    ensures Faithful(SendWithTimeout(m, twoChain, ballot, out))
  {
    SignTimeoutKeeps(m.journal, twoChain, ballot, out);
    var (vote, journal) := SignTimeoutOn(m.journal, twoChain, ballot, out);
    GrowthKeepsFaithful(m, journal);
    if vote.Some? {
      SendKeeps(m.(journal := journal), vote.value);
    }
  }

  lemma TimeoutKeepsFaithful(m: Manager, twoChain: bool, round: U64, out: Outside)
    requires Faithful(m)
    ensures Faithful(ProcessLocalTimeout(m, twoChain, round, out))
  {
    BallotKeeps(m, twoChain, round, out);
    var (ballot, m') := TimeoutBallot(m, twoChain, round, out);
    if ballot.Some? {
      SendWithTimeoutKeeps(m', twoChain, ballot.value, out);
    }
  }

  lemma ProposalKeepsFaithful(m: Manager, twoChain: bool, p: VoteProposal, out: Outside)
    requires Faithful(m)
    ensures Faithful(ProcessProposal(m, twoChain, p, out))
  {
    ExecuteAndVoteKeeps(m, twoChain, p, out);
    var (vote, m') := ExecuteAndVote(m, twoChain, p, out);
    if vote.Some? {
      SendKeeps(m', vote.value);
    }
  }

  lemma CertificatesKeepFaithful(m: Manager, highestRound: U64)
    requires Faithful(m)
    ensures Faithful(ProcessCertificates(m, highestRound))
  {
  }

  lemma RestartKeepsFaithful(m: Manager, highestRound: U64, epoch: U64)
    requires Faithful(m)
    ensures Faithful(Restart(m, highestRound, epoch))
  {
    RestartKeepsSound(m.journal);
    GrowthKeepsFaithful(m, StepRestart(m.journal));
    var m' := m.(currentRound := 0, voteSent := None, journal := StepRestart(m.journal));
    CertificatesKeepFaithful(m', highestRound);
  }

  lemma HandleKeepsFaithful(m: Manager, twoChain: bool, e: Event)
    requires Faithful(m)
    ensures Faithful(Handle(m, twoChain, e))
  {
    match e {
      case ProposalEvent(p, highest, out) =>
        CertificatesKeepFaithful(m, highest);
        ProposalKeepsFaithful(ProcessCertificates(m, highest), twoChain, p, out);
      case TimeoutEvent(round, out) => TimeoutKeepsFaithful(m, twoChain, round, out);
      case CertificatesEvent(highest) => CertificatesKeepFaithful(m, highest);
      case InitializeEvent(proof, env) =>
        InitializeKeepsSound(m.journal, proof, env);
        GrowthKeepsFaithful(m, StepInitialize(m.journal, proof, env));
      case RestartEvent(highest, epoch) => RestartKeepsFaithful(m, highest, epoch);
    }
  }

  lemma {:induction false} RunKeepsFaithful(m: Manager, events: seq<(Event, bool)>)
    requires Faithful(m)
    ensures Faithful(HandleAll(m, events))
  {
    if events != [] {
      var n := |events| - 1;
      RunKeepsFaithful(m, events[..n]);
      HandleKeepsFaithful(HandleAll(m, events[..n]), events[n].1, events[n].0);
    }
  }

  /**
    In every run of proposals, timeouts, new rounds, re-initialisations and
    crashes, all votes a validator sends for a round, be they plain, for a NIL
    block or repeated with a timeout, carry the same ledger info.
   */
  lemma NeverEquivocates(m: Manager, events: seq<(Event, bool)>, i: nat, k: nat)
    requires Faithful(m)
    requires i < |HandleAll(m, events).sent| && k < |HandleAll(m, events).sent|
    ensures var x, y := HandleAll(m, events).sent[i], HandleAll(m, events).sent[k];
            x.Epoch() == y.Epoch() && x.Round() == y.Round() ==> x.ledgerInfo == y.ledgerInfo && x.voteData == y.voteData
  {
    RunKeepsFaithful(m, events);
    var m' := HandleAll(m, events);
    assert Recorded(m'.journal, m'.sent[i]) && Recorded(m'.journal, m'.sent[k]);
    var c :| c in m'.journal.votes && SameVote(c, m'.sent[i]);
    var d :| d in m'.journal.votes && SameVote(d, m'.sent[k]);
    assert OneVotePerRound(m'.journal.votes);
  }

  /** As the constructor makes it, for a validator that has signed nothing yet. */
  function Fresh(state: SafetyState): Manager {
    Manager(0, None, Journal(state, {}, {}), None, [])
  }

  lemma FreshNeverEquivocates(state: SafetyState, events: seq<(Event, bool)>, i: nat, k: nat)
    requires state.data.lastVote.None? && state.epochState.None?
    requires i < |HandleAll(Fresh(state), events).sent| && k < |HandleAll(Fresh(state), events).sent|
    ensures var x, y := HandleAll(Fresh(state), events).sent[i], HandleAll(Fresh(state), events).sent[k];
            x.Epoch() == y.Epoch() && x.Round() == y.Round() ==> x.ledgerInfo == y.ledgerInfo && x.voteData == y.voteData
  {
    NeverEquivocates(Fresh(state), events, i, k);
  }

  // ----- what is sent, and when ----------------------------------------------

  /** The round entered is the one after the highest certified or given up, never an earlier one; a new round has no vote. */
  lemma EntersNextRound(m: Manager, highestRound: U64)
    ensures var m' := ProcessCertificates(m, highestRound);
            && (m.currentRound <= highestRound < U64_MAX ==> m'.currentRound == highestRound + 1 && m'.voteSent.None?)
            && (highestRound < m.currentRound || highestRound == U64_MAX ==> m' == m)
  {
  }

  /** Nothing was sent in the round yet, and all concerned go along with the block. */
  predicate Votes(m: Manager, twoChain: bool, p: VoteProposal, out: Outside) {
    out.inserted && m.voteSent.None? && !out.syncOnly && Ask(m.journal, twoChain, p, out).0.Ok? && out.saved
  }

  lemma ExecuteOutcome(m: Manager, twoChain: bool, p: VoteProposal, out: Outside)
    ensures var (vote, m') := ExecuteAndVote(m, twoChain, p, out);
            && m'.sent == m.sent && m'.currentRound == m.currentRound && m'.voteSent == m.voteSent
            && if Votes(m, twoChain, p, out) then vote == Some(Ask(m.journal, twoChain, p, out).0.value) && m'.stored == vote
               else vote.None? && m'.stored == m.stored
  {
  }

  lemma EnteredSends(m: Manager, twoChain: bool, p: VoteProposal, out: Outside, vote: Vote)
    requires Votes(m, twoChain, p, out) && vote == Ask(m.journal, twoChain, p, out).0.value
    requires vote.Round() == m.currentRound && out.validProposal && p.block.data.timestampUsecs < out.deadline
    ensures var m' := ProcessProposal(m, twoChain, p, out);
            m'.sent == m.sent + [vote] && m'.voteSent == Some(vote) && m'.stored == Some(vote)
  {
    ExecuteOutcome(m, twoChain, p, out);
  }

  lemma EnteredSilent(m: Manager, twoChain: bool, p: VoteProposal, out: Outside)
    requires !(out.validProposal && p.block.data.timestampUsecs < out.deadline && Votes(m, twoChain, p, out))
    ensures ProcessProposal(m, twoChain, p, out).sent == m.sent
  {
    ExecuteOutcome(m, twoChain, p, out);
  }

  /** A proposal of the round entered, by its proposer and in time. */
  predicate TakesProposal(m: Manager, twoChain: bool, p: VoteProposal, highestRound: U64, out: Outside) {
    && m.currentRound <= p.block.data.round == ProcessCertificates(m, highestRound).currentRound
    && out.validProposal && p.block.data.timestampUsecs < out.deadline
    && Votes(ProcessCertificates(m, highestRound), twoChain, p, out)
  }

  /** Such a proposal is voted on: one vote of its round is stored, remembered and sent. */
  lemma ProposalSends(m: Manager, twoChain: bool, p: VoteProposal, highestRound: U64, out: Outside)
    requires Faithful(m) && TakesProposal(m, twoChain, p, highestRound, out)
    ensures var m' := ProcessProposalMsg(m, twoChain, p, highestRound, out);
            var vote := Ask(m.journal, twoChain, p, out).0.value;
            && vote.Round() == p.block.data.round && vote.author == m.journal.state.author && !vote.IsTimeout()
            && m'.sent == m.sent + [vote] && m'.voteSent == Some(vote) && m'.stored == Some(vote)
  {
    AskKeeps(m.journal, twoChain, p, out);
    EnteredSends(ProcessCertificates(m, highestRound), twoChain, p, out, Ask(m.journal, twoChain, p, out).0.value);
  }

  /** On any other proposal nothing is sent. */
  lemma ProposalSilent(m: Manager, twoChain: bool, p: VoteProposal, highestRound: U64, out: Outside)
    requires !TakesProposal(m, twoChain, p, highestRound, out)
    ensures ProcessProposalMsg(m, twoChain, p, highestRound, out).sent == m.sent
  {
    var entered := ProcessCertificates(m, highestRound);
    if m.currentRound <= p.block.data.round == entered.currentRound {
      EnteredSilent(entered, twoChain, p, out);
    }
  }

  /** There is a vote to repeat or a NIL block to vote for, and the safety rules sign the timeout. */
  ghost predicate SignsTimeout(m: Manager, twoChain: bool, round: U64, out: Outside) {
    var (ballot, m') := TimeoutBallot(m, twoChain, round, out);
    round == m.currentRound && !out.syncOnly && ballot.Some? && SignTimeoutOn(m'.journal, twoChain, ballot.value, out).0.Some?
  }

  /** The timeout of the protocol in force, on the highest certificate known. */
  predicate CarriesTimeout(vote: Vote, twoChain: bool, highestQc: QuorumCert) {
    if twoChain then
      vote.twoChainTimeout.Some? && vote.twoChainTimeout.value.0 == TwoChainTimeout(vote.Epoch(), vote.Round(), highestQc)
    else vote.timeoutSignature.Some?
  }

  lemma SignedTimeout(j: Journal, twoChain: bool, vote: Vote, out: Outside)
    requires SignTimeoutOn(j, twoChain, vote, out).0.Some?
    ensures var signed := SignTimeoutOn(j, twoChain, vote, out).0.value;
            && signed.IsTimeout() && signed.voteData == vote.voteData && signed.ledgerInfo == vote.ledgerInfo
            && signed.author == vote.author && signed.signature == vote.signature
            && (if vote.IsTimeout() then signed == vote else CarriesTimeout(signed, twoChain, out.highestQc))
  {
  }

  /**
    What a local timeout sends: one vote of the round that carries a timeout,
    with the ledger info of the vote sent before if there was one; it is the
    one remembered from then on.
   */
  lemma TimeoutSends(m: Manager, twoChain: bool, round: U64, out: Outside)
    requires Faithful(m) && SignsTimeout(m, twoChain, round, out)
    ensures var m' := ProcessLocalTimeout(m, twoChain, round, out);
            && m'.sent != [] && m'.sent[..|m'.sent| - 1] == m.sent
            && var vote := m'.sent[|m'.sent| - 1];
               && vote.Round() == round && vote.IsTimeout() && vote.author == m.journal.state.author
               && m'.voteSent == Some(vote)
               && (m.voteSent.Some? ==> vote.ledgerInfo == m.voteSent.value.ledgerInfo && vote.voteData == m.voteSent.value.voteData)
               && (m.voteSent.None? || !m.voteSent.value.IsTimeout() ==> CarriesTimeout(vote, twoChain, out.highestQc))
  {
    BallotKeeps(m, twoChain, round, out);
    var (ballot, m1) := TimeoutBallot(m, twoChain, round, out);
    BallotOfRound(m, twoChain, round, out);
    SignedTimeout(m1.journal, twoChain, ballot.value, out);
    var vote := SignTimeoutOn(m1.journal, twoChain, ballot.value, out).0.value;
    assert (m.sent + [vote])[..|m.sent|] == m.sent;
  }

  lemma BallotOfRound(m: Manager, twoChain: bool, round: U64, out: Outside)
    requires Faithful(m) && round == m.currentRound && TimeoutBallot(m, twoChain, round, out).0.Some?
    ensures var (ballot, m') := TimeoutBallot(m, twoChain, round, out);
            && ballot.value.Round() == round && ballot.value.author == m.journal.state.author
            && m'.sent == m.sent && m'.currentRound == m.currentRound
            && (if m.voteSent.Some? then ballot == m.voteSent && m' == m else m'.stored == ballot && !ballot.value.IsTimeout())
  {
    var p := VoteProposal(NewNil(round, out.highestQc), out.nilNextEpoch, out.nilExtension, out.decoupled, out.nilSignature);
    ExecuteAndVoteKeeps(m, twoChain, p, out);
  }

  /** Otherwise nothing is sent. */
  lemma TimeoutSilent(m: Manager, twoChain: bool, round: U64, out: Outside)
    requires !SignsTimeout(m, twoChain, round, out)
    ensures ProcessLocalTimeout(m, twoChain, round, out).sent == m.sent
  {
  }

  // ----- crashes -----------------------------------------------------------

  /** The database holds the vote of the round, perhaps without its timeout. */
  predicate Remembers(m: Manager) {
    m.voteSent.Some? ==>
      && m.stored.Some? && m.stored.value.voteData == m.voteSent.value.voteData
      && m.stored.value.ledgerInfo == m.voteSent.value.ledgerInfo
  }

  lemma ProposalKeepsRemembering(m: Manager, twoChain: bool, p: VoteProposal, highestRound: U64, out: Outside)
    requires Remembers(m)
    ensures Remembers(ProcessProposalMsg(m, twoChain, p, highestRound, out))
  {
    ExecuteOutcome(ProcessCertificates(m, highestRound), twoChain, p, out);
  }

  lemma SendKeepsRemembering(m: Manager, twoChain: bool, ballot: Vote, out: Outside)
    requires Remembers(m) && m.stored.Some? && m.stored.value.voteData == ballot.voteData && m.stored.value.ledgerInfo == ballot.ledgerInfo
    ensures Remembers(SendWithTimeout(m, twoChain, ballot, out))
  {
    if SignTimeoutOn(m.journal, twoChain, ballot, out).0.Some? {
      SignedTimeout(m.journal, twoChain, ballot, out);
    }
  }

  lemma BallotKeepsRemembering(m: Manager, twoChain: bool, round: U64, out: Outside)
    requires Remembers(m)
    ensures var (ballot, m') := TimeoutBallot(m, twoChain, round, out);
            && Remembers(m')
            && (ballot.Some? ==> m'.stored.Some? && m'.stored.value.voteData == ballot.value.voteData && m'.stored.value.ledgerInfo == ballot.value.ledgerInfo)
  {
    var p := VoteProposal(NewNil(round, out.highestQc), out.nilNextEpoch, out.nilExtension, out.decoupled, out.nilSignature);
    ExecuteOutcome(m, twoChain, p, out);
  }

  lemma TimeoutKeepsRemembering(m: Manager, twoChain: bool, round: U64, out: Outside)
    requires Remembers(m)
    ensures Remembers(ProcessLocalTimeout(m, twoChain, round, out))
  {
    BallotKeepsRemembering(m, twoChain, round, out);
    var (ballot, m') := TimeoutBallot(m, twoChain, round, out);
    if ballot.Some? {
      SendKeepsRemembering(m', twoChain, ballot.value, out);
    }
  }

  lemma HandleKeepsRemembering(m: Manager, twoChain: bool, e: Event)
    requires Remembers(m)
    ensures Remembers(Handle(m, twoChain, e))
  {
    match e {
      case ProposalEvent(p, highest, out) => ProposalKeepsRemembering(m, twoChain, p, highest, out);
      case TimeoutEvent(round, out) => TimeoutKeepsRemembering(m, twoChain, round, out);
      case _ =>
    }
  }

  lemma {:induction false} RunKeepsRemembering(m: Manager, events: seq<(Event, bool)>)
    requires Remembers(m)
    ensures Remembers(HandleAll(m, events))
  {
    if events != [] {
      var n := |events| - 1;
      RunKeepsRemembering(m, events[..n]);
      HandleKeepsRemembering(HandleAll(m, events[..n]), events[n].1, events[n].0);
    }
  }

  lemma Resumes(m: Manager, highestRound: U64)
    requires Faithful(m) && Remembers(m) && m.voteSent.Some? && m.currentRound == highestRound + 1
    ensures var m' := Restart(m, highestRound, m.voteSent.value.Epoch());
            && m'.currentRound == m.currentRound
            && m'.voteSent.Some? && m'.voteSent.value.ledgerInfo == m.voteSent.value.ledgerInfo
            && m'.voteSent.value.voteData == m.voteSent.value.voteData
  {
  }

  /** A crash in a round in which a vote was sent, at any point of any run, comes back to the round with that vote, and so sends no other. */
  lemma RestartResumes(m: Manager, events: seq<(Event, bool)>, before: Manager, highestRound: U64)
    requires Faithful(m) && Remembers(m) && before == HandleAll(m, events)
    requires before.voteSent.Some? && before.currentRound == highestRound + 1
    ensures var after := Restart(before, highestRound, before.voteSent.value.Epoch());
            && after.currentRound == before.currentRound
            && after.voteSent.Some? && after.voteSent.value.ledgerInfo == before.voteSent.value.ledgerInfo
            && after.voteSent.value.voteData == before.voteSent.value.voteData
  {
    RunKeepsRemembering(m, events);
    RunKeepsFaithful(m, events);
    Resumes(before, highestRound);
  }

  // ----- the object ------------------------------------------------------

  class RoundManager {
    const rules: SafetyRules
    const twoChain: bool
    var currentRound: U64
    var voteSent: Option<Vote>
    var stored: Option<Vote>
    var sent: seq<Vote>
    ghost var votes: set<CastVote>
    ghost var timeouts: set<TimeoutSigningRepr>

    ghost function State(): Manager
      reads this, rules
    {
      Manager(currentRound, voteSent, Journal(rules.State(), votes, timeouts), stored, sent)
    }

    constructor (rules: SafetyRules, twoChain: bool)
      ensures this.rules == rules && this.twoChain == twoChain
      ensures State() == Fresh(rules.State())
    {
      this.rules := rules;
      this.twoChain := twoChain;
      currentRound := 0;
      voteSent := None;
      stored := None;
      sent := [];
      votes := {};
      timeouts := {};
    }

    method OnCertificates(highestRound: U64)
      modifies this
      ensures State() == ProcessCertificates(old(State()), highestRound)
    {
      var newRound := Wrap(highestRound + 1);
      if newRound > currentRound {
        currentRound := newRound;
        voteSent := None;
      }
    }

    method Record(vote: Vote)
      modifies this`voteSent
      ensures State() == RecordVote(old(State()), vote)
    {
      if vote.Round() == currentRound {
        voteSent := Some(vote);
      }
    }

    method ExecuteThenVote(p: VoteProposal, out: Outside) returns (r: Option<Vote>)
      modifies this, rules
      ensures (r, State()) == ExecuteAndVote(old(State()), twoChain, p, out)
    {
      if !out.inserted {
        return None;
      }
      if voteSent.Some? {
        return None;
      }
      if out.syncOnly {
        return None;
      }
      ghost var journal := State().journal;
      votes := Ask(journal, twoChain, p, out).1.votes;
      var vote;
      if twoChain {
        vote := rules.ConstructAndSignVoteTwoChain(p, out.highestTc, out.voteEnv);
      } else {
        vote := rules.ConstructAndSignVote(p, out.voteEnv);
      }
      assert State().journal == Ask(journal, twoChain, p, out).1 by {
        AskState(journal, twoChain, p, out);
      }
      if vote.Err? {
        return None;
      }
      if !out.saved {
        return None;
      }
      stored := Some(vote.value);
      return Some(vote.value);
    }

    method OnProposal(p: VoteProposal, highestRound: U64, out: Outside)
      modifies this, rules
      ensures State() == ProcessProposalMsg(old(State()), twoChain, p, highestRound, out)
    {
      if p.block.data.round < currentRound {
        return;
      }
      OnCertificates(highestRound);
      if p.block.data.round != currentRound {
        return;
      }
      if !out.validProposal || p.block.data.timestampUsecs >= out.deadline {
        return;
      }
      var vote := ExecuteThenVote(p, out);
      if vote.Some? {
        Record(vote.value);
        sent := sent + [vote.value];
      }
    }

    method AddTimeout(vote: Vote, out: Outside) returns (r: Option<Vote>)
      modifies this`timeouts, rules
      ensures var (v, j) := SignTimeoutOn(old(State()).journal, twoChain, vote, out);
              r == v && State() == old(State()).(journal := j)
    {
      if vote.IsTimeout() {
        return Some(vote);
      }
      if twoChain {
        var timeout := TwoChainTimeout(vote.Epoch(), vote.Round(), out.highestQc);
        var signature := rules.SignTimeoutWithQc(timeout, out.highestTc, out.timeoutEnv);
        if signature.Err? {
          return None;
        }
        timeouts := timeouts + {timeout.SigningFormat()};
        return Some(vote.(twoChainTimeout := Some((timeout, signature.value))));
      } else {
        var signature := rules.SignTimeout(vote.GenerateTimeout(), out.timeoutEnv);
        return if signature.Ok? then Some(vote.(timeoutSignature := Some(signature.value))) else None;
      }
    }

    method OnLocalTimeout(round: U64, out: Outside)
      modifies this, rules
      ensures State() == ProcessLocalTimeout(old(State()), twoChain, round, out)
    {
      if round != currentRound || out.syncOnly {
        return;
      }
      var ballot := voteSent;
      if !(voteSent.Some? && voteSent.value.Round() == round) {
        // Nothing was voted on in this round: fall back to a NIL block.
        if out.highestQc.CertifiedBlock().round >= round || out.highestQc.signedLedgerInfo.ledgerInfo.EndsEpoch() {
          return;
        }
        var nil := NewNil(round, out.highestQc);
        ballot := ExecuteThenVote(VoteProposal(nil, out.nilNextEpoch, out.nilExtension, out.decoupled, out.nilSignature), out);
        if ballot.None? {
          return;
        }
      }
      var vote := AddTimeout(ballot.value, out);
      if vote.Some? {
        Record(vote.value);
        sent := sent + [vote.value];
      }
    }
  }

  lemma AskState(j: Journal, twoChain: bool, p: VoteProposal, out: Outside)
    ensures var j' := Ask(j, twoChain, p, out).1;
            && j'.timeouts == j.timeouts
            && j'.state == if twoChain then Persisted(j.state, VoteTwoChain(j.state, p, out.highestTc, out.voteEnv))
                           else Persisted(j.state, VoteThreeChain(j.state, p, out.voteEnv))
  {
    if twoChain {
      if VoteTwoChain(j.state, p, out.highestTc, out.voteEnv).Ok? {
        TwoChainFacts(j.state, p, out.highestTc, out.voteEnv);
      }
    } else {
      if VoteThreeChain(j.state, p, out.voteEnv).Ok? {
        ThreeChainFacts(j.state, p, out.voteEnv);
      }
    }
  }
}
