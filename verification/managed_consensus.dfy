/**
  The event handlers and the protocol composed: whatever a round manager does
  on an event is a sequence of protocol steps of its validator, so a network of
  round managers runs the protocol, and the protocol's results hold of the
  votes that the managers send.
 */
module ManagedConsensus {
  import opened Types
  import opened ValidatorVerifiers
  import opened SafetyRulesModel
  import opened SafetyJournals
  import opened ConsensusSafety
  import opened RoundManagers
  import opened VoteAggregation
  import opened VoteNetwork
  import P = PendingVotesModel
  import T = TimeoutAggregation

  // ----- the steps behind an event -------------------------------------------

  function AskSteps(a: Address, twoChain: bool, p: VoteProposal, out: Outside): seq<Step> {
    if twoChain then [VoteStep2(a, p, out.highestTc, out.voteEnv)] else [VoteStep3(a, p, out.voteEnv)]
  }

  function ExecuteSteps(a: Address, m: Manager, twoChain: bool, p: VoteProposal, out: Outside): seq<Step> {
    if !out.inserted || m.voteSent.Some? || out.syncOnly then [] else AskSteps(a, twoChain, p, out)
  }

  function ProposalSteps(a: Address, m: Manager, twoChain: bool, p: VoteProposal, highestRound: U64, out: Outside): seq<Step> {
    var m' := ProcessCertificates(m, highestRound);
    if p.block.data.round < m.currentRound || p.block.data.round != m'.currentRound then []
    else if !out.validProposal || p.block.data.timestampUsecs >= out.deadline then []
    else ExecuteSteps(a, m', twoChain, p, out)
  }

  function BallotSteps(a: Address, m: Manager, twoChain: bool, round: U64, out: Outside): seq<Step> {
    if m.voteSent.Some? && m.voteSent.value.Round() == round then []
    else if out.highestQc.CertifiedBlock().round >= round || out.highestQc.signedLedgerInfo.ledgerInfo.EndsEpoch() then []
    else
      var nil := NewNil(round, out.highestQc);
      ExecuteSteps(a, m, twoChain, VoteProposal(nil, out.nilNextEpoch, out.nilExtension, out.decoupled, out.nilSignature), out)
  }

  function SignSteps(a: Address, twoChain: bool, vote: Vote, out: Outside): seq<Step> {
    if vote.IsTimeout() then []
    else if twoChain then
      [TimeoutStep2(a, TwoChainTimeout(vote.Epoch(), vote.Round(), out.highestQc), out.highestTc, out.timeoutEnv)]
    else [TimeoutStep3(a, vote.GenerateTimeout(), out.timeoutEnv)]
  }

  function TimeoutSteps(a: Address, m: Manager, twoChain: bool, round: U64, out: Outside): seq<Step> {
    if round != m.currentRound || out.syncOnly then []
    else
      var ballot := TimeoutBallot(m, twoChain, round, out).0;
      BallotSteps(a, m, twoChain, round, out) + if ballot.None? then [] else SignSteps(a, twoChain, ballot.value, out)
  }

  function StepsOf(a: Address, m: Manager, twoChain: bool, e: Event): seq<Step> {
    match e
    case ProposalEvent(p, highest, out) => ProposalSteps(a, m, twoChain, p, highest, out)
    case TimeoutEvent(round, out) => TimeoutSteps(a, m, twoChain, round, out)
    case CertificatesEvent(_) => []
    case InitializeEvent(proof, env) => [InitializeStep(a, proof, env)]
    case RestartEvent(_, _) => [RestartStep(a)]
  }

  function ApplyAllTo(j: Journal, steps: seq<Step>): Journal
    decreases |steps|
  {
    if steps == [] then j else ApplyAllTo(ApplyTo(j, steps[0]), steps[1..])
  }

  lemma ApplyOne(j: Journal, step: Step)
    ensures ApplyAllTo(j, [step]) == ApplyTo(j, step)
  {
    assert [step][1..] == [];
    assert ApplyAllTo(ApplyTo(j, step), []) == ApplyTo(j, step);
  }

  lemma {:induction false} ApplyConcat(j: Journal, xs: seq<Step>, ys: seq<Step>)
    ensures ApplyAllTo(j, xs + ys) == ApplyAllTo(ApplyAllTo(j, xs), ys)
    decreases |xs|
  {
    if xs == [] {
      assert xs + ys == ys;
    } else {
      assert (xs + ys)[1..] == xs[1..] + ys;
      ApplyConcat(ApplyTo(j, xs[0]), xs[1..], ys);
    }
  }

  lemma ExecuteIsSteps(a: Address, m: Manager, twoChain: bool, p: VoteProposal, out: Outside)
    ensures ExecuteAndVote(m, twoChain, p, out).1.journal == ApplyAllTo(m.journal, ExecuteSteps(a, m, twoChain, p, out))
  {
    ApplyOne(m.journal, AskSteps(a, twoChain, p, out)[0]);
  }

  lemma BallotIsSteps(a: Address, m: Manager, twoChain: bool, round: U64, out: Outside)
    ensures TimeoutBallot(m, twoChain, round, out).1.journal == ApplyAllTo(m.journal, BallotSteps(a, m, twoChain, round, out))
  {
    var nil := NewNil(round, out.highestQc);
    ExecuteIsSteps(a, m, twoChain, VoteProposal(nil, out.nilNextEpoch, out.nilExtension, out.decoupled, out.nilSignature), out);
  }

  lemma SignIsSteps(a: Address, j: Journal, twoChain: bool, vote: Vote, out: Outside)
    ensures SignTimeoutOn(j, twoChain, vote, out).1 == ApplyAllTo(j, SignSteps(a, twoChain, vote, out))
  {
    if !vote.IsTimeout() {
      ApplyOne(j, SignSteps(a, twoChain, vote, out)[0]);
    }
  }

  lemma TimeoutIsSteps(a: Address, m: Manager, twoChain: bool, round: U64, out: Outside)
    ensures ProcessLocalTimeout(m, twoChain, round, out).journal == ApplyAllTo(m.journal, TimeoutSteps(a, m, twoChain, round, out))
  {
    if round == m.currentRound && !out.syncOnly {
      var (ballot, m') := TimeoutBallot(m, twoChain, round, out);
      var before := BallotSteps(a, m, twoChain, round, out);
      BallotIsSteps(a, m, twoChain, round, out);
      if ballot.None? {
        assert before + [] == before;
      } else {
        ApplyConcat(m.journal, before, SignSteps(a, twoChain, ballot.value, out));
        SignIsSteps(a, m'.journal, twoChain, ballot.value, out);
      }
    }
  }

  lemma ProposalIsSteps(a: Address, m: Manager, twoChain: bool, p: VoteProposal, highestRound: U64, out: Outside)
    ensures ProcessProposalMsg(m, twoChain, p, highestRound, out).journal
         == ApplyAllTo(m.journal, ProposalSteps(a, m, twoChain, p, highestRound, out))
  {
    ExecuteIsSteps(a, ProcessCertificates(m, highestRound), twoChain, p, out);
  }

  /** Whatever the event, the validator's record changes by the event's steps. */
  lemma HandleIsSteps(a: Address, m: Manager, twoChain: bool, e: Event)
    ensures Handle(m, twoChain, e).journal == ApplyAllTo(m.journal, StepsOf(a, m, twoChain, e))
  {
    match e {
      case ProposalEvent(p, highest, out) => ProposalIsSteps(a, m, twoChain, p, highest, out);
      case TimeoutEvent(round, out) => TimeoutIsSteps(a, m, twoChain, round, out);
      case CertificatesEvent(_) =>
      case InitializeEvent(proof, env) => ApplyOne(m.journal, InitializeStep(a, proof, env));
      case RestartEvent(_, _) => ApplyOne(m.journal, RestartStep(a));
    }
  }

  // ----- a network of managers -----------------------------------------------

  type Network = map<Address, Manager>

  function Journals(net: Network): System {
    map a | a in net :: net[a].journal
  }

  /** An event at one validator, with the commit rule in force there. */
  datatype Happening = Happening(author: Address, twoChain: bool, event: Event)

  function Advance(net: Network, h: Happening): Network
    requires h.author in net
  {
    net[h.author := Handle(net[h.author], h.twoChain, h.event)]
  }

  function HappeningSteps(net: Network, h: Happening): seq<Step>
    requires h.author in net
  {
    StepsOf(h.author, net[h.author], h.twoChain, h.event)
  }

  /** The protocol's steps can be taken one after the other and lead from the one system to the other. */
  ghost predicate Leads(cfg: Config, sys: System, steps: seq<Step>, sys': System)
    decreases |steps|
  {
    if steps == [] then sys == sys'
    else Enabled(cfg, sys, steps[0]) && Leads(cfg, Apply(sys, steps[0]), steps[1..], sys')
  }

  /** Each step is enabled when its turn comes. */
  ghost predicate EnabledAll(cfg: Config, sys: System, steps: seq<Step>)
    decreases |steps|
  {
    steps != [] ==> Enabled(cfg, sys, steps[0]) && EnabledAll(cfg, Apply(sys, steps[0]), steps[1..])
  }

  ghost predicate IsNetworkRun(cfg: Config, nets: seq<Network>, haps: seq<Happening>) {
    && |nets| == |haps| + 1
    && Initial(cfg, Journals(nets[0]))
    && (forall a :: a in nets[0] ==> nets[0][a] == RoundManagers.Fresh(nets[0][a].journal.state))
    && (forall i :: 0 <= i < |haps| ==>
          && haps[i].author in nets[i]
          && EnabledAll(cfg, Journals(nets[i]), HappeningSteps(nets[i], haps[i]))
          && nets[i + 1] == Advance(nets[i], haps[i]))
  }

  predicate AllBy(a: Address, steps: seq<Step>) {
    forall i :: 0 <= i < |steps| ==> steps[i].author == a
  }

  lemma StepsAreOwn(a: Address, m: Manager, twoChain: bool, e: Event)
    ensures AllBy(a, StepsOf(a, m, twoChain, e))
  {
  }

  lemma {:induction false} EnabledLeads(cfg: Config, sys: System, steps: seq<Step>, a: Address)
    requires a in sys && AllBy(a, steps) && EnabledAll(cfg, sys, steps)
    ensures Leads(cfg, sys, steps, sys[a := ApplyAllTo(sys[a], steps)])
    decreases |steps|
  {
    if steps == [] {
      assert sys[a := sys[a]] == sys;
    } else {
      var sys' := Apply(sys, steps[0]);
      EnabledLeads(cfg, sys', steps[1..], a);
      assert sys'[a := ApplyAllTo(sys'[a], steps[1..])] == sys[a := ApplyAllTo(sys[a], steps)];
    }
  }

  /** An event takes the validators' records along the protocol. */
  lemma HappeningLeads(cfg: Config, net: Network, h: Happening)
    requires h.author in net && EnabledAll(cfg, Journals(net), HappeningSteps(net, h))
    ensures Leads(cfg, Journals(net), HappeningSteps(net, h), Journals(Advance(net, h)))
  {
    var m := net[h.author];
    StepsAreOwn(h.author, m, h.twoChain, h.event);
    EnabledLeads(cfg, Journals(net), HappeningSteps(net, h), h.author);
    HandleIsSteps(h.author, m, h.twoChain, h.event);
    assert Journals(Advance(net, h)) == Journals(net)[h.author := Handle(m, h.twoChain, h.event).journal];
  }

  lemma {:induction false} ExtendRun(cfg: Config, states: seq<System>, steps: seq<Step>, more: seq<Step>, end: System)
    returns (states': seq<System>, steps': seq<Step>)
    requires IsRun(cfg, states, steps) && Leads(cfg, states[|steps|], more, end)
    ensures IsRun(cfg, states', steps') && states'[|steps'|] == end
    decreases |more|
  {
    if more == [] {
      states', steps' := states, steps;
    } else {
      var longer, next := states + [Apply(states[|steps|], more[0])], steps + [more[0]];
      assert IsRun(cfg, longer, next);
      states', steps' := ExtendRun(cfg, longer, next, more[1..], end);
    }
  }

  /** A network of round managers runs the protocol. */
  lemma {:induction false} NetworkIsRun(cfg: Config, nets: seq<Network>, haps: seq<Happening>, n: nat)
    returns (states: seq<System>, steps: seq<Step>)
    requires IsNetworkRun(cfg, nets, haps) && n < |nets|
    ensures IsRun(cfg, states, steps) && states[|steps|] == Journals(nets[n])
  {
    if n == 0 {
      states, steps := [Journals(nets[0])], [];
    } else {
      states, steps := NetworkIsRun(cfg, nets, haps, n - 1);
      HappeningLeads(cfg, nets[n - 1], haps[n - 1]);
      states, steps := ExtendRun(cfg, states, steps, HappeningSteps(nets[n - 1], haps[n - 1]), Journals(nets[n]));
    }
  }

  lemma {:induction false} LeadsGrows(cfg: Config, sys: System, steps: seq<Step>, sys': System)
    requires Leads(cfg, sys, steps, sys')
    ensures Grows(sys, sys')
    decreases |steps|
  {
    if steps != [] {
      ApplyGrows(sys, steps[0]);
      LeadsGrows(cfg, Apply(sys, steps[0]), steps[1..], sys');
      GrowsTransitive(sys, Apply(sys, steps[0]), sys');
    }
  }

  lemma HappeningGrows(cfg: Config, net: Network, h: Happening)
    requires h.author in net && EnabledAll(cfg, Journals(net), HappeningSteps(net, h))
    ensures Grows(Journals(net), Journals(Advance(net, h)))
  {
    HappeningLeads(cfg, net, h);
    LeadsGrows(cfg, Journals(net), HappeningSteps(net, h), Journals(Advance(net, h)));
  }

  lemma NextGrows(cfg: Config, nets: seq<Network>, haps: seq<Happening>, i: nat)
    requires IsNetworkRun(cfg, nets, haps) && i < |haps|
    ensures Grows(Journals(nets[i]), Journals(nets[i + 1]))
  {
    HappeningGrows(cfg, nets[i], haps[i]);
  }

  lemma NetworkGrows(cfg: Config, nets: seq<Network>, haps: seq<Happening>, i: nat, n: nat)
    requires IsNetworkRun(cfg, nets, haps) && i <= n < |nets|
    ensures Grows(Journals(nets[i]), Journals(nets[n]))
  {
    var states := seq(|nets|, k requires 0 <= k < |nets| => Journals(nets[k]));
    forall k | 0 <= k < |states| - 1
      ensures Grows(states[k], states[k + 1])
    {
      NextGrows(cfg, nets, haps, k);
    }
    ChainGrows(states, i, n);
  }

  lemma {:induction false} ManagersStayFaithful(cfg: Config, nets: seq<Network>, haps: seq<Happening>, n: nat, a: Address)
    requires IsNetworkRun(cfg, nets, haps) && n < |nets| && a in nets[n]
    ensures Faithful(nets[n][a])
  {
    if n == 0 {
      var m := nets[0][a];
      assert Journals(nets[0])[a] == m.journal;
      assert m == RoundManagers.Fresh(m.journal.state);
    } else {
      ManagersStayFaithful(cfg, nets, haps, n - 1, a);
      if a == haps[n - 1].author {
        HandleKeepsFaithful(nets[n - 1][a], haps[n - 1].twoChain, haps[n - 1].event);
      }
    }
  }

  // ----- the results -----------------------------------------------------

  /** A vote as it reaches an aggregator: verified, and sent by its author's manager if the author has one. */
  ghost predicate Received(cfg: Config, net: Network, round: U64, vote: Vote) {
    && VerifiedVote(cfg.verifier, cfg.epoch, round, vote)
    && (vote.author in net ==> exists i :: 0 <= i < |net[vote.author].sent| && net[vote.author].sent[i].ledgerInfo == vote.ledgerInfo)
  }

  lemma ReceivedIsDelivered(cfg: Config, net: Network, round: U64, vote: Vote)
    requires Received(cfg, net, round, vote) && (vote.author in net ==> Faithful(net[vote.author]))
    ensures Delivered(cfg, Journals(net), round, vote)
  {
    if vote.author in net {
      var m := net[vote.author];
      var i :| 0 <= i < |m.sent| && m.sent[i].ledgerInfo == vote.ledgerInfo;
      assert Recorded(m.journal, m.sent[i]);
      var c :| c in m.journal.votes && SameVote(c, m.sent[i]);
      assert HasSigned(Journals(net)[vote.author], vote.ledgerInfo);
    }
  }

  ghost predicate AllReceived(cfg: Config, net: Network, round: U64, votes: seq<Vote>) {
    forall i :: 0 <= i < |votes| ==> Received(cfg, net, round, votes[i])
  }

  lemma AllReceivedIsDelivered(cfg: Config, nets: seq<Network>, haps: seq<Happening>, n: nat, round: U64, votes: seq<Vote>)
    requires IsNetworkRun(cfg, nets, haps) && n < |nets| && AllReceived(cfg, nets[n], round, votes)
    ensures AllDelivered(cfg, Journals(nets[n]), round, votes)
  {
    forall i | 0 <= i < |votes|
      ensures Delivered(cfg, Journals(nets[n]), round, votes[i])
    {
      if votes[i].author in nets[n] {
        ManagersStayFaithful(cfg, nets, haps, n, votes[i].author);
      }
      ReceivedIsDelivered(cfg, nets[n], round, votes[i]);
    }
  }

  /** Any two aggregators, on any votes the managers sent in a round and any of the faulty ones, certify the same. */
  lemma ManagersCertifyOnce(cfg: Config, nets: seq<Network>, haps: seq<Happening>, n: nat, round: U64,
                            xs: seq<Vote>, k: nat, ys: seq<Vote>, l: nat)
    requires LedgerInfoHashInjective() && Assumptions(cfg) && IsNetworkRun(cfg, nets, haps) && n < |nets|
    requires AllReceived(cfg, nets[n], round, xs) && AllReceived(cfg, nets[n], round, ys)
    requires k < |xs| && P.Answer(xs, cfg.verifier, k).NewQuorumCertificate?
    requires l < |ys| && P.Answer(ys, cfg.verifier, l).NewQuorumCertificate?
    ensures var q, r := P.Answer(xs, cfg.verifier, k).qc, P.Answer(ys, cfg.verifier, l).qc;
            q.signedLedgerInfo.ledgerInfo == r.signedLedgerInfo.ledgerInfo && q.voteData == r.voteData
  {
    var states, steps := NetworkIsRun(cfg, nets, haps, n);
    AllReceivedIsDelivered(cfg, nets, haps, n, round, xs);
    AllReceivedIsDelivered(cfg, nets, haps, n, round, ys);
    CertificatesAgreeAcrossReplicas(cfg, states, steps, |steps|, round, xs, k, ys, l);
  }

  /** No aggregator reports a round manager's votes for equivocation. */
  lemma ManagersNeverReported(cfg: Config, nets: seq<Network>, haps: seq<Happening>, n: nat, round: U64, votes: seq<Vote>, k: nat)
    requires Assumptions(cfg) && IsNetworkRun(cfg, nets, haps) && n < |nets|
    requires AllReceived(cfg, nets[n], round, votes) && k < |votes| && votes[k].author in nets[n]
    ensures !P.Answer(votes, cfg.verifier, k).EquivocateVote?
  {
    var states, steps := NetworkIsRun(cfg, nets, haps, n);
    AllReceivedIsDelivered(cfg, nets, haps, n, round, votes);
    CorrectAuthorsNeverEquivocate(cfg, states, steps, |steps|, round, votes, k);
  }

  /** Commits that come out of a network of round managers, at any two moments, lie on one chain. */
  lemma ManagersCommitSafely(cfg: Config, nets: seq<Network>, haps: seq<Happening>, i: nat, n: nat, q: QuorumCert, r: QuorumCert)
    requires Assumptions(cfg) && IsNetworkRun(cfg, nets, haps) && i <= n < |nets|
    requires IsCommitCertificate(cfg, Journals(nets[i]), q) && IsCommitCertificate(cfg, Journals(nets[n]), r)
    ensures || Extends(cfg, Journals(nets[n]), q.CommitInfo(), r.CommitInfo())
            || Extends(cfg, Journals(nets[n]), r.CommitInfo(), q.CommitInfo())
  {
    var states, steps := NetworkIsRun(cfg, nets, haps, n);
    NetworkGrows(cfg, nets, haps, i, n);
    AuthenticQcGrows(cfg, Journals(nets[i]), Journals(nets[n]), q);
    CommitSafety(cfg, states, steps, |steps|, |steps|, q, r);
  }

  // ----- rounds that time out ------------------------------------------------

  /** The vote that a local timeout of the round sends. */
  function TimeoutVote(m: Manager, twoChain: bool, round: U64, out: Outside): Vote
    requires ProcessLocalTimeout(m, twoChain, round, out).sent != []
  {
    var sent := ProcessLocalTimeout(m, twoChain, round, out).sent;
    sent[|sent| - 1]
  }

  /** The manager of the validator handles a local timeout of the round, its safety rules sign, and the aggregator receives what it sends. */
  ghost predicate GivesUp(a: Address, m: Manager, twoChain: bool, round: U64, out: Outside, votes: seq<Vote>) {
    && Faithful(m) && m.journal.state.author == a
    && SignsTimeout(m, twoChain, round, out)
    && (m.voteSent.Some? && m.voteSent.value.IsTimeout() ==> T.TimesOut(m.voteSent.value, twoChain))
    && ProcessLocalTimeout(m, twoChain, round, out).sent != []
    && TimeoutVote(m, twoChain, round, out) in votes
  }

  lemma GivesUpTimesOut(a: Address, m: Manager, twoChain: bool, round: U64, out: Outside, votes: seq<Vote>)
    requires GivesUp(a, m, twoChain, round, out, votes)
    ensures a in T.TimeoutBackers(votes, twoChain)
  {
    TimeoutSends(m, twoChain, round, out);
    var vote := TimeoutVote(m, twoChain, round, out);
    TimeoutVoteOfKind(m, twoChain, round, out);
    var i :| 0 <= i < |votes| && votes[i] == vote;
    assert T.TimesOut(votes[i], twoChain) && votes[i].author == a;
  }

  /** It carries a timeout of the protocol in force. */
  lemma TimeoutVoteOfKind(m: Manager, twoChain: bool, round: U64, out: Outside)
    requires Faithful(m) && SignsTimeout(m, twoChain, round, out)
    requires m.voteSent.Some? && m.voteSent.value.IsTimeout() ==> T.TimesOut(m.voteSent.value, twoChain)
    ensures ProcessLocalTimeout(m, twoChain, round, out).sent != []
    ensures T.TimesOut(TimeoutVote(m, twoChain, round, out), twoChain)
  {
    TimeoutSends(m, twoChain, round, out);
    if m.voteSent.Some? && m.voteSent.value.IsTimeout() {
      assert SignTimeoutOn(m.journal, twoChain, m.voteSent.value, out).0 == m.voteSent;
      assert ProcessLocalTimeout(m, twoChain, round, out).sent == m.sent + [m.voteSent.value];
    }
  }

  /**
    A round that finds no quorum ends: once the managers of validators with
    quorum power have handled a local timeout of it, an aggregator that
    receives what they sent, in any order and among any other votes, returns a
    timeout certificate.
   */
  lemma TimeoutsMakeCertificate(v: ValidatorVerifier, twoChain: bool, round: U64, managers: map<Address, (Manager, Outside)>, votes: seq<Vote>)
    requires T.TimedOutRound(votes, v, twoChain)
    requires forall a :: a in managers ==> GivesUp(a, managers[a].0, twoChain, round, managers[a].1, votes)
    requires Power(v.infos, managers.Keys) >= v.quorumVotingPower
    ensures exists k: nat :: k < |votes| && T.IsTc(P.Answer(votes, v, k), twoChain)
  {
    forall a | a in managers
      ensures a in T.TimeoutBackers(votes, twoChain)
    {
      GivesUpTimesOut(a, managers[a].0, twoChain, round, managers[a].1, votes);
    }
    PowerMonotone(v.infos, managers.Keys, T.TimeoutBackers(votes, twoChain));
    T.TimeoutOrderIndependence(votes, v, twoChain);
  }
}
