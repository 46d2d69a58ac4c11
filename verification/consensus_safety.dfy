/**
  DiemBFT with many validators, a network under the adversary's control and
  less than a third of the voting power faulty.  The steps are those of the
  safety rules; faulty validators sign what they like, when they like.

  Main results, for every reachable state of every run: at most one ledger
  info is certified per round, and the committed blocks of an epoch lie on one
  chain, under the 2-chain rule and under the 3-chain rule.
 */
module ConsensusSafety {
  import opened Types
  import opened ValidatorVerifiers
  import opened Certificates
  import opened EpochChanges
  import opened SafetyRulesModel
  import opened SafetyJournals

  /** One epoch: its validators, which of them are faulty, its genesis block, its commit rule. */
  datatype Config = Config(
    epoch: U64,
    verifier: ValidatorVerifier,
    faulty: set<Address>,
    genesis: BlockInfo,
    twoChain: bool)

  ghost predicate Assumptions(cfg: Config) {
    && VoteDataHashInjective()
    && Wellformed(cfg.verifier)
    && cfg.verifier.infos != map[]
    && 3 * Power(cfg.verifier.infos, cfg.faulty) <= cfg.verifier.totalVotingPower
    && cfg.genesis.round == 0
  }

  /** The validators that run the code, each with all it ever signed. */
  type System = map<Address, Journal>

  // ----- the network -----------------------------------------------------

  ghost predicate HasSigned(j: Journal, li: LedgerInfo) {
    exists c :: c in j.votes && c.ledgerInfo == li
  }

  /** Signatures of correct validators cannot be made up: one that verifies was given before. */
  ghost predicate AuthenticLedgerInfo(cfg: Config, sys: System, a: Address, li: LedgerInfo, sig: Signature) {
    && a in sys && a in cfg.verifier.infos
    && SignatureVerifies(cfg.verifier.infos[a].publicKey, LedgerInfoMessage(li), sig)
    ==> HasSigned(sys[a], li)
  }

  ghost predicate AuthenticQc(cfg: Config, sys: System, qc: QuorumCert) {
    var li := qc.signedLedgerInfo;
    forall a :: a in li.signatures ==> AuthenticLedgerInfo(cfg, sys, a, li.ledgerInfo, li.signatures[a])
  }

  ghost predicate AuthenticTc(cfg: Config, sys: System, tc: TwoChainTimeoutCertificate) {
    forall a :: a in tc.signatures && a in sys &&
      TwoChainSignatureValid(cfg.verifier, tc.timeout.epoch, tc.timeout.round, a, tc.signatures[a])
      ==> TimeoutSigningRepr(tc.timeout.epoch, tc.timeout.round, tc.signatures[a].0) in sys[a].timeouts
  }

  /** The unsigned certificate of round zero is the one for the epoch's genesis; no other enters the block store. */
  predicate Anchored(cfg: Config, qc: QuorumCert) {
    qc.CertifiedBlock().round == 0 ==> qc.CertifiedBlock() == cfg.genesis
  }

  // ----- steps -----------------------------------------------------------

  datatype Step =
    | VoteStep2(author: Address, proposal: VoteProposal, tc: Option<TwoChainTimeoutCertificate>, env: Env)
    | VoteStep3(author: Address, proposal: VoteProposal, env: Env)
    | TimeoutStep2(author: Address, timeout2: TwoChainTimeout, tc: Option<TwoChainTimeoutCertificate>, env: Env)
    | TimeoutStep3(author: Address, timeout3: Timeout, env: Env)
    | InitializeStep(author: Address, proof: EpochChangeProof, initEnv: InitEnv)
    | RestartStep(author: Address)

  function ApplyTo(j: Journal, step: Step): Journal {
    match step
    case VoteStep2(_, p, tc, env) => StepVoteTwoChain(j, p, tc, env)
    case VoteStep3(_, p, env) => StepVoteThreeChain(j, p, env)
    case TimeoutStep2(_, t, tc, env) => StepTimeoutTwoChain(j, t, tc, env)
    case TimeoutStep3(_, t, env) => StepTimeoutThreeChain(j, t, env)
    case InitializeStep(_, proof, env) => StepInitialize(j, proof, env)
    case RestartStep(_) => StepRestart(j)
  }

  function Apply(sys: System, step: Step): System
    requires step.author in sys
  {
    sys[step.author := ApplyTo(sys[step.author], step)]
  }

  /** In the epoch's own validator set, or in another epoch. */
  predicate KnowsVerifier(cfg: Config, s: SafetyState) {
    s.epochState.Some? && s.epochState.value.epoch == cfg.epoch ==> s.epochState.value.verifier == cfg.verifier
  }

  ghost predicate EvidenceAuthentic(cfg: Config, sys: System, qc: QuorumCert, rule: Rule) {
    && AuthenticQc(cfg, sys, qc)
    && Anchored(cfg, qc)
    && (match rule
        case TwoChain(tc) => cfg.twoChain && (tc.Some? ==> AuthenticTc(cfg, sys, tc.value) && tc.value.timeout.epoch == cfg.epoch)
        case ThreeChain => !cfg.twoChain)
  }

  /** Any message may be delivered at any time, so long as correct validators' signatures in it are theirs. */
  ghost predicate Deliverable(cfg: Config, sys: System, step: Step) {
    && step.author in sys
    && (match step
        case VoteStep2(_, p, tc, _) =>
          p.block.data.epoch == cfg.epoch ==> EvidenceAuthentic(cfg, sys, p.block.data.quorumCert, TwoChain(tc))
        case VoteStep3(_, p, _) =>
          p.block.data.epoch == cfg.epoch ==> EvidenceAuthentic(cfg, sys, p.block.data.quorumCert, ThreeChain)
        case _ => true)
  }

  ghost predicate Enabled(cfg: Config, sys: System, step: Step) {
    && Deliverable(cfg, sys, step)
    && (step.InitializeStep? ==> KnowsVerifier(cfg, Initialize(sys[step.author].state, step.proof, step.initEnv).1))
  }

  ghost predicate Initial(cfg: Config, sys: System) {
    && cfg.verifier.infos.Keys - cfg.faulty <= sys.Keys
    && (forall a :: a in sys ==>
          && sys[a].votes == {} && sys[a].timeouts == {}
          && sys[a].state.data.lastVote.None? && sys[a].state.epochState.None?)
  }

  ghost predicate IsRun(cfg: Config, states: seq<System>, steps: seq<Step>) {
    && |states| == |steps| + 1
    && Initial(cfg, states[0])
    && (forall i :: 0 <= i < |steps| ==> Enabled(cfg, states[i], steps[i]) && states[i + 1] == Apply(states[i], steps[i]))
  }

  // ----- the invariant ---------------------------------------------------

  ghost predicate Supported(cfg: Config, sys: System, c: CastVote) {
    c.Epoch() == cfg.epoch ==> c.epochState.verifier == cfg.verifier && EvidenceAuthentic(cfg, sys, c.Qc(), c.rule)
  }

  ghost predicate NodeOk(cfg: Config, sys: System, j: Journal) {
    && Sound(j)
    && KnowsVerifier(cfg, j.state)
    && (forall c :: c in j.votes ==> Supported(cfg, sys, c))
  }

  ghost predicate Inv(cfg: Config, sys: System) {
    && cfg.verifier.infos.Keys - cfg.faulty <= sys.Keys
    && (forall a :: a in sys ==> NodeOk(cfg, sys, sys[a]))
  }

  /** Nothing that was signed is ever withdrawn. */
  ghost predicate Grows(sys: System, sys': System) {
    && sys.Keys == sys'.Keys
    && (forall a :: a in sys ==> sys[a].votes <= sys'[a].votes && sys[a].timeouts <= sys'[a].timeouts)
  }

  lemma SupportedGrows(cfg: Config, sys: System, sys': System, c: CastVote)
    requires Grows(sys, sys') && Supported(cfg, sys, c)
    ensures Supported(cfg, sys', c)
  {
    if c.Epoch() == cfg.epoch {
      EvidenceGrows(cfg, sys, sys', c.Qc(), c.rule);
    }
  }

  lemma AuthenticQcGrows(cfg: Config, sys: System, sys': System, qc: QuorumCert)
    requires Grows(sys, sys') && AuthenticQc(cfg, sys, qc)
    ensures AuthenticQc(cfg, sys', qc)
  {
    var li := qc.signedLedgerInfo;
    forall a | a in li.signatures
      ensures AuthenticLedgerInfo(cfg, sys', a, li.ledgerInfo, li.signatures[a])
    {
      assert AuthenticLedgerInfo(cfg, sys, a, li.ledgerInfo, li.signatures[a]);
      if a in sys && HasSigned(sys[a], li.ledgerInfo) {
        var c :| c in sys[a].votes && c.ledgerInfo == li.ledgerInfo;
        assert c in sys'[a].votes;
      }
    }
  }

  lemma EvidenceGrows(cfg: Config, sys: System, sys': System, qc: QuorumCert, rule: Rule)
    requires Grows(sys, sys') && EvidenceAuthentic(cfg, sys, qc, rule)
    ensures EvidenceAuthentic(cfg, sys', qc, rule)
  {
    AuthenticQcGrows(cfg, sys, sys', qc);
  }

  lemma ApplyKeepsSound(j: Journal, step: Step)
    requires Sound(j)
    ensures Sound(ApplyTo(j, step))
  {
    match step {
      case VoteStep2(_, p, tc, env) => VoteTwoChainKeepsSound(j, p, tc, env);
      case VoteStep3(_, p, env) => VoteThreeChainKeepsSound(j, p, env);
      case TimeoutStep2(_, t, tc, env) => TimeoutTwoChainKeepsSound(j, t, tc, env);
      case TimeoutStep3(_, t, env) => TimeoutThreeChainKeepsSound(j, t, env);
      case InitializeStep(_, proof, env) => InitializeKeepsSound(j, proof, env);
      case RestartStep(_) => RestartKeepsSound(j);
    }
  }

  lemma ApplyGrows(sys: System, step: Step)
    requires step.author in sys
    ensures Grows(sys, Apply(sys, step))
  {
  }

  /** A vote that was not there before was cast on the step's evidence, by the epoch's validator set. */
  lemma NewVoteSupported(cfg: Config, sys: System, step: Step, c: CastVote)
    requires Inv(cfg, sys) && Enabled(cfg, sys, step)
    requires c in ApplyTo(sys[step.author], step).votes && c !in sys[step.author].votes
    ensures Supported(cfg, sys, c)
  {
    var j := sys[step.author];
    assert NodeOk(cfg, sys, j);
    match step {
      case VoteStep2(_, p, tc, env) => TwoChainAdmissible(j, p, tc, env);
      case VoteStep3(_, p, env) => ThreeChainAdmissible(j, p, env);
      case _ =>
    }
  }

  lemma StepKeepsVerifier(cfg: Config, sys: System, step: Step)
    requires Inv(cfg, sys) && Enabled(cfg, sys, step)
    ensures KnowsVerifier(cfg, ApplyTo(sys[step.author], step).state)
  {
    assert NodeOk(cfg, sys, sys[step.author]);
  }

  lemma StepKeepsNode(cfg: Config, sys: System, step: Step, a: Address)
    requires Inv(cfg, sys) && Enabled(cfg, sys, step) && a in sys
    ensures NodeOk(cfg, Apply(sys, step), Apply(sys, step)[a])
  {
    var sys' := Apply(sys, step);
    ApplyGrows(sys, step);
    assert NodeOk(cfg, sys, sys[a]);
    if a == step.author {
      ApplyKeepsSound(sys[a], step);
      StepKeepsVerifier(cfg, sys, step);
    }
    forall c | c in sys'[a].votes
      ensures Supported(cfg, sys', c)
    {
      if c !in sys[a].votes {
        NewVoteSupported(cfg, sys, step, c);
      }
      SupportedGrows(cfg, sys, sys', c);
    }
  }

  lemma StepKeepsInv(cfg: Config, sys: System, step: Step)
    requires Inv(cfg, sys) && Enabled(cfg, sys, step)
    ensures Inv(cfg, Apply(sys, step))
  {
    forall a | a in sys
      ensures NodeOk(cfg, Apply(sys, step), Apply(sys, step)[a])
    {
      StepKeepsNode(cfg, sys, step, a);
    }
  }

  lemma InitialInv(cfg: Config, sys: System)
    requires Initial(cfg, sys)
    ensures Inv(cfg, sys)
  {
    forall a | a in sys
      ensures NodeOk(cfg, sys, sys[a])
    {
    }
  }

  lemma {:induction false} RunKeepsInv(cfg: Config, states: seq<System>, steps: seq<Step>, i: nat)
    requires IsRun(cfg, states, steps) && i < |states|
    ensures Inv(cfg, states[i])
  {
    if i == 0 {
      InitialInv(cfg, states[0]);
    } else {
      RunKeepsInv(cfg, states, steps, i - 1);
      StepKeepsInv(cfg, states[i - 1], steps[i - 1]);
    }
  }

  lemma GrowsTransitive(x: System, y: System, z: System)
    requires Grows(x, y) && Grows(y, z)
    ensures Grows(x, z)
  {
  }

  lemma {:induction false} ChainGrows(states: seq<System>, i: nat, j: nat)
    requires i <= j < |states| && forall k :: 0 <= k < |states| - 1 ==> Grows(states[k], states[k + 1])
    ensures Grows(states[i], states[j])
    decreases j
  {
    if i < j {
      ChainGrows(states, i, j - 1);
      assert Grows(states[j - 1], states[j - 1 + 1]);
      GrowsTransitive(states[i], states[j - 1], states[j]);
    }
  }

  lemma RunGrows(cfg: Config, states: seq<System>, steps: seq<Step>, i: nat, j: nat)
    requires IsRun(cfg, states, steps) && i <= j < |states|
    ensures Grows(states[i], states[j])
  {
    forall k | 0 <= k < |states| - 1
      ensures Grows(states[k], states[k + 1])
    {
      assert Enabled(cfg, states[k], steps[k]);
      ApplyGrows(states[k], steps[k]);
    }
    ChainGrows(states, i, j);
  }

  // ----- certificates ----------------------------------------------------

  /** A certificate of the epoch that verifies; correct validators named in it did sign. */
  ghost predicate IsCertificate(cfg: Config, sys: System, qc: QuorumCert) {
    && QuorumCertVerify(cfg.verifier, qc)
    && AuthenticQc(cfg, sys, qc)
    && qc.CertifiedBlock().epoch == cfg.epoch
    && qc.CertifiedBlock().round > 0
  }

  /** A vote cast by a correct validator for exactly what the certificate certifies. */
  ghost predicate VotedFor(sys: System, a: Address, c: CastVote, qc: QuorumCert) {
    && a in sys && c in sys[a].votes
    && c.voteData == qc.voteData && c.ledgerInfo == qc.signedLedgerInfo.ledgerInfo
  }

  lemma SignerVoted(cfg: Config, sys: System, qc: QuorumCert, a: Address) returns (c: CastVote)
    requires Assumptions(cfg) && Inv(cfg, sys) && IsCertificate(cfg, sys, qc)
    requires a in qc.signedLedgerInfo.signatures && a !in cfg.faulty
    ensures VotedFor(sys, a, c, qc)
  {
    assert AuthenticLedgerInfo(cfg, sys, a, qc.signedLedgerInfo.ledgerInfo, qc.signedLedgerInfo.signatures[a]);
    assert NodeOk(cfg, sys, sys[a]);
    c :| c in sys[a].votes && c.ledgerInfo == qc.signedLedgerInfo.ledgerInfo;
    assert VoteDataHash(c.voteData) == VoteDataHash(qc.voteData);
  }

  /** Some correct validator voted for both certificates. */
  lemma CommonVoter(cfg: Config, sys: System, q: QuorumCert, r: QuorumCert) returns (a: Address, c: CastVote, d: CastVote)
    requires Assumptions(cfg) && Inv(cfg, sys) && IsCertificate(cfg, sys, q) && IsCertificate(cfg, sys, r)
    ensures VotedFor(sys, a, c, q) && VotedFor(sys, a, d, r)
  {
    a := QuorumsShareCorrect(cfg.verifier, q.signedLedgerInfo.signatures.Keys, r.signedLedgerInfo.signatures.Keys, cfg.faulty);
    c := SignerVoted(cfg, sys, q, a);
    d := SignerVoted(cfg, sys, r, a);
  }

  /** One certificate per round: all that exist certify the same block and commit the same ledger info. */
  lemma CertificatesUnique(cfg: Config, sys: System, q: QuorumCert, r: QuorumCert)
    requires Assumptions(cfg) && Inv(cfg, sys) && IsCertificate(cfg, sys, q) && IsCertificate(cfg, sys, r)
    requires q.CertifiedBlock().round == r.CertifiedBlock().round
    ensures q.voteData == r.voteData && q.signedLedgerInfo.ledgerInfo == r.signedLedgerInfo.ledgerInfo
  {
    var a, c, d := CommonVoter(cfg, sys, q, r);
    assert NodeOk(cfg, sys, sys[a]);
    assert OneVotePerRound(sys[a].votes);
  }

  /** The certificate of the block a certified block extends: a real one, or genesis. */
  lemma ParentCertificate(cfg: Config, sys: System, a: Address, c: CastVote, q: QuorumCert)
    requires Inv(cfg, sys) && VotedFor(sys, a, c, q) && q.CertifiedBlock().epoch == cfg.epoch
    ensures c.Qc().CertifiedBlock() == q.ParentBlock()
    ensures c.epochState.verifier == cfg.verifier && Evidenced(c) && Supported(cfg, sys, c)
    ensures if c.QcRound() > 0 then IsCertificate(cfg, sys, c.Qc()) else q.ParentBlock() == cfg.genesis
    ensures q.ParentBlock().round < q.CertifiedBlock().round
  {
    assert NodeOk(cfg, sys, sys[a]);
    assert Supported(cfg, sys, c);
  }

  // ----- chains ----------------------------------------------------------

  /** From b down to b0 along certificates, each certifying the parent of the one above. */
  ghost predicate Path(cfg: Config, sys: System, b: BlockInfo, b0: BlockInfo, chain: seq<QuorumCert>)
    decreases |chain|
  {
    if chain == [] then b == b0
    else
      && IsCertificate(cfg, sys, chain[0])
      && chain[0].CertifiedBlock() == b
      && Path(cfg, sys, chain[0].ParentBlock(), b0, chain[1..])
  }

  ghost predicate Extends(cfg: Config, sys: System, b: BlockInfo, b0: BlockInfo) {
    exists chain :: Path(cfg, sys, b, b0, chain)
  }

  lemma ExtendsSelf(cfg: Config, sys: System, b: BlockInfo)
    ensures Extends(cfg, sys, b, b)
  {
    assert Path(cfg, sys, b, b, []);
  }

  lemma ExtendsChild(cfg: Config, sys: System, qc: QuorumCert, b0: BlockInfo)
    requires IsCertificate(cfg, sys, qc) && Extends(cfg, sys, qc.ParentBlock(), b0)
    ensures Extends(cfg, sys, qc.CertifiedBlock(), b0)
  {
    var chain :| Path(cfg, sys, qc.ParentBlock(), b0, chain);
    assert ([qc] + chain)[1..] == chain;
    assert Path(cfg, sys, qc.CertifiedBlock(), b0, [qc] + chain);
  }

  /** No certificate at or above b0's round goes around b0. */
  ghost predicate Respects(b0: BlockInfo, qc: QuorumCert) {
    qc.CertifiedBlock().round >= b0.round ==> qc.CertifiedBlock() == b0 || qc.ParentBlock().round >= b0.round
  }

  ghost predicate Locked(cfg: Config, sys: System, b0: BlockInfo) {
    && (b0.round == 0 ==> b0 == cfg.genesis)
    && (forall qc :: IsCertificate(cfg, sys, qc) ==> Respects(b0, qc))
  }

  /** Every certified block at or above a locked block's round extends it. */
  lemma {:induction false} LockedIsExtended(cfg: Config, sys: System, b0: BlockInfo, qc: QuorumCert)
    requires Assumptions(cfg) && Inv(cfg, sys) && Locked(cfg, sys, b0)
    requires IsCertificate(cfg, sys, qc) && qc.CertifiedBlock().round >= b0.round
    ensures Extends(cfg, sys, qc.CertifiedBlock(), b0)
    decreases qc.CertifiedBlock().round
  {
    assert Respects(b0, qc);
    if qc.CertifiedBlock() == b0 {
      ExtendsSelf(cfg, sys, b0);
    } else {
      var a, c, _ := CommonVoter(cfg, sys, qc, qc);
      ParentCertificate(cfg, sys, a, c, qc);
      if c.QcRound() > 0 {
        LockedIsExtended(cfg, sys, b0, c.Qc());
      } else {
        ExtendsSelf(cfg, sys, b0);
      }
      ExtendsChild(cfg, sys, qc, b0);
    }
  }

  // ----- the commit rules lock what they commit ----------------------------

  ghost predicate IsCommitCertificate(cfg: Config, sys: System, qc: QuorumCert) {
    IsCertificate(cfg, sys, qc) && qc.CommitInfo() != EMPTY_BLOCK_INFO
  }

  /** The committed block is genesis or has a certificate of its own. */
  ghost predicate CertifiedOrGenesis(cfg: Config, sys: System, b: BlockInfo) {
    if b.round == 0 then b == cfg.genesis else exists qc :: IsCertificate(cfg, sys, qc) && qc.CertifiedBlock() == b
  }

  /** A validator that voted to commit and later timed out admitted to the committed block in its timeout. */
  lemma TimeoutKnowsCommitted(cfg: Config, sys: System, q: QuorumCert, tc: TwoChainTimeoutCertificate, round: U64)
    requires Assumptions(cfg) && Inv(cfg, sys) && IsCertificate(cfg, sys, q)
    requires q.ParentBlock().round == round && q.CertifiedBlock().round <= tc.timeout.round
    requires TwoChainTcVerify(cfg.verifier, tc) && AuthenticTc(cfg, sys, tc) && tc.timeout.epoch == cfg.epoch
    ensures tc.timeout.HqcRound() >= round
  {
    var a := QuorumsShareCorrect(cfg.verifier, q.signedLedgerInfo.signatures.Keys, tc.signatures.Keys, cfg.faulty);
    var c := SignerVoted(cfg, sys, q, a);
    ParentCertificate(cfg, sys, a, c, q);
    assert NodeOk(cfg, sys, sys[a]);
    var t := TimeoutSigningRepr(tc.timeout.epoch, tc.timeout.round, tc.signatures[a].0);
    assert t in sys[a].timeouts;
    assert TimeoutsAdmitVotes(sys[a].votes, sys[a].timeouts);
  }

  lemma TwoChainRespects(cfg: Config, sys: System, q: QuorumCert, qc: QuorumCert)
    requires Assumptions(cfg) && Inv(cfg, sys) && cfg.twoChain
    requires IsCertificate(cfg, sys, q) && IsCertificate(cfg, sys, qc)
    requires q.CertifiedBlock().round == q.ParentBlock().round + 1
    ensures Respects(q.ParentBlock(), qc)
  {
    var r := q.ParentBlock().round;
    if qc.CertifiedBlock().round == r {
      var a, c, _ := CommonVoter(cfg, sys, q, q);
      ParentCertificate(cfg, sys, a, c, q);
      CertificatesUnique(cfg, sys, c.Qc(), qc);
    } else if qc.CertifiedBlock().round == r + 1 {
      CertificatesUnique(cfg, sys, q, qc);
    } else if qc.CertifiedBlock().round > r + 1 {
      var a, d, _ := CommonVoter(cfg, sys, qc, qc);
      ParentCertificate(cfg, sys, a, d, qc);
      if d.Round() != d.QcRound() + 1 {
        TimeoutKnowsCommitted(cfg, sys, q, d.rule.tc.value, r);
      }
    }
  }

  lemma TwoChainLocks(cfg: Config, sys: System, q: QuorumCert)
    requires Assumptions(cfg) && Inv(cfg, sys) && cfg.twoChain && IsCommitCertificate(cfg, sys, q)
    ensures Locked(cfg, sys, q.CommitInfo()) && CertifiedOrGenesis(cfg, sys, q.CommitInfo())
  {
    var a, c, _ := CommonVoter(cfg, sys, q, q);
    ParentCertificate(cfg, sys, a, c, q);
    forall qc | IsCertificate(cfg, sys, qc)
      ensures Respects(q.CommitInfo(), qc)
    {
      TwoChainRespects(cfg, sys, q, qc);
    }
  }

  lemma ThreeChainRespects(cfg: Config, sys: System, q: QuorumCert, q1: QuorumCert, qc: QuorumCert)
    requires Assumptions(cfg) && Inv(cfg, sys) && !cfg.twoChain
    requires IsCertificate(cfg, sys, q) && IsCertificate(cfg, sys, q1) && IsCertificate(cfg, sys, qc)
    requires q.ParentBlock() == q1.CertifiedBlock()
    requires q1.CertifiedBlock().round == q1.ParentBlock().round + 1 && q.CertifiedBlock().round == q1.CertifiedBlock().round + 1
    ensures Respects(q1.ParentBlock(), qc)
  {
    var r := q1.ParentBlock().round;
    if qc.CertifiedBlock().round == r {
      var a, c, _ := CommonVoter(cfg, sys, q1, q1);
      ParentCertificate(cfg, sys, a, c, q1);
      CertificatesUnique(cfg, sys, c.Qc(), qc);
    } else if qc.CertifiedBlock().round == r + 1 {
      CertificatesUnique(cfg, sys, q1, qc);
    } else if qc.CertifiedBlock().round == r + 2 {
      CertificatesUnique(cfg, sys, q, qc);
    } else if qc.CertifiedBlock().round > r + 2 {
      var a, c, d := CommonVoter(cfg, sys, q, qc);
      ParentCertificate(cfg, sys, a, c, q);
      ParentCertificate(cfg, sys, a, d, qc);
      CertificatesUnique(cfg, sys, c.Qc(), q1);
      assert NodeOk(cfg, sys, sys[a]);
      assert PreferredRespected(sys[a].votes);
    }
  }

  lemma ThreeChainLocks(cfg: Config, sys: System, q: QuorumCert)
    requires Assumptions(cfg) && Inv(cfg, sys) && !cfg.twoChain && IsCommitCertificate(cfg, sys, q)
    ensures Locked(cfg, sys, q.CommitInfo()) && CertifiedOrGenesis(cfg, sys, q.CommitInfo())
  {
    var a, c, _ := CommonVoter(cfg, sys, q, q);
    ParentCertificate(cfg, sys, a, c, q);
    var q1 := c.Qc();
    var a1, c1, _ := CommonVoter(cfg, sys, q1, q1);
    ParentCertificate(cfg, sys, a1, c1, q1);
    forall qc | IsCertificate(cfg, sys, qc)
      ensures Respects(q.CommitInfo(), qc)
    {
      ThreeChainRespects(cfg, sys, q, q1, qc);
    }
  }

  lemma CommitLocks(cfg: Config, sys: System, q: QuorumCert)
    requires Assumptions(cfg) && Inv(cfg, sys) && IsCommitCertificate(cfg, sys, q)
    ensures Locked(cfg, sys, q.CommitInfo()) && CertifiedOrGenesis(cfg, sys, q.CommitInfo())
  {
    if cfg.twoChain {
      TwoChainLocks(cfg, sys, q);
    } else {
      ThreeChainLocks(cfg, sys, q);
    }
  }

  lemma OrderedCommits(cfg: Config, sys: System, q: QuorumCert, r: QuorumCert)
    requires Assumptions(cfg) && Inv(cfg, sys)
    requires IsCommitCertificate(cfg, sys, q) && IsCommitCertificate(cfg, sys, r)
    requires q.CommitInfo().round <= r.CommitInfo().round
    ensures Extends(cfg, sys, r.CommitInfo(), q.CommitInfo())
  {
    CommitLocks(cfg, sys, q);
    CommitLocks(cfg, sys, r);
    if r.CommitInfo().round == 0 {
      ExtendsSelf(cfg, sys, cfg.genesis);
    } else {
      var qc :| IsCertificate(cfg, sys, qc) && qc.CertifiedBlock() == r.CommitInfo();
      LockedIsExtended(cfg, sys, q.CommitInfo(), qc);
    }
  }

  /**
    Commit safety: whenever, in any run, two blocks of the epoch are committed,
    at whatever two moments, one of them extends the other along certified
    blocks.
   */
  lemma CommitSafety(cfg: Config, states: seq<System>, steps: seq<Step>, i: nat, j: nat, q: QuorumCert, r: QuorumCert)
    requires Assumptions(cfg) && IsRun(cfg, states, steps) && i <= j < |states|
    requires IsCommitCertificate(cfg, states[i], q) && IsCommitCertificate(cfg, states[j], r)
    ensures Extends(cfg, states[j], q.CommitInfo(), r.CommitInfo()) || Extends(cfg, states[j], r.CommitInfo(), q.CommitInfo())
  {
    RunKeepsInv(cfg, states, steps, j);
    RunGrows(cfg, states, steps, i, j);
    AuthenticQcGrows(cfg, states[i], states[j], q);
    if q.CommitInfo().round <= r.CommitInfo().round {
      OrderedCommits(cfg, states[j], q, r);
    } else {
      OrderedCommits(cfg, states[j], r, q);
    }
  }
}
