/**
  From blocks to the ledger, within one epoch: when every block a correct
  validator votes for is what execution makes of its parent, the ledger infos
  that quorums of the epoch sign are those of one ledger.
 */
module EpochLedger {
  import opened Types
  import opened ValidatorVerifiers
  import opened Certificates
  import opened EpochChanges
  import opened SafetyRulesModel
  import opened SafetyJournals
  import opened ConsensusSafety

  // ----- execution -------------------------------------------------------

  /** The two blocks leave the ledger in the same place. */
  predicate SameLedger(x: BlockInfo, y: BlockInfo) {
    && x.executedStateId == y.executedStateId
    && x.version == y.version
    && x.timestampUsecs == y.timestampUsecs
    && x.nextEpochState == y.nextEpochState
  }

  /**
    A block adds transactions to its parent's ledger, at least its own
    metadata; only after a reconfiguration it repeats the parent's result.  A
    reconfiguration opens the next epoch.
   */
  predicate Follows(vd: VoteData) {
    && (vd.parent.version < vd.proposed.version || SameLedger(vd.parent, vd.proposed))
    && (vd.parent.nextEpochState.Some? ==> SameLedger(vd.parent, vd.proposed))
    && (vd.proposed.nextEpochState.Some? ==> vd.proposed.nextEpochState.value.epoch == vd.proposed.epoch + 1)
  }

  /** What a correct validator gives to its safety rules was executed. */
  predicate StepExecuted(step: Step) {
    match step
    case VoteStep2(_, p, _, _) => GenVoteData(p).Ok? ==> Follows(GenVoteData(p).value)
    case VoteStep3(_, p, _) => GenVoteData(p).Ok? ==> Follows(GenVoteData(p).value)
    case _ => true
  }

  ghost predicate VotesFollow(sys: System) {
    forall a, c :: a in sys && c in sys[a].votes ==> Follows(c.voteData)
  }

  lemma VoteBindsExecution(j: Journal, step: Step, c: CastVote)
    requires c in ApplyTo(j, step).votes && c !in j.votes
    ensures step.VoteStep2? || step.VoteStep3?
    ensures GenVoteData(step.proposal) == Ok(c.voteData)
  {
  }

  lemma StepKeepsFollow(sys: System, step: Step)
    requires VotesFollow(sys) && step.author in sys && StepExecuted(step)
    ensures VotesFollow(Apply(sys, step))
  {
    forall a, c | a in sys && c in Apply(sys, step)[a].votes
      ensures Follows(c.voteData)
    {
      if c !in sys[a].votes {
        VoteBindsExecution(sys[a], step, c);
      }
    }
  }

  // ----- along the chain ---------------------------------------------------

  lemma CertificateFollows(cfg: Config, sys: System, qc: QuorumCert)
    requires Assumptions(cfg) && Inv(cfg, sys) && VotesFollow(sys) && IsCertificate(cfg, sys, qc)
    ensures Follows(qc.voteData)
  {
    var a, c, _ := CommonVoter(cfg, sys, qc, qc);
  }

  /** What a certified block leaves of the ledger of a block it extends. */
  predicate Continues(b0: BlockInfo, b: BlockInfo) {
    && b0.version <= b.version
    && (b0.version == b.version ==> SameLedger(b0, b))
    && (b0.nextEpochState.Some? ==> SameLedger(b0, b))
  }

  lemma {:induction false} PathContinues(cfg: Config, sys: System, b: BlockInfo, b0: BlockInfo, chain: seq<QuorumCert>)
    requires Assumptions(cfg) && Inv(cfg, sys) && VotesFollow(sys) && Path(cfg, sys, b, b0, chain)
    ensures Continues(b0, b)
    decreases |chain|
  {
    if chain != [] {
      CertificateFollows(cfg, sys, chain[0]);
      PathContinues(cfg, sys, chain[0].ParentBlock(), b0, chain[1..]);
    }
  }

  // ----- time --------------------------------------------------------------

  /** Some correct validator voted for it as an ordinary block. */
  ghost predicate IsOrdinary(sys: System, qc: QuorumCert) {
    exists a, c :: VotedFor(sys, a, c, qc) && Ordinary(c.block)
  }

  /** Some correct validator's clock was at most five minutes behind. */
  ghost predicate WithinClock(sys: System, qc: QuorumCert) {
    exists a, c :: VotedFor(sys, a, c, qc) && qc.CertifiedBlock().timestampUsecs <= c.now + 5 * 60 * 1_000_000
  }

  /** The time of a certified block never falls behind its parent's; an ordinary one's is past it and within a correct clock. */
  lemma CertifiedTime(cfg: Config, sys: System, qc: QuorumCert)
    requires Assumptions(cfg) && Inv(cfg, sys) && IsCertificate(cfg, sys, qc)
    ensures qc.ParentBlock().timestampUsecs <= qc.CertifiedBlock().timestampUsecs
    ensures IsOrdinary(sys, qc) ==> qc.ParentBlock().timestampUsecs < qc.CertifiedBlock().timestampUsecs && WithinClock(sys, qc)
    ensures !IsOrdinary(sys, qc) ==> qc.ParentBlock().timestampUsecs == qc.CertifiedBlock().timestampUsecs
  {
    var a, c, _ := CommonVoter(cfg, sys, qc, qc);
    assert NodeOk(cfg, sys, sys[a]);
    if IsOrdinary(sys, qc) {
      a, c :| VotedFor(sys, a, c, qc) && Ordinary(c.block);
      assert NodeOk(cfg, sys, sys[a]);
    }
  }

  ghost function Ordinaries(sys: System, chain: seq<QuorumCert>): nat {
    if chain == [] then 0 else (if IsOrdinary(sys, chain[0]) then 1 else 0) + Ordinaries(sys, chain[1..])
  }

  /** Along certified blocks time never falls, and rises at every ordinary one. */
  lemma {:induction false} PathTime(cfg: Config, sys: System, b: BlockInfo, b0: BlockInfo, chain: seq<QuorumCert>)
    requires Assumptions(cfg) && Inv(cfg, sys) && Path(cfg, sys, b, b0, chain)
    ensures b0.timestampUsecs + Ordinaries(sys, chain) <= b.timestampUsecs
    ensures Ordinaries(sys, chain) == 0 ==> b0.timestampUsecs == b.timestampUsecs
    decreases |chain|
  {
    if chain != [] {
      CertifiedTime(cfg, sys, chain[0]);
      PathTime(cfg, sys, chain[0].ParentBlock(), b0, chain[1..]);
    }
  }

  // ----- signed ledger infos -------------------------------------------------

  ghost predicate Authentic(cfg: Config, sys: System, li: LedgerInfoWithSignatures) {
    forall a :: a in li.signatures ==> AuthenticLedgerInfo(cfg, sys, a, li.ledgerInfo, li.signatures[a])
  }

  /** Signed by a quorum of the epoch; signatures of correct validators are theirs. */
  ghost predicate SignedIn(cfg: Config, sys: System, li: LedgerInfoWithSignatures) {
    && li.ledgerInfo.commitInfo.epoch == cfg.epoch
    && LedgerInfoVerify(cfg.verifier, li)
    && Authentic(cfg, sys, li)
  }

  lemma AuthenticGrows(cfg: Config, sys: System, sys': System, li: LedgerInfoWithSignatures)
    requires Grows(sys, sys') && Authentic(cfg, sys, li)
    ensures Authentic(cfg, sys', li)
  {
    AuthenticQcGrows(cfg, sys, sys', QuorumCert(VoteData(EMPTY_BLOCK_INFO, EMPTY_BLOCK_INFO), li));
  }

  /** An epoch of the ledger: not the one before it, and its genesis block ends nothing. */
  ghost predicate LedgerEpoch(cfg: Config) {
    Assumptions(cfg) && cfg.epoch > 0 && cfg.genesis.nextEpochState.None?
  }

  /** The epoch of what a vote commits is the epoch of the vote. */
  lemma CommitsItsEpoch(c: CastVote)
    requires Evidenced(c) && c.ledgerInfo.commitInfo != EMPTY_BLOCK_INFO
    ensures c.ledgerInfo.commitInfo.epoch == c.Epoch()
  {
  }

  lemma SignedWasVoted(cfg: Config, sys: System, li: LedgerInfoWithSignatures) returns (a: Address, c: CastVote)
    requires LedgerEpoch(cfg) && Inv(cfg, sys) && SignedIn(cfg, sys, li)
    ensures a in sys && c in sys[a].votes && c.ledgerInfo == li.ledgerInfo && Evidenced(c)
  {
    a := QuorumsShareCorrect(cfg.verifier, li.signatures.Keys, li.signatures.Keys, cfg.faulty);
    assert AuthenticLedgerInfo(cfg, sys, a, li.ledgerInfo, li.signatures[a]);
    assert NodeOk(cfg, sys, sys[a]);
    c :| c in sys[a].votes && c.ledgerInfo == li.ledgerInfo;
  }

  /** A ledger info signed by a quorum is that of a commit certificate. */
  lemma SignedIsCommitted(cfg: Config, sys: System, li: LedgerInfoWithSignatures) returns (qc: QuorumCert)
    requires LedgerEpoch(cfg) && Inv(cfg, sys) && VotesFollow(sys) && SignedIn(cfg, sys, li)
    ensures IsCommitCertificate(cfg, sys, qc) && qc.signedLedgerInfo == li
  {
    var a, c := SignedWasVoted(cfg, sys, li);
    CommitsItsEpoch(c);
    assert Follows(c.voteData);
    qc := QuorumCert(c.voteData, li);
    assert AuthenticQc(cfg, sys, qc);
    assert VoteDataVerify(qc.voteData);
  }

  lemma SignedInOrder(cfg: Config, sys: System, q: QuorumCert, r: QuorumCert)
    requires LedgerEpoch(cfg) && Inv(cfg, sys) && VotesFollow(sys)
    requires IsCommitCertificate(cfg, sys, q) && IsCommitCertificate(cfg, sys, r)
    requires q.CommitInfo().round <= r.CommitInfo().round
    ensures Continues(q.CommitInfo(), r.CommitInfo())
  {
    OrderedCommits(cfg, sys, q, r);
    var chain :| Path(cfg, sys, r.CommitInfo(), q.CommitInfo(), chain);
    PathContinues(cfg, sys, r.CommitInfo(), q.CommitInfo(), chain);
  }

  /** Two ledger infos of the epoch: the version tells which, and nothing comes after the one that ends the epoch. */
  lemma SignedAgree(cfg: Config, sys: System, x: LedgerInfoWithSignatures, y: LedgerInfoWithSignatures)
    requires LedgerEpoch(cfg) && Inv(cfg, sys) && VotesFollow(sys)
    requires SignedIn(cfg, sys, x) && SignedIn(cfg, sys, y)
    ensures x.ledgerInfo.commitInfo.version == y.ledgerInfo.commitInfo.version ==>
              WaypointFields(x.ledgerInfo) == WaypointFields(y.ledgerInfo)
    ensures x.ledgerInfo.commitInfo.version < y.ledgerInfo.commitInfo.version ==> !x.ledgerInfo.EndsEpoch()
  {
    var q := SignedIsCommitted(cfg, sys, x);
    var r := SignedIsCommitted(cfg, sys, y);
    if q.CommitInfo().round <= r.CommitInfo().round {
      SignedInOrder(cfg, sys, q, r);
    } else {
      SignedInOrder(cfg, sys, r, q);
    }
  }

  /** The ledger info that ends the epoch opens the next one. */
  lemma SignedAdvances(cfg: Config, sys: System, x: LedgerInfoWithSignatures)
    requires LedgerEpoch(cfg) && Inv(cfg, sys) && VotesFollow(sys)
    requires SignedIn(cfg, sys, x) && x.ledgerInfo.EndsEpoch()
    ensures x.ledgerInfo.commitInfo.nextEpochState.value.epoch == cfg.epoch + 1
  {
    var q := SignedIsCommitted(cfg, sys, x);
    CommitLocks(cfg, sys, q);
    var qc :| IsCertificate(cfg, sys, qc) && qc.CertifiedBlock() == q.CommitInfo();
    CertificateFollows(cfg, sys, qc);
  }
}
