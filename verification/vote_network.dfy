/**
  The aggregators on top of the protocol: any number of replicas, each running
  its own `PendingVotes` on whatever votes the network delivers.
 */
module VoteNetwork {
  import opened Types
  import opened ValidatorVerifiers
  import opened SafetyJournals
  import opened ConsensusSafety
  import opened PendingVotesModel
  import opened VoteAggregation

  /** A delivered vote: verified by the receiver, and not made up if its author is correct. */
  ghost predicate Delivered(cfg: Config, sys: System, round: U64, vote: Vote) {
    && VerifiedVote(cfg.verifier, cfg.epoch, round, vote)
    && AuthenticLedgerInfo(cfg, sys, vote.author, vote.ledgerInfo, vote.signature)
  }

  ghost predicate AllDelivered(cfg: Config, sys: System, round: U64, votes: seq<Vote>) {
    forall i :: 0 <= i < |votes| ==> Delivered(cfg, sys, round, votes[i])
  }

  lemma {:induction false} StoredWereDelivered(votes: seq<Vote>, v: ValidatorVerifier, a: Address)
    requires Wellformed(v) && a in Run(votes, v).authorToVote
    ensures Run(votes, v).authorToVote[a] in votes
  {
    if votes != [] {
      var prefix := votes[..|votes| - 1];
      InsertSummary(Run(prefix, v), votes[|votes| - 1], v);
      if a in Run(prefix, v).authorToVote {
        StoredWereDelivered(prefix, v, a);
      }
    }
  }

  /** What an aggregator hands out as a quorum certificate is one. */
  lemma AggregatedIsCertificate(cfg: Config, sys: System, round: U64, votes: seq<Vote>, k: nat)
    requires LedgerInfoHashInjective() && Assumptions(cfg)
    requires AllDelivered(cfg, sys, round, votes) && k < |votes|
    requires Answer(votes, cfg.verifier, k).NewQuorumCertificate?
    ensures IsCertificate(cfg, sys, Answer(votes, cfg.verifier, k).qc)
    ensures Answer(votes, cfg.verifier, k).qc.CertifiedBlock().round == round
  {
    var v, p, vote := cfg.verifier, Run(votes[..k], cfg.verifier), votes[k];
    CertificatesVerify(votes, v, cfg.epoch, round, k);
    InsertSummary(p, vote, v);
    PartitionRun(votes[..k], v);
    SignedRun(votes[..k], v, cfg.epoch, round);
    CollectedSigned(p, vote, v);
    CollectedSigners(p, vote);
    var li := Collected(p, vote);
    forall a | a in li.signatures
      ensures AuthenticLedgerInfo(cfg, sys, a, li.ledgerInfo, li.signatures[a])
    {
      assert Delivered(cfg, sys, round, vote);
      if a != vote.author {
        StoredWereDelivered(votes[..k], v, a);
        var i :| 0 <= i < k && votes[i] == p.authorToVote[a];
        assert Delivered(cfg, sys, round, votes[i]);
      }
    }
  }

  /**
    Every quorum certificate returned anywhere in the round, by any replica on
    any votes, is for the same ledger info and the same block.
   */
  lemma CertificatesAgreeAcrossReplicas(cfg: Config, states: seq<System>, steps: seq<Step>, i: nat, round: U64,
                                        xs: seq<Vote>, k: nat, ys: seq<Vote>, l: nat)
    requires LedgerInfoHashInjective() && Assumptions(cfg) && IsRun(cfg, states, steps) && i < |states|
    requires AllDelivered(cfg, states[i], round, xs) && AllDelivered(cfg, states[i], round, ys)
    requires k < |xs| && Answer(xs, cfg.verifier, k).NewQuorumCertificate?
    requires l < |ys| && Answer(ys, cfg.verifier, l).NewQuorumCertificate?
    ensures var q, r := Answer(xs, cfg.verifier, k).qc, Answer(ys, cfg.verifier, l).qc;
            q.signedLedgerInfo.ledgerInfo == r.signedLedgerInfo.ledgerInfo && q.voteData == r.voteData
  {
    RunKeepsInv(cfg, states, steps, i);
    AggregatedIsCertificate(cfg, states[i], round, xs, k);
    AggregatedIsCertificate(cfg, states[i], round, ys, l);
    CertificatesUnique(cfg, states[i], Answer(xs, cfg.verifier, k).qc, Answer(ys, cfg.verifier, l).qc);
  }

  /** Two delivered votes of one correct author in one round carry the same ledger info. */
  lemma CorrectAuthorsVoteOnce(cfg: Config, sys: System, round: U64, x: Vote, y: Vote)
    requires Assumptions(cfg) && Inv(cfg, sys)
    requires Delivered(cfg, sys, round, x) && Delivered(cfg, sys, round, y)
    requires x.author == y.author && x.author in sys
    ensures x.ledgerInfo == y.ledgerInfo && x.voteData == y.voteData
  {
    var j := sys[x.author];
    assert NodeOk(cfg, sys, j);
    var c :| c in j.votes && c.ledgerInfo == x.ledgerInfo;
    var d :| d in j.votes && d.ledgerInfo == y.ledgerInfo;
    assert VoteDataHash(c.voteData) == VoteDataHash(x.voteData);
    assert VoteDataHash(d.voteData) == VoteDataHash(y.voteData);
    assert OneVotePerRound(j.votes);
  }

  /** No receiver's aggregator ever reports a correct author for equivocation. */
  lemma CorrectAuthorsNeverEquivocate(cfg: Config, states: seq<System>, steps: seq<Step>, i: nat, round: U64, votes: seq<Vote>, k: nat)
    requires Assumptions(cfg) && IsRun(cfg, states, steps) && i < |states|
    requires AllDelivered(cfg, states[i], round, votes) && k < |votes| && votes[k].author in states[i]
    ensures !Answer(votes, cfg.verifier, k).EquivocateVote?
  {
    RunKeepsInv(cfg, states, steps, i);
    var p := Run(votes[..k], cfg.verifier);
    InsertSummary(p, votes[k], cfg.verifier);
    if votes[k].author in p.authorToVote {
      StoredWereDelivered(votes[..k], cfg.verifier, votes[k].author);
      PartitionRun(votes[..k], cfg.verifier);
      var h :| 0 <= h < k && votes[h] == p.authorToVote[votes[k].author];
      CorrectAuthorsVoteOnce(cfg, states[i], round, votes[h], votes[k]);
    }
  }
}
