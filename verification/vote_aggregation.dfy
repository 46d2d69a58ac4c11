/**
  Whole runs of `PendingVotes::insert_vote`: every certificate it hands out
  verifies, the outcome does not depend on the order of arrival, and an author
  can move the aggregator at most twice.
 */
module VoteAggregation {
  import opened Types
  import opened ValidatorVerifiers
  import opened Certificates
  import opened PendingVotesModel

  // ----- every certificate verifies --------------------------------------

  /** What `RoundState` lets through: verified votes of its epoch and round. */
  ghost predicate VerifiedVote(v: ValidatorVerifier, epoch: U64, round: U64, vote: Vote) {
    VoteVerify(v, vote) && vote.Epoch() == epoch && vote.Round() == round
  }

  predicate SignedBy(v: ValidatorVerifier, m: Message, sigs: map<Address, Signature>) {
    forall a :: a in sigs ==> a in v.infos && SignatureVerifies(v.infos[a].publicKey, m, sigs[a])
  }

  ghost predicate LedgerInfosSigned(lis: map<HashValue, LedgerInfoWithSignatures>, v: ValidatorVerifier) {
    forall d :: d in lis ==> SignedBy(v, LedgerInfoMessage(lis[d].ledgerInfo), lis[d].signatures)
  }

  ghost predicate TcSigned(tc: Option<TimeoutCertificate>, v: ValidatorVerifier, epoch: U64, round: U64) {
    tc.Some? ==> tc.value.timeout == Timeout(epoch, round) && SignedBy(v, TimeoutMessage(tc.value.timeout), tc.value.signatures)
  }

  ghost predicate Tc2Signed(tc: Option<TwoChainTimeoutCertificate>, v: ValidatorVerifier, epoch: U64, round: U64) {
    tc.Some? ==>
      && tc.value.timeout.epoch == epoch
      && tc.value.timeout.round == round
      && TwoChainTimeoutVerify(v, tc.value.timeout)
      && (forall a :: a in tc.value.signatures ==> TwoChainSignatureValid(v, epoch, round, a, tc.value.signatures[a]))
      && HighestSigned(tc.value.signatures, tc.value.timeout.HqcRound())
  }

  /** All that is collected so far is signed by the validators it is attributed to. */
  ghost predicate Signed(p: Pending, v: ValidatorVerifier, epoch: U64, round: U64) {
    && LedgerInfosSigned(p.liDigestToVotes, v)
    && TcSigned(p.maybePartialTc, v, epoch, round)
    && Tc2Signed(p.maybePartial2chainTc, v, epoch, round)
  }

  ghost predicate AnswerVerifies(r: VoteReceptionResult, v: ValidatorVerifier) {
    match r
    case NewQuorumCertificate(qc) => QuorumCertVerify(v, qc)
    case NewTimeoutCertificate(tc) => TimeoutCertVerify(v, tc)
    case New2ChainTimeoutCertificate(tc) => TwoChainTcVerify(v, tc)
    case ErrorAddingVote(_) => false
    case _ => true
  }

  lemma CollectedSigned(p: Pending, vote: Vote, v: ValidatorVerifier)
    requires LedgerInfoHashInjective()
    requires Partition(p) && LedgerInfosSigned(p.liDigestToVotes, v)
    requires VoteVerify(v, vote)
    ensures SignedBy(v, LedgerInfoMessage(Collected(p, vote).ledgerInfo), Collected(p, vote).signatures)
    ensures Collected(p, vote).ledgerInfo == vote.ledgerInfo
    ensures Collected(p, vote).signatures.Keys <= v.infos.Keys
  {
    if Digest(vote) in p.liDigestToVotes {
      assert LedgerInfoHash(p.liDigestToVotes[Digest(vote)].ledgerInfo) == LedgerInfoHash(vote.ledgerInfo);
    }
  }

  lemma Add2chainSigned(tc: TwoChainTimeoutCertificate, a: Address, timeout: TwoChainTimeout, sig: Signature,
                        v: ValidatorVerifier, epoch: U64, round: U64)
    requires TwoChainTimeoutVerify(v, timeout) && timeout.epoch == epoch && timeout.round == round
    requires TwoChainSignatureValid(v, epoch, round, a, (timeout.HqcRound(), sig))
    requires a !in tc.signatures
    requires tc == TwoChainTimeoutCertificate(timeout, map[]) || Tc2Signed(Some(tc), v, epoch, round)
    ensures Tc2Signed(Some(Add2chain(tc, a, timeout, sig)), v, epoch, round)
  {
    var tc' := Add2chain(tc, a, timeout, sig);
    assert tc'.signatures[a].0 == timeout.HqcRound();
    forall x | x in tc'.signatures
      ensures TwoChainSignatureValid(v, epoch, round, x, tc'.signatures[x])
      ensures tc'.signatures[x].0 <= tc'.timeout.HqcRound()
    {
      assert x != a ==> tc'.signatures[x] == tc.signatures[x];
    }
    if timeout.HqcRound() <= tc.timeout.HqcRound() && tc.signatures != map[] && tc.timeout.HqcRound() != 0 {
      var x :| x in tc.signatures && tc.signatures[x].0 == tc.timeout.HqcRound();
      assert tc'.signatures[x].0 == tc'.timeout.HqcRound();
    }
  }

  lemma Tc2Completes(tc: TwoChainTimeoutCertificate, v: ValidatorVerifier, epoch: U64, round: U64)
    requires Wellformed(v) && Tc2Signed(Some(tc), v, epoch, round)
    ensures tc.signatures.Keys <= v.infos.Keys
    ensures VotingPowerVerdict(v, tc.signatures.Keys).Ok? <==> TwoChainTcVerify(v, tc)
  {
    assert forall a :: a in tc.signatures ==> TwoChainSignatureValid(v, epoch, round, a, tc.signatures[a]);
  }

  lemma Insert2chainVerifies(p: Pending, vote: Vote, v: ValidatorVerifier, power: U64, epoch: U64, round: U64)
    requires Wellformed(v) && Signed(p, v, epoch, round) && VerifiedVote(v, epoch, round, vote)
    requires vote.twoChainTimeout.Some? && p.maybePartial2chainTc.Some? ==>
               vote.author !in p.maybePartial2chainTc.value.signatures
    ensures Signed(Insert2chainTimeout(p, vote, v, power).1, v, epoch, round)
    ensures AnswerVerifies(Insert2chainTimeout(p, vote, v, power).0, v)
  {
    if vote.twoChainTimeout.Some? {
      var (timeout, sig) := vote.twoChainTimeout.value;
      var partial := if p.maybePartial2chainTc.Some? then p.maybePartial2chainTc.value
                     else TwoChainTimeoutCertificate(timeout, map[]);
      var tc := Add2chain(partial, vote.author, timeout, sig);
      Add2chainSigned(partial, vote.author, timeout, sig, v, epoch, round);
      Tc2Completes(tc, v, epoch, round);
      assert Insert2chainTimeout(p, vote, v, power).1 == p.(maybePartial2chainTc := Some(tc));
    }
  }

  lemma InsertTimeoutVerifies(p: Pending, vote: Vote, v: ValidatorVerifier, power: U64, epoch: U64, round: U64)
    requires Wellformed(v) && Signed(p, v, epoch, round) && VerifiedVote(v, epoch, round, vote)
    requires vote.twoChainTimeout.Some? && p.maybePartial2chainTc.Some? ==>
               vote.author !in p.maybePartial2chainTc.value.signatures
    ensures Signed(InsertTimeout(p, vote, v, power).1, v, epoch, round)
    ensures AnswerVerifies(InsertTimeout(p, vote, v, power).0, v)
  {
    if vote.timeoutSignature.None? {
      Insert2chainVerifies(p, vote, v, power, epoch, round);
    } else {
      var partial := if p.maybePartialTc.Some? then p.maybePartialTc.value
                     else TimeoutCertificate(vote.GenerateTimeout(), map[]);
      var tc := partial.(signatures := AddSignature(partial.signatures, vote.author, vote.timeoutSignature.value));
      assert TcSigned(Some(tc), v, epoch, round);
      assert tc.signatures.Keys <= v.infos.Keys;
      var p' := p.(maybePartialTc := Some(tc));
      Insert2chainVerifies(p', vote, v, power, epoch, round);
    }
  }

  lemma InsertVerifies(p: Pending, vote: Vote, v: ValidatorVerifier, epoch: U64, round: U64)
    requires LedgerInfoHashInjective()
    requires Wellformed(v) && Partition(p) && Signed(p, v, epoch, round) && VerifiedVote(v, epoch, round, vote)
    ensures Signed(InsertVote(p, vote, v).1, v, epoch, round)
    ensures AnswerVerifies(InsertVote(p, vote, v).0, v)
  {
    InsertSummary(p, vote, v);
    if Fresh(p, vote) {
      CollectedSigned(p, vote, v);
      assert LedgerInfosSigned(Stored(p, vote).liDigestToVotes, v);
      var verdict := VotingPowerVerdict(v, Collected(p, vote).signatures.Keys);
      if verdict.Err? {
        InsertTimeoutVerifies(Stored(p, vote), vote, v, verdict.error.votingPower, epoch, round);
      }
    }
  }

  lemma {:induction false} SignedRun(votes: seq<Vote>, v: ValidatorVerifier, epoch: U64, round: U64)
    requires LedgerInfoHashInjective() && Wellformed(v)
    requires forall k :: 0 <= k < |votes| ==> VerifiedVote(v, epoch, round, votes[k])
    ensures Signed(Run(votes, v), v, epoch, round)
  {
    if votes != [] {
      var prefix := votes[..|votes| - 1];
      SignedRun(prefix, v, epoch, round);
      PartitionRun(prefix, v);
      InsertVerifies(Run(prefix, v), votes[|votes| - 1], v, epoch, round);
    }
  }

  /**
    After any sequence of individually verified votes, duplicates and
    re-submissions with a timeout included, each certificate returned passes
    the full verification its receivers will apply, and no vote is refused
    with an error.
   */
  lemma CertificatesVerify(votes: seq<Vote>, v: ValidatorVerifier, epoch: U64, round: U64, k: nat)
    requires LedgerInfoHashInjective() && Wellformed(v)
    requires forall i :: 0 <= i < |votes| ==> VerifiedVote(v, epoch, round, votes[i])
    requires k < |votes|
    ensures AnswerVerifies(Answer(votes, v, k), v)
  {
    SignedRun(votes[..k], v, epoch, round);
    PartitionRun(votes[..k], v);
    InsertVerifies(Run(votes[..k], v), votes[k], v, epoch, round);
  }

  // ----- the order of arrival --------------------------------------------

  ghost predicate KnownAuthors(votes: seq<Vote>, v: ValidatorVerifier) {
    forall i :: 0 <= i < |votes| ==> votes[i].author in v.infos
  }

  ghost predicate NoEquivocation(votes: seq<Vote>) {
    forall i, j :: 0 <= i < |votes| && 0 <= j < |votes| && votes[i].author == votes[j].author ==>
      Digest(votes[i]) == Digest(votes[j])
  }

  /** The distinct authors among the votes that chose the digest. */
  function Backers(votes: seq<Vote>, digest: HashValue): set<Address> {
    set i | 0 <= i < |votes| && Digest(votes[i]) == digest :: votes[i].author
  }

  lemma BackersExtend(votes: seq<Vote>, digest: HashValue)
    requires votes != []
    ensures var last := votes[|votes| - 1];
            Backers(votes, digest) == Backers(votes[..|votes| - 1], digest) + if Digest(last) == digest then {last.author} else {}
  {
    var prefix := votes[..|votes| - 1];
    forall a | a in Backers(prefix, digest)
      ensures a in Backers(votes, digest)
    {
      var i :| 0 <= i < |prefix| && Digest(prefix[i]) == digest && prefix[i].author == a;
      assert votes[i] == prefix[i];
    }
  }

  /** The votes stored are those of the backers, whatever was re-sent in between. */
  lemma {:induction false} StoredWereCast(votes: seq<Vote>, v: ValidatorVerifier, a: Address)
    requires Wellformed(v) && a in Run(votes, v).authorToVote
    ensures exists i :: 0 <= i < |votes| && votes[i].author == a && Digest(votes[i]) == Digest(Run(votes, v).authorToVote[a])
  {
    var n := |votes| - 1;
    var prefix := votes[..n];
    var p := Run(prefix, v);
    InsertSummary(p, votes[n], v);
    if a in p.authorToVote && p.authorToVote[a] == Run(votes, v).authorToVote[a] {
      StoredWereCast(prefix, v, a);
      var i :| 0 <= i < |prefix| && prefix[i].author == a && Digest(prefix[i]) == Digest(p.authorToVote[a]);
      assert votes[i].author == a;
    } else {
      assert votes[n].author == a;
    }
  }

  lemma {:induction false} StoredAreBackers(votes: seq<Vote>, v: ValidatorVerifier, digest: HashValue)
    requires Wellformed(v) && NoEquivocation(votes)
    ensures Voters(Run(votes, v).authorToVote, digest) == Backers(votes, digest)
    ensures forall a :: a in Run(votes, v).authorToVote ==>
              exists i :: 0 <= i < |votes| && votes[i].author == a && Digest(votes[i]) == Digest(Run(votes, v).authorToVote[a])
  {
    forall a | a in Run(votes, v).authorToVote
      ensures exists i :: 0 <= i < |votes| && votes[i].author == a && Digest(votes[i]) == Digest(Run(votes, v).authorToVote[a])
    {
      StoredWereCast(votes, v, a);
    }
    if votes != [] {
      var n := |votes| - 1;
      var prefix := votes[..n];
      StoredAreBackers(prefix, v, digest);
      BackersExtend(votes, digest);
      var p := Run(prefix, v);
      InsertSummary(p, votes[n], v);
      if Fresh(p, votes[n]) {
        VotersAfter(p, votes[n], digest);
      } else {
        var i :| 0 <= i < |prefix| && prefix[i].author == votes[n].author && Digest(prefix[i]) == Digest(p.authorToVote[votes[n].author]);
        assert votes[i].author == votes[n].author;
        assert Digest(votes[n]) == digest ==> votes[n].author in Voters(p.authorToVote, digest);
      }
    }
  }

  ghost predicate Certifies(votes: seq<Vote>, v: ValidatorVerifier, digest: HashValue, k: nat)
    requires Wellformed(v)
  {
    && k < |votes|
    && Answer(votes, v, k).NewQuorumCertificate?
    && LedgerInfoHash(Answer(votes, v, k).qc.signedLedgerInfo.ledgerInfo) == digest
  }

  /** What is collected with a new vote is signed by the backers of its digest so far. */
  lemma CollectedAreBackers(votes: seq<Vote>, v: ValidatorVerifier, k: nat)
    requires Wellformed(v) && KnownAuthors(votes, v) && NoEquivocation(votes) && k < |votes|
    requires Fresh(Run(votes[..k], v), votes[k])
    ensures var collected := Collected(Run(votes[..k], v), votes[k]);
            && collected.signatures.Keys == Backers(votes[..k + 1], Digest(votes[k]))
            && LedgerInfoHash(collected.ledgerInfo) == Digest(votes[k])
  {
    PartitionRun(votes[..k], v);
    CollectedSigners(Run(votes[..k], v), votes[k]);
    StoredAreBackers(votes[..k], v, Digest(votes[k]));
    BackersExtend(votes[..k + 1], Digest(votes[k]));
    assert votes[..k + 1][..k] == votes[..k];
  }

  lemma BackersAreKnown(votes: seq<Vote>, v: ValidatorVerifier, digest: HashValue)
    requires KnownAuthors(votes, v)
    ensures Backers(votes, digest) <= v.infos.Keys
  {
  }

  /** A certificate is returned when, and only when, the vote is new and its backers reach the quorum with it. */
  lemma CertifiesIff(votes: seq<Vote>, v: ValidatorVerifier, digest: HashValue, k: nat)
    requires Wellformed(v) && KnownAuthors(votes, v) && NoEquivocation(votes) && k < |votes|
    ensures Certifies(votes, v, digest, k) <==>
              && Digest(votes[k]) == digest
              && Fresh(Run(votes[..k], v), votes[k])
              && Power(v.infos, Backers(votes[..k + 1], digest)) >= v.quorumVotingPower
  {
    InsertSummary(Run(votes[..k], v), votes[k], v);
    if Fresh(Run(votes[..k], v), votes[k]) {
      CollectedAreBackers(votes, v, k);
      BackersAreKnown(votes[..k + 1], v, Digest(votes[k]));
    }
  }

  lemma AddedWithPower(p: Pending, vote: Vote, v: ValidatorVerifier)
    requires Wellformed(v) && InsertVote(p, vote, v).0.VoteAdded?
    ensures Fresh(p, vote) && InsertVote(p, vote, v).0.votingPower == Power(v.infos, Collected(p, vote).signatures.Keys)
  {
  }

  /** A vote that completes nothing is answered with the power behind its ledger info so far. */
  lemma AnswerCarriesPower(votes: seq<Vote>, v: ValidatorVerifier, k: nat)
    requires Wellformed(v) && KnownAuthors(votes, v) && NoEquivocation(votes) && k < |votes|
    requires Answer(votes, v, k).VoteAdded?
    ensures Answer(votes, v, k).votingPower == Power(v.infos, Backers(votes[..k + 1], Digest(votes[k])))
    ensures Answer(votes, v, k).votingPower < v.quorumVotingPower
  {
    AddedWithPower(Run(votes[..k], v), votes[k], v);
    CollectedAreBackers(votes, v, k);
    InsertSummary(Run(votes[..k], v), votes[k], v);
  }

  /** A first vote by a stranger is refused as such, with everything collected for its ledger info from then on. */
  lemma StrangersAreReported(p: Pending, vote: Vote, v: ValidatorVerifier)
    requires Wellformed(v) && Fresh(p, vote) && vote.author !in v.infos
    ensures InsertVote(p, vote, v).0 == ErrorAddingVote(UnknownAuthor)
  {
    assert vote.author in Collected(p, vote).signatures.Keys;
  }

  lemma FirstVoteIsFresh(votes: seq<Vote>, v: ValidatorVerifier, k: nat)
    requires Wellformed(v) && NoEquivocation(votes) && k < |votes|
    requires votes[k].author !in Backers(votes[..k], Digest(votes[k]))
    ensures Fresh(Run(votes[..k], v), votes[k])
  {
    StoredAreBackers(votes[..k], v, Digest(votes[k]));
  }

  lemma BackersGrow(votes: seq<Vote>, digest: HashValue, k: nat)
    requires k <= |votes|
    ensures Backers(votes[..k], digest) <= Backers(votes, digest)
  {
    forall a | a in Backers(votes[..k], digest)
      ensures a in Backers(votes, digest)
    {
      var i :| 0 <= i < k && Digest(votes[..k][i]) == digest && votes[..k][i].author == a;
      assert votes[i] == votes[..k][i];
    }
  }

  /** The vote that completes the quorum among the first n. */
  lemma {:induction false} FindCertifying(votes: seq<Vote>, v: ValidatorVerifier, digest: HashValue, n: nat) returns (k: nat)
    requires Wellformed(v) && KnownAuthors(votes, v) && NoEquivocation(votes) && n <= |votes|
    requires Backers(votes[..n], digest) != {} && Power(v.infos, Backers(votes[..n], digest)) >= v.quorumVotingPower
    ensures Certifies(votes, v, digest, k)
  {
    assert votes[..n][..n - 1] == votes[..n - 1];
    BackersExtend(votes[..n], digest);
    if Backers(votes[..n], digest) == Backers(votes[..n - 1], digest) {
      k := FindCertifying(votes, v, digest, n - 1);
    } else {
      k := n - 1;
      FirstVoteIsFresh(votes, v, k);
      CertifiesIff(votes, v, digest, k);
    }
  }

  /**
    Some call returns a quorum certificate for a digest exactly when the
    distinct authors voting for it hold quorum power.  The right-hand side
    knows nothing of order, duplicates or timeout re-sends.
   */
  lemma OrderIndependence(votes: seq<Vote>, v: ValidatorVerifier, digest: HashValue)
    requires Wellformed(v) && KnownAuthors(votes, v) && NoEquivocation(votes)
    ensures (exists k: nat :: Certifies(votes, v, digest, k)) <==>
              Backers(votes, digest) != {} && Power(v.infos, Backers(votes, digest)) >= v.quorumVotingPower
  {
    assert votes[..|votes|] == votes;
    if Backers(votes, digest) != {} && Power(v.infos, Backers(votes, digest)) >= v.quorumVotingPower {
      var k := FindCertifying(votes, v, digest, |votes|);
    }
    forall k: nat | Certifies(votes, v, digest, k)
      ensures Backers(votes, digest) != {} && Power(v.infos, Backers(votes, digest)) >= v.quorumVotingPower
    {
      CertifiesIff(votes, v, digest, k);
      BackersGrow(votes, digest, k + 1);
      PowerMonotone(v.infos, Backers(votes[..k + 1], digest), Backers(votes, digest));
      assert votes[k].author in Backers(votes, digest);
    }
  }

  // ----- how often an author can move the aggregator ----------------------

  function Changes(votes: seq<Vote>, v: ValidatorVerifier, a: Address): nat
    requires Wellformed(v)
  {
    if votes == [] then 0
    else
      var prefix := votes[..|votes| - 1];
      Changes(prefix, v, a)
      + if votes[|votes| - 1].author == a && Run(votes, v) != Run(prefix, v) then 1 else 0
  }

  function Level(p: Pending, a: Address): nat {
    if a !in p.authorToVote then 0 else if p.authorToVote[a].IsTimeout() then 2 else 1
  }

  /** Once for the vote, once for its timeout: nobody moves the aggregator a third time. */
  lemma {:induction false} AtMostTwoChanges(votes: seq<Vote>, v: ValidatorVerifier, a: Address)
    requires Wellformed(v)
    ensures Changes(votes, v, a) <= Level(Run(votes, v), a) <= 2
  {
    if votes != [] {
      var prefix := votes[..|votes| - 1];
      AtMostTwoChanges(prefix, v, a);
      InsertSummary(Run(prefix, v), votes[|votes| - 1], v);
    }
  }
}
