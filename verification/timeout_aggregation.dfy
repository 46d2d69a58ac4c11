/**
  Timeout certificates over whole runs of `PendingVotes::insert_vote`: in a
  round in which no ledger info finds a quorum, one is returned exactly when
  the authors that timed out hold one, under either protocol.
 */
module TimeoutAggregation {
  import opened Types
  import opened ValidatorVerifiers
  import opened PendingVotesModel
  import opened VoteAggregation

  /** The vote carries a timeout of the protocol's kind. */
  predicate TimesOut(vote: Vote, twoChain: bool) {
    if twoChain then vote.twoChainTimeout.Some? else vote.timeoutSignature.Some?
  }

  /** The protocol is a setting of the epoch: timeouts of the other kind do not occur. */
  predicate OfKind(vote: Vote, twoChain: bool) {
    if twoChain then vote.timeoutSignature.None? else vote.twoChainTimeout.None?
  }

  function TcSigners(p: Pending, twoChain: bool): set<Address> {
    if twoChain then (if p.maybePartial2chainTc.Some? then p.maybePartial2chainTc.value.signatures.Keys else {})
    else (if p.maybePartialTc.Some? then p.maybePartialTc.value.signatures.Keys else {})
  }

  predicate IsTc(r: VoteReceptionResult, twoChain: bool) {
    if twoChain then r.New2ChainTimeoutCertificate? else r.NewTimeoutCertificate?
  }

  /** The distinct authors that timed out. */
  function TimeoutBackers(votes: seq<Vote>, twoChain: bool): set<Address> {
    set i | 0 <= i < |votes| && TimesOut(votes[i], twoChain) :: votes[i].author
  }

  function With(timedOut: set<Address>, vote: Vote, twoChain: bool): set<Address> {
    if TimesOut(vote, twoChain) then timedOut + {vote.author} else timedOut
  }

  ghost predicate NoQuorum(votes: seq<Vote>, v: ValidatorVerifier) {
    forall digest :: Power(v.infos, Backers(votes, digest)) < v.quorumVotingPower
  }

  /** A round that times out: known authors, each with one ledger info, none of which finds a quorum. */
  ghost predicate TimedOutRound(votes: seq<Vote>, v: ValidatorVerifier, twoChain: bool) {
    && Wellformed(v) && KnownAuthors(votes, v) && NoEquivocation(votes) && NoQuorum(votes, v)
    && (forall i :: 0 <= i < |votes| ==> OfKind(votes[i], twoChain))
  }

  lemma TimedOutPrefix(votes: seq<Vote>, v: ValidatorVerifier, twoChain: bool, n: nat)
    requires TimedOutRound(votes, v, twoChain) && n <= |votes|
    ensures TimedOutRound(votes[..n], v, twoChain)
  {
    forall digest
      ensures Power(v.infos, Backers(votes[..n], digest)) < v.quorumVotingPower
    {
      BackersGrow(votes, digest, n);
      PowerMonotone(v.infos, Backers(votes[..n], digest), Backers(votes, digest));
    }
  }

  lemma TimeoutBackersExtend(votes: seq<Vote>, twoChain: bool, n: nat)
    requires n < |votes|
    ensures TimeoutBackers(votes[..n + 1], twoChain) == With(TimeoutBackers(votes[..n], twoChain), votes[n], twoChain)
  {
    var longer, shorter := votes[..n + 1], votes[..n];
    forall a | a in TimeoutBackers(shorter, twoChain)
      ensures a in TimeoutBackers(longer, twoChain)
    {
      var i :| 0 <= i < |shorter| && TimesOut(shorter[i], twoChain) && shorter[i].author == a;
      assert longer[i] == shorter[i];
    }
    forall a | a in TimeoutBackers(longer, twoChain)
      ensures a in TimeoutBackers(shorter, twoChain) || (a == votes[n].author && TimesOut(votes[n], twoChain))
    {
      var i :| 0 <= i < |longer| && TimesOut(longer[i], twoChain) && longer[i].author == a;
      assert i < n ==> shorter[i] == longer[i];
    }
    assert longer[n] == votes[n];
  }

  /** What the fourth step does to the timeout certificate, and when it completes it. */
  lemma TimeoutStep(p: Pending, vote: Vote, v: ValidatorVerifier, power: U64, twoChain: bool)
    requires Wellformed(v) && OfKind(vote, twoChain)
    requires vote.author in v.infos && TcSigners(p, twoChain) <= v.infos.Keys
    ensures var (r, p') := InsertTimeout(p, vote, v, power);
            && TcSigners(p', twoChain) == With(TcSigners(p, twoChain), vote, twoChain)
            && (IsTc(r, twoChain) <==> TimesOut(vote, twoChain) && Power(v.infos, TcSigners(p', twoChain)) >= v.quorumVotingPower)
  {
  }

  /** The signers collected are the given authors, and these are the ones whose stored vote says so. */
  ghost predicate Tracks(p: Pending, twoChain: bool, timedOut: set<Address>) {
    && TcSigners(p, twoChain) == timedOut
    && (forall a :: a in timedOut <==> a in p.authorToVote && p.authorToVote[a].IsTimeout())
  }

  /** A new vote without a quorum for its digest. */
  lemma InsertNew(p: Pending, vote: Vote, v: ValidatorVerifier, twoChain: bool, timedOut: set<Address>)
    requires Wellformed(v) && OfKind(vote, twoChain) && vote.author in v.infos
    requires Tracks(p, twoChain, timedOut) && timedOut <= v.infos.Keys && Fresh(p, vote)
    requires Collected(p, vote).signatures.Keys <= v.infos.Keys
    requires Power(v.infos, Collected(p, vote).signatures.Keys) < v.quorumVotingPower
    ensures Tracks(InsertVote(p, vote, v).1, twoChain, With(timedOut, vote, twoChain))
    ensures IsTc(InsertVote(p, vote, v).0, twoChain) <==>
              TimesOut(vote, twoChain) && Power(v.infos, With(timedOut, vote, twoChain)) >= v.quorumVotingPower
  {
    var power := Power(v.infos, Collected(p, vote).signatures.Keys);
    var p' := Stored(p, vote);
    assert InsertVote(p, vote, v) == InsertTimeout(p', vote, v, power);
    TimeoutFrame(p', vote, v, power);
    TimeoutStep(p', vote, v, power, twoChain);
  }

  /** A repeated vote that is no equivocation. */
  lemma InsertRepeated(p: Pending, vote: Vote, v: ValidatorVerifier, twoChain: bool, timedOut: set<Address>)
    requires Wellformed(v) && OfKind(vote, twoChain) && Tracks(p, twoChain, timedOut)
    requires !Fresh(p, vote) && Digest(p.authorToVote[vote.author]) == Digest(vote)
    ensures Tracks(InsertVote(p, vote, v).1, twoChain, With(timedOut, vote, twoChain))
    ensures !IsTc(InsertVote(p, vote, v).0, twoChain)
  {
    InsertSummary(p, vote, v);
    assert With(timedOut, vote, twoChain) == timedOut;
  }

  lemma KnownBackers(votes: seq<Vote>, v: ValidatorVerifier, twoChain: bool)
    requires KnownAuthors(votes, v)
    ensures TimeoutBackers(votes, twoChain) <= v.infos.Keys
  {
  }

  lemma StoredDigest(votes: seq<Vote>, v: ValidatorVerifier, n: nat)
    requires Wellformed(v) && NoEquivocation(votes) && n < |votes| && votes[n].author in Run(votes[..n], v).authorToVote
    ensures Digest(Run(votes[..n], v).authorToVote[votes[n].author]) == Digest(votes[n])
  {
    StoredAreBackers(votes[..n], v, Digest(votes[n]));
    var i :| 0 <= i < n && votes[..n][i].author == votes[n].author
             && Digest(votes[..n][i]) == Digest(Run(votes[..n], v).authorToVote[votes[n].author]);
    assert Digest(votes[i]) == Digest(votes[n]);
  }

  lemma NoCertificate(votes: seq<Vote>, v: ValidatorVerifier, twoChain: bool, n: nat)
    requires TimedOutRound(votes, v, twoChain) && n < |votes| && Fresh(Run(votes[..n], v), votes[n])
    ensures Collected(Run(votes[..n], v), votes[n]).signatures.Keys <= v.infos.Keys
    ensures Power(v.infos, Collected(Run(votes[..n], v), votes[n]).signatures.Keys) < v.quorumVotingPower
  {
    CollectedAreBackers(votes, v, n);
    BackersAreKnown(votes[..n + 1], v, Digest(votes[n]));
    TimedOutPrefix(votes, v, twoChain, n + 1);
  }

  lemma TracksStep(votes: seq<Vote>, v: ValidatorVerifier, twoChain: bool, n: nat)
    requires TimedOutRound(votes, v, twoChain) && n < |votes|
    requires Tracks(Run(votes[..n], v), twoChain, TimeoutBackers(votes[..n], twoChain))
    ensures Tracks(Run(votes[..n + 1], v), twoChain, TimeoutBackers(votes[..n + 1], twoChain))
    ensures IsTc(Answer(votes, v, n), twoChain) <==>
              && Fresh(Run(votes[..n], v), votes[n])
              && TimesOut(votes[n], twoChain)
              && Power(v.infos, TimeoutBackers(votes[..n + 1], twoChain)) >= v.quorumVotingPower
  {
    assert votes[..n + 1][..n] == votes[..n];
    TimeoutBackersExtend(votes, twoChain, n);
    if Fresh(Run(votes[..n], v), votes[n]) {
      NoCertificate(votes, v, twoChain, n);
      KnownBackers(votes[..n], v, twoChain);
      InsertNew(Run(votes[..n], v), votes[n], v, twoChain, TimeoutBackers(votes[..n], twoChain));
    } else {
      StoredDigest(votes, v, n);
      InsertRepeated(Run(votes[..n], v), votes[n], v, twoChain, TimeoutBackers(votes[..n], twoChain));
    }
  }

  lemma {:induction false} TracksRun(votes: seq<Vote>, v: ValidatorVerifier, twoChain: bool, n: nat)
    requires TimedOutRound(votes, v, twoChain) && n <= |votes|
    ensures Tracks(Run(votes[..n], v), twoChain, TimeoutBackers(votes[..n], twoChain))
  {
    if n > 0 {
      TracksRun(votes, v, twoChain, n - 1);
      TracksStep(votes, v, twoChain, n - 1);
    }
  }

  lemma NewTimeoutIsFresh(votes: seq<Vote>, v: ValidatorVerifier, twoChain: bool, n: nat)
    requires TimedOutRound(votes, v, twoChain) && n < |votes| && TimesOut(votes[n], twoChain)
    requires Tracks(Run(votes[..n], v), twoChain, TimeoutBackers(votes[..n], twoChain))
    requires votes[n].author !in TimeoutBackers(votes[..n], twoChain)
    ensures Fresh(Run(votes[..n], v), votes[n])
  {
    if votes[n].author in Run(votes[..n], v).authorToVote {
      StoredDigest(votes, v, n);
    }
  }

  /** The vote that completes the certificate among the first n. */
  lemma {:induction false} FindTimeout(votes: seq<Vote>, v: ValidatorVerifier, twoChain: bool, n: nat) returns (k: nat)
    requires TimedOutRound(votes, v, twoChain) && n <= |votes|
    requires Power(v.infos, TimeoutBackers(votes[..n], twoChain)) >= v.quorumVotingPower
    ensures k < |votes| && IsTc(Answer(votes, v, k), twoChain)
  {
    assert Power(v.infos, Backers(votes, 0)) < v.quorumVotingPower;
    assert TimeoutBackers(votes[..0], twoChain) == {};
    k := n - 1;
    TimeoutBackersExtend(votes, twoChain, k);
    if TimeoutBackers(votes[..n], twoChain) == TimeoutBackers(votes[..k], twoChain) {
      k := FindTimeout(votes, v, twoChain, k);
    } else {
      TracksRun(votes, v, twoChain, k);
      NewTimeoutIsFresh(votes, v, twoChain, k);
      TracksStep(votes, v, twoChain, k);
    }
  }

  /**
    Some call returns a timeout certificate exactly when the distinct authors
    that timed out hold quorum power, whatever the order of arrival, and
    whether they timed out with their first vote or re-sent it.
   */
  lemma TimeoutOrderIndependence(votes: seq<Vote>, v: ValidatorVerifier, twoChain: bool)
    requires TimedOutRound(votes, v, twoChain)
    ensures (exists k: nat :: k < |votes| && IsTc(Answer(votes, v, k), twoChain)) <==>
              Power(v.infos, TimeoutBackers(votes, twoChain)) >= v.quorumVotingPower
  {
    assert votes[..|votes|] == votes;
    if Power(v.infos, TimeoutBackers(votes, twoChain)) >= v.quorumVotingPower {
      var k := FindTimeout(votes, v, twoChain, |votes|);
    }
    forall k: nat | k < |votes| && IsTc(Answer(votes, v, k), twoChain)
      ensures Power(v.infos, TimeoutBackers(votes, twoChain)) >= v.quorumVotingPower
    {
      TracksRun(votes, v, twoChain, k);
      TracksStep(votes, v, twoChain, k);
      TimeoutBackersGrow(votes, twoChain, k + 1);
      PowerMonotone(v.infos, TimeoutBackers(votes[..k + 1], twoChain), TimeoutBackers(votes, twoChain));
    }
  }

  lemma TimeoutBackersGrow(votes: seq<Vote>, twoChain: bool, n: nat)
    requires n <= |votes|
    ensures TimeoutBackers(votes[..n], twoChain) <= TimeoutBackers(votes, twoChain)
  {
    forall a | a in TimeoutBackers(votes[..n], twoChain)
      ensures a in TimeoutBackers(votes, twoChain)
    {
      var i :| 0 <= i < n && TimesOut(votes[..n][i], twoChain) && votes[..n][i].author == a;
      assert votes[i] == votes[..n][i];
    }
  }
}
