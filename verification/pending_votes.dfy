/**
  consensus/src/pending_votes.rs: the votes of one epoch and round are
  aggregated, per ledger info, into quorum certificates and, per round, into
  timeout certificates.

  `InsertVote` is the transition on values, `PendingVotes` the object that
  performs it in place.  The results below are about every run of it.
 */
module PendingVotesModel {
  import opened Types
  import opened ValidatorVerifiers

  datatype VoteReceptionResult =
    | VoteAdded(votingPower: U64)
    | DuplicateVote
    | EquivocateVote
    | NewQuorumCertificate(qc: QuorumCert)
    | NewTimeoutCertificate(tc: TimeoutCertificate)
    | New2ChainTimeoutCertificate(tc2: TwoChainTimeoutCertificate)
    | ErrorAddingVote(error: VerifyError)

  datatype Pending = Pending(
    liDigestToVotes: map<HashValue, LedgerInfoWithSignatures>,
    maybePartialTc: Option<TimeoutCertificate>,
    maybePartial2chainTc: Option<TwoChainTimeoutCertificate>,
    authorToVote: map<Address, Vote>)

  const EMPTY: Pending := Pending(map[], None, None, map[])

  function Digest(vote: Vote): HashValue {
    LedgerInfoHash(vote.ledgerInfo)
  }

  // ----- the transition -------------------------------------------------

  /** An author's first signature is the one that is kept. */
  function AddSignature(sigs: map<Address, Signature>, a: Address, sig: Signature): map<Address, Signature> {
    if a in sigs then sigs else sigs[a := sig]
  }

  /** The certificate carries the timeout with the highest quorum certificate seen. */
  function Add2chain(tc: TwoChainTimeoutCertificate, a: Address, timeout: TwoChainTimeout, sig: Signature): TwoChainTimeoutCertificate {
    TwoChainTimeoutCertificate(
      if timeout.HqcRound() > tc.timeout.HqcRound() then timeout else tc.timeout,
      tc.signatures[a := (timeout.HqcRound(), sig)])
  }

  /** The signatures collected for the vote's ledger info, with the vote's own. */
  function Collected(p: Pending, vote: Vote): LedgerInfoWithSignatures {
    var known := if Digest(vote) in p.liDigestToVotes then p.liDigestToVotes[Digest(vote)]
                 else LedgerInfoWithSignatures(vote.ledgerInfo, map[]);
    known.(signatures := AddSignature(known.signatures, vote.author, vote.signature))
  }

  function Stored(p: Pending, vote: Vote): Pending {
    p.(authorToVote := p.authorToVote[vote.author := vote],
       liDigestToVotes := p.liDigestToVotes[Digest(vote) := Collected(p, vote)])
  }

  function InsertVote(p: Pending, vote: Vote, v: ValidatorVerifier): (VoteReceptionResult, Pending)
    requires Wellformed(v)
  {
    var seen := vote.author in p.authorToVote;
    if seen && Digest(vote) != Digest(p.authorToVote[vote.author]) then
      (EquivocateVote, p)
    else if seen && !(vote.IsTimeout() && !p.authorToVote[vote.author].IsTimeout()) then
      (DuplicateVote, p)
    else
      match VotingPowerVerdict(v, Collected(p, vote).signatures.Keys)
      case Ok(_) => (NewQuorumCertificate(QuorumCert(vote.voteData, Collected(p, vote))), Stored(p, vote))
      case Err(TooLittleVotingPower(power, _)) => InsertTimeout(Stored(p, vote), vote, v, power)
      case Err(error) => (ErrorAddingVote(error), Stored(p, vote))
  }

  function InsertTimeout(p: Pending, vote: Vote, v: ValidatorVerifier, power: U64): (VoteReceptionResult, Pending)
    requires Wellformed(v)
  {
    if vote.timeoutSignature.None? then Insert2chainTimeout(p, vote, v, power)
    else
      var partial := if p.maybePartialTc.Some? then p.maybePartialTc.value
                     else TimeoutCertificate(vote.GenerateTimeout(), map[]);
      var tc := partial.(signatures := AddSignature(partial.signatures, vote.author, vote.timeoutSignature.value));
      var p' := p.(maybePartialTc := Some(tc));
      match VotingPowerVerdict(v, tc.signatures.Keys)
      case Ok(_) => (NewTimeoutCertificate(tc), p')
      case Err(TooLittleVotingPower(_, _)) => Insert2chainTimeout(p', vote, v, power)
      case Err(error) => (ErrorAddingVote(error), p')
  }

  function Insert2chainTimeout(p: Pending, vote: Vote, v: ValidatorVerifier, power: U64): (VoteReceptionResult, Pending)
    requires Wellformed(v)
  {
    if vote.twoChainTimeout.None? then (VoteAdded(power), p)
    else
      var (timeout, sig) := vote.twoChainTimeout.value;
      var partial := if p.maybePartial2chainTc.Some? then p.maybePartial2chainTc.value
                     else TwoChainTimeoutCertificate(timeout, map[]);
      var tc := Add2chain(partial, vote.author, timeout, sig);
      var p' := p.(maybePartial2chainTc := Some(tc));
      match VotingPowerVerdict(v, tc.signatures.Keys)
      case Ok(_) => (New2ChainTimeoutCertificate(tc), p')
      case Err(TooLittleVotingPower(_, _)) => (VoteAdded(power), p')
      case Err(error) => (ErrorAddingVote(error), p')
  }

  // ----- the object -----------------------------------------------------

  class PendingVotes {
    var liDigestToVotes: map<HashValue, LedgerInfoWithSignatures>
    var maybePartialTc: Option<TimeoutCertificate>
    var maybePartial2chainTc: Option<TwoChainTimeoutCertificate>
    var authorToVote: map<Address, Vote>

    function State(): Pending
      reads this
    {
      Pending(liDigestToVotes, maybePartialTc, maybePartial2chainTc, authorToVote)
    }

    constructor ()
      ensures State() == EMPTY
    {
      liDigestToVotes := map[];
      maybePartialTc := None;
      maybePartial2chainTc := None;
      authorToVote := map[];
    }

    method Insert(vote: Vote, v: ValidatorVerifier) returns (r: VoteReceptionResult)
      requires Wellformed(v)
      modifies this
      ensures (r, State()) == InsertVote(old(State()), vote, v)
    {
      // Step 1: what the author sent before.
      if vote.author in authorToVote {
        var previous := authorToVote[vote.author];
        if Digest(vote) == Digest(previous) {
          var newTimeoutVote := vote.IsTimeout() && !previous.IsTimeout();
          if !newTimeoutVote {
            return DuplicateVote;
          }
        } else {
          return EquivocateVote;
        }
      }

      // Step 2: this vote replaces it.
      authorToVote := authorToVote[vote.author := vote];

      // Step 3: the signatures on the ledger info.
      if Digest(vote) !in liDigestToVotes {
        liDigestToVotes := liDigestToVotes[Digest(vote) := LedgerInfoWithSignatures(vote.ledgerInfo, map[])];
      }
      var li := liDigestToVotes[Digest(vote)];
      li := li.(signatures := AddSignature(li.signatures, vote.author, vote.signature));
      liDigestToVotes := liDigestToVotes[Digest(vote) := li];
      assert liDigestToVotes == old(liDigestToVotes)[Digest(vote) := li];
      var verdict := CheckVotingPower(v, li.signatures.Keys);
      var votingPower: U64 := 0;
      match verdict {
        case Ok(_) =>
          return NewQuorumCertificate(QuorumCert(vote.voteData, li));
        case Err(TooLittleVotingPower(power, _)) =>
          votingPower := power;
        case Err(error) =>
          return ErrorAddingVote(error);
      }

      // Step 4: the timeouts.
      r := AddTimeout(vote, v, votingPower);
    }

    method AddTimeout(vote: Vote, v: ValidatorVerifier, votingPower: U64) returns (r: VoteReceptionResult)
      requires Wellformed(v)
      modifies this
      ensures (r, State()) == InsertTimeout(old(State()), vote, v, votingPower)
    {
      if vote.timeoutSignature.Some? {
        if maybePartialTc.None? {
          maybePartialTc := Some(TimeoutCertificate(vote.GenerateTimeout(), map[]));
        }
        var tc := maybePartialTc.value;
        tc := tc.(signatures := AddSignature(tc.signatures, vote.author, vote.timeoutSignature.value));
        maybePartialTc := Some(tc);
        var verdict := CheckVotingPower(v, tc.signatures.Keys);
        match verdict {
          case Ok(_) =>
            return NewTimeoutCertificate(tc);
          case Err(TooLittleVotingPower(_, _)) =>
          case Err(error) =>
            return ErrorAddingVote(error);
        }
      }
      r := Add2chainTimeout(vote, v, votingPower);
    }

    method Add2chainTimeout(vote: Vote, v: ValidatorVerifier, votingPower: U64) returns (r: VoteReceptionResult)
      requires Wellformed(v)
      modifies this
      ensures (r, State()) == Insert2chainTimeout(old(State()), vote, v, votingPower)
    {
      if vote.twoChainTimeout.Some? {
        var (timeout, sig) := vote.twoChainTimeout.value;
        if maybePartial2chainTc.None? {
          maybePartial2chainTc := Some(TwoChainTimeoutCertificate(timeout, map[]));
        }
        var tc := Add2chain(maybePartial2chainTc.value, vote.author, timeout, sig);
        maybePartial2chainTc := Some(tc);
        var verdict := CheckVotingPower(v, tc.signatures.Keys);
        match verdict {
          case Ok(_) =>
            return New2ChainTimeoutCertificate(tc);
          case Err(TooLittleVotingPower(_, _)) =>
          case Err(error) =>
            return ErrorAddingVote(error);
        }
      }
      // Step 5: no certificate.
      return VoteAdded(votingPower);
    }
  }

  // ----- runs -----------------------------------------------------------

  /** The state after the votes have been inserted one after the other. */
  function Run(votes: seq<Vote>, v: ValidatorVerifier): Pending
    requires Wellformed(v)
  {
    if votes == [] then EMPTY
    else InsertVote(Run(votes[..|votes| - 1], v), votes[|votes| - 1], v).1
  }

  /** What inserting the k-th vote of the run answers. */
  function Answer(votes: seq<Vote>, v: ValidatorVerifier, k: nat): VoteReceptionResult
    requires Wellformed(v) && k < |votes|
  {
    InsertVote(Run(votes[..k], v), votes[k], v).0
  }

  // ----- the partition --------------------------------------------------

  /** The authors whose stored vote has the digest. */
  function Voters(votes: map<Address, Vote>, digest: HashValue): set<Address> {
    set a | a in votes && Digest(votes[a]) == digest
  }

  ghost predicate SignersAreVoters(lis: map<HashValue, LedgerInfoWithSignatures>, votes: map<Address, Vote>) {
    forall d :: d in lis ==> LedgerInfoHash(lis[d].ledgerInfo) == d && lis[d].signatures.Keys == Voters(votes, d)
  }

  ghost predicate VotesAreCounted(lis: map<HashValue, LedgerInfoWithSignatures>, votes: map<Address, Vote>) {
    forall a :: a in votes ==> votes[a].author == a && Digest(votes[a]) in lis
  }

  ghost predicate TcSignersTimedOut(tc: Option<TimeoutCertificate>, votes: map<Address, Vote>) {
    tc.Some? ==> forall a :: a in tc.value.signatures ==> a in votes && votes[a].timeoutSignature.Some?
  }

  ghost predicate Tc2SignersTimedOut(tc: Option<TwoChainTimeoutCertificate>, votes: map<Address, Vote>) {
    tc.Some? ==> forall a :: a in tc.value.signatures ==> a in votes && votes[a].twoChainTimeout.Some?
  }

  /** The per-digest signer sets partition the voters; timeout signers stored a timeout. */
  ghost predicate Partition(p: Pending) {
    && SignersAreVoters(p.liDigestToVotes, p.authorToVote)
    && VotesAreCounted(p.liDigestToVotes, p.authorToVote)
    && TcSignersTimedOut(p.maybePartialTc, p.authorToVote)
    && Tc2SignersTimedOut(p.maybePartial2chainTc, p.authorToVote)
  }

  lemma SignersDisjoint(p: Pending, d: HashValue, e: HashValue)
    requires Partition(p)
    requires d in p.liDigestToVotes && e in p.liDigestToVotes && d != e
    ensures p.liDigestToVotes[d].signatures.Keys !! p.liDigestToVotes[e].signatures.Keys
  {
    assert Voters(p.authorToVote, d) !! Voters(p.authorToVote, e);
  }

  /** Whatever step 4 does, it leaves the votes and the per-digest signatures alone. */
  lemma TimeoutFrame(p: Pending, vote: Vote, v: ValidatorVerifier, power: U64)
    requires Wellformed(v)
    ensures InsertTimeout(p, vote, v, power).1.authorToVote == p.authorToVote
    ensures InsertTimeout(p, vote, v, power).1.liDigestToVotes == p.liDigestToVotes
    ensures !InsertTimeout(p, vote, v, power).0.NewQuorumCertificate?
    ensures !InsertTimeout(p, vote, v, power).0.EquivocateVote? && !InsertTimeout(p, vote, v, power).0.DuplicateVote?
  {
  }

  lemma Partition2chainTimeout(p: Pending, vote: Vote, v: ValidatorVerifier, power: U64)
    requires Wellformed(v) && Partition(p)
    requires vote.author in p.authorToVote && p.authorToVote[vote.author] == vote
    ensures Partition(Insert2chainTimeout(p, vote, v, power).1)
  {
    var p' := Insert2chainTimeout(p, vote, v, power).1;
    assert p' == p.(maybePartial2chainTc := p'.maybePartial2chainTc);
    assert Tc2SignersTimedOut(p'.maybePartial2chainTc, p.authorToVote);
  }

  lemma PartitionTimeout(p: Pending, vote: Vote, v: ValidatorVerifier, power: U64)
    requires Wellformed(v) && Partition(p)
    requires vote.author in p.authorToVote && p.authorToVote[vote.author] == vote
    ensures Partition(InsertTimeout(p, vote, v, power).1)
  {
    if vote.timeoutSignature.None? {
      Partition2chainTimeout(p, vote, v, power);
    } else {
      var partial := if p.maybePartialTc.Some? then p.maybePartialTc.value
                     else TimeoutCertificate(vote.GenerateTimeout(), map[]);
      var tc := partial.(signatures := AddSignature(partial.signatures, vote.author, vote.timeoutSignature.value));
      var p' := p.(maybePartialTc := Some(tc));
      assert TcSignersTimedOut(p'.maybePartialTc, p.authorToVote);
      assert Partition(p');
      Partition2chainTimeout(p', vote, v, power);
    }
  }

  /** The vote is neither a duplicate nor an equivocation. */
  ghost predicate Fresh(p: Pending, vote: Vote) {
    vote.author in p.authorToVote ==>
      && Digest(vote) == Digest(p.authorToVote[vote.author])
      && vote.IsTimeout() && !p.authorToVote[vote.author].IsTimeout()
  }

  lemma VotersAfter(p: Pending, vote: Vote, d: HashValue)
    requires Fresh(p, vote)
    ensures Voters(p.authorToVote[vote.author := vote], d)
         == if d == Digest(vote) then Voters(p.authorToVote, d) + {vote.author} else Voters(p.authorToVote, d)
  {
  }

  lemma CollectedSigners(p: Pending, vote: Vote)
    requires Partition(p) && Fresh(p, vote)
    ensures Collected(p, vote).signatures.Keys == Voters(p.authorToVote, Digest(vote)) + {vote.author}
    ensures LedgerInfoHash(Collected(p, vote).ledgerInfo) == Digest(vote)
  {
    if Digest(vote) !in p.liDigestToVotes {
      assert Voters(p.authorToVote, Digest(vote)) == {};
    }
  }

  lemma PartitionStored(p: Pending, vote: Vote)
    requires Partition(p) && Fresh(p, vote)
    ensures Partition(Stored(p, vote))
  {
    CollectedSigners(p, vote);
    var p' := Stored(p, vote);
    forall d | d in p'.liDigestToVotes
      ensures LedgerInfoHash(p'.liDigestToVotes[d].ledgerInfo) == d
      ensures p'.liDigestToVotes[d].signatures.Keys == Voters(p'.authorToVote, d)
    {
      VotersAfter(p, vote, d);
    }
  }

  /** The first three steps, and when they end in a quorum certificate. */
  lemma InsertSummary(p: Pending, vote: Vote, v: ValidatorVerifier)
    requires Wellformed(v)
    ensures !Fresh(p, vote) ==> InsertVote(p, vote, v).1 == p
    ensures InsertVote(p, vote, v).0.EquivocateVote? <==>
              vote.author in p.authorToVote && Digest(p.authorToVote[vote.author]) != Digest(vote)
    ensures InsertVote(p, vote, v).0.DuplicateVote? || InsertVote(p, vote, v).0.EquivocateVote? <==> !Fresh(p, vote)
    ensures Fresh(p, vote) ==>
              && InsertVote(p, vote, v).1.authorToVote == p.authorToVote[vote.author := vote]
              && InsertVote(p, vote, v).1.liDigestToVotes == p.liDigestToVotes[Digest(vote) := Collected(p, vote)]
    ensures InsertVote(p, vote, v).0.NewQuorumCertificate? <==>
              Fresh(p, vote) && VotingPowerVerdict(v, Collected(p, vote).signatures.Keys).Ok?
    ensures InsertVote(p, vote, v).0.NewQuorumCertificate? ==>
              InsertVote(p, vote, v).0.qc == QuorumCert(vote.voteData, Collected(p, vote))
  {
    var verdict := VotingPowerVerdict(v, Collected(p, vote).signatures.Keys);
    if verdict.Err? && verdict.error.TooLittleVotingPower? {
      TimeoutFrame(Stored(p, vote), vote, v, verdict.error.votingPower);
    }
  }

  /** The partition is kept by every vote, valid or not, known author or not. */
  lemma PartitionInsert(p: Pending, vote: Vote, v: ValidatorVerifier)
    requires Wellformed(v) && Partition(p)
    ensures Partition(InsertVote(p, vote, v).1)
  {
    InsertSummary(p, vote, v);
    if Fresh(p, vote) {
      PartitionStored(p, vote);
      var verdict := VotingPowerVerdict(v, Collected(p, vote).signatures.Keys);
      if verdict.Err? && verdict.error.TooLittleVotingPower? {
        PartitionTimeout(Stored(p, vote), vote, v, verdict.error.votingPower);
      }
    }
  }

  lemma {:induction false} PartitionRun(votes: seq<Vote>, v: ValidatorVerifier)
    requires Wellformed(v)
    ensures Partition(Run(votes, v))
  {
    if votes != [] {
      PartitionRun(votes[..|votes| - 1], v);
      PartitionInsert(Run(votes[..|votes| - 1], v), votes[|votes| - 1], v);
    }
  }
}
