/**
  The verification of votes and certificates: consensus-types/src/vote.rs,
  vote_data.rs, quorum_cert.rs, timeout_certificate.rs, timeout_2chain.rs.
  Checks whose only failure is an error text are predicates.
 */
module Certificates {
  import opened Types
  import opened ValidatorVerifiers

  /** `verify_signatures` succeeds; by `AggregatedOk` this is the verdict of the batch path. */
  predicate LedgerInfoVerify(v: ValidatorVerifier, li: LedgerInfoWithSignatures) {
    IsQuorumSignature(v, LedgerInfoMessage(li.ledgerInfo), li.signatures)
  }

  predicate VoteDataVerify(vd: VoteData) {
    && vd.parent.epoch == vd.proposed.epoch
    && vd.parent.round < vd.proposed.round
    && vd.parent.timestampUsecs <= vd.proposed.timestampUsecs
    && (vd.proposed.version == 0 || vd.parent.version <= vd.proposed.version)
  }

  /** A certificate of round zero carries no signatures: genesis is agreed on implicitly. */
  predicate QuorumCertVerify(v: ValidatorVerifier, qc: QuorumCert) {
    && qc.signedLedgerInfo.ledgerInfo.consensusDataHash == VoteDataHash(qc.voteData)
    && if qc.CertifiedBlock().round == 0 then
         && qc.ParentBlock() == qc.CertifiedBlock()
         && qc.CertifiedBlock() == qc.CommitInfo()
         && qc.signedLedgerInfo.signatures == map[]
       else
         && LedgerInfoVerify(v, qc.signedLedgerInfo)
         && VoteDataVerify(qc.voteData)
  }

  predicate TimeoutCertVerify(v: ValidatorVerifier, tc: TimeoutCertificate) {
    IsQuorumSignature(v, TimeoutMessage(tc.timeout), tc.signatures)
  }

  predicate TwoChainTimeoutVerify(v: ValidatorVerifier, t: TwoChainTimeout) {
    t.HqcRound() < t.round && QuorumCertVerify(v, t.quorumCert)
  }

  predicate TwoChainSignatureValid(v: ValidatorVerifier, epoch: U64, round: U64, a: Address, sig: (U64, Signature)) {
    && a in v.infos
    && SignatureVerifies(v.infos[a].publicKey, TwoChainTimeoutMessage(TimeoutSigningRepr(epoch, round, sig.0)), sig.1)
  }

  /** `highest` is the largest of zero and the rounds signed. */
  predicate HighestSigned(sigs: map<Address, (U64, Signature)>, highest: U64) {
    && (forall a :: a in sigs ==> sigs[a].0 <= highest)
    && (highest == 0 || exists a :: a in sigs && sigs[a].0 == highest)
  }

  predicate TwoChainTcVerify(v: ValidatorVerifier, tc: TwoChainTimeoutCertificate) {
    && TwoChainTimeoutVerify(v, tc.timeout)
    && tc.signatures.Keys <= v.infos.Keys
    && Power(v.infos, tc.signatures.Keys) >= v.quorumVotingPower
    && (forall a :: a in tc.signatures ==>
          TwoChainSignatureValid(v, tc.timeout.epoch, tc.timeout.round, a, tc.signatures[a]))
    && HighestSigned(tc.signatures, tc.timeout.HqcRound())
  }

  /** The loop of `TwoChainTimeoutCertificate::verify`, in any order of the signatures. */
  method VerifyTwoChainTc(v: ValidatorVerifier, tc: TwoChainTimeoutCertificate) returns (ok: bool)
    requires Wellformed(v)
    ensures ok <==> TwoChainTcVerify(v, tc)
  {
    if !TwoChainTimeoutVerify(v, tc.timeout) {
      return false;
    }
    var power := CheckVotingPower(v, tc.signatures.Keys);
    if power.Err? {
      return false;
    }
    var signedRound: U64 := 0;
    var rest := tc.signatures.Keys;
    while rest != {}
      invariant rest <= tc.signatures.Keys
      invariant forall a :: a in tc.signatures.Keys - rest ==>
        && TwoChainSignatureValid(v, tc.timeout.epoch, tc.timeout.round, a, tc.signatures[a])
        && tc.signatures[a].0 <= signedRound
      invariant signedRound == 0 || exists a :: a in tc.signatures && tc.signatures[a].0 == signedRound
      decreases rest
    {
      var a :| a in rest;
      if !TwoChainSignatureValid(v, tc.timeout.epoch, tc.timeout.round, a, tc.signatures[a]) {
        return false;
      }
      if tc.signatures[a].0 > signedRound {
        signedRound := tc.signatures[a].0;
      }
      rest := rest - {a};
    }
    return tc.timeout.HqcRound() == signedRound;
  }

  predicate VoteVerify(v: ValidatorVerifier, vote: Vote) {
    && vote.ledgerInfo.consensusDataHash == VoteDataHash(vote.voteData)
    && !(vote.timeoutSignature.Some? && vote.twoChainTimeout.Some?)
    && Verify(v, vote.author, LedgerInfoMessage(vote.ledgerInfo), vote.signature).Ok?
    && (vote.timeoutSignature.Some? ==>
          Verify(v, vote.author, TimeoutMessage(vote.GenerateTimeout()), vote.timeoutSignature.value).Ok?)
    && (vote.twoChainTimeout.Some? ==>
          var (timeout, sig) := vote.twoChainTimeout.value;
          && timeout.epoch == vote.Epoch()
          && timeout.round == vote.Round()
          && TwoChainTimeoutVerify(v, timeout)
          && Verify(v, vote.author, TwoChainTimeoutMessage(timeout.SigningFormat()), sig).Ok?)
    && VoteDataVerify(vote.voteData)
  }
}
