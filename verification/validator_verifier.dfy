/**
  types/src/validator_verifier.rs: weighted validator sets, the quorum
  threshold, and aggregated signature verification.
 */
module ValidatorVerifiers {
  import opened Types

  datatype VerifyError =
    | UnknownAuthor
    | TooLittleVotingPower(votingPower: U64, quorumVotingPower: U64)
    | TooManySignatures(numOfSignatures: nat, numOfAuthors: nat)
    | InvalidSignature

  // ----- sums of voting power -------------------------------------------

  function Weight(infos: map<Address, ValidatorConsensusInfo>, a: Address): U64 {
    if a in infos then infos[a].votingPower else 0
  }

  lemma {:induction false} FindLeast(s: set<Address>) returns (least: Address)
    requires s != {}
    ensures least in s && forall b :: b in s ==> least <= b
    decreases |s|
  {
    least :| least in s;
    var rest := s - {least};
    if rest != {} {
      var m := FindLeast(rest);
      assert forall b :: b in s ==> b == least || b in rest;
      if m < least {
        least := m;
      }
    }
  }

  lemma LeastExists(s: set<Address>)
    requires s != {}
    ensures exists a :: a in s && forall b :: b in s ==> a <= b
  {
    var a := FindLeast(s);
  }

  /** The first author in the order of an ordered map. */
  function Least(s: set<Address>): (a: Address)
    requires s != {}
    ensures a in s
    ensures forall b :: b in s ==> a <= b
  {
    LeastExists(s);
    var a :| a in s && forall b :: b in s ==> a <= b;
    a
  }

  /** Voting power held by a set of authors; an address outside the set weighs nothing. */
  function Power(infos: map<Address, ValidatorConsensusInfo>, s: set<Address>): nat
    decreases |s|
  {
    if s == {} then 0 else var a := Least(s); Weight(infos, a) + Power(infos, s - {a})
  }

  lemma {:induction false} PowerRemove(infos: map<Address, ValidatorConsensusInfo>, s: set<Address>, x: Address)
    requires x in s
    ensures Power(infos, s) == Weight(infos, x) + Power(infos, s - {x})
    decreases |s|
  {
    var a := Least(s);
    if a != x {
      PowerRemove(infos, s - {a}, x);
      assert s - {a} - {x} == s - {x} - {a};
      PowerRemove(infos, s - {x}, a);
    }
  }

  lemma PowerInsert(infos: map<Address, ValidatorConsensusInfo>, s: set<Address>, x: Address)
    requires x !in s
    ensures Power(infos, s + {x}) == Power(infos, s) + Weight(infos, x)
  {
    PowerRemove(infos, s + {x}, x);
    assert s + {x} - {x} == s;
  }

  lemma {:induction false} PowerUnion(infos: map<Address, ValidatorConsensusInfo>, s: set<Address>, t: set<Address>)
    requires s !! t
    ensures Power(infos, s + t) == Power(infos, s) + Power(infos, t)
    decreases |t|
  {
    if t == {} {
      assert s + t == s;
    } else {
      var x :| x in t;
      PowerRemove(infos, t, x);
      PowerRemove(infos, s + t, x);
      assert s + t - {x} == s + (t - {x});
      PowerUnion(infos, s, t - {x});
    }
  }

  lemma PowerMonotone(infos: map<Address, ValidatorConsensusInfo>, s: set<Address>, t: set<Address>)
    requires s <= t
    ensures Power(infos, s) <= Power(infos, t)
  {
    PowerUnion(infos, s, t - s);
    assert s + (t - s) == t;
  }

  /** Only known authors weigh. */
  lemma PowerKnown(infos: map<Address, ValidatorConsensusInfo>, s: set<Address>)
    ensures Power(infos, s) == Power(infos, s * infos.Keys)
    ensures Power(infos, s) <= Power(infos, infos.Keys)
  {
    PowerStrangers(infos, s - infos.Keys);
    PowerUnion(infos, s * infos.Keys, s - infos.Keys);
    assert s * infos.Keys + (s - infos.Keys) == s;
    PowerMonotone(infos, s * infos.Keys, infos.Keys);
  }

  lemma {:induction false} PowerStrangers(infos: map<Address, ValidatorConsensusInfo>, s: set<Address>)
    requires s !! infos.Keys
    ensures Power(infos, s) == 0
    decreases |s|
  {
    if s != {} {
      var x :| x in s;
      PowerRemove(infos, s, x);
      PowerStrangers(infos, s - {x});
    }
  }

  // ----- the validator set ----------------------------------------------

  /** The threshold `2f + 1`, or zero for the empty set. */
  function QuorumOf(infos: map<Address, ValidatorConsensusInfo>): nat {
    if infos == map[] then 0 else Power(infos, infos.Keys) * 2 / 3 + 1
  }

  /** Total and threshold are those of the powers. */
  ghost predicate Wellformed(v: ValidatorVerifier) {
    && v.totalVotingPower == Power(v.infos, v.infos.Keys)
    && v.quorumVotingPower == QuorumOf(v.infos)
  }

  /** The fold with its checked additions: no sum where it does not fit. */
  method SumVotingPower(infos: map<Address, ValidatorConsensusInfo>) returns (sum: Option<U64>)
    ensures sum.Some? <==> Power(infos, infos.Keys) <= U64_MAX
    ensures sum.Some? ==> sum.value == Power(infos, infos.Keys)
  {
    var total: nat := 0;
    var rest := infos.Keys;
    while rest != {}
      invariant rest <= infos.Keys && total <= U64_MAX
      invariant total + Power(infos, rest) == Power(infos, infos.Keys)
      decreases rest
    {
      var a :| a in rest;
      PowerRemove(infos, rest, a);
      if total + infos[a].votingPower > U64_MAX {
        return None;
      }
      total := total + infos[a].votingPower;
      rest := rest - {a};
    }
    return Some(total);
  }

  /**
    The constructor, None where the sum panics.  The doubling is unchecked: the
    threshold is over two thirds of the total if and only if it fits.
   */
  method New(infos: map<Address, ValidatorConsensusInfo>) returns (v: Option<ValidatorVerifier>)
    ensures v.Some? <==> Power(infos, infos.Keys) <= U64_MAX
    ensures v.Some? ==> v.value.infos == infos && v.value.totalVotingPower == Power(infos, infos.Keys)
    ensures v.Some? && infos == map[] ==> v.value.quorumVotingPower == 0
    ensures v.Some? && infos != map[] ==>
              && v.value.quorumVotingPower == Wrap(Power(infos, infos.Keys) * 2) / 3 + 1
              && (v.value.quorumVotingPower == QuorumOf(infos) <==> Power(infos, infos.Keys) * 2 <= U64_MAX)
    ensures v.Some? ==> (Wellformed(v.value) <==> Power(infos, infos.Keys) * 2 <= U64_MAX)
  {
    var sum := SumVotingPower(infos);
    if sum.None? {
      return None;
    }
    var total: nat := sum.value;
    var quorum: U64 := if infos == map[] then 0 else Wrap(total * 2) / 3 + 1;
    v := Some(ValidatorVerifier(infos, quorum, sum.value));
  }

  /** Where twice the total does not fit, two disjoint sets of authors can both reach the threshold. */
  lemma DoublingMustFit()
    ensures var power := 0x4000_0000_0000_0000;
            var infos := map[0 := ValidatorConsensusInfo(0, power), 1 := ValidatorConsensusInfo(1, power)];
            var quorum := Wrap(Power(infos, infos.Keys) * 2) / 3 + 1;
            Power(infos, {0}) >= quorum && Power(infos, {1}) >= quorum
  {
    var power := 0x4000_0000_0000_0000;
    var infos := map[0 := ValidatorConsensusInfo(0, power), 1 := ValidatorConsensusInfo(1, power)];
    assert infos.Keys == {0} + {1};
    PowerInsert(infos, {}, 0);
    PowerInsert(infos, {}, 1);
    assert {} + {0} == {0} && {} + {1} == {1};
    PowerInsert(infos, {0}, 1);
  }

  // ----- single checks --------------------------------------------------

  function Verify(v: ValidatorVerifier, author: Address, m: Message, sig: Signature): Result<(), VerifyError> {
    if author !in v.infos then Err(UnknownAuthor)
    else if SignatureVerifies(v.infos[author].publicKey, m, sig) then Ok(())
    else Err(InvalidSignature)
  }

  function CheckNumOfSignatures(v: ValidatorVerifier, sigs: map<Address, Signature>): Result<(), VerifyError> {
    if |sigs| > |v.infos| then Err(TooManySignatures(|sigs|, |v.infos|)) else Ok(())
  }

  /** The verdict on a set of authors, free of any iteration order. */
  function VotingPowerVerdict(v: ValidatorVerifier, authors: set<Address>): Result<(), VerifyError>
    requires Wellformed(v)
  {
    PowerKnown(v.infos, authors);
    if !(authors <= v.infos.Keys) then Err(UnknownAuthor)
    else if Power(v.infos, authors) < v.quorumVotingPower
    then Err(TooLittleVotingPower(Power(v.infos, authors), v.quorumVotingPower))
    else Ok(())
  }

  /**
    The loop of `check_voting_power`.  Authors are taken in an arbitrary order;
    the running sum never leaves u64 and the verdict is always the same.
   */
  method CheckVotingPower(v: ValidatorVerifier, authors: set<Address>) returns (r: Result<(), VerifyError>)
    requires Wellformed(v)
    ensures r == VotingPowerVerdict(v, authors)
    ensures r == Err(UnknownAuthor) <==> exists a :: a in authors && a !in v.infos
    ensures r.Ok? <==> authors <= v.infos.Keys && Power(v.infos, authors) >= v.quorumVotingPower
    ensures authors <= v.infos.Keys && Power(v.infos, authors) < v.quorumVotingPower ==>
              && r.Err? && r.error.TooLittleVotingPower?
              && r.error.votingPower == Power(v.infos, authors)
              && r.error.quorumVotingPower == v.quorumVotingPower
  {
    var aggregated: U64 := 0;
    var rest := authors;
    while rest != {}
      invariant rest <= authors
      invariant authors - rest <= v.infos.Keys
      invariant aggregated == Power(v.infos, authors - rest)
      decreases rest
    {
      var a :| a in rest;
      if a !in v.infos {
        return Err(UnknownAuthor);
      }
      assert authors - (rest - {a}) == (authors - rest) + {a};
      PowerInsert(v.infos, authors - rest, a);
      PowerKnown(v.infos, (authors - rest) + {a});
      aggregated := aggregated + v.infos[a].votingPower;
      rest := rest - {a};
    }
    assert authors - rest == authors;
    if aggregated < v.quorumVotingPower {
      return Err(TooLittleVotingPower(aggregated, v.quorumVotingPower));
    }
    return Ok(());
  }

  // ----- aggregated signatures ------------------------------------------

  predicate AllSignaturesValid(v: ValidatorVerifier, m: Message, sigs: map<Address, Signature>)
    requires sigs.Keys <= v.infos.Keys
  {
    forall a :: a in sigs ==> SignatureVerifies(v.infos[a].publicKey, m, sigs[a])
  }

  /** Enough distinct known authors, and nothing but valid signatures by them. */
  predicate IsQuorumSignature(v: ValidatorVerifier, m: Message, sigs: map<Address, Signature>) {
    && sigs.Keys <= v.infos.Keys
    && Power(v.infos, sigs.Keys) >= v.quorumVotingPower
    && AllSignaturesValid(v, m, sigs)
  }

  function AggregatedVerdict(v: ValidatorVerifier, m: Message, sigs: map<Address, Signature>): Result<(), VerifyError>
    requires Wellformed(v)
  {
    var _ :- CheckNumOfSignatures(v, sigs);
    var _ :- VotingPowerVerdict(v, sigs.Keys);
    if AllSignaturesValid(v, m, sigs) then Ok(()) else Err(InvalidSignature)
  }

  /** The signature count is never the reason to refuse a quorum of known authors. */
  lemma AggregatedOk(v: ValidatorVerifier, m: Message, sigs: map<Address, Signature>)
    requires Wellformed(v)
    ensures AggregatedVerdict(v, m, sigs).Ok? <==> IsQuorumSignature(v, m, sigs)
  {
    if sigs.Keys <= v.infos.Keys {
      SubsetSize(sigs.Keys, v.infos.Keys);
      assert |sigs| == |sigs.Keys| && |v.infos| == |v.infos.Keys|;
    }
  }

  /** Every refusal, with what it carries; the first of the checks that fails names it. */
  lemma AggregatedRefusals(v: ValidatorVerifier, m: Message, sigs: map<Address, Signature>)
    requires Wellformed(v) && AggregatedVerdict(v, m, sigs).Err?
    ensures match AggregatedVerdict(v, m, sigs).error
            case TooManySignatures(given, known) => given == |sigs| && known == |v.infos| && given > known
            case UnknownAuthor => |sigs| <= |v.infos| && exists a :: a in sigs && a !in v.infos
            case TooLittleVotingPower(power, quorum) =>
              sigs.Keys <= v.infos.Keys && power == Power(v.infos, sigs.Keys) && quorum == v.quorumVotingPower && power < quorum
            case InvalidSignature =>
              && sigs.Keys <= v.infos.Keys && Power(v.infos, sigs.Keys) >= v.quorumVotingPower
              && exists a :: a in sigs && !SignatureVerifies(v.infos[a].publicKey, m, sigs[a])
  {
  }

  lemma SubsetSize<T>(s: set<T>, t: set<T>)
    requires s <= t
    ensures |s| <= |t|
  {
    assert s + (t - s) == t;
  }

  method VerifyAggregatedStructSignature(v: ValidatorVerifier, m: Message, sigs: map<Address, Signature>)
    returns (r: Result<(), VerifyError>)
    requires Wellformed(v)
    ensures r == AggregatedVerdict(v, m, sigs)
  {
    var count := CheckNumOfSignatures(v, sigs);
    if count.Err? {
      return count;
    }
    var power := CheckVotingPower(v, sigs.Keys);
    if power.Err? {
      return power;
    }
    var rest := sigs.Keys;
    while rest != {}
      invariant rest <= sigs.Keys
      invariant forall a :: a in sigs.Keys - rest ==> SignatureVerifies(v.infos[a].publicKey, m, sigs[a])
      decreases rest
    {
      var a :| a in rest;
      var one := Verify(v, a, m, sigs[a]);
      if one.Err? {
        return one;
      }
      rest := rest - {a};
    }
    return Ok(());
  }

  /**
    The batch path drops unknown authors before it verifies, and falls back to
    the iterated path when the batch fails.  It still gives the iterated
    path's verdict, error included, for every input.
   */
  method BatchVerifyAggregatedSignatures(v: ValidatorVerifier, m: Message, sigs: map<Address, Signature>)
    returns (r: Result<(), VerifyError>)
    requires Wellformed(v)
    requires BatchSound()
    ensures r == AggregatedVerdict(v, m, sigs)
  {
    var count := CheckNumOfSignatures(v, sigs);
    if count.Err? {
      return count;
    }
    var power := CheckVotingPower(v, sigs.Keys);
    if power.Err? {
      return power;
    }
    var batch: seq<(PublicKey, Signature)> := [];
    var rest := sigs.Keys;
    while rest != {}
      invariant rest <= sigs.Keys
      invariant forall a :: a in sigs.Keys - rest && a in v.infos ==> (v.infos[a].publicKey, sigs[a]) in batch
      decreases rest
    {
      var a :| a in rest;
      if a in v.infos {
        batch := batch + [(v.infos[a].publicKey, sigs[a])];
      }
      rest := rest - {a};
    }
    if !BatchVerifies(m, batch) {
      r := VerifyAggregatedStructSignature(v, m, sigs);
      return;
    }
    forall a | a in sigs
      ensures SignatureVerifies(v.infos[a].publicKey, m, sigs[a])
    {
      var i :| 0 <= i < |batch| && batch[i] == (v.infos[a].publicKey, sigs[a]);
    }
    return Ok(());
  }

  // ----- the quorum theorem ---------------------------------------------

  /** Any two quorums share more than a third of the voting power. */
  lemma QuorumIntersection(v: ValidatorVerifier, s: set<Address>, t: set<Address>)
    requires Wellformed(v) && v.infos != map[]
    requires VotingPowerVerdict(v, s).Ok? && VotingPowerVerdict(v, t).Ok?
    ensures 3 * Power(v.infos, s * t) > v.totalVotingPower
  {
    PowerUnion(v.infos, s - t, s * t);
    assert (s - t) + (s * t) == s;
    PowerUnion(v.infos, s - t, t);
    assert (s - t) + t == s + t;
    PowerMonotone(v.infos, s + t, v.infos.Keys);
  }

  /** With less than a third faulty, two quorums share an author that is not faulty. */
  lemma QuorumsShareCorrect(v: ValidatorVerifier, s: set<Address>, t: set<Address>, faulty: set<Address>)
    returns (a: Address)
    requires Wellformed(v) && v.infos != map[]
    requires s <= v.infos.Keys && t <= v.infos.Keys
    requires Power(v.infos, s) >= v.quorumVotingPower && Power(v.infos, t) >= v.quorumVotingPower
    requires 3 * Power(v.infos, faulty) <= v.totalVotingPower
    ensures a in s && a in t && a !in faulty
  {
    QuorumIntersection(v, s, t);
    if s * t <= faulty {
      PowerMonotone(v.infos, s * t, faulty);
      assert false;
    }
    a :| a in s * t && a !in faulty;
  }

  /** A set that misses less than a third of the power is a quorum, so the correct ones can always decide. */
  lemma CorrectOnesDecide(v: ValidatorVerifier, s: set<Address>)
    requires Wellformed(v)
    requires s <= v.infos.Keys
    requires 3 * Power(v.infos, v.infos.Keys - s) < v.totalVotingPower
    ensures VotingPowerVerdict(v, s) == Ok(())
  {
    PowerUnion(v.infos, s, v.infos.Keys - s);
    assert s + (v.infos.Keys - s) == v.infos.Keys;
  }
}
