/**
  `EventByVersionWithProof::verify` of types/src/contract_event.rs: an untrusted
  server names the latest event at or below a version, together with the event
  after it.
 */
module EventByVersion {
  import opened Types

  datatype ContractEvent = ContractEvent(key: nat, sequenceNumber: U64, data: seq<nat>)

  datatype EventWithProof = EventWithProof(transactionVersion: U64, eventIndex: U64, event: ContractEvent, proof: seq<HashValue>)

  const EventHash: ContractEvent -> HashValue

  /** `EventProof::verify`: the event is at the version and index in the ledger. */
  const EventProofVerifies: (LedgerInfo, HashValue, U64, U64, seq<HashValue>) -> bool

  datatype EventByVersionWithProof = EventByVersionWithProof(
    lowerBoundIncl: Option<EventWithProof>,
    upperBoundExcl: Option<EventWithProof>)

  function SaturatingAdd(x: U64, y: U64): U64 {
    if x + y > U64_MAX then U64_MAX else x + y
  }

  predicate VerifyEvent(e: EventWithProof, li: LedgerInfo, key: nat, sequenceNumber: U64, transactionVersion: U64, eventIndex: U64) {
    && e.event.key == key
    && e.event.sequenceNumber == sequenceNumber
    && e.transactionVersion == transactionVersion
    && e.eventIndex == eventIndex
    && EventProofVerifies(li, EventHash(e.event), transactionVersion, eventIndex, e.proof)
  }

  /** The count to check against when the caller does not know it. */
  function DefaultCount(a: EventByVersionWithProof): U64 {
    if a.upperBoundExcl.Some? then SaturatingAdd(a.upperBoundExcl.value.event.sequenceNumber, 1)
    else if a.lowerBoundIncl.Some? then SaturatingAdd(a.lowerBoundIncl.value.event.sequenceNumber, 1)
    else 0
  }

  predicate VerifyAnswer(a: EventByVersionWithProof, li: LedgerInfo, key: nat, latestEventCount: Option<U64>, eventVersion: U64) {
    && eventVersion <= li.commitInfo.version
    && var count := if latestEventCount.Some? then latestEventCount.value else DefaultCount(a);
       match (a.lowerBoundIncl, a.upperBoundExcl)
       case (None, None) =>
         count == 0
       case (None, Some(first)) =>
         && eventVersion < first.transactionVersion
         && first.event.sequenceNumber == 0
         && count > 0
         && VerifyEvent(first, li, key, first.event.sequenceNumber, first.transactionVersion, first.eventIndex)
       case (Some(lower), Some(upper)) =>
         && lower.transactionVersion <= eventVersion
         && eventVersion < upper.transactionVersion
         && SaturatingAdd(lower.event.sequenceNumber, 1) == upper.event.sequenceNumber
         && count > upper.event.sequenceNumber
         && VerifyEvent(lower, li, key, lower.event.sequenceNumber, lower.transactionVersion, lower.eventIndex)
         && VerifyEvent(upper, li, key, upper.event.sequenceNumber, upper.transactionVersion, upper.eventIndex)
       case (Some(latest), None) =>
         && latest.transactionVersion <= eventVersion
         && SaturatingAdd(latest.event.sequenceNumber, 1) == count
         && VerifyEvent(latest, li, key, latest.event.sequenceNumber, latest.transactionVersion, latest.eventIndex)
  }

  // ----- the events that happened ------------------------------------------

  /** versions[i] is the version of the i-th event under the key; numbers are consecutive, versions never go back. */
  ghost predicate IsEventHistory(versions: seq<U64>) {
    && |versions| <= U64_MAX
    && (forall i, j :: 0 <= i <= j < |versions| ==> versions[i] <= versions[j])
  }

  /** An event with the key that proves itself against the ledger did happen, when it says. */
  ghost predicate ProofsSound(li: LedgerInfo, key: nat, versions: seq<U64>) {
    forall e :: Proven(li, key, e) ==>
      e.event.sequenceNumber < |versions| && versions[e.event.sequenceNumber] == e.transactionVersion
  }

  predicate Proven(li: LedgerInfo, key: nat, e: EventWithProof) {
    e.event.key == key && EventProofVerifies(li, EventHash(e.event), e.transactionVersion, e.eventIndex, e.proof)
  }

  /** How many events happened at or below the version. */
  function CountUpTo(versions: seq<U64>, v: U64): nat {
    if versions == [] || versions[|versions| - 1] <= v then |versions| else CountUpTo(versions[..|versions| - 1], v)
  }

  lemma {:induction false} CountUpToSpec(versions: seq<U64>, v: U64)
    requires IsEventHistory(versions)
    ensures var c := CountUpTo(versions, v);
            c <= |versions| && (forall i :: 0 <= i < c ==> versions[i] <= v) && (forall i :: c <= i < |versions| ==> versions[i] > v)
  {
    if versions != [] && versions[|versions| - 1] > v {
      CountUpToSpec(versions[..|versions| - 1], v);
    }
  }

  predicate IsNumber(e: Option<EventWithProof>, present: bool, number: int) {
    if present then e.Some? && e.value.event.sequenceNumber == number else e.None?
  }

  /** The right answer: the last event at or below the version and the first above it, where they exist. */
  predicate IsTheAnswer(a: EventByVersionWithProof, versions: seq<U64>, v: U64) {
    var c := CountUpTo(versions, v);
    IsNumber(a.lowerBoundIncl, c > 0, c - 1) && IsNumber(a.upperBoundExcl, c < |versions|, c)
  }

  predicate BoundsProven(a: EventByVersionWithProof, li: LedgerInfo, key: nat) {
    && (a.lowerBoundIncl.Some? ==> Proven(li, key, a.lowerBoundIncl.value))
    && (a.upperBoundExcl.Some? ==> Proven(li, key, a.upperBoundExcl.value))
  }

  // ----- exactness -------------------------------------------------------

  /** With an upper bound present, acceptance pins down the answer, whatever count the caller brings. */
  lemma UpperBoundSuffices(a: EventByVersionWithProof, li: LedgerInfo, key: nat, versions: seq<U64>, count: Option<U64>, v: U64)
    requires IsEventHistory(versions) && ProofsSound(li, key, versions)
    requires a.upperBoundExcl.Some? && VerifyAnswer(a, li, key, count, v)
    ensures IsTheAnswer(a, versions, v) && BoundsProven(a, li, key)
  {
    CountUpToSpec(versions, v);
    assert Proven(li, key, a.upperBoundExcl.value);
    if a.lowerBoundIncl.Some? {
      assert Proven(li, key, a.lowerBoundIncl.value);
    }
  }

  /**
    With the true event count the check accepts exactly the right answers, on
    every version up to the ledger's.  Saturation at the end of u64 admits no
    other one.
   */
  lemma TrueCountIsExact(a: EventByVersionWithProof, li: LedgerInfo, key: nat, versions: seq<U64>, v: U64)
    requires IsEventHistory(versions) && ProofsSound(li, key, versions)
    ensures VerifyAnswer(a, li, key, Some(|versions|), v) <==>
              v <= li.commitInfo.version && BoundsProven(a, li, key) && IsTheAnswer(a, versions, v)
  {
    CountUpToSpec(versions, v);
    if a.upperBoundExcl.Some? && VerifyAnswer(a, li, key, Some(|versions|), v) {
      UpperBoundSuffices(a, li, key, versions, Some(|versions|), v);
    }
    assert a.lowerBoundIncl.Some? && Proven(li, key, a.lowerBoundIncl.value) ==>
        versions[a.lowerBoundIncl.value.event.sequenceNumber] == a.lowerBoundIncl.value.transactionVersion;
    assert a.upperBoundExcl.Some? && Proven(li, key, a.upperBoundExcl.value) ==>
        versions[a.upperBoundExcl.value.event.sequenceNumber] == a.upperBoundExcl.value.transactionVersion;
  }

  /**
    Without a count the check is exact if and only if the answer has an upper
    bound; one without it is taken on trust, down to the claim that there are
    no events at all.
   */
  lemma WithoutCount(a: EventByVersionWithProof, li: LedgerInfo, key: nat, versions: seq<U64>, v: U64)
    requires IsEventHistory(versions) && ProofsSound(li, key, versions)
    ensures VerifyAnswer(a, li, key, None, v) <==>
              && v <= li.commitInfo.version
              && BoundsProven(a, li, key)
              && if a.upperBoundExcl.Some? then IsTheAnswer(a, versions, v)
                 else a.lowerBoundIncl.Some? ==> a.lowerBoundIncl.value.event.sequenceNumber < CountUpTo(versions, v)
  {
    CountUpToSpec(versions, v);
    if a.upperBoundExcl.Some? && VerifyAnswer(a, li, key, None, v) {
      UpperBoundSuffices(a, li, key, versions, None, v);
    }
    assert a.lowerBoundIncl.Some? && Proven(li, key, a.lowerBoundIncl.value) ==>
        versions[a.lowerBoundIncl.value.event.sequenceNumber] == a.lowerBoundIncl.value.transactionVersion;
    assert a.upperBoundExcl.Some? && Proven(li, key, a.upperBoundExcl.value) ==>
        versions[a.upperBoundExcl.value.event.sequenceNumber] == a.upperBoundExcl.value.transactionVersion;
  }

  /** So the empty answer passes without a count even where there are events. */
  lemma EmptyAnswerUnchecked(li: LedgerInfo, key: nat, versions: seq<U64>, v: U64)
    requires IsEventHistory(versions) && versions != [] && v <= li.commitInfo.version
    ensures var nothing := EventByVersionWithProof(None, None);
            && VerifyAnswer(nothing, li, key, None, v)
            && !IsTheAnswer(nothing, versions, v)
            && !VerifyAnswer(nothing, li, key, Some(|versions|), v)
  {
    CountUpToSpec(versions, v);
  }
}
