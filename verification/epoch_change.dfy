/**
  types/src/epoch_change.rs, waypoint.rs and epoch_state.rs: a proof of epoch
  changes is walked with a verifier that each ledger info replaces by the
  validator set it carries.
 */
module EpochChanges {
  import opened Types
  import opened Certificates

  // ----- waypoints -------------------------------------------------------

  datatype Waypoint = Waypoint(version: U64, value: HashValue)

  function WaypointFields(li: LedgerInfo): Ledger2Waypoint {
    Ledger2Waypoint(li.commitInfo.epoch, li.commitInfo.executedStateId, li.commitInfo.version,
                    li.commitInfo.timestampUsecs, li.commitInfo.nextEpochState)
  }

  function NewAny(li: LedgerInfo): Waypoint {
    Waypoint(li.commitInfo.version, WaypointHash(WaypointFields(li)))
  }

  predicate WaypointVerify(w: Waypoint, li: LedgerInfo) {
    li.commitInfo.version == w.version && WaypointHash(WaypointFields(li)) == w.value
  }

  /** A waypoint pins down every field it hashes: the ledger infos it accepts differ in consensus data only. */
  lemma WaypointPinsFields(w: Waypoint, li: LedgerInfo, other: LedgerInfo)
    requires WaypointHashInjective()
    requires w == NewAny(other)
    ensures WaypointVerify(w, li) <==> WaypointFields(li) == WaypointFields(other)
  {
    assert WaypointHash(WaypointFields(li)) == WaypointHash(WaypointFields(other)) ==> WaypointFields(li) == WaypointFields(other);
  }

  // ----- verifiers -------------------------------------------------------

  datatype Verifier = ByWaypoint(waypoint: Waypoint) | ByEpoch(state: EpochState)

  predicate Accepts(v: Verifier, li: LedgerInfoWithSignatures) {
    match v
    case ByWaypoint(w) => WaypointVerify(w, li.ledgerInfo)
    case ByEpoch(es) => es.epoch == li.ledgerInfo.commitInfo.epoch && LedgerInfoVerify(es.verifier, li)
  }

  predicate EpochChangeVerificationRequired(v: Verifier, epoch: U64) {
    match v
    case ByWaypoint(_) => true
    case ByEpoch(es) => es.epoch < epoch
  }

  predicate IsStale(v: Verifier, li: LedgerInfo) {
    match v
    case ByWaypoint(w) => li.commitInfo.version < w.version
    case ByEpoch(es) => li.commitInfo.epoch < es.epoch
  }

  // ----- proofs of epoch changes -----------------------------------------

  datatype EpochChangeProof = EpochChangeProof(ledgerInfos: seq<LedgerInfoWithSignatures>, more: bool)

  datatype EpochChangeError = EmptyProof | StaleProof | NotAccepted | NoValidatorSet

  function Last<T>(s: seq<T>): T
    requires s != []
  {
    s[|s| - 1]
  }

  function SkipStale(v: Verifier, lis: seq<LedgerInfoWithSignatures>): seq<LedgerInfoWithSignatures> {
    if lis != [] && IsStale(v, lis[0].ledgerInfo) then SkipStale(v, lis[1..]) else lis
  }

  function Walk(v: Verifier, lis: seq<LedgerInfoWithSignatures>): Result<(), EpochChangeError>
    decreases |lis|
  {
    if lis == [] then Ok(())
    else if !Accepts(v, lis[0]) then Err(NotAccepted)
    else if !lis[0].ledgerInfo.EndsEpoch() then Err(NoValidatorSet)
    else Walk(ByEpoch(lis[0].ledgerInfo.commitInfo.nextEpochState.value), lis[1..])
  }

  function VerifyProof(v: Verifier, lis: seq<LedgerInfoWithSignatures>): Result<LedgerInfoWithSignatures, EpochChangeError> {
    if lis == [] then Err(EmptyProof)
    else if IsStale(v, Last(lis).ledgerInfo) then Err(StaleProof)
    else
      var _ :- Walk(v, SkipStale(v, lis));
      Ok(Last(lis))
  }

  /** The loop of `EpochChangeProof::verify`, with the reassigned verifier. */
  method VerifyEpochChanges(v: Verifier, proof: EpochChangeProof) returns (r: Result<LedgerInfoWithSignatures, EpochChangeError>)
    ensures r == VerifyProof(v, proof.ledgerInfos)
  {
    var lis := proof.ledgerInfos;
    if lis == [] {
      return Err(EmptyProof);
    }
    if IsStale(v, Last(lis).ledgerInfo) {
      return Err(StaleProof);
    }
    var i := 0;
    while i < |lis| && IsStale(v, lis[i].ledgerInfo)
      invariant i <= |lis|
      invariant SkipStale(v, lis) == SkipStale(v, lis[i..])
    {
      i := i + 1;
    }
    var verifierRef := v;
    while i < |lis|
      invariant i <= |lis|
      invariant Walk(v, SkipStale(v, lis)) == Walk(verifierRef, lis[i..])
    {
      if !Accepts(verifierRef, lis[i]) {
        return Err(NotAccepted);
      }
      if !lis[i].ledgerInfo.EndsEpoch() {
        return Err(NoValidatorSet);
      }
      verifierRef := ByEpoch(lis[i].ledgerInfo.commitInfo.nextEpochState.value);
      i := i + 1;
    }
    return Ok(Last(lis));
  }

  // ----- what success means ----------------------------------------------

  /** The ledger info is in the epoch named by, and signed by a quorum of the set carried by, the one before it. */
  predicate Links(before: LedgerInfoWithSignatures, li: LedgerInfoWithSignatures) {
    && before.ledgerInfo.EndsEpoch()
    && var es := before.ledgerInfo.commitInfo.nextEpochState.value;
       && li.ledgerInfo.commitInfo.epoch == es.epoch
       && LedgerInfoVerify(es.verifier, li)
  }

  /** From index k on: accepted by the verifier, then link by link, each ending its epoch. */
  ghost predicate ChainedFrom(v: Verifier, lis: seq<LedgerInfoWithSignatures>, k: nat) {
    && k < |lis|
    && Accepts(v, lis[k])
    && (forall i :: k < i < |lis| ==> Links(lis[i - 1], lis[i]))
    && Last(lis).ledgerInfo.EndsEpoch()
  }

  ghost predicate StalePrefix(v: Verifier, lis: seq<LedgerInfoWithSignatures>, k: nat) {
    && k <= |lis|
    && (forall i :: 0 <= i < k ==> IsStale(v, lis[i].ledgerInfo))
    && (k < |lis| ==> !IsStale(v, lis[k].ledgerInfo))
  }

  lemma {:induction false} SkipStaleSpec(v: Verifier, lis: seq<LedgerInfoWithSignatures>) returns (k: nat)
    ensures StalePrefix(v, lis, k)
    ensures SkipStale(v, lis) == lis[k..]
  {
    if lis != [] && IsStale(v, lis[0].ledgerInfo) {
      var j := SkipStaleSpec(v, lis[1..]);
      k := j + 1;
      assert lis[1..][j..] == lis[k..];
      assert k < |lis| ==> lis[1..][j] == lis[k];
      forall i | 0 <= i < k
        ensures IsStale(v, lis[i].ledgerInfo)
      {
        assert i > 0 ==> lis[i] == lis[1..][i - 1];
      }
    } else {
      k := 0;
      assert lis[0..] == lis;
    }
  }

  lemma {:induction false} WalkSpec(v: Verifier, lis: seq<LedgerInfoWithSignatures>)
    requires lis != []
    ensures Walk(v, lis).Ok? <==> ChainedFrom(v, lis, 0)
    decreases |lis|
  {
    if |lis| > 1 && ChainedFrom(v, lis, 0) {
      assert Links(lis[0], lis[1]);
    }
    if Accepts(v, lis[0]) && lis[0].ledgerInfo.EndsEpoch() && |lis| > 1 {
      var next := ByEpoch(lis[0].ledgerInfo.commitInfo.nextEpochState.value);
      var tail := lis[1..];
      WalkSpec(next, tail);
      assert Links(lis[0], lis[1]) <==> Accepts(next, tail[0]);
      assert forall i :: 0 < i < |tail| ==> Links(tail[i - 1], tail[i]) == Links(lis[i], lis[i + 1]);
      if ChainedFrom(next, tail, 0) {
        forall i | 0 < i < |lis|
          ensures Links(lis[i - 1], lis[i])
        {
          assert i > 1 ==> Links(tail[i - 2], tail[i - 1]);
        }
      }
      if ChainedFrom(v, lis, 0) {
        forall i | 0 < i < |tail|
          ensures Links(tail[i - 1], tail[i])
        {
          assert Links(lis[i], lis[i + 1]);
        }
      }
    }
  }

  /**
    A proof verifies exactly when, past its stale prefix, its first ledger info
    is accepted by the verifier and every other one links to the one before
    it; the result is the last one.
   */
  lemma VerifySpec(v: Verifier, lis: seq<LedgerInfoWithSignatures>)
    ensures VerifyProof(v, lis).Ok? <==>
              lis != [] && !IsStale(v, Last(lis).ledgerInfo) && exists k: nat :: StalePrefix(v, lis, k) && ChainedFrom(v, lis, k)
    ensures VerifyProof(v, lis).Ok? ==> VerifyProof(v, lis).value == Last(lis) && Last(lis).ledgerInfo.EndsEpoch()
  {
    if lis != [] && !IsStale(v, Last(lis).ledgerInfo) {
      var k := SkipStaleSpec(v, lis);
      assert k < |lis|;
      WalkSpec(v, lis[k..]);
      ShiftChain(v, lis, k);
      forall j: nat | StalePrefix(v, lis, j) && ChainedFrom(v, lis, j)
        ensures j == k
      {
      }
    }
  }

  /** Who judges the k-th ledger info: the verifier, or the validators that the one before brings in. */
  function JudgeOf(v: Verifier, lis: seq<LedgerInfoWithSignatures>, k: nat): Verifier
    requires k < |lis| && (k > 0 ==> lis[k - 1].ledgerInfo.EndsEpoch())
  {
    if k == 0 then v else ByEpoch(lis[k - 1].ledgerInfo.commitInfo.nextEpochState.value)
  }

  /** A walk that fails does so at one ledger info, and the error says whether its judge refused it or it brings nobody in. */
  lemma {:induction false} WalkFailsAt(v: Verifier, lis: seq<LedgerInfoWithSignatures>) returns (k: nat)
    requires Walk(v, lis).Err?
    ensures k < |lis| && (forall i :: 0 <= i < k ==> lis[i].ledgerInfo.EndsEpoch())
    ensures forall i :: 0 <= i < k ==> Accepts(JudgeOf(v, lis, i), lis[i])
    ensures !Accepts(JudgeOf(v, lis, k), lis[k]) || !lis[k].ledgerInfo.EndsEpoch()
    ensures Walk(v, lis).error == NotAccepted <==> !Accepts(JudgeOf(v, lis, k), lis[k])
    ensures Walk(v, lis).error == NoValidatorSet <==> Accepts(JudgeOf(v, lis, k), lis[k]) && !lis[k].ledgerInfo.EndsEpoch()
    decreases |lis|
  {
    if !Accepts(v, lis[0]) || !lis[0].ledgerInfo.EndsEpoch() {
      k := 0;
    } else {
      var next, tail := ByEpoch(lis[0].ledgerInfo.commitInfo.nextEpochState.value), lis[1..];
      var j := WalkFailsAt(next, tail);
      k := j + 1;
      forall i | 0 <= i < k
        ensures lis[i].ledgerInfo.EndsEpoch() && Accepts(JudgeOf(v, lis, i), lis[i])
      {
        if i > 0 {
          assert lis[i] == tail[i - 1];
          assert JudgeOf(next, tail, i - 1) == JudgeOf(v, lis, i);
        }
      }
      assert JudgeOf(next, tail, j) == JudgeOf(v, lis, k);
    }
  }

  /** The refusals of a proof before any of it is verified. */
  lemma RefusedUnread(v: Verifier, lis: seq<LedgerInfoWithSignatures>)
    ensures VerifyProof(v, lis) == Err(EmptyProof) <==> lis == []
    ensures VerifyProof(v, lis) == Err(StaleProof) <==> lis != [] && IsStale(v, Last(lis).ledgerInfo)
  {
    if Walk(v, SkipStale(v, lis)).Err? {
      var _ := WalkFailsAt(v, SkipStale(v, lis));
    }
  }

  lemma ShiftChain(v: Verifier, lis: seq<LedgerInfoWithSignatures>, k: nat)
    requires k < |lis|
    ensures ChainedFrom(v, lis[k..], 0) <==> ChainedFrom(v, lis, k)
  {
    var tail := lis[k..];
    assert Last(tail) == Last(lis);
    if ChainedFrom(v, tail, 0) {
      forall i | k < i < |lis|
        ensures Links(lis[i - 1], lis[i])
      {
        assert Links(tail[i - k - 1], tail[i - k]);
      }
    }
    if ChainedFrom(v, lis, k) {
      forall i | 0 < i < |tail|
        ensures Links(tail[i - 1], tail[i])
      {
        assert Links(lis[i + k - 1], lis[i + k]);
      }
    }
  }

  // ----- completeness on a true history ----------------------------------

  /** The epoch-ending ledger infos of one history: consecutive epochs, each signed by the set the last one carried. */
  ghost predicate EpochHistory(h: seq<LedgerInfoWithSignatures>) {
    && (forall i :: 0 <= i < |h| ==>
          && h[i].ledgerInfo.EndsEpoch()
          && h[i].ledgerInfo.commitInfo.nextEpochState.value.epoch == h[i].ledgerInfo.commitInfo.epoch + 1)
    && (forall i :: 0 < i < |h| ==> Links(h[i - 1], h[i]))
    && (forall i, j :: 0 <= i < j < |h| ==> h[i].ledgerInfo.commitInfo.version < h[j].ledgerInfo.commitInfo.version)
  }

  lemma {:induction false} HistoryEpochs(h: seq<LedgerInfoWithSignatures>, i: nat, j: nat)
    requires EpochHistory(h) && i <= j < |h|
    ensures h[j].ledgerInfo.commitInfo.epoch == h[i].ledgerInfo.commitInfo.epoch + (j - i)
    decreases j
  {
    if i < j {
      HistoryEpochs(h, i, j - 1);
      assert Links(h[j - 1], h[j]);
    }
  }

  /** What a verifier knows when it stands at position c of the history. */
  ghost predicate StandsAt(v: Verifier, h: seq<LedgerInfoWithSignatures>, c: nat) {
    && c < |h|
    && Accepts(v, h[c])
  }

  /**
    Any contiguous slice of a true history verifies from any position inside
    it, whether the position is known by a validator set or by a waypoint, and
    leads to the slice's last ledger info.
   */
  lemma HistorySliceVerifies(v: Verifier, h: seq<LedgerInfoWithSignatures>, a: nat, c: nat, b: nat)
    requires EpochHistory(h) && a <= c < b <= |h|
    requires StandsAt(v, h, c)
    ensures VerifyProof(v, h[a..b]) == Ok(h[b - 1])
  {
    var lis := h[a..b];
    forall i | a <= i < b
      ensures IsStale(v, h[i].ledgerInfo) <==> i < c
    {
      if i < c {
        HistoryEpochs(h, i, c);
      } else {
        HistoryEpochs(h, c, i);
      }
    }
    assert StalePrefix(v, lis, c - a);
    forall i | c - a < i < |lis|
      ensures Links(lis[i - 1], lis[i])
    {
      assert Links(h[a + i - 1], h[a + i]);
    }
    assert ChainedFrom(v, lis, c - a);
    VerifySpec(v, lis);
  }

  // ----- stale prefixes and chunks ---------------------------------------

  lemma {:induction false} SkipStalePrefix(v: Verifier, stale: seq<LedgerInfoWithSignatures>, lis: seq<LedgerInfoWithSignatures>)
    requires forall i :: 0 <= i < |stale| ==> IsStale(v, stale[i].ledgerInfo)
    ensures SkipStale(v, stale + lis) == SkipStale(v, lis)
  {
    if stale == [] {
      assert stale + lis == lis;
    } else {
      assert (stale + lis)[1..] == stale[1..] + lis;
      SkipStalePrefix(v, stale[1..], lis);
    }
  }

  /** Prepending stale ledger infos leaves the outcome of a non-empty proof unchanged; an empty one still fails. */
  lemma StalePrefixIrrelevant(v: Verifier, stale: seq<LedgerInfoWithSignatures>, lis: seq<LedgerInfoWithSignatures>)
    requires forall i :: 0 <= i < |stale| ==> IsStale(v, stale[i].ledgerInfo)
    ensures lis != [] ==> VerifyProof(v, stale + lis) == VerifyProof(v, lis)
    ensures lis == [] ==> VerifyProof(v, stale + lis).Err?
  {
    SkipStalePrefix(v, stale, lis);
    if lis != [] {
      assert Last(stale + lis) == Last(lis);
    } else if stale != [] {
      assert stale + lis == stale;
    }
  }

  lemma {:induction false} WalkConcat(v: Verifier, front: seq<LedgerInfoWithSignatures>, back: seq<LedgerInfoWithSignatures>)
    requires front != []
    ensures Walk(v, front + back).Ok? <==>
              && Walk(v, front).Ok?
              && Last(front).ledgerInfo.EndsEpoch()
              && Walk(ByEpoch(Last(front).ledgerInfo.commitInfo.nextEpochState.value), back).Ok?
    decreases |front|
  {
    assert (front + back)[1..] == front[1..] + back;
    if |front| == 1 {
      assert front[1..] + back == back;
    } else if Accepts(v, front[0]) && front[0].ledgerInfo.EndsEpoch() {
      WalkConcat(ByEpoch(front[0].ledgerInfo.commitInfo.nextEpochState.value), front[1..], back);
    }
  }

  lemma {:induction false} SkipStaleConcat(v: Verifier, front: seq<LedgerInfoWithSignatures>, back: seq<LedgerInfoWithSignatures>)
    requires front != [] && !IsStale(v, Last(front).ledgerInfo)
    ensures SkipStale(v, front + back) == SkipStale(v, front) + back
    ensures SkipStale(v, front) != [] && Last(SkipStale(v, front)) == Last(front)
  {
    if IsStale(v, front[0].ledgerInfo) {
      assert (front + back)[1..] == front[1..] + back;
      SkipStaleConcat(v, front[1..], back);
    }
  }

  /**
    A proof cut after a ledger info that is not stale verifies whole exactly
    when both pieces verify in turn, the second from the state the first ends
    in, and the second starts in that epoch.  This holds up to the one check
    that is made on the last ledger info against the verifier of the start,
    and so is made for the pieces against another one than for the whole.
   */
  lemma ChunkingAgrees(v: Verifier, front: seq<LedgerInfoWithSignatures>, back: seq<LedgerInfoWithSignatures>, mid: EpochState)
    requires front != [] && back != []
    requires Last(front).ledgerInfo.commitInfo.nextEpochState == Some(mid)
    requires !IsStale(v, Last(front).ledgerInfo)
    ensures VerifyProof(v, front + back).Ok? && !IsStale(ByEpoch(mid), Last(back).ledgerInfo) <==>
              && VerifyProof(v, front).Ok?
              && VerifyProof(ByEpoch(mid), back).Ok?
              && back[0].ledgerInfo.commitInfo.epoch == mid.epoch
              && !IsStale(v, Last(back).ledgerInfo)
  {
    assert Last(front + back) == Last(back);
    SkipStaleConcat(v, front, back);
    WalkConcat(v, SkipStale(v, front), back);
  }

  /** Where the last ledger info is stale under both starting points or under neither, whole and pieces agree. */
  lemma ChunkingAgreesWhenStalenessDoes(v: Verifier, front: seq<LedgerInfoWithSignatures>, back: seq<LedgerInfoWithSignatures>, mid: EpochState)
    requires front != [] && back != []
    requires Last(front).ledgerInfo.commitInfo.nextEpochState == Some(mid)
    requires !IsStale(v, Last(front).ledgerInfo)
    requires IsStale(v, Last(back).ledgerInfo) == IsStale(ByEpoch(mid), Last(back).ledgerInfo)
    ensures VerifyProof(v, front + back).Ok? <==>
              VerifyProof(v, front).Ok? && VerifyProof(ByEpoch(mid), back).Ok? && back[0].ledgerInfo.commitInfo.epoch == mid.epoch
  {
    assert Last(front + back) == Last(back);
    ChunkingAgrees(v, front, back, mid);
  }

  /**
    The condition is needed one way: whenever the second piece goes back behind
    the waypoint that the first one starts from, both verify, but the whole
    does not.
   */
  lemma CutCanMatter(first: LedgerInfoWithSignatures, second: LedgerInfoWithSignatures, mid: EpochState)
    requires first.ledgerInfo.commitInfo.nextEpochState == Some(mid)
    requires Accepts(ByEpoch(mid), second) && second.ledgerInfo.EndsEpoch()
    requires second.ledgerInfo.commitInfo.version < first.ledgerInfo.commitInfo.version
    ensures var start := ByWaypoint(NewAny(first.ledgerInfo));
            && VerifyProof(start, [first]).Ok?
            && VerifyProof(ByEpoch(mid), [second]).Ok?
            && VerifyProof(start, [first] + [second]) == Err(StaleProof)
  {
    assert Last([first] + [second]) == second;
    WalkSpec(ByWaypoint(NewAny(first.ledgerInfo)), [first]);
    WalkSpec(ByEpoch(mid), [second]);
  }

  /**
    And the other way: whenever the second piece ends in an epoch before the
    one it starts in, the whole verifies, but the second piece alone does not.
   */
  lemma CutCanMatterBack(first: LedgerInfoWithSignatures, second: LedgerInfoWithSignatures, third: LedgerInfoWithSignatures, mid: EpochState)
    requires first.ledgerInfo.commitInfo.nextEpochState == Some(mid)
    requires Links(first, second) && Links(second, third) && third.ledgerInfo.EndsEpoch()
    requires third.ledgerInfo.commitInfo.epoch < mid.epoch
    requires third.ledgerInfo.commitInfo.version >= first.ledgerInfo.commitInfo.version
    ensures var start := ByWaypoint(NewAny(first.ledgerInfo));
            && VerifyProof(start, [first] + [second, third]).Ok?
            && VerifyProof(start, [first]).Ok?
            && VerifyProof(ByEpoch(mid), [second, third]) == Err(StaleProof)
  {
    var start := ByWaypoint(NewAny(first.ledgerInfo));
    var lis := [first] + [second, third];
    assert Last(lis) == third && Last([second, third]) == third;
    assert lis[0] == first && lis[1] == second && lis[2] == third;
    WalkSpec(start, lis);
    WalkSpec(start, [first]);
  }

  /** The code relies on signers for this: the epoch a ledger info opens comes after its own. */
  predicate AdvancesEpoch(li: LedgerInfo) {
    li.EndsEpoch() ==> li.commitInfo.nextEpochState.value.epoch > li.commitInfo.epoch
  }

  lemma {:induction false} WalkClimbs(es: EpochState, lis: seq<LedgerInfoWithSignatures>)
    requires lis != [] && Walk(ByEpoch(es), lis).Ok?
    requires forall i :: 0 <= i < |lis| ==> AdvancesEpoch(lis[i].ledgerInfo)
    ensures Last(lis).ledgerInfo.commitInfo.epoch >= es.epoch
    decreases |lis|
  {
    if |lis| > 1 {
      WalkClimbs(lis[0].ledgerInfo.commitInfo.nextEpochState.value, lis[1..]);
    }
  }

  /** On ledger infos that advance the epoch, cutting needs no condition at all when starting from a validator set. */
  lemma ChunkingOfAdvancing(es: EpochState, front: seq<LedgerInfoWithSignatures>, back: seq<LedgerInfoWithSignatures>, mid: EpochState)
    requires front != [] && back != []
    requires Last(front).ledgerInfo.commitInfo.nextEpochState == Some(mid)
    requires !IsStale(ByEpoch(es), Last(front).ledgerInfo)
    requires forall i :: 0 <= i < |front| ==> AdvancesEpoch(front[i].ledgerInfo)
    requires forall i :: 0 <= i < |back| ==> AdvancesEpoch(back[i].ledgerInfo)
    ensures VerifyProof(ByEpoch(es), front + back).Ok? <==>
              && VerifyProof(ByEpoch(es), front).Ok?
              && VerifyProof(ByEpoch(mid), back).Ok?
              && back[0].ledgerInfo.commitInfo.epoch == mid.epoch
  {
    assert Last(front + back) == Last(back);
    assert AdvancesEpoch(Last(front).ledgerInfo);
    if VerifyProof(ByEpoch(es), front + back).Ok? {
      SkipStaleConcat(ByEpoch(es), front, back);
      WalkConcat(ByEpoch(es), SkipStale(ByEpoch(es), front), back);
      WalkClimbs(mid, back);
    }
    ChunkingAgrees(ByEpoch(es), front, back, mid);
  }
}
