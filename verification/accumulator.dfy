/**
  types/src/proof/accumulator/mod.rs and the accumulator summary of
  types/src/proof/definition.rs: a Merkle accumulator kept as the roots of its
  full subtrees, and its extension by subtrees that stand for leaves nobody
  shows.

  A number of leaves is written m * 2^k throughout, so that the bit tests and
  shifts of the code become tests and halvings of m.
 */
module Accumulators {
  import opened Types

  const NodeHash: (HashValue, HashValue) -> HashValue

  ghost predicate NodeHashInjective() {
    forall a, b, c, d :: NodeHash(a, b) == NodeHash(c, d) ==> a == c && b == d
  }

  const MAX_ACCUMULATOR_LEAVES: U64 := 0x8000_0000_0000_0000

  datatype Accumulator = Accumulator(frozenSubtreeRoots: seq<HashValue>, numLeaves: U64, rootHash: HashValue) {
    function Version(): U64 {
      if numLeaves == 0 then 0 else numLeaves - 1
    }
  }

  datatype AccumulatorError = Malformed | TooManyLeaves | TooFewSubtrees | SubtreeCountMismatch | TargetTooOld | NotConsistent

  // ----- numbers ---------------------------------------------------------

  /** m * 2^k */
  function Scale(m: nat, k: nat): (n: nat)
    ensures n >= m && (m == 0 ==> n == 0)
  {
    if k == 0 then m else 2 * Scale(m, k - 1)
  }

  function PopCount(n: nat): nat {
    if n == 0 then 0 else n % 2 + PopCount(n / 2)
  }

  lemma {:induction false} ScaleAdd(m: nat, n: nat, k: nat)
    ensures Scale(m + n, k) == Scale(m, k) + Scale(n, k)
  {
    if k > 0 {
      ScaleAdd(m, n, k - 1);
    }
  }

  lemma ScaleDouble(m: nat, k: nat)
    ensures Scale(2 * m, k) == Scale(m, k + 1)
  {
    ScaleAdd(m, m, k);
  }

  lemma {:induction false} ScaleStep(m: nat, n: nat, k: nat)
    requires m < n
    ensures Scale(m, k) + Scale(1, k) <= Scale(n, k)
  {
    if k > 0 {
      ScaleStep(m, n, k - 1);
    }
  }

  /** Quotient and remainder by 2^k are unique. */
  lemma ScaleUnique(m: nat, r: nat, n: nat, s: nat, k: nat)
    requires Scale(m, k) + r == Scale(n, k) + s && r < Scale(1, k) && s < Scale(1, k)
    ensures m == n && r == s
  {
    if m < n {
      ScaleStep(m, n, k);
    } else if n < m {
      ScaleStep(n, m, k);
    }
  }

  // ----- the accumulator -------------------------------------------------

  /** From the right: a set bit takes a root, a clear one the placeholder. */
  function FoldRoot(roots: seq<HashValue>, bitmap: nat, hash: HashValue): HashValue
    requires |roots| == PopCount(bitmap)
    decreases bitmap
  {
    if bitmap == 0 then hash
    else if bitmap % 2 == 1 then FoldRoot(roots[..|roots| - 1], bitmap / 2, NodeHash(roots[|roots| - 1], hash))
    else FoldRoot(roots, bitmap / 2, NodeHash(hash, ACCUMULATOR_PLACEHOLDER_HASH))
  }

  function DropTrailingZeros(n: nat): (m: nat)
    ensures PopCount(m) == PopCount(n)
  {
    if n > 0 && n % 2 == 0 then DropTrailingZeros(n / 2) else n
  }

  function ComputeRootHash(roots: seq<HashValue>, numLeaves: nat): HashValue
    requires |roots| == PopCount(numLeaves)
  {
    if |roots| == 0 then ACCUMULATOR_PLACEHOLDER_HASH
    else if |roots| == 1 then roots[0]
    else FoldRoot(roots, DropTrailingZeros(numLeaves), ACCUMULATOR_PLACEHOLDER_HASH)
  }

  method ComputeRootHashLoop(roots: seq<HashValue>, numLeaves: nat) returns (hash: HashValue)
    requires |roots| == PopCount(numLeaves)
    ensures hash == ComputeRootHash(roots, numLeaves)
  {
    hash := ACCUMULATOR_PLACEHOLDER_HASH;
    if |roots| == 0 {
      return;
    }
    if |roots| == 1 {
      return roots[0];
    }
    var bitmap, n := DropTrailingZeros(numLeaves), |roots|;
    assert roots[..n] == roots;
    while bitmap > 0
      invariant n <= |roots| && n == PopCount(bitmap)
      invariant FoldRoot(roots[..n], bitmap, hash) == ComputeRootHash(roots, numLeaves)
    {
      if bitmap % 2 == 1 {
        assert roots[..n][..n - 1] == roots[..n - 1];
        hash := NodeHash(roots[n - 1], hash);
        n := n - 1;
      } else {
        hash := NodeHash(hash, ACCUMULATOR_PLACEHOLDER_HASH);
      }
      bitmap := bitmap / 2;
    }
  }

  /** As the constructor makes it. */
  predicate Valid(acc: Accumulator) {
    |acc.frozenSubtreeRoots| == PopCount(acc.numLeaves) && acc.rootHash == ComputeRootHash(acc.frozenSubtreeRoots, acc.numLeaves)
  }

  function New(roots: seq<HashValue>, numLeaves: U64): Result<Accumulator, AccumulatorError> {
    if |roots| != PopCount(numLeaves) then Err(SubtreeCountMismatch)
    else Ok(Accumulator(roots, numLeaves, ComputeRootHash(roots, numLeaves)))
  }

  // ----- appending subtrees ------------------------------------------------

  /**
    The inner loop: as long as there is a subtree of the same size on the left,
    merge with it.  Result: the roots, and the new count as m * 2^k with m odd.
   */
  function Carry(roots: seq<HashValue>, m: nat, k: nat, hash: HashValue): (seq<HashValue>, nat, nat)
    requires |roots| == PopCount(m)
    decreases m
  {
    if m % 2 == 0 then (roots + [hash], m + 1, k)
    else Carry(roots[..|roots| - 1], m / 2, k + 1, NodeHash(roots[|roots| - 1], hash))
  }

  /** The inner loop as the code runs it, on a local copy of the roots. */
  method CarryLoop(before: seq<HashValue>, count: nat, exponent: nat, subtree: HashValue)
    returns (roots: seq<HashValue>, m: nat, k: nat)
    requires |before| == PopCount(count)
    ensures (roots, m, k) == Carry(before, count, exponent, subtree)
  {
    roots, m, k := before, count, exponent;
    var hash := subtree;
    while m % 2 == 1
      invariant |roots| == PopCount(m)
      invariant Carry(roots, m, k, hash) == Carry(before, count, exponent, subtree)
      decreases m
    {
      hash := NodeHash(roots[|roots| - 1], hash);
      roots, m, k := roots[..|roots| - 1], m / 2, k + 1;
    }
    roots, m := roots + [hash], m + 1;
  }

  lemma OddScale(m: nat, k: nat)
    requires m % 2 == 1
    ensures Scale(m / 2, k + 1) + Scale(1, k + 1) == Scale(m, k) + Scale(1, k)
  {
    ScaleDouble(m / 2, k);
    ScaleAdd(2 * (m / 2), 1, k);
  }

  lemma {:induction false} CarryCounts(roots: seq<HashValue>, m: nat, k: nat, hash: HashValue)
    requires |roots| == PopCount(m)
    ensures var (roots', m', k') := Carry(roots, m, k, hash);
            |roots'| == PopCount(m') && Scale(m', k') == Scale(m, k) + Scale(1, k)
    decreases m
  {
    if m % 2 == 0 {
      assert (m + 1) / 2 == m / 2;
      ScaleAdd(m, 1, k);
    } else {
      CarryCounts(roots[..|roots| - 1], m / 2, k + 1, NodeHash(roots[|roots| - 1], hash));
      OddScale(m, k);
    }
  }

  /** n * 2^k as m * 2^j with m odd. */
  function Split(n: nat, k: nat): (r: (nat, nat))
    requires n > 0
    ensures Scale(r.0, r.1) == Scale(n, k) && PopCount(r.0) == PopCount(n)
  {
    if n % 2 == 1 then (n, k)
    else
      ScaleDouble(n / 2, k);
      Split(n / 2, k + 1)
  }

  function AppendLoop(roots: seq<HashValue>, m: nat, k: nat, remaining: nat, subtrees: seq<HashValue>): Result<Accumulator, AccumulatorError>
    requires |roots| == PopCount(m) && Scale(m, k) + remaining <= U64_MAX
    decreases remaining
  {
    if remaining < Scale(1, k) then New(roots + subtrees, Scale(m, k) + remaining)
    else if subtrees == [] then Err(TooFewSubtrees)
    else
      var (roots', m', k') := Carry(roots, m, k, subtrees[0]);
      CarryCounts(roots, m, k, subtrees[0]);
      AppendLoop(roots', m', k', remaining - Scale(1, k), subtrees[1..])
  }

  function AppendSubtrees(acc: Accumulator, subtrees: seq<HashValue>, numNewLeaves: U64): Result<Accumulator, AccumulatorError> {
    if |acc.frozenSubtreeRoots| != PopCount(acc.numLeaves) then Err(Malformed)
    else if acc.numLeaves + numNewLeaves > MAX_ACCUMULATOR_LEAVES then Err(TooManyLeaves)
    else if acc.numLeaves == 0 then New(subtrees, numNewLeaves)
    else
      var (m, k) := Split(acc.numLeaves, 0);
      AppendLoop(acc.frozenSubtreeRoots, m, k, numNewLeaves, subtrees)
  }

  method AppendSubtreesLoop(acc: Accumulator, subtrees: seq<HashValue>, numNewLeaves: U64) returns (r: Result<Accumulator, AccumulatorError>)
    ensures r == AppendSubtrees(acc, subtrees, numNewLeaves)
  {
    if |acc.frozenSubtreeRoots| != PopCount(acc.numLeaves) {
      return Err(Malformed);
    }
    if acc.numLeaves + numNewLeaves > MAX_ACCUMULATOR_LEAVES {
      return Err(TooManyLeaves);
    }
    if acc.numLeaves == 0 {
      return New(subtrees, numNewLeaves);
    }
    var roots, i := acc.frozenSubtreeRoots, 0;
    var remaining: nat := numNewLeaves;
    var (m, k) := Split(acc.numLeaves, 0);
    while remaining >= Scale(1, k)
      invariant |roots| == PopCount(m) && Scale(m, k) + remaining <= U64_MAX && 0 <= i <= |subtrees|
      invariant AppendLoop(roots, m, k, remaining, subtrees[i..]) == AppendSubtrees(acc, subtrees, numNewLeaves)
      decreases remaining
    {
      if i == |subtrees| {
        return Err(TooFewSubtrees);
      }
      CarryCounts(roots, m, k, subtrees[i]);
      assert subtrees[i..][1..] == subtrees[i + 1..];
      remaining := remaining - Scale(1, k);
      roots, m, k := CarryLoop(roots, m, k, subtrees[i]);
      i := i + 1;
    }
    return New(roots + subtrees[i..], Scale(m, k) + remaining);
  }

  // ----- appending leaves --------------------------------------------------

  /** The leaf is pushed, then merged once for every trailing one of the count. */
  function AppendOne(roots: seq<HashValue>, n: nat, leaf: HashValue): (r: seq<HashValue>)
    requires |roots| == PopCount(n)
    ensures |r| == PopCount(n + 1)
  {
    CarryPopCount(roots, n, 0, leaf);
    Carry(roots, n, 0, leaf).0
  }

  function AppendRoots(roots: seq<HashValue>, n: nat, leaves: seq<HashValue>): (r: seq<HashValue>)
    requires |roots| == PopCount(n)
    ensures |r| == PopCount(n + |leaves|)
    decreases |leaves|
  {
    if leaves == [] then roots else AppendRoots(AppendOne(roots, n, leaves[0]), n + 1, leaves[1..])
  }

  lemma PopCountBits(x: nat)
    ensures PopCount(2 * x) == PopCount(x) && PopCount(2 * x + 1) == PopCount(x) + 1
  {
    assert (2 * x) / 2 == x && (2 * x + 1) / 2 == x;
  }

  lemma {:induction false} CarryPopCount(roots: seq<HashValue>, m: nat, k: nat, hash: HashValue)
    requires |roots| == PopCount(m)
    ensures |Carry(roots, m, k, hash).0| == PopCount(m + 1)
    decreases m
  {
    var half := m / 2;
    PopCountBits(half);
    if m % 2 == 0 {
      assert m == 2 * half;
    } else {
      assert m == 2 * half + 1 && m + 1 == 2 * (half + 1);
      PopCountBits(half + 1);
      CarryPopCount(roots[..|roots| - 1], half, k + 1, NodeHash(roots[|roots| - 1], hash));
    }
  }

  function Append(acc: Accumulator, leaves: seq<HashValue>): Accumulator
    requires |acc.frozenSubtreeRoots| == PopCount(acc.numLeaves) && acc.numLeaves + |leaves| <= U64_MAX
  {
    New(AppendRoots(acc.frozenSubtreeRoots, acc.numLeaves, leaves), acc.numLeaves + |leaves|).value
  }

  method AppendRootsLoop(before: seq<HashValue>, count: nat, leaves: seq<HashValue>) returns (roots: seq<HashValue>)
    requires |before| == PopCount(count)
    ensures roots == AppendRoots(before, count, leaves)
  {
    roots := before;
    var n, rest := count, leaves;
    while rest != []
      invariant |roots| == PopCount(n)
      invariant AppendRoots(roots, n, rest) == AppendRoots(before, count, leaves)
      decreases |rest|
    {
      ghost var next := AppendOne(roots, n, rest[0]);
      var m, k;
      roots, m, k := CarryLoop(roots, n, 0, rest[0]);
      assert roots == next;
      n, rest := n + 1, rest[1..];
    }
  }

  method AppendLeaves(acc: Accumulator, leaves: seq<HashValue>) returns (r: Accumulator)
    requires |acc.frozenSubtreeRoots| == PopCount(acc.numLeaves) && acc.numLeaves + |leaves| <= U64_MAX
    ensures r == Append(acc, leaves)
  {
    var roots := AppendRootsLoop(acc.frozenSubtreeRoots, acc.numLeaves, leaves);
    r := New(roots, acc.numLeaves + |leaves|).value;
  }

  predicate VerifyConsistency(acc: Accumulator, li: LedgerInfo) {
    li.commitInfo.version == acc.Version() && li.commitInfo.executedStateId == acc.rootHash
  }

  function TryExtendWithProof(acc: Accumulator, subtrees: seq<HashValue>, target: LedgerInfo): Result<Accumulator, AccumulatorError> {
    if target.commitInfo.version < acc.Version() then Err(TargetTooOld)
    else
      var extended :- AppendSubtrees(acc, subtrees, target.commitInfo.version - acc.Version());
      if VerifyConsistency(extended, target) then Ok(extended) else Err(NotConsistent)
  }

  lemma {:induction false} AppendLoopIsValid(roots: seq<HashValue>, m: nat, k: nat, remaining: nat, subtrees: seq<HashValue>)
    requires |roots| == PopCount(m) && Scale(m, k) + remaining <= U64_MAX
    requires AppendLoop(roots, m, k, remaining, subtrees).Ok?
    ensures Valid(AppendLoop(roots, m, k, remaining, subtrees).value)
    ensures AppendLoop(roots, m, k, remaining, subtrees).value.numLeaves == Scale(m, k) + remaining
    decreases remaining
  {
    if remaining >= Scale(1, k) {
      var (roots', m', k') := Carry(roots, m, k, subtrees[0]);
      CarryCounts(roots, m, k, subtrees[0]);
      AppendLoopIsValid(roots', m', k', remaining - Scale(1, k), subtrees[1..]);
    }
  }

  lemma AppendIsValid(acc: Accumulator, subtrees: seq<HashValue>, n: U64)
    requires AppendSubtrees(acc, subtrees, n).Ok?
    ensures Valid(AppendSubtrees(acc, subtrees, n).value)
    ensures AppendSubtrees(acc, subtrees, n).value.numLeaves == acc.numLeaves + n
  {
    if acc.numLeaves > 0 {
      var (m, k) := Split(acc.numLeaves, 0);
      AppendLoopIsValid(acc.frozenSubtreeRoots, m, k, n, subtrees);
    }
  }

  /** Extending to its own version leaves an accumulator as it is. */
  lemma ExtendByNothing(acc: Accumulator, li: LedgerInfo)
    requires Valid(acc) && acc.numLeaves <= MAX_ACCUMULATOR_LEAVES && VerifyConsistency(acc, li)
    ensures TryExtendWithProof(acc, [], li) == Ok(acc)
  {
    assert acc.frozenSubtreeRoots + [] == acc.frozenSubtreeRoots;
    if acc.numLeaves > 0 {
      var (m, k) := Split(acc.numLeaves, 0);
      assert Scale(m, k) == acc.numLeaves && Scale(1, k) >= 1;
    } else {
      assert acc.frozenSubtreeRoots == [];
    }
  }

  lemma {:induction false} AppendLoopRefusals(roots: seq<HashValue>, m: nat, k: nat, remaining: nat, subtrees: seq<HashValue>)
    requires |roots| == PopCount(m) && Scale(m, k) + remaining <= U64_MAX
    requires AppendLoop(roots, m, k, remaining, subtrees).Err?
    ensures AppendLoop(roots, m, k, remaining, subtrees).error in {TooFewSubtrees, SubtreeCountMismatch}
    decreases remaining
  {
    if remaining >= Scale(1, k) && subtrees != [] {
      var (roots', m', k') := Carry(roots, m, k, subtrees[0]);
      CarryCounts(roots, m, k, subtrees[0]);
      AppendLoopRefusals(roots', m', k', remaining - Scale(1, k), subtrees[1..]);
    }
  }

  /** What an extension is refused for, whatever the subtrees, and what it reaches otherwise. */
  lemma ExtensionOutcome(acc: Accumulator, subtrees: seq<HashValue>, target: LedgerInfo)
    requires Valid(acc)
    ensures var r := TryExtendWithProof(acc, subtrees, target);
            && (r == Err(TargetTooOld) <==> target.commitInfo.version < acc.Version())
            && (r == Err(TooManyLeaves) <==>
                  && target.commitInfo.version >= acc.Version()
                  && acc.numLeaves + (target.commitInfo.version - acc.Version()) > MAX_ACCUMULATOR_LEAVES)
            && r != Err(Malformed)
            && (r.Ok? ==> Valid(r.value) && VerifyConsistency(r.value, target))
  {
    if target.commitInfo.version >= acc.Version() {
      var n: U64 := target.commitInfo.version - acc.Version();
      if AppendSubtrees(acc, subtrees, n).Ok? {
        AppendIsValid(acc, subtrees, n);
      } else if 0 < acc.numLeaves && acc.numLeaves + n <= MAX_ACCUMULATOR_LEAVES {
        var (m, k) := Split(acc.numLeaves, 0);
        AppendLoopRefusals(acc.frozenSubtreeRoots, m, k, n, subtrees);
      }
    }
  }
}
