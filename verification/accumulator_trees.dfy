/**
  What an accumulator summarises: full Merkle trees over a row of leaves, at
  most one of each size.  Against this reference, appending leaves is sound,
  every extension has its subtrees, and no subtrees extend an accumulator to
  one over leaves that do not continue its own.
 */
module AccumulatorTrees {
  import opened Types
  import opened Accumulators

  // ----- the reference: trees over leaves ------------------------------------

  datatype Tree = Leaf(hash: HashValue) | Node(left: Tree, right: Tree)

  function RootOf(t: Tree): HashValue {
    match t
    case Leaf(hash) => hash
    case Node(l, r) => NodeHash(RootOf(l), RootOf(r))
  }

  function Leaves(t: Tree): seq<HashValue> {
    match t
    case Leaf(hash) => [hash]
    case Node(l, r) => Leaves(l) + Leaves(r)
  }

  /** A full tree of 2^k leaves. */
  predicate IsPerfect(t: Tree, k: nat) {
    match t
    case Leaf(_) => k == 0
    case Node(l, r) => k > 0 && IsPerfect(l, k - 1) && IsPerfect(r, k - 1)
  }

  lemma {:induction false} PerfectSize(t: Tree, k: nat)
    requires IsPerfect(t, k)
    ensures |Leaves(t)| == Scale(1, k)
  {
    if t.Node? {
      PerfectSize(t.left, k - 1);
      PerfectSize(t.right, k - 1);
    }
  }

  /** At most one full tree of each size, the smallest first. */
  datatype Forest = Nil | Cell(tree: Option<Tree>, higher: Forest)

  /** The number of leaves, in units of the smallest size. */
  function Value(f: Forest): nat {
    match f
    case Nil => 0
    case Cell(t, h) => (if t.Some? then 1 else 0) + 2 * Value(h)
  }

  function Roots(f: Forest): seq<HashValue> {
    match f
    case Nil => []
    case Cell(t, h) => Roots(h) + if t.Some? then [RootOf(t.value)] else []
  }

  function Flat(f: Forest): seq<HashValue> {
    match f
    case Nil => []
    case Cell(t, h) => Flat(h) + if t.Some? then Leaves(t.value) else []
  }

  /** The trees have 2^k, 2^(k+1), ... leaves. */
  predicate Sized(f: Forest, k: nat) {
    match f
    case Nil => true
    case Cell(t, h) => (t.Some? ==> IsPerfect(t.value, k)) && Sized(h, k + 1)
  }

  lemma {:induction false} RootsCount(f: Forest)
    ensures |Roots(f)| == PopCount(Value(f))
  {
    if f.Cell? {
      RootsCount(f.higher);
      assert Value(f) / 2 == Value(f.higher);
    }
  }

  lemma {:induction false} FlatSize(f: Forest, k: nat)
    requires Sized(f, k)
    ensures |Flat(f)| == Scale(Value(f), k)
  {
    if f.Cell? {
      FlatSize(f.higher, k + 1);
      ScaleDouble(Value(f.higher), k);
      if f.tree.Some? {
        PerfectSize(f.tree.value, k);
        ScaleAdd(1, 2 * Value(f.higher), k);
      }
    }
  }

  /** The accumulator summarises exactly these leaves. */
  ghost predicate RepresentsBy(acc: Accumulator, leaves: seq<HashValue>, f: Forest) {
    && Valid(acc)
    && Sized(f, 0)
    && Flat(f) == leaves
    && Value(f) == acc.numLeaves
    && Roots(f) == acc.frozenSubtreeRoots
  }

  ghost predicate Represents(acc: Accumulator, leaves: seq<HashValue>) {
    exists f :: RepresentsBy(acc, leaves, f)
  }

  // ----- what one turn of the loop does --------------------------------------

  /** One tree more: it merges with those of its size, and the smallest size moves up. */
  function Grow(f: Forest, t: Tree, k: nat): (Forest, nat) {
    match f
    case Nil => (Cell(Some(t), Nil), k)
    case Cell(None, h) => (Cell(Some(t), h), k)
    case Cell(Some(u), h) => Grow(h, Node(u, t), k + 1)
  }

  lemma {:induction false} GrowAppends(f: Forest, t: Tree, k: nat)
    requires Sized(f, k) && IsPerfect(t, k)
    ensures var (g, j) := Grow(f, t, k); Sized(g, j) && Flat(g) == Flat(f) + Leaves(t)
  {
    match f {
      case Nil =>
      case Cell(None, h) =>
      case Cell(Some(u), h) =>
        GrowAppends(h, Node(u, t), k + 1);
        assert Flat(h) + (Leaves(u) + Leaves(t)) == Flat(h) + Leaves(u) + Leaves(t);
    }
  }

  /** The code's carry is growth of the forest. */
  lemma {:induction false} CarryIsGrow(f: Forest, t: Tree, k: nat)
    requires |Roots(f)| == PopCount(Value(f))
    ensures var (g, j) := Grow(f, t, k); Carry(Roots(f), Value(f), k, RootOf(t)) == (Roots(g), Value(g), j)
  {
    match f {
      case Nil =>
        assert [] + [RootOf(t)] == [RootOf(t)];
      case Cell(None, h) =>
        assert Value(f) == 2 * Value(h) && Roots(f) == Roots(h);
      case Cell(Some(u), h) =>
        RootsCount(h);
        assert Value(f) % 2 == 1 && Value(f) / 2 == Value(h);
        assert Roots(f)[..|Roots(h)|] == Roots(h);
        CarryIsGrow(h, Node(u, t), k + 1);
    }
  }

  /** Empty small sizes can be left out. */
  function Trim(f: Forest, k: nat): (Forest, nat)
    requires Value(f) > 0
  {
    if f.tree.Some? then (f, k) else Trim(f.higher, k + 1)
  }

  lemma {:induction false} TrimIsSplit(f: Forest, k: nat)
    requires Value(f) > 0 && Sized(f, k)
    ensures var (g, j) := Trim(f, k);
            Sized(g, j) && Roots(g) == Roots(f) && Flat(g) == Flat(f) && (Value(g), j) == Split(Value(f), k)
  {
    if f.tree.None? {
      assert Value(f) == 2 * Value(f.higher);
      TrimIsSplit(f.higher, k + 1);
    }
  }

  /** The k smallest sizes from one forest, the others from another. */
  function Graft(f: Forest, small: Forest, k: nat): Forest {
    if k == 0 then f
    else if small.Nil? then Cell(None, Graft(f, Nil, k - 1))
    else Cell(small.tree, Graft(f, small.higher, k - 1))
  }

  lemma {:induction false} GraftValue(f: Forest, small: Forest, k: nat, j: nat)
    requires Sized(f, k + j) && Sized(small, j) && Value(small) < Scale(1, k)
    ensures Sized(Graft(f, small, k), j)
    ensures Value(Graft(f, small, k)) == Scale(Value(f), k) + Value(small)
    decreases k
  {
    if k > 0 {
      GraftValue(f, if small.Nil? then Nil else small.higher, k - 1, j + 1);
    }
  }

  lemma {:induction false} GraftRoots(f: Forest, small: Forest, k: nat)
    requires Value(small) < Scale(1, k)
    ensures Roots(Graft(f, small, k)) == Roots(f) + Roots(small)
    decreases k
  {
    if k == 0 {
      EmptyForest(small);
    } else if small.Nil? {
      GraftRoots(f, Nil, k - 1);
    } else {
      GraftRoots(f, small.higher, k - 1);
    }
  }

  lemma {:induction false} GraftFlat(f: Forest, small: Forest, k: nat)
    requires Value(small) < Scale(1, k)
    ensures Flat(Graft(f, small, k)) == Flat(f) + Flat(small)
    decreases k
  {
    if k == 0 {
      EmptyForest(small);
    } else if small.Nil? {
      GraftFlat(f, Nil, k - 1);
    } else {
      GraftFlat(f, small.higher, k - 1);
    }
  }

  lemma {:induction false} EmptyForest(f: Forest)
    requires Value(f) == 0
    ensures Roots(f) == [] && Flat(f) == []
  {
    if f.Cell? {
      EmptyForest(f.higher);
    }
  }

  // ----- completeness ----------------------------------------------------

  /** Added leaves as the loop takes them: full trees of the size in turn, then a forest of smaller ones. */
  datatype Added = Rest(forest: Forest) | Whole(tree: Tree, more: Added)

  function Subtrees(added: Added): seq<HashValue> {
    match added
    case Rest(g) => Roots(g)
    case Whole(t, more) => [RootOf(t)] + Subtrees(more)
  }

  function AddedLeaves(added: Added): seq<HashValue> {
    match added
    case Rest(g) => Flat(g)
    case Whole(t, more) => Leaves(t) + AddedLeaves(more)
  }

  predicate FitsOnto(added: Added, f: Forest, k: nat) {
    match added
    case Rest(g) => Sized(g, 0) && Value(g) < Scale(1, k)
    case Whole(t, more) => IsPerfect(t, k) && FitsOnto(more, Grow(f, t, k).0, Grow(f, t, k).1)
  }

  lemma NewRepresents(f: Forest)
    requires Sized(f, 0) && Value(f) <= U64_MAX
    ensures New(Roots(f), Value(f)).Ok? && Represents(New(Roots(f), Value(f)).value, Flat(f))
  {
    RootsCount(f);
    assert RepresentsBy(New(Roots(f), Value(f)).value, Flat(f), f);
  }

  lemma RestCompletes(f: Forest, k: nat, g: Forest) returns (acc: Accumulator)
    requires Sized(f, k) && Sized(g, 0) && Value(g) < Scale(1, k)
    requires |Roots(f)| == PopCount(Value(f)) && Scale(Value(f), k) + |Flat(g)| <= U64_MAX
    ensures AppendLoop(Roots(f), Value(f), k, |Flat(g)|, Roots(g)) == Ok(acc)
    ensures Represents(acc, Flat(f) + Flat(g))
  {
    FlatSize(g, 0);
    assert |Flat(g)| == Value(g);
    GraftValue(f, g, k, 0);
    GraftRoots(f, g, k);
    GraftFlat(f, g, k);
    NewRepresents(Graft(f, g, k));
    LoopEnds(Roots(f), Value(f), k, Value(g), Roots(g));
    acc := New(Roots(f) + Roots(g), Scale(Value(f), k) + Value(g)).value;
  }

  lemma LoopEnds(roots: seq<HashValue>, m: nat, k: nat, remaining: nat, subtrees: seq<HashValue>)
    requires |roots| == PopCount(m) && Scale(m, k) + remaining <= U64_MAX && remaining < Scale(1, k)
    ensures AppendLoop(roots, m, k, remaining, subtrees) == New(roots + subtrees, Scale(m, k) + remaining)
  {
  }

  lemma LoopTurns(f: Forest, k: nat, t: Tree, g: Forest, j: nat, n: nat, subtrees: seq<HashValue>)
    requires |Roots(f)| == PopCount(Value(f)) && Scale(1, k) <= n && Scale(Value(f), k) + n <= U64_MAX
    requires (g, j) == Grow(f, t, k) && subtrees != [] && subtrees[0] == RootOf(t)
    ensures |Roots(g)| == PopCount(Value(g)) && Scale(Value(g), j) + (n - Scale(1, k)) <= U64_MAX
    ensures AppendLoop(Roots(f), Value(f), k, n, subtrees) == AppendLoop(Roots(g), Value(g), j, n - Scale(1, k), subtrees[1..])
  {
    GrowCounts(f, t, k);
    CarryIsGrow(f, t, k);
  }

  lemma GrowCounts(f: Forest, t: Tree, k: nat)
    requires |Roots(f)| == PopCount(Value(f))
    ensures var (g, j) := Grow(f, t, k);
            |Roots(g)| == PopCount(Value(g)) && Scale(Value(g), j) == Scale(Value(f), k) + Scale(1, k)
  {
    CarryIsGrow(f, t, k);
    CarryCounts(Roots(f), Value(f), k, RootOf(t));
  }

  lemma WholeFlat(f: Forest, k: nat, t: Tree, more: Added)
    requires Sized(f, k) && IsPerfect(t, k)
    ensures Sized(Grow(f, t, k).0, Grow(f, t, k).1)
    ensures Flat(Grow(f, t, k).0) + AddedLeaves(more) == Flat(f) + AddedLeaves(Whole(t, more))
  {
    GrowAppends(f, t, k);
    assert Flat(f) + Leaves(t) + AddedLeaves(more) == Flat(f) + (Leaves(t) + AddedLeaves(more));
  }

  lemma WholeGrows(f: Forest, k: nat, t: Tree, more: Added) returns (g: Forest, j: nat)
    requires Sized(f, k) && FitsOnto(Whole(t, more), f, k) && |Roots(f)| == PopCount(Value(f))
    ensures (g, j) == Grow(f, t, k)
    ensures Sized(g, j) && FitsOnto(more, g, j) && |Roots(g)| == PopCount(Value(g))
    ensures Scale(Value(g), j) + |AddedLeaves(more)| == Scale(Value(f), k) + |AddedLeaves(Whole(t, more))|
    ensures Flat(g) + AddedLeaves(more) == Flat(f) + AddedLeaves(Whole(t, more))
  {
    g, j := Grow(f, t, k).0, Grow(f, t, k).1;
    WholeHead(t, more, k);
    WholeFlat(f, k, t, more);
    GrowCounts(f, t, k);
  }

  lemma WholeHead(t: Tree, more: Added, k: nat)
    requires IsPerfect(t, k)
    ensures |AddedLeaves(Whole(t, more))| == Scale(1, k) + |AddedLeaves(more)|
    ensures Subtrees(Whole(t, more)) != [] && Subtrees(Whole(t, more))[0] == RootOf(t) && Subtrees(Whole(t, more))[1..] == Subtrees(more)
  {
    PerfectSize(t, k);
  }

  lemma {:induction false} AppendLoopComplete(f: Forest, k: nat, added: Added) returns (acc: Accumulator)
    requires Sized(f, k) && FitsOnto(added, f, k)
    requires |Roots(f)| == PopCount(Value(f)) && Scale(Value(f), k) + |AddedLeaves(added)| <= U64_MAX
    ensures AppendLoop(Roots(f), Value(f), k, |AddedLeaves(added)|, Subtrees(added)) == Ok(acc)
    ensures Represents(acc, Flat(f) + AddedLeaves(added))
    decreases added
  {
    match added {
      case Rest(g) => acc := RestCompletes(f, k, g);
      case Whole(t, more) =>
        var g, j := WholeGrows(f, k, t, more);
        WholeHead(t, more, k);
        LoopTurns(f, k, t, g, j, |AddedLeaves(added)|, Subtrees(added));
        acc := AppendLoopComplete(g, j, more);
    }
  }

  function TreeOf(leaves: seq<HashValue>, k: nat): (t: Tree)
    requires |leaves| == Scale(1, k)
    ensures IsPerfect(t, k) && Leaves(t) == leaves
  {
    if k == 0 then Leaf(leaves[0])
    else
      var half := Scale(1, k - 1);
      assert leaves[..half] + leaves[half..] == leaves;
      Node(TreeOf(leaves[..half], k - 1), TreeOf(leaves[half..], k - 1))
  }

  /** Any row of leaves is a forest. */
  lemma {:induction false} ForestExists(leaves: seq<HashValue>) returns (f: Forest)
    ensures Sized(f, 0) && Flat(f) == leaves
  {
    if leaves == [] {
      f := Nil;
    } else {
      var n := |leaves| - 1;
      var g := ForestExists(leaves[..n]);
      f := Plant(g, Leaf(leaves[n]), 0);
      PlantAppends(g, Leaf(leaves[n]), 0);
      assert leaves == leaves[..n] + [leaves[n]];
    }
  }

  function Plant(f: Forest, t: Tree, k: nat): Forest {
    match f
    case Nil => Cell(Some(t), Nil)
    case Cell(None, h) => Cell(Some(t), h)
    case Cell(Some(u), h) => Cell(None, Plant(h, Node(u, t), k + 1))
  }

  lemma {:induction false} PlantAppends(f: Forest, t: Tree, k: nat)
    requires Sized(f, k) && IsPerfect(t, k)
    ensures Sized(Plant(f, t, k), k) && Flat(Plant(f, t, k)) == Flat(f) + Leaves(t)
  {
    match f {
      case Nil =>
      case Cell(None, h) =>
      case Cell(Some(u), h) =>
        PlantAppends(h, Node(u, t), k + 1);
        assert Flat(h) + (Leaves(u) + Leaves(t)) == Flat(h) + Leaves(u) + Leaves(t);
    }
  }

  /** Any added leaves can be taken the way the loop wants them. */
  lemma {:induction false} Cover(f: Forest, k: nat, leaves: seq<HashValue>) returns (added: Added)
    ensures FitsOnto(added, f, k) && AddedLeaves(added) == leaves
    decreases |leaves|
  {
    var size := Scale(1, k);
    if |leaves| < size {
      var g := ForestExists(leaves);
      FlatSize(g, 0);
      added := Rest(g);
    } else {
      var t := TreeOf(leaves[..size], k);
      var (g, j) := Grow(f, t, k);
      var more := Cover(g, j, leaves[size..]);
      added := Whole(t, more);
      assert leaves == leaves[..size] + leaves[size..];
    }
  }

  /** For every accumulator and every leaves appended there are subtrees that extend the one to the other. */
  lemma AppendComplete(acc: Accumulator, leaves: seq<HashValue>, added: seq<HashValue>) returns (subtrees: seq<HashValue>)
    requires Represents(acc, leaves) && |leaves| + |added| <= MAX_ACCUMULATOR_LEAVES
    ensures AppendSubtrees(acc, subtrees, |added|).Ok?
    ensures Represents(AppendSubtrees(acc, subtrees, |added|).value, leaves + added)
  {
    var f :| RepresentsBy(acc, leaves, f);
    FlatSize(f, 0);
    if acc.numLeaves == 0 {
      var g := ForestExists(added);
      FlatSize(g, 0);
      RootsCount(g);
      subtrees := Roots(g);
      assert leaves + added == added;
      assert RepresentsBy(AppendSubtrees(acc, subtrees, |added|).value, added, g);
    } else {
      TrimIsSplit(f, 0);
      var (g, k) := Trim(f, 0);
      RootsCount(g);
      var a := Cover(g, k, added);
      FlatSize(g, k);
      var extended := AppendLoopComplete(g, k, a);
      subtrees := Subtrees(a);
    }
  }

  // ----- soundness -------------------------------------------------------

  lemma {:induction false} FoldRootInjective(xs: seq<HashValue>, ys: seq<HashValue>, bitmap: nat, x: HashValue, y: HashValue)
    requires NodeHashInjective() && |xs| == |ys| == PopCount(bitmap)
    requires FoldRoot(xs, bitmap, x) == FoldRoot(ys, bitmap, y)
    ensures xs == ys && x == y
    decreases bitmap
  {
    if bitmap > 0 {
      if bitmap % 2 == 1 {
        var n := |xs| - 1;
        FoldRootInjective(xs[..n], ys[..n], bitmap / 2, NodeHash(xs[n], x), NodeHash(ys[n], y));
        assert xs == xs[..n] + [xs[n]] && ys == ys[..n] + [ys[n]];
      } else {
        FoldRootInjective(xs, ys, bitmap / 2, NodeHash(x, ACCUMULATOR_PLACEHOLDER_HASH), NodeHash(y, ACCUMULATOR_PLACEHOLDER_HASH));
      }
    }
  }

  /** For a given number of leaves the root hash determines the accumulator. */
  lemma RootDeterminesAccumulator(a: Accumulator, b: Accumulator)
    requires NodeHashInjective() && Valid(a) && Valid(b)
    requires a.numLeaves == b.numLeaves && a.rootHash == b.rootHash
    ensures a == b
  {
    if |a.frozenSubtreeRoots| > 1 {
      FoldRootInjective(a.frozenSubtreeRoots, b.frozenSubtreeRoots, DropTrailingZeros(a.numLeaves),
                        ACCUMULATOR_PLACEHOLDER_HASH, ACCUMULATOR_PLACEHOLDER_HASH);
    }
  }

  lemma SplitLast(x: seq<HashValue>, a: HashValue, y: seq<HashValue>, b: HashValue)
    requires x + [a] == y + [b]
    ensures x == y && a == b
  {
    var s := x + [a];
    assert |s| == |y| + 1;
    assert s[|x|] == a && s[|x|] == b;
    assert s[..|x|] == x && s[..|x|] == y;
  }

  /** Undoing a carry: the roots before it were those of a forest, the hash that of a full tree. */
  ghost predicate Undone(roots: seq<HashValue>, m: nat, k: nat, hash: HashValue, g: Forest, f: Forest, t: Tree) {
    && Sized(f, k) && Roots(f) == roots && Value(f) == m
    && IsPerfect(t, k) && RootOf(t) == hash
    && Flat(g) == Flat(f) + Leaves(t)
  }

  lemma UndoEven(roots: seq<HashValue>, m: nat, k: nat, hash: HashValue, g: Forest) returns (f: Forest, t: Tree)
    requires m % 2 == 0 && Sized(g, k) && Roots(g) == roots + [hash] && Value(g) == m + 1
    ensures Undone(roots, m, k, hash, g, f, t)
  {
    t := g.tree.value;
    f := Cell(None, g.higher);
    SplitLast(roots, hash, Roots(g.higher), RootOf(t));
  }

  lemma UndoOdd(roots: seq<HashValue>, m: nat, k: nat, last: HashValue, hash: HashValue, g: Forest, f: Forest, t: Tree)
    requires NodeHashInjective() && m % 2 == 1
    requires Undone(roots, m / 2, k + 1, NodeHash(last, hash), g, f, t)
    ensures Undone(roots + [last], m, k, hash, g, Cell(Some(t.left), f), t.right)
  {
    assert NodeHash(RootOf(t.left), RootOf(t.right)) == NodeHash(last, hash);
    assert Flat(f) + (Leaves(t.left) + Leaves(t.right)) == Flat(f) + Leaves(t.left) + Leaves(t.right);
  }

  lemma CarryPops(roots: seq<HashValue>, m: nat, k: nat, hash: HashValue)
    requires |roots| == PopCount(m) && m % 2 == 1
    ensures |roots| > 0 && |roots| - 1 == PopCount(m / 2)
    ensures Carry(roots, m, k, hash) == Carry(roots[..|roots| - 1], m / 2, k + 1, NodeHash(roots[|roots| - 1], hash))
  {
  }

  lemma {:induction false} CarryInverse(roots: seq<HashValue>, m: nat, k: nat, hash: HashValue, g: Forest) returns (f: Forest, t: Tree)
    requires NodeHashInjective() && |roots| == PopCount(m)
    requires var (roots', m', j) := Carry(roots, m, k, hash); Sized(g, j) && Roots(g) == roots' && Value(g) == m'
    ensures Undone(roots, m, k, hash, g, f, t)
    decreases m
  {
    if m % 2 == 0 {
      f, t := UndoEven(roots, m, k, hash, g);
    } else {
      CarryPops(roots, m, k, hash);
      var n := |roots| - 1;
      var f', t' := CarryInverse(roots[..n], m / 2, k + 1, NodeHash(roots[n], hash), g);
      UndoOdd(roots[..n], m, k, roots[n], hash, g, f', t');
      assert roots == roots[..n] + [roots[n]];
      f, t := Cell(Some(t'.left), f'), t'.right;
    }
  }

  /** A forest cut into its sizes below 2^k and those from there on. */
  lemma {:induction false} CutForest(f: Forest, k: nat, j: nat) returns (high: Forest, low: Forest)
    requires Sized(f, j)
    ensures Sized(high, k + j) && Sized(low, j) && Value(low) < Scale(1, k)
    ensures Roots(f) == Roots(high) + Roots(low) && Flat(f) == Flat(high) + Flat(low)
    ensures Value(f) == Scale(Value(high), k) + Value(low)
    decreases k
  {
    if k == 0 {
      high, low := f, Nil;
    } else if f.Nil? {
      high, low := Nil, Nil;
    } else {
      var h, l := CutForest(f.higher, k - 1, j + 1);
      high, low := h, Cell(f.tree, l);
    }
  }

  lemma RestSound(roots: seq<HashValue>, m: nat, k: nat, remaining: nat, subtrees: seq<HashValue>, all: Forest) returns (f: Forest)
    requires |roots| == PopCount(m) && remaining < Scale(1, k)
    requires Sized(all, 0) && Roots(all) == roots + subtrees && Value(all) == Scale(m, k) + remaining
    ensures Sized(f, k) && Roots(f) == roots && Value(f) == m && Flat(f) <= Flat(all)
  {
    var low;
    f, low := CutForest(all, k, 0);
    ScaleUnique(m, remaining, Value(f), Value(low), k);
    RootsCount(f);
    assert (roots + subtrees)[..|roots|] == roots;
    assert (Roots(f) + Roots(low))[..|roots|] == Roots(f);
  }

  lemma {:induction false} AppendLoopSound(roots: seq<HashValue>, m: nat, k: nat, remaining: nat, subtrees: seq<HashValue>, all: Forest)
    returns (f: Forest)
    requires NodeHashInjective() && |roots| == PopCount(m) && Scale(m, k) + remaining <= U64_MAX
    requires AppendLoop(roots, m, k, remaining, subtrees).Ok?
    requires var r := AppendLoop(roots, m, k, remaining, subtrees).value;
             Sized(all, 0) && Roots(all) == r.frozenSubtreeRoots && Value(all) == r.numLeaves
    ensures Sized(f, k) && Roots(f) == roots && Value(f) == m && Flat(f) <= Flat(all)
    decreases remaining
  {
    if remaining < Scale(1, k) {
      f := RestSound(roots, m, k, remaining, subtrees, all);
    } else {
      var (roots', m', k') := Carry(roots, m, k, subtrees[0]);
      CarryCounts(roots, m, k, subtrees[0]);
      var g := AppendLoopSound(roots', m', k', remaining - Scale(1, k), subtrees[1..], all);
      var t;
      f, t := CarryInverse(roots, m, k, subtrees[0], g);
    }
  }

  /** Putting the empty small sizes back. */
  lemma {:induction false} Untrim(n: nat, k: nat, g: Forest) returns (f: Forest)
    requires n > 0 && Value(g) == Split(n, k).0 && Sized(g, Split(n, k).1)
    ensures Sized(f, k) && Value(f) == n && Roots(f) == Roots(g) && Flat(f) == Flat(g)
    decreases n
  {
    if n % 2 == 1 {
      f := g;
    } else {
      var h := Untrim(n / 2, k + 1, g);
      f := Cell(None, h);
    }
  }

  /**
    Whatever subtrees were supplied: if the extended accumulator has the size
    and the root of one over the true leaves, it is that one, and the
    accumulator it was extended from summarises the first of these leaves.
   */
  lemma ExtensionSound(acc: Accumulator, subtrees: seq<HashValue>, n: U64, truth: Accumulator, leaves: seq<HashValue>)
    requires NodeHashInjective() && Valid(acc) && AppendSubtrees(acc, subtrees, n).Ok? && Represents(truth, leaves)
    requires truth.numLeaves == acc.numLeaves + n && truth.rootHash == AppendSubtrees(acc, subtrees, n).value.rootHash
    ensures AppendSubtrees(acc, subtrees, n).value == truth
    ensures acc.numLeaves <= |leaves| && Represents(acc, leaves[..acc.numLeaves])
  {
    AppendIsValid(acc, subtrees, n);
    RootDeterminesAccumulator(AppendSubtrees(acc, subtrees, n).value, truth);
    var all :| RepresentsBy(truth, leaves, all);
    FlatSize(all, 0);
    if acc.numLeaves == 0 {
      assert RepresentsBy(acc, leaves[..0], Nil);
    } else {
      var (m, k) := Split(acc.numLeaves, 0);
      var g := AppendLoopSound(acc.frozenSubtreeRoots, m, k, n, subtrees, all);
      var f := Untrim(acc.numLeaves, 0, g);
      FlatSize(f, 0);
      assert Flat(f) == leaves[..acc.numLeaves];
      assert RepresentsBy(acc, leaves[..acc.numLeaves], f);
    }
  }

  // ----- the leaves determine the accumulator, and the root the leaves ---------

  lemma {:induction false} PerfectUnique(s: Tree, t: Tree, k: nat)
    requires IsPerfect(s, k) && IsPerfect(t, k) && Leaves(s) == Leaves(t)
    ensures s == t
  {
    if k > 0 {
      PerfectSize(s.left, k - 1);
      PerfectSize(t.left, k - 1);
      var half := Scale(1, k - 1);
      assert Leaves(s)[..half] == Leaves(s.left) && Leaves(s)[half..] == Leaves(s.right);
      assert Leaves(t)[..half] == Leaves(t.left) && Leaves(t)[half..] == Leaves(t.right);
      PerfectUnique(s.left, t.left, k - 1);
      PerfectUnique(s.right, t.right, k - 1);
    }
  }

  lemma SplitTail(a: seq<HashValue>, x: seq<HashValue>, b: seq<HashValue>, y: seq<HashValue>)
    requires a + x == b + y && |x| == |y|
    ensures a == b && x == y
  {
    assert (a + x)[..|a|] == a && (b + y)[..|a|] == b;
    assert (a + x)[|a|..] == x && (b + y)[|a|..] == y;
  }

  lemma {:induction false} ForestUnique(f: Forest, g: Forest, k: nat)
    requires Sized(f, k) && Sized(g, k) && Flat(f) == Flat(g)
    ensures Value(f) == Value(g) && Roots(f) == Roots(g)
    decreases f
  {
    FlatSize(f, k);
    FlatSize(g, k);
    ScaleUnique(Value(f), 0, Value(g), 0, k);
    if f.Nil? || g.Nil? {
      EmptyForest(f);
      EmptyForest(g);
    } else if f.tree.Some? {
      PerfectSize(f.tree.value, k);
      PerfectSize(g.tree.value, k);
      SplitTail(Flat(f.higher), Leaves(f.tree.value), Flat(g.higher), Leaves(g.tree.value));
      PerfectUnique(f.tree.value, g.tree.value, k);
      ForestUnique(f.higher, g.higher, k + 1);
    } else {
      assert g.tree.None?;
      assert Flat(f) == Flat(f.higher) && Flat(g) == Flat(g.higher);
      ForestUnique(f.higher, g.higher, k + 1);
    }
  }

  /** There is one accumulator over given leaves. */
  lemma LeavesDetermineAccumulator(a: Accumulator, b: Accumulator, leaves: seq<HashValue>)
    requires Represents(a, leaves) && Represents(b, leaves)
    ensures a == b
  {
    var f :| RepresentsBy(a, leaves, f);
    var g :| RepresentsBy(b, leaves, g);
    ForestUnique(f, g, 0);
  }

  lemma {:induction false} RootBindsTree(s: Tree, t: Tree, k: nat)
    requires NodeHashInjective() && IsPerfect(s, k) && IsPerfect(t, k) && RootOf(s) == RootOf(t)
    ensures s == t
  {
    if k > 0 {
      assert NodeHash(RootOf(s.left), RootOf(s.right)) == NodeHash(RootOf(t.left), RootOf(t.right));
      RootBindsTree(s.left, t.left, k - 1);
      RootBindsTree(s.right, t.right, k - 1);
    }
  }

  lemma {:induction false} RootsBindLeaves(f: Forest, g: Forest, k: nat)
    requires NodeHashInjective() && Sized(f, k) && Sized(g, k) && Value(f) == Value(g) && Roots(f) == Roots(g)
    ensures Flat(f) == Flat(g)
    decreases f
  {
    if f.Nil? || g.Nil? {
      EmptyForest(f);
      EmptyForest(g);
    } else if f.tree.Some? {
      SplitLast(Roots(f.higher), RootOf(f.tree.value), Roots(g.higher), RootOf(g.tree.value));
      RootBindsTree(f.tree.value, g.tree.value, k);
      RootsBindLeaves(f.higher, g.higher, k + 1);
    } else {
      assert g.tree.None?;
      assert Roots(f) == Roots(f.higher) && Roots(g) == Roots(g.higher);
      RootsBindLeaves(f.higher, g.higher, k + 1);
    }
  }

  /** Number of leaves and root hash commit to every leaf. */
  lemma RootCommitsToLeaves(a: Accumulator, b: Accumulator, xs: seq<HashValue>, ys: seq<HashValue>)
    requires NodeHashInjective() && Represents(a, xs) && Represents(b, ys)
    requires a.numLeaves == b.numLeaves && a.rootHash == b.rootHash
    ensures xs == ys
  {
    RootDeterminesAccumulator(a, b);
    var f :| RepresentsBy(a, xs, f);
    var g :| RepresentsBy(b, ys, g);
    RootsBindLeaves(f, g, 0);
  }

  // ----- appending leaves ----------------------------------------------------

  lemma CarryOnce(roots: seq<HashValue>, m: nat, k: nat, hash: HashValue, lower: seq<HashValue>, top: HashValue)
    requires |roots| == PopCount(m) && m % 2 == 1 && roots == lower + [top]
    ensures |lower| == PopCount(m / 2) && Carry(roots, m, k, hash) == Carry(lower, m / 2, k + 1, NodeHash(top, hash))
  {
    assert roots[..|roots| - 1] == lower;
  }

  lemma {:induction false} CarryIsPlant(f: Forest, t: Tree, k: nat)
    requires |Roots(f)| == PopCount(Value(f))
    ensures Carry(Roots(f), Value(f), k, RootOf(t)).0 == Roots(Plant(f, t, k))
    ensures Value(Plant(f, t, k)) == Value(f) + 1
  {
    match f {
      case Nil =>
        assert [] + [RootOf(t)] == [RootOf(t)];
      case Cell(None, h) =>
        assert Value(f) == 2 * Value(h) && Roots(f) == Roots(h);
      case Cell(Some(u), h) =>
        RootsCount(h);
        assert Value(f) % 2 == 1 && Value(f) / 2 == Value(h);
        CarryOnce(Roots(f), Value(f), k, RootOf(t), Roots(h), RootOf(u));
        CarryIsPlant(h, Node(u, t), k + 1);
    }
  }

  lemma AppendRootsStep(f: Forest, xs: seq<HashValue>) returns (h: Forest)
    requires Sized(f, 0) && |Roots(f)| == PopCount(Value(f)) && xs != []
    ensures Sized(h, 0) && |Roots(h)| == PopCount(Value(h)) && Value(h) == Value(f) + 1
    ensures Flat(h) + xs[1..] == Flat(f) + xs
    ensures AppendRoots(Roots(h), Value(h), xs[1..]) == AppendRoots(Roots(f), Value(f), xs)
  {
    h := Plant(f, Leaf(xs[0]), 0);
    PlantAppends(f, Leaf(xs[0]), 0);
    assert Flat(f) + [xs[0]] + xs[1..] == Flat(f) + xs;
    CarryIsPlant(f, Leaf(xs[0]), 0);
    RootsCount(h);
  }

  lemma {:induction false} AppendRootsGrows(f: Forest, xs: seq<HashValue>, whole: seq<HashValue>, roots: seq<HashValue>) returns (g: Forest)
    requires Sized(f, 0) && |Roots(f)| == PopCount(Value(f))
    requires whole == Flat(f) + xs && roots == AppendRoots(Roots(f), Value(f), xs)
    ensures Sized(g, 0) && Flat(g) == whole && Value(g) == Value(f) + |xs| && Roots(g) == roots
    decreases |xs|
  {
    if xs == [] {
      g := f;
    } else {
      var h := AppendRootsStep(f, xs);
      g := AppendRootsGrows(h, xs[1..], whole, roots);
    }
  }

  /** Appending leaves summarises the longer row. */
  lemma AppendRepresents(acc: Accumulator, leaves: seq<HashValue>, xs: seq<HashValue>)
    requires Represents(acc, leaves) && acc.numLeaves + |xs| <= U64_MAX
    ensures Represents(Append(acc, xs), leaves + xs)
  {
    var f :| RepresentsBy(acc, leaves, f);
    var g := AppendRootsGrows(f, xs, leaves + xs, AppendRoots(Roots(f), Value(f), xs));
    assert RepresentsBy(Append(acc, xs), leaves + xs, g);
  }

  /** Subtrees chosen well do what appending the leaves themselves does. */
  lemma SubtreesStandForLeaves(acc: Accumulator, leaves: seq<HashValue>, xs: seq<HashValue>) returns (subtrees: seq<HashValue>)
    requires Represents(acc, leaves) && acc.numLeaves + |xs| <= MAX_ACCUMULATOR_LEAVES
    ensures AppendSubtrees(acc, subtrees, |xs|) == Ok(Append(acc, xs))
  {
    var f :| RepresentsBy(acc, leaves, f);
    FlatSize(f, 0);
    AppendRepresents(acc, leaves, xs);
    subtrees := AppendComplete(acc, leaves, xs);
    LeavesDetermineAccumulator(AppendSubtrees(acc, subtrees, |xs|).value, Append(acc, xs), leaves + xs);
  }

  // ----- the root hash is that of the padded tree ------------------------------

  /** The Merkle root over 2^k places, the leaves on the left; a subtree without leaves is the placeholder. */
  function Padded(leaves: seq<HashValue>, k: nat): HashValue
    requires |leaves| <= Scale(1, k)
    decreases k
  {
    if leaves == [] then ACCUMULATOR_PLACEHOLDER_HASH
    else if k == 0 then leaves[0]
    else
      var half := Scale(1, k - 1);
      if |leaves| <= half then NodeHash(Padded(leaves, k - 1), ACCUMULATOR_PLACEHOLDER_HASH)
      else NodeHash(Padded(leaves[..half], k - 1), Padded(leaves[half..], k - 1))
  }

  /** The lowest tree that has room for n leaves. */
  predicate IsHeight(k: nat, n: nat) {
    n <= Scale(1, k) && (k > 0 ==> Scale(1, k - 1) < n)
  }

  lemma {:induction false} HeightUnique(j: nat, k: nat, n: nat)
    requires IsHeight(j, n) && IsHeight(k, n)
    ensures j == k
  {
    if j < k {
      ScaleMonotone(j, k - 1);
    } else if k < j {
      ScaleMonotone(k, j - 1);
    }
  }

  lemma {:induction false} ScaleMonotone(j: nat, k: nat)
    requires j <= k
    ensures Scale(1, j) <= Scale(1, k)
  {
    if j < k {
      ScaleMonotone(j, k - 1);
    }
  }

  lemma {:induction false} PaddedPerfect(t: Tree, k: nat)
    requires IsPerfect(t, k)
    ensures |Leaves(t)| == Scale(1, k) && Padded(Leaves(t), k) == RootOf(t)
  {
    PerfectSize(t, k);
    if k > 0 {
      PaddedPerfect(t.left, k - 1);
      PaddedPerfect(t.right, k - 1);
      var half := Scale(1, k - 1);
      assert Leaves(t)[..half] == Leaves(t.left) && Leaves(t)[half..] == Leaves(t.right);
    }
  }

  lemma PaddedJoin(t: Tree, tail: seq<HashValue>, k: nat)
    requires IsPerfect(t, k) && |tail| <= Scale(1, k)
    ensures |Leaves(t) + tail| <= Scale(1, k + 1)
    ensures Padded(Leaves(t) + tail, k + 1) == NodeHash(RootOf(t), Padded(tail, k))
  {
    PaddedPerfect(t, k);
    var half := Scale(1, k);
    assert (Leaves(t) + tail)[..half] == Leaves(t) && (Leaves(t) + tail)[half..] == tail;
    assert tail == [] ==> Leaves(t) + tail == Leaves(t);
  }

  lemma FoldTakes(f: Forest, hash: HashValue)
    requires |Roots(f)| == PopCount(Value(f)) && Value(f) > 0
    ensures |Roots(f.higher)| == PopCount(Value(f.higher))
    ensures FoldRoot(Roots(f), Value(f), hash) ==
      FoldRoot(Roots(f.higher), Value(f.higher),
               if f.tree.Some? then NodeHash(RootOf(f.tree.value), hash) else NodeHash(hash, ACCUMULATOR_PLACEHOLDER_HASH))
  {
    RootsCount(f.higher);
    assert Value(f) / 2 == Value(f.higher);
    if f.tree.Some? {
      assert Roots(f)[..|Roots(f)| - 1] == Roots(f.higher);
    } else {
      assert Roots(f) == Roots(f.higher);
    }
  }

  lemma FlatTakes(f: Forest, tail: seq<HashValue>)
    requires f.Cell?
    ensures Flat(f) + tail == Flat(f.higher) + (if f.tree.Some? then Leaves(f.tree.value) + tail else tail)
  {
    if f.tree.Some? {
      assert (Flat(f.higher) + Leaves(f.tree.value)) + tail == Flat(f.higher) + (Leaves(f.tree.value) + tail);
    } else {
      assert Flat(f.higher) + [] == Flat(f.higher);
    }
  }

  lemma FoldStep(f: Forest, k: nat, tail: seq<HashValue>, hash: HashValue) returns (tail': seq<HashValue>, hash': HashValue)
    requires Sized(f, k) && |Roots(f)| == PopCount(Value(f)) && Value(f) > 0
    requires |tail| <= Scale(1, k) && hash == Padded(tail, k) && (tail != [] || f.tree.Some?)
    ensures tail' != [] && |tail'| == |tail| + (if f.tree.Some? then Scale(1, k) else 0)
    ensures |tail'| <= Scale(1, k + 1) && hash' == Padded(tail', k + 1)
    ensures Flat(f) + tail == Flat(f.higher) + tail'
    ensures |Roots(f.higher)| == PopCount(Value(f.higher))
    ensures FoldRoot(Roots(f), Value(f), hash) == FoldRoot(Roots(f.higher), Value(f.higher), hash')
  {
    FoldTakes(f, hash);
    FlatTakes(f, tail);
    if f.tree.Some? {
      PaddedJoin(f.tree.value, tail, k);
      PerfectSize(f.tree.value, k);
      tail', hash' := Leaves(f.tree.value) + tail, NodeHash(RootOf(f.tree.value), hash);
    } else {
      tail', hash' := tail, NodeHash(hash, ACCUMULATOR_PLACEHOLDER_HASH);
    }
  }

  lemma FoldEnds(f: Forest, tail: seq<HashValue>, hash: HashValue)
    requires Value(f) == 0
    ensures |Roots(f)| == PopCount(Value(f)) && FoldRoot(Roots(f), Value(f), hash) == hash && Flat(f) + tail == tail
  {
    EmptyForest(f);
  }

  /** The fold climbs the padded tree: its hash is that of the tree over the last leaves. */
  lemma {:induction false} FoldIsPadded(f: Forest, k: nat, tail: seq<HashValue>, hash: HashValue, whole: seq<HashValue>) returns (j: nat)
    requires Sized(f, k) && |Roots(f)| == PopCount(Value(f)) && whole == Flat(f) + tail
    requires |tail| <= Scale(1, k) && hash == Padded(tail, k) && (tail != [] || (Value(f) > 0 && f.tree.Some?))
    ensures |whole| <= Scale(1, j) && FoldRoot(Roots(f), Value(f), hash) == Padded(whole, j)
    ensures Value(f) == 0 ==> j == k
    ensures Value(f) > 0 ==> j > 0 && Scale(1, j - 1) + |tail| <= |whole|
    decreases f
  {
    if Value(f) == 0 {
      FoldEnds(f, tail, hash);
      j := k;
    } else {
      var tail', hash' := FoldStep(f, k, tail, hash);
      j := FoldIsPadded(f.higher, k + 1, tail', hash', whole);
      if Value(f.higher) == 0 {
        FoldEnds(f.higher, tail', hash');
      }
    }
  }

  lemma {:induction false} PopCountPositive(n: nat)
    requires n > 0
    ensures PopCount(n) > 0
  {
    if n % 2 == 0 {
      PopCountPositive(n / 2);
    }
  }

  lemma NonEmptyForest(f: Forest)
    ensures Value(f) > 0 <==> Roots(f) != []
  {
    RootsCount(f);
    if Value(f) > 0 {
      PopCountPositive(Value(f));
    }
  }

  lemma {:induction false} DropIsSplit(n: nat, k: nat)
    requires n > 0
    ensures DropTrailingZeros(n) == Split(n, k).0
  {
    if n % 2 == 0 {
      DropIsSplit(n / 2, k + 1);
    }
  }

  /** One subtree: its root is the whole tree's. */
  lemma SingleRoot(g: Forest, j: nat, k: nat)
    requires Sized(g, j) && g.Cell? && g.tree.Some? && |Roots(g)| == 1 && IsHeight(k, |Flat(g)|)
    ensures Roots(g)[0] == Padded(Flat(g), k)
  {
    NonEmptyForest(g.higher);
    EmptyForest(g.higher);
    assert Flat(g) == Leaves(g.tree.value);
    PaddedPerfect(g.tree.value, j);
    HeightUnique(j, k, |Flat(g)|);
  }

  /** Several subtrees: the fold. */
  lemma ManyRoots(g: Forest, j: nat, k: nat)
    requires Sized(g, j) && g.Cell? && g.tree.Some? && |Roots(g)| > 1 && IsHeight(k, |Flat(g)|)
    requires |Roots(g)| == PopCount(Value(g))
    ensures FoldRoot(Roots(g), Value(g), ACCUMULATOR_PLACEHOLDER_HASH) == Padded(Flat(g), k)
  {
    var tail, hash := FoldStep(g, j, [], ACCUMULATOR_PLACEHOLDER_HASH);
    assert Flat(g) + [] == Flat(g);
    NonEmptyForest(g.higher);
    var top := FoldIsPadded(g.higher, j + 1, tail, hash, Flat(g));
    HeightUnique(top, k, |Flat(g)|);
  }

  lemma {:induction false} TrimHead(f: Forest, k: nat)
    requires Value(f) > 0
    ensures Trim(f, k).0.Cell? && Trim(f, k).0.tree.Some?
  {
    if f.tree.None? {
      TrimHead(f.higher, k + 1);
    }
  }

  /** The root hash the code folds together is the root of the padded Merkle tree over the leaves. */
  lemma RootIsPadded(acc: Accumulator, leaves: seq<HashValue>, k: nat)
    requires Represents(acc, leaves) && IsHeight(k, |leaves|)
    ensures acc.rootHash == Padded(leaves, k)
  {
    var f :| RepresentsBy(acc, leaves, f);
    FlatSize(f, 0);
    if acc.numLeaves > 0 {
      TrimIsSplit(f, 0);
      DropIsSplit(acc.numLeaves, 0);
      TrimHead(f, 0);
      var (g, j) := Trim(f, 0);
      if |Roots(g)| == 1 {
        SingleRoot(g, j, k);
      } else {
        PopCountPositive(acc.numLeaves);
        ManyRoots(g, j, k);
      }
    }
  }
}
