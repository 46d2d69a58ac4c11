/**
  consensus/src/persistent_liveness_storage.rs: rebuilding the block tree after
  a crash.  The root is found, and one pass over the blocks in (epoch, round)
  order decides which of them descend from it.
 */
module Recovery {
  import opened Types
  import opened Certificates

  // ----- order -----------------------------------------------------------

  /** The sort key: epoch first, then round. */
  predicate Before(x: Block, y: Block) {
    x.data.epoch < y.data.epoch || (x.data.epoch == y.data.epoch && x.data.round < y.data.round)
  }

  predicate SortedByKey(blocks: seq<Block>) {
    forall i, j :: 0 <= i < j < |blocks| ==> !Before(blocks[j], blocks[i])
  }

  function InsertByKey(b: Block, blocks: seq<Block>): seq<Block> {
    if blocks == [] then [b]
    else if Before(blocks[0], b) then [blocks[0]] + InsertByKey(b, blocks[1..])
    else [b] + blocks
  }

  /** A stable sort, as `sort_by_key`. */
  function SortByKey(blocks: seq<Block>): seq<Block> {
    if blocks == [] then [] else InsertByKey(blocks[0], SortByKey(blocks[1..]))
  }

  lemma {:induction false} InsertPermutes(b: Block, blocks: seq<Block>)
    ensures multiset(InsertByKey(b, blocks)) == multiset([b]) + multiset(blocks)
  {
    if blocks != [] {
      assert blocks == [blocks[0]] + blocks[1..];
      InsertPermutes(b, blocks[1..]);
    }
  }

  lemma InsertedFrom(b: Block, blocks: seq<Block>, x: Block)
    requires x in InsertByKey(b, blocks)
    ensures x == b || x in blocks
  {
    InsertPermutes(b, blocks);
    assert x in multiset(InsertByKey(b, blocks));
  }

  lemma {:induction false} InsertSorts(b: Block, blocks: seq<Block>)
    requires SortedByKey(blocks)
    ensures SortedByKey(InsertByKey(b, blocks))
  {
    if blocks != [] && Before(blocks[0], b) {
      InsertSorts(b, blocks[1..]);
      var tail := InsertByKey(b, blocks[1..]);
      forall j | 0 <= j < |tail|
        ensures !Before(tail[j], blocks[0])
      {
        InsertedFrom(b, blocks[1..], tail[j]);
      }
    }
  }

  lemma {:induction false} SortSorts(blocks: seq<Block>)
    ensures SortedByKey(SortByKey(blocks)) && multiset(SortByKey(blocks)) == multiset(blocks)
  {
    if blocks != [] {
      assert blocks == [blocks[0]] + blocks[1..];
      SortSorts(blocks[1..]);
      InsertSorts(blocks[0], SortByKey(blocks[1..]));
      InsertPermutes(blocks[0], SortByKey(blocks[1..]));
    }
  }

  /** The blocks with the key of a given one, in their order. */
  function WithKey(blocks: seq<Block>, x: Block): seq<Block> {
    if blocks == [] then []
    else (if !Before(blocks[0], x) && !Before(x, blocks[0]) then [blocks[0]] else []) + WithKey(blocks[1..], x)
  }

  lemma {:induction false} InsertIsStable(b: Block, blocks: seq<Block>, x: Block)
    ensures WithKey(InsertByKey(b, blocks), x) == WithKey([b], x) + WithKey(blocks, x)
  {
    if blocks != [] && Before(blocks[0], b) {
      var rest := InsertByKey(b, blocks[1..]);
      InsertIsStable(b, blocks[1..], x);
      assert ([blocks[0]] + rest)[1..] == rest;
      assert WithKey([b], x) == [] || WithKey([blocks[0]], x) == [];
    } else {
      assert ([b] + blocks)[1..] == blocks;
    }
  }

  /** Blocks with the same key stay in the order in which they were stored. */
  lemma {:induction false} SortIsStable(blocks: seq<Block>, x: Block)
    ensures WithKey(SortByKey(blocks), x) == WithKey(blocks, x)
  {
    if blocks != [] {
      SortIsStable(blocks[1..], x);
      InsertIsStable(blocks[0], SortByKey(blocks[1..]), x);
    }
  }

  // ----- descent ---------------------------------------------------------

  /** A chain of blocks, each the parent of the next, that hangs on the root. */
  ghost predicate DescentPath(rootId: HashValue, blocks: seq<Block>, path: seq<Block>) {
    && path != []
    && (forall i :: 0 <= i < |path| ==> path[i] in blocks)
    && path[0].ParentId() == rootId
    && (forall i :: 0 < i < |path| ==> path[i].ParentId() == path[i - 1].id)
  }

  ghost predicate Descends(rootId: HashValue, blocks: seq<Block>, b: Block) {
    exists path :: DescentPath(rootId, blocks, path) && path[|path| - 1] == b
  }

  lemma DescendsStep(rootId: HashValue, blocks: seq<Block>, parent: Block, b: Block)
    requires Descends(rootId, blocks, parent) && b in blocks && b.ParentId() == parent.id
    ensures Descends(rootId, blocks, b)
  {
    var path :| DescentPath(rootId, blocks, path) && path[|path| - 1] == parent;
    var longer := path + [b];
    assert DescentPath(rootId, blocks, longer) && longer[|longer| - 1] == b;
  }

  /** A descendant hangs on the root or on another descendant. */
  lemma DescendsParent(rootId: HashValue, blocks: seq<Block>, b: Block) returns (parent: Option<Block>)
    requires Descends(rootId, blocks, b)
    ensures b in blocks
    ensures parent.None? ==> b.ParentId() == rootId
    ensures parent.Some? ==> Descends(rootId, blocks, parent.value) && parent.value in blocks && b.ParentId() == parent.value.id
  {
    var path :| DescentPath(rootId, blocks, path) && path[|path| - 1] == b;
    if |path| == 1 {
      parent := None;
    } else {
      var shorter := path[..|path| - 1];
      assert DescentPath(rootId, blocks, shorter) && shorter[|shorter| - 1] == path[|path| - 2];
      parent := Some(path[|path| - 2]);
    }
  }

  // ----- the pass --------------------------------------------------------

  datatype Pruned = Pruned(tree: set<HashValue>, kept: seq<Block>, removed: seq<HashValue>)

  /** The pass over a prefix of the blocks. */
  function Prune(rootId: HashValue, blocks: seq<Block>): Pruned {
    if blocks == [] then Pruned({rootId}, [], [])
    else
      var n := |blocks| - 1;
      var p := Prune(rootId, blocks[..n]);
      if blocks[n].ParentId() in p.tree
      then Pruned(p.tree + {blocks[n].id}, p.kept + [blocks[n]], p.removed)
      else p.(removed := p.removed + [blocks[n].id])
  }

  function RetainCertified(qcs: seq<QuorumCert>, tree: set<HashValue>): seq<QuorumCert> {
    if qcs == [] then []
    else
      var n := |qcs| - 1;
      RetainCertified(qcs[..n], tree) + if qcs[n].CertifiedBlock().id in tree then [qcs[n]] else []
  }

  method FindBlocksToPrune(rootId: HashValue, blocks: seq<Block>, qcs: seq<QuorumCert>)
    returns (kept: seq<Block>, keptQcs: seq<QuorumCert>, toRemove: seq<HashValue>)
    ensures var p := Prune(rootId, blocks);
            kept == p.kept && toRemove == p.removed && keptQcs == RetainCertified(qcs, p.tree)
  {
    var tree := {rootId};
    toRemove := [];
    kept := [];
    for i := 0 to |blocks|
      invariant Prune(rootId, blocks[..i]) == Pruned(tree, kept, toRemove)
    {
      assert blocks[..i + 1][..i] == blocks[..i];
      if blocks[i].ParentId() in tree {
        tree := tree + {blocks[i].id};
        kept := kept + [blocks[i]];
      } else {
        toRemove := toRemove + [blocks[i].id];
      }
    }
    assert blocks[..|blocks|] == blocks;
    keptQcs := [];
    for i := 0 to |qcs|
      invariant keptQcs == RetainCertified(qcs[..i], tree)
    {
      assert qcs[..i + 1][..i] == qcs[..i];
      if qcs[i].CertifiedBlock().id in tree {
        keptQcs := keptQcs + [qcs[i]];
      }
    }
    assert qcs[..|qcs|] == qcs;
  }

  // ----- one pass is reachability ------------------------------------------

  /** Parents come before their children. */
  ghost predicate ParentsFirst(blocks: seq<Block>) {
    forall i, j :: 0 <= i < |blocks| && 0 <= j < |blocks| && blocks[j].ParentId() == blocks[i].id ==> i < j
  }

  /** The tree holds the root and the ids of the blocks kept. */
  lemma {:induction false} TreeIsKept(rootId: HashValue, blocks: seq<Block>, id: HashValue)
    ensures id in Prune(rootId, blocks).tree <==> id == rootId || exists b :: b in Prune(rootId, blocks).kept && b.id == id
  {
    if blocks != [] {
      var n := |blocks| - 1;
      TreeIsKept(rootId, blocks[..n], id);
      var p, q := Prune(rootId, blocks[..n]), Prune(rootId, blocks);
      if blocks[n].ParentId() in p.tree {
        assert q.kept == p.kept + [blocks[n]];
        assert forall b :: b in q.kept <==> b in p.kept || b == blocks[n];
      }
    }
  }

  ghost predicate KeepsDescendants(rootId: HashValue, blocks: seq<Block>, n: nat)
    requires n <= |blocks|
  {
    forall b :: b in Prune(rootId, blocks[..n]).kept <==> b in blocks[..n] && Descends(rootId, blocks, b)
  }

  /** The pass tells a block's descent from its parent alone, because the parent was decided before. */
  lemma DecidedByParent(rootId: HashValue, blocks: seq<Block>, n: nat)
    requires n < |blocks| && ParentsFirst(blocks) && KeepsDescendants(rootId, blocks, n)
    ensures blocks[n].ParentId() in Prune(rootId, blocks[..n]).tree <==> Descends(rootId, blocks, blocks[n])
  {
    var p := Prune(rootId, blocks[..n]);
    TreeIsKept(rootId, blocks[..n], blocks[n].ParentId());
    if blocks[n].ParentId() in p.tree {
      if blocks[n].ParentId() == rootId {
        assert DescentPath(rootId, blocks, [blocks[n]]);
      } else {
        var b :| b in p.kept && b.id == blocks[n].ParentId();
        DescendsStep(rootId, blocks, b, blocks[n]);
      }
    }
    if Descends(rootId, blocks, blocks[n]) {
      var parent := DescendsParent(rootId, blocks, blocks[n]);
      if parent.Some? {
        var i :| 0 <= i < |blocks| && blocks[i] == parent.value;
        assert i < n;
        assert blocks[..n][i] == parent.value;
      }
    }
  }

  lemma {:induction false} PruneKeepsDescendants(rootId: HashValue, blocks: seq<Block>, n: nat)
    requires n <= |blocks| && ParentsFirst(blocks)
    ensures KeepsDescendants(rootId, blocks, n)
  {
    if n > 0 {
      PruneKeepsDescendants(rootId, blocks, n - 1);
      DecidedByParent(rootId, blocks, n - 1);
      assert blocks[..n][..n - 1] == blocks[..n - 1];
      assert blocks[..n] == blocks[..n - 1] + [blocks[n - 1]];
      var p, q := Prune(rootId, blocks[..n - 1]), Prune(rootId, blocks[..n]);
      forall b
        ensures b in q.kept <==> b in blocks[..n] && Descends(rootId, blocks, b)
      {
        assert b in blocks[..n] <==> b in blocks[..n - 1] || b == blocks[n - 1];
      }
    }
  }

  /** The single pass keeps exactly the blocks that descend from the root. */
  lemma PruneIsReachability(rootId: HashValue, blocks: seq<Block>, b: Block)
    requires ParentsFirst(blocks)
    ensures b in Prune(rootId, blocks).kept <==> b in blocks && Descends(rootId, blocks, b)
  {
    PruneKeepsDescendants(rootId, blocks, |blocks|);
    assert blocks[..|blocks|] == blocks;
  }

  /** Without the order a child that comes before its parent is lost, although it descends from the root. */
  lemma OrderIsNeeded(root: Block, parent: Block, child: Block)
    requires parent.ParentId() == root.id && child.ParentId() == parent.id && child.id != parent.id
    requires root.id != parent.id
    ensures Descends(root.id, [child, parent], child) && child !in Prune(root.id, [child, parent]).kept
    ensures child in Prune(root.id, [parent, child]).kept
  {
    assert DescentPath(root.id, [child, parent], [parent, child]);
    assert [child, parent][..1] == [child] && [child][..0] == [];
    assert [parent, child][..1] == [parent] && [parent][..0] == [];
    assert Prune(root.id, []) == Pruned({root.id}, [], []);
    assert Prune(root.id, [child]) == Pruned({root.id}, [], [child.id]);
    assert Prune(root.id, [parent]) == Pruned({root.id, parent.id}, [parent], []);
  }

  /** The two sequences together are the whole, each in the order of the whole. */
  predicate Interleaved(whole: seq<Block>, x: seq<Block>, y: seq<Block>) {
    if whole == [] then x == [] && y == []
    else
      var n := |whole| - 1;
      || (x != [] && x[|x| - 1] == whole[n] && Interleaved(whole[..n], x[..|x| - 1], y))
      || (y != [] && y[|y| - 1] == whole[n] && Interleaved(whole[..n], x, y[..|y| - 1]))
  }

  lemma {:induction false} InterleavedIsAll(whole: seq<Block>, x: seq<Block>, y: seq<Block>)
    requires Interleaved(whole, x, y)
    ensures multiset(x) + multiset(y) == multiset(whole)
  {
    if whole != [] {
      var n := |whole| - 1;
      assert whole == whole[..n] + [whole[n]];
      if x != [] && x[|x| - 1] == whole[n] && Interleaved(whole[..n], x[..|x| - 1], y) {
        InterleavedIsAll(whole[..n], x[..|x| - 1], y);
        assert x == x[..|x| - 1] + [whole[n]];
      } else {
        InterleavedIsAll(whole[..n], x, y[..|y| - 1]);
        assert y == y[..|y| - 1] + [whole[n]];
      }
    }
  }

  predicate IdsOf(ids: seq<HashValue>, blocks: seq<Block>) {
    |ids| == |blocks| && forall i :: 0 <= i < |blocks| ==> ids[i] == blocks[i].id
  }

  /** Kept and removed split the input, each in its order. */
  lemma {:induction false} PruneSplits(rootId: HashValue, blocks: seq<Block>) returns (rest: seq<Block>)
    ensures Interleaved(blocks, Prune(rootId, blocks).kept, rest) && IdsOf(Prune(rootId, blocks).removed, rest)
  {
    if blocks == [] {
      rest := [];
    } else {
      var n := |blocks| - 1;
      rest := PruneSplits(rootId, blocks[..n]);
      var p := Prune(rootId, blocks[..n]);
      if blocks[n].ParentId() in p.tree {
        assert (p.kept + [blocks[n]])[..|p.kept|] == p.kept;
      } else {
        assert (rest + [blocks[n]])[..|rest|] == rest;
        rest := rest + [blocks[n]];
      }
    }
  }

  lemma KeptAreInput(rootId: HashValue, blocks: seq<Block>, b: Block)
    requires b in Prune(rootId, blocks).kept
    ensures b in blocks
  {
    var rest := PruneSplits(rootId, blocks);
    InterleavedIsAll(blocks, Prune(rootId, blocks).kept, rest);
    assert b in multiset(Prune(rootId, blocks).kept);
    assert b in multiset(blocks);
  }

  lemma {:induction false} KeptStaySorted(rootId: HashValue, blocks: seq<Block>)
    requires SortedByKey(blocks)
    ensures SortedByKey(Prune(rootId, blocks).kept)
  {
    if blocks != [] {
      var n := |blocks| - 1;
      KeptStaySorted(rootId, blocks[..n]);
      var kept := Prune(rootId, blocks[..n]).kept;
      forall i | 0 <= i < |kept|
        ensures !Before(blocks[n], kept[i])
      {
        KeptAreInput(rootId, blocks[..n], kept[i]);
      }
    }
  }

  /** The block hangs on the root or on a block before it. */
  predicate Hangs(rootId: HashValue, blocks: seq<Block>, k: nat)
    requires k < |blocks|
  {
    blocks[k].ParentId() == rootId || exists i :: 0 <= i < k && blocks[k].ParentId() == blocks[i].id
  }

  lemma {:induction false} KeptIsParentFirst(rootId: HashValue, blocks: seq<Block>, k: nat)
    requires k < |Prune(rootId, blocks).kept|
    ensures Hangs(rootId, Prune(rootId, blocks).kept, k)
  {
    var n := |blocks| - 1;
    var p, kept := Prune(rootId, blocks[..n]), Prune(rootId, blocks).kept;
    if k < |p.kept| {
      KeptIsParentFirst(rootId, blocks[..n], k);
      if kept[k].ParentId() != rootId {
        var i :| 0 <= i < k && p.kept[k].ParentId() == p.kept[i].id;
        assert kept[k].ParentId() == kept[i].id;
      }
    } else {
      TreeIsKept(rootId, blocks[..n], blocks[n].ParentId());
      if blocks[n].ParentId() != rootId {
        var b :| b in p.kept && b.id == blocks[n].ParentId();
        var i :| 0 <= i < |p.kept| && p.kept[i] == b;
        assert kept[k].ParentId() == kept[i].id;
      }
    }
  }

  lemma HangsInPrefix(rootId: HashValue, blocks: seq<Block>, n: nat, k: nat)
    requires k < n <= |blocks| && Hangs(rootId, blocks, k)
    ensures Hangs(rootId, blocks[..n], k)
  {
    if blocks[k].ParentId() != rootId {
      var i :| 0 <= i < k && blocks[k].ParentId() == blocks[i].id;
      assert blocks[..n][k].ParentId() == blocks[..n][i].id;
    }
  }

  lemma NextIsKept(rootId: HashValue, blocks: seq<Block>, b: Block)
    requires b.ParentId() in Prune(rootId, blocks).tree
    ensures Prune(rootId, blocks + [b]).kept == Prune(rootId, blocks).kept + [b]
    ensures Prune(rootId, blocks + [b]).removed == Prune(rootId, blocks).removed
  {
    assert (blocks + [b])[..|blocks|] == blocks;
  }

  lemma HangsOnKept(rootId: HashValue, blocks: seq<Block>)
    requires blocks != [] && Hangs(rootId, blocks, |blocks| - 1) && Prune(rootId, blocks[..|blocks| - 1]).kept == blocks[..|blocks| - 1]
    ensures blocks[|blocks| - 1].ParentId() in Prune(rootId, blocks[..|blocks| - 1]).tree
  {
    var before, parent := blocks[..|blocks| - 1], blocks[|blocks| - 1].ParentId();
    TreeIsKept(rootId, before, parent);
    if parent != rootId {
      var i :| 0 <= i < |blocks| - 1 && parent == blocks[i].id;
      assert before[i] in before;
    }
  }

  lemma {:induction false} HangingIsKept(rootId: HashValue, blocks: seq<Block>)
    requires forall k :: 0 <= k < |blocks| ==> Hangs(rootId, blocks, k)
    ensures Prune(rootId, blocks).kept == blocks && Prune(rootId, blocks).removed == []
  {
    if blocks != [] {
      var n := |blocks| - 1;
      forall k | 0 <= k < n
        ensures Hangs(rootId, blocks[..n], k)
      {
        HangsInPrefix(rootId, blocks, n, k);
      }
      HangingIsKept(rootId, blocks[..n]);
      HangsOnKept(rootId, blocks);
      NextIsKept(rootId, blocks[..n], blocks[n]);
      assert blocks == blocks[..n] + [blocks[n]];
    }
  }

  /** A second run removes nothing. */
  lemma PruneIsIdempotent(rootId: HashValue, blocks: seq<Block>)
    ensures var kept := Prune(rootId, blocks).kept; Prune(rootId, kept).kept == kept && Prune(rootId, kept).removed == []
  {
    var kept := Prune(rootId, blocks).kept;
    forall k | 0 <= k < |kept|
      ensures Hangs(rootId, kept, k)
    {
      KeptIsParentFirst(rootId, blocks, k);
    }
    HangingIsKept(rootId, kept);
  }

  /** The certificates kept are those that certify the root or a kept block. */
  lemma {:induction false} RetainSpec(qcs: seq<QuorumCert>, tree: set<HashValue>, qc: QuorumCert)
    ensures qc in RetainCertified(qcs, tree) <==> qc in qcs && qc.CertifiedBlock().id in tree
  {
    if qcs != [] {
      var n := |qcs| - 1;
      RetainSpec(qcs[..n], tree, qc);
      assert qcs == qcs[..n] + [qcs[n]];
    }
  }

  // ----- the whole recovery ------------------------------------------------

  datatype RootInfo = RootInfo(block: Block, quorumCert: QuorumCert, orderedCert: QuorumCert, ledgerInfo: LedgerInfoWithSignatures)

  datatype RecoveryError = RootNotFound | NoQcForRoot | NoLedgerInfoForRoot

  datatype RecoveryData = RecoveryData(
    lastVote: Option<Vote>,
    root: RootInfo,
    blocks: seq<Block>,
    quorumCerts: seq<QuorumCert>,
    blocksToPrune: seq<HashValue>,
    highestTc: Option<TimeoutCertificate>,
    highest2chainTc: Option<TwoChainTimeoutCertificate>)

  /** The virtual genesis block of the epoch that an epoch-ending ledger info opens. */
  function GenesisBlock(li: LedgerInfo): Block
    requires li.commitInfo.epoch < U64_MAX
  {
    var c := li.commitInfo;
    var ancestor := BlockInfo(c.epoch, 0, ZERO_HASH, c.executedStateId, c.version, c.timestampUsecs, None);
    var qc := QuorumCert(VoteData(ancestor, ancestor), LedgerInfoWithSignatures(LedgerInfo(ancestor, ZERO_HASH), map[]));
    var data := BlockData(c.epoch + 1, 0, c.timestampUsecs, qc, Genesis);
    Block(BlockHash(data), data, None)
  }

  function GenesisCertificate(li: LedgerInfo, id: HashValue): QuorumCert
    requires li.commitInfo.epoch < U64_MAX
  {
    var c := li.commitInfo;
    var ancestor := BlockInfo(c.epoch + 1, 0, id, c.executedStateId, c.version, c.timestampUsecs, None);
    var voteData := VoteData(ancestor, ancestor);
    QuorumCert(voteData, LedgerInfoWithSignatures(LedgerInfo(ancestor, VoteDataHash(voteData)), map[]))
  }

  /** Index of the first block with the id, if any. */
  function Position(blocks: seq<Block>, id: HashValue): Option<nat> {
    if blocks == [] then None
    else if blocks[0].id == id then Some(0)
    else match Position(blocks[1..], id) case None => None case Some(i) => Some(i + 1)
  }

  lemma {:induction false} PositionSpec(blocks: seq<Block>, id: HashValue)
    ensures match Position(blocks, id)
            case None => forall i :: 0 <= i < |blocks| ==> blocks[i].id != id
            case Some(k) => k < |blocks| && blocks[k].id == id && forall i :: 0 <= i < k ==> blocks[i].id != id
  {
    if blocks != [] && blocks[0].id != id {
      PositionSpec(blocks[1..], id);
    }
  }

  function FindQc(qcs: seq<QuorumCert>, id: HashValue): Option<QuorumCert> {
    if qcs == [] then None else if qcs[0].CertifiedBlock().id == id then Some(qcs[0]) else FindQc(qcs[1..], id)
  }

  function FindCommit(qcs: seq<QuorumCert>, id: HashValue): Option<QuorumCert> {
    if qcs == [] then None else if qcs[0].CommitInfo().id == id then Some(qcs[0]) else FindCommit(qcs[1..], id)
  }

  /** The root is taken out of the sorted blocks, with the certificates that certify and commit it. */
  function TakeRoot(rootId: HashValue, rootLi: LedgerInfoWithSignatures, sorted: seq<Block>, qcs: seq<QuorumCert>)
    : Result<(RootInfo, seq<Block>, seq<QuorumCert>), RecoveryError>
  {
    PositionSpec(sorted, rootId);
    match Position(sorted, rootId)
    case None => Err(RootNotFound)
    case Some(k) =>
      if FindQc(qcs, rootId).None? then Err(NoQcForRoot)
      else if FindCommit(qcs, rootId).None? then Err(NoLedgerInfoForRoot)
      else Ok((RootInfo(sorted[k], FindQc(qcs, rootId).value, FindCommit(qcs, rootId).value, rootLi),
               sorted[..k] + sorted[k + 1..], qcs))
  }

  /** The root, the other blocks in order, and the certificates, the virtual genesis included. */
  function FindRoot(ledger: LedgerInfoWithSignatures, blocks: seq<Block>, qcs: seq<QuorumCert>)
    : Result<(RootInfo, seq<Block>, seq<QuorumCert>), RecoveryError>
    requires ledger.ledgerInfo.EndsEpoch() ==> ledger.ledgerInfo.commitInfo.epoch < U64_MAX
  {
    if ledger.ledgerInfo.EndsEpoch() then
      var genesis := GenesisBlock(ledger.ledgerInfo);
      var qc := GenesisCertificate(ledger.ledgerInfo, genesis.id);
      TakeRoot(genesis.id, qc.signedLedgerInfo, SortByKey(blocks + [genesis]), qcs + [qc])
    else TakeRoot(ledger.ledgerInfo.commitInfo.id, ledger, SortByKey(blocks), qcs)
  }

  /** `find_root` as it works: push the genesis, sort, search, remove. */
  method FindRootInPlace(ledger: LedgerInfoWithSignatures, stored: seq<Block>, storedQcs: seq<QuorumCert>)
    returns (r: Result<(RootInfo, seq<Block>, seq<QuorumCert>), RecoveryError>)
    requires ledger.ledgerInfo.EndsEpoch() ==> ledger.ledgerInfo.commitInfo.epoch < U64_MAX
    ensures r == FindRoot(ledger, stored, storedQcs)
  {
    var blocks, qcs := stored, storedQcs;
    var rootId, rootLi := ledger.ledgerInfo.commitInfo.id, ledger;
    if ledger.ledgerInfo.EndsEpoch() {
      var genesis := GenesisBlock(ledger.ledgerInfo);
      var qc := GenesisCertificate(ledger.ledgerInfo, genesis.id);
      blocks := blocks + [genesis];
      qcs := qcs + [qc];
      rootId, rootLi := genesis.id, qc.signedLedgerInfo;
    }
    blocks := SortByKey(blocks);
    var k := 0;
    while k < |blocks| && blocks[k].id != rootId
      invariant k <= |blocks|
      invariant Position(blocks, rootId) ==
                match Position(blocks[k..], rootId) case None => None case Some(i) => Some(i + k)
    {
      k := k + 1;
    }
    if k == |blocks| {
      return Err(RootNotFound);
    }
    var root := blocks[k];
    blocks := blocks[..k] + blocks[k + 1..];
    var certificate, ordered := FindQc(qcs, root.id), FindCommit(qcs, root.id);
    if certificate.None? {
      return Err(NoQcForRoot);
    }
    if ordered.None? {
      return Err(NoLedgerInfoForRoot);
    }
    return Ok((RootInfo(root, certificate.value, ordered.value, rootLi), blocks, qcs));
  }

  function Recover(lastVote: Option<Vote>, ledger: LedgerInfoWithSignatures, blocks: seq<Block>, qcs: seq<QuorumCert>,
                   highestTc: Option<TimeoutCertificate>, highest2chainTc: Option<TwoChainTimeoutCertificate>)
    : Result<RecoveryData, RecoveryError>
    requires ledger.ledgerInfo.EndsEpoch() ==> ledger.ledgerInfo.commitInfo.epoch < U64_MAX
  {
    var (root, others, qcs') :- FindRoot(ledger, blocks, qcs);
    var p := Prune(root.block.id, others);
    var epoch := root.block.data.epoch;
    Ok(RecoveryData(
         if lastVote.Some? && lastVote.value.Epoch() == epoch then lastVote else None,
         root, p.kept, RetainCertified(qcs', p.tree), p.removed,
         if highestTc.Some? && highestTc.value.timeout.epoch == epoch then highestTc else None,
         if highest2chainTc.Some? && highest2chainTc.value.timeout.epoch == epoch then highest2chainTc else None))
  }

  /** A parent is in an earlier epoch, or in an earlier round of the same epoch. */
  ghost predicate ParentsEarlier(blocks: seq<Block>) {
    forall x, y :: x in blocks && y in blocks && y.ParentId() == x.id ==> Before(x, y)
  }

  lemma SortedParentsFirst(blocks: seq<Block>)
    requires SortedByKey(blocks) && ParentsEarlier(blocks)
    ensures ParentsFirst(blocks)
  {
    forall i, j | 0 <= i < |blocks| && 0 <= j < |blocks| && blocks[j].ParentId() == blocks[i].id
      ensures i < j
    {
      assert Before(blocks[i], blocks[j]);
    }
  }

  /** The blocks that find_root works on: the stored ones and, at an epoch's end, the virtual genesis. */
  function WithGenesis(ledger: LedgerInfo, blocks: seq<Block>): seq<Block>
    requires ledger.EndsEpoch() ==> ledger.commitInfo.epoch < U64_MAX
  {
    if ledger.EndsEpoch() then blocks + [GenesisBlock(ledger)] else blocks
  }

  lemma RemoveAt(blocks: seq<Block>, k: nat)
    requires k < |blocks|
    ensures multiset(blocks[..k] + blocks[k + 1..]) == multiset(blocks) - multiset{blocks[k]}
    ensures SortedByKey(blocks) ==> SortedByKey(blocks[..k] + blocks[k + 1..])
  {
    assert blocks == blocks[..k] + [blocks[k]] + blocks[k + 1..];
  }

  lemma SameElements(x: seq<Block>, y: seq<Block>)
    requires multiset(x) == multiset(y)
    ensures forall b :: b in x <==> b in y
  {
    forall b
      ensures b in x <==> b in y
    {
      assert b in x <==> b in multiset(x);
      assert b in y <==> b in multiset(y);
    }
  }

  lemma TakeRootSpec(rootId: HashValue, rootLi: LedgerInfoWithSignatures, all: seq<Block>, qcs: seq<QuorumCert>)
    requires TakeRoot(rootId, rootLi, SortByKey(all), qcs).Ok?
    ensures var (root, others, _) := TakeRoot(rootId, rootLi, SortByKey(all), qcs).value;
            root.block in all && multiset(others) == multiset(all) - multiset{root.block} && SortedByKey(others)
  {
    SortSorts(all);
    SameElements(SortByKey(all), all);
    PositionSpec(SortByKey(all), rootId);
    RemoveAt(SortByKey(all), Position(SortByKey(all), rootId).value);
  }

  /** What find_root leaves besides the root: all other blocks, in order. */
  lemma FindRootSpec(ledger: LedgerInfoWithSignatures, blocks: seq<Block>, qcs: seq<QuorumCert>)
    requires ledger.ledgerInfo.EndsEpoch() ==> ledger.ledgerInfo.commitInfo.epoch < U64_MAX
    requires FindRoot(ledger, blocks, qcs).Ok?
    ensures var (root, others, _) := FindRoot(ledger, blocks, qcs).value;
            && root.block in WithGenesis(ledger.ledgerInfo, blocks)
            && multiset(others) == multiset(WithGenesis(ledger.ledgerInfo, blocks)) - multiset{root.block}
            && SortedByKey(others)
  {
    if ledger.ledgerInfo.EndsEpoch() {
      var genesis := GenesisBlock(ledger.ledgerInfo);
      var qc := GenesisCertificate(ledger.ledgerInfo, genesis.id);
      TakeRootSpec(genesis.id, qc.signedLedgerInfo, blocks + [genesis], qcs + [qc]);
    } else {
      TakeRootSpec(ledger.ledgerInfo.commitInfo.id, ledger, blocks, qcs);
    }
  }

  // ----- which root ------------------------------------------------------

  /** The block to start from: the one committed last or, at an epoch's end, the genesis of the next epoch. */
  function RootId(ledger: LedgerInfo): HashValue
    requires ledger.EndsEpoch() ==> ledger.commitInfo.epoch < U64_MAX
  {
    if ledger.EndsEpoch() then GenesisBlock(ledger).id else ledger.commitInfo.id
  }

  function WithGenesisCertificate(ledger: LedgerInfo, qcs: seq<QuorumCert>): seq<QuorumCert>
    requires ledger.EndsEpoch() ==> ledger.commitInfo.epoch < U64_MAX
  {
    if ledger.EndsEpoch() then qcs + [GenesisCertificate(ledger, GenesisBlock(ledger).id)] else qcs
  }

  predicate HasBlock(blocks: seq<Block>, id: HashValue) {
    exists b :: b in blocks && b.id == id
  }

  predicate HasCertificate(qcs: seq<QuorumCert>, id: HashValue) {
    exists qc :: qc in qcs && qc.CertifiedBlock().id == id
  }

  predicate HasCommit(qcs: seq<QuorumCert>, id: HashValue) {
    exists qc :: qc in qcs && qc.CommitInfo().id == id
  }

  ghost predicate FirstCertificate(qcs: seq<QuorumCert>, id: HashValue, qc: QuorumCert) {
    exists k :: 0 <= k < |qcs| && qcs[k] == qc && qc.CertifiedBlock().id == id && forall i :: 0 <= i < k ==> qcs[i].CertifiedBlock().id != id
  }

  lemma {:induction false} FindQcSpec(qcs: seq<QuorumCert>, id: HashValue)
    ensures FindQc(qcs, id).Some? <==> HasCertificate(qcs, id)
    ensures FindQc(qcs, id).Some? ==> FirstCertificate(qcs, id, FindQc(qcs, id).value)
  {
    if qcs != [] {
      var tail := qcs[1..];
      FindQcSpec(tail, id);
      assert qcs == [qcs[0]] + tail;
      if qcs[0].CertifiedBlock().id == id {
        assert FirstCertificate(qcs, id, qcs[0]);
      } else if FindQc(tail, id).Some? {
        var k :| 0 <= k < |tail| && tail[k] == FindQc(tail, id).value && forall i :: 0 <= i < k ==> tail[i].CertifiedBlock().id != id;
        assert qcs[k + 1] == tail[k] && forall i :: 0 < i <= k ==> qcs[i] == tail[i - 1];
      }
    }
  }

  ghost predicate FirstCommit(qcs: seq<QuorumCert>, id: HashValue, qc: QuorumCert) {
    exists k :: 0 <= k < |qcs| && qcs[k] == qc && qc.CommitInfo().id == id && forall i :: 0 <= i < k ==> qcs[i].CommitInfo().id != id
  }

  lemma {:induction false} FindCommitSpec(qcs: seq<QuorumCert>, id: HashValue)
    ensures FindCommit(qcs, id).Some? <==> HasCommit(qcs, id)
    ensures FindCommit(qcs, id).Some? ==> FirstCommit(qcs, id, FindCommit(qcs, id).value)
  {
    if qcs != [] {
      var tail := qcs[1..];
      FindCommitSpec(tail, id);
      assert qcs == [qcs[0]] + tail;
      if qcs[0].CommitInfo().id == id {
        assert FirstCommit(qcs, id, qcs[0]);
      } else if FindCommit(tail, id).Some? {
        var k :| 0 <= k < |tail| && tail[k] == FindCommit(tail, id).value && forall i :: 0 <= i < k ==> tail[i].CommitInfo().id != id;
        assert qcs[k + 1] == tail[k] && forall i :: 0 < i <= k ==> qcs[i] == tail[i - 1];
      }
    }
  }

  lemma SortedHasBlock(all: seq<Block>, id: HashValue)
    ensures Position(SortByKey(all), id).Some? <==> HasBlock(all, id)
  {
    SortSorts(all);
    SameElements(SortByKey(all), all);
    PositionSpec(SortByKey(all), id);
  }

  /** The root with its certificates, or the first of the three that is missing. */
  ghost predicate RightRoot(r: Result<(RootInfo, seq<Block>, seq<QuorumCert>), RecoveryError>, id: HashValue,
                            li: LedgerInfoWithSignatures, all: seq<Block>, qcs: seq<QuorumCert>) {
    match r
    case Err(RootNotFound) => !HasBlock(all, id)
    case Err(NoQcForRoot) => HasBlock(all, id) && !HasCertificate(qcs, id)
    case Err(NoLedgerInfoForRoot) => HasBlock(all, id) && HasCertificate(qcs, id) && !HasCommit(qcs, id)
    case Ok((root, _, kept)) =>
      && HasBlock(all, id) && HasCertificate(qcs, id) && HasCommit(qcs, id)
      && root.block in all && root.block.id == id
      && FirstCertificate(qcs, id, root.quorumCert) && FirstCommit(qcs, id, root.orderedCert)
      && root.ledgerInfo == li && kept == qcs
  }

  lemma TakeRootIsRight(rootId: HashValue, rootLi: LedgerInfoWithSignatures, all: seq<Block>, qcs: seq<QuorumCert>)
    ensures RightRoot(TakeRoot(rootId, rootLi, SortByKey(all), qcs), rootId, rootLi, all, qcs)
  {
    SortedHasBlock(all, rootId);
    FindQcSpec(qcs, rootId);
    FindCommitSpec(qcs, rootId);
    PositionSpec(SortByKey(all), rootId);
    if TakeRoot(rootId, rootLi, SortByKey(all), qcs).Ok? {
      TakeRootSpec(rootId, rootLi, all, qcs);
    }
  }

  /**
    `find_root` finds the block that the ledger info commits, or the next
    epoch's genesis, with the first certificate for it, the first that commits it and the
    ledger info given, or the genesis one; it fails if and only if one of the
    first three is missing, and says which.
   */
  lemma FindRootIsRight(ledger: LedgerInfoWithSignatures, blocks: seq<Block>, qcs: seq<QuorumCert>)
    requires ledger.ledgerInfo.EndsEpoch() ==> ledger.ledgerInfo.commitInfo.epoch < U64_MAX
    ensures var li := ledger.ledgerInfo;
            RightRoot(FindRoot(ledger, blocks, qcs), RootId(li),
                      if li.EndsEpoch() then GenesisCertificate(li, GenesisBlock(li).id).signedLedgerInfo else ledger,
                      WithGenesis(li, blocks), WithGenesisCertificate(li, qcs))
  {
    var li := ledger.ledgerInfo;
    if li.EndsEpoch() {
      var qc := GenesisCertificate(li, GenesisBlock(li).id);
      TakeRootIsRight(GenesisBlock(li).id, qc.signedLedgerInfo, blocks + [GenesisBlock(li)], qcs + [qc]);
    } else {
      TakeRootIsRight(li.commitInfo.id, ledger, blocks, qcs);
    }
  }

  /** The virtual genesis: round zero of the next epoch, on the ledger the last one ended with, and a certificate that verifies for any validators. */
  lemma GenesisIsCertified(li: LedgerInfo, v: ValidatorVerifier)
    requires li.EndsEpoch() && li.commitInfo.epoch < U64_MAX
    ensures var genesis := GenesisBlock(li);
            var qc := GenesisCertificate(li, genesis.id);
            var b := qc.CertifiedBlock();
            && genesis.id == BlockHash(genesis.data) && genesis.data.blockType.Genesis?
            && genesis.data.epoch == b.epoch == li.commitInfo.epoch + 1 && genesis.data.round == b.round == 0
            && genesis.data.timestampUsecs == b.timestampUsecs == li.commitInfo.timestampUsecs
            && b.id == genesis.id && b.version == li.commitInfo.version && b.executedStateId == li.commitInfo.executedStateId
            && b.nextEpochState.None?
            && qc.CommitInfo() == b && QuorumCertVerify(v, qc)
  {
  }

  /** So at an epoch's end recovery always has a root, whatever was stored. */
  lemma EpochEndHasRoot(ledger: LedgerInfoWithSignatures, blocks: seq<Block>, qcs: seq<QuorumCert>)
    requires ledger.ledgerInfo.EndsEpoch() && ledger.ledgerInfo.commitInfo.epoch < U64_MAX
    ensures FindRoot(ledger, blocks, qcs).Ok?
  {
    var li := ledger.ledgerInfo;
    var genesis := GenesisBlock(li);
    var qc := GenesisCertificate(li, genesis.id);
    FindRootIsRight(ledger, blocks, qcs);
    assert genesis in WithGenesis(li, blocks) && qc in WithGenesisCertificate(li, qcs);
    assert qc.CertifiedBlock().id == genesis.id && qc.CommitInfo().id == genesis.id;
  }

  /** Of the last vote and the timeout certificates those of the root's epoch survive, and only those. */
  lemma OtherEpochsForgotten(lastVote: Option<Vote>, ledger: LedgerInfoWithSignatures, blocks: seq<Block>, qcs: seq<QuorumCert>,
                             highestTc: Option<TimeoutCertificate>, highest2chainTc: Option<TwoChainTimeoutCertificate>)
    requires ledger.ledgerInfo.EndsEpoch() ==> ledger.ledgerInfo.commitInfo.epoch < U64_MAX
    requires Recover(lastVote, ledger, blocks, qcs, highestTc, highest2chainTc).Ok?
    ensures var r := Recover(lastVote, ledger, blocks, qcs, highestTc, highest2chainTc).value;
            var epoch := r.root.block.data.epoch;
            && r.root.block.id == RootId(ledger.ledgerInfo)
            && (forall x :: r.lastVote == Some(x) <==> lastVote == Some(x) && x.Epoch() == epoch)
            && (forall x :: r.highestTc == Some(x) <==> highestTc == Some(x) && x.timeout.epoch == epoch)
            && (forall x :: r.highest2chainTc == Some(x) <==> highest2chainTc == Some(x) && x.timeout.epoch == epoch)
  {
    FindRootIsRight(ledger, blocks, qcs);
  }

  /**
    Recovery from any stored blocks, in any order: the blocks recovered are
    exactly those that descend from the root, parents first.
   */
  lemma RecoveredIsReachable(lastVote: Option<Vote>, ledger: LedgerInfoWithSignatures, blocks: seq<Block>, qcs: seq<QuorumCert>,
                             highestTc: Option<TimeoutCertificate>, highest2chainTc: Option<TwoChainTimeoutCertificate>,
                             others: seq<Block>, b: Block)
    requires ledger.ledgerInfo.EndsEpoch() ==> ledger.ledgerInfo.commitInfo.epoch < U64_MAX
    requires ParentsEarlier(WithGenesis(ledger.ledgerInfo, blocks))
    requires Recover(lastVote, ledger, blocks, qcs, highestTc, highest2chainTc).Ok?
    requires var r := Recover(lastVote, ledger, blocks, qcs, highestTc, highest2chainTc).value;
             multiset(others) == multiset(WithGenesis(ledger.ledgerInfo, blocks)) - multiset{r.root.block}
    ensures var r := Recover(lastVote, ledger, blocks, qcs, highestTc, highest2chainTc).value;
            && (b in r.blocks <==> b in others && Descends(r.root.block.id, others, b))
            && ParentsFirst(r.blocks)
  {
    var all := WithGenesis(ledger.ledgerInfo, blocks);
    FindRootSpec(ledger, blocks, qcs);
    var (root, sorted, _) := FindRoot(ledger, blocks, qcs).value;
    SameElements(sorted, others);
    SubsetParentsEarlier(all, sorted, root.block);
    SortedParentsFirst(sorted);
    PruneIsReachability(root.block.id, sorted, b);
    DescentSameBlocks(root.block.id, sorted, others, b);
    KeptStaySorted(root.block.id, sorted);
    KeptParentsEarlier(root.block.id, sorted);
    SortedParentsFirst(Prune(root.block.id, sorted).kept);
  }

  lemma SubsetParentsEarlier(all: seq<Block>, some: seq<Block>, b: Block)
    requires ParentsEarlier(all) && multiset(some) == multiset(all) - multiset{b}
    ensures ParentsEarlier(some)
  {
    forall x | x in some
      ensures x in all
    {
      assert x in multiset(some);
      assert x in multiset(all);
    }
  }

  lemma KeptParentsEarlier(rootId: HashValue, blocks: seq<Block>)
    requires ParentsEarlier(blocks)
    ensures ParentsEarlier(Prune(rootId, blocks).kept)
  {
    forall x | x in Prune(rootId, blocks).kept
      ensures x in blocks
    {
      KeptAreInput(rootId, blocks, x);
    }
  }

  /** Descent depends on which blocks there are, not on their order. */
  lemma DescentSameBlocks(rootId: HashValue, x: seq<Block>, y: seq<Block>, b: Block)
    requires forall c :: c in x <==> c in y
    ensures Descends(rootId, x, b) <==> Descends(rootId, y, b)
  {
    if Descends(rootId, x, b) {
      var path :| DescentPath(rootId, x, path) && path[|path| - 1] == b;
      assert DescentPath(rootId, y, path);
    }
    if Descends(rootId, y, b) {
      var path :| DescentPath(rootId, y, path) && path[|path| - 1] == b;
      assert DescentPath(rootId, x, path);
    }
  }

  /** A certificate survives exactly when it certifies the root or a recovered block. */
  lemma RecoveredCertificates(lastVote: Option<Vote>, ledger: LedgerInfoWithSignatures, blocks: seq<Block>, qcs: seq<QuorumCert>,
                              highestTc: Option<TimeoutCertificate>, highest2chainTc: Option<TwoChainTimeoutCertificate>,
                              qc: QuorumCert)
    requires ledger.ledgerInfo.EndsEpoch() ==> ledger.ledgerInfo.commitInfo.epoch < U64_MAX
    requires Recover(lastVote, ledger, blocks, qcs, highestTc, highest2chainTc).Ok?
    ensures var r := Recover(lastVote, ledger, blocks, qcs, highestTc, highest2chainTc).value;
            var certified := qc.CertifiedBlock().id;
            qc in r.quorumCerts <==>
              && qc in FindRoot(ledger, blocks, qcs).value.2
              && (certified == r.root.block.id || exists b :: b in r.blocks && b.id == certified)
  {
    var (root, others, qcs') := FindRoot(ledger, blocks, qcs).value;
    RetainSpec(qcs', Prune(root.block.id, others).tree, qc);
    TreeIsKept(root.block.id, others, qc.CertifiedBlock().id);
  }

  /** Every stored block is the root, is recovered, or has its id reported for removal. */
  lemma NothingIsLost(lastVote: Option<Vote>, ledger: LedgerInfoWithSignatures, blocks: seq<Block>, qcs: seq<QuorumCert>,
                      highestTc: Option<TimeoutCertificate>, highest2chainTc: Option<TwoChainTimeoutCertificate>)
    returns (rest: seq<Block>)
    requires ledger.ledgerInfo.EndsEpoch() ==> ledger.ledgerInfo.commitInfo.epoch < U64_MAX
    requires Recover(lastVote, ledger, blocks, qcs, highestTc, highest2chainTc).Ok?
    ensures var r := Recover(lastVote, ledger, blocks, qcs, highestTc, highest2chainTc).value;
            && multiset(r.blocks) + multiset(rest) + multiset{r.root.block} == multiset(WithGenesis(ledger.ledgerInfo, blocks))
            && IdsOf(r.blocksToPrune, rest)
  {
    FindRootSpec(ledger, blocks, qcs);
    var (root, others, _) := FindRoot(ledger, blocks, qcs).value;
    rest := PruneSplits(root.block.id, others);
    InterleavedIsAll(others, Prune(root.block.id, others).kept, rest);
    assert root.block in multiset(WithGenesis(ledger.ledgerInfo, blocks));
  }
}
