/**
  `process_block_retrieval` of consensus/src/round_manager.rs and the
  requester's check of the reply, consensus-types/src/block_retrieval.rs.
 */
module BlockRetrieval {
  import opened Types
  import opened SafetyRulesModel

  datatype Request = Request(blockId: HashValue, numBlocks: U64, targetBlockId: Option<HashValue>) {
    predicate MatchTargetId(id: HashValue) {
      targetBlockId == Some(id)
    }
  }

  datatype Status = Succeeded | IdNotFound | NotEnoughBlocks | SucceededWithTarget

  datatype Response = Response(status: Status, blocks: seq<Block>)

  /** The id under which the i-th block is looked up. */
  function KeyAt(id: HashValue, blocks: seq<Block>, i: nat): HashValue
    requires i <= |blocks|
  {
    if i == 0 then id else blocks[i - 1].ParentId()
  }

  /** A parent chain in the store, starting at the id. */
  predicate IsChain(store: map<HashValue, Block>, id: HashValue, blocks: seq<Block>) {
    forall i :: 0 <= i < |blocks| ==> KeyAt(id, blocks, i) in store && store[KeyAt(id, blocks, i)] == blocks[i]
  }

  /** The i-th block was looked up under the target's id. */
  predicate HitsTarget(req: Request, blocks: seq<Block>, i: nat)
    requires i < |blocks|
  {
    req.MatchTargetId(KeyAt(req.blockId, blocks, i))
  }

  ghost predicate MissesTarget(req: Request, blocks: seq<Block>, n: int)
    requires n <= |blocks|
  {
    forall i :: 0 <= i < n ==> !HitsTarget(req, blocks, i)
  }

  /**
    The reply is the longest parent chain from the requested id that the count,
    the target and the store allow, and the status names the bound that ended
    it.
   */
  ghost predicate Exact(store: map<HashValue, Block>, req: Request, r: Response) {
    var n := |r.blocks|;
    && n <= req.numBlocks
    && IsChain(store, req.blockId, r.blocks)
    && MissesTarget(req, r.blocks, n - 1)
    && match r.status
       case IdNotFound => n == 0 && (req.numBlocks == 0 || req.blockId !in store)
       case SucceededWithTarget => n > 0 && HitsTarget(req, r.blocks, n - 1)
       case Succeeded => n > 0 && !HitsTarget(req, r.blocks, n - 1) && n == req.numBlocks
       case NotEnoughBlocks =>
         n > 0 && !HitsTarget(req, r.blocks, n - 1) && n < req.numBlocks && KeyAt(req.blockId, r.blocks, n) !in store
  }

  lemma ExtendChain(store: map<HashValue, Block>, req: Request, blocks: seq<Block>)
    requires IsChain(store, req.blockId, blocks) && KeyAt(req.blockId, blocks, |blocks|) in store
    requires MissesTarget(req, blocks, |blocks|)
    ensures var more := blocks + [store[KeyAt(req.blockId, blocks, |blocks|)]];
            && IsChain(store, req.blockId, more)
            && MissesTarget(req, more, |blocks|)
            && HitsTarget(req, more, |blocks|) == req.MatchTargetId(KeyAt(req.blockId, blocks, |blocks|))
            && (HitsTarget(req, more, |blocks|) || MissesTarget(req, more, |more|))
            && KeyAt(req.blockId, more, |more|) == store[KeyAt(req.blockId, blocks, |blocks|)].ParentId()
  {
    var more := blocks + [store[KeyAt(req.blockId, blocks, |blocks|)]];
    forall i | 0 <= i <= |blocks|
      ensures KeyAt(req.blockId, more, i) == KeyAt(req.blockId, blocks, i)
    {
    }
    forall i | 0 <= i < |blocks|
      ensures !HitsTarget(req, more, i)
    {
      assert !HitsTarget(req, blocks, i);
    }
  }

  method ProcessBlockRetrieval(store: map<HashValue, Block>, req: Request) returns (r: Response)
    ensures Exact(store, req, r)
  {
    var blocks: seq<Block> := [];
    var status := Succeeded;
    var id := req.blockId;
    while |blocks| < req.numBlocks
      invariant |blocks| <= req.numBlocks
      invariant id == KeyAt(req.blockId, blocks, |blocks|)
      invariant IsChain(store, req.blockId, blocks)
      invariant MissesTarget(req, blocks, |blocks|)
      invariant status == Succeeded
      decreases req.numBlocks - |blocks|
    {
      if id in store {
        var block := store[id];
        ExtendChain(store, req, blocks);
        blocks := blocks + [block];
        if req.MatchTargetId(id) {
          status := SucceededWithTarget;
          break;
        }
        id := block.ParentId();
      } else {
        status := NotEnoughBlocks;
        break;
      }
    }
    if blocks == [] {
      status := IdNotFound;
    }
    r := Response(status, blocks);
  }

  lemma {:induction false} ChainsAgree(store: map<HashValue, Block>, id: HashValue, x: seq<Block>, y: seq<Block>, n: nat)
    requires IsChain(store, id, x) && IsChain(store, id, y) && n <= |x| && n <= |y|
    ensures forall i :: 0 <= i < n ==> x[i] == y[i]
  {
    if n > 0 {
      ChainsAgree(store, id, x, y, n - 1);
      assert KeyAt(id, x, n - 1) == KeyAt(id, y, n - 1);
    }
  }

  /** There is only one such reply. */
  lemma ExactIsUnique(store: map<HashValue, Block>, req: Request, x: Response, y: Response)
    requires Exact(store, req, x) && Exact(store, req, y)
    ensures x == y
  {
    if |x.blocks| <= |y.blocks| {
      ShorterIsEqual(store, req, x, y);
    } else {
      ShorterIsEqual(store, req, y, x);
    }
  }

  /** A reply goes on where the next block is in the store and the target was not hit. */
  lemma GoesOn(store: map<HashValue, Block>, req: Request, r: Response, n: nat)
    requires Exact(store, req, r) && n < |r.blocks|
    ensures KeyAt(req.blockId, r.blocks, n) in store && (n > 0 ==> !HitsTarget(req, r.blocks, n - 1))
  {
  }

  lemma ShorterIsEqual(store: map<HashValue, Block>, req: Request, x: Response, y: Response)
    requires Exact(store, req, x) && Exact(store, req, y) && |x.blocks| <= |y.blocks|
    ensures x == y
  {
    var n := |x.blocks|;
    ChainsAgree(store, req.blockId, x.blocks, y.blocks, n);
    if n < |y.blocks| {
      GoesOn(store, req, y, n);
      assert false;
    }
    assert x.blocks == y.blocks;
    SameBlocks(store, req, x, y);
  }

  lemma SameBlocks(store: map<HashValue, Block>, req: Request, x: Response, y: Response)
    requires Exact(store, req, x) && Exact(store, req, y) && x.blocks == y.blocks
    ensures x == y
  {
  }

  // ----- the requester ---------------------------------------------------

  /** `BlockRetrievalResponse::verify`. */
  predicate VerifyResponse(req: Request, r: Response, v: ValidatorVerifier, now: U64) {
    && (r.status == Succeeded ==> |r.blocks| == req.numBlocks)
    && (r.status == SucceededWithTarget ==> r.blocks != [] && req.MatchTargetId(r.blocks[|r.blocks| - 1].id))
    && (forall i :: 0 <= i < |r.blocks| ==>
          && BlockSignatureValid(v, r.blocks[i])
          && BlockWellFormed(r.blocks[i], now)
          && r.blocks[i].id == KeyAt(req.blockId, r.blocks, i))
  }

  predicate BlocksValid(blocks: seq<Block>, v: ValidatorVerifier, now: U64) {
    forall i :: 0 <= i < |blocks| ==> BlockSignatureValid(v, blocks[i]) && BlockWellFormed(blocks[i], now)
  }

  /** Of a reply computed from a store that files blocks under their ids, the requester checks the blocks alone. */
  lemma ReplyVerifies(store: map<HashValue, Block>, req: Request, r: Response, v: ValidatorVerifier, now: U64)
    requires forall id :: id in store ==> store[id].id == id
    requires Exact(store, req, r)
    ensures VerifyResponse(req, r, v, now) <==> BlocksValid(r.blocks, v, now)
  {
    forall i | 0 <= i < |r.blocks|
      ensures r.blocks[i].id == KeyAt(req.blockId, r.blocks, i)
    {
      assert KeyAt(req.blockId, r.blocks, i) in store;
    }
  }

  /** So a reply that goes down to the epoch's genesis block is refused: genesis carries no signature to check. */
  lemma GenesisIsRefused(store: map<HashValue, Block>, req: Request, r: Response, v: ValidatorVerifier, now: U64, i: nat)
    requires forall id :: id in store ==> store[id].id == id
    requires Exact(store, req, r) && i < |r.blocks| && r.blocks[i].data.blockType.Genesis?
    ensures !VerifyResponse(req, r, v, now)
  {
    ReplyVerifies(store, req, r, v, now);
    assert !BlockSignatureValid(v, r.blocks[i]);
  }

  /** Block ids are hashes of the blocks: a reply that verifies can only be the chain, wherever it came from. */
  lemma {:induction false} VerifiedRepliesAgree(req: Request, x: Response, y: Response, v: ValidatorVerifier, now: U64, n: nat)
    requires forall d, e :: BlockHash(d) == BlockHash(e) ==> d == e
    requires VerifyResponse(req, x, v, now) && VerifyResponse(req, y, v, now)
    requires forall i :: 0 <= i < |x.blocks| ==> x.blocks[i].id == BlockHash(x.blocks[i].data)
    requires forall i :: 0 <= i < |y.blocks| ==> y.blocks[i].id == BlockHash(y.blocks[i].data)
    requires n <= |x.blocks| && n <= |y.blocks|
    ensures forall i :: 0 <= i < n ==> x.blocks[i].data == y.blocks[i].data
  {
    if n > 0 {
      VerifiedRepliesAgree(req, x, y, v, now, n - 1);
      assert KeyAt(req.blockId, x.blocks, n - 1) == KeyAt(req.blockId, y.blocks, n - 1);
      assert x.blocks[n - 1].id == y.blocks[n - 1].id;
    }
  }
}
