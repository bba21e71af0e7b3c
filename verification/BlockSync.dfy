/** Anchored block batches between two nodes (network/sync.py, network/node.py). */
module BlockSync {
  import opened Transactions
  import opened Mempools
  import opened Blocks
  import opened Chains

  datatype GetBlocks = GetBlocks(anchorHeight: int, anchorHash: string, limit: int)

  datatype BlocksMessage = BlocksMessage(anchorHeight: int, anchorHash: string, tipHeight: int, tipHash: string,
                                         blocks: seq<Block>, more: bool)

  /** Encoded sizes of a block and of a message. */
  datatype Wire = Wire(itemBytes: Block -> nat, frameBytes: BlocksMessage -> nat)

  /** A node's own size limits. */
  datatype Limits = Limits(maxItemBytes: nat, maxFrameBytes: nat)

  datatype Served = Reply(message: BlocksMessage) | UnknownAnchor | PolicyLimit

  function Height(blocks: seq<Block>): int { |blocks| - 1 }

  predicate KnownAnchor(c: Crypto, blocks: seq<Block>, request: GetBlocks) {
    0 <= request.anchorHeight < |blocks| && BlockHash(c, blocks[request.anchorHeight]) == request.anchorHash
  }

  /** The reply that carries the first `k` blocks above the anchor. */
  function Batch(c: Crypto, blocks: seq<Block>, request: GetBlocks, k: nat): BlocksMessage
    requires KnownAnchor(c, blocks, request) && request.anchorHeight + k < |blocks|
  {
    BlocksMessage(request.anchorHeight, request.anchorHash, Height(blocks), TipHash(c, blocks),
                  blocks[request.anchorHeight + 1..request.anchorHeight + 1 + k],
                  request.anchorHeight + k < Height(blocks))
  }

  predicate BatchFits(c: Crypto, w: Wire, l: Limits, blocks: seq<Block>, request: GetBlocks, k: nat)
    requires KnownAnchor(c, blocks, request) && 0 < k && request.anchorHeight + k < |blocks|
  {
    w.itemBytes(blocks[request.anchorHeight + k]) <= l.maxItemBytes
    && w.frameBytes(Batch(c, blocks, request, k)) <= l.maxFrameBytes
  }

  /**
   `k` blocks is what a greedy server sends: all smaller batches fit and it could not go on.
   Nothing at all is sent only to a peer that lacks nothing.
   */
  ghost predicate Greedy(c: Crypto, w: Wire, l: Limits, blocks: seq<Block>, request: GetBlocks, k: nat)
    requires KnownAnchor(c, blocks, request)
  {
    && request.anchorHeight + k < |blocks| && k <= (if request.limit < 0 then 0 else request.limit)
    && (forall j: nat :: 0 < j <= k ==> BatchFits(c, w, l, blocks, request, j))
    && (k < request.limit && request.anchorHeight + k < Height(blocks) ==> !BatchFits(c, w, l, blocks, request, k + 1))
    && (k == 0 && request.limit > 0 ==> request.anchorHeight == Height(blocks))
  }

  /** `serve_blocks` */
  method ServeBlocks(c: Crypto, w: Wire, l: Limits, blocks: seq<Block>, request: GetBlocks) returns (r: Served)
    requires blocks != []
    ensures r.UnknownAnchor? <==> !KnownAnchor(c, blocks, request)
    ensures r.Reply? ==>
      exists k: nat :: Greedy(c, w, l, blocks, request, k) && r.message == Batch(c, blocks, request, k)
    ensures r.PolicyLimit? <==> KnownAnchor(c, blocks, request) && request.anchorHeight < Height(blocks)
                                && request.limit > 0 && !BatchFits(c, w, l, blocks, request, 1)
  {
    if !KnownAnchor(c, blocks, request) {
      return UnknownAnchor;
    }
    var height := Height(blocks);
    var last := if height < request.anchorHeight + request.limit then height else request.anchorHeight + request.limit;
    var k: nat := 0;
    while request.anchorHeight + k < last
      invariant request.anchorHeight + k < |blocks| && k <= (if request.limit < 0 then 0 else request.limit)
      invariant forall j: nat :: 0 < j <= k ==> BatchFits(c, w, l, blocks, request, j)
      decreases last - request.anchorHeight - k
    {
      if !BatchFits(c, w, l, blocks, request, k + 1) {
        if k == 0 {
          return PolicyLimit;
        }
        assert Greedy(c, w, l, blocks, request, k);
        return Reply(Batch(c, blocks, request, k));
      }
      k := k + 1;
    }
    assert Greedy(c, w, l, blocks, request, k);
    r := Reply(Batch(c, blocks, request, k));
  }

  // ---- the receiver -----------------------------------------------------------------

  /** A receiver's limits, and what its clock shows when the block of a given height is checked. */
  datatype Receiver = Receiver(limits: Limits, readings: nat -> nat)

  function Reading(rx: Receiver, height: nat): nat { rx.readings(height) }

  datatype Verdict = FrameTooLarge | ProtocolViolation | Stale | OverLimit | BadBlock | Completed

  /** The chain after the first `n` items, and whether all of them were taken. */
  datatype Progress = Progress(chain: Chain, verdict: Verdict)

  function TakeItems(c: Crypto, w: Wire, rx: Receiver, ch: Chain, items: seq<Block>, n: nat): (r: Progress)
    requires n <= |items| && ch.blocks != []
    ensures r.chain.blocks != []
  {
    if n == 0 then Progress(ch, Completed)
    else
      var before, b := TakeItems(c, w, rx, ch, items, n - 1), items[n - 1];
      if !before.verdict.Completed? then before
      else if w.itemBytes(b) > rx.limits.maxItemBytes then before.(verdict := OverLimit)
      else if b.previousBlockHash != TipHash(c, before.chain.blocks) then before.(verdict := ProtocolViolation)
      else if !AcceptsBlock(c, before.chain, b, Reading(rx, |before.chain.blocks|)) then before.(verdict := BadBlock)
      else Progress(BlockAdded(c, before.chain, b, Reading(rx, |before.chain.blocks|)), Completed)
  }

  predicate Consistent(m: BlocksMessage, height: int, limit: int) {
    var end := height + |m.blocks|;
    && |m.blocks| <= limit && end <= m.tipHeight && height <= m.tipHeight
    && m.more == (end < m.tipHeight)
    && (m.more ==> m.blocks != [])
  }

  /** `receive_blocks`: what it does to the chain, and how the reply is judged. */
  function Receive(c: Crypto, w: Wire, rx: Receiver, ch: Chain, request: GetBlocks, m: BlocksMessage): Progress
    requires ch.blocks != []
  {
    if m.anchorHeight != request.anchorHeight || m.anchorHash != request.anchorHash then Progress(ch, ProtocolViolation)
    else if (Height(ch.blocks), TipHash(c, ch.blocks)) != (request.anchorHeight, request.anchorHash)
      then Progress(ch, Stale)
    else if !Consistent(m, Height(ch.blocks), request.limit) then Progress(ch, ProtocolViolation)
    else
      var taken := TakeItems(c, w, rx, ch, m.blocks, |m.blocks|);
      if taken.verdict.Completed? && !m.more && TipHash(c, taken.chain.blocks) != m.tipHash
      then taken.(verdict := ProtocolViolation)
      else taken
  }

  /** A frame above the transport limit closes the connection before anything is decoded. */
  function Deliver(c: Crypto, w: Wire, rx: Receiver, ch: Chain, request: GetBlocks, m: BlocksMessage): Progress
    requires ch.blocks != []
  {
    if w.frameBytes(m) > rx.limits.maxFrameBytes then Progress(ch, FrameTooLarge)
    else Receive(c, w, rx, ch, request, m)
  }

  method ReceiveBlocks(c: Crypto, w: Wire, rx: Receiver, chain: Blockchain, request: GetBlocks, m: BlocksMessage)
    returns (verdict: Verdict)
    requires chain.blocks != []
    modifies chain
    ensures Progress(chain.Model(), verdict) == Receive(c, w, rx, old(chain.Model()), request, m)
  {
    hide TakeItems, Consistent;
    if m.anchorHeight != request.anchorHeight || m.anchorHash != request.anchorHash {
      return ProtocolViolation;
    }
    if Height(chain.blocks) != request.anchorHeight || TipHash(c, chain.blocks) != request.anchorHash {
      return Stale;
    }
    if !Consistent(m, Height(chain.blocks), request.limit) {
      return ProtocolViolation;
    }
    verdict := TakeBlocks(c, w, rx, chain, m.blocks);
    if verdict == Completed && !m.more && TipHash(c, chain.blocks) != m.tipHash {
      verdict := ProtocolViolation;
    }
  }

  /** The loop over the items: decode, check the link, offer the block to the chain. */
  method TakeBlocks(c: Crypto, w: Wire, rx: Receiver, chain: Blockchain, items: seq<Block>) returns (verdict: Verdict)
    requires chain.blocks != []
    modifies chain
    ensures chain.blocks != []
    ensures Progress(chain.Model(), verdict) == TakeItems(c, w, rx, old(chain.Model()), items, |items|)
  {
    hide AcceptsBlock, ApplyBlock, Revalidated, Reading;
    ghost var start := chain.Model();
    for i := 0 to |items|
      invariant chain.blocks != [] && TakeItems(c, w, rx, start, items, i) == Progress(chain.Model(), Completed)
    {
      var b := items[i];
      if w.itemBytes(b) > rx.limits.maxItemBytes {
        StopsAt(c, w, rx, start, items, i + 1, |items|);
        return OverLimit;
      }
      if b.previousBlockHash != TipHash(c, chain.blocks) {
        StopsAt(c, w, rx, start, items, i + 1, |items|);
        return ProtocolViolation;
      }
      var accepted := chain.AddBlock(c, b, Reading(rx, |chain.blocks|));
      if !accepted {
        StopsAt(c, w, rx, start, items, i + 1, |items|);
        return BadBlock;
      }
    }
    verdict := Completed;
  }

  lemma {:induction false} StopsAt(c: Crypto, w: Wire, rx: Receiver, ch: Chain, items: seq<Block>, k: nat, n: nat)
    requires k <= n <= |items| && ch.blocks != [] && !TakeItems(c, w, rx, ch, items, k).verdict.Completed?
    ensures TakeItems(c, w, rx, ch, items, n) == TakeItems(c, w, rx, ch, items, k)
  {
    hide AcceptsBlock, BlockAdded;
    if k < n {
      StopsAt(c, w, rx, ch, items, k, n - 1);
    }
  }

  // ---- safety for arbitrary replies ---------------------------------------------------

  /** No clock reading while `count` blocks are checked on top of `height` is later than `clock`. */
  predicate ReadBy(rx: Receiver, height: nat, count: nat, clock: int) {
    forall h: nat :: height <= h < height + count ==> Reading(rx, h) <= clock
  }

  lemma {:induction false} TakenAreAppended(c: Crypto, w: Wire, rx: Receiver, ch: Chain, items: seq<Block>, n: nat,
                                            clock: int)
    requires n <= |items| && ChainInv(c, ch, clock) && ReadBy(rx, |ch.blocks|, n, clock)
    ensures var r := TakeItems(c, w, rx, ch, items, n);
      && ChainInv(c, r.chain, clock)
      && (exists k: nat :: k <= n && r.chain.blocks == ch.blocks + items[..k] && (r.verdict.Completed? ==> k == n))
  {
    hide ValidateAndApply, PoolInv, Replay, ApplyBlock, Revalidated, Hashes, Reading;
    if n == 0 {
      assert ch.blocks == ch.blocks + items[..0];
    } else {
      TakenAreAppended(c, w, rx, ch, items, n - 1, clock);
      var before, after := TakeItems(c, w, rx, ch, items, n - 1), TakeItems(c, w, rx, ch, items, n);
      var k: nat :| k <= n - 1 && before.chain.blocks == ch.blocks + items[..k]
        && (before.verdict.Completed? ==> k == n - 1);
      if after.verdict.Completed? {
        BlockAddedKeepsInv(c, before.chain, items[n - 1], Reading(rx, |before.chain.blocks|), clock);
        assert ch.blocks + items[..n] == ch.blocks + items[..n - 1] + [items[n - 1]];
      }
    }
  }

  /** Whatever a peer replies, the chain stays replayable and only gains a prefix of the items. */
  lemma AnyReplyIsSafe(c: Crypto, w: Wire, rx: Receiver, ch: Chain, request: GetBlocks, m: BlocksMessage, clock: int)
    requires ChainInv(c, ch, clock) && ReadBy(rx, |ch.blocks|, |m.blocks|, clock)
    ensures var r := Deliver(c, w, rx, ch, request, m);
      && ChainInv(c, r.chain, clock)
      && exists k: nat :: k <= |m.blocks| && r.chain.blocks == ch.blocks + m.blocks[..k]
  {
    hide ChainInv, TakeItems, ReadBy;
    TakenAreAppended(c, w, rx, ch, m.blocks, |m.blocks|, clock);
    assert ch.blocks == ch.blocks + m.blocks[..0];
  }

  // ---- progress with an honest peer ----------------------------------------------------

  /** The receiver's blocks are the first blocks of the sender's chain. */
  ghost predicate Follows(c: Crypto, a: Chain, b: Chain, clockA: int, clockB: int) {
    ChainInv(c, a, clockA) && ChainInv(c, b, clockB) && b.blocks <= a.blocks
  }

  lemma ReplayStep(c: Crypto, blocks: seq<Block>, n: nat, now: int)
    requires 1 <= n < |blocks| && Replay(c, blocks, |blocks|, now).Some?
    ensures Replay(c, blocks, n, now).Some? && Replay(c, blocks, n + 1, now).Some?
  {
    hide Replay;
    if Replay(c, blocks, n, now).None? {
      ReplayFailsLater(c, blocks, n, |blocks|, now);
    }
    if Replay(c, blocks, n + 1, now).None? {
      ReplayFailsLater(c, blocks, n + 1, |blocks|, now);
    }
  }

  /** The sender's next block is acceptable exactly when the receiver's clock is not too far behind it. */
  lemma NextBlockAccepted(c: Crypto, a: Chain, b: Chain, clockA: int, clockB: int, now: nat)
    requires Follows(c, a, b, clockA, clockB) && |b.blocks| < |a.blocks|
    ensures AcceptsBlock(c, b, a.blocks[|b.blocks|], now)
       <==> a.blocks[|b.blocks|].timestamp <= now + MAX_FUTURE_BLOCK_TIME
    ensures a.blocks[|b.blocks|].previousBlockHash == TipHash(c, b.blocks)
  {
    hide PoolInv, ValidStructure, ValidBody, MeetsTarget, Hashes, ApplyBlock;
    var n, next := |b.blocks|, a.blocks[|b.blocks|];
    var later := if clockA > clockB then clockA else clockB;
    ReplayStep(c, a.blocks, n, clockA);
    ReplayPrefix(c, a.blocks, b.blocks, n, clockA);
    HashesPrefix(c, a.blocks, b.blocks, n);
    ReplayLaterClock(c, b.blocks, n, clockA, later);
    ReplayLaterClock(c, b.blocks, n, clockB, later);
    assert a.blocks[n - 1] == b.blocks[n - 1];
    assert Replay(c, a.blocks, n + 1, clockA).Some?;
    assert ValidHeader(c, next, a.blocks[n - 1], clockA);
  }

  /** The receiver has room for block `h` of the sender, and its clock is not too far behind it. */
  predicate Takes(w: Wire, rx: Receiver, a: Chain, h: nat)
    requires h < |a.blocks|
  {
    w.itemBytes(a.blocks[h]) <= rx.limits.maxItemBytes
    && a.blocks[h].timestamp <= Reading(rx, h) + MAX_FUTURE_BLOCK_TIME
  }

  /** An honest batch is taken up to the first block the receiver has no room or clock for. */
  lemma {:induction false} HonestItemsTaken(c: Crypto, w: Wire, rx: Receiver, a: Chain, b: Chain,
                                            clockA: int, clockB: int, items: seq<Block>, n: nat)
    requires Follows(c, a, b, clockA, clockB) && n <= |items| && ReadBy(rx, |b.blocks|, |items|, clockB)
    requires |b.blocks| + |items| <= |a.blocks| && items == a.blocks[|b.blocks|..|b.blocks| + |items|]
    ensures var r := TakeItems(c, w, rx, b, items, n);
      && (r.verdict.Completed? <==> forall h: nat :: |b.blocks| <= h < |b.blocks| + n ==> Takes(w, rx, a, h))
      && (r.verdict.Completed? ==> r.chain.blocks == a.blocks[..|b.blocks| + n] && ChainInv(c, r.chain, clockB))
  {
    hide ChainInv, AcceptsBlock, BlockAdded, Reading;
    if n == 0 {
      assert b.blocks == a.blocks[..|b.blocks|] by { PrefixOf(c, a, b, clockA, clockB); }
      FollowsInv(c, a, b, clockA, clockB);
    } else {
      HonestItemsTaken(c, w, rx, a, b, clockA, clockB, items, n - 1);
      FollowsInv(c, a, b, clockA, clockB);
      var before := TakeItems(c, w, rx, b, items, n - 1);
      var h := |b.blocks| + n - 1;
      assert items[n - 1] == a.blocks[h];
      if before.verdict.Completed? {
        assert Follows(c, a, before.chain, clockA, clockB) && |before.chain.blocks| == h;
        NextBlockAccepted(c, a, before.chain, clockA, clockB, Reading(rx, h));
        if Takes(w, rx, a, h) {
          BlockAddedKeepsInv(c, before.chain, items[n - 1], Reading(rx, h), clockB);
          Appended(c, before.chain, items[n - 1], Reading(rx, h));
        }
      }
    }
  }

  lemma PrefixOf(c: Crypto, a: Chain, b: Chain, clockA: int, clockB: int)
    requires Follows(c, a, b, clockA, clockB)
    ensures |b.blocks| <= |a.blocks| && b.blocks == a.blocks[..|b.blocks|]
  {
    hide ChainInv;
  }

  lemma FollowsInv(c: Crypto, a: Chain, b: Chain, clockA: int, clockB: int)
    requires Follows(c, a, b, clockA, clockB)
    ensures ChainInv(c, a, clockA) && ChainInv(c, b, clockB) && a.blocks != [] && b.blocks != []
  {
    hide PoolInv, Replay;
  }

  lemma Appended(c: Crypto, ch: Chain, b: Block, now: nat)
    requires ch.blocks != [] && AcceptsBlock(c, ch, b, now)
    ensures BlockAdded(c, ch, b, now).blocks == ch.blocks + [b]
  {
    hide AcceptsBlock;
  }

  function AnchorRequest(c: Crypto, b: Chain, limit: int): GetBlocks
    requires b.blocks != []
  {
    GetBlocks(Height(b.blocks), TipHash(c, b.blocks), limit)
  }

  /** The frame and every block of a batch suit the receiver. */
  predicate Suits(c: Crypto, w: Wire, rx: Receiver, a: Chain, request: GetBlocks, k: nat)
    requires KnownAnchor(c, a.blocks, request) && request.anchorHeight + k < |a.blocks|
  {
    && w.frameBytes(Batch(c, a.blocks, request, k)) <= rx.limits.maxFrameBytes
    && forall h: nat :: request.anchorHeight < h <= request.anchorHeight + k ==> Takes(w, rx, a, h)
  }

  /**
   One round with an honest sender: the reply passes every check of the receiver exactly when
   frame and blocks suit its limits and clock.  Then its chain stays a prefix of the sender's,
   and it grows unless it was complete.
   */
  lemma HonestRound(c: Crypto, w: Wire, l: Limits, rx: Receiver, a: Chain, b: Chain, clockA: int, clockB: int,
                    limit: int, k: nat)
    requires Follows(c, a, b, clockA, clockB) && limit >= 1 && ReadBy(rx, |b.blocks|, k, clockB)
    requires b.blocks != [] && KnownAnchor(c, a.blocks, AnchorRequest(c, b, limit))
    requires Greedy(c, w, l, a.blocks, AnchorRequest(c, b, limit), k)
    ensures var request := AnchorRequest(c, b, limit);
      var r := Deliver(c, w, rx, b, request, Batch(c, a.blocks, request, k));
      && (r.verdict.Completed? <==> Suits(c, w, rx, a, request, k))
      && (r.verdict.Completed? ==> r.chain.blocks == a.blocks[..|b.blocks| + k] && ChainInv(c, r.chain, clockB))
      && (|b.blocks| < |a.blocks| ==> k >= 1)
  {
    hide ChainInv, AcceptsBlock, BlockAdded, TakeItems, BatchFits, Takes;
    var request := AnchorRequest(c, b, limit);
    var m := Batch(c, a.blocks, request, k);
    assert m.blocks == a.blocks[|b.blocks|..|b.blocks| + k];
    HonestItemsTaken(c, w, rx, a, b, clockA, clockB, m.blocks, k);
    EmptyBatchIsDone(c, a, b, clockA, clockB, k);
  }

  /** A round that brings nothing leaves a tip that is the sender's only if nothing was missing. */
  lemma EmptyBatchIsDone(c: Crypto, a: Chain, b: Chain, clockA: int, clockB: int, k: nat)
    requires Follows(c, a, b, clockA, clockB) && |b.blocks| + k <= |a.blocks|
    ensures |b.blocks| + k == |a.blocks| ==> a.blocks[..|b.blocks| + k] == a.blocks
  {
    hide ChainInv;
  }

  /** An honest sender always knows the anchor of a receiver that follows it. */
  lemma HonestAnchor(c: Crypto, a: Chain, b: Chain, clockA: int, clockB: int, limit: int)
    requires Follows(c, a, b, clockA, clockB)
    ensures b.blocks != [] && KnownAnchor(c, a.blocks, AnchorRequest(c, b, limit))
  {
    hide PoolInv, Replay;
  }

  /**
   Sender and receiver fit together from block `from` on: every block alone fits the sender's
   limits, and frames and blocks suit the receiver's limits and clock.
   */
  ghost predicate Deliverable(c: Crypto, w: Wire, l: Limits, rx: Receiver, a: Chain, from: nat, request: GetBlocks)
    requires KnownAnchor(c, a.blocks, request)
  {
    && l.maxFrameBytes <= rx.limits.maxFrameBytes
    && (forall h: nat :: from <= h < |a.blocks| ==> Takes(w, rx, a, h))
    && (request.anchorHeight + 1 < |a.blocks| ==> BatchFits(c, w, l, a.blocks, request, 1))
  }

  /** The receiver after `n` rounds, each answered with some greedy batch size. */
  function Rounds(c: Crypto, w: Wire, rx: Receiver, a: Chain, b: Chain, limit: int, sizes: seq<nat>, n: nat): (r: Chain)
    requires n <= |sizes| && b.blocks != []
    ensures r.blocks != []
  {
    if n == 0 then b
    else
      var before := Rounds(c, w, rx, a, b, limit, sizes, n - 1);
      var request := AnchorRequest(c, before, limit);
      if KnownAnchor(c, a.blocks, request) && request.anchorHeight + sizes[n - 1] < |a.blocks|
      then Deliver(c, w, rx, before, request, Batch(c, a.blocks, request, sizes[n - 1])).chain
      else before
  }

  /** Each round's size is what the server's loop produces. */
  ghost predicate GreedySizes(c: Crypto, w: Wire, l: Limits, rx: Receiver, a: Chain, b: Chain, limit: int,
                              sizes: seq<nat>, n: nat)
    requires n <= |sizes| && b.blocks != []
  {
    forall i :: 0 <= i < n ==>
      var request := AnchorRequest(c, Rounds(c, w, rx, a, b, limit, sizes, i), limit);
      KnownAnchor(c, a.blocks, request) ==>
        Greedy(c, w, l, a.blocks, request, sizes[i]) && Deliverable(c, w, l, rx, a, |b.blocks|, request)
  }

  /** The receiver catches up: each round brings at least one block until the chains are equal. */
  lemma {:induction false} CatchesUp(c: Crypto, w: Wire, l: Limits, rx: Receiver, a: Chain, b: Chain,
                                     clockA: int, clockB: int, limit: int, sizes: seq<nat>, n: nat)
    requires Follows(c, a, b, clockA, clockB) && limit >= 1 && b.blocks != []
    requires ReadBy(rx, 0, |a.blocks|, clockB)
    requires n <= |sizes| && GreedySizes(c, w, l, rx, a, b, limit, sizes, n)
    ensures var r := Rounds(c, w, rx, a, b, limit, sizes, n);
      && Follows(c, a, r, clockA, clockB)
      && (|r.blocks| >= |b.blocks| + n || r.blocks == a.blocks)
  {
    hide ChainInv, Deliver, Greedy, Deliverable, Batch, ReadBy, KnownAnchor, Follows, GreedySizes;
    if n > 0 {
      hide Rounds;
      GreedyAt(c, w, l, rx, a, b, limit, sizes, n);
      CatchesUp(c, w, l, rx, a, b, clockA, clockB, limit, sizes, n - 1);
      var before := Rounds(c, w, rx, a, b, limit, sizes, n - 1);
      PrefixOf(c, a, b, clockA, clockB);
      PrefixOf(c, a, before, clockA, clockB);
      HonestAnchor(c, a, before, clockA, clockB, limit);
      RoundStep(c, w, l, rx, a, before, clockA, clockB, limit, sizes[n - 1], |b.blocks|);
      RoundsNext(c, w, rx, a, b, limit, sizes, n);
      PrefixOf(c, a, Rounds(c, w, rx, a, b, limit, sizes, n), clockA, clockB);
    }
  }

  /** What the assumption about the sizes says of the last of `n` rounds. */
  lemma GreedyAt(c: Crypto, w: Wire, l: Limits, rx: Receiver, a: Chain, b: Chain, limit: int, sizes: seq<nat>, n: nat)
    requires 0 < n <= |sizes| && b.blocks != [] && GreedySizes(c, w, l, rx, a, b, limit, sizes, n)
    ensures GreedySizes(c, w, l, rx, a, b, limit, sizes, n - 1)
    ensures var request := AnchorRequest(c, Rounds(c, w, rx, a, b, limit, sizes, n - 1), limit);
      KnownAnchor(c, a.blocks, request) ==>
        Greedy(c, w, l, a.blocks, request, sizes[n - 1]) && Deliverable(c, w, l, rx, a, |b.blocks|, request)
  {
    hide Rounds, Greedy, Deliverable, KnownAnchor;
  }

  lemma RoundsNext(c: Crypto, w: Wire, rx: Receiver, a: Chain, b: Chain, limit: int, sizes: seq<nat>, n: nat)
    requires 0 < n <= |sizes| && b.blocks != []
    requires var request := AnchorRequest(c, Rounds(c, w, rx, a, b, limit, sizes, n - 1), limit);
      KnownAnchor(c, a.blocks, request) && request.anchorHeight + sizes[n - 1] < |a.blocks|
    ensures var before := Rounds(c, w, rx, a, b, limit, sizes, n - 1);
      var request := AnchorRequest(c, before, limit);
      Rounds(c, w, rx, a, b, limit, sizes, n)
      == Deliver(c, w, rx, before, request, Batch(c, a.blocks, request, sizes[n - 1])).chain
  {
    hide Deliver, Batch, KnownAnchor;
  }

  lemma RoundStep(c: Crypto, w: Wire, l: Limits, rx: Receiver, a: Chain, b: Chain, clockA: int, clockB: int, limit: int,
                  k: nat, from: nat)
    requires Follows(c, a, b, clockA, clockB) && ReadBy(rx, 0, |a.blocks|, clockB) && limit >= 1
    requires b.blocks != [] && KnownAnchor(c, a.blocks, AnchorRequest(c, b, limit)) && from <= |b.blocks|
    requires Deliverable(c, w, l, rx, a, from, AnchorRequest(c, b, limit))
    requires Greedy(c, w, l, a.blocks, AnchorRequest(c, b, limit), k)
    ensures Height(b.blocks) + k < |a.blocks|
    ensures var request := AnchorRequest(c, b, limit);
      var r := Deliver(c, w, rx, b, request, Batch(c, a.blocks, request, k)).chain;
      && Follows(c, a, r, clockA, clockB)
      && (|r.blocks| > |b.blocks| || b.blocks == r.blocks == a.blocks)
  {
    hide ChainInv, Deliver, Takes, Reading, Batch, BatchFits;
    var request := AnchorRequest(c, b, limit);
    FrameWithinSender(c, w, l, rx, a, request, k);
    HonestRound(c, w, l, rx, a, b, clockA, clockB, limit, k);
    PrefixOf(c, a, b, clockA, clockB);
    if k == 0 {
      EmptyRound(c, w, rx, a, b, request);
    }
  }

  /** A reply without blocks changes nothing. */
  lemma EmptyRound(c: Crypto, w: Wire, rx: Receiver, a: Chain, b: Chain, request: GetBlocks)
    requires b.blocks != [] && KnownAnchor(c, a.blocks, request)
    ensures Deliver(c, w, rx, b, request, Batch(c, a.blocks, request, 0)).chain == b
  {
  }

  /** A greedy batch that is not empty has a frame within the sender's limit. */
  lemma FrameWithinSender(c: Crypto, w: Wire, l: Limits, rx: Receiver, a: Chain, request: GetBlocks, k: nat)
    requires KnownAnchor(c, a.blocks, request) && Greedy(c, w, l, a.blocks, request, k)
    requires l.maxFrameBytes <= rx.limits.maxFrameBytes
    ensures k > 0 ==> w.frameBytes(Batch(c, a.blocks, request, k)) <= rx.limits.maxFrameBytes
  {
    hide Batch;
    if k > 0 {
      assert BatchFits(c, w, l, a.blocks, request, k);
    }
  }

  /** As many rounds as there were missing blocks are enough. */
  lemma CaughtUp(c: Crypto, w: Wire, l: Limits, rx: Receiver, a: Chain, b: Chain, clockA: int, clockB: int,
                 limit: int, sizes: seq<nat>)
    requires Follows(c, a, b, clockA, clockB) && limit >= 1 && b.blocks != [] && ReadBy(rx, 0, |a.blocks|, clockB)
    requires |sizes| >= |a.blocks| - |b.blocks| && GreedySizes(c, w, l, rx, a, b, limit, sizes, |sizes|)
    ensures Rounds(c, w, rx, a, b, limit, sizes, |sizes|).blocks == a.blocks
  {
    hide ChainInv, GreedySizes, Rounds, ReadBy;
    CatchesUp(c, w, l, rx, a, b, clockA, clockB, limit, sizes, |sizes|);
    PrefixOf(c, a, Rounds(c, w, rx, a, b, limit, sizes, |sizes|), clockA, clockB);
  }

  // ---- how replies are judged ----------------------------------------------------------------

  /** The reply names the anchor that was asked for. */
  predicate Echoes(request: GetBlocks, m: BlocksMessage) {
    m.anchorHeight == request.anchorHeight && m.anchorHash == request.anchorHash
  }

  /** Nothing was added to the chain since the request. */
  predicate StillThere(c: Crypto, ch: Chain, request: GetBlocks)
    requires ch.blocks != []
  {
    |ch.blocks| - 1 == request.anchorHeight && BlockHash(c, ch.blocks[|ch.blocks| - 1]) == request.anchorHash
  }

  /** No more blocks than asked for or advertised, and `more` says whether the advertised tip is reached. */
  predicate MetadataFits(ch: Chain, request: GetBlocks, m: BlocksMessage) {
    var reached := |ch.blocks| - 1 + |m.blocks|;
    && |m.blocks| <= request.limit
    && reached <= m.tipHeight
    && (m.more <==> reached < m.tipHeight)
    && (m.more ==> |m.blocks| > 0)
  }

  lemma {:induction false} AllTaken(c: Crypto, w: Wire, rx: Receiver, ch: Chain, items: seq<Block>, n: nat)
    requires n <= |items| && ch.blocks != [] && TakeItems(c, w, rx, ch, items, n).verdict.Completed?
    ensures TakeItems(c, w, rx, ch, items, n).chain.blocks == ch.blocks + items[..n]
    ensures forall i :: 0 <= i < n ==> w.itemBytes(items[i]) <= rx.limits.maxItemBytes
  {
    hide AcceptsBlock, Reading, BlockAdded, TipHash;
    if n == 0 {
      assert ch.blocks + items[..0] == ch.blocks;
    } else {
      LastTaken(c, w, rx, ch, items, n);
      AllTaken(c, w, rx, ch, items, n - 1);
      OneMore(ch.blocks, items, n);
    }
  }

  lemma OneMore(front: seq<Block>, items: seq<Block>, n: nat)
    requires 0 < n <= |items|
    ensures front + items[..n] == front + items[..n - 1] + [items[n - 1]]
  {
  }

  lemma LastTaken(c: Crypto, w: Wire, rx: Receiver, ch: Chain, items: seq<Block>, n: nat)
    requires 0 < n <= |items| && ch.blocks != [] && TakeItems(c, w, rx, ch, items, n).verdict.Completed?
    ensures TakeItems(c, w, rx, ch, items, n - 1).verdict.Completed?
    ensures TakeItems(c, w, rx, ch, items, n).chain.blocks
         == TakeItems(c, w, rx, ch, items, n - 1).chain.blocks + [items[n - 1]]
    ensures w.itemBytes(items[n - 1]) <= rx.limits.maxItemBytes
  {
    hide AcceptsBlock, Reading, BlockAdded;
    var before := TakeItems(c, w, rx, ch, items, n - 1).chain;
    Appended(c, before, items[n - 1], Reading(rx, |before.blocks|));
  }

  /**
   A reply to an outdated request is ignored; one that names another anchor or whose metadata
   does not fit is a violation and changes nothing; and a reply counts as completed only if all
   its blocks are now on the chain, none above the item limit, ending in the advertised tip
   unless more was announced.
   */
  lemma JudgedExactly(c: Crypto, w: Wire, rx: Receiver, ch: Chain, request: GetBlocks, m: BlocksMessage)
    requires ch.blocks != []
    ensures var r := Receive(c, w, rx, ch, request, m);
      && (r.verdict.Stale? <==> Echoes(request, m) && !StillThere(c, ch, request))
      && (r.verdict.Stale? ==> r.chain == ch)
      && (!Echoes(request, m) ==> r == Progress(ch, ProtocolViolation))
      && (Echoes(request, m) && StillThere(c, ch, request) && !MetadataFits(ch, request, m) ==>
            r == Progress(ch, ProtocolViolation))
      && (r.verdict.Completed? ==>
            && Echoes(request, m) && StillThere(c, ch, request) && MetadataFits(ch, request, m)
            && r.chain.blocks == ch.blocks + m.blocks
            && (forall i :: 0 <= i < |m.blocks| ==> w.itemBytes(m.blocks[i]) <= rx.limits.maxItemBytes)
            && (m.more || BlockHash(c, r.chain.blocks[|r.chain.blocks| - 1]) == m.tipHash))
      && !r.verdict.FrameTooLarge?
  {
    hide TakeItems, BlockHash;
    NeverFrame(c, w, rx, ch, m.blocks, |m.blocks|);
    assert m.blocks[..|m.blocks|] == m.blocks;
    if TakeItems(c, w, rx, ch, m.blocks, |m.blocks|).verdict.Completed? {
      AllTaken(c, w, rx, ch, m.blocks, |m.blocks|);
    }
  }

  lemma {:induction false} NeverFrame(c: Crypto, w: Wire, rx: Receiver, ch: Chain, items: seq<Block>, n: nat)
    requires n <= |items| && ch.blocks != []
    ensures var verdict := TakeItems(c, w, rx, ch, items, n).verdict; !verdict.FrameTooLarge? && !verdict.Stale?
  {
    hide AcceptsBlock, BlockAdded, Reading;
    if n > 0 {
      NeverFrame(c, w, rx, ch, items, n - 1);
    }
  }
}
