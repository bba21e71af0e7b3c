/**
 What an accepted header pins down: its place in the chain, its work, and the transactions
 behind its Merkle root (blockchain/validation.py).
 */
module Commitments {
  import opened Prelude
  import opened Transactions
  import opened Validation
  import opened Blocks
  import opened Chains
  import Merkle

  // ---- the header commits to the transactions ------------------------------------------------

  /** Accepted by some node, on whatever chain and at whatever time. */
  ghost predicate EverAccepted(c: Crypto, b: Block) {
    exists ch: Chain, now: int :: ch.blocks != [] && AcceptsBlock(c, ch, b, now)
  }

  /** Identifiers of an accepted block are distinct, and its header holds their Merkle root. */
  lemma AcceptedCommits(c: Crypto, b: Block)
    requires EverAccepted(c, b)
    ensures b.transactions != [] && DistinctStrings(IdList(c, b.transactions))
    ensures b.merkleRoot == Merkle.Root(c, IdList(c, b.transactions))
  {
    hide ApplyBlock, Hashes, MeetsTarget;
    var ch: Chain, now: int :| ch.blocks != [] && AcceptsBlock(c, ch, b, now);
    assert ValidHeader(c, b, ch.blocks[|ch.blocks| - 1], now);
  }

  /** Depth of the Merkle tree over a block's transactions. */
  function TreeDepth(b: Block): nat { Merkle.Depth(|b.transactions|) }

  /** Computing the two blocks' Merkle roots met two different pairs of hashes with one combination. */
  predicate RootsClash(c: Crypto, a: Block, b: Block)
    requires a.transactions != [] && b.transactions != [] && TreeDepth(a) == TreeDepth(b)
  {
    Merkle.DepthBound(|a.transactions|);
    Merkle.DepthBound(|b.transactions|);
    Merkle.Clash(c, IdList(c, a.transactions), IdList(c, b.transactions), TreeDepth(a))
  }

  /**
   Two accepted blocks with one Merkle root and trees of one depth hold the same identifiers in
   the same order, exactly when the two root computations met no collision.
   */
  lemma RootFixesTransactions(c: Crypto, a: Block, b: Block)
    requires EverAccepted(c, a) && EverAccepted(c, b) && a.merkleRoot == b.merkleRoot
    requires a.transactions != [] && b.transactions != [] && TreeDepth(a) == TreeDepth(b)
    ensures IdList(c, a.transactions) == IdList(c, b.transactions) <==> !RootsClash(c, a, b)
  {
    hide Merkle.Clash, EverAccepted;
    AcceptedCommits(c, a);
    AcceptedCommits(c, b);
    Merkle.RootCommits(c, IdList(c, a.transactions), IdList(c, b.transactions));
  }

  /**
   Whoever keeps the header of an accepted block and puts other transactions behind it is
   refused by every node at every time, or exhibits a collision of the combine function.
   */
  lemma SwappedBodyRefused(c: Crypto, b: Block, txs: seq<Transaction>, ch: Chain, now: int)
    requires EverAccepted(c, b) && ch.blocks != []
    requires b.transactions != [] && txs != [] && Merkle.Depth(|txs|) == TreeDepth(b)
    requires IdList(c, txs) != IdList(c, b.transactions)
    ensures AcceptsBlock(c, ch, b.(transactions := txs), now) ==> RootsClash(c, b, b.(transactions := txs))
  {
    hide AcceptsBlock, RootsClash;
    var swapped := b.(transactions := txs);
    if AcceptsBlock(c, ch, swapped, now) {
      assert EverAccepted(c, swapped);
      RootFixesTransactions(c, b, swapped);
    }
  }

  // ---- the laws of a replayed chain -------------------------------------------------------------

  /** One coinbase in front, paying one valid output at the block's own time; all others spend. */
  predicate OneCoinbase(c: Crypto, b: Block) {
    && b.transactions != []
    && b.transactions[0].inputs == [] && |b.transactions[0].outputs| == 1
    && b.transactions[0].outputs[0].amount > 0 && ValidAddress(c, b.transactions[0].outputs[0].recipient)
    && b.transactions[0].timestamp == b.timestamp
    && forall i :: 1 <= i < |b.transactions| ==> b.transactions[i].inputs != []
  }

  /** Link, time, work and commitment of block `i`, against the block before it. */
  predicate BlockLaws(c: Crypto, blocks: seq<Block>, i: int, now: int)
    requires 1 <= i < |blocks|
  {
    var b, previous := blocks[i], blocks[i - 1];
    && b.previousBlockHash == BlockHash(c, previous)
    && previous.timestamp <= b.timestamp <= now + 2 * 60 * 60
    && b.version == 1 && 0 <= b.nonce < 0x1_0000_0000
    && b.difficulty == 16 && HexValue(BlockHash(c, b)) < MAX_TARGET / 16
    && b.merkleRoot == Merkle.Root(c, IdList(c, b.transactions))
    && DistinctStrings(IdList(c, b.transactions))
    && OneCoinbase(c, b)
  }

  function Power16(n: nat): nat {
    if n == 0 then 1 else 16 * Power16(n - 1)
  }

  /** Hexadecimal text is positional: leading digits count for a power of sixteen each. */
  lemma {:induction false} HexValueJoins(a: string, b: string)
    ensures HexValue(a + b) == HexValue(a) * Power16(|b|) + HexValue(b)
  {
    if b == [] {
      assert a + b == a;
    } else {
      var front := b[..|b| - 1];
      HexValueJoins(a, front);
      assert (a + b)[..|a + b| - 1] == a + front;
      assert HexValue(a) * (16 * Power16(|front|)) == 16 * (HexValue(a) * Power16(|front|));
    }
  }

  lemma HeaderLaws(c: Crypto, blocks: seq<Block>, i: nat, now: int)
    requires 1 <= i < |blocks| && ValidHeader(c, blocks[i], blocks[i - 1], now)
    ensures BlockLaws(c, blocks, i, now)
  {
    hide HexValue, ValidAddress;
  }

  /**
   A replayed chain starts at the network's genesis; every later block links to the one before
   it, never goes back in time or beyond two hours of the clock, carries its work, and commits
   to distinct transactions with one coinbase; and no two blocks share a hash.
   */
  lemma {:induction false} ChainLaws(c: Crypto, blocks: seq<Block>, n: nat, now: int)
    requires 1 <= n <= |blocks| && Replay(c, blocks, n, now).Some?
    ensures BlockHash(c, blocks[0]) == GENESIS_HASH && blocks[0].transactions == []
    ensures forall i :: 1 <= i < n ==> BlockLaws(c, blocks, i, now)
    ensures forall i, j :: 0 <= i < j < n ==> BlockHash(c, blocks[i]) != BlockHash(c, blocks[j])
  {
    hide ValidStructure, ValidHeader, ApplyBlock, Hashes, BlockLaws, BlockHash;
    if n > 1 {
      ChainLaws(c, blocks, n - 1, now);
      assert ValidHeader(c, blocks[n - 1], blocks[n - 2], now);
      HeaderLaws(c, blocks, n - 1, now);
      HashMembers(c, blocks, n - 1, BlockHash(c, blocks[n - 1]));
    }
  }
}
