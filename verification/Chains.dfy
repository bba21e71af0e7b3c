/** The node's chain: confirmed blocks, cached state and pending pool (blockchain/blockchain.py). */
module Chains {
  import opened Prelude
  import opened Transactions
  import opened Utxo
  import opened Mempools
  import opened Survivors
  import opened Blocks

  datatype Chain = Chain(blocks: seq<Block>, state: ChainState, pool: Pool)

  datatype Operation =
    | AddBlock(block: Block, now: nat)
    | Submit(transaction: Transaction)
    | RemovePending(txid: string)

  function GenesisChain(c: Crypto, maxTransactions: Limit, maxBytes: Limit): Chain {
    Chain([GenesisBlock(c)], EmptyState, EmptyPool(map[], {}, maxTransactions, maxBytes))
  }

  /** When `add_block` returns True. */
  predicate AcceptsBlock(c: Crypto, ch: Chain, b: Block, now: int)
    requires ch.blocks != []
  {
    && ValidateAndApply(c, b, ch.blocks[|ch.blocks| - 1], ch.state, now).Some?
    && BlockHash(c, b) !in Hashes(c, ch.blocks, |ch.blocks|)
  }

  function BlockAdded(c: Crypto, ch: Chain, b: Block, now: int): Chain
    requires ch.blocks != []
  {
    if AcceptsBlock(c, ch, b, now) then
      var next := ApplyBlock(c, b, ch.state).value;
      Chain(ch.blocks + [b], next, Revalidated(c, ch.pool, next.utxos, next.seen))
    else ch
  }

  function Step(c: Crypto, ch: Chain, op: Operation): Chain
    requires ch.blocks != []
  {
    match op
    case AddBlock(b, now) => BlockAdded(c, ch, b, now)
    case Submit(tx) => ch.(pool := TryAdd(c, ch.pool, tx))
    case RemovePending(txid) => ch.(pool := Removed(c, ch.pool, txid))
  }

  /** The Boolean each operation returns. */
  predicate Accepted(c: Crypto, ch: Chain, op: Operation)
    requires ch.blocks != []
  {
    match op
    case AddBlock(b, now) => AcceptsBlock(c, ch, b, now)
    case Submit(tx) => Admits(c, ch.pool, tx)
    case RemovePending(txid) => Has(ch.pool.entries, txid)
  }

  /** The hashing of the built-in genesis block agrees with the configured network. */
  ghost predicate GenesisOk(c: Crypto) {
    ValidStructure(c, GenesisBlock(c)) && BlockHash(c, GenesisBlock(c)) == GENESIS_HASH
  }

  /** Replaying the blocks at `clock` gives the cached state, and the pool is consistent over it. */
  ghost predicate ChainInv(c: Crypto, ch: Chain, clock: int) {
    && ch.blocks != []
    && Replay(c, ch.blocks, |ch.blocks|, clock) == Some(ch.state)
    && PoolInv(c, ch.pool)
    && ch.pool.confirmed == ch.state.utxos
    && ch.pool.seen == ch.state.seen
  }

  lemma ChainSound(c: Crypto, ch: Chain, clock: int)
    requires ChainInv(c, ch, clock)
    ensures Sound(c, ch.pool)
  {
    hide PoolInv, Replay;
    ReplayAnchored(c, ch.blocks, |ch.blocks|, clock);
  }

  lemma BlockAddedKeepsInv(c: Crypto, ch: Chain, b: Block, now: int, clock: int)
    requires ChainInv(c, ch, clock) && now <= clock
    ensures ChainInv(c, BlockAdded(c, ch, b, now), clock)
  {
    hide PoolInv, ApplyBlock, ValidStructure, ValidBody, MeetsTarget, Hashes;
    if AcceptsBlock(c, ch, b, now) {
      var next := ApplyBlock(c, b, ch.state).value;
      var longer, n := ch.blocks + [b], |ch.blocks|;
      ReplayPrefix(c, ch.blocks, longer, n, clock);
      HashesPrefix(c, ch.blocks, longer, n);
      assert ValidHeader(c, b, ch.blocks[n - 1], clock);
      ReplayNext(c, longer, clock, ch.state);
      EmptyPoolInv(c, next.utxos, next.seen, ch.pool.maxTransactions, ch.pool.maxBytes);
      RebuildKeepsInv(c, EmptyPool(next.utxos, next.seen, ch.pool.maxTransactions, ch.pool.maxBytes),
                      ch.pool.entries, |ch.pool.entries|, next.seen);
    }
  }

  lemma ReplayNext(c: Crypto, blocks: seq<Block>, now: int, state: ChainState)
    requires |blocks| > 1 && Replay(c, blocks, |blocks| - 1, now) == Some(state)
    requires BlockHash(c, blocks[|blocks| - 1]) !in Hashes(c, blocks, |blocks| - 1)
    ensures Replay(c, blocks, |blocks|, now)
         == ValidateAndApply(c, blocks[|blocks| - 1], blocks[|blocks| - 2], state, now)
  {
    hide ValidateAndApply, Hashes;
  }

  lemma RemovedKeepsInv(c: Crypto, p: Pool, txid: string)
    requires PoolInv(c, p)
    ensures PoolInv(c, Removed(c, p, txid))
    ensures Removed(c, p, txid).confirmed == p.confirmed && Removed(c, p, txid).seen == p.seen
  {
    hide PoolInv;
    if Has(p.entries, txid) {
      EmptyPoolInv(c, p.confirmed, p.seen, p.maxTransactions, p.maxBytes);
      RebuildKeepsInv(c, EmptyPool(p.confirmed, p.seen, p.maxTransactions, p.maxBytes), p.entries, |p.entries|, {txid});
    }
  }

  /** The latest clock after an operation that was accepted; only admitting a block reads one. */
  function ClockAfter(clock: int, op: Operation): int {
    if op.AddBlock? && op.now > clock then op.now else clock
  }

  /** Every operation keeps the cached state equal to a replay at the latest admission clock. */
  lemma StepKeepsInv(c: Crypto, ch: Chain, clock: int, op: Operation)
    requires ChainInv(c, ch, clock)
    ensures ChainInv(c, Step(c, ch, op), if Accepted(c, ch, op) then ClockAfter(clock, op) else clock)
    ensures ch.blocks <= Step(c, ch, op).blocks && |Step(c, ch, op).blocks| <= |ch.blocks| + 1
    ensures !Accepted(c, ch, op) ==> Step(c, ch, op) == ch
  {
    hide PoolInv, Replay, ValidateAndApply, Admits;
    match op {
      case AddBlock(b, now) =>
        ReplayLaterClock(c, ch.blocks, |ch.blocks|, clock, ClockAfter(clock, op));
        BlockAddedKeepsInv(c, ch, b, now, ClockAfter(clock, op));
      case Submit(tx) =>
        TryAddKeepsInv(c, ch.pool, tx);
      case RemovePending(txid) =>
        RemovedKeepsInv(c, ch.pool, txid);
    }
  }

  // ---- whole runs -------------------------------------------------------------------

  /** The chain after the first `n` operations. */
  function Run(c: Crypto, start: Chain, ops: seq<Operation>, n: nat): (r: Chain)
    requires n <= |ops| && start.blocks != []
    ensures r.blocks != []
  {
    if n == 0 then start else Step(c, Run(c, start, ops, n - 1), ops[n - 1])
  }

  /** The latest clock at which one of the first `n` operations admitted a block. */
  function RunClock(c: Crypto, start: Chain, ops: seq<Operation>, n: nat): int
    requires n <= |ops| && start.blocks != []
  {
    if n == 0 then 0
    else
      var before := RunClock(c, start, ops, n - 1);
      if Accepted(c, Run(c, start, ops, n - 1), ops[n - 1]) then ClockAfter(before, ops[n - 1]) else before
  }

  lemma GenesisInv(c: Crypto, maxTransactions: Limit, maxBytes: Limit, clock: int)
    requires GenesisOk(c)
    ensures ChainInv(c, GenesisChain(c, maxTransactions, maxBytes), clock)
  {
    EmptyPoolInv(c, map[], {}, maxTransactions, maxBytes);
  }

  /**
   After any run, replaying the stored blocks at any clock not before the admission clocks
   reproduces the cached state, and the chain has only grown by appending.
   */
  lemma {:induction false} RunsAgreeWithReplay(c: Crypto, maxTransactions: Limit, maxBytes: Limit,
                                               ops: seq<Operation>, n: nat, clock: int)
    requires GenesisOk(c) && n <= |ops|
    requires clock >= RunClock(c, GenesisChain(c, maxTransactions, maxBytes), ops, n)
    ensures var start := GenesisChain(c, maxTransactions, maxBytes);
      && ChainInv(c, Run(c, start, ops, n), clock)
      && Sound(c, Run(c, start, ops, n).pool)
      && (n > 0 ==> Run(c, start, ops, n - 1).blocks <= Run(c, start, ops, n).blocks)
  {
    hide PoolInv, Replay, Step, Sound, GenesisOk, ClockAfter, Accepted;
    var start := GenesisChain(c, maxTransactions, maxBytes);
    if n == 0 {
      GenesisInv(c, maxTransactions, maxBytes, clock);
    } else {
      var before := RunClock(c, start, ops, n - 1);
      RunsAgreeWithReplay(c, maxTransactions, maxBytes, ops, n - 1, before);
      StepKeepsInv(c, Run(c, start, ops, n - 1), before, ops[n - 1]);
      var ch := Run(c, start, ops, n);
      ReplayLaterClock(c, ch.blocks, |ch.blocks|, RunClock(c, start, ops, n), clock);
    }
    ChainSound(c, Run(c, start, ops, n), clock);
  }

  // ---- the object ---------------------------------------------------------------------

  class Blockchain {
    var blocks: seq<Block>
    var utxoSet: UTXOSet
    var seen: set<string>
    var mempool: Mempool

    ghost function Model(): Chain
      reads this, utxoSet, mempool, mempool.confirmed, mempool.working
    {
      Chain(blocks, ChainState(utxoSet.utxos, seen), mempool.Model())
    }

    constructor (c: Crypto, maxTransactions: Limit, maxBytes: Limit)
      ensures Model() == GenesisChain(c, maxTransactions, maxBytes)
    {
      blocks := [GenesisBlock(c)];
      seen := {};
      var empty := new UTXOSet();
      utxoSet := empty;
      mempool := new Mempool(empty, {}, maxTransactions, maxBytes);
    }

    method SubmitTransaction(c: Crypto, tx: Transaction) returns (ok: bool)
      requires blocks != []
      modifies mempool
      ensures ok == Accepted(c, old(Model()), Submit(tx))
      ensures Model() == Step(c, old(Model()), Submit(tx))
    {
      hide Admits, TryAdd;
      ok := mempool.AddTransaction(c, tx);
    }

    method RemovePendingTransaction(c: Crypto, txid: string) returns (ok: bool)
      requires blocks != []
      modifies mempool
      ensures ok == Accepted(c, old(Model()), RemovePending(txid))
      ensures Model() == Step(c, old(Model()), RemovePending(txid))
    {
      hide Removed;
      ok := mempool.RemoveTransaction(c, txid);
    }

    method AddBlock(c: Crypto, b: Block, now: nat) returns (ok: bool)
      requires blocks != []
      modifies this
      ensures ok == Accepted(c, old(Model()), Operation.AddBlock(b, now))
      ensures Model() == Step(c, old(Model()), Operation.AddBlock(b, now))
    {
      hide ApplyBlock, ValidHeader, Revalidated;
      var accepted, next, nextSeen := ValidateAndApplyBlock(c, b, blocks[|blocks| - 1], utxoSet, seen, now);
      if !accepted {
        return false;
      }
      var hash := BlockHash(c, b);
      var known := KnownHash(c, blocks, hash);
      if known {
        return false;
      }
      var nextMempool := mempool.Revalidate(c, next, nextSeen);
      blocks, utxoSet, seen, mempool := blocks + [b], next, nextSeen, nextMempool;
      ok := true;
    }

    /** Rebuild from genesis and compare with the cached state. */
    method ValidateChain(c: Crypto, now: int) returns (ok: bool)
      ensures ok <==> Replay(c, blocks, |blocks|, now) == Some(Model().state)
    {
      hide Replay;
      var rebuilt, utxos, ids := RebuildChainState(c, blocks, now);
      ok := rebuilt && ids == seen && utxos.utxos == utxoSet.utxos;
    }
  }

  method KnownHash(c: Crypto, blocks: seq<Block>, hash: string) returns (known: bool)
    ensures known == (hash in Hashes(c, blocks, |blocks|))
  {
    known := false;
    for i := 0 to |blocks|
      invariant known == (hash in Hashes(c, blocks, i))
    {
      if BlockHash(c, blocks[i]) == hash {
        known := true;
      }
    }
  }
}
