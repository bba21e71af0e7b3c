/**
 Blocks, coinbase rules, header and body validation, and the replay of a chain
 (blockchain/, consensus/, mining/coinbase.py).
 */
module Blocks {
  import opened Prelude
  import opened Transactions
  import opened Utxo
  import opened Validation
  import opened Processing
  import Merkle

  const MAX_TARGET: int := 0x1_0000000000000000000000000000000000000000000000000000000000000000
  const MINING_DIFFICULTY: int := 16
  const MAX_NONCE: int := 0xFFFF_FFFF
  const BLOCK_SUBSIDY: int := 50
  const MAX_FUTURE_BLOCK_TIME: int := 7200
  const GENESIS_TIMESTAMP: int := 1788652800
  const GENESIS_PREVIOUS_HASH: string := "0000000000000000000000000000000000000000000000000000000000000000"
  const GENESIS_HASH: string := "14c5baf99007aba3bca5d4a32a5dd2134495a6bdaef5586f515d0f838b654e6a"

  datatype Block = Block(transactions: seq<Transaction>, previousBlockHash: string, timestamp: int,
                         version: int, difficulty: int, nonce: int, merkleRoot: string)

  datatype ChainState = ChainState(utxos: Utxos, seen: set<string>)

  function BlockHash(c: Crypto, b: Block): string {
    c.sha256Hex(c.headerBody(HeaderData(b.version, b.previousBlockHash, b.merkleRoot,
                                        b.timestamp, b.difficulty, b.nonce)))
  }

  /** The hash of the last block. */
  function TipHash(c: Crypto, blocks: seq<Block>): string
    requires blocks != []
  {
    BlockHash(c, blocks[|blocks| - 1])
  }

  function IdList(c: Crypto, txs: seq<Transaction>): (r: seq<string>)
    ensures |r| == |txs| && forall i :: 0 <= i < |r| ==> r[i] == TxId(c, txs[i])
  {
    seq(|txs|, i requires 0 <= i < |txs| => TxId(c, txs[i]))
  }

  predicate ValidDifficulty(difficulty: int) {
    1 <= difficulty <= MAX_TARGET
  }

  function HexDigit(d: char): int {
    if '0' <= d <= '9' then d as int - '0' as int else d as int - 'a' as int + 10
  }

  function HexValue(s: string): int {
    if s == [] then 0 else 16 * HexValue(s[..|s| - 1]) + HexDigit(s[|s| - 1])
  }

  /** `validate_proof_of_work` */
  predicate MeetsTarget(c: Crypto, b: Block) {
    && 0 <= b.nonce <= MAX_NONCE
    && IsHash(BlockHash(c, b))
    && ValidDifficulty(b.difficulty)
    && HexValue(BlockHash(c, b)) < MAX_TARGET / b.difficulty
  }

  /** `validate_block_structure` */
  predicate ValidStructure(c: Crypto, b: Block) {
    && b.version == 1
    && b.timestamp >= 0
    && ValidDifficulty(b.difficulty)
    && 0 <= b.nonce <= MAX_NONCE
    && IsHash(b.previousBlockHash)
    && IsHash(b.merkleRoot)
    && (forall i :: 0 <= i < |b.transactions| ==> IsHash(TxId(c, b.transactions[i])))
    && DistinctStrings(IdList(c, b.transactions))
    && b.merkleRoot == Merkle.Root(c, IdList(c, b.transactions))
  }

  predicate ValidCoinbaseStructure(c: Crypto, tx: Transaction, blockTimestamp: int) {
    && blockTimestamp >= 0
    && tx.inputs == []
    && tx.version == 1
    && tx.timestamp == blockTimestamp
    && |tx.outputs| == 1
    && IsValidOutput(c, tx.outputs[0])
  }

  /** The reward cap, with fees verified by the caller. */
  predicate ValidCoinbase(c: Crypto, tx: Transaction, blockTimestamp: int, totalFees: int) {
    && totalFees >= 0
    && ValidCoinbaseStructure(c, tx, blockTimestamp)
    && tx.outputs[0].amount <= BLOCK_SUBSIDY + totalFees
  }

  /** `validate_non_genesis_block_body` */
  predicate ValidBody(c: Crypto, b: Block) {
    && b.transactions != []
    && ValidCoinbaseStructure(c, b.transactions[0], b.timestamp)
    && forall i :: 1 <= i < |b.transactions| ==> b.transactions[i].inputs != []
  }

  /** `validate_block_header` at clock `now` */
  predicate ValidHeader(c: Crypto, b: Block, previous: Block, now: int) {
    && ValidStructure(c, previous)
    && ValidStructure(c, b)
    && b.previousBlockHash == BlockHash(c, previous)
    && b.timestamp >= previous.timestamp
    && b.timestamp <= now + MAX_FUTURE_BLOCK_TIME
    && b.difficulty == MINING_DIFFICULTY
    && ValidBody(c, b)
    && MeetsTarget(c, b)
  }

  /** `apply_block_transactions`: regular transactions first, the coinbase output last. */
  function ApplyBlock(c: Crypto, b: Block, state: ChainState): Option<ChainState> {
    if b.transactions == [] || TxId(c, b.transactions[0]) in state.seen then None
    else match ApplyAll(c, b.transactions[1..], state.utxos, state.seen)
      case None => None
      case Some(batch) =>
        var coinbase := b.transactions[0];
        if || TxId(c, coinbase) in batch.seen
           || !ValidCoinbase(c, coinbase, b.timestamp, batch.fees)
           || !(Created(c, coinbase).Keys !! batch.utxos.Keys)
        then None
        else Some(ChainState(batch.utxos + Created(c, coinbase), batch.seen + {TxId(c, coinbase)}))
  }

  function ValidateAndApply(c: Crypto, b: Block, previous: Block, state: ChainState, now: int): Option<ChainState> {
    if ValidHeader(c, b, previous, now) then ApplyBlock(c, b, state) else None
  }

  predicate IsGenesis(c: Crypto, b: Block) {
    b.transactions == [] && BlockHash(c, b) == GENESIS_HASH
  }

  function GenesisBlock(c: Crypto): Block {
    Block([], GENESIS_PREVIOUS_HASH, GENESIS_TIMESTAMP, 1, 1, 0, Merkle.Root(c, []))
  }

  const EmptyState: ChainState := ChainState(map[], {})

  /** Hashes of the first `n` blocks. */
  function Hashes(c: Crypto, blocks: seq<Block>, n: nat): set<string>
    requires n <= |blocks|
  {
    if n == 0 then {} else Hashes(c, blocks, n - 1) + {BlockHash(c, blocks[n - 1])}
  }

  lemma {:induction false} HashMembers(c: Crypto, blocks: seq<Block>, n: nat, hash: string)
    requires n <= |blocks|
    ensures hash in Hashes(c, blocks, n) <==> exists i :: 0 <= i < n && BlockHash(c, blocks[i]) == hash
  {
    if n > 0 {
      HashMembers(c, blocks, n - 1, hash);
    }
  }

  /** `rebuild_chain_state` on the first `n` blocks. */
  function Replay(c: Crypto, blocks: seq<Block>, n: nat, now: int): Option<ChainState>
    requires n <= |blocks|
  {
    if n == 0 then None
    else if n == 1 then
      if ValidStructure(c, blocks[0]) && IsGenesis(c, blocks[0]) then Some(EmptyState) else None
    else match Replay(c, blocks, n - 1, now)
      case None => None
      case Some(state) =>
        if BlockHash(c, blocks[n - 1]) in Hashes(c, blocks, n - 1) then None
        else ValidateAndApply(c, blocks[n - 1], blocks[n - 2], state, now)
  }

  // ---- the imperative code --------------------------------------------------------

  method ApplyBlockTransactions(c: Crypto, b: Block, utxoSet: UTXOSet, seen: set<string>)
    returns (ok: bool, next: UTXOSet, nextSeen: set<string>)
    ensures fresh(next)
    ensures ApplyBlock(c, b, ChainState(utxoSet.utxos, seen))
         == if ok then Some(ChainState(next.utxos, nextSeen)) else None
  {
    hide ApplyAll, ValidCoinbase, Created;
    ok, nextSeen := false, seen;
    if b.transactions == [] || TxId(c, b.transactions[0]) in seen {
      next := new UTXOSet();
      return;
    }
    var coinbase := b.transactions[0];
    var applied, working, recorded, fees := ApplyTransactions(c, b.transactions[1..], utxoSet, seen);
    next := working;
    if !applied || TxId(c, coinbase) in recorded || !ValidCoinbase(c, coinbase, b.timestamp, fees) {
      return;
    }
    var added := next.AddTransactionOutputs(c, coinbase);
    if !added {
      return;
    }
    ok, nextSeen := true, recorded + {TxId(c, coinbase)};
  }

  lemma {:induction false} ReplayFailsLater(c: Crypto, blocks: seq<Block>, k: nat, n: nat, now: int)
    requires k <= n <= |blocks| && k > 0 && Replay(c, blocks, k, now).None?
    ensures Replay(c, blocks, n, now).None?
  {
    hide ValidateAndApply, ValidStructure, Hashes;
    if k < n {
      ReplayFailsLater(c, blocks, k, n - 1, now);
    }
  }

  lemma ReplayOneMore(c: Crypto, blocks: seq<Block>, i: nat, now: int)
    requires 1 <= i < |blocks| && Replay(c, blocks, i, now).Some?
    ensures Replay(c, blocks, i + 1, now)
         == if BlockHash(c, blocks[i]) in Hashes(c, blocks, i) then None
            else ValidateAndApply(c, blocks[i], blocks[i - 1], Replay(c, blocks, i, now).value, now)
    ensures Hashes(c, blocks, i + 1) == Hashes(c, blocks, i) + {BlockHash(c, blocks[i])}
  {
    hide ValidStructure, ValidateAndApply;
  }

  lemma StartOfReplay(c: Crypto, blocks: seq<Block>, now: int)
    ensures Replay(c, blocks, 0, now) == None
    ensures blocks != [] ==>
      Replay(c, blocks, 1, now)
      == (if ValidStructure(c, blocks[0]) && IsGenesis(c, blocks[0]) then Some(EmptyState) else None)
    ensures blocks != [] ==> Hashes(c, blocks, 1) == {BlockHash(c, blocks[0])}
  {
    hide ValidStructure;
  }

  method RebuildChainState(c: Crypto, blocks: seq<Block>, now: int)
    returns (ok: bool, utxoSet: UTXOSet, seen: set<string>)
    ensures fresh(utxoSet)
    ensures Replay(c, blocks, |blocks|, now)
         == if ok then Some(ChainState(utxoSet.utxos, seen)) else None
  {
    hide ValidStructure, ValidateAndApply, IsGenesis, Replay, Hashes;
    StartOfReplay(c, blocks, now);
    utxoSet := new UTXOSet();
    ok, seen := false, {};
    if blocks == [] {
      return;
    }
    if !ValidStructure(c, blocks[0]) || !IsGenesis(c, blocks[0]) {
      ReplayFailsLater(c, blocks, 1, |blocks|, now);
      return;
    }
    var seenHashes := {BlockHash(c, blocks[0])};
    for i := 1 to |blocks|
      invariant fresh(utxoSet)
      invariant seenHashes == Hashes(c, blocks, i)
      invariant Replay(c, blocks, i, now) == Some(ChainState(utxoSet.utxos, seen))
    {
      var hash := BlockHash(c, blocks[i]);
      var accepted, next, nextSeen := ValidateAndApplyBlock(c, blocks[i], blocks[i - 1], utxoSet, seen, now);
      ReplayOneMore(c, blocks, i, now);
      if !accepted || hash in seenHashes {
        ReplayFailsLater(c, blocks, i + 1, |blocks|, now);
        return;
      }
      seenHashes := seenHashes + {hash};
      utxoSet, seen := next, nextSeen;
    }
    ok := true;
  }

  method ValidateAndApplyBlock(c: Crypto, b: Block, previous: Block, utxoSet: UTXOSet, seen: set<string>, now: int)
    returns (ok: bool, next: UTXOSet, nextSeen: set<string>)
    ensures fresh(next)
    ensures ValidateAndApply(c, b, previous, ChainState(utxoSet.utxos, seen), now)
         == if ok then Some(ChainState(next.utxos, nextSeen)) else None
  {
    hide ApplyBlock, ValidHeader;
    if ValidHeader(c, b, previous, now) {
      ok, next, nextSeen := ApplyBlockTransactions(c, b, utxoSet, seen);
    } else {
      ok, nextSeen := false, seen;
      next := new UTXOSet();
    }
  }

  // ---- facts about replay ----------------------------------------------------------

  /** A block accepted once is accepted at any later clock. */
  lemma {:induction false} ReplayLaterClock(c: Crypto, blocks: seq<Block>, n: nat, now: int, later: int)
    requires n <= |blocks| && now <= later && Replay(c, blocks, n, now).Some?
    ensures Replay(c, blocks, n, later) == Replay(c, blocks, n, now)
  {
    hide ValidStructure, ApplyBlock, ValidBody, MeetsTarget, Hashes;
    if n > 1 {
      ReplayLaterClock(c, blocks, n - 1, now, later);
    }
  }

  lemma {:induction false} HashesPrefix(c: Crypto, xs: seq<Block>, ys: seq<Block>, n: nat)
    requires n <= |xs| && n <= |ys| && forall i :: 0 <= i < n ==> xs[i] == ys[i]
    ensures Hashes(c, xs, n) == Hashes(c, ys, n)
  {
    if n > 0 {
      HashesPrefix(c, xs, ys, n - 1);
    }
  }

  lemma {:induction false} ReplayPrefix(c: Crypto, xs: seq<Block>, ys: seq<Block>, n: nat, now: int)
    requires n <= |xs| && n <= |ys| && forall i :: 0 <= i < n ==> xs[i] == ys[i]
    ensures Replay(c, xs, n, now) == Replay(c, ys, n, now)
  {
    hide ValidStructure, ValidateAndApply;
    if n > 1 {
      ReplayPrefix(c, xs, ys, n - 1, now);
      HashesPrefix(c, xs, ys, n - 1);
    }
  }

  lemma ApplyBlockAnchored(c: Crypto, b: Block, state: ChainState)
    requires Anchored(state.utxos, state.seen) && ApplyBlock(c, b, state).Some?
    ensures Anchored(ApplyBlock(c, b, state).value.utxos, ApplyBlock(c, b, state).value.seen)
  {
    hide ValidCoinbase, Everything, Spent, ApplyFirst, Fits;
    var txs := b.transactions[1..];
    SequentialIsStatic(c, txs, |txs|, state.utxos, state.seen);
    EverythingAnchored(c, txs, |txs|, state.utxos, state.seen);
  }

  /** In every state reached by replay each unspent output has a recorded creator. */
  lemma {:induction false} ReplayAnchored(c: Crypto, blocks: seq<Block>, n: nat, now: int)
    requires n <= |blocks| && Replay(c, blocks, n, now).Some?
    ensures Anchored(Replay(c, blocks, n, now).value.utxos, Replay(c, blocks, n, now).value.seen)
  {
    hide ValidHeader, ValidStructure, ApplyBlock, Hashes;
    if n > 1 {
      ReplayAnchored(c, blocks, n - 1, now);
      ApplyBlockAnchored(c, blocks[n - 1], Replay(c, blocks, n - 1, now).value);
    }
  }
}
