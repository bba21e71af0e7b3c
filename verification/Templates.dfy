/** Block templates from the pool (mining/block_template.py, blockchain/blockchain.py). */
module Templates {
  import opened Prelude
  import opened Transactions
  import opened Utxo
  import opened Validation
  import opened Processing
  import opened Reordering
  import opened Mempools
  import opened Survivors
  import opened Selection
  import opened Blocks
  import opened PoolTheorems
  import opened Chains
  import opened Supply
  import Merkle

  datatype Refusal =
    | BadPreviousTimestamp | BadTimestamp | EarlierThanPrevious | MissingInputs
    | InvalidTransactions | BadAddress | BadFees | CoinbaseExists | BadDifficulty

  datatype Outcome = Template(block: Block) | Refused(reason: Refusal)

  function CoinbaseTransaction(address: string, timestamp: int, fees: int): Transaction {
    Transaction([], [TxOutput(BLOCK_SUBSIDY + fees, address)], timestamp, 1)
  }

  /** The block time: the caller's, or the clock but later than the previous block. */
  function BlockTime(previous: Block, timestamp: Option<int>, clock: nat): int {
    match timestamp
    case Some(t) => t
    case None => if clock > previous.timestamp + 1 then clock else previous.timestamp + 1
  }

  function NewBlock(c: Crypto, previous: Block, txs: seq<Transaction>, timestamp: int): Block {
    Block(txs, BlockHash(c, previous), timestamp, 1, MINING_DIFFICULTY, 0, Merkle.Root(c, IdList(c, txs)))
  }

  /** `create_block_template` with the parent's ledger state supplied. */
  function CreateTemplate(c: Crypto, previous: Block, address: string, txs: seq<Transaction>,
                          timestamp: Option<int>, clock: nat, state: ChainState): Outcome {
    var time := BlockTime(previous, timestamp, clock);
    if previous.timestamp < 0 then Refused(BadPreviousTimestamp)
    else if timestamp.Some? && timestamp.value < 0 then Refused(BadTimestamp)
    else if time < previous.timestamp then Refused(EarlierThanPrevious)
    else if exists i :: 0 <= i < |txs| && txs[i].inputs == [] then Refused(MissingInputs)
    else match ApplyAll(c, txs, state.utxos, state.seen)
      case None => Refused(InvalidTransactions)
      case Some(batch) =>
        if !ValidAddress(c, address) then Refused(BadAddress)
        else if batch.fees < 0 then Refused(BadFees)
        else
          var coinbase := CoinbaseTransaction(address, time, batch.fees);
          if TxId(c, coinbase) in batch.seen then Refused(CoinbaseExists)
          else if !ValidDifficulty(previous.difficulty) then Refused(BadDifficulty)
          else Template(NewBlock(c, previous, [coinbase] + txs, time))
  }

  /** Fees of an accepted batch are never negative. */
  lemma {:induction false} FeesNonNegative(c: Crypto, txs: seq<Transaction>, n: nat, u: Utxos, seen: set<string>)
    requires n <= |txs| && ApplyFirst(c, txs, n, u, seen).Some?
    ensures ApplyFirst(c, txs, n, u, seen).value.fees >= 0
    ensures forall i :: 0 <= i < n ==> txs[i].inputs != []
  {
    hide Applied, CanApply, InputOk, Fee;
    if n > 0 {
      FeesNonNegative(c, txs, n - 1, u, seen);
    }
  }

  /**
   A template over the pool's own selection is refused only for a bad timestamp, a bad
   address or a coinbase identifier that is already used; otherwise the block holds the
   selection after a coinbase of 50 plus the stored fees.
   */
  lemma MempoolTemplate(c: Crypto, p: Pool, picks: seq<Entry>, maxTransactions: int, maxBytes: int,
                        previous: Block, address: string, timestamp: Option<int>, clock: nat, state: ChainState)
    requires Sound(c, p) && p.confirmed == state.utxos && p.seen == state.seen && maxBytes >= 0
    requires GreedyRun(p.entries, picks, maxTransactions, maxBytes) && ValidStructure(c, previous)
    ensures var time := BlockTime(previous, timestamp, clock);
      var coinbase := CoinbaseTransaction(address, time, FeeTotal(picks, |picks|));
      var outcome := CreateTemplate(c, previous, address, Pending(picks), timestamp, clock, state);
      && (outcome.Refused? <==>
            || (timestamp.Some? && timestamp.value < previous.timestamp)
            || !ValidAddress(c, address)
            || TxId(c, coinbase) in state.seen + TxIds(c, Pending(picks), |picks|))
      && (outcome.Template? ==> outcome.block == NewBlock(c, previous, [coinbase] + Pending(picks), time))
  {
    hide ApplyFirst, Sound, GreedyRun, TxIds, ValidAddress, ValidStructure, NewBlock, CoinbaseTransaction,
      CreateTemplate;
    SelectionApplies(c, p, picks, maxTransactions, maxBytes);
    FeesNonNegative(c, Pending(picks), |picks|, p.confirmed, p.seen);
    TemplateOutcome(c, previous, address, Pending(picks), timestamp, clock, state,
                    ApplyAll(c, Pending(picks), state.utxos, state.seen).value);
  }

  /** For an accepted batch of spending transactions only three causes of refusal are left. */
  lemma TemplateOutcome(c: Crypto, previous: Block, address: string, txs: seq<Transaction>, timestamp: Option<int>,
                        clock: nat, state: ChainState, batch: Batch)
    requires ValidStructure(c, previous) && ApplyAll(c, txs, state.utxos, state.seen) == Some(batch) && batch.fees >= 0
    requires forall i :: 0 <= i < |txs| ==> txs[i].inputs != []
    ensures var time := BlockTime(previous, timestamp, clock);
      var coinbase := CoinbaseTransaction(address, time, batch.fees);
      var outcome := CreateTemplate(c, previous, address, txs, timestamp, clock, state);
      && (outcome.Refused? <==>
            || (timestamp.Some? && timestamp.value < previous.timestamp)
            || !ValidAddress(c, address)
            || TxId(c, coinbase) in batch.seen)
      && (outcome.Template? ==> outcome.block == NewBlock(c, previous, [coinbase] + txs, time))
  {
    hide ApplyAll, ValidAddress, ValidStructure, NewBlock, CoinbaseTransaction, ValidDifficulty;
    SoundPrevious(c, previous);
  }

  /** One coinbase of 50 plus the fees to the miner, at the block's time, before the given transactions. */
  predicate OffersReward(b: Block, address: string, time: int, fees: int, txs: seq<Transaction>) {
    && b.transactions != [] && b.transactions[1..] == txs && b.timestamp == time
    && b.transactions[0].inputs == [] && b.transactions[0].timestamp == time
    && b.transactions[0].outputs == [TxOutput(50 + fees, address)]
  }

  /**
   A template pays the miner 50 plus exactly the fees its transactions leave on the parent's
   ledger: mined, it takes the whole reward its block allows.
   */
  lemma TemplateReward(c: Crypto, previous: Block, address: string, txs: seq<Transaction>, timestamp: Option<int>,
                       clock: nat, state: ChainState)
    ensures var outcome := CreateTemplate(c, previous, address, txs, timestamp, clock, state);
      outcome.Template? ==>
        && ApplyAll(c, txs, state.utxos, state.seen).Some?
        && OffersReward(outcome.block, address, BlockTime(previous, timestamp, clock),
                        ApplyAll(c, txs, state.utxos, state.seen).value.fees, txs)
        && CoinbaseAmount(outcome.block) == 50 + BlockFees(c, outcome.block, state)
        && outcome.block.previousBlockHash == BlockHash(c, previous)
  {
    hide ApplyFirst, ValidAddress, ValidDifficulty;
    var outcome := CreateTemplate(c, previous, address, txs, timestamp, clock, state);
    if outcome.Template? {
      var b := outcome.block;
      assert b.transactions[1..] == txs;
      assert OutputTotal(b.transactions[0].outputs, 1) == b.transactions[0].outputs[0].amount;
    }
  }

  lemma SoundPrevious(c: Crypto, previous: Block)
    requires ValidStructure(c, previous)
    ensures previous.timestamp >= 0 && ValidDifficulty(previous.difficulty)
  {
  }

  lemma {:induction false} TreeIsHash(c: Crypto, leaves: seq<string>, d: nat)
    requires DigestLaw(c) && 1 <= |leaves| <= Merkle.Pow2(d)
    requires forall i :: 0 <= i < |leaves| ==> IsHash(leaves[i])
    ensures IsHash(Merkle.PaddedTree(c, leaves, d))
  {
    hide IsHash;
    if d > 0 {
      assert forall l, r :: IsHash(Merkle.Combine(c, l, r));
    }
  }

  lemma RootIsHash(c: Crypto, txs: seq<Transaction>)
    requires DigestLaw(c)
    ensures IsHash(Merkle.Root(c, IdList(c, txs)))
  {
    hide IsHash;
    var ids := IdList(c, txs);
    if ids != [] {
      Merkle.DepthBound(|ids|);
      forall i | 0 <= i < |ids| ensures IsHash(ids[i]) {
        assert ids[i] == TxId(c, txs[i]);
      }
      TreeIsHash(c, ids, Merkle.Depth(|ids|));
    }
  }

  /** The block is the offered template with some nonce filled in. */
  predicate MinedFrom(c: Crypto, outcome: Outcome, mined: Block) {
    outcome.Template? && mined == outcome.block.(nonce := mined.nonce)
  }

  /** A template, mined, passes every consensus check of the chain it was built on. */
  lemma MinedTemplateAccepted(c: Crypto, previous: Block, address: string, txs: seq<Transaction>,
                              timestamp: Option<int>, clock: nat, state: ChainState, mined: Block, now: int)
    requires DigestLaw(c) && ValidStructure(c, previous) && Anchored(state.utxos, state.seen)
    requires MinedFrom(c, CreateTemplate(c, previous, address, txs, timestamp, clock, state), mined)
    requires MeetsTarget(c, mined) && mined.timestamp <= now + MAX_FUTURE_BLOCK_TIME
    ensures ValidateAndApply(c, mined, previous, state, now).Some?
  {
    hide ApplyFirst, TxIds, ValidAddress, IsHash, HexValue, Created;
    var batch := ApplyAll(c, txs, state.utxos, state.seen).value;
    var coinbase := mined.transactions[0];
    assert mined.transactions[1..] == txs;
    FeesNonNegative(c, txs, |txs|, state.utxos, state.seen);
    TemplateBody(c, mined, coinbase, txs, batch, state);
    RootIsHash(c, mined.transactions);
    TemplateStructure(c, previous, mined, coinbase, txs, batch, state);
  }

  lemma TemplateBody(c: Crypto, mined: Block, coinbase: Transaction, txs: seq<Transaction>, batch: Batch,
                     state: ChainState)
    requires ApplyAll(c, txs, state.utxos, state.seen) == Some(batch) && Anchored(state.utxos, state.seen)
    requires mined.transactions == [coinbase] + txs && TxId(c, coinbase) !in batch.seen
    requires ValidCoinbase(c, coinbase, mined.timestamp, batch.fees)
    ensures ApplyBlock(c, mined, state).Some?
    ensures ValidBody(c, mined)
  {
    hide ApplyFirst, ValidAddress, Everything, Spent, TxIds, Replayable;
    assert mined.transactions[1..] == txs;
    SequentialIsStatic(c, txs, |txs|, state.utxos, state.seen);
    EverythingAnchored(c, txs, |txs|, state.utxos, state.seen);
    CreatedFresh(c, coinbase, batch.utxos, batch.seen);
    FeesNonNegative(c, txs, |txs|, state.utxos, state.seen);
    forall i | 1 <= i < |mined.transactions| ensures mined.transactions[i].inputs != [] {
      assert mined.transactions[i] == txs[i - 1];
    }
  }

  lemma TemplateStructure(c: Crypto, previous: Block, mined: Block, coinbase: Transaction, txs: seq<Transaction>,
                          batch: Batch, state: ChainState)
    requires DigestLaw(c) && Anchored(state.utxos, state.seen)
    requires ApplyAll(c, txs, state.utxos, state.seen) == Some(batch)
    requires mined.transactions == [coinbase] + txs && TxId(c, coinbase) !in batch.seen
    requires mined.version == 1 && mined.timestamp >= 0 && mined.difficulty == MINING_DIFFICULTY
    requires 0 <= mined.nonce <= MAX_NONCE && mined.previousBlockHash == BlockHash(c, previous)
    requires mined.merkleRoot == Merkle.Root(c, IdList(c, mined.transactions)) && IsHash(mined.merkleRoot)
    ensures ValidStructure(c, mined)
  {
    hide ApplyFirst, Everything, Spent, TxIds, IsHash, Replayable;
    var ids := IdList(c, mined.transactions);
    SequentialIsStatic(c, txs, |txs|, state.utxos, state.seen);
    ReplayableIds(c, txs, |txs|, state.utxos, state.seen);
    IdMembers(c, txs, |txs|);
    forall i, j | 0 <= i < j < |ids| ensures ids[i] != ids[j] {
      assert mined.transactions[j] == txs[j - 1];
      if i > 0 {
        assert mined.transactions[i] == txs[i - 1];
      }
    }
  }

  /** Every check of `add_block` except the search for an equal hash passes on the mined template. */
  lemma MinedRound(c: Crypto, p: Pool, picks: seq<Entry>, maxTransactions: int, maxBytes: int,
                   previous: Block, address: string, timestamp: Option<int>, clock: nat,
                   state: ChainState, mined: Block, now: int)
    requires DigestLaw(c) && ValidStructure(c, previous)
    requires Sound(c, p) && p.confirmed == state.utxos && p.seen == state.seen && maxBytes >= 0
    requires GreedyRun(p.entries, picks, maxTransactions, maxBytes)
    requires MinedFrom(c, CreateTemplate(c, previous, address, Pending(picks), timestamp, clock, state), mined)
    requires MeetsTarget(c, mined) && mined.timestamp <= now + MAX_FUTURE_BLOCK_TIME
    requires mined.transactions != [] && TxId(c, mined.transactions[0]) !in EntryIds(p.entries, |p.entries|)
    ensures ValidateAndApply(c, mined, previous, state, now).Some?
    ensures var next := ApplyBlock(c, mined, state).value;
      Revalidated(c, p, next.utxos, next.seen).entries
      == Unselected(p.entries, |p.entries|, TxIds(c, Pending(picks), |picks|))
  {
    hide ApplyAll, Sound, GreedyRun, TxIds, CreateTemplate, MeetsTarget, ParentsFirst, EntryIds, ApplyBlock,
         Revalidated, Unselected, ValidStructure, ValidHeader, PoolOn, DigestLaw;
    TemplateTransactions(c, previous, address, Pending(picks), timestamp, clock, state);
    SoundAnchored(c, p);
    MinedTemplateAccepted(c, previous, address, Pending(picks), timestamp, clock, state, mined, now);
    RunParentsFirst(c, p, picks, maxTransactions, maxBytes);
    OwnPoolOn(c, p, mined, state, picks);
    OwnBlockLeavesUnselected(c, p, mined, state);
  }

  /** The last block of a replayed chain has a valid structure. */
  lemma TipIsValid(c: Crypto, ch: Chain, at: int)
    requires ChainInv(c, ch, at)
    ensures ch.blocks != [] && ValidStructure(c, ch.blocks[|ch.blocks| - 1])
  {
    hide PoolInv, ValidStructure, ApplyBlock, Hashes, ValidBody, MeetsTarget;
  }

  /**
   Mining the node's own selection: the block is added exactly when its hash is new, and then
   exactly the unselected entries stay pending.  The new coinbase must not share its
   identifier with a pending transaction.
   */
  lemma OwnTemplateRound(c: Crypto, ch: Chain, at: int, picks: seq<Entry>, maxTransactions: int, maxBytes: int,
                         address: string, timestamp: Option<int>, clock: nat, mined: Block, now: nat)
    requires DigestLaw(c) && ChainInv(c, ch, at) && ch.blocks != [] && maxBytes >= 0
    requires GreedyRun(ch.pool.entries, picks, maxTransactions, maxBytes)
    requires MinedFrom(c,
      CreateTemplate(c, ch.blocks[|ch.blocks| - 1], address, Pending(picks), timestamp, clock, ch.state),
                       mined)
    requires MeetsTarget(c, mined) && mined.timestamp <= now + MAX_FUTURE_BLOCK_TIME
    requires mined.transactions != [] && TxId(c, mined.transactions[0]) !in EntryIds(ch.pool.entries, |ch.pool.entries|)
    ensures AcceptsBlock(c, ch, mined, now) <==> BlockHash(c, mined) !in Hashes(c, ch.blocks, |ch.blocks|)
    ensures AcceptsBlock(c, ch, mined, now) ==>
      && BlockAdded(c, ch, mined, now).blocks == ch.blocks + [mined]
      && BlockAdded(c, ch, mined, now).pool.entries
         == Unselected(ch.pool.entries, |ch.pool.entries|, TxIds(c, Pending(picks), |picks|))
  {
    hide Sound, GreedyRun, TxIds, CreateTemplate, MeetsTarget, EntryIds, ApplyBlock, Revalidated, Unselected,
         ValidStructure, ValidHeader, DigestLaw, Replay, PoolInv, Hashes;
    TipIsValid(c, ch, at);
    ChainSound(c, ch, at);
    MinedRound(c, ch.pool, picks, maxTransactions, maxBytes, ch.blocks[|ch.blocks| - 1], address, timestamp, clock,
               ch.state, mined, now);
  }

  /** `create_mempool_block_template`; None stands for the ValueError on a negative limit. */
  method CreateMempoolBlockTemplate(c: Crypto, chain: Blockchain, address: string, timestamp: Option<int>,
                                    maxTransactions: int, maxBytes: int, clock: nat, ghost at: int)
    returns (outcome: Option<Outcome>, ghost picks: seq<Entry>)
    requires chain.blocks != [] && ChainInv(c, chain.Model(), at)
    ensures outcome.None? <==> maxTransactions < 0 || maxBytes < 0
    ensures Rankable(chain.mempool.entries)
    ensures outcome.Some? ==> PickedByRate(chain.mempool.entries, picks, maxTransactions, maxBytes)
    ensures outcome.Some? ==>
      var previous := chain.blocks[|chain.blocks| - 1];
      var time := BlockTime(previous, timestamp, clock);
      var coinbase := CoinbaseTransaction(address, time, FeeTotal(picks, |picks|));
      && GreedyRun(chain.mempool.entries, picks, maxTransactions, maxBytes)
      && (outcome.value.Refused? <==>
            || (timestamp.Some? && timestamp.value < previous.timestamp)
            || !ValidAddress(c, address)
            || TxId(c, coinbase) in chain.seen + TxIds(c, Pending(picks), |picks|))
      && (outcome.value.Template? ==> outcome.value.block == NewBlock(c, previous, [coinbase] + Pending(picks), time))
      && (outcome.value.Template? ==>
            OffersReward(outcome.value.block, address, time, FeeTotal(picks, |picks|), Pending(picks)))
  {
    hide Sound, GreedyRun, CreateTemplate, ValidStructure, Replay, PoolInv, TxIds, ValidAddress, NewBlock, OffersReward,
      PickedByRate, Rankable, ApplyFirst;
    ghost var ch := chain.Model();
    TipIsValid(c, ch, at);
    ChainSound(c, ch, at);
    var selected;
    selected, picks := SelectFromPool(c, chain.mempool, maxTransactions, maxBytes);
    if selected.None? {
      return None, picks;
    }
    var previous := chain.blocks[|chain.blocks| - 1];
    var state := ChainState(chain.utxoSet.utxos, chain.seen);
    outcome := Some(CreateTemplate(c, previous, address, selected.value, timestamp, clock, state));
    MempoolTemplate(c, ch.pool, picks, maxTransactions, maxBytes, previous, address, timestamp, clock, state);
    TemplateReward(c, previous, address, selected.value, timestamp, clock, state);
  }

  lemma TemplateTransactions(c: Crypto, previous: Block, address: string, txs: seq<Transaction>,
                             timestamp: Option<int>, clock: nat, state: ChainState)
    ensures var outcome := CreateTemplate(c, previous, address, txs, timestamp, clock, state);
      outcome.Template? ==> outcome.block.transactions != [] && outcome.block.transactions[1..] == txs
  {
    hide ApplyAll, ValidAddress;
  }

  lemma SoundAnchored(c: Crypto, p: Pool)
    requires Sound(c, p)
    ensures Anchored(p.confirmed, p.seen)
  {
    hide PoolInv;
  }

  lemma RunParentsFirst(c: Crypto, p: Pool, picks: seq<Entry>, maxTransactions: int, maxBytes: int)
    requires Sound(c, p) && GreedyRun(p.entries, picks, maxTransactions, maxBytes)
    ensures ParentsFirst(c, Pending(p.entries), Pending(picks))
  {
    hide ParentsFirst, Sound, GreedyPicks, NoCandidate;
    PicksParentsFirst(c, p, picks, maxBytes);
  }

  lemma OwnPoolOn(c: Crypto, p: Pool, b: Block, state: ChainState, picks: seq<Entry>)
    requires Sound(c, p) && p.confirmed == state.utxos && p.seen == state.seen
    requires b.transactions != [] && b.transactions[1..] == Pending(picks) && ApplyBlock(c, b, state).Some?
    requires ParentsFirst(c, Pending(p.entries), Pending(picks))
    requires TxId(c, b.transactions[0]) !in EntryIds(p.entries, |p.entries|)
    ensures PoolOn(c, p, b, state)
  {
    hide ApplyBlock, PoolInv, Points, TxIds, EntryIds, Replayable;
    var txs := Pending(p.entries);
    SoundReplayable(c, p);
    ReplayableIds(c, txs, |txs|, p.confirmed, p.seen);
    EntryIdMembers(p.entries, |p.entries|);
    forall i, j | 0 <= i < |b.transactions| && 0 <= j < |p.entries| && TxId(c, b.transactions[i]) == TxId(c, txs[j])
      ensures b.transactions[i] == txs[j]
    {
      assert p.entries[j].txid == TxId(c, txs[j]);
      if i > 0 {
        assert b.transactions[i] == b.transactions[1..][i - 1] == Pending(picks)[i - 1];
        SameId(c, txs, b.transactions[i], j);
      }
    }
  }
}
