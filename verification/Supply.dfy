/** Conservation of value over whole chains (transaction/validation.py, mining/coinbase.py). */
module Supply {
  import opened Transactions
  import opened Utxo
  import opened Validation
  import opened Processing
  import opened Blocks

  /** Total amount held by a set of outputs. */
  ghost function Sum(u: Utxos): int {
    if u == map[] then 0
    else
      var o :| o in u;
      u[o].amount + Sum(u - {o})
  }

  lemma {:induction false} SumRemove(u: Utxos, o: Outpoint)
    requires o in u
    ensures Sum(u) == u[o].amount + Sum(u - {o})
  {
    var q :| q in u && Sum(u) == u[q].amount + Sum(u - {q});
    if q != o {
      SumRemove(u - {q}, o);
      SumRemove(u - {o}, q);
      assert (u - {q}) - {o} == (u - {o}) - {q};
    }
  }

  lemma SumInsert(u: Utxos, o: Outpoint, output: TxOutput)
    requires o !in u
    ensures Sum(u[o := output]) == Sum(u) + output.amount
  {
    SumRemove(u[o := output], o);
    assert u[o := output] - {o} == u;
  }

  lemma {:induction false} SumWithoutInputs(inputs: seq<TxInput>, n: nat, u: Utxos)
    requires n <= |inputs| && DistinctPoints(inputs) && PointSet(inputs, n) <= u.Keys
    ensures Sum(u - PointSet(inputs, n)) == Sum(u) - InputTotal(inputs, n, u)
  {
    if n == 0 {
      assert u - PointSet(inputs, 0) == u;
    } else {
      SumWithoutInputs(inputs, n - 1, u);
      var rest, o := u - PointSet(inputs, n - 1), inputs[n - 1].Point();
      PointMembers(inputs, n - 1);
      SumRemove(rest, o);
      assert rest - {o} == u - PointSet(inputs, n);
    }
  }

  lemma OutputsNext(txid: string, outputs: seq<TxOutput>, n: nat)
    requires n < |outputs|
    ensures OutputsOf(txid, outputs[..n + 1]) == OutputsOf(txid, outputs[..n])[Outpoint(txid, n) := outputs[n]]
  {
    hide OutputsOf;
  }

  lemma {:induction false} SumWithOutputs(u: Utxos, txid: string, outputs: seq<TxOutput>, n: nat)
    requires n <= |outputs| && OutputsOf(txid, outputs).Keys !! u.Keys
    ensures Sum(u + OutputsOf(txid, outputs[..n])) == Sum(u) + OutputTotal(outputs, n)
  {
    hide OutputsOf, Sum;
    if n == 0 {
      assert u + OutputsOf(txid, outputs[..0]) == u;
    } else {
      SumWithOutputs(u, txid, outputs, n - 1);
      var o, few := Outpoint(txid, n - 1), OutputsOf(txid, outputs[..n - 1]);
      assert o in OutputsOf(txid, outputs) && o !in few;
      SumInsert(u + few, o, outputs[n - 1]);
      OutputsNext(txid, outputs, n - 1);
      MoveInsert(u, few, o, outputs[n - 1]);
    }
  }

  lemma MoveInsert(u: Utxos, few: Utxos, o: Outpoint, output: TxOutput)
    ensures u + few[o := output] == (u + few)[o := output]
  {
  }

  /** A transaction that can be applied changes the total by exactly its fee. */
  lemma AppliedLosesFee(c: Crypto, u: Utxos, tx: Transaction)
    requires CanApply(c, u, tx)
    ensures Sum(Applied(c, u, tx)) == Sum(u) - Fee(tx, u)
  {
    hide OutputsOf, PointSet, InputTotal, OutputTotal;
    SumWithoutInputs(tx.inputs, |tx.inputs|, u);
    SumWithOutputs(u - Points(tx), TxId(c, tx), tx.outputs, |tx.outputs|);
    assert tx.outputs[..|tx.outputs|] == tx.outputs;
  }

  lemma {:induction false} BatchLosesFees(c: Crypto, txs: seq<Transaction>, n: nat, u: Utxos, seen: set<string>)
    requires n <= |txs| && ApplyFirst(c, txs, n, u, seen).Some?
    ensures var b := ApplyFirst(c, txs, n, u, seen).value;
      Sum(b.utxos) == Sum(u) - b.fees && b.fees >= 0
  {
    hide Sum, Applied, CanApply, WellFormed, InputOk, Fee;
    if n > 0 {
      BatchLosesFees(c, txs, n - 1, u, seen);
      AppliedLosesFee(c, ApplyFirst(c, txs, n - 1, u, seen).value.utxos, txs[n - 1]);
    }
  }

  /** Verified fees of the regular transactions of a block on top of `state`. */
  function BlockFees(c: Crypto, b: Block, state: ChainState): int {
    if b.transactions == [] then 0
    else match ApplyAll(c, b.transactions[1..], state.utxos, state.seen)
      case None => 0
      case Some(batch) => batch.fees
  }

  function CoinbaseAmount(b: Block): int {
    if b.transactions == [] then 0 else OutputTotal(b.transactions[0].outputs, |b.transactions[0].outputs|)
  }

  lemma BlockSupply(c: Crypto, b: Block, state: ChainState)
    requires ApplyBlock(c, b, state).Some?
    ensures Sum(ApplyBlock(c, b, state).value.utxos) == Sum(state.utxos) - BlockFees(c, b, state) + CoinbaseAmount(b)
    ensures CoinbaseAmount(b) <= BLOCK_SUBSIDY + BlockFees(c, b, state)
  {
    hide Sum, ApplyFirst, IsValidOutput;
    var txs, coinbase := b.transactions[1..], b.transactions[0];
    var batch := ApplyAll(c, txs, state.utxos, state.seen).value;
    BatchLosesFees(c, txs, |txs|, state.utxos, state.seen);
    SumWithOutputs(batch.utxos, TxId(c, coinbase), coinbase.outputs, |coinbase.outputs|);
    assert coinbase.outputs[..|coinbase.outputs|] == coinbase.outputs;
    assert OutputTotal(coinbase.outputs, 1) == coinbase.outputs[0].amount;
  }

  /** Total minted by the coinbases of the first `n` blocks. */
  function Minted(blocks: seq<Block>, n: nat): int
    requires n <= |blocks|
  {
    if n <= 1 then 0 else Minted(blocks, n - 1) + CoinbaseAmount(blocks[n - 1])
  }

  /** Total fees verified while replaying the first `n` blocks. */
  function FeesPaid(c: Crypto, blocks: seq<Block>, n: nat, now: int): int
    requires n <= |blocks|
  {
    if n <= 1 then 0
    else match Replay(c, blocks, n - 1, now)
      case None => 0
      case Some(state) => FeesPaid(c, blocks, n - 1, now) + BlockFees(c, blocks[n - 1], state)
  }

  /** Every coinbase takes its full cap. */
  ghost predicate FullRewards(c: Crypto, blocks: seq<Block>, n: nat, now: int)
    requires n <= |blocks|
  {
    n <= 1
    || (FullRewards(c, blocks, n - 1, now)
        && match Replay(c, blocks, n - 1, now)
           case None => false
           case Some(state) => CoinbaseAmount(blocks[n - 1]) == BLOCK_SUBSIDY + BlockFees(c, blocks[n - 1], state))
  }

  /**
   Unspent value is exactly what coinbases minted minus the fees paid, at most 50 per block
   above genesis, and exactly that when every coinbase takes its full cap and only then.
   */
  lemma {:induction false} ChainSupply(c: Crypto, blocks: seq<Block>, n: nat, now: int)
    requires 1 <= n <= |blocks| && Replay(c, blocks, n, now).Some?
    ensures var total := Sum(Replay(c, blocks, n, now).value.utxos);
      && total == Minted(blocks, n) - FeesPaid(c, blocks, n, now)
      && total <= BLOCK_SUBSIDY * (n - 1)
      && (total == BLOCK_SUBSIDY * (n - 1) <==> FullRewards(c, blocks, n, now))
  {
    hide Sum, ValidHeader, ValidStructure, ApplyBlock, BlockFees, CoinbaseAmount, Hashes;
    if n == 1 {
      assert Sum(map[]) == 0 by { EmptySum(); }
    } else {
      ChainSupply(c, blocks, n - 1, now);
      BlockSupply(c, blocks[n - 1], Replay(c, blocks, n - 1, now).value);
    }
  }

  lemma EmptySum()
    ensures Sum(map[]) == 0
  {
  }
}
