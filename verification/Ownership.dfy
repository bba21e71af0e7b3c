/**
 What a chain or a pool guarantees to the owners of outputs: nothing is spent without a
 signature by the key its address was derived from (transaction/validation.py).
 */
module Ownership {
  import opened Prelude
  import opened Transactions
  import opened Utxo
  import opened Validation
  import opened Processing
  import opened Mempools
  import opened Survivors
  import opened Blocks
  import opened ChainHistory

  /** The address a public key is paid at, written out. */
  predicate PaidAt(c: Crypto, key: Bytes, address: string) {
    var keyHash := Take(c.sha256Hex(key), 40);
    address == "PYC_" + keyHash + Take(c.sha256Hex(c.encodeUtf8(keyHash)), 8)
  }

  /** What input `i` commits to: all outpoints and outputs of its own transaction, and its position. */
  function CoveredBytes(c: Crypto, tx: Transaction, i: nat): Bytes
    requires i < |tx.inputs|
  {
    var points := seq(|tx.inputs|, k requires 0 <= k < |tx.inputs| =>
                    Outpoint(tx.inputs[k].previousTxId, tx.inputs[k].outputIndex));
    c.signingBody(SigningData(tx.version, points, tx.outputs, tx.timestamp, i, tx.inputs[i].publicKey))
  }

  /** Input `i` carries the key that `output` was paid to, and a signature by it over this transaction. */
  ghost predicate OwnerSigned(c: Crypto, tx: Transaction, i: nat, output: TxOutput)
    requires i < |tx.inputs|
  {
    exists key: Bytes, signature: Bytes ::
      && c.parsePublicKey(tx.inputs[i].publicKey) == Some(key)
      && c.parseSignature(tx.inputs[i].signature) == Some(signature)
      && PaidAt(c, key, output.recipient)
      && c.verify(key, CoveredBytes(c, tx, i), signature)
  }

  /** Every input names an output of `view`, a different one each, and its owner signed. */
  ghost predicate OwnersSigned(c: Crypto, tx: Transaction, view: Utxos) {
    && (forall i :: 0 <= i < |tx.inputs| ==>
          tx.inputs[i].Point() in view && OwnerSigned(c, tx, i, view[tx.inputs[i].Point()]))
    && (forall i, j :: 0 <= i < j < |tx.inputs| ==> tx.inputs[i].Point() != tx.inputs[j].Point())
  }

  /** Positive amounts to well-formed addresses, and no more in total than the inputs are worth. */
  predicate ValueKept(c: Crypto, tx: Transaction, view: Utxos) {
    && tx.outputs != []
    && (forall i :: 0 <= i < |tx.outputs| ==> tx.outputs[i].amount > 0 && ValidAddress(c, tx.outputs[i].recipient))
    && OutputTotal(tx.outputs, |tx.outputs|) <= InputTotal(tx.inputs, |tx.inputs|, view)
  }

  ghost predicate Lawful(c: Crypto, tx: Transaction, view: Utxos) {
    tx.version == 1 && tx.timestamp >= 0 && tx.inputs != [] && OwnersSigned(c, tx, view) && ValueKept(c, tx, view)
  }

  lemma CoveredIsSigned(c: Crypto, tx: Transaction, i: nat)
    requires i < |tx.inputs|
    ensures CoveredBytes(c, tx, i) == SigningBytes(c, tx, i)
  {
    var points := seq(|tx.inputs|, k requires 0 <= k < |tx.inputs| =>
                    Outpoint(tx.inputs[k].previousTxId, tx.inputs[k].outputIndex));
    assert points == PointsOf(tx.inputs);
  }

  lemma AuthorizedIsOwner(c: Crypto, tx: Transaction, i: nat, output: TxOutput)
    requires i < |tx.inputs| && Authorized(c, tx, i, output)
    ensures OwnerSigned(c, tx, i, output)
  {
    hide CoveredBytes;
    CoveredIsSigned(c, tx, i);
    var key := c.parsePublicKey(tx.inputs[i].publicKey).value;
    var signature := c.parseSignature(tx.inputs[i].signature).value;
    assert PaidAt(c, key, output.recipient);
    assert c.verify(key, CoveredBytes(c, tx, i), signature);
  }

  /** Whatever the rules let through is lawful in the view it was checked against. */
  lemma ValidIsLawful(c: Crypto, tx: Transaction, view: Utxos)
    requires Valid(c, tx, view)
    ensures Lawful(c, tx, view)
  {
    hide Authorized, OwnerSigned, ValidAddress, InputTotal, OutputTotal;
    forall i | 0 <= i < |tx.inputs|
      ensures tx.inputs[i].Point() in view && OwnerSigned(c, tx, i, view[tx.inputs[i].Point()])
    {
      assert InputOk(c, tx, i, view);
      AuthorizedIsOwner(c, tx, i, view[tx.inputs[i].Point()]);
    }
    forall i | 0 <= i < |tx.outputs| ensures tx.outputs[i].amount > 0 && ValidAddress(c, tx.outputs[i].recipient) {
      assert IsValidOutput(c, tx.outputs[i]);
    }
  }

  // ---- pools -------------------------------------------------------------------------------

  /**
   Every pending entry is lawful against the outputs that are confirmed or were created by
   entries before it, and it pays exactly the stored fee, which is not negative.
   */
  lemma PoolIsLawful(c: Crypto, p: Pool, i: nat)
    requires Sound(c, p) && i < |p.entries|
    ensures var tx, view := p.entries[i].transaction, Everything(c, Pending(p.entries), i, p.confirmed);
      Lawful(c, tx, view)
    ensures var tx := p.entries[i].transaction;
      && 0 <= p.entries[i].fee
      && p.entries[i].fee == InputTotal(tx.inputs, |tx.inputs|, World(c, p)) - OutputTotal(tx.outputs, |tx.outputs|)
  {
    hide Lawful, Everything, Spent, TxIds, Points, PoolInv, World, InputTotal, OutputTotal;
    SoundReplayable(c, p);
    StoredFee(c, p, i);
    assert Fits(c, Pending(p.entries), i, p.confirmed, p.seen);
    ValidIsLawful(c, Pending(p.entries)[i], Everything(c, Pending(p.entries), i, p.confirmed));
  }

  // ---- chains ------------------------------------------------------------------------------

  /** Position `n` of a history mints, or is lawful against the outputs created before it. */
  ghost predicate LawfulAt(c: Crypto, history: seq<Transaction>, n: int)
    requires 0 <= n < |history|
  {
    history[n].inputs == [] || Lawful(c, history[n], Everything(c, history, n, map[]))
  }

  ghost predicate AllLawful(c: Crypto, history: seq<Transaction>) {
    forall n :: 0 <= n < |history| ==> LawfulAt(c, history, n)
  }

  lemma LawfulNext(c: Crypto, history: seq<Transaction>, u: Utxos, seen: set<string>, tx: Transaction)
    requires Explains(c, history, u, seen) && AllLawful(c, history)
    requires tx.inputs == [] || Valid(c, tx, u)
    ensures AllLawful(c, history + [tx])
  {
    hide Lawful, Everything, Spent, TxIds, Points, Valid, LinkOk;
    var n, longer := |history|, history + [tx];
    forall k | 0 <= k < |longer| ensures LawfulAt(c, longer, k) {
      StaticPrefix(c, history, longer, k, map[]);
      if k < n {
        assert LawfulAt(c, history, k);
      } else if tx.inputs != [] {
        ValidMonotone(c, tx, u, Everything(c, history, n, map[]));
        ValidIsLawful(c, tx, Everything(c, history, n, map[]));
      }
    }
  }

  lemma {:induction false} LawfulBatch(c: Crypto, history: seq<Transaction>, state: ChainState, txs: seq<Transaction>,
                                        n: nat)
    requires Explains(c, history, state.utxos, state.seen) && AllLawful(c, history)
    requires n <= |txs| && ApplyFirst(c, txs, n, state.utxos, state.seen).Some?
    ensures AllLawful(c, history + txs[..n])
  {
    hide Explains, AllLawful, Valid, Fee, CanApply, Applied;
    if n == 0 {
      assert history + txs[..0] == history;
    } else {
      LawfulBatch(c, history, state, txs, n - 1);
      ExplainsBatch(c, history, state, txs, n - 1);
      var b := ApplyFirst(c, txs, n - 1, state.utxos, state.seen).value;
      LawfulNext(c, history + txs[..n - 1], b.utxos, b.seen, txs[n - 1]);
      assert history + txs[..n] == history + txs[..n - 1] + [txs[n - 1]];
    }
  }

  lemma LawfulBlock(c: Crypto, history: seq<Transaction>, state: ChainState, b: Block)
    requires Explains(c, history, state.utxos, state.seen) && AllLawful(c, history) && ApplyBlock(c, b, state).Some?
    ensures b.transactions != [] && AllLawful(c, history + b.transactions[1..] + [b.transactions[0]])
  {
    hide Explains, AllLawful, ApplyFirst, Created, IsValidOutput;
    var txs, coinbase := b.transactions[1..], b.transactions[0];
    LawfulBatch(c, history, state, txs, |txs|);
    ExplainsBatch(c, history, state, txs, |txs|);
    assert txs[..|txs|] == txs;
    var batch := ApplyAll(c, txs, state.utxos, state.seen).value;
    LawfulNext(c, history + txs, batch.utxos, batch.seen, coinbase);
  }

  /**
   In every replayed chain, each transaction either is a coinbase or spends only outputs
   created before it, each with its owner's signature over that very transaction, and pays
   out no more than they are worth.
   */
  lemma {:induction false} ChainIsLawful(c: Crypto, blocks: seq<Block>, n: nat, now: int)
    requires n <= |blocks| && Replay(c, blocks, n, now).Some?
    ensures AllLawful(c, History(blocks, n))
  {
    hide AllLawful, Explains, ApplyBlock, ValidHeader, ValidStructure, Hashes;
    if n <= 1 {
      NothingYet(c);
    } else {
      ChainIsLawful(c, blocks, n - 1, now);
      ReplayExplained(c, blocks, n - 1, now);
      LawfulBlock(c, History(blocks, n - 1), Replay(c, blocks, n - 1, now).value, blocks[n - 1]);
    }
  }

  lemma NothingYet(c: Crypto)
    ensures AllLawful(c, [])
  {
  }
}
