/**
 Whole-chain facts: every outpoint of an accepted chain is created once and spent at most
 once, later than its creation, and the ledger is exactly created minus spent.
 */
module ChainHistory {
  import opened Transactions
  import opened Utxo
  import opened Validation
  import opened Processing
  import opened Reordering
  import opened Blocks

  /** All transactions after genesis, in the order the ledger applies them: coinbase last. */
  function History(blocks: seq<Block>, n: nat): seq<Transaction>
    requires n <= |blocks|
  {
    if n <= 1 then []
    else if blocks[n - 1].transactions == [] then History(blocks, n - 1)
    else History(blocks, n - 1) + blocks[n - 1].transactions[1..] + [blocks[n - 1].transactions[0]]
  }

  /** Position `i` introduces a new identifier and consumes only outpoints that exist and are unspent. */
  ghost predicate LinkOk(c: Crypto, history: seq<Transaction>, i: int)
    requires 0 <= i < |history|
  {
    && TxId(c, history[i]) !in TxIds(c, history, i)
    && Points(history[i]) <= Everything(c, history, i, map[]).Keys
    && Points(history[i]) !! Spent(history, i)
  }

  /** The ledger state is what the history created and did not spend. */
  ghost predicate Explains(c: Crypto, history: seq<Transaction>, u: Utxos, seen: set<string>) {
    && (forall i :: 0 <= i < |history| ==> LinkOk(c, history, i))
    && u == Everything(c, history, |history|, map[]) - Spent(history, |history|)
    && seen == TxIds(c, history, |history|)
    && Spent(history, |history|) <= Everything(c, history, |history|, map[]).Keys
  }

  lemma {:induction false} StaticPrefix(c: Crypto, xs: seq<Transaction>, ys: seq<Transaction>, n: nat, u: Utxos)
    requires n <= |xs| && n <= |ys| && forall i :: 0 <= i < n ==> xs[i] == ys[i]
    ensures TxIds(c, xs, n) == TxIds(c, ys, n)
    ensures Spent(xs, n) == Spent(ys, n)
    ensures Everything(c, xs, n, u) == Everything(c, ys, n, u)
  {
    hide Points, Created;
    if n > 0 {
      StaticPrefix(c, xs, ys, n - 1, u);
    }
  }

  /** Appending a transaction with a new identifier that spends unspent outputs. */
  lemma ExplainsNext(c: Crypto, history: seq<Transaction>, u: Utxos, seen: set<string>, tx: Transaction)
    requires Explains(c, history, u, seen)
    requires TxId(c, tx) !in seen && Points(tx) <= u.Keys
    ensures Explains(c, history + [tx], Applied(c, u, tx), seen + {TxId(c, tx)})
  {
    hide Points, Created, Everything, Spent, TxIds;
    var n, longer := |history|, history + [tx];
    var all := Everything(c, history, n, map[]);
    StaticPrefix(c, history, longer, n, map[]);
    forall i | 0 <= i < n + 1 ensures LinkOk(c, longer, i) {
      if i < n {
        assert LinkOk(c, history, i);
        StaticPrefix(c, history, longer, i, map[]);
      }
    }
    EverythingAnchored(c, history, n, map[], {});
    CreatedFresh(c, tx, all, seen);
    MinusAndAdd(all, Spent(history, n), Points(tx), Created(c, tx));
    Unfold(c, longer);
  }

  lemma Unfold(c: Crypto, txs: seq<Transaction>)
    requires txs != []
    ensures var n, tx := |txs| - 1, txs[|txs| - 1];
      && Everything(c, txs, n + 1, map[]) == Everything(c, txs, n, map[]) + Created(c, tx)
      && Spent(txs, n + 1) == Spent(txs, n) + Points(tx)
      && TxIds(c, txs, n + 1) == TxIds(c, txs, n) + {TxId(c, tx)}
  {
    hide Points, Created;
  }

  lemma {:induction false} ExplainsBatch(c: Crypto, history: seq<Transaction>, state: ChainState,
                                         txs: seq<Transaction>, n: nat)
    requires Explains(c, history, state.utxos, state.seen)
    requires n <= |txs| && ApplyFirst(c, txs, n, state.utxos, state.seen).Some?
    ensures var b := ApplyFirst(c, txs, n, state.utxos, state.seen).value;
      Explains(c, history + txs[..n], b.utxos, b.seen)
  {
    hide Points, Created, Explains, Valid, Fee;
    if n == 0 {
      assert history + txs[..0] == history;
    } else {
      ExplainsBatch(c, history, state, txs, n - 1);
      var b := ApplyFirst(c, txs, n - 1, state.utxos, state.seen).value;
      ExplainsNext(c, history + txs[..n - 1], b.utxos, b.seen, txs[n - 1]);
      assert history + txs[..n] == history + txs[..n - 1] + [txs[n - 1]];
    }
  }

  lemma NoInputs(tx: Transaction)
    requires tx.inputs == []
    ensures Points(tx) == {}
  {
  }

  lemma ExplainsBlock(c: Crypto, history: seq<Transaction>, state: ChainState, b: Block)
    requires Explains(c, history, state.utxos, state.seen) && ApplyBlock(c, b, state).Some?
    ensures b.transactions != []
    ensures var next := ApplyBlock(c, b, state).value;
      Explains(c, history + b.transactions[1..] + [b.transactions[0]], next.utxos, next.seen)
  {
    hide Points, Created, Explains, ApplyFirst;
    var txs, coinbase := b.transactions[1..], b.transactions[0];
    ExplainsBatch(c, history, state, txs, |txs|);
    var batch := ApplyAll(c, txs, state.utxos, state.seen).value;
    assert txs[..|txs|] == txs;
    NoInputs(coinbase);
    ExplainsNext(c, history + txs, batch.utxos, batch.seen, coinbase);
    assert batch.utxos - {} == batch.utxos;
  }

  lemma {:induction false} ReplayExplained(c: Crypto, blocks: seq<Block>, n: nat, now: int)
    requires n <= |blocks| && Replay(c, blocks, n, now).Some?
    ensures var state := Replay(c, blocks, n, now).value;
      Explains(c, History(blocks, n), state.utxos, state.seen)
  {
    hide Explains, ApplyBlock, ValidHeader, ValidStructure, Hashes;
    if n <= 1 {
      EmptyExplained(c);
    } else {
      ReplayExplained(c, blocks, n - 1, now);
      ExplainsBlock(c, History(blocks, n - 1), Replay(c, blocks, n - 1, now).value, blocks[n - 1]);
    }
  }

  lemma EmptyExplained(c: Crypto)
    ensures Explains(c, [], map[], {})
  {
  }

  /** `o` is an output of the transaction at position `i`. */
  predicate CreatedAt(c: Crypto, history: seq<Transaction>, i: int, o: Outpoint)
    requires 0 <= i < |history|
  {
    o in Created(c, history[i])
  }

  predicate SpentAt(history: seq<Transaction>, i: int, o: Outpoint)
    requires 0 <= i < |history|
  {
    o in Points(history[i])
  }

  lemma SpendAfterCreation(c: Crypto, history: seq<Transaction>, u: Utxos, seen: set<string>, i: nat, o: Outpoint)
    requires Explains(c, history, u, seen) && i < |history| && SpentAt(history, i, o)
    ensures exists j :: 0 <= j < i && CreatedAt(c, history, j, o)
  {
    hide Points, Created, Everything, Spent, TxIds;
    assert LinkOk(c, history, i);
    Origin(c, history, i, map[], o);
    var j :| 0 <= j < i && o in Created(c, history[j]);
    assert CreatedAt(c, history, j, o);
  }

  lemma ExplainedIds(c: Crypto, history: seq<Transaction>, u: Utxos, seen: set<string>)
    requires Explains(c, history, u, seen)
    ensures DistinctIds(c, history, |history|)
  {
    hide Points, Everything, Spent, TxIds;
    forall i, j | 0 <= i < j < |history| ensures TxId(c, history[i]) != TxId(c, history[j]) {
      assert LinkOk(c, history, j);
      IdMembers(c, history, j);
    }
  }

  /**
   In an accepted chain each outpoint is created at most once and spent at most once, every
   spend comes after the creation, and the ledger holds exactly what was created and never spent.
   */
  lemma SingleSpend(c: Crypto, blocks: seq<Block>, now: int, o: Outpoint)
    requires Replay(c, blocks, |blocks|, now).Some?
    ensures var history := History(blocks, |blocks|);
      && (forall i, j | 0 <= i < |history| && 0 <= j < |history|
          :: CreatedAt(c, history, i, o) && CreatedAt(c, history, j, o) ==> i == j)
      && (forall i, j | 0 <= i < |history| && 0 <= j < |history|
          :: SpentAt(history, i, o) && SpentAt(history, j, o) ==> i == j)
      && (forall i :: 0 <= i < |history| && SpentAt(history, i, o)
            ==> exists j :: 0 <= j < i && CreatedAt(c, history, j, o))
      && (o in Replay(c, blocks, |blocks|, now).value.utxos
          <==> (exists i :: 0 <= i < |history| && CreatedAt(c, history, i, o))
               && !(exists i :: 0 <= i < |history| && SpentAt(history, i, o)))
  {
    hide Points, Created, Everything, Spent, TxIds, Replay;
    var history := History(blocks, |blocks|);
    var state := Replay(c, blocks, |blocks|, now).value;
    ReplayExplained(c, blocks, |blocks|, now);
    ExplainedIds(c, history, state.utxos, state.seen);
    forall i, j | 0 <= i < |history| && 0 <= j < |history| && CreatedAt(c, history, i, o) && CreatedAt(c, history, j, o)
      ensures i == j
    {
      CreatedId(c, history[i], o);
      CreatedId(c, history[j], o);
    }
    forall i, j | 0 <= i < j < |history| ensures !(SpentAt(history, i, o) && SpentAt(history, j, o)) {
      assert LinkOk(c, history, j);
      SpentMembers(history, j);
    }
    forall i | 0 <= i < |history| && SpentAt(history, i, o)
      ensures exists j :: 0 <= j < i && CreatedAt(c, history, j, o)
    {
      SpendAfterCreation(c, history, state.utxos, state.seen, i, o);
    }
    LedgerMembers(c, history, state.utxos, state.seen, o);
  }

  lemma LedgerMembers(c: Crypto, history: seq<Transaction>, u: Utxos, seen: set<string>, o: Outpoint)
    requires Explains(c, history, u, seen) && DistinctIds(c, history, |history|)
    ensures o in u <==> (exists i :: 0 <= i < |history| && CreatedAt(c, history, i, o))
                        && !(exists i :: 0 <= i < |history| && SpentAt(history, i, o))
  {
    hide Points, Created, Everything, Spent, TxIds;
    var n := |history|;
    SpentMembers(history, n);
    if o in Spent(history, n) {
      var i :| 0 <= i < n && o in Points(history[i]);
      assert SpentAt(history, i, o);
    }
    if o in Everything(c, history, n, map[]) {
      Origin(c, history, n, map[], o);
      var i :| 0 <= i < n && o in Created(c, history[i]);
      assert CreatedAt(c, history, i, o);
    }
    forall i | 0 <= i < n && CreatedAt(c, history, i, o) ensures o in Everything(c, history, n, map[]) {
      CreatedOutput(c, history, n, i, map[], o);
    }
  }

  lemma {:induction false} HistoryGrows(blocks: seq<Block>, m: nat, n: nat)
    requires m <= n <= |blocks|
    ensures History(blocks, m) <= History(blocks, n)
  {
    if m < n {
      HistoryGrows(blocks, m, n - 1);
    }
  }

  /** A coinbase output is never spent by a transaction of its own block, nor of an earlier one. */
  lemma CoinbaseSpentLater(c: Crypto, blocks: seq<Block>, now: int, h: nat, i: nat, o: Outpoint)
    requires Replay(c, blocks, |blocks|, now).Some?
    requires 1 <= h < |blocks| && blocks[h].transactions != [] && o in Created(c, blocks[h].transactions[0])
    requires i < |History(blocks, |blocks|)| && SpentAt(History(blocks, |blocks|), i, o)
    ensures i >= |History(blocks, h + 1)|
  {
    hide Points, Created, Replay;
    var history := History(blocks, |blocks|);
    HistoryGrows(blocks, h + 1, |blocks|);
    var k := |History(blocks, h + 1)| - 1;
    assert history[k] == blocks[h].transactions[0];
    assert CreatedAt(c, history, k, o);
    SingleSpend(c, blocks, now, o);
    var j :| 0 <= j < i && CreatedAt(c, history, j, o);
    assert j == k;
  }
}
