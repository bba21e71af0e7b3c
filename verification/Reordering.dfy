/**
 Any parent-closed choice from an accepted batch, in any parents-first order, is accepted
 with the same fees.  The mempool relies on this: its view is built in arrival order, but
 a miner takes transactions in fee order.
 */
module Reordering {
  import opened Transactions
  import opened Utxo
  import opened Validation
  import opened Processing

  /** An outpoint of the starting view keeps its output. */
  lemma {:induction false} BaseOutput(c: Crypto, txs: seq<Transaction>, n: nat, u: Utxos, o: Outpoint)
    requires n <= |txs| && o in u && o.txid !in TxIds(c, txs, n)
    ensures o in Everything(c, txs, n, u) && Everything(c, txs, n, u)[o] == u[o]
  {
    hide OutputsOf;
    if n > 0 {
      BaseOutput(c, txs, n - 1, u, o);
    }
  }

  ghost predicate DistinctIds(c: Crypto, txs: seq<Transaction>, n: nat)
    requires n <= |txs|
  {
    forall i, j :: 0 <= i < j < n ==> TxId(c, txs[i]) != TxId(c, txs[j])
  }

  /** A created outpoint keeps the output its creator gave it. */
  lemma {:induction false} CreatedOutput(c: Crypto, txs: seq<Transaction>, n: nat, j: nat, u: Utxos, o: Outpoint)
    requires j < n <= |txs| && DistinctIds(c, txs, n) && o in Created(c, txs[j])
    ensures o in Everything(c, txs, n, u) && Everything(c, txs, n, u)[o] == Created(c, txs[j])[o]
  {
    hide OutputsOf;
    if j < n - 1 {
      CreatedOutput(c, txs, n - 1, j, u, o);
      assert TxId(c, txs[j]) != TxId(c, txs[n - 1]);
    }
  }

  /** Every outpoint is either old or has a creator. */
  lemma {:induction false} Origin(c: Crypto, txs: seq<Transaction>, n: nat, u: Utxos, o: Outpoint)
    requires n <= |txs| && o in Everything(c, txs, n, u)
    ensures o in u || exists j :: 0 <= j < n && o in Created(c, txs[j])
  {
    hide Created;
    if n > 0 && o !in Created(c, txs[n - 1]) {
      Origin(c, txs, n - 1, u, o);
    }
  }

  lemma ReplayableIds(c: Crypto, txs: seq<Transaction>, n: nat, u: Utxos, seen: set<string>)
    requires n <= |txs| && Replayable(c, txs, n, u, seen)
    ensures DistinctIds(c, txs, n)
    ensures TxIds(c, txs, n) !! seen
    ensures forall i, j :: 0 <= i < j < n ==> Points(txs[i]) !! Points(txs[j])
  {
    hide Valid, Points, TxIds, Spent, Everything;
    forall i | 0 <= i < n ensures Fits(c, txs, i, u, seen) {}
    IdMembers(c, txs, n);
    forall id | id in TxIds(c, txs, n) ensures id !in seen {
      var i :| 0 <= i < n && TxId(c, txs[i]) == id;
      assert Fits(c, txs, i, u, seen);
    }
    forall i, j | 0 <= i < j < n ensures Points(txs[i]) !! Points(txs[j]) {
      SpentMembers(txs, j);
      assert Points(txs[i]) <= Spent(txs, j);
      assert Fits(c, txs, j, u, seen);
    }
    forall i, j | 0 <= i < j < n ensures TxId(c, txs[i]) != TxId(c, txs[j]) {
      IdMembers(c, txs, j);
      assert Fits(c, txs, j, u, seen);
    }
  }

  /** What is needed of a reordered choice `picked` from the batch `all`. */
  ghost predicate ParentsFirst(c: Crypto, all: seq<Transaction>, picked: seq<Transaction>) {
    && (forall i :: 0 <= i < |picked| ==> picked[i] in all)
    && DistinctIds(c, picked, |picked|)
    && (forall i, o :: 0 <= i < |picked| && o in Points(picked[i]) && o.txid in TxIds(c, all, |all|)
                       ==> o.txid in TxIds(c, picked, i))
  }

  /** The inputs of a picked transaction resolve to the same outputs as in the full batch. */
  lemma SameInputs(c: Crypto, all: seq<Transaction>, k: nat, picked: seq<Transaction>, i: nat,
                   u: Utxos, seen: set<string>, o: Outpoint)
    requires Anchored(u, seen) && Replayable(c, all, |all|, u, seen) && ParentsFirst(c, all, picked)
    requires i < |picked| && k < |all| && picked[i] == all[k] && o in Points(all[k])
    ensures o in Everything(c, all, k, u) && o in Everything(c, picked, i, u) && o in Everything(c, all, |all|, u)
    ensures Everything(c, picked, i, u)[o] == Everything(c, all, k, u)[o] == Everything(c, all, |all|, u)[o]
  {
    hide Points, TxIds, Spent, Everything, Valid, Created;
    ReplayableIds(c, all, |all|, u, seen);
    assert Fits(c, all, k, u, seen);
    ValidPoints(c, all[k], Everything(c, all, k, u));
    Origin(c, all, k, u, o);
    PickedIds(c, all, picked, i);
    if o in u {
      forall n | n == k || n == |all| ensures o.txid !in TxIds(c, all, n) {
        SmallerIds(c, all, n);
      }
      BaseOutput(c, all, k, u, o);
      BaseOutput(c, all, |all|, u, o);
      BaseOutput(c, picked, i, u, o);
    } else {
      var j :| 0 <= j < k && o in Created(c, all[j]);
      CreatedId(c, all[j], o);
      CreatedOutput(c, all, k, j, u, o);
      CreatedOutput(c, all, |all|, j, u, o);
      IdMembers(c, all, |all|);
      IdMembers(c, picked, i);
      var p :| 0 <= p < i && TxId(c, picked[p]) == o.txid;
      SameId(c, all, picked[p], j);
      CreatedOutput(c, picked, i, p, u, o);
    }
  }

  lemma CreatedId(c: Crypto, tx: Transaction, o: Outpoint)
    requires o in Created(c, tx)
    ensures o.txid == TxId(c, tx)
  {
  }

  lemma SmallerIds(c: Crypto, txs: seq<Transaction>, n: nat)
    requires n <= |txs|
    ensures TxIds(c, txs, n) <= TxIds(c, txs, |txs|)
  {
    IdMembers(c, txs, n);
    IdMembers(c, txs, |txs|);
  }

  lemma PickedIds(c: Crypto, all: seq<Transaction>, picked: seq<Transaction>, n: nat)
    requires n <= |picked| && forall i :: 0 <= i < |picked| ==> picked[i] in all
    ensures TxIds(c, picked, n) <= TxIds(c, all, |all|)
  {
    IdMembers(c, picked, n);
    IdMembers(c, all, |all|);
    forall id | id in TxIds(c, picked, n) ensures id in TxIds(c, all, |all|) {
      var i :| 0 <= i < n && TxId(c, picked[i]) == id;
      assert picked[i] in all;
    }
  }

  /** Within a batch the identifier determines the transaction. */
  lemma SameId(c: Crypto, all: seq<Transaction>, tx: Transaction, j: nat)
    requires DistinctIds(c, all, |all|) && tx in all && j < |all| && TxId(c, tx) == TxId(c, all[j])
    ensures tx == all[j]
  {
    var k :| 0 <= k < |all| && all[k] == tx;
    assert k == j;
  }

  /** Nothing picked before spends an input of the pick, or has its identifier. */
  lemma PickedIsNew(c: Crypto, all: seq<Transaction>, picked: seq<Transaction>, i: nat, u: Utxos, seen: set<string>)
    requires Replayable(c, all, |all|, u, seen) && ParentsFirst(c, all, picked) && i < |picked|
    ensures Spent(picked, i) !! Points(picked[i]) && TxId(c, picked[i]) !in TxIds(c, picked, i)
  {
    hide Points, TxIds, Spent, Everything, Valid, Created;
    var k :| 0 <= k < |all| && all[k] == picked[i];
    ReplayableIds(c, all, |all|, u, seen);
    assert Fits(c, all, k, u, seen);
    SpentMembers(picked, i);
    forall o | o in Spent(picked, i) ensures o !in Points(picked[i]) {
      var p :| 0 <= p < i && o in Points(picked[p]);
      var m :| 0 <= m < |all| && all[m] == picked[p];
      assert TxId(c, picked[p]) != TxId(c, picked[i]);
      assert m < k || k < m;
    }
    IdMembers(c, picked, i);
  }

  /** The reordering theorem, one position at a time. */
  lemma PickedFits(c: Crypto, all: seq<Transaction>, picked: seq<Transaction>, i: nat, u: Utxos, seen: set<string>)
    requires Anchored(u, seen) && Replayable(c, all, |all|, u, seen) && ParentsFirst(c, all, picked)
    requires i < |picked|
    ensures Fits(c, picked, i, u, seen)
    ensures Fee(picked[i], Everything(c, picked, i, u)) == Fee(picked[i], Everything(c, all, |all|, u))
  {
    hide Points, TxIds, Spent, Everything, Valid, Created, Fee;
    var k :| 0 <= k < |all| && all[k] == picked[i];
    ReplayableIds(c, all, |all|, u, seen);
    assert Fits(c, all, k, u, seen);
    forall o | o in Points(all[k])
      ensures o in Everything(c, all, k, u) && o in Everything(c, picked, i, u) && o in Everything(c, all, |all|, u)
      ensures Everything(c, picked, i, u)[o] == Everything(c, all, k, u)[o] == Everything(c, all, |all|, u)[o]
    {
      SameInputs(c, all, k, picked, i, u, seen, o);
    }
    ValidMonotone(c, all[k], Everything(c, all, k, u), Everything(c, picked, i, u));
    ValidMonotone(c, all[k], Everything(c, all, k, u), Everything(c, all, |all|, u));
    PickedIsNew(c, all, picked, i, u, seen);
    IdMembers(c, all, |all|);
  }

  /** Sum over a list of the fee each member pays in the view `v`. */
  function FeesIn(txs: seq<Transaction>, n: nat, v: Utxos): int
    requires n <= |txs|
  {
    if n == 0 then 0 else FeesIn(txs, n - 1, v) + Fee(txs[n - 1], v)
  }

  lemma {:induction false} PickedFees(c: Crypto, all: seq<Transaction>, picked: seq<Transaction>, n: nat, u: Utxos,
                                      seen: set<string>)
    requires Anchored(u, seen) && Replayable(c, all, |all|, u, seen) && ParentsFirst(c, all, picked)
    requires n <= |picked|
    ensures TotalFees(c, picked, n, u) == FeesIn(picked, n, Everything(c, all, |all|, u))
  {
    hide Fee, Everything, Replayable, ParentsFirst;
    if n > 0 {
      PickedFees(c, all, picked, n - 1, u, seen);
      PickedFits(c, all, picked, n - 1, u, seen);
    }
  }

  /**
   Any parents-first choice from an accepted batch is accepted from the same starting state,
   and the fee of each transaction does not depend on the order.
   */
  lemma AnyParentsFirstOrder(c: Crypto, all: seq<Transaction>, picked: seq<Transaction>, u: Utxos, seen: set<string>)
    requires Anchored(u, seen) && ApplyAll(c, all, u, seen).Some? && ParentsFirst(c, all, picked)
    ensures ApplyAll(c, picked, u, seen).Some?
    ensures var b := ApplyAll(c, picked, u, seen).value;
      && b.utxos == Everything(c, picked, |picked|, u) - Spent(picked, |picked|)
      && b.seen == seen + TxIds(c, picked, |picked|)
      && b.fees == FeesIn(picked, |picked|, Everything(c, all, |all|, u))
  {
    hide Fee, Everything, ParentsFirst, Spent, TxIds, TotalFees, FeesIn, Fits;
    SequentialIsStatic(c, all, |all|, u, seen);
    forall i | 0 <= i < |picked| ensures Fits(c, picked, i, u, seen) {
      PickedFits(c, all, picked, i, u, seen);
    }
    SequentialIsStatic(c, picked, |picked|, u, seen);
    PickedFees(c, all, picked, |picked|, u, seen);
  }
}
