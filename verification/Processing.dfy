/**
 Sequential transaction processing (transaction/processing.py), and an independent
 characterisation of the batches it accepts: no running state, only who created and who
 spends each outpoint.
 */
module Processing {
  import opened Prelude
  import opened Transactions
  import opened Utxo
  import opened Validation

  datatype Batch = Batch(utxos: Utxos, seen: set<string>, fees: int)

  function ApplyOne(c: Crypto, b: Batch, tx: Transaction): Option<Batch> {
    if Valid(c, tx, b.utxos) && TxId(c, tx) !in b.seen && CanApply(c, b.utxos, tx)
    then Some(Batch(Applied(c, b.utxos, tx), b.seen + {TxId(c, tx)}, b.fees + Fee(tx, b.utxos)))
    else None
  }

  /** The first `n` steps of `apply_transactions`; None stands for the ValueError it raises. */
  function ApplyFirst(c: Crypto, txs: seq<Transaction>, n: nat, u: Utxos, seen: set<string>): Option<Batch>
    requires n <= |txs|
  {
    if n == 0 then Some(Batch(u, seen, 0))
    else match ApplyFirst(c, txs, n - 1, u, seen)
      case None => None
      case Some(b) => ApplyOne(c, b, txs[n - 1])
  }

  function ApplyAll(c: Crypto, txs: seq<Transaction>, u: Utxos, seen: set<string>): Option<Batch> {
    ApplyFirst(c, txs, |txs|, u, seen)
  }

  /** Once a prefix is rejected, so is every longer one. */
  lemma {:induction false} RejectedPrefix(c: Crypto, txs: seq<Transaction>, k: nat, n: nat, u: Utxos, seen: set<string>)
    requires k <= n <= |txs| && ApplyFirst(c, txs, k, u, seen).None?
    ensures ApplyFirst(c, txs, n, u, seen).None?
  {
    hide ApplyOne;
    if k < n {
      RejectedPrefix(c, txs, k, n - 1, u, seen);
    }
  }

  /** Only the first `n` transactions matter to the first `n` steps. */
  lemma {:induction false} ApplyFirstPrefix(c: Crypto, xs: seq<Transaction>, ys: seq<Transaction>, n: nat,
                                            u: Utxos, seen: set<string>)
    requires n <= |xs| && n <= |ys| && forall i :: 0 <= i < n ==> xs[i] == ys[i]
    ensures ApplyFirst(c, xs, n, u, seen) == ApplyFirst(c, ys, n, u, seen)
  {
    hide ApplyOne;
    if n > 0 {
      ApplyFirstPrefix(c, xs, ys, n - 1, u, seen);
    }
  }

  /** The loop body of `apply_transactions`, on a private copy of the view. */
  method ApplyNext(c: Crypto, tx: Transaction, working: UTXOSet, ghost b: Batch)
    returns (fee: Option<int>)
    requires b.utxos == working.utxos
    requires TxId(c, tx) !in b.seen
    modifies working
    ensures ApplyOne(c, b, tx)
         == if fee.Some? then Some(Batch(working.utxos, b.seen + {TxId(c, tx)}, b.fees + fee.value)) else None
  {
    fee := ValidatedFee(c, tx, working.utxos);
    if fee.Some? {
      var applied := working.ApplyValidTransaction(c, tx);
      if !applied {
        fee := None;
      }
    }
  }

  method ApplyTransactions(c: Crypto, txs: seq<Transaction>, utxoSet: UTXOSet, seen: set<string>)
    returns (ok: bool, working: UTXOSet, recorded: set<string>, totalFees: int)
    ensures fresh(working)
    ensures ok == ApplyAll(c, txs, utxoSet.utxos, seen).Some?
    ensures ok ==> ApplyAll(c, txs, utxoSet.utxos, seen).value == Batch(working.utxos, recorded, totalFees)
  {
    hide Valid, Applied, CanApply, Fee;
    working := utxoSet.Copy();
    recorded, totalFees := seen, 0;
    for i := 0 to |txs|
      invariant fresh(working)
      invariant ApplyFirst(c, txs, i, utxoSet.utxos, seen) == Some(Batch(working.utxos, recorded, totalFees))
    {
      ghost var b := Batch(working.utxos, recorded, totalFees);
      var txid := TxId(c, txs[i]);
      var fee := None;
      if txid !in recorded {
        fee := ApplyNext(c, txs[i], working, b);
      }
      if fee.None? {
        RejectedPrefix(c, txs, i + 1, |txs|, utxoSet.utxos, seen);
        return false, working, recorded, totalFees;
      }
      recorded := recorded + {txid};
      totalFees := totalFees + fee.value;
    }
    ok := true;
  }

  // ---- the static view of a batch -------------------------------------------------

  function TxIds(c: Crypto, txs: seq<Transaction>, n: nat): set<string>
    requires n <= |txs|
  {
    if n == 0 then {} else TxIds(c, txs, n - 1) + {TxId(c, txs[n - 1])}
  }

  lemma {:induction false} IdMembers(c: Crypto, txs: seq<Transaction>, n: nat)
    requires n <= |txs|
    ensures forall i :: 0 <= i < n ==> TxId(c, txs[i]) in TxIds(c, txs, n)
    ensures forall id :: id in TxIds(c, txs, n) ==> exists i :: 0 <= i < n && TxId(c, txs[i]) == id
  {
    if n > 0 {
      IdMembers(c, txs, n - 1);
    }
  }

  /** Every output in `u` or created by the first `n` transactions, spent or not. */
  function Everything(c: Crypto, txs: seq<Transaction>, n: nat, u: Utxos): Utxos
    requires n <= |txs|
  {
    if n == 0 then u else Everything(c, txs, n - 1, u) + Created(c, txs[n - 1])
  }

  /** Every outpoint the first `n` transactions consume. */
  function Spent(txs: seq<Transaction>, n: nat): set<Outpoint>
    requires n <= |txs|
  {
    if n == 0 then {} else Spent(txs, n - 1) + Points(txs[n - 1])
  }

  lemma {:induction false} SpentMembers(txs: seq<Transaction>, n: nat)
    requires n <= |txs|
    ensures forall i :: 0 <= i < n ==> Points(txs[i]) <= Spent(txs, n)
    ensures forall o :: o in Spent(txs, n) ==> exists i :: 0 <= i < n && o in Points(txs[i])
  {
    hide Points;
    if n > 0 {
      SpentMembers(txs, n - 1);
    }
  }

  function TotalFees(c: Crypto, txs: seq<Transaction>, n: nat, u: Utxos): int
    requires n <= |txs|
  {
    if n == 0 then 0
    else TotalFees(c, txs, n - 1, u) + Fee(txs[n - 1], Everything(c, txs, n - 1, u))
  }

  /** Position `i` is new, valid against everything created so far, and double-spends nothing earlier. */
  predicate Fits(c: Crypto, txs: seq<Transaction>, i: int, u: Utxos, seen: set<string>)
    requires 0 <= i < |txs|
  {
    && TxId(c, txs[i]) !in seen
    && TxId(c, txs[i]) !in TxIds(c, txs, i)
    && Valid(c, txs[i], Everything(c, txs, i, u))
    && Points(txs[i]) !! Spent(txs, i)
  }

  predicate Replayable(c: Crypto, txs: seq<Transaction>, n: nat, u: Utxos, seen: set<string>)
    requires n <= |txs|
  {
    forall i :: 0 <= i < n ==> Fits(c, txs, i, u, seen)
  }

  /** Every outpoint of `u` was created by a recorded transaction. */
  predicate Anchored(u: Utxos, seen: set<string>) {
    forall o :: o in u ==> o.txid in seen
  }

  /** Over an anchored view the outputs of an unrecorded transaction are all free. */
  lemma CreatedFresh(c: Crypto, tx: Transaction, all: Utxos, seen: set<string>)
    requires Anchored(all, seen) && TxId(c, tx) !in seen
    ensures Created(c, tx).Keys !! all.Keys
  {
  }

  lemma {:induction false} EverythingAnchored(c: Crypto, txs: seq<Transaction>, n: nat, u: Utxos, seen: set<string>)
    requires n <= |txs| && Anchored(u, seen)
    ensures Anchored(Everything(c, txs, n, u), seen + TxIds(c, txs, n))
  {
    hide OutputsOf;
    if n > 0 {
      EverythingAnchored(c, txs, n - 1, u, seen);
    }
  }

  /** What the running state is, in terms of the static view. */
  ghost predicate ClosedForm(c: Crypto, txs: seq<Transaction>, n: nat, u: Utxos, seen: set<string>, b: Batch)
    requires n <= |txs|
  {
    && b.utxos == Everything(c, txs, n, u) - Spent(txs, n)
    && b.seen == seen + TxIds(c, txs, n)
    && b.fees == TotalFees(c, txs, n, u)
    && Spent(txs, n) <= Everything(c, txs, n, u).Keys
  }

  /**
   The sequential processor accepts a list exactly when every position fits the static
   view, and then its state is "everything minus spent".
   */
  lemma {:induction false} SequentialIsStatic(c: Crypto, txs: seq<Transaction>, n: nat, u: Utxos, seen: set<string>)
    requires n <= |txs| && Anchored(u, seen)
    ensures ApplyFirst(c, txs, n, u, seen).Some? <==> Replayable(c, txs, n, u, seen)
    ensures Replayable(c, txs, n, u, seen) ==> ClosedForm(c, txs, n, u, seen, ApplyFirst(c, txs, n, u, seen).value)
  {
    hide Fits, ClosedForm, ApplyOne;
    if n == 0 {
      ClosedFormEmpty(c, txs, u, seen);
    } else {
      SequentialIsStatic(c, txs, n - 1, u, seen);
      if Replayable(c, txs, n - 1, u, seen) {
        var b := ApplyFirst(c, txs, n - 1, u, seen).value;
        if ApplyOne(c, b, txs[n - 1]).Some? {
          AcceptedFits(c, txs, n - 1, u, seen, b);
        }
        if Fits(c, txs, n - 1, u, seen) {
          FitsAccepted(c, txs, n - 1, u, seen, b);
        }
      }
    }
  }

  lemma ClosedFormEmpty(c: Crypto, txs: seq<Transaction>, u: Utxos, seen: set<string>)
    ensures ClosedForm(c, txs, 0, u, seen, Batch(u, seen, 0))
  {
  }

  lemma AcceptedFits(c: Crypto, txs: seq<Transaction>, n: nat, u: Utxos, seen: set<string>, b: Batch)
    requires n < |txs| && ClosedForm(c, txs, n, u, seen, b)
    requires ApplyOne(c, b, txs[n]).Some?
    ensures Fits(c, txs, n, u, seen)
  {
    ValidPoints(c, txs[n], b.utxos);
    ValidMonotone(c, txs[n], b.utxos, Everything(c, txs, n, u));
  }

  lemma FitsAccepted(c: Crypto, txs: seq<Transaction>, n: nat, u: Utxos, seen: set<string>, b: Batch)
    requires n < |txs| && Anchored(u, seen) && ClosedForm(c, txs, n, u, seen, b)
    requires Fits(c, txs, n, u, seen)
    ensures ApplyOne(c, b, txs[n]).Some?
    ensures ClosedForm(c, txs, n + 1, u, seen, ApplyOne(c, b, txs[n]).value)
  {
    hide PointSet, OutputsOf, WellFormed, InputOk, Fee, TxIds, Everything, Spent;
    var tx, all := txs[n], Everything(c, txs, n, u);
    ValidPoints(c, tx, all);
    ValidMonotone(c, tx, all, b.utxos);
    EverythingAnchored(c, txs, n, u, seen);
    assert Created(c, tx).Keys !! all.Keys;
    var next := ApplyOne(c, b, tx).value;
    ClosedFormNext(c, txs, n, u, seen, b, next);
  }

  lemma ClosedFormNext(c: Crypto, txs: seq<Transaction>, n: nat, u: Utxos, seen: set<string>, b: Batch, next: Batch)
    requires n < |txs| && ClosedForm(c, txs, n, u, seen, b)
    requires Created(c, txs[n]).Keys !! Everything(c, txs, n, u).Keys
    requires Points(txs[n]) <= Everything(c, txs, n, u).Keys
    requires next.utxos == Applied(c, b.utxos, txs[n])
    requires next.seen == b.seen + {TxId(c, txs[n])}
    requires next.fees == b.fees + Fee(txs[n], Everything(c, txs, n, u))
    ensures ClosedForm(c, txs, n + 1, u, seen, next)
  {
    hide Points, Created, Fee;
    MinusAndAdd(Everything(c, txs, n, u), Spent(txs, n), Points(txs[n]), Created(c, txs[n]));
  }

  /** Removing two batches of keys around an insertion of fresh ones. */
  lemma MinusAndAdd(all: Utxos, spent: set<Outpoint>, points: set<Outpoint>, created: Utxos)
    requires created.Keys !! all.Keys && spent <= all.Keys && points <= all.Keys
    ensures ((all - spent) - points) + created == (all + created) - (spent + points)
  {
  }
}
