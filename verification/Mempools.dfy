/** The bounded pool of pending transactions (transaction/mempool.py). */
module Mempools {
  import opened Prelude
  import opened Transactions
  import opened Utxo
  import opened Validation
  import opened Processing

  /** A capacity limit; the constructor refuses anything below one. */
  type Limit = x: int | x >= 1 witness 1

  datatype Entry = Entry(txid: string, transaction: Transaction, fee: int, sizeBytes: int)

  /** The abstract value of a `Mempool` object; entries are in insertion order. */
  datatype Pool = Pool(confirmed: Utxos, seen: set<string>, working: Utxos, entries: seq<Entry>,
                       totalBytes: int, maxTransactions: Limit, maxBytes: Limit)

  function EmptyPool(u: Utxos, seen: set<string>, maxTransactions: Limit, maxBytes: Limit): Pool {
    Pool(u, seen, u, [], 0, maxTransactions, maxBytes)
  }

  predicate Has(entries: seq<Entry>, txid: string) {
    exists i :: 0 <= i < |entries| && entries[i].txid == txid
  }

  function Pending(entries: seq<Entry>): (r: seq<Transaction>)
    ensures |r| == |entries| && forall i :: 0 <= i < |r| ==> r[i] == entries[i].transaction
  {
    seq(|entries|, i requires 0 <= i < |entries| => entries[i].transaction)
  }

  function Size(c: Crypto, tx: Transaction): int { |TransactionBytes(c, tx)| }

  /** When `add_transaction` returns True. */
  predicate Admits(c: Crypto, p: Pool, tx: Transaction) {
    && |p.entries| < p.maxTransactions
    && Valid(c, tx, p.working)
    && TxId(c, tx) !in p.seen
    && !Has(p.entries, TxId(c, tx))
    && p.totalBytes + Size(c, tx) <= p.maxBytes
    && CanApply(c, p.working, tx)
  }

  function TryAdd(c: Crypto, p: Pool, tx: Transaction): Pool {
    if Admits(c, p, tx) then
      p.(working := Applied(c, p.working, tx),
         entries := p.entries + [Entry(TxId(c, tx), tx, Fee(tx, p.working), Size(c, tx))],
         totalBytes := p.totalBytes + Size(c, tx))
    else p
  }

  /** Offer the first `n` entries again, in order, leaving out the identifiers in `skip`. */
  function Rebuild(c: Crypto, start: Pool, entries: seq<Entry>, n: nat, skip: set<string>): Pool
    requires n <= |entries|
  {
    if n == 0 then start
    else
      var before := Rebuild(c, start, entries, n - 1, skip);
      if entries[n - 1].txid in skip then before else TryAdd(c, before, entries[n - 1].transaction)
  }

  /** `remove_transaction` */
  function Removed(c: Crypto, p: Pool, txid: string): Pool {
    if Has(p.entries, txid)
    then Rebuild(c, EmptyPool(p.confirmed, p.seen, p.maxTransactions, p.maxBytes), p.entries, |p.entries|, {txid})
    else p
  }

  /** `revalidated` */
  function Revalidated(c: Crypto, p: Pool, u: Utxos, seen: set<string>): Pool {
    Rebuild(c, EmptyPool(u, seen, p.maxTransactions, p.maxBytes), p.entries, |p.entries|, seen)
  }

  function SizeTotal(entries: seq<Entry>, n: nat): int
    requires n <= |entries|
  {
    if n == 0 then 0 else SizeTotal(entries, n - 1) + entries[n - 1].sizeBytes
  }

  /** Entry `i` records its identifier, its size and the fee it pays at its own position. */
  ghost predicate EntryOk(c: Crypto, p: Pool, i: int)
    requires 0 <= i < |p.entries|
  {
    var e := p.entries[i];
    var before := ApplyFirst(c, Pending(p.entries), i, p.confirmed, p.seen);
    e.txid == TxId(c, e.transaction) && e.sizeBytes == Size(c, e.transaction)
    && before.Some? && e.fee == Fee(e.transaction, before.value.utxos)
  }

  /** The working view is the fold of the entries over the confirmed view, and the totals agree. */
  ghost predicate PoolInv(c: Crypto, p: Pool) {
    && ApplyAll(c, Pending(p.entries), p.confirmed, p.seen).Some?
    && ApplyAll(c, Pending(p.entries), p.confirmed, p.seen).value.utxos == p.working
    && (forall i :: 0 <= i < |p.entries| ==> EntryOk(c, p, i))
    && p.totalBytes == SizeTotal(p.entries, |p.entries|)
    && |p.entries| <= p.maxTransactions
    && p.totalBytes <= p.maxBytes
  }

  lemma EmptyPoolInv(c: Crypto, u: Utxos, seen: set<string>, maxTransactions: Limit, maxBytes: Limit)
    ensures PoolInv(c, EmptyPool(u, seen, maxTransactions, maxBytes))
  {
  }

  lemma {:induction false} RecordedIds(c: Crypto, txs: seq<Transaction>, n: nat, u: Utxos, seen: set<string>)
    requires n <= |txs| && ApplyFirst(c, txs, n, u, seen).Some?
    ensures ApplyFirst(c, txs, n, u, seen).value.seen == seen + TxIds(c, txs, n)
  {
    hide Valid, Applied, CanApply, Fee;
    if n > 0 {
      RecordedIds(c, txs, n - 1, u, seen);
    }
  }

  /** Admission is the sequential step, under the two capacity limits. */
  lemma AdmitsIsStep(c: Crypto, p: Pool, tx: Transaction, b: Batch)
    requires PoolInv(c, p) && ApplyAll(c, Pending(p.entries), p.confirmed, p.seen) == Some(b)
    ensures Admits(c, p, tx) <==> |p.entries| < p.maxTransactions && p.totalBytes + Size(c, tx) <= p.maxBytes
                                  && ApplyOne(c, b, tx).Some?
  {
    hide Valid, CanApply, ApplyFirst, TxIds;
    var txs := Pending(p.entries);
    RecordedIds(c, txs, |txs|, p.confirmed, p.seen);
    IdMembers(c, txs, |txs|);
    if Has(p.entries, TxId(c, tx)) {
      var i :| 0 <= i < |p.entries| && p.entries[i].txid == TxId(c, tx);
      assert EntryOk(c, p, i) && TxId(c, txs[i]) == TxId(c, tx);
    }
    if TxId(c, tx) in TxIds(c, txs, |txs|) {
      var i :| 0 <= i < |txs| && TxId(c, txs[i]) == TxId(c, tx);
      assert EntryOk(c, p, i) && p.entries[i].txid == TxId(c, tx);
    }
  }

  lemma {:induction false} SizeTotalPrefix(xs: seq<Entry>, ys: seq<Entry>, n: nat)
    requires n <= |xs| && n <= |ys| && forall i :: 0 <= i < n ==> xs[i] == ys[i]
    ensures SizeTotal(xs, n) == SizeTotal(ys, n)
  {
    if n > 0 {
      SizeTotalPrefix(xs, ys, n - 1);
    }
  }

  /** Every call of `add_transaction` keeps the pool consistent, whatever its argument. */
  lemma TryAddKeepsInv(c: Crypto, p: Pool, tx: Transaction)
    requires PoolInv(c, p)
    ensures PoolInv(c, TryAdd(c, p, tx))
  {
    hide Valid, CanApply, Applied, Fee, ApplyFirst;
    if Admits(c, p, tx) {
      var q := TryAdd(c, p, tx);
      var n := |p.entries|;
      var txs, txs' := Pending(p.entries), Pending(q.entries);
      var b := ApplyAll(c, txs, p.confirmed, p.seen).value;
      AdmitsIsStep(c, p, tx, b);
      ApplyFirstPrefix(c, txs, txs', n, p.confirmed, p.seen);
      LastStep(c, txs', p.confirmed, p.seen, b);
      forall i | 0 <= i < |q.entries| ensures EntryOk(c, q, i) {
        if i < n {
          assert EntryOk(c, p, i);
          ApplyFirstPrefix(c, txs, txs', i, p.confirmed, p.seen);
        }
      }
      SizeTotalPrefix(p.entries, q.entries, n);
    }
  }

  lemma LastStep(c: Crypto, txs: seq<Transaction>, u: Utxos, seen: set<string>, b: Batch)
    requires txs != [] && ApplyFirst(c, txs, |txs| - 1, u, seen) == Some(b)
    ensures ApplyAll(c, txs, u, seen) == ApplyOne(c, b, txs[|txs| - 1])
  {
    hide ApplyOne;
  }

  lemma {:induction false} RebuildKeepsInv(c: Crypto, start: Pool, entries: seq<Entry>, n: nat, skip: set<string>)
    requires n <= |entries| && PoolInv(c, start)
    ensures PoolInv(c, Rebuild(c, start, entries, n, skip))
    ensures Rebuild(c, start, entries, n, skip).confirmed == start.confirmed
    ensures Rebuild(c, start, entries, n, skip).seen == start.seen
    ensures Rebuild(c, start, entries, n, skip).maxTransactions == start.maxTransactions
    ensures Rebuild(c, start, entries, n, skip).maxBytes == start.maxBytes
  {
    hide PoolInv, Admits, Applied, Fee;
    if n > 0 {
      RebuildKeepsInv(c, start, entries, n - 1, skip);
      TryAddKeepsInv(c, Rebuild(c, start, entries, n - 1, skip), entries[n - 1].transaction);
    }
  }

  /** First-seen transactions validated against confirmed and pending outputs. */
  class Mempool {
    const maxTransactions: Limit
    const maxBytes: Limit
    var confirmed: UTXOSet
    var seen: set<string>
    var working: UTXOSet
    var entries: seq<Entry>
    var totalBytes: int

    /** The abstract value; every method below says what happens to it. */
    ghost function Model(): Pool
      reads this, confirmed, working
    {
      Pool(confirmed.utxos, seen, working.utxos, entries, totalBytes, maxTransactions, maxBytes)
    }

    constructor (utxoSet: UTXOSet, seenTxids: set<string>, maxTransactions: Limit, maxBytes: Limit)
      ensures Model() == EmptyPool(utxoSet.utxos, seenTxids, maxTransactions, maxBytes)
      ensures fresh(confirmed) && fresh(working)
    {
      this.maxTransactions, this.maxBytes := maxTransactions, maxBytes;
      seen, entries, totalBytes := seenTxids, [], 0;
      confirmed := new UTXOSet.FromMap(utxoSet.utxos);
      working := new UTXOSet.FromMap(utxoSet.utxos);
    }

    /** The assignment form used by `copy`. */
    constructor Snapshot(other: Mempool)
      ensures Model() == other.Model()
      ensures fresh(confirmed) && fresh(working)
    {
      maxTransactions, maxBytes := other.maxTransactions, other.maxBytes;
      seen, entries, totalBytes := other.seen, other.entries, other.totalBytes;
      confirmed := new UTXOSet.FromMap(other.confirmed.utxos);
      working := new UTXOSet.FromMap(other.working.utxos);
    }

    method Copy() returns (snapshot: Mempool)
      ensures fresh(snapshot) && fresh(snapshot.confirmed) && fresh(snapshot.working)
      ensures snapshot.Model() == Model()
    {
      snapshot := new Mempool.Snapshot(this);
    }

    method AddTransaction(c: Crypto, tx: Transaction) returns (ok: bool)
      modifies this
      ensures ok == Admits(c, old(Model()), tx)
      ensures Model() == TryAdd(c, old(Model()), tx)
      ensures confirmed == old(confirmed) && (working == old(working) || fresh(working))
    {
      hide Valid, CanApply, Applied;
      if |entries| >= maxTransactions {
        return false;
      }
      var fee := ValidatedFee(c, tx, working.utxos);
      if fee.None? {
        return false;
      }
      var txid := TxId(c, tx);
      if txid in seen || Has(entries, txid) {
        return false;
      }
      var sizeBytes := |TransactionBytes(c, tx)|;
      if totalBytes + sizeBytes > maxBytes {
        return false;
      }
      var updated := working.Copy();
      var applied := updated.ApplyValidTransaction(c, tx);
      if !applied {
        return false;
      }
      entries := entries + [Entry(txid, tx, fee.value, sizeBytes)];
      working := updated;
      totalBytes := totalBytes + sizeBytes;
      ok := true;
    }

    method RemoveTransaction(c: Crypto, txid: string) returns (ok: bool)
      modifies this
      ensures ok == Has(old(entries), txid)
      ensures Model() == Removed(c, old(Model()), txid)
      ensures confirmed == old(confirmed) && (working == old(working) || fresh(working))
    {
      hide TryAdd;
      ok := Has(entries, txid);
      if !ok {
        return;
      }
      var rebuilt := new Mempool(confirmed, seen, maxTransactions, maxBytes);
      ghost var start := rebuilt.Model();
      for i := 0 to |entries|
        invariant fresh(rebuilt) && fresh(rebuilt.working) && fresh(rebuilt.confirmed)
        invariant unchanged(this)
        invariant rebuilt.Model() == Rebuild(c, start, entries, i, {txid})
      {
        if entries[i].txid != txid {
          var _ := rebuilt.AddTransaction(c, entries[i].transaction);
        }
      }
      RebuildFrame(c, start, entries, |entries|, {txid});
      entries, working, totalBytes := rebuilt.entries, rebuilt.working, rebuilt.totalBytes;
    }

    method Revalidate(c: Crypto, utxoSet: UTXOSet, seenTxids: set<string>) returns (rebuilt: Mempool)
      ensures fresh(rebuilt) && fresh(rebuilt.confirmed) && fresh(rebuilt.working)
      ensures rebuilt.Model() == Revalidated(c, Model(), utxoSet.utxos, seenTxids)
    {
      hide TryAdd;
      rebuilt := new Mempool(utxoSet, seenTxids, maxTransactions, maxBytes);
      ghost var start := rebuilt.Model();
      for i := 0 to |entries|
        invariant fresh(rebuilt) && fresh(rebuilt.confirmed) && fresh(rebuilt.working)
        invariant rebuilt.Model() == Rebuild(c, start, entries, i, seenTxids)
      {
        RebuildFrame(c, start, entries, i, seenTxids);
        if entries[i].txid !in rebuilt.seen {
          var _ := rebuilt.AddTransaction(c, entries[i].transaction);
        }
      }
    }
  }

  lemma {:induction false} RebuildFrame(c: Crypto, start: Pool, entries: seq<Entry>, n: nat, skip: set<string>)
    requires n <= |entries|
    ensures var r := Rebuild(c, start, entries, n, skip);
      r.confirmed == start.confirmed && r.seen == start.seen
      && r.maxTransactions == start.maxTransactions && r.maxBytes == start.maxBytes
  {
    hide Admits, Applied, Fee;
    if n > 0 {
      RebuildFrame(c, start, entries, n - 1, skip);
    }
  }
}
