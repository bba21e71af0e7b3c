/**
 Exactly which entries survive when the pool is replayed: after a removal, after a block,
 and after a block mined from the pool's own selection (transaction/mempool.py).
 */
module Survivors {
  import opened Transactions
  import opened Utxo
  import opened Validation
  import opened Processing
  import opened Reordering
  import opened Mempools

  /** All outputs ever visible to the pool: confirmed, or created by an entry. */
  function World(c: Crypto, p: Pool): Utxos {
    Everything(c, Pending(p.entries), |p.entries|, p.confirmed)
  }

  /** A pool over a ledger state in which every outpoint has a recorded creator. */
  ghost predicate Sound(c: Crypto, p: Pool) {
    PoolInv(c, p) && Anchored(p.confirmed, p.seen)
  }

  lemma SoundReplayable(c: Crypto, p: Pool)
    requires Sound(c, p)
    ensures Replayable(c, Pending(p.entries), |p.entries|, p.confirmed, p.seen)
    ensures p.working == World(c, p) - Spent(Pending(p.entries), |p.entries|)
    ensures forall i :: 0 <= i < |p.entries| ==> p.entries[i].txid == TxId(c, p.entries[i].transaction)
                                                 && p.entries[i].sizeBytes == Size(c, p.entries[i].transaction)
  {
    hide Replayable, Everything, Spent, ApplyFirst;
    SequentialIsStatic(c, Pending(p.entries), |p.entries|, p.confirmed, p.seen);
    forall i | 0 <= i < |p.entries|
      ensures p.entries[i].txid == TxId(c, p.entries[i].transaction)
              && p.entries[i].sizeBytes == Size(c, p.entries[i].transaction)
    {
      assert EntryOk(c, p, i);
    }
  }

  /** An input of entry `i` is confirmed or was created by an earlier entry, never both. */
  lemma InputOrigin(c: Crypto, txs: seq<Transaction>, i: nat, u: Utxos, seen: set<string>, o: Outpoint)
    requires Anchored(u, seen) && Replayable(c, txs, |txs|, u, seen)
    requires i < |txs| && o in Points(txs[i])
    ensures o in u || exists j :: 0 <= j < i && o in Created(c, txs[j])
    ensures o in u ==> o.txid !in TxIds(c, txs, |txs|)
    ensures forall j :: 0 <= j < |txs| && TxId(c, txs[j]) == o.txid ==> j < i && o in Created(c, txs[j])
    ensures o in Everything(c, txs, i, u)
  {
    hide Points, TxIds, Spent, Everything, Valid, Created;
    ReplayableIds(c, txs, |txs|, u, seen);
    assert Fits(c, txs, i, u, seen);
    ValidPoints(c, txs[i], Everything(c, txs, i, u));
    Origin(c, txs, i, u, o);
    IdMembers(c, txs, |txs|);
    if o !in u {
      var k :| 0 <= k < i && o in Created(c, txs[k]);
      CreatedId(c, txs[k], o);
      forall j | 0 <= j < |txs| && TxId(c, txs[j]) == o.txid ensures j == k {
        assert !(j < k) && !(k < j);
      }
    }
  }

  lemma SelfParentsFirst(c: Crypto, txs: seq<Transaction>, u: Utxos, seen: set<string>)
    requires Anchored(u, seen) && Replayable(c, txs, |txs|, u, seen)
    ensures ParentsFirst(c, txs, txs)
  {
    hide Points, TxIds, Everything, Fits, Created;
    ReplayableIds(c, txs, |txs|, u, seen);
    forall i, o | 0 <= i < |txs| && o in Points(txs[i]) && o.txid in TxIds(c, txs, |txs|)
      ensures o.txid in TxIds(c, txs, i)
    {
      InputOrigin(c, txs, i, u, seen, o);
      IdMembers(c, txs, |txs|);
      IdMembers(c, txs, i);
    }
  }

  /** The stored fee of an entry is its fee against the pool's world, at any position. */
  lemma StoredFee(c: Crypto, p: Pool, i: nat)
    requires Sound(c, p) && i < |p.entries|
    ensures Valid(c, p.entries[i].transaction, World(c, p))
    ensures p.entries[i].fee == Fee(p.entries[i].transaction, World(c, p))
    ensures Points(p.entries[i].transaction) <= World(c, p).Keys
  {
    hide Points, TxIds, Everything, Spent, Valid, Fee, Created, Replayable;
    var txs := Pending(p.entries);
    SoundReplayable(c, p);
    SelfParentsFirst(c, txs, p.confirmed, p.seen);
    PickedFits(c, txs, txs, i, p.confirmed, p.seen);
    assert EntryOk(c, p, i);
    RepFirst(c, txs, i, p.confirmed, p.seen);
    var before := ApplyFirst(c, txs, i, p.confirmed, p.seen).value.utxos;
    ValidPoints(c, txs[i], Everything(c, txs, i, p.confirmed));
    ValidMonotone(c, txs[i], Everything(c, txs, i, p.confirmed), before);
    forall o | o in Points(txs[i])
      ensures o in World(c, p) && World(c, p)[o] == Everything(c, txs, i, p.confirmed)[o]
    {
      SameInputs(c, txs, i, txs, i, p.confirmed, p.seen, o);
    }
    ValidMonotone(c, txs[i], Everything(c, txs, i, p.confirmed), World(c, p));
  }

  lemma RepFirst(c: Crypto, txs: seq<Transaction>, n: nat, u: Utxos, seen: set<string>)
    requires n <= |txs| && Anchored(u, seen) && Replayable(c, txs, |txs|, u, seen)
    ensures ApplyFirst(c, txs, n, u, seen).Some?
    ensures ApplyFirst(c, txs, n, u, seen).value.utxos == Everything(c, txs, n, u) - Spent(txs, n)
  {
    hide Fits, ApplyFirst, Everything, Spent;
    SequentialIsStatic(c, txs, n, u, seen);
  }

  // ---- replaying over a new base -------------------------------------------------

  ghost predicate Kept(c: Crypto, txs: seq<Transaction>, i: nat, base: Utxos, skip: set<string>)
    requires i < |txs|
    decreases i, 1
  {
    && TxId(c, txs[i]) !in skip
    && forall o :: o in Points(txs[i]) ==> o in base || KeptParent(c, txs, i, o, base, skip)
  }

  /** Some earlier entry that is kept created `o`. */
  ghost predicate KeptParent(c: Crypto, txs: seq<Transaction>, i: nat, o: Outpoint, base: Utxos, skip: set<string>)
    requires i <= |txs|
    decreases i, 0
  {
    exists j: nat :: j < i && TxId(c, txs[j]) == o.txid && Kept(c, txs, j, base, skip)
  }

  /** The kept entries among the first `n`, in order. */
  ghost function KeptEntries(c: Crypto, entries: seq<Entry>, n: nat, base: Utxos, skip: set<string>): seq<Entry>
    requires n <= |entries|
  {
    if n == 0 then []
    else KeptEntries(c, entries, n - 1, base, skip)
         + if Kept(c, Pending(entries), n - 1, base, skip) then [entries[n - 1]] else []
  }

  /** `e` is one of the first `n` entries, and it is kept. */
  ghost predicate KeptFrom(c: Crypto, entries: seq<Entry>, n: nat, base: Utxos, skip: set<string>, e: Entry)
    requires n <= |entries|
  {
    exists j: nat :: j < n && Kept(c, Pending(entries), j, base, skip) && entries[j] == e
  }

  lemma {:induction false} KeptMembers(c: Crypto, entries: seq<Entry>, n: nat, base: Utxos, skip: set<string>)
    requires n <= |entries|
    ensures |KeptEntries(c, entries, n, base, skip)| <= n
    ensures forall e :: e in KeptEntries(c, entries, n, base, skip) ==> KeptFrom(c, entries, n, base, skip, e)
  {
    hide Kept, Pending;
    if n > 0 {
      KeptMembers(c, entries, n - 1, base, skip);
      forall e | e in KeptEntries(c, entries, n, base, skip) ensures KeptFrom(c, entries, n, base, skip, e) {
        if e in KeptEntries(c, entries, n - 1, base, skip) {
          assert KeptFrom(c, entries, n - 1, base, skip, e);
        } else {
          assert e == entries[n - 1];
        }
      }
    }
  }

  lemma {:induction false} KeptAppears(c: Crypto, entries: seq<Entry>, n: nat, base: Utxos, skip: set<string>, j: nat)
    requires j < n <= |entries| && Kept(c, Pending(entries), j, base, skip)
    ensures entries[j] in KeptEntries(c, entries, n, base, skip)
  {
    hide Kept, Pending;
    if j < n - 1 {
      KeptAppears(c, entries, n - 1, base, skip, j);
    }
  }

  lemma {:induction false} KeptBytes(c: Crypto, entries: seq<Entry>, n: nat, base: Utxos, skip: set<string>)
    requires n <= |entries| && forall i :: 0 <= i < |entries| ==> entries[i].sizeBytes >= 0
    ensures var kept := KeptEntries(c, entries, n, base, skip);
      SizeTotal(kept, |kept|) <= SizeTotal(entries, n)
  {
    hide Kept;
    if n > 0 {
      KeptBytes(c, entries, n - 1, base, skip);
      var before, after := KeptEntries(c, entries, n - 1, base, skip), KeptEntries(c, entries, n, base, skip);
      SizeTotalPrefix(before, after, |before|);
    }
  }

  lemma {:induction false} SizeTotalMonotone(entries: seq<Entry>, n: nat, m: nat)
    requires n <= m <= |entries| && forall i :: 0 <= i < |entries| ==> entries[i].sizeBytes >= 0
    ensures SizeTotal(entries, n) <= SizeTotal(entries, m)
  {
    if n < m {
      SizeTotalMonotone(entries, n, m - 1);
    }
  }

  /** What a new base must satisfy for the replay to be predictable. */
  ghost predicate Rebased(c: Crypto, p: Pool, base: Utxos, seen: set<string>, skip: set<string>) {
    && Sound(c, p)
    && Anchored(base, seen)
    && (forall i :: 0 <= i < |p.entries| && p.entries[i].txid !in skip ==> p.entries[i].txid !in seen)
    && (forall i, o :: 0 <= i < |p.entries| && o in Points(Pending(p.entries)[i]) && o in base && o in World(c, p)
                       ==> base[o] == World(c, p)[o])
  }

  /** The pool's own ledger is such a base, whichever entries are left out. */
  lemma SameBase(c: Crypto, p: Pool, skip: set<string>)
    requires Sound(c, p)
    ensures Rebased(c, p, p.confirmed, p.seen, skip)
  {
    hide Points, TxIds, Everything, Spent, Valid, Fee, Created, Replayable, PoolInv;
    var txs := Pending(p.entries);
    SoundReplayable(c, p);
    ReplayableIds(c, txs, |txs|, p.confirmed, p.seen);
    IdMembers(c, txs, |txs|);
    forall i, o | 0 <= i < |p.entries| && o in Points(txs[i]) && o in p.confirmed
      ensures o in World(c, p) && p.confirmed[o] == World(c, p)[o]
    {
      InputOrigin(c, txs, i, p.confirmed, p.seen, o);
      BaseOutput(c, txs, |txs|, p.confirmed, o);
    }
  }

  /** The state of the rebuilt pool just before entry `n` is offered. */
  ghost predicate Halfway(c: Crypto, p: Pool, r: Pool, n: nat, base: Utxos, seen: set<string>, skip: set<string>)
    requires n <= |p.entries|
  {
    && PoolInv(c, r)
    && r.confirmed == base && r.seen == seen
    && r.maxTransactions == p.maxTransactions && r.maxBytes == p.maxBytes
    && r.entries == KeptEntries(c, p.entries, n, base, skip)
  }

  /** A kept entry finds each input in the rebuilt view, with the output it had before. */
  lemma KeptInput(c: Crypto, p: Pool, r: Pool, n: nat, base: Utxos, seen: set<string>, skip: set<string>, o: Outpoint)
    requires Rebased(c, p, base, seen, skip) && n < |p.entries| && Halfway(c, p, r, n, base, seen, skip)
    requires p.entries[n].txid !in skip && o in Points(p.entries[n].transaction)
    requires o in base || KeptParent(c, Pending(p.entries), n, o, base, skip)
    ensures o in World(c, p) && o in World(c, r) && World(c, r)[o] == World(c, p)[o]
  {
    hide Points, TxIds, Everything, Spent, Valid, Fee, Created, Replayable, Kept, KeptEntries, PoolInv, ParentsFirst;
    var txs, ktxs := Pending(p.entries), Pending(r.entries);
    HalfwaySound(c, p, r, n, base, seen, skip);
    SoundReplayable(c, r);
    StoredFee(c, p, n);
    ReplayableIds(c, ktxs, |ktxs|, base, seen);
    if o in base {
      BaseOutput(c, ktxs, |ktxs|, base, o);
      assert o in Points(txs[n]);
    } else {
      var j: nat :| j < n && TxId(c, txs[j]) == o.txid && Kept(c, txs, j, base, skip);
      KeptAppears(c, p.entries, n, base, skip, j);
      var k :| 0 <= k < |r.entries| && r.entries[k] == p.entries[j];
      CreatedByEntry(c, p, n, j, o);
      CreatedOutput(c, ktxs, |ktxs|, k, base, o);
    }
  }

  lemma CreatedByEntry(c: Crypto, p: Pool, n: nat, j: nat, o: Outpoint)
    requires Sound(c, p) && n < |p.entries| && o in Points(p.entries[n].transaction)
    requires j < n && TxId(c, p.entries[j].transaction) == o.txid
    ensures o in Created(c, p.entries[j].transaction) && o in World(c, p)
    ensures World(c, p)[o] == Created(c, p.entries[j].transaction)[o]
  {
    hide Points, TxIds, Everything, Spent, Valid, Fee, Created, Replayable, PoolInv;
    var txs := Pending(p.entries);
    SoundReplayable(c, p);
    InputOrigin(c, txs, n, p.confirmed, p.seen, o);
    ReplayableIds(c, txs, |txs|, p.confirmed, p.seen);
    assert TxId(c, txs[j]) == o.txid;
    CreatedOutput(c, txs, |txs|, j, p.confirmed, o);
  }

  /** No survivor spends an input of a later entry. */
  lemma NotSpentByKept(c: Crypto, p: Pool, r: Pool, n: nat, base: Utxos, seen: set<string>, skip: set<string>)
    requires Rebased(c, p, base, seen, skip) && n < |p.entries| && Halfway(c, p, r, n, base, seen, skip)
    ensures Points(p.entries[n].transaction) !! Spent(Pending(r.entries), |r.entries|)
    ensures TxId(c, p.entries[n].transaction) !in TxIds(c, Pending(r.entries), |r.entries|)
  {
    hide Points, TxIds, Everything, Spent, Valid, Fee, Created, Replayable, Kept, KeptEntries, PoolInv;
    var txs, ktxs := Pending(p.entries), Pending(r.entries);
    SoundReplayable(c, p);
    ReplayableIds(c, txs, |txs|, p.confirmed, p.seen);
    KeptMembers(c, p.entries, n, base, skip);
    SpentMembers(ktxs, |ktxs|);
    IdMembers(c, ktxs, |ktxs|);
    forall k | 0 <= k < |ktxs|
      ensures Points(ktxs[k]) !! Points(txs[n]) && TxId(c, ktxs[k]) != TxId(c, txs[n])
    {
      assert KeptFrom(c, p.entries, n, base, skip, r.entries[k]);
      var j: nat :| j < n && Kept(c, txs, j, base, skip) && p.entries[j] == r.entries[k];
      assert ktxs[k] == txs[j];
    }
  }

  lemma KeptAdmitted(c: Crypto, p: Pool, r: Pool, n: nat, base: Utxos, seen: set<string>, skip: set<string>)
    requires Rebased(c, p, base, seen, skip) && n < |p.entries| && Halfway(c, p, r, n, base, seen, skip)
    requires p.entries[n].txid !in skip && Kept(c, Pending(p.entries), n, base, skip)
    ensures Admits(c, r, p.entries[n].transaction)
    ensures TryAdd(c, r, p.entries[n].transaction).entries == r.entries + [p.entries[n]]
  {
    hide Points, TxIds, Everything, Spent, Valid, Fee, Created, Replayable, KeptParent, KeptEntries, Applied, CanApply,
         Halfway, Sound, ApplyFirst, ApplyOne;
    var tx, ktxs := p.entries[n].transaction, Pending(r.entries);
    StoredFee(c, p, n);
    HalfwaySound(c, p, r, n, base, seen, skip);
    SoundReplayable(c, r);
    SoundReplayable(c, p);
    NotSpentByKept(c, p, r, n, base, seen, skip);
    forall o | o in Points(tx) ensures o in World(c, r) && World(c, r)[o] == World(c, p)[o] {
      KeptInput(c, p, r, n, base, seen, skip, o);
    }
    ValidMonotone(c, tx, World(c, p), World(c, r));
    ValidMonotone(c, tx, World(c, p), r.working);
    KeptRoom(c, p, r, n, base, seen, skip);
    FitsNext(c, r, tx);
  }

  lemma HalfwaySound(c: Crypto, p: Pool, r: Pool, n: nat, base: Utxos, seen: set<string>, skip: set<string>)
    requires Rebased(c, p, base, seen, skip) && n < |p.entries| && Halfway(c, p, r, n, base, seen, skip)
    ensures Sound(c, r)
    ensures r.confirmed == base && r.seen == seen
  {
    hide PoolInv;
  }

  /** The rebuilt pool always has room: it holds a subset of what fitted before. */
  lemma KeptRoom(c: Crypto, p: Pool, r: Pool, n: nat, base: Utxos, seen: set<string>, skip: set<string>)
    requires Rebased(c, p, base, seen, skip) && n < |p.entries| && Halfway(c, p, r, n, base, seen, skip)
    ensures |r.entries| < r.maxTransactions
    ensures r.totalBytes + Size(c, p.entries[n].transaction) <= r.maxBytes
  {
    hide Kept, EntryOk, ApplyFirst, Anchored, World, Replayable, Everything, Spent;
    SoundReplayable(c, p);
    KeptMembers(c, p.entries, n, base, skip);
    KeptBytes(c, p.entries, n, base, skip);
    SizeTotalMonotone(p.entries, n + 1, |p.entries|);
  }

  /** A new transaction that is valid in a sound pool's view and double-spends nothing is admitted if it fits. */
  lemma FitsNext(c: Crypto, r: Pool, tx: Transaction)
    requires Sound(c, r)
    requires |r.entries| < r.maxTransactions && r.totalBytes + Size(c, tx) <= r.maxBytes
    requires TxId(c, tx) !in r.seen && TxId(c, tx) !in TxIds(c, Pending(r.entries), |r.entries|)
    requires Valid(c, tx, r.working)
    ensures Admits(c, r, tx)
  {
    hide Points, TxIds, Everything, Spent, Valid, Fee, Replayable, ApplyFirst;
    var txs := Pending(r.entries);
    SoundReplayable(c, r);
    ValidPoints(c, tx, r.working);
    EverythingAnchored(c, txs, |txs|, r.confirmed, r.seen);
    IdMembers(c, txs, |txs|);
  }

  /** Conversely an admitted entry has all its inputs in the base or from kept entries. */
  lemma AdmittedKept(c: Crypto, p: Pool, r: Pool, n: nat, base: Utxos, seen: set<string>, skip: set<string>)
    requires Rebased(c, p, base, seen, skip) && n < |p.entries| && Halfway(c, p, r, n, base, seen, skip)
    requires p.entries[n].txid !in skip && Admits(c, r, p.entries[n].transaction)
    ensures Kept(c, Pending(p.entries), n, base, skip)
  {
    hide Points, TxIds, Everything, Spent, Valid, Fee, Created, Replayable, KeptEntries, Applied, CanApply, Halfway,
      Sound;
    var txs, ktxs := Pending(p.entries), Pending(r.entries);
    HalfwaySound(c, p, r, n, base, seen, skip);
    SoundReplayable(c, r);
    SoundReplayable(c, p);
    ValidPoints(c, txs[n], r.working);
    HalfwayMembers(c, p, r, n, base, seen, skip);
    forall o | o in Points(txs[n]) ensures o in base || KeptParent(c, txs, n, o, base, skip) {
      Origin(c, ktxs, |ktxs|, base, o);
      if o !in base {
        var k :| 0 <= k < |ktxs| && o in Created(c, ktxs[k]);
        CreatedId(c, ktxs[k], o);
        assert KeptFrom(c, p.entries, n, base, skip, r.entries[k]);
        var j: nat :| j < n && Kept(c, txs, j, base, skip) && p.entries[j] == r.entries[k];
        assert TxId(c, txs[j]) == o.txid;
      }
    }
  }

  lemma HalfwayMembers(c: Crypto, p: Pool, r: Pool, n: nat, base: Utxos, seen: set<string>, skip: set<string>)
    requires n <= |p.entries| && Halfway(c, p, r, n, base, seen, skip)
    ensures forall k :: 0 <= k < |r.entries| ==> KeptFrom(c, p.entries, n, base, skip, r.entries[k])
  {
    hide Kept, KeptEntries, PoolInv;
    KeptMembers(c, p.entries, n, base, skip);
    forall k | 0 <= k < |r.entries| ensures KeptFrom(c, p.entries, n, base, skip, r.entries[k]) {
      assert r.entries[k] in KeptEntries(c, p.entries, n, base, skip);
    }
  }

  /** The rebuild keeps exactly the entries `Kept` describes, with fee, size and order unchanged. */
  lemma {:induction false} RebuildExact(c: Crypto, p: Pool, n: nat, base: Utxos, seen: set<string>, skip: set<string>)
    requires Rebased(c, p, base, seen, skip) && n <= |p.entries|
    ensures Halfway(c, p, Rebuild(c, EmptyPool(base, seen, p.maxTransactions, p.maxBytes), p.entries, n, skip),
                    n, base, seen, skip)
  {
    hide Rebased, PoolInv, Admits, Applied, Fee, KeptParent;
    var start := EmptyPool(base, seen, p.maxTransactions, p.maxBytes);
    EmptyPoolInv(c, base, seen, p.maxTransactions, p.maxBytes);
    RebuildKeepsInv(c, start, p.entries, n, skip);
    if n > 0 {
      RebuildExact(c, p, n - 1, base, seen, skip);
      var r := Rebuild(c, start, p.entries, n - 1, skip);
      RebasedIds(c, p, base, seen, skip, n - 1);
      if p.entries[n - 1].txid !in skip {
        if Kept(c, Pending(p.entries), n - 1, base, skip) {
          KeptAdmitted(c, p, r, n - 1, base, seen, skip);
        } else if Admits(c, r, p.entries[n - 1].transaction) {
          AdmittedKept(c, p, r, n - 1, base, seen, skip);
        }
      }
    }
  }

  lemma RebasedIds(c: Crypto, p: Pool, base: Utxos, seen: set<string>, skip: set<string>, i: nat)
    requires Rebased(c, p, base, seen, skip) && i < |p.entries|
    ensures p.entries[i].txid == TxId(c, p.entries[i].transaction)
  {
    hide Replayable;
    SoundReplayable(c, p);
  }
}
