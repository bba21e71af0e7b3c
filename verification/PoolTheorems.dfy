/** What removal and confirmation do to a pool, entry by entry (transaction/mempool.py). */
module PoolTheorems {
  import opened Transactions
  import opened Utxo
  import opened Validation
  import opened Processing
  import opened Reordering
  import opened Mempools
  import opened Survivors
  import opened Blocks

  // ---- remove_transaction ---------------------------------------------------------

  /** Entry `i` spends an output of entry `j`. */
  ghost predicate Spends(c: Crypto, txs: seq<Transaction>, i: nat, j: nat)
    requires i < |txs| && j < |txs|
  {
    exists o :: o in Points(txs[i]) && o.txid == TxId(c, txs[j])
  }

  /** Entry `i` is entry `k` or spends, directly or through others, one of its outputs. */
  ghost predicate Descends(c: Crypto, txs: seq<Transaction>, i: nat, k: nat)
    requires i < |txs|
  {
    i == k || exists j: nat :: j < i && Spends(c, txs, i, j) && Descends(c, txs, j, k)
  }

  /** The first `n` entries without entry `k` and its descendants. */
  ghost function Without(c: Crypto, entries: seq<Entry>, n: nat, k: nat): seq<Entry>
    requires n <= |entries|
  {
    if n == 0 then []
    else Without(c, entries, n - 1, k) + if Descends(c, Pending(entries), n - 1, k) then [] else [entries[n - 1]]
  }

  /** An unconfirmed input was created by exactly one entry, an earlier one. */
  lemma OneCreator(c: Crypto, p: Pool, i: nat, o: Outpoint) returns (m: nat)
    requires Sound(c, p) && i < |p.entries| && o in Points(p.entries[i].transaction) && o !in p.confirmed
    ensures m < i && TxId(c, p.entries[m].transaction) == o.txid
    ensures forall j: nat :: j < |p.entries| && TxId(c, p.entries[j].transaction) == o.txid ==> j == m
  {
    hide Points, TxIds, Everything, Spent, Valid, Fee, Created, Replayable, PoolInv, World, EntryOk;
    var txs := Pending(p.entries);
    SoundReplayable(c, p);
    ReplayableIds(c, txs, |txs|, p.confirmed, p.seen);
    InputOrigin(c, txs, i, p.confirmed, p.seen, o);
    m :| 0 <= m < i && o in Created(c, txs[m]);
    CreatedId(c, txs[m], o);
    forall j: nat | j < |txs| && TxId(c, txs[j]) == o.txid ensures j == m {
      assert !(j < m) && !(m < j);
    }
  }

  lemma NoCreator(c: Crypto, p: Pool, i: nat, o: Outpoint)
    requires Sound(c, p) && i < |p.entries| && o in Points(p.entries[i].transaction) && o in p.confirmed
    ensures forall j: nat :: j < |p.entries| ==> TxId(c, p.entries[j].transaction) != o.txid
  {
    hide Points, TxIds, Everything, Spent, Valid, Fee, Created, Replayable, PoolInv, World, EntryOk;
    var txs := Pending(p.entries);
    SoundReplayable(c, p);
    InputOrigin(c, txs, i, p.confirmed, p.seen, o);
    IdMembers(c, txs, |txs|);
    forall j: nat | j < |txs| ensures TxId(c, p.entries[j].transaction) != o.txid {
      assert TxId(c, txs[j]) in TxIds(c, txs, |txs|);
    }
  }

  /** An input is available to the rebuild unless an earlier descendant of `k` created it. */
  lemma InputLost(c: Crypto, p: Pool, i: nat, k: nat, o: Outpoint)
    requires Sound(c, p) && i < |p.entries| && k < |p.entries| && o in Points(p.entries[i].transaction)
    requires forall j: nat :: j < i ==>
      (Kept(c, Pending(p.entries), j, p.confirmed, {p.entries[k].txid}) <==> !Descends(c, Pending(p.entries), j, k))
    ensures o in p.confirmed || KeptParent(c, Pending(p.entries), i, o, p.confirmed, {p.entries[k].txid})
       <==> !exists j: nat :: j < i && o.txid == TxId(c, p.entries[j].transaction)
                              && Descends(c, Pending(p.entries), j, k)
  {
    hide Points, Sound, Kept, Descends, TxId;
    if o in p.confirmed {
      NoCreator(c, p, i, o);
    } else {
      var m := OneCreator(c, p, i, o);
      assert TxId(c, Pending(p.entries)[m]) == o.txid;
    }
  }

  lemma {:induction false} KeptIffNoDescent(c: Crypto, p: Pool, i: nat, k: nat)
    requires Sound(c, p) && i < |p.entries| && k < |p.entries|
    ensures Kept(c, Pending(p.entries), i, p.confirmed, {p.entries[k].txid})
       <==> !Descends(c, Pending(p.entries), i, k)
    decreases i
  {
    hide Points, Sound;
    var txs := Pending(p.entries);
    forall j: nat | j < i
      ensures Kept(c, txs, j, p.confirmed, {p.entries[k].txid}) <==> !Descends(c, txs, j, k)
    {
      KeptIffNoDescent(c, p, j, k);
    }
    SameEntry(c, p, i, k);
    forall o | o in Points(txs[i])
      ensures o in p.confirmed || KeptParent(c, txs, i, o, p.confirmed, {p.entries[k].txid})
         <==> !exists j: nat :: j < i && o.txid == TxId(c, txs[j]) && Descends(c, txs, j, k)
    {
      InputLost(c, p, i, k, o);
    }
  }

  lemma SameEntry(c: Crypto, p: Pool, i: nat, k: nat)
    requires Sound(c, p) && i < |p.entries| && k < |p.entries|
    ensures TxId(c, p.entries[i].transaction) == p.entries[k].txid <==> i == k
  {
    hide TxIds, Replayable, PoolInv;
    var txs := Pending(p.entries);
    SoundReplayable(c, p);
    ReplayableIds(c, txs, |txs|, p.confirmed, p.seen);
    assert p.entries[k].txid == TxId(c, txs[k]);
    assert i < k ==> TxId(c, txs[i]) != TxId(c, txs[k]);
  }

  lemma {:induction false} KeptIsWithout(c: Crypto, p: Pool, n: nat, k: nat)
    requires Sound(c, p) && n <= |p.entries| && k < |p.entries|
    ensures KeptEntries(c, p.entries, n, p.confirmed, {p.entries[k].txid}) == Without(c, p.entries, n, k)
  {
    hide Sound, Kept, Descends;
    if n > 0 {
      KeptIsWithout(c, p, n - 1, k);
      KeptIffNoDescent(c, p, n - 1, k);
    }
  }

  /**
   Removing entry `k` leaves exactly the entries that do not descend from it, each with the
   fee, size and relative order it had.
   */
  lemma RemovalExact(c: Crypto, p: Pool, k: nat)
    requires Sound(c, p) && k < |p.entries|
    ensures Removed(c, p, p.entries[k].txid).entries == Without(c, p.entries, |p.entries|, k)
    ensures Sound(c, Removed(c, p, p.entries[k].txid))
  {
    hide PoolInv, Rebased, KeptEntries, Descends, TryAdd;
    var skip := {p.entries[k].txid};
    assert Has(p.entries, p.entries[k].txid);
    SameBase(c, p, skip);
    RebuildExact(c, p, |p.entries|, p.confirmed, p.seen, skip);
    KeptIsWithout(c, p, |p.entries|, k);
    RebuildFrame(c, EmptyPool(p.confirmed, p.seen, p.maxTransactions, p.maxBytes), p.entries, |p.entries|, skip);
  }

  lemma {:induction false} WithoutMembers(c: Crypto, entries: seq<Entry>, n: nat, k: nat)
    requires n <= |entries|
    ensures forall e :: e in Without(c, entries, n, k)
                   ==> exists j: nat :: j < n && entries[j] == e && !Descends(c, Pending(entries), j, k)
  {
    hide Descends, Pending;
    if n > 0 {
      WithoutMembers(c, entries, n - 1, k);
    }
  }

  lemma {:induction false} WithoutAppears(c: Crypto, entries: seq<Entry>, n: nat, k: nat, j: nat)
    requires j < n <= |entries| && !Descends(c, Pending(entries), j, k)
    ensures entries[j] in Without(c, entries, n, k)
  {
    hide Descends, Pending;
    if j < n - 1 {
      WithoutAppears(c, entries, n - 1, k, j);
    }
  }

  /** Some entry that does not descend from `k` created `o`. */
  ghost predicate SurvivorCreates(c: Crypto, p: Pool, k: nat, o: Outpoint) {
    exists m: nat :: m < |p.entries| && o in Created(c, p.entries[m].transaction)
      && !Descends(c, Pending(p.entries), m, k)
  }

  /** After the removal, no survivor spends what the removed entries had reserved. */
  lemma NoSurvivorSpends(c: Crypto, p: Pool, k: nat, i: nat, o: Outpoint)
    requires Sound(c, p) && k < |p.entries| && i < |p.entries|
    requires Descends(c, Pending(p.entries), i, k) && o in Points(p.entries[i].transaction)
    ensures var q := Removed(c, p, p.entries[k].txid); o !in Spent(Pending(q.entries), |q.entries|)
  {
    hide Points, TxIds, Everything, Spent, Valid, Fee, Created, Replayable, PoolInv, Removed, Descends, Without;
    var txs, q := Pending(p.entries), Removed(c, p, p.entries[k].txid);
    var qtxs := Pending(q.entries);
    RemovalExact(c, p, k);
    SoundReplayable(c, p);
    ReplayableIds(c, txs, |txs|, p.confirmed, p.seen);
    SpentMembers(qtxs, |qtxs|);
    WithoutMembers(c, p.entries, |p.entries|, k);
    forall m | 0 <= m < |qtxs| ensures o !in Points(qtxs[m]) {
      assert q.entries[m] in Without(c, p.entries, |p.entries|, k);
      var j: nat :| j < |p.entries| && p.entries[j] == q.entries[m] && !Descends(c, txs, j, k);
      assert qtxs[m] == txs[j] && j != i;
      assert j < i || i < j;
    }
  }

  /** An output seen by the reduced pool is confirmed or was created by a survivor. */
  lemma SurvivingWorld(c: Crypto, p: Pool, k: nat, o: Outpoint)
    requires Sound(c, p) && k < |p.entries|
    requires o in p.confirmed ==> forall j: nat :: j < |p.entries| ==> TxId(c, p.entries[j].transaction) != o.txid
    ensures o in World(c, Removed(c, p, p.entries[k].txid)) <==> o in p.confirmed || SurvivorCreates(c, p, k, o)
  {
    hide Points, TxIds, Everything, Spent, Valid, Fee, Created, Replayable, PoolInv, Removed, Descends, Without;
    var q := Removed(c, p, p.entries[k].txid);
    var qtxs, n := Pending(q.entries), |p.entries|;
    RemovalExact(c, p, k);
    RemovedBase(c, p, p.entries[k].txid);
    SoundReplayable(c, q);
    ReplayableIds(c, qtxs, |qtxs|, q.confirmed, q.seen);
    WithoutMembers(c, p.entries, n, k);
    if o in World(c, q) && o !in p.confirmed {
      Origin(c, qtxs, |qtxs|, q.confirmed, o);
      var m :| 0 <= m < |qtxs| && o in Created(c, qtxs[m]);
      assert q.entries[m] in Without(c, p.entries, n, k);
      var j: nat :| j < n && p.entries[j] == q.entries[m] && !Descends(c, Pending(p.entries), j, k);
    }
    if SurvivorCreates(c, p, k, o) {
      var m: nat :| m < n && o in Created(c, p.entries[m].transaction) && !Descends(c, Pending(p.entries), m, k);
      WithoutAppears(c, p.entries, n, k, m);
      var j :| 0 <= j < |q.entries| && q.entries[j] == p.entries[m];
      CreatedOutput(c, qtxs, |qtxs|, j, q.confirmed, o);
    } else if o in p.confirmed {
      IdMembers(c, qtxs, |qtxs|);
      forall j | 0 <= j < |qtxs| ensures TxId(c, qtxs[j]) != o.txid {
        assert q.entries[j] in Without(c, p.entries, n, k);
      }
      BaseOutput(c, qtxs, |qtxs|, q.confirmed, o);
    }
  }

  /**
   No input of a removed entry was spendable before, and after the removal it is spendable
   exactly when it is confirmed or was created by an entry that stays.
   */
  lemma RemovalFreesInputs(c: Crypto, p: Pool, k: nat, i: nat, o: Outpoint)
    requires Sound(c, p) && k < |p.entries| && i < |p.entries|
    requires Descends(c, Pending(p.entries), i, k) && o in Points(p.entries[i].transaction)
    ensures o !in p.working
    ensures o in Removed(c, p, p.entries[k].txid).working <==> o in p.confirmed || SurvivorCreates(c, p, k, o)
  {
    hide Points, TxIds, Everything, Spent, Valid, Fee, Created, Replayable, PoolInv, Removed, Descends, Without,
         SurvivorCreates, World;
    var txs, q := Pending(p.entries), Removed(c, p, p.entries[k].txid);
    RemovalExact(c, p, k);
    SoundReplayable(c, p);
    SoundReplayable(c, q);
    SpentMembers(txs, |txs|);
    NoSurvivorSpends(c, p, k, i, o);
    if o in p.confirmed {
      NoCreator(c, p, i, o);
    }
    SurvivingWorld(c, p, k, o);
  }

  lemma RemovedBase(c: Crypto, p: Pool, txid: string)
    ensures Removed(c, p, txid).confirmed == p.confirmed && Removed(c, p, txid).seen == p.seen
  {
    hide TryAdd;
    RebuildFrame(c, EmptyPool(p.confirmed, p.seen, p.maxTransactions, p.maxBytes), p.entries, |p.entries|, {txid});
  }

  // ---- revalidated ----------------------------------------------------------------

  /** Entry `i` needs something the block spent, directly or through an unconfirmed entry. */
  ghost predicate Doomed(c: Crypto, txs: seq<Transaction>, i: nat, spent: set<Outpoint>, seen: set<string>)
    requires i < |txs|
    decreases i, 1
  {
    exists o :: o in Points(txs[i]) && (o in spent || DoomedParent(c, txs, i, o, spent, seen))
  }

  ghost predicate DoomedParent(c: Crypto, txs: seq<Transaction>, i: nat, o: Outpoint, spent: set<Outpoint>,
                               seen: set<string>)
    requires i <= |txs|
    decreases i, 0
  {
    exists j: nat :: j < i && TxId(c, txs[j]) == o.txid && o.txid !in seen && Doomed(c, txs, j, spent, seen)
  }

  /** The first `n` entries that are unconfirmed and not doomed. */
  ghost function Unaffected(c: Crypto, entries: seq<Entry>, n: nat, spent: set<Outpoint>, seen: set<string>): seq<Entry>
    requires n <= |entries|
  {
    if n == 0 then []
    else Unaffected(c, entries, n - 1, spent, seen)
         + if entries[n - 1].txid in seen || Doomed(c, Pending(entries), n - 1, spent, seen) then []
           else [entries[n - 1]]
  }

  /** The pool sits on `state`, and no identifier of the block names a different pending transaction. */
  ghost predicate PoolOn(c: Crypto, p: Pool, b: Block, state: ChainState) {
    && Sound(c, p) && p.confirmed == state.utxos && p.seen == state.seen
    && b.transactions != [] && ApplyBlock(c, b, state).Some?
    && forall i, j :: 0 <= i < |b.transactions| && 0 <= j < |p.entries|
                      && TxId(c, b.transactions[i]) == TxId(c, Pending(p.entries)[j])
                      ==> b.transactions[i] == Pending(p.entries)[j]
  }

  /** The state after a block, as everything minus spent plus the coinbase. */
  lemma AfterBlockClosed(c: Crypto, b: Block, state: ChainState)
    requires Anchored(state.utxos, state.seen) && ApplyBlock(c, b, state).Some?
    ensures b.transactions != [] && b.transactions[0].inputs == []
    ensures TxId(c, b.transactions[0]) !in state.seen
    ensures var txs, next := b.transactions[1..], ApplyBlock(c, b, state).value;
      && Replayable(c, txs, |txs|, state.utxos, state.seen)
      && next.seen == state.seen + TxIds(c, txs, |txs|) + {TxId(c, b.transactions[0])}
      && next.utxos == (Everything(c, txs, |txs|, state.utxos) - Spent(txs, |txs|)) + Created(c, b.transactions[0])
      && Spent(txs, |txs|) <= Everything(c, txs, |txs|, state.utxos).Keys
  {
    hide Everything, Spent, Fits, ApplyFirst, TxIds, Created, Replayable;
    var txs := b.transactions[1..];
    SequentialIsStatic(c, txs, |txs|, state.utxos, state.seen);
  }

  /** Where an input of a pending transaction stands after the block. */
  lemma InputAfterBlock(c: Crypto, p: Pool, b: Block, state: ChainState, i: nat, o: Outpoint)
    requires PoolOn(c, p, b, state) && i < |p.entries| && o in Points(p.entries[i].transaction)
    ensures var next, spent := ApplyBlock(c, b, state).value, Spent(b.transactions[1..], |b.transactions| - 1);
      && (o in next.utxos <==> o.txid in next.seen && o !in spent)
      && (o in spent ==> o.txid in next.seen)
      && (o in next.utxos ==> o in World(c, p) && next.utxos[o] == World(c, p)[o])
  {
    hide Points, TxIds, Everything, Spent, Valid, Fee, Created, Replayable, PoolInv, ApplyBlock;
    var txs, ptxs := b.transactions[1..], Pending(p.entries);
    AfterBlockClosed(c, b, state);
    SoundReplayable(c, p);
    InputOrigin(c, ptxs, i, p.confirmed, p.seen, o);
    ReplayableIds(c, txs, |txs|, state.utxos, state.seen);
    EverythingAnchored(c, txs, |txs|, state.utxos, state.seen);
    if o in p.confirmed {
      BaseOutput(c, txs, |txs|, state.utxos, o);
      BaseOutput(c, ptxs, |ptxs|, p.confirmed, o);
      NotCoinbaseOutput(c, b.transactions[0], o);
    } else {
      var j :| 0 <= j < i && o in Created(c, ptxs[j]);
      PendingInputAfterBlock(c, p, b, state, i, j, o);
    }
  }

  lemma NotCoinbaseOutput(c: Crypto, coinbase: Transaction, o: Outpoint)
    requires o.txid != TxId(c, coinbase)
    ensures o !in Created(c, coinbase)
  {
  }

  lemma PendingInputAfterBlock(c: Crypto, p: Pool, b: Block, state: ChainState, i: nat, j: nat, o: Outpoint)
    requires PoolOn(c, p, b, state) && i < |p.entries| && o in Points(p.entries[i].transaction)
    requires j < i && o in Created(c, p.entries[j].transaction) && o !in p.confirmed
    ensures var next, spent := ApplyBlock(c, b, state).value, Spent(b.transactions[1..], |b.transactions| - 1);
      && (o in next.utxos <==> o.txid in next.seen && o !in spent)
      && (o in spent ==> o.txid in next.seen)
      && (o in next.utxos ==> o in World(c, p) && next.utxos[o] == World(c, p)[o])
  {
    hide Points, TxIds, Everything, Spent, Valid, Fee, Created, Replayable, PoolInv, ApplyBlock;
    var txs, ptxs := b.transactions[1..], Pending(p.entries);
    AfterBlockClosed(c, b, state);
    SoundReplayable(c, p);
    ReplayableIds(c, txs, |txs|, state.utxos, state.seen);
    ReplayableIds(c, ptxs, |ptxs|, p.confirmed, p.seen);
    EverythingAnchored(c, txs, |txs|, state.utxos, state.seen);
    CreatedId(c, ptxs[j], o);
    CreatedOutput(c, ptxs, |ptxs|, j, p.confirmed, o);
    IdMembers(c, ptxs, |ptxs|);
    IdMembers(c, txs, |txs|);
    NotCoinbase(c, p, b, state, j);
    NotCoinbaseOutput(c, b.transactions[0], o);
    if o.txid in TxIds(c, txs, |txs|) {
      var m :| 0 <= m < |txs| && TxId(c, txs[m]) == o.txid;
      assert b.transactions[m + 1] == txs[m];
      assert TxId(c, b.transactions[m + 1]) == TxId(c, ptxs[j]);
      CreatedOutput(c, txs, |txs|, m, state.utxos, o);
    }
  }

  /** A pending transaction has inputs, so it is not the coinbase. */
  lemma NotCoinbase(c: Crypto, p: Pool, b: Block, state: ChainState, j: nat)
    requires PoolOn(c, p, b, state) && j < |p.entries|
    ensures TxId(c, p.entries[j].transaction) != TxId(c, b.transactions[0])
  {
    hide TxIds, Everything, Spent, Fee, Created, Replayable, PoolInv, ApplyBlock, Points;
    AfterBlockClosed(c, b, state);
    StoredFee(c, p, j);
    var tx := Pending(p.entries)[j];
    assert tx.inputs != [] && b.transactions[0] != tx;
  }

  lemma BlockRebased(c: Crypto, p: Pool, b: Block, state: ChainState)
    requires PoolOn(c, p, b, state)
    ensures var next := ApplyBlock(c, b, state).value; Rebased(c, p, next.utxos, next.seen, next.seen)
  {
    hide Points, World, PoolInv, ApplyBlock;
    var next := ApplyBlock(c, b, state).value;
    ApplyBlockAnchored(c, b, state);
    forall i, o | 0 <= i < |p.entries| && o in Points(Pending(p.entries)[i]) && o in next.utxos && o in World(c, p)
      ensures next.utxos[o] == World(c, p)[o]
    {
      InputAfterBlock(c, p, b, state, i, o);
    }
  }

  lemma {:induction false} KeptIffUnaffected(c: Crypto, p: Pool, b: Block, state: ChainState, i: nat)
    requires PoolOn(c, p, b, state) && i < |p.entries|
    ensures var txs, next := Pending(p.entries), ApplyBlock(c, b, state).value;
      Kept(c, txs, i, next.utxos, next.seen)
      <==> p.entries[i].txid !in next.seen
           && !Doomed(c, txs, i, Spent(b.transactions[1..], |b.transactions| - 1), next.seen)
    decreases i
  {
    hide Points, World, PoolInv, ApplyBlock, Spent, Sound, Replayable, Anchored;
    var txs, next := Pending(p.entries), ApplyBlock(c, b, state).value;
    var spent := Spent(b.transactions[1..], |b.transactions| - 1);
    PoolFacts(c, p, b, state);
    forall j: nat | j < i
      ensures Kept(c, txs, j, next.utxos, next.seen)
         <==> p.entries[j].txid !in next.seen && !Doomed(c, txs, j, spent, next.seen)
    {
      KeptIffUnaffected(c, p, b, state, j);
    }
    forall o | o in Points(txs[i])
      ensures o in next.utxos || KeptParent(c, txs, i, o, next.utxos, next.seen)
         <==> !(o in spent || DoomedParent(c, txs, i, o, spent, next.seen))
    {
      InputAfterBlock(c, p, b, state, i, o);
      PendingCreator(c, p, b, state, i, o);
    }
  }

  lemma PoolFacts(c: Crypto, p: Pool, b: Block, state: ChainState)
    requires PoolOn(c, p, b, state)
    ensures forall i :: 0 <= i < |p.entries| ==> p.entries[i].txid == TxId(c, Pending(p.entries)[i])
    ensures DistinctIds(c, Pending(p.entries), |p.entries|)
    ensures Anchored(p.confirmed, ApplyBlock(c, b, state).value.seen)
  {
    hide Replayable, PoolInv, ApplyBlock, World, Everything, Spent;
    SoundReplayable(c, p);
    ReplayableIds(c, Pending(p.entries), |p.entries|, p.confirmed, p.seen);
    AfterBlockClosed(c, b, state);
  }

  /** An input whose creator is unconfirmed comes from exactly one earlier entry. */
  lemma PendingCreator(c: Crypto, p: Pool, b: Block, state: ChainState, i: nat, o: Outpoint)
    requires PoolOn(c, p, b, state) && i < |p.entries| && o in Points(p.entries[i].transaction)
    ensures o.txid !in ApplyBlock(c, b, state).value.seen ==>
      exists j: nat :: j < i && TxId(c, Pending(p.entries)[j]) == o.txid
                       && forall k: nat :: k < i && TxId(c, Pending(p.entries)[k]) == o.txid ==> k == j
  {
    hide Points, TxIds, Everything, Spent, Valid, Fee, Created, Replayable, PoolInv, ApplyBlock;
    var txs := Pending(p.entries);
    PoolFacts(c, p, b, state);
    SoundReplayable(c, p);
    InputOrigin(c, txs, i, p.confirmed, p.seen, o);
    if o !in p.confirmed {
      var j :| 0 <= j < i && o in Created(c, txs[j]);
      CreatedId(c, txs[j], o);
      forall k: nat | k < i && TxId(c, txs[k]) == o.txid ensures k == j {
        assert !(k < j) && !(j < k);
      }
    }
  }

  lemma {:induction false} KeptIsUnaffected(c: Crypto, p: Pool, b: Block, state: ChainState, n: nat)
    requires PoolOn(c, p, b, state) && n <= |p.entries|
    ensures var next := ApplyBlock(c, b, state).value;
      KeptEntries(c, p.entries, n, next.utxos, next.seen)
      == Unaffected(c, p.entries, n, Spent(b.transactions[1..], |b.transactions| - 1), next.seen)
  {
    hide Kept, Doomed, ApplyBlock, Spent, Sound;
    if n > 0 {
      KeptIsUnaffected(c, p, b, state, n - 1);
      KeptIffUnaffected(c, p, b, state, n - 1);
    }
  }

  /**
   After a block the revalidated pool keeps exactly the unconfirmed entries that neither
   spend an outpoint the block spent nor descend through unconfirmed entries from one that does.
   */
  lemma RevalidationExact(c: Crypto, p: Pool, b: Block, state: ChainState)
    requires PoolOn(c, p, b, state)
    ensures var next := ApplyBlock(c, b, state).value;
      && Revalidated(c, p, next.utxos, next.seen).entries
         == Unaffected(c, p.entries, |p.entries|, Spent(b.transactions[1..], |b.transactions| - 1), next.seen)
      && Sound(c, Revalidated(c, p, next.utxos, next.seen))
      && Revalidated(c, p, next.utxos, next.seen).confirmed == next.utxos
      && Revalidated(c, p, next.utxos, next.seen).seen == next.seen
  {
    hide PoolInv, Rebased, KeptEntries, Doomed, TryAdd, ApplyBlock, Spent;
    var next := ApplyBlock(c, b, state).value;
    BlockRebased(c, p, b, state);
    NextAnchored(c, p, b, state);
    RebuildExact(c, p, |p.entries|, next.utxos, next.seen, next.seen);
    KeptIsUnaffected(c, p, b, state, |p.entries|);
  }

  lemma NextAnchored(c: Crypto, p: Pool, b: Block, state: ChainState)
    requires PoolOn(c, p, b, state)
    ensures Anchored(ApplyBlock(c, b, state).value.utxos, ApplyBlock(c, b, state).value.seen)
  {
    hide ApplyAll, ValidCoinbase, PoolInv;
    ApplyBlockAnchored(c, b, state);
  }

  /** The first `n` entries whose identifiers are not in `ids`. */
  function Unselected(entries: seq<Entry>, n: nat, ids: set<string>): seq<Entry>
    requires n <= |entries|
  {
    if n == 0 then []
    else Unselected(entries, n - 1, ids) + if entries[n - 1].txid in ids then [] else [entries[n - 1]]
  }

  /** A block built from the pool's own parents-first choice dooms nothing it did not take. */
  lemma {:induction false} OwnBlockDoomsNothing(c: Crypto, p: Pool, b: Block, state: ChainState, i: nat)
    requires PoolOn(c, p, b, state) && i < |p.entries|
    requires ParentsFirst(c, Pending(p.entries), b.transactions[1..])
    requires p.entries[i].txid !in ApplyBlock(c, b, state).value.seen
    ensures !Doomed(c, Pending(p.entries), i, Spent(b.transactions[1..], |b.transactions| - 1),
                    ApplyBlock(c, b, state).value.seen)
    decreases i
  {
    hide Points, TxIds, Everything, Spent, Valid, Fee, Created, Replayable, PoolInv, ApplyBlock, Sound, Anchored;
    var txs, picked, next := Pending(p.entries), b.transactions[1..], ApplyBlock(c, b, state).value;
    PoolFacts(c, p, b, state);
    PickedDisjoint(c, p, b, state, i);
    forall j: nat | j < i && TxId(c, txs[j]) !in next.seen
      ensures !Doomed(c, txs, j, Spent(picked, |picked|), next.seen)
    {
      OwnBlockDoomsNothing(c, p, b, state, j);
    }
  }

  lemma PickedDisjoint(c: Crypto, p: Pool, b: Block, state: ChainState, i: nat)
    requires PoolOn(c, p, b, state) && i < |p.entries|
    requires ParentsFirst(c, Pending(p.entries), b.transactions[1..])
    requires p.entries[i].txid !in ApplyBlock(c, b, state).value.seen
    ensures Points(p.entries[i].transaction) !! Spent(b.transactions[1..], |b.transactions| - 1)
  {
    hide Points, TxIds, Everything, Spent, Valid, Fee, Created, Replayable, PoolInv, ApplyBlock;
    var txs, picked := Pending(p.entries), b.transactions[1..];
    SoundReplayable(c, p);
    AfterBlockClosed(c, b, state);
    ReplayableIds(c, txs, |txs|, p.confirmed, p.seen);
    SpentMembers(picked, |picked|);
    IdMembers(c, picked, |picked|);
    forall m | 0 <= m < |picked| ensures Points(picked[m]) !! Points(txs[i]) {
      var j :| 0 <= j < |txs| && txs[j] == picked[m];
      assert j != i;
      assert j < i || i < j;
    }
  }

  lemma {:induction false} OwnBlockUnselected(c: Crypto, p: Pool, b: Block, state: ChainState, n: nat)
    requires PoolOn(c, p, b, state) && n <= |p.entries|
    requires ParentsFirst(c, Pending(p.entries), b.transactions[1..])
    ensures Unaffected(c, p.entries, n, Spent(b.transactions[1..], |b.transactions| - 1),
                       ApplyBlock(c, b, state).value.seen)
         == Unselected(p.entries, n, TxIds(c, b.transactions[1..], |b.transactions| - 1))
  {
    hide Doomed, ApplyBlock, Spent, ParentsFirst, TxIds, Sound;
    if n > 0 {
      OwnBlockUnselected(c, p, b, state, n - 1);
      ConfirmedIffPicked(c, p, b, state, n - 1);
      if p.entries[n - 1].txid !in ApplyBlock(c, b, state).value.seen {
        OwnBlockDoomsNothing(c, p, b, state, n - 1);
      }
    }
  }

  lemma ConfirmedIffPicked(c: Crypto, p: Pool, b: Block, state: ChainState, i: nat)
    requires PoolOn(c, p, b, state) && i < |p.entries|
    ensures p.entries[i].txid in ApplyBlock(c, b, state).value.seen
       <==> p.entries[i].txid in TxIds(c, b.transactions[1..], |b.transactions| - 1)
  {
    hide Points, TxIds, Everything, Spent, Valid, Fee, Created, Replayable, PoolInv, ApplyBlock;
    AfterBlockClosed(c, b, state);
    SoundReplayable(c, p);
    NotCoinbase(c, p, b, state, i);
    ReplayableIds(c, Pending(p.entries), |p.entries|, p.confirmed, p.seen);
    IdMembers(c, Pending(p.entries), |p.entries|);
  }

  /** After a block mined from the pool's own selection, exactly the unselected entries remain. */
  lemma OwnBlockLeavesUnselected(c: Crypto, p: Pool, b: Block, state: ChainState)
    requires PoolOn(c, p, b, state)
    requires ParentsFirst(c, Pending(p.entries), b.transactions[1..])
    ensures var next := ApplyBlock(c, b, state).value;
      Revalidated(c, p, next.utxos, next.seen).entries
      == Unselected(p.entries, |p.entries|, TxIds(c, b.transactions[1..], |b.transactions| - 1))
  {
    hide ApplyBlock, Spent, ParentsFirst, TxIds, Revalidated, Unaffected, Sound;
    RevalidationExact(c, p, b, state);
    OwnBlockUnselected(c, p, b, state, |p.entries|);
  }
}
