/**
 Durable storage of the chain and pool as a compare-and-swap record
 (storage/chain_store.py, storage/chainstate_store.py, blockchain/blockchain.py).

 The database file is one atomic record.  A write either takes effect or not, and the
 caller may lose its answer in both cases.
 */
module Stores {
  import opened Prelude
  import opened Transactions
  import opened Utxo
  import opened Validation
  import opened Processing
  import opened Reordering
  import opened Mempools
  import opened Survivors
  import opened Blocks
  import opened Chains

  const MAX_SQLITE_INTEGER: int := 0x7FFF_FFFF_FFFF_FFFF

  datatype PoolRow = PoolRow(position: int, txid: string, transaction: Transaction)

  datatype Metadata = Metadata(height: int, tipHash: string, revision: int,
                               maxTransactions: Limit, maxBytes: Limit, mempoolDigest: string)

  /** Everything one database file holds. */
  datatype Disk = Disk(metadata: Metadata, blocks: seq<Block>, utxoRows: Utxos, seenRows: set<string>,
                       poolRows: seq<PoolRow>)

  function PoolDigest(c: Crypto, ids: seq<string>): string {
    c.sha256Hex(c.idListBody(ids))
  }

  /** `encode_mempool_rows` */
  function PoolRows(c: Crypto, p: Pool): (r: seq<PoolRow>)
    ensures |r| == |p.entries|
    ensures forall i :: 0 <= i < |r| ==>
      r[i] == PoolRow(i, TxId(c, p.entries[i].transaction), p.entries[i].transaction)
  {
    seq(|p.entries|, i requires 0 <= i < |p.entries| =>
      PoolRow(i, TxId(c, p.entries[i].transaction), p.entries[i].transaction))
  }

  /** What the encoder accepts: recorded creators, indices that fit, valid addresses and positive amounts. */
  predicate Storable(c: Crypto, state: ChainState) {
    && (forall id :: id in state.seen ==> IsHash(id))
    && (forall o | o in state.utxos :: OutputStorable(c, state, o))
  }

  predicate OutputStorable(c: Crypto, state: ChainState, o: Outpoint)
    requires o in state.utxos
  {
    o.txid in state.seen && 0 <= o.index <= MAX_SQLITE_INTEGER && IsValidOutput(c, state.utxos[o])
  }

  /** What the encoders accept for writing. */
  predicate Encodable(c: Crypto, ch: Chain, revision: int)
    requires ch.blocks != []
  {
    && |ch.blocks| - 1 <= MAX_SQLITE_INTEGER
    && revision <= MAX_SQLITE_INTEGER
    && IsHash(TipHash(c, ch.blocks))
    && IsHash(PoolDigest(c, IdList(c, Pending(ch.pool.entries))))
    && Storable(c, ch.state)
    && |ch.pool.entries| <= ch.pool.maxTransactions
    && ch.pool.totalBytes <= ch.pool.maxBytes
  }

  /** The complete record for a chain at a revision. */
  function DiskOf(c: Crypto, ch: Chain, revision: int): Disk
    requires ch.blocks != []
  {
    Disk(Metadata(|ch.blocks| - 1, TipHash(c, ch.blocks), revision, ch.pool.maxTransactions, ch.pool.maxBytes,
                  PoolDigest(c, IdList(c, Pending(ch.pool.entries)))),
         ch.blocks, ch.state.utxos, ch.state.seen, PoolRows(c, ch.pool))
  }

  /** `_check_expected`: height, tip, revision, last row and limits are what the writer last saw. */
  predicate Expected(c: Crypto, d: Disk, ch: Chain, revision: int)
    requires ch.blocks != []
  {
    && d.metadata.height == |ch.blocks| - 1
    && d.metadata.tipHash == TipHash(c, ch.blocks)
    && d.metadata.revision == revision
    && d.blocks != [] && |d.blocks| == |ch.blocks| && TipHash(c, d.blocks) == TipHash(c, ch.blocks)
    && d.metadata.maxTransactions == ch.pool.maxTransactions
    && d.metadata.maxBytes == ch.pool.maxBytes
  }

  /** The rows `append_block` or `replace_mempool` leaves behind when it commits. */
  function Written(c: Crypto, d: Disk, ch: Chain, next: Chain): Disk
    requires ch.blocks != [] && next.blocks != []
  {
    var digest := PoolDigest(c, IdList(c, Pending(next.pool.entries)));
    if |next.blocks| > |ch.blocks| then
      Disk(d.metadata.(height := |ch.blocks|, tipHash := TipHash(c, next.blocks),
                       revision := d.metadata.revision + 1, mempoolDigest := digest),
           d.blocks + [next.blocks[|next.blocks| - 1]], next.state.utxos, next.state.seen, PoolRows(c, next.pool))
    else
      d.(metadata := d.metadata.(revision := d.metadata.revision + 1, mempoolDigest := digest),
         poolRows := PoolRows(c, next.pool))
  }

  datatype Fault = NoFault | LostBeforeCommit | LostAfterCommit

  datatype Report = Returned(ok: bool) | Unusable | Failed

  /** One opened blockchain object: its published view and whether it still serves. */
  datatype Instance = Instance(chain: Chain, revision: int, storageFailed: bool, closed: bool)

  datatype Effect = Effect(disk: Disk, instance: Instance, report: Report)

  /** One mutating call on a persistent instance, under a fault chosen by the environment. */
  function Perform(c: Crypto, d: Disk, inst: Instance, op: Operation, fault: Fault): Effect
    requires inst.chain.blocks != []
  {
    if inst.closed || inst.storageFailed then Effect(d, inst, Unusable)
    else if !Accepted(c, inst.chain, op) then Effect(d, inst, Returned(false))
    else
      var next := Step(c, inst.chain, op);
      var broken := inst.(storageFailed := true);
      if !Encodable(c, next, inst.revision + 1) then Effect(d, broken, Failed)
      else if !Expected(c, d, inst.chain, inst.revision) then Effect(d, broken, Failed)
      else match fault
        case LostBeforeCommit => Effect(d, broken, Failed)
        case LostAfterCommit => Effect(Written(c, d, inst.chain, next), broken, Failed)
        case NoFault =>
          Effect(Written(c, d, inst.chain, next), Instance(next, inst.revision + 1, false, false), Returned(true))
  }

  // ---- loading --------------------------------------------------------------------

  /** `read_mempool_rows` up to row `n`: positions, identifiers and admissions are all checked. */
  function ReadPool(c: Crypto, start: Pool, rows: seq<PoolRow>, n: nat): Option<Pool>
    requires n <= |rows|
  {
    if n == 0 then Some(start)
    else match ReadPool(c, start, rows, n - 1)
      case None => None
      case Some(p) =>
        var row := rows[n - 1];
        if row.position != n - 1 || row.txid != TxId(c, row.transaction) || !Admits(c, p, row.transaction) then None
        else Some(TryAdd(c, p, row.transaction))
  }

  /** `load_or_initialize` on an existing file; None stands for the corruption and configuration errors. */
  function Load(c: Crypto, d: Disk, now: int, maxTransactions: Option<Limit>,
                maxBytes: Option<Limit>): Option<Instance> {
    if || !IsHash(d.metadata.tipHash) || !IsHash(d.metadata.mempoolDigest)
       || d.metadata.height < 0 || d.metadata.revision < d.metadata.height
       || (maxTransactions.Some? && maxTransactions.value != d.metadata.maxTransactions)
       || (maxBytes.Some? && maxBytes.value != d.metadata.maxBytes)
       || d.blocks == [] || BlockHash(c, d.blocks[0]) != GENESIS_HASH
       || d.metadata.height != |d.blocks| - 1 || d.metadata.tipHash != TipHash(c, d.blocks)
    then None
    else match Replay(c, d.blocks, |d.blocks|, now)
      case None => None
      case Some(state) =>
        if d.seenRows != state.seen || d.utxoRows != state.utxos then None
        else
          var start := EmptyPool(state.utxos, state.seen, d.metadata.maxTransactions, d.metadata.maxBytes);
          match ReadPool(c, start, d.poolRows, |d.poolRows|)
          case None => None
          case Some(pool) =>
            if PoolDigest(c, IdList(c, Pending(pool.entries))) != d.metadata.mempoolDigest then None
            else Some(Instance(Chain(d.blocks, state, pool), d.metadata.revision, false, false))
  }

  /** Offering a sound pool's own entries to an empty pool rebuilds it. */
  lemma {:induction false} AllKept(c: Crypto, p: Pool, i: nat)
    requires Sound(c, p) && i < |p.entries|
    ensures Kept(c, Pending(p.entries), i, p.confirmed, {})
    decreases i
  {
    hide Points, TxIds, Everything, Spent, Valid, Fee, Created, Replayable, PoolInv;
    var txs := Pending(p.entries);
    SoundReplayable(c, p);
    forall j: nat | j < i ensures Kept(c, txs, j, p.confirmed, {}) {
      AllKept(c, p, j);
    }
    forall o | o in Points(txs[i]) ensures o in p.confirmed || KeptParent(c, txs, i, o, p.confirmed, {}) {
      InputOrigin(c, txs, i, p.confirmed, p.seen, o);
      if o !in p.confirmed {
        var j :| 0 <= j < i && o in Created(c, txs[j]);
        CreatedId(c, txs[j], o);
      }
    }
  }

  lemma {:induction false} KeepsEverything(c: Crypto, p: Pool, n: nat)
    requires Sound(c, p) && n <= |p.entries|
    ensures KeptEntries(c, p.entries, n, p.confirmed, {}) == p.entries[..n]
  {
    hide Sound, Kept;
    if n > 0 {
      KeepsEverything(c, p, n - 1);
      AllKept(c, p, n - 1);
    }
  }

  /** The row reader admits every stored row and reaches the pool a rebuild reaches. */
  lemma {:induction false} ReadPoolSucceeds(c: Crypto, p: Pool, n: nat)
    requires Sound(c, p) && n <= |p.entries|
    ensures ReadPool(c, EmptyPool(p.confirmed, p.seen, p.maxTransactions, p.maxBytes), PoolRows(c, p), n)
         == Some(Rebuild(c, EmptyPool(p.confirmed, p.seen, p.maxTransactions, p.maxBytes), p.entries, n, {}))
  {
    hide Sound, Kept, Admits, TryAdd, Rebased, KeptEntries, PoolInv;
    if n > 0 {
      ReadPoolSucceeds(c, p, n - 1);
      var start := EmptyPool(p.confirmed, p.seen, p.maxTransactions, p.maxBytes);
      SameBase(c, p, {});
      RebuildExact(c, p, n - 1, p.confirmed, p.seen, {});
      AllKept(c, p, n - 1);
      KeptAdmitted(c, p, Rebuild(c, start, p.entries, n - 1, {}), n - 1, p.confirmed, p.seen, {});
    }
  }

  lemma SamePool(c: Crypto, p: Pool, q: Pool)
    requires PoolInv(c, p) && PoolInv(c, q)
    requires p.entries == q.entries && p.confirmed == q.confirmed && p.seen == q.seen
    requires p.maxTransactions == q.maxTransactions && p.maxBytes == q.maxBytes
    ensures p == q
  {
    hide ApplyFirst, EntryOk;
  }

  lemma ReadPoolRestores(c: Crypto, p: Pool)
    requires Sound(c, p)
    ensures ReadPool(c, EmptyPool(p.confirmed, p.seen, p.maxTransactions, p.maxBytes), PoolRows(c, p), |p.entries|)
         == Some(p)
  {
    hide PoolInv, Rebased, KeptEntries, Kept, ReadPool;
    var n := |p.entries|;
    ReadPoolSucceeds(c, p, n);
    SameBase(c, p, {});
    RebuildExact(c, p, n, p.confirmed, p.seen, {});
    KeepsEverything(c, p, n);
    assert p.entries[..n] == p.entries;
    SamePool(c, p, Rebuild(c, EmptyPool(p.confirmed, p.seen, p.maxTransactions, p.maxBytes), p.entries, n, {}));
  }

  /** Opening a committed record, with a clock not behind the admissions, restores it exactly. */
  lemma LoadRestores(c: Crypto, ch: Chain, revision: int, clock: int, now: int)
    requires ChainInv(c, ch, clock) && clock <= now && DigestLaw(c) && revision >= |ch.blocks| - 1
    ensures Load(c, DiskOf(c, ch, revision), now, None, None) == Some(Instance(ch, revision, false, false))
  {
    hide PoolInv, ReadPool, IsHash;
    ChainSound(c, ch, clock);
    ReplayLaterClock(c, ch.blocks, |ch.blocks|, clock, now);
    ReadPoolRestores(c, ch.pool);
    GenesisFirst(c, ch.blocks, |ch.blocks|, clock);
  }

  lemma {:induction false} GenesisFirst(c: Crypto, blocks: seq<Block>, n: nat, now: int)
    requires 0 < n <= |blocks| && Replay(c, blocks, n, now).Some?
    ensures BlockHash(c, blocks[0]) == GENESIS_HASH
  {
    hide ValidStructure, ValidateAndApply, Hashes;
    if n > 1 {
      GenesisFirst(c, blocks, n - 1, now);
    }
  }

  /** Rows that are read back are the rows of the pool they give, and that pool is consistent. */
  lemma {:induction false} ReadRowsAreWritten(c: Crypto, start: Pool, rows: seq<PoolRow>, n: nat)
    requires n <= |rows| && start.entries == [] && PoolInv(c, start) && ReadPool(c, start, rows, n).Some?
    ensures var p := ReadPool(c, start, rows, n).value;
      && PoolInv(c, p) && PoolRows(c, p) == rows[..n]
      && p.confirmed == start.confirmed && p.seen == start.seen
      && p.maxTransactions == start.maxTransactions && p.maxBytes == start.maxBytes
  {
    hide PoolInv, Admits, Applied, Fee;
    if n > 0 {
      ReadRowsAreWritten(c, start, rows, n - 1);
      var before, p := ReadPool(c, start, rows, n - 1).value, ReadPool(c, start, rows, n).value;
      TryAddKeepsInv(c, before, rows[n - 1].transaction);
      assert |p.entries| == n && rows[..n] == rows[..n - 1] + [rows[n - 1]];
      assert PoolRows(c, p) == PoolRows(c, before) + [rows[n - 1]];
    }
  }

  /**
   Opening accepts a file exactly when it is the complete record of a chain that replays at
   the current clock with a consistent pool; nothing else is ever served.
   */
  lemma LoadExact(c: Crypto, d: Disk, now: int, inst: Instance)
    requires DigestLaw(c)
    ensures Load(c, d, now, None, None) == Some(inst)
       <==> && inst.chain.blocks != [] && ChainInv(c, inst.chain, now) && inst.revision >= |inst.chain.blocks| - 1
            && !inst.storageFailed && !inst.closed
            && d == DiskOf(c, inst.chain, inst.revision)
  {
    hide Replay, PoolInv, ReadPool, IsHash, DigestLaw;
    if Load(c, d, now, None, None) == Some(inst) {
      var start := EmptyPool(inst.chain.state.utxos, inst.chain.state.seen,
                             d.metadata.maxTransactions, d.metadata.maxBytes);
      EmptyPoolInv(c, start.confirmed, start.seen, start.maxTransactions, start.maxBytes);
      ReadRowsAreWritten(c, start, d.poolRows, |d.poolRows|);
      assert d.poolRows[..|d.poolRows|] == d.poolRows;
    }
    if inst.chain.blocks != [] && ChainInv(c, inst.chain, now) && inst.revision >= |inst.chain.blocks| - 1
       && !inst.storageFailed && !inst.closed && d == DiskOf(c, inst.chain, inst.revision) {
      LoadRestores(c, inst.chain, inst.revision, now, now);
    }
  }

  /** A write from an up-to-date view leaves exactly the record of the next chain. */
  lemma WrittenIsDiskOf(c: Crypto, ch: Chain, revision: int, op: Operation)
    requires ch.blocks != [] && Accepted(c, ch, op)
    ensures Written(c, DiskOf(c, ch, revision), ch, Step(c, ch, op)) == DiskOf(c, Step(c, ch, op), revision + 1)
  {
    hide ValidateAndApply, Admits, ApplyBlock, Revalidated, Rebuild;
    StepConfig(c, ch, op);
  }

  lemma StepConfig(c: Crypto, ch: Chain, op: Operation)
    requires ch.blocks != []
    ensures Step(c, ch, op).pool.maxTransactions == ch.pool.maxTransactions
    ensures Step(c, ch, op).pool.maxBytes == ch.pool.maxBytes
    ensures Step(c, ch, op).blocks != []
  {
    hide ValidHeader, Admits, ApplyBlock, Rebuild, Hashes;
    match op {
      case AddBlock(b, now) =>
        if AcceptsBlock(c, ch, b, now) {
          var next := ApplyBlock(c, b, ch.state).value;
          RebuildFrame(c, EmptyPool(next.utxos, next.seen, ch.pool.maxTransactions, ch.pool.maxBytes),
                       ch.pool.entries, |ch.pool.entries|, next.seen);
        }
      case Submit(tx) =>
      case RemovePending(txid) =>
        if Has(ch.pool.entries, txid) {
          RebuildFrame(c, EmptyPool(ch.pool.confirmed, ch.pool.seen, ch.pool.maxTransactions, ch.pool.maxBytes),
                       ch.pool.entries, |ch.pool.entries|, {txid});
        }
    }
  }

  // ---- several openers of one file --------------------------------------------------

  /**
   The file, the live objects and, for stating results, every committed chain so far and the
   latest clock at which one of them was admitted.
   */
  datatype System = System(disk: Disk, instances: map<nat, Instance>, history: seq<Chain>, clock: int)

  datatype Event =
    | Open(id: nat, now: nat, maxTransactions: Option<Limit>, maxBytes: Option<Limit>)
    | Call(id: nat, op: Operation, fault: Fault)
    | Close(id: nat)
    | Crash(id: nat)

  /** One step of the whole system; a call can only come from a live object. */
  function Next(c: Crypto, s: System, e: Event): System {
    match e
    case Open(id, now, maxTransactions, maxBytes) =>
      (match Load(c, s.disk, now, maxTransactions, maxBytes)
       case None => s.(instances := s.instances - {id})
       case Some(inst) => s.(instances := s.instances[id := inst]))
    case Call(id, op, fault) =>
      if id !in s.instances || s.instances[id].chain.blocks == [] then s
      else
        var inst := s.instances[id];
        var effect := Perform(c, s.disk, inst, op, fault);
        s.(disk := effect.disk,
           instances := s.instances[id := effect.instance],
           clock := if effect.disk == s.disk then s.clock else ClockAfter(s.clock, op),
           history := if effect.disk == s.disk then s.history else s.history + [Step(c, inst.chain, op)])
    case Close(id) =>
      if id in s.instances then s.(instances := s.instances[id := s.instances[id].(closed := true)]) else s
    case Crash(id) => s.(instances := s.instances - {id})
  }

  function RunSystem(c: Crypto, s: System, events: seq<Event>, n: nat): System
    requires n <= |events|
  {
    if n == 0 then s else Next(c, RunSystem(c, s, events, n - 1), events[n - 1])
  }

  /** The freshly initialised file. */
  function NewSystem(c: Crypto, maxTransactions: Limit, maxBytes: Limit): System {
    var ch := GenesisChain(c, maxTransactions, maxBytes);
    System(DiskOf(c, ch, 0), map[], [ch], 0)
  }

  ghost predicate StepsTo(c: Crypto, before: Chain, after: Chain, op: Operation) {
    before.blocks != [] && Accepted(c, before, op) && after == Step(c, before, op)
  }

  ghost predicate Follows(c: Crypto, before: Chain, after: Chain) {
    exists op :: StepsTo(c, before, after, op)
  }

  /** Chain `k` of the history came from chain `k - 1` by one accepted operation. */
  ghost predicate HistoryStep(c: Crypto, history: seq<Chain>, k: int)
    requires 0 < k < |history|
  {
    Follows(c, history[k - 1], history[k])
  }

  /** A usable object shows one committed chain, at the revision it was committed under. */
  ghost predicate ShowsCommitted(history: seq<Chain>, inst: Instance) {
    inst.chain.blocks != []
    && (!inst.storageFailed && !inst.closed ==>
          0 <= inst.revision < |history| && inst.chain == history[inst.revision])
  }

  /** Disk states form one revision-ordered history, and every object shows a member of it. */
  ghost predicate SystemInv(c: Crypto, s: System) {
    && s.history != []
    && (forall k :: 0 <= k < |s.history| ==> ChainInv(c, s.history[k], s.clock) && |s.history[k].blocks| - 1 <= k)
    && (forall k :: 0 < k < |s.history| ==> HistoryStep(c, s.history, k))
    && s.disk == DiskOf(c, s.history[|s.history| - 1], |s.history| - 1)
    && (forall id :: id in s.instances ==> ShowsCommitted(s.history, s.instances[id]))
  }

  /**
   Only an object that holds the last committed chain can change the file, and then the file
   becomes the record of its next chain; in every other case it is untouched.
   */
  lemma StaleWritersChangeNothing(c: Crypto, s: System, id: nat, op: Operation, fault: Fault)
    requires SystemInv(c, s) && id in s.instances
    ensures var inst, n := s.instances[id], |s.history|;
      var effect := Perform(c, s.disk, inst, op, fault);
      && (effect.disk != s.disk ==>
            && inst.revision == n - 1 && inst.chain == s.history[n - 1]
            && !inst.storageFailed && !inst.closed && Accepted(c, inst.chain, op)
            && effect.disk == DiskOf(c, Step(c, inst.chain, op), n))
      && (effect.report == Returned(true) ==> effect.disk != s.disk && effect.instance.revision == n)
      && (inst.storageFailed || inst.closed ==> effect == Effect(s.disk, inst, Unusable))
      && (effect.report == Failed ==> effect.instance.storageFailed)
  {
    hide ChainInv, Step, Accepted, Encodable, HistoryStep;
    var inst := s.instances[id];
    assert ShowsCommitted(s.history, inst);
    if !inst.storageFailed && !inst.closed && Accepted(c, inst.chain, op) {
      if Expected(c, s.disk, inst.chain, inst.revision) {
        CurrentWrite(c, s, inst, op);
      }
    }
  }

  /** When the write of an accepted operation reaches the file. */
  predicate WriteLands(c: Crypto, s: System, inst: Instance, op: Operation, fault: Fault)
    requires inst.chain.blocks != []
  {
    && inst.revision == |s.history| - 1
    && Step(c, inst.chain, op).blocks != [] && Encodable(c, Step(c, inst.chain, op), |s.history|)
    && fault != LostBeforeCommit
  }

  /**
   An accepted operation of a live object reaches the file exactly when the object is up to
   date, the next chain can be encoded and the commit was not lost; it is reported as done
   exactly when moreover its answer arrived.  In every other case the object stops serving,
   and a stale one always does.
   */
  lemma WriteExact(c: Crypto, s: System, id: nat, op: Operation, fault: Fault)
    requires SystemInv(c, s) && id in s.instances
    requires !s.instances[id].storageFailed && !s.instances[id].closed
    requires s.instances[id].chain.blocks != [] && Accepted(c, s.instances[id].chain, op)
    ensures var inst, n := s.instances[id], |s.history|;
      var effect, next := Perform(c, s.disk, inst, op, fault), Step(c, inst.chain, op);
      && next.blocks != []
      && (effect.disk == DiskOf(c, next, n) <==> WriteLands(c, s, inst, op, fault))
      && (effect.disk == s.disk <==> !WriteLands(c, s, inst, op, fault))
      && (effect.report == Returned(true) <==> WriteLands(c, s, inst, op, fault) && fault == NoFault)
      && (effect.report == Returned(true) ==> effect.instance == Instance(next, n, false, false))
      && (effect.report != Returned(true) ==>
            effect.report == Failed && effect.instance == inst.(storageFailed := true))
  {
    hide ChainInv, Step, Accepted, Encodable, HistoryStep, Written, DiskOf, Expected;
    var inst := s.instances[id];
    assert ShowsCommitted(s.history, inst);
    StepConfig(c, inst.chain, op);
    ExpectedExactly(c, s, inst);
    RevisionOnDisk(c, s, Step(c, inst.chain, op));
    if inst.revision == |s.history| - 1 {
      CurrentWrite(c, s, inst, op);
    }
  }

  /** The file is what an object expects exactly when it shows the last revision. */
  lemma ExpectedExactly(c: Crypto, s: System, inst: Instance)
    requires SystemInv(c, s) && ShowsCommitted(s.history, inst) && !inst.storageFailed && !inst.closed
    ensures Expected(c, s.disk, inst.chain, inst.revision) <==> inst.revision == |s.history| - 1
  {
    hide ChainInv, HistoryStep;
  }

  lemma RevisionOnDisk(c: Crypto, s: System, next: Chain)
    requires SystemInv(c, s) && next.blocks != []
    ensures DiskOf(c, next, |s.history|) != s.disk
  {
    hide ChainInv, HistoryStep;
  }

  /** An operation the chain refuses is answered False and touches nothing. */
  lemma RefusalTouchesNothing(c: Crypto, s: System, id: nat, op: Operation, fault: Fault)
    requires SystemInv(c, s) && id in s.instances && s.instances[id].chain.blocks != []
    requires !s.instances[id].storageFailed && !s.instances[id].closed && !Accepted(c, s.instances[id].chain, op)
    ensures Perform(c, s.disk, s.instances[id], op, fault) == Effect(s.disk, s.instances[id], Returned(false))
  {
    hide Accepted, SystemInv;
  }

  lemma CurrentWrite(c: Crypto, s: System, inst: Instance, op: Operation)
    requires SystemInv(c, s) && ShowsCommitted(s.history, inst) && !inst.storageFailed && !inst.closed
    requires Accepted(c, inst.chain, op) && Expected(c, s.disk, inst.chain, inst.revision)
    ensures inst.revision == |s.history| - 1 && inst.chain == s.history[|s.history| - 1]
    ensures Written(c, s.disk, inst.chain, Step(c, inst.chain, op)) == DiskOf(c, Step(c, inst.chain, op), |s.history|)
    ensures Written(c, s.disk, inst.chain, Step(c, inst.chain, op)) != s.disk
  {
    hide ChainInv, Step, Accepted, HistoryStep, Written;
    WrittenIsDiskOf(c, inst.chain, inst.revision, op);
  }

  lemma {:induction false} HistoryLater(c: Crypto, s: System, k: nat, clock: int)
    requires SystemInv(c, s) && k < |s.history| && clock >= s.clock
    ensures ChainInv(c, s.history[k], clock)
  {
    hide Replay, PoolInv, HistoryStep;
    ReplayLaterClock(c, s.history[k].blocks, |s.history[k].blocks|, s.clock, clock);
  }

  /** After a call every object still shows a committed chain, or has stopped serving. */
  lemma CallShowsCommitted(c: Crypto, s: System, id: nat, op: Operation, fault: Fault)
    requires SystemInv(c, s) && id in s.instances
    ensures var t := Next(c, s, Call(id, op, fault));
      forall i :: i in t.instances ==> ShowsCommitted(t.history, t.instances[i])
  {
    hide ChainInv, Step, Accepted, Encodable, Expected, Written, HistoryStep, DiskOf;
    var inst, t := s.instances[id], Next(c, s, Call(id, op, fault));
    assert ShowsCommitted(s.history, inst);
    StaleWritersChangeNothing(c, s, id, op, fault);
    StepConfig(c, inst.chain, op);
    forall i | i in t.instances ensures ShowsCommitted(t.history, t.instances[i]) {
      assert i != id ==> ShowsCommitted(s.history, s.instances[i]);
    }
  }

  lemma CallKeepsInv(c: Crypto, s: System, id: nat, op: Operation, fault: Fault)
    requires SystemInv(c, s)
    ensures SystemInv(c, Next(c, s, Call(id, op, fault)))
  {
    hide ChainInv, Step, Accepted, Encodable, Expected, Written, HistoryStep, Perform, DiskOf;
    if id in s.instances {
      var inst, t := s.instances[id], Next(c, s, Call(id, op, fault));
      assert ShowsCommitted(s.history, inst);
      CallShowsCommitted(c, s, id, op, fault);
      StaleWritersChangeNothing(c, s, id, op, fault);
      var n := |s.history|;
      forall k | 0 <= k < n ensures ChainInv(c, s.history[k], t.clock) {
        HistoryLater(c, s, k, t.clock);
      }
      if t.disk != s.disk {
        NextChain(c, s.history[n - 1], s.clock, op);
        HistoryExtends(c, s.history, op);
      }
    }
  }

  lemma NextChain(c: Crypto, ch: Chain, clock: int, op: Operation)
    requires ChainInv(c, ch, clock) && Accepted(c, ch, op)
    ensures ChainInv(c, Step(c, ch, op), ClockAfter(clock, op))
    ensures |Step(c, ch, op).blocks| <= |ch.blocks| + 1
  {
    hide Replay, PoolInv, Step, Accepted;
    StepKeepsInv(c, ch, clock, op);
  }

  lemma HistoryExtends(c: Crypto, history: seq<Chain>, op: Operation)
    requires history != [] && forall k :: 0 < k < |history| ==> HistoryStep(c, history, k)
    requires history[|history| - 1].blocks != [] && Accepted(c, history[|history| - 1], op)
    ensures var longer := history + [Step(c, history[|history| - 1], op)];
      forall k :: 0 < k < |longer| ==> HistoryStep(c, longer, k)
  {
    hide Step, Accepted;
    var longer := history + [Step(c, history[|history| - 1], op)];
    forall k | 0 < k < |longer| ensures HistoryStep(c, longer, k) {
      if k < |history| {
        assert HistoryStep(c, history, k);
      } else {
        assert StepsTo(c, longer[k - 1], longer[k], op);
      }
    }
  }

  lemma OpenKeepsInv(c: Crypto, s: System, id: nat, now: nat, maxTransactions: Option<Limit>, maxBytes: Option<Limit>)
    requires SystemInv(c, s) && DigestLaw(c)
    ensures SystemInv(c, Next(c, s, Open(id, now, maxTransactions, maxBytes)))
  {
    hide Step, Accepted, HistoryStep, PoolInv, Replay, IsHash, ReadPool;
    var n := |s.history|;
    match Load(c, s.disk, now, maxTransactions, maxBytes) {
      case None =>
      case Some(inst) =>
        var later := if now > s.clock then now else s.clock;
        LoadRestores(c, s.history[n - 1], n - 1, s.clock, later);
        LoadClock(c, s.disk, now, later, maxTransactions, maxBytes);
        assert inst.chain == s.history[n - 1] && inst.revision == n - 1;
    }
  }

  /** Whatever loads at one clock and configuration loads identically with a later clock. */
  lemma LoadClock(c: Crypto, d: Disk, now: int, later: int, maxTransactions: Option<Limit>, maxBytes: Option<Limit>)
    requires now <= later && Load(c, d, now, maxTransactions, maxBytes).Some?
    ensures Load(c, d, now, maxTransactions, maxBytes) == Load(c, d, later, None, None)
  {
    hide Replay, IsHash, ReadPool;
    ReplayLaterClock(c, d.blocks, |d.blocks|, now, later);
  }

  /** Every event, of any object and under any fault, keeps the history consistent. */
  lemma NextKeepsInv(c: Crypto, s: System, e: Event)
    requires SystemInv(c, s) && DigestLaw(c)
    ensures SystemInv(c, Next(c, s, e))
    ensures s.history <= Next(c, s, e).history
  {
    hide ChainInv, Step, Accepted, HistoryStep, Perform, Load, DigestLaw;
    match e {
      case Open(id, now, maxTransactions, maxBytes) => OpenKeepsInv(c, s, id, now, maxTransactions, maxBytes);
      case Call(id, op, fault) => CallKeepsInv(c, s, id, op, fault);
      case Close(id) =>
      case Crash(id) =>
    }
  }

  lemma NewSystemInv(c: Crypto, maxTransactions: Limit, maxBytes: Limit)
    requires GenesisOk(c)
    ensures SystemInv(c, NewSystem(c, maxTransactions, maxBytes))
  {
    hide ChainInv, GenesisOk, HistoryStep;
    GenesisInv(c, maxTransactions, maxBytes, 0);
  }

  /**
   Over any run of several openers, with calls lost before or after their commit, closings
   and crashes: committed states form one history in revision order that only grows, and
   opening the file afterwards restores the last of them.
   */
  lemma {:induction false} OneHistory(c: Crypto, maxTransactions: Limit, maxBytes: Limit,
                                      events: seq<Event>, n: nat, now: nat)
    requires GenesisOk(c) && DigestLaw(c) && n <= |events|
    ensures var s := RunSystem(c, NewSystem(c, maxTransactions, maxBytes), events, n);
      && SystemInv(c, s)
      && (n > 0 ==> RunSystem(c, NewSystem(c, maxTransactions, maxBytes), events, n - 1).history <= s.history)
      && (now >= s.clock ==>
            Load(c, s.disk, now, None, None)
            == Some(Instance(s.history[|s.history| - 1], |s.history| - 1, false, false)))
  {
    hide SystemInv, Next, GenesisOk, DigestLaw, Load;
    var start := NewSystem(c, maxTransactions, maxBytes);
    if n == 0 {
      NewSystemInv(c, maxTransactions, maxBytes);
    } else {
      OneHistory(c, maxTransactions, maxBytes, events, n - 1, now);
      NextKeepsInv(c, RunSystem(c, start, events, n - 1), events[n - 1]);
    }
    ReopenLast(c, RunSystem(c, start, events, n), now);
  }

  lemma ReopenLast(c: Crypto, s: System, now: nat)
    requires SystemInv(c, s) && DigestLaw(c)
    ensures s.history != []
    ensures now >= s.clock ==>
      Load(c, s.disk, now, None, None) == Some(Instance(s.history[|s.history| - 1], |s.history| - 1, false, false))
  {
    hide Replay, PoolInv, HistoryStep, Load, DigestLaw;
    if now >= s.clock {
      LoadRestores(c, s.history[|s.history| - 1], |s.history| - 1, s.clock, now);
    }
  }
}
