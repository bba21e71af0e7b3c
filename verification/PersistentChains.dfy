/**
 The store and the persistent chain as objects (storage/chain_store.py,
 blockchain/blockchain.py): each call computes exactly the abstract effect of `Stores.Perform`.
 */
module PersistentChains {
  import opened Prelude
  import opened Transactions
  import opened Mempools
  import opened Blocks
  import opened Chains
  import opened Stores

  /** The database file shared by every opener. */
  class Database {
    var record: Disk

    constructor (record: Disk)
      ensures this.record == record
    {
      this.record := record;
    }
  }

  class ChainStore {
    const database: Database

    constructor (database: Database)
      ensures this.database == database
    {
      this.database := database;
    }

    /** `append_block`: False stands for any storage error; the fault says what the commit did. */
    method AppendBlock(c: Crypto, b: Block, current: Chain, next: Chain, expectedRevision: int, fault: Fault)
      returns (ok: bool)
      requires current.blocks != [] && next.blocks == current.blocks + [b]
      requires b.previousBlockHash == TipHash(c, current.blocks)
      modifies database
      ensures ok == (Encodable(c, next, expectedRevision + 1)
                     && Expected(c, old(database.record), current, expectedRevision) && fault == NoFault)
      ensures database.record
           == if Encodable(c, next, expectedRevision + 1)
             && Expected(c, old(database.record), current, expectedRevision)
                 && fault != LostBeforeCommit
              then Written(c, old(database.record), current, next) else old(database.record)
    {
      hide Encodable, PoolDigest;
      ok := false;
      if !Encodable(c, next, expectedRevision + 1) || !Expected(c, database.record, current, expectedRevision)
         || b.previousBlockHash != TipHash(c, current.blocks) || fault == LostBeforeCommit {
        return;
      }
      var d := database.record;
      var digest := PoolDigest(c, IdList(c, Pending(next.pool.entries)));
      database.record := Disk(
        d.metadata.(height := |current.blocks|, tipHash := TipHash(c, next.blocks),
                    revision := d.metadata.revision + 1, mempoolDigest := digest),
        d.blocks + [b], next.state.utxos, next.state.seen, PoolRows(c, next.pool));
      ok := fault == NoFault;
    }

    /** `replace_mempool` */
    method ReplaceMempool(c: Crypto, current: Chain, next: Chain, expectedRevision: int, fault: Fault)
      returns (ok: bool)
      requires current.blocks != [] && next.blocks == current.blocks
      modifies database
      ensures ok == (Encodable(c, next, expectedRevision + 1)
                     && Expected(c, old(database.record), current, expectedRevision) && fault == NoFault)
      ensures database.record
           == if Encodable(c, next, expectedRevision + 1)
             && Expected(c, old(database.record), current, expectedRevision)
                 && fault != LostBeforeCommit
              then Written(c, old(database.record), current, next) else old(database.record)
    {
      hide Encodable, PoolDigest;
      ok := false;
      if !Encodable(c, next, expectedRevision + 1) || !Expected(c, database.record, current, expectedRevision)
         || fault == LostBeforeCommit {
        return;
      }
      var d := database.record;
      var digest := PoolDigest(c, IdList(c, Pending(next.pool.entries)));
      database.record := d.(metadata := d.metadata.(revision := d.metadata.revision + 1, mempoolDigest := digest),
                            poolRows := PoolRows(c, next.pool));
      ok := fault == NoFault;
    }
  }

  class PersistentChain {
    const store: ChainStore
    var chain: Chain
    var revision: int
    var storageFailed: bool
    var closed: bool

    function View(): Instance
      reads this
    {
      Instance(chain, revision, storageFailed, closed)
    }

    constructor (store: ChainStore, loaded: Instance)
      ensures this.store == store && View() == loaded
    {
      this.store := store;
      chain, revision, storageFailed, closed := loaded.chain, loaded.revision, loaded.storageFailed, loaded.closed;
    }

    /** `_commit`: publish the new view only after the store has confirmed it. */
    method Commit(c: Crypto, next: Chain, appended: Option<Block>, fault: Fault) returns (ok: bool)
      requires chain.blocks != []
      requires appended.None? ==> next.blocks == chain.blocks
      requires appended.Some? ==> next.blocks == chain.blocks + [appended.value]
                                  && appended.value.previousBlockHash == TipHash(c, chain.blocks)
      modifies this, store.database
      ensures ok == (Encodable(c, next, old(revision) + 1)
                     && Expected(c, old(store.database.record), old(chain), old(revision)) && fault == NoFault)
      ensures store.database.record
           == if Encodable(c, next, old(revision) + 1)
             && Expected(c, old(store.database.record), old(chain), old(revision))
                 && fault != LostBeforeCommit
              then Written(c, old(store.database.record), old(chain), next) else old(store.database.record)
      ensures View() == if ok then Instance(next, old(revision) + 1, old(storageFailed), old(closed))
                        else old(View()).(storageFailed := true)
    {
      hide Encodable, Expected, Written;
      match appended {
        case None => ok := store.ReplaceMempool(c, chain, next, revision, fault);
        case Some(b) => ok := store.AppendBlock(c, b, chain, next, revision, fault);
      }
      if ok {
        chain, revision := next, revision + 1;
      } else {
        storageFailed := true;
      }
    }

    /** Any mutating call: refused without touching the disk, or prepared and then committed. */
    method Call(c: Crypto, op: Operation, fault: Fault) returns (report: Report)
      requires chain.blocks != []
      modifies this, store.database
      ensures Effect(store.database.record, View(), report)
           == Perform(c, old(store.database.record), old(View()), op, fault)
    {
      hide Encodable, Expected, Written, Step, Accepted;
      if closed || storageFailed {
        return Unusable;
      }
      if !Accepted(c, chain, op) {
        return Returned(false);
      }
      var next := Step(c, chain, op);
      NextBlocks(c, chain, op);
      var appended := if op.AddBlock? then Some(op.block) else None;
      var ok := Commit(c, next, appended, fault);
      report := if ok then Returned(true) else Failed;
    }
  }

  lemma NextBlocks(c: Crypto, ch: Chain, op: Operation)
    requires ch.blocks != [] && Accepted(c, ch, op)
    ensures op.AddBlock? ==>
      Step(c, ch, op).blocks == ch.blocks + [op.block] && op.block.previousBlockHash == TipHash(c, ch.blocks)
    ensures !op.AddBlock? ==> Step(c, ch, op).blocks == ch.blocks
  {
    hide ValidStructure, ValidBody, MeetsTarget, Hashes, ApplyBlock, Admits, Revalidated;
  }
}
