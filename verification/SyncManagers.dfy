/** The synchronisation object of a node, updated in place by every handler (network/sync.py). */
module SyncManagers {
  import opened Prelude
  import opened Transactions
  import opened Mempools
  import opened SnapshotPages
  import opened MempoolExport
  import opened MempoolImport

  class SyncManager {
    const config: Config
    var table: map<string, Snapshot>
    var downloads: map<string, Download>
    var snapshotBytes: int
    var nextExport: map<string, real>
    var source: Option<string>
    var nextMempool: map<string, real>

    ghost function Exported(): Exports
      reads this
    {
      Exports(table, snapshotBytes, nextExport)
    }

    constructor (config: Config)
      ensures this.config == config
      ensures Exported() == Exports(map[], 0, map[]) && downloads == map[] && source == None && nextMempool == map[]
    {
      this.config := config;
      table, downloads, snapshotBytes, nextExport, source := map[], map[], 0, map[], None;
      nextMempool := map[];
    }

    method DropExport(id: string)
      modifies `table, `snapshotBytes
      ensures Exported() == Dropped(old(Exported()), id)
    {
      if id in table {
        var snapshot := table[id];
        table := table - {id};
        snapshotBytes := snapshotBytes - snapshot.size;
      }
    }

    method Disconnected(id: string)
      modifies `table, `snapshotBytes, `downloads, `source
      ensures Exported() == Dropped(old(Exported()), id)
      ensures downloads == old(downloads) - {id}
      ensures source == if old(source) == Some(id) then None else old(source)
    {
      DropExport(id);
      downloads := downloads - {id};
      if source == Some(id) {
        source := None;
      }
    }

    method Clear()
      modifies `table, `snapshotBytes, `downloads, `source
      ensures Exported() == DropAll(old(Exported())) && downloads == map[] && source == None
    {
      table, downloads, snapshotBytes, source := map[], map[], 0, None;
    }

    /**
     Dropping one by one brings the counter to zero exactly because it was exact; every session
     may ask for a mempool again at once.
     */
    method TipChanged(ghost c: Crypto, ghost tip: string)
      requires BudgetInv(c, config, Exported(), tip)
      modifies `table, `snapshotBytes, `downloads, `nextMempool
      ensures Exported() == DropAll(old(Exported())) && downloads == map[]
      ensures nextMempool == map id | id in old(nextMempool) :: 0.0
    {
      hide SnapshotOk, TotalSize;
      var ids := table.Keys;
      while ids != {}
        invariant ids == table.Keys && nextMempool == old(nextMempool)
        invariant BudgetInv(c, config, Exported(), tip)
        decreases |ids|
      {
        var id :| id in ids;
        DroppedKeepsBudget(c, config, Exported(), tip, id);
        DropExport(id);
        ids := ids - {id};
      }
      assert table == map[];
      EmptyTotal();
      downloads := map[];
      nextMempool := map id | id in nextMempool :: 0.0;
    }

    /** The expiry part of `tick`. */
    method ExpireExports(ghost c: Crypto, ghost tip: string, now: real)
      requires BudgetInv(c, config, Exported(), tip)
      modifies `table, `snapshotBytes
      ensures Exported() == Swept(config, old(Exported()), now)
    {
      hide SnapshotOk, TotalSize, Expired;
      var ids := table.Keys;
      ghost var before := table;
      while ids != {}
        invariant ids <= before.Keys
        invariant BudgetInv(c, config, Exported(), tip)
        invariant table.Keys <= before.Keys && forall id :: id in table ==> table[id] == before[id]
        invariant forall id :: id in ids ==> id in table
        invariant forall id :: id in before && id !in ids ==> (id in table <==> !Expired(config, before[id], now))
        decreases |ids|
      {
        var id :| id in ids;
        if Expired(config, table[id], now) {
          DroppedKeepsBudget(c, config, Exported(), tip, id);
          DropExport(id);
        }
        ids := ids - {id};
      }
      assert table == Swept(config, old(Exported()), now).table;
      TotalSizeSplit(config, before, now);
    }

    /** The largest prefix of the remaining items whose frame fits, found by growing it. */
    method BuildPage(c: Crypto, s: Snapshot, limit: nat) returns (page: Page)
      requires s.cursor <= |s.items|
      ensures page == PageFrom(c, config, s, limit)
    {
      hide PageFits;
      var last := LastIndex(s.items, s.cursor, limit);
      var end := s.cursor;
      while end < last && PageFits(c, config, s.items, s.cursor, end + 1)
        invariant s.cursor <= end <= last
        invariant PageEnd(c, config, s.items, s.cursor, end, last)
               == PageEnd(c, config, s.items, s.cursor, s.cursor, last)
      {
        end := end + 1;
      }
      page := Page(s.tip, s.token, s.cursor, s.items[s.cursor..end], end, end == |s.items|);
    }

    /** Taking a snapshot reserves its bytes first and gives them back when an item is too large. */
    method Open(c: Crypto, id: string, tip: string, mempool: Mempool, now: real,
                token: string) returns (refusal: Option<Reply>)
      modifies `table, `snapshotBytes, `nextExport
      ensures (Exported(), refusal) == OpenSnapshot(c, config, old(Exported()), id, tip, mempool.Model(), now, token)
    {
      hide ItemFits;
      if id in table || (id in nextExport && now < nextExport[id]) {
        return Some(Busy);
      }
      nextExport := nextExport[id := now + config.cooldown];
      var count, size := |mempool.entries|, mempool.totalBytes;
      if count > config.snapshotMaxTransactions || size > config.snapshotMaxBytes {
        return Some(PolicyLimit);
      }
      if snapshotBytes + size > config.snapshotGlobalBytes {
        return Some(Busy);
      }
      snapshotBytes := snapshotBytes + size;
      var items: seq<Transaction> := [];
      ghost var all := Pending(mempool.entries);
      for i := 0 to count
        invariant items == all[..i]
        invariant forall j :: 0 <= j < i ==> ItemFits(c, config, all, j)
      {
        if !ItemFits(c, config, Pending(mempool.entries), i) {
          snapshotBytes := snapshotBytes - size;
          return Some(PolicyLimit);
        }
        items := items + [mempool.entries[i].transaction];
      }
      assert items == all;
      table := table[id := Snapshot(token, tip, items, size, 0, now, now)];
      refusal := None;
    }

    method ServeMempool(c: Crypto, id: string, request: Request, tip: string, mempool: Mempool, now: real,
                        token: string)
      returns (reply: Reply)
      modifies `table, `snapshotBytes, `nextExport
      ensures (Exported(), reply)
           == Serve(c, config, old(Exported()), id, request, tip, mempool.Model(), now, token)
    {
      hide Probed, PageEnd, LastIndex, Expired;
      if request.tip != tip {
        DropExport(id);
        return StaleTip;
      }
      if id in table && Expired(config, table[id], now) {
        DropExport(id);
      }
      if request.token == None {
        var refusal := Open(c, id, tip, mempool, now, token);
        if refusal.Some? {
          return refusal.value;
        }
      } else if id !in table || table[id].token != request.token.value {
        return SnapshotExpired;
      }
      var snapshot := table[id];
      if request.cursor != snapshot.cursor || snapshot.cursor > |snapshot.items| {
        return ProtocolViolation;
      }
      var page := BuildPage(c, snapshot, request.limit);
      if page.transactions == [] && !page.done {
        DropExport(id);
        return PolicyLimit;
      }
      table := table[id := snapshot.(cursor := page.nextCursor, touched := now)];
      if page.done {
        DropExport(id);
      }
      reply := Sent(page.(tip := tip));
    }

    ghost function DownloadOf(id: string): Option<Download>
      reads this
    {
      if id in downloads then Some(downloads[id]) else None
    }

    /** Every decoded transaction is submitted to the chain; an oversized one stops the page. */
    method ReceiveMempool(c: Crypto, id: string, request: Request, page: Page, tip: string, mempool: Mempool, now: real)
      returns (judgement: Judgement)
      modifies `downloads, `nextMempool, mempool
      ensures Receipt(mempool.Model(), DownloadOf(id), judgement)
           == ReceivePage(c, config, old(mempool.Model()), old(DownloadOf(id)), request, page, tip)
      ensures downloads - {id} == old(downloads) - {id}
      ensures nextMempool == if judgement.Taken? && page.done then old(nextMempool)[id := now + config.refreshInterval]
                             else old(nextMempool)
    {
      hide Answers, SubmitItems, WireSize;
      if tip != request.tip || id !in downloads {
        return Ignored;
      }
      var download := downloads[id];
      if !Answers(download, request, page) {
        return Malformed;
      }
      var pageSize := PageSize(c, page.transactions);
      if download.count + |page.transactions| > config.snapshotMaxTransactions
         || download.size + pageSize > config.snapshotMaxBytes {
        return OverLimit;
      }
      var decoded := SubmitAll(c, config, page.transactions, mempool);
      if !decoded {
        return OverLimit;
      }
      if page.done {
        downloads := downloads - {id};
        nextMempool := nextMempool[id := now + config.refreshInterval];
      } else {
        downloads := downloads[id := Download(download.tip, Some(page.token), page.nextCursor, download.size + pageSize,
                                              download.count + |page.transactions|)];
      }
      judgement := Taken;
    }
  }

  /** The size of a page as its items travel. */
  method PageSize(c: Crypto, items: seq<Transaction>) returns (size: int)
    ensures size == WireSize(c, items, |items|)
  {
    size := 0;
    for i := 0 to |items|
      invariant size == WireSize(c, items, i)
    {
      var n := |TransactionBytes(c, items[i])|;
      size := size + RawSize(EncodedLength(n), PaddingLength(n));
    }
  }

  /** Submitting a page item by item, until one is too large to decode. */
  method SubmitAll(c: Crypto, cfg: Config, items: seq<Transaction>, mempool: Mempool) returns (decoded: bool)
    modifies mempool
    ensures Submitted(mempool.Model(), decoded) == SubmitItems(c, cfg, old(mempool.Model()), items, |items|)
  {
    hide TryAdd, Admits;
    ghost var start := mempool.Model();
    for i := 0 to |items|
      invariant SubmitItems(c, cfg, start, items, i) == Submitted(mempool.Model(), true)
      invariant mempool.confirmed == old(mempool.confirmed)
      invariant mempool.working == old(mempool.working) || fresh(mempool.working)
    {
      if Size(c, items[i]) > cfg.maxItemBytes {
        SubmitStops(c, cfg, start, items, i + 1, |items|);
        return false;
      }
      var _ := mempool.AddTransaction(c, items[i]);
    }
    decoded := true;
  }

  lemma {:induction false} SubmitStops(c: Crypto, cfg: Config, p: Pool, items: seq<Transaction>, k: nat, n: nat)
    requires k <= n <= |items| && !SubmitItems(c, cfg, p, items, k).decoded
    ensures SubmitItems(c, cfg, p, items, n) == SubmitItems(c, cfg, p, items, k)
  {
    hide TryAdd;
    if k < n {
      SubmitStops(c, cfg, p, items, k, n - 1);
    }
  }
}
