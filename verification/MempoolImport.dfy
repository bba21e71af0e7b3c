/** Receiving a paged mempool snapshot, and the whole exchange between two nodes (network/sync.py). */
module MempoolImport {
  import opened Prelude
  import opened Transactions
  import opened Utxo
  import opened Validation
  import opened Processing
  import opened Mempools
  import opened Survivors
  import opened Stores
  import opened Blocks
  import opened Chains
  import opened SnapshotPages
  import opened MempoolExport

  datatype Download = Download(tip: string, token: Option<string>, cursor: int, size: int, count: int)

  datatype Judgement = Taken | Ignored | Malformed | OverLimit

  datatype Receipt = Receipt(pool: Pool, download: Option<Download>, judgement: Judgement)

  function NewDownload(tip: string): Download { Download(tip, None, 0, 0, 0) }

  /** The GET_MEMPOOL request that continues a download. */
  function RequestFor(d: Download, limit: nat): Request { Request(d.tip, d.token, d.cursor, limit) }

  /** `raw_size` summed over the first `n` items as they travel in base64. */
  function WireSize(c: Crypto, items: seq<Transaction>, n: nat): int
    requires n <= |items|
  {
    if n == 0 then 0
    else
      var bytes := |TransactionBytes(c, items[n - 1])|;
      WireSize(c, items, n - 1) + RawSize(EncodedLength(bytes), PaddingLength(bytes))
  }

  /** The pool after the first `n` items, and whether each of them was small enough to decode. */
  datatype Submitted = Submitted(pool: Pool, decoded: bool)

  function SubmitItems(c: Crypto, cfg: Config, p: Pool, items: seq<Transaction>, n: nat): Submitted
    requires n <= |items|
  {
    if n == 0 then Submitted(p, true)
    else
      var before := SubmitItems(c, cfg, p, items, n - 1);
      if !before.decoded then before
      else if Size(c, items[n - 1]) > cfg.maxItemBytes then before.(decoded := false)
      else Submitted(TryAdd(c, before.pool, items[n - 1]), true)
  }

  /** The reply answers the download's next page and makes progress. */
  predicate Answers(d: Download, request: Request, page: Page) {
    && page.tip == d.tip && page.cursor == d.cursor && (d.token.Some? ==> d.token.value == page.token)
    && |page.transactions| <= request.limit && page.nextCursor == d.cursor + |page.transactions|
    && (page.transactions != [] || page.done)
  }

  predicate WithinPolicy(c: Crypto, cfg: Config, d: Download, page: Page) {
    && d.count + |page.transactions| <= cfg.snapshotMaxTransactions
    && d.size + WireSize(c, page.transactions, |page.transactions|) <= cfg.snapshotMaxBytes
  }

  function Advanced(c: Crypto, d: Download, page: Page): Option<Download> {
    if page.done then None
    else
      var n := |page.transactions|;
      Some(Download(d.tip, Some(page.token), page.nextCursor, d.size + WireSize(c, page.transactions, n), d.count + n))
  }

  /** `receive_mempool` */
  function ReceivePage(c: Crypto, cfg: Config, p: Pool, download: Option<Download>, request: Request, page: Page,
                       tip: string): Receipt
  {
    if tip != request.tip || download.None? then Receipt(p, download, Ignored)
    else
      var d := download.value;
      if !Answers(d, request, page) then Receipt(p, download, Malformed)
      else if !WithinPolicy(c, cfg, d, page) then Receipt(p, download, OverLimit)
      else
        var r := SubmitItems(c, cfg, p, page.transactions, |page.transactions|);
        if !r.decoded then Receipt(r.pool, download, OverLimit) else Receipt(r.pool, Advanced(c, d, page), Taken)
  }

  // ---- safety for arbitrary pages ------------------------------------------------------------

  /** The totals of a download cover the whole snapshot and stay within policy. */
  predicate DownloadOk(cfg: Config, d: Download) {
    0 <= d.count <= cfg.snapshotMaxTransactions && d.size <= cfg.snapshotMaxBytes && d.cursor == d.count
  }

  lemma {:induction false} SubmitKeepsSound(c: Crypto, cfg: Config, p: Pool, items: seq<Transaction>, n: nat)
    requires n <= |items| && Sound(c, p)
    ensures var q := SubmitItems(c, cfg, p, items, n).pool;
      Sound(c, q) && q.confirmed == p.confirmed && q.seen == p.seen
  {
    hide PoolInv, Admits, Applied, Fee;
    if n > 0 {
      SubmitKeepsSound(c, cfg, p, items, n - 1);
      TryAddKeepsInv(c, SubmitItems(c, cfg, p, items, n - 1).pool, items[n - 1]);
    }
  }

  /** Whatever a peer sends, the pool stays consistent over the same ledger and the download within policy. */
  lemma AnyPageIsSafe(c: Crypto, cfg: Config, p: Pool, download: Option<Download>, request: Request, page: Page,
                      tip: string)
    requires Sound(c, p) && (download.Some? ==> DownloadOk(cfg, download.value))
    ensures var r := ReceivePage(c, cfg, p, download, request, page, tip);
      && Sound(c, r.pool) && r.pool.confirmed == p.confirmed && r.pool.seen == p.seen
      && (r.download.Some? ==> DownloadOk(cfg, r.download.value))
  {
    hide Sound, SubmitItems, WireSize;
    SubmitKeepsSound(c, cfg, p, page.transactions, |page.transactions|);
  }

  // ---- the receiver's totals are the exporter's ------------------------------------------------

  lemma {:induction false} WireSizeIsSizeTotal(c: Crypto, p: Pool, start: nat, items: seq<Transaction>, n: nat)
    requires Sound(c, p) && start + |items| <= |p.entries| && n <= |items|
    requires items == Pending(p.entries)[start..start + |items|]
    ensures SizeTotal(p.entries, start) + WireSize(c, items, n) == SizeTotal(p.entries, start + n)
  {
    hide Sound, EncodedLength, PaddingLength, RawSize, Replayable, World, Spent, TxId;
    if n > 0 {
      WireSizeIsSizeTotal(c, p, start, items, n - 1);
      SoundReplayable(c, p);
      assert items[n - 1] == p.entries[start + n - 1].transaction;
      RawSizeExact(|TransactionBytes(c, items[n - 1])|);
    }
  }

  /** Submitting a page of another pool's entries continues the rebuild of that pool. */
  lemma {:induction false} SubmitIsRebuild(c: Crypto, cfg: Config, base: Pool, entries: seq<Entry>, start: nat,
                                           items: seq<Transaction>, n: nat)
    requires start + |items| <= |entries| && n <= |items|
    requires items == Pending(entries)[start..start + |items|]
    requires forall i :: 0 <= i < |entries| ==> Size(c, entries[i].transaction) <= cfg.maxItemBytes
    ensures SubmitItems(c, cfg, Rebuild(c, base, entries, start, {}), items, n)
         == Submitted(Rebuild(c, base, entries, start + n, {}), true)
  {
    hide TryAdd, Size;
    if n > 0 {
      SubmitIsRebuild(c, cfg, base, entries, start, items, n - 1);
      assert items[n - 1] == entries[start + n - 1].transaction;
    }
  }

  // ---- one exchange, page by page ----------------------------------------------------------------

  /** The two ends of an exchange: the exporter's table, the importer's pool and its download. */
  datatype Exchange = Exchange(exports: Exports, pool: Pool, download: Option<Download>, failed: bool)

  /** What stays fixed during an exchange: both configurations, the exported pool, the peer and the page size. */
  datatype Link = Link(exporter: Config, importer: Config, source: Pool, id: string, tip: string, token: string,
                       limit: nat)

  /** One request at time `now`, its answer, and what the importer makes of it. */
  function Round(c: Crypto, k: Link, e: Exchange, now: real): Exchange {
    if e.failed || e.download.None? then e
    else
      var request := RequestFor(e.download.value, k.limit);
      var served := Serve(c, k.exporter, e.exports, k.id, request, k.tip, k.source, now, k.token);
      match served.1
      case Sent(page) =>
        var r := ReceivePage(c, k.importer, e.pool, e.download, request, page, k.tip);
        Exchange(served.0, r.pool, r.download, !r.judgement.Taken?)
      case _ => Exchange(served.0, e.pool, None, true)
  }

  function Rounds(c: Crypto, k: Link, x: Exports, p: Pool, times: seq<real>, n: nat): Exchange
    requires n <= |times|
  {
    if n == 0 then Exchange(x, p, Some(NewDownload(k.tip)), false)
    else Round(c, k, Rounds(c, k, x, p, times, n - 1), times[n - 1])
  }

  /** The exporter can open a snapshot for the peer. */
  predicate CanExport(c: Crypto, k: Link, x: Exports, now: real) {
    && k.id !in x.table && (k.id in x.nextExport ==> now >= x.nextExport[k.id])
    && |k.source.entries| <= k.exporter.snapshotMaxTransactions
    && k.source.totalBytes <= k.exporter.snapshotMaxBytes
    && x.bytes + k.source.totalBytes <= k.exporter.snapshotGlobalBytes
    && Probed(c, k.exporter, Pending(k.source.entries))
  }

  /** The importer's limits are no smaller, and pages are asked for one item at least. */
  predicate CanImport(k: Link) {
    && k.limit >= 1
    && k.importer.maxItemBytes >= k.exporter.maxItemBytes
    && k.importer.snapshotMaxTransactions >= |k.source.entries|
    && k.importer.snapshotMaxBytes >= k.source.totalBytes
  }

  /** No pause is as long as the idle timeout and the exchange is shorter than a snapshot's lifetime. */
  predicate Timely(k: Link, times: seq<real>) {
    forall i :: 0 < i < |times| ==> times[i] - times[i - 1] < k.exporter.idleTimeout
                                    && times[i] - times[0] < k.exporter.lifetime
  }

  function SnapshotAt(k: Link, cursor: nat, created: real, touched: real): Snapshot {
    Snapshot(k.token, k.tip, Pending(k.source.entries), k.source.totalBytes, cursor, created, touched)
  }

  /** After `n` rounds the importer holds the first entries of the source, and both ends agree on how many. */
  ghost predicate Midway(c: Crypto, k: Link, x: Exports, p: Pool, times: seq<real>, n: nat, e: Exchange)
    requires n <= |times|
  {
    && !e.failed
    && (e.download.None? ==> e.pool == Rebuild(c, p, k.source.entries, |k.source.entries|, {}))
    && (e.download.Some? ==>
         var d := e.download.value;
         && 0 <= d.cursor <= |k.source.entries| && d.tip == k.tip && d.count == d.cursor
         && d.size == SizeTotal(k.source.entries, d.cursor)
         && e.pool == Rebuild(c, p, k.source.entries, d.cursor, {})
         && (if n == 0 then e.exports == x && d.token == None && d.cursor == 0
             else d.token == Some(k.token) && n <= d.cursor < |k.source.entries| && k.id in e.exports.table
                  && e.exports.table[k.id] == SnapshotAt(k, d.cursor, times[0], times[n - 1])))
  }

  /** The exporter answers a continuing request with the next page of the snapshot it keeps. */
  lemma ServedPage(c: Crypto, k: Link, x: Exports, p: Pool, times: seq<real>, n: nat, e: Exchange)
    requires n < |times| && Midway(c, k, x, p, times, n, e) && e.download.Some?
    requires CanExport(c, k, x, times[0]) && CanImport(k) && Timely(k, times)
    ensures var d := e.download.value;
      var served := Serve(c, k.exporter, e.exports, k.id, RequestFor(d, k.limit), k.tip, k.source, times[n], k.token);
      var page := PageFrom(c, k.exporter, SnapshotAt(k, d.cursor, times[0], times[n]), k.limit);
      && served.1 == Sent(page) && (page.transactions != [] || page.done)
      && (!page.done ==> k.id in served.0.table
                         && served.0.table[k.id] == SnapshotAt(k, page.nextCursor, times[0], times[n]))
  {
    hide Rebuild, Probed, PageEnd, LastIndex, SizeTotal;
    var d := e.download.value;
    PageProgress(c, k.exporter, SnapshotAt(k, d.cursor, times[0], times[n]), k.limit);
  }

  /** The importer takes that page whole. */
  lemma ReceivedPage(c: Crypto, k: Link, p: Pool, e: Exchange, s: Snapshot, page: Page)
    requires Sound(c, k.source) && CanImport(k) && Probed(c, k.exporter, Pending(k.source.entries))
    requires e.download.Some? && s == SnapshotAt(k, s.cursor, s.created, s.touched) && s.cursor <= |s.items|
    requires var d := e.download.value;
      && d.tip == k.tip && d.cursor == d.count == s.cursor && d.size == SizeTotal(k.source.entries, s.cursor)
      && (d.token.Some? ==> d.token.value == k.token)
    requires e.pool == Rebuild(c, p, k.source.entries, s.cursor, {})
    requires page == PageFrom(c, k.exporter, s, k.limit) && (page.transactions != [] || page.done)
    ensures var r := ReceivePage(c, k.importer, e.pool, e.download, RequestFor(e.download.value, k.limit), page, k.tip);
      && r.judgement.Taken?
      && r.pool == Rebuild(c, p, k.source.entries, page.nextCursor, {})
      && r.download == if page.done then None
                       else Some(Download(k.tip, Some(k.token), page.nextCursor,
                                          SizeTotal(k.source.entries, page.nextCursor), page.nextCursor))
  {
    hide Rebuild, SizeTotal, WireSize, SubmitItems, Sound, FrameLength;
    var d, entries := e.download.value, k.source.entries;
    assert page.transactions == Pending(entries)[s.cursor..s.cursor + |page.transactions|];
    WireSizeIsSizeTotal(c, k.source, s.cursor, page.transactions, |page.transactions|);
    TotalsBounded(c, k.source, page.nextCursor);
    forall i | 0 <= i < |entries| ensures Size(c, entries[i].transaction) <= k.importer.maxItemBytes {
      assert ItemFits(c, k.exporter, Pending(entries), i);
    }
    SubmitIsRebuild(c, k.importer, p, entries, s.cursor, page.transactions, |page.transactions|);
  }

  lemma TotalsBounded(c: Crypto, p: Pool, n: nat)
    requires Sound(c, p) && n <= |p.entries|
    ensures SizeTotal(p.entries, n) <= p.totalBytes
  {
    hide Replayable, SizeTotal;
    SoundReplayable(c, p);
    SizeTotalMonotone(p.entries, n, |p.entries|);
  }

  lemma RoundKeepsMidway(c: Crypto, k: Link, x: Exports, p: Pool, times: seq<real>, n: nat, e: Exchange)
    requires n < |times| && Midway(c, k, x, p, times, n, e) && Sound(c, k.source)
    requires CanExport(c, k, x, times[0]) && CanImport(k) && Timely(k, times)
    ensures Midway(c, k, x, p, times, n + 1, Round(c, k, e, times[n]))
  {
    hide Rebuild, Probed, PageEnd, LastIndex, SizeTotal, Sound, Serve, ReceivePage, Timely;
    if e.download.Some? {
      var d := e.download.value;
      var s := SnapshotAt(k, d.cursor, times[0], times[n]);
      ServedPage(c, k, x, p, times, n, e);
      ReceivedPage(c, k, p, e, s, PageFrom(c, k.exporter, s, k.limit));
    }
  }

  lemma {:induction false} RoundsMidway(c: Crypto, k: Link, x: Exports, p: Pool, times: seq<real>, n: nat)
    requires n <= |times| && times != [] && Sound(c, k.source) && p.entries == []
    requires CanExport(c, k, x, times[0]) && CanImport(k) && Timely(k, times)
    ensures Midway(c, k, x, p, times, n, Rounds(c, k, x, p, times, n))
  {
    hide Round, CanExport, CanImport, Timely, Sound;
    if n > 0 {
      RoundsMidway(c, k, x, p, times, n - 1);
      RoundKeepsMidway(c, k, x, p, times, n - 1, Rounds(c, k, x, p, times, n - 1));
    }
  }

  // ---- the importer ends with the exporter's pool ----------------------------------------------------

  lemma LargerLimitsSound(c: Crypto, p: Pool, maxTransactions: Limit, maxBytes: Limit)
    requires Sound(c, p) && maxTransactions >= p.maxTransactions && maxBytes >= p.maxBytes
    ensures Sound(c, p.(maxTransactions := maxTransactions, maxBytes := maxBytes))
  {
    hide ApplyFirst;
    var q := p.(maxTransactions := maxTransactions, maxBytes := maxBytes);
    forall i | 0 <= i < |q.entries| ensures EntryOk(c, q, i) {
      assert EntryOk(c, p, i);
    }
  }

  /** Offering all entries of a sound pool to an empty one over the same ledger restores the pool. */
  lemma RebuildRestores(c: Crypto, p: Pool)
    requires Sound(c, p)
    ensures Rebuild(c, EmptyPool(p.confirmed, p.seen, p.maxTransactions, p.maxBytes), p.entries, |p.entries|, {}) == p
  {
    hide PoolInv, Rebased, KeptEntries, Kept;
    SameBase(c, p, {});
    RebuildExact(c, p, |p.entries|, p.confirmed, p.seen, {});
    KeepsEverything(c, p, |p.entries|);
    assert p.entries[..|p.entries|] == p.entries;
    var start := EmptyPool(p.confirmed, p.seen, p.maxTransactions, p.maxBytes);
    SamePool(c, p, Rebuild(c, start, p.entries, |p.entries|, {}));
  }

  /**
   A node on the same ledger, with an empty pool and limits no smaller, ends one exchange
   holding exactly the exporter's pending entries: same order, fees and sizes.
   */
  lemma ExchangeCopiesPool(c: Crypto, k: Link, x: Exports, times: seq<real>, maxTransactions: Limit, maxBytes: Limit)
    requires Sound(c, k.source) && times != [] && |times| >= |k.source.entries|
    requires CanExport(c, k, x, times[0]) && CanImport(k) && Timely(k, times)
    requires maxTransactions >= k.source.maxTransactions && maxBytes >= k.source.maxBytes
    ensures var p := EmptyPool(k.source.confirmed, k.source.seen, maxTransactions, maxBytes);
      var e := Rounds(c, k, x, p, times, |times|);
      && !e.failed && e.download == None
      && e.pool == k.source.(maxTransactions := maxTransactions, maxBytes := maxBytes)
  {
    hide Rounds, Rebuild, Sound, CanExport, CanImport, Timely, SizeTotal;
    var p := EmptyPool(k.source.confirmed, k.source.seen, maxTransactions, maxBytes);
    RoundsMidway(c, k, x, p, times, |times|);
    LargerLimitsSound(c, k.source, maxTransactions, maxBytes);
    RebuildRestores(c, k.source.(maxTransactions := maxTransactions, maxBytes := maxBytes));
  }

  /** Two nodes with the same blocks have the same confirmed state, whenever they admitted them. */
  lemma SameBlocksSameState(c: Crypto, a: Chain, b: Chain, clockA: int, clockB: int)
    requires ChainInv(c, a, clockA) && ChainInv(c, b, clockB) && a.blocks == b.blocks
    ensures a.state == b.state
  {
    hide PoolInv, Replay;
    var later := if clockA > clockB then clockA else clockB;
    ReplayLaterClock(c, a.blocks, |a.blocks|, clockA, later);
    ReplayLaterClock(c, b.blocks, |b.blocks|, clockB, later);
  }

  /** The same between two nodes holding the same blocks, the importer's pool being empty. */
  lemma SameChainCopiesPool(c: Crypto, a: Chain, b: Chain, clockA: int, clockB: int, k: Link, x: Exports,
                            times: seq<real>)
    requires ChainInv(c, a, clockA) && ChainInv(c, b, clockB) && a.blocks == b.blocks
    requires b.pool.entries == [] && k.source == a.pool
    requires b.pool.maxTransactions >= a.pool.maxTransactions && b.pool.maxBytes >= a.pool.maxBytes
    requires times != [] && |times| >= |a.pool.entries|
    requires CanExport(c, k, x, times[0]) && CanImport(k) && Timely(k, times)
    ensures var e := Rounds(c, k, x, b.pool, times, |times|);
      && !e.failed && e.download == None
      && e.pool.entries == a.pool.entries && e.pool.working == a.pool.working && e.pool.totalBytes == a.pool.totalBytes
  {
    hide Rounds, Sound, CanExport, CanImport, Timely, Replay, EntryOk;
    SameBlocksSameState(c, a, b, clockA, clockB);
    ChainSound(c, a, clockA);
    assert b.pool == EmptyPool(a.pool.confirmed, a.pool.seen, b.pool.maxTransactions, b.pool.maxBytes);
    ExchangeCopiesPool(c, k, x, times, b.pool.maxTransactions, b.pool.maxBytes);
  }

  /**
   A page counts as taken only if it answers the download in progress on the current tip, item
   by item within the limits, and the download then stands behind its last item.
   */
  lemma TakenMeans(c: Crypto, cfg: Config, p: Pool, download: Option<Download>, request: Request, page: Page,
                   tip: string)
    ensures var r := ReceivePage(c, cfg, p, download, request, page, tip);
      r.judgement.Taken? ==>
        && tip == request.tip && download.Some?
        && page.tip == download.value.tip && page.cursor == download.value.cursor
        && (download.value.token == None || download.value.token == Some(page.token))
        && |page.transactions| <= request.limit && page.nextCursor == page.cursor + |page.transactions|
        && (|page.transactions| > 0 || page.done)
        && (forall i :: 0 <= i < |page.transactions| ==>
              |TransactionBytes(c, page.transactions[i])| <= cfg.maxItemBytes)
        && (r.download.None? <==> page.done)
        && (r.download.Some? ==>
              && r.download.value.cursor == page.nextCursor && r.download.value.token == Some(page.token)
              && r.download.value.count == download.value.count + |page.transactions|)
  {
    hide SubmitItems, WireSize;
    if SubmitItems(c, cfg, p, page.transactions, |page.transactions|).decoded {
      AllDecoded(c, cfg, p, page.transactions, |page.transactions|);
    }
  }

  lemma {:induction false} AllDecoded(c: Crypto, cfg: Config, p: Pool, items: seq<Transaction>, n: nat)
    requires n <= |items| && SubmitItems(c, cfg, p, items, n).decoded
    ensures forall i :: 0 <= i < n ==> |TransactionBytes(c, items[i])| <= cfg.maxItemBytes
  {
    hide TryAdd;
    if n > 0 {
      AllDecoded(c, cfg, p, items, n - 1);
    }
  }
}
