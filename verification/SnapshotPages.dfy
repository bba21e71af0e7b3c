/** One mempool snapshot cut into size-limited pages (network/sync.py, network/protocol.py). */
module SnapshotPages {
  import opened Transactions

  // ---- sizes on the wire ---------------------------------------------------------------

  /** Characters of the base64 form of `n` bytes, and how many of them are padding (section 4 of RFC 4648). */
  function EncodedLength(n: nat): nat { (n + 2) / 3 * 4 }
  function PaddingLength(n: nat): nat { (3 - n % 3) % 3 }

  /** `raw_size` of a string with the given length and trailing padding. */
  function RawSize(length: nat, padding: nat): int { length / 4 * 3 - padding }

  lemma RawSizeExact(n: nat)
    ensures RawSize(EncodedLength(n), PaddingLength(n)) == n
  {
  }

  function DigitCount(n: nat): nat {
    if n < 10 then 1 else 1 + DigitCount(n / 10)
  }

  lemma {:induction false} DigitCountMonotone(m: nat, n: nat)
    requires m <= n
    ensures DigitCount(m) <= DigitCount(n)
  {
    if m >= 10 {
      DigitCountMonotone(m / 10, n / 10);
    }
  }

  datatype Config = Config(frameBase: nat, maxFrameBytes: nat, maxItemBytes: nat,
                           snapshotMaxTransactions: nat, snapshotMaxBytes: nat, snapshotGlobalBytes: nat,
                           idleTimeout: real, lifetime: real, cooldown: real, refreshInterval: real)

  datatype Snapshot = Snapshot(token: string, tip: string, items: seq<Transaction>, size: int, cursor: nat,
                               created: real, touched: real)

  datatype Page = Page(tip: string, token: string, cursor: int, transactions: seq<Transaction>, nextCursor: int,
                       done: bool)

  /** Length of the first `n` items, each quoted base64, without the commas. */
  function ItemsLength(c: Crypto, items: seq<Transaction>, n: nat): nat
    requires n <= |items|
  {
    if n == 0 then 0 else ItemsLength(c, items, n - 1) + EncodedLength(|TransactionBytes(c, items[n - 1])|) + 2
  }

  /** Length of the canonical MEMPOOL frame for `items`; everything else in it has a fixed width. */
  function FrameLength(c: Crypto, cfg: Config, items: seq<Transaction>, cursor: nat, nextCursor: nat, done: bool): nat {
    cfg.frameBase + DigitCount(cursor) + DigitCount(nextCursor) + (if done then 4 else 5)
    + ItemsLength(c, items, |items|) + (if items == [] then 0 else |items| - 1)
  }

  /** The probe made for every item when a snapshot is taken: alone, at the largest cursor, not final. */
  predicate ItemFits(c: Crypto, cfg: Config, items: seq<Transaction>, i: nat)
    requires i < |items|
  {
    |TransactionBytes(c, items[i])| <= cfg.maxItemBytes
    && FrameLength(c, cfg, [items[i]], |items|, |items| + 1, false) <= cfg.maxFrameBytes
  }

  /** Every item passed its probe. */
  predicate Probed(c: Crypto, cfg: Config, items: seq<Transaction>) {
    forall i :: 0 <= i < |items| ==> ItemFits(c, cfg, items, i)
  }

  predicate PageFits(c: Crypto, cfg: Config, items: seq<Transaction>, start: nat, end: nat)
    requires start <= end <= |items|
  {
    FrameLength(c, cfg, items[start..end], start, end, end == |items|) <= cfg.maxFrameBytes
  }

  /** A probed item always fits alone on a page, whatever the cursor. */
  lemma ProbedItemFitsAlone(c: Crypto, cfg: Config, items: seq<Transaction>, start: nat)
    requires start < |items| && ItemFits(c, cfg, items, start)
    ensures PageFits(c, cfg, items, start, start + 1)
  {
    assert items[start..start + 1] == [items[start]];
    DigitCountMonotone(start, |items|);
    DigitCountMonotone(start + 1, |items| + 1);
  }

  /** Where the greedy page from `start` ends, having reached `end`. */
  function PageEnd(c: Crypto, cfg: Config, items: seq<Transaction>, start: nat, end: nat, last: nat): (r: nat)
    requires start <= end <= last <= |items|
    ensures end <= r <= last
    decreases last - end
  {
    if end < last && PageFits(c, cfg, items, start, end + 1) then PageEnd(c, cfg, items, start, end + 1, last) else end
  }

  function LastIndex(items: seq<Transaction>, start: nat, limit: nat): (r: nat)
    requires start <= |items|
    ensures start <= r <= |items|
  {
    if |items| < start + limit then |items| else start + limit
  }

  function PageFrom(c: Crypto, cfg: Config, s: Snapshot, limit: nat): Page
    requires s.cursor <= |s.items|
  {
    var end := PageEnd(c, cfg, s.items, s.cursor, s.cursor, LastIndex(s.items, s.cursor, limit));
    Page(s.tip, s.token, s.cursor, s.items[s.cursor..end], end, end == |s.items|)
  }

  /** Every page of a probed snapshot carries something or is the last. */
  lemma PageProgress(c: Crypto, cfg: Config, s: Snapshot, limit: nat)
    requires s.cursor <= |s.items| && limit >= 1
    requires Probed(c, cfg, s.items)
    ensures var page := PageFrom(c, cfg, s, limit); page.transactions != [] || page.done
  {
    hide FrameLength;
    if s.cursor < |s.items| {
      ProbedItemFitsAlone(c, cfg, s.items, s.cursor);
    }
  }

  // ---- pages add up to the exported list ---------------------------------------------------------

  /** The snapshot after `n` pages with the given limits. */
  function AfterPages(c: Crypto, cfg: Config, s: Snapshot, limits: seq<nat>, n: nat): (r: Snapshot)
    requires n <= |limits| && s.cursor <= |s.items|
    ensures r.items == s.items && r.tip == s.tip && r.token == s.token && s.cursor <= r.cursor <= |r.items|
  {
    if n == 0 then s
    else
      var before := AfterPages(c, cfg, s, limits, n - 1);
      before.(cursor := PageFrom(c, cfg, before, limits[n - 1]).nextCursor)
  }

  /** Concatenation of the first `n` pages. */
  function Pages(c: Crypto, cfg: Config, s: Snapshot, limits: seq<nat>, n: nat): seq<Transaction>
    requires n <= |limits| && s.cursor <= |s.items|
  {
    if n == 0 then []
    else
      var page := PageFrom(c, cfg, AfterPages(c, cfg, s, limits, n - 1), limits[n - 1]);
      Pages(c, cfg, s, limits, n - 1) + page.transactions
  }

  /** Pages arrive without gap or repetition, and enough of them cover the whole list. */
  lemma {:induction false} PagesCover(c: Crypto, cfg: Config, s: Snapshot, limits: seq<nat>, n: nat)
    requires n <= |limits| && s.cursor <= |s.items| && Probed(c, cfg, s.items)
    requires forall i :: 0 <= i < |limits| ==> limits[i] >= 1
    ensures var r := AfterPages(c, cfg, s, limits, n);
      && Pages(c, cfg, s, limits, n) == s.items[s.cursor..r.cursor]
      && (r.cursor >= s.cursor + n || r.cursor == |s.items|)
  {
    hide ItemFits, PageEnd;
    if n > 0 {
      PagesCover(c, cfg, s, limits, n - 1);
      var before := AfterPages(c, cfg, s, limits, n - 1);
      PageProgress(c, cfg, before, limits[n - 1]);
      var page := PageFrom(c, cfg, before, limits[n - 1]);
      assert s.items[s.cursor..before.cursor] + s.items[before.cursor..page.nextCursor]
        == s.items[s.cursor..page.nextCursor];
    }
  }

  /** From a fresh snapshot, at most one page per item yields exactly the exported list. */
  lemma AllPagesAreTheExport(c: Crypto, cfg: Config, s: Snapshot, limits: seq<nat>)
    requires Probed(c, cfg, s.items) && s.cursor == 0 && |limits| >= |s.items|
    requires forall i :: 0 <= i < |limits| ==> limits[i] >= 1
    ensures Pages(c, cfg, s, limits, |limits|) == s.items
  {
    PagesCover(c, cfg, s, limits, |limits|);
    assert s.items[0..|s.items|] == s.items;
  }
}
