/** Serving mempool snapshots to many peers under one byte budget (network/sync.py). */
module MempoolExport {
  import opened Prelude
  import opened Transactions
  import opened Mempools
  import opened SnapshotPages

  // ---- the exporter -----------------------------------------------------------------------

  /** Export table, total of retained bytes, and the earliest time each peer may open another export. */
  datatype Exports = Exports(table: map<string, Snapshot>, bytes: int, nextExport: map<string, real>)

  datatype Request = Request(tip: string, token: Option<string>, cursor: int, limit: nat)

  datatype Reply = Sent(page: Page) | StaleTip | Busy | PolicyLimit | SnapshotExpired | ProtocolViolation

  function Dropped(x: Exports, id: string): Exports {
    if id in x.table then x.(table := x.table - {id}, bytes := x.bytes - x.table[id].size) else x
  }

  predicate Expired(cfg: Config, s: Snapshot, now: real) {
    now - s.touched >= cfg.idleTimeout || now - s.created >= cfg.lifetime
  }

  function DropExpired(cfg: Config, x: Exports, id: string, now: real): Exports {
    if id in x.table && Expired(cfg, x.table[id], now) then Dropped(x, id) else x
  }

  /** Opening a new snapshot of the pool for peer `id`. */
  function OpenSnapshot(c: Crypto, cfg: Config, x: Exports, id: string, tip: string, pool: Pool, now: real,
                        token: string)
    : (r: (Exports, Option<Reply>))
    ensures r.1.None? ==> id in r.0.table
  {
    var items := Pending(pool.entries);
    if id in x.table || (id in x.nextExport && now < x.nextExport[id]) then (x, Some(Busy))
    else
      var y := x.(nextExport := x.nextExport[id := now + cfg.cooldown]);
      if |items| > cfg.snapshotMaxTransactions || pool.totalBytes > cfg.snapshotMaxBytes then (y, Some(PolicyLimit))
      else if x.bytes + pool.totalBytes > cfg.snapshotGlobalBytes then (y, Some(Busy))
      else if !Probed(c, cfg, items) then (y, Some(PolicyLimit))
      else (y.(table := x.table[id := Snapshot(token, tip, items, pool.totalBytes, 0, now, now)],
               bytes := x.bytes + pool.totalBytes), None)
  }

  /** Answering from an open snapshot. */
  function ServePage(c: Crypto, cfg: Config, x: Exports, id: string, request: Request, tip: string,
                     now: real): (Exports, Reply)
    requires id in x.table
  {
    var s := x.table[id];
    if request.cursor != s.cursor || s.cursor > |s.items| then (x, ProtocolViolation)
    else
      var page := PageFrom(c, cfg, s, request.limit);
      if page.transactions == [] && !page.done then (Dropped(x, id), PolicyLimit)
      else
        var y := x.(table := x.table[id := s.(cursor := page.nextCursor, touched := now)]);
        (if page.done then Dropped(y, id) else y, Sent(page.(tip := tip)))
  }

  /** `serve_mempool` */
  function Serve(c: Crypto, cfg: Config, x: Exports, id: string, request: Request, tip: string, pool: Pool,
                 now: real, token: string): (Exports, Reply)
  {
    if request.tip != tip then (Dropped(x, id), StaleTip)
    else
      var y := DropExpired(cfg, x, id, now);
      match request.token
      case None =>
        var (z, refusal) := OpenSnapshot(c, cfg, y, id, tip, pool, now, token);
        (match refusal
         case Some(reply) => (z, reply)
         case None => ServePage(c, cfg, z, id, request, tip, now))
      case Some(t) =>
        if id !in y.table || y.table[id].token != t then (y, SnapshotExpired)
        else ServePage(c, cfg, y, id, request, tip, now)
  }

  function DropAll(x: Exports): Exports {
    x.(table := map[], bytes := 0)
  }

  // ---- the byte budget -----------------------------------------------------------------------

  ghost function TotalSize(table: map<string, Snapshot>): int {
    if table == map[] then 0
    else
      var id :| id in table;
      table[id].size + TotalSize(table - {id})
  }

  lemma {:induction false} TotalSizeRemove(table: map<string, Snapshot>, id: string)
    requires id in table
    ensures TotalSize(table) == table[id].size + TotalSize(table - {id})
  {
    var q :| q in table && TotalSize(table) == table[q].size + TotalSize(table - {q});
    if q != id {
      TotalSizeRemove(table - {q}, id);
      TotalSizeRemove(table - {id}, q);
      assert (table - {q}) - {id} == (table - {id}) - {q};
    }
  }

  lemma TotalSizeInsert(table: map<string, Snapshot>, id: string, s: Snapshot)
    ensures TotalSize(table[id := s]) == s.size + TotalSize(table - {id})
  {
    TotalSizeRemove(table[id := s], id);
    assert table[id := s] - {id} == table - {id};
  }

  /** A live snapshot was probed item by item, its cursor is inside it, and it belongs to the current tip. */
  ghost predicate SnapshotOk(c: Crypto, cfg: Config, s: Snapshot, tip: string) {
    s.cursor <= |s.items| && s.size >= 0 && s.tip == tip && Probed(c, cfg, s.items)
  }

  /** The counter is the sum of live export sizes, within the global cap. */
  ghost predicate BudgetInv(c: Crypto, cfg: Config, x: Exports, tip: string) {
    && x.bytes == TotalSize(x.table)
    && x.bytes <= cfg.snapshotGlobalBytes
    && forall id :: id in x.table ==> SnapshotOk(c, cfg, x.table[id], tip)
  }

  lemma DroppedKeepsBudget(c: Crypto, cfg: Config, x: Exports, tip: string, id: string)
    requires BudgetInv(c, cfg, x, tip)
    ensures BudgetInv(c, cfg, Dropped(x, id), tip)
  {
    hide Probed;
    if id in x.table {
      assert SnapshotOk(c, cfg, x.table[id], tip);
      TotalSizeRemove(x.table, id);
    }
  }

  lemma OpenKeepsBudget(c: Crypto, cfg: Config, x: Exports, id: string, tip: string, pool: Pool, now: real,
                        token: string)
    requires BudgetInv(c, cfg, x, tip) && pool.totalBytes >= 0
    ensures BudgetInv(c, cfg, OpenSnapshot(c, cfg, x, id, tip, pool, now, token).0, tip)
  {
    hide Probed;
    if id !in x.table {
      TotalSizeInsert(x.table, id, Snapshot(token, tip, Pending(pool.entries), pool.totalBytes, 0, now, now));
      assert x.table - {id} == x.table;
    }
  }

  lemma PageKeepsBudget(c: Crypto, cfg: Config, x: Exports, id: string, request: Request, tip: string, now: real)
    requires BudgetInv(c, cfg, x, tip) && id in x.table && request.limit >= 1
    ensures BudgetInv(c, cfg, ServePage(c, cfg, x, id, request, tip, now).0, tip)
    ensures !ServePage(c, cfg, x, id, request, tip, now).1.PolicyLimit?
  {
    hide Probed, PageEnd;
    var s := x.table[id];
    assert SnapshotOk(c, cfg, s, tip);
    if request.cursor == s.cursor {
      var page := PageFrom(c, cfg, s, request.limit);
      PageProgress(c, cfg, s, request.limit);
      var moved := s.(cursor := page.nextCursor, touched := now);
      TotalSizeInsert(x.table, id, moved);
      TotalSizeRemove(x.table, id);
      DroppedKeepsBudget(c, cfg, x.(table := x.table[id := moved]), tip, id);
    }
  }

  /** A page is of the current tip, and empty only if it is the last. */
  predicate MakesProgress(reply: Reply, tip: string) {
    reply.Sent? ==> reply.page.tip == tip && (reply.page.transactions != [] || reply.page.done)
  }

  /**
   Every request keeps the byte counter equal to the sizes of the live exports and within the
   global cap, and a page is never empty unless it is the last one.
   */
  lemma ServeKeepsBudget(c: Crypto, cfg: Config, x: Exports, id: string, request: Request, tip: string, pool: Pool,
                         now: real, token: string)
    requires BudgetInv(c, cfg, x, tip) && pool.totalBytes >= 0 && request.limit >= 1
    ensures BudgetInv(c, cfg, Serve(c, cfg, x, id, request, tip, pool, now, token).0, tip)
    ensures MakesProgress(Serve(c, cfg, x, id, request, tip, pool, now, token).1, tip)
  {
    hide BudgetInv, OpenSnapshot, ServePage;
    DroppedKeepsBudget(c, cfg, x, tip, id);
    var y := DropExpired(cfg, x, id, now);
    OpenKeepsBudget(c, cfg, y, id, tip, pool, now, token);
    var (z, refusal) := OpenSnapshot(c, cfg, y, id, tip, pool, now, token);
    if request.tip == tip {
      if request.token.None? && refusal.None? {
        PageKeepsBudget(c, cfg, z, id, request, tip, now);
        SentProgress(c, cfg, z, id, request, tip, now);
      } else if request.token.Some? && id in y.table {
        PageKeepsBudget(c, cfg, y, id, request, tip, now);
        SentProgress(c, cfg, y, id, request, tip, now);
      }
      RefusalIsNotSent(c, cfg, y, id, tip, pool, now, token);
    }
  }

  lemma SentProgress(c: Crypto, cfg: Config, x: Exports, id: string, request: Request, tip: string, now: real)
    requires id in x.table
    ensures MakesProgress(ServePage(c, cfg, x, id, request, tip, now).1, tip)
  {
    hide PageFrom;
  }

  lemma RefusalIsNotSent(c: Crypto, cfg: Config, x: Exports, id: string, tip: string, pool: Pool, now: real,
                         token: string)
    ensures OpenSnapshot(c, cfg, x, id, tip, pool, now, token).1 != None ==>
      !OpenSnapshot(c, cfg, x, id, tip, pool, now, token).1.value.Sent?
  {
    hide Probed;
  }

  /** The same snapshot and waiting time for `other`, or the absence of both. */
  predicate SameFor(x: Exports, y: Exports, other: string) {
    && (other in y.table <==> other in x.table) && (other in x.table ==> y.table[other] == x.table[other])
    && (other in y.nextExport <==> other in x.nextExport)
    && (other in x.nextExport ==> y.nextExport[other] == x.nextExport[other])
  }

  lemma OpeningUndisturbed(c: Crypto, cfg: Config, x: Exports, id: string, other: string, tip: string, pool: Pool,
                           now: real, token: string)
    requires other != id
    ensures SameFor(x, OpenSnapshot(c, cfg, x, id, tip, pool, now, token).0, other)
  {
    hide Probed;
  }

  lemma PageUndisturbed(c: Crypto, cfg: Config, x: Exports, id: string, other: string, request: Request, tip: string,
                        now: real)
    requires other != id && id in x.table
    ensures SameFor(x, ServePage(c, cfg, x, id, request, tip, now).0, other)
  {
    hide PageFrom;
  }

  /** Serving one peer never touches another peer's snapshot or waiting time. */
  lemma OtherPeersUndisturbed(c: Crypto, cfg: Config, x: Exports, id: string, other: string, request: Request,
                              tip: string, pool: Pool, now: real, token: string)
    requires other != id
    ensures SameFor(x, Serve(c, cfg, x, id, request, tip, pool, now, token).0, other)
  {
    hide Probed, PageFrom, OpenSnapshot, ServePage, Expired;
    OpeningUndisturbed(c, cfg, DropExpired(cfg, x, id, now), id, other, tip, pool, now, token);
    var y := DropExpired(cfg, x, id, now);
    var z := OpenSnapshot(c, cfg, y, id, tip, pool, now, token).0;
    if id in y.table {
      PageUndisturbed(c, cfg, y, id, other, request, tip, now);
    }
    if id in z.table {
      PageUndisturbed(c, cfg, z, id, other, request, tip, now);
    }
  }

  // ---- whole runs of the exporter ------------------------------------------------------------------

  /** What can happen to the export table between two steps of the dispatcher. */
  datatype Event =
    | Asked(id: string, request: Request, pool: Pool, now: real, token: string)
    | Left(id: string)
    | TipMoved(tip: string)
    | Ticked(now: real)

  function Live(cfg: Config, table: map<string, Snapshot>, now: real): map<string, Snapshot> {
    map id | id in table && !Expired(cfg, table[id], now) :: table[id]
  }

  function Dead(cfg: Config, table: map<string, Snapshot>, now: real): map<string, Snapshot> {
    map id | id in table && Expired(cfg, table[id], now) :: table[id]
  }

  /** `tick` forgets every snapshot that has been idle or alive too long. */
  ghost function Swept(cfg: Config, x: Exports, now: real): Exports {
    x.(table := Live(cfg, x.table, now), bytes := x.bytes - TotalSize(Dead(cfg, x.table, now)))
  }

  ghost function StepExports(c: Crypto, cfg: Config, x: Exports, tip: string, e: Event): (Exports, string) {
    match e
    case Asked(id, request, pool, now, token) => (Serve(c, cfg, x, id, request, tip, pool, now, token).0, tip)
    case Left(id) => (Dropped(x, id), tip)
    case TipMoved(next) => (DropAll(x), next)
    case Ticked(now) => (Swept(cfg, x, now), tip)
  }

  ghost function RunExports(c: Crypto, cfg: Config, tip: string, events: seq<Event>, n: nat): (Exports, string)
    requires n <= |events|
  {
    if n == 0 then (Exports(map[], 0, map[]), tip)
    else
      var before := RunExports(c, cfg, tip, events, n - 1);
      StepExports(c, cfg, before.0, before.1, events[n - 1])
  }

  lemma {:induction false} TotalSizeSubset(c: Crypto, cfg: Config, small: map<string, Snapshot>,
                                           table: map<string, Snapshot>, tip: string)
    requires forall id :: id in table ==> SnapshotOk(c, cfg, table[id], tip)
    requires small.Keys <= table.Keys && forall id :: id in small ==> small[id] == table[id]
    ensures 0 <= TotalSize(small) <= TotalSize(table)
    decreases |table|
  {
    hide Probed;
    if id :| id in table {
      TotalSizeRemove(table, id);
      if id in small {
        TotalSizeRemove(small, id);
      }
      assert small - {id} == small || id in small;
      TotalSizeSubset(c, cfg, small - {id}, table - {id}, tip);
    }
  }

  /** Live and dead snapshots together hold what the table holds. */
  lemma {:induction false} TotalSizeSplit(cfg: Config, table: map<string, Snapshot>, now: real)
    ensures TotalSize(table) == TotalSize(Live(cfg, table, now)) + TotalSize(Dead(cfg, table, now))
    decreases |table|
  {
    hide Expired, TotalSize;
    if id :| id in table {
      var rest, live, dead := table - {id}, Live(cfg, table, now), Dead(cfg, table, now);
      TotalSizeRemove(table, id);
      TotalSizeSplit(cfg, rest, now);
      if Expired(cfg, table[id], now) {
        assert Live(cfg, rest, now) == live && Dead(cfg, rest, now) == dead - {id};
        TotalSizeRemove(dead, id);
      } else {
        assert Live(cfg, rest, now) == live - {id} && Dead(cfg, rest, now) == dead;
        TotalSizeRemove(live, id);
      }
    } else {
      assert table == map[] && Live(cfg, table, now) == map[] && Dead(cfg, table, now) == map[];
      EmptyTotal();
    }
  }

  lemma EmptyTotal()
    ensures TotalSize(map[]) == 0
  {
  }

  lemma SweptKeepsBudget(c: Crypto, cfg: Config, x: Exports, tip: string, now: real)
    requires BudgetInv(c, cfg, x, tip)
    ensures BudgetInv(c, cfg, Swept(cfg, x, now), tip)
  {
    hide SnapshotOk, TotalSize, Expired;
    TotalSizeSplit(cfg, x.table, now);
    TotalSizeSubset(c, cfg, Dead(cfg, x.table, now), x.table, tip);
  }

  /** In every run the byte counter is exact, within the cap, and every live snapshot is of the current tip. */
  lemma {:induction false} RunKeepsBudget(c: Crypto, cfg: Config, tip: string, events: seq<Event>, n: nat)
    requires n <= |events|
    requires forall e :: e in events && e.Asked? ==> e.request.limit >= 1 && e.pool.totalBytes >= 0
    ensures BudgetInv(c, cfg, RunExports(c, cfg, tip, events, n).0, RunExports(c, cfg, tip, events, n).1)
  {
    hide SnapshotOk, Serve, Swept;
    if n > 0 {
      RunKeepsBudget(c, cfg, tip, events, n - 1);
      var (x, at) := RunExports(c, cfg, tip, events, n - 1);
      match events[n - 1] {
        case Asked(id, request, pool, now, token) =>
          ServeKeepsBudget(c, cfg, x, id, request, at, pool, now, token);
        case Left(id) => DroppedKeepsBudget(c, cfg, x, at, id);
        case TipMoved(next) =>
        case Ticked(now) => SweptKeepsBudget(c, cfg, x, at, now);
      }
    }
  }

  // ---- lifetimes and answers ---------------------------------------------------------------------

  /** After a tick exactly the snapshots used recently enough and young enough are left, unchanged. */
  lemma SweptExactly(cfg: Config, x: Exports, now: real, id: string)
    ensures var y := Swept(cfg, x, now);
      && (id in y.table <==>
            id in x.table && now < x.table[id].touched + cfg.idleTimeout && now < x.table[id].created + cfg.lifetime)
      && (id in y.table ==> y.table[id] == x.table[id])
      && y.nextExport == x.nextExport
  {
    hide TotalSize;
  }

  /** The snapshot `id` still has at time `now`. */
  predicate Holds(cfg: Config, x: Exports, id: string, now: real) {
    id in x.table && now < x.table[id].touched + cfg.idleTimeout && now < x.table[id].created + cfg.lifetime
  }

  /**
   Which answer a request gets: another tip is stale; a token is expired unless it is the one
   of the snapshot still held; a new snapshot is refused as busy while one is held, during the
   cooldown or beyond the global bytes, and by policy when the pool or one item is too large;
   and a page is sent exactly at the snapshot's own cursor.
   */
  lemma ServeJudged(c: Crypto, cfg: Config, x: Exports, id: string, request: Request, tip: string, pool: Pool,
                    now: real, token: string)
    requires BudgetInv(c, cfg, x, tip) && pool.totalBytes >= 0 && request.limit >= 1
    ensures var reply := Serve(c, cfg, x, id, request, tip, pool, now, token).1;
      var held := Holds(cfg, x, id, now);
      var bytes := DropExpired(cfg, x, id, now).bytes;
      var busy := || held || (id in x.nextExport && now < x.nextExport[id]);
      var large := |pool.entries| > cfg.snapshotMaxTransactions || pool.totalBytes > cfg.snapshotMaxBytes;
      && (reply == StaleTip <==> request.tip != tip)
      && (reply == SnapshotExpired <==>
            request.tip == tip && request.token.Some? && !(held && x.table[id].token == request.token.value))
      && (reply == Busy <==> request.tip == tip && request.token.None?
                             && (busy || (!large && bytes + pool.totalBytes > cfg.snapshotGlobalBytes)))
      && (reply == PolicyLimit <==>
            request.tip == tip && request.token.None? && !busy
            && (large || (bytes + pool.totalBytes <= cfg.snapshotGlobalBytes
                          && !Probed(c, cfg, Pending(pool.entries)))))
      && (reply.Sent? ==>
            && reply.page.cursor == request.cursor
            && request.cursor == if request.token.Some? then x.table[id].cursor else 0)
  {
    hide Probed, BudgetInv, ServePage;
    DroppedKeepsBudget(c, cfg, x, tip, id);
    var y := DropExpired(cfg, x, id, now);
    OpenKeepsBudget(c, cfg, y, id, tip, pool, now, token);
    var (z, refusal) := OpenSnapshot(c, cfg, y, id, tip, pool, now, token);
    if request.tip == tip {
      if request.token.None? && refusal.None? {
        PageJudged(c, cfg, z, id, request, tip, now);
      } else if request.token.Some? && id in y.table {
        PageJudged(c, cfg, y, id, request, tip, now);
      }
    }
  }

  /** From an open snapshot a request gets the page at its cursor, or is a violation. */
  lemma PageJudged(c: Crypto, cfg: Config, x: Exports, id: string, request: Request, tip: string, now: real)
    requires BudgetInv(c, cfg, x, tip) && id in x.table && request.limit >= 1
    ensures var reply := ServePage(c, cfg, x, id, request, tip, now).1;
      && (reply == ProtocolViolation <==> request.cursor != x.table[id].cursor)
      && (reply.Sent? <==> request.cursor == x.table[id].cursor)
      && (reply.Sent? ==> reply.page.cursor == request.cursor)
  {
    hide PageEnd, LastIndex, Probed;
    PageKeepsBudget(c, cfg, x, id, request, tip, now);
    assert SnapshotOk(c, cfg, x.table[id], tip);
  }
}
