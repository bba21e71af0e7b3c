/** Greedy choice of transactions for a block (transaction/mempool.py). */
module Selection {
  import opened Prelude
  import opened Transactions
  import opened Validation
  import opened Processing
  import opened Reordering
  import opened Mempools
  import opened Survivors
  import Sorting

  /** Higher fee per byte first, then smaller identifier; rates are compared exactly. */
  predicate Better(a: Entry, b: Entry) {
    || a.fee * b.sizeBytes > b.fee * a.sizeBytes
    || (a.fee * b.sizeBytes == b.fee * a.sizeBytes && StringLess(a.txid, b.txid))
  }

  /** What ranking relies on: identifiers are keys, and canonical bytes are never empty. */
  ghost predicate Rankable(entries: seq<Entry>) {
    && (forall i, j :: 0 <= i < j < |entries| ==> entries[i].txid != entries[j].txid)
    && (forall i :: 0 <= i < |entries| ==> entries[i].sizeBytes > 0)
  }

  lemma RatesChain(f1: int, s1: int, f2: int, s2: int, f3: int, s3: int)
    requires s1 > 0 && s2 > 0 && s3 > 0
    requires f1 * s2 >= f2 * s1 && f2 * s3 >= f3 * s2
    ensures f1 * s3 >= f3 * s1
    ensures f1 * s2 > f2 * s1 || f2 * s3 > f3 * s2 ==> f1 * s3 > f3 * s1
  {
    MulOrder(f1 * s2, f2 * s1, s3);
    MulOrder(f2 * s3, f3 * s2, s1);
    assert (f1 * s3) * s2 == (f1 * s2) * s3 && (f2 * s1) * s3 == (f2 * s3) * s1 && (f3 * s2) * s1 == (f3 * s1) * s2;
    if f1 * s3 < f3 * s1 {
      MulOrder(f3 * s1, f1 * s3, s2);
    } else if f1 * s3 == f3 * s1 {
      MulOrder(f3 * s1, f1 * s3, s2);
    }
  }

  lemma MulOrder(x: int, y: int, k: int)
    requires k > 0 && x >= y
    ensures x * k >= y * k
    ensures x > y ==> x * k > y * k
  {
  }

  lemma BetterTransitive(a: Entry, b: Entry, d: Entry)
    requires a.sizeBytes > 0 && b.sizeBytes > 0 && d.sizeBytes > 0
    requires Better(a, b) && Better(b, d)
    ensures Better(a, d)
  {
    RatesChain(a.fee, a.sizeBytes, b.fee, b.sizeBytes, d.fee, d.sizeBytes);
    if a.fee * b.sizeBytes == b.fee * a.sizeBytes && b.fee * d.sizeBytes == d.fee * b.sizeBytes {
      RatesChain(d.fee, d.sizeBytes, b.fee, b.sizeBytes, a.fee, a.sizeBytes);
      StringLessTransitive(a.txid, b.txid, d.txid);
    }
  }

  lemma BetterTotal(entries: seq<Entry>)
    requires Rankable(entries)
    ensures Sorting.TotalOn(Better, entries)
    ensures Sorting.Distinct(entries)
  {
    forall a, b | a in entries && b in entries && a != b ensures Better(a, b) || Better(b, a) {
      var i :| 0 <= i < |entries| && entries[i] == a;
      var j :| 0 <= j < |entries| && entries[j] == b;
      assert i < j || j < i;
      StringLessTrichotomy(a.txid, b.txid);
    }
    forall a, b, d | a in entries && b in entries && d in entries && Better(a, b) && Better(b, d)
      ensures Better(a, d)
    {
      BetterTransitive(a, b, d);
    }
  }

  function EntryIds(entries: seq<Entry>, n: nat): set<string>
    requires n <= |entries|
  {
    if n == 0 then {} else EntryIds(entries, n - 1) + {entries[n - 1].txid}
  }

  lemma {:induction false} EntryIdMembers(entries: seq<Entry>, n: nat)
    requires n <= |entries|
    ensures forall i :: 0 <= i < n ==> entries[i].txid in EntryIds(entries, n)
    ensures forall id :: id in EntryIds(entries, n) ==> exists i :: 0 <= i < n && entries[i].txid == id
  {
    if n > 0 {
      EntryIdMembers(entries, n - 1);
    }
  }

  /** The pending transactions an entry depends on. */
  predicate ParentsChosen(e: Entry, ids: set<string>, chosen: set<string>) {
    forall i :: 0 <= i < |e.transaction.inputs| && e.transaction.inputs[i].previousTxId in ids
                ==> e.transaction.inputs[i].previousTxId in chosen
  }

  /** `e` may be taken next: not taken yet, all pending parents taken, and it fits. */
  predicate Candidate(ids: set<string>, e: Entry, chosen: set<string>, total: int, maxBytes: int) {
    e.txid !in chosen && ParentsChosen(e, ids, chosen) && total + e.sizeBytes <= maxBytes
  }

  /** `e` is the best candidate. */
  ghost predicate Best(entries: seq<Entry>, e: Entry, chosen: set<string>, total: int, maxBytes: int) {
    && e in entries
    && Candidate(EntryIds(entries, |entries|), e, chosen, total, maxBytes)
    && forall f :: f in entries && f != e && Candidate(EntryIds(entries, |entries|), f, chosen, total, maxBytes)
                   ==> Better(e, f)
  }

  ghost predicate NoCandidate(entries: seq<Entry>, chosen: set<string>, total: int, maxBytes: int) {
    forall f :: f in entries ==> !Candidate(EntryIds(entries, |entries|), f, chosen, total, maxBytes)
  }

  /** Each pick is the best candidate at its turn. */
  ghost predicate GreedyPicks(entries: seq<Entry>, picks: seq<Entry>, n: nat, maxBytes: int)
    requires n <= |picks|
  {
    forall k :: 0 <= k < n ==> Best(entries, picks[k], EntryIds(picks, k), SizeTotal(picks, k), maxBytes)
  }

  /** A greedy run stops only when the count is reached or nothing can be taken. */
  ghost predicate GreedyRun(entries: seq<Entry>, picks: seq<Entry>, maxTransactions: int, maxBytes: int) {
    && |picks| <= maxTransactions
    && GreedyPicks(entries, picks, |picks|, maxBytes)
    && (|picks| == maxTransactions
        || NoCandidate(entries, EntryIds(picks, |picks|), SizeTotal(picks, |picks|), maxBytes))
  }

  /** The scan over the ranked list finds the best candidate, or none exists. */
  method FirstCandidate(entries: seq<Entry>, ranked: seq<Entry>, ids: set<string>, chosen: set<string>, total: int,
                        maxBytes: int)
    returns (found: bool, best: nat)
    requires ids == EntryIds(entries, |entries|)
    requires Sorting.Sorted(Better, ranked) && forall e :: e in ranked <==> e in entries
    ensures found ==> best < |ranked| && Best(entries, ranked[best], chosen, total, maxBytes)
    ensures !found ==> NoCandidate(entries, chosen, total, maxBytes)
  {
    found, best := false, 0;
    for k := 0 to |ranked|
      invariant forall j :: 0 <= j < k ==> !Candidate(ids, ranked[j], chosen, total, maxBytes)
    {
      if Candidate(ids, ranked[k], chosen, total, maxBytes) {
        forall f | f in entries && f != ranked[k] && Candidate(ids, f, chosen, total, maxBytes)
          ensures Better(ranked[k], f)
        {
          assert f in ranked;
          var j :| 0 <= j < |ranked| && ranked[j] == f;
        }
        assert ranked[k] in entries;
        return true, k;
      }
    }
  }

  lemma RankedSorted(entries: seq<Entry>)
    requires Rankable(entries)
    ensures Sorting.Sorted(Better, Sorting.Sort(Better, entries))
    ensures forall e :: e in Sorting.Sort(Better, entries) <==> e in entries
  {
    hide Better;
    BetterTotal(entries);
    Sorting.SortSorted(Better, entries);
    Sorting.SameMembers(Sorting.Sort(Better, entries), entries);
  }

  lemma NothingPicked(entries: seq<Entry>, maxBytes: int)
    ensures EntryIds([], 0) == {} && SizeTotal([], 0) == 0 && GreedyPicks(entries, [], 0, maxBytes)
  {
  }

  lemma PendingGrows(picks: seq<Entry>, e: Entry)
    ensures Pending(picks + [e]) == Pending(picks) + [e.transaction]
  {
  }

  // ---- what a greedy run means in terms of rates -------------------------------------

  /** Fee per byte. */
  function Rate(e: Entry): real
    requires e.sizeBytes > 0
  {
    e.fee as real / e.sizeBytes as real
  }

  predicate SpendsFrom(f: Entry, e: Entry) {
    exists i :: 0 <= i < |f.transaction.inputs| && f.transaction.inputs[i].previousTxId == e.txid
  }

  /** After the first `k` picks `f` is still there, all its pending parents are picked, and it fits. */
  predicate CanFollow(entries: seq<Entry>, picks: seq<Entry>, k: nat, f: Entry, maxBytes: int)
    requires k <= |picks|
  {
    && f in entries && f !in picks[..k]
    && (forall e :: e in entries && SpendsFrom(f, e) ==> e in picks[..k])
    && SizeTotal(picks, k) + f.sizeBytes <= maxBytes
  }

  /** Nothing that could have been picked instead of `e` pays a better rate, or the same with a smaller identifier. */
  predicate Outranks(e: Entry, f: Entry)
    requires e.sizeBytes > 0 && f.sizeBytes > 0
  {
    Rate(f) < Rate(e) || (Rate(f) == Rate(e) && StringLess(e.txid, f.txid))
  }

  /** Highest rate first among what can follow, until the count is reached or nothing can. */
  ghost predicate PickedByRate(entries: seq<Entry>, picks: seq<Entry>, maxTransactions: int, maxBytes: int)
    requires Rankable(entries)
  {
    && |picks| <= maxTransactions
    && (forall k :: 0 <= k < |picks| ==> CanFollow(entries, picks, k, picks[k], maxBytes))
    && (forall k, f | 0 <= k < |picks| && CanFollow(entries, picks, k, f, maxBytes) && f != picks[k]
          :: Outranks(picks[k], f))
    && (|picks| == maxTransactions || forall f :: !CanFollow(entries, picks, |picks|, f, maxBytes))
  }

  lemma RateOrder(f1: int, s1: int, f2: int, s2: int)
    requires s1 > 0 && s2 > 0
    ensures f1 * s2 > f2 * s1 ==> f2 as real / s2 as real < f1 as real / s1 as real
    ensures f1 * s2 == f2 * s1 ==> f2 as real / s2 as real == f1 as real / s1 as real
  {
    var q1, q2 := f1 as real / s1 as real, f2 as real / s2 as real;
    assert q1 * s1 as real == f1 as real && q2 * s2 as real == f2 as real;
    assert (f1 * s2) as real == q1 * (s1 as real * s2 as real);
    assert (f2 * s1) as real == q2 * (s1 as real * s2 as real);
    RealOrder(q1, q2, s1 as real * s2 as real);
  }

  lemma RealOrder(x: real, y: real, k: real)
    requires k > 0.0
    ensures x * k > y * k ==> x > y
    ensures x * k == y * k ==> x == y
  {
  }

  lemma BetterOutranks(e: Entry, f: Entry)
    requires e.sizeBytes > 0 && f.sizeBytes > 0 && Better(e, f)
    ensures Outranks(e, f)
  {
    RateOrder(e.fee, e.sizeBytes, f.fee, f.sizeBytes);
  }

  /** Working with identifiers decides exactly what can follow. */
  lemma CandidateCanFollow(entries: seq<Entry>, picks: seq<Entry>, k: nat, f: Entry, maxBytes: int)
    requires Rankable(entries) && f in entries && k <= |picks| && forall j :: 0 <= j < k ==> picks[j] in entries
    ensures Candidate(EntryIds(entries, |entries|), f, EntryIds(picks, k), SizeTotal(picks, k), maxBytes)
       <==> CanFollow(entries, picks, k, f, maxBytes)
  {
    hide EntryIds, SizeTotal;
    EntryIdMembers(entries, |entries|);
    EntryIdMembers(picks, k);
    forall e | e in entries ensures e.txid in EntryIds(picks, k) <==> e in picks[..k] {
      PickedIff(entries, picks, k, e);
    }
    forall i, e | 0 <= i < |f.transaction.inputs| && e in entries && f.transaction.inputs[i].previousTxId == e.txid
      ensures SpendsFrom(f, e)
    {
    }
  }

  lemma PickedIff(entries: seq<Entry>, picks: seq<Entry>, k: nat, e: Entry)
    requires Rankable(entries) && e in entries && k <= |picks| && forall j :: 0 <= j < k ==> picks[j] in entries
    ensures e.txid in EntryIds(picks, k) <==> e in picks[..k]
  {
    hide EntryIds;
    EntryIdMembers(picks, k);
    if e.txid in EntryIds(picks, k) {
      var j :| 0 <= j < k && picks[j].txid == e.txid;
      var m :| 0 <= m < |entries| && entries[m] == picks[j];
      var n :| 0 <= n < |entries| && entries[n] == e;
      assert !(m < n) && !(n < m);
      assert picks[..k][j] == e;
    }
  }

  /** A greedy run takes, at every turn, the highest fee per byte that can be taken. */
  lemma RunIsByRate(entries: seq<Entry>, picks: seq<Entry>, maxTransactions: int, maxBytes: int)
    requires Rankable(entries) && GreedyRun(entries, picks, maxTransactions, maxBytes)
    ensures PickedByRate(entries, picks, maxTransactions, maxBytes)
  {
    hide Better, Outranks, Candidate, CanFollow, EntryIds, SizeTotal;
    var ids := EntryIds(entries, |entries|);
    forall k | 0 <= k < |picks| ensures picks[k] in entries {
      assert Best(entries, picks[k], EntryIds(picks, k), SizeTotal(picks, k), maxBytes);
    }
    forall k | 0 <= k < |picks| ensures CanFollow(entries, picks, k, picks[k], maxBytes) {
      assert Best(entries, picks[k], EntryIds(picks, k), SizeTotal(picks, k), maxBytes);
      CandidateCanFollow(entries, picks, k, picks[k], maxBytes);
    }
    forall k, f | 0 <= k < |picks| && CanFollow(entries, picks, k, f, maxBytes) && f != picks[k]
      ensures picks[k].sizeBytes > 0 && f.sizeBytes > 0 && Outranks(picks[k], f)
    {
      assert f in entries by { FollowersAreEntries(entries, picks, k, f, maxBytes); }
      assert Best(entries, picks[k], EntryIds(picks, k), SizeTotal(picks, k), maxBytes);
      CandidateCanFollow(entries, picks, k, f, maxBytes);
      BetterOutranks(picks[k], f);
    }
    forall f | |picks| != maxTransactions ensures !CanFollow(entries, picks, |picks|, f, maxBytes) {
      if CanFollow(entries, picks, |picks|, f, maxBytes) {
        FollowersAreEntries(entries, picks, |picks|, f, maxBytes);
        CandidateCanFollow(entries, picks, |picks|, f, maxBytes);
        assert false;
      }
    }
  }

  lemma FollowersAreEntries(entries: seq<Entry>, picks: seq<Entry>, k: nat, f: Entry, maxBytes: int)
    requires k <= |picks| && CanFollow(entries, picks, k, f, maxBytes)
    ensures f in entries
  {
  }

  /** `select_transactions`; None stands for the ValueError on a negative limit. */
  method SelectTransactions(entries: seq<Entry>, maxTransactions: int, maxBytes: int)
    returns (selected: Option<seq<Transaction>>, ghost picks: seq<Entry>)
    requires Rankable(entries)
    ensures selected.None? <==> maxTransactions < 0 || maxBytes < 0
    ensures selected.Some? ==> GreedyRun(entries, picks, maxTransactions, maxBytes)
    ensures selected.Some? ==> PickedByRate(entries, picks, maxTransactions, maxBytes)
    ensures selected.Some? ==> selected.value == Pending(picks)
  {
    hide Best, NoCandidate, Candidate, Better, GreedyPicks, EntryIds, SizeTotal, Rankable, Sorting.Sorted, PickedByRate;
    if maxTransactions < 0 || maxBytes < 0 {
      picks := [];
      return None, picks;
    }
    RankedSorted(entries);
    NothingPicked(entries, maxBytes);
    var ranked := Sorting.Sort(Better, entries);
    var ids := EntryIds(entries, |entries|);
    picks := [];
    var chosen, total, taken := {}, 0, [];
    while |taken| < maxTransactions
      invariant |taken| == |picks| <= maxTransactions && taken == Pending(picks)
      invariant chosen == EntryIds(picks, |picks|) && total == SizeTotal(picks, |picks|)
      invariant GreedyPicks(entries, picks, |picks|, maxBytes)
      decreases maxTransactions - |taken|
    {
      var found, k := FirstCandidate(entries, ranked, ids, chosen, total, maxBytes);
      if !found {
        break;
      }
      PicksGrow(entries, picks, ranked[k], maxBytes);
      PendingGrows(picks, ranked[k]);
      picks := picks + [ranked[k]];
      taken := taken + [ranked[k].transaction];
      chosen := chosen + {ranked[k].txid};
      total := total + ranked[k].sizeBytes;
    }
    RunIsByRate(entries, picks, maxTransactions, maxBytes);
    selected := Some(taken);
  }

  lemma {:induction false} EntryIdsPrefix(xs: seq<Entry>, ys: seq<Entry>, n: nat)
    requires n <= |xs| && n <= |ys| && forall i :: 0 <= i < n ==> xs[i] == ys[i]
    ensures EntryIds(xs, n) == EntryIds(ys, n)
  {
    if n > 0 {
      EntryIdsPrefix(xs, ys, n - 1);
    }
  }

  lemma PicksGrow(entries: seq<Entry>, picks: seq<Entry>, e: Entry, maxBytes: int)
    requires GreedyPicks(entries, picks, |picks|, maxBytes)
    requires Best(entries, e, EntryIds(picks, |picks|), SizeTotal(picks, |picks|), maxBytes)
    ensures GreedyPicks(entries, picks + [e], |picks| + 1, maxBytes)
    ensures EntryIds(picks + [e], |picks| + 1) == EntryIds(picks, |picks|) + {e.txid}
    ensures SizeTotal(picks + [e], |picks| + 1) == SizeTotal(picks, |picks|) + e.sizeBytes
  {
    hide Best, EntryIds, SizeTotal;
    var longer, n := picks + [e], |picks|;
    forall k | 0 <= k <= n ensures Best(entries, longer[k], EntryIds(longer, k), SizeTotal(longer, k), maxBytes) {
      EntryIdsPrefix(longer, picks, k);
      SizeTotalPrefix(longer, picks, k);
      if k < n {
        assert Best(entries, picks[k], EntryIds(picks, k), SizeTotal(picks, k), maxBytes);
      }
    }
    TotalsLast(longer);
    EntryIdsPrefix(longer, picks, n);
    SizeTotalPrefix(longer, picks, n);
  }

  lemma TotalsLast(picks: seq<Entry>)
    requires picks != []
    ensures EntryIds(picks, |picks|) == EntryIds(picks, |picks| - 1) + {picks[|picks| - 1].txid}
    ensures SizeTotal(picks, |picks|) == SizeTotal(picks, |picks| - 1) + picks[|picks| - 1].sizeBytes
  {
  }

  // ---- independence from insertion order -------------------------------------------

  lemma {:induction false} SamePicks(xs: seq<Entry>, ys: seq<Entry>, px: seq<Entry>, py: seq<Entry>, n: nat,
                                     maxBytes: int)
    requires (forall e :: e in xs <==> e in ys) && EntryIds(xs, |xs|) == EntryIds(ys, |ys|)
    requires n <= |px| && n <= |py| && GreedyPicks(xs, px, n, maxBytes) && GreedyPicks(ys, py, n, maxBytes)
    ensures forall i :: 0 <= i < n ==> px[i] == py[i]
  {
    hide Better, Candidate, EntryIds, SizeTotal, Best;
    if n > 0 {
      SamePicks(xs, ys, px, py, n - 1, maxBytes);
      EntryIdsPrefix(px, py, n - 1);
      SizeTotalPrefix(px, py, n - 1);
      BestUnique(xs, ys, px[n - 1], py[n - 1], EntryIds(px, n - 1), SizeTotal(px, n - 1), maxBytes);
    }
  }

  lemma BestUnique(xs: seq<Entry>, ys: seq<Entry>, a: Entry, b: Entry, chosen: set<string>, total: int, maxBytes: int)
    requires (forall e :: e in xs <==> e in ys) && EntryIds(xs, |xs|) == EntryIds(ys, |ys|)
    requires Best(xs, a, chosen, total, maxBytes) && Best(ys, b, chosen, total, maxBytes)
    ensures a == b
  {
    hide Better, Candidate, EntryIds;
    BetterAsymmetric(a, b);
  }

  lemma BetterAsymmetric(a: Entry, b: Entry)
    ensures !(Better(a, b) && Better(b, a))
  {
    StringLessTrichotomy(a.txid, b.txid);
  }

  lemma SameIds(xs: seq<Entry>, ys: seq<Entry>)
    requires forall e :: e in xs <==> e in ys
    ensures EntryIds(xs, |xs|) == EntryIds(ys, |ys|)
  {
    EntryIdMembers(xs, |xs|);
    EntryIdMembers(ys, |ys|);
    forall id ensures id in EntryIds(xs, |xs|) <==> id in EntryIds(ys, |ys|) {
      if id in EntryIds(xs, |xs|) {
        var i :| 0 <= i < |xs| && xs[i].txid == id;
        assert xs[i] in ys;
      }
      if id in EntryIds(ys, |ys|) {
        var i :| 0 <= i < |ys| && ys[i].txid == id;
        assert ys[i] in xs;
      }
    }
  }

  /** Two pools holding the same entries, in any insertion order, select the same list. */
  lemma SelectionIgnoresInsertionOrder(xs: seq<Entry>, ys: seq<Entry>, px: seq<Entry>, py: seq<Entry>,
                                       maxTransactions: int, maxBytes: int)
    requires forall e :: e in xs <==> e in ys
    requires GreedyRun(xs, px, maxTransactions, maxBytes) && GreedyRun(ys, py, maxTransactions, maxBytes)
    ensures px == py
  {
    SameIds(xs, ys);
    NotShorter(xs, ys, px, py, maxTransactions, maxBytes);
    NotShorter(ys, xs, py, px, maxTransactions, maxBytes);
    SamePicks(xs, ys, px, py, |px|, maxBytes);
  }

  lemma NotShorter(xs: seq<Entry>, ys: seq<Entry>, px: seq<Entry>, py: seq<Entry>, maxTransactions: int, maxBytes: int)
    requires (forall e :: e in xs <==> e in ys) && EntryIds(xs, |xs|) == EntryIds(ys, |ys|)
    requires GreedyRun(xs, px, maxTransactions, maxBytes) && GreedyRun(ys, py, maxTransactions, maxBytes)
    ensures |py| <= |px|
  {
    hide Better, Candidate, EntryIds, SizeTotal, Best, NoCandidate;
    var n := |px|;
    if n < |py| {
      SamePicks(xs, ys, px, py, n, maxBytes);
      EntryIdsPrefix(px, py, n);
      SizeTotalPrefix(px, py, n);
      BestIsCandidate(xs, ys, py[n], EntryIds(py, n), SizeTotal(py, n), maxBytes);
      assert false;
    }
  }

  lemma BestIsCandidate(xs: seq<Entry>, ys: seq<Entry>, e: Entry, chosen: set<string>, total: int, maxBytes: int)
    requires (forall e :: e in xs <==> e in ys) && EntryIds(xs, |xs|) == EntryIds(ys, |ys|)
    requires Best(ys, e, chosen, total, maxBytes)
    ensures !NoCandidate(xs, chosen, total, maxBytes)
  {
    hide Candidate, EntryIds;
  }

  // ---- a selection can be mined ----------------------------------------------------

  lemma SoundRankable(c: Crypto, p: Pool)
    requires Sound(c, p)
    ensures Rankable(p.entries)
  {
    hide Replayable, PoolInv;
    SoundReplayable(c, p);
    ReplayableIds(c, Pending(p.entries), |p.entries|, p.confirmed, p.seen);
    forall i | 0 <= i < |p.entries| ensures p.entries[i].txid == TxId(c, Pending(p.entries)[i]) {}
  }

  lemma PicksWithinBytes(entries: seq<Entry>, picks: seq<Entry>, maxBytes: int)
    requires GreedyPicks(entries, picks, |picks|, maxBytes) && maxBytes >= 0
    ensures SizeTotal(picks, |picks|) <= maxBytes
  {
    hide Better;
    if |picks| > 0 {
      assert Best(entries, picks[|picks| - 1], EntryIds(picks, |picks| - 1), SizeTotal(picks, |picks| - 1), maxBytes);
    }
  }

  lemma {:induction false} SameIdSets(c: Crypto, entries: seq<Entry>, n: nat)
    requires n <= |entries| && forall i :: 0 <= i < |entries| ==> entries[i].txid == TxId(c, entries[i].transaction)
    ensures EntryIds(entries, n) == TxIds(c, Pending(entries), n)
  {
    if n > 0 {
      SameIdSets(c, entries, n - 1);
    }
  }

  /** Greedy picks form a parents-first choice from the pool. */
  lemma PicksParentsFirst(c: Crypto, p: Pool, picks: seq<Entry>, maxBytes: int)
    requires Sound(c, p) && GreedyPicks(p.entries, picks, |picks|, maxBytes)
    ensures ParentsFirst(c, Pending(p.entries), Pending(picks))
    ensures forall k :: 0 <= k < |picks| ==> picks[k] in p.entries
  {
    hide Better, Points, TxIds, Sound, EntryIds, SizeTotal;
    var txs, ptxs := Pending(p.entries), Pending(picks);
    PickFacts(c, p, picks, maxBytes);
    SameIdSets(c, p.entries, |p.entries|);
    forall i | 0 <= i < |picks| ensures ptxs[i] in txs {
      var m :| 0 <= m < |p.entries| && p.entries[m] == picks[i];
      assert txs[m] == ptxs[i];
    }
    forall i, j | 0 <= i < j < |picks| ensures TxId(c, ptxs[i]) != TxId(c, ptxs[j]) {
      EntryIdMembers(picks, j);
      assert Best(p.entries, picks[j], EntryIds(picks, j), SizeTotal(picks, j), maxBytes);
    }
    forall i, o | 0 <= i < |picks| && o in Points(ptxs[i]) && o.txid in TxIds(c, txs, |txs|)
      ensures o.txid in TxIds(c, ptxs, i)
    {
      assert Best(p.entries, picks[i], EntryIds(picks, i), SizeTotal(picks, i), maxBytes);
      PointMembers(ptxs[i].inputs, |ptxs[i].inputs|);
      PointIsInput(ptxs[i], o);
      var m :| 0 <= m < |ptxs[i].inputs| && ptxs[i].inputs[m].previousTxId == o.txid;
      assert ParentsChosen(picks[i], EntryIds(p.entries, |p.entries|), EntryIds(picks, i));
      SameIdSets(c, picks, i);
    }
  }

  lemma PointIsInput(tx: Transaction, o: Outpoint)
    requires o in Points(tx)
    ensures exists m :: 0 <= m < |tx.inputs| && tx.inputs[m].previousTxId == o.txid
  {
    PointMembers(tx.inputs, |tx.inputs|);
    var m :| 0 <= m < |tx.inputs| && tx.inputs[m].Point() == o;
  }

  lemma PickFacts(c: Crypto, p: Pool, picks: seq<Entry>, maxBytes: int)
    requires Sound(c, p) && GreedyPicks(p.entries, picks, |picks|, maxBytes)
    ensures forall k :: 0 <= k < |picks| ==> picks[k] in p.entries && picks[k].txid == TxId(c, picks[k].transaction)
    ensures forall k :: 0 <= k < |p.entries| ==> p.entries[k].txid == TxId(c, p.entries[k].transaction)
  {
    hide Better, Candidate, PoolInv, Replayable, World;
    SoundReplayable(c, p);
    forall k | 0 <= k < |picks| ensures picks[k] in p.entries && picks[k].txid == TxId(c, picks[k].transaction) {
      assert Best(p.entries, picks[k], EntryIds(picks, k), SizeTotal(picks, k), maxBytes);
    }
  }

  /** Sum of the stored fees of the first `n` entries. */
  function FeeTotal(entries: seq<Entry>, n: nat): int
    requires n <= |entries|
  {
    if n == 0 then 0 else FeeTotal(entries, n - 1) + entries[n - 1].fee
  }

  lemma {:induction false} StoredFees(c: Crypto, p: Pool, picks: seq<Entry>, n: nat)
    requires Sound(c, p) && n <= |picks| && forall k :: 0 <= k < |picks| ==> picks[k] in p.entries
    ensures FeesIn(Pending(picks), n, World(c, p)) == FeeTotal(picks, n)
  {
    hide Sound, World, Fee;
    if n > 0 {
      StoredFees(c, p, picks, n - 1);
      var m :| 0 <= m < |p.entries| && p.entries[m] == picks[n - 1];
      StoredFee(c, p, m);
    }
  }

  /**
   Whatever a sound pool selects is accepted by the sequential processor from the confirmed
   state, pays exactly the stored fees, and respects both bounds.
   */
  lemma SelectionApplies(c: Crypto, p: Pool, picks: seq<Entry>, maxTransactions: int, maxBytes: int)
    requires Sound(c, p) && maxBytes >= 0 && GreedyRun(p.entries, picks, maxTransactions, maxBytes)
    ensures ApplyAll(c, Pending(picks), p.confirmed, p.seen).Some?
    ensures ApplyAll(c, Pending(picks), p.confirmed, p.seen).value.fees == FeeTotal(picks, |picks|)
    ensures ApplyAll(c, Pending(picks), p.confirmed, p.seen).value.seen
         == p.seen + TxIds(c, Pending(picks), |picks|)
    ensures |picks| <= maxTransactions && SizeTotal(picks, |picks|) <= maxBytes
  {
    hide ApplyFirst, ParentsFirst, TxIds, Spent, Everything, FeesIn, GreedyPicks, NoCandidate, EntryOk;
    PicksParentsFirst(c, p, picks, maxBytes);
    AnyParentsFirstOrder(c, Pending(p.entries), Pending(picks), p.confirmed, p.seen);
    StoredFees(c, p, picks, |picks|);
    PicksWithinBytes(p.entries, picks, maxBytes);
  }

  /** `select_transactions` on a node's pool: what it returns can be mined as it stands. */
  method SelectFromPool(c: Crypto, pool: Mempool, maxTransactions: int, maxBytes: int)
    returns (selected: Option<seq<Transaction>>, ghost picks: seq<Entry>)
    requires Sound(c, pool.Model())
    ensures selected.None? <==> maxTransactions < 0 || maxBytes < 0
    ensures Rankable(pool.entries)
    ensures selected.Some? ==>
      && GreedyRun(pool.entries, picks, maxTransactions, maxBytes) && selected.value == Pending(picks)
      && PickedByRate(pool.entries, picks, maxTransactions, maxBytes)
      && ApplyAll(c, selected.value, pool.confirmed.utxos, pool.seen).Some?
      && ApplyAll(c, selected.value, pool.confirmed.utxos, pool.seen).value.fees == FeeTotal(picks, |picks|)
  {
    hide Sound, GreedyRun, Rankable, ApplyFirst, PickedByRate;
    SoundRankable(c, pool.Model());
    selected, picks := SelectTransactions(pool.entries, maxTransactions, maxBytes);
    if selected.Some? {
      SelectionApplies(c, pool.Model(), picks, maxTransactions, maxBytes);
    }
  }
}
