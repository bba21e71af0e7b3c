/** Smallest-first coin selection (wallet/coin_selection.py). */
module CoinSelection {
  import opened Prelude
  import opened Transactions
  import Sorting

  /** One item of the UTXO dictionary. */
  datatype Coin = Coin(point: Outpoint, output: TxOutput)

  datatype Selected =
    | Chosen(coins: seq<Coin>, total: int, change: int)
    | InvalidRequest
    | InvalidAmount
    | Insufficient

  /** Order by amount, then transaction identifier, then index. */
  predicate Smaller(a: Coin, b: Coin) {
    || a.output.amount < b.output.amount
    || (a.output.amount == b.output.amount
        && (StringLess(a.point.txid, b.point.txid)
            || (a.point.txid == b.point.txid && a.point.index < b.point.index)))
  }

  function Value(coins: seq<Coin>, n: nat): int
    requires n <= |coins|
  {
    if n == 0 then 0 else Value(coins, n - 1) + coins[n - 1].output.amount
  }

  /** The coins are the items of a dictionary: no outpoint occurs twice. */
  ghost predicate DistinctCoins(coins: seq<Coin>) {
    forall i, j :: 0 <= i < j < |coins| ==> coins[i].point != coins[j].point
  }

  datatype Progress = Reached(count: nat) | Stopped(at: nat) | Exhausted

  /** The accumulation loop over the sorted items. */
  method Accumulate(sorted: seq<Coin>, target: int) returns (r: Progress)
    requires target > 0
    ensures r.Reached? ==> 0 < r.count <= |sorted| && Value(sorted, r.count - 1) < target <= Value(sorted, r.count)
                           && AllPositive(sorted, r.count)
    ensures r.Stopped? ==> r.at < |sorted| && sorted[r.at].output.amount <= 0 && Value(sorted, r.at) < target
                           && AllPositive(sorted, r.at)
    ensures r.Exhausted? ==> Value(sorted, |sorted|) < target && AllPositive(sorted, |sorted|)
  {
    var total := 0;
    for i := 0 to |sorted|
      invariant total == Value(sorted, i) && total < target && AllPositive(sorted, i)
    {
      if sorted[i].output.amount <= 0 {
        return Stopped(i);
      }
      total := total + sorted[i].output.amount;
      if total >= target {
        return Reached(i + 1);
      }
    }
    r := Exhausted;
  }

  predicate AllPositive(coins: seq<Coin>, n: nat)
    requires n <= |coins|
  {
    forall k :: 0 <= k < n ==> coins[k].output.amount > 0
  }

  /** The first `k` coins, smallest first, are the shortest choice that covers amount and fee. */
  predicate Chooses(coins: seq<Coin>, k: nat, amount: int, fee: int) {
    var sorted := Sorting.Sort(Smaller, coins);
    && amount > 0 && fee >= 0 && 0 < k <= |sorted| && AllPositive(sorted, k)
    && Value(sorted, k - 1) < amount + fee <= Value(sorted, k)
  }

  predicate TooPoor(coins: seq<Coin>, amount: int, fee: int) {
    var sorted := Sorting.Sort(Smaller, coins);
    amount > 0 && fee >= 0 && AllPositive(sorted, |sorted|) && Value(sorted, |sorted|) < amount + fee
  }

  /** A coin without value is met before the target is reached. */
  predicate MeetsWorthless(coins: seq<Coin>, amount: int, fee: int) {
    var sorted := Sorting.Sort(Smaller, coins);
    amount > 0 && fee >= 0
    && exists k | 0 <= k < |sorted| ::
      sorted[k].output.amount <= 0 && AllPositive(sorted, k) && Value(sorted, k) < amount + fee
  }

  lemma {:induction false} ValueGrows(coins: seq<Coin>, m: nat, n: nat)
    requires m <= n <= |coins| && AllPositive(coins, n)
    ensures Value(coins, m) <= Value(coins, n)
  {
    if m < n {
      ValueGrows(coins, m, n - 1);
    }
  }

  /** The three outcomes of the loop exclude one another. */
  lemma OutcomesExclude(coins: seq<Coin>, k: nat, amount: int, fee: int)
    requires Chooses(coins, k, amount, fee)
    ensures !TooPoor(coins, amount, fee) && !MeetsWorthless(coins, amount, fee)
  {
    hide Sorting.Sort, Smaller;
    var sorted := Sorting.Sort(Smaller, coins);
    if AllPositive(sorted, |sorted|) {
      ValueGrows(sorted, k, |sorted|);
    }
    forall j | 0 <= j < |sorted| && sorted[j].output.amount <= 0 && AllPositive(sorted, j)
      ensures Value(sorted, j) >= amount + fee
    {
      ValueGrows(sorted, k, j);
    }
  }

  /** There is only one such choice. */
  lemma OneChoice(coins: seq<Coin>, j: nat, k: nat, amount: int, fee: int)
    requires Chooses(coins, j, amount, fee) && Chooses(coins, k, amount, fee)
    ensures j == k
  {
    hide Sorting.Sort, Smaller;
    var sorted := Sorting.Sort(Smaller, coins);
    if j < k {
      ValueGrows(sorted, j, k - 1);
    } else if k < j {
      ValueGrows(sorted, k, j - 1);
    }
  }

  method SelectUtxos(coins: seq<Coin>, amount: int, fee: int) returns (r: Selected)
    ensures r.InvalidRequest? <==> amount <= 0 || fee < 0
    ensures r.Chosen? ==>
      && Chooses(coins, |r.coins|, amount, fee) && r.coins == Sorting.Sort(Smaller, coins)[..|r.coins|]
      && r.total == Value(r.coins, |r.coins|) && r.change == r.total - amount - fee
    ensures r.Chosen? && DistinctCoins(coins) ==>
      SmallestFirst(coins, r.coins, amount, fee) && r.change < r.coins[|r.coins| - 1].output.amount
    ensures r.Insufficient? <==> TooPoor(coins, amount, fee)
    ensures r.InvalidAmount? <==> MeetsWorthless(coins, amount, fee)
  {
    hide Smaller, Sorting.Sort, Value, SmallestFirst;
    if amount <= 0 || fee < 0 {
      return InvalidRequest;
    }
    var sorted := Sorting.Sort(Smaller, coins);
    var progress := Accumulate(sorted, amount + fee);
    match progress {
      case Reached(k) =>
        OutcomesExclude(coins, k, amount, fee);
        ValuePrefix(sorted[..k], sorted, k);
        r := Chosen(sorted[..k], Value(sorted, k), Value(sorted, k) - amount - fee);
        if DistinctCoins(coins) {
          PrefixIsSmallestFirst(coins, k, amount, fee);
        }
      case Stopped(_) => r := InvalidAmount;
      case Exhausted => r := Insufficient;
    }
  }

  lemma SmallerTotal(coins: seq<Coin>)
    requires DistinctCoins(coins)
    ensures Sorting.TotalOn(Smaller, coins) && Sorting.Distinct(coins)
  {
    forall a, b | a in coins && b in coins && a != b ensures Smaller(a, b) || Smaller(b, a) {
      var i :| 0 <= i < |coins| && coins[i] == a;
      var j :| 0 <= j < |coins| && coins[j] == b;
      assert i < j || j < i;
      assert a.point != b.point;
      StringLessTrichotomy(a.point.txid, b.point.txid);
    }
    forall a, b, d | a in coins && b in coins && d in coins && Smaller(a, b) && Smaller(b, d)
      ensures Smaller(a, d)
    {
      if StringLess(a.point.txid, b.point.txid) && StringLess(b.point.txid, d.point.txid) {
        StringLessTransitive(a.point.txid, b.point.txid, d.point.txid);
      }
    }
  }

  lemma SmallerAsymmetric(a: Coin, b: Coin)
    ensures !(Smaller(a, b) && Smaller(b, a))
  {
    StringLessTrichotomy(a.point.txid, b.point.txid);
  }

  /** The order in which the dictionary lists its items does not matter. */
  lemma SelectionIgnoresListing(xs: seq<Coin>, ys: seq<Coin>)
    requires DistinctCoins(xs) && multiset(xs) == multiset(ys)
    ensures Sorting.Sort(Smaller, xs) == Sorting.Sort(Smaller, ys)
  {
    SmallerTotal(xs);
    Sorting.MultisetDistinct(xs, ys);
    Sorting.SameMembers(xs, ys);
    Sorting.SortSorted(Smaller, xs);
    Sorting.SortSorted(Smaller, ys);
    forall a, b ensures Smaller(a, b) ==> !Smaller(b, a) {
      SmallerAsymmetric(a, b);
    }
    Sorting.SortedUnique(Smaller, Sorting.Sort(Smaller, xs), Sorting.Sort(Smaller, ys));
  }

  /** `a` is worth less than `b`, or the same with the earlier outpoint. */
  predicate SpentBefore(a: Coin, b: Coin) {
    && a.output.amount <= b.output.amount
    && (a.output.amount == b.output.amount ==>
          && !StringLess(b.point.txid, a.point.txid)
          && (a.point.txid == b.point.txid ==> a.point.index < b.point.index))
  }

  lemma SmallerIsSpentBefore(a: Coin, b: Coin)
    requires Smaller(a, b)
    ensures SpentBefore(a, b)
  {
    StringLessTrichotomy(a.point.txid, b.point.txid);
  }

  /** What makes a choice the expected one, without saying how it is found. */
  ghost predicate SmallestFirst(coins: seq<Coin>, chosen: seq<Coin>, amount: int, fee: int) {
    && chosen != []
    && (forall a :: a in chosen ==> a in coins)
    && (forall a, b :: a in chosen && b in coins && b !in chosen ==> SpentBefore(a, b))
    && Value(chosen, |chosen| - 1) < amount + fee <= Value(chosen, |chosen|)
    && (forall j, k :: 0 <= j < k < |chosen| ==> SpentBefore(chosen[j], chosen[k]))
  }

  lemma {:induction false} ValuePrefix(xs: seq<Coin>, ys: seq<Coin>, n: nat)
    requires n <= |xs| && n <= |ys| && forall i :: 0 <= i < n ==> xs[i] == ys[i]
    ensures Value(xs, n) == Value(ys, n)
  {
    if n > 0 {
      ValuePrefix(xs, ys, n - 1);
    }
  }

  /**
   A sorted prefix that just reaches the target takes only the smallest coins, and giving
   up its largest coin would leave too little; so the change is smaller than that coin.
   */
  lemma PrefixIsSmallestFirst(coins: seq<Coin>, k: nat, amount: int, fee: int)
    requires DistinctCoins(coins) && 0 < k <= |coins|
    requires var sorted := Sorting.Sort(Smaller, coins);
      Value(sorted, k - 1) < amount + fee <= Value(sorted, k)
    ensures var sorted := Sorting.Sort(Smaller, coins);
      && SmallestFirst(coins, sorted[..k], amount, fee)
      && Value(sorted, k) - amount - fee < sorted[k - 1].output.amount
  {
    hide Smaller, SpentBefore, Sorting.Sort, Value;
    var sorted := Sorting.Sort(Smaller, coins);
    PrefixIsSpentFirst(coins, k);
    ValuePrefix(sorted[..k], sorted, k);
    ValuePrefix(sorted[..k], sorted, k - 1);
    LastValue(sorted, k);
  }

  lemma LastValue(coins: seq<Coin>, k: nat)
    requires 0 < k <= |coins|
    ensures Value(coins, k) == Value(coins, k - 1) + coins[k - 1].output.amount
  {
  }

  lemma PrefixIsSpentFirst(coins: seq<Coin>, k: nat)
    requires DistinctCoins(coins) && k <= |coins|
    ensures var chosen := Sorting.Sort(Smaller, coins)[..k];
      && (forall a :: a in chosen ==> a in coins)
      && (forall a, b :: a in chosen && b in coins && b !in chosen ==> SpentBefore(a, b))
      && (forall i, j :: 0 <= i < j < k ==> SpentBefore(chosen[i], chosen[j]))
  {
    hide Smaller, SpentBefore, Sorting.Sort;
    var sorted := Sorting.Sort(Smaller, coins);
    SmallerTotal(coins);
    Sorting.SortSorted(Smaller, coins);
    Sorting.SameMembers(coins, sorted);
    forall i, j | 0 <= i < j < |sorted| ensures SpentBefore(sorted[i], sorted[j]) {
      SmallerIsSpentBefore(sorted[i], sorted[j]);
    }
    forall a, b | a in sorted[..k] && b in coins && b !in sorted[..k] ensures SpentBefore(a, b) {
      var i :| 0 <= i < k && sorted[i] == a;
      assert b in sorted;
      var j :| 0 <= j < |sorted| && sorted[j] == b;
      assert j >= k;
    }
  }
}
