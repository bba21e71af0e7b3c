/** Python's `sorted` with a strict key order, as an insertion sort. */
module Sorting {
  ghost predicate Distinct<T(!new)>(xs: seq<T>) {
    forall i, j :: 0 <= i < j < |xs| ==> xs[i] != xs[j]
  }

  ghost predicate Sorted<T(!new)>(less: (T, T) -> bool, xs: seq<T>) {
    forall i, j :: 0 <= i < j < |xs| ==> less(xs[i], xs[j])
  }

  /** `less` is a strict total order on the members of `xs`. */
  ghost predicate TotalOn<T(!new)>(less: (T, T) -> bool, xs: seq<T>) {
    && (forall a, b :: a in xs && b in xs && a != b ==> less(a, b) || less(b, a))
    && (forall a, b, d :: a in xs && b in xs && d in xs && less(a, b) && less(b, d) ==> less(a, d))
  }

  function Insert<T>(less: (T, T) -> bool, x: T, xs: seq<T>): (r: seq<T>)
    ensures |r| == |xs| + 1
    ensures multiset(r) == multiset{x} + multiset(xs)
  {
    if xs == [] || less(x, xs[0]) then [x] + xs
    else
      assert xs == [xs[0]] + xs[1..];
      [xs[0]] + Insert(less, x, xs[1..])
  }

  function Sort<T>(less: (T, T) -> bool, xs: seq<T>): (r: seq<T>)
    ensures |r| == |xs|
    ensures multiset(r) == multiset(xs)
  {
    if xs == [] then []
    else
      assert xs == [xs[0]] + xs[1..];
      Insert(less, xs[0], Sort(less, xs[1..]))
  }

  lemma SameMembers<T>(xs: seq<T>, ys: seq<T>)
    requires multiset(xs) == multiset(ys)
    ensures forall x :: x in xs <==> x in ys
  {
    forall x ensures x in xs <==> x in ys {
      assert x in xs <==> x in multiset(xs);
      assert x in ys <==> x in multiset(ys);
    }
  }

  lemma {:induction false} InsertSorted<T(!new)>(less: (T, T) -> bool, x: T, xs: seq<T>)
    requires Sorted(less, xs) && x !in xs && TotalOn(less, [x] + xs)
    ensures Sorted(less, Insert(less, x, xs))
  {
    if xs != [] {
      assert xs[0] in [x] + xs && x in [x] + xs;
      if less(x, xs[0]) {
        forall j | 0 <= j < |xs| ensures less(x, xs[j]) {
          assert xs[j] in [x] + xs;
        }
      } else {
        var rest := Insert(less, x, xs[1..]);
        forall y | y in xs[1..] ensures y in [x] + xs {}
        InsertSorted(less, x, xs[1..]);
        forall y | y in rest ensures less(xs[0], y) {
          assert y in multiset(rest);
          if y != x {
            assert y in xs[1..];
          }
        }
      }
    }
  }

  lemma {:induction false} SortSorted<T(!new)>(less: (T, T) -> bool, xs: seq<T>)
    requires Distinct(xs) && TotalOn(less, xs)
    ensures Sorted(less, Sort(less, xs))
  {
    if xs != [] {
      var rest := Sort(less, xs[1..]);
      SortSorted(less, xs[1..]);
      SameMembers(rest, xs[1..]);
      assert forall y :: y in [xs[0]] + rest ==> y in xs;
      InsertSorted(less, xs[0], rest);
    }
  }

  /** Distinctness only depends on multiplicities. */
  lemma MultisetDistinct<T(!new)>(xs: seq<T>, ys: seq<T>)
    requires Distinct(xs) && multiset(xs) == multiset(ys)
    ensures Distinct(ys)
  {
    DistinctCounts(xs);
    forall i, j | 0 <= i < j < |ys| ensures ys[i] != ys[j] {
      RepeatCount(ys, i, j);
    }
  }

  lemma RepeatCount<T(!new)>(ys: seq<T>, i: nat, j: nat)
    requires i < j < |ys|
    ensures ys[i] == ys[j] ==> multiset(ys)[ys[j]] >= 2
  {
    assert ys == ys[..j] + [ys[j]] + ys[j + 1..];
    assert ys[i] in ys[..j];
  }

  lemma {:induction false} DistinctCounts<T(!new)>(xs: seq<T>)
    requires Distinct(xs)
    ensures forall x :: multiset(xs)[x] <= 1
  {
    if xs != [] {
      assert xs == [xs[0]] + xs[1..];
      DistinctCounts(xs[1..]);
      assert xs[0] !in xs[1..];
    }
  }

  /** A strict order leaves only one sorted arrangement of the same members. */
  lemma {:induction false} SortedUnique<T(!new)>(less: (T, T) -> bool, xs: seq<T>, ys: seq<T>)
    requires Sorted(less, xs) && Sorted(less, ys) && multiset(xs) == multiset(ys)
    requires forall a, b :: a in xs && b in xs && less(a, b) ==> !less(b, a)
    ensures xs == ys
  {
    assert |xs| == |multiset(xs)| == |multiset(ys)| == |ys|;
    if xs != [] {
      SameHead(less, xs, ys);
      Tail(less, xs);
      Tail(less, ys);
      SortedUnique(less, xs[1..], ys[1..]);
    }
  }

  lemma Tail<T(!new)>(less: (T, T) -> bool, xs: seq<T>)
    requires Sorted(less, xs) && xs != []
    ensures Sorted(less, xs[1..]) && xs == [xs[0]] + xs[1..]
    ensures multiset(xs[1..]) == multiset(xs) - multiset{xs[0]}
    ensures forall a :: a in xs[1..] ==> a in xs
  {
    assert xs == [xs[0]] + xs[1..];
  }

  lemma SameHead<T(!new)>(less: (T, T) -> bool, xs: seq<T>, ys: seq<T>)
    requires Sorted(less, xs) && Sorted(less, ys) && multiset(xs) == multiset(ys) && xs != [] && ys != []
    requires forall a, b :: a in xs && b in xs && less(a, b) ==> !less(b, a)
    ensures xs[0] == ys[0]
  {
    SameMembers(xs, ys);
    assert xs[0] in ys && ys[0] in xs;
    var i :| 0 <= i < |ys| && ys[i] == xs[0];
    var j :| 0 <= j < |xs| && xs[j] == ys[0];
    assert i == 0 || j == 0;
  }
}
