/** Merkle roots over transaction identifiers (blockchain/merkle.py). */
module Merkle {
  import opened Prelude
  import opened Transactions

  /** `_combine_hashes` */
  function Combine(c: Crypto, left: string, right: string): string {
    c.combineHashes(left, right)
  }

  function Pow2(d: nat): nat {
    if d == 0 then 1 else 2 * Pow2(d - 1)
  }

  /** Number of levels above the leaves. */
  function Depth(n: nat): nat {
    if n <= 1 then 0 else 1 + Depth((n + 1) / 2)
  }

  lemma {:induction false} DepthBound(n: nat)
    ensures n <= Pow2(Depth(n))
  {
    if n > 1 {
      DepthBound((n + 1) / 2);
    }
  }

  /** The left and the right child of a node, the left one copied when it holds everything. */
  function LeftChild(leaves: seq<string>, d: nat): (r: seq<string>)
    requires d > 0 && 1 <= |leaves| <= Pow2(d)
    ensures 1 <= |r| <= Pow2(d - 1)
  {
    if |leaves| <= Pow2(d - 1) then leaves else leaves[..Pow2(d - 1)]
  }

  function RightChild(leaves: seq<string>, d: nat): (r: seq<string>)
    requires d > 0 && 1 <= |leaves| <= Pow2(d)
    ensures 1 <= |r| <= Pow2(d - 1)
  {
    if |leaves| <= Pow2(d - 1) then leaves else leaves[Pow2(d - 1)..]
  }

  /** The tree seen from the root. */
  function PaddedTree(c: Crypto, leaves: seq<string>, d: nat): string
    requires 1 <= |leaves| <= Pow2(d)
    decreases d
  {
    if d == 0 then leaves[0]
    else Combine(c, PaddedTree(c, LeftChild(leaves, d), d - 1), PaddedTree(c, RightChild(leaves, d), d - 1))
  }

  /** The root a header commits to; no transactions hash the empty string. */
  function Root(c: Crypto, txids: seq<string>): string {
    if txids == [] then c.sha256Hex([])
    else
      DepthBound(|txids|);
      PaddedTree(c, txids, Depth(|txids|))
  }

  /** One level up: neighbours are combined, an odd last one with itself. */
  function NextLevel(c: Crypto, level: seq<string>): (r: seq<string>)
    ensures |r| == (|level| + 1) / 2
  {
    seq((|level| + 1) / 2, i requires 0 <= i < (|level| + 1) / 2 =>
      Combine(c, level[2 * i], level[if 2 * i + 1 < |level| then 2 * i + 1 else 2 * i]))
  }

  lemma NextLevelSplit(c: Crypto, leaves: seq<string>, k: nat)
    requires 2 * k <= |leaves|
    ensures NextLevel(c, leaves[..2 * k]) == NextLevel(c, leaves)[..k]
    ensures NextLevel(c, leaves[2 * k..]) == NextLevel(c, leaves)[k..]
  {
    hide Combine;
  }

  /** Going up one level and taking a child can be done in either order. */
  lemma ChildrenOfNext(c: Crypto, leaves: seq<string>, d: nat)
    requires d > 1 && 1 <= |leaves| <= Pow2(d)
    ensures 1 <= |NextLevel(c, leaves)| <= Pow2(d - 1)
    ensures LeftChild(NextLevel(c, leaves), d - 1) == NextLevel(c, LeftChild(leaves, d))
    ensures RightChild(NextLevel(c, leaves), d - 1) == NextLevel(c, RightChild(leaves, d))
  {
    hide NextLevel;
    var k := Pow2(d - 2);
    assert Pow2(d - 1) == 2 * k;
    if |leaves| > 2 * k {
      NextLevelSplit(c, leaves, k);
    }
  }

  lemma SmallLevel(c: Crypto, leaves: seq<string>)
    requires 1 <= |leaves| <= 2 && Pow2(1) == 2 && Pow2(0) == 1
    ensures PaddedTree(c, leaves, 1) == PaddedTree(c, NextLevel(c, leaves), 0)
  {
    hide Combine;
    if |leaves| == 2 {
      assert leaves[..1] == [leaves[0]] && leaves[1..] == [leaves[1]];
    }
  }

  /** Combining neighbours first, or halves first, gives the same tree. */
  lemma {:induction false} LevelFirst(c: Crypto, leaves: seq<string>, d: nat)
    requires d > 0 && 1 <= |leaves| <= Pow2(d)
    ensures 1 <= |NextLevel(c, leaves)| <= Pow2(d - 1)
    ensures PaddedTree(c, leaves, d) == PaddedTree(c, NextLevel(c, leaves), d - 1)
    decreases d
  {
    hide Combine, NextLevel, LeftChild, RightChild;
    if d == 1 {
      assert Pow2(1) == 2 && Pow2(0) == 1;
      SmallLevel(c, leaves);
    } else {
      LevelFirst(c, LeftChild(leaves, d), d - 1);
      LevelFirst(c, RightChild(leaves, d), d - 1);
      ChildrenOfNext(c, leaves, d);
    }
  }

  /** The inner loop, on a level of even length. */
  method CombinePairs(c: Crypto, level: seq<string>) returns (next: seq<string>)
    requires |level| % 2 == 0
    ensures next == NextLevel(c, level)
  {
    next := [];
    var i := 0;
    while i < |level|
      invariant 0 <= i <= |level| && i % 2 == 0 && |next| == i / 2
      invariant forall k :: 0 <= k < i / 2 ==> next[k] == Combine(c, level[2 * k], level[2 * k + 1])
    {
      next := next + [Combine(c, level[i], level[i + 1])];
      i := i + 2;
    }
  }

  /** Appending a copy of the odd last hash does not change the next level. */
  lemma PaddingKeepsNext(c: Crypto, level: seq<string>)
    requires |level| % 2 == 1
    ensures NextLevel(c, level + [level[|level| - 1]]) == NextLevel(c, level)
  {
  }

  /** The level-by-level loops compute the recursive tree. */
  lemma SingleLeaf(c: Crypto, level: seq<string>)
    requires |level| == 1 && 1 <= Pow2(Depth(|level|))
    ensures PaddedTree(c, level, Depth(|level|)) == level[0]
  {
  }

  method CalculateMerkleRoot(c: Crypto, txids: seq<string>) returns (root: string)
    ensures root == Root(c, txids)
  {
    hide NextLevel, Combine, PaddedTree, Pow2;
    if txids == [] {
      return c.sha256Hex([]);
    }
    DepthBound(|txids|);
    var level := txids;
    while |level| > 1
      invariant 1 <= |level| <= Pow2(Depth(|level|))
      invariant PaddedTree(c, level, Depth(|level|)) == Root(c, txids)
      decreases |level|
    {
      LevelFirst(c, level, Depth(|level|));
      DepthBound((|level| + 1) / 2);
      if |level| % 2 == 1 {
        PaddingKeepsNext(c, level);
        level := level + [level[|level| - 1]];
      }
      level := CombinePairs(c, level);
    }
    SingleLeaf(c, level);
    root := level[0];
  }

  // ---- what the root commits to ---------------------------------------------------

  /**
   While computing the roots of the two lists, some node combined two different pairs of
   hashes to the same value: an explicit collision of the combine function.
   */
  predicate Clash(c: Crypto, xs: seq<string>, ys: seq<string>, d: nat)
    requires 1 <= |xs| <= Pow2(d) && 1 <= |ys| <= Pow2(d)
  {
    d > 0 &&
    var xl, xr := LeftChild(xs, d), RightChild(xs, d);
    var yl, yr := LeftChild(ys, d), RightChild(ys, d);
    || ClashAt(c, PaddedTree(c, xl, d - 1), PaddedTree(c, xr, d - 1),
               PaddedTree(c, yl, d - 1), PaddedTree(c, yr, d - 1))
    || Clash(c, xl, yl, d - 1)
    || Clash(c, xr, yr, d - 1)
  }

  predicate ClashAt(c: Crypto, a: string, b: string, a': string, b': string) {
    (a != a' || b != b') && Combine(c, a, b) == Combine(c, a', b')
  }

  /** A list never clashes with itself. */
  lemma {:induction false} NoSelfClash(c: Crypto, xs: seq<string>, d: nat)
    requires 1 <= |xs| <= Pow2(d)
    ensures !Clash(c, xs, xs, d)
  {
    if d > 0 {
      NoSelfClash(c, LeftChild(xs, d), d - 1);
      NoSelfClash(c, RightChild(xs, d), d - 1);
    }
  }

  /** The full bottom level, repetitions included. */
  function FullLevel(leaves: seq<string>, d: nat): (r: seq<string>)
    requires 1 <= |leaves| <= Pow2(d)
    ensures |r| == Pow2(d)
    decreases d
  {
    if d == 0 then leaves else FullLevel(LeftChild(leaves, d), d - 1) + FullLevel(RightChild(leaves, d), d - 1)
  }

  lemma {:induction false} LeavesArePrefix(leaves: seq<string>, d: nat)
    requires 1 <= |leaves| <= Pow2(d)
    ensures leaves <= FullLevel(leaves, d)
    ensures forall x :: x in FullLevel(leaves, d) ==> x in leaves
    decreases d
  {
    if d > 0 {
      var l, r := LeftChild(leaves, d), RightChild(leaves, d);
      ChildrenCover(leaves, d);
      LeavesArePrefix(l, d - 1);
      LeavesArePrefix(r, d - 1);
      HalvesPrefix(leaves, l, r, FullLevel(l, d - 1), FullLevel(r, d - 1));
    }
  }

  /** A node's leaves are its left child's, or those of both children when the left one is full. */
  lemma ChildrenCover(leaves: seq<string>, d: nat)
    requires d > 0 && 1 <= |leaves| <= Pow2(d)
    ensures var l, r := LeftChild(leaves, d), RightChild(leaves, d);
      (l == leaves && r == leaves) || (|l| == Pow2(d - 1) && leaves == l + r)
  {
  }

  lemma HalvesPrefix(leaves: seq<string>, l: seq<string>, r: seq<string>, fullLeft: seq<string>, fullRight: seq<string>)
    requires (l == leaves && r == leaves) || (|l| == |fullLeft| && leaves == l + r)
    requires l <= fullLeft && r <= fullRight
    requires (forall x :: x in fullLeft ==> x in l) && forall x :: x in fullRight ==> x in r
    ensures leaves <= fullLeft + fullRight
    ensures forall x :: x in fullLeft + fullRight ==> x in leaves
  {
  }

  lemma {:induction false} EqualRootsEqualLevels(c: Crypto, xs: seq<string>, ys: seq<string>, d: nat)
    requires 1 <= |xs| <= Pow2(d) && 1 <= |ys| <= Pow2(d)
    requires PaddedTree(c, xs, d) == PaddedTree(c, ys, d) && !Clash(c, xs, ys, d)
    ensures FullLevel(xs, d) == FullLevel(ys, d)
    decreases d
  {
    hide Combine, LeftChild, RightChild;
    if d > 0 {
      EqualRootsEqualLevels(c, LeftChild(xs, d), LeftChild(ys, d), d - 1);
      EqualRootsEqualLevels(c, RightChild(xs, d), RightChild(ys, d), d - 1);
    }
  }

  /**
   Repetition-free lists of equal depth with equal roots are equal exactly when computing the
   two roots met no collision.  Both premises are needed: see the two lemmas at the end.
   */
  lemma RootCommits(c: Crypto, xs: seq<string>, ys: seq<string>)
    requires xs != [] && ys != [] && DistinctStrings(xs) && DistinctStrings(ys)
    requires Depth(|xs|) == Depth(|ys|) && Root(c, xs) == Root(c, ys)
    ensures |xs| <= Pow2(Depth(|xs|)) && |ys| <= Pow2(Depth(|xs|))
    ensures xs == ys <==> !Clash(c, xs, ys, Depth(|xs|))
  {
    hide Clash, FullLevel;
    var d := Depth(|xs|);
    DepthBound(|xs|);
    DepthBound(|ys|);
    LeavesArePrefix(xs, d);
    LeavesArePrefix(ys, d);
    if xs == ys {
      NoSelfClash(c, xs, d);
    } else if !Clash(c, xs, ys, d) {
      EqualRootsEqualLevels(c, xs, ys, d);
      ShorterPrefix(xs, ys, FullLevel(xs, d));
      ShorterPrefix(ys, xs, FullLevel(xs, d));
      assert false;
    }
  }

  lemma ShorterPrefix(xs: seq<string>, ys: seq<string>, full: seq<string>)
    requires xs <= full && ys <= full && DistinctStrings(ys)
    requires forall x :: x in full ==> x in xs
    ensures |ys| <= |xs|
  {
    if |xs| < |ys| {
      RepeatInPrefix(xs, ys, full);
      assert false;
    }
  }

  lemma RepeatInPrefix(xs: seq<string>, ys: seq<string>, full: seq<string>)
    requires xs <= full && ys <= full && |xs| < |ys|
    requires forall x :: x in full ==> x in xs
    ensures !DistinctStrings(ys)
  {
    assert full[|xs|] in full;
    var k :| 0 <= k < |xs| && xs[k] == full[|xs|];
    assert ys[k] == ys[|xs|];
  }

  lemma SmallTrees(c: Crypto, x: string, y: string)
    ensures Root(c, [x]) == x
    ensures Root(c, [x, y]) == Combine(c, x, y)
  {
    assert Depth(2) == 1 + Depth(1) && Depth(1) == 0 && Pow2(1) == 2 * Pow2(0);
    assert [x, y][..Pow2(0)] == [x] && [x, y][Pow2(0)..] == [y];
    assert PaddedTree(c, [x, y], 1) == Combine(c, PaddedTree(c, [x], 0), PaddedTree(c, [y], 0));
  }

  /** Without the uniqueness check, repeating an odd last identifier leaves the root unchanged. */
  lemma RepeatedTailSameRoot(c: Crypto, txids: seq<string>)
    requires |txids| > 1 && |txids| % 2 == 1
    ensures Root(c, txids) == Root(c, txids + [txids[|txids| - 1]])
  {
    hide NextLevel, PaddedTree;
    var longer := txids + [txids[|txids| - 1]];
    assert (|longer| + 1) / 2 == (|txids| + 1) / 2;
    DepthBound(|txids|);
    DepthBound(|longer|);
    LevelFirst(c, txids, Depth(|txids|));
    LevelFirst(c, longer, Depth(|longer|));
    PaddingKeepsNext(c, txids);
  }

  /** Equal depth matters too: an inner node can be passed off as a single leaf. */
  lemma InnerNodeAsLeaf(c: Crypto, x: string, y: string)
    ensures Root(c, [x, y]) == Root(c, [Combine(c, x, y)])
  {
    SmallTrees(c, x, y);
    SmallTrees(c, Combine(c, x, y), y);
  }
}
