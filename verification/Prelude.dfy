/** Shared datatypes: optional values, bytes and the code-point order on strings. */
module Prelude {
  datatype Option<+T> = None | Some(value: T)

  newtype byte = x: int | 0 <= x < 256
  type Bytes = seq<byte>

  /** Python's order on `str`: compare code points, a proper prefix comes first. */
  predicate StringLess(a: string, b: string) {
    b != [] && (a == [] || a[0] < b[0] || (a[0] == b[0] && StringLess(a[1..], b[1..])))
  }

  lemma {:induction false} StringLessTrichotomy(a: string, b: string)
    ensures StringLess(a, b) || a == b || StringLess(b, a)
    ensures !(StringLess(a, b) && StringLess(b, a)) && !(a == b && StringLess(a, b))
  {
    if a != [] && b != [] && a[0] == b[0] {
      StringLessTrichotomy(a[1..], b[1..]);
      assert a == [a[0]] + a[1..] && b == [b[0]] + b[1..];
    }
  }

  lemma {:induction false} StringLessTransitive(a: string, b: string, d: string)
    requires StringLess(a, b) && StringLess(b, d)
    ensures StringLess(a, d)
  {
    if a != [] && a[0] == b[0] == d[0] {
      StringLessTransitive(a[1..], b[1..], d[1..]);
    }
  }

  /** Strings are compared at the first difference, and a proper prefix comes first. */
  lemma {:induction false} StringLessAt(a: string, b: string, n: nat)
    requires n <= |a| && n < |b| && a[..n] == b[..n] && (n < |a| ==> a[n] != b[n])
    ensures StringLess(a, b) <==> n == |a| || a[n] < b[n]
  {
    if n > 0 {
      assert a[0] == a[..n][0] == b[..n][0] == b[0];
      assert a[1..][..n - 1] == a[..n][1..] == b[..n][1..] == b[1..][..n - 1];
      StringLessAt(a[1..], b[1..], n - 1);
    }
  }

  /** Python's `s[:n]` for a non-negative `n`. */
  function Take(s: string, n: nat): string {
    if |s| <= n then s else s[..n]
  }

  predicate DistinctStrings(xs: seq<string>) {
    forall i, j :: 0 <= i < j < |xs| ==> xs[i] != xs[j]
  }
}
