/** Division facts with a variable divisor. */
module Arithmetic {

  lemma MulAtLeast(e: int, d: nat)
    requires e != 0
    ensures e * d >= d || e * d <= -(d as int)
  {
    if e >= 1 {
      assert (e - 1) * d >= 0;
    } else {
      assert (-e - 1) * d >= 0;
    }
  }

  /** Euclidean division is unique. */
  lemma DivModUnique(x: nat, d: nat, q: nat, r: nat)
    requires d > 0 && r < d && x == q * d + r
    ensures x / d == q && x % d == r
  {
    var e := x / d - q;
    assert x == (x / d) * d + x % d;
    assert e * d == r - x % d;
    if e != 0 {
      MulAtLeast(e, d);
    }
  }

  lemma MulMono(x: nat, y: nat, d: nat)
    requires x <= y
    ensures x * d <= y * d
  {
    assert y * d == x * d + (y - x) * d;
  }

  function Times(x: nat, y: nat): nat {
    x * y
  }

  /** The (r / d)-th run of d below n * d ends at or below n * d. */
  lemma RunBelow(q: nat, r: nat, d: nat, n: nat)
    requires q < n && r < d
    ensures q * d + r < q * d + d == (q + 1) * d <= n * d
  {
    MulMono(q + 1, n, d);
  }

  lemma QuotientBelow(x: nat, d: nat, n: nat)
    requires d > 0 && x < n * d
    ensures x / d < n && x % d < d && x == (x / d) * d + x % d
  {
    if x / d >= n {
      MulMono(n, x / d, d);
    }
  }

  /** Chunk d of n equal chunks of k. */
  function Chunk<T>(x: seq<T>, n: nat, k: nat, d: nat): (c: seq<T>)
    requires d < n && |x| == n * k
    ensures |c| == k
    ensures forall i :: 0 <= i < k ==> 0 <= d * k + i < |x| && c[i] == x[d * k + i]
  {
    MulMono(d + 1, n, k);
    x[d * k..d * k + k]
  }
}
