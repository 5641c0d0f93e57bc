/** Powers of two as plain integers, and the bit operations the reductions use them for. */
module Powers {

  predicate IsPow2(n: nat) {
    n == 1 || (n > 1 && n % 2 == 0 && IsPow2(n / 2))
  }

  /** The largest power of two that is at most n: `1 << (n.bit_length() - 1)`. */
  function Top(n: nat): (t: nat)
    requires n >= 1
    ensures IsPow2(t) && t <= n < 2 * t
  {
    if n == 1 then 1 else 2 * Top(n / 2)
  }

  /** `x & mask != 0`, for a power of two. */
  predicate Bit(x: nat, mask: nat) {
    if mask <= 1 then x % 2 == 1 else Bit(x / 2, mask / 2)
  }

  /** `x & (mask - 1)`, the bits of x below a power of two. */
  function Low(x: nat, mask: nat): (l: nat)
    ensures l <= x
  {
    if mask <= 1 then 0 else 2 * Low(x / 2, mask / 2) + x % 2
  }

  /** `x ^ mask`, for a power of two. */
  function Flip(x: nat, mask: nat): nat {
    if mask > 1 then 2 * Flip(x / 2, mask / 2) + x % 2
    else if x % 2 == 1 then x - 1
    else x + 1
  }

  lemma {:induction false} Pow2Gap(a: nat, b: nat)
    requires IsPow2(a) && IsPow2(b) && a < b
    ensures 2 * a <= b
  {
    if a <= 1 {
    } else {
      Pow2Gap(a / 2, b / 2);
    }
  }

  lemma TopUnique(n: nat, b: nat)
    requires n >= 1 && IsPow2(b) && b <= n < 2 * b
    ensures Top(n) == b
  {
    var t := Top(n);
    if t < b {
      Pow2Gap(t, b);
    } else if b < t {
      Pow2Gap(b, t);
    }
  }

  lemma TopOfPow2(r: nat)
    requires IsPow2(r)
    ensures r >= 1 && Top(r) == r
  {
    TopUnique(r, r);
  }

  lemma {:induction false} LowSmall(x: nat, w: nat)
    requires IsPow2(w)
    ensures Low(x, w) < w
    ensures x < w ==> Low(x, w) == x
  {
    if w <= 1 {
    } else {
      LowSmall(x / 2, w / 2);
    }
  }

  lemma {:induction false} LowHalves(x: nat, w: nat)
    requires IsPow2(w)
    ensures Low(x, 2 * w) == Low(x, w) + (if Bit(x, w) then w else 0)
  {
    if w > 1 {
      LowHalves(x / 2, w / 2);
      assert 2 * w / 2 == w == 2 * (w / 2);
    } else {
      assert Low(x / 2, 1) == 0;
    }
  }

  lemma {:induction false} FlipFacts(x: nat, w: nat)
    requires IsPow2(w)
    ensures Flip(x, w) == (if Bit(x, w) then x - w else x + w)
    ensures Bit(Flip(x, w), w) == !Bit(x, w)
    ensures Low(Flip(x, w), w) == Low(x, w)
    ensures Flip(Flip(x, w), w) == x
  {
    if w <= 1 {
    } else {
      FlipFacts(x / 2, w / 2);
    }
  }

  /** Start of the aligned run of w that holds x. */
  function Aligned(x: nat, w: nat): nat {
    x - Low(x, w)
  }

  lemma Even(w: nat)
    requires IsPow2(w) && w > 1
    ensures w == 2 * (w / 2) && IsPow2(w / 2)
  {}

  /** Inside a larger power of two, the aligned run of 2w around x fits. */
  lemma {:induction false} RunFits(x: nat, w: nat, size: nat)
    requires IsPow2(w) && IsPow2(size) && w < size && x < size
    ensures Aligned(x, 2 * w) + 2 * w <= size
  {
    Even(size);
    if w > 1 {
      Even(w);
      RunFits(x / 2, w / 2, size / 2);
      assert Low(x, 2 * w) == 2 * Low(x / 2, w) + x % 2;
    } else {
      assert Low(x / 2, 1) == 0;
      assert Low(x, 2) == x % 2;
    }
  }

  /** Inside a larger power of two, x's partner fits. */
  lemma {:induction false} FlipFits(x: nat, w: nat, size: nat)
    requires IsPow2(w) && IsPow2(size) && w < size && x < size
    ensures Flip(x, w) < size
  {
    Even(size);
    if w <= 1 {
    } else {
      Even(w);
      FlipFits(x / 2, w / 2, size / 2);
    }
  }

  /** An odd multiple of m, less m, is a multiple of 2m; and the other way round. */
  lemma {:induction false} OddMultiple(r: nat, m: nat)
    requires IsPow2(m)
    ensures Low(r, 2 * m) == m ==> r >= m && Low(r - m, 2 * m) == 0
    ensures Low(r, 2 * m) == 0 ==> Low(r + m, 2 * m) == m
  {
    assert 2 * m / 2 == m;
    if m <= 1 {
    } else {
      OddMultiple(r / 2, m / 2);
      assert m == 2 * (m / 2) && (r + m) / 2 == r / 2 + m / 2;
      if r >= m {
        assert (r - m) / 2 == r / 2 - m / 2;
      }
    }
  }

  /** Taking the top bit away changes that bit of n and no other. */
  lemma {:induction false} BitOfTop(n: nat, t: nat, b: nat)
    requires IsPow2(t) && t <= n < 2 * t && IsPow2(b)
    ensures Bit(n, b) <==> (t == b || Bit(n - t, b))
  {
    if b <= 1 {
    } else {
      if t > 1 {
        BitOfTop(n / 2, t / 2, b / 2);
        assert (n - t) / 2 == n / 2 - t / 2;
      } else {
        NoBits(b / 2);
        NoBits(b);
      }
    }
  }

  lemma {:induction false} NoBits(b: nat)
    ensures !Bit(0, b)
  {
    if b <= 1 {
    } else {
      NoBits(b / 2);
    }
  }
}
