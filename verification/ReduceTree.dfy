/**
 The fixed combination order of the cross-replica gradient reduction.

 The element type is abstract. Its addition is commutative where a lemma says so and never
 associative, so every equality below is an equality of groupings.
*/
module ReduceTree {
  import opened Powers
  import opened Wrappers

  /** `add` is the element addition; `mul(n, x)` stands for `x * (1.0 / n)`. */
  datatype Arith<!T(!new)> = Arith(add: (T, T) -> T, mul: (nat, T) -> T) {
    ghost predicate Commutes() {
      forall x, y :: add(x, y) == add(y, x)
    }
  }

  datatype Block = Block(start: nat, size: nat)

  /** The binary blocks of n ranks, the first one starting at `start`. */
  function Blocks(start: nat, n: nat): seq<Block>
    decreases n
  {
    if n == 0 then [] else [Block(start, Top(n))] + Blocks(start + Top(n), n - Top(n))
  }

  /** Sum of a power-of-two block: a balanced tree, lower index on the left. */
  function Balanced<T(!new)>(a: Arith<T>, p: seq<T>): T
    requires IsPow2(|p|)
    decreases |p|
  {
    if |p| == 1 then p[0]
    else a.add(Balanced(a, p[..|p| / 2]), Balanced(a, p[|p| / 2..]))
  }

  /** Folds the block sums of `p` onto `acc`, in ascending block order. */
  function FoldBlocks<T(!new)>(a: Arith<T>, acc: T, p: seq<T>): T
    decreases |p|
  {
    if p == [] then acc
    else FoldBlocks(a, a.add(acc, Balanced(a, p[..Top(|p|)])), p[Top(|p|)..])
  }

  /** The binary-blocks sum: what every implementation below must compute. */
  function TreeSum<T(!new)>(a: Arith<T>, p: seq<T>): T
    requires p != []
  {
    FoldBlocks(a, Balanced(a, p[..Top(|p|)]), p[Top(|p|)..])
  }

  // ----- the same sums by position ----------------------------------------------------------

  /** Balanced sum of parts[s..s + w]. */
  function SliceSum<T(!new)>(a: Arith<T>, parts: seq<T>, s: nat, w: nat): T
    requires IsPow2(w) && s + w <= |parts|
    decreases w
  {
    if w == 1 then parts[s]
    else a.add(SliceSum(a, parts, s, w / 2), SliceSum(a, parts, s + w / 2, w / 2))
  }

  lemma {:induction false} SliceIsBalanced<T(!new)>(a: Arith<T>, parts: seq<T>, s: nat, w: nat, p: seq<T>)
    requires IsPow2(w) && s + w <= |parts| && p == parts[s..s + w]
    ensures Balanced(a, p) == SliceSum(a, parts, s, w)
    decreases w
  {
    if w <= 1 {
    } else {
      SliceIsBalanced(a, parts, s, w / 2, p[..w / 2]);
      SliceIsBalanced(a, parts, s + w / 2, w / 2, p[w / 2..]);
    }
  }

  lemma SliceHalves<T(!new)>(a: Arith<T>, parts: seq<T>, s: nat, w: nat)
    requires IsPow2(w) && IsPow2(2 * w) && s + 2 * w <= |parts|
    ensures SliceSum(a, parts, s, 2 * w) == a.add(SliceSum(a, parts, s, w), SliceSum(a, parts, s + w, w))
  {
    assert 2 * w / 2 == w;
  }

  /** Folds the block sums of p[s..n] onto `acc`. */
  function FoldSlices<T(!new)>(a: Arith<T>, acc: T, p: seq<T>, s: nat, n: nat): T
    requires s <= n <= |p|
    decreases n - s
  {
    if s == n then acc
    else
      var t := Top(n - s);
      FoldSlices(a, a.add(acc, SliceSum(a, p, s, t)), p, s + t, n)
  }

  lemma {:induction false} FoldSlicesIs<T(!new)>(a: Arith<T>, acc: T, p: seq<T>, s: nat, rest: seq<T>)
    requires s <= |p| && rest == p[s..]
    ensures FoldSlices(a, acc, p, s, |p|) == FoldBlocks(a, acc, rest)
    decreases |rest|
  {
    if rest == [] {
    } else {
      var t := Top(|rest|);
      SliceIsBalanced(a, p, s, t, rest[..t]);
      FoldSlicesIs(a, a.add(acc, SliceSum(a, p, s, t)), p, s + t, rest[t..]);
    }
  }

  lemma TreeSumSlices<T(!new)>(a: Arith<T>, p: seq<T>)
    requires p != []
    ensures TreeSum(a, p) == FoldSlices(a, SliceSum(a, p, 0, Top(|p|)), p, Top(|p|), |p|)
  {
    var t := Top(|p|);
    SliceIsBalanced(a, p, 0, t, p[..t]);
    FoldSlicesIs(a, SliceSum(a, p, 0, t), p, t, p[t..]);
  }

  // ----- the block decomposition ---------------------------------------------------------

  /** Blocks that lie end to end from `start` to `end`, powers of two, strictly shrinking. */
  ghost predicate Tiles(bs: seq<Block>, start: nat, end: nat) {
    if bs == [] then start == end
    else
      && IsPow2(bs[0].size)
      && bs[0].start == start
      && (|bs| > 1 ==> bs[1].size < bs[0].size)
      && Tiles(bs[1..], start + bs[0].size, end)
  }

  lemma {:induction false} BlocksTile(start: nat, n: nat)
    ensures Tiles(Blocks(start, n), start, start + n)
    decreases n
  {
    if n == 0 {
    } else {
      BlocksTile(start + Top(n), n - Top(n));
      assert Blocks(start, n)[1..] == Blocks(start + Top(n), n - Top(n));
    }
  }

  /** The block that holds rank r: the one whose half-open range contains it. */
  function BlockOf(start: nat, n: nat, r: nat): (k: Block)
    requires start <= r < start + n
    ensures IsPow2(k.size) && start <= k.start <= r < k.start + k.size <= start + n
    decreases n
  {
    if r < start + Top(n) then Block(start, Top(n)) else BlockOf(start + Top(n), n - Top(n), r)
  }

  /** A set bit of n is the size of exactly one block, and the other way round. */
  ghost predicate HasSize(bs: seq<Block>, b: nat) {
    exists k :: k in bs && k.size == b
  }

  lemma {:induction false} BlocksAreBits(start: nat, n: nat, b: nat)
    requires IsPow2(b)
    ensures HasSize(Blocks(start, n), b) <==> Bit(n, b)
    decreases n
  {
    if n > 0 {
      var t := Top(n);
      var rest := Blocks(start + t, n - t);
      BlocksAreBits(start + t, n - t, b);
      var k0 := Block(start, t);
      assert Blocks(start, n) == [k0] + rest;
      assert k0 in Blocks(start, n);
      assert forall k :: k in Blocks(start, n) <==> k == k0 || k in rest;
      assert HasSize(Blocks(start, n), b) <==> t == b || HasSize(rest, b);
      BitOfTop(n, t, b);
    } else {
      NoBits(b);
    }
  }

  /** `_binary_blocks`: scans the bits of n from the highest down. */
  method BinaryBlocks(n: nat) returns (blocks: seq<Block>)
    requires n >= 1
    ensures blocks == Blocks(0, n)
  {
    hide IsPow2, Low, Top, Bit, Blocks;
    blocks := [];
    var start := 0;
    var bit := Top(n);
    LowSmall(n, 2 * bit);
    while bit > 0
      invariant bit == 0 || IsPow2(bit)
      invariant start <= n && n - start == if bit == 0 then 0 else Low(n, 2 * bit)
      invariant blocks + Blocks(start, n - start) == Blocks(0, n)
      decreases bit
    {
      LowHalves(n, bit);
      LowSmall(n, bit);
      if Bit(n, bit) {
        BlocksStep(blocks, start, n, bit);
        blocks := blocks + [Block(start, bit)];
        start := start + bit;
      }
      HalfPow2(bit);
      bit := bit / 2;
    }
    NoBlocks(start);
  }

  lemma NoBlocks(start: nat)
    ensures Blocks(start, 0) == []
  {}

  lemma HalfPow2(bit: nat)
    requires IsPow2(bit)
    ensures bit >= 1 && if bit == 1 then bit / 2 == 0 else IsPow2(bit / 2) && 2 * (bit / 2) == bit
  {}

  lemma BlocksStep(blocks: seq<Block>, start: nat, n: nat, bit: nat)
    requires start < n && IsPow2(bit) && bit <= n - start < 2 * bit
    ensures blocks + Blocks(start, n - start)
         == blocks + [Block(start, bit)] + Blocks(start + bit, n - (start + bit))
  {
    TopUnique(n - start, bit);
  }

  // ----- tree_reduce_sum ------------------------------------------------------------------

  /** One level of adjacent pair sums. */
  function Pairs<T(!new)>(a: Arith<T>, p: seq<T>): (r: seq<T>)
    requires |p| % 2 == 0
    ensures |r| == |p| / 2
  {
    seq(|p| / 2, i requires 0 <= i < |p| / 2 => a.add(p[2 * i], p[2 * i + 1]))
  }

  /** Collapsing one level of pairs keeps the balanced tree. */
  lemma {:induction false} BalancedPairs<T(!new)>(a: Arith<T>, p: seq<T>)
    requires IsPow2(|p|) && |p| > 1
    ensures Balanced(a, Pairs(a, p)) == Balanced(a, p)
    decreases |p|
  {
    var h := |p| / 2;
    if |p| > 2 {
      BalancedPairs(a, p[..h]);
      BalancedPairs(a, p[h..]);
      assert Pairs(a, p)[..h / 2] == Pairs(a, p[..h]);
      assert Pairs(a, p)[h / 2..] == Pairs(a, p[h..]);
    }
  }

  /** Reduces one power-of-two block level by level. */
  method ReduceBlock<T(!new)>(a: Arith<T>, parts: seq<T>) returns (sum: T)
    requires IsPow2(|parts|)
    ensures sum == Balanced(a, parts)
  {
    var level := parts;
    while |level| > 1
      invariant IsPow2(|level|)
      invariant Balanced(a, level) == Balanced(a, parts)
      decreases |level|
    {
      BalancedPairs(a, level);
      level := Pairs(a, level);
    }
    sum := level[0];
  }

  /** `tree_reduce_sum`: the reference fold, with its error on an empty input. */
  method TreeReduceSum<T(!new)>(a: Arith<T>, parts: seq<T>) returns (r: Outcome<T>)
    ensures parts == [] <==> r.Failure?
    ensures parts != [] ==> r == Ok(TreeSum(a, parts))
  {
    hide IsPow2, Low, Top, Bit, Balanced;
    var n := |parts|;
    if n == 0 {
      return Failure("tree_reduce_sum: empty input");
    }
    var blocks := BinaryBlocks(n);
    var acc := None;
    ghost var rest := parts;
    ghost var done := 0;
    for b := 0 to |blocks|
      invariant 0 <= done <= n && rest == parts[done..]
      invariant blocks[b..] == Blocks(done, |rest|)
      invariant acc.None? <==> done == 0
      invariant acc.Some? ==> FoldBlocks(a, acc.value, rest) == TreeSum(a, parts)
    {
      BlocksUnfold(blocks[b..], done, |rest|);
      var start, size := blocks[b].start, blocks[b].size;
      assert parts[start..start + size] == rest[..size];
      assert blocks[b + 1..] == blocks[b..][1..];
      var sum := ReduceBlock(a, parts[start..start + size]);
      acc := Some(if acc.None? then sum else a.add(acc.value, sum));
      rest := rest[size..];
      done := done + size;
    }
    r := Ok(acc.value);
  }

  lemma BlocksUnfold(bs: seq<Block>, start: nat, n: nat)
    requires bs == Blocks(start, n) && bs != []
    ensures n > 0 && bs[0] == Block(start, Top(n)) && bs[1..] == Blocks(start + Top(n), n - Top(n))
  {}

  // ----- the grouping is the same for every element type ----------------------------------

  /** A relation that both additions keep is kept by the balanced tree. */
  lemma {:induction false} BalancedRelates<T(!new), U(!new)>(
    a: Arith<T>, b: Arith<U>, p: seq<T>, q: seq<U>, rel: (T, U) -> bool)
    requires |p| == |q| && IsPow2(|p|)
    requires Preserves(a, b, rel)
    requires forall i :: 0 <= i < |p| ==> rel(p[i], q[i])
    ensures rel(Balanced(a, p), Balanced(b, q))
    decreases |p|
  {
    if |p| <= 1 {
    } else {
      BalancedRelates(a, b, p[..|p| / 2], q[..|p| / 2], rel);
      BalancedRelates(a, b, p[|p| / 2..], q[|p| / 2..], rel);
    }
  }

  ghost predicate Preserves<T(!new), U(!new)>(a: Arith<T>, b: Arith<U>, rel: (T, U) -> bool) {
    forall x, y, u, v :: rel(x, u) && rel(y, v) ==> rel(a.add(x, y), b.add(u, v))
  }

  lemma {:induction false} FoldRelates<T(!new), U(!new)>(
    a: Arith<T>, b: Arith<U>, acc: T, acc': U, p: seq<T>, q: seq<U>, rel: (T, U) -> bool)
    requires |p| == |q| && rel(acc, acc')
    requires Preserves(a, b, rel)
    requires forall i :: 0 <= i < |p| ==> rel(p[i], q[i])
    ensures rel(FoldBlocks(a, acc, p), FoldBlocks(b, acc', q))
    decreases |p|
  {
    if p == [] {
    } else {
      var t := Top(|p|);
      BalancedRelates(a, b, p[..t], q[..t], rel);
      FoldRelates(a, b, a.add(acc, Balanced(a, p[..t])), b.add(acc', Balanced(b, q[..t])), p[t..], q[t..], rel);
    }
  }

  /** The combination tree depends on the number of operands alone. */
  lemma TreeSumRelates<T(!new), U(!new)>(
    a: Arith<T>, b: Arith<U>, p: seq<T>, q: seq<U>, rel: (T, U) -> bool)
    requires |p| == |q| && p != []
    requires Preserves(a, b, rel)
    requires forall i :: 0 <= i < |p| ==> rel(p[i], q[i])
    ensures rel(TreeSum(a, p), TreeSum(b, q))
  {
    var t := Top(|p|);
    BalancedRelates(a, b, p[..t], q[..t], rel);
    FoldRelates(a, b, Balanced(a, p[..t]), Balanced(b, q[..t]), p[t..], q[t..], rel);
  }

  /** A combination tree over rank indices. */
  datatype Expr = Rank(r: nat) | Plus(left: Expr, right: Expr)

  function Leaves(e: Expr): seq<nat> {
    match e
    case Rank(r) => [r]
    case Plus(l, r) => Leaves(l) + Leaves(r)
  }

  function FreeArith(): Arith<Expr> {
    Arith((x, y) => Plus(x, y), (n, x) => x)
  }

  function Iota(from: nat, n: nat): (s: seq<nat>)
    ensures |s| == n && forall i :: 0 <= i < n ==> s[i] == from + i
  {
    seq(n, i requires 0 <= i < n => from + i)
  }

  function Ranks(from: nat, n: nat): (s: seq<Expr>)
    ensures |s| == n && forall i :: 0 <= i < n ==> s[i] == Rank(from + i)
  {
    seq(n, i requires 0 <= i < n => Rank(from + i))
  }

  lemma {:induction false} BalancedLeaves(from: nat, n: nat)
    requires IsPow2(n)
    ensures Leaves(Balanced(FreeArith(), Ranks(from, n))) == Iota(from, n)
    decreases n
  {
    if n > 1 {
      var h := n / 2;
      BalancedLeaves(from, h);
      BalancedLeaves(from + h, h);
      assert Ranks(from, n)[..h] == Ranks(from, h);
      assert Ranks(from, n)[h..] == Ranks(from + h, h);
    } else {
      assert Ranks(from, 1)[0] == Rank(from);
    }
  }

  lemma {:induction false} FoldLeaves(acc: Expr, from: nat, n: nat)
    requires Leaves(acc) == Iota(0, from)
    ensures Leaves(FoldBlocks(FreeArith(), acc, Ranks(from, n))) == Iota(0, from + n)
    decreases n
  {
    if n == 0 {
    } else {
      var t := Top(n);
      BalancedLeaves(from, t);
      assert Ranks(from, n)[..t] == Ranks(from, t);
      assert Ranks(from, n)[t..] == Ranks(from + t, n - t);
      var acc' := Plus(acc, Balanced(FreeArith(), Ranks(from, t)));
      assert Leaves(acc') == Iota(0, from + t);
      FoldLeaves(acc', from + t, n - t);
    }
  }

  /** Every rank enters the tree once, and the tree reads left to right in rank order. */
  lemma TreeUsesEveryRankOnce(n: nat)
    requires n >= 1
    ensures Leaves(TreeSum(FreeArith(), Ranks(0, n))) == Iota(0, n)
  {
    var t := Top(n);
    BalancedLeaves(0, t);
    assert Ranks(0, n)[..t] == Ranks(0, t);
    assert Ranks(0, n)[t..] == Ranks(t, n - t);
    FoldLeaves(Balanced(FreeArith(), Ranks(0, t)), t, n - t);
  }
}
