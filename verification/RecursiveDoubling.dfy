/**
 The recursive-doubling all-reduce over ws ranks as programs of blocking transfers: a butterfly
 inside each power-of-two block, a cross-block combine on rank 0, and a binomial broadcast.

 `OpAt` is a timetable. Butterfly step `mask` runs at time `mask`, the block that starts at s
 reports at time ws + s, and the broadcast over distance m runs at time 3 * ws - m.
*/
module RecursiveDoubling {
  import opened Powers
  import opened ReduceTree
  import opened Wrappers
  import opened Rendezvous

  // ----- the timetable ---------------------------------------------------------------------

  /** s is the first rank of a block. */
  predicate IsStart(ws: nat, s: nat) {
    s < ws && BlockOf(0, ws, s).start == s
  }

  function Partner(ws: nat, r: nat, mask: nat): nat
    requires r < ws
  {
    var b := BlockOf(0, ws, r);
    b.start + Flip(r - b.start, mask)
  }

  function OpAt(ws: nat, r: nat, t: nat): Option<Op>
    requires r < ws
  {
    if t < ws then
      if !IsPow2(t) || t >= BlockOf(0, ws, r).size then None
      else
        var p := Partner(ws, r, t);
        Some(Op(Some(p), Some(p), true, t))
    else if t < 2 * ws then
      var s := t - ws;
      if s == 0 || !IsStart(ws, s) then None
      else if r == 0 then Some(Op(None, Some(s), true, t))
      else if r == s then Some(Op(Some(0), None, false, t))
      else None
    else if t < 3 * ws then
      var m := 3 * ws - t;
      if IsPow2(ws) || !IsPow2(m) then None
      else if Low(r, 2 * m) == m then Some(Op(None, Some(r - m), false, t))
      else if Low(r, 2 * m) == 0 && r + m < ws then Some(Op(Some(r + m), None, false, t))
      else None
    else None
  }

  /** The operations of rank r in [lo, hi), in time order. */
  function Collect(ws: nat, r: nat, lo: nat, hi: nat): seq<Op>
    requires r < ws && lo <= hi
    decreases hi - lo
  {
    if lo == hi then []
    else (if OpAt(ws, r, lo).Some? then [OpAt(ws, r, lo).value] else []) + Collect(ws, r, lo + 1, hi)
  }

  function Program(ws: nat, r: nat): seq<Op>
    requires r < ws
  {
    Collect(ws, r, 0, 3 * ws)
  }

  lemma {:induction false} CollectSplit(ws: nat, r: nat, lo: nat, mid: nat, hi: nat)
    requires r < ws && lo <= mid <= hi
    ensures Collect(ws, r, lo, hi) == Collect(ws, r, lo, mid) + Collect(ws, r, mid, hi)
    decreases mid - lo
  {
    if lo >= mid {
    } else {
      CollectSplit(ws, r, lo + 1, mid, hi);
    }
  }

  lemma {:induction false} CollectNone(ws: nat, r: nat, lo: nat, hi: nat)
    requires r < ws && lo <= hi
    requires forall t :: lo <= t < hi ==> OpAt(ws, r, t).None?
    ensures Collect(ws, r, lo, hi) == []
    decreases hi - lo
  {
    if lo >= hi {
    } else {
      CollectNone(ws, r, lo + 1, hi);
    }
  }

  /** An idle stretch adds nothing. */
  lemma CollectIdle(ws: nat, r: nat, lo: nat, mid: nat, hi: nat)
    requires r < ws && lo <= mid <= hi
    requires forall u :: mid <= u < hi ==> OpAt(ws, r, u).None?
    ensures Collect(ws, r, lo, hi) == Collect(ws, r, lo, mid)
  {
    CollectSplit(ws, r, lo, mid, hi);
    CollectNone(ws, r, mid, hi);
  }

  lemma CollectNext(ws: nat, r: nat, lo: nat, t: nat)
    requires r < ws && lo <= t
    ensures Collect(ws, r, lo, t + 1)
         == Collect(ws, r, lo, t) + (if OpAt(ws, r, t).Some? then [OpAt(ws, r, t).value] else [])
  {
    CollectSplit(ws, r, lo, t, t + 1);
    assert Collect(ws, r, t + 1, t + 1) == [];
  }

  // ----- both ends of every transfer agree ----------------------------------------------------

  lemma {:induction false} BlockOfSame(start: nat, n: nat, r: nat, p: nat)
    requires start <= r < start + n && start <= p < start + n
    requires BlockOf(start, n, r).start <= p < BlockOf(start, n, r).start + BlockOf(start, n, r).size
    ensures BlockOf(start, n, p) == BlockOf(start, n, r)
    decreases n
  {
    if r < start + Top(n) {
    } else {
      BlockOfSame(start + Top(n), n - Top(n), r, p);
    }
  }

  /** Ranks s + x and s + y of a block are partners when y = x ^ mask. */
  lemma FlipInside(x: nat, mask: nat, size: nat) returns (y: nat)
    requires IsPow2(mask) && IsPow2(size) && mask < size && x < size
    ensures y == Flip(x, mask) && Flip(y, mask) == x && y < size && y != x
  {
    y := Flip(x, mask);
    FlipFacts(x, mask);
    FlipFits(x, mask, size);
  }

  /** The butterfly partner is another rank of the same block, and partnership is mutual. */
  lemma PartnerMutual(ws: nat, r: nat, mask: nat) returns (p: nat)
    requires r < ws && IsPow2(mask) && mask < BlockOf(0, ws, r).size
    ensures p == Partner(ws, r, mask) && p < ws && p != r
    ensures BlockOf(0, ws, p) == BlockOf(0, ws, r)
    ensures Partner(ws, p, mask) == r
  {
    var b := BlockOf(0, ws, r);
    var y := FlipInside(r - b.start, mask, b.size);
    p := b.start + y;
    BlockOfSame(0, ws, r, p);
    assert p - b.start == y;
  }

  /** Every send meets the receive of the same time at the named peer. */
  lemma SendMeetsReceive(ws: nat, r: nat, t: nat)
    requires r < ws && OpAt(ws, r, t).Some?
    ensures OpAt(ws, r, t).value.stamp == t < 3 * ws
    ensures var to := OpAt(ws, r, t).value.to;
            to.Some? ==> to.value < ws && to.value != r && OpAt(ws, to.value, t).Some?
                         && OpAt(ws, to.value, t).value.from == Some(r)
  {
    if t < ws {
      var _ := PartnerMutual(ws, r, t);
    } else if t < 2 * ws {
    } else {
      OddMultiple(r, 3 * ws - t);
    }
  }

  /** Every receive meets the send of the same time at the named peer. */
  lemma ReceiveMeetsSend(ws: nat, r: nat, t: nat)
    requires r < ws && OpAt(ws, r, t).Some?
    ensures var from := OpAt(ws, r, t).value.from;
            from.Some? ==> from.value < ws && from.value != r && OpAt(ws, from.value, t).Some?
                           && OpAt(ws, from.value, t).value.to == Some(r)
  {
    if t < ws {
      var _ := PartnerMutual(ws, r, t);
    } else if t < 2 * ws {
    } else {
      OddMultiple(r, 3 * ws - t);
    }
  }

  // ----- the buffer of each rank at each time --------------------------------------------------

  /** Width of the runs summed before time t: the least power of two that is at least t. */
  function Width(t: nat): (w: nat)
    ensures IsPow2(w) && w >= t
  {
    if t <= 1 then 1 else 2 * Top(t - 1)
  }

  lemma WidthStep(t: nat)
    ensures IsPow2(t) ==> Width(t) == t && Width(t + 1) == 2 * t
    ensures !IsPow2(t) ==> Width(t + 1) == Width(t)
  {
    if t >= 2 {
      if IsPow2(t) {
        TopUnique(t - 1, t / 2);
        TopUnique(t, t);
      } else {
        TopUnique(t - 1, Top(t));
      }
    }
  }

  lemma AlignedFits(x: nat, w: nat, size: nat)
    requires IsPow2(w) && IsPow2(size) && w <= size && x < size
    ensures Aligned(x, w) + w <= size
    ensures w == size ==> Aligned(x, w) == 0
  {
    if w == size {
      LowSmall(x, w);
    } else {
      RunFits(x, w, size);
      LowHalves(x, w);
    }
  }

  /** Sum of the aligned run of w ranks around r inside its block. */
  function RunSum<T(!new)>(a: Arith<T>, parts: seq<T>, r: nat, w: nat): T
    requires r < |parts| && IsPow2(w) && w <= BlockOf(0, |parts|, r).size
  {
    var b := BlockOf(0, |parts|, r);
    AlignedFits(r - b.start, w, b.size);
    SliceSum(a, parts, b.start + Aligned(r - b.start, w), w)
  }

  /** Sum of the whole block of r. */
  function BlockSum<T(!new)>(a: Arith<T>, parts: seq<T>, r: nat): T
    requires r < |parts|
  {
    var b := BlockOf(0, |parts|, r);
    SliceSum(a, parts, b.start, b.size)
  }

  /** Partners x and y = x ^ w hold the two halves of the run of 2w that starts at s. */
  lemma ExchangeRuns(x: nat, w: nat, size: nat, y: nat) returns (s: nat)
    requires IsPow2(size) && x < size && IsPow2(w) && 2 * w <= size && y == Flip(x, w)
    ensures IsPow2(2 * w) && s == Aligned(x, 2 * w) && s + 2 * w <= size
    ensures if Bit(x, w) then Aligned(x, w) == s + w && Aligned(y, w) == s
            else Aligned(x, w) == s && Aligned(y, w) == s + w
  {
    hide Low, Flip, Bit, IsPow2;
    Doubled(w);
    FlipFacts(x, w);
    AlignedFits(x, 2 * w, size);
    LowHalves(x, w);
    LowHalves(y, w);
    s := Aligned(x, 2 * w);
  }

  lemma Doubled(w: nat)
    requires IsPow2(w)
    ensures IsPow2(2 * w)
  {
    assert 2 * w / 2 == w;
  }

  /** One exchange doubles the run: own + received, in rank order on the lower half. */
  lemma Exchange<T(!new)>(a: Arith<T>, parts: seq<T>, r: nat, w: nat, p: nat) returns (lower: T, upper: T)
    requires r < |parts| && p < |parts|
    requires IsPow2(w) && IsPow2(2 * w) && 2 * w <= BlockOf(0, |parts|, r).size
    requires p == Partner(|parts|, r, w) && BlockOf(0, |parts|, p) == BlockOf(0, |parts|, r)
    ensures RunSum(a, parts, r, 2 * w) == a.add(lower, upper)
    ensures || (RunSum(a, parts, r, w) == lower && RunSum(a, parts, p, w) == upper)
            || (RunSum(a, parts, r, w) == upper && RunSum(a, parts, p, w) == lower)
  {
    hide IsPow2, BlockOf, SliceSum, RunSum, Low, Top;
    var b := BlockOf(0, |parts|, r);
    var x, y := r - b.start, p - b.start;
    var s := ExchangeRuns(x, w, b.size, y);
    lower := SliceSum(a, parts, b.start + s, w);
    upper := SliceSum(a, parts, b.start + s + w, w);
    SliceHalves(a, parts, b.start + s, w);
    RunSumAt(a, parts, r, w, Aligned(x, w));
    RunSumAt(a, parts, p, w, Aligned(y, w));
    RunSumAt(a, parts, r, 2 * w, s);
  }

  lemma RunSumAt<T(!new)>(a: Arith<T>, parts: seq<T>, r: nat, w: nat, at: nat)
    requires r < |parts| && IsPow2(w) && w <= BlockOf(0, |parts|, r).size
    requires at == Aligned(r - BlockOf(0, |parts|, r).start, w)
    ensures BlockOf(0, |parts|, r).start + at + w <= |parts|
    ensures RunSum(a, parts, r, w) == SliceSum(a, parts, BlockOf(0, |parts|, r).start + at, w)
  {
    AlignedFits(r - BlockOf(0, |parts|, r).start, w, BlockOf(0, |parts|, r).size);
  }

  /** The only place where addition must commute. */
  lemma Commute<T(!new)>(a: Arith<T>, u: T, v: T)
    requires a.Commutes()
    ensures a.add(u, v) == a.add(v, u)
  {}

  /** Rank r before butterfly step t. */
  function ButterflyVal<T(!new)>(a: Arith<T>, parts: seq<T>, r: nat, t: nat): T
    requires r < |parts|
  {
    var size := BlockOf(0, |parts|, r).size;
    RunSum(a, parts, r, if Width(t) < size then Width(t) else size)
  }

  /** Folds onto `acc` the blocks that start in [start, s). */
  function FoldUpTo<T(!new)>(a: Arith<T>, acc: T, parts: seq<T>, start: nat, s: nat): T
    decreases |parts| - start
  {
    if start >= s || start >= |parts| then acc
    else
      var t := Top(|parts| - start);
      FoldUpTo(a, a.add(acc, SliceSum(a, parts, start, t)), parts, start + t, s)
  }

  /** Rank r when the blocks that start below s have reported. */
  function CombineVal<T(!new)>(a: Arith<T>, parts: seq<T>, r: nat, s: nat): T
    requires r < |parts|
  {
    var own := BlockSum(a, parts, r);
    if r == 0 then FoldUpTo(a, own, parts, Top(|parts|), s) else own
  }

  /** Distances above m have been served once the broadcast has reached distance m. */
  function Reach(m: nat): (w: nat)
    ensures IsPow2(w)
  {
    if m == 0 then 1 else 2 * Top(m)
  }

  /** Rank r before the broadcast serves distance m. */
  function BroadcastVal<T(!new)>(a: Arith<T>, parts: seq<T>, r: nat, m: nat): T
    requires r < |parts|
  {
    if IsPow2(|parts|) || Low(r, Reach(m)) == 0 then TreeSum(a, parts) else BlockSum(a, parts, r)
  }

  /** The buffer of rank r before time t. */
  function Val<T(!new)>(a: Arith<T>, parts: seq<T>, r: nat, t: nat): T
    requires r < |parts|
  {
    var ws := |parts|;
    if t < ws then ButterflyVal(a, parts, r, t)
    else if t < 2 * ws then CombineVal(a, parts, r, t - ws)
    else if t < 3 * ws then BroadcastVal(a, parts, r, 3 * ws - t)
    else BroadcastVal(a, parts, r, 0)
  }

  lemma ButterflyStep<T(!new)>(a: Arith<T>, parts: seq<T>, r: nat, t: nat)
    requires r < |parts| && a.Commutes()
    ensures if IsPow2(t) && t < BlockOf(0, |parts|, r).size then
              var p := Partner(|parts|, r, t);
              p < |parts| && ButterflyVal(a, parts, r, t + 1)
                == a.add(ButterflyVal(a, parts, r, t), ButterflyVal(a, parts, p, t))
            else ButterflyVal(a, parts, r, t + 1) == ButterflyVal(a, parts, r, t)
  {
    WidthStep(t);
    var size := BlockOf(0, |parts|, r).size;
    if IsPow2(t) && t < size {
      var p := PartnerMutual(|parts|, r, t);
      Pow2Gap(t, size);
      var lower, upper := Exchange(a, parts, r, t, p);
      Commute(a, lower, upper);
    }
  }

  lemma ButterflyDone<T(!new)>(a: Arith<T>, parts: seq<T>, r: nat)
    requires r < |parts|
    ensures ButterflyVal(a, parts, r, |parts|) == CombineVal(a, parts, r, 0)
  {
    var b := BlockOf(0, |parts|, r);
    AlignedFits(r - b.start, b.size, b.size);
  }

  lemma {:induction false} FoldUpToStep<T(!new)>(a: Arith<T>, acc: T, parts: seq<T>, start: nat, s: nat, b: Block)
    requires start <= s < |parts| && b == BlockOf(start, |parts| - start, s)
    ensures b.start == s ==>
      FoldUpTo(a, acc, parts, start, s + 1)
        == a.add(FoldUpTo(a, acc, parts, start, s), SliceSum(a, parts, s, b.size))
    ensures b.start != s ==>
      FoldUpTo(a, acc, parts, start, s + 1) == FoldUpTo(a, acc, parts, start, s)
    decreases |parts| - start
  {
    var t := Top(|parts| - start);
    var acc' := a.add(acc, SliceSum(a, parts, start, t));
    if s >= start + t {
      FoldUpToStep(a, acc', parts, start + t, s, b);
    } else {
      FoldUpToNow(a, acc', parts, start + t, s + 1);
      FoldUpToNow(a, acc', parts, start + t, s);
    }
  }

  lemma FoldUpToNow<T(!new)>(a: Arith<T>, acc: T, parts: seq<T>, start: nat, s: nat)
    requires s <= start
    ensures FoldUpTo(a, acc, parts, start, s) == acc
  {}

  lemma {:induction false} FoldUpToEnd<T(!new)>(a: Arith<T>, acc: T, parts: seq<T>, start: nat)
    requires start <= |parts|
    ensures FoldUpTo(a, acc, parts, start, |parts|) == FoldSlices(a, acc, parts, start, |parts|)
    decreases |parts| - start
  {
    if start >= |parts| {
    } else {
      var t := Top(|parts| - start);
      FoldUpToEnd(a, a.add(acc, SliceSum(a, parts, start, t)), parts, start + t);
    }
  }

  lemma CombineStep<T(!new)>(a: Arith<T>, parts: seq<T>, s: nat)
    requires s < |parts|
    ensures if s > 0 && IsStart(|parts|, s)
            then CombineVal(a, parts, 0, s + 1) == a.add(CombineVal(a, parts, 0, s), CombineVal(a, parts, s, s))
            else CombineVal(a, parts, 0, s + 1) == CombineVal(a, parts, 0, s)
  {
    var t := Top(|parts|);
    var own := BlockSum(a, parts, 0);
    var b := BlockOf(0, |parts|, s);
    if s >= t {
      assert b == BlockOf(t, |parts| - t, s);
      FoldUpToStep(a, own, parts, t, s, b);
    } else {
      FoldUpToNow(a, own, parts, t, s + 1);
      FoldUpToNow(a, own, parts, t, s);
    }
  }

  /** After the last block has reported, rank 0 holds the binary-blocks sum. */
  lemma CombineDone<T(!new)>(a: Arith<T>, parts: seq<T>, r: nat)
    requires r < |parts|
    ensures CombineVal(a, parts, r, |parts|) == BroadcastVal(a, parts, r, |parts|)
  {
    var ws := |parts|;
    LowSmall(r, Reach(ws));
    TreeSumSlices(a, parts);
    FoldUpToEnd(a, BlockSum(a, parts, 0), parts, Top(ws));
    if IsPow2(ws) {
      TopUnique(ws, ws);
    }
  }

  lemma BroadcastStep<T(!new)>(a: Arith<T>, parts: seq<T>, r: nat, m: nat)
    requires r < |parts| && 0 < m
    ensures if !IsPow2(|parts|) && IsPow2(m) && Low(r, 2 * m) == m
            then r >= m && BroadcastVal(a, parts, r, m - 1) == BroadcastVal(a, parts, r - m, m)
            else BroadcastVal(a, parts, r, m - 1) == BroadcastVal(a, parts, r, m)
  {
    if IsPow2(m) {
      WidthStep(m);
      TopUnique(m, m);
      if m > 1 {
        TopUnique(m - 1, m / 2);
      }
      LowHalves(r, m);
      LowSmall(r, m);
      OddMultiple(r, m);
    } else {
      TopUnique(m - 1, Top(m));
    }
  }

  /** What an operation of the timetable does to the buffers it touches. */
  ghost predicate StepOk<T(!new)>(a: Arith<T>, parts: seq<T>, r: nat, t: nat)
    requires r < |parts|
  {
    var op := OpAt(|parts|, r, t);
    if op.Some? && op.value.from.Some? then
      op.value.from.value < |parts| &&
      Val(a, parts, r, t + 1) == Combine(a, op.value, Val(a, parts, r, t), Val(a, parts, op.value.from.value, t))
    else Val(a, parts, r, t + 1) == Val(a, parts, r, t)
  }

  lemma PhaseA<T(!new)>(a: Arith<T>, parts: seq<T>, r: nat, t: nat)
    requires r < |parts| && a.Commutes() && t < |parts|
    ensures StepOk(a, parts, r, t)
  {
    ButterflyStep(a, parts, r, t);
    ButterflyDone(a, parts, r);
    assert Val(a, parts, r, t + 1) == ButterflyVal(a, parts, r, t + 1);
  }

  lemma PhaseB<T(!new)>(a: Arith<T>, parts: seq<T>, r: nat, t: nat)
    requires r < |parts| && |parts| <= t < 2 * |parts|
    ensures StepOk(a, parts, r, t)
  {
    var s := t - |parts|;
    CombineStep(a, parts, s);
    CombineDone(a, parts, r);
    assert Val(a, parts, r, t + 1) == CombineVal(a, parts, r, s + 1);
  }

  lemma PhaseC<T(!new)>(a: Arith<T>, parts: seq<T>, r: nat, t: nat)
    requires r < |parts| && 2 * |parts| <= t < 3 * |parts|
    ensures StepOk(a, parts, r, t)
  {
    var m := 3 * |parts| - t;
    BroadcastStep(a, parts, r, m);
    assert Val(a, parts, r, t + 1) == BroadcastVal(a, parts, r, m - 1);
  }

  lemma AnyStep<T(!new)>(a: Arith<T>, parts: seq<T>, r: nat, t: nat)
    requires r < |parts| && a.Commutes()
    ensures StepOk(a, parts, r, t)
  {
    var ws := |parts|;
    if t < ws {
      PhaseA(a, parts, r, t);
    } else if t < 2 * ws {
      PhaseB(a, parts, r, t);
    } else if t < 3 * ws {
      PhaseC(a, parts, r, t);
    }
  }
}
