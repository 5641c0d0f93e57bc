/**
 The all-reduce as the ranks run it, and the theorem over every schedule: no rank is ever stuck,
 every run is finite, and when all ranks are done each of them holds the same binary-blocks sum.
*/
module AllReduce {
  import opened Powers
  import opened ReduceTree
  import opened Wrappers
  import opened Rendezvous
  import opened RecursiveDoubling

  // ----- the programs, as the source's loops issue them ------------------------------------------

  lemma BlocksHead(start: nat, n: nat, bs: seq<Block>)
    requires n > 0 && bs == Blocks(start, n)
    ensures bs != [] && bs[0] == Block(start, Top(n)) && bs[1..] == Blocks(start + Top(n), n - Top(n))
  {}

  /** The `next(...)` over the block list. */
  method FindBlock(ws: nat, r: nat, blocks: seq<Block>) returns (b: Block)
    requires r < ws && blocks == Blocks(0, ws)
    ensures b == BlockOf(0, ws, r)
  {
    var rest := blocks;
    SearchHead(0, ws, r, rest);
    while !(rest[0].start <= r < rest[0].start + rest[0].size)
      invariant Searching(ws, r, rest, BlockOf(0, ws, r))
      decreases |rest|
    {
      SearchStep(ws, r, rest, BlockOf(0, ws, r));
      rest := rest[1..];
    }
    SearchStep(ws, r, rest, BlockOf(0, ws, r));
    b := rest[0];
  }

  /** `rest` is the tail of the block list that starts with the block at rank rest[0].start. */
  ghost predicate Searching(ws: nat, r: nat, rest: seq<Block>, b: Block) {
    && rest != []
    && rest[0].start <= r < ws
    && rest[0].size == Top(ws - rest[0].start)
    && rest == Blocks(rest[0].start, ws - rest[0].start)
    && b == BlockOf(rest[0].start, ws - rest[0].start, r)
  }

  lemma SearchHead(start: nat, ws: nat, r: nat, rest: seq<Block>)
    requires start <= r < ws && rest == Blocks(start, ws - start)
    ensures Searching(ws, r, rest, BlockOf(start, ws - start, r)) && rest[0].start == start
  {
    BlocksHead(start, ws - start, rest);
  }

  lemma SearchStep(ws: nat, r: nat, rest: seq<Block>, b: Block)
    requires Searching(ws, r, rest, b)
    ensures if r < rest[0].start + rest[0].size then b == rest[0] else Searching(ws, r, rest[1..], b)
  {
    var s := rest[0].start;
    BlocksHead(s, ws - s, rest);
    if r >= s + rest[0].size {
      SearchHead(s + rest[0].size, ws, r, rest[1..]);
    }
  }

  /** No power of two lies strictly between a power of two and its double. */
  lemma BetweenPowers(t: nat, mask: nat)
    requires IsPow2(mask) && mask < t < 2 * mask
    ensures !IsPow2(t)
  {
    if IsPow2(t) {
      Pow2Gap(mask, t);
    }
  }

  /** Phase A of one rank: exchange with `local ^ mask`, doubling the mask. */
  method Butterfly(ws: nat, r: nat, mine: Block) returns (ops: seq<Op>)
    requires r < ws && mine == BlockOf(0, ws, r)
    ensures ops == Collect(ws, r, 0, ws)
  {
    ops := [];
    var local := r - mine.start;
    var mask := 1;
    assert Collect(ws, r, 0, 1) == [];
    while mask < mine.size
      invariant IsPow2(mask) && mask <= mine.size
      invariant ops == Collect(ws, r, 0, mask)
      decreases ws - mask
    {
      CollectNext(ws, r, 0, mask);
      ButterflyGap(ws, r, mask);
      Pow2Gap(mask, mine.size);
      var partner := mine.start + Flip(local, mask);
      ops := ops + [Op(Some(partner), Some(partner), true, mask)];
      mask := 2 * mask;
    }
    CollectIdle(ws, r, 0, mask, ws);
  }

  lemma ButterflyGap(ws: nat, r: nat, mask: nat)
    requires r < ws && IsPow2(mask) && mask < BlockOf(0, ws, r).size
    ensures Collect(ws, r, 0, 2 * mask) == Collect(ws, r, 0, mask + 1)
  {
    Pow2Gap(mask, BlockOf(0, ws, r).size);
    forall t | mask + 1 <= t < 2 * mask ensures OpAt(ws, r, t).None? {
      BetweenPowers(t, mask);
    }
    CollectIdle(ws, r, 0, mask + 1, 2 * mask);
  }

  /** Phase B of rank 0: it takes the sums of the later blocks in ascending order. */
  method HeadReport(ws: nat, blocks: seq<Block>) returns (ops: seq<Op>)
    requires 0 < ws && blocks == Blocks(0, ws)
    ensures ops == Collect(ws, 0, ws, 2 * ws)
  {
    hide Collect, BlockOf, Top, IsPow2;
    ops := [];
    HeadStart(ws, blocks);
    ghost var done: nat := blocks[0].size;
    var rest := blocks[1..];
    while rest != []
      invariant Reporting(ws, done, rest)
      invariant ops == Collect(ws, 0, ws, ws + done)
      decreases |rest|
    {
      HeadStep(ws, done, rest);
      var start := rest[0].start;
      ops := ops + [Op(None, Some(start), true, ws + start)];
      done := done + rest[0].size;
      rest := rest[1..];
    }
  }

  ghost predicate Reporting(ws: nat, done: nat, rest: seq<Block>) {
    && 0 < done <= ws && rest == Blocks(done, ws - done)
    && (done < ws ==> BlockOf(0, ws, done) == Block(done, Top(ws - done)))
  }

  /** Rank 0's own block is first, and needs no report. */
  lemma HeadStart(ws: nat, blocks: seq<Block>)
    requires 0 < ws && blocks == Blocks(0, ws)
    ensures blocks != [] && Reporting(ws, blocks[0].size, blocks[1..])
    ensures Collect(ws, 0, ws, ws + blocks[0].size) == []
  {
    CollectIdle(ws, 0, ws, ws, ws + 1);
    HeadGap(ws, 0);
    NextBlock(0, ws, 0);
    BlocksHead(0, ws, blocks);
  }

  lemma HeadStep(ws: nat, s: nat, rest: seq<Block>)
    requires Reporting(ws, s, rest) && rest != []
    ensures s < ws && rest[0] == Block(s, Top(ws - s)) && Reporting(ws, s + rest[0].size, rest[1..])
    ensures Collect(ws, 0, ws, ws + s + rest[0].size) == Collect(ws, 0, ws, ws + s) + [Op(None, Some(s), true, ws + s)]
  {
    BlocksHead(s, ws - s, rest);
    HeadOps(ws, s, rest[0]);
    NextBlock(0, ws, s);
  }

  lemma HeadOps(ws: nat, s: nat, b: Block)
    requires 0 < s < ws && b == BlockOf(0, ws, s) && b.start == s
    ensures Collect(ws, 0, ws, ws + s + b.size) == Collect(ws, 0, ws, ws + s) + [Op(None, Some(s), true, ws + s)]
  {
    HeadGap(ws, s);
    CollectNext(ws, 0, ws, ws + s);
    assert OpAt(ws, 0, ws + s) == Some(Op(None, Some(s), true, ws + s));
  }

  /** Phase B of another rank: the head of a block hands its sum to rank 0. */
  method Report(ws: nat, r: nat, mine: Block) returns (ops: seq<Op>)
    requires 0 < r < ws && mine == BlockOf(0, ws, r)
    ensures ops == Collect(ws, r, ws, 2 * ws)
  {
    ops := [];
    if r == mine.start {
      ops := [Op(Some(0), None, false, ws + r)];
      CollectIdle(ws, r, ws, ws, ws + r);
      CollectNext(ws, r, ws, ws + r);
      CollectIdle(ws, r, ws, ws + r + 1, 2 * ws);
    } else {
      CollectIdle(ws, r, ws, ws, 2 * ws);
    }
  }

  lemma SingleBlock(ws: nat, blocks: seq<Block>)
    requires ws > 0 && blocks == Blocks(0, ws)
    ensures |blocks| == 1 <==> IsPow2(ws)
    ensures |blocks| == 1 ==> forall s :: 0 <= s < ws && IsStart(ws, s) ==> s == 0
  {
    BlocksHead(0, ws, blocks);
    if IsPow2(ws) {
      TopUnique(ws, ws);
    }
  }

  /** Rank 0 is idle between the reports of two consecutive blocks. */
  lemma HeadGap(ws: nat, s: nat)
    requires s < ws && BlockOf(0, ws, s).start == s
    ensures Collect(ws, 0, ws, ws + s + BlockOf(0, ws, s).size) == Collect(ws, 0, ws, ws + s + 1)
  {
    var b := BlockOf(0, ws, s);
    forall t | ws + s + 1 <= t < ws + s + b.size ensures OpAt(ws, 0, t).None? {
      BlockOfSame(0, ws, s, t - ws);
    }
    CollectIdle(ws, 0, ws, ws + s + 1, ws + s + b.size);
  }

  /** The rank after a block is the head of the next block. */
  lemma {:induction false} NextBlock(start: nat, n: nat, s: nat)
    requires start <= s < start + n && BlockOf(start, n, s).start == s
    ensures var e := s + BlockOf(start, n, s).size;
            e < start + n ==> BlockOf(start, n, e) == Block(e, Top(start + n - e))
    decreases n
  {
    hide IsPow2;
    if s < start + Top(n) {
    } else {
      NextBlock(start + Top(n), n - Top(n), s);
    }
  }

  /** Above its lowest set bit a rank has no part in the broadcast. */
  lemma {:induction false} LowAbove(r: nat, c: nat, m: nat)
    requires IsPow2(c) && IsPow2(m) && c < m && Low(r, 2 * c) == c
    ensures Low(r, 2 * m) != 0 && Low(r, 2 * m) != m
  {
    if c <= 1 {
    } else {
      LowAbove(r / 2, c / 2, m / 2);
    }
  }

  lemma QuietAbove(ws: nat, r: nat, mask: nat)
    requires r < ws && IsPow2(mask) && mask < ws && Low(r, 2 * mask) == mask
    ensures Collect(ws, r, 2 * ws, 3 * ws - mask) == []
  {
    forall t | 2 * ws <= t < 3 * ws - mask ensures OpAt(ws, r, t).None? {
      if IsPow2(3 * ws - t) {
        LowAbove(r, mask, 3 * ws - t);
      }
    }
    CollectIdle(ws, r, 2 * ws, 2 * ws, 3 * ws - mask);
  }

  lemma QuietRoot(ws: nat, r: nat, mask: nat)
    requires r < ws && IsPow2(mask) && mask < ws <= 2 * mask && !IsPow2(ws)
    ensures Collect(ws, r, 2 * ws, 3 * ws - mask) == []
  {
    forall t | 2 * ws <= t < 3 * ws - mask ensures OpAt(ws, r, t).None? {
      if 3 * ws - t < 2 * mask {
        BetweenPowers(3 * ws - t, mask);
      }
    }
    CollectIdle(ws, r, 2 * ws, 2 * ws, 3 * ws - mask);
  }

  /** Nothing happens between the distances mask and mask / 2. */
  lemma BroadcastGap(ws: nat, r: nat, mask: nat)
    requires r < ws && IsPow2(mask) && mask < ws
    ensures Collect(ws, r, 2 * ws, 3 * ws - mask / 2) == Collect(ws, r, 2 * ws, 3 * ws - mask + 1)
  {
    if mask > 1 {
      forall t | 3 * ws - mask + 1 <= t < 3 * ws - mask / 2 ensures OpAt(ws, r, t).None? {
        BetweenPowers(3 * ws - t, mask / 2);
      }
    }
    CollectIdle(ws, r, 2 * ws, 3 * ws - mask + 1, 3 * ws - mask / 2);
  }

  lemma LowOne(r: nat)
    ensures IsPow2(1) && Low(r, 1) == 0
  {}

  /** The receiving turn: before the first send, a rank receives once, from its own number less its lowest set bit. */
  lemma BroadcastReceive(ws: nat, r: nat, mask: nat)
    requires r < ws && IsPow2(mask) && mask < ws && Low(r, mask) == 0 && Bit(r, mask) && !IsPow2(ws)
    ensures mask <= r && mask / 2 < ws
    ensures Collect(ws, r, 2 * ws, 3 * ws - mask / 2) == [Op(None, Some(r - mask), false, 3 * ws - mask)]
    ensures mask / 2 > 0 ==> IsPow2(mask / 2) && Low(r, 2 * (mask / 2)) == 0
  {
    hide Low, Top, Collect;
    LowHalves(r, mask);
    QuietAbove(ws, r, mask);
    CollectNext(ws, r, 2 * ws, 3 * ws - mask);
    OddMultiple(r, mask);
    BroadcastGap(ws, r, mask);
  }

  /** `_binomial_broadcast` of one rank: one receive from `r - lowest set bit`, then the sends below it. */
  method BinomialBroadcast(ws: nat, r: nat) returns (ops: seq<Op>)
    requires r < ws && !IsPow2(ws)
    ensures ops == Collect(ws, r, 2 * ws, 3 * ws)
  {
    hide Low, Top;
    ops := [];
    var mask := 1;
    LowOne(r);
    while mask < ws && !Bit(r, mask)
      invariant IsPow2(mask) && Low(r, mask) == 0 && (mask == 1 || mask / 2 < ws)
      decreases 2 * ws - mask
    {
      LowHalves(r, mask);
      mask := 2 * mask;
    }
    if mask < ws {
      BroadcastReceive(ws, r, mask);
      ops := [Op(None, Some(r - mask), false, 3 * ws - mask)];
    } else {
      QuietRoot(ws, r, mask / 2);
    }
    var sends := BroadcastSends(ws, r, mask / 2);
    ops := ops + sends;
  }

  /** One turn of the sending loop: at most the send at distance `mask`, and the next distance is ready. */
  lemma BroadcastTurn(ws: nat, r: nat, mask: nat)
    requires r < ws && IsPow2(mask) && mask < ws && Low(r, 2 * mask) == 0 && !IsPow2(ws)
    ensures Collect(ws, r, 2 * ws, 3 * ws - mask / 2) == Collect(ws, r, 2 * ws, 3 * ws - mask)
      + (if r + mask < ws then [Op(Some(r + mask), None, false, 3 * ws - mask)] else [])
    ensures mask / 2 > 0 ==> IsPow2(mask / 2) && Low(r, 2 * (mask / 2)) == 0
  {
    hide Top, Low, Collect;
    CollectNext(ws, r, 2 * ws, 3 * ws - mask);
    BroadcastGap(ws, r, mask);
    LowHalves(r, mask);
  }

  /** The sends of the broadcast, from distance `top` down. */
  method BroadcastSends(ws: nat, r: nat, top: nat) returns (ops: seq<Op>)
    requires r < ws && top < ws && (top > 0 ==> IsPow2(top) && Low(r, 2 * top) == 0) && !IsPow2(ws)
    ensures Collect(ws, r, 2 * ws, 3 * ws - top) + ops == Collect(ws, r, 2 * ws, 3 * ws)
  {
    hide Top, Low, Collect, IsPow2;
    ops := [];
    var mask := top;
    ghost var before := Collect(ws, r, 2 * ws, 3 * ws - top);
    while mask > 0
      invariant 0 <= mask < ws && (mask > 0 ==> IsPow2(mask) && Low(r, 2 * mask) == 0)
      invariant before + ops == Collect(ws, r, 2 * ws, 3 * ws - mask)
      decreases mask
    {
      BroadcastTurn(ws, r, mask);
      if r + mask < ws {
        ops := ops + [Op(Some(r + mask), None, false, 3 * ws - mask)];
      }
      mask := mask / 2;
    }
  }

  /** `_recursive_doubling_allreduce_avg` of one rank, as the operations it issues. */
  method RankProgram(ws: nat, r: nat) returns (ops: seq<Op>)
    requires r < ws
    ensures ops == Program(ws, r)
  {
    var blocks := BinaryBlocks(ws);
    var mine := FindBlock(ws, r, blocks);
    ops := Butterfly(ws, r, mine);
    SingleBlock(ws, blocks);
    CollectSplit(ws, r, 0, ws, 2 * ws);
    CollectSplit(ws, r, 0, 2 * ws, 3 * ws);
    if |blocks| > 1 {
      var report;
      if r == 0 {
        report := HeadReport(ws, blocks);
      } else {
        report := Report(ws, r, mine);
      }
      var broadcast := BinomialBroadcast(ws, r);
      ops := ops + report + broadcast;
    } else {
      CollectIdle(ws, r, 0, ws, 3 * ws);
    }
  }

  // ----- the network of all ranks ------------------------------------------------------------

  function Programs(ws: nat): (net: Net)
    ensures |net| == ws && forall r :: 0 <= r < ws ==> net[r] == Program(ws, r)
  {
    seq(ws, r requires 0 <= r < ws => Program(ws, r))
  }

  /** A program holds operations of the timetable only, in time order. */
  lemma {:induction false} CollectHolds(ws: nat, r: nat, lo: nat, hi: nat)
    requires r < ws && lo <= hi
    ensures Increasing(Collect(ws, r, lo, hi))
    ensures forall op :: op in Collect(ws, r, lo, hi) ==>
      lo <= op.stamp < hi && OpAt(ws, r, op.stamp) == Some(op)
    decreases hi - lo
  {
    if lo >= hi {
    } else {
      CollectHolds(ws, r, lo + 1, hi);
      var rest := Collect(ws, r, lo + 1, hi);
      if OpAt(ws, r, lo).Some? {
        SendMeetsReceive(ws, r, lo);
        IncreasingCons(OpAt(ws, r, lo).value, rest);
      }
    }
  }

  lemma IncreasingCons(op: Op, rest: seq<Op>)
    requires Increasing(rest) && forall o :: o in rest ==> op.stamp < o.stamp
    ensures Increasing([op] + rest)
  {}

  /** And it holds every operation of the timetable. */
  lemma {:induction false} CollectCovers(ws: nat, r: nat, lo: nat, hi: nat, t: nat)
    requires r < ws && lo <= t < hi && OpAt(ws, r, t).Some?
    ensures OpAt(ws, r, t).value in Collect(ws, r, lo, hi)
    decreases hi - lo
  {
    if lo >= t {
    } else {
      CollectCovers(ws, r, lo + 1, hi, t);
    }
  }

  lemma AtStamp(ws: nat, r: nat, t: nat) returns (k: nat)
    requires r < ws && OpAt(ws, r, t).Some?
    ensures k < |Program(ws, r)| && Program(ws, r)[k] == OpAt(ws, r, t).value && Program(ws, r)[k].stamp == t
  {
    SendMeetsReceive(ws, r, t);
    CollectCovers(ws, r, 0, 3 * ws, t);
    k :| k < |Program(ws, r)| && Program(ws, r)[k] == OpAt(ws, r, t).value;
  }

  /** Every send has a receive and every receive a send, so the programs are well wired. */
  lemma ProgramsWired(ws: nat)
    ensures Wired(Programs(ws))
  {
    var net: Net := Programs(ws);
    forall i | 0 <= i < |net| ensures Increasing(net[i]) {
      CollectHolds(ws, i, 0, 3 * ws);
    }
    forall i: nat, k: nat | i < |net| && k < |net[i]| && net[i][k].to.Some? ensures HasReceiver(net, i, k) {
      CollectHolds(ws, i, 0, 3 * ws);
      var t := net[i][k].stamp;
      SendMeetsReceive(ws, i, t);
      var j := net[i][k].to.value;
      SendMeetsReceive(ws, j, t);
      var l := AtStamp(ws, j, t);
      assert Matched(net, i, k, j, l);
    }
    forall j: nat, l: nat | j < |net| && l < |net[j]| && net[j][l].from.Some? ensures HasSender(net, j, l) {
      CollectHolds(ws, j, 0, 3 * ws);
      var t := net[j][l].stamp;
      ReceiveMeetsSend(ws, j, t);
      var i := net[j][l].from.value;
      SendMeetsReceive(ws, i, t);
      var k := AtStamp(ws, i, t);
      assert Matched(net, i, k, j, l);
    }
  }

  /** When operation k of rank r runs; the end of the timetable after the last one. */
  function TimeOf(ws: nat, r: nat, k: nat): nat
    requires r < ws
  {
    if k < |Program(ws, r)| then Program(ws, r)[k].stamp else 3 * ws
  }

  /** The buffer of rank r before its operation k. */
  function Before<T(!new)>(a: Arith<T>, parts: seq<T>, r: nat, k: nat): T
    requires parts != []
  {
    if r < |parts| then Val(a, parts, r, TimeOf(|parts|, r, k)) else parts[0]
  }

  lemma {:induction false} IdleKeeps<T(!new)>(a: Arith<T>, parts: seq<T>, r: nat, lo: nat, hi: nat)
    requires r < |parts| && a.Commutes() && lo <= hi
    requires forall t :: lo <= t < hi ==> OpAt(|parts|, r, t).None?
    ensures Val(a, parts, r, lo) == Val(a, parts, r, hi)
    decreases hi - lo
  {
    if lo >= hi {
    } else {
      AnyStep(a, parts, r, lo);
      IdleKeeps(a, parts, r, lo + 1, hi);
    }
  }

  /** Nothing is scheduled strictly between two consecutive operations, before the first or after the last. */
  lemma QuietBetween(ws: nat, r: nat, k: nat)
    requires r < ws && k <= |Program(ws, r)|
    ensures var lo := if k == 0 then 0 else TimeOf(ws, r, k - 1) + 1;
            lo <= TimeOf(ws, r, k) && forall t :: lo <= t < TimeOf(ws, r, k) ==> OpAt(ws, r, t).None?
  {
    var ops := Program(ws, r);
    CollectHolds(ws, r, 0, 3 * ws);
    var lo := if k == 0 then 0 else TimeOf(ws, r, k - 1) + 1;
    forall t | lo <= t < TimeOf(ws, r, k) ensures OpAt(ws, r, t).None? {
      if OpAt(ws, r, t).Some? {
        var l := AtStamp(ws, r, t);
      }
    }
  }

  lemma BeforeFirst<T(!new)>(a: Arith<T>, parts: seq<T>, r: nat)
    requires r < |parts| && a.Commutes()
    ensures Before(a, parts, r, 0) == parts[r]
  {
    QuietBetween(|parts|, r, 0);
    IdleKeeps(a, parts, r, 0, TimeOf(|parts|, r, 0));
    var b := BlockOf(0, |parts|, r);
    AlignedFits(r - b.start, 1, b.size);
  }

  lemma AfterOp<T(!new)>(a: Arith<T>, parts: seq<T>, r: nat, k: nat)
    requires r < |parts| && a.Commutes() && k < |Program(|parts|, r)|
    ensures var op := Program(|parts|, r)[k];
            if op.from.Some? then
              op.from.value < |parts| && Before(a, parts, r, k + 1)
                == Combine(a, op, Before(a, parts, r, k), Val(a, parts, op.from.value, op.stamp))
            else Before(a, parts, r, k + 1) == Before(a, parts, r, k)
  {
    var ws := |parts|;
    var t := Program(ws, r)[k].stamp;
    CollectHolds(ws, r, 0, 3 * ws);
    AnyStep(a, parts, r, t);
    QuietBetween(ws, r, k + 1);
    IdleKeeps(a, parts, r, t + 1, TimeOf(ws, r, k + 1));
  }

  lemma ProgramsValues<T(!new)>(a: Arith<T>, parts: seq<T>)
    requires parts != [] && a.Commutes()
    ensures Values(a, Programs(|parts|), parts, (i: nat, k: nat) => Before(a, parts, i, k))
  {
    var ws := |parts|;
    var net: Net := Programs(ws);
    forall i: nat | i < ws ensures Before(a, parts, i, 0) == parts[i] {
      BeforeFirst(a, parts, i);
    }
    forall j: nat, l: nat | j < ws && l < |net[j]| && net[j][l].from.None?
      ensures Before(a, parts, j, l + 1) == Before(a, parts, j, l)
    {
      AfterOp(a, parts, j, l);
    }
    forall i: nat, k: nat, j: nat, l: nat | Matched(net, i, k, j, l)
      ensures Before(a, parts, j, l + 1) == Combine(a, net[j][l], Before(a, parts, j, l), Before(a, parts, i, k))
    {
      AfterOp(a, parts, j, l);
    }
  }

  lemma BeforeEnd<T(!new)>(a: Arith<T>, parts: seq<T>, r: nat)
    requires r < |parts|
    ensures Before(a, parts, r, |Program(|parts|, r)|) == TreeSum(a, parts)
  {
    assert Low(r, 1) == 0;
  }

  // ----- the theorem -----------------------------------------------------------------------------

  /** An upper bound on the number of steps of any run. */
  function StepBound(net: Net): nat {
    if net == [] then 0 else 3 * |net[|net| - 1]| + StepBound(net[..|net| - 1])
  }

  lemma {:induction false} WorkBound<T(!new)>(net: Net, val: (nat, nat) -> T, st: seq<Proc<T>>, n: nat)
    requires Inv(net, val, st) && n <= |net|
    ensures Work(net, val, st, n) <= StepBound(net[..n])
  {
    if n == 0 {
    } else {
      assert ProcOk(net[n - 1], val, n - 1, st[n - 1]);
      WorkBound(net, val, st, n - 1);
      assert net[..n][..n - 1] == net[..n - 1];
    }
  }

  /** What a rank of ws returns: the average, by a multiplication. */
  function Returned<T(!new)>(a: Arith<T>, ws: nat, p: Proc<T>): T {
    a.mul(ws, p.flat)
  }

  /**
   For every number of ranks, every commutative addition and every schedule: a state that is not
   finished can move, a finished one holds the binary-blocks sum on every rank, so that every rank
   returns the same scaled sum, and no run takes more than a fixed number of steps.
  */
  lemma AllReduceIsSafe<T(!new)>(a: Arith<T>, parts: seq<T>, run: seq<Step>)
    requires parts != [] && a.Commutes()
    requires Legal(a, Programs(|parts|), Start(parts), run)
    ensures var net := Programs(|parts|);
            var st := After(a, net, Start(parts), run);
            && |run| <= StepBound(net)
            && (!Finished(net, st) ==> exists s :: Enabled(net, st, s))
            && (Finished(net, st) ==> forall r :: 0 <= r < |parts| ==>
                  st[r].flat == TreeSum(a, parts) && Returned(a, |parts|, st[r]) == a.mul(|parts|, TreeSum(a, parts)))
  {
    var net := Programs(|parts|);
    var val := (i: nat, k: nat) => Before(a, parts, i, k);
    ProgramsWired(|parts|);
    ProgramsValues(a, parts);
    InitInv(a, net, parts, val);
    RunKeeps(a, net, parts, val, Start(parts), run);
    var st := After(a, net, Start(parts), run);
    WorkBound(net, val, Start(parts), |net|);
    assert net[..|net|] == net;
    if !Finished(net, st) {
      var s := Progress(net, val, st);
    } else {
      forall r | 0 <= r < |parts| ensures st[r].flat == TreeSum(a, parts) {
        assert ProcOk(net[r], val, r, st[r]);
        BeforeEnd(a, parts, r);
      }
    }
  }

  /** Extending any legal run as long as something is enabled reaches the finished state. */
  lemma {:induction false} AllReduceFinishes<T(!new)>(a: Arith<T>, parts: seq<T>, run: seq<Step>)
    returns (full: seq<Step>)
    requires parts != [] && a.Commutes()
    requires Legal(a, Programs(|parts|), Start(parts), run)
    ensures Legal(a, Programs(|parts|), Start(parts), full) && run <= full
    ensures Finished(Programs(|parts|), After(a, Programs(|parts|), Start(parts), full))
    decreases StepBound(Programs(|parts|)) - |run|
  {
    var net := Programs(|parts|);
    AllReduceIsSafe(a, parts, run);
    var st := After(a, net, Start(parts), run);
    if Finished(net, st) {
      full := run;
    } else {
      var s :| Enabled(net, st, s);
      LegalAppend(a, net, Start(parts), run, s);
      AllReduceIsSafe(a, parts, run + [s]);
      full := AllReduceFinishes(a, parts, run + [s]);
    }
  }

  lemma {:induction false} LegalAppend<T(!new)>(a: Arith<T>, net: Net, st: seq<Proc<T>>, run: seq<Step>, s: Step)
    requires |st| == |net| && Legal(a, net, st, run) && Enabled(net, After(a, net, st, run), s)
    ensures Legal(a, net, st, run + [s])
    decreases |run|
  {
    if run == [] {
      assert (run + [s])[1..] == [];
    } else {
      LegalAppend(a, net, Apply(a, net, st, run[0]), run[1..], s);
      assert (run + [s])[1..] == run[1..] + [s];
    }
  }
}
