/**
 Element-wise reductions: the reduce-scatter over shards, the all-reduce over replicates, and the
 single-device fold that replays both.
*/
module GradientReduce {
  import opened Arithmetic
  import opened Powers
  import opened ReduceTree
  import opened Wrappers
  import opened Rendezvous
  import opened AllReduce
  import opened TreeFold

  // ----- buffers as elements ----------------------------------------------------------------

  function ZipAdd<E(!new)>(e: Arith<E>, x: seq<E>, y: seq<E>): (z: seq<E>)
    ensures |z| == if |x| < |y| then |x| else |y|
    ensures forall i :: 0 <= i < |z| ==> z[i] == e.add(x[i], y[i])
  {
    var n := if |x| < |y| then |x| else |y|;
    seq(n, i requires 0 <= i < n => e.add(x[i], y[i]))
  }

  function ScaleAll<E(!new)>(e: Arith<E>, n: nat, x: seq<E>): (z: seq<E>)
    ensures |z| == |x| && forall i :: 0 <= i < |z| ==> z[i] == e.mul(n, x[i])
  {
    seq(|x|, i requires 0 <= i < |x| => e.mul(n, x[i]))
  }

  /** Whole-buffer arithmetic: every operation is per element. */
  function Buffers<E(!new)>(e: Arith<E>): Arith<seq<E>> {
    Arith((x, y) => ZipAdd(e, x, y), (n, x) => ScaleAll(e, n, x))
  }

  lemma BuffersCommute<E(!new)>(e: Arith<E>)
    requires e.Commutes()
    ensures Buffers(e).Commutes()
  {
    forall x: seq<E>, y: seq<E> ensures Buffers(e).add(x, y) == Buffers(e).add(y, x) {
      assert ZipAdd(e, x, y) == ZipAdd(e, y, x);
    }
  }

  /** Element j of every buffer. */
  function Column<E>(bufs: seq<seq<E>>, j: nat): (c: seq<E>)
    requires forall b :: 0 <= b < |bufs| ==> j < |bufs[b]|
    ensures |c| == |bufs| && forall b :: 0 <= b < |bufs| ==> c[b] == bufs[b][j]
  {
    seq(|bufs|, b requires 0 <= b < |bufs| => bufs[b][j])
  }

  ghost predicate Uniform<E>(bufs: seq<seq<E>>, k: nat) {
    forall b :: 0 <= b < |bufs| ==> |bufs[b]| == k
  }

  /** Element j of a tree-reduced buffer is the tree sum of the elements j: packing is irrelevant. */
  lemma TreeSumElement<E(!new)>(e: Arith<E>, bufs: seq<seq<E>>, k: nat, j: nat)
    requires bufs != [] && Uniform(bufs, k) && j < k
    ensures |TreeSum(Buffers(e), bufs)| == k
    ensures TreeSum(Buffers(e), bufs)[j] == TreeSum(e, Column(bufs, j))
  {
    var rel := (x: seq<E>, u: E) => |x| == k && x[j] == u;
    TreeSumRelates(Buffers(e), e, bufs, Column(bufs, j), rel);
  }

  lemma TreeSumLength<E(!new)>(e: Arith<E>, bufs: seq<seq<E>>, k: nat)
    requires bufs != [] && Uniform(bufs, k)
    ensures |TreeSum(Buffers(e), bufs)| == k
  {
    var rel := (x: seq<E>, u: seq<E>) => |x| == k && x == u;
    TreeSumRelates(Buffers(e), Buffers(e), bufs, bufs, rel);
  }

  // ----- reduce-scatter -------------------------------------------------------------------------

  /** Ascending left fold. */
  function LeftSum<T(!new)>(a: Arith<T>, xs: seq<T>): T
    requires xs != []
  {
    if |xs| == 1 then xs[0] else a.add(LeftSum(a, xs[..|xs| - 1]), xs[|xs| - 1])
  }

  lemma {:induction false} LeftSumElement<E(!new)>(e: Arith<E>, bufs: seq<seq<E>>, k: nat)
    requires bufs != [] && Uniform(bufs, k)
    ensures |LeftSum(Buffers(e), bufs)| == k
    ensures forall j :: 0 <= j < k ==> LeftSum(Buffers(e), bufs)[j] == LeftSum(e, Column(bufs, j))
  {
    if |bufs| <= 1 {
    } else {
      var n := |bufs| - 1;
      LeftSumElement(e, bufs[..n], k);
      forall j | 0 <= j < k ensures LeftSum(Buffers(e), bufs)[j] == LeftSum(e, Column(bufs, j)) {
        assert Column(bufs, j)[..n] == Column(bufs[..n], j);
      }
    }
  }

  /** Every addition takes one more single operand on its right. */
  predicate LeftComb(e: Expr) {
    match e
    case Rank(_) => true
    case Plus(l, r) => r.Rank? && LeftComb(l)
  }

  /** The ascending sum as an expression: all ranks once in order, added one by one. */
  lemma {:induction false} LeftSumIsComb(n: nat)
    requires n > 0
    ensures Leaves(LeftSum(FreeArith(), Ranks(0, n))) == Iota(0, n)
    ensures LeftComb(LeftSum(FreeArith(), Ranks(0, n)))
  {
    if n == 1 {
      assert Ranks(0, 1)[0] == Rank(0);
    } else {
      LeftSumIsComb(n - 1);
      assert Ranks(0, n)[..n - 1] == Ranks(0, n - 1);
      assert Iota(0, n) == Iota(0, n - 1) + [n - 1];
    }
  }

  /** The chunks `all_to_all_single` delivers to rank d: chunk d of every source, in source order. */
  function AllToAll<E>(inputs: seq<seq<E>>, k: nat, d: nat): (recvd: seq<seq<E>>)
    requires d < |inputs| && Uniform(inputs, |inputs| * k)
    ensures |recvd| == |inputs| && Uniform(recvd, k)
    ensures forall s :: 0 <= s < |recvd| ==> recvd[s] == Chunk(inputs[s], |inputs|, k, d)
  {
    seq(|inputs|, s requires 0 <= s < |inputs| => Chunk(inputs[s], |inputs|, k, d))
  }

  /** What rank d holds after the deterministic reduce-scatter. */
  function ScatterOut<E(!new)>(e: Arith<E>, inputs: seq<seq<E>>, k: nat, d: nat, avg: bool): seq<E>
    requires d < |inputs| && Uniform(inputs, |inputs| * k)
  {
    var sum := LeftSum(Buffers(e), AllToAll(inputs, k, d));
    if avg then ScaleAll(e, |inputs|, sum) else sum
  }

  /** `DeterministicReduceScatter.__call__`: adds the received chunks into one accumulator in place. */
  method ReduceScatter<E(!new)>(e: Arith<E>, inputs: seq<seq<E>>, k: nat, d: nat, avg: bool)
    returns (output: array<E>)
    requires d < |inputs| && Uniform(inputs, |inputs| * k)
    ensures fresh(output) && output[..] == ScatterOut(e, inputs, k, d, avg)
  {
    var ws := |inputs|;
    var contribs := AllToAll(inputs, k, d);
    var acc := new E[k](i requires 0 <= i < k && |contribs| > 0 && |contribs[0]| == k => contribs[0][i]);
    assert acc[..] == contribs[0] == contribs[..1][0];
    for s := 1 to ws
      invariant acc[..] == LeftSum(Buffers(e), contribs[..s])
    {
      ghost var before := acc[..];
      AddInto(e, acc, contribs[s]);
      assert contribs[..s + 1][..s] == contribs[..s];
    }
    assert contribs[..ws] == contribs;
    if avg {
      ScaleInto(e, acc, ws);
    }
    output := acc;
  }

  /** `acc.add_(x)`. */
  method AddInto<E(!new)>(e: Arith<E>, acc: array<E>, x: seq<E>)
    requires acc.Length == |x|
    modifies acc
    ensures acc[..] == ZipAdd(e, old(acc[..]), x)
  {
    for i := 0 to acc.Length
      invariant forall j :: 0 <= j < i ==> acc[j] == e.add(old(acc[j]), x[j])
      invariant forall j :: i <= j < acc.Length ==> acc[j] == old(acc[j])
    {
      acc[i] := e.add(acc[i], x[i]);
    }
  }

  /** `acc.mul_(1.0 / n)`. */
  method ScaleInto<E(!new)>(e: Arith<E>, acc: array<E>, n: nat)
    modifies acc
    ensures acc[..] == ScaleAll(e, n, old(acc[..]))
  {
    for i := 0 to acc.Length
      invariant forall j :: 0 <= j < i ==> acc[j] == e.mul(n, old(acc[j]))
      invariant forall j :: i <= j < acc.Length ==> acc[j] == old(acc[j])
    {
      acc[i] := e.mul(n, acc[i]);
    }
  }

  // ----- cluster and audit ----------------------------------------------------------------------

  /** A mesh of dpRep replicates of dpShard ranks; rank rep * dpShard + s holds shard s of replicate rep. */
  datatype Mesh = Mesh(dpShard: nat, dpRep: nat) {
    ghost predicate Holds<E>(grads: seq<seq<E>>, k: nat) {
      && dpShard > 0 && dpRep > 0
      && |grads| == dpRep * dpShard
      && Uniform(grads, dpShard * k)
    }

    /** The gradients of one replicate, in shard order. */
    function Group<E>(grads: seq<seq<E>>, rep: nat): (g: seq<seq<E>>)
      requires |grads| == dpRep * dpShard && rep < dpRep
      ensures |g| == dpShard
    {
      Chunk(grads, dpRep, dpShard, rep)
    }
  }

  /** What shard d of each replicate contributes to the replicate all-reduce. */
  function Scattered<E(!new)>(e: Arith<E>, m: Mesh, grads: seq<seq<E>>, k: nat, d: nat): (bufs: seq<seq<E>>)
    requires m.Holds(grads, k) && d < m.dpShard
    ensures |bufs| == m.dpRep
  {
    seq(m.dpRep, rep requires 0 <= rep < m.dpRep => ScatterOut(e, m.Group(grads, rep), k, d, true))
  }

  /** The inner averages the audit pushes, one per replicate. */
  function Inners<E(!new)>(e: Arith<E>, m: Mesh, grads: seq<seq<E>>, n: nat): (p: seq<seq<E>>)
    requires m.dpShard > 0 && |grads| == m.dpRep * m.dpShard && n <= m.dpRep
    ensures |p| == n
  {
    seq(n, rep requires 0 <= rep < n => ScaleAll(e, m.dpShard, LeftSum(Buffers(e), m.Group(grads, rep))))
  }

  /** The gradient a single device reconstructs. */
  function AuditGradient<E(!new)>(e: Arith<E>, m: Mesh, grads: seq<seq<E>>): seq<E>
    requires m.dpShard > 0 && m.dpRep > 0 && |grads| == m.dpRep * m.dpShard
  {
    ScaleAll(e, m.dpRep, TreeSum(Buffers(e), Inners(e, m, grads, m.dpRep)))
  }

  /** Rank r is shard `r % dpShard` of replicate `r / dpShard`. */
  lemma RankOf<E>(m: Mesh, grads: seq<seq<E>>, r: nat, rep: nat, s: nat)
    requires m.dpShard > 0 && |grads| == m.dpRep * m.dpShard
    requires r == rep * m.dpShard + s && s < m.dpShard && r < |grads|
    ensures r % m.dpShard == s && rep < m.dpRep && m.Group(grads, rep)[s] == grads[r]
  {
    DivModUnique(r, m.dpShard, rep, s);
    QuotientBelow(r, m.dpShard, m.dpRep);
  }

  lemma LeftSumSnoc<T(!new)>(a: Arith<T>, xs: seq<T>, s: nat)
    requires s < |xs|
    ensures LeftSum(a, xs[..s + 1]) == if s == 0 then xs[0] else a.add(LeftSum(a, xs[..s]), xs[s])
  {
    assert xs[..s + 1][..s] == xs[..s];
  }

  /** Position r of the audit's loop: s shards of replicate rep are in `inner`. */
  ghost predicate Folding<E(!new)>(
    e: Arith<E>, m: Mesh, grads: seq<seq<E>>, r: nat, rep: nat, s: nat, inner: Option<seq<E>>, pushed: seq<seq<E>>)
    requires m.dpShard > 0 && |grads| == m.dpRep * m.dpShard
  {
    && s < m.dpShard && rep <= m.dpRep && r == rep * m.dpShard + s
    && pushed == Inners(e, m, grads, rep)
    && (inner.None? <==> s == 0)
    && (s > 0 ==> rep < m.dpRep && inner == Some(LeftSum(Buffers(e), m.Group(grads, rep)[..s])))
  }

  lemma FoldingStep<E(!new)>(
    e: Arith<E>, m: Mesh, grads: seq<seq<E>>, r: nat, rep: nat, s: nat, inner: Option<seq<E>>, pushed: seq<seq<E>>)
    requires m.dpShard > 0 && |grads| == m.dpRep * m.dpShard && r < |grads|
    requires Folding(e, m, grads, r, rep, s, inner, pushed)
    ensures r % m.dpShard == s
    ensures var sum := if s == 0 then grads[r] else Buffers(e).add(inner.value, grads[r]);
            if s == m.dpShard - 1
            then Folding(e, m, grads, r + 1, rep + 1, 0, None, pushed + [Buffers(e).mul(m.dpShard, sum)])
            else Folding(e, m, grads, r + 1, rep, s + 1, Some(sum), pushed)
  {
    hide LeftSum, Inners, ZipAdd, ScaleAll, Chunk;
    RankOf(m, grads, r, rep, s);
    LeftSumSnoc(Buffers(e), m.Group(grads, rep), s);
    if s == m.dpShard - 1 {
      var sum := if s == 0 then grads[r] else Buffers(e).add(inner.value, grads[r]);
      InnersNext(e, m, grads, rep, Buffers(e).mul(m.dpShard, sum));
    }
  }

  // --- what the audit's loop has in memory ---

  /** The most gradients in memory while rank s of replicate rep is read: the last one read is still bound. */
  function ReadPeak(rep: nat, s: nat): nat {
    if s >= 2 then 3 else if s == 1 || rep > 0 then 2 else 1
  }

  /** The same over the first s ranks of a replicate. */
  function ReadsPeak(rep: nat, s: nat): nat {
    if s == 0 then 0 else ReadPeak(rep, s - 1)
  }

  /** With several shards the last one's gradient is held beside the replicate's sum. */
  function HeldInPush(dpShard: nat): nat {
    if dpShard <= 1 then 1 else 2
  }

  function ReplicatePeak(dpShard: nat, rep: nat): nat {
    Max(ReadsPeak(rep, dpShard), PushPeak(rep, HeldInPush(dpShard)))
  }

  function LoopPeak(dpShard: nat, reps: nat): nat {
    if reps == 0 then 0 else Max(LoopPeak(dpShard, reps - 1), ReplicatePeak(dpShard, reps - 1))
  }

  /** Over the loop and the result, during which the last gradient read is still held. */
  function AuditPeak(dpShard: nat, dpRep: nat): nat {
    Max(LoopPeak(dpShard, dpRep), 1 + Least(|Blocks(0, dpRep)|, 3))
  }

  lemma {:induction false} LoopPeakAtLeast(dpShard: nat, reps: nat, n: nat)
    requires n < reps
    ensures ReplicatePeak(dpShard, n) <= LoopPeak(dpShard, reps)
  {
    if n == reps - 1 {
    } else {
      LoopPeakAtLeast(dpShard, reps - 1, n);
    }
  }

  lemma {:induction false} LoopPeakAtMost(dpShard: nat, reps: nat, b: nat)
    requires forall n :: 0 <= n < reps ==> ReplicatePeak(dpShard, n) <= b
    ensures LoopPeak(dpShard, reps) <= b
  {
    if reps == 0 {
    } else {
      LoopPeakAtMost(dpShard, reps - 1, b);
    }
  }

  lemma SmallCarries()
    ensures Carries(0) == 0 && Carries(1) == 1 && Carries(2) == 0 && Carries(3) == 2
  {}

  lemma FewBlocks(n: nat)
    requires 0 < n < 4
    ensures |Blocks(0, n)| == if n == 3 then 2 else 1
  {
    var t := Top(n);
    assert t == if n == 1 then 1 else 2;
    if n == 3 {
      TopUnique(1, 1);
      assert Blocks(t + 1, 0) == [];
      assert |Blocks(t, 1)| == 1;
    } else {
      assert Blocks(t, n - t) == [];
    }
  }

  /** A spilling audit needs at most four gradients in memory. */
  lemma AuditInFour(dpShard: nat, dpRep: nat)
    ensures AuditPeak(dpShard, dpRep) <= 4
  {
    forall n | 0 <= n < dpRep ensures ReplicatePeak(dpShard, n) <= 4 {
    }
    LoopPeakAtMost(dpShard, dpRep, 4);
  }

  /**
   The documented two are enough exactly for one shard and fewer than three replicates, or for two
   shards of a single replicate. The audit spills from three replicates on, so a spilling audit never
   stays within two.
  */
  lemma AuditInTwo(dpShard: nat, dpRep: nat)
    requires dpShard > 0 && dpRep > 0
    ensures AuditPeak(dpShard, dpRep) <= 2 <==> (dpShard == 1 && dpRep < 3) || (dpShard == 2 && dpRep == 1)
  {
    hide ReplicatePeak, Blocks, PushPeak, Carries;
    FirstReplicates(dpShard);
    LoopPeakAtLeast(dpShard, dpRep, 0);
    if dpRep < 4 {
      FewBlocks(dpRep);
    }
    if (dpShard == 1 && dpRep < 3) || (dpShard == 2 && dpRep == 1) {
      LoopPeakAtMost(dpShard, dpRep, 2);
    } else if dpShard == 1 && dpRep > 3 {
      LoopPeakAtLeast(dpShard, dpRep, 3);
    } else if dpShard == 2 {
      LoopPeakAtLeast(dpShard, dpRep, 1);
    }
  }

  lemma FirstReplicates(dpShard: nat)
    requires dpShard > 0
    ensures dpShard == 1 ==> ReplicatePeak(1, 0) == 1 && ReplicatePeak(1, 1) == 2 && ReplicatePeak(1, 3) == 3
    ensures dpShard == 2 ==> ReplicatePeak(2, 0) == 2 && ReplicatePeak(2, 1) == 3
    ensures dpShard > 2 ==> ReplicatePeak(dpShard, 0) == 3
  {
    SmallCarries();
  }

  /** Three are enough exactly for one shard and at most two blocks of replicates, or below four replicates. */
  lemma AuditInThree(dpShard: nat, dpRep: nat)
    requires dpShard > 0 && dpRep > 0
    ensures AuditPeak(dpShard, dpRep) <= 3 <==> (dpShard == 1 && |Blocks(0, dpRep)| <= 2) || dpRep < 4
  {
    SmallCarries();
    if dpRep < 4 {
      FewBlocks(dpRep);
      LoopPeakAtMost(dpShard, dpRep, 3);
    } else if dpShard == 1 {
      LoopPeakAtMost(dpShard, dpRep, 3);
    } else {
      LoopPeakAtLeast(dpShard, dpRep, 3);
    }
  }

  // --- the loop ---

  /** What the audit's variables refer to. */
  function Bound(rg: Option<nat>, inner: Option<nat>): set<nat> {
    (if rg.Some? then {rg.value} else {}) + (if inner.Some? then {inner.value} else {})
  }

  /** What a variable holds. */
  function ValueOf<T>(live: map<nat, T>, ref: Option<nat>): Option<T>
    requires ref.Some? ==> ref.value in live
  {
    if ref.None? then None else Some(live[ref.value])
  }

  /** The variables at position r: the last gradient read, and the sum of s shards of replicate rep. */
  ghost predicate Variables(st: seq<Slot>, rg: Option<nat>, inner: Option<nat>, rep: nat, s: nat) {
    && (rg.None? <==> rep == 0 && s == 0) && (inner.None? <==> s == 0)
    && (inner.Some? ==> (inner == rg) == (s == 1) && inner.value !in StackRefs(st))
  }

  ghost predicate Auditing<E(!new)>(
    fold: DiskTreeFold<seq<E>>, e: Arith<E>, m: Mesh, grads: seq<seq<E>>, r: nat, rep: nat, s: nat,
    rg: Option<nat>, inner: Option<nat>)
    requires m.dpShard > 0 && |grads| == m.dpRep * m.dpShard
    reads fold
  {
    && fold.Valid() && fold.arith == Buffers(e) && fold.InMemory(Bound(rg, inner))
    && Variables(fold.stack, rg, inner, rep, s)
    && (inner.Some? ==> inner.value in fold.at.live)
    && Folding(e, m, grads, r, rep, s, ValueOf(fold.at.live, inner), fold.pushed)
    && (fold.spill ==> fold.high == Max(LoopPeak(m.dpShard, rep), ReadsPeak(rep, s)))
  }

  /** The read of one rank: the gradient read before stays bound until the new one is there. */
  method ReadRank<E(!new)>(e: Arith<E>, m: Mesh, grads: seq<seq<E>>, fold: DiskTreeFold<seq<E>>, r: nat,
                           rg: Option<nat>, inner: Option<nat>, ghost rep: nat, ghost s: nat)
    returns (read: nat, sum: nat)
    requires m.dpShard > 0 && |grads| == m.dpRep * m.dpShard && r < |grads|
    requires Auditing(fold, e, m, grads, r, rep, s, rg, inner)
    modifies fold
    ensures fold.Valid() && fold.pushed == old(fold.pushed) && fold.stack == old(fold.stack)
    ensures fold.InMemory({read, sum}) && read !in StackRefs(fold.stack) && sum !in StackRefs(fold.stack)
    ensures (read == sum) == (s == 0) && read in fold.at.live && sum in fold.at.live
    ensures fold.at.live[read] == grads[r]
    ensures s > 0 ==> inner.Some? && inner.value in old(fold.at).live
                      && fold.at.live[sum] == old(fold.at).live[inner.value]
    ensures fold.spill ==> fold.high == Max(LoopPeak(m.dpShard, rep), ReadPeak(rep, s))
  {
    hide *;
    BeforeRead(fold, e, m, grads, r, rep, s, rg, inner);
    ghost var was := fold.at.live;
    read := fold.Read(grads[r], Bound(rg, inner));
    ghost var now := fold.at.live;
    sum := if inner.None? then read else inner.value;
    fold.Drop({read, sum}, Bound(rg, inner) + {read});
    SameAt({read, sum}, now, fold.at.live, read);
    SameAt({read, sum}, now, fold.at.live, sum);
    if s > 0 {
      SameAt(Bound(rg, inner), was, now, sum);
    }
    PeakOfRead(m.dpShard, rep, s);
  }

  lemma BeforeRead<E(!new)>(
    fold: DiskTreeFold<seq<E>>, e: Arith<E>, m: Mesh, grads: seq<seq<E>>, r: nat, rep: nat, s: nat,
    rg: Option<nat>, inner: Option<nat>)
    requires m.dpShard > 0 && |grads| == m.dpRep * m.dpShard && Auditing(fold, e, m, grads, r, rep, s, rg, inner)
    ensures fold.Valid() && fold.InMemory(Bound(rg, inner)) && (inner.None? <==> s == 0)
    ensures inner.Some? ==>
      inner.value in Bound(rg, inner) && inner.value in fold.at.live && inner.value !in StackRefs(fold.stack)
    ensures |Bound(rg, inner)| + 1 == ReadPeak(rep, s)
    ensures fold.spill ==> fold.high == Max(LoopPeak(m.dpShard, rep), ReadsPeak(rep, s))
  {
    BoundSize(fold.stack, rg, inner, rep, s);
  }

  lemma SameAt<T>(vars: set<nat>, was: map<nat, T>, now: map<nat, T>, x: nat)
    requires Same(vars, was, now) && x in vars
    ensures x in was && x in now && was[x] == now[x]
  {}

  lemma PeakOfRead(dpShard: nat, rep: nat, s: nat)
    ensures Max(Max(LoopPeak(dpShard, rep), ReadsPeak(rep, s)), ReadPeak(rep, s))
         == Max(LoopPeak(dpShard, rep), ReadPeak(rep, s))
  {}

  lemma BoundSize(st: seq<Slot>, rg: Option<nat>, inner: Option<nat>, rep: nat, s: nat)
    requires Variables(st, rg, inner, rep, s)
    ensures |Bound(rg, inner)| + 1 == ReadPeak(rep, s)
  {
    if rg.Some? && inner.Some? {
      OneMoreVar({rg.value}, inner.value);
    }
  }

  /** What the variables hold after rank r, and what is pushed, is as the fold prescribes. */
  method AddRank<E(!new)>(e: Arith<E>, fold: DiskTreeFold<seq<E>>, read: nat, sum: nat, shard: nat)
    requires fold.Valid() && fold.arith == Buffers(e) && fold.InMemory({read, sum})
    requires read !in StackRefs(fold.stack) && sum !in StackRefs(fold.stack)
    requires (read == sum) == (shard == 0) && read in fold.at.live && sum in fold.at.live
    modifies fold`at
    ensures fold.Valid() && fold.InMemory({read, sum}) && sum in fold.at.live
    ensures fold.at.live[sum] == if shard == 0 then old(fold.at).live[read]
                                 else Buffers(e).add(old(fold.at).live[sum], old(fold.at).live[read])
  {
    if shard > 0 {
      fold.Accumulate(sum, read, {read, sum});
    }
  }

  lemma BeforePush<T(!new)>(fold: DiskTreeFold<T>, read: nat, sum: nat, dpShard: nat)
    requires read !in StackRefs(fold.stack) && sum !in StackRefs(fold.stack)
    requires dpShard > 0 && (read == sum) == (dpShard == 1)
    ensures {read, sum} !! StackRefs(fold.stack) && |{read, sum}| == HeldInPush(dpShard)
  {
    OneMoreVar({sum}, read);
    assert {sum} + {read} == {read, sum};
  }

  /** The last shard of a replicate: the sum is averaged in place and pushed. */
  method PushReplicate<E(!new)>(e: Arith<E>, m: Mesh, fold: DiskTreeFold<seq<E>>, read: nat, sum: nat, ghost rep: nat)
    requires m.dpShard > 0 && fold.Valid() && fold.arith == Buffers(e) && fold.InMemory({read, sum})
    requires read !in StackRefs(fold.stack) && sum !in StackRefs(fold.stack)
    requires (read == sum) == (m.dpShard == 1) && sum in fold.at.live && rep == |fold.pushed|
    requires fold.spill ==> HeldInPush(m.dpShard) <= fold.high
    modifies fold
    ensures fold.Valid() && fold.InMemory({read})
    ensures fold.pushed == old(fold.pushed) + [Buffers(e).mul(m.dpShard, old(fold.at).live[sum])]
    ensures fold.spill ==> fold.high == Max(old(fold.high), PushPeak(rep, HeldInPush(m.dpShard)))
  {
    hide *;
    BeforePush(fold, read, sum, m.dpShard);
    fold.Scale(sum, m.dpShard, {read, sum});
    fold.Push(sum, {read, sum});
    fold.Drop({read}, {read, sum});
  }

  /** One rank of the audit's loop: its gradient joins `inner`, which is pushed after the last shard. */
  method FoldRank<E(!new)>(e: Arith<E>, m: Mesh, grads: seq<seq<E>>, fold: DiskTreeFold<seq<E>>, r: nat,
                           rg: Option<nat>, inner: Option<nat>, ghost rep: nat, ghost s: nat)
    returns (rg': Option<nat>, next: Option<nat>, ghost rep': nat, ghost s': nat)
    requires m.dpShard > 0 && |grads| == m.dpRep * m.dpShard && r < |grads|
    requires Auditing(fold, e, m, grads, r, rep, s, rg, inner)
    modifies fold
    ensures Auditing(fold, e, m, grads, r + 1, rep', s', rg', next)
  {
    hide *;
    AuditingMeans(fold, e, m, grads, r, rep, s, rg, inner);
    ghost var before := ValueOf(fold.at.live, inner);
    FoldingStep(e, m, grads, r, rep, s, before, fold.pushed);
    var shard := r % m.dpShard;
    var read, sum := ReadRank(e, m, grads, fold, r, rg, inner, rep, s);
    AddRank(e, fold, read, sum, shard);
    ghost var total := if s == 0 then grads[r] else Buffers(e).add(before.value, grads[r]);
    assert fold.at.live[sum] == total;
    rg' := Some(read);
    PeakOfReplicate(m.dpShard, rep);
    if shard == m.dpShard - 1 {
      PushReplicate(e, m, fold, read, sum, rep);
      next, rep', s' := None, rep + 1, 0;
    } else {
      next, rep', s' := Some(sum), rep, s + 1;
    }
    BoundAfter(read, sum, s);
    VariablesAfter(fold.stack, read, sum, rep, s, m.dpShard);
    NowAuditing(fold, e, m, grads, r + 1, rep', s', rg', next, if next.None? then None else Some(total));
  }

  lemma AuditingMeans<E(!new)>(
    fold: DiskTreeFold<seq<E>>, e: Arith<E>, m: Mesh, grads: seq<seq<E>>, r: nat, rep: nat, s: nat,
    rg: Option<nat>, inner: Option<nat>)
    requires m.dpShard > 0 && |grads| == m.dpRep * m.dpShard && Auditing(fold, e, m, grads, r, rep, s, rg, inner)
    ensures fold.Valid() && fold.arith == Buffers(e) && (inner.Some? ==> inner.value in fold.at.live)
    ensures inner.None? <==> s == 0
    ensures ValueOf(fold.at.live, inner) == if inner.None? then None else Some(fold.at.live[inner.value])
    ensures Folding(e, m, grads, r, rep, s, ValueOf(fold.at.live, inner), fold.pushed)
    ensures |fold.pushed| == rep && s < m.dpShard
  {}

  lemma BoundAfter(read: nat, sum: nat, s: nat)
    ensures Bound(Some(read), None) == {read} && Bound(Some(read), Some(sum)) == {read, sum}
  {}

  lemma VariablesAfter(st: seq<Slot>, read: nat, sum: nat, rep: nat, s: nat, dpShard: nat)
    requires (read == sum) == (s == 0)
    ensures s == dpShard - 1 ==> Variables(st, Some(read), None, rep + 1, 0)
    ensures s < dpShard - 1 && sum !in StackRefs(st) ==> Variables(st, Some(read), Some(sum), rep, s + 1)
  {}

  lemma NowAuditing<E(!new)>(
    fold: DiskTreeFold<seq<E>>, e: Arith<E>, m: Mesh, grads: seq<seq<E>>, r: nat, rep: nat, s: nat,
    rg: Option<nat>, inner: Option<nat>, value: Option<seq<E>>)
    requires m.dpShard > 0 && |grads| == m.dpRep * m.dpShard
    requires fold.Valid() && fold.arith == Buffers(e) && fold.InMemory(Bound(rg, inner))
    requires Variables(fold.stack, rg, inner, rep, s)
    requires inner.Some? ==> inner.value in fold.at.live && value == Some(fold.at.live[inner.value])
    requires inner.None? ==> value.None?
    requires Folding(e, m, grads, r, rep, s, value, fold.pushed)
    requires fold.spill ==> fold.high == Max(LoopPeak(m.dpShard, rep), ReadsPeak(rep, s))
    ensures Auditing(fold, e, m, grads, r, rep, s, rg, inner)
  {}

  lemma PeakOfReplicate(dpShard: nat, rep: nat)
    requires dpShard > 0
    ensures Max(Max(LoopPeak(dpShard, rep), ReadPeak(rep, dpShard - 1)), PushPeak(rep, HeldInPush(dpShard)))
         == Max(LoopPeak(dpShard, rep + 1), ReadsPeak(rep + 1, 0))
    ensures HeldInPush(dpShard) <= Max(LoopPeak(dpShard, rep), ReadPeak(rep, dpShard - 1))
    ensures forall s: nat :: ReadsPeak(rep, s + 1) == ReadPeak(rep, s)
  {}

  /**
   The per-rank loop of the audit: read a gradient, fold the shards in ascending order in place, push
   each replicate's average. `peak` is the most gradients that were in memory at once.
  */
  method AuditFold<E(!new)>(e: Arith<E>, m: Mesh, grads: seq<seq<E>>, spill: bool)
    returns (outer: seq<E>, ghost peak: nat)
    requires m.dpShard > 0 && m.dpRep > 0 && |grads| == m.dpRep * m.dpShard
    ensures outer == AuditGradient(e, m, grads)
    ensures spill ==> peak == AuditPeak(m.dpShard, m.dpRep)
  {
    var fold := new DiskTreeFold(Buffers(e), spill);
    var rg: Option<nat>, inner: Option<nat> := None, None;
    ghost var rep: nat, s: nat := 0, 0;
    for r := 0 to |grads|
      invariant fresh(fold) && fold.spill == spill && Auditing(fold, e, m, grads, r, rep, s, rg, inner)
    {
      rg, inner, rep, s := FoldRank(e, m, grads, fold, r, rg, inner, rep, s);
    }
    FoldingDone(m, |grads|, rep, s);
    outer := AuditTotal(e, m, grads, fold, rg);
    peak := fold.high;
  }

  /** `result`, scaled. The last gradient read is still bound. */
  method AuditTotal<E(!new)>(e: Arith<E>, m: Mesh, grads: seq<seq<E>>, fold: DiskTreeFold<seq<E>>, rg: Option<nat>)
    returns (outer: seq<E>)
    requires m.dpShard > 0 && m.dpRep > 0 && |grads| == m.dpRep * m.dpShard
    requires Auditing(fold, e, m, grads, |grads|, m.dpRep, 0, rg, None)
    modifies fold
    ensures outer == AuditGradient(e, m, grads)
    ensures fold.spill ==> fold.high == AuditPeak(m.dpShard, m.dpRep)
  {
    fold.WaitingSpellCount();
    var held := Bound(rg, None);
    assert |held| == 1;
    var total := fold.Total(held);
    outer := fold.arith.mul(m.dpRep, fold.at.live[total.value]);
  }

  /** After the last rank every replicate has been pushed. */
  lemma FoldingDone(m: Mesh, r: nat, rep: nat, s: nat)
    requires m.dpShard > 0 && r == m.dpRep * m.dpShard == rep * m.dpShard + s && s < m.dpShard
    ensures rep == m.dpRep && s == 0
  {
    DivModUnique(r, m.dpShard, m.dpRep, 0);
    DivModUnique(r, m.dpShard, rep, s);
  }

  lemma InnersNext<E(!new)>(e: Arith<E>, m: Mesh, grads: seq<seq<E>>, rep: nat, average: seq<E>)
    requires m.dpShard > 0 && |grads| == m.dpRep * m.dpShard && rep < m.dpRep
    requires average == ScaleAll(e, m.dpShard, LeftSum(Buffers(e), m.Group(grads, rep)[..m.dpShard]))
    ensures Inners(e, m, grads, rep + 1) == Inners(e, m, grads, rep) + [average]
  {
    assert m.Group(grads, rep)[..m.dpShard] == m.Group(grads, rep);
  }

  // ----- the end-to-end claim -------------------------------------------------------------------

  /** What both sides compute for element j: the scaled left folds of the replicates, tree-summed. */
  function ShardAverages<E(!new)>(e: Arith<E>, m: Mesh, grads: seq<seq<E>>, k: nat, j: nat): (v: seq<E>)
    requires m.Holds(grads, k) && j < m.dpShard * k
    ensures |v| == m.dpRep
    ensures forall rep :: 0 <= rep < m.dpRep ==>
      v[rep] == e.mul(m.dpShard, LeftSum(e, Column(m.Group(grads, rep), j)))
  {
    seq(m.dpRep, rep requires 0 <= rep < m.dpRep =>
      e.mul(m.dpShard, LeftSum(e, Column(m.Group(grads, rep), j))))
  }

  /** Shard d of a reduce-scatter holds the left folds of its own elements, scaled when it averages. */
  lemma ScatterElement<E(!new)>(e: Arith<E>, group: seq<seq<E>>, k: nat, d: nat, avg: bool, i: nat, j: nat)
    requires d < |group| && Uniform(group, |group| * k) && i < k && j == d * k + i && j < |group| * k
    ensures |ScatterOut(e, group, k, d, avg)| == k
    ensures var sum := LeftSum(e, Column(group, j));
            ScatterOut(e, group, k, d, avg)[i] == if avg then e.mul(|group|, sum) else sum
  {
    var recvd := AllToAll(group, k, d);
    LeftSumElement(e, recvd, k);
    assert Column(recvd, i) == Column(group, j);
  }

  /** The average over the replicates: with one replicate no hook is installed and nothing is scaled. */
  function Averaged<E(!new)>(e: Arith<E>, dpRep: nat, sum: seq<E>): seq<E> {
    if dpRep == 1 then sum else ScaleAll(e, dpRep, sum)
  }

  /** Scaling by one, which the audit does for a single replicate and the cluster does not, changes nothing. */
  ghost predicate OneIsNeutral<E(!new)>(e: Arith<E>) {
    forall x :: e.mul(1, x) == x
  }

  lemma AveragedElement<E(!new)>(e: Arith<E>, dpRep: nat, sum: seq<E>, i: nat)
    requires i < |sum| && (dpRep == 1 ==> OneIsNeutral(e))
    ensures |Averaged(e, dpRep, sum)| == |sum| && Averaged(e, dpRep, sum)[i] == e.mul(dpRep, sum[i])
  {}

  /** The tree over one operand is that operand. */
  lemma SumOfOne<T(!new)>(a: Arith<T>, p: seq<T>)
    requires |p| == 1
    ensures TreeSum(a, p) == p[0]
  {
    TopUnique(1, 1);
    assert p[..1] == p && p[1..] == [];
  }

  /** Shard d of the averaged gradient, as every replicate holds it after the all-reduce. */
  function ClusterShard<E(!new)>(e: Arith<E>, m: Mesh, grads: seq<seq<E>>, k: nat, d: nat): seq<E>
    requires m.Holds(grads, k) && d < m.dpShard
  {
    Averaged(e, m.dpRep, TreeSum(Buffers(e), Scattered(e, m, grads, k, d)))
  }

  lemma ClusterElement<E(!new)>(e: Arith<E>, m: Mesh, grads: seq<seq<E>>, k: nat, d: nat, i: nat, j: nat)
    requires m.Holds(grads, k) && d < m.dpShard && i < k && j == d * k + i && j < m.dpShard * k
    requires m.dpRep == 1 ==> OneIsNeutral(e)
    ensures |ClusterShard(e, m, grads, k, d)| == k
    ensures ClusterShard(e, m, grads, k, d)[i] == e.mul(m.dpRep, TreeSum(e, ShardAverages(e, m, grads, k, j)))
  {
    var bufs := Scattered(e, m, grads, k, d);
    forall rep | 0 <= rep < m.dpRep
      ensures |bufs[rep]| == k && bufs[rep][i] == ShardAverages(e, m, grads, k, j)[rep]
    {
      ScatterElement(e, m.Group(grads, rep), k, d, true, i, j);
    }
    TreeSumElement(e, bufs, k, i);
    AveragedElement(e, m.dpRep, TreeSum(Buffers(e), bufs), i);
    assert Column(bufs, i) == ShardAverages(e, m, grads, k, j);
  }

  lemma AuditElement<E(!new)>(e: Arith<E>, m: Mesh, grads: seq<seq<E>>, k: nat, j: nat)
    requires m.Holds(grads, k) && j < m.dpShard * k
    ensures |AuditGradient(e, m, grads)| == m.dpShard * k
    ensures AuditGradient(e, m, grads)[j] == e.mul(m.dpRep, TreeSum(e, ShardAverages(e, m, grads, k, j)))
  {
    var p := Inners(e, m, grads, m.dpRep);
    forall rep | 0 <= rep < m.dpRep
      ensures |p[rep]| == m.dpShard * k && p[rep][j] == ShardAverages(e, m, grads, k, j)[rep]
    {
      LeftSumElement(e, m.Group(grads, rep), m.dpShard * k);
    }
    TreeSumElement(e, p, m.dpShard * k, j);
    assert Column(p, j) == ShardAverages(e, m, grads, k, j);
  }

  lemma AuditLength<E(!new)>(e: Arith<E>, m: Mesh, grads: seq<seq<E>>, k: nat)
    requires m.Holds(grads, k)
    ensures |AuditGradient(e, m, grads)| == m.dpShard * k
  {
    var p := Inners(e, m, grads, m.dpRep);
    forall rep | 0 <= rep < m.dpRep ensures |p[rep]| == m.dpShard * k {
      LeftSumElement(e, m.Group(grads, rep), m.dpShard * k);
    }
    TreeSumLength(e, p, m.dpShard * k);
  }

  lemma ClusterShardLength<E(!new)>(e: Arith<E>, m: Mesh, grads: seq<seq<E>>, k: nat, d: nat)
    requires m.Holds(grads, k) && d < m.dpShard
    ensures |ClusterShard(e, m, grads, k, d)| == k
  {
    var bufs := Scattered(e, m, grads, k, d);
    forall rep | 0 <= rep < m.dpRep ensures |bufs[rep]| == k {
      LeftSumElement(e, AllToAll(m.Group(grads, rep), k, d), k);
    }
    TreeSumLength(e, bufs, k);
  }

  /** Shard d of the cluster's gradient is chunk d of the audit's. */
  lemma ShardElement<E(!new)>(e: Arith<E>, m: Mesh, grads: seq<seq<E>>, k: nat, d: nat, i: nat, j: nat)
    requires m.Holds(grads, k) && d < m.dpShard && i < k && j == d * k + i && j < m.dpShard * k
    requires m.dpRep == 1 ==> OneIsNeutral(e)
    ensures |ClusterShard(e, m, grads, k, d)| == k && |AuditGradient(e, m, grads)| == m.dpShard * k
    ensures ClusterShard(e, m, grads, k, d)[i] == AuditGradient(e, m, grads)[j]
  {
    ClusterElement(e, m, grads, k, d, i, j);
    AuditElement(e, m, grads, k, j);
  }

  lemma ChunkEnds(d: nat, k: nat, n: nat)
    requires d < n
    ensures Times(d, k) == d * k && Times(d, k) + k <= n * k
  {
    RunBelow(d, 0, 1, n);
    MulMono(d + 1, n, k);
    assert (d + 1) * k == d * k + k;
  }

  lemma SliceIs<T>(x: seq<T>, a: nat, k: nat, c: seq<T>)
    requires a + k <= |x| && |c| == k && forall i :: 0 <= i < k ==> c[i] == x[a + i]
    ensures c == x[a..a + k]
  {}

  lemma ShardIsChunk<E(!new)>(e: Arith<E>, m: Mesh, grads: seq<seq<E>>, k: nat, d: nat)
    requires m.Holds(grads, k) && d < m.dpShard && (m.dpRep == 1 ==> OneIsNeutral(e))
    ensures |AuditGradient(e, m, grads)| == m.dpShard * k
    ensures ClusterShard(e, m, grads, k, d) == Chunk(AuditGradient(e, m, grads), m.dpShard, k, d)
  {
    AuditLength(e, m, grads, k);
    ClusterShardLength(e, m, grads, k, d);
    var a: nat := Times(d, k);
    ChunkEnds(d, k, m.dpShard);
    forall i | 0 <= i < k ensures ClusterShard(e, m, grads, k, d)[i] == AuditGradient(e, m, grads)[a + i] {
      ShardElement(e, m, grads, k, d, i, a + i);
    }
    SliceIs(AuditGradient(e, m, grads), a, k, ClusterShard(e, m, grads, k, d));
  }

  /**
   The replay claim. Whatever schedule the transfers of a shard's replicate group follow, once they
   are finished the average that shard d of any replicate holds is chunk d of the gradient a single
   device folds from the same per-rank gradients. A single replicate transfers nothing, and what its
   reduce-scatter left is that chunk.
  */
  lemma ClusterEqualsAudit<E(!new)>(
    e: Arith<E>, m: Mesh, grads: seq<seq<E>>, k: nat, d: nat, rep: nat, run: seq<Step>)
    requires m.Holds(grads, k) && d < m.dpShard && rep < m.dpRep && e.Commutes()
    requires m.dpRep == 1 ==> OneIsNeutral(e)
    requires Legal(Buffers(e), Programs(m.dpRep), Start(Scattered(e, m, grads, k, d)), run)
    requires Finished(Programs(m.dpRep), After(Buffers(e), Programs(m.dpRep), Start(Scattered(e, m, grads, k, d)), run))
    ensures |AuditGradient(e, m, grads)| == m.dpShard * k
    ensures var held := After(Buffers(e), Programs(m.dpRep), Start(Scattered(e, m, grads, k, d)), run)[rep].flat;
            Averaged(e, m.dpRep, held) == Chunk(AuditGradient(e, m, grads), m.dpShard, k, d)
    ensures m.dpRep == 1 ==>
      ScatterOut(e, m.Group(grads, rep), k, d, true) == Chunk(AuditGradient(e, m, grads), m.dpShard, k, d)
  {
    BuffersCommute(e);
    AllReduceIsSafe(Buffers(e), Scattered(e, m, grads, k, d), run);
    ShardIsChunk(e, m, grads, k, d);
    if m.dpRep == 1 {
      SumOfOne(Buffers(e), Scattered(e, m, grads, k, d));
    }
  }
}
