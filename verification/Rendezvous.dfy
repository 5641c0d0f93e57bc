/**
 Ranks that run fixed lists of blocking point-to-point operations.

 An operation waits for all of its transfers: a send half, a receive half, or both posted at once.
 A transfer happens only when the sender's current operation still has its send half open and the
 receiver's current operation still has its receive half open, so no message is ever buffered.
 Schedules are arbitrary: nothing below assumes an order between different ranks.
*/
module Rendezvous {
  import opened ReduceTree
  import opened Wrappers

  /**
   `to` and `from` are the peers of the two halves. On completion the buffer becomes
   `buffer + received` when `add` holds and `received` otherwise. `stamp` is a logical time that
   only the proofs read; no step depends on it.
  */
  datatype Op = Op(to: Option<nat>, from: Option<nat>, add: bool, stamp: nat)

  type Net = seq<seq<Op>>

  /** One rank: its position, which halves of the current operation are done, and its buffer. */
  datatype Proc<T> = Proc(pc: nat, sent: bool, got: Option<T>, flat: T)

  datatype Step = Transfer(src: nat, dst: nat) | Finish(rank: nat)

  predicate Running<T>(net: Net, st: seq<Proc<T>>, i: nat)
    requires |st| == |net|
  {
    i < |net| && st[i].pc < |net[i]|
  }

  predicate Enabled<T>(net: Net, st: seq<Proc<T>>, s: Step)
    requires |st| == |net|
  {
    match s
    case Transfer(i, j) =>
      && Running(net, st, i) && Running(net, st, j)
      && net[i][st[i].pc].to == Some(j) && !st[i].sent
      && net[j][st[j].pc].from == Some(i) && st[j].got.None?
    case Finish(i) =>
      && Running(net, st, i)
      && (net[i][st[i].pc].to.Some? ==> st[i].sent)
      && (net[i][st[i].pc].from.Some? ==> st[i].got.Some?)
  }

  function Combine<T(!new)>(a: Arith<T>, op: Op, flat: T, recv: T): T {
    if op.add then a.add(flat, recv) else recv
  }

  function Apply<T(!new)>(a: Arith<T>, net: Net, st: seq<Proc<T>>, s: Step): (r: seq<Proc<T>>)
    requires |st| == |net| && Enabled(net, st, s)
    ensures |r| == |st|
  {
    match s
    case Transfer(i, j) =>
      var st1 := st[i := st[i].(sent := true)];
      st1[j := st1[j].(got := Some(st[i].flat))]
    case Finish(i) =>
      var p := st[i];
      var flat := if p.got.Some? then Combine(a, net[i][p.pc], p.flat, p.got.value) else p.flat;
      st[i := Proc(p.pc + 1, false, None, flat)]
  }

  function Start<T>(init: seq<T>): seq<Proc<T>> {
    seq(|init|, i requires 0 <= i < |init| => Proc(0, false, None, init[i]))
  }

  /** A schedule is legal when each of its steps is enabled where it is taken. */
  ghost predicate Legal<T(!new)>(a: Arith<T>, net: Net, st: seq<Proc<T>>, run: seq<Step>)
    requires |st| == |net|
    decreases |run|
  {
    run != [] ==> Enabled(net, st, run[0]) && Legal(a, net, Apply(a, net, st, run[0]), run[1..])
  }

  ghost function After<T(!new)>(a: Arith<T>, net: Net, st: seq<Proc<T>>, run: seq<Step>): (r: seq<Proc<T>>)
    requires |st| == |net| && Legal(a, net, st, run)
    ensures |r| == |st|
    decreases |run|
  {
    if run == [] then st else After(a, net, Apply(a, net, st, run[0]), run[1..])
  }

  ghost predicate Finished<T>(net: Net, st: seq<Proc<T>>)
    requires |st| == |net|
  {
    forall i :: 0 <= i < |net| ==> st[i].pc == |net[i]|
  }

  // ----- what a well-wired set of programs satisfies ---------------------------------------

  /** Operation k of rank i sends to rank j, whose operation l at the same stamp receives it. */
  ghost predicate Matched(net: Net, i: nat, k: nat, j: nat, l: nat) {
    && i < |net| && k < |net[i]| && j < |net| && l < |net[j]|
    && net[i][k].to == Some(j) && net[j][l].from == Some(i)
    && net[i][k].stamp == net[j][l].stamp
  }

  ghost predicate Increasing(ops: seq<Op>) {
    forall k, l :: 0 <= k < l < |ops| ==> ops[k].stamp < ops[l].stamp
  }

  ghost predicate HasReceiver(net: Net, i: nat, k: nat)
    requires i < |net| && k < |net[i]| && net[i][k].to.Some?
  {
    exists l :: Matched(net, i, k, net[i][k].to.value, l)
  }

  ghost predicate HasSender(net: Net, j: nat, l: nat)
    requires j < |net| && l < |net[j]| && net[j][l].from.Some?
  {
    exists k :: Matched(net, net[j][l].from.value, k, j, l)
  }

  ghost predicate Wired(net: Net) {
    && (forall i {:trigger Increasing(net[i])} :: 0 <= i < |net| ==> Increasing(net[i]))
    && (forall i: nat, k: nat {:trigger HasReceiver(net, i, k)} ::
          i < |net| && k < |net[i]| && net[i][k].to.Some? ==> HasReceiver(net, i, k))
    && (forall j: nat, l: nat {:trigger HasSender(net, j, l)} ::
          j < |net| && l < |net[j]| && net[j][l].from.Some? ==> HasSender(net, j, l))
  }

  /** `val(i, k)` is the buffer of rank i before its operation k. */
  ghost predicate Values<T(!new)>(a: Arith<T>, net: Net, init: seq<T>, val: (nat, nat) -> T) {
    && |init| == |net|
    && (forall i: nat :: i < |net| ==> val(i, 0) == init[i])
    && (forall j: nat, l: nat :: j < |net| && l < |net[j]| && net[j][l].from.None? ==>
          val(j, l + 1) == val(j, l))
    && (forall i: nat, k: nat, j: nat, l: nat :: Matched(net, i, k, j, l) ==>
          val(j, l + 1) == Combine(a, net[j][l], val(j, l), val(i, k)))
  }

  // ----- the invariant ---------------------------------------------------------------------

  ghost predicate SentBy<T>(p: Proc<T>, k: nat) {
    p.pc > k || (p.pc == k && p.sent)
  }

  ghost predicate GotBy<T>(p: Proc<T>, l: nat) {
    p.pc > l || (p.pc == l && p.got.Some?)
  }

  ghost predicate ProcOk<T(!new)>(ops: seq<Op>, val: (nat, nat) -> T, i: nat, p: Proc<T>) {
    && p.pc <= |ops|
    && p.flat == val(i, p.pc)
    && (p.sent ==> p.pc < |ops| && ops[p.pc].to.Some?)
    && (p.got.Some? ==> p.pc < |ops| && ops[p.pc].from.Some?)
  }

  ghost predicate Inv<T(!new)>(net: Net, val: (nat, nat) -> T, st: seq<Proc<T>>) {
    && |st| == |net|
    && (forall i :: 0 <= i < |net| ==> ProcOk(net[i], val, i, st[i]))
    && (forall i: nat, k: nat, j: nat, l: nat :: Matched(net, i, k, j, l) ==>
          && (SentBy(st[i], k) <==> GotBy(st[j], l))
          && (st[j].pc == l && st[j].got.Some? ==> st[j].got.value == val(i, k)))
  }

  lemma InitInv<T(!new)>(a: Arith<T>, net: Net, init: seq<T>, val: (nat, nat) -> T)
    requires Values(a, net, init, val)
    ensures Inv(net, val, Start(init))
  {}

  /** A transfer only ever joins two halves of the same stamp: messages cannot be mixed up. */
  lemma TransferIsMatched<T(!new)>(net: Net, val: (nat, nat) -> T, st: seq<Proc<T>>, i: nat, j: nat)
    requires Wired(net) && Inv(net, val, st) && Enabled(net, st, Transfer(i, j))
    ensures Matched(net, i, st[i].pc, j, st[j].pc)
  {
    var k, l := st[i].pc, st[j].pc;
    assert HasReceiver(net, i, k) && HasSender(net, j, l);
    var l': nat :| Matched(net, i, k, j, l');
    var k': nat :| Matched(net, i, k', j, l);
    assert !SentBy(st[i], k) && !GotBy(st[j], l);
    assert !GotBy(st[j], l') && !SentBy(st[i], k');
    assert l <= l' && k <= k';
    assert Increasing(net[i]) && Increasing(net[j]);
  }

  /** At most one operation of a rank carries a given stamp, so matches are unique. */
  lemma MatchUnique(net: Net, i: nat, k: nat, j: nat, l: nat, i': nat, k': nat, l': nat)
    requires Wired(net) && Matched(net, i, k, j, l)
    ensures Matched(net, i, k, j, l') ==> l == l'
    ensures Matched(net, i', k', j, l) ==> i == i' && k == k'
  {
    assert Increasing(net[i]) && Increasing(net[j]);
  }

  lemma TransferKeeps<T(!new)>(
    a: Arith<T>, net: Net, init: seq<T>, val: (nat, nat) -> T, st: seq<Proc<T>>, i: nat, j: nat)
    requires Wired(net) && Values(a, net, init, val) && Inv(net, val, st)
    requires Enabled(net, st, Transfer(i, j))
    ensures Inv(net, val, Apply(a, net, st, Transfer(i, j)))
  {
    var st' := Apply(a, net, st, Transfer(i, j));
    var ki, lj := st[i].pc, st[j].pc;
    TransferIsMatched(net, val, st, i, j);
    forall i': nat, k: nat, j': nat, l: nat | Matched(net, i', k, j', l)
      ensures SentBy(st'[i'], k) <==> GotBy(st'[j'], l)
      ensures st'[j'].pc == l && st'[j'].got.Some? ==> st'[j'].got.value == val(i', k)
    {
      assert SentBy(st[i'], k) <==> GotBy(st[j'], l);
      assert Increasing(net[i']) && Increasing(net[j']);
      if i' == i && k == ki {
        MatchUnique(net, i, ki, j, lj, i', k, l);
      } else if j' == j && l == lj {
        MatchUnique(net, i, ki, j, lj, i', k, l);
      }
    }
  }

  lemma FinishKeeps<T(!new)>(
    a: Arith<T>, net: Net, init: seq<T>, val: (nat, nat) -> T, st: seq<Proc<T>>, r: nat)
    requires Wired(net) && Values(a, net, init, val) && Inv(net, val, st)
    requires Enabled(net, st, Finish(r))
    ensures Inv(net, val, Apply(a, net, st, Finish(r)))
  {
    var st' := Apply(a, net, st, Finish(r));
    var k := st[r].pc;
    if net[r][k].from.Some? {
      assert HasSender(net, r, k);
      var k': nat :| Matched(net, net[r][k].from.value, k', r, k);
    }
    assert ProcOk(net[r], val, r, st'[r]);
    forall i': nat, k': nat, j': nat, l: nat | Matched(net, i', k', j', l)
      ensures SentBy(st'[i'], k') <==> GotBy(st'[j'], l)
      ensures st'[j'].pc == l && st'[j'].got.Some? ==> st'[j'].got.value == val(i', k')
    {
      assert SentBy(st[i'], k') <==> GotBy(st[j'], l);
    }
  }

  lemma StepKeeps<T(!new)>(
    a: Arith<T>, net: Net, init: seq<T>, val: (nat, nat) -> T, st: seq<Proc<T>>, s: Step)
    requires Wired(net) && Values(a, net, init, val) && Inv(net, val, st) && Enabled(net, st, s)
    ensures Inv(net, val, Apply(a, net, st, s))
  {
    match s
    case Transfer(i, j) => TransferKeeps(a, net, init, val, st, i, j);
    case Finish(r) => FinishKeeps(a, net, init, val, st, r);
  }

  // ----- no deadlock -----------------------------------------------------------------------

  /** Among the ranks below n that still run, one with the least current stamp. */
  lemma {:induction false} Earliest<T>(net: Net, st: seq<Proc<T>>, n: nat) returns (m: nat)
    requires |st| == |net| && n <= |net|
    requires exists i :: 0 <= i < n && Running(net, st, i)
    ensures m < n && Running(net, st, m)
    ensures forall i :: 0 <= i < n && Running(net, st, i) ==>
      net[m][st[m].pc].stamp <= net[i][st[i].pc].stamp
  {
    if exists i :: 0 <= i < n - 1 && Running(net, st, i) {
      m := Earliest(net, st, n - 1);
      if Running(net, st, n - 1) && net[n - 1][st[n - 1].pc].stamp < net[m][st[m].pc].stamp {
        m := n - 1;
      }
    } else {
      m := n - 1;
    }
  }

  /** Whatever has happened so far, some rank can move until all have finished. */
  lemma Progress<T(!new)>(net: Net, val: (nat, nat) -> T, st: seq<Proc<T>>) returns (s: Step)
    requires Wired(net) && Inv(net, val, st) && !Finished(net, st)
    ensures Enabled(net, st, s)
  {
    assert forall i :: 0 <= i < |net| ==> ProcOk(net[i], val, i, st[i]);
    var u :| 0 <= u < |net| && st[u].pc != |net[u]|;
    assert Running(net, st, u);
    var m := Earliest(net, st, |net|);
    var k := st[m].pc;
    var op := net[m][k];
    if op.to.Some? && !st[m].sent {
      var j := op.to.value;
      assert HasReceiver(net, m, k);
      var l: nat :| Matched(net, m, k, j, l);
      assert !SentBy(st[m], k) && !GotBy(st[j], l);
      assert Increasing(net[j]) && Running(net, st, j);
      assert st[j].pc == l;
      s := Transfer(m, j);
    } else if op.from.Some? && st[m].got.None? {
      var i := op.from.value;
      assert HasSender(net, m, k);
      var l: nat :| Matched(net, i, l, m, k);
      assert !GotBy(st[m], k) && !SentBy(st[i], l);
      assert Increasing(net[i]) && Running(net, st, i);
      assert st[i].pc == l;
      s := Transfer(i, m);
    } else {
      s := Finish(m);
    }
  }

  // ----- termination -----------------------------------------------------------------------

  function Left<T>(ops: seq<Op>, p: Proc<T>): nat
    requires p.pc <= |ops|
    requires p.sent || p.got.Some? ==> p.pc < |ops|
  {
    3 * (|ops| - p.pc) - (if p.sent then 1 else 0) - (if p.got.Some? then 1 else 0)
  }

  ghost function Work<T(!new)>(net: Net, val: (nat, nat) -> T, st: seq<Proc<T>>, n: nat): nat
    requires Inv(net, val, st) && n <= |net|
  {
    if n == 0 then 0
    else
      assert ProcOk(net[n - 1], val, n - 1, st[n - 1]);
      Left(net[n - 1], st[n - 1]) + Work(net, val, st, n - 1)
  }

  /** Changing ranks in `moved` only changes their own share of the work. */
  lemma {:induction false} WorkMono<T(!new)>(
    net: Net, val: (nat, nat) -> T, st: seq<Proc<T>>, st': seq<Proc<T>>, n: nat, r: nat)
    requires Inv(net, val, st) && Inv(net, val, st') && n <= |net| && r < |net|
    requires forall i :: 0 <= i < |net| ==>
      ProcOk(net[i], val, i, st[i]) && ProcOk(net[i], val, i, st'[i]) &&
      Left(net[i], st'[i]) <= Left(net[i], st[i])
    requires Left(net[r], st'[r]) < Left(net[r], st[r])
    ensures Work(net, val, st', n) <= Work(net, val, st, n)
    ensures r < n ==> Work(net, val, st', n) < Work(net, val, st, n)
  {
    if n == 0 {
    } else {
      WorkMono(net, val, st, st', n - 1, r);
    }
  }

  lemma WorkDrops<T(!new)>(
    a: Arith<T>, net: Net, init: seq<T>, val: (nat, nat) -> T, st: seq<Proc<T>>, s: Step)
    requires Wired(net) && Values(a, net, init, val) && Inv(net, val, st) && Enabled(net, st, s)
    requires Inv(net, val, Apply(a, net, st, s))
    ensures Work(net, val, Apply(a, net, st, s), |net|) < Work(net, val, st, |net|)
  {
    var st' := Apply(a, net, st, s);
    assert forall i :: 0 <= i < |net| ==>
      ProcOk(net[i], val, i, st[i]) && ProcOk(net[i], val, i, st'[i]);
    match s
    case Transfer(i, j) => WorkMono(net, val, st, st', |net|, i);
    case Finish(r) => WorkMono(net, val, st, st', |net|, r);
  }

  // ----- whole runs ------------------------------------------------------------------------

  /** Every legal run keeps the invariant, and its length is bounded by the work it consumes. */
  lemma {:induction false} RunKeeps<T(!new)>(
    a: Arith<T>, net: Net, init: seq<T>, val: (nat, nat) -> T, st: seq<Proc<T>>, run: seq<Step>)
    requires Wired(net) && Values(a, net, init, val) && Inv(net, val, st) && Legal(a, net, st, run)
    ensures Inv(net, val, After(a, net, st, run))
    ensures |run| + Work(net, val, After(a, net, st, run), |net|) <= Work(net, val, st, |net|)
    decreases |run|
  {
    if run == [] {
    } else {
      StepKeeps(a, net, init, val, st, run[0]);
      WorkDrops(a, net, init, val, st, run[0]);
      RunKeeps(a, net, init, val, Apply(a, net, st, run[0]), run[1..]);
    }
  }
}
