/**
 The replicate all-reduce hook. In bucketed mode each module's shard is stashed during backward and
 one coalesced reduction at the end writes all of them; in immediate mode each is reduced at once.

 A collective call takes the staging buffers that all ranks of the group bring to it.
*/
module CoalescedHook {
  import opened Arithmetic
  import opened Powers
  import opened ReduceTree
  import opened Rendezvous
  import opened AllReduce
  import opened GradientReduce
  import opened Sequences

  /** What every rank receives from one all-reduce of these per-rank buffers. */
  function AllReduceAvg<E(!new)>(e: Arith<E>, staged: seq<seq<E>>): seq<E>
    requires staged != []
  {
    ScaleAll(e, |staged|, TreeSum(Buffers(e), staged))
  }

  /** Offset of piece b in the concatenation. */
  function Offset<E>(xs: seq<seq<E>>, b: nat): nat
    requires b <= |xs|
  {
    if b == 0 then 0 else Offset(xs, b - 1) + |xs[b - 1]|
  }

  lemma {:induction false} ConcatPrefix<E>(xs: seq<seq<E>>, b: nat)
    requires b <= |xs|
    ensures Offset(xs, b) == |Flat(xs[..b])| <= |Flat(xs)|
    ensures Flat(xs)[..Offset(xs, b)] == Flat(xs[..b])
    decreases |xs| - b, b
  {
    ConcatLength(xs, b);
    if b == |xs| {
      assert xs[..b] == xs;
    } else {
      ConcatPrefix(xs, b + 1);
      ConcatLength(xs, b + 1);
      assert xs[..b + 1][..b] == xs[..b];
    }
  }

  lemma {:induction false} ConcatLength<E>(xs: seq<seq<E>>, b: nat)
    requires b <= |xs|
    ensures Offset(xs, b) == |Flat(xs[..b])|
  {
    if b == 0 {
    } else {
      ConcatLength(xs, b - 1);
      assert xs[..b][..b - 1] == xs[..b - 1];
    }
  }

  /** Piece b of the concatenation. */
  lemma ConcatPiece<E>(xs: seq<seq<E>>, b: nat)
    requires b < |xs|
    ensures Offset(xs, b) + |xs[b]| <= |Flat(xs)|
    ensures Flat(xs)[Offset(xs, b)..Offset(xs, b) + |xs[b]|] == xs[b]
  {
    hide *;
    ConcatPrefix(xs, b);
    ConcatPrefix(xs, b + 1);
    FlatPrefix(xs, b + 1);
    EndOfPrefix(Flat(xs), Flat(xs[..b]), xs[b]);
  }

  lemma EndOfPrefix<E>(all: seq<E>, before: seq<E>, x: seq<E>)
    requires |before| + |x| <= |all| && all[..|before| + |x|] == before + x
    ensures all[|before|..|before| + |x|] == x
  {
    assert all[|before|..|before| + |x|] == all[..|before| + |x|][|before|..];
  }

  /** Pieces of the same sizes sit at the same offsets. */
  lemma {:induction false} SameOffset<E>(xs: seq<seq<E>>, ys: seq<seq<E>>, b: nat)
    requires |xs| == |ys| && b <= |xs| && forall i :: 0 <= i < |xs| ==> |xs[i]| == |ys[i]|
    ensures Offset(xs, b) == Offset(ys, b)
  {
    if b == 0 {
    } else {
      SameOffset(xs, ys, b - 1);
    }
  }

  /** The pieces each rank stages, rank by rank: same number and same sizes everywhere. */
  ghost predicate Agreed<E>(pieces: seq<seq<seq<E>>>) {
    forall q, r, b :: 0 <= q < |pieces| && 0 <= r < |pieces| && 0 <= b < |pieces[r]| ==>
      |pieces[q]| == |pieces[r]| && |pieces[q][b]| == |pieces[r][b]|
  }

  function Staged<E>(pieces: seq<seq<seq<E>>>): (s: seq<seq<E>>)
    ensures |s| == |pieces|
  {
    seq(|pieces|, q requires 0 <= q < |pieces| => Flat(pieces[q]))
  }

  /** Piece b of every rank. */
  function Piece<E>(pieces: seq<seq<seq<E>>>, b: nat): (s: seq<seq<E>>)
    requires forall q :: 0 <= q < |pieces| ==> b < |pieces[q]|
    ensures |s| == |pieces|
  {
    seq(|pieces|, q requires 0 <= q < |pieces| => pieces[q][b])
  }

  /** Reducing and then cutting a window out is cutting first and then reducing. */
  lemma WindowOfReduce<E(!new)>(
    e: Arith<E>, all: seq<seq<E>>, one: seq<seq<E>>, k: nat, off: nat, n: nat)
    requires all != [] && |all| == |one| && Uniform(all, k) && Uniform(one, n) && off + n <= k
    requires forall q, i :: 0 <= q < |all| && 0 <= i < n ==> all[q][off + i] == one[q][i]
    ensures |AllReduceAvg(e, all)| == k
    ensures AllReduceAvg(e, all)[off..off + n] == AllReduceAvg(e, one)
  {
    TreeSumLength(e, all, k);
    TreeSumLength(e, one, n);
    var x, y := AllReduceAvg(e, all), AllReduceAvg(e, one);
    forall i | 0 <= i < n ensures x[off..off + n][i] == y[i] {
      TreeSumElement(e, all, k, off + i);
      TreeSumElement(e, one, n, i);
      assert Column(all, off + i) == Column(one, i);
    }
  }

  lemma PieceOfRank<E>(pieces: seq<seq<seq<E>>>, rank: nat, q: nat, b: nat)
    requires rank < |pieces| && q < |pieces| && Agreed(pieces) && b < |pieces[rank]|
    ensures b < |pieces[q]| && |pieces[q][b]| == |pieces[rank][b]|
    ensures |Flat(pieces[q])| == |Flat(pieces[rank])|
    ensures var off := Offset(pieces[rank], b);
            && off + |pieces[q][b]| <= |Flat(pieces[q])|
            && Flat(pieces[q])[off..off + |pieces[q][b]|] == pieces[q][b]
  {
    var xs, own := pieces[q], pieces[rank];
    assert |xs| == |own| && forall i :: 0 <= i < |own| ==> |xs[i]| == |own[i]|;
    SameOffset(xs, own, b);
    SameOffset(xs, own, |own|);
    ConcatPiece(xs, b);
    ConcatPrefix(xs, |xs|);
    ConcatPrefix(own, |own|);
    assert xs[..|xs|] == xs && own[..|own|] == own;
  }

  lemma SliceElements<E>(x: seq<E>, off: nat, n: nat, s: seq<E>)
    requires off + n <= |x| && x[off..off + n] == s
    ensures forall i :: 0 <= i < n ==> x[off + i] == s[i]
  {
    forall i | 0 <= i < n ensures x[off + i] == s[i] {
      assert x[off..off + n][i] == x[off + i];
    }
  }

  /** Reducing the concatenation and cutting piece b out is reducing piece b on its own. */
  lemma CoalescedPiece<E(!new)>(e: Arith<E>, pieces: seq<seq<seq<E>>>, rank: nat, b: nat)
    requires rank < |pieces| && Agreed(pieces) && b < |pieces[rank]|
    ensures forall q :: 0 <= q < |pieces| ==> b < |pieces[q]|
    ensures var off, n := Offset(pieces[rank], b), |pieces[rank][b]|;
            && off + n <= |AllReduceAvg(e, Staged(pieces))|
            && AllReduceAvg(e, Staged(pieces))[off..off + n] == AllReduceAvg(e, Piece(pieces, b))
  {
    var off, n, k := Offset(pieces[rank], b), |pieces[rank][b]|, |Flat(pieces[rank])|;
    forall q | 0 <= q < |pieces|
      ensures b < |pieces[q]| && |pieces[q][b]| == n && |Flat(pieces[q])| == k && off + n <= k
      ensures forall i :: 0 <= i < n ==> Flat(pieces[q])[off + i] == pieces[q][b][i]
    {
      PieceOfRank(pieces, rank, q, b);
      SliceElements(Flat(pieces[q]), off, n, pieces[q][b]);
    }
    WindowOfReduce(e, Staged(pieces), Piece(pieces, b), k, off, n);
  }

  // ----- ascending install indices ----------------------------------------------------------------

  predicate IsLeast(m: nat, s: set<nat>) {
    m in s && forall x :: x in s ==> m <= x
  }

  lemma {:induction false} MinExists(s: set<nat>)
    requires s != {}
    ensures exists m :: IsLeast(m, s)
  {
    var y :| y in s;
    var rest := s - {y};
    if rest == {} {
      assert s == {y};
      assert IsLeast(y, s);
    } else {
      MinExists(rest);
      var m :| IsLeast(m, rest);
      assert s == rest + {y};
      assert IsLeast(if y < m then y else m, s);
    }
  }

  function Min(s: set<nat>): (m: nat)
    requires s != {}
    ensures m in s && forall x :: x in s ==> m <= x
  {
    MinExists(s);
    var m :| IsLeast(m, s);
    m
  }

  /** `sorted(pending)`. */
  function Sorted(s: set<nat>): (keys: seq<nat>)
    ensures forall x :: x in keys <==> x in s
    ensures forall i, j :: 0 <= i < j < |keys| ==> keys[i] < keys[j]
    decreases |s|
  {
    if s == {} then [] else [Min(s)] + Sorted(s - {Min(s)})
  }

  /** The contents to stage, in key order. */
  function InOrder<E>(m: map<nat, seq<E>>, keys: seq<nat>): (xs: seq<seq<E>>)
    requires forall k :: k in keys ==> k in m
    ensures |xs| == |keys|
  {
    seq(|keys|, i requires 0 <= i < |keys| => m[keys[i]])
  }

  function AllInOrder<E>(all: seq<map<nat, seq<E>>>, keys: seq<nat>): (pieces: seq<seq<seq<E>>>)
    requires forall q :: 0 <= q < |all| ==> forall k :: k in keys ==> k in all[q]
    ensures |pieces| == |all| && forall q :: 0 <= q < |pieces| ==> |pieces[q]| == |keys|
    ensures forall q :: 0 <= q < |pieces| ==> pieces[q] == InOrder(all[q], keys)
  {
    seq(|all|, q requires 0 <= q < |all| && forall k :: k in keys ==> k in all[q] => InOrder(all[q], keys))
  }

  /** The shards the ranks bring for module i. */
  function Shards<E>(all: seq<map<nat, seq<E>>>, i: nat): (s: seq<seq<E>>)
    ensures |s| == |all|
  {
    seq(|all|, q requires 0 <= q < |all| => if i in all[q] then all[q][i] else [])
  }

  lemma PieceIsShards<E>(all: seq<map<nat, seq<E>>>, keys: seq<nat>, pieces: seq<seq<seq<E>>>, b: nat)
    requires |pieces| == |all| && b < |keys| && forall q :: 0 <= q < |pieces| ==> |pieces[q]| == |keys|
    requires forall q :: 0 <= q < |all| ==> forall k :: k in keys ==> k in all[q]
    requires forall q :: 0 <= q < |all| ==> pieces[q] == InOrder(all[q], keys)
    ensures Piece(pieces, b) == Shards(all, keys[b])
  {}

  /** The stash after the hooks fired in this order. */
  function Stash<V>(order: seq<nat>, shards: map<nat, V>): map<nat, V>
    requires forall i :: i in order ==> i in shards
  {
    if order == [] then map[] else Stash(order[..|order| - 1], shards)[order[|order| - 1] := shards[order[|order| - 1]]]
  }

  /** Ranks whose hooks fire in different orders over the same modules stash the same thing. */
  lemma {:induction false} StashIgnoresOrder<V>(order: seq<nat>, shards: map<nat, V>)
    requires forall i :: i in order ==> i in shards
    ensures Stash(order, shards) == map i | i in order :: shards[i]
  {
    if order == [] {
    } else {
      var init, last := order[..|order| - 1], order[|order| - 1];
      StashIgnoresOrder(init, shards);
      assert order == init + [last];
    }
  }

  /** Each of these modules' hooks fires once. */
  ghost predicate Fires(order: seq<nat>, modules: set<nat>) {
    && (forall i :: i in order <==> i in modules)
    && forall a, b :: 0 <= a < b < |order| ==> order[a] != order[b]
  }

  lemma FiresOwn(orders: seq<seq<nat>>, modules: set<nat>, rank: nat)
    requires rank < |orders| && forall q :: 0 <= q < |orders| ==> Fires(orders[q], modules)
    ensures Fires(orders[rank], modules)
  {}

  /** The modules among the first k to fire. */
  ghost function Fired(order: seq<nat>, k: nat): set<nat>
    requires k <= |order|
  {
    set a | 0 <= a < k :: order[a]
  }

  lemma FiredNext(order: seq<nat>, k: nat)
    requires k < |order| && forall a, b :: 0 <= a < b < |order| ==> order[a] != order[b]
    ensures order[k] !in Fired(order, k) && Fired(order, k + 1) == Fired(order, k) + {order[k]}
  {}

  /** What each rank has stashed after its own firing order; nothing without bucketing. */
  function Stashes<V>(orders: seq<seq<nat>>, shards: seq<map<nat, V>>, bucketed: bool): (s: seq<map<nat, V>>)
    requires |orders| == |shards|
    requires forall q, i :: 0 <= q < |orders| && i in orders[q] ==> i in shards[q]
    ensures |s| == |shards|
  {
    seq(|shards|, q requires 0 <= q < |shards| && forall i :: i in orders[q] ==> i in shards[q] =>
      if bucketed then Stash(orders[q], shards[q]) else map[])
  }

  /** Whatever the orders, every rank has stashed the same: all its shards. */
  lemma StashesAre<V>(orders: seq<seq<nat>>, shards: seq<map<nat, V>>, modules: set<nat>, bucketed: bool)
    requires |orders| == |shards|
    requires forall q :: 0 <= q < |orders| ==> Fires(orders[q], modules) && shards[q].Keys == modules
    ensures forall q, i :: 0 <= q < |orders| && i in orders[q] ==> i in shards[q]
    ensures bucketed ==> Stashes(orders, shards, bucketed) == shards
    ensures !bucketed ==> forall q :: 0 <= q < |shards| ==> Stashes(orders, shards, bucketed)[q] == map[]
  {
    if bucketed {
      forall q | 0 <= q < |shards| ensures Stashes(orders, shards, bucketed)[q] == shards[q] {
        StashIgnoresOrder(orders[q], shards[q]);
        assert forall i :: i in orders[q] <==> i in shards[q];
      }
    }
  }

  // ----- which calls meet ---------------------------------------------------------------------------

  /**
   What the ranks bring to their k-th immediate call: transfers between two ranks pair in the order of the
   calls, so every rank brings the k-th module of its own firing order.
  */
  function Called<E>(orders: seq<seq<nat>>, shards: seq<map<nat, seq<E>>>, k: nat): (s: seq<seq<E>>)
    ensures |s| == |shards|
  {
    seq(|shards|, q requires 0 <= q < |shards| =>
      if q < |orders| && k < |orders[q]| && orders[q][k] in shards[q] then shards[q][orders[q][k]] else [])
  }

  lemma OwnCall<E>(orders: seq<seq<nat>>, shards: seq<map<nat, seq<E>>>, q: nat, k: nat)
    requires q < |orders| == |shards| && k < |orders[q]| && orders[q][k] in shards[q]
    ensures Called(orders, shards, k)[q] == shards[q][orders[q][k]]
  {}

  /** When all ranks fire in one order, the k-th call reduces the shards of one module. */
  lemma OneOrderCalls<E>(orders: seq<seq<nat>>, shards: seq<map<nat, seq<E>>>, order: seq<nat>, k: nat)
    requires |orders| == |shards| && k < |order| && forall q :: 0 <= q < |orders| ==> orders[q] == order
    ensures Called(orders, shards, k) == Shards(shards, order[k])
  {}

  /** Every shard is one tagged element, and the tags of one rank differ between modules. */
  ghost predicate Tagged(shards: seq<map<nat, seq<Expr>>>, modules: set<nat>, tag: (nat, nat) -> nat) {
    && (forall q :: 0 <= q < |shards| ==> shards[q].Keys == modules)
    && (forall q, i :: 0 <= q < |shards| && i in modules ==> i in shards[q] && shards[q][i] == [Rank(tag(q, i))])
    && (forall q: nat, i: nat, j: nat :: i in modules && j in modules && tag(q, i) == tag(q, j) ==> i == j)
  }

  /** Every leaf replaced by its tag. */
  function Retagged(tags: seq<nat>, leaves: seq<nat>): (r: seq<nat>)
    ensures |r| == |leaves| && forall i :: 0 <= i < |r| && leaves[i] < |tags| ==> r[i] == tags[leaves[i]]
  {
    seq(|leaves|, i requires 0 <= i < |leaves| => if leaves[i] < |tags| then tags[leaves[i]] else 0)
  }

  function Retags(tags: seq<nat>): (Expr, Expr) -> bool {
    (x: Expr, u: Expr) => Leaves(x) == Retagged(tags, Leaves(u))
  }

  lemma RetagsPreserved(tags: seq<nat>)
    ensures Preserves(FreeArith(), FreeArith(), Retags(tags))
  {
    hide Retagged;
    var rel := Retags(tags);
    forall x, y, u, v | rel(x, u) && rel(y, v) ensures rel(FreeArith().add(x, y), FreeArith().add(u, v)) {
      RetaggedConcat(tags, Leaves(u), Leaves(v));
    }
  }

  lemma RetaggedConcat(tags: seq<nat>, x: seq<nat>, y: seq<nat>)
    ensures Retagged(tags, x + y) == Retagged(tags, x) + Retagged(tags, y)
  {}

  /** The sum of tagged elements names their tags, in order. */
  lemma TagsOfSum(column: seq<Expr>, tags: seq<nat>)
    requires column != [] && |tags| == |column| && forall q :: 0 <= q < |column| ==> column[q] == Rank(tags[q])
    ensures Leaves(TreeSum(FreeArith(), column)) == tags
  {
    var n := |column|;
    RetagsPreserved(tags);
    forall q | 0 <= q < n ensures Retags(tags)(column[q], Ranks(0, n)[q]) {
      assert Leaves(column[q]) == [tags[q]];
    }
    TreeSumRelates(FreeArith(), FreeArith(), column, Ranks(0, n), Retags(tags));
    TreeUsesEveryRankOnce(n);
    assert Retagged(tags, Iota(0, n)) == tags;
  }

  /** The reduction of single tagged elements names exactly their tags, in rank order. */
  lemma TagsOfReduce(staged: seq<seq<Expr>>, tags: seq<nat>)
    requires staged != [] && |tags| == |staged|
    requires forall q :: 0 <= q < |staged| ==> staged[q] == [Rank(tags[q])]
    ensures |AllReduceAvg(FreeArith(), staged)| == 1
    ensures Leaves(AllReduceAvg(FreeArith(), staged)[0]) == tags
  {
    hide TreeSum;
    TreeSumElement(FreeArith(), staged, 1, 0);
    TagsOfSum(Column(staged, 0), tags);
  }

  // ----- the hook ---------------------------------------------------------------------------------

  class ReplicateAllReduce<E(!new)> {
    const arith: Arith<E>
    const ws: nat
    const rank: nat
    const bucketed: bool
    var pending: map<nat, array<E>>

    constructor (arith: Arith<E>, ws: nat, rank: nat, bucketed: bool)
      requires rank < ws
      ensures pending == map[] && this.arith == arith && this.ws == ws && this.rank == rank
      ensures this.bucketed == bucketed
    {
      this.arith := arith;
      this.ws := ws;
      this.rank := rank;
      this.bucketed := bucketed;
      pending := map[];
    }

    ghost predicate Valid()
      reads this
    {
      && rank < ws
      && forall i, j :: i in pending && j in pending && i != j ==> pending[i] != pending[j]
    }

    /** What is stashed, by install index. */
    ghost function Contents(): map<nat, seq<E>>
      reads this, pending.Values
    {
      map i | i in pending :: pending[i][..]
    }

    /** The shards every rank of the group has stashed; `all[rank]` are this rank's own. */
    ghost predicate Matches(all: seq<map<nat, seq<E>>>)
      reads this, pending.Values
    {
      && |all| == ws && rank < ws && all[rank] == Contents()
      && (forall q :: 0 <= q < ws ==> all[q].Keys == pending.Keys)
      && (forall q, i :: 0 <= q < ws && i in pending ==> i in all[q] && |all[q][i]| == pending[i].Length)
    }

    /**
     `on_module`: stash in bucketed mode, reduce at once otherwise. `peers` is what the ranks bring to the
     collective this call starts; the stash mode starts none.
    */
    method OnModule(idx: nat, buf: array<E>, peers: seq<seq<E>>)
      requires Valid()
      requires ws > 1 && !bucketed ==> |peers| == ws && peers[rank] == buf[..] && Uniform(peers, buf.Length)
      requires forall i :: i in pending && i != idx ==> pending[i] != buf
      modifies this, buf
      ensures Valid()
      ensures ws <= 1 ==> pending == old(pending) && buf[..] == old(buf[..])
      ensures ws > 1 && bucketed ==> pending == old(pending)[idx := buf] && buf[..] == old(buf[..])
      ensures ws > 1 && !bucketed ==> pending == old(pending) && buf[..] == AllReduceAvg(arith, peers)
    {
      if ws <= 1 {
        return;
      }
      if bucketed {
        pending := pending[idx := buf];
      } else {
        ghost var pieces := seq(ws, q requires 0 <= q < ws => [peers[q]]);
        SinglePieces(peers, pieces);
        ReduceBuffers([buf], pieces, peers);
        assert Piece(pieces, 0) == peers;
      }
    }

    lemma SinglePieces(peers: seq<seq<E>>, pieces: seq<seq<seq<E>>>)
      requires |pieces| == |peers| && forall q :: 0 <= q < |peers| ==> pieces[q] == [peers[q]]
      ensures Staged(pieces) == peers
    {
      forall q | 0 <= q < |peers| ensures Flat(pieces[q]) == peers[q] {
        assert pieces[q][..0] == [];
      }
    }

    /**
     `_reduce_buffers`: one all-reduce over the coalesced buffers, scattered back in place.
     `staged` is what the ranks bring to the collective.
    */
    method ReduceBuffers(bufs: seq<array<E>>, ghost pieces: seq<seq<seq<E>>>, staged: seq<seq<E>>)
      requires rank < ws == |pieces| && Agreed(pieces) && staged == Staged(pieces)
      requires |pieces[rank]| == |bufs|
      requires forall b :: 0 <= b < |bufs| ==> pieces[rank][b] == bufs[b][..]
      requires forall b, c :: 0 <= b < c < |bufs| ==> bufs[b] != bufs[c]
      modifies bufs
      ensures forall b :: 0 <= b < |bufs| ==>
        (forall q :: 0 <= q < |pieces| ==> b < |pieces[q]|) &&
        bufs[b][..] == AllReduceAvg(arith, Piece(pieces, b))
    {
      hide AllReduceAvg, Staged, Agreed;
      var reduced := AllReduceAvg(arith, staged);
      ghost var own := pieces[rank];
      var off := 0;
      for b := 0 to |bufs|
        invariant off == Offset(own, b)
        invariant forall c :: 0 <= c < b ==>
          (forall q :: 0 <= q < |pieces| ==> c < |pieces[q]|) &&
          bufs[c][..] == AllReduceAvg(arith, Piece(pieces, c))
        invariant forall c :: b <= c < |bufs| ==> bufs[c][..] == own[c]
      {
        CoalescedPiece(arith, pieces, rank, b);
        var n := bufs[b].Length;
        CopyInto(bufs[b], reduced[off..off + n]);
        off := off + n;
      }
    }

    /** `b.copy_(x)`. */
    method CopyInto(b: array<E>, x: seq<E>)
      requires b.Length == |x|
      modifies b
      ensures b[..] == x
    {
      forall i | 0 <= i < b.Length {
        b[i] := x[i];
      }
    }

    function StashedInOrder(keys: seq<nat>): (bufs: seq<array<E>>)
      requires forall k :: k in keys ==> k in pending
      reads this
      ensures |bufs| == |keys| && forall b :: 0 <= b < |bufs| ==> bufs[b] == pending[keys[b]]
    {
      seq(|keys|, b requires 0 <= b < |keys| && keys[b] in pending reads this => pending[keys[b]])
    }

    lemma PiecesAgree(all: seq<map<nat, seq<E>>>, keys: seq<nat>, pieces: seq<seq<seq<E>>>)
      requires Matches(all) && forall k :: k in keys ==> k in pending
      requires pieces == AllInOrder(all, keys)
      ensures Agreed(pieces)
    {
      forall q, b | 0 <= q < |pieces| && 0 <= b < |keys| ensures |pieces[q][b]| == pending[keys[b]].Length {
        assert pieces[q] == InOrder(all[q], keys) && keys[b] in all[q];
      }
    }

    /** One coalesced reduction of everything stashed, in ascending install index. */
    method ReduceStash(all: seq<map<nat, seq<E>>>)
      requires Valid() && Matches(all) && pending != map[]
      modifies pending.Values
      ensures forall i :: i in pending ==> pending[i][..] == AllReduceAvg(arith, Shards(all, i))
    {
      hide AllReduceAvg, Staged, Sorted, Shards, Agreed;
      var keys := Sorted(pending.Keys);
      var bufs, pieces := StashedInOrder(keys), AllInOrder(all, keys);
      PiecesAgree(all, keys, pieces);
      ReduceBuffers(bufs, pieces, Staged(pieces));
      forall i | i in pending ensures pending[i][..] == AllReduceAvg(arith, Shards(all, i)) {
        var b :| 0 <= b < |keys| && keys[b] == i;
        PieceIsShards(all, keys, pieces, b);
      }
    }

    /** `flush`: reduces what is stashed and empties the stash. */
    method Flush(all: seq<map<nat, seq<E>>>)
      requires Valid() && Matches(all)
      modifies this, pending.Values
      ensures Valid() && pending == map[]
      ensures ws > 1 && bucketed ==> forall i :: i in old(pending) ==>
        old(pending)[i][..] == AllReduceAvg(arith, Shards(all, i))
      ensures !(ws > 1 && bucketed) ==> forall i :: i in old(pending) ==>
        old(pending)[i][..] == old(pending[i][..])
    {
      if bucketed && ws > 1 && pending != map[] {
        ReduceStash(all);
      }
      pending := map[];
    }

    // --- a whole step ---

    /** The ranks agree on modules and sizes, and no two modules share a buffer. */
    ghost predicate Fixed(bufs: map<nat, array<E>>, shards: seq<map<nat, seq<E>>>) {
      && rank < ws == |shards|
      && (forall i, j :: i in bufs && j in bufs && i != j ==> bufs[i] != bufs[j])
      && (forall q :: 0 <= q < ws ==> shards[q].Keys == bufs.Keys)
      && (forall q, i :: 0 <= q < ws && i in bufs ==> i in shards[q] && |shards[q][i]| == bufs[i].Length)
    }

    /** Each module's buffer holds this rank's shard of it. */
    ghost predicate Ready(bufs: map<nat, array<E>>, shards: seq<map<nat, seq<E>>>)
      reads bufs.Values
    {
      Fixed(bufs, shards) && forall i :: i in bufs ==> i in shards[rank] && bufs[i][..] == shards[rank][i]
    }

    /** Every rank fires all modules once; what meets in one immediate call has one size. */
    ghost predicate Firing(orders: seq<seq<nat>>, bufs: map<nat, array<E>>, shards: seq<map<nat, seq<E>>>) {
      && rank < ws == |orders| == |shards|
      && (forall q :: 0 <= q < ws ==> Fires(orders[q], bufs.Keys))
      && (ws > 1 && !bucketed ==> forall k :: 0 <= k < |orders[rank]| ==>
            orders[rank][k] in bufs && Uniform(Called(orders, shards, k), bufs[orders[rank][k]].Length))
    }

    /** What the buffer of the module that fires as number j holds once k modules have fired. */
    ghost function Holds(orders: seq<seq<nat>>, shards: seq<map<nat, seq<E>>>, j: nat, k: nat): seq<E>
      requires rank < ws == |orders| == |shards| && j < |orders[rank]| && orders[rank][j] in shards[rank]
    {
      if ws > 1 && !bucketed && j < k then AllReduceAvg(arith, Called(orders, shards, j))
      else shards[rank][orders[rank][j]]
    }

    ghost function Stashed(bufs: map<nat, array<E>>, fired: set<nat>): map<nat, array<E>> {
      if ws > 1 && bucketed then map i | i in bufs && i in fired :: bufs[i] else map[]
    }

    ghost predicate After(orders: seq<seq<nat>>, bufs: map<nat, array<E>>, shards: seq<map<nat, seq<E>>>, k: nat)
      requires Fixed(bufs, shards) && Firing(orders, bufs, shards) && k <= |orders[rank]|
      reads this, bufs.Values
    {
      && pending == Stashed(bufs, Fired(orders[rank], k))
      && forall j :: 0 <= j < |orders[rank]| ==> bufs[orders[rank][j]][..] == Holds(orders, shards, j, k)
    }

    /** The hook of the module that fires as number k. */
    method Fire(orders: seq<seq<nat>>, bufs: map<nat, array<E>>, shards: seq<map<nat, seq<E>>>, k: nat)
      requires Fixed(bufs, shards) && Firing(orders, bufs, shards) && k < |orders[rank]|
      requires After(orders, bufs, shards, k)
      modifies this, bufs.Values
      ensures After(orders, bufs, shards, k + 1)
    {
      hide *;
      BeforeFire(orders, bufs, shards, k);
      var order := orders[rank];
      OnModule(order[k], bufs[order[k]], Called(orders, shards, k));
      FiredNext(order, k);
      HoldsNext(orders, bufs, shards, k);
      AfterFire(orders, bufs, shards, k);
    }

    lemma BeforeFire(orders: seq<seq<nat>>, bufs: map<nat, array<E>>, shards: seq<map<nat, seq<E>>>, k: nat)
      requires Fixed(bufs, shards) && Firing(orders, bufs, shards) && k < |orders[rank]|
      requires After(orders, bufs, shards, k)
      ensures Valid() && rank < ws == |orders| == |shards|
      ensures var order := orders[rank];
              && (forall j :: 0 <= j < |order| ==> order[j] in bufs && order[j] in shards[rank])
              && (forall j, l :: 0 <= j < l < |order| ==> order[j] != order[l] && bufs[order[j]] != bufs[order[l]])
              && (forall j :: 0 <= j < |order| ==> bufs[order[j]][..] == Holds(orders, shards, j, k))
              && (forall i :: i in pending ==> i in bufs && i in order && pending[i] == bufs[i])
              && pending == Stashed(bufs, Fired(order, k))
              && (ws > 1 && !bucketed ==>
                    && |Called(orders, shards, k)| == ws
                    && Called(orders, shards, k)[rank] == bufs[order[k]][..]
                    && Uniform(Called(orders, shards, k), bufs[order[k]].Length))
    {
      hide AllReduceAvg, Called;
      OwnCall(orders, shards, rank, k);
    }

    lemma HoldsNext(orders: seq<seq<nat>>, bufs: map<nat, array<E>>, shards: seq<map<nat, seq<E>>>, k: nat)
      requires rank < ws == |orders| == |shards| && k < |orders[rank]|
      requires forall j :: 0 <= j < |orders[rank]| ==> orders[rank][j] in shards[rank] && orders[rank][j] in bufs
      ensures forall j :: 0 <= j < |orders[rank]| && j != k ==>
        Holds(orders, shards, j, k + 1) == Holds(orders, shards, j, k)
      ensures Holds(orders, shards, k, k + 1) ==
        if ws > 1 && !bucketed then AllReduceAvg(arith, Called(orders, shards, k)) else Holds(orders, shards, k, k)
      ensures Stashed(bufs, Fired(orders[rank], k) + {orders[rank][k]})
           == if ws > 1 && bucketed then Stashed(bufs, Fired(orders[rank], k))[orders[rank][k] := bufs[orders[rank][k]]]
              else Stashed(bufs, Fired(orders[rank], k))
    {}

    lemma AfterFire(orders: seq<seq<nat>>, bufs: map<nat, array<E>>, shards: seq<map<nat, seq<E>>>, k: nat)
      requires Fixed(bufs, shards) && Firing(orders, bufs, shards) && k < |orders[rank]|
      requires pending == Stashed(bufs, Fired(orders[rank], k + 1))
      requires forall j :: 0 <= j < |orders[rank]| ==>
        orders[rank][j] in bufs && orders[rank][j] in shards[rank] &&
        bufs[orders[rank][j]][..] == Holds(orders, shards, j, k + 1)
      ensures After(orders, bufs, shards, k + 1)
    {}

    /** The hooks of a backward pass, in this rank's order, against ranks that fire in theirs. */
    method Backward(orders: seq<seq<nat>>, bufs: map<nat, array<E>>, shards: seq<map<nat, seq<E>>>)
      requires Ready(bufs, shards) && Firing(orders, bufs, shards) && pending == map[]
      modifies this, bufs.Values
      ensures After(orders, bufs, shards, |orders[rank]|)
    {
      for k := 0 to |orders[rank]|
        invariant After(orders, bufs, shards, k)
      {
        Fire(orders, bufs, shards, k);
      }
    }

    /**
     The reduction of one step: every rank's hooks fire in an order of its own, then `flush` runs. With
     buckets each buffer ends with the reduction of its own module's shards, whatever the orders. Without,
     the k-th module to fire here ends with the reduction of what the ranks fire as their k-th.
    */
    method ReduceStep(orders: seq<seq<nat>>, bufs: map<nat, array<E>>, shards: seq<map<nat, seq<E>>>)
      requires Ready(bufs, shards) && Firing(orders, bufs, shards) && pending == map[]
      modifies this, bufs.Values
      ensures pending == map[]
      ensures ws > 1 && bucketed ==> forall i :: i in bufs ==> bufs[i][..] == AllReduceAvg(arith, Shards(shards, i))
      ensures ws > 1 && !bucketed ==> forall k :: 0 <= k < |orders[rank]| ==>
        orders[rank][k] in bufs && bufs[orders[rank][k]][..] == AllReduceAvg(arith, Called(orders, shards, k))
      ensures ws <= 1 ==> forall i :: i in bufs ==> bufs[i][..] == old(bufs[i][..])
    {
      hide *;
      Aligned(orders, bufs, shards);
      StashesAre(orders, shards, bufs.Keys, ws > 1 && bucketed);
      Backward(orders, bufs, shards);
      var stashes := Stashes(orders, shards, ws > 1 && bucketed);
      FlushAfter(orders, bufs, shards, stashes);
    }

    lemma Aligned(orders: seq<seq<nat>>, bufs: map<nat, array<E>>, shards: seq<map<nat, seq<E>>>)
      requires Ready(bufs, shards) && Firing(orders, bufs, shards)
      ensures Fixed(bufs, shards) && |shards| == |orders| == ws && rank < ws
      ensures forall q :: 0 <= q < ws ==> Fires(orders[q], bufs.Keys) && shards[q].Keys == bufs.Keys
      ensures forall i :: i in bufs ==> i in shards[rank] && bufs[i][..] == shards[rank][i]
    {}

    /** The end of the step. */
    method FlushAfter(orders: seq<seq<nat>>, bufs: map<nat, array<E>>, shards: seq<map<nat, seq<E>>>,
                      stashes: seq<map<nat, seq<E>>>)
      requires Fixed(bufs, shards) && Firing(orders, bufs, shards) && |stashes| == ws
      requires ws > 1 && bucketed ==> stashes == shards
      requires !(ws > 1 && bucketed) ==> forall q :: 0 <= q < ws ==> stashes[q] == map[]
      requires After(orders, bufs, shards, |orders[rank]|)
      modifies this, bufs.Values
      ensures pending == map[]
      ensures ws > 1 && bucketed ==> forall i :: i in bufs ==> bufs[i][..] == AllReduceAvg(arith, Shards(shards, i))
      ensures ws > 1 && !bucketed ==> forall k :: 0 <= k < |orders[rank]| ==>
        orders[rank][k] in bufs && bufs[orders[rank][k]][..] == AllReduceAvg(arith, Called(orders, shards, k))
      ensures ws <= 1 ==> forall i :: i in bufs ==> bufs[i][..] == shards[rank][i]
    {
      hide *;
      AfterAll(orders, bufs, shards, stashes);
      Flush(stashes);
    }

    /** After the last hook everything is stashed and untouched, or reduced and nothing is stashed. */
    lemma AfterAll(orders: seq<seq<nat>>, bufs: map<nat, array<E>>, shards: seq<map<nat, seq<E>>>,
                   stashes: seq<map<nat, seq<E>>>)
      requires Fixed(bufs, shards) && Firing(orders, bufs, shards) && |stashes| == ws
      requires ws > 1 && bucketed ==> stashes == shards
      requires !(ws > 1 && bucketed) ==> forall q :: 0 <= q < ws ==> stashes[q] == map[]
      requires After(orders, bufs, shards, |orders[rank]|)
      ensures Valid() && Matches(stashes)
      ensures ws > 1 && bucketed ==> pending == bufs
      ensures !(ws > 1 && bucketed) ==> pending == map[]
      ensures ws > 1 && !bucketed ==> forall k :: 0 <= k < |orders[rank]| ==>
        orders[rank][k] in bufs && bufs[orders[rank][k]][..] == AllReduceAvg(arith, Called(orders, shards, k))
      ensures ws <= 1 ==> forall i :: i in bufs ==> bufs[i][..] == shards[rank][i]
    {
      hide AllReduceAvg, Called;
      AllFired(orders[rank], bufs.Keys);
    }
  }

  lemma AllFired(order: seq<nat>, modules: set<nat>)
    requires Fires(order, modules)
    ensures Fired(order, |order|) == modules && forall i :: i in order <==> i in modules
  {}

  // ----- when the immediate mode is right ---------------------------------------------------------------

  /** The immediate mode leaves what buckets leave, on the rank whose order this is. */
  ghost predicate ImmediateAgrees<E(!new)>(
    e: Arith<E>, orders: seq<seq<nat>>, shards: seq<map<nat, seq<E>>>, order: seq<nat>)
    requires shards != []
  {
    forall k :: 0 <= k < |order| ==>
      AllReduceAvg(e, Called(orders, shards, k)) == AllReduceAvg(e, Shards(shards, order[k]))
  }

  /** When all ranks fire in one order, both modes leave the same in every buffer. */
  lemma OneOrderAgrees<E(!new)>(e: Arith<E>, orders: seq<seq<nat>>, shards: seq<map<nat, seq<E>>>, order: seq<nat>)
    requires |orders| == |shards| > 0 && forall q :: 0 <= q < |orders| ==> orders[q] == order
    ensures ImmediateAgrees(e, orders, shards, order)
  {
    forall k | 0 <= k < |order|
      ensures AllReduceAvg(e, Called(orders, shards, k)) == AllReduceAvg(e, Shards(shards, order[k]))
    {
      OneOrderCalls(orders, shards, order, k);
    }
  }

  /**
   And only then, as an expression over the shards: with a tag on every shard, one rank's buffers all end
   with the right sum if and only if all ranks fire in that rank's order.
  */
  lemma ImmediateAgreesExactly(
    orders: seq<seq<nat>>, shards: seq<map<nat, seq<Expr>>>, modules: set<nat>, tag: (nat, nat) -> nat, rank: nat)
    requires |orders| == |shards| && rank < |orders| && Tagged(shards, modules, tag)
    requires forall q :: 0 <= q < |orders| ==> Fires(orders[q], modules)
    ensures ImmediateAgrees(FreeArith(), orders, shards, orders[rank]) <==>
            forall q :: 0 <= q < |orders| ==> orders[q] == orders[rank]
  {
    if forall q :: 0 <= q < |orders| ==> orders[q] == orders[rank] {
      OneOrderAgrees(FreeArith(), orders, shards, orders[rank]);
    } else if ImmediateAgrees(FreeArith(), orders, shards, orders[rank]) {
      forall q | 0 <= q < |orders| ensures |orders[q]| == |orders[rank]| {
        SameLength(orders[q], orders[rank], modules);
      }
      forall q | 0 <= q < |orders| ensures orders[q] == orders[rank] {
        forall k | 0 <= k < |orders[rank]| ensures orders[q][k] == orders[rank][k] {
          AgreedCall(orders, shards, modules, tag, rank, q, k);
        }
      }
    }
  }

  /** A call that leaves the right sum met the same module on every rank. */
  lemma AgreedCall(
    orders: seq<seq<nat>>, shards: seq<map<nat, seq<Expr>>>, modules: set<nat>, tag: (nat, nat) -> nat,
    rank: nat, q: nat, k: nat)
    requires |orders| == |shards| && rank < |orders| && q < |orders| && Tagged(shards, modules, tag)
    requires forall p :: 0 <= p < |orders| ==> Fires(orders[p], modules) && |orders[p]| == |orders[rank]|
    requires k < |orders[rank]|
    requires AllReduceAvg(FreeArith(), Called(orders, shards, k))
          == AllReduceAvg(FreeArith(), Shards(shards, orders[rank][k]))
    ensures orders[q][k] == orders[rank][k]
  {
    var n := |orders|;
    var met := seq(n, p requires 0 <= p < n => tag(p, orders[p][k]));
    var own := seq(n, p requires 0 <= p < n => tag(p, orders[rank][k]));
    forall p | 0 <= p < n ensures orders[p][k] in modules {
      assert orders[p][k] in orders[p];
    }
    TagsOfReduce(Called(orders, shards, k), met);
    TagsOfReduce(Shards(shards, orders[rank][k]), own);
    assert met[q] == own[q];
  }

  /** Two orders that fire the same modules once each are equally long. */
  lemma {:induction false} SameLength(x: seq<nat>, y: seq<nat>, modules: set<nat>)
    requires Fires(x, modules) && Fires(y, modules)
    ensures |x| == |y| == |modules|
  {
    FiredCount(x, |x|);
    FiredCount(y, |y|);
    AllFired(x, modules);
    AllFired(y, modules);
  }

  lemma {:induction false} FiredCount(order: seq<nat>, k: nat)
    requires k <= |order| && forall a, b :: 0 <= a < b < |order| ==> order[a] != order[b]
    ensures |Fired(order, k)| == k
  {
    if k == 0 {
    } else {
      FiredCount(order, k - 1);
      FiredNext(order, k - 1);
    }
  }

  /** Two ranks that fire two modules in opposite orders: module 0 of one is added to module 1 of the other. */
  lemma OppositeOrders(r0m0: Expr, r0m1: Expr, r1m0: Expr, r1m1: Expr)
    requires r1m0 != r1m1
    ensures var shards := [map[0 := [r0m0], 1 := [r0m1]], map[0 := [r1m0], 1 := [r1m1]]];
            && AllReduceAvg(FreeArith(), Called([[0, 1], [1, 0]], shards, 0)) == [Plus(r0m0, r1m1)]
            && AllReduceAvg(FreeArith(), Shards(shards, 0)) == [Plus(r0m0, r1m0)]
            && !ImmediateAgrees(FreeArith(), [[0, 1], [1, 0]], shards, [0, 1])
  {
    var shards := [map[0 := [r0m0], 1 := [r0m1]], map[0 := [r1m0], 1 := [r1m1]]];
    PairReduce(Called([[0, 1], [1, 0]], shards, 0), r0m0, r1m1);
    PairReduce(Shards(shards, 0), r0m0, r1m0);
    assert [0, 1][0] == 0;
  }

  lemma PairReduce(staged: seq<seq<Expr>>, x: Expr, y: Expr)
    requires staged == [[x], [y]]
    ensures AllReduceAvg(FreeArith(), staged) == [Plus(x, y)]
  {
    var e, c := FreeArith(), Column(staged, 0);
    TreeSumElement(e, staged, 1, 0);
    assert c == [x, y];
    PairSum(e, c);
    assert AllReduceAvg(e, staged)[0] == Plus(x, y);
  }

  lemma PairSum<T(!new)>(a: Arith<T>, p: seq<T>)
    requires |p| == 2
    ensures TreeSum(a, p) == a.add(p[0], p[1])
  {
    TopUnique(2, 2);
    assert p[..2] == p && p[2..] == [];
    assert Balanced(a, p[..1]) == p[0] && Balanced(a, p[1..]) == p[1];
  }

  // ----- down to the protocol and across to the audit ---------------------------------------------------

  /** Every finished run of the ranks' programs on the staged buffers returns the collective's value on every rank. */
  lemma ProtocolReturns<E(!new)>(e: Arith<E>, staged: seq<seq<E>>, run: seq<Step>, rank: nat)
    requires rank < |staged| && e.Commutes()
    requires Legal(Buffers(e), Programs(|staged|), Start(staged), run)
    requires Finished(Programs(|staged|), Rendezvous.After(Buffers(e), Programs(|staged|), Start(staged), run))
    ensures Returned(Buffers(e), |staged|, Rendezvous.After(Buffers(e), Programs(|staged|), Start(staged), run)[rank])
         == AllReduceAvg(e, staged)
  {
    BuffersCommute(e);
    AllReduceIsSafe(Buffers(e), staged, run);
  }

  /**
   Hook, protocol and audit together. The replicates of shard d coalesce their modules' shards and run the
   protocol once, in any schedule; the piece a replicate cuts out for module b is chunk d of the gradient the
   single-device fold gives for that module.
  */
  lemma FlushEqualsAudit<E(!new)>(
    e: Arith<E>, m: Mesh, grads: seq<seq<E>>, k: nat, d: nat, pieces: seq<seq<seq<E>>>, rank: nat, b: nat,
    run: seq<Step>)
    requires rank < |pieces| && Agreed(pieces) && b < |pieces[rank]| && e.Commutes()
    requires m.Holds(grads, k) && d < m.dpShard && m.dpRep == |pieces| > 1
    requires forall q :: 0 <= q < |pieces| ==> b < |pieces[q]|
    requires Piece(pieces, b) == Scattered(e, m, grads, k, d)
    requires Legal(Buffers(e), Programs(|pieces|), Start(Staged(pieces)), run)
    requires Finished(Programs(|pieces|), Rendezvous.After(Buffers(e), Programs(|pieces|), Start(Staged(pieces)), run))
    ensures var st := Rendezvous.After(Buffers(e), Programs(|pieces|), Start(Staged(pieces)), run);
            var off := Offset(pieces[rank], b);
            && |AuditGradient(e, m, grads)| == m.dpShard * k
            && off + |pieces[rank][b]| <= |Returned(Buffers(e), |pieces|, st[rank])|
            && Returned(Buffers(e), |pieces|, st[rank])[off..off + |pieces[rank][b]|]
            == Chunk(AuditGradient(e, m, grads), m.dpShard, k, d)
  {
    ProtocolReturns(e, Staged(pieces), run, rank);
    CoalescedPiece(e, pieces, rank, b);
    ShardIsChunk(e, m, grads, k, d);
  }
}
