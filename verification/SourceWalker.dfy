/** One source's per-epoch document order and the strided walks over it. */
module SourceWalker {
  import opened Arithmetic
  import opened Sets

  /**
   The shuffles of one source, as the seeded generators fix them: the shard order of each epoch and
   the document order inside each shard of each epoch.
  */
  datatype Shuffle = Shuffle(shards: nat -> seq<nat>, docs: (nat, nat) -> seq<nat>)

  ghost predicate IsPermutation(p: seq<nat>, n: nat) {
    && |p| == n
    && (forall i :: 0 <= i < n ==> p[i] < n)
    && (forall i, j :: 0 <= i < j < n ==> p[i] != p[j])
  }

  /** Both generators return permutations, whatever they are seeded with. */
  ghost predicate Shuffles(sh: Shuffle, counts: seq<nat>) {
    && (forall e :: IsPermutation(sh.shards(e), |counts|))
    && (forall e, s: nat :: s < |counts| ==> IsPermutation(sh.docs(e, s), counts[s]))
  }

  /** `_cum_docs[s]`: documents before shard s. */
  function Cum(counts: seq<nat>, s: nat): nat
    requires s <= |counts|
  {
    if s == 0 then 0 else Cum(counts, s - 1) + counts[s - 1]
  }

  function Total(counts: seq<nat>): nat {
    Cum(counts, |counts|)
  }

  lemma {:induction false} CumMono(counts: seq<nat>, s: nat, t: nat)
    requires s <= t <= |counts|
    ensures Cum(counts, s) <= Cum(counts, t)
  {
    if s >= t {
    } else {
      CumMono(counts, s, t - 1);
    }
  }

  // ----- global index to (shard, local) -----------------------------------------------------------

  /** `searchsorted(cum, g, side="right")`: how many of cum[0..n] are at most g. */
  function SearchRight(counts: seq<nat>, g: nat, n: nat): nat
    requires n <= |counts|
  {
    (if Cum(counts, n) <= g then 1 else 0) + (if n == 0 then 0 else SearchRight(counts, g, n - 1))
  }

  /** s and its local index are a valid location of document g. */
  predicate At(counts: seq<nat>, g: nat, s: nat) {
    s < |counts| && Cum(counts, s) <= g < Cum(counts, s) + counts[s]
  }

  lemma {:induction false} SearchRightAll(counts: seq<nat>, g: nat, n: nat)
    requires n <= |counts| && Cum(counts, n) <= g
    ensures SearchRight(counts, g, n) == n + 1
  {
    if n == 0 {
    } else {
      CumMono(counts, n - 1, n);
      SearchRightAll(counts, g, n - 1);
    }
  }

  lemma {:induction false} SearchRightAt(counts: seq<nat>, g: nat, s: nat, n: nat)
    requires At(counts, g, s) && s < n <= |counts|
    ensures SearchRight(counts, g, n) == s + 1
  {
    CumMono(counts, s + 1, n);
    if n == s + 1 {
      SearchRightAll(counts, g, s);
    } else {
      SearchRightAt(counts, g, s, n - 1);
    }
  }

  lemma {:induction false} SomeShard(counts: seq<nat>, g: nat, n: nat) returns (s: nat)
    requires n <= |counts| && g < Cum(counts, n)
    ensures s < n && At(counts, g, s)
  {
    if g < Cum(counts, n - 1) {
      s := SomeShard(counts, g, n - 1);
    } else {
      s := n - 1;
    }
  }

  /** The shard that holds document g. */
  function ShardOf(counts: seq<nat>, g: nat): int {
    SearchRight(counts, g, |counts|) - 1
  }

  /** The lookup finds a valid location and it is the only one, also when shards are empty. */
  lemma LocationIsUnique(counts: seq<nat>, g: nat)
    requires g < Total(counts)
    ensures ShardOf(counts, g) >= 0 && At(counts, g, ShardOf(counts, g))
    ensures forall s :: At(counts, g, s) ==> s == ShardOf(counts, g)
  {
    var s := SomeShard(counts, g, |counts|);
    SearchRightAt(counts, g, s, |counts|);
    forall t | At(counts, g, t) ensures t == ShardOf(counts, g) {
      SearchRightAt(counts, g, t, |counts|);
    }
  }

  // ----- the permutation of an epoch -----------------------------------------------------------

  /** The documents of one shard, shuffled and moved to their global indices. */
  function Shifted(local: seq<nat>, offset: nat): (r: seq<nat>)
    ensures |r| == |local| && forall i :: 0 <= i < |r| ==> r[i] == local[i] + offset
  {
    seq(|local|, i requires 0 <= i < |local| => local[i] + offset)
  }

  /** The concatenation over the given shards. */
  function PermOver(sh: Shuffle, counts: seq<nat>, epoch: nat, order: seq<nat>): seq<nat>
    requires forall i :: 0 <= i < |order| ==> order[i] < |counts|
  {
    if order == [] then []
    else
      var init, s := order[..|order| - 1], order[|order| - 1];
      PermOver(sh, counts, epoch, init) + Shifted(sh.docs(epoch, s), Cum(counts, s))
  }

  /** The order in which an epoch serves the documents of the source. */
  function EpochPerm(sh: Shuffle, counts: seq<nat>, epoch: nat): seq<nat>
    requires Shuffles(sh, counts)
  {
    assert IsPermutation(sh.shards(epoch), |counts|);
    PermOver(sh, counts, epoch, sh.shards(epoch))
  }

  /** `_build_global_perm`. */
  method BuildGlobalPerm(sh: Shuffle, counts: seq<nat>, epoch: nat) returns (perm: seq<nat>)
    requires Shuffles(sh, counts)
    ensures perm == EpochPerm(sh, counts, epoch)
  {
    var shardOrder := sh.shards(epoch);
    assert IsPermutation(shardOrder, |counts|);
    perm := [];
    for i := 0 to |shardOrder|
      invariant perm == PermOver(sh, counts, epoch, shardOrder[..i])
    {
      var s := shardOrder[i];
      perm := perm + Shifted(sh.docs(epoch, s), Cum(counts, s));
      assert shardOrder[..i + 1][..i] == shardOrder[..i];
    }
    assert shardOrder[..|shardOrder|] == shardOrder;
  }

  ghost predicate Distinct(p: seq<nat>) {
    forall i, j :: 0 <= i < j < |p| ==> p[i] != p[j]
  }

  /** Served documents lie in the shards listed; listed shards serve all their documents; no repeats. */
  lemma {:induction false} PermOverServes(sh: Shuffle, counts: seq<nat>, epoch: nat, order: seq<nat>)
    requires Shuffles(sh, counts) && Distinct(order)
    requires forall i :: 0 <= i < |order| ==> order[i] < |counts|
    ensures var p := PermOver(sh, counts, epoch, order);
            && Distinct(p)
            && (forall g: nat :: g in p <==> exists i :: 0 <= i < |order| && At(counts, g, order[i]))
  {
    if order == [] {
    } else {
      var init, s := order[..|order| - 1], order[|order| - 1];
      PermOverServes(sh, counts, epoch, init);
      var p0 := PermOver(sh, counts, epoch, init);
      var here := Shifted(sh.docs(epoch, s), Cum(counts, s));
      ShiftedServes(sh.docs(epoch, s), counts, s);
      var p := p0 + here;
      assert p == PermOver(sh, counts, epoch, order);
      forall g: nat ensures g in p <==> exists i :: 0 <= i < |order| && At(counts, g, order[i]) {
        if g in p0 {
          var i :| 0 <= i < |init| && At(counts, g, init[i]);
          assert At(counts, g, order[i]);
        }
        if g in here {
          assert At(counts, g, order[|order| - 1]);
        }
        if i :| 0 <= i < |order| && At(counts, g, order[i]) {
          if i < |init| {
            assert At(counts, g, init[i]);
          }
        }
      }
      forall i, j | 0 <= i < j < |p| ensures p[i] != p[j] {
        if i < |p0| <= j && p[i] == p[j] {
          assert p[i] in p0 && p[j] in here;
          var k :| 0 <= k < |init| && At(counts, p[i], init[k]);
          SameShard(counts, p[i], init[k], s);
        }
      }
    }
  }

  lemma SameShard(counts: seq<nat>, g: nat, s: nat, t: nat)
    requires At(counts, g, s) && At(counts, g, t)
    ensures s == t
  {
    SearchRightAt(counts, g, s, |counts|);
    SearchRightAt(counts, g, t, |counts|);
  }

  /** Distinct numbers below n, n of them, are all the numbers below n. */
  lemma {:induction false} Pigeonhole(p: seq<nat>, n: nat, x: nat)
    requires IsPermutation(p, n) && x < n
    ensures x in p
  {
    if x !in p {
      var s := set i | 0 <= i < n :: p[i];
      Cardinality(p, n);
      assert s <= Below(n) - {x};
      SubsetSize(s, Below(n) - {x});
    }
  }

  /** The numbers below n. */
  ghost function Below(n: nat): (s: set<nat>)
    ensures |s| == n && forall x: nat :: x in s <==> x < n
  {
    if n == 0 then {} else Below(n - 1) + {n - 1}
  }

  lemma {:induction false} Cardinality(p: seq<nat>, k: nat)
    requires k <= |p| && Distinct(p)
    ensures |set i | 0 <= i < k :: p[i]| == k
  {
    if k == 0 {
    } else {
      Cardinality(p, k - 1);
      var s := set i | 0 <= i < k - 1 :: p[i];
      assert p[k - 1] !in s;
      assert (set i | 0 <= i < k :: p[i]) == s + {p[k - 1]};
    }
  }

  lemma ShiftedServes(local: seq<nat>, counts: seq<nat>, s: nat)
    requires s < |counts| && IsPermutation(local, counts[s])
    ensures Distinct(Shifted(local, Cum(counts, s)))
    ensures forall g: nat :: g in Shifted(local, Cum(counts, s)) <==> At(counts, g, s)
  {
    var r := Shifted(local, Cum(counts, s));
    forall g: nat | At(counts, g, s) ensures g in r {
      Pigeonhole(local, counts[s], g - Cum(counts, s));
      var i :| 0 <= i < |local| && local[i] == g - Cum(counts, s);
      assert r[i] == g;
    }
    forall g: nat | g in r ensures At(counts, g, s) {
      var i :| 0 <= i < |r| && r[i] == g;
    }
  }

  lemma {:induction false} PermOverLength(sh: Shuffle, counts: seq<nat>, epoch: nat, order: seq<nat>)
    requires Shuffles(sh, counts) && forall i :: 0 <= i < |order| ==> order[i] < |counts|
    ensures forall g :: g in PermOver(sh, counts, epoch, order) ==> g < Total(counts)
  {
    if order == [] {
    } else {
      var init, s := order[..|order| - 1], order[|order| - 1];
      PermOverLength(sh, counts, epoch, init);
      ShiftedServes(sh.docs(epoch, s), counts, s);
      CumMono(counts, s + 1, |counts|);
    }
  }

  /** For any shard order and any orders inside the shards, an epoch is a permutation of all documents. */
  lemma EpochIsPermutation(sh: Shuffle, counts: seq<nat>, epoch: nat)
    requires Shuffles(sh, counts)
    ensures IsPermutation(EpochPerm(sh, counts, epoch), Total(counts))
  {
    var order := sh.shards(epoch);
    assert IsPermutation(order, |counts|);
    var p := EpochPerm(sh, counts, epoch);
    PermOverServes(sh, counts, epoch, order);
    PermOverLength(sh, counts, epoch, order);
    forall g | 0 <= g < Total(counts) ensures g in p {
      var s := SomeShard(counts, g, |counts|);
      Pigeonhole(order, |counts|, s);
      var i :| 0 <= i < |order| && order[i] == s;
      assert At(counts, g, order[i]);
    }
    CoverSize(p, Total(counts));
    forall i | 0 <= i < |p| ensures p[i] < Total(counts) {
      assert p[i] in p;
    }
  }

  /** A repeat-free list of exactly the numbers below n has length n. */
  lemma CoverSize(p: seq<nat>, n: nat)
    requires Distinct(p) && forall g: nat :: g in p <==> g < n
    ensures |p| == n
  {
    Cardinality(p, |p|);
    var s := set i | 0 <= i < |p| :: p[i];
    forall x: nat ensures x in s <==> x in Below(n) {
      assert x in s <==> x in p;
    }
    assert s == Below(n);
  }

  /** Documents in the shards order[..i]. */
  function DocsBefore(counts: seq<nat>, order: seq<nat>, i: nat): nat
    requires i <= |order| && forall k :: 0 <= k < |order| ==> order[k] < |counts|
  {
    if i == 0 then 0 else DocsBefore(counts, order, i - 1) + counts[order[i - 1]]
  }

  lemma {:induction false} PermOverAt(sh: Shuffle, counts: seq<nat>, epoch: nat, order: seq<nat>, i: nat, j: nat)
    requires Shuffles(sh, counts) && forall k :: 0 <= k < |order| ==> order[k] < |counts|
    requires i < |order| && j < counts[order[i]]
    ensures |sh.docs(epoch, order[i])| == counts[order[i]]
    ensures |PermOver(sh, counts, epoch, order)| == DocsBefore(counts, order, |order|)
    ensures DocsBefore(counts, order, i) + j < |PermOver(sh, counts, epoch, order)|
    ensures PermOver(sh, counts, epoch, order)[DocsBefore(counts, order, i) + j]
         == sh.docs(epoch, order[i])[j] + Cum(counts, order[i])
    decreases |order|
  {
    var n := |order| - 1;
    PermOverSize(sh, counts, epoch, order[..n]);
    SameBefore(counts, order, n, n);
    SameBefore(counts, order, n, i);
    assert IsPermutation(sh.docs(epoch, order[i]), counts[order[i]]);
    assert IsPermutation(sh.docs(epoch, order[n]), counts[order[n]]);
    if i < n {
      PermOverAt(sh, counts, epoch, order[..n], i, j);
    }
  }

  lemma {:induction false} SameBefore(counts: seq<nat>, order: seq<nat>, n: nat, i: nat)
    requires i <= n <= |order| && forall k :: 0 <= k < |order| ==> order[k] < |counts|
    ensures DocsBefore(counts, order[..n], i) == DocsBefore(counts, order, i)
  {
    if i == 0 {
    } else {
      SameBefore(counts, order, n, i - 1);
    }
  }

  lemma {:induction false} PermOverSize(sh: Shuffle, counts: seq<nat>, epoch: nat, order: seq<nat>)
    requires Shuffles(sh, counts) && forall k :: 0 <= k < |order| ==> order[k] < |counts|
    ensures |PermOver(sh, counts, epoch, order)| == DocsBefore(counts, order, |order|)
  {
    if order == [] {
    } else {
      var n := |order| - 1;
      PermOverSize(sh, counts, epoch, order[..n]);
      SameBefore(counts, order, n, n);
      assert IsPermutation(sh.docs(epoch, order[n]), counts[order[n]]);
    }
  }

  /**
   The order of an epoch, entry by entry: the shards come in this epoch's shard order, and behind the
   documents of the earlier ones entry j of a shard's run is entry j of this epoch's shuffle of that shard.
  */
  lemma EpochAt(sh: Shuffle, counts: seq<nat>, epoch: nat, i: nat, j: nat)
    requires Shuffles(sh, counts) && i < |counts| && j < counts[sh.shards(epoch)[i]]
    ensures var order, p := sh.shards(epoch), EpochPerm(sh, counts, epoch);
            && |order| == |counts| && order[i] < |counts| && |sh.docs(epoch, order[i])| == counts[order[i]]
            && (forall k :: 0 <= k < |order| ==> order[k] < |counts|)
            && DocsBefore(counts, order, i) + j < |p|
            && p[DocsBefore(counts, order, i) + j] == sh.docs(epoch, order[i])[j] + Cum(counts, order[i])
  {
    assert IsPermutation(sh.shards(epoch), |counts|);
    PermOverAt(sh, counts, epoch, sh.shards(epoch), i, j);
  }

  // ----- walking ----------------------------------------------------------------------------------

  /** The resumable part of a walker. */
  datatype Place = Place(consumed: nat, epoch: nat)

  datatype Ref = Ref(shard: nat, local: nat)

  /** The place the next document is taken at: a used-up epoch rolls over first. */
  function Rolled(sh: Shuffle, counts: seq<nat>, rank: nat, ws: nat, w: Place): Place
    requires Shuffles(sh, counts)
  {
    if w.consumed * ws + rank >= |EpochPerm(sh, counts, w.epoch)| then Place(0, w.epoch + 1) else w
  }

  /** Global index of the next document, and its location. */
  function NextDoc(sh: Shuffle, counts: seq<nat>, rank: nat, ws: nat, w: Place): nat
    requires Shuffles(sh, counts)
  {
    var r := Rolled(sh, counts, rank, ws, w);
    var perm := EpochPerm(sh, counts, r.epoch);
    var idx := r.consumed * ws + rank;
    if idx < |perm| then perm[idx] else 0
  }

  function RefOf(counts: seq<nat>, g: nat): Ref {
    var s := ShardOf(counts, g);
    if 0 <= s < |counts| && Cum(counts, s) <= g then Ref(s, g - Cum(counts, s)) else Ref(0, 0)
  }

  function NextPlace(sh: Shuffle, counts: seq<nat>, rank: nat, ws: nat, w: Place): Place
    requires Shuffles(sh, counts)
  {
    var r := Rolled(sh, counts, rank, ws, w);
    Place(r.consumed + 1, r.epoch)
  }

  /** `_SourceWalker`, over shards of these document counts. */
  class SourceWalker {
    const shuffle: Shuffle
    const counts: seq<nat>
    const rank: nat
    const worldSize: nat
    var consumed: nat
    var epoch: nat
    var perm: seq<nat>

    ghost predicate Valid()
      reads this
    {
      && Shuffles(shuffle, counts) && rank < worldSize <= Total(counts)
      && perm == EpochPerm(shuffle, counts, epoch)
    }

    constructor (shuffle: Shuffle, counts: seq<nat>, rank: nat, worldSize: nat, start: Place)
      requires Shuffles(shuffle, counts) && rank < worldSize <= Total(counts)
      ensures Valid() && Place(consumed, epoch) == start
      ensures this.shuffle == shuffle && this.counts == counts
      ensures this.rank == rank && this.worldSize == worldSize
    {
      this.shuffle, this.counts, this.rank, this.worldSize := shuffle, counts, rank, worldSize;
      consumed, epoch := start.consumed, start.epoch;
      new;
      perm := BuildGlobalPerm(shuffle, counts, epoch);
    }

    /** `next_document_ref`. */
    method NextDocumentRef() returns (ref: Ref)
      requires Valid()
      modifies this
      ensures Valid()
      ensures var w := Place(old(consumed), old(epoch));
              && Place(consumed, epoch) == NextPlace(shuffle, counts, rank, worldSize, w)
              && ref == RefOf(counts, NextDoc(shuffle, counts, rank, worldSize, w))
      ensures At(counts, Cum(counts, ref.shard) + ref.local, ref.shard)
    {
      var idx := consumed * worldSize + rank;
      if idx >= |perm| {
        epoch := epoch + 1;
        consumed := 0;
        perm := BuildGlobalPerm(shuffle, counts, epoch);
        idx := rank;
      }
      ServedIsValid(shuffle, counts, epoch, idx);
      var g := perm[idx];
      consumed := consumed + 1;
      var s := ShardOf(counts, g);
      ref := Ref(s, g - Cum(counts, s));
    }
  }

  lemma ServedIsValid(sh: Shuffle, counts: seq<nat>, epoch: nat, idx: nat)
    requires Shuffles(sh, counts)
    ensures |EpochPerm(sh, counts, epoch)| == Total(counts)
    ensures idx < Total(counts) ==>
      var g := EpochPerm(sh, counts, epoch)[idx];
      g < Total(counts) && ShardOf(counts, g) >= 0 && At(counts, g, ShardOf(counts, g))
  {
    EpochIsPermutation(sh, counts, epoch);
    if idx < Total(counts) {
      LocationIsUnique(counts, EpochPerm(sh, counts, epoch)[idx]);
    }
  }

  /** n steps of a walker. */
  function Walked(sh: Shuffle, counts: seq<nat>, rank: nat, ws: nat, w: Place, n: nat): Place
    requires Shuffles(sh, counts)
  {
    if n == 0 then w else NextPlace(sh, counts, rank, ws, Walked(sh, counts, rank, ws, w, n - 1))
  }

  /** One step at place (c, epoch): inside the epoch, or into the next one. */
  lemma StepAt(sh: Shuffle, counts: seq<nat>, rank: nat, ws: nat, epoch: nat, c: nat, idx: nat)
    requires Shuffles(sh, counts) && rank < ws <= Total(counts) && idx == c * ws + rank
    ensures |EpochPerm(sh, counts, epoch)| == |EpochPerm(sh, counts, epoch + 1)| == Total(counts)
    ensures NextPlace(sh, counts, rank, ws, Place(c, epoch))
         == if idx < Total(counts) then Place(c + 1, epoch) else Place(1, epoch + 1)
    ensures NextDoc(sh, counts, rank, ws, Place(c, epoch))
         == if idx < Total(counts) then EpochPerm(sh, counts, epoch)[idx] else EpochPerm(sh, counts, epoch + 1)[rank]
  {
    ServedIsValid(sh, counts, epoch, 0);
    ServedIsValid(sh, counts, epoch + 1, 0);
    var r := Rolled(sh, counts, rank, ws, Place(c, epoch));
    if idx < Total(counts) {
      assert r == Place(c, epoch);
    } else {
      assert r == Place(0, epoch + 1);
      assert 0 * ws + rank == rank;
    }
  }

  /** Within an epoch, c steps take a walk from its start to place c. */
  lemma {:induction false} EpochWalk(sh: Shuffle, counts: seq<nat>, rank: nat, ws: nat, epoch: nat, c: nat)
    requires Shuffles(sh, counts) && rank < ws <= Total(counts)
    requires c > 0 ==> (c - 1) * ws + rank < Total(counts)
    ensures Walked(sh, counts, rank, ws, Place(0, epoch), c) == Place(c, epoch)
  {
    if c == 0 {
    } else {
      if c > 1 {
        MulMono(c - 2, c - 1, ws);
      }
      EpochWalk(sh, counts, rank, ws, epoch, c - 1);
      StepAt(sh, counts, rank, ws, epoch, c - 1, (c - 1) * ws + rank);
    }
  }

  /** Step c of rank's walk through the epoch serves document g. */
  ghost predicate Serves(sh: Shuffle, counts: seq<nat>, ws: nat, epoch: nat, g: nat, rank: nat, c: nat)
    requires Shuffles(sh, counts)
  {
    && rank < ws
    && c * ws + rank < Total(counts)
    && NextDoc(sh, counts, rank, ws, Walked(sh, counts, rank, ws, Place(0, epoch), c)) == g
  }

  /** In every epoch the ws strided walks together serve each document exactly once. */
  lemma EachDocumentOnce(sh: Shuffle, counts: seq<nat>, ws: nat, epoch: nat, g: nat)
    requires Shuffles(sh, counts) && 0 < ws <= Total(counts) && g < Total(counts)
    ensures exists rank, c :: Serves(sh, counts, ws, epoch, g, rank, c)
    ensures forall rank, c, rank', c' ::
      Serves(sh, counts, ws, epoch, g, rank, c) && Serves(sh, counts, ws, epoch, g, rank', c') ==>
      rank == rank' && c == c'
  {
    var rank, c := ServingStep(sh, counts, ws, epoch, g);
    forall rank, c, rank', c' |
      Serves(sh, counts, ws, epoch, g, rank, c) && Serves(sh, counts, ws, epoch, g, rank', c')
      ensures rank == rank' && c == c'
    {
      ServingIsUnique(sh, counts, ws, epoch, g, rank, c, rank', c');
    }
  }

  lemma ServingStep(sh: Shuffle, counts: seq<nat>, ws: nat, epoch: nat, g: nat) returns (rank: nat, c: nat)
    requires Shuffles(sh, counts) && 0 < ws <= Total(counts) && g < Total(counts)
    ensures Serves(sh, counts, ws, epoch, g, rank, c)
  {
    EpochIsPermutation(sh, counts, epoch);
    var p := EpochPerm(sh, counts, epoch);
    Pigeonhole(p, Total(counts), g);
    var i :| 0 <= i < |p| && p[i] == g;
    rank, c := Split(i, ws);
    ServedAt(sh, counts, ws, epoch, rank, c, i);
  }

  lemma Split(i: nat, ws: nat) returns (rank: nat, c: nat)
    requires ws > 0
    ensures rank < ws && i == c * ws + rank
  {
    rank, c := i % ws, i / ws;
  }

  lemma SplitUnique(rank: nat, c: nat, rank': nat, c': nat, ws: nat)
    requires rank < ws && rank' < ws && c * ws + rank == c' * ws + rank'
    ensures rank == rank' && c == c'
  {
    DivModUnique(c * ws + rank, ws, c, rank);
    DivModUnique(c * ws + rank, ws, c', rank');
  }

  lemma ServingIsUnique(
    sh: Shuffle, counts: seq<nat>, ws: nat, epoch: nat, g: nat, rank: nat, c: nat, rank': nat, c': nat)
    requires Shuffles(sh, counts) && 0 < ws <= Total(counts)
    requires Serves(sh, counts, ws, epoch, g, rank, c) && Serves(sh, counts, ws, epoch, g, rank', c')
    ensures rank == rank' && c == c'
  {
    hide EpochPerm, Total;
    var i, j := c * ws + rank, c' * ws + rank';
    ServedAt(sh, counts, ws, epoch, rank, c, i);
    ServedAt(sh, counts, ws, epoch, rank', c', j);
    EpochIsPermutation(sh, counts, epoch);
    assert i == j;
    SplitUnique(rank, c, rank', c', ws);
  }

  lemma ServedAt(sh: Shuffle, counts: seq<nat>, ws: nat, epoch: nat, rank: nat, c: nat, i: nat)
    requires Shuffles(sh, counts) && rank < ws <= Total(counts) && i == c * ws + rank && i < Total(counts)
    ensures |EpochPerm(sh, counts, epoch)| == Total(counts)
    ensures NextDoc(sh, counts, rank, ws, Walked(sh, counts, rank, ws, Place(0, epoch), c))
         == EpochPerm(sh, counts, epoch)[i]
  {
    if c > 0 {
      MulMono(c - 1, c, ws);
    }
    EpochWalk(sh, counts, rank, ws, epoch, c);
    StepAt(sh, counts, rank, ws, epoch, c, i);
  }

  // ----- any number of steps -----------------------------------------------------------------------

  /** How many documents of an epoch fall to this rank: r, r + ws, r + 2 * ws and so on below the total. */
  function PerEpoch(total: nat, rank: nat, ws: nat): nat
    requires rank < ws <= total
  {
    (total - rank - 1) / ws + 1
  }

  lemma PerEpochIs(total: nat, rank: nat, ws: nat, c: nat)
    requires rank < ws <= total
    ensures c < PerEpoch(total, rank, ws) <==> c * ws + rank < total
  {
    var x := total - rank - 1;
    assert x == x / ws * ws + x % ws;
    if c <= x / ws {
      MulMono(c, x / ws, ws);
    } else {
      MulMono(x / ws + 1, c, ws);
      assert (x / ws + 1) * ws == x / ws * ws + ws;
    }
  }

  /** The place after m steps from the start of an epoch: an epoch is left only when the next one is begun. */
  lemma {:induction false} WalkedPlace(
    sh: Shuffle, counts: seq<nat>, rank: nat, ws: nat, epoch: nat, q: nat, c: nat, m: nat)
    requires Shuffles(sh, counts) && rank < ws <= Total(counts)
    requires c < PerEpoch(Total(counts), rank, ws) && m == q * PerEpoch(Total(counts), rank, ws) + c
    ensures Walked(sh, counts, rank, ws, Place(0, epoch), m)
         == if c == 0 && q > 0 then Place(PerEpoch(Total(counts), rank, ws), epoch + q - 1) else Place(c, epoch + q)
    decreases m
  {
    hide EpochPerm, Total, Shuffles, NextPlace;
    var per := PerEpoch(Total(counts), rank, ws);
    if m == 0 {
      assert q == 0 && c == 0 by {
        if q > 0 {
          MulMono(1, q, per);
        }
      }
    } else if c == 0 {
      assert (q - 1) * per + (per - 1) == q * per - 1;
      WalkedPlace(sh, counts, rank, ws, epoch, q - 1, per - 1, m - 1);
      PerEpochIs(Total(counts), rank, ws, per - 1);
      if per == 1 && q > 1 {
        PerEpochIs(Total(counts), rank, ws, 1);
        StepAt(sh, counts, rank, ws, epoch + q - 2, 1, ws + rank);
      } else {
        StepAt(sh, counts, rank, ws, epoch + q - 1, per - 1, (per - 1) * ws + rank);
      }
    } else {
      WalkedPlace(sh, counts, rank, ws, epoch, q, c - 1, m - 1);
      if c == 1 && q > 0 {
        PerEpochIs(Total(counts), rank, ws, per);
        StepAt(sh, counts, rank, ws, epoch + q - 1, per, per * ws + rank);
      } else {
        PerEpochIs(Total(counts), rank, ws, c - 1);
        StepAt(sh, counts, rank, ws, epoch + q, c - 1, (c - 1) * ws + rank);
      }
    }
  }

  /** Step m of a walk from the start of an epoch serves entry c * ws + rank of the q-th epoch after it. */
  lemma WalkServesEntry(
    sh: Shuffle, counts: seq<nat>, rank: nat, ws: nat, epoch: nat, q: nat, c: nat, m: nat)
    requires Shuffles(sh, counts) && rank < ws <= Total(counts)
    requires c < PerEpoch(Total(counts), rank, ws) && m == q * PerEpoch(Total(counts), rank, ws) + c
    ensures |EpochPerm(sh, counts, epoch + q)| == Total(counts) && c * ws + rank < Total(counts)
    ensures NextDoc(sh, counts, rank, ws, Walked(sh, counts, rank, ws, Place(0, epoch), m))
         == EpochPerm(sh, counts, epoch + q)[c * ws + rank]
  {
    hide EpochPerm, Total, NextDoc, NextPlace, Walked, PerEpoch;
    var per := PerEpoch(Total(counts), rank, ws);
    WalkedPlace(sh, counts, rank, ws, epoch, q, c, m);
    PerEpochIs(Total(counts), rank, ws, c);
    if c == 0 && q > 0 {
      PerEpochIs(Total(counts), rank, ws, per);
      StepAt(sh, counts, rank, ws, epoch + q - 1, per, per * ws + rank);
    } else {
      StepAt(sh, counts, rank, ws, epoch + q, c, c * ws + rank);
    }
  }

  /** Every entry of an epoch lies in one shard's run. */
  lemma EntryOf(sh: Shuffle, counts: seq<nat>, epoch: nat, order: seq<nat>, entry: nat) returns (i: nat, j: nat)
    requires Shuffles(sh, counts) && order == sh.shards(epoch) && entry < Total(counts)
    ensures |order| == |counts| && forall k :: 0 <= k < |order| ==> order[k] < |counts|
    ensures i < |counts| && j < counts[order[i]] && entry == DocsBefore(counts, order, i) + j
  {
    assert IsPermutation(order, |counts|);
    EpochIsPermutation(sh, counts, epoch);
    PermOverSize(sh, counts, epoch, order);
    i, j := RunOf(counts, order, |order|, entry);
  }

  lemma {:induction false} RunOf(counts: seq<nat>, order: seq<nat>, n: nat, entry: nat) returns (i: nat, j: nat)
    requires n <= |order| && forall k :: 0 <= k < |order| ==> order[k] < |counts|
    requires entry < DocsBefore(counts, order, n)
    ensures i < n && j < counts[order[i]] && entry == DocsBefore(counts, order, i) + j
  {
    if entry < DocsBefore(counts, order, n - 1) {
      i, j := RunOf(counts, order, n - 1, entry);
    } else {
      i, j := n - 1, entry - DocsBefore(counts, order, n - 1);
    }
  }

  /**
   What a walker serves, document by document. Step m from the start of an epoch falls into the q-th epoch
   after it; if its entry there is the j-th of the i-th shard in that epoch's shard order, the document
   served is entry j of that epoch's own shuffle of that shard.
  */
  lemma WalkServes(
    sh: Shuffle, counts: seq<nat>, rank: nat, ws: nat, epoch: nat, q: nat, c: nat, m: nat,
    order: seq<nat>, i: nat, j: nat)
    requires Shuffles(sh, counts) && rank < ws <= Total(counts)
    requires c < PerEpoch(Total(counts), rank, ws) && m == q * PerEpoch(Total(counts), rank, ws) + c
    requires order == sh.shards(epoch + q) && forall k :: 0 <= k < |order| ==> order[k] < |counts|
    requires i < |order| && j < counts[order[i]] && c * ws + rank == DocsBefore(counts, order, i) + j
    ensures |sh.docs(epoch + q, order[i])| == counts[order[i]]
    ensures RefOf(counts, NextDoc(sh, counts, rank, ws, Walked(sh, counts, rank, ws, Place(0, epoch), m)))
         == Ref(order[i], sh.docs(epoch + q, order[i])[j])
  {
    hide EpochPerm, PerEpoch, Walked, NextDoc, RefOf, Cum;
    assert IsPermutation(order, |counts|);
    WalkServesEntry(sh, counts, rank, ws, epoch, q, c, m);
    EpochAt(sh, counts, epoch + q, i, j);
    assert IsPermutation(sh.docs(epoch + q, order[i]), counts[order[i]]);
    RefAtShard(counts, order[i], sh.docs(epoch + q, order[i])[j]);
  }

  lemma RefAtShard(counts: seq<nat>, s: nat, local: nat)
    requires s < |counts| && local < counts[s]
    ensures RefOf(counts, local + Cum(counts, s)) == Ref(s, local)
  {
    SearchRightAt(counts, local + Cum(counts, s), s, |counts|);
  }
}
