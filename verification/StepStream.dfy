/** The stream cut into optimizer steps and dealt to ranks. */
module StepStream {
  import opened Arithmetic
  import opened Sequences
  import opened Wrappers
  import opened StreamModel
  import opened BatchSchedule

  /** The micro-batches rank r takes from a step of `total` micro-batches, in consumption order. */
  function RankBatches<T>(all: seq<T>, total: nat, mb: nat, ws: nat, r: nat): (b: seq<seq<T>>)
    requires |all| == total * mb
    ensures |b| == |IndicesForRank(total, ws, r)|
  {
    DealtBelow(total, ws, r);
    Dealt(all, total, mb, IndicesForRank(total, ws, r))
  }

  predicate AllBelow(indices: seq<nat>, total: nat) {
    forall i :: 0 <= i < |indices| ==> indices[i] < total
  }

  /** The chunks with these indices. */
  function Dealt<T>(all: seq<T>, total: nat, mb: nat, indices: seq<nat>): (b: seq<seq<T>>)
    requires |all| == total * mb && AllBelow(indices, total)
    ensures |b| == |indices| && forall i :: 0 <= i < |b| ==> b[i] == Chunk(all, total, mb, indices[i])
  {
    seq(|indices|, i requires 0 <= i < |indices| => Chunk(all, total, mb, indices[i]))
  }

  lemma DealtBelow(total: nat, ws: nat, r: nat)
    ensures AllBelow(IndicesForRank(total, ws, r), total)
  {
    forall i | 0 <= i < |IndicesForRank(total, ws, r)| ensures IndicesForRank(total, ws, r)[i] < total {
      ListedIffOwned(total, ws, r, IndicesForRank(total, ws, r)[i]);
    }
  }

  /**
   Interleaving the ranks by owner gives the step back: window m * mb + slot of the step is row
   `slot` of micro-batch m / ws of rank m % ws.
  */
  lemma DealtToOwner<T>(all: seq<T>, total: nat, mb: nat, ws: nat, m: nat, slot: nat)
    requires |all| == total * mb && ws > 0 && m < total && slot < mb
    ensures m * mb + slot < |all|
    ensures var mine := RankBatches(all, total, mb, ws, OwnerRank(m, ws));
            m / ws < |mine| && |mine[m / ws]| == mb && mine[m / ws][slot] == all[m * mb + slot]
  {
    RunBelow(m, slot, mb, total);
    OwnedOnce(total, ws, m);
    DealtChunk(all, total, mb, ws, OwnerRank(m, ws), m / ws, m);
  }

  lemma DealtChunk<T>(all: seq<T>, total: nat, mb: nat, ws: nat, r: nat, i: nat, m: nat)
    requires |all| == total * mb && m < total
    requires i < |IndicesForRank(total, ws, r)| && IndicesForRank(total, ws, r)[i] == m
    ensures RankBatches(all, total, mb, ws, r)[i] == Chunk(all, total, mb, m)
  {}

  /** Each rank takes `accum_for_rank` micro-batches of a step. */
  lemma DealtCount<T>(all: seq<T>, total: nat, mb: nat, ws: nat, r: nat)
    requires |all| == total * mb && r < ws
    ensures AccumForRank(total, ws, r) == Ok(|RankBatches(all, total, mb, ws, r)|)
  {
    IndicesAreStrided(total, ws, r);
  }

  lemma MiddleOf<T>(all: seq<T>, a: seq<T>, b: seq<T>, c: seq<T>)
    requires all == a + (b + c)
    ensures all[|a|..|a| + |b|] == b
  {}

  /** Micro-batch m of the next `total` micro-batches is the windows from m * mb on. */
  lemma WindowsChunk(ix: Index, p: Pos, n: nat, total: nat, mb: nat, m: nat)
    requires PosOk(ix, p) && m < total
    ensures Chunk(Windows(ix, p, n, total * mb), total, mb, m)
         == Windows(ix, After(ix, p, n, m * mb), n, mb)
  {
    RunBelow(m, 0, 1, total);
    MulMono(m + 1, total, mb);
    assert (m + 1) * mb == m * mb + mb;
    WindowsMiddle(ix, p, n, m * mb, mb, total * mb - (m * mb + mb), total * mb);
  }

  lemma WindowsMiddle(ix: Index, p: Pos, n: nat, a: nat, b: nat, c: nat, k: nat)
    requires PosOk(ix, p) && k == a + b + c
    ensures Windows(ix, p, n, k)[a..a + b] == Windows(ix, After(ix, p, n, a), n, b)
  {
    var q := After(ix, p, n, a);
    WindowsCompose(ix, p, n, a, b + c);
    WindowsCompose(ix, q, n, b, c);
    assert a + (b + c) == k;
    MiddleOf(Windows(ix, p, n, k), Windows(ix, p, n, a), Windows(ix, q, n, b), Windows(ix, After(ix, q, n, b), n, c));
  }

  /** The windows of the step at cursor c. */
  function StepSize(t: Train, c: Cursor): nat
    requires t.Valid()
  {
    PlanOf(t, c).microbatches * t.mb
  }

  function StepTokens(ix: Index, pay: Payload, t: Train, p: Pos, c: Cursor): (w: seq<seq<int>>)
    requires PosOk(ix, p) && t.Valid()
    ensures |w| == StepSize(t, c) == PlanOf(t, c).microbatches * t.mb
  {
    pay.AllTokens(Windows(ix, p, t.seqLen + 1, StepSize(t, c)))
  }

  function PosAfterStep(ix: Index, t: Train, p: Pos, c: Cursor): (q: Pos)
    requires PosOk(ix, p) && t.Valid()
    ensures PosOk(ix, q)
  {
    After(ix, p, t.seqLen + 1, StepSize(t, c))
  }

  /** What rank r of ws yields over k steps. */
  function RankSteps(ix: Index, pay: Payload, t: Train, ws: nat, r: nat, p: Pos, c: Cursor, k: nat)
    : (s: seq<seq<seq<seq<int>>>>)
    requires PosOk(ix, p) && t.Valid()
    ensures |s| == k
    decreases k
  {
    if k == 0 then []
    else
      [RankBatches(StepTokens(ix, pay, t, p, c), PlanOf(t, c).microbatches, t.mb, ws, r)]
      + RankSteps(ix, pay, t, ws, r, PosAfterStep(ix, t, p, c), Advance(t, c), k - 1)
  }

  /** The stream position after k steps: no rank and no world size in it. */
  function PosAfterSteps(ix: Index, t: Train, p: Pos, c: Cursor, k: nat): (q: Pos)
    requires PosOk(ix, p) && t.Valid()
    ensures PosOk(ix, q)
    decreases k
  {
    if k == 0 then p else PosAfterSteps(ix, t, PosAfterStep(ix, t, p, c), Advance(t, c), k - 1)
  }

  lemma {:induction false} CursorFront(t: Train, c: Cursor, k: nat)
    requires t.Valid()
    ensures CursorAt(t, Advance(t, c), k) == CursorAt(t, c, k + 1)
  {
    CursorCompose(t, c, 1, k);
    assert CursorAt(t, c, 1) == Advance(t, CursorAt(t, c, 0));
  }

  /** The window counter of the stream and of the step plans stay equal, so a resume can check them. */
  lemma {:induction false} CountersAgree(ix: Index, t: Train, p: Pos, c: Cursor, k: nat)
    requires PosOk(ix, p) && t.Valid() && c.windows == p.emitted
    ensures PosAfterSteps(ix, t, p, c, k).emitted == CursorAt(t, c, k).windows
    decreases k
  {
    if k == 0 {
    } else {
      EmittedCounts(ix, p, t.seqLen + 1, StepSize(t, c));
      CountersAgree(ix, t, PosAfterStep(ix, t, p, c), Advance(t, c), k - 1);
      CursorFront(t, c, k - 1);
    }
  }

  lemma {:induction false} PosCompose(ix: Index, t: Train, p: Pos, c: Cursor, j: nat, k: nat)
    requires PosOk(ix, p) && t.Valid()
    ensures PosAfterSteps(ix, t, p, c, j + k)
         == PosAfterSteps(ix, t, PosAfterSteps(ix, t, p, c, j), CursorAt(t, c, j), k)
    decreases j
  {
    if j == 0 {
    } else {
      PosCompose(ix, t, PosAfterStep(ix, t, p, c), Advance(t, c), j - 1, k);
      CursorFront(t, c, j - 1);
      assert j + k - 1 == (j - 1) + k;
    }
  }

  lemma StepsCons(
    ix: Index, pay: Payload, t: Train, ws: nat, r: nat, p: Pos, c: Cursor, k: nat, rest: seq<seq<seq<seq<int>>>>)
    requires PosOk(ix, p) && t.Valid()
    requires rest == RankSteps(ix, pay, t, ws, r, PosAfterStep(ix, t, p, c), Advance(t, c), k)
    ensures RankSteps(ix, pay, t, ws, r, p, c, k + 1) ==
              [RankBatches(StepTokens(ix, pay, t, p, c), PlanOf(t, c).microbatches, t.mb, ws, r)] + rest
  {}

  lemma {:induction false} StepsCompose(
    ix: Index, pay: Payload, t: Train, ws: nat, r: nat, p: Pos, c: Cursor, j: nat, k: nat)
    requires PosOk(ix, p) && t.Valid()
    ensures RankSteps(ix, pay, t, ws, r, p, c, j + k)
         == RankSteps(ix, pay, t, ws, r, p, c, j)
            + RankSteps(ix, pay, t, ws, r, PosAfterSteps(ix, t, p, c, j), CursorAt(t, c, j), k)
    decreases j
  {
    hide *;
    if j == 0 {
      StepsNone(ix, pay, t, ws, r, p, c, k);
    } else {
      var i: nat := j - 1;
      var p', c' := PosAfterStep(ix, t, p, c), Advance(t, c);
      var q, e := PosAfterSteps(ix, t, p', c', i), CursorAt(t, c', i);
      CursorFront(t, c, i);
      PosFront(ix, t, p, c, i);
      var mid, last := RankSteps(ix, pay, t, ws, r, p', c', i), RankSteps(ix, pay, t, ws, r, q, e, k);
      StepsCompose(ix, pay, t, ws, r, p', c', i, k);
      StepsCons(ix, pay, t, ws, r, p, c, i + k, mid + last);
      StepsCons(ix, pay, t, ws, r, p, c, i, mid);
      Assoc([RankBatches(StepTokens(ix, pay, t, p, c), PlanOf(t, c).microbatches, t.mb, ws, r)], mid, last);
      assert j + k == i + k + 1;
    }
  }

  lemma StepsNone(ix: Index, pay: Payload, t: Train, ws: nat, r: nat, p: Pos, c: Cursor, k: nat)
    requires PosOk(ix, p) && t.Valid()
    ensures PosAfterSteps(ix, t, p, c, 0) == p && CursorAt(t, c, 0) == c
    ensures RankSteps(ix, pay, t, ws, r, p, c, 0) + RankSteps(ix, pay, t, ws, r, p, c, k)
         == RankSteps(ix, pay, t, ws, r, p, c, k)
  {}

  lemma PosFront(ix: Index, t: Train, p: Pos, c: Cursor, k: nat)
    requires PosOk(ix, p) && t.Valid()
    ensures PosAfterSteps(ix, t, p, c, k + 1) == PosAfterSteps(ix, t, PosAfterStep(ix, t, p, c), Advance(t, c), k)
  {}

  lemma {:induction false} SameSteps(
    ix: Index, pay: Payload, t: Train, ws: nat, r: nat, p: Pos, q: Pos, c: Cursor, k: nat)
    requires PosOk(ix, p) && PosOk(ix, q) && t.Valid() && Same(pay, p, q)
    ensures RankSteps(ix, pay, t, ws, r, p, c, k) == RankSteps(ix, pay, t, ws, r, q, c, k)
    ensures Same(pay, PosAfterSteps(ix, t, p, c, k), PosAfterSteps(ix, t, q, c, k))
    decreases k
  {
    hide PosOk, PlanOf, RankBatches, Same, Advance;
    if k == 0 {
    } else {
      SameWindows(ix, pay, p, q, t.seqLen + 1, StepSize(t, c));
      SameSteps(ix, pay, t, ws, r, PosAfterStep(ix, t, p, c), PosAfterStep(ix, t, q, c), Advance(t, c), k - 1);
    }
  }

  /**
   Snapshot then resume is invisible to every rank: after any number j of steps a fresh view built
   from the checkpointed state and cursor yields the micro-batches of the uninterrupted run, for any
   number k of further steps, across epochs and partly consumed documents.
  */
  lemma RankResumeIsInvisible(
    ix: Index, pay: Payload, t: Train, ws: nat, r: nat, seeded: nat, p: Pos, c: Cursor, j: nat, k: nat)
    requires PosOk(ix, p) && t.Valid()
    ensures var saved := Snapshot(ix, pay, PosAfterSteps(ix, t, p, c, j));
            var resumed := Resume(ix, seeded, Some(saved));
            && PosOk(ix, resumed)
            && RankSteps(ix, pay, t, ws, r, p, c, j + k)
                 == RankSteps(ix, pay, t, ws, r, p, c, j)
                    + RankSteps(ix, pay, t, ws, r, resumed, CursorAt(t, c, j), k)
            && Snapshot(ix, pay, PosAfterSteps(ix, t, resumed, CursorAt(t, c, j), k))
                 == Snapshot(ix, pay, PosAfterSteps(ix, t, p, c, j + k))
  {
    var mid := PosAfterSteps(ix, t, p, c, j);
    ResumeSnapshot(ix, pay, seeded, mid);
    PosCompose(ix, t, p, c, j, k);
    StepsCompose(ix, pay, t, ws, r, p, c, j, k);
    SameSteps(ix, pay, t, ws, r, Resume(ix, seeded, Some(Snapshot(ix, pay, mid))), mid, CursorAt(t, c, j), k);
  }

  // ----- the ranks' batches are the stream ---------------------------------------------------------

  lemma StepEnds(ix: Index, t: Train, p: Pos, c: Cursor, k: nat)
    requires PosOk(ix, p) && t.Valid()
    ensures PosAfterSteps(ix, t, p, c, k + 1) ==
              PosAfterStep(ix, t, PosAfterSteps(ix, t, p, c, k), CursorAt(t, c, k))
    ensures CursorAt(t, c, k + 1) == Advance(t, CursorAt(t, c, k))
  {
    PosCompose(ix, t, p, c, k, 1);
    var q, e := PosAfterSteps(ix, t, p, c, k), CursorAt(t, c, k);
    assert PosAfterSteps(ix, t, q, e, 1) == PosAfterSteps(ix, t, PosAfterStep(ix, t, q, e), Advance(t, e), 0);
  }

  /** Step i of k steps, for one rank. */
  lemma {:induction false} RankStepAt(
    ix: Index, pay: Payload, t: Train, ws: nat, r: nat, p: Pos, c: Cursor, k: nat, i: nat)
    requires PosOk(ix, p) && t.Valid() && i < k
    ensures var q, e := PosAfterSteps(ix, t, p, c, i), CursorAt(t, c, i);
            RankSteps(ix, pay, t, ws, r, p, c, k)[i]
              == RankBatches(StepTokens(ix, pay, t, q, e), PlanOf(t, e).microbatches, t.mb, ws, r)
    decreases i
  {
    hide PosOk, PlanOf, RankBatches, StepTokens, PosAfterStep, Advance;
    if i == 0 {
    } else {
      RankStepAt(ix, pay, t, ws, r, PosAfterStep(ix, t, p, c), Advance(t, c), k - 1, i - 1);
      CursorFront(t, c, i - 1);
    }
  }

  /** The number of windows in k steps. */
  function WindowCount(t: Train, c: Cursor, k: nat): nat
    requires t.Valid()
  {
    if k == 0 then 0 else WindowCount(t, c, k - 1) + StepSize(t, CursorAt(t, c, k - 1))
  }

  lemma {:induction false} CountBelow(t: Train, c: Cursor, i: nat, k: nat)
    requires t.Valid() && i < k
    ensures WindowCount(t, c, i) + StepSize(t, CursorAt(t, c, i)) <= WindowCount(t, c, k)
  {
    if i == k - 1 {
    } else {
      CountBelow(t, c, i, k - 1);
    }
  }

  /** Steps are stretches of the stream. */
  lemma {:induction false} StepsAreWindows(ix: Index, t: Train, p: Pos, c: Cursor, i: nat)
    requires PosOk(ix, p) && t.Valid()
    ensures PosAfterSteps(ix, t, p, c, i) == After(ix, p, t.seqLen + 1, WindowCount(t, c, i))
  {
    hide PosOk, PlanOf, StepSize, CursorAt;
    if i == 0 {
    } else {
      StepsAreWindows(ix, t, p, c, i - 1);
      StepEnds(ix, t, p, c, i - 1);
      AfterCompose(ix, p, t.seqLen + 1, WindowCount(t, c, i - 1), StepSize(t, CursorAt(t, c, i - 1)));
    }
  }

  lemma TokensOfSlice(pay: Payload, ws: seq<seq<Cell>>, part: seq<seq<Cell>>, a: nat, x: nat)
    requires a + |part| <= |ws| && part == ws[a..a + |part|] && x < |part|
    ensures pay.AllTokens(part)[x] == pay.AllTokens(ws)[a + x]
  {}

  lemma StepTokensAre(ix: Index, pay: Payload, t: Train, p: Pos, c: Cursor)
    requires PosOk(ix, p) && t.Valid()
    ensures StepTokens(ix, pay, t, p, c) == pay.AllTokens(Windows(ix, p, t.seqLen + 1, StepSize(t, c)))
  {
    hide PlanOf, StepSize, Windows, PosOk;
  }

  /** Window x of step i, among all windows of k steps. */
  lemma StepWindowAt(ix: Index, pay: Payload, t: Train, p: Pos, c: Cursor, k: nat, i: nat, x: nat)
    requires PosOk(ix, p) && t.Valid() && i < k && x < StepSize(t, CursorAt(t, c, i))
    ensures WindowCount(t, c, i) + x < WindowCount(t, c, k)
    ensures StepTokens(ix, pay, t, PosAfterSteps(ix, t, p, c, i), CursorAt(t, c, i))[x]
         == pay.AllTokens(Windows(ix, p, t.seqLen + 1, WindowCount(t, c, k)))[WindowCount(t, c, i) + x]
  {
    hide *;
    var n, a, b, all := t.seqLen + 1, WindowCount(t, c, i), StepSize(t, CursorAt(t, c, i)), WindowCount(t, c, k);
    CountBelow(t, c, i, k);
    StepsAreWindows(ix, t, p, c, i);
    WindowsMiddle(ix, p, n, a, b, all - (a + b), all);
    var q := PosAfterSteps(ix, t, p, c, i);
    StepTokensAre(ix, pay, t, q, CursorAt(t, c, i));
    TokensOfSlice(pay, Windows(ix, p, n, all), Windows(ix, q, n, b), a, x);
  }

  /** Where a micro-batch stands among those of its owner. */
  function LocalIndex(m: nat, ws: nat): nat
    requires ws > 0
  {
    m / ws
  }

  /** Row `slot` of the rank's micro-batch is this window. */
  ghost predicate IsWindow(batches: seq<seq<seq<int>>>, micro: nat, slot: nat, windows: seq<seq<int>>, at: nat) {
    micro < |batches| && slot < |batches[micro]| && at < |windows| && batches[micro][slot] == windows[at]
  }

  /** The windows of the next k steps, as the plain stream emits them. */
  function StreamWindows(ix: Index, pay: Payload, t: Train, p: Pos, c: Cursor, k: nat): (w: seq<seq<int>>)
    requires PosOk(ix, p) && t.Valid()
    ensures |w| == WindowCount(t, c, k)
  {
    pay.AllTokens(Windows(ix, p, t.seqLen + 1, WindowCount(t, c, k)))
  }

  /**
   Over any number of steps and for any world size, the ranks' micro-batches interleaved by owner are
   the stream's next windows: row `slot` of micro-batch m of step i, found at rank m % ws, is the
   window with the number that the steps and micro-batches before it count up to.
  */
  lemma RanksInterleave(
    ix: Index, pay: Payload, t: Train, ws: nat, p: Pos, c: Cursor, k: nat, i: nat, m: nat, slot: nat)
    requires PosOk(ix, p) && t.Valid() && ws > 0 && i < k
    requires m < PlanOf(t, CursorAt(t, c, i)).microbatches && slot < t.mb
    ensures IsWindow(RankSteps(ix, pay, t, ws, OwnerRank(m, ws), p, c, k)[i], LocalIndex(m, ws), slot,
                     StreamWindows(ix, pay, t, p, c, k), WindowCount(t, c, i) + Times(m, t.mb) + slot)
  {
    hide Windows, PosAfterSteps, WindowCount, CursorAt, PlanOf, RankBatches, StepTokens, RankSteps, PosOk;
    var q, e := PosAfterSteps(ix, t, p, c, i), CursorAt(t, c, i);
    var all := StepTokens(ix, pay, t, q, e);
    DealtToOwner(all, PlanOf(t, e).microbatches, t.mb, ws, m, slot);
    RankStepAt(ix, pay, t, ws, OwnerRank(m, ws), p, c, k, i);
    StepWindowAt(ix, pay, t, p, c, k, i, Times(m, t.mb) + slot);
  }

  /** Every window of the k steps is dealt to some step, micro-batch and slot. */
  lemma {:induction false} EveryWindowIsDealt(t: Train, c: Cursor, k: nat, at: nat) returns (i: nat, m: nat, slot: nat)
    requires t.Valid() && at < WindowCount(t, c, k)
    ensures i < k && m < PlanOf(t, CursorAt(t, c, i)).microbatches && slot < t.mb
    ensures at == WindowCount(t, c, i) + Times(m, t.mb) + slot
  {
    hide CursorAt, PlanOf;
    if at < WindowCount(t, c, k - 1) {
      i, m, slot := EveryWindowIsDealt(t, c, k - 1, at);
    } else {
      i := k - 1;
      m, slot := GridCell(at - WindowCount(t, c, i), PlanOf(t, CursorAt(t, c, i)).microbatches, t.mb);
    }
  }

  lemma GridCell(x: nat, total: nat, mb: nat) returns (m: nat, slot: nat)
    requires mb > 0 && x < total * mb
    ensures m < total && slot < mb && x == Times(m, mb) + slot
  {
    QuotientBelow(x, mb, total);
    m, slot := x / mb, x % mb;
  }

  // ----- the shards an interval of steps reads ----------------------------------------------------

  /** The shards touched by k steps: no payload, no rank and no world size in it. */
  function TouchedSteps(ix: Index, t: Train, p: Pos, c: Cursor, k: nat): set<(nat, nat)>
    requires PosOk(ix, p) && t.Valid()
    decreases k
  {
    if k == 0 then {} else
    Touched(ix, p, t.seqLen + 1, StepSize(t, c)) + TouchedSteps(ix, t, PosAfterStep(ix, t, p, c), Advance(t, c), k - 1)
  }

  lemma {:induction false} StepsFrom(
    ix: Index, pay: Payload, pay': Payload, t: Train, ws: nat, r: nat, p: Pos, c: Cursor, k: nat, s: set<(nat, nat)>)
    requires PosOk(ix, p) && t.Valid() && From(p.cells, s)
    requires TouchedSteps(ix, t, p, c, k) <= s && Agree(pay, pay', s)
    ensures From(PosAfterSteps(ix, t, p, c, k).cells, s)
    ensures RankSteps(ix, pay, t, ws, r, p, c, k) == RankSteps(ix, pay', t, ws, r, p, c, k)
    decreases k
  {
    hide PosOk, From, Agree, Touched, Advance, RankBatches, PlanOf, StepSize, Windows, After;
    if k == 0 {
    } else {
      var q := PosAfterStep(ix, t, p, c);
      assert Touched(ix, p, t.seqLen + 1, StepSize(t, c)) <= s;
      assert TouchedSteps(ix, t, q, Advance(t, c), k - 1) <= s;
      WindowsFrom(ix, pay, pay', p, t.seqLen + 1, StepSize(t, c), s);
      StepsFrom(ix, pay, pay', t, ws, r, q, Advance(t, c), k - 1, s);
    }
  }

  /**
   A replay over a corpus that agrees on the touched shards gives every virtual rank the micro-batches
   of a replay over the full corpus, and ends in the same stream state.
  */
  lemma ReplayNeedsOnlyTouched(
    ix: Index, pay: Payload, pay': Payload, t: Train, ws: nat, r: nat,
    seeded: nat, state: Option<StreamState>, c: Cursor, k: nat)
    requires ix.Valid() && t.Valid()
    requires Agree(pay, pay', TouchedSteps(ix, t, Resume(ix, seeded, state), c, k))
    ensures var p := Resume(ix, seeded, state);
            && RankSteps(ix, pay, t, ws, r, p, c, k) == RankSteps(ix, pay', t, ws, r, p, c, k)
            && Snapshot(ix, pay, PosAfterSteps(ix, t, p, c, k)) == Snapshot(ix, pay', PosAfterSteps(ix, t, p, c, k))
  {
    var p := Resume(ix, seeded, state);
    var s := TouchedSteps(ix, t, p, c, k);
    StepsFrom(ix, pay, pay', t, ws, r, p, c, k, s);
    AgreeTokens(pay, pay', s, PosAfterSteps(ix, t, p, c, k).cells);
  }
}
