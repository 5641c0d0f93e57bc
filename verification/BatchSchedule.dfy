/** The world-size-independent batch schedule and the assignment of micro-batches to ranks. */
module BatchSchedule {
  import opened Arithmetic
  import opened Wrappers

  /** The schedule fields of the train configuration; both shape fields are positive. */
  datatype Train = Train(mb: nat, seqLen: nat, toMain: nat, toLate: nat, warmup: nat, main: nat, late: nat) {
    predicate Valid() { mb > 0 && seqLen > 0 }
  }

  /** `current_global_batch_tokens`. */
  function Target(consumed: nat, t: Train): nat {
    if consumed < t.toMain then t.warmup else if consumed < t.toLate then t.main else t.late
  }

  /** `max(1, target // unit)`, one more when that undershoots. */
  function RoundUp(target: nat, unit: nat): nat
    requires unit > 0
  {
    var m := if target / unit < 1 then 1 else target / unit;
    if m * unit < target then m + 1 else m
  }

  /** `microbatches_per_step`. */
  function Microbatches(consumed: nat, t: Train): nat
    requires t.Valid()
  {
    MulMono(1, t.mb, t.seqLen);
    RoundUp(Target(consumed, t), t.mb * t.seqLen)
  }

  /** `grad_accum_steps`, the count per rank the non-canonical schedule uses. */
  function GradAccum(consumed: nat, t: Train, ws: nat): nat
    requires t.Valid()
  {
    var n := if ws < 1 then 1 else ws;
    MulMono(1, t.mb, t.seqLen);
    MulMono(1, n, t.mb * t.seqLen);
    RoundUp(Target(consumed, t), n * (t.mb * t.seqLen))
  }

  /** The least positive count that covers the target. */
  lemma RoundUpIsLeast(target: nat, unit: nat, m: nat)
    requires unit > 0
    ensures RoundUp(target, unit) >= 1 && RoundUp(target, unit) * unit >= target
    ensures m >= 1 && m * unit >= target ==> RoundUp(target, unit) <= m
  {
    var q := target / unit;
    assert target == q * unit + target % unit;
    assert (q + 1) * unit == q * unit + unit;
    if m < q {
      RunBelow(m, 0, unit, q);
    }
    if q * unit < target && m <= q {
      MulMono(m, q, unit);
    }
  }

  /** m whole units are the fewest that cover the target; an empty target takes one. */
  ghost predicate Fewest(m: nat, unit: nat, target: nat) {
    m >= 1 && m * unit >= target && forall k: nat :: k >= 1 && k * unit >= target ==> m <= k
  }

  /**
   Every step takes the fewest whole micro-batches that cover its budget, at every world size. Below the
   first bound the budget is the warm-up one, then below the second bound the main one, then the late one.
  */
  lemma MicrobatchesCover(consumed: nat, t: Train)
    requires t.Valid()
    ensures consumed < t.toMain ==> Fewest(Microbatches(consumed, t), t.mb * t.seqLen, t.warmup)
    ensures t.toMain <= consumed < t.toLate ==> Fewest(Microbatches(consumed, t), t.mb * t.seqLen, t.main)
    ensures t.toMain <= consumed && t.toLate <= consumed ==> Fewest(Microbatches(consumed, t), t.mb * t.seqLen, t.late)
  {
    MulMono(1, t.mb, t.seqLen);
    forall k: nat ensures k >= 1 && k * (t.mb * t.seqLen) >= Target(consumed, t) ==> Microbatches(consumed, t) <= k {
      RoundUpIsLeast(Target(consumed, t), t.mb * t.seqLen, k);
    }
    RoundUpIsLeast(Target(consumed, t), t.mb * t.seqLen, 1);
  }

  // ----- ownership --------------------------------------------------------------------------------

  /** `owner_rank`. */
  function OwnerRank(m: nat, ws: nat): nat {
    m % (if ws < 1 then 1 else ws)
  }

  /** `accum_for_rank`. */
  function AccumForRank(total: nat, ws: nat, rank: nat): Outcome<nat> {
    if rank >= ws then Failure("rank out of range")
    else Ok(if rank < total then (total - rank + ws - 1) / ws else 0)
  }

  /** `microbatch_indices_for_rank`. */
  function IndicesForRank(total: nat, ws: nat, rank: nat): seq<nat> {
    if total == 0 then []
    else IndicesForRank(total - 1, ws, rank) + (if OwnerRank(total - 1, ws) == rank then [total - 1] else [])
  }

  /** The share of a rank below total = q * ws + s + 1. */
  lemma ShareAt(total: nat, ws: nat, rank: nat, q: nat, s: nat)
    requires rank < ws && s < ws && total == q * ws + s + 1
    ensures AccumForRank(total, ws, rank) == Ok(if rank <= s then q + 1 else q)
  {
    if rank < total {
      if rank <= s {
        assert total - rank + ws - 1 == (q + 1) * ws + (s - rank);
        DivModUnique(total - rank + ws - 1, ws, q + 1, s - rank);
      } else {
        DivModUnique(total - rank + ws - 1, ws, q, s + ws - rank);
      }
    } else if q > 0 {
      MulMono(1, q, ws);
    }
  }

  /** One more micro-batch goes to its owner and to nobody else. */
  lemma ShareStep(total: nat, ws: nat, rank: nat)
    requires rank < ws
    ensures AccumForRank(total, ws, rank).Ok? && AccumForRank(total + 1, ws, rank).Ok?
    ensures var before, after := AccumForRank(total, ws, rank).value, AccumForRank(total + 1, ws, rank).value;
            if OwnerRank(total, ws) == rank then after == before + 1 && total == before * ws + rank
            else after == before
  {
    var q, s := total / ws, total % ws;
    assert total == q * ws + s;
    ShareAt(total + 1, ws, rank, q, s);
    if s > 0 {
      ShareAt(total, ws, rank, q, s - 1);
    } else if q > 0 {
      assert total == (q - 1) * ws + (ws - 1) + 1;
      ShareAt(total, ws, rank, q - 1, ws - 1);
    }
  }

  /** The micro-batches a rank owns are rank, rank + ws, rank + 2 * ws, ... and `accum_for_rank` counts them. */
  lemma {:induction false} IndicesAreStrided(total: nat, ws: nat, rank: nat)
    requires rank < ws
    ensures AccumForRank(total, ws, rank) == Ok(|IndicesForRank(total, ws, rank)|)
    ensures forall i :: 0 <= i < |IndicesForRank(total, ws, rank)| ==>
      IndicesForRank(total, ws, rank)[i] == i * ws + rank
  {
    if total == 0 {
    } else {
      IndicesAreStrided(total - 1, ws, rank);
      ShareStep(total - 1, ws, rank);
    }
  }

  lemma {:induction false} ListedIffOwned(total: nat, ws: nat, rank: nat, m: nat)
    ensures m in IndicesForRank(total, ws, rank) <==> m < total && OwnerRank(m, ws) == rank
  {
    if total == 0 {
    } else {
      ListedIffOwned(total - 1, ws, rank, m);
    }
  }

  /** Every micro-batch m of a step is owned by one rank, at local index m / ws. */
  lemma OwnedOnce(total: nat, ws: nat, m: nat)
    requires ws > 0 && m < total
    ensures OwnerRank(m, ws) < ws
    ensures var mine := IndicesForRank(total, ws, OwnerRank(m, ws));
            m / ws < |mine| && mine[m / ws] == m
    ensures forall r :: 0 <= r < ws && m in IndicesForRank(total, ws, r) ==> r == OwnerRank(m, ws)
  {
    var r := OwnerRank(m, ws);
    ListedIffOwned(total, ws, r, m);
    IndicesAreStrided(total, ws, r);
    var i :| 0 <= i < |IndicesForRank(total, ws, r)| && IndicesForRank(total, ws, r)[i] == m;
    DivModUnique(m, ws, i, r);
    forall r' | 0 <= r' < ws && m in IndicesForRank(total, ws, r') ensures r' == r {
      ListedIffOwned(total, ws, r', m);
    }
  }

  /** The count the old schedule gives each rank covers rank 0's share of the canonical count. */
  lemma AccumCovers(target: nat, unit: nat, ws: nat, m: nat, g: nat)
    requires unit > 0 && ws > 0 && ws * unit > 0
    requires m == RoundUp(target, unit) && g == RoundUp(target, ws * unit)
    ensures m >= 1 && g >= 1 && m <= g * ws
  {
    RoundUpIsLeast(target, unit, 1);
    RoundUpIsLeast(target, ws * unit, 1);
    Regroup(g, ws, unit);
    MulMono(1, g, ws);
    RoundUpIsLeast(target, unit, g * ws);
  }

  lemma AccumIsLeast(target: nat, unit: nat, ws: nat, m: nat, g: nat, n: nat)
    requires unit > 0 && ws > 0 && ws * unit > 0
    requires m == RoundUp(target, unit) && g == RoundUp(target, ws * unit)
    requires n >= 1 && m <= n * ws
    ensures g <= n
  {
    RoundUpIsLeast(target, unit, m);
    MulMono(m, n * ws, unit);
    Regroup(n, ws, unit);
    RoundUpIsLeast(target, ws * unit, n);
  }

  lemma CeilUnique(g: nat, q: nat, s: nat, ws: nat, m: nat)
    requires s < ws && m == q * ws + s + 1 && m <= g * ws && g <= q + 1
    ensures g == q + 1
  {
    if g <= q {
      MulMono(g, q, ws);
    }
  }

  lemma DividesOrNot(q: nat, s: nat, ws: nat, m: nat)
    requires s < ws && m == q * ws + s + 1
    ensures (q + 1) * ws == m <==> m % ws == 0
  {
    assert (q + 1) * ws == q * ws + ws;
    if s == ws - 1 {
      DivModUnique(m, ws, q + 1, 0);
    } else {
      DivModUnique(m, ws, q, s + 1);
    }
  }

  /** The least number of shares of ws that covers m. */
  function Shares(m: nat, ws: nat): nat
    requires m >= 1 && ws > 0
  {
    (m - 1) / ws + 1
  }

  lemma SharesCover(m: nat, ws: nat)
    requires m >= 1 && ws > 0
    ensures m <= Shares(m, ws) * ws
  {
    var q := (m - 1) / ws;
    assert m - 1 == q * ws + (m - 1) % ws;
    assert (q + 1) * ws == q * ws + ws;
  }

  lemma SharesAre(m: nat, ws: nat, g: nat)
    requires m >= 1 && ws > 0 && m <= g * ws && g <= Shares(m, ws)
    ensures AccumForRank(m, ws, 0) == Ok(g)
    ensures g * ws == m <==> m % ws == 0
  {
    var q, s := (m - 1) / ws, (m - 1) % ws;
    CeilUnique(g, q, s, ws, m);
    ShareAt(m, ws, 0, q, s);
    DividesOrNot(q, s, ws, m);
  }

  lemma RoundedShare(target: nat, unit: nat, ws: nat, m: nat, g: nat)
    requires unit > 0 && ws > 0 && ws * unit > 0
    requires m == RoundUp(target, unit) && g == RoundUp(target, ws * unit)
    ensures m >= 1 && m <= g * ws && g <= Shares(m, ws)
  {
    AccumCovers(target, unit, ws, m, g);
    SharesCover(m, ws);
    AccumIsLeast(target, unit, ws, m, g, Shares(m, ws));
  }

  /**
   The per-rank count of the old schedule is rank 0's share of the canonical one, so both consume
   the same tokens exactly when the world size divides the step's micro-batches.
  */
  lemma GradAccumIsShare(consumed: nat, t: Train, ws: nat)
    requires t.Valid() && ws > 0
    ensures AccumForRank(Microbatches(consumed, t), ws, 0) == Ok(GradAccum(consumed, t, ws))
    ensures GradAccum(consumed, t, ws) * ws == Microbatches(consumed, t) <==> Microbatches(consumed, t) % ws == 0
  {
    MulMono(1, t.mb, t.seqLen);
    MulMono(1, ws, t.mb * t.seqLen);
    RoundedShare(Target(consumed, t), t.mb * t.seqLen, ws, Microbatches(consumed, t), GradAccum(consumed, t, ws));
    SharesAre(Microbatches(consumed, t), ws, GradAccum(consumed, t, ws));
  }

  lemma Regroup(g: nat, ws: nat, unit: nat)
    ensures g * (ws * unit) == (g * ws) * unit
  {}

  // ----- step plans -------------------------------------------------------------------------------

  datatype StepPlan = StepPlan(step: nat, consumed: nat, baseWindow: nat, microbatches: nat, tokens: nat)

  /** Where the step enumeration stands. */
  datatype Cursor = Cursor(consumed: nat, windows: nat, step: nat)

  function PlanOf(t: Train, c: Cursor): StepPlan
    requires t.Valid()
  {
    var m := Microbatches(c.consumed, t);
    StepPlan(c.step, c.consumed, c.windows, m, m * t.mb * t.seqLen)
  }

  function Advance(t: Train, c: Cursor): Cursor
    requires t.Valid()
  {
    var p := PlanOf(t, c);
    Cursor(c.consumed + p.tokens, c.windows + p.microbatches * t.mb, c.step + 1)
  }

  function CursorAt(t: Train, c: Cursor, n: nat): Cursor
    requires t.Valid()
  {
    if n == 0 then c else Advance(t, CursorAt(t, c, n - 1))
  }

  function Plans(t: Train, c: Cursor, n: nat): seq<StepPlan>
    requires t.Valid()
  {
    if n == 0 then [] else Plans(t, c, n - 1) + [PlanOf(t, CursorAt(t, c, n - 1))]
  }

  /** The first n plans `iter_step_plans` yields. */
  method IterStepPlans(consumed: nat, windows: nat, t: Train, startStep: nat, n: nat) returns (plans: seq<StepPlan>)
    requires t.Valid()
    ensures plans == Plans(t, Cursor(consumed, windows, startStep), n)
  {
    hide Microbatches;
    plans := [];
    var consumedTokens: nat, windowsEmitted: nat, step: nat := consumed, windows, startStep;
    for i := 0 to n
      invariant Cursor(consumedTokens, windowsEmitted, step) == CursorAt(t, Cursor(consumed, windows, startStep), i)
      invariant plans == Plans(t, Cursor(consumed, windows, startStep), i)
    {
      var m := Microbatches(consumedTokens, t);
      var tokensThisStep := m * t.mb * t.seqLen;
      plans := plans + [StepPlan(step, consumedTokens, windowsEmitted, m, tokensThisStep)];
      consumedTokens := consumedTokens + tokensThisStep;
      windowsEmitted := windowsEmitted + m * t.mb;
      step := step + 1;
    }
  }

  /** A cursor n steps on: n steps counted, and every window emitted on the way counted with its tokens. */
  lemma {:induction false} StepAccounts(t: Train, c: Cursor, n: nat)
    requires t.Valid()
    ensures CursorAt(t, c, n).step == c.step + n
    ensures CursorAt(t, c, n).windows >= c.windows + n
    ensures CursorAt(t, c, n).consumed == c.consumed + (CursorAt(t, c, n).windows - c.windows) * t.seqLen
    ensures CursorAt(t, c, n + 1).windows
         == CursorAt(t, c, n).windows + Microbatches(CursorAt(t, c, n).consumed, t) * t.mb
  {
    hide Microbatches, Fewest;
    if n == 0 {
    } else {
      StepAccounts(t, c, n - 1);
      var b := CursorAt(t, c, n - 1);
      var m := Microbatches(b.consumed, t);
      MicrobatchesCover(b.consumed, t);
      MulMono(1, m, t.mb);
      MoreWindows(b.windows - c.windows, m, t.mb, t.seqLen);
    }
  }

  lemma MoreWindows(before: int, m: nat, mb: nat, seqLen: nat)
    ensures (before + m * mb) * seqLen == before * seqLen + m * mb * seqLen
  {}

  /** Plan i starts where the steps before it end, and says how many micro-batches and tokens its step has. */
  lemma {:induction false} PlanAt(t: Train, c: Cursor, n: nat, i: nat)
    requires t.Valid() && i < n
    ensures |Plans(t, c, n)| == n
    ensures var plan, b := Plans(t, c, n)[i], CursorAt(t, c, i);
            && plan.step == c.step + i && plan.consumed == b.consumed && plan.baseWindow == b.windows
            && plan.microbatches == Microbatches(b.consumed, t)
            && plan.tokens == CursorAt(t, c, i + 1).consumed - b.consumed
  {
    StepAccounts(t, c, i);
    PlansLength(t, c, n - 1);
    if i < n - 1 {
      PlanAt(t, c, n - 1, i);
    }
  }

  lemma {:induction false} PlansLength(t: Train, c: Cursor, n: nat)
    requires t.Valid()
    ensures |Plans(t, c, n)| == n
  {
    if n == 0 {
    } else {
      PlansLength(t, c, n - 1);
    }
  }

  /** Enumerating from the cursor after a steps continues the enumeration. */
  lemma {:induction false} CursorCompose(t: Train, c: Cursor, a: nat, b: nat)
    requires t.Valid()
    ensures CursorAt(t, CursorAt(t, c, a), b) == CursorAt(t, c, a + b)
    ensures Plans(t, c, a + b) == Plans(t, c, a) + Plans(t, CursorAt(t, c, a), b)
  {
    if b == 0 {
    } else {
      CursorCompose(t, c, a, b - 1);
      assert a + b - 1 == a + (b - 1);
    }
  }

  /** `window_position`: micro-batch and slot of a window inside a step. */
  function WindowPosition(window: nat, plan: StepPlan, mb: nat): Outcome<(nat, nat)>
    requires mb > 0
  {
    if window < plan.baseWindow || window - plan.baseWindow >= plan.microbatches * mb
    then Failure("window is not in step")
    else Ok(((window - plan.baseWindow) / mb, (window - plan.baseWindow) % mb))
  }

  /** The position is the one grid cell whose window it is, and windows outside the step are refused. */
  lemma PositionIsExact(window: nat, plan: StepPlan, mb: nat, m: nat, slot: nat)
    requires mb > 0
    ensures WindowPosition(window, plan, mb) == Ok((m, slot)) <==>
      m < plan.microbatches && slot < mb && window == plan.baseWindow + m * mb + slot
  {
    if m < plan.microbatches && slot < mb && window == plan.baseWindow + m * mb + slot {
      RunBelow(m, slot, mb, plan.microbatches);
      DivModUnique(window - plan.baseWindow, mb, m, slot);
    }
    if WindowPosition(window, plan, mb) == Ok((m, slot)) {
      QuotientBelow(window - plan.baseWindow, mb, plan.microbatches);
    }
  }
}
