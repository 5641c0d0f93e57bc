/**
 The loss-spike protocol: skip a spiking step and the cooldown after it, and halt when too many
 fresh spikes fall inside one window.
*/
module SpikeProtocol {
  import opened Wrappers

  /** A floating-point reading, as far as the protocol can tell readings apart. */
  datatype Num = Finite(r: real) | Infinite | NaN

  datatype Reading = Reading(gradNorm: Num, loss: Num)

  datatype Config = Config(threshold: real, needed: int, window: int, skipSteps: int, startStep: int) {
    /** The protocol clamps the configured skip length to at least one step. */
    function Spacing(): (k: nat)
      ensures k >= 1 && k >= skipSteps
    {
      if skipSteps < 1 then 1 else skipSteps
    }

    /** The schema check, which does not clamp. */
    predicate Accepted() {
      (needed - 1) * skipSteps <= window
    }

    /** Whether some run can halt. */
    predicate CanHalt() {
      needed <= 0 || (needed - 1) * Spacing() <= window
    }

    predicate Spikes(r: Reading) {
      r.loss.NaN? || r.loss.Infinite? || r.gradNorm.NaN? || r.gradNorm.Infinite? || r.gradNorm.r > threshold
    }
  }

  datatype HaltReason = HaltReason(events: nat, window: int, threshold: real)

  datatype State = State(
    recent: seq<int>, cooldown: int, skipped: nat, lastSkip: int, halted: bool, reason: Option<HaltReason>)

  const CLEAN := State([], 0, 0, -1, false, None)

  predicate ShouldSkip(cfg: Config, st: State, r: Reading, step: int) {
    || r.loss.NaN? || r.loss.Infinite? || r.gradNorm.NaN? || r.gradNorm.Infinite?
    || st.cooldown > 0
    || (step >= cfg.startStep && r.gradNorm.r > cfg.threshold)
  }

  function DropBefore(events: seq<int>, cutoff: int): seq<int> {
    if events != [] && events[0] < cutoff then DropBefore(events[1..], cutoff) else events
  }

  datatype Result = Running(st: State) | Halted(at: int, st: State)

  function RecordSkip(cfg: Config, st: State, step: int): Result {
    var st := st.(skipped := st.skipped + 1, lastSkip := step);
    if st.cooldown > 0 then Running(st.(cooldown := st.cooldown - 1)) else
    var recent := DropBefore(st.recent + [step], step - cfg.window);
    var st := st.(recent := recent, cooldown := cfg.Spacing() - 1);
    if |recent| >= cfg.needed
    then Halted(step, st.(halted := true, reason := Some(HaltReason(|recent|, cfg.window, cfg.threshold))))
    else Running(st)
  }

  /** One training step: a spiking step is recorded, any other leaves the protocol alone. */
  function OneStep(cfg: Config, st: State, r: Reading, step: int): Result {
    if ShouldSkip(cfg, st, r, step) then RecordSkip(cfg, st, step) else Running(st)
  }

  /** What `state_dict` writes; a key may be missing from an older file. */
  datatype Saved = Saved(
    recent: Option<seq<int>>, cooldown: Option<int>, skipped: Option<nat>, lastSkip: Option<int>,
    halted: Option<bool>, reason: Option<Option<HaltReason>>)

  function Loaded(sd: Saved): State {
    State(
      if sd.recent.Some? then sd.recent.value else [],
      if sd.cooldown.Some? then sd.cooldown.value else 0,
      if sd.skipped.Some? then sd.skipped.value else 0,
      if sd.lastSkip.Some? then sd.lastSkip.value else -1,
      if sd.halted.Some? then sd.halted.value else false,
      if sd.reason.Some? then sd.reason.value else None)
  }

  class Protocol {
    const cfg: Config
    var recent: seq<int>
    var cooldown: int
    var skipped: nat
    var lastSkip: int
    var halted: bool
    var reason: Option<HaltReason>

    ghost function Now(): State
      reads this
    {
      State(recent, cooldown, skipped, lastSkip, halted, reason)
    }

    constructor (cfg: Config)
      ensures this.cfg == cfg && Now() == CLEAN
    {
      this.cfg := cfg;
      recent, cooldown, skipped, lastSkip, halted, reason := [], 0, 0, -1, false, None;
    }

    method Skip(r: Reading, step: int) returns (skip: bool)
      ensures skip == ShouldSkip(cfg, Now(), r, step)
    {
      if r.loss.NaN? || r.loss.Infinite? {
        return true;
      }
      if r.gradNorm.NaN? || r.gradNorm.Infinite? {
        return true;
      }
      if cooldown > 0 {
        return true;
      }
      if step < cfg.startStep {
        return false;
      }
      return r.gradNorm.r > cfg.threshold;
    }

    /** Records a skipped step; the result says whether `Halt` is raised. */
    method Record(step: int) returns (raised: bool)
      modifies this
      ensures Now() == RecordSkip(cfg, old(Now()), step).st
      ensures raised == RecordSkip(cfg, old(Now()), step).Halted?
    {
      skipped := skipped + 1;
      lastSkip := step;
      if cooldown > 0 {
        cooldown := cooldown - 1;
        return false;
      }
      recent := recent + [step];
      ghost var appended := recent;
      var cutoff := step - cfg.window;
      while recent != [] && recent[0] < cutoff
        invariant DropBefore(recent, cutoff) == DropBefore(appended, cutoff)
        invariant cooldown == old(cooldown) && skipped == old(skipped) + 1 && lastSkip == step
        invariant halted == old(halted) && reason == old(reason)
        decreases |recent|
      {
        recent := recent[1..];
      }
      cooldown := cfg.Spacing() - 1;
      if |recent| >= cfg.needed {
        halted := true;
        reason := Some(HaltReason(|recent|, cfg.window, cfg.threshold));
        return true;
      }
      return false;
    }

    method StateDict() returns (sd: Saved)
      ensures Loaded(sd) == Now()
      ensures sd.recent.Some? && sd.cooldown.Some? && sd.skipped.Some? && sd.lastSkip.Some?
      ensures sd.halted.Some? && sd.reason.Some?
    {
      sd := Saved(Some(recent), Some(cooldown), Some(skipped), Some(lastSkip), Some(halted), Some(reason));
    }

    method LoadStateDict(sd: Saved)
      modifies this
      ensures Now() == Loaded(sd)
    {
      recent := if sd.recent.Some? then sd.recent.value else [];
      cooldown := if sd.cooldown.Some? then sd.cooldown.value else 0;
      skipped := if sd.skipped.Some? then sd.skipped.value else 0;
      lastSkip := if sd.lastSkip.Some? then sd.lastSkip.value else -1;
      halted := if sd.halted.Some? then sd.halted.value else false;
      reason := if sd.reason.Some? then sd.reason.value else None;
    }
  }

  /** A key that an older file does not have is read as a clean protocol's. */
  lemma MissingKeys(sd: Saved)
    ensures sd.recent.None? ==> Loaded(sd).recent == []
    ensures sd.cooldown.None? ==> Loaded(sd).cooldown == 0
    ensures sd.skipped.None? ==> Loaded(sd).skipped == 0
    ensures sd.lastSkip.None? ==> Loaded(sd).lastSkip == -1
    ensures sd.halted.None? ==> !Loaded(sd).halted
    ensures sd.reason.None? ==> Loaded(sd).reason == None
    ensures sd.recent.Some? ==> Loaded(sd).recent == sd.recent.value
    ensures sd.cooldown.Some? ==> Loaded(sd).cooldown == sd.cooldown.value
  {}

  // ----- whole runs -------------------------------------------------------------------------------

  /** n steps from step s on, one call per step, ending early when the protocol halts. */
  function Run(cfg: Config, st: State, s: int, n: nat, obs: int -> Reading): Result {
    if n == 0 then Running(st) else
    var before := Run(cfg, st, s, n - 1, obs);
    if before.Halted? then before else OneStep(cfg, before.st, obs(s + n - 1), s + n - 1)
  }

  /** Whether the step after n steps is a fresh spike: skipped, and not by the cooldown. */
  predicate FreshAt(cfg: Config, st: State, s: int, n: nat, obs: int -> Reading) {
    var now := Run(cfg, st, s, n, obs);
    now.Running? && ShouldSkip(cfg, now.st, obs(s + n), s + n) && now.st.cooldown <= 0
  }

  /** The fresh spikes of the first n steps. */
  function Fresh(cfg: Config, st: State, s: int, n: nat, obs: int -> Reading): seq<int> {
    if n == 0 then [] else
    var before := Fresh(cfg, st, s, n - 1, obs);
    if FreshAt(cfg, st, s, n - 1, obs) then before + [s + n - 1] else before
  }

  /** The training loop's use of the protocol: one question and at most one record per step. */
  method Drive(p: Protocol, s: int, n: nat, obs: int -> Reading) returns (haltedAt: Option<int>)
    modifies p
    ensures Run(p.cfg, old(p.Now()), s, n, obs) ==
              if haltedAt.Some? then Halted(haltedAt.value, p.Now()) else Running(p.Now())
  {
    haltedAt := None;
    var i := 0;
    while i < n && haltedAt.None?
      invariant i <= n
      invariant Run(p.cfg, old(p.Now()), s, i, obs) ==
                if haltedAt.Some? then Halted(haltedAt.value, p.Now()) else Running(p.Now())
      decreases n - i
    {
      var skip := p.Skip(obs(s + i), s + i);
      if skip {
        var raised := p.Record(s + i);
        haltedAt := if raised then Some(s + i) else None;
      }
      i := i + 1;
    }
    RunCompose(p.cfg, old(p.Now()), s, i, n - i, obs);
  }

  /** A run may be cut anywhere: the second part continues from the state the first part left. */
  lemma {:induction false} RunCompose(cfg: Config, st: State, s: int, a: nat, b: nat, obs: int -> Reading)
    ensures var first := Run(cfg, st, s, a, obs);
            Run(cfg, st, s, a + b, obs) ==
              if first.Halted? then first else Run(cfg, first.st, s + a, b, obs)
  {
    if b == 0 {
    } else {
      RunCompose(cfg, st, s, a, b - 1, obs);
      assert a + b - 1 == a + (b - 1);
    }
  }

  /**
   Saving after a steps and loading into a new protocol changes nothing: the rest of the run is
   the rest of the uninterrupted run.
  */
  lemma SaveIsInvisible(cfg: Config, st: State, s: int, a: nat, b: nat, obs: int -> Reading, sd: Saved)
    requires Run(cfg, st, s, a, obs).Running? && Loaded(sd) == Run(cfg, st, s, a, obs).st
    ensures Run(cfg, Loaded(sd), s + a, b, obs) == Run(cfg, st, s, a + b, obs)
  {
    RunCompose(cfg, st, s, a, b, obs);
  }

  ghost predicate Spaced(events: seq<int>, k: nat) {
    forall i, j {:trigger events[i], events[j]} :: 0 <= i < j < |events| ==> events[i] + k <= events[j]
  }

  lemma {:induction false} SpacedSpan(events: seq<int>, k: nat, i: nat, j: nat)
    requires Spaced(events, k) && i <= j < |events|
    ensures events[j] - events[i] >= (j - i) * k
    decreases j
  {
    if i >= j {
    } else {
      SpacedSpan(events, k, i, j - 1);
      assert (j - i) * k == (j - 1 - i) * k + k;
    }
  }

  lemma SpacedSnoc(events: seq<int>, k: nat, e: int)
    requires Spaced(events, k) && forall x <- events :: x + k <= e
    ensures Spaced(events + [e], k)
  {
    forall i, j | 0 <= i < j < |events| + 1 ensures (events + [e])[i] + k <= (events + [e])[j] {
      assert events[i] in events;
    }
  }

  /** The events at or after cutoff. */
  function Since(events: seq<int>, cutoff: int): seq<int> {
    if events == [] then [] else
    var last := events[|events| - 1];
    var before := Since(events[..|events| - 1], cutoff);
    if last >= cutoff then before + [last] else before
  }

  lemma {:induction false} SinceMembers(events: seq<int>, cutoff: int, i: nat)
    requires i < |Since(events, cutoff)|
    ensures Since(events, cutoff)[i] in events && Since(events, cutoff)[i] >= cutoff
  {
    var n := |events| - 1;
    if i >= |Since(events[..n], cutoff)| {
    } else {
      SinceMembers(events[..n], cutoff, i);
    }
  }

  lemma SinceSnoc(events: seq<int>, e: int, cutoff: int)
    ensures Since(events + [e], cutoff) ==
              if e >= cutoff then Since(events, cutoff) + [e] else Since(events, cutoff)
  {
    assert (events + [e])[..|events|] == events;
  }

  lemma {:induction false} SinceCons(events: seq<int>, cutoff: int)
    requires events != []
    ensures Since(events, cutoff) == (if events[0] >= cutoff then [events[0]] else []) + Since(events[1..], cutoff)
  {
    var n := |events| - 1;
    if n == 0 {
    } else {
      SinceCons(events[..n], cutoff);
      assert events[..n][1..] == events[1..][..n - 1];
    }
  }

  lemma {:induction false} SinceAll(events: seq<int>, cutoff: int)
    requires forall i :: 0 <= i < |events| ==> events[i] >= cutoff
    ensures Since(events, cutoff) == events
  {
    if events == [] {
    } else {
      SinceAll(events[..|events| - 1], cutoff);
    }
  }

  /** Dropping old events from the front of an ascending list keeps exactly the recent ones. */
  lemma {:induction false} DropIsSince(events: seq<int>, k: nat, cutoff: int)
    requires Spaced(events, k)
    ensures DropBefore(events, cutoff) == Since(events, cutoff)
  {
    if events == [] {
    } else {
      if events[0] < cutoff {
        SinceCons(events, cutoff);
        DropIsSince(events[1..], k, cutoff);
      } else {
        SinceAll(events, cutoff);
      }
    }
  }

  lemma {:induction false} SinceSince(events: seq<int>, c: int, d: int)
    requires c <= d
    ensures Since(Since(events, c), d) == Since(events, d)
  {
    if events == [] {
    } else {
      var n := |events| - 1;
      SinceSince(events[..n], c, d);
      SinceSnoc(Since(events[..n], c), events[n], d);
    }
  }

  lemma {:induction false} SinceSpaced(events: seq<int>, k: nat, c: int)
    requires Spaced(events, k)
    ensures Spaced(Since(events, c), k)
  {
    if events == [] {
    } else {
      var n := |events| - 1;
      SinceSpaced(events[..n], k, c);
      forall i | 0 <= i < |Since(events[..n], c)| ensures Since(events[..n], c)[i] + k <= events[n] {
        SinceMembers(events[..n], c, i);
      }
      SpacedSnoc(Since(events[..n], c), k, events[n]);
    }
  }

  /** What holds between steps of any run from a clean protocol; `events` are its fresh spikes. */
  ghost predicate Inv(cfg: Config, st: State, s: int, events: seq<int>) {
    && st.cooldown >= 0
    && Spaced(events, cfg.Spacing())
    && (forall e <- events :: e + cfg.Spacing() <= s + st.cooldown && e < s)
    && (if events == [] then st.recent == []
        else st.recent == Since(events, events[|events| - 1] - cfg.window))
  }

  lemma KeptSpaced(events: seq<int>, k: nat, d: int, t: int)
    requires Spaced(events, k) && forall x <- events :: x + k <= t
    ensures Spaced(Since(events, d) + [t], k)
  {
    SinceSpaced(events, k, d);
    forall i | 0 <= i < |Since(events, d)| ensures Since(events, d)[i] + k <= t {
      SinceMembers(events, d, i);
    }
    SpacedSnoc(Since(events, d), k, t);
  }

  /** What a fresh spike at t leaves of the spikes kept since d. */
  lemma DropFromKept(events: seq<int>, k: nat, d: int, c: int, t: int)
    requires Spaced(events, k) && (forall x <- events :: x + k <= t) && d <= c
    ensures DropBefore(Since(events, d) + [t], c) == Since(events + [t], c)
  {
    KeptSpaced(events, k, d, t);
    DropIsSince(Since(events, d) + [t], k, c);
    SinceSnoc(Since(events, d), t, c);
    SinceSnoc(events, t, c);
    SinceSince(events, d, c);
  }

  /** What a fresh spike at t leaves in the window. */
  lemma WindowAfter(cfg: Config, recent: seq<int>, events: seq<int>, t: int)
    requires Spaced(events, cfg.Spacing()) && forall x <- events :: x + cfg.Spacing() <= t
    requires recent == if events == [] then [] else Since(events, events[|events| - 1] - cfg.window)
    ensures DropBefore(recent + [t], t - cfg.window) == Since(events + [t], t - cfg.window)
  {
    var d := if events == [] then t - cfg.window else events[|events| - 1] - cfg.window;
    if events != [] {
      assert events[|events| - 1] in events;
    }
    DropFromKept(events, cfg.Spacing(), d, t - cfg.window, t);
  }

  lemma FreshStep(cfg: Config, st: State, s: int, events: seq<int>)
    requires Inv(cfg, st, s, events) && st.cooldown == 0
    ensures var next := RecordSkip(cfg, st, s);
            && Inv(cfg, next.st, s + 1, events + [s])
            && next.st.recent == Since(events + [s], s - cfg.window)
            && (next.Halted? <==> |Since(events + [s], s - cfg.window)| >= cfg.needed)
  {
    WindowAfter(cfg, st.recent, events, s);
    SpacedSnoc(events, cfg.Spacing(), s);
    assert (events + [s])[|events + [s]| - 1] == s;
  }

  lemma RunSnoc(cfg: Config, st: State, s: int, n: nat, obs: int -> Reading)
    ensures var before := Run(cfg, st, s, n, obs);
            && Run(cfg, st, s, n + 1, obs)
            == (if before.Halted? then before else OneStep(cfg, before.st, obs(s + n), s + n))
            && Fresh(cfg, st, s, n + 1, obs) ==
                 Fresh(cfg, st, s, n, obs) + (if FreshAt(cfg, st, s, n, obs) then [s + n] else [])
            && (FreshAt(cfg, st, s, n, obs) <==>
                  before.Running? && ShouldSkip(cfg, before.st, obs(s + n), s + n) && before.st.cooldown <= 0)
    ensures Run(cfg, st, s, 0, obs) == Running(st) && Fresh(cfg, st, s, 0, obs) == []
  {
    hide OneStep, ShouldSkip;
  }

  /** One step keeps the invariant. */
  lemma StepKeeps(cfg: Config, st: State, t: int, events: seq<int>, r: Reading)
    requires Inv(cfg, st, t, events) && OneStep(cfg, st, r, t).Running?
    ensures Inv(cfg, OneStep(cfg, st, r, t).st, t + 1,
                events + (if ShouldSkip(cfg, st, r, t) && st.cooldown <= 0 then [t] else []))
  {
    hide Since, DropBefore, Spaced, ShouldSkip;
    if ShouldSkip(cfg, st, r, t) && st.cooldown <= 0 {
      FreshStep(cfg, st, t, events);
    } else {
      assert events + [] == events;
    }
  }

  lemma {:induction false} RunKeeps(cfg: Config, s: int, n: nat, obs: int -> Reading)
    ensures var r := Run(cfg, CLEAN, s, n, obs);
            r.Running? ==> Inv(cfg, r.st, s + n, Fresh(cfg, CLEAN, s, n, obs))
  {
    hide Inv, OneStep, ShouldSkip, Run, Fresh, FreshAt;
    if n == 0 {
      RunSnoc(cfg, CLEAN, s, n, obs);
      CleanKeeps(cfg, s);
    } else {
      RunKeeps(cfg, s, n - 1, obs);
      RunSnoc(cfg, CLEAN, s, n - 1, obs);
      var before := Run(cfg, CLEAN, s, n - 1, obs);
      if before.Running? && Run(cfg, CLEAN, s, n, obs).Running? {
        StepKeeps(cfg, before.st, s + n - 1, Fresh(cfg, CLEAN, s, n - 1, obs), obs(s + n - 1));
      }
    }
  }

  lemma CleanKeeps(cfg: Config, s: int)
    ensures Inv(cfg, CLEAN, s, [])
  {}

  /** In every run from a clean protocol, fresh spikes are at least the skip length apart. */
  lemma {:induction false} FreshSpikesAreSpaced(cfg: Config, s: int, n: nat, obs: int -> Reading)
    ensures Spaced(Fresh(cfg, CLEAN, s, n, obs), cfg.Spacing())
    ensures forall e <- Fresh(cfg, CLEAN, s, n, obs) :: s <= e < s + n
  {
    hide RecordSkip, Since;
    if n == 0 {
    } else {
      FreshSpikesAreSpaced(cfg, s, n - 1, obs);
      if FreshAt(cfg, CLEAN, s, n - 1, obs) {
        RunKeeps(cfg, s, n - 1, obs);
        SpacedSnoc(Fresh(cfg, CLEAN, s, n - 1, obs), cfg.Spacing(), s + n - 1);
      }
    }
  }

  /**
   A run halts at a step exactly when that step is a fresh spike and at least the configured number
   of the run's fresh spikes, this one included, lie in the window ending there.
  */
  lemma HaltNeedsEnoughSpikes(cfg: Config, s: int, n: nat, obs: int -> Reading)
    requires Run(cfg, CLEAN, s, n, obs).Running?
    ensures Run(cfg, CLEAN, s, n + 1, obs).Halted? <==>
              && FreshAt(cfg, CLEAN, s, n, obs)
              && |Since(Fresh(cfg, CLEAN, s, n + 1, obs), s + n - cfg.window)| >= cfg.needed
  {
    hide Run, Fresh, FreshAt, Since, DropBefore, ShouldSkip, Spaced;
    RunSnoc(cfg, CLEAN, s, n, obs);
    RunKeeps(cfg, s, n, obs);
    if FreshAt(cfg, CLEAN, s, n, obs) {
      FreshStep(cfg, Run(cfg, CLEAN, s, n, obs).st, s + n, Fresh(cfg, CLEAN, s, n, obs));
    }
  }

  /** Enough spaced events inside one window fit into it. */
  lemma NoRoom(cfg: Config, events: seq<int>, t: int)
    requires Spaced(events, cfg.Spacing()) && forall e <- events :: e <= t
    requires |Since(events, t - cfg.window)| >= cfg.needed
    ensures cfg.CanHalt()
  {
    var close := Since(events, t - cfg.window);
    if cfg.needed >= 1 {
      SinceSpaced(events, cfg.Spacing(), t - cfg.window);
      SpacedSpan(close, cfg.Spacing(), 0, cfg.needed - 1);
      SinceMembers(events, t - cfg.window, 0);
      SinceMembers(events, t - cfg.window, cfg.needed - 1);
    }
  }

  /** When the spikes a halt needs cannot fit in one window, no run halts, whatever it reads. */
  lemma {:induction false} NeverHalts(cfg: Config, s: int, n: nat, obs: int -> Reading)
    requires !cfg.CanHalt()
    ensures Run(cfg, CLEAN, s, n, obs).Running?
  {
    if n == 0 {
    } else {
      NeverHalts(cfg, s, n - 1, obs);
      HaltNeedsEnoughSpikes(cfg, s, n - 1, obs);
      FreshSpikesAreSpaced(cfg, s, n, obs);
      var events := Fresh(cfg, CLEAN, s, n, obs);
      var t := s + n - 1;
      if |Since(events, t - cfg.window)| >= cfg.needed {
        NoRoom(cfg, events, t);
      }
    }
  }

  // ----- a run, from its readings alone --------------------------------------------------------------

  /** A reading that spikes at step t: one that is not finite, or from the start step on one above the threshold. */
  predicate Bad(cfg: Config, r: Reading, t: int) {
    !r.loss.Finite? || !r.gradNorm.Finite? || (t >= cfg.startStep && r.gradNorm.r > cfg.threshold)
  }

  /** An earlier fresh spike lies less than the skip length before step t. */
  predicate Cooling(cfg: Config, events: seq<int>, t: int) {
    exists i :: 0 <= i < |events| && t < events[i] + cfg.Spacing()
  }

  /** The fresh spikes of the first n steps: spiking readings outside every earlier cooldown. */
  function Events(cfg: Config, s: int, n: nat, obs: int -> Reading): seq<int> {
    if n == 0 then [] else
    var before, t := Events(cfg, s, n - 1, obs), s + n - 1;
    if Bad(cfg, obs(t), t) && !Cooling(cfg, before, t) then before + [t] else before
  }

  /** Step number k of the run is skipped. */
  predicate SkippedAt(cfg: Config, s: int, k: nat, obs: int -> Reading) {
    Bad(cfg, obs(s + k), s + k) || Cooling(cfg, Events(cfg, s, k, obs), s + k)
  }

  function SkipCount(cfg: Config, s: int, n: nat, obs: int -> Reading): nat {
    if n == 0 then 0 else SkipCount(cfg, s, n - 1, obs) + (if SkippedAt(cfg, s, n - 1, obs) then 1 else 0)
  }

  /** The last of the first n steps that is skipped, or -1. */
  function LastSkipped(cfg: Config, s: int, n: nat, obs: int -> Reading): int {
    if n == 0 then -1 else if SkippedAt(cfg, s, n - 1, obs) then s + n - 1 else LastSkipped(cfg, s, n - 1, obs)
  }

  /** Step number k is a fresh spike, with enough fresh spikes in the window that ends there. */
  predicate HaltsAt(cfg: Config, s: int, k: nat, obs: int -> Reading) {
    && Bad(cfg, obs(s + k), s + k) && !Cooling(cfg, Events(cfg, s, k, obs), s + k)
    && |Since(Events(cfg, s, k, obs) + [s + k], s + k - cfg.window)| >= cfg.needed
  }

  /** The protocol's state at step t, from the fresh spikes and the skips before it. */
  function StateOf(cfg: Config, events: seq<int>, t: int, skips: nat, lastSkip: int): State {
    if events == [] then State([], 0, skips, lastSkip, false, None)
    else
      var last := events[|events| - 1];
      var left := last + cfg.Spacing() - t;
      State(Since(events, last - cfg.window), if left > 0 then left else 0, skips, lastSkip, false, None)
  }

  lemma {:induction false} EventsSpaced(cfg: Config, s: int, n: nat, obs: int -> Reading)
    ensures Spaced(Events(cfg, s, n, obs), cfg.Spacing())
    ensures forall e <- Events(cfg, s, n, obs) :: s <= e < s + n
  {
    if n == 0 {
    } else {
      EventsSpaced(cfg, s, n - 1, obs);
      var before, t := Events(cfg, s, n - 1, obs), s + n - 1;
      if Bad(cfg, obs(t), t) && !Cooling(cfg, before, t) {
        SpacedSnoc(before, cfg.Spacing(), t);
      }
    }
  }

  /** A cooldown is that of the last fresh spike. */
  lemma CoolingIsLast(cfg: Config, events: seq<int>, t: int)
    requires Spaced(events, cfg.Spacing())
    ensures Cooling(cfg, events, t) <==> events != [] && t < events[|events| - 1] + cfg.Spacing()
  {
    if i :| 0 <= i < |events| && t < events[i] + cfg.Spacing() {
      SpacedSpan(events, cfg.Spacing(), i, |events| - 1);
      assert (|events| - 1 - i) * cfg.Spacing() >= 0;
    }
  }

  function HistoryAt(cfg: Config, s: int, n: nat, obs: int -> Reading): State {
    StateOf(cfg, Events(cfg, s, n, obs), s + n, SkipCount(cfg, s, n, obs), LastSkipped(cfg, s, n, obs))
  }

  /** What a run that halts at step k is left with. */
  function HaltedAt(cfg: Config, s: int, k: nat, obs: int -> Reading): State {
    var close := Since(Events(cfg, s, k, obs) + [s + k], s + k - cfg.window);
    HistoryAt(cfg, s, k + 1, obs).(halted := true, reason := Some(HaltReason(|close|, cfg.window, cfg.threshold)))
  }

  /** The question of a step, asked of the state its history gives. */
  lemma HistorySkips(cfg: Config, s: int, n: nat, obs: int -> Reading)
    ensures ShouldSkip(cfg, HistoryAt(cfg, s, n, obs), obs(s + n), s + n) <==> SkippedAt(cfg, s, n, obs)
    ensures HistoryAt(cfg, s, n, obs).cooldown > 0 <==> Cooling(cfg, Events(cfg, s, n, obs), s + n)
    ensures HistoryAt(cfg, s, n, obs).cooldown >= 0
  {
    hide Since, Spaced, Events, SkipCount, LastSkipped, Cooling;
    EventsSpaced(cfg, s, n, obs);
    CoolingIsLast(cfg, Events(cfg, s, n, obs), s + n);
  }

  /** One step of a run whose state is as its history says. */
  lemma HistoryStep(cfg: Config, s: int, n: nat, obs: int -> Reading)
    ensures OneStep(cfg, HistoryAt(cfg, s, n, obs), obs(s + n), s + n)
         == if HaltsAt(cfg, s, n, obs) then Halted(s + n, HaltedAt(cfg, s, n, obs))
            else Running(HistoryAt(cfg, s, n + 1, obs))
  {
    hide Since, DropBefore, Spaced, Cooling, Bad, ShouldSkip;
    HistorySkips(cfg, s, n, obs);
    EventsSpaced(cfg, s, n, obs);
    CoolingIsLast(cfg, Events(cfg, s, n, obs), s + n);
    if !Cooling(cfg, Events(cfg, s, n, obs), s + n) {
      FreshHistory(cfg, Events(cfg, s, n, obs), s + n);
    }
  }

  lemma FreshHistory(cfg: Config, events: seq<int>, t: int)
    requires Spaced(events, cfg.Spacing()) && !Cooling(cfg, events, t)
    ensures var recent := if events == [] then [] else Since(events, events[|events| - 1] - cfg.window);
            DropBefore(recent + [t], t - cfg.window) == Since(events + [t], t - cfg.window)
  {
    forall x | x in events ensures x + cfg.Spacing() <= t {
      var i :| 0 <= i < |events| && events[i] == x;
    }
    WindowAfter(cfg, if events == [] then [] else Since(events, events[|events| - 1] - cfg.window), events, t);
  }

  /**
   A run from a clean protocol, from its readings alone: it goes on exactly while no step halts, its fresh
   spikes are the spiking readings outside earlier cooldowns, and its whole state is a function of them.
  */
  lemma {:induction false} RunIsHistory(cfg: Config, s: int, n: nat, obs: int -> Reading)
    ensures Run(cfg, CLEAN, s, n, obs).Running? <==> forall k :: 0 <= k < n ==> !HaltsAt(cfg, s, k, obs)
    ensures Run(cfg, CLEAN, s, n, obs).Running? ==>
      && Run(cfg, CLEAN, s, n, obs).st == HistoryAt(cfg, s, n, obs)
      && Fresh(cfg, CLEAN, s, n, obs) == Events(cfg, s, n, obs)
  {
    hide HaltsAt, ShouldSkip, OneStep, Bad, Cooling, Run, Fresh, FreshAt, StateOf, SkipCount, LastSkipped;
    if n == 0 {
      RunSnoc(cfg, CLEAN, s, n, obs);
      HistoryStart(cfg, s, obs);
    } else {
      RunSnoc(cfg, CLEAN, s, n - 1, obs);
      RunIsHistory(cfg, s, n - 1, obs);
      HistoryStep(cfg, s, n - 1, obs);
      HistorySkips(cfg, s, n - 1, obs);
    }
  }

  lemma HistoryStart(cfg: Config, s: int, obs: int -> Reading)
    ensures HistoryAt(cfg, s, 0, obs) == CLEAN && Events(cfg, s, 0, obs) == []
  {}

  /** The question of a step, from the readings alone: skip a spiking reading and every cooldown, nothing else. */
  lemma SkipIsHistory(cfg: Config, s: int, n: nat, obs: int -> Reading)
    requires Run(cfg, CLEAN, s, n, obs).Running?
    ensures ShouldSkip(cfg, Run(cfg, CLEAN, s, n, obs).st, obs(s + n), s + n) <==>
              Bad(cfg, obs(s + n), s + n) || Cooling(cfg, Fresh(cfg, CLEAN, s, n, obs), s + n)
    ensures FreshAt(cfg, CLEAN, s, n, obs) <==>
              Bad(cfg, obs(s + n), s + n) && !Cooling(cfg, Fresh(cfg, CLEAN, s, n, obs), s + n)
  {
    hide ShouldSkip, OneStep, Events, HaltsAt, Run, Fresh, HistoryAt, Bad, Cooling;
    RunIsHistory(cfg, s, n, obs);
    HistorySkips(cfg, s, n, obs);
  }

  /** The first step that halts ends the run: it stands there for ever after. */
  lemma {:induction false} HaltEndsTheRun(cfg: Config, s: int, k: nat, n: nat, obs: int -> Reading)
    requires k < n && HaltsAt(cfg, s, k, obs) && forall j :: 0 <= j < k ==> !HaltsAt(cfg, s, j, obs)
    ensures Run(cfg, CLEAN, s, n, obs) == Halted(s + k, HaltedAt(cfg, s, k, obs))
  {
    hide HaltsAt, OneStep, ShouldSkip, HistoryAt, HaltedAt;
    if n == k + 1 {
      RunIsHistory(cfg, s, k, obs);
      HistoryStep(cfg, s, k, obs);
    } else {
      HaltEndsTheRun(cfg, s, k, n - 1, obs);
    }
  }

  /** A run without a spiking reading skips nothing and leaves the protocol clean. */
  lemma QuietRunIsClean(cfg: Config, s: int, n: nat, obs: int -> Reading)
    requires forall t :: s <= t < s + n ==>
      obs(t).loss.Finite? && obs(t).gradNorm.Finite? && (t < cfg.startStep || obs(t).gradNorm.r <= cfg.threshold)
    ensures Run(cfg, CLEAN, s, n, obs) == Running(CLEAN)
  {
    QuietHistory(cfg, s, n, obs);
    RunIsHistory(cfg, s, n, obs);
    forall k | 0 <= k < n ensures !HaltsAt(cfg, s, k, obs) {
      assert !Bad(cfg, obs(s + k), s + k);
    }
  }

  lemma {:induction false} QuietHistory(cfg: Config, s: int, n: nat, obs: int -> Reading)
    requires forall t :: s <= t < s + n ==> !Bad(cfg, obs(t), t)
    ensures Events(cfg, s, n, obs) == [] && SkipCount(cfg, s, n, obs) == 0 && LastSkipped(cfg, s, n, obs) == -1
  {
    if n == 0 {
    } else {
      QuietHistory(cfg, s, n - 1, obs);
    }
  }

  // ----- a persistent spike -----------------------------------------------------------------------

  /** How long after the first spike a persistent spike counts afresh for the m-th time. */
  function Wait(k: nat, m: nat): nat {
    if m == 0 then 0 else Wait(k, m - 1) + k
  }

  lemma {:induction false} WaitIs(k: nat, m: nat)
    ensures Wait(k, m) == m * k
  {
    if m == 0 {
    } else {
      WaitIs(k, m - 1);
      assert m * k == (m - 1) * k + k;
    }
  }

  /** The first m fresh spikes of a persistent spike from step s: every k-th step. */
  function Every(s: int, k: nat, m: nat): (e: seq<int>)
    ensures |e| == m
  {
    if m == 0 then [] else Every(s, k, m - 1) + [s + Wait(k, m - 1)]
  }

  lemma {:induction false} EveryFirst(s: int, k: nat, m: nat)
    requires m > 0
    ensures Every(s, k, m)[0] == s
  {
    if m <= 1 {
    } else {
      EveryFirst(s, k, m - 1);
    }
  }

  ghost predicate Persistent(cfg: Config, s: int, obs: int -> Reading) {
    s >= cfg.startStep && forall t :: t >= s ==> cfg.Spikes(obs(t))
  }

  /** The run n steps in stands right before the next fresh spike, the m-th, counting from none. */
  ghost predicate Ready(cfg: Config, s: int, n: nat, m: nat, obs: int -> Reading) {
    var r := Run(cfg, CLEAN, s, n, obs);
    r.Running? && r.st.cooldown == 0 && r.st.recent == Every(s, cfg.Spacing(), m)
  }

  /** The next fresh spike of a persistent spike drops nothing from the window. */
  lemma NextPersistent(cfg: Config, s: int, m: nat, obs: int -> Reading)
    requires Persistent(cfg, s, obs) && m < cfg.needed && Wait(cfg.Spacing(), m) <= cfg.window
    requires Ready(cfg, s, Wait(cfg.Spacing(), m), m, obs)
    ensures var r := Run(cfg, CLEAN, s, Wait(cfg.Spacing(), m) + 1, obs);
            && r.st.cooldown == cfg.Spacing() - 1 && r.st.recent == Every(s, cfg.Spacing(), m + 1)
            && r == (if m + 1 < cfg.needed then Running(r.st) else Halted(s + Wait(cfg.Spacing(), m), r.st))
  {
    var k := cfg.Spacing();
    var n := Wait(k, m);
    var t := s + n;
    assert cfg.Spikes(obs(t));
    EveryFirst(s, k, m + 1);
    assert DropBefore(Every(s, k, m + 1), t - cfg.window) == Every(s, k, m + 1);
    assert Run(cfg, CLEAN, s, n + 1, obs) == OneStep(cfg, Run(cfg, CLEAN, s, n, obs).st, obs(t), t);
  }

  /** The cooldown after a fresh spike runs down one step at a time. */
  lemma {:induction false} CooldownRuns(cfg: Config, s: int, n: nat, j: nat, obs: int -> Reading)
    requires Persistent(cfg, s, obs) && Run(cfg, CLEAN, s, n, obs).Running?
    requires 0 <= j <= Run(cfg, CLEAN, s, n, obs).st.cooldown
    ensures var before, after := Run(cfg, CLEAN, s, n, obs), Run(cfg, CLEAN, s, n + j, obs);
            && after.Running? && after.st.cooldown == before.st.cooldown - j && after.st.recent == before.st.recent
    decreases j
  {
    if j == 0 {
    } else {
      CooldownRuns(cfg, s, n, j - 1, obs);
      assert Run(cfg, CLEAN, s, n + j, obs)
          == OneStep(cfg, Run(cfg, CLEAN, s, n + j - 1, obs).st, obs(s + n + j - 1), s + n + j - 1);
    }
  }

  /** As long as a spike persists and no halt is due, the protocol comes back to a fresh spike. */
  lemma {:induction false} PersistentRun(cfg: Config, s: int, m: nat, obs: int -> Reading)
    requires Persistent(cfg, s, obs) && m < cfg.needed && Wait(cfg.Spacing(), m) <= cfg.window
    ensures Ready(cfg, s, Wait(cfg.Spacing(), m), m, obs)
    decreases m
  {
    if m == 0 {
    } else {
      PersistentRun(cfg, s, m - 1, obs);
      NextPersistent(cfg, s, m - 1, obs);
      CooldownRuns(cfg, s, Wait(cfg.Spacing(), m - 1) + 1, cfg.Spacing() - 1, obs);
    }
  }

  /**
   When the spikes a halt needs do fit, a spike that persists from a clean protocol at step s halts
   exactly after the last of them: not one step earlier, and not later.
  */
  lemma PersistentSpikeHalts(cfg: Config, s: int, obs: int -> Reading)
    requires Persistent(cfg, s, obs) && cfg.needed >= 1 && cfg.CanHalt()
    ensures var wait := (cfg.needed - 1) * cfg.Spacing();
            && wait >= 0
            && Run(cfg, CLEAN, s, wait, obs).Running?
            && Run(cfg, CLEAN, s, wait + 1, obs).Halted? && Run(cfg, CLEAN, s, wait + 1, obs).at == s + wait
  {
    WaitIs(cfg.Spacing(), cfg.needed - 1);
    PersistentRun(cfg, s, cfg.needed - 1, obs);
    NextPersistent(cfg, s, cfg.needed - 1, obs);
  }

  /** A threshold of no spikes at all halts on the first one. */
  lemma FirstSpikeHalts(cfg: Config, s: int, obs: int -> Reading)
    requires s >= cfg.startStep && cfg.Spikes(obs(s)) && cfg.needed <= 0
    ensures Run(cfg, CLEAN, s, 1, obs).Halted? && Run(cfg, CLEAN, s, 1, obs).at == s
  {
    assert Run(cfg, CLEAN, s, 0, obs) == Running(CLEAN);
  }

  predicate HaltsWithin(cfg: Config, s: int, n: nat, obs: int -> Reading) {
    Run(cfg, CLEAN, s, n, obs).Halted?
  }

  /** The configurations under which a spike that persists from a clean protocol ever halts. */
  lemma HaltsExactlyWhenItCan(cfg: Config, s: int, obs: int -> Reading)
    requires Persistent(cfg, s, obs)
    ensures (exists n: nat :: HaltsWithin(cfg, s, n, obs)) <==> cfg.CanHalt()
  {
    if cfg.CanHalt() {
      if cfg.needed <= 0 {
        FirstSpikeHalts(cfg, s, obs);
        assert HaltsWithin(cfg, s, 1, obs);
      } else {
        PersistentSpikeHalts(cfg, s, obs);
        assert HaltsWithin(cfg, s, (cfg.needed - 1) * cfg.Spacing() + 1, obs);
      }
    } else {
      forall n: nat ensures !HaltsWithin(cfg, s, n, obs) {
        NeverHalts(cfg, s, n, obs);
      }
    }
  }

  /**
   The schema check agrees with the protocol for every skip length of at least one, except that it
   also refuses some thresholds of no spikes; it misjudges shorter skip lengths, which the protocol
   clamps and the check does not.
  */
  lemma AcceptedCanHalt(cfg: Config)
    ensures cfg.skipSteps >= 1 && cfg.needed >= 1 ==> (cfg.Accepted() <==> cfg.CanHalt())
    ensures cfg.Accepted() && !cfg.CanHalt() ==> cfg.skipSteps < 1
    ensures cfg.Accepted() ==>
              (cfg.CanHalt() <==> cfg.skipSteps >= 1 || cfg.needed <= 0 || cfg.needed - 1 <= cfg.window)
  {}

  /** A configuration the schema accepts and under which the protocol skips for ever. */
  lemma AcceptedButNeverHalts(s: int, n: nat, obs: int -> Reading)
    ensures var cfg := Config(1.0, 5, 3, 0, 0); cfg.Accepted() && Run(cfg, CLEAN, s, n, obs).Running?
  {
    NeverHalts(Config(1.0, 5, 3, 0, 0), s, n, obs);
  }
}
