/**
 The chained state hash: how the training loop advances it and stamps checkpoints, and how an audit
 recomputes both from any saved checkpoint.
*/
module HashChain {
  import opened Wrappers

  type Hash = nat

  /**
   What is deterministic and not modelled here: one optimizer step, whether the spike protocol halts
   in it, the tokens it consumes, and the parts of a state hash. `shard(s, grads, r)` is the digest rank r
   takes of its own shard of the state, with the gradients or without; `terms(s)` stands for the optimizer's
   parameter groups and the batch digest; `finish` folds the chain, the ranks' digests and the terms.
  */
  datatype World<!S> = World(
    next: (S, nat, nat) -> S, halts: (S, nat, nat) -> bool, tokens: nat -> nat,
    ranks: nat, shard: (S, bool, nat) -> Hash, terms: S -> Hash, finish: (Option<Hash>, seq<Hash>, Hash) -> Hash)
  {
    ghost predicate Valid() {
      ranks >= 1 && forall consumed: nat :: tokens(consumed) >= 1
    }

    /** The digests of the first n ranks. */
    function Digests(s: S, grads: bool, n: nat): (ds: seq<Hash>)
      ensures |ds| == n && forall r :: 0 <= r < n ==> ds[r] == shard(s, grads, r)
    {
      seq<Hash>(n, r requires 0 <= r < n => shard(s, grads, r))
    }

    /** The unchained hash of all ranks without gradients: what the audit falls back to. */
    function Bare(s: S): Hash {
      finish(None, Digests(s, false, ranks), terms(s))
    }
  }

  datatype Config = Config(
    hashEvery: int, includeGrads: bool, ckptEverySteps: int, ckptEveryTokens: int, totalTokens: nat)
  {
    predicate HashDue(step: nat) {
      hashEvery > 0 && step % hashEvery == 0
    }

    predicate CkptDue(step: nat, sinceLast: int) {
      if ckptEverySteps > 0 then step % ckptEverySteps == 0 else sinceLast >= ckptEveryTokens
    }
  }

  /** Between two steps: the training state, the counters, and the running chain. */
  datatype Pos<S> = Pos(state: S, step: nat, consumed: nat, chain: Option<Hash>)

  /** A checkpoint: a position, and the hash in its state_hash.txt. */
  datatype Ckpt<S> = Ckpt(pos: Pos<S>, stamp: Hash)

  // ----- the ideal run: steps and due hashes only -------------------------------------------------

  function StepState<S>(w: World<S>, p: Pos<S>): S {
    w.next(p.state, p.step, p.consumed)
  }

  /** The digests that go into a hash of the loop: the group that gathers them exists only with hashing on. */
  function Gathered<S>(w: World<S>, cfg: Config, s: S): seq<Hash> {
    w.Digests(s, cfg.includeGrads, if cfg.hashEvery > 0 then w.ranks else 1)
  }

  /** The loop's hash of a state, chained to an earlier hash. */
  function Seal<S>(w: World<S>, cfg: Config, chain: Option<Hash>, s: S): Hash {
    w.finish(chain, Gathered(w, cfg, s), w.terms(s))
  }

  /** The hash of the step after p, chained to the chain before it. */
  function Stamp<S>(w: World<S>, cfg: Config, p: Pos<S>): Hash {
    Seal(w, cfg, p.chain, StepState(w, p))
  }

  function Advance<S>(w: World<S>, cfg: Config, p: Pos<S>): Pos<S> {
    Pos(StepState(w, p), p.step + 1, p.consumed + w.tokens(p.consumed),
        if cfg.HashDue(p.step + 1) then Some(Stamp(w, cfg, p)) else p.chain)
  }

  function PosAfter<S>(w: World<S>, cfg: Config, p: Pos<S>, n: nat): Pos<S>
    decreases n
  {
    if n == 0 then p else PosAfter(w, cfg, Advance(w, cfg, p), n - 1)
  }

  function CkptAt<S>(w: World<S>, cfg: Config, p: Pos<S>, n: nat): Ckpt<S>
    requires n > 0
  {
    Ckpt(PosAfter(w, cfg, p, n), Stamp(w, cfg, PosAfter(w, cfg, p, n - 1)))
  }

  predicate Halts<S>(w: World<S>, p: Pos<S>) {
    w.halts(p.state, p.step, p.consumed)
  }

  /** No step of the next n halts. */
  predicate Runs<S>(w: World<S>, cfg: Config, p: Pos<S>, n: nat)
    decreases n
  {
    n == 0 || (!Halts(w, p) && Runs(w, cfg, Advance(w, cfg, p), n - 1))
  }

  lemma {:induction false} RunsCompose<S>(w: World<S>, cfg: Config, p: Pos<S>, m: nat, n: nat)
    ensures Runs(w, cfg, p, m + n) <==> Runs(w, cfg, p, m) && Runs(w, cfg, PosAfter(w, cfg, p, m), n)
    decreases m
  {
    if m == 0 {
    } else {
      RunsCompose(w, cfg, Advance(w, cfg, p), m - 1, n);
    }
  }

  lemma {:induction false} PosCompose<S>(w: World<S>, cfg: Config, p: Pos<S>, m: nat, n: nat)
    ensures PosAfter(w, cfg, PosAfter(w, cfg, p, m), n) == PosAfter(w, cfg, p, m + n)
    decreases m
  {
    if m == 0 {
    } else {
      PosCompose(w, cfg, Advance(w, cfg, p), m - 1, n);
    }
  }

  lemma {:induction false} PosCounts<S>(w: World<S>, cfg: Config, p: Pos<S>, n: nat)
    requires w.Valid()
    ensures PosAfter(w, cfg, p, n).step == p.step + n
    ensures PosAfter(w, cfg, p, n).consumed >= p.consumed + n
    decreases n
  {
    if n == 0 {
    } else {
      PosCounts(w, cfg, Advance(w, cfg, p), n - 1);
    }
  }

  /** The position lies on the run from p, and the checkpoint is the one of its step. */
  ghost predicate PosOnRun<S>(w: World<S>, cfg: Config, p: Pos<S>, q: Pos<S>) {
    q.step >= p.step && q == PosAfter(w, cfg, p, q.step - p.step) && Runs(w, cfg, p, q.step - p.step)
  }

  ghost predicate OnRun<S>(w: World<S>, cfg: Config, p: Pos<S>, c: Ckpt<S>) {
    && c.pos.step > p.step && c == CkptAt(w, cfg, p, c.pos.step - p.step)
    && Runs(w, cfg, p, c.pos.step - p.step)
  }

  // ----- the training loop ------------------------------------------------------------------------

  datatype LogEntry = LogEntry(step: nat, hash: Hash)

  /** Whether the loop goes on, left on a shutdown request, or left on a raised halt. */
  datatype Ending = Open | Exited | Halted

  /** A session of the training loop. */
  datatype Session<S> = Session(
    pos: Pos<S>, lastCkptAt: int, saved: seq<Ckpt<S>>, log: seq<LogEntry>, ending: Ending)

  /** A session resumed from a position; nothing is unsaved yet. */
  function Started<S>(p: Pos<S>): Session<S> {
    Session(p, p.consumed, [], [], Open)
  }

  /** One iteration; a halt is raised before anything of the step is counted, hashed or saved. */
  function LoopStep<S>(w: World<S>, cfg: Config, s: Session<S>, exit: bool): Session<S> {
    if Halts(w, s.pos) then s.(ending := Halted) else
    var q := Advance(w, cfg, s.pos);
    var hash := Stamp(w, cfg, s.pos);
    var final := q.consumed >= cfg.totalTokens;
    var save := cfg.CkptDue(q.step, q.consumed - s.lastCkptAt) || exit || (final && q.consumed > s.lastCkptAt);
    Session(q,
            if save then q.consumed else s.lastCkptAt,
            if save then s.saved + [Ckpt(q, hash)] else s.saved,
            if cfg.HashDue(q.step) then s.log + [LogEntry(q.step, hash)] else s.log,
            if exit then Exited else Open)
  }

  function TrainFrom<S>(w: World<S>, cfg: Config, s: Session<S>, exits: nat -> bool): Session<S>
    requires w.Valid()
    decreases cfg.totalTokens - s.pos.consumed, s.ending.Open?
  {
    if !s.ending.Open? || s.pos.consumed >= cfg.totalTokens then s
    else TrainFrom(w, cfg, LoopStep(w, cfg, s, exits(s.pos.step + 1)), exits)
  }

  class TrainLoop<!S> {
    const w: World<S>
    const cfg: Config
    var state: S
    var step: nat
    var consumed: nat
    var chain: Option<Hash>
    var lastCkptAt: int
    var saved: seq<Ckpt<S>>
    var log: seq<LogEntry>

    /** A cold start has no chain; a resume restores the chain the checkpoint's meta carries. */
    constructor (w: World<S>, cfg: Config, p: Pos<S>)
      ensures this.w == w && this.cfg == cfg && Now(Open) == Started(p)
    {
      this.w, this.cfg := w, cfg;
      state, step, consumed, chain := p.state, p.step, p.consumed, p.chain;
      lastCkptAt, saved, log := p.consumed, [], [];
    }

    ghost function Now(ending: Ending): Session<S>
      reads this
    {
      Session(Pos(state, step, consumed, chain), lastCkptAt, saved, log, ending)
    }

    /** One iteration: step, then hash when a hash or a save is due, then log, then save. */
    method Iterate(exitDue: bool) returns (ending: Ending)
      modifies this
      ensures Now(ending) == LoopStep(w, cfg, old(Now(Open)), exitDue)
      ensures ending.Halted? <==> Halts(w, old(Now(Open)).pos)
      ensures ending.Exited? <==> exitDue && !Halts(w, old(Now(Open)).pos)
      ensures !ending.Halted? ==> consumed == old(consumed) + w.tokens(old(consumed))
    {
      hide Seal, Gathered;
      if w.halts(state, step, consumed) {
        return Halted;
      }
      var tokensThisStep := w.tokens(consumed);
      state := w.next(state, step, consumed);
      step := step + 1;
      consumed := consumed + tokensThisStep;
      var finalStep := consumed >= cfg.totalTokens;
      var stateHash: Option<Hash> := None;
      var ckptHash: Option<Hash> := None;
      var hashDue := cfg.HashDue(step);
      var ckptDue := cfg.CkptDue(step, consumed - lastCkptAt);
      if hashDue || ckptDue || exitDue || finalStep {
        var h := Seal(w, cfg, chain, state);
        ckptHash := Some(h);
        if hashDue {
          chain := Some(h);
          stateHash := Some(h);
        }
      }
      if stateHash.Some? {
        log := log + [LogEntry(step, stateHash.value)];
      }
      if ckptDue || exitDue || (finalStep && consumed > lastCkptAt) {
        saved := saved + [Ckpt(Pos(state, step, consumed, chain), ckptHash.value)];
        lastCkptAt := consumed;
      }
      return if exitDue then Exited else Open;
    }

    /** The loop; `exits(k)` says whether a shutdown was requested during step k. */
    method Train(exits: nat -> bool) returns (ending: Ending)
      requires w.Valid()
      modifies this
      ensures Now(ending) == TrainFrom(w, cfg, old(Now(Open)), exits)
    {
      ending := Open;
      while consumed < cfg.totalTokens && ending.Open?
        invariant TrainFrom(w, cfg, Now(ending), exits) == TrainFrom(w, cfg, old(Now(Open)), exits)
        decreases cfg.totalTokens - consumed, ending.Open?
      {
        ending := Iterate(exits(step + 1));
      }
    }
  }

  lemma StepOnRun<S>(w: World<S>, cfg: Config, p: Pos<S>, q: Pos<S>)
    requires w.Valid() && PosOnRun(w, cfg, p, q) && !Halts(w, q)
    ensures PosOnRun(w, cfg, p, Advance(w, cfg, q))
    ensures OnRun(w, cfg, p, Ckpt(Advance(w, cfg, q), Stamp(w, cfg, q)))
  {
    var n := q.step - p.step;
    PosCompose(w, cfg, p, n, 1);
    RunsCompose(w, cfg, p, n, 1);
    assert PosAfter(w, cfg, q, 1) == PosAfter(w, cfg, Advance(w, cfg, q), 0);
    assert Runs(w, cfg, q, 1) == Runs(w, cfg, Advance(w, cfg, q), 0);
  }

  /** The entry is that of a completed step of the run whose number is a multiple of the hash cadence. */
  ghost predicate LogOnRun<S>(w: World<S>, cfg: Config, p: Pos<S>, e: LogEntry) {
    && e.step > p.step && cfg.hashEvery > 0 && e.step % cfg.hashEvery == 0
    && e.hash == CkptAt(w, cfg, p, e.step - p.step).stamp
    && Runs(w, cfg, p, e.step - p.step)
  }

  /**
   Whatever the cadences and shutdown requests are, every checkpoint a session saves is the
   checkpoint of its step of the run, and every logged hash is the stamp of its step.
  */
  lemma {:induction false} SessionStaysOnRun<S>(w: World<S>, cfg: Config, p: Pos<S>, s: Session<S>, exits: nat -> bool)
    requires w.Valid() && PosOnRun(w, cfg, p, s.pos)
    requires forall c :: c in s.saved ==> OnRun(w, cfg, p, c) && c.pos.step <= s.pos.step
    requires forall e :: e in s.log ==> LogOnRun(w, cfg, p, e) && e.step <= s.pos.step
    ensures var t := TrainFrom(w, cfg, s, exits);
            && PosOnRun(w, cfg, p, t.pos) && t.pos.step >= s.pos.step
            && (forall c :: c in t.saved ==> OnRun(w, cfg, p, c) && c.pos.step <= t.pos.step)
            && (forall e :: e in t.log ==> LogOnRun(w, cfg, p, e) && e.step <= t.pos.step)
    decreases cfg.totalTokens - s.pos.consumed
  {
    if !s.ending.Open? || s.pos.consumed >= cfg.totalTokens || Halts(w, s.pos) {
      EndsHere(w, cfg, s, exits);
    } else {
      StepOnRun(w, cfg, p, s.pos);
      SessionStaysOnRun(w, cfg, p, LoopStep(w, cfg, s, exits(s.pos.step + 1)), exits);
    }
  }

  /** Where the loop does not enter another iteration, or halts in it, nothing more is recorded. */
  lemma EndsHere<S>(w: World<S>, cfg: Config, s: Session<S>, exits: nat -> bool)
    requires w.Valid() && (!s.ending.Open? || s.pos.consumed >= cfg.totalTokens || Halts(w, s.pos))
    ensures var t := TrainFrom(w, cfg, s, exits); t == s || t == s.(ending := Halted)
  {}

  /** The log holds exactly the stamps of the due steps of the run up to a position. */
  ghost predicate LogIs<S>(w: World<S>, cfg: Config, p: Pos<S>, log: seq<LogEntry>, upTo: nat) {
    forall e :: e in log <==> LogOnRun(w, cfg, p, e) && e.step <= upTo
  }

  lemma LogGrows<S>(w: World<S>, cfg: Config, p: Pos<S>, q: Pos<S>, log: seq<LogEntry>)
    requires w.Valid() && PosOnRun(w, cfg, p, q) && !Halts(w, q) && LogIs(w, cfg, p, log, q.step)
    ensures var more := if cfg.HashDue(q.step + 1) then [LogEntry(q.step + 1, Stamp(w, cfg, q))] else [];
            LogIs(w, cfg, p, log + more, q.step + 1)
  {
    StepOnRun(w, cfg, p, q);
    var last := LogEntry(q.step + 1, Stamp(w, cfg, q));
    assert CkptAt(w, cfg, p, q.step + 1 - p.step).stamp == last.hash;
    assert LogOnRun(w, cfg, p, last) <==> cfg.HashDue(q.step + 1);
    assert forall e :: e in log + [last] <==> e in log || e == last;
  }

  /**
   The session's log is exactly the due steps it completed, each with its stamp. In particular a
   halting step, which the session never completes, is not in it.
  */
  lemma {:induction false} LogIsExact<S>(w: World<S>, cfg: Config, p: Pos<S>, s: Session<S>, exits: nat -> bool)
    requires w.Valid() && PosOnRun(w, cfg, p, s.pos) && LogIs(w, cfg, p, s.log, s.pos.step)
    ensures var t := TrainFrom(w, cfg, s, exits); PosOnRun(w, cfg, p, t.pos) && LogIs(w, cfg, p, t.log, t.pos.step)
    decreases cfg.totalTokens - s.pos.consumed
  {
    if !s.ending.Open? || s.pos.consumed >= cfg.totalTokens || Halts(w, s.pos) {
      EndsHere(w, cfg, s, exits);
    } else {
      StepOnRun(w, cfg, p, s.pos);
      LogGrows(w, cfg, p, s.pos, s.log);
      LogIsExact(w, cfg, p, LoopStep(w, cfg, s, exits(s.pos.step + 1)), exits);
    }
  }

  /**
   A session that does not end in a raised halt, be it by its budget or by a shutdown, ends with
   nothing unsaved.
  */
  lemma {:induction false} SessionEndsSaved<S>(w: World<S>, cfg: Config, s: Session<S>, exits: nat -> bool)
    requires w.Valid() && s.ending.Open? && s.pos.consumed < cfg.totalTokens
    requires s.lastCkptAt <= s.pos.consumed && !TrainFrom(w, cfg, s, exits).ending.Halted?
    ensures var t := TrainFrom(w, cfg, s, exits);
            && |t.saved| > |s.saved| && t.saved[|t.saved| - 1].pos == t.pos && t.lastCkptAt == t.pos.consumed
    decreases cfg.totalTokens - s.pos.consumed
  {
    var next := LoopStep(w, cfg, s, exits(s.pos.step + 1));
    if next.ending.Open? && next.pos.consumed < cfg.totalTokens {
      SessionEndsSaved(w, cfg, next, exits);
    }
  }

  // ----- which steps are saved --------------------------------------------------------------------

  /** The tokens at the last of these checkpoints before a step, or at the start. */
  function SavedBefore<S>(p: Pos<S>, saved: seq<Ckpt<S>>, step: nat): nat {
    if saved == [] then p.consumed
    else if saved[|saved| - 1].pos.step < step then saved[|saved| - 1].pos.consumed
    else SavedBefore(p, saved[..|saved| - 1], step)
  }

  /**
   The step of this checkpoint is one to save: a multiple of the step cadence, or without one a step whose
   tokens since the save before it reach the token cadence; a step with a shutdown request; the last one.
  */
  ghost predicate ToSave<S>(cfg: Config, p: Pos<S>, saved: seq<Ckpt<S>>, exits: nat -> bool, c: Ckpt<S>) {
    || (cfg.ckptEverySteps > 0 && c.pos.step % cfg.ckptEverySteps == 0)
    || (cfg.ckptEverySteps <= 0 && c.pos.consumed - SavedBefore(p, saved, c.pos.step) >= cfg.ckptEveryTokens)
    || exits(c.pos.step) || c.pos.consumed >= cfg.totalTokens
  }

  /** What is saved up to a step is exactly the checkpoints of the completed steps to save, in step order. */
  ghost predicate SavedIs<S(!new)>(
    w: World<S>, cfg: Config, p: Pos<S>, saved: seq<Ckpt<S>>, exits: nat -> bool, upTo: nat)
  {
    && (forall c :: c in saved <==> OnRun(w, cfg, p, c) && c.pos.step <= upTo && ToSave(cfg, p, saved, exits, c))
    && forall i, j :: 0 <= i < j < |saved| ==> saved[i].pos.step < saved[j].pos.step
  }

  lemma {:induction false} SavedBeforeKeeps<S>(p: Pos<S>, saved: seq<Ckpt<S>>, c: Ckpt<S>, step: nat)
    ensures step <= c.pos.step ==> SavedBefore(p, saved + [c], step) == SavedBefore(p, saved, step)
    ensures step > c.pos.step ==> SavedBefore(p, saved + [c], step) == c.pos.consumed
  {
    assert (saved + [c])[..|saved|] == saved;
  }

  lemma SavedBeforeLater<S>(p: Pos<S>, saved: seq<Ckpt<S>>, step: nat)
    requires forall i :: 0 <= i < |saved| ==> saved[i].pos.step < step
    ensures SavedBefore(p, saved, step + 1) == SavedBefore(p, saved, step)
  {}

  /** One more completed step, saved or not. */
  lemma SavedGrows<S(!new)>(
    w: World<S>, cfg: Config, p: Pos<S>, q: Pos<S>, saved: seq<Ckpt<S>>, exits: nat -> bool)
    requires w.Valid() && PosOnRun(w, cfg, p, q) && !Halts(w, q) && SavedIs(w, cfg, p, saved, exits, q.step)
    ensures var c := Ckpt(Advance(w, cfg, q), Stamp(w, cfg, q));
            && c.pos.step == q.step + 1
            && SavedIs(w, cfg, p, if ToSave(cfg, p, saved, exits, c) then saved + [c] else saved, exits, q.step + 1)
            && SavedBefore(p, if ToSave(cfg, p, saved, exits, c) then saved + [c] else saved, q.step + 2)
               == if ToSave(cfg, p, saved, exits, c) then c.pos.consumed else SavedBefore(p, saved, q.step + 1)
  {
    hide SavedBefore, Halts, Stamp, PosAfter, Runs, CkptAt;
    StepOnRun(w, cfg, p, q);
    var c := Ckpt(Advance(w, cfg, q), Stamp(w, cfg, q));
    var next := if ToSave(cfg, p, saved, exits, c) then saved + [c] else saved;
    SavedBeforeKeeps(p, saved, c, c.pos.step);
    SavedBeforeKeeps(p, saved, c, c.pos.step + 1);
    SavedBeforeLater(p, saved, c.pos.step);
    forall d ensures d in next <==> OnRun(w, cfg, p, d) && d.pos.step <= q.step + 1 && ToSave(cfg, p, next, exits, d) {
      SavedBeforeKeeps(p, saved, c, d.pos.step);
      if OnRun(w, cfg, p, d) && d.pos.step == q.step + 1 {
        assert d == c;
      }
    }
  }

  lemma {:induction false} SessionSaves<S(!new)>(w: World<S>, cfg: Config, p: Pos<S>, s: Session<S>, exits: nat -> bool)
    requires w.Valid() && PosOnRun(w, cfg, p, s.pos) && SavedIs(w, cfg, p, s.saved, exits, s.pos.step)
    requires s.lastCkptAt == SavedBefore(p, s.saved, s.pos.step + 1) <= s.pos.consumed
    ensures var t := TrainFrom(w, cfg, s, exits);
            PosOnRun(w, cfg, p, t.pos) && SavedIs(w, cfg, p, t.saved, exits, t.pos.step)
    decreases cfg.totalTokens - s.pos.consumed
  {
    hide SavedIs, SavedBefore, PosOnRun, OnRun, Stamp;
    if !s.ending.Open? || s.pos.consumed >= cfg.totalTokens || Halts(w, s.pos) {
      EndsHere(w, cfg, s, exits);
    } else {
      StepOnRun(w, cfg, p, s.pos);
      SavedGrows(w, cfg, p, s.pos, s.saved, exits);
      SessionSaves(w, cfg, p, LoopStep(w, cfg, s, exits(s.pos.step + 1)), exits);
    }
  }

  /**
   What a session saves, in steps and tokens: exactly the checkpoints of the completed steps to save. With a
   step cadence these are its multiples, the step of a shutdown request and the step that ends the budget;
   with a token cadence a save is due at the first step that reaches it since the save before.
  */
  lemma SavedIsExact<S(!new)>(w: World<S>, cfg: Config, p: Pos<S>, exits: nat -> bool)
    requires w.Valid()
    ensures var t := TrainFrom(w, cfg, Started(p), exits);
            PosOnRun(w, cfg, p, t.pos) && SavedIs(w, cfg, p, t.saved, exits, t.pos.step)
  {
    SessionSaves(w, cfg, p, Started(p), exits);
  }

  /**
   Where a session ends. It goes on through every step without a shutdown request that leaves budget; it
   exits exactly at a shutdown request, otherwise it ends with the budget used up or in a halting step.
  */
  lemma {:induction false} SessionEnds<S>(w: World<S>, cfg: Config, s: Session<S>, exits: nat -> bool)
    requires w.Valid() && s.ending.Open?
    ensures var t := TrainFrom(w, cfg, s, exits);
            && t.pos.step >= s.pos.step && t.pos == PosAfter(w, cfg, s.pos, t.pos.step - s.pos.step)
            && (forall k: nat :: s.pos.step + k < t.pos.step ==> PosAfter(w, cfg, s.pos, k).consumed < cfg.totalTokens)
            && (forall k: nat :: s.pos.step < k < t.pos.step ==> !exits(k))
            && (t.ending.Exited? <==> t.pos.step > s.pos.step && exits(t.pos.step))
            && (t.ending.Halted? ==> Halts(w, t.pos) && t.pos.consumed < cfg.totalTokens)
            && (t.ending.Open? ==> t.pos.consumed >= cfg.totalTokens)
    decreases cfg.totalTokens - s.pos.consumed
  {
    hide Stamp;
    var p := s.pos;
    if p.consumed >= cfg.totalTokens || Halts(w, p) {
      EndsHere(w, cfg, s, exits);
    } else if exits(p.step + 1) {
      ExitsHere(w, cfg, s, exits);
    } else {
      var next := LoopStep(w, cfg, s, false);
      var t := TrainFrom(w, cfg, next, exits);
      SessionEnds(w, cfg, next, exits);
      assert t.pos == PosAfter(w, cfg, p, t.pos.step - p.step);
      forall k: nat | p.step + k < t.pos.step ensures PosAfter(w, cfg, p, k).consumed < cfg.totalTokens {
        if k > 0 {
          assert PosAfter(w, cfg, p, k) == PosAfter(w, cfg, next.pos, k - 1);
        }
      }
    }
  }

  lemma ExitsHere<S>(w: World<S>, cfg: Config, s: Session<S>, exits: nat -> bool)
    requires w.Valid() && s.ending.Open? && s.pos.consumed < cfg.totalTokens && !Halts(w, s.pos)
    requires exits(s.pos.step + 1)
    ensures TrainFrom(w, cfg, s, exits) == LoopStep(w, cfg, s, true)
    ensures LoopStep(w, cfg, s, true).ending.Exited? && LoopStep(w, cfg, s, true).pos == Advance(w, cfg, s.pos)
    ensures PosAfter(w, cfg, s.pos, 1) == Advance(w, cfg, s.pos) && PosAfter(w, cfg, s.pos, 0) == s.pos
  {
    assert PosAfter(w, cfg, s.pos, 1) == PosAfter(w, cfg, Advance(w, cfg, s.pos), 0);
  }

  // ----- what the chain holds ---------------------------------------------------------------------

  /** Step n + 1 of the run, from the position before it. */
  lemma RunStep<S>(w: World<S>, cfg: Config, p: Pos<S>, n: nat)
    ensures var q, r := PosAfter(w, cfg, p, n), PosAfter(w, cfg, p, n + 1);
            var gathered := if cfg.hashEvery > 0 then w.ranks else 1;
            var hash := w.finish(q.chain, w.Digests(r.state, cfg.includeGrads, gathered), w.terms(r.state));
            && r.state == w.next(q.state, q.step, q.consumed)
            && r.step == q.step + 1 && r.consumed == q.consumed + w.tokens(q.consumed)
            && CkptAt(w, cfg, p, n + 1) == Ckpt(r, hash)
            && r.chain == if cfg.hashEvery > 0 && r.step % cfg.hashEvery == 0 then Some(hash) else q.chain
  {
    PosCompose(w, cfg, p, n, 1);
    var q := PosAfter(w, cfg, p, n);
    assert PosAfter(w, cfg, q, 1) == PosAfter(w, cfg, Advance(w, cfg, q), 0);
  }

  /** The chain is the hash of the last multiple of the cadence, or the one the run started with. */
  lemma {:induction false} ChainIsLastDue<S>(w: World<S>, cfg: Config, p: Pos<S>, k: nat, n: nat)
    requires w.Valid() && cfg.hashEvery > 0 && k <= n && (k > 0 ==> (p.step + k) % cfg.hashEvery == 0)
    requires forall s :: p.step + k < s <= p.step + n ==> s % cfg.hashEvery != 0
    ensures PosAfter(w, cfg, p, n).chain == if k == 0 then p.chain else Some(CkptAt(w, cfg, p, k).stamp)
    decreases n
  {
    if n == 0 {
    } else {
      PosCounts(w, cfg, p, n);
      RunStep(w, cfg, p, n - 1);
      if k < n {
        ChainIsLastDue(w, cfg, p, k, n - 1);
      }
    }
  }

  /** Two runs hash alike at step k. */
  ghost predicate HashAlike<S>(w: World<S>, w': World<S>, cfg: Config, p: Pos<S>, p': Pos<S>, k: nat) {
    var s, s' := PosAfter(w, cfg, p, k).state, PosAfter(w', cfg, p', k).state;
    w.Digests(s, cfg.includeGrads, w.ranks) == w'.Digests(s', cfg.includeGrads, w'.ranks) && w.terms(s) == w'.terms(s')
  }

  /** Two worlds may train differently and still hash in the same way. */
  ghost predicate SameHashing<S>(w: World<S>, w': World<S>) {
    w.ranks == w'.ranks && w.shard == w'.shard && w.terms == w'.terms && w.finish == w'.finish
  }

  lemma SealCommits<S>(w: World<S>, w': World<S>, cfg: Config, p: Pos<S>, p': Pos<S>, n: nat)
    requires SameHashing(w, w') && Injective(w) && cfg.hashEvery > 0
    requires CkptAt(w, cfg, p, n + 1).stamp == CkptAt(w', cfg, p', n + 1).stamp
    ensures PosAfter(w, cfg, p, n).chain == PosAfter(w', cfg, p', n).chain && HashAlike(w, w', cfg, p, p', n + 1)
  {
    hide PosAfter, CkptAt;
    RunStep(w, cfg, p, n);
    RunStep(w', cfg, p', n);
  }

  lemma {:induction false} ChainCommits<S>(w: World<S>, w': World<S>, cfg: Config, p: Pos<S>, p': Pos<S>, n: nat)
    requires w.Valid() && w'.Valid() && SameHashing(w, w') && Injective(w) && cfg.hashEvery > 0 && p.step == p'.step
    requires PosAfter(w, cfg, p, n).chain == PosAfter(w', cfg, p', n).chain
    ensures p.chain == p'.chain
    ensures forall k :: 0 < k <= n && (p.step + k) % cfg.hashEvery == 0 ==> HashAlike(w, w', cfg, p, p', k)
    decreases n
  {
    hide CkptAt, HashAlike, Injective, SameHashing;
    if n == 0 {
    } else {
      PosCounts(w, cfg, p, n);
      PosCounts(w', cfg, p', n);
      RunStep(w, cfg, p, n - 1);
      RunStep(w', cfg, p', n - 1);
      if (p.step + n) % cfg.hashEvery == 0 {
        SealCommits(w, w', cfg, p, p', n - 1);
      }
      ChainCommits(w, w', cfg, p, p', n - 1);
    }
  }

  /**
   What a checkpoint's hash commits to. Two runs of any kind from the same step that stamp one hash started
   with the same chain and hashed alike at every multiple of the cadence on the way, and at the end.
  */
  lemma StampCommits<S>(w: World<S>, w': World<S>, cfg: Config, p: Pos<S>, p': Pos<S>, n: nat)
    requires w.Valid() && w'.Valid() && SameHashing(w, w') && Injective(w) && cfg.hashEvery > 0 && p.step == p'.step
    requires n > 0 && CkptAt(w, cfg, p, n).stamp == CkptAt(w', cfg, p', n).stamp
    ensures p.chain == p'.chain && HashAlike(w, w', cfg, p, p', n)
    ensures forall k :: 0 < k <= n && (p.step + k) % cfg.hashEvery == 0 ==> HashAlike(w, w', cfg, p, p', k)
  {
    hide HashAlike;
    SealCommits(w, w', cfg, p, p', n - 1);
    ChainCommits(w, w', cfg, p, p', n - 1);
  }

  /** A session ends in a raised halt exactly at a halting step it reached with budget left. */
  lemma {:induction false} HaltedSession<S>(w: World<S>, cfg: Config, s: Session<S>, exits: nat -> bool)
    requires w.Valid() && !s.ending.Halted?
    ensures var t := TrainFrom(w, cfg, s, exits);
            t.ending.Halted? <==> Halts(w, t.pos) && t.pos.consumed < cfg.totalTokens && !t.ending.Exited?
    decreases cfg.totalTokens - s.pos.consumed
  {
    if !s.ending.Open? || s.pos.consumed >= cfg.totalTokens {
    } else if Halts(w, s.pos) {
      EndsHere(w, cfg, s, exits);
    } else {
      HaltedSession(w, cfg, LoopStep(w, cfg, s, exits(s.pos.step + 1)), exits);
    }
  }

  /**
   A run of several sessions, each resumed from a checkpoint an earlier one saved: all checkpoints of
   all sessions lie on the one run from the start.
  */
  lemma ResumedSessionStaysOnRun<S>(w: World<S>, cfg: Config, p: Pos<S>, c: Ckpt<S>, exits: nat -> bool)
    requires w.Valid() && OnRun(w, cfg, p, c)
    ensures var t := TrainFrom(w, cfg, Started(c.pos), exits);
            && (forall c' :: c' in t.saved ==> OnRun(w, cfg, p, c'))
            && (forall e :: e in t.log ==> LogOnRun(w, cfg, p, e))
  {
    SessionStaysOnRun(w, cfg, p, Started(c.pos), exits);
  }

  // ----- the audit --------------------------------------------------------------------------------

  datatype Target = UntilStep(step: int) | UntilTokens(tokens: int) {
    predicate Reached(step: nat, consumed: nat) {
      match this
      case UntilStep(n) => step >= n
      case UntilTokens(n) => consumed >= n
    }

    function Left(step: nat, consumed: nat): int {
      match this
      case UntilStep(n) => n - step
      case UntilTokens(n) => n - consumed
    }
  }

  /** The audit's reported digest, and the checkpoint it can hand to the next audit. */
  datatype Verdict<S> = Verdict(digest: Hash, handoff: Option<Ckpt<S>>)

  /** The position one step before the target is first reached. */
  function BeforeTarget<S>(w: World<S>, cfg: Config, p: Pos<S>, target: Target): Pos<S>
    requires w.Valid() && !target.Reached(p.step, p.consumed)
    decreases target.Left(p.step, p.consumed)
  {
    var q := Advance(w, cfg, p);
    if target.Reached(q.step, q.consumed) then p else BeforeTarget(w, cfg, q, target)
  }

  /** Whether a step up to the target halts. */
  predicate HaltsBefore<S>(w: World<S>, cfg: Config, p: Pos<S>, target: Target)
    requires w.Valid()
    decreases target.Left(p.step, p.consumed)
  {
    !target.Reached(p.step, p.consumed) && (Halts(w, p) || HaltsBefore(w, cfg, Advance(w, cfg, p), target))
  }

  /** What an audit from p to the target should report when hashing is on. */
  function Expected<S>(w: World<S>, cfg: Config, p: Pos<S>, target: Target): Ckpt<S>
    requires w.Valid() && !target.Reached(p.step, p.consumed)
  {
    var q := BeforeTarget(w, cfg, p, target);
    Ckpt(Advance(w, cfg, q), Stamp(w, cfg, q))
  }

  /** What the audit reports at p, holding the target's digest or not. */
  function Report<S>(w: World<S>, p: Pos<S>, digest: Option<Hash>): Verdict<S> {
    if digest.Some? then Verdict(digest.value, Some(Ckpt(p, digest.value)))
    else Verdict(if p.chain.Some? then p.chain.value else w.Bare(p.state), None)
  }

  /** The next step reaches the target. */
  predicate HitsTarget<S>(w: World<S>, p: Pos<S>, target: Target) {
    target.Reached(p.step + 1, p.consumed + w.tokens(p.consumed))
  }

  /** Where a halting step leaves the audit: its tokens are not counted. */
  function Stopped<S>(w: World<S>, cfg: Config, p: Pos<S>): Pos<S> {
    Advance(w, cfg, p).(consumed := p.consumed)
  }

  /** The audit's verdict: step by step to the target, or up to and including a halting step. */
  function Replayed<S>(w: World<S>, cfg: Config, p: Pos<S>, target: Target): Verdict<S>
    requires w.Valid()
    decreases target.Left(p.step, p.consumed)
  {
    if target.Reached(p.step, p.consumed) then Report(w, p, None)
    else
      var digest := if cfg.hashEvery > 0 && HitsTarget(w, p, target) then Some(Stamp(w, cfg, p)) else None;
      if Halts(w, p) then Report(w, Stopped(w, cfg, p), digest)
      else if digest.Some? then Report(w, Advance(w, cfg, p), digest)
      else Replayed(w, cfg, Advance(w, cfg, p), target)
  }

  /** The audit hashes the halting step after q, as no session does. */
  predicate HaltHashed<S>(w: World<S>, cfg: Config, q: Pos<S>, target: Target) {
    cfg.hashEvery > 0 && ((q.step + 1) % cfg.hashEvery == 0 || HitsTarget(w, q, target))
  }

  /** What an audit that halts in the step after q reports. */
  function HaltDigest<S>(w: World<S>, cfg: Config, q: Pos<S>, target: Target): Hash {
    if HaltHashed(w, cfg, q, target) then Stamp(w, cfg, q)
    else if q.chain.Some? then q.chain.value
    else w.Bare(StepState(w, q))
  }

  /**
   The replay from a checkpoint's position. An explicit target step that is not beyond the start is
   refused. A halting step is hashed and ends the replay. With hashing off the digest falls back to
   the stored chain, or to the unchained hash, and nothing can be handed off.
  */
  method AuditReplay<S>(w: World<S>, cfg: Config, start: Pos<S>, target: Target) returns (r: Outcome<Verdict<S>>)
    requires w.Valid()
    ensures r.Failure? <==> target.UntilStep? && target.step <= start.step
    ensures r.Ok? ==> r.value == Replayed(w, cfg, start, target)
  {
    if target.UntilStep? && target.step <= start.step {
      return Failure("target is not beyond the checkpoint");
    }
    var state, step: nat, consumed: nat := start.state, start.step, start.consumed;
    var chain: Option<Hash> := start.chain;
    var targetDigest: Option<Hash> := None;
    var halted := false;
    while !target.Reached(step, consumed) && !halted
      invariant var p := Pos(state, step, consumed, chain);
                if halted || targetDigest.Some? then Report(w, p, targetDigest) == Replayed(w, cfg, start, target)
                else Replayed(w, cfg, p, target) == Replayed(w, cfg, start, target)
      invariant targetDigest.Some? ==> halted || target.Reached(step, consumed)
      decreases target.Left(step, consumed), !halted
    {
      ghost var p := Pos(state, step, consumed, chain);
      halted := w.halts(state, step, consumed);
      state := w.next(state, step, consumed);
      var completed := step + 1;
      var more := w.tokens(consumed);
      var hashDue := cfg.HashDue(completed);
      var targetReached := target.Reached(completed, consumed + more);
      if cfg.hashEvery > 0 && (hashDue || targetReached) {
        var h := w.finish(chain, w.Digests(state, cfg.includeGrads, w.ranks), w.terms(state));
        if targetReached {
          targetDigest := Some(h);
        }
        if hashDue {
          chain := Some(h);
        }
      }
      step := completed;
      if !halted {
        consumed := consumed + more;
      }
      assert Pos(state, step, consumed, chain) == if halted then Stopped(w, cfg, p) else Advance(w, cfg, p);
    }
    var digest := if targetDigest.Some? then targetDigest.value else if chain.Some? then chain.value else w.Bare(state);
    var handoff := if targetDigest.Some? then Some(Ckpt(Pos(state, step, consumed, chain), digest)) else None;
    return Ok(Verdict(digest, handoff));
  }

  /** With hashing on and no halt on the way, the audit reports and hands off the target's checkpoint. */
  lemma {:induction false} ReplayedIsExpected<S>(w: World<S>, cfg: Config, p: Pos<S>, target: Target)
    requires w.Valid() && cfg.hashEvery > 0
    requires !target.Reached(p.step, p.consumed) && !HaltsBefore(w, cfg, p, target)
    ensures var c := Expected(w, cfg, p, target); Replayed(w, cfg, p, target) == Verdict(c.stamp, Some(c))
    decreases target.Left(p.step, p.consumed)
  {
    var q := Advance(w, cfg, p);
    if target.Reached(q.step, q.consumed) {
    } else {
      ReplayedIsExpected(w, cfg, q, target);
    }
  }

  /** With hashing off nothing is handed off, and the report is the stored chain or the unchained hash. */
  lemma {:induction false} ReplayedUnhashed<S>(w: World<S>, cfg: Config, p: Pos<S>, target: Target)
    requires w.Valid() && cfg.hashEvery <= 0
    requires !target.Reached(p.step, p.consumed) && !HaltsBefore(w, cfg, p, target)
    ensures var s := Expected(w, cfg, p, target).pos.state;
            Replayed(w, cfg, p, target) == Verdict(if p.chain.Some? then p.chain.value else w.Bare(s), None)
    decreases target.Left(p.step, p.consumed)
  {
    var q := Advance(w, cfg, p);
    if target.Reached(q.step, q.consumed) {
    } else {
      ReplayedUnhashed(w, cfg, q, target);
    }
  }

  /**
   A halt on the way. If the step after the first n halts before the target is reached, the audit
   reports that step's hash when it is due or the target, and otherwise the running chain or the
   unchained hash; it hands off only a halting step that is the target, and without its tokens.
  */
  lemma {:induction false} ReplayedHalts<S>(w: World<S>, cfg: Config, p: Pos<S>, n: nat, target: Target)
    requires w.Valid() && Runs(w, cfg, p, n)
    requires var q := PosAfter(w, cfg, p, n); Halts(w, q) && !target.Reached(q.step, q.consumed)
    ensures var q := PosAfter(w, cfg, p, n);
            Replayed(w, cfg, p, target) == Verdict(
              HaltDigest(w, cfg, q, target),
              if cfg.hashEvery > 0 && HitsTarget(w, q, target)
              then Some(Ckpt(Stopped(w, cfg, q), Stamp(w, cfg, q))) else None)
    decreases n
  {
    if n == 0 {
    } else {
      PosCounts(w, cfg, p, n);
      PosCounts(w, cfg, Advance(w, cfg, p), n - 1);
      ReplayedHalts(w, cfg, Advance(w, cfg, p), n - 1, target);
    }
  }

  /**
   The same in full: what an audit that halts in the step after the first n reports and hands off. The
   halting step is taken and hashed like any other, but its tokens are not counted.
  */
  lemma HaltedVerdict<S>(w: World<S>, cfg: Config, p: Pos<S>, n: nat, target: Target)
    requires w.Valid() && Runs(w, cfg, p, n)
    requires var q := PosAfter(w, cfg, p, n); Halts(w, q) && !target.Reached(q.step, q.consumed)
    ensures var q := PosAfter(w, cfg, p, n);
            var state := w.next(q.state, q.step, q.consumed);
            var due := cfg.hashEvery > 0 && (q.step + 1) % cfg.hashEvery == 0;
            var hit := cfg.hashEvery > 0 && target.Reached(q.step + 1, q.consumed + w.tokens(q.consumed));
            var hash := w.finish(q.chain, w.Digests(state, cfg.includeGrads, w.ranks), w.terms(state));
            var chain := if due then Some(hash) else q.chain;
            Replayed(w, cfg, p, target) == Verdict(
              if due || hit then hash
              else if q.chain.Some? then q.chain.value
              else w.finish(None, w.Digests(state, false, w.ranks), w.terms(state)),
              if hit then Some(Ckpt(Pos(state, q.step + 1, q.consumed, chain), hash)) else None)
  {
    hide Replayed, PosAfter, Runs, Halts;
    ReplayedHalts(w, cfg, p, n, target);
  }

  /** The chain after n steps is the one before them, or the stamp of a due step among them. */
  lemma {:induction false} ChainIsAStamp<S>(w: World<S>, cfg: Config, p: Pos<S>, n: nat)
    requires w.Valid()
    ensures var c := PosAfter(w, cfg, p, n).chain;
            c == p.chain || exists k: nat :: DueAt(w, cfg, p, k, n) && c == Some(CkptAt(w, cfg, p, k).stamp)
    decreases n
  {
    if n == 0 {
    } else {
      ChainIsAStamp(w, cfg, p, n - 1);
      PosCompose(w, cfg, p, n - 1, 1);
      var before := PosAfter(w, cfg, p, n - 1);
      PosCounts(w, cfg, p, n - 1);
      assert PosAfter(w, cfg, before, 1) == PosAfter(w, cfg, Advance(w, cfg, before), 0) == Advance(w, cfg, before);
      if cfg.HashDue(p.step + n) {
        assert DueAt(w, cfg, p, n, n);
      } else if before.chain != p.chain {
        var k: nat :| DueAt(w, cfg, p, k, n - 1) && before.chain == Some(CkptAt(w, cfg, p, k).stamp);
        assert DueAt(w, cfg, p, k, n);
      }
    }
  }

  /** Step k of the next n is due. */
  ghost predicate DueAt<S>(w: World<S>, cfg: Config, p: Pos<S>, k: nat, n: nat) {
    0 < k <= n && cfg.HashDue(p.step + k)
  }

  /** The session, or the checkpoint it started from, carries this hash. */
  ghost predicate Recorded<S>(p: Pos<S>, t: Session<S>, h: Hash) {
    p.chain == Some(h) || (exists e :: e in t.log && e.hash == h) || (exists c :: c in t.saved && c.stamp == h)
  }

  /** The final hash determines what it was given. */
  ghost predicate Injective<S>(w: World<S>) {
    forall c, ds, t, c', ds', t' :: w.finish(c, ds, t) == w.finish(c', ds', t') ==> c == c' && ds == ds' && t == t'
  }

  /** What an audit may hash of state s, by the loop's way or by the fall-back, is what the loop hashed of state s'. */
  ghost predicate HashedAlike<S>(w: World<S>, cfg: Config, s: S, s': S) {
    w.terms(s) == w.terms(s') && Gathered(w, cfg, s') in [Gathered(w, cfg, s), w.Digests(s, false, w.ranks)]
  }

  /**
   No collision: the final hash determines what goes into it, and what goes in for the state the step
   after q leaves is not what went in for a state the run from p left before.
  */
  ghost predicate NoCollision<S>(w: World<S>, cfg: Config, p: Pos<S>, n: nat) {
    && Injective(w)
    && forall k: nat :: 0 < k <= n ==>
         !HashedAlike(w, cfg, StepState(w, PosAfter(w, cfg, p, n)), PosAfter(w, cfg, p, k).state)
  }

  /** The stamp of one of the first n steps. */
  ghost predicate IsStamp<S>(w: World<S>, cfg: Config, p: Pos<S>, n: nat, h: Hash) {
    exists k: nat :: IsStampAt(w, cfg, p, k, n, h)
  }

  ghost predicate IsStampAt<S>(w: World<S>, cfg: Config, p: Pos<S>, k: nat, n: nat, h: Hash) {
    0 < k <= n && h == CkptAt(w, cfg, p, k).stamp
  }

  lemma ChainIsStamp<S>(w: World<S>, cfg: Config, p: Pos<S>, m: nat, n: nat, h: Hash)
    requires w.Valid() && p.chain.None? && m <= n && PosAfter(w, cfg, p, m).chain == Some(h)
    ensures IsStamp(w, cfg, p, n, h)
  {
    ChainIsAStamp(w, cfg, p, m);
    var k: nat :| DueAt(w, cfg, p, k, m) && Some(h) == Some(CkptAt(w, cfg, p, k).stamp);
    assert IsStampAt(w, cfg, p, k, n, h);
  }

  lemma LogIsStamp<S>(w: World<S>, cfg: Config, p: Pos<S>, e: LogEntry, n: nat)
    requires LogOnRun(w, cfg, p, e) && e.step <= p.step + n
    ensures IsStamp(w, cfg, p, n, e.hash)
  {
    assert IsStampAt(w, cfg, p, e.step - p.step, n, e.hash);
  }

  lemma CkptIsStamp<S>(w: World<S>, cfg: Config, p: Pos<S>, c: Ckpt<S>, n: nat)
    requires OnRun(w, cfg, p, c) && c.pos.step <= p.step + n
    ensures IsStamp(w, cfg, p, n, c.stamp)
  {
    assert IsStampAt(w, cfg, p, c.pos.step - p.step, n, c.stamp);
  }

  /** Every hash a session records is the stamp of a step the run completed. */
  lemma RecordedIsAStamp<S>(w: World<S>, cfg: Config, p0: Pos<S>, m: nat, n: nat, exits: nat -> bool, h: Hash)
    requires w.Valid() && p0.chain.None? && Runs(w, cfg, p0, m)
    requires TrainFrom(w, cfg, Started(PosAfter(w, cfg, p0, m)), exits).pos.step == p0.step + n
    requires Recorded(PosAfter(w, cfg, p0, m), TrainFrom(w, cfg, Started(PosAfter(w, cfg, p0, m)), exits), h)
    ensures IsStamp(w, cfg, p0, n, h)
  {
    var p := PosAfter(w, cfg, p0, m);
    var t := TrainFrom(w, cfg, Started(p), exits);
    PosCounts(w, cfg, p0, m);
    hide TrainFrom, CkptAt, PosAfter, Runs, OnRun, LogOnRun, IsStamp;
    SessionStaysOnRun(w, cfg, p0, Started(p), exits);
    if p.chain == Some(h) {
      ChainIsStamp(w, cfg, p0, m, n, h);
    } else if e :| e in t.log && e.hash == h {
      LogIsStamp(w, cfg, p0, e, n);
    } else {
      var c :| c in t.saved && c.stamp == h;
      CkptIsStamp(w, cfg, p0, c, n);
    }
  }

  /** The stamp of the step after the first n is the stamp of none of them. */
  lemma HaltStampIsNew<S>(w: World<S>, cfg: Config, p: Pos<S>, n: nat, k: nat)
    requires w.Valid() && 0 < k <= n && NoCollision(w, cfg, p, n)
    ensures CkptAt(w, cfg, p, k).stamp != Stamp(w, cfg, PosAfter(w, cfg, p, n))
    ensures CkptAt(w, cfg, p, k).stamp != w.Bare(StepState(w, PosAfter(w, cfg, p, n)))
  {
    var before := PosAfter(w, cfg, p, k - 1);
    PosCompose(w, cfg, p, k - 1, 1);
    assert PosAfter(w, cfg, before, 1) == PosAfter(w, cfg, Advance(w, cfg, before), 0) == Advance(w, cfg, before);
    assert PosAfter(w, cfg, p, k).state == StepState(w, before);
  }

  /** Where an audit of the session can start: where the session did, or at a checkpoint it saved. */
  ghost predicate StartsIn<S>(from: Pos<S>, p: Pos<S>, t: Session<S>) {
    from == p || exists c :: c in t.saved && c.pos == from
  }

  /**
   A session from a position of the run ends in a halt. An audit from where the session started or from any
   checkpoint it saved, to a target not yet reached, stops at the same step, with the same report. It
   reports a hash the session recorded exactly when the halting step is neither hash-due nor the target and
   some step before it was hashed.
  */
  lemma HaltAgreement<S>(
    w: World<S>, cfg: Config, p0: Pos<S>, m: nat, n: nat, exits: nat -> bool, from: Pos<S>, target: Target)
    requires w.Valid() && p0.chain.None? && Runs(w, cfg, p0, m)
    requires var t := TrainFrom(w, cfg, Started(PosAfter(w, cfg, p0, m)), exits);
             && t.ending.Halted? && t.pos.step == p0.step + n && !target.Reached(t.pos.step, t.pos.consumed)
             && StartsIn(from, PosAfter(w, cfg, p0, m), t)
    requires NoCollision(w, cfg, p0, n)
    ensures var p := PosAfter(w, cfg, p0, m);
            var t := TrainFrom(w, cfg, Started(p), exits);
            && t.pos == PosAfter(w, cfg, p0, n)
            && Replayed(w, cfg, from, target).digest == HaltDigest(w, cfg, t.pos, target)
            && (Recorded(p, t, Replayed(w, cfg, from, target).digest)
                <==> !HaltHashed(w, cfg, t.pos, target) && t.pos.chain.Some?)
  {
    var p := PosAfter(w, cfg, p0, m);
    var t := TrainFrom(w, cfg, Started(p), exits);
    HaltedReplay(w, cfg, p0, m, n, exits, from, target);
    var digest := Replayed(w, cfg, from, target).digest;
    if !HaltHashed(w, cfg, t.pos, target) && t.pos.chain.Some? {
      ChainIsRecorded(w, cfg, p, exits);
    } else if Recorded(p, t, digest) {
      RecordedIsAStamp(w, cfg, p0, m, n, exits, digest);
      var k: nat :| IsStampAt(w, cfg, p0, k, n, digest);
      HaltStampIsNew(w, cfg, p0, n, k);
      assert false;
    }
  }

  /** An audit from within the session halts where the session did. */
  lemma HaltedReplay<S>(
    w: World<S>, cfg: Config, p0: Pos<S>, m: nat, n: nat, exits: nat -> bool, from: Pos<S>, target: Target)
    requires w.Valid() && Runs(w, cfg, p0, m)
    requires var t := TrainFrom(w, cfg, Started(PosAfter(w, cfg, p0, m)), exits);
             && t.ending.Halted? && t.pos.step == p0.step + n && !target.Reached(t.pos.step, t.pos.consumed)
             && StartsIn(from, PosAfter(w, cfg, p0, m), t)
    ensures var p := PosAfter(w, cfg, p0, m);
            var t := TrainFrom(w, cfg, Started(p), exits);
            && t.pos == PosAfter(w, cfg, p0, n) && PosOnRun(w, cfg, p, t.pos)
            && Replayed(w, cfg, from, target).digest == HaltDigest(w, cfg, t.pos, target)
  {
    hide *;
    var p := PosAfter(w, cfg, p0, m);
    var t := TrainFrom(w, cfg, Started(p), exits);
    SessionHalts(w, cfg, p0, m, n, exits);
    StartOnRun(w, cfg, p, from, t);
    RestOfRun(w, cfg, p, from, t.pos);
    ReplayedHalts(w, cfg, from, t.pos.step - from.step, target);
  }

  lemma StartOnRun<S>(w: World<S>, cfg: Config, p: Pos<S>, from: Pos<S>, t: Session<S>)
    requires StartsIn(from, p, t) && p.step <= t.pos.step
    requires forall c :: c in t.saved ==> PosOnRun(w, cfg, p, c.pos) && c.pos.step <= t.pos.step
    ensures PosOnRun(w, cfg, p, from) && from.step <= t.pos.step
  {
    assert PosOnRun(w, cfg, p, p);
  }

  /** Where a session that halts ends, and where its checkpoints lie. */
  lemma SessionHalts<S>(w: World<S>, cfg: Config, p0: Pos<S>, m: nat, n: nat, exits: nat -> bool)
    requires w.Valid() && Runs(w, cfg, p0, m)
    requires var t := TrainFrom(w, cfg, Started(PosAfter(w, cfg, p0, m)), exits);
             t.ending.Halted? && t.pos.step == p0.step + n
    ensures var p := PosAfter(w, cfg, p0, m);
            var t := TrainFrom(w, cfg, Started(p), exits);
            && t.pos == PosAfter(w, cfg, p0, n) && PosOnRun(w, cfg, p, t.pos) && Halts(w, t.pos)
            && p.step <= t.pos.step
            && forall c :: c in t.saved ==> PosOnRun(w, cfg, p, c.pos) && c.pos.step <= t.pos.step
  {
    hide TrainFrom, PosAfter, Runs, Halts;
    var p := PosAfter(w, cfg, p0, m);
    PosCounts(w, cfg, p0, m);
    NoSteps(w, cfg, p);
    SessionStaysOnRun(w, cfg, p0, Started(p), exits);
    SessionStaysOnRun(w, cfg, p, Started(p), exits);
    HaltedSession(w, cfg, Started(p), exits);
  }

  lemma NoSteps<S>(w: World<S>, cfg: Config, p: Pos<S>)
    ensures PosAfter(w, cfg, p, 0) == p && Runs(w, cfg, p, 0)
  {}

  /** A later position of a run lies on the run from an earlier one. */
  lemma RestOfRun<S>(w: World<S>, cfg: Config, p: Pos<S>, from: Pos<S>, q: Pos<S>)
    requires PosOnRun(w, cfg, p, from) && PosOnRun(w, cfg, p, q) && from.step <= q.step
    ensures PosOnRun(w, cfg, from, q)
    ensures q == PosAfter(w, cfg, from, q.step - from.step) && Runs(w, cfg, from, q.step - from.step)
  {
    var i, n := from.step - p.step, q.step - from.step;
    PosCompose(w, cfg, p, i, n);
    RunsCompose(w, cfg, p, i, n);
  }

  /** A session's chain is the one it started with or a hash it logged. */
  lemma ChainIsRecorded<S>(w: World<S>, cfg: Config, p: Pos<S>, exits: nat -> bool)
    requires w.Valid()
    ensures var t := TrainFrom(w, cfg, Started(p), exits); t.pos.chain.Some? ==> Recorded(p, t, t.pos.chain.value)
  {
    hide TrainFrom, CkptAt, Stamp;
    var t := TrainFrom(w, cfg, Started(p), exits);
    LogIsExact(w, cfg, p, Started(p), exits);
    var n := t.pos.step - p.step;
    ChainIsAStamp(w, cfg, p, n);
    if t.pos.chain.Some? && t.pos.chain != p.chain {
      var k: nat :| DueAt(w, cfg, p, k, n) && t.pos.chain == Some(CkptAt(w, cfg, p, k).stamp);
      RunsCompose(w, cfg, p, k, n - k);
      var e := LogEntry(p.step + k, CkptAt(w, cfg, p, k).stamp);
      assert LogOnRun(w, cfg, p, e);
      assert e in t.log;
    }
  }

  /** The target of a later checkpoint, given by its step or by its consumed tokens. */
  ghost predicate Aims<S>(target: Target, c: Ckpt<S>) {
    target == UntilStep(c.pos.step) || target == UntilTokens(c.pos.consumed)
  }

  lemma {:induction false} ExpectedAfter<S>(w: World<S>, cfg: Config, p: Pos<S>, n: nat, target: Target)
    requires w.Valid() && n > 0 && Aims(target, CkptAt(w, cfg, p, n))
    ensures !target.Reached(p.step, p.consumed) && Expected(w, cfg, p, target) == CkptAt(w, cfg, p, n)
    decreases n
  {
    PosCounts(w, cfg, p, n);
    var q := Advance(w, cfg, p);
    if n > 1 {
      ExpectedAfter(w, cfg, q, n - 1, target);
      assert CkptAt(w, cfg, q, n - 1) == CkptAt(w, cfg, p, n);
    } else {
      assert CkptAt(w, cfg, p, 1) == Ckpt(q, Stamp(w, cfg, p));
    }
  }

  lemma {:induction false} NoHaltBefore<S>(w: World<S>, cfg: Config, p: Pos<S>, n: nat, target: Target)
    requires w.Valid() && n > 0 && Aims(target, CkptAt(w, cfg, p, n)) && Runs(w, cfg, p, n)
    ensures !HaltsBefore(w, cfg, p, target)
    decreases n
  {
    var q := Advance(w, cfg, p);
    if n > 1 {
      NoHaltBefore(w, cfg, q, n - 1, target);
      assert CkptAt(w, cfg, q, n - 1) == CkptAt(w, cfg, p, n);
    } else {
      assert CkptAt(w, cfg, p, 1) == Ckpt(q, Stamp(w, cfg, p));
    }
  }

  /**
   Auditing from any saved checkpoint to any later one gives the digest the training loop stamped
   there, chain link or side-link, and hands off that checkpoint unchanged. No step between two
   saved checkpoints halts.
  */
  lemma AuditMatchesLoop<S>(w: World<S>, cfg: Config, p: Pos<S>, from: Ckpt<S>, to: Ckpt<S>, target: Target)
    requires w.Valid() && OnRun(w, cfg, p, from) && OnRun(w, cfg, p, to)
    requires from.pos.step < to.pos.step && Aims(target, to)
    ensures !target.Reached(from.pos.step, from.pos.consumed)
    ensures Expected(w, cfg, from.pos, target) == to && !HaltsBefore(w, cfg, from.pos, target)
    ensures cfg.hashEvery > 0 ==> Replayed(w, cfg, from.pos, target) == Verdict(to.stamp, Some(to))
  {
    hide Replayed, Expected, HaltsBefore, Advance;
    var i, j := from.pos.step - p.step, to.pos.step - p.step;
    PosCompose(w, cfg, p, i, j - i);
    PosCompose(w, cfg, p, i, j - i - 1);
    assert CkptAt(w, cfg, from.pos, j - i) == to;
    ExpectedAfter(w, cfg, from.pos, j - i, target);
    RunsCompose(w, cfg, p, i, j - i);
    NoHaltBefore(w, cfg, from.pos, j - i, target);
    if cfg.hashEvery > 0 {
      ReplayedIsExpected(w, cfg, from.pos, target);
    }
  }

  /** The same from initialization, where the chain starts empty. */
  lemma AuditFromInitMatchesLoop<S>(w: World<S>, cfg: Config, p: Pos<S>, to: Ckpt<S>, target: Target)
    requires w.Valid() && p.chain.None? && OnRun(w, cfg, p, to) && Aims(target, to)
    ensures !target.Reached(p.step, p.consumed) && Expected(w, cfg, p, target) == to
    ensures !HaltsBefore(w, cfg, p, target)
    ensures cfg.hashEvery > 0 ==> Replayed(w, cfg, p, target) == Verdict(to.stamp, Some(to))
  {
    ExpectedAfter(w, cfg, p, to.pos.step - p.step, target);
    NoHaltBefore(w, cfg, p, to.pos.step - p.step, target);
    if cfg.hashEvery > 0 {
      ReplayedIsExpected(w, cfg, p, target);
    }
  }

  /** What is handed off after a chain of audits, each from what the one before handed off, if all hand off. */
  function HandOffs<S>(w: World<S>, cfg: Config, p: Pos<S>, targets: seq<Target>): Option<Ckpt<S>>
    requires w.Valid() && targets != []
    decreases |targets|
  {
    var c := Replayed(w, cfg, p, targets[0]).handoff;
    if |targets| == 1 || c.None? then c else HandOffs(w, cfg, c.value.pos, targets[1..])
  }

  /** Each target is still ahead where the audit to the one before it ends. */
  ghost predicate Ahead<S>(w: World<S>, cfg: Config, p: Pos<S>, targets: seq<Target>)
    requires w.Valid()
    decreases |targets|
  {
    targets != [] ==>
      && !targets[0].Reached(p.step, p.consumed)
      && Ahead(w, cfg, Expected(w, cfg, p, targets[0]).pos, targets[1..])
  }

  /** Target by target, where the audits end. */
  lemma {:induction false} OneAudit<S>(w: World<S>, cfg: Config, p: Pos<S>, first: Target, last: Target)
    requires w.Valid() && !first.Reached(p.step, p.consumed)
    requires var q := Expected(w, cfg, p, first).pos; !last.Reached(q.step, q.consumed)
    ensures !last.Reached(p.step, p.consumed)
    ensures var q := Expected(w, cfg, p, first).pos;
            && Expected(w, cfg, q, last) == Expected(w, cfg, p, last)
            && (!HaltsBefore(w, cfg, p, last) ==> !HaltsBefore(w, cfg, p, first) && !HaltsBefore(w, cfg, q, last))
    decreases first.Left(p.step, p.consumed)
  {
    var next := Advance(w, cfg, p);
    if first.Reached(next.step, next.consumed) {
    } else {
      OneAudit(w, cfg, next, first, last);
    }
  }

  /**
   With hashing on and no halt up to the last target, the chain of what the audits hand off ends in what one
   direct audit to the last target hands off, for step and token targets alike.
  */
  lemma {:induction false} HandOffsEqualDirect<S>(w: World<S>, cfg: Config, p: Pos<S>, targets: seq<Target>)
    requires w.Valid() && cfg.hashEvery > 0 && targets != [] && Ahead(w, cfg, p, targets)
    requires !HaltsBefore(w, cfg, p, targets[|targets| - 1])
    ensures !targets[|targets| - 1].Reached(p.step, p.consumed)
    ensures HandOffs(w, cfg, p, targets) == Replayed(w, cfg, p, targets[|targets| - 1]).handoff
    ensures HandOffs(w, cfg, p, targets) == Some(Expected(w, cfg, p, targets[|targets| - 1]))
    decreases |targets|
  {
    var last := targets[|targets| - 1];
    if |targets| == 1 {
      ReplayedIsExpected(w, cfg, p, last);
    } else {
      var q := Expected(w, cfg, p, targets[0]).pos;
      LastIsAhead(w, cfg, q, targets[1..]);
      OneAudit(w, cfg, p, targets[0], last);
      ReplayedIsExpected(w, cfg, p, targets[0]);
      ReplayedIsExpected(w, cfg, p, last);
      HandOffsEqualDirect(w, cfg, q, targets[1..]);
    }
  }

  lemma {:induction false} LastIsAhead<S>(w: World<S>, cfg: Config, p: Pos<S>, targets: seq<Target>)
    requires w.Valid() && targets != [] && Ahead(w, cfg, p, targets)
    ensures !targets[|targets| - 1].Reached(p.step, p.consumed)
    decreases |targets|
  {
    if |targets| > 1 {
      var q := Expected(w, cfg, p, targets[0]).pos;
      LastIsAhead(w, cfg, q, targets[1..]);
      OneAudit(w, cfg, p, targets[0], targets[|targets| - 1]);
    }
  }

  /** And only then: where no audit of the chain halts, the last one hands off if and only if all targets were ahead. */
  lemma {:induction false} HandOffsExactly<S>(w: World<S>, cfg: Config, p: Pos<S>, targets: seq<Target>)
    requires w.Valid() && cfg.hashEvery > 0 && targets != []
    requires forall i :: 0 <= i < |targets| ==> !HaltsBefore(w, cfg, p, targets[i])
    ensures HandOffs(w, cfg, p, targets).Some? <==> Ahead(w, cfg, p, targets)
    decreases |targets|
  {
    var first := targets[0];
    if !first.Reached(p.step, p.consumed) {
      ReplayedIsExpected(w, cfg, p, first);
      var q := Expected(w, cfg, p, first).pos;
      if |targets| > 1 {
        forall i | 0 <= i < |targets[1..]| ensures !HaltsBefore(w, cfg, q, targets[1..][i]) {
          var later := targets[i + 1];
          if !later.Reached(q.step, q.consumed) {
            OneAudit(w, cfg, p, first, later);
          }
        }
        HandOffsExactly(w, cfg, q, targets[1..]);
      }
    }
  }

  /** Target steps are ahead when they ascend from beyond the start. */
  lemma {:induction false} StepsAhead<S>(w: World<S>, cfg: Config, p: Pos<S>, targets: seq<Target>)
    requires w.Valid() && forall i :: 0 <= i < |targets| ==> targets[i].UntilStep? && p.step < targets[i].step
    requires forall i, j :: 0 <= i < j < |targets| ==> targets[i].step < targets[j].step
    ensures Ahead(w, cfg, p, targets)
    decreases |targets|
  {
    if targets == [] {
    } else {
      var n := targets[0].step - p.step;
      PosCounts(w, cfg, p, n);
      ExpectedAfter(w, cfg, p, n, targets[0]);
      StepsAhead(w, cfg, Expected(w, cfg, p, targets[0]).pos, targets[1..]);
    }
  }

  /** With hashing off the chain never moves, and every checkpoint is stamped with a link to it. */
  lemma {:induction false} UnhashedStamps<S>(w: World<S>, cfg: Config, p: Pos<S>, n: nat)
    requires w.Valid() && cfg.hashEvery <= 0 && n > 0
    ensures CkptAt(w, cfg, p, n).stamp == Seal(w, cfg, p.chain, CkptAt(w, cfg, p, n).pos.state)
    decreases n
  {
    var q := Advance(w, cfg, p);
    if n == 1 {
      assert PosAfter(w, cfg, p, 1) == PosAfter(w, cfg, q, 0);
    } else {
      UnhashedStamps(w, cfg, q, n - 1);
    }
  }

  /** With hashing off: what the loop stamped at the target, and what the audit reports there. */
  lemma HashingOff<S>(w: World<S>, cfg: Config, p: Pos<S>, n: nat, target: Target)
    requires w.Valid() && cfg.hashEvery <= 0 && n > 0 && Runs(w, cfg, p, n) && Aims(target, CkptAt(w, cfg, p, n))
    ensures var s := PosAfter(w, cfg, p, n).state;
            && CkptAt(w, cfg, p, n).stamp == Seal(w, cfg, p.chain, s)
            && Replayed(w, cfg, p, target).digest == if p.chain.Some? then p.chain.value else w.Bare(s)
  {
    ExpectedAfter(w, cfg, p, n, target);
    NoHaltBefore(w, cfg, p, n, target);
    ReplayedUnhashed(w, cfg, p, target);
    UnhashedStamps(w, cfg, p, n);
  }

  /** A hash is not chained to itself, and a digest with gradients is none without. */
  ghost predicate NoMixUp<S(!new)>(w: World<S>) {
    && (forall h, ds, t :: w.finish(Some(h), ds, t) != h)
    && (forall s, s', r: nat :: w.shard(s, true, r) != w.shard(s', false, r))
  }

  /**
   With hashing off the loop still stamps its checkpoints with a chained hash of one rank's shard, while the
   audit reports the chain it started from or the unchained hash of all ranks without gradients. Collisions
   aside, they are the same exactly for one rank, an empty chain and gradients left out.
  */
  lemma HashingOffMatchesExactly<S(!new)>(w: World<S>, cfg: Config, p: Pos<S>, n: nat, target: Target)
    requires w.Valid() && cfg.hashEvery <= 0 && n > 0 && Runs(w, cfg, p, n) && Aims(target, CkptAt(w, cfg, p, n))
    requires Injective(w) && NoMixUp(w)
    ensures Replayed(w, cfg, p, target).digest == CkptAt(w, cfg, p, n).stamp
            <==> p.chain.None? && !cfg.includeGrads && w.ranks == 1
  {
    HashingOff(w, cfg, p, n, target);
    var s := PosAfter(w, cfg, p, n).state;
    var stamped, fallback := Gathered(w, cfg, s), w.Digests(s, false, w.ranks);
    if p.chain.None? && w.ranks == 1 {
      assert stamped[0] == w.shard(s, cfg.includeGrads, 0) && fallback[0] == w.shard(s, false, 0);
      assert !cfg.includeGrads ==> stamped == fallback;
    }
  }

  /** A run that stays where it is, with hashing off: one rank, and a hash that shows whether gradients went in. */
  function Still(): World<nat> {
    World((s, step, consumed) => s, (s, step, consumed) => false, consumed => 1,
          1, (s, grads, r) => if grads then 1 else 0, s => 0, (c, ds, t) => if 1 in ds then 1 else 0)
  }

  /** One input each way: without gradients the first step's checkpoint matches, with them it does not. */
  lemma HashingOffExamples(includeGrads: bool)
    ensures var cfg := Config(0, includeGrads, 1, 0, 1);
            var p := Pos(0, 0, 0, None);
            Replayed(Still(), cfg, p, UntilStep(1)).digest == CkptAt(Still(), cfg, p, 1).stamp <==> !includeGrads
  {
    var cfg := Config(0, includeGrads, 1, 0, 1);
    var w, p := Still(), Pos(0, 0, 0, None);
    PosCounts(w, cfg, p, 1);
    assert Runs(w, cfg, Advance(w, cfg, p), 0);
    HashingOff(w, cfg, p, 1, UntilStep(1));
    var s := PosAfter(w, cfg, p, 1).state;
    assert w.Digests(s, includeGrads, 1) == [if includeGrads then 1 else 0];
    assert w.Digests(s, false, 1) == [0];
  }

  /** The hash log and the checkpoints agree: a step in both carries one hash. */
  lemma LogMatchesStamp<S>(w: World<S>, cfg: Config, p: Pos<S>, e: LogEntry, c: Ckpt<S>)
    requires LogOnRun(w, cfg, p, e) && OnRun(w, cfg, p, c) && e.step == c.pos.step
    ensures e.hash == c.stamp && c.pos.chain == Some(c.stamp)
  {
    var n := c.pos.step - p.step;
    var before := PosAfter(w, cfg, p, n - 1);
    PosCompose(w, cfg, p, n - 1, 1);
    assert PosAfter(w, cfg, before, 1) == PosAfter(w, cfg, Advance(w, cfg, before), 0);
  }
}
