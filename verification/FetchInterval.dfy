/**
 Fetching only the shards an interval reads: which shards they are, what the local directory holds
 after the fetch, and why a replay over it is the replay over the full corpus.
*/
module FetchInterval {
  import opened Sets
  import opened Wrappers
  import opened SourceWalker
  import opened StreamModel
  import opened BatchSchedule
  import opened StepStream
  import opened ShardedView

  // ----- which shards -----------------------------------------------------------------------------

  /** Where the walk stops. */
  datatype Stop = UntilStep(step: int) | UntilTokens(tokens: int) {
    predicate Done(c: Cursor) {
      match this
      case UntilStep(n) => c.step >= n
      case UntilTokens(n) => c.consumed >= n
    }

    function Left(c: Cursor): int {
      match this
      case UntilStep(n) => n - c.step
      case UntilTokens(n) => n - c.consumed
    }
  }

  lemma StepsProgress(t: Train, c: Cursor, stop: Stop)
    requires t.Valid()
    ensures stop.Left(Advance(t, c)) < stop.Left(c)
  {
    MicrobatchesPositive(t, c);
  }

  lemma MicrobatchesPositive(t: Train, c: Cursor)
    requires t.Valid()
    ensures PlanOf(t, c).tokens >= 1
  {
    var m := PlanOf(t, c).microbatches;
    assert m >= 1 && t.mb >= 1 && t.seqLen >= 1;
    assert m * t.mb >= 1;
    assert m * t.mb * t.seqLen >= 1;
  }

  /** How many steps the interval has. */
  function StepsUntil(t: Train, c: Cursor, stop: Stop): nat
    requires t.Valid()
    decreases stop.Left(c)
  {
    if stop.Done(c) then 0 else
    StepsProgress(t, c, stop);
    1 + StepsUntil(t, Advance(t, c), stop)
  }

  /** The shards the interval's steps touch. */
  function TouchedUntil(ix: Index, t: Train, p: Pos, c: Cursor, stop: Stop): set<(nat, nat)>
    requires PosOk(ix, p) && t.Valid()
    decreases stop.Left(c)
  {
    if stop.Done(c) then {} else
    StepsProgress(t, c, stop);
    Touched(ix, p, t.seqLen + 1, StepSize(t, c)) + TouchedUntil(ix, t, PosAfterStep(ix, t, p, c), Advance(t, c), stop)
  }

  lemma TouchedStepsCons(ix: Index, t: Train, p: Pos, c: Cursor, k: nat)
    requires PosOk(ix, p) && t.Valid() && k > 0
    ensures TouchedSteps(ix, t, p, c, k) ==
              Touched(ix, p, t.seqLen + 1, StepSize(t, c))
              + TouchedSteps(ix, t, PosAfterStep(ix, t, p, c), Advance(t, c), k - 1)
  {
    hide Touched, PosAfterStep, Advance, StepSize;
  }

  lemma {:induction false} TouchedUntilIsSteps(ix: Index, t: Train, p: Pos, c: Cursor, stop: Stop, k: nat)
    requires PosOk(ix, p) && t.Valid() && k == StepsUntil(t, c, stop)
    ensures TouchedUntil(ix, t, p, c, stop) == TouchedSteps(ix, t, p, c, k)
    decreases stop.Left(c)
  {
    if !stop.Done(c) {
      StepsProgress(t, c, stop);
      TouchedUntilIsSteps(ix, t, PosAfterStep(ix, t, p, c), Advance(t, c), stop, k - 1);
      TouchedStepsCons(ix, t, p, c, k);
    }
  }

  /** The interval's step number i starts before its target: a step count, or a count of consumed tokens. */
  ghost predicate BeforeTarget(t: Train, c: Cursor, stop: Stop, i: nat)
    requires t.Valid()
  {
    match stop
    case UntilStep(n) => c.step + i < n
    case UntilTokens(n) => CursorAt(t, c, i).consumed < n
  }

  /** The interval is exactly the steps that start before its target. */
  lemma {:induction false} StepsUntilIsExact(t: Train, c: Cursor, stop: Stop, i: nat)
    requires t.Valid()
    ensures i < StepsUntil(t, c, stop) <==> BeforeTarget(t, c, stop, i)
    decreases stop.Left(c)
  {
    StepAccounts(t, c, i);
    MoreConsumed(t, c, i);
    if !stop.Done(c) {
      StepsProgress(t, c, stop);
      if i > 0 {
        StepsUntilIsExact(t, Advance(t, c), stop, i - 1);
        CursorFront(t, c, i - 1);
      }
    }
  }

  lemma {:induction false} MoreConsumed(t: Train, c: Cursor, i: nat)
    requires t.Valid()
    ensures CursorAt(t, c, i).consumed >= c.consumed
  {
    if i == 0 {
    } else {
      MoreConsumed(t, c, i - 1);
    }
  }

  /**
   Where the walk ends: at the target step, or at the first step boundary at or beyond the target tokens; and
   where it starts when that is no earlier.
  */
  lemma IntervalEnds(t: Train, c: Cursor, stop: Stop)
    requires t.Valid()
    ensures var k := StepsUntil(t, c, stop);
            match stop
            case UntilStep(n) => CursorAt(t, c, k).step == if n > c.step then n else c.step
            case UntilTokens(n) =>
              && CursorAt(t, c, k).consumed >= n
              && forall i :: 0 <= i < k ==> CursorAt(t, c, i).consumed < n
  {
    hide CursorAt, StepsUntil;
    var k := StepsUntil(t, c, stop);
    StepAccounts(t, c, k);
    StepsUntilIsExact(t, c, stop, k);
    forall i | 0 <= i < k ensures stop.UntilTokens? ==> CursorAt(t, c, i).consumed < stop.tokens {
      StepsUntilIsExact(t, c, stop, i);
    }
    if k > 0 {
      StepsUntilIsExact(t, c, stop, k - 1);
    }
  }

  /** The shards step i of the interval touches. */
  function TouchedAt(ix: Index, t: Train, p: Pos, c: Cursor, i: nat): set<(nat, nat)>
    requires PosOk(ix, p) && t.Valid()
  {
    Touched(ix, PosAfterSteps(ix, t, p, c, i), t.seqLen + 1, StepSize(t, CursorAt(t, c, i)))
  }

  /** Step i starts before the target and touches this shard. */
  ghost predicate TouchedBy(ix: Index, t: Train, p: Pos, c: Cursor, stop: Stop, i: nat, s: (nat, nat))
    requires PosOk(ix, p) && t.Valid()
  {
    BeforeTarget(t, c, stop, i) && s in TouchedAt(ix, t, p, c, i)
  }

  /** The shards of the steps before the target, each of them and nothing else. */
  ghost predicate TouchedBeforeTarget(ix: Index, t: Train, p: Pos, c: Cursor, stop: Stop, touched: set<(nat, nat)>)
    requires PosOk(ix, p) && t.Valid()
  {
    forall s :: s in touched <==> exists i: nat :: TouchedBy(ix, t, p, c, stop, i, s)
  }

  lemma {:induction false} TouchedStepsMembers(ix: Index, t: Train, p: Pos, c: Cursor, k: nat, s: (nat, nat))
    requires PosOk(ix, p) && t.Valid()
    ensures s in TouchedSteps(ix, t, p, c, k) <==>
              exists i :: 0 <= i < k && s in TouchedAt(ix, t, p, c, i)
    decreases k
  {
    hide Touched, PosOk, StepSize, Advance;
    if k == 0 {
    } else {
      var q, e := PosAfterStep(ix, t, p, c), Advance(t, c);
      TouchedStepsCons(ix, t, p, c, k);
      TouchedStepsMembers(ix, t, q, e, k - 1, s);
      forall i: nat ensures TouchedAt(ix, t, q, e, i) == TouchedAt(ix, t, p, c, i + 1) {
        PosFront(ix, t, p, c, i);
        CursorFront(t, c, i);
      }
      if i :| 0 <= i < k && s in TouchedAt(ix, t, p, c, i) {
        assert i > 0 ==> s in TouchedAt(ix, t, q, e, i - 1);
      }
      if i :| 0 <= i < k - 1 && s in TouchedAt(ix, t, q, e, i) {
        assert s in TouchedAt(ix, t, p, c, i + 1);
      }
      assert TouchedAt(ix, t, p, c, 0) == Touched(ix, p, t.seqLen + 1, StepSize(t, c));
    }
  }

  lemma TouchedUntilIsExact(ix: Index, t: Train, p: Pos, c: Cursor, stop: Stop)
    requires PosOk(ix, p) && t.Valid()
    ensures TouchedBeforeTarget(ix, t, p, c, stop, TouchedUntil(ix, t, p, c, stop))
  {
    hide BeforeTarget, TouchedUntil, StepsUntil, TouchedSteps, Touched, PosOk, PosAfterSteps;
    var k := StepsUntil(t, c, stop);
    TouchedUntilIsSteps(ix, t, p, c, stop, k);
    forall s ensures s in TouchedUntil(ix, t, p, c, stop) <==> exists i: nat :: TouchedBy(ix, t, p, c, stop, i, s) {
      TouchedStepsMembers(ix, t, p, c, k, s);
      if i: nat :| TouchedBy(ix, t, p, c, stop, i, s) {
        StepsUntilIsExact(t, c, stop, i);
        assert s in TouchedAt(ix, t, p, c, i);
      }
      if s in TouchedUntil(ix, t, p, c, stop) {
        var i :| 0 <= i < k && s in TouchedAt(ix, t, p, c, i);
        StepsUntilIsExact(t, c, stop, i);
        assert TouchedBy(ix, t, p, c, stop, i, s);
      }
    }
  }

  /** The refills of one step, window by window; no payload is read. */
  method WalkStepRefs(view: ShardedWindowView, c: Cursor) returns (refs: seq<(nat, Ref)>)
    requires view.Valid() && view.refSink == Some([]) && view.spanSink == None
    modifies view
    ensures view.Valid() && view.refSink == Some([]) && view.spanSink == None
    ensures view.pos == PosAfterStep(view.ix, view.train, old(view.pos), c)
    ensures view.payloadReads == old(view.payloadReads)
    ensures ShardsOf(refs) == Touched(view.ix, old(view.pos), view.train.seqLen + 1, StepSize(view.train, c))
  {
    var count := PlanOf(view.train, c).microbatches * view.train.mb;
    ghost var n, p := view.train.seqLen + 1, view.pos;
    for i := 0 to count
      invariant view.Valid() && view.refSink.Some? && view.spanSink == None && view.pos == After(view.ix, p, n, i)
      invariant view.payloadReads == old(view.payloadReads)
      invariant ShardsOf(view.refSink.value) == Touched(view.ix, p, n, i)
    {
      ghost var q, before := view.pos, view.refSink.value;
      TouchedMore(view.ix, p, n, i);
      ShardsOfAppend(before, FillDocs(view.ix, q, n));
      var _ := view.TakeWindow(false);
    }
    refs := view.refSink.value;
    view.refSink := Some([]);
  }

  lemma {:induction false} TouchedMore(ix: Index, p: Pos, n: nat, i: nat)
    requires PosOk(ix, p)
    ensures After(ix, p, n, i + 1) == Next(ix, After(ix, p, n, i), n)
    ensures Touched(ix, p, n, i + 1) == Touched(ix, p, n, i) + TouchedFill(ix, After(ix, p, n, i), n)
    decreases i
  {
    hide TouchedFill, Next, PosOk;
    OneMore(ix, p, n, i);
    if i > 0 {
      var q := Next(ix, p, n);
      TouchedMore(ix, q, n, i - 1);
      UnionAssoc(TouchedFill(ix, p, n), Touched(ix, q, n, i - 1), TouchedFill(ix, After(ix, q, n, i - 1), n));
    } else {
      assert Touched(ix, p, n, 1) == TouchedFill(ix, p, n) + Touched(ix, Next(ix, p, n), n, 0);
    }
  }

  /**
   `walk_doc_refs` with the collection of `enumerate_touched_shards`: exactly the shards the interval's
   steps touch, found without reading a payload.
  */
  method EnumerateTouched(view: ShardedWindowView, c: Cursor, stop: Stop) returns (r: Outcome<set<(nat, nat)>>)
    requires view.Valid()
    modifies view
    ensures view.Valid() && view.payloadReads == old(view.payloadReads)
    ensures r.Ok? <==> old(view.spanSink.None? && view.refSink.None?)
    ensures r.Ok? ==>
              && r.value == TouchedUntil(view.ix, view.train, old(view.pos), c, stop)
              && TouchedBeforeTarget(view.ix, view.train, old(view.pos), c, stop, r.value)
  {
    if view.spanSink.Some? || view.refSink.Some? {
      return Failure("view is already being walked");
    }
    view.refSink := Some([]);
    var cursor := c;
    var touched: set<(nat, nat)> := {};
    ghost var ix, t, p := view.ix, view.train, view.pos;
    while !stop.Done(cursor)
      invariant view.Valid() && view.refSink == Some([]) && view.spanSink == None
      invariant view.payloadReads == old(view.payloadReads)
      invariant touched + TouchedUntil(ix, t, view.pos, cursor, stop) == TouchedUntil(ix, t, p, c, stop)
      decreases stop.Left(cursor)
    {
      StepsProgress(t, cursor, stop);
      ghost var q := view.pos;
      var refs := WalkStepRefs(view, cursor);
      UnionAssoc(touched, ShardsOf(refs), TouchedUntil(ix, t, view.pos, Advance(t, cursor), stop));
      touched := touched + ShardsOf(refs);
      cursor := Advance(view.train, cursor);
    }
    view.refSink := None;
    TouchedUntilIsExact(ix, t, p, c, stop);
    return Ok(touched);
  }

  // ----- what the directory holds -----------------------------------------------------------------

  /** A payload file, shard document by shard document. */
  type File = seq<seq<int>>

  /** A shard of the dataset: its source, and its number in the source's manifest. */
  type Shard = (nat, nat)

  /**
   The remote dataset: every shard's payload, the hash its manifest records for it, if any, and the
   placeholder of its size that the fetch may write.
  */
  datatype Mirror = Mirror(
    shards: set<Shard>, payload: map<Shard, File>, recorded: map<Shard, nat>, hash: File -> nat, stub: Shard -> File)
  {
    /** The recorded hashes are the payloads' own. */
    ghost predicate Sound() {
      && payload.Keys <= shards
      && forall s :: s in recorded && s in payload ==> recorded[s] == hash(payload[s])
    }

    /** A file with the recorded hash is the payload: nothing else on the local disk collides. */
    ghost predicate NoCollision(f: File, s: Shard) {
      s in recorded && s in payload && hash(f) == recorded[s] ==> f == payload[s]
    }
  }

  /** Whether a file present under a touched shard's name is kept as it is. */
  predicate Kept(m: Mirror, s: Shard, f: File, verify: bool) {
    !(verify && s in m.recorded && m.hash(f) != m.recorded[s])
  }

  /** The shard's file is there and kept, or the mirror has it. */
  predicate Gettable(m: Mirror, s: Shard, bins: map<Shard, File>, verify: bool) {
    (s in bins && Kept(m, s, bins[s], verify)) || s in m.payload
  }

  /** The local directory of payload files. */
  class LocalDir {
    var bins: map<Shard, File>

    constructor ()
      ensures bins == map[]
    {
      bins := map[];
    }

    /** One touched shard of `_fetch_bins`. */
    method FetchBin(m: Mirror, s: Shard, verify: bool) returns (ok: bool)
      modifies this
      ensures ok ==> bins == if s in old(bins) && Kept(m, s, old(bins)[s], verify) then old(bins)
                             else if s in m.payload then old(bins)[s := m.payload[s]] else old(bins)
      ensures ok ==> s in bins
      ensures ok && verify && s in m.recorded ==> m.hash(bins[s]) == m.recorded[s]
      ensures m.Sound() ==> (ok <==> Gettable(m, s, old(bins), verify))
      ensures forall q :: q != s ==> (q in bins <==> q in old(bins)) && (q in bins ==> bins[q] == old(bins)[q])
    {
      if s in bins {
        if verify && s in m.recorded && m.hash(bins[s]) != m.recorded[s] {
          bins := bins - {s};
        } else {
          return true;
        }
      }
      if s !in m.payload {
        return false;
      }
      bins := bins[s := m.payload[s]];
      if verify && s in m.recorded {
        if m.hash(bins[s]) != m.recorded[s] {
          return false;
        }
      }
      return true;
    }

    /** `_fetch_bins`: every touched shard, in some fixed order. */
    method FetchBins(m: Mirror, touched: seq<Shard>, verify: bool) returns (ok: bool)
      requires m.Sound()
      modifies this
      ensures ok <==> forall s <- touched :: Gettable(m, s, old(bins), verify)
      ensures ok ==> forall s <- touched :: s in bins && AfterFetch(m, s, old(bins), verify, bins[s])
      ensures ok ==> forall s :: s !in touched ==> SameFile(old(bins), bins, s)
    {
      for i := 0 to |touched|
        invariant forall j :: 0 <= j < i ==>
                    touched[j] in bins && AfterFetch(m, touched[j], old(bins), verify, bins[touched[j]])
        invariant forall j :: 0 <= j < i ==> Gettable(m, touched[j], old(bins), verify)
        invariant forall s :: s !in touched[..i] ==> SameFile(old(bins), bins, s)
      {
        var s := touched[i];
        ghost var before := bins;
        GettableStill(m, s, old(bins), before, verify, s in touched[..i]);
        ok := FetchBin(m, s, verify);
        if !ok {
          return;
        }
        assert touched[..i + 1] == touched[..i] + [s];
        FetchedOnce(m, s, old(bins), before, bins, verify, s in touched[..i]);
      }
      assert touched[..|touched|] == touched;
      return true;
    }

    /** `_stub_untouched_bins`: a placeholder for every other shard without a file. */
    method StubUntouched(m: Mirror, all: seq<Shard>, touched: set<Shard>)
      modifies this
      ensures forall s <- all :: s !in touched ==> s in bins
      ensures forall s :: s in old(bins) || s in touched || s !in all ==> SameFile(old(bins), bins, s)
      ensures forall s <- all :: s !in touched && s !in old(bins) ==> bins[s] == m.stub(s)
    {
      for i := 0 to |all|
        invariant forall j :: 0 <= j < i && all[j] !in touched ==> all[j] in bins
        invariant forall s :: s in old(bins) || s in touched || s !in all[..i] ==> SameFile(old(bins), bins, s)
        invariant forall j :: 0 <= j < i && all[j] !in touched && all[j] !in old(bins) ==>
                    bins[all[j]] == m.stub(all[j])
      {
        assert all[..i + 1] == all[..i] + [all[i]];
        if all[i] !in touched && all[i] !in bins {
          bins := bins[all[i] := m.stub(all[i])];
        }
      }
      assert all[..|all|] == all;
    }
  }

  ghost predicate SameFile(x: map<Shard, File>, y: map<Shard, File>, s: Shard) {
    (s in x <==> s in y) && (s in x ==> x[s] == y[s])
  }

  /** What a touched shard's file is after a fetch that found `before`. */
  ghost predicate AfterFetch(m: Mirror, s: Shard, before: map<Shard, File>, verify: bool, f: File) {
    if s in before && Kept(m, s, before[s], verify) then f == before[s] else s in m.payload && f == m.payload[s]
  }

  /** Fetching other shards, or this one before, makes no difference to whether it can be had. */
  lemma GettableStill(
    m: Mirror, s: Shard, start: map<Shard, File>, before: map<Shard, File>, verify: bool, again: bool)
    requires m.Sound()
    requires if again then s in before && AfterFetch(m, s, start, verify, before[s]) else SameFile(start, before, s)
    ensures Gettable(m, s, before, verify) <==> Gettable(m, s, start, verify)
  {}

  lemma FetchedOnce(
    m: Mirror, s: Shard, start: map<Shard, File>, before: map<Shard, File>, after: map<Shard, File>,
    verify: bool, again: bool)
    requires m.Sound()
    requires if again then s in before && AfterFetch(m, s, start, verify, before[s]) else SameFile(start, before, s)
    requires s in after && AfterFetch(m, s, before, verify, after[s])
    ensures AfterFetch(m, s, start, verify, after[s])
  {}

  /**
   A touched shard is real after a fetch exactly when its file was absent, or already real, or the
   fetch verifies it against a recorded hash. Otherwise a leftover placeholder stays.
  */
  lemma RealAfterFetch(m: Mirror, s: Shard, before: map<Shard, File>, verify: bool, f: File)
    requires m.Sound() && s in m.payload && AfterFetch(m, s, before, verify, f)
    requires s in before ==> m.NoCollision(before[s], s)
    ensures f == m.payload[s] <==>
              s !in before || before[s] == m.payload[s] || (verify && s in m.recorded)
  {}

  /** What one fetch makes of the directory. */
  ghost predicate Fetched(
    m: Mirror, before: map<Shard, File>, after: map<Shard, File>, touched: set<Shard>, verify: bool)
  {
    && (forall s <- touched :: s in after && AfterFetch(m, s, before, verify, after[s]))
    && (forall s :: s !in touched && s in before ==> s in after && after[s] == before[s])
    && (forall s <- m.shards :: s !in touched && s !in before ==> s in after && after[s] == m.stub(s))
  }

  method InSomeOrder(s: set<Shard>) returns (q: seq<Shard>)
    ensures forall x :: x in q <==> x in s
  {
    q := [];
    var rest := s;
    while rest != {}
      invariant rest <= s && forall x :: x in q <==> x in s && x !in rest
      decreases |rest|
    {
      var x :| x in rest;
      q := q + [x];
      rest := rest - {x};
    }
  }

  /** The whole fetch: find the touched shards, download them, put placeholders for the rest. */
  method FetchAuditInterval(
    ix: Index, train: Train, seeded: nat, state: Option<StreamState>, c: Cursor, stop: Stop,
    m: Mirror, indices: Payload, verify: bool, dir: LocalDir) returns (r: Outcome<set<Shard>>)
    requires ix.Valid() && Fits(ix, indices) && train.Valid() && m.Sound()
    modifies dir
    ensures r.Ok? <==> forall s <- TouchedUntil(ix, train, Resume(ix, seeded, state), c, stop) ::
              Gettable(m, s, old(dir.bins), verify)
    ensures r.Ok? ==>
              && r.value == TouchedUntil(ix, train, Resume(ix, seeded, state), c, stop)
              && TouchedBeforeTarget(ix, train, Resume(ix, seeded, state), c, stop, r.value)
              && Fetched(m, old(dir.bins), dir.bins, r.value, verify)
  {
    var view := new ShardedWindowView(ix, indices, train, 0, 1, seeded, state);
    var walk := EnumerateTouched(view, c, stop);
    var touched := walk.value;
    var order := InSomeOrder(touched);
    var ok := dir.FetchBins(m, order, verify);
    if !ok {
      return Failure("fetch failed");
    }
    ghost var mid := dir.bins;
    var all := InSomeOrder(m.shards);
    dir.StubUntouched(m, all, touched);
    FetchThenStub(m, old(dir.bins), mid, dir.bins, touched, verify);
    return Ok(touched);
  }

  lemma FetchThenStub(
    m: Mirror, before: map<Shard, File>, mid: map<Shard, File>, after: map<Shard, File>,
    touched: set<Shard>, verify: bool)
    requires forall s <- touched :: s in mid && AfterFetch(m, s, before, verify, mid[s])
    requires forall s :: s !in touched ==> SameFile(before, mid, s)
    requires forall s :: s in mid || s in touched || s !in m.shards ==> SameFile(mid, after, s)
    requires forall s <- m.shards :: s !in touched ==> s in after
    requires forall s <- m.shards :: s !in touched && s !in mid ==> after[s] == m.stub(s)
    ensures Fetched(m, before, after, touched, verify)
  {
    forall s | s in touched ensures s in after && AfterFetch(m, s, before, verify, after[s]) {
      assert SameFile(mid, after, s);
    }
    forall s | s !in touched && s in before ensures s in after && after[s] == before[s] {
      assert SameFile(before, mid, s) && SameFile(mid, after, s);
    }
    forall s | s in m.shards && s !in touched && s !in before ensures s in after && after[s] == m.stub(s) {
      assert SameFile(before, mid, s);
    }
  }

  // ----- any sequence of verified fetches ---------------------------------------------------------

  ghost predicate Real(m: Mirror, bins: map<Shard, File>, s: Shard) {
    s in bins && s in m.payload && bins[s] == m.payload[s]
  }

  /** Everything on the local disk differs in hash from what it is not. */
  ghost predicate Collisionless(m: Mirror, bins: map<Shard, File>) {
    forall s :: s in bins ==> m.NoCollision(bins[s], s)
  }

  /** Every touched shard has a payload and a recorded hash. */
  ghost predicate Recorded(m: Mirror, touched: set<Shard>) {
    forall s <- touched :: s in m.payload && s in m.recorded
  }

  /** The directory goes through these states, one verified fetch each. */
  ghost predicate History(m: Mirror, states: seq<map<Shard, File>>, fetches: seq<set<Shard>>) {
    && |states| == |fetches| + 1
    && (forall i :: 0 <= i < |fetches| ==>
          Recorded(m, fetches[i]) && Fetched(m, states[i], states[i + 1], fetches[i], true))
    && (forall i :: 0 <= i < |states| ==> Collisionless(m, states[i]))
  }

  /** A real file stays real. */
  lemma RealStays(
    m: Mirror, before: map<Shard, File>, after: map<Shard, File>, touched: set<Shard>, verify: bool, s: Shard)
    requires m.Sound() && Fetched(m, before, after, touched, verify) && Real(m, before, s)
    ensures Real(m, after, s)
  {}

  lemma {:induction false} RealToTheEnd(
    m: Mirror, states: seq<map<Shard, File>>, fetches: seq<set<Shard>>, i: nat, j: nat, s: Shard)
    requires m.Sound() && History(m, states, fetches) && i < |fetches| && s in fetches[i] && i < j < |states|
    ensures Real(m, states[j], s)
    decreases j
  {
    if j == i + 1 {
      assert AfterFetch(m, s, states[i], true, states[j][s]);
      assert s in states[i] ==> m.NoCollision(states[i][s], s);
      RealAfterFetch(m, s, states[i], true, states[j][s]);
    } else {
      RealToTheEnd(m, states, fetches, i, j - 1, s);
      RealStays(m, states[j - 1], states[j], fetches[j - 1], true, s);
    }
  }

  /**
   After any sequence of verified fetches into one directory, every shard any of them touched is real:
   a placeholder an earlier fetch left is never taken for data.
  */
  lemma TouchedAreReal(m: Mirror, states: seq<map<Shard, File>>, fetches: seq<set<Shard>>, i: nat, s: Shard)
    requires m.Sound() && History(m, states, fetches) && i < |fetches| && s in fetches[i]
    ensures Real(m, states[|states| - 1], s)
  {
    RealToTheEnd(m, states, fetches, i, |states| - 1, s);
  }

  /** An unverified fetch keeps a placeholder that an earlier fetch left under a touched shard's name. */
  lemma StubSurvivesUnverified(m: Mirror, s: Shard, after: map<Shard, File>)
    requires m.Sound() && s in m.payload && m.stub(s) != m.payload[s]
    requires Fetched(m, map[s := m.stub(s)], after, {s}, false)
    ensures !Real(m, after, s)
  {
    assert s in {s};
  }

  // ----- the replay -------------------------------------------------------------------------------

  /** The payload a directory serves. */
  function PayloadOf(bins: map<Shard, File>, eos: int): Payload {
    Payload((src: nat, ref: Ref) =>
      if (src, ref.shard) in bins && ref.local < |bins[(src, ref.shard)]|
      then bins[(src, ref.shard)][ref.local]
      else [],
      eos)
  }

  /** A directory serves document `local` of a shard from that shard's file. */
  lemma PayloadServes(bins: map<Shard, File>, eos: int, src: nat, ref: Ref)
    requires (src, ref.shard) in bins && ref.local < |bins[(src, ref.shard)]|
    ensures PayloadOf(bins, eos).doc(src, ref) == bins[(src, ref.shard)][ref.local]
    ensures PayloadOf(bins, eos).eos == eos
  {}

  /**
   The audit over the fetched tree is the audit over the full corpus: after any sequence of verified
   fetches, for the interval of any of them, every virtual rank takes the same micro-batches and the
   stream ends in the same state, whatever the placeholders hold.
  */
  lemma FetchedReplayIsFullReplay(
    m: Mirror, states: seq<map<Shard, File>>, fetches: seq<set<Shard>>, i: nat, eos: int,
    ix: Index, t: Train, ws: nat, r: nat, seeded: nat, state: Option<StreamState>, c: Cursor, stop: Stop)
    requires m.Sound() && History(m, states, fetches) && i < |fetches| && ix.Valid() && t.Valid()
    requires fetches[i] == TouchedUntil(ix, t, Resume(ix, seeded, state), c, stop)
    ensures var p, k := Resume(ix, seeded, state), StepsUntil(t, c, stop);
            var local, full := PayloadOf(states[|states| - 1], eos), PayloadOf(m.payload, eos);
            && RankSteps(ix, local, t, ws, r, p, c, k) == RankSteps(ix, full, t, ws, r, p, c, k)
            && Snapshot(ix, local, PosAfterSteps(ix, t, p, c, k)) == Snapshot(ix, full, PosAfterSteps(ix, t, p, c, k))
  {
    var local, full := PayloadOf(states[|states| - 1], eos), PayloadOf(m.payload, eos);
    TouchedUntilIsSteps(ix, t, Resume(ix, seeded, state), c, stop, StepsUntil(t, c, stop));
    forall src: nat, ref: Ref | (src, ref.shard) in fetches[i] ensures local.doc(src, ref) == full.doc(src, ref) {
      TouchedAreReal(m, states, fetches, i, (src, ref.shard));
    }
    ReplayNeedsOnlyTouched(ix, local, full, t, ws, r, seeded, state, c, StepsUntil(t, c, stop));
  }
}
