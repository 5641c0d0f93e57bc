/** The step-to-document map: which fragments of which documents each window holds, and where they train. */
module DocMap {
  import opened Sequences
  import opened Wrappers
  import opened SourceWalker
  import opened StreamModel
  import opened BatchSchedule
  import opened StepStream
  import opened ShardedView

  // ----- documents tile the windows ----------------------------------------------------------------

  /** Whole documents, each followed by a separator. */
  function WholeDocs(ix: Index, docs: seq<(nat, Ref)>): seq<Cell>
    requires forall i :: 0 <= i < |docs| ==> docs[i].0 < |ix.sources|
  {
    if docs == [] then []
    else
      var (src, ref) := docs[0];
      DocCells(src, ref, 0, ix.sources[src].Length(ref)) + [Sep] + WholeDocs(ix, docs[1..])
  }

  /** The documents drawn to produce k windows, in order. */
  function StreamDocs(ix: Index, p: Pos, n: nat, k: nat): (d: seq<(nat, Ref)>)
    requires PosOk(ix, p)
    ensures forall i :: 0 <= i < |d| ==> d[i].0 < |ix.sources|
    decreases k
  {
    if k == 0 then [] else FillDocs(ix, p, n) + StreamDocs(ix, Next(ix, p, n), n, k - 1)
  }

  lemma {:induction false} WholeDocsAppend(ix: Index, a: seq<(nat, Ref)>, b: seq<(nat, Ref)>)
    requires forall i :: 0 <= i < |a| ==> a[i].0 < |ix.sources|
    requires forall i :: 0 <= i < |b| ==> b[i].0 < |ix.sources|
    ensures forall i :: 0 <= i < |a + b| ==> (a + b)[i].0 < |ix.sources|
    ensures WholeDocs(ix, a + b) == WholeDocs(ix, a) + WholeDocs(ix, b)
  {
    if a == [] {
      assert a + b == b;
    } else {
      WholeDocsAppend(ix, a[1..], b);
      assert (a + b)[1..] == a[1..] + b;
    }
  }

  function Whole(ix: Index, d: (nat, Ref)): seq<Cell>
    requires d.0 < |ix.sources|
  {
    DocCells(d.0, d.1, 0, ix.sources[d.0].Length(d.1)) + [Sep]
  }

  lemma WholeDocsCons(ix: Index, d: (nat, Ref), docs: seq<(nat, Ref)>)
    requires d.0 < |ix.sources| && forall i :: 0 <= i < |docs| ==> docs[i].0 < |ix.sources|
    ensures forall i :: 0 <= i < |[d] + docs| ==> ([d] + docs)[i].0 < |ix.sources|
    ensures WholeDocs(ix, [d] + docs) == Whole(ix, d) + WholeDocs(ix, docs)
  {
    assert ([d] + docs)[1..] == docs;
  }

  lemma RefillAdds(ix: Index, p: Pos)
    requires PosOk(ix, p)
    ensures Drawn(ix, p).0 < |ix.sources|
    ensures Refill(ix, p).cells == p.cells + Whole(ix, Drawn(ix, p))
  {
    var (src, ref) := Drawn(ix, p);
    Assoc(p.cells, DocCells(src, ref, 0, ix.sources[src].Length(ref)), [Sep]);
  }

  lemma {:induction false} FillTiles(ix: Index, p: Pos, n: nat)
    requires PosOk(ix, p)
    ensures Fill(ix, p, n).cells == p.cells + WholeDocs(ix, FillDocs(ix, p, n))
    decreases n - |p.cells|
  {
    if |p.cells| >= n {
    } else {
      var q, d := Refill(ix, p), Drawn(ix, p);
      RefillAdds(ix, p);
      FillTiles(ix, q, n);
      WholeDocsCons(ix, d, FillDocs(ix, q, n));
      Assoc(p.cells, Whole(ix, d), WholeDocs(ix, FillDocs(ix, q, n)));
    }
  }

  /** A window and what it leaves in the buffer. */
  lemma WindowTiles(ix: Index, p: Pos, n: nat)
    requires PosOk(ix, p)
    ensures Window(ix, p, n) + Next(ix, p, n).cells == p.cells + WholeDocs(ix, FillDocs(ix, p, n))
  {
    FillTiles(ix, p, n);
    var f := Fill(ix, p, n);
    assert f.cells[..n] + f.cells[n..] == f.cells;
  }

  /**
   Nothing is lost, repeated or reordered: the windows in order, followed by what is still buffered,
   are what was buffered before followed by every drawn document whole, each with its separator.
  */
  lemma {:induction false} StreamTiles(ix: Index, p: Pos, n: nat, k: nat)
    requires PosOk(ix, p)
    ensures Flat(Windows(ix, p, n, k)) + After(ix, p, n, k).cells
         == p.cells + WholeDocs(ix, StreamDocs(ix, p, n, k))
    decreases k
  {
    hide FillDocs, Next, Window, PosOk;
    if k == 0 {
    } else {
      var q, w := Next(ix, p, n), Window(ix, p, n);
      var rest, docs := Windows(ix, q, n, k - 1), StreamDocs(ix, q, n, k - 1);
      StreamTiles(ix, q, n, k - 1);
      WindowTiles(ix, p, n);
      WholeDocsAppend(ix, FillDocs(ix, p, n), docs);
      FlatCons(w, rest);
      TileStep(w, Flat(rest), After(ix, q, n, k - 1).cells, q.cells, WholeDocs(ix, docs), p.cells,
               WholeDocs(ix, FillDocs(ix, p, n)));
    }
  }

  lemma TileStep(
    w: seq<Cell>, f: seq<Cell>, rest: seq<Cell>, q: seq<Cell>, d: seq<Cell>, p: seq<Cell>, e: seq<Cell>)
    requires f + rest == q + d && w + q == p + e
    ensures (w + f) + rest == p + (e + d)
  {
    Assoc(w, f, rest);
    Assoc(w, q, d);
    Assoc(p, e, d);
  }

  function SepCount(cells: seq<Cell>): nat {
    if cells == [] then 0 else SepCount(cells[..|cells| - 1]) + (if cells[|cells| - 1].Sep? then 1 else 0)
  }

  function SpanTotal(spans: seq<Span>): int {
    if spans == [] then 0
    else SpanTotal(spans[..|spans| - 1]) + (spans[|spans| - 1].to - spans[|spans| - 1].from)
  }

  lemma {:induction false} SpanTotalIs(spans: seq<Span>)
    requires forall i :: 0 <= i < |spans| ==> spans[i].from <= spans[i].to
    ensures SpanTotal(spans) == |SpanCells(spans)|
  {
    if spans == [] {
    } else {
      SpanTotalIs(spans[..|spans| - 1]);
    }
  }

  /** No cell is a resumed literal. */
  ghost predicate NoLit(cells: seq<Cell>) {
    forall i :: 0 <= i < |cells| ==> !cells[i].Lit?
  }

  lemma {:induction false} DocOrSep(cells: seq<Cell>)
    requires NoLit(cells)
    ensures |DocOnly(cells)| + SepCount(cells) == |cells|
  {
    if cells == [] {
    } else {
      DocOrSep(cells[..|cells| - 1]);
    }
  }

  lemma {:induction false} FillNoLit(ix: Index, p: Pos, n: nat)
    requires PosOk(ix, p) && NoLit(p.cells)
    ensures NoLit(Fill(ix, p, n).cells)
    decreases n - |p.cells|
  {
    if |p.cells| >= n {
    } else {
      FillNoLit(ix, Refill(ix, p), n);
    }
  }

  /** A stream that starts without literals has none in any window; a window has n cells. */
  lemma {:induction false} WindowFacts(ix: Index, p: Pos, n: nat, k: nat, j: nat)
    requires PosOk(ix, p) && NoLit(p.cells) && j < k
    ensures NoLit(Windows(ix, p, n, k)[j]) && |Windows(ix, p, n, k)[j]| == n
    decreases j
  {
    hide Fill, PosOk;
    FillNoLit(ix, p, n);
    if j == 0 {
    } else {
      WindowFacts(ix, Next(ix, p, n), n, k - 1, j - 1);
      assert Windows(ix, p, n, k)[j] == Windows(ix, Next(ix, p, n), n, k - 1)[j - 1];
    }
  }

  /** A window's fragment lengths and its separators sum to the window length. */
  lemma WindowLength(ix: Index, spans: seq<Span>, window: nat, cells: seq<Cell>)
    requires Attributes(ix, spans, window, cells) && NoLit(cells)
    ensures SpanTotal(spans) + SepCount(cells) == |cells|
  {
    forall i | 0 <= i < |spans| ensures spans[i].from <= spans[i].to {
      assert Attributed(ix, spans[i], window, cells);
    }
    SpanTotalIs(spans);
    DocOrSep(cells);
  }

  // ----- the spans of a step --------------------------------------------------------------------

  /** The fragments of one window. */
  function SpansOf(spans: seq<Span>, window: nat): seq<Span> {
    if spans == [] then []
    else
      var s := spans[|spans| - 1];
      SpansOf(spans[..|spans| - 1], window) + (if s.window == window then [s] else [])
  }

  lemma {:induction false} SpansOfAppend(a: seq<Span>, b: seq<Span>, window: nat)
    ensures SpansOf(a + b, window) == SpansOf(a, window) + SpansOf(b, window)
  {
    if b == [] {
      assert a + b == a;
    } else {
      SpansOfAppend(a, b[..|b| - 1], window);
      assert (a + b)[..|a + b| - 1] == a + b[..|b| - 1];
    }
  }

  lemma {:induction false} SpansOfUniform(a: seq<Span>, w: nat, window: nat)
    requires forall i :: 0 <= i < |a| ==> a[i].window == w
    ensures SpansOf(a, window) == if w == window then a else []
  {
    if a == [] {
    } else {
      SpansOfUniform(a[..|a| - 1], w, window);
    }
  }

  ghost predicate Ordered(spans: seq<Span>) {
    forall i, j :: 0 <= i < j < |spans| ==> spans[i].window <= spans[j].window
  }

  /** The fragments with this window number are the document cells of this window. */
  ghost predicate Lists(ix: Index, spans: seq<Span>, window: nat, cells: seq<Cell>) {
    Attributes(ix, SpansOf(spans, window), window, cells)
  }

  ghost predicate InRange(spans: seq<Span>, base: nat, end: nat) {
    forall i :: 0 <= i < |spans| ==> base <= spans[i].window < end
  }

  ghost predicate ListsAll(ix: Index, spans: seq<Span>, base: nat, wins: seq<seq<Cell>>) {
    forall j {:trigger wins[j]} :: 0 <= j < |wins| ==> Lists(ix, spans, base + j, wins[j])
  }

  lemma ListsAt(ix: Index, spans: seq<Span>, base: nat, wins: seq<seq<Cell>>, j: nat)
    requires ListsAll(ix, spans, base, wins) && j < |wins|
    ensures Lists(ix, spans, base + j, wins[j])
  {
    var _ := wins[j];
  }

  /** The spans list, window by window and in stream order, the document cells of these windows. */
  ghost predicate Maps(ix: Index, spans: seq<Span>, base: nat, wins: seq<seq<Cell>>) {
    && InRange(spans, base, base + |wins|) && Ordered(spans) && ListsAll(ix, spans, base, wins)
    && SpanCells(spans) == DocOnly(Flat(wins))
  }

  lemma MapsLists(ix: Index, spans: seq<Span>, base: nat, wins: seq<seq<Cell>>, j: nat)
    requires Maps(ix, spans, base, wins) && j < |wins|
    ensures Lists(ix, spans, base + j, wins[j])
  {
    ListsAt(ix, spans, base, wins, j);
  }

  lemma ListsKeep(ix: Index, spans: seq<Span>, more: seq<Span>, window: nat, last: nat, cells: seq<Cell>)
    requires Lists(ix, spans, window, cells) && window != last && InRange(more, last, last + 1)
    ensures Lists(ix, spans + more, window, cells)
  {
    SpansOfAppend(spans, more, window);
    SpansOfUniform(more, last, window);
    assert SpansOf(spans, window) + [] == SpansOf(spans, window);
  }

  lemma ListsLast(ix: Index, spans: seq<Span>, more: seq<Span>, base: nat, last: nat, cells: seq<Cell>)
    requires Attributes(ix, more, last, cells) && InRange(more, last, last + 1) && InRange(spans, base, last)
    ensures Lists(ix, spans + more, last, cells)
  {
    SpansOfAppend(spans, more, last);
    SpansOfUniform(more, last, last);
    NoneOf(spans, last);
    assert [] + more == more;
  }

  lemma AttributesAt(ix: Index, spans: seq<Span>, window: nat, cells: seq<Cell>)
    requires Attributes(ix, spans, window, cells)
    ensures InRange(spans, window, window + 1)
  {
    forall i | 0 <= i < |spans| ensures spans[i].window == window {
      assert Attributed(ix, spans[i], window, cells);
    }
  }

  lemma OrderedSnoc(spans: seq<Span>, more: seq<Span>, base: nat, last: nat)
    requires base <= last && Ordered(spans) && InRange(spans, base, last) && InRange(more, last, last + 1)
    ensures Ordered(spans + more) && InRange(spans + more, base, last + 1)
  {}

  lemma ListsSnoc(
    ix: Index, spans: seq<Span>, more: seq<Span>, base: nat, last: nat, win: seq<Cell>, window: nat, cells: seq<Cell>)
    requires base <= last && InRange(spans, base, last) && InRange(more, last, last + 1)
    requires Attributes(ix, more, last, win)
    requires if window == last then cells == win else Lists(ix, spans, window, cells)
    ensures Lists(ix, spans + more, window, cells)
  {
    if window == last {
      ListsLast(ix, spans, more, base, last, win);
    } else {
      ListsKeep(ix, spans, more, window, last, cells);
    }
  }

  lemma ListsAllSnoc(
    ix: Index, spans: seq<Span>, more: seq<Span>, base: nat, last: nat, wins: seq<seq<Cell>>, win: seq<Cell>)
    requires last == base + |wins| && InRange(spans, base, last) && InRange(more, last, last + 1)
    requires ListsAll(ix, spans, base, wins) && Attributes(ix, more, last, win)
    ensures ListsAll(ix, spans + more, base, wins + [win])
  {
    hide Lists, InRange, Attributes, SpansOf;
    var ws := wins + [win];
    forall j | 0 <= j < |ws| ensures Lists(ix, spans + more, base + j, ws[j]) {
      if j < |wins| {
        ListsAt(ix, spans, base, wins, j);
      }
      ListsSnoc(ix, spans, more, base, last, win, base + j, ws[j]);
    }
  }

  lemma MapsSnoc(ix: Index, spans: seq<Span>, more: seq<Span>, base: nat, wins: seq<seq<Cell>>, win: seq<Cell>)
    requires Maps(ix, spans, base, wins) && Attributes(ix, more, base + |wins|, win)
    ensures Maps(ix, spans + more, base, wins + [win])
  {
    AttributesAt(ix, more, base + |wins|, win);
    OrderedSnoc(spans, more, base, base + |wins|);
    ListsAllSnoc(ix, spans, more, base, base + |wins|, wins, win);
    SpanCellsAppend(spans, more);
    FlatSnoc(wins, win);
    DocOnlyAppend(Flat(wins), win);
  }

  lemma {:induction false} NoneOf(spans: seq<Span>, window: nat)
    requires forall i :: 0 <= i < |spans| ==> spans[i].window != window
    ensures SpansOf(spans, window) == []
  {
    if spans == [] {
    } else {
      NoneOf(spans[..|spans| - 1], window);
    }
  }

  /** One more window of a step. */
  method WalkWindow(view: ShardedWindowView, ghost p: Pos, ghost i: nat)
    requires view.Valid() && view.spanSink.Some? && view.refSink == None && PosOk(view.ix, p)
    requires view.pos == After(view.ix, p, view.train.seqLen + 1, i)
    requires Maps(view.ix, view.spanSink.value, p.emitted, Windows(view.ix, p, view.train.seqLen + 1, i))
    modifies view
    ensures view.Valid() && view.spanSink.Some? && view.refSink == None
    ensures view.payloadReads == old(view.payloadReads)
    ensures view.pos == After(view.ix, p, view.train.seqLen + 1, i + 1)
    ensures Maps(view.ix, view.spanSink.value, p.emitted, Windows(view.ix, p, view.train.seqLen + 1, i + 1))
  {
    ghost var n, before, q := view.train.seqLen + 1, view.spanSink.value, view.pos;
    EmittedCounts(view.ix, p, n, i);
    OneMore(view.ix, p, n, i);
    var _ := view.TakeWindow(false);
    ghost var more := NotedMore(view.ix, before, view.spanSink.value, q.emitted, Window(view.ix, q, n));
    MapsSnoc(view.ix, before, more, p.emitted, Windows(view.ix, p, n, i), Window(view.ix, q, n));
  }

  lemma NotedMore(ix: Index, before: seq<Span>, after: seq<Span>, window: nat, cells: seq<Cell>)
    returns (more: seq<Span>)
    requires Noted(ix, Some(before), Some(after), window, cells)
    ensures after == before + more && Attributes(ix, more, window, cells)
  {
    more := after[|before|..];
  }

  lemma MapsNothing(ix: Index, base: nat)
    ensures Maps(ix, [], base, [])
  {}

  /** The fragments of the next `count` windows, reading no payload. */
  method WalkWindows(view: ShardedWindowView, count: nat)
    requires view.Valid() && view.spanSink == Some([]) && view.refSink == None
    modifies view
    ensures view.Valid() && view.spanSink.Some? && view.refSink == None
    ensures view.payloadReads == old(view.payloadReads)
    ensures view.pos == After(view.ix, old(view.pos), view.train.seqLen + 1, count)
    ensures Maps(view.ix, view.spanSink.value, old(view.pos).emitted,
                 Windows(view.ix, old(view.pos), view.train.seqLen + 1, count))
  {
    ghost var p := view.pos;
    MapsNothing(view.ix, p.emitted);
    for i := 0 to count
      invariant view.Valid() && view.spanSink.Some? && view.refSink == None
      invariant view.payloadReads == old(view.payloadReads)
      invariant view.pos == After(view.ix, p, view.train.seqLen + 1, i)
      invariant Maps(view.ix, view.spanSink.value, p.emitted, Windows(view.ix, p, view.train.seqLen + 1, i))
    {
      WalkWindow(view, p, i);
    }
  }

  /** The fragments of all the windows of one step, reading no payload. */
  method WalkStep(view: ShardedWindowView, c: Cursor) returns (plan: StepPlan, spans: seq<Span>)
    requires view.Valid() && view.spanSink == Some([]) && view.refSink == None
    modifies view
    ensures view.Valid() && view.spanSink == Some([]) && view.refSink == None
    ensures view.pos == PosAfterStep(view.ix, view.train, old(view.pos), c)
    ensures view.payloadReads == old(view.payloadReads)
    ensures plan == PlanOf(view.train, c)
    ensures StepMapped(view.ix, view.train, old(view.pos), c, spans)
  {
    plan := PlanOf(view.train, c);
    WalkWindows(view, plan.microbatches * view.train.mb);
    spans := view.spanSink.value;
    view.spanSink := Some([]);
  }

  /** The fragments of a step are the document cells of its windows. */
  ghost predicate StepMapped(ix: Index, t: Train, p: Pos, c: Cursor, spans: seq<Span>)
    requires PosOk(ix, p) && t.Valid()
  {
    Maps(ix, spans, p.emitted, Windows(ix, p, t.seqLen + 1, StepSize(t, c)))
  }

  /** The i-th step from cursor c: its plan and its fragments. */
  ghost predicate StepWalked(ix: Index, t: Train, p: Pos, c: Cursor, i: nat, step: (StepPlan, seq<Span>))
    requires PosOk(ix, p) && t.Valid()
  {
    && step.0 == PlanOf(t, CursorAt(t, c, i))
    && StepMapped(ix, t, PosAfterSteps(ix, t, p, c, i), CursorAt(t, c, i), step.1)
  }

  /** A walk lists, step by step, the plan and the fragments of the steps from cursor c on. */
  ghost predicate Walked(ix: Index, t: Train, p: Pos, c: Cursor, steps: seq<(StepPlan, seq<Span>)>)
    requires PosOk(ix, p) && t.Valid()
  {
    forall i :: 0 <= i < |steps| ==> StepWalked(ix, t, p, c, i, steps[i])
  }

  /** Whether the buffer holds resumed literal tokens. */
  predicate HasCarryOver(segs: seq<Seg>) {
    exists i :: 0 <= i < |segs| && segs[i].LitSeg?
  }

  lemma {:induction false} NoCarryOverNoLit(segs: seq<Seg>)
    requires !HasCarryOver(segs)
    ensures NoLit(SegCells(segs))
  {
    if segs == [] {
    } else {
      assert !segs[0].LitSeg?;
      forall i | 0 <= i < |segs[1..]| ensures !segs[1..][i].LitSeg? {
        assert segs[1..][i] == segs[i + 1];
      }
      NoCarryOverNoLit(segs[1..]);
    }
  }

  lemma WalkedAt(ix: Index, t: Train, p: Pos, c: Cursor, steps: seq<(StepPlan, seq<Span>)>, i: nat)
    requires PosOk(ix, p) && t.Valid() && Walked(ix, t, p, c, steps) && i < |steps|
    ensures StepWalked(ix, t, p, c, i, steps[i])
  {}

  lemma WalkedSnoc(
    ix: Index, t: Train, p: Pos, c: Cursor, steps: seq<(StepPlan, seq<Span>)>, step: (StepPlan, seq<Span>))
    requires PosOk(ix, p) && t.Valid() && Walked(ix, t, p, c, steps) && StepWalked(ix, t, p, c, |steps|, step)
    ensures Walked(ix, t, p, c, steps + [step])
  {}

  /** Step i of a walk. */
  method WalkStepAt(view: ShardedWindowView, ghost p: Pos, ghost c: Cursor, ghost i: nat, cursor: Cursor)
    returns (step: (StepPlan, seq<Span>))
    requires view.Valid() && view.spanSink == Some([]) && view.refSink == None && PosOk(view.ix, p)
    requires cursor == CursorAt(view.train, c, i) && view.pos == PosAfterSteps(view.ix, view.train, p, c, i)
    modifies view
    ensures view.Valid() && view.spanSink == Some([]) && view.refSink == None
    ensures view.payloadReads == old(view.payloadReads)
    ensures view.pos == PosAfterSteps(view.ix, view.train, p, c, i + 1)
    ensures StepWalked(view.ix, view.train, p, c, i, step)
  {
    StepEnds(view.ix, view.train, p, c, i);
    var plan, spans := WalkStep(view, cursor);
    step := (plan, spans);
  }

  /** The loop of `walk_step_spans` over k steps. */
  method WalkSteps(view: ShardedWindowView, c: Cursor, k: nat) returns (steps: seq<(StepPlan, seq<Span>)>)
    requires view.Valid() && view.spanSink == Some([]) && view.refSink == None
    modifies view
    ensures view.Valid() && view.spanSink == Some([]) && view.refSink == None
    ensures view.payloadReads == old(view.payloadReads)
    ensures view.pos == PosAfterSteps(view.ix, view.train, old(view.pos), c, k) && |steps| == k
    ensures Walked(view.ix, view.train, old(view.pos), c, steps)
  {
    ghost var p := view.pos;
    var cursor := c;
    steps := [];
    for i := 0 to k
      invariant view.Valid() && view.spanSink == Some([]) && view.refSink == None
      invariant view.payloadReads == old(view.payloadReads)
      invariant |steps| == i && cursor == CursorAt(view.train, c, i)
      invariant view.pos == PosAfterSteps(view.ix, view.train, p, c, i)
      invariant Walked(view.ix, view.train, p, c, steps)
    {
      var step := WalkStepAt(view, p, c, i, cursor);
      WalkedSnoc(view.ix, view.train, p, c, steps, step);
      steps := steps + [step];
      cursor := Advance(view.train, cursor);
    }
  }

  /**
   `walk_step_spans` over k steps. A view that is being walked, or that holds carry-over, is refused
   and left alone; otherwise every fragment of every step is listed and no payload is read.
  */
  method WalkStepSpans(view: ShardedWindowView, c: Cursor, k: nat)
    returns (r: Outcome<seq<(StepPlan, seq<Span>)>>)
    requires view.Valid()
    modifies view
    ensures view.Valid() && view.payloadReads == old(view.payloadReads)
    ensures r.Ok? <==> old(view.spanSink.None? && view.refSink.None? && !HasCarryOver(view.segs))
    ensures r.Failure? ==> view.pos == old(view.pos) && view.segs == old(view.segs)
    ensures r.Ok? ==>
              && view.pos == PosAfterSteps(view.ix, view.train, old(view.pos), c, k) && |r.value| == k
              && Walked(view.ix, view.train, old(view.pos), c, r.value) && NoLit(old(view.pos.cells))
  {
    if view.spanSink.Some? || view.refSink.Some? {
      return Failure("view is already being walked");
    }
    if HasCarryOver(view.segs) {
      return Failure("cannot attribute resumed carry-over tokens");
    }
    NoCarryOverNoLit(view.segs);
    view.spanSink := Some([]);
    var steps := WalkSteps(view, c, k);
    view.spanSink := None;
    return Ok(steps);
  }

  // ----- rows -----------------------------------------------------------------------------------

  datatype Row = Row(
    step: nat, window: nat, microbatch: nat, slot: nat, frag: nat, dpRank: nat,
    src: nat, ref: Ref, from: nat, to: nat)

  /** The fragment number of span i within its window. */
  function FragOf(spans: seq<Span>, i: nat): nat
    requires i < |spans|
  {
    |SpansOf(spans[..i], spans[i].window)|
  }

  /** The running fragment counter: it restarts at a new window. */
  ghost predicate Counting(spans: seq<Span>, i: nat, prev: Option<nat>, frag: nat)
    requires i <= |spans|
  {
    && (i == 0 <==> prev.None?)
    && (i > 0 ==> prev == Some(spans[i - 1].window))
    && (Ordered(spans) && prev.Some? ==> frag == |SpansOf(spans[..i], prev.value)|)
  }

  lemma NextFrag(spans: seq<Span>, i: nat, prev: Option<nat>, frag: nat, now: nat)
    requires i < |spans| && Counting(spans, i, prev, frag)
    requires now == if prev != Some(spans[i].window) then 0 else frag
    ensures Ordered(spans) ==> now == FragOf(spans, i)
    ensures Counting(spans, i + 1, Some(spans[i].window), now + 1)
  {
    assert spans[..i + 1][..i] == spans[..i];
    if Ordered(spans) && prev != Some(spans[i].window) {
      NoneOf(spans[..i], spans[i].window);
    }
  }

  ghost predicate InStep(plan: StepPlan, spans: seq<Span>, mb: nat) {
    forall i :: 0 <= i < |spans| ==> InPlan(plan, spans[i], mb)
  }

  ghost predicate InPlan(plan: StepPlan, s: Span, mb: nat) {
    plan.baseWindow <= s.window < plan.baseWindow + plan.microbatches * mb
  }

  /** One fragment's row. */
  method MakeRow(plan: StepPlan, s: Span, mb: nat, ws: nat, frag: nat) returns (r: Outcome<Row>)
    requires mb > 0 && ws > 0
    ensures r.Ok? <==> InPlan(plan, s, mb)
    ensures r.Ok? ==> Placed(plan, s, mb, ws, r.value) && r.value.frag == frag
  {
    var at := WindowPosition(s.window, plan, mb);
    if at.Failure? {
      return Failure(at.reason);
    }
    var (microbatch, slot) := at.value;
    PositionIsExact(s.window, plan, mb, microbatch, slot);
    return Ok(Row(plan.step, s.window, microbatch, slot, frag, OwnerRank(microbatch, ws), s.src, s.ref, s.from, s.to));
  }

  /** `step_rows`: one row per fragment, or the error of `window_position`. */
  method StepRows(plan: StepPlan, spans: seq<Span>, mb: nat, ws: nat) returns (r: Outcome<seq<Row>>)
    requires mb > 0 && ws > 0
    ensures r.Ok? <==> InStep(plan, spans, mb)
    ensures r.Ok? ==> |r.value| == |spans|
    ensures r.Ok? ==> forall i :: 0 <= i < |spans| ==> Placed(plan, spans[i], mb, ws, r.value[i])
    ensures r.Ok? && Ordered(spans) ==> forall i :: 0 <= i < |spans| ==> r.value[i].frag == FragOf(spans, i)
  {
    hide Placed, FragOf, InPlan;
    var rows: seq<Row> := [];
    var frag: nat := 0;
    var prev: Option<nat> := None;
    for i := 0 to |spans|
      invariant |rows| == i && Counting(spans, i, prev, frag)
      invariant forall j :: 0 <= j < i ==> InPlan(plan, spans[j], mb)
      invariant forall j :: 0 <= j < i ==> Placed(plan, spans[j], mb, ws, rows[j])
      invariant Ordered(spans) ==> forall j :: 0 <= j < i ==> rows[j].frag == FragOf(spans, j)
    {
      ghost var prev0, frag0 := prev, frag;
      if prev != Some(spans[i].window) {
        frag := 0;
        prev := Some(spans[i].window);
      }
      NextFrag(spans, i, prev0, frag0, frag);
      var row := MakeRow(plan, spans[i], mb, ws, frag);
      if row.Failure? {
        return Failure(row.reason);
      }
      rows := rows + [row.value];
      frag := frag + 1;
    }
    r := Ok(rows);
  }

  /** The row names its fragment, and its grid cell is the one the fragment's window has in the step. */
  ghost predicate Placed(plan: StepPlan, s: Span, mb: nat, ws: nat, r: Row) {
    && r.step == plan.step && r.window == s.window
    && r.src == s.src && r.ref == s.ref && r.from == s.from && r.to == s.to
    && r.microbatch < plan.microbatches && r.slot < mb
    && s.window == plan.baseWindow + r.microbatch * mb + r.slot
    && r.dpRank == OwnerRank(r.microbatch, ws)
  }

  /**
   The map is right about where a fragment trains: in the micro-batches that rank `dpRank` takes
   from the step, row `slot` of number microbatch / ws is the fragment's window.
  */
  lemma PlacedWhereItTrains(
    plan: StepPlan, mb: nat, ws: nat, windows: seq<seq<int>>, s: Span, r: Row, mine: seq<seq<seq<int>>>)
    requires mb > 0 && ws > 0 && |windows| == plan.microbatches * mb && Placed(plan, s, mb, ws, r)
    requires mine == RankBatches(windows, plan.microbatches, mb, ws, r.dpRank)
    ensures r.microbatch / ws < |mine| && r.slot < |mine[r.microbatch / ws]|
    ensures r.window - plan.baseWindow < |windows|
    ensures mine[r.microbatch / ws][r.slot] == windows[r.window - plan.baseWindow]
  {
    var j := r.microbatch * mb + r.slot;
    DealtToOwner(windows, plan.microbatches, mb, ws, r.microbatch, r.slot);
    assert r.window - plan.baseWindow == j;
  }

  /**
   A mapped window without resumed literals is accounted for to the last token; by `WindowFacts` no
   window of a stream without carry-over has any, and each has the window length.
  */
  lemma MappedWindowLength(ix: Index, spans: seq<Span>, base: nat, wins: seq<seq<Cell>>, j: nat)
    requires Maps(ix, spans, base, wins) && j < |wins| && NoLit(wins[j])
    ensures SpanTotal(SpansOf(spans, base + j)) + SepCount(wins[j]) == |wins[j]|
  {
    hide *;
    MapsLists(ix, spans, base, wins, j);
    ListedLength(ix, spans, base + j, wins[j]);
  }

  lemma ListedLength(ix: Index, spans: seq<Span>, window: nat, cells: seq<Cell>)
    requires Lists(ix, spans, window, cells) && NoLit(cells)
    ensures SpanTotal(SpansOf(spans, window)) + SepCount(cells) == |cells|
  {
    WindowLength(ix, SpansOf(spans, window), window, cells);
  }

  /** The cells of whole documents, without separators. */
  function DocsOf(ix: Index, docs: seq<(nat, Ref)>): seq<Cell>
    requires forall i :: 0 <= i < |docs| ==> docs[i].0 < |ix.sources|
  {
    if docs == [] then []
    else DocCells(docs[0].0, docs[0].1, 0, ix.sources[docs[0].0].Length(docs[0].1)) + DocsOf(ix, docs[1..])
  }

  lemma {:induction false} DocOnlyWhole(ix: Index, docs: seq<(nat, Ref)>)
    requires forall i :: 0 <= i < |docs| ==> docs[i].0 < |ix.sources|
    ensures DocOnly(WholeDocs(ix, docs)) == DocsOf(ix, docs)
  {
    if docs == [] {
    } else {
      var cells := DocCells(docs[0].0, docs[0].1, 0, ix.sources[docs[0].0].Length(docs[0].1));
      DocOnlyWhole(ix, docs[1..]);
      DocOnlyAppend(cells + [Sep], WholeDocs(ix, docs[1..]));
      DocOnlyAppend(cells, [Sep]);
      DocOnlyAll(cells);
      DocOnlyNone([Sep]);
      assert cells + [] == cells;
    }
  }

  /**
   The fragments of a step tile the documents it consumes: laid end to end, and followed by what is
   still buffered, they are what was buffered and then every drawn document from its first token to
   its last, in order, with no gap and no overlap.
  */
  lemma FragmentsTileDocuments(ix: Index, t: Train, p: Pos, c: Cursor, spans: seq<Span>)
    requires PosOk(ix, p) && t.Valid() && StepMapped(ix, t, p, c, spans)
    ensures SpanCells(spans) + DocOnly(PosAfterStep(ix, t, p, c).cells)
         == DocOnly(p.cells) + DocsOf(ix, StreamDocs(ix, p, t.seqLen + 1, StepSize(t, c)))
  {
    var n, k := t.seqLen + 1, StepSize(t, c);
    StreamTiles(ix, p, n, k);
    DocOnlyAppend(Flat(Windows(ix, p, n, k)), After(ix, p, n, k).cells);
    DocOnlyAppend(p.cells, WholeDocs(ix, StreamDocs(ix, p, n, k)));
    DocOnlyWhole(ix, StreamDocs(ix, p, n, k));
  }

  lemma {:induction false} InSpansOf(spans: seq<Span>, i: nat)
    requires i < |spans|
    ensures spans[i] in SpansOf(spans, spans[i].window)
  {
    if i >= |spans| - 1 {
    } else {
      InSpansOf(spans[..|spans| - 1], i);
    }
  }

  // ----- the whole walk ---------------------------------------------------------------------------

  /** The documents drawn over k steps, in order. */
  function WalkDocs(ix: Index, t: Train, p: Pos, c: Cursor, k: nat): (d: seq<(nat, Ref)>)
    requires PosOk(ix, p) && t.Valid()
    ensures forall i :: 0 <= i < |d| ==> d[i].0 < |ix.sources|
  {
    if k == 0 then []
    else
      WalkDocs(ix, t, p, c, k - 1)
      + StreamDocs(ix, PosAfterSteps(ix, t, p, c, k - 1), t.seqLen + 1, StepSize(t, CursorAt(t, c, k - 1)))
  }

  /** All fragments of a walk, in stream order. */
  function AllSpans(steps: seq<(StepPlan, seq<Span>)>): seq<Span> {
    if steps == [] then [] else AllSpans(steps[..|steps| - 1]) + steps[|steps| - 1].1
  }

  lemma {:induction false} DocsOfAppend(ix: Index, a: seq<(nat, Ref)>, b: seq<(nat, Ref)>)
    requires forall i :: 0 <= i < |a| ==> a[i].0 < |ix.sources|
    requires forall i :: 0 <= i < |b| ==> b[i].0 < |ix.sources|
    ensures forall i :: 0 <= i < |a + b| ==> (a + b)[i].0 < |ix.sources|
    ensures DocsOf(ix, a + b) == DocsOf(ix, a) + DocsOf(ix, b)
  {
    if a == [] {
      assert a + b == b;
    } else {
      DocsOfAppend(ix, a[1..], b);
      assert (a + b)[1..] == a[1..] + b;
      Assoc(DocCells(a[0].0, a[0].1, 0, ix.sources[a[0].0].Length(a[0].1)), DocsOf(ix, a[1..]), DocsOf(ix, b));
    }
  }

  /**
   The fragments of a whole walk tile the documents it consumes, from the first step to the last: a
   document cut at the end of one step goes on in the next where it was cut.
  */
  lemma {:induction false} WalkTilesDocuments(
    ix: Index, t: Train, p: Pos, c: Cursor, steps: seq<(StepPlan, seq<Span>)>)
    requires PosOk(ix, p) && t.Valid() && Walked(ix, t, p, c, steps)
    ensures SpanCells(AllSpans(steps)) + DocOnly(PosAfterSteps(ix, t, p, c, |steps|).cells)
         == DocOnly(p.cells) + DocsOf(ix, WalkDocs(ix, t, p, c, |steps|))
    decreases |steps|
  {
    hide *;
    var k := |steps|;
    if k == 0 {
      NothingWalked(ix, t, p, c);
    } else {
      WalkedPrefix(ix, t, p, c, steps);
      WalkTilesDocuments(ix, t, p, c, steps[..k - 1]);
      WalkTilesStep(ix, t, p, c, steps);
    }
  }

  lemma NothingWalked(ix: Index, t: Train, p: Pos, c: Cursor)
    requires PosOk(ix, p) && t.Valid()
    ensures SpanCells(AllSpans([])) + DocOnly(PosAfterSteps(ix, t, p, c, 0).cells)
         == DocOnly(p.cells) + DocsOf(ix, WalkDocs(ix, t, p, c, 0))
  {}

  lemma WalkedPrefix(ix: Index, t: Train, p: Pos, c: Cursor, steps: seq<(StepPlan, seq<Span>)>)
    requires PosOk(ix, p) && t.Valid() && Walked(ix, t, p, c, steps) && steps != []
    ensures Walked(ix, t, p, c, steps[..|steps| - 1])
    ensures StepWalked(ix, t, p, c, |steps| - 1, steps[|steps| - 1])
  {}

  lemma WalkTilesStep(ix: Index, t: Train, p: Pos, c: Cursor, steps: seq<(StepPlan, seq<Span>)>)
    requires PosOk(ix, p) && t.Valid() && steps != []
    requires StepWalked(ix, t, p, c, |steps| - 1, steps[|steps| - 1])
    requires SpanCells(AllSpans(steps[..|steps| - 1])) + DocOnly(PosAfterSteps(ix, t, p, c, |steps| - 1).cells)
          == DocOnly(p.cells) + DocsOf(ix, WalkDocs(ix, t, p, c, |steps| - 1))
    ensures SpanCells(AllSpans(steps)) + DocOnly(PosAfterSteps(ix, t, p, c, |steps|).cells)
         == DocOnly(p.cells) + DocsOf(ix, WalkDocs(ix, t, p, c, |steps|))
  {
    hide *;
    var i: nat := |steps| - 1;
    var q, e := PosAfterSteps(ix, t, p, c, i), CursorAt(t, c, i);
    var before, docs := WalkDocs(ix, t, p, c, i), StreamDocs(ix, q, t.seqLen + 1, StepSize(t, e));
    AllSpansLast(steps);
    WalkDocsLast(ix, t, p, c, i);
    StepWalkedMaps(ix, t, p, c, i, steps[i]);
    StepEnds(ix, t, p, c, i);
    FragmentsTileDocuments(ix, t, q, e, steps[i].1);
    SpanCellsAppend(AllSpans(steps[..i]), steps[i].1);
    DocsOfAppend(ix, before, docs);
    TileStep(SpanCells(AllSpans(steps[..i])), SpanCells(steps[i].1), DocOnly(PosAfterStep(ix, t, q, e).cells),
             DocOnly(q.cells), DocsOf(ix, docs), DocOnly(p.cells), DocsOf(ix, before));
  }

  lemma AllSpansLast(steps: seq<(StepPlan, seq<Span>)>)
    requires steps != []
    ensures AllSpans(steps) == AllSpans(steps[..|steps| - 1]) + steps[|steps| - 1].1
  {}

  lemma WalkDocsLast(ix: Index, t: Train, p: Pos, c: Cursor, i: nat)
    requires PosOk(ix, p) && t.Valid()
    ensures WalkDocs(ix, t, p, c, i + 1) == WalkDocs(ix, t, p, c, i)
              + StreamDocs(ix, PosAfterSteps(ix, t, p, c, i), t.seqLen + 1, StepSize(t, CursorAt(t, c, i)))
  {}

  lemma StepWalkedMaps(ix: Index, t: Train, p: Pos, c: Cursor, i: nat, step: (StepPlan, seq<Span>))
    requires PosOk(ix, p) && t.Valid() && StepWalked(ix, t, p, c, i, step)
    ensures step.0 == PlanOf(t, CursorAt(t, c, i))
    ensures StepMapped(ix, t, PosAfterSteps(ix, t, p, c, i), CursorAt(t, c, i), step.1)
  {}

  // ----- where the rows' tokens train -------------------------------------------------------------

  /** From offset o on, the window in this grid cell of the rank's batches holds the row's tokens. */
  ghost predicate TrainsAt(batches: seq<seq<seq<int>>>, r: Row, ws: nat, doc: seq<int>, o: nat)
    requires ws > 0
  {
    && r.microbatch / ws < |batches| && r.slot < |batches[r.microbatch / ws]|
    && r.from <= r.to <= |doc|
    && o + (r.to - r.from) <= |batches[r.microbatch / ws][r.slot]|
    && batches[r.microbatch / ws][r.slot][o..o + (r.to - r.from)] == doc[r.from..r.to]
  }

  ghost predicate Trains(batches: seq<seq<seq<int>>>, r: Row, ws: nat, doc: seq<int>)
    requires ws > 0
  {
    exists o: nat :: TrainsAt(batches, r, ws, doc, o)
  }

  /** In step i of the run, rank `dpRank` trains the row's tokens where the row says. */
  ghost predicate RowTrains(
    ix: Index, pay: Payload, t: Train, ws: nat, p: Pos, c: Cursor, k: nat, i: nat, r: Row)
    requires PosOk(ix, p) && t.Valid() && ws > 0 && i < k
  {
    r.dpRank < ws && Trains(RankSteps(ix, pay, t, ws, r.dpRank, p, c, k)[i], r, ws, pay.doc(r.src, r.ref))
  }

  /** Every listed fragment stands in its window. */
  lemma SpanInWindow(ix: Index, spans: seq<Span>, base: nat, wins: seq<seq<Cell>>, j: nat)
    requires Maps(ix, spans, base, wins) && j < |spans|
    ensures base <= spans[j].window < base + |wins|
    ensures Attributed(ix, spans[j], spans[j].window, wins[spans[j].window - base])
  {
    hide *;
    MapsRange(ix, spans, base, wins, j);
    InSpansOf(spans, j);
    MapsLists(ix, spans, base, wins, spans[j].window - base);
    ListedIsAttributed(ix, spans, spans[j].window, wins[spans[j].window - base], spans[j]);
  }

  lemma MapsRange(ix: Index, spans: seq<Span>, base: nat, wins: seq<seq<Cell>>, j: nat)
    requires Maps(ix, spans, base, wins) && j < |spans|
    ensures base <= spans[j].window < base + |wins|
  {}

  lemma ListedIsAttributed(ix: Index, spans: seq<Span>, window: nat, cells: seq<Cell>, s: Span)
    requires Lists(ix, spans, window, cells) && s in SpansOf(spans, window)
    ensures Attributed(ix, s, window, cells)
  {
    hide Attributed;
    var mine := SpansOf(spans, window);
    var i :| 0 <= i < |mine| && mine[i] == s;
    assert Attributed(ix, mine[i], window, cells);
  }

  /** What a fragment's cells read. */
  lemma FoundTokens(pay: Payload, s: Span, cells: seq<Cell>, o: nat)
    requires FoundAt(s, cells, o) && s.to <= |pay.doc(s.src, s.ref)|
    ensures pay.Tokens(cells)[o..o + (s.to - s.from)] == pay.doc(s.src, s.ref)[s.from..s.to]
  {
    var here, there := pay.Tokens(cells)[o..o + (s.to - s.from)], pay.doc(s.src, s.ref)[s.from..s.to];
    forall x | 0 <= x < |here| ensures here[x] == there[x] {
      assert cells[o..o + (s.to - s.from)][x] == Tok(s.src, s.ref, s.from + x);
    }
  }

  /** One step: the batches of the row's rank hold the row's tokens. */
  lemma RowTrainsInStep(
    ix: Index, pay: Payload, t: Train, ws: nat, p: Pos, c: Cursor, spans: seq<Span>, j: nat, r: Row)
    requires PosOk(ix, p) && Fits(ix, pay) && t.Valid() && ws > 0 && c.windows == p.emitted
    requires StepMapped(ix, t, p, c, spans) && j < |spans| && Placed(PlanOf(t, c), spans[j], t.mb, ws, r)
    ensures Trains(RankBatches(StepTokens(ix, pay, t, p, c), PlanOf(t, c).microbatches, t.mb, ws, r.dpRank),
                   r, ws, pay.doc(r.src, r.ref))
  {
    hide RankBatches, StepTokens, StepMapped, Trains, PlanOf, Placed;
    var s, plan := spans[j], PlanOf(t, c);
    var all := StepTokens(ix, pay, t, p, c);
    var mine := RankBatches(all, plan.microbatches, t.mb, ws, r.dpRank);
    PlacedWhereItTrains(plan, t.mb, ws, all, s, r, mine);
    var cells := FragmentStands(ix, pay, t, p, c, spans, j);
    PlacedNames(plan, s, t.mb, ws, r);
    WindowTrains(pay, mine, s, cells, ws, r);
  }

  lemma PlacedNames(plan: StepPlan, s: Span, mb: nat, ws: nat, r: Row)
    requires Placed(plan, s, mb, ws, r)
    ensures r.window == s.window && r.src == s.src && r.ref == s.ref && r.from == s.from && r.to == s.to
  {}

  /** The cells of the fragment's window, and where the step's tokens have them. */
  lemma FragmentStands(ix: Index, pay: Payload, t: Train, p: Pos, c: Cursor, spans: seq<Span>, j: nat)
    returns (cells: seq<Cell>)
    requires PosOk(ix, p) && Fits(ix, pay) && t.Valid() && c.windows == p.emitted
    requires StepMapped(ix, t, p, c, spans) && j < |spans|
    ensures spans[j].from <= spans[j].to <= |pay.doc(spans[j].src, spans[j].ref)| && FoundIn(spans[j], cells)
    ensures var base := PlanOf(t, c).baseWindow;
            0 <= spans[j].window - base < StepSize(t, c)
            && StepTokens(ix, pay, t, p, c)[spans[j].window - base] == pay.Tokens(cells)
  {
    hide Maps, Windows, FoundIn, Microbatches;
    var wins := Windows(ix, p, t.seqLen + 1, StepSize(t, c));
    SpanInWindow(ix, spans, p.emitted, wins, j);
    cells := wins[spans[j].window - p.emitted];
  }

  lemma WindowTrains(pay: Payload, batches: seq<seq<seq<int>>>, s: Span, cells: seq<Cell>, ws: nat, r: Row)
    requires ws > 0 && r.microbatch / ws < |batches| && r.slot < |batches[r.microbatch / ws]|
    requires r.src == s.src && r.ref == s.ref && r.from == s.from && r.to == s.to
    requires batches[r.microbatch / ws][r.slot] == pay.Tokens(cells)
    requires FoundIn(s, cells) && s.from <= s.to <= |pay.doc(s.src, s.ref)|
    ensures Trains(batches, r, ws, pay.doc(r.src, r.ref))
  {
    var o: nat :| FoundAt(s, cells, o);
    FoundTokens(pay, s, cells, o);
    assert TrainsAt(batches, r, ws, pay.doc(r.src, r.ref), o);
  }

  /**
   The map is right: every row of every step of a walk that started with agreeing window counters
   names the rank, micro-batch and slot where exactly those tokens of that document are trained.
  */
  lemma WalkedRowTrains(
    ix: Index, pay: Payload, t: Train, ws: nat, p: Pos, c: Cursor, k: nat, i: nat,
    step: (StepPlan, seq<Span>), j: nat, r: Row)
    requires PosOk(ix, p) && Fits(ix, pay) && t.Valid() && ws > 0 && c.windows == p.emitted && i < k
    requires StepWalked(ix, t, p, c, i, step) && j < |step.1| && Placed(step.0, step.1[j], t.mb, ws, r)
    ensures RowTrains(ix, pay, t, ws, p, c, k, i, r)
  {
    StepWalkedMaps(ix, t, p, c, i, step);
    CountersAgree(ix, t, p, c, i);
    RowTrainsInStep(ix, pay, t, ws, PosAfterSteps(ix, t, p, c, i), CursorAt(t, c, i), step.1, j, r);
    RankStepAt(ix, pay, t, ws, r.dpRank, p, c, k, i);
    assert r.dpRank < ws;
  }

  /** No fragment of a walked step lies outside its plan, so `window_position` never refuses. */
  lemma WalkedInStep(ix: Index, t: Train, p: Pos, c: Cursor, i: nat, step: (StepPlan, seq<Span>))
    requires PosOk(ix, p) && t.Valid() && c.windows == p.emitted && StepWalked(ix, t, p, c, i, step)
    ensures InStep(step.0, step.1, t.mb) && Ordered(step.1)
  {
    CountersAgree(ix, t, p, c, i);
  }

  /** The fragments the rows name. */
  function RowSpans(rows: seq<Row>): (s: seq<Span>)
    ensures |s| == |rows|
  {
    seq(|rows|, i requires 0 <= i < |rows| =>
      Span(rows[i].window, rows[i].src, rows[i].ref, rows[i].from, rows[i].to))
  }

  /** The rows of a step are those of the walked step. */
  ghost predicate RowsOfStep(t: Train, ws: nat, step: (StepPlan, seq<Span>), rows: (StepPlan, seq<Row>))
    requires ws > 0
  {
    && rows.0 == step.0 && |rows.1| == |step.1|
    && forall j :: 0 <= j < |step.1| ==>
         Placed(step.0, step.1[j], t.mb, ws, rows.1[j]) && rows.1[j].frag == FragOf(step.1, j)
  }

  /** The rows of a window are numbered 0, 1, 2 and so on in their order. */
  ghost predicate Numbered(rows: seq<Row>) {
    forall j :: 0 <= j < |rows| ==>
      rows[j].frag == if j > 0 && rows[j - 1].window == rows[j].window then rows[j - 1].frag + 1 else 0
  }

  /** The counter that restarts at a new window counts the fragments of the window. */
  lemma FragNext(spans: seq<Span>, j: nat)
    requires j < |spans| && Ordered(spans)
    ensures FragOf(spans, j)
         == if j > 0 && spans[j - 1].window == spans[j].window then FragOf(spans, j - 1) + 1 else 0
  {
    if j > 0 {
      assert spans[..j][..j - 1] == spans[..j - 1];
      if spans[j - 1].window != spans[j].window {
        NoneOf(spans[..j], spans[j].window);
      }
    }
  }

  /** All rows carry this step number. */
  ghost predicate OfStep(rows: seq<Row>, step: nat) {
    forall j :: 0 <= j < |rows| ==> rows[j].step == step
  }

  /** Step i's rows: the step's number and plan, numbered fragments, each where its tokens train. */
  ghost predicate StepTrains(
    ix: Index, pay: Payload, t: Train, ws: nat, p: Pos, c: Cursor, k: nat, i: nat, rows: (StepPlan, seq<Row>))
    requires PosOk(ix, p) && t.Valid() && ws > 0 && i < k
  {
    && rows.0 == PlanOf(t, CursorAt(t, c, i)) && OfStep(rows.1, c.step + i) && Numbered(rows.1)
    && forall j :: 0 <= j < |rows.1| ==> RowTrains(ix, pay, t, ws, p, c, k, i, rows.1[j])
  }

  lemma RowsTrain(
    ix: Index, pay: Payload, t: Train, ws: nat, p: Pos, c: Cursor, k: nat, i: nat,
    step: (StepPlan, seq<Span>), rows: (StepPlan, seq<Row>))
    requires PosOk(ix, p) && Fits(ix, pay) && t.Valid() && ws > 0 && c.windows == p.emitted && i < k
    requires StepWalked(ix, t, p, c, i, step) && RowsOfStep(t, ws, step, rows)
    ensures StepTrains(ix, pay, t, ws, p, c, k, i, rows) && RowSpans(rows.1) == step.1
  {
    hide *;
    WalkedInStep(ix, t, p, c, i, step);
    RowsNamed(t, ws, step, rows);
    StepWalkedMaps(ix, t, p, c, i, step);
    RowsOfCursor(t, ws, c, i, step, rows);
    forall j | 0 <= j < |rows.1| ensures RowTrains(ix, pay, t, ws, p, c, k, i, rows.1[j]) {
      RowPlaced(t, ws, step, rows, j);
      WalkedRowTrains(ix, pay, t, ws, p, c, k, i, step, j, rows.1[j]);
    }
    NowStepTrains(ix, pay, t, ws, p, c, k, i, rows);
  }

  lemma RowsNamed(t: Train, ws: nat, step: (StepPlan, seq<Span>), rows: (StepPlan, seq<Row>))
    requires ws > 0 && RowsOfStep(t, ws, step, rows) && Ordered(step.1)
    ensures rows.0 == step.0 && |rows.1| == |step.1| && RowSpans(rows.1) == step.1 && Numbered(rows.1)
  {
    hide FragOf, Ordered;
    assert forall j :: 0 <= j < |rows.1| ==> RowSpans(rows.1)[j] == step.1[j];
    forall j | 0 <= j < |rows.1|
      ensures rows.1[j].frag == if j > 0 && rows.1[j - 1].window == rows.1[j].window then rows.1[j - 1].frag + 1 else 0
    {
      FragNext(step.1, j);
    }
  }

  lemma RowsOfCursor(
    t: Train, ws: nat, c: Cursor, i: nat, step: (StepPlan, seq<Span>), rows: (StepPlan, seq<Row>))
    requires t.Valid() && ws > 0 && RowsOfStep(t, ws, step, rows) && step.0 == PlanOf(t, CursorAt(t, c, i))
    ensures OfStep(rows.1, c.step + i)
  {
    hide CursorAt, FragOf;
    StepAccounts(t, c, i);
  }

  lemma RowPlaced(t: Train, ws: nat, step: (StepPlan, seq<Span>), rows: (StepPlan, seq<Row>), j: nat)
    requires ws > 0 && RowsOfStep(t, ws, step, rows) && j < |rows.1|
    ensures j < |step.1| && Placed(step.0, step.1[j], t.mb, ws, rows.1[j])
  {}

  lemma NowStepTrains(
    ix: Index, pay: Payload, t: Train, ws: nat, p: Pos, c: Cursor, k: nat, i: nat, rows: (StepPlan, seq<Row>))
    requires PosOk(ix, p) && t.Valid() && ws > 0 && i < k
    requires rows.0 == PlanOf(t, CursorAt(t, c, i)) && OfStep(rows.1, c.step + i) && Numbered(rows.1)
    requires forall j :: 0 <= j < |rows.1| ==> RowTrains(ix, pay, t, ws, p, c, k, i, rows.1[j])
    ensures StepTrains(ix, pay, t, ws, p, c, k, i, rows)
  {
    hide RowTrains, PlanOf, CursorAt, PosOk, Numbered, OfStep;
  }

  /** The rows of this window are its document cells, in order. */
  ghost predicate WindowCovered(ix: Index, t: Train, p: Pos, c: Cursor, rows: seq<Row>, w: nat)
    requires PosOk(ix, p) && t.Valid() && w < StepSize(t, c)
  {
    SpanCells(SpansOf(RowSpans(rows), c.windows + w)) == DocOnly(Windows(ix, p, t.seqLen + 1, StepSize(t, c))[w])
  }

  /** Step i's rows cover every window of the step. */
  ghost predicate StepCovers(ix: Index, t: Train, p: Pos, c: Cursor, i: nat, rows: (StepPlan, seq<Row>))
    requires PosOk(ix, p) && t.Valid()
  {
    var q, e := PosAfterSteps(ix, t, p, c, i), CursorAt(t, c, i);
    forall w :: 0 <= w < StepSize(t, e) ==> WindowCovered(ix, t, q, e, rows.1, w)
  }

  /** The document tokens of each window are the tokens its rows name, all of them and in order. */
  lemma RowsCoverWindow(
    ix: Index, t: Train, ws: nat, p: Pos, c: Cursor, i: nat, step: (StepPlan, seq<Span>), rows: (StepPlan, seq<Row>))
    requires PosOk(ix, p) && t.Valid() && ws > 0 && c.windows == p.emitted
    requires StepWalked(ix, t, p, c, i, step) && RowSpans(rows.1) == step.1
    ensures StepCovers(ix, t, p, c, i, rows)
  {
    hide Windows, Maps, SpansOf, Attributed, PlanOf;
    var q, e := PosAfterSteps(ix, t, p, c, i), CursorAt(t, c, i);
    CountersAgree(ix, t, p, c, i);
    var wins := Windows(ix, q, t.seqLen + 1, StepSize(t, e));
    forall w | 0 <= w < StepSize(t, e) ensures WindowCovered(ix, t, q, e, rows.1, w) {
      MapsLists(ix, step.1, q.emitted, wins, w);
    }
  }

  function AllRows(steps: seq<(StepPlan, seq<Row>)>): seq<Row> {
    if steps == [] then [] else AllRows(steps[..|steps| - 1]) + steps[|steps| - 1].1
  }

  lemma {:induction false} AllRowSpans(walked: seq<(StepPlan, seq<Span>)>, steps: seq<(StepPlan, seq<Row>)>)
    requires |walked| == |steps|
    requires forall i :: 0 <= i < |steps| ==> RowSpans(steps[i].1) == walked[i].1
    ensures RowSpans(AllRows(steps)) == AllSpans(walked)
  {
    if steps == [] {
    } else {
      var n := |steps| - 1;
      AllRowSpans(walked[..n], steps[..n]);
      assert RowSpans(AllRows(steps[..n]) + steps[n].1) == RowSpans(AllRows(steps[..n])) + RowSpans(steps[n].1);
    }
  }

  /** The rows of one walked step. */
  method RowsFor(t: Train, ws: nat, ghost ix: Index, ghost p: Pos, ghost c: Cursor, ghost i: nat,
                 step: (StepPlan, seq<Span>)) returns (rows: (StepPlan, seq<Row>))
    requires PosOk(ix, p) && t.Valid() && ws > 0 && c.windows == p.emitted && StepWalked(ix, t, p, c, i, step)
    ensures RowsOfStep(t, ws, step, rows)
  {
    WalkedInStep(ix, t, p, c, i, step);
    var made := StepRows(step.0, step.1, t.mb, ws);
    rows := (step.0, made.value);
  }

  /**
   `iter_doc_map` up to a step. It refuses only as the walk does, never on a row, and reads no
   payload. Every row names the place where its tokens are trained, the rows of a window are all of
   its document tokens, and the fragments laid end to end, with what is still buffered behind them,
   are the consumed documents whole and in order.
  */
  method IterDocMap(view: ShardedWindowView, consumed: nat, startStep: nat, untilStep: int, ws: nat)
    returns (r: Outcome<seq<(StepPlan, seq<Row>)>>)
    requires view.Valid() && ws > 0
    modifies view
    ensures view.Valid() && view.payloadReads == old(view.payloadReads)
    ensures r.Ok? <==> old(view.spanSink.None? && view.refSink.None? && !HasCarryOver(view.segs))
    ensures r.Ok? ==>
              var p, c, k := old(view.pos), Cursor(consumed, old(view.emitted), startStep), |r.value|;
              && k == (if untilStep > startStep then untilStep - startStep else 0)
              && view.pos == PosAfterSteps(view.ix, view.train, p, c, k)
              && (forall i :: 0 <= i < k ==> StepTrains(view.ix, view.pay, view.train, ws, p, c, k, i, r.value[i]))
              && (forall i :: 0 <= i < k ==> StepCovers(view.ix, view.train, p, c, i, r.value[i]))
              && SpanCells(RowSpans(AllRows(r.value))) + DocOnly(view.pos.cells)
                   == DocOnly(p.cells) + DocsOf(view.ix, WalkDocs(view.ix, view.train, p, c, k))
  {
    var c := Cursor(consumed, view.emitted, startStep);
    var k: nat := if untilStep > startStep then untilStep - startStep else 0;
    ghost var p := view.pos;
    var walked := WalkStepSpans(view, c, k);
    if walked.Failure? {
      return Failure(walked.reason);
    }
    var steps := RowsOfWalk(view.train, ws, view.ix, view.pay, p, c, walked.value);
    AllRowSpans(walked.value, steps);
    WalkTilesDocuments(view.ix, view.train, p, c, walked.value);
    r := Ok(steps);
  }

  /** The loop over the walked steps. */
  method RowsOfWalk(t: Train, ws: nat, ghost ix: Index, ghost pay: Payload, ghost p: Pos, ghost c: Cursor,
                    walked: seq<(StepPlan, seq<Span>)>) returns (steps: seq<(StepPlan, seq<Row>)>)
    requires PosOk(ix, p) && Fits(ix, pay) && t.Valid() && ws > 0 && c.windows == p.emitted
    requires Walked(ix, t, p, c, walked)
    ensures |steps| == |walked|
    ensures forall i :: 0 <= i < |steps| ==> StepTrains(ix, pay, t, ws, p, c, |steps|, i, steps[i])
    ensures forall i :: 0 <= i < |steps| ==> StepCovers(ix, t, p, c, i, steps[i])
    ensures forall i :: 0 <= i < |steps| ==> RowSpans(steps[i].1) == walked[i].1
  {
    hide *;
    steps := [];
    for i := 0 to |walked|
      invariant |steps| == i
      invariant forall j :: 0 <= j < i ==> StepTrains(ix, pay, t, ws, p, c, |walked|, j, steps[j])
      invariant forall j :: 0 <= j < i ==> StepCovers(ix, t, p, c, j, steps[j])
      invariant forall j :: 0 <= j < i ==> RowSpans(steps[j].1) == walked[j].1
    {
      WalkedAt(ix, t, p, c, walked, i);
      var rows := RowsFor(t, ws, ix, p, c, i, walked[i]);
      RowsTrain(ix, pay, t, ws, p, c, |walked|, i, walked[i], rows);
      RowsCoverWindow(ix, t, ws, p, c, i, walked[i], rows);
      steps := steps + [rows];
    }
  }
}
