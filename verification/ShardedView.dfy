/**
 One rank's lazy view of the canonical stream: a list of segments walked by length, with payload
 reads only for the windows the rank owns.
*/
module ShardedView {
  import opened Arithmetic
  import opened Wrappers
  import opened SourceWalker
  import opened Sequences
  import opened StreamModel
  import opened BatchSchedule
  import opened StepStream

  /** `_DOC`, `_EOS` and `_LIT` segments. */
  datatype Seg = DocSeg(src: nat, ref: Ref, len: nat) | EosSeg | LitSeg(vals: seq<int>) {
    function Len(): nat {
      match this
      case DocSeg(_, _, len) => len
      case EosSeg => 1
      case LitSeg(vals) => |vals|
    }

    function Cells(): (c: seq<Cell>)
      ensures |c| == Len()
    {
      match this
      case DocSeg(src, ref, len) => DocCells(src, ref, 0, len)
      case EosSeg => [Sep]
      case LitSeg(vals) => seq(|vals|, i requires 0 <= i < |vals| => Lit(vals[i]))
    }
  }

  function SegCells(segs: seq<Seg>): seq<Cell> {
    if segs == [] then [] else segs[0].Cells() + SegCells(segs[1..])
  }

  lemma {:induction false} SegCellsAppend(a: seq<Seg>, b: seq<Seg>)
    ensures SegCells(a + b) == SegCells(a) + SegCells(b)
  {
    if a == [] {
      assert a + b == b;
    } else {
      SegCellsAppend(a[1..], b);
      assert (a + b)[1..] == a[1..] + b;
      Assoc(a[0].Cells(), SegCells(a[1..]), SegCells(b));
    }
  }

  /** A fragment of a document that landed in a window: tokens [from, to). */
  datatype Span = Span(window: nat, src: nat, ref: Ref, from: nat, to: nat)

  function SpanCells(spans: seq<Span>): seq<Cell> {
    if spans == [] then []
    else
      var s := spans[|spans| - 1];
      SpanCells(spans[..|spans| - 1]) + (if s.from <= s.to then DocCells(s.src, s.ref, s.from, s.to) else [])
  }

  /** The document cells among these. */
  function DocOnly(cells: seq<Cell>): seq<Cell> {
    if cells == [] then []
    else
      var c := cells[|cells| - 1];
      DocOnly(cells[..|cells| - 1]) + (if c.Tok? then [c] else [])
  }

  lemma {:induction false} DocOnlyAppend(a: seq<Cell>, b: seq<Cell>)
    ensures DocOnly(a + b) == DocOnly(a) + DocOnly(b)
  {
    if b == [] {
      assert a + b == a;
    } else {
      DocOnlyAppend(a, b[..|b| - 1]);
      assert (a + b)[..|a + b| - 1] == a + b[..|b| - 1];
    }
  }

  lemma {:induction false} DocOnlyAll(a: seq<Cell>)
    requires forall i :: 0 <= i < |a| ==> a[i].Tok?
    ensures DocOnly(a) == a
  {
    if a == [] {
    } else {
      DocOnlyAll(a[..|a| - 1]);
    }
  }

  lemma {:induction false} DocOnlyNone(a: seq<Cell>)
    requires forall i :: 0 <= i < |a| ==> !a[i].Tok?
    ensures DocOnly(a) == []
  {
    if a == [] {
    } else {
      DocOnlyNone(a[..|a| - 1]);
    }
  }

  lemma {:induction false} SpanCellsAppend(a: seq<Span>, b: seq<Span>)
    ensures SpanCells(a + b) == SpanCells(a) + SpanCells(b)
  {
    if b == [] {
      assert a + b == a;
    } else {
      var m := |b| - 1;
      SpanCellsAppend(a, b[..m]);
      assert (a + b)[..|a + b| - 1] == a + b[..m];
      var s := b[m];
      Assoc(SpanCells(a), SpanCells(b[..m]), if s.from <= s.to then DocCells(s.src, s.ref, s.from, s.to) else []);
    }
  }

  /** Document segments name documents of the index with their lengths. */
  ghost predicate SegsFit(ix: Index, segs: seq<Seg>) {
    forall i :: 0 <= i < |segs| && segs[i].DocSeg? ==>
      segs[i].src < |ix.sources| && segs[i].len == ix.sources[segs[i].src].Length(segs[i].ref)
  }

  /** The fragment's tokens stand at offset o of these cells. */
  ghost predicate FoundAt(s: Span, cells: seq<Cell>, o: nat) {
    s.from <= s.to && o + (s.to - s.from) <= |cells|
    && cells[o..o + (s.to - s.from)] == DocCells(s.src, s.ref, s.from, s.to)
  }

  ghost predicate FoundIn(s: Span, cells: seq<Cell>) {
    exists o: nat :: FoundAt(s, cells, o)
  }

  lemma FoundBefore(s: Span, x: seq<Cell>, y: seq<Cell>)
    requires FoundIn(s, x)
    ensures FoundIn(s, x + y)
  {
    var o: nat :| FoundAt(s, x, o);
    assert (x + y)[o..o + (s.to - s.from)] == x[o..o + (s.to - s.from)];
    assert FoundAt(s, x + y, o);
  }

  lemma FoundBehind(s: Span, x: seq<Cell>, y: seq<Cell>)
    requires FoundIn(s, y)
    ensures FoundIn(s, x + y)
  {
    var o: nat :| FoundAt(s, y, o);
    var o': nat := |x| + o;
    assert (x + y)[o'..o' + (s.to - s.from)] == y[o..o + (s.to - s.from)];
    assert FoundAt(s, x + y, o');
  }

  /** A fragment of this window, inside its document and among these cells. */
  ghost predicate Attributed(ix: Index, s: Span, window: nat, cells: seq<Cell>) {
    && s.window == window && s.src < |ix.sources|
    && s.from <= s.to <= ix.sources[s.src].Length(s.ref)
    && FoundIn(s, cells)
  }

  /** Spans of one window, inside their documents, covering exactly these document cells in order. */
  ghost predicate Attributes(ix: Index, spans: seq<Span>, window: nat, cells: seq<Cell>) {
    && (forall i :: 0 <= i < |spans| ==> Attributed(ix, spans[i], window, cells))
    && SpanCells(spans) == DocOnly(cells)
  }

  lemma AttributesAppend(ix: Index, a: seq<Span>, b: seq<Span>, window: nat, x: seq<Cell>, y: seq<Cell>)
    requires Attributes(ix, a, window, x) && Attributes(ix, b, window, y)
    ensures Attributes(ix, a + b, window, x + y)
  {
    forall i | 0 <= i < |a + b| ensures Attributed(ix, (a + b)[i], window, x + y) {
      if i < |a| {
        assert Attributed(ix, a[i], window, x);
        FoundBefore(a[i], x, y);
      } else {
        assert Attributed(ix, b[i - |a|], window, y);
        FoundBehind(b[i - |a|], x, y);
      }
    }
    SpanCellsAppend(a, b);
    DocOnlyAppend(x, y);
  }

  /** A span sink after some cells of a window went past it: off stays off, on grows by their fragments. */
  ghost predicate Noted(ix: Index, before: Option<seq<Span>>, after: Option<seq<Span>>, window: nat, cells: seq<Cell>) {
    match (before, after)
    case (None, None) => true
    case (Some(x), Some(y)) => |x| <= |y| && y[..|x|] == x && Attributes(ix, y[|x|..], window, cells)
    case _ => false
  }

  lemma NotedNothing(ix: Index, sink: Option<seq<Span>>, window: nat, cells: seq<Cell>)
    requires forall i :: 0 <= i < |cells| ==> !cells[i].Tok?
    ensures Noted(ix, sink, sink, window, cells)
  {
    DocOnlyNone(cells);
  }

  lemma NotedSpan(ix: Index, x: seq<Span>, s: Span, cells: seq<Cell>)
    requires s.src < |ix.sources| && s.from <= s.to <= ix.sources[s.src].Length(s.ref)
    requires cells == DocCells(s.src, s.ref, s.from, s.to)
    ensures Noted(ix, Some(x), Some(x + [s]), s.window, cells)
  {
    DocOnlyAll(cells);
    assert (x + [s])[|x|..] == [s] && [s][..0] == [];
    assert FoundAt(s, cells, 0);
  }

  lemma NotedAppend(
    ix: Index, a: Option<seq<Span>>, b: Option<seq<Span>>, c: Option<seq<Span>>, window: nat,
    x: seq<Cell>, y: seq<Cell>)
    requires Noted(ix, a, b, window, x) && Noted(ix, b, c, window, y)
    ensures Noted(ix, a, c, window, x + y)
  {
    if a.Some? {
      var n, m := |a.value|, |b.value|;
      AttributesAppend(ix, b.value[n..], c.value[m..], window, x, y);
      assert c.value[n..] == c.value[n..m] + c.value[m..];
      assert c.value[..m][n..] == c.value[n..m];
    }
  }

  /** The reference sink after some documents are refilled. */
  function Refilled(sink: Option<seq<(nat, Ref)>>, docs: seq<(nat, Ref)>): Option<seq<(nat, Ref)>> {
    if sink.Some? then Some(sink.value + docs) else None
  }

  lemma RefilledStep(sink: Option<seq<(nat, Ref)>>, d: (nat, Ref), docs: seq<(nat, Ref)>)
    ensures Refilled(sink, [d] + docs) ==
              Refilled(if sink.Some? then Some(sink.value + [d]) else None, docs)
  {
    if sink.Some? {
      assert sink.value + ([d] + docs) == (sink.value + [d]) + docs;
    }
  }

  lemma RefilledNone(sink: Option<seq<(nat, Ref)>>)
    ensures Refilled(sink, []) == sink
  {
    if sink.Some? {
      assert sink.value + [] == sink.value;
    }
  }

  /** What is left of a buffer of segments whose first `off` cells have been consumed. */
  ghost predicate SegsOk(segs: seq<Seg>, off: nat) {
    off == 0 || (segs != [] && off < segs[0].Len())
  }

  function Rest(segs: seq<Seg>, off: nat): seq<Cell>
    requires SegsOk(segs, off)
  {
    SegCells(segs)[off..]
  }

  /** Consuming k cells of the head segment, which is dropped when it is used up. */
  lemma HeadStep(segs: seq<Seg>, off: nat, k: nat)
    requires segs != [] && SegsOk(segs, off) && off + k <= segs[0].Len()
    ensures k <= |Rest(segs, off)|
    ensures Rest(segs, off)[..k] == segs[0].Cells()[off..off + k]
    ensures var (segs', off') := if off + k == segs[0].Len() then (segs[1..], 0) else (segs, off + k);
            SegsOk(segs', off') && Rest(segs', off') == Rest(segs, off)[k..]
  {
    var head := segs[0].Cells();
    assert SegCells(segs) == head + SegCells(segs[1..]);
  }

  /** A refill adds the document and its separator behind what is left. */
  lemma TwoMoreSegs(ix: Index, segs: seq<Seg>, off: nat, src: nat, ref: Ref, len: nat)
    requires SegsOk(segs, off) && SegsFit(ix, segs)
    requires src < |ix.sources| && len == ix.sources[src].Length(ref)
    ensures SegsOk(segs + [DocSeg(src, ref, len), EosSeg], off)
    ensures SegsFit(ix, segs + [DocSeg(src, ref, len), EosSeg])
    ensures Rest(segs + [DocSeg(src, ref, len), EosSeg], off) == Rest(segs, off) + DocCells(src, ref, 0, len) + [Sep]
  {
    hide DocCells;
    SegCellsAppend(segs, [DocSeg(src, ref, len), EosSeg]);
    TwoSegs(src, ref, len);
  }

  lemma HeadFits(ix: Index, segs: seq<Seg>)
    requires SegsFit(ix, segs) && segs != []
    ensures SegsFit(ix, [segs[0]]) && SegsFit(ix, segs[1..])
  {}

  // ----- which payload is read ----------------------------------------------------------------------

  /** The documents with a token among these cells. */
  ghost function TokenDocs(cells: seq<Cell>): set<(nat, Ref)> {
    set i | 0 <= i < |cells| && cells[i].Tok? :: (cells[i].src, cells[i].ref)
  }

  /** A document without tokens: there is nothing in it to read. */
  ghost predicate Empty(ix: Index, d: (nat, Ref)) {
    d.0 < |ix.sources| && ix.sources[d.0].Length(d.1) == 0
  }

  /** Between these two moments exactly the documents of these cells were read, empty ones aside. */
  ghost predicate Reads(ix: Index, before: set<(nat, Ref)>, after: set<(nat, Ref)>, cells: seq<Cell>) {
    && before + TokenDocs(cells) <= after
    && forall d :: d in after ==> d in before || d in TokenDocs(cells) || Empty(ix, d)
  }

  lemma ReadsNothing(ix: Index, seen: set<(nat, Ref)>)
    ensures Reads(ix, seen, seen, [])
  {}

  lemma ReadsAppend(
    ix: Index, a: set<(nat, Ref)>, b: set<(nat, Ref)>, c: set<(nat, Ref)>, x: seq<Cell>, y: seq<Cell>)
    requires Reads(ix, a, b, x) && Reads(ix, b, c, y)
    ensures Reads(ix, a, c, x + y)
  {
    TokenDocsAppend(x, y);
  }

  lemma TokenDocsAppend(x: seq<Cell>, y: seq<Cell>)
    ensures TokenDocs(x + y) == TokenDocs(x) + TokenDocs(y)
  {
    forall d | d in TokenDocs(x) + TokenDocs(y) ensures d in TokenDocs(x + y) {
      if d in TokenDocs(x) {
        var i :| 0 <= i < |x| && x[i].Tok? && d == (x[i].src, x[i].ref);
        assert (x + y)[i] == x[i];
      } else {
        var i :| 0 <= i < |y| && y[i].Tok? && d == (y[i].src, y[i].ref);
        assert (x + y)[|x| + i] == y[i];
      }
    }
  }

  lemma ReadsDoc(ix: Index, seen: set<(nat, Ref)>, src: nat, ref: Ref, a: nat, b: nat)
    requires src < |ix.sources| && a <= b <= ix.sources[src].Length(ref)
    requires a == b ==> ix.sources[src].Length(ref) == 0
    ensures Reads(ix, seen, seen + {(src, ref)}, DocCells(src, ref, a, b))
  {
    var cells := DocCells(src, ref, a, b);
    if a < b {
      assert cells[0] == Tok(src, ref, a);
      assert TokenDocs(cells) == {(src, ref)};
    } else {
      assert Empty(ix, (src, ref));
    }
  }

  lemma ReadsNone(ix: Index, seen: set<(nat, Ref)>, cells: seq<Cell>)
    requires forall i :: 0 <= i < |cells| ==> !cells[i].Tok?
    ensures Reads(ix, seen, seen, cells)
  {}

  /** The cells of the windows a rank owns in the step at cursor c. */
  function OwnedCells(ix: Index, t: Train, ws: nat, r: nat, p: Pos, c: Cursor): seq<Cell>
    requires PosOk(ix, p) && t.Valid()
  {
    var total := PlanOf(t, c).microbatches;
    DealtBelow(total, ws, r);
    DealtCells(Windows(ix, p, t.seqLen + 1, total * t.mb), total, t.mb, IndicesForRank(total, ws, r))
  }

  function DealtCells(all: seq<seq<Cell>>, total: nat, mb: nat, indices: seq<nat>): seq<Cell>
    requires |all| == total * mb && AllBelow(indices, total)
  {
    Flat(Flat(Dealt(all, total, mb, indices)))
  }

  /** The cells of the windows a rank owns in k steps. */
  function OwnedOverSteps(ix: Index, t: Train, ws: nat, r: nat, p: Pos, c: Cursor, k: nat): seq<Cell>
    requires PosOk(ix, p) && t.Valid()
    decreases k
  {
    if k == 0 then []
    else OwnedCells(ix, t, ws, r, p, c)
         + OwnedOverSteps(ix, t, ws, r, PosAfterStep(ix, t, p, c), Advance(t, c), k - 1)
  }

  /** One more owned micro-batch. */
  lemma DealtCellsSnoc(all: seq<seq<Cell>>, total: nat, mb: nat, indices: seq<nat>, m: nat)
    requires |all| == total * mb && AllBelow(indices + [m], total) && AllBelow(indices, total) && m < total
    ensures DealtCells(all, total, mb, indices + [m])
         == DealtCells(all, total, mb, indices) + Flat(Chunk(all, total, mb, m))
  {
    var dealt, next := Dealt(all, total, mb, indices), Chunk(all, total, mb, m);
    DealtSnoc(all, total, mb, indices, m);
    FlatSnoc(dealt, next);
    FlatConcat(Flat(dealt), next);
  }

  lemma {:induction false} FlatConcat<T>(a: seq<seq<T>>, b: seq<seq<T>>)
    ensures Flat(a + b) == Flat(a) + Flat(b)
  {
    if b == [] {
      assert a + b == a;
    } else {
      var m := |b| - 1;
      FlatConcat(a, b[..m]);
      assert (a + b)[..|a + b| - 1] == a + b[..m];
      Assoc(Flat(a), Flat(b[..m]), b[m]);
    }
  }

  class ShardedWindowView {
    const ix: Index
    const pay: Payload
    const train: Train
    const rank: nat
    const worldSize: nat
    var rng: nat
    var places: seq<Place>
    var segs: seq<Seg>
    var headOff: nat
    var bufLen: nat
    var emitted: nat
    /** `_span_sink`: off, or the fragments consumed so far. */
    var spanSink: Option<seq<Span>>
    /** `_ref_sink`: off, or the documents refilled so far. */
    var refSink: Option<seq<(nat, Ref)>>
    /** The documents whose payload has been read. */
    ghost var payloadReads: set<(nat, Ref)>
    /** Where the canonical stream is. */
    ghost var pos: Pos

    ghost predicate Valid()
      reads this
    {
      && PosOk(ix, pos) && Fits(ix, pay) && train.Valid() && rank < worldSize
      && SegsOk(segs, headOff) && SegsFit(ix, segs)
      && rng == pos.rng && places == pos.places && emitted == pos.emitted
      && Rest(segs, headOff) == pos.cells
      && bufLen == |pos.cells|
    }

    constructor (
      ix: Index, pay: Payload, train: Train, rank: nat, worldSize: nat, seeded: nat, state: Option<StreamState>)
      requires ix.Valid() && Fits(ix, pay) && train.Valid() && rank < worldSize
      ensures Valid() && pos == Resume(ix, seeded, state)
      ensures this.ix == ix && this.pay == pay && this.train == train
      ensures this.rank == rank && this.worldSize == worldSize
      ensures payloadReads == {} && spanSink == None && refSink == None
    {
      this.ix, this.pay, this.train, this.rank, this.worldSize := ix, pay, train, rank, worldSize;
      var p := Resume(ix, seeded, state);
      rng, places, emitted := p.rng, p.places, p.emitted;
      headOff := 0;
      if state.Some? && state.value.carryOver != [] {
        segs := [LitSeg(state.value.carryOver)];
        bufLen := |state.value.carryOver|;
        assert SegCells([LitSeg(state.value.carryOver)])
            == LitSeg(state.value.carryOver).Cells() + SegCells([]);
      } else {
        segs := [];
        bufLen := 0;
      }
      spanSink := None;
      refSink := None;
      payloadReads := {};
      pos := p;
    }

    /** `_refill`. */
    method RefillSegs()
      requires Valid()
      modifies this`rng, this`places, this`segs, this`bufLen, this`pos, this`refSink
      ensures Valid() && pos == Refill(ix, old(pos))
      ensures refSink == if old(refSink).Some? then Some(old(refSink).value + [Drawn(ix, old(pos))]) else None
    {
      hide Rest, SegsFit, SegsOk, Fits, NextPlace, RefAt, DocCells;
      var src := ix.mix.pick(rng);
      var s := ix.sources[src];
      var ref := RefAt(s, places[src]);
      var docLen := s.Length(ref);
      if refSink.Some? {
        refSink := Some(refSink.value + [(src, ref)]);
      }
      TwoMoreSegs(ix, segs, headOff, src, ref, docLen);
      places := places[src := NextPlace(s.shuffle, s.Counts(), 0, 1, places[src])];
      rng := ix.mix.next(rng);
      segs := segs + [DocSeg(src, ref, docLen), EosSeg];
      bufLen := bufLen + docLen + 1;
      pos := Refill(ix, pos);
    }

    /** One turn of the loop in `_take`: up to `remaining` cells of the head segment. */
    method TakeHead(remaining: nat, materialize: bool) returns (take: nat, piece: seq<int>)
      requires Fits(ix, pay) && SegsOk(segs, headOff) && SegsFit(ix, segs) && segs != [] && remaining > 0
      modifies this`segs, this`headOff, this`spanSink, this`payloadReads
      ensures SegsOk(segs, headOff) && SegsFit(ix, segs)
      ensures take <= remaining && take <= |old(Rest(segs, headOff))|
      ensures take > 0 || |segs| < |old(segs)|
      ensures Rest(segs, headOff) == old(Rest(segs, headOff))[take..]
      ensures materialize ==> piece == pay.Tokens(old(Rest(segs, headOff))[..take])
      ensures materialize ==> Reads(ix, old(payloadReads), payloadReads, old(Rest(segs, headOff))[..take])
      ensures !materialize ==> payloadReads == old(payloadReads)
      ensures Noted(ix, old(spanSink), spanSink, emitted, old(Rest(segs, headOff))[..take])
    {
      var seg := segs[0];
      var avail := seg.Len() - headOff;
      take := if avail < remaining then avail else remaining;
      HeadStep(segs, headOff, take);
      piece := ConsumeHead(take, materialize);
      DropHead(take);
    }

    /** Notes and reads `take` cells of the head segment. */
    method ConsumeHead(take: nat, materialize: bool) returns (piece: seq<int>)
      requires Fits(ix, pay) && SegsFit(ix, segs) && SegsOk(segs, headOff)
      requires segs != [] && headOff + take <= segs[0].Len() && (take == 0 ==> segs[0].Len() == 0)
      modifies this`spanSink, this`payloadReads
      ensures take <= |Rest(segs, headOff)|
      ensures materialize ==> piece == pay.Tokens(Rest(segs, headOff)[..take])
      ensures materialize ==> Reads(ix, old(payloadReads), payloadReads, Rest(segs, headOff)[..take])
      ensures !materialize ==> payloadReads == old(payloadReads)
      ensures Noted(ix, old(spanSink), spanSink, emitted, Rest(segs, headOff)[..take])
    {
      HeadFits(ix, segs);
      HeadStep(segs, headOff, take);
      ghost var cells := Rest(segs, headOff)[..take];
      NoteSpan(segs[0], headOff, take, cells);
      piece := [];
      if materialize {
        piece := ReadPiece(segs[0], headOff, take);
      }
    }

    /** Moves the cursor past `take` cells of the head segment. */
    method DropHead(take: nat)
      requires SegsFit(ix, segs) && SegsOk(segs, headOff) && segs != [] && headOff + take <= segs[0].Len()
      modifies this`segs, this`headOff
      ensures SegsOk(segs, headOff) && SegsFit(ix, segs)
      ensures Rest(segs, headOff) == old(Rest(segs, headOff))[take..]
      ensures old(headOff + take == segs[0].Len()) ==> |segs| < |old(segs)|
    {
      HeadFits(ix, segs);
      HeadStep(segs, headOff, take);
      headOff := headOff + take;
      if headOff == segs[0].Len() {
        segs := segs[1..];
        headOff := 0;
      }
    }

    /** The span-sink part of the loop: only document segments are listed. */
    method NoteSpan(seg: Seg, off: nat, take: nat, ghost cells: seq<Cell>)
      requires off + take <= seg.Len() && SegsFit(ix, [seg]) && cells == seg.Cells()[off..off + take]
      modifies this`spanSink
      ensures Noted(ix, old(spanSink), spanSink, emitted, cells)
    {
      if spanSink.Some? && seg.DocSeg? {
        assert [seg][0] == seg;
        var span := Span(emitted, seg.src, seg.ref, off, off + take);
        NotedSpan(ix, spanSink.value, span, cells);
        spanSink := Some(spanSink.value + [span]);
      } else if spanSink.Some? {
        NotedNothing(ix, spanSink, emitted, cells);
      }
    }

    /** The payload part of the loop. */
    method ReadPiece(seg: Seg, off: nat, take: nat) returns (piece: seq<int>)
      requires Fits(ix, pay) && off + take <= seg.Len() && SegsFit(ix, [seg]) && (take == 0 ==> seg.Len() == 0)
      modifies this`payloadReads
      ensures piece == pay.Tokens(seg.Cells()[off..off + take])
      ensures Reads(ix, old(payloadReads), payloadReads, seg.Cells()[off..off + take])
    {
      if !seg.DocSeg? {
        ReadsNone(ix, payloadReads, seg.Cells()[off..off + take]);
      }
      match seg {
        case DocSeg(src, ref, len) =>
          assert [seg][0] == seg;
          assert seg.Cells()[off..off + take] == DocCells(src, ref, off, off + take);
          ReadsDoc(ix, payloadReads, src, ref, off, off + take);
          payloadReads := payloadReads + {(src, ref)};
          piece := pay.doc(src, ref)[off..off + take];
        case EosSeg => piece := seq(take, i => pay.eos);
        case LitSeg(vals) => piece := vals[off..off + take];
      }
    }

    /** The loop of `_take`: n cells from the front of the segments. */
    method TakeCells(n: nat, materialize: bool) returns (pieces: seq<int>)
      requires Fits(ix, pay) && SegsOk(segs, headOff) && SegsFit(ix, segs) && n <= |Rest(segs, headOff)|
      modifies this`segs, this`headOff, this`spanSink, this`payloadReads
      ensures SegsOk(segs, headOff) && SegsFit(ix, segs)
      ensures Rest(segs, headOff) == old(Rest(segs, headOff))[n..]
      ensures materialize ==> pieces == pay.Tokens(old(Rest(segs, headOff))[..n])
      ensures materialize ==> Reads(ix, old(payloadReads), payloadReads, old(Rest(segs, headOff))[..n])
      ensures !materialize ==> payloadReads == old(payloadReads)
      ensures Noted(ix, old(spanSink), spanSink, emitted, old(Rest(segs, headOff))[..n])
    {
      hide Reads, Noted, Fits;
      pieces := [];
      var remaining := n;
      ghost var cells := Rest(segs, headOff);
      ghost var done: seq<Cell> := [];
      NotedNothing(ix, spanSink, emitted, done);
      ReadsNothing(ix, payloadReads);
      while remaining > 0
        invariant 0 <= remaining <= n && SegsOk(segs, headOff) && SegsFit(ix, segs)
        invariant |done| == n - remaining && done + Rest(segs, headOff) == cells
        invariant materialize ==> pieces == pay.Tokens(done)
        invariant materialize ==> Reads(ix, old(payloadReads), payloadReads, done)
        invariant !materialize ==> payloadReads == old(payloadReads)
        invariant Noted(ix, old(spanSink), spanSink, emitted, done)
        decreases remaining, |segs|
      {
        ghost var sink, rest, seen := spanSink, Rest(segs, headOff), payloadReads;
        assert segs != [];
        var take, piece := TakeHead(remaining, materialize);
        NotedAppend(ix, old(spanSink), sink, spanSink, emitted, done, rest[..take]);
        TokensAppend(pay, done, rest[..take]);
        if materialize {
          ReadsAppend(ix, old(payloadReads), seen, payloadReads, done, rest[..take]);
        }
        pieces := pieces + piece;
        done := MoveCells(done, rest, take);
        remaining := remaining - take;
      }
      assert done == cells[..n] && Rest(segs, headOff) == cells[n..];
    }

    /** `_take`: consumes n cells from the front, reading payload only when asked. */
    method Take(n: nat, materialize: bool) returns (tokens: Option<seq<int>>)
      requires Valid() && n <= bufLen
      modifies this`segs, this`headOff, this`bufLen, this`spanSink, this`payloadReads, this`pos
      ensures Valid() && pos == old(pos).(cells := old(pos.cells)[n..])
      ensures tokens == if materialize then Some(pay.Tokens(old(pos.cells)[..n])) else None
      ensures materialize ==> Reads(ix, old(payloadReads), payloadReads, old(pos.cells)[..n])
      ensures !materialize ==> payloadReads == old(payloadReads)
      ensures Noted(ix, old(spanSink), spanSink, emitted, old(pos.cells)[..n])
    {
      var pieces := TakeCells(n, materialize);
      bufLen := bufLen - n;
      pos := pos.(cells := pos.cells[n..]);
      tokens := if materialize then Some(pieces) else None;
    }

    /** Refills until a window's worth of cells is packed. */
    method FillBuffer(n: nat)
      requires Valid()
      modifies this`rng, this`places, this`segs, this`bufLen, this`pos, this`refSink
      ensures Valid() && pos == Fill(ix, old(pos), n)
      ensures refSink == Refilled(old(refSink), FillDocs(ix, old(pos), n))
    {
      while bufLen < n
        invariant Valid() && Fill(ix, pos, n) == Fill(ix, old(pos), n)
        invariant Refilled(refSink, FillDocs(ix, pos, n)) == Refilled(old(refSink), FillDocs(ix, old(pos), n))
        decreases n - bufLen
      {
        RefilledStep(refSink, Drawn(ix, pos), FillDocs(ix, Refill(ix, pos), n));
        RefillSegs();
      }
      RefilledNone(refSink);
    }

    /** `_take_window`. */
    method TakeWindow(materialize: bool) returns (tokens: Option<seq<int>>)
      requires Valid()
      modifies this
      ensures Valid() && pos == Next(ix, old(pos), train.seqLen + 1)
      ensures tokens == if materialize then Some(pay.Tokens(Window(ix, old(pos), train.seqLen + 1))) else None
      ensures materialize ==>
        Reads(ix, old(payloadReads), payloadReads, Window(ix, old(pos), train.seqLen + 1))
      ensures !materialize ==> payloadReads == old(payloadReads)
      ensures Noted(ix, old(spanSink), spanSink, old(emitted), Window(ix, old(pos), train.seqLen + 1))
      ensures refSink == Refilled(old(refSink), FillDocs(ix, old(pos), train.seqLen + 1))
    {
      hide Rest, SegsFit, SegsOk, Fits, Noted, Reads, Fill, FillDocs;
      var n := train.seqLen + 1;
      FillBuffer(n);
      tokens := Take(n, materialize);
      emitted := emitted + 1;
      pos := pos.(emitted := pos.emitted + 1);
    }

    /** One micro-batch: `[self._take_window(materialize=owned) for _ in range(mb)]`. */
    method TakeBatch(owned: bool) returns (batch: seq<seq<int>>)
      requires Valid() && spanSink == None && refSink == None
      modifies this
      ensures Valid() && spanSink == None && refSink == None && pos == After(ix, old(pos), train.seqLen + 1, train.mb)
      ensures owned ==> batch == pay.AllTokens(Windows(ix, old(pos), train.seqLen + 1, train.mb))
      ensures owned ==>
        Reads(ix, old(payloadReads), payloadReads, Flat(Windows(ix, old(pos), train.seqLen + 1, train.mb)))
      ensures !owned ==> payloadReads == old(payloadReads)
    {
      hide Window, Next, Fits, Rest, SegsFit, SegsOk, PosOk, Reads, Flat;
      batch := [];
      FlatNone<Cell>();
      ReadsNothing(ix, payloadReads);
      ghost var n := train.seqLen + 1;
      for i := 0 to train.mb
        invariant Valid() && spanSink == None && refSink == None && pos == After(ix, old(pos), n, i)
        invariant owned ==> batch == pay.AllTokens(Windows(ix, old(pos), n, i))
        invariant owned ==> Reads(ix, old(payloadReads), payloadReads, Flat(Windows(ix, old(pos), n, i)))
        invariant !owned ==> payloadReads == old(payloadReads)
      {
        ghost var seen, p := payloadReads, pos;
        FlatSnoc(Windows(ix, old(pos), n, i), Window(ix, p, n));
        OneMore(ix, old(pos), n, i);
        AllTokensAppend(pay, Windows(ix, old(pos), n, i), [Window(ix, pos, n)]);
        var window := TakeWindow(owned);
        if owned {
          ReadsAppend(ix, old(payloadReads), seen, payloadReads, Flat(Windows(ix, old(pos), n, i)), Window(ix, p, n));
          batch := batch + [window.value];
        }
      }
    }

    lemma InTeam()
      requires Valid()
      ensures rank < worldSize
    {}

    /** Micro-batch m of a step: kept when this rank owns it. */
    method StepBatch(ghost p: Pos, total: nat, m: nat, kept: seq<seq<seq<int>>>, ghost before: set<(nat, Ref)>)
      returns (batches: seq<seq<seq<int>>>)
      requires Valid() && spanSink == None && refSink == None && PosOk(ix, p) && m < total
      requires pos == After(ix, p, train.seqLen + 1, m * train.mb)
      requires AllBelow(IndicesForRank(m + 1, worldSize, rank), total)
      requires AllBelow(IndicesForRank(m, worldSize, rank), total)
      requires kept == Dealt(pay.AllTokens(Windows(ix, p, train.seqLen + 1, total * train.mb)), total, train.mb,
                             IndicesForRank(m, worldSize, rank))
      requires Reads(ix, before, payloadReads, DealtCells(
        Windows(ix, p, train.seqLen + 1, total * train.mb), total, train.mb, IndicesForRank(m, worldSize, rank)))
      modifies this
      ensures Valid() && spanSink == None && refSink == None
      ensures pos == After(ix, p, train.seqLen + 1, (m + 1) * train.mb)
      ensures Reads(ix, before, payloadReads, DealtCells(
        Windows(ix, p, train.seqLen + 1, total * train.mb), total, train.mb, IndicesForRank(m + 1, worldSize, rank)))
      ensures batches == Dealt(pay.AllTokens(Windows(ix, p, train.seqLen + 1, total * train.mb)), total, train.mb,
                               IndicesForRank(m + 1, worldSize, rank))
    {
      hide *;
      InTeam();
      ghost var n, seen, q := train.seqLen + 1, payloadReads, pos;
      ghost var mine := DealtCells(Windows(ix, p, n, total * train.mb), total, train.mb,
                                   IndicesForRank(m, worldSize, rank));
      NextOwned(ix, pay, p, n, total, train.mb, m, worldSize, rank);
      var owned := OwnerRank(m, worldSize) == rank;
      var batch := TakeBatch(owned);
      if owned {
        ReadsAppend(ix, before, seen, payloadReads, mine, Flat(Windows(ix, q, n, train.mb)));
      }
      batches := if owned then kept + [batch] else kept;
    }

    /** One step of `__iter__`: walks every micro-batch, keeps the owned ones. */
    method Step(c: Cursor) returns (batches: seq<seq<seq<int>>>)
      requires Valid() && spanSink == None && refSink == None
      modifies this
      ensures Valid() && spanSink == None && refSink == None && pos == PosAfterStep(ix, train, old(pos), c)
      ensures batches == RankBatches(
        StepTokens(ix, pay, train, old(pos), c), PlanOf(train, c).microbatches, train.mb, worldSize, rank)
      ensures Reads(ix, old(payloadReads), payloadReads, OwnedCells(ix, train, worldSize, rank, old(pos), c))
    {
      hide Rest, SegsFit, SegsOk, Fits, Reads, DealtCells, Dealt, After, Windows, IndicesForRank;
      hide AllBelow, RankBatches, OwnedCells, PosAfterStep, PlanOf;
      var total := PlanOf(train, c).microbatches;
      ghost var all := StepTokens(ix, pay, train, old(pos), c);
      ghost var wins := Windows(ix, old(pos), train.seqLen + 1, total * train.mb);
      batches := [];
      StepBounds(ix, pay, train, worldSize, rank, pos, c);
      ReadsNothing(ix, payloadReads);
      for m := 0 to total
        invariant Valid() && spanSink == None && refSink == None
        invariant pos == After(ix, old(pos), train.seqLen + 1, m * train.mb)
        invariant AllBelow(IndicesForRank(m, worldSize, rank), total)
        invariant batches == Dealt(all, total, train.mb, IndicesForRank(m, worldSize, rank))
        invariant Reads(ix, old(payloadReads), payloadReads,
                        DealtCells(wins, total, train.mb, IndicesForRank(m, worldSize, rank)))
      {
        DealtBelow(m + 1, worldSize, rank);
        BelowMore(IndicesForRank(m + 1, worldSize, rank), m + 1, total);
        batches := StepBatch(old(pos), total, m, batches, old(payloadReads));
      }
    }

    /** The first k steps of `__iter__` from cursor c: the payload read is that of this rank's windows. */
    method Iterate(c: Cursor, k: nat) returns (steps: seq<seq<seq<seq<int>>>>)
      requires Valid() && spanSink == None && refSink == None
      modifies this
      ensures Valid() && pos == PosAfterSteps(ix, train, old(pos), c, k)
      ensures steps == RankSteps(ix, pay, train, worldSize, rank, old(pos), c, k)
      ensures Reads(ix, old(payloadReads), payloadReads, OwnedOverSteps(ix, train, worldSize, rank, old(pos), c, k))
    {
      hide PosOk, SegsOk, SegsFit, Fits, Rest, RankSteps, PosAfterSteps, PosAfterStep, OwnedOverSteps, OwnedCells;
      hide Reads, RankBatches, StepTokens, Advance, PlanOf;
      ghost var before, owned: seq<Cell> := payloadReads, [];
      ReadsNothing(ix, before);
      steps := [];
      var cursor := c;
      ghost var left := k;
      for i := 0 to k
        invariant Valid() && spanSink == None && refSink == None && left == k - i
        invariant PosAfterSteps(ix, train, pos, cursor, left) == PosAfterSteps(ix, train, old(pos), c, k)
        invariant steps + RankSteps(ix, pay, train, worldSize, rank, pos, cursor, left)
               == RankSteps(ix, pay, train, worldSize, rank, old(pos), c, k)
        invariant Reads(ix, before, payloadReads, owned)
        invariant owned + OwnedOverSteps(ix, train, worldSize, rank, pos, cursor, left)
               == OwnedOverSteps(ix, train, worldSize, rank, old(pos), c, k)
      {
        ghost var p, done, seen := pos, steps, payloadReads;
        ghost var p', c' := PosAfterStep(ix, train, p, cursor), Advance(train, cursor);
        PosFront(ix, train, p, cursor, left - 1);
        ghost var rest := RankSteps(ix, pay, train, worldSize, rank, p', c', left - 1);
        StepsCons(ix, pay, train, worldSize, rank, p, cursor, left - 1, rest);
        OwnedFront(ix, train, worldSize, rank, p, cursor, left - 1);
        var batches := Step(cursor);
        steps := steps + [batches];
        Assoc(done, [batches], rest);
        ghost var mine := OwnedCells(ix, train, worldSize, rank, p, cursor);
        ReadsAppend(ix, before, seen, payloadReads, owned, mine);
        Assoc(owned, mine, OwnedOverSteps(ix, train, worldSize, rank, p', c', left - 1));
        owned := owned + mine;
        cursor := Advance(train, cursor);
        left := left - 1;
      }
      StepsEnd(ix, pay, train, worldSize, rank, pos, cursor);
      assert steps + [] == steps && owned + [] == owned;
    }

    /** `_materialize_buffer`. */
    method MaterializeBuffer() returns (out: seq<int>)
      requires Valid()
      modifies this`payloadReads
      ensures Valid() && out == pay.Tokens(pos.cells)
      ensures Reads(ix, old(payloadReads), payloadReads, pos.cells)
    {
      ReadsNothing(ix, payloadReads);
      out := [];
      var off: nat := headOff;
      var rest := segs;
      ghost var done: seq<Cell> := [];
      while rest != []
        invariant SegsOk(rest, off) && SegsFit(ix, rest)
        invariant done + Rest(rest, off) == pos.cells && out == pay.Tokens(done)
        invariant Reads(ix, old(payloadReads), payloadReads, done)
        decreases |rest|
      {
        var seg := rest[0];
        var take := seg.Len() - off;
        HeadFits(ix, rest);
        HeadStep(rest, off, take);
        ghost var left, seen := Rest(rest, off), payloadReads;
        var piece := ReadPiece(seg, off, take);
        TokensAppend(pay, done, left[..take]);
        ReadsAppend(ix, old(payloadReads), seen, payloadReads, done, left[..take]);
        out := out + piece;
        done := MoveCells(done, left, take);
        rest := rest[1..];
        off := 0;
      }
      assert done == pos.cells;
    }

    /** `state`: the global position, the same on every rank. */
    method State() returns (state: StreamState)
      requires Valid()
      modifies this`payloadReads
      ensures Valid() && state == Snapshot(ix, pay, pos)
      ensures Reads(ix, old(payloadReads), payloadReads, pos.cells)
    {
      var carry := MaterializeBuffer();
      state := StreamState(
        ByName(ix, Consumed(places), |places|), ByName(ix, Epochs(places), |places|), Some(rng), carry, emitted);
    }
  }

  lemma OwnedFront(ix: Index, t: Train, ws: nat, r: nat, p: Pos, c: Cursor, k: nat)
    requires PosOk(ix, p) && t.Valid()
    ensures OwnedOverSteps(ix, t, ws, r, p, c, k + 1) == OwnedCells(ix, t, ws, r, p, c)
              + OwnedOverSteps(ix, t, ws, r, PosAfterStep(ix, t, p, c), Advance(t, c), k)
  {}

  lemma StepsEnd(ix: Index, pay: Payload, t: Train, ws: nat, r: nat, p: Pos, c: Cursor)
    requires PosOk(ix, p) && t.Valid()
    ensures PosAfterSteps(ix, t, p, c, 0) == p && RankSteps(ix, pay, t, ws, r, p, c, 0) == []
    ensures OwnedOverSteps(ix, t, ws, r, p, c, 0) == []
  {}

  /** Micro-batch m of a step: what it adds to the rank's batches and to the cells it reads. */
  lemma NextOwned(ix: Index, pay: Payload, p: Pos, n: nat, total: nat, mb: nat, m: nat, ws: nat, r: nat)
    requires PosOk(ix, p) && m < total && r < ws
    requires AllBelow(IndicesForRank(m, ws, r), total) && AllBelow(IndicesForRank(m + 1, ws, r), total)
    ensures After(ix, p, n, (m + 1) * mb) == After(ix, After(ix, p, n, m * mb), n, mb)
    ensures var all, q := Windows(ix, p, n, total * mb), After(ix, p, n, m * mb);
            var now, next := IndicesForRank(m, ws, r), IndicesForRank(m + 1, ws, r);
            if OwnerRank(m, ws) == r
            then
              && Dealt(pay.AllTokens(all), total, mb, next)
              == Dealt(pay.AllTokens(all), total, mb, now) + [pay.AllTokens(Windows(ix, q, n, mb))]
              && DealtCells(all, total, mb, next)
              == DealtCells(all, total, mb, now) + Flat(Windows(ix, q, n, mb))
            else next == now
  {
    hide DealtCells, Windows, After, Dealt;
    var all, now := Windows(ix, p, n, total * mb), IndicesForRank(m, ws, r);
    NextBatch(ix, pay, p, n, total, mb, m);
    WindowsChunk(ix, p, n, total, mb, m);
    if OwnerRank(m, ws) == r {
      assert IndicesForRank(m + 1, ws, r) == now + [m];
      DealtSnoc(pay.AllTokens(all), total, mb, now, m);
      DealtCellsSnoc(all, total, mb, now, m);
    }
  }

  lemma DealtSnoc<T>(all: seq<T>, total: nat, mb: nat, indices: seq<nat>, m: nat)
    requires |all| == total * mb && AllBelow(indices + [m], total) && AllBelow(indices, total) && m < total
    ensures Dealt(all, total, mb, indices + [m]) == Dealt(all, total, mb, indices) + [Chunk(all, total, mb, m)]
  {}

  /** A step before its first micro-batch, and after its last. */
  lemma StepBounds(ix: Index, pay: Payload, t: Train, ws: nat, r: nat, p: Pos, c: Cursor)
    requires PosOk(ix, p) && t.Valid() && r < ws
    ensures var total, n := PlanOf(t, c).microbatches, t.seqLen + 1;
            var all, wins := StepTokens(ix, pay, t, p, c), Windows(ix, p, n, total * t.mb);
            && AllBelow(IndicesForRank(0, ws, r), total) && AllBelow(IndicesForRank(total, ws, r), total)
            && After(ix, p, n, 0 * t.mb) == p && Dealt(all, total, t.mb, IndicesForRank(0, ws, r)) == []
            && DealtCells(wins, total, t.mb, IndicesForRank(0, ws, r)) == []
            && After(ix, p, n, total * t.mb) == PosAfterStep(ix, t, p, c)
            && Dealt(all, total, t.mb, IndicesForRank(total, ws, r)) == RankBatches(all, total, t.mb, ws, r)
            && DealtCells(wins, total, t.mb, IndicesForRank(total, ws, r)) == OwnedCells(ix, t, ws, r, p, c)
  {
    hide Windows, PlanOf, DealtCells;
    var total := PlanOf(t, c).microbatches;
    DealtBelow(0, ws, r);
    DealtBelow(total, ws, r);
    NothingDealt(Windows(ix, p, t.seqLen + 1, total * t.mb), total, t.mb, ws, r);
    assert 0 * t.mb == 0;
  }

  lemma FlatNone<T>()
    ensures Flat<T>([]) == []
  {}

  lemma NothingDealt(all: seq<seq<Cell>>, total: nat, mb: nat, ws: nat, r: nat)
    requires |all| == total * mb && r < ws
    ensures AllBelow(IndicesForRank(0, ws, r), total) && DealtCells(all, total, mb, IndicesForRank(0, ws, r)) == []
  {}

  lemma BelowMore(indices: seq<nat>, n: nat, total: nat)
    requires AllBelow(indices, n) && n <= total
    ensures AllBelow(indices, total)
  {}

  lemma OneMore(ix: Index, p: Pos, n: nat, i: nat)
    requires PosOk(ix, p)
    ensures After(ix, p, n, i + 1) == Next(ix, After(ix, p, n, i), n)
    ensures Windows(ix, p, n, i + 1) == Windows(ix, p, n, i) + [Window(ix, After(ix, p, n, i), n)]
  {
    hide Next, Window, PosOk;
    AfterCompose(ix, p, n, i, 1);
    WindowsCompose(ix, p, n, i, 1);
    var q := After(ix, p, n, i);
    assert After(ix, q, n, 1) == After(ix, Next(ix, q, n), n, 0);
    assert Windows(ix, q, n, 1) == [Window(ix, q, n)] + Windows(ix, Next(ix, q, n), n, 0);
  }

  lemma NextBatch(ix: Index, pay: Payload, p: Pos, n: nat, total: nat, mb: nat, m: nat)
    requires PosOk(ix, p) && m < total
    ensures After(ix, p, n, (m + 1) * mb) == After(ix, After(ix, p, n, m * mb), n, mb)
    ensures Chunk(pay.AllTokens(Windows(ix, p, n, total * mb)), total, mb, m)
         == pay.AllTokens(Windows(ix, After(ix, p, n, m * mb), n, mb))
  {
    AfterCompose(ix, p, n, m * mb, mb);
    assert (m + 1) * mb == m * mb + mb;
    WindowsChunk(ix, p, n, total, mb, m);
    var all := Windows(ix, p, n, total * mb);
    assert Chunk(pay.AllTokens(all), total, mb, m) == pay.AllTokens(Chunk(all, total, mb, m));
  }

  ghost function MoveCells(done: seq<Cell>, rest: seq<Cell>, take: nat): (d: seq<Cell>)
    requires take <= |rest|
    ensures d + rest[take..] == done + rest
  {
    done + rest[..take]
  }

  lemma TokensAppend(pay: Payload, x: seq<Cell>, y: seq<Cell>)
    ensures pay.Tokens(x + y) == pay.Tokens(x) + pay.Tokens(y)
  {}

  lemma TwoSegs(src: nat, ref: Ref, n: nat)
    ensures SegCells([DocSeg(src, ref, n), EosSeg]) == DocCells(src, ref, 0, n) + [Sep]
  {
    assert [DocSeg(src, ref, n), EosSeg][1..] == [EosSeg];
    assert SegCells([EosSeg]) == [Sep] + SegCells([]);
  }
}
