/**
 The canonical token stream as a function of the corpus index.

 The stream is followed at the level of cells: a cell says where a token comes from, so windows are
 determined by document lengths alone and the payload only decides what the cells read.
*/
module StreamModel {
  import opened Wrappers
  import opened Sequences
  import opened SourceWalker

  /** One source: its name, the token count of each document of each shard, and its shuffles. */
  datatype Source = Source(name: string, lengths: seq<seq<nat>>, shuffle: Shuffle) {
    function Counts(): (c: seq<nat>)
      ensures |c| == |lengths| && forall s :: 0 <= s < |c| ==> c[s] == |lengths[s]|
    {
      seq(|lengths|, s requires 0 <= s < |lengths| => |lengths[s]|)
    }

    function Length(ref: Ref): nat {
      if ref.shard < |lengths| && ref.local < |lengths[ref.shard]| then lengths[ref.shard][ref.local] else 0
    }
  }

  /** The source-mix generator: a deterministic machine that names a source and moves on. */
  datatype Mix = Mix(pick: nat -> nat, next: nat -> nat)

  datatype Index = Index(sources: seq<Source>, mix: Mix) {
    /** Every draw names a source, every source has documents, and names are distinct. */
    ghost predicate Valid() {
      && (forall rng :: mix.pick(rng) < |sources|)
      && (forall i :: 0 <= i < |sources| ==>
            Shuffles(sources[i].shuffle, sources[i].Counts()) && Total(sources[i].Counts()) > 0)
      && (forall i, j :: 0 <= i < j < |sources| ==> sources[i].name != sources[j].name)
    }
  }

  /** Where a token of the stream comes from: a document, a separator, or a resumed buffer. */
  datatype Cell = Tok(src: nat, ref: Ref, pos: nat) | Sep | Lit(v: int)

  /** The position of the stream: generator, walkers, packed but unread cells, windows emitted. */
  datatype Pos = Pos(rng: nat, places: seq<Place>, cells: seq<Cell>, emitted: nat)

  ghost predicate PosOk(ix: Index, p: Pos) {
    ix.Valid() && |p.places| == |ix.sources|
  }

  function DocCells(src: nat, ref: Ref, a: nat, b: nat): (c: seq<Cell>)
    requires a <= b
    ensures |c| == b - a && forall i :: 0 <= i < |c| ==> c[i] == Tok(src, ref, a + i)
  {
    seq(b - a, i requires 0 <= i < b - a => Tok(src, ref, a + i))
  }

  /** The document the next refill takes from source src: its walker runs with rank 0 of 1. */
  function RefAt(s: Source, w: Place): Ref
    requires Shuffles(s.shuffle, s.Counts())
  {
    RefOf(s.Counts(), NextDoc(s.shuffle, s.Counts(), 0, 1, w))
  }

  function Drawn(ix: Index, p: Pos): (nat, Ref)
    requires PosOk(ix, p)
  {
    var src := ix.mix.pick(p.rng);
    (src, RefAt(ix.sources[src], p.places[src]))
  }

  /** Appends one more document and a separator. */
  function Refill(ix: Index, p: Pos): (q: Pos)
    requires PosOk(ix, p)
    ensures PosOk(ix, q) && |q.cells| > |p.cells|
  {
    var (src, ref) := Drawn(ix, p);
    var s := ix.sources[src];
    Pos(ix.mix.next(p.rng),
        p.places[src := NextPlace(s.shuffle, s.Counts(), 0, 1, p.places[src])],
        p.cells + DocCells(src, ref, 0, s.Length(ref)) + [Sep],
        p.emitted)
  }

  /** Refills until at least n cells are packed. */
  function Fill(ix: Index, p: Pos, n: nat): (q: Pos)
    requires PosOk(ix, p)
    ensures PosOk(ix, q) && |q.cells| >= n
    decreases n - |p.cells|
  {
    if |p.cells| >= n then p else Fill(ix, Refill(ix, p), n)
  }

  /** The next window of n cells, and the position after it. */
  function Window(ix: Index, p: Pos, n: nat): (w: seq<Cell>)
    requires PosOk(ix, p)
    ensures |w| == n
  {
    Fill(ix, p, n).cells[..n]
  }

  function Next(ix: Index, p: Pos, n: nat): (q: Pos)
    requires PosOk(ix, p)
    ensures PosOk(ix, q)
  {
    var f := Fill(ix, p, n);
    f.(cells := f.cells[n..], emitted := f.emitted + 1)
  }

  /** The position after k windows, and those windows. */
  function After(ix: Index, p: Pos, n: nat, k: nat): (q: Pos)
    requires PosOk(ix, p)
    ensures PosOk(ix, q)
    decreases k
  {
    if k == 0 then p else After(ix, Next(ix, p, n), n, k - 1)
  }

  function Windows(ix: Index, p: Pos, n: nat, k: nat): (w: seq<seq<Cell>>)
    requires PosOk(ix, p)
    ensures |w| == k
    decreases k
  {
    if k == 0 then [] else [Window(ix, p, n)] + Windows(ix, Next(ix, p, n), n, k - 1)
  }

  lemma {:induction false} AfterCompose(ix: Index, p: Pos, n: nat, j: nat, k: nat)
    requires PosOk(ix, p)
    ensures After(ix, After(ix, p, n, j), n, k) == After(ix, p, n, j + k)
    decreases j
  {
    hide Next, PosOk;
    if j == 0 {
    } else {
      AfterCompose(ix, Next(ix, p, n), n, j - 1, k);
      assert j + k - 1 == (j - 1) + k;
    }
  }

  lemma {:induction false} WindowsCompose(ix: Index, p: Pos, n: nat, j: nat, k: nat)
    requires PosOk(ix, p)
    ensures Windows(ix, p, n, j + k) == Windows(ix, p, n, j) + Windows(ix, After(ix, p, n, j), n, k)
    decreases j
  {
    hide Next, Window, PosOk;
    if j == 0 {
    } else {
      var q := Next(ix, p, n);
      WindowsCompose(ix, q, n, j - 1, k);
      assert j + k - 1 == (j - 1) + k;
      Assoc([Window(ix, p, n)], Windows(ix, q, n, j - 1), Windows(ix, After(ix, q, n, j - 1), n, k));
    }
  }

  lemma {:induction false} FillEmitted(ix: Index, p: Pos, n: nat)
    requires PosOk(ix, p)
    ensures Fill(ix, p, n).emitted == p.emitted
    decreases n - |p.cells|
  {
    if |p.cells| >= n {
    } else {
      FillEmitted(ix, Refill(ix, p), n);
    }
  }

  lemma {:induction false} EmittedCounts(ix: Index, p: Pos, n: nat, k: nat)
    requires PosOk(ix, p)
    ensures After(ix, p, n, k).emitted == p.emitted + k
    decreases k
  {
    hide Fill, PosOk;
    if k == 0 {
    } else {
      FillEmitted(ix, p, n);
      EmittedCounts(ix, Next(ix, p, n), n, k - 1);
    }
  }

  // ----- what the cells read ----------------------------------------------------------------------

  /** The token files, document by document, and the separator token. */
  datatype Payload = Payload(doc: (nat, Ref) -> seq<int>, eos: int) {
    function Read(c: Cell): int {
      match c
      case Tok(src, ref, pos) => if pos < |doc(src, ref)| then doc(src, ref)[pos] else 0
      case Sep => eos
      case Lit(v) => v
    }

    function Tokens(cells: seq<Cell>): (t: seq<int>)
      ensures |t| == |cells| && forall i :: 0 <= i < |t| ==> t[i] == Read(cells[i])
    {
      seq(|cells|, i requires 0 <= i < |cells| => Read(cells[i]))
    }

    function AllTokens(ws: seq<seq<Cell>>): (t: seq<seq<int>>)
      ensures |t| == |ws| && forall i :: 0 <= i < |t| ==> t[i] == Tokens(ws[i])
    {
      seq(|ws|, i requires 0 <= i < |ws| => Tokens(ws[i]))
    }
  }

  /** The payload files hold as many tokens as the index says. */
  ghost predicate Fits(ix: Index, pay: Payload) {
    forall src: nat, ref: Ref :: src < |ix.sources| ==> |pay.doc(src, ref)| == ix.sources[src].Length(ref)
  }

  // ----- snapshots --------------------------------------------------------------------------------

  /** `GlobalStreamState`. */
  datatype StreamState = StreamState(
    consumed: map<string, nat>, epochs: map<string, nat>, rng: Option<nat>, carryOver: seq<int>, emitted: nat)

  /** Values of the first n sources, keyed by source name. */
  function ByName(ix: Index, vals: seq<nat>, n: nat): map<string, nat>
    requires n <= |vals| && n <= |ix.sources|
  {
    if n == 0 then map[] else ByName(ix, vals, n - 1)[ix.sources[n - 1].name := vals[n - 1]]
  }

  function Consumed(places: seq<Place>): (v: seq<nat>)
    ensures |v| == |places| && forall i :: 0 <= i < |v| ==> v[i] == places[i].consumed
  {
    seq(|places|, i requires 0 <= i < |places| => places[i].consumed)
  }

  function Epochs(places: seq<Place>): (v: seq<nat>)
    ensures |v| == |places| && forall i :: 0 <= i < |v| ==> v[i] == places[i].epoch
  {
    seq(|places|, i requires 0 <= i < |places| => places[i].epoch)
  }

  function Snapshot(ix: Index, pay: Payload, p: Pos): StreamState
    requires |p.places| == |ix.sources|
  {
    StreamState(
      ByName(ix, Consumed(p.places), |p.places|), ByName(ix, Epochs(p.places), |p.places|),
      Some(p.rng), pay.Tokens(p.cells), p.emitted)
  }

  function Get(m: map<string, nat>, name: string): nat {
    if name in m then m[name] else 0
  }

  /** The position a fresh stream starts at: from a state, or at the very beginning. */
  function Resume(ix: Index, seeded: nat, state: Option<StreamState>): (p: Pos)
    ensures |p.places| == |ix.sources|
  {
    match state
    case None => Pos(seeded, seq(|ix.sources|, i => Place(0, 0)), [], 0)
    case Some(s) =>
      Pos(if s.rng.Some? then s.rng.value else seeded,
          seq(|ix.sources|, i requires 0 <= i < |ix.sources| =>
            Place(Get(s.consumed, ix.sources[i].name), Get(s.epochs, ix.sources[i].name))),
          seq(|s.carryOver|, i requires 0 <= i < |s.carryOver| => Lit(s.carryOver[i])),
          s.emitted)
  }

  lemma {:induction false} ByNameGets(ix: Index, vals: seq<nat>, n: nat, i: nat)
    requires n <= |vals| && n <= |ix.sources| && i < n
    requires forall i, j :: 0 <= i < j < |ix.sources| ==> ix.sources[i].name != ix.sources[j].name
    ensures ix.sources[i].name in ByName(ix, vals, n) && ByName(ix, vals, n)[ix.sources[i].name] == vals[i]
  {
    if i >= n - 1 {
    } else {
      ByNameGets(ix, vals, n - 1, i);
    }
  }

  /** Positions that read the same tokens from here on. */
  ghost predicate Same(pay: Payload, p: Pos, q: Pos) {
    && p.rng == q.rng && p.places == q.places && p.emitted == q.emitted
    && pay.Tokens(p.cells) == pay.Tokens(q.cells)
  }

  /** Resuming a snapshot gives a position that reads the same tokens. */
  lemma ResumeSnapshot(ix: Index, pay: Payload, seeded: nat, p: Pos)
    requires PosOk(ix, p)
    ensures PosOk(ix, Resume(ix, seeded, Some(Snapshot(ix, pay, p))))
    ensures Same(pay, Resume(ix, seeded, Some(Snapshot(ix, pay, p))), p)
  {
    var q := Resume(ix, seeded, Some(Snapshot(ix, pay, p)));
    var n := |p.places|;
    forall i | 0 <= i < n ensures q.places[i] == p.places[i] {
      ByNameGets(ix, Consumed(p.places), n, i);
      ByNameGets(ix, Epochs(p.places), n, i);
    }
    assert q.places == p.places;
  }

  lemma SameRefill(ix: Index, pay: Payload, p: Pos, q: Pos)
    requires PosOk(ix, p) && PosOk(ix, q) && Same(pay, p, q)
    ensures Same(pay, Refill(ix, p), Refill(ix, q))
  {
    var p', q' := Refill(ix, p), Refill(ix, q);
    assert |p.cells| == |pay.Tokens(p.cells)| == |q.cells|;
    forall i | 0 <= i < |p'.cells| ensures pay.Read(p'.cells[i]) == pay.Read(q'.cells[i]) {
      if i < |p.cells| {
        assert pay.Tokens(p.cells)[i] == pay.Tokens(q.cells)[i];
      }
    }
  }

  lemma {:induction false} SameFill(ix: Index, pay: Payload, p: Pos, q: Pos, n: nat)
    requires PosOk(ix, p) && PosOk(ix, q) && Same(pay, p, q)
    ensures Same(pay, Fill(ix, p, n), Fill(ix, q, n))
    decreases n - |p.cells|
  {
    assert |p.cells| == |pay.Tokens(p.cells)| == |q.cells|;
    if |p.cells| >= n {
    } else {
      SameRefill(ix, pay, p, q);
      SameFill(ix, pay, Refill(ix, p), Refill(ix, q), n);
    }
  }

  lemma SameNext(ix: Index, pay: Payload, p: Pos, q: Pos, n: nat)
    requires PosOk(ix, p) && PosOk(ix, q) && Same(pay, p, q)
    ensures Same(pay, Next(ix, p, n), Next(ix, q, n))
    ensures pay.Tokens(Window(ix, p, n)) == pay.Tokens(Window(ix, q, n))
  {
    SameFill(ix, pay, p, q, n);
    var f, g := Fill(ix, p, n), Fill(ix, q, n);
    assert |f.cells| == |pay.Tokens(f.cells)| == |g.cells|;
    assert forall i :: 0 <= i < |f.cells| ==> pay.Tokens(f.cells)[i] == pay.Tokens(g.cells)[i];
    assert forall i :: 0 <= i < |f.cells| ==> pay.Read(f.cells[i]) == pay.Read(g.cells[i]);
  }

  /** Positions that read the same now read the same for ever. */
  lemma {:induction false} SameWindows(ix: Index, pay: Payload, p: Pos, q: Pos, n: nat, k: nat)
    requires PosOk(ix, p) && PosOk(ix, q) && Same(pay, p, q)
    ensures Same(pay, After(ix, p, n, k), After(ix, q, n, k))
    ensures pay.AllTokens(Windows(ix, p, n, k)) == pay.AllTokens(Windows(ix, q, n, k))
    decreases k
  {
    if k == 0 {
    } else {
      SameNext(ix, pay, p, q, n);
      var p', q' := Next(ix, p, n), Next(ix, q, n);
      SameWindows(ix, pay, p', q', n, k - 1);
      AllTokensCons(pay, Window(ix, p, n), Windows(ix, p', n, k - 1));
      AllTokensCons(pay, Window(ix, q, n), Windows(ix, q', n, k - 1));
    }
  }

  lemma AllTokensCons(pay: Payload, w: seq<Cell>, ws: seq<seq<Cell>>)
    ensures pay.AllTokens([w] + ws) == [pay.Tokens(w)] + pay.AllTokens(ws)
  {}

  lemma AllTokensAppend(pay: Payload, x: seq<seq<Cell>>, y: seq<seq<Cell>>)
    ensures pay.AllTokens(x + y) == pay.AllTokens(x) + pay.AllTokens(y)
  {}

  /**
   Snapshot then resume is invisible: a stream rebuilt after j windows from the snapshot emits the
   windows the uninterrupted one emits, for any further number k.
  */
  lemma ResumeIsInvisible(ix: Index, pay: Payload, seeded: nat, p: Pos, n: nat, j: nat, k: nat)
    requires PosOk(ix, p)
    ensures var resumed := Resume(ix, seeded, Some(Snapshot(ix, pay, After(ix, p, n, j))));
            && PosOk(ix, resumed)
            && pay.AllTokens(Windows(ix, p, n, j + k))
                 == pay.AllTokens(Windows(ix, p, n, j)) + pay.AllTokens(Windows(ix, resumed, n, k))
            && Snapshot(ix, pay, After(ix, resumed, n, k)) == Snapshot(ix, pay, After(ix, p, n, j + k))
  {
    var mid := After(ix, p, n, j);
    var resumed := Resume(ix, seeded, Some(Snapshot(ix, pay, mid)));
    ResumeSnapshot(ix, pay, seeded, mid);
    SameWindows(ix, pay, resumed, mid, n, k);
    AfterCompose(ix, p, n, j, k);
    WindowsCompose(ix, p, n, j, k);
    AllTokensAppend(pay, Windows(ix, p, n, j), Windows(ix, mid, n, k));
  }

  // ----- the documents an interval reads ----------------------------------------------------------

  /** The documents drawn to fill one window, in order. */
  function FillDocs(ix: Index, p: Pos, n: nat): (d: seq<(nat, Ref)>)
    requires PosOk(ix, p)
    ensures forall i :: 0 <= i < |d| ==> d[i].0 < |ix.sources|
    decreases n - |p.cells|
  {
    if |p.cells| >= n then [] else [Drawn(ix, p)] + FillDocs(ix, Refill(ix, p), n)
  }

  /** The (source, shard) pairs of some documents. */
  function ShardsOf(docs: seq<(nat, Ref)>): set<(nat, nat)> {
    if docs == [] then {} else ShardsOf(docs[..|docs| - 1]) + {(docs[|docs| - 1].0, docs[|docs| - 1].1.shard)}
  }

  lemma {:induction false} ShardsOfAppend(x: seq<(nat, Ref)>, y: seq<(nat, Ref)>)
    ensures ShardsOf(x + y) == ShardsOf(x) + ShardsOf(y)
  {
    if y == [] {
      assert x + y == x;
    } else {
      ShardsOfAppend(x, y[..|y| - 1]);
      assert (x + y)[..|x + y| - 1] == x + y[..|y| - 1];
    }
  }

  /** The (source, shard) pairs the refills of one window draw from. */
  function TouchedFill(ix: Index, p: Pos, n: nat): set<(nat, nat)>
    requires PosOk(ix, p)
  {
    ShardsOf(FillDocs(ix, p, n))
  }

  lemma TouchedCons(ix: Index, p: Pos, n: nat)
    requires PosOk(ix, p) && |p.cells| < n
    ensures TouchedFill(ix, p, n) == {(Drawn(ix, p).0, Drawn(ix, p).1.shard)} + TouchedFill(ix, Refill(ix, p), n)
  {
    ShardsOfAppend([Drawn(ix, p)], FillDocs(ix, Refill(ix, p), n));
    assert ShardsOf([Drawn(ix, p)]) == ShardsOf([]) + {(Drawn(ix, p).0, Drawn(ix, p).1.shard)};
  }

  /** The shards touched while k windows are produced; no payload is needed to compute it. */
  function Touched(ix: Index, p: Pos, n: nat, k: nat): set<(nat, nat)>
    requires PosOk(ix, p)
    decreases k
  {
    if k == 0 then {} else TouchedFill(ix, p, n) + Touched(ix, Next(ix, p, n), n, k - 1)
  }

  ghost predicate From(cells: seq<Cell>, t: set<(nat, nat)>) {
    forall i :: 0 <= i < |cells| && cells[i].Tok? ==> (cells[i].src, cells[i].ref.shard) in t
  }

  /** The payloads agree on the shards in t and on the separator. */
  ghost predicate Agree(pay: Payload, pay': Payload, t: set<(nat, nat)>) {
    && pay.eos == pay'.eos
    && forall src: nat, ref: Ref :: (src, ref.shard) in t ==> pay.doc(src, ref) == pay'.doc(src, ref)
  }

  lemma AgreeTokens(pay: Payload, pay': Payload, t: set<(nat, nat)>, cells: seq<Cell>)
    requires Agree(pay, pay', t) && From(cells, t)
    ensures pay.Tokens(cells) == pay'.Tokens(cells)
  {
    forall i | 0 <= i < |cells| ensures pay.Read(cells[i]) == pay'.Read(cells[i]) {}
  }

  lemma {:induction false} FillFrom(ix: Index, p: Pos, n: nat, t: set<(nat, nat)>)
    requires PosOk(ix, p) && From(p.cells, t) && TouchedFill(ix, p, n) <= t
    ensures From(Fill(ix, p, n).cells, t)
    decreases n - |p.cells|
  {
    if |p.cells| >= n {
    } else {
      TouchedCons(ix, p, n);
      FillFrom(ix, Refill(ix, p), n, t);
    }
  }

  /** What a full buffer comes from, its first window and the rest come from. */
  lemma WindowFrom(ix: Index, p: Pos, n: nat, t: set<(nat, nat)>)
    requires PosOk(ix, p) && From(Fill(ix, p, n).cells, t)
    ensures From(Window(ix, p, n), t) && From(Next(ix, p, n).cells, t)
  {
    hide Fill, PosOk;
  }

  lemma TouchedParts(ix: Index, p: Pos, n: nat, k: nat, t: set<(nat, nat)>)
    requires PosOk(ix, p) && k > 0 && Touched(ix, p, n, k) <= t
    ensures TouchedFill(ix, p, n) <= t && Touched(ix, Next(ix, p, n), n, k - 1) <= t
  {}

  lemma {:induction false} WindowsFrom(
    ix: Index, pay: Payload, pay': Payload, p: Pos, n: nat, k: nat, t: set<(nat, nat)>)
    requires PosOk(ix, p) && From(p.cells, t) && Touched(ix, p, n, k) <= t && Agree(pay, pay', t)
    ensures From(After(ix, p, n, k).cells, t)
    ensures pay.AllTokens(Windows(ix, p, n, k)) == pay'.AllTokens(Windows(ix, p, n, k))
    decreases k
  {
    hide Next, Window, PosOk, From, Agree, TouchedFill, Touched, Fill;
    if k == 0 {
    } else {
      TouchedParts(ix, p, n, k, t);
      FillFrom(ix, p, n, t);
      WindowFrom(ix, p, n, t);
      var p', w := Next(ix, p, n), Window(ix, p, n);
      AgreeTokens(pay, pay', t, w);
      WindowsFrom(ix, pay, pay', p', n, k - 1, t);
      AllTokensCons(pay, w, Windows(ix, p', n, k - 1));
      AllTokensCons(pay', w, Windows(ix, p', n, k - 1));
    }
  }

  /**
   The minimal fetch is sufficient: two corpora with the same index that agree on the shards the
   interval touches give the same windows and the same final state, from any saved state.
  */
  lemma FetchSuffices(ix: Index, pay: Payload, pay': Payload, seeded: nat, state: Option<StreamState>, n: nat, k: nat)
    requires ix.Valid()
    requires Agree(pay, pay', Touched(ix, Resume(ix, seeded, state), n, k))
    ensures var p := Resume(ix, seeded, state);
            && pay.AllTokens(Windows(ix, p, n, k)) == pay'.AllTokens(Windows(ix, p, n, k))
            && Snapshot(ix, pay, After(ix, p, n, k)) == Snapshot(ix, pay', After(ix, p, n, k))
  {
    var p := Resume(ix, seeded, state);
    var t := Touched(ix, p, n, k);
    WindowsFrom(ix, pay, pay', p, n, k, t);
    AgreeTokens(pay, pay', t, After(ix, p, n, k).cells);
  }
}
