/** The canonical stream as a plain token list cut into windows. */
module GlobalStream {
  import opened Wrappers
  import opened SourceWalker
  import opened StreamModel

  class GlobalStream {
    const ix: Index
    const pay: Payload
    const seqLen: nat
    var rng: nat
    var places: seq<Place>
    var buf: seq<int>
    var emitted: nat
    /** Where the stream is, with the origin of every buffered token. */
    ghost var pos: Pos

    ghost predicate Valid()
      reads this
    {
      && PosOk(ix, pos) && Fits(ix, pay)
      && rng == pos.rng && places == pos.places && emitted == pos.emitted
      && buf == pay.Tokens(pos.cells)
    }

    constructor (ix: Index, pay: Payload, seqLen: nat, seeded: nat, state: Option<StreamState>)
      requires ix.Valid() && Fits(ix, pay)
      ensures Valid() && pos == Resume(ix, seeded, state)
      ensures this.ix == ix && this.pay == pay && this.seqLen == seqLen
    {
      this.ix, this.pay, this.seqLen := ix, pay, seqLen;
      var p := Resume(ix, seeded, state);
      rng, places, emitted := p.rng, p.places, p.emitted;
      buf := if state.Some? then state.value.carryOver else [];
      pos := p;
    }

    /** `state`. */
    method State() returns (state: StreamState)
      requires Valid()
      ensures state == Snapshot(ix, pay, pos)
    {
      state := StreamState(
        ByName(ix, Consumed(places), |places|), ByName(ix, Epochs(places), |places|), Some(rng), buf, emitted);
    }

    /** `_refill`: appends the tokens of the next document and the separator. */
    method RefillBuf()
      requires Valid()
      modifies this`rng, this`places, this`buf, this`pos
      ensures Valid() && pos == Refill(ix, old(pos))
    {
      var src := ix.mix.pick(rng);
      var s := ix.sources[src];
      var ref := RefAt(s, places[src]);
      assert (src, ref) == Drawn(ix, pos);
      places := places[src := NextPlace(s.shuffle, s.Counts(), 0, 1, places[src])];
      rng := ix.mix.next(rng);
      buf := buf + pay.doc(src, ref) + [pay.eos];
      pos := Refill(ix, pos);
    }

    /** One turn of `__iter__`. */
    method NextWindow() returns (chunk: seq<int>)
      requires Valid()
      modifies this
      ensures Valid() && pos == Next(ix, old(pos), seqLen + 1)
      ensures chunk == pay.Tokens(Window(ix, old(pos), seqLen + 1))
    {
      var n := seqLen + 1;
      while |buf| < n
        invariant Valid() && Fill(ix, pos, n) == Fill(ix, old(pos), n) && emitted == old(emitted)
        decreases n - |buf|
      {
        RefillBuf();
      }
      chunk := buf[..n];
      buf := buf[n..];
      emitted := emitted + 1;
      pos := pos.(cells := pos.cells[n..], emitted := pos.emitted + 1);
    }
  }
}
