/**
 Which documents the canonical stream serves: their sources follow the mix generator draw by draw, their
 places follow each source's own walk, and no more of them are drawn than the windows need.
*/
module StreamOrder {
  import opened Arithmetic
  import opened Sequences
  import opened Wrappers
  import opened SourceWalker
  import opened StreamModel
  import DocMap

  /** The generator after i draws. */
  function Turned(mix: Mix, rng: nat, i: nat): nat {
    if i == 0 then rng else mix.next(Turned(mix, rng, i - 1))
  }

  lemma {:induction false} TurnedCompose(mix: Mix, rng: nat, i: nat, j: nat)
    ensures Turned(mix, Turned(mix, rng, i), j) == Turned(mix, rng, i + j)
  {
    if j == 0 {
    } else {
      TurnedCompose(mix, rng, i, j - 1);
      assert i + j - 1 == i + (j - 1);
    }
  }

  /** How many of these documents come from source s. */
  function DrawsOf(docs: seq<(nat, Ref)>, s: nat): nat {
    if docs == [] then 0
    else DrawsOf(docs[..|docs| - 1], s) + (if docs[|docs| - 1].0 == s then 1 else 0)
  }

  lemma {:induction false} DrawsOfAppend(a: seq<(nat, Ref)>, b: seq<(nat, Ref)>, s: nat)
    ensures DrawsOf(a + b, s) == DrawsOf(a, s) + DrawsOf(b, s)
  {
    if b == [] {
      assert a + b == a;
    } else {
      DrawsOfAppend(a, b[..|b| - 1], s);
      assert (a + b)[..|a + b| - 1] == a + b[..|b| - 1];
    }
  }

  /** Where the walk of source s stands m documents later. */
  function WalkOf(ix: Index, p: Pos, s: nat, m: nat): Place
    requires PosOk(ix, p) && s < |ix.sources|
  {
    Walked(ix.sources[s].shuffle, ix.sources[s].Counts(), 0, 1, p.places[s], m)
  }

  lemma {:induction false} WalkedCompose(
    sh: Shuffle, counts: seq<nat>, rank: nat, ws: nat, w: Place, i: nat, j: nat)
    requires Shuffles(sh, counts)
    ensures Walked(sh, counts, rank, ws, Walked(sh, counts, rank, ws, w, i), j)
         == Walked(sh, counts, rank, ws, w, i + j)
  {
    hide NextPlace, Shuffles;
    if j == 0 {
    } else {
      WalkedCompose(sh, counts, rank, ws, w, i, j - 1);
      assert i + j - 1 == i + (j - 1);
    }
  }

  /** The document drawn after `before`: the generator's pick, and that source's next one. */
  function DrawnAfter(ix: Index, p: Pos, before: seq<(nat, Ref)>): (nat, Ref)
    requires PosOk(ix, p)
  {
    var s := ix.mix.pick(Turned(ix.mix, p.rng, |before|));
    (s, RefAt(ix.sources[s], WalkOf(ix, p, s, DrawsOf(before, s))))
  }

  /** These documents are drawn from p on, each as the generator and its source's walk say, and q is left. */
  ghost predicate Follows(ix: Index, p: Pos, docs: seq<(nat, Ref)>, q: Pos)
    requires PosOk(ix, p) && PosOk(ix, q)
  {
    && (forall i :: 0 <= i < |docs| ==> docs[i] == DrawnAfter(ix, p, docs[..i]))
    && q.rng == Turned(ix.mix, p.rng, |docs|)
    && forall s: nat :: s < |ix.sources| ==> q.places[s] == WalkOf(ix, p, s, DrawsOf(docs, s))
  }

  lemma FollowsNothing(ix: Index, p: Pos, q: Pos)
    requires PosOk(ix, p) && PosOk(ix, q) && q.rng == p.rng && q.places == p.places
    ensures Follows(ix, p, [], q)
  {}

  lemma FollowsRefill(ix: Index, p: Pos)
    requires PosOk(ix, p)
    ensures Follows(ix, p, [Drawn(ix, p)], Refill(ix, p))
  {
    var docs, s := [Drawn(ix, p)], ix.mix.pick(p.rng);
    assert docs[..0] == [] && DrawsOf([], s) == 0;
    assert Turned(ix.mix, p.rng, 0) == p.rng;
    forall t: nat | t < |ix.sources| ensures Refill(ix, p).places[t] == WalkOf(ix, p, t, DrawsOf(docs, t)) {
      assert DrawsOf(docs, t) == DrawsOf(docs[..0], t) + (if t == s then 1 else 0);
      assert WalkOf(ix, p, t, 0) == p.places[t];
    }
  }

  lemma FollowsAppend(ix: Index, p: Pos, a: seq<(nat, Ref)>, q: Pos, b: seq<(nat, Ref)>, r: Pos)
    requires PosOk(ix, p) && PosOk(ix, q) && PosOk(ix, r) && Follows(ix, p, a, q) && Follows(ix, q, b, r)
    ensures Follows(ix, p, a + b, r)
  {
    hide RefAt, WalkOf, DrawnAfter, DrawsOf, Turned;
    forall i | 0 <= i < |a + b| ensures (a + b)[i] == DrawnAfter(ix, p, (a + b)[..i]) {
      if i < |a| {
        assert (a + b)[..i] == a[..i];
      } else {
        assert (a + b)[..i] == a + b[..i - |a|];
        DrawnLater(ix, p, a, q, b[..i - |a|]);
      }
    }
    TurnedCompose(ix.mix, p.rng, |a|, |b|);
    forall s: nat | s < |ix.sources| ensures r.places[s] == WalkOf(ix, p, s, DrawsOf(a + b, s)) {
      WalkLater(ix, p, a, q, b, s);
    }
  }

  lemma DrawnLater(ix: Index, p: Pos, a: seq<(nat, Ref)>, q: Pos, b: seq<(nat, Ref)>)
    requires PosOk(ix, p) && PosOk(ix, q) && Follows(ix, p, a, q)
    ensures DrawnAfter(ix, q, b) == DrawnAfter(ix, p, a + b)
  {
    hide Follows, Turned, WalkOf, RefAt, DrawsOf;
    var s := ix.mix.pick(Turned(ix.mix, q.rng, |b|));
    FollowsLeaves(ix, p, a, q, s);
    TurnedCompose(ix.mix, p.rng, |a|, |b|);
    WalkLater(ix, p, a, q, b, s);
  }

  lemma FollowsLeaves(ix: Index, p: Pos, docs: seq<(nat, Ref)>, q: Pos, s: nat)
    requires PosOk(ix, p) && PosOk(ix, q) && Follows(ix, p, docs, q) && s < |ix.sources|
    ensures q.rng == Turned(ix.mix, p.rng, |docs|) && q.places[s] == WalkOf(ix, p, s, DrawsOf(docs, s))
  {
    hide DrawnAfter, Turned, WalkOf, DrawsOf;
  }

  lemma WalkLater(ix: Index, p: Pos, a: seq<(nat, Ref)>, q: Pos, b: seq<(nat, Ref)>, s: nat)
    requires PosOk(ix, p) && PosOk(ix, q) && Follows(ix, p, a, q) && s < |ix.sources|
    ensures WalkOf(ix, q, s, DrawsOf(b, s)) == WalkOf(ix, p, s, DrawsOf(a + b, s))
  {
    hide Follows, Turned, DrawsOf, Walked;
    FollowsLeaves(ix, p, a, q, s);
    DrawsOfAppend(a, b, s);
    WalkedCompose(ix.sources[s].shuffle, ix.sources[s].Counts(), 0, 1, p.places[s], DrawsOf(a, s), DrawsOf(b, s));
  }

  lemma {:induction false} FillFollows(ix: Index, p: Pos, n: nat)
    requires PosOk(ix, p)
    ensures Follows(ix, p, FillDocs(ix, p, n), Fill(ix, p, n))
    decreases n - |p.cells|
  {
    hide Follows, PosOk;
    if |p.cells| >= n {
      FollowsNothing(ix, p, p);
    } else {
      FollowsRefill(ix, p);
      FillFollows(ix, Refill(ix, p), n);
      FollowsAppend(ix, p, [Drawn(ix, p)], Refill(ix, p), FillDocs(ix, Refill(ix, p), n), Fill(ix, p, n));
    }
  }

  /** A window is cut off without a draw. */
  lemma NextFollows(ix: Index, p: Pos, n: nat)
    requires PosOk(ix, p)
    ensures Follows(ix, p, FillDocs(ix, p, n), Next(ix, p, n))
  {
    hide PosOk, Fill;
    FillFollows(ix, p, n);
  }

  /**
   The stream's documents, draw by draw: document i comes from the source the generator picks after i
   draws, and is the one that source's walk serves after as many steps as earlier draws named the source.
   The position left has made that many draws and those steps.
  */
  lemma {:induction false} StreamFollows(ix: Index, p: Pos, n: nat, k: nat)
    requires PosOk(ix, p)
    ensures Follows(ix, p, DocMap.StreamDocs(ix, p, n, k), After(ix, p, n, k))
    decreases k
  {
    hide Follows, PosOk, Next, FillDocs;
    if k == 0 {
      FollowsNothing(ix, p, p);
    } else {
      NextFollows(ix, p, n);
      StreamFollows(ix, Next(ix, p, n), n, k - 1);
      var q := Next(ix, p, n);
      FollowsAppend(ix, p, FillDocs(ix, p, n), q, DocMap.StreamDocs(ix, q, n, k - 1), After(ix, p, n, k));
    }
  }

  // ----- no more than needed ------------------------------------------------------------------------

  lemma {:induction false} WholeDocsFit(ix: Index, docs: seq<(nat, Ref)>)
    requires forall i :: 0 <= i < |docs| ==> docs[i].0 < |ix.sources|
    ensures |DocMap.WholeDocs(ix, docs)| == DocsLength(ix, docs)
  {
    if docs == [] {
    } else {
      var init, last := docs[..|docs| - 1], docs[|docs| - 1];
      WholeDocsFit(ix, init);
      DocMap.WholeDocsAppend(ix, init, [last]);
      DocMap.WholeDocsCons(ix, last, []);
      assert docs == init + [last] && [last] + [] == [last];
    }
  }

  /** The cells these documents fill: their tokens, and one separator each. */
  function DocsLength(ix: Index, docs: seq<(nat, Ref)>): nat
    requires forall i :: 0 <= i < |docs| ==> docs[i].0 < |ix.sources|
  {
    if docs == [] then 0
    else
      var (src, ref) := docs[|docs| - 1];
      DocsLength(ix, docs[..|docs| - 1]) + ix.sources[src].Length(ref) + 1
  }

  lemma DocsLengthAppend(ix: Index, a: seq<(nat, Ref)>, b: seq<(nat, Ref)>)
    requires forall i :: 0 <= i < |a| ==> a[i].0 < |ix.sources|
    requires forall i :: 0 <= i < |b| ==> b[i].0 < |ix.sources|
    ensures forall i :: 0 <= i < |a + b| ==> (a + b)[i].0 < |ix.sources|
    ensures DocsLength(ix, a + b) == DocsLength(ix, a) + DocsLength(ix, b)
  {
    DocMap.WholeDocsAppend(ix, a, b);
    WholeDocsFit(ix, a);
    WholeDocsFit(ix, b);
    WholeDocsFit(ix, a + b);
  }

  /** These documents reach n cells, and without the last of them they do not. */
  ghost predicate Reach(ix: Index, docs: seq<(nat, Ref)>, held: nat, n: nat)
    requires forall i :: 0 <= i < |docs| ==> docs[i].0 < |ix.sources|
  {
    && held + DocsLength(ix, docs) >= n
    && (docs != [] ==> held + DocsLength(ix, docs[..|docs| - 1]) < n)
  }

  lemma {:induction false} FillReaches(ix: Index, p: Pos, n: nat)
    requires PosOk(ix, p)
    ensures Reach(ix, FillDocs(ix, p, n), |p.cells|, n)
    ensures |Fill(ix, p, n).cells| == |p.cells| + DocsLength(ix, FillDocs(ix, p, n))
    decreases n - |p.cells|
  {
    hide DocsLength, PosOk, DocMap.WholeDocs;
    NoDocsLength(ix);
    DocMap.FillTiles(ix, p, n);
    WholeDocsFit(ix, FillDocs(ix, p, n));
    if |p.cells| < n {
      var q, d := Refill(ix, p), Drawn(ix, p);
      var rest := FillDocs(ix, q, n);
      DocMap.RefillAdds(ix, p);
      FillReaches(ix, q, n);
      DocMap.FillTiles(ix, q, n);
      WholeDocsFit(ix, rest);
      var docs := [d] + rest;
      if rest == [] {
        assert docs[..|docs| - 1] == [];
      } else {
        assert docs[..|docs| - 1] == [d] + rest[..|rest| - 1];
        DocsLengthAppend(ix, [d], rest[..|rest| - 1]);
        DocsLengthAppend(ix, [d], rest);
      }
    }
  }

  lemma NoDocsLength(ix: Index)
    ensures DocsLength(ix, []) == 0
  {}

  /**
   No document is drawn before it is needed: for k windows of n cells the drawn documents, behind what was
   buffered, reach n * k cells, and without the last of them they do not.
  */
  lemma {:induction false} DrawsNoMore(ix: Index, p: Pos, n: nat, k: nat)
    requires PosOk(ix, p)
    ensures Reach(ix, DocMap.StreamDocs(ix, p, n, k), |p.cells|, n * k)
    decreases k
  {
    hide DocsLength, PosOk, FillDocs, Fill;
    NoDocsLength(ix);
    if k == 0 {
    } else {
      var q, first := Next(ix, p, n), FillDocs(ix, p, n);
      var rest := DocMap.StreamDocs(ix, q, n, k - 1);
      FillReaches(ix, p, n);
      DrawsNoMore(ix, q, n, k - 1);
      assert n * k == n + n * (k - 1);
      DocsLengthAppend(ix, first, rest);
      if rest == [] {
        assert first + rest == first;
      } else {
        assert (first + rest)[..|first + rest| - 1] == first + rest[..|rest| - 1];
        DocsLengthAppend(ix, first, rest[..|rest| - 1]);
      }
    }
  }

  // ----- what the windows read ------------------------------------------------------------------------

  /** The tokens of these documents, each document followed by the separator. */
  function DocTokens(pay: Payload, docs: seq<(nat, Ref)>): seq<int> {
    if docs == [] then []
    else
      var (src, ref) := docs[|docs| - 1];
      DocTokens(pay, docs[..|docs| - 1]) + pay.doc(src, ref) + [pay.eos]
  }

  lemma {:induction false} WholeDocsRead(ix: Index, pay: Payload, docs: seq<(nat, Ref)>)
    requires Fits(ix, pay) && forall i :: 0 <= i < |docs| ==> docs[i].0 < |ix.sources|
    ensures pay.Tokens(DocMap.WholeDocs(ix, docs)) == DocTokens(pay, docs)
  {
    if docs == [] {
    } else {
      var init, last := docs[..|docs| - 1], docs[|docs| - 1];
      WholeDocsRead(ix, pay, init);
      WholeReads(ix, pay, last);
      DocMap.WholeDocsAppend(ix, init, [last]);
      DocMap.WholeDocsCons(ix, last, []);
      assert docs == init + [last] && [last] + [] == [last];
      TokensConcat(pay, DocMap.WholeDocs(ix, init), DocMap.Whole(ix, last));
      assert DocMap.Whole(ix, last) + DocMap.WholeDocs(ix, []) == DocMap.Whole(ix, last);
    }
  }

  lemma WholeReads(ix: Index, pay: Payload, d: (nat, Ref))
    requires Fits(ix, pay) && d.0 < |ix.sources|
    ensures pay.Tokens(DocMap.Whole(ix, d)) == pay.doc(d.0, d.1) + [pay.eos]
  {}

  lemma TokensConcat(pay: Payload, x: seq<Cell>, y: seq<Cell>)
    ensures pay.Tokens(x + y) == pay.Tokens(x) + pay.Tokens(y)
  {}

  lemma {:induction false} AllTokensFlat(pay: Payload, ws: seq<seq<Cell>>)
    ensures Flat(pay.AllTokens(ws)) == pay.Tokens(Flat(ws))
  {
    if ws == [] {
    } else {
      AllTokensFlat(pay, ws[..|ws| - 1]);
      assert pay.AllTokens(ws)[..|ws| - 1] == pay.AllTokens(ws[..|ws| - 1]);
    }
  }

  /**
   What the stream reads: the windows end to end, and then the buffer, are the tokens buffered before and
   then every drawn document's tokens, each document followed by the separator token.
  */
  lemma StreamReads(ix: Index, pay: Payload, p: Pos, n: nat, k: nat)
    requires PosOk(ix, p) && Fits(ix, pay)
    ensures Flat(pay.AllTokens(Windows(ix, p, n, k))) + pay.Tokens(After(ix, p, n, k).cells)
         == pay.Tokens(p.cells) + DocTokens(pay, DocMap.StreamDocs(ix, p, n, k))
  {
    hide Windows, After, DocMap.StreamDocs, DocMap.WholeDocs, DocTokens, PosOk, Fits;
    var docs := DocMap.StreamDocs(ix, p, n, k);
    DocMap.StreamTiles(ix, p, n, k);
    AllTokensFlat(pay, Windows(ix, p, n, k));
    TokensConcat(pay, Flat(Windows(ix, p, n, k)), After(ix, p, n, k).cells);
    TokensConcat(pay, p.cells, DocMap.WholeDocs(ix, docs));
    WholeDocsRead(ix, pay, docs);
  }

  // ----- the touched shards -------------------------------------------------------------------------

  lemma {:induction false} ShardsOfMembers(docs: seq<(nat, Ref)>, t: (nat, nat))
    ensures t in ShardsOf(docs) <==> exists d :: d in docs && t == (d.0, d.1.shard)
  {
    if docs == [] {
    } else {
      var init, last := docs[..|docs| - 1], docs[|docs| - 1];
      ShardsOfMembers(init, t);
      assert docs == init + [last];
    }
  }

  /** The shards touched are those of the documents drawn, and no others. */
  lemma {:induction false} TouchedIsDrawn(ix: Index, p: Pos, n: nat, k: nat, t: (nat, nat))
    requires PosOk(ix, p)
    ensures t in Touched(ix, p, n, k) <==> exists d :: d in DocMap.StreamDocs(ix, p, n, k) && t == (d.0, d.1.shard)
    decreases k
  {
    hide PosOk, Next, ShardsOf, FillDocs;
    if k == 0 {
    } else {
      TouchedIsDrawn(ix, Next(ix, p, n), n, k - 1, t);
      ShardsOfMembers(FillDocs(ix, p, n), t);
    }
  }

  // ----- a fresh stream -----------------------------------------------------------------------------

  lemma OnePerStep(total: nat)
    requires total > 0
    ensures PerEpoch(total, 0, 1) == total
  {}

  /**
   A fresh stream, from the shuffles alone. Document i comes from the source s the generator picks after i
   draws. With m earlier draws from s, it lies in epoch e of s, where m is e times the source's documents
   plus c; and if entry c of that epoch is the b-th of its a-th shard, it is entry b of that epoch's
   shuffle of that shard.
  */
  lemma FreshStream(
    ix: Index, seeded: nat, n: nat, k: nat, i: nat, s: nat, e: nat, c: nat, order: seq<nat>, a: nat, b: nat)
    requires ix.Valid() && i < |DocMap.StreamDocs(ix, Resume(ix, seeded, None), n, k)|
    requires s == ix.mix.pick(Turned(ix.mix, seeded, i))
    requires var sh, counts := ix.sources[s].shuffle, ix.sources[s].Counts();
             var m := DrawsOf(DocMap.StreamDocs(ix, Resume(ix, seeded, None), n, k)[..i], s);
             && c < Total(counts) && m == e * Total(counts) + c
             && order == sh.shards(e) && (forall x :: 0 <= x < |order| ==> order[x] < |counts|)
             && a < |order| && b < counts[order[a]] && c == DocsBefore(counts, order, a) + b
    ensures Resume(ix, seeded, None).cells == [] && Resume(ix, seeded, None).emitted == 0
    ensures var sh := ix.sources[s].shuffle;
            && b < |sh.docs(e, order[a])|
            && DocMap.StreamDocs(ix, Resume(ix, seeded, None), n, k)[i] == (s, Ref(order[a], sh.docs(e, order[a])[b]))
  {
    hide DocMap.StreamDocs, After, Walked, NextDoc, RefOf, DrawsOf, PerEpoch, Turned;
    var p := Resume(ix, seeded, None);
    var docs := DocMap.StreamDocs(ix, p, n, k);
    var sh, counts := ix.sources[s].shuffle, ix.sources[s].Counts();
    StreamFollows(ix, p, n, k);
    assert docs[i] == DrawnAfter(ix, p, docs[..i]);
    assert p.places[s] == Place(0, 0);
    OnePerStep(Total(counts));
    WalkServes(sh, counts, 0, 1, 0, e, c, DrawsOf(docs[..i], s), order, a, b);
  }

  /** A resumed stream takes every source up where the state says, and a source the state does not name anew. */
  lemma ResumePlaces(ix: Index, seeded: nat, state: StreamState, i: nat)
    requires ix.Valid() && i < |ix.sources|
    ensures var p, name := Resume(ix, seeded, Some(state)), ix.sources[i].name;
            && p.emitted == state.emitted && |p.cells| == |state.carryOver|
            && (forall j :: 0 <= j < |p.cells| ==> p.cells[j] == Lit(state.carryOver[j]))
            && (state.rng.Some? ==> p.rng == state.rng.value) && (state.rng.None? ==> p.rng == seeded)
            && (name in state.consumed ==> p.places[i].consumed == state.consumed[name])
            && (name !in state.consumed ==> p.places[i].consumed == 0)
            && (name in state.epochs ==> p.places[i].epoch == state.epochs[name])
            && (name !in state.epochs ==> p.places[i].epoch == 0)
  {}

  /** A saved state names, for every source, what its walk has consumed in which epoch, and nothing else. */
  lemma SnapshotNames(ix: Index, pay: Payload, p: Pos, i: nat)
    requires PosOk(ix, p) && i < |ix.sources|
    ensures var saved, name := Snapshot(ix, pay, p), ix.sources[i].name;
            && name in saved.consumed && saved.consumed[name] == p.places[i].consumed
            && name in saved.epochs && saved.epochs[name] == p.places[i].epoch
            && saved.rng == Some(p.rng) && saved.emitted == p.emitted && saved.carryOver == pay.Tokens(p.cells)
  {
    ByNameGets(ix, Consumed(p.places), |p.places|, i);
    ByNameGets(ix, Epochs(p.places), |p.places|, i);
  }
}
