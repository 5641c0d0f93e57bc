/**
 The ordered-window drain of the concurrent fetch loops: fetches complete in any order, lines are
 written in submission order.
*/
module OrderedDrain {

  /** The lines of all items, in order. */
  function AllLines<I, T>(fetch: I -> seq<T>, items: seq<I>): seq<T> {
    if items == [] then [] else AllLines(fetch, items[..|items| - 1]) + fetch(items[|items| - 1])
  }

  /** The first n of these lines, or all of them when there are fewer. */
  ghost predicate First<T>(out: seq<T>, all: seq<T>, n: int) {
    out <= all && |out| == if |all| < n then |all| else n
  }

  /** More items only add lines at the end. */
  lemma {:induction false} LinesGrow<I, T>(fetch: I -> seq<T>, items: seq<I>, k: nat)
    requires k <= |items|
    ensures AllLines(fetch, items[..k]) <= AllLines(fetch, items)
  {
    var m := |items| - 1;
    if k <= m {
      LinesGrow(fetch, items[..m], k);
      assert items[..m][..k] == items[..k];
    } else {
      assert items[..k] == items;
    }
  }

  lemma NextLines<I, T>(fetch: I -> seq<T>, items: seq<I>, k: nat)
    requires k < |items|
    ensures AllLines(fetch, items[..k + 1]) == AllLines(fetch, items[..k]) + fetch(items[k])
  {
    assert items[..k + 1][..k] == items[..k];
  }

  /** A future: the item it fetches and the submission it came from. */
  datatype Future<I> = Future(item: I, serial: nat)

  class Drain<I(==), T> {
    const fetch: I -> seq<T>
    const limit: int
    const maxInflight: nat
    var futToIdx: map<Future<I>, nat>
    var pending: map<nat, seq<T>>
    var nextSubmit: nat
    var nextWrite: nat
    var out: seq<T>
    /** The items submitted so far. */
    ghost var items: seq<I>

    constructor (fetch: I -> seq<T>, limit: int, maxInflight: nat)
      requires maxInflight >= 1
      ensures this.fetch == fetch && this.limit == limit && this.maxInflight == maxInflight
      ensures Valid() && items == [] && out == []
    {
      this.fetch, this.limit, this.maxInflight := fetch, limit, maxInflight;
      futToIdx, pending, nextSubmit, nextWrite, out, items := map[], map[], 0, 0, [], [];
    }

    /** A future in flight is tagged with its submission, and fetches what was submitted then. */
    ghost predicate Flying()
      reads this`futToIdx, this`items
    {
      forall f :: f in futToIdx ==> futToIdx[f] == f.serial < |items| && f.item == items[f.serial]
    }

    /** What waits to be written is what was fetched. */
    ghost predicate Fetched()
      reads this`pending, this`items
    {
      forall i :: i in pending ==> i < |items| && pending[i] == fetch(items[i])
    }

    ghost predicate InFlight(i: nat)
      requires i < |items|
      reads this`futToIdx, this`items
    {
      Future(items[i], i) in futToIdx
    }

    /** Every submitted, unwritten index is either in flight or waiting, and not both. */
    ghost predicate Covers()
      reads this`pending, this`futToIdx, this`items, this`nextWrite
    {
      forall i: nat :: i < |items| ==>
        && (InFlight(i) ==> i !in pending)
        && (nextWrite <= i <==> i in pending || InFlight(i))
    }

    ghost predicate Valid()
      reads this`pending, this`futToIdx, this`items, this`nextWrite, this`nextSubmit
    {
      && nextSubmit == |items| && nextWrite <= nextSubmit && maxInflight >= 1
      && Flying() && Fetched() && Covers()
      && |futToIdx| <= maxInflight
    }

    /** Everything written so far is the lines of the indices before nextWrite. */
    ghost predicate Open()
      requires nextWrite <= |items|
      reads this
    {
      out == AllLines(fetch, items[..nextWrite]) && (out == [] || |out| < limit)
    }

    /** The limit is reached. */
    ghost predicate Closed()
      reads this
    {
      && out <= AllLines(fetch, items)
      && |out| == if limit < 1 then 1 else limit
    }

    method Submit(item: I)
      requires Valid() && |futToIdx| < maxInflight
      modifies this`futToIdx, this`nextSubmit, this`items
      ensures Valid() && items == old(items) + [item]
    {
      futToIdx := futToIdx[Future(item, nextSubmit) := nextSubmit];
      items := items + [item];
      nextSubmit := nextSubmit + 1;
    }

    /** `wait` returns any nonempty set of the outstanding futures. */
    method Wait(futures: set<Future<I>>) returns (done: set<Future<I>>)
      requires futures != {}
      ensures done != {} && done <= futures
    {
      done :| done != {} && done <= futures;
    }

    method HarvestOne(f: Future<I>)
      requires Valid() && f in futToIdx
      modifies this`futToIdx, this`pending
      ensures Valid() && futToIdx.Keys == old(futToIdx.Keys) - {f}
    {
      var idx := futToIdx[f];
      futToIdx := futToIdx - {f};
      pending := pending[idx := fetch(f.item)];
    }

    method Harvest(done: set<Future<I>>)
      requires Valid() && done <= futToIdx.Keys
      modifies this`futToIdx, this`pending
      ensures Valid() && futToIdx.Keys == old(futToIdx.Keys) - done
    {
      var rest := done;
      while rest != {}
        invariant Valid() && rest <= done && futToIdx.Keys == old(futToIdx.Keys) - (done - rest)
        decreases |rest|
      {
        var f :| f in rest;
        LeftAfter(old(futToIdx.Keys), done, rest, f);
        HarvestOne(f);
        rest := rest - {f};
      }
    }

    method WaitAndHarvest()
      requires Valid() && |futToIdx| > 0
      modifies this`futToIdx, this`pending
      ensures Valid() && |futToIdx| < old(|futToIdx|)
    {
      var done := Wait(futToIdx.Keys);
      Fewer(futToIdx.Keys, done);
      Harvest(done);
    }

    /** Writes lines until the limit; the result says whether the limit was reached. */
    method WriteLines(lines: seq<T>) returns (stop: bool)
      modifies this`out
      ensures stop ==> out <= old(out) + lines && |out| > |old(out)| && |out| >= limit
      ensures stop ==> |out| == |old(out)| + 1 || |out| == limit
      ensures !stop ==> out == old(out) + lines && (lines == [] || |out| < limit)
    {
      for i := 0 to |lines|
        invariant out == old(out) + lines[..i] && (i == 0 || |out| < limit)
      {
        out := out + [lines[i]];
        assert old(out) + lines[..i + 1] <= old(out) + lines;
        if |out| >= limit {
          return true;
        }
      }
      return false;
    }

    /** Writes what is ready in order; nothing ready is left unless the limit is reached. */
    method DrainPending() returns (stop: bool)
      requires Valid() && Open()
      modifies this`pending, this`nextWrite, this`out
      ensures Valid() && futToIdx == old(futToIdx)
      ensures stop ==> Closed()
      ensures !stop ==> Open() && nextWrite !in pending
    {
      stop := false;
      while nextWrite in pending && !stop
        invariant Valid()
        invariant stop ==> Closed()
        invariant !stop ==> Open()
        decreases nextSubmit - nextWrite
      {
        stop := WriteNext();
      }
    }

    method WriteNext() returns (stop: bool)
      requires Valid() && Open() && nextWrite in pending
      modifies this`pending, this`nextWrite, this`out
      ensures Valid() && nextWrite == old(nextWrite) + 1
      ensures stop ==> Closed()
      ensures !stop ==> Open()
    {
      NextLines(fetch, items, nextWrite);
      LinesGrow(fetch, items, nextWrite + 1);
      var lines := pending[nextWrite];
      Advance();
      stop := WriteLines(lines);
    }

    method Advance()
      requires Valid() && nextWrite in pending
      modifies this`pending, this`nextWrite
      ensures Valid() && nextWrite == old(nextWrite) + 1
    {
      pending := pending - {nextWrite};
      nextWrite := nextWrite + 1;
    }

    /** One turn of the submission loop; the result says whether the limit was reached. */
    method SubmitNext(item: I) returns (stop: bool)
      requires Valid() && Open() && nextWrite !in pending && |futToIdx| < maxInflight
      modifies this
      ensures Valid() && items == old(items) + [item]
      ensures stop ==> Closed()
      ensures !stop ==> Open() && nextWrite !in pending && |futToIdx| < maxInflight
    {
      hide Flying, Fetched, Covers, AllLines;
      assert (items + [item])[..nextWrite] == items[..nextWrite];
      Submit(item);
      stop := false;
      if |futToIdx| >= maxInflight {
        WaitAndHarvest();
        stop := DrainPending();
      }
    }

    /**
     The whole loop: with a limit of at least one, it writes exactly the first `limit` lines of the
     items in submission order, or all of them when there are fewer, whatever the pool does.
    */
    method Pull(work: seq<I>)
      requires Valid() && items == [] && out == []
      modifies this
      ensures limit >= 1 ==> First(out, AllLines(fetch, work), limit)
      ensures limit < 1 ==> out <= AllLines(fetch, work) && |out| <= 1
      ensures |futToIdx| <= maxInflight
    {
      hide Flying, Fetched, Covers, AllLines, First;
      var stop := false;
      var i := 0;
      Idle();
      while i < |work| && !stop
        invariant i <= |work| && Valid() && items == work[..i]
        invariant stop ==> Closed()
        invariant !stop ==> Open() && nextWrite !in pending && |futToIdx| < maxInflight
        decreases |work| - i
      {
        stop := SubmitNext(work[i]);
        i := i + 1;
      }
      if !stop && |out| < limit && |futToIdx| > 0 {
        stop := HarvestRest();
      }
      Conclude(work, i, stop);
    }

    lemma Idle()
      requires Valid() && items == [] && out == []
      ensures Open() && nextWrite !in pending && |futToIdx| == 0
    {
      assert items[..nextWrite] == [];
    }

    /** `as_completed`: the rest one by one, in any order. */
    method HarvestRest() returns (stop: bool)
      requires Valid() && Open() && nextWrite !in pending
      modifies this`futToIdx, this`pending, this`nextWrite, this`out
      ensures Valid()
      ensures stop ==> Closed()
      ensures !stop ==> Open() && nextWrite !in pending && |futToIdx| == 0
    {
      var rest := futToIdx.Keys;
      stop := false;
      while rest != {} && !stop
        invariant Valid() && rest == futToIdx.Keys
        invariant stop ==> Closed()
        invariant !stop ==> Open() && nextWrite !in pending
        decreases |rest|
      {
        var f :| f in rest;
        Harvest({f});
        rest := rest - {f};
        stop := DrainPending();
      }
    }

    lemma Conclude(work: seq<I>, i: nat, stop: bool)
      requires Valid() && i <= |work| && items == work[..i]
      requires stop ==> Closed()
      requires !stop ==> i == |work| && Open() && nextWrite !in pending
      requires !stop ==> |out| >= limit || |futToIdx| == 0
      ensures limit >= 1 ==> First(out, AllLines(fetch, work), limit)
      ensures limit < 1 ==> out <= AllLines(fetch, work) && |out| <= 1
    {
      LinesGrow(fetch, work, i);
      if !stop {
        assert items == work;
        LinesGrow(fetch, work, nextWrite);
        if |futToIdx| == 0 {
          assert nextWrite == nextSubmit;
          assert items[..nextWrite] == items;
        }
      }
    }
  }

  lemma LeftAfter<F>(all: set<F>, done: set<F>, rest: set<F>, f: F)
    requires f in rest && rest <= done <= all
    ensures f in all - (done - rest)
    ensures all - (done - rest) - {f} == all - (done - (rest - {f}))
  {}

  lemma Fewer<F>(all: set<F>, some: set<F>)
    requires some <= all && some != {}
    ensures |all - some| < |all|
  {
    assert (all - some) + some == all;
  }
}
