/** N workers read one newline-delimited file by byte range, and together emit each line once. */
module LineSplit {
  import opened Wrappers
  import opened Arithmetic
  import opened Bytes
  import opened Sequences

  const NEWLINE: Byte := 10

  /** Where `readline` from p stops: after the next newline, or at the end of the file. */
  function EndOfLine(d: seq<Byte>, p: nat): (q: nat)
    requires p <= |d|
    ensures p <= q <= |d| && (p < |d| ==> p < q)
    ensures q < |d| ==> q > p && d[q - 1] == NEWLINE
    decreases |d| - p
  {
    if p == |d| then p else if d[p] == NEWLINE then p + 1 else EndOfLine(d, p + 1)
  }

  lemma {:induction false} EndAscends(d: seq<Byte>, p: nat, x: nat)
    requires p <= x < |d|
    ensures EndOfLine(d, p) <= EndOfLine(d, x)
    decreases x - p
  {
    if p >= x {
    } else {
      EndAscends(d, p + 1, x);
    }
  }

  predicate LineStart(d: seq<Byte>, s: nat) {
    s < |d| && (s == 0 || d[s - 1] == NEWLINE)
  }

  /** Where a worker whose range starts at `from` begins: at its first line start. */
  function FirstLine(d: seq<Byte>, from: nat): (p: nat)
    requires from <= |d|
    ensures from <= p <= |d|
  {
    if from == 0 || d[from - 1] == NEWLINE then from else EndOfLine(d, from)
  }

  /** No line starts between `from` and the first line. */
  lemma FirstIsLeast(d: seq<Byte>, from: nat, p: nat)
    requires from <= |d| && LineStart(d, p)
    ensures p < from ==> EndOfLine(d, p) <= FirstLine(d, from)
    ensures p >= from ==> p >= FirstLine(d, from)
  {
    if p < from {
      EndAscends(d, p, from - 1);
    } else if 0 < from {
      if p > 0 {
        EndAscends(d, from - 1, p - 1);
      }
    }
  }

  /** The starts of the lines read from p while the cursor is before end. */
  function Starts(d: seq<Byte>, p: nat, end: nat): seq<nat>
    requires p <= |d| && end <= |d|
    decreases |d| - p
  {
    if p < end then [p] + Starts(d, EndOfLine(d, p), end) else []
  }

  function Bound(size: nat, k: nat, n: nat): nat
    requires n > 0
  {
    size * k / n
  }

  lemma BoundsAscend(size: nat, k: nat, n: nat)
    requires n > 0 && k < n
    ensures Bound(size, k, n) <= Bound(size, k + 1, n) <= size
    ensures Bound(size, 0, n) == 0 && Bound(size, n, n) == size
  {
    DivAscends(size * k, size * (k + 1), n);
    MulMono(k + 1, n, size);
    DivAscends(size * (k + 1), size * n, n);
    DivModUnique(size * n, n, size, 0);
    DivModUnique(size * 0, n, 0, 0);
  }

  lemma DivAscends(x: nat, y: nat, n: nat)
    requires n > 0 && x <= y
    ensures x / n <= y / n
  {
    if x / n > y / n {
      MulMono(y / n + 1, x / n, n);
    }
  }

  /** The line starts worker k of n reads. */
  function WorkerStarts(d: seq<Byte>, k: nat, n: nat): seq<nat>
    requires k < n
  {
    BoundsAscend(|d|, k, n);
    var from, end := Bound(|d|, k, n), Bound(|d|, k + 1, n);
    if from >= end then [] else Starts(d, FirstLine(d, from), end)
  }

  /** The line that starts at s, newline included. */
  function LineAt(d: seq<Byte>, s: nat): seq<Byte> {
    if s <= |d| then d[s..EndOfLine(d, s)] else []
  }

  /** The text a line carries, if any: blank, malformed and textless lines carry none. */
  function TextOf<T>(line: seq<Byte>, parse: seq<Byte> -> Option<T>): seq<T> {
    if parse(line).Some? then [parse(line).value] else []
  }

  function Texts<T>(d: seq<Byte>, starts: seq<nat>, parse: seq<Byte> -> Option<T>): seq<T> {
    if starts == [] then [] else TextOf(LineAt(d, starts[0]), parse) + Texts(d, starts[1..], parse)
  }

  lemma {:induction false} StartsInFile(d: seq<Byte>, p: nat, end: nat)
    requires p <= |d| && end <= |d|
    ensures forall i :: 0 <= i < |Starts(d, p, end)| ==> p <= Starts(d, p, end)[i] < end
    ensures forall i, j :: 0 <= i < j < |Starts(d, p, end)| ==> Starts(d, p, end)[i] < Starts(d, p, end)[j]
    decreases |d| - p
  {
    if p >= end {
    } else {
      StartsInFile(d, EndOfLine(d, p), end);
    }
  }

  function WorkerTexts<T>(d: seq<Byte>, k: nat, n: nat, parse: seq<Byte> -> Option<T>): seq<T>
    requires k < n
  {
    Texts(d, WorkerStarts(d, k, n), parse)
  }

  /** Reading one more line moves its text from what is left to what is read. */
  lemma ReadOne<T>(d: seq<Byte>, pos: nat, end: nat, parse: seq<Byte> -> Option<T>, out: seq<T>)
    requires pos < end <= |d|
    ensures out + Texts(d, Starts(d, pos, end), parse) ==
              (out + TextOf(LineAt(d, pos), parse)) + Texts(d, Starts(d, EndOfLine(d, pos), end), parse)
  {
    assert Starts(d, pos, end)[1..] == Starts(d, EndOfLine(d, pos), end);
    Assoc(out, TextOf(LineAt(d, pos), parse), Texts(d, Starts(d, EndOfLine(d, pos), end), parse));
  }

  /** Reads lines from the cursor on while it is before end. */
  method ReadLines<T>(d: seq<Byte>, from: nat, end: nat, parse: seq<Byte> -> Option<T>) returns (out: seq<T>)
    requires from <= |d| && end <= |d|
    ensures out == Texts(d, Starts(d, from, end), parse)
  {
    out := [];
    var pos := from;
    while pos < end
      invariant pos <= |d|
      invariant out + Texts(d, Starts(d, pos, end), parse) == Texts(d, Starts(d, from, end), parse)
      decreases |d| - pos
    {
      var line := LineAt(d, pos);
      if line == [] {
        break;
      }
      ReadOne(d, pos, end, parse, out);
      out := out + TextOf(line, parse);
      pos := EndOfLine(d, pos);
    }
  }

  /** One file of one worker: seek to the range, find the first line, read while before its end. */
  method ReadSegment<T>(d: seq<Byte>, k: nat, n: nat, parse: seq<Byte> -> Option<T>) returns (out: seq<T>)
    requires k < n
    ensures out == WorkerTexts(d, k, n, parse)
  {
    BoundsAscend(|d|, k, n);
    var from := |d| * k / n;
    var end := |d| * (k + 1) / n;
    if from >= end {
      return [];
    }
    var pos := 0;
    if from > 0 {
      pos := from;
      if d[from - 1] != NEWLINE {
        pos := EndOfLine(d, pos);
      }
    }
    out := ReadLines(d, pos, end, parse);
  }

  function FilesTexts<T>(files: seq<seq<Byte>>, k: nat, n: nat, parse: seq<Byte> -> Option<T>): seq<T>
    requires k < n
  {
    if files == [] then []
    else FilesTexts(files[..|files| - 1], k, n, parse) + WorkerTexts(files[|files| - 1], k, n, parse)
  }

  /** The segment reader over a list of files; a worker outside its team is refused. */
  method ReadSegments<T>(files: seq<seq<Byte>>, worker: int, workers: int, parse: seq<Byte> -> Option<T>)
    returns (r: Outcome<seq<T>>)
    ensures r.Ok? <==> 0 <= worker < workers
    ensures r.Ok? ==> r.value == FilesTexts(files, worker, workers, parse)
  {
    if workers <= 0 || !(0 <= worker < workers) {
      return Failure("invalid worker");
    }
    var out := [];
    for i := 0 to |files|
      invariant out == FilesTexts(files[..i], worker, workers, parse)
    {
      var texts := ReadSegment(files[i], worker, workers, parse);
      assert files[..i + 1][..i] == files[..i];
      out := out + texts;
    }
    assert files[..|files|] == files;
    return Ok(out);
  }

  // ----- every line goes to exactly one worker ----------------------------------------------------

  lemma {:induction false} StartsAreLines(d: seq<Byte>, p: nat, end: nat, s: nat)
    requires p <= |d| && end <= |d| && (p == |d| || LineStart(d, p))
    ensures s in Starts(d, p, end) <==> LineStart(d, s) && p <= s < end
    decreases |d| - p
  {
    if p >= end {
    } else {
      if p < s && LineStart(d, s) {
        EndAscends(d, p, s - 1);
      }
      StartsAreLines(d, EndOfLine(d, p), end, s);
    }
  }

  /** A bound is the floor of its share of the file. */
  lemma BoundIsFloor(size: nat, k: nat, n: nat, s: nat)
    requires n > 0
    ensures Bound(size, k, n) * n <= size * k < (Bound(size, k, n) + 1) * n
    ensures Bound(size, k, n) <= s <==> size * k < (s + 1) * n
  {
    var b := Bound(size, k, n);
    assert size * k == b * n + size * k % n;
    assert (b + 1) * n == b * n + n;
    if b <= s {
      MulMono(b + 1, s + 1, n);
    } else {
      MulMono(s + 1, b, n);
    }
  }

  lemma OwnsRange(d: seq<Byte>, k: nat, n: nat, s: nat)
    requires k < n
    ensures s in WorkerStarts(d, k, n) <==>
              LineStart(d, s) && Bound(|d|, k, n) <= s < Bound(|d|, k + 1, n)
    ensures forall i, j :: 0 <= i < j < |WorkerStarts(d, k, n)| ==> WorkerStarts(d, k, n)[i] < WorkerStarts(d, k, n)[j]
  {
    BoundsAscend(|d|, k, n);
    var from, end := Bound(|d|, k, n), Bound(|d|, k + 1, n);
    if from < end {
      var p := FirstLine(d, from);
      if LineStart(d, s) {
        FirstIsLeast(d, from, s);
      }
      StartsAreLines(d, p, end, s);
      StartsInFile(d, p, end);
    }
  }

  /**
   A worker reads exactly the lines whose first byte lies in its share, each of them once: a line starts the
   file or follows byte 10, and byte s belongs to worker k of n when the file's k-th share ends before byte
   s + 1 does, and the share after it does not.
  */
  lemma WorkerOwnsLine(d: seq<Byte>, k: nat, n: nat, s: nat)
    requires k < n
    ensures s in WorkerStarts(d, k, n) <==>
              s < |d| && (s == 0 || d[s - 1] == 10) && |d| * k < (s + 1) * n <= |d| * (k + 1)
    ensures forall i, j :: 0 <= i < j < |WorkerStarts(d, k, n)| ==> WorkerStarts(d, k, n)[i] < WorkerStarts(d, k, n)[j]
  {
    hide Bound, WorkerStarts;
    OwnsRange(d, k, n, s);
    BoundIsFloor(|d|, k, n, s);
    BoundIsFloor(|d|, k + 1, n, s);
  }

  lemma {:induction false} LineEnds(d: seq<Byte>, s: nat)
    requires s < |d|
    ensures s < EndOfLine(d, s) <= |d|
    ensures forall i :: s <= i < EndOfLine(d, s) - 1 ==> d[i] != 10
    ensures d[EndOfLine(d, s) - 1] == 10 || EndOfLine(d, s) == |d|
    decreases |d| - s
  {
    if d[s] != NEWLINE && s + 1 < |d| {
      LineEnds(d, s + 1);
    } else {
      assert EndOfLine(d, s) == s + 1;
    }
  }

  /** A line is the bytes from its start up to and with the first byte 10, or to the end of the file. */
  lemma LineShape(d: seq<Byte>, s: nat)
    requires s < |d|
    ensures LineAt(d, s) != [] && s + |LineAt(d, s)| <= |d| && LineAt(d, s) == d[s..s + |LineAt(d, s)|]
    ensures forall i :: 0 <= i < |LineAt(d, s)| - 1 ==> LineAt(d, s)[i] != 10
    ensures LineAt(d, s)[|LineAt(d, s)| - 1] == 10 || s + |LineAt(d, s)| == |d|
  {
    hide EndOfLine;
    LineEnds(d, s);
  }

  /** Files one after another, each worker's lines of a file in their order. */
  lemma {:induction false} FilesInOrder<T>(
    x: seq<seq<Byte>>, y: seq<seq<Byte>>, k: nat, n: nat, parse: seq<Byte> -> Option<T>)
    requires k < n
    ensures FilesTexts(x + y, k, n, parse) == FilesTexts(x, k, n, parse) + FilesTexts(y, k, n, parse)
    ensures |y| == 1 ==> FilesTexts(y, k, n, parse) == Texts(y[0], WorkerStarts(y[0], k, n), parse)
  {
    hide WorkerStarts, Texts;
    if y == [] {
      assert x + y == x;
    } else {
      var m := |y| - 1;
      FilesInOrder(x, y[..m], k, n, parse);
      assert (x + y)[..|x + y| - 1] == x + y[..m];
    }
  }

  /** Reading to c is reading to b and then what the worker starting at b reads. */
  lemma {:induction false} StartsSplit(d: seq<Byte>, p: nat, b: nat, c: nat)
    requires (p == |d| || LineStart(d, p)) && p <= |d| && b <= c <= |d| && p <= FirstLine(d, b)
    ensures Starts(d, p, c) == Starts(d, p, b) + Starts(d, FirstLine(d, b), c)
    decreases |d| - p
  {
    if LineStart(d, p) {
      FirstIsLeast(d, b, p);
    }
    if p >= b {
      assert Starts(d, p, b) == [] && p == FirstLine(d, b);
      assert [] + Starts(d, p, c) == Starts(d, p, c);
    } else {
      var q := EndOfLine(d, p);
      StartsSplit(d, q, b, c);
      Assoc([p], Starts(d, q, b), Starts(d, FirstLine(d, b), c));
    }
  }

  function AllWorkers(d: seq<Byte>, k: nat, n: nat): seq<nat>
    requires k <= n
  {
    if k == 0 then [] else AllWorkers(d, k - 1, n) + WorkerStarts(d, k - 1, n)
  }

  lemma {:induction false} WorkersReadOn(d: seq<Byte>, k: nat, n: nat)
    requires k <= n && n > 0
    ensures Bound(|d|, k, n) <= |d|
    ensures AllWorkers(d, k, n) == Starts(d, 0, Bound(|d|, k, n))
  {
    hide Bound, FirstLine, EndOfLine;
    BoundsAscend(|d|, if k == 0 then 0 else k - 1, n);
    if k == 0 {
    } else {
      WorkersReadOn(d, k - 1, n);
      StartsSplit(d, 0, Bound(|d|, k - 1, n), Bound(|d|, k, n));
    }
  }

  /**
   The workers' lines in worker order are the lines of one worker reading the whole file, for every
   file and every number of workers.
  */
  lemma WorkersReadTheFile(d: seq<Byte>, n: nat)
    requires n > 0
    ensures AllWorkers(d, n, n) == WorkerStarts(d, 0, 1)
  {
    WorkersReadOn(d, n, n);
    BoundsAscend(|d|, 0, n);
    BoundsAscend(|d|, 0, 1);
  }

  function Joined(d: seq<Byte>, starts: seq<nat>): seq<Byte> {
    if starts == [] then [] else LineAt(d, starts[0]) + Joined(d, starts[1..])
  }

  lemma {:induction false} JoinedIsFile(d: seq<Byte>, p: nat)
    requires p <= |d|
    ensures Joined(d, Starts(d, p, |d|)) == d[p..]
    decreases |d| - p
  {
    hide EndOfLine;
    if p >= |d| {
    } else {
      var q := EndOfLine(d, p);
      JoinedIsFile(d, q);
      assert Starts(d, p, |d|)[1..] == Starts(d, q, |d|);
      assert d[p..] == d[p..q] + d[q..];
    }
  }

  /** No byte is lost: the lines of one worker, joined, are the file. */
  lemma LinesAreTheFile(d: seq<Byte>)
    ensures Joined(d, WorkerStarts(d, 0, 1)) == d
  {
    BoundsAscend(|d|, 0, 1);
    JoinedIsFile(d, 0);
  }

  // ----- the texts of all workers -----------------------------------------------------------------

  lemma {:induction false} TextsAppend<T>(d: seq<Byte>, x: seq<nat>, y: seq<nat>, parse: seq<Byte> -> Option<T>)
    ensures Texts(d, x + y, parse) == Texts(d, x, parse) + Texts(d, y, parse)
  {
    if x == [] {
      assert x + y == y;
    } else {
      TextsAppend(d, x[1..], y, parse);
      assert (x + y)[1..] == x[1..] + y;
      Assoc(TextOf(LineAt(d, x[0]), parse), Texts(d, x[1..], parse), Texts(d, y, parse));
    }
  }

  /** What each of n workers reads of one file. */
  function TeamTexts<T>(d: seq<Byte>, n: nat, parse: seq<Byte> -> Option<T>): (r: seq<seq<T>>)
    ensures |r| == n && forall k :: 0 <= k < n ==> r[k] == WorkerTexts(d, k, n, parse)
  {
    seq(n, k requires 0 <= k < n => WorkerTexts(d, k, n, parse))
  }

  lemma {:induction false} TeamReadsStarts<T>(d: seq<Byte>, k: nat, n: nat, parse: seq<Byte> -> Option<T>)
    requires k <= n
    ensures Flat(TeamTexts(d, n, parse)[..k]) == Texts(d, AllWorkers(d, k, n), parse)
  {
    if k == 0 {
    } else {
      TeamReadsStarts(d, k - 1, n, parse);
      var team := TeamTexts(d, n, parse);
      assert team[..k][..k - 1] == team[..k - 1];
      TextsAppend(d, AllWorkers(d, k - 1, n), WorkerStarts(d, k - 1, n), parse);
    }
  }

  /** One file: the texts of all workers in worker order are the texts of worker 0 of 1. */
  lemma TeamReadsTheFile<T>(d: seq<Byte>, n: nat, parse: seq<Byte> -> Option<T>)
    requires n > 0
    ensures Flat(TeamTexts(d, n, parse)) == WorkerTexts(d, 0, 1, parse)
  {
    TeamReadsStarts(d, n, n, parse);
    var team := TeamTexts(d, n, parse);
    assert team[..n] == team;
    WorkersReadTheFile(d, n);
  }

  /** Several files: each worker reads its segment of every file. */
  function TeamFiles<T>(files: seq<seq<Byte>>, n: nat, parse: seq<Byte> -> Option<T>): (r: seq<seq<T>>)
    ensures |r| == n && forall k :: 0 <= k < n ==> r[k] == FilesTexts(files, k, n, parse)
  {
    seq(n, k requires 0 <= k < n => FilesTexts(files, k, n, parse))
  }

  /** How often v occurs in s. */
  function Count<T(==)>(s: seq<T>, v: T): nat {
    if s == [] then 0 else (if s[0] == v then 1 else 0) + Count(s[1..], v)
  }

  lemma {:induction false} CountAppend<T>(x: seq<T>, y: seq<T>, v: T)
    ensures Count(x + y, v) == Count(x, v) + Count(y, v)
  {
    if x == [] {
      assert x + y == y;
    } else {
      CountAppend(x[1..], y, v);
      assert (x + y)[1..] == x[1..] + y;
    }
  }

  lemma {:induction false} CountZip<T>(xs: seq<seq<T>>, ys: seq<seq<T>>, zs: seq<seq<T>>, v: T)
    requires |xs| == |ys| == |zs| && forall k :: 0 <= k < |zs| ==> zs[k] == xs[k] + ys[k]
    ensures Count(Flat(zs), v) == Count(Flat(xs), v) + Count(Flat(ys), v)
  {
    if zs == [] {
    } else {
      var m := |zs| - 1;
      CountZip(xs[..m], ys[..m], zs[..m], v);
      CountAppend(Flat(xs[..m]), xs[m], v);
      CountAppend(Flat(ys[..m]), ys[m], v);
      CountAppend(Flat(zs[..m]), zs[m], v);
      CountAppend(xs[m], ys[m], v);
    }
  }

  /** Several files: every text occurs as often in the workers' outputs as in worker 0 of 1's. */
  lemma {:induction false} TeamReadsAllFiles<T>(files: seq<seq<Byte>>, n: nat, parse: seq<Byte> -> Option<T>, v: T)
    requires n > 0
    ensures Count(Flat(TeamFiles(files, n, parse)), v) == Count(FilesTexts(files, 0, 1, parse), v)
  {
    if files == [] {
      FlatEmpty(TeamFiles(files, n, parse));
    } else {
      var m := |files| - 1;
      TeamReadsAllFiles(files[..m], n, parse, v);
      CountZip(TeamFiles(files[..m], n, parse), TeamTexts(files[m], n, parse), TeamFiles(files, n, parse), v);
      TeamReadsTheFile(files[m], n, parse);
      CountAppend(FilesTexts(files[..m], 0, 1, parse), WorkerTexts(files[m], 0, 1, parse), v);
    }
  }

  lemma {:induction false} FlatEmpty<T>(xs: seq<seq<T>>)
    requires forall k :: 0 <= k < |xs| ==> xs[k] == []
    ensures Flat(xs) == []
  {
    if xs == [] {
    } else {
      FlatEmpty(xs[..|xs| - 1]);
    }
  }

  /**
   With several files the order is not kept: two workers on two two-line files put the second file's
   first line before the first file's second line.
  */
  lemma OrderMayDiffer(parse: seq<Byte> -> Option<nat>)
    requires forall x: Byte, y: Byte :: parse([x, y]) == Some(x)
    ensures var files: seq<seq<Byte>> := [[1, 10, 2, 10], [3, 10, 4, 10]];
            && FilesTexts(files, 0, 1, parse) == [1, 2, 3, 4]
            && Flat(TeamFiles(files, 2, parse)) == [1, 3, 2, 4]
  {
    hide WorkerTexts, FilesTexts, Flat;
    var f: seq<Byte>, g: seq<Byte> := [1, 10, 2, 10], [3, 10, 4, 10];
    TwoLines(f, parse);
    TwoLines(g, parse);
    var files := [f, g];
    TwoFiles(f, g, 0, 1, parse);
    TwoFiles(f, g, 0, 2, parse);
    TwoFiles(f, g, 1, 2, parse);
    var team := TeamFiles(files, 2, parse);
    assert team[0] == [1, 3] && team[1] == [2, 4];
    assert team == [team[0], team[1]];
    FlatTwo(team[0], team[1]);
  }

  lemma FlatTwo<T>(x: seq<T>, y: seq<T>)
    ensures Flat([x, y]) == x + y
  {
    assert [x, y][..1] == [x];
    assert Flat([x]) == Flat([x][..0]) + x;
  }

  lemma TwoFiles<T>(f: seq<Byte>, g: seq<Byte>, k: nat, n: nat, parse: seq<Byte> -> Option<T>)
    requires k < n
    ensures FilesTexts([f, g], k, n, parse) == WorkerTexts(f, k, n, parse) + WorkerTexts(g, k, n, parse)
  {
    OneFile(f, k, n, parse);
    assert [f, g][..1] == [f];
  }

  lemma OneFile<T>(f: seq<Byte>, k: nat, n: nat, parse: seq<Byte> -> Option<T>)
    requires k < n
    ensures FilesTexts([f], k, n, parse) == WorkerTexts(f, k, n, parse)
  {
    assert [f][..0] == [];
    assert [] + WorkerTexts(f, k, n, parse) == WorkerTexts(f, k, n, parse);
  }

  lemma TwoLines(d: seq<Byte>, parse: seq<Byte> -> Option<nat>)
    requires |d| == 4 && d[0] != 10 && d[1] == 10 && d[2] != 10 && d[3] == 10
    requires forall x: Byte, y: Byte :: parse([x, y]) == Some(x)
    ensures WorkerTexts(d, 0, 2, parse) == [d[0]] && WorkerTexts(d, 1, 2, parse) == [d[2]]
    ensures WorkerTexts(d, 0, 1, parse) == [d[0], d[2]]
  {
    assert EndOfLine(d, 0) == 2 && EndOfLine(d, 2) == 4;
    assert d[0..2] == [d[0], 10] && d[2..4] == [d[2], 10];
    assert Bound(4, 0, 2) == 0 && Bound(4, 1, 2) == 2 && Bound(4, 2, 2) == 4;
    assert Bound(4, 0, 1) == 0 && Bound(4, 1, 1) == 4;
    assert Starts(d, 4, 4) == [] && Starts(d, 2, 4) == [2] && Starts(d, 0, 4) == [0, 2] && Starts(d, 0, 2) == [0];
    assert Texts(d, [0], parse) == [d[0]];
    assert Texts(d, [2], parse) == [d[2]];
    assert [0, 2][1..] == [2];
  }
}
