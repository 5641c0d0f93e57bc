/**
 Several files split by byte range: when the workers' outputs, one worker after the other, are the
 output of one worker reading all files.
*/
module LineOrder {
  import opened Wrappers
  import opened Bytes
  import opened Sequences
  import opened LineSplit

  /** A line of one of the files, by where it starts. */
  datatype Line = Line(file: nat, start: nat)

  /** Reading order of one worker over all files. */
  predicate Before(x: Line, y: Line) {
    x.file < y.file || (x.file == y.file && x.start < y.start)
  }

  ghost predicate Sorted(s: seq<Line>) {
    forall i, j :: 0 <= i < j < |s| ==> Before(s[i], s[j])
  }

  /** The first byte of the line lies in the worker's range of its file. */
  predicate Owns(files: seq<seq<Byte>>, k: nat, n: nat, x: Line)
    requires k < n
  {
    && x.file < |files| && LineStart(files[x.file], x.start)
    && Bound(|files[x.file]|, k, n) <= x.start < Bound(|files[x.file]|, k + 1, n)
  }

  function FileLines(file: nat, starts: seq<nat>): (l: seq<Line>)
    ensures |l| == |starts| && forall i :: 0 <= i < |l| ==> l[i] == Line(file, starts[i])
  {
    seq(|starts|, i requires 0 <= i < |starts| => Line(file, starts[i]))
  }

  /** The lines worker k of n reads, file by file. */
  function ByFile(files: seq<seq<Byte>>, k: nat, n: nat): (l: seq<seq<Line>>)
    requires k < n
    ensures |l| == |files|
    ensures forall f :: 0 <= f < |l| ==> l[f] == FileLines(f, WorkerStarts(files[f], k, n))
  {
    seq(|files|, f requires 0 <= f < |files| => FileLines(f, WorkerStarts(files[f], k, n)))
  }

  function WorkerLines(files: seq<seq<Byte>>, k: nat, n: nat): seq<Line>
    requires k < n
  {
    Flat(ByFile(files, k, n))
  }

  function ByWorker(files: seq<seq<Byte>>, n: nat): (l: seq<seq<Line>>)
    ensures |l| == n && forall k :: 0 <= k < n ==> l[k] == WorkerLines(files, k, n)
  {
    seq(n, k requires 0 <= k < n => WorkerLines(files, k, n))
  }

  /** The lines of all workers in worker order. */
  function TeamLines(files: seq<seq<Byte>>, n: nat): seq<Line> {
    Flat(ByWorker(files, n))
  }

  // ----- sorted lists of lists --------------------------------------------------------------------

  /** Every line of an earlier list is before every line of a later one. */
  ghost predicate Apart(xs: seq<seq<Line>>) {
    forall i, j, x, y :: 0 <= i < j < |xs| && x in xs[i] && y in xs[j] ==> Before(x, y)
  }

  ghost predicate AllSorted(xs: seq<seq<Line>>) {
    forall i :: 0 <= i < |xs| ==> Sorted(xs[i])
  }

  ghost predicate InOne(xs: seq<seq<Line>>, x: Line) {
    exists i :: 0 <= i < |xs| && x in xs[i]
  }

  lemma {:induction false} FlatMember(xs: seq<seq<Line>>, x: Line)
    ensures x in Flat(xs) <==> InOne(xs, x)
  {
    if xs == [] {
    } else {
      var m := |xs| - 1;
      FlatMember(xs[..m], x);
      if x in Flat(xs[..m]) {
        var i :| 0 <= i < m && x in xs[..m][i];
        assert x in xs[i];
      }
      if InOne(xs, x) {
        var i :| 0 <= i < |xs| && x in xs[i];
        if i < m {
          assert x in xs[..m][i];
        }
      }
    }
  }

  lemma SortedAppend(a: seq<Line>, b: seq<Line>)
    ensures Sorted(a + b) <==>
              Sorted(a) && Sorted(b) && forall x, y :: x in a && y in b ==> Before(x, y)
  {
    if Sorted(a + b) {
      forall i, j | 0 <= i < j < |a| ensures Before(a[i], a[j]) {
        assert (a + b)[i] == a[i] && (a + b)[j] == a[j];
      }
      forall i, j | 0 <= i < j < |b| ensures Before(b[i], b[j]) {
        assert (a + b)[|a| + i] == b[i] && (a + b)[|a| + j] == b[j];
      }
      forall x, y | x in a && y in b ensures Before(x, y) {
        var i :| 0 <= i < |a| && a[i] == x;
        var j :| 0 <= j < |b| && b[j] == y;
        assert (a + b)[i] == x && (a + b)[|a| + j] == y;
      }
    }
  }

  ghost predicate AllBefore(xs: seq<seq<Line>>, b: seq<Line>) {
    forall x, y :: InOne(xs, x) && y in b ==> Before(x, y)
  }

  lemma ApartSnoc(xs: seq<seq<Line>>)
    requires xs != []
    ensures Apart(xs) <==> Apart(xs[..|xs| - 1]) && AllBefore(xs[..|xs| - 1], xs[|xs| - 1])
  {
    var m := |xs| - 1;
    if Apart(xs) {
      forall x, y | InOne(xs[..m], x) && y in xs[m] ensures Before(x, y) {
        var i :| 0 <= i < m && x in xs[..m][i];
        assert x in xs[i];
      }
    }
    if Apart(xs[..m]) && AllBefore(xs[..m], xs[m]) {
      forall i, j, x, y | 0 <= i < j < |xs| && x in xs[i] && y in xs[j] ensures Before(x, y) {
        assert x in xs[..m][i];
        if j < m {
          assert y in xs[..m][j];
        } else {
          assert InOne(xs[..m], x);
        }
      }
    }
  }

  /** A list of lists is sorted end to end exactly when its lists are, and lie apart. */
  lemma {:induction false} FlatSorted(xs: seq<seq<Line>>)
    ensures Sorted(Flat(xs)) <==> AllSorted(xs) && Apart(xs)
  {
    if xs == [] {
    } else {
      var m := |xs| - 1;
      FlatSorted(xs[..m]);
      SortedAppend(Flat(xs[..m]), xs[m]);
      ApartSnoc(xs);
      AllSortedSnoc(xs);
      forall x ensures x in Flat(xs[..m]) <==> InOne(xs[..m], x) {
        FlatMember(xs[..m], x);
      }
    }
  }

  lemma AllSortedSnoc(xs: seq<seq<Line>>)
    requires xs != []
    ensures AllSorted(xs) <==> AllSorted(xs[..|xs| - 1]) && Sorted(xs[|xs| - 1])
  {
    var m := |xs| - 1;
    if AllSorted(xs[..m]) && Sorted(xs[m]) {
      forall i | 0 <= i < |xs| ensures Sorted(xs[i]) {
        if i < m {
          assert Sorted(xs[..m][i]);
        }
      }
    }
  }

  lemma HasMember(b: seq<Line>)
    ensures b == [] || exists x :: x in b
  {
    if b != [] {
      assert b[0] in b;
    }
  }

  /** Two sorted lists of the same lines are one list. */
  lemma {:induction false} SortedUnique(a: seq<Line>, b: seq<Line>)
    requires Sorted(a) && Sorted(b) && forall x :: x in a <==> x in b
    ensures a == b
  {
    if a == [] {
      HasMember(b);
    } else {
      var m := |a| - 1;
      assert a[m] in b;
      var last := |b| - 1;
      LastIsLast(a, b);
      forall x ensures x in a[..m] <==> x in b[..last] {
        AllButLast(a, x);
        AllButLast(b, x);
      }
      SortedUnique(a[..m], b[..last]);
      assert a == a[..m] + [a[m]] && b == b[..last] + [b[last]];
    }
  }

  lemma LastIsLast(a: seq<Line>, b: seq<Line>)
    requires Sorted(a) && Sorted(b) && a != [] && b != []
    requires a[|a| - 1] in b && b[|b| - 1] in a
    ensures a[|a| - 1] == b[|b| - 1]
  {}

  lemma AllButLast(a: seq<Line>, x: Line)
    requires Sorted(a) && a != []
    ensures x in a[..|a| - 1] <==> x in a && x != a[|a| - 1]
  {
    if x in a && x != a[|a| - 1] {
      var i :| 0 <= i < |a| && a[i] == x;
      assert a[..|a| - 1][i] == x;
    }
  }

  // ----- who reads what ---------------------------------------------------------------------------

  lemma ReadsOwned(files: seq<seq<Byte>>, k: nat, n: nat, x: Line)
    requires k < n
    ensures x in WorkerLines(files, k, n) <==> Owns(files, k, n, x)
  {
    var mine := ByFile(files, k, n);
    FlatMember(mine, x);
    if x.file < |files| {
      OwnsRange(files[x.file], k, n, x.start);
      if x.start in WorkerStarts(files[x.file], k, n) {
        var i :| 0 <= i < |WorkerStarts(files[x.file], k, n)| && WorkerStarts(files[x.file], k, n)[i] == x.start;
        assert mine[x.file][i] == x;
      }
    }
  }

  lemma WorkerSorted(files: seq<seq<Byte>>, k: nat, n: nat)
    requires k < n
    ensures Sorted(WorkerLines(files, k, n))
  {
    var mine := ByFile(files, k, n);
    forall f | 0 <= f < |mine| ensures Sorted(mine[f]) {
      OwnsRange(files[f], k, n, 0);
    }
    FlatSorted(mine);
  }

  lemma {:induction false} SomeWorkerReads(d: seq<Byte>, k: nat, n: nat, s: nat)
    requires k <= n && s in AllWorkers(d, k, n)
    ensures exists j :: 0 <= j < k && s in WorkerStarts(d, j, n)
    decreases k
  {
    hide WorkerStarts, Bound;
    if k == 0 {
      assert false;
    } else if s in AllWorkers(d, k - 1, n) {
      SomeWorkerReads(d, k - 1, n, s);
    } else {
      assert s in WorkerStarts(d, k - 1, n);
    }
  }

  /** The workers together read the lines one worker reads. */
  lemma SameLines(files: seq<seq<Byte>>, n: nat, x: Line)
    requires n > 0
    ensures x in TeamLines(files, n) <==> x in WorkerLines(files, 0, 1)
  {
    hide Bound, Owns, WorkerLines, ByFile, Flat;
    FlatMember(ByWorker(files, n), x);
    ReadsOwned(files, 0, 1, x);
    if Owns(files, 0, 1, x) {
      var k := OwnerOf(files, n, x);
      ReadsOwned(files, k, n, x);
      assert x in ByWorker(files, n)[k];
    }
    if InOne(ByWorker(files, n), x) {
      var k :| 0 <= k < n && x in ByWorker(files, n)[k];
      ReadsOwned(files, k, n, x);
      OwnedByOne(files, k, n, x);
    }
  }

  lemma OwnedByOne(files: seq<seq<Byte>>, k: nat, n: nat, x: Line)
    requires k < n && Owns(files, k, n, x)
    ensures Owns(files, 0, 1, x)
  {
    BoundsAscend(|files[x.file]|, 0, 1);
  }

  lemma OwnerOf(files: seq<seq<Byte>>, n: nat, x: Line) returns (k: nat)
    requires n > 0 && Owns(files, 0, 1, x)
    ensures k < n && Owns(files, k, n, x)
  {
    hide Bound, WorkerStarts, AllWorkers;
    var d := files[x.file];
    OwnsRange(d, 0, 1, x.start);
    WorkersReadTheFile(d, n);
    SomeWorkerReads(d, n, n, x.start);
    k :| 0 <= k < n && x.start in WorkerStarts(d, k, n);
    OwnsRange(d, k, n, x.start);
  }

  lemma {:induction false} BoundsInOrder(size: nat, k: nat, j: nat, n: nat)
    requires k <= j <= n && n > 0
    ensures Bound(size, k, n) <= Bound(size, j, n)
    decreases j - k
  {
    if k == j {
    } else {
      BoundsAscend(size, j - 1, n);
      BoundsInOrder(size, k, j - 1, n);
    }
  }

  // ----- the exact condition ----------------------------------------------------------------------

  /** Worker k reads some line of this file. */
  ghost predicate Reads(files: seq<seq<Byte>>, k: nat, n: nat, file: nat)
    requires k < n
  {
    exists s: nat :: Owns(files, k, n, Line(file, s))
  }

  /** No earlier file has a line of a later worker while a later file has one of an earlier worker. */
  ghost predicate KeepsOrder(files: seq<seq<Byte>>, n: nat) {
    forall f, g, k, j :: 0 <= f < g < |files| && 0 <= k < j < n ==>
      !(Reads(files, j, n, f) && Reads(files, k, n, g))
  }

  /** Lines of two workers come in reading order when the condition holds. */
  lemma WorkersApart(files: seq<seq<Byte>>, n: nat, k: nat, j: nat, x: Line, y: Line)
    requires k < j < n && Owns(files, k, n, x) && Owns(files, j, n, y)
    ensures Before(x, y) <==> x.file <= y.file
    ensures x.file > y.file ==> Reads(files, j, n, y.file) && Reads(files, k, n, x.file)
  {
    if x.file == y.file {
      BoundsInOrder(|files[x.file]|, k + 1, j, n);
    }
    assert Line(x.file, x.start) == x && Line(y.file, y.start) == y;
  }

  lemma ApartIffOrder(files: seq<seq<Byte>>, n: nat)
    ensures Apart(ByWorker(files, n)) <==> KeepsOrder(files, n)
  {
    var team := ByWorker(files, n);
    if KeepsOrder(files, n) {
      forall k, j, x, y | 0 <= k < j < n && x in team[k] && y in team[j] ensures Before(x, y) {
        ReadsOwned(files, k, n, x);
        ReadsOwned(files, j, n, y);
        WorkersApart(files, n, k, j, x, y);
      }
    }
    if Apart(team) {
      forall f, g, k, j | 0 <= f < g < |files| && 0 <= k < j < n
        ensures !(Reads(files, j, n, f) && Reads(files, k, n, g))
      {
        if Reads(files, j, n, f) && Reads(files, k, n, g) {
          OutOfOrder(files, n, f, g, k, j);
        }
      }
    }
  }

  /** The crossing pair of lines that breaks the order. */
  lemma OutOfOrder(files: seq<seq<Byte>>, n: nat, f: nat, g: nat, k: nat, j: nat)
    requires f < g < |files| && k < j < n && Reads(files, j, n, f) && Reads(files, k, n, g)
    ensures !Apart(ByWorker(files, n))
  {
    var s: nat :| Owns(files, j, n, Line(f, s));
    var s': nat :| Owns(files, k, n, Line(g, s'));
    var team := ByWorker(files, n);
    ReadsOwned(files, j, n, Line(f, s));
    ReadsOwned(files, k, n, Line(g, s'));
    assert Line(g, s') in team[k] && Line(f, s) in team[j] && !Before(Line(g, s'), Line(f, s));
  }

  /**
   Over any files and any number of workers, the workers' lines in worker order are the lines of one
   worker if and only if no earlier file has a line of a later worker while a later file has a line
   of an earlier worker.
  */
  lemma OrderIsKeptExactly(files: seq<seq<Byte>>, n: nat)
    requires n > 0
    ensures TeamLines(files, n) == WorkerLines(files, 0, 1) <==> KeepsOrder(files, n)
  {
    var team := ByWorker(files, n);
    WorkerSorted(files, 0, 1);
    forall k | 0 <= k < n ensures Sorted(team[k]) {
      WorkerSorted(files, k, n);
    }
    FlatSorted(team);
    ApartIffOrder(files, n);
    if KeepsOrder(files, n) {
      forall x ensures x in TeamLines(files, n) <==> x in WorkerLines(files, 0, 1) {
        SameLines(files, n, x);
      }
      SortedUnique(TeamLines(files, n), WorkerLines(files, 0, 1));
    }
  }

  // ----- the texts --------------------------------------------------------------------------------

  ghost predicate InFiles(files: seq<seq<Byte>>, lines: seq<Line>) {
    forall i :: 0 <= i < |lines| ==> lines[i].file < |files|
  }

  /** The texts these lines carry. */
  function LineTexts<T>(files: seq<seq<Byte>>, lines: seq<Line>, parse: seq<Byte> -> Option<T>): seq<T>
    requires InFiles(files, lines)
  {
    if lines == [] then []
    else TextOf(LineAt(files[lines[0].file], lines[0].start), parse) + LineTexts(files, lines[1..], parse)
  }

  lemma {:induction false} LineTextsAppend<T>(
    files: seq<seq<Byte>>, a: seq<Line>, b: seq<Line>, parse: seq<Byte> -> Option<T>)
    requires InFiles(files, a) && InFiles(files, b)
    ensures InFiles(files, a + b)
    ensures LineTexts(files, a + b, parse) == LineTexts(files, a, parse) + LineTexts(files, b, parse)
  {
    if a == [] {
      assert a + b == b;
    } else {
      LineTextsAppend(files, a[1..], b, parse);
      assert (a + b)[1..] == a[1..] + b;
      Assoc(TextOf(LineAt(files[a[0].file], a[0].start), parse),
            LineTexts(files, a[1..], parse), LineTexts(files, b, parse));
    }
  }

  lemma {:induction false} FileTexts<T>(
    files: seq<seq<Byte>>, f: nat, starts: seq<nat>, parse: seq<Byte> -> Option<T>)
    requires f < |files|
    ensures InFiles(files, FileLines(f, starts))
    ensures LineTexts(files, FileLines(f, starts), parse) == Texts(files[f], starts, parse)
  {
    if starts == [] {
    } else {
      FileTexts(files, f, starts[1..], parse);
      assert FileLines(f, starts)[1..] == FileLines(f, starts[1..]);
    }
  }

  /** A worker's texts are the texts of its lines. */
  lemma {:induction false} WorkerTextsAre<T>(
    files: seq<seq<Byte>>, m: nat, k: nat, n: nat, parse: seq<Byte> -> Option<T>)
    requires k < n && m <= |files|
    ensures InFiles(files, Flat(ByFile(files, k, n)[..m]))
    ensures FilesTexts(files[..m], k, n, parse) == LineTexts(files, Flat(ByFile(files, k, n)[..m]), parse)
  {
    hide *;
    if m == 0 {
      NothingRead(files, k, n, parse);
    } else {
      var mine := ByFile(files, k, n);
      WorkerTextsAre(files, m - 1, k, n, parse);
      FileTexts(files, m - 1, WorkerStarts(files[m - 1], k, n), parse);
      LineTextsAppend(files, Flat(mine[..m - 1]), mine[m - 1], parse);
      FlatPrefix(mine, m);
      FilesTextsLast(files, m, k, n, parse);
    }
  }

  lemma NothingRead<T>(files: seq<seq<Byte>>, k: nat, n: nat, parse: seq<Byte> -> Option<T>)
    requires k < n
    ensures InFiles(files, Flat(ByFile(files, k, n)[..0])) && files[..0] == []
    ensures FilesTexts(files[..0], k, n, parse) == LineTexts(files, Flat(ByFile(files, k, n)[..0]), parse)
  {}

  lemma FilesTextsLast<T>(files: seq<seq<Byte>>, m: nat, k: nat, n: nat, parse: seq<Byte> -> Option<T>)
    requires k < n && 0 < m <= |files|
    ensures FilesTexts(files[..m], k, n, parse)
         == FilesTexts(files[..m - 1], k, n, parse) + Texts(files[m - 1], WorkerStarts(files[m - 1], k, n), parse)
  {
    hide WorkerStarts, Texts;
    assert files[..m][..m - 1] == files[..m - 1];
  }

  lemma WorkerTextsAll<T>(files: seq<seq<Byte>>, k: nat, n: nat, parse: seq<Byte> -> Option<T>)
    requires k < n
    ensures InFiles(files, WorkerLines(files, k, n))
    ensures FilesTexts(files, k, n, parse) == LineTexts(files, WorkerLines(files, k, n), parse)
  {
    hide InFiles, LineTexts, FilesTexts, Flat;
    WorkerTextsAre(files, |files|, k, n, parse);
    assert files[..|files|] == files && ByFile(files, k, n)[..|files|] == ByFile(files, k, n);
  }

  lemma {:induction false} TeamTextsAre<T>(files: seq<seq<Byte>>, k: nat, n: nat, parse: seq<Byte> -> Option<T>)
    requires k <= n
    ensures InFiles(files, Flat(ByWorker(files, n)[..k]))
    ensures Flat(TeamFiles(files, n, parse)[..k]) == LineTexts(files, Flat(ByWorker(files, n)[..k]), parse)
  {
    hide *;
    if k == 0 {
      NobodyRead(files, n, parse);
    } else {
      TeamTextsAre(files, k - 1, n, parse);
      WorkerTextsAll(files, k - 1, n, parse);
      LineTextsAppend(files, Flat(ByWorker(files, n)[..k - 1]), WorkerLines(files, k - 1, n), parse);
      FlatPrefix(ByWorker(files, n), k);
      FlatPrefix(TeamFiles(files, n, parse), k);
    }
  }

  lemma NobodyRead<T>(files: seq<seq<Byte>>, n: nat, parse: seq<Byte> -> Option<T>)
    ensures InFiles(files, Flat(ByWorker(files, n)[..0]))
    ensures Flat(TeamFiles(files, n, parse)[..0]) == LineTexts(files, Flat(ByWorker(files, n)[..0]), parse)
  {
    hide WorkerLines, FilesTexts;
  }

  /** Where the order of the lines is kept, so is the order of the texts. */
  lemma OrderedTexts<T>(files: seq<seq<Byte>>, n: nat, parse: seq<Byte> -> Option<T>)
    requires n > 0 && KeepsOrder(files, n)
    ensures Flat(TeamFiles(files, n, parse)) == FilesTexts(files, 0, 1, parse)
  {
    hide *;
    OrderIsKeptExactly(files, n);
    TeamTextsAll(files, n, parse);
    WorkerTextsAll(files, 0, 1, parse);
  }

  lemma TeamTextsAll<T>(files: seq<seq<Byte>>, n: nat, parse: seq<Byte> -> Option<T>)
    ensures InFiles(files, TeamLines(files, n))
    ensures Flat(TeamFiles(files, n, parse)) == LineTexts(files, TeamLines(files, n), parse)
  {
    hide InFiles, LineTexts, WorkerLines, FilesTexts, Flat;
    TeamTextsAre(files, n, n, parse);
    assert ByWorker(files, n)[..n] == ByWorker(files, n);
    assert TeamFiles(files, n, parse)[..n] == TeamFiles(files, n, parse);
  }
}
