/** The round-robin work order over per-directory file queues. */
module RoundRobin {
  import Arithmetic
  import OrderedDrain
  import Sequences

  /** A queued file: the directory it comes from and its path. */
  datatype Job<F> = Job(dir: nat, file: F)

  function Rotate(ds: seq<nat>, k: nat): (r: seq<nat>)
    requires k <= |ds|
    ensures |r| == |ds|
    ensures forall i :: 0 <= i < |r| ==> r[i] == if i < |ds| - k then ds[i + k] else ds[i + k - |ds|]
  {
    ds[k..] + ds[..k]
  }

  predicate HaveFiles<F>(queues: seq<seq<F>>, r: nat, ds: seq<nat>) {
    forall i :: 0 <= i < |ds| ==> ds[i] < |queues| && |queues[ds[i]]| > r
  }

  /** The directories of ds that still have files after r of them are taken. */
  function Live<F>(queues: seq<seq<F>>, ds: seq<nat>, r: nat): (l: seq<nat>)
    ensures HaveFiles(queues, r, l)
  {
    if ds == [] then [] else
    var d := ds[|ds| - 1];
    var before := Live(queues, ds[..|ds| - 1], r);
    if d < |queues| && |queues[d]| > r then before + [d] else before
  }

  /** What the directories ds give in round r: each its r-th file. */
  function RoundJobs<F>(queues: seq<seq<F>>, r: nat, ds: seq<nat>): (js: seq<Job<F>>)
    requires HaveFiles(queues, r, ds)
    ensures |js| == |ds|
  {
    seq(|ds|, i requires 0 <= i < |ds| => Job(ds[i], queues[ds[i]][r]))
  }

  function Longest<F>(queues: seq<seq<F>>): nat {
    if queues == [] then 0 else
    var n := Longest(queues[..|queues| - 1]);
    if |queues[|queues| - 1]| > n then |queues[|queues| - 1]| else n
  }

  lemma {:induction false} LongestBounds<F>(queues: seq<seq<F>>, d: nat)
    requires d < |queues|
    ensures |queues[d]| <= Longest(queues)
  {
    if d >= |queues| - 1 {
    } else {
      LongestBounds(queues[..|queues| - 1], d);
    }
  }

  /** The work order of the rounds from r on, when `active` are the directories left. */
  function WorkFrom<F>(queues: seq<seq<F>>, r: nat, active: seq<nat>): seq<Job<F>>
    requires HaveFiles(queues, r, active)
    decreases Longest(queues) - r
  {
    if active == [] then [] else
    LongestBounds(queues, active[0]);
    var rotated := Rotate(active, r % |active|);
    RoundJobs(queues, r, rotated) + WorkFrom(queues, r + 1, Live(queues, rotated, r + 1))
  }

  function AllDirs(n: nat): (ds: seq<nat>)
    ensures |ds| == n && forall i :: 0 <= i < n ==> ds[i] == i
  {
    seq(n, i => i)
  }

  function WorkOrder<F>(queues: seq<seq<F>>): seq<Job<F>> {
    WorkFrom(queues, 0, Live(queues, AllDirs(|queues|), 0))
  }

  ghost predicate Distinct(ds: seq<nat>) {
    forall i, j :: 0 <= i < j < |ds| ==> ds[i] != ds[j]
  }

  /** ds are the directories with more than r files, each once. */
  ghost predicate Exactly<F>(queues: seq<seq<F>>, r: nat, ds: seq<nat>) {
    && HaveFiles(queues, r, ds) && Distinct(ds)
    && forall d: nat :: d < |queues| && |queues[d]| > r ==> d in ds
  }

  lemma RotateExactly<F>(queues: seq<seq<F>>, r: nat, ds: seq<nat>, k: nat)
    requires Exactly(queues, r, ds) && k <= |ds|
    ensures Exactly(queues, r, Rotate(ds, k))
  {
    var out := Rotate(ds, k);
    forall d: nat | d < |queues| && |queues[d]| > r ensures d in out {
      var i :| 0 <= i < |ds| && ds[i] == d;
      assert out[if i >= k then i - k else i - k + |ds|] == d;
    }
  }

  lemma {:induction false} LiveMembers<F>(queues: seq<seq<F>>, ds: seq<nat>, r: nat, d: nat)
    ensures d in Live(queues, ds, r) <==> d in ds && d < |queues| && |queues[d]| > r
  {
    if ds == [] {
    } else {
      LiveMembers(queues, ds[..|ds| - 1], r, d);
      assert ds == ds[..|ds| - 1] + [ds[|ds| - 1]];
    }
  }

  lemma {:induction false} LiveDistinct<F>(queues: seq<seq<F>>, ds: seq<nat>, r: nat)
    requires Distinct(ds)
    ensures Distinct(Live(queues, ds, r))
  {
    if ds == [] {
    } else {
      LiveDistinct(queues, ds[..|ds| - 1], r);
      LiveMembers(queues, ds[..|ds| - 1], r, ds[|ds| - 1]);
    }
  }

  lemma LiveExactly<F>(queues: seq<seq<F>>, ds: seq<nat>, r: nat)
    requires Distinct(ds) && forall d: nat :: d < |queues| && |queues[d]| > r ==> d in ds
    ensures Exactly(queues, r, Live(queues, ds, r))
  {
    LiveDistinct(queues, ds, r);
    forall d: nat | d < |queues| && |queues[d]| > r ensures d in Live(queues, ds, r) {
      LiveMembers(queues, ds, r, d);
    }
  }

  lemma StartExactly<F>(queues: seq<seq<F>>)
    ensures Exactly(queues, 0, Live(queues, AllDirs(|queues|), 0))
  {
    forall d: nat | d < |queues| ensures d in AllDirs(|queues|) {
      assert AllDirs(|queues|)[d] == d;
    }
    LiveExactly(queues, AllDirs(|queues|), 0);
  }

  /** The files a work order takes from directory d. */
  function FilesOf<F>(work: seq<Job<F>>, d: nat): seq<F> {
    if work == [] then []
    else (if work[0].dir == d then [work[0].file] else []) + FilesOf(work[1..], d)
  }

  lemma {:induction false} FilesAppend<F>(x: seq<Job<F>>, y: seq<Job<F>>, d: nat)
    ensures FilesOf(x + y, d) == FilesOf(x, d) + FilesOf(y, d)
  {
    if x == [] {
      assert x + y == y;
    } else {
      FilesAppend(x[1..], y, d);
      assert (x + y)[1..] == x[1..] + y;
      Sequences.Assoc(if x[0].dir == d then [x[0].file] else [], FilesOf(x[1..], d), FilesOf(y, d));
    }
  }

  function Next<F>(queues: seq<seq<F>>, r: nat, d: nat): seq<F> {
    if d < |queues| && |queues[d]| > r then [queues[d][r]] else []
  }

  function Left<F>(queues: seq<seq<F>>, r: nat, d: nat): seq<F> {
    if d < |queues| && |queues[d]| > r then queues[d][r..] else []
  }

  lemma {:induction false} RoundGives<F>(queues: seq<seq<F>>, r: nat, ds: seq<nat>, d: nat)
    requires HaveFiles(queues, r, ds) && Distinct(ds)
    ensures FilesOf(RoundJobs(queues, r, ds), d) == if d in ds then Next(queues, r, d) else []
  {
    if ds == [] {
    } else {
      RoundGives(queues, r, ds[1..], d);
      assert ds == [ds[0]] + ds[1..];
      assert RoundJobs(queues, r, ds)[1..] == RoundJobs(queues, r, ds[1..]);
    }
  }

  /** A round takes one file, the r-th, from each directory that has that many and from no other. */
  lemma RoundIsFair<F>(queues: seq<seq<F>>, r: nat, ds: seq<nat>, d: nat)
    requires Exactly(queues, r, ds)
    ensures FilesOf(RoundJobs(queues, r, ds), d) == Next(queues, r, d)
  {
    RoundGives(queues, r, ds, d);
  }

  lemma LeftCons<F>(queues: seq<seq<F>>, r: nat, d: nat)
    ensures Left(queues, r, d) == Next(queues, r, d) + Left(queues, r + 1, d)
  {}

  lemma {:induction false} WorkKeepsQueue<F>(queues: seq<seq<F>>, r: nat, active: seq<nat>, d: nat)
    requires Exactly(queues, r, active)
    ensures FilesOf(WorkFrom(queues, r, active), d) == Left(queues, r, d)
    decreases Longest(queues) - r
  {
    if active == [] {
    } else {
      LongestBounds(queues, active[0]);
      var rotated := Rotate(active, r % |active|);
      RotateExactly(queues, r, active, r % |active|);
      LiveExactly(queues, rotated, r + 1);
      RoundIsFair(queues, r, rotated, d);
      WorkKeepsQueue(queues, r + 1, Live(queues, rotated, r + 1), d);
      FilesAppend(RoundJobs(queues, r, rotated), WorkFrom(queues, r + 1, Live(queues, rotated, r + 1)), d);
      LeftCons(queues, r, d);
    }
  }

  /**
   The work order takes from every directory exactly its queue, in its order: it is a permutation of
   all queued files that keeps each queue's order.
  */
  lemma WorkIsTheQueues<F>(queues: seq<seq<F>>, d: nat)
    ensures FilesOf(WorkOrder(queues), d) == if d < |queues| then queues[d] else []
  {
    StartExactly(queues);
    WorkKeepsQueue(queues, 0, Live(queues, AllDirs(|queues|), 0), d);
  }

  // ----- the order inside the rounds ----------------------------------------------------------------

  /** Round r starts r places on in the order the round before left, and goes once around. */
  lemma RoundTurns<F>(queues: seq<seq<F>>, r: nat, active: seq<nat>, i: nat)
    requires Exactly(queues, r, active) && i < |active|
    ensures i < |WorkFrom(queues, r, active)|
    ensures var d := active[(i + r) % |active|];
            d < |queues| && r < |queues[d]| && WorkFrom(queues, r, active)[i] == Job(d, queues[d][r])
  {
    LongestBounds(queues, active[0]);
    TurnAt(active, r, i);
    RotateExactly(queues, r, active, r % |active|);
  }

  lemma TurnAt(ds: seq<nat>, r: nat, i: nat)
    requires i < |ds|
    ensures Rotate(ds, r % |ds|)[i] == ds[(i + r) % |ds|]
  {
    var n := |ds|;
    var k := r % n;
    assert i + r == r / n * n + (i + k);
    if i + k < n {
      Arithmetic.DivModUnique(i + r, n, r / n, i + k);
    } else {
      assert r / n * n + n == (r / n + 1) * n;
      Arithmetic.DivModUnique(i + r, n, r / n + 1, i + k - n);
    }
  }

  /** 1 + 2 + ... + r: how far the rounds up to r have turned. */
  function Turned(r: nat): (t: nat)
    ensures t >= r
  {
    if r == 0 then 0 else Turned(r - 1) + r
  }

  ghost predicate Even<F>(queues: seq<seq<F>>, len: nat) {
    queues != [] && forall d :: 0 <= d < |queues| ==> |queues[d]| == len
  }

  lemma TurnOn(i: nat, x: nat, r: nat, n: nat)
    requires n > 0
    ensures ((i + r) % n + x) % n == (i + x + r) % n
  {
    var q := (i + r) / n;
    assert i + x + r == ((i + r) % n + x) + q * n;
    var y := (i + r) % n + x;
    assert y == y / n * n + y % n;
    assert y / n * n + q * n == (y / n + q) * n;
    Arithmetic.DivModUnique(i + x + r, n, y / n + q, y % n);
  }

  lemma {:induction false} AllLive<F>(queues: seq<seq<F>>, ds: seq<nat>, r: nat)
    requires HaveFiles(queues, r, ds)
    ensures Live(queues, ds, r) == ds
  {
    hide HaveFiles;
    if ds == [] {
    } else {
      HaveInit(queues, r, ds);
      AllLive(queues, ds[..|ds| - 1], r);
    }
  }

  lemma HaveInit<F>(queues: seq<seq<F>>, r: nat, ds: seq<nat>)
    requires HaveFiles(queues, r, ds) && ds != []
    ensures HaveFiles(queues, r, ds[..|ds| - 1])
    ensures ds[|ds| - 1] < |queues| && |queues[ds[|ds| - 1]]| > r
  {}

  /** The directories at the start of round r, when none has run out: the first order, turned on. */
  ghost predicate TurnedOn(active: seq<nat>, n: nat, x: nat) {
    |active| == n > 0 && forall i :: 0 <= i < n ==> active[i] == (i + x) % n
  }

  lemma TurnedStep(active: seq<nat>, n: nat, r: nat)
    requires TurnedOn(active, n, Turned(r) - r)
    ensures TurnedOn(Rotate(active, r % n), n, Turned(r + 1) - (r + 1))
  {
    var rotated := Rotate(active, r % n);
    forall x | 0 <= x < n ensures rotated[x] == (x + Turned(r)) % n {
      TurnAt(active, r, x);
      TurnOn(x, Turned(r) - r, r, n);
    }
  }

  lemma EvenHave<F>(queues: seq<seq<F>>, len: nat, r: nat, r': nat, ds: seq<nat>)
    requires Even(queues, len) && r' < len && HaveFiles(queues, r, ds)
    ensures HaveFiles(queues, r', ds)
  {}

  lemma WorkUnfolds<F>(queues: seq<seq<F>>, r: nat, active: seq<nat>)
    requires HaveFiles(queues, r, active) && active != []
    ensures var rotated := Rotate(active, r % |active|);
            && HaveFiles(queues, r, rotated) && |rotated| == |active|
            && WorkFrom(queues, r, active)
            == RoundJobs(queues, r, rotated) + WorkFrom(queues, r + 1, Live(queues, rotated, r + 1))
  {
    LongestBounds(queues, active[0]);
  }

  /** One round of directories of one length. */
  lemma EvenStep<F>(queues: seq<seq<F>>, len: nat, r: nat, active: seq<nat>) returns (rotated: seq<nat>)
    requires Even(queues, len) && TurnedOn(active, |queues|, Turned(r) - r) && Exactly(queues, r, active)
    requires HaveFiles(queues, r, active) && r + 1 < len && active != [] && |active| == |queues|
    ensures HaveFiles(queues, r, rotated) && HaveFiles(queues, r + 1, rotated) && |rotated| == |queues|
    ensures TurnedOn(rotated, |queues|, Turned(r + 1) - (r + 1)) && Exactly(queues, r + 1, rotated)
    ensures WorkFrom(queues, r, active) == RoundJobs(queues, r, rotated) + WorkFrom(queues, r + 1, rotated)
  {
    hide *;
    rotated := Rotate(active, r % |queues|);
    TurnedStep(active, |queues|, r);
    WorkUnfolds(queues, r, active);
    EvenHave(queues, len, r, r + 1, rotated);
    AllLive(queues, rotated, r + 1);
    RotateExactly(queues, r, active, r % |queues|);
    ExactlyNext(queues, r, rotated);
  }

  lemma ExactlyNext<F>(queues: seq<seq<F>>, r: nat, ds: seq<nat>)
    requires Exactly(queues, r, ds) && HaveFiles(queues, r + 1, ds)
    ensures Exactly(queues, r + 1, ds)
  {}

  lemma EvenFirst<F>(queues: seq<seq<F>>, len: nat, r: nat, active: seq<nat>, i: nat)
    requires Even(queues, len) && TurnedOn(active, |queues|, Turned(r) - r) && Exactly(queues, r, active)
    requires r < len && i < |queues|
    ensures i < |WorkFrom(queues, r, active)| && (i + Turned(r)) % |queues| < |queues|
    ensures var d := (i + Turned(r)) % |queues|;
            r < |queues[d]| && WorkFrom(queues, r, active)[i] == Job(d, queues[d][r])
  {
    hide WorkFrom, Exactly;
    RoundTurns(queues, r, active, i);
    TurnOn(i, Turned(r) - r, r, |queues|);
    assert active[(i + r) % |queues|] == (i + Turned(r)) % |queues|;
  }

  lemma RoundsOn(k: nat, n: nat, i: nat, at: nat)
    requires k > 0 && at == k * n + i
    ensures at >= n && at - n == (k - 1) * n + i
  {
    assert k * n == (k - 1) * n + n;
  }

  lemma {:induction false} EvenFrom<F>(
    queues: seq<seq<F>>, len: nat, r: nat, active: seq<nat>, j: nat, i: nat, at: nat)
    requires Even(queues, len) && TurnedOn(active, |queues|, Turned(r) - r) && Exactly(queues, r, active)
    requires HaveFiles(queues, r, active) && r <= j < len && i < |queues| && at == (j - r) * |queues| + i
    ensures at < |WorkFrom(queues, r, active)|
    ensures var d := (i + Turned(j)) % |queues|;
            j < |queues[d]| && WorkFrom(queues, r, active)[at] == Job(d, queues[d][j])
    decreases j - r
  {
    hide WorkFrom, Exactly, HaveFiles, TurnedOn, Turned;
    AllTurned(active, |queues|, Turned(r) - r);
    if j == r {
      EvenFirst(queues, len, r, active, i);
    } else {
      var rotated := EvenStep(queues, len, r, active);
      RoundsOn(j - r, |queues|, i, at);
      EvenFrom(queues, len, r + 1, rotated, j, i, at - |queues|);
    }
  }

  /**
   The order in full where no directory runs out early: with n directories of one length, the i-th file of
   round j comes from directory (i + 1 + 2 + ... + j) mod n.
  */
  lemma WorkTurns<F>(queues: seq<seq<F>>, len: nat, j: nat, i: nat)
    requires Even(queues, len) && j < len && i < |queues|
    ensures j * |queues| + i < |WorkOrder(queues)|
    ensures var d := (i + Turned(j)) % |queues|;
            WorkOrder(queues)[j * |queues| + i] == Job(d, queues[d][j])
  {
    hide *;
    EvenStart(queues, len);
    EvenFrom(queues, len, 0, AllDirs(|queues|), j, i, j * |queues| + i);
  }

  lemma AllTurned(active: seq<nat>, n: nat, x: int)
    requires n > 0 && x >= 0 && TurnedOn(active, n, x)
    ensures |active| == n && active != []
  {}

  lemma EvenStart<F>(queues: seq<seq<F>>, len: nat)
    requires Even(queues, len) && len > 0
    ensures var all := AllDirs(|queues|);
            && |queues| > 0 && Turned(0) - 0 == 0 && HaveFiles(queues, 0, all)
            && TurnedOn(all, |queues|, Turned(0) - 0) && Exactly(queues, 0, all)
            && WorkOrder(queues) == WorkFrom(queues, 0, all)
  {
    hide WorkFrom;
    var all := AllDirs(|queues|);
    StartExactly(queues);
    AllLive(queues, all, 0);
    forall x | 0 <= x < |queues| ensures all[x] == (x + 0) % |queues| {
      Arithmetic.DivModUnique(x, |queues|, 0, x);
    }
  }

  lemma WorkOn<F>(queues: seq<seq<F>>, r: nat, active: seq<nat>, work: seq<Job<F>>)
    requires Exactly(queues, r, active) && active != []
    ensures var rotated := Rotate(active, r % |active|);
            && Exactly(queues, r, rotated) && Exactly(queues, r + 1, Live(queues, rotated, r + 1))
            && r < Longest(queues)
            && work + WorkFrom(queues, r, active) ==
                 (work + RoundJobs(queues, r, rotated)) + WorkFrom(queues, r + 1, Live(queues, rotated, r + 1))
  {
    LongestBounds(queues, active[0]);
    RotateExactly(queues, r, active, r % |active|);
    LiveExactly(queues, Rotate(active, r % |active|), r + 1);
  }

  /** Builds the work order by popping queue heads, round after round. */
  method Flatten<F>(queues: seq<seq<F>>) returns (work: seq<Job<F>>)
    ensures work == WorkOrder(queues)
  {
    work := [];
    var remaining := queues;
    var active := Live(queues, AllDirs(|queues|), 0);
    var round: nat := 0;
    StartExactly(queues);
    while active != []
      invariant Exactly(queues, round, active) && Popped(queues, round, active, remaining)
      invariant work + WorkFrom(queues, round, active) == WorkOrder(queues)
      decreases Longest(queues) - round
    {
      WorkOn(queues, round, active, work);
      round := round + 1;
      var offset := (round - 1) % |active|;
      var rotated := active[offset..] + active[..offset];
      assert rotated == Rotate(active, offset);
      var jobs;
      jobs, active, remaining := TakeRound(queues, round - 1, rotated, remaining);
      work := work + jobs;
    }
  }

  /** Of every queue of ds, r files have been popped. */
  ghost predicate Popped<F>(queues: seq<seq<F>>, r: nat, ds: seq<nat>, remaining: seq<seq<F>>) {
    && |remaining| == |queues|
    && forall i :: 0 <= i < |ds| && ds[i] < |queues| && |queues[ds[i]]| >= r ==> remaining[ds[i]] == queues[ds[i]][r..]
  }

  /** One round: one file from each directory in turn; those with files left stay active. */
  method TakeRound<F>(ghost queues: seq<seq<F>>, ghost r: nat, rotated: seq<nat>, remaining: seq<seq<F>>)
    returns (jobs: seq<Job<F>>, next: seq<nat>, left: seq<seq<F>>)
    requires HaveFiles(queues, r, rotated) && Distinct(rotated) && Popped(queues, r, rotated, remaining)
    ensures jobs == RoundJobs(queues, r, rotated) && next == Live(queues, rotated, r + 1)
    ensures Popped(queues, r + 1, next, left)
  {
    jobs, next, left := [], [], remaining;
    for i := 0 to |rotated|
      invariant HaveFiles(queues, r, rotated[..i])
      invariant jobs == RoundJobs(queues, r, rotated[..i]) && next == Live(queues, rotated[..i], r + 1)
      invariant Popped(queues, r + 1, rotated[..i], left)
      invariant Popped(queues, r, rotated[i..], left)
    {
      var d := rotated[i];
      PopOne(queues, r, rotated, i, left);
      OneMoreJob(queues, r, rotated, i);
      jobs := jobs + [Job(d, left[d][0])];
      left := left[d := left[d][1..]];
      if left[d] != [] {
        next := next + [d];
      }
    }
    assert rotated[..|rotated|] == rotated;
    forall i | 0 <= i < |next| ensures left[next[i]] == queues[next[i]][r + 1..] {
      LiveMembers(queues, rotated, r + 1, next[i]);
    }
  }

  lemma OneMoreJob<F>(queues: seq<seq<F>>, r: nat, rotated: seq<nat>, i: nat)
    requires i < |rotated| && HaveFiles(queues, r, rotated)
    ensures HaveFiles(queues, r, rotated[..i]) && HaveFiles(queues, r, rotated[..i + 1])
    ensures RoundJobs(queues, r, rotated[..i + 1]) ==
              RoundJobs(queues, r, rotated[..i]) + [Job(rotated[i], queues[rotated[i]][r])]
    ensures Live(queues, rotated[..i + 1], r + 1) ==
              if |queues[rotated[i]]| > r + 1 then Live(queues, rotated[..i], r + 1) + [rotated[i]]
              else Live(queues, rotated[..i], r + 1)
  {
    assert rotated[..i + 1][..i] == rotated[..i];
  }

  lemma PopOne<F>(queues: seq<seq<F>>, r: nat, rotated: seq<nat>, i: nat, left: seq<seq<F>>)
    requires i < |rotated| && HaveFiles(queues, r, rotated) && Distinct(rotated)
    requires Popped(queues, r + 1, rotated[..i], left) && Popped(queues, r, rotated[i..], left)
    ensures left[rotated[i]] == queues[rotated[i]][r..]
    ensures var d := rotated[i]; var left' := left[d := queues[d][r + 1..]];
            Popped(queues, r + 1, rotated[..i + 1], left') && Popped(queues, r, rotated[i + 1..], left')
  {
    assert rotated[i..][0] == rotated[i];
    var d := rotated[i];
    var left' := left[d := queues[d][r + 1..]];
    forall j | 0 <= j < i ensures left'[rotated[..i + 1][j]] == left[rotated[..i][j]] {}
    forall j | i < j < |rotated| ensures left'[rotated[j]] == left[rotated[i..][j - i]] {}
  }

  /**
   The whole pull: the output is the first lines of the files in round-robin order, whatever order the
   fetches complete in.
  */
  method PullRoundRobin<F(==), T>(queues: seq<seq<F>>, fetch: Job<F> -> seq<T>, limit: int, concurrency: nat)
    returns (out: seq<T>)
    requires concurrency >= 1
    ensures limit >= 1 ==> OrderedDrain.First(out, OrderedDrain.AllLines(fetch, WorkOrder(queues)), limit)
  {
    var work := Flatten(queues);
    var drain := new OrderedDrain.Drain(fetch, limit, concurrency * 2);
    drain.Pull(work);
    out := drain.out;
  }
}
