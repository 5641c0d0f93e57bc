/**
 The audit's streaming fold: partial gradients arrive one by one in replicate order and are merged
 with a binary carry. Waiting partials live in memory or in spill files.
*/
module TreeFold {
  import opened Powers
  import opened ReduceTree
  import opened Wrappers

  /** Number of pushed gradients an entry of this level stands for. */
  function Size(level: nat): (s: nat)
    ensures s >= 1 && IsPow2(s)
  {
    if level == 0 then 1 else 2 * Size(level - 1)
  }

  lemma {:induction false} SizeMonotone(a: nat, b: nat)
    requires a < b
    ensures 2 * Size(a) <= Size(b)
  {
    if a + 1 >= b {
    } else {
      SizeMonotone(a, b - 1);
    }
  }

  /** A stack entry with its file read in. */
  datatype Part<+T> = Part(level: nat, sum: T)

  /**
   The stack holds the sums of consecutive runs of the first n pushes. Levels strictly decrease
   towards the top and each run is summed as a balanced tree.
  */
  ghost predicate Represents<T(!new)>(a: Arith<T>, st: seq<Part<T>>, p: seq<T>, n: nat)
    requires n <= |p|
    decreases |st|
  {
    if st == [] then n == 0
    else
      var top := st[|st| - 1];
      var s := Size(top.level);
      && s <= n
      && (|st| > 1 ==> st[|st| - 2].level > top.level)
      && top.sum == SliceSum(a, p, n - s, s)
      && Represents(a, st[..|st| - 1], p, n - s)
  }

  /** Merging the top entry, on the left, with the equal-sized run that follows it. */
  lemma RepresentsMerge<T(!new)>(a: Arith<T>, st: seq<Part<T>>, p: seq<T>, n: nat, level: nat, sum: T)
    requires n + Size(level) <= |p| && Represents(a, st, p, n) && st != [] && st[|st| - 1].level == level
    requires sum == SliceSum(a, p, n, Size(level))
    ensures Size(level) <= n && Represents(a, st[..|st| - 1], p, n - Size(level))
    ensures |st| > 1 ==> st[|st| - 2].level > level
    ensures a.add(st[|st| - 1].sum, sum) == SliceSum(a, p, n - Size(level), Size(level + 1))
  {
    var s := Size(level);
    assert Size(level + 1) == 2 * s;
    SliceHalves(a, p, n - s, s);
  }

  lemma RepresentsPush<T(!new)>(a: Arith<T>, st: seq<Part<T>>, p: seq<T>, n: nat, level: nat, sum: T)
    requires n + Size(level) <= |p| && Represents(a, st, p, n)
    requires st != [] ==> st[|st| - 1].level > level
    requires sum == SliceSum(a, p, n, Size(level))
    ensures Represents(a, st + [Part(level, sum)], p, n + Size(level))
  {
    assert (st + [Part(level, sum)])[..|st|] == st;
  }

  lemma {:induction false} SliceExtend<T(!new)>(a: Arith<T>, p: seq<T>, x: T, s: nat, w: nat)
    requires IsPow2(w) && s + w <= |p|
    ensures SliceSum(a, p + [x], s, w) == SliceSum(a, p, s, w)
    decreases w
  {
    if w <= 1 {
    } else {
      SliceExtend(a, p, x, s, w / 2);
      SliceExtend(a, p, x, s + w / 2, w / 2);
    }
  }

  /** Later pushes do not change what the entries stand for. */
  lemma {:induction false} RepresentsExtend<T(!new)>(a: Arith<T>, st: seq<Part<T>>, p: seq<T>, n: nat, x: T)
    requires n <= |p| && Represents(a, st, p, n)
    ensures Represents(a, st, p + [x], n)
    decreases |st|
  {
    if st == [] {
    } else {
      var s := Size(st[|st| - 1].level);
      SliceExtend(a, p, x, n - s, s);
      RepresentsExtend(a, st[..|st| - 1], p, n - s, x);
    }
  }

  // ----- the final fold -------------------------------------------------------------------------

  /** Left fold over the residual entries, lowest replicate first. */
  function FoldStack<T(!new)>(a: Arith<T>, st: seq<Part<T>>): T
    requires st != []
  {
    if |st| == 1 then st[0].sum
    else a.add(FoldStack(a, st[..|st| - 1]), st[|st| - 1].sum)
  }

  lemma {:induction false} LowAdd(x: nat, s: nat, w: nat)
    requires IsPow2(s) && IsPow2(w) && w <= s && Low(x, w) == 0
    ensures Low(x + s, w) == 0
  {
    if w <= 1 {
    } else {
      LowAdd(x / 2, s / 2, w / 2);
      assert (x + s) / 2 == x / 2 + s / 2;
    }
  }

  lemma {:induction false} RepresentsMultiple<T(!new)>(a: Arith<T>, st: seq<Part<T>>, p: seq<T>, n: nat, w: nat)
    requires n <= |p| && Represents(a, st, p, n) && IsPow2(w)
    requires st != [] ==> w <= Size(st[|st| - 1].level)
    ensures Low(n, w) == 0
    decreases |st|
  {
    if st != [] {
      var s := Size(st[|st| - 1].level);
      if |st| > 1 {
        SizeMonotone(st[|st| - 1].level, st[|st| - 2].level);
      }
      RepresentsMultiple(a, st[..|st| - 1], p, n - s, w);
      LowAdd(n - s, s, w);
    } else {
      LowSmall(0, w);
    }
  }

  /** Adding a smaller power of two does not change the top bit, nor what is below it. */
  lemma {:induction false} TopPlus(n: nat, r: nat)
    requires n > 0 && IsPow2(r) && Low(n, 2 * r) == 0
    ensures Top(n + r) == Top(n) && Low(n - Top(n), 2 * r) == 0
  {
    if r > 1 {
      assert 2 * r / 2 == r == 2 * (r / 2);
      TopPlus(n / 2, r / 2);
      assert (n + r) / 2 == n / 2 + r / 2;
      assert (n - Top(n)) / 2 == n / 2 - Top(n / 2);
    } else {
      assert n % 2 == 0 && (n + 1) / 2 == n / 2;
      LowSmall((n - Top(n)) / 2, 1);
    }
  }

  /** The binary-blocks sum of the first n pushes. */
  function TreeSumTo<T(!new)>(a: Arith<T>, p: seq<T>, n: nat): T
    requires 0 < n <= |p|
  {
    FoldSlices(a, SliceSum(a, p, 0, Top(n)), p, Top(n), n)
  }

  lemma {:induction false} FoldSnoc<T(!new)>(a: Arith<T>, acc: T, p: seq<T>, s: nat, n: nat, r: nat)
    requires s <= n && n + r <= |p| && IsPow2(r) && Low(n - s, 2 * r) == 0
    ensures FoldSlices(a, acc, p, s, n + r) == a.add(FoldSlices(a, acc, p, s, n), SliceSum(a, p, n, r))
    decreases n - s
  {
    hide IsPow2, Low, Top, SliceSum;
    if s == n {
      TopOfPow2(r);
    } else {
      TopPlus(n - s, r);
      var t := Top(n - s);
      assert n + r - s == (n - s) + r;
      FoldSnoc(a, a.add(acc, SliceSum(a, p, s, t)), p, s + t, n, r);
    }
  }

  /** A last, smaller block adds its sum on the right. */
  lemma TreeSumSnoc<T(!new)>(a: Arith<T>, p: seq<T>, n: nat, r: nat)
    requires 0 < n && n + r <= |p| && IsPow2(r) && Low(n, 2 * r) == 0
    ensures TreeSumTo(a, p, n + r) == a.add(TreeSumTo(a, p, n), SliceSum(a, p, n, r))
  {
    TopPlus(n, r);
    FoldSnoc(a, SliceSum(a, p, 0, Top(n)), p, Top(n), n, r);
  }

  /** One block alone is its own binary-blocks sum. */
  lemma OneBlock<T(!new)>(a: Arith<T>, p: seq<T>, s: nat)
    requires IsPow2(s) && s <= |p|
    ensures TreeSumTo(a, p, s) == SliceSum(a, p, 0, s)
  {
    TopUnique(s, s);
  }

  lemma BottomFolds<T(!new)>(a: Arith<T>, st: seq<Part<T>>, p: seq<T>, n: nat)
    requires n <= |p| && Represents(a, st, p, n) && |st| == 1
    ensures n > 0 && FoldStack(a, st) == TreeSumTo(a, p, n)
  {
    assert st[..0] == [];
    OneBlock(a, p, n);
  }

  lemma SpellSnoc<T>(st: seq<Part<T>>, before: seq<Block>, b: Block, all: seq<Block>)
    requires st != [] && |before| == |st| - 1 && all == before + [b] && b.size == Size(st[|st| - 1].level)
    requires forall i :: 0 <= i < |st| - 1 ==> Size(st[..|st| - 1][i].level) == before[i].size
    ensures |all| == |st| && forall i :: 0 <= i < |st| ==> Size(st[i].level) == all[i].size
  {
    forall i | 0 <= i < |st| ensures Size(st[i].level) == all[i].size {
      if i < |st| - 1 {
        assert st[..|st| - 1][i] == st[i];
      }
    }
  }

  /** What is on the stack folds to the binary-blocks sum of everything pushed. */
  lemma {:induction false} StackFoldsTo<T(!new)>(a: Arith<T>, st: seq<Part<T>>, p: seq<T>, n: nat)
    requires n <= |p| && Represents(a, st, p, n) && st != []
    ensures n > 0 && FoldStack(a, st) == TreeSumTo(a, p, n)
    decreases |st|
  {
    hide IsPow2, Low, Top, SliceSum, Size;
    var k := |st| - 1;
    if k == 0 {
      BottomFolds(a, st, p, n);
    } else {
      var s := Size(st[k].level);
      SizeMonotone(st[k].level, st[k - 1].level);
      StackFoldsTo(a, st[..k], p, n - s);
      RepresentsMultiple(a, st[..k], p, n - s, 2 * s);
      TreeSumSnoc(a, p, n - s, s);
    }
  }

  lemma StackFoldsToTreeSum<T(!new)>(a: Arith<T>, st: seq<Part<T>>, p: seq<T>)
    requires Represents(a, st, p, |p|) && st != []
    ensures p != [] && FoldStack(a, st) == TreeSum(a, p)
  {
    StackFoldsTo(a, st, p, |p|);
    TreeSumSlices(a, p);
  }

  lemma {:induction false} BlocksSnoc(start: nat, n: nat, r: nat)
    requires IsPow2(r) && Low(n, 2 * r) == 0
    ensures Blocks(start, n + r) == Blocks(start, n) + [Block(start + n, r)]
    decreases n
  {
    hide IsPow2, Low, Top;
    if n == 0 {
      TopOfPow2(r);
      assert Blocks(start + r, 0) == [];
    } else {
      TopPlus(n, r);
      BlocksSnoc(start + Top(n), n - Top(n), r);
      assert n - Top(n) + r == n + r - Top(n);
    }
  }

  /** The stack spells the number of pushes in binary: one entry per block of the cluster's reduction. */
  lemma {:induction false} StackSpellsCount<T(!new)>(a: Arith<T>, st: seq<Part<T>>, p: seq<T>, n: nat)
    requires n <= |p| && Represents(a, st, p, n)
    ensures |st| == |Blocks(0, n)|
    ensures forall i :: 0 <= i < |st| ==> Size(st[i].level) == Blocks(0, n)[i].size
    decreases |st|
  {
    hide IsPow2, Low, Top, SliceSum, Size;
    if st == [] {
    } else {
      var k := |st| - 1;
      var s := Size(st[k].level);
      if k > 0 {
        SizeMonotone(st[k].level, st[k - 1].level);
      }
      RepresentsMultiple(a, st[..k], p, n - s, 2 * s);
      StackSpellsCount(a, st[..k], p, n - s);
      BlocksSnoc(0, n - s, s);
      SpellSnoc(st, Blocks(0, n - s), Block(n - s, s), Blocks(0, n));
    }
  }

  // ----- how many partials one push carries through -----------------------------------------------

  /** The number of consecutive set bits of n from the bottom. */
  function Carries(n: nat): (c: nat)
    decreases n
  {
    if n % 2 == 1 then 1 + Carries(n / 2) else 0
  }

  /** A push that stops at a level has carried once for each level below it. */
  lemma {:induction false} CarryEnd(n: nat, level: nat)
    requires Low(n, 2 * Size(level)) == 0
    ensures Carries(n + Size(level) - 1) == level
  {
    hide Low, Carries, IsPow2;
    if level == 0 {
      LowEven(n, 1);
      CarriesTwice(n / 2);
    } else {
      var s := Size(level - 1);
      LowEven(n, 2 * s);
      CarryEnd(n / 2, level - 1);
      CarriesTwice(n / 2 + s - 1);
    }
  }

  lemma LowEven(n: nat, w: nat)
    requires w >= 1 && Low(n, 2 * w) == 0
    ensures n == 2 * (n / 2) && Low(n / 2, w) == 0
  {
    assert 2 * w / 2 == w;
  }

  lemma CarriesTwice(m: nat)
    ensures Carries(2 * m) == 0 && Carries(2 * m + 1) == 1 + Carries(m)
  {
    assert (2 * m + 1) / 2 == m;
  }

  function Max(x: nat, y: nat): nat {
    if x < y then y else x
  }

  function Least(x: nat, y: nat): nat {
    if x < y then x else y
  }

  /** Operands and partials of a push that has carried so often, at the worst moment. */
  function LevelPeak(carries: nat): (p: nat)
    ensures 1 <= p <= 3
  {
    if carries == 0 then 1 else if carries == 1 then 2 else 3
  }

  /**
   The most gradients a spilling push has in memory at once, after n earlier pushes, when its caller
   holds `held` gradients with the operand among them.
  */
  function PushPeak(n: nat, held: nat): nat
    requires held >= 1
  {
    held - 1 + LevelPeak(Carries(n))
  }

  lemma PeakGrows(high: nat, held: nat, level: nat)
    requires held >= 1
    ensures Max(Max(high, held - 1 + LevelPeak(level)), held + (if level == 0 then 0 else 1) + 1)
         == Max(high, held - 1 + LevelPeak(level + 1))
  {}

  lemma SumPeakGrows(high: nat, held: nat, i: nat)
    requires i >= 1
    ensures Max(Max(high, held + Least(i, 3)), held + (if i == 1 then 1 else 2) + 1)
         == Max(high, held + Least(i + 1, 3))
  {}

  /**
   From the second carry on a push has its operand, the sum so far and the partial just read in
   memory. Two gradients are enough exactly when nothing else is held and the count before the push
   is not 3 modulo 4, or one more is held and that count is even.
  */
  lemma TwoInMemory(n: nat, held: nat)
    requires held >= 1
    ensures PushPeak(n, held) <= 2 <==> (held == 1 && n % 4 != 3) || (held == 2 && n % 2 == 0)
  {
    assert n % 4 == 2 * (n / 2 % 2) + n % 2;
    assert Carries(n) == if n % 2 == 1 then 1 + Carries(n / 2) else 0;
  }

  // ----- the class ------------------------------------------------------------------------------

  /** A reference to an accumulator in memory, or the number of the spill file that holds it. */
  datatype Entry = Ram(ref: nat) | Disk(path: nat)

  datatype Slot = Slot(level: nat, entry: Entry)

  /** The spill directory (fold_<n>.pt by n) and the gradients in memory by reference. */
  datatype Storage<T> = Storage(files: map<nat, T>, nextFile: nat, live: map<nat, T>, nextRef: nat) {
    ghost predicate Holds(entry: Entry, sum: T) {
      if entry.Ram? then entry.ref in live && live[entry.ref] == sum
      else entry.path in files && files[entry.path] == sum
    }

    ghost predicate Numbered() {
      (forall r :: r in live ==> r < nextRef) && forall f :: f in files ==> f < nextFile
    }
  }

  /** These gradients are the same in both. */
  ghost predicate Same<T>(vars: set<nat>, x: map<nat, T>, y: map<nat, T>) {
    forall r :: r in vars ==> r in x && r in y && x[r] == y[r]
  }

  lemma SameStill<T>(vars: set<nat>, x: map<nat, T>, y: map<nat, T>, z: map<nat, T>)
    requires Same(vars, x, y) && Same(vars, y, z)
    ensures Same(vars, x, z)
  {}

  lemma OneMoreVar(vars: set<nat>, x: nat)
    ensures |vars + {x}| == |vars| + (if x in vars then 0 else 1)
  {
    if x in vars {
      assert vars + {x} == vars;
    }
  }

  /** The accumulators the stack refers to. */
  function StackRefs(st: seq<Slot>): set<nat> {
    set j | 0 <= j < |st| && st[j].entry.Ram? :: st[j].entry.ref
  }

  lemma OffStack(st: seq<Slot>, ref: nat)
    requires ref !in StackRefs(st)
    ensures forall j :: 0 <= j < |st| ==> st[j].entry != Ram(ref)
  {
    forall j | 0 <= j < |st| ensures st[j].entry != Ram(ref) {
      assert st[j].entry == Ram(ref) ==> ref in StackRefs(st);
    }
  }

  ghost predicate Distinct(st: seq<Slot>) {
    forall j, k :: 0 <= j < k < |st| ==> st[j].entry != st[k].entry
  }

  /** A slot and its part; the value is there unless it has been consumed. */
  ghost predicate SlotOk<T>(spill: bool, at: Storage<T>, slot: Slot, part: Part<T>, due: bool) {
    && slot.level == part.level
    && slot.entry.Disk? == spill
    && (due ==> at.Holds(slot.entry, part.sum))
  }

  /** The slots from i on hold their parts. */
  ghost predicate Links<T>(spill: bool, st: seq<Slot>, parts: seq<Part<T>>, at: Storage<T>, i: nat) {
    && |parts| == |st| && Distinct(st) && at.Numbered()
    && forall j :: 0 <= j < |st| ==> SlotOk(spill, at, st[j], parts[j], i <= j)
  }

  ghost predicate Owned(st: seq<Slot>, f: nat, i: nat) {
    exists j :: i <= j < |st| && st[j].entry == Disk(f)
  }

  /** The files are those of the slots from i on. */
  ghost predicate OnlyOwned(st: seq<Slot>, files: set<nat>, i: nat) {
    forall f :: f in files ==> Owned(st, f, i)
  }

  /** In memory is what the variables and the stack refer to, and nothing else. */
  ghost predicate Memory(st: seq<Slot>, live: set<nat>, vars: set<nat>) {
    live == vars + StackRefs(st)
  }

  lemma StackRefsSnoc(st: seq<Slot>, slot: Slot)
    ensures StackRefs(st + [slot]) == StackRefs(st) + (if slot.entry.Ram? then {slot.entry.ref} else {})
  {
    var st' := st + [slot];
    assert st'[|st|] == slot;
    forall r | r in StackRefs(st) ensures r in StackRefs(st') {
      var j :| 0 <= j < |st| && st[j].entry == Ram(r);
      assert st'[j] == st[j];
    }
  }

  lemma {:induction false} CountRefs(st: seq<Slot>)
    requires Distinct(st) && forall j :: 0 <= j < |st| ==> st[j].entry.Ram?
    ensures |StackRefs(st)| == |st|
  {
    if st == [] {
    } else {
      var n := |st| - 1;
      CountRefs(st[..n]);
      assert st == st[..n] + [st[n]];
      StackRefsSnoc(st[..n], st[n]);
    }
  }

  /** With a spill directory the stack keeps nothing in memory, without one everything. */
  lemma RefsOnStack<T>(spill: bool, st: seq<Slot>, parts: seq<Part<T>>, at: Storage<T>, i: nat)
    requires Links(spill, st, parts, at, i)
    ensures spill ==> StackRefs(st) == {}
    ensures !spill ==> |StackRefs(st)| == |st|
  {
    forall j | 0 <= j < |st| ensures st[j].entry.Disk? == spill {
      assert SlotOk(spill, at, st[j], parts[j], i <= j);
    }
    if !spill {
      CountRefs(st);
    }
  }

  /** As many files as entries. */
  lemma {:induction false} CountFiles<T>(st: seq<Slot>, parts: seq<Part<T>>, at: Storage<T>, n: nat, fs: set<nat>)
    requires Links(true, st, parts, at, 0) && n <= |st|
    requires forall f :: f in fs <==> exists j :: 0 <= j < n && st[j].entry == Disk(f)
    ensures |fs| == n
  {
    if n == 0 {
      assert fs == {};
    } else {
      assert SlotOk(true, at, st[n - 1], parts[n - 1], true);
      var f := st[n - 1].entry.path;
      assert st[n - 1].entry == Disk(f);
      assert fs == (fs - {f}) + {f};
      CountFiles(st, parts, at, n - 1, fs - {f});
    }
  }

  // --- what a fetch, a change of memory and a store leave linked ---

  /** Whatever `before` holds for the entry, `after` holds for it too. */
  ghost predicate Kept<T>(before: Storage<T>, after: Storage<T>, entry: Entry) {
    if entry.Ram? then
      entry.ref in before.live ==> entry.ref in after.live && after.live[entry.ref] == before.live[entry.ref]
    else
      entry.path in before.files ==> entry.path in after.files && after.files[entry.path] == before.files[entry.path]
  }

  lemma LinksKept<T>(spill: bool, st: seq<Slot>, parts: seq<Part<T>>, before: Storage<T>, after: Storage<T>, i: nat)
    requires Links(spill, st, parts, before, i) && after.Numbered()
    requires forall j :: i <= j < |st| ==> Kept(before, after, st[j].entry)
    ensures Links(spill, st, parts, after, i)
  {
    forall j | 0 <= j < |st| ensures SlotOk(spill, after, st[j], parts[j], i <= j) {
      assert SlotOk(spill, before, st[j], parts[j], i <= j);
    }
  }

  /** Collecting garbage or changing an accumulator the stack does not refer to. */
  lemma MemoryChange<T>(spill: bool, st: seq<Slot>, parts: seq<Part<T>>, before: Storage<T>, live: map<nat, T>, i: nat)
    requires Links(spill, st, parts, before, i) && live.Keys <= before.live.Keys
    requires forall j :: i <= j < |st| ==> Kept(before, before.(live := live), st[j].entry)
    ensures Links(spill, st, parts, before.(live := live), i)
  {
    LinksKept(spill, st, parts, before, before.(live := live), i);
  }

  /** A new gradient in memory. */
  /** A new gradient in memory is nobody's yet. */
  lemma NewRef<T>(st: seq<Slot>, at: Storage<T>, x: T, vars: set<nat>)
    requires at.Numbered() && Memory(st, at.live.Keys, vars)
    ensures var after := at.(live := at.live[at.nextRef := x], nextRef := at.nextRef + 1);
            && Memory(st, after.live.Keys, vars + {at.nextRef})
            && at.nextRef !in vars && at.nextRef !in StackRefs(st) && Same(vars, at.live, after.live)
            && (StackRefs(st) == {} ==> |after.live| == |vars| + 1)
  {
    hide StackRefs;
    var ref := at.nextRef;
    var after := at.(live := at.live[ref := x], nextRef := ref + 1);
    OneMoreVar(vars, ref);
    assert ref !in at.live.Keys;
    assert after.live.Keys == at.live.Keys + {ref};
    assert after.live.Keys == vars + {ref} + StackRefs(st);
    assert |after.live| == |after.live.Keys|;
    if StackRefs(st) == {} {
      assert after.live.Keys == vars + {ref};
    }
  }

  lemma HoldLinks<T>(spill: bool, st: seq<Slot>, parts: seq<Part<T>>, before: Storage<T>, x: T, i: nat)
    requires Links(spill, st, parts, before, i)
    ensures var after := before.(live := before.live[before.nextRef := x], nextRef := before.nextRef + 1);
            Links(spill, st, parts, after, i)
  {
    var after := before.(live := before.live[before.nextRef := x], nextRef := before.nextRef + 1);
    LinksKept(spill, st, parts, before, after, i);
  }

  /** The effect of `_fetch`. */
  ghost predicate Fetched<T>(before: Storage<T>, after: Storage<T>, entry: Entry, ref: nat) {
    && (entry.Ram? ==> ref == entry.ref && after == before)
    && (entry.Disk? ==> entry.path in before.files && ref == before.nextRef && after == Storage(
        before.files - {entry.path}, before.nextFile, before.live[ref := before.files[entry.path]], ref + 1))
  }

  lemma FetchKeeps<T>(before: Storage<T>, after: Storage<T>, entry: Entry, ref: nat, other: Entry)
    requires Fetched(before, after, entry, ref) && before.Numbered() && other != entry
    ensures Kept(before, after, other) && after.Numbered()
  {}

  lemma FetchLinks<T>(
    spill: bool, st: seq<Slot>, parts: seq<Part<T>>, before: Storage<T>, after: Storage<T>, i: nat, ref: nat)
    requires Links(spill, st, parts, before, i) && i < |st| && Fetched(before, after, st[i].entry, ref)
    ensures Links(spill, st, parts, after, i + 1)
    ensures ref in after.live && after.live[ref] == parts[i].sum
  {
    assert SlotOk(spill, before, st[i], parts[i], true);
    forall j | 0 <= j < |st| ensures SlotOk(spill, after, st[j], parts[j], i + 1 <= j) {
      assert SlotOk(spill, before, st[j], parts[j], i <= j);
      if i < j {
        FetchKeeps(before, after, st[i].entry, ref, st[j].entry);
      }
    }
  }

  lemma FetchFiles<T>(st: seq<Slot>, before: Storage<T>, after: Storage<T>, i: nat, ref: nat)
    requires OnlyOwned(st, before.files.Keys, i) && i < |st| && Fetched(before, after, st[i].entry, ref)
    ensures OnlyOwned(st, after.files.Keys, i + 1)
  {
    forall f | f in after.files ensures Owned(st, f, i + 1) {
      assert f in before.files && Owned(st, f, i);
      var j :| i <= j < |st| && st[j].entry == Disk(f);
      if j == i {
        assert false;
      }
    }
  }

  lemma FetchMemory<T>(
    st: seq<Slot>, vars: set<nat>, before: Storage<T>, after: Storage<T>, i: nat, ref: nat)
    requires Memory(st, before.live.Keys, vars) && i < |st| && Fetched(before, after, st[i].entry, ref)
    ensures Memory(st, after.live.Keys, vars + {ref})
  {}

  /** After a pop, the rest of the stack is linked. */
  lemma PopLinks<T>(spill: bool, st: seq<Slot>, parts: seq<Part<T>>, before: Storage<T>, after: Storage<T>, ref: nat)
    requires st != [] && Links(spill, st, parts, before, 0) && Fetched(before, after, st[|st| - 1].entry, ref)
    ensures Links(spill, st[..|st| - 1], parts[..|st| - 1], after, 0)
    ensures ref in after.live && after.live[ref] == parts[|st| - 1].sum
  {
    var k := |st| - 1;
    assert SlotOk(spill, before, st[k], parts[k], true);
    forall j | 0 <= j < k ensures SlotOk(spill, after, st[..k][j], parts[..k][j], true) {
      assert SlotOk(spill, before, st[j], parts[j], true);
      FetchKeeps(before, after, st[k].entry, ref, st[j].entry);
    }
  }

  lemma PopFiles<T>(st: seq<Slot>, before: Storage<T>, after: Storage<T>, ref: nat)
    requires st != [] && OnlyOwned(st, before.files.Keys, 0) && Fetched(before, after, st[|st| - 1].entry, ref)
    ensures OnlyOwned(st[..|st| - 1], after.files.Keys, 0)
  {
    var k := |st| - 1;
    forall f | f in after.files ensures Owned(st[..k], f, 0) {
      assert f in before.files && Owned(st, f, 0);
      var j :| 0 <= j < |st| && st[j].entry == Disk(f);
      if j == k {
        assert false;
      } else {
        assert st[..k][j].entry == Disk(f);
      }
    }
  }

  /** What is in memory once the top entry is off the stack and its value in a variable. */
  lemma PopMemory<T>(st: seq<Slot>, vars: set<nat>, before: Storage<T>, after: Storage<T>, ref: nat)
    requires st != [] && Distinct(st) && Memory(st, before.live.Keys, vars) && vars !! StackRefs(st)
    requires before.Numbered() && Fetched(before, after, st[|st| - 1].entry, ref)
    ensures Memory(st[..|st| - 1], after.live.Keys, vars + {ref})
    ensures ref !in vars && vars + {ref} !! StackRefs(st[..|st| - 1])
  {
    var k := |st| - 1;
    assert st == st[..k] + [st[k]];
    StackRefsSnoc(st[..k], st[k]);
    assert after.live.Keys == before.live.Keys + {ref};
  }

  /** The effect of `_store`. */
  ghost predicate Stored<T>(spill: bool, before: Storage<T>, after: Storage<T>, ref: nat, entry: Entry)
    requires ref in before.live
  {
    && (spill ==> entry == Disk(before.nextFile) && after == before.(
        files := before.files[before.nextFile := before.live[ref]], nextFile := before.nextFile + 1))
    && (!spill ==> entry == Ram(ref) && after == before)
  }

  lemma AppendLinks<T>(
    spill: bool, st: seq<Slot>, parts: seq<Part<T>>, before: Storage<T>, after: Storage<T>, slot: Slot, ref: nat)
    requires Links(spill, st, parts, before, 0) && ref in before.live && ref !in StackRefs(st)
    requires Stored(spill, before, after, ref, slot.entry)
    ensures Links(spill, st + [slot], parts + [Part(slot.level, before.live[ref])], after, 0)
  {
    forall j | 0 <= j < |st| ensures SlotOk(spill, after, st[j], parts[j], true) && st[j].entry != slot.entry {
      assert SlotOk(spill, before, st[j], parts[j], true);
    }
  }

  lemma AppendFiles<T>(spill: bool, st: seq<Slot>, before: Storage<T>, after: Storage<T>, slot: Slot, ref: nat)
    requires OnlyOwned(st, before.files.Keys, 0) && ref in before.live
    requires Stored(spill, before, after, ref, slot.entry)
    ensures OnlyOwned(st + [slot], after.files.Keys, 0)
  {
    var st' := st + [slot];
    forall f | f in after.files ensures Owned(st', f, 0) {
      if f in before.files {
        assert Owned(st, f, 0);
        var j :| 0 <= j < |st| && st[j].entry == Disk(f);
        assert st'[j].entry == Disk(f);
      } else {
        assert st'[|st|].entry == Disk(f);
      }
    }
  }

  lemma FoldStackStep<T(!new)>(a: Arith<T>, st: seq<Part<T>>, i: nat)
    requires 0 < i < |st|
    ensures FoldStack(a, st[..i + 1]) == a.add(FoldStack(a, st[..i]), st[i].sum)
  {
    assert st[..i + 1][..i] == st[..i];
  }

  /** `_DiskTreeFold`. `spill` says whether a spill directory was given. */
  class DiskTreeFold<T(!new)> {
    const arith: Arith<T>
    const spill: bool
    var stack: seq<Slot>
    /** The spill directory, and the memory with the caller's gradients in it. */
    var at: Storage<T>
    /** Everything pushed so far. */
    ghost var pushed: seq<T>
    /** The stack with its references and files read. */
    ghost var parts: seq<Part<T>>
    /** The most gradients ever in memory at once. */
    ghost var high: nat

    /** Entries from i on hold their parts, and the spill directory holds nothing else. */
    ghost predicate Linked(i: nat)
      reads this`stack, this`at, this`parts
    {
      Links(spill, stack, parts, at, i) && OnlyOwned(stack, at.files.Keys, i)
    }

    /** In memory is what the caller's variables and the stack refer to, and nothing else. */
    ghost predicate InMemory(vars: set<nat>)
      reads this`stack, this`at
    {
      Memory(stack, at.live.Keys, vars)
    }

    ghost predicate Valid()
      reads this
    {
      Linked(0) && Represents(arith, parts, pushed, |pushed|)
    }

    /** Between pushes there is one waiting partial per set bit of the number of pushes. */
    lemma WaitingSpellCount()
      requires Valid()
      ensures |stack| == |Blocks(0, |pushed|)|
      ensures forall i :: 0 <= i < |stack| ==> Size(stack[i].level) == Blocks(0, |pushed|)[i].size
      ensures spill ==> |at.files| == |stack| && forall f :: f in at.files <==> Owned(stack, f, 0)
      ensures |StackRefs(stack)| == if spill then 0 else |stack|
    {
      StackSpellsCount(arith, parts, pushed, |pushed|);
      forall i | 0 <= i < |stack| ensures Size(stack[i].level) == Blocks(0, |pushed|)[i].size {
        assert SlotOk(spill, at, stack[i], parts[i], true);
      }
      RefsOnStack(spill, stack, parts, at, 0);
      if spill {
        forall f | Owned(stack, f, 0) ensures f in at.files {
          var j :| 0 <= j < |stack| && stack[j].entry == Disk(f);
          assert SlotOk(spill, at, stack[j], parts[j], true);
        }
        CountFiles(stack, parts, at, |stack|, at.files.Keys);
      }
    }

    constructor (arith: Arith<T>, spill: bool)
      ensures Valid() && pushed == [] && this.arith == arith && this.spill == spill
      ensures at.files == map[] && at.live == map[] && InMemory({}) && high == 0
    {
      this.arith := arith;
      this.spill := spill;
      stack, parts := [], [];
      at := Storage(map[], 0, map[], 0);
      pushed := [];
      high := 0;
    }

    // --- memory and disk ---

    /** A gradient comes into memory. */
    method Hold(x: T) returns (ref: nat)
      modifies this`at, this`high
      ensures ref == old(at).nextRef
      ensures at == old(at).(live := old(at).live[ref := x], nextRef := ref + 1)
      ensures high == Max(old(high), |at.live|)
    {
      ref := at.nextRef;
      at := at.(live := at.live[ref := x], nextRef := ref + 1);
      high := Max(high, |at.live|);
    }

    /** Reference counting: what neither a variable nor the stack refers to leaves the memory. */
    method Collect(vars: set<nat>)
      modifies this`at
      ensures at == old(at).(live :=
        map r | r in old(at).live && (r in vars || r in StackRefs(stack)) :: old(at).live[r])
    {
      var kept := StackRefs(stack);
      at := at.(live := map r | r in at.live && (r in vars || r in kept) :: at.live[r]);
    }

    /** `left[name].add_(right[name])` for every name. */
    method AddInto(left: nat, right: nat)
      requires left in at.live && right in at.live
      modifies this`at
      ensures at == old(at).(live := old(at).live[left := arith.add(old(at).live[left], old(at).live[right])])
    {
      at := at.(live := at.live[left := arith.add(at.live[left], at.live[right])]);
    }

    /** `_store`. */
    method Store(ref: nat) returns (entry: Entry)
      requires ref in at.live
      modifies this`at
      ensures Stored(spill, old(at), at, ref, entry)
    {
      if !spill {
        return Ram(ref);
      }
      entry := Disk(at.nextFile);
      at := at.(files := at.files[at.nextFile := at.live[ref]], nextFile := at.nextFile + 1);
    }

    /** `_fetch`: reading a spilled partial back deletes its file. */
    method Fetch(entry: Entry) returns (ref: nat)
      requires entry.Disk? ==> entry.path in at.files
      modifies this`at, this`high
      ensures Fetched(old(at), at, entry, ref)
      ensures high == if entry.Disk? then Max(old(high), |at.live|) else old(high)
    {
      match entry
      case Ram(r) => ref := r;
      case Disk(f) =>
        ref := Hold(at.files[f]);
        at := at.(files := at.files - {f});
    }

    // --- the caller's variables ---

    /** A gradient comes into a variable of the caller. */
    method Read(x: T, vars: set<nat>) returns (ref: nat)
      requires Valid() && InMemory(vars)
      modifies this`at, this`high
      ensures Valid() && InMemory(vars + {ref}) && ref !in vars && ref !in StackRefs(stack)
      ensures ref in at.live && at.live[ref] == x
      ensures Same(vars, old(at).live, at.live)
      ensures spill ==> high == Max(old(high), |vars| + 1)
    {
      hide *;
      ReadKeeps(x, vars);
      ref := Hold(x);
      NowValid(vars + {ref});
    }

    lemma NowValid(vars: set<nat>)
      requires Links(spill, stack, parts, at, 0) && OnlyOwned(stack, at.files.Keys, 0)
      requires Represents(arith, parts, pushed, |pushed|) && Memory(stack, at.live.Keys, vars)
      ensures Valid() && InMemory(vars)
    {}

    /** What the store is when one more gradient is read. */
    lemma ReadKeeps(x: T, vars: set<nat>)
      requires Valid() && InMemory(vars)
      ensures var ref := at.nextRef;
              var after := at.(live := at.live[ref := x], nextRef := ref + 1);
              && Links(spill, stack, parts, after, 0) && Memory(stack, after.live.Keys, vars + {ref})
              && ref !in vars && ref !in StackRefs(stack) && Same(vars, at.live, after.live)
              && (spill ==> |after.live| == |vars| + 1)
      ensures OnlyOwned(stack, at.files.Keys, 0) && Represents(arith, parts, pushed, |pushed|)
    {
      hide *;
      ValidMeans(vars);
      RefsOnStack(spill, stack, parts, at, 0);
      HoldLinks(spill, stack, parts, at, x, 0);
      NewRef(stack, at, x, vars);
    }

    lemma ValidMeans(vars: set<nat>)
      requires Valid() && InMemory(vars)
      ensures Links(spill, stack, parts, at, 0) && OnlyOwned(stack, at.files.Keys, 0) && at.Numbered()
      ensures Represents(arith, parts, pushed, |pushed|) && Memory(stack, at.live.Keys, vars)
    {}

    /** Variables are rebound or go out of scope: only `vars` are left. */
    method Drop(vars: set<nat>, ghost from: set<nat>)
      requires Valid() && InMemory(from) && vars <= from
      modifies this`at
      ensures Valid() && InMemory(vars)
      ensures Same(vars, old(at).live, at.live)
    {
      hide OnlyOwned, SlotOk, Distinct, Represents;
      Collect(vars);
      MemoryChange(spill, stack, parts, old(at), at.live, 0);
    }

    /** In-place arithmetic on a gradient of the caller. */
    method Accumulate(left: nat, right: nat, ghost vars: set<nat>)
      requires Valid() && InMemory(vars) && left in vars && right in vars && left !in StackRefs(stack)
      modifies this`at
      ensures Valid() && InMemory(vars) && left in at.live
      ensures at.live[left] == arith.add(old(at).live[left], old(at).live[right])
    {
      hide OnlyOwned, SlotOk, Distinct, Represents;
      OffStack(stack, left);
      AddInto(left, right);
      MemoryChange(spill, stack, parts, old(at), at.live, 0);
    }

    method Scale(ref: nat, n: nat, ghost vars: set<nat>)
      requires Valid() && InMemory(vars) && ref in vars && ref !in StackRefs(stack)
      modifies this`at
      ensures Valid() && InMemory(vars) && ref in at.live && at.live[ref] == arith.mul(n, old(at).live[ref])
    {
      hide OnlyOwned, SlotOk, Distinct, Represents;
      OffStack(stack, ref);
      at := at.(live := at.live[ref := arith.mul(n, at.live[ref])]);
      MemoryChange(spill, stack, parts, old(at), at.live, 0);
    }

    // --- push ---

    /** Pops the top entry and reads it. */
    method Pop(ghost vars: set<nat>) returns (lower: nat)
      requires Linked(0) && stack != [] && InMemory(vars) && vars !! StackRefs(stack)
      modifies this`stack, this`at, this`parts, this`high
      ensures Linked(0) && parts == old(parts)[..|old(parts)| - 1] && stack == old(stack)[..|old(stack)| - 1]
      ensures InMemory(vars + {lower}) && lower !in vars && vars + {lower} !! StackRefs(stack)
      ensures old(parts) != [] && lower in at.live && at.live[lower] == old(parts)[|old(parts)| - 1].sum
      ensures Same(vars, old(at).live, at.live)
      ensures high == if spill then Max(old(high), |vars| + 1) else old(high)
    {
      hide *;
      PopReady(vars);
      ghost var st, ps, before := stack, parts, at;
      var k := |stack| - 1;
      var entry := stack[k].entry;
      stack, parts := stack[..k], parts[..k];
      lower := Fetch(entry);
      PopDone(st, ps, before, vars, lower);
    }

    /** The top entry can be read. */
    lemma PopReady(vars: set<nat>)
      requires Linked(0) && stack != [] && InMemory(vars)
      ensures Links(spill, stack, parts, at, 0) && OnlyOwned(stack, at.files.Keys, 0)
      ensures Memory(stack, at.live.Keys, vars)
      ensures |parts| == |stack| && stack[|stack| - 1].entry.Disk? == spill
      ensures spill ==> stack[|stack| - 1].entry.path in at.files
    {
      assert SlotOk(spill, at, stack[|stack| - 1], parts[|stack| - 1], true);
    }

    lemma PopDone(st: seq<Slot>, ps: seq<Part<T>>, before: Storage<T>, vars: set<nat>, lower: nat)
      requires st != [] && Links(spill, st, ps, before, 0) && OnlyOwned(st, before.files.Keys, 0)
      requires stack == st[..|st| - 1] && parts == ps[..|st| - 1] && Fetched(before, at, st[|st| - 1].entry, lower)
      requires Memory(st, before.live.Keys, vars) && vars !! StackRefs(st)
      ensures Linked(0) && InMemory(vars + {lower}) && lower !in vars && vars + {lower} !! StackRefs(stack)
      ensures lower in at.live && at.live[lower] == ps[|st| - 1].sum && Same(vars, before.live, at.live)
      ensures spill ==> |at.live| == |vars| + 1
    {
      hide SlotOk, Owned;
      PopLinks(spill, st, ps, before, at, lower);
      PopFiles(st, before, at, lower);
      PopMemory(st, vars, before, at, lower);
      RefsOnStack(spill, stack, parts, at, 0);
      OneMoreVar(vars, lower);
      assert spill ==> at.live.Keys == vars + {lower};
    }

    /** Appends an entry for a sum in memory. */
    method Append(level: nat, ref: nat)
      requires Linked(0) && ref in at.live && ref !in StackRefs(stack)
      modifies this`stack, this`at, this`parts
      ensures Linked(0) && parts == old(parts) + [Part(level, old(at).live[ref])] && at.live == old(at).live
      ensures StackRefs(stack) == old(StackRefs(stack)) + (if spill then {} else {ref})
    {
      var entry := Store(ref);
      var slot := Slot(level, entry);
      StackRefsSnoc(stack, slot);
      AppendLinks(spill, stack, parts, old(at), at, slot, ref);
      AppendFiles(spill, stack, old(at), at, slot, ref);
      stack, parts := stack + [slot], parts + [Part(level, at.live[ref])];
    }

    /** Adds in memory and lets go of what is no longer referred to. */
    method AddAndCollect(left: nat, right: nat, vars: set<nat>, ghost i: nat)
      requires Linked(i) && left in vars && left in at.live && right in at.live
      requires forall j :: i <= j < |stack| ==> stack[j].entry != Ram(left)
      requires vars + StackRefs(stack) <= at.live.Keys
      modifies this`at
      ensures Linked(i) && InMemory(vars) && at.files == old(at).files
      ensures left in at.live && at.live[left] == arith.add(old(at).live[left], old(at).live[right])
      ensures Same(vars - {left}, old(at).live, at.live)
    {
      AddInto(left, right);
      MemoryChange(spill, stack, parts, old(at), at.live, i);
      ghost var added := at;
      Collect(vars);
      MemoryChange(spill, stack, parts, added, at.live, i);
    }

    /**
     In the middle of a push: the stack stands for the first n pushes, `part` for the others, and
     beside the stack only the caller's gradients and `part` are in memory.
    */
    ghost predicate Carrying(level: nat, inner: nat, part: nat, n: nat, vars: set<nat>)
      reads this
    {
      && Linked(0) && InMemory(vars + {part}) && inner in vars
      && vars !! StackRefs(stack) && part !in StackRefs(stack)
      && (part in vars) == (level == 0) && (level == 0 ==> part == inner)
      && n + Size(level) == |pushed| && Represents(arith, parts, pushed, n)
      && part in at.live && at.live[part] == SliceSum(arith, pushed, n, Size(level))
    }

    /** The memory side of a carry: read, add in place, let the right operand go unless the caller holds it. */
    method ReadAndAdd(part: nat, vars: set<nat>) returns (lower: nat)
      requires Linked(0) && stack != [] && InMemory(vars + {part})
      requires vars !! StackRefs(stack) && part !in StackRefs(stack)
      modifies this`stack, this`at, this`parts, this`high
      ensures Linked(0) && parts == old(parts)[..|old(parts)| - 1] && stack == old(stack)[..|old(stack)| - 1]
      ensures InMemory(vars + {lower}) && vars !! StackRefs(stack) && lower !in StackRefs(stack)
      ensures lower !in vars && part in old(at).live && lower in at.live
      ensures at.live[lower] == arith.add(old(parts)[|old(parts)| - 1].sum, old(at).live[part])
      ensures Same(vars, old(at).live, at.live)
      ensures high == if spill then Max(old(high), |vars + {part}| + 1) else old(high)
    {
      lower := Pop(vars + {part});
      AddAndCollect(lower, part, vars + {lower}, 0);
      assert vars + {lower} - {lower} == vars;
    }

    /**
     One carry: the waiting partial of the same level comes back into memory and the sum so far is
     added on its right. The caller's gradients stay where they are.
    */
    method Merge(level: nat, inner: nat, part: nat, ghost n: nat, vars: set<nat>)
      returns (next: nat, lower: nat, ghost m: nat)
      requires Carrying(level, inner, part, n, vars) && stack != [] && stack[|stack| - 1].level == level
      modifies this`stack, this`at, this`parts, this`high
      ensures next == level + 1 && m == n - Size(level) && Carrying(next, inner, lower, m, vars)
      ensures |stack| == |old(stack)| - 1 && Same(vars, old(at).live, at.live)
      ensures parts != [] ==> parts[|parts| - 1].level > level
      ensures high == if spill then Max(old(high), |vars| + (if level == 0 then 0 else 1) + 1) else old(high)
    {
      hide *;
      MergeAlgebra(level, inner, part, n, vars);
      OneMoreVar(vars, part);
      next, m := level + 1, n - Size(level);
      lower := ReadAndAdd(part, vars);
      NowCarrying(next, inner, lower, m, vars);
    }

    /** What the merged run sums to, and what the rest of the stack stands for. */
    lemma MergeAlgebra(level: nat, inner: nat, part: nat, n: nat, vars: set<nat>)
      requires Carrying(level, inner, part, n, vars) && stack != [] && stack[|stack| - 1].level == level
      ensures Linked(0) && InMemory(vars + {part}) && |parts| == |stack| && part in at.live
      ensures inner in vars && vars !! StackRefs(stack) && part !in StackRefs(stack)
      ensures vars <= at.live.Keys && (part in vars) == (level == 0)
      ensures Size(level) <= n && n - Size(level) + Size(level + 1) == |pushed|
      ensures Represents(arith, parts[..|parts| - 1], pushed, n - Size(level))
      ensures |parts| > 1 ==> parts[|parts| - 2].level > level
      ensures arith.add(parts[|parts| - 1].sum, at.live[part])
           == SliceSum(arith, pushed, n - Size(level), Size(level + 1))
    {
      assert SlotOk(spill, at, stack[|stack| - 1], parts[|stack| - 1], true);
      RepresentsMerge(arith, parts, pushed, n, level, at.live[part]);
    }

    lemma NowCarrying(level: nat, inner: nat, part: nat, n: nat, vars: set<nat>)
      requires Linked(0) && InMemory(vars + {part}) && inner in vars && level > 0 && part !in vars
      requires vars !! StackRefs(stack) && part !in StackRefs(stack)
      requires n + Size(level) == |pushed| && Represents(arith, parts, pushed, n)
      requires part in at.live && at.live[part] == SliceSum(arith, pushed, n, Size(level))
      ensures Carrying(level, inner, part, n, vars)
    {}

    /** The carry loop of `push`: merges while the top entry has the level of the new sum. */
    method Carry(inner: nat, vars: set<nat>) returns (level: nat, part: nat, ghost n: nat)
      requires pushed != [] && Carrying(0, inner, inner, |pushed| - 1, vars) && Same(vars, at.live, at.live)
      requires |vars| >= 1 && (spill ==> |vars| <= high)
      modifies this`stack, this`at, this`parts, this`high
      ensures Carrying(level, inner, part, n, vars) && Same(vars, old(at).live, at.live)
      ensures parts != [] ==> parts[|parts| - 1].level > level
      ensures level == Carries(|pushed| - 1)
      ensures high == if spill then Max(old(high), PushPeak(|pushed| - 1, |vars|)) else old(high)
    {
      hide *;
      level, part, n := 0, inner, |pushed| - 1;
      if spill {
        PeakStarts(high, |vars|);
      }
      while stack != [] && stack[|stack| - 1].level == level
        invariant Carrying(level, inner, part, n, vars) && Same(vars, old(at).live, at.live)
        invariant parts != [] ==> parts[|parts| - 1].level >= level
        invariant high == if spill then Max(old(high), |vars| - 1 + LevelPeak(level)) else old(high)
        decreases |stack|
      {
        PeakGrows(old(high), |vars|, level);
        ghost var live := at.live;
        level, part, n := Merge(level, inner, part, n, vars);
        SameStill(vars, old(at).live, live, at.live);
      }
      CarriedAll(level, inner, part, n, vars);
    }

    lemma PeakStarts(high: nat, held: nat)
      requires 1 <= held <= high
      ensures Max(high, held - 1 + LevelPeak(0)) == high
    {}

    lemma CarriedAll(level: nat, inner: nat, part: nat, n: nat, vars: set<nat>)
      requires Carrying(level, inner, part, n, vars) && |vars| >= 1
      requires parts != [] ==> parts[|parts| - 1].level >= level
      requires stack != [] ==> stack[|stack| - 1].level != level
      ensures parts != [] ==> parts[|parts| - 1].level > level
      ensures level == Carries(|pushed| - 1)
      ensures PushPeak(|pushed| - 1, |vars|) == |vars| - 1 + LevelPeak(level)
    {
      if stack != [] {
        assert SlotOk(spill, at, stack[|stack| - 1], parts[|stack| - 1], true);
        SizeMonotone(level, parts[|parts| - 1].level);
      }
      assert Size(level + 1) == 2 * Size(level);
      RepresentsMultiple(arith, parts, pushed, n, Size(level + 1));
      CarryEnd(n, level);
    }

    /**
     `push` of the gradient `inner`, while the caller holds `vars`, the operand among them. The
     earlier partial stays on the left of every addition; the caller's gradients are not changed; and
     the most in memory at the worst moment is exact. Without spilling nothing comes into memory.
    */
    method Push(inner: nat, vars: set<nat>)
      requires Valid() && InMemory(vars) && inner in vars && vars !! StackRefs(stack)
      requires spill ==> |vars| <= high
      modifies this
      ensures Valid() && InMemory(vars)
      ensures inner in old(at).live && pushed == old(pushed) + [old(at).live[inner]]
      ensures Same(vars, old(at).live, at.live)
      ensures |vars| >= 1
      ensures high == if spill then Max(old(high), PushPeak(|old(pushed)|, |vars|)) else old(high)
    {
      hide *;
      ghost var before := |pushed|;
      Begin(inner, vars);
      assert |pushed| - 1 == before;
      var level, sum, n := Carry(inner, vars);
      ghost var carried := at.live;
      Settle(level, inner, sum, n, vars);
      SameStill(vars, old(at).live, carried, at.live);
    }

    /** The operand counts as pushed. */
    ghost method Begin(inner: nat, vars: set<nat>)
      requires Valid() && InMemory(vars) && inner in vars && vars !! StackRefs(stack)
      modifies this`pushed
      ensures inner in at.live && pushed == old(pushed) + [at.live[inner]] && |vars| >= 1
      ensures Carrying(0, inner, inner, |pushed| - 1, vars) && Same(vars, at.live, at.live)
    {
      hide Links, OnlyOwned, StackRefs;
      var part := at.live[inner];
      RepresentsExtend(arith, parts, pushed, |pushed|, part);
      var all := pushed + [part];
      assert SliceSum(arith, all, |pushed|, 1) == part;
      assert vars + {inner} == vars;
      OneMoreVar(vars - {inner}, inner);
      assert vars - {inner} + {inner} == vars;
      pushed := all;
    }

    /** The end of `push`: the carried sum becomes the top entry. */
    method Settle(level: nat, inner: nat, part: nat, ghost n: nat, vars: set<nat>)
      requires Carrying(level, inner, part, n, vars)
      requires parts != [] ==> parts[|parts| - 1].level > level
      modifies this`stack, this`at, this`parts
      ensures Valid() && InMemory(vars)
      ensures Same(vars, old(at).live, at.live)
    {
      RepresentsPush(arith, parts, pushed, n, level, at.live[part]);
      ghost var settled := parts + [Part(level, at.live[part])];
      assert Represents(arith, settled, pushed, |pushed|);
      Append(level, part);
      assert parts == settled;
      Drop(vars, vars + {part});
      assert parts == settled;
    }

    // --- result ---

    /** Reads entry i; the files of the later entries stay. */
    method FetchAt(i: nat, ghost vars: set<nat>) returns (part: nat)
      requires Linked(i) && i < |stack| && InMemory(vars)
      modifies this`at, this`high
      ensures Linked(i + 1) && InMemory(vars + {part}) && part in at.live && at.live[part] == parts[i].sum
      ensures forall r :: r in old(at).live ==> r in at.live && at.live[r] == old(at).live[r]
      ensures vars + {part} + StackRefs(stack) <= at.live.Keys
      ensures spill ==> part !in old(at).live
      ensures !spill ==> Ram(part) == stack[i].entry && at == old(at)
      ensures high == if spill then Max(old(high), |vars| + 1) else old(high)
    {
      assert SlotOk(spill, at, stack[i], parts[i], true);
      part := Fetch(stack[i].entry);
      FetchLinks(spill, stack, parts, old(at), at, i, part);
      FetchFiles(stack, old(at), at, i, part);
      FetchMemory(stack, vars, old(at), at, i, part);
      RefsOnStack(spill, stack, parts, old(at), i);
    }

    /** The accumulator of the total is not one of the later entries. */
    lemma NotOnRest(i: nat, acc: nat)
      requires Linked(i) && 1 <= i && stack != [] && (!spill ==> Ram(acc) == stack[0].entry)
      ensures forall j :: i <= j < |stack| ==> stack[j].entry != Ram(acc)
    {
      forall j | i <= j < |stack| ensures stack[j].entry != Ram(acc) {
        assert SlotOk(spill, at, stack[j], parts[j], true);
      }
    }

    /** The first i entries are summed in `acc`; `part` is the last one added. */
    ghost predicate Summing(i: nat, acc: nat, part: nat, vars: set<nat>)
      reads this
    {
      && 1 <= i <= |stack| && Linked(i) && InMemory(vars + {acc, part}) && (acc == part) == (i == 1)
      && acc in at.live && at.live[acc] == FoldStack(arith, parts[..i])
      && (spill ==> acc !in vars && part !in vars)
      && (!spill ==> Ram(acc) == stack[0].entry)
    }

    /** Entry i is read while the entry added before it is still in memory, then added to the total. */
    method FoldNext(i: nat, acc: nat, before: nat, vars: set<nat>) returns (part: nat)
      requires Summing(i, acc, before, vars) && i < |stack|
      modifies this`at, this`high
      ensures Summing(i + 1, acc, part, vars)
      ensures high == if spill then Max(old(high), |vars| + (if i == 1 then 1 else 2) + 1) else old(high)
    {
      hide *;
      SummingMeans(i, acc, before, vars);
      part := FetchAt(i, vars + {acc, before});
      NotOnRest(i + 1, acc);
      AddAndCollect(acc, part, vars + {acc, part}, i + 1);
      NowSumming(i + 1, acc, part, vars);
    }

    lemma SummingMeans(i: nat, acc: nat, part: nat, vars: set<nat>)
      requires Summing(i, acc, part, vars) && i < |stack|
      ensures Linked(i) && InMemory(vars + {acc, part}) && acc in at.live
      ensures |parts| == |stack| && stack != [] && 1 <= i && stack[i].entry != Ram(acc)
      ensures vars + {acc, part} <= at.live.Keys
      ensures spill ==> acc !in vars && |vars + {acc, part}| == |vars| + (if i == 1 then 1 else 2)
      ensures !spill ==> Ram(acc) == stack[0].entry
      ensures FoldStack(arith, parts[..i + 1]) == arith.add(at.live[acc], parts[i].sum)
    {
      NotOnRest(i, acc);
      FoldStackStep(arith, parts, i);
      OneMoreVar(vars, acc);
      OneMoreVar(vars + {acc}, part);
      assert vars + {acc} + {part} == vars + {acc, part};
    }

    lemma NowSumming(i: nat, acc: nat, part: nat, vars: set<nat>)
      requires 1 < i <= |stack| && Linked(i) && InMemory(vars + {acc, part}) && acc != part
      requires |parts| == |stack| && acc in at.live && at.live[acc] == FoldStack(arith, parts[..i])
      requires spill ==> acc !in vars && part !in vars
      requires !spill ==> Ram(acc) == stack[0].entry
      ensures Summing(i, acc, part, vars)
    {}

    method FoldFirst(vars: set<nat>) returns (acc: nat)
      requires Linked(0) && stack != [] && InMemory(vars)
      modifies this`at, this`high
      ensures Summing(1, acc, acc, vars) && |stack| >= 1
      ensures high == if spill then Max(old(high), |vars| + Least(1, 3)) else old(high)
    {
      acc := FetchAt(0, vars);
      assert vars + {acc} == vars + {acc, acc};
      assert parts[..1] == [parts[0]];
    }

    /** Reads the residual entries in ascending order and sums them from the left. */
    method FoldResidue(vars: set<nat>) returns (acc: nat)
      requires Linked(0) && stack != [] && InMemory(vars)
      modifies this`at, this`high
      ensures acc in at.live && at.live[acc] == FoldStack(arith, parts)
      ensures InMemory(vars + {acc}) && at.files == map[] && (!spill ==> Ram(acc) == stack[0].entry)
      ensures high == if spill then Max(old(high), |vars| + Least(|stack|, 3)) else old(high)
    {
      hide *;
      acc := FoldFirst(vars);
      var part := acc;
      var i := 1;
      while i < |stack|
        invariant Summing(i, acc, part, vars) && 1 <= i <= |stack|
        invariant high == if spill then Max(old(high), |vars| + Least(i, 3)) else old(high)
      {
        part := FoldNext(i, acc, part, vars);
        SumPeakGrows(old(high), |vars|, i);
        i := i + 1;
      }
      Release(acc, part, vars);
    }

    /** All entries are summed: beside the caller's gradients only the total stays in memory. */
    method Release(acc: nat, part: nat, vars: set<nat>)
      requires Summing(|stack|, acc, part, vars)
      modifies this`at
      ensures acc in at.live && at.live[acc] == FoldStack(arith, parts)
      ensures InMemory(vars + {acc}) && at.files == map[] && (!spill ==> Ram(acc) == stack[0].entry)
    {
      assert parts[..|stack|] == parts;
      AllConsumed();
      Collect(vars + {acc});
    }

    lemma AllConsumed()
      requires Linked(|stack|)
      ensures at.files == map[]
    {
      if f :| f in at.files {
        assert false;
      }
    }

    /**
     `result`, while the caller holds `vars`. The total is a gradient in memory; without a spill
     directory it is the first entry itself, summed into in place. Spill files are consumed.
    */
    method Total(vars: set<nat>) returns (r: Outcome<nat>)
      requires Valid() && InMemory(vars)
      modifies this`at, this`high
      ensures pushed == [] <==> r.Failure?
      ensures pushed != [] ==> r.value in at.live && at.live[r.value] == TreeSum(arith, pushed)
      ensures r.Ok? ==> InMemory(vars + {r.value}) && (!spill ==> Ram(r.value) == stack[0].entry)
      ensures at.files == map[]
      ensures high == if spill && pushed != [] then Max(old(high), |vars| + Least(|stack|, 3)) else old(high)
    {
      hide OnlyOwned, StackRefs, SlotOk, Distinct, FoldStack, TreeSum;
      if stack == [] {
        AllConsumed();
        return Failure("tree fold is empty (no replicate partials pushed)");
      }
      StackFoldsToTreeSum(arith, parts, pushed);
      var acc := FoldResidue(vars);
      r := Ok(acc);
    }
  }
}
