/** Nested training state as a skeleton and a flat dictionary of named tensors. */
module StateCodec {
  import opened Sets
  import opened Wrappers

  /** Dictionary keys; only the first four kinds can be written. */
  datatype Key = NoneKey | BoolKey(b: bool) | IntKey(i: int) | StrKey(s: string) | OtherKey(id: nat)

  datatype Atom = NoneAtom | BoolAtom(b: bool) | IntAtom(i: int) | StrAtom(s: string) | FloatAtom(r: real)

  datatype NonFinite = Inf | NegInf | NaN

  /** What a branch is, with the keys of a dictionary. */
  datatype Shape = Dict(keys: seq<Key>) | List | Tuple

  datatype Value<T> =
    | Tensor(t: T)
    | Branch(shape: Shape, children: seq<Value<T>>)
    | Scalar(a: Atom)
    | Float(f: NonFinite)
    | Blob(bytes: seq<bv8>)
    | Other(id: nat)

  datatype Node =
    | TensorNode(key: string)
    | BranchNode(shape: Shape, children: seq<Node>)
    | ScalarNode(a: Atom)
    | FloatNode(text: string)
    | BlobNode(bytes: seq<bv8>)

  predicate KeyOk(k: Key) {
    !k.OtherKey?
  }

  ghost predicate DistinctKeys(keys: seq<Key>) {
    forall i, j :: 0 <= i < j < |keys| ==> keys[i] != keys[j]
  }

  /** A dictionary has one child per key and no key twice. */
  ghost predicate WellFormed<T>(v: Value<T>) {
    match v
    case Branch(shape, children) =>
      && (shape.Dict? ==> |shape.keys| == |children| && DistinctKeys(shape.keys))
      && forall i :: 0 <= i < |children| ==> WellFormed(children[i])
    case _ => true
  }

  /** Values the format can hold. */
  ghost predicate Representable<T>(v: Value<T>) {
    match v
    case Branch(shape, children) =>
      && (shape.Dict? ==> forall i :: 0 <= i < |shape.keys| ==> !shape.keys[i].OtherKey?)
      && forall i :: 0 <= i < |children| ==> Representable(children[i])
    case Other(_) => false
    case _ => true
  }

  // ----- names ------------------------------------------------------------------------------------

  function Digit(d: nat): char
    requires d < 10
  {
    '0' + d as char
  }

  function Decimal(n: nat): (s: string)
    ensures s != []
  {
    if n < 10 then [Digit(n)] else Decimal(n / 10) + [Digit(n % 10)]
  }

  lemma {:induction false} DecimalInjective(m: nat, n: nat)
    requires Decimal(m) == Decimal(n)
    ensures m == n
  {
    var s := Decimal(m);
    assert s[|s| - 1] == Digit(m % 10) == Digit(n % 10);
    if m >= 10 && n >= 10 {
      assert Decimal(m / 10) == s[..|s| - 1] == Decimal(n / 10);
      DecimalInjective(m / 10, n / 10);
    }
  }

  /** The i-th name tried for a tensor, from 1 on: the base, then `base#2`, `base#3` and so on. */
  function Candidate(base: string, i: nat): string {
    if i <= 1 then base else base + "#" + Decimal(i)
  }

  lemma CandidatesDiffer(base: string, i: nat, j: nat)
    requires 1 <= i < j
    ensures Candidate(base, i) != Candidate(base, j)
  {
    if i > 1 && Candidate(base, i) == Candidate(base, j) {
      var p := base + "#";
      assert Decimal(i) == (p + Decimal(i))[|p|..] == (p + Decimal(j))[|p|..] == Decimal(j);
      DecimalInjective(i, j);
    }
  }

  function Tried(base: string, i: nat): (s: set<string>)
    ensures forall j :: 1 <= j < i ==> Candidate(base, j) in s
  {
    if i <= 1 then {} else Tried(base, i - 1) + {Candidate(base, i - 1)}
  }

  lemma {:induction false} TriedCount(base: string, i: nat)
    ensures |Tried(base, i)| == if i <= 1 then 0 else i - 1
    ensures forall s <- Tried(base, i) :: exists j :: 1 <= j < i && s == Candidate(base, j)
  {
    if i <= 1 {
    } else {
      TriedCount(base, i - 1);
      if Candidate(base, i - 1) in Tried(base, i - 1) {
        var j :| 1 <= j < i - 1 && Candidate(base, i - 1) == Candidate(base, j);
        CandidatesDiffer(base, j, i - 1);
      }
    }
  }

  /** When the first i names are taken, the dictionary has at least i entries: the search ends. */
  lemma SearchEnds(base: string, i: nat, taken: set<string>)
    requires i >= 1 && Tried(base, i) <= taken && Candidate(base, i) in taken
    ensures i <= |taken| && Tried(base, i + 1) <= taken
  {
    TriedCount(base, i + 1);
    SubsetSize(Tried(base, i + 1), taken);
  }

  /** The first candidate from the i-th on that is not taken. */
  function FreshName(base: string, i: nat, taken: set<string>): (name: string)
    requires i >= 1 && Tried(base, i) <= taken
    ensures name !in taken
    decreases |taken| + 1 - i
  {
    if Candidate(base, i) !in taken then Candidate(base, i) else
    SearchEnds(base, i, taken);
    FreshName(base, i + 1, taken)
  }

  function Join(path: seq<Key>, show: Key -> string): string {
    if path == [] then "" else
    if |path| == 1 then show(path[0]) else show(path[0]) + "." + Join(path[1..], show)
  }

  /** The base name of the tensor at a path. */
  function BaseName(path: seq<Key>, show: Key -> string): string {
    if Join(path, show) == "" then "_root" else Join(path, show)
  }

  // ----- flattening -------------------------------------------------------------------------------

  function Text(f: NonFinite): string {
    match f
    case Inf => "inf"
    case NegInf => "-inf"
    case NaN => "nan"
  }

  function FromText(s: string): Option<NonFinite> {
    if s == "inf" then Some(Inf) else if s == "-inf" then Some(NegInf) else if s == "nan" then Some(NaN) else None
  }

  /** The keys under which a branch's children extend the path. */
  function ChildKeys(shape: Shape, n: nat): seq<Key> {
    if shape.Dict? then shape.keys else seq(n, i => IntKey(i))
  }

  datatype Flattened<T, N> = Flattened(out: Outcome<N>, tensors: map<string, T>)

  /** The skeleton of v and the dictionary after its tensors are added, or the refusal. */
  function Flatten<T>(v: Value<T>, path: seq<Key>, show: Key -> string, tensors: map<string, T>): Flattened<T, Node>
    decreases v
  {
    match v
    case Tensor(t) =>
      var name := FreshName(BaseName(path, show), 1, tensors.Keys);
      Flattened(Ok(TensorNode(name)), tensors[name := t])
    case Branch(shape, children) =>
      var r := FlattenChildren(children, ChildKeys(shape, |children|), path, show, tensors);
      Flattened(if r.out.Ok? then Ok(BranchNode(shape, r.out.value)) else Failure(r.out.reason), r.tensors)
    case Scalar(a) => Flattened(Ok(ScalarNode(a)), tensors)
    case Float(f) => Flattened(Ok(FloatNode(Text(f))), tensors)
    case Blob(b) => Flattened(Ok(BlobNode(b)), tensors)
    case Other(_) => Flattened(Failure("no representation"), tensors)
  }

  /** Children left to right; the first refusal stops, and what was added before stays. */
  function FlattenChildren<T>(
    children: seq<Value<T>>, keys: seq<Key>, path: seq<Key>, show: Key -> string, tensors: map<string, T>):
    Flattened<T, seq<Node>>
    decreases children
  {
    if children == [] || keys == [] then Flattened(Ok([]), tensors) else
    if !KeyOk(keys[0]) then Flattened(Failure("key not representable"), tensors) else
    var first := Flatten(children[0], path + [keys[0]], show, tensors);
    if first.out.Failure? then Flattened(Failure(first.out.reason), first.tensors) else
    var rest := FlattenChildren(children[1..], keys[1..], path, show, first.tensors);
    Flattened(if rest.out.Ok? then Ok([first.out.value] + rest.out.value) else Failure(rest.out.reason), rest.tensors)
  }

  /** A Python dictionary built key by key: a repeated key replaces the earlier value in place. */
  function BuildDict<T>(keys: seq<Key>, values: seq<Value<T>>): (r: (seq<Key>, seq<Value<T>>))
    requires |keys| == |values|
    ensures |r.0| == |r.1|
  {
    if keys == [] then ([], []) else
    var n := |keys| - 1;
    var (ks, vs) := BuildDict(keys[..n], values[..n]);
    match Find(ks, keys[n])
    case Some(i) => (ks, vs[i := values[n]])
    case None => (ks + [keys[n]], vs + [values[n]])
  }

  function Find(keys: seq<Key>, k: Key): (r: Option<nat>)
    ensures r.Some? ==> r.value < |keys| && keys[r.value] == k
    ensures r.None? ==> k !in keys
  {
    if keys == [] then None else
    if keys[|keys| - 1] == k then Some(|keys| - 1) else Find(keys[..|keys| - 1], k)
  }

  function Unflatten<T>(node: Node, tensors: map<string, T>): Outcome<Value<T>>
    decreases node
  {
    match node
    case TensorNode(key) => if key in tensors then Ok(Tensor(tensors[key])) else Failure("missing tensor")
    case BranchNode(shape, children) =>
      var r := UnflattenChildren(children, tensors);
      if r.Failure? then Failure(r.reason) else
      if !shape.Dict? then Ok(Branch(shape, r.value)) else
      if |shape.keys| != |r.value| then Failure("bad items") else
      var (ks, vs) := BuildDict(shape.keys, r.value);
      Ok(Branch(Dict(ks), vs))
    case ScalarNode(a) => Ok(Scalar(a))
    case FloatNode(text) => if FromText(text).Some? then Ok(Float(FromText(text).value)) else Failure("not a float")
    case BlobNode(b) => Ok(Blob(b))
  }

  function UnflattenChildren<T>(nodes: seq<Node>, tensors: map<string, T>): (r: Outcome<seq<Value<T>>>)
    ensures r.Ok? ==> |r.value| == |nodes|
    decreases nodes
  {
    if nodes == [] then Ok([]) else
    match Unflatten(nodes[0], tensors)
    case Failure(why) => Failure(why)
    case Ok(first) =>
      match UnflattenChildren(nodes[1..], tensors)
      case Failure(why) => Failure(why)
      case Ok(rest) => Ok([first] + rest)
  }

  /** The tensor names a skeleton mentions. */
  function TensorKeys(node: Node): set<string>
    decreases node
  {
    match node
    case TensorNode(key) => {key}
    case BranchNode(_, children) => ChildTensorKeys(children)
    case _ => {}
  }

  function ChildTensorKeys(nodes: seq<Node>): set<string>
    decreases nodes
  {
    if nodes == [] then {} else TensorKeys(nodes[0]) + ChildTensorKeys(nodes[1..])
  }

  function TensorCount<T>(v: Value<T>): nat
    decreases v
  {
    match v
    case Tensor(_) => 1
    case Branch(_, children) => ChildTensorCount(children)
    case _ => 0
  }

  function ChildTensorCount<T>(vs: seq<Value<T>>): nat
    decreases vs
  {
    if vs == [] then 0 else TensorCount(vs[0]) + ChildTensorCount(vs[1..])
  }

  ghost predicate Within<T(!new)>(small: map<string, T>, big: map<string, T>) {
    forall k :: k in small ==> k in big && big[k] == small[k]
  }

  // ----- the round trip ---------------------------------------------------------------------------

  lemma {:induction false} BuildDistinct<T>(keys: seq<Key>, values: seq<Value<T>>)
    requires |keys| == |values| && DistinctKeys(keys)
    ensures BuildDict(keys, values) == (keys, values)
  {
    if keys == [] {
    } else {
      var n := |keys| - 1;
      BuildDistinct(keys[..n], values[..n]);
      assert keys[n] !in keys[..n];
      assert keys[..n] + [keys[n]] == keys && values[..n] + [values[n]] == values;
    }
  }

  lemma {:induction false} FlattenKeeps<T(!new)>(
    v: Value<T>, path: seq<Key>, show: Key -> string, tensors: map<string, T>)
    ensures Within(tensors, Flatten(v, path, show, tensors).tensors)
    decreases v
  {
    if v.Branch? {
      ChildrenKeep(v.children, ChildKeys(v.shape, |v.children|), path, show, tensors);
    }
  }

  lemma {:induction false} ChildrenKeep<T(!new)>(
    children: seq<Value<T>>, keys: seq<Key>, path: seq<Key>, show: Key -> string, tensors: map<string, T>)
    ensures Within(tensors, FlattenChildren(children, keys, path, show, tensors).tensors)
    decreases children
  {
    if children != [] && keys != [] && KeyOk(keys[0]) {
      FlattenKeeps(children[0], path + [keys[0]], show, tensors);
      var first := Flatten(children[0], path + [keys[0]], show, tensors);
      if first.out.Ok? {
        ChildrenKeep(children[1..], keys[1..], path, show, first.tensors);
      }
    }
  }

  lemma AddedTwice<A>(start: set<A>, x: set<A>, y: set<A>, mid: set<A>, end: set<A>)
    requires mid == start + x && start !! x && end == mid + y && mid !! y
    ensures end == start + (x + y) && start !! (x + y)
  {}

  /** The skeleton's names are exactly the entries added, one new entry per tensor. */
  lemma {:induction false} FlattenAdds<T>(v: Value<T>, path: seq<Key>, show: Key -> string, tensors: map<string, T>)
    requires WellFormed(v) && Flatten(v, path, show, tensors).out.Ok?
    ensures var r := Flatten(v, path, show, tensors);
            && r.tensors.Keys == tensors.Keys + TensorKeys(r.out.value)
            && tensors.Keys !! TensorKeys(r.out.value)
            && |r.tensors| == |tensors| + TensorCount(v)
    decreases v
  {
    hide *;
    if v.Branch? {
      var keys := ChildKeys(v.shape, |v.children|);
      BranchIsChildren(v, path, show, tensors);
      ChildrenAdd(v.children, keys, path, show, tensors);
    } else {
      LeafAdds(v, path, show, tensors);
    }
  }

  lemma LeafAdds<T>(v: Value<T>, path: seq<Key>, show: Key -> string, tensors: map<string, T>)
    requires !v.Branch? && Flatten(v, path, show, tensors).out.Ok?
    ensures var r := Flatten(v, path, show, tensors);
            && r.tensors.Keys == tensors.Keys + TensorKeys(r.out.value)
            && tensors.Keys !! TensorKeys(r.out.value)
            && |r.tensors| == |tensors| + TensorCount(v)
  {
    hide BaseName;
    if v.Tensor? {
      OneMoreEntry(tensors, FreshName(BaseName(path, show), 1, tensors.Keys), v.t);
    }
  }

  /** A branch adds what its children add. */
  lemma BranchIsChildren<T>(v: Value<T>, path: seq<Key>, show: Key -> string, tensors: map<string, T>)
    requires WellFormed(v) && v.Branch? && Flatten(v, path, show, tensors).out.Ok?
    ensures |ChildKeys(v.shape, |v.children|)| == |v.children|
    ensures forall i :: 0 <= i < |v.children| ==> WellFormed(v.children[i])
    ensures var r := Flatten(v, path, show, tensors);
            var all := FlattenChildren(v.children, ChildKeys(v.shape, |v.children|), path, show, tensors);
            && all.out.Ok? && r.tensors == all.tensors
            && TensorKeys(r.out.value) == ChildTensorKeys(all.out.value)
            && TensorCount(v) == ChildTensorCount(v.children)
  {
    hide FlattenChildren, ChildTensorKeys, ChildTensorCount;
  }

  lemma OneMoreEntry<T>(tensors: map<string, T>, name: string, t: T)
    requires name !in tensors
    ensures tensors[name := t].Keys == tensors.Keys + {name} && |tensors[name := t]| == |tensors| + 1
  {
    assert tensors[name := t].Keys == tensors.Keys + {name};
  }

  lemma {:induction false} ChildrenAdd<T>(
    children: seq<Value<T>>, keys: seq<Key>, path: seq<Key>, show: Key -> string, tensors: map<string, T>)
    requires |keys| == |children| && forall i :: 0 <= i < |children| ==> WellFormed(children[i])
    requires FlattenChildren(children, keys, path, show, tensors).out.Ok?
    ensures var r := FlattenChildren(children, keys, path, show, tensors);
            && r.tensors.Keys == tensors.Keys + ChildTensorKeys(r.out.value)
            && tensors.Keys !! ChildTensorKeys(r.out.value)
            && |r.tensors| == |tensors| + ChildTensorCount(children)
    decreases children
  {
    hide Flatten, TensorKeys, TensorCount, WellFormed;
    if children == [] {
    } else {
      var first := Flatten(children[0], path + [keys[0]], show, tensors);
      var rest := FlattenChildren(children[1..], keys[1..], path, show, first.tensors);
      FlattenAdds(children[0], path + [keys[0]], show, tensors);
      ChildrenAdd(children[1..], keys[1..], path, show, first.tensors);
      var nodes := [first.out.value] + rest.out.value;
      assert nodes[1..] == rest.out.value;
      AddedTwice(tensors.Keys, TensorKeys(first.out.value), ChildTensorKeys(rest.out.value),
                 first.tensors.Keys, rest.tensors.Keys);
    }
  }

  /** Flattening succeeds exactly on representable values. */
  lemma {:induction false} FlattenAccepts<T>(v: Value<T>, path: seq<Key>, show: Key -> string, tensors: map<string, T>)
    requires WellFormed(v)
    ensures Flatten(v, path, show, tensors).out.Ok? <==> Representable(v)
    decreases v
  {
    if v.Branch? {
      ChildrenAccept(v.children, ChildKeys(v.shape, |v.children|), path, show, tensors);
    }
  }

  lemma {:induction false} ChildrenAccept<T>(
    children: seq<Value<T>>, keys: seq<Key>, path: seq<Key>, show: Key -> string, tensors: map<string, T>)
    requires |keys| == |children| && forall i :: 0 <= i < |children| ==> WellFormed(children[i])
    ensures FlattenChildren(children, keys, path, show, tensors).out.Ok? <==>
              && (forall i :: 0 <= i < |keys| ==> KeyOk(keys[i]))
              && (forall i :: 0 <= i < |children| ==> Representable(children[i]))
    decreases children
  {
    if children != [] && KeyOk(keys[0]) {
      FlattenAccepts(children[0], path + [keys[0]], show, tensors);
      var first := Flatten(children[0], path + [keys[0]], show, tensors);
      if first.out.Ok? {
        ChildrenAccept(children[1..], keys[1..], path, show, first.tensors);
        assert forall i :: 0 < i < |keys| ==> keys[i] == keys[1..][i - 1];
        assert forall i :: 0 < i < |children| ==> children[i] == children[1..][i - 1];
      }
    }
  }

  /**
   Unflatten inverts flatten, from any dictionary that has all the entries present when it finished:
   whatever was in the dictionary before, and whatever is added after.
  */
  lemma {:induction false} RoundTrip<T(!new)>(
    v: Value<T>, path: seq<Key>, show: Key -> string, tensors: map<string, T>, later: map<string, T>)
    requires WellFormed(v) && Flatten(v, path, show, tensors).out.Ok?
    requires Within(Flatten(v, path, show, tensors).tensors, later)
    ensures Unflatten(Flatten(v, path, show, tensors).out.value, later) == Ok(v)
    decreases v
  {
    if v.Branch? {
      ChildrenRoundTrip(v.children, ChildKeys(v.shape, |v.children|), path, show, tensors, later);
      if v.shape.Dict? {
        BuildDistinct(v.shape.keys, v.children);
      }
    }
  }

  lemma {:induction false} ChildrenRoundTrip<T(!new)>(
    children: seq<Value<T>>, keys: seq<Key>, path: seq<Key>, show: Key -> string,
    tensors: map<string, T>, later: map<string, T>)
    requires |keys| == |children| && forall i :: 0 <= i < |children| ==> WellFormed(children[i])
    requires FlattenChildren(children, keys, path, show, tensors).out.Ok?
    requires Within(FlattenChildren(children, keys, path, show, tensors).tensors, later)
    ensures UnflattenChildren(FlattenChildren(children, keys, path, show, tensors).out.value, later) == Ok(children)
    decreases children
  {
    if children == [] {
    } else {
      var first := Flatten(children[0], path + [keys[0]], show, tensors);
      ChildrenKeep(children[1..], keys[1..], path, show, first.tensors);
      RoundTrip(children[0], path + [keys[0]], show, tensors, later);
      ChildrenRoundTrip(children[1..], keys[1..], path, show, first.tensors, later);
      var nodes := FlattenChildren(children, keys, path, show, tensors).out.value;
      assert nodes[1..] == FlattenChildren(children[1..], keys[1..], path, show, first.tensors).out.value;
      assert [children[0]] + children[1..] == children;
    }
  }

  /**
   Two trees in one dictionary, as the checkpoint packer writes the state and then its sidecar: both
   read back from the final dictionary, and each skeleton names exactly its own tensors.
  */
  lemma TwoTreesShareOneDictionary<T(!new)>(state: Value<T>, sidecar: Value<T>, show: Key -> string)
    requires WellFormed(state) && WellFormed(sidecar) && Representable(state) && Representable(sidecar)
    ensures var first := Flatten(state, [], show, map[]);
            var second := Flatten(sidecar, [StrKey("__sidecar__")], show, first.tensors);
            && first.out.Ok? && second.out.Ok?
            && Unflatten(first.out.value, second.tensors) == Ok(state)
            && Unflatten(second.out.value, second.tensors) == Ok(sidecar)
            && TensorKeys(first.out.value) !! TensorKeys(second.out.value)
            && second.tensors.Keys == TensorKeys(first.out.value) + TensorKeys(second.out.value)
            && |second.tensors| == TensorCount(state) + TensorCount(sidecar)
  {
    var first := Flatten(state, [], show, map[]);
    var side := [StrKey("__sidecar__")];
    var second := Flatten(sidecar, side, show, first.tensors);
    FlattenAccepts(state, [], show, map[]);
    FlattenAccepts(sidecar, side, show, first.tensors);
    FlattenKeeps(sidecar, side, show, first.tensors);
    RoundTrip(state, [], show, map[], second.tensors);
    RoundTrip(sidecar, side, show, first.tensors, second.tensors);
    FlattenAdds(state, [], show, map[]);
    FlattenAdds(sidecar, side, show, first.tensors);
  }

  // ----- what tensors are called ------------------------------------------------------------------

  /** The number a text of digits spells. */
  function Number(s: string): nat
    requires forall i :: 0 <= i < |s| ==> '0' <= s[i] <= '9'
  {
    if s == [] then 0 else 10 * Number(s[..|s| - 1]) + (s[|s| - 1] as int - '0' as int)
  }

  lemma {:induction false} DecimalReads(n: nat)
    ensures forall i :: 0 <= i < |Decimal(n)| ==> '0' <= Decimal(n)[i] <= '9'
    ensures Number(Decimal(n)) == n && (n > 0 ==> Decimal(n)[0] != '0')
  {
    if n < 10 {
      assert Decimal(n)[..0] == [];
    } else {
      DecimalReads(n / 10);
      assert Decimal(n)[..|Decimal(n)| - 1] == Decimal(n / 10);
    }
  }

  /** The keys of a path in order, with a dot between each two. */
  function Dotted(path: seq<Key>, show: Key -> string): string {
    if path == [] then "" else
    var n := |path| - 1;
    if n == 0 then show(path[0]) else Dotted(path[..n], show) + "." + show(path[n])
  }

  lemma {:induction false} JoinIsDotted(path: seq<Key>, show: Key -> string)
    ensures Join(path, show) == Dotted(path, show)
  {
    if |path| <= 1 {
    } else {
      JoinIsDotted(path[1..], show);
      DottedCons(path, show);
    }
  }

  lemma {:induction false} DottedCons(path: seq<Key>, show: Key -> string)
    requires |path| > 1
    ensures Dotted(path, show) == show(path[0]) + "." + Dotted(path[1..], show)
  {
    var n := |path| - 1;
    assert path[1..][..n - 1] == path[..n][1..];
    if n == 1 {
      assert Dotted(path[..1], show) == show(path[0]);
      assert path[1..] == [path[1]];
    } else {
      DottedCons(path[..n], show);
      var x, y, z := show(path[0]) + ".", Dotted(path[..n][1..], show), "." + show(path[n]);
      assert x + y + z == x + (y + z);
    }
  }

  /** The i-th name a tensor at this path may get. */
  function NameAt(path: seq<Key>, show: Key -> string, i: nat): string {
    var dotted := Dotted(path, show);
    var base := if dotted == "" then "_root" else dotted;
    if i <= 1 then base else base + "#" + Decimal(i)
  }

  /** Following child numbers from a value: the keys on the way, and where it ends. */
  function Along<T>(v: Value<T>, at: seq<nat>): Option<(seq<Key>, Value<T>)>
    decreases |at|
  {
    if at == [] then Some(([], v)) else
    if !v.Branch? || at[0] >= |v.children| || (v.shape.Dict? && at[0] >= |v.shape.keys|) then None else
    var key := if v.shape.Dict? then v.shape.keys[at[0]] else IntKey(at[0]);
    match Along(v.children[at[0]], at[1..])
    case None => None
    case Some((keys, end)) => Some(([key] + keys, end))
  }

  function NodeAlong(node: Node, at: seq<nat>): Option<Node>
    decreases |at|
  {
    if at == [] then Some(node) else
    if !node.BranchNode? || at[0] >= |node.children| then None else NodeAlong(node.children[at[0]], at[1..])
  }

  /** The skeleton names the tensor there by its i-th name, the dictionary has it under it, and all earlier names. */
  ghost predicate Called<T(!new)>(
    node: Node, tensors: map<string, T>, at: seq<nat>, path: seq<Key>, show: Key -> string, i: nat, t: T)
  {
    && i >= 1 && NodeAlong(node, at) == Some(TensorNode(NameAt(path, show, i)))
    && NameAt(path, show, i) in tensors && tensors[NameAt(path, show, i)] == t
    && forall j :: 1 <= j < i ==> NameAt(path, show, j) in tensors
  }

  lemma {:induction false} FreshIsFirst(base: string, i: nat, taken: set<string>) returns (k: nat)
    requires i >= 1 && Tried(base, i) <= taken
    ensures k >= i && FreshName(base, i, taken) == Candidate(base, k)
    ensures forall j :: i <= j < k ==> Candidate(base, j) in taken
    decreases |taken| + 1 - i
  {
    if Candidate(base, i) !in taken {
      k := i;
    } else {
      SearchEnds(base, i, taken);
      k := FreshIsFirst(base, i + 1, taken);
    }
  }

  lemma CalledStays<T(!new)>(
    node: Node, small: map<string, T>, big: map<string, T>, at: seq<nat>, path: seq<Key>, show: Key -> string,
    i: nat, t: T)
    requires Called(node, small, at, path, show, i, t) && Within(small, big)
    ensures Called(node, big, at, path, show, i, t)
  {}

  /**
   What a tensor is called: the keys on its path joined by dots, or _root for none; and when that is taken,
   the first of name#2, name#3 and so on that is not. Skeleton and dictionary agree on it.
  */
  lemma {:induction false} TensorIsCalled<T(!new)>(
    v: Value<T>, path: seq<Key>, show: Key -> string, tensors: map<string, T>, at: seq<nat>, keys: seq<Key>, t: T)
    returns (i: nat)
    requires WellFormed(v) && Flatten(v, path, show, tensors).out.Ok? && Along(v, at) == Some((keys, Tensor(t)))
    ensures var r := Flatten(v, path, show, tensors);
            Called(r.out.value, r.tensors, at, path + keys, show, i, t)
    decreases v, 0
  {
    if at == [] {
      assert path + keys == path;
      JoinIsDotted(path, show);
      i := FreshIsFirst(BaseName(path, show), 1, tensors.Keys);
      forall j | 1 <= j < i ensures NameAt(path, show, j) in tensors {
        assert NameAt(path, show, j) == Candidate(BaseName(path, show), j);
      }
    } else {
      var all := ChildKeys(v.shape, |v.children|);
      assert keys == [all[at[0]]] + Along(v.children[at[0]], at[1..]).value.0;
      i := ChildIsCalled(v.children, all, path, show, tensors, at[0], at[1..], keys[1..], t);
      assert path + keys == path + [all[at[0]]] + keys[1..];
    }
  }

  lemma {:induction false} ChildIsCalled<T(!new)>(
    children: seq<Value<T>>, keys: seq<Key>, path: seq<Key>, show: Key -> string, tensors: map<string, T>,
    c: nat, at: seq<nat>, below: seq<Key>, t: T)
    returns (i: nat)
    requires |keys| == |children| && forall x :: 0 <= x < |children| ==> WellFormed(children[x])
    requires FlattenChildren(children, keys, path, show, tensors).out.Ok?
    requires c < |children| && Along(children[c], at) == Some((below, Tensor(t)))
    ensures var r := FlattenChildren(children, keys, path, show, tensors);
            && |r.out.value| == |children|
            && Called(r.out.value[c], r.tensors, at, path + [keys[c]] + below, show, i, t)
    decreases children, 1
  {
    hide Called, WellFormed, Along;
    ChildCount(children, keys, path, show, tensors);
    var first := Flatten(children[0], path + [keys[0]], show, tensors);
    var rest := FlattenChildren(children[1..], keys[1..], path, show, first.tensors);
    if c == 0 {
      i := TensorIsCalled(children[0], path + [keys[0]], show, tensors, at, below, t);
      ChildrenKeep(children[1..], keys[1..], path, show, first.tensors);
      CalledStays(first.out.value, first.tensors, rest.tensors, at, path + [keys[0]] + below, show, i, t);
    } else {
      i := ChildIsCalled(children[1..], keys[1..], path, show, first.tensors, c - 1, at, below, t);
    }
  }

  lemma {:induction false} ChildCount<T>(
    children: seq<Value<T>>, keys: seq<Key>, path: seq<Key>, show: Key -> string, tensors: map<string, T>)
    requires |keys| == |children| && FlattenChildren(children, keys, path, show, tensors).out.Ok?
    ensures |FlattenChildren(children, keys, path, show, tensors).out.value| == |children|
    decreases children
  {
    if children == [] {
    } else {
      ChildCount(children[1..], keys[1..], path, show, Flatten(children[0], path + [keys[0]], show, tensors).tensors);
    }
  }

  /** The skeleton's node for a value: a reference for a tensor, the same branch, or the leaf itself. */
  predicate Mirrors<T>(v: Value<T>, node: Node) {
    match v
    case Tensor(_) => node.TensorNode?
    case Branch(shape, children) => node.BranchNode? && node.shape == shape && |node.children| == |children|
    case Scalar(a) => node == ScalarNode(a)
    case Float(f) => node == FloatNode(if f.Inf? then "inf" else if f.NegInf? then "-inf" else "nan")
    case Blob(b) => node == BlobNode(b)
    case Other(_) => false
  }

  /** The skeleton has the state's structure: at every place the node of the value there. */
  lemma {:induction false} SkeletonMirrors<T>(
    v: Value<T>, path: seq<Key>, show: Key -> string, tensors: map<string, T>, at: seq<nat>)
    requires WellFormed(v) && Flatten(v, path, show, tensors).out.Ok? && Along(v, at).Some?
    ensures var node := NodeAlong(Flatten(v, path, show, tensors).out.value, at);
            node.Some? && Mirrors(Along(v, at).value.1, node.value)
    decreases v, 0
  {
    if v.Branch? {
      ChildCount(v.children, ChildKeys(v.shape, |v.children|), path, show, tensors);
      if at != [] {
        ChildMirrors(v.children, ChildKeys(v.shape, |v.children|), path, show, tensors, at[0], at[1..]);
      }
    }
  }

  lemma {:induction false} ChildMirrors<T>(
    children: seq<Value<T>>, keys: seq<Key>, path: seq<Key>, show: Key -> string, tensors: map<string, T>,
    c: nat, at: seq<nat>)
    requires |keys| == |children| && forall x :: 0 <= x < |children| ==> WellFormed(children[x])
    requires FlattenChildren(children, keys, path, show, tensors).out.Ok?
    requires c < |children| && Along(children[c], at).Some?
    ensures var nodes := FlattenChildren(children, keys, path, show, tensors).out.value;
            && |nodes| == |children| && NodeAlong(nodes[c], at).Some?
            && Mirrors(Along(children[c], at).value.1, NodeAlong(nodes[c], at).value)
    decreases children, 1
  {
    hide WellFormed, Along, NodeAlong, Mirrors;
    ChildCount(children, keys, path, show, tensors);
    var first := Flatten(children[0], path + [keys[0]], show, tensors);
    if c == 0 {
      SkeletonMirrors(children[0], path + [keys[0]], show, tensors, at);
    } else {
      ChildMirrors(children[1..], keys[1..], path, show, first.tensors, c - 1, at);
    }
  }

  /** How the three floats that are no numbers are spelt, and what is read back. */
  lemma FloatTexts(s: string)
    ensures Text(Inf) == "inf" && Text(NegInf) == "-inf" && Text(NaN) == "nan"
    ensures FromText(s).Some? <==> s in ["inf", "-inf", "nan"]
    ensures FromText(s).Some? ==> Text(FromText(s).value) == s
  {}

  // ----- the shared dictionary --------------------------------------------------------------------

  /** The dictionary that recursive calls, and successive trees, add their tensors to. */
  class Packer<T> {
    const show: Key -> string
    var tensors: map<string, T>

    constructor (show: Key -> string)
      ensures this.show == show && tensors == map[]
    {
      this.show, tensors := show, map[];
    }

    /** The renaming loop: it ends, and its name is new. */
    method PickName(base: string) returns (name: string)
      ensures name == FreshName(base, 1, tensors.Keys)
    {
      name := base;
      var n := 2;
      while name in tensors
        invariant n >= 2 && name == Candidate(base, n - 1) && Tried(base, n - 1) <= tensors.Keys
        invariant FreshName(base, n - 1, tensors.Keys) == FreshName(base, 1, tensors.Keys)
        decreases |tensors| + 2 - n
      {
        SearchEnds(base, n - 1, tensors.Keys);
        name := base + "#" + Decimal(n);
        n := n + 1;
      }
    }

    method Pack(v: Value<T>, path: seq<Key>) returns (r: Outcome<Node>)
      modifies this`tensors
      ensures Flattened(r, tensors) == Flatten(v, path, show, old(tensors))
      decreases v
    {
      match v
      case Tensor(t) =>
        var name := PickName(BaseName(path, show));
        tensors := tensors[name := t];
        return Ok(TensorNode(name));
      case Branch(shape, children) =>
        var nodes := PackChildren(children, ChildKeys(shape, |children|), path);
        return if nodes.Ok? then Ok(BranchNode(shape, nodes.value)) else Failure(nodes.reason);
      case Scalar(a) =>
        return Ok(ScalarNode(a));
      case Float(f) =>
        return Ok(FloatNode(Text(f)));
      case Blob(b) =>
        return Ok(BlobNode(b));
      case Other(_) =>
        return Failure("no representation");
    }

    method PackChildren(children: seq<Value<T>>, keys: seq<Key>, path: seq<Key>) returns (r: Outcome<seq<Node>>)
      modifies this`tensors
      ensures Flattened(r, tensors) == FlattenChildren(children, keys, path, show, old(tensors))
      decreases children
    {
      if children == [] || keys == [] {
        return Ok([]);
      }
      if !KeyOk(keys[0]) {
        return Failure("key not representable");
      }
      var first := Pack(children[0], path + [keys[0]]);
      if first.Failure? {
        return Failure(first.reason);
      }
      var rest := PackChildren(children[1..], keys[1..], path);
      return if rest.Ok? then Ok([first.value] + rest.value) else Failure(rest.reason);
    }
  }
}
