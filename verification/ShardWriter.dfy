/** The sharder: encoded documents into size-bounded shards, and the merge of all workers' shards. */
module ShardWriter {
  import opened Wrappers
  import opened Bytes
  import opened IndexedDataset
  import opened Arithmetic
  import opened Sequences

  type Doc = seq<int>

  /** A shard's file stem: the worker's tag and the shard's number. */
  datatype Prefix = Prefix(tag: nat, number: nat)

  datatype ShardInfo = ShardInfo(prefix: Prefix, documents: nat, tokens: nat, binHash: nat, idxHash: nat)

  datatype Files = Files(bin: seq<Byte>, idx: Option<seq<Byte>>)

  type Directory = map<Prefix, Files>

  function NonEmpty(docs: seq<Doc>): seq<Doc> {
    if docs == [] then [] else
    var before := NonEmpty(docs[..|docs| - 1]);
    if docs[|docs| - 1] == [] then before else before + [docs[|docs| - 1]]
  }

  /** The kept documents stand at these places: all that are not empty, in their order. */
  ghost predicate KeptAt(docs: seq<Doc>, kept: seq<Doc>, at: seq<nat>) {
    && |at| == |kept|
    && (forall i :: 0 <= i < |at| ==> at[i] < |docs| && kept[i] == docs[at[i]] != [])
    && (forall i, j :: 0 <= i < j < |at| ==> at[i] < at[j])
    && (forall k: nat :: k < |docs| && docs[k] != [] ==> k in at)
  }

  lemma NothingKept()
    ensures KeptAt([], [], [])
  {}

  lemma KeptSnoc(docs: seq<Doc>, d: Doc, kept: seq<Doc>, at: seq<nat>)
    requires KeptAt(docs, kept, at)
    ensures d == [] ==> KeptAt(docs + [d], kept, at)
    ensures d != [] ==> KeptAt(docs + [d], kept + [d], at + [|docs|])
  {
    var next := if d == [] then at else at + [|docs|];
    forall k: nat | k < |docs + [d]| && (docs + [d])[k] != [] ensures k in next {
      if k < |docs| {
        assert k in at;
      } else {
        assert next[|at|] == |docs|;
      }
    }
  }

  /** Dropping the empty documents keeps all others, in their order. */
  lemma {:induction false} NonEmptyKeeps(docs: seq<Doc>) returns (at: seq<nat>)
    ensures KeptAt(docs, NonEmpty(docs), at)
  {
    hide KeptAt;
    if docs == [] {
      NothingKept();
      at := [];
    } else {
      var n := |docs| - 1;
      var before := NonEmptyKeeps(docs[..n]);
      at := if docs[n] == [] then before else before + [n];
      KeptSnoc(docs[..n], docs[n], NonEmpty(docs[..n]), before);
      assert docs == docs[..n] + [docs[n]];
    }
  }

  function PayloadSize(docs: seq<Doc>, w: nat): nat {
    Times(|Flat(docs)|, w)
  }

  /** The size the target is compared with is that of the payload file. */
  lemma PayloadIsFileSize(dt: Dtype, docs: seq<Doc>, bin: seq<Byte>)
    requires Written(dt, docs, bin)
    ensures |bin| == PayloadSize(docs, dt.Size())
  {
    EncodedLength(dt, Flat(docs));
  }

  /** Documents fallen into closed shards and one open shard. */
  datatype Cut = Cut(closed: seq<seq<Doc>>, open: seq<Doc>) {
    /** A shard is closed once it reaches the target size. */
    function Add(d: Doc, target: int, w: nat): Cut {
      var cur := open + [d];
      if PayloadSize(cur, w) >= target then Cut(closed + [cur], []) else Cut(closed, cur)
    }

    function Shards(): seq<seq<Doc>> {
      if open == [] then closed else closed + [open]
    }
  }

  function CutAll(docs: seq<Doc>, target: int, w: nat): Cut {
    if docs == [] then Cut([], []) else
    var before := CutAll(docs[..|docs| - 1], target, w);
    if docs[|docs| - 1] == [] then before else before.Add(docs[|docs| - 1], target, w)
  }

  function ShardsOf(docs: seq<Doc>, target: int, w: nat): seq<seq<Doc>> {
    CutAll(docs, target, w).Shards()
  }

  /** The entry names shard `number` of the worker and counts these documents. */
  ghost predicate Counts(info: ShardInfo, tag: nat, number: nat, docs: seq<Doc>) {
    info.prefix == Prefix(tag, number) && info.documents == |docs| && info.tokens == |Flat(docs)|
  }

  ghost predicate Lists(infos: seq<ShardInfo>, tag: nat, shards: seq<seq<Doc>>) {
    |infos| == |shards| && forall i :: 0 <= i < |infos| ==> Counts(infos[i], tag, i, shards[i])
  }

  /** The entry records the hashes of the two files under its stem. */
  ghost predicate Hashed(dir: Directory, hash: seq<Byte> -> nat, info: ShardInfo) {
    && info.prefix in dir && dir[info.prefix].idx.Some?
    && info.binHash == hash(dir[info.prefix].bin) && info.idxHash == hash(dir[info.prefix].idx.value)
  }

  ghost predicate AllHashed(dir: Directory, hash: seq<Byte> -> nat, infos: seq<ShardInfo>) {
    forall i :: 0 <= i < |infos| ==> Hashed(dir, hash, infos[i])
  }

  /** The directory holds the two files of these documents under this stem. */
  ghost predicate Stores(dir: Directory, dt: Dtype, p: Prefix, docs: seq<Doc>) {
    p in dir && Written(dt, docs, dir[p].bin) && dir[p].idx.Some? && IsIndexOf(dir[p].idx.value, dt, docs)
  }

  ghost predicate StoresAll(dir: Directory, dt: Dtype, tag: nat, shards: seq<seq<Doc>>) {
    forall i :: 0 <= i < |shards| ==> Stores(dir, dt, Prefix(tag, i), shards[i])
  }

  /** Every file of the directory belongs to the worker's first n shards. */
  ghost predicate Only(dir: Directory, tag: nat, n: nat) {
    forall p :: p in dir ==> p.tag == tag && p.number < n
  }

  ghost predicate AllIndexable(dt: Dtype, shards: seq<seq<Doc>>) {
    forall i :: 0 <= i < |shards| ==> Indexable(dt, shards[i])
  }

  /** What is finished: listed, stored and hashed. */
  ghost predicate Done(
    dir: Directory, dt: Dtype, tag: nat, hash: seq<Byte> -> nat, infos: seq<ShardInfo>, shards: seq<seq<Doc>>)
  {
    Lists(infos, tag, shards) && StoresAll(dir, dt, tag, shards) && AllHashed(dir, hash, infos)
  }

  /** Files under a later stem do not disturb what is finished. */
  lemma DoneKept(
    dir: Directory, dt: Dtype, tag: nat, hash: seq<Byte> -> nat, infos: seq<ShardInfo>, shards: seq<seq<Doc>>,
    files: Files)
    requires Done(dir, dt, tag, hash, infos, shards)
    ensures Done(dir[Prefix(tag, |infos|) := files], dt, tag, hash, infos, shards)
  {
    var p := Prefix(tag, |infos|);
    forall i | 0 <= i < |infos|
      ensures Stores(dir[p := files], dt, Prefix(tag, i), shards[i]) && Hashed(dir[p := files], hash, infos[i])
    {
      assert Stores(dir, dt, Prefix(tag, i), shards[i]) && Hashed(dir, hash, infos[i]);
      assert Counts(infos[i], tag, i, shards[i]);
    }
  }

  lemma DoneMore(
    dir: Directory, dt: Dtype, tag: nat, hash: seq<Byte> -> nat, infos: seq<ShardInfo>, shards: seq<seq<Doc>>,
    info: ShardInfo, docs: seq<Doc>)
    requires Done(dir, dt, tag, hash, infos, shards)
    requires Counts(info, tag, |infos|, docs) && Stores(dir, dt, info.prefix, docs) && Hashed(dir, hash, info)
    ensures Done(dir, dt, tag, hash, infos + [info], shards + [docs])
  {}

  /** One worker's sharder: the counters of the shard being written, and what is finished. */
  class Sharder {
    const dtype: Dtype
    const target: int
    const tag: nat
    const hash: seq<Byte> -> nat
    var dir: Directory
    var shards: seq<ShardInfo>
    var writer: Writer
    var bytesWritten: nat
    var docsInShard: nat
    var tokensInShard: nat
    ghost var closed: seq<seq<Doc>>

    constructor (dtype: Dtype, target: int, tag: nat, hash: seq<Byte> -> nat)
      ensures this.dtype == dtype && this.target == target && this.tag == tag && this.hash == hash
      ensures fresh(writer) && Valid() && closed == [] && writer.docs == []
    {
      this.dtype, this.target, this.tag, this.hash := dtype, target, tag, hash;
      dir := map[Prefix(tag, 0) := Files([], None)];
      shards, bytesWritten, docsInShard, tokensInShard, closed := [], 0, 0, 0, [];
      writer := new Writer(dtype);
    }

    ghost predicate Finished()
      reads this`dir, this`shards, this`closed
    {
      Closed() && Only(dir, tag, |closed| + 1)
    }

    /** What is closed is listed, stored and hashed. */
    ghost predicate Closed()
      reads this`dir, this`shards, this`closed
    {
      Done(dir, dtype, tag, hash, shards, closed)
    }

    ghost predicate Counted()
      reads this`writer, writer, this`bytesWritten, this`docsInShard, this`tokensInShard
    {
      && bytesWritten == PayloadSize(writer.docs, dtype.Size())
      && docsInShard == |writer.docs| && tokensInShard == |Flat(writer.docs)|
    }

    ghost predicate Valid()
      reads this, writer
    {
      writer.dtype == dtype && writer.Valid() && !writer.closed && Finished() && Counted()
    }

    ghost function State(): Cut
      reads this, writer
    {
      Cut(closed, writer.docs)
    }

    /** Closes the open shard and records it. */
    method CloseShard() returns (ok: bool)
      requires Valid()
      modifies this`dir, this`shards, this`closed, writer
      ensures ok <==> Indexable(dtype, old(writer.docs))
      ensures ok ==> closed == old(closed) + [old(writer.docs)]
      ensures ok ==> Closed() && Only(dir, tag, |closed|)
    {
      var done := writer.Close();
      ok := done.Ok?;
      if ok {
        var files := Files(writer.bin, writer.idx);
        var info := ShardInfo(
          Prefix(tag, |shards|), docsInShard, tokensInShard, hash(writer.bin), hash(writer.idx.value));
        DoneKept(dir, dtype, tag, hash, shards, closed, files);
        dir := dir[Prefix(tag, |shards|) := files];
        DoneMore(dir, dtype, tag, hash, shards, closed, info, writer.docs);
        shards := shards + [info];
        closed := closed + [writer.docs];
      }
    }

    method OpenShard()
      requires Closed() && Only(dir, tag, |closed|)
      modifies this`dir, this`writer, this`bytesWritten, this`docsInShard, this`tokensInShard
      ensures fresh(writer) && Valid() && writer.docs == []
    {
      bytesWritten, docsInShard, tokensInShard := 0, 0, 0;
      DoneKept(dir, dtype, tag, hash, shards, closed, Files([], None));
      dir := dir[Prefix(tag, |shards|) := Files([], None)];
      writer := new Writer(dtype);
    }

    /** Writes one document into the open shard and counts it. */
    method Append(d: Doc) returns (ok: bool)
      requires Valid()
      modifies this`bytesWritten, this`docsInShard, this`tokensInShard, writer
      ensures ok <==> dtype.HoldsAll(d)
      ensures ok ==> Valid() && writer.docs == old(writer.docs) + [d]
    {
      var added := writer.AddDocument(d);
      ok := added.Ok?;
      if ok {
        OneMore(old(writer.docs), d, dtype.Size());
        bytesWritten := bytesWritten + Times(|d|, dtype.Size());
        docsInShard := docsInShard + 1;
        tokensInShard := tokensInShard + |d|;
      }
    }

    /** Adds one non-empty document; a failure is a token or an offset that does not fit. */
    method Add(d: Doc) returns (ok: bool)
      requires Valid() && d != []
      modifies this, writer
      ensures writer == old(writer) || fresh(writer)
      ensures ok ==> Valid() && dtype.HoldsAll(d) && State() == old(State()).Add(d, target, dtype.Size())
      ensures !ok ==> !dtype.HoldsAll(d) || !AllIndexable(dtype, old(State()).Add(d, target, dtype.Size()).closed)
    {
      ok := Append(d);
      if !ok {
        return;
      }
      if bytesWritten >= target {
        ghost var cut := old(State()).Add(d, target, dtype.Size());
        assert cut.closed[|old(closed)|] == writer.docs;
        ok := CloseShard();
        if ok {
          OpenShard();
        }
      }
    }

    /** The first i documents are in. */
    ghost predicate Reached(docs: seq<Doc>, i: nat)
      requires i <= |docs|
      reads this, writer
    {
      && Valid() && State() == CutAll(docs[..i], target, dtype.Size())
      && AllFit(dtype, docs[..i])
    }

    method AddAt(docs: seq<Doc>, i: nat) returns (ok: bool)
      requires i < |docs| && Reached(docs, i)
      modifies this, writer
      ensures writer == old(writer) || fresh(writer)
      ensures ok ==> Reached(docs, i + 1)
      ensures !ok ==> !AllFit(dtype, docs) || !AllIndexable(dtype, ShardsOf(docs, target, dtype.Size()))
    {
      ok := true;
      CutStep(docs, i, dtype, target);
      if docs[i] != [] {
        ok := Add(docs[i]);
        if !ok {
          Stuck(docs, i, dtype, target);
          return;
        }
      }
      FitStep(docs, i, dtype);
    }

    method AddAll(docs: seq<Doc>) returns (ok: bool)
      requires Valid() && closed == [] && writer.docs == []
      modifies this, writer
      ensures ok ==> fresh(writer) || writer == old(writer)
      ensures ok ==> Reached(docs, |docs|)
      ensures !ok ==> !AllFit(dtype, docs) || !AllIndexable(dtype, ShardsOf(docs, target, dtype.Size()))
    {
      for i := 0 to |docs|
        invariant writer == old(writer) || fresh(writer)
        invariant Reached(docs, i)
      {
        ok := AddAt(docs, i);
        if !ok {
          return;
        }
      }
      return true;
    }

    /** Flushes the trailing shard, or removes its files when it is empty. */
    method Finish() returns (ok: bool)
      requires Valid()
      modifies this`dir, this`shards, this`closed, writer
      ensures ok <==> old(writer.docs) == [] || Indexable(dtype, old(writer.docs))
      ensures ok ==> closed == old(State().Shards())
      ensures ok ==> Closed() && Only(dir, tag, |closed|)
    {
      if docsInShard > 0 {
        ok := CloseShard();
      } else {
        var _ := writer.Close();
        RemoveOpenFiles();
        ok := true;
      }
    }

    /** Unlinks the files of the shard that was never filled. */
    method RemoveOpenFiles()
      requires Finished()
      modifies this`dir
      ensures Closed() && Only(dir, tag, |closed|)
    {
      dir := dir - {Prefix(tag, |shards|)};
    }
  }

  lemma OneMore(docs: seq<Doc>, d: Doc, w: nat)
    ensures |Flat(docs + [d])| == |Flat(docs)| + |d|
    ensures PayloadSize(docs + [d], w) == PayloadSize(docs, w) + Times(|d|, w)
  {
    assert (docs + [d])[..|docs|] == docs;
    assert (|Flat(docs)| + |d|) * w == |Flat(docs)| * w + |d| * w;
  }

  /** Shards closed after some documents stay closed. */
  lemma {:induction false} CutGrows(docs: seq<Doc>, k: nat, target: int, w: nat)
    requires k <= |docs|
    ensures CutAll(docs[..k], target, w).closed <= CutAll(docs, target, w).closed <= ShardsOf(docs, target, w)
  {
    var m := |docs| - 1;
    if k <= m {
      CutGrows(docs[..m], k, target, w);
      assert docs[..m][..k] == docs[..k];
    } else {
      assert docs[..k] == docs;
    }
  }

  lemma StoredIndexable(dir: Directory, dt: Dtype, tag: nat, shards: seq<seq<Doc>>)
    requires StoresAll(dir, dt, tag, shards)
    ensures AllIndexable(dt, shards)
  {
    forall i | 0 <= i < |shards| ensures Indexable(dt, shards[i]) {
      assert Stores(dir, dt, Prefix(tag, i), shards[i]);
    }
  }

  lemma PrefixIndexable(dt: Dtype, some: seq<seq<Doc>>, all: seq<seq<Doc>>)
    requires some <= all && AllIndexable(dt, all)
    ensures AllIndexable(dt, some)
  {
    forall i | 0 <= i < |some| ensures Indexable(dt, some[i]) {
      assert Indexable(dt, all[i]);
    }
  }

  lemma LastNotIndexable(dt: Dtype, cut: Cut)
    requires !Indexable(dt, cut.open) && cut.open != []
    ensures !AllIndexable(dt, cut.Shards())
  {
    assert cut.Shards()[|cut.closed|] == cut.open;
  }

  ghost predicate AllFit(dt: Dtype, docs: seq<Doc>) {
    forall i :: 0 <= i < |docs| ==> dt.HoldsAll(docs[i])
  }

  lemma CutStep(docs: seq<Doc>, i: nat, dt: Dtype, target: int)
    requires i < |docs|
    ensures var before := CutAll(docs[..i], target, dt.Size());
            CutAll(docs[..i + 1], target, dt.Size()) ==
              if docs[i] == [] then before else before.Add(docs[i], target, dt.Size())
  {
    assert docs[..i + 1][..i] == docs[..i];
  }

  lemma FitStep(docs: seq<Doc>, i: nat, dt: Dtype)
    requires i < |docs| && AllFit(dt, docs[..i]) && dt.HoldsAll(docs[i])
    ensures AllFit(dt, docs[..i + 1])
  {
    forall j | 0 <= j < i ensures dt.HoldsAll(docs[j]) {
      assert docs[..i][j] == docs[j];
    }
  }

  /** A document that cannot be added at its place cannot be added at all. */
  lemma Stuck(docs: seq<Doc>, i: nat, dt: Dtype, target: int)
    requires i < |docs| && docs[i] != []
    requires var cut := CutAll(docs[..i], target, dt.Size()).Add(docs[i], target, dt.Size());
             !dt.HoldsAll(docs[i]) || !AllIndexable(dt, cut.closed)
    ensures !AllFit(dt, docs) || !AllIndexable(dt, ShardsOf(docs, target, dt.Size()))
  {
    assert docs[..i + 1][..i] == docs[..i];
    CutGrows(docs, i + 1, target, dt.Size());
    if AllIndexable(dt, ShardsOf(docs, target, dt.Size())) {
      PrefixIndexable(dt, CutAll(docs[..i + 1], target, dt.Size()).closed, ShardsOf(docs, target, dt.Size()));
    }
  }

  /**
   Writes one worker's documents. It succeeds exactly when every token fits the element type and
   every shard's offsets fit the index file; then the manifest lists, and the directory holds,
   exactly the shards of the non-empty documents with their counts and the hashes of their files, and
   nothing is left of an empty trailing shard.
  */
  method WriteShards(docs: seq<Doc>, dt: Dtype, target: int, tag: nat, hash: seq<Byte> -> nat)
    returns (r: Outcome<seq<ShardInfo>>, dir: Directory)
    ensures r.Ok? <==> AllFit(dt, docs) && AllIndexable(dt, ShardsOf(docs, target, dt.Size()))
    ensures r.Ok? ==> Lists(r.value, tag, ShardsOf(docs, target, dt.Size()))
    ensures r.Ok? ==> StoresAll(dir, dt, tag, ShardsOf(docs, target, dt.Size()))
    ensures r.Ok? ==> Only(dir, tag, |ShardsOf(docs, target, dt.Size())|) && AllHashed(dir, hash, r.value)
  {
    var s := new Sharder(dt, target, tag, hash);
    var ok := s.AddAll(docs);
    if !ok {
      return Failure("cannot write document"), s.dir;
    }
    assert docs[..|docs|] == docs;
    ghost var cut := s.State();
    ok := s.Finish();
    if !ok {
      LastNotIndexable(dt, cut);
      return Failure("cannot close shard"), s.dir;
    }
    StoredIndexable(s.dir, dt, tag, s.closed);
    return Ok(s.shards), s.dir;
  }
}
