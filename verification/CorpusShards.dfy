/** Reading the shards back: one worker's, and all workers' through the merged manifest. */
module CorpusShards {
  import opened Wrappers
  import opened Bytes
  import opened IndexedDataset
  import opened ShardWriter
  import opened Sequences
  import LineSplit

  // ----- how documents fall into shards -----------------------------------------------------------

  /** No document is lost, repeated or moved. */
  lemma {:induction false} CutKeepsDocuments(docs: seq<Doc>, target: int, w: nat)
    ensures var cut := CutAll(docs, target, w);
            && Flat(cut.closed) + cut.open == NonEmpty(docs)
            && Flat(cut.Shards()) == NonEmpty(docs)
  {
    if docs == [] {
    } else {
      CutKeepsDocuments(docs[..|docs| - 1], target, w);
      AddKeepsDocument(CutAll(docs[..|docs| - 1], target, w), docs[|docs| - 1], target, w);
    }
    FlatSnoc(CutAll(docs, target, w).closed, CutAll(docs, target, w).open);
  }

  lemma AddKeepsDocument(cut: Cut, d: Doc, target: int, w: nat)
    ensures var after := cut.Add(d, target, w);
            Flat(after.closed) + after.open == (Flat(cut.closed) + cut.open) + [d]
  {
    FlatSnoc(cut.closed, cut.open + [d]);
    Assoc(Flat(cut.closed), cut.open, [d]);
    assert Flat(cut.closed + [cut.open + [d]]) + [] == Flat(cut.closed + [cut.open + [d]]);
  }

  /** A full shard reached the target with its last document and not before. */
  ghost predicate Full(shard: seq<Doc>, target: int, w: nat) {
    && shard != [] && PayloadSize(shard, w) >= target
    && (|shard| > 1 ==> PayloadSize(shard[..|shard| - 1], w) < target)
  }

  ghost predicate Tokens(shard: seq<Doc>) {
    shard != [] && forall i :: 0 <= i < |shard| ==> shard[i] != []
  }

  /** Every shard but the worker's last is full, none is empty, and none holds an empty document. */
  lemma {:induction false} ShardsAreFull(docs: seq<Doc>, target: int, w: nat)
    ensures var cut := CutAll(docs, target, w);
            && (forall i :: 0 <= i < |cut.closed| ==> Full(cut.closed[i], target, w) && Tokens(cut.closed[i]))
            && (cut.open != [] ==> Tokens(cut.open) && PayloadSize(cut.open, w) < target)
  {
    if docs == [] {
    } else {
      ShardsAreFull(docs[..|docs| - 1], target, w);
      var before := CutAll(docs[..|docs| - 1], target, w);
      var d := docs[|docs| - 1];
      assert (before.open + [d])[..|before.open|] == before.open;
    }
  }

  lemma {:induction false} TokensFlat(shard: seq<Doc>)
    requires Tokens(shard)
    ensures Flat(shard) != []
  {
    assert shard[|shard| - 1] != [];
  }

  lemma ShardsHaveTokens(docs: seq<Doc>, target: int, w: nat, i: nat)
    requires i < |ShardsOf(docs, target, w)|
    ensures Flat(ShardsOf(docs, target, w)[i]) != []
  {
    ShardsAreFull(docs, target, w);
    TokensFlat(ShardsOf(docs, target, w)[i]);
  }

  // ----- reading shards back ----------------------------------------------------------------------

  /** The first n documents of an open shard. */
  function ReadDocs(r: Reader, n: nat): Outcome<seq<Doc>> {
    if n == 0 then Ok([]) else
    match ReadDocs(r, n - 1)
    case Failure(why) => Failure(why)
    case Ok(before) =>
      match r.Document(n - 1)
      case Failure(why) => Failure(why)
      case Ok(d) => Ok(before + [d])
  }

  function ReadShard(dir: Directory, p: Prefix): Outcome<seq<Doc>> {
    if p !in dir then Failure("missing shard") else
    match Open(dir[p].idx, Some(dir[p].bin), false)
    case Failure(why) => Failure(why)
    case Ok(r) => ReadDocs(r, if r.index.count < 0 then 0 else r.index.count)
  }

  /** Every document of every listed shard. */
  function ReadAll(dir: Directory, infos: seq<ShardInfo>): Outcome<seq<Doc>> {
    if infos == [] then Ok([]) else
    match ReadAll(dir, infos[..|infos| - 1])
    case Failure(why) => Failure(why)
    case Ok(before) =>
      match ReadShard(dir, infos[|infos| - 1].prefix)
      case Failure(why) => Failure(why)
      case Ok(docs) => Ok(before + docs)
  }

  lemma {:induction false} ReadDocsReads(r: Reader, docs: seq<Doc>, n: nat)
    requires Holds(r, docs) && r.payload.Some? && n <= |docs|
    ensures ReadDocs(r, n) == Ok(docs[..n])
  {
    if n == 0 {
    } else {
      ReadDocsReads(r, docs, n - 1);
      assert Serves(r, n - 1, docs[n - 1]);
      assert docs[..n - 1] + [docs[n - 1]] == docs[..n];
    }
  }

  lemma StoredReads(dir: Directory, dt: Dtype, p: Prefix, docs: seq<Doc>)
    requires Stores(dir, dt, p, docs) && Flat(docs) != []
    ensures ReadShard(dir, p) == Ok(docs)
  {
    ShardReadsBack(dt, docs, dir[p].idx.value, dir[p].bin);
    var r := Open(dir[p].idx, Some(dir[p].bin), false).value;
    ReadDocsReads(r, docs, |docs|);
    assert docs[..|docs|] == docs;
  }

  /** The listed shards read back to the documents the directory stores for them. */
  lemma {:induction false} ListedReads(
    dir: Directory, dt: Dtype, tag: nat, infos: seq<ShardInfo>, shards: seq<seq<Doc>>)
    requires Lists(infos, tag, shards) && StoresAll(dir, dt, tag, shards)
    requires forall i :: 0 <= i < |shards| ==> Flat(shards[i]) != []
    ensures ReadAll(dir, infos) == Ok(Flat(shards))
  {
    if infos == [] {
    } else {
      var m := |infos| - 1;
      ListedReads(dir, dt, tag, infos[..m], shards[..m]);
      StoredReads(dir, dt, Prefix(tag, m), shards[m]);
    }
  }

  lemma {:induction false} ReadAllAppend(
    dir: Directory, x: seq<ShardInfo>, y: seq<ShardInfo>, a: seq<Doc>, b: seq<Doc>)
    requires ReadAll(dir, x) == Ok(a) && ReadAll(dir, y) == Ok(b)
    ensures ReadAll(dir, x + y) == Ok(a + b)
  {
    hide ReadShard;
    if y == [] {
      assert x + y == x;
      assert a + b == a;
    } else {
      var m := |y| - 1;
      var b' := ReadAll(dir, y[..m]).value;
      var d := ReadShard(dir, y[m].prefix).value;
      ReadAllAppend(dir, x, y[..m], a, b');
      assert (x + y)[..|x + y| - 1] == x + y[..m];
      Assoc(a, b', d);
    }
  }

  // ----- all workers ------------------------------------------------------------------------------

  datatype Manifest = Manifest(
    name: string, tokenizerHash: string, dtype: Dtype, filterVersion: string, shards: seq<ShardInfo>,
    rawHashes: map<string, nat>)

  predicate Agree(a: Manifest, b: Manifest) {
    a.name == b.name && a.tokenizerHash == b.tokenizerHash && a.dtype == b.dtype && a.filterVersion == b.filterVersion
  }

  function AllShards(ms: seq<Manifest>): seq<ShardInfo> {
    if ms == [] then [] else AllShards(ms[..|ms| - 1]) + ms[|ms| - 1].shards
  }

  /** The raw-file hashes of all workers; a later worker's value for a file wins. */
  function AllRaw(ms: seq<Manifest>): map<string, nat> {
    if ms == [] then map[] else AllRaw(ms[..|ms| - 1]) + ms[|ms| - 1].rawHashes
  }

  /** A file is listed if any worker lists it, with the hash of the last one that does. */
  lemma {:induction false} RawIsLast(ms: seq<Manifest>, file: string, i: nat)
    requires i < |ms| && file in ms[i].rawHashes && forall j :: i < j < |ms| ==> file !in ms[j].rawHashes
    ensures file in AllRaw(ms) && AllRaw(ms)[file] == ms[i].rawHashes[file]
  {
    if i < |ms| - 1 {
      RawIsLast(ms[..|ms| - 1], file, i);
    }
  }

  lemma {:induction false} RawIsListed(ms: seq<Manifest>, file: string)
    requires forall j :: 0 <= j < |ms| ==> file !in ms[j].rawHashes
    ensures file !in AllRaw(ms)
  {
    if ms == [] {
    } else {
      RawIsListed(ms[..|ms| - 1], file);
    }
  }

  /** Workers that hashed the same files alike leave exactly those hashes. */
  lemma {:induction false} RawAgrees(ms: seq<Manifest>, raw: map<string, nat>)
    requires ms != [] && forall i :: 0 <= i < |ms| ==> ms[i].rawHashes == raw
    ensures AllRaw(ms) == raw
  {
    if |ms| == 1 {
      assert AllRaw(ms[..0]) == map[];
    } else {
      RawAgrees(ms[..|ms| - 1], raw);
    }
  }

  /** The worker manifests into one; no worker at all, or workers that disagree, are refused. */
  method MergeManifests(ms: seq<Manifest>) returns (r: Outcome<Manifest>)
    ensures r.Ok? <==> ms != [] && forall i :: 0 <= i < |ms| ==>
      && ms[i].name == ms[0].name && ms[i].tokenizerHash == ms[0].tokenizerHash
      && ms[i].dtype == ms[0].dtype && ms[i].filterVersion == ms[0].filterVersion
    ensures r.Ok? ==> r.value == ms[0].(shards := AllShards(ms), rawHashes := AllRaw(ms))
  {
    if ms == [] {
      return Failure("no manifests");
    }
    var shards, raw := [], map[];
    for i := 0 to |ms|
      invariant forall j :: 0 <= j < i ==> Agree(ms[j], ms[0])
      invariant shards == AllShards(ms[..i]) && raw == AllRaw(ms[..i])
    {
      if !Agree(ms[i], ms[0]) {
        return Failure("worker manifests disagree");
      }
      assert ms[..i + 1][..i] == ms[..i];
      shards := shards + ms[i].shards;
      raw := raw + ms[i].rawHashes;
    }
    assert ms[..|ms|] == ms;
    return Ok(ms[0].(shards := shards, rawHashes := raw));
  }

  /** The shard directory all workers write into. */
  function Together(parts: seq<Directory>): Directory {
    if parts == [] then map[] else Together(parts[..|parts| - 1]) + parts[|parts| - 1]
  }

  /** A worker's files are not touched by the others, whose stems carry other tags. */
  lemma {:induction false} TogetherKeeps(parts: seq<Directory>, k: nat, p: Prefix)
    requires k < |parts| && p in parts[k]
    requires forall i :: 0 <= i < |parts| && i != k ==> p !in parts[i]
    ensures p in Together(parts) && Together(parts)[p] == parts[k][p]
  {
    if k >= |parts| - 1 {
    } else {
      TogetherKeeps(parts[..|parts| - 1], k, p);
    }
  }

  ghost predicate Tagged(parts: seq<Directory>) {
    forall k, p :: 0 <= k < |parts| && p in parts[k] ==> p.tag == k
  }

  lemma WorkerReads(parts: seq<Directory>, dt: Dtype, k: nat, infos: seq<ShardInfo>, shards: seq<seq<Doc>>)
    requires k < |parts| && Tagged(parts)
    requires Lists(infos, k, shards) && StoresAll(parts[k], dt, k, shards)
    requires forall i :: 0 <= i < |shards| ==> Flat(shards[i]) != []
    ensures ReadAll(Together(parts), infos) == Ok(Flat(shards))
  {
    forall i | 0 <= i < |shards| ensures Stores(Together(parts), dt, Prefix(k, i), shards[i]) {
      assert Stores(parts[k], dt, Prefix(k, i), shards[i]);
      TogetherKeeps(parts, k, Prefix(k, i));
    }
    ListedReads(Together(parts), dt, k, infos, shards);
  }

  function EncodeTexts<T>(texts: seq<T>, encode: T -> Doc): (docs: seq<Doc>)
    ensures |docs| == |texts| && forall i :: 0 <= i < |docs| ==> docs[i] == encode(texts[i])
  {
    seq(|texts|, i requires 0 <= i < |texts| => encode(texts[i]))
  }

  lemma {:induction false} NonEmptyAppend(x: seq<Doc>, y: seq<Doc>)
    ensures NonEmpty(x + y) == NonEmpty(x) + NonEmpty(y)
  {
    if y == [] {
      assert x + y == x;
    } else {
      NonEmptyAppend(x, y[..|y| - 1]);
      assert (x + y)[..|x + y| - 1] == x + y[..|y| - 1];
    }
  }

  lemma {:induction false} EncodeFlat<T>(team: seq<seq<T>>, encode: T -> Doc, k: nat)
    requires 0 < k <= |team|
    ensures NonEmpty(EncodeTexts(Flat(team[..k]), encode)) ==
              NonEmpty(EncodeTexts(Flat(team[..k - 1]), encode)) + NonEmpty(EncodeTexts(team[k - 1], encode))
  {
    assert team[..k][..k - 1] == team[..k - 1];
    var x, y := Flat(team[..k - 1]), team[k - 1];
    assert EncodeTexts(x + y, encode) == EncodeTexts(x, encode) + EncodeTexts(y, encode);
    NonEmptyAppend(EncodeTexts(x, encode), EncodeTexts(y, encode));
  }

  /** What one worker leaves: its manifest entries and its files. */
  ghost predicate WorkerDone(
    dt: Dtype, target: int, hash: seq<Byte> -> nat, docs: seq<Doc>, tag: nat, infos: seq<ShardInfo>, dir: Directory)
  {
    && Done(dir, dt, tag, hash, infos, ShardsOf(docs, target, dt.Size()))
    && Only(dir, tag, |ShardsOf(docs, target, dt.Size())|)
  }

  ghost predicate TeamDone<T>(
    dt: Dtype, target: int, hash: seq<Byte> -> nat, team: seq<seq<T>>, encode: T -> Doc,
    infos: seq<seq<ShardInfo>>, parts: seq<Directory>)
  {
    && |infos| == |parts| == |team|
    && forall k :: 0 <= k < |team| ==> WorkerDone(dt, target, hash, EncodeTexts(team[k], encode), k, infos[k], parts[k])
  }

  lemma {:induction false} TeamReadsBack<T>(
    dt: Dtype, target: int, hash: seq<Byte> -> nat, team: seq<seq<T>>, encode: T -> Doc,
    infos: seq<seq<ShardInfo>>, parts: seq<Directory>, k: nat)
    requires TeamDone(dt, target, hash, team, encode, infos, parts) && k <= |team|
    ensures ReadAll(Together(parts), Flat(infos[..k])) == Ok(NonEmpty(EncodeTexts(Flat(team[..k]), encode)))
  {
    if k == 0 {
    } else {
      TeamReadsBack(dt, target, hash, team, encode, infos, parts, k - 1);
      OneReadsBack(dt, target, hash, team, encode, infos, parts, k - 1);
      assert infos[..k][..k - 1] == infos[..k - 1];
      ReadAllAppend(
        Together(parts), Flat(infos[..k - 1]), infos[k - 1],
        NonEmpty(EncodeTexts(Flat(team[..k - 1]), encode)), NonEmpty(EncodeTexts(team[k - 1], encode)));
      EncodeFlat(team, encode, k);
    }
  }

  lemma OneReadsBack<T>(
    dt: Dtype, target: int, hash: seq<Byte> -> nat, team: seq<seq<T>>, encode: T -> Doc,
    infos: seq<seq<ShardInfo>>, parts: seq<Directory>, k: nat)
    requires TeamDone(dt, target, hash, team, encode, infos, parts) && k < |team|
    ensures ReadAll(Together(parts), infos[k]) == Ok(NonEmpty(EncodeTexts(team[k], encode)))
  {
    var docs := EncodeTexts(team[k], encode);
    var shards := ShardsOf(docs, target, dt.Size());
    assert WorkerDone(dt, target, hash, docs, k, infos[k], parts[k]);
    TeamTagged(dt, target, hash, team, encode, infos, parts);
    forall i | 0 <= i < |shards| ensures Flat(shards[i]) != [] {
      ShardsHaveTokens(docs, target, dt.Size(), i);
    }
    WorkerReads(parts, dt, k, infos[k], shards);
    CutKeepsDocuments(docs, target, dt.Size());
  }

  lemma TeamTagged<T>(
    dt: Dtype, target: int, hash: seq<Byte> -> nat, team: seq<seq<T>>, encode: T -> Doc,
    infos: seq<seq<ShardInfo>>, parts: seq<Directory>)
    requires TeamDone(dt, target, hash, team, encode, infos, parts)
    ensures Tagged(parts)
  {
    forall k, p | 0 <= k < |parts| && p in parts[k] ensures p.tag == k {
      assert WorkerDone(dt, target, hash, EncodeTexts(team[k], encode), k, infos[k], parts[k]);
    }
  }

  /** Every token of every worker fits the element type, and every offset the index file. */
  ghost predicate TeamFits<T>(dt: Dtype, target: int, team: seq<seq<T>>, encode: T -> Doc) {
    forall k :: 0 <= k < |team| ==> WorkerFits(dt, target, EncodeTexts(team[k], encode))
  }

  ghost predicate WorkerFits(dt: Dtype, target: int, docs: seq<Doc>) {
    AllFit(dt, docs) && AllIndexable(dt, ShardsOf(docs, target, dt.Size()))
  }

  lemma OneMoreDone<T>(
    dt: Dtype, target: int, hash: seq<Byte> -> nat, team: seq<seq<T>>, t: seq<T>, encode: T -> Doc,
    infos: seq<seq<ShardInfo>>, parts: seq<Directory>,
    info: seq<ShardInfo>, part: Directory)
    requires TeamDone(dt, target, hash, team, encode, infos, parts)
    requires WorkerDone(dt, target, hash, EncodeTexts(t, encode), |team|, info, part)
    ensures TeamDone(dt, target, hash, team + [t], encode, infos + [info], parts + [part])
  {}

  lemma OneMoreFits<T>(dt: Dtype, target: int, team: seq<seq<T>>, t: seq<T>, encode: T -> Doc)
    requires TeamFits(dt, target, team, encode) && WorkerFits(dt, target, EncodeTexts(t, encode))
    ensures TeamFits(dt, target, team + [t], encode)
  {}

  lemma OneMoreWorker<T>(
    dt: Dtype, target: int, hash: seq<Byte> -> nat, team: seq<seq<T>>, k: nat, encode: T -> Doc,
    infos: seq<seq<ShardInfo>>, parts: seq<Directory>, info: seq<ShardInfo>, part: Directory)
    requires k < |team| && TeamDone(dt, target, hash, team[..k], encode, infos, parts)
    requires TeamFits(dt, target, team[..k], encode)
    requires WorkerDone(dt, target, hash, EncodeTexts(team[k], encode), k, info, part)
    requires WorkerFits(dt, target, EncodeTexts(team[k], encode))
    ensures TeamDone(dt, target, hash, team[..k + 1], encode, infos + [info], parts + [part])
    ensures TeamFits(dt, target, team[..k + 1], encode)
    ensures Together(parts + [part]) == Together(parts) + part
  {
    OneMoreDone(dt, target, hash, team[..k], team[k], encode, infos, parts, info, part);
    OneMoreFits(dt, target, team[..k], team[k], encode);
    assert team[..k + 1] == team[..k] + [team[k]];
    assert (parts + [part])[..|parts|] == parts;
  }

  /** One worker: read the segment, encode, write the shards. */
  method RunWorker<T>(
    file: seq<Byte>, k: nat, workers: nat, parse: seq<Byte> -> Option<T>, encode: T -> Doc, dt: Dtype, target: int,
    hash: seq<Byte> -> nat)
    returns (r: Outcome<seq<ShardInfo>>, dir: Directory)
    requires k < workers
    ensures var docs := EncodeTexts(LineSplit.WorkerTexts(file, k, workers, parse), encode);
            && (r.Ok? <==> WorkerFits(dt, target, docs))
            && (r.Ok? ==> WorkerDone(dt, target, hash, docs, k, r.value, dir))
  {
    var texts := LineSplit.ReadSegment(file, k, workers, parse);
    r, dir := WriteShards(EncodeTexts(texts, encode), dt, target, k, hash);
  }

  lemma TeamStops<T>(dt: Dtype, target: int, team: seq<seq<T>>, k: nat, encode: T -> Doc)
    requires k < |team| && !WorkerFits(dt, target, EncodeTexts(team[k], encode))
    ensures !TeamFits(dt, target, team, encode)
  {}

  /** All workers, each into its own files of the shared directory. */
  method RunTeam<T>(
    file: seq<Byte>, workers: nat, parse: seq<Byte> -> Option<T>, encode: T -> Doc, dt: Dtype, target: int,
    hash: seq<Byte> -> nat)
    returns (ok: bool, manifests: seq<seq<ShardInfo>>, ghost parts: seq<Directory>, dir: Directory)
    ensures ok <==> TeamFits(dt, target, LineSplit.TeamTexts(file, workers, parse), encode)
    ensures ok ==> TeamDone(dt, target, hash, LineSplit.TeamTexts(file, workers, parse), encode, manifests, parts)
    ensures ok ==> dir == Together(parts)
  {
    manifests, parts, dir := [], [], map[];
    ghost var team := LineSplit.TeamTexts(file, workers, parse);
    for k := 0 to workers
      invariant TeamDone(dt, target, hash, team[..k], encode, manifests, parts) && dir == Together(parts)
      invariant TeamFits(dt, target, team[..k], encode)
    {
      assert team[k] == LineSplit.WorkerTexts(file, k, workers, parse);
      var r, part := RunWorker(file, k, workers, parse, encode, dt, target, hash);
      if r.Failure? {
        TeamStops(dt, target, team, k, encode);
        return false, manifests, parts, dir;
      }
      OneMoreWorker(dt, target, hash, team, k, encode, manifests, parts, r.value, part);
      manifests, parts, dir := manifests + [r.value], parts + [part], dir + part;
    }
    assert team[..workers] == team;
    ok := true;
  }

  function WorkerManifests(m: Manifest, infos: seq<seq<ShardInfo>>): (ms: seq<Manifest>)
    ensures |ms| == |infos| && forall k :: 0 <= k < |ms| ==> ms[k] == m.(shards := infos[k])
  {
    seq(|infos|, k requires 0 <= k < |infos| => m.(shards := infos[k]))
  }

  lemma {:induction false} AllShardsFlat(m: Manifest, infos: seq<seq<ShardInfo>>)
    ensures AllShards(WorkerManifests(m, infos)) == Flat(infos)
  {
    if infos == [] {
    } else {
      AllShardsFlat(m, infos[..|infos| - 1]);
      assert WorkerManifests(m, infos)[..|infos| - 1] == WorkerManifests(m, infos[..|infos| - 1]);
    }
  }

  // ----- the entries of the merged manifest -------------------------------------------------------

  /**
   The entry is right: its shard reads back, to as many documents and tokens as recorded, at least
   one and none empty, and the recorded hashes are those of its files.
  */
  ghost predicate EntryRight(dir: Directory, hash: seq<Byte> -> nat, info: ShardInfo) {
    && Hashed(dir, hash, info) && ReadShard(dir, info.prefix).Ok?
    && var docs := ReadShard(dir, info.prefix).value;
       info.documents == |docs| && info.tokens == |Flat(docs)| && Tokens(docs)
  }

  /** The entry's shard reached the target size, with its last document and not before. */
  ghost predicate EntryFull(dir: Directory, target: int, w: nat, info: ShardInfo) {
    ReadShard(dir, info.prefix).Ok? && Full(ReadShard(dir, info.prefix).value, target, w)
  }

  /** All entries are right, and an entry followed by one of the same worker is full. */
  ghost predicate AllRight(dir: Directory, hash: seq<Byte> -> nat, target: int, w: nat, infos: seq<ShardInfo>) {
    && (forall i :: 0 <= i < |infos| ==> EntryRight(dir, hash, infos[i]))
    && forall i, j :: 0 <= i < j < |infos| && infos[i].prefix.tag == infos[j].prefix.tag ==>
         EntryFull(dir, target, w, infos[i])
  }

  ghost predicate TagsBelow(infos: seq<ShardInfo>, k: nat) {
    forall i :: 0 <= i < |infos| ==> infos[i].prefix.tag < k
  }

  lemma AllRightAppend(
    dir: Directory, hash: seq<Byte> -> nat, target: int, w: nat, x: seq<ShardInfo>, y: seq<ShardInfo>, k: nat)
    requires AllRight(dir, hash, target, w, x) && AllRight(dir, hash, target, w, y)
    requires TagsBelow(x, k) && forall i :: 0 <= i < |y| ==> y[i].prefix.tag == k
    ensures AllRight(dir, hash, target, w, x + y) && TagsBelow(x + y, k + 1)
  {
    var z := x + y;
    hide EntryRight, EntryFull;
    forall i, j | 0 <= i < j < |z| && z[i].prefix.tag == z[j].prefix.tag ensures EntryFull(dir, target, w, z[i]) {
      if j < |x| {
        assert z[i] == x[i] && z[j] == x[j];
      } else if i >= |x| {
        assert z[i] == y[i - |x|] && z[j] == y[j - |x|];
      } else {
        assert false;
      }
    }
  }

  /** One worker's entries, in the directory of all. */
  lemma WorkerEntries<T>(
    dt: Dtype, target: int, hash: seq<Byte> -> nat, team: seq<seq<T>>, encode: T -> Doc,
    infos: seq<seq<ShardInfo>>, parts: seq<Directory>, k: nat)
    requires TeamDone(dt, target, hash, team, encode, infos, parts) && k < |team|
    ensures AllRight(Together(parts), hash, target, dt.Size(), infos[k])
    ensures forall i :: 0 <= i < |infos[k]| ==> infos[k][i].prefix.tag == k
  {
    hide Together, TeamDone, ReadShard, Tagged, ShardsOf, Full, Tokens, Stores, Only;
    var docs := EncodeTexts(team[k], encode);
    var shards := ShardsOf(docs, target, dt.Size());
    TeamMember(dt, target, hash, team, encode, infos, parts, k);
    TeamTagged(dt, target, hash, team, encode, infos, parts);
    forall i | 0 <= i < |infos[k]|
      ensures EntryRight(Together(parts), hash, infos[k][i]) && infos[k][i].prefix.tag == k
      ensures i < |shards| - 1 ==> EntryFull(Together(parts), target, dt.Size(), infos[k][i])
    {
      WorkerEntry(dt, target, hash, docs, k, infos[k], parts, i);
    }
  }

  lemma TeamMember<T>(
    dt: Dtype, target: int, hash: seq<Byte> -> nat, team: seq<seq<T>>, encode: T -> Doc,
    infos: seq<seq<ShardInfo>>, parts: seq<Directory>, k: nat)
    requires TeamDone(dt, target, hash, team, encode, infos, parts) && k < |team|
    ensures |infos| == |parts| == |team|
    ensures WorkerDone(dt, target, hash, EncodeTexts(team[k], encode), k, infos[k], parts[k])
  {}

  lemma WorkerEntry(
    dt: Dtype, target: int, hash: seq<Byte> -> nat, docs: seq<Doc>, k: nat, infos: seq<ShardInfo>,
    parts: seq<Directory>, i: nat)
    requires k < |parts| && Tagged(parts) && WorkerDone(dt, target, hash, docs, k, infos, parts[k]) && i < |infos|
    ensures EntryRight(Together(parts), hash, infos[i]) && infos[i].prefix.tag == k
    ensures |infos| == |ShardsOf(docs, target, dt.Size())|
    ensures i < |infos| - 1 ==> EntryFull(Together(parts), target, dt.Size(), infos[i])
  {
    hide Together, ReadShard, Full, Tokens;
    var shards, p := ShardsOf(docs, target, dt.Size()), Prefix(k, i);
    assert Counts(infos[i], k, i, shards[i]) && Stores(parts[k], dt, p, shards[i]) && Hashed(parts[k], hash, infos[i]);
    TogetherKeeps(parts, k, p);
    ShardsHaveTokens(docs, target, dt.Size(), i);
    StoredReads(Together(parts), dt, p, shards[i]);
    ShardAt(docs, target, dt.Size(), i);
  }

  lemma ShardAt(docs: seq<Doc>, target: int, w: nat, i: nat)
    requires i < |ShardsOf(docs, target, w)|
    ensures Tokens(ShardsOf(docs, target, w)[i])
    ensures i < |ShardsOf(docs, target, w)| - 1 ==> Full(ShardsOf(docs, target, w)[i], target, w)
  {
    ShardsAreFull(docs, target, w);
  }

  lemma {:induction false} TeamEntries<T>(
    dt: Dtype, target: int, hash: seq<Byte> -> nat, team: seq<seq<T>>, encode: T -> Doc,
    infos: seq<seq<ShardInfo>>, parts: seq<Directory>, k: nat)
    requires TeamDone(dt, target, hash, team, encode, infos, parts) && k <= |infos|
    ensures AllRight(Together(parts), hash, target, dt.Size(), Flat(infos[..k])) && TagsBelow(Flat(infos[..k]), k)
  {
    if k == 0 {
    } else {
      TeamEntries(dt, target, hash, team, encode, infos, parts, k - 1);
      WorkerEntries(dt, target, hash, team, encode, infos, parts, k - 1);
      AllRightAppend(Together(parts), hash, target, dt.Size(), Flat(infos[..k - 1]), infos[k - 1], k - 1);
      FlatPrefix(infos, k);
    }
  }

  /**
   The corpus build end to end: n workers read their byte ranges of one file, shard what they read,
   and the manifests are merged. Reading every shard of the merged manifest gives exactly the
   non-empty encoded documents of the file in file order, whatever n and the target size are. Every
   entry records its shard's counts and hashes, no shard is empty, and all but each worker's last
   are full.
  */
  method BuildShards<T>(
    file: seq<Byte>, workers: nat, parse: seq<Byte> -> Option<T>, encode: T -> Doc, dt: Dtype, target: int,
    name: string, tokenizerHash: string, hash: seq<Byte> -> nat, rawHashes: map<string, nat>)
    returns (r: Outcome<Manifest>, dir: Directory)
    requires workers > 0
    ensures r.Ok? <==> TeamFits(dt, target, LineSplit.TeamTexts(file, workers, parse), encode)
    ensures r.Ok? ==>
              ReadAll(dir, r.value.shards) ==
                Ok(NonEmpty(EncodeTexts(LineSplit.WorkerTexts(file, 0, 1, parse), encode)))
    ensures r.Ok? ==> AllRight(dir, hash, target, dt.Size(), r.value.shards)
    ensures r.Ok? ==> r.value == Manifest(name, tokenizerHash, dt, "", r.value.shards, rawHashes)
  {
    var ok, infos, parts, files := RunTeam(file, workers, parse, encode, dt, target, hash);
    dir := files;
    if !ok {
      return Failure("a worker failed"), dir;
    }
    var m := Manifest(name, tokenizerHash, dt, "", [], rawHashes);
    r := MergeManifests(WorkerManifests(m, infos));
    AllShardsFlat(m, infos);
    RawAgrees(WorkerManifests(m, infos), rawHashes);
    TeamReadsFile(file, workers, parse, encode, dt, target, hash, infos, parts);
  }

  lemma TeamReadsFile<T>(
    file: seq<Byte>, workers: nat, parse: seq<Byte> -> Option<T>, encode: T -> Doc, dt: Dtype, target: int,
    hash: seq<Byte> -> nat, infos: seq<seq<ShardInfo>>, parts: seq<Directory>)
    requires workers > 0 && TeamDone(dt, target, hash, LineSplit.TeamTexts(file, workers, parse), encode, infos, parts)
    ensures ReadAll(Together(parts), Flat(infos)) ==
              Ok(NonEmpty(EncodeTexts(LineSplit.WorkerTexts(file, 0, 1, parse), encode)))
    ensures AllRight(Together(parts), hash, target, dt.Size(), Flat(infos))
  {
    var team := LineSplit.TeamTexts(file, workers, parse);
    TeamReadsBack(dt, target, hash, team, encode, infos, parts, workers);
    TeamEntries(dt, target, hash, team, encode, infos, parts, workers);
    assert team[..workers] == team && infos[..workers] == infos;
    LineSplit.TeamReadsTheFile(file, workers, parse);
  }
}
