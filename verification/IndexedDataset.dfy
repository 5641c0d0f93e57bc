/** The two-file dataset shard: token payload and offset index, written document by document. */
module IndexedDataset {
  import opened Wrappers
  import opened Bytes
  import opened Sequences
  import Arithmetic

  const MAGIC: seq<Byte> := [77, 77, 73, 68, 73, 68, 88, 0]
  const VERSION: nat := 1

  /** Token offsets of the documents, and the final sentinel. */
  function Offsets<T>(docs: seq<seq<T>>): (o: seq<nat>)
    ensures |o| == |docs| + 1 && o[0] == 0 && o[|docs|] == |Flat(docs)|
  {
    if docs == [] then [0] else Offsets(docs[..|docs| - 1]) + [|Flat(docs)|]
  }

  /** Byte offsets of the documents when an element takes w bytes, and the final sentinel. */
  function ByteOffsets<T>(docs: seq<seq<T>>, w: nat): (o: seq<nat>)
    ensures |o| == |docs| + 1
  {
    if docs == [] then [0] else
    var before := ByteOffsets(docs[..|docs| - 1], w);
    before + [before[|docs| - 1] + Arithmetic.Times(|docs[|docs| - 1]|, w)]
  }

  /** A document's byte offset is its token offset times the element size. */
  lemma {:induction false} ByteOffsetsScale<T>(docs: seq<seq<T>>, w: nat, i: nat)
    requires i <= |docs|
    ensures ByteOffsets(docs, w)[i] == Offsets(docs)[i] * w
  {
    if docs == [] {
    } else {
      var m := |docs| - 1;
      ByteOffsetsScale(docs[..m], w, if i <= m then i else m);
      assert (|Flat(docs[..m])| + |docs[m]|) * w == |Flat(docs[..m])| * w + |docs[m]| * w;
    }
  }

  /** The index file. */
  function IndexBytes(dt: Dtype, offsets: seq<nat>, byteOffsets: seq<nat>): seq<Byte>
    requires offsets != [] && I64.HoldsAll(offsets) && I64.HoldsAll(byteOffsets) && I64.Holds(|offsets| - 1)
  {
    MAGIC + (LittleEndian(VERSION, 8) + ([dt.Code()]
    + (Encode(I64, |offsets| - 1) + (Encode(I64, offsets[|offsets| - 1])
    + (EncodeAll(I64, offsets) + EncodeAll(I64, byteOffsets))))))
  }

  ghost predicate Fits(dt: Dtype, docs: seq<seq<int>>) {
    forall i :: 0 <= i < |docs| ==> dt.HoldsAll(docs[i])
  }

  lemma {:induction false} FlatHolds(dt: Dtype, docs: seq<seq<int>>)
    requires Fits(dt, docs)
    ensures dt.HoldsAll(Flat(docs))
  {
    if docs == [] {
    } else {
      FlatHolds(dt, docs[..|docs| - 1]);
    }
  }

  /** The payload file of the documents. */
  ghost predicate Written(dt: Dtype, docs: seq<seq<int>>, bin: seq<Byte>) {
    Fits(dt, docs) && dt.HoldsAll(Flat(docs)) && bin == EncodeAll(dt, Flat(docs))
  }

  lemma OneMoreOffset<T>(docs: seq<seq<T>>, d: seq<T>, w: nat)
    ensures Flat(docs + [d]) == Flat(docs) + d
    ensures Offsets(docs + [d]) == Offsets(docs) + [|Flat(docs)| + |d|]
    ensures ByteOffsets(docs + [d], w)
         == ByteOffsets(docs, w) + [ByteOffsets(docs, w)[|docs|] + Arithmetic.Times(|d|, w)]
  {
    assert (docs + [d])[..|docs|] == docs;
  }

  lemma OneMoreWritten(dt: Dtype, docs: seq<seq<int>>, d: seq<int>, more: seq<seq<int>>)
    requires Fits(dt, docs) && dt.HoldsAll(Flat(docs)) && dt.HoldsAll(d)
    requires more == docs + [d] && Flat(more) == Flat(docs) + d
    ensures Written(dt, more, EncodeAll(dt, Flat(docs)) + EncodeAll(dt, d))
  {
    EncodeAppend(dt, Flat(docs), d);
  }

  class Writer {
    const dtype: Dtype
    /** The payload file. */
    var bin: seq<Byte>
    /** The index file, once closed. */
    var idx: Option<seq<Byte>>
    var tokenOffsets: seq<nat>
    var byteOffsets: seq<nat>
    var closed: bool
    ghost var docs: seq<seq<int>>

    constructor (dtype: Dtype)
      ensures this.dtype == dtype && Valid() && !closed && docs == []
    {
      this.dtype := dtype;
      bin, idx, tokenOffsets, byteOffsets, closed, docs := [], None, [0], [0], false, [];
    }

    ghost predicate Valid()
      reads this
    {
      && Written(dtype, docs, bin) && tokenOffsets == Offsets(docs) && byteOffsets == ByteOffsets(docs, dtype.Size())
      && (closed ==> idx.Some? && IsIndexOf(idx.value, dtype, docs))
    }

    /** Appends one document; a closed writer and a token the element type cannot hold are refused. */
    method AddDocument(tokens: seq<int>) returns (r: Outcome<()>)
      requires Valid()
      modifies this
      ensures Valid() && closed == old(closed) && idx == old(idx)
      ensures r.Ok? <==> !closed && dtype.HoldsAll(tokens)
      ensures docs == if r.Ok? then old(docs) + [tokens] else old(docs)
    {
      if closed {
        return Failure("writer already closed");
      }
      if !dtype.HoldsAll(tokens) {
        return Failure("token out of range");
      }
      OneMoreOffset(docs, tokens, dtype.Size());
      OneMoreWritten(dtype, docs, tokens, docs + [tokens]);
      bin := bin + EncodeAll(dtype, tokens);
      byteOffsets := byteOffsets + [byteOffsets[|byteOffsets| - 1] + Arithmetic.Times(|tokens|, dtype.Size())];
      tokenOffsets := tokenOffsets + [tokenOffsets[|tokenOffsets| - 1] + |tokens|];
      docs := docs + [tokens];
      return Ok(());
    }

    /** Writes the index file. Offsets beyond 64 bits are refused; closing twice does nothing. */
    method Close() returns (r: Outcome<()>)
      requires Valid()
      modifies this`idx, this`closed
      ensures Valid() && (r.Ok? <==> closed)
      ensures r.Ok? <==> old(closed) || Indexable(dtype, docs)
      ensures old(closed) ==> idx == old(idx)
    {
      if closed {
        return Ok(());
      }
      if !I64.HoldsAll(tokenOffsets) || !I64.HoldsAll(byteOffsets) || !I64.Holds(|tokenOffsets| - 1) {
        return Failure("offset out of range");
      }
      var file := MAGIC;
      file := file + LittleEndian(VERSION, 8);
      file := file + [dtype.Code()];
      file := file + Encode(I64, |tokenOffsets| - 1);
      file := file + Encode(I64, tokenOffsets[|tokenOffsets| - 1]);
      file := file + EncodeAll(I64, tokenOffsets);
      file := file + EncodeAll(I64, byteOffsets);
      Nest(MAGIC, LittleEndian(VERSION, 8), [dtype.Code()], Encode(I64, |tokenOffsets| - 1),
           Encode(I64, tokenOffsets[|tokenOffsets| - 1]), EncodeAll(I64, tokenOffsets), EncodeAll(I64, byteOffsets));
      idx := Some(file);
      closed := true;
      return Ok(());
    }
  }

  lemma Nest<T>(a: seq<T>, b: seq<T>, c: seq<T>, d: seq<T>, e: seq<T>, f: seq<T>, g: seq<T>)
    ensures a + b + c + d + e + f + g == a + (b + (c + (d + (e + (f + g)))))
  {}

  /** The document and byte offsets fit the index file's 64-bit fields. */
  ghost predicate Indexable(dt: Dtype, docs: seq<seq<int>>) {
    I64.HoldsAll(Offsets(docs)) && I64.HoldsAll(ByteOffsets(docs, dt.Size())) && I64.Holds(|docs|)
  }

  ghost predicate IsIndexOf(idx: seq<Byte>, dt: Dtype, docs: seq<seq<int>>) {
    Indexable(dt, docs) && idx == IndexBytes(dt, Offsets(docs), ByteOffsets(docs, dt.Size()))
  }

  // ----- reading ----------------------------------------------------------------------------------

  datatype Index = Index(dtype: Dtype, count: int, tokens: int, offsets: seq<int>, byteOffsets: seq<int>)

  function FromCode(code: Byte): Option<Dtype> {
    match code
    case 1 => Some(U8)
    case 2 => Some(I8)
    case 3 => Some(I16)
    case 4 => Some(I32)
    case 5 => Some(I64)
    case 8 => Some(U16)
    case 9 => Some(U32)
    case _ => None
  }

  /** `f.read(k)`: at most k bytes, or all the rest when k is negative; and what is left. */
  function Read(f: seq<Byte>, k: int): (seq<Byte>, seq<Byte>) {
    if 0 <= k <= |f| then (f[..k], f[k..]) else (f, [])
  }

  /** Reads the index file: magic, version, element type, counts, and the two offset tables. */
  function ReadHeader(file: seq<Byte>): Outcome<Index> {
    var (magic, f) := Read(file, 8);
    if magic != MAGIC then Failure("bad magic") else
    var (version, f) := Read(f, 8);
    if |version| != 8 then Failure("truncated") else
    if FromLittleEndian(version) != VERSION then Failure("unknown version") else
    ReadCounts(f)
  }

  /** The part of the index file after the version. */
  function ReadCounts(f: seq<Byte>): Outcome<Index> {
    var (code, f) := Read(f, 1);
    var (count, f) := Read(f, 8);
    var (tokens, f) := Read(f, 8);
    if |code| != 1 || |count| != 8 || |tokens| != 8 then Failure("truncated")
    else ReadTables(code[0], Decode(I64, count), Decode(I64, tokens), f)
  }

  function ReadTables(code: Byte, count: int, tokens: int, f: seq<Byte>): Outcome<Index> {
    var (offsets, f) := Read(f, 8 * (count + 1));
    var (byteOffsets, _) := Read(f, 8 * (count + 1));
    if |offsets| % 8 != 0 || |byteOffsets| % 8 != 0 then Failure("truncated table") else
    match FromCode(code)
    case None => Failure("unknown element type")
    case Some(dt) => Ok(Index(dt, count, tokens, DecodeAll(I64, offsets), DecodeAll(I64, byteOffsets)))
  }

  /** Python's `s[lo:hi]`. */
  function Slice<T>(s: seq<T>, lo: int, hi: int): seq<T> {
    var a, b := Clamp(lo, |s|), Clamp(hi, |s|);
    if a < b then s[a..b] else []
  }

  function Clamp(x: int, n: nat): (c: nat)
    ensures c <= n
  {
    if x < 0 then (if x + n < 0 then 0 else x + n) else if x > n then n else x
  }

  datatype Reader = Reader(index: Index, payload: Option<seq<int>>) {
    /** A document's position in the tables: negative numbers count from the end. */
    function Position(i: int): Option<nat> {
      var i := if i < 0 then i + index.count else i;
      if 0 <= i < index.count && i + 1 < |index.offsets| then Some(i) else None
    }

    function Document(i: int): Outcome<seq<int>> {
      if payload.None? then Failure("opened index only") else
      match Position(i)
      case None => Failure("no such document")
      case Some(p) => Ok(Slice(payload.value, index.offsets[p], index.offsets[p + 1]))
    }

    function DocumentLength(i: int): Outcome<int> {
      match Position(i)
      case None => Failure("no such document")
      case Some(p) => Ok(index.offsets[p + 1] - index.offsets[p])
    }
  }

  /** Opens a shard; the payload cannot be mapped when it is missing, empty or cuts an element. */
  function Open(idx: Option<seq<Byte>>, bin: Option<seq<Byte>>, indexOnly: bool): Outcome<Reader> {
    if idx.None? then Failure("missing shard index") else
    if !indexOnly && bin.None? then Failure("missing shard payload") else
    match ReadHeader(idx.value)
    case Failure(why) => Failure(why)
    case Ok(index) =>
      if indexOnly then Ok(Reader(index, None)) else
      if bin.value == [] || |bin.value| % index.dtype.Size() != 0 then Failure("cannot map payload") else
      Ok(Reader(index, Some(DecodeAll(index.dtype, bin.value))))
  }

  lemma ReadExact(a: seq<Byte>, rest: seq<Byte>)
    ensures Read(a + rest, |a|) == (a, rest)
  {
    assert (a + rest)[..|a|] == a && (a + rest)[|a|..] == rest;
  }

  lemma TablesRead(dt: Dtype, count: int, tokens: int, x: seq<Byte>, y: seq<Byte>)
    requires |x| == |y| == 8 * (count + 1)
    ensures ReadTables(dt.Code(), count, tokens, x + y) ==
              Ok(Index(dt, count, tokens, DecodeAll(I64, x), DecodeAll(I64, y)))
  {
    hide DecodeAll;
    ReadExact(x, y);
    ReadExact(y, []);
    assert y + [] == y;
  }

  lemma {:induction false} TableLength(xs: seq<int>)
    requires I64.HoldsAll(xs)
    ensures |EncodeAll(I64, xs)| == 8 * |xs|
  {
    if xs == [] {
    } else {
      TableLength(xs[1..]);
    }
  }

  lemma TablesDecode(dt: Dtype, count: int, tokens: int, offsets: seq<nat>, byteOffsets: seq<nat>)
    requires I64.HoldsAll(offsets) && I64.HoldsAll(byteOffsets)
    requires |offsets| == |byteOffsets| == count + 1
    ensures ReadTables(dt.Code(), count, tokens, EncodeAll(I64, offsets) + EncodeAll(I64, byteOffsets)) ==
              Ok(Index(dt, count, tokens, offsets, byteOffsets))
  {
    TableLength(offsets);
    TableLength(byteOffsets);
    TablesRead(dt, count, tokens, EncodeAll(I64, offsets), EncodeAll(I64, byteOffsets));
    DecodesAll(I64, offsets);
    DecodesAll(I64, byteOffsets);
  }

  lemma CountsDecode(dt: Dtype, count: int, tokens: int, tables: seq<Byte>)
    requires I64.Holds(count) && I64.Holds(tokens)
    ensures ReadCounts([dt.Code()] + (Encode(I64, count) + (Encode(I64, tokens) + tables))) ==
              ReadTables(dt.Code(), count, tokens, tables)
  {
    var code: seq<Byte> := [dt.Code()];
    ReadExact(code, Encode(I64, count) + (Encode(I64, tokens) + tables));
    ReadExact(Encode(I64, count), Encode(I64, tokens) + tables);
    ReadExact(Encode(I64, tokens), tables);
    Decodes(I64, count);
    Decodes(I64, tokens);
  }

  /** The index bytes decode to the element type, counts and offsets written. */
  lemma HeaderDecodes(dt: Dtype, offsets: seq<nat>, byteOffsets: seq<nat>)
    requires offsets != [] && I64.HoldsAll(offsets) && I64.HoldsAll(byteOffsets) && I64.Holds(|offsets| - 1)
    requires |byteOffsets| == |offsets|
    ensures ReadHeader(IndexBytes(dt, offsets, byteOffsets)) ==
              Ok(Index(dt, |offsets| - 1, offsets[|offsets| - 1], offsets, byteOffsets))
  {
    var count, last := |offsets| - 1, offsets[|offsets| - 1];
    var tables := EncodeAll(I64, offsets) + EncodeAll(I64, byteOffsets);
    var rest := [dt.Code()] + (Encode(I64, count) + (Encode(I64, last) + tables));
    ReadExact(MAGIC, LittleEndian(VERSION, 8) + rest);
    ReadExact(LittleEndian(VERSION, 8), rest);
    LittleEndianDecodes(VERSION, 8);
    CountsDecode(dt, count, last, tables);
    TablesDecode(dt, count, last, offsets, byteOffsets);
  }

  /**
   The index file byte by byte: eight magic bytes, the version 1 and the counts in eight little-endian bytes
   each around the element type's code, then the two tables of eight-byte entries.
  */
  lemma IndexLayout(dt: Dtype, offsets: seq<nat>, byteOffsets: seq<nat>, i: nat)
    requires offsets != [] && I64.HoldsAll(offsets) && I64.HoldsAll(byteOffsets) && I64.Holds(|offsets| - 1)
    requires |byteOffsets| == |offsets| && i < |offsets|
    ensures var f, table := IndexBytes(dt, offsets, byteOffsets), 33 + 8 * |offsets|;
            && |f| == 33 + 16 * |offsets|
            && f[..8] == [77, 77, 73, 68, 73, 68, 88, 0] && f[8..16] == [1, 0, 0, 0, 0, 0, 0, 0]
            && f[16] == dt.Code() && f[17..25] == LittleEndian(|offsets| - 1, 8)
            && f[25..33] == LittleEndian(offsets[|offsets| - 1], 8)
            && f[33 + 8 * i..41 + 8 * i] == LittleEndian(offsets[i], 8)
            && f[table + 8 * i..table + 8 * i + 8] == LittleEndian(byteOffsets[i], 8)
  {
    hide EncodeAll, LittleEndian, Pow256;
    var v, code := LittleEndian(VERSION, 8), [dt.Code()];
    var count, last := Encode(I64, |offsets| - 1), Encode(I64, offsets[|offsets| - 1]);
    var x, y := EncodeAll(I64, offsets), EncodeAll(I64, byteOffsets);
    TableLength(offsets);
    TableLength(byteOffsets);
    VersionBytes();
    EncodeAllAt(I64, offsets, i);
    EncodeAllAt(I64, byteOffsets, i);
    HeadSlices(MAGIC, v, code, count, last, x, y, 8 * i);
  }

  lemma HeadSlices<T>(a: seq<T>, b: seq<T>, c: seq<T>, d: seq<T>, e: seq<T>, x: seq<T>, y: seq<T>, at: nat)
    requires |a| == |b| == |d| == |e| == 8 && |c| == 1 && at + 8 <= |x| == |y|
    ensures var f := a + (b + (c + (d + (e + (x + y)))));
            && |f| == 33 + |x| + |y|
            && f[..8] == a && f[8..16] == b && f[16] == c[0] && f[17..25] == d && f[25..33] == e
            && f[33 + at..41 + at] == x[at..at + 8]
            && f[33 + |x| + at..33 + |x| + at + 8] == y[at..at + 8]
  {
    Nest(a, b, c, d, e, x, y);
    var head := a + b + c + d + e;
    EntrySlices(head, x, y, at);
    assert head + x + y == a + b + c + d + e + x + y;
    FrontSlices(a, b, c, d, e, x + y);
  }

  lemma FrontSlices<T>(a: seq<T>, b: seq<T>, c: seq<T>, d: seq<T>, e: seq<T>, rest: seq<T>)
    requires |a| == |b| == |d| == |e| == 8 && |c| == 1
    ensures var f := a + (b + (c + (d + (e + rest))));
            f[..8] == a && f[8..16] == b && f[16] == c[0] && f[17..25] == d && f[25..33] == e
  {
    var f := a + (b + (c + (d + (e + rest))));
    assert f[8..] == b + (c + (d + (e + rest)));
    assert f[16..] == c + (d + (e + rest));
    assert f[17..] == d + (e + rest);
    assert f[25..] == e + rest;
  }

  lemma EntrySlices<T>(head: seq<T>, x: seq<T>, y: seq<T>, at: nat)
    requires at + 8 <= |x| == |y|
    ensures (head + x + y)[|head| + at..|head| + at + 8] == x[at..at + 8]
    ensures (head + x + y)[|head| + |x| + at..|head| + |x| + at + 8] == y[at..at + 8]
  {
    assert head + x + y == head + (x + y);
    SliceBehind(head, x + y, at, at + 8);
    SliceBehind(head + x, y, at, at + 8);
  }

  lemma VersionBytes()
    ensures LittleEndian(VERSION, 8) == [1, 0, 0, 0, 0, 0, 0, 0]
  {
    forall i | 0 <= i < 8 ensures LittleEndian(VERSION, 8)[i] == if i == 0 then 1 else 0 {
      LittleEndianAt(1, 8, i);
      if i > 0 {
        assert Pow256(i) > 1;
      }
    }
  }

  lemma {:induction false} OffsetsSlice<T>(docs: seq<seq<T>>, i: nat)
    requires i < |docs|
    ensures 0 <= Offsets(docs)[i] <= Offsets(docs)[i + 1] <= |Flat(docs)|
    ensures Flat(docs)[Offsets(docs)[i]..Offsets(docs)[i + 1]] == docs[i]
  {
    var m := |docs| - 1;
    if i >= m {
    } else {
      OffsetsSlice(docs[..m], i);
      var all, part := Flat(docs), Flat(docs[..m]);
      assert all[Offsets(docs)[i]..Offsets(docs)[i + 1]] == part[Offsets(docs)[i]..Offsets(docs)[i + 1]];
    }
  }

  /** The reader serves document i, by its index from either end, as d. */
  ghost predicate Serves(r: Reader, i: int, d: seq<int>) {
    && r.DocumentLength(i) == Ok(|d|) && r.DocumentLength(i - r.index.count) == Ok(|d|)
    && (r.payload.Some? ==> r.Document(i) == Ok(d) && r.Document(i - r.index.count) == Ok(d))
  }

  ghost predicate Refuses(r: Reader, i: int) {
    r.Document(i).Failure? && r.DocumentLength(i).Failure?
  }

  ghost predicate Holds(r: Reader, docs: seq<seq<int>>) {
    && r.index.count == |docs| && r.index.tokens == |Flat(docs)|
    && (forall i :: 0 <= i < |docs| ==> Serves(r, i, docs[i]))
    && (forall i :: i < -|docs| || i >= |docs| ==> Refuses(r, i))
  }

  /** A reader over the written offsets, with or without the written tokens, serves the documents. */
  lemma ReaderHolds(r: Reader, dt: Dtype, docs: seq<seq<int>>)
    requires r.index == Index(dt, |docs|, |Flat(docs)|, Offsets(docs), ByteOffsets(docs, dt.Size()))
    requires r.payload == None || r.payload == Some(Flat(docs))
    ensures Holds(r, docs)
  {
    forall i | 0 <= i < |docs| ensures Serves(r, i, docs[i]) {
      OffsetsSlice(docs, i);
      ReaderServes(r, i, Flat(docs), docs[i]);
    }
    forall i | i < -|docs| || i >= |docs| ensures Refuses(r, i) {
      ReaderRefuses(r, i);
    }
  }

  lemma ReaderServes(r: Reader, i: int, all: seq<int>, d: seq<int>)
    requires 0 <= i < r.index.count && i + 1 < |r.index.offsets|
    requires 0 <= r.index.offsets[i] <= r.index.offsets[i + 1] <= |all|
    requires all[r.index.offsets[i]..r.index.offsets[i + 1]] == d
    requires r.payload == None || r.payload == Some(all)
    ensures Serves(r, i, d)
  {}

  lemma ReaderRefuses(r: Reader, i: int)
    requires i < -r.index.count || i >= r.index.count
    ensures Refuses(r, i)
  {}

  /**
   A shard the writer closed reads back: the index alone serves every length, and index and payload
   together serve every document. A shard without tokens does not open with its payload.
  */
  lemma ShardReadsBack(dt: Dtype, docs: seq<seq<int>>, idx: seq<Byte>, bin: seq<Byte>)
    requires Written(dt, docs, bin) && IsIndexOf(idx, dt, docs)
    ensures Open(Some(idx), None, true).Ok? && Holds(Open(Some(idx), None, true).value, docs)
    ensures Open(Some(idx), Some(bin), false).Ok? <==> Flat(docs) != []
    ensures Flat(docs) != [] ==>
              && Open(Some(idx), Some(bin), false).value.payload.Some?
              && Holds(Open(Some(idx), Some(bin), false).value, docs)
  {
    HeaderDecodes(dt, Offsets(docs), ByteOffsets(docs, dt.Size()));
    EncodedLength(dt, Flat(docs));
    DecodesAll(dt, Flat(docs));
    Arithmetic.DivModUnique(|bin|, dt.Size(), |Flat(docs)|, 0);
    var index := Index(dt, |docs|, |Flat(docs)|, Offsets(docs), ByteOffsets(docs, dt.Size()));
    ReaderHolds(Reader(index, None), dt, docs);
    ReaderHolds(Reader(index, Some(Flat(docs))), dt, docs);
    if Flat(docs) != [] {
      Arithmetic.MulMono(1, |Flat(docs)|, dt.Size());
    }
  }
}
