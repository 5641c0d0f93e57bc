/** Bytes and the little-endian encodings of the integer element types. */
module Bytes {
  import Arithmetic

  type Byte = b: nat | b < 256

  function Pow256(w: nat): (p: nat)
    ensures p >= 1 && (w > 0 ==> p % 2 == 0)
  {
    if w == 0 then 1 else 256 * Pow256(w - 1)
  }

  /** v in w little-endian bytes. */
  function LittleEndian(v: nat, w: nat): (b: seq<Byte>)
    ensures |b| == w
  {
    if w == 0 then [] else [v % 256] + LittleEndian(v / 256, w - 1)
  }

  function FromLittleEndian(b: seq<Byte>): (v: nat)
    ensures v < Pow256(|b|)
  {
    if b == [] then 0 else b[0] + 256 * FromLittleEndian(b[1..])
  }

  lemma {:induction false} LittleEndianDecodes(v: nat, w: nat)
    requires v < Pow256(w)
    ensures FromLittleEndian(LittleEndian(v, w)) == v
  {
    if w == 0 {
    } else {
      LittleEndianDecodes(v / 256, w - 1);
      assert LittleEndian(v, w)[1..] == LittleEndian(v / 256, w - 1);
    }
  }

  /** The integer element types a dataset can hold. */
  datatype Dtype = U8 | I8 | I16 | I32 | I64 | U16 | U32 {
    function Code(): Byte {
      match this
      case U8 => 1
      case I8 => 2
      case I16 => 3
      case I32 => 4
      case I64 => 5
      case U16 => 8
      case U32 => 9
    }

    function Size(): (w: nat)
      ensures 1 <= w <= 8
    {
      match this
      case U8 => 1
      case I8 => 1
      case I16 => 2
      case I32 => 4
      case I64 => 8
      case U16 => 2
      case U32 => 4
    }

    predicate Signed() {
      I8? || I16? || I32? || I64?
    }

    predicate Holds(x: int) {
      if Signed() then -(Pow256(Size()) / 2) <= x < Pow256(Size()) / 2 else 0 <= x < Pow256(Size())
    }

    predicate HoldsAll(xs: seq<int>) {
      forall i :: 0 <= i < |xs| ==> Holds(xs[i])
    }
  }

  function Encode(dt: Dtype, x: int): (b: seq<Byte>)
    requires dt.Holds(x)
    ensures |b| == dt.Size()
  {
    LittleEndian(if x < 0 then x + Pow256(dt.Size()) else x, dt.Size())
  }

  function Decode(dt: Dtype, b: seq<Byte>): int
    requires |b| == dt.Size()
  {
    var v := FromLittleEndian(b);
    if dt.Signed() && v >= Pow256(dt.Size()) / 2 then v - Pow256(dt.Size()) else v
  }

  lemma Decodes(dt: Dtype, x: int)
    requires dt.Holds(x)
    ensures Decode(dt, Encode(dt, x)) == x
  {
    LittleEndianDecodes(if x < 0 then x + Pow256(dt.Size()) else x, dt.Size());
  }

  function EncodeAll(dt: Dtype, xs: seq<int>): seq<Byte>
    requires dt.HoldsAll(xs)
  {
    if xs == [] then [] else Encode(dt, xs[0]) + EncodeAll(dt, xs[1..])
  }

  /** As many whole elements as b holds. */
  function DecodeAll(dt: Dtype, b: seq<Byte>): seq<int> {
    if |b| < dt.Size() then [] else [Decode(dt, b[..dt.Size()])] + DecodeAll(dt, b[dt.Size()..])
  }

  lemma {:induction false} EncodedLength(dt: Dtype, xs: seq<int>)
    requires dt.HoldsAll(xs)
    ensures |EncodeAll(dt, xs)| == |xs| * dt.Size()
  {
    if xs == [] {
    } else {
      EncodedLength(dt, xs[1..]);
      assert |xs| * dt.Size() == dt.Size() + |xs[1..]| * dt.Size();
    }
  }

  lemma {:induction false} DecodesAll(dt: Dtype, xs: seq<int>)
    requires dt.HoldsAll(xs)
    ensures DecodeAll(dt, EncodeAll(dt, xs)) == xs
  {
    if xs == [] {
    } else {
      Decodes(dt, xs[0]);
      DecodesAll(dt, xs[1..]);
      var b := EncodeAll(dt, xs);
      assert b[..dt.Size()] == Encode(dt, xs[0]) && b[dt.Size()..] == EncodeAll(dt, xs[1..]);
    }
  }

  lemma {:induction false} EncodeAppend(dt: Dtype, x: seq<int>, y: seq<int>)
    requires dt.HoldsAll(x) && dt.HoldsAll(y)
    ensures dt.HoldsAll(x + y) && EncodeAll(dt, x + y) == EncodeAll(dt, x) + EncodeAll(dt, y)
  {
    hide Encode;
    if x == [] {
      assert x + y == y;
    } else {
      EncodeAppend(dt, x[1..], y);
      assert (x + y)[1..] == x[1..] + y;
    }
  }

  // ----- what the bytes are -------------------------------------------------------------------------

  lemma TwoDigits(q: nat, b: nat, r: nat, a: nat, low: nat)
    requires r < b && low < a
    ensures (q * b + r) * a + low == q * (a * b) + (r * a + low) && r * a + low < a * b
  {
    Arithmetic.MulMono(r + 1, b, a);
    assert (r + 1) * a == r * a + a;
    assert q * b * a == q * (a * b);
  }

  lemma TwoDivisions(x: nat, a: nat, b: nat, y: nat, low: nat, q: nat, r: nat)
    requires x == y * a + low && y == q * b + r && r < b && low < a
    ensures a * b > 0 && x / (a * b) == q
  {
    TwoDigits(q, b, r, a, low);
    Arithmetic.DivModUnique(x, a * b, q, r * a + low);
  }

  lemma DivDiv(x: nat, a: nat, b: nat)
    requires a > 0 && b > 0
    ensures a * b > 0 && x / a / b == x / (a * b)
  {
    var y, low := x / a, x % a;
    var q, r := y / b, y % b;
    assert x == y * a + low;
    assert y == q * b + r;
    TwoDivisions(x, a, b, y, low, q, r);
  }

  /** Byte i of a packed number is its i-th base-256 digit: the least significant byte comes first. */
  lemma {:induction false} LittleEndianAt(v: nat, w: nat, i: nat)
    requires i < w
    ensures LittleEndian(v, w)[i] == v / Pow256(i) % 256
  {
    if i == 0 {
    } else {
      LittleEndianAt(v / 256, w - 1, i - 1);
      DivDiv(v, 256, Pow256(i - 1));
    }
  }

  /** An element is packed as itself when it is not negative, and by two's complement otherwise. */
  lemma EncodeAt(dt: Dtype, x: int, i: nat)
    requires dt.Holds(x) && i < dt.Size()
    ensures Encode(dt, x)[i] == (if x < 0 then x + Pow256(dt.Size()) else x) / Pow256(i) % 256
  {
    LittleEndianAt(if x < 0 then x + Pow256(dt.Size()) else x, dt.Size(), i);
  }

  /** Element i of a packed array starts i element sizes in. */
  lemma {:induction false} EncodeAllAt(dt: Dtype, xs: seq<int>, i: nat)
    requires dt.HoldsAll(xs) && i < |xs|
    ensures dt.Size() * i + dt.Size() <= |EncodeAll(dt, xs)|
    ensures EncodeAll(dt, xs)[dt.Size() * i..dt.Size() * i + dt.Size()] == Encode(dt, xs[i])
  {
    var w := dt.Size();
    var head, rest := Encode(dt, xs[0]), EncodeAll(dt, xs[1..]);
    if i == 0 {
    } else {
      EncodeAllAt(dt, xs[1..], i - 1);
      assert w * i == w + w * (i - 1);
      SliceBehind(head, rest, w * (i - 1), w * (i - 1) + w);
    }
  }

  lemma SliceBehind<T>(a: seq<T>, b: seq<T>, lo: nat, hi: nat)
    requires lo <= hi <= |b|
    ensures (a + b)[|a| + lo..|a| + hi] == b[lo..hi]
  {}

  /** Which code stands for which element type, how wide it is, and what it holds. */
  lemma DtypeTable(x: int)
    ensures U8.Code() == 1 && U8.Size() == 1 && (U8.Holds(x) <==> 0 <= x <= 255)
    ensures I8.Code() == 2 && I8.Size() == 1 && (I8.Holds(x) <==> -128 <= x <= 127)
    ensures I16.Code() == 3 && I16.Size() == 2 && (I16.Holds(x) <==> -32768 <= x <= 32767)
    ensures I32.Code() == 4 && I32.Size() == 4 && (I32.Holds(x) <==> -0x8000_0000 <= x <= 0x7FFF_FFFF)
    ensures I64.Code() == 5 && I64.Size() == 8
    ensures I64.Holds(x) <==> -0x8000_0000_0000_0000 <= x <= 0x7FFF_FFFF_FFFF_FFFF
    ensures U16.Code() == 8 && U16.Size() == 2 && (U16.Holds(x) <==> 0 <= x <= 65535)
    ensures U32.Code() == 9 && U32.Size() == 4 && (U32.Holds(x) <==> 0 <= x <= 0xFFFF_FFFF)
  {
    Powers();
  }

  lemma Powers()
    ensures Pow256(1) == 256 && Pow256(2) == 65536 && Pow256(4) == 0x1_0000_0000
    ensures Pow256(8) == 0x1_0000_0000_0000_0000
  {
    assert Pow256(3) == 0x100_0000 && Pow256(5) == 0x100_0000_0000;
    assert Pow256(6) == 0x1_0000_0000_0000 && Pow256(7) == 0x100_0000_0000_0000;
  }
}
