// The process image of the EtherCAT driver: fields of one to seven bits inside a byte and fields
// of whole bytes, written and read through masks and host memory. Channels number the bits of
// the image, the most significant of each byte first.
module ProcessImage {
  import opened CommonTypes
  import opened Codec

  // ------------------------------------------------------------ bits of one byte

  // The mask of w ones.
  function Ones(w: bv8): bv8
    requires w <= 8
  {
    if w == 8 then 255 else (1 << w) - 1
  }

  function Merged(byte: bv8, mask: bv8, val: bv8, offset: bv8): bv8
    requires offset <= 8
  {
    (byte & !(mask << offset)) | ((val & mask) << offset)
  }

  function Picked(byte: bv8, mask: bv8, offset: bv8): bv8
    requires offset <= 8
  {
    (byte & (mask << offset)) >> offset
  }

  function Insert(byte: bv8, offset: bv8, w: bv8, val: bv8): bv8
    requires w <= 8 && offset <= 8 - w
  {
    Merged(byte, Ones(w), val, offset)
  }

  function Extract(byte: bv8, offset: bv8, w: bv8): bv8
    requires w <= 8 && offset <= 8 - w
  {
    Picked(byte, Ones(w), offset)
  }

  predicate BitOf(byte: bv8, q: bv8)
    requires q < 8
  {
    (byte >> (7 - q)) & 1 == 1
  }

  // An inserted field occupies its own bits, in order, and no others.
  lemma InsertedBits(byte: bv8, offset: bv8, w: bv8, val: bv8, q: bv8)
    requires 1 <= w <= 7 && offset <= 8 - w && q < 8
    ensures BitOf(Insert(byte, offset, w, val), q) <==>
      if 8 - offset - w <= q < 8 - offset then BitOf(val, q + offset) else BitOf(byte, q)
  {
    if q == 0 {} else if q == 1 {} else if q == 2 {} else if q == 3 {}
    else if q == 4 {} else if q == 5 {} else if q == 6 {} else {}
  }

  lemma ExtractInsert(byte: bv8, offset: bv8, w: bv8, val: bv8)
    requires 1 <= w <= 7 && offset <= 8 - w
    ensures Extract(Insert(byte, offset, w, val), offset, w) == val & Ones(w)
  {}

  lemma EightBits(x: bv8, y: bv8)
    requires BitOf(x, 0) == BitOf(y, 0) && BitOf(x, 1) == BitOf(y, 1) && BitOf(x, 2) == BitOf(y, 2)
      && BitOf(x, 3) == BitOf(y, 3)
    requires BitOf(x, 4) == BitOf(y, 4) && BitOf(x, 5) == BitOf(y, 5) && BitOf(x, 6) == BitOf(y, 6)
      && BitOf(x, 7) == BitOf(y, 7)
    ensures x == y
  {}

  // A small number as a shift.
  function Small(n: nat): (b: bv8)
    requires n <= 8
    ensures b <= 8
  {
    match n
    case 0 => 0
    case 1 => 1
    case 2 => 2
    case 3 => 3
    case 4 => 4
    case 5 => 5
    case 6 => 6
    case 7 => 7
    case _ => 8
  }

  // A value modulo two to the width of the field.
  function Modulo(val: bv32, w: nat): bv32 {
    match w
    case 1 => val % 2
    case 2 => val % 4
    case 3 => val % 8
    case 4 => val % 16
    case 5 => val % 32
    case 6 => val % 64
    case 7 => val % 128
    case 8 => val % 256
    case 16 => val % 65536
    case _ => val
  }

  lemma LowBits(val: bv32, w: nat)
    requires 1 <= w <= 7
    ensures (LowByte(val) & Ones(Small(w))) as bv32 == Modulo(val, w)
  {
    match w
    case 1 => case 2 => case 3 => case 4 => case 5 => case 6 => case 7 =>
  }

  lemma SmallSum(m: nat, n: nat)
    requires m + n <= 8
    ensures Small(m + n) == Small(m) + Small(n) && Small(m) <= 8 - Small(n)
  {}

  lemma SmallOrder(m: nat, n: nat)
    requires m <= 8 && n <= 8
    ensures (Small(m) < Small(n) <==> m < n) && Small(8) == 8
  {}

  // The same by numbers: a field of w bits from bit c of a byte on.
  lemma InsertedAt(byte: bv8, c: nat, w: nat, val: bv8, r: nat)
    requires 1 <= w <= 7 && c + w <= 8 && r < 8
    ensures Small(w) <= 8 && Small(8 - c - w) <= 8 - Small(w) && Small(r) < 8
    ensures c <= r < c + w ==> Small(8 - w + (r - c)) < 8
    ensures BitOf(Insert(byte, Small(8 - c - w), Small(w), val), Small(r)) <==>
      if c <= r < c + w then BitOf(val, Small(8 - w + (r - c))) else BitOf(byte, Small(r))
  {
    hide Insert, BitOf, Small;
    SmallSum(8 - c - w, w);
    SmallSum(c, 8 - c);
    SmallOrder(r, 8);
    SmallOrder(0, w);
    SmallOrder(w, 8);
    SmallOrder(r, c);
    SmallOrder(r, c + w);
    SmallSum(c + w, 8 - c - w);
    InsertedBits(byte, Small(8 - c - w), Small(w), val, Small(r));
    if c <= r < c + w {
      SmallOrder(8 - w + (r - c), 8);
      SmallSum(r, 8 - c - w);
    }
  }

  // ------------------------------------------------------------ fields of the image

  predicate IsBits(a: IOAddr) { 0 < a.numBits < 8 }

  predicate IsBytes(a: IOAddr) { 8 <= a.numBits <= 32 && a.numBits % 8 == 0 && a.channel % 8 == 0 }

  // The fields the driver moves whole: bits that stay inside one byte, or one, two or four bytes.
  predicate Whole(a: IOAddr) {
    (IsBits(a) && a.channel % 8 + a.numBits <= 8) || (IsBytes(a) && a.numBits != 24)
  }

  // The field lies in the module's part of the image.
  predicate Mapped(a: IOAddr, size: nat) {
    a.channel + a.numBits <= 8 * size
  }

  function Offset(a: IOAddr): (k: bv8)
    requires IsBits(a) && a.channel % 8 + a.numBits <= 8
    ensures Small(a.numBits) <= 8 && k <= 8 - Small(a.numBits)
  {
    SmallSum(8 - a.channel % 8 - a.numBits, a.numBits);
    Small(8 - a.channel % 8 - a.numBits)
  }

  // The bytes of a value as they lie in the driver's memory.
  function Memory(little: bool, val: bv32): (m: seq<bv8>)
    ensures |m| == 4
  {
    InMemory(little, Bytes32(val))
  }

  function OfMemory(little: bool, m: seq<bv8>): bv32
    requires |m| == 4
  {
    Word32(InMemory(little, m))
  }

  function LowByte(val: bv32): bv8 { (val & 0xff) as bv8 }

  function Written(little: bool, image: seq<bv8>, a: IOAddr, val: bv32): (r: seq<bv8>)
    requires Whole(a) && Mapped(a, |image|)
    ensures |r| == |image|
  {
    var i := a.channel / 8;
    if IsBits(a) then image[i := Insert(image[i], Offset(a), Small(a.numBits), LowByte(val))]
    else image[..i] + Memory(little, val)[..a.numBits / 8] + image[i + a.numBits / 8..]
  }

  function ReadValue(little: bool, image: seq<bv8>, a: IOAddr): bv32
    requires Whole(a) && Mapped(a, |image|)
  {
    var i := a.channel / 8;
    if IsBits(a) then Extract(image[i], Offset(a), Small(a.numBits)) as bv32
    else OfMemory(little, image[i..i + a.numBits / 8] + seq(4 - a.numBits / 8, _ => 0))
  }

  // ---- the image as bits

  predicate BitAt(image: seq<bv8>, p: nat)
    requires p < 8 * |image|
  {
    SmallOrder(p % 8, 8);
    BitOf(image[p / 8], Small(p % 8))
  }

  // Bit k of the field a value makes.
  predicate FieldBit(little: bool, a: IOAddr, val: bv32, k: nat)
    requires Whole(a) && k < a.numBits
  {
    if IsBits(a) then
      SmallOrder(8 - a.numBits + k, 8);
      BitOf(LowByte(val), Small(8 - a.numBits + k))
    else
      SmallOrder(k % 8, 8);
      BitOf(Memory(little, val)[k / 8], Small(k % 8))
  }

  // A write sets the bits of its field and leaves every other bit of the image as it was.
  lemma WritesItsBits(little: bool, image: seq<bv8>, a: IOAddr, val: bv32, p: nat)
    requires Whole(a) && Mapped(a, |image|) && p < 8 * |image|
    ensures BitAt(Written(little, image, a, val), p) <==>
      if a.channel <= p < a.channel + a.numBits then FieldBit(little, a, val, p - a.channel) else BitAt(image, p)
  {
    hide Insert, BitOf, LowByte, Memory, Small;
    if IsBits(a) {
      if p / 8 == a.channel / 8 {
        InsertedAt(image[a.channel / 8], a.channel % 8, a.numBits, LowByte(val), p % 8);
      }
    }
  }

  lemma SmallDigits()
    ensures Small(0) == 0 && Small(1) == 1 && Small(2) == 2 && Small(3) == 3
    ensures Small(4) == 4 && Small(5) == 5 && Small(6) == 6 && Small(7) == 7
  {}

  lemma SameBits(x: seq<bv8>, y: seq<bv8>)
    requires |x| == |y| && forall p | 0 <= p < 8 * |x| :: BitAt(x, p) == BitAt(y, p)
    ensures x == y
  {
    hide BitOf, Small;
    forall i | 0 <= i < |x| ensures x[i] == y[i] {
      SmallDigits();
      assert BitAt(x, 8 * i) == BitAt(y, 8 * i) && BitAt(x, 8 * i + 1) == BitAt(y, 8 * i + 1);
      assert BitAt(x, 8 * i + 2) == BitAt(y, 8 * i + 2) && BitAt(x, 8 * i + 3) == BitAt(y, 8 * i + 3);
      assert BitAt(x, 8 * i + 4) == BitAt(y, 8 * i + 4) && BitAt(x, 8 * i + 5) == BitAt(y, 8 * i + 5);
      assert BitAt(x, 8 * i + 6) == BitAt(y, 8 * i + 6) && BitAt(x, 8 * i + 7) == BitAt(y, 8 * i + 7);
      EightBits(x[i], y[i]);
    }
  }

  predicate Apart(a: IOAddr, b: IOAddr) {
    a.channel + a.numBits <= b.channel || b.channel + b.numBits <= a.channel
  }

  // Writes to fields that do not overlap commute.
  lemma WritesCommute(little: bool, image: seq<bv8>, a: IOAddr, x: bv32, b: IOAddr, y: bv32)
    requires Whole(a) && Whole(b) && Mapped(a, |image|) && Mapped(b, |image|) && Apart(a, b)
    ensures Written(little, Written(little, image, a, x), b, y) == Written(little, Written(little, image, b, y), a, x)
  {
    hide Written, BitAt, FieldBit;
    var ia, ib := Written(little, image, a, x), Written(little, image, b, y);
    forall p | 0 <= p < 8 * |image|
      ensures BitAt(Written(little, ia, b, y), p) == BitAt(Written(little, ib, a, x), p)
    {
      WritesItsBits(little, image, a, x, p);
      WritesItsBits(little, image, b, y, p);
      WritesItsBits(little, ia, b, y, p);
      WritesItsBits(little, ib, a, x, p);
    }
    SameBits(Written(little, ia, b, y), Written(little, ib, a, x));
  }

  // ---- reading back

  // On a little-endian host a byte field holds the low bytes of the value; on a big-endian one it
  // holds the high bytes, and reads them back into the high bytes.
  function HighPart(val: bv32, w: nat): bv32 {
    match w
    case 8 => val & 0xff00_0000
    case 16 => val & 0xffff_0000
    case _ => val
  }

  lemma LowByteBack(v: bv32)
    ensures Word32([0, 0, 0, Bytes32(v)[3]]) == v % 256
  {
    assert ((v & 0xff) as bv8) as bv32 == v % 256;
  }

  lemma LowHalfBack(v: bv32)
    ensures Word32([0, 0, Bytes32(v)[2], Bytes32(v)[3]]) == v % 65536
  {
    LowHalf(v);
  }

  lemma LowHalf(v: bv32)
    ensures ((((v >> 8) & 0xff) as bv8 as bv32) << 8) | ((v & 0xff) as bv8 as bv32) == v % 65536
  {}

  lemma HighByteBack(v: bv32)
    ensures Word32([Bytes32(v)[0], 0, 0, 0]) == v & 0xff00_0000
  {
    assert (((v >> 24) & 0xff) as bv8 as bv32) << 24 == v & 0xff00_0000;
  }

  lemma HighHalfBack(v: bv32)
    ensures Word32([Bytes32(v)[0], Bytes32(v)[1], 0, 0]) == v & 0xffff_0000
  {
    HighHalf(v);
  }

  lemma HighHalf(v: bv32)
    ensures ((((v >> 24) & 0xff) as bv8 as bv32) << 24) | ((((v >> 16) & 0xff) as bv8 as bv32) << 16) == v & 0xffff_0000
  {}

  lemma LittleBack(val: bv32, n: nat)
    requires n == 1 || n == 2 || n == 4
    ensures OfMemory(true, Memory(true, val)[..n] + seq(4 - n, _ => 0)) == Modulo(val, 8 * n)
  {
    hide Bytes32, Word32;
    var b := Bytes32(val);
    var m := Memory(true, val)[..n] + seq(4 - n, _ => 0);
    if n == 1 {
      assert Reverse(m) == [0, 0, 0, b[3]];
      LowByteBack(val);
    } else if n == 2 {
      assert Reverse(m) == [0, 0, b[2], b[3]];
      LowHalfBack(val);
    } else {
      assert Reverse(m) == b;
      WordOfBytes32(val);
    }
  }

  lemma BigBack(val: bv32, n: nat)
    requires n == 1 || n == 2 || n == 4
    ensures OfMemory(false, Memory(false, val)[..n] + seq(4 - n, _ => 0)) == HighPart(val, 8 * n)
  {
    hide Bytes32, Word32;
    var b := Bytes32(val);
    var m := Memory(false, val)[..n] + seq(4 - n, _ => 0);
    if n == 1 {
      assert m == [b[0], 0, 0, 0];
      HighByteBack(val);
    } else if n == 2 {
      assert m == [b[0], b[1], 0, 0];
      HighHalfBack(val);
    } else {
      assert m == b;
      WordOfBytes32(val);
    }
  }

  // What a read finds after a write of the same field.
  lemma ReadBack(little: bool, image: seq<bv8>, a: IOAddr, val: bv32)
    requires Whole(a) && Mapped(a, |image|)
    ensures ReadValue(little, Written(little, image, a, val), a)
      == if little || IsBits(a) then Modulo(val, a.numBits) else HighPart(val, a.numBits)
  {
    hide Insert, Extract, LowByte, Memory, OfMemory, Modulo, HighPart, Small, Ones;
    var i, n := a.channel / 8, a.numBits / 8;
    if IsBits(a) {
      SmallOrder(0, a.numBits);
      SmallOrder(a.numBits, 8);
      ExtractInsert(image[i], Offset(a), Small(a.numBits), LowByte(val));
      LowBits(val, a.numBits);
    } else {
      assert Written(little, image, a, val)[i..i + n] == Memory(little, val)[..n];
      if little { LittleBack(val, n); } else { BigBack(val, n); }
    }
  }

  lemma MasksApart(off1: bv8, w1: bv8, off2: bv8, w2: bv8)
    requires 1 <= w1 <= 7 && off1 <= 8 - w1 && 1 <= w2 <= 7 && off2 <= 8 - w2
    requires off1 + w1 <= off2 || off2 + w2 <= off1
    ensures (Ones(w1) << off1) & (Ones(w2) << off2) == 0
  {}

  lemma PickedApart(byte: bv8, mask1: bv8, val: bv8, off1: bv8, mask2: bv8, off2: bv8)
    requires off1 <= 8 && off2 <= 8 && (mask1 << off1) & (mask2 << off2) == 0
    ensures Picked(Merged(byte, mask1, val, off1), mask2, off2) == Picked(byte, mask2, off2)
  {
    if off1 == 0 {} else if off1 == 1 {} else if off1 == 2 {} else if off1 == 3 {}
    else if off1 == 4 {} else if off1 == 5 {} else if off1 == 6 {} else if off1 == 7 {} else {}
  }

  lemma ExtractApart(byte: bv8, off1: bv8, w1: bv8, val: bv8, off2: bv8, w2: bv8)
    requires 1 <= w1 <= 7 && off1 <= 8 - w1 && 1 <= w2 <= 7 && off2 <= 8 - w2
    requires off1 + w1 <= off2 || off2 + w2 <= off1
    ensures Extract(Insert(byte, off1, w1, val), off2, w2) == Extract(byte, off2, w2)
  {
    hide Ones, Picked, Merged;
    MasksApart(off1, w1, off2, w2);
    PickedApart(byte, Ones(w1), val, off1, Ones(w2), off2);
  }

  lemma BitsApart(byte: bv8, a: IOAddr, val: bv8, b: IOAddr)
    requires IsBits(a) && a.channel % 8 + a.numBits <= 8 && IsBits(b) && b.channel % 8 + b.numBits <= 8
    requires a.channel / 8 == b.channel / 8 && Apart(a, b)
    ensures Extract(Insert(byte, Offset(a), Small(a.numBits), val), Offset(b), Small(b.numBits))
      == Extract(byte, Offset(b), Small(b.numBits))
  {
    hide Insert, Extract, Small;
    var oa, ob := 8 - a.channel % 8 - a.numBits, 8 - b.channel % 8 - b.numBits;
    SmallOrder(0, a.numBits);
    SmallOrder(a.numBits, 8);
    SmallOrder(0, b.numBits);
    SmallOrder(b.numBits, 8);
    SmallSum(oa, a.numBits);
    SmallSum(ob, b.numBits);
    SmallOrder(ob, oa + a.numBits);
    SmallOrder(oa, ob + b.numBits);
    ExtractApart(byte, Offset(a), Small(a.numBits), val, Offset(b), Small(b.numBits));
  }

  lemma OtherByte(little: bool, image: seq<bv8>, a: IOAddr, val: bv32, k: nat)
    requires Whole(a) && Mapped(a, |image|) && k < |image|
    requires 8 * k + 8 <= a.channel || a.channel + a.numBits <= 8 * k || (IsBits(a) && k != a.channel / 8)
    ensures Written(little, image, a, val)[k] == image[k]
  {
    hide Insert, LowByte, Memory, Offset;
  }

  // A read is not disturbed by a write to a field that does not overlap.
  lemma ReadApart(little: bool, image: seq<bv8>, a: IOAddr, val: bv32, b: IOAddr)
    requires Whole(a) && Whole(b) && Mapped(a, |image|) && Mapped(b, |image|) && Apart(a, b)
    ensures ReadValue(little, Written(little, image, a, val), b) == ReadValue(little, image, b)
  {
    hide Insert, Extract, LowByte, Memory, OfMemory, Small, Offset;
    var i, j := a.channel / 8, b.channel / 8;
    var after := Written(little, image, a, val);
    if IsBits(b) {
      if IsBits(a) && i == j {
        BitsApart(image[i], a, LowByte(val), b);
      } else {
        OtherByte(little, image, a, val, j);
      }
    } else {
      var n := b.numBits / 8;
      forall k | j <= k < j + n ensures after[k] == image[k] { OtherByte(little, image, a, val, k); }
      assert after[j..j + n] == image[j..j + n];
    }
  }

  // ------------------------------------------------------------ the driver

  lemma NextOnes(i: nat)
    requires i < 7
    ensures Ones(Small(i)) + (1 << Small(i)) == Ones(Small(i + 1)) && Small(i) < 8
  {}

  // The mask as the loops build it, one bit at a time.
  method AddMask(w: nat) returns (mask: bv8)
    requires w <= 7
    ensures mask == Ones(Small(w))
  {
    hide Ones, Small;
    mask := 0;
    assert Ones(Small(0)) == 0 by { NoOnes(); }
    for i := 0 to w
      invariant mask == Ones(Small(i))
    {
      NextOnes(i);
      mask := mask + (1 << Small(i));
    }
  }

  lemma NoOnes()
    ensures Ones(Small(0)) == 0
  {}

  predicate Accepted(slaveCount: nat, a: IOAddr) {
    1 <= a.mod <= slaveCount && (IsBits(a) || IsBytes(a))
  }

  class EthercatDrv {
    const little: bool
    const slaveCount: nat
    const outputs: seq<array<bv8>>
    const inputs: seq<array<bv8>>

    // A field to be written lies inside its module's outputs, one to be read inside its inputs, and
    // a field of bits inside one byte. A terminal usually has only one of the two parts.
    ghost predicate PlacedOut(a: IOAddr) {
      && |outputs| == slaveCount
      && (Accepted(slaveCount, a) && a.numBits != 24 ==> Whole(a) && Mapped(a, outputs[a.mod - 1].Length))
    }

    ghost predicate PlacedIn(a: IOAddr) {
      && |inputs| == slaveCount
      && (Accepted(slaveCount, a) && a.numBits != 24 ==> Whole(a) && Mapped(a, inputs[a.mod - 1].Length))
    }

    constructor (little: bool, outputs: seq<array<bv8>>, inputs: seq<array<bv8>>)
      requires |outputs| == |inputs|
      ensures this.little == little && this.outputs == outputs && this.inputs == inputs && slaveCount == |outputs|
    {
      this.little, this.outputs, this.inputs, slaveCount := little, outputs, inputs, |outputs|;
    }

    // The byte with the field replaced, by the two masks.
    static method Merge(byte: bv8, ones: bv8, val: bv8, offset: bv8) returns (r: bv8)
      requires offset <= 8
      ensures r == Merged(byte, ones, val, offset)
    {
      var clean := !(ones << offset);
      var mask := (val & ones) << offset;
      r := (byte & clean) | mask;
    }

    static method Pick(byte: bv8, ones: bv8, offset: bv8) returns (r: bv8)
      requires offset <= 8
      ensures r == Picked(byte, ones, offset)
    {
      var mask := ones << offset;
      r := (byte & mask) >> offset;
    }

    method WriteBits(out: array<bv8>, a: IOAddr, val: bv32)
      requires IsBits(a) && a.channel % 8 + a.numBits <= 8 && Mapped(a, out.Length)
      modifies out
      ensures out[..] == Written(little, old(out[..]), a, val)
    {
      hide Merged, Ones, LowByte, Memory, Small, Offset;
      var at := a.channel / 8;
      var ones := AddMask(a.numBits);
      var byte := Merge(out[at], ones, LowByte(val), Offset(a));
      out[at] := byte;
    }

    method WriteBytes(out: array<bv8>, a: IOAddr, val: bv32)
      requires IsBytes(a) && (a.numBits != 24 ==> Mapped(a, out.Length))
      modifies out
      ensures out[..] == if Whole(a) then Written(little, old(out[..]), a, val) else old(out[..])
    {
      hide Memory;
      var mem := Memory(little, val);
      var at, bytes := a.channel / 8, a.numBits / 8;
      if bytes == 3 { return; }
      for k := 0 to bytes
        invariant forall j | 0 <= j < out.Length :: out[j] == if at <= j < at + k then mem[j - at] else old(out[j])
      {
        out[at + k] := mem[k];
      }
      assert out[..] == old(out[..])[..at] + mem[..bytes] + old(out[..])[at + bytes..];
    }

    // "sent" tells whether the frame went out in time when the caller waits for it.
    method WriteIO(a: IOAddr, val: bv32, sync: bool, sent: bool) returns (ok: bool)
      requires PlacedOut(a)
      modifies if 1 <= a.mod <= slaveCount then {outputs[a.mod - 1]} else {}
      ensures ok == (1 <= a.mod <= slaveCount && (!sync || sent)
                     && (0 < a.numBits < 8 || (8 <= a.numBits <= 32 && a.numBits % 8 == 0 && a.channel % 8 == 0)))
      ensures 1 <= a.mod <= slaveCount ==>
        outputs[a.mod - 1][..] ==
          if Whole(a) then Written(little, old(outputs[a.mod - 1][..]), a, val) else old(outputs[a.mod - 1][..])
    {
      hide Written;
      if a.mod < 1 || a.mod > slaveCount { return false; }
      if a.numBits < 8 && a.numBits > 0 {
        WriteBits(outputs[a.mod - 1], a, val);
        if sync && !sent { return false; }
      } else if a.numBits >= 8 && a.numBits <= 32 && a.numBits % 8 == 0 && a.channel % 8 == 0 {
        WriteBytes(outputs[a.mod - 1], a, val);
        if sync && !sent { return false; }
      } else {
        return false;
      }
      return true;
    }

    method ReadBits(input: array<bv8>, a: IOAddr) returns (val: bv32)
      requires IsBits(a) && a.channel % 8 + a.numBits <= 8 && Mapped(a, input.Length)
      ensures val == ReadValue(little, input[..], a)
    {
      hide Picked, Ones, Small, Offset;
      var at := a.channel / 8;
      var ones := AddMask(a.numBits);
      var byte := Pick(input[at], ones, Offset(a));
      val := byte as bv32;
    }

    method ReadBytes(input: array<bv8>, a: IOAddr) returns (val: bv32)
      requires IsBytes(a) && (a.numBits != 24 ==> Mapped(a, input.Length))
      ensures val == if Whole(a) then ReadValue(little, input[..], a) else 0
    {
      hide OfMemory;
      var mem: seq<bv8> := [0, 0, 0, 0];
      var at, bytes := a.channel / 8, a.numBits / 8;
      if bytes == 3 { return 0; }
      for k := 0 to bytes
        invariant |mem| == 4 && mem == input[at..at + k] + seq(4 - k, _ => 0)
      {
        mem := mem[k := input[at + k]];
      }
      val := OfMemory(little, mem);
      assert input[..][at..at + bytes] == input[at..at + bytes];
    }

    method ReadDevice(a: IOAddr) returns (ok: bool, val: bv32)
      requires PlacedIn(a)
      ensures ok == Accepted(slaveCount, a)
      ensures ok == (1 <= a.mod <= slaveCount
                     && (0 < a.numBits < 8 || (8 <= a.numBits <= 32 && a.numBits % 8 == 0 && a.channel % 8 == 0)))
      ensures val == if ok && Whole(a) then ReadValue(little, inputs[a.mod - 1][..], a) else 0
    {
      hide ReadValue;
      if a.mod < 1 || a.mod > slaveCount { return false, 0; }
      if a.numBits < 8 && a.numBits > 0 {
        val := ReadBits(inputs[a.mod - 1], a);
      } else if a.numBits >= 8 && a.numBits <= 32 && a.numBits % 8 == 0 && a.channel % 8 == 0 {
        val := ReadBytes(inputs[a.mod - 1], a);
      } else {
        return false, 0;
      }
      ok := true;
    }
  }
}
