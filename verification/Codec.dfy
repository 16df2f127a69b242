// How the two programs move 32-bit words, 64-bit time stamps and quality states through 16-bit
// registers and bits, byte by byte through host memory. "little" is the host's byte order.
module Codec {
  import opened CommonTypes

  type Register = bv16

  // ------------------------------------------------------------ host memory

  function High(w: Register): bv8 { (w >> 8) as bv8 }

  function Low(w: Register): bv8 { (w & 0xff) as bv8 }

  function Join(high: bv8, low: bv8): Register { ((high as bv16) << 8) | (low as bv16) }

  // A register's two bytes, by address.
  function MemOfRegister(little: bool, w: Register): seq<bv8> {
    if little then [Low(w), High(w)] else [High(w), Low(w)]
  }

  function RegisterOfMem(little: bool, m: seq<bv8>): Register
    requires |m| == 2
  {
    if little then Join(m[1], m[0]) else Join(m[0], m[1])
  }

  function PokeRegister(little: bool, w: Register, half: nat, b: bv8): Register
    requires half < 2
  {
    RegisterOfMem(little, MemOfRegister(little, w)[half := b])
  }

  // The bytes of a value, the most significant first.
  function Bytes32(v: bv32): (b: seq<bv8>)
    ensures |b| == 4
  {
    [((v >> 24) & 0xff) as bv8, ((v >> 16) & 0xff) as bv8, ((v >> 8) & 0xff) as bv8, (v & 0xff) as bv8]
  }

  function Word32(b: seq<bv8>): bv32
    requires |b| == 4
  {
    ((b[0] as bv32) << 24) | ((b[1] as bv32) << 16) | ((b[2] as bv32) << 8) | (b[3] as bv32)
  }

  function Bytes64(v: bv64): (b: seq<bv8>)
    ensures |b| == 8
  {
    Bytes32((v >> 32) as bv32) + Bytes32((v & 0xffff_ffff) as bv32)
  }

  function Word64(b: seq<bv8>): bv64
    requires |b| == 8
  {
    ((Word32(b[..4]) as bv64) << 32) | (Word32(b[4..]) as bv64)
  }

  function Reverse(b: seq<bv8>): (r: seq<bv8>)
    ensures |r| == |b|
    ensures forall i | 0 <= i < |b| :: r[i] == b[|b| - 1 - i]
  {
    if b == [] then [] else Reverse(b[1..]) + [b[0]]
  }

  // The same bytes in address order, and back.
  function InMemory(little: bool, b: seq<bv8>): (m: seq<bv8>)
    ensures |m| == |b|
  {
    if little then Reverse(b) else b
  }

  lemma Joined(high: bv8, low: bv8)
    ensures High(Join(high, low)) == high && Low(Join(high, low)) == low
  {}

  lemma BytesOfRegister(little: bool, m: seq<bv8>)
    requires |m| == 2
    ensures MemOfRegister(little, RegisterOfMem(little, m)) == m
  {
    hide High, Low, Join;
    Joined(m[0], m[1]);
    Joined(m[1], m[0]);
  }

  // Poking both bytes, the lower address first, makes the register of those two bytes.
  lemma PokeFirst(little: bool, w: Register, b0: bv8)
    ensures MemOfRegister(little, PokeRegister(little, w, 0, b0))[0] == b0
  {
    hide High, Low, Join;
    BytesOfRegister(little, MemOfRegister(little, w)[0 := b0]);
  }

  lemma PokeSecond(little: bool, w: Register, b0: bv8, b1: bv8)
    requires MemOfRegister(little, w)[0] == b0
    ensures PokeRegister(little, w, 1, b1) == RegisterOfMem(little, [b0, b1])
  {
    hide High, Low, Join;
    assert MemOfRegister(little, w)[1 := b1] == [b0, b1];
  }

  lemma WordOfBytes32(v: bv32)
    ensures Word32(Bytes32(v)) == v
  {}

  lemma BytesOfWord32(b: seq<bv8>)
    requires |b| == 4
    ensures Bytes32(Word32(b)) == b
  {}

  lemma Halves(v: bv64)
    ensures (((v >> 32) as bv32 as bv64) << 32) | ((v & 0xffff_ffff) as bv32 as bv64) == v
  {}

  lemma WordOfBytes64(v: bv64)
    ensures Word64(Bytes64(v)) == v
  {
    var h, l := (v >> 32) as bv32, (v & 0xffff_ffff) as bv32;
    var b := Bytes64(v);
    assert b[..4] == Bytes32(h) && b[4..] == Bytes32(l);
    WordOfBytes32(h);
    WordOfBytes32(l);
    Halves(v);
  }

  // ------------------------------------------------------------ values in registers

  // What the slave leaves in its registers: the value's bytes, most significant first, poked
  // into the registers' memory in address order.
  function Encode(little: bool, b: seq<bv8>): (r: seq<Register>)
    requires |b| % 2 == 0
    ensures |r| == |b| / 2
  {
    if b == [] then [] else [RegisterOfMem(little, b[..2])] + Encode(little, b[2..])
  }

  // What the master reads out of them.
  function Decode(little: bool, r: seq<Register>): (b: seq<bv8>)
    ensures |b| == 2 * |r|
  {
    if r == [] then [] else MemOfRegister(little, r[0]) + Decode(little, r[1..])
  }

  lemma {:induction false} EncodeAt(little: bool, b: seq<bv8>, k: nat)
    requires |b| % 2 == 0 && 2 * k < |b|
    ensures Encode(little, b)[k] == RegisterOfMem(little, [b[2 * k], b[2 * k + 1]])
  {
    if k == 0 {
      assert b[..2] == [b[0], b[1]];
    } else {
      EncodeAt(little, b[2..], k - 1);
    }
  }

  // The bytes of each pair exchanged.
  function SwapPairs(b: seq<bv8>): (r: seq<bv8>)
    requires |b| % 2 == 0
    ensures |r| == |b|
    ensures forall i | 0 <= i < |b| :: r[i] == b[if i % 2 == 0 then i + 1 else i - 1]
  {
    if b == [] then [] else [b[1], b[0]] + SwapPairs(b[2..])
  }

  // Both ends on hosts of the same byte order undo each other; on hosts of different orders
  // every pair of bytes comes out exchanged.
  lemma {:induction false} DecodeEncode(slave: bool, master: bool, b: seq<bv8>)
    requires |b| % 2 == 0
    ensures Decode(master, Encode(slave, b)) == if slave == master then b else SwapPairs(b)
  {
    hide High, Low, Join;
    if b != [] {
      DecodeEncode(slave, master, b[2..]);
      BytesOfRegister(slave, b[..2]);
      assert Encode(slave, b)[1..] == Encode(slave, b[2..]);
      assert b == b[..2] + b[2..];
      assert MemOfRegister(master, RegisterOfMem(slave, b[..2])) == if slave == master then b[..2] else [b[1], b[0]];
    }
  }

  function EncodeInt(little: bool, v: bv32): (r: seq<Register>)
    ensures |r| == 2
  {
    Encode(little, Bytes32(v))
  }

  function DecodeInt(little: bool, r: seq<Register>): bv32
    requires |r| == 2
  {
    Word32(Decode(little, r))
  }

  function EncodeTime(little: bool, v: bv64): (r: seq<Register>)
    ensures |r| == 4
  {
    Encode(little, Bytes64(v))
  }

  function DecodeTime(little: bool, r: seq<Register>): bv64
    requires |r| == 4
  {
    Word64(Decode(little, r))
  }

  // All 32-bit words survive the trip, for either byte order when both ends share it; between
  // different orders exactly the words made of equal byte pairs do.
  lemma IntRoundTrip(slave: bool, master: bool, v: bv32)
    ensures DecodeInt(master, EncodeInt(slave, v)) == v <==>
      slave == master || (Bytes32(v)[0] == Bytes32(v)[1] && Bytes32(v)[2] == Bytes32(v)[3])
  {
    DecodeEncode(slave, master, Bytes32(v));
    WordOfBytes32(v);
    BytesOfWord32(SwapPairs(Bytes32(v)));
  }

  lemma TimeRoundTrip(little: bool, v: bv64)
    ensures DecodeTime(little, EncodeTime(little, v)) == v
  {
    DecodeEncode(little, little, Bytes64(v));
    WordOfBytes64(v);
  }

  // ------------------------------------------------------------ floats and quality states

  // The word order of libmodbus' "abcd" accessors.
  function SetFloat(f: Float32): (r: seq<Register>)
    ensures |r| == 2
  {
    [((f >> 16) & 0xffff) as bv16, (f & 0xffff) as bv16]
  }

  function GetFloat(r: seq<Register>): Float32
    requires |r| == 2
  {
    ((r[0] as bv32) << 16) | (r[1] as bv32)
  }

  lemma FloatRoundTrip(f: Float32)
    ensures GetFloat(SetFloat(f)) == f
  {}

  function QuCode(q: QuState): bv8 {
    match q
    case OK => 0
    case OverRange => 1
    case UnderRange => 2
    case ComError => 3
  }

  function QuOf(code: bv8): QuState
    requires code <= 3
  {
    if code == 0 then OK else if code == 1 then OverRange else if code == 2 then UnderRange else ComError
  }

  // Two discrete inputs, the high bit first.
  function EncodeQu(q: QuState): (b: seq<bv8>)
    ensures |b| == 2 && b[0] <= 1 && b[1] <= 1
  {
    [QuCode(q) >> 1, QuCode(q) & 1]
  }

  function DecodeQu(b: seq<bv8>): QuState
    requires |b| == 2 && b[0] <= 1 && b[1] <= 1
  {
    QuOf((b[0] << 1) | b[1])
  }

  lemma QuRoundTrip(q: QuState)
    ensures DecodeQu(EncodeQu(q)) == q
  {}
}
