// The slave's four blocks of cells as values, and how they hold one record for each variable.
module SlaveBlocks {
  import opened CommonTypes
  import opened Codec
  import opened ModbusMap

  datatype Rec = Rec(val: Float32, forcedVal: Float32, forced: bool, q: QuState, time: bv64)

  datatype Block = Block(bits: seq<bv8>, inputBits: seq<bv8>, registers: seq<Register>, inputRegisters: seq<Register>)

  datatype Shape = Shape(little: bool, numRO: nat, numIO: nat)

  predicate Fits(sh: Shape, b: Block) {
    && |b.bits| == sh.numIO * COILOFFSET
    && |b.inputBits| == sh.numIO * DIOFFSET
    && |b.registers| == sh.numIO * HROFFSET
    && |b.inputRegisters| == sh.numIO * IROFFSET + sh.numRO * 2
    && forall i | 0 <= i < |b.inputBits| :: b.inputBits[i] <= 1
  }

  // The cells of one record, and of one read-only word.
  datatype Raw = Raw(vals: seq<Register>, ts: seq<Register>, qs: seq<bv8>, forced: bv8)

  predicate RawOk(r: Raw) {
    |r.vals| == 4 && |r.ts| == 4 && |r.qs| == 2 && r.qs[0] <= 1 && r.qs[1] <= 1
  }

  function CellsOf(sh: Shape, b: Block, n: nat): (r: Raw)
    requires Fits(sh, b) && 1 <= n <= sh.numIO
    ensures RawOk(r)
  {
    Raw(b.registers[4 * n - 4..4 * n], b.inputRegisters[2 * sh.numRO + 4 * n - 4..2 * sh.numRO + 4 * n],
        b.inputBits[2 * n - 2..2 * n], b.bits[n - 1])
  }

  function WordCells(sh: Shape, b: Block, n: nat): (r: seq<Register>)
    requires Fits(sh, b) && 1 <= n <= sh.numRO
    ensures |r| == 2
  {
    b.inputRegisters[2 * n - 2..2 * n]
  }

  function Decoded(little: bool, r: Raw): Rec
    requires RawOk(r)
  {
    Rec(GetFloat(r.vals[..2]), GetFloat(r.vals[2..]), r.forced >= 1, DecodeQu(r.qs), DecodeTime(little, r.ts))
  }

  function At(sh: Shape, b: Block, n: nat): Rec
    requires Fits(sh, b) && 1 <= n <= sh.numIO
  {
    Decoded(sh.little, CellsOf(sh, b, n))
  }

  function WordAt(sh: Shape, b: Block, n: nat): bv32
    requires Fits(sh, b) && 1 <= n <= sh.numRO
  {
    DecodeInt(sh.little, WordCells(sh, b, n))
  }

  function Table(sh: Shape, b: Block): map<nat, Rec>
    requires Fits(sh, b)
  {
    map n: nat | 1 <= n <= sh.numIO :: At(sh, b, n)
  }

  function Words(sh: Shape, b: Block): map<nat, bv32>
    requires Fits(sh, b)
  {
    map n: nat | 1 <= n <= sh.numRO :: WordAt(sh, b, n)
  }

  function Splice<T>(s: seq<T>, at: nat, part: seq<T>): (r: seq<T>)
    requires at + |part| <= |s|
    ensures |r| == |s|
    ensures r[at..at + |part|] == part
    ensures forall i | 0 <= i < at || at + |part| <= i < |s| :: r[i] == s[i]
  {
    s[..at] + part + s[at + |part|..]
  }

  // An update that touches the cells of record n only changes that record only.
  lemma OneRecord(sh: Shape, b: Block, b': Block, n: nat, rec: Rec)
    requires Fits(sh, b) && Fits(sh, b') && 1 <= n <= sh.numIO
    requires forall m | 1 <= m <= sh.numIO && m != n :: CellsOf(sh, b', m) == CellsOf(sh, b, m)
    requires forall m | 1 <= m <= sh.numRO :: WordCells(sh, b', m) == WordCells(sh, b, m)
    requires At(sh, b', n) == rec
    ensures Table(sh, b') == Table(sh, b)[n := rec] && Words(sh, b') == Words(sh, b)
  {
    hide GetFloat, SetFloat, DecodeTime, EncodeTime, DecodeQu, EncodeQu, DecodeInt, EncodeInt;
    forall m | 1 <= m <= sh.numIO && m != n ensures At(sh, b', m) == At(sh, b, m) {
      assert CellsOf(sh, b', m) == CellsOf(sh, b, m);
    }
    forall m | 1 <= m <= sh.numRO ensures WordAt(sh, b', m) == WordAt(sh, b, m) {
      assert WordCells(sh, b', m) == WordCells(sh, b, m);
    }
  }

  // Where the slave's accessors find the fields of a record.
  lemma FieldsOfRecord(sh: Shape, b: Block, n: nat)
    requires Fits(sh, b) && 1 <= n <= sh.numIO
    ensures At(sh, b, n).val == GetFloat(b.registers[4 * n - 4..4 * n - 2])
    ensures At(sh, b, n).forcedVal == GetFloat(b.registers[4 * n - 2..4 * n])
    ensures At(sh, b, n).forced == (b.bits[n - 1] >= 1)
    ensures n in Table(sh, b) && Table(sh, b)[n] == At(sh, b, n)
    ensures 4 * n <= |b.registers| && n <= |b.bits|
  {
    hide GetFloat, SetFloat, DecodeTime, EncodeTime, DecodeQu, EncodeQu, DecodeInt, EncodeInt;
    var vals := b.registers[4 * n - 4..4 * n];
    assert vals[..2] == b.registers[4 * n - 4..4 * n - 2] && vals[2..] == b.registers[4 * n - 2..4 * n];
  }

  // ---- each kind of cell reaches one field of one record

  function WithValue(b: Block, n: nat, f: Float32): Block
    requires 1 <= n && 4 * n <= |b.registers|
  {
    b.(registers := Splice(b.registers, 4 * n - 4, SetFloat(f)))
  }

  function WithForcedValue(b: Block, n: nat, f: Float32): Block
    requires 1 <= n && 4 * n <= |b.registers|
  {
    b.(registers := Splice(b.registers, 4 * n - 2, SetFloat(f)))
  }

  function WithForced(b: Block, n: nat, c: bv8): Block
    requires 1 <= n <= |b.bits|
  {
    b.(bits := b.bits[n - 1 := c])
  }

  function WithQuality(b: Block, n: nat, q: QuState): Block
    requires 1 <= n && 2 * n <= |b.inputBits|
  {
    b.(inputBits := Splice(b.inputBits, 2 * n - 2, EncodeQu(q)))
  }

  function WithTime(sh: Shape, b: Block, n: nat, t: bv64): Block
    requires 1 <= n && 2 * sh.numRO + 4 * n <= |b.inputRegisters|
  {
    b.(inputRegisters := Splice(b.inputRegisters, 2 * sh.numRO + 4 * n - 4, EncodeTime(sh.little, t)))
  }

  function WithWord(sh: Shape, b: Block, n: nat, w: bv32): Block
    requires 1 <= n && 2 * n <= |b.inputRegisters|
  {
    b.(inputRegisters := Splice(b.inputRegisters, 2 * n - 2, EncodeInt(sh.little, w)))
  }

  lemma SetsValue(sh: Shape, b: Block, n: nat, f: Float32)
    requires Fits(sh, b) && 1 <= n <= sh.numIO
    ensures var b' := WithValue(b, n, f);
      Fits(sh, b') && Table(sh, b') == Table(sh, b)[n := At(sh, b, n).(val := f)] && Words(sh, b') == Words(sh, b)
  {
    hide GetFloat, SetFloat, DecodeTime, EncodeTime, DecodeQu, EncodeQu, DecodeInt, EncodeInt;
    var b' := WithValue(b, n, f);
    FloatRoundTrip(f);
    assert CellsOf(sh, b', n).vals[..2] == SetFloat(f);
    assert CellsOf(sh, b', n).vals[2..] == CellsOf(sh, b, n).vals[2..];
    OneRecord(sh, b, b', n, At(sh, b, n).(val := f));
  }

  lemma SetsForcedValue(sh: Shape, b: Block, n: nat, f: Float32)
    requires Fits(sh, b) && 1 <= n <= sh.numIO
    ensures var b' := WithForcedValue(b, n, f);
      Fits(sh, b') && Table(sh, b') == Table(sh, b)[n := At(sh, b, n).(forcedVal := f)] && Words(sh, b') == Words(sh, b)
  {
    hide GetFloat, SetFloat, DecodeTime, EncodeTime, DecodeQu, EncodeQu, DecodeInt, EncodeInt;
    var b' := WithForcedValue(b, n, f);
    FloatRoundTrip(f);
    assert CellsOf(sh, b', n).vals[2..] == SetFloat(f);
    assert CellsOf(sh, b', n).vals[..2] == CellsOf(sh, b, n).vals[..2];
    OneRecord(sh, b, b', n, At(sh, b, n).(forcedVal := f));
  }

  lemma SetsForced(sh: Shape, b: Block, n: nat, c: bv8)
    requires Fits(sh, b) && 1 <= n <= sh.numIO
    ensures var b' := WithForced(b, n, c);
      && Fits(sh, b') && Table(sh, b') == Table(sh, b)[n := At(sh, b, n).(forced := c >= 1)]
      && Words(sh, b') == Words(sh, b)
  {
    hide GetFloat, SetFloat, DecodeTime, EncodeTime, DecodeQu, EncodeQu, DecodeInt, EncodeInt;
    OneRecord(sh, b, WithForced(b, n, c), n, At(sh, b, n).(forced := c >= 1));
  }

  lemma SetsQuality(sh: Shape, b: Block, n: nat, q: QuState)
    requires Fits(sh, b) && 1 <= n <= sh.numIO
    ensures var b' := WithQuality(b, n, q);
      Fits(sh, b') && Table(sh, b') == Table(sh, b)[n := At(sh, b, n).(q := q)] && Words(sh, b') == Words(sh, b)
  {
    hide GetFloat, SetFloat, DecodeTime, EncodeTime, DecodeQu, EncodeQu, DecodeInt, EncodeInt;
    var b' := WithQuality(b, n, q);
    QuRoundTrip(q);
    forall i | 0 <= i < |b'.inputBits| ensures b'.inputBits[i] <= 1 {
      if 2 * n - 2 <= i < 2 * n { assert b'.inputBits[i] == b'.inputBits[2 * n - 2..2 * n][i - (2 * n - 2)]; }
    }
    assert CellsOf(sh, b', n).qs == EncodeQu(q);
    OneRecord(sh, b, b', n, At(sh, b, n).(q := q));
  }

  lemma SetsTime(sh: Shape, b: Block, n: nat, t: bv64)
    requires Fits(sh, b) && 1 <= n <= sh.numIO
    ensures var b' := WithTime(sh, b, n, t);
      Fits(sh, b') && Table(sh, b') == Table(sh, b)[n := At(sh, b, n).(time := t)] && Words(sh, b') == Words(sh, b)
  {
    hide GetFloat, SetFloat, DecodeTime, EncodeTime, DecodeQu, EncodeQu, DecodeInt, EncodeInt;
    var b' := WithTime(sh, b, n, t);
    TimeRoundTrip(sh.little, t);
    assert CellsOf(sh, b', n).ts == EncodeTime(sh.little, t);
    OneRecord(sh, b, b', n, At(sh, b, n).(time := t));
  }

  lemma SetsWord(sh: Shape, b: Block, n: nat, w: bv32)
    requires Fits(sh, b) && 1 <= n <= sh.numRO
    ensures var b' := WithWord(sh, b, n, w);
      Fits(sh, b') && Table(sh, b') == Table(sh, b) && Words(sh, b') == Words(sh, b)[n := w]
  {
    hide GetFloat, SetFloat, DecodeTime, EncodeTime, DecodeQu, EncodeQu, DecodeInt, EncodeInt;
    var b' := WithWord(sh, b, n, w);
    IntRoundTrip(sh.little, sh.little, w);
    assert WordCells(sh, b', n) == EncodeInt(sh.little, w);
    assert WordAt(sh, b', n) == w;
    forall m | 1 <= m <= sh.numIO ensures At(sh, b', m) == At(sh, b, m) {
      assert CellsOf(sh, b', m) == CellsOf(sh, b, m);
    }
    forall m | 1 <= m <= sh.numRO && m != n ensures WordAt(sh, b', m) == WordAt(sh, b, m) {
      assert WordCells(sh, b', m) == WordCells(sh, b, m);
    }
  }

  function WithRegisters(b: Block, at: nat, f: Float32): Block
    requires at + 2 <= |b.registers|
  {
    b.(registers := Splice(b.registers, at, SetFloat(f)))
  }

  // Writing holding registers leaves all of a record but its two floats.
  lemma FloatsOnly(sh: Shape, b: Block, b': Block, n: nat)
    requires Fits(sh, b) && Fits(sh, b') && 1 <= n <= sh.numIO && b' == b.(registers := b'.registers)
    ensures At(sh, b', n) == At(sh, b, n).(val := GetFloat(b'.registers[4 * n - 4..4 * n - 2]),
                                           forcedVal := GetFloat(b'.registers[4 * n - 2..4 * n]))
  {
    hide GetFloat, DecodeTime, DecodeQu;
    FieldsOfRecord(sh, b', n);
    assert CellsOf(sh, b', n) == CellsOf(sh, b, n).(vals := CellsOf(sh, b', n).vals);
  }

  // The pair of registers at an even place, after two registers at an odd one have been written.
  function PairAcross(regs: seq<Register>, at: nat, f: Float32, from: nat): seq<Register>
    requires from + 2 <= |regs|
  {
    if from + 1 == at then [regs[from], SetFloat(f)[0]]
    else if from == at + 1 then [SetFloat(f)[1], regs[from + 1]]
    else regs[from..from + 2]
  }

  // What a record becomes: each float keeps the half that was not written.
  function RecAcross(regs: seq<Register>, at: nat, f: Float32, n: nat, rec: Rec): Rec
    requires 1 <= n && 4 * n <= |regs|
  {
    rec.(val := GetFloat(PairAcross(regs, at, f, 4 * n - 4)), forcedVal := GetFloat(PairAcross(regs, at, f, 4 * n - 2)))
  }

  lemma PairsAcross(b: Block, at: nat, f: Float32, from: nat)
    requires from != at && at + 2 <= |b.registers| && from + 2 <= |b.registers|
    ensures WithRegisters(b, at, f).registers[from..from + 2] == PairAcross(b.registers, at, f, from)
  {
    hide SetFloat;
    var r := WithRegisters(b, at, f).registers;
    assert r[at..at + 2] == SetFloat(f);
    assert r[at] == r[at..at + 2][0] && r[at + 1] == r[at..at + 2][1];
  }

  // Two registers written across two floats: each float keeps one half of its own, and nothing else
  // that is decoded changes.
  lemma SetsAcross(sh: Shape, b: Block, k: nat, f: Float32, n: nat)
    requires Fits(sh, b) && 2 * k + 3 <= |b.registers| && 1 <= n <= sh.numIO
    ensures var b' := WithRegisters(b, 2 * k + 1, f);
      && Fits(sh, b') && Words(sh, b') == Words(sh, b)
      && At(sh, b', n) == RecAcross(b.registers, 2 * k + 1, f, n, At(sh, b, n))
  {
    hide GetFloat, SetFloat, At, WordAt, Splice, Words;
    var b' := WithRegisters(b, 2 * k + 1, f);
    StillFits(sh, b, b');
    FloatsOnly(sh, b, b', n);
    FieldsOfRecord(sh, b, n);
    PairsAcross(b, 2 * k + 1, f, 4 * n - 4);
    PairsAcross(b, 2 * k + 1, f, 4 * n - 2);
  }

  lemma StaysElsewhere(sh: Shape, b: Block, k: nat, f: Float32, n: nat)
    requires Fits(sh, b) && 2 * k + 3 <= |b.registers| && 1 <= n <= sh.numIO
    requires 2 * k + 2 < 4 * n - 4 || 4 * n <= 2 * k + 1
    ensures RecAcross(b.registers, 2 * k + 1, f, n, At(sh, b, n)) == At(sh, b, n)
  {
    hide GetFloat, SetFloat, At;
    FieldsOfRecord(sh, b, n);
  }

  lemma StillFits(sh: Shape, b: Block, b': Block)
    requires Fits(sh, b) && b' == b.(registers := b'.registers) && |b'.registers| == |b.registers|
    ensures Fits(sh, b') && Words(sh, b') == Words(sh, b)
  {
    SameWords(sh, b, b');
  }

  lemma SameWords(sh: Shape, b: Block, b': Block)
    requires Fits(sh, b) && Fits(sh, b') && b' == b.(registers := b'.registers)
    ensures Words(sh, b') == Words(sh, b)
  {}

  // The three writes that publish a field variable amount to one update of its record.
  lemma Publishes(sh: Shape, b: Block, n: nat, f: Float32, q: QuState, t: bv64)
    requires Fits(sh, b) && 1 <= n <= sh.numIO
    ensures Fits(sh, WithValue(b, n, f)) && Fits(sh, WithQuality(WithValue(b, n, f), n, q))
    ensures var b' := WithTime(sh, WithQuality(WithValue(b, n, f), n, q), n, t);
      && Fits(sh, b')
      && Table(sh, b') == Table(sh, b)[n := Rec(f, At(sh, b, n).forcedVal, At(sh, b, n).forced, q, t)]
      && Words(sh, b') == Words(sh, b)
  {
    hide At, Words;
    var b1 := WithValue(b, n, f);
    SetsValue(sh, b, n, f);
    var b2 := WithQuality(b1, n, q);
    SetsQuality(sh, b1, n, q);
    SetsTime(sh, b2, n, t);
    assert Table(sh, b1)[n] == At(sh, b1, n) && Table(sh, b2)[n] == At(sh, b2, n);
  }

  // ---- what the slave answers to a request of the master, by address

  // libmodbus refuses a request that leaves the block.
  function ReadBlock<T>(s: seq<T>, start: int, addr: int, count: nat): Option<seq<T>> {
    if 0 <= addr - start && addr - start + count <= |s| then Some(s[addr - start..addr - start + count]) else None
  }

  // The four reads the master makes for a field variable, at the addresses it computes, return
  // exactly the cells of that variable's record.
  lemma MasterReadsRecord(sh: Shape, b: Block, channel: Byte)
    requires Fits(sh, b) && IsVariable(sh.numRO, sh.numIO, channel)
    ensures var ro := sh.numRO;
      var vals := ReadBlock(b.registers, HRADDRESS, ValueAddr(ro, channel), 4);
      var ts := ReadBlock(b.inputRegisters, IRADDRESS, TimeAddr(ro, channel), 4);
      var qs := ReadBlock(b.inputBits, DIADDRESS, QualityAddr(ro, channel), 2);
      var forced := ReadBlock(b.bits, COILADDRESS, ForcedAddr(ro, channel), 1);
      && vals.Some? && ts.Some? && qs.Some? && forced.Some?
      && Raw(vals.value, ts.value, qs.value, forced.value[0]) == CellsOf(sh, b, SlaveIndex(ro, channel))
  {
    IndexOfVariable(sh.numRO, sh.numIO, channel);
  }

  lemma MasterReadsWord(sh: Shape, b: Block, channel: Byte)
    requires Fits(sh, b) && 1 <= channel <= sh.numRO
    ensures ReadBlock(b.inputRegisters, IRADDRESS, IntAddr(channel), 2) == Some(WordCells(sh, b, channel))
  {}

  // A value (a Modbus variable) is read with two registers.
  lemma MasterReadsValue(sh: Shape, b: Block, channel: Byte)
    requires Fits(sh, b) && IsVariable(sh.numRO, sh.numIO, channel)
    ensures ReadBlock(b.registers, HRADDRESS, ValueAddr(sh.numRO, channel), 2)
      == Some(CellsOf(sh, b, SlaveIndex(sh.numRO, channel)).vals[..2])
  {
    IndexOfVariable(sh.numRO, sh.numIO, channel);
    var n := SlaveIndex(sh.numRO, channel);
    assert b.registers[4 * n - 4..4 * n][..2] == b.registers[4 * n - 4..4 * n - 2];
  }
}
