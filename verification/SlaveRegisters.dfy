// The register map of ModbusSlaveDrv, updated in place: each accessor of the regulator, and each
// request of the master, is one update of the table of records.
module SlaveRegisters {
  import opened CommonTypes
  import opened Codec
  import opened ModbusMap
  import opened SlaveBlocks

  // The regulator's image of a variable (includes/CommonRegTypes.h).
  class IOVar {
    const id: nat
    const addr: IOAddr
    var trueVal: Float32
    var forcedVal: Float32
    var forced: bool
    var q: QuState
    var time: bv64

    constructor (id: nat, addr: IOAddr)
      ensures this.id == id && this.addr == addr && q == OK && !forced
    {
      this.id, this.addr := id, addr;
      q, forced := OK, false;
    }

    function CurrentVal(): Float32
      reads this
    {
      if forced then forcedVal else trueVal
    }

    function QState(): QuState
      reads this
    {
      if forced then OK else q
    }
  }

  class ModbusSlaveDrv {
    const little: bool
    var state: DrvState
    var numRO: nat
    var numIO: nat
    var fieldVars: map<nat, IOAddr>
    var bits: array<bv8>
    var inputBits: array<bv8>
    var registers: array<Register>
    var inputRegisters: array<Register>

    function TheShape(): Shape
      reads this
    {
      Shape(little, numRO, numIO)
    }

    function TheBlock(): Block
      reads this, bits, inputBits, registers, inputRegisters
    {
      Block(bits[..], inputBits[..], registers[..], inputRegisters[..])
    }

    ghost predicate Valid()
      reads this, bits, inputBits, registers, inputRegisters
    {
      bits != inputBits && registers != inputRegisters && Fits(TheShape(), TheBlock())
    }

    ghost function Records(): map<nat, Rec>
      requires Valid()
      reads this, bits, inputBits, registers, inputRegisters
    {
      Table(TheShape(), TheBlock())
    }

    ghost function ROWords(): map<nat, bv32>
      requires Valid()
      reads this, bits, inputBits, registers, inputRegisters
    {
      Words(TheShape(), TheBlock())
    }

    // A zeroed map, as libmodbus allocates it.
    constructor (little: bool, numRO: nat, numIO: nat, fieldVars: map<nat, IOAddr>)
      ensures Valid() && fresh(bits) && fresh(inputBits) && fresh(registers) && fresh(inputRegisters)
      ensures TheShape() == Shape(little, numRO, numIO) && this.fieldVars == fieldVars && state == Stopped
    {
      this.little, this.numRO, this.numIO, this.fieldVars := little, numRO, numIO, fieldVars;
      state := Stopped;
      bits := new bv8[numIO * COILOFFSET](_ => 0);
      inputBits := new bv8[numIO * DIOFFSET](_ => 0);
      registers := new Register[numIO * HROFFSET](_ => 0);
      inputRegisters := new Register[numIO * IROFFSET + numRO * 2](_ => 0);
    }

    // ---- the cells of one variable

    // modbus_set_float_abcd into two holding registers.
    method StoreFloat(at: nat, val: Float32)
      requires at + 2 <= registers.Length
      modifies registers
      ensures registers[..] == Splice(old(registers[..]), at, SetFloat(val))
    {
      hide SetFloat;
      var words := SetFloat(val);
      registers[at], registers[at + 1] := words[0], words[1];
    }

    method SetCurrentVal(val: Float32, n: nat)
      requires Valid() && 1 <= n <= numIO
      modifies registers
      ensures TheBlock() == WithValue(old(TheBlock()), n, val)
    {
      StoreFloat(n * HROFFSET - HROFFSET, val);
    }

    method SetQState(q: QuState, n: nat)
      requires Valid() && 1 <= n <= numIO
      modifies inputBits
      ensures TheBlock() == WithQuality(old(TheBlock()), n, q)
    {
      var at := n * DIOFFSET - DIOFFSET;
      var val := QuCode(q);
      var code := EncodeQu(q);
      var offset: int := DIOFFSET - 1;
      var mask: bv8 := 1 << offset;
      for i := 0 to DIOFFSET
        invariant offset == DIOFFSET - 1 - i
        invariant mask == if i == 0 then 2 else if i == 1 then 1 else 0
        invariant forall k | 0 <= k < i :: inputBits[at + k] == code[k]
        invariant forall k | 0 <= k < inputBits.Length && !(at <= k < at + i) :: inputBits[k] == old(inputBits[k])
      {
        inputBits[at + i] := (val & mask) >> offset;
        mask := mask >> 1;
        offset := offset - 1;
      }
      assert inputBits[..] == Splice(old(inputBits[..]), at, code);
    }

    // The first i bytes of b are in the registers from "at" on; the others are as they were.
    ghost predicate Poked(was: seq<Register>, at: nat, b: seq<bv8>, i: nat)
      requires |b| % 2 == 0 && i <= |b| && at + |b| / 2 <= inputRegisters.Length == |was|
      reads this, inputRegisters
    {
      && (forall k | 0 <= k < i / 2 :: inputRegisters[at + k] == RegisterOfMem(little, [b[2 * k], b[2 * k + 1]]))
      && (i % 2 == 1 ==> MemOfRegister(little, inputRegisters[at + i / 2])[0] == b[i - 1])
      && (forall k | 0 <= k < |was| && !(at <= k < at + (i + 1) / 2) :: inputRegisters[k] == was[k])
    }

    // Moves one byte of memory into a register, the step both byte loops share.
    method PokeNext(ghost was: seq<Register>, at: nat, ghost b: seq<bv8>, i: nat, byte: bv8)
      requires |b| % 2 == 0 && i < |b| && at + |b| / 2 <= inputRegisters.Length == |was|
      requires Poked(was, at, b, i) && byte == b[i]
      modifies inputRegisters
      ensures Poked(was, at, b, i + 1)
    {
      hide High, Low, Join, PokeRegister, RegisterOfMem, MemOfRegister;
      var k := at + i / 2;
      if i % 2 == 0 {
        PokeFirst(little, inputRegisters[k], byte);
      } else {
        PokeSecond(little, inputRegisters[k], b[i - 1], byte);
      }
      inputRegisters[k] := PokeRegister(little, inputRegisters[k], i % 2, byte);
    }

    // The registers once every byte has been poked.
    lemma AllPoked(was: seq<Register>, at: nat, b: seq<bv8>)
      requires |b| % 2 == 0 && at + |b| / 2 <= inputRegisters.Length == |was|
      requires Poked(was, at, b, |b|)
      ensures inputRegisters[..] == Splice(was, at, Encode(little, b))
    {
      hide MemOfRegister, RegisterOfMem, Encode;
      var code := Encode(little, b);
      forall k | 0 <= k < |code| ensures inputRegisters[at + k] == code[k] {
        EncodeAt(little, b, k);
      }
      forall k | 0 <= k < |was| ensures inputRegisters[k] == Splice(was, at, code)[k] {
        if at <= k < at + |code| {
          assert inputRegisters[at + (k - at)] == code[k - at];
          assert Splice(was, at, code)[at..at + |code|][k - at] == code[k - at];
        }
      }
    }

    method SetTimeS(time: bv64, n: nat)
      requires Valid() && 1 <= n <= numIO
      modifies inputRegisters
      ensures TheBlock() == WithTime(TheShape(), old(TheBlock()), n, time)
    {
      hide Bytes64, Encode, MemOfRegister, RegisterOfMem;
      var map0 := n * IROFFSET - IROFFSET + numRO * 2;
      var mem := InMemory(little, Bytes64(time));
      var pVal: int := if little then 7 else 0;
      for i := 0 to 8
        invariant pVal == if little then 7 - i else i
        invariant Poked(old(inputRegisters[..]), map0, Bytes64(time), i)
      {
        PokeNext(old(inputRegisters[..]), map0, Bytes64(time), i, mem[pVal]);
        pVal := if little then pVal - 1 else pVal + 1;
      }
      AllPoked(old(inputRegisters[..]), map0, Bytes64(time));
    }

    // ---- the regulator's accessors

    method WriteRO(val: bv32, channel: Byte) returns (ok: bool)
      requires Valid()
      modifies inputRegisters
      ensures Valid() && ok == (1 <= channel <= numRO && state != UnInit)
      ensures Records() == old(Records())
      ensures ROWords() == if ok then old(ROWords())[channel := val] else old(ROWords())
    {
      hide Bytes32, Encode, Table, Words, MemOfRegister, RegisterOfMem;
      if channel < 1 || channel > numRO || state == UnInit { return false; }
      var map0 := (channel - 1) * 2;
      var mem := InMemory(little, Bytes32(val));
      var pVal: int := if little then 3 else 0;
      for i := 0 to 4
        invariant pVal == if little then 3 - i else i
        invariant Poked(old(inputRegisters[..]), map0, Bytes32(val), i)
      {
        PokeNext(old(inputRegisters[..]), map0, Bytes32(val), i, mem[pVal]);
        pVal := if little then pVal - 1 else pVal + 1;
      }
      AllPoked(old(inputRegisters[..]), map0, Bytes32(val));
      SetsWord(TheShape(), old(TheBlock()), channel, val);
      return true;
    }

    method Read(v: IOVar, now: bv64) returns (ok: bool)
      requires Valid()
      modifies v
      ensures ok == (SlaveTakes(numRO, numIO, v.addr.channel) && state != UnInit)
      ensures ok ==> v.trueVal == old(Records())[SlaveIndex(numRO, v.addr.channel)].val && v.time == now
                     && v.q == (if state == COMError then ComError else OK)
      ensures v.forced == old(v.forced) && v.forcedVal == old(v.forcedVal)
      ensures !ok ==> v.trueVal == old(v.trueVal) && v.q == old(v.q) && v.time == old(v.time)
    {
      hide GetFloat, At, Words, Table, Fits;
      var n := SlaveIndex(numRO, v.addr.channel);
      if n < 1 || n > numIO || state == UnInit { return false; }
      FieldsOfRecord(TheShape(), TheBlock(), n);
      var val := GetFloat(registers[n * HROFFSET - HROFFSET..n * HROFFSET - HROFFSET + 2]);
      assert val == Records()[n].val;
      v.trueVal := val;
      v.q := if state == COMError then ComError else OK;
      v.time := now;
      return true;
    }

    method Write(v: IOVar) returns (ok: bool)
      requires Valid()
      modifies registers
      ensures Valid() && ok == (SlaveTakes(numRO, numIO, v.addr.channel) && state != UnInit)
      ensures ROWords() == old(ROWords())
      ensures var n := SlaveIndex(numRO, v.addr.channel);
        Records() == if ok then old(Records())[n := old(Records())[n].(val := v.trueVal)] else old(Records())
    {
      var n := SlaveIndex(numRO, v.addr.channel);
      if n < 1 || n > numIO || state == UnInit { return false; }
      hide Words, At;
      SetCurrentVal(v.trueVal, n);
      SetsValue(TheShape(), old(TheBlock()), n, v.trueVal);
      return true;
    }

    // Publishes a field variable and brings back the operator's forcing.
    method UpdateFieldVar(v: IOVar) returns (ok: bool)
      requires Valid()
      modifies v, registers, inputBits, inputRegisters
      ensures Valid()
      ensures ok == (v.id in fieldVars && SlaveTakes(numRO, numIO, fieldVars[v.id].channel) && state != UnInit)
      ensures ROWords() == old(ROWords())
      ensures !ok ==> Records() == old(Records()) && unchanged(v)
      ensures ok ==>
        var n := SlaveIndex(numRO, fieldVars[v.id].channel);
        var was := old(Records())[n];
        && v.forcedVal == was.forcedVal && v.forced == was.forced
        && v.trueVal == old(v.trueVal) && v.q == old(v.q) && v.time == old(v.time)
        && v.QState() == (if was.forced then OK else old(v.q))
        && Records() == old(Records())[n := Rec(v.trueVal, was.forcedVal, was.forced, v.QState(), v.time)]
    {
      hide Words, At, GetFloat, Table, Fits, WithValue, WithQuality, WithTime;
      if v.id !in fieldVars { return false; }
      var n := SlaveIndex(numRO, fieldVars[v.id].channel);
      if n < 1 || n > numIO || state == UnInit { return false; }
      var at := n * HROFFSET - HROFFSET + 2;
      FieldsOfRecord(TheShape(), TheBlock(), n);
      v.forcedVal := GetFloat(registers[at..at + 2]);
      v.forced := bits[n * COILOFFSET - COILOFFSET] >= 1;
      Publishes(TheShape(), TheBlock(), n, v.trueVal, v.QState(), v.time);
      SetCurrentVal(v.trueVal, n);
      SetQState(v.QState(), n);
      SetTimeS(v.time, n);
      return true;
    }

    // ---- the master's requests, served by address

    method ServeWriteBit(addr: int, status: bool) returns (ok: bool)
      requires Valid()
      modifies bits
      ensures Valid() && ok == (0 <= addr - COILADDRESS < bits.Length)
      ensures ROWords() == old(ROWords())
      ensures var n := addr - COILADDRESS + 1;
        Records() == if ok then old(Records())[n := old(Records())[n].(forced := status)] else old(Records())
    {
      var at := addr - COILADDRESS;
      if at < 0 || at >= bits.Length { return false; }
      bits[at] := if status then 1 else 0;
      hide Words, At;
      SetsForced(TheShape(), old(TheBlock()), at + 1, bits[at]);
      assert TheBlock() == WithForced(old(TheBlock()), at + 1, bits[at]);
      return true;
    }

    // Two holding registers by address. At the address of a value, or of a forced value, they are
    // that field of one record; at an odd place, halves of two fields.
    method ServeWriteFloat(addr: int, val: Float32) returns (ok: bool)
      requires Valid()
      modifies registers
      ensures Valid() && ok == (0 <= addr - HRADDRESS && addr - HRADDRESS + 2 <= registers.Length)
      ensures ROWords() == old(ROWords())
      ensures TheBlock() == if ok then WithRegisters(old(TheBlock()), addr - HRADDRESS, val) else old(TheBlock())
      ensures var n := (addr - HRADDRESS) / HROFFSET + 1;
        ok && (addr - HRADDRESS) % HROFFSET == 0 ==> Records() == old(Records())[n := old(Records())[n].(val := val)]
      ensures var n := (addr - HRADDRESS) / HROFFSET + 1;
        ok && (addr - HRADDRESS) % HROFFSET == 2 ==>
          Records() == old(Records())[n := old(Records())[n].(forcedVal := val)]
    {
      hide Words, At, Table, Splice;
      var at := addr - HRADDRESS;
      if at < 0 || at + 2 > registers.Length { return false; }
      StoreFloat(at, val);
      ghost var n := at / HROFFSET + 1;
      ghost var b := old(TheBlock());
      FieldsOfRecord(TheShape(), b, n);
      if at % HROFFSET == 0 {
        SetsValue(TheShape(), b, n, val);
        assert TheBlock() == WithValue(b, n, val);
      } else if at % HROFFSET == 2 {
        SetsForcedValue(TheShape(), b, n, val);
        assert TheBlock() == WithForcedValue(b, n, val);
      } else {
        assert TheBlock() == WithRegisters(b, at, val);
        StillFits(TheShape(), b, TheBlock());
      }
      return true;
    }
  }
}
