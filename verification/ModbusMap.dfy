// The register map both programs compute addresses into (the data model of section 4.3 and the
// addressing model of section 4.4 of the MODBUS Application Protocol Specification V1.1b).
module ModbusMap {
  import opened CommonTypes

  const COILADDRESS := 1
  const DIADDRESS := 10001
  const IRADDRESS := 30001
  const HRADDRESS := 40001
  const COILOFFSET := 1
  const DIOFFSET := 2
  const IROFFSET := 4
  const HROFFSET := 4

  // ---- the master's addresses, for the channel of a variable

  function ValueAddr(numRO: nat, channel: Byte): int {
    HRADDRESS + ((channel - numRO) * HROFFSET - HROFFSET)
  }

  function ForcedValueAddr(numRO: nat, channel: Byte): int {
    ValueAddr(numRO, channel) + 2
  }

  function TimeAddr(numRO: nat, channel: Byte): int {
    IRADDRESS + ((channel - numRO) * IROFFSET - IROFFSET) + numRO * 2
  }

  function QualityAddr(numRO: nat, channel: Byte): int {
    DIADDRESS + ((channel - numRO) * DIOFFSET - DIOFFSET)
  }

  function ForcedAddr(numRO: nat, channel: Byte): int {
    COILADDRESS + ((channel - numRO) * COILOFFSET - COILOFFSET)
  }

  function IntAddr(channel: Byte): int {
    IRADDRESS + (channel - 1) * 2
  }

  // ---- the slave's index, computed in eight bits

  function SlaveIndex(numRO: nat, channel: Byte): (n: nat)
    ensures n < 256
  {
    (channel - numRO) % 256
  }

  predicate SlaveTakes(numRO: nat, numIO: nat, channel: Byte) {
    1 <= SlaveIndex(numRO, channel) <= numIO
  }

  predicate IsVariable(numRO: nat, numIO: nat, channel: Byte) {
    numRO < channel <= numRO + numIO
  }

  // The eight-bit index is harmless exactly for the configurations that fit in 255 channels, have
  // no read-only words or have no variables: only then does the slave take the channels of its
  // variables and no other.
  lemma WrapIsHarmlessIff(numRO: nat, numIO: nat)
    ensures (forall c: Byte :: SlaveTakes(numRO, numIO, c) <==> IsVariable(numRO, numIO, c))
      <==> numRO + numIO <= 255 || numRO == 0 || numIO == 0
  {
    if numRO + numIO > 255 && numRO > 0 && numIO > 0 {
      var c: Byte := if numRO <= 255 then 0 else (numRO + 1) % 256;
      if numRO <= 255 {
        assert SlaveIndex(numRO, c) == 256 - numRO;
      } else {
        assert (c - numRO) % 256 == 1;
      }
      assert SlaveTakes(numRO, numIO, c) && !IsVariable(numRO, numIO, c);
    } else {
      forall c: Byte ensures SlaveTakes(numRO, numIO, c) <==> IsVariable(numRO, numIO, c) {
        if numIO > 0 && c >= numRO { assert (c - numRO) % 256 == c - numRO; }
        else if numIO > 0 { assert (c - numRO) % 256 == c - numRO + 256; }
      }
    }
  }

  // For a variable the wrapped index is the plain difference, and all the cells of its record
  // lie inside the blocks the slave allocates.
  lemma IndexOfVariable(numRO: nat, numIO: nat, channel: Byte)
    requires IsVariable(numRO, numIO, channel)
    ensures SlaveIndex(numRO, channel) == channel - numRO
    ensures SlaveTakes(numRO, numIO, channel)
  {}
}
