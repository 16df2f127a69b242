// The byte loops by which the master takes words, time stamps and quality states out of registers.
module MasterDecode {
  import opened CommonTypes
  import opened Codec

  // The bytes of memory i places from the end (little) or from the start, as the loops move them.
  predicate Moved(little: bool, source: seq<bv8>, mem: seq<bv8>, i: nat)
    requires |mem| == |source| && i <= |source|
  {
    forall k | 0 <= k < i :: mem[if little then |source| - 1 - k else k] == source[k]
  }

  lemma AllMoved(little: bool, source: seq<bv8>, mem: seq<bv8>)
    requires |mem| == |source| && Moved(little, source, mem, |source|)
    ensures InMemory(little, mem) == source
  {
    forall k | 0 <= k < |source| ensures InMemory(little, mem)[k] == source[k] {}
  }

  method GetInt(little: bool, r: seq<Register>) returns (val: bv32)
    requires |r| == 2
    ensures val == DecodeInt(little, r)
  {
    hide Word32, Decode, InMemory;
    var pMap := Decode(little, r);
    var mem: seq<bv8> := [0, 0, 0, 0];
    var pVal: int := if little then 3 else 0;
    for i := 0 to 4
      invariant |mem| == 4 && pVal == (if little then 3 - i else i) && Moved(little, pMap, mem, i)
    {
      mem := mem[pVal := pMap[i]];
      pVal := if little then pVal - 1 else pVal + 1;
    }
    AllMoved(little, pMap, mem);
    val := Word32(InMemory(little, mem));
  }

  method GetTimeS(little: bool, r: seq<Register>) returns (val: bv64)
    requires |r| == 4
    ensures val == DecodeTime(little, r)
  {
    hide Word64, Decode, InMemory;
    var pMap := Decode(little, r);
    var mem: seq<bv8> := [0, 0, 0, 0, 0, 0, 0, 0];
    var pVal: int := if little then 7 else 0;
    for i := 0 to 8
      invariant |mem| == 8 && pVal == (if little then 7 - i else i) && Moved(little, pMap, mem, i)
    {
      mem := mem[pVal := pMap[i]];
      pVal := if little then pVal - 1 else pVal + 1;
    }
    AllMoved(little, pMap, mem);
    val := Word64(InMemory(little, mem));
  }

  method GetQState(di: seq<bv8>) returns (q: QuState)
    requires |di| == 2 && di[0] <= 1 && di[1] <= 1
    ensures q == DecodeQu(di)
  {
    var val: bv8 := 0;
    var offset: int := 1;
    for i := 0 to 2
      invariant offset == 1 - i
      invariant val == if i == 0 then 0 else if i == 1 then di[0] << 1 else (di[0] << 1) | di[1]
    {
      val := val | (di[i] << offset);
      offset := offset - 1;
    }
    q := QuOf(val);
  }
}
