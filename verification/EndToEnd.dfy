// Across the two programs: what a queued write does to the regulator's table whatever the link
// loses, and what the HMI's caches hold of what the regulator published.
module EndToEnd {
  import opened CommonTypes
  import opened Codec
  import opened ModbusMap
  import opened SlaveBlocks
  import opened SlaveRegisters
  import T = Transmission
  import R = ReadProtocol
  import M = MasterDriver
  import N = ReadAnswers

  // ------------------------------------------------------------ writes

  // What one request of the master does to the table of records.
  function Served(t: map<nat, Rec>, c: T.Call): map<nat, Rec> {
    match c
    case WriteBit(addr, status) =>
      var n := addr - COILADDRESS + 1;
      if n >= 0 && n in t then t[n := t[n].(forced := status)] else t
    case WriteRegisters(addr, words) =>
      var n := (addr - HRADDRESS) / HROFFSET + 1;
      if n < 0 || n !in t || |words| != 2 then t
      else if (addr - HRADDRESS) % HROFFSET == 0 then t[n := t[n].(val := GetFloat(words))]
      else t[n := t[n].(forcedVal := GetFloat(words))]
    case _ => t
  }

  // The table after the first k calls of a transmission, of which those in "reached" arrived.
  function ServedAll(t: map<nat, Rec>, calls: seq<T.Call>, reached: nat -> bool, k: nat): map<nat, Rec>
    requires k <= |calls|
  {
    if k == 0 then t
    else
      var before := ServedAll(t, calls, reached, k - 1);
      if reached(k - 1) then Served(before, calls[k - 1]) else before
  }

  ghost predicate Hit(calls: seq<T.Call>, reached: nat -> bool, k: nat, c: T.Call)
    requires k <= |calls|
  {
    exists i: nat :: i < k && reached(i) && calls[i] == c
  }

  // A record once the first part of a write has arrived (r0), and the second (r1).
  function Written(rec: Rec, force: bool, bit: bool, val: Float32, r0: bool, r1: bool): Rec {
    if !force then (if r0 then rec.(val := val) else rec)
    else rec.(forced := if r0 then bit else rec.forced, forcedVal := if bit && r1 then val else rec.forcedVal)
  }

  lemma ServesPart(t: map<nat, Rec>, numRO: nat, channel: Byte, force: bool, bit: bool, val: Float32, r0: bool,
                   r1: bool, c: T.Call)
    requires channel > numRO && (channel - numRO) as nat in t
    requires c in T.WriteParts(numRO, channel, force, bit, val)
    ensures var n: nat, parts := channel - numRO, T.WriteParts(numRO, channel, force, bit, val);
      Served(t[n := Written(t[n], force, bit, val, r0, r1)], c)
        == t[n := Written(t[n], force, bit, val, r0 || c == parts[0], r1 || c == parts[|parts| - 1])]
  {
    hide GetFloat, SetFloat;
    FloatRoundTrip(val);
  }

  // Whatever calls of a transmission arrive, in whatever number: only the record of the variable
  // changes, and only by the parts that arrived.
  lemma {:induction false} ServedIs(t: map<nat, Rec>, numRO: nat, channel: Byte, force: bool, bit: bool, val: Float32,
                                    calls: seq<T.Call>, reached: nat -> bool, k: nat)
    requires channel > numRO && (channel - numRO) as nat in t && k <= |calls|
    requires forall c | c in calls :: c in T.WriteParts(numRO, channel, force, bit, val)
    ensures var n: nat, parts := channel - numRO, T.WriteParts(numRO, channel, force, bit, val);
      var first, last := Hit(calls, reached, k, parts[0]), Hit(calls, reached, k, parts[|parts| - 1]);
      ServedAll(t, calls, reached, k) == t[n := Written(t[n], force, bit, val, first, last)]
  {
    hide Served, Written, T.WriteParts;
    var n: nat, parts := channel - numRO, T.WriteParts(numRO, channel, force, bit, val);
    if k == 0 {
      NoneWritten(t[n], force, bit, val);
      assert t[n := t[n]] == t;
    } else {
      ServedIs(t, numRO, channel, force, bit, val, calls, reached, k - 1);
      HitNext(calls, reached, k, parts[0]);
      HitNext(calls, reached, k, parts[|parts| - 1]);
      if reached(k - 1) {
        assert calls[k - 1] in calls;
        ServesPart(t, numRO, channel, force, bit, val, Hit(calls, reached, k - 1, parts[0]),
                   Hit(calls, reached, k - 1, parts[|parts| - 1]), calls[k - 1]);
      }
    }
  }

  lemma NoneWritten(rec: Rec, force: bool, bit: bool, val: Float32)
    ensures Written(rec, force, bit, val, false, false) == rec
  {}

  lemma HitNext(calls: seq<T.Call>, reached: nat -> bool, k: nat, c: T.Call)
    requires 0 < k <= |calls|
    ensures Hit(calls, reached, k, c) <==> Hit(calls, reached, k - 1, c) || (reached(k - 1) && calls[k - 1] == c)
  {}

  // An acknowledged part has arrived.
  lemma {:induction false} AcknowledgedArrived(link: T.Link, parts: seq<T.Call>, calls: seq<T.Call>,
                                               reached: nat -> bool, k: nat, j: nat)
    requires k <= |calls| && T.SentSoFar(link, parts, calls) && j < T.Done(link, parts, k)
    requires forall i: nat | i < |calls| && T.Answered(link, i, calls[i]) :: reached(i)
    ensures Hit(calls, reached, k, parts[j])
  {
    hide T.Answered;
    HitNext(calls, reached, k, parts[j]);
    if j < T.Done(link, parts, k - 1) {
      AcknowledgedArrived(link, parts, calls, reached, k - 1, j);
    }
  }

  // A part that was called for has had the parts before it acknowledged.
  lemma FirstArrives(link: T.Link, parts: seq<T.Call>, calls: seq<T.Call>, reached: nat -> bool)
    requires parts != [] && T.SentSoFar(link, parts, calls)
    requires forall i: nat | i < |calls| && T.Answered(link, i, calls[i]) :: reached(i)
    ensures Hit(calls, reached, |calls|, parts[|parts| - 1]) ==> Hit(calls, reached, |calls|, parts[0])
  {
    hide T.Answered, T.Done;
    if Hit(calls, reached, |calls|, parts[|parts| - 1]) {
      var i: nat :| i < |calls| && reached(i) && calls[i] == parts[|parts| - 1];
      if T.Done(link, parts, i) > 0 {
        AcknowledgedArrived(link, parts, calls, reached, i, 0);
      } else {
        assert calls[i] == parts[0];
      }
    }
  }

  // What a queued request does to the regulator's table, though some of its calls may have arrived
  // twice or their replies been lost: only its own record changes, in the fields whose part has
  // arrived; the forced value never arrives without its flag; and a request that the driver takes
  // for done is there, value and forcing and all.
  lemma WriteTakesEffect(t: map<nat, Rec>, link: T.Link, numRO: nat, channel: Byte, force: bool, bit: bool,
                         val: Float32, calls: seq<T.Call>, reached: nat -> bool)
    requires channel > numRO && (channel - numRO) as nat in t
    requires T.Sent(link, T.WriteParts(numRO, channel, force, bit, val), calls)
    requires forall i: nat | i < |calls| && T.Answered(link, i, calls[i]) :: reached(i)
    ensures var n: nat, parts := channel - numRO, T.WriteParts(numRO, channel, force, bit, val);
      var first, last := Hit(calls, reached, |calls|, parts[0]), Hit(calls, reached, |calls|, parts[|parts| - 1]);
      && ServedAll(t, calls, reached, |calls|) == t[n := Written(t[n], force, bit, val, first, last)]
      && (last ==> first)
      && (T.Reported(link, parts) ==> first && last)
  {
    hide Served, Written, T.WriteParts, T.Answered, T.Done;
    var parts := T.WriteParts(numRO, channel, force, bit, val);
    forall c | c in calls ensures c in parts {
      var i: nat :| i < |calls| && calls[i] == c;
      assert calls[i] == parts[T.Done(link, parts, i)];
    }
    ServedIs(t, numRO, channel, force, bit, val, calls, reached, |calls|);
    FirstArrives(link, parts, calls, reached);
    T.ReportedIff(link, parts, calls);
    if T.Reported(link, parts) {
      AcknowledgedArrived(link, parts, calls, reached, |calls|, 0);
      AcknowledgedArrived(link, parts, calls, reached, |calls|, |parts| - 1);
    }
  }

  // A variable that was not forced is left forced to its old forced value exactly when the flag of
  // the request has arrived and its value has not; and then the request is reported as failed.
  lemma HalfForcedIff(t: map<nat, Rec>, link: T.Link, numRO: nat, channel: Byte, val: Float32,
                      calls: seq<T.Call>, reached: nat -> bool)
    requires channel > numRO && (channel - numRO) as nat in t
    requires !t[(channel - numRO) as nat].forced && t[(channel - numRO) as nat].forcedVal != val
    requires T.Sent(link, T.WriteParts(numRO, channel, true, true, val), calls)
    requires forall i: nat | i < |calls| && T.Answered(link, i, calls[i]) :: reached(i)
    ensures var n: nat, parts := channel - numRO, T.WriteParts(numRO, channel, true, true, val);
      var t' := ServedAll(t, calls, reached, |calls|);
      && |parts| == 2 && n in t'
      && (t'[n].forced && t'[n].forcedVal == t[n].forcedVal
          <==> Hit(calls, reached, |calls|, parts[0]) && !Hit(calls, reached, |calls|, parts[1]))
      && (t'[n].forced && t'[n].forcedVal == t[n].forcedVal ==> !T.Reported(link, parts))
  {
    hide Served, ServedAll, Hit, T.Answered, T.Done, T.Sent, T.Reported;
    WriteTakesEffect(t, link, numRO, channel, true, true, val, calls, reached);
  }

  const FIRST_ONLY := T.Link(k => k == 0, _ => Block([], [], [], []))
  const ARRIVED_FIRST: nat -> bool := k => k == 0

  // A link that fails after the first call: the flag is set, the value is called for in vain three
  // times, and the variable stays forced to what was its forced value.
  lemma HalfForced(t: map<nat, Rec>, val: Float32)
    requires 1 in t && !t[1].forced && t[1].forcedVal != val
    ensures var parts := T.WriteParts(0, 1, true, true, val);
      var calls := [parts[0], parts[1], parts[1], parts[1]];
      var t' := ServedAll(t, calls, ARRIVED_FIRST, 4);
      && T.Sent(FIRST_ONLY, parts, calls) && !T.Reported(FIRST_ONLY, parts)
      && 1 in t' && t'[1].forced && t'[1].forcedVal == t[1].forcedVal
  {
    hide SetFloat;
    var parts := T.WriteParts(0, 1, true, true, val);
    var calls := [parts[0], parts[1], parts[1], parts[1]];
    assert T.Done(FIRST_ONLY, parts, 0) == 0 && T.Done(FIRST_ONLY, parts, 1) == 1;
    assert T.Done(FIRST_ONLY, parts, 2) == 1 && T.Done(FIRST_ONLY, parts, 3) == 1;
    HalfForcedIff(t, FIRST_ONLY, 0, 1, val, calls, ARRIVED_FIRST);
    assert ARRIVED_FIRST(0) && calls[0] == parts[0];
    assert Hit(calls, ARRIVED_FIRST, 4, parts[0]);
    assert !Hit(calls, ARRIVED_FIRST, 4, parts[1]);
  }

  lemma AddressesOfParts(numRO: nat, channel: Byte, force: bool, bit: bool, val: Float32, c: T.Call)
    requires channel > numRO && c in T.WriteParts(numRO, channel, force, bit, val)
    ensures var n: nat := channel - numRO;
      && (c.WriteBit? || c.WriteRegisters?)
      && (c.WriteBit? ==> c.addr - COILADDRESS + 1 == n)
      && (c.WriteRegisters? ==> |c.words| == 2 && (c.addr - HRADDRESS) / HROFFSET + 1 == n
                                && (c.addr - HRADDRESS == 4 * n - 4 || c.addr - HRADDRESS == 4 * n - 2))
  {
    hide SetFloat, GetFloat;
  }

  // The regulator's driver serves a write as the table says.
  method ServeWrite(slave: ModbusSlaveDrv, numRO: nat, channel: Byte, force: bool, bit: bool, val: Float32, c: T.Call)
    requires slave.Valid() && channel > numRO && (channel - numRO) as nat <= slave.numIO
    requires c in T.WriteParts(numRO, channel, force, bit, val)
    modifies slave.bits, slave.registers
    ensures slave.Valid() && slave.Records() == Served(old(slave.Records()), c)
      && slave.ROWords() == old(slave.ROWords())
  {
    hide SetFloat, GetFloat, Table, Words, T.WriteParts, At;
    ghost var n: nat := channel - numRO;
    AddressesOfParts(numRO, channel, force, bit, val, c);
    FieldsOfRecord(slave.TheShape(), slave.TheBlock(), n);
    var ok;
    if c.WriteBit? {
      ok := slave.ServeWriteBit(c.addr, c.status);
    } else {
      ok := slave.ServeWriteFloat(c.addr, GetFloat(c.words));
    }
  }

  method ServeCalls(slave: ModbusSlaveDrv, ghost link: T.Link, numRO: nat, channel: Byte, force: bool, bit: bool,
                    val: Float32,
                    calls: seq<T.Call>, reached: nat -> bool)
    requires slave.Valid() && channel > numRO && (channel - numRO) as nat <= slave.numIO
    requires T.Sent(link, T.WriteParts(numRO, channel, force, bit, val), calls)
    modifies slave.bits, slave.registers
    ensures slave.Valid() && slave.Records() == ServedAll(old(slave.Records()), calls, reached, |calls|)
    ensures slave.ROWords() == old(slave.ROWords())
  {
    hide Served, T.WriteParts, T.Sent, Table, Words;
    for k := 0 to |calls|
      invariant slave.Valid() && slave.Records() == ServedAll(old(slave.Records()), calls, reached, k)
      invariant slave.ROWords() == old(slave.ROWords())
    {
      PartSent(link, T.WriteParts(numRO, channel, force, bit, val), calls, k);
      if reached(k) { ServeWrite(slave, numRO, channel, force, bit, val, calls[k]); }
    }
  }

  // A force or an unforce that the HMI's driver takes for done is what the regulator's next scan
  // finds on the variable, whichever calls the link delivered besides the acknowledged ones.
  method ForceThenScan(slave: ModbusSlaveDrv, v: IOVar, link: T.Link, reached: nat -> bool, channel: Byte, bit: bool,
                       val: Float32)
    returns (done: bool)
    requires slave.Valid() && slave.state != UnInit && IsVariable(slave.numRO, slave.numIO, channel)
    requires v.id in slave.fieldVars && slave.fieldVars[v.id].channel == channel
    requires forall i: nat, c: T.Call :: T.Answered(link, i, c) ==> reached(i)
    modifies slave.bits, slave.registers, slave.inputBits, slave.inputRegisters, v
    ensures slave.Valid()
    ensures done <==> T.Reported(link, T.WriteParts(slave.numRO, channel, true, bit, val))
    ensures done ==> v.forced == bit && v.CurrentVal() == (if bit then val else old(v.trueVal))
    ensures done && bit ==> v.forcedVal == val && v.QState() == OK
  {
    hide Served, Written, T.WriteParts, T.Answered, T.Done, T.Reported, T.Sent, Table, Words, GetFloat;
    ghost var t := slave.Records();
    var numRO := slave.numRO;
    var calls;
    IndexOfVariable(numRO, slave.numIO, channel);
    FieldsOfRecord(slave.TheShape(), slave.TheBlock(), channel - numRO);
    done, calls := T.SendWrite(link, numRO, channel, true, bit, val);
    ServeCalls(slave, link, numRO, channel, true, bit, val, calls, reached);
    if done { ForceTakesEffect(t, link, numRO, channel, bit, val, calls, reached); }
    assert done ==> slave.Records()[(channel - numRO) as nat].forced == bit;
    var ok := slave.UpdateFieldVar(v);
  }

  lemma PartSent(link: T.Link, parts: seq<T.Call>, calls: seq<T.Call>, k: nat)
    requires T.Sent(link, parts, calls) && k < |calls|
    ensures calls[k] in parts
  {
    assert calls[k] == parts[T.Done(link, parts, k)];
  }

  lemma ForceTakesEffect(t: map<nat, Rec>, link: T.Link, numRO: nat, channel: Byte, bit: bool, val: Float32,
                         calls: seq<T.Call>, reached: nat -> bool)
    requires channel > numRO && (channel - numRO) as nat in t
    requires T.Sent(link, T.WriteParts(numRO, channel, true, bit, val), calls)
    requires T.Reported(link, T.WriteParts(numRO, channel, true, bit, val))
    requires forall i: nat, c: T.Call :: T.Answered(link, i, c) ==> reached(i)
    ensures var n: nat, t' := channel - numRO, ServedAll(t, calls, reached, |calls|);
      n in t' && t'[n].forced == bit && (bit ==> t'[n].forcedVal == val)
  {
    hide Served, T.WriteParts, T.Answered, T.Done, T.Sent, T.Reported;
    WriteTakesEffect(t, link, numRO, channel, true, bit, val, calls, reached);
  }

  // ------------------------------------------------------------ reads

  // What the regulator published of a field variable, with the forcing in force, is what a
  // successful read of the HMI caches.
  method PublishThenRead(slave: ModbusSlaveDrv, v: IOVar, drv: M.ModbusMasterDrv, ghost image: M.RegImage,
                         up: nat -> bool)
    returns (ok: bool)
    requires slave.Valid() && slave.state != UnInit
    requires drv.Valid() && drv.fieldIt < |drv.fieldOrder|
    requires var a := drv.fieldOrder[drv.fieldIt];
      && IsVariable(slave.numRO, slave.numIO, a.channel) && drv.numRO == slave.numRO && drv.little == slave.little
      && v.id in slave.fieldVars && slave.fieldVars[v.id].channel == a.channel
    modifies v, slave.registers, slave.inputBits, slave.inputRegisters, drv`fieldVars, drv`changed, drv`fieldIt, drv`log
    ensures ok ==>
      var a, n: nat := old(drv.fieldOrder[drv.fieldIt]), old(drv.fieldOrder[drv.fieldIt]).channel - slave.numRO;
      && a in drv.fieldVars
      && drv.fieldVars[a].trueVal == old(v.trueVal) && drv.fieldVars[a].time == old(v.time)
      && drv.fieldVars[a].q == (if drv.fieldVars[a].forced then OK else old(v.q))
      && drv.fieldVars[a].forced == v.forced && drv.fieldVars[a].forcedVal == v.forcedVal
      && n in old(slave.Records())
      && v.forced == old(slave.Records())[n].forced && v.forcedVal == old(slave.Records())[n].forcedVal
  {
    hide Table, Words;
    var a := drv.fieldOrder[drv.fieldIt];
    IndexOfVariable(slave.numRO, slave.numIO, a.channel);
    FieldsOfRecord(slave.TheShape(), slave.TheBlock(), a.channel - slave.numRO);
    var published := slave.UpdateFieldVar(v);
    ok := ReadFieldBack(slave, drv, image, a, up);
  }

  // A successful read of a record that stands still.
  method ReadFieldBack(slave: ModbusSlaveDrv, drv: M.ModbusMasterDrv, ghost image: M.RegImage, a: IOAddr,
                       up: nat -> bool)
    returns (ok: bool)
    requires slave.Valid() && drv.Valid() && drv.fieldIt < |drv.fieldOrder| && a == drv.fieldOrder[drv.fieldIt]
    requires IsVariable(slave.numRO, slave.numIO, a.channel) && drv.numRO == slave.numRO && drv.little == slave.little
    modifies drv`fieldVars, drv`changed, drv`fieldIt, drv`log
    ensures ok ==>
      var n: nat := a.channel - slave.numRO;
      && a in drv.fieldVars && n in slave.Records()
      && var rec := slave.Records()[n];
         drv.fieldVars[a] == R.FieldData(rec.time, rec.val, rec.forcedVal, rec.q, rec.forced, false)
  {
    hide Table, Words, Decoded, T.Collected, T.Reported, T.FieldParts;
    var b := slave.TheBlock();
    var link := T.Link(up, _ => b);
    IndexOfVariable(slave.numRO, slave.numIO, a.channel);
    var rec;
    ok, rec := drv.ReadField(link, a);
    if ok {
      Steady(slave.TheShape(), link, b, a.channel, rec);
      drv.TakeField(image, a, rec);
    }
  }

  lemma Steady(sh: Shape, link: T.Link, b: Block, channel: Byte, rec: Rec)
    requires Fits(sh, b) && IsVariable(sh.numRO, sh.numIO, channel) && forall k :: link.peer(k) == b
    requires exists raw ::
      RawOk(raw) && rec == Decoded(sh.little, raw) && T.Collected(link, T.FieldParts(sh.numRO, channel), raw)
    ensures SlaveIndex(sh.numRO, channel) in Table(sh, b) && Table(sh, b)[SlaveIndex(sh.numRO, channel)] == rec
  {
    hide Decoded, T.Collected, T.FieldParts;
    var raw :| RawOk(raw) && rec == Decoded(sh.little, raw) && T.Collected(link, T.FieldParts(sh.numRO, channel), raw);
    T.SteadySlave(sh, link, b, channel, raw);
    IndexOfVariable(sh.numRO, sh.numIO, channel);
  }

  // With a slave that stands still, the answer to a read is the value of the record, or the word.
  lemma SteadyValue(sh: Shape, link: T.Link, b: Block, a: IOAddr, now: int, answer: R.Answer)
    requires Fits(sh, b) && IsVariable(sh.numRO, sh.numIO, a.channel) && forall k :: link.peer(k) == b
    requires !answer.FieldAnswer? && M.Truthful(link, sh.little, sh.numRO, a, now, answer)
    ensures var n := SlaveIndex(sh.numRO, a.channel);
      n in Table(sh, b) && answer == R.ValueAnswer(Table(sh, b)[n].val, now)
  {
    hide GetFloat, T.Done;
    IndexOfVariable(sh.numRO, sh.numIO, a.channel);
    FieldsOfRecord(sh, b, a.channel - sh.numRO);
    MasterReadsValue(sh, b, a.channel);
  }

  lemma SteadyWord(sh: Shape, link: T.Link, b: Block, a: IOAddr, now: int, answer: R.Answer)
    requires Fits(sh, b) && 1 <= a.channel <= sh.numRO && forall k :: link.peer(k) == b
    requires !answer.FieldAnswer? && M.Truthful(link, sh.little, sh.numRO, a, now, answer)
    ensures a.channel as nat in Words(sh, b) && answer == R.WordAnswer(Words(sh, b)[a.channel as nat], now)
  {
    hide DecodeInt, T.Done;
    MasterReadsWord(sh, b, a.channel);
  }

  // A value the regulator wrote is what a successful read of the HMI caches.
  method WriteThenRead(slave: ModbusSlaveDrv, v: IOVar, drv: M.ModbusMasterDrv, ghost image: M.RegImage,
                       up: nat -> bool, now: int)
    returns (ok: bool)
    requires slave.Valid() && slave.state != UnInit
    requires drv.Valid() && drv.state != UnInit
    requires drv.fieldIt == |drv.fieldOrder| && drv.modbusIt < |drv.modbusOrder|
    requires drv.numRO == slave.numRO && drv.little == slave.little
    requires drv.modbusOrder[drv.modbusIt].channel == v.addr.channel
    requires IsVariable(slave.numRO, slave.numIO, v.addr.channel)
    modifies slave.registers, drv`modbusVars, drv`changed, drv`modbusIt, drv`log
    ensures ok ==>
      var a := old(drv.modbusOrder[drv.modbusIt]);
      && a in drv.modbusVars && drv.modbusVars[a].val == v.trueVal
      && drv.modbusVars[a].time == now && drv.modbusVars[a].q == OK
    ensures ok ==> forall b | b in old(drv.modbusVars) && b != old(drv.modbusOrder[drv.modbusIt]) ::
              b in drv.modbusVars && drv.modbusVars[b] == old(drv.modbusVars)[b]
  {
    hide Table, Words, R.OnRead, M.Truthful;
    var a := drv.modbusOrder[drv.modbusIt];
    IndexOfVariable(slave.numRO, slave.numIO, a.channel);
    FieldsOfRecord(slave.TheShape(), slave.TheBlock(), a.channel - slave.numRO);
    var written := slave.Write(v);
    var b := slave.TheBlock();
    var link := T.Link(up, _ => b);
    ghost var s := M.ReadState(drv, image);
    ghost var answer;
    ok, answer := drv.ReadNextValue(image, link, now);
    if ok {
      AnswerKind(s, answer);
      SteadyValue(slave.TheShape(), link, b, a, now, answer);
      N.AnswerIsCached(s, answer);
    }
  }

  lemma AnswerKind(s: R.Rd, answer: R.Answer)
    requires R.Suits(s, answer) && s.fieldIt == |s.fieldOrder|
    ensures !answer.FieldAnswer? && R.NextAddr(s) == s.modbusOrder[s.modbusIt] && R.NextAddr(s) in s.modbus
  {}

  // A word the regulator published is what a successful read of the HMI caches, and what the image
  // gives to the screens when it delivers it.
  method WordReachesTheScreens(slave: ModbusSlaveDrv, word: bv32, image: M.RegImage, up: nat -> bool, now: int)
    returns (ok: bool)
    requires slave.Valid() && slave.state != UnInit
    requires image.drv.Valid() && image.drv.state != UnInit
    requires image.drv.fieldIt == |image.drv.fieldOrder| && image.drv.modbusIt < |image.drv.modbusOrder|
    requires image.drv.numRO == slave.numRO && image.drv.little == slave.little
    requires var a := image.drv.modbusOrder[image.drv.modbusIt];
      && 1 <= a.channel <= slave.numRO && a.channel <= image.ioInts && a in image.batch
    modifies slave.inputRegisters, image.drv`modbusVars, image.drv`changed, image.drv`modbusIt, image.drv`log,
             image`batch, image`shown, image`shownIn, image`delivered, image`lastVarChanges, image`complete
    ensures ok ==>
      var a := old(image.drv.modbusOrder[image.drv.modbusIt]);
      && a in image.drv.modbusVars && image.drv.modbusVars[a].word == word
      && image.drv.modbusVars[a].time == now && image.drv.modbusVars[a].q == OK
      && a in image.shown && image.shown[a] == R.ShownWord(word) && a in image.delivered
  {
    hide Table, Words, R.OnRead, R.OnDeliver, M.Truthful;
    var drv := image.drv;
    var a := drv.modbusOrder[drv.modbusIt];
    var published := slave.WriteRO(word, a.channel);
    ok := ReadWordBack(slave, drv, image, a, up, now);
    if ok { image.Deliver(a); }
  }

  method ReadWordBack(slave: ModbusSlaveDrv, drv: M.ModbusMasterDrv, ghost image: M.RegImage, a: IOAddr,
                      up: nat -> bool, now: int)
    returns (ok: bool)
    requires slave.Valid() && drv.Valid() && drv.state != UnInit
    requires drv.fieldIt == |drv.fieldOrder| && drv.modbusIt < |drv.modbusOrder|
    requires drv.numRO == slave.numRO && drv.little == slave.little
    requires a == drv.modbusOrder[drv.modbusIt] && 1 <= a.channel <= slave.numRO
    modifies drv`modbusVars, drv`changed, drv`modbusIt, drv`log
    ensures ok ==>
      && a.channel as nat in slave.ROWords() && a in drv.modbusVars
      && drv.modbusVars[a].word == slave.ROWords()[a.channel as nat]
      && drv.modbusVars[a].time == now && drv.modbusVars[a].q == OK
  {
    hide Table, Words, R.OnRead, M.Truthful;
    var b := slave.TheBlock();
    var link := T.Link(up, _ => b);
    ghost var s := M.ReadState(drv, image);
    ghost var answer;
    ok, answer := drv.ReadNextValue(image, link, now);
    if ok {
      AnswerKind(s, answer);
      SteadyWord(slave.TheShape(), link, b, a, now, answer);
      N.AnswerIsCached(s, answer);
    }
  }
}
