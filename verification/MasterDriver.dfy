// RegImage and ModbusMasterDrv, updated in place. Every method is a run of the write side and of
// the read side: the two transition systems say what it does to the whole state.
module MasterDriver {
  import opened CommonTypes
  import opened Codec
  import opened ModbusMap
  import opened MasterDecode
  import opened MasterRuns
  import opened SlaveBlocks
  import T = Transmission
  import W = WriteProtocol
  import R = ReadProtocol
  import V = ReadResults

  const DELAY_BETWEEN_READS := 10
  const DELAY_BETWEEN_WRITES := 20
  const MAX_COM_ERROR_TRYS := 3

  // What one turn of the driver's loop meets: the link, whether a connection can be made, the
  // system time and the loop's own clock.
  datatype World = World(link: T.Link, connects: bool, now: int, clock: int)

  ghost function WriteState(d: ModbusMasterDrv, i: RegImage): W.Hmi
    reads d, i
  {
    W.Hmi(d.state, d.connected, d.Words(), d.Vars(), d.pending,
          i.buttonWrites, i.buttonWritesToClean, i.uncompleted, i.log)
  }

  ghost function ReadState(d: ModbusMasterDrv, i: RegImage): R.Rd
    reads d, i
  {
    R.Rd(d.state, d.connected, d.Words(), d.Vars(), d.fieldOrder, d.fieldIt, d.fieldVars,
         d.modbusOrder, d.modbusIt, d.modbusVars, d.changed, i.batch, i.shown, i.shownIn, i.lastVarChanges,
         i.varsToUpdate, i.subs, i.delivered, i.complete, d.log)
  }

  lemma CoveredByAll(values: seq<IOAddr>, fields: seq<IOAddr>)
    ensures Covered(values, 0, R.FreshValues(values).Keys) && Covered(fields, 0, R.FreshFields(fields).Keys)
  {}

  // The first of the requests with the largest time-out.
  ghost predicate Head(p: seq<W.Req>, k: nat) {
    W.Top(p, k) && forall j | 0 <= j < k :: p[j].limit < p[k].limit
  }

  // What the link makes of a request.
  ghost predicate Goes(link: T.Link, numRO: nat, r: W.Req) {
    T.Reported(link, T.WriteParts(numRO, r.addr.channel, r.force, r.forcedVal, r.val))
  }

  // A turn of the write cycle, after expired requests have gone: none was left; or the head of the
  // queue, not expired, was acknowledged in time and taken off; or it stays and the link fails.
  ghost predicate WriteDone(link: T.Link, numRO: nat, now: int, sent: Option<W.Req>, ws: seq<W.Step>,
                            pending: seq<W.Req>, log: seq<W.Event>) {
    match sent
    case None => OnlyExpires(ws, now, false) && pending == []
    case Some(r) =>
      && !W.Due(r, now, false)
      && ws != [] && OnlyExpires(ws[..|ws| - 1], now, false)
      && if Goes(link, numRO, r) then ws[|ws| - 1].Ack? && log != [] && log[|log| - 1] == W.Succeeded(r)
         else ws[|ws| - 1] == W.Fault && exists k: nat :: Head(pending, k) && pending[k] == r
  }

  // The answer to a read is what the slave held: for a field variable, part by part when each part
  // was acknowledged.
  ghost predicate Truthful(link: T.Link, little: bool, numRO: nat, a: IOAddr, now: int, answer: R.Answer) {
    if answer.FieldAnswer? then
      exists raw ::
        RawOk(raw) && answer.rec == Decoded(little, raw) && T.Collected(link, T.FieldParts(numRO, a.channel), raw)
    else
      exists k, regs ::
        && |regs| == 2 && T.Brought(link, [ValuePart(numRO, a)], k, 0, T.Words(regs))
        && answer == ValueOf(little, numRO, a, regs, now)
  }

  // What the loop does with the link up.
  datatype Turn = Idles | EndsWrites | Sends | ReadsNext | Wraps

  // The one part by which a word or a value is read, and what it amounts to.
  function ValuePart(numRO: nat, a: IOAddr): T.Call {
    if 1 <= a.channel <= numRO then T.ReadInputRegisters(IntAddr(a.channel), 2)
    else T.ReadRegisters(ValueAddr(numRO, a.channel), 2)
  }

  function ValueOf(little: bool, numRO: nat, a: IOAddr, regs: seq<Register>, now: int): R.Answer
    requires |regs| == 2
  {
    if 1 <= a.channel <= numRO then R.WordAnswer(DecodeInt(little, regs), now) else R.ValueAnswer(GetFloat(regs), now)
  }

  // The iterator is in its table, and the table holds what it visits.
  ghost predicate Covered(order: seq<IOAddr>, it: nat, table: set<IOAddr>) {
    it <= |order| && forall a | a in order :: a in table
  }

  class ModbusMasterDrv {
    const little: bool
    var state: DrvState
    var connected: bool
    var numRO: nat
    var numIO: nat
    var pending: seq<W.Req>
    var fieldOrder: seq<IOAddr>
    var fieldIt: nat
    var fieldVars: map<IOAddr, R.FieldData>
    var modbusOrder: seq<IOAddr>
    var modbusIt: nat
    var modbusVars: map<IOAddr, R.ModbusData>
    var changed: set<IOAddr>
    var comErrors: nat
    var inWriteCycle: bool
    var inReadCycle: bool
    var millisToWriteCycle: int
    var millisToReadCycle: int
    var lastTimePoint: int
    ghost var log: seq<R.Event>

    // The sizes of the map count only once the driver is initialised.
    ghost function Words(): nat
      reads this
    {
      if state == UnInit then 0 else numRO
    }

    ghost function Vars(): nat
      reads this
    {
      if state == UnInit then 0 else numIO
    }

    ghost predicate Valid()
      reads this
    {
      && (state == UnInit ==> fieldOrder == [] && fieldVars == map[] && modbusOrder == [] && modbusVars == map[])
      && Covered(fieldOrder, fieldIt, fieldVars.Keys) && Covered(modbusOrder, modbusIt, modbusVars.Keys)
    }

    constructor (little: bool)
      ensures Valid() && this.little == little
      ensures state == UnInit && !connected && pending == [] && changed == {} && log == []
      ensures fieldOrder == modbusOrder == [] && fieldIt == modbusIt == 0 && fieldVars == map[] && modbusVars == map[]
    {
      this.little := little;
      state, connected, pending, changed, log := UnInit, false, [], {}, [];
      fieldOrder, fieldIt, fieldVars := [], 0, map[];
      modbusOrder, modbusIt, modbusVars := [], 0, map[];
      inWriteCycle, inReadCycle := false, false;
    }

    // ---- requests

    method Submit(i: RegImage, r: W.Req) returns (ok: bool)
      requires Valid()
      modifies this`pending, i`log
      ensures ok == W.Accepts(old(WriteState(this, i)), r.addr)
      ensures WriteState(this, i) == if ok then W.Push(old(WriteState(this, i)), r) else old(WriteState(this, i))
      ensures ReadState(this, i) == old(ReadState(this, i))
    {
      if r.addr.channel <= numRO || r.addr.channel > numIO + numRO { return false; }
      if state != Stopped && state != UnInit {
        pending := pending + [r];
        i.log := i.log + [W.Accepted(r)];
        return true;
      }
      return false;
    }

    method Write(i: RegImage, val: Float32, addr: IOAddr, limit: nat, owner: W.Owner, now: int) returns (ok: bool)
      requires Valid()
      modifies this`pending, i`log
      ensures ok == W.Accepts(old(WriteState(this, i)), addr)
      ensures WriteState(this, i) ==
        if ok then W.Push(old(WriteState(this, i)), W.Req(addr, false, false, val, limit, now, owner))
        else old(WriteState(this, i))
      ensures ReadState(this, i) == old(ReadState(this, i))
    {
      ok := Submit(i, W.Req(addr, false, false, val, limit, now, owner));
    }

    method Force(i: RegImage, val: Float32, addr: IOAddr, bit: bool, limit: nat, owner: W.Owner, now: int)
      returns (ok: bool)
      requires Valid()
      modifies this`pending, i`log
      ensures ok == W.Accepts(old(WriteState(this, i)), addr)
      ensures WriteState(this, i) ==
        if ok then W.Push(old(WriteState(this, i)), W.Req(addr, true, bit, val, limit, now, owner))
        else old(WriteState(this, i))
      ensures ReadState(this, i) == old(ReadState(this, i))
    {
      ok := Submit(i, W.Req(addr, true, bit, val, limit, now, owner));
    }

    // The request the priority queue hands out; ties are settled the same way every time.
    method TopRequest() returns (k: nat)
      requires pending != []
      ensures Head(pending, k)
      ensures k < |pending| && forall j | 0 <= j < |pending| :: pending[j].limit <= pending[k].limit
    {
      k := 0;
      for n := 1 to |pending|
        invariant k < n && forall j | 0 <= j < n :: pending[j].limit <= pending[k].limit
        invariant forall j | 0 <= j < k :: pending[j].limit < pending[k].limit
      {
        if pending[k].limit < pending[n].limit { k := n; }
      }
    }

    method CleanWriteRequests(i: RegImage, all: bool, now: int) returns (ghost steps: seq<W.Step>)
      modifies this`pending, i`buttonWrites, i`uncompleted, i`log
      ensures Writes(i.config, old(WriteState(this, i)), steps, WriteState(this, i)) && OnlyExpires(steps, now, all)
      ensures ReadState(this, i) == old(ReadState(this, i))
      ensures pending == []
        || (!all && exists k: nat :: Head(pending, k) && now - pending[k].stamp <= pending[k].limit)
    {
      hide Writes, W.OnTimeOut, W.Without, Covered;
      steps := [];
      Nothing(i.config, WriteState(this, i), i.TheScreens(), ReadState(this, i));
      while pending != []
        invariant Writes(i.config, old(WriteState(this, i)), steps, WriteState(this, i)) && OnlyExpires(steps, now, all)
        invariant ReadState(this, i) == old(ReadState(this, i))
        decreases |pending|
      {
        var k := TopRequest();
        var r := pending[k];
        if !(now - r.stamp > r.limit || all) { return; }
        ghost var s := WriteState(this, i);
        pending := W.Without(pending, k);
        i.log := i.log + [W.TimedOut(r, now, all)];
        i.DriverWriteTimeOut(this, r.addr);
        ExpiresAfter(i.config, old(WriteState(this, i)), steps, s, k, now, all);
        steps := steps + [W.Expire(k, now, all)];
      }
    }

    // ---- one write

    // Expired requests go first. The head of the queue is then taken off and reported as done
    // exactly when the link acknowledged all its parts in time; otherwise it stays.
    method ProcessNextWrite(i: RegImage, link: T.Link, now: int)
      returns (ok: bool, ghost steps: seq<W.Step>, ghost sent: Option<W.Req>)
      requires state == Running && connected
      modifies this`pending, i`buttonWrites, i`buttonWritesToClean, i`uncompleted, i`log
      ensures Writes(i.config, old(WriteState(this, i)), steps, WriteState(this, i))
      ensures ReadState(this, i) == old(ReadState(this, i))
      ensures ok == (sent.None? || Goes(link, numRO, sent.value))
      ensures WriteDone(link, numRO, now, sent, if ok then steps else steps + [W.Fault], pending, i.log)
    {
      hide Writes, W.OnSuccess, W.Without, Covered, OnlyExpires, T.Reported, T.Sent, T.WriteParts;
      steps := CleanWriteRequests(i, false, now);
      sent := None;
      if pending == [] { return true, steps, sent; }
      var k := TopRequest();
      var r := pending[k];
      var calls;
      ok, calls := T.SendWrite(link, numRO, r.addr.channel, r.force, r.forcedVal, r.val);
      sent := Some(r);
      if !ok {
        assert (steps + [W.Fault])[..|steps|] == steps;
        return;
      }
      ghost var s := WriteState(this, i);
      pending := W.Without(pending, k);
      i.log := i.log + [W.Succeeded(r)];
      if r.owner.Button? { i.DriverWriteSuccess(this, r.addr); }
      AckAfter(i.config, old(WriteState(this, i)), steps, s, k);
      assert (steps + [W.Ack(k)])[..|steps|] == steps;
      steps := steps + [W.Ack(k)];
    }

    // ---- one read

    // The four parts, decoded: what the slave held when each part was acknowledged.
    method ReadField(link: T.Link, a: IOAddr) returns (ok: bool, rec: Rec)
      requires T.BitInputs(link)
      ensures ok <==> T.Reported(link, T.FieldParts(numRO, a.channel))
      ensures ok ==> Truthful(link, little, numRO, a, 0, R.FieldAnswer(rec))
    {
      hide GetFloat, DecodeQu, DecodeTime, T.Collected, T.Reported;
      var raw, calls;
      ok, raw, calls := T.ReadFieldParts(link, numRO, a.channel);
      rec := Rec(0, 0, false, OK, 0);
      if ok {
        var q := GetQState(raw.qs);
        var time := GetTimeS(little, raw.ts);
        rec := Rec(GetFloat(raw.vals[..2]), GetFloat(raw.vals[2..]), raw.forced >= 1, q, time);
        assert rec == Decoded(little, raw);
      }
    }

    // Marks the change, if there is one, and stores the answer.
    method TakeField(ghost i: RegImage, a: IOAddr, rec: Rec)
      requires Valid() && fieldIt < |fieldOrder| && a == fieldOrder[fieldIt]
      modifies this`fieldVars, this`changed
      ensures R.Suits(old(ReadState(this, i)), R.FieldAnswer(rec))
      ensures ReadState(this, i) == R.Store(R.Mark(old(ReadState(this, i)), R.FieldAnswer(rec)), R.FieldAnswer(rec))
      ensures fieldVars
        == old(fieldVars)[a := R.FieldData(rec.time, rec.val, rec.forcedVal, rec.q, rec.forced, false)]
      ensures Valid() && WriteState(this, i) == old(WriteState(this, i))
    {
      hide R.Differ;
      assert a in fieldOrder;
      var d := fieldVars[a];
      if d.forceDetect || R.Differ(rec.val, d.trueVal) || R.Differ(d.forcedVal, rec.forcedVal)
         || rec.q != d.q || d.forced != rec.forced
      {
        changed := changed + {a};
        d := d.(forceDetect := false);
        fieldVars := fieldVars[a := d];
      }
      fieldVars := fieldVars[a := R.FieldData(rec.time, rec.val, rec.forcedVal, rec.q, rec.forced, d.forceDetect)];
    }

    method ReadValue(link: T.Link, a: IOAddr, now: int) returns (ok: bool, answer: R.Answer)
      ensures ok <==> T.Done(link, [ValuePart(numRO, a)], T.MAX_TRANSMISSION_TRYS) == 1
      ensures ok ==> !answer.FieldAnswer? && Truthful(link, little, numRO, a, now, answer)
      ensures answer.WordAnswer? ==> 1 <= a.channel <= numRO
      ensures answer.ValueAnswer? && ok ==> !(1 <= a.channel <= numRO)
    {
      hide GetFloat, DecodeInt, T.Done;
      var reply, calls;
      ok, reply, calls := T.ReadOnePart(link, ValuePart(numRO, a));
      answer := R.ValueAnswer(0, now);
      if ok {
        assert reply.Words? && |reply.regs| == 2;
        assert reply == T.Words(reply.regs);
        if 1 <= a.channel <= numRO {
          var word := GetInt(little, reply.regs);
          answer := R.WordAnswer(word, now);
        } else {
          answer := R.ValueAnswer(GetFloat(reply.regs), now);
        }
        assert answer == ValueOf(little, numRO, a, reply.regs, now);
      }
    }

    method TakeWord(ghost i: RegImage, a: IOAddr, answer: R.Answer)
      requires Valid() && state != UnInit && fieldIt == |fieldOrder| && modbusIt < |modbusOrder|
        && a == modbusOrder[modbusIt]
      requires answer.WordAnswer? && (1 <= a.channel <= numRO) == answer.WordAnswer?
      modifies this`modbusVars, this`changed
      ensures R.Suits(old(ReadState(this, i)), answer)
      ensures ReadState(this, i) == R.Store(R.Mark(old(ReadState(this, i)), answer), answer)
      ensures a in old(modbusVars)
      ensures modbusVars
        == old(modbusVars)[a := R.ModbusData(answer.now, old(modbusVars)[a].val, answer.word, OK, false)]
      ensures Valid() && WriteState(this, i) == old(WriteState(this, i))
    {
      hide R.Differ;
      assert a in modbusOrder;
      var d := modbusVars[a];
      if d.forceDetect || answer.word != d.word || d.q != OK {
        changed := changed + {a};
        d := d.(forceDetect := false);
        modbusVars := modbusVars[a := d];
      }
      assert !d.forceDetect && d.val == old(modbusVars)[a].val;
      modbusVars := modbusVars[a := d.(word := answer.word, time := answer.now, q := OK)];
    }

    method TakeFloat(ghost i: RegImage, a: IOAddr, answer: R.Answer)
      requires Valid() && state != UnInit && fieldIt == |fieldOrder| && modbusIt < |modbusOrder|
        && a == modbusOrder[modbusIt]
      requires answer.ValueAnswer? && (1 <= a.channel <= numRO) == answer.WordAnswer?
      modifies this`modbusVars, this`changed
      ensures R.Suits(old(ReadState(this, i)), answer)
      ensures ReadState(this, i) == R.Store(R.Mark(old(ReadState(this, i)), answer), answer)
      ensures a in old(modbusVars)
      ensures modbusVars
        == old(modbusVars)[a := R.ModbusData(answer.now, answer.val, old(modbusVars)[a].word, OK, false)]
      ensures Valid() && WriteState(this, i) == old(WriteState(this, i))
    {
      hide R.Differ;
      assert a in modbusOrder;
      var d := modbusVars[a];
      if d.forceDetect || R.Differ(d.val, answer.val) || d.q != OK {
        changed := changed + {a};
        d := d.(forceDetect := false);
        modbusVars := modbusVars[a := d];
      }
      assert !d.forceDetect && d.word == old(modbusVars)[a].word;
      modbusVars := modbusVars[a := d.(val := answer.val, time := answer.now, q := OK)];
    }

    // The link lets the next read of the cycle through.
    ghost predicate Readable(link: T.Link)
      requires fieldIt < |fieldOrder| || modbusIt < |modbusOrder|
      reads this`fieldIt, this`fieldOrder, this`modbusIt, this`modbusOrder, this`numRO
    {
      if fieldIt < |fieldOrder| then T.Reported(link, T.FieldParts(numRO, fieldOrder[fieldIt].channel))
      else T.Done(link, [ValuePart(numRO, modbusOrder[modbusIt])], T.MAX_TRANSMISSION_TRYS) == 1
    }

    method ReadNextField(ghost i: RegImage, link: T.Link, ghost now: int) returns (ok: bool, ghost answer: R.Answer)
      requires Valid() && fieldIt < |fieldOrder| && T.BitInputs(link)
      modifies this`fieldVars, this`changed, this`fieldIt, this`log
      ensures Valid() && WriteState(this, i) == old(WriteState(this, i)) && ok == old(Readable(link))
      ensures if ok then R.Suits(old(ReadState(this, i)), answer)
        && ReadState(this, i) == R.OnRead(old(ReadState(this, i)), answer)
              else ReadState(this, i) == old(ReadState(this, i))
      ensures ok ==> Truthful(link, little, numRO, old(fieldOrder[fieldIt]), now, answer)
    {
      hide R.Mark, R.Store, T.Reported, T.Done, T.Collected, Decoded;
      var rec;
      ok, rec := ReadField(link, fieldOrder[fieldIt]);
      answer := R.FieldAnswer(rec);
      if ok {
        TakeField(i, fieldOrder[fieldIt], rec);
        log := log + [R.GotRead(fieldOrder[fieldIt])];
        fieldIt := fieldIt + 1;
      }
    }

    method ReadNextValue(ghost i: RegImage, link: T.Link, now: int) returns (ok: bool, ghost answer: R.Answer)
      requires Valid() && state != UnInit && fieldIt == |fieldOrder| && modbusIt < |modbusOrder|
      modifies this`modbusVars, this`changed, this`modbusIt, this`log
      ensures Valid() && WriteState(this, i) == old(WriteState(this, i)) && ok == old(Readable(link))
      ensures if ok then R.Suits(old(ReadState(this, i)), answer)
        && ReadState(this, i) == R.OnRead(old(ReadState(this, i)), answer)
              else ReadState(this, i) == old(ReadState(this, i))
      ensures ok ==> Truthful(link, little, numRO, old(modbusOrder[modbusIt]), now, answer)
    {
      hide R.Mark, R.Store, T.Reported, T.Done, Truthful;
      var a := modbusOrder[modbusIt];
      var got;
      ok, got := ReadValue(link, a, now);
      answer := got;
      if ok {
        if got.WordAnswer? { TakeWord(i, a, got); } else { TakeFloat(i, a, got); }
        log := log + [R.GotRead(a)];
        modbusIt := modbusIt + 1;
      }
    }

    // One read of the cycle, or its end; the end of a cycle with variables counts as a failure.
    method ProcessNextRead(ghost i: RegImage, link: T.Link, now: int) returns (ok: bool, ghost answer: R.Answer)
      requires Valid() && state != UnInit && T.BitInputs(link)
      modifies this`fieldVars, this`modbusVars, this`changed, this`fieldIt, this`modbusIt, this`log,
               this`inReadCycle, this`millisToReadCycle
      ensures Valid() && WriteState(this, i) == old(WriteState(this, i))
      ensures old(R.Pending(ReadState(this, i))) ==>
        && ok == old(Readable(link))
        && if ok then R.Suits(old(ReadState(this, i)), answer)
           && ReadState(this, i) == R.OnRead(old(ReadState(this, i)), answer)
           else ReadState(this, i) == old(ReadState(this, i))
      ensures old(R.Pending(ReadState(this, i))) && ok ==>
        Truthful(link, little, numRO, old(R.NextAddr(ReadState(this, i))), now, answer)
      ensures !old(R.Pending(ReadState(this, i))) ==>
        && ok == old(fieldOrder == [] && modbusOrder == [])
        && ReadState(this, i) == R.OnWrap(old(ReadState(this, i))).(state := old(state))
        && !inReadCycle && millisToReadCycle == 10
      ensures old(R.Pending(ReadState(this, i))) ==>
        inReadCycle == old(inReadCycle) && millisToReadCycle == old(millisToReadCycle)
    {
      hide R.OnRead, Readable, Truthful;
      answer := R.ValueAnswer(0, 0);
      if fieldIt < |fieldOrder| {
        ok, answer := ReadNextField(i, link, now);
        if ok { return; }
      } else if modbusIt < |modbusOrder| {
        ok, answer := ReadNextValue(i, link, now);
        if ok { return; }
      }
      if fieldIt == |fieldOrder| && modbusIt == |modbusOrder| {
        inReadCycle := false;
        millisToReadCycle := DELAY_BETWEEN_READS;
        fieldIt, modbusIt := 0, 0;
        log := log + [R.Wrapped];
        if fieldOrder == [] && modbusOrder == [] { return true, answer; }
      }
      ok := false;
    }

    // ---- the connection and the life cycle

    method CreateConnection(ghost i: RegImage, connects: bool) returns (ok: bool)
      modifies this`connected, this`comErrors, this`log
      ensures ok == (old(connected) || connects) && connected == ok
      ensures log == if ok && !old(connected) then old(log) + [R.Linked] else old(log)
    {
      if !connected {
        if !connects { return false; }
        connected := true;
        comErrors := 0;
        log := log + [R.Linked];
      }
      return true;
    }

    method CloseConnection()
      modifies this`connected
      ensures !connected
    {
      if connected { connected := false; }
    }

    // The addresses that lie in the map, in the order the hash table will give them.
    static method Taken(vars: set<IOAddr>, low: nat, high: nat) returns (order: seq<IOAddr>)
      ensures R.OrderOf(order, set a | a in vars && low < a.channel <= high)
    {
      hide R.OrderOf;
      order := [];
      var rest := vars;
      ghost var done: set<IOAddr> := {};
      R.NoneTaken();
      assert (set a | a in done && low < a.channel <= high) == {};
      while rest != {}
        invariant done + rest == vars && done !! rest
        invariant R.OrderOf(order, set a | a in done && low < a.channel <= high)
        decreases |rest|
      {
        var addr :| addr in rest;
        rest := rest - {addr};
        ghost var taken := set a | a in done && low < a.channel <= high;
        done := done + {addr};
        if addr.channel <= low || addr.channel > high {
          assert (set a | a in done && low < a.channel <= high) == taken;
          continue;
        }
        R.OneMore(order, taken, addr);
        assert (set a | a in done && low < a.channel <= high) == taken + {addr};
        order := order + [addr];
      }
    }

    static method TakenOfBoth(ro: nat, io: nat, slaveVars: set<IOAddr>, physicalVars: set<IOAddr>)
      returns (values: seq<IOAddr>, fields: seq<IOAddr>)
      ensures R.OrderOf(values, R.ModbusAddrs(ro, io, slaveVars))
        && R.OrderOf(fields, R.FieldAddrs(ro, io, physicalVars))
    {
      hide R.OrderOf;
      values := Taken(slaveVars, 0, io + ro);
      fields := Taken(physicalVars, ro, io + ro);
      assert (set a | a in slaveVars && 0 < a.channel <= io + ro) == R.ModbusAddrs(ro, io, slaveVars);
      assert (set a | a in physicalVars && ro < a.channel <= io + ro) == R.FieldAddrs(ro, io, physicalVars);
    }

    // The map sizes come from the driver's file, if it can be read.
    method Init(file: Option<(nat, nat)>, slaveVars: set<IOAddr>, physicalVars: set<IOAddr>, opens: bool)
      returns (ok: bool, values: seq<IOAddr>, fields: seq<IOAddr>)
      requires Valid()
      modifies this`state, this`numRO, this`numIO, this`comErrors, this`log,
               this`fieldVars, this`fieldOrder, this`fieldIt, this`modbusVars, this`modbusOrder, this`modbusIt
      ensures Valid() && ok == (old(state) == UnInit && file.Some? && file.value.0 + file.value.1 >= 1 && opens)
      ensures ok ==>
        && state == Stopped && (numRO, numIO) == file.value
        && R.OrderOf(values, R.ModbusAddrs(numRO, numIO, slaveVars))
        && R.OrderOf(fields, R.FieldAddrs(numRO, numIO, physicalVars))
        && fieldOrder == fields && fieldIt == 0 && fieldVars == R.FreshFields(fields)
        && modbusOrder == values && modbusIt == 0 && modbusVars == R.FreshValues(values)
        && log == old(log) + [R.Configured(fields, values)]
      ensures !ok ==>
        && state == old(state) && (state != UnInit ==> numRO == old(numRO) && numIO == old(numIO)) && log == old(log)
        && fieldOrder == old(fieldOrder) && fieldIt == old(fieldIt) && fieldVars == old(fieldVars)
        && modbusOrder == old(modbusOrder) && modbusIt == old(modbusIt) && modbusVars == old(modbusVars)
    {
      hide R.OrderOf, R.ModbusAddrs, R.FieldAddrs, R.FreshFields, R.FreshValues, Covered;
      values, fields := [], [];
      if state != UnInit { return false, values, fields; }
      if file.None? { return false, values, fields; }
      numRO, numIO := file.value.0, file.value.1;
      if numIO + numRO < 1 { return false, values, fields; }
      values, fields := TakenOfBoth(numRO, numIO, slaveVars, physicalVars);
      if !opens { return false, values, fields; }
      CoveredByAll(values, fields);
      modbusVars, modbusOrder, modbusIt := R.FreshValues(values), values, 0;
      fieldVars, fieldOrder, fieldIt := R.FreshFields(fields), fields, 0;
      state := Stopped;
      comErrors := 0;
      log := log + [R.Configured(fields, values)];
      ok := true;
    }

    method Start(ghost i: RegImage, clock: int) returns (ok: bool)
      requires Valid()
      modifies this`state, this`lastTimePoint, this`millisToWriteCycle, this`millisToReadCycle
      ensures Valid() && ok == (old(state) != UnInit)
      ensures old(state) == Stopped ==>
        && WriteState(this, i) == old(WriteState(this, i)).(state := Running)
        && ReadState(this, i) == old(ReadState(this, i)).(state := Running)
      ensures old(state) != Stopped ==>
        WriteState(this, i) == old(WriteState(this, i)) && ReadState(this, i) == old(ReadState(this, i))
      ensures old(state) == Stopped ==>
        lastTimePoint == clock && millisToWriteCycle == 0 && millisToReadCycle == 0
      ensures old(state) != Stopped ==>
        && lastTimePoint == old(lastTimePoint)
        && millisToWriteCycle == old(millisToWriteCycle) && millisToReadCycle == old(millisToReadCycle)
    {
      if state == UnInit { return false; }
      if state == Stopped {
        state := Running;
        lastTimePoint := clock;
        millisToWriteCycle, millisToReadCycle := 0, 0;
      }
      return true;
    }

    // Stopping times out every pending request, closes the connection and keeps the read cycle
    // where it is.
    method Stop(i: RegImage, now: int) returns (ok: bool, ghost steps: seq<W.Step>)
      requires Valid()
      modifies this`state, this`connected, this`pending, this`comErrors, i`buttonWrites, i`uncompleted, i`log
      ensures Valid() && ok
      ensures old(state == UnInit || state == Stopped) ==>
        steps == [] && WriteState(this, i) == old(WriteState(this, i)) && ReadState(this, i) == old(ReadState(this, i))
      ensures !old(state == UnInit || state == Stopped) ==>
        && state == Stopped && !connected && pending == [] && OnlyExpires(steps, now, true)
        && Writes(i.config, old(WriteState(this, i)), steps + [W.Disconnect] + [W.Stop], WriteState(this, i))
        && Reads(i.TheScreens(), old(ReadState(this, i)), [R.Disconnect] + [R.Stop], ReadState(this, i))
    {
      hide Writes, Reads, Covered;
      steps := [];
      if state == UnInit { return true, steps; }
      if state == Stopped { return true, steps; }
      ghost var was, rd := WriteState(this, i), ReadState(this, i);
      steps := CleanWriteRequests(i, true, now);
      ghost var cleaned := WriteState(this, i);
      CloseConnection();
      state := Stopped;
      comErrors := 0;
      ok := true;
      StopRuns(i.config, was, steps, cleaned, i.TheScreens(), rd);
    }

    method Close(i: RegImage, now: int) returns (ok: bool, ghost steps: seq<W.Step>)
      requires Valid()
      modifies this`state, this`connected, this`pending, this`comErrors, this`numRO, this`numIO, this`log,
               this`fieldVars, this`fieldOrder, this`fieldIt, this`modbusVars, this`modbusOrder, this`modbusIt,
               i`buttonWrites, i`uncompleted, i`log
      ensures Valid() && ok
      ensures old(state) == UnInit ==>
        steps == [] && WriteState(this, i) == old(WriteState(this, i)) && ReadState(this, i) == old(ReadState(this, i))
      ensures old(state) != UnInit ==>
        && state == UnInit && !connected && pending == [] && OnlyExpires(steps, now, true)
        && fieldVars == map[] && fieldOrder == [] && modbusVars == map[] && modbusOrder == []
        && Writes(i.config, old(WriteState(this, i)), steps + [W.Disconnect] + [W.Close], WriteState(this, i))
        && Reads(i.TheScreens(), old(ReadState(this, i)), [R.Disconnect] + [R.Close], ReadState(this, i))
    {
      hide Writes, Reads, Covered;
      steps := [];
      if state == UnInit { return true, steps; }
      ghost var was, rd := WriteState(this, i), ReadState(this, i);
      state := UnInit;
      assert WriteState(this, i) == was.(state := UnInit, numRO := 0, numIO := 0);
      steps := CleanWriteRequests(i, true, now);
      ghost var cleaned := WriteState(this, i);
      CloseConnection();
      EraseDrvConfig();
      ok := true;
      CloseRuns(i.config, was, steps, cleaned, now, i.TheScreens(), rd);
    }

    method EraseDrvConfig()
      modifies this`comErrors, this`numRO, this`numIO, this`log,
               this`fieldVars, this`fieldOrder, this`fieldIt, this`modbusVars, this`modbusOrder, this`modbusIt
      ensures fieldVars == map[] && fieldOrder == [] && fieldIt == 0
      ensures modbusVars == map[] && modbusOrder == [] && modbusIt == 0
      ensures log == old(log) + [R.Configured([], [])]
      ensures Covered(fieldOrder, fieldIt, fieldVars.Keys) && Covered(modbusOrder, modbusIt, modbusVars.Keys)
    {
      fieldVars, fieldOrder, fieldIt := map[], [], 0;
      modbusVars, modbusOrder, modbusIt := map[], [], 0;
      numIO, numRO, comErrors := 0, 0, 0;
      log := log + [R.Configured([], [])];
    }

    // ---- the loop

    // How far the write and the read cycle are; tells whether either is under way.
    method Tick(clock: int) returns (idle: bool)
      modifies this`lastTimePoint, this`inWriteCycle, this`inReadCycle, this`millisToWriteCycle, this`millisToReadCycle
      ensures lastTimePoint == clock && idle == (!inWriteCycle && !inReadCycle)
      ensures inWriteCycle == (old(inWriteCycle) || old(millisToWriteCycle) <= clock - old(lastTimePoint))
      ensures inReadCycle == (old(inReadCycle) || old(millisToReadCycle) <= clock - old(lastTimePoint))
    {
      var elapsed := clock - lastTimePoint;
      lastTimePoint := clock;
      if !inWriteCycle {
        millisToWriteCycle := millisToWriteCycle - elapsed;
        if millisToWriteCycle <= 0 { inWriteCycle := true; }
      }
      if !inReadCycle {
        millisToReadCycle := millisToReadCycle - elapsed;
        if millisToReadCycle <= 0 { inReadCycle := true; }
      }
      idle := !inWriteCycle && !inReadCycle;
    }

    // A turn of the write cycle with nothing to write.
    method EndWriteCycle()
      modifies this`inWriteCycle, this`millisToWriteCycle
      ensures !inWriteCycle && millisToWriteCycle == 20
    {
      inWriteCycle := false;
      millisToWriteCycle := DELAY_BETWEEN_WRITES;
    }

    // A turn of the write cycle. A write that fails breaks the link off.
    method WriteTurn(i: RegImage, w: World)
      returns (ghost ws: seq<W.Step>, ghost rs: seq<R.Step>, ghost sent: Option<W.Req>)
      requires Valid() && state == Running && connected && pending != []
      modifies this`pending, this`state, i`buttonWrites, i`buttonWritesToClean, i`uncompleted, i`log
      ensures Valid()
      ensures Writes(i.config, old(WriteState(this, i)), ws, WriteState(this, i))
      ensures Reads(i.TheScreens(), old(ReadState(this, i)), rs, ReadState(this, i))
      ensures WriteDone(w.link, numRO, w.now, sent, ws, pending, i.log)
      ensures rs == if sent.Some? && !Goes(w.link, numRO, sent.value) then [R.Fault] else []
    {
      hide Writes, Reads, WriteDone, OnlyExpires, Covered, Goes;
      ghost var was, rd := WriteState(this, i), ReadState(this, i);
      Nothing(i.config, was, i.TheScreens(), rd);
      rs := [];
      var ok;
      ok, ws, sent := ProcessNextWrite(i, w.link, w.now);
      if !ok {
        ghost var s := WriteState(this, i);
        state := COMError;
        FailsAfter(i.config, was, ws, s);
        LinkFails(i.config, was, i.TheScreens(), rd);
        ws, rs := ws + [W.Fault], [R.Fault];
      }
    }

    // A turn of the read cycle: a read that fails breaks the link off, and so does the end of a
    // cycle with variables.
    method ReadTurn(i: RegImage, w: World) returns (ghost ws: seq<W.Step>, ghost rs: seq<R.Step>)
      requires Valid() && state == Running && connected && T.BitInputs(w.link)
      modifies this`fieldVars, this`modbusVars, this`changed, this`fieldIt, this`modbusIt, this`log,
               this`inReadCycle, this`millisToReadCycle, this`state
      ensures Valid()
      ensures Writes(i.config, old(WriteState(this, i)), ws, WriteState(this, i))
      ensures Reads(i.TheScreens(), old(ReadState(this, i)), rs, ReadState(this, i))
      ensures old(R.Pending(ReadState(this, i))) ==>
        if old(Readable(w.link)) then
          ws == [] && |rs| == 1 && rs[0].Read?
          && Truthful(w.link, little, numRO, old(R.NextAddr(ReadState(this, i))), w.now, rs[0].answer)
        else ws == [W.Fault] && rs == [R.Fault]
      ensures !old(R.Pending(ReadState(this, i))) ==>
        rs == [R.Wrap] && ws == if old(fieldOrder == [] && modbusOrder == []) then [] else [W.Fault]
    {
      hide Writes, Reads, R.OnRead, R.OnWrap, R.Suits, Readable, Covered, Truthful;
      ghost var was, rd := WriteState(this, i), ReadState(this, i);
      Nothing(i.config, was, i.TheScreens(), rd);
      ws := [];
      var ok;
      ghost var answer;
      ok, answer := ProcessNextRead(i, w.link, w.now);
      LinkFails(i.config, was, i.TheScreens(), rd);
      if !R.Pending(rd) {
        WrapRuns(i.TheScreens(), rd);
        rs := [R.Wrap];
      } else if ok {
        ReadRuns(i.TheScreens(), rd, answer);
        rs := [R.Read(answer)];
      } else {
        rs := [R.Fault];
      }
      if !ok {
        state := COMError;
        ws := [W.Fault];
      }
    }

    // The link cannot be made yet: requests expire.
    method WaitForLink(i: RegImage, now: int) returns (ghost ws: seq<W.Step>)
      modifies this`comErrors, this`pending, i`buttonWrites, i`uncompleted, i`log
      ensures Writes(i.config, old(WriteState(this, i)), ws, WriteState(this, i)) && OnlyExpires(ws, now, false)
      ensures ReadState(this, i) == old(ReadState(this, i))
    {
      hide Writes, OnlyExpires, Head;
      comErrors := comErrors + 1;
      if comErrors > MAX_COM_ERROR_TRYS { comErrors := MAX_COM_ERROR_TRYS; }
      ws := CleanWriteRequests(i, false, now);
    }

    // With the link broken off: the connection is closed, then made again; while it cannot be
    // made, requests only expire.
    method RecoverTurn(i: RegImage, w: World) returns (ghost ws: seq<W.Step>, ghost rs: seq<R.Step>)
      requires Valid() && state == COMError
      modifies this`state, this`connected, this`comErrors, this`log, this`pending, i`buttonWrites, i`uncompleted, i`log
      ensures Valid()
      ensures Writes(i.config, old(WriteState(this, i)), ws, WriteState(this, i))
      ensures Reads(i.TheScreens(), old(ReadState(this, i)), rs, ReadState(this, i))
      ensures if old(connected) then ws == [W.Disconnect] && rs == [R.Disconnect]
              else if w.connects then ws == [W.Connect] && rs == [R.Connect]
              else OnlyExpires(ws, w.now, false) && rs == []
    {
      hide Writes, Reads, OnlyExpires, Covered, Head, W.Due, W.Top;
      ghost var was, rd := WriteState(this, i), ReadState(this, i);
      Nothing(i.config, was, i.TheScreens(), rd);
      ws, rs := [], [];
      if !connected {
        var ok := CreateConnection(i, w.connects);
        if ok {
          state := Running;
          LinkMade(i.config, was, i.TheScreens(), rd);
          ws, rs := [W.Connect], [R.Connect];
        } else {
          ws := WaitForLink(i, w.now);
        }
      } else {
        CloseConnection();
        LinkClosed(i.config, was, i.TheScreens(), rd);
        ws, rs := [W.Disconnect], [R.Disconnect];
      }
    }

    method ConnectTurn(i: RegImage, w: World) returns (ghost ws: seq<W.Step>, ghost rs: seq<R.Step>)
      requires Valid() && state == Running && !connected
      modifies this`state, this`connected, this`comErrors, this`log
      ensures Valid()
      ensures Writes(i.config, old(WriteState(this, i)), ws, WriteState(this, i))
      ensures Reads(i.TheScreens(), old(ReadState(this, i)), rs, ReadState(this, i))
      ensures if w.connects then ws == [W.Connect] && rs == [R.Connect] else ws == [W.Fault] && rs == [R.Fault]
    {
      hide Writes, Reads, Covered;
      ghost var was, rd := WriteState(this, i), ReadState(this, i);
      var ok := CreateConnection(i, w.connects);
      if !ok {
        state := COMError;
        LinkFails(i.config, was, i.TheScreens(), rd);
        ws, rs := [W.Fault], [R.Fault];
      } else {
        LinkMade(i.config, was, i.TheScreens(), rd);
        ws, rs := [W.Connect], [R.Connect];
      }
    }

    // What the loop does next with the link up, in the order the source asks.
    ghost function NextTurn(clock: int): Turn
      reads this
    {
      if inWriteCycle || millisToWriteCycle <= clock - lastTimePoint then
        (if pending == [] then EndsWrites else Sends)
      else if inReadCycle || millisToReadCycle <= clock - lastTimePoint then
        (if fieldIt < |fieldOrder| || modbusIt < |modbusOrder| then ReadsNext else Wraps)
      else Idles
    }

    // What a turn with the link up amounts to.
    twostate predicate RunningDone(i: RegImage, w: World, ws: seq<W.Step>, rs: seq<R.Step>, new sent: Option<W.Req>)
      reads this, i
    {
      match old(NextTurn(w.clock))
      case EndsWrites => ws == [] && rs == [] && !inWriteCycle && millisToWriteCycle == DELAY_BETWEEN_WRITES
      case Sends =>
        && inWriteCycle && WriteDone(w.link, numRO, w.now, sent, ws, pending, i.log)
        && rs == if sent.Some? && !Goes(w.link, numRO, sent.value) then [R.Fault] else []
      case ReadsNext =>
        old(fieldIt < |fieldOrder| || modbusIt < |modbusOrder|) &&
        if old(Readable(w.link)) then
          ws == [] && |rs| == 1 && rs[0].Read?
          && Truthful(w.link, little, numRO, old(R.NextAddr(ReadState(this, i))), w.now, rs[0].answer)
        else ws == [W.Fault] && rs == [R.Fault]
      case Wraps => rs == [R.Wrap] && ws == if old(fieldOrder == [] && modbusOrder == []) then [] else [W.Fault]
      case _ => ws == [] && rs == []
    }

    // A turn with the link up. Writes go before reads.
    method RunningTurn(i: RegImage, w: World)
      returns (ghost ws: seq<W.Step>, ghost rs: seq<R.Step>, ghost sent: Option<W.Req>)
      requires Valid() && T.BitInputs(w.link) && state == Running && connected
      modifies this, i`buttonWrites, i`buttonWritesToClean, i`uncompleted, i`log
      ensures Valid()
      ensures Writes(i.config, old(WriteState(this, i)), ws, WriteState(this, i))
      ensures Reads(i.TheScreens(), old(ReadState(this, i)), rs, ReadState(this, i))
      ensures RunningDone(i, w, ws, rs, sent)
    {
      hide Writes, Reads, Covered, OnlyExpires, WriteDone, Truthful, Goes, Readable;
      Nothing(i.config, WriteState(this, i), i.TheScreens(), ReadState(this, i));
      ws, rs, sent := [], [], None;
      var idle := Tick(w.clock);
      if idle { return; }
      if inWriteCycle {
        if pending == [] {
          EndWriteCycle();
        } else {
          ws, rs, sent := WriteTurn(i, w);
        }
      } else {
        ws, rs := ReadTurn(i, w);
      }
    }

    // One turn of the loop is a run of both sides, and what it does is settled by the state, the
    // clock and the link. A driver that is stopped or closed does nothing.
    method DriverLoop(i: RegImage, w: World)
      returns (ghost ws: seq<W.Step>, ghost rs: seq<R.Step>, ghost sent: Option<W.Req>)
      requires Valid() && T.BitInputs(w.link)
      modifies this, i`buttonWrites, i`buttonWritesToClean, i`uncompleted, i`log
      ensures Valid()
      ensures Writes(i.config, old(WriteState(this, i)), ws, WriteState(this, i))
      ensures Reads(i.TheScreens(), old(ReadState(this, i)), rs, ReadState(this, i))
      ensures
        match old(state)
        case Stopped => ws == [] && rs == []
        case UnInit => ws == [] && rs == []
        case VarError => ws == [W.Fault] && rs == [R.Fault]
        case COMError =>
          if old(connected) then ws == [W.Disconnect] && rs == [R.Disconnect]
          else if w.connects then ws == [W.Connect] && rs == [R.Connect]
          else OnlyExpires(ws, w.now, false) && rs == []
        case Running =>
          if old(connected) then RunningDone(i, w, ws, rs, sent)
          else if w.connects then ws == [W.Connect] && rs == [R.Connect]
          else ws == [W.Fault] && rs == [R.Fault]
    {
      hide Writes, Reads, Covered, OnlyExpires, RunningDone;
      Nothing(i.config, WriteState(this, i), i.TheScreens(), ReadState(this, i));
      ws, rs, sent := [], [], None;
      match state
      case Stopped =>
      case UnInit =>
      case Running =>
        if !connected {
          ws, rs := ConnectTurn(i, w);
        } else {
          ws, rs, sent := RunningTurn(i, w);
        }
      case COMError =>
        ws, rs := RecoverTurn(i, w);
      case VarError =>
        LinkFails(i.config, WriteState(this, i), i.TheScreens(), ReadState(this, i));
        state := COMError;
        ws, rs := [W.Fault], [R.Fault];
    }

    method GetChangedVars() returns (changes: set<IOAddr>)
      modifies this`changed
      ensures changes == old(changed) && changed == {}
    {
      changes := changed;
      changed := {};
    }

    // What the image reads of the caches: a word, or a variable with the quality it may claim.
    method ReadWord(a: IOAddr) returns (ok: bool, val: bv32)
      ensures ok == (a in modbusVars) && (ok ==> val == modbusVars[a].word)
    {
      if a !in modbusVars { return false, 0; }
      return true, modbusVars[a].word;
    }

    method ReadImage(a: IOAddr) returns (ok: bool, view: R.Shown)
      ensures ok == (a in modbusVars || a in fieldVars)
      ensures a in modbusVars ==> view == R.Passed(state, R.ShownValue(modbusVars[a].val, modbusVars[a].q))
      ensures a !in modbusVars && a in fieldVars ==>
        var d := fieldVars[a];
        view == R.Passed(state, R.ShownField(d.trueVal, d.forcedVal, d.forced, d.q))
    {
      if a in modbusVars {
        var d := modbusVars[a];
        return true, R.ShownValue(d.val, if state == COMError then ComError else d.q);
      }
      if a in fieldVars {
        var d := fieldVars[a];
        return true, R.ShownField(d.trueVal, d.forcedVal, d.forced, if state == COMError then ComError else d.q);
      }
      return false, R.ShownWord(0);
    }
  }

  class RegImage {
    const config: W.Config
    const ioInts: nat
    const drv: ModbusMasterDrv
    var buttonWrites: map<IOAddr, bool>
    var buttonWritesToClean: map<IOAddr, bool>
    var uncompleted: seq<W.Token>
    var lastVarChanges: Option<set<IOAddr>>
    var varsToUpdate: nat
    ghost var log: seq<W.Event>
    ghost var batch: set<IOAddr>
    ghost var shown: map<IOAddr, R.Shown>
    ghost var shownIn: map<IOAddr, DrvState>
    ghost var subs: set<IOAddr>
    ghost var delivered: set<IOAddr>
    ghost var complete: nat

    constructor (config: W.Config, ioInts: nat, little: bool)
      ensures this.config == config && this.ioInts == ioInts && fresh(drv) && drv.Valid() && drv.little == little
      ensures WriteState(drv, this) == W.START && ReadState(drv, this) == R.START
    {
      this.config, this.ioInts := config, ioInts;
      drv := new ModbusMasterDrv(little);
      buttonWrites, buttonWritesToClean, uncompleted := map[], map[], [];
      lastVarChanges, varsToUpdate := None, 0;
      log, batch, shown, shownIn, subs, delivered, complete := [], {}, map[], map[], {}, {}, 0;
    }

    function TheScreens(): R.Screens {
      R.Screens(ioInts, config.vars.Keys)
    }

    // ---- call-backs of the requests

    method DriverWriteTimeOut(ghost d: ModbusMasterDrv, a: IOAddr)
      modifies `buttonWrites, `uncompleted, `log
      ensures WriteState(d, this) == W.OnTimeOut(config, old(WriteState(d, this)), a)
    {
      if a in config.vars {
        if a in buttonWrites {
          buttonWrites := buttonWrites - {a};
          log := log + [W.WriteError(a, config.vars[a])];
        } else if a in buttonWritesToClean {
          uncompleted := uncompleted + [W.Token(a, buttonWritesToClean[a])];
        } else {
          log := log + [W.WriteError(a, config.vars[a])];
        }
      }
    }

    method DriverWriteSuccess(ghost d: ModbusMasterDrv, a: IOAddr)
      modifies `buttonWrites, `buttonWritesToClean, `uncompleted
      ensures WriteState(d, this) == W.OnSuccess(old(WriteState(d, this)), a)
    {
      if a in buttonWrites {
        var previous := buttonWrites[a];
        buttonWrites := buttonWrites - {a};
        if a !in buttonWritesToClean { buttonWritesToClean := buttonWritesToClean[a := !previous]; }
        uncompleted := uncompleted + [W.Token(a, !previous)];
      } else {
        buttonWritesToClean := buttonWritesToClean - {a};
      }
    }

    // ---- operations of the screens

    method WriteVar(id: nat, val: Float32, now: int) returns (ok: bool)
      requires drv.Valid()
      modifies drv`pending, `log
      ensures WriteState(drv, this) == W.Apply(config, old(WriteState(drv, this)), W.WriteVar(id, val, now))
      ensures ReadState(drv, this) == old(ReadState(drv, this))
      ensures ok == (id in config.slaveVars && W.Accepts(old(WriteState(drv, this)), config.slaveVars[id]))
      ensures drv.pending == old(drv.pending)
        + if ok then [W.Req(config.slaveVars[id], false, false, val, 1000, now, W.Plain)] else []
    {
      if id !in config.slaveVars { return false; }
      ok := drv.Write(this, val, config.slaveVars[id], W.DEFAULT_WRITE_TIMEOUT, W.Plain, now);
    }

    method ForceVar(id: nat, val: Float32, bit: bool, now: int) returns (ok: bool)
      requires drv.Valid()
      modifies drv`pending, `log
      ensures WriteState(drv, this) == W.Apply(config, old(WriteState(drv, this)), W.ForceVar(id, val, bit, now))
      ensures ReadState(drv, this) == old(ReadState(drv, this))
      ensures ok == (id in config.fieldVars && W.Accepts(old(WriteState(drv, this)), config.fieldVars[id]))
      ensures drv.pending == old(drv.pending)
        + if ok then [W.Req(config.fieldVars[id], true, bit, val, 1000, now, W.Plain)] else []
    {
      if id !in config.fieldVars { return false; }
      ok := drv.Force(this, val, config.fieldVars[id], bit, W.DEFAULT_WRITE_TIMEOUT, W.Plain, now);
    }

    method WriteVarAsButton(id: nat, val: bool, now: int) returns (ok: bool)
      requires drv.Valid()
      modifies drv`pending, `buttonWrites, `log
      ensures WriteState(drv, this) == W.Apply(config, old(WriteState(drv, this)), W.Press(id, val, now))
      ensures ReadState(drv, this) == old(ReadState(drv, this))
      ensures ok == (id in config.slaveVars && config.slaveVars[id] !in old(buttonWrites)
                     && config.slaveVars[id] !in buttonWritesToClean
                     && W.Accepts(old(WriteState(drv, this)), config.slaveVars[id]))
      ensures ok ==> buttonWrites == old(buttonWrites)[config.slaveVars[id] := val]
      ensures drv.pending == old(drv.pending)
        + if ok then [W.Req(config.slaveVars[id], false, false, if val then 0x3F80_0000 else 0, 1000, now, W.Button)]
          else []
    {
      if id !in config.slaveVars { return false; }
      var a := config.slaveVars[id];
      if a !in buttonWritesToClean && a !in buttonWrites {
        buttonWrites := buttonWrites[a := val];
        ok := drv.Write(this, W.FloatOf(val), a, W.DEFAULT_WRITE_TIMEOUT, W.Button, now);
        if ok {
          log := log + [W.Pressed(W.Token(a, val))];
          return;
        }
        buttonWrites := buttonWrites - {a};
        assert buttonWrites == old(buttonWrites);
      }
      return false;
    }

    // The tokens waiting are written again, in their order, as long as the driver takes them.
    method ProcessUncompletedWrites(now: int) returns (ghost steps: seq<W.Step>)
      requires drv.Valid()
      modifies drv`pending, `uncompleted, `log
      ensures Writes(config, old(WriteState(drv, this)), steps, WriteState(drv, this))
      ensures (forall e | e in steps :: e.Pump?)
      ensures ReadState(drv, this) == old(ReadState(drv, this))
      ensures uncompleted == [] || !W.Accepts(WriteState(drv, this), uncompleted[0].addr)
    {
      hide Writes, W.Push, Covered;
      steps := [];
      Nothing(config, WriteState(drv, this), TheScreens(), ReadState(drv, this));
      while uncompleted != []
        invariant Writes(config, old(WriteState(drv, this)), steps, WriteState(drv, this))
        invariant forall e | e in steps :: e.Pump?
        invariant drv.Valid() && ReadState(drv, this) == old(ReadState(drv, this))
        decreases |uncompleted|
      {
        ghost var s := WriteState(drv, this);
        var t := uncompleted[0];
        var ok := drv.Write(this, W.FloatOf(t.val), t.addr, W.DEFAULT_WRITE_TIMEOUT, W.Button, now);
        if !ok { return; }
        uncompleted := uncompleted[1..];
        PumpAfter(config, old(WriteState(drv, this)), steps, s, now);
        steps := steps + [W.Pump(now)];
      }
    }

    method NewVarUpdated(a: IOAddr)
      modifies `lastVarChanges, `complete
      ensures ReadState(drv, this) == R.NewVarUpdated(old(ReadState(drv, this)), a)
    {
      if lastVarChanges.Some? {
        lastVarChanges := Some(lastVarChanges.value + {a});
        if |lastVarChanges.value| == varsToUpdate {
          complete := complete + 1;
          lastVarChanges := None;
        }
      }
    }

    // The image passes the address on: a word of the regulator, or a variable it knows.
    predicate Passes(a: IOAddr)
      reads drv
    {
      if 1 <= a.channel <= ioInts then a in drv.modbusVars
      else a in config.vars && (a in drv.modbusVars || a in drv.fieldVars)
    }

    // What the screens show of it is what the caches hold, the quality being that of a lost link
    // while the driver says so.
    ghost predicate OnScreen(a: IOAddr)
      reads this, drv
    {
      && a in shown && a in delivered
      && if 1 <= a.channel <= ioInts then
           a in drv.modbusVars && shown[a] == R.ShownWord(drv.modbusVars[a].word)
         else if a in drv.modbusVars then
           shown[a] == R.ShownValue(drv.modbusVars[a].val,
                                    if drv.state == COMError then ComError else drv.modbusVars[a].q)
         else
           a in drv.fieldVars &&
           shown[a] == R.ShownField(drv.fieldVars[a].trueVal, drv.fieldVars[a].forcedVal, drv.fieldVars[a].forced,
                                    if drv.state == COMError then ComError else drv.fieldVars[a].q)
    }

    // One address of the batch goes to the screens or is passed over.
    method PassOn(a: IOAddr)
      requires a in batch
      modifies `batch, `shown, `shownIn, `delivered, `lastVarChanges, `complete
      ensures ReadState(drv, this) == R.OnDeliver(TheScreens(), old(ReadState(drv, this)), a)
    {
      hide R.NewVarUpdated;
      batch := batch - {a};
      if ioInts > 0 && 1 <= a.channel <= ioInts {
        var ok, val := drv.ReadWord(a);
        if ok {
          shown, shownIn := shown[a := R.ShownWord(val)], shownIn[a := drv.state];
          delivered := delivered + {a};
          NewVarUpdated(a);
        }
      } else if a in config.vars {
        var ok, view := drv.ReadImage(a);
        if ok {
          shown, shownIn := shown[a := view], shownIn[a := drv.state];
          delivered := delivered + {a};
          NewVarUpdated(a);
        }
      }
    }

    // What the cache holds now is on the screens afterwards.
    method Deliver(a: IOAddr)
      requires a in batch
      modifies `batch, `shown, `shownIn, `delivered, `lastVarChanges, `complete
      ensures ReadState(drv, this) == R.OnDeliver(TheScreens(), old(ReadState(drv, this)), a)
      ensures Passes(a) ==> OnScreen(a)
      ensures delivered == old(delivered) + if Passes(a) then {a} else {}
      ensures shown == if Passes(a) then old(shown)[a := shown[a]] else old(shown)
    {
      hide R.OnDeliver;
      ghost var s := ReadState(drv, this);
      PassOn(a);
      V.DeliveryShows(TheScreens(), s, a);
    }

    // One more; those given before stay on the screens.
    method DeliverNext(ghost done: set<IOAddr>, a: IOAddr)
      requires a in batch && a !in done && forall b | b in done && Passes(b) :: OnScreen(b)
      modifies `batch, `shown, `shownIn, `delivered, `lastVarChanges, `complete
      ensures ReadState(drv, this) == R.OnDeliver(TheScreens(), old(ReadState(drv, this)), a)
      ensures forall b | (b in done || b == a) && Passes(b) :: OnScreen(b)
    {
      hide R.OnDeliver;
      Deliver(a);
    }

    // A poll and the delivery of every change it took.
    method TakeChanges() returns (ghost rs: seq<R.Step>)
      requires batch == {}
      modifies drv`changed, `batch, `shown, `shownIn, `delivered, `lastVarChanges, `complete
      ensures Reads(TheScreens(), old(ReadState(drv, this)), rs, ReadState(drv, this))
      ensures WriteState(drv, this) == old(WriteState(drv, this)) && (drv.Valid() <==> old(drv.Valid()))
      ensures batch == {} && drv.changed == {}
      ensures forall a | a in old(drv.changed) && Passes(a) :: OnScreen(a)
    {
      hide Reads, R.OnDeliver, Covered, OnScreen;
      ghost var scr, was := TheScreens(), ReadState(drv, this);
      PollRuns(scr, was);
      var changes := drv.GetChangedVars();
      batch := changes;
      rs := [R.Poll];
      while changes != {}
        invariant changes == batch && drv.changed == {}
        invariant WriteState(drv, this) == old(WriteState(drv, this))
        invariant Reads(scr, was, rs, ReadState(drv, this))
        invariant forall a | a in old(drv.changed) && a !in changes && Passes(a) :: OnScreen(a)
        decreases |changes|
      {
        var a :| a in changes;
        ghost var s := ReadState(drv, this);
        changes := changes - {a};
        DeliverNext(old(drv.changed) - changes - {a}, a);
        DeliverAfter(scr, was, rs, s, a);
        rs := rs + [R.Deliver(a)];
      }
    }

    // While the driver runs, an update writes the waiting releases and brings the screens up to
    // date with everything read so far.
    method UpdateImage(now: int) returns (ghost ws: seq<W.Step>, ghost rs: seq<R.Step>)
      requires drv.Valid() && batch == {}
      modifies drv`pending, drv`changed, `uncompleted, `log, `batch, `shown, `shownIn, `delivered, `lastVarChanges,
               `complete
      ensures drv.Valid() && batch == {}
      ensures Writes(config, old(WriteState(drv, this)), ws, WriteState(drv, this)) && forall e | e in ws :: e.Pump?
      ensures drv.state == Running ==> uncompleted == [] || !W.Accepts(WriteState(drv, this), uncompleted[0].addr)
      ensures Reads(TheScreens(), old(ReadState(drv, this)), rs, ReadState(drv, this))
      ensures old(drv.state) != Running ==> ws == [] && rs == []
      ensures drv.state == Running && old(V.Lossless(TheScreens(), ReadState(drv, this))) ==>
        forall a | V.Known(ReadState(drv, this), a) :: V.UpToDate(TheScreens(), ReadState(drv, this), a)
      ensures drv.state == Running ==> forall a | a in old(drv.changed) && Passes(a) :: OnScreen(a)
    {
      hide Writes, V.Known, V.UpToDate, Covered;
      ghost var scr, was := TheScreens(), ReadState(drv, this);
      Nothing(config, WriteState(drv, this), scr, was);
      ws, rs := [], [];
      if drv.state != Running { return; }
      ws := ProcessUncompletedWrites(now);
      rs := TakeChanges();
      if V.Lossless(scr, was) { V.NothingIsLost(scr, was, rs); }
    }

    method Start(clock: int) returns (ok: bool)
      requires drv.Valid()
      modifies drv`state, drv`lastTimePoint, drv`millisToWriteCycle, drv`millisToReadCycle
      ensures drv.Valid() && ok == (old(drv.state) != UnInit)
      ensures old(drv.state) == Stopped ==>
        && WriteState(drv, this) == old(WriteState(drv, this)).(state := Running)
        && ReadState(drv, this) == old(ReadState(drv, this)).(state := Running)
      ensures old(drv.state) != Stopped ==>
        WriteState(drv, this) == old(WriteState(drv, this)) && ReadState(drv, this) == old(ReadState(drv, this))
    {
      ok := drv.Start(this, clock);
    }

    method TrackUpdates(toUpdate: set<IOAddr>, physicalVars: set<IOAddr>)
      modifies `varsToUpdate, `lastVarChanges, `subs, `delivered, `complete
      ensures WriteState(drv, this) == old(WriteState(drv, this))
      ensures ReadState(drv, this) == old(ReadState(drv, this)).(
        seen := Some({}), target := |toUpdate| + |physicalVars|, complete := 0,
        subs := toUpdate + physicalVars, delivered := {})
    {
      varsToUpdate := |toUpdate| + |physicalVars|;
      lastVarChanges := Some({});
      subs, delivered, complete := toUpdate + physicalVars, {}, 0;
    }

    method Init(file: Option<(nat, nat)>, slaveVars: set<IOAddr>, physicalVars: set<IOAddr>, opens: bool)
      returns (ok: bool, ghost ws: seq<W.Step>, ghost rs: seq<R.Step>)
      requires drv.Valid()
      modifies drv, `varsToUpdate, `lastVarChanges, `subs, `delivered, `complete
      ensures drv.Valid() && ok == (old(drv.state) == UnInit && file.Some? && file.value.0 + file.value.1 >= 1 && opens)
      ensures Writes(config, old(WriteState(drv, this)), ws, WriteState(drv, this))
      ensures Reads(TheScreens(), old(ReadState(drv, this)), rs, ReadState(drv, this))
      ensures if ok then
          && ws == [W.Init(file.value.0, file.value.1)]
          && |rs| == 1 && rs[0].Open? && (rs[0].numRO, rs[0].numIO) == file.value
          && rs[0].slaveVars == slaveVars + WordAddrs() && rs[0].fieldVars == physicalVars
        else ws == [] && rs == []
      ensures ok ==> forall n: Byte | 1 <= n <= ioInts && n <= drv.numRO + drv.numIO ::
                IOAddr(0, 0, n, 0) in drv.modbusOrder
    {
      hide Writes, Reads, Covered, R.OrderOf, R.ModbusAddrs, R.FieldAddrs, R.FreshFields, R.FreshValues, WordAddrs;
      ghost var was, rd := WriteState(drv, this), ReadState(drv, this);
      Nothing(config, was, TheScreens(), rd);
      ws, rs := [], [];
      var toUpdate := slaveVars + WordAddrs();
      var values, fields;
      ok, values, fields := drv.Init(file, toUpdate, physicalVars, opens);
      if ok {
        TrackUpdates(toUpdate, physicalVars);
        OpenRuns(config, was, TheScreens(), rd, file.value.0, file.value.1, toUpdate, physicalVars, values, fields);
        WordsTaken(values, file.value.0, file.value.1, toUpdate);
        ws := [W.Init(file.value.0, file.value.1)];
        rs := [R.Open(file.value.0, file.value.1, toUpdate, physicalVars, values, fields)];
      }
    }

    lemma WordsTaken(values: seq<IOAddr>, numRO: nat, numIO: nat, toUpdate: set<IOAddr>)
      requires R.OrderOf(values, R.ModbusAddrs(numRO, numIO, toUpdate)) && WordAddrs() <= toUpdate
      ensures forall n: Byte | 1 <= n <= ioInts && n <= numRO + numIO :: IOAddr(0, 0, n, 0) in values
    {
      hide R.Distinct;
      forall n: Byte | 1 <= n <= ioInts && n <= numRO + numIO ensures IOAddr(0, 0, n, 0) in values {
        var a := IOAddr(0, 0, n, 0);
        assert a in WordAddrs();
        assert a in R.ModbusAddrs(numRO, numIO, toUpdate);
        assert a in set b | b in values;
      }
    }

    // The words of the regulator are read besides the variables.
    function WordAddrs(): set<IOAddr> {
      set n: Byte | 1 <= n <= ioInts :: IOAddr(0, 0, n, 0)
    }
  }
}
