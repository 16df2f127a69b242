// Runs of the two transition systems, put together step by step.
module MasterRuns {
  import opened CommonTypes
  import W = WriteProtocol
  import R = ReadProtocol

  ghost predicate Writes(cfg: W.Config, s: W.Hmi, steps: seq<W.Step>, s': W.Hmi) {
    W.Feasible(cfg, s, steps) && W.Exec(cfg, s, steps) == s'
  }

  ghost predicate Reads(scr: R.Screens, s: R.Rd, steps: seq<R.Step>, s': R.Rd) {
    R.Feasible(scr, s, steps) && R.Exec(scr, s, steps) == s'
  }

  lemma {:induction false} WritesThen(cfg: W.Config, s: W.Hmi, steps: seq<W.Step>, s1: W.Hmi, e: W.Step)
    requires Writes(cfg, s, steps, s1) && W.Enabled(s1, e)
    ensures Writes(cfg, s, steps + [e], W.Apply(cfg, s1, e))
    decreases |steps|
  {
    hide W.Enabled, W.Apply;
    if steps == [] {
      assert W.Exec(cfg, W.Apply(cfg, s, e), []) == W.Apply(cfg, s, e);
      assert steps + [e] == [e] && [e][1..] == [];
    } else {
      WritesThen(cfg, W.Apply(cfg, s, steps[0]), steps[1..], s1, e);
      assert (steps + [e])[1..] == steps[1..] + [e];
    }
  }

  lemma {:induction false} ReadsThen(scr: R.Screens, s: R.Rd, steps: seq<R.Step>, s1: R.Rd, e: R.Step)
    requires Reads(scr, s, steps, s1) && R.Enabled(s1, e)
    ensures Reads(scr, s, steps + [e], R.Apply(scr, s1, e))
    decreases |steps|
  {
    hide R.Enabled, R.Apply;
    if steps == [] {
      assert R.Exec(scr, R.Apply(scr, s, e), []) == R.Apply(scr, s, e);
      assert steps + [e] == [e] && [e][1..] == [];
    } else {
      ReadsThen(scr, R.Apply(scr, s, steps[0]), steps[1..], s1, e);
      assert (steps + [e])[1..] == steps[1..] + [e];
    }
  }

  // Runs of the objects, one after the other, are runs.
  lemma {:induction false} WritesJoin(cfg: W.Config, s: W.Hmi, first: seq<W.Step>, mid: W.Hmi, next: seq<W.Step>,
                                      s': W.Hmi)
    requires Writes(cfg, s, first, mid) && Writes(cfg, mid, next, s')
    ensures Writes(cfg, s, first + next, s')
    decreases |first|
  {
    hide W.Enabled, W.Apply;
    if first == [] {
      assert first + next == next;
    } else {
      WritesJoin(cfg, W.Apply(cfg, s, first[0]), first[1..], mid, next, s');
      assert (first + next)[1..] == first[1..] + next;
    }
  }

  lemma {:induction false} ReadsJoin(scr: R.Screens, s: R.Rd, first: seq<R.Step>, mid: R.Rd, next: seq<R.Step>,
                                     s': R.Rd)
    requires Reads(scr, s, first, mid) && Reads(scr, mid, next, s')
    ensures Reads(scr, s, first + next, s')
    decreases |first|
  {
    hide R.Enabled, R.Apply;
    if first == [] {
      assert first + next == next;
    } else {
      ReadsJoin(scr, R.Apply(scr, s, first[0]), first[1..], mid, next, s');
      assert (first + next)[1..] == first[1..] + next;
    }
  }

  // A clean only times requests out, for one reason and at one time.
  predicate OnlyExpires(steps: seq<W.Step>, now: int, all: bool) {
    forall e | e in steps :: e.Expire? && e.now == now && e.all == all
  }

  // Time-outs neither look at the driver's state and map nor change them.
  lemma {:induction false} ExpiresIgnoreConfig(cfg: W.Config, s: W.Hmi, steps: seq<W.Step>, s': W.Hmi, now: int,
                                               all: bool)
    requires Writes(cfg, s.(state := UnInit, numRO := 0, numIO := 0), steps, s') && OnlyExpires(steps, now, all)
    ensures Writes(cfg, s, steps, s'.(state := s.state, numRO := s.numRO, numIO := s.numIO))
    ensures s'.state == UnInit && s'.numRO == 0 && s'.numIO == 0
    decreases |steps|
  {
    if steps != [] {
      var e := steps[0];
      assert e in steps;
      var erased := s.(state := UnInit, numRO := 0, numIO := 0);
      assert W.Apply(cfg, erased, e) == W.Apply(cfg, s, e).(state := UnInit, numRO := 0, numIO := 0);
      ExpiresIgnoreConfig(cfg, W.Apply(cfg, s, e), steps[1..], s', now, all);
    }
  }

  lemma OneWrite(cfg: W.Config, s: W.Hmi, e: W.Step)
    requires W.Enabled(s, e)
    ensures Writes(cfg, s, [e], W.Apply(cfg, s, e))
  {
    assert W.Exec(cfg, s, []) == s;
    WritesThen(cfg, s, [], s, e);
    assert [] + [e] == [e];
  }

  lemma OneRead(scr: R.Screens, s: R.Rd, e: R.Step)
    requires R.Enabled(s, e)
    ensures Reads(scr, s, [e], R.Apply(scr, s, e))
  {
    assert R.Exec(scr, s, []) == s;
    ReadsThen(scr, s, [], s, e);
    assert [] + [e] == [e];
  }

  lemma Nothing(cfg: W.Config, s: W.Hmi, scr: R.Screens, r: R.Rd)
    ensures Writes(cfg, s, [], s) && Reads(scr, r, [], r)
  {}

  // ---- single steps of both sides

  lemma LinkFails(cfg: W.Config, s: W.Hmi, scr: R.Screens, r: R.Rd)
    requires s.state == r.state && s.state != Stopped && s.state != UnInit
    ensures Writes(cfg, s, [W.Fault], s.(state := COMError)) && Reads(scr, r, [R.Fault], r.(state := COMError))
  {
    hide Writes, Reads;
    OneWrite(cfg, s, W.Fault);
    OneRead(scr, r, R.Fault);
  }

  lemma LinkMade(cfg: W.Config, s: W.Hmi, scr: R.Screens, r: R.Rd)
    requires s.state == r.state && (s.state == Running || s.state == COMError) && !r.connected
    ensures Writes(cfg, s, [W.Connect], s.(connected := true, state := Running))
    ensures Reads(scr, r, [R.Connect], r.(connected := true, state := Running, log := r.log + [R.Linked]))
  {
    hide Writes, Reads;
    OneWrite(cfg, s, W.Connect);
    OneRead(scr, r, R.Connect);
  }

  lemma LinkClosed(cfg: W.Config, s: W.Hmi, scr: R.Screens, r: R.Rd)
    ensures Writes(cfg, s, [W.Disconnect], s.(connected := false))
      && Reads(scr, r, [R.Disconnect], r.(connected := false))
  {
    hide Writes, Reads;
    OneWrite(cfg, s, W.Disconnect);
    OneRead(scr, r, R.Disconnect);
  }

  // A stop, and a close, once the clean has emptied the queue.
  lemma StopRuns(cfg: W.Config, was: W.Hmi, steps: seq<W.Step>, s: W.Hmi, scr: R.Screens, r: R.Rd)
    requires Writes(cfg, was, steps, s) && s.pending == [] && s.state != UnInit && r.state != UnInit
    ensures Writes(cfg, was, steps + [W.Disconnect] + [W.Stop], s.(connected := false, state := Stopped))
    ensures Reads(scr, r, [R.Disconnect] + [R.Stop], r.(connected := false, state := Stopped))
  {
    hide Writes, Reads;
    WritesThen(cfg, was, steps, s, W.Disconnect);
    WritesThen(cfg, was, steps + [W.Disconnect], s.(connected := false), W.Stop);
    LinkClosed(cfg, s, scr, r);
    ReadsThen(scr, r, [R.Disconnect], r.(connected := false), R.Stop);
  }

  function Erased(r: R.Rd): R.Rd {
    r.(connected := false, state := UnInit, numRO := 0, numIO := 0, fieldOrder := [], fieldIt := 0, field := map[],
       modbusOrder := [], modbusIt := 0, modbus := map[], log := r.log + [R.Configured([], [])])
  }

  lemma CloseRuns(cfg: W.Config, was: W.Hmi, steps: seq<W.Step>, s: W.Hmi, now: int, scr: R.Screens, r: R.Rd)
    requires Writes(cfg, was.(state := UnInit, numRO := 0, numIO := 0), steps, s) && OnlyExpires(steps, now, true)
    requires s.pending == [] && was.state != UnInit && r.state != UnInit
    ensures Writes(cfg, was, steps + [W.Disconnect] + [W.Close], s.(connected := false))
    ensures Reads(scr, r, [R.Disconnect] + [R.Close], Erased(r))
  {
    hide Writes, Reads, OnlyExpires;
    ExpiresIgnoreConfig(cfg, was, steps, s, now, true);
    var s1 := s.(state := was.state, numRO := was.numRO, numIO := was.numIO);
    WritesThen(cfg, was, steps, s1, W.Disconnect);
    WritesThen(cfg, was, steps + [W.Disconnect], s1.(connected := false), W.Close);
    LinkClosed(cfg, s, scr, r);
    ReadsThen(scr, r, [R.Disconnect], r.(connected := false), R.Close);
  }

  lemma FailsAfter(cfg: W.Config, was: W.Hmi, steps: seq<W.Step>, s: W.Hmi)
    requires Writes(cfg, was, steps, s) && s.state != Stopped && s.state != UnInit
    ensures Writes(cfg, was, steps + [W.Fault], s.(state := COMError))
  {
    hide Writes;
    WritesThen(cfg, was, steps, s, W.Fault);
  }

  lemma ExpiresAfter(cfg: W.Config, was: W.Hmi, steps: seq<W.Step>, s: W.Hmi, k: nat, now: int, all: bool)
    requires Writes(cfg, was, steps, s) && W.Top(s.pending, k) && W.Due(s.pending[k], now, all)
    ensures var r := s.pending[k];
      var s1 := s.(pending := W.Without(s.pending, k), log := s.log + [W.TimedOut(r, now, all)]);
      Writes(cfg, was, steps + [W.Expire(k, now, all)], W.OnTimeOut(cfg, s1, r.addr))
  {
    hide Writes, W.OnTimeOut, W.Without;
    WritesThen(cfg, was, steps, s, W.Expire(k, now, all));
  }

  lemma AckAfter(cfg: W.Config, was: W.Hmi, steps: seq<W.Step>, s: W.Hmi, k: nat)
    requires Writes(cfg, was, steps, s) && W.Top(s.pending, k) && s.connected && s.state == Running
    ensures var r := s.pending[k];
      var s1 := s.(pending := W.Without(s.pending, k), log := s.log + [W.Succeeded(r)]);
      Writes(cfg, was, steps + [W.Ack(k)], if r.owner.Button? then W.OnSuccess(s1, r.addr) else s1)
  {
    hide Writes, W.OnSuccess, W.Without;
    WritesThen(cfg, was, steps, s, W.Ack(k));
  }

  lemma PumpAfter(cfg: W.Config, was: W.Hmi, steps: seq<W.Step>, s: W.Hmi, now: int)
    requires Writes(cfg, was, steps, s) && s.retry != [] && W.Accepts(s, s.retry[0].addr)
    ensures Writes(cfg, was, steps + [W.Pump(now)], W.Push(s, W.ButtonReq(s.retry[0], now)).(retry := s.retry[1..]))
  {
    hide Writes, W.Push, W.ButtonReq;
    WritesThen(cfg, was, steps, s, W.Pump(now));
  }

  lemma ReadRuns(scr: R.Screens, r: R.Rd, answer: R.Answer)
    requires r.state == Running && r.connected && R.Suits(r, answer)
    ensures Reads(scr, r, [R.Read(answer)], R.OnRead(r, answer))
  {
    hide Reads, R.OnRead;
    OneRead(scr, r, R.Read(answer));
  }

  lemma WrapRuns(scr: R.Screens, r: R.Rd)
    requires r.state == Running && r.connected && !R.Pending(r)
    ensures Reads(scr, r, [R.Wrap], R.OnWrap(r))
    ensures R.OnWrap(r).state == if r.fieldOrder == [] && r.modbusOrder == [] then r.state else COMError
  {
    hide Reads;
    OneRead(scr, r, R.Wrap);
  }

  lemma PollRuns(scr: R.Screens, r: R.Rd)
    requires r.batch == {}
    ensures Reads(scr, r, [R.Poll], r.(batch := r.changed, changed := {}))
  {
    hide Reads;
    OneRead(scr, r, R.Poll);
  }

  lemma DeliverAfter(scr: R.Screens, was: R.Rd, steps: seq<R.Step>, r: R.Rd, a: IOAddr)
    requires Reads(scr, was, steps, r) && a in r.batch
    ensures Reads(scr, was, steps + [R.Deliver(a)], R.OnDeliver(scr, r, a))
  {
    hide Reads, R.OnDeliver;
    ReadsThen(scr, was, steps, r, R.Deliver(a));
  }

  function Opened(r: R.Rd, numRO: nat, numIO: nat, slaveVars: set<IOAddr>, fieldVars: set<IOAddr>,
                  values: seq<IOAddr>, fields: seq<IOAddr>): R.Rd
  {
    r.(state := Stopped, numRO := numRO, numIO := numIO,
       fieldOrder := fields, fieldIt := 0, field := R.FreshFields(fields),
       modbusOrder := values, modbusIt := 0, modbus := R.FreshValues(values),
       seen := Some({}), target := |slaveVars| + |fieldVars|, complete := 0,
       subs := slaveVars + fieldVars, delivered := {}, log := r.log + [R.Configured(fields, values)])
  }

  lemma OpenRuns(cfg: W.Config, s: W.Hmi, scr: R.Screens, r: R.Rd, numRO: nat, numIO: nat,
                 slaveVars: set<IOAddr>, fieldVars: set<IOAddr>, values: seq<IOAddr>, fields: seq<IOAddr>)
    requires s.state == UnInit && r.state == UnInit && numRO + numIO >= 1
    requires R.OrderOf(values, R.ModbusAddrs(numRO, numIO, slaveVars))
      && R.OrderOf(fields, R.FieldAddrs(numRO, numIO, fieldVars))
    ensures Writes(cfg, s, [W.Init(numRO, numIO)], s.(state := Stopped, numRO := numRO, numIO := numIO))
    ensures Reads(scr, r, [R.Open(numRO, numIO, slaveVars, fieldVars, values, fields)],
                  Opened(r, numRO, numIO, slaveVars, fieldVars, values, fields))
  {
    hide Writes, Reads;
    OneWrite(cfg, s, W.Init(numRO, numIO));
    OneRead(scr, r, R.Open(numRO, numIO, slaveVars, fieldVars, values, fields));
  }
}
