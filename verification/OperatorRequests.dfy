// What the operator asks for, from the screen to the regulator's record: the request each operation
// makes, what the record holds once it is acknowledged, and the report when it is not.
module OperatorRequests {
  import opened CommonTypes
  import opened WriteProtocol
  import opened ButtonSafety
  import opened SlaveBlocks
  import B = ButtonCell
  import E = EndToEnd
  import T = Transmission

  // ---- the request

  // The driver takes a request for a channel of its variables unless it is stopped or closed.
  predicate Taken(s: Hmi, a: IOAddr) {
    && s.numRO < a.channel <= s.numRO + s.numIO
    && (s.state == Running || s.state == COMError || s.state == VarError)
  }

  // A write, a force or a press adds one request to the queue, or nothing.
  lemma OperationsAdd(cfg: Config, s: Hmi, e: Step)
    requires e.WriteVar? || e.ForceVar? || e.Press?
    ensures var s' := Apply(cfg, s, e);
      match e
      case WriteVar(id, v, now) =>
        s'.pending == s.pending +
          if id in cfg.slaveVars && Taken(s, cfg.slaveVars[id])
          then [Req(cfg.slaveVars[id], false, false, v, 1000, now, Plain)] else []
      case ForceVar(id, v, bit, now) =>
        s'.pending == s.pending +
          if id in cfg.fieldVars && Taken(s, cfg.fieldVars[id])
          then [Req(cfg.fieldVars[id], true, bit, v, 1000, now, Plain)] else []
      case Press(id, v, now) =>
        s'.pending == s.pending +
          if id in cfg.slaveVars && Taken(s, cfg.slaveVars[id])
             && cfg.slaveVars[id] !in s.first && cfg.slaveVars[id] !in s.second
          then [Req(cfg.slaveVars[id], false, false, if v then 0x3F80_0000 else 0, 1000, now, Button)] else []
      case _ => true
  {}

  // A pump writes the value the button's table holds.
  lemma PumpAdds(cfg: Config, s: Hmi, now: int)
    requires TokenInv(cfg, s) && s.retry != []
    ensures var s', a := Apply(cfg, s, Pump(now)), s.retry[0].addr;
      && a in s.second
      && s'.pending == s.pending +
        if Taken(s, a) then [Req(a, false, false, if s.second[a] then 0x3F80_0000 else 0, 1000, now, Button)] else []
  {
    hide InQueue;
    var t := s.retry[0];
    assert t in s.retry;
    assert Live(s)[t] == if Wanted(s.first, s.second, t) then 1 else 0;
  }

  // ---- the record

  // An acknowledged force is in the regulator's record of that variable: its flag, and with it its
  // value; an acknowledged unforce clears the flag and nothing else.
  lemma ForceReaches(cfg: Config, s: Hmi, id: nat, v: Float32, bit: bool, now: int, p: B.Plant, m: B.Move)
    requires id in cfg.fieldVars && Taken(s, cfg.fieldVars[id])
    requires B.SharedMap(p) && m.Send? && B.Can(p, m)
    requires p.hmi.pending[m.i] == Apply(cfg, s, ForceVar(id, v, bit, now)).pending[|s.pending|]
    requires T.Reported(m.link, B.Parts(p, p.hmi.pending[m.i]))
    ensures var t, n := B.Moved(cfg, p, m).table, cfg.fieldVars[id].channel - p.numRO;
      && 0 <= n && n as nat in p.table && n as nat in t
      && t[n as nat].forced == bit && t[n as nat].forcedVal == (if bit then v else p.table[n as nat].forcedVal)
      && t[n as nat].val == p.table[n as nat].val && t == p.table[n as nat := t[n as nat]]
  {
    hide T.Sent, T.Reported, T.WriteParts, T.Answered, E.ServedAll, E.Hit;
    OperationsAdd(cfg, s, ForceVar(id, v, bit, now));
    var r := p.hmi.pending[m.i];
    assert r in p.hmi.pending;
    E.WriteTakesEffect(p.table, m.link, p.numRO, r.addr.channel, r.force, r.forcedVal, r.val, m.calls, m.reached);
  }

  lemma WriteReaches(cfg: Config, s: Hmi, id: nat, v: Float32, now: int, p: B.Plant, m: B.Move)
    requires id in cfg.slaveVars && Taken(s, cfg.slaveVars[id])
    requires B.SharedMap(p) && m.Send? && B.Can(p, m)
    requires p.hmi.pending[m.i] == Apply(cfg, s, WriteVar(id, v, now)).pending[|s.pending|]
    requires T.Reported(m.link, B.Parts(p, p.hmi.pending[m.i]))
    ensures var t, n := B.Moved(cfg, p, m).table, cfg.slaveVars[id].channel - p.numRO;
      && 0 <= n && n as nat in p.table && t == p.table[n as nat := p.table[n as nat].(val := v)]
  {
    hide T.Sent, T.Reported, T.WriteParts, T.Answered, E.ServedAll, E.Hit;
    OperationsAdd(cfg, s, WriteVar(id, v, now));
    var r := p.hmi.pending[m.i];
    assert r in p.hmi.pending;
    E.WriteTakesEffect(p.table, m.link, p.numRO, r.addr.channel, r.force, r.forcedVal, r.val, m.calls, m.reached);
  }

  // ---- the report

  // A report follows the time-out of a request for its address and carries the variable's number;
  // and the time-out of a plain request at a known address is followed by its report.
  ghost predicate Reported(cfg: Config, log: seq<Event>) {
    && (forall k | 0 <= k < |log| && log[k].WriteError? :: IsReport(cfg, log, k))
    && (forall k | 0 <= k < |log| && log[k].TimedOut? && log[k].req.owner.Plain? && log[k].req.addr in cfg.vars ::
          k + 1 < |log| && log[k + 1] == WriteError(log[k].req.addr, cfg.vars[log[k].req.addr]))
  }

  predicate IsReport(cfg: Config, log: seq<Event>, k: int)
    requires 0 <= k < |log| && log[k].WriteError?
  {
    && k > 0 && log[k - 1].TimedOut? && log[k - 1].req.addr == log[k].addr
    && log[k].addr in cfg.vars && log[k].id == cfg.vars[log[k].addr]
  }

  // Events other than reports and the time-outs of plain requests.
  lemma OneSilent(cfg: Config, log: seq<Event>, e: Event)
    requires Reported(cfg, log) && !e.WriteError?
    requires e.TimedOut? ==> e.req.owner.Button? || e.req.addr !in cfg.vars
    ensures Reported(cfg, log + [e])
  {
    forall k | 0 <= k < |log| && log[k].WriteError? ensures IsReport(cfg, log + [e], k) {
      assert IsReport(cfg, log, k);
    }
  }

  lemma OneReport(cfg: Config, log: seq<Event>, r: Req, at: int, all: bool)
    requires Reported(cfg, log) && r.addr in cfg.vars
    ensures Reported(cfg, log + [TimedOut(r, at, all), WriteError(r.addr, cfg.vars[r.addr])])
  {
    var log' := log + [TimedOut(r, at, all), WriteError(r.addr, cfg.vars[r.addr])];
    forall k | 0 <= k < |log'| && log'[k].WriteError? ensures IsReport(cfg, log', k) {
      if k < |log| { assert log[k].WriteError?; assert IsReport(cfg, log, k); }
    }
  }

  lemma ExpireReports(cfg: Config, s: Hmi, i: nat, now: int, all: bool)
    requires Reported(cfg, s.log) && Enabled(s, Expire(i, now, all)) && Harmless(s, Expire(i, now, all))
    ensures Reported(cfg, Apply(cfg, s, Expire(i, now, all)).log)
  {
    hide Reported, Without;
    var r := s.pending[i];
    if r.addr in cfg.vars && (r.addr in s.first || r.addr !in s.second) {
      OneReport(cfg, s.log, r, now, all);
      assert s.log + [TimedOut(r, now, all)] + [WriteError(r.addr, cfg.vars[r.addr])]
        == s.log + [TimedOut(r, now, all), WriteError(r.addr, cfg.vars[r.addr])];
    } else {
      OneSilent(cfg, s.log, TimedOut(r, now, all));
    }
  }

  lemma PressReports(cfg: Config, s: Hmi, id: nat, val: bool, now: int)
    requires Reported(cfg, s.log)
    ensures Reported(cfg, OnPress(cfg, s, id, val, now).log)
  {
    hide Reported;
    if OnPress(cfg, s, id, val, now) != s {
      var t := Token(cfg.slaveVars[id], val);
      OneSilent(cfg, s.log, Accepted(ButtonReq(t, now)));
      OneSilent(cfg, s.log + [Accepted(ButtonReq(t, now))], Pressed(t));
    }
  }

  lemma StepReports(cfg: Config, s: Hmi, e: Step)
    requires Reported(cfg, s.log) && Enabled(s, e) && Harmless(s, e)
    ensures Reported(cfg, Apply(cfg, s, e).log)
  {
    hide Reported, OnPress, Without;
    match e
    case Press(id, val, now) => PressReports(cfg, s, id, val, now);
    case Pump(now) => OneSilent(cfg, s.log, Accepted(ButtonReq(s.retry[0], now)));
    case WriteVar(id, v, now) =>
      if id in cfg.slaveVars { OneSilent(cfg, s.log, Accepted(PlainReq(cfg.slaveVars[id], false, false, v, now))); }
    case ForceVar(id, v, bit, now) =>
      if id in cfg.fieldVars { OneSilent(cfg, s.log, Accepted(PlainReq(cfg.fieldVars[id], true, bit, v, now))); }
    case Ack(i) => OneSilent(cfg, s.log, Succeeded(s.pending[i]));
    case Expire(i, now, all) => ExpireReports(cfg, s, i, now, all);
    case _ =>
  }

  lemma {:induction false} RunReports(cfg: Config, s: Hmi, run: seq<Step>)
    requires Reported(cfg, s.log) && Feasible(cfg, s, run) && HarmlessRun(cfg, s, run)
    ensures Reported(cfg, Exec(cfg, s, run).log)
    decreases |run|
  {
    hide Reported, Enabled, Apply, Harmless;
    if run != [] {
      StepReports(cfg, s, run[0]);
      RunReports(cfg, Apply(cfg, s, run[0]), run[1..]);
    }
  }

  // Over every run from the start in which no plain time-out falls on a button being pressed: the
  // operator is told of each plain request that times out, once, by the number of its variable, and
  // of nothing that has not timed out.
  lemma TimeOutsAreReported(cfg: Config, run: seq<Step>)
    requires Feasible(cfg, START, run) && HarmlessRun(cfg, START, run)
    ensures var log := Exec(cfg, START, run).log;
      && (forall k | 0 <= k < |log| && log[k].TimedOut? && log[k].req.owner.Plain? && log[k].req.addr in cfg.vars ::
            k + 1 < |log| && log[k + 1] == WriteError(log[k].req.addr, cfg.vars[log[k].req.addr]))
      && (forall k | 0 <= k < |log| && log[k].WriteError? ::
            && k > 0 && log[k - 1].TimedOut? && log[k - 1].req.addr == log[k].addr
            && log[k].addr in cfg.vars && log[k].id == cfg.vars[log[k].addr])
  {
    RunReports(cfg, START, run);
  }
}
