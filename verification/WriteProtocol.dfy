// The write side of the HMI as a transition system: the image's button tables, its retry
// queue and the master driver's queue of pending requests. Each step is one critical section.
module WriteProtocol {
  import opened CommonTypes

  const DEFAULT_WRITE_TIMEOUT := 1000

  // The success call-back a request carries: the image's for a button, none otherwise.
  // The time-out call-back is the image's in both cases.
  datatype Owner = Plain | Button

  datatype Req = Req(addr: IOAddr, force: bool, forcedVal: bool, val: Float32,
                     limit: nat, stamp: int, owner: Owner)

  datatype Token = Token(addr: IOAddr, val: bool)

  // What the image learned from its description file.
  datatype Config = Config(slaveVars: map<nat, IOAddr>, fieldVars: map<nat, IOAddr>, vars: map<IOAddr, nat>)

  // What an observer sees of a run.
  datatype Event =
    | Pressed(token: Token)
    | Accepted(req: Req)
    | Succeeded(req: Req)
    | TimedOut(req: Req, at: int, all: bool)
    | WriteError(addr: IOAddr, id: nat)

  datatype Hmi = Hmi(
    state: DrvState, connected: bool, numRO: nat, numIO: nat,
    pending: seq<Req>,            // a bag: the priority queue only fixes which request is taken
    first: map<IOAddr, bool>,     // mumButtonWrites
    second: map<IOAddr, bool>,    // mumButtonWritesToClean
    retry: seq<Token>,            // mqUncompletedButtonWrites
    log: seq<Event>)

  datatype Step =
    | Press(id: nat, val: bool, now: int)
    | Pump(now: int)
    | WriteVar(id: nat, fval: Float32, now: int)
    | ForceVar(id: nat, fval: Float32, bit: bool, now: int)
    | Ack(i: nat)
    | Expire(i: nat, now: int, all: bool)
    | Init(numRO: nat, numIO: nat)
    | Start
    | Stop
    | Close
    | Connect
    | Disconnect
    | Fault

  function FloatOf(b: bool): Float32 {
    if b then FLOAT_ONE else FLOAT_ZERO
  }

  function ButtonReq(t: Token, now: int): Req {
    Req(t.addr, false, false, FloatOf(t.val), DEFAULT_WRITE_TIMEOUT, now, Button)
  }

  function PlainReq(a: IOAddr, force: bool, bit: bool, val: Float32, now: int): Req {
    Req(a, force, bit, val, DEFAULT_WRITE_TIMEOUT, now, Plain)
  }

  function TokenOf(r: Req): Token {
    Token(r.addr, r.val != FLOAT_ZERO)
  }

  // The guard of ModbusMasterDrv::write and ::force.
  predicate Accepts(s: Hmi, a: IOAddr) {
    && s.numRO < a.channel <= s.numIO + s.numRO
    && s.state != Stopped && s.state != UnInit
  }

  function Push(s: Hmi, r: Req): Hmi {
    s.(pending := s.pending + [r], log := s.log + [Accepted(r)])
  }

  function Without(p: seq<Req>, i: nat): (r: seq<Req>)
    requires i < |p|
    ensures |r| == |p| - 1
  {
    p[..i] + p[i + 1..]
  }

  // The request the priority queue may hand out: the largest time-out, ties in any order.
  predicate Top(p: seq<Req>, i: nat) {
    i < |p| && forall j | 0 <= j < |p| :: p[j].limit <= p[i].limit
  }

  predicate Due(r: Req, now: int, all: bool) {
    now - r.stamp > r.limit || all
  }

  // RegImage::driverWriteTimeOut.
  function OnTimeOut(cfg: Config, s: Hmi, a: IOAddr): Hmi {
    if a !in cfg.vars then s
    else if a in s.first then s.(first := s.first - {a}, log := s.log + [WriteError(a, cfg.vars[a])])
    else if a in s.second then s.(retry := s.retry + [Token(a, s.second[a])])
    else s.(log := s.log + [WriteError(a, cfg.vars[a])])
  }

  // RegImage::driverWriteSuccess.
  function OnSuccess(s: Hmi, a: IOAddr): Hmi {
    if a in s.first then
      var v := !s.first[a];
      s.(first := s.first - {a},
         second := if a in s.second then s.second else s.second[a := v],
         retry := s.retry + [Token(a, v)])
    else s.(second := s.second - {a})
  }

  // RegImage::writeVarAsButton.
  function OnPress(cfg: Config, s: Hmi, id: nat, val: bool, now: int): Hmi {
    if id !in cfg.slaveVars then s
    else
      var a := cfg.slaveVars[id];
      if a in s.second || a in s.first || !Accepts(s, a) then s
      else
        var t := Token(a, val);
        var s1 := Push(s.(first := s.first[a := val]), ButtonReq(t, now));
        s1.(log := s1.log + [Pressed(t)])
  }

  // One round of the loop of RegImage::processUncompletedWrites.
  function OnPump(s: Hmi, now: int): Hmi
    requires s.retry != []
  {
    if Accepts(s, s.retry[0].addr) then
      Push(s, ButtonReq(s.retry[0], now)).(retry := s.retry[1..])
    else s
  }

  function OnPlain(s: Hmi, r: Req): Hmi {
    if Accepts(s, r.addr) then Push(s, r) else s
  }

  predicate Enabled(s: Hmi, e: Step) {
    match e
    case Pump(_) => s.retry != []
    case Ack(i) => Top(s.pending, i) && s.connected && s.state == Running
    case Expire(i, now, all) => Top(s.pending, i) && Due(s.pending[i], now, all)
    case Init(_, _) => s.state == UnInit
    case Start => s.state == Stopped
    case Stop => s.state != UnInit && s.pending == [] && !s.connected
    case Close => s.pending == [] && !s.connected
    case Connect => s.state == Running || s.state == COMError
    case Fault => s.state != Stopped && s.state != UnInit
    case _ => true
  }

  function Apply(cfg: Config, s: Hmi, e: Step): Hmi
    requires Enabled(s, e)
  {
    match e
    case Press(id, val, now) => OnPress(cfg, s, id, val, now)
    case Pump(now) => OnPump(s, now)
    case WriteVar(id, v, now) =>
      if id in cfg.slaveVars then OnPlain(s, PlainReq(cfg.slaveVars[id], false, false, v, now)) else s
    case ForceVar(id, v, bit, now) =>
      if id in cfg.fieldVars then OnPlain(s, PlainReq(cfg.fieldVars[id], true, bit, v, now)) else s
    case Ack(i) =>
      var r := s.pending[i];
      var s1 := s.(pending := Without(s.pending, i), log := s.log + [Succeeded(r)]);
      if r.owner.Button? then OnSuccess(s1, r.addr) else s1
    case Expire(i, now, all) =>
      var r := s.pending[i];
      OnTimeOut(cfg, s.(pending := Without(s.pending, i), log := s.log + [TimedOut(r, now, all)]), r.addr)
    case Init(ro, io) => s.(state := Stopped, numRO := ro, numIO := io)
    case Start => s.(state := Running)
    case Stop => s.(state := Stopped)
    case Close => s.(state := UnInit, numRO := 0, numIO := 0)
    case Connect => s.(connected := true, state := Running)
    case Disconnect => s.(connected := false)
    case Fault => s.(state := COMError)
  }

  const START := Hmi(UnInit, false, 0, 0, [], map[], map[], [], [])

  predicate Feasible(cfg: Config, s: Hmi, run: seq<Step>)
    decreases |run|
  {
    run == [] || (Enabled(s, run[0]) && Feasible(cfg, Apply(cfg, s, run[0]), run[1..]))
  }

  function Exec(cfg: Config, s: Hmi, run: seq<Step>): Hmi
    requires Feasible(cfg, s, run)
    decreases |run|
  {
    if run == [] then s else Exec(cfg, Apply(cfg, s, run[0]), run[1..])
  }

  // The assumption on the HMI's screens: the addresses used as buttons are not written plainly.
  predicate Respects(cfg: Config, buttons: set<IOAddr>, e: Step) {
    match e
    case Press(id, _, _) => id in cfg.slaveVars ==> cfg.slaveVars[id] in buttons
    case WriteVar(id, _, _) => id in cfg.slaveVars ==> cfg.slaveVars[id] !in buttons
    case ForceVar(id, _, _, _) => id in cfg.fieldVars ==> cfg.fieldVars[id] !in buttons
    case _ => true
  }

  ghost predicate ValidConfig(cfg: Config) {
    forall id | id in cfg.slaveVars :: cfg.slaveVars[id] in cfg.vars
  }
}
