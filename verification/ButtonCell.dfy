// The write side of the HMI together with the regulator's table: what the regulator holds in the
// cell of a button once the button is at rest.
module ButtonCell {
  import opened CommonTypes
  import opened WriteProtocol
  import opened ButtonSafety
  import opened ButtonResults
  import opened SlaveBlocks
  import opened Codec
  import opened ModbusMap
  import T = Transmission
  import E = EndToEnd

  // Both programs are made for the same map.
  datatype Plant = Plant(hmi: Hmi, numRO: nat, numIO: nat, table: map<nat, Rec>)

  datatype Move =
    | Local(step: Step)     // any step of the HMI but an acknowledgement
    | Send(i: nat, link: T.Link, calls: seq<T.Call>, reached: nat -> bool)
    | Regulate(table: map<nat, Rec>)

  function Parts(p: Plant, r: Req): seq<T.Call> {
    T.WriteParts(p.hmi.numRO, r.addr.channel, r.force, r.forcedVal, r.val)
  }

  // A transmission makes the calls the retry loop makes; those answered have arrived, and others
  // may have.
  ghost predicate Can(p: Plant, m: Move) {
    match m
    case Local(e) => Enabled(p.hmi, e) && !e.Ack? && (e.Init? ==> (e.numRO, e.numIO) == (p.numRO, p.numIO))
    case Send(i, link, calls, reached) =>
      && Enabled(p.hmi, Ack(i)) && T.Sent(link, Parts(p, p.hmi.pending[i]), calls)
      && forall k: nat | k < |calls| && T.Answered(link, k, calls[k]) :: reached(k)
    case Regulate(table) => table.Keys == p.table.Keys
  }

  // What has arrived is in the table; the request is taken off the queue when the loop reports it.
  function Moved(cfg: Config, p: Plant, m: Move): Plant
    requires Can(p, m)
  {
    match m
    case Local(e) => p.(hmi := Apply(cfg, p.hmi, e))
    case Send(i, link, calls, reached) =>
      var p' := p.(table := E.ServedAll(p.table, calls, reached, |calls|));
      if T.Reported(link, Parts(p, p.hmi.pending[i])) then p'.(hmi := Apply(cfg, p.hmi, Ack(i))) else p'
    case Regulate(table) => p.(table := table)
  }

  // The value cell of the button is its own: no plain write and no other button goes to its
  // channel, and the regulator only reads it. And no plain request upsets a button.
  ghost predicate Proper(p: Plant, a: IOAddr, m: Move)
    requires Can(p, m)
  {
    match m
    case Local(e) => Harmless(p.hmi, e)
    case Send(i, _, _, _) =>
      var r := p.hmi.pending[i];
      r.addr.channel == a.channel && !r.force ==> r.owner.Button? && r.addr == a
    case Regulate(table) => Cell(p, a) in table ==> table[Cell(p, a)].val == p.table[Cell(p, a)].val
  }

  function Cell(p: Plant, a: IOAddr): int { a.channel - p.numRO }

  ghost predicate Goes(cfg: Config, p: Plant, a: IOAddr, run: seq<Move>)
    decreases |run|
  {
    |run| == 0 || (Can(p, run[0]) && Proper(p, a, run[0]) && Goes(cfg, Moved(cfg, p, run[0]), a, run[1..]))
  }

  function End(cfg: Config, p: Plant, a: IOAddr, run: seq<Move>): Plant
    requires Goes(cfg, p, a, run)
    decreases |run|
  {
    if |run| == 0 then p else End(cfg, Moved(cfg, p, run[0]), a, run[1..])
  }

  // Any table of the right size.
  ghost predicate Begins(p: Plant) {
    p.hmi == START && forall n: nat :: n in p.table <==> 1 <= n <= p.numIO
  }

  // ------------------------------------------------------------ how a button last ended

  datatype Outcome = Never | Acked | Failed

  function LastOutcome(log: seq<Event>, a: IOAddr): Outcome {
    if log == [] then Never
    else
      var init, e := log[..|log| - 1], log[|log| - 1];
      if e.Succeeded? && e.req.owner.Button? && e.req.addr == a then Acked
      else if e.WriteError? && e.addr == a && LastIsOwn(init) then Failed
      else LastOutcome(init, a)
  }

  predicate AtRestReleased(s: Hmi, a: IOAddr) {
    a !in s.first && a !in s.second && LastOutcome(s.log, a) == Acked
  }

  // ------------------------------------------------------------ what every move keeps

  // What the driver holds is for variables of the map both programs share.
  ghost predicate SharedMap(p: Plant) {
    && (forall n: nat :: n in p.table <==> 1 <= n <= p.numIO)
    && (p.hmi.state != UnInit ==> p.hmi.numRO == p.numRO && p.hmi.numIO == p.numIO)
    && forall r | r in p.hmi.pending :: p.numRO < r.addr.channel <= p.numIO + p.numRO
  }

  // After a last acknowledgement, the cell of a button at rest holds the value acknowledged.
  ghost predicate CellHolds(p: Plant, a: IOAddr) {
    AtRestReleased(p.hmi, a) ==>
      var acks := Acks(p.hmi.log, a);
      acks != [] && Cell(p, a) in p.table && p.table[Cell(p, a)].val == FloatOf(acks[|acks| - 1])
  }

  ghost predicate PlantInv(cfg: Config, p: Plant, a: IOAddr) {
    Inv(cfg, p.hmi) && SharedMap(p) && CellHolds(p, a)
  }

  // Events other than acknowledgements of the button leave the acknowledged values; only they make
  // a last outcome good.
  lemma OneEvent(log: seq<Event>, a: IOAddr, e: Event)
    requires !(e.Succeeded? && e.req.owner.Button? && e.req.addr == a)
    ensures Acks(log + [e], a) == Acks(log, a)
    ensures LastOutcome(log + [e], a)
      == if e.WriteError? && e.addr == a && LastIsOwn(log) then Failed else LastOutcome(log, a)
  {
    assert (log + [e])[..|log|] == log;
  }

  lemma OneAck(log: seq<Event>, a: IOAddr, r: Req)
    requires r.owner.Button? && r.addr == a
    ensures Acks(log + [Succeeded(r)], a) == Acks(log, a) + [r.val != FLOAT_ZERO]
  {
    assert (log + [Succeeded(r)])[..|log|] == log;
  }

  // No local step acknowledges anything or brings a button to rest as if it had been released.
  lemma LocalStep(cfg: Config, s: Hmi, a: IOAddr, e: Step)
    requires TokenInv(cfg, s) && Enabled(s, e) && !e.Ack? && Harmless(s, e)
    ensures AtRestReleased(Apply(cfg, s, e), a) ==> AtRestReleased(s, a)
    ensures Acks(Apply(cfg, s, e).log, a) == Acks(s.log, a)
  {
    hide Acks, LastOutcome, OneToken, Requests, InQueue, Without;
    match e
    case Press(id, val, now) => LocalPress(cfg, s, a, id, val, now);
    case Pump(now) => OneEvent(s.log, a, Accepted(ButtonReq(s.retry[0], now)));
    case WriteVar(id, v, now) =>
      if id in cfg.slaveVars { OneEvent(s.log, a, Accepted(PlainReq(cfg.slaveVars[id], false, false, v, now))); }
    case ForceVar(id, v, bit, now) =>
      if id in cfg.fieldVars { OneEvent(s.log, a, Accepted(PlainReq(cfg.fieldVars[id], true, bit, v, now))); }
    case Expire(i, now, all) => LocalExpire(cfg, s, a, i, now, all);
    case _ =>
  }

  lemma LocalPress(cfg: Config, s: Hmi, a: IOAddr, id: nat, val: bool, now: int)
    ensures AtRestReleased(OnPress(cfg, s, id, val, now), a) ==> AtRestReleased(s, a)
    ensures Acks(OnPress(cfg, s, id, val, now).log, a) == Acks(s.log, a)
  {
    hide Acks, LastOutcome;
    if OnPress(cfg, s, id, val, now) != s {
      var t := Token(cfg.slaveVars[id], val);
      OneEvent(s.log, a, Accepted(ButtonReq(t, now)));
      OneEvent(s.log + [Accepted(ButtonReq(t, now))], a, Pressed(t));
    }
  }

  lemma LocalExpire(cfg: Config, s: Hmi, a: IOAddr, i: nat, now: int, all: bool)
    requires TokenInv(cfg, s) && Enabled(s, Expire(i, now, all)) && Harmless(s, Expire(i, now, all))
    ensures AtRestReleased(Apply(cfg, s, Expire(i, now, all)), a) ==> AtRestReleased(s, a)
    ensures Acks(Apply(cfg, s, Expire(i, now, all)).log, a) == Acks(s.log, a)
  {
    hide Acks, LastOutcome, OneToken, Requests, InQueue, Without;
    var r := s.pending[i];
    var log := s.log + [TimedOut(r, now, all)];
    OneEvent(s.log, a, TimedOut(r, now, all));
    if r.addr in cfg.vars { OneEvent(log, a, WriteError(r.addr, cfg.vars[r.addr])); }
    assert log[|log| - 1] == TimedOut(r, now, all);
  }

  lemma LocalKeepsMap(cfg: Config, p: Plant, e: Step)
    requires SharedMap(p) && Idle(p.hmi) && Can(p, Local(e))
    ensures SharedMap(p.(hmi := Apply(cfg, p.hmi, e)))
  {}

  // A transmission changes the value of one record at most, and if it is reported, to the one sent.
  lemma SendWrites(cfg: Config, p: Plant, m: Move)
    requires SharedMap(p) && m.Send? && Can(p, m)
    ensures var r, t := p.hmi.pending[m.i], Moved(cfg, p, m).table;
      && t.Keys == p.table.Keys
      && (forall n: nat | n in t && (n != r.addr.channel - p.numRO || r.force) :: t[n].val == p.table[n].val)
      && (T.Reported(m.link, Parts(p, r)) && !r.force ==> t[(r.addr.channel - p.numRO) as nat].val == r.val)
  {
    hide T.Sent, T.Reported, T.WriteParts, T.Answered, E.ServedAll, E.Hit, Apply;
    var r := p.hmi.pending[m.i];
    assert r in p.hmi.pending;
    E.WriteTakesEffect(p.table, m.link, p.numRO, r.addr.channel, r.force, r.forcedVal, r.val, m.calls, m.reached);
  }

  // What an acknowledgement does to the button's phase and to what is acknowledged.
  lemma AckMoves(cfg: Config, s: Hmi, a: IOAddr, i: nat)
    requires TokenInv(cfg, s) && Enabled(s, Ack(i)) && AtRestReleased(Apply(cfg, s, Ack(i)), a)
    ensures var r, acks := s.pending[i], Acks(Apply(cfg, s, Ack(i)).log, a);
      if r.owner.Button? && r.addr == a then
        acks != [] && r.val == FloatOf(acks[|acks| - 1]) && !r.force
      else AtRestReleased(s, a) && acks == Acks(s.log, a)
  {
    hide Acks, LastOutcome, OneToken, InQueue, Without;
    var r := s.pending[i];
    assert r in s.pending;
    if r.owner.Button? && r.addr == a { OneAck(s.log, a, r); } else { OneEvent(s.log, a, Succeeded(r)); }
  }

  // The token of a button in the driver's queue keeps the button from being at rest.
  lemma NotAtRest(cfg: Config, s: Hmi, i: nat)
    requires TokenInv(cfg, s) && i < |s.pending| && s.pending[i].owner.Button?
    ensures !AtRestReleased(s, s.pending[i].addr)
  {
    QueuedIsWanted(s, i);
  }

  lemma SendKeepsCell(cfg: Config, p: Plant, a: IOAddr, m: Move)
    requires PlantInv(cfg, p, a) && m.Send? && Can(p, m) && Proper(p, a, m)
    ensures CellHolds(Moved(cfg, p, m), a)
  {
    hide Acks, LastOutcome, OneToken, Requests, Observed, Tables, AtRestReleased, Apply;
    hide T.Sent, T.Reported, T.Answered, E.ServedAll;
    var r := p.hmi.pending[m.i];
    assert r in p.hmi.pending;
    SendWrites(cfg, p, m);
    if r.owner.Button? { NotAtRest(cfg, p.hmi, m.i); }
    if AtRestReleased(Moved(cfg, p, m).hmi, a) && T.Reported(m.link, Parts(p, r)) {
      AckMoves(cfg, p.hmi, a, m.i);
    }
  }

  lemma SendKeepsMap(cfg: Config, p: Plant, m: Move)
    requires SharedMap(p) && m.Send? && Can(p, m)
    ensures SharedMap(Moved(cfg, p, m))
  {
    hide T.Sent, T.Reported, T.Answered, E.ServedAll, Apply, Enabled;
    SendWrites(cfg, p, m);
    AckKeepsMap(cfg, p.hmi, m.i);
  }

  lemma AckKeepsMap(cfg: Config, s: Hmi, i: nat)
    requires Enabled(s, Ack(i))
    ensures var s' := Apply(cfg, s, Ack(i));
      && s'.state == s.state && s'.numRO == s.numRO && s'.numIO == s.numIO
      && forall r | r in s'.pending :: r in s.pending
  {}

  lemma MoveKeeps(cfg: Config, p: Plant, a: IOAddr, m: Move)
    requires ValidConfig(cfg) && PlantInv(cfg, p, a) && Can(p, m) && Proper(p, a, m)
    ensures PlantInv(cfg, Moved(cfg, p, m), a)
  {
    hide TokenInv, Observed, CellHolds, SharedMap, Apply;
    match m
    case Local(e) =>
      StepKeeps(cfg, p.hmi, e);
      LocalKeepsMap(cfg, p, e);
      LocalKeepsCell(cfg, p, a, e);
    case Send(i, _, _, _) =>
      StepKeeps(cfg, p.hmi, Ack(i));
      SendKeepsMap(cfg, p, m);
      SendKeepsCell(cfg, p, a, m);
    case Regulate(table) => RegulateKeeps(p, a, table);
  }

  lemma LocalKeepsCell(cfg: Config, p: Plant, a: IOAddr, e: Step)
    requires TokenInv(cfg, p.hmi) && CellHolds(p, a) && Can(p, Local(e)) && Harmless(p.hmi, e)
    ensures CellHolds(p.(hmi := Apply(cfg, p.hmi, e)), a)
  {
    hide AtRestReleased, Apply, Acks;
    LocalStep(cfg, p.hmi, a, e);
  }

  lemma RegulateKeeps(p: Plant, a: IOAddr, table: map<nat, Rec>)
    requires SharedMap(p) && CellHolds(p, a) && Can(p, Regulate(table)) && Proper(p, a, Regulate(table))
    ensures SharedMap(p.(table := table)) && CellHolds(p.(table := table), a)
  {
    hide AtRestReleased, Acks;
  }

  lemma {:induction false} RunKeepsPlant(cfg: Config, p: Plant, a: IOAddr, run: seq<Move>)
    requires ValidConfig(cfg) && PlantInv(cfg, p, a) && Goes(cfg, p, a, run)
    ensures PlantInv(cfg, End(cfg, p, a, run), a)
    decreases |run|
  {
    hide PlantInv, Can, Proper, Moved;
    if |run| > 0 {
      MoveKeeps(cfg, p, a, run[0]);
      RunKeepsPlant(cfg, Moved(cfg, p, run[0]), a, run[1..]);
    }
  }

  // Over every run of the two programs, whatever the link loses: once a button has been pressed
  // and has come to rest without a press error, the last pair acknowledged is the press and its
  // release, and the regulator's cell holds the release.
  lemma CellHoldsRelease(cfg: Config, p: Plant, a: IOAddr, run: seq<Move>)
    requires ValidConfig(cfg) && Begins(p) && Goes(cfg, p, a, run)
    requires AtRestReleased(End(cfg, p, a, run).hmi, a)
    ensures var p' := End(cfg, p, a, run);
      var acks, n := Acks(p'.hmi.log, a), Cell(p', a);
      && |acks| >= 2 && acks[|acks| - 1] == !acks[|acks| - 2]
      && n in p'.table && p'.table[n].val == FloatOf(acks[|acks| - 1])
  {
    hide Goes, End, Acks, LastOutcome, TokenInv;
    StartHolds(cfg);
    NeverAcked(a);
    RunKeepsPlant(cfg, p, a, run);
    LegalLife(End(cfg, p, a, run).hmi.log, a);
  }

  lemma NeverAcked(a: IOAddr)
    ensures LastOutcome(START.log, a) == Never
  {}

  // ------------------------------------------------------------ what the cell holds at any time

  // The move brings a request of the button to the regulator, with one of its calls at least.
  ghost predicate Arrives(p: Plant, a: IOAddr, m: Move)
    requires Can(p, m)
  {
    m.Send? && p.hmi.pending[m.i].owner.Button? && p.hmi.pending[m.i].addr == a && Reaches(m.calls, m.reached)
  }

  ghost predicate Reaches(calls: seq<T.Call>, reached: nat -> bool) {
    exists k: nat :: k < |calls| && reached(k)
  }

  // The values of the button's requests that have arrived, acknowledged or not, in their order.
  ghost function Arrived(cfg: Config, p: Plant, a: IOAddr, run: seq<Move>): seq<Float32>
    requires Goes(cfg, p, a, run)
    decreases |run|
  {
    if |run| == 0 then []
    else
      (if Arrives(p, a, run[0]) then [p.hmi.pending[run[0].i].val] else [])
      + Arrived(cfg, Moved(cfg, p, run[0]), a, run[1..])
  }

  function Last(v: Float32, vs: seq<Float32>): Float32 {
    if vs == [] then v else vs[|vs| - 1]
  }

  // A plain value goes in one part, which has arrived when any call has.
  lemma OnePartReaches(p: Plant, m: Move, r: Req)
    requires m.Send? && !r.force && T.Sent(m.link, Parts(p, r), m.calls)
    ensures |Parts(p, r)| == 1
    ensures E.Hit(m.calls, m.reached, |m.calls|, Parts(p, r)[0]) <==> Reaches(m.calls, m.reached)
  {
    hide T.Done;
    forall k | 0 <= k < |m.calls| ensures m.calls[k] == Parts(p, r)[0] {
      assert m.calls[k] == Parts(p, r)[T.Done(m.link, Parts(p, r), k)];
    }
  }

  lemma SendSets(cfg: Config, p: Plant, a: IOAddr, m: Move)
    requires SharedMap(p) && Requests(p.hmi) && m.Send? && Can(p, m) && Proper(p, a, m)
    ensures CellMoves(p, a, m, Moved(cfg, p, m))
    ensures var r := p.hmi.pending[m.i];
      r.owner.Button? && r.addr == a && T.Reported(m.link, Parts(p, r)) ==> Arrives(p, a, m)
  {
    hide T.Sent, T.Reported, T.WriteParts, T.Answered, E.ServedAll, E.Hit, Reaches, Apply;
    var r := p.hmi.pending[m.i];
    assert r in p.hmi.pending;
    E.WriteTakesEffect(p.table, m.link, p.numRO, r.addr.channel, r.force, r.forcedVal, r.val, m.calls, m.reached);
    if !r.force { OnePartReaches(p, m, r); }
  }

  // The cell takes the value of the request that arrives, and keeps its own otherwise.
  ghost predicate CellMoves(p: Plant, a: IOAddr, m: Move, p': Plant)
    requires Can(p, m)
  {
    && Cell(p', a) == Cell(p, a) && (Cell(p', a) in p'.table <==> Cell(p, a) in p.table)
    && (Arrives(p, a, m) ==> Cell(p, a) in p.table)
    && (Cell(p, a) in p'.table && Cell(p, a) in p.table ==>
          p'.table[Cell(p, a)].val == if Arrives(p, a, m) then p.hmi.pending[m.i].val else p.table[Cell(p, a)].val)
  }

  // Nothing is acknowledged that has not arrived.
  lemma MoveSets(cfg: Config, p: Plant, a: IOAddr, m: Move)
    requires PlantInv(cfg, p, a) && Can(p, m) && Proper(p, a, m)
    ensures CellMoves(p, a, m, Moved(cfg, p, m))
    ensures !Arrives(p, a, m) ==> Acks(Moved(cfg, p, m).hmi.log, a) == Acks(p.hmi.log, a)
  {
    hide T.Sent, T.Reported, T.Answered, E.ServedAll, E.Hit, Reaches, Acks, Apply, OneToken, Tables, Observed;
    match m
    case Local(e) => LocalStep(cfg, p.hmi, a, e);
    case Regulate(table) =>
    case Send(i, _, _, _) =>
      SendSets(cfg, p, a, m);
      if !Arrives(p, a, m) { AcksOnlyArrived(cfg, p, a, m); }
  }

  lemma AcksOnlyArrived(cfg: Config, p: Plant, a: IOAddr, m: Move)
    requires SharedMap(p) && Requests(p.hmi) && m.Send? && Can(p, m) && Proper(p, a, m) && !Arrives(p, a, m)
    ensures Acks(Moved(cfg, p, m).hmi.log, a) == Acks(p.hmi.log, a)
  {
    hide T.Sent, T.Reported, T.Answered, E.ServedAll, E.Hit, Reaches, Acks, Arrives, CellMoves;
    var r := p.hmi.pending[m.i];
    assert r in p.hmi.pending;
    SendSets(cfg, p, a, m);
    if !(r.owner.Button? && r.addr == a) { OneEvent(p.hmi.log, a, Succeeded(r)); }
  }

  // Over every run of the two programs, acknowledged or not: the cell holds the value of the last
  // request of the button that has arrived.
  lemma {:induction false} CellHoldsLastArrived(cfg: Config, p: Plant, a: IOAddr, run: seq<Move>)
    requires ValidConfig(cfg) && PlantInv(cfg, p, a) && Goes(cfg, p, a, run)
    ensures var p', vs := End(cfg, p, a, run), Arrived(cfg, p, a, run);
      && Cell(p', a) == Cell(p, a) && (Cell(p', a) in p'.table <==> Cell(p, a) in p.table)
      && (vs != [] ==> Cell(p, a) in p.table)
      && (vs == [] ==> Acks(p'.hmi.log, a) == Acks(p.hmi.log, a))
      && (Cell(p, a) in p.table ==> p'.table[Cell(p', a)].val == Last(p.table[Cell(p, a)].val, vs))
    decreases |run|
  {
    hide PlantInv, Can, Proper, Moved, Arrives, Acks;
    if |run| > 0 {
      MoveSets(cfg, p, a, run[0]);
      MoveKeeps(cfg, p, a, run[0]);
      CellHoldsLastArrived(cfg, Moved(cfg, p, run[0]), a, run[1..]);
    }
  }

  // A button at rest that has ever been acknowledged keeps its release in the regulator's cell if
  // and only if the last of its requests to arrive, be it reported as failed, carries that value.
  lemma ReleaseStaysIff(cfg: Config, p: Plant, a: IOAddr, run: seq<Move>)
    requires ValidConfig(cfg) && Begins(p) && Goes(cfg, p, a, run)
    requires var s := End(cfg, p, a, run).hmi; a !in s.first && a !in s.second && Acks(s.log, a) != []
    ensures var p', vs := End(cfg, p, a, run), Arrived(cfg, p, a, run);
      var acks := Acks(p'.hmi.log, a);
      && |acks| >= 2 && acks[|acks| - 1] == !acks[|acks| - 2] && vs != [] && Cell(p', a) in p'.table
      && (p'.table[Cell(p', a)].val == FloatOf(acks[|acks| - 1]) <==> vs[|vs| - 1] == FloatOf(acks[|acks| - 1]))
  {
    hide Goes, End, LastOutcome, TokenInv, Arrived;
    StartHolds(cfg);
    NeverAcked(a);
    CellHoldsLastArrived(cfg, p, a, run);
    RunKeepsPlant(cfg, p, a, run);
    LegalLife(End(cfg, p, a, run).hmi.log, a);
  }

  // ------------------------------------------------------------ a press reported as failed

  const CLEAR := Rec(FLOAT_ZERO, FLOAT_ZERO, false, OK, 0)
  const CALL := T.WriteRegisters(ValueAddr(0, 1), SetFloat(FLOAT_ONE))
  const CALLS := [CALL, CALL, CALL]
  const DEAF := T.Link(_ => false, _ => Block([], [], [], []))
  const ALL: nat -> bool := _ => true

  // The press arrives, three times; no reply comes back, and the request expires.
  const UNHEARD: seq<Move> := [
    Local(Init(0, 1)), Local(Start), Local(Connect), Local(Press(0, true, 900)),
    Send(0, DEAF, CALLS, ALL), Local(Fault), Local(Expire(0, 1901, false))]

  const BEGINS := Plant(START, 0, 1, map[1 := CLEAR])
  const HELD := map[1 := CLEAR.(val := FLOAT_ONE)]
  const DOWN := LINK_UP.(pending := [PRESS], first := map[VALVE := true],
                         log := [Accepted(PRESS), Pressed(Token(VALVE, true))])
  const GIVEN_UP := LINK_UP.(state := COMError, log := DOWN.log + [TimedOut(PRESS, 1901, false), WriteError(VALVE, 0)])

  lemma GoesCons(p: Plant, m: Move, run: seq<Move>)
    requires Can(p, m) && Proper(p, VALVE, m) && Goes(VALVE_CONFIG, Moved(VALVE_CONFIG, p, m), VALVE, run)
    ensures Goes(VALVE_CONFIG, p, VALVE, [m] + run)
    ensures End(VALVE_CONFIG, p, VALVE, [m] + run) == End(VALVE_CONFIG, Moved(VALVE_CONFIG, p, m), VALVE, run)
  {
    hide Can, Proper, Moved;
    assert ([m] + run)[1..] == run;
  }

  lemma ThreeCalls()
    ensures T.WriteParts(0, 1, false, false, FLOAT_ONE) == [CALL]
    ensures T.Sent(DEAF, [CALL], CALLS) && !T.Reported(DEAF, [CALL])
  {
    hide SetFloat;
    assert T.Done(DEAF, [CALL], 0) == 0 && T.Done(DEAF, [CALL], 1) == 0 && T.Done(DEAF, [CALL], 2) == 0;
  }

  lemma ThePressArrives()
    ensures E.ServedAll(map[1 := CLEAR], CALLS, ALL, 3) == HELD
  {
    hide SetFloat;
    assert T.WriteParts(0, 1, false, false, FLOAT_ONE) == [CALL];
    E.ServedIs(map[1 := CLEAR], 0, 1, false, false, FLOAT_ONE, CALLS, ALL, 3);
    assert ALL(0) && CALLS[0] == CALL;
    assert E.Hit(CALLS, ALL, 3, CALL);
  }

  lemma GivesUp()
    ensures Goes(VALVE_CONFIG, Plant(DOWN, 0, 1, HELD), VALVE, UNHEARD[5..])
    ensures End(VALVE_CONFIG, Plant(DOWN, 0, 1, HELD), VALVE, UNHEARD[5..]) == Plant(GIVEN_UP, 0, 1, HELD)
  {
    var p := Plant(DOWN.(state := COMError), 0, 1, HELD);
    assert Without([PRESS], 0) == [];
    assert map[VALVE := true] - {VALVE} == map[];
    assert Apply(VALVE_CONFIG, p.hmi, Expire(0, 1901, false)) == GIVEN_UP;
    GoesCons(p, Local(Expire(0, 1901, false)), []);
    GoesCons(Plant(DOWN, 0, 1, HELD), Local(Fault), [Local(Expire(0, 1901, false))] + []);
  }

  lemma SendsUnheard()
    ensures var m := UNHEARD[4];
      && Can(Plant(DOWN, 0, 1, map[1 := CLEAR]), m) && Proper(Plant(DOWN, 0, 1, map[1 := CLEAR]), VALVE, m)
      && Moved(VALVE_CONFIG, Plant(DOWN, 0, 1, map[1 := CLEAR]), m) == Plant(DOWN, 0, 1, HELD)
  {
    hide T.Sent, T.Reported, E.ServedAll, T.WriteParts;
    ThreeCalls();
    ThePressArrives();
  }

  // The condition on the last outcome cannot go: a press reported as failed may have arrived, and
  // then the cell keeps it, with the button at rest and nothing left to send.
  lemma FailedPressMayStay()
    ensures Begins(BEGINS) && Goes(VALVE_CONFIG, BEGINS, VALVE, UNHEARD)
    ensures var p := End(VALVE_CONFIG, BEGINS, VALVE, UNHEARD);
      && p.hmi.pending == [] && p.hmi.first == map[] && p.hmi.second == map[] && p.hmi.retry == []
      && LastOutcome(p.hmi.log, VALVE) == Failed && 1 in p.table && p.table[1].val == FLOAT_ONE
  {
    hide Goes, End, Can, Proper, Moved, LastOutcome;
    GivesUp();
    SendsUnheard();
    GoesCons(Plant(DOWN, 0, 1, map[1 := CLEAR]), UNHEARD[4], UNHEARD[5..]);
    assert UNHEARD[4..] == [UNHEARD[4]] + UNHEARD[5..];
    PressesFirst();
    FailedAtLast();
  }

  lemma PressesFirst()
    requires Goes(VALVE_CONFIG, Plant(DOWN, 0, 1, map[1 := CLEAR]), VALVE, UNHEARD[4..])
    ensures Goes(VALVE_CONFIG, BEGINS, VALVE, UNHEARD)
    ensures End(VALVE_CONFIG, BEGINS, VALVE, UNHEARD)
      == End(VALVE_CONFIG, Plant(DOWN, 0, 1, map[1 := CLEAR]), VALVE, UNHEARD[4..])
  {
    hide Goes, End, Can, Proper, Moved;
    var t := map[1 := CLEAR];
    FirstSteps();
    assert forall k | 0 <= k < 4 :: UNHEARD[k..] == [UNHEARD[k]] + UNHEARD[k + 1..];
    assert UNHEARD[0..] == UNHEARD;
    GoesCons(Plant(LINK_UP, 0, 1, t), UNHEARD[3], UNHEARD[4..]);
    GoesCons(Plant(LINK_UP.(connected := false), 0, 1, t), UNHEARD[2], UNHEARD[3..]);
    GoesCons(Plant(LINK_UP.(connected := false, state := Stopped), 0, 1, t), UNHEARD[1], UNHEARD[2..]);
    GoesCons(BEGINS, UNHEARD[0], UNHEARD[1..]);
  }

  lemma Steps(p: Plant, m: Move, p': Plant)
    requires m.Local? && Enabled(p.hmi, m.step) && !m.step.Ack? && !m.step.Expire?
    requires m.step.Init? ==> (m.step.numRO, m.step.numIO) == (p.numRO, p.numIO)
    requires p' == p.(hmi := Apply(VALVE_CONFIG, p.hmi, m.step))
    ensures Can(p, m) && Proper(p, VALVE, m) && Moved(VALVE_CONFIG, p, m) == p'
  {}

  lemma FirstSteps()
    ensures var t := map[1 := CLEAR];
      var p1 := Plant(LINK_UP.(connected := false, state := Stopped), 0, 1, t);
      var p2 := Plant(LINK_UP.(connected := false), 0, 1, t);
      var p3, p4 := Plant(LINK_UP, 0, 1, t), Plant(DOWN, 0, 1, t);
      && Can(BEGINS, UNHEARD[0]) && Proper(BEGINS, VALVE, UNHEARD[0]) && Moved(VALVE_CONFIG, BEGINS, UNHEARD[0]) == p1
      && Can(p1, UNHEARD[1]) && Proper(p1, VALVE, UNHEARD[1]) && Moved(VALVE_CONFIG, p1, UNHEARD[1]) == p2
      && Can(p2, UNHEARD[2]) && Proper(p2, VALVE, UNHEARD[2]) && Moved(VALVE_CONFIG, p2, UNHEARD[2]) == p3
      && Can(p3, UNHEARD[3]) && Proper(p3, VALVE, UNHEARD[3]) && Moved(VALVE_CONFIG, p3, UNHEARD[3]) == p4
  {
    hide Can, Proper, Moved;
    var t := map[1 := CLEAR];
    var p1 := Plant(LINK_UP.(connected := false, state := Stopped), 0, 1, t);
    var p2 := Plant(LINK_UP.(connected := false), 0, 1, t);
    assert Apply(VALVE_CONFIG, LINK_UP, Press(0, true, 900)) == DOWN;
    Steps(BEGINS, UNHEARD[0], p1);
    Steps(p1, UNHEARD[1], p2);
    Steps(p2, UNHEARD[2], Plant(LINK_UP, 0, 1, t));
    Steps(Plant(LINK_UP, 0, 1, t), UNHEARD[3], Plant(DOWN, 0, 1, t));
  }

  lemma FailedAtLast()
    ensures LastOutcome(GIVEN_UP.log, VALVE) == Failed
  {
    var log := GIVEN_UP.log;
    assert log[..|log| - 1] == DOWN.log + [TimedOut(PRESS, 1901, false)];
  }
}
