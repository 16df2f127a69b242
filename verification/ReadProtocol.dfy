// The read side of the HMI as a transition system: the driver's caches and read cycle, the set of
// changed variables, the batch the image is delivering and what its screens show.
module ReadProtocol {
  import opened CommonTypes
  import opened SlaveBlocks

  datatype FieldData =
    FieldData(time: bv64, trueVal: Float32, forcedVal: Float32, q: QuState, forced: bool, forceDetect: bool)

  datatype ModbusData = ModbusData(time: int, val: Float32, word: bv32, q: QuState, forceDetect: bool)

  const NEW_FIELD := FieldData(0, 0, 0, OK, false, true)
  const NEW_VALUE := ModbusData(0, 0, 0, OK, true)

  // What a signal of the image carries to the screens.
  datatype Shown =
    | ShownWord(word: bv32)
    | ShownValue(val: Float32, q: QuState)
    | ShownField(trueVal: Float32, forcedVal: Float32, forced: bool, q: QuState)

  // What the link answered to one read.
  datatype Answer = FieldAnswer(rec: Rec) | WordAnswer(word: bv32, now: int) | ValueAnswer(val: Float32, now: int)

  datatype Event =
    | Configured(fields: seq<IOAddr>, values: seq<IOAddr>)
    | Linked
    | GotRead(addr: IOAddr)
    | Wrapped

  // The image's own configuration: the words it expects and the variables it knows.
  datatype Screens = Screens(ioInts: nat, vars: set<IOAddr>)

  datatype Rd = Rd(
    state: DrvState, connected: bool, numRO: nat, numIO: nat,
    fieldOrder: seq<IOAddr>, fieldIt: nat, field: map<IOAddr, FieldData>,
    modbusOrder: seq<IOAddr>, modbusIt: nat, modbus: map<IOAddr, ModbusData>,
    changed: set<IOAddr>,         // musChangedVars
    batch: set<IOAddr>,           // usChanges of the update under way
    shown: map<IOAddr, Shown>,
    shownIn: map<IOAddr, DrvState>,   // the driver's state at the last delivery
    seen: Option<set<IOAddr>>,    // usLastVarChanges
    target: nat,                  // muiVarsToUpdate
    subs: set<IOAddr>,            // the addresses the image asked to have read
    delivered: set<IOAddr>,       // those its screens have been given since
    complete: nat,                // how often allVarsUpdated was signalled
    log: seq<Event>)

  datatype Step =
    | Open(numRO: nat, numIO: nat, slaveVars: set<IOAddr>, fieldVars: set<IOAddr>,
           values: seq<IOAddr>, fields: seq<IOAddr>)
    | Start
    | Stop
    | Close
    | Connect
    | Disconnect
    | Fault
    | Read(answer: Answer)
    | Wrap
    | Poll
    | Deliver(addr: IOAddr)

  // The caches as init makes them.
  function FreshFields(order: seq<IOAddr>): map<IOAddr, FieldData> { map a | a in order :: NEW_FIELD }

  function FreshValues(order: seq<IOAddr>): map<IOAddr, ModbusData> { map a | a in order :: NEW_VALUE }

  // ---- comparison of floats by pattern

  predicate IsNaN(f: Float32) { f & 0x7F80_0000 == 0x7F80_0000 && f & 0x007F_FFFF != 0 }

  predicate IsZero(f: Float32) { f & 0x7FFF_FFFF == 0 }

  // The != of two floats: a NaN differs from everything, the two zeros are equal.
  predicate Differ(x: Float32, y: Float32) {
    IsNaN(x) || IsNaN(y) || !(x == y || (IsZero(x) && IsZero(y)))
  }

  predicate Same(x: Float32, y: Float32) {
    x == y || (IsZero(x) && IsZero(y))
  }

  // ---- one read

  predicate Pending(s: Rd) {
    s.fieldIt < |s.fieldOrder| || s.modbusIt < |s.modbusOrder|
  }

  function NextAddr(s: Rd): IOAddr
    requires Pending(s)
  {
    if s.fieldIt < |s.fieldOrder| then s.fieldOrder[s.fieldIt] else s.modbusOrder[s.modbusIt]
  }

  predicate IsWord(s: Rd, a: IOAddr) {
    1 <= a.channel <= s.numRO
  }

  // The kind of answer the next read brings.
  predicate Suits(s: Rd, answer: Answer) {
    && Pending(s)
    && if s.fieldIt < |s.fieldOrder| then answer.FieldAnswer? && NextAddr(s) in s.field
       else NextAddr(s) in s.modbus && if IsWord(s, NextAddr(s)) then answer.WordAnswer? else answer.ValueAnswer?
  }

  predicate FieldChanged(d: FieldData, rec: Rec) {
    || d.forceDetect || Differ(rec.val, d.trueVal) || Differ(d.forcedVal, rec.forcedVal)
    || rec.q != d.q || d.forced != rec.forced
  }

  predicate ValueChanged(d: ModbusData, answer: Answer)
    requires !answer.FieldAnswer?
  {
    d.forceDetect || d.q != OK || if answer.WordAnswer? then answer.word != d.word else Differ(d.val, answer.val)
  }

  predicate Changed(s: Rd, answer: Answer)
    requires Suits(s, answer)
  {
    if answer.FieldAnswer? then FieldChanged(s.field[NextAddr(s)], answer.rec)
    else ValueChanged(s.modbus[NextAddr(s)], answer)
  }

  // The first half of processRead: the change is marked, under the lock of the set of changes.
  function Mark(s: Rd, answer: Answer): (r: Rd)
    requires Suits(s, answer)
    ensures Suits(r, answer) && NextAddr(r) == NextAddr(s)
    ensures r == s.(changed := r.changed, field := r.field, modbus := r.modbus)
  {
    var a := NextAddr(s);
    if !Changed(s, answer) then s
    else if answer.FieldAnswer? then
      s.(changed := s.changed + {a}, field := s.field[a := s.field[a].(forceDetect := false)])
    else
      s.(changed := s.changed + {a}, modbus := s.modbus[a := s.modbus[a].(forceDetect := false)])
  }

  // The second half: the answer goes to the cache, under the lock of the cache.
  function Store(s: Rd, answer: Answer): Rd
    requires Suits(s, answer)
  {
    var a := NextAddr(s);
    match answer
    case FieldAnswer(r) =>
      s.(field := s.field[a := FieldData(r.time, r.val, r.forcedVal, r.q, r.forced, s.field[a].forceDetect)])
    case WordAnswer(w, now) =>
      s.(modbus := s.modbus[a := s.modbus[a].(word := w, time := now, q := OK)])
    case ValueAnswer(v, now) =>
      s.(modbus := s.modbus[a := s.modbus[a].(val := v, time := now, q := OK)])
  }

  // Then the iterator advances.
  function Advance(s: Rd): Rd
    requires Pending(s)
  {
    var s1 := s.(log := s.log + [GotRead(NextAddr(s))]);
    if s.fieldIt < |s.fieldOrder| then s1.(fieldIt := s.fieldIt + 1) else s1.(modbusIt := s.modbusIt + 1)
  }

  function OnRead(s: Rd, answer: Answer): Rd
    requires Suits(s, answer)
  {
    Advance(Store(Mark(s, answer), answer))
  }

  // The end of a cycle. With variables to read it is reported as a failure of the link.
  function OnWrap(s: Rd): Rd {
    var s1 := s.(fieldIt := 0, modbusIt := 0, log := s.log + [Wrapped]);
    if s.fieldOrder == [] && s.modbusOrder == [] then s1 else s1.(state := COMError)
  }

  // ---- the image

  // What ModbusMasterDrv::read gives the image for an address, the quality being that of the cache.
  function View(scr: Screens, s: Rd, a: IOAddr): Option<Shown> {
    if 1 <= a.channel <= scr.ioInts then
      if a in s.modbus then Some(ShownWord(s.modbus[a].word)) else None
    else if a !in scr.vars then None
    else if a in s.modbus then Some(ShownValue(s.modbus[a].val, s.modbus[a].q))
    else if a in s.field then
      Some(ShownField(s.field[a].trueVal, s.field[a].forcedVal, s.field[a].forced, s.field[a].q))
    else None
  }

  // The quality the image passes on.
  function Passed(state: DrvState, v: Shown): Shown {
    if v.ShownWord? || state != COMError then v else v.(q := ComError)
  }

  function OnDeliver(scr: Screens, s: Rd, a: IOAddr): (r: Rd)
    ensures r == s.(batch := s.batch - {a}, shown := r.shown, shownIn := r.shownIn, delivered := r.delivered,
                    seen := r.seen, complete := r.complete)
  {
    var s1 := s.(batch := s.batch - {a});
    if View(scr, s, a).None? then s1
    else
      NewVarUpdated(s1.(shown := s.shown[a := Passed(s.state, View(scr, s, a).value)],
                        shownIn := s.shownIn[a := s.state], delivered := s.delivered + {a}), a)
  }

  function NewVarUpdated(s: Rd, a: IOAddr): (r: Rd)
    ensures r == s.(seen := r.seen, complete := r.complete)
  {
    if s.seen.None? then s
    else if |s.seen.value + {a}| == s.target then s.(seen := None, complete := s.complete + 1)
    else s.(seen := Some(s.seen.value + {a}))
  }

  // ---- the transition system

  predicate Distinct(order: seq<IOAddr>) {
    forall i, j | 0 <= i < j < |order| :: order[i] != order[j]
  }

  predicate IsVarChannel(numRO: nat, numIO: nat, a: IOAddr) { numRO < a.channel <= numIO + numRO }

  predicate IsMapChannel(numRO: nat, numIO: nat, a: IOAddr) { 1 <= a.channel <= numIO + numRO }

  // The addresses init takes out of those it is given.
  function ModbusAddrs(numRO: nat, numIO: nat, vars: set<IOAddr>): set<IOAddr> {
    set a | a in vars && IsMapChannel(numRO, numIO, a)
  }

  function FieldAddrs(numRO: nat, numIO: nat, vars: set<IOAddr>): set<IOAddr> {
    set a | a in vars && IsVarChannel(numRO, numIO, a)
  }

  // The iteration order of the hash tables that init fills: any order of the addresses it takes.
  predicate OrderOf(order: seq<IOAddr>, taken: set<IOAddr>) {
    Distinct(order) && (set a | a in order) == taken
  }

  lemma NoneTaken()
    ensures OrderOf([], {})
  {}

  lemma OneMore(order: seq<IOAddr>, taken: set<IOAddr>, a: IOAddr)
    requires OrderOf(order, taken) && a !in taken
    ensures OrderOf(order + [a], taken + {a})
  {
    assert forall b | b in order :: b in taken;
    assert forall b :: b in order + [a] <==> b in order || b == a;
  }

  predicate Enabled(s: Rd, e: Step) {
    match e
    case Open(ro, io, slaveVars, fieldVars, values, fields) =>
      && s.state == UnInit && ro + io >= 1
      && OrderOf(values, ModbusAddrs(ro, io, slaveVars))
      && OrderOf(fields, FieldAddrs(ro, io, fieldVars))
    case Start => s.state == Stopped
    case Stop => s.state != UnInit && !s.connected
    case Close => !s.connected
    case Connect => (s.state == Running || s.state == COMError) && !s.connected
    case Fault => s.state != Stopped && s.state != UnInit
    case Disconnect => true
    case Read(answer) => s.state == Running && s.connected && Suits(s, answer)
    case Wrap => s.state == Running && s.connected && !Pending(s)
    case Poll => s.batch == {}
    case Deliver(a) => a in s.batch
  }

  function Apply(scr: Screens, s: Rd, e: Step): Rd
    requires Enabled(s, e)
  {
    match e
    case Open(ro, io, slaveVars, fieldVars, values, fields) =>
      s.(state := Stopped, numRO := ro, numIO := io,
         fieldOrder := fields, fieldIt := 0, field := FreshFields(fields),
         modbusOrder := values, modbusIt := 0, modbus := FreshValues(values),
         seen := Some({}), target := |slaveVars| + |fieldVars|, complete := 0,
         subs := slaveVars + fieldVars, delivered := {},
         log := s.log + [Configured(fields, values)])
    case Start => s.(state := Running)
    case Stop => s.(state := Stopped)
    case Close =>
      s.(state := UnInit, numRO := 0, numIO := 0, fieldOrder := [], fieldIt := 0, field := map[],
         modbusOrder := [], modbusIt := 0, modbus := map[], log := s.log + [Configured([], [])])
    case Connect => s.(connected := true, state := Running, log := s.log + [Linked])
    case Disconnect => s.(connected := false)
    case Fault => s.(state := COMError)
    case Read(answer) => OnRead(s, answer)
    case Wrap => OnWrap(s)
    case Poll => s.(batch := s.changed, changed := {})
    case Deliver(a) => OnDeliver(scr, s, a)
  }

  const START := Rd(UnInit, false, 0, 0, [], 0, map[], [], 0, map[], {}, {}, map[], map[], None, 0, {}, {}, 0, [])

  predicate Feasible(scr: Screens, s: Rd, run: seq<Step>)
    decreases |run|
  {
    run == [] || (Enabled(s, run[0]) && Feasible(scr, Apply(scr, s, run[0]), run[1..]))
  }

  function Exec(scr: Screens, s: Rd, run: seq<Step>): Rd
    requires Feasible(scr, s, run)
    decreases |run|
  {
    if run == [] then s else Exec(scr, Apply(scr, s, run[0]), run[1..])
  }
}
