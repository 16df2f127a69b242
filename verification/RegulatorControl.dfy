// The control scan of the regulator: the trip latch and the regulator's states over whole runs.
// Values are reals where the source has floats.
module RegulatorControl {
  import opened Alarms

  // The slave inputs a scan reads.
  datatype Inputs = Inputs(start: real, trip: real, reset: real, openReg: real, powerReg: real, confirm: real,
                           powerSp: real, openSp: real)

  // iState, the three measured speeds and the outputs a scan writes.
  datatype Plant = Plant(iState: int, f1: real, f2: real, f3: real, n0: bool, brake: bool, excite: bool, sync: bool,
                         noOverspeed: bool, noHighOverspeed: bool, ssp: real, pwsp: real, opsp: real, stateOut: int)

  // ---- the trip latch

  // What one scan asks of the alarm manager: first the faults found by checkDriverErrors, then the
  // trip or the reset.
  datatype Scan = Scan(faults: seq<nat>, inputs: Inputs)

  predicate Trips(i: Inputs) { i.trip == 0.0 }

  predicate Resets(i: Inputs) { i.trip != 0.0 && i.reset == 1.0 }

  function ControlRequest(i: Inputs): seq<Request> {
    if Trips(i) then [Raise(AL_TRIPEXT)] else if Resets(i) then [Clear] else []
  }

  function ScanAlarms(words: seq<bv32>, levels: seq<nat>, s: Scan): (w: seq<bv32>)
    requires |words| == NumWords(|levels|) && AL_MINOR < |levels|
    ensures |w| == |words|
  {
    HandleAll(HandleAll(words, levels, seq(|s.faults|, i requires 0 <= i < |s.faults| => Raise(s.faults[i]))), levels,
              ControlRequest(s.inputs))
  }

  function RunAlarms(words: seq<bv32>, levels: seq<nat>, run: seq<Scan>): (w: seq<bv32>)
    requires |words| == NumWords(|levels|) && AL_MINOR < |levels|
    ensures |w| == |words|
  {
    if run == [] then words else ScanAlarms(RunAlarms(words, levels, run[..|run| - 1]), levels, run[|run| - 1])
  }

  // A trip at scan k that no later scan has reset.
  predicate Latched(run: seq<Scan>, k: int) {
    && 0 <= k < |run| && run[k].inputs.trip == 0.0
    && forall j | k < j < |run| :: run[j].inputs.trip == 0.0 || run[j].inputs.reset != 1.0
  }

  lemma {:induction false} OtherFaultsKeepTrip(words: seq<bv32>, levels: seq<nat>, rs: seq<Request>)
    requires |words| == NumWords(|levels|) && AL_MINOR < |levels|
    requires forall r | r in rs :: r.Raise? && r.alarm != AL_TRIPEXT
    ensures AL_TRIPEXT in Active(HandleAll(words, levels, rs), |levels|) <==> AL_TRIPEXT in Active(words, |levels|)
  {
    if rs != [] {
      var k := |rs| - 1;
      OtherFaultsKeepTrip(words, levels, rs[..k]);
      assert rs[k] in rs;
      SetAlarmCloses(HandleAll(words, levels, rs[..k]), levels, rs[k].alarm);
    }
  }

  lemma OneRequest(words: seq<bv32>, levels: seq<nat>, i: Inputs)
    requires |words| == NumWords(|levels|) && AL_MINOR < |levels|
    ensures AL_TRIPEXT in Active(HandleAll(words, levels, ControlRequest(i)), |levels|)
      <==> Trips(i) || (!Resets(i) && AL_TRIPEXT in Active(words, |levels|))
  {
    var rs := ControlRequest(i);
    if rs != [] {
      assert rs[..0] == [];
      assert HandleAll(words, levels, rs) == Handle(words, levels, rs[0]);
      if Trips(i) {
        SetAlarmCloses(words, levels, AL_TRIPEXT);
      } else {
        NothingSet(Handle(words, levels, Clear), |levels|);
      }
    }
  }

  // After any run from cleared alarms the external trip is set exactly when some scan had the trip
  // input at 0 and no later one had it back with the reset pressed, whatever other faults arose.
  lemma {:induction false} TripLatch(words: seq<bv32>, levels: seq<nat>, run: seq<Scan>)
    requires |words| == NumWords(|levels|) && AL_MINOR < |levels|
    requires forall i | 0 <= i < |words| :: words[i] == 0
    requires forall s | s in run :: AL_TRIPEXT !in s.faults
    ensures AL_TRIPEXT in Active(RunAlarms(words, levels, run), |levels|) <==> exists k :: Latched(run, k)
  {
    if run == [] {
      NothingSet(words, |levels|);
    } else {
      var n := |run| - 1;
      var init, s := run[..n], run[n];
      TripLatch(words, levels, init);
      assert s in run;
      var before := RunAlarms(words, levels, init);
      var rs := seq(|s.faults|, i requires 0 <= i < |s.faults| => Raise(s.faults[i]));
      OtherFaultsKeepTrip(before, levels, rs);
      OneRequest(HandleAll(before, levels, rs), levels, s.inputs);
      NextLatched(run);
    }
  }

  lemma NextLatched(run: seq<Scan>)
    requires run != []
    ensures var n := |run| - 1;
      (exists k :: Latched(run, k)) <==>
      Trips(run[n].inputs) || (!Resets(run[n].inputs) && exists k :: Latched(run[..n], k))
  {
    var n := |run| - 1;
    if Trips(run[n].inputs) {
      assert Latched(run, n);
    } else if k :| Latched(run, k) {
      assert !Resets(run[n].inputs);
      assert Latched(run[..n], k);
    } else if k :| Latched(run[..n], k) {
      if !Resets(run[n].inputs) { assert Latched(run, k); }
    }
  }

  // ---- the regulator's states

  const STEP: real := 0.009

  function Ramp(p: Plant): Plant {
    var raised := p.f1 + STEP;
    var speed := if raised > 80.0 then 0.0 else raised;
    var p1 := p.(f1 := speed, f2 := speed, f3 := speed,
                 n0 := speed < 0.5, brake := speed < 10.0, excite := speed > 50.0, sync := speed > 59.0,
                 noOverspeed := !(speed > 62.0), noHighOverspeed := !(speed > 70.0));
    var p2 := if speed > 59.0 then p1.(ssp := 60.0, iState := 4) else p1;
    if speed > 65.0 then p2.(pwsp := 50.0, iState := 6) else p2
  }

  function ControlScan(p: Plant, i: Inputs): Plant {
    var p0 := if p.iState == 0 && i.start == 1.0 then p.(iState := 1) else p;
    var p1 :=
      if p0.iState == 1 || p0.iState == 4 then Ramp(p0)
      else if p0.iState == 6 then
        if i.openReg == 1.0 then p0.(iState := 7)
        else if i.confirm == 1.0 then p0.(pwsp := i.powerSp)
        else p0
      else if p0.iState == 7 then
        if i.powerReg == 1.0 then p0.(iState := 6) else p0.(opsp := i.openSp)
      else p0;
    p1.(stateOut := p1.iState)
  }

  function RunControl(p: Plant, run: seq<Inputs>): Plant {
    if run == [] then p else ControlScan(RunControl(p, run[..|run| - 1]), run[|run| - 1])
  }

  // The scans since the start order, the one that brought it included.
  function Running(run: seq<Inputs>): nat {
    if run == [] then 0
    else
      var m := Running(run[..|run| - 1]);
      if m > 0 || run[|run| - 1].start == 1.0 then m + 1 else 0
  }

  // 6556 scans take the speed above 59, 7223 above 65.
  predicate Schedule(p: Plant, m: nat) {
    if m == 0 then p.iState == 0
    else if m < 7223 then
      p.iState == (if m < 6556 then 1 else 4) && p.f1 == p.f2 == p.f3 == m as real * STEP
    else (p.iState == 6 || p.iState == 7) && p.f1 == p.f2 == p.f3 == 7223.0 * STEP
  }

  // The digital outputs follow the speed: the overspeed contact drops above 62, and neither the
  // high overspeed contact nor the wrap at 80 is ever reached.
  predicate Contacts(p: Plant) {
    && p.n0 == (p.f1 < 0.5) && p.brake == (p.f1 < 10.0) && p.excite == (p.f1 > 50.0) && p.sync == (p.f1 > 59.0)
    && p.noOverspeed == !(p.f1 > 62.0) && p.noHighOverspeed && p.f1 <= 66.0
  }

  lemma RampSpeed(p: Plant, m: nat)
    requires m < 7223 && p.f1 == m as real * STEP
    ensures var p' := Ramp(p);
      && p'.f1 == p'.f2 == p'.f3 == (m + 1) as real * STEP && Contacts(p')
      && p'.iState == (if m + 1 < 6556 then p.iState else if m + 1 < 7223 then 4 else 6)
  {
    assert (m + 1) as real * STEP == m as real * STEP + STEP;
    if m + 1 < 6556 { assert (m + 1) as real <= 6555.0; } else { assert (m + 1) as real >= 6556.0; }
    if m + 1 < 7223 { assert (m + 1) as real <= 7222.0; } else { assert (m + 1) as real == 7223.0; }
  }

  // One scan of the ramp.
  lemma RampScan(p: Plant, i: Inputs, m: nat)
    requires m < 7223 && p.f1 == m as real * STEP
    requires if m == 0 then p.iState == 0 && i.start == 1.0 else p.iState == if m < 6556 then 1 else 4
    ensures Schedule(ControlScan(p, i), m + 1) && Contacts(ControlScan(p, i))
  {
    hide Ramp;
    RampSpeed(if m == 0 then p.(iState := 1) else p, m);
  }

  // One scan of power or opening regulation.
  lemma RegulationScan(p: Plant, i: Inputs, m: nat)
    requires m >= 7223 && Schedule(p, m) && Contacts(p)
    ensures Schedule(ControlScan(p, i), m + 1) && Contacts(ControlScan(p, i))
  {
    hide Ramp;
  }

  // Over every run from rest, the state and the speeds depend only on how long ago the start
  // order came; power and opening regulation alternate once the ramp is over.
  lemma {:induction false} StatesFollowSchedule(p: Plant, run: seq<Inputs>)
    requires p.iState == 0 && p.f1 == 0.0
    ensures Schedule(RunControl(p, run), Running(run))
    ensures Running(run) > 0 ==> Contacts(RunControl(p, run))
    ensures Running(run) == 0 ==> RunControl(p, run) == (if run == [] then p else p.(stateOut := 0))
    ensures run != [] ==> RunControl(p, run).stateOut == RunControl(p, run).iState
  {
    hide Ramp, Contacts;
    if run != [] {
      var n := |run| - 1;
      StatesFollowSchedule(p, run[..n]);
      var q, m := RunControl(p, run[..n]), Running(run[..n]);
      if m >= 7223 {
        RegulationScan(q, run[n], m);
      } else if m > 0 || run[n].start == 1.0 {
        RampScan(q, run[n], m);
      }
    }
  }

  // ---- set points

  // In scan k the operator's power set point is confirmed under power regulation, or the opening set
  // point is followed under opening regulation.
  predicate Confirms(p: Plant, run: seq<Inputs>, k: int) {
    0 <= k < |run| && RunControl(p, run[..k]).iState == 6 && run[k].openReg != 1.0 && run[k].confirm == 1.0
  }

  predicate Follows(p: Plant, run: seq<Inputs>, k: int) {
    0 <= k < |run| && RunControl(p, run[..k]).iState == 7 && run[k].powerReg != 1.0
  }

  // The last such scan, or -1.
  function LastConfirmed(p: Plant, run: seq<Inputs>): (k: int)
    ensures -1 <= k < |run|
  {
    if run == [] then -1
    else if Confirms(p, run, |run| - 1) then |run| - 1
    else LastConfirmed(p, run[..|run| - 1])
  }

  function LastFollowed(p: Plant, run: seq<Inputs>): (k: int)
    ensures -1 <= k < |run|
  {
    if run == [] then -1
    else if Follows(p, run, |run| - 1) then |run| - 1
    else LastFollowed(p, run[..|run| - 1])
  }

  lemma {:induction false} LastScans(p: Plant, run: seq<Inputs>)
    ensures LastConfirmed(p, run) >= 0 ==> Confirms(p, run, LastConfirmed(p, run))
    ensures LastFollowed(p, run) >= 0 ==> Follows(p, run, LastFollowed(p, run))
    ensures forall k | k > LastConfirmed(p, run) :: !Confirms(p, run, k)
    ensures forall k | k > LastFollowed(p, run) :: !Follows(p, run, k)
  {
    hide RunControl;
    if run != [] {
      var n := |run| - 1;
      LastScans(p, run[..n]);
      forall k | k < n
        ensures Confirms(p, run, k) == Confirms(p, run[..n], k) && Follows(p, run, k) == Follows(p, run[..n], k)
      {
        if k >= 0 { assert run[..n][..k] == run[..k]; }
      }
    }
  }

  // What one scan does once the ramp is over: it switches between the two regulations or moves the
  // set point of the one that is on.
  lemma OneRegulation(p: Plant, i: Inputs)
    requires p.iState == 6 || p.iState == 7
    ensures var q := ControlScan(p, i);
      && q.iState == (if p.iState == 6 then if i.openReg == 1.0 then 7 else 6 else if i.powerReg == 1.0 then 6 else 7)
      && q.pwsp == (if p.iState == 6 && i.openReg != 1.0 && i.confirm == 1.0 then i.powerSp else p.pwsp)
      && q.opsp == (if p.iState == 7 && i.powerReg != 1.0 then i.openSp else p.opsp)
      && q.ssp == p.ssp && q.f1 == p.f1
  {
    hide Ramp;
  }

  lemma OneRampScan(p: Plant, i: Inputs, m: nat)
    requires m < 7223 && p.f1 == m as real * STEP
    requires if m == 0 then p.iState == 0 && i.start == 1.0 else p.iState == if m < 6556 then 1 else 4
    ensures var q := ControlScan(p, i);
      && q.ssp == (if m + 1 < 6556 then p.ssp else 60.0) && q.pwsp == (if m + 1 < 7223 then p.pwsp else 50.0)
      && q.opsp == p.opsp
  {
    assert (m + 1) as real * STEP == m as real * STEP + STEP;
    if m + 1 < 6556 { assert (m + 1) as real <= 6555.0; } else { assert (m + 1) as real >= 6556.0; }
    if m + 1 < 7223 { assert (m + 1) as real <= 7222.0; } else { assert (m + 1) as real == 7223.0; }
  }

  // The set points by the last scan that moved them; 60 and 50 are set at the ramp's two marks.
  predicate SetPoints(p: Plant, run: seq<Inputs>) {
    var q, m, c, f := RunControl(p, run), Running(run), LastConfirmed(p, run), LastFollowed(p, run);
    && q.ssp == (if m < 6556 then p.ssp else 60.0)
    && q.pwsp == (if c >= 0 then run[c].powerSp else if m < 7223 then p.pwsp else 50.0)
    && q.opsp == (if f >= 0 then run[f].openSp else p.opsp)
    && (m < 7223 ==> c == -1 && f == -1)
  }

  // Over every run from rest.
  lemma {:induction false} SetPointsOfRun(p: Plant, run: seq<Inputs>)
    requires p.iState == 0 && p.f1 == 0.0
    ensures SetPoints(p, run)
  {
    hide SetPoints, Schedule;
    if run == [] {
      NoSetPoints(p);
    } else {
      var n := |run| - 1;
      SetPointsOfRun(p, run[..n]);
      StatesFollowSchedule(p, run[..n]);
      NextSetPoints(p, run);
    }
  }

  lemma NoSetPoints(p: Plant)
    ensures SetPoints(p, [])
  {}

  lemma NextSetPoints(p: Plant, run: seq<Inputs>)
    requires run != [] && SetPoints(p, run[..|run| - 1])
    requires Schedule(RunControl(p, run[..|run| - 1]), Running(run[..|run| - 1]))
    requires p.f1 == 0.0 && (Running(run[..|run| - 1]) == 0 ==> RunControl(p, run[..|run| - 1]).f1 == 0.0)
    ensures SetPoints(p, run)
  {
    hide ControlScan;
    var n := |run| - 1;
    var q, m := RunControl(p, run[..n]), Running(run[..n]);
    assert run[..n][..n] == run[..n];
    if m >= 7223 {
      OneRegulation(q, run[n]);
    } else if m > 0 || run[n].start == 1.0 {
      OneRampScan(q, run[n], m);
    } else {
      NoScan(q, run[n]);
    }
  }

  lemma NoScan(p: Plant, i: Inputs)
    requires p.iState == 0 && i.start != 1.0
    ensures ControlScan(p, i) == p.(stateOut := 0)
  {}

  // ---- the control object

  class Control {
    const alarms: AlarmManager
    var plant: Plant

    constructor (alarms: AlarmManager, plant: Plant)
      requires plant.iState == 0
      ensures this.alarms == alarms && this.plant == plant
    {
      this.alarms, this.plant := alarms, plant;
    }

    // The trip raises its alarm; the reset, once the trip is back, clears them all.
    method UpdateAlarms(i: Inputs)
      requires alarms.Valid()
      modifies alarms.logicErrors
      ensures alarms.logicErrors[..] == HandleAll(old(alarms.logicErrors[..]), alarms.levels, ControlRequest(i))
    {
      hide Handle, HandleAll;
      ghost var words := alarms.logicErrors[..];
      NoRequest(words, alarms.levels);
      OneHandled(words, alarms.levels, Raise(AL_TRIPEXT));
      OneHandled(words, alarms.levels, Clear);
      if i.trip == 0.0 {
        alarms.Set(AL_TRIPEXT);
      } else if i.reset == 1.0 {
        alarms.ClearAlarms();
      }
    }

    // One scan: the trip or the reset goes to the alarm manager, and the outputs follow the state.
    method UpdateControl(i: Inputs)
      requires alarms.Valid()
      modifies this, alarms.logicErrors
      ensures plant == ControlScan(old(plant), i)
      ensures alarms.logicErrors[..] == HandleAll(old(alarms.logicErrors[..]), alarms.levels, ControlRequest(i))
    {
      hide Ramp, HandleAll;
      if plant.iState == 0 && i.start == 1.0 { plant := plant.(iState := 1); }
      UpdateAlarms(i);
      if plant.iState == 1 || plant.iState == 4 {
        UpdateRamp();
      } else if plant.iState == 6 {
        if i.openReg == 1.0 { plant := plant.(iState := 7); }
        else if i.confirm == 1.0 { plant := plant.(pwsp := i.powerSp); }
      } else if plant.iState == 7 {
        if i.powerReg == 1.0 { plant := plant.(iState := 6); }
        else { plant := plant.(opsp := i.openSp); }
      }
      plant := plant.(stateOut := plant.iState);
    }

    method UpdateRamp()
      modifies this
      ensures plant == Ramp(old(plant))
    {
      var speed := plant.f1 + STEP;
      if speed > 80.0 { speed := 0.0; }
      plant := plant.(f1 := speed, f2 := speed, f3 := speed);
      plant := plant.(n0 := speed < 0.5, brake := speed < 10.0, excite := speed > 50.0, sync := speed > 59.0);
      if speed > 59.0 { plant := plant.(ssp := 60.0, iState := 4); }
      plant := plant.(noOverspeed := !(speed > 62.0), noHighOverspeed := !(speed > 70.0));
      if speed > 65.0 { plant := plant.(pwsp := 50.0, iState := 6); }
    }
  }

  lemma NoRequest(words: seq<bv32>, levels: seq<nat>)
    requires |words| == NumWords(|levels|) && AL_MINOR < |levels|
    ensures HandleAll(words, levels, []) == words
  {}

  lemma OneHandled(words: seq<bv32>, levels: seq<nat>, r: Request)
    requires |words| == NumWords(|levels|) && AL_MINOR < |levels|
    ensures HandleAll(words, levels, [r]) == Handle(words, levels, r)
  {
    assert [r][..0] == [];
  }
}
