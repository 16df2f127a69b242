// The results about the button protocol: whole runs, the exact limit of the assumption on
// plain writes, and the drain of every outstanding button.
module ButtonResults {
  import opened CommonTypes
  import opened WriteProtocol
  import opened ButtonSafety

  // ------------------------------------------------------------ acknowledged values

  function Acks(log: seq<Event>, a: IOAddr): seq<bool> {
    if log == [] then []
    else
      var e := log[|log| - 1];
      Acks(log[..|log| - 1], a) +
      (if e.Succeeded? && e.req.owner.Button? && e.req.addr == a then [e.req.val != FLOAT_ZERO] else [])
  }

  function Presses(log: seq<Event>, a: IOAddr): nat {
    if log == [] then 0
    else
      var e := log[|log| - 1];
      Presses(log[..|log| - 1], a) + (if e.Pressed? && e.token.addr == a then 1 else 0)
  }

  // The reports that a press has failed; those of plain writes at the same address are others.
  function Reports(log: seq<Event>, a: IOAddr): nat {
    if log == [] then 0
    else
      var init, e := log[..|log| - 1], log[|log| - 1];
      Reports(init, a) + (if e.WriteError? && e.addr == a && LastIsOwn(init) then 1 else 0)
  }

  // Pairs (v, !v), and one trailing v while the release is due.
  predicate Paired(acks: seq<bool>, p: Phase) {
    && (forall k | 0 <= k < |acks| - 1 && k % 2 == 0 :: acks[k + 1] == !acks[k])
    && (if p.Two? then |acks| % 2 == 1 && acks[|acks| - 1] == !p.v else |acks| % 2 == 0)
  }

  lemma {:induction false} LegalLife(log: seq<Event>, a: IOAddr)
    requires PhaseOf(log, a) != Wrong
    ensures Paired(Acks(log, a), PhaseOf(log, a))
    ensures Presses(log, a) == |Acks(log, a)| / 2 + Reports(log, a) + (if PhaseOf(log, a).Rest? then 0 else 1)
  {
    if log != [] {
      var n := |log| - 1;
      LegalLife(log[..n], a);
      var e := log[n];
      if e.Succeeded? && e.req.owner.Button? && e.req.addr == a {
        var before := Acks(log[..n], a);
        var after := Acks(log, a);
        assert after == before + [e.req.val != FLOAT_ZERO];
        forall k | 0 <= k < |after| - 1 && k % 2 == 0 ensures after[k + 1] == !after[k] {
          assert before[k] == after[k];
        }
      }
    }
  }

  // Safety over whole runs: phase tables, live tokens, acknowledged values and press accounting.
  lemma ButtonRuns(cfg: Config, run: seq<Step>, a: IOAddr)
    requires ValidConfig(cfg) && Feasible(cfg, START, run) && HarmlessRun(cfg, START, run)
    ensures var s := Exec(cfg, START, run);
      && !(a in s.first && a in s.second)
      && Live(s)[Token(a, true)] + Live(s)[Token(a, false)] == (if a in s.first || a in s.second then 1 else 0)
      && (a in s.first ==> InQueue(s.pending)[Token(a, s.first[a])] == 1)
      && (a in s.second ==> Live(s)[Token(a, s.second[a])] == 1)
      && Paired(Acks(s.log, a), TablePhase(s, a))
      && Presses(s.log, a) == |Acks(s.log, a)| / 2 + Reports(s.log, a) + InFlight(s, a)
  {
    StartHolds(cfg);
    RunKeeps(cfg, START, run);
    var s := Exec(cfg, START, run);
    assert PhaseOf(s.log, a) == TablePhase(s, a);
    LegalLife(s.log, a);
    var t, f := Token(a, true), Token(a, false);
    assert Live(s)[t] == if Wanted(s.first, s.second, t) then 1 else 0;
    assert Live(s)[f] == if Wanted(s.first, s.second, f) then 1 else 0;
    if a in s.first { assert Token(a, s.first[a]) !in s.retry; }
  }

  function InFlight(s: Hmi, a: IOAddr): nat {
    if a in s.first || a in s.second then 1 else 0
  }

  // Every accepted request is answered once, by a success or a time-out, or still pending; a
  // time-out not forced by stop or close is past the request's own limit; and a driver that is
  // stopped or closed has nothing pending and no connection. This holds of every run.
  lemma AnsweredOnce(cfg: Config, run: seq<Step>)
    requires Feasible(cfg, START, run)
    ensures var s := Exec(cfg, START, run);
      && AcceptedReqs(s.log) == multiset(s.pending) + AnsweredReqs(s.log)
      && (forall e | e in s.log && e.TimedOut? && !e.all :: e.at - e.req.stamp > e.req.limit)
      && (s.state == Stopped || s.state == UnInit ==> s.pending == [] && !s.connected)
  {
    RunAnswers(cfg, START, run);
  }

  // ------------------------------------------------------------ plain writes on a button's address

  lemma PlainTimeOutInTable(cfg: Config, s: Hmi, a: IOAddr)
    requires Tables(cfg, s) && OneToken(s) && (a in s.first || a in s.second)
    ensures !OneToken(OnTimeOut(cfg, s, a))
  {
    var s' := OnTimeOut(cfg, s, a);
    var t := Token(a, if a in s.first then s.first[a] else s.second[a]);
    assert Live(s)[t] == if Wanted(s.first, s.second, t) then 1 else 0;
    assert Live(s') == if a in s.first then Live(s) else Live(s) + multiset{t};
    assert Live(s')[t] != if Wanted(s'.first, s'.second, t) then 1 else 0;
  }

  // Any step keeps the token discipline exactly when it is not the time-out of a plain request at
  // the address of a button being pressed.
  lemma StepIsSafeIff(cfg: Config, s: Hmi, e: Step)
    requires ValidConfig(cfg) && TokenInv(cfg, s) && Enabled(s, e)
    ensures OneToken(Apply(cfg, s, e)) <==> Harmless(s, e)
  {
    if Harmless(s, e) {
      TokensStep(cfg, s, e);
    } else {
      var r := s.pending[e.i];
      var s1 := s.(pending := Without(s.pending, e.i), log := s.log + [TimedOut(r, e.now, e.all)]);
      TakeOne(s.pending, e.i);
      InQueueSingle(r);
      assert Live(s1) == Live(s);
      PlainTimeOutInTable(cfg, s1, r.addr);
    }
  }

  ghost predicate TokensKept(cfg: Config, s: Hmi, run: seq<Step>)
    requires Feasible(cfg, s, run)
    decreases |run|
  {
    OneToken(s) && (run == [] || TokensKept(cfg, Apply(cfg, s, run[0]), run[1..]))
  }

  lemma {:induction false} TokensKeptFrom(cfg: Config, s: Hmi, run: seq<Step>)
    requires ValidConfig(cfg) && TokenInv(cfg, s) && Feasible(cfg, s, run)
    ensures TokensKept(cfg, s, run) <==> HarmlessRun(cfg, s, run)
    decreases |run|
  {
    hide OneToken, Harmless;
    if run != [] {
      StepIsSafeIff(cfg, s, run[0]);
      var s' := Apply(cfg, s, run[0]);
      if Harmless(s, run[0]) {
        TokensStep(cfg, s, run[0]);
        TokensKeptFrom(cfg, s', run[1..]);
      } else {
        assert !TokensKept(cfg, s', run[1..]);
      }
    }
  }

  // Over whole runs: in every state one live token for each button in a table and none for the
  // others, if and only if no plain request times out at the address of a button being pressed.
  lemma TokensKeptIff(cfg: Config, run: seq<Step>)
    requires ValidConfig(cfg) && Feasible(cfg, START, run)
    ensures TokensKept(cfg, START, run) <==> HarmlessRun(cfg, START, run)
  {
    StartHolds(cfg);
    TokensKeptFrom(cfg, START, run);
  }

  // ---- screens that keep buttons and plain writes apart are always harmless

  ghost predicate KeptApart(buttons: set<IOAddr>, s: Hmi) {
    && s.first.Keys + s.second.Keys <= buttons
    && forall r | r in s.pending && r.owner.Plain? :: r.addr !in buttons
  }

  lemma StepKeepsApart(cfg: Config, buttons: set<IOAddr>, s: Hmi, e: Step)
    requires KeptApart(buttons, s) && Enabled(s, e) && Respects(cfg, buttons, e)
    ensures Harmless(s, e) && KeptApart(buttons, Apply(cfg, s, e))
  {
    if e.Ack? || e.Expire? { TakingKeepsApart(cfg, buttons, s, e); }
  }

  lemma TakingKeepsApart(cfg: Config, buttons: set<IOAddr>, s: Hmi, e: Step)
    requires KeptApart(buttons, s) && Enabled(s, e) && (e.Ack? || e.Expire?)
    ensures Harmless(s, e) && KeptApart(buttons, Apply(cfg, s, e))
  {
    hide InQueue, Without;
    TakeOne(s.pending, e.i);
    assert s.pending[e.i] in s.pending;
  }

  lemma {:induction false} RespectfulRunsAreHarmless(cfg: Config, buttons: set<IOAddr>, s: Hmi, run: seq<Step>)
    requires KeptApart(buttons, s) && Feasible(cfg, s, run) && forall e | e in run :: Respects(cfg, buttons, e)
    ensures HarmlessRun(cfg, s, run)
    decreases |run|
  {
    if run != [] {
      StepKeepsApart(cfg, buttons, s, run[0]);
      RespectfulRunsAreHarmless(cfg, buttons, Apply(cfg, s, run[0]), run[1..]);
    }
  }

  const VALVE := IOAddr(0, 0, 1, 0)
  const VALVE_CONFIG := Config(map[0 := VALVE], map[], map[VALVE := 0])

  // A run in which one screen writes a button's variable plainly: its time-out takes the press
  // off the table, the press is then acknowledged and its release never sent.
  const LOST_RELEASE: seq<Step> := [
    Init(0, 1), Start, Connect, WriteVar(0, FLOAT_ONE, 0), Press(0, true, 900),
    Expire(0, 1001, false), Ack(0)]

  lemma ExecCons(cfg: Config, s: Hmi, e: Step, rest: seq<Step>)
    requires Enabled(s, e) && Feasible(cfg, Apply(cfg, s, e), rest)
    ensures Feasible(cfg, s, [e] + rest) && Exec(cfg, s, [e] + rest) == Exec(cfg, Apply(cfg, s, e), rest)
  {
    assert ([e] + rest)[1..] == rest;
  }

  const LINK_UP := Hmi(Running, true, 0, 1, [], map[], map[], [], [])
  const PLAIN := PlainReq(VALVE, false, false, FLOAT_ONE, 0)
  const PRESS := ButtonReq(Token(VALVE, true), 900)
  const WRITTEN := LINK_UP.(pending := [PLAIN], log := [Accepted(PLAIN)])
  const PRESSED := LINK_UP.(pending := [PLAIN, PRESS], first := map[VALVE := true],
                            log := [Accepted(PLAIN), Accepted(PRESS), Pressed(Token(VALVE, true))])
  const EXPIRED := LINK_UP.(pending := [PRESS],
                            log := PRESSED.log + [TimedOut(PLAIN, 1001, false), WriteError(VALVE, 0)])
  const ACKED := LINK_UP.(log := EXPIRED.log + [Succeeded(PRESS)])

  lemma LostReleaseEnd()
    ensures Feasible(VALVE_CONFIG, PRESSED, LOST_RELEASE[5..])
    ensures Exec(VALVE_CONFIG, PRESSED, LOST_RELEASE[5..]) == ACKED
  {
    var cfg := VALVE_CONFIG;
    assert Without([PRESS], 0) == [] && Without([PLAIN, PRESS], 0) == [PRESS];
    assert Apply(cfg, EXPIRED, Ack(0)) == ACKED;
    ExecCons(cfg, EXPIRED, Ack(0), []);
    assert Apply(cfg, PRESSED, Expire(0, 1001, false)) == EXPIRED;
    ExecCons(cfg, PRESSED, Expire(0, 1001, false), [Ack(0)]);
  }

  lemma LostReleaseMiddle()
    ensures Feasible(VALVE_CONFIG, LINK_UP, LOST_RELEASE[3..])
    ensures Exec(VALVE_CONFIG, LINK_UP, LOST_RELEASE[3..]) == ACKED
  {
    var cfg := VALVE_CONFIG;
    LostReleaseEnd();
    assert Apply(cfg, WRITTEN, Press(0, true, 900)) == PRESSED;
    ExecCons(cfg, WRITTEN, Press(0, true, 900), LOST_RELEASE[5..]);
    assert Apply(cfg, LINK_UP, WriteVar(0, FLOAT_ONE, 0)) == WRITTEN;
    ExecCons(cfg, LINK_UP, WriteVar(0, FLOAT_ONE, 0), LOST_RELEASE[4..]);
  }

  lemma LostReleaseRun()
    ensures Feasible(VALVE_CONFIG, START, LOST_RELEASE) && Exec(VALVE_CONFIG, START, LOST_RELEASE) == ACKED
  {
    var cfg := VALVE_CONFIG;
    LostReleaseMiddle();
    ExecCons(cfg, LINK_UP.(connected := false), Connect, LOST_RELEASE[3..]);
    ExecCons(cfg, LINK_UP.(connected := false, state := Stopped), Start, LOST_RELEASE[2..]);
    ExecCons(cfg, START, Init(0, 1), LOST_RELEASE[1..]);
  }

  lemma PlainWriteLosesRelease()
    ensures Feasible(VALVE_CONFIG, START, LOST_RELEASE)
    ensures var s := Exec(VALVE_CONFIG, START, LOST_RELEASE);
      Acks(s.log, VALVE) == [true] && s.first == map[] && s.second == map[] && s.pending == [] && s.retry == []
  {
    hide Feasible, Exec;
    LostReleaseRun();
    NoAcks(EXPIRED.log, VALVE);
    assert ACKED.log[..|ACKED.log| - 1] == EXPIRED.log;
  }

  lemma {:induction false} NoAcks(log: seq<Event>, a: IOAddr)
    requires forall e | e in log :: !e.Succeeded?
    ensures Acks(log, a) == []
  {
    if log != [] { NoAcks(log[..|log| - 1], a); }
  }

  // ------------------------------------------------------------ the drain

  // Three for a first phase, two for a token to be written again, one for a queued request.
  function Measure(s: Hmi): nat {
    |s.pending| + 2 * |s.first| + 2 * |s.retry|
  }

  // The steps that serve a button or a request.
  predicate Serves(s: Hmi, e: Step) {
    match e
    case Ack(_) => Enabled(s, e)
    case Pump(_) => s.retry != [] && Accepts(s, s.retry[0].addr)
    case _ => false
  }

  // What the driver does to its link, at the end of every read cycle among others.
  predicate LinkEvent(s: Hmi, e: Step) {
    (e.Fault? || e.Disconnect? || e.Connect?) && Enabled(s, e)
  }

  lemma DrainStep(cfg: Config, s: Hmi, e: Step)
    requires Serves(s, e) || LinkEvent(s, e)
    ensures Measure(Apply(cfg, s, e)) == Measure(s) - if Serves(s, e) then 1 else 0
  {
    if e.Ack? && s.pending[e.i].owner.Button? {
      var r := s.pending[e.i];
      SuccessMeasure(s.(pending := Without(s.pending, e.i), log := s.log + [Succeeded(r)]), r.addr);
    }
  }

  lemma SuccessMeasure(s: Hmi, a: IOAddr)
    ensures Measure(OnSuccess(s, a)) == Measure(s)
  {
    if a in s.first {
      var first := s.first - {a};
      assert first.Keys == s.first.Keys - {a};
      assert |first| == |first.Keys|;
    }
  }

  lemma {:induction false} SomeTop(p: seq<Req>) returns (i: nat)
    requires p != []
    ensures Top(p, i)
  {
    i := 0;
    var n := 1;
    while n < |p|
      invariant 1 <= n <= |p| && i < n && forall j | 0 <= j < n :: p[j].limit <= p[i].limit
    {
      if p[i].limit < p[n].limit { i := n; }
      n := n + 1;
    }
  }

  // The driver has been started, and the buttons in the tables are in its map.
  predicate AllServed(s: Hmi) {
    && (s.state == Running || s.state == COMError)
    && forall a | a in s.first.Keys + s.second.Keys :: s.numRO < a.channel <= s.numIO + s.numRO
  }

  // No live token means no button in either table.
  lemma NoTokenNoButton(s: Hmi)
    requires OneToken(s) && s.pending == [] && s.retry == []
    ensures s.first == map[] && s.second == map[]
  {
    forall a ensures a !in s.first && a !in s.second {
      var t := Token(a, a in s.first && s.first[a]);
      var u := Token(a, a in s.second && s.second[a]);
      assert Live(s)[t] == if Wanted(s.first, s.second, t) then 1 else 0;
      assert Live(s)[u] == if Wanted(s.first, s.second, u) then 1 else 0;
    }
  }

  predicate AtRest(s: Hmi) {
    s.first == map[] && s.second == map[] && s.pending == [] && s.retry == []
  }

  // With the link up, an acknowledgement or a pump is possible until everything is at rest.
  lemma QuietIsAtRest(s: Hmi)
    requires OneToken(s) && AllServed(s) && s.state == Running && s.connected
    ensures (exists e :: Serves(s, e)) <==> !AtRest(s)
  {
    if s.pending != [] {
      var i := SomeTop(s.pending);
      assert Serves(s, Ack(i));
    } else if s.retry != [] {
      assert s.retry[0] in s.retry;
      assert Serves(s, Pump(0));
    } else {
      NoTokenNoButton(s);
    }
  }

  predicate DrainOnly(cfg: Config, s: Hmi, run: seq<Step>)
    requires Feasible(cfg, s, run)
    decreases |run|
  {
    run == [] || ((Serves(s, run[0]) || LinkEvent(s, run[0])) && DrainOnly(cfg, Apply(cfg, s, run[0]), run[1..]))
  }

  // The serving steps among them.
  function Served(cfg: Config, s: Hmi, run: seq<Step>): nat
    requires Feasible(cfg, s, run)
    decreases |run|
  {
    if run == [] then 0 else (if Serves(s, run[0]) then 1 else 0) + Served(cfg, Apply(cfg, s, run[0]), run[1..])
  }

  lemma StaysServed(cfg: Config, s: Hmi, e: Step)
    requires TokenInv(cfg, s) && AllServed(s) && (Serves(s, e) || LinkEvent(s, e))
    ensures AllServed(Apply(cfg, s, e))
  {
    hide InQueue, Without, OneToken, Tables, Requests;
    if e.Ack? { AckStaysServed(cfg, s, e.i); }
  }

  lemma AckStaysServed(cfg: Config, s: Hmi, i: nat)
    requires TokenInv(cfg, s) && AllServed(s) && Enabled(s, Ack(i))
    ensures AllServed(Apply(cfg, s, Ack(i)))
  {
    hide InQueue, Without, OneToken, Tables, Requests;
    var r := s.pending[i];
    if r.owner.Button? {
      QueuedIsWanted(s, i);
      assert OnSuccess(s, r.addr).second.Keys <= s.first.Keys + s.second.Keys;
    }
  }

  // However acknowledgements and pumps are interleaved with faults and reconnections, each serving
  // step takes one off the measure and nothing else moves it: there are never more of them than
  // the measure, and once there have been as many, every button is at rest.
  lemma {:induction false} DrainRuns(cfg: Config, s: Hmi, run: seq<Step>)
    requires ValidConfig(cfg) && TokenInv(cfg, s) && AllServed(s)
    requires Feasible(cfg, s, run) && DrainOnly(cfg, s, run)
    ensures Measure(Exec(cfg, s, run)) == Measure(s) - Served(cfg, s, run)
    ensures TokenInv(cfg, Exec(cfg, s, run)) && AllServed(Exec(cfg, s, run))
    ensures Served(cfg, s, run) == Measure(s) <==> AtRest(Exec(cfg, s, run))
    decreases |run|
  {
    if run == [] {
      if Measure(s) == 0 { NoTokenNoButton(s); }
    } else {
      DrainStep(cfg, s, run[0]);
      TokensStep(cfg, s, run[0]);
      StaysServed(cfg, s, run[0]);
      DrainRuns(cfg, Apply(cfg, s, run[0]), run[1..]);
    }
  }

  // Such a run exists from every state of a driver that has been started, its link up or not.
  lemma {:induction false} DrainExists(cfg: Config, s: Hmi) returns (run: seq<Step>)
    requires ValidConfig(cfg) && TokenInv(cfg, s) && AllServed(s)
    ensures Feasible(cfg, s, run) && DrainOnly(cfg, s, run)
    ensures AtRest(Exec(cfg, s, run))
    decreases Measure(s), if s.state == Running && s.connected then 0 else 1
  {
    run := [];
    if !AtRest(s) {
      var e := Connect;
      if s.state == Running && s.connected {
        QuietIsAtRest(s);
        e :| Serves(s, e);
      }
      DrainStep(cfg, s, e);
      TokensStep(cfg, s, e);
      StaysServed(cfg, s, e);
      var rest := DrainExists(cfg, Apply(cfg, s, e));
      run := [e] + rest;
      assert run[1..] == rest;
    }
    DrainRuns(cfg, s, run);
  }
}
