// What every reachable state and every run of the write side keeps: one live token for each
// button being pressed, the phases an observer can see, and one answer for each request.
module ButtonSafety {
  import opened CommonTypes
  import opened WriteProtocol

  // The button tokens waiting in the driver's queue.
  function InQueue(p: seq<Req>): multiset<Token> {
    if p == [] then multiset{}
    else
      var r := p[|p| - 1];
      InQueue(p[..|p| - 1]) + (if r.owner.Button? then multiset{TokenOf(r)} else multiset{})
  }

  function Live(s: Hmi): multiset<Token> {
    InQueue(s.pending) + multiset(s.retry)
  }

  predicate Wanted(first: map<IOAddr, bool>, second: map<IOAddr, bool>, t: Token) {
    || (t.addr in first && first[t.addr] == t.val)
    || (t.addr in second && second[t.addr] == t.val)
  }

  ghost predicate Exactly(first: map<IOAddr, bool>, second: map<IOAddr, bool>, live: multiset<Token>) {
    forall t :: live[t] == if Wanted(first, second, t) then 1 else 0
  }

  // A button is in at most one table, and known to the image.
  ghost predicate Tables(cfg: Config, s: Hmi) {
    s.first.Keys !! s.second.Keys && s.first.Keys + s.second.Keys <= cfg.vars.Keys
  }

  // Exactly one live token, with the value the table holds, for a button in a table; none
  // otherwise; and the token of a first phase is in the driver's queue.
  ghost predicate OneToken(s: Hmi) {
    && Exactly(s.first, s.second, Live(s))
    && (forall t | t in s.retry :: t.addr in s.second)
  }

  // A button's request carries its token's value and nothing else.
  ghost predicate Requests(s: Hmi) {
    forall r | r in s.pending && r.owner.Button? :: r == ButtonReq(TokenOf(r), r.stamp)
  }

  // The one step that can upset a button: the time-out of a plain request at the address of a
  // button being pressed, which the image takes for the button's own.
  predicate Harmless(s: Hmi, e: Step)
    requires Enabled(s, e)
  {
    e.Expire? && s.pending[e.i].owner.Plain? ==> s.pending[e.i].addr !in s.first && s.pending[e.i].addr !in s.second
  }

  ghost predicate Idle(s: Hmi) {
    s.state == Stopped || s.state == UnInit ==> s.pending == [] && !s.connected
  }

  // ------------------------------------------------------------ what an observer sees

  datatype Phase = Rest | One(v: bool) | Two(v: bool) | Wrong

  // The event is the time-out of a button's request: a report that follows it is the button's own.
  predicate ButtonTimeOut(e: Event) {
    e.TimedOut? && e.req.owner.Button?
  }

  function NextPhase(p: Phase, a: IOAddr, own: bool, e: Event): Phase {
    match e
    case Pressed(t) => if t.addr != a then p else if p.Rest? then One(t.val) else Wrong
    case Succeeded(r) =>
      if r.addr != a || r.owner.Plain? then p
      else if p.One? && r.val == FloatOf(p.v) then Two(!p.v)
      else if p.Two? && r.val == FloatOf(p.v) then Rest
      else Wrong
    case WriteError(b, _) => if b != a || !own then p else if p.One? then Rest else Wrong
    case _ => p
  }

  function LastIsOwn(log: seq<Event>): bool {
    log != [] && ButtonTimeOut(log[|log| - 1])
  }

  // The one legal life of a button: press v, acknowledge v, acknowledge !v; or press v, report
  // the failure. Anything else is Wrong, for ever. Reports of plain requests do not count.
  function PhaseOf(log: seq<Event>, a: IOAddr): Phase {
    if log == [] then Rest
    else NextPhase(PhaseOf(log[..|log| - 1], a), a, LastIsOwn(log[..|log| - 1]), log[|log| - 1])
  }

  function TablePhase(s: Hmi, a: IOAddr): Phase {
    if a in s.first then One(s.first[a]) else if a in s.second then Two(s.second[a]) else Rest
  }

  ghost predicate Observed(s: Hmi) {
    forall a :: PhaseOf(s.log, a) == TablePhase(s, a)
  }

  // ------------------------------------------------------------ one answer for each request

  function AcceptedReqs(log: seq<Event>): multiset<Req> {
    if log == [] then multiset{}
    else
      var e := log[|log| - 1];
      AcceptedReqs(log[..|log| - 1]) + (if e.Accepted? then multiset{e.req} else multiset{})
  }

  function AnsweredReqs(log: seq<Event>): multiset<Req> {
    if log == [] then multiset{}
    else
      var e := log[|log| - 1];
      AnsweredReqs(log[..|log| - 1]) + (if e.Succeeded? || e.TimedOut? then multiset{e.req} else multiset{})
  }

  ghost predicate Answers(s: Hmi) {
    AcceptedReqs(s.log) == multiset(s.pending) + AnsweredReqs(s.log)
  }

  ghost predicate HonestTimeOuts(log: seq<Event>) {
    forall e | e in log && e.TimedOut? :: Due(e.req, e.at, e.all)
  }

  ghost predicate Inv(cfg: Config, s: Hmi) {
    && TokenInv(cfg, s)
    && Observed(s)
    && AnswerInv(s)
  }

  // ------------------------------------------------------------ the queue as a bag

  lemma {:induction false} InQueueConcat(p: seq<Req>, q: seq<Req>)
    ensures InQueue(p + q) == InQueue(p) + InQueue(q)
  {
    if q == [] {
      assert p + q == p;
    } else {
      var k := |q| - 1;
      assert (p + q)[..|p + q| - 1] == p + q[..k];
      InQueueConcat(p, q[..k]);
    }
  }

  lemma {:induction false} InQueueSingle(r: Req)
    ensures InQueue([r]) == if r.owner.Button? then multiset{TokenOf(r)} else multiset{}
  {
    assert [r][..0] == [];
  }

  lemma {:induction false} TakeOne(p: seq<Req>, i: nat)
    requires i < |p|
    ensures multiset(p) == multiset(Without(p, i)) + multiset{p[i]}
    ensures InQueue(p) == InQueue(Without(p, i)) + InQueue([p[i]])
    ensures forall r | r in Without(p, i) :: r in p
  {
    assert p == p[..i] + [p[i]] + p[i + 1..];
    InQueueConcat(p[..i] + [p[i]], p[i + 1..]);
    InQueueConcat(p[..i], [p[i]]);
    InQueueConcat(p[..i], p[i + 1..]);
  }

  // ------------------------------------------------------------ tables and tokens together

  lemma ExactlyPress(first: map<IOAddr, bool>, second: map<IOAddr, bool>, live: multiset<Token>, t: Token)
    requires Exactly(first, second, live) && t.addr !in first && t.addr !in second
    ensures Exactly(first[t.addr := t.val], second, live + multiset{t})
  {
    forall u ensures (live + multiset{t})[u] == if Wanted(first[t.addr := t.val], second, u) then 1 else 0 {
      assert live[u] == if Wanted(first, second, u) then 1 else 0;
    }
  }

  lemma ExactlyTurn(first: map<IOAddr, bool>, second: map<IOAddr, bool>, live: multiset<Token>, a: IOAddr)
    requires Exactly(first, second, live) && a in first && a !in second
    ensures var v := first[a];
      Exactly(first - {a}, second[a := !v], live - multiset{Token(a, v)} + multiset{Token(a, !v)})
  {
    var v := first[a];
    var live' := live - multiset{Token(a, v)} + multiset{Token(a, !v)};
    forall u ensures live'[u] == if Wanted(first - {a}, second[a := !v], u) then 1 else 0 {
      assert live[u] == if Wanted(first, second, u) then 1 else 0;
    }
  }

  lemma ExactlyDropFirst(first: map<IOAddr, bool>, second: map<IOAddr, bool>, live: multiset<Token>, a: IOAddr)
    requires Exactly(first, second, live) && a in first && a !in second
    ensures Exactly(first - {a}, second, live - multiset{Token(a, first[a])})
  {
    var live' := live - multiset{Token(a, first[a])};
    forall u ensures live'[u] == if Wanted(first - {a}, second, u) then 1 else 0 {
      assert live[u] == if Wanted(first, second, u) then 1 else 0;
    }
  }

  lemma ExactlyDropSecond(first: map<IOAddr, bool>, second: map<IOAddr, bool>, live: multiset<Token>, a: IOAddr)
    requires Exactly(first, second, live) && a in second && a !in first
    ensures Exactly(first, second - {a}, live - multiset{Token(a, second[a])})
  {
    var live' := live - multiset{Token(a, second[a])};
    forall u ensures live'[u] == if Wanted(first, second - {a}, u) then 1 else 0 {
      assert live[u] == if Wanted(first, second, u) then 1 else 0;
    }
  }

  ghost predicate TokenInv(cfg: Config, s: Hmi) {
    Tables(cfg, s) && OneToken(s) && Requests(s)
  }

  lemma Pushed(s: Hmi, r: Req)
    ensures InQueue(s.pending + [r])
      == InQueue(s.pending) + (if r.owner.Button? then multiset{TokenOf(r)} else multiset{})
  {
    InQueueConcat(s.pending, [r]);
    InQueueSingle(r);
  }

  lemma TokensPlain(cfg: Config, s: Hmi, r: Req)
    requires TokenInv(cfg, s) && r.owner.Plain?
    ensures TokenInv(cfg, OnPlain(s, r))
  {
    Pushed(s, r);
    assert Accepts(s, r.addr) ==> Live(OnPlain(s, r)) == Live(s);
  }

  lemma TokensPress(cfg: Config, s: Hmi, id: nat, val: bool, now: int)
    requires ValidConfig(cfg) && TokenInv(cfg, s)
    ensures TokenInv(cfg, OnPress(cfg, s, id, val, now))
  {
    var s' := OnPress(cfg, s, id, val, now);
    if s' != s {
      var t := Token(cfg.slaveVars[id], val);
      Pushed(s, ButtonReq(t, now));
      assert TokenOf(ButtonReq(t, now)) == t;
      assert Live(s') == Live(s) + multiset{t};
      ExactlyPress(s.first, s.second, Live(s), t);
    }
  }

  lemma TokensPump(cfg: Config, s: Hmi, now: int)
    requires TokenInv(cfg, s) && s.retry != []
    ensures TokenInv(cfg, OnPump(s, now))
  {
    var t := s.retry[0];
    Pushed(s, ButtonReq(t, now));
    assert TokenOf(ButtonReq(t, now)) == t;
    assert s.retry == [t] + s.retry[1..];
    assert Live(OnPump(s, now)) == Live(s);
    assert t.addr in s.second;
  }

  // A token found in the driver's queue belongs to a button in one of the tables.
  lemma QueuedIsWanted(s: Hmi, i: nat)
    requires OneToken(s) && i < |s.pending| && s.pending[i].owner.Button?
    ensures Wanted(s.first, s.second, TokenOf(s.pending[i]))
    ensures TokenOf(s.pending[i]) !in s.retry
    ensures InQueue(s.pending) == InQueue(Without(s.pending, i)) + multiset{TokenOf(s.pending[i])}
  {
    var t := TokenOf(s.pending[i]);
    TakeOne(s.pending, i);
    InQueueSingle(s.pending[i]);
    assert Live(s)[t] == if Wanted(s.first, s.second, t) then 1 else 0;
  }

  // Between taking a button request from the queue and running its call-back.
  ghost predicate InHand(cfg: Config, s: Hmi, t: Token) {
    && Tables(cfg, s)
    && Requests(s)
    && Wanted(s.first, s.second, t)
    && Exactly(s.first, s.second, Live(s) + multiset{t})
    && (forall u | u in s.retry :: u.addr in s.second && u.addr != t.addr)
  }

  lemma Taken(cfg: Config, s: Hmi, i: nat, log: seq<Event>)
    requires TokenInv(cfg, s) && i < |s.pending|
    ensures var s1 := s.(pending := Without(s.pending, i), log := log);
      if s.pending[i].owner.Plain? then TokenInv(cfg, s1)
      else InHand(cfg, s1, TokenOf(s.pending[i]))
  {
    var r := s.pending[i];
    var s1 := s.(pending := Without(s.pending, i), log := log);
    TakeOne(s.pending, i);
    InQueueSingle(r);
    assert r in s.pending;
    if r.owner.Plain? {
      assert Live(s1) == Live(s);
    } else {
      QueuedIsWanted(s, i);
      assert Live(s1) + multiset{TokenOf(r)} == Live(s);
      forall u | u in s.retry ensures u.addr != TokenOf(r).addr {
        assert Live(s)[u] == if Wanted(s.first, s.second, u) then 1 else 0;
      }
    }
  }

  lemma TokensSuccess(cfg: Config, s: Hmi, t: Token)
    requires InHand(cfg, s, t)
    ensures TokenInv(cfg, OnSuccess(s, t.addr))
  {
    hide Exactly, InQueue;
    var s' := OnSuccess(s, t.addr);
    var live := Live(s) + multiset{t};
    if t.addr in s.first {
      ExactlyTurn(s.first, s.second, live, t.addr);
      assert Live(s') == live - multiset{t} + multiset{Token(t.addr, !t.val)};
    } else {
      ExactlyDropSecond(s.first, s.second, live, t.addr);
      assert Live(s') == live - multiset{t};
    }
  }

  lemma TokensTimeOut(cfg: Config, s: Hmi, t: Token)
    requires InHand(cfg, s, t)
    ensures TokenInv(cfg, OnTimeOut(cfg, s, t.addr))
  {
    var s' := OnTimeOut(cfg, s, t.addr);
    var live := Live(s) + multiset{t};
    if t.addr in s.first {
      ExactlyDropFirst(s.first, s.second, live, t.addr);
      assert Live(s') == live - multiset{t};
    } else {
      assert Live(s') == live;
    }
  }

  lemma TokensPlainTimeOut(cfg: Config, s: Hmi, a: IOAddr)
    requires TokenInv(cfg, s) && a !in s.first && a !in s.second
    ensures TokenInv(cfg, OnTimeOut(cfg, s, a))
  {
    assert Live(OnTimeOut(cfg, s, a)) == Live(s);
  }

  lemma TokensStep(cfg: Config, s: Hmi, e: Step)
    requires ValidConfig(cfg) && TokenInv(cfg, s)
    requires Enabled(s, e) && Harmless(s, e)
    ensures TokenInv(cfg, Apply(cfg, s, e))
  {
    match e
    case Press(id, val, now) => TokensPress(cfg, s, id, val, now);
    case Pump(now) => TokensPump(cfg, s, now);
    case WriteVar(id, v, now) =>
      if id in cfg.slaveVars { TokensPlain(cfg, s, PlainReq(cfg.slaveVars[id], false, false, v, now)); }
    case ForceVar(id, v, bit, now) =>
      if id in cfg.fieldVars { TokensPlain(cfg, s, PlainReq(cfg.fieldVars[id], true, bit, v, now)); }
    case Ack(i) =>
      var r := s.pending[i];
      Taken(cfg, s, i, s.log + [Succeeded(r)]);
      if r.owner.Button? {
        TokensSuccess(cfg, s.(pending := Without(s.pending, i), log := s.log + [Succeeded(r)]), TokenOf(r));
      }
    case Expire(i, now, all) =>
      var r := s.pending[i];
      var s1 := s.(pending := Without(s.pending, i), log := s.log + [TimedOut(r, now, all)]);
      Taken(cfg, s, i, s1.log);
      if r.owner.Button? {
        TokensTimeOut(cfg, s1, TokenOf(r));
      } else {
        TokensPlainTimeOut(cfg, s1, r.addr);
      }
    case _ => assert Live(Apply(cfg, s, e)) == Live(s);
  }

  // ------------------------------------------------------------ the observer's view

  lemma Appended(log: seq<Event>, e: Event)
    ensures (log + [e])[..|log + [e]| - 1] == log
    ensures AcceptedReqs(log + [e]) == AcceptedReqs(log) + (if e.Accepted? then multiset{e.req} else multiset{})
    ensures AnsweredReqs(log + [e])
      == AnsweredReqs(log) + (if e.Succeeded? || e.TimedOut? then multiset{e.req} else multiset{})
  {
    assert (log + [e])[..|log + [e]| - 1] == log;
  }

  // The phase an observer computes follows the table when each event moves both alike.
  lemma SeesOne(s: Hmi, s': Hmi, e: Event)
    requires Observed(s) && s'.log == s.log + [e]
    requires forall a :: TablePhase(s', a) == NextPhase(TablePhase(s, a), a, LastIsOwn(s.log), e)
    ensures Observed(s')
  {
    Appended(s.log, e);
  }

  lemma SeesPress(cfg: Config, s: Hmi, id: nat, val: bool, now: int)
    requires Observed(s)
    ensures Observed(OnPress(cfg, s, id, val, now))
  {
    var s' := OnPress(cfg, s, id, val, now);
    if s' != s {
      var t := Token(cfg.slaveVars[id], val);
      var s1 := s.(log := s.log + [Accepted(ButtonReq(t, now))]);
      SeesOne(s, s1, Accepted(ButtonReq(t, now)));
      SeesOne(s1, s', Pressed(t));
    }
  }

  lemma SeesAck(cfg: Config, s: Hmi, i: nat)
    requires TokenInv(cfg, s) && Observed(s) && Enabled(s, Ack(i))
    ensures Observed(Apply(cfg, s, Ack(i)))
  {
    hide Exactly, Live, InQueue, Without;
    var r := s.pending[i];
    assert r in s.pending;
    if r.owner.Button? { QueuedIsWanted(s, i); }
    SeesOne(s, Apply(cfg, s, Ack(i)), Succeeded(r));
  }

  lemma SeesTimeOut(cfg: Config, s: Hmi, a: IOAddr)
    requires Observed(s) && s.first.Keys !! s.second.Keys
    requires LastIsOwn(s.log) == (a in s.first || a in s.second)
    ensures Observed(OnTimeOut(cfg, s, a))
  {
    hide Observed, LastIsOwn, PhaseOf;
    if a in cfg.vars && (a in s.first || a !in s.second) {
      SeesOne(s, OnTimeOut(cfg, s, a), WriteError(a, cfg.vars[a]));
    } else {
      SeesNothing(s, OnTimeOut(cfg, s, a));
    }
  }

  lemma SeesNothing(s: Hmi, s': Hmi)
    requires Observed(s) && s'.log == s.log && s'.first == s.first && s'.second == s.second
    ensures Observed(s')
  {}

  lemma SeesExpire(cfg: Config, s: Hmi, i: nat, now: int, all: bool)
    requires TokenInv(cfg, s) && Observed(s)
    requires Enabled(s, Expire(i, now, all)) && Harmless(s, Expire(i, now, all))
    ensures Observed(Apply(cfg, s, Expire(i, now, all)))
  {
    var r := s.pending[i];
    assert r in s.pending;
    if r.owner.Button? { QueuedIsWanted(s, i); }
    var s1 := s.(pending := Without(s.pending, i), log := s.log + [TimedOut(r, now, all)]);
    SeesOne(s, s1, TimedOut(r, now, all));
    SeesTimeOut(cfg, s1, r.addr);
  }

  lemma SeesStep(cfg: Config, s: Hmi, e: Step)
    requires TokenInv(cfg, s) && Observed(s) && Enabled(s, e) && Harmless(s, e)
    ensures Observed(Apply(cfg, s, e))
  {
    hide TokenInv, OnPress, OnSuccess, OnTimeOut;
    var s' := Apply(cfg, s, e);
    match e
    case Press(id, val, now) => SeesPress(cfg, s, id, val, now);
    case Ack(i) => SeesAck(cfg, s, i);
    case Expire(i, now, all) => SeesExpire(cfg, s, i, now, all);
    case Pump(now) =>
      if s' != s { SeesOne(s, s', Accepted(ButtonReq(s.retry[0], now))); }
    case WriteVar(id, v, now) =>
      if s' != s { SeesOne(s, s', Accepted(PlainReq(cfg.slaveVars[id], false, false, v, now))); }
    case ForceVar(id, v, bit, now) =>
      if s' != s { SeesOne(s, s', Accepted(PlainReq(cfg.fieldVars[id], true, bit, v, now))); }
    case _ =>
  }

  // ------------------------------------------------------------ requests and answers

  ghost predicate AnswerInv(s: Hmi) {
    Idle(s) && Answers(s) && HonestTimeOuts(s.log)
  }

  lemma AnswersPush(s: Hmi, r: Req)
    requires AnswerInv(s)
    ensures AnswerInv(Push(s, r)) || !Accepts(s, r.addr)
  {
    Appended(s.log, Accepted(r));
  }

  lemma AnswersOther(s: Hmi, e: Event)
    requires AnswerInv(s) && (e.Pressed? || e.WriteError?)
    ensures AnswerInv(s.(log := s.log + [e]))
  {
    Appended(s.log, e);
  }

  lemma AnswersTake(s: Hmi, i: nat, e: Event)
    requires AnswerInv(s) && i < |s.pending|
    requires e == Succeeded(s.pending[i]) || (e.TimedOut? && e.req == s.pending[i] && Due(e.req, e.at, e.all))
    ensures AnswerInv(s.(pending := Without(s.pending, i), log := s.log + [e]))
  {
    TakeOne(s.pending, i);
    Appended(s.log, e);
  }

  lemma AnswersPress(cfg: Config, s: Hmi, id: nat, val: bool, now: int)
    requires AnswerInv(s)
    ensures AnswerInv(OnPress(cfg, s, id, val, now))
  {
    if OnPress(cfg, s, id, val, now) != s {
      var t := Token(cfg.slaveVars[id], val);
      var s1 := s.(first := s.first[t.addr := val]);
      AnswersPush(s1, ButtonReq(t, now));
      AnswersOther(Push(s1, ButtonReq(t, now)), Pressed(t));
    }
  }

  lemma AnswersExpire(cfg: Config, s: Hmi, i: nat, now: int, all: bool)
    requires AnswerInv(s) && Enabled(s, Expire(i, now, all))
    ensures AnswerInv(Apply(cfg, s, Expire(i, now, all)))
  {
    var r := s.pending[i];
    var s1 := s.(pending := Without(s.pending, i), log := s.log + [TimedOut(r, now, all)]);
    AnswersTake(s, i, TimedOut(r, now, all));
    if r.addr in cfg.vars { AnswersOther(s1, WriteError(r.addr, cfg.vars[r.addr])); }
  }

  lemma AnswersPlain(s: Hmi, r: Req)
    requires AnswerInv(s)
    ensures AnswerInv(OnPlain(s, r))
  {
    AnswersPush(s, r);
  }

  lemma AnswersPump(s: Hmi, now: int)
    requires AnswerInv(s) && s.retry != []
    ensures AnswerInv(OnPump(s, now))
  {
    AnswersPush(s, ButtonReq(s.retry[0], now));
  }

  lemma AnswersAck(cfg: Config, s: Hmi, i: nat)
    requires AnswerInv(s) && Enabled(s, Ack(i))
    ensures AnswerInv(Apply(cfg, s, Ack(i)))
  {
    AnswersTake(s, i, Succeeded(s.pending[i]));
  }

  lemma AnswersStep(cfg: Config, s: Hmi, e: Step)
    requires Enabled(s, e) && AnswerInv(s)
    ensures AnswerInv(Apply(cfg, s, e))
  {
    match e
    case Press(id, val, now) => AnswersPress(cfg, s, id, val, now);
    case Pump(now) => AnswersPump(s, now);
    case WriteVar(id, v, now) =>
      if id in cfg.slaveVars { AnswersPlain(s, PlainReq(cfg.slaveVars[id], false, false, v, now)); }
    case ForceVar(id, v, bit, now) =>
      if id in cfg.fieldVars { AnswersPlain(s, PlainReq(cfg.fieldVars[id], true, bit, v, now)); }
    case Ack(i) => AnswersAck(cfg, s, i);
    case Expire(i, now, all) => AnswersExpire(cfg, s, i, now, all);
    case _ =>
  }

  lemma StepKeeps(cfg: Config, s: Hmi, e: Step)
    requires ValidConfig(cfg) && Inv(cfg, s)
    requires Enabled(s, e) && Harmless(s, e)
    ensures Inv(cfg, Apply(cfg, s, e))
  {
    TokensStep(cfg, s, e);
    SeesStep(cfg, s, e);
    AnswersStep(cfg, s, e);
  }

  // No step of the run is the time-out of a plain request on a button being pressed.
  predicate HarmlessRun(cfg: Config, s: Hmi, run: seq<Step>)
    requires Feasible(cfg, s, run)
    decreases |run|
  {
    run == [] || (Harmless(s, run[0]) && HarmlessRun(cfg, Apply(cfg, s, run[0]), run[1..]))
  }

  // Every reachable state, whatever the interleaving.
  lemma {:induction false} RunKeeps(cfg: Config, s: Hmi, run: seq<Step>)
    requires ValidConfig(cfg) && Inv(cfg, s) && Feasible(cfg, s, run) && HarmlessRun(cfg, s, run)
    ensures Inv(cfg, Exec(cfg, s, run))
    decreases |run|
  {
    if run != [] {
      StepKeeps(cfg, s, run[0]);
      RunKeeps(cfg, Apply(cfg, s, run[0]), run[1..]);
    }
  }

  // The answers to requests need no assumption at all.
  lemma {:induction false} RunAnswers(cfg: Config, s: Hmi, run: seq<Step>)
    requires AnswerInv(s) && Feasible(cfg, s, run)
    ensures AnswerInv(Exec(cfg, s, run))
    decreases |run|
  {
    if run != [] {
      AnswersStep(cfg, s, run[0]);
      RunAnswers(cfg, Apply(cfg, s, run[0]), run[1..]);
    }
  }

  lemma StartHolds(cfg: Config)
    ensures Inv(cfg, START)
  {
    assert Live(START) == multiset{};
  }
}
