// The order of the reads over every run, and the image's announcement of its first full update.
module ReadCycle {
  import opened CommonTypes
  import opened ReadProtocol

  // ------------------------------------------------------------ an observer of the reads

  // Where the cycle stands: the order of the reads, the next one, whether a connection has been
  // made since the last wrap, and whether every event so far was in order.
  datatype Cycle = Cycle(order: seq<IOAddr>, pos: nat, linked: bool, legal: bool)

  function NextCycle(c: Cycle, e: Event): Cycle {
    match e
    case Configured(fields, values) => Cycle(fields + values, 0, false, c.legal && Distinct(fields) && Distinct(values))
    case Linked => c.(linked := true)
    case GotRead(a) =>
      c.(pos := c.pos + 1, legal := c.legal && c.linked && c.pos < |c.order| && c.order[c.pos] == a)
    case Wrapped =>
      c.(pos := 0, linked := c.order == [], legal := c.legal && c.linked && c.pos == |c.order|)
  }

  function CycleOf(log: seq<Event>): Cycle {
    if log == [] then Cycle([], 0, false, true) else NextCycle(CycleOf(log[..|log| - 1]), log[|log| - 1])
  }

  function ReadsIn(log: seq<Event>): seq<IOAddr> {
    if log == [] then []
    else
      var e := log[|log| - 1];
      ReadsIn(log[..|log| - 1]) + (if e.GotRead? then [e.addr] else [])
  }

  // ------------------------------------------------------------ what every step keeps

  predicate Orders(s: Rd) {
    && Distinct(s.fieldOrder) && (set a | a in s.fieldOrder) == s.field.Keys
    && Distinct(s.modbusOrder) && (set a | a in s.modbusOrder) == s.modbus.Keys
    && s.fieldIt <= |s.fieldOrder| && s.modbusIt <= |s.modbusOrder|
    && (s.modbusIt > 0 ==> s.fieldIt == |s.fieldOrder|)
  }

  predicate Follows(s: Rd) {
    var c := CycleOf(s.log);
    && c.legal && c.order == s.fieldOrder + s.modbusOrder && c.pos == s.fieldIt + s.modbusIt
    && (s.connected && s.state == Running ==> c.linked)
    && (s.state == Stopped || s.state == UnInit ==> !s.connected)
  }

  ghost predicate CycleInv(s: Rd) {
    Orders(s) && Follows(s)
  }

  lemma Logged(log: seq<Event>, e: Event)
    ensures CycleOf(log + [e]) == NextCycle(CycleOf(log), e)
  {
    assert (log + [e])[..|log|] == log;
  }

  lemma OnlyCaches(s: Rd, answer: Answer)
    requires Suits(s, answer)
    ensures var s1 := Store(Mark(s, answer), answer);
      && s1 == s.(changed := s1.changed, field := s1.field, modbus := s1.modbus)
      && s1.field.Keys == s.field.Keys && s1.modbus.Keys == s.modbus.Keys
  {
    hide Changed;
  }

  lemma ReadFollows(s: Rd, answer: Answer)
    requires CycleInv(s) && Enabled(s, Read(answer))
    ensures CycleInv(OnRead(s, answer))
  {
    hide Changed, CycleOf, Mark, Store;
    OnlyCaches(s, answer);
    Logged(s.log, GotRead(NextAddr(s)));
  }

  lemma WrapFollows(s: Rd)
    requires CycleInv(s) && Enabled(s, Wrap)
    ensures CycleInv(OnWrap(s))
  {
    hide CycleOf;
    Logged(s.log, Wrapped);
    assert |s.fieldOrder + s.modbusOrder| == |s.fieldOrder| + |s.modbusOrder|;
  }

  lemma OpenFollows(scr: Screens, s: Rd, e: Step)
    requires CycleInv(s) && Enabled(s, e) && (e.Open? || e.Close?)
    ensures CycleInv(Apply(scr, s, e))
  {
    hide CycleOf;
    match e
    case Open(_, _, _, _, values, fields) => Logged(s.log, Configured(fields, values));
    case Close => Logged(s.log, Configured([], []));
  }

  lemma StepFollows(scr: Screens, s: Rd, e: Step)
    requires CycleInv(s) && Enabled(s, e)
    ensures CycleInv(Apply(scr, s, e))
  {
    hide CycleOf, OnDeliver, OnRead, OnWrap;
    match e
    case Open(_, _, _, _, _, _) => OpenFollows(scr, s, e);
    case Close => OpenFollows(scr, s, e);
    case Read(answer) => ReadFollows(s, answer);
    case Wrap => WrapFollows(s);
    case Connect => Logged(s.log, Linked);
    case _ =>
  }

  lemma {:induction false} RunFollows(scr: Screens, s: Rd, run: seq<Step>)
    requires CycleInv(s) && Feasible(scr, s, run)
    ensures CycleInv(Exec(scr, s, run))
    decreases |run|
  {
    if run != [] {
      StepFollows(scr, s, run[0]);
      RunFollows(scr, Apply(scr, s, run[0]), run[1..]);
    }
  }

  // ------------------------------------------------------------ whole cycles

  predicate Within(seg: seq<Event>) {
    forall e | e in seg :: !e.Wrapped? && !e.Configured?
  }

  // The events that follow a wrap, up to the next one.
  lemma {:induction false} SinceWrap(base: seq<Event>, seg: seq<Event>)
    requires Within(seg) && CycleOf(base + seg).legal
    requires CycleOf(base).pos == 0 && CycleOf(base).linked == (CycleOf(base).order == [])
    ensures var c := CycleOf(base + seg);
      && c.order == CycleOf(base).order && c.pos <= |c.order| && ReadsIn(seg) == c.order[..c.pos]
      && (c.linked ==> c.order == [] || Linked in seg)
  {
    hide CycleOf;
    if seg == [] {
      assert base + seg == base;
    } else {
      var n := |seg| - 1;
      assert base + seg == (base + seg[..n]) + [seg[n]];
      Logged(base + seg[..n], seg[n]);
      SinceWrap(base, seg[..n]);
      assert seg[n] in seg;
    }
  }

  // Between two consecutive wraps the variables are read in the order of the driver's tables, all
  // of them, each once, over a connection made since the first wrap.
  lemma OneCycle(before: seq<Event>, seg: seq<Event>)
    requires Within(seg) && CycleOf(before + [Wrapped] + seg + [Wrapped]).legal
    ensures var order := CycleOf(before).order;
      ReadsIn(seg) == order && (order != [] ==> Linked in seg)
  {
    hide CycleOf;
    Logged(before, Wrapped);
    Logged(before + [Wrapped] + seg, Wrapped);
    SinceWrap(before + [Wrapped], seg);
  }

  lemma {:induction false} LegalPrefix(log: seq<Event>, rest: seq<Event>)
    requires CycleOf(log + rest).legal
    ensures CycleOf(log).legal
  {
    hide CycleOf;
    if rest == [] {
      assert log + rest == log;
    } else {
      var n := |rest| - 1;
      assert log + rest == (log + rest[..n]) + [rest[n]];
      Logged(log + rest[..n], rest[n]);
      LegalPrefix(log, rest[..n]);
    }
  }

  // The order of the last configuration.
  lemma {:induction false} OrderOfSession(log: seq<Event>, fields: seq<IOAddr>, values: seq<IOAddr>, rest: seq<Event>)
    requires forall e | e in rest :: !e.Configured?
    ensures CycleOf(log + [Configured(fields, values)] + rest).order == fields + values
  {
    hide CycleOf;
    var base := log + [Configured(fields, values)];
    if rest == [] {
      assert base + rest == base;
      Logged(log, Configured(fields, values));
    } else {
      var n := |rest| - 1;
      assert base + rest == (base + rest[..n]) + [rest[n]];
      Logged(base + rest[..n], rest[n]);
      OrderOfSession(log, fields, values, rest[..n]);
      assert rest[n] in rest;
    }
  }

  lemma StartFollows()
    ensures CycleInv(START)
  {}

  // Within a session, steps only add to the log, and no configuration.
  predicate Extends(log: seq<Event>, log': seq<Event>) {
    |log| <= |log'| && log'[..|log|] == log && forall e | e in log'[|log|..] :: !e.Configured?
  }

  lemma ExtendsFurther(log: seq<Event>, mid: seq<Event>, log': seq<Event>)
    requires Extends(log, mid) && Extends(mid, log')
    ensures Extends(log, log')
  {
    assert log'[|log|..] == mid[|log|..] + log'[|mid|..];
    assert log'[..|log|] == mid[..|log|];
  }

  lemma StepExtends(scr: Screens, s: Rd, e: Step)
    requires Enabled(s, e) && !e.Open? && !e.Close?
    ensures Extends(s.log, Apply(scr, s, e).log)
  {
    hide Changed, Mark, Store;
    if e.Read? { OnlyCaches(s, e.answer); }
  }

  lemma {:induction false} SessionExtends(scr: Screens, s: Rd, run: seq<Step>)
    requires Feasible(scr, s, run) && forall e | e in run :: !e.Open? && !e.Close?
    ensures Extends(s.log, Exec(scr, s, run).log)
    decreases |run|
  {
    hide Extends, Enabled, Apply;
    if run == [] {
      NothingAdded(s.log);
    } else {
      assert run[0] in run;
      StepExtends(scr, s, run[0]);
      SessionExtends(scr, Apply(scr, s, run[0]), run[1..]);
      ExtendsFurther(s.log, Apply(scr, s, run[0]).log, Exec(scr, s, run).log);
    }
  }

  lemma NothingAdded(log: seq<Event>)
    ensures Extends(log, log)
  {}

  // In a legal log, within a session.
  lemma CycleOfSession(log0: seq<Event>, fields: seq<IOAddr>, values: seq<IOAddr>, log1: seq<Event>,
                       cycle: seq<Event>, log2: seq<Event>)
    requires CycleOf(log0 + [Configured(fields, values)] + log1 + [Wrapped] + cycle + [Wrapped] + log2).legal
    requires Within(cycle) && forall e | e in log1 :: !e.Configured?
    ensures ReadsIn(cycle) == fields + values && (fields + values != [] ==> Linked in cycle)
  {
    hide CycleOf;
    var before := log0 + [Configured(fields, values)] + log1;
    LegalPrefix(before + [Wrapped] + cycle + [Wrapped], log2);
    OneCycle(before, cycle);
    OrderOfSession(log0, fields, values, log1);
  }

  lemma NoneConfigured(log0: seq<Event>, log1: seq<Event>, cycle: seq<Event>, log2: seq<Event>)
    requires Extends(log0, log0 + log1 + [Wrapped] + cycle + [Wrapped] + log2)
    ensures (forall e | e in log1 :: !e.Configured?) && (forall e | e in cycle :: !e.Configured?)
  {
    var rest := log1 + [Wrapped] + cycle + [Wrapped] + log2;
    assert (log0 + log1 + [Wrapped] + cycle + [Wrapped] + log2)[|log0|..] == rest;
    assert forall e | e in log1 :: e in rest;
    assert forall e | e in cycle :: e in rest;
  }

  lemma SessionLegal(scr: Screens, before: seq<Step>, opening: Step, during: seq<Step>)
    requires opening.Open? && Feasible(scr, START, before) && Enabled(Exec(scr, START, before), opening)
    requires var s := Apply(scr, Exec(scr, START, before), opening);
      Feasible(scr, s, during) && forall e | e in during :: !e.Open? && !e.Close?
    ensures var log, s := Exec(scr, START, before).log, Apply(scr, Exec(scr, START, before), opening);
      && s.log == log + [Configured(opening.fields, opening.values)]
      && CycleOf(Exec(scr, s, during).log).legal && Extends(s.log, Exec(scr, s, during).log)
  {
    hide CycleOf, Feasible, Exec, OrderOf, FreshFields, FreshValues, Extends, Orders;
    var s := Apply(scr, Exec(scr, START, before), opening);
    StartFollows();
    RunFollows(scr, START, before);
    StepFollows(scr, Exec(scr, START, before), opening);
    RunFollows(scr, s, during);
    SessionExtends(scr, s, during);
  }

  // The addresses an opening takes: its field variables, and its Modbus variables with the words of
  // the regulator, which have the first channels.
  lemma TakenAre(s: Rd, opening: Step)
    requires opening.Open? && Enabled(s, opening)
    ensures Distinct(opening.fields) && forall a :: a in opening.fields <==>
              a in opening.fieldVars && opening.numRO < a.channel <= opening.numRO + opening.numIO
    ensures Distinct(opening.values) && forall a :: a in opening.values <==>
              a in opening.slaveVars && 1 <= a.channel <= opening.numRO + opening.numIO
  {
    forall a ensures a in opening.fields <==> a in FieldAddrs(opening.numRO, opening.numIO, opening.fieldVars) {
      assert a in (set b | b in opening.fields) <==> a in opening.fields;
    }
    forall a ensures a in opening.values <==> a in ModbusAddrs(opening.numRO, opening.numIO, opening.slaveVars) {
      assert a in (set b | b in opening.values) <==> a in opening.values;
    }
  }

  // Over every run: in the session that an opening begins, any two consecutive wraps enclose one
  // read of each variable the opening took from those asked for, the field variables first, and a
  // new connection.
  lemma EveryCycleReadsAllOnce(scr: Screens, before: seq<Step>, opening: Step, during: seq<Step>,
                               log1: seq<Event>, cycle: seq<Event>, log2: seq<Event>)
    requires opening.Open? && Feasible(scr, START, before) && Enabled(Exec(scr, START, before), opening)
    requires var first := Apply(scr, Exec(scr, START, before), opening);
      && Feasible(scr, first, during) && (forall e | e in during :: !e.Open? && !e.Close?)
      && Exec(scr, first, during).log == first.log + log1 + [Wrapped] + cycle + [Wrapped] + log2
    requires forall e | e in cycle :: !e.Wrapped?
    ensures ReadsIn(cycle) == opening.fields + opening.values
    ensures Distinct(opening.fields) && forall a :: a in opening.fields <==>
              a in opening.fieldVars && opening.numRO < a.channel <= opening.numRO + opening.numIO
    ensures Distinct(opening.values) && forall a :: a in opening.values <==>
              a in opening.slaveVars && 1 <= a.channel <= opening.numRO + opening.numIO
    ensures ReadsIn(cycle) != [] ==> Linked in cycle
  {
    TakenAre(Exec(scr, START, before), opening);
    hide CycleOf, Feasible, Exec, Apply, OrderOf, FieldAddrs, ModbusAddrs, ReadsIn, Extends, Distinct;
    SessionLegal(scr, before, opening, during);
    var log0 := Exec(scr, START, before).log;
    NoneConfigured(log0 + [Configured(opening.fields, opening.values)], log1, cycle, log2);
    CycleOfSession(log0, opening.fields, opening.values, log1, cycle, log2);
  }

  // ------------------------------------------------------------ the first full update

  ghost predicate Announces(s: Rd) {
    && s.field.Keys + s.modbus.Keys <= s.subs && s.delivered <= s.subs && |s.subs| <= s.target
    && s.complete == (if s.delivered != {} && |s.delivered| == s.target then 1 else 0)
    && s.seen == if s.complete == 1 || (s.subs == {} && s.seen.None?) then None else Some(s.delivered)
  }

  lemma DeliverAnnounces(scr: Screens, s: Rd, a: IOAddr)
    requires Announces(s)
    ensures Announces(OnDeliver(scr, s, a))
  {
    if View(scr, s, a).Some? {
      assert a in s.subs;
      SubsetSize(s.delivered + {a}, s.subs);
      SubsetSize(s.delivered, s.delivered + {a});
    }
  }

  lemma SubsetSize(x: set<IOAddr>, y: set<IOAddr>)
    requires x <= y
    ensures |x| <= |y| && (|x| == |y| ==> x == y)
  {
    assert |y - x| + |x| == |y|;
    if |x| == |y| { assert y - x == {}; }
  }

  lemma OpenAnnounces(scr: Screens, s: Rd, e: Step)
    requires Announces(s) && Enabled(s, e) && e.Open?
    ensures Announces(Apply(scr, s, e))
  {
    var s' := Apply(scr, s, e);
    assert |e.slaveVars + e.fieldVars| + |e.slaveVars * e.fieldVars| == |e.slaveVars| + |e.fieldVars|;
    assert s'.modbus.Keys == set a | a in e.values;
    assert s'.field.Keys == set a | a in e.fields;
  }

  lemma StepAnnounces(scr: Screens, s: Rd, e: Step)
    requires Announces(s) && Enabled(s, e)
    ensures Announces(Apply(scr, s, e))
    ensures !e.Open? ==> Apply(scr, s, e).subs == s.subs && Apply(scr, s, e).target == s.target
  {
    hide OnDeliver, OnRead, OnWrap;
    match e
    case Open(_, _, _, _, _, _) => OpenAnnounces(scr, s, e);
    case Deliver(a) => DeliverAnnounces(scr, s, a);
    case Read(answer) => ReadAnnounces(s, answer);
    case Wrap => WrapAnnounces(s);
    case _ =>
  }

  lemma ReadAnnounces(s: Rd, answer: Answer)
    requires Announces(s) && Suits(s, answer)
    ensures Announces(OnRead(s, answer)) && OnRead(s, answer).subs == s.subs && OnRead(s, answer).target == s.target
  {
    hide Changed, Mark, Store;
    OnlyCaches(s, answer);
  }

  lemma WrapAnnounces(s: Rd)
    requires Announces(s)
    ensures Announces(OnWrap(s)) && OnWrap(s).subs == s.subs && OnWrap(s).target == s.target
  {}

  lemma {:induction false} RunAnnounces(scr: Screens, s: Rd, run: seq<Step>)
    requires Announces(s) && Feasible(scr, s, run)
    ensures Announces(Exec(scr, s, run))
    ensures (forall e | e in run :: !e.Open?) ==>
      Exec(scr, s, run).subs == s.subs && Exec(scr, s, run).target == s.target
    decreases |run|
  {
    hide Announces;
    if run != [] {
      StepAnnounces(scr, s, run[0]);
      assert run[0] in run;
      RunAnnounces(scr, Apply(scr, s, run[0]), run[1..]);
    }
  }

  // allVarsUpdated is signalled once, and exactly when every address the image asked for has been
  // given to its screens; an address asked for both as a field and as a Modbus variable is counted
  // twice, and then the signal never comes.
  lemma FullUpdateAnnouncedIff(scr: Screens, before: seq<Step>, opening: Step, run: seq<Step>)
    requires opening.Open? && Feasible(scr, START, before) && Enabled(Exec(scr, START, before), opening)
    requires Feasible(scr, Apply(scr, Exec(scr, START, before), opening), run) && forall e | e in run :: !e.Open?
    requires opening.slaveVars + opening.fieldVars != {}
    ensures var s := Exec(scr, Apply(scr, Exec(scr, START, before), opening), run);
      && s.complete <= 1
      && (s.complete == 1
          <==> (s.delivered == opening.slaveVars + opening.fieldVars && opening.slaveVars !! opening.fieldVars))
  {
    hide Enabled, Feasible, Exec;
    var x, y := opening.slaveVars, opening.fieldVars;
    StartAnnounces();
    RunAnnounces(scr, START, before);
    var s0 := Exec(scr, START, before);
    StepAnnounces(scr, s0, opening);
    var s1 := Apply(scr, s0, opening);
    RunAnnounces(scr, s1, run);
    var s := Exec(scr, s1, run);
    SubsetSize(s.delivered, s.subs);
    assert |x + y| + |x * y| == |x| + |y|;
    assert s.subs == x + y && s.target == |x| + |y|;
    Overlap(x, y);
  }

  lemma Overlap(x: set<IOAddr>, y: set<IOAddr>)
    ensures |x + y| == |x| + |y| <==> x !! y
  {
    assert |x + y| + |x * y| == |x| + |y|;
    if x !! y {
      assert x * y == {};
    } else {
      var a :| a in x && a in y;
      assert a in x * y;
    }
  }

  lemma StartAnnounces()
    ensures Announces(START)
  {}
}
