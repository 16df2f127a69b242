// Runs of the read side, step by step from the start: a screen that keeps the quality of a lost
// link, a change that is lost when a poll falls between the two halves of a read, and a full update
// that is never announced.
module ReadCounterexamples {
  import opened CommonTypes
  import opened SlaveBlocks
  import opened ReadProtocol
  import opened ReadResults

  const SPEED := IOAddr(0, 0, 1, 0)
  const SCREENS := Screens(0, {SPEED})
  const AT_REST := FieldAnswer(Rec(FLOAT_ZERO, FLOAT_ZERO, false, OK, 0))
  const TURNING := FieldAnswer(Rec(FLOAT_ONE, FLOAT_ZERO, false, OK, 0))

  const OPENING := Open(0, 1, {}, {SPEED}, [], [SPEED])

  // One field variable, read once while the shaft was at rest.
  const FIRST_READ: seq<Step> := [OPENING, Start, Connect, Read(AT_REST)]

  // The screens are given the variable after the end of the cycle has been reported as a failure
  // of the link; then the link is made again, and the variable read as before.
  const GIVEN_LATE: seq<Step> := [Poll, Wrap, Deliver(SPEED), Disconnect, Connect, Read(AT_REST)]

  // They are given it before the end of the cycle.
  const GIVEN_IN_TIME: seq<Step> := [Poll, Deliver(SPEED), Wrap, Disconnect, Connect]

  // ---- the states on the way

  const OPENED := START.(state := Stopped, numIO := 1, fieldOrder := [SPEED], field := map[SPEED := NEW_FIELD],
                         seen := Some({}), target := 1, subs := {SPEED}, log := [Configured([SPEED], [])])
  const LINKED := OPENED.(state := Running, connected := true, log := OPENED.log + [Linked])
  const READ := LINKED.(fieldIt := 1, field := map[SPEED := FieldData(0, FLOAT_ZERO, FLOAT_ZERO, OK, false, false)],
                        changed := {SPEED}, log := LINKED.log + [GotRead(SPEED)])
  const POLLED := READ.(changed := {}, batch := {SPEED})

  // Given to the screens in a state of the driver.
  function Given(s: Rd, q: QuState): Rd {
    s.(batch := {}, shown := map[SPEED := ShownField(FLOAT_ZERO, FLOAT_ZERO, false, q)],
       shownIn := map[SPEED := s.state], delivered := {SPEED}, seen := None, complete := 1)
  }

  function Ended(s: Rd): Rd { s.(state := COMError, fieldIt := 0, log := s.log + [Wrapped]) }

  const LATE := Given(Ended(POLLED), ComError)
  const LATE_AGAIN := LATE.(state := Running, log := LATE.log + [Linked])
  const LATE_READ := LATE_AGAIN.(fieldIt := 1, log := LATE_AGAIN.log + [GotRead(SPEED)])
  const IN_TIME := Ended(Given(POLLED, OK))
  const IN_TIME_AGAIN := IN_TIME.(state := Running, log := IN_TIME.log + [Linked])

  lemma ExecCons(scr: Screens, s: Rd, e: Step, rest: seq<Step>)
    requires Enabled(s, e) && Feasible(scr, Apply(scr, s, e), rest)
    ensures Feasible(scr, s, [e] + rest) && Exec(scr, s, [e] + rest) == Exec(scr, Apply(scr, s, e), rest)
  {
    hide Enabled, Apply;
    assert ([e] + rest)[1..] == rest;
  }

  // ---- the steps

  lemma Takes()
    ensures OrderOf([], ModbusAddrs(0, 1, {})) && OrderOf([SPEED], FieldAddrs(0, 1, {SPEED}))
  {
    NoneTaken();
    OneMore([], {}, SPEED);
    hide OrderOf;
    assert [] + [SPEED] == [SPEED] && {} + {SPEED} == {SPEED};
    assert ModbusAddrs(0, 1, {}) == {} && FieldAddrs(0, 1, {SPEED}) == {SPEED};
  }

  lemma Opens()
    ensures Enabled(START, OPENING) && Apply(SCREENS, START, OPENING) == OPENED
  {
    hide OrderOf, ModbusAddrs, FieldAddrs;
    Takes();
    assert {} + {SPEED} == {SPEED};
    assert FreshFields([SPEED]) == map[SPEED := NEW_FIELD];
    assert FreshValues([]) == map[];
  }

  lemma ReadsFirst()
    ensures Enabled(LINKED, Read(AT_REST)) && Apply(SCREENS, LINKED, Read(AT_REST)) == READ
  {
    assert {} + {SPEED} == {SPEED};
  }

  lemma ReadsAgain()
    ensures Enabled(LATE_AGAIN, Read(AT_REST)) && Apply(SCREENS, LATE_AGAIN, Read(AT_REST)) == LATE_READ
  {
    assert !Differ(FLOAT_ZERO, FLOAT_ZERO);
    assert !Changed(LATE_AGAIN, AT_REST);
  }

  // A delivery, with the link up or lost.
  lemma Gives(s: Rd, q: QuState)
    requires (s == POLLED && q == OK) || (s == Ended(POLLED) && q == ComError)
    ensures Enabled(s, Deliver(SPEED)) && Apply(SCREENS, s, Deliver(SPEED)) == Given(s, q)
  {
    var view := ShownField(FLOAT_ZERO, FLOAT_ZERO, false, OK);
    assert View(SCREENS, s, SPEED) == Some(view);
    assert {SPEED} - {SPEED} == {};
    assert {} + {SPEED} == {SPEED};
    assert s.shown[SPEED := Passed(s.state, view)] == map[SPEED := Passed(s.state, view)];
  }

  lemma FirstRead(rest: seq<Step>)
    requires Feasible(SCREENS, READ, rest)
    ensures Feasible(SCREENS, START, FIRST_READ + rest)
    ensures Exec(SCREENS, START, FIRST_READ + rest) == Exec(SCREENS, READ, rest)
  {
    hide Feasible, Exec;
    ReadsFirst();
    ExecCons(SCREENS, LINKED, Read(AT_REST), rest);
    ExecCons(SCREENS, OPENED.(state := Running), Connect, [Read(AT_REST)] + rest);
    ExecCons(SCREENS, OPENED, Start, [Connect] + ([Read(AT_REST)] + rest));
    Opens();
    ExecCons(SCREENS, START, OPENING, [Start] + ([Connect] + ([Read(AT_REST)] + rest)));
    assert FIRST_READ + rest == [OPENING] + ([Start] + ([Connect] + ([Read(AT_REST)] + rest)));
  }

  // The link is broken off and made again.
  lemma LinksAgain(s: Rd, rest: seq<Step>)
    requires s.state == COMError
    requires Feasible(SCREENS, s.(connected := true, state := Running, log := s.log + [Linked]), rest)
    ensures Feasible(SCREENS, s, [Disconnect] + ([Connect] + rest))
    ensures Exec(SCREENS, s, [Disconnect] + ([Connect] + rest))
      == Exec(SCREENS, s.(connected := true, state := Running, log := s.log + [Linked]), rest)
  {
    hide Feasible, Exec;
    ExecCons(SCREENS, s.(connected := false), Connect, rest);
    ExecCons(SCREENS, s, Disconnect, [Connect] + rest);
  }

  lemma LateAndAgain()
    ensures Feasible(SCREENS, LATE, GIVEN_LATE[3..]) && Exec(SCREENS, LATE, GIVEN_LATE[3..]) == LATE_READ
  {
    assert Feasible(SCREENS, LATE_READ, []) && Exec(SCREENS, LATE_READ, []) == LATE_READ;
    hide Feasible, Exec, Enabled, Apply;
    ReadsAgain();
    ExecCons(SCREENS, LATE_AGAIN, Read(AT_REST), []);
    LinksAgain(LATE, [Read(AT_REST)] + []);
    assert GIVEN_LATE[3..] == [Disconnect] + ([Connect] + ([Read(AT_REST)] + []));
  }

  lemma GivenLate()
    ensures Feasible(SCREENS, READ, GIVEN_LATE) && Exec(SCREENS, READ, GIVEN_LATE) == LATE_READ
  {
    hide Feasible, Exec, OnDeliver, OnRead;
    LateAndAgain();
    var rest := GIVEN_LATE[3..];
    Gives(Ended(POLLED), ComError);
    ExecCons(SCREENS, Ended(POLLED), Deliver(SPEED), rest);
    ExecCons(SCREENS, POLLED, Wrap, [Deliver(SPEED)] + rest);
    ExecCons(SCREENS, READ, Poll, [Wrap] + ([Deliver(SPEED)] + rest));
    assert GIVEN_LATE == [Poll] + ([Wrap] + ([Deliver(SPEED)] + rest));
  }

  lemma GivenInTime()
    ensures Feasible(SCREENS, READ, GIVEN_IN_TIME) && Exec(SCREENS, READ, GIVEN_IN_TIME) == IN_TIME_AGAIN
  {
    var scr := SCREENS;
    assert Feasible(scr, IN_TIME_AGAIN, []) && Exec(scr, IN_TIME_AGAIN, []) == IN_TIME_AGAIN;
    hide Feasible, Exec, OnDeliver, OnRead;
    LinksAgain(IN_TIME, []);
    var rest := [Disconnect] + ([Connect] + []);
    ExecCons(scr, Given(POLLED, OK), Wrap, rest);
    Gives(POLLED, OK);
    ExecCons(scr, POLLED, Deliver(SPEED), [Wrap] + rest);
    ExecCons(scr, READ, Poll, [Deliver(SPEED)] + ([Wrap] + rest));
    assert GIVEN_IN_TIME == [Poll] + ([Deliver(SPEED)] + ([Wrap] + rest));
  }

  // ---- what they show

  // The driver runs over a link that is up, has read the variable over that link and has nothing
  // to announce; yet the screens show the quality of a lost link where the cache has a good one.
  lemma LostLinkStaysOnScreen()
    ensures Feasible(SCREENS, START, FIRST_READ + GIVEN_LATE)
    ensures var s := Exec(SCREENS, START, FIRST_READ + GIVEN_LATE);
      && s.state == Running && s.connected && s.changed == {} && s.batch == {} && Known(s, SPEED)
      && SPEED in s.field && s.field[SPEED].q == OK
      && SPEED in s.shown && s.shown[SPEED] == ShownField(FLOAT_ZERO, FLOAT_ZERO, false, ComError)
      && UpToDate(SCREENS, s, SPEED) && !ShowsCache(SCREENS, s, SPEED)
  {
    GivenLate();
    FirstRead(GIVEN_LATE);
  }

  // The shaft begins to turn; the image polls between the marking of the change and the storing
  // of the new speed, and the screens go on showing the shaft at rest with nothing waiting.
  lemma PollInBetweenLosesAChange()
    ensures Feasible(SCREENS, START, FIRST_READ + GIVEN_IN_TIME)
    ensures var s := Exec(SCREENS, START, FIRST_READ + GIVEN_IN_TIME);
      && Enabled(s, Read(TURNING)) && s.batch == {} && Changed(s, TURNING) && Lossless(SCREENS, s)
      && !Lossless(SCREENS, PolledInBetween(SCREENS, s, TURNING))
  {
    hide Feasible, Exec, Lossless, PolledInBetween, Changed, View, SameShown, Store;
    GivenInTime();
    FirstRead(GIVEN_IN_TIME);
    NothingKnown(SCREENS);
    NothingIsLost(SCREENS, START, FIRST_READ + GIVEN_IN_TIME);
    TurningIsShownStill();
    PollInBetweenIsSafeIff(SCREENS, IN_TIME_AGAIN, TURNING);
  }

  lemma TurningIsShownStill()
    ensures var s := IN_TIME_AGAIN;
      && Suits(s, TURNING) && Changed(s, TURNING) && NextAddr(s) == SPEED
      && View(SCREENS, s, SPEED).Some? && View(SCREENS, Store(s, TURNING), SPEED).Some?
      && !SameShown(Passed(s.state, View(SCREENS, s, SPEED).value),
                    Passed(s.state, View(SCREENS, Store(s, TURNING), SPEED).value))
  {
    assert Differ(FLOAT_ONE, FLOAT_ZERO);
    assert !Same(FLOAT_ZERO, FLOAT_ONE);
  }

  // ------------------------------------------------------------ an address asked for twice

  const TWICE := Open(0, 1, {SPEED}, {SPEED}, [SPEED], [SPEED])
  const STILL := ValueAnswer(FLOAT_ZERO, 900)

  // Both reads succeed, and the one address is given to the screens.
  const ALL_GIVEN: seq<Step> := [TWICE, Start, Connect, Read(AT_REST), Read(STILL), Poll, Deliver(SPEED)]

  const BOTH_OPENED := START.(state := Stopped, numIO := 1, fieldOrder := [SPEED], field := map[SPEED := NEW_FIELD],
                              modbusOrder := [SPEED], modbus := map[SPEED := NEW_VALUE], seen := Some({}),
                              target := 2, subs := {SPEED}, log := [Configured([SPEED], [SPEED])])
  const BOTH_LINKED := BOTH_OPENED.(state := Running, connected := true, log := BOTH_OPENED.log + [Linked])
  const FIELD_READ := BOTH_LINKED.(fieldIt := 1, changed := {SPEED}, log := BOTH_LINKED.log + [GotRead(SPEED)],
                                   field := map[SPEED := FieldData(0, FLOAT_ZERO, FLOAT_ZERO, OK, false, false)])
  const BOTH_READ := FIELD_READ.(modbusIt := 1, log := FIELD_READ.log + [GotRead(SPEED)],
                                 modbus := map[SPEED := ModbusData(900, FLOAT_ZERO, 0, OK, false)])
  const BOTH_GIVEN := BOTH_READ.(changed := {}, shown := map[SPEED := ShownValue(FLOAT_ZERO, OK)],
                                 shownIn := map[SPEED := Running], delivered := {SPEED}, seen := Some({SPEED}))

  lemma TakesBoth()
    ensures OrderOf([SPEED], ModbusAddrs(0, 1, {SPEED})) && OrderOf([SPEED], FieldAddrs(0, 1, {SPEED}))
  {
    NoneTaken();
    OneMore([], {}, SPEED);
    hide OrderOf;
    assert [] + [SPEED] == [SPEED] && {} + {SPEED} == {SPEED};
    assert ModbusAddrs(0, 1, {SPEED}) == {SPEED} && FieldAddrs(0, 1, {SPEED}) == {SPEED};
  }

  lemma OpensBoth()
    ensures Enabled(START, TWICE) && Apply(SCREENS, START, TWICE) == BOTH_OPENED
  {
    hide OrderOf, ModbusAddrs, FieldAddrs;
    TakesBoth();
    assert {SPEED} + {SPEED} == {SPEED};
    assert FreshFields([SPEED]) == map[SPEED := NEW_FIELD];
    assert FreshValues([SPEED]) == map[SPEED := NEW_VALUE];
  }

  lemma ReadsBoth()
    ensures Enabled(BOTH_LINKED, Read(AT_REST)) && Apply(SCREENS, BOTH_LINKED, Read(AT_REST)) == FIELD_READ
    ensures Enabled(FIELD_READ, Read(STILL)) && Apply(SCREENS, FIELD_READ, Read(STILL)) == BOTH_READ
  {
    assert {} + {SPEED} == {SPEED} && {SPEED} + {SPEED} == {SPEED};
  }

  lemma GivesBoth()
    ensures var s := BOTH_READ.(changed := {}, batch := {SPEED});
      Enabled(s, Deliver(SPEED)) && Apply(SCREENS, s, Deliver(SPEED)) == BOTH_GIVEN
  {
    var s, view := BOTH_READ.(changed := {}, batch := {SPEED}), ShownValue(FLOAT_ZERO, OK);
    assert View(SCREENS, s, SPEED) == Some(view);
    assert {SPEED} - {SPEED} == {} && {} + {SPEED} == {SPEED};
    assert s.shown[SPEED := view] == map[SPEED := view];
  }

  lemma PolledAndGiven()
    ensures Feasible(SCREENS, BOTH_READ, ALL_GIVEN[5..]) && Exec(SCREENS, BOTH_READ, ALL_GIVEN[5..]) == BOTH_GIVEN
  {
    assert Feasible(SCREENS, BOTH_GIVEN, []) && Exec(SCREENS, BOTH_GIVEN, []) == BOTH_GIVEN;
    hide Feasible, Exec, OnDeliver, OnRead;
    GivesBoth();
    ExecCons(SCREENS, BOTH_READ.(changed := {}, batch := {SPEED}), Deliver(SPEED), []);
    ExecCons(SCREENS, BOTH_READ, Poll, [Deliver(SPEED)] + []);
    assert ALL_GIVEN[5..] == [Poll] + ([Deliver(SPEED)] + []);
  }

  lemma ReadAndGiven()
    ensures Feasible(SCREENS, BOTH_LINKED, ALL_GIVEN[3..]) && Exec(SCREENS, BOTH_LINKED, ALL_GIVEN[3..]) == BOTH_GIVEN
  {
    hide Feasible, Exec, Enabled, Apply;
    PolledAndGiven();
    ReadsBoth();
    ExecCons(SCREENS, FIELD_READ, Read(STILL), ALL_GIVEN[5..]);
    ExecCons(SCREENS, BOTH_LINKED, Read(AT_REST), [Read(STILL)] + ALL_GIVEN[5..]);
    assert ALL_GIVEN[3..] == [Read(AT_REST)] + ([Read(STILL)] + ALL_GIVEN[5..]);
  }

  // Every address asked for has been read and given to the screens, nothing is waiting, and the full
  // update is not announced: the one address counts for two.
  lemma AskedTwiceIsNeverAnnounced()
    ensures Feasible(SCREENS, START, ALL_GIVEN)
    ensures var s := Exec(SCREENS, START, ALL_GIVEN);
      && s.delivered == s.subs == {SPEED} && s.changed == {} && s.batch == {} && !Pending(s) && s.complete == 0
  {
    hide Feasible, Exec;
    ReadAndGiven();
    var rest := ALL_GIVEN[3..];
    ExecCons(SCREENS, BOTH_OPENED.(state := Running), Connect, rest);
    ExecCons(SCREENS, BOTH_OPENED, Start, [Connect] + rest);
    OpensBoth();
    ExecCons(SCREENS, START, TWICE, [Start] + ([Connect] + rest));
    assert ALL_GIVEN == [TWICE] + ([Start] + ([Connect] + rest));
  }
}
