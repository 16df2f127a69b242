// Change detection over every run of the read side: no change is lost when a read is one step,
// and exactly when one is lost if the image polls between the two halves of a read.
module ReadResults {
  import opened CommonTypes
  import opened SlaveBlocks
  import opened ReadProtocol

  // ------------------------------------------------------------ change detection

  predicate SameShown(was: Shown, now: Shown) {
    match (was, now)
    case (ShownWord(w), ShownWord(w')) => w == w'
    case (ShownValue(v, q), ShownValue(v', q')) => Same(v, v') && q == q'
    case (ShownField(v, f, b, q), ShownField(v', f', b', q')) => Same(v, v') && Same(f, f') && b == b' && q == q'
    case _ => false
  }

  // The variable has been read since the driver was initialised.
  predicate Known(s: Rd, a: IOAddr) {
    if a in s.modbus then !s.modbus[a].forceDetect else a in s.field && !s.field[a].forceDetect
  }

  // The screens show what a delivery would now show, had the driver the state it had at the last
  // one: values and forcing as cached, the quality as cached or that of a link lost at the time.
  predicate UpToDate(scr: Screens, s: Rd, a: IOAddr) {
    View(scr, s, a).Some? ==>
      a in s.shown && a in s.shownIn && SameShown(s.shown[a], Passed(s.shownIn[a], View(scr, s, a).value))
  }

  // The screens show the cache, its quality included.
  predicate ShowsCache(scr: Screens, s: Rd, a: IOAddr) {
    View(scr, s, a).Some? ==> a in s.shown && SameShown(s.shown[a], View(scr, s, a).value)
  }

  // The last delivery fell while the link was lost, and said so of a variable that is not.
  predicate StaleQuality(scr: Screens, s: Rd, a: IOAddr) {
    match View(scr, s, a)
    case Some(ShownValue(_, q)) => a in s.shownIn && s.shownIn[a] == COMError && q != ComError
    case Some(ShownField(_, _, _, q)) => a in s.shownIn && s.shownIn[a] == COMError && q != ComError
    case _ => false
  }

  predicate Waiting(s: Rd, a: IOAddr) { a in s.changed || a in s.batch }

  // Every variable that has been read is waiting to be delivered, or its screens are up to date.
  ghost predicate Lossless(scr: Screens, s: Rd) {
    forall a :: Known(s, a) ==> Waiting(s, a) || UpToDate(scr, s, a)
  }

  lemma SameIsTransitive(x: Float32, y: Float32, z: Float32)
    requires Same(x, y) && Same(y, z)
    ensures Same(x, z)
  {}

  lemma NotDiffer(x: Float32, y: Float32)
    requires !Differ(x, y)
    ensures Same(x, y) && Same(y, x)
  {}

  lemma SameShownIsTransitive(x: Shown, y: Shown, z: Shown)
    requires SameShown(x, y) && SameShown(y, z)
    ensures SameShown(x, z)
  {
    hide Same;
    match (x, y, z)
    case (ShownValue(v, _), ShownValue(v', _), ShownValue(v'', _)) => SameIsTransitive(v, v', v'');
    case (ShownField(v, f, _, _), ShownField(v', f', _, _), ShownField(v'', f'', _, _)) =>
      SameIsTransitive(v, v', v'');
      SameIsTransitive(f, f', f'');
    case _ =>
  }

  lemma PassedAlike(state: DrvState, v: Shown, v': Shown)
    requires SameShown(v, v')
    ensures SameShown(Passed(state, v), Passed(state, v'))
  {
    hide Same;
  }

  lemma LooksLikeItself(v: Shown)
    ensures SameShown(v, v)
  {
    hide IsZero;
  }

  // An answer that is no change looks as the cache already did, quality included.
  lemma UnchangedView(scr: Screens, s: Rd, answer: Answer, a: IOAddr)
    requires Suits(s, answer) && !Changed(s, answer) && View(scr, s, a).Some?
    ensures View(scr, Store(s, answer), a).Some?
    ensures SameShown(View(scr, s, a).value, View(scr, Store(s, answer), a).value)
  {
    if a != NextAddr(s) || answer.WordAnswer? {
      hide Differ, SameShown, Changed;
      LooksLikeItself(View(scr, s, a).value);
      if a != NextAddr(s) { Untouched(scr, s, Store(s, answer), a); } else { SameWord(scr, s, answer); }
    } else if answer.FieldAnswer? {
      UnchangedField(scr, s, answer);
    } else {
      UnchangedValue(scr, s, answer);
    }
  }

  lemma SameWord(scr: Screens, s: Rd, answer: Answer)
    requires Suits(s, answer) && !Changed(s, answer) && answer.WordAnswer?
    ensures View(scr, Store(s, answer), NextAddr(s)) == View(scr, s, NextAddr(s))
  {}

  lemma UnchangedField(scr: Screens, s: Rd, answer: Answer)
    requires Suits(s, answer) && !Changed(s, answer) && answer.FieldAnswer? && View(scr, s, NextAddr(s)).Some?
    ensures View(scr, Store(s, answer), NextAddr(s)).Some?
    ensures SameShown(View(scr, s, NextAddr(s)).value, View(scr, Store(s, answer), NextAddr(s)).value)
  {
    hide Differ, Same;
    var d := s.field[NextAddr(s)];
    NotDiffer(answer.rec.val, d.trueVal);
    NotDiffer(d.forcedVal, answer.rec.forcedVal);
    SameOnes(View(scr, s, NextAddr(s)).value);
  }

  lemma UnchangedValue(scr: Screens, s: Rd, answer: Answer)
    requires Suits(s, answer) && !Changed(s, answer) && answer.ValueAnswer? && View(scr, s, NextAddr(s)).Some?
    ensures View(scr, Store(s, answer), NextAddr(s)).Some?
    ensures SameShown(View(scr, s, NextAddr(s)).value, View(scr, Store(s, answer), NextAddr(s)).value)
  {
    hide Differ, Same;
    NotDiffer(s.modbus[NextAddr(s)].val, answer.val);
    SameOnes(View(scr, s, NextAddr(s)).value);
  }

  lemma SameOnes(v: Shown)
    ensures v.ShownValue? ==> Same(v.val, v.val)
    ensures v.ShownField? ==> Same(v.trueVal, v.trueVal) && Same(v.forcedVal, v.forcedVal)
  {}

  lemma UnchangedLooksTheSame(scr: Screens, s: Rd, answer: Answer, a: IOAddr)
    requires Suits(s, answer) && !Changed(s, answer) && UpToDate(scr, s, a)
    ensures UpToDate(scr, Store(s, answer), a)
  {
    hide Differ, SameShown, View, Changed, Passed;
    if View(scr, s, a).Some? {
      UnchangedView(scr, s, answer, a);
      var v, v' := View(scr, s, a).value, View(scr, Store(s, answer), a).value;
      PassedAlike(s.shownIn[a], v, v');
      SameShownIsTransitive(s.shown[a], Passed(s.shownIn[a], v), Passed(s.shownIn[a], v'));
    } else {
      StillNoView(scr, s, answer, a);
    }
  }

  lemma StillNoView(scr: Screens, s: Rd, answer: Answer, a: IOAddr)
    requires Suits(s, answer) && View(scr, s, a).None?
    ensures View(scr, Store(s, answer), a).None?
  {}

  predicate SameEntry(s: Rd, s': Rd, a: IOAddr) {
    && (a in s.modbus <==> a in s'.modbus) && (a in s.field <==> a in s'.field)
    && (a in s.modbus ==> s.modbus[a] == s'.modbus[a]) && (a in s.field ==> s.field[a] == s'.field[a])
  }

  lemma Untouched(scr: Screens, s: Rd, s': Rd, a: IOAddr)
    requires SameEntry(s, s', a)
    ensures View(scr, s', a) == View(scr, s, a) && Known(s', a) == Known(s, a)
  {}

  lemma ReadLosesNothing(scr: Screens, s: Rd, answer: Answer)
    requires Lossless(scr, s) && Suits(s, answer)
    ensures Lossless(scr, OnRead(s, answer))
  {
    hide Differ, Same, SameShown, View;
    var s' := OnRead(s, answer);
    forall a | Known(s', a) ensures Waiting(s', a) || UpToDate(scr, s', a) {
      if a != NextAddr(s) {
        Untouched(scr, s, s', a);
      } else if !Changed(s, answer) {
        Untouched(scr, Store(s, answer), s', a);
        if !Waiting(s, a) { UnchangedLooksTheSame(scr, s, answer, a); }
      }
    }
  }

  lemma DeliverLosesNothing(scr: Screens, s: Rd, b: IOAddr)
    requires Lossless(scr, s)
    ensures Lossless(scr, OnDeliver(scr, s, b))
    ensures UpToDate(scr, OnDeliver(scr, s, b), b)
  {
    hide Differ, Same, SameShown, View, Known;
    var s' := OnDeliver(scr, s, b);
    Untouched(scr, s, s', b);
    if View(scr, s, b).Some? { LooksLikeItself(Passed(s.state, View(scr, s, b).value)); }
    forall a | Known(s', a) ensures Waiting(s', a) || UpToDate(scr, s', a) {
      Untouched(scr, s, s', a);
    }
  }

  lemma StepLosesNothing(scr: Screens, s: Rd, e: Step)
    requires Lossless(scr, s) && Enabled(s, e)
    ensures Lossless(scr, Apply(scr, s, e))
  {
    hide Differ, Same, SameShown, View, OnRead, OnDeliver, UpToDate;
    var s' := Apply(scr, s, e);
    match e
    case Open(_, _, _, _, _, _) =>
    case Close =>
    case Read(answer) => ReadLosesNothing(scr, s, answer);
    case Deliver(a) => DeliverLosesNothing(scr, s, a);
    case _ =>
      forall a | Known(s', a) ensures Waiting(s', a) || UpToDate(scr, s', a) {
        Untouched(scr, s, s', a);
        StillUpToDate(scr, s, s', a);
      }
  }

  lemma StillUpToDate(scr: Screens, s: Rd, s': Rd, a: IOAddr)
    requires View(scr, s', a) == View(scr, s, a) && s'.shown == s.shown && s'.shownIn == s.shownIn
    ensures UpToDate(scr, s', a) == UpToDate(scr, s, a)
  {
    hide SameShown, View;
  }

  // What a delivery puts on the screens: a word, or a variable with its cached quality unless the
  // link is lost; nothing of what the image does not know or the driver does not read.
  lemma DeliveryShows(scr: Screens, s: Rd, a: IOAddr)
    ensures var s', word := OnDeliver(scr, s, a), 1 <= a.channel <= scr.ioInts;
      && (word && a in s.modbus ==>
            s'.shown == s.shown[a := ShownWord(s.modbus[a].word)] && s'.delivered == s.delivered + {a})
      && (!word && a in scr.vars && a in s.modbus ==>
            var q := if s.state == COMError then ComError else s.modbus[a].q;
            s'.shown == s.shown[a := ShownValue(s.modbus[a].val, q)] && s'.delivered == s.delivered + {a})
      && (!word && a in scr.vars && a !in s.modbus && a in s.field ==>
            var d, q := s.field[a], if s.state == COMError then ComError else s.field[a].q;
            s'.shown == s.shown[a := ShownField(d.trueVal, d.forcedVal, d.forced, q)]
            && s'.delivered == s.delivered + {a})
      && ((if word then a !in s.modbus else a !in scr.vars || (a !in s.modbus && a !in s.field)) ==>
            s'.shown == s.shown && s'.delivered == s.delivered)
  {
    hide NewVarUpdated;
  }

  // The screens show everything, over every run of reads, polls, deliveries and link events.
  lemma {:induction false} NothingIsLost(scr: Screens, s: Rd, run: seq<Step>)
    requires Lossless(scr, s) && Feasible(scr, s, run)
    ensures Lossless(scr, Exec(scr, s, run))
    decreases |run|
  {
    if run != [] {
      StepLosesNothing(scr, s, run[0]);
      NothingIsLost(scr, Apply(scr, s, run[0]), run[1..]);
    }
  }

  lemma NothingKnown(scr: Screens)
    ensures Lossless(scr, START)
  {}

  // An up-to-date screen shows the cache exactly unless its last delivery fell while the link was
  // lost: then it keeps the quality of a lost link.
  lemma ShowsCacheIff(scr: Screens, s: Rd, a: IOAddr)
    requires UpToDate(scr, s, a)
    ensures ShowsCache(scr, s, a) <==> !StaleQuality(scr, s, a)
  {
    hide Same;
  }

  // Over every run, for every variable that has been read and is not waiting: the screens show the
  // values and the forcing cached, and the quality too if and only if the last delivery did not
  // fall in state COMError on a variable of another quality.
  lemma ScreensAreCurrent(scr: Screens, run: seq<Step>, a: IOAddr)
    requires Feasible(scr, START, run)
    requires var s := Exec(scr, START, run); Known(s, a) && !Waiting(s, a)
    ensures var s := Exec(scr, START, run);
      UpToDate(scr, s, a) && (ShowsCache(scr, s, a) <==> !StaleQuality(scr, s, a))
  {
    hide Known, Waiting, UpToDate, ShowsCache, StaleQuality;
    NothingKnown(scr);
    NothingIsLost(scr, START, run);
    ShowsCacheIff(scr, Exec(scr, START, run), a);
  }

  // ---- when a poll falls between the two halves of a read

  // The image takes the changes and delivers this one while the driver is between marking and
  // storing it.
  function Delivered(scr: Screens, s: Rd, answer: Answer): (r: Rd)
    requires Suits(s, answer)
    ensures Suits(r, answer) && NextAddr(r) == NextAddr(s)
  {
    var marked := Mark(s, answer);
    OnDeliver(scr, marked.(batch := marked.changed, changed := {}), NextAddr(s))
  }

  function PolledInBetween(scr: Screens, s: Rd, answer: Answer): Rd
    requires Suits(s, answer)
  {
    Store(Delivered(scr, s, answer), answer)
  }

  // Then the screens keep the old value: nothing is lost exactly when the variable is shown
  // nowhere or the answer is shown as what the cache held before was.
  lemma PollInBetweenIsSafeIff(scr: Screens, s: Rd, answer: Answer)
    requires Suits(s, answer) && Changed(s, answer) && s.batch == {} && Lossless(scr, s)
    ensures Lossless(scr, PolledInBetween(scr, s, answer)) <==>
      var a := NextAddr(s);
      View(scr, s, a).None?
      || SameShown(Passed(s.state, View(scr, s, a).value), Passed(s.state, View(scr, Store(s, answer), a).value))
  {
    hide Differ, Same, SameShown, View, Store, OnDeliver, Mark;
    var a := NextAddr(s);
    var s' := PolledInBetween(scr, s, answer);
    ShownInBetween(scr, s, answer);
    if answer.FieldAnswer? && a in s.modbus {
      FieldBehindValue(scr, s, answer);
      if View(scr, s, a).Some? { LooksLikeItself(Passed(s.state, View(scr, s, a).value)); }
    }
    forall b | b != a && Known(s', b) ensures Waiting(s', b) || UpToDate(scr, s', b) {
      InBetween(scr, s, answer, b);
    }
  }

  // Of an address read both as a field and as a Modbus variable the screens show the latter.
  lemma FieldBehindValue(scr: Screens, s: Rd, answer: Answer)
    requires Suits(s, answer) && answer.FieldAnswer? && NextAddr(s) in s.modbus
    ensures View(scr, Store(s, answer), NextAddr(s)) == View(scr, s, NextAddr(s))
  {}

  lemma InBetween(scr: Screens, s: Rd, answer: Answer, b: IOAddr)
    requires Suits(s, answer) && Changed(s, answer) && s.batch == {} && b != NextAddr(s)
    ensures var s' := PolledInBetween(scr, s, answer);
      && View(scr, s', b) == View(scr, s, b) && Known(s', b) == Known(s, b) && Waiting(s', b) == Waiting(s, b)
      && (b in s'.shown <==> b in s.shown) && (b in s.shown ==> s'.shown[b] == s.shown[b])
      && (b in s'.shownIn <==> b in s.shownIn) && (b in s.shownIn ==> s'.shownIn[b] == s.shownIn[b])
  {
    hide Mark, Store, OnDeliver, View, Known, Changed;
    var marked := Mark(s, answer);
    var delivered := Delivered(scr, s, answer);
    MarksOnly(s, answer, b);
    DeliversOnly(scr, marked.(batch := marked.changed, changed := {}), NextAddr(s), b);
    StoresOnly(delivered, answer, b);
    Untouched(scr, s, PolledInBetween(scr, s, answer), b);
  }

  lemma MarksOnly(s: Rd, answer: Answer, b: IOAddr)
    requires Suits(s, answer) && b != NextAddr(s)
    ensures SameEntry(s, Mark(s, answer), b) && (b in Mark(s, answer).changed <==> b in s.changed)
  {
    hide Changed;
  }

  lemma StoresOnly(s: Rd, answer: Answer, b: IOAddr)
    requires Suits(s, answer) && b != NextAddr(s)
    ensures SameEntry(s, Store(s, answer), b)
    ensures Store(s, answer) == s.(field := Store(s, answer).field, modbus := Store(s, answer).modbus)
  {}

  lemma DeliversOnly(scr: Screens, s: Rd, a: IOAddr, b: IOAddr)
    requires b != a
    ensures var s' := OnDeliver(scr, s, a);
      && SameEntry(s, s', b) && (b in s'.batch <==> b in s.batch)
      && (b in s'.shown <==> b in s.shown) && (b in s.shown ==> s'.shown[b] == s.shown[b])
      && (b in s'.shownIn <==> b in s.shownIn) && (b in s.shownIn ==> s'.shownIn[b] == s.shownIn[b])
  {
    hide View, Passed, NewVarUpdated;
  }

  lemma ShownInBetween(scr: Screens, s: Rd, answer: Answer)
    requires Suits(s, answer) && Changed(s, answer) && s.batch == {}
    ensures var s', a := PolledInBetween(scr, s, answer), NextAddr(s);
      && View(scr, s', a) == View(scr, Store(s, answer), a) && !Waiting(s', a)
      && (Known(s', a) || (answer.FieldAnswer? && a in s.modbus))
      && View(scr, s', a).Some? == View(scr, s, a).Some?
      && (View(scr, s, a).Some? ==> a in s'.shown && s'.shown[a] == Passed(s.state, View(scr, s, a).value))
      && (View(scr, s, a).Some? ==> a in s'.shownIn && s'.shownIn[a] == s.state)
  {
    hide Changed, Passed, NewVarUpdated;
    var a := NextAddr(s);
    var marked := Mark(s, answer);
    var taken := marked.(batch := marked.changed, changed := {});
    assert View(scr, taken, a) == View(scr, s, a);
  }
}
