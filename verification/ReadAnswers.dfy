// What a read leaves in the caches, and over whole runs: each cache holds the last answer the link
// gave for its variable, and the screens show it.
module ReadAnswers {
  import opened CommonTypes
  import opened SlaveBlocks
  import opened ReadProtocol
  import opened ReadResults

  // ---- one read

  // Every field of the answer reaches the cache of its variable, and no other entry changes.
  lemma AnswerIsCached(s: Rd, answer: Answer)
    requires Suits(s, answer)
    ensures var s', a := OnRead(s, answer), NextAddr(s);
      match answer
      case FieldAnswer(r) =>
        s'.modbus == s.modbus && s'.field == s.field[a := FieldData(r.time, r.val, r.forcedVal, r.q, r.forced, false)]
      case WordAnswer(w, now) =>
        s'.field == s.field && s'.modbus == s.modbus[a := ModbusData(now, s.modbus[a].val, w, OK, false)]
      case ValueAnswer(v, now) =>
        s'.field == s.field && s'.modbus == s.modbus[a := ModbusData(now, v, s.modbus[a].word, OK, false)]
  {
    hide Differ;
  }

  // The != of floats: of patterns that are not the zeros, equality is equality of bits, except that
  // a NaN equals nothing.
  lemma DifferIff(x: Float32, y: Float32)
    ensures Differ(x, y) <==>
      var nanX, nanY := x & 0x7FFF_FFFF > 0x7F80_0000, y & 0x7FFF_FFFF > 0x7F80_0000;
      nanX || nanY || (x != y && (x | y) & 0x7FFF_FFFF != 0)
  {
    NaNs(x);
    NaNs(y);
    hide IsNaN;
  }

  lemma NaNs(x: Float32)
    ensures IsNaN(x) <==> x & 0x7FFF_FFFF > 0x7F80_0000
  {}

  // A read marks its variable exactly when it is the first, or the answer differs from the cache.
  lemma MarkedIff(s: Rd, answer: Answer)
    requires Suits(s, answer)
    ensures var s', a := OnRead(s, answer), NextAddr(s);
      s'.changed == s.changed + if
        match answer
        case FieldAnswer(r) =>
          var d := s.field[a];
          || d.forceDetect || Differ(r.val, d.trueVal) || Differ(r.forcedVal, d.forcedVal)
          || r.forced != d.forced || r.q != d.q
        case WordAnswer(w, _) => s.modbus[a].forceDetect || s.modbus[a].q != OK || w != s.modbus[a].word
        case ValueAnswer(v, _) => s.modbus[a].forceDetect || s.modbus[a].q != OK || Differ(v, s.modbus[a].val)
      then {a} else {}
  {
    DifferSymmetric(s, answer);
    hide Differ;
  }

  lemma DifferSymmetric(s: Rd, answer: Answer)
    requires Suits(s, answer)
    ensures answer.FieldAnswer? ==>
      var x, y := answer.rec.forcedVal, s.field[NextAddr(s)].forcedVal; Differ(x, y) == Differ(y, x)
    ensures answer.ValueAnswer? ==>
      var x, y := answer.val, s.modbus[NextAddr(s)].val; Differ(x, y) == Differ(y, x)
  {}

  // ---- whole runs

  // What a run last did to a cache entry: nothing, made it anew, or stored an answer.
  datatype Last = Kept | Fresh | Got(answer: Answer)

  function LastOfStep(s: Rd, e: Step, a: IOAddr, field: bool): Last
    requires Enabled(s, e)
  {
    match e
    case Open(_, _, _, _, _, _) => Fresh
    case Close => Fresh
    case Read(answer) => if answer.FieldAnswer? == field && NextAddr(s) == a then Got(answer) else Kept
    case _ => Kept
  }

  function LastOf(scr: Screens, s: Rd, run: seq<Step>, a: IOAddr, field: bool): Last
    requires Feasible(scr, s, run)
    decreases |run|
  {
    if run == [] then Kept
    else
      var rest := LastOf(scr, Apply(scr, s, run[0]), run[1..], a, field);
      if rest.Kept? then LastOfStep(s, run[0], a, field) else rest
  }

  predicate FieldHolds(s: Rd, s': Rd, a: IOAddr, last: Last) {
    match last
    case Kept => (a in s.field <==> a in s'.field) && (a in s.field ==> s'.field[a] == s.field[a])
    case Fresh => a in s'.field ==> s'.field[a] == NEW_FIELD
    case Got(FieldAnswer(r)) =>
      a in s'.field && s'.field[a] == FieldData(r.time, r.val, r.forcedVal, r.q, r.forced, false)
    case _ => false
  }

  predicate ValueHolds(s: Rd, s': Rd, a: IOAddr, last: Last) {
    match last
    case Kept => (a in s.modbus <==> a in s'.modbus) && (a in s.modbus ==> s'.modbus[a] == s.modbus[a])
    case Fresh => a in s'.modbus ==> s'.modbus[a] == NEW_VALUE
    case Got(WordAnswer(w, now)) =>
      a in s'.modbus && s'.modbus[a].(val := 0) == ModbusData(now, 0, w, OK, false)
    case Got(ValueAnswer(v, now)) =>
      a in s'.modbus && s'.modbus[a].(word := 0) == ModbusData(now, v, 0, OK, false)
    case _ => false
  }

  lemma StepHolds(scr: Screens, s: Rd, e: Step, a: IOAddr)
    requires Enabled(s, e)
    ensures FieldHolds(s, Apply(scr, s, e), a, LastOfStep(s, e, a, true))
    ensures ValueHolds(s, Apply(scr, s, e), a, LastOfStep(s, e, a, false))
  {
    hide Changed, OnRead, OnDeliver, Suits, OrderOf;
    if e.Read? { AnswerIsCached(s, e.answer); SuitsKind(s, e.answer); }
  }

  lemma SuitsKind(s: Rd, answer: Answer)
    requires Suits(s, answer)
    ensures if answer.FieldAnswer? then NextAddr(s) in s.field else NextAddr(s) in s.modbus
  {}

  lemma FieldHoldsOn(s: Rd, s1: Rd, s2: Rd, a: IOAddr, first: Last, next: Last)
    requires FieldHolds(s, s1, a, first) && FieldHolds(s1, s2, a, next)
    ensures FieldHolds(s, s2, a, if next.Kept? then first else next)
  {}

  lemma ValueHoldsOn(s: Rd, s1: Rd, s2: Rd, a: IOAddr, first: Last, next: Last)
    requires ValueHolds(s, s1, a, first) && ValueHolds(s1, s2, a, next)
    ensures ValueHolds(s, s2, a, if next.Kept? then first else next)
  {}

  // Over every run, for every address: the cache holds the last answer given for it since the
  // driver was opened, every field of it, and what a new entry holds before the first.
  lemma {:induction false} CacheHoldsLastAnswer(scr: Screens, s: Rd, run: seq<Step>, a: IOAddr)
    requires Feasible(scr, s, run)
    ensures FieldHolds(s, Exec(scr, s, run), a, LastOf(scr, s, run, a, true))
    ensures ValueHolds(s, Exec(scr, s, run), a, LastOf(scr, s, run, a, false))
    decreases |run|
  {
    hide FieldHolds, ValueHolds, Enabled, Apply, LastOfStep;
    if run == [] {
      NothingDone(s, a);
    } else {
      var s1 := Apply(scr, s, run[0]);
      StepHolds(scr, s, run[0], a);
      CacheHoldsLastAnswer(scr, s1, run[1..], a);
      var s2 := Exec(scr, s1, run[1..]);
      FieldHoldsOn(s, s1, s2, a, LastOfStep(s, run[0], a, true), LastOf(scr, s1, run[1..], a, true));
      ValueHoldsOn(s, s1, s2, a, LastOfStep(s, run[0], a, false), LastOf(scr, s1, run[1..], a, false));
    }
  }

  lemma NothingDone(s: Rd, a: IOAddr)
    ensures FieldHolds(s, s, a, Kept) && ValueHolds(s, s, a, Kept)
  {}

  // What the screens show of an answer: a word exactly, floats as != compares them, and the quality
  // of the answer unless the last delivery fell while the link was lost.
  predicate ShowsAnswer(v: Shown, answer: Answer, lost: bool) {
    match (v, answer)
    case (ShownWord(w), WordAnswer(w', _)) => w == w'
    case (ShownValue(v, q), ValueAnswer(v', _)) => Same(v, v') && q == (if lost then ComError else OK)
    case (ShownField(v, f, b, q), FieldAnswer(r)) =>
      Same(v, r.val) && Same(f, r.forcedVal) && b == r.forced && q == (if lost then ComError else r.q)
    case _ => false
  }

  lemma FieldShown(scr: Screens, s: Rd, s': Rd, a: IOAddr, answer: Answer)
    requires answer.FieldAnswer? && FieldHolds(s, s', a, Got(answer)) && UpToDate(scr, s', a)
    requires a in scr.vars && !(1 <= a.channel <= scr.ioInts) && a !in s'.modbus
    ensures a in s'.shown && a in s'.shownIn && ShowsAnswer(s'.shown[a], answer, s'.shownIn[a] == COMError)
  {
    hide Same;
  }

  lemma ValueShown(scr: Screens, s: Rd, s': Rd, a: IOAddr, answer: Answer)
    requires answer.ValueAnswer? && ValueHolds(s, s', a, Got(answer)) && UpToDate(scr, s', a)
    requires a in scr.vars && !(1 <= a.channel <= scr.ioInts)
    ensures a in s'.shown && a in s'.shownIn && ShowsAnswer(s'.shown[a], answer, s'.shownIn[a] == COMError)
  {
    hide Same;
  }

  lemma WordShown(scr: Screens, s: Rd, s': Rd, a: IOAddr, answer: Answer)
    requires answer.WordAnswer? && ValueHolds(s, s', a, Got(answer)) && UpToDate(scr, s', a)
    requires 1 <= a.channel <= scr.ioInts
    ensures a in s'.shown && a in s'.shownIn && ShowsAnswer(s'.shown[a], answer, s'.shownIn[a] == COMError)
  {}

  // The kind of answer by which the image shows an address.
  predicate Showable(scr: Screens, s: Rd, a: IOAddr, answer: Answer) {
    match answer
    case WordAnswer(_, _) => 1 <= a.channel <= scr.ioInts
    case ValueAnswer(_, _) => a in scr.vars && !(1 <= a.channel <= scr.ioInts)
    case FieldAnswer(_) => a in scr.vars && !(1 <= a.channel <= scr.ioInts) && a !in s.modbus
  }

  // Over every run from the start: of an address that is not waiting, the screens show the last
  // answer the link gave.
  lemma ScreensShowLastAnswer(scr: Screens, run: seq<Step>, a: IOAddr, answer: Answer)
    requires Feasible(scr, START, run)
    requires LastOf(scr, START, run, a, answer.FieldAnswer?) == Got(answer)
    requires var s := Exec(scr, START, run); !Waiting(s, a) && Showable(scr, s, a, answer)
    ensures var s := Exec(scr, START, run);
      a in s.shown && a in s.shownIn && ShowsAnswer(s.shown[a], answer, s.shownIn[a] == COMError)
  {
    hide Feasible, Exec, LastOf, UpToDate, ShowsAnswer;
    var s := Exec(scr, START, run);
    CacheHoldsLastAnswer(scr, START, run, a);
    NothingKnown(scr);
    NothingIsLost(scr, START, run);
    assert Known(s, a);
    match answer
    case FieldAnswer(_) => FieldShown(scr, START, s, a, answer);
    case ValueAnswer(_, _) => ValueShown(scr, START, s, a, answer);
    case WordAnswer(_, _) => WordShown(scr, START, s, a, answer);
  }
}
