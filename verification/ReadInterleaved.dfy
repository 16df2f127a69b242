// The read side with each read in two steps, as the source locks it: the change is marked under one
// lock and the answer stored under another, and the image may poll and deliver in between.
module ReadInterleaved {
  import opened CommonTypes
  import opened SlaveBlocks
  import opened ReadProtocol
  import opened ReadResults

  // The answer the driver has marked and not yet stored.
  datatype Half = Half(rd: Rd, hand: Option<Answer>)

  datatype HalfStep = Whole(step: Step) | MarkIt(answer: Answer) | StoreIt

  // The driver holds its state's lock during a read; the image needs it neither to poll nor to
  // deliver.
  predicate Can(h: Half, x: HalfStep) {
    match x
    case Whole(e) => Enabled(h.rd, e) && !e.Read? && (h.hand.Some? ==> e.Poll? || e.Deliver?)
    case MarkIt(answer) => h.hand.None? && Enabled(h.rd, Read(answer))
    case StoreIt => h.hand.Some? && Suits(h.rd, h.hand.value)
  }

  function Stored(s: Rd, answer: Answer): Rd
    requires Suits(s, answer)
  {
    Advance(Store(s, answer))
  }

  function Next(scr: Screens, h: Half, x: HalfStep): Half
    requires Can(h, x)
  {
    match x
    case Whole(e) => h.(rd := Apply(scr, h.rd, e))
    case MarkIt(answer) => Half(Mark(h.rd, answer), Some(answer))
    case StoreIt => Half(Stored(h.rd, h.hand.value), None)
  }

  predicate Goes(scr: Screens, h: Half, run: seq<HalfStep>)
    decreases |run|
  {
    run == [] || (Can(h, run[0]) && Goes(scr, Next(scr, h, run[0]), run[1..]))
  }

  // A store is safe when its change is still to be delivered, the variable is shown nowhere, or the
  // answer is shown as the cache was.
  predicate Safe(scr: Screens, h: Half, x: HalfStep)
    requires Can(h, x)
  {
    x.StoreIt? ==>
      var s, a := h.rd, NextAddr(h.rd);
      Waiting(s, a) || View(scr, s, a).None? || LooksAlike(scr, s, Store(s, h.hand.value), a)
  }

  predicate LooksAlike(scr: Screens, s: Rd, s': Rd, a: IOAddr) {
    match (View(scr, s, a), View(scr, s', a))
    case (Some(v), Some(v')) => a in s.shownIn ==> SameShown(Passed(s.shownIn[a], v), Passed(s.shownIn[a], v'))
    case _ => false
  }

  predicate SafeRun(scr: Screens, h: Half, run: seq<HalfStep>)
    requires Goes(scr, h, run)
    decreases |run|
  {
    run == [] || (Safe(scr, h, run[0]) && SafeRun(scr, Next(scr, h, run[0]), run[1..]))
  }

  // In every state of the run.
  ghost predicate AlwaysLossless(scr: Screens, h: Half, run: seq<HalfStep>)
    requires Goes(scr, h, run)
    decreases |run|
  {
    Lossless(scr, h.rd) && (run == [] || AlwaysLossless(scr, Next(scr, h, run[0]), run[1..]))
  }

  // The answer in hand can be stored, and its variable counts as read. (Of an address read both as a
  // field and as a Modbus variable, the latter counts.)
  predicate InHand(h: Half) {
    h.hand.Some? ==>
      && Suits(h.rd, h.hand.value)
      && (Known(h.rd, NextAddr(h.rd)) || (h.hand.value.FieldAnswer? && NextAddr(h.rd) in h.rd.modbus))
  }

  lemma SameShownIsSymmetric(x: Shown, y: Shown)
    requires SameShown(x, y)
    ensures SameShown(y, x)
  {}

  // ---- the steps

  lemma MarkLosesNothing(scr: Screens, s: Rd, answer: Answer)
    requires Lossless(scr, s) && Suits(s, answer)
    ensures Lossless(scr, Mark(s, answer)) && InHand(Half(Mark(s, answer), Some(answer)))
  {
    hide Differ, Same, SameShown, View;
    var s' := Mark(s, answer);
    forall b | Known(s', b) ensures Waiting(s', b) || UpToDate(scr, s', b) {
      if b != NextAddr(s) {
        MarksOnly(s, answer, b);
        Untouched(scr, s, s', b);
      }
    }
  }

  lemma StoreElsewhere(scr: Screens, s: Rd, answer: Answer, b: IOAddr)
    requires Suits(s, answer) && b != NextAddr(s)
    ensures var s' := Stored(s, answer);
      && Known(s', b) == Known(s, b) && Waiting(s', b) == Waiting(s, b)
      && UpToDate(scr, s', b) == UpToDate(scr, s, b)
  {
    hide View, SameShown, Store;
    var s' := Stored(s, answer);
    StoresOnly(s, answer, b);
    Untouched(scr, s, s', b);
    StillUpToDate(scr, s, s', b);
  }

  lemma StoredLooks(scr: Screens, s: Rd, answer: Answer)
    requires Suits(s, answer)
    ensures var s', a := Stored(s, answer), NextAddr(s);
      && View(scr, s', a) == View(scr, Store(s, answer), a) && Known(s', a) == Known(s, a)
      && Waiting(s', a) == Waiting(s, a) && s'.shown == s.shown && s'.shownIn == s.shownIn
      && View(scr, s', a).Some? == View(scr, s, a).Some?
  {}

  lemma StoreShows(scr: Screens, s: Rd, answer: Answer)
    requires Suits(s, answer) && UpToDate(scr, s, NextAddr(s))
    ensures UpToDate(scr, Stored(s, answer), NextAddr(s))
      <==> View(scr, s, NextAddr(s)).None? || LooksAlike(scr, s, Store(s, answer), NextAddr(s))
  {
    hide View, SameShown, Passed, Store, Known, Waiting;
    var s', a := Stored(s, answer), NextAddr(s);
    StoredLooks(scr, s, answer);
    if View(scr, s, a).Some? {
      var shown, st := s.shown[a], s.shownIn[a];
      var v, v' := Passed(st, View(scr, s, a).value), Passed(st, View(scr, s', a).value);
      SameShownIsSymmetric(shown, v);
      if SameShown(v, v') { SameShownIsTransitive(shown, v, v'); }
      if SameShown(shown, v') { SameShownIsTransitive(v, shown, v'); }
    }
  }

  // A store loses nothing exactly when it is safe.
  lemma StoreIsSafeIff(scr: Screens, h: Half)
    requires Lossless(scr, h.rd) && InHand(h) && Can(h, StoreIt)
    ensures Lossless(scr, Next(scr, h, StoreIt).rd) <==> Safe(scr, h, StoreIt)
  {
    hide View, SameShown, Passed, Store, Known, Waiting, UpToDate, LooksAlike;
    var s, answer, a := h.rd, h.hand.value, NextAddr(h.rd);
    var s' := Next(scr, h, StoreIt).rd;
    forall b | b != a && Known(s', b) ensures Waiting(s', b) || UpToDate(scr, s', b) {
      StoreElsewhere(scr, s, answer, b);
    }
    StoredLooks(scr, s, answer);
    if Known(s, a) {
      if !Waiting(s, a) { StoreShows(scr, s, answer); }
    } else {
      FieldBehindValue(scr, s, answer);
      AlikeItself(scr, s, Store(s, answer), a);
    }
  }

  lemma AlikeItself(scr: Screens, s: Rd, s': Rd, a: IOAddr)
    requires View(scr, s', a) == View(scr, s, a)
    ensures View(scr, s, a).None? || LooksAlike(scr, s, s', a)
  {
    hide View, SameShown, Passed;
    if View(scr, s, a).Some? && a in s.shownIn { LooksLikeItself(Passed(s.shownIn[a], View(scr, s, a).value)); }
  }

  lemma StillInHand(scr: Screens, h: Half, x: HalfStep)
    requires InHand(h) && Can(h, x)
    ensures x.Whole? ==> InHand(Next(scr, h, x))
  {
    hide OnDeliver;
  }

  // Every step keeps the screens complete exactly when it is not an unsafe store.
  lemma HalfStepIsSafeIff(scr: Screens, h: Half, x: HalfStep)
    requires Lossless(scr, h.rd) && InHand(h) && Can(h, x)
    ensures Lossless(scr, Next(scr, h, x).rd) <==> Safe(scr, h, x)
    ensures InHand(Next(scr, h, x))
  {
    hide Lossless, Known, InHand;
    match x
    case Whole(e) =>
      StepLosesNothing(scr, h.rd, e);
      StillInHand(scr, h, x);
    case MarkIt(answer) => MarkLosesNothing(scr, h.rd, answer);
    case StoreIt =>
      StoreIsSafeIff(scr, h);
      NothingInHand(Next(scr, h, x));
  }

  lemma NothingInHand(h: Half)
    requires h.hand.None?
    ensures InHand(h)
  {}

  lemma {:induction false} LosslessFromIff(scr: Screens, h: Half, run: seq<HalfStep>)
    requires Lossless(scr, h.rd) && InHand(h) && Goes(scr, h, run)
    ensures AlwaysLossless(scr, h, run) <==> SafeRun(scr, h, run)
    decreases |run|
  {
    hide Lossless, InHand, Can, Next, Safe;
    if run != [] {
      HalfStepIsSafeIff(scr, h, run[0]);
      var h' := Next(scr, h, run[0]);
      if Safe(scr, h, run[0]) {
        LosslessFromIff(scr, h', run[1..]);
      } else {
        assert !AlwaysLossless(scr, h', run[1..]);
      }
    }
  }

  // Over every run from the start, however polls and deliveries fall into reads: in every state
  // each variable read is waiting or on the screens, if and only if no answer is stored whose change
  // has been delivered in between and that looks different.
  lemma InterleavedLosslessIff(scr: Screens, run: seq<HalfStep>)
    requires Goes(scr, Half(START, None), run)
    ensures AlwaysLossless(scr, Half(START, None), run) <==> SafeRun(scr, Half(START, None), run)
  {
    NothingKnown(scr);
    LosslessFromIff(scr, Half(START, None), run);
  }

  // A read that nothing interrupts is safe, and is the one step of the protocol.
  lemma UninterruptedIsSafe(scr: Screens, s: Rd, answer: Answer)
    requires Enabled(s, Read(answer))
    ensures var h := Next(scr, Half(s, None), MarkIt(answer));
      Can(h, StoreIt) && Safe(scr, h, StoreIt) && Next(scr, h, StoreIt) == Half(OnRead(s, answer), None)
  {
    hide Changed, View, SameShown, Passed, Store, LooksAlike;
    if !Changed(s, answer) && View(scr, s, NextAddr(s)).Some? { UnmarkedLooksAlike(scr, s, answer); }
  }

  lemma UnmarkedLooksAlike(scr: Screens, s: Rd, answer: Answer)
    requires Suits(s, answer) && !Changed(s, answer) && View(scr, s, NextAddr(s)).Some?
    ensures LooksAlike(scr, s, Store(s, answer), NextAddr(s))
  {
    hide Changed, View, SameShown, Passed, Store;
    var a := NextAddr(s);
    UnchangedView(scr, s, answer, a);
    if a in s.shownIn { PassedAlike(s.shownIn[a], View(scr, s, a).value, View(scr, Store(s, answer), a).value); }
  }
}
