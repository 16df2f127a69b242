// What the two transition systems prove, said of the objects: an image and a driver whose methods
// have been called in any order since they were made.
module HmiGuarantees {
  import opened CommonTypes
  import opened MasterRuns
  import opened MasterDriver
  import W = WriteProtocol
  import R = ReadProtocol
  import S = ButtonSafety
  import B = ButtonResults
  import V = ReadResults
  import C = ReadCycle

  // The image and the driver have come this way from their constructors.
  ghost predicate Reached(d: ModbusMasterDrv, i: RegImage, ws: seq<W.Step>, rs: seq<R.Step>)
    reads d, i
  {
    Writes(i.config, W.START, ws, WriteState(d, i)) && Reads(i.TheScreens(), R.START, rs, ReadState(d, i))
  }

  // A call that is a run of both sides goes on from there.
  lemma StillReached(d: ModbusMasterDrv, i: RegImage, ws: seq<W.Step>, rs: seq<R.Step>,
                     before: W.Hmi, was: R.Rd, ws': seq<W.Step>, rs': seq<R.Step>)
    requires Writes(i.config, W.START, ws, before) && Writes(i.config, before, ws', WriteState(d, i))
    requires Reads(i.TheScreens(), R.START, rs, was) && Reads(i.TheScreens(), was, rs', ReadState(d, i))
    ensures Reached(d, i, ws + ws', rs + rs')
  {
    hide Writes, Reads;
    WritesJoin(i.config, W.START, ws, before, ws', WriteState(d, i));
    ReadsJoin(i.TheScreens(), R.START, rs, was, rs', ReadState(d, i));
  }

  // A button is in one phase at most, with one live token while it is in one; acknowledged values
  // come in pairs; and a press is answered by a release acknowledged, by a press error, or is in
  // flight.
  lemma ButtonsOfTheImage(d: ModbusMasterDrv, i: RegImage, ws: seq<W.Step>, rs: seq<R.Step>, a: IOAddr)
    requires Reached(d, i, ws, rs) && W.ValidConfig(i.config)
    requires W.Feasible(i.config, W.START, ws) && S.HarmlessRun(i.config, W.START, ws)
    ensures var s, held := WriteState(d, i), if a in i.buttonWrites || a in i.buttonWritesToClean then 1 else 0;
      && !(a in i.buttonWrites && a in i.buttonWritesToClean)
      && S.Live(s)[W.Token(a, true)] + S.Live(s)[W.Token(a, false)] == held
      && (a in i.buttonWrites ==> S.InQueue(d.pending)[W.Token(a, i.buttonWrites[a])] == 1)
      && (a in i.buttonWritesToClean ==> S.Live(s)[W.Token(a, i.buttonWritesToClean[a])] == 1)
      && B.Paired(B.Acks(i.log, a), S.TablePhase(s, a))
      && B.Presses(i.log, a) == |B.Acks(i.log, a)| / 2 + B.Reports(i.log, a) + held
  {
    B.ButtonRuns(i.config, ws, a);
  }

  // Every request the driver accepted is answered once or pending, and a driver that is stopped or
  // closed holds nothing.
  lemma RequestsOfTheImage(d: ModbusMasterDrv, i: RegImage, ws: seq<W.Step>, rs: seq<R.Step>)
    requires Reached(d, i, ws, rs)
    ensures S.AcceptedReqs(i.log) == multiset(d.pending) + S.AnsweredReqs(i.log)
    ensures d.state == Stopped || d.state == UnInit ==> d.pending == [] && !d.connected
  {
    B.AnsweredOnce(i.config, ws);
  }

  // Whatever has been read is on the screens or waiting to go there; once there, its quality is
  // the cached one unless the last delivery fell while the link was lost.
  lemma ScreensOfTheImage(d: ModbusMasterDrv, i: RegImage, ws: seq<W.Step>, rs: seq<R.Step>)
    requires Reached(d, i, ws, rs)
    ensures V.Lossless(i.TheScreens(), ReadState(d, i))
    ensures var scr, s := i.TheScreens(), ReadState(d, i);
      forall a | V.Known(s, a) && !V.Waiting(s, a) :: V.ShowsCache(scr, s, a) <==> !V.StaleQuality(scr, s, a)
  {
    hide R.Feasible, R.Exec, V.Known, V.UpToDate, V.ShowsCache, V.StaleQuality;
    var scr, s := i.TheScreens(), ReadState(d, i);
    V.NothingKnown(scr);
    V.NothingIsLost(scr, R.START, rs);
    forall a | V.UpToDate(scr, s, a) ensures V.ShowsCache(scr, s, a) <==> !V.StaleQuality(scr, s, a) {
      V.ShowsCacheIff(scr, s, a);
    }
  }

  // The reads go round the driver's tables in their order, and a link is up only if it was made in
  // this cycle.
  lemma ReadsOfTheDriver(d: ModbusMasterDrv, i: RegImage, ws: seq<W.Step>, rs: seq<R.Step>)
    requires Reached(d, i, ws, rs)
    ensures var c := C.CycleOf(d.log);
      && c.legal && c.order == d.fieldOrder + d.modbusOrder && c.pos == d.fieldIt + d.modbusIt
      && (d.state == Running && d.connected ==> c.linked)
  {
    hide R.Feasible, R.Exec, C.CycleOf, C.Orders;
    C.StartFollows();
    C.RunFollows(i.TheScreens(), R.START, rs);
    assert C.Follows(ReadState(d, i));
  }
}
