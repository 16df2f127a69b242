// The driver's loop turn after turn, over a link that answers: the queue of requests empties.
module DriverTurns {
  import opened CommonTypes
  import opened MasterRuns
  import opened MasterDriver
  import T = Transmission
  import W = WriteProtocol
  import R = ReadProtocol

  // The link lets every call through.
  ghost predicate AlwaysUp(link: T.Link) { forall k :: link.up(k) }

  // Over such a link every call is answered that is not refused for its address.
  lemma {:induction false} WritesGetThrough(link: T.Link, numRO: nat, r: W.Req, k: nat)
    requires AlwaysUp(link)
    ensures var parts := T.WriteParts(numRO, r.addr.channel, r.force, r.forcedVal, r.val);
      T.Done(link, parts, k) == if k < |parts| then k else |parts|
  {
    if k > 0 { WritesGetThrough(link, numRO, r, k - 1); }
  }

  lemma AllGo(link: T.Link, numRO: nat, r: W.Req)
    requires AlwaysUp(link)
    ensures Goes(link, numRO, r)
  {
    WritesGetThrough(link, numRO, r, |T.WriteParts(numRO, r.addr.channel, r.force, r.forcedVal, r.val)| + 1);
  }

  // What the loop does to the write side: it answers requests and handles its link, and takes no new
  // request.
  predicate Answering(e: W.Step) { e.Ack? || e.Expire? }

  predicate Quiet(ws: seq<W.Step>) {
    forall e | e in ws :: Answering(e) || e.Fault? || e.Disconnect? || e.Connect?
  }

  lemma {:induction false} QuietShrinks(cfg: W.Config, s: W.Hmi, ws: seq<W.Step>, s': W.Hmi)
    requires Writes(cfg, s, ws, s') && Quiet(ws)
    ensures |s'.pending| <= |s.pending|
    ensures (forall e | e in ws :: Answering(e)) ==>
      |s'.pending| + |ws| == |s.pending| && s'.state == s.state && s'.connected == s.connected
    decreases |ws|
  {
    if ws != [] {
      assert ws[0] in ws;
      OneQuiet(cfg, s, ws[0]);
      QuietShrinks(cfg, W.Apply(cfg, s, ws[0]), ws[1..], s');
    }
  }

  lemma OneQuiet(cfg: W.Config, s: W.Hmi, e: W.Step)
    requires W.Enabled(s, e) && Quiet([e])
    ensures var s' := W.Apply(cfg, s, e);
      if Answering(e) then |s'.pending| + 1 == |s.pending| && s'.state == s.state && s'.connected == s.connected
      else s'.pending == s.pending
  {
    assert e in [e];
  }

  // A turn of the write cycle over such a link: expirations and one acknowledgement, or expirations
  // that leave nothing.
  lemma DoneAnswers(link: T.Link, numRO: nat, now: int, sent: Option<W.Req>, ws: seq<W.Step>,
                    pending: seq<W.Req>, log: seq<W.Event>)
    requires AlwaysUp(link) && WriteDone(link, numRO, now, sent, ws, pending, log)
    ensures (forall e | e in ws :: Answering(e)) && (ws != [] || pending == [])
  {
    hide Goes, W.Due;
    if sent.Some? {
      AllGo(link, numRO, sent.value);
      assert ws == ws[..|ws| - 1] + [ws[|ws| - 1]];
    }
  }

  // The write cycle is under way, or due at this time.
  ghost predicate InWriteCycle(d: ModbusMasterDrv, clock: int)
    reads d
  {
    d.state == Running && d.connected && (d.inWriteCycle || d.millisToWriteCycle <= clock - d.lastTimePoint)
  }

  // One turn: a request less, and the write cycle goes on.
  method Turn(d: ModbusMasterDrv, i: RegImage, w: World) returns (ghost ws: seq<W.Step>, ghost rs: seq<R.Step>)
    requires d.Valid() && T.BitInputs(w.link) && AlwaysUp(w.link)
    requires d.pending == [] || InWriteCycle(d, w.clock)
    modifies d, i`buttonWrites, i`buttonWritesToClean, i`uncompleted, i`log
    ensures d.Valid() && Quiet(ws)
    ensures Writes(i.config, old(WriteState(d, i)), ws, WriteState(d, i))
    ensures Reads(i.TheScreens(), old(ReadState(d, i)), rs, ReadState(d, i))
    ensures d.pending == [] || (|d.pending| < old(|d.pending|) && d.state == Running && d.connected && d.inWriteCycle)
  {
    hide Writes, Reads, WriteDone, Truthful, Goes, Covered, R.Pending, R.NextAddr;
    ghost var sent;
    ws, rs, sent := d.DriverLoop(i, w);
    if old(d.pending) != [] { DoneAnswers(w.link, d.numRO, w.now, sent, ws, d.pending, i.log); }
    QuietShrinks(i.config, old(WriteState(d, i)), ws, WriteState(d, i));
  }

  // Once the write cycle is due, each turn of the loop takes at least one request off the queue, by
  // an acknowledgement or a time-out: n turns leave at most |pending| - n, and |pending| turns none,
  // if the image asks for nothing meanwhile.
  method Turns(d: ModbusMasterDrv, i: RegImage, worlds: seq<World>)
    returns (ghost ws: seq<W.Step>, ghost rs: seq<R.Step>)
    requires d.Valid() && forall w | w in worlds :: T.BitInputs(w.link) && AlwaysUp(w.link)
    requires d.pending == [] || worlds == [] || InWriteCycle(d, worlds[0].clock)
    modifies d, i`buttonWrites, i`buttonWritesToClean, i`uncompleted, i`log
    ensures d.Valid() && Quiet(ws)
    ensures Writes(i.config, old(WriteState(d, i)), ws, WriteState(d, i))
    ensures Reads(i.TheScreens(), old(ReadState(d, i)), rs, ReadState(d, i))
    ensures d.pending == [] || |d.pending| + |worlds| <= old(|d.pending|)
  {
    hide Writes, Reads, Covered, T.BitInputs, AlwaysUp;
    ghost var was, rd := WriteState(d, i), ReadState(d, i);
    Nothing(i.config, was, i.TheScreens(), rd);
    ws, rs := [], [];
    for k := 0 to |worlds|
      invariant d.Valid() && Quiet(ws)
      invariant Writes(i.config, was, ws, WriteState(d, i)) && Reads(i.TheScreens(), rd, rs, ReadState(d, i))
      invariant d.pending == [] || |d.pending| + k <= old(|d.pending|)
      invariant d.pending == [] || k == |worlds| || InWriteCycle(d, worlds[k].clock)
    {
      ghost var s, r := WriteState(d, i), ReadState(d, i);
      ghost var ws', rs';
      assert worlds[k] in worlds;
      ws', rs' := Turn(d, i, worlds[k]);
      WritesJoin(i.config, was, ws, s, ws', WriteState(d, i));
      ReadsJoin(i.TheScreens(), rd, rs, r, rs', ReadState(d, i));
      ws, rs := ws + ws', rs + rs';
    }
  }
}
