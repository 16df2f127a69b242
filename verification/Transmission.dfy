// The retry loops of ModbusMasterDrv over an unreliable link. The k-th call of a transmission is
// answered or not as the link pleases; what the slave holds may change from one call to the next.
module Transmission {
  import opened CommonTypes
  import opened Codec
  import opened ModbusMap
  import opened SlaveBlocks

  const MAX_TRANSMISSION_TRYS := 3

  datatype Call =
    | ReadRegisters(addr: int, count: nat)
    | ReadInputRegisters(addr: int, count: nat)
    | ReadInputBits(addr: int, count: nat)
    | ReadBits(addr: int, count: nat)
    | WriteBit(addr: int, status: bool)
    | WriteRegisters(addr: int, words: seq<Register>)

  datatype Link = Link(up: nat -> bool, peer: nat -> Block)

  datatype Reply = NoReply | Words(regs: seq<Register>) | Bits(bits: seq<bv8>) | Written

  function WordsOf(o: Option<seq<Register>>): Reply {
    if o.Some? then Words(o.value) else NoReply
  }

  function BitsOf(o: Option<seq<bv8>>): Reply {
    if o.Some? then Bits(o.value) else NoReply
  }

  // A call the link lets through is answered unless it reads outside the slave's blocks.
  function ReplyTo(link: Link, k: nat, c: Call): Reply {
    if !link.up(k) then NoReply
    else
      match c
      case ReadRegisters(a, n) => WordsOf(ReadBlock(link.peer(k).registers, HRADDRESS, a, n))
      case ReadInputRegisters(a, n) => WordsOf(ReadBlock(link.peer(k).inputRegisters, IRADDRESS, a, n))
      case ReadInputBits(a, n) => BitsOf(ReadBlock(link.peer(k).inputBits, DIADDRESS, a, n))
      case ReadBits(a, n) => BitsOf(ReadBlock(link.peer(k).bits, COILADDRESS, a, n))
      case _ => Written
  }

  predicate Answered(link: Link, k: nat, c: Call) {
    ReplyTo(link, k, c) != NoReply
  }

  // The parts acknowledged after k calls, when each call is for the first part still missing.
  function Done(link: Link, parts: seq<Call>, k: nat): (n: nat)
    ensures n <= k && n <= |parts|
  {
    if k == 0 then 0
    else
      var n := Done(link, parts, k - 1);
      if n < |parts| && Answered(link, k - 1, parts[n]) then n + 1 else n
  }

  predicate Over(link: Link, parts: seq<Call>, k: nat) {
    Done(link, parts, k) == |parts| || k - Done(link, parts, k) >= MAX_TRANSMISSION_TRYS
  }

  // The calls of one transmission: each for the first part still missing, so that parts go in
  // their order and none is repeated once acknowledged; the transmission stops at once when all
  // are acknowledged or the last round has failed.
  ghost predicate Sent(link: Link, parts: seq<Call>, calls: seq<Call>) {
    Over(link, parts, |calls|) && SentSoFar(link, parts, calls)
  }

  ghost predicate SentSoFar(link: Link, parts: seq<Call>, calls: seq<Call>) {
    forall i | 0 <= i < |calls| :: !Over(link, parts, i) && calls[i] == parts[Done(link, parts, i)]
  }

  lemma NothingSent(link: Link, parts: seq<Call>)
    ensures Done(link, parts, 0) == 0 && SentSoFar(link, parts, [])
  {}

  // What the retry loop of two or more parts reports.
  predicate Reported(link: Link, parts: seq<Call>) {
    Done(link, parts, |parts| + 1) == |parts|
  }

  lemma {:induction false} DoneGrows(link: Link, parts: seq<Call>, i: nat, j: nat)
    requires i <= j
    ensures Done(link, parts, i) <= Done(link, parts, j) <= Done(link, parts, i) + (j - i)
    ensures Done(link, parts, i) == |parts| ==> Done(link, parts, j) == |parts|
  {
    if i < j { DoneGrows(link, parts, i, j - 1); }
  }

  // At most one failed call: the loop's counter stands at most at its limit exactly when the
  // parts were all acknowledged before the last round.
  lemma ReportedIff(link: Link, parts: seq<Call>, calls: seq<Call>)
    requires parts != [] && Sent(link, parts, calls)
    ensures Reported(link, parts) <==> Done(link, parts, |calls|) == |parts| && |calls| <= |parts| + 1
    ensures |calls| <= |parts| + 2
  {
    assert Over(link, parts, |parts| + 2);
    if |calls| <= |parts| + 1 {
      DoneGrows(link, parts, |calls|, |parts| + 1);
    } else {
      assert !Over(link, parts, |parts| + 1);
    }
  }

  // How many of the first k calls the link leaves unanswered.
  function Unanswered(link: Link, parts: seq<Call>, k: nat): nat {
    if k == 0 then 0
    else
      var n := Done(link, parts, k - 1);
      Unanswered(link, parts, k - 1) + if n < |parts| && !Answered(link, k - 1, parts[n]) then 1 else 0
  }

  // Every call is answered or not, until all parts are acknowledged; from then on none is made.
  lemma {:induction false} CallsAddUp(link: Link, parts: seq<Call>, k: nat)
    ensures Done(link, parts, k) + Unanswered(link, parts, k) <= k
    ensures Done(link, parts, k) < |parts| ==> Done(link, parts, k) + Unanswered(link, parts, k) == k
  {
    if k > 0 { CallsAddUp(link, parts, k - 1); }
  }

  // A report of success allows for one unanswered call and no more. With two the transmission may
  // still acknowledge every part, and it does exactly when no third call goes unanswered; then the
  // loop reports an error.
  lemma AllAcknowledgedYetFailedIff(link: Link, parts: seq<Call>, calls: seq<Call>)
    requires parts != [] && Sent(link, parts, calls)
    ensures Reported(link, parts) <==> Unanswered(link, parts, |parts| + 1) <= 1
    ensures Done(link, parts, |calls|) == |parts| && !Reported(link, parts)
      <==> Unanswered(link, parts, |parts| + 2) == 2
  {
    hide Answered;
    var n := |parts|;
    CallsAddUp(link, parts, n + 1);
    CallsAddUp(link, parts, n + 2);
    ReportedIff(link, parts, calls);
    DoneGrows(link, parts, |calls|, n + 2);
  }

  const LATE := Link(k => k >= 2, _ => Block([], [], [], []))

  lemma LateAcknowledgement(part: Call)
    requires part.WriteRegisters?
    ensures Sent(LATE, [part], [part, part, part]) && Done(LATE, [part], 3) == 1 && !Reported(LATE, [part])
  {
    assert Done(LATE, [part], 0) == 0 && Done(LATE, [part], 1) == 0 && Done(LATE, [part], 2) == 0;
  }

  // ---- a field variable: four reads

  function FieldParts(numRO: nat, channel: Byte): (p: seq<Call>)
    ensures |p| == 4
  {
    [ReadRegisters(ValueAddr(numRO, channel), 4), ReadInputRegisters(TimeAddr(numRO, channel), 4),
     ReadInputBits(QualityAddr(numRO, channel), 2), ReadBits(ForcedAddr(numRO, channel), 1)]
  }

  // The k-th call brought part j.
  ghost predicate Brought(link: Link, parts: seq<Call>, k: nat, j: nat, reply: Reply) {
    j < |parts| && Done(link, parts, k) == j && reply != NoReply && ReplyTo(link, k, parts[j]) == reply
  }

  // Each part of the answer is what the slave held when that part was acknowledged.
  ghost predicate Collected(link: Link, parts: seq<Call>, r: Raw) {
    && (exists k :: Brought(link, parts, k, 0, Words(r.vals)))
    && (exists k :: Brought(link, parts, k, 1, Words(r.ts)))
    && (exists k :: Brought(link, parts, k, 2, Bits(r.qs)))
    && (exists k :: Brought(link, parts, k, 3, Bits([r.forced])))
  }

  // The quality inputs the slave holds are bits.
  ghost predicate BitInputs(link: Link) {
    forall k, i :: 0 <= i < |link.peer(k).inputBits| ==> link.peer(k).inputBits[i] <= 1
  }

  lemma CollectedShape(link: Link, numRO: nat, channel: Byte, vals: Reply, ts: Reply, qs: Reply, bit: Reply)
    requires BitInputs(link)
    requires exists k :: Brought(link, FieldParts(numRO, channel), k, 0, vals)
    requires exists k :: Brought(link, FieldParts(numRO, channel), k, 1, ts)
    requires exists k :: Brought(link, FieldParts(numRO, channel), k, 2, qs)
    requires exists k :: Brought(link, FieldParts(numRO, channel), k, 3, bit)
    ensures vals.Words? && |vals.regs| == 4 && ts.Words? && |ts.regs| == 4
    ensures qs.Bits? && |qs.bits| == 2 && qs.bits[0] <= 1 && qs.bits[1] <= 1 && bit.Bits? && |bit.bits| == 1
  {
    hide Done;
  }

  // The flags of the loop, as the number of parts already there.
  predicate Flags(n: nat, hasVals: bool, hasTS: bool, hasQs: bool, hasForced: bool) {
    hasVals == (n >= 1) && hasTS == (n >= 2) && hasQs == (n >= 3) && hasForced == (n >= 4)
  }

  // One call of a retry loop, for the first part still missing.
  method Ask(link: Link, parts: seq<Call>, calls: seq<Call>, j: nat) returns (reply: Reply, got: bool, sent: seq<Call>)
    requires j < |parts| && Done(link, parts, |calls|) == j && |calls| - j < MAX_TRANSMISSION_TRYS
    requires SentSoFar(link, parts, calls)
    ensures sent == calls + [parts[j]] && SentSoFar(link, parts, sent)
    ensures got == (reply != NoReply) && Done(link, parts, |sent|) == if got then j + 1 else j
    ensures got ==> exists k :: Brought(link, parts, k, j, reply)
  {
    hide ReplyTo;
    reply := ReplyTo(link, |calls|, parts[j]);
    got := reply != NoReply;
    sent := calls + [parts[j]];
    assert got ==> Brought(link, parts, |calls|, j, reply);
  }

  method CollectFieldParts(link: Link, parts: seq<Call>)
    returns (ok: bool, vals: Reply, ts: Reply, qs: Reply, bit: Reply, calls: seq<Call>)
    requires |parts| == 4
    ensures Sent(link, parts, calls) && (ok <==> Reported(link, parts))
    ensures ok ==> (exists k :: Brought(link, parts, k, 0, vals)) && (exists k :: Brought(link, parts, k, 1, ts))
    ensures ok ==> (exists k :: Brought(link, parts, k, 2, qs)) && (exists k :: Brought(link, parts, k, 3, bit))
  {
    hide ReplyTo, Brought, Done, SentSoFar, Reported;
    vals, ts, qs, bit := NoReply, NoReply, NoReply, NoReply;
    var hasVals, hasTS, hasQs, hasForced := false, false, false, false;
    calls := [];
    NothingSent(link, parts);
    var trys := 1;
    while trys <= MAX_TRANSMISSION_TRYS && (!hasVals || !hasTS || !hasQs || !hasForced)
      invariant 1 <= trys
        && |calls| - Done(link, parts, |calls|) + 1 == if Done(link, parts, |calls|) < 4 then trys else trys - 1
      invariant Flags(Done(link, parts, |calls|), hasVals, hasTS, hasQs, hasForced)
      invariant SentSoFar(link, parts, calls)
      invariant hasVals ==> exists k :: Brought(link, parts, k, 0, vals)
      invariant hasTS ==> exists k :: Brought(link, parts, k, 1, ts)
      invariant hasQs ==> exists k :: Brought(link, parts, k, 2, qs)
      invariant hasForced ==> exists k :: Brought(link, parts, k, 3, bit)
    {
      if !hasVals {
        vals, hasVals, calls := Ask(link, parts, calls, 0);
      }
      if hasVals && !hasTS {
        ts, hasTS, calls := Ask(link, parts, calls, 1);
      }
      if hasVals && hasTS && !hasQs {
        qs, hasQs, calls := Ask(link, parts, calls, 2);
      }
      if hasVals && hasTS && hasQs && !hasForced {
        bit, hasForced, calls := Ask(link, parts, calls, 3);
      }
      trys := trys + 1;
    }
    ReportedIff(link, parts, calls);
    ok := trys < MAX_TRANSMISSION_TRYS + 1;
  }

  method ReadFieldParts(link: Link, numRO: nat, channel: Byte) returns (ok: bool, r: Raw, calls: seq<Call>)
    requires BitInputs(link)
    ensures Sent(link, FieldParts(numRO, channel), calls)
    ensures ok <==> Reported(link, FieldParts(numRO, channel))
    ensures ok ==> RawOk(r) && Collected(link, FieldParts(numRO, channel), r)
  {
    hide ReplyTo, FieldParts, Brought, Sent, Reported, BitInputs;
    var vals, ts, qs, bit;
    ok, vals, ts, qs, bit, calls := CollectFieldParts(link, FieldParts(numRO, channel));
    r := Raw([], [], [], 0);
    if ok {
      CollectedShape(link, numRO, channel, vals, ts, qs, bit);
      r := Raw(vals.regs, ts.regs, qs.bits, bit.bits[0]);
      assert [r.forced] == bit.bits;
    }
  }

  // If the slave's cells stood still meanwhile, the answer is the cells of the variable's record.
  lemma SteadySlave(sh: Shape, link: Link, b: Block, channel: Byte, r: Raw)
    requires Fits(sh, b) && IsVariable(sh.numRO, sh.numIO, channel) && RawOk(r)
    requires (forall k :: link.peer(k) == b) && Collected(link, FieldParts(sh.numRO, channel), r)
    ensures r == CellsOf(sh, b, SlaveIndex(sh.numRO, channel))
  {
    hide Done, CellsOf;
    MasterReadsRecord(sh, b, channel);
    var forced := ReadBlock(b.bits, COILADDRESS, ForcedAddr(sh.numRO, channel), 1);
    assert [r.forced][0] == r.forced;
    assert forced == Some([r.forced]);
  }

  // ---- one read of a read-only word or of a value

  // Here the last round counts: any answer within three calls is taken.
  method ReadOnePart(link: Link, part: Call) returns (ok: bool, reply: Reply, calls: seq<Call>)
    ensures Sent(link, [part], calls) && (ok <==> Done(link, [part], MAX_TRANSMISSION_TRYS) == 1)
    ensures ok ==> exists k :: Brought(link, [part], k, 0, reply)
  {
    hide Brought, Done, Reported, ReplyTo;
    var parts := [part];
    NothingSent(link, parts);
    reply, calls := NoReply, [];
    var got := false;
    var trys := 1;
    while trys <= MAX_TRANSMISSION_TRYS && !got
      invariant 1 <= trys <= MAX_TRANSMISSION_TRYS + 1 && |calls| == if got then trys else trys - 1
      invariant Done(link, parts, |calls|) == if got then 1 else 0
      invariant SentSoFar(link, parts, calls) && (got ==> |calls| <= MAX_TRANSMISSION_TRYS)
      invariant got ==> exists k :: Brought(link, parts, k, 0, reply)
      decreases MAX_TRANSMISSION_TRYS - trys, !got
    {
      reply, got, calls := Ask(link, parts, calls, 0);
      if !got { trys := trys + 1; }
    }
    DoneGrows(link, parts, |calls|, MAX_TRANSMISSION_TRYS);
    ok := trys < MAX_TRANSMISSION_TRYS + 1;
  }

  // ---- a queued write

  // A plain write is one part. A request to force sends the flag first and then, unless it takes
  // the forcing away, the value.
  function WriteParts(numRO: nat, channel: Byte, force: bool, forcedVal: bool, val: Float32): (p: seq<Call>)
    ensures 1 <= |p| <= 2
  {
    if !force then [WriteRegisters(ValueAddr(numRO, channel), SetFloat(val))]
    else if !forcedVal then [WriteBit(ForcedAddr(numRO, channel), false)]
    else [WriteBit(ForcedAddr(numRO, channel), true), WriteRegisters(ForcedValueAddr(numRO, channel), SetFloat(val))]
  }

  method SendWrite(link: Link, numRO: nat, channel: Byte, force: bool, forcedVal: bool, val: Float32)
    returns (ok: bool, calls: seq<Call>)
    ensures Sent(link, WriteParts(numRO, channel, force, forcedVal, val), calls)
    ensures ok <==> Reported(link, WriteParts(numRO, channel, force, forcedVal, val))
  {
    hide Brought, Done, Reported, ReplyTo, ValueAddr, ForcedValueAddr, ForcedAddr, SetFloat;
    var parts := WriteParts(numRO, channel, force, forcedVal, val);
    var reply;
    calls := [];
    NothingSent(link, parts);
    var forced := !force;
    var written := force && !forcedVal;
    var trys := 1;
    while trys <= MAX_TRANSMISSION_TRYS && (!forced || !written)
      invariant 1 <= trys && SentSoFar(link, parts, calls)
      invariant |calls| - Done(link, parts, |calls|) + 1 == if !forced || !written then trys else trys - 1
      invariant !forced ==> Done(link, parts, |calls|) == 0
      invariant !force ==> forced && Done(link, parts, |calls|) == if written then 1 else 0
      invariant force && !forcedVal ==> written && Done(link, parts, |calls|) == if forced then 1 else 0
      invariant force && forcedVal && forced ==> Done(link, parts, |calls|) == if written then 2 else 1
      invariant force && forcedVal && !forced ==> !written
    {
      if !forced {
        reply, forced, calls := Ask(link, parts, calls, 0);
      }
      if forced && !written {
        reply, written, calls := Ask(link, parts, calls, if force then 1 else 0);
      }
      trys := trys + 1;
    }
    ReportedIff(link, parts, calls);
    ok := trys < MAX_TRANSMISSION_TRYS + 1;
  }
}
