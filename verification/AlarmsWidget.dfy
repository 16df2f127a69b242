// The HMI's side of the alarms: it keeps the last word delivered for each channel, logs the
// alarms that rise and lists those that are set.
module AlarmsWidget {
  import opened CommonTypes
  import opened Codec
  import opened Alarms

  function StopBit(n: nat, idx: nat): nat {
    if 32 * idx + 32 < n then 32 * idx + 32 else n
  }

  // The alarms from "from" up to the end of word idx whose bit is in val, in order.
  function Listed(val: bv32, from: nat, stop: nat): seq<nat>
    decreases stop - from
  {
    if from >= stop then [] else (if Has(val, Mask(from)) then [from] else []) + Listed(val, from + 1, stop)
  }

  lemma {:induction false} ListedExactly(val: bv32, from: nat, stop: nat)
    ensures forall e: nat :: e in Listed(val, from, stop) <==> from <= e < stop && Has(val, Mask(e))
    ensures forall i, j | 0 <= i < j < |Listed(val, from, stop)| ::
              Listed(val, from, stop)[i] < Listed(val, from, stop)[j]
    decreases stop - from
  {
    hide Has, Mask;
    if from < stop {
      ListedExactly(val, from + 1, stop);
      var rest := Listed(val, from + 1, stop);
      forall i | 0 <= i < |rest| ensures from < rest[i] { assert rest[i] in rest; }
    }
  }

  function Report(words: seq<bv32>, n: nat, idx: nat): seq<nat>
    decreases |words| - idx
  {
    if idx >= |words| then [] else Listed(words[idx], 32 * idx, StopBit(n, idx)) + Report(words, n, idx + 1)
  }

  // The report lists exactly the alarms set.
  lemma {:induction false} ReportExactly(words: seq<bv32>, n: nat, idx: nat)
    requires |words| == NumWords(n)
    ensures forall e: nat :: e in Report(words, n, idx) <==> 32 * idx <= e && IsAlarmSet(words, n, e)
    decreases |words| - idx
  {
    hide Has, Mask, Listed;
    if idx < |words| {
      ReportExactly(words, n, idx + 1);
      ListedExactly(words[idx], 32 * idx, StopBit(n, idx));
      forall e: nat ensures e in Listed(words[idx], 32 * idx, StopBit(n, idx)) <==>
        32 * idx <= e < 32 * idx + 32 && IsAlarmSet(words, n, e)
      {
        if 32 * idx <= e < 32 * idx + 32 { assert e / 32 == idx; }
      }
    }
  }

  // From the regulator's words, through the registers, to the HMI's report: the alarms listed are
  // those set, for any number of alarms and either byte order of hosts that share it.
  lemma AlarmsEndToEnd(little: bool, words: seq<bv32>, n: nat, delivered: seq<bv32>)
    requires |words| == |delivered| == NumWords(n)
    requires forall i | 0 <= i < |words| :: delivered[i] == DecodeInt(little, EncodeInt(little, words[i]))
    ensures forall e: nat :: e in Report(delivered, n, 0) <==> e in Active(words, n)
  {
    forall i | 0 <= i < |words| ensures delivered[i] == words[i] {
      IntRoundTrip(little, little, words[i]);
    }
    assert delivered == words;
    ReportExactly(words, n, 0);
  }

  // ---- the log over any sequence of delivered words

  datatype Delivery = Delivery(val: bv32, idx: nat)

  predicate WellDelivered(ds: seq<Delivery>, n: nat) {
    forall d | d in ds :: d.idx < NumWords(n)
  }

  // The last word delivered for idx, zero before the first.
  function LastWord(ds: seq<Delivery>, idx: nat): bv32 {
    if ds == [] then 0
    else if ds[|ds| - 1].idx == idx then ds[|ds| - 1].val
    else LastWord(ds[..|ds| - 1], idx)
  }

  function LogOf(ds: seq<Delivery>, n: nat): seq<nat> {
    if ds == [] then []
    else
      var init, d := ds[..|ds| - 1], ds[|ds| - 1];
      LogOf(init, n) + Listed(Rising(LastWord(init, d.idx), d.val), 32 * d.idx, StopBit(n, d.idx))
  }

  // How often alarm e goes from 0 to 1 in the words delivered.
  function Rises(ds: seq<Delivery>, e: nat): nat {
    if ds == [] then 0
    else
      var init, d := ds[..|ds| - 1], ds[|ds| - 1];
      Rises(init, e) +
      (if d.idx == e / 32 && Has(d.val, Mask(e)) && !Has(LastWord(init, d.idx), Mask(e)) then 1 else 0)
  }

  lemma {:induction false} ListedOnce(val: bv32, from: nat, stop: nat, e: nat)
    ensures multiset(Listed(val, from, stop))[e] == if from <= e < stop && Has(val, Mask(e)) then 1 else 0
    decreases stop - from
  {
    hide Has, Mask;
    if from < stop {
      ListedOnce(val, from + 1, stop, e);
    }
  }

  // Starting from zero words, the log holds one entry for each rise of each alarm and no other.
  lemma {:induction false} LogCountsRises(ds: seq<Delivery>, n: nat, e: nat)
    requires WellDelivered(ds, n)
    ensures multiset(LogOf(ds, n))[e] == if e < n then Rises(ds, e) else 0
  {
    hide Has, Mask, Listed, Rising;
    if ds != [] {
      var k := |ds| - 1;
      var init, d := ds[..k], ds[k];
      LogCountsRises(init, n, e);
      var was := LastWord(init, d.idx);
      ListedOnce(Rising(was, d.val), 32 * d.idx, StopBit(n, d.idx), e);
      RiseBit(was, d.val, e, Mask(e));
      assert d in ds;
      assert 32 * d.idx <= e < StopBit(n, d.idx) <==> d.idx == e / 32 && e < n;
    }
  }

  // ---- the widget

  class AlarmsWdg {
    const numAlarms: nat
    const logicErrors: array<bv32>
    var log: seq<nat>
    ghost var deliveries: seq<Delivery>

    ghost predicate Valid()
      reads this, logicErrors
    {
      && logicErrors.Length == NumWords(numAlarms)
      && WellDelivered(deliveries, numAlarms)
      && log == LogOf(deliveries, numAlarms)
      && (forall i | 0 <= i < logicErrors.Length :: logicErrors[i] == LastWord(deliveries, i))
    }

    constructor (n: nat)
      ensures Valid() && numAlarms == n && deliveries == [] && fresh(logicErrors)
    {
      numAlarms := n;
      logicErrors := new bv32[NumWords(n)](_ => 0);
      log, deliveries := [], [];
    }

    static lemma NextMask(idx: nat, e: nat, m: bv32)
      requires 32 * idx <= e < 32 * idx + 31 && m == Mask(e)
      ensures Shifted(m) == Mask(e + 1)
    {
      hide Bit;
      NextBit(e - 32 * idx);
    }

    static function FirstMask(idx: nat): (m: bv32)
      ensures m == Mask(32 * idx)
    {
      assert (32 * idx) % 32 == 0;
      1 << 31
    }

    static function Shifted(m: bv32): bv32 { m >> 1 }

    // Walks a mask down the word, from alarm "offset" on.
    method Scan(val: bv32, idx: nat) returns (found: seq<nat>)
      requires idx < NumWords(numAlarms)
      ensures found == Listed(val, 32 * idx, StopBit(numAlarms, idx))
    {
      hide Has, Mask, NumWords, Shifted;
      var offset := 32 * idx;
      var mask: bv32 := FirstMask(idx);
      var stop := StopBit(numAlarms, idx);
      found := [];
      var i := offset;
      while i < stop
        invariant offset <= i && (i < offset + 32 ==> mask == Mask(i))
        invariant found + Listed(val, i, stop) == Listed(val, offset, stop)
      {
        if Has(val, mask) { found := found + [i]; }
        if i - offset < 31 { NextMask(idx, i, mask); }
        mask := Shifted(mask);
        i := i + 1;
      }
    }

    method LogicErrorIntChanged(val: bv32, intID: nat)
      requires Valid() && 1 <= intID <= NumWords(numAlarms)
      modifies this, logicErrors
      ensures Valid() && deliveries == old(deliveries) + [Delivery(val, intID - 1)]
    {
      hide Has, Mask, Listed, Rising;
      var idx := intID - 1;
      var oldInt := logicErrors[idx];
      var newErrors := Rising(oldInt, val);
      var rising := Scan(newErrors, idx);
      log := log + rising;
      logicErrors[idx] := val;
      deliveries := deliveries + [Delivery(val, idx)];
      assert deliveries[..|deliveries| - 1] == old(deliveries);
    }

    method GenLogicErrorsReport() returns (report: seq<nat>)
      requires Valid()
      ensures report == Report(logicErrors[..], numAlarms, 0)
    {
      report := [];
      var i := 0;
      while i < logicErrors.Length
        invariant 0 <= i <= logicErrors.Length
        invariant report + Report(logicErrors[..], numAlarms, i) == Report(logicErrors[..], numAlarms, 0)
      {
        var part := Scan(logicErrors[i], i);
        report := report + part;
        i := i + 1;
      }
    }
  }
}
