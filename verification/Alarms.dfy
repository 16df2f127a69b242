// Alarm words: set by the regulator one bit at a time, published, and scanned by the HMI.
module Alarms {

  const AL_TRIPEXT := 0
  const AL_TRIPINT := 1
  const AL_MAYOR := 2
  const AL_MINOR := 3

  const NUM_ALARMS := 21
  const ALARM_LEVELS: seq<nat> := [1, 1, 1, 0, 1, 0, 0, 1, 0, 1, 1, 1, 0, 0, 0, 1, 1, 1, 1, 1, 1]

  function NumWords(n: nat): nat { (n + 31) / 32 }

  // The bit of alarm e in its word: the most significant for the first of each 32.
  function Mask(e: nat): bv32 { Bit(e % 32) }

  function Bit(i: nat): bv32
    requires i < 32
  {
    1 << (31 - i)
  }

  predicate Has(w: bv32, mask: bv32) { w & mask != 0 }

  function With(w: bv32, mask: bv32): bv32 { w | mask }

  predicate IsAlarmSet(words: seq<bv32>, n: nat, e: nat)
    requires |words| == NumWords(n)
  {
    e < n && Has(words[e / 32], Mask(e))
  }

  function SetAlarmBit(words: seq<bv32>, e: nat): (r: seq<bv32>)
    requires e / 32 < |words|
    ensures |r| == |words|
  {
    words[e / 32 := With(words[e / 32], Mask(e))]
  }

  // The alarms set, as a set.
  function Active(words: seq<bv32>, n: nat): set<nat>
    requires |words| == NumWords(n)
  {
    set e | 0 <= e < n && IsAlarmSet(words, n, e)
  }

  // ---- facts about single bits

  // The next bit is the mask shifted right by one, as the HMI scans a word.
  lemma NextBit(i: nat)
    requires i < 31
    ensures Bit(i) >> 1 == Bit(i + 1) && Bit(i) > Bit(i + 1)
  {
    match i
    case 0 => case 1 => case 2 => case 3 => case 4 => case 5 => case 6 => case 7 =>
    case 8 => case 9 => case 10 => case 11 => case 12 => case 13 => case 14 => case 15 =>
    case 16 => case 17 => case 18 => case 19 => case 20 => case 21 => case 22 => case 23 =>
    case 24 => case 25 => case 26 => case 27 => case 28 => case 29 => case 30 =>
  }

  lemma {:induction false} BitsDiffer(i: nat, j: nat)
    requires i < j < 32
    ensures Bit(i) > Bit(j)
    decreases j
  {
    hide Bit;
    NextBit(j - 1);
    if i < j - 1 { BitsDiffer(i, j - 1); }
  }

  lemma OneHot(i: nat, m: bv32, w: bv32)
    requires i < 32 && m == Bit(i)
    ensures m != 0 && (w & m == 0 || w & m == m)
  {
    OneHotBit(i, w);
  }

  lemma OneHotBit(i: nat, w: bv32)
    requires i < 32
    ensures Bit(i) != 0 && (w & Bit(i) == 0 || w & Bit(i) == Bit(i))
  {}

  lemma OrElsewhere(w: bv32, a: bv32, b: bv32)
    requires a & b == 0
    ensures (w | a) & b == w & b
  {}

  lemma OrSame(w: bv32, a: bv32)
    ensures (w | a) & a == a
  {}

  lemma OrMask(w: bv32, a: bv32, b: bv32)
    requires a != 0 && (b & a == 0 || b & a == a) && (a & b == 0 || a & b == b)
    ensures Has(With(w, a), b) <==> a == b || Has(w, b)
  {
    if a & b == 0 {
      OrElsewhere(w, a, b);
      assert a == b ==> a & a == 0;
    } else {
      assert a == b;
      OrSame(w, a);
    }
  }

  // Or-ing alarm i's bit into a word sets it and leaves the others as they were.
  lemma OrBit(w: bv32, i: nat, j: nat, a: bv32, b: bv32)
    requires i < 32 && j < 32 && a == Bit(i) && b == Bit(j)
    ensures Has(With(w, a), b) <==> i == j || Has(w, b)
  {
    hide Bit, Has, With;
    OneHot(i, a, b);
    OneHot(j, b, a);
    OrMask(w, a, b);
    if i < j { BitsDiffer(i, j); } else if j < i { BitsDiffer(j, i); }
  }

  // The HMI's expression for the bits that have just risen.
  function Rising(was: bv32, now: bv32): bv32 { (now ^ was) & !was }

  lemma RisingMask(was: bv32, now: bv32, m: bv32)
    requires m != 0 && (now & m == 0 || now & m == m) && (was & m == 0 || was & m == m)
    ensures Has(Rising(was, now), m) <==> Has(now, m) && !Has(was, m)
  {
    hide Has, Rising;
    if was & m == 0 { WasOff(was, now, m); } else { WasOn(was, now, m); }
  }

  lemma WasOff(was: bv32, now: bv32, m: bv32)
    requires was & m == 0
    ensures Has(Rising(was, now), m) == Has(now, m) && !Has(was, m)
  {}

  lemma WasOn(was: bv32, now: bv32, m: bv32)
    requires was & m == m && m != 0
    ensures !Has(Rising(was, now), m) && Has(was, m)
  {}

  lemma RiseBit(was: bv32, now: bv32, e: nat, m: bv32)
    requires m == Mask(e)
    ensures Has(Rising(was, now), m) <==> Has(now, m) && !Has(was, m)
  {
    hide Bit, Has, Rising;
    OneHot(e % 32, m, now);
    OneHot(e % 32, m, was);
    RisingMask(was, now, m);
  }

  lemma SetsOneAt(words: seq<bv32>, n: nat, e: nat, f: nat)
    requires |words| == NumWords(n) && e < n && f < n
    ensures IsAlarmSet(SetAlarmBit(words, e), n, f) <==> f == e || IsAlarmSet(words, n, f)
  {
    hide Bit, Has, With;
    OrBit(words[e / 32], e % 32, f % 32, Mask(e), Mask(f));
    assert f == e <==> f / 32 == e / 32 && f % 32 == e % 32;
  }

  // Setting one alarm's bit sets that alarm and no other.
  lemma SetsOne(words: seq<bv32>, n: nat, e: nat)
    requires |words| == NumWords(n) && e < n
    ensures Active(SetAlarmBit(words, e), n) == Active(words, n) + {e}
  {
    hide IsAlarmSet, SetAlarmBit;
    forall f: nat | f < n ensures IsAlarmSet(SetAlarmBit(words, e), n, f) <==> f == e || IsAlarmSet(words, n, f) {
      SetsOneAt(words, n, e, f);
    }
  }

  // ---- requests

  // What one request sets: itself, the summary of its level and, for a major alarm other than the
  // external trip, the internal trip.
  function Closure(levels: seq<nat>, e: nat): set<nat>
    requires e < |levels|
  {
    {e} + (if levels[e] != 1 then {AL_MINOR} else if e == AL_TRIPEXT then {AL_MAYOR} else {AL_MAYOR, AL_TRIPINT})
  }

  function SetAlarm(words: seq<bv32>, levels: seq<nat>, e: nat): (r: seq<bv32>)
    requires |words| == NumWords(|levels|) && AL_MINOR < |levels|
    ensures |r| == |words|
  {
    if e >= |levels| then words
    else
      var w := SetAlarmBit(words, e);
      if levels[e] == 1 then
        var w1 := SetAlarmBit(w, AL_MAYOR);
        if e != AL_TRIPEXT then SetAlarmBit(w1, AL_TRIPINT) else w1
      else SetAlarmBit(w, AL_MINOR)
  }

  lemma SetAlarmCloses(words: seq<bv32>, levels: seq<nat>, e: nat)
    requires |words| == NumWords(|levels|) && AL_MINOR < |levels|
    ensures Active(SetAlarm(words, levels, e), |levels|)
      == Active(words, |levels|) + (if e < |levels| then Closure(levels, e) else {})
  {
    var n := |levels|;
    hide IsAlarmSet, Active, Mask;
    if e < n {
      SetsOne(words, n, e);
      var w := SetAlarmBit(words, e);
      SetsOne(w, n, AL_MAYOR);
      SetsOne(w, n, AL_MINOR);
      SetsOne(SetAlarmBit(w, AL_MAYOR), n, AL_TRIPINT);
    }
  }

  datatype Request = Raise(alarm: nat) | Clear

  function Handle(words: seq<bv32>, levels: seq<nat>, r: Request): (w: seq<bv32>)
    requires |words| == NumWords(|levels|) && AL_MINOR < |levels|
    ensures |w| == |words|
  {
    match r
    case Raise(e) => SetAlarm(words, levels, e)
    case Clear => seq(|words|, _ => 0)
  }

  function HandleAll(words: seq<bv32>, levels: seq<nat>, rs: seq<Request>): (w: seq<bv32>)
    requires |words| == NumWords(|levels|) && AL_MINOR < |levels|
    ensures |w| == |words|
  {
    if rs == [] then words else Handle(HandleAll(words, levels, rs[..|rs| - 1]), levels, rs[|rs| - 1])
  }

  // The alarms requested since the last clear, as a set: their order does not matter.
  function Requested(levels: seq<nat>, rs: seq<Request>): (r: set<nat>)
    ensures forall e | e in r :: e < |levels|
  {
    if rs == [] then {}
    else
      var init, last := Requested(levels, rs[..|rs| - 1]), rs[|rs| - 1];
      if last.Clear? then {} else if last.alarm < |levels| then init + {last.alarm} else init
  }

  ghost function CloseAll(levels: seq<nat>, requested: set<nat>): set<nat>
    requires forall e | e in requested :: e < |levels|
  {
    set e, f | e in requested && f in Closure(levels, e) :: f
  }

  lemma NothingSet(words: seq<bv32>, n: nat)
    requires |words| == NumWords(n) && forall i | 0 <= i < |words| :: words[i] == 0
    ensures Active(words, n) == {}
  {}

  // Over any run from cleared words, the alarms set are the closure of those requested since the
  // last clear.
  lemma {:induction false} RequestsClose(words: seq<bv32>, levels: seq<nat>, rs: seq<Request>)
    requires |words| == NumWords(|levels|) && AL_MINOR < |levels|
    requires forall i | 0 <= i < |words| :: words[i] == 0
    ensures Active(HandleAll(words, levels, rs), |levels|) == CloseAll(levels, Requested(levels, rs))
  {
    var n := |levels|;
    if rs == [] {
      NothingSet(words, n);
    } else {
      var k := |rs| - 1;
      RequestsClose(words, levels, rs[..k]);
      var before := HandleAll(words, levels, rs[..k]);
      match rs[k]
      case Clear => NothingSet(Handle(before, levels, Clear), n);
      case Raise(e) =>
        SetAlarmCloses(before, levels, e);
        hide Active;
        if e < n { CloseMore(levels, Requested(levels, rs[..k]), e); }
    }
  }

  // Request k raised alarm e, and nothing has been cleared since.
  predicate Stands(rs: seq<Request>, k: int, e: nat) {
    0 <= k < |rs| && rs[k] == Raise(e) && forall j | k < j < |rs| :: !rs[j].Clear?
  }

  lemma {:induction false} RequestedIff(levels: seq<nat>, rs: seq<Request>, e: nat)
    ensures e in Requested(levels, rs) <==> e < |levels| && exists k :: Stands(rs, k, e)
  {
    if rs != [] {
      var n := |rs| - 1;
      RequestedIff(levels, rs[..n], e);
      forall k | Stands(rs[..n], k, e) && !rs[n].Clear? ensures Stands(rs, k, e) {}
      forall k | Stands(rs, k, e) && k < n ensures Stands(rs[..n], k, e) {}
      assert rs[n] == Raise(e) ==> Stands(rs, n, e);
    }
  }

  // A request for alarm e sets alarm f: itself, the minor summary (3) unless its level is 1, the
  // major summary (2) if it is, and the internal trip (1) if it is and it is not the external one.
  predicate Sets(levels: seq<nat>, e: nat, f: nat)
    requires e < |levels|
  {
    || f == e || (f == 3 && levels[e] != 1) || (f == 2 && levels[e] == 1)
    || (f == 1 && levels[e] == 1 && e != 0)
  }

  lemma ClosureIff(levels: seq<nat>, e: nat, f: nat)
    requires e < |levels|
    ensures f in Closure(levels, e) <==> Sets(levels, e, f)
  {}

  // Over any run from cleared words, alarm by alarm: it is set exactly when a request stands that
  // sets it.
  lemma AlarmsOfRun(words: seq<bv32>, levels: seq<nat>, rs: seq<Request>, f: nat)
    requires |words| == NumWords(|levels|) && 3 < |levels|
    requires forall i | 0 <= i < |words| :: words[i] == 0
    ensures f in Active(HandleAll(words, levels, rs), |levels|)
      <==> exists e: nat, k :: e < |levels| && Stands(rs, k, e) && Sets(levels, e, f)
  {
    hide HandleAll, Active, Requested, Stands, Sets, Closure;
    RequestsClose(words, levels, rs);
    var requested := Requested(levels, rs);
    if f in CloseAll(levels, requested) {
      var e: nat :| e in requested && f in Closure(levels, e);
      RequestedIff(levels, rs, e);
      ClosureIff(levels, e, f);
    }
    forall e: nat, k | e < |levels| && Stands(rs, k, e) && Sets(levels, e, f)
      ensures f in CloseAll(levels, requested)
    {
      RequestedIff(levels, rs, e);
      ClosureIff(levels, e, f);
    }
  }

  // The first of each 32 alarms has the most significant bit, the next ones those below it.
  lemma BitsFromTheTop(e: nat)
    ensures e % 32 == 0 ==> Mask(e) == 0x8000_0000
    ensures e % 32 < 31 ==> Mask(e + 1) == Mask(e) >> 1
  {
    if e % 32 < 31 {
      assert (e + 1) % 32 == e % 32 + 1;
      NextBit(e % 32);
    }
  }

  // The same of the alarms the regulator has.
  lemma TheAlarmsClose(rs: seq<Request>)
    ensures |ALARM_LEVELS| == NUM_ALARMS && NumWords(NUM_ALARMS) == 1
    ensures Active(HandleAll([0], ALARM_LEVELS, rs), NUM_ALARMS) == CloseAll(ALARM_LEVELS, Requested(ALARM_LEVELS, rs))
  {
    hide HandleAll, Active, CloseAll, Requested;
    RequestsClose([0], ALARM_LEVELS, rs);
  }

  lemma CloseMore(levels: seq<nat>, requested: set<nat>, e: nat)
    requires e < |levels| && forall f | f in requested :: f < |levels|
    ensures CloseAll(levels, requested + {e}) == CloseAll(levels, requested) + Closure(levels, e)
  {}

  // ---- the manager

  class AlarmManager {
    const levels: seq<nat>
    const logicErrors: array<bv32>

    ghost predicate Valid() {
      logicErrors.Length == NumWords(|levels|) && AL_MINOR < |levels|
    }

    // The source leaves the words as allocated; this model starts from cleared ones.
    constructor (levels: seq<nat>)
      requires AL_MINOR < |levels|
      ensures Valid() && this.levels == levels && fresh(logicErrors)
      ensures forall i | 0 <= i < logicErrors.Length :: logicErrors[i] == 0
    {
      this.levels := levels;
      logicErrors := new bv32[NumWords(|levels|)](_ => 0);
    }

    method ClearAlarms()
      requires Valid()
      modifies logicErrors
      ensures logicErrors[..] == Handle(old(logicErrors[..]), levels, Clear)
    {
      for i := 0 to logicErrors.Length
        invariant forall k | 0 <= k < i :: logicErrors[k] == 0
      {
        logicErrors[i] := 0;
      }
    }

    method IsSet(e: nat) returns (b: bool)
      requires Valid()
      ensures b <==> e in Active(logicErrors[..], |levels|)
    {
      hide Bit, Has;
      if e >= |levels| { return false; }
      var word, mask := e / 32, Mask(e);
      return Has(logicErrors[word], mask);
    }

    method SetBit(e: nat)
      requires Valid() && e < |levels|
      modifies logicErrors
      ensures logicErrors[..] == SetAlarmBit(old(logicErrors[..]), e)
    {
      hide Bit, With;
      var word, mask := e / 32, Mask(e);
      logicErrors[word] := With(logicErrors[word], mask);
    }

    method Set(e: nat)
      requires Valid()
      modifies logicErrors
      ensures logicErrors[..] == Handle(old(logicErrors[..]), levels, Raise(e))
      ensures Active(logicErrors[..], |levels|)
        == old(Active(logicErrors[..], |levels|)) + (if e < |levels| then Closure(levels, e) else {})
    {
      SetAlarmCloses(logicErrors[..], levels, e);
      if e >= |levels| { return; }
      SetBit(e);
      if levels[e] == 1 {
        SetBit(AL_MAYOR);
        if AL_TRIPEXT != e { SetBit(AL_TRIPINT); }
      } else {
        SetBit(AL_MINOR);
      }
    }
  }
}
