// The conversions of an analog device, over the reals: from engineering units to the integer that
// is written, and from the integer that is read back to engineering units.
module AnalogScaling {
  import opened CommonTypes

  datatype BitRepr = Signed | Unsigned | HalfSigned | Invalid

  // The ranges of a variable: engineering units and hardware units.
  datatype Ranges = Ranges(eguMin: real, eguMax: real, hwMin: real, hwMax: real)

  function TwoTo(w: nat): (p: int)
    ensures p >= 1
  {
    if w == 0 then 1 else 2 * TwoTo(w - 1)
  }

  function MinReprLimit(repr: BitRepr, w: nat): real
    requires w >= 1
  {
    match repr
    case Signed => -(TwoTo(w - 1) as real)
    case Invalid => 1.0
    case _ => 0.0
  }

  function MaxReprLimit(repr: BitRepr, w: nat): real
    requires w >= 1
  {
    match repr
    case Unsigned => (TwoTo(w) - 1) as real
    case Invalid => -1.0
    case _ => (TwoTo(w - 1) - 1) as real
  }

  function ScaleValue(destMin: real, destMax: real, originMin: real, originMax: real, val: real): real
    requires originMax != originMin
  {
    ((val - originMin) / (originMax - originMin)) * (destMax - destMin) + destMin
  }

  // The integer that w bits stand for.
  function ConvertBytes(raw: nat, repr: BitRepr, w: nat): real
    requires w >= 1 && raw < TwoTo(w)
  {
    if repr.Unsigned? || raw < TwoTo(w - 1) then raw as real else (raw - TwoTo(w)) as real
  }

  // A signed reading is the one number of the signed range that differs from the bits by nothing or by
  // two to the width; an unsigned one is the bits themselves.
  lemma ReadingOfBits(raw: nat, repr: BitRepr, w: nat)
    requires w >= 1 && raw < TwoTo(w)
    ensures var x := ConvertBytes(raw, repr, w).Floor;
      && ConvertBytes(raw, repr, w) == x as real && (x == raw || x == raw - TwoTo(w))
      && if repr.Unsigned? then 0 <= x < TwoTo(w) else -TwoTo(w - 1) <= x < TwoTo(w - 1)
    ensures !repr.Unsigned? && raw >= TwoTo(w - 1) ==> ConvertBytes(raw, repr, w) == (raw - TwoTo(w)) as real < 0.0
  {
    assert TwoTo(w) == 2 * TwoTo(w - 1);
  }

  // The limits a read compares the hardware range with are the ends of what the bits can stand for,
  // the negative ones left out for a half-signed variable; an invalid one admits no range at all.
  lemma LimitsAreReadings(repr: BitRepr, w: nat)
    requires w >= 1
    ensures 0 < TwoTo(w - 1) < TwoTo(w)
    ensures repr.Signed? ==>
      && MinReprLimit(repr, w) == ConvertBytes(TwoTo(w - 1), repr, w)
      && MaxReprLimit(repr, w) == ConvertBytes(TwoTo(w - 1) - 1, repr, w)
    ensures repr.Unsigned? ==>
      MinReprLimit(repr, w) == ConvertBytes(0, repr, w) && MaxReprLimit(repr, w) == ConvertBytes(TwoTo(w) - 1, repr, w)
    ensures repr.HalfSigned? ==>
      && MinReprLimit(repr, w) == ConvertBytes(0, repr, w)
      && MaxReprLimit(repr, w) == ConvertBytes(TwoTo(w - 1) - 1, repr, w)
    ensures !repr.HalfSigned? && !repr.Invalid? ==> forall raw: nat | raw < TwoTo(w) ::
              MinReprLimit(repr, w) <= ConvertBytes(raw, repr, w) <= MaxReprLimit(repr, w)
    ensures repr.Invalid? ==> forall r :: !ReadAccepts(r, repr, w)
  {
    assert TwoTo(w) == 2 * TwoTo(w - 1);
  }

  // The conversion of a float to an unsigned integer drops the fraction; it is defined only when
  // what remains is in the range of that integer.
  predicate Convertible(val: real, w: nat) {
    -1.0 < val < TwoTo(w) as real
  }

  function ConvertFloat(val: real, w: nat): (raw: nat)
    requires Convertible(val, w)
    ensures raw < TwoTo(w)
  {
    if val < 0.0 then 0 else val.Floor
  }

  predicate ReadAccepts(r: Ranges, repr: BitRepr, w: nat)
    requires w >= 1
  {
    MinReprLimit(repr, w) <= r.hwMin < r.hwMax <= MaxReprLimit(repr, w)
  }

  predicate WriteAccepts(r: Ranges) {
    r.hwMin < r.hwMax && r.eguMin < r.eguMax
  }

  function HwOf(r: Ranges, x: real): real
    requires WriteAccepts(r)
  {
    ScaleValue(r.hwMin, r.hwMax, r.eguMin, r.eguMax, x)
  }

  function EguOf(r: Ranges, hw: real): real
    requires WriteAccepts(r)
  {
    ScaleValue(r.eguMin, r.eguMax, r.hwMin, r.hwMax, hw)
  }

  predicate InRange(r: Ranges, x: real) {
    r.eguMin <= x <= r.eguMax
  }

  // A device that both reads and writes, in hardware units that an unsigned conversion can make.
  predicate TwoWay(r: Ranges, repr: BitRepr, w: nat) {
    (w == 8 || w == 16) && ReadAccepts(r, repr, w) && WriteAccepts(r) && r.hwMin >= 0.0
  }

  // ---- arithmetic

  // What one unit of the origin is worth at the destination.
  function Gain(destMin: real, destMax: real, originMin: real, originMax: real): real
    requires originMax != originMin
  {
    (destMax - destMin) / (originMax - originMin)
  }

  lemma Shift(u: real, d: real, m: real)
    requires d != 0.0
    ensures (u / d) * m == u * (m / d) && d * (m / d) == m
  {}

  lemma ScaleIs(destMin: real, destMax: real, originMin: real, originMax: real, val: real)
    requires originMax != originMin
    ensures ScaleValue(destMin, destMax, originMin, originMax, val)
      == (val - originMin) * Gain(destMin, destMax, originMin, originMax) + destMin
    ensures (originMax - originMin) * Gain(destMin, destMax, originMin, originMax) == destMax - destMin
  {
    Shift(val - originMin, originMax - originMin, destMax - destMin);
  }

  lemma Positive(d: real, m: real)
    requires d > 0.0 && m > 0.0
    ensures m / d > 0.0 && (m / d) * (d / m) == 1.0
  {}

  lemma Times(x: real, y: real, start: real, k: real)
    requires k > 0.0 && x <= y
    ensures (x - start) * k <= (y - start) * k
    ensures x < y ==> (x - start) * k < (y - start) * k
    ensures y - x < 1.0 ==> (y - start) * k < (x - start) * k + k
  {
    assert (y - start) * k - (x - start) * k == (y - x) * k;
    assert (y - x) * k >= 0.0;
    if x < y { assert (y - x) * k > 0.0; }
    if y - x < 1.0 { assert (1.0 - (y - x)) * k > 0.0; }
  }

  lemma TimesInverse(u: real, k: real, l: real)
    requires k * l == 1.0
    ensures u * k * l == u
  {
    assert u * k * l == u * (k * l);
  }

  // ---- the two conversions

  // The scalings are inverse to each other.
  lemma ScalingsInvert(r: Ranges, x: real, hw: real)
    requires WriteAccepts(r)
    ensures EguOf(r, HwOf(r, x)) == x && HwOf(r, EguOf(r, hw)) == hw
  {
    hide ScaleValue, Gain;
    var k, l := Gain(r.hwMin, r.hwMax, r.eguMin, r.eguMax), Resolution(r);
    GainsInvert(r);
    ScaleIs(r.hwMin, r.hwMax, r.eguMin, r.eguMax, x);
    ScaleIs(r.eguMin, r.eguMax, r.hwMin, r.hwMax, HwOf(r, x));
    TimesInverse(x - r.eguMin, k, l);
    ScaleIs(r.eguMin, r.eguMax, r.hwMin, r.hwMax, hw);
    ScaleIs(r.hwMin, r.hwMax, r.eguMin, r.eguMax, EguOf(r, hw));
    TimesInverse(hw - r.hwMin, l, k);
  }

  // One hardware unit is worth this much.
  function Resolution(r: Ranges): real
    requires WriteAccepts(r)
  {
    Gain(r.eguMin, r.eguMax, r.hwMin, r.hwMax)
  }

  lemma GainsInvert(r: Ranges)
    requires WriteAccepts(r)
    ensures Resolution(r) > 0.0 && Gain(r.hwMin, r.hwMax, r.eguMin, r.eguMax) > 0.0
    ensures Gain(r.hwMin, r.hwMax, r.eguMin, r.eguMax) * Resolution(r) == 1.0
  {
    Positive(r.hwMax - r.hwMin, r.eguMax - r.eguMin);
    Positive(r.eguMax - r.eguMin, r.hwMax - r.hwMin);
  }

  lemma EguDistance(r: Ranges, lo: real, hi: real)
    requires WriteAccepts(r) && lo <= hi
    ensures EguOf(r, lo) <= EguOf(r, hi) && (lo < hi ==> EguOf(r, lo) < EguOf(r, hi))
    ensures hi - lo < 1.0 ==> EguOf(r, hi) < EguOf(r, lo) + Resolution(r)
  {
    hide ScaleValue, Gain;
    GainsInvert(r);
    ScaleIs(r.eguMin, r.eguMax, r.hwMin, r.hwMax, lo);
    ScaleIs(r.eguMin, r.eguMax, r.hwMin, r.hwMax, hi);
    Times(lo, hi, r.hwMin, Resolution(r));
  }

  lemma HwDistance(r: Ranges, lo: real, hi: real)
    requires WriteAccepts(r) && lo <= hi
    ensures HwOf(r, lo) <= HwOf(r, hi)
  {
    hide ScaleValue, Gain;
    GainsInvert(r);
    ScaleIs(r.hwMin, r.hwMax, r.eguMin, r.eguMax, lo);
    ScaleIs(r.hwMin, r.hwMax, r.eguMin, r.eguMax, hi);
    Times(lo, hi, r.eguMin, Gain(r.hwMin, r.hwMax, r.eguMin, r.eguMax));
  }

  lemma Ends(r: Ranges)
    requires WriteAccepts(r)
    ensures HwOf(r, r.eguMin) == r.hwMin && HwOf(r, r.eguMax) == r.hwMax
  {
    hide ScaleValue, Gain;
    ScaleIs(r.hwMin, r.hwMax, r.eguMin, r.eguMax, r.eguMin);
    ScaleIs(r.hwMin, r.hwMax, r.eguMin, r.eguMax, r.eguMax);
  }

  lemma HwInRange(r: Ranges, x: real)
    requires WriteAccepts(r) && InRange(r, x)
    ensures r.hwMin <= HwOf(r, x) <= r.hwMax
  {
    hide HwOf;
    HwDistance(r, r.eguMin, x);
    HwDistance(r, x, r.eguMax);
    Ends(r);
  }

  // ---- out and back

  lemma Representable(r: Ranges, repr: BitRepr, w: nat, x: real)
    requires TwoWay(r, repr, w) && InRange(r, x)
    ensures Convertible(HwOf(r, x), w)
    ensures ConvertBytes(ConvertFloat(HwOf(r, x), w), repr, w) == HwOf(r, x).Floor as real
  {
    hide HwOf;
    HwInRange(r, x);
    assert TwoTo(w) == 2 * TwoTo(w - 1);
  }

  // What a read brings back of x once x has been written.
  function RoundTrip(r: Ranges, repr: BitRepr, w: nat, x: real): real
    requires TwoWay(r, repr, w) && InRange(r, x)
  {
    Representable(r, repr, w, x);
    EguOf(r, ConvertBytes(ConvertFloat(HwOf(r, x), w), repr, w))
  }

  // Never more than x, and less than one hardware unit below it; exactly x when x stands for a
  // whole number of hardware units.
  lemma LosesLessThanOneUnit(r: Ranges, repr: BitRepr, w: nat, x: real)
    requires TwoWay(r, repr, w) && InRange(r, x)
    ensures RoundTrip(r, repr, w, x) <= x < RoundTrip(r, repr, w, x) + Resolution(r)
    ensures RoundTrip(r, repr, w, x) == x <==> HwOf(r, x) == HwOf(r, x).Floor as real
  {
    hide HwOf, EguOf, ConvertBytes, ConvertFloat;
    Representable(r, repr, w, x);
    var hw := HwOf(r, x);
    ScalingsInvert(r, x, hw);
    EguDistance(r, hw.Floor as real, hw);
  }

  lemma RoundTripIsMonotone(r: Ranges, repr: BitRepr, w: nat, x: real, y: real)
    requires TwoWay(r, repr, w) && InRange(r, x) && InRange(r, y) && x <= y
    ensures RoundTrip(r, repr, w, x) <= RoundTrip(r, repr, w, y)
  {
    hide HwOf, EguOf, ConvertBytes, ConvertFloat;
    Representable(r, repr, w, x);
    Representable(r, repr, w, y);
    HwDistance(r, x, y);
    EguDistance(r, HwOf(r, x).Floor as real, HwOf(r, y).Floor as real);
  }

  // A read keeps the order of the integers the bits stand for, negative ones included, and takes the
  // ends of the hardware range to the ends of the engineering range.
  lemma ReadingsKeepOrder(r: Ranges, repr: BitRepr, w: nat, raw: nat, raw': nat)
    requires w >= 1 && raw < TwoTo(w) && raw' < TwoTo(w) && WriteAccepts(r)
    requires ConvertBytes(raw, repr, w) <= ConvertBytes(raw', repr, w)
    ensures EguOf(r, ConvertBytes(raw, repr, w)) <= EguOf(r, ConvertBytes(raw', repr, w))
    ensures ConvertBytes(raw, repr, w) < ConvertBytes(raw', repr, w) ==>
      EguOf(r, ConvertBytes(raw, repr, w)) < EguOf(r, ConvertBytes(raw', repr, w))
    ensures ConvertBytes(raw, repr, w) == r.hwMin ==> EguOf(r, ConvertBytes(raw, repr, w)) == r.eguMin
    ensures ConvertBytes(raw, repr, w) == r.hwMax ==> EguOf(r, ConvertBytes(raw, repr, w)) == r.eguMax
  {
    hide EguOf, HwOf, ConvertBytes;
    EguDistance(r, ConvertBytes(raw, repr, w), ConvertBytes(raw', repr, w));
    Ends(r);
    ScalingsInvert(r, r.eguMin, 0.0);
    ScalingsInvert(r, r.eguMax, 0.0);
  }

  // The value read back lies in the engineering range for every x exactly when the hardware range
  // begins at a whole number.
  lemma StaysInRangeIff(r: Ranges, repr: BitRepr, w: nat)
    requires TwoWay(r, repr, w)
    ensures (forall x | InRange(r, x) :: InRange(r, RoundTrip(r, repr, w, x))) <==> r.hwMin == r.hwMin.Floor as real
  {
    hide HwOf, EguOf, RoundTrip;
    Ends(r);
    if r.hwMin == r.hwMin.Floor as real {
      forall x | InRange(r, x) ensures InRange(r, RoundTrip(r, repr, w, x)) {
        LosesLessThanOneUnit(r, repr, w, x);
        LosesLessThanOneUnit(r, repr, w, r.eguMin);
        RoundTripIsMonotone(r, repr, w, r.eguMin, x);
      }
    } else {
      LosesLessThanOneUnit(r, repr, w, r.eguMin);
      assert !InRange(r, RoundTrip(r, repr, w, r.eguMin));
    }
  }

  // Writing what was read back changes nothing any more.
  lemma SecondTripIsExact(r: Ranges, repr: BitRepr, w: nat, x: real)
    requires TwoWay(r, repr, w) && InRange(r, x) && InRange(r, RoundTrip(r, repr, w, x))
    ensures RoundTrip(r, repr, w, RoundTrip(r, repr, w, x)) == RoundTrip(r, repr, w, x)
  {
    hide HwOf, EguOf, ConvertBytes, ConvertFloat;
    Representable(r, repr, w, x);
    var back := RoundTrip(r, repr, w, x);
    ScalingsInvert(r, back, HwOf(r, x).Floor as real);
    LosesLessThanOneUnit(r, repr, w, back);
  }

  // ---- the device

  class AnalogDev {
    const repr: BitRepr
    const w: nat
    const minReprLimit: real
    const maxReprLimit: real

    constructor (repr: BitRepr, w: nat)
      requires w >= 1
      ensures this.repr == repr && this.w == w
      ensures minReprLimit == MinReprLimit(repr, w) && maxReprLimit == MaxReprLimit(repr, w)
    {
      this.repr, this.w, minReprLimit, maxReprLimit := repr, w, MinReprLimit(repr, w), MaxReprLimit(repr, w);
    }

    // The integer handed to the field, if the ranges allow a write; a value for which the conversion
    // is not defined gives whatever the machine makes of it.
    method Write(r: Ranges, x: real, undefined: real -> nat) returns (raw: Option<nat>)
      ensures raw.Some? == (r.hwMin < r.hwMax && r.eguMin < r.eguMax)
      ensures raw.Some? && Convertible(HwOf(r, x), w) ==> raw.value == ConvertFloat(HwOf(r, x), w)
      ensures raw.Some? && !Convertible(HwOf(r, x), w) ==> raw.value == undefined(HwOf(r, x))
    {
      hide ScaleValue;
      if r.hwMax <= r.hwMin || r.eguMax <= r.eguMin { return None; }
      var val := ScaleValue(r.hwMin, r.hwMax, r.eguMin, r.eguMax, x);
      return Some(if Convertible(val, w) then ConvertFloat(val, w) else undefined(val));
    }

    // The value of the integer the field holds, if the ranges allow a read.
    method Read(r: Ranges, raw: nat) returns (x: Option<real>)
      requires w >= 1 && raw < TwoTo(w)
      requires minReprLimit == MinReprLimit(repr, w) && maxReprLimit == MaxReprLimit(repr, w)
      ensures x.Some? == (minReprLimit <= r.hwMin < r.hwMax <= maxReprLimit) == ReadAccepts(r, repr, w)
      ensures x.Some? ==> x.value == ScaleValue(r.eguMin, r.eguMax, r.hwMin, r.hwMax, ConvertBytes(raw, repr, w))
    {
      hide ScaleValue;
      if r.hwMin < minReprLimit || r.hwMax > maxReprLimit || r.hwMax <= r.hwMin { return None; }
      return Some(ScaleValue(r.eguMin, r.eguMax, r.hwMin, r.hwMax, ConvertBytes(raw, repr, w)));
    }

    // A value in range, written and read back.
    method OutAndBack(r: Ranges, x: real) returns (back: real)
      requires TwoWay(r, repr, w) && InRange(r, x)
      requires minReprLimit == MinReprLimit(repr, w) && maxReprLimit == MaxReprLimit(repr, w)
      ensures back == RoundTrip(r, repr, w, x) && back <= x < back + Resolution(r)
    {
      hide ScaleValue, Resolution;
      Representable(r, repr, w, x);
      var raw := Write(r, x, _ => 0);
      var got := Read(r, raw.value);
      LosesLessThanOneUnit(r, repr, w, x);
      return got.value;
    }
  }
}
