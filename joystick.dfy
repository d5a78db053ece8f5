/** Calibration and normalisation of the analog joystick (src/hal/controls/joystick.c).
    ADC readings are the 12-bit results of `adc_read`, given as sample sequences. */
module Joystick {

  /** Half-width of the dead zone around the centre, in 16-bit scaled units. */
  const Deadzone := 1500
  const CalibrationSamples := 100
  const AdcMax := 4095
  /** Readings are scaled from 12 to 16 bits by a shift left of 4. */
  const Scale := 16

  predicate IsReading(v: int) { 0 <= v <= AdcMax }

  predicate AllReadings(s: seq<int>) { forall i :: 0 <= i < |s| ==> IsReading(s[i]) }

  function Sum(s: seq<int>): int
  {
    if |s| == 0 then 0 else Sum(s[..|s| - 1]) + s[|s| - 1]
  }

  lemma {:induction false} SumBound(s: seq<int>)
    requires AllReadings(s)
    ensures 0 <= Sum(s) <= |s| * AdcMax
  {
    if |s| > 0 {
      SumBound(s[..|s| - 1]);
    }
  }

  /** The smallest reading of a non-empty sample sequence. */
  function SeqMin(s: seq<int>): (m: int)
    requires |s| > 0
    ensures forall i :: 0 <= i < |s| ==> m <= s[i]
    ensures exists i :: 0 <= i < |s| && m == s[i]
  {
    if |s| == 1 then s[0]
    else
      var m := SeqMin(s[..|s| - 1]);
      assert forall i :: 0 <= i < |s| - 1 ==> s[..|s| - 1][i] == s[i];
      if s[|s| - 1] < m then s[|s| - 1] else m
  }

  /** The largest reading of a non-empty sample sequence. */
  function SeqMax(s: seq<int>): (m: int)
    requires |s| > 0
    ensures forall i :: 0 <= i < |s| ==> s[i] <= m
    ensures exists i :: 0 <= i < |s| && m == s[i]
  {
    if |s| == 1 then s[0]
    else
      var m := SeqMax(s[..|s| - 1]);
      assert forall i :: 0 <= i < |s| - 1 ==> s[..|s| - 1][i] == s[i];
      if s[|s| - 1] > m then s[|s| - 1] else m
  }

  /** The running minimum of the first `n` readings, `AdcMax` before any. */
  function RunningMin(s: seq<int>, n: nat): int
    requires n <= |s|
  {
    if n == 0 then AdcMax else SeqMin(s[..n])
  }

  /** The running maximum of the first `n` readings, 0 before any. */
  function RunningMax(s: seq<int>, n: nat): int
    requires n <= |s|
  {
    if n == 0 then 0 else SeqMax(s[..n])
  }

  /** After all readings the running extremes are those of the whole sequence. */
  lemma RunningWhole(s: seq<int>)
    ensures |s| > 0 ==> RunningMin(s, |s|) == SeqMin(s) && RunningMax(s, |s|) == SeqMax(s)
    ensures |s| > 0 ==> SeqMin(s) <= SeqMax(s)
  {
    assert s[..|s|] == s;
  }

  /** One sample of the calibration loop on one axis: the running minimum and
      maximum take in the reading `s[i]`. */
  method Track(s: seq<int>, i: nat, curMin: int, curMax: int) returns (newMin: int, newMax: int)
    requires i < |s| && IsReading(s[i])
    requires curMin == RunningMin(s, i) && curMax == RunningMax(s, i)
    ensures newMin == RunningMin(s, i + 1) && newMax == RunningMax(s, i + 1)
  {
    assert s[..i + 1][..i] == s[..i];
    newMin, newMax := curMin, curMax;
    if s[i] < newMin {
      newMin := s[i];
    }
    if s[i] > newMax {
      newMax := s[i];
    }
  }

  /** The value `joystick_read` stores into the caller's `event` record. */
  datatype Event = Event(xNorm: real, yNorm: real, buttonPressed: bool)

  /** The per-axis normalisation of `joystick_read`: dead zone, guarded division, clip to [-1, 1]. */
  function Normalize(rel: int, posRange: int, negRange: int): (v: real)
    ensures -1.0 <= v <= 1.0
    ensures -Deadzone <= rel <= Deadzone ==> v == 0.0
    ensures rel > Deadzone && posRange <= 0 ==> v == 0.0
    ensures rel < -Deadzone && negRange <= 0 ==> v == 0.0
    ensures rel > Deadzone && posRange > 0 ==>
      v > 0.0 && v == (if rel as real / posRange as real > 1.0 then 1.0 else rel as real / posRange as real)
    ensures rel < -Deadzone && negRange > 0 ==>
      v < 0.0 && v == (if rel as real / negRange as real < -1.0 then -1.0 else rel as real / negRange as real)
  {
    var raw :=
      if rel > Deadzone then (if posRange > 0 then rel as real / posRange as real else 0.0)
      else if rel < -Deadzone then (if negRange > 0 then rel as real / negRange as real else 0.0)
      else 0.0;
    if raw > 1.0 then 1.0 else if raw < -1.0 then -1.0 else raw
  }

  /** The six `g_cal_*` globals (uint16_t, zero before any calibration). */
  class Joystick {
    var minX: int
    var maxX: int
    var centerX: int
    var minY: int
    var maxY: int
    var centerY: int

    constructor ()
      ensures minX == 0 && maxX == 0 && centerX == 0 && minY == 0 && maxY == 0 && centerY == 0
    {
      minX, maxX, centerX := 0, 0, 0;
      minY, maxY, centerY := 0, 0, 0;
    }

    /** `joystick_init_simple_center`: the centre is the mean of 100 samples, scaled;
        min and max are the theoretical extremes. */
    method InitSimpleCenter(xs: seq<int>, ys: seq<int>)
      requires |xs| == CalibrationSamples && |ys| == CalibrationSamples
      requires AllReadings(xs) && AllReadings(ys)
      modifies this
      ensures centerX == Sum(xs) / CalibrationSamples * Scale
      ensures centerY == Sum(ys) / CalibrationSamples * Scale
      ensures minX == 0 && maxX == AdcMax * Scale && minY == 0 && maxY == AdcMax * Scale
      ensures minX <= centerX <= maxX && minY <= centerY <= maxY
    {
      var sumX, sumY := 0, 0;
      var i := 0;
      while i < CalibrationSamples
        invariant 0 <= i <= CalibrationSamples
        invariant sumX == Sum(xs[..i]) && sumY == Sum(ys[..i])
      {
        assert xs[..i + 1][..i] == xs[..i];
        assert ys[..i + 1][..i] == ys[..i];
        sumX := sumX + xs[i];
        sumY := sumY + ys[i];
        i := i + 1;
      }
      assert xs[..i] == xs && ys[..i] == ys;
      SumBound(xs);
      SumBound(ys);
      centerX := sumX / CalibrationSamples * Scale;
      centerY := sumY / CalibrationSamples * Scale;
      minX, maxX := 0, AdcMax * Scale;
      minY, maxY := 0, AdcMax * Scale;
    }

    /** `joystick_init_full_range`: min and max of the readings taken during the
        calibration window (here the given samples), scaled; centre is their midpoint. */
    method InitFullRange(xs: seq<int>, ys: seq<int>)
      requires |xs| == |ys|
      requires AllReadings(xs) && AllReadings(ys)
      modifies this
      ensures |xs| == 0 ==> minX == AdcMax * Scale && maxX == 0 && minY == AdcMax * Scale && maxY == 0
      ensures |xs| > 0 ==> minX == SeqMin(xs) * Scale && maxX == SeqMax(xs) * Scale
      ensures |ys| > 0 ==> minY == SeqMin(ys) * Scale && maxY == SeqMax(ys) * Scale
      ensures centerX == (minX + maxX) / 2 && centerY == (minY + maxY) / 2
      ensures |xs| > 0 ==> minX <= centerX <= maxX && minY <= centerY <= maxY
    {
      var curMinX, curMaxX, curMinY, curMaxY := AdcMax, 0, AdcMax, 0;
      var i := 0;
      while i < |xs|
        invariant 0 <= i <= |xs|
        invariant curMinX == RunningMin(xs, i) && curMaxX == RunningMax(xs, i)
        invariant curMinY == RunningMin(ys, i) && curMaxY == RunningMax(ys, i)
      {
        curMinX, curMaxX := Track(xs, i, curMinX, curMaxX);
        curMinY, curMaxY := Track(ys, i, curMinY, curMaxY);
        i := i + 1;
      }
      RunningWhole(xs);
      RunningWhole(ys);
      minX, maxX := curMinX * Scale, curMaxX * Scale;
      minY, maxY := curMinY * Scale, curMaxY * Scale;
      centerX := (minX + maxX) / 2;
      centerY := (minY + maxY) / 2;
    }

    /** `joystick_read`: normalised axes from one pair of readings and the button pin
        level (pulled up, so a pressed button reads 0). */
    function Read(adcX: int, adcY: int, pinLevel: bool): (e: Event)
      reads this
      requires IsReading(adcX) && IsReading(adcY)
      ensures -1.0 <= e.xNorm <= 1.0 && -1.0 <= e.yNorm <= 1.0
      ensures e.buttonPressed <==> !pinLevel
      ensures -Deadzone <= adcX * Scale - centerX <= Deadzone ==> e.xNorm == 0.0
      ensures -Deadzone <= adcY * Scale - centerY <= Deadzone ==> e.yNorm == 0.0
    {
      var xRel := adcX * Scale - centerX;
      var yRel := adcY * Scale - centerY;
      Event(Normalize(xRel, maxX - centerX, centerX - minX),
            Normalize(yRel, maxY - centerY, centerY - minY),
            !pinLevel)
    }
  }
}
