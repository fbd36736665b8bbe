/** The ultrasonic sensor that tells whether the phone is in its holder:
    a raw reading with a no-echo sentinel, a median-of-three filter, and
    the threshold test. Readings are exact reals. */
module Ultrasonic {

  newtype uint8 = x: int | 0 <= x < 256

  /** Arduino's `max` and `min` macros. */
  function Max(a: real, b: real): real { if a > b then a else b }
  function Min(a: real, b: real): real { if a < b then a else b }

  /** The reading returned when no echo arrives. */
  const NoEchoCM: real := 999.0

  /** The `pulseIn` timeout, in microseconds. */
  const EchoTimeoutMicros: int := 25000

  /** `readRawCM` once `pulseIn` has returned `duration` microseconds
      (0 when it timed out): the sentinel for no echo, and otherwise the
      distance, which for any echo within the timeout is positive and below
      the sentinel. */
  function ReadRawCM(duration: int): (cm: real)
    ensures duration == 0 ==> cm == NoEchoCM
    ensures 0 < duration <= EchoTimeoutMicros ==> 0.0 < cm < NoEchoCM
  {
    if duration == 0 then NoEchoCM else duration as real * 0.0343 / 2.0
  }

  /** How many of the three readings are at most `m`, and at least `m`. */
  function CountAtMost(a: real, b: real, c: real, m: real): nat {
    (if a <= m then 1 else 0) + (if b <= m then 1 else 0) + (if c <= m then 1 else 0)
  }

  function CountAtLeast(a: real, b: real, c: real, m: real): nat {
    (if a >= m then 1 else 0) + (if b >= m then 1 else 0) + (if c >= m then 1 else 0)
  }

  /** `m` is a median of the three readings: one of them, with at least two
      readings on either side of it. */
  predicate IsMedian(a: real, b: real, c: real, m: real) {
    (m == a || m == b || m == c) && CountAtMost(a, b, c, m) >= 2 && CountAtLeast(a, b, c, m) >= 2
  }

  /** The filter's expression, `max(min(a, max(b,c)), min(max(a,b), c))`:
      the median of the three readings. */
  function Median3(a: real, b: real, c: real): (m: real)
    ensures IsMedian(a, b, c, m)
  {
    Max(Min(a, Max(b, c)), Min(Max(a, b), c))
  }

  /** The median is determined by the readings: any median of them is the
      filter's result. */
  lemma MedianIsUnique(a: real, b: real, c: real, m: real)
    requires IsMedian(a, b, c, m)
    ensures m == Median3(a, b, c)
  {
  }

  /** The order the three readings are taken in does not matter. */
  lemma Median3Symmetric(a: real, b: real, c: real)
    ensures Median3(a, b, c) == Median3(a, c, b) == Median3(b, a, c)
            == Median3(b, c, a) == Median3(c, a, b) == Median3(c, b, a)
  {
    MedianIsUnique(a, c, b, Median3(a, b, c));
    MedianIsUnique(b, a, c, Median3(a, b, c));
    MedianIsUnique(b, c, a, Median3(a, b, c));
    MedianIsUnique(c, a, b, Median3(a, b, c));
    MedianIsUnique(c, b, a, Median3(a, b, c));
  }

  /** The filtered reading reaches a threshold exactly when a majority of
      the readings do: one outlier cannot change the decision. */
  lemma MedianMajority(a: real, b: real, c: real, t: real)
    ensures Median3(a, b, c) >= t <==> CountAtLeast(a, b, c, t) >= 2
  {
  }

  /** `UltrasonicSensor`: the pins and the threshold are fixed when the
      sensor is made. The three pulse durations a measurement reads are
      the inputs of its functions. */
  class Sensor {
    const trigPin: uint8
    const echoPin: uint8
    const threshold: real

    /** The threshold is 1 cm unless another is given. */
    constructor (trig: uint8, echo: uint8, threshCM: real := 1.0)
      ensures trigPin == trig && echoPin == echo && threshold == threshCM
    {
      trigPin, echoPin, threshold := trig, echo, threshCM;
    }

    /** `filteredDistance`: the median of three raw readings. */
    function FilteredDistance(d1: int, d2: int, d3: int): (cm: real)
      ensures IsMedian(ReadRawCM(d1), ReadRawCM(d2), ReadRawCM(d3), cm)
    {
      Median3(ReadRawCM(d1), ReadRawCM(d2), ReadRawCM(d3))
    }

    /** `distanceCM`: the filtered distance, that is the median reading. */
    function DistanceCM(d1: int, d2: int, d3: int): (cm: real)
      ensures IsMedian(ReadRawCM(d1), ReadRawCM(d2), ReadRawCM(d3), cm)
    {
      FilteredDistance(d1, d2, d3)
    }

    /** `phoneIn`: the inverted test, true when the filtered distance is at
        or beyond the threshold. */
    function PhoneIn(d1: int, d2: int, d3: int): (r: bool)
      ensures r <==> CountAtLeast(ReadRawCM(d1), ReadRawCM(d2), ReadRawCM(d3), threshold) >= 2
    {
      MedianMajority(ReadRawCM(d1), ReadRawCM(d2), ReadRawCM(d3), threshold);
      FilteredDistance(d1, d2, d3) >= threshold
    }

    /** Because of the inverted test, two missed echoes (the sentinel reads
        as far away) count as the phone being in whenever the threshold is
        below the sentinel. */
    lemma MissedEchoesReadAsPhoneIn(d: int)
      requires threshold <= NoEchoCM
      ensures PhoneIn(0, 0, d) && PhoneIn(0, d, 0) && PhoneIn(d, 0, 0)
    {
    }
  }
}
