/** The delay model of the typing simulator (main.js, TypingSimulator.calculateDelay):
    milliseconds to wait after typing a character, from the words-per-minute rate, the
    previous character, the temperature (jitter) and the pause multiplier. `Math.random()`
    is the parameter `r`; JavaScript's floating point is modelled by exact reals. */
module Delay {

  /** The floor no delay goes below (`Math.max(delay, 10)`). */
  const FloorMs: real := 10.0

  /** Milliseconds per character at `wpm` words per minute, a word being five characters:
      60000 / (wpm * 5). */
  function BaseDelay(wpm: int): (d: real)
    requires wpm > 0
    ensures d > 0.0
    ensures d * wpm as real == 12000.0
  {
    12000.0 / wpm as real
  }

  /** The previous characters after which the pause multiplier lengthens the delay. */
  predicate IsBoundary(prev: string) {
    prev == " " || prev == "." || prev == "!" || prev == "?" || prev == ","
  }

  /** The boundary multiplier chosen from the previous character only; `prev` is the empty
      string before the first character. */
  function BoundaryMultiplier(prev: string, pauseMultiplier: int): real {
    var pauseFactor := pauseMultiplier as real / 100.0;
    if pauseFactor > 0.0 then
      if prev == " " then 1.0 + 0.8 * pauseFactor
      else if prev == "." || prev == "!" || prev == "?" then 1.0 + 2.0 * pauseFactor
      else if prev == "," then 1.0 + 0.4 * pauseFactor
      else 1.0
    else 1.0
  }

  /** The multiplier is exactly 1 unless a positive pause multiplier meets a boundary, and
      then it exceeds 1; for the same positive pause multiplier a sentence end pauses longer
      than a space, and a space longer than a comma. */
  lemma BoundaryMultiplierOrder(prev: string, pauseMultiplier: int)
    ensures BoundaryMultiplier(prev, pauseMultiplier) >= 1.0
    ensures BoundaryMultiplier(prev, pauseMultiplier) > 1.0
            <==> pauseMultiplier > 0 && IsBoundary(prev)
    ensures pauseMultiplier > 0 ==>
              BoundaryMultiplier(".", pauseMultiplier) == BoundaryMultiplier("!", pauseMultiplier)
              == BoundaryMultiplier("?", pauseMultiplier) > BoundaryMultiplier(" ", pauseMultiplier)
              > BoundaryMultiplier(",", pauseMultiplier) > 1.0
  {
  }

  /** A larger pause multiplier never shortens the boundary pause, and lengthens it strictly
      at a boundary. */
  lemma BoundaryMultiplierMonotone(prev: string, p1: int, p2: int)
    requires 0 <= p1 < p2
    ensures BoundaryMultiplier(prev, p1) <= BoundaryMultiplier(prev, p2)
    ensures IsBoundary(prev) ==> BoundaryMultiplier(prev, p1) < BoundaryMultiplier(prev, p2)
  {
  }

  /** The delay `d` with the temperature's random variation applied: plus or minus
      temperature / 400 of `d`, as `r` runs over [0, 1). */
  function Jittered(d: real, temperature: int, r: real): real {
    var tempFactor := temperature as real / 100.0;
    var maxVariation := tempFactor * 0.25;
    var charVariation := d * (r * maxVariation * 2.0 - maxVariation);
    d + charVariation
  }

  /** The delay before the floor is applied. */
  function UnflooredDelay(prev: string, wpm: int, temperature: int, pauseMultiplier: int, r: real): real
    requires wpm > 0
  {
    Jittered(BaseDelay(wpm) * BoundaryMultiplier(prev, pauseMultiplier), temperature, r)
  }

  /** calculateDelay(char, prevChar): the character being typed is not consulted, so it is
      not a parameter. */
  function CalculateDelay(prev: string, wpm: int, temperature: int, pauseMultiplier: int, r: real): (ms: real)
    requires wpm > 0
    requires 0.0 <= r < 1.0
    ensures ms >= FloorMs
    ensures UnflooredDelay(prev, wpm, temperature, pauseMultiplier, r) >= FloorMs
            ==> ms == UnflooredDelay(prev, wpm, temperature, pauseMultiplier, r)
  {
    var delay := UnflooredDelay(prev, wpm, temperature, pauseMultiplier, r);
    if delay > FloorMs then delay else FloorMs
  }

  lemma MulNonNegative(a: real, b: real)
    requires a >= 0.0 && b >= 0.0
    ensures a * b >= 0.0
  {
  }

  lemma MulPositive(a: real, b: real)
    requires a > 0.0 && b > 0.0
    ensures a * b > 0.0
  {
  }

  /** The factor the jitter multiplies a delay by. */
  function JitterFactor(temperature: int, r: real): real {
    1.0 + (temperature as real / 400.0) * (2.0 * r - 1.0)
  }

  lemma JitteredIsScaled(d: real, temperature: int, r: real)
    ensures Jittered(d, temperature, r) == d * JitterFactor(temperature, r)
  {
  }

  /** The factor lies in [1 - t/400, 1 + t/400), and is exactly 1 at temperature 0. */
  lemma JitterFactorBounds(temperature: int, r: real)
    requires temperature >= 0 && 0.0 <= r < 1.0
    ensures 1.0 - temperature as real / 400.0 <= JitterFactor(temperature, r)
    ensures JitterFactor(temperature, r) <= 1.0 + temperature as real / 400.0
    ensures temperature > 0 ==> JitterFactor(temperature, r) < 1.0 + temperature as real / 400.0
    ensures temperature == 0 ==> JitterFactor(temperature, r) == 1.0
  {
    var v := temperature as real / 400.0;
    var e := 2.0 * r - 1.0;
    MulNonNegative(v, e + 1.0);
    assert v * (e + 1.0) == v * e + v;
    MulNonNegative(v, 1.0 - e);
    assert v * (1.0 - e) == v - v * e;
    if temperature > 0 {
      MulPositive(v, 1.0 - e);
    }
  }

  /** The jitter keeps a positive delay within [d * (1 - t/400), d * (1 + t/400)), the upper
      end excluded when the temperature is positive; at temperature 0 it changes nothing,
      whatever `r` is. */
  lemma JitterBounds(d: real, temperature: int, r: real)
    requires d > 0.0 && temperature >= 0 && 0.0 <= r < 1.0
    ensures d * (1.0 - temperature as real / 400.0) <= Jittered(d, temperature, r)
    ensures Jittered(d, temperature, r) <= d * (1.0 + temperature as real / 400.0)
    ensures temperature > 0 ==> Jittered(d, temperature, r) < d * (1.0 + temperature as real / 400.0)
    ensures temperature == 0 ==> Jittered(d, temperature, r) == d
  {
    var f := JitterFactor(temperature, r);
    var lo := 1.0 - temperature as real / 400.0;
    var hi := 1.0 + temperature as real / 400.0;
    JitteredIsScaled(d, temperature, r);
    JitterFactorBounds(temperature, r);
    MulNonNegative(d, f - lo);
    assert d * (f - lo) == d * f - d * lo;
    MulNonNegative(d, hi - f);
    assert d * (hi - f) == d * hi - d * f;
    if temperature > 0 {
      MulPositive(d, hi - f);
    }
  }

  /** For the rates the settings accept (10 to 900 words per minute, temperature 0 to 100)
      the jittered delay already reaches the floor, so the floor never changes it. */
  lemma FloorInactiveInRange(prev: string, wpm: int, temperature: int, pauseMultiplier: int, r: real)
    requires 10 <= wpm <= 900 && 0 <= temperature <= 100 && 0.0 <= r < 1.0
    ensures UnflooredDelay(prev, wpm, temperature, pauseMultiplier, r) >= FloorMs
    ensures CalculateDelay(prev, wpm, temperature, pauseMultiplier, r)
            == UnflooredDelay(prev, wpm, temperature, pauseMultiplier, r)
  {
    var base := BaseDelay(wpm);
    var m := BoundaryMultiplier(prev, pauseMultiplier);
    BoundaryMultiplierOrder(prev, pauseMultiplier);
    assert base >= 12000.0 / 900.0 by {
      MulNonNegative(base, 900.0 - wpm as real);
    }
    MulNonNegative(base, m - 1.0);
    var d := base * m;
    assert d >= 12000.0 / 900.0;
    JitterBounds(d, temperature, r);
    var lower := 1.0 - temperature as real / 400.0;
    assert lower >= 0.75;
    MulNonNegative(d, lower - 0.75);
    MulNonNegative(0.75, d - 12000.0 / 900.0);
  }

  lemma UnflooredIsScaled(prev: string, wpm: int, temperature: int, pauseMultiplier: int, r: real)
    requires wpm > 0
    ensures UnflooredDelay(prev, wpm, temperature, pauseMultiplier, r)
            == BaseDelay(wpm) * BoundaryMultiplier(prev, pauseMultiplier) * JitterFactor(temperature, r)
  {
    JitteredIsScaled(BaseDelay(wpm) * BoundaryMultiplier(prev, pauseMultiplier), temperature, r);
  }

  lemma ScaledStrictly(base: real, m1: real, m2: real, f: real)
    requires base > 0.0 && m1 < m2 && f > 0.0
    ensures base * m1 * f < base * m2 * f
  {
    MulPositive(base, m2 - m1);
    MulPositive(base * (m2 - m1), f);
    assert base * m2 * f - base * m1 * f == base * (m2 - m1) * f;
  }

  /** At a word or sentence boundary, a larger pause multiplier gives a strictly longer delay
      for the same rate, temperature and random draw. */
  lemma PauseLengthensBoundaryDelay(prev: string, wpm: int, temperature: int, p1: int, p2: int, r: real)
    requires 10 <= wpm <= 900 && 0 <= temperature <= 100 && 0.0 <= r < 1.0
    requires 0 <= p1 < p2 && IsBoundary(prev)
    ensures CalculateDelay(prev, wpm, temperature, p1, r) < CalculateDelay(prev, wpm, temperature, p2, r)
  {
    FloorInactiveInRange(prev, wpm, temperature, p1, r);
    FloorInactiveInRange(prev, wpm, temperature, p2, r);
    BoundaryMultiplierMonotone(prev, p1, p2);
    JitterFactorBounds(temperature, r);
    UnflooredIsScaled(prev, wpm, temperature, p1, r);
    UnflooredIsScaled(prev, wpm, temperature, p2, r);
    ScaledStrictly(BaseDelay(wpm), BoundaryMultiplier(prev, p1), BoundaryMultiplier(prev, p2),
                   JitterFactor(temperature, r));
  }
}
