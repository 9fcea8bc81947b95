/** The two closeness feedback laws: the brightness of the accuracy LED and the
    pulse rate of the buzzer. Both are documented for the game but have no body
    there, so each is written here as the law its documentation states. */
module Feedback {

  import opened Common

  /** The top the brightness law measures the upper side against (8, not 7). */
  const CLOSENESS_TOP := 8

  /** The duty cycle, in percent, the buzzer keeps at every pulse rate. */
  const BUZZER_DUTY := 50

  /** Percent brightness of the accuracy LED for a wrong guess: below the target
      it is guess / target, above it (8 - guess) / (8 - target), scaled to
      percent and truncated. An exact guess does not use this law. */
  function Brightness(guess: int, target: int): (r: int)
    requires 0 <= guess < 8 && 0 <= target <= 8 && guess != target
    ensures 0 <= r < 100
    ensures guess < target ==> r * target <= guess * 100 < (r + 1) * target
    ensures guess > target ==>
      r * (CLOSENESS_TOP - target) <= (CLOSENESS_TOP - guess) * 100 < (r + 1) * (CLOSENESS_TOP - target)
  {
    if guess < target then
      DivBounds(guess * 100, target, 100);
      guess * 100 / target
    else
      DivBounds((CLOSENESS_TOP - guess) * 100, CLOSENESS_TOP - target, 100);
      (CLOSENESS_TOP - guess) * 100 / (CLOSENESS_TOP - target)
  }

  /** The quotient of truncating division brackets the dividend, and a dividend
      below `n` divisors gives a quotient below `n`. */
  lemma DivBounds(a: int, d: int, n: int)
    requires a >= 0 && d > 0
    ensures (a / d) * d <= a < (a / d + 1) * d
    ensures a < n * d ==> a / d < n
  {
    if a / d >= n {
      MulMono(n, a / d, d);
    }
  }

  /** Multiplying by a non-negative number keeps order. */
  lemma MulMono(x: int, y: int, c: int)
    requires x <= y && c >= 0
    ensures x * c <= y * c
  {
  }

  /** The two worked examples of the law: target 6 with guess 4 gives 66, with guess 7 gives 50. */
  lemma BrightnessExamples()
    ensures Brightness(4, 6) == 66
    ensures Brightness(7, 6) == 50
  {
  }

  /** Truncating division keeps the order of its dividends. */
  lemma DivMonotone(a: int, b: int, d: int)
    requires 0 <= a <= b && d > 0
    ensures a / d <= b / d
  {
    DivBounds(b, d, 0);
    DivBounds(a, d, b / d + 1);
  }

  /** A guess closer to the target on the same side never gives a dimmer LED:
      the brightness is proportional to closeness. */
  lemma BrightnessCloserIsBrighter(far: int, near: int, target: int)
    requires 0 <= far < 8 && 0 <= near < 8 && 0 <= target <= 8
    requires far < near < target || target < near < far
    ensures Brightness(far, target) <= Brightness(near, target)
  {
    if near < target {
      DivMonotone(far * 100, near * 100, target);
    } else {
      DivMonotone((CLOSENESS_TOP - far) * 100, (CLOSENESS_TOP - near) * 100, CLOSENESS_TOP - target);
    }
  }

  /** Below the target a guess of 0 leaves the LED dark; above it the LED is
      always lit, at least 12 percent. */
  lemma BrightnessExtremes(guess: int, target: int)
    requires 0 <= guess < 8 && 0 <= target <= 8 && guess != target
    ensures guess == 0 ==> Brightness(guess, target) == 0
    ensures guess > target ==> Brightness(guess, target) >= 12
  {
    if guess > target {
      DivMonotone(100, (CLOSENESS_TOP - guess) * 100, CLOSENESS_TOP - target);
      DivMonotone(100, 100, 8);
      assert 100 / (CLOSENESS_TOP - target) >= 100 / 8 by {
        DivAntitone(100, CLOSENESS_TOP - target, 8);
      }
    }
  }

  /** Dividing by a larger positive number never gives more. */
  lemma DivAntitone(a: int, small: int, large: int)
    requires a >= 0 && 0 < small <= large
    ensures a / large <= a / small
  {
    DivBounds(a, small, 0);
    MulMono(small, large, a / small + 1);
    DivBounds(a, large, a / small + 1);
  }

  /** A periodic buzzer signal: pulses per second and duty cycle in percent. */
  datatype Signal = Signal(frequency: nat, duty: nat)

  /** The buzzer signal for a guess `distance` away from the target: 1, 2 or 4
      pulses per second at distance 3, 2 or 1, always at half duty; no rate is
      given for any other distance. */
  function BuzzerSignal(distance: int): (s: Option<Signal>)
    ensures s.Some? <==> 1 <= distance <= 3
    ensures s.Some? ==> s.value.duty == BUZZER_DUTY
    ensures s.Some? ==> s.value.frequency * Pow(2, distance) == 8
  {
    if distance == 3 then Some(Signal(1, BUZZER_DUTY))
    else if distance == 2 then Some(Signal(2, BUZZER_DUTY))
    else if distance == 1 then Some(Signal(4, BUZZER_DUTY))
    else None
  }

  /** Each step closer to the target doubles the pulse rate, so the buzzer
      sounds strictly faster the closer the guess. */
  lemma BuzzerFasterWhenCloser(near: int, far: int)
    requires 1 <= near < far <= 3
    ensures BuzzerSignal(near).value.frequency > BuzzerSignal(far).value.frequency
    ensures BuzzerSignal(far - 1).value.frequency == 2 * BuzzerSignal(far).value.frequency
  {
  }
}
