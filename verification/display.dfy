/** The three value LEDs (board pins 11, 13, 15) that show the current guess in binary. */
module Display {

  import opened Common

  /** The level of one output pin: 0 is low, 1 is high. */
  type Bit = b: int | 0 <= b <= 1

  /** The levels written to the value LEDs, in the pin order 11, 13, 15. */
  datatype Pattern = Pattern(hi: Bit, mid: Bit, lo: Bit)

  /** The number a pattern shows when read as binary with the first pin most significant. */
  function PatternValue(p: Pattern): (v: int)
    ensures 0 <= v < 8
  {
    4 * p.hi + 2 * p.mid + p.lo
  }

  /** The levels the display writes for guess `g`; `None` when no branch of the
      display matches and nothing is written. */
  function LedPattern(g: int): (p: Option<Pattern>)
    ensures p.Some? <==> 0 <= g < 8
  {
    if g == 0 then Some(Pattern(0, 0, 0))
    else if g == 1 then Some(Pattern(0, 0, 1))
    else if g == 2 then Some(Pattern(0, 1, 0))
    else if g == 3 then Some(Pattern(0, 1, 1))
    else if g == 4 then Some(Pattern(1, 0, 0))
    else if g == 5 then Some(Pattern(1, 0, 1))
    else if g == 6 then Some(Pattern(1, 1, 0))
    else if g == 7 then Some(Pattern(1, 1, 1))
    else None
  }

  /** The three-bit binary form of `g`, most significant bit first, computed by division. */
  function Binary(g: int): Pattern
    requires 0 <= g < 8
  {
    Pattern(g / 4, (g / 2) % 2, g % 2)
  }

  /** The pattern of `g` is its three-bit binary form, most significant bit first. */
  lemma LedPatternIsBinary(g: int)
    requires 0 <= g < 8
    ensures LedPattern(g) == Some(Binary(g))
  {
    // one case per branch of the display, each a computation on literals
    if g == 0 {
    } else if g == 1 {
    } else if g == 2 {
    } else if g == 3 {
    } else if g == 4 {
    } else if g == 5 {
    } else if g == 6 {
    } else {
      assert g == 7;
    }
  }

  /** Exactly the guesses 0..7 are displayed, and the LEDs read back as binary
      give the guess. */
  lemma LedPatternShowsGuess(g: int)
    ensures LedPattern(g).Some? <==> 0 <= g < 8
    ensures LedPattern(g).Some? ==> PatternValue(LedPattern(g).value) == g
  {
    if 0 <= g < 8 {
      LedPatternIsBinary(g);
    }
  }

  /** Two different guesses never light the same LEDs. */
  lemma LedPatternInjective(g1: int, g2: int)
    requires LedPattern(g1).Some? && LedPattern(g1) == LedPattern(g2)
    ensures g1 == g2
  {
    LedPatternShowsGuess(g1);
    LedPatternShowsGuess(g2);
  }

  /** Every combination of the three LEDs is shown by exactly one guess, so the
      display is a bijection between 0..7 and the eight patterns. */
  lemma LedPatternOnto(p: Pattern)
    ensures LedPattern(PatternValue(p)) == Some(p)
  {
    var v := PatternValue(p);
    LedPatternShowsGuess(v);
    var q := LedPattern(v).value;
    assert PatternValue(q) == v;
    PatternValueInjective(p, q);
  }

  /** Reading a pattern back as a number loses nothing. */
  lemma PatternValueInjective(p: Pattern, q: Pattern)
    requires PatternValue(p) == PatternValue(q)
    ensures p == q
  {
    assert p.hi == PatternValue(p) / 4;
    assert q.hi == PatternValue(q) / 4;
    assert p.mid == (PatternValue(p) / 2) % 2;
    assert q.mid == (PatternValue(q) / 2) % 2;
  }
}
