/** The guessing-game state that the increase and submit button handlers drive:
    the current guess shown on the value LEDs, the drawn target and the
    end-of-game flag the control loop waits on. */
module Game {

  import opened Common
  import opened Display

  /** The guess counts modulo this many values, so it is always one of 0..7. */
  const GUESS_VALUES := 8

  /** The upper end of the target draw, `pow(2, 3)`, included in the draw. */
  const TARGET_HIGH := Pow(2, 3)

  /** The targets the draw can give: the draw includes both of its ends. */
  predicate IsDrawnTarget(t: int)
  {
    0 <= t <= TARGET_HIGH
  }

  /** The guess after one press of the increase button. */
  function NextGuess(g: int): (n: int)
    ensures 0 <= n < GUESS_VALUES
    ensures 0 <= g < GUESS_VALUES - 1 ==> n == g + 1
    ensures g == GUESS_VALUES - 1 ==> n == 0
  {
    (g + 1) % GUESS_VALUES
  }

  /** The guess after `k` presses of the increase button, starting from `g`. */
  function Presses(g: int, k: nat): (r: int)
    ensures 0 <= g < GUESS_VALUES || k > 0 ==> 0 <= r < GUESS_VALUES
  {
    if k == 0 then g else NextGuess(Presses(g, k - 1))
  }

  /** `k` presses from a guess in range move it `k` steps round the eight values. */
  lemma {:induction false} PressesWrap(g: int, k: nat)
    requires 0 <= g < GUESS_VALUES
    ensures Presses(g, k) == (g + k) % GUESS_VALUES
  {
    if k > 0 {
      PressesWrap(g, k - 1);
      var prev := (g + k - 1) % GUESS_VALUES;
      assert g + k - 1 == GUESS_VALUES * ((g + k - 1) / GUESS_VALUES) + prev;
      assert g + k == GUESS_VALUES * ((g + k - 1) / GUESS_VALUES) + (prev + 1);
    }
  }

  /** Eight presses bring the guess back to where it started. */
  lemma {:induction false} EightPressesRestore(g: int)
    requires 0 <= g < GUESS_VALUES
    ensures Presses(g, GUESS_VALUES) == g
  {
    PressesWrap(g, GUESS_VALUES);
    assert (g + GUESS_VALUES) % GUESS_VALUES == g;
  }

  /** Presses repeat with period eight. */
  lemma {:induction false} PressesPeriodic(g: int, k: nat)
    requires 0 <= g < GUESS_VALUES
    ensures Presses(g, k + GUESS_VALUES) == Presses(g, k)
  {
    PressesWrap(g, k);
    PressesWrap(g, k + GUESS_VALUES);
    assert (g + (k + GUESS_VALUES)) % GUESS_VALUES == (g + k) % GUESS_VALUES;
  }

  /** How far the guess is from the target: the absolute difference. */
  function Distance(target: int, guess: int): (d: nat)
    ensures d == 0 <==> target == guess
    ensures target - guess == d || guess - target == d
  {
    if target >= guess then target - guess else guess - target
  }

  /** Some reachable guess matches target `t` exactly. */
  predicate Winnable(t: int)
  {
    exists g :: 0 <= g < GUESS_VALUES && Distance(t, g) == 0
  }

  /** Of all the targets the draw can give, exactly the top one, 8, can never
      be matched, because the guess never leaves 0..7. */
  lemma OnlyTopTargetUnwinnable(t: int)
    requires IsDrawnTarget(t)
    ensures !Winnable(t) <==> t == TARGET_HIGH
  {
    assert TARGET_HIGH == 8;
    if t < TARGET_HIGH {
      assert Distance(t, t) == 0;
    }
  }

  /** What the submit handler found when it compared the guess: no target drawn
      yet (the comparison fails), an exact match, or a miss. */
  datatype Verdict = NoTarget | Match | Miss

  /** The game's global state. */
  class Session {
    var guess: int
    var target: Option<int>
    var endOfGame: bool
    /** The levels last written to the three value LEDs. */
    var leds: Pattern

    ghost predicate Valid()
      reads this
    {
      0 <= guess < GUESS_VALUES && (target.Some? ==> IsDrawnTarget(target.value))
    }

    /** The value LEDs show the current guess. */
    ghost predicate ShowsGuess()
      reads this
    {
      LedPattern(guess) == Some(leds)
    }

    /** The state when the program starts: guess 0, no target drawn, the game
        not over, and the value LEDs set low. */
    constructor ()
      ensures Valid() && ShowsGuess()
      ensures guess == 0 && target == None && !endOfGame && leds == Pattern(0, 0, 0)
    {
      guess := 0;
      target := None;
      endOfGame := false;
      leds := Pattern(0, 0, 0);
    }

    /** Writes the guess to the value LEDs; the ghost `writes` counts the
        branches that matched and wrote, exactly one for every guess in range. */
    method DisplayVal() returns (ghost writes: nat)
      modifies this`leds
      ensures 0 <= guess < GUESS_VALUES ==> writes == 1 && ShowsGuess()
      ensures !(0 <= guess < GUESS_VALUES) ==> writes == 0 && leds == old(leds)
    {
      writes := 0;
      if guess == 0 { leds := Pattern(0, 0, 0); writes := writes + 1; }
      if guess == 1 { leds := Pattern(0, 0, 1); writes := writes + 1; }
      if guess == 2 { leds := Pattern(0, 1, 0); writes := writes + 1; }
      if guess == 3 { leds := Pattern(0, 1, 1); writes := writes + 1; }
      if guess == 4 { leds := Pattern(1, 0, 0); writes := writes + 1; }
      if guess == 5 { leds := Pattern(1, 0, 1); writes := writes + 1; }
      if guess == 6 { leds := Pattern(1, 1, 0); writes := writes + 1; }
      if guess == 7 { leds := Pattern(1, 1, 1); writes := writes + 1; }
    }

    /** The increase button: step the guess round 0..7 and show it. */
    method Increase()
      requires Valid()
      modifies this`guess, this`leds
      ensures Valid() && ShowsGuess()
      ensures guess == NextGuess(old(guess))
      ensures guess == (old(guess) + 1) % GUESS_VALUES
      ensures target == old(target) && endOfGame == old(endOfGame)
    {
      guess := guess + 1;
      guess := guess % GUESS_VALUES;
      var _ := DisplayVal();
    }

    /** The submit button. `held` says whether the button is still down when
        the hold wait ends; a held press ends the game, and so does an exact
        match, which is checked even after a held press. */
    method Submit(held: bool) returns (verdict: Verdict)
      requires Valid()
      modifies this`endOfGame
      ensures Valid()
      ensures verdict == NoTarget <==> target == None
      ensures verdict == Match <==> target == Some(guess)
      ensures endOfGame == (old(endOfGame) || held || verdict == Match)
      ensures guess == old(guess) && target == old(target) && leds == old(leds)
    {
      if held {
        endOfGame := true;
      }
      if target == None {
        return NoTarget;
      }
      var diff := Distance(target.value, guess);
      if diff == 0 {
        endOfGame := true;
        verdict := Match;
      } else {
        verdict := Miss;
      }
    }

    /** Entering the menu clears the end-of-game flag, before any option is
        chosen. The buttons stay live while the menu waits for input. */
    method Menu()
      requires Valid()
      modifies this`endOfGame
      ensures Valid()
      ensures !endOfGame
      ensures guess == old(guess) && target == old(target) && leds == old(leds)
    {
      endOfGame := false;
    }

    /** Choosing to play takes the drawn target. The end-of-game flag is left
        as the menu and any submit since then set it, and the guess carries
        over from before. */
    method NewRound(drawn: int)
      requires Valid() && IsDrawnTarget(drawn)
      modifies this`target
      ensures Valid()
      ensures target == Some(drawn)
      ensures guess == old(guess) && endOfGame == old(endOfGame) && leds == old(leds)
    {
      target := Some(drawn);
    }

    /** After a game ends the pins are released and set up again, which sets
        the value LEDs low; as written, the guess is left as it was. */
    method RestartAsWritten()
      requires Valid()
      modifies this`leds
      ensures Valid()
      ensures leds == Pattern(0, 0, 0)
      ensures guess == old(guess) && target == old(target) && endOfGame == old(endOfGame)
    {
      leds := Pattern(0, 0, 0);
    }

    /** The restart with the guess cleared as well, so that the LEDs, set low,
        still show the guess. */
    method Restart()
      requires Valid()
      modifies this`leds, this`guess
      ensures Valid() && ShowsGuess()
      ensures guess == 0 && leds == Pattern(0, 0, 0)
      ensures target == old(target) && endOfGame == old(endOfGame)
    {
      leds := Pattern(0, 0, 0);
      guess := 0;
    }
  }

  /** After the restart as written, a session whose guess is not 0 no longer
      shows its guess: the LEDs read 0 while the guess keeps its value. */
  method StaleDisplayAfterRestart(s: Session)
    requires s.Valid() && s.guess != 0
    modifies s
    ensures s.Valid() && !s.ShowsGuess()
    ensures s.guess == old(s.guess) && s.leds == Pattern(0, 0, 0)
  {
    s.RestartAsWritten();
    LedPatternShowsGuess(s.guess);
  }

  /** As written: win at 6, restart, and play again for 6. The LEDs show 0,
      yet an immediate submit compares the old guess 6 and wins. */
  method ReplayAsWritten() returns (verdict: Verdict, guess: int, leds: Pattern)
    ensures verdict == Match && guess == 6
    ensures leds == Pattern(0, 0, 0) && LedPattern(guess) != Some(leds)
  {
    var s := new Session();
    s.Menu();
    s.NewRound(6);
    s.Increase(); s.Increase(); s.Increase();
    s.Increase(); s.Increase(); s.Increase();
    var _ := s.Submit(false);
    s.RestartAsWritten();
    s.Menu();
    s.NewRound(6);
    verdict := s.Submit(false);
    guess, leds := s.guess, s.leds;
  }

  /** A held submit while the menu waits for an option sets the end-of-game
      flag; nothing clears it before the round, so the round is over as soon
      as it begins. */
  method SubmitAtMenuEndsNextRound() returns (ended: bool)
    ensures ended
  {
    var s := new Session();
    s.Menu();
    var _ := s.Submit(true);
    s.NewRound(3);
    ended := s.endOfGame;
  }

  /** A full round from the start: target 6, six presses of increase, then a
      quick submit wins and ends the game. */
  method WinAfterSixPresses() returns (verdict: Verdict, ended: bool)
    ensures verdict == Match && ended
  {
    var s := new Session();
    s.Menu();
    s.NewRound(6);
    s.Increase(); s.Increase(); s.Increase();
    s.Increase(); s.Increase(); s.Increase();
    verdict := s.Submit(false);
    ended := s.endOfGame;
  }

  /** With the corrected restart, after a won round the next round starts the
      guess at 0 with the value LEDs showing it. */
  method NextRoundStartsAtZero() returns (guess: int, leds: Pattern)
    ensures guess == 0 && LedPattern(guess) == Some(leds)
  {
    var s := new Session();
    s.Menu();
    s.NewRound(1);
    s.Increase();
    var _ := s.Submit(false);
    s.Restart();
    s.Menu();
    s.NewRound(5);
    guess, leds := s.guess, s.leds;
  }

  /** Eight presses of the increase button leave the guess, the target and the
      end-of-game flag as they were, with the LEDs still showing the guess. */
  method IncreaseEightTimes(s: Session)
    requires s.Valid()
    modifies s
    ensures s.Valid() && s.ShowsGuess()
    ensures s.guess == old(s.guess) && s.target == old(s.target) && s.endOfGame == old(s.endOfGame)
  {
    ghost var start := s.guess;
    for i := 0 to GUESS_VALUES
      invariant s.Valid()
      invariant s.guess == Presses(start, i)
      invariant i > 0 ==> s.ShowsGuess()
      invariant s.target == old(s.target) && s.endOfGame == old(s.endOfGame)
    {
      s.Increase();
    }
    EightPressesRestore(start);
  }

  /** A held submit on a wrong guess ends the game without a match; a held
      submit on the right guess still reaches the match. */
  method HeldSubmit() returns (miss: Verdict, missEnded: bool, hit: Verdict)
    ensures miss == Miss && missEnded
    ensures hit == Match
  {
    var s := new Session();
    s.Menu();
    s.NewRound(2);
    s.Increase();
    miss := s.Submit(true);
    missEnded := s.endOfGame;
    s.Menu();
    s.NewRound(1);
    hit := s.Submit(true);
  }
}
