# Number-guessing game on a Raspberry Pi: a Dafny model

The game draws a hidden number, shows the player's current guess in binary on
three value LEDs, and lets the player step the guess with an increase button
and submit it with a guess button. Holding the guess button down past a wait
ends the game; an exact guess wins it. Two feedback laws are documented but not
implemented: the brightness of an accuracy LED and the pulse rate of a buzzer.

The model has four modules:

- `Common` (`common.dfy`): an `Option` type and integer `Pow`.
- `Display` (`display.dfy`): the value-LED encoding as a pure function
  `LedPattern` from the guess to three pin levels. Lemmas prove it is the
  binary form of the guess, most significant bit on pin 11. They also prove it
  is a bijection between 0..7 and the eight patterns.
- `Feedback` (`feedback.dfy`): the brightness law and the buzzer law. They are
  pure integer functions, written from their doc comments.
- `Game` (`game.dfy`): the module globals `guess_val`, `gen_val` and
  `end_of_game`, plus the levels on the value LEDs. These are the fields of a
  `Session` class. Its methods are the increase and guess button handlers, the
  menu entry, the start of a round, and the pin re-setup after a game. Scenario methods run a
  whole round.

Behaviour kept as the code has it:

- The target comes from `randint(0, pow(2, 3))`, which includes both ends, so
  it lies in 0..8. A target of 8 can never be matched, because the guess wraps
  modulo 8 (`OnlyTopTargetUnwinnable`).
- The upper brightness law measures against 8, not 7, as the worked example
  at p4.py:206 does.
- A held submit does not return early. The comparison still runs after it, so
  a held press on the right number also reaches the winning branch.
- `end_of_game` is only ever set to true by the guess handler. The menu
  clears it each time it is entered, before the option is read; the draw comes
  only after "P" is chosen. The buttons stay live while the menu waits, so a
  held or matching submit there ends the next round as soon as it starts
  (`SubmitAtMenuEndsNextRound`).
- The code keeps no attempt counter. The model has none either.
- Before any round there is no target (`gen_val` is `None`). A submit then
  fails at the comparison; the model reports this as the verdict `NoTarget`.

## Model

| member | source | states |
|---|---|---|
| `Display.PatternValue` | p4.py:184-199 | reading the three LED levels as binary, first pin most significant, gives a value in 0..7 |
| `Display.LedPattern` | p4.py:184-199 | the eight branches of the display as a table from guess to pin levels; a pattern is written exactly for guesses 0..7 |
| `Display.LedPatternShowsGuess` | p4.py:184-199 | a pattern is written exactly for guesses 0..7, and it reads back as that guess |
| `Display.LedPatternIsBinary` | p4.py:184-199 | the pattern for g is (g div 4, (g div 2) mod 2, g mod 2), the 3-bit binary form with the most significant bit first |
| `Display.LedPatternInjective` | p4.py:184-199 | two guesses that light the same LEDs are equal |
| `Display.LedPatternOnto` | p4.py:184-199 | every combination of the three LEDs is the pattern of exactly the guess it reads as |
| `Display.PatternValueInjective` | p4.py:184-199 | two patterns that read as the same number are equal |
| `Feedback.Brightness` | p4.py:203-206 | below the target the brightness is guess*100/target, truncated; above it, (8-guess)*100/(8-target), truncated; always in 0..99 |
| `Feedback.BrightnessExamples` | p4.py:205-206 | target 6 with guess 4 gives 66; target 6 with guess 7 gives 50 |
| `Feedback.BrightnessCloserIsBrighter` | p4.py:204 | on the same side of the target, a closer guess is never dimmer |
| `Feedback.BrightnessExtremes` | p4.py:204-206 | guess 0 below the target gives 0; any guess above the target gives at least 12 |
| `Feedback.BuzzerSignal` | p4.py:212-216 | a signal exists exactly for distances 1..3; its duty is 50; its rate times 2^distance is 8, giving 4, 2 and 1 pulses per second |
| `Feedback.BuzzerFasterWhenCloser` | p4.py:214-216 | a smaller distance gives a strictly higher pulse rate, and each step closer doubles it |
| `Game.NextGuess` | p4.py:133-134 | one press steps the guess by one, from 7 back to 0, and the result is in 0..7 |
| `Game.Presses` | p4.py:133-134 | repeated presses of increase; after at least one press, or from a guess in range, the guess is in 0..7 |
| `Game.PressesWrap` | p4.py:133-134 | k presses from a guess in range give (guess + k) mod 8 |
| `Game.EightPressesRestore` | p4.py:129-136 | eight presses return the guess to its start |
| `Game.PressesPeriodic` | p4.py:129-136 | presses repeat with period eight: k + 8 presses give the same guess as k |
| `Game.Distance` | p4.py:155 | the distance is the absolute difference, and it is 0 exactly when target and guess are equal |
| `Common.Pow` | p4.py:124 | the integer power used for the draw's upper end `pow(2, 3)`; a positive base gives a positive power |
| `Game.OnlyTopTargetUnwinnable` | p4.py:124 | among the drawable targets 0..8, exactly 8 cannot be matched by any guess in 0..7 |
| `Game.Session.constructor` | p4.py:9-11 | the program starts with guess 0, no target and the game not over (`end_of_game` starts as `None`, which is only ever tested as false); the value LEDs are low, as `setup()` sets them at p4.py:83 |
| `Game.Session.DisplayVal` | p4.py:181-199 | exactly one branch writes for a guess in 0..7, leaving the LEDs showing the guess; otherwise nothing is written |
| `Game.Session.Increase` | p4.py:129-136 | the guess becomes (old guess + 1) mod 8 and is shown on the LEDs; target and end-of-game flag are unchanged |
| `Game.Session.Submit` | p4.py:140-168 | the verdict is a match exactly when the target equals the guess; afterwards the game is over exactly when it already was, the button was held, or the guess matched; guess, target and LEDs are unchanged |
| `Game.Session.Menu` | p4.py:36-41 | entering the menu clears the end-of-game flag before the option is read; guess, target and LEDs are unchanged |
| `Game.Session.NewRound` | p4.py:122-125 | choosing to play takes a drawn target in 0..8; the end-of-game flag, the guess and the LEDs carry over |
| `Game.Session.RestartAsWritten` | p4.py:225-234 | after a game, setting up the pins again sets the LEDs low and leaves the guess as it was |
| `Game.Session.Restart` | p4.py:225-234 | the corrected restart also clears the guess, so the LEDs still show it |
| `Game.StaleDisplayAfterRestart` | p4.py:225-234 | for a session whose guess is not 0, the restart as written keeps the guess and sets the LEDs low, so they no longer show the guess |
| `Game.ReplayAsWritten` | p4.py:225-234 | as written: after a win at 6 and a restart, the next round for 6 shows all-low LEDs, yet an immediate submit compares 6 and matches |
| `Game.SubmitAtMenuEndsNextRound` | p4.py:39-58 | a held submit while the menu waits sets the end-of-game flag, and the next round starts with it already set |
| `Game.WinAfterSixPresses` | p4.py:129-168 | with target 6, six presses and a quick submit give a match and end the game |
| `Game.NextRoundStartsAtZero` | p4.py:225-234 | with the corrected `Restart`, after a won round the next round starts at guess 0, with the LEDs showing it |
| `Game.IncreaseEightTimes` | p4.py:129-136 | eight presses leave guess, target and end-of-game flag unchanged, with the LEDs showing the guess |
| `Game.HeldSubmit` | p4.py:150-168 | a held submit on a wrong guess ends the game with a miss; a held submit on the right guess is still a match |

## Findings

| source | as written | input that shows it | evidently intended | confidence | as-written member | corrected member |
|---|---|---|---|---|---|---|
| p4.py:225-234 | after a game ends, the pins are set up again and the value LEDs go low, but `guess_val` keeps its value | win with guess 6, then play again: the LEDs show 0 while the next submit compares 6 | the guess restarts at 0 along with the LEDs, so the display shows what is submitted | medium, not executed | `Game.Session.RestartAsWritten` | `Game.Session.Restart` |

## Left out

- Pin setup, PWM start and stop, and the digital writes to the accuracy LED and the buzzer (p4.py:75-96, 146-147, 160-163, 219-223). These are hardware calls. Only the value-LED levels are modelled, as the field `leds`.
- Edge-triggered callbacks with debounce, and the busy-wait `while not end_of_game` loop (p4.py:58-59, 95-96). Handlers are modelled as method calls that run one at a time.
- The two-second sleep and the pin read that detect a held button. They become the boolean `held` given to `Submit`.
- The random draw in `generate_number`. The drawn value is the parameter of `NewRound`, constrained to 0..8, the range `randint` promises.
- Console I/O: the banner, the menu text, the option choice, the name prompt after a win, and clearing the screen (p4.py:23-64, 166). The menu's option dispatch is not modelled beyond starting a round.
- The high-score store: `fetch_scores`, `save_scores` and `display_scores` are stubs, and `ES2EEPROMUtils` is not part of this model. There is no record format or ranking logic to model.
- The exception handling and final cleanup of the main program (p4.py:225-239).
- The feedback laws are never called by the guess handler; they are modelled as stand-alone functions.
- `Feedback.BuzzerSignal`: for distance 0 and for distances above 3 the documentation names no rate, so the model returns no signal.
- `Feedback.Brightness`: the documented law uses float division scaled to percent. The model uses truncating integer division, as the worked example "66%" implies.
