# training-clock control core, in Dafny

This project models the control core of `training-clock`, a terminal countdown
timer. The user edits a duration in seconds, starts the countdown and watches a
progress display. An alarm plays when the time is up. The model covers:

- the application state and its two input modes, `Normal` and `Editing`;
- the key dispatch that updates that state in place;
- the duration commit, which parses the edit buffer as a `u32` and falls back
  to 60 seconds;
- the countdown loop and its rule for when the countdown is over;
- the outer control loop, which alternates between the countdown and one key
  event;
- the stepped bar-chart display (`progress_to_bar_chart_data`).

Modules, one per concern:

- `DurationParse` (`duration_parse.dfy`): Rust's `str::parse::<u32>` on
  decimal text, and the Enter-key fallback to 60. The reference definition of
  a valid literal is `IsU32Literal`, with the positional value `Value`. The
  parser itself (`ParseU32` over `Accumulate`) runs the library's
  left-to-right digit loop, which stops at the first overflow. Lemmas prove
  the two agree and prove both round trips with `Decimal`.
- `Clock` (`clock.dfy`): clock readings are natural numbers of nanoseconds,
  the resolution of `Instant`. Elapsed time is whole seconds, truncated as
  `as_secs` truncates, and a reading before the start counts as zero, as
  `Instant` subtraction saturates. A countdown is over when the elapsed whole
  seconds reach the wait time.
- `BarChart` (`bar_chart.dfy`): the five bar tables, selected by a `real`
  progress ratio.
- `Control` (`control.dfy`): the state as a value: events, key codes and
  modifiers. It defines the key dispatch (`Dispatch`), one countdown pass
  (`TickState`), the countdown loop (`Countdown`) and the control loop over
  rounds (`Session`). It has one lemma per transition of the key dispatch,
  in both modes, including the ignored keys.
- `App` (`app_state.dfy`): the class `AppState`, whose fields are updated in
  place by `HandleEvent`, `Tick`, `RunCountdown` and `Run`. Each method's
  postcondition ties the new fields (`View()`) to the function of `Control`
  applied to the old ones. Each method also requires and ensures `Valid()`:
  the wait time fits in a `u32`.

Behaviour worth noting:

- **Typing appends to the start-up buffer.** The buffer starts as `"60"`
  (src/main.rs:75) and each typed character is pushed onto it
  (src/main.rs:163). So `e`, `9`, `0`, Enter commits 6090 seconds, not 90
  (`Control.TypingAppendsToInitialBuffer`).
- **The last bar-chart threshold is 100.0.** The other thresholds are
  0.25, 0.5 and 0.75 (src/main.rs:247-275). A progress of exactly 1.0 shows
  16 bars, and the full 20 appear only from 100.0 on (`BarChart.BucketAtOne`).
- **A zero wait time is not special-cased.** The completion check
  (src/main.rs:104) is met at the first pass. The floating-point progress is
  not modelled (see below).
- **Keys cannot interrupt a countdown.** A key event is read only after the
  countdown loop has finished (src/main.rs:85-132,
  `Control.NoEventDuringCountdown`).

The quit key must carry exactly the Control modifier. The source matches
`modifiers: KeyModifiers::CONTROL`, which compares the whole flag set, so here
`key.modifiers == {Control}`. Ctrl+Shift+Q does not quit. In editing mode
every character key, Ctrl+Q included, is appended to the buffer.

## Model

| member | source | states |
|---|---|---|
| App.AppState.constructor | src/main.rs:70-79 | the start-up state: not running, buffer "60", wait 60 s, normal mode, start at the current reading, and the u32 bound holds |
| App.AppState.HandleEvent | src/main.rs:132-186 | the fields after one event are exactly `Dispatch` of the old fields; `quit` is exactly the loop's `break`; the u32 bound on the wait time is kept |
| App.AppState.Tick | src/main.rs:87-125 | returns the whole elapsed seconds and their decimal text; `done` holds exactly when the countdown is over; only the running flag can change, and it is cleared exactly when `done` |
| App.AppState.RunCountdown | src/main.rs:85-129 | the inner countdown loop over clock readings leaves the fields and the number of passes that `Countdown` gives |
| App.AppState.Run | src/main.rs:81-189 | the outer loop over rounds ends in the state and quit flag that `Session` gives, and keeps the u32 bound |
| Control.Initial | src/main.rs:70-79 | defines the start-up state; its contract says it is within the u32 range and not running; `InitialState` states every field |
| Control.Dispatch | src/main.rs:132-186 | defines the key dispatch of both modes; its contract says it quits exactly on Ctrl+Q in normal mode and then changes nothing, keeps the u32 bound, and sets the running flag only together with the start reading `now`; the per-transition lemmas below state each arm |
| Control.DropLast | src/main.rs:169 | `String::pop`: an empty buffer stays empty, otherwise the result with the removed last character appended is the old buffer |
| Control.TickState | src/main.rs:104-114 | one countdown pass changes only the running flag, which stays set exactly when it was set and the countdown is not over; described further by `TickBeforeDeadlineKeepsRunning` and `TickAtDeadlineStops` |
| Control.Countdown | src/main.rs:85-129 | defines the countdown loop over readings; its contract says it consumes at most all readings and changes only the running flag, which it can only clear; `CountdownStopsAtFirstCompletion` characterises where it stops |
| Control.Session | src/main.rs:81-189 | defines the control loop over rounds; its contract says a session never ends by quitting while a countdown runs; `NoEventDuringCountdown`, `SessionWithinRange` and `QuitEndsInNormalMode` describe it further |
| Control.InitialState | src/main.rs:70-79 | the initial state is not running, holds "60", waits 60 s, is in normal mode, starts at the given reading, and is within the u32 range |
| Control.NonKeyEventIgnored | src/main.rs:132 | mouse and resize events neither change the state nor quit |
| Control.QuitOnlyByCtrlQ | src/main.rs:134-140 | an event quits if and only if the mode is normal and the key is 'q' with exactly the Control modifier; quitting leaves the state unchanged |
| Control.NormalEditKey | src/main.rs:141-144 | in normal mode 'e' with any modifiers switches to editing and changes nothing else |
| Control.NormalStartKey | src/main.rs:145-151 | in normal mode Space with any modifiers sets running and the start to `now`; wait time, buffer and mode stay |
| Control.NormalOtherKeysIgnored | src/main.rs:153 | in normal mode every key other than Ctrl+Q, 'e' and Space, a plain 'q' included, changes nothing |
| Control.NormalEscapeIdempotent | src/main.rs:134-154 | Escape in normal mode leaves the state as it is |
| Control.EditingEscape | src/main.rs:156-158 | Escape in editing mode returns to normal mode and keeps the buffer and all other fields |
| Control.EditingOtherKeysIgnored | src/main.rs:183 | in editing mode every key other than Escape, a character, Backspace and Enter (Tab, arrows, Delete, function keys, ...) changes nothing and does not quit |
| Control.EditingCharAppends | src/main.rs:159-164 | in editing mode any character with any modifiers, Ctrl+Q included, is appended to the buffer, and no other field changes; it never quits |
| Control.EditingBackspace | src/main.rs:165-170 | Backspace in editing mode removes exactly the last character; on an empty buffer it does nothing; no other field changes |
| Control.EditingEnterCommits | src/main.rs:171-182 | Enter commits the buffer's value when it is a u32 literal and exactly 60 otherwise; mode becomes normal; buffer, running flag and start stay |
| Control.DispatchWithinRange | src/main.rs:175-180 | no event takes the wait time beyond the u32 maximum |
| Control.CountdownStopsAtFirstCompletion | src/main.rs:85-129 | the countdown loop stops at the first completing reading and clears only the running flag; with no completing reading it consumes all readings and keeps the state |
| Control.ZeroWaitStopsAtOnce | src/main.rs:104 | with a zero wait time the countdown stops at its first reading |
| Control.TickBeforeDeadlineKeepsRunning | src/main.rs:104-128 | a pass before start plus the wait time keeps the timer running and the state unchanged |
| Control.TickAtDeadlineStops | src/main.rs:104-114 | a pass at or after start plus the wait time clears the running flag and changes nothing else |
| Control.NoEventDuringCountdown | src/main.rs:81-132 | while a running countdown has not completed, the round's event is never dispatched and the state is unchanged |
| Control.SessionWithinRange | src/main.rs:81-189 | the control loop keeps the wait time within the u32 range |
| Control.QuitEndsInNormalMode | src/main.rs:134-140 | a session that ends by quitting ends in normal mode with no countdown running |
| Control.TypingAppendsToInitialBuffer | src/main.rs:159-182 | from start-up, 'e', '9', '0', Enter gives the buffer "6090" and commits 6090 s, in normal mode and not running |
| Control.StartedCountdownEndsOnTime | src/main.rs:145-151 | Space in normal mode starts a countdown that a pass ends exactly at `now` plus the wait time, and not one nanosecond earlier |
| Control.BackspaceToEmptyThenEnter | src/main.rs:165-180 | buffer "7", Backspace gives "", then Enter commits 60 s and normal mode |
| DurationParse.IsU32Literal | src/main.rs:175 | defines the texts `parse::<u32>` accepts: an optional single '+', at least one ASCII digit and nothing else, value at most 4294967295; an accepted text starts with '+' or a digit; `ParseU32` is proved to accept exactly these |
| DurationParse.Accumulate | src/main.rs:175 | the digit loop of `parse::<u32>` with checked arithmetic; a success never lies below the starting value or above the u32 maximum and means the text was all digits; `AccumulateCorrect` gives its exact result |
| DurationParse.ParseU32 | src/main.rs:175 | the parse succeeds exactly on u32 literals (optional single '+', at least one ASCII digit, nothing else, value at most 4294967295), and then yields the literal's positional value |
| DurationParse.ParseU32OrDefault | src/main.rs:175-178 | the committed seconds are the literal's value when the buffer parses and 60 otherwise, and never exceed the u32 maximum |
| DurationParse.AccumulateCorrect | src/main.rs:175 | the left-to-right digit loop with early overflow failure gives the value of the whole digit string exactly when it is all digits and fits in 32 bits |
| DurationParse.Decimal | src/main.rs:88 | the decimal text of a number is non-empty, all digits, has the number as its value, and has no leading zero |
| DurationParse.ParseDecimal | src/main.rs:175-178 | the decimal text of any u32 value, with or without a leading '+', parses back to that value and is committed as it is |
| DurationParse.DecimalOfParse | src/main.rs:175 | an accepted text, with its '+' and its leading zeros dropped, is the decimal text of the parsed value |
| DurationParse.EmptyFallsBack | src/main.rs:175-178 | an empty buffer commits 60 |
| DurationParse.NonDigitFallsBack | src/main.rs:175-178 | a buffer containing any character other than a digit, leaving aside a single leading '+', fails to parse and commits 60 |
| DurationParse.MalformedFallsBack | src/main.rs:175-178 | a minus sign, a blank anywhere, or a '+' after the first position commits 60 |
| DurationParse.OverflowFallsBack | src/main.rs:175-178 | digits whose value exceeds 4294967295 commit 60, not a truncated value |
| DurationParse.LargestAccepted | src/main.rs:175-180 | "4294967295" is committed as 4294967295 |
| DurationParse.FirstOverflowFallsBack | src/main.rs:175-178 | "4294967296" commits 60 |
| Clock.ElapsedSeconds | src/main.rs:87 | the elapsed seconds are the floor of the elapsed nanoseconds divided by 10^9, and zero for a reading not after the start |
| Clock.CompletedIff | src/main.rs:104 | the countdown is over exactly when the wait time is zero or the reading has reached start plus the wait time in seconds |
| Clock.CompletedMonotone | src/main.rs:104 | once over, the countdown is over at every later reading |
| Clock.ElapsedMonotone | src/main.rs:87 | elapsed seconds never decrease as the clock advances |
| BarChart.Bucket | src/main.rs:246-318 | the result is a prefix of the 20-bar table, of length 4, 8, 12, 16 or 20 exactly when the ratio is below 0.25, below 0.5, below 0.75, below 100.0, or at least 100.0 |
| BarChart.BucketMonotone | src/main.rs:246-318 | a larger ratio never shows fewer bars, and the smaller display is a prefix of the larger |
| BarChart.BucketAtOne | src/main.rs:275-293 | a ratio of 1.0 shows 16 bars, not 20 |

## Left out

- Terminal setup and teardown (raw mode, alternate screen, mouse capture, cursor, src/main.rs:45-64 and 191-200) are terminal I/O.
- The program exits on an error from `event::read`, through `?`. That error path is I/O and is not modelled.
- Audio (src/main.rs:66-68, 108-112) is a foreign library and is not modelled: loading the sound, `play`, and the busy wait until the voice count is zero. The model assumes the wait ends, then clears the running flag exactly as the code does. A device that never reports zero voices would stall the real loop forever.
- The sleeps (src/main.rs:111, 128, 188) only set timing and are not modelled.
- The floating-point progress ratio (src/main.rs:89) is not modelled. `Bucket` takes an abstract `real`. The `f64` division, with its rounding and the NaN or infinity it gives for a zero wait time, is not captured.
- Drawing is not modelled: `sleeping_ui`, `timer_ui` and the frames drawn in the loops (src/main.rs:83, 95-102, 116-123, 205-244, 320-388). Of the countdown display, only the elapsed-seconds text (`Tick`'s `timeString`) and the bar selection are modelled.
- The real clock is not modelled. `Instant::now()` becomes an injected reading. The countdown loop gets a finite sequence of readings, and a countdown that has not completed when they run out ends the modelled session while still inside the countdown.
- Characters are Unicode scalar values. The byte-level parse rejects every byte of a non-ASCII character, which is the same as rejecting the character, so this loses nothing.
- The sound resource field (`play_sound`) of the application state is not modelled.
