/**
 * The application state updated in place by the program's control loop:
 * the key dispatch, one pass of the countdown loop, the countdown loop and
 * the control loop itself. Each method is specified by the matching
 * function of `Control`.
 */
module App {
  import opened DurationParse
  import opened Clock
  import opened Control

  class AppState {
    var runningTimer: bool
    var timerValue: string
    var startTime: nat
    var waitTime: nat
    var inputMode: InputMode

    /** The fields as a value. */
    function View(): State
      reads this
    {
      State(runningTimer, timerValue, startTime, waitTime, inputMode)
    }

    /** The wait time stays within the u32 range it was parsed in. */
    predicate Valid()
      reads this
    {
      WithinRange(View())
    }

    /** The start-up state, with the clock reading `now` as the (unused) start. */
    constructor (now: nat)
      ensures Valid()
      ensures !runningTimer && timerValue == "60" && startTime == now
      ensures waitTime == 60 && inputMode == Normal
      ensures View() == Initial(now)
    {
      runningTimer := false;
      timerValue := "60";
      startTime := now;
      waitTime := 60;
      inputMode := Normal;
    }

    /** Dispatch one event read at clock reading `now`; `quit` is the loop's `break`. */
    method HandleEvent(ev: Event, now: nat) returns (quit: bool)
      requires Valid()
      modifies this
      ensures Valid()
      ensures View() == Dispatch(old(View()), ev, now).next
      ensures quit == Dispatch(old(View()), ev, now).quit
    {
      quit := false;
      if ev.Key? {
        var key := ev.key;
        match inputMode {
          case Normal =>
            if key.code == Char('q') && key.modifiers == {Control} {
              quit := true;
            } else if key.code == Char('e') {
              inputMode := Editing;
            } else if key.code == Char(' ') {
              startTime := now;
              runningTimer := true;
            }
          case Editing =>
            match key.code {
              case Esc =>
                inputMode := Normal;
              case Char(c) =>
                timerValue := timerValue + [c];
              case Backspace =>
                if timerValue != [] {
                  timerValue := timerValue[..|timerValue| - 1];
                }
              case Enter =>
                var seconds: nat;
                match ParseU32(timerValue) {
                  case Some(v) => seconds := v;
                  case None => seconds := FallbackSeconds;
                }
                waitTime := seconds;
                inputMode := Normal;
              case _ =>
            }
        }
      }
    }

    /**
     * One pass of the countdown loop at clock reading `now`: the whole
     * seconds elapsed, their decimal text for the display, and whether the
     * countdown is over, in which case the running flag is cleared.
     */
    method Tick(now: nat) returns (elapsed: nat, timeString: string, done: bool)
      requires Valid()
      modifies this`runningTimer
      ensures Valid()
      ensures elapsed == ElapsedSeconds(startTime, now)
      ensures timeString == Decimal(elapsed)
      ensures done <==> Completed(startTime, waitTime, now)
      ensures View() == TickState(old(View()), now)
    {
      elapsed := ElapsedSeconds(startTime, now);
      timeString := Decimal(elapsed);
      done := elapsed >= waitTime;
      if done {
        runningTimer := false;
      }
    }

    /**
     * The countdown loop over successive clock readings: it runs a pass per
     * reading and leaves at the first pass that completes the countdown.
     */
    method RunCountdown(readings: seq<nat>) returns (passes: nat)
      requires Valid() && runningTimer
      modifies this`runningTimer
      ensures Valid()
      ensures (View(), passes) == Countdown(old(View()), readings)
    {
      passes := 0;
      while passes < |readings|
        invariant passes <= |readings|
        invariant View() == old(View())
        invariant Countdown(old(View()), readings) ==
                    (Countdown(View(), readings[passes..]).0, Countdown(View(), readings[passes..]).1 + passes)
        decreases |readings| - passes
      {
        var _, _, done := Tick(readings[passes]);
        passes := passes + 1;
        if done {
          return;
        }
      }
    }

    /**
     * The control loop over rounds: run the countdown while the timer is
     * running, then read and dispatch the round's event; leave on the quit
     * key, or while still inside a countdown whose readings ran out.
     */
    method Run(rounds: seq<Round>) returns (quit: bool)
      requires Valid()
      modifies this
      ensures Valid()
      ensures (View(), quit) == Session(old(View()), rounds)
    {
      quit := false;
      var i := 0;
      while i < |rounds|
        invariant i <= |rounds|
        invariant Valid() && !quit
        invariant Session(old(View()), rounds) == Session(View(), rounds[i..])
        decreases |rounds| - i
      {
        assert rounds[i..][0] == rounds[i] && rounds[i..][1..] == rounds[i + 1..];
        if runningTimer {
          var _ := RunCountdown(rounds[i].readings);
          if runningTimer {
            return;
          }
        }
        quit := HandleEvent(rounds[i].event, rounds[i].now);
        if quit {
          return;
        }
        i := i + 1;
      }
    }
  }
}
