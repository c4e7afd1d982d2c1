/**
 * The timer's control core as values: the application state, the key events
 * it reacts to, the key dispatch of the two input modes, one countdown step,
 * the countdown loop and the whole control loop over a sequence of rounds.
 * The class `App.AppState` runs the same steps in place.
 */
module Control {
  import opened DurationParse
  import opened Clock

  datatype InputMode = Normal | Editing

  /** The modifier flags of a key event (a set of flags, compared as a whole). */
  datatype Modifier = Shift | Control | Alt

  /** The key codes a terminal key event can carry. */
  datatype KeyCode =
    | Backspace | Enter | Left | Right | Up | Down | Home | End
    | PageUp | PageDown | Tab | BackTab | Delete | Insert
    | F(n: nat) | Char(c: char) | Null | Esc

  datatype KeyEvent = KeyEvent(code: KeyCode, modifiers: set<Modifier>)

  /** A terminal event: only key events are acted upon. */
  datatype Event = Key(key: KeyEvent) | Mouse | Resize(columns: nat, rows: nat)

  /**
   * The application state without its sound resource: whether a countdown
   * runs, the edit buffer, the start reading, the wait time in whole
   * seconds and the input mode.
   */
  datatype State = State(
    running: bool,
    timerValue: string,
    startTime: nat,
    waitTime: nat,
    mode: InputMode)

  /** The state after an event, and whether the event ends the program. */
  datatype Outcome = Outcome(next: State, quit: bool)

  /** The state the program starts in, with the clock reading at start-up. */
  function Initial(now: nat): (s: State)
    ensures WithinRange(s) && !s.running
  {
    State(false, "60", now, 60, Normal)
  }

  /** The wait time fits the u32 the duration was parsed as. */
  predicate WithinRange(s: State) {
    s.waitTime <= U32Max
  }

  predicate IsQuitKey(key: KeyEvent) {
    key.code == Char('q') && key.modifiers == {Control}
  }

  /** `String::pop`: drop the last character, if there is one. */
  function DropLast(s: string): (r: string)
    ensures s == [] ==> r == []
    ensures s != [] ==> r + [s[|s| - 1]] == s
  {
    if s == [] then [] else s[..|s| - 1]
  }

  /** One event read by the control loop, at clock reading `now`. */
  function Dispatch(s: State, ev: Event, now: nat): (o: Outcome)
    ensures o.quit <==> s.mode == Normal && ev.Key? && IsQuitKey(ev.key)
    ensures o.quit ==> o.next == s
    ensures WithinRange(s) ==> WithinRange(o.next)
    ensures o.next.running != s.running ==> o.next.running && o.next.startTime == now
  {
    match ev
    case Key(key) =>
      (match s.mode
       case Normal =>
         if IsQuitKey(key) then Outcome(s, true)
         else if key.code == Char('e') then Outcome(s.(mode := Editing), false)
         else if key.code == Char(' ') then Outcome(s.(startTime := now, running := true), false)
         else Outcome(s, false)
       case Editing =>
         (match key.code
          case Esc => Outcome(s.(mode := Normal), false)
          case Char(c) => Outcome(s.(timerValue := s.timerValue + [c]), false)
          case Backspace => Outcome(s.(timerValue := DropLast(s.timerValue)), false)
          case Enter => Outcome(s.(waitTime := ParseU32OrDefault(s.timerValue), mode := Normal), false)
          case _ => Outcome(s, false)))
    case _ => Outcome(s, false)
  }

  /** One pass of the countdown loop at clock reading `now`: stop once completed. */
  function TickState(s: State, now: nat): (r: State)
    ensures r == s.(running := r.running)
    ensures r.running <==> s.running && !Completed(s.startTime, s.waitTime, now)
  {
    if Completed(s.startTime, s.waitTime, now) then s.(running := false) else s
  }

  /**
   * The countdown loop over successive clock readings: the state it leaves
   * and the number of readings it consumed.
   */
  function Countdown(s: State, readings: seq<nat>): (r: (State, nat))
    ensures r.1 <= |readings|
    ensures r.0 == s.(running := r.0.running) && (r.0.running ==> s.running)
    decreases |readings|
  {
    if readings == [] then (s, 0)
    else if Completed(s.startTime, s.waitTime, readings[0]) then (s.(running := false), 1)
    else
      var rest := Countdown(s, readings[1..]);
      (rest.0, rest.1 + 1)
  }

  /**
   * One round of the control loop: the clock readings the countdown loop
   * samples (used only when a countdown runs), then the event read and the
   * clock reading at which it is dispatched.
   */
  datatype Round = Round(readings: seq<nat>, event: Event, now: nat)

  /**
   * The control loop over rounds: the final state and whether it ended by a
   * quit key. A countdown whose readings run out before it completes keeps
   * the loop inside the countdown, so no later event is read.
   */
  function Session(s: State, rounds: seq<Round>): (r: (State, bool))
    ensures r.1 ==> !r.0.running
    decreases |rounds|
  {
    if rounds == [] then (s, false)
    else
      var counted := if s.running then Countdown(s, rounds[0].readings).0 else s;
      if counted.running then (counted, false)
      else
        var o := Dispatch(counted, rounds[0].event, rounds[0].now);
        if o.quit then (o.next, true) else Session(o.next, rounds[1..])
  }

  // ----- Key dispatch -----

  /** The initial state: not running, buffer "60", 60 seconds, normal mode. */
  lemma InitialState(now: nat)
    ensures var s := Initial(now);
      !s.running && s.timerValue == "60" && s.waitTime == 60 && s.mode == Normal
      && s.startTime == now && WithinRange(s)
  {
  }

  /** Only key events change anything; mouse and resize events leave the state as it is. */
  lemma NonKeyEventIgnored(s: State, ev: Event, now: nat)
    requires !ev.Key?
    ensures Dispatch(s, ev, now) == Outcome(s, false)
  {
  }

  /** Exactly Ctrl+Q in normal mode ends the program, and it changes nothing on the way. */
  lemma QuitOnlyByCtrlQ(s: State, ev: Event, now: nat)
    ensures Dispatch(s, ev, now).quit <==> s.mode == Normal && ev.Key? && IsQuitKey(ev.key)
    ensures Dispatch(s, ev, now).quit ==> Dispatch(s, ev, now).next == s
  {
  }

  /** 'e' with any modifiers enters editing mode; nothing else changes. */
  lemma NormalEditKey(s: State, mods: set<Modifier>, now: nat)
    requires s.mode == Normal
    ensures Dispatch(s, Key(KeyEvent(Char('e'), mods)), now) == Outcome(s.(mode := Editing), false)
  {
  }

  /** Space with any modifiers starts the countdown at `now`; the duration, buffer and mode are untouched. */
  lemma NormalStartKey(s: State, mods: set<Modifier>, now: nat)
    requires s.mode == Normal
    ensures var o := Dispatch(s, Key(KeyEvent(Char(' '), mods)), now);
      !o.quit && o.next.running && o.next.startTime == now
      && o.next.waitTime == s.waitTime && o.next.timerValue == s.timerValue && o.next.mode == Normal
  {
  }

  /** In normal mode Escape, a plain 'q' and every other unmatched key are ignored. */
  lemma NormalOtherKeysIgnored(s: State, key: KeyEvent, now: nat)
    requires s.mode == Normal
    requires !IsQuitKey(key) && key.code != Char('e') && key.code != Char(' ')
    ensures Dispatch(s, Key(key), now) == Outcome(s, false)
  {
  }

  /** Escape in normal mode is idempotent: dispatching it again changes nothing. */
  lemma NormalEscapeIdempotent(s: State, mods: set<Modifier>, now: nat)
    requires s.mode == Normal
    ensures Dispatch(s, Key(KeyEvent(Esc, mods)), now) == Outcome(s, false)
  {
  }

  /** Escape in editing mode returns to normal mode and keeps the buffer. */
  lemma EditingEscape(s: State, mods: set<Modifier>, now: nat)
    requires s.mode == Editing
    ensures Dispatch(s, Key(KeyEvent(Esc, mods)), now) == Outcome(s.(mode := Normal), false)
  {
  }

  /**
   * In editing mode a character with any modifiers, Ctrl+Q included, is
   * appended to the buffer; mode, duration, running flag and start stay.
   */
  lemma EditingCharAppends(s: State, c: char, mods: set<Modifier>, now: nat)
    requires s.mode == Editing
    ensures var o := Dispatch(s, Key(KeyEvent(Char(c), mods)), now);
      !o.quit && o.next.timerValue == s.timerValue + [c]
      && o.next == s.(timerValue := o.next.timerValue)
  {
  }

  /** Backspace in editing mode drops the last character, and on an empty buffer does nothing. */
  lemma EditingBackspace(s: State, mods: set<Modifier>, now: nat)
    requires s.mode == Editing
    ensures var o := Dispatch(s, Key(KeyEvent(Backspace, mods)), now);
      !o.quit && o.next == s.(timerValue := o.next.timerValue)
      && (s.timerValue == [] ==> o.next == s)
      && (s.timerValue != [] ==> o.next.timerValue + [s.timerValue[|s.timerValue| - 1]] == s.timerValue)
  {
  }

  /**
   * Enter in editing mode commits the buffer: its value when it is a u32
   * literal, otherwise 60 seconds. The mode returns to normal; buffer,
   * running flag and start are left as they were.
   */
  lemma EditingEnterCommits(s: State, mods: set<Modifier>, now: nat)
    requires s.mode == Editing
    ensures var o := Dispatch(s, Key(KeyEvent(Enter, mods)), now);
      !o.quit && o.next.mode == Normal
      && o.next.timerValue == s.timerValue && o.next.running == s.running
      && o.next.startTime == s.startTime
      && (IsU32Literal(s.timerValue) ==> o.next.waitTime == Value(Digits(s.timerValue)))
      && (!IsU32Literal(s.timerValue) ==> o.next.waitTime == FallbackSeconds)
  {
  }

  /** In editing mode a key other than Escape, a character, Backspace or Enter is ignored. */
  lemma EditingOtherKeysIgnored(s: State, key: KeyEvent, now: nat)
    requires s.mode == Editing
    requires !key.code.Esc? && !key.code.Char? && !key.code.Backspace? && !key.code.Enter?
    ensures Dispatch(s, Key(key), now) == Outcome(s, false)
  {
  }

  /** No event takes the wait time out of the u32 range. */
  lemma DispatchWithinRange(s: State, ev: Event, now: nat)
    requires WithinRange(s)
    ensures WithinRange(Dispatch(s, ev, now).next)
  {
  }

  // ----- Countdown -----

  /**
   * The countdown loop stops at the first reading at which the countdown is
   * over, clearing the running flag and changing nothing else; if no
   * reading completes it, all readings are consumed and the state is kept.
   */
  lemma {:induction false} CountdownStopsAtFirstCompletion(s: State, readings: seq<nat>)
    ensures Countdown(s, readings).1 <= |readings|
    ensures forall j :: 0 <= j < Countdown(s, readings).1 - 1 ==>
              !Completed(s.startTime, s.waitTime, readings[j])
    ensures (exists j :: 0 <= j < |readings| && Completed(s.startTime, s.waitTime, readings[j])) ==>
              Countdown(s, readings).1 > 0
              && Completed(s.startTime, s.waitTime, readings[Countdown(s, readings).1 - 1])
              && Countdown(s, readings).0 == s.(running := false)
    ensures (forall j :: 0 <= j < |readings| ==> !Completed(s.startTime, s.waitTime, readings[j])) ==>
              Countdown(s, readings) == (s, |readings|)
    decreases |readings|
  {
    if readings != [] && !Completed(s.startTime, s.waitTime, readings[0]) {
      var tail := readings[1..];
      CountdownStopsAtFirstCompletion(s, tail);
      assert forall j :: 0 < j < |readings| ==> readings[j] == tail[j - 1];
      if exists j :: 0 <= j < |readings| && Completed(s.startTime, s.waitTime, readings[j]) {
        var j :| 0 <= j < |readings| && Completed(s.startTime, s.waitTime, readings[j]);
        assert Completed(s.startTime, s.waitTime, tail[j - 1]);
      }
    }
  }

  /** A running countdown whose wait time is zero stops at its first reading. */
  lemma ZeroWaitStopsAtOnce(s: State, readings: seq<nat>)
    requires s.running && s.waitTime == 0 && |readings| > 0
    ensures Countdown(s, readings) == (s.(running := false), 1)
  {
  }

  /** A countdown step before `start + waitTime` seconds keeps the timer running. */
  lemma TickBeforeDeadlineKeepsRunning(s: State, now: nat)
    requires s.running && s.waitTime > 0 && now < s.startTime + s.waitTime * NanosPerSecond
    ensures TickState(s, now) == s
  {
    CompletedIff(s.startTime, s.waitTime, now);
  }

  /** A countdown step at or after `start + waitTime` seconds stops the timer and changes nothing else. */
  lemma TickAtDeadlineStops(s: State, now: nat)
    requires now >= s.startTime + s.waitTime * NanosPerSecond
    ensures TickState(s, now) == s.(running := false)
  {
    CompletedIff(s.startTime, s.waitTime, now);
  }

  // ----- Control loop -----

  /**
   * A running timer cannot be cancelled: while the countdown has not
   * completed, the event of the round is never dispatched.
   */
  lemma NoEventDuringCountdown(s: State, rounds: seq<Round>)
    requires s.running && |rounds| > 0
    requires forall j :: 0 <= j < |rounds[0].readings| ==>
               !Completed(s.startTime, s.waitTime, rounds[0].readings[j])
    ensures Session(s, rounds) == (s, false)
  {
    CountdownStopsAtFirstCompletion(s, rounds[0].readings);
  }

  /** The control loop keeps the wait time within the u32 range. */
  lemma {:induction false} SessionWithinRange(s: State, rounds: seq<Round>)
    requires WithinRange(s)
    ensures WithinRange(Session(s, rounds).0)
    decreases |rounds|
  {
    if rounds != [] {
      var counted := if s.running then Countdown(s, rounds[0].readings).0 else s;
      if s.running {
        CountdownStopsAtFirstCompletion(s, rounds[0].readings);
      }
      if !counted.running {
        var o := Dispatch(counted, rounds[0].event, rounds[0].now);
        DispatchWithinRange(counted, rounds[0].event, rounds[0].now);
        if !o.quit {
          SessionWithinRange(o.next, rounds[1..]);
        }
      }
    }
  }

  /** A session that ends by quitting ends in normal mode: the quit key is ignored while editing. */
  lemma {:induction false} QuitEndsInNormalMode(s: State, rounds: seq<Round>)
    requires Session(s, rounds).1
    ensures Session(s, rounds).0.mode == Normal
    ensures !Session(s, rounds).0.running
    decreases |rounds|
  {
    var counted := if s.running then Countdown(s, rounds[0].readings).0 else s;
    if s.running {
      CountdownStopsAtFirstCompletion(s, rounds[0].readings);
    }
    var o := Dispatch(counted, rounds[0].event, rounds[0].now);
    if o.quit {
      QuitOnlyByCtrlQ(counted, rounds[0].event, rounds[0].now);
    } else {
      QuitEndsInNormalMode(o.next, rounds[1..]);
    }
  }

  // ----- Scenarios -----

  /**
   * From the initial state, 'e', '9', '0', Enter appends to the initial
   * buffer "60", so the committed duration is 6090 seconds, not 90.
   */
  lemma TypingAppendsToInitialBuffer(t0: nat)
    ensures var s1 := Dispatch(Initial(t0), Key(KeyEvent(Char('e'), {})), t0).next;
      var s2 := Dispatch(s1, Key(KeyEvent(Char('9'), {})), t0).next;
      var s3 := Dispatch(s2, Key(KeyEvent(Char('0'), {})), t0).next;
      var s4 := Dispatch(s3, Key(KeyEvent(Enter, {})), t0).next;
      s3.timerValue == "6090" && s4.waitTime == 6090 && s4.mode == Normal && !s4.running
  {
    var s1 := Dispatch(Initial(t0), Key(KeyEvent(Char('e'), {})), t0).next;
    assert s1 == Initial(t0).(mode := Editing);
    var s2 := Dispatch(s1, Key(KeyEvent(Char('9'), {})), t0).next;
    assert s2 == s1.(timerValue := "609");
    var s3 := Dispatch(s2, Key(KeyEvent(Char('0'), {})), t0).next;
    assert s3 == s1.(timerValue := "6090");
    assert Decimal(6) == "6" && Decimal(60) == "60" && Decimal(609) == "609";
    assert Decimal(6090) == "6090";
    ParseDecimal(6090);
    EditingEnterCommits(s3, {}, t0);
  }

  /**
   * Space in normal mode starts a countdown that is over exactly `waitTime`
   * seconds after `now`, and not one nanosecond earlier.
   */
  lemma StartedCountdownEndsOnTime(s: State, now: nat)
    requires s.mode == Normal && s.waitTime > 0
    ensures var started := Dispatch(s, Key(KeyEvent(Char(' '), {})), now).next;
      started.running && started.startTime == now
      && TickState(started, now + s.waitTime * NanosPerSecond) == started.(running := false)
      && TickState(started, now + s.waitTime * NanosPerSecond - 1) == started
  {
    var started := Dispatch(s, Key(KeyEvent(Char(' '), {})), now).next;
    assert started == s.(startTime := now, running := true);
    TickAtDeadlineStops(started, now + s.waitTime * NanosPerSecond);
    TickBeforeDeadlineKeepsRunning(started, now + s.waitTime * NanosPerSecond - 1);
  }

  /** Buffer "7", Backspace, Enter: the empty buffer commits 60 seconds, not zero. */
  lemma BackspaceToEmptyThenEnter(s: State, now: nat)
    requires s.mode == Editing && s.timerValue == "7"
    ensures var s1 := Dispatch(s, Key(KeyEvent(Backspace, {})), now).next;
      var s2 := Dispatch(s1, Key(KeyEvent(Enter, {})), now).next;
      s1.timerValue == "" && s2.waitTime == 60 && s2.mode == Normal
  {
    EmptyFallsBack();
  }
}
