/** The three-button state machine: the display modes and their cycling, the
    debounced short press of handleButtons, and the one-shot long press of
    checkLongPress. Each is a step function from the button's saved state, the
    pin level read in this poll and the millisecond timer to the next state and
    whether the action fires; runs over a sequence of polls state what the
    state machine promises across a whole hold. */
module Buttons {
  import opened Machine

  /** The display modes, in enum order; MODE_COUNT is 9. */
  const MODE_COUNT: nat := 9
  type Mode = m: int | 0 <= m < MODE_COUNT

  const MODE_FLOW_RATE: Mode := 0
  const MODE_SESSION: Mode := 1
  const MODE_TODAY: Mode := 2
  const MODE_THIS_MONTH: Mode := 3
  const MODE_LAST_MONTH: Mode := 4
  const MODE_TOTAL: Mode := 5
  const MODE_COST_TODAY: Mode := 6
  const MODE_COST_MONTH: Mode := 7
  const MODE_WEEKLY: Mode := 8

  /** A pin reading of DigitalIn: 0 while the button is held (the inputs are
      active low with pull-ups), 1 when it is released. */
  type Level = x: int | 0 <= x <= 1
  const PRESSED: Level := 0
  const RELEASED: Level := 1

  const DEBOUNCE_MS: nat := 200
  const LONG_PRESS_MS: nat := 3000

  /** One poll: the pin level and the debounce timer's millisecond reading. */
  datatype Poll = Poll(level: Level, time: u32)

  predicate Held(polls: seq<Poll>)
  {
    forall k | 0 <= k < |polls| :: polls[k].level == PRESSED
  }

  // ---------------------------------------------------------------------
  // Mode cycling
  // ---------------------------------------------------------------------

  /** `(currentMode + 1) % MODE_COUNT`: the next mode, wrapping from the
      weekly history back to the flow rate. */
  function NextMode(m: Mode): (r: Mode)
    ensures m < MODE_WEEKLY ==> r == m + 1
    ensures m == MODE_WEEKLY ==> r == MODE_FLOW_RATE
  {
    (m + 1) % MODE_COUNT
  }

  // ---------------------------------------------------------------------
  // Debounced short press (handleButtons)
  // ---------------------------------------------------------------------

  /** lastBtnN and btnNWasPressed. */
  datatype Debounce = Debounce(last: u32, wasPressed: bool)

  /** A press is accepted when the pin reads 0, the latch is clear, and more
      than 200 ms have passed since the last accepted press. */
  predicate Accepts(d: Debounce, level: Level, now: u32)
  {
    level == PRESSED && !d.wasPressed && Elapsed(now, d.last) > DEBOUNCE_MS
  }

  /** Acceptance latches the press and its time; a reading of 1 clears the
      latch; anything else leaves the state as it is. */
  function DebounceNext(d: Debounce, level: Level, now: u32): Debounce
  {
    if Accepts(d, level, now) then Debounce(now, true)
    else if level == RELEASED then d.(wasPressed := false)
    else d
  }

  function DebounceRun(d: Debounce, polls: seq<Poll>): Debounce
    decreases |polls|
  {
    if polls == [] then d else DebounceRun(DebounceNext(d, polls[0].level, polls[0].time), polls[1..])
  }

  /** The number of presses accepted over the polls. */
  function AcceptCount(d: Debounce, polls: seq<Poll>): nat
    decreases |polls|
  {
    if polls == [] then 0
    else (if Accepts(d, polls[0].level, polls[0].time) then 1 else 0)
         + AcceptCount(DebounceNext(d, polls[0].level, polls[0].time), polls[1..])
  }

  /** The display mode after button 1 is polled: each accepted press cycles. */
  function ModeAfter(m: Mode, d: Debounce, polls: seq<Poll>): Mode
    decreases |polls|
  {
    if polls == [] then m
    else
      var p := polls[0];
      ModeAfter(if Accepts(d, p.level, p.time) then NextMode(m) else m,
                DebounceNext(d, p.level, p.time), polls[1..])
  }

  /** N accepted presses of the mode button take mode k to (k + N) mod 9. */
  lemma {:induction false} ModeAfterPolls(m: Mode, d: Debounce, polls: seq<Poll>)
    ensures ModeAfter(m, d, polls) == (m + AcceptCount(d, polls)) % MODE_COUNT
    decreases |polls|
  {
    if polls != [] {
      var p := polls[0];
      var a := Accepts(d, p.level, p.time);
      var m1 := if a then NextMode(m) else m;
      var d1 := DebounceNext(d, p.level, p.time);
      ModeAfterPolls(m1, d1, polls[1..]);
      var n := AcceptCount(d1, polls[1..]);
      if a {
        assert (m1 + n) % MODE_COUNT == (m + 1 + n) % MODE_COUNT;
      }
    }
  }

  /** While a button stays held, at most one press is accepted, and none at
      all if the press was already latched: a short press fires once per hold. */
  lemma {:induction false} HeldAcceptsAtMostOnce(d: Debounce, polls: seq<Poll>)
    requires Held(polls)
    ensures AcceptCount(d, polls) <= 1
    ensures d.wasPressed ==> AcceptCount(d, polls) == 0
    decreases |polls|
  {
    if polls != [] {
      var p := polls[0];
      var d1 := DebounceNext(d, p.level, p.time);
      assert Held(polls[1..]) by {
        forall k | 0 <= k < |polls| - 1 ensures polls[1..][k].level == PRESSED {
          assert polls[1..][k] == polls[k + 1];
        }
      }
      HeldAcceptsAtMostOnce(d1, polls[1..]);
      assert Accepts(d, p.level, p.time) ==> d1.wasPressed;
      assert d.wasPressed ==> d1.wasPressed;
    }
  }

  /** No press is accepted within 200 ms of the last accepted one, however
      the pin moves in between. */
  lemma {:induction false} DebounceWindow(d: Debounce, polls: seq<Poll>)
    requires forall k | 0 <= k < |polls| :: Elapsed(polls[k].time, d.last) <= DEBOUNCE_MS
    ensures AcceptCount(d, polls) == 0
    ensures DebounceRun(d, polls).last == d.last
    decreases |polls|
  {
    if polls != [] {
      var d1 := DebounceNext(d, polls[0].level, polls[0].time);
      assert d1.last == d.last;
      forall k | 0 <= k < |polls| - 1 ensures Elapsed(polls[1..][k].time, d1.last) <= DEBOUNCE_MS {
        assert polls[1..][k] == polls[k + 1];
      }
      DebounceWindow(d1, polls[1..]);
    }
  }

  // ---------------------------------------------------------------------
  // One-shot long press (checkLongPress)
  // ---------------------------------------------------------------------

  /** btnNPressStart and btnNLongHandled. */
  datatype LongPress = LongPress(start: u32, handled: bool)

  const LONG_RELEASED: LongPress := LongPress(0, false)

  /** The long-press action fires when the pin reads 0, a start time is
      latched, the action has not fired in this hold, and more than 3000 ms
      have passed since the start. */
  predicate LongFires(lp: LongPress, level: Level, now: u32)
  {
    level == PRESSED && lp.start != 0 && !lp.handled && Elapsed(now, lp.start) > LONG_PRESS_MS
  }

  /** While held, the first poll latches the start time (a start of 0 counts
      as "not latched"), and firing sets the one-shot latch; a release clears
      both. */
  function LongPressNext(lp: LongPress, level: Level, now: u32): LongPress
  {
    if level != PRESSED then LONG_RELEASED
    else if lp.start == 0 then lp.(start := now)
    else if LongFires(lp, level, now) then lp.(handled := true)
    else lp
  }

  /** The number of times the long-press action fires over the polls. */
  function LongFireCount(lp: LongPress, polls: seq<Poll>): nat
    decreases |polls|
  {
    if polls == [] then 0
    else (if LongFires(lp, polls[0].level, polls[0].time) then 1 else 0)
         + LongFireCount(LongPressNext(lp, polls[0].level, polls[0].time), polls[1..])
  }

  /** Whatever the state, a continuous hold fires the long-press action at
      most once, and not at all once it has fired. */
  lemma {:induction false} LongPressAtMostOncePerHold(lp: LongPress, polls: seq<Poll>)
    requires Held(polls)
    ensures LongFireCount(lp, polls) <= 1
    ensures lp.handled ==> LongFireCount(lp, polls) == 0
    decreases |polls|
  {
    if polls != [] {
      var p := polls[0];
      var lp1 := LongPressNext(lp, p.level, p.time);
      assert Held(polls[1..]) by {
        forall k | 0 <= k < |polls| - 1 ensures polls[1..][k].level == PRESSED {
          assert polls[1..][k] == polls[k + 1];
        }
      }
      LongPressAtMostOncePerHold(lp1, polls[1..]);
      assert LongFires(lp, p.level, p.time) ==> lp1.handled;
      assert lp.handled ==> lp1.handled;
    }
  }

  /** Some poll of the sequence comes more than 3000 ms after `start`. */
  predicate ReachesThreshold(start: u32, polls: seq<Poll>)
  {
    exists k | 0 <= k < |polls| :: Elapsed(polls[k].time, start) > LONG_PRESS_MS
  }

  /** Once a hold's start time is latched (and is not 0), the long-press
      action fires exactly once if the hold lasts past 3000 ms and never
      otherwise. */
  lemma {:induction false} LongPressFiresIffHeldLongEnough(start: u32, polls: seq<Poll>)
    requires start != 0 && Held(polls)
    ensures LongFireCount(LongPress(start, false), polls) == if ReachesThreshold(start, polls) then 1 else 0
    decreases |polls|
  {
    if polls != [] {
      var lp := LongPress(start, false);
      var p := polls[0];
      var rest := polls[1..];
      assert Held(rest) by {
        forall k | 0 <= k < |rest| ensures rest[k].level == PRESSED {
          assert rest[k] == polls[k + 1];
        }
      }
      if Elapsed(p.time, start) > LONG_PRESS_MS {
        assert ReachesThreshold(start, polls) by { assert Elapsed(polls[0].time, start) > LONG_PRESS_MS; }
        LongPressAtMostOncePerHold(LongPress(start, true), rest);
      } else {
        assert LongPressNext(lp, p.level, p.time) == lp;
        LongPressFiresIffHeldLongEnough(start, rest);
        if ReachesThreshold(start, polls) {
          var k :| 0 <= k < |polls| && Elapsed(polls[k].time, start) > LONG_PRESS_MS;
          assert k > 0 && rest[k - 1] == polls[k];
          assert ReachesThreshold(start, rest);
        }
        if ReachesThreshold(start, rest) {
          var k :| 0 <= k < |rest| && Elapsed(rest[k].time, start) > LONG_PRESS_MS;
          assert polls[k + 1] == rest[k];
        }
      }
    }
  }

  /** Holding the reset button from t = 100 ms polls past 3100 ms: today's
      counter is reset exactly once. */
  lemma ResetTodayFiresOnce()
    ensures LongFireCount(LONG_RELEASED,
      [Poll(PRESSED, 100), Poll(PRESSED, 1600), Poll(PRESSED, 3101), Poll(PRESSED, 3150), Poll(PRESSED, 5000)]) == 1
  {
    var polls := [Poll(PRESSED, 100), Poll(PRESSED, 1600), Poll(PRESSED, 3101), Poll(PRESSED, 3150), Poll(PRESSED, 5000)];
    var rest := polls[1..];
    assert LongPressNext(LONG_RELEASED, PRESSED, 100) == LongPress(100, false);
    assert Elapsed(3101, 100) > LONG_PRESS_MS;
    assert ReachesThreshold(100, rest) by { assert rest[1].time == 3101; }
    assert Held(rest);
    LongPressFiresIffHeldLongEnough(100, rest);
  }

  /** A release always re-arms the long press. */
  lemma ReleaseRearms(lp: LongPress, now: u32)
    ensures LongPressNext(lp, RELEASED, now) == LONG_RELEASED
    ensures !LongFires(lp, RELEASED, now)
  {
  }

  /** A hold whose first poll reads the timer at 0 latches a start of 0,
      which counts as "not latched": the start is taken again next poll. */
  lemma StartAtZeroRelatches(handled: bool)
    ensures LongPressNext(LongPress(0, handled), PRESSED, 0) == LongPress(0, handled)
    ensures !LongFires(LongPress(0, handled), PRESSED, 0)
  {
  }
}
