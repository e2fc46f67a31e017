/** The water-meter controller: the EEPROM, the globals and the
    function-static variables of main.cpp gathered in one object, with one
    method per routine of the control loop. Timer readings and the clock's
    date are parameters; so are the pin levels, one sample per pin per call.
    Each method states its effect on the EEPROM bytes through the images of
    the Accounting module and its effect on the decoded ledger. */
module Meter {
  import opened Machine
  import opened Layout
  import opened Accounting
  import opened Buttons

  const FLOW_INTERVAL_MS: nat := 1000
  const SAVE_INTERVAL_S: nat := 60
  const DISPLAY_INTERVAL_MS: nat := 2000
  const WEEK_DAYS: nat := 7

  /** The clock's reading, already converted from BCD. */
  datatype DateTime = DateTime(
    second: byte, minute: byte, hour: byte, dayOfWeek: byte, day: byte, month: byte, year: u16)

  datatype Option<T> = None | Some(value: T)

  /** What one redraw shows below the date line, per display mode. Values the
      source computes in floating point are represented by their inputs: the
      session volume by its pulse count, a cost by the liters and the stored
      cost-per-liter bit pattern; the flow rate is not represented. */
  datatype Screen =
    | FlowRateScreen
    | SessionScreen(sessionPulses: nat)
    | TodayScreen(liters: u32)
    | ThisMonthScreen(liters: u32)
    | LastMonthScreen(liters: u32)
    | TotalScreen(liters: u32)
    | CostTodayScreen(liters: u32, costBits: u32)
    | CostMonthScreen(liters: u32, costBits: u32)
    | WeeklyScreen(days: seq<u32>)

  /** The seven log slots the weekly history walks through, entry `i` being
      slot `(day - i - 1 + 30) % 30`. */
  function WeeklyDays(mem: Memory, day: byte): seq<u32>
  {
    seq(WEEK_DAYS, i requires 0 <= i < WEEK_DAYS => LogSlot(mem, WeeklyIndex(day, i)))
  }

  /** The weekly history shows the ledger's log: entry `i` is slot
      `(day - i - 1) mod 30`, which for i < day is the slot into which the
      commit archives calendar day `day - i`. */
  lemma WeeklyShowsLog(mem: Memory, day: byte)
    ensures |WeeklyDays(mem, day)| == WEEK_DAYS
    ensures forall i | 0 <= i < WEEK_DAYS ::
      WeeklyDays(mem, day)[i] == Decode(mem).log[(day - i - 1) % LOG_SLOTS]
    ensures forall i | 0 <= i < WEEK_DAYS && i < day ::
      WeeklyDays(mem, day)[i] == Decode(mem).log[LogIndex(day - i)]
  {
    forall i | 0 <= i < WEEK_DAYS && i < day
      ensures WeeklyDays(mem, day)[i] == Decode(mem).log[LogIndex(day - i)]
    {
      WeeklyIndexIsLogIndex(day, i);
    }
  }

  /** The screen of each display mode, from the persisted bytes. */
  function ScreenFor(mode: Mode, mem: Memory, sessionPulses: nat, day: byte): Screen
  {
    var l := Decode(mem);
    if mode == MODE_FLOW_RATE then FlowRateScreen
    else if mode == MODE_SESSION then SessionScreen(sessionPulses)
    else if mode == MODE_TODAY then TodayScreen(l.currentDay)
    else if mode == MODE_THIS_MONTH then ThisMonthScreen(l.currentMonth)
    else if mode == MODE_LAST_MONTH then LastMonthScreen(l.previousMonth)
    else if mode == MODE_TOTAL then TotalScreen(l.totalLiters)
    else if mode == MODE_COST_TODAY then CostTodayScreen(l.currentDay, LoadU32(mem, ADDR_COST_PER_LITER))
    else if mode == MODE_COST_MONTH then CostMonthScreen(l.currentMonth, LoadU32(mem, ADDR_COST_PER_LITER))
    else WeeklyScreen(WeeklyDays(mem, day))
  }

  class Controller {
    /** The AT24C32 EEPROM. */
    var eeprom: array<byte>

    // Globals
    var pulseCount: u32
    /** sessionVolume, kept exactly as the pulses it stands for. */
    var sessionPulses: nat
    var currentMode: Mode
    var displayNeedsUpdate: bool

    // Function-static variables
    var lastCheck: u32          // updateFlowMeasurements, milliseconds
    var lastSave: u32           // saveToEEPROM, seconds
    var lastDisplay: u32        // displayCurrentMode, milliseconds
    var button1: Debounce       // handleButtons: lastBtnN, btnNWasPressed
    var button2: Debounce
    var button3: Debounce
    var button2Long: LongPress  // checkLongPress: btnNPressStart, btnNLongHandled
    var button3Long: LongPress

    ghost predicate Valid()
      reads this
    {
      eeprom.Length == EEPROM_SIZE
    }

    /** The ledger the EEPROM holds. */
    ghost function Persisted(): Ledger
      reads this, eeprom
      requires Valid()
    {
      Decode(eeprom[..])
    }

    /** The state at power-up, over the EEPROM content left from before. */
    constructor (persisted: Memory)
      ensures Valid() && fresh(eeprom) && eeprom[..] == persisted
      ensures pulseCount == 0 && sessionPulses == 0 && currentMode == MODE_FLOW_RATE
      ensures displayNeedsUpdate
      ensures lastCheck == 0 && lastSave == 0 && lastDisplay == 0
      ensures button1 == Debounce(0, false) && button2 == Debounce(0, false) && button3 == Debounce(0, false)
      ensures button2Long == LONG_RELEASED && button3Long == LONG_RELEASED
    {
      eeprom := new byte[EEPROM_SIZE](i requires 0 <= i < EEPROM_SIZE => persisted[i]);
      pulseCount, sessionPulses := 0, 0;
      currentMode := MODE_FLOW_RATE;
      displayNeedsUpdate := true;
      lastCheck, lastSave, lastDisplay := 0, 0, 0;
      button1, button2, button3 := Debounce(0, false), Debounce(0, false), Debounce(0, false);
      button2Long, button3Long := LONG_RELEASED, LONG_RELEASED;
    }

    /** flowPulseISR: one edge of the flow sensor. */
    method FlowPulse()
      modifies this`pulseCount
      ensures pulseCount == Wrap32(old(pulseCount) + 1)
    {
      pulseCount := Wrap32(pulseCount + 1);
    }

    /** updateFlowMeasurements: at most once per 1000 ms, drain the pulse
        counter into the session volume. */
    method UpdateFlowMeasurements(currentTime: u32)
      modifies this`pulseCount, this`sessionPulses, this`lastCheck, this`displayNeedsUpdate
      ensures Elapsed(currentTime, old(lastCheck)) >= FLOW_INTERVAL_MS ==>
        && pulseCount == 0
        && sessionPulses == old(sessionPulses) + old(pulseCount)
        && Volume(sessionPulses) == Volume(old(sessionPulses)) + old(pulseCount) as real / 450.0
        && lastCheck == currentTime
        && displayNeedsUpdate
      ensures Elapsed(currentTime, old(lastCheck)) < FLOW_INTERVAL_MS ==> unchanged(this)
    {
      if Elapsed(currentTime, lastCheck) >= FLOW_INTERVAL_MS {
        var pulses := pulseCount;
        pulseCount := 0;
        sessionPulses := sessionPulses + pulses;
        lastCheck := currentTime;
        displayNeedsUpdate := true;
        VolumeAdds(old(sessionPulses), pulses);
      }
    }

    // -------------------------------------------------------------------
    // EEPROM access
    // -------------------------------------------------------------------

    /** readEEPROM: the byte stored at `address`. */
    method ReadEEPROM(address: u16) returns (data: byte)
      requires Valid() && address < EEPROM_SIZE
      ensures data == eeprom[..][address]
    {
      data := eeprom[address];
    }

    /** writeEEPROM: store one byte. */
    method WriteEEPROM(address: u16, data: byte)
      requires Valid() && address < EEPROM_SIZE
      modifies eeprom
      ensures eeprom[..] == Store8(old(eeprom[..]), address, data)
    {
      eeprom[address] := data;
    }

    /** writeUnsignedLong: store the four bytes of `value`, lowest first. */
    method WriteUnsignedLong(address: u16, value: u32)
      requires Valid() && address + 4 <= EEPROM_SIZE
      modifies eeprom
      ensures eeprom[..] == StoreU32(old(eeprom[..]), address, value)
    {
      var i := 0;
      while i < 4
        invariant 0 <= i <= 4
        invariant forall k | 0 <= k < EEPROM_SIZE ::
          eeprom[k] == if address <= k < address + i then ByteOf(value, k - address) else old(eeprom[k])
      {
        WriteEEPROM(address + i, ByteOf(value, i));
        i := i + 1;
      }
      assert eeprom[..] == StoreU32(old(eeprom[..]), address, value);
    }

    /** readUnsignedLong: assemble the value from its four stored bytes. */
    method ReadUnsignedLong(address: u16) returns (value: u32)
      requires Valid() && address + 4 <= EEPROM_SIZE
      ensures value == LoadU32(eeprom[..], address)
    {
      var acc: nat := 0;
      var i := 0;
      while i < 4
        invariant 0 <= i <= 4
        invariant acc == PartialLoad(eeprom[..], address, i)
      {
        var b := ReadEEPROM(address + i);
        acc := acc + b * Weight(i);
        i := i + 1;
      }
      PartialLoadComplete(eeprom[..], address);
      value := acc;
    }

    // -------------------------------------------------------------------
    // Commit and rollover
    // -------------------------------------------------------------------

    /** saveToEEPROM: at most once per 60 s, fold the whole liters of the
        session into the persisted counters and apply the day and month
        rollovers against the clock's date. */
    method SaveToEEPROM(currentTime: u32, now: DateTime)
      requires Valid()
      modifies eeprom, this`sessionPulses, this`lastSave, this`displayNeedsUpdate
      ensures Elapsed(currentTime, old(lastSave)) >= SAVE_INTERVAL_S ==>
        && eeprom[..] == CommitImage(old(eeprom[..]), old(sessionPulses) / PULSES_PER_LITER, now.day, now.month)
        && Persisted() == Commit(old(Persisted()), old(sessionPulses) / PULSES_PER_LITER, now.day, now.month)
        && sessionPulses == old(sessionPulses) % PULSES_PER_LITER
        && Volume(sessionPulses) == Volume(old(sessionPulses)) - (old(sessionPulses) / PULSES_PER_LITER) as real
        && 0.0 <= Volume(sessionPulses) < 1.0
        && lastSave == currentTime
        && displayNeedsUpdate
      ensures Elapsed(currentTime, old(lastSave)) < SAVE_INTERVAL_S ==>
        unchanged(this) && unchanged(eeprom)
    {
      if Elapsed(currentTime, lastSave) >= SAVE_INTERVAL_S {
        CommitSessionLiters(now);
        lastSave := currentTime;
        displayNeedsUpdate := true;
        CommitImageDecode(old(eeprom[..]), old(sessionPulses) / PULSES_PER_LITER, now.day, now.month);
        CommitSplitsSession(old(sessionPulses));
      }
    }

    /** The body of saveToEEPROM past its 60 s gate: read the stored
        counters and markers, add the whole liters of the session, apply the
        rollovers, write the counters back, and keep the fraction of a liter
        in the session. */
    method CommitSessionLiters(now: DateTime)
      requires Valid()
      modifies eeprom, this`sessionPulses
      ensures eeprom[..] == CommitImage(old(eeprom[..]), old(sessionPulses) / PULSES_PER_LITER, now.day, now.month)
      ensures sessionPulses == old(sessionPulses) % PULSES_PER_LITER
    {
      ghost var mem: Memory := eeprom[..];
      var totalLiters := ReadUnsignedLong(ADDR_TOTAL_LITERS);
      var currentMonth := ReadUnsignedLong(ADDR_CURRENT_MONTH);
      var currentDay := ReadUnsignedLong(ADDR_CURRENT_DAY);
      var lastMonth := ReadEEPROM(ADDR_LAST_MONTH);
      var lastDay := ReadEEPROM(ADDR_LAST_DAY);
      assert eeprom[..] == mem;
      assert lastMonth == mem[ADDR_LAST_MONTH] && lastDay == mem[ADDR_LAST_DAY];

      var sessionLitersInt := sessionPulses / PULSES_PER_LITER;
      totalLiters := Wrap32(totalLiters + sessionLitersInt);
      currentMonth := Wrap32(currentMonth + sessionLitersInt);
      currentDay := Wrap32(currentDay + sessionLitersInt);
      assert totalLiters == Wrap32(LoadU32(mem, ADDR_TOTAL_LITERS) + sessionLitersInt);
      assert currentMonth == Wrap32(LoadU32(mem, ADDR_CURRENT_MONTH) + sessionLitersInt);
      assert currentDay == Wrap32(LoadU32(mem, ADDR_CURRENT_DAY) + sessionLitersInt);
      sessionPulses := sessionPulses - sessionLitersInt * PULSES_PER_LITER;
      assert eeprom[..] == mem;

      currentDay := RolloverDay(lastDay, currentDay, now.day);
      ghost var m1: Memory := eeprom[..];
      currentMonth := RolloverMonth(lastMonth, currentMonth, now.month);
      ghost var m2: Memory := eeprom[..];

      WriteUnsignedLong(ADDR_TOTAL_LITERS, totalLiters);
      ghost var m3: Memory := eeprom[..];
      WriteUnsignedLong(ADDR_CURRENT_MONTH, currentMonth);
      ghost var m4: Memory := eeprom[..];
      WriteUnsignedLong(ADDR_CURRENT_DAY, currentDay);
      CommitImageSteps(mem, sessionLitersInt, now.day, now.month, m1, m2, m3, m4, eeprom[..]);
    }

    /** The day-rollover block of saveToEEPROM: on a day other than
        `lastDay`, archive the day's liters in the log slot of `lastDay`,
        record the new day, and continue with a day counter of 0. */
    method RolloverDay(lastDay: byte, dayLiters: u32, day: byte) returns (currentDay: u32)
      requires Valid()
      modifies eeprom
      ensures eeprom[..] == DayRolloverImage(old(eeprom[..]), lastDay, dayLiters, day)
      ensures currentDay == if day != lastDay then 0 else dayLiters
    {
      currentDay := dayLiters;
      if day != lastDay {
        var logIndex := LogIndex(lastDay);
        WriteUnsignedLong(LogAddress(logIndex), currentDay);
        currentDay := 0;
        WriteEEPROM(ADDR_LAST_DAY, day);
      }
    }

    /** The month-rollover block of saveToEEPROM: on a month other than
        `lastMonth`, move the month's liters to previousMonth, record the new
        month, and continue with a month counter of 0. */
    method RolloverMonth(lastMonth: byte, monthLiters: u32, month: byte) returns (currentMonth: u32)
      requires Valid()
      modifies eeprom
      ensures eeprom[..] == MonthRolloverImage(old(eeprom[..]), lastMonth, monthLiters, month)
      ensures currentMonth == if month != lastMonth then 0 else monthLiters
    {
      currentMonth := monthLiters;
      if month != lastMonth {
        WriteUnsignedLong(ADDR_PREVIOUS_MONTH, currentMonth);
        currentMonth := 0;
        WriteEEPROM(ADDR_LAST_MONTH, month);
      }
    }

    // -------------------------------------------------------------------
    // Display
    // -------------------------------------------------------------------

    /** displayCurrentMode: redraw when the dirty flag is set or 2000 ms have
        passed since the last redraw; the values shown are read afresh from
        the EEPROM. */
    method DisplayCurrentMode(currentTime: u32, now: DateTime) returns (screen: Option<Screen>)
      requires Valid()
      modifies this`displayNeedsUpdate, this`lastDisplay
      ensures screen.None? <==>
        !old(displayNeedsUpdate) && Elapsed(currentTime, old(lastDisplay)) < DISPLAY_INTERVAL_MS
      ensures screen.Some? ==>
        && screen.value == ScreenFor(currentMode, eeprom[..], sessionPulses, now.day)
        && !displayNeedsUpdate
        && lastDisplay == currentTime
      ensures screen.None? ==> unchanged(this)
    {
      if !displayNeedsUpdate && Elapsed(currentTime, lastDisplay) < DISPLAY_INTERVAL_MS {
        return None;
      }
      var totalLiters := ReadUnsignedLong(ADDR_TOTAL_LITERS);
      var currentMonth := ReadUnsignedLong(ADDR_CURRENT_MONTH);
      var previousMonth := ReadUnsignedLong(ADDR_PREVIOUS_MONTH);
      var currentDay := ReadUnsignedLong(ADDR_CURRENT_DAY);
      var costPerLiter := ReadUnsignedLong(ADDR_COST_PER_LITER);

      var body: Screen;
      if currentMode == MODE_FLOW_RATE {
        body := FlowRateScreen;
      } else if currentMode == MODE_SESSION {
        body := SessionScreen(sessionPulses);
      } else if currentMode == MODE_TODAY {
        body := TodayScreen(currentDay);
      } else if currentMode == MODE_THIS_MONTH {
        body := ThisMonthScreen(currentMonth);
      } else if currentMode == MODE_LAST_MONTH {
        body := LastMonthScreen(previousMonth);
      } else if currentMode == MODE_TOTAL {
        body := TotalScreen(totalLiters);
      } else if currentMode == MODE_COST_TODAY {
        body := CostTodayScreen(currentDay, costPerLiter);
      } else if currentMode == MODE_COST_MONTH {
        body := CostMonthScreen(currentMonth, costPerLiter);
      } else {
        var days: seq<u32> := [];
        var i := 0;
        while i < WEEK_DAYS
          invariant 0 <= i <= WEEK_DAYS
          invariant |days| == i
          invariant forall k | 0 <= k < i :: days[k] == LogSlot(eeprom[..], WeeklyIndex(now.day, k))
        {
          var dayIndex := WeeklyIndex(now.day, i);
          var consumption := ReadUnsignedLong(LogAddress(dayIndex));
          days := days + [consumption];
          i := i + 1;
        }
        body := WeeklyScreen(days);
      }
      displayNeedsUpdate := false;
      lastDisplay := currentTime;
      screen := Some(body);
    }

    // -------------------------------------------------------------------
    // Commands
    // -------------------------------------------------------------------

    /** initializeEEPROM: zero the accumulators, store the default calibration
        and cost, seed lastMonth and lastDay from the clock, zero the 30 log
        slots. */
    method InitializeEEPROM(now: DateTime)
      requires Valid()
      modifies eeprom, this`displayNeedsUpdate
      ensures eeprom[..] == InitImage(old(eeprom[..]), now.day, now.month)
      ensures Persisted() == FactoryLedger(now.day, now.month)
      ensures LoadU32(eeprom[..], ADDR_CALIBRATION) == CALIBRATION_DEFAULT_BITS
      ensures LoadU32(eeprom[..], ADDR_COST_PER_LITER) == COST_DEFAULT_BITS
      ensures displayNeedsUpdate
    {
      ghost var mem: Memory := eeprom[..];
      WriteUnsignedLong(ADDR_TOTAL_LITERS, 0);
      ghost var m1: Memory := eeprom[..];
      WriteUnsignedLong(ADDR_CURRENT_MONTH, 0);
      ghost var m2: Memory := eeprom[..];
      WriteUnsignedLong(ADDR_PREVIOUS_MONTH, 0);
      ghost var m3: Memory := eeprom[..];
      WriteUnsignedLong(ADDR_CURRENT_DAY, 0);
      ghost var m4: Memory := eeprom[..];
      WriteUnsignedLong(ADDR_CALIBRATION, CALIBRATION_DEFAULT_BITS);
      ghost var m5: Memory := eeprom[..];
      WriteUnsignedLong(ADDR_COST_PER_LITER, COST_DEFAULT_BITS);
      ghost var m6: Memory := eeprom[..];
      WriteEEPROM(ADDR_LAST_MONTH, now.month);
      ghost var m7: Memory := eeprom[..];
      WriteEEPROM(ADDR_LAST_DAY, now.day);
      ghost var header: Memory := eeprom[..];
      assert header == InitHeaderImage(mem, now.day, now.month);

      ZeroDailyLog();
      InitImageDecode(mem, now.day, now.month);
      displayNeedsUpdate := true;
    }

    /** The loop of initializeEEPROM that zeroes the 30 daily-log slots in
        order. */
    method ZeroDailyLog()
      requires Valid()
      modifies eeprom
      ensures eeprom[..] == ZeroLog(old(eeprom[..]), LOG_SLOTS)
    {
      ghost var header: Memory := eeprom[..];
      var i := 0;
      while i < LOG_SLOTS
        invariant 0 <= i <= LOG_SLOTS
        invariant eeprom[..] == ZeroLog(header, i)
      {
        ghost var before: Memory := eeprom[..];
        WriteUnsignedLong(LogAddress(i), 0);
        assert ZeroLog(header, i + 1) == StoreU32(before, LogAddress(i), 0);
        i := i + 1;
      }
    }

    /** showSystemInfo: read the stored calibration and cost per liter (their
        float bit patterns) for display. */
    method ShowSystemInfo() returns (calibrationBits: u32, costBits: u32)
      requires Valid()
      modifies this`displayNeedsUpdate
      ensures calibrationBits == LoadU32(eeprom[..], ADDR_CALIBRATION)
      ensures costBits == LoadU32(eeprom[..], ADDR_COST_PER_LITER)
      ensures displayNeedsUpdate
    {
      calibrationBits := ReadUnsignedLong(ADDR_CALIBRATION);
      costBits := ReadUnsignedLong(ADDR_COST_PER_LITER);
      displayNeedsUpdate := true;
    }

    /** resetSession: drop the uncommitted session volume. */
    method ResetSession()
      modifies this`sessionPulses, this`displayNeedsUpdate
      ensures sessionPulses == 0 && Volume(sessionPulses) == 0.0
      ensures displayNeedsUpdate
    {
      sessionPulses := 0;
      displayNeedsUpdate := true;
    }

    /** resetToday: zero the persisted day counter, nothing else. */
    method ResetToday()
      requires Valid()
      modifies eeprom, this`displayNeedsUpdate
      ensures eeprom[..] == StoreU32(old(eeprom[..]), ADDR_CURRENT_DAY, 0)
      ensures Persisted() == old(Persisted()).(currentDay := 0)
      ensures displayNeedsUpdate
    {
      WriteUnsignedLong(ADDR_CURRENT_DAY, 0);
      ResetTodayDecode(old(eeprom[..]));
      displayNeedsUpdate := true;
    }

    /** resetMonth: zero the persisted month counter, nothing else. No button
        dispatches it. */
    method ResetMonth()
      requires Valid()
      modifies eeprom, this`displayNeedsUpdate
      ensures eeprom[..] == StoreU32(old(eeprom[..]), ADDR_CURRENT_MONTH, 0)
      ensures Persisted() == old(Persisted()).(currentMonth := 0)
      ensures displayNeedsUpdate
    {
      WriteUnsignedLong(ADDR_CURRENT_MONTH, 0);
      ResetMonthDecode(old(eeprom[..]));
      displayNeedsUpdate := true;
    }

    // -------------------------------------------------------------------
    // Buttons
    // -------------------------------------------------------------------

    /** handleButtons: debounced short presses. Button 1 cycles the display
        mode, button 2 resets the session, button 3 shows the system info. */
    method HandleButtons(currentTime: u32, level1: Level, level2: Level, level3: Level)
      requires Valid()
      modifies this`button1, this`button2, this`button3, this`currentMode,
               this`sessionPulses, this`displayNeedsUpdate
      ensures button1 == DebounceNext(old(button1), level1, currentTime)
      ensures button2 == DebounceNext(old(button2), level2, currentTime)
      ensures button3 == DebounceNext(old(button3), level3, currentTime)
      ensures currentMode
           == if Accepts(old(button1), level1, currentTime) then NextMode(old(currentMode)) else old(currentMode)
      ensures sessionPulses == if Accepts(old(button2), level2, currentTime) then 0 else old(sessionPulses)
      ensures displayNeedsUpdate
           == (old(displayNeedsUpdate) || Accepts(old(button1), level1, currentTime)
               || Accepts(old(button2), level2, currentTime) || Accepts(old(button3), level3, currentTime))
    {
      // Button 1: cycle the display mode
      if Accepts(button1, level1, currentTime) {
        currentMode := (currentMode + 1) % MODE_COUNT;
        displayNeedsUpdate := true;
        button1 := Debounce(currentTime, true);
      } else if level1 == RELEASED {
        button1 := button1.(wasPressed := false);
      }

      // Button 2: reset the session (short press)
      if Accepts(button2, level2, currentTime) {
        ResetSession();
        button2 := Debounce(currentTime, true);
      } else if level2 == RELEASED {
        button2 := button2.(wasPressed := false);
      }

      // Button 3: show the system info (short press)
      if Accepts(button3, level3, currentTime) {
        var calibrationBits, costBits := ShowSystemInfo();
        button3 := Debounce(currentTime, true);
      } else if level3 == RELEASED {
        button3 := button3.(wasPressed := false);
      }
    }

    /** checkLongPress: one-shot 3-second holds. Button 2 resets today's
        counter; button 3 prompts, samples the pin again (`confirm3`, read
        after the prompt's delay) and, if it is still held, runs the factory
        initialisation. */
    method CheckLongPress(currentTime: u32, level2: Level, level3: Level, confirm3: Level, now: DateTime)
      requires Valid()
      modifies eeprom, this`button2Long, this`button3Long, this`displayNeedsUpdate
      ensures button2Long == LongPressNext(old(button2Long), level2, currentTime)
      ensures button3Long == LongPressNext(old(button3Long), level3, currentTime)
      ensures var today := LongFires(old(button2Long), level2, currentTime);
              var factory := LongFires(old(button3Long), level3, currentTime) && confirm3 == PRESSED;
              var afterToday := if today then StoreU32(old(eeprom[..]), ADDR_CURRENT_DAY, 0) else old(eeprom[..]);
              && eeprom[..] == (if factory then InitImage(afterToday, now.day, now.month) else afterToday)
              && displayNeedsUpdate == (old(displayNeedsUpdate) || today || factory)
              && (factory ==> Persisted() == FactoryLedger(now.day, now.month))
              && (today && !factory ==> Persisted() == old(Persisted()).(currentDay := 0))
              && (!today && !factory ==> Persisted() == old(Persisted()))
    {
      // Button 2 long press: reset today
      if level2 == PRESSED {
        if button2Long.start == 0 {
          button2Long := button2Long.(start := currentTime);
        } else if !button2Long.handled && Elapsed(currentTime, button2Long.start) > LONG_PRESS_MS {
          ResetToday();
          button2Long := button2Long.(handled := true);
        }
      } else {
        button2Long := LONG_RELEASED;
      }

      // Button 3 long press: factory initialisation, confirmed by a second sample
      if level3 == PRESSED {
        if button3Long.start == 0 {
          button3Long := button3Long.(start := currentTime);
        } else if !button3Long.handled && Elapsed(currentTime, button3Long.start) > LONG_PRESS_MS {
          if confirm3 == PRESSED {
            InitializeEEPROM(now);
          }
          button3Long := button3Long.(handled := true);
        }
      } else {
        button3Long := LONG_RELEASED;
      }
    }
  }
}
