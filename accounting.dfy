/** The consumption ledger: the persisted accumulators of the memory map read
    as one record, the commit-and-rollover rule that folds the session's whole
    liters into it, and the EEPROM images that the commit, the reset commands
    and the factory initialisation leave behind. Each image is tied to the
    record by a decoding lemma, so that properties proved of the record hold
    of the bytes the controller writes. */
module Accounting {
  import opened Machine
  import opened Layout

  /** PULSES_PER_LITER (450.0f): the flow sensor's pulses per liter. */
  const PULSES_PER_LITER: nat := 450
  /** The IEEE-754 single-precision bit patterns of 450.0f and 0.05f, the
      factory calibration and cost per liter. */
  const CALIBRATION_DEFAULT_BITS: u32 := 0x43E1_0000
  const COST_DEFAULT_BITS: u32 := 0x3D4C_CCCD

  // ---------------------------------------------------------------------
  // Session volume
  // ---------------------------------------------------------------------

  /** The session volume in liters, for a session that has counted `pulses`. */
  function Volume(pulses: nat): real
  {
    pulses as real / PULSES_PER_LITER as real
  }

  /** The sampler's increment `pulses / PULSES_PER_LITER` adds exactly that
      many liters to the session volume. */
  lemma VolumeAdds(session: nat, pulses: nat)
    ensures Volume(session + pulses) == Volume(session) + pulses as real / 450.0
  {
  }

  /** A commit takes `(unsigned long)sessionVolume`, the floor of the volume,
      and leaves behind a remainder in [0, 1) liter: nothing is lost. */
  lemma CommitSplitsSession(pulses: nat)
    ensures var c := pulses / PULSES_PER_LITER;
            var rest := pulses - c * PULSES_PER_LITER;
            && Volume(pulses).Floor == c
            && rest == pulses % PULSES_PER_LITER
            && Volume(rest) == Volume(pulses) - c as real
            && 0.0 <= Volume(rest) < 1.0
  {
    var c := pulses / PULSES_PER_LITER;
    var rest := pulses % PULSES_PER_LITER;
    assert pulses == c * PULSES_PER_LITER + rest;
    assert pulses as real == c as real * 450.0 + rest as real;
    assert Volume(pulses) == c as real + rest as real / 450.0;
    assert 0.0 <= rest as real / 450.0 < 1.0;
  }

  // ---------------------------------------------------------------------
  // The persisted ledger
  // ---------------------------------------------------------------------

  type DailyLog = s: seq<u32> | |s| == LOG_SLOTS witness seq(LOG_SLOTS, _ => 0)

  /** The accumulators and rollover markers of the memory map. The float
      fields (calibration, cost per liter) are opaque bytes and not part of it. */
  datatype Ledger = Ledger(
    totalLiters: u32,
    currentMonth: u32,
    previousMonth: u32,
    currentDay: u32,
    lastMonth: byte,
    lastDay: byte,
    log: DailyLog)

  /** The slot contents of the daily log, read from the memory map. */
  function LogSlot(mem: Memory, k: nat): u32
    requires k < LOG_SLOTS
  {
    LoadU32(mem, LogAddress(k))
  }

  /** The ledger the memory holds. */
  function Decode(mem: Memory): Ledger
  {
    Ledger(
      LoadU32(mem, ADDR_TOTAL_LITERS),
      LoadU32(mem, ADDR_CURRENT_MONTH),
      LoadU32(mem, ADDR_PREVIOUS_MONTH),
      LoadU32(mem, ADDR_CURRENT_DAY),
      mem[ADDR_LAST_MONTH],
      mem[ADDR_LAST_DAY],
      seq(LOG_SLOTS, k requires 0 <= k < LOG_SLOTS => LogSlot(mem, k)))
  }

  /** The commit rule of saveToEEPROM, as written: the committed liters are
      added to the total, month and day counters first; then a changed day
      archives the day counter (which already holds the committed liters)
      into slot `LogIndex(lastDay)` and restarts it at 0, and a changed month
      moves the month counter (likewise) into previousMonth and restarts it.
      A slot index outside the log (lastDay 0) leaves the log alone. */
  function Commit(l: Ledger, committed: nat, day: byte, month: byte): Ledger
  {
    var dayLiters := Wrap32(l.currentDay + committed);
    var monthLiters := Wrap32(l.currentMonth + committed);
    var dayChanged := day != l.lastDay;
    var monthChanged := month != l.lastMonth;
    var index := LogIndex(l.lastDay);
    Ledger(
      Wrap32(l.totalLiters + committed),
      if monthChanged then 0 else monthLiters,
      if monthChanged then monthLiters else l.previousMonth,
      if dayChanged then 0 else dayLiters,
      if monthChanged then month else l.lastMonth,
      if dayChanged then day else l.lastDay,
      if dayChanged then ArchiveLog(l.log, index, dayLiters) else l.log)
  }

  /** The log with `v` archived in slot `index`; an index past the log
      leaves it unchanged. */
  function ArchiveLog(log: DailyLog, index: nat, v: u32): DailyLog
  {
    if index < LOG_SLOTS then log[index := v] else log
  }

  /** Day rollover. On a new day the ending day's counter plus the committed
      liters go to slot `LogIndex(lastDay)`, no other slot changes, the day
      counter restarts at 0 and lastDay becomes the new day; otherwise the log
      and lastDay stay and the day counter grows by the committed liters.
      This holds for every stored lastDay from 1 on, including the 0xFF of a
      blank EEPROM, which archives into slot 14. */
  lemma CommitDayRollover(l: Ledger, committed: nat, day: byte, month: byte)
    requires 1 <= l.lastDay
    ensures var r := Commit(l, committed, day, month);
            var index := (l.lastDay - 1) % LOG_SLOTS;
            && r.lastDay == day
            && (day != l.lastDay ==>
                  && r.log[index] == Wrap32(l.currentDay + committed)
                  && (forall k | 0 <= k < LOG_SLOTS && k != index :: r.log[k] == l.log[k])
                  && r.currentDay == 0)
            && (day == l.lastDay ==>
                  && r.log == l.log
                  && r.currentDay == Wrap32(l.currentDay + committed))
  {
    LogIndexOfAnyByte(l.lastDay);
  }

  /** Month rollover, independent of the day: on a new month previousMonth
      receives the month counter plus the committed liters, the month counter
      restarts at 0 and lastMonth becomes the new month; otherwise
      previousMonth and lastMonth stay and the month counter grows. */
  lemma CommitMonthRollover(l: Ledger, committed: nat, day: byte, month: byte)
    ensures var r := Commit(l, committed, day, month);
            && r.lastMonth == month
            && (month != l.lastMonth ==>
                  r.previousMonth == Wrap32(l.currentMonth + committed) && r.currentMonth == 0)
            && (month == l.lastMonth ==>
                  r.previousMonth == l.previousMonth
                  && r.currentMonth == Wrap32(l.currentMonth + committed))
            && (r.lastDay == l.lastDay <==> day == l.lastDay)
  {
  }

  /** A commit with a stored lastDay of 0 changes no log slot: the archive
      goes to bytes 1050..1053, outside the memory map. */
  lemma CommitWithDayZero(l: Ledger, committed: nat, day: byte, month: byte)
    requires l.lastDay == 0
    ensures Commit(l, committed, day, month).log == l.log
  {
  }

  /** The ledger after day 5 with 120 liters ends and no liters are committed:
      slot 4 holds 120, the day counter is 0 and lastDay is 6. */
  lemma DayRolloverExample(l: Ledger)
    requires l.currentDay == 120 && l.lastDay == 5
    ensures var r := Commit(l, 0, 6, l.lastMonth);
            r.log[4] == 120 && r.currentDay == 0 && r.lastDay == 6
  {
  }

  // ---------------------------------------------------------------------
  // Sequences of commits
  // ---------------------------------------------------------------------

  /** One commit: the liters committed and the clock's day and month. */
  datatype Tick = Tick(liters: nat, day: byte, month: byte)

  function CommitAll(l: Ledger, ticks: seq<Tick>): Ledger
    decreases |ticks|
  {
    if ticks == [] then l
    else CommitAll(Commit(l, ticks[0].liters, ticks[0].day, ticks[0].month), ticks[1..])
  }

  function Committed(ticks: seq<Tick>): nat
  {
    if ticks == [] then 0 else ticks[0].liters + Committed(ticks[1..])
  }

  /** The total after any sequence of commits is the old total plus every
      committed liter, modulo 2^32; rollovers never touch it. */
  lemma {:induction false} TotalAfterCommits(l: Ledger, ticks: seq<Tick>)
    ensures CommitAll(l, ticks).totalLiters == Wrap32(l.totalLiters + Committed(ticks))
    decreases |ticks|
  {
    if ticks != [] {
      var t := ticks[0];
      var l1 := Commit(l, t.liters, t.day, t.month);
      TotalAfterCommits(l1, ticks[1..]);
      WrapAdd(l.totalLiters + t.liters, Committed(ticks[1..]));
    }
  }

  /** Hence the total never decreases across commits, short of a 32-bit
      overflow. */
  lemma TotalNeverDecreases(l: Ledger, ticks: seq<Tick>)
    requires l.totalLiters + Committed(ticks) < U32_LIMIT
    ensures CommitAll(l, ticks).totalLiters == l.totalLiters + Committed(ticks)
    ensures CommitAll(l, ticks).totalLiters >= l.totalLiters
  {
    TotalAfterCommits(l, ticks);
  }

  /** The period counters never exceed the lifetime total. */
  predicate PeriodsWithinTotal(l: Ledger)
  {
    l.currentDay <= l.totalLiters && l.currentMonth <= l.totalLiters
    && l.previousMonth <= l.totalLiters
  }

  /** Commits keep the period counters within the total, short of overflow. */
  lemma {:induction false} PeriodsWithinTotalAfterCommits(l: Ledger, ticks: seq<Tick>)
    requires PeriodsWithinTotal(l)
    requires l.totalLiters + Committed(ticks) < U32_LIMIT
    ensures PeriodsWithinTotal(CommitAll(l, ticks))
    decreases |ticks|
  {
    if ticks != [] {
      var t := ticks[0];
      PeriodsWithinTotalAfterCommits(Commit(l, t.liters, t.day, t.month), ticks[1..]);
    }
  }

  // ---------------------------------------------------------------------
  // Writes and the decoded ledger
  // ---------------------------------------------------------------------

  /** The ledger with the 32-bit field at `a` set to `v`; a location outside
      the ledger (a float field, or beyond the map) leaves it as it is. */
  function WithU32(l: Ledger, a: nat, v: u32): Ledger
  {
    if a == ADDR_TOTAL_LITERS then l.(totalLiters := v)
    else if a == ADDR_CURRENT_MONTH then l.(currentMonth := v)
    else if a == ADDR_PREVIOUS_MONTH then l.(previousMonth := v)
    else if a == ADDR_CURRENT_DAY then l.(currentDay := v)
    else if ADDR_DAILY_LOG_START <= a < MAP_END then
      l.(log := l.log[(a - ADDR_DAILY_LOG_START) / SLOT_BYTES := v])
    else l
  }

  /** A 32-bit write at a field address of the map, or past its end, changes
      exactly that field of the decoded ledger. */
  lemma DecodeStoreU32(mem: Memory, a: nat, v: u32)
    requires a + 4 <= EEPROM_SIZE
    requires a < ADDR_DAILY_LOG_START ==> a in {0, 4, 8, 12, 16, 22}
    requires ADDR_DAILY_LOG_START <= a < MAP_END ==> (a - ADDR_DAILY_LOG_START) % SLOT_BYTES == 0
    ensures Decode(StoreU32(mem, a, v)) == WithU32(Decode(mem), a, v)
  {
    var m := StoreU32(mem, a, v);
    LoadAfterStore(mem, a, v, ADDR_TOTAL_LITERS);
    LoadAfterStore(mem, a, v, ADDR_CURRENT_MONTH);
    LoadAfterStore(mem, a, v, ADDR_PREVIOUS_MONTH);
    LoadAfterStore(mem, a, v, ADDR_CURRENT_DAY);
    var j := (a - ADDR_DAILY_LOG_START) / SLOT_BYTES;
    forall k | 0 <= k < LOG_SLOTS
      ensures LogSlot(m, k) == if ADDR_DAILY_LOG_START <= a < MAP_END && k == j then v else LogSlot(mem, k)
    {
      if ADDR_DAILY_LOG_START <= a < MAP_END {
        assert a == LogAddress(j);
      }
      LoadAfterStore(mem, a, v, LogAddress(k));
    }
  }

  /** A byte write at lastMonth or lastDay changes exactly that field. */
  lemma DecodeStore8(mem: Memory, a: nat, b: byte)
    requires a == ADDR_LAST_MONTH || a == ADDR_LAST_DAY
    ensures Decode(Store8(mem, a, b))
         == if a == ADDR_LAST_MONTH then Decode(mem).(lastMonth := b) else Decode(mem).(lastDay := b)
  {
    var m := Store8(mem, a, b);
    forall k | 0 <= k < LOG_SLOTS ensures LogSlot(m, k) == LogSlot(mem, k) {
    }
  }

  // ---------------------------------------------------------------------
  // The commit as it is written to the EEPROM
  // ---------------------------------------------------------------------

  /** The day-rollover writes of saveToEEPROM: on a day other than the stored
      `lastDay`, the day's liters go to the slot of `lastDay` and the new day
      to lastDay. */
  function DayRolloverImage(mem: Memory, lastDay: byte, dayLiters: u32, day: byte): Memory
  {
    if day != lastDay
    then Store8(StoreU32(mem, LogAddress(LogIndex(lastDay)), dayLiters), ADDR_LAST_DAY, day)
    else mem
  }

  /** The month-rollover writes of saveToEEPROM: on a month other than the
      stored `lastMonth`, the month's liters go to previousMonth and the new
      month to lastMonth. */
  function MonthRolloverImage(mem: Memory, lastMonth: byte, monthLiters: u32, month: byte): Memory
  {
    if month != lastMonth
    then Store8(StoreU32(mem, ADDR_PREVIOUS_MONTH, monthLiters), ADDR_LAST_MONTH, month)
    else mem
  }

  /** The EEPROM after one commit of saveToEEPROM, writes in the source's
      order: the rollover writes, then the total, month and day counters.
      Every stored value is read before anything is written. */
  function CommitImage(mem: Memory, committed: nat, day: byte, month: byte): Memory
  {
    var total := Wrap32(LoadU32(mem, ADDR_TOTAL_LITERS) + committed);
    var monthLiters := Wrap32(LoadU32(mem, ADDR_CURRENT_MONTH) + committed);
    var dayLiters := Wrap32(LoadU32(mem, ADDR_CURRENT_DAY) + committed);
    var lastMonth := mem[ADDR_LAST_MONTH];
    var lastDay := mem[ADDR_LAST_DAY];
    var m := DayRolloverImage(mem, lastDay, dayLiters, day);
    var m := MonthRolloverImage(m, lastMonth, monthLiters, month);
    var m := StoreU32(m, ADDR_TOTAL_LITERS, total);
    var m := StoreU32(m, ADDR_CURRENT_MONTH, if month != lastMonth then 0 else monthLiters);
    StoreU32(m, ADDR_CURRENT_DAY, if day != lastDay then 0 else dayLiters)
  }

  /** CommitImage, one write at a time. */
  lemma CommitImageSteps(mem: Memory, committed: nat, day: byte, month: byte,
                         m1: Memory, m2: Memory, m3: Memory, m4: Memory, m5: Memory)
    requires m1 == DayRolloverImage(mem, mem[ADDR_LAST_DAY], Wrap32(LoadU32(mem, ADDR_CURRENT_DAY) + committed), day)
    requires m2 == MonthRolloverImage(m1, mem[ADDR_LAST_MONTH], Wrap32(LoadU32(mem, ADDR_CURRENT_MONTH) + committed), month)
    requires m3 == StoreU32(m2, ADDR_TOTAL_LITERS, Wrap32(LoadU32(mem, ADDR_TOTAL_LITERS) + committed))
    requires m4 == StoreU32(m3, ADDR_CURRENT_MONTH,
                            if month != mem[ADDR_LAST_MONTH] then 0 else Wrap32(LoadU32(mem, ADDR_CURRENT_MONTH) + committed))
    requires m5 == StoreU32(m4, ADDR_CURRENT_DAY,
                            if day != mem[ADDR_LAST_DAY] then 0 else Wrap32(LoadU32(mem, ADDR_CURRENT_DAY) + committed))
    ensures m5 == CommitImage(mem, committed, day, month)
  {
  }

  lemma DayRolloverDecode(mem: Memory, lastDay: byte, dayLiters: u32, day: byte)
    ensures var l := Decode(mem);
            Decode(DayRolloverImage(mem, lastDay, dayLiters, day))
              == if day != lastDay
                 then l.(log := ArchiveLog(l.log, LogIndex(lastDay), dayLiters), lastDay := day)
                 else l
  {
    if day != lastDay {
      var index := LogIndex(lastDay);
      LogIndexOfAnyByte(lastDay);
      DecodeStoreU32(mem, LogAddress(index), dayLiters);
      DecodeStore8(StoreU32(mem, LogAddress(index), dayLiters), ADDR_LAST_DAY, day);
    }
  }

  lemma MonthRolloverDecode(mem: Memory, lastMonth: byte, monthLiters: u32, month: byte)
    ensures var l := Decode(mem);
            Decode(MonthRolloverImage(mem, lastMonth, monthLiters, month))
              == if month != lastMonth
                 then l.(previousMonth := monthLiters, lastMonth := month)
                 else l
  {
    if month != lastMonth {
      DecodeStoreU32(mem, ADDR_PREVIOUS_MONTH, monthLiters);
      DecodeStore8(StoreU32(mem, ADDR_PREVIOUS_MONTH, monthLiters), ADDR_LAST_MONTH, month);
    }
  }

  /** The bytes a commit writes hold exactly the ledger of the commit rule. */
  lemma CommitImageDecode(mem: Memory, committed: nat, day: byte, month: byte)
    ensures Decode(CommitImage(mem, committed, day, month)) == Commit(Decode(mem), committed, day, month)
  {
    var l := Decode(mem);
    var total := Wrap32(l.totalLiters + committed);
    var monthLiters := Wrap32(l.currentMonth + committed);
    var dayLiters := Wrap32(l.currentDay + committed);
    var newMonth := if month != l.lastMonth then 0 else monthLiters;
    var newDay := if day != l.lastDay then 0 else dayLiters;
    var m1 := DayRolloverImage(mem, l.lastDay, dayLiters, day);
    var m2 := MonthRolloverImage(m1, l.lastMonth, monthLiters, month);
    var m3 := StoreU32(m2, ADDR_TOTAL_LITERS, total);
    var m4 := StoreU32(m3, ADDR_CURRENT_MONTH, newMonth);
    var m5 := StoreU32(m4, ADDR_CURRENT_DAY, newDay);
    assert CommitImage(mem, committed, day, month) == m5;
    var l1 := if day != l.lastDay
              then l.(log := ArchiveLog(l.log, LogIndex(l.lastDay), dayLiters), lastDay := day)
              else l;
    DayRolloverDecode(mem, l.lastDay, dayLiters, day);
    assert Decode(m1) == l1;
    var l2 := if month != l.lastMonth then l1.(previousMonth := monthLiters, lastMonth := month) else l1;
    MonthRolloverDecode(m1, l.lastMonth, monthLiters, month);
    assert Decode(m2) == l2;
    DecodeStoreU32(m2, ADDR_TOTAL_LITERS, total);
    assert Decode(m3) == l2.(totalLiters := total);
    DecodeStoreU32(m3, ADDR_CURRENT_MONTH, newMonth);
    assert Decode(m4) == l2.(totalLiters := total, currentMonth := newMonth);
    DecodeStoreU32(m4, ADDR_CURRENT_DAY, newDay);
    assert Decode(m5) == l2.(totalLiters := total, currentMonth := newMonth, currentDay := newDay);
    CommitAsUpdates(l, committed, day, month);
  }

  /** The commit rule as the sequence of field updates the writes perform. */
  lemma CommitAsUpdates(l: Ledger, committed: nat, day: byte, month: byte)
    ensures var monthLiters := Wrap32(l.currentMonth + committed);
            var dayLiters := Wrap32(l.currentDay + committed);
            var l1 := if day != l.lastDay
                      then l.(log := ArchiveLog(l.log, LogIndex(l.lastDay), dayLiters), lastDay := day)
                      else l;
            var l2 := if month != l.lastMonth then l1.(previousMonth := monthLiters, lastMonth := month) else l1;
            Commit(l, committed, day, month)
              == l2.(totalLiters := Wrap32(l.totalLiters + committed),
                     currentMonth := if month != l.lastMonth then 0 else monthLiters,
                     currentDay := if day != l.lastDay then 0 else dayLiters)
  {
  }

  /** A commit never touches the calibration and cost-per-liter bytes. */
  lemma CommitKeepsSettings(mem: Memory, committed: nat, day: byte, month: byte)
    ensures var m := CommitImage(mem, committed, day, month);
            LoadU32(m, ADDR_CALIBRATION) == LoadU32(mem, ADDR_CALIBRATION)
            && LoadU32(m, ADDR_COST_PER_LITER) == LoadU32(mem, ADDR_COST_PER_LITER)
  {
    var lastDay := mem[ADDR_LAST_DAY];
    LogIndexOfAnyByte(lastDay);
  }

  // ---------------------------------------------------------------------
  // Reset commands
  // ---------------------------------------------------------------------

  /** resetToday writes 0 to the day counter and changes nothing else. */
  lemma ResetTodayDecode(mem: Memory)
    ensures Decode(StoreU32(mem, ADDR_CURRENT_DAY, 0)) == Decode(mem).(currentDay := 0)
  {
    DecodeStoreU32(mem, ADDR_CURRENT_DAY, 0);
  }

  /** resetMonth writes 0 to the month counter and changes nothing else. */
  lemma ResetMonthDecode(mem: Memory)
    ensures Decode(StoreU32(mem, ADDR_CURRENT_MONTH, 0)) == Decode(mem).(currentMonth := 0)
  {
    DecodeStoreU32(mem, ADDR_CURRENT_MONTH, 0);
  }

  // ---------------------------------------------------------------------
  // Factory initialisation
  // ---------------------------------------------------------------------

  /** The ledger right after initializeEEPROM on the given date. */
  function FactoryLedger(day: byte, month: byte): Ledger
  {
    Ledger(0, 0, 0, 0, month, day, seq(LOG_SLOTS, _ => 0))
  }

  /** The header writes of initializeEEPROM, in the source's order. */
  function InitHeaderImage(mem: Memory, day: byte, month: byte): Memory
  {
    var m := StoreU32(mem, ADDR_TOTAL_LITERS, 0);
    var m := StoreU32(m, ADDR_CURRENT_MONTH, 0);
    var m := StoreU32(m, ADDR_PREVIOUS_MONTH, 0);
    var m := StoreU32(m, ADDR_CURRENT_DAY, 0);
    var m := StoreU32(m, ADDR_CALIBRATION, CALIBRATION_DEFAULT_BITS);
    var m := StoreU32(m, ADDR_COST_PER_LITER, COST_DEFAULT_BITS);
    var m := Store8(m, ADDR_LAST_MONTH, month);
    Store8(m, ADDR_LAST_DAY, day)
  }

  /** The memory after the first `n` log slots have been zeroed in order. */
  function ZeroLog(mem: Memory, n: nat): Memory
    requires n <= LOG_SLOTS
  {
    if n == 0 then mem else StoreU32(ZeroLog(mem, n - 1), LogAddress(n - 1), 0)
  }

  /** The EEPROM after initializeEEPROM. */
  function InitImage(mem: Memory, day: byte, month: byte): Memory
  {
    ZeroLog(InitHeaderImage(mem, day, month), LOG_SLOTS)
  }

  /** Zeroing `n` slots clears bytes 30 .. 30 + 4n - 1 and only those. */
  lemma {:induction false} ZeroLogBytes(mem: Memory, n: nat)
    requires n <= LOG_SLOTS
    ensures forall j | 0 <= j < EEPROM_SIZE ::
      ZeroLog(mem, n)[j] == if ADDR_DAILY_LOG_START <= j < LogAddress(n) then 0 else mem[j]
  {
    if n > 0 {
      ZeroLogBytes(mem, n - 1);
    }
  }

  /** The header writes of initialisation set the four accumulators to 0 and
      the rollover markers to the clock's date; the log is untouched. */
  lemma InitHeaderDecode(mem: Memory, day: byte, month: byte)
    ensures Decode(InitHeaderImage(mem, day, month))
         == Decode(mem).(totalLiters := 0, currentMonth := 0, previousMonth := 0, currentDay := 0,
                         lastMonth := month, lastDay := day)
    ensures LoadU32(InitHeaderImage(mem, day, month), ADDR_CALIBRATION) == CALIBRATION_DEFAULT_BITS
    ensures LoadU32(InitHeaderImage(mem, day, month), ADDR_COST_PER_LITER) == COST_DEFAULT_BITS
  {
    var l := Decode(mem);
    var m0 := StoreU32(mem, ADDR_TOTAL_LITERS, 0);
    DecodeStoreU32(mem, ADDR_TOTAL_LITERS, 0);
    var m1 := StoreU32(m0, ADDR_CURRENT_MONTH, 0);
    DecodeStoreU32(m0, ADDR_CURRENT_MONTH, 0);
    var m2 := StoreU32(m1, ADDR_PREVIOUS_MONTH, 0);
    DecodeStoreU32(m1, ADDR_PREVIOUS_MONTH, 0);
    var m3 := StoreU32(m2, ADDR_CURRENT_DAY, 0);
    DecodeStoreU32(m2, ADDR_CURRENT_DAY, 0);
    var zeroed := l.(totalLiters := 0, currentMonth := 0, previousMonth := 0, currentDay := 0);
    assert Decode(m3) == zeroed;
    var m4 := StoreU32(m3, ADDR_CALIBRATION, CALIBRATION_DEFAULT_BITS);
    DecodeStoreU32(m3, ADDR_CALIBRATION, CALIBRATION_DEFAULT_BITS);
    var m5 := StoreU32(m4, ADDR_COST_PER_LITER, COST_DEFAULT_BITS);
    DecodeStoreU32(m4, ADDR_COST_PER_LITER, COST_DEFAULT_BITS);
    assert Decode(m5) == zeroed;
    LoadAfterStore(m3, ADDR_CALIBRATION, CALIBRATION_DEFAULT_BITS, ADDR_CALIBRATION);
    LoadAfterStore(m4, ADDR_COST_PER_LITER, COST_DEFAULT_BITS, ADDR_CALIBRATION);
    LoadAfterStore(m4, ADDR_COST_PER_LITER, COST_DEFAULT_BITS, ADDR_COST_PER_LITER);
    var m6 := Store8(m5, ADDR_LAST_MONTH, month);
    DecodeStore8(m5, ADDR_LAST_MONTH, month);
    DecodeStore8(m6, ADDR_LAST_DAY, day);
    assert InitHeaderImage(mem, day, month) == Store8(m6, ADDR_LAST_DAY, day);
  }

  /** Whatever the EEPROM held before, initialisation leaves all four
      accumulators and all 30 log slots at 0, lastMonth and lastDay at the
      clock's date, and the default calibration and cost bit patterns. */
  lemma InitImageDecode(mem: Memory, day: byte, month: byte)
    ensures Decode(InitImage(mem, day, month)) == FactoryLedger(day, month)
    ensures LoadU32(InitImage(mem, day, month), ADDR_CALIBRATION) == CALIBRATION_DEFAULT_BITS
    ensures LoadU32(InitImage(mem, day, month), ADDR_COST_PER_LITER) == COST_DEFAULT_BITS
  {
    var h := InitHeaderImage(mem, day, month);
    InitHeaderDecode(mem, day, month);
    var z := ZeroLog(h, LOG_SLOTS);
    ZeroLogBytes(h, LOG_SLOTS);
    var lh := Decode(h);
    var lz := Decode(z);
    assert lz.totalLiters == lh.totalLiters && lz.currentMonth == lh.currentMonth;
    assert lz.previousMonth == lh.previousMonth && lz.currentDay == lh.currentDay;
    assert lz.lastMonth == lh.lastMonth && lz.lastDay == lh.lastDay;
    forall k | 0 <= k < LOG_SLOTS ensures lz.log[k] == 0 {
      assert LogSlot(z, k) == 0;
    }
    assert lz.log == seq(LOG_SLOTS, _ => 0);
  }
}
