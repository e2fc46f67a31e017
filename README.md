# Water-meter consumption accounting, modelled in Dafny

This project models the consumption-accounting core of an mbed water-meter controller (`main.cpp`). A YF-S201 flow sensor sends 450 pulses per liter. A DS3231 real-time clock supplies the date. An AT24C32 EEPROM holds the persisted ledger:
- the lifetime total;
- the current month and the previous month;
- the current day;
- the last seen month and day;
- a 30-slot circular log of daily totals.

The controller samples the pulse counter once a second and commits whole liters to the EEPROM once a minute, rolling the day and month over against the clock. Three buttons cycle the display mode, reset the session, show the stored settings, reset today's counter and, after a confirmed 3-second hold, re-initialise the EEPROM.

The model has six modules:

- `Machine`: the C integer types (`uint8_t`, `uint16_t`, 32-bit `unsigned long`). It also holds the C operations that differ from Dafny's arithmetic:
  - conversion to an unsigned type;
  - wrap-around subtraction of timer readings;
  - the truncating remainder `%`.
- `Bcd`: the packed-BCD conversions at the clock boundary.
- `Layout`: the EEPROM as a 4096-byte memory. It holds the memory map, the little-endian byte order of 32-bit values, and the two index expressions that address the daily log.
- `Accounting`: the persisted ledger as a record (`Ledger`, decoded from the bytes by `Decode`). It also holds:
  - the commit-and-rollover rule (`Commit`);
  - the byte images that a commit, a reset and the factory initialisation leave in the EEPROM, each tied to the ledger by a decoding lemma.
- `Buttons`: the display modes, the debounced short press and the one-shot long press, as step functions with lemmas over whole sequences of polls.
- `Meter`: the controller itself, a class `Controller`.
  - Its fields are the EEPROM (`array<byte>`), the globals, and the function-static variables of the routines.
  - There is one method per routine. Each states its effect on the EEPROM bytes through an `Accounting` image, and its effect on the decoded ledger (`Persisted()`) through the ledger rules.

The session volume (`float sessionVolume`) is kept exactly, as the number of pulses it stands for. A session of `p` pulses holds `p / 450` liters, and a commit takes `p / 450` whole liters and keeps `p % 450` pulses.

Timer readings, the clock's date and the pin levels are parameters of the methods, with one sample per pin per call. `checkLongPress` samples button 3 a second time after its confirmation prompt; that sample is the separate parameter `confirm3`.

Some blocks of a source routine are given their own methods, with the writes in the source's order:
- the gated body and the two rollover blocks of `saveToEEPROM` (`CommitSessionLiters`, `RolloverDay`, `RolloverMonth`);
- the log-zeroing loop of `initializeEEPROM` (`ZeroDailyLog`).

The commit is modelled as the code does it. The committed liters are added to the day and month counters before the rollover checks. So on a new day the archived slot receives the ended day's counter plus the liters of this commit, and the day counter restarts at 0. On a new month, previousMonth receives the month counter plus the liters of this commit.

The stored calibration is written and displayed, but no computation reads it: the sampler divides by the constant 450.

## Model

| member | source | states |
|---|---|---|
| Machine.ToU8 | main.cpp:217 | converting an int in -256..255 to `uint8_t` keeps it, or adds 256 if it is negative |
| Machine.Wrap32 | main.cpp:210-212 | a 32-bit unsigned result equals the exact one below 2^32 and loses one 2^32 above it |
| Machine.Elapsed | main.cpp:182 | `now - since` on `uint32_t` is the true difference, plus 2^32 when the counter wrapped |
| Machine.ElapsedAfter | main.cpp:182 | a timer that advanced by d < 2^32 shows an elapsed time of exactly d, wrap or not |
| Machine.CRem | main.cpp:217 | C's `%`: the dividend equals the truncated quotient (`CQuot`) times the divisor plus the remainder, and the remainder lies in [0, b) for a non-negative dividend and in (-b, 0] for a negative one |
| Bcd.Bcd2Dec | main.cpp:68-70 | every byte decodes to ten times its high nibble plus its low nibble |
| Bcd.Dec2Bcd | main.cpp:72-74 | a value below 100 encodes to tens digit × 16 + ones digit, a valid BCD byte |
| Bcd.DecBcdRoundTrip | main.cpp:68-74 | decoding the encoding of v gives v back for every v in 0..99 |
| Bcd.BcdDecRoundTrip | main.cpp:68-74 | encoding the decoding of a BCD byte gives the byte back |
| Bcd.Dec2BcdOutOfRange | main.cpp:72-74 | 100 has no BCD form: it encodes to 0xA0, whose high nibble is not a digit |
| Layout.PartialLoadComplete | main.cpp:119-126 | the value assembled after four byte reads is the little-endian value at the address |
| Layout.ByteOf | main.cpp:113-115 | byte i of a 32-bit value as the little-endian CPU keeps it in memory: the value divided by 256^i, modulo 256 |
| Layout.Store8 | main.cpp:77-84 | the memory with the one byte at the address replaced, every other byte unchanged |
| Layout.BytesOfValue | main.cpp:112-117 | the four bytes written for a 32-bit value put together again give the value |
| Layout.LoadU32 | main.cpp:119-126 | the 32-bit value whose little-endian bytes are the four bytes stored from the address on |
| Layout.StoreU32 | main.cpp:112-117 | the memory with the four little-endian bytes of the value in place of the four bytes from the address on, every other byte unchanged |
| Layout.LoadStoreSame | main.cpp:112-126 | reading a 32-bit value back after writing it gives the written value |
| Layout.StoreLoadSame | main.cpp:112-126 | writing back the value just read leaves every byte of the EEPROM as it was |
| Layout.LoadedByte | main.cpp:119-126 | byte i of a read value is the stored byte at address + i |
| Layout.LoadStoreOther | main.cpp:112-126 | a 32-bit write leaves the value at any non-overlapping address unchanged |
| Layout.LoadAfterStore | main.cpp:112-126 | a read after a write at the same or a disjoint address gives the written value or the old one |
| Layout.FieldsDisjoint | main.cpp:17-25 | distinct fields of the memory map occupy disjoint bytes within 0..149, and the header fields end before the log at 30 |
| Layout.LogAddress | main.cpp:218 | the address of log slot k: 30 + 4k |
| Layout.LogIndex | main.cpp:217 | `(lastDay - 1) % 30` as `uint8_t` is `(lastDay - 1) mod 30` for days from 1, and 255 for day 0 |
| Layout.WeeklyIndex | main.cpp:335 | `(day - i - 1 + 30) % 30` lies in 0..29 for every day byte and i < 7, and equals `(day - i - 1) mod 30` |
| Layout.LogSlotInLogArea | main.cpp:217-218 | for lastDay 1..31 the archive slot is one of the 30 log slots and its four bytes lie within bytes 30..149 |
| Layout.Day31AliasesDay1 | main.cpp:217 | calendar day 31 is archived into slot 0, the slot of day 1 |
| Layout.LogIndexOfAnyByte | main.cpp:217-218 | the index is 255 exactly when lastDay is 0, which sends the archive to byte 1050, outside the map; for every other byte it is a log slot; the write always stays inside the device |
| Layout.WeeklyIndexIsLogIndex | main.cpp:335-336 | weekly entry i (i < day) reads the slot into which calendar day `day - i` is archived |
| Accounting.Decode | main.cpp:17-25 | the ledger the EEPROM holds: the total, month, previous-month and day counters as 32-bit values at bytes 0, 4, 8 and 12, the bytes lastMonth (20) and lastDay (21), and the 30 log slots from byte 30 on |
| Accounting.Commit | main.cpp:203-232 | the ledger after one commit as the code computes it: the committed liters added (mod 2^32) to the total, month and day counters, then on a changed day the day counter archived in slot `LogIndex(lastDay)` and restarted, and on a changed month the month counter moved to previousMonth and restarted |
| Accounting.Volume | main.cpp:188 | the liters a session of p pulses stands for: p / 450 as an exact rational |
| Accounting.VolumeAdds | main.cpp:188 | the sampler's increment adds exactly pulses/450 liters to the session volume |
| Accounting.CommitSplitsSession | main.cpp:209-213 | a commit takes the floor of the session volume and leaves a remainder of `p % 450` pulses, which is exactly the old volume minus the committed liters and lies in [0, 1) liter |
| Accounting.CommitDayRollover | main.cpp:210-232 | for every stored lastDay of 1 or more (the 0xFF of a blank chip included), on a new day slot `(lastDay-1) mod 30` receives the day counter plus the committed liters, no other slot changes and the day counter becomes 0; on the same day the log is unchanged and the counter grows by the committed liters; lastDay becomes the clock's day |
| Accounting.CommitMonthRollover | main.cpp:211-231 | on a new month previousMonth receives the month counter plus the committed liters and the month counter becomes 0; otherwise previousMonth is unchanged and the month counter grows; lastMonth becomes the clock's month; lastDay changes exactly when the day did, independently of the month |
| Accounting.CommitWithDayZero | main.cpp:216-218 | with a stored lastDay of 0 a commit changes no log slot |
| Accounting.DayRolloverExample | main.cpp:216-221 | day 5 ending with 120 liters and nothing committed leaves 120 in slot 4, a day counter of 0 and lastDay 6 |
| Accounting.TotalAfterCommits | main.cpp:209-230 | after any sequence of commits the total is the old total plus every committed liter, modulo 2^32 |
| Accounting.TotalNeverDecreases | main.cpp:209-230 | without 32-bit overflow the total after any sequence of commits is the old total plus the committed liters, so it never decreases |
| Accounting.PeriodsWithinTotalAfterCommits | main.cpp:209-232 | if the day, month and previous-month counters are at most the total, they stay so across any sequence of commits without overflow |
| Accounting.DecodeStoreU32 | main.cpp:112-117 | a 32-bit write at a field address of the map (or past its end) changes exactly that field of the ledger |
| Accounting.DecodeStore8 | main.cpp:17-25 | a byte write at address 20 or 21 changes exactly lastMonth or lastDay |
| Accounting.DayRolloverImage | main.cpp:216-221 | the memory after the day-rollover block: on a day other than the stored lastDay, the day's liters written at slot LogIndex(lastDay) and then the new day at byte 21; otherwise the memory unchanged |
| Accounting.DayRolloverDecode | main.cpp:216-221 | the day-rollover writes archive the day's liters into slot LogIndex(lastDay) (if it is a log slot) and set lastDay, and change nothing else |
| Accounting.MonthRolloverImage | main.cpp:224-228 | the memory after the month-rollover block: on a month other than the stored lastMonth, the month's liters written at byte 8 and then the new month at byte 20; otherwise the memory unchanged |
| Accounting.MonthRolloverDecode | main.cpp:224-228 | the month-rollover writes set previousMonth and lastMonth and change nothing else |
| Accounting.CommitImage | main.cpp:203-232 | the EEPROM after one commit: the five values read first, then the day-rollover writes, the month-rollover writes, and the total, month and day counters, in that order |
| Accounting.CommitImageDecode | main.cpp:203-232 | the EEPROM after the commit's writes decodes to `Commit` of the ledger before them |
| Accounting.CommitAsUpdates | main.cpp:209-232 | the commit rule equals the sequence of field updates performed by the writes, in the source's order |
| Accounting.CommitKeepsSettings | main.cpp:196-243 | a commit never changes the stored calibration and cost-per-liter bytes |
| Accounting.ResetTodayDecode | main.cpp:417-418 | resetToday's write zeroes the day counter and changes nothing else in the ledger |
| Accounting.ResetMonthDecode | main.cpp:427-428 | resetMonth's write zeroes the month counter and changes nothing else in the ledger |
| Accounting.ZeroLogBytes | main.cpp:365-367 | zeroing the first n log slots clears bytes 30..30+4n-1 and no other byte |
| Accounting.FactoryLedger | main.cpp:354-367 | the ledger after initialisation: every counter and every log slot 0, lastMonth and lastDay the clock's date |
| Accounting.ZeroLog | main.cpp:365-367 | the memory after the first n log slots are written with 0 in slot order |
| Accounting.InitImage | main.cpp:349-367 | the EEPROM after initialisation: the header writes in the source's order followed by the zeroing of all 30 log slots |
| Accounting.InitHeaderImage | main.cpp:354-363 | the memory after the header writes of initialisation, in the source's order: 0 at bytes 0, 4, 8 and 12, the calibration and cost bit patterns at 16 and 22, then the clock's month and day at 20 and 21 |
| Accounting.InitHeaderDecode | main.cpp:354-363 | the header writes zero the four accumulators, store the clock's month and day, store the default calibration and cost bit patterns, and leave the log alone |
| Accounting.InitImageDecode | main.cpp:349-373 | after initialisation the ledger is all zero with lastMonth/lastDay from the clock and all 30 slots 0, regardless of prior content, and the calibration and cost hold 450.0f and 0.05f |
| Buttons.NextMode | main.cpp:444 | the next mode is the following one, and the weekly history wraps to the flow rate |
| Buttons.ModeAfterPolls | main.cpp:442-450 | N accepted presses of the mode button take mode k to (k + N) mod 9 |
| Buttons.Accepts | main.cpp:443 | a press is accepted when the pin reads 0, the press latch is clear and more than 200 ms (wrap-around subtraction) have passed since the last accepted press |
| Buttons.DebounceNext | main.cpp:443-450 | an accepted press records its time and sets the latch; a pin reading 1 clears the latch; otherwise the state is kept |
| Buttons.HeldAcceptsAtMostOnce | main.cpp:443-450 | while a button stays held at most one press is accepted, and none if the press was already latched |
| Buttons.DebounceWindow | main.cpp:443-447 | no press is accepted within 200 ms of the last accepted one, whatever the pin does |
| Buttons.LongFires | main.cpp:484 | the long-press action fires when the pin reads 0, a non-zero start is latched, the action has not fired in this hold and more than 3000 ms have passed since the start |
| Buttons.LongPressNext | main.cpp:481-491 | while held, a start of 0 latches the current time and a firing sets the handled latch; a release clears both |
| Buttons.LongPressAtMostOncePerHold | main.cpp:481-491 | a continuous hold fires the long-press action at most once, and never after it has fired |
| Buttons.LongPressFiresIffHeldLongEnough | main.cpp:481-491 | with a latched non-zero start, a hold fires exactly once if some poll comes more than 3000 ms after the start, and never otherwise |
| Buttons.ResetTodayFiresOnce | main.cpp:480-491 | a hold from 100 ms polled past 3100 ms resets today's counter exactly once |
| Buttons.ReleaseRearms | main.cpp:488-491 | a release clears the start and the one-shot latch and never fires |
| Buttons.StartAtZeroRelatches | main.cpp:482-483 | a hold first polled at timer 0 keeps a start of 0, which counts as unlatched, and does not fire |
| Meter.ScreenFor | main.cpp:269-342 | the screen of each of the nine modes, its figures read from the decoded EEPROM: session pulses, today, this month, last month, total, the two costs with the stored cost bit pattern, and the seven weekly slots |
| Meter.WeeklyDays | main.cpp:334-340 | the seven values the weekly loop reads: entry i is the 32-bit value at log slot `(day - i - 1 + 30) % 30` |
| Meter.WeeklyShowsLog | main.cpp:334-336 | weekly entry i is log slot `(day - i - 1) mod 30` of the ledger, the slot that archives day `day - i` |
| Meter.Controller.constructor | main.cpp:55-60 | the power-up state (globals, and the function-static variables of the routines): zero counters and timestamps, flow-rate mode, display dirty, latches clear, EEPROM content as left from before |
| Meter.Controller.FlowPulse | main.cpp:173-175 | one sensor edge increments the pulse counter modulo 2^32 |
| Meter.Controller.UpdateFlowMeasurements | main.cpp:178-193 | nothing changes before 1000 ms have elapsed; after that the pulse counter is drained into the session, the volume grows by pulses/450, lastCheck is the current time and the display is dirty |
| Meter.Controller.ReadEEPROM | main.cpp:86-94 | returns the byte stored at the address |
| Meter.Controller.WriteEEPROM | main.cpp:77-84 | stores one byte and changes no other |
| Meter.Controller.WriteUnsignedLong | main.cpp:112-117 | the four bytes of the value are stored little-endian from the address, and no other byte changes |
| Meter.Controller.ReadUnsignedLong | main.cpp:119-126 | returns the little-endian value of the four bytes at the address |
| Meter.Controller.SaveToEEPROM | main.cpp:196-243 | before 60 s nothing changes; after that the EEPROM becomes the commit image, the persisted ledger becomes `Commit` of the old one with the floor of the session volume, the session keeps the fraction of a liter, lastSave is the current time and the display is dirty |
| Meter.Controller.CommitSessionLiters | main.cpp:201-232 | the reads, additions, rollovers and writes of a commit leave exactly the commit image, and the session keeps `p % 450` pulses |
| Meter.Controller.RolloverDay | main.cpp:215-221 | on a new day the day's liters go to slot LogIndex(lastDay) and lastDay is stored, and the day counter to write back is 0; otherwise nothing is written |
| Meter.Controller.RolloverMonth | main.cpp:223-228 | on a new month the month's liters go to previousMonth and lastMonth is stored, and the month counter to write back is 0; otherwise nothing is written |
| Meter.Controller.DisplayCurrentMode | main.cpp:246-346 | nothing is redrawn exactly when the display is clean and less than 2000 ms have passed; otherwise the screen of the current mode is built from the stored ledger (the weekly history by the seven-read loop), the dirty flag is cleared and lastDisplay is the current time |
| Meter.Controller.InitializeEEPROM | main.cpp:349-373 | the EEPROM becomes the factory image, whose ledger is the factory ledger of the clock's date, with default calibration and cost, and the display is dirty |
| Meter.Controller.ZeroDailyLog | main.cpp:365-367 | the loop writes 0 into the 30 log slots in order |
| Meter.Controller.ShowSystemInfo | main.cpp:376-404 | returns the stored calibration and cost bit patterns and marks the display dirty |
| Meter.Controller.ResetSession | main.cpp:407-414 | the session volume becomes 0 and the display is dirty |
| Meter.Controller.ResetToday | main.cpp:417-424 | only the persisted day counter is zeroed and the display is dirty |
| Meter.Controller.ResetMonth | main.cpp:427-434 | only the persisted month counter is zeroed and the display is dirty |
| Meter.Controller.HandleButtons | main.cpp:437-469 | each button's latch and timestamp take one debounce step; an accepted button 1 press advances the mode modulo 9, an accepted button 2 press zeroes the session, and any accepted press marks the display dirty |
| Meter.Controller.CheckLongPress | main.cpp:472-513 | each long-press state takes one step; a fired button 2 hold zeroes only today's counter; a fired button 3 hold re-initialises the EEPROM exactly when the second sample still reads pressed, and is latched either way |

## Left out

- I2C transactions, EEPROM write settling and RTC register access (`rtcRead`, `rtcWrite`, `rtcGetTime`, `rtcSetTime`, main.cpp:128-164) are I/O. The EEPROM is a byte array, and the clock's reading is a `DateTime` parameter already converted from BCD. The conversions themselves are modelled in `Bcd`.
- All LCD output, `printf` formatting and the blocking `wait` calls are left out: the save indicator, the date banner, the weekly scroll, the diagnostics screens, the reset messages and the startup banner. A redraw is represented by the `Screen` value it would show.
- Floating point is not modelled:
  - `flowRate` and the no-flow check (main.cpp:187, 274) are left out, so the flow-rate screen carries no value;
  - the cost screens carry the liters and the stored cost bit pattern instead of the float product (main.cpp:320, 327);
  - `rtcGetTemperature` (main.cpp:166-170) is left out of the system info;
  - `writeFloat`/`readFloat` are the same 4-byte store and load of the IEEE-754 bit pattern.
- Meter.Controller.SaveToEEPROM: the session volume is exact, so the rounding of the source's `float` accumulation is not modelled. Every increment `pulses / 450.0f` is rounded, because 1/450 has no exact float form. From 65,536 L on, a one-pulse sample no longer changes the float at all. A session of 2^32 liters or more, where the conversion to `unsigned long` is undefined, is modelled as the floor reduced modulo 2^32.
- Meter.Controller.ReadEEPROM, Meter.Controller.WriteEEPROM, Meter.Controller.ReadUnsignedLong and Meter.Controller.WriteUnsignedLong require the accessed bytes to lie within the 4096-byte device. The device's address wrap-around is not modelled. The highest address the controller ever uses is 1053.
- Meter.Controller.FlowPulse: the interrupt's concurrency with the main loop is not modelled. The increment, and the read-and-zero of the pulse counter in the sampler, are each one atomic step.
- Meter.Controller.HandleButtons and Meter.Controller.CheckLongPress read each pin once per call, except the confirmation sample of button 3 in CheckLongPress. The source reads a pin a second time in its `else if` branch, so a level change between those two reads is not modelled.
- The `main` loop's scheduling and its 5-second auto-refresh (main.cpp:516-560) are not modelled, and neither are the mbed timers. Timer readings are parameters. The float seconds of `saveTimer.read()` are taken as whole seconds.
- `resetMonth` is modelled, but no button dispatches it in the source.
