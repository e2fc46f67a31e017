/** The EEPROM (an AT24C32, 4096 bytes) as the controller lays it out: the
    fixed memory map of main.cpp, the native little-endian order in which a
    32-bit value is stored byte by byte, and the two index expressions that
    address the 30-slot daily log. */
module Layout {
  import opened Machine

  const EEPROM_SIZE: nat := 4096

  const ADDR_TOTAL_LITERS: nat := 0
  const ADDR_CURRENT_MONTH: nat := 4
  const ADDR_PREVIOUS_MONTH: nat := 8
  const ADDR_CURRENT_DAY: nat := 12
  const ADDR_CALIBRATION: nat := 16
  const ADDR_LAST_MONTH: nat := 20
  const ADDR_LAST_DAY: nat := 21
  const ADDR_COST_PER_LITER: nat := 22
  const ADDR_DAILY_LOG_START: nat := 30

  const LOG_SLOTS: nat := 30
  const SLOT_BYTES: nat := 4
  /** One past the last byte of the memory map (the end of slot 29). */
  const MAP_END: nat := ADDR_DAILY_LOG_START + LOG_SLOTS * SLOT_BYTES

  /** The whole EEPROM content. */
  type Memory = m: seq<byte> | |m| == EEPROM_SIZE witness seq(EEPROM_SIZE, _ => 0)

  // ---------------------------------------------------------------------
  // Little-endian 32-bit values (writeUnsignedLong / readUnsignedLong)
  // ---------------------------------------------------------------------

  /** The place value of byte `i` of a little-endian 32-bit value. */
  function Weight(i: nat): nat
    requires i < 4
  {
    if i == 0 then 0x1 else if i == 1 then 0x100 else if i == 2 then 0x1_0000 else 0x100_0000
  }

  /** Byte `i` of `v` as the CPU keeps it in memory (`((uint8_t*)&v)[i]`). */
  function ByteOf(v: u32, i: nat): byte
    requires i < 4
  {
    (v / Weight(i)) % 0x100
  }

  /** The 32-bit value whose bytes are the `n` bytes stored from `a` on and
      zero above them: what `readUnsignedLong` has assembled after `n` reads. */
  function PartialLoad(mem: seq<byte>, a: nat, n: nat): nat
    requires n <= 4 && a + n <= |mem|
  {
    if n == 0 then 0 else PartialLoad(mem, a, n - 1) + mem[a + n - 1] as int * Weight(n - 1)
  }

  /** The 32-bit value stored at `a`. */
  function LoadU32(mem: seq<byte>, a: nat): (r: u32)
    requires a + 4 <= |mem|
  {
    mem[a] as int + 0x100 * mem[a + 1] as int + 0x1_0000 * mem[a + 2] as int
      + 0x100_0000 * mem[a + 3] as int
  }

  /** The memory after the four bytes of `v` are written from `a` on. */
  function StoreU32(mem: Memory, a: nat, v: u32): (r: Memory)
    requires a + 4 <= EEPROM_SIZE
  {
    mem[a := ByteOf(v, 0)][a + 1 := ByteOf(v, 1)][a + 2 := ByteOf(v, 2)][a + 3 := ByteOf(v, 3)]
  }

  /** The memory after the single byte `b` is written at `a`. */
  function Store8(mem: Memory, a: nat, b: byte): (r: Memory)
    requires a < EEPROM_SIZE
  {
    mem[a := b]
  }

  /** After the full four reads, the assembled value is the stored one. */
  lemma PartialLoadComplete(mem: seq<byte>, a: nat)
    requires a + 4 <= |mem|
    ensures PartialLoad(mem, a, 4) == LoadU32(mem, a)
  {
    var b0, b1, b2: int := mem[a], mem[a + 1], mem[a + 2];
    assert PartialLoad(mem, a, 1) == b0;
    assert PartialLoad(mem, a, 2) == b0 + b1 * 0x100;
    assert PartialLoad(mem, a, 3) == b0 + b1 * 0x100 + b2 * 0x1_0000;
  }

  /** The four bytes of `v` put together again give `v`. */
  lemma BytesOfValue(v: u32)
    ensures ByteOf(v, 0) as int + 0x100 * ByteOf(v, 1) as int + 0x1_0000 * ByteOf(v, 2) as int
            + 0x100_0000 * ByteOf(v, 3) as int == v
  {
    var q1 := v / 0x100;
    var q2 := q1 / 0x100;
    var q3 := q2 / 0x100;
    assert v / 0x1_0000 == q2;
    assert v / 0x100_0000 == q3;
    assert q3 < 0x100;
  }

  /** Reading back what was written yields the written value. */
  lemma LoadStoreSame(mem: Memory, a: nat, v: u32)
    requires a + 4 <= EEPROM_SIZE
    ensures LoadU32(StoreU32(mem, a, v), a) == v
  {
    BytesOfValue(v);
  }

  /** Writing back the value just read leaves every byte as it was: the four
      bytes are determined by the value. */
  lemma StoreLoadSame(mem: Memory, a: nat)
    requires a + 4 <= EEPROM_SIZE
    ensures StoreU32(mem, a, LoadU32(mem, a)) == mem
  {
    var v := LoadU32(mem, a);
    forall i | 0 <= i < 4 ensures ByteOf(v, i) == mem[a + i] {
      LoadedByte(mem, a, i);
    }
    var m := StoreU32(mem, a, v);
    forall k | 0 <= k < EEPROM_SIZE ensures m[k] == mem[k] {
      if a <= k < a + 4 {
        assert m[k] == ByteOf(v, k - a);
      }
    }
  }

  /** Byte `i` of a loaded value is the stored byte `i`. */
  lemma LoadedByte(mem: seq<byte>, a: nat, i: nat)
    requires a + 4 <= |mem| && i < 4
    ensures ByteOf(LoadU32(mem, a), i) == mem[a + i]
  {
    var v := LoadU32(mem, a);
    var b0, b1, b2, b3: int := mem[a], mem[a + 1], mem[a + 2], mem[a + 3];
    if i == 0 {
      assert v == b0 + 0x100 * (b1 + 0x100 * b2 + 0x1_0000 * b3);
    } else if i == 1 {
      assert v / 0x100 == b1 + 0x100 * (b2 + 0x100 * b3);
    } else if i == 2 {
      assert v / 0x1_0000 == b2 + 0x100 * b3;
    } else {
      assert v / 0x100_0000 == b3;
    }
  }

  /** A 32-bit write at `a` leaves the value at a non-overlapping `b` alone. */
  lemma LoadStoreOther(mem: Memory, a: nat, v: u32, b: nat)
    requires a + 4 <= EEPROM_SIZE && b + 4 <= EEPROM_SIZE
    requires a + 4 <= b || b + 4 <= a
    ensures LoadU32(StoreU32(mem, a, v), b) == LoadU32(mem, b)
  {
  }

  /** A 32-bit read at `b` after a 32-bit write at `a`, where the two are the
      same location or do not overlap. */
  lemma LoadAfterStore(mem: Memory, a: nat, v: u32, b: nat)
    requires a + 4 <= EEPROM_SIZE && b + 4 <= EEPROM_SIZE
    requires a == b || a + 4 <= b || b + 4 <= a
    ensures LoadU32(StoreU32(mem, a, v), b) == if a == b then v else LoadU32(mem, b)
  {
    if a == b {
      LoadStoreSame(mem, a, v);
    } else {
      LoadStoreOther(mem, a, v, b);
    }
  }

  // ---------------------------------------------------------------------
  // The memory map
  // ---------------------------------------------------------------------

  /** The persisted fields of the memory map. */
  datatype Field =
    | TotalLiters | CurrentMonth | PreviousMonth | CurrentDay
    | Calibration | LastMonth | LastDay | CostPerLiter
    | DailyLogSlot(slot: nat)

  function FieldAddress(f: Field): nat
  {
    match f
    case TotalLiters => ADDR_TOTAL_LITERS
    case CurrentMonth => ADDR_CURRENT_MONTH
    case PreviousMonth => ADDR_PREVIOUS_MONTH
    case CurrentDay => ADDR_CURRENT_DAY
    case Calibration => ADDR_CALIBRATION
    case LastMonth => ADDR_LAST_MONTH
    case LastDay => ADDR_LAST_DAY
    case CostPerLiter => ADDR_COST_PER_LITER
    case DailyLogSlot(k) => LogAddress(k)
  }

  function FieldWidth(f: Field): nat
  {
    if f == LastMonth || f == LastDay then 1 else 4
  }

  predicate InMap(f: Field)
  {
    f.DailyLogSlot? ==> f.slot < LOG_SLOTS
  }

  /** Distinct fields of the map occupy disjoint byte ranges, all of them
      inside bytes 0..149; the header fields end before the log starts. */
  lemma FieldsDisjoint(f: Field, g: Field)
    requires InMap(f) && InMap(g) && f != g
    ensures FieldAddress(f) + FieldWidth(f) <= FieldAddress(g)
         || FieldAddress(g) + FieldWidth(g) <= FieldAddress(f)
    ensures FieldAddress(f) + FieldWidth(f) <= MAP_END
    ensures !f.DailyLogSlot? ==> FieldAddress(f) + FieldWidth(f) <= ADDR_DAILY_LOG_START
  {
    if f.DailyLogSlot? && g.DailyLogSlot? {
      assert f.slot != g.slot;
    }
  }

  // ---------------------------------------------------------------------
  // Daily-log addressing
  // ---------------------------------------------------------------------

  /** `ADDR_DAILY_LOG_START + (logIndex * 4)`. */
  function LogAddress(index: int): int
  {
    ADDR_DAILY_LOG_START + index * SLOT_BYTES
  }

  /** `uint8_t logIndex = (lastDay - 1) % 30;`: the slot that receives the day
      that has just ended. The subtraction is done in int and the remainder
      truncates, so day 0 gives -1, which the uint8_t conversion turns into 255. */
  function LogIndex(lastDay: byte): (r: byte)
    ensures 1 <= lastDay ==> r == (lastDay - 1) % LOG_SLOTS
    ensures lastDay == 0 ==> r == 255
  {
    ToU8(CRem(lastDay - 1, LOG_SLOTS))
  }

  /** `(now.day - i - 1 + 30) % 30`: the slot shown as entry `i` (0..6) of the
      weekly history. */
  function WeeklyIndex(day: byte, i: nat): (r: int)
    requires i < 7
    ensures 0 <= r < LOG_SLOTS
    ensures r == (day - i - 1) % LOG_SLOTS
  {
    CRem(day - i - 1 + 30, LOG_SLOTS)
  }

  /** For every calendar day 1..31 the archived day's slot lies in the log area
      (bytes 30..149), clear of the header fields at bytes 0..25. */
  lemma LogSlotInLogArea(lastDay: byte)
    requires 1 <= lastDay <= 31
    ensures LogIndex(lastDay) < LOG_SLOTS
    ensures ADDR_DAILY_LOG_START <= LogAddress(LogIndex(lastDay))
    ensures LogAddress(LogIndex(lastDay)) + SLOT_BYTES <= MAP_END
    ensures InMap(DailyLogSlot(LogIndex(lastDay)))
  {
  }

  /** Calendar day 31 is archived into the same slot as day 1. */
  lemma Day31AliasesDay1()
    ensures LogIndex(31) == LogIndex(1) == 0
  {
  }

  /** A stored lastDay of 0 sends the archive to byte 1050, outside the memory
      map but inside the device; every other stored lastDay (including the
      0xFF of a blank EEPROM) hits one of the 30 slots. */
  lemma LogIndexOfAnyByte(lastDay: byte)
    ensures lastDay == 0 <==> LogIndex(lastDay) == 255
    ensures lastDay != 0 <==> LogIndex(lastDay) < LOG_SLOTS
    ensures lastDay == 0 ==> LogAddress(LogIndex(lastDay)) == 1050
    ensures LogAddress(LogIndex(lastDay)) + SLOT_BYTES <= EEPROM_SIZE
  {
  }

  /** Weekly entry `i` (for i < day) is the slot into which calendar day
      `day - i` is archived when that day ends; entry 0 is therefore the slot
      of the current, not yet archived, day. */
  lemma WeeklyIndexIsLogIndex(day: byte, i: nat)
    requires i < 7 && i < day
    ensures WeeklyIndex(day, i) == LogIndex(day - i)
  {
  }
}
