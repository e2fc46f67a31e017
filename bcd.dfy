/** The packed binary-coded-decimal conversions used at the real-time-clock
    boundary: the clock keeps each calendar field as two decimal digits, the
    tens in the high nibble and the ones in the low nibble. Both conversions
    work on uint8_t and truncate their result to a byte. */
module Bcd {
  import opened Machine

  /** A byte whose two nibbles are both decimal digits. */
  predicate IsBcd(b: byte)
  {
    b / 16 <= 9 && b % 16 <= 9
  }

  /** bcd2dec: `val - 6 * (val >> 4)`. The high nibble counts tens and the
      low nibble ones, for every byte (a non-BCD nibble is taken at face value). */
  function Bcd2Dec(val: byte): (r: byte)
    ensures r == 10 * (val / 16) + val % 16
  {
    ToU8(val - 6 * (val / 16))
  }

  /** dec2bcd: `val + 6 * (val / 10)`. For a two-digit value the tens digit
      lands in the high nibble and the ones digit in the low nibble. */
  function Dec2Bcd(val: byte): (r: byte)
    ensures val < 100 ==> r == 16 * (val / 10) + val % 10 && IsBcd(r)
  {
    ToU8(val + 6 * (val / 10))
  }

  /** Decoding what was encoded gives back every value in 0..99. */
  lemma DecBcdRoundTrip(v: byte)
    requires v < 100
    ensures Bcd2Dec(Dec2Bcd(v)) == v
  {
    var t, o := v / 10, v % 10;
    assert Dec2Bcd(v) == 16 * t + o;
    assert (16 * t + o) / 16 == t && (16 * t + o) % 16 == o;
  }

  /** Encoding what was decoded gives back every BCD byte. */
  lemma BcdDecRoundTrip(b: byte)
    requires IsBcd(b)
    ensures Dec2Bcd(Bcd2Dec(b)) == b
  {
    var h, l := b / 16, b % 16;
    assert Bcd2Dec(b) == 10 * h + l;
    assert (10 * h + l) / 10 == h && (10 * h + l) % 10 == l;
  }

  /** A value above 99 has no BCD form: dec2bcd(100) is 0xA0, whose high
      nibble is not a decimal digit. */
  lemma Dec2BcdOutOfRange()
    ensures Dec2Bcd(100) == 0xA0 && !IsBcd(Dec2Bcd(100))
  {
  }
}
