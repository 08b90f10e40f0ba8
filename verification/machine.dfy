/** Fixed-width integer behaviour of the target toolchain that the driver relies on. */
module Machine {

  /** The range of `int16_t`, which is also LVGL's `lv_coord_t`. */
  type Int16 = x: int | -0x8000 <= x < 0x8000

  /** The ranges of `uint8_t` and `uint16_t`. */
  type UInt8 = x: int | 0 <= x < 0x100
  type UInt16 = x: int | 0 <= x < 0x1_0000

  /** Storing an `int` value into a `uint8_t` object keeps it modulo 2^8. */
  function ToUInt8(v: int): (r: UInt8)
    ensures (v - r) % 0x100 == 0
    ensures 0 <= v < 0x100 ==> r == v
  {
    v % 0x100
  }

  /** The `uint8_t` store has exactly one possible result: any value of the range
      congruent to `v` modulo 2^8 is the one `ToUInt8` picks. */
  lemma ToUInt8Unique(v: int, r: int)
    requires 0 <= r < 0x100
    requires (v - r) % 0x100 == 0
    ensures ToUInt8(v) == r
  {
    var c := ToUInt8(v);
    assert (c - r) % 0x100 == 0 by {
      assert (v - r) - (v - c) == c - r;
    }
    assert -0x100 < c - r < 0x100;
  }

  /** Storing an `int` value into an `int16_t` object. The ESP32 compilers keep the low
      16 bits and read them as two's complement, so the result is the unique value of the
      range that is congruent to `v` modulo 2^16. */
  function ToInt16(v: int): (r: Int16)
    ensures (v - r) % 0x1_0000 == 0
    ensures -0x8000 <= v < 0x8000 ==> r == v
  {
    var low := v % 0x1_0000;
    if low < 0x8000 then low else low - 0x1_0000
  }

  /** The conversion has exactly one possible result: any value of the range congruent to
      `v` is the one `ToInt16` picks. */
  lemma ToInt16Unique(v: int, r: int)
    requires -0x8000 <= r < 0x8000
    requires (v - r) % 0x1_0000 == 0
    ensures ToInt16(v) == r
  {
    var c := ToInt16(v);
    assert (c - r) % 0x1_0000 == 0 by {
      assert (v - r) - (v - c) == c - r;
    }
    assert -0x1_0000 < c - r < 0x1_0000;
  }

  /** Wrapping an intermediate result before a further subtraction changes nothing once
      the final result is wrapped too. */
  lemma ToInt16SubInner(a: int, b: int)
    ensures ToInt16(a - ToInt16(b)) == ToInt16(a - b)
  {
    var w := ToInt16(b);
    var r := ToInt16(a - w);
    assert (a - b) - r == ((a - w) - r) - (b - w);
    ToInt16Unique(a - b, r);
  }
}
