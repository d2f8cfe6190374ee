/** Panel geometry of the 2.13-inch three-colour display and the address
    arithmetic of the packed framebuffer. */
module Geometry {

  /** Visible width in pixels (get_width_internal). */
  const VisibleWidth: int := 122
  /** Width of the controller's RAM rows, used as the row stride (get_width_controller). */
  const ControllerWidth: int := 128
  /** Height in pixels (get_height_internal). */
  const Height: int := 250

  /** Bytes in the framebuffer: one bit per controller pixel in each of two planes. */
  function BufferLength(): (n: nat)
    ensures n == 8000
    ensures n % 2 == 0 && (n / 2) * 8 == ControllerWidth * Height
  {
    ControllerWidth * Height / 4
  }

  /** Bytes in one plane; plane 1 is [0, HalfLength), plane 2 is [HalfLength, BufferLength). */
  function HalfLength(): (n: nat)
    ensures n == 4000 && 2 * n == BufferLength()
  {
    BufferLength() / 2
  }

  /** The pixel write acts only on visible coordinates. */
  predicate InRange(x: int, y: int) {
    0 <= x < VisibleWidth && 0 <= y < Height
  }

  /** Byte of plane 1 holding pixel (x, y); the row stride is the controller width. */
  function BytePos(x: int, y: int): (pos: nat)
    requires InRange(x, y)
    ensures pos < HalfLength()
    ensures pos + HalfLength() < BufferLength()
  {
    (x + y * ControllerWidth) / 8
  }

  /** Index of the pixel's bit within its byte, counted from the most significant bit (x & 7). */
  function BitIndex(x: int): (k: nat)
    requires 0 <= x
    ensures k < 8
  {
    x % 8
  }

  /** The single-bit mask for bit index k, 0x80 >> k, as a table. */
  function Mask(k: nat): (m: bv8)
    requires k < 8
  {
    if k == 0 then 0x80 else if k == 1 then 0x40 else if k == 2 then 0x20 else if k == 3 then 0x10
    else if k == 4 then 0x08 else if k == 5 then 0x04 else if k == 6 then 0x02 else 0x01
  }

  /** The table is the shift the driver performs. */
  lemma MaskIsShift(k: nat)
    requires k < 8
    ensures Mask(k) == (0x80 as bv8) >> k
  {
  }

  /** Each mask has exactly one bit, so two different indices never share a bit. */
  lemma MaskProperties(j: nat, k: nat)
    requires j < 8 && k < 8
    ensures Mask(k) != 0
    ensures Mask(k) & (Mask(k) - 1) == 0
    ensures j != k ==> Mask(j) & Mask(k) == 0
  {
  }

  /** Addressing is injective: two visible pixels with the same byte and the
      same bit index are the same pixel. The address x + 128 * y determines
      (x, y) because x < 128, and the bit index is x mod 8 because 128 is a
      multiple of 8 (RowOffset). */
  lemma AddressInjective(x1: int, y1: int, x2: int, y2: int)
    requires InRange(x1, y1) && InRange(x2, y2)
    requires BytePos(x1, y1) == BytePos(x2, y2)
    requires BitIndex(x1) == BitIndex(x2)
    ensures x1 == x2 && y1 == y2
  {
    var a1, a2 := x1 + y1 * ControllerWidth, x2 + y2 * ControllerWidth;
    RowOffset(x1, y1);
    RowOffset(x2, y2);
    assert a1 == a2 by {
      assert a1 == 8 * (a1 / 8) + a1 % 8;
      assert a2 == 8 * (a2 / 8) + a2 % 8;
    }
  }

  /** A byte never mixes two rows: the stride 128 is a multiple of 8, so the
      byte of (x, y) is x / 8 + 16 * y with x / 8 < 16. */
  lemma ByteOneRow(x1: int, y1: int, x2: int, y2: int)
    requires InRange(x1, y1) && InRange(x2, y2)
    requires BytePos(x1, y1) == BytePos(x2, y2)
    ensures y1 == y2
  {
    RowByte(x1, y1);
    RowByte(x2, y2);
  }

  /** The byte of a visible pixel splits into its row and its column byte. */
  lemma RowByte(x: int, y: int)
    requires InRange(x, y)
    ensures BytePos(x, y) == x / 8 + 16 * y && x / 8 < 16
  {
    var a := x + y * ControllerWidth;
    var q := x / 8 + 16 * y;
    assert a == 8 * q + x % 8;
    var d := a / 8 - q;
    assert 8 * d == x % 8 - a % 8;
  }

  /** Adding whole rows keeps the bit index: the stride is a multiple of 8. */
  lemma RowOffset(x: int, y: int)
    requires 0 <= x && 0 <= y
    ensures (x + y * ControllerWidth) % 8 == x % 8
  {
    var a := x + y * ControllerWidth;
    var q := x / 8 + 16 * y;
    assert a == 8 * q + x % 8;
    var d := a / 8 - q;
    assert 8 * d == x % 8 - a % 8;
  }
}
