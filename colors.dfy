/** Colour classification and the two-bit plane code of the black/white/red panel.

    A pixel is stored as one bit in each of two bit-planes. Read as
    (plane-1 bit, plane-2 bit): 00 is black, 01 is off-white (never written),
    10 is white and 11 is red. */
module Colors {

  /** The drawing layer's colour: four 8-bit components. */
  datatype Color = Color(red: bv8, green: bv8, blue: bv8, white: bv8)

  /** The four codes two plane bits can hold. */
  datatype PlaneCode = Black | OffWhite | White | Red

  /** Every component at 255 selects black. */
  predicate IsBlackRequest(c: Color) {
    c.white == 255 && c.red == 255 && c.green == 255 && c.blue == 255
  }

  /** Some red and no green or blue selects red. */
  predicate IsRedRequest(c: Color) {
    c.red > 0 && c.green == 0 && c.blue == 0
  }

  /** The three-way classification shared by fill and the pixel write:
      black first, then red, everything else white. */
  function Classify(c: Color): (p: PlaneCode)
    ensures p != OffWhite
  {
    if IsBlackRequest(c) then Black
    else if IsRedRequest(c) then Red
    else White
  }

  /** The classification partitions all colours, and the red test does not
      depend on being checked after the black one: an all-255 colour has
      green 255 and can never be red. */
  lemma ClassifyPartition(c: Color)
    ensures Classify(c) == Black <==> IsBlackRequest(c)
    ensures Classify(c) == Red <==> IsRedRequest(c)
    ensures Classify(c) == White <==> !IsBlackRequest(c) && !IsRedRequest(c)
    ensures !(IsBlackRequest(c) && IsRedRequest(c))
  {
  }

  /** The (plane-1, plane-2) bits of a code. */
  function Planes(p: PlaneCode): (bits: (bool, bool))
  {
    match p
    case Black => (false, false)
    case OffWhite => (false, true)
    case White => (true, false)
    case Red => (true, true)
  }

  /** Reads a code back from its two plane bits. */
  function Decode(plane1: bool, plane2: bool): (p: PlaneCode)
  {
    if plane1 then (if plane2 then Red else White)
    else (if plane2 then OffWhite else Black)
  }

  /** Planes and Decode are inverse bijections between codes and bit pairs. */
  lemma PlanesRoundTrip(p: PlaneCode, plane1: bool, plane2: bool)
    ensures Decode(Planes(p).0, Planes(p).1) == p
    ensures Planes(Decode(plane1, plane2)) == (plane1, plane2)
  {
  }

  /** The bytes a whole-buffer fill writes into plane 1 and plane 2: eight
      copies of the code's plane bit. */
  function FillBytes(p: PlaneCode): (bytes: (bv8, bv8))
  {
    match p
    case Black => (0x00, 0x00)
    case OffWhite => (0x00, 0xFF)
    case White => (0xFF, 0x00)
    case Red => (0xFF, 0xFF)
  }

  /** Whatever bit a pixel write would test, the fill bytes carry the same
      value there as the single-pixel encoding: fill and the pixel write
      agree on the table. */
  lemma FillBytesAgreeWithPlanes(p: PlaneCode, mask: bv8)
    requires mask != 0
    ensures (FillBytes(p).0 & mask != 0) == Planes(p).0
    ensures (FillBytes(p).1 & mask != 0) == Planes(p).1
  {
  }
}
