/** The packed two-plane framebuffer as a value: what a fill produces, what a
    pixel write changes, and how a pixel is read back. The driver's in-place
    operations are proved against these functions. */
module FrameBuffer {
  import opened Colors
  import opened Geometry

  /** A buffer of the length allocated for this panel. */
  predicate WellSized(buf: seq<bv8>) {
    |buf| == BufferLength()
  }

  /** The bits a write leaves set inside its mask: all of them or none. */
  function OnBits(mask: bv8, on: bool): bv8
  {
    if on then mask else 0
  }

  /** Sets (on) or clears (not on) the bits of mask in b: the bits outside the
      mask are kept and the bits inside it become all ones or all zeros. */
  function SetBit(b: bv8, mask: bv8, on: bool): (r: bv8)
  {
    (b & !mask) | OnBits(mask, on)
  }

  /** The driver's `b |= mask`. */
  function SetMask(b: bv8, mask: bv8): bv8 {
    b | mask
  }

  /** The driver's `b &= ~mask`. */
  function ClearMask(b: bv8, mask: bv8): bv8 {
    b & !mask
  }

  /** SetBit is the driver's `b |= mask` when setting and `b &= ~mask` when clearing. */
  lemma SetBitAsWritten(b: bv8, mask: bv8, on: bool)
    ensures SetBit(b, mask, on) == if on then SetMask(b, mask) else ClearMask(b, mask)
  {
    if on {
      OrBits(b, mask);
    } else {
      AndNotBits(b, mask);
    }
  }

  lemma OrBits(b: bv8, m: bv8)
    ensures (b & !m) | m == b | m
  {
  }

  lemma AndNotBits(b: bv8, m: bv8)
    ensures (b & !m) | 0 == b & !m
  {
  }

  lemma OnBitsInside(m: bv8, on: bool)
    ensures OnBits(m, on) & !m == 0
  {
  }

  lemma KeepBits(b: bv8, m: bv8, v: bv8)
    requires v & !m == 0
    ensures ((b & !m) | v) & !m == b & !m
  {
  }

  lemma ReadBits(b: bv8, m: bv8, v: bv8)
    ensures ((b & !m) | v) & m == v & m
  {
  }

  lemma DisjointBits(b: bv8, m: bv8, v: bv8, m': bv8)
    requires m & m' == 0 && v & !m == 0
    ensures ((b & !m) | v) & m' == b & m'
  {
  }

  lemma OverrideBits(b: bv8, m: bv8, v1: bv8, v2: bv8)
    requires v1 & !m == 0
    ensures (((b & !m) | v1) & !m) | v2 == (b & !m) | v2
  {
  }

  lemma CommuteBits(b: bv8, m1: bv8, v1: bv8, m2: bv8, v2: bv8)
    requires m1 & m2 == 0 && v1 & !m1 == 0 && v2 & !m2 == 0
    ensures (((b & !m1) | v1) & !m2) | v2 == (((b & !m2) | v2) & !m1) | v1
  {
  }

  /** Setting or clearing the bits of a mask keeps every bit outside it. */
  lemma SetBitKeeps(b: bv8, m: bv8, on: bool)
    ensures SetBit(b, m, on) & !m == b & !m
  {
    OnBitsInside(m, on);
    KeepBits(b, m, OnBits(m, on));
  }

  /** After setting or clearing a non-empty mask, the mask's bits read as requested. */
  lemma SetBitReads(b: bv8, m: bv8, on: bool)
    requires m != 0
    ensures (SetBit(b, m, on) & m != 0) == on
  {
    ReadBits(b, m, OnBits(m, on));
  }

  /** Setting one mask does not disturb a disjoint mask. */
  lemma SetBitDisjoint(b: bv8, m: bv8, m': bv8, on: bool)
    requires m & m' == 0
    ensures SetBit(b, m, on) & m' == b & m'
  {
    OnBitsInside(m, on);
    DisjointBits(b, m, OnBits(m, on), m');
  }

  /** Setting a one-bit mask makes that bit read as requested and keeps every other bit. */
  lemma SetBitEffect(b: bv8, k: nat, on: bool)
    requires k < 8
    ensures (SetBit(b, Mask(k), on) & Mask(k) != 0) == on
    ensures SetBit(b, Mask(k), on) & !Mask(k) == b & !Mask(k)
  {
    MaskProperties(k, k);
    SetBitReads(b, Mask(k), on);
    SetBitKeeps(b, Mask(k), on);
  }

  /** Setting one bit does not disturb a bit at a different index. */
  lemma SetBitOther(b: bv8, k: nat, j: nat, on: bool)
    requires k < 8 && j < 8 && k != j
    ensures SetBit(b, Mask(k), on) & Mask(j) == b & Mask(j)
  {
    MaskProperties(j, k);
    SetBitDisjoint(b, Mask(k), Mask(j), on);
  }

  /** A second SetBit on the same mask overrides the first. */
  lemma SetBitOverride(b: bv8, mask: bv8, on1: bool, on2: bool)
    ensures SetBit(SetBit(b, mask, on1), mask, on2) == SetBit(b, mask, on2)
  {
    OnBitsInside(mask, on1);
    OverrideBits(b, mask, OnBits(mask, on1), OnBits(mask, on2));
  }

  /** The code stored for visible pixel (x, y): its bit in plane 1 and its bit in plane 2. */
  function PixelAt(buf: seq<bv8>, x: int, y: int): PlaneCode
    requires WellSized(buf) && InRange(x, y)
  {
    var pos, m := BytePos(x, y), Mask(BitIndex(x));
    Decode(buf[pos] & m != 0, buf[pos + HalfLength()] & m != 0)
  }

  /** The buffer after writing code p at (x, y). Off-screen coordinates leave
      it unchanged; otherwise only the pixel's bit in its plane-1 byte and in
      the matching plane-2 byte can change. */
  function SetPixel(buf: seq<bv8>, x: int, y: int, p: PlaneCode): (r: seq<bv8>)
    requires WellSized(buf)
    ensures WellSized(r)
    ensures !InRange(x, y) ==> r == buf
  {
    if !InRange(x, y) then buf
    else
      var pos, m, bits := BytePos(x, y), Mask(BitIndex(x)), Planes(p);
      buf[pos := SetBit(buf[pos], m, bits.0)][pos + HalfLength() := SetBit(buf[pos + HalfLength()], m, bits.1)]
  }

  /** A visible pixel write changes only the pixel's plane-1 byte and the
      matching plane-2 byte, and in those only the pixel's bit. */
  lemma SetPixelFrame(buf: seq<bv8>, x: int, y: int, p: PlaneCode)
    requires WellSized(buf) && InRange(x, y)
    ensures var r, pos := SetPixel(buf, x, y, p), BytePos(x, y);
      forall i :: 0 <= i < |buf| && i != pos && i != pos + HalfLength() ==> r[i] == buf[i]
    ensures var r, pos, m := SetPixel(buf, x, y, p), BytePos(x, y), Mask(BitIndex(x));
      r[pos] & !m == buf[pos] & !m && r[pos + HalfLength()] & !m == buf[pos + HalfLength()] & !m
  {
    var pos, m, bits := BytePos(x, y), Mask(BitIndex(x)), Planes(p);
    SetBitKeeps(buf[pos], m, bits.0);
    SetBitKeeps(buf[pos + HalfLength()], m, bits.1);
  }

  /** Reading a pixel right after writing it gives the written code. */
  lemma SetPixelReadBack(buf: seq<bv8>, x: int, y: int, p: PlaneCode)
    requires WellSized(buf) && InRange(x, y)
    ensures PixelAt(SetPixel(buf, x, y, p), x, y) == p
  {
    var k := BitIndex(x);
    SetBitEffect(buf[BytePos(x, y)], k, Planes(p).0);
    SetBitEffect(buf[BytePos(x, y) + HalfLength()], k, Planes(p).1);
    PlanesRoundTrip(p, false, false);
  }

  /** Writing one pixel leaves every other visible pixel as it was. */
  lemma SetPixelOthers(buf: seq<bv8>, x: int, y: int, p: PlaneCode, x': int, y': int)
    requires WellSized(buf) && InRange(x, y) && InRange(x', y')
    requires x != x' || y != y'
    ensures PixelAt(SetPixel(buf, x, y, p), x', y') == PixelAt(buf, x', y')
  {
    var pos, pos' := BytePos(x, y), BytePos(x', y');
    var h' := pos' + HalfLength();
    var m' := Mask(BitIndex(x'));
    var r := SetPixel(buf, x, y, p);
    if pos == pos' {
      SameByteOtherBit(buf, x, y, p, x', y');
    } else {
      assert r[pos'] == buf[pos'] && r[h'] == buf[h'];
    }
    SamePixel(r, buf, x', y');
  }

  /** Writing a pixel keeps the bits of a different pixel that shares its byte. */
  lemma SameByteOtherBit(buf: seq<bv8>, x: int, y: int, p: PlaneCode, x': int, y': int)
    requires WellSized(buf) && InRange(x, y) && InRange(x', y')
    requires x != x' || y != y'
    requires BytePos(x, y) == BytePos(x', y')
    ensures var r, pos, m' := SetPixel(buf, x, y, p), BytePos(x', y'), Mask(BitIndex(x'));
      r[pos] & m' == buf[pos] & m' && r[pos + HalfLength()] & m' == buf[pos + HalfLength()] & m'
  {
    var pos := BytePos(x', y');
    var h := pos + HalfLength();
    var k, k' := BitIndex(x), BitIndex(x');
    assert k != k' by {
      if k == k' {
        AddressInjective(x, y, x', y');
      }
    }
    var r := SetPixel(buf, x, y, p);
    SetPixelShape(buf, x, y, p);
    assert r[pos] == SetBit(buf[pos], Mask(k), Planes(p).0);
    assert r[h] == SetBit(buf[h], Mask(k), Planes(p).1);
    SetBitOther(buf[pos], k, k', Planes(p).0);
    SetBitOther(buf[h], k, k', Planes(p).1);
  }

  /** Two buffers whose pixel bits agree in both planes hold the same code there. */
  lemma SamePixel(a: seq<bv8>, b: seq<bv8>, x: int, y: int)
    requires WellSized(a) && WellSized(b) && InRange(x, y)
    requires var pos, m := BytePos(x, y), Mask(BitIndex(x));
      a[pos] & m == b[pos] & m && a[pos + HalfLength()] & m == b[pos + HalfLength()] & m
    ensures PixelAt(a, x, y) == PixelAt(b, x, y)
  {
  }

  /** A second write to the same pixel overrides the first completely. */
  lemma SetPixelLastWins(buf: seq<bv8>, x: int, y: int, p: PlaneCode, q: PlaneCode)
    requires WellSized(buf)
    ensures SetPixel(SetPixel(buf, x, y, p), x, y, q) == SetPixel(buf, x, y, q)
  {
    if InRange(x, y) {
      var pos, m := BytePos(x, y), Mask(BitIndex(x));
      var h := pos + HalfLength();
      var bp, bq := Planes(p), Planes(q);
      var v, w := SetBit(buf[pos], m, bp.0), SetBit(buf[h], m, bp.1);
      var mid := buf[pos := v][h := w];
      SetPixelShape(buf, x, y, p);
      SetPixelShape(buf, x, y, q);
      SetPixelShape(mid, x, y, q);
      assert mid[pos] == v && mid[h] == w;
      SetBitOverride(buf[pos], m, bp.0, bq.0);
      SetBitOverride(buf[h], m, bp.1, bq.1);
      UpdatesOverride(buf, pos, v, h, w, SetBit(v, m, bq.0), SetBit(w, m, bq.1));
    }
  }

  /** Writes to two different pixels can be done in either order. */
  lemma SetPixelCommute(buf: seq<bv8>, x1: int, y1: int, p: PlaneCode, x2: int, y2: int, q: PlaneCode)
    requires WellSized(buf)
    requires x1 != x2 || y1 != y2
    ensures SetPixel(SetPixel(buf, x1, y1, p), x2, y2, q) == SetPixel(SetPixel(buf, x2, y2, q), x1, y1, p)
  {
    if InRange(x1, y1) && InRange(x2, y2) {
      if BytePos(x1, y1) == BytePos(x2, y2) {
        CommuteSameByte(buf, x1, y1, p, x2, y2, q);
      } else {
        CommuteApart(buf, x1, y1, p, x2, y2, q);
      }
    }
  }

  /** A visible pixel write is two byte updates: plane 1 at the pixel's byte, plane 2 HalfLength() further. */
  lemma SetPixelShape(buf: seq<bv8>, x: int, y: int, p: PlaneCode)
    requires WellSized(buf) && InRange(x, y)
    ensures var pos, m := BytePos(x, y), Mask(BitIndex(x));
      SetPixel(buf, x, y, p)
      == buf[pos := SetBit(buf[pos], m, Planes(p).0)][pos + HalfLength() := SetBit(buf[pos + HalfLength()], m, Planes(p).1)]
  {
  }

  /** Two different pixels of the same byte: their bits differ, and setting them commutes. */
  lemma CommuteSameByte(buf: seq<bv8>, x1: int, y1: int, p: PlaneCode, x2: int, y2: int, q: PlaneCode)
    requires WellSized(buf) && InRange(x1, y1) && InRange(x2, y2)
    requires x1 != x2 || y1 != y2
    requires BytePos(x1, y1) == BytePos(x2, y2)
    ensures SetPixel(SetPixel(buf, x1, y1, p), x2, y2, q) == SetPixel(SetPixel(buf, x2, y2, q), x1, y1, p)
  {
    var pos := BytePos(x1, y1);
    var h := pos + HalfLength();
    var k1, k2 := BitIndex(x1), BitIndex(x2);
    var m1, m2 := Mask(k1), Mask(k2);
    var bp, bq := Planes(p), Planes(q);
    assert k1 != k2 by {
      if k1 == k2 {
        AddressInjective(x1, y1, x2, y2);
      }
    }
    var v1, w1 := SetBit(buf[pos], m1, bp.0), SetBit(buf[h], m1, bp.1);
    var v2, w2 := SetBit(buf[pos], m2, bq.0), SetBit(buf[h], m2, bq.1);
    var mid1, mid2 := buf[pos := v1][h := w1], buf[pos := v2][h := w2];
    SetPixelShape(buf, x1, y1, p);
    SetPixelShape(buf, x2, y2, q);
    SetPixelShape(mid1, x2, y2, q);
    SetPixelShape(mid2, x1, y1, p);
    UpdatesOverride(buf, pos, v1, h, w1, SetBit(v1, m2, bq.0), SetBit(w1, m2, bq.1));
    UpdatesOverride(buf, pos, v2, h, w2, SetBit(v2, m1, bp.0), SetBit(w2, m1, bp.1));
    MaskProperties(k1, k2);
    SetBitCommute(buf[pos], m1, m2, bp.0, bq.0);
    SetBitCommute(buf[h], m1, m2, bp.1, bq.1);
  }

  /** Pixels in different bytes touch four different bytes, so the writes commute. */
  lemma CommuteApart(buf: seq<bv8>, x1: int, y1: int, p: PlaneCode, x2: int, y2: int, q: PlaneCode)
    requires WellSized(buf) && InRange(x1, y1) && InRange(x2, y2)
    requires BytePos(x1, y1) != BytePos(x2, y2)
    ensures SetPixel(SetPixel(buf, x1, y1, p), x2, y2, q) == SetPixel(SetPixel(buf, x2, y2, q), x1, y1, p)
  {
    var pos1, pos2 := BytePos(x1, y1), BytePos(x2, y2);
    var h1, h2 := pos1 + HalfLength(), pos2 + HalfLength();
    var m1, m2 := Mask(BitIndex(x1)), Mask(BitIndex(x2));
    var bp, bq := Planes(p), Planes(q);
    var v1, w1 := SetBit(buf[pos1], m1, bp.0), SetBit(buf[h1], m1, bp.1);
    var v2, w2 := SetBit(buf[pos2], m2, bq.0), SetBit(buf[h2], m2, bq.1);
    var mid1, mid2 := buf[pos1 := v1][h1 := w1], buf[pos2 := v2][h2 := w2];
    SetPixelShape(buf, x1, y1, p);
    SetPixelShape(buf, x2, y2, q);
    SetPixelShape(mid1, x2, y2, q);
    SetPixelShape(mid2, x1, y1, p);
    assert mid1[pos2] == buf[pos2] && mid1[h2] == buf[h2];
    assert mid2[pos1] == buf[pos1] && mid2[h1] == buf[h1];
    assert SetPixel(mid1, x2, y2, q) == mid1[pos2 := v2][h2 := w2];
    assert SetPixel(mid2, x1, y1, p) == mid2[pos1 := v1][h1 := w1];
    UpdatesCommute(buf, pos1, v1, h1, w1, pos2, v2, h2, w2);
  }

  /** A second pair of updates at the same two positions overrides the first. */
  lemma UpdatesOverride<T>(s: seq<T>, i: nat, v: T, j: nat, w: T, v': T, w': T)
    requires i < |s| && j < |s| && i != j
    ensures s[i := v][j := w][i := v'][j := w'] == s[i := v'][j := w']
  {
    var a, b := s[i := v][j := w][i := v'][j := w'], s[i := v'][j := w'];
    assert forall k :: 0 <= k < |s| ==> a[k] == b[k];
  }

  /** Two pairs of updates at four different positions can be applied in either order. */
  lemma UpdatesCommute<T>(s: seq<T>, i1: nat, v1: T, j1: nat, w1: T, i2: nat, v2: T, j2: nat, w2: T)
    requires i1 < |s| && j1 < |s| && i2 < |s| && j2 < |s|
    requires i1 != i2 && i1 != j2 && j1 != i2 && j1 != j2
    ensures s[i1 := v1][j1 := w1][i2 := v2][j2 := w2] == s[i2 := v2][j2 := w2][i1 := v1][j1 := w1]
  {
    var a, b := s[i1 := v1][j1 := w1][i2 := v2][j2 := w2], s[i2 := v2][j2 := w2][i1 := v1][j1 := w1];
    assert forall i :: 0 <= i < |s| ==> a[i] == b[i];
  }

  /** Setting two disjoint masks can be done in either order. */
  lemma SetBitCommute(b: bv8, m1: bv8, m2: bv8, on1: bool, on2: bool)
    requires m1 & m2 == 0
    ensures SetBit(SetBit(b, m1, on1), m2, on2) == SetBit(SetBit(b, m2, on2), m1, on1)
  {
    OnBitsInside(m1, on1);
    OnBitsInside(m2, on2);
    CommuteBits(b, m1, OnBits(m1, on1), m2, OnBits(m2, on2));
  }

  /** The buffer a fill with code p produces: plane 1 all of its first fill
      byte, plane 2 all of its second. */
  function Filled(p: PlaneCode): (buf: seq<bv8>)
    ensures WellSized(buf)
  {
    var bytes := FillBytes(p);
    seq(BufferLength(), i => if i < HalfLength() then bytes.0 else bytes.1)
  }

  /** A filled buffer holds the first fill byte throughout plane 1 and the second throughout plane 2. */
  lemma FilledAt(p: PlaneCode, i: int)
    requires 0 <= i < BufferLength()
    ensures Filled(p)[i] == if i < HalfLength() then FillBytes(p).0 else FillBytes(p).1
  {
  }

  /** After a fill, every visible pixel reads back as the filled code. */
  lemma FilledReadBack(p: PlaneCode, x: int, y: int)
    requires InRange(x, y)
    ensures PixelAt(Filled(p), x, y) == p
  {
    var m := Mask(BitIndex(x));
    MaskProperties(BitIndex(x), BitIndex(x));
    FillBytesAgreeWithPlanes(p, m);
    PlanesRoundTrip(p, false, false);
  }
}
