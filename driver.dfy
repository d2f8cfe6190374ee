/** The three-colour e-paper driver object: its framebuffer, its refresh
    counter and the byte stream it has sent to the panel controller. Pin
    levels, chip select, delays and logging are not modelled; a transfer is
    recorded as the command and data bytes it puts on the wire. */
module Driver {
  import opened Colors
  import opened Geometry
  import opened FrameBuffer
  import opened Cadence
  import opened Protocol
  import opened Commands

  class EPaperBwr {
    /** The packed framebuffer: plane 1 in the first half, plane 2 in the second. */
    var buffer: array<bv8>
    /** Refreshes since the last full one, modulo the cadence length. */
    var atUpdate: nat
    /** Every how many refreshes a full one is done. */
    var fullUpdateEvery: nat
    /** Every byte sent to the controller so far, in order. */
    var trace: seq<Event>

    /** The buffer has the panel's length and the counters fit in 32 bits. */
    ghost predicate Valid()
      reads this
    {
      buffer.Length == BufferLength() && atUpdate < U32 && fullUpdateEvery < U32
    }

    /** Allocates the framebuffer for the panel's geometry and clears it
        with the all-zero colour, which this driver's fill turns into white;
        the counter starts at 0 and nothing has been sent. */
    constructor (fullUpdateEvery: nat)
      requires fullUpdateEvery < U32
      ensures Valid() && fresh(buffer)
      ensures buffer[..] == Filled(White)
      ensures atUpdate == 0 && this.fullUpdateEvery == fullUpdateEvery && trace == []
    {
      buffer := new bv8[BufferLength()];
      atUpdate := 0;
      this.fullUpdateEvery := fullUpdateEvery;
      trace := [];
      new;
      Fill(Color(0, 0, 0, 0));
    }

    /** Sets the cadence length; nothing else changes. */
    method SetFullUpdateEvery(every: nat)
      requires Valid() && every < U32
      modifies this`fullUpdateEvery
      ensures Valid() && fullUpdateEvery == every
    {
      fullUpdateEvery := every;
    }

    /** Sends one opcode (command). */
    method Command(op: bv8)
      modifies this`trace
      ensures trace == old(trace) + [Cmd(op)]
    {
      trace := trace + [Cmd(op)];
    }

    /** Sends one data byte (data). */
    method SendByte(value: bv8)
      modifies this`trace
      ensures trace == old(trace) + [Data(value)]
    {
      trace := trace + [Data(value)];
    }

    /** Sends a run of data bytes under one chip select (write_array). */
    method SendData(bytes: seq<bv8>)
      modifies this`trace
      ensures trace == old(trace) + DataEvents(bytes)
    {
      var i := 0;
      while i < |bytes|
        invariant 0 <= i <= |bytes|
        invariant trace == old(trace) + DataEvents(bytes[..i])
      {
        assert DataEvents(bytes[..i + 1]) == DataEvents(bytes[..i]) + [Data(bytes[i])];
        trace := trace + [Data(bytes[i])];
        i := i + 1;
      }
      assert bytes[..i] == bytes;
    }

    /** Sends an opcode and its data in one transfer: the first byte is the
        opcode, the rest are its data. */
    method CmdData(bytes: seq<bv8>)
      requires |bytes| >= 1
      modifies this`trace
      ensures trace == old(trace) + Flatten([Transaction(bytes[0], bytes[1..])])
    {
      Command(bytes[0]);
      SendData(bytes[1..]);
      assert [Transaction(bytes[0], bytes[1..])][1..] == [];
    }

    /** The busy gate. It returns only once the busy line reads idle and it
        always reports success, so a caller never takes its failure path. */
    method WaitUntilIdle() returns (idle: bool)
      ensures idle
    {
      idle := true;
    }

    /** Fills the whole buffer with the colour's plane bytes. */
    method Fill(c: Color)
      requires Valid()
      modifies buffer
      ensures buffer[..] == Filled(Classify(c))
    {
      var buflen := BufferLength();
      var c1: bv8, c2: bv8 := 0, 0;
      if c.white == 255 && c.red == 255 && c.green == 255 && c.blue == 255 {
        c1, c2 := 0x00, 0x00;
      } else if c.red > 0 && c.green == 0 && c.blue == 0 {
        c1, c2 := 0xFF, 0xFF;
      } else {
        c1, c2 := 0xFF, 0x00;
      }
      assert (c1, c2) == FillBytes(Classify(c));
      var i := 0;
      while i < buflen / 2
        invariant 0 <= i <= buflen / 2
        invariant forall j :: 0 <= j < i ==> buffer[j] == c1
      {
        buffer[i] := c1;
        i := i + 1;
      }
      while i < buflen
        invariant buflen / 2 <= i <= buflen
        invariant forall j :: 0 <= j < buflen / 2 ==> buffer[j] == c1
        invariant forall j :: buflen / 2 <= j < i ==> buffer[j] == c2
      {
        buffer[i] := c2;
        i := i + 1;
      }
      ghost var filled := Filled(Classify(c));
      forall j | 0 <= j < buflen
        ensures filled[j] == if j < buflen / 2 then c1 else c2
      {
        FilledAt(Classify(c), j);
      }
      assert forall j :: 0 <= j < buflen ==> buffer[j] == filled[j];
    }

    /** Writes one pixel in place: sets or clears its bit in plane 1 and in
        plane 2; off-screen coordinates are ignored. */
    method DrawAbsolutePixelInternal(x: int, y: int, c: Color)
      requires Valid()
      modifies buffer
      ensures buffer[..] == SetPixel(old(buffer[..]), x, y, Classify(c))
    {
      if x >= VisibleWidth || y >= Height || x < 0 || y < 0 {
        return;
      }
      var bufHalfLen := BufferLength() / 2;
      var pos := (x + y * ControllerWidth) / 8;
      var subpos := x % 8;
      var mask: bv8 := (0x80 as bv8) >> subpos;
      assert mask == Mask(BitIndex(x)) by { MaskIsShift(subpos); }
      ghost var code := Classify(c);
      ghost var b1, b2 := buffer[pos], buffer[pos + bufHalfLen];
      if c.white == 255 && c.red == 255 && c.green == 255 && c.blue == 255 {
        buffer[pos] := ClearMask(buffer[pos], mask);
        buffer[pos + bufHalfLen] := ClearMask(buffer[pos + bufHalfLen], mask);
        assert code == Black;
        SetBitAsWritten(b1, mask, false);
        SetBitAsWritten(b2, mask, false);
      } else if c.red > 0 && c.green == 0 && c.blue == 0 {
        buffer[pos] := SetMask(buffer[pos], mask);
        buffer[pos + bufHalfLen] := SetMask(buffer[pos + bufHalfLen], mask);
        assert code == Red;
        SetBitAsWritten(b1, mask, true);
        SetBitAsWritten(b2, mask, true);
      } else {
        buffer[pos] := SetMask(buffer[pos], mask);
        buffer[pos + bufHalfLen] := ClearMask(buffer[pos + bufHalfLen], mask);
        assert code == White;
        SetBitAsWritten(b1, mask, true);
        SetBitAsWritten(b2, mask, false);
      }
      SetPixelShape(old(buffer[..]), x, y, code);
    }

    /** Uploads a waveform table: the LUT opcode and the table's first size entries. */
    method WriteLut(lut: seq<bv8>, size: nat)
      requires size <= |lut|
      modifies this`trace
      ensures trace == old(trace) + Flatten([Transaction(WriteLutRegister, lut[..size])])
    {
      Command(WriteLutRegister);
      for i := 0 to size
        invariant trace == old(trace) + [Cmd(WriteLutRegister)] + DataEvents(lut[..i])
      {
        assert DataEvents(lut[..i + 1]) == DataEvents(lut[..i]) + [Data(lut[i])];
        SendByte(lut[i]);
      }
      assert [Transaction(WriteLutRegister, lut[..size])][1..] == [];
    }

    /** The initialisation sequence sent after the reset pulse. */
    method InitDisplay()
      modifies this`trace
      ensures trace == old(trace) + Flatten(InitTxs())
    {
      var idle := WaitUntilIdle();
      ghost var mark := trace;
      Command(SwReset);
      Sent0(SwReset, mark, trace);
      idle := WaitUntilIdle();
      mark := trace;
      Command(DriverOutputControl);
      SendByte(LastLineLow);
      SendByte(LastLineHigh);
      SendByte(0x00);
      Sent3(DriverOutputControl, LastLineLow, LastLineHigh, 0x00, mark, trace);
      mark := trace;
      Command(BoosterSoftStart);
      SendByte(0xD7);
      SendByte(0xD6);
      SendByte(0x9D);
      Sent3(BoosterSoftStart, 0xD7, 0xD6, 0x9D, mark, trace);
      mark := trace;
      Command(WriteVcom);
      SendByte(0xA8);
      Sent1(WriteVcom, 0xA8, mark, trace);
      mark := trace;
      Command(DummyLinePeriod);
      SendByte(0x1A);
      Sent1(DummyLinePeriod, 0x1A, mark, trace);
      mark := trace;
      Command(GateTime);
      SendByte(0x08);
      Sent1(GateTime, 0x08, mark, trace);
      mark := trace;
      Command(DataEntryMode);
      SendByte(0x03);
      Sent1(DataEntryMode, 0x03, mark, trace);
      mark := trace;
      Command(RamContentOption);
      SendByte(0x00);
      SendByte(0x80);
      Sent2(RamContentOption, 0x00, 0x80, mark, trace);
      InitStream(old(trace));
    }

    /** Sets VCOM for the refresh mode. */
    method SendVcom(fullUpdate: bool)
      modifies this`trace
      ensures trace == old(trace) + Flatten(VcomPhase(fullUpdate))
    {
      ghost var mark := trace;
      Command(WriteVcom);
      SendByte(if fullUpdate then 0x55 else 0x26);
      Sent1(WriteVcom, if fullUpdate then 0x55 else 0x26, mark, trace);
    }

    /** Enables ping-pong and activates with the partial-update flag. */
    method SendPingPong()
      modifies this`trace
      ensures trace == old(trace) + Flatten(PingPongPhase(false))
    {
      ghost var mark := trace;
      Command(PingPong);
      SendByte(0x00);
      SendByte(0x00);
      SendByte(0x00);
      SendByte(0x00);
      SendByte(0x40);
      SendByte(0x00);
      SendByte(0x00);
      Sent7(PingPong, 0x00, 0x00, 0x00, 0x00, 0x40, 0x00, 0x00, mark, trace);
      mark := trace;
      Command(UpdateControl2);
      SendByte(0xC0);
      Sent1(UpdateControl2, 0xC0, mark, trace);
      mark := trace;
      Command(MasterActivation);
      Sent0(MasterActivation, mark, trace);
      SendThree(old(trace), Transaction(PingPong, PingPongPayload), Transaction(UpdateControl2, [0xC0]), Transaction(MasterActivation, []));
    }

    /** Sets the border waveform: 0x00, then white in either mode. */
    method SendBorder(fullUpdate: bool)
      modifies this`trace
      ensures trace == old(trace) + Flatten(BorderPhase(fullUpdate))
    {
      ghost var mark := trace;
      Command(BorderWaveform);
      SendByte(0x00);
      Sent1(BorderWaveform, 0x00, mark, trace);
      mark := trace;
      Command(BorderWaveform);
      var borderColorCode := BorderColorWhite;
      var value: bv8 := if fullUpdate then borderColorCode else 0x01;
      SendByte(value);
      Sent1(BorderWaveform, value, mark, trace);
      SendTwo(old(trace), Transaction(BorderWaveform, [0x00]), Transaction(BorderWaveform, [value]));
    }

    /** Sets the RAM window to the whole panel and both address counters to 0. */
    method SendRamWindow()
      modifies this`trace
      ensures trace == old(trace) + Flatten(RamWindowPhase())
    {
      ghost var mark := trace;
      Command(RamXWindow);
      SendByte(0x00);
      SendByte(RamXEnd);
      Sent2(RamXWindow, 0x00, RamXEnd, mark, trace);
      mark := trace;
      Command(RamYWindow);
      SendByte(0x00);
      SendByte(0x00);
      SendByte(LastLineLow);
      SendByte(LastLineHigh);
      Sent4(RamYWindow, 0x00, 0x00, LastLineLow, LastLineHigh, mark, trace);
      mark := trace;
      Command(RamXCounter);
      SendByte(0x00);
      Sent1(RamXCounter, 0x00, mark, trace);
      mark := trace;
      Command(RamYCounter);
      SendByte(0x00);
      SendByte(0x00);
      Sent2(RamYCounter, 0x00, 0x00, mark, trace);
      SendFour(old(trace), Transaction(RamXWindow, [0x00, RamXEnd]), Transaction(RamYWindow, [0x00, 0x00, LastLineLow, LastLineHigh]),
               Transaction(RamXCounter, [0x00]), Transaction(RamYCounter, [0x00, 0x00]));
    }

    /** Writes plane 1 to the black RAM and plane 2 to the red RAM. */
    method SendPlanes()
      requires Valid()
      modifies this`trace
      ensures trace == old(trace) + Flatten(RamWritePhase(buffer[..]))
    {
      var bufLenHalf := BufferLength() / 2;
      ghost var mark := trace;
      Command(WriteBlackRam);
      SendData(buffer[..bufLenHalf]);
      Sent(WriteBlackRam, buffer[..bufLenHalf], mark, trace);
      mark := trace;
      Command(WriteRedRam);
      SendData(buffer[bufLenHalf..bufLenHalf + bufLenHalf]);
      Sent(WriteRedRam, buffer[bufLenHalf..bufLenHalf + bufLenHalf], mark, trace);
      assert buffer[..bufLenHalf] == buffer[..][..HalfLength()];
      assert buffer[bufLenHalf..bufLenHalf + bufLenHalf] == buffer[..][HalfLength()..];
      SendTwo(old(trace), Transaction(WriteBlackRam, buffer[..][..HalfLength()]),
              Transaction(WriteRedRam, buffer[..][HalfLength()..]));
    }

    /** Update control for the mode, master activation, terminate frame. */
    method SendActivation(fullUpdate: bool)
      modifies this`trace
      ensures trace == old(trace) + Flatten(ActivationPhase(fullUpdate))
    {
      ghost var mark := trace;
      Command(UpdateControl2);
      SendByte(if fullUpdate then 0xC7 else 0x0C);
      Sent1(UpdateControl2, if fullUpdate then 0xC7 else 0x0C, mark, trace);
      mark := trace;
      Command(MasterActivation);
      Sent0(MasterActivation, mark, trace);
      mark := trace;
      Command(TerminateFrame);
      Sent0(TerminateFrame, mark, trace);
      SendThree(old(trace), Transaction(UpdateControl2, [if fullUpdate then 0xC7 else 0x0C]), Transaction(MasterActivation, []),
                Transaction(TerminateFrame, []));
    }

    /** Everything a refresh sends after the waveform upload and the counter
        step: the mode registers, the RAM window, both planes and activation. */
    method SendRefresh(fullUpdate: bool)
      requires Valid()
      modifies this`trace
      ensures trace == old(trace) + Flatten(VcomPhase(fullUpdate)) + Flatten(PingPongPhase(fullUpdate))
        + Flatten(BorderPhase(fullUpdate)) + Flatten(RamWindowPhase()) + Flatten(RamWritePhase(buffer[..]))
        + Flatten(ActivationPhase(fullUpdate))
    {
      SendVcom(fullUpdate);
      if !fullUpdate {
        SendPingPong();
      } else {
        assert Flatten(PingPongPhase(fullUpdate)) == [];
      }
      assert trace == old(trace) + Flatten(VcomPhase(fullUpdate)) + Flatten(PingPongPhase(fullUpdate));
      SendBorder(fullUpdate);
      SendRamWindow();
      var idle := WaitUntilIdle();
      SendPlanes();
      SendActivation(fullUpdate);
    }

    /** One refresh: the waveform upload when the cadence calls for it, the
        counter step, then the rest of the refresh. The framebuffer is not
        changed. */
    method Display()
      requires Valid() && fullUpdateEvery >= 1
      modifies this`trace, this`atUpdate
      ensures Valid()
      ensures atUpdate == Advance(old(atUpdate), fullUpdateEvery)
      ensures trace == old(trace) + Flatten(DisplayTxs(old(atUpdate), fullUpdateEvery, buffer[..]))
    {
      var fullUpdate := atUpdate == 0;
      var prevFullUpdate := atUpdate == 1;
      ghost var before := atUpdate;

      var idle := WaitUntilIdle();
      if fullUpdateEvery >= 1 {
        if fullUpdate != prevFullUpdate {
          var lut := LutBytes(if fullUpdate then FullRedLut else PartialLut);
          WriteLut(lut, LutSize);
          assert lut[..LutSize] == lut;
        }
      }
      assert trace == old(trace) + Flatten(LutPhase(before, fullUpdateEvery));
      atUpdate := ((atUpdate + 1) % U32) % fullUpdateEvery;
      assert atUpdate == Advance(before, fullUpdateEvery) && atUpdate < U32;
      SendRefresh(fullUpdate);
      assert trace == old(trace) + Flatten(DisplayTxs(before, fullUpdateEvery, buffer[..])) by {
        DisplayStream(old(trace), before, fullUpdateEvery, buffer[..]);
      }
    }
  }
}
