/** The command sequences the driver sends to the panel controller: the
    controller's opcodes, the waveform tables, the initialisation sequence and
    the phases of a refresh, with what each refresh writes to each register. */
module Commands {
  import opened Optional
  import opened Geometry
  import opened Cadence
  import opened Protocol

  /** The byte an int becomes when passed as uint8_t (reduced modulo 256). */
  function LowByte(n: int): bv8
  {
    (n % 256) as bv8
  }

  /** The last RAM column byte, (width - 1) >> 3, and the last gate line,
      height - 1, split into its low and high byte, as sent to the controller. */
  const RamXEnd: bv8 := 0x0F
  const LastLineLow: bv8 := 0xF9
  const LastLineHigh: bv8 := 0x00

  /** The geometry-derived bytes are what the panel's dimensions give when
      passed as uint8_t: (122 - 1) >> 3 is 0x0F, and the last line 249 is 0xF9
      in its low byte and 0x00 in its high byte. */
  lemma GeometryBytes()
    ensures LowByte((VisibleWidth - 1) / 8) == RamXEnd
    ensures LowByte(Height - 1) == LastLineLow
    ensures LowByte((Height - 1) / 256) == LastLineHigh
  {
  }

  /** Opcodes of the controller that the driver uses. */
  const SwReset: bv8 := 0x12
  const DriverOutputControl: bv8 := 0x01
  const BoosterSoftStart: bv8 := 0x0C
  const WriteVcom: bv8 := 0x2C
  const DummyLinePeriod: bv8 := 0x3A
  const GateTime: bv8 := 0x3B
  const DataEntryMode: bv8 := 0x11
  const RamContentOption: bv8 := 0x21
  const WriteLutRegister: bv8 := 0x32
  const PingPong: bv8 := 0x37
  const UpdateControl2: bv8 := 0x22
  const MasterActivation: bv8 := 0x20
  const BorderWaveform: bv8 := 0x3C
  const RamXWindow: bv8 := 0x44
  const RamYWindow: bv8 := 0x45
  const RamXCounter: bv8 := 0x4E
  const RamYCounter: bv8 := 0x4F
  const WriteBlackRam: bv8 := 0x24
  const WriteRedRam: bv8 := 0x26
  const TerminateFrame: bv8 := 0xFF

  /** Number of entries in a waveform table. */
  const LutSize: nat := 70

  /** The full-update waveform table that drives the red plane. */
  const FullUpdateLutRed: seq<bv8> := [
    0x48, 0xA0, 0x10, 0x10, 0x13, 0x00, 0x00,
    0x48, 0xA0, 0x80, 0x00, 0x03, 0x00, 0x00,
    0x00, 0x00, 0x00, 0x00, 0x00, 0x00, 0x00,
    0x48, 0xA5, 0x00, 0xBB, 0x00, 0x00, 0x00,
    0x00, 0x00, 0x00, 0x00, 0x00, 0x00, 0x00,
    0x40, 0x0C, 0x20, 0x0C, 0x06,
    0x10, 0x08, 0x04, 0x04, 0x06,
    0x04, 0x08, 0x08, 0x10, 0x10,
    0x02, 0x02, 0x02, 0x40, 0x20,
    0x02, 0x02, 0x02, 0x02, 0x02,
    0x00, 0x00, 0x00, 0x00, 0x00,
    0x00, 0x00, 0x00, 0x00, 0x00
  ]

  /** The partial-update waveform table. */
  const PartialUpdateLut: seq<bv8> := [
    0x00, 0x00, 0x00, 0x00, 0x00, 0x00, 0x00,
    0x80, 0x00, 0x00, 0x00, 0x00, 0x00, 0x00,
    0x40, 0x00, 0x00, 0x00, 0x00, 0x00, 0x00,
    0x00, 0x00, 0x00, 0x00, 0x00, 0x00, 0x00,
    0x00, 0x00, 0x00, 0x00, 0x00, 0x00, 0x00,
    0x0A, 0x00, 0x00, 0x00, 0x00,
    0x00, 0x00, 0x00, 0x00, 0x00,
    0x00, 0x00, 0x00, 0x00, 0x00,
    0x00, 0x00, 0x00, 0x00, 0x00,
    0x00, 0x00, 0x00, 0x00, 0x00,
    0x00, 0x00, 0x00, 0x00, 0x00,
    0x00, 0x00, 0x00, 0x00, 0x00
  ]

  /** The bytes of a waveform table; both hold exactly LutSize entries. */
  function LutBytes(t: LutTable): (bytes: seq<bv8>)
    ensures |bytes| == LutSize
  {
    match t
    case FullRedLut => FullUpdateLutRed
    case PartialLut => PartialUpdateLut
  }

  /** Both tables hold LutSize entries and they differ, so the trace shows
      which of the two a refresh uploaded. */
  lemma LutTables()
    ensures |FullUpdateLutRed| == LutSize && |PartialUpdateLut| == LutSize
    ensures FullUpdateLutRed != PartialUpdateLut
  {
    assert FullUpdateLutRed[59] == 0x02 && PartialUpdateLut[59] == 0x00;
  }

  /** Border waveform byte for white (the code used on full updates). */
  const BorderColorWhite: bv8 := 0x01

  /** The ping-pong window payload sent before a partial update. */
  const PingPongPayload: seq<bv8> := [0x00, 0x00, 0x00, 0x00, 0x40, 0x00, 0x00]

  /** The sequence sent by init_display_ after the hardware reset pulse. */
  function InitTxs(): seq<Transaction>
  {
    [ Transaction(SwReset, []),
      Transaction(DriverOutputControl, [LastLineLow, LastLineHigh, 0x00]),
      Transaction(BoosterSoftStart, [0xD7, 0xD6, 0x9D]),
      Transaction(WriteVcom, [0xA8]),
      Transaction(DummyLinePeriod, [0x1A]),
      Transaction(GateTime, [0x08]),
      Transaction(DataEntryMode, [0x03]),
      Transaction(RamContentOption, [0x00, 0x80]) ]
  }

  /** The waveform upload of a refresh, if the cadence calls for one. */
  function LutPhase(atUpdate: nat, every: nat): seq<Transaction>
  {
    match LutSelection(atUpdate, every)
    case None => []
    case Some(t) => [Transaction(WriteLutRegister, LutBytes(t))]
  }

  /** VCOM for the refresh mode. */
  function VcomPhase(full: bool): seq<Transaction>
  {
    [Transaction(WriteVcom, [if full then 0x55 else 0x26])]
  }

  /** Partial updates only: enable ping-pong, then activate with the partial flag. */
  function PingPongPhase(full: bool): seq<Transaction>
  {
    if full then []
    else [Transaction(PingPong, PingPongPayload), Transaction(UpdateControl2, [0xC0]), Transaction(MasterActivation, [])]
  }

  /** Border waveform: first 0x00, then white (0x01) in either mode. */
  function BorderPhase(full: bool): seq<Transaction>
  {
    [Transaction(BorderWaveform, [0x00]), Transaction(BorderWaveform, [if full then BorderColorWhite else 0x01])]
  }

  /** RAM window over the whole panel and both address counters at 0. */
  function RamWindowPhase(): seq<Transaction>
  {
    [ Transaction(RamXWindow, [0x00, RamXEnd]),
      Transaction(RamYWindow, [0x00, 0x00, LastLineLow, LastLineHigh]),
      Transaction(RamXCounter, [0x00]),
      Transaction(RamYCounter, [0x00, 0x00]) ]
  }

  /** Plane 1 into the black RAM, plane 2 into the red RAM. */
  function RamWritePhase(buf: seq<bv8>): seq<Transaction>
    requires |buf| == BufferLength()
  {
    [Transaction(WriteBlackRam, buf[..HalfLength()]), Transaction(WriteRedRam, buf[HalfLength()..])]
  }

  /** Mode-dependent update control, master activation, terminate frame. */
  function ActivationPhase(full: bool): seq<Transaction>
  {
    [Transaction(UpdateControl2, [if full then 0xC7 else 0x0C]), Transaction(MasterActivation, []), Transaction(TerminateFrame, [])]
  }

  /** Everything one display() call sends, given the counter and the cadence
      length before the call and the framebuffer. */
  function DisplayTxs(atUpdate: nat, every: nat, buf: seq<bv8>): seq<Transaction>
    requires |buf| == BufferLength()
  {
    var full := IsFullUpdate(atUpdate);
    LutPhase(atUpdate, every) + VcomPhase(full) + PingPongPhase(full) + BorderPhase(full)
      + RamWindowPhase() + RamWritePhase(buf) + ActivationPhase(full)
  }

  /** The payload length each opcode carries wherever this driver sends it;
      None for opcodes the driver never sends. */
  function PayloadSize(op: bv8): Option<nat>
  {
    if op == SwReset || op == MasterActivation || op == TerminateFrame then Some(0)
    else if op == WriteVcom || op == DummyLinePeriod || op == GateTime || op == DataEntryMode
         || op == UpdateControl2 || op == BorderWaveform || op == RamXCounter then Some(1)
    else if op == RamContentOption || op == RamXWindow || op == RamYCounter then Some(2)
    else if op == DriverOutputControl || op == BoosterSoftStart then Some(3)
    else if op == RamYWindow then Some(4)
    else if op == PingPong then Some(7)
    else if op == WriteLutRegister then Some(LutSize)
    else if op == WriteBlackRam || op == WriteRedRam then Some(HalfLength())
    else None
  }

  /** Every transaction carries the payload length of its opcode. */
  predicate WellFormed(txs: seq<Transaction>) {
    forall i :: 0 <= i < |txs| ==> PayloadSize(txs[i].op) == Some(|txs[i].payload|)
  }

  /** Well-formed batches stay well formed when sent one after the other. */
  lemma WellFormedAppend(a: seq<Transaction>, b: seq<Transaction>)
    requires WellFormed(a) && WellFormed(b)
    ensures WellFormed(a + b)
  {
    forall i | 0 <= i < |a + b|
      ensures PayloadSize((a + b)[i].op) == Some(|(a + b)[i].payload|)
    {
      if i >= |a| {
        assert (a + b)[i] == b[i - |a|];
      }
    }
  }

  /** The initialisation sequence gives every opcode its expected payload. */
  lemma InitWellFormed()
    ensures WellFormed(InitTxs())
  {
  }

  /** The phases without a waveform table or image data are well formed in either mode. */
  lemma FixedPhasesWellFormed(full: bool)
    ensures WellFormed(VcomPhase(full)) && WellFormed(PingPongPhase(full)) && WellFormed(BorderPhase(full))
    ensures WellFormed(RamWindowPhase()) && WellFormed(ActivationPhase(full))
  {
    assert WellFormed(VcomPhase(full));
    assert WellFormed(PingPongPhase(full));
    assert WellFormed(BorderPhase(full));
    assert WellFormed(RamWindowPhase());
  }

  /** A refresh gives every opcode its expected payload, in either mode and
      whether or not a waveform table is uploaded. */
  lemma DisplayWellFormed(atUpdate: nat, every: nat, buf: seq<bv8>)
    requires |buf| == BufferLength()
    ensures WellFormed(DisplayTxs(atUpdate, every, buf))
  {
    var full := IsFullUpdate(atUpdate);
    assert WellFormed(LutPhase(atUpdate, every));
    assert WellFormed(RamWritePhase(buf));
    FixedPhasesWellFormed(full);
    var a := LutPhase(atUpdate, every);
    var b := a + VcomPhase(full);
    assert WellFormed(b) by { WellFormedAppend(a, VcomPhase(full)); }
    var c := b + PingPongPhase(full);
    assert WellFormed(c) by { WellFormedAppend(b, PingPongPhase(full)); }
    var d := c + BorderPhase(full);
    assert WellFormed(d) by { WellFormedAppend(c, BorderPhase(full)); }
    var e := d + RamWindowPhase();
    assert WellFormed(e) by { WellFormedAppend(d, RamWindowPhase()); }
    var f := e + RamWritePhase(buf);
    assert WellFormed(f) by { WellFormedAppend(e, RamWritePhase(buf)); }
    WellFormedAppend(f, ActivationPhase(full));
  }

  /** The waveform phase, reduced to its opcodes and filtered by opcode. */
  lemma LutPhaseFacts(atUpdate: nat, every: nat, op: bv8)
    ensures Opcodes(LutPhase(atUpdate, every))
      == if LutSelection(atUpdate, every).Some? then [WriteLutRegister] else []
    ensures Payloads(LutPhase(atUpdate, every), op)
      == if LutSelection(atUpdate, every).Some? && op == WriteLutRegister
         then [LutBytes(LutSelection(atUpdate, every).value)] else []
  {
    if LutSelection(atUpdate, every).Some? {
      Literal1(Transaction(WriteLutRegister, LutBytes(LutSelection(atUpdate, every).value)), op);
    }
  }

  /** The VCOM phase, reduced to its opcodes and filtered by opcode. */
  lemma VcomPhaseFacts(full: bool, op: bv8)
    ensures Opcodes(VcomPhase(full)) == [WriteVcom]
    ensures Payloads(VcomPhase(full), op) == if op == WriteVcom then [[if full then 0x55 else 0x26]] else []
  {
    Literal1(VcomPhase(full)[0], op);
  }

  /** The ping-pong phase, reduced to its opcodes and filtered by opcode. */
  lemma PingPongPhaseFacts(full: bool, op: bv8)
    ensures Opcodes(PingPongPhase(full)) == if full then [] else [PingPong, UpdateControl2, MasterActivation]
    ensures Payloads(PingPongPhase(full), op)
      == if full then []
         else if op == PingPong then [PingPongPayload]
         else if op == UpdateControl2 then [[0xC0]]
         else if op == MasterActivation then [[]]
         else []
  {
    if !full {
      var t := PingPongPhase(full);
      Literal3(t[0], t[1], t[2], op);
    }
  }

  /** The border phase, reduced to its opcodes and filtered by opcode. */
  lemma BorderPhaseFacts(full: bool, op: bv8)
    ensures Opcodes(BorderPhase(full)) == [BorderWaveform, BorderWaveform]
    ensures Payloads(BorderPhase(full), op) == if op == BorderWaveform then [[0x00], [0x01]] else []
  {
    var t := BorderPhase(full);
    Literal2(t[0], t[1], op);
  }

  /** The RAM window phase, reduced to its opcodes and filtered by opcode. */
  lemma RamWindowPhaseFacts(op: bv8)
    ensures Opcodes(RamWindowPhase()) == [RamXWindow, RamYWindow, RamXCounter, RamYCounter]
    ensures Payloads(RamWindowPhase(), op)
      == if op == RamXWindow then [[0x00, RamXEnd]]
         else if op == RamYWindow then [[0x00, 0x00, LastLineLow, LastLineHigh]]
         else if op == RamXCounter then [[0x00]]
         else if op == RamYCounter then [[0x00, 0x00]]
         else []
  {
    var t := RamWindowPhase();
    Literal4(t[0], t[1], t[2], t[3], op);
  }

  /** The RAM write phase, reduced to its opcodes and filtered by opcode. */
  lemma RamWritePhaseFacts(buf: seq<bv8>, op: bv8)
    requires |buf| == BufferLength()
    ensures Opcodes(RamWritePhase(buf)) == [WriteBlackRam, WriteRedRam]
    ensures Payloads(RamWritePhase(buf), op)
      == if op == WriteBlackRam then [buf[..HalfLength()]]
         else if op == WriteRedRam then [buf[HalfLength()..]]
         else []
  {
    var t := RamWritePhase(buf);
    Literal2(t[0], t[1], op);
  }

  /** The activation phase, reduced to its opcodes and filtered by opcode. */
  lemma ActivationPhaseFacts(full: bool, op: bv8)
    ensures Opcodes(ActivationPhase(full)) == [UpdateControl2, MasterActivation, TerminateFrame]
    ensures Payloads(ActivationPhase(full), op)
      == if op == UpdateControl2 then [[if full then 0xC7 else 0x0C]]
         else if op == MasterActivation || op == TerminateFrame then [[]]
         else []
  {
    var t := ActivationPhase(full);
    Literal3(t[0], t[1], t[2], op);
  }

  /** Filtering a refresh by opcode is filtering each of its phases. */
  lemma DisplayPayloadsByPhase(atUpdate: nat, every: nat, buf: seq<bv8>, op: bv8)
    requires |buf| == BufferLength()
    ensures var full := IsFullUpdate(atUpdate);
      Payloads(DisplayTxs(atUpdate, every, buf), op)
      == Payloads(LutPhase(atUpdate, every), op) + Payloads(VcomPhase(full), op)
         + Payloads(PingPongPhase(full), op) + Payloads(BorderPhase(full), op)
         + Payloads(RamWindowPhase(), op) + Payloads(RamWritePhase(buf), op)
         + Payloads(ActivationPhase(full), op)
  {
    var full := IsFullUpdate(atUpdate);
    var a := LutPhase(atUpdate, every);
    var b := a + VcomPhase(full);
    PayloadsAppend(a, VcomPhase(full), op);
    var c := b + PingPongPhase(full);
    PayloadsAppend(b, PingPongPhase(full), op);
    var d := c + BorderPhase(full);
    PayloadsAppend(c, BorderPhase(full), op);
    var e := d + RamWindowPhase();
    PayloadsAppend(d, RamWindowPhase(), op);
    var f := e + RamWritePhase(buf);
    PayloadsAppend(e, RamWritePhase(buf), op);
    PayloadsAppend(f, ActivationPhase(full), op);
  }

  /** The opcodes of a refresh are the opcodes of its phases in order. */
  lemma DisplayOpcodesByPhase(atUpdate: nat, every: nat, buf: seq<bv8>)
    requires |buf| == BufferLength()
    ensures var full := IsFullUpdate(atUpdate);
      Opcodes(DisplayTxs(atUpdate, every, buf))
      == Opcodes(LutPhase(atUpdate, every)) + Opcodes(VcomPhase(full))
         + Opcodes(PingPongPhase(full)) + Opcodes(BorderPhase(full))
         + Opcodes(RamWindowPhase()) + Opcodes(RamWritePhase(buf))
         + Opcodes(ActivationPhase(full))
  {
    var full := IsFullUpdate(atUpdate);
    var a := LutPhase(atUpdate, every);
    var b := a + VcomPhase(full);
    OpcodesAppend(a, VcomPhase(full));
    var c := b + PingPongPhase(full);
    OpcodesAppend(b, PingPongPhase(full));
    var d := c + BorderPhase(full);
    OpcodesAppend(c, BorderPhase(full));
    var e := d + RamWindowPhase();
    OpcodesAppend(d, RamWindowPhase());
    var f := e + RamWritePhase(buf);
    OpcodesAppend(e, RamWritePhase(buf));
    OpcodesAppend(f, ActivationPhase(full));
  }

  /** The order of the opcodes a refresh sends, phase by phase. */
  lemma DisplayOrder(atUpdate: nat, every: nat, buf: seq<bv8>)
    requires every >= 1 && |buf| == BufferLength()
    ensures Opcodes(DisplayTxs(atUpdate, every, buf))
      == (if atUpdate <= 1 then [WriteLutRegister] else [])
         + [WriteVcom]
         + (if atUpdate == 0 then [] else [PingPong, UpdateControl2, MasterActivation])
         + [BorderWaveform, BorderWaveform]
         + [RamXWindow, RamYWindow, RamXCounter, RamYCounter]
         + [WriteBlackRam, WriteRedRam]
         + [UpdateControl2, MasterActivation, TerminateFrame]
  {
    var full := IsFullUpdate(atUpdate);
    DisplayOpcodesByPhase(atUpdate, every, buf);
    LutSelectionCases(atUpdate, every);
    LutPhaseFacts(atUpdate, every, 0);
    VcomPhaseFacts(full, 0);
    PingPongPhaseFacts(full, 0);
    BorderPhaseFacts(full, 0);
    RamWindowPhaseFacts(0);
    RamWritePhaseFacts(buf, 0);
    ActivationPhaseFacts(full, 0);
  }

  /** A refresh uploads a waveform table exactly when the counter is 0 or 1:
      the full red table on a full update, the partial table on the first
      partial update after it. */
  lemma DisplayLutUpload(atUpdate: nat, every: nat, buf: seq<bv8>)
    requires every >= 1 && |buf| == BufferLength()
    ensures Payloads(DisplayTxs(atUpdate, every, buf), WriteLutRegister)
      == if atUpdate == 0 then [FullUpdateLutRed]
         else if atUpdate == 1 then [PartialUpdateLut]
         else []
  {
    var full := IsFullUpdate(atUpdate);
    var op := WriteLutRegister;
    var p1 := Payloads(LutPhase(atUpdate, every), op);
    var p2 := Payloads(VcomPhase(full), op);
    var p3 := Payloads(PingPongPhase(full), op);
    var p4 := Payloads(BorderPhase(full), op);
    var p5 := Payloads(RamWindowPhase(), op);
    var p6 := Payloads(RamWritePhase(buf), op);
    var p7 := Payloads(ActivationPhase(full), op);
    assert p1 == if atUpdate == 0 then [FullUpdateLutRed] else if atUpdate == 1 then [PartialUpdateLut] else [] by {
      LutSelectionCases(atUpdate, every);
      LutPhaseFacts(atUpdate, every, op);
    }
    assert p2 == [] by { VcomPhaseFacts(full, op); }
    assert p3 == [] by { PingPongPhaseFacts(full, op); }
    assert p4 == [] by { BorderPhaseFacts(full, op); }
    assert p5 == [] by { RamWindowPhaseFacts(op); }
    assert p6 == [] by { RamWritePhaseFacts(buf, op); }
    assert p7 == [] by { ActivationPhaseFacts(full, op); }
    assert Payloads(DisplayTxs(atUpdate, every, buf), op) == p1 + p2 + p3 + p4 + p5 + p6 + p7 by {
      DisplayPayloadsByPhase(atUpdate, every, buf, op);
    }
    assert p1 + p2 == p1;
    assert p1 + p2 + p3 == p1;
    assert p1 + p2 + p3 + p4 == p1;
    assert p1 + p2 + p3 + p4 + p5 == p1;
    assert p1 + p2 + p3 + p4 + p5 + p6 == p1;
    assert p1 + p2 + p3 + p4 + p5 + p6 + p7 == p1;
  }

  /** The black RAM is written once, with plane 1. */
  lemma DisplayBlackRam(atUpdate: nat, every: nat, buf: seq<bv8>)
    requires |buf| == BufferLength()
    ensures Payloads(DisplayTxs(atUpdate, every, buf), WriteBlackRam) == [buf[..HalfLength()]]
  {
    var full := IsFullUpdate(atUpdate);
    var op := WriteBlackRam;
    var p1 := Payloads(LutPhase(atUpdate, every), op);
    var p2 := Payloads(VcomPhase(full), op);
    var p3 := Payloads(PingPongPhase(full), op);
    var p4 := Payloads(BorderPhase(full), op);
    var p5 := Payloads(RamWindowPhase(), op);
    var p6 := Payloads(RamWritePhase(buf), op);
    var p7 := Payloads(ActivationPhase(full), op);
    assert p1 == [] by { LutPhaseFacts(atUpdate, every, op); }
    assert p2 == [] by { VcomPhaseFacts(full, op); }
    assert p3 == [] by { PingPongPhaseFacts(full, op); }
    assert p4 == [] by { BorderPhaseFacts(full, op); }
    assert p5 == [] by { RamWindowPhaseFacts(op); }
    assert p6 == [buf[..HalfLength()]] by { RamWritePhaseFacts(buf, op); }
    assert p7 == [] by { ActivationPhaseFacts(full, op); }
    assert Payloads(DisplayTxs(atUpdate, every, buf), op) == p1 + p2 + p3 + p4 + p5 + p6 + p7 by {
      DisplayPayloadsByPhase(atUpdate, every, buf, op);
    }
    assert p1 + p2 == [];
    assert p1 + p2 + p3 == [];
    assert p1 + p2 + p3 + p4 == [];
    assert p1 + p2 + p3 + p4 + p5 == [];
    assert p1 + p2 + p3 + p4 + p5 + p6 == p6;
    assert p1 + p2 + p3 + p4 + p5 + p6 + p7 == p6;
  }

  /** The red RAM is written once, with plane 2. */
  lemma DisplayRedRam(atUpdate: nat, every: nat, buf: seq<bv8>)
    requires |buf| == BufferLength()
    ensures Payloads(DisplayTxs(atUpdate, every, buf), WriteRedRam) == [buf[HalfLength()..]]
  {
    var full := IsFullUpdate(atUpdate);
    var op := WriteRedRam;
    var p1 := Payloads(LutPhase(atUpdate, every), op);
    var p2 := Payloads(VcomPhase(full), op);
    var p3 := Payloads(PingPongPhase(full), op);
    var p4 := Payloads(BorderPhase(full), op);
    var p5 := Payloads(RamWindowPhase(), op);
    var p6 := Payloads(RamWritePhase(buf), op);
    var p7 := Payloads(ActivationPhase(full), op);
    assert p1 == [] by { LutPhaseFacts(atUpdate, every, op); }
    assert p2 == [] by { VcomPhaseFacts(full, op); }
    assert p3 == [] by { PingPongPhaseFacts(full, op); }
    assert p4 == [] by { BorderPhaseFacts(full, op); }
    assert p5 == [] by { RamWindowPhaseFacts(op); }
    assert p6 == [buf[HalfLength()..]] by { RamWritePhaseFacts(buf, op); }
    assert p7 == [] by { ActivationPhaseFacts(full, op); }
    assert Payloads(DisplayTxs(atUpdate, every, buf), op) == p1 + p2 + p3 + p4 + p5 + p6 + p7 by {
      DisplayPayloadsByPhase(atUpdate, every, buf, op);
    }
    assert p1 + p2 == [];
    assert p1 + p2 + p3 == [];
    assert p1 + p2 + p3 + p4 == [];
    assert p1 + p2 + p3 + p4 + p5 == [];
    assert p1 + p2 + p3 + p4 + p5 + p6 == p6;
    assert p1 + p2 + p3 + p4 + p5 + p6 + p7 == p6;
  }

  /** The panel's two RAMs receive exactly the framebuffer: plane 1 in the
      black RAM, plane 2 in the red RAM, each written once. */
  lemma DisplayRamImage(atUpdate: nat, every: nat, buf: seq<bv8>)
    requires |buf| == BufferLength()
    ensures var black, red := Payloads(DisplayTxs(atUpdate, every, buf), WriteBlackRam),
                              Payloads(DisplayTxs(atUpdate, every, buf), WriteRedRam);
      |black| == 1 && |red| == 1 && |black[0]| == |red[0]| == HalfLength() && black[0] + red[0] == buf
  {
    DisplayBlackRam(atUpdate, every, buf);
    DisplayRedRam(atUpdate, every, buf);
    assert buf[..HalfLength()] + buf[HalfLength()..] == buf;
  }

  /** VCOM is written once: 0x55 for a full update, 0x26 for a partial one. */
  lemma DisplayVcom(atUpdate: nat, every: nat, buf: seq<bv8>)
    requires |buf| == BufferLength()
    ensures Payloads(DisplayTxs(atUpdate, every, buf), WriteVcom) == [[if atUpdate == 0 then 0x55 else 0x26]]
  {
    var full := IsFullUpdate(atUpdate);
    var op := WriteVcom;
    var p1 := Payloads(LutPhase(atUpdate, every), op);
    var p2 := Payloads(VcomPhase(full), op);
    var p3 := Payloads(PingPongPhase(full), op);
    var p4 := Payloads(BorderPhase(full), op);
    var p5 := Payloads(RamWindowPhase(), op);
    var p6 := Payloads(RamWritePhase(buf), op);
    var p7 := Payloads(ActivationPhase(full), op);
    assert p1 == [] by { LutPhaseFacts(atUpdate, every, op); }
    assert p2 == [[if full then 0x55 else 0x26]] by { VcomPhaseFacts(full, op); }
    assert p3 == [] by { PingPongPhaseFacts(full, op); }
    assert p4 == [] by { BorderPhaseFacts(full, op); }
    assert p5 == [] by { RamWindowPhaseFacts(op); }
    assert p6 == [] by { RamWritePhaseFacts(buf, op); }
    assert p7 == [] by { ActivationPhaseFacts(full, op); }
    DisplayPayloadsByPhase(atUpdate, every, buf, op);
    assert p1 + p2 == p2;
    assert p1 + p2 + p3 == p2;
    assert p1 + p2 + p3 + p4 == p2;
    assert p1 + p2 + p3 + p4 + p5 == p2;
    assert p1 + p2 + p3 + p4 + p5 + p6 == p2;
    assert p1 + p2 + p3 + p4 + p5 + p6 + p7 == p2;
  }

  /** Update control 2 is 0xC7 on a full update; a partial update sends 0xC0 and then 0x0C. */
  lemma DisplayUpdateControl(atUpdate: nat, every: nat, buf: seq<bv8>)
    requires |buf| == BufferLength()
    ensures Payloads(DisplayTxs(atUpdate, every, buf), UpdateControl2) == (if atUpdate == 0 then [[0xC7]] else [[0xC0], [0x0C]])
  {
    var full := IsFullUpdate(atUpdate);
    var op := UpdateControl2;
    var p1 := Payloads(LutPhase(atUpdate, every), op);
    var p2 := Payloads(VcomPhase(full), op);
    var p3 := Payloads(PingPongPhase(full), op);
    var p4 := Payloads(BorderPhase(full), op);
    var p5 := Payloads(RamWindowPhase(), op);
    var p6 := Payloads(RamWritePhase(buf), op);
    var p7 := Payloads(ActivationPhase(full), op);
    assert p1 == [] by { LutPhaseFacts(atUpdate, every, op); }
    assert p2 == [] by { VcomPhaseFacts(full, op); }
    assert p3 == (if full then [] else [[0xC0]]) by { PingPongPhaseFacts(full, op); }
    assert p4 == [] by { BorderPhaseFacts(full, op); }
    assert p5 == [] by { RamWindowPhaseFacts(op); }
    assert p6 == [] by { RamWritePhaseFacts(buf, op); }
    assert p7 == [[if full then 0xC7 else 0x0C]] by { ActivationPhaseFacts(full, op); }
    assert Payloads(DisplayTxs(atUpdate, every, buf), op) == p1 + p2 + p3 + p4 + p5 + p6 + p7 by {
      DisplayPayloadsByPhase(atUpdate, every, buf, op);
    }
    assert p1 + p2 == [];
    assert p1 + p2 + p3 == p3;
    assert p1 + p2 + p3 + p4 == p3;
    assert p1 + p2 + p3 + p4 + p5 == p3;
    assert p1 + p2 + p3 + p4 + p5 + p6 == p3;
    assert p1 + p2 + p3 + p4 + p5 + p6 + p7 == p3 + p7;
    if full {
      assert p3 + p7 == [[0xC7]];
    } else {
      assert p3 + p7 == [[0xC0], [0x0C]];
    }
  }

  /** The ping-pong window is enabled on partial updates only. */
  lemma DisplayPingPong(atUpdate: nat, every: nat, buf: seq<bv8>)
    requires |buf| == BufferLength()
    ensures Payloads(DisplayTxs(atUpdate, every, buf), PingPong) == (if atUpdate == 0 then [] else [PingPongPayload])
  {
    var full := IsFullUpdate(atUpdate);
    var op := PingPong;
    var p1 := Payloads(LutPhase(atUpdate, every), op);
    var p2 := Payloads(VcomPhase(full), op);
    var p3 := Payloads(PingPongPhase(full), op);
    var p4 := Payloads(BorderPhase(full), op);
    var p5 := Payloads(RamWindowPhase(), op);
    var p6 := Payloads(RamWritePhase(buf), op);
    var p7 := Payloads(ActivationPhase(full), op);
    assert p1 == [] by { LutPhaseFacts(atUpdate, every, op); }
    assert p2 == [] by { VcomPhaseFacts(full, op); }
    assert p3 == (if full then [] else [PingPongPayload]) by { PingPongPhaseFacts(full, op); }
    assert p4 == [] by { BorderPhaseFacts(full, op); }
    assert p5 == [] by { RamWindowPhaseFacts(op); }
    assert p6 == [] by { RamWritePhaseFacts(buf, op); }
    assert p7 == [] by { ActivationPhaseFacts(full, op); }
    assert Payloads(DisplayTxs(atUpdate, every, buf), op) == p1 + p2 + p3 + p4 + p5 + p6 + p7 by {
      DisplayPayloadsByPhase(atUpdate, every, buf, op);
    }
    assert p1 + p2 == [];
    assert p1 + p2 + p3 == p3;
    assert p1 + p2 + p3 + p4 == p3;
    assert p1 + p2 + p3 + p4 + p5 == p3;
    assert p1 + p2 + p3 + p4 + p5 + p6 == p3;
    assert p1 + p2 + p3 + p4 + p5 + p6 + p7 == p3;
    if full {
      assert p3 == [];
    } else {
      assert p3 == [PingPongPayload];
    }
  }

  /** The border waveform is set to 0x00 and then 0x01, in both modes. */
  lemma DisplayBorder(atUpdate: nat, every: nat, buf: seq<bv8>)
    requires |buf| == BufferLength()
    ensures Payloads(DisplayTxs(atUpdate, every, buf), BorderWaveform) == [[0x00], [0x01]]
  {
    var full := IsFullUpdate(atUpdate);
    var op := BorderWaveform;
    var p1 := Payloads(LutPhase(atUpdate, every), op);
    var p2 := Payloads(VcomPhase(full), op);
    var p3 := Payloads(PingPongPhase(full), op);
    var p4 := Payloads(BorderPhase(full), op);
    var p5 := Payloads(RamWindowPhase(), op);
    var p6 := Payloads(RamWritePhase(buf), op);
    var p7 := Payloads(ActivationPhase(full), op);
    assert p1 == [] by { LutPhaseFacts(atUpdate, every, op); }
    assert p2 == [] by { VcomPhaseFacts(full, op); }
    assert p3 == [] by { PingPongPhaseFacts(full, op); }
    assert p4 == [[0x00], [0x01]] by { BorderPhaseFacts(full, op); }
    assert p5 == [] by { RamWindowPhaseFacts(op); }
    assert p6 == [] by { RamWritePhaseFacts(buf, op); }
    assert p7 == [] by { ActivationPhaseFacts(full, op); }
    assert Payloads(DisplayTxs(atUpdate, every, buf), op) == p1 + p2 + p3 + p4 + p5 + p6 + p7 by {
      DisplayPayloadsByPhase(atUpdate, every, buf, op);
    }
    assert p1 + p2 == [];
    assert p1 + p2 + p3 == [];
    assert p1 + p2 + p3 + p4 == p4;
    assert p1 + p2 + p3 + p4 + p5 == p4;
    assert p1 + p2 + p3 + p4 + p5 + p6 == p4;
    assert p1 + p2 + p3 + p4 + p5 + p6 + p7 == p4;
  }

  /** The X window spans RAM bytes 0 to (122 - 1) / 8 = 0x0F. */
  lemma DisplayRamXWindow(atUpdate: nat, every: nat, buf: seq<bv8>)
    requires |buf| == BufferLength()
    ensures Payloads(DisplayTxs(atUpdate, every, buf), RamXWindow) == [[0x00, 0x0F]]
  {
    var full := IsFullUpdate(atUpdate);
    var op := RamXWindow;
    var p1 := Payloads(LutPhase(atUpdate, every), op);
    var p2 := Payloads(VcomPhase(full), op);
    var p3 := Payloads(PingPongPhase(full), op);
    var p4 := Payloads(BorderPhase(full), op);
    var p5 := Payloads(RamWindowPhase(), op);
    var p6 := Payloads(RamWritePhase(buf), op);
    var p7 := Payloads(ActivationPhase(full), op);
    assert p1 == [] by { LutPhaseFacts(atUpdate, every, op); }
    assert p2 == [] by { VcomPhaseFacts(full, op); }
    assert p3 == [] by { PingPongPhaseFacts(full, op); }
    assert p4 == [] by { BorderPhaseFacts(full, op); }
    assert p5 == [[0x00, RamXEnd]] by { RamWindowPhaseFacts(op); }
    assert p6 == [] by { RamWritePhaseFacts(buf, op); }
    assert p7 == [] by { ActivationPhaseFacts(full, op); }
    assert Payloads(DisplayTxs(atUpdate, every, buf), op) == p1 + p2 + p3 + p4 + p5 + p6 + p7 by {
      DisplayPayloadsByPhase(atUpdate, every, buf, op);
    }
    assert p1 + p2 == [];
    assert p1 + p2 + p3 == [];
    assert p1 + p2 + p3 + p4 == [];
    assert p1 + p2 + p3 + p4 + p5 == p5;
    assert p1 + p2 + p3 + p4 + p5 + p6 == p5;
    assert p1 + p2 + p3 + p4 + p5 + p6 + p7 == p5;
  }

  /** The Y window spans lines 0 to 249, both sent low byte first. */
  lemma DisplayRamYWindow(atUpdate: nat, every: nat, buf: seq<bv8>)
    requires |buf| == BufferLength()
    ensures Payloads(DisplayTxs(atUpdate, every, buf), RamYWindow) == [[0x00, 0x00, 0xF9, 0x00]]
  {
    var full := IsFullUpdate(atUpdate);
    var op := RamYWindow;
    var p1 := Payloads(LutPhase(atUpdate, every), op);
    var p2 := Payloads(VcomPhase(full), op);
    var p3 := Payloads(PingPongPhase(full), op);
    var p4 := Payloads(BorderPhase(full), op);
    var p5 := Payloads(RamWindowPhase(), op);
    var p6 := Payloads(RamWritePhase(buf), op);
    var p7 := Payloads(ActivationPhase(full), op);
    assert p1 == [] by { LutPhaseFacts(atUpdate, every, op); }
    assert p2 == [] by { VcomPhaseFacts(full, op); }
    assert p3 == [] by { PingPongPhaseFacts(full, op); }
    assert p4 == [] by { BorderPhaseFacts(full, op); }
    assert p5 == [[0x00, 0x00, LastLineLow, LastLineHigh]] by { RamWindowPhaseFacts(op); }
    assert p6 == [] by { RamWritePhaseFacts(buf, op); }
    assert p7 == [] by { ActivationPhaseFacts(full, op); }
    assert Payloads(DisplayTxs(atUpdate, every, buf), op) == p1 + p2 + p3 + p4 + p5 + p6 + p7 by {
      DisplayPayloadsByPhase(atUpdate, every, buf, op);
    }
    assert p1 + p2 == [];
    assert p1 + p2 + p3 == [];
    assert p1 + p2 + p3 + p4 == [];
    assert p1 + p2 + p3 + p4 + p5 == p5;
    assert p1 + p2 + p3 + p4 + p5 + p6 == p5;
    assert p1 + p2 + p3 + p4 + p5 + p6 + p7 == p5;
  }

  /** The X address counter starts at 0. */
  lemma DisplayRamXCounter(atUpdate: nat, every: nat, buf: seq<bv8>)
    requires |buf| == BufferLength()
    ensures Payloads(DisplayTxs(atUpdate, every, buf), RamXCounter) == [[0x00]]
  {
    var full := IsFullUpdate(atUpdate);
    var op := RamXCounter;
    var p1 := Payloads(LutPhase(atUpdate, every), op);
    var p2 := Payloads(VcomPhase(full), op);
    var p3 := Payloads(PingPongPhase(full), op);
    var p4 := Payloads(BorderPhase(full), op);
    var p5 := Payloads(RamWindowPhase(), op);
    var p6 := Payloads(RamWritePhase(buf), op);
    var p7 := Payloads(ActivationPhase(full), op);
    assert p1 == [] by { LutPhaseFacts(atUpdate, every, op); }
    assert p2 == [] by { VcomPhaseFacts(full, op); }
    assert p3 == [] by { PingPongPhaseFacts(full, op); }
    assert p4 == [] by { BorderPhaseFacts(full, op); }
    assert p5 == [[0x00]] by { RamWindowPhaseFacts(op); }
    assert p6 == [] by { RamWritePhaseFacts(buf, op); }
    assert p7 == [] by { ActivationPhaseFacts(full, op); }
    assert Payloads(DisplayTxs(atUpdate, every, buf), op) == p1 + p2 + p3 + p4 + p5 + p6 + p7 by {
      DisplayPayloadsByPhase(atUpdate, every, buf, op);
    }
    assert p1 + p2 == [];
    assert p1 + p2 + p3 == [];
    assert p1 + p2 + p3 + p4 == [];
    assert p1 + p2 + p3 + p4 + p5 == p5;
    assert p1 + p2 + p3 + p4 + p5 + p6 == p5;
    assert p1 + p2 + p3 + p4 + p5 + p6 + p7 == p5;
  }

  /** The Y address counter starts at 0. */
  lemma DisplayRamYCounter(atUpdate: nat, every: nat, buf: seq<bv8>)
    requires |buf| == BufferLength()
    ensures Payloads(DisplayTxs(atUpdate, every, buf), RamYCounter) == [[0x00, 0x00]]
  {
    var full := IsFullUpdate(atUpdate);
    var op := RamYCounter;
    var p1 := Payloads(LutPhase(atUpdate, every), op);
    var p2 := Payloads(VcomPhase(full), op);
    var p3 := Payloads(PingPongPhase(full), op);
    var p4 := Payloads(BorderPhase(full), op);
    var p5 := Payloads(RamWindowPhase(), op);
    var p6 := Payloads(RamWritePhase(buf), op);
    var p7 := Payloads(ActivationPhase(full), op);
    assert p1 == [] by { LutPhaseFacts(atUpdate, every, op); }
    assert p2 == [] by { VcomPhaseFacts(full, op); }
    assert p3 == [] by { PingPongPhaseFacts(full, op); }
    assert p4 == [] by { BorderPhaseFacts(full, op); }
    assert p5 == [[0x00, 0x00]] by { RamWindowPhaseFacts(op); }
    assert p6 == [] by { RamWritePhaseFacts(buf, op); }
    assert p7 == [] by { ActivationPhaseFacts(full, op); }
    assert Payloads(DisplayTxs(atUpdate, every, buf), op) == p1 + p2 + p3 + p4 + p5 + p6 + p7 by {
      DisplayPayloadsByPhase(atUpdate, every, buf, op);
    }
    assert p1 + p2 == [];
    assert p1 + p2 + p3 == [];
    assert p1 + p2 + p3 + p4 == [];
    assert p1 + p2 + p3 + p4 + p5 == p5;
    assert p1 + p2 + p3 + p4 + p5 + p6 == p5;
    assert p1 + p2 + p3 + p4 + p5 + p6 + p7 == p5;
  }

  /** The RAM window spans the whole controller RAM and both address
      counters start at 0. */
  lemma DisplayRamWindow(atUpdate: nat, every: nat, buf: seq<bv8>)
    requires |buf| == BufferLength()
    ensures var txs := DisplayTxs(atUpdate, every, buf);
      && Payloads(txs, RamXWindow) == [[0x00, 0x0F]]
      && Payloads(txs, RamYWindow) == [[0x00, 0x00, 0xF9, 0x00]]
      && Payloads(txs, RamXCounter) == [[0x00]]
      && Payloads(txs, RamYCounter) == [[0x00, 0x00]]
  {
    DisplayRamXWindow(atUpdate, every, buf);
    DisplayRamYWindow(atUpdate, every, buf);
    DisplayRamXCounter(atUpdate, every, buf);
    DisplayRamYCounter(atUpdate, every, buf);
  }

  /** The mode-dependent registers of a refresh. */
  lemma DisplayModeRegisters(atUpdate: nat, every: nat, buf: seq<bv8>)
    requires |buf| == BufferLength()
    ensures var txs := DisplayTxs(atUpdate, every, buf);
      && Payloads(txs, WriteVcom) == [[if atUpdate == 0 then 0x55 else 0x26]]
      && Payloads(txs, UpdateControl2) == (if atUpdate == 0 then [[0xC7]] else [[0xC0], [0x0C]])
      && Payloads(txs, PingPong) == (if atUpdate == 0 then [] else [PingPongPayload])
      && Payloads(txs, BorderWaveform) == [[0x00], [0x01]]
  {
    DisplayVcom(atUpdate, every, buf);
    DisplayUpdateControl(atUpdate, every, buf);
    DisplayPingPong(atUpdate, every, buf);
    DisplayBorder(atUpdate, every, buf);
  }

  /** The initialisation sequence: driver output control carries the last
      gate line 249 low byte first (0xF9, 0x00) and VCOM starts at 0xA8. */
  lemma InitRegisters()
    ensures Opcodes(InitTxs()) == [SwReset, DriverOutputControl, BoosterSoftStart, WriteVcom,
                                   DummyLinePeriod, GateTime, DataEntryMode, RamContentOption]
    ensures Payloads(InitTxs(), DriverOutputControl) == [[0xF9, 0x00, 0x00]]
    ensures Payloads(InitTxs(), WriteVcom) == [[0xA8]]
  {
    var t := InitTxs();
    var front, back := t[..4], t[4..];
    assert t == front + back;
    assert front == [t[0], t[1], t[2], t[3]];
    assert back == [t[4], t[5], t[6], t[7]];
    Literal4(t[0], t[1], t[2], t[3], DriverOutputControl);
    Literal4(t[4], t[5], t[6], t[7], DriverOutputControl);
    PayloadsAppend(front, back, DriverOutputControl);
    Literal4(t[0], t[1], t[2], t[3], WriteVcom);
    Literal4(t[4], t[5], t[6], t[7], WriteVcom);
    PayloadsAppend(front, back, WriteVcom);
    OpcodesAppend(front, back);
  }

  /** The initialisation stream after any earlier stream, one transaction at a time. */
  lemma InitStream(start: seq<Event>)
    ensures var t := InitTxs();
      start + Flatten(t)
      == start + Flatten([t[0]]) + Flatten([t[1]]) + Flatten([t[2]]) + Flatten([t[3]])
         + Flatten([t[4]]) + Flatten([t[5]]) + Flatten([t[6]]) + Flatten([t[7]])
  {
    var t := InitTxs();
    var front, back := [t[0], t[1], t[2], t[3]], [t[4], t[5], t[6], t[7]];
    assert t == front + back;
    SendAfter(start, front, back);
    SendFour(start, t[0], t[1], t[2], t[3]);
    SendFour(start + Flatten(front), t[4], t[5], t[6], t[7]);
  }

  /** A refresh's stream after any earlier stream, one phase at a time. */
  lemma DisplayStream(start: seq<Event>, atUpdate: nat, every: nat, buf: seq<bv8>)
    requires |buf| == BufferLength()
    ensures var full := IsFullUpdate(atUpdate);
      start + Flatten(DisplayTxs(atUpdate, every, buf))
      == start + Flatten(LutPhase(atUpdate, every)) + Flatten(VcomPhase(full))
         + Flatten(PingPongPhase(full)) + Flatten(BorderPhase(full))
         + Flatten(RamWindowPhase()) + Flatten(RamWritePhase(buf))
         + Flatten(ActivationPhase(full))
  {
    var full := IsFullUpdate(atUpdate);
    var a := LutPhase(atUpdate, every);
    var b := a + VcomPhase(full);
    SendAfter(start, a, VcomPhase(full));
    var c := b + PingPongPhase(full);
    SendAfter(start, b, PingPongPhase(full));
    var d := c + BorderPhase(full);
    SendAfter(start, c, BorderPhase(full));
    var e := d + RamWindowPhase();
    SendAfter(start, d, RamWindowPhase());
    var f := e + RamWritePhase(buf);
    SendAfter(start, e, RamWritePhase(buf));
    SendAfter(start, f, ActivationPhase(full));
  }
}
