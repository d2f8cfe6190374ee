# Inky pHAT three-colour e-paper driver: display-update engine

This project models the core of the ESPHome external component
`inkyphat_epaper`. The component drives a 2.13-inch black/white/red e-paper
panel (122 × 250 visible pixels; the controller's rows are 128 pixels wide).
The model covers three parts of `InkyphatEPaperBWR`:

- **The packed framebuffer.** It holds 8000 bytes in two bit-planes of 4000
  bytes. Each pixel has one bit per plane, and the row stride is the
  controller width. `fill` sets every byte. `draw_absolute_pixel_internal`
  sets or clears one bit in each plane. Both use the same three-way colour
  classification and the same two-bit code: black 00, white 10, red 11.
- **The refresh cadence.** `at_update_` selects a full or a partial refresh
  and whether a waveform table (LUT) is uploaded. It then advances modulo
  `full_update_every_`.
- **The command/data byte protocol.** `command`, `data`, `cmd_data`,
  `write_lut_`, `init_display_` and `display` emit command and data bytes.
  The model records these bytes as a trace of `Cmd(b)` / `Data(b)` events.
  Each sequence is stated exactly: its opcodes in order, and each register's
  payload.

Modules:

- `Colors`: colour classification, plane codes and fill bytes.
- `Geometry`: panel constants and the address arithmetic.
- `FrameBuffer`: the buffer as a value; fill, the pixel write, reading a pixel
  back.
- `Cadence`: the counter and the LUT choice.
- `Protocol`: the event trace, transactions, and how to flatten and parse
  them.
- `Commands`: the controller's opcodes, the LUT tables, the initialisation
  sequence and the phases of a refresh.
- `Driver`: the driver object, as a class. It has an `array<bv8>` framebuffer
  that is updated in place, the counter fields and the trace. Its methods are
  proved against the functions of the other modules.

The busy gate `wait_until_idle_` returns `true` on every path
(inkyphat_epaper.cpp:143). Its failure branches in `display()` (314-318 and
379-382) can therefore never be taken, and the model gives the gate a result
that is always `true`.

## Model

| member | source | states |
|---|---|---|
| Geometry.BufferLength | external_components/inkyphat_epaper/inkyphat_epaper.cpp:227-229 | The buffer is 128·250/4 = 8000 bytes, even, and half of it holds one bit for each controller pixel. |
| Geometry.HalfLength | external_components/inkyphat_epaper/inkyphat_epaper.cpp:302 | Each plane is 4000 bytes, exactly half the buffer. |
| Geometry.BytePos | external_components/inkyphat_epaper/inkyphat_epaper.cpp:209 | For a visible pixel, (x + 128·y)/8 is below 4000, so both pos and pos + 4000 are inside the buffer. |
| Geometry.BitIndex | external_components/inkyphat_epaper/inkyphat_epaper.cpp:210 | x & 7 is a bit index below 8. |
| Geometry.Mask | external_components/inkyphat_epaper/inkyphat_epaper.cpp:210-213 | The single-bit mask for bit index x & 7, as a table from 0x80 for index 0 down to 0x01 for index 7. |
| Geometry.MaskIsShift | external_components/inkyphat_epaper/inkyphat_epaper.cpp:213 | The mask table equals the driver's `0x80 >> subpos`. |
| Geometry.MaskProperties | external_components/inkyphat_epaper/inkyphat_epaper.cpp:213-222 | Every mask has exactly one bit set, and masks for different indices do not overlap. |
| Geometry.AddressInjective | external_components/inkyphat_epaper/inkyphat_epaper.cpp:209-210 | Two visible pixels with the same byte and the same bit index are the same pixel: the address x + 128·y determines (x, y) because x < 128, and the bit index is x mod 8 because 128 is a multiple of 8 (RowOffset). |
| Geometry.ByteOneRow | external_components/inkyphat_epaper/inkyphat_epaper.cpp:209 | Two visible pixels in the same byte lie in the same row: 128 is a multiple of 8, so a byte is x/8 + 16·y with x/8 < 16. |
| Geometry.RowOffset | external_components/inkyphat_epaper/inkyphat_epaper.cpp:209-210 | Adding whole 128-pixel rows does not change the bit index. |
| Colors.Classify | external_components/inkyphat_epaper/inkyphat_epaper.cpp:178-190 | The classification never yields the off-white code 01. |
| Colors.ClassifyPartition | external_components/inkyphat_epaper/inkyphat_epaper.cpp:178-190 | Black if and only if all four components are 255. Red if and only if red > 0 and green = blue = 0. White otherwise. The two tests never both hold, so their order does not matter. |
| Colors.Planes | external_components/inkyphat_epaper/inkyphat_epaper.cpp:174-177 | The (plane-1, plane-2) bits of each code: black 00, off-white 01, white 10, red 11. |
| Colors.Decode | external_components/inkyphat_epaper/inkyphat_epaper.cpp:174-177 | The code that two plane bits read back as, by the same table. |
| Colors.PlanesRoundTrip | external_components/inkyphat_epaper/inkyphat_epaper.cpp:174-177 | The code-to-bit-pair table and its decoding are inverse bijections. |
| Colors.FillBytesAgreeWithPlanes | external_components/inkyphat_epaper/inkyphat_epaper.cpp:178-190 | The fill bytes (00/00, FF/FF, FF/00) carry, at every bit, the same plane bits that the pixel write sets for the same colour (lines 211-223). |
| FrameBuffer.SetBitAsWritten | external_components/inkyphat_epaper/inkyphat_epaper.cpp:213-222 | Setting or clearing a masked bit is the driver's `b \|= mask` or `b &= ~mask`. |
| FrameBuffer.SetBitEffect | external_components/inkyphat_epaper/inkyphat_epaper.cpp:213-222 | After the write, the bit under the mask holds the requested value, and every other bit of the byte is unchanged. |
| FrameBuffer.SetBitOther | external_components/inkyphat_epaper/inkyphat_epaper.cpp:213-222 | A write through one bit index leaves the bit of any other index unchanged. |
| FrameBuffer.SetBitOverride | external_components/inkyphat_epaper/inkyphat_epaper.cpp:213-222 | A second write to the same bit overrides the first. |
| FrameBuffer.SetBitCommute | external_components/inkyphat_epaper/inkyphat_epaper.cpp:213-222 | Writes through disjoint masks commute. |
| FrameBuffer.PixelAt | external_components/inkyphat_epaper/inkyphat_epaper.cpp:209-223 | A visible pixel reads back as the code of its bit in the plane-1 byte at pos and its bit in the plane-2 byte at pos + 4000. |
| FrameBuffer.SetPixel | external_components/inkyphat_epaper/inkyphat_epaper.cpp:204-205 | The pixel write keeps the buffer's length, and an off-screen coordinate (x < 0, y < 0, x ≥ 122 or y ≥ 250) leaves the buffer unchanged. |
| FrameBuffer.SetPixelFrame | external_components/inkyphat_epaper/inkyphat_epaper.cpp:207-223 | An on-screen write changes no byte other than the plane-1 byte at pos and the plane-2 byte at pos + 4000, and no bit of those two outside the mask. |
| FrameBuffer.SetPixelReadBack | external_components/inkyphat_epaper/inkyphat_epaper.cpp:207-223 | Reading the written pixel back decodes to the colour written. |
| FrameBuffer.SetPixelOthers | external_components/inkyphat_epaper/inkyphat_epaper.cpp:207-223 | Every other visible pixel reads back as before, including the pixels that share the written byte. |
| FrameBuffer.SetPixelLastWins | external_components/inkyphat_epaper/inkyphat_epaper.cpp:203-225 | Writing the same pixel twice equals writing it once with the second colour. |
| FrameBuffer.SetPixelCommute | external_components/inkyphat_epaper/inkyphat_epaper.cpp:203-225 | Writes to two different pixels commute, including when the pixels share a byte. |
| FrameBuffer.Filled | external_components/inkyphat_epaper/inkyphat_epaper.cpp:168-201 | A filled buffer has the full buffer length. |
| FrameBuffer.FilledReadBack | external_components/inkyphat_epaper/inkyphat_epaper.cpp:168-201 | After a fill, every visible pixel reads back as the fill colour's code. |
| Cadence.IsFullUpdate | external_components/inkyphat_epaper/inkyphat_epaper.cpp:303 | A refresh is full exactly when at_update_ is 0. |
| Cadence.LutSelection | external_components/inkyphat_epaper/inkyphat_epaper.cpp:303-323 | The table a refresh uploads: only when full_update_every_ ≥ 1 and the "full now" and "full last time" flags differ, the full red table when the refresh is full and the partial table otherwise. |
| Cadence.LutSelectionCases | external_components/inkyphat_epaper/inkyphat_epaper.cpp:303-304 | With full_update_every_ ≥ 1: a table is uploaded if and only if at_update_ ≤ 1. The full red table is uploaded if and only if the refresh is full (at_update_ = 0). The partial table is uploaded if and only if at_update_ = 1. |
| Cadence.AdvanceAsWritten | external_components/inkyphat_epaper/inkyphat_epaper.cpp:325 | The counter step as written: (at_update_ + 1) mod 2^32, then mod full_update_every_, which faults when the divisor is 0. |
| Cadence.Advance | external_components/inkyphat_epaper/inkyphat_epaper.cpp:320-325 | The intended counter step stays below full_update_every_ when that is at least 1, and leaves the counter unchanged when it is 0. |
| Cadence.AdvanceAsWrittenFaultsOnZero | external_components/inkyphat_epaper/inkyphat_epaper.cpp:320-325 | The written step faults exactly when full_update_every_ = 0, and agrees with the intended step for every other length. |
| Cadence.AdvanceInRange | external_components/inkyphat_epaper/inkyphat_epaper.cpp:325 | On a counter already below N, a step is an increment that wraps to 0 at N. |
| Cadence.IterateMod | external_components/inkyphat_epaper/inkyphat_epaper.cpp:325 | After k refreshes the counter is (start + k) mod N. |
| Cadence.CycleCloses | external_components/inkyphat_epaper/inkyphat_epaper.cpp:325 | N consecutive refreshes bring the counter back to its start value. |
| Cadence.OneFullUpdatePerCycle | external_components/inkyphat_epaper/inkyphat_epaper.cpp:303 | In any window of N consecutive refreshes, exactly one is full: the k-th, for k = (N − start) mod N. |
| Cadence.OnePartialLutPerCycle | external_components/inkyphat_epaper/inkyphat_epaper.cpp:320-323 | With N ≥ 2, the partial table is uploaded exactly once per cycle, on the refresh right after the full one. |
| Cadence.CadenceOfOneAlwaysFull | external_components/inkyphat_epaper/inkyphat_epaper.cpp:320-325 | With N = 1 every refresh is full and uploads the full red table. |
| Protocol.DataRun | external_components/inkyphat_epaper/inkyphat_epaper.cpp:83-87 | The decoder's view of the byte stream, as `Parse` groups it (not a model of `data()` itself): the data bytes that follow a command extend to the next command byte or to the end of the trace. |
| Protocol.FlattenAppend | external_components/inkyphat_epaper/inkyphat_epaper.cpp:78-87 | Sending two batches of transactions one after the other sends their concatenation. |
| Protocol.FlattenStartsWithCmd | external_components/inkyphat_epaper/inkyphat_epaper.cpp:78-82 | A non-empty batch starts with its first opcode as a command byte. |
| Protocol.ParseFlatten | external_components/inkyphat_epaper/inkyphat_epaper.cpp:78-98 | The byte stream is self-delimiting: parsing the stream of any batch gives back that batch. |
| Protocol.FlattenParse | external_components/inkyphat_epaper/inkyphat_epaper.cpp:78-98 | The converse: a stream that parses is exactly the stream of what it parses to. |
| Protocol.PayloadsAppend | external_components/inkyphat_epaper/inkyphat_epaper.cpp:78-87 | The payloads sent to one register by two batches are those of the first followed by those of the second. |
| Protocol.OpcodesAppend | external_components/inkyphat_epaper/inkyphat_epaper.cpp:78-82 | The opcodes of two batches are those of the first followed by those of the second. |
| Commands.GeometryBytes | external_components/inkyphat_epaper/inkyphat_epaper.cpp:259-260 | Passed as uint8_t, the panel dimensions give 0x0F for (122 − 1) >> 3 (line 363), 0xF9 for 249, and 0x00 for 249 >> 8 (lines 368-369). |
| Commands.LutBytes | external_components/inkyphat_epaper/inkyphat_epaper.cpp:15 | The table a LUT upload sends holds exactly LUT_SIZE_BLIX = 70 entries, whichever table is chosen. |
| Commands.LutTables | external_components/inkyphat_epaper/inkyphat_epaper.cpp:31-58 | FULL_UPDATE_LUT_RED_BLIX and PARTIAL_UPDATE_LUT_BLIX (entry for entry in the constants FullUpdateLutRed and PartialUpdateLut) hold 70 entries each and differ, so the trace shows which of the two was uploaded. |
| Commands.InitTxs | external_components/inkyphat_epaper/inkyphat_epaper.cpp:254-285 | The eight transactions of the initialisation sequence, in order: software reset, driver output control F9 00 00, booster soft start D7 D6 9D, VCOM A8, dummy line period 1A, gate time 08, data entry mode 03, RAM content option 00 80. |
| Commands.DisplayTxs | external_components/inkyphat_epaper/inkyphat_epaper.cpp:320-400 | The transactions of one refresh, given the counter and the cadence length before the call and the framebuffer: the optional LUT upload followed by the six phases of lines 328-400. |
| Commands.WellFormedAppend | external_components/inkyphat_epaper/inkyphat_epaper.cpp:78-98 | Sending two well-formed batches one after the other gives a well-formed batch: every opcode still carries the payload length `PayloadSize` records for it, the same wherever the driver sends it. |
| Commands.InitWellFormed | external_components/inkyphat_epaper/inkyphat_epaper.cpp:254-285 | Every opcode of the initialisation sequence carries the payload length `PayloadSize` records for it, the same wherever the driver sends it. |
| Commands.DisplayWellFormed | external_components/inkyphat_epaper/inkyphat_epaper.cpp:320-400 | Every opcode of a refresh, in either mode, carries the payload length `PayloadSize` records for it, by the same table as the initialisation sequence, so an opcode sent in several places always has the same length. `PayloadSize` is the driver's own usage table, not the controller's register definitions. |
| Commands.DisplayOrder | external_components/inkyphat_epaper/inkyphat_epaper.cpp:320-400 | A refresh sends these opcodes in this order: 0x32 when at_update_ ≤ 1; then 0x2C; then 0x37, 0x22, 0x20 on partial refreshes only; then 0x3C, 0x3C; then 0x44, 0x45, 0x4E, 0x4F; then 0x24, 0x26; then 0x22, 0x20, 0xFF. |
| Commands.DisplayLutUpload | external_components/inkyphat_epaper/inkyphat_epaper.cpp:320-323 | The LUT register receives the 70-byte full red table when at_update_ = 0, the partial table when it is 1, and nothing otherwise. |
| Commands.DisplayBlackRam | external_components/inkyphat_epaper/inkyphat_epaper.cpp:385-388 | The black RAM receives exactly buffer[0, 4000), once. |
| Commands.DisplayRedRam | external_components/inkyphat_epaper/inkyphat_epaper.cpp:389-392 | The red RAM receives exactly buffer[4000, 8000), once. |
| Commands.DisplayRamImage | external_components/inkyphat_epaper/inkyphat_epaper.cpp:384-392 | The two RAM writes are 4000 bytes each, and together they are the whole framebuffer. |
| Commands.DisplayVcom | external_components/inkyphat_epaper/inkyphat_epaper.cpp:328-329 | VCOM is set once per refresh: 0x55 on a full refresh, 0x26 on a partial one. |
| Commands.DisplayPingPong | external_components/inkyphat_epaper/inkyphat_epaper.cpp:331-344 | The ping-pong register receives 00 00 00 00 40 00 00 on partial refreshes and nothing on full ones. |
| Commands.DisplayUpdateControl | external_components/inkyphat_epaper/inkyphat_epaper.cpp:341-395 | Update control 2 receives 0xC7 on a full refresh, and 0xC0 then 0x0C on a partial one. |
| Commands.DisplayBorder | external_components/inkyphat_epaper/inkyphat_epaper.cpp:347-357 | The border waveform register receives 0x00 and then 0x01, in both modes. |
| Commands.DisplayRamXWindow | external_components/inkyphat_epaper/inkyphat_epaper.cpp:361-363 | The RAM X window is set to 00 0F. |
| Commands.DisplayRamYWindow | external_components/inkyphat_epaper/inkyphat_epaper.cpp:365-369 | The RAM Y window is set to 00 00 F9 00. |
| Commands.DisplayRamXCounter | external_components/inkyphat_epaper/inkyphat_epaper.cpp:372-373 | The RAM X counter is set to 00. |
| Commands.DisplayRamYCounter | external_components/inkyphat_epaper/inkyphat_epaper.cpp:375-377 | The RAM Y counter is set to 00 00. |
| Commands.DisplayRamWindow | external_components/inkyphat_epaper/inkyphat_epaper.cpp:359-377 | The four RAM window and counter registers each receive exactly their values, once. |
| Commands.DisplayModeRegisters | external_components/inkyphat_epaper/inkyphat_epaper.cpp:327-357 | The mode-dependent registers (VCOM, update control 2, ping-pong, border) receive exactly their values for the refresh mode. |
| Commands.InitRegisters | external_components/inkyphat_epaper/inkyphat_epaper.cpp:254-285 | Initialisation sends 0x12, 0x01, 0x0C, 0x2C, 0x3A, 0x3B, 0x11, 0x21 in that order. Driver output control receives F9 00 00, and VCOM receives A8. |
| Commands.DisplayStream | external_components/inkyphat_epaper/inkyphat_epaper.cpp:320-400 | A refresh's byte stream is its seven phases sent one after the other. |
| Commands.InitStream | external_components/inkyphat_epaper/inkyphat_epaper.cpp:254-285 | The initialisation stream is its eight transactions sent one after the other. |
| Driver.EPaperBwr.constructor | external_components/inkyphat_epaper/inkyphat_epaper.cpp:60 | The buffer is allocated at 8000 bytes and cleared with the all-zero colour, which this fill turns into white (plane 1 all 0xFF, plane 2 all 0x00). The counter is at 0 and nothing has been sent. |
| Driver.EPaperBwr.SetFullUpdateEvery | external_components/inkyphat_epaper/inkyphat_epaper.cpp:427-429 | Sets the cadence length and nothing else. |
| Driver.EPaperBwr.Command | external_components/inkyphat_epaper/inkyphat_epaper.cpp:78-82 | Appends one command byte to the trace. |
| Driver.EPaperBwr.SendByte | external_components/inkyphat_epaper/inkyphat_epaper.cpp:83-87 | Appends one data byte to the trace. |
| Driver.EPaperBwr.SendData | external_components/inkyphat_epaper/inkyphat_epaper.cpp:386-388 | A write_array appends its bytes, in order, as data bytes. |
| Driver.EPaperBwr.CmdData | external_components/inkyphat_epaper/inkyphat_epaper.cpp:89-98 | The first byte goes out as a command and the remaining length − 1 bytes as its data. |
| Driver.EPaperBwr.WaitUntilIdle | external_components/inkyphat_epaper/inkyphat_epaper.cpp:100-144 | The busy gate always reports idle. |
| Driver.EPaperBwr.Fill | external_components/inkyphat_epaper/inkyphat_epaper.cpp:168-201 | After the two loops, the array equals the filled buffer of the colour's code: c1 in bytes [0, 4000) and c2 in bytes [4000, 8000), with (c1, c2) = 00/00 for black, FF/FF for red and FF/00 for every other colour. |
| Driver.EPaperBwr.DrawAbsolutePixelInternal | external_components/inkyphat_epaper/inkyphat_epaper.cpp:203-225 | After the in-place `&=`/`\|=` updates, the array is the pixel write of the colour's code applied to the old array. |
| Driver.EPaperBwr.WriteLut | external_components/inkyphat_epaper/inkyphat_epaper.cpp:421-426 | Sends opcode 0x32 followed by the first `size` table entries as data. |
| Driver.EPaperBwr.InitDisplay | external_components/inkyphat_epaper/inkyphat_epaper.cpp:254-285 | Appends exactly the initialisation sequence to the trace. |
| Driver.EPaperBwr.SendVcom | external_components/inkyphat_epaper/inkyphat_epaper.cpp:328-329 | Appends the VCOM transaction for the mode. |
| Driver.EPaperBwr.SendPingPong | external_components/inkyphat_epaper/inkyphat_epaper.cpp:333-343 | Appends the ping-pong, update-control and activation transactions of a partial refresh. |
| Driver.EPaperBwr.SendBorder | external_components/inkyphat_epaper/inkyphat_epaper.cpp:347-357 | Appends the two border waveform transactions. |
| Driver.EPaperBwr.SendRamWindow | external_components/inkyphat_epaper/inkyphat_epaper.cpp:361-377 | Appends the RAM window and counter transactions. |
| Driver.EPaperBwr.SendPlanes | external_components/inkyphat_epaper/inkyphat_epaper.cpp:385-392 | Appends plane 1 under 0x24, then plane 2 under 0x26. |
| Driver.EPaperBwr.SendActivation | external_components/inkyphat_epaper/inkyphat_epaper.cpp:394-400 | Appends update control for the mode, master activation and terminate frame. |
| Driver.EPaperBwr.SendRefresh | external_components/inkyphat_epaper/inkyphat_epaper.cpp:327-400 | Appends the refresh phases that follow the counter step, in order. |
| Driver.EPaperBwr.Display | external_components/inkyphat_epaper/inkyphat_epaper.cpp:301-400 | Advances the counter by the intended step. Appends exactly the refresh's transactions for the counter value before the call. Leaves the framebuffer unchanged. |

## Left out

- SPI transport (`enable`, `disable`, `write_byte`, `write_array`, `spi_setup`) and the data/command pin: the model records only the resulting byte sequence, with each byte marked as command or data.
- GPIO setup, the reset pulse and its `delay(10)` calls: these are hardware timing with no effect on the byte stream. `InitDisplay` models `init_display_` from line 254 on.
- The body of `wait_until_idle_`, that is, the busy-pin loop, the watchdog, `yield`, the delays and the timeout log: its termination depends on the hardware. Every exit returns `true`, and that is all the model keeps.
- The failure branches of `display()` at 314-318 and 379-382: they cannot be taken, because the busy gate always returns `true`.
- Deep sleep (lines 159, 238-242, 307-312, 405-409): every path to it is disabled by `if (false)`, and the flag is never set.
- `initialize()` (232-244) reduces to `init_display_` once the disabled deep-sleep branch is removed. It is modelled by `InitDisplay`.
- Logging, `dump_config`, `get_setup_priority`, `status_set_warning` and `status_clear_warning`: these are diagnostics only.
- `update()` and `do_update_`: the drawing layer that calls `display()` is not part of this model.
- `FULL_UPDATE_LUT_BLIX` (lines 17-30) is never referenced by the driver.
- The component header is not part of this model: `at_update_` and `full_update_every_` are taken to be 32-bit unsigned, and the model wraps the increment modulo 2^32. The constructor's starting counter `atUpdate == 0` likewise assumes the header's default initialiser for `at_update_`.
- `init_internal_` (line 60) belongs to the display base class, which is not part of this model. The constructor follows that base class: it allocates the buffer and then clears it with the all-zero colour through this driver's `fill`, which gives white. A failed allocation, which leaves the driver without a buffer, is not modelled.
- Driver.EPaperBwr.Display: requires full_update_every_ ≥ 1. With 0, line 325 divides by zero (see Findings), so the model does not cover that call.
- Driver.EPaperBwr.SendRefresh, SendVcom, SendPingPong, SendBorder, SendRamWindow, SendPlanes and SendActivation: in the source these are all part of `display()`. `display()` is split at its section comments so that each section is proved separately.
- Driver.EPaperBwr.DrawAbsolutePixelInternal: the source's `0x80 >> subpos` is computed on an int; the model computes it on a byte, which gives the same value for every subpos below 8.

## Findings

| source | as written | input that shows it | evidently intended | confidence | as-written member | corrected member |
|---|---|---|---|---|---|---|
| external_components/inkyphat_epaper/inkyphat_epaper.cpp:325 | The counter step `(at_update_ + 1) % full_update_every_` sits after the closing brace of the `if (full_update_every_ >= 1)` block (320-324), so it runs on every refresh. | full_update_every_ = 0: any call of display() divides by zero at line 325. | The guard at 320 shows that a cadence length of 0 is meant to be accepted. The step belongs under the same guard, and a length of 0 leaves the counter unchanged. | not executed | Cadence.AdvanceAsWrittenFaultsOnZero | Cadence.Advance |
