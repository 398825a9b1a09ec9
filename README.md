# SSD1680 e-paper driver core, modelled in Dafny

This project models the core of the `ssd1680` Rust crate, a driver for the
SSD1680 e-paper controller with a 250 x 122 panel. It covers three parts.

- **Rotation mapper.** `find_rotation` maps a logical pixel (x, y) to physical
  coordinates for each of the four rotations. The `u32` subtractions wrap as a
  release build computes them.
- **Bit-packed frame buffers.** The monochrome `Ssd1680` keeps one
  4000-byte buffer. The tri-colour `Ssd1680TriColor` keeps two parallel
  planes. `set_pixel` turns a pixel into a byte index and a one-bit mask,
  ignores an index past the end, and clears or sets that bit in place.
- **Command sequencer.** `SpiInterface` and the drivers' `flush*` methods emit
  a fixed, ordered stream of DC-pin changes, reset-pin changes, delays,
  busy-waits and SPI writes. The first refused SPI write ends the operation
  with `Error::Comm`, as the `?` chains do.

## Modules

One module per source file:

- `Lib` (lib.dfy) holds the constants and integer types of src/lib.rs and the
  `Error` type, which src/lib.rs and src/error.rs both declare identically.
  `BUF_SIZE` is `((DISPLAY_HEIGHT + 7) / 8) * DISPLAY_WIDTH` = 16 x 250 = 4000.
  The crate uses it but the shown src/lib.rs does not define it.
- `Commands` (command.dfy) is the opcode table of src/command.rs. `Opcode` gives each
  command's byte, as `command as u8` does. src/lib.rs repeats the same 17
  values at lines 43-62.
- `Display` (display.dfy) covers src/display.rs: rotations, `FindRotation`
  (`find_rotation`), the bit masks `Mask`, and the pixel and bounding-box types both drivers share.
- `Interface` (interface.dfy) covers src/interface.rs. It models:
  - the bus as an append-only event log: `Dc`, `Write`, `ResetPin`, `DelayMs`
    and `WaitBusyLow` events;
  - the device as a fixed oracle `Device<E> = nat -> Option<E>`, which gives
    the outcome of an SPI write made when the log holds n events;
  - the function `Exec(script, device, n)`, the run of a script that stops at
    the first refused write.

  Each method of the class `SpiInterface` appends to `log` exactly what
  `Exec` of its script emits, and returns `Exec`'s status
  (`Performed(old(log), Script, r)`). The lemmas `Then` and `Stop` say how
  such runs compose under `?`.
- `Monochrome` (monochrome.dfy) covers src/ssd1680.rs:
  - `PixelAddress`, the byte index and bit mask `set_pixel` computes for a
    pixel (src/ssd1680.rs:116-127);
  - the pure specification `Paint` and `ReadPixel` over `seq<bv8>`;
  - the class `Ssd1680`, whose `buffer` is an `array<bv8>` updated in place
    and proved equal to `Paint` of the old contents.
- `TriColorDriver` (tricolor.dfy) covers src/ssd1680tricolor.rs in the same
  way, with two arrays `buffer` and `buffer2` and the colour encoding
  `Encode`/`Decode` of the (plane 1, plane 2) bit pair. `TriAddress` is its
  index and mask formula (src/ssd1680tricolor.rs:97-108), with the axes
  swapped relative to `PixelAddress`.

Geometry results proved about the address formulas, as the code computes
them:

- Monochrome, unrotated: every pixel of the advertised 250 x 122 drawing area
  gets its own byte and bit inside the buffer.
- Monochrome, rotated:
  - Rotate90 and Rotate270 map two pixels of the drawing area to the same bit.
  - Rotate180 drops every pixel with x >= 121. Column 121 lands at byte
    3984 + (249 - y) / 8, which is at least 4000. For x >= 122 the
    subtraction wraps, and the index is past the end of the buffer as well.
- Tri-colour, unrotated:
  - the drawing area collides, for example at (128, 1) and (0, 0);
  - the region x < 128, y < 250 maps one-to-one into the planes.
- Tri-colour, Rotate90: the drawing area maps one-to-one into the planes.

## Model

| member | source | states |
|---|---|---|
| Lib.WrapSub | src/display.rs:28-39 | `u32` subtraction as a release build computes it: the result is the difference modulo 2^32, and exactly the difference when no underflow occurs |
| Lib.WrapAdd | src/ssd1680.rs:124-127 | `u32` addition of the index terms: the sum modulo 2^32, and exactly the sum when it fits |
| Lib.GeometryBytes | src/lib.rs:14-15 | ceil(122 / 8) = 16 and BUF_SIZE = 4000; DISPLAY_WIDTH - 1 = 249 and (DISPLAY_WIDTH + 7) / 8 = 32 fit in a byte; DISPLAY_WIDTH + 7 = 257 does not fit in `u8`, and its wrapped value would give 0 |
| Commands.OpcodeInjective | src/command.rs:6-25 | no two of the 17 commands share an opcode byte |
| Commands.DistinguishedOpcodes | src/command.rs:7-24 | Reset = 0x12, Sleep = 0x10, WriteRAM1 = 0x24 and WriteRAM2 = 0x26 (distinct RAMs for the two planes), DispCtrl2 = 0x22 and MasterActivate = 0x20 |
| Display.RotationExact | src/display.rs:23-40 | on each rotation's no-underflow domain (Rotate90 x < width; Rotate180 x < height and y < width; Rotate270 y < width) the result is the textbook formula, and the subtracted coordinate stays below its dimension; Rotate0 is the identity |
| Display.QuarterTurnsCancel | src/display.rs:28-39 | Rotate270 undoes Rotate90 and Rotate90 undoes Rotate270, for all inputs with the wrapping arithmetic |
| Display.HalfTurnInvolution | src/display.rs:32-35 | Rotate180 applied twice is the identity |
| Display.RotationInjective | src/display.rs:23-40 | for every rotation, distinct inputs give distinct outputs |
| Display.Mask | src/ssd1680.rs:126 | `0x80 >> k` for k < 8 is non-zero and has exactly one bit set |
| Display.MaskInjective | src/ssd1680.rs:126 | distinct bit positions give distinct masks |
| Display.MasksDisjoint | src/ssd1680.rs:126 | masks of distinct bit positions share no bit |
| Display.WriteBitEffect | src/ssd1680.rs:134-141 | `b & !m` / `b \| m` leave every bit outside the mask unchanged and leave the masked bits clear / set |
| Display.WriteBitKeepsOthers | src/ssd1680.rs:134-141 | writing one mask leaves the bits of any disjoint mask unchanged |
| Display.WriteBitLastWins | src/ssd1680.rs:134-141 | writing a mask twice equals the second write alone |
| Interface.ExecSucceeds | src/interface.rs:62-70 | a run succeeds exactly when the device accepts every write of the script, and a successful run emits the whole script |
| Interface.ExecAborts | src/interface.rs:91-123 | a failed run emits a non-empty prefix of the script ending in the refused write, all earlier writes accepted, and returns `Comm` of the device's error for that write |
| Interface.ExecAppend | src/interface.rs:91-92 | running `a + b` is running `a`, then `b` from where `a` left off only if `a` succeeded; a failure in `a` discards `b` |
| Interface.NoWritesNoFailure | src/interface.rs:72-85 | a script without SPI writes (pins, delays, busy waits) always succeeds and is emitted whole |
| Interface.Then | src/interface.rs:55-59 | `x?; y`: after a successful `x`, performing `y` performs `x` followed by `y`, with `y`'s outcome |
| Interface.Stop | src/interface.rs:55-59 | `x?; y`: a failed `x` performs `x` followed by `y` (the error returns early) |
| Interface.ScriptContents | src/interface.rs:39-70 | byte for byte: a command is DC low then the opcode; data is DC high then the bytes unchanged; `set_ram_address(x, y)` writes RamXCount [x] then RamYCount [y, (y + 7) / 8]; a frame write is the opcode then the whole buffer in one write; also the contents of `software_reset`, `power_down` and the refresh |
| Interface.LoadFrameContents | src/ssd1680.rs:84-92 | loading a frame is RamXCount [1], RamYCount [0, 0], the RAM-write opcode, the buffer in one data write, then a busy wait |
| Interface.ConfigureContents | src/interface.rs:95-112 | the configuration block byte for byte: DataMode [0x03], Border [0x05], Vcom [0x36], GateVoltage [0x17], SourceVoltage [0x41, 0x00, 0x32], then RAM counters (1, 0) |
| Interface.RamWindowContents | src/interface.rs:114-123 | RamXPos [0x01, 16], RamYPos [0, 0, 249, 32], Control [249, 32, 0] |
| Interface.PowerUpAccepted | src/interface.rs:87-124 | with a device that accepts every write, `power_up` emits its whole script and succeeds |
| Interface.PowerUpResetRefused | src/interface.rs:91-92 | if the Reset opcode write is refused, `power_up` emits only the hardware reset, DC low and that write, and returns the device's error |
| Interface.SpiInterface.constructor | src/interface.rs:30-37 | a new interface owns the given device and has emitted nothing |
| Interface.SpiInterface.SetDc | src/interface.rs:63 | driving DC appends one event and cannot fail |
| Interface.SpiInterface.SpiWrite | src/interface.rs:64 | one `spi.write`, appended to the log, returning `Comm` of the device's error when refused |
| Interface.SpiInterface.SendCommand | src/interface.rs:62-65 | performs DC low and the one-byte opcode write |
| Interface.SpiInterface.SendData | src/interface.rs:67-70 | performs DC high and the write of the bytes unchanged |
| Interface.SpiInterface.WriteRegister | src/interface.rs:96-109 | `send_command(c)?` then `send_data(bytes)`, stopping after a failed command |
| Interface.SpiInterface.SetRamAddress | src/interface.rs:54-60 | performs RamXCount [x] then RamYCount [y, (y + 7) / 8], stopping at the first failed write |
| Interface.SpiInterface.WriteRamFrameBuffer | src/interface.rs:44-52 | performs the opcode, DC high and the buffer in one write, stopping after a failed opcode |
| Interface.SpiInterface.HardwareReset | src/interface.rs:72-80 | reset low, 10 ms delay, reset high; always Ok |
| Interface.SpiInterface.BusyWait | src/interface.rs:82-85 | one busy wait; always Ok |
| Interface.SpiInterface.SoftwareReset | src/interface.rs:39-42 | the Reset opcode, then a busy wait unless the write failed |
| Interface.SpiInterface.Configure | src/interface.rs:95-112 | the five register writes and the RAM address (1, 0), stopping at the first failed write |
| Interface.SpiInterface.SetRamWindow | src/interface.rs:114-123 | RamXPos, RamYPos and Control with their geometry payloads, stopping at the first failed write |
| Interface.SpiInterface.PowerUp | src/interface.rs:87-124 | hardware reset, software reset, configuration and RAM window in order, stopping at the first failed write |
| Interface.SpiInterface.PowerDown | src/interface.rs:126-129 | Sleep then [0x01] |
| Interface.SpiInterface.LoadFrame | src/ssd1680.rs:84-92 | RAM address (1, 0), the frame write, a busy wait, stopping at the first failed write |
| Interface.SpiInterface.ActivateUpdate | src/ssd1680.rs:94-100 | DispCtrl2 [0xF4], MasterActivate, a busy wait, stopping at the first failed write |
| Monochrome.PaintByteEffect | src/ssd1680.rs:134-141 | On writes the masked bit clear and Off writes it set (`WriteBit`) |
| Monochrome.PaintAtEffect | src/ssd1680.rs:129-141 | an index past the end leaves the buffer unchanged; otherwise only the addressed byte changes, and only through `PaintByte` |
| Monochrome.PaintLastWins | src/ssd1680.rs:134-141 | setting a pixel twice equals the second write alone (so repeating a write is idempotent) |
| Monochrome.ReadBack | src/ssd1680.rs:124-141 | a pixel whose index is inside the buffer reads back as the colour just written |
| Monochrome.Rotate0Address | src/ssd1680.rs:124-127 | unrotated, a pixel of the 250 x 122 box lands at byte y / 8 + 16 * (249 - x), mask bit y % 8, inside the 4000-byte buffer |
| Monochrome.Rotate0Injective | src/ssd1680.rs:124-127 | unrotated, distinct pixels of the box get distinct (index, mask) pairs |
| Monochrome.Rotate0PaintKeepsOthers | src/ssd1680.rs:124-141 | unrotated, setting one pixel of the box leaves every other pixel of the box reading as before |
| Monochrome.Rotate90Collision | src/ssd1680.rs:116-127 | with Rotate90, pixels (121, 1) and (249, 0) of the box share a byte and a bit |
| Monochrome.Rotate270Collision | src/ssd1680.rs:116-127 | with Rotate270, pixels (128, 0) and (0, 1) of the box share a byte and a bit |
| Monochrome.Rotate180DropsWide | src/ssd1680.rs:116-132 | with Rotate180, a pixel of the box with x >= 121 gets an index of at least 4000 and leaves the buffer unchanged |
| Monochrome.OriginOnFreshBuffer | src/ssd1680.rs:124-141 | on the all-0xFF initial buffer, drawing (0, 0) On changes only byte 3984, to 0x7F |
| Monochrome.Draw | src/ssd1680.rs:157-169 | `draw_iter` over a pixel sequence keeps the buffer length |
| Monochrome.DrawLastWins | src/ssd1680.rs:157-169 | unrotated, after `draw_iter` each pixel of the box reads as the colour of the last pixel drawn at its position |
| Monochrome.DrawKeepsUndrawn | src/ssd1680.rs:157-169 | unrotated, after `draw_iter` a pixel of the box that no drawn pixel addresses reads as it did before |
| Monochrome.FlushContents | src/ssd1680.rs:59-82 | after `power_up`, `flush` sends RamXCount [1], RamYCount [0, 0], WriteRAM1 plus the buffer, a busy wait, DispCtrl2 [0xF4], MasterActivate, a busy wait, Sleep [0x01] |
| Monochrome.Ssd1680.constructor | src/ssd1680.rs:45-57 | every byte of the new buffer is 0xFF, and the interface has emitted nothing |
| Monochrome.Ssd1680.SetPixel | src/ssd1680.rs:113-142 | the array afterwards is `Paint` of its old contents |
| Monochrome.Ssd1680.DrawIter | src/ssd1680.rs:157-169 | the array afterwards is `Draw` of its old contents: pixels inside the box are set in order, the others skipped |
| Monochrome.Ssd1680.PowerUp | src/ssd1680.rs:106-111 | performs the interface's `power_up` script |
| Monochrome.Ssd1680.PowerDown | src/ssd1680.rs:102-104 | performs the interface's `power_down` script |
| Monochrome.Ssd1680.FlushDisplay | src/ssd1680.rs:84-92 | performs RAM address (1, 0), WriteRAM1 plus the buffer, a busy wait |
| Monochrome.Ssd1680.FlushUpdate | src/ssd1680.rs:94-100 | performs DispCtrl2 [0xF4], MasterActivate, a busy wait |
| Monochrome.Ssd1680.Flush | src/ssd1680.rs:59-82 | performs power up, flush_display, flush_update and power down in order, stopping at the first failed write, and leaves the buffer unchanged |
| TriColorDriver.GetBitValue | src/ssd1680tricolor.rs:186-191 | the bit is 0 or 1, and 1 exactly for White |
| TriColorDriver.GetByteValue | src/ssd1680tricolor.rs:194-199 | the byte is the bit value times 0xFF: 0xFF for White, 0x00 otherwise |
| TriColorDriver.ByteValueBits | src/ssd1680tricolor.rs:186-199 | each of the eight bits of the byte value is set exactly when the bit value is 1 |
| TriColorDriver.Decode | src/ssd1680tricolor.rs:115-128 | a decoded colour is one whose encoding is the given bit pair; only (plane 1 clear, plane 2 set) decodes to none |
| TriColorDriver.DecodeEncode | src/ssd1680tricolor.rs:115-128 | decoding a colour's bit pair gives the colour back |
| TriColorDriver.PaintBytesEffect | src/ssd1680tricolor.rs:115-128 | Black clears the bit in both planes, Chromatic sets it in both, White sets plane 1 and clears plane 2 |
| TriColorDriver.PaintAtEffect | src/ssd1680tricolor.rs:110-128 | an index past the end of plane 1 leaves both planes unchanged; otherwise only the addressed byte of each plane changes, through `PaintBytes` |
| TriColorDriver.ReadBack | src/ssd1680tricolor.rs:105-128 | a pixel whose index is inside the planes reads back as the colour just written |
| TriColorDriver.PaintLastWins | src/ssd1680tricolor.rs:115-128 | setting a pixel twice equals the second write alone |
| TriColorDriver.FreshIsWhite | src/ssd1680tricolor.rs:55-56 | on the initial planes (0xFF and 0x00) every pixel whose index is inside the planes reads White |
| TriColorDriver.Rotate0Address | src/ssd1680tricolor.rs:105-108 | unrotated, a pixel with x < 128 and y < 250 lands at byte x / 8 + 16 * (249 - y), mask bit x % 8, inside the planes |
| TriColorDriver.Rotate0Injective | src/ssd1680tricolor.rs:105-108 | unrotated, distinct pixels of the region x < 128, y < 250 get distinct addresses |
| TriColorDriver.Rotate0Collision | src/ssd1680tricolor.rs:97-108 | unrotated, pixels (128, 1) and (0, 0) of the 250 x 122 box both land at byte 3984, mask 0x80 |
| TriColorDriver.Rotate90Address | src/ssd1680tricolor.rs:97-108 | with Rotate90, a pixel of the 250 x 122 box lands at byte y / 8 + 16 * x, mask bit y % 8, inside the planes |
| TriColorDriver.Rotate90Injective | src/ssd1680tricolor.rs:97-108 | with Rotate90, distinct pixels of the box get distinct addresses |
| TriColorDriver.Rotate90PaintKeepsOthers | src/ssd1680tricolor.rs:97-128 | with Rotate90, setting one pixel of the box leaves every other pixel of the box reading as before |
| TriColorDriver.Draw | src/ssd1680tricolor.rs:144-156 | `draw_iter` over a pixel sequence keeps both planes' lengths |
| TriColorDriver.DrawLastWins | src/ssd1680tricolor.rs:144-156 | with Rotate90, after `draw_iter` each pixel of the box reads as the colour of the last pixel drawn at its position |
| TriColorDriver.DrawKeepsUndrawn | src/ssd1680tricolor.rs:144-156 | with Rotate90, after `draw_iter` a pixel of the box that no drawn pixel addresses reads as it did before |
| TriColorDriver.FlushContents | src/ssd1680tricolor.rs:60-92 | after `power_up`, `flush` sends RAM address (1, 0), WriteRAM1 plus plane 1, a busy wait, RAM address (1, 0), WriteRAM2 plus plane 2, a busy wait, DispCtrl2 [0xF4], MasterActivate, a busy wait, Sleep [0x01] |
| TriColorDriver.Ssd1680TriColor.constructor | src/ssd1680tricolor.rs:45-58 | plane 1 is all 0xFF and plane 2 all 0x00, two distinct arrays, and the interface has emitted nothing |
| TriColorDriver.Ssd1680TriColor.SetPixel | src/ssd1680tricolor.rs:94-129 | the two arrays afterwards are `Paint` of their old contents |
| TriColorDriver.Ssd1680TriColor.DrawIter | src/ssd1680tricolor.rs:144-156 | the two arrays afterwards are `Draw` of their old contents |
| TriColorDriver.Ssd1680TriColor.Flush | src/ssd1680tricolor.rs:60-92 | performs power up, both plane loads, the refresh and power down in order, stopping at the first failed write, and leaves both planes unchanged |

## Left out

- Async/await, the HAL traits (`SpiDevice`, `OutputPin`, `Wait`, `DelayUs`) and scheduling are not modelled. Every pin change, delay, busy wait and SPI write becomes one event in the log.
- The delay provider is not a parameter. `hardware_reset` records `DelayMs(10)`, and the drivers' `flush`/`power_up` take no `delay` argument.
- The busy line is one `WaitBusyLow` event. The source has no loop and no timeout to model. Pin and wait errors are discarded with `.ok()`, so they cannot fail the run.
- `Error::Pin(Infallible)` is left out: its payload type has no values, so `Error` has only `Comm`.
- The SPI device is a fixed oracle indexed by the log position of the write. A device whose answers depend on anything else, such as the bytes written or the time, is outside the model.
- Rust's debug-build panic on integer overflow is not modelled. `find_rotation` and the index computation use release-build wrap-around, so `set_pixel` is total; `Display.RotationExact` gives the domain on which no wrap occurs.
- Lib.WrapMul: no contract of its own. Where the model needs the product (16 times a value below 250), the lemmas assert it.
- Interface.SpiInterface.SetRamAddress: requires `y + 7 < 256`. The source computes `(y + 7) / 8` in `u8`, which would overflow for y > 248. Every caller passes y = 0.
- `(DISPLAY_WIDTH + 7) / 8` at src/interface.rs:118 and src/interface.rs:122 is computed in `u8` in the source, where 257 overflows. The model computes it without overflow (32), and `Interface.Byte` requires every payload value to fit in a byte. `Lib.GeometryBytes` records the overflow.
- Interface.SpiInterface.WriteRegister, Configure, SetRamWindow, LoadFrame and ActivateUpdate group the source's consecutive `send_command`/`send_data`/`set_ram_address`/`busy_wait` calls into named steps. The calls, their order and their early returns are those of the source; the grouping exists only to structure the proofs.
- Monochrome.Ssd1680.DrawIter and TriColorDriver.Ssd1680TriColor.DrawIter take a finite sequence of pixels, not an arbitrary iterator. The embedded-graphics `bounding_box`/`contains` filter becomes `Display.InBoundingBox`, the box at the origin of size 250 x 122 returned by `size` (src/ssd1680.rs:181-183, src/ssd1680tricolor.rs:168-170).
- Monochrome.Draw: its own contract states only that the length is kept. What drawing means is stated by `DrawLastWins` (drawn pixels) and `DrawKeepsUndrawn` (all other pixels), proved for Rotate0, the rotation that maps the box one-to-one. For the other rotations pixels of the box collide or are dropped, as the geometry results above show.
- TriColorDriver.Draw: its own contract states only that both lengths are kept. What drawing means is stated by `DrawLastWins` and `DrawKeepsUndrawn`, proved for Rotate90, the rotation that maps the box one-to-one; unrotated, pixels of the box collide.
- The example binaries under ssd1680-examples/ are hardware set-up (executors, peripherals, clocks, LEDs) and are not part of this model.
