# CHIP-8 processor state and framebuffer, in Dafny

This project models two files of a CHIP-8 virtual machine written in Rust.

- `src/cpu.rs` holds the processor state record: 4096 bytes of memory, 16 byte registers, a 16-deep stack of 16-bit return addresses with its stack pointer, the delay and sound timers, the index register, the program counter, and a 64 x 32 byte display array. It also holds the constructor, the big-endian instruction fetch, and one emulation cycle. A cycle is a fetch, an execute step, and the timer epilogue that counts each running timer down by one.
- `src/display.rs` holds a 64 x 32 boolean framebuffer stored row-major, with pixel (x, y) at `x + WIDTH * y`. It also holds the clear, single-pixel inversion and XOR sprite drawing. Sprite coordinates wrap modulo the screen size.

The project has three modules:

- `Bytes` (`bytes.dfy`): the `u8` and `u16` newtypes and the big-endian `Word` with its inverse `HighByte`/`LowByte`.
- `Cpu` (`cpu.dfy`): the timer step as functions and the `Cpu` class. The class has array fields, a constructor, `ReadOpcode` and `EmulateCycle`.
- `Display` (`display.dfy`): the framebuffer as the `Display` class over an `array<bool>`. Specification functions on `seq<bool>` say what each method does. Every change the display makes is a list of pixel toggles (`Toggles`). A drawn sprite is the list of the pixels its lit columns target (`SpriteTargets`). The lemmas are stated over these lists, and the methods are proved to produce exactly `Toggle`, `Blank` and `Drawn` of the old contents.

## Reading of the source

Several lines of the two files do not compile as written. The model follows their evident intent:

- `self.pc` (src/cpu.rs:36) is the `program_counter` field.
- `opicode` (src/cpu.rs:43) is `opcode`.
- `self::pixels` (src/display.rs:16) is `self.pixels`.
- The unsized sprite parameter `[u8]` (src/display.rs:26) is a sequence of bytes.

`cls`, `swap_pixel` and `draw` also do something other than their evident purpose. The model keeps both the as-written and the corrected behaviour of each (see "## Findings"). The class methods implement the corrected behaviour. Every property of `draw` that holds under both readings is proved for both: the bound on indices, that an empty or all-zero sprite changes nothing, that drawing twice restores the buffer, and that no untargeted pixel changes. These lemmas take a `Reading` argument (`AsWritten` or `WithOffsets`).

Where the description of the system and the code disagree, the model follows the code:

- The code's fetch does not advance the program counter.
- The timers are decremented once per cycle, not by a separate 60 Hz clock.
- `draw` returns no collision flag.
- The processor's `display` byte array is not connected to the `Display` framebuffer.

## Model

| member | source | states |
|---|---|---|
| `Bytes.Word` | src/cpu.rs:36-37 | the fetched word's high byte is the first byte and its low byte the second (big-endian), and it is below 65536 |
| `Bytes.WordOfBytes` | src/cpu.rs:36-37 | every 16-bit word is the composition of its own high and low byte, so composing and splitting are inverse |
| `Cpu.Tick` | src/cpu.rs:47-48 | a timer step never increases the timer (no wrap to 255) and lowers a non-zero timer by exactly one |
| `Cpu.TicksFloor` | src/cpu.rs:47-48 | after n cycles a timer started at t reads t - n, floored at zero |
| `Cpu.BeepsOnce` | src/cpu.rs:48-49 | counting down from t, the beep condition (sound timer equal to 1 after the decrement) holds after exactly one cycle, the (t - 1)-th, and never when t < 2 |
| `Cpu.Cpu.constructor` | src/cpu.rs:19-32 | memory, registers, stack, stack pointer, both timers, index register and display array are zero; the program counter is `PROGRAM_START` = 0x200 |
| `Cpu.Cpu.ReadOpcode` | src/cpu.rs:34-39 | needs the program counter and the next address inside memory; the word's high byte is `memory[pc]` and its low byte `memory[pc + 1]`; as a function it changes no state |
| `Cpu.Cpu.EmulateCycle` | src/cpu.rs:41-50 | returns the word at the program counter; each timer takes one zero-floored step, independently of the other; reports the beep condition; memory, registers, stack, stack pointer, index register, program counter and display array are unchanged |
| `Display.PixelIndexInjective` | src/display.rs:22 | two on-screen coordinates share a row-major index only if they are equal |
| `Display.Blank` | src/display.rs:12 | the buffer of a new display has `WIDTH * HEIGHT` = 2048 pixels, all off |
| `Display.Toggle` | src/display.rs:21-24 | inverting pixel k keeps the buffer length, inverts pixel k and leaves every other pixel as it was |
| `Display.ToggleTwice` | src/display.rs:21-24 | inverting the same pixel twice restores the buffer |
| `Display.Toggles` | src/display.rs:26-37 | applying a list of in-range toggles keeps the buffer length |
| `Display.TogglesAt` | src/display.rs:26-37 | after a list of toggles a pixel is inverted exactly when it occurs an odd number of times in the list, in whatever order |
| `Display.TogglesElsewhere` | src/display.rs:26-37 | a pixel that is not in the toggle list keeps its value |
| `Display.TogglesTwice` | src/display.rs:26-37 | applying the same toggle list twice restores the buffer |
| `Display.TogglesSnoc` | src/display.rs:33 | one more toggle at the end of the list is one more single-pixel inversion of the result |
| `Display.TogglesAppend` | src/display.rs:27-36 | toggling one list and then another is toggling their concatenation |
| `Display.BitOrder` | src/display.rs:28-30 | column 0 of a row is its most significant bit (set iff the row is at least 0x80) and column 7 its least significant bit |
| `Display.ZeroRowUnlit` | src/display.rs:29-30 | a zero row has no lit column |
| `Display.Target` | src/display.rs:31-33 | under either reading, the pixel a lit column toggles is inside the 2048-pixel buffer for every x and y |
| `Display.RowTargets` | src/display.rs:28-34 | every pixel a sprite row toggles is inside the buffer |
| `Display.SpriteTargets` | src/display.rs:27-36 | every pixel a sprite toggles is inside the buffer |
| `Display.SpriteTargetsSnoc` | src/display.rs:27 | drawing one more row toggles that row's pixels after those of the earlier rows |
| `Display.Drawn` | src/display.rs:26-37 | drawing keeps the buffer length |
| `Display.RowTargetsMembers` | src/display.rs:28-34 | a pixel is toggled by a row if and only if some lit column of the row targets it |
| `Display.SpriteTargetsMembers` | src/display.rs:27-36 | a pixel is toggled by a sprite if and only if some lit column of some row targets it |
| `Display.DrawnElsewhere` | src/display.rs:26-37 | drawing changes no pixel that no lit column of the sprite targets |
| `Display.ZeroRowNoTargets` | src/display.rs:29-30 | a zero row toggles nothing |
| `Display.ZeroSpriteNoTargets` | src/display.rs:27-30 | a sprite whose rows are all zero, the empty sprite included, toggles nothing |
| `Display.DrawZeroSprite` | src/display.rs:27-30 | drawing an empty or all-zero sprite leaves the buffer unchanged |
| `Display.DrawTwice` | src/display.rs:26-37 | drawing the same sprite at the same place twice restores the buffer (XOR is self-inverse), under either reading |
| `Display.TargetInjective` | src/display.rs:31-33 | with the offsets added, two columns of rows of a sprite at most 32 rows tall hit the same pixel only if they are the same column of the same row |
| `Display.RowCount` | src/display.rs:28-34 | with the offsets added, a row toggles the pixel of its own column i exactly once if that column is lit, and never otherwise; it never toggles another row's pixels |
| `Display.SpriteCount` | src/display.rs:27-36 | with the offsets added, a sprite of at most 32 rows toggles the pixel of column i of row pos exactly once if that bit is set, and never otherwise |
| `Display.DrawnAt` | src/display.rs:26-37 | with the offsets added, drawing inverts pixel ((x + i) % 64, (y + pos) % 32) exactly when column i of row pos is lit |
| `Display.AsWrittenRowCount` | src/display.rs:28-34 | as written, a row toggles only the base pixel, once per lit column |
| `Display.AsWrittenSpriteCount` | src/display.rs:27-36 | as written, a sprite toggles only the base pixel, once per lit column of all its rows |
| `Display.AsWrittenAt` | src/display.rs:31-33 | as written, only pixel (x % 64, y % 32) can change, and it is inverted exactly when the sprite has an odd number of lit columns |
| `Display.AsWrittenDropsOffsets` | src/display.rs:31-33 | the one-row sprite 0xC0 at (0, 0) on a blank screen leaves pixels 0 and 1 off as written, but lights both with the offsets added |
| `Display.ClearedAsWritten` | src/display.rs:15-19 | `cls` as written keeps the buffer length (it writes to copies only) |
| `Display.ClsAsWrittenKeepsLitPixel` | src/display.rs:16-17 | a lit pixel stays lit through `cls` as written, while the intended clear turns it off |
| `Display.SwappedAsWritten` | src/display.rs:21-24 | `swap_pixel` as written keeps the buffer length (it inverts a copy only) |
| `Display.SwapAsWrittenLosesUpdate` | src/display.rs:22-23 | `swap_pixel` as written leaves the given pixel as it was, while the intended swap inverts it |
| `Display.Display.constructor` | src/display.rs:11-13 | a new display holds `WIDTH * HEIGHT` pixels, all off |
| `Display.Display.Cls` | src/display.rs:15-19 | after `cls` every pixel is off and the buffer length is unchanged |
| `Display.Display.SwapPixel` | src/display.rs:21-24 | needs `x + WIDTH * y` inside the buffer; inverts exactly that pixel and leaves all others unchanged |
| `Display.Display.Draw` | src/display.rs:26-37 | the buffer becomes `Drawn` of the old buffer with the offsets added: the pixels targeted by the lit columns of the rows, scanned most significant bit first, are toggled in order |
| `Display.Display.DrawRow` | src/display.rs:28-35 | the inner loop over columns 0 to 7 of one row toggles exactly that row's targets, in order |

## Left out

- `execute_opcode` (src/cpu.rs:45) is not part of this model: its body is not in the two files. `EmulateCycle` performs the fetch and the timer epilogue and hands the fetched word back. It does not decode or execute it, so the opcode table, the stack errors and the flag conventions are not modelled.
- `Cpu.Cpu.EmulateCycle`: its "everything but the timers is unchanged" holds because the execute step between fetch and epilogue is left out.
- `Keyboard` (src/cpu.rs:1, src/cpu.rs:15, src/cpu.rs:30) comes from `crate::keyboard`, which is not part of this model. The field is dropped.
- The `println!("BEEEP!!")` console output (src/cpu.rs:49) is I/O. `EmulateCycle` returns the condition under which it happens.
- The model does not connect the processor's `display` byte array with the `Display` framebuffer, because the code does not connect them.
- Like the code, the model has no collision flag from drawing, no pixel query, no font loading and no program loading.
- Rendering and real-time timing are not in these files.
- `Display.DrawnAt` is stated for sprites of at most 32 rows. Taller sprites wrap onto their own rows; for them `TogglesAt` with `SpriteTargets` gives the effect of each pixel.

## Findings

| source | as written | input that shows it | evidently intended | confidence | as-written member | corrected member |
|---|---|---|---|---|---|---|
| src/display.rs:31-33 | every lit column toggles the same base pixel `(x % WIDTH, y % HEIGHT)`; `pos` and `i` are never added | the one-row sprite `[0xC0]` at (0, 0) on a blank screen: pixel (0, 0) is toggled twice and pixels (0, 0) and (1, 0) stay off | column `i` of row `pos` toggles `((x + i) % WIDTH, (y + pos) % HEIGHT)`, lighting both pixels | high; not executed | `Display.AsWrittenDropsOffsets` | `Display.Display.Draw` |
| src/display.rs:22-23 | `swap_pixel` inverts a local copy of the pixel, so the buffer never changes | any buffer and any in-range (x, y): the pixel keeps its value | write the inverted value back into the buffer | high; not executed | `Display.SwapAsWrittenLosesUpdate` | `Display.Display.SwapPixel` |
| src/display.rs:16-17 | `cls` assigns `OFF` to the loop variable, a copy of each pixel, so the buffer never changes | a buffer with pixel 0 lit: it stays lit | set every pixel of the buffer to `OFF` | high; not executed | `Display.ClsAsWrittenKeepsLitPixel` | `Display.Display.Cls` |
