# Vibe OS VGA banner kernel, modelled in Dafny

This project models `kernel.c` of Vibe OS. That file is a freestanding kernel entry point that writes to the VGA text-mode buffer. It packs colour attributes and glyph cells, measures NUL-terminated strings, clears the 80×25 screen to white-on-black spaces, and prints strings at coordinates. `kernel_main` combines these to paint two banners.

Modules, one per component of the file:

- `VgaEntry` (`vga_entry.dfy`): packs and unpacks colour attributes (`vga_entry_color`) and 16-bit glyph cells (`vga_entry`). These are pure functions on `bv8`/`bv16`.
- `CString` (`c_string.dfy`): `strlen` as a `while` loop over a byte sequence that contains a NUL. It is proved against the recursive specification function `Length`.
- `TextScreen` (`text_screen.dfy`): the memory-mapped glyph buffer as an `array<bv16>` of 2000 cells. `ClearScreen` and `PrintAt` are in-place loops. Their results are tied to the specification functions `Blank` and `Printed`. `Printed` is defined as the sequence of single-cell stores that the loop performs.
- `Kernel` (`kernel.dfy`): `KernelMain` and the exact screen it leaves, stated cell by cell and row by row.

`print_at` has no bounds check. Its precondition `RunFits` states what the C code needs from its callers. An empty string writes nothing and never evaluates the index, so any coordinates are allowed for it. Any other string needs two things: `y * 80` must not overflow a C `int`, and cells `y*80 + x` through `y*80 + x + strlen(str) - 1` must all lie inside the 2000-cell buffer. Negative `x` and `x` past column 79 are allowed as long as the linear index stays in range, because the C code writes linearly and does not clip.

Clearing is idempotent. `ClearScreen` ends with `vga[..] == Blank()`, and `Blank()` does not depend on what the buffer held before, so a second call leaves the same buffer.

`kernel.c` has no cursor, scrolling or keyboard code, so none is modelled.

## Model

| member | source | states |
|---|---|---|
| `VgaEntry.EntryColor` | kernel.c:21-23 | the low nibble of the attribute is fg's low nibble; the high nibble is fg's high nibble OR bg's low nibble (the 8-bit truncation of fg OR (bg shifted left by 4)); for nibble inputs the value is fg + 16·bg |
| `VgaEntry.ColorRoundTrip` | kernel.c:21-23 | for fg, bg < 16, Foreground and Background decode the packed attribute back to fg and bg exactly |
| `VgaEntry.ColorDecodeEncode` | kernel.c:21-23 | every attribute byte is the packing of its own two nibbles, so packing is a bijection on nibble pairs |
| `VgaEntry.Entry` | kernel.c:26-28 | the cell's low byte is the character and its high byte is the attribute, for all 8-bit inputs |
| `VgaEntry.CellDecodeEncode` | kernel.c:26-28 | every 16-bit cell is the packing of its own low and high byte |
| `VgaEntry.EntryInjective` | kernel.c:26-28 | distinct (character, attribute) pairs give distinct cells |
| `CString.Length` | kernel.c:31-37 | the length of a NUL-containing byte string is an index holding 0, and every byte before it is non-zero |
| `CString.LengthUnique` | kernel.c:31-37 | any index n with s[n] == 0 and no 0 before it equals Length(s): the result is the first NUL |
| `CString.LiteralLength` | kernel.c:33-35 | a literal of non-NUL bytes followed by its terminator has strlen equal to the literal's length |
| `CString.StrLen` | kernel.c:31-37 | the loop returns Length(str): str[len] == 0 and str[i] != 0 for every i < len |
| `TextScreen.BlankCell` | kernel.c:43 | the cell clear_screen writes is ' ' with foreground 15 and background 0, i.e. 0x0F20 |
| `TextScreen.Blank` | kernel.c:40-45 | the cleared buffer: 2000 copies of BlankCell, independent of the previous contents |
| `TextScreen.ClearScreen` | kernel.c:40-45 | afterwards all 2000 cells equal BlankCell, whatever the buffer held before (so clearing twice equals clearing once) |
| `TextScreen.WriteRunCells` | kernel.c:52-54 | a run of successive single-cell stores from index `start` sets exactly the cells from `start` for the run's length to the run's cells and leaves every other cell as it was |
| `TextScreen.PrintedCells` | kernel.c:48-55 | after print_at, cell y*80+x+i holds vga_entry(str[i], color) for each i < strlen(str), and every other cell is unchanged |
| `TextScreen.PrintedContinuesLinearly` | kernel.c:52-53 | character i lands at row y + (x+i)/80, column (x+i)%80, in bounds: writes past column 79 continue on the next row and are not clipped |
| `TextScreen.PrintedStaysInRow` | kernel.c:52-53 | when 0 <= x and x + strlen(str) <= 80, every index y*80+x+i that print_at writes, and so every cell it changes, lies in row y |
| `TextScreen.WriteRun` | kernel.c:52-53 | the loop's effect as successive single-cell stores from a start index; it keeps the buffer's length (its cells are given by WriteRunCells) |
| `TextScreen.Printed` | kernel.c:48-55 | the buffer after print_at: unchanged for an empty string, otherwise the glyphs of str before its NUL stored from y*80+x; it keeps 2000 cells (its cells are given by PrintedCells) |
| `TextScreen.PrintAt` | kernel.c:48-55 | the loop (with its strlen call) leaves the buffer equal to Printed(old buffer, str, x, y, color), under the bounds precondition the C code leaves to its callers |
| `Kernel.BannerFacts` | kernel.c:63-65 | the title's strlen is 18 and the subtitle's is 32; the colours are 0x0B and 0x07; both print_at calls meet the bounds precondition |
| `Kernel.KernelScreen` | kernel.c:58-66 | the buffer kernel_main leaves: the two print_at results applied in order to the cleared buffer; it has 2000 cells (its cells are given by KernelScreenCells) |
| `Kernel.KernelMain` | kernel.c:58-66 | clear_screen followed by the two print_at calls leaves the buffer equal to KernelScreen() |
| `Kernel.KernelScreenCells` | kernel.c:58-66 | cells 830..847 hold "Welcome to Vibe OS" in attribute 0x0B, cells 985..1016 hold "A simple 32-bit operating system" in 0x07, and every other cell is 0x0F20 |
| `Kernel.KernelScreenRows` | kernel.c:64-65 | read as text, row 10 is 30 spaces, the title, then 32 spaces; row 12 is 25 spaces, the subtitle, then 23 spaces; every other row is 80 spaces; neither banner spills into another row |

## Left out

- The physical address 0xB8000 and the pointer cast (kernel.c:13, 41, 49). The buffer is an `array<bv16>` passed to each routine. That memory is visible to the display hardware, which is I/O and not logic.
- The typedefs (kernel.c:6-10): `uint8_t` and `uint16_t` are `bv8` and `bv16`, and `int` is the `int32` newtype.
- CString.StrLen: returns an unbounded `nat` and does not model wrap-around of the 32-bit `size_t`. A string that long cannot fit in the address space.
- TextScreen.PrintAt: for a non-empty string, coordinates whose linear index falls outside the buffer are undefined behaviour in C. They are excluded by the precondition `RunFits` and not modelled as memory corruption. Under `RunFits`, the conversion of `y*80 + x` from `int` to `size_t` never wraps, so the model uses plain integer arithmetic.
- A cursor-relative terminal (line wrap, scrolling), a keyboard driver, a line editor and a startup delay. `kernel.c` is the repository's banner-only variant and contains none of them. The repository's fuller terminal-and-keyboard variant is not part of this model.
- VgaEntry.Entry: the value of a cell is given by its two decoded bytes, not as the integer c + 256·color. That integer form was too costly for the solver on 16-bit vectors, and the decoded-bytes form determines the cell uniquely (`CellDecodeEncode`).
