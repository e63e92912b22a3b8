# pendOS drivers in Dafny

This project models the three hardware-facing drivers of the pendOS kernel.
Each piece of hardware is replaced by a plain array or by an append-only
event log.

- **Interrupt descriptor table** (`Idt`, from `src/include/cpu/idt.h`).
  - The table is 256 packed 8-byte gate descriptors, in the layout of
    section 6.11 of the Intel 64 and IA-32 Architectures Software
    Developer's Manual, Volume 3A. `set_idt_entry` fills one slot.
  - `idt_install` runs its steps in this order:
    1. sets the table pointer (limit 2047, the table's base);
    2. zero-fills every slot;
    3. installs interrupt gates for vectors 0-19 and 32-47, with selector
       0x08 and flags 0x8E;
    4. sends the ten 8259A remap bytes;
    5. calls `idt_load` once.
  - `Idt.Table` holds the `idt` array and `idtp`.
  - The processor and its ports are a `Hw.Machine`, which records every
    `outb` and `idt_load` in a ghost log. The `idt_load` event carries a
    snapshot of the table's bytes at the moment of the load.
- **Text console** (`Tty`, from `src/include/drivers/tty.h`).
  - The screen is an 80x25 grid of (character, attribute) cells at the
    start of the VGA text window, plus a cursor (x, y, colour).
  - `Tty.Console` holds the video bytes and the cursor. Its methods are
    the console operations: put a character, write a string, scroll,
    clear, set the colour or the cursor, and update the hardware cursor
    through the CRT controller's ports 0x3D4/0x3D5.
  - The methods that change the screen are proved against a function on
    a `Screen` value (`Put`, `PutAll`, `Scrolled`, `Cleared`). The lemmas state what those
    functions do.
- **Framebuffer renderer** (`Vbe`, from `src/include/drivers/vbe.h`).
  - `Vbe.Renderer` holds the 800x600 back buffer of 32-bit pixels, the
    hardware framebuffer, `pitch`, `size` and the font.
  - Its methods are the renderer's operations: plot a pixel, fill,
    draw a rectangle, draw a bitmap glyph at a scale, write a string, and
    swap buffers.
  - Each method is proved against a function on `seq<bv32>`: `Painted`,
    `Filled`, `DrawChar`, `DrawString` or `Shown`. The lemmas say which
    pixels those functions change and which they keep.

`Hw` holds what the drivers share:
- the fixed-width integer types;
- the C `strlen` and 32-bit truncation;
- the `Machine` event log.

Two behaviours of the code that the model keeps:
- A newline also forces the colour to light grey (0x07).
- A newline runs `tty_update_cursor` twice: once inside the nested
  `tty_putchar(' ')`, with the cursor one cell to the right, and once at
  the end. `Tty.PutLog` records both.

## Model

| member | source | states |
|---|---|---|
| Hw.Wrap32 | src/include/drivers/vbe.h:38 | a value stored into a `uint32_t` equals the value when it fits and differs from it by a multiple of 2^32 |
| Hw.Strlen | src/include/drivers/tty.h:129 | the length is the index of the first NUL byte: every earlier byte is non-zero |
| Hw.Machine.Outb | src/include/cpu/idt.h:178 | `outb(port, value)` appends exactly one port write to the log |
| Hw.Machine.IdtLoad | src/include/cpu/idt.h:65 | `idt_load` appends one table-load event carrying the limit, the base and the table image |
| Idt.GateAddress | src/include/cpu/idt.h:115-121 | for a handler below 2^32, `handler_lo + handler_hi * 65536` gives back the handler; `sel` and `flags` are stored as given and `always0` is 0 |
| Idt.DecodeFlags | src/include/cpu/idt.h:39 | a flag byte splits into P (bit 7), DPL (bits 5-6, below 4), S (bit 4), D (bit 3) and the type (bits 0-2, below 8), and those fields rebuild the byte, so distinct bytes decode to distinct kinds |
| Idt.InterruptGateFlags | src/include/cpu/idt.h:15 | 0x8E decodes as present, DPL 0, 32-bit, type 110b (interrupt gate), with the storage-segment bit clear |
| Idt.EncodeEntry | src/include/cpu/idt.h:35-41 | a packed descriptor is exactly 8 bytes |
| Idt.DecodeEncode | src/include/cpu/idt.h:35-41 | decoding the packed little-endian bytes of a descriptor gives it back |
| Idt.EncodeDecode | src/include/cpu/idt.h:35-41 | every 8-byte string is the encoding of the descriptor it decodes to |
| Idt.TableImageSlot | src/include/cpu/idt.h:54 | the table image is 8 bytes per slot, and slot v's descriptor sits at bytes 8v to 8v+7 |
| Idt.RemapOffsetsMatchGates | src/include/cpu/idt.h:178-181 | as bytes only: both ICW1 writes (0x10) leave IC4 clear, and the ICW2 writes to ports 0x21 and 0xA1 carry 0x20 and 0x28, the first vectors of the installed ranges 32-39 and 40-47 |
| Idt.SingleLoadAtEnd | src/include/cpu/idt.h:189 | a log of port writes that ends in one table load holds exactly one load |
| Idt.InstallLogShape | src/include/cpu/idt.h:178-189 | what `idt_install` logs is ten port writes and then exactly one `idt_load`, which is the last event |
| Idt.Table.constructor | src/include/cpu/idt.h:54-59 | the static table starts with every slot zero and a zero table pointer |
| Idt.Table.SetEntry | src/include/cpu/idt.h:115-121 | slot `num` becomes the gate for (handler, sel, flags) and no other slot changes; a `uint8_t` index is always inside the table |
| Idt.Table.Install | src/include/cpu/idt.h:126-190 | the limit is 8 * 256 - 1 = 2047 and the base is the table's address. The table becomes `InstalledTable(handlers)`. The log gains the ten remap writes and then one load of exactly the finished table's 2048 bytes |
| Idt.RemapPics | src/include/cpu/idt.h:178-187 | the ten (port, byte) writes are sent in source order: (0x20,0x10) (0xA0,0x10) (0x21,0x20) (0xA1,0x28) (0x21,0x04) (0xA1,0x02) (0x21,0x01) (0xA1,0x01) (0x21,0x00) (0xA1,0x00) |
| Idt.InstalledTableSlots | src/include/cpu/idt.h:130-176 | after the install, slots 0-19 and 32-47 hold the handler's address with selector 0x08, flags 0x8E and `always0` 0; every other slot is all zero |
| Tty.GetColor | src/include/drivers/tty.h:50-52 | the foreground is the low nibble of the attribute and the background the high nibble |
| Tty.CursorLogLocation | src/include/drivers/tty.h:64-71 | the cursor update writes index 0x0F then the low byte, and index 0x0E then the high byte, of `pos = y * 80 + x` truncated to 16 bits; on the grid that is the cell's index |
| Tty.PutAllAppend | src/include/drivers/tty.h:128-132 | writing a + b is possible exactly when writing a is and writing b from the screen a leaves is; it then ends in the same screen as writing a and then b, and its port writes are a's followed by b's |
| Tty.PutPrintable | src/include/drivers/tty.h:111-119 | a printable byte writes itself and the colour at `2 * (x + 80 * y)` and changes no other byte. The colour is kept. The cursor moves right, or to (0, y+1) at column 80, with no scroll |
| Tty.NewlineMidScreen | src/include/drivers/tty.h:98-105 | a newline above the last row moves the cursor to (0, y+1) and forces colour 0x07; its only video change is cell (0, y+1) set to ' '/0x07 |
| Tty.NewlineAtBottom | src/include/drivers/tty.h:98-109 | a newline on row 24 (or below) writes the blank one row down, then exactly one scroll runs and the cursor stays at (0, y) with colour 0x07; from row 24 the blank lands at offsets 4000-4001, outside the grid |
| Tty.ScrolledCells | src/include/drivers/tty.h:137-144 | after a scroll each cell of rows 0-23 holds the cell below it and row 24 is ' ' in the current colour; bytes past the grid are untouched |
| Tty.FillingRowWraps | src/include/drivers/tty.h:114-118 | printing the rest of a row with no newline leaves the cursor at (0, y+1), not (80, y) |
| Tty.NewlineThenPrintable | src/include/drivers/tty.h:98-119 | a newline followed by a printable byte puts the byte at column 0 of the next row in the now-active colour 0x07 and leaves the cursor at (1, y+1) |
| Tty.Console.constructor | src/include/drivers/tty.h:41-42 | the console starts with the cursor at (0, 0) in light grey |
| Tty.Console.SetColor | src/include/drivers/tty.h:57-59 | only the cursor's colour changes |
| Tty.Console.SetCursor | src/include/drivers/tty.h:86-89 | only the cursor's position changes, with no check against the grid |
| Tty.Console.UpdateCursor | src/include/drivers/tty.h:64-71 | the log gains exactly the four CRT controller writes for the current cursor |
| Tty.Console.Clear | src/include/drivers/tty.h:76-81 | every even offset below 4000 becomes ' ' and every odd one the colour. The rest of the window and the cursor are unchanged |
| Tty.Console.ScrollUp | src/include/drivers/tty.h:137-144 | video becomes `Scrolled`: bytes 0-3839 take the bytes 160 further on, row 24 is blanked in the current colour, and the rest is kept |
| Tty.Console.PutChar | src/include/drivers/tty.h:94-123 | the screen becomes `Put(old screen, c)`; the log gains the cursor update(s) of `PutLog` |
| Tty.Console.Store | src/include/drivers/tty.h:111-119 | the default branch stores the byte and the attribute at the cursor's cell, then moves the cursor right, wrapping at column 80 |
| Tty.Console.WriteString | src/include/drivers/tty.h:128-132 | the result is `tty_putchar` applied in order to each byte before the NUL, for both the screen and the log |
| Vbe.Pixel | src/include/drivers/vbe.h:26-29 | the packed value is below 2^24, and r, g and b come back out by shifting and masking |
| Vbe.PitchPixels | src/include/drivers/vbe.h:37 | `pitch` is the byte pitch divided by four, rounded down |
| Vbe.OffsetMonotone | src/include/drivers/vbe.h:53 | `y * pitch + x` grows with x and with y |
| Vbe.OffsetInjective | src/include/drivers/vbe.h:53 | two pixels whose columns are inside the pitch share an index only if they are the same pixel |
| Vbe.RectByColumnAndRow | src/include/drivers/vbe.h:69-75 | when `x + width <= pitch`, the rectangle's indices are exactly those whose column is in [x, x+width) and whose row is in [y, y+height) |
| Vbe.RectCell | src/include/drivers/vbe.h:70-71 | pixel (i, j) is in the rectangle exactly when i and j are in its ranges |
| Vbe.PaintedTaller | src/include/drivers/vbe.h:71-73 | one more inner-loop step sets exactly one more pixel, the one at the bottom of the column |
| Vbe.PaintedWider | src/include/drivers/vbe.h:70-74 | one more outer-loop step adds exactly the next column |
| Vbe.FillIdempotent | src/include/drivers/vbe.h:59-63 | filling twice with the same colour is the same as filling once |
| Vbe.GlyphCoversStep | src/include/drivers/vbe.h:86-88 | the cells covering a pixel among the first m+1 are those among the first m, plus cell m if it covers it |
| Vbe.GlyphPrefixCovers | src/include/drivers/vbe.h:86-96 | after the first n cells, a pixel holds the colour exactly when the block of one of those cells with its bit set covers it; every other pixel is unchanged |
| Vbe.GlyphPrefixStep | src/include/drivers/vbe.h:88-94 | the cell in column cx of row cy paints its scale-by-scale block when bit 7-cx of glyph row cy is set, and nothing otherwise |
| Vbe.DrawCharPaintsSetBit | src/include/drivers/vbe.h:88-91 | when bit 7-cx of `font[c*16+cy]` is set, pixel (x+cx*scale+s, y+cy*scale+s1) ends in the colour, for every s and s1 below the scale |
| Vbe.DrawCharOnlySetBits | src/include/drivers/vbe.h:81-96 | a pixel that changes takes the colour, and lies in the block of a set bit of a non-newline glyph |
| Vbe.BlankGlyphDrawsNothing | src/include/drivers/vbe.h:84-96 | a glyph whose 16 rows are all zero leaves the buffer unchanged |
| Vbe.ZeroScaleDrawsNothing | src/include/drivers/vbe.h:89-90 | scale 0 leaves the buffer unchanged |
| Vbe.GlyphBlockFits | src/include/drivers/vbe.h:91 | when the whole glyph fits, every cell's block fits with 16-bit coordinates |
| Hw.Wrap32Add | src/include/drivers/vbe.h:104 | reducing a partial sum modulo 2^32 does not change the 32-bit result of adding to it |
| Vbe.DrawStringAppend | src/include/drivers/vbe.h:102-106 | drawing a + c is drawing a, then drawing c starting 8 * scale pixels further right for each character of a, modulo 2^32 |
| Vbe.DrawStringAt | src/include/drivers/vbe.h:103-105 | character i of a string is drawn over the drawing of the first i characters, at x + 8 * scale * i modulo 2^32, and the characters after it follow 8 * scale further right |
| Vbe.PlotThenSwap | src/include/drivers/vbe.h:45-54 | a pixel plotted before a swap is shown at its index, and no other shown word differs |
| Vbe.Renderer.Init | src/include/drivers/vbe.h:34-40 | `pitch = framebuffer_pitch / 4`, `size = framebuffer_pitch * framebuffer_height` in 32 bits; the font is the one given and the back buffer starts zero |
| Vbe.Renderer.SwapBuffers | src/include/drivers/vbe.h:45-47 | words [0, 480000) of the framebuffer become the back buffer, whatever `size` is; the words after them are kept |
| Vbe.Renderer.PutPixel | src/include/drivers/vbe.h:52-54 | exactly `backbuffer[y * pitch + x]` becomes the colour |
| Vbe.Renderer.Fill | src/include/drivers/vbe.h:59-63 | words [0, size/4) become the colour and the rest are kept |
| Vbe.Renderer.FillBlock | src/include/drivers/vbe.h:70-74 | the double `vbe_putpixel` loop sets exactly the rectangle's pixels to the colour |
| Vbe.Renderer.Rect | src/include/drivers/vbe.h:69-75 | exactly the pixels of the rectangle become the colour |
| Vbe.Renderer.PutChar | src/include/drivers/vbe.h:80-97 | the buffer becomes `DrawChar`: unchanged for '\n', otherwise each set bit's block painted, cell by cell |
| Vbe.Renderer.DrawCell | src/include/drivers/vbe.h:88-94 | one cell's step of the glyph loop |
| Vbe.Renderer.WriteString | src/include/drivers/vbe.h:102-106 | the buffer becomes `DrawString`: `vbe_putchar` for character i at (x + i * 8 * scale as a `uint32_t`, y), in order, for each byte before the NUL |

## Left out

- `interrupt_enable_all`/`interrupt_disable_all` (`sti`/`cli`): interrupt
  masking is concurrency, and the model is sequential.
- The assembly trampolines `interrupt_handler_N` and `idt_load` itself are
  foreign code.
  - Handler addresses are an input, `handlers[v]`, with 32 bits each.
  - `idt_load` is a logged event.
- `outb` and the 8259A controllers are not simulated. Only the bytes sent
  are stated. The first byte, 0x10, lacks ICW1's IC4 bit, so no claim is
  made about the mode the controllers end up in, nor about the vectors
  the IRQ lines are delivered on. With no ICW4 expected, the two 0x01
  writes are interrupt-mask writes, cleared by the 0x00 writes after them.
- Physical addresses are not modelled.
  - The text window at 0xB8000 is the `video` array.
  - `(uint32_t)&idt` is the abstract `Table.base`.
  - The framebuffer address is the `framebuffer` array given to `Init`.
- `fat_find_file`/`fat_read_file`: the font is an input of at least 4096
  bytes. The path where the font file is missing is not modelled.
- `multiboot_info_t` is reduced to the three fields read: address, pitch
  and height.
- `memcpy`, `memmove` and `strlen` are modelled by their effect.
  - `tty_scrollup`'s `memcpy` overlaps its source and destination. It is
    taken as its intended forward copy of rows 1-24 onto rows 0-23.
- The 36 `SET_IDT_ENTRY` macro calls are written as two loops over
  0-19 and 32-47. They make the same calls in the same order.
- Tty.Console.PutChar: requires that the bytes it writes lie inside the
  32 KiB text window.
  - This covers the blank at offset 4000 from row 24, and a character
    written after wrapping from (79, 24), which lands at (0, 25).
  - Writes beyond the window are left out.
  - The 16-bit wrap of `pos` and of `cursor.y` therefore never occurs.
- Tty.Console.WriteString: requires that every byte of the string stays
  inside the text window, for the same reason.
- Vbe.Renderer.PutPixel: requires `y * pitch + x < 480000`, computed
  without 32-bit wrap-around. Out-of-range writes are left out.
- Vbe.Renderer.Fill: requires `size / 4 <= 480000`. A framebuffer larger
  than the back buffer would make the source write past it.
- Vbe.Renderer.Rect: requires `x + width` and `y + height` at most 0xFFFF.
  Beyond that the `uint16_t` loop counters wrap, and the source loops
  forever or off the buffer. Also requires every pixel to be inside the
  back buffer.
- Vbe.Renderer.PutChar: for a character other than '\n', requires the
  whole scaled glyph inside the back buffer with coordinates below 2^16. The `uint32_t` to `uint16_t`
  truncation of pixel coordinates is therefore not modelled.
- Vbe.Renderer.WriteString: requires the string to be shorter than 2^16
  bytes, where the source's `uint16_t` counter would wrap and loop forever.
  Also requires each character other than '\n' to fit where it is drawn,
  as for `PutChar`.
- Vbe.Renderer.SwapBuffers: requires a framebuffer of at least 480000
  words, the size `memmove` copies.
