/** The text console (src/include/drivers/tty.h): an 80x25 grid of
    two-byte cells (character, attribute) at the start of the VGA text
    window, a cursor (x, y, color), and the CRT controller's
    cursor-location registers behind ports 0x3D4/0x3D5. */
module Tty {
  import opened Hw

  const Width: nat := 80
  const Height: nat := 25
  /** Bytes of one row and of the whole visible grid. */
  const RowBytes: nat := 160     // Width * 2
  const GridBytes: nat := 4000   // Width * Height * 2
  /** The VGA text window 0xB8000-0xBFFFF that `screen.video` points into;
      the console addresses it past the visible grid (row 25 and below). */
  const VideoBytes: nat := 0x8000

  const Space: u8 := 0x20

  /** CRT controller index and data ports, and the cursor-location registers. */
  const CrtIndex: u16 := 0x3D4
  const CrtData: u16 := 0x3D5
  const CursorLocationLow: u8 := 0x0F
  const CursorLocationHigh: u8 := 0x0E

  /** tty_color_t: the sixteen text-mode colours. */
  type Color4 = c: bv8 | c < 16

  const Black: Color4 := 0
  const LightGrey: Color4 := 7

  /** tty_get_color: foreground in the low nibble, background in the high one. */
  function GetColor(fg: Color4, bg: Color4): (attr: bv8)
    ensures attr & 0x0F == fg && attr >> 4 == bg
  {
    fg | (bg << 4)
  }

  /** tty_cursor_t. */
  datatype Cursor = Cursor(x: u16, y: u16, color: u16)

  /** What the console owns: the text window's bytes and the cursor. */
  datatype Screen = Screen(video: seq<u8>, cursor: Cursor)

  /** Byte offset of cell (x, y); the character is there, the attribute next. */
  function CellOffset(x: int, y: int): int {
    (x + y * 80) * 2
  }

  /** The attribute byte stored for a 16-bit `cursor.color`. */
  function Attr(color: u16): u8 {
    color % 0x100
  }

  /** The four port writes of tty_update_cursor for cursor c. */
  function CursorLog(c: Cursor): seq<Event> {
    var pos := (c.y * 80 + c.x) % 0x1_0000;
    [Out(CrtIndex, CursorLocationLow), Out(CrtData, pos % 0x100),
     Out(CrtIndex, CursorLocationHigh), Out(CrtData, (pos / 0x100) % 0x100)]
  }

  /** The CRT controller reassembles the 16-bit cursor location from the two
      data bytes; for a cursor on the grid that is the cell's index. */
  lemma CursorLogLocation(c: Cursor)
    ensures var log := CursorLog(c);
      |log| == 4 && log[0] == Out(CrtIndex, 0x0F) && log[2] == Out(CrtIndex, 0x0E) &&
      log[1].port == CrtData && log[3].port == CrtData &&
      log[1].value + 0x100 * log[3].value == (c.y * 80 + c.x) % 0x1_0000 &&
      (c.x < Width && c.y < Height ==> log[1].value + 0x100 * log[3].value == c.y * 80 + c.x)
  {
    var pos := (c.y * 80 + c.x) % 0x1_0000;
    assert pos / 0x100 < 0x100;
    assert pos == 0x100 * (pos / 0x100) + pos % 0x100;
  }

  /** The whole grid blanked to spaces in `color`; the rest of the window kept. */
  function Cleared(v: seq<u8>, color: u16): seq<u8>
    requires |v| == VideoBytes
  {
    seq(|v|, i requires 0 <= i < |v| =>
      if i < GridBytes then (if i % 2 == 0 then Space else Attr(color)) else v[i])
  }

  /** Rows 1-24 moved up one row, row 24 blanked in `color`. */
  function Scrolled(v: seq<u8>, color: u16): seq<u8>
    requires |v| == VideoBytes
  {
    seq(|v|, i requires 0 <= i < |v| =>
      if i < GridBytes - RowBytes then v[i + RowBytes]
      else if i < GridBytes then (if i % 2 == 0 then Space else Attr(color))
      else v[i])
  }

  /** Whether `tty_putchar(c)` writes only inside the text window. */
  predicate CanPut(s: Screen, c: u8) {
    |s.video| == VideoBytes &&
    if c == Newline then CellOffset(0, s.cursor.y + 1) + 1 < VideoBytes
    else CellOffset(s.cursor.x, s.cursor.y) + 1 < VideoBytes
  }

  /** The default branch of tty_putchar: store the byte and the attribute at
      the cursor, step right, and wrap to the next row at the right edge. */
  function Emit(s: Screen, c: u8): Screen
    requires |s.video| == VideoBytes && CellOffset(s.cursor.x, s.cursor.y) + 1 < VideoBytes
  {
    var p := CellOffset(s.cursor.x, s.cursor.y);
    var v := s.video[p := c][p + 1 := Attr(s.cursor.color)];
    if s.cursor.x + 1 >= Width then Screen(v, s.cursor.(x := 0, y := s.cursor.y + 1))
    else Screen(v, s.cursor.(x := s.cursor.x + 1))
  }

  /** The first half of the newline branch: next row, light grey on black,
      and the nested `tty_putchar(' ')`. */
  function NewlineBlank(s: Screen): Screen
    requires CanPut(s, Newline)
  {
    Emit(Screen(s.video, Cursor(0, s.cursor.y + 1, GetColor(LightGrey, Black) as int)), Space)
  }

  /** The state after tty_putchar(c). */
  function Put(s: Screen, c: u8): Screen
    requires CanPut(s, c)
  {
    if c == Newline then
      var t := NewlineBlank(s);
      var u := t.cursor.(x := t.cursor.x - 1);
      if u.y >= Height then Screen(Scrolled(t.video, u.color), u.(y := u.y - 1))
      else Screen(t.video, u)
    else
      Emit(s, c)
  }

  /** The port writes of tty_putchar(c): a newline also runs the nested
      call's cursor update. */
  function PutLog(s: Screen, c: u8): seq<Event>
    requires CanPut(s, c)
  {
    (if c == Newline then CursorLog(NewlineBlank(s).cursor) else []) + CursorLog(Put(s, c).cursor)
  }

  predicate CanPutAll(s: Screen, cs: seq<u8>)
    decreases |cs|
  {
    cs == [] || (CanPut(s, cs[0]) && CanPutAll(Put(s, cs[0]), cs[1..]))
  }

  /** tty_putchar applied to each byte in turn. */
  function PutAll(s: Screen, cs: seq<u8>): Screen
    requires CanPutAll(s, cs)
    decreases |cs|
  {
    if cs == [] then s else PutAll(Put(s, cs[0]), cs[1..])
  }

  function PutAllLog(s: Screen, cs: seq<u8>): seq<Event>
    requires CanPutAll(s, cs)
    decreases |cs|
  {
    if cs == [] then [] else PutLog(s, cs[0]) + PutAllLog(Put(s, cs[0]), cs[1..])
  }

  /** One step of the fold: the first byte is put, then the rest. */
  lemma PutAllFirst(s: Screen, cs: seq<u8>)
    requires cs != [] && CanPutAll(s, cs)
    ensures CanPut(s, cs[0]) && CanPutAll(Put(s, cs[0]), cs[1..])
    ensures PutAll(s, cs) == PutAll(Put(s, cs[0]), cs[1..])
    ensures forall log: seq<Event> {:trigger log + PutAllLog(s, cs)} ::
      log + PutAllLog(s, cs) == (log + PutLog(s, cs[0])) + PutAllLog(Put(s, cs[0]), cs[1..])
  {
  }

  /** Writing a + b is writing a, then writing b from where a left the
      screen: the screens and the port writes compose. */
  lemma {:induction false} PutAllAppend(s: Screen, a: seq<u8>, b: seq<u8>)
    ensures CanPutAll(s, a + b) <==> CanPutAll(s, a) && CanPutAll(PutAll(s, a), b)
    ensures CanPutAll(s, a + b) ==>
      PutAll(s, a + b) == PutAll(PutAll(s, a), b) &&
      PutAllLog(s, a + b) == PutAllLog(s, a) + PutAllLog(PutAll(s, a), b)
    decreases |a|
  {
    if a == [] {
      assert a + b == b;
    } else {
      assert (a + b)[0] == a[0] && (a + b)[1..] == a[1..] + b;
      if CanPut(s, a[0]) {
        PutAllAppend(Put(s, a[0]), a[1..], b);
      }
    }
  }

  /** A printable byte changes exactly its cell's two bytes, keeps the colour,
      and moves the cursor right, wrapping at column 80 without scrolling. */
  lemma PutPrintable(s: Screen, c: u8)
    requires c != Newline && CanPut(s, c)
    ensures var r := Put(s, c); var p := CellOffset(s.cursor.x, s.cursor.y);
      |r.video| == |s.video| && r.video[p] == c && r.video[p + 1] == Attr(s.cursor.color) &&
      (forall i :: 0 <= i < |s.video| && i != p && i != p + 1 ==> r.video[i] == s.video[i]) &&
      r.cursor.color == s.cursor.color &&
      if s.cursor.x + 1 < Width then r.cursor.x == s.cursor.x + 1 && r.cursor.y == s.cursor.y
      else r.cursor.x == 0 && r.cursor.y == s.cursor.y + 1
  {
  }

  /** A newline above the last row: cursor at the start of the next row,
      colour forced to light grey, and only that row's first cell blanked. */
  lemma NewlineMidScreen(s: Screen)
    requires CanPut(s, Newline) && s.cursor.y + 1 < Height
    ensures var r := Put(s, Newline); var q := CellOffset(0, s.cursor.y + 1);
      r.cursor == Cursor(0, s.cursor.y + 1, 0x07) &&
      r.video == s.video[q := Space][q + 1 := 0x07]
  {
  }

  /** A newline on the last row (or below it): the blank is written one row
      further down, then exactly one scroll runs and the row is kept. On row
      24 that blank lands at offsets 4000-4001, outside the grid, and the
      scroll leaves it there. */
  lemma NewlineAtBottom(s: Screen)
    requires CanPut(s, Newline) && s.cursor.y + 1 >= Height
    ensures var r := Put(s, Newline); var q := CellOffset(0, s.cursor.y + 1);
      r.cursor == Cursor(0, s.cursor.y, 0x07) &&
      r.video == Scrolled(s.video[q := Space][q + 1 := 0x07], 0x07) &&
      (s.cursor.y + 1 == Height ==>
         q == GridBytes && r.video[GridBytes] == Space && r.video[GridBytes + 1] == 0x07)
  {
  }

  /** Scrolling moves every cell of rows 1-24 up one row, blanks row 24 and
      leaves the window past the grid alone. */
  lemma ScrolledCells(v: seq<u8>, color: u16, x: nat, y: nat)
    requires |v| == VideoBytes && x < Width && y < Height
    ensures var r := Scrolled(v, color); var p := CellOffset(x, y);
      if y + 1 < Height then r[p] == v[CellOffset(x, y + 1)] && r[p + 1] == v[CellOffset(x, y + 1) + 1]
      else r[p] == Space && r[p + 1] == Attr(color)
    ensures forall i :: GridBytes <= i < VideoBytes ==> Scrolled(v, color)[i] == v[i]
  {
  }

  /** Writing out the rest of a row (no newlines) leaves the cursor at the
      start of the next row, in the same colour. */
  lemma {:induction false} FillingRowWraps(s: Screen, cs: seq<u8>)
    requires s.cursor.x < Width && |cs| == Width - s.cursor.x
    requires forall i :: 0 <= i < |cs| ==> cs[i] != Newline
    requires CanPutAll(s, cs)
    ensures PutAll(s, cs).cursor == Cursor(0, s.cursor.y + 1, s.cursor.color)
    decreases |cs|
  {
    var t := Put(s, cs[0]);
    if |cs| > 1 {
      assert t.cursor == s.cursor.(x := s.cursor.x + 1);
      FillingRowWraps(t, cs[1..]);
    } else {
      assert PutAll(t, cs[1..]) == t;
    }
  }

  /** A newline followed by a printable byte puts that byte at column 0 of
      the next row, in the colour now active (light grey). */
  lemma NewlineThenPrintable(s: Screen, c: u8)
    requires c != Newline && s.cursor.y + 1 < Height && CanPut(s, Newline)
    ensures CanPut(Put(s, Newline), c)
    ensures var r := Put(Put(s, Newline), c); var q := CellOffset(0, s.cursor.y + 1);
      |r.video| == VideoBytes && 0 <= q && q + 1 < VideoBytes &&
      r.video[q] == c && r.video[q + 1] == 0x07 && r.cursor == Cursor(1, s.cursor.y + 1, 0x07)
  {
    NewlineMidScreen(s);
    PutPrintable(Put(s, Newline), c);
  }

  /** The global `screen`/`cursor` pair. `io` receives the CRT controller writes. */
  class Console {
    var video: array<u8>
    var cursor: Cursor
    const io: Machine

    ghost predicate Valid()
      reads this
    {
      video.Length == VideoBytes
    }

    ghost function State(): Screen
      reads this, video
    {
      Screen(video[..], cursor)
    }

    /** The initialised globals: video memory, cursor at (0, 0) in light grey. */
    constructor (video: array<u8>, io: Machine)
      requires video.Length == VideoBytes
      ensures Valid() && this.video == video && this.io == io
      ensures cursor == Cursor(0, 0, LightGrey as int)
    {
      this.video := video;
      this.io := io;
      cursor := Cursor(0, 0, LightGrey as int);
    }

    /** tty_set_color */
    method SetColor(color: u16)
      modifies this`cursor
      ensures cursor == old(cursor).(color := color)
    {
      cursor := cursor.(color := color);
    }

    /** tty_set_cursor: no check against the grid. */
    method SetCursor(x: u16, y: u16)
      modifies this`cursor
      ensures cursor == old(cursor).(x := x, y := y)
    {
      cursor := cursor.(x := x);
      cursor := cursor.(y := y);
    }

    /** tty_update_cursor */
    method UpdateCursor()
      modifies io
      ensures io.log == old(io.log) + CursorLog(cursor)
    {
      var pos: u16 := (cursor.y * 80 + cursor.x) % 0x1_0000;
      io.Outb(CrtIndex, CursorLocationLow);
      io.Outb(CrtData, pos % 0x100);
      io.Outb(CrtIndex, CursorLocationHigh);
      io.Outb(CrtData, (pos / 0x100) % 0x100);
    }

    /** tty_clear: the cursor is not moved. */
    method Clear()
      requires Valid()
      modifies video
      ensures video[..] == Cleared(old(video[..]), cursor.color)
    {
      var i := 0;
      while i < GridBytes
        invariant 0 <= i <= GridBytes && i % 2 == 0
        invariant forall k :: 0 <= k < VideoBytes ==>
          video[k] == if k < i then (if k % 2 == 0 then Space else Attr(cursor.color)) else old(video[k])
      {
        video[i] := Space;
        video[i + 1] := Attr(cursor.color);
        i := i + 2;
      }
    }

    /** tty_scrollup. The overlapping `memcpy` is taken by its intended
        effect, a forward copy of rows 1-24 onto rows 0-23. */
    method ScrollUp()
      requires Valid()
      modifies video
      ensures video[..] == Scrolled(old(video[..]), cursor.color)
    {
      var offset := RowBytes;
      forall i | 0 <= i < GridBytes - offset {
        video[i] := video[i + offset];
      }
      for i := 0 to Width
        invariant forall k :: 0 <= k < VideoBytes ==>
          video[k] == if k < GridBytes - RowBytes then old(video[k + RowBytes])
                      else if k < GridBytes - RowBytes + 2 * i then (if k % 2 == 0 then Space else Attr(cursor.color))
                      else old(video[k])
      {
        video[GridBytes - offset + i * 2] := Space;
        video[GridBytes - offset + i * 2 + 1] := Attr(cursor.color);
      }
    }

    /** tty_putchar. The newline branch recurses once, for the blank. */
    method PutChar(c: u8)
      requires Valid() && CanPut(State(), c)
      modifies this`cursor, video, io
      ensures State() == Put(old(State()), c)
      ensures io.log == old(io.log) + PutLog(old(State()), c)
      decreases if c == Newline then 1 else 0
    {
      if c == Newline {
        ghost var t := NewlineBlank(State());
        cursor := cursor.(x := 0);
        cursor := cursor.(y := cursor.y + 1);
        SetColor(GetColor(LightGrey, Black) as int);
        PutChar(Space);
        assert State() == t && io.log == old(io.log) + CursorLog(t.cursor);
        SetCursor(cursor.x - 1, cursor.y);
        if cursor.y >= Height {
          cursor := cursor.(y := cursor.y - 1);
          ScrollUp();
        }
      } else {
        Store(c);
      }
      UpdateCursor();
    }

    /** The default branch of tty_putchar: the byte and the attribute at
        `pos`, then the cursor steps right and wraps at the right edge. */
    method Store(c: u8)
      requires Valid() && c != Newline && CanPut(State(), c)
      modifies this`cursor, video
      ensures State() == Emit(old(State()), c)
    {
      var pos: u16 := CellOffset(cursor.x, cursor.y) % 0x1_0000;
      video[pos] := c;
      video[pos + 1] := Attr(cursor.color);
      cursor := cursor.(x := cursor.x + 1);
      if cursor.x >= Width {
        cursor := cursor.(x := 0);
        cursor := cursor.(y := cursor.y + 1);
      }
    }

    /** tty_write_string: every byte before the terminating NUL, in order. */
    method WriteString(str: seq<u8>)
      requires Valid() && 0 in str && CanPutAll(State(), str[..Strlen(str)])
      modifies this`cursor, video, io
      ensures State() == PutAll(old(State()), str[..Strlen(str)])
      ensures io.log == old(io.log) + PutAllLog(old(State()), str[..Strlen(str)])
    {
      ghost var n := Strlen(str);
      var i := 0;
      while i < Strlen(str)
        invariant 0 <= i <= n && Valid()
        invariant CanPutAll(State(), str[i..n])
        invariant PutAll(State(), str[i..n]) == PutAll(old(State()), str[..n])
        invariant io.log + PutAllLog(State(), str[i..n]) == old(io.log) + PutAllLog(old(State()), str[..n])
      {
        ghost var rest := str[i..n];
        PutAllFirst(State(), rest);
        assert rest[0] == str[i] && rest[1..] == str[i + 1..n];
        PutChar(str[i]);
        i := i + 1;
      }
    }
  }
}
