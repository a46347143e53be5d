/**
 * The 80x25 VGA text buffer and the two routines that write it:
 * clear_screen and print_at (kernel.c lines 39-55).
 */
module TextScreen {
  import opened VgaEntry
  import CString

  const Width: nat := 80
  const Height: nat := 25
  /** Number of glyph cells in the buffer. */
  const Size: nat := Width * Height

  /** The ASCII code of ' '. */
  const Space: bv8 := 0x20

  /** A C `int`: the type of print_at's coordinates. */
  newtype int32 = x: int | -0x8000_0000 <= x < 0x8000_0000

  /** Linear buffer index of (row, column), as `row * 80 + column`. */
  function CellIndex(row: int, col: int): int
  {
    row * Width + col
  }

  /** The row a linear buffer index falls in. */
  function RowOf(index: int): int
  {
    index / Width
  }

  /** The cell clear_screen writes: a space, white on black. */
  function BlankCell(): (cell: bv16)
    ensures CellChar(cell) == Space
    ensures Foreground(CellAttr(cell)) == White && Background(CellAttr(cell)) == Black
    ensures cell == 0x0F20
  {
    Entry(Space, EntryColor(White, Black))
  }

  /** The buffer after clear_screen, whatever it held before. */
  function Blank(): (screen: seq<bv16>)
    ensures |screen| == Size
  {
    seq(Size, _ => BlankCell())
  }

  /** clear_screen: every one of the 2000 cells becomes BlankCell. */
  method ClearScreen(vga: array<bv16>)
    requires vga.Length == Size
    modifies vga
    ensures vga[..] == Blank()
  {
    for i := 0 to Size
      invariant forall k :: 0 <= k < i ==> vga[k] == BlankCell()
    {
      vga[i] := Entry(Space, EntryColor(White, Black));
    }
  }

  /**
   * print_at's precondition. The C code checks nothing: when it writes at
   * all, `y * 80` must not overflow an int and the run of strlen(str) cells
   * from `y * 80 + x` must lie inside the buffer. An empty string writes
   * nothing and never evaluates the index, so any coordinates will do.
   */
  predicate RunFits(str: seq<bv8>, x: int32, y: int32)
    requires CString.Terminated(str)
  {
    CString.Length(str) == 0
    || (-0x8000_0000 <= y as int * Width < 0x8000_0000
        && 0 <= CellIndex(y as int, x as int)
        && CellIndex(y as int, x as int) + CString.Length(str) <= Size)
  }

  /** The cells of a string drawn in one colour. */
  function Glyphs(text: seq<bv8>, color: bv8): (cells: seq<bv16>)
    ensures |cells| == |text|
  {
    seq(|text|, i requires 0 <= i < |text| => Entry(text[i], color))
  }

  /** Write `run` cell by cell from index `start`, one store at a time. */
  function WriteRun(screen: seq<bv16>, start: nat, run: seq<bv16>): (r: seq<bv16>)
    requires start + |run| <= |screen|
    ensures |r| == |screen|
    decreases |run|
  {
    if run == [] then screen
    else WriteRun(screen[start := run[0]], start + 1, run[1..])
  }

  /** WriteRun sets exactly the cells start .. start+|run|-1 and keeps the rest. */
  lemma {:induction false} WriteRunCells(screen: seq<bv16>, start: nat, run: seq<bv16>)
    requires start + |run| <= |screen|
    ensures forall k :: 0 <= k < |screen| ==>
      WriteRun(screen, start, run)[k] == if start <= k < start + |run| then run[k - start] else screen[k]
    decreases |run|
  {
    if run != [] {
      WriteRunCells(screen[start := run[0]], start + 1, run[1..]);
    }
  }

  /** The buffer after print_at(str, x, y, color). */
  function Printed(screen: seq<bv16>, str: seq<bv8>, x: int32, y: int32, color: bv8): (r: seq<bv16>)
    requires |screen| == Size
    requires CString.Terminated(str) && RunFits(str, x, y)
    ensures |r| == Size
  {
    if CString.Length(str) == 0 then screen
    else WriteRun(screen, CellIndex(y as int, x as int), Glyphs(str[..CString.Length(str)], color))
  }

  /** print_at sets cell `y*80 + x + i` to str[i] for each i < strlen(str) and changes no other cell. */
  lemma PrintedCells(screen: seq<bv16>, str: seq<bv8>, x: int32, y: int32, color: bv8)
    requires |screen| == Size
    requires CString.Terminated(str) && RunFits(str, x, y)
    ensures forall k :: 0 <= k < Size ==>
      Printed(screen, str, x, y, color)[k] ==
        var o := CellIndex(y as int, x as int);
        if o <= k < o + CString.Length(str) then Entry(str[k - o], color) else screen[k]
  {
    if CString.Length(str) != 0 {
      WriteRunCells(screen, CellIndex(y as int, x as int), Glyphs(str[..CString.Length(str)], color));
    }
  }

  /**
   * A run that passes column 79 is not clipped: character i lands in row
   * y + (x+i)/80 at column (x+i)%80, continuing on the following rows.
   */
  lemma PrintedContinuesLinearly(screen: seq<bv16>, str: seq<bv8>, x: int32, y: int32, color: bv8, i: nat)
    requires |screen| == Size
    requires CString.Terminated(str) && RunFits(str, x, y)
    requires i < CString.Length(str)
    ensures 0 <= (x as int + i) % Width < Width
    ensures 0 <= CellIndex(y as int + (x as int + i) / Width, (x as int + i) % Width) < Size
    ensures Printed(screen, str, x, y, color)[CellIndex(y as int + (x as int + i) / Width, (x as int + i) % Width)]
            == Entry(str[i], color)
  {
    var q, m := (x as int + i) / Width, (x as int + i) % Width;
    assert x as int + i == q * Width + m;
    assert CellIndex(y as int + q, m) == CellIndex(y as int, x as int) + i;
    PrintedCells(screen, str, x, y, color);
  }

  /**
   * A run that starts at a column 0 <= x with x + strlen(str) <= 80 stays in
   * row y: every index it writes lies in that row, and every cell that
   * differs afterwards lies in it too.
   */
  lemma PrintedStaysInRow(screen: seq<bv16>, str: seq<bv8>, x: int32, y: int32, color: bv8)
    requires |screen| == Size
    requires CString.Terminated(str) && RunFits(str, x, y)
    requires 0 <= x as int && x as int + CString.Length(str) <= Width
    ensures forall k :: CellIndex(y as int, x as int) <= k < CellIndex(y as int, x as int) + CString.Length(str)
                        ==> RowOf(k) == y as int
    ensures forall k :: 0 <= k < Size && Printed(screen, str, x, y, color)[k] != screen[k] ==> RowOf(k) == y as int
  {
    forall k | CellIndex(y as int, x as int) <= k < CellIndex(y as int, x as int) + CString.Length(str)
      ensures RowOf(k) == y as int
    {
      assert k == y as int * Width + (k - CellIndex(y as int, x as int) + x as int);
    }
    PrintedCells(screen, str, x, y, color);
  }

  /** print_at: draws each byte of `str` before its NUL terminator, starting at `y*80 + x`. */
  method PrintAt(vga: array<bv16>, str: seq<bv8>, x: int32, y: int32, color: bv8)
    requires vga.Length == Size
    requires CString.Terminated(str) && RunFits(str, x, y)
    modifies vga
    ensures vga[..] == Printed(old(vga[..]), str, x, y, color)
  {
    var len := CString.StrLen(str);
    for i := 0 to len
      invariant forall k :: 0 <= k < Size ==>
        vga[k] == if CellIndex(y as int, x as int) <= k < CellIndex(y as int, x as int) + i
                  then Entry(str[k - CellIndex(y as int, x as int)], color) else old(vga[k])
    {
      vga[y as int * Width + x as int + i] := Entry(str[i], color);
    }
    PrintedCells(old(vga[..]), str, x, y, color);
  }
}
