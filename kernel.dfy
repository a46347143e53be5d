/** kernel_main: clear the screen and paint two banners (kernel.c lines 57-66). */
module Kernel {
  import opened VgaEntry
  import CString
  import opened TextScreen

  /** The bytes of an ASCII string. */
  function Ascii(s: string): (b: seq<bv8>)
    requires forall i :: 0 <= i < |s| ==> s[i] as int < 256
    ensures |b| == |s|
  {
    seq(|s|, i requires 0 <= i < |s| => (s[i] as int) as bv8)
  }

  const TitleText: seq<bv8> := Ascii("Welcome to Vibe OS")
  const SubtitleText: seq<bv8> := Ascii("A simple 32-bit operating system")

  /** The two literals as C strings, with their NUL terminators. */
  const Title: seq<bv8> := TitleText + [0]
  const Subtitle: seq<bv8> := SubtitleText + [0]

  /** title_color: cyan on black. */
  const TitleColor: bv8 := EntryColor(Cyan, Black)
  /** The subtitle's colour: light grey on black. */
  const SubtitleColor: bv8 := EntryColor(LightGrey, Black)

  /** strlen of each banner and the attribute bytes kernel_main uses. */
  lemma BannerFacts()
    ensures |TitleText| == 18 && |SubtitleText| == 32
    ensures CString.Terminated(Title) && CString.Length(Title) == 18
    ensures CString.Terminated(Subtitle) && CString.Length(Subtitle) == 32
    ensures TitleColor == 0x0B && SubtitleColor == 0x07
    ensures RunFits(Title, 30, 10) && RunFits(Subtitle, 25, 12)
  {
    CString.LiteralLength(TitleText);
    CString.LiteralLength(SubtitleText);
  }

  /** The buffer kernel_main leaves behind. */
  function KernelScreen(): (screen: seq<bv16>)
    ensures |screen| == Size
  {
    BannerFacts();
    Printed(Printed(Blank(), Title, 30, 10, TitleColor), Subtitle, 25, 12, SubtitleColor)
  }

  /** kernel_main: clear_screen, then the two print_at calls. */
  method KernelMain(vga: array<bv16>)
    requires vga.Length == Size
    modifies vga
    ensures vga[..] == KernelScreen()
  {
    ClearScreen(vga);
    BannerFacts();
    var titleColor := EntryColor(Cyan, Black);
    PrintAt(vga, Title, 30, 10, titleColor);
    PrintAt(vga, Subtitle, 25, 12, EntryColor(LightGrey, Black));
  }

  /**
   * Cells 830..847 (row 10, columns 30..47) hold the title in 0x0B, cells
   * 985..1016 (row 12, columns 25..56) the subtitle in 0x07, and every other
   * cell is 0x0F20.
   */
  lemma KernelScreenCells()
    ensures forall k :: 0 <= k < Size ==>
      KernelScreen()[k] ==
        if CellIndex(10, 30) <= k < CellIndex(10, 30) + 18 then Entry(TitleText[k - CellIndex(10, 30)], 0x0B)
        else if CellIndex(12, 25) <= k < CellIndex(12, 25) + 32 then Entry(SubtitleText[k - CellIndex(12, 25)], 0x07)
        else 0x0F20
  {
    BannerFacts();
    var first := Printed(Blank(), Title, 30, 10, TitleColor);
    PrintedCells(Blank(), Title, 30, 10, TitleColor);
    PrintedCells(first, Subtitle, 25, 12, SubtitleColor);
  }

  /** The characters of row r. */
  function RowText(screen: seq<bv16>, r: nat): (text: seq<bv8>)
    requires |screen| == Size && r < Height
    ensures |text| == Width
  {
    seq(Width, j requires 0 <= j < Width => CellChar(screen[CellIndex(r, j)]))
  }

  /** n spaces. */
  function Spaces(n: nat): (s: seq<bv8>)
    ensures |s| == n && forall i :: 0 <= i < n ==> s[i] == Space
  {
    seq(n, _ => Space)
  }

  /**
   * Read as text, row 10 is the title centred at column 30, row 12 the
   * subtitle at column 25, and every other row is blank: neither banner
   * spills into another row.
   */
  lemma KernelScreenRows(r: nat)
    requires r < Height
    ensures RowText(KernelScreen(), r) ==
      if r == 10 then Spaces(30) + TitleText + Spaces(32)
      else if r == 12 then Spaces(25) + SubtitleText + Spaces(23)
      else Spaces(Width)
  {
    KernelScreenCells();
    var row := RowText(KernelScreen(), r);
    var expected := if r == 10 then Spaces(30) + TitleText + Spaces(32)
      else if r == 12 then Spaces(25) + SubtitleText + Spaces(23)
      else Spaces(Width);
    forall j | 0 <= j < Width ensures row[j] == expected[j] {
      var k := CellIndex(r, j);
      assert KernelScreen()[k] == if CellIndex(10, 30) <= k < CellIndex(10, 30) + 18 then Entry(TitleText[k - CellIndex(10, 30)], 0x0B)
        else if CellIndex(12, 25) <= k < CellIndex(12, 25) + 32 then Entry(SubtitleText[k - CellIndex(12, 25)], 0x07)
        else 0x0F20;
    }
  }
}
