/** Packing of VGA text-mode colour attributes and glyph cells (kernel.c lines 14-28). */
module VgaEntry {

  /** The four colours of the 16-colour VGA palette that the kernel uses. */
  const Black: bv8 := 0
  const LightGrey: bv8 := 7
  const Cyan: bv8 := 11
  const White: bv8 := 15

  /** Foreground colour: the low nibble of an attribute byte. */
  function Foreground(attr: bv8): (fg: bv8)
    ensures fg < 16
  {
    attr & 0x0F
  }

  /** Background colour: the high nibble of an attribute byte. */
  function Background(attr: bv8): (bg: bv8)
    ensures bg < 16
  {
    attr >> 4
  }

  /**
   * vga_entry_color: `fg | (bg << 4)`, evaluated after promotion to a
   * 32-bit int and truncated to 8 bits by the uint8_t return type.
   */
  function EntryColor(fg: bv8, bg: bv8): (attr: bv8)
    ensures Foreground(attr) == fg & 0x0F
    ensures Background(attr) == (fg >> 4) | (bg & 0x0F)
    ensures fg < 16 && bg < 16 ==> attr as int == fg as int + 16 * bg as int
  {
    ((fg as bv32 | (bg as bv32 << 4)) & 0xFF) as bv8
  }

  /** Two nibbles packed by EntryColor decode back exactly. */
  lemma ColorRoundTrip(fg: bv8, bg: bv8)
    requires fg < 16 && bg < 16
    ensures Foreground(EntryColor(fg, bg)) == fg
    ensures Background(EntryColor(fg, bg)) == bg
  {
  }

  /** Every attribute byte is the packing of its own two nibbles. */
  lemma ColorDecodeEncode(attr: bv8)
    ensures EntryColor(Foreground(attr), Background(attr)) == attr
  {
  }

  /** The character of a glyph cell: its low byte. */
  function CellChar(cell: bv16): bv8
  {
    (cell & 0xFF) as bv8
  }

  /** The attribute of a glyph cell: its high byte. */
  function CellAttr(cell: bv16): bv8
  {
    (cell >> 8) as bv8
  }

  /** vga_entry: the character in the low byte, the attribute in the high byte. */
  function Entry(c: bv8, color: bv8): (cell: bv16)
    ensures CellChar(cell) == c && CellAttr(cell) == color
  {
    c as bv16 | (color as bv16 << 8)
  }

  /** Every 16-bit cell is the packing of its own character and attribute. */
  lemma CellDecodeEncode(cell: bv16)
    ensures Entry(CellChar(cell), CellAttr(cell)) == cell
  {
  }

  /** Distinct (character, attribute) pairs give distinct cells. */
  lemma EntryInjective(c1: bv8, a1: bv8, c2: bv8, a2: bv8)
    requires Entry(c1, a1) == Entry(c2, a2)
    ensures c1 == c2 && a1 == a2
  {
  }
}
