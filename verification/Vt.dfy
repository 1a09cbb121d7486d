/** Cells, styles and cursors: the vocabulary shared by the emulator, the renderer and the layout. */
module Vt {

  type Byte = b: int | 0 <= b < 256

  // A Unicode scalar value: what a decoder hands over. Surrogates are never decoded.
  type Rune = r: int | 0 <= r < 0xD800 || 0xE000 <= r < 0x110000

  const REPLACEMENT: Rune := 0xFFFD
  const ESC: Byte := 0x1b

  datatype Option<+T> = None | Some(value: T)

  // The three forms a colour can take. The emulator keeps a tag beside fields that are zero when
  // the tag does not use them; a sum type is exactly its canonical values.
  datatype Color = Default | Indexed(index: Byte) | RGB(r: Byte, g: Byte, b: Byte)

  // What is switched on and off, each by itself.
  datatype Attribute = Bold | Faint | Italic | Underline | Blink | Reverse | Strikethrough

  datatype Style = Style(link: seq<Byte>, fg: Color, bg: Color, attrs: set<Attribute>)

  const PLAIN := Style([], Default, Default, {})

  // Display widths: none for the second half of a wide character, one, or two.
  type Width = w: nat | w <= 2

  // One cell: a base character with its combining marks, how many columns it takes, its style.
  datatype Cell = Cell(content: seq<Rune>, width: Width, style: Style)

  const BLANK := Cell([0x20], 1, PLAIN)

  // The second column of a wide character has no content of its own.
  function Continuation(style: Style): Cell { Cell([], 0, style) }

  // The cells of a character: a wide one has a second half.
  function Glyph(c: Cell): seq<Cell> { if c.width == 2 then [c, Continuation(c.style)] else [c] }

  function BlankRow(cols: nat): seq<Cell> { seq(cols, _ => BLANK) }

  datatype Cursor = Cursor(row: int, col: int, visible: bool, shape: int)

  // What a renderer reads of a screen: its size, its cells and its cursor.
  datatype Frame = Frame(cols: nat, rows: nat, cells: seq<seq<Cell>>, cur: Cursor, pending: bool)

  function Min(a: int, b: int): int { if a < b then a else b }
  function Max(a: int, b: int): int { if a < b then b else a }
  function Clamp(v: int, lo: int, hi: int): int { Max(lo, Min(v, hi)) }

  // Counting round a ring.
  lemma RoundOnce(a: nat, n: nat)
    requires a < 2 * n
    ensures a % n == if a < n then a else a - n
  {
    if a >= n {
      assert a == n + (a - n);
    }
  }

  // The combining and format characters of the Unicode tables. Which ones they are is left open:
  // everything here holds for any such table. None of them is below 0xA0, see RuneWidth.
  const MARKS: set<Rune>

  // How many columns a rune takes: none for a control or a combining mark, two for an East Asian
  // wide character, one otherwise.
  function RuneWidth(r: Rune): (w: Width)
    ensures 0x20 <= r < 0x7f ==> w == 1
  {
    if r < 0x20 || 0x7f <= r < 0xa0 then 0
    else if r >= 0xa0 && r in MARKS then 0
    else if IsWide(r) then 2
    else 1
  }

  predicate IsWide(r: Rune) {
    || 0x1100 <= r <= 0x115F || 0x2E80 <= r <= 0x303E || 0x3041 <= r <= 0x33FF
    || 0x3400 <= r <= 0x4DBF || 0x4E00 <= r <= 0x9FFF || 0xA000 <= r <= 0xA4CF
    || 0xAC00 <= r <= 0xD7A3 || 0xF900 <= r <= 0xFAFF || 0xFE10 <= r <= 0xFE19
    || 0xFE30 <= r <= 0xFE6F || 0xFF00 <= r <= 0xFF60 || 0xFFE0 <= r <= 0xFFE6
    || 0x1F300 <= r <= 0x1F64F || 0x1F900 <= r <= 0x1F9FF
    || 0x20000 <= r <= 0x2FFFD || 0x30000 <= r <= 0x3FFFD
  }

  // A character cell that can be drawn: a base character of its width, then marks of no width.
  // No mark is a C0 control, which a terminal would obey instead of drawing.
  predicate Drawable(c: Cell) {
    && |c.content| > 0
    && c.width >= 1
    && RuneWidth(c.content[0]) == c.width
    && forall i :: 1 <= i < |c.content| ==> RuneWidth(c.content[i]) == 0 && c.content[i] >= 0x80
  }

  // Cells that are whole characters from left to right: every wide one is followed by its own
  // continuation, and no continuation stands alone.
  ghost predicate WholeChars(cells: seq<Cell>) {
    cells == [] ||
    (&& Drawable(cells[0])
     && cells[0].width <= |cells|
     && (cells[0].width == 2 ==> cells[1] == Continuation(cells[0].style))
     && WholeChars(cells[cells[0].width..]))
  }
}
