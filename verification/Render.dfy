/** The bytes that make a terminal show a given screen. */
module Render {
  import opened Vt
  import opened Decimal
  import Utf8

  // A control sequence with these parameters.
  function CsiBytes(ns: seq<nat>, final: Byte): seq<Byte> { [ESC, 0x5b] + Join(ns) + [final] }

  const RESET := CsiBytes([0], 'm' as int)

  // Opens a hyperlink, or closes the one that is open when the URL is empty.
  function LinkBytes(url: seq<Byte>): seq<Byte> {
    [ESC, ']' as int, '8' as int, ';' as int, ';' as int] + url + [ESC, '\\' as int]
  }

  // ---------------------------------------------------------------- graphic rendition

  function ColorCodes(c: Color, bg: bool): seq<nat> {
    var base := if bg then 40 else 30;
    match c
    case Indexed(i) =>
      if i < 8 then [base + i]
      else if i < 16 then [base + 60 + i - 8]
      else [base + 8, 5, i]
    case RGB(r, g, b) => [base + 8, 2, r, g, b]
    case Default => [base + 9]
  }

  // The attributes in the order they are written, and the code of each.
  const ORDER := [Bold, Faint, Italic, Underline, Blink, Reverse, Strikethrough]
  const CODES: seq<nat> := [1, 2, 3, 4, 5, 7, 9]

  // The codes of what is on in one style and not in the other, from the k-th attribute on, and of
  // the colours that differ.
  function Codes(from: Style, to: Style, k: nat): seq<nat>
    requires k <= |ORDER|
    decreases |ORDER| - k
  {
    if k == |ORDER| then PairCodes(from, to)
    else (if ORDER[k] in to.attrs - from.attrs then [CODES[k]] else []) + Codes(from, to, k + 1)
  }

  function PairCodes(from: Style, to: Style): seq<nat> {
    (if to.fg != from.fg then ColorCodes(to.fg, false) else [])
    + (if to.bg != from.bg then ColorCodes(to.bg, true) else [])
  }

  function Attrs(from: Style, to: Style): seq<Byte> {
    if Codes(from, to, 0) == [] then [] else CsiBytes(Codes(from, to, 0), 'm' as int)
  }

  predicate TurnsSomethingOff(from: Style, to: Style) {
    || !(from.attrs <= to.attrs)
    || (from.fg != to.fg && to.fg == Default) || (from.bg != to.bg && to.bg == Default)
  }

  // From one style to another: only what is added, or everything again after a reset when
  // something has to go.
  function SgrBytes(from: Style, to: Style): seq<Byte> {
    if TurnsSomethingOff(from, to) then RESET + Attrs(PLAIN, to) else Attrs(from, to)
  }

  // ---------------------------------------------------------------- the screen

  function Content(c: Cell): seq<Rune> { if c.content == [] then [0x20] else c.content }

  // What is written for one cell when the terminal is drawing in a style.
  function CellBytes(c: Cell, style: Style): seq<Byte> {
    (if c.style.link != style.link then LinkBytes(c.style.link) else [])
    + (var style' := style.(link := c.style.link); if c.style != style' then SgrBytes(style', c.style) else [])
    + Utf8.EncodeAll(Content(c))
  }

  predicate Skipped(c: Cell) { c.content == [] && c.width == 0 }

  function RowBytes(cells: seq<Cell>, style: Style): seq<Byte> {
    if cells == [] then []
    else if Skipped(cells[0]) then RowBytes(cells[1..], style)
    else CellBytes(cells[0], style) + RowBytes(cells[1..], cells[0].style)
  }

  // The style after a row: that of the last character drawn.
  function RowStyle(cells: seq<Cell>, style: Style): Style {
    if cells == [] then style
    else RowStyle(cells[1..], if Skipped(cells[0]) then style else cells[0].style)
  }

  function RowsBytes(rows: seq<seq<Cell>>, r: nat, style: Style): seq<Byte> {
    if rows == [] then [] else
      (if r > 0 then CsiBytes([r + 1, 1], 'H' as int) else [])
      + (RowBytes(rows[0], style) + RowsBytes(rows[1..], r + 1, RowStyle(rows[0], style)))
  }

  function RowsStyle(rows: seq<seq<Cell>>, style: Style): Style {
    if rows == [] then style else RowsStyle(rows[1..], RowStyle(rows[0], style))
  }

  // Reset, whole-screen scrolling region, home, erase.
  const PROLOGUE := RESET + (CsiBytes([], 'r' as int) + (CsiBytes([], 'H' as int) + CsiBytes([2], 'J' as int)))

  // The width of the character that occupies a column.
  function WidthAt(cells: seq<Cell>, col: int): (w: nat)
    ensures 1 <= w <= 2
    decreases col
  {
    if col < 0 || col >= |cells| then 1
    else if cells[col].content != [] then Max(cells[col].width, 1)
    else WidthAt(cells, col - 1)
  }

  function ShowCursor(visible: bool): seq<Byte> {
    [ESC, 0x5b, '?' as int, '2' as int, '5' as int, if visible then 'h' as int else 'l' as int]
  }

  function ResetFrom(style: Style): seq<Byte> { if style != PLAIN then RESET else [] }

  // No movement leaves a wrap pending, so the character in the last column is written once more. The
  // style compared against is still that of the last character drawn, though a reset may have been
  // written since.
  function PendingBytes(f: Frame, style: Style): seq<Byte>
    requires f.cols >= 2
  {
    if 0 <= f.cur.row < |f.cells| && |f.cells[f.cur.row]| == f.cols then
      var cells := f.cells[f.cur.row];
      var w := WidthAt(cells, f.cols - 1);
      var cell := cells[f.cols - w];
      CsiBytes([f.cur.row + 1, f.cols - w + 1], 'H' as int)
      + (SgrBytes(style, cell.style)
      + (Utf8.EncodeAll(Content(cell))
      + ((if cell.style.link != [] then LinkBytes([]) else [])
      + (ResetFrom(cell.style.(link := [])) + ShowCursor(f.cur.visible)))))
    else
      (if style.link != [] then LinkBytes([]) else [])
      + (ResetFrom(style.(link := [])) + ShowCursor(f.cur.visible))
  }

  function CursorBytes(f: Frame, style: Style): seq<Byte>
    requires f.cols >= 2 && f.cur.row >= 0 && f.cur.col >= 0
  {
    if f.pending then PendingBytes(f, style)
    else
      (if style.link != [] then LinkBytes([]) else [])
      + (CsiBytes([f.cur.row + 1, f.cur.col + 1], 'H' as int) + ShowCursor(f.cur.visible))
  }

  // The bytes that draw a screen, cursor included.
  function Screen(f: Frame): seq<Byte>
    requires f.cols >= 2 && f.cur.row >= 0 && f.cur.col >= 0
    requires |f.cells| == f.rows && forall r :: 0 <= r < f.rows ==> |f.cells[r]| == f.cols
  {
    var style := RowsStyle(f.cells, PLAIN);
    PROLOGUE + (RowsBytes(f.cells, 0, PLAIN) + (ResetFrom(style) + CursorBytes(f, style)))
  }
}
