/** The terminal as a value: its screen, its cursor, its margins, its buffers and its scrollback,
    and what each drawing operation makes of them. */
module Grid {
  import opened Vt

  // A physical row: its cells, whether it ran into the margin and continues below, and how many
  // of its columns were written.
  datatype Line = Line(cells: seq<Cell>, wrapped: bool, used: nat)

  datatype Charset = CharsetAscii | CharsetGraphics

  datatype Term = Term(
    cols: nat, rows: nat, lines: seq<Line>,
    cur: Cursor, pend: bool, style: Style,
    saved: Cursor, savedStyle: Style,
    top: int, bottom: int,
    irm: bool, awm: bool,
    g0: Charset, g1: Charset, active: nat,
    tabs: seq<bool>,
    alt: Option<seq<Line>>, altSaved: Cursor, altPending: bool,
    hist: seq<Line>, limit: nat)

  const DEFAULT_SCROLLBACK: nat := 2000

  function BlankLine(cols: nat): Line { Line(BlankRow(cols), false, 0) }

  function BlankLines(cols: nat, n: nat): seq<Line> { seq(n, _ => BlankLine(cols)) }

  function DefaultTabs(cols: nat): seq<bool> { seq(cols, c => c > 0 && c % 8 == 0) }

  // ---------------------------------------------------------------- what is always true

  ghost predicate InScreen(c: Cursor, cols: nat, rows: nat) {
    0 <= c.row < rows && 0 <= c.col < cols
  }

  // A buffer of this size.
  ghost predicate Sized(lines: seq<Line>, cols: nat, rows: nat) {
    && |lines| == rows
    && forall r :: 0 <= r < |lines| ==> |lines[r].cells| == cols
  }

  // No row claims more written columns than it has.
  ghost predicate UsedFits(lines: seq<Line>) {
    forall r :: 0 <= r < |lines| ==> lines[r].used <= |lines[r].cells|
  }

  // The primary buffer, wherever it is kept at the moment.
  function Primary(t: Term): seq<Line> {
    if t.alt.Some? then t.alt.value else t.lines
  }

  // The emulator's invariant. A hidden primary buffer is of the screen's size unless the screen
  // changed size meanwhile, which altPending records.
  ghost predicate Inv(t: Term) {
    && t.cols >= 2 && t.rows >= 1
    && Sized(t.lines, t.cols, t.rows)
    && InScreen(t.cur, t.cols, t.rows)
    && 0 <= t.altSaved.row && 0 <= t.altSaved.col
    && 0 <= t.top <= t.bottom < t.rows
    && |t.tabs| == t.cols
    && |t.hist| <= t.limit
    && UsedFits(t.hist) && UsedFits(Primary(t))
    && (t.alt.None? ==> !t.altPending)
    && (t.alt.Some? && !t.altPending ==> Sized(t.alt.value, t.cols, t.rows))
    && t.active <= 1
  }

  // What drawing never touches: the size, the hidden buffer, and the cursor saved with it - nor the
  // scrollback, while there is a hidden buffer.
  ghost predicate Steady(t: Term, t': Term) {
    && t'.cols == t.cols && t'.rows == t.rows && t'.limit == t.limit
    && t'.alt == t.alt && t'.altSaved == t.altSaved && t'.altPending == t.altPending
    && (t.alt.Some? ==> t'.hist == t.hist)
  }

  // What every terminal is to begin with.
  function New(cols: nat, rows: nat): (t: Term)
    requires cols >= 2 && rows >= 1
    ensures Inv(t)
  {
    Term(cols, rows, BlankLines(cols, rows),
         Cursor(0, 0, true, 0), false, PLAIN, Cursor(0, 0, false, 0), PLAIN,
         0, rows - 1, false, true, CharsetAscii, CharsetAscii, 0, DefaultTabs(cols),
         None, Cursor(0, 0, false, 0), false, [], DEFAULT_SCROLLBACK)
  }

  // ---------------------------------------------------------------- scrollback

  // The newest `limit` lines, oldest first.
  function Trim(lines: seq<Line>, limit: nat): seq<Line> {
    if |lines| <= limit then lines else lines[|lines| - limit..]
  }

  function Push(hist: seq<Line>, limit: nat, line: Line): (h: seq<Line>)
    requires |hist| <= limit
    ensures |h| <= limit
  {
    if limit == 0 then hist else Trim(hist + [line], limit)
  }

  // ---------------------------------------------------------------- scrolling and moving

  // Elements from..to move up by one: the first of them goes, and another comes in as the last.
  function UpOne<T>(s: seq<T>, from: int, to: int, x: T): (r: seq<T>)
    requires 0 <= from <= to < |s|
    ensures |r| == |s|
    ensures forall k :: 0 <= k < |s| ==> r[k] == if k < from || k > to then s[k] else if k < to then s[k + 1] else x
  {
    s[..from] + s[from + 1..to + 1] + [x] + s[to + 1..]
  }

  // Elements from..to move down by one: the last of them goes, and another comes in as the first.
  function DownOne<T>(s: seq<T>, from: int, to: int, x: T): (r: seq<T>)
    requires 0 <= from <= to < |s|
    ensures |r| == |s|
    ensures forall k :: 0 <= k < |s| ==> r[k] == if k < from || k > to then s[k] else if k > from then s[k - 1] else x
  {
    s[..from] + [x] + s[from..to] + s[to + 1..]
  }

  // Rows from..to move down by one, n times, and blank rows come in at the top. The last row of
  // the range falls off.
  function ShiftDown(lines: seq<Line>, from: int, to: int, cols: nat, n: int): (ls: seq<Line>)
    requires 0 <= from <= to < |lines| && Sized(lines, cols, |lines|)
    ensures Sized(ls, cols, |lines|)
    ensures UsedFits(lines) ==> UsedFits(ls)
    decreases n
  {
    if n <= 0 then lines else
      ShiftDown(DownOne(lines, from, to, BlankLine(cols)), from, to, cols, n - 1)
  }

  // Rows from..to move up by one, n times, and blank rows come in at the bottom.
  function ShiftUp(lines: seq<Line>, from: int, to: int, cols: nat, n: int): (ls: seq<Line>)
    requires 0 <= from <= to < |lines| && Sized(lines, cols, |lines|)
    ensures Sized(ls, cols, |lines|)
    ensures UsedFits(lines) ==> UsedFits(ls)
    decreases n
  {
    if n <= 0 then lines else
      ShiftUp(UpOne(lines, from, to, BlankLine(cols)), from, to, cols, n - 1)
  }

  // The rows that leave the top of a region, one by one, as the scrollback keeps them.
  function Remember(hist: seq<Line>, limit: nat, lines: seq<Line>, top: int, bottom: int, cols: nat, n: int): (h: seq<Line>)
    requires |hist| <= limit && 0 <= top <= bottom < |lines| && Sized(lines, cols, |lines|)
    ensures |h| <= limit
    ensures UsedFits(hist) && UsedFits(lines) ==> UsedFits(h)
    decreases n
  {
    if n <= 0 then hist else
      Remember(Push(hist, limit, lines[top]), limit, UpOne(lines, top, bottom, BlankLine(cols)), top, bottom, cols, n - 1)
  }

  // The region moves up; the row that leaves it goes into the scrollback, unless a program has the
  // alternate screen.
  function ScrollUp(t: Term, n: int): (t': Term)
    requires Inv(t)
    ensures Inv(t') && Steady(t, t')
  {
    t.(lines := ShiftUp(t.lines, t.top, t.bottom, t.cols, n),
       hist := if t.alt.Some? then t.hist else Remember(t.hist, t.limit, t.lines, t.top, t.bottom, t.cols, n))
  }

  function ScrollDown(t: Term, n: int): (t': Term)
    requires Inv(t)
    ensures Inv(t') && Steady(t, t')
  {
    t.(lines := ShiftDown(t.lines, t.top, t.bottom, t.cols, n))
  }

  // How far down inserting and deleting lines reaches: to the bottom margin from between the margins,
  // and to the last row from anywhere else.
  function ShiftBottom(t: Term): int {
    if t.top <= t.cur.row <= t.bottom then t.bottom else t.rows - 1
  }

  function InsertLines(t: Term, n: int): (t': Term)
    requires Inv(t)
    ensures Inv(t') && Steady(t, t')
  {
    t.(lines := ShiftDown(t.lines, t.cur.row, ShiftBottom(t), t.cols, n))
  }

  function DeleteLines(t: Term, n: int): (t': Term)
    requires Inv(t)
    ensures Inv(t') && Steady(t, t')
  {
    t.(lines := ShiftUp(t.lines, t.cur.row, ShiftBottom(t), t.cols, n))
  }

  function LineFeed(t: Term): (t': Term)
    requires Inv(t)
    ensures Inv(t') && Steady(t, t')
  {
    if t.cur.row == t.bottom then ScrollUp(t, 1)
    else if t.cur.row < t.rows - 1 then t.(cur := t.cur.(row := t.cur.row + 1))
    else t
  }

  function ReverseIndex(t: Term): (t': Term)
    requires Inv(t)
    ensures Inv(t') && Steady(t, t')
  {
    if t.cur.row == t.top then ScrollDown(t, 1)
    else if t.cur.row > 0 then t.(cur := t.cur.(row := t.cur.row - 1))
    else t
  }

  function MoveTo(t: Term, row: int, col: int): (t': Term)
    requires Inv(t)
    ensures Inv(t') && Steady(t, t')
  {
    t.(cur := t.cur.(row := Clamp(row, 0, t.rows - 1), col := Clamp(col, 0, t.cols - 1)), pend := false)
  }

  // A margin in the way of the movement ends it. With none in the way, the edge of the screen does.
  function MoveVertically(t: Term, delta: int): (t': Term)
    requires Inv(t)
    ensures Inv(t') && Steady(t, t')
  {
    var hi := if delta > 0 && t.cur.row <= t.bottom then t.bottom else t.rows - 1;
    var lo := if delta < 0 && t.cur.row >= t.top then t.top else 0;
    t.(cur := t.cur.(row := Clamp(t.cur.row + delta, lo, hi)), pend := false)
  }

  // Where a tab goes from a column: to the first stop on its right, or to the edge.
  function NextTab(t: Term, c: int): (col: int)
    requires Inv(t) && 0 <= c < t.cols
    ensures c <= col < t.cols
    decreases t.cols - c
  {
    if c + 1 >= t.cols then t.cols - 1
    else if t.tabs[c + 1] then c + 1
    else NextTab(t, c + 1)
  }

  function SetTab(t: Term): (t': Term)
    requires Inv(t)
    ensures Inv(t') && Steady(t, t')
  {
    t.(tabs := t.tabs[t.cur.col := true])
  }

  function ClearTabs(t: Term, all: bool): (t': Term)
    requires Inv(t)
    ensures Inv(t') && Steady(t, t')
  {
    if all then t.(tabs := seq(|t.tabs|, _ => false)) else t.(tabs := t.tabs[t.cur.col := false])
  }

  function SaveCursor(t: Term): (t': Term)
    requires Inv(t)
    ensures Inv(t') && Steady(t, t')
  {
    t.(saved := t.cur, savedStyle := t.style)
  }

  // The cursor stays as visible as it is, whatever it was when it was saved.
  function RestoreCursor(t: Term): (t': Term)
    requires Inv(t)
    ensures Inv(t') && Steady(t, t')
  {
    t.(cur := Cursor(Clamp(t.saved.row, 0, t.rows - 1), Clamp(t.saved.col, 0, t.cols - 1), t.cur.visible, t.saved.shape),
       style := t.savedStyle, pend := false)
  }

  // ---------------------------------------------------------------- drawing

  // The column that erasing and shifting start from: one past the edge while a wrap is owed.
  function EffCol(t: Term): int { if t.pend then t.cols else t.cur.col }

  function SetLine(t: Term, r: int, line: Line): (t': Term)
    requires Inv(t) && 0 <= r < t.rows && |line.cells| == t.cols
    requires line.used <= t.cols || line.used == t.lines[r].used
    ensures Inv(t') && Steady(t, t')
  {
    t.(lines := t.lines[r := line])
  }

  function SetCells(t: Term, r: int, cells: seq<Cell>): (t': Term)
    requires Inv(t) && 0 <= r < t.rows && |cells| == t.cols
    ensures Inv(t') && Steady(t, t')
  {
    SetLine(t, r, t.lines[r].(cells := cells))
  }

  // An erased cell keeps only the background of the style in force.
  function EraseCell(style: Style): Cell { Cell([0x20], 1, PLAIN.(bg := style.bg)) }

  function EraseCells(cells: seq<Cell>, from: int, to: int, fill: Cell): (cs: seq<Cell>)
    ensures |cs| == |cells|
    ensures forall c :: 0 <= c < |cells| ==> cs[c] == if from <= c <= to then fill else cells[c]
  {
    seq(|cells|, c requires 0 <= c < |cells| => if from <= c <= to then fill else cells[c])
  }

  function EraseInRow(t: Term, row: int, from: int, to: int): (t': Term)
    requires Inv(t)
    ensures Inv(t') && Steady(t, t')
  {
    if row < 0 || row >= t.rows then t
    else SetCells(t, row, EraseCells(t.lines[row].cells, from, to, EraseCell(t.style)))
  }

  // Rows from..to-1, whole.
  function EraseRows(t: Term, from: int, to: int): (t': Term)
    requires Inv(t)
    ensures Inv(t') && Steady(t, t')
  {
    t.(lines := seq(|t.lines|, r requires 0 <= r < |t.lines| =>
      if from <= r < to
      then t.lines[r].(cells := EraseCells(t.lines[r].cells, 0, t.cols - 1, EraseCell(t.style)))
      else t.lines[r]))
  }

  // n cells come in at a column. As many are lost at the right edge.
  function InsertCells(cells: seq<Cell>, col: int, n: int, fill: Cell): (cs: seq<Cell>)
    requires 0 <= col <= |cells| && n >= 0
    ensures |cs| == |cells|
  {
    var m := Min(n, |cells| - col);
    cells[..col] + seq(m, _ => fill) + cells[col..|cells| - m]
  }

  function DeleteCells(cells: seq<Cell>, col: int, n: int, fill: Cell): (cs: seq<Cell>)
    requires 0 <= col <= |cells| && n >= 0
    ensures |cs| == |cells|
  {
    var m := Min(n, |cells| - col);
    cells[..col] + cells[col + m..] + seq(m, _ => fill)
  }

  function DeleteChars(t: Term, n: int): (t': Term)
    requires Inv(t) && n >= 0
    ensures Inv(t') && Steady(t, t')
  {
    if EffCol(t) >= t.cols then t
    else SetCells(t, t.cur.row, DeleteCells(t.lines[t.cur.row].cells, EffCol(t), n, EraseCell(t.style)))
  }

  function InsertChars(t: Term, n: int): (t': Term)
    requires Inv(t) && n >= 0
    ensures Inv(t') && Steady(t, t')
  {
    if EffCol(t) >= t.cols then t
    else SetCells(t, t.cur.row, InsertCells(t.lines[t.cur.row].cells, EffCol(t), n, EraseCell(t.style)))
  }

  // Insert mode's half of writing a character: making room for it.
  function ShiftRight(t: Term, row: int, col: int, n: int): (t': Term)
    requires Inv(t) && 0 <= row < t.rows && 0 <= col < t.cols && n >= 0
    ensures Inv(t') && Steady(t, t') && t' == t.(lines := t'.lines)
  {
    if n == 0 then t else
      var line := t.lines[row];
      SetLine(t, row, line.(
        cells := InsertCells(line.cells, col, n, Cell([0x20], 1, t.style)),
        used := if line.used > 0 then Min(line.used + n, t.cols) else 0))
  }

  function Wrap(t: Term): (t': Term)
    requires Inv(t)
    ensures Inv(t') && Steady(t, t') && t'.cur.col == 0 && !t'.pend
  {
    var row := t.cur.row;
    LineFeed(SetLine(t, row, t.lines[row].(wrapped := true)).(pend := false, cur := t.cur.(col := 0)))
  }

  // One grapheme in a row: its cell, its continuation if it is wide, and how far the row is used.
  function WriteCell(line: Line, col: int, cell: Cell): (l: Line)
    requires 0 <= col && col + cell.width <= |line.cells| && col < |line.cells|
    ensures |l.cells| == |line.cells|
  {
    var cells := line.cells[col := cell];
    Line(if cell.width == 2 then cells[col + 1 := Continuation(cell.style)] else cells,
         line.wrapped, Max(line.used, col + cell.width))
  }

  // The cursor after a grapheme: one that fills the last column leaves it there, waiting to wrap.
  function Advance(t: Term, width: Width): (t': Term)
    requires Inv(t)
    ensures Inv(t') && Steady(t, t')
  {
    if t.cur.col + width >= t.cols
    then t.(cur := t.cur.(col := t.cols - 1), pend := t.awm)
    else t.(cur := t.cur.(col := t.cur.col + width))
  }

  // Where a grapheme of this width goes: the cursor, moved off a pending wrap and off a margin it
  // would straddle.
  function Settle(t: Term, width: Width): (t': Term)
    requires Inv(t)
    ensures Inv(t') && Steady(t, t') && t'.cur.col + width <= t'.cols
    ensures t'.style == t.style
  {
    var t1 := if t.pend then Wrap(t) else t;
    if t1.cur.col + width <= t1.cols then t1
    else if !t1.awm then t1.(cur := t1.cur.(col := Max(t1.cols - width, 0)))
    else Wrap(t1)
  }

  // One grapheme at the cursor.
  function PutString(t: Term, content: seq<Rune>, width: Width): (t': Term)
    requires Inv(t)
    ensures Inv(t') && Steady(t, t')
  {
    var t1 := Settle(t, width);
    var t2 := if t1.irm then ShiftRight(t1, t1.cur.row, t1.cur.col, width) else t1;
    var line := WriteCell(t2.lines[t2.cur.row], t2.cur.col, Cell(content, width, t2.style));
    Advance(SetLine(t2, t2.cur.row, line), width)
  }

  // The cell a mark joins: at this column, or the nearest one to the left that has content.
  function Head(cells: seq<Cell>, col: int): (c: int)
    requires 0 <= col < |cells|
    ensures 0 <= c <= col
    decreases col
  {
    if col > 0 && cells[col].content == [] then Head(cells, col - 1) else col
  }

  function Combine(t: Term, r: Rune): (t': Term)
    requires Inv(t)
    ensures Inv(t') && Steady(t, t')
  {
    if t.cur.col == 0 && !t.pend then t else
      var cells := t.lines[t.cur.row].cells;
      var col := Head(cells, if t.pend then t.cols - 1 else t.cur.col - 1);
      if cells[col].content == [] then t
      else SetCells(t, t.cur.row, cells[col := cells[col].(content := cells[col].content + [r])])
  }

  function Put(t: Term, r: Rune, width: Width): (t': Term)
    requires Inv(t)
    ensures Inv(t') && Steady(t, t')
  {
    if width == 0 then Combine(t, r) else PutString(t, [r], width)
  }
}
