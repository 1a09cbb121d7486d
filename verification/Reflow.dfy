/** Re-breaking paragraphs at a new width.

    A paragraph is what wrapping joined and a newline ended. A resize joins all rows there are into
    paragraphs, breaks those at the new width, and puts the cursor where its character went. */
module Reflow {
  import opened Vt
  import opened Grid

  // A paragraph and the offset of the cursor in it, or -1 when the cursor is elsewhere.
  datatype Logical = Logical(cells: seq<Cell>, cursor: int)

  // One physical row as far as it was written, with the cursor's column in it or -1.
  datatype Piece = Piece(cells: seq<Cell>, wrapped: bool, cursor: int)

  function Written(l: Line): seq<Cell> { l.cells[..Min(l.used, |l.cells|)] }

  // The text of a row. It reaches to the cursor, if that is further on.
  function RowPiece(l: Line, cursor: int): Piece {
    Piece(l.cells[..Min(Max(l.used, cursor), |l.cells|)], l.wrapped, cursor)
  }

  function Pieces(lines: seq<Line>, row: int, col: int): (ps: seq<Piece>)
    ensures |ps| == |lines|
  {
    seq(|lines|, i requires 0 <= i < |lines| => RowPiece(lines[i], if i == row then col else -1))
  }

  // How many rows of the screen are text: up to the cursor, or the last row written below it.
  function TextRows(lines: seq<Line>, row: int): (n: nat)
    ensures n <= |lines|
    decreases |lines|
  {
    if |lines| == 0 then 0
    else if row >= |lines| - 1 || lines[|lines| - 1].used > 0 then |lines|
    else TextRows(lines[..|lines| - 1], row)
  }

  function JoinPieces(ps: seq<Piece>): (ls: seq<Logical>)
    ensures ps != [] ==> ls != []
  {
    if ps == [] then []
    else if !ps[0].wrapped || |ps| == 1 then [Logical(ps[0].cells, ps[0].cursor)] + JoinPieces(ps[1..])
    else
      var rest := JoinPieces(ps[1..]);
      [Logical(ps[0].cells + rest[0].cells,
               if rest[0].cursor >= 0 then |ps[0].cells| + rest[0].cursor else ps[0].cursor)] + rest[1..]
  }

  // The rows of scrollback and screen that are text, oldest first.
  function TextPieces(t: Term): seq<Piece> {
    Pieces(t.hist, -1, -1) + Pieces(t.lines[..TextRows(t.lines, t.cur.row)], t.cur.row, t.cur.col)
  }

  function LogicalLines(t: Term): seq<Logical> { JoinPieces(TextPieces(t)) }

  // ---------------------------------------------------------------- breaking again

  // The rows of a paragraph, each as far as it is written, and where the cursor is among them.
  datatype Broken = Broken(rows: seq<seq<Cell>>, row: int, col: int)

  // What one character does to the row being filled: it goes on it whole, or begins the next one.
  function Filled(row: seq<Cell>, c: Cell, cols: nat): seq<Cell> {
    (if |row| + |Glyph(c)| > cols then [] else row) + Glyph(c)
  }

  // The rows from the one being filled on, when `rest` are those from where the character is.
  function Placed(rest: Broken, row: seq<Cell>, c: Cell, cols: nat, here: bool): Broken {
    var flush := |row| + |Glyph(c)| > cols;
    var at := if rest.row < 0 && here then Broken(rest.rows, 0, if flush then 0 else |row|) else rest;
    if flush then Broken([row] + at.rows, if at.row < 0 then -1 else at.row + 1, at.col) else at
  }

  // The end of a paragraph: its last row, and one more when the cursor would be past the margin.
  function Ending(row: seq<Cell>, cols: nat, here: bool): Broken {
    if here && |row| >= cols then Broken([row, []], 1, 0)
    else Broken([row], if here then 0 else -1, if here then |row| else 0)
  }

  // Breaks the cells from i on, the row being filled having `row` in it already. The second halves
  // of wide characters are placed with their first halves.
  function BreakFrom(cells: seq<Cell>, i: nat, cols: nat, cursor: int, row: seq<Cell>): (b: Broken)
    requires cols >= 2 && |row| <= cols
    ensures |b.rows| > 0 && forall k :: 0 <= k < |b.rows| ==> |b.rows[k]| <= cols
    ensures -1 <= b.row < |b.rows| && 0 <= b.col < cols && (b.row < 0 ==> b.col == 0)
    decreases |cells| - i
  {
    if i >= |cells| then Ending(row, cols, cursor >= |cells|)
    else if cells[i] == Continuation(cells[i].style) then BreakFrom(cells, i + 1, cols, cursor, row)
    else Placed(BreakFrom(cells, i + 1, cols, cursor, Filled(row, cells[i], cols)), row, cells[i], cols, i == cursor)
  }

  function Padded(row: seq<Cell>, cols: nat, wrapped: bool): (l: Line)
    requires |row| <= cols
    ensures |l.cells| == cols && Written(l) == row
  {
    Line(row + BlankRow(cols - |row|), wrapped, |row|)
  }

  // The rows of one paragraph, wrapped each into the one below it.
  function PaddedRows(rows: seq<seq<Cell>>, cols: nat): (ls: seq<Line>)
    requires forall k :: 0 <= k < |rows| ==> |rows[k]| <= cols
    ensures |ls| == |rows| && Sized(ls, cols, |rows|) && UsedFits(ls)
  {
    seq(|rows|, k requires 0 <= k < |rows| => Padded(rows[k], cols, k < |rows| - 1))
  }

  // All rows of all paragraphs and the cursor's place among them.
  datatype Laid = Laid(lines: seq<Line>, row: int, col: int)

  function LayOut(ls: seq<Logical>, cols: nat): (out: Laid)
    requires cols >= 2
    ensures Sized(out.lines, cols, |out.lines|) && UsedFits(out.lines)
    ensures -1 <= out.row && (out.row >= 0 ==> out.row < |out.lines|) && 0 <= out.col < cols
    ensures out.row < 0 ==> out.col == 0
  {
    if ls == [] then Laid([], -1, 0) else
      var b := BreakFrom(ls[0].cells, 0, cols, ls[0].cursor, []);
      var rest := LayOut(ls[1..], cols);
      Laid(PaddedRows(b.rows, cols) + rest.lines,
           if rest.row >= 0 then |b.rows| + rest.row else b.row,
           if rest.row >= 0 then rest.col else b.col)
  }

  // The first row on the screen: the screen ends at the cursor's row or at the last row, whichever
  // is lower.
  function Start(n: nat, row: int, rows: nat): (s: nat)
    requires rows >= 1
    ensures s <= Max(n, Max(row, 0))
  {
    Max(Max(row - rows + 1, n - rows), 0)
  }

  // Puts rows on a screen of this size: the last of them, down to the cursor at least, with
  // everything above in the scrollback.
  function Relay(t: Term, out: Laid, cols: nat, rows: nat): (t': Term)
    requires cols >= 2 && rows >= 1
    requires Sized(out.lines, cols, |out.lines|) && UsedFits(out.lines) && -1 <= out.row && 0 <= out.col < cols
    ensures t'.cols == cols && t'.rows == rows && |t'.tabs| == cols
    ensures Sized(t'.lines, cols, rows) && UsedFits(t'.lines) && UsedFits(t'.hist)
    ensures InScreen(t'.cur, cols, rows) && t'.top == 0 && t'.bottom == rows - 1
    ensures |t'.hist| <= t.limit
  {
    var n := |out.lines|;
    var row := if out.row < 0 then n else out.row;
    var col := if out.row < 0 then 0 else out.col;
    var start := Start(n, row, rows);
    var shown := out.lines[Min(start, n)..Min(start + rows, n)];
    t.(cols := cols, rows := rows, tabs := DefaultTabs(cols),
       lines := shown + BlankLines(cols, rows - |shown|),
       hist := Trim(out.lines[..Min(start, n)], t.limit),
       cur := t.cur.(row := Clamp(row - start, 0, rows - 1), col := Clamp(col, 0, cols - 1)),
       pend := false, top := 0, bottom := rows - 1)
  }

  function ReflowTo(t: Term, cols: nat, rows: nat): (t': Term)
    requires cols >= 2 && rows >= 1
    ensures t'.cols == cols && t'.rows == rows && |t'.tabs| == cols
    ensures Sized(t'.lines, cols, rows) && UsedFits(t'.lines) && UsedFits(t'.hist)
    ensures InScreen(t'.cur, cols, rows) && t'.top == 0 && t'.bottom == rows - 1
    ensures |t'.hist| <= t.limit
  {
    Relay(t, LayOut(LogicalLines(t), cols), cols, rows)
  }

  // ---------------------------------------------------------------- sizes and buffers

  // Fits the rows of the alternate screen to a size: what fits stays, the rest is blank.
  function FitLines(lines: seq<Line>, cols: nat, rows: nat): (ls: seq<Line>)
    ensures Sized(ls, cols, rows)
  {
    var ls := seq(rows, r requires 0 <= r < rows => FitTo(lines, r, cols));
    assert forall r :: 0 <= r < rows ==> ls[r] == FitTo(lines, r, cols);
    ls
  }

  function FitTo(lines: seq<Line>, r: nat, cols: nat): (l: Line)
    ensures |l.cells| == cols
  {
    if r < |lines| then FitLine(lines[r], cols) else BlankLine(cols)
  }

  function FitLine(l: Line, cols: nat): (l': Line)
    ensures |l'.cells| == cols
  {
    var k := Min(cols, |l.cells|);
    l.(cells := l.cells[..k] + BlankRow(cols - k))
  }

  // On the alternate screen only that is cut to size. What it hides keeps its old width until it is
  // shown again.
  function Resize(t: Term, cols: nat, rows: nat): (t': Term)
    requires Inv(t) && cols >= 2 && rows >= 1
    ensures Inv(t')
  {
    if t.alt.Some? then
      t.(cols := cols, rows := rows, lines := FitLines(t.lines, cols, rows), tabs := DefaultTabs(cols),
         top := 0, bottom := rows - 1,
         cur := t.cur.(row := Min(t.cur.row, rows - 1), col := Min(t.cur.col, cols - 1)),
         pend := false, altPending := true)
    else ReflowTo(t, cols, rows)
  }

  function EnterAlt(t: Term, save: bool): (t': Term)
    requires Inv(t)
    ensures Inv(t')
  {
    if t.alt.Some? then t else
      t.(altSaved := if save then t.cur else t.altSaved,
         alt := Some(t.lines), lines := BlankLines(t.cols, t.rows))
  }

  // The primary screen comes back - re-laid, if the size changed meanwhile - and so does the cursor.
  function LeaveAlt(t: Term, restore: bool): (t': Term)
    requires Inv(t)
    ensures Inv(t')
  {
    if t.alt.None? then t else
      var t1 := t.(lines := t.alt.value, alt := None, altPending := false);
      var t2 := if t.altPending then ReflowTo(t1, t.cols, t.rows) else t1;
      t2.(cur := if restore
                 then t.altSaved.(row := Min(t.altSaved.row, t.rows - 1), col := Min(t.altSaved.col, t.cols - 1))
                 else t2.cur,
          pend := false)
  }
}
