/** Several grids on one screen. */
module Layout {
  import opened Vt

  datatype Rect = Rect(col: int, row: int, cols: int, rows: int)

  // A terminal as a layout sees it: its place on the screen, its grid and its cursor.
  datatype Pane = Pane(rect: Rect, grid: seq<seq<Cell>>, cur: Cursor, pending: bool, focused: bool)

  const HIDDEN := Cursor(0, 0, false, 0)

  // ---------------------------------------------------------------- what it comes to

  // A row of the screen with a row of a pane copied into it, clipped to the pane and to the screen.
  function Copied(row: seq<Cell>, rect: Rect, g: seq<Cell>): (row': seq<Cell>)
    ensures |row'| == |row|
  {
    seq(|row|, x requires 0 <= x < |row| => if 0 <= x - rect.col < rect.cols
      && x - rect.col < |g| then g[x - rect.col] else row[x])
  }

  // Where a pane ends inside a wide character, the column it has of it is blank.
  function Edged(row: seq<Cell>, rect: Rect): (row': seq<Cell>)
    ensures |row'| == |row|
  {
    var edge := rect.col + rect.cols;
    if 0 < edge <= |row| && row[edge - 1].width == 2 then row[edge - 1 := BLANK] else row
  }

  // Row y of the screen, with a pane drawn over it.
  function Shown(row: seq<Cell>, p: Pane, y: int): (row': seq<Cell>)
    ensures |row'| == |row|
  {
    var r := y - p.rect.row;
    if 0 <= r < p.rect.rows && r < |p.grid| then Edged(Copied(row, p.rect, p.grid[r]), p.rect) else row
  }

  // Row y of the screen with all panes drawn, later ones over earlier ones.
  function RowOf(row: seq<Cell>, panes: seq<Pane>, y: int): (row': seq<Cell>)
    ensures |row'| == |row|
    decreases |panes|
  {
    if panes == [] then row else Shown(RowOf(row, panes[..|panes| - 1], y), panes[|panes| - 1], y)
  }

  // The cursor of a pane, clipped into the pane.
  function Placed(p: Pane, cols: nat, rows: nat): Cursor {
    p.cur.(row := Clamp(p.cur.row + p.rect.row, p.rect.row, Min(p.rect.row + p.rect.rows - 1, rows - 1)),
           col := Clamp(p.cur.col + p.rect.col, p.rect.col, Min(p.rect.col + p.rect.cols - 1, cols - 1)))
  }

  // The screen's cursor is that of the focused pane; without one it is hidden.
  function CursorOf(panes: seq<Pane>, cols: nat, rows: nat): (Cursor, bool)
    decreases |panes|
  {
    if panes == [] then (HIDDEN, false)
    else
      var last := panes[|panes| - 1];
      if last.focused then (Placed(last, cols, rows), last.pending) else CursorOf(panes[..|panes| - 1], cols, rows)
  }

  function Composed(cols: nat, rows: nat, panes: seq<Pane>): Frame {
    Frame(cols, rows, seq(rows, y => RowOf(BlankRow(cols), panes, y)),
          CursorOf(panes, cols, rows).0, CursorOf(panes, cols, rows).1)
  }

  // ---------------------------------------------------------------- how it is done

  method DrawRow(row: seq<Cell>, rect: Rect, g: seq<Cell>) returns (row': seq<Cell>)
    ensures row' == Edged(Copied(row, rect, g), rect)
  {
    row' := row;
    var c := 0;
    while c < rect.cols
      invariant 0 <= c && |row'| == |row|
      invariant forall x :: 0 <= x < |row| ==> row'[x] == if 0 <= x - rect.col < rect.cols && x - rect.col < c
        && x - rect.col < |g| then g[x - rect.col] else row[x]
    {
      var x := rect.col + c;
      if 0 <= x < |row'| && c < |g| {
        row' := row'[x := g[c]];
      }
      c := c + 1;
    }
    assert row' == Copied(row, rect, g);
    var edge := rect.col + rect.cols;
    if 0 < edge <= |row'| && row'[edge - 1].width == 2 {
      row' := row'[edge - 1 := BLANK];
    }
  }

  method DrawPane(cells: seq<seq<Cell>>, p: Pane) returns (cells': seq<seq<Cell>>)
    ensures |cells'| == |cells| && forall y :: 0 <= y < |cells| ==> cells'[y] == Shown(cells[y], p, y)
  {
    hide Edged, Copied;
    cells' := cells;
    var r := 0;
    while r < p.rect.rows
      invariant 0 <= r && |cells'| == |cells|
      invariant forall y :: 0 <= y < |cells| ==> cells'[y] == if y - p.rect.row < r then Shown(cells[y], p, y) else cells[y]
    {
      var y := p.rect.row + r;
      if 0 <= y < |cells'| && r < |p.grid| {
        var row := DrawRow(cells'[y], p.rect, p.grid[r]);
        cells' := cells'[y := row];
      }
      r := r + 1;
    }
  }

  // Draws the panes one after another on an empty screen.
  method Compose(cols: nat, rows: nat, panes: seq<Pane>) returns (f: Frame)
    ensures f == Composed(cols, rows, panes)
  {
    hide Shown;
    var cells := seq(rows, _ => BlankRow(cols));
    var cur, pending := HIDDEN, false;
    var i := 0;
    while i < |panes|
      invariant 0 <= i <= |panes| && |cells| == rows
      invariant forall y :: 0 <= y < rows ==> cells[y] == RowOf(BlankRow(cols), panes[..i], y)
      invariant (cur, pending) == CursorOf(panes[..i], cols, rows)
    {
      var p := panes[i];
      assert panes[..i + 1][..i] == panes[..i];
      cells := DrawPane(cells, p);
      if p.focused {
        cur, pending := Placed(p, cols, rows), p.pending;
      }
      i := i + 1;
    }
    assert panes[..i] == panes;
    f := Frame(cols, rows, cells, cur, pending);
  }
}
