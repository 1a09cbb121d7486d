/** A screen composed of panes that do not overlap can be drawn: every cell is its pane's cell or
    blank, and no character is cut in two. */
module LayoutLaws {
  import opened Vt
  import opened Grid
  import opened Layout
  import opened Paragraphs
  import opened DrawLaws
  import opened RepaintLaws
  import Parser
  import Render

  // ---------------------------------------------------------------- cutting rows

  // After anything but the first half of a wide character, a row can be cut.
  lemma {:induction false} CutAfter(cells: seq<Cell>, k: nat)
    requires WholeChars(cells) && k <= |cells| && (k > 0 ==> cells[k - 1].width != 2)
    ensures Boundary(cells, k)
  {
    if k == 0 {
      assert cells[..0] == [] && cells[0..] == cells;
    } else {
      var w := cells[0].width;
      CutAfter(cells[w..], k - w);
      assert cells[w..][..k - w] == cells[w..k] && cells[w..][k - w..] == cells[k..];
      assert cells[..k][w..] == cells[w..k];
    }
  }

  // A wide character has its second half beside it.
  lemma {:induction false} SecondHalf(cells: seq<Cell>, i: nat)
    requires WholeChars(cells) && i < |cells| && cells[i].width == 2
    ensures i + 1 < |cells| && cells[i + 1].width == 0
  {
    if i > 0 {
      var w := cells[0].width;
      SecondHalf(cells[w..], i - w);
    }
  }

  lemma {:induction false} BlanksWhole(n: nat)
    ensures WholeChars(BlankRow(n))
  {
    if n > 0 {
      BlanksWhole(n - 1);
      assert BlankRow(n)[1..] == BlankRow(n - 1);
    }
  }

  // The columns of a pane are blank in a row.
  ghost predicate Free(row: seq<Cell>, rect: Rect) {
    forall x :: rect.col <= x < rect.col + rect.cols && 0 <= x < |row| ==> row[x] == BLANK
  }

  ghost predicate Inside(rect: Rect, cols: nat, rows: nat) {
    && 0 <= rect.col && 0 <= rect.row && 1 <= rect.cols && 1 <= rect.rows
    && rect.col + rect.cols <= cols && rect.row + rect.rows <= rows
  }

  // What a row of a pane shows of its grid: as much as fits, the half of a wide character that
  // would be left at the edge blanked, and blanks after it.
  function Clipped(g: seq<Cell>, w: nat): (row: seq<Cell>)
    requires w >= 1
    ensures |row| == w
  {
    if |g| < w then g + BlankRow(w - |g|)
    else if g[w - 1].width == 2 then g[..w - 1] + [BLANK]
    else g[..w]
  }

  lemma ClippedWhole(g: seq<Cell>, w: nat)
    requires WholeChars(g) && w >= 1
    ensures WholeChars(Clipped(g, w))
  {
    if |g| < w {
      BlanksWhole(w - |g|);
      WholeConcat(g, BlankRow(w - |g|));
    } else if g[w - 1].width == 2 {
      if w >= 2 && g[w - 2].width == 2 {
        SecondHalf(g, w - 2);
      }
      CutAfter(g, w - 1);
      BlanksWhole(1);
      WholeConcat(g[..w - 1], BlankRow(1));
      assert BlankRow(1) == [BLANK];
    } else {
      CutAfter(g, w);
    }
  }

  // Drawing a pane where a row is free puts what it shows there, and changes nothing else.
  lemma DrawnParts(row: seq<Cell>, rect: Rect, g: seq<Cell>)
    requires 0 <= rect.col && 1 <= rect.cols && rect.col + rect.cols <= |row| && Free(row, rect)
    ensures Edged(Copied(row, rect, g), rect) == row[..rect.col] + Clipped(g, rect.cols) + row[rect.col + rect.cols..]
  {
    var a, b := rect.col, rect.col + rect.cols;
    var copied := Copied(row, rect, g);
    assert copied[b - 1] == if |g| < rect.cols then BLANK else g[rect.cols - 1];
  }

  // Beside free columns a row can be cut.
  lemma FreeCuts(row: seq<Cell>, rect: Rect)
    requires WholeChars(row) && 0 <= rect.col && 1 <= rect.cols && rect.col + rect.cols <= |row| && Free(row, rect)
    ensures WholeChars(row[..rect.col]) && WholeChars(row[rect.col + rect.cols..])
  {
    hide WholeChars;
    var a, b := rect.col, rect.col + rect.cols;
    if a > 0 && row[a - 1].width == 2 {
      SecondHalf(row, a - 1);
      assert false;
    }
    CutAfter(row, a);
    assert row[b - 1] == BLANK;
    CutAfter(row, b);
  }

  lemma DrawnWhole(row: seq<Cell>, rect: Rect, g: seq<Cell>)
    requires WholeChars(row) && WholeChars(g)
    requires 0 <= rect.col && 1 <= rect.cols && rect.col + rect.cols <= |row| && Free(row, rect)
    ensures WholeChars(Edged(Copied(row, rect, g), rect))
  {
    hide WholeChars, Edged, Copied, Clipped, Free;
    DrawnParts(row, rect, g);
    FreeCuts(row, rect);
    ClippedWhole(g, rect.cols);
    WholeConcat(row[..rect.col], Clipped(g, rect.cols));
    WholeConcat(row[..rect.col] + Clipped(g, rect.cols), row[rect.col + rect.cols..]);
  }

  // ---------------------------------------------------------------- panes beside each other

  ghost predicate Overlap(a: Rect, b: Rect) {
    a.col < b.col + b.cols && b.col < a.col + a.cols && a.row < b.row + b.rows && b.row < a.row + a.rows
  }

  // Panes on the screen that do not overlap, each with a grid of whole characters of any size.
  ghost predicate Tiled(panes: seq<Pane>, cols: nat, rows: nat) {
    && (forall i :: 0 <= i < |panes| ==> Inside(panes[i].rect, cols, rows))
    && (forall i, j :: 0 <= i < j < |panes| ==> !Overlap(panes[i].rect, panes[j].rect))
    && (forall i, r :: 0 <= i < |panes| && 0 <= r < |panes[i].grid| ==> WholeChars(panes[i].grid[r]))
  }

  ghost predicate Covers(rect: Rect, x: int, y: int) {
    rect.col <= x < rect.col + rect.cols && rect.row <= y < rect.row + rect.rows
  }

  // What a pane shows at a place on the screen.
  function CellOf(p: Pane, x: int, y: int): Cell
    requires Covers(p.rect, x, y)
  {
    var r, c := y - p.rect.row, x - p.rect.col;
    if r >= |p.grid| || c >= |p.grid[r]| then BLANK
    else if c == p.rect.cols - 1 && p.grid[r][c].width == 2 then BLANK
    else p.grid[r][c]
  }

  // A row of whole characters in which every cell is what its pane shows, or blank.
  ghost predicate Faithful(row: seq<Cell>, panes: seq<Pane>, y: int) {
    && WholeChars(row)
    && (forall x, i :: 0 <= x < |row| && 0 <= i < |panes| && Covers(panes[i].rect, x, y) ==> row[x] == CellOf(panes[i], x, y))
    && (forall x :: 0 <= x < |row| && (forall i :: 0 <= i < |panes| ==> !Covers(panes[i].rect, x, y)) ==> row[x] == BLANK)
  }

  lemma FreeOfOthers(row: seq<Cell>, panes: seq<Pane>, p: Pane, cols: nat, rows: nat, y: int)
    requires Faithful(row, panes, y) && Tiled(panes + [p], cols, rows) && |row| == cols
    requires p.rect.row <= y < p.rect.row + p.rect.rows
    ensures Free(row, p.rect)
  {
    hide WholeChars;
    forall x | p.rect.col <= x < p.rect.col + p.rect.cols && 0 <= x < |row|
      ensures row[x] == BLANK
    {
      forall i | 0 <= i < |panes|
        ensures !Covers(panes[i].rect, x, y)
      {
        assert !Overlap((panes + [p])[i].rect, (panes + [p])[|panes|].rect);
      }
    }
  }

  lemma DrawnCell(row: seq<Cell>, p: Pane, y: int, x: int)
    requires 0 <= p.rect.col && 1 <= p.rect.cols && p.rect.col + p.rect.cols <= |row| && Covers(p.rect, x, y)
      && Free(row, p.rect)
    ensures Shown(row, p, y)[x] == CellOf(p, x, y)
  {
    assert row[x] == BLANK;
  }

  lemma DrawnElsewhere(row: seq<Cell>, p: Pane, y: int, x: int)
    requires 0 <= x < |row| && !Covers(p.rect, x, y) && 1 <= p.rect.cols
    ensures Shown(row, p, y)[x] == row[x]
  {
  }

  lemma OneMorePane(row: seq<Cell>, panes: seq<Pane>, p: Pane, cols: nat, rows: nat, y: int)
    requires Faithful(row, panes, y) && Tiled(panes + [p], cols, rows) && |row| == cols && 0 <= y < rows
    ensures Faithful(Shown(row, p, y), panes + [p], y)
  {
    var all := panes + [p];
    assert all[|panes|] == p;
    var row' := Shown(row, p, y);
    if p.rect.row <= y < p.rect.row + p.rect.rows {
      FreeOfOthers(row, panes, p, cols, rows, y);
      if y - p.rect.row < |p.grid| {
        DrawnWhole(row, p.rect, p.grid[y - p.rect.row]);
      }
    }
    hide WholeChars, Shown, CellOf, Overlap;
    forall x, i | 0 <= x < |row| && 0 <= i < |all| && Covers(all[i].rect, x, y)
      ensures row'[x] == CellOf(all[i], x, y)
    {
      PaneKept(row, panes, p, cols, rows, y, x, i);
    }
    forall x | 0 <= x < |row| && (forall i :: 0 <= i < |all| ==> !Covers(all[i].rect, x, y))
      ensures row'[x] == BLANK
    {
      DrawnElsewhere(row, p, y, x);
      forall i | 0 <= i < |panes|
        ensures !Covers(panes[i].rect, x, y)
      {
        assert all[i] == panes[i];
      }
    }
  }

  lemma PaneKept(row: seq<Cell>, panes: seq<Pane>, p: Pane, cols: nat, rows: nat, y: int, x: int, i: nat)
    requires Faithful(row, panes, y) && Tiled(panes + [p], cols, rows) && |row| == cols && 0 <= y < rows
    requires 0 <= x < |row| && i <= |panes| && Covers((panes + [p])[i].rect, x, y)
    ensures Shown(row, p, y)[x] == CellOf((panes + [p])[i], x, y)
  {
    hide WholeChars, Shown, CellOf;
    var all := panes + [p];
    if i == |panes| {
      FreeOfOthers(row, panes, p, cols, rows, y);
      DrawnCell(row, p, y, x);
    } else {
      assert !Overlap(all[i].rect, all[|panes|].rect);
      DrawnElsewhere(row, p, y, x);
    }
  }

  lemma {:induction false} RowFaithful(panes: seq<Pane>, cols: nat, rows: nat, y: int)
    requires Tiled(panes, cols, rows) && 0 <= y < rows
    ensures Faithful(RowOf(BlankRow(cols), panes, y), panes, y)
    decreases |panes|
  {
    if panes == [] {
      BlanksWhole(cols);
    } else {
      var rest, p := panes[..|panes| - 1], panes[|panes| - 1];
      assert panes == rest + [p];
      hide Faithful, Shown;
      FewerTiled(rest, p, cols, rows);
      RowFaithful(rest, cols, rows, y);
      OneMorePane(RowOf(BlankRow(cols), rest, y), rest, p, cols, rows, y);
    }
  }

  lemma FewerTiled(panes: seq<Pane>, p: Pane, cols: nat, rows: nat)
    requires Tiled(panes + [p], cols, rows)
    ensures Tiled(panes, cols, rows)
  {
    hide WholeChars, Overlap, Inside;
    var all := panes + [p];
    assert forall i :: 0 <= i < |panes| ==> all[i] == panes[i];
  }

  // ---------------------------------------------------------------- the screen

  lemma {:induction false} CursorInside(panes: seq<Pane>, cols: nat, rows: nat)
    requires cols >= 1 && rows >= 1 && forall i :: 0 <= i < |panes| ==> Inside(panes[i].rect, cols, rows)
    ensures InScreen(CursorOf(panes, cols, rows).0, cols, rows)
    decreases |panes|
  {
    if panes != [] {
      CursorInside(panes[..|panes| - 1], cols, rows);
    }
  }

  // The cursor on the screen is the one of the pane that has the focus - the last of them that has -
  // where it is in the pane, and as visible. One outside its pane is brought to its edge.
  lemma {:induction false} CursorShown(panes: seq<Pane>, k: nat, cols: nat, rows: nat)
    requires k < |panes| && panes[k].focused && (forall i :: k < i < |panes| ==> !panes[i].focused)
    requires Inside(panes[k].rect, cols, rows)
    ensures var p := panes[k]; var (cur, pending) := CursorOf(panes, cols, rows);
            && pending == p.pending && cur == p.cur.(row := cur.row, col := cur.col)
            && (cur.row == if p.cur.row < 0 then p.rect.row
                           else if p.cur.row < p.rect.rows then p.rect.row + p.cur.row else p.rect.row + p.rect.rows - 1)
            && (cur.col == if p.cur.col < 0 then p.rect.col
                           else if p.cur.col < p.rect.cols then p.rect.col + p.cur.col else p.rect.col + p.rect.cols - 1)
    decreases |panes|
  {
    if k < |panes| - 1 {
      CursorShown(panes[..|panes| - 1], k, cols, rows);
    }
  }

  // With no focus there is none to be seen.
  lemma {:induction false} NoFocus(panes: seq<Pane>, cols: nat, rows: nat)
    requires forall i :: 0 <= i < |panes| ==> !panes[i].focused
    ensures !CursorOf(panes, cols, rows).0.visible && !CursorOf(panes, cols, rows).1
    decreases |panes|
  {
    if panes != [] {
      NoFocus(panes[..|panes| - 1], cols, rows);
    }
  }

  ghost predicate LinkFree(panes: seq<Pane>) {
    forall i, r :: 0 <= i < |panes| && 0 <= r < |panes[i].grid| ==> Unlinked(panes[i].grid[r])
  }

  lemma RowUnlinked(row: seq<Cell>, panes: seq<Pane>, y: int)
    requires Faithful(row, panes, y) && LinkFree(panes)
    ensures Unlinked(row)
  {
    hide WholeChars;
    forall x | 0 <= x < |row|
      ensures row[x].style.link == []
    {
      if i :| 0 <= i < |panes| && Covers(panes[i].rect, x, y) {
        assert row[x] == CellOf(panes[i], x, y);
        var r := y - panes[i].rect.row;
        assert r < |panes[i].grid| ==> Unlinked(panes[i].grid[r]);
      } else {
        assert row[x] == BLANK;
      }
    }
  }

  // Panes beside each other make a screen that can be painted, cursor included, whatever sizes
  // their grids are.
  lemma ComposedPaintable(cols: nat, rows: nat, panes: seq<Pane>)
    requires cols >= 2 && rows >= 1 && Tiled(panes, cols, rows) && LinkFree(panes)
    ensures Paintable(Composed(cols, rows, panes))
    ensures forall y :: 0 <= y < rows ==> Faithful(Composed(cols, rows, panes).cells[y], panes, y)
  {
    hide Faithful, WholeChars, Unlinked, LinkFree;
    var f := Composed(cols, rows, panes);
    CursorInside(panes, cols, rows);
    forall y | 0 <= y < rows
      ensures Faithful(f.cells[y], panes, y) && WholeChars(f.cells[y]) && Unlinked(f.cells[y])
    {
      RowFaithful(panes, cols, rows, y);
      FaithfulWhole(f.cells[y], panes, y);
      RowUnlinked(f.cells[y], panes, y);
    }
  }

  lemma FaithfulWhole(row: seq<Cell>, panes: seq<Pane>, y: int)
    requires Faithful(row, panes, y)
    ensures WholeChars(row)
  {
  }

  // So painting it shows exactly it, when the focused pane's cursor is not waiting to wrap.
  lemma ComposedRepaints(t: Term, p: Parser.Parser, panes: seq<Pane>)
    requires Tiled(panes, t.cols, t.rows) && LinkFree(panes) && !CursorOf(panes, t.cols, t.rows).1
    requires Canvas(t, p, Composed(t.cols, t.rows, panes))
    ensures var f := Composed(t.cols, t.rows, panes);
            Paintable(f) && Shows(t, Parser.Feed(Parser.Emu(t, p), Render.Screen(f)), f)
  {
    ComposedPaintable(t.cols, t.rows, panes);
    hide Shows, Parser.Step, Render.Screen;
    RepaintRoundTrip(t, p, Composed(t.cols, t.rows, panes));
  }
}
