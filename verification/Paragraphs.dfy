/** Breaking paragraphs into rows and joining the rows again: nothing is lost, no character is split
    and the cursor stays with its character. */
module Paragraphs {
  import opened Vt
  import opened Grid
  import opened Reflow

  // ---------------------------------------------------------------- whole characters

  // Offset k falls between characters.
  ghost predicate Boundary(cells: seq<Cell>, k: int) {
    0 <= k <= |cells| && WholeChars(cells[..k]) && WholeChars(cells[k..])
  }

  lemma {:induction false} WholeConcat(a: seq<Cell>, b: seq<Cell>)
    requires WholeChars(a) && WholeChars(b)
    ensures WholeChars(a + b)
  {
    if a == [] {
      assert a + b == b;
    } else {
      var w := a[0].width;
      var tail := a[w..];
      WholeConcat(tail, b);
      assert (a + b)[w..] == tail + b;
      assert a[0] == (a + b)[0] && (w == 2 ==> a[1] == (a + b)[1]);
    }
  }

  // ---------------------------------------------------------------- breaking one paragraph

  function Flat(rows: seq<seq<Cell>>): seq<Cell> {
    if rows == [] then [] else rows[0] + Flat(rows[1..])
  }

  // How far into the paragraph a place in its rows is.
  function Offset(rows: seq<seq<Cell>>, row: nat, col: int): int
    requires row <= |rows|
  {
    |Flat(rows[..row])| + col
  }

  ghost predicate RowsWhole(rows: seq<seq<Cell>>) {
    && (forall k :: 0 <= k < |rows| ==> WholeChars(rows[k]))
    && (forall k :: 0 <= k < |rows| - 1 ==> rows[k] != [])
  }

  // Where the cursor ends up among the rows: in a row's text, or just past the end of it, and
  // between characters.
  ghost predicate CursorPlaced(b: Broken, offset: int) {
    && 0 <= b.row < |b.rows| && b.col <= |b.rows[b.row]|
    && Offset(b.rows, b.row, b.col) == offset
    && Boundary(b.rows[b.row], b.col)
    && (b.col == |b.rows[b.row]| ==> b.row == |b.rows| - 1)
  }

  lemma BreakStep(cells: seq<Cell>, i: nat, cols: nat, cursor: int, row: seq<Cell>)
    requires cols >= 2 && |row| <= cols && i < |cells| && WholeChars(cells[i..])
    ensures var c := cells[i]; var next := i + c.width;
            && i < next <= |cells| && WholeChars(cells[next..])
            && Glyph(c) == cells[i..next] && WholeChars(Glyph(c))
            && cells[i..] == Glyph(c) + cells[next..]
            && BreakFrom(cells, i, cols, cursor, row)
               == Placed(BreakFrom(cells, next, cols, cursor, Filled(row, c, cols)), row, c, cols, i == cursor)
  {
    var c := cells[i];
    assert cells[i..][0] == c;
    assert cells[i..][c.width..] == cells[i + c.width..];
    assert c != Continuation(c.style);
    if c.width == 2 {
      assert cells[i..][1] == cells[i + 1];
      assert cells[i + 1] == Continuation(cells[i + 1].style);
    }
  }

  lemma BreakEnd(cells: seq<Cell>, cols: nat, cursor: int, row: seq<Cell>)
    requires cols >= 2 && |row| <= cols
    ensures BreakFrom(cells, |cells|, cols, cursor, row) == Ending(row, cols, cursor >= |cells|)
  {
  }

  lemma PlacedText(rest: Broken, row: seq<Cell>, c: Cell, cols: nat, here: bool, tail: seq<Cell>)
    requires |rest.rows| > 0 && cols >= 2 && RowsWhole(rest.rows) && WholeChars(row)
    requires Flat(rest.rows) == Filled(row, c, cols) + tail
    ensures var b := Placed(rest, row, c, cols, here);
            RowsWhole(b.rows) && Flat(b.rows) == row + (Glyph(c) + tail)
  {
    hide WholeChars;
    if |row| + |Glyph(c)| > cols {
      assert ([row] + rest.rows)[1..] == rest.rows;
      assert [] + Glyph(c) == Glyph(c);
    } else {
      assert row + Glyph(c) + tail == row + (Glyph(c) + tail);
    }
  }

  lemma EndingText(row: seq<Cell>, cols: nat, here: bool)
    requires WholeChars(row) && cols >= 2
    ensures RowsWhole(Ending(row, cols, here).rows) && Flat(Ending(row, cols, here).rows) == row
  {
    assert Flat([row]) == row + Flat([]);
    assert Flat([row, []]) == row + Flat([[]]);
  }

  // Breaking loses nothing and splits no character.
  lemma {:induction false} BreakText(cells: seq<Cell>, i: nat, cols: nat, cursor: int, row: seq<Cell>)
    requires cols >= 2 && |row| <= cols && i <= |cells|
    requires WholeChars(cells[i..]) && WholeChars(row)
    ensures var b := BreakFrom(cells, i, cols, cursor, row);
            RowsWhole(b.rows) && Flat(b.rows) == row + cells[i..]
    decreases |cells| - i
  {
    hide WholeChars, RowsWhole, Flat, BreakFrom, Placed;
    var b := BreakFrom(cells, i, cols, cursor, row);
    if i == |cells| {
      BreakEnd(cells, cols, cursor, row);
      EndingText(row, cols, cursor >= |cells|);
      assert row + cells[i..] == row;
    } else {
      BreakStep(cells, i, cols, cursor, row);
      var c, next := cells[i], i + cells[i].width;
      var filled := Filled(row, c, cols);
      WholeConcat(if |row| + |Glyph(c)| > cols then [] else row, Glyph(c));
      BreakText(cells, next, cols, cursor, filled);
      var rest := BreakFrom(cells, next, cols, cursor, filled);
      PlacedText(rest, row, c, cols, i == cursor, cells[next..]);
      assert b == Placed(rest, row, c, cols, i == cursor);
    }
  }

  lemma WholeTail(cells: seq<Cell>)
    requires cells != [] && WholeChars(cells)
    ensures 1 <= cells[0].width <= |cells| && WholeChars(cells[cells[0].width..])
  {
  }

  lemma BoundaryStep(cells: seq<Cell>, k: int)
    requires cells != [] && Boundary(cells, k) && k > 0
    ensures 1 <= cells[0].width <= k && Boundary(cells[cells[0].width..], k - cells[0].width)
  {
    hide WholeChars;
    var w := cells[0].width;
    WholeTail(cells[..k]);
    assert cells[..k][w..] == cells[w..][..k - w];
    assert cells[w..][k - w..] == cells[k..];
  }

  lemma BoundaryConcat(a: seq<Cell>, b: seq<Cell>)
    requires WholeChars(a) && WholeChars(b)
    ensures Boundary(a + b, |a|)
  {
    hide WholeChars;
    assert (a + b)[..|a|] == a && (a + b)[|a|..] == b;
  }

  // The first row begins with this much, and whole characters follow.
  ghost predicate Begins(first: seq<Cell>, row: seq<Cell>) {
    row <= first && WholeChars(first[|row|..])
  }

  lemma BeginsEarlier(first: seq<Cell>, row: seq<Cell>, more: seq<Cell>)
    requires Begins(first, row + more) && WholeChars(more)
    ensures Begins(first, row)
  {
    WholeConcat(more, first[|row + more|..]);
    assert first[|row|..] == more + first[|row + more|..];
  }

  lemma PlacedBegins(rest: Broken, row: seq<Cell>, c: Cell, cols: nat, here: bool)
    requires |rest.rows| > 0 && Begins(rest.rows[0], Filled(row, c, cols)) && WholeChars(Glyph(c))
    ensures Begins(Placed(rest, row, c, cols, here).rows[0], row)
  {
    if |row| + |Glyph(c)| <= cols {
      BeginsEarlier(rest.rows[0], row, Glyph(c));
    }
  }

  // The row being filled stays at the front of the first row.
  lemma {:induction false} BreakBegins(cells: seq<Cell>, i: nat, cols: nat, cursor: int, row: seq<Cell>)
    requires cols >= 2 && |row| <= cols && i <= |cells|
    requires WholeChars(cells[i..])
    ensures Begins(BreakFrom(cells, i, cols, cursor, row).rows[0], row)
    decreases |cells| - i
  {
    hide Placed;
    if i == |cells| {
      assert row[|row|..] == [];
    } else {
      BreakStep(cells, i, cols, cursor, row);
      var c, next := cells[i], i + cells[i].width;
      BreakBegins(cells, next, cols, cursor, Filled(row, c, cols));
      PlacedBegins(BreakFrom(cells, next, cols, cursor, Filled(row, c, cols)), row, c, cols, i == cursor);
    }
  }

  // A cursor that is not in the text still to be broken is not found there.
  lemma {:induction false} BreakAway(cells: seq<Cell>, i: nat, cols: nat, cursor: int, row: seq<Cell>)
    requires cols >= 2 && |row| <= cols && cursor < i <= |cells|
    requires WholeChars(cells[i..])
    ensures var b := BreakFrom(cells, i, cols, cursor, row);
            b.row == -1 && ((row == [] && i == |cells|) || b.rows[|b.rows| - 1] != [])
    decreases |cells| - i
  {
    if i < |cells| {
      BreakStep(cells, i, cols, cursor, row);
      BreakAway(cells, i + cells[i].width, cols, cursor, Filled(row, cells[i], cols));
    }
  }

  // A place among rows that have one more row put in front of them.
  lemma OffsetShift(row: seq<Cell>, rows: seq<seq<Cell>>, at: nat, col: int)
    requires at <= |rows|
    ensures Offset([row] + rows, at + 1, col) == |row| + Offset(rows, at, col)
  {
    assert ([row] + rows)[..at + 1] == [row] + rows[..at];
    assert ([row] + rows[..at])[1..] == rows[..at];
  }

  // What the place of the cursor in the rows means: CursorPlaced, or on the last row when that is empty.
  ghost predicate CursorKept(b: Broken, offset: int) {
    && |b.rows| > 0
    && CursorPlaced(b, offset)
    && (b.rows[|b.rows| - 1] != [] || b.row == |b.rows| - 1)
  }

  lemma EndingKept(row: seq<Cell>, cols: nat)
    requires WholeChars(row) && cols >= 2
    ensures CursorKept(Ending(row, cols, true), |row|)
  {
    assert [row, []][..1] == [row];
    assert [row][..0] == [];
    assert Flat([row]) == row + Flat([]);
    assert row[..|row|] == row;
  }

  lemma PlacedHereBelow(rest: Broken, row: seq<Cell>, c: Cell, cols: nat)
    requires cols >= 2 && |rest.rows| > 0 && rest.row == -1 && |row| + |Glyph(c)| > cols
    requires WholeChars(Glyph(c)) && Begins(rest.rows[0], Glyph(c)) && rest.rows[|rest.rows| - 1] != []
    ensures CursorKept(Broken([row] + rest.rows, 1, 0), |row|)
  {
    var first := rest.rows[0];
    assert [] + Glyph(c) == Glyph(c);
    BeginsEarlier(first, [], Glyph(c));
    assert first[0..] == first && first[..0] == [];
    assert ([row] + rest.rows)[..1] == [row];
    assert Flat([row]) == row + Flat([]);
  }

  lemma PlacedHereAfter(rest: Broken, row: seq<Cell>, c: Cell)
    requires |rest.rows| > 0 && WholeChars(row) && WholeChars(Glyph(c))
    requires Begins(rest.rows[0], row + Glyph(c)) && rest.rows[|rest.rows| - 1] != []
    ensures CursorKept(Broken(rest.rows, 0, |row|), |row|)
  {
    hide WholeChars;
    var first := rest.rows[0];
    assert Boundary(first, |row|) by {
      BeginsEarlier(first, row, Glyph(c));
      assert first[..|row|] == row;
    }
    assert Offset(rest.rows, 0, |row|) == |row| by {
      assert rest.rows[..0] == [];
    }
  }

  lemma PlacedHere(rest: Broken, row: seq<Cell>, c: Cell, cols: nat)
    requires cols >= 2 && |rest.rows| > 0 && rest.row == -1
    requires WholeChars(row) && WholeChars(Glyph(c))
    requires Begins(rest.rows[0], Filled(row, c, cols)) && rest.rows[|rest.rows| - 1] != []
    ensures CursorKept(Placed(rest, row, c, cols, true), |row|)
  {
    hide WholeChars, Begins, CursorKept;
    if |row| + |Glyph(c)| > cols {
      assert [] + Glyph(c) == Glyph(c);
      PlacedHereBelow(rest, row, c, cols);
    } else {
      PlacedHereAfter(rest, row, c);
    }
  }

  lemma PlacedLater(rest: Broken, row: seq<Cell>, c: Cell, cols: nat, here: bool, offset: int)
    requires cols >= 2 && |row| <= cols && CursorKept(rest, offset)
    ensures CursorKept(Placed(rest, row, c, cols, here),
                       if |row| + |Glyph(c)| > cols then |row| + offset else offset)
  {
    hide WholeChars, Offset, Boundary;
    if |row| + |Glyph(c)| > cols {
      OffsetShift(row, rest.rows, rest.row, rest.col);
      var b := Placed(rest, row, c, cols, here);
      assert b.rows == [row] + rest.rows && b.row == rest.row + 1 && b.col == rest.col;
      assert b.rows[b.row] == rest.rows[rest.row];
    }
  }

  lemma BreakHere(cells: seq<Cell>, i: nat, cols: nat, row: seq<Cell>)
    requires cols >= 2 && |row| <= cols && i < |cells|
    requires WholeChars(cells[i..]) && WholeChars(row)
    ensures CursorKept(BreakFrom(cells, i, cols, i, row), |row|)
  {
    hide WholeChars, CursorKept, BreakFrom, Placed, Begins;
    BreakStep(cells, i, cols, i, row);
    var c, next := cells[i], i + cells[i].width;
    var filled := Filled(row, c, cols);
    BreakAway(cells, next, cols, i, filled);
    BreakBegins(cells, next, cols, i, filled);
    PlacedHere(BreakFrom(cells, next, cols, i, filled), row, c, cols);
  }

  // The cursor stays with its character, or just past the end of the text.
  lemma {:induction false} BreakCursor(cells: seq<Cell>, i: nat, cols: nat, cursor: int, row: seq<Cell>)
    requires cols >= 2 && |row| <= cols && i <= cursor <= |cells|
    requires WholeChars(cells[i..]) && WholeChars(row) && Boundary(cells[i..], cursor - i)
    ensures CursorKept(BreakFrom(cells, i, cols, cursor, row), |row| + cursor - i)
    decreases |cells| - i
  {
    hide WholeChars, CursorKept, BreakFrom, Placed;
    if i == |cells| {
      BreakEnd(cells, cols, cursor, row);
      EndingKept(row, cols);
    } else if i == cursor {
      BreakHere(cells, i, cols, row);
    } else {
      BreakLater(cells, i, cols, cursor, row);
      var c, next := cells[i], i + cells[i].width;
      var filled := Filled(row, c, cols);
      BreakCursor(cells, next, cols, cursor, filled);
      PlacedLater(BreakFrom(cells, next, cols, cursor, filled), row, c, cols, false, |filled| + cursor - next);
    }
  }

  lemma BreakLater(cells: seq<Cell>, i: nat, cols: nat, cursor: int, row: seq<Cell>)
    requires cols >= 2 && |row| <= cols && i < cursor <= |cells|
    requires WholeChars(cells[i..]) && WholeChars(row) && Boundary(cells[i..], cursor - i)
    ensures var c := cells[i]; var next := i + c.width; var filled := Filled(row, c, cols);
            && next <= cursor && WholeChars(cells[next..]) && Boundary(cells[next..], cursor - next)
            && |Glyph(c)| == c.width && |filled| <= cols && WholeChars(filled)
            && BreakFrom(cells, i, cols, cursor, row)
               == Placed(BreakFrom(cells, next, cols, cursor, filled), row, c, cols, false)
  {
    hide WholeChars, BreakFrom, Placed;
    BreakStep(cells, i, cols, cursor, row);
    var c, next := cells[i], i + cells[i].width;
    WholeConcat(if |row| + |Glyph(c)| > cols then [] else row, Glyph(c));
    BoundaryStep(cells[i..], cursor - i);
    assert cells[i..][c.width..] == cells[next..];
  }

  // ---------------------------------------------------------------- joining rows into paragraphs

  lemma PiecesTail(lines: seq<Line>, row: int, col: int)
    requires lines != []
    ensures Pieces(lines, row, col)[1..] == Pieces(lines[1..], row - 1, col)
  {
  }

  lemma PiecesSplit(a: seq<Line>, b: seq<Line>, row: int, col: int)
    ensures Pieces(a + b, row, col) == Pieces(a, row, col) + Pieces(b, row - |a|, col)
  {
  }

  lemma PaddedTail(rows: seq<seq<Cell>>, cols: nat)
    requires rows != [] && forall k :: 0 <= k < |rows| ==> |rows[k]| <= cols
    ensures PaddedRows(rows, cols)[1..] == PaddedRows(rows[1..], cols)
  {
  }

  // The cursor's place in a paragraph, or -1.
  function CursorOffset(rows: seq<seq<Cell>>, row: int, col: int): int {
    if 0 <= row < |rows| then Offset(rows, row, col) else -1
  }

  // A row that continues below joins the first paragraph of what follows.
  lemma JoinWrapped(p: Piece, ps: seq<Piece>, first: Logical, after: seq<Logical>)
    requires p.wrapped && ps != [] && JoinPieces(ps) == [first] + after
    ensures JoinPieces([p] + ps)
            == [Logical(p.cells + first.cells, if first.cursor >= 0 then |p.cells| + first.cursor else p.cursor)] + after
  {
    assert ([p] + ps)[1..] == ps;
    assert ([first] + after)[1..] == after;
  }

  lemma CursorOffsetTail(rows: seq<seq<Cell>>, row: int, col: nat)
    requires rows != []
    ensures CursorOffset(rows, row, col)
            == if row == 0 then col
               else if CursorOffset(rows[1..], row - 1, col) >= 0 then |rows[0]| + CursorOffset(rows[1..], row - 1, col)
               else -1
  {
    if row == 0 {
      assert rows[..0] == [];
    } else if 0 < row < |rows| {
      OffsetShift(rows[0], rows[1..], row - 1, col);
      assert rows == [rows[0]] + rows[1..];
    }
  }

  lemma JoinUnwrapped(p: Piece, after: seq<Piece>)
    requires !p.wrapped
    ensures JoinPieces([p] + after) == [Logical(p.cells, p.cursor)] + JoinPieces(after)
  {
    assert ([p] + after)[1..] == after;
  }

  // The rows of one paragraph are read back as that paragraph.
  lemma {:induction false} JoinParagraph(rows: seq<seq<Cell>>, cols: nat, row: int, col: nat, after: seq<Piece>)
    requires rows != [] && forall k :: 0 <= k < |rows| ==> |rows[k]| <= cols
    requires 0 <= row < |rows| ==> col <= |rows[row]|
    ensures JoinPieces(Pieces(PaddedRows(rows, cols), row, col) + after)
            == [Logical(Flat(rows), CursorOffset(rows, row, col))] + JoinPieces(after)
  {
    hide JoinPieces;
    var ps := Pieces(PaddedRows(rows, cols), row, col);
    var p := Piece(rows[0], |rows| > 1, if row == 0 then col else -1);
    assert ps[0] == p;
    PiecesTail(PaddedRows(rows, cols), row, col);
    PaddedTail(rows, cols);
    assert ps + after == [p] + (ps[1..] + after);
    CursorOffsetTail(rows, row, col);
    if |rows| == 1 {
      assert rows[1..] == [] && Flat(rows) == rows[0];
      assert ps + after == [p] + after;
      JoinUnwrapped(p, after);
    } else {
      JoinParagraph(rows[1..], cols, row - 1, col, after);
      hide Flat, CursorOffset, PaddedRows;
      var first := Logical(Flat(rows[1..]), CursorOffset(rows[1..], row - 1, col));
      JoinWrapped(p, ps[1..] + after, first, JoinPieces(after));
    }
  }

  // ---------------------------------------------------------------- all paragraphs

  ghost predicate Sound(l: Logical) {
    WholeChars(l.cells) && (l.cursor == -1 || Boundary(l.cells, l.cursor))
  }

  ghost predicate AllSound(ls: seq<Logical>) {
    forall i :: 0 <= i < |ls| ==> Sound(ls[i])
  }

  ghost predicate NoCursor(ls: seq<Logical>) {
    forall i :: 0 <= i < |ls| ==> ls[i].cursor == -1
  }

  ghost predicate OneCursor(ls: seq<Logical>) {
    ls == [] || (if ls[0].cursor >= 0 then NoCursor(ls[1..]) else OneCursor(ls[1..]))
  }

  lemma {:induction false} NoneIsOne(ls: seq<Logical>)
    requires NoCursor(ls)
    ensures OneCursor(ls)
  {
    if ls != [] {
      NoneIsOne(ls[1..]);
    }
  }

  // Breaking one sound paragraph: its text, and its cursor if it has it.
  lemma BreakSound(l: Logical, cols: nat)
    requires Sound(l) && cols >= 2
    ensures var b := BreakFrom(l.cells, 0, cols, l.cursor, []);
            && RowsWhole(b.rows) && Flat(b.rows) == l.cells
            && (b.row >= 0 <==> l.cursor >= 0)
            && (l.cursor >= 0 ==> CursorKept(b, l.cursor))
            && CursorOffset(b.rows, b.row, b.col) == l.cursor
            && (b.rows[|b.rows| - 1] != [] || b.row == |b.rows| - 1 || l == Logical([], -1))
  {
    hide BreakFrom, RowsWhole, Flat;
    assert l.cells[0..] == l.cells;
    assert [] + l.cells == l.cells;
    BreakText(l.cells, 0, cols, l.cursor, []);
    if l.cursor >= 0 {
      BreakCursor(l.cells, 0, cols, l.cursor, []);
    } else {
      BreakAway(l.cells, 0, cols, l.cursor, []);
    }
  }

  lemma {:induction false} LayOutNoCursor(ls: seq<Logical>, cols: nat)
    requires AllSound(ls) && NoCursor(ls) && cols >= 2
    ensures LayOut(ls, cols).row == -1
  {
    if ls != [] {
      BreakSound(ls[0], cols);
      LayOutNoCursor(ls[1..], cols);
    }
  }

  // Where the cursor is read back in a laid-out screen.
  ghost predicate Reread(out: Laid, ls: seq<Logical>) {
    && JoinPieces(Pieces(out.lines, out.row, out.col)) == ls
    && (out.row >= 0 ==> out.row < |out.lines| && out.col <= out.lines[out.row].used)
  }

  lemma RereadParagraph(b: Broken, l: Logical, cols: nat, rest: Laid, ls: seq<Logical>, row: int, col: nat)
    requires cols >= 2 && b.rows != [] && forall k :: 0 <= k < |b.rows| ==> |b.rows[k]| <= cols
    requires Flat(b.rows) == l.cells && CursorOffset(b.rows, row, col) == l.cursor
    requires 0 <= row < |b.rows| ==> col <= |b.rows[row]|
    requires row >= |b.rows| ==> rest.row == row - |b.rows| && rest.col == col
    requires row < |b.rows| ==> rest.row == -1
    requires Reread(rest, ls)
    ensures Reread(Laid(PaddedRows(b.rows, cols) + rest.lines, row, col), [l] + ls)
  {
    var mine := PaddedRows(b.rows, cols);
    PiecesSplit(mine, rest.lines, row, col);
    var after := Pieces(rest.lines, rest.row, rest.col);
    assert Pieces(rest.lines, row - |mine|, col) == after;
    JoinParagraph(b.rows, cols, row, col, after);
  }

  lemma LayOutHere(l: Logical, ls: seq<Logical>, cols: nat)
    requires Sound(l) && AllSound(ls) && NoCursor(ls) && cols >= 2
    requires Reread(LayOut(ls, cols), ls)
    ensures Reread(LayOut([l] + ls, cols), [l] + ls)
  {
    hide BreakFrom, Reread, Sound;
    var b := BreakFrom(l.cells, 0, cols, l.cursor, []);
    BreakSound(l, cols);
    LayOutNoCursor(ls, cols);
    assert ([l] + ls)[1..] == ls;
    RereadParagraph(b, l, cols, LayOut(ls, cols), ls, b.row, b.col);
  }

  lemma LayOutBelow(l: Logical, ls: seq<Logical>, cols: nat)
    requires Sound(l) && l.cursor == -1 && cols >= 2
    requires Reread(LayOut(ls, cols), ls)
    ensures Reread(LayOut([l] + ls, cols), [l] + ls)
  {
    hide BreakFrom, Reread, Sound;
    var b := BreakFrom(l.cells, 0, cols, l.cursor, []);
    var rest := LayOut(ls, cols);
    BreakSound(l, cols);
    assert ([l] + ls)[1..] == ls;
    if rest.row >= 0 {
      RereadParagraph(b, l, cols, rest, ls, |b.rows| + rest.row, rest.col);
    } else {
      RereadParagraph(b, l, cols, rest, ls, -1, b.col);
    }
  }

  // Breaking every paragraph and joining the rows again gives the paragraphs.
  lemma {:induction false} LayOutJoin(ls: seq<Logical>, cols: nat)
    requires AllSound(ls) && OneCursor(ls) && cols >= 2
    ensures Reread(LayOut(ls, cols), ls)
  {
    if ls != [] {
      assert [ls[0]] + ls[1..] == ls;
      if ls[0].cursor >= 0 {
        NoneIsOne(ls[1..]);
      }
      LayOutJoin(ls[1..], cols);
      if ls[0].cursor >= 0 {
        LayOutHere(ls[0], ls[1..], cols);
      } else {
        LayOutBelow(ls[0], ls[1..], cols);
      }
    }
  }

  // ---------------------------------------------------------------- what a terminal's rows give

  ghost predicate PieceSound(p: Piece) {
    WholeChars(p.cells) && (p.cursor == -1 || Boundary(p.cells, p.cursor))
  }

  ghost predicate AllPiecesSound(ps: seq<Piece>) {
    forall i :: 0 <= i < |ps| ==> PieceSound(ps[i])
  }

  ghost predicate NoMark(ps: seq<Piece>) {
    forall i :: 0 <= i < |ps| ==> ps[i].cursor == -1
  }

  ghost predicate OneMark(ps: seq<Piece>) {
    ps != [] && (if ps[0].cursor >= 0 then NoMark(ps[1..]) else OneMark(ps[1..]))
  }

  // A last paragraph that is more than an empty line nobody is on.
  ghost predicate Lasting(ls: seq<Logical>) {
    ls != [] && ls[|ls| - 1] != Logical([], -1)
  }

  ghost predicate LastingPieces(ps: seq<Piece>) {
    ps != [] && (ps[|ps| - 1].cells != [] || ps[|ps| - 1].cursor != -1)
  }

  lemma BoundaryLeft(a: seq<Cell>, b: seq<Cell>, k: int)
    requires Boundary(a, k) && WholeChars(b)
    ensures Boundary(a + b, k)
  {
    hide WholeChars;
    WholeConcat(a[k..], b);
    BoundaryConcat(a[..k], a[k..] + b);
    SplitConcat(a, b, k);
  }

  lemma SplitConcat(a: seq<Cell>, b: seq<Cell>, k: int)
    requires 0 <= k <= |a|
    ensures a[..k] + (a[k..] + b) == a + b && |a[..k]| == k
  {
    assert a == a[..k] + a[k..];
  }

  lemma BoundaryRight(a: seq<Cell>, b: seq<Cell>, k: int)
    requires WholeChars(a) && Boundary(b, k)
    ensures Boundary(a + b, |a| + k)
  {
    hide WholeChars;
    var x, y := b[..k], b[k..];
    assert WholeChars(a + x) by { WholeConcat(a, x); }
    assert (a + b)[..|a| + k] == a + x;
    assert (a + b)[|a| + k..] == y;
  }

  // A row joined to the front of a paragraph.
  function Joined(p: Piece, l: Logical): Logical {
    Logical(p.cells + l.cells, if l.cursor >= 0 then |p.cells| + l.cursor else p.cursor)
  }

  lemma JoinedSound(p: Piece, l: Logical)
    requires PieceSound(p) && Sound(l)
    ensures Sound(Joined(p, l))
  {
    WholeConcat(p.cells, l.cells);
    if l.cursor >= 0 {
      BoundaryRight(p.cells, l.cells, l.cursor);
    } else if p.cursor >= 0 {
      BoundaryLeft(p.cells, l.cells, p.cursor);
    }
  }

  lemma {:induction false} JoinNoMark(ps: seq<Piece>)
    requires AllPiecesSound(ps) && NoMark(ps)
    ensures AllSound(JoinPieces(ps)) && NoCursor(JoinPieces(ps))
  {
    hide WholeChars;
    if ps != [] {
      JoinNoMark(ps[1..]);
      if ps[0].wrapped && |ps| > 1 {
        JoinedSound(ps[0], JoinPieces(ps[1..])[0]);
      }
    }
  }

  ghost predicate HasCursor(ls: seq<Logical>) {
    exists i :: 0 <= i < |ls| && ls[i].cursor >= 0
  }

  // What the paragraphs of some rows become when one more row comes before them.
  function Prepended(p: Piece, ps: seq<Piece>): (ls: seq<Logical>)
    ensures ls == JoinPieces([p] + ps)
  {
    assert ([p] + ps)[1..] == ps;
    if p.wrapped && ps != [] then [Joined(p, JoinPieces(ps)[0])] + JoinPieces(ps)[1..]
    else [Logical(p.cells, p.cursor)] + JoinPieces(ps)
  }

  lemma PrependedSound(p: Piece, ps: seq<Piece>)
    requires PieceSound(p) && AllSound(JoinPieces(ps))
    ensures AllSound(Prepended(p, ps))
  {
    if p.wrapped && ps != [] {
      JoinedSound(p, JoinPieces(ps)[0]);
    }
  }

  lemma PrependedCursor(p: Piece, ps: seq<Piece>)
    requires if p.cursor >= 0 then NoCursor(JoinPieces(ps)) else OneCursor(JoinPieces(ps)) && HasCursor(JoinPieces(ps))
    ensures OneCursor(Prepended(p, ps)) && HasCursor(Prepended(p, ps))
  {
    var rest, ls := JoinPieces(ps), Prepended(p, ps);
    if p.cursor >= 0 {
      assert ls[0].cursor >= 0;
      assert NoCursor(ls[1..]);
    } else {
      var i :| 0 <= i < |rest| && rest[i].cursor >= 0;
      if p.wrapped && ps != [] {
        assert ls[i].cursor >= 0;
        assert ls[1..] == rest[1..];
      } else {
        assert ls[i + 1].cursor >= 0;
        assert ls[1..] == rest;
      }
    }
  }

  lemma {:induction false} JoinOneMark(ps: seq<Piece>)
    requires AllPiecesSound(ps) && OneMark(ps)
    ensures AllSound(JoinPieces(ps)) && OneCursor(JoinPieces(ps)) && HasCursor(JoinPieces(ps))
  {
    if ps[0].cursor >= 0 {
      JoinNoMark(ps[1..]);
    } else {
      JoinOneMark(ps[1..]);
    }
    PrependedSound(ps[0], ps[1..]);
    PrependedCursor(ps[0], ps[1..]);
    assert [ps[0]] + ps[1..] == ps;
  }

  lemma PrependedLasting(p: Piece, ps: seq<Piece>)
    requires ps != [] && Lasting(JoinPieces(ps)) && forall i :: 0 <= i < |JoinPieces(ps)| ==> JoinPieces(ps)[i].cursor >= -1
    ensures Lasting(Prepended(p, ps))
  {
    hide JoinPieces;
    var rest, ls := JoinPieces(ps), Prepended(p, ps);
    if p.wrapped && |rest| == 1 {
      assert ls[|ls| - 1] == Joined(p, rest[0]);
    } else {
      assert ls[|ls| - 1] == rest[|rest| - 1];
    }
  }

  lemma {:induction false} JoinLasting(ps: seq<Piece>)
    requires LastingPieces(ps) && AllSound(JoinPieces(ps)) && AllPiecesSound(ps)
    ensures Lasting(JoinPieces(ps))
  {
    if |ps| > 1 {
      hide WholeChars, JoinPieces;
      JoinSound(ps[1..]);
      JoinLasting(ps[1..]);
      PrependedLasting(ps[0], ps[1..]);
      assert [ps[0]] + ps[1..] == ps;
    } else {
      assert JoinPieces(ps) == [Logical(ps[0].cells, ps[0].cursor)] + JoinPieces([]);
    }
  }

  lemma {:induction false} JoinSound(ps: seq<Piece>)
    requires AllPiecesSound(ps)
    ensures AllSound(JoinPieces(ps))
  {
    if ps != [] {
      hide PieceSound, Sound, JoinPieces;
      JoinSound(ps[1..]);
      PrependedSound(ps[0], ps[1..]);
      assert [ps[0]] + ps[1..] == ps;
    }
  }

  lemma {:induction false} LayOutFinds(ls: seq<Logical>, cols: nat)
    requires AllSound(ls) && HasCursor(ls) && cols >= 2
    ensures LayOut(ls, cols).row >= 0
  {
    BreakSound(ls[0], cols);
    var i :| 0 <= i < |ls| && ls[i].cursor >= 0;
    if i > 0 {
      assert ls[1..][i - 1] == ls[i];
      LayOutFinds(ls[1..], cols);
    }
  }

  // The last row of the layout is written on, or it is the cursor's.
  lemma {:induction false} LayOutLast(ls: seq<Logical>, cols: nat)
    requires AllSound(ls) && Lasting(ls) && cols >= 2
    ensures var out := LayOut(ls, cols);
            out.lines != [] && (out.lines[|out.lines| - 1].used > 0 || out.row == |out.lines| - 1)
  {
    BreakSound(ls[0], cols);
    if |ls| > 1 {
      LayOutLast(ls[1..], cols);
    } else {
      assert LayOut([], cols).lines == [];
    }
  }

  // ---------------------------------------------------------------- how much text there is

  // How much some rows hold: their cells, and one for each paragraph that ends.
  function Weight(ps: seq<Piece>): nat {
    if ps == [] then 0 else |ps[0].cells| + (if ps[0].wrapped then 0 else 1) + Weight(ps[1..])
  }

  function TextWeight(ls: seq<Logical>): nat {
    if ls == [] then 0 else |ls[0].cells| + 1 + TextWeight(ls[1..])
  }

  // How much of it comes from the cursor on.
  function Tail(ps: seq<Piece>): int {
    if ps == [] then 0
    else if ps[0].cursor >= 0 then |ps[0].cells| - ps[0].cursor + (if ps[0].wrapped then 0 else 1) + Weight(ps[1..])
    else Tail(ps[1..])
  }

  function TextTail(ls: seq<Logical>): int {
    if ls == [] then 0
    else if ls[0].cursor >= 0 then |ls[0].cells| - ls[0].cursor + 1 + TextWeight(ls[1..])
    else TextTail(ls[1..])
  }

  // The last row ends its paragraph.
  ghost predicate Ended(ps: seq<Piece>) { ps != [] && !ps[|ps| - 1].wrapped }

  lemma {:induction false} JoinWeight(ps: seq<Piece>)
    requires Ended(ps)
    ensures TextWeight(JoinPieces(ps)) == Weight(ps)
  {
    if |ps| > 1 {
      JoinWeight(ps[1..]);
      var rest := JoinPieces(ps[1..]);
      if ps[0].wrapped {
        assert JoinPieces(ps) == [Joined(ps[0], rest[0])] + rest[1..];
        assert JoinPieces(ps)[1..] == rest[1..];
      }
    } else {
      assert ps[1..] == [] && JoinPieces(ps)[1..] == [];
    }
  }

  lemma {:induction false} JoinTail(ps: seq<Piece>)
    requires Ended(ps) && OneMark(ps)
    ensures TextTail(JoinPieces(ps)) == Tail(ps)
  {
    var rest := JoinPieces(ps[1..]);
    if |ps| > 1 {
      JoinWeight(ps[1..]);
    }
    if ps[0].cursor >= 0 {
      NoMarkNoCursor(ps[1..]);
    } else {
      JoinTail(ps[1..]);
    }
    if ps[0].wrapped {
      assert JoinPieces(ps) == [Joined(ps[0], rest[0])] + rest[1..];
      assert JoinPieces(ps)[1..] == rest[1..];
    } else {
      assert JoinPieces(ps)[1..] == rest;
    }
  }

  lemma {:induction false} NoMarkNoCursor(ps: seq<Piece>)
    requires NoMark(ps)
    ensures NoCursor(JoinPieces(ps))
  {
    if ps != [] {
      NoMarkNoCursor(ps[1..]);
    }
  }

  lemma {:induction false} WeightConcat(a: seq<Piece>, b: seq<Piece>)
    ensures Weight(a + b) == Weight(a) + Weight(b)
  {
    if a == [] {
      assert a + b == b;
    } else {
      WeightConcat(a[1..], b);
      assert (a + b)[1..] == a[1..] + b;
    }
  }

  lemma {:induction false} TailConcat(a: seq<Piece>, b: seq<Piece>)
    requires NoMark(a)
    ensures Tail(a + b) == Tail(b)
  {
    if a == [] {
      assert a + b == b;
    } else {
      TailConcat(a[1..], b);
      assert (a + b)[1..] == a[1..] + b;
    }
  }

  // Rows that continue below are never empty, nor is the cursor past the end of one.
  ghost predicate Solid(out: Laid) {
    && (forall k :: 0 <= k < |out.lines| && out.lines[k].wrapped ==> out.lines[k].used > 0)
    && (0 <= out.row < |out.lines| && out.lines[out.row].wrapped ==> out.col < out.lines[out.row].used)
    && (out.lines != [] ==> !out.lines[|out.lines| - 1].wrapped)
  }

  lemma SolidParagraph(l: Logical, cols: nat)
    requires Sound(l) && cols >= 2
    ensures var b := BreakFrom(l.cells, 0, cols, l.cursor, []);
            Solid(Laid(PaddedRows(b.rows, cols), b.row, b.col))
  {
    BreakSound(l, cols);
  }

  lemma {:induction false} LayOutSolid(ls: seq<Logical>, cols: nat)
    requires AllSound(ls) && cols >= 2
    ensures Solid(LayOut(ls, cols))
  {
    hide WholeChars, Sound, BreakFrom;
    if ls != [] {
      SolidParagraph(ls[0], cols);
      LayOutSolid(ls[1..], cols);
      var b := BreakFrom(ls[0].cells, 0, cols, ls[0].cursor, []);
      SolidBoth(Laid(PaddedRows(b.rows, cols), b.row, b.col), LayOut(ls[1..], cols));
    }
  }

  lemma SolidBoth(a: Laid, b: Laid)
    requires Solid(a) && Solid(b) && a.row < |a.lines|
    ensures Solid(if b.row >= 0 then Laid(a.lines + b.lines, |a.lines| + b.row, b.col) else Laid(a.lines + b.lines,
      a.row, a.col))
  {
    var lines := a.lines + b.lines;
    forall k | 0 <= k < |lines| && lines[k].wrapped
      ensures lines[k].used > 0
    {
      assert lines[k] == if k < |a.lines| then a.lines[k] else b.lines[k - |a.lines|];
    }
  }

  lemma {:induction false} SolidWeight(lines: seq<Line>, row: int, col: int)
    requires UsedFits(lines) && forall k :: 0 <= k < |lines| && lines[k].wrapped ==> lines[k].used > 0
    ensures Weight(Pieces(lines, row, col)) >= |lines|
  {
    if lines != [] {
      PiecesTail(lines, row, col);
      SolidWeight(lines[1..], row - 1, col);
      assert Pieces(lines, row, col)[0] == RowPiece(lines[0], if 0 == row then col else -1);
    }
  }

  lemma EndedPieces(lines: seq<Line>, row: int, col: int)
    requires lines != [] && !lines[|lines| - 1].wrapped
    ensures Ended(Pieces(lines, row, col))
  {
    assert Pieces(lines, row, col)[|lines| - 1] == RowPiece(lines[|lines| - 1], if |lines| - 1 == row then col else -1);
  }

  lemma DroppedWeight(out: Laid, d: nat)
    requires Solid(out) && UsedFits(out.lines) && 0 < d < |out.lines|
    ensures TextWeight(JoinPieces(Pieces(out.lines[d..], out.row - d, out.col)))
            < TextWeight(JoinPieces(Pieces(out.lines, out.row, out.col)))
  {
    hide Weight, TextWeight, JoinPieces, Pieces;
    var a, b := out.lines[..d], out.lines[d..];
    assert out.lines == a + b;
    PiecesSplit(a, b, out.row, out.col);
    WeightConcat(Pieces(a, out.row, out.col), Pieces(b, out.row - d, out.col));
    SolidWeight(a, out.row, out.col);
    EndedPieces(out.lines, out.row, out.col);
    EndedPieces(b, out.row - d, out.col);
    JoinWeight(Pieces(out.lines, out.row, out.col));
    JoinWeight(Pieces(b, out.row - d, out.col));
  }

  function Ends(l: Line): nat { if l.wrapped then 0 else 1 }

  lemma TailAt(before: seq<Line>, mine: Line, after: seq<Line>, col: nat)
    ensures Tail(Pieces(before + [mine] + after, |before|, col))
            == |RowPiece(mine, col).cells| - col + Ends(mine) + Weight(Pieces(after, -1, col))
  {
    var rest := [mine] + after;
    assert before + [mine] + after == before + rest;
    PiecesSplit(before, rest, |before|, col);
    TailConcat(Pieces(before, |before|, col), Pieces(rest, 0, col));
    PiecesTail(rest, 0, col);
    assert rest[1..] == after;
  }

  lemma WeightAt(before: seq<Line>, mine: Line, after: seq<Line>, col: nat)
    ensures Weight(Pieces(before + [mine] + after, -1, col))
            >= |Written(mine)| + Ends(mine) + Weight(Pieces(after, -1, col))
  {
    var rest := [mine] + after;
    assert before + [mine] + after == before + rest;
    PiecesSplit(before, rest, -1, col);
    assert Pieces(rest, -1 - |before|, col) == Pieces(rest, -1, col);
    WeightConcat(Pieces(before, -1, col), Pieces(rest, -1, col));
    PiecesTail(rest, -1, col);
    assert rest[1..] == after && Pieces(after, -2, col) == Pieces(after, -1, col);
  }

  lemma SplitAt(lines: seq<Line>, k: int)
    requires 0 <= k < |lines|
    ensures lines == lines[..k] + [lines[k]] + lines[k + 1..]
  {
  }

  // ... and a cursor whose row is above the screen is put further down than its character.
  lemma MovedTail(out: Laid, start: nat)
    requires Solid(out) && UsedFits(out.lines) && 0 <= out.row < start < |out.lines| && out.col >= 0
    requires out.col <= out.lines[out.row].used
    requires out.col <= |out.lines[start].cells|
    ensures Tail(Pieces(out.lines[start..], 0, out.col)) < Tail(Pieces(out.lines, out.row, out.col))
  {
    hide Tail, Weight, Pieces;
    var lines, row, col := out.lines, out.row, out.col;
    SplitAt(lines, row);
    TailAt(lines[..row], lines[row], lines[row + 1..], col);
    SplitAt(lines[row + 1..], start - row - 1);
    assert lines[row + 1..][..start - row - 1] == lines[row + 1..start];
    assert lines[row + 1..][start - row - 1 + 1..] == lines[start + 1..];
    WeightAt(lines[row + 1..start], lines[start], lines[start + 1..], col);
    SplitAt(lines[start..], 0);
    assert lines[start..][..0] == [] && lines[start..][1..] == lines[start + 1..];
    TailAt([], lines[start], lines[start + 1..], col);
  }

  // ---------------------------------------------------------------- rows can be read again

  lemma {:induction false} NoMarkThenOne(a: seq<Piece>, b: seq<Piece>)
    requires NoMark(a) && OneMark(b)
    ensures OneMark(a + b)
  {
    if a == [] {
      assert a + b == b;
    } else {
      NoMarkThenOne(a[1..], b);
      assert (a + b)[1..] == a[1..] + b;
    }
  }

  lemma {:induction false} PiecesOneMark(lines: seq<Line>, row: int, col: nat)
    requires 0 <= row < |lines|
    ensures OneMark(Pieces(lines, row, col))
  {
    PiecesTail(lines, row, col);
    if row > 0 {
      PiecesOneMark(lines[1..], row - 1, col);
    }
  }

  lemma PieceOfRow(l: Line, cursor: int)
    requires WholeChars(Written(l)) && l.used <= |l.cells|
    requires cursor == -1 || (cursor <= l.used && Boundary(Written(l), cursor))
    ensures PieceSound(RowPiece(l, cursor))
  {
  }

  lemma ParagraphPiecesSound(l: Logical, cols: nat)
    requires Sound(l) && cols >= 2
    ensures var b := BreakFrom(l.cells, 0, cols, l.cursor, []);
            AllPiecesSound(Pieces(PaddedRows(b.rows, cols), b.row, b.col))
  {
    hide BreakFrom, WholeChars, PieceSound;
    var b := BreakFrom(l.cells, 0, cols, l.cursor, []);
    BreakSound(l, cols);
    forall k | 0 <= k < |b.rows|
      ensures PieceSound(RowPiece(PaddedRows(b.rows, cols)[k], if k == b.row then b.col else -1))
    {
      PieceOfRow(PaddedRows(b.rows, cols)[k], if k == b.row then b.col else -1);
    }
  }

  lemma SoundBoth(mine: seq<Line>, lines: seq<Line>, row: int, col: int, myRow: int, myCol: int)
    requires myRow < |mine| && if row >= 0 then myRow < 0 else true
    requires AllPiecesSound(Pieces(mine, myRow, myCol)) && AllPiecesSound(Pieces(lines, row, col))
    ensures AllPiecesSound(Pieces(mine + lines, if row >= 0 then |mine| + row else myRow, if row >= 0 then col else myCol))
  {
    var r, c := if row >= 0 then |mine| + row else myRow, if row >= 0 then col else myCol;
    PiecesSplit(mine, lines, r, c);
    assert Pieces(mine, r, c) == Pieces(mine, myRow, myCol);
    assert Pieces(lines, r - |mine|, c) == Pieces(lines, row, col);
  }

  lemma LayOutSoundCons(l: Logical, ls: seq<Logical>, cols: nat)
    requires Sound(l) && cols >= 2
    requires var rest := LayOut(ls, cols);
             AllPiecesSound(Pieces(rest.lines, rest.row, rest.col)) && (l.cursor >= 0 ==> rest.row == -1)
    ensures var out := LayOut([l] + ls, cols); AllPiecesSound(Pieces(out.lines, out.row, out.col))
  {
    hide BreakFrom, Sound, PieceSound, Pieces;
    var rest := LayOut(ls, cols);
    var b := BreakFrom(l.cells, 0, cols, l.cursor, []);
    assert ([l] + ls)[1..] == ls;
    assert b.row >= 0 <==> l.cursor >= 0 by { BreakSound(l, cols); }
    ParagraphPiecesSound(l, cols);
    SoundBoth(PaddedRows(b.rows, cols), rest.lines, rest.row, rest.col, b.row, b.col);
  }

  lemma {:induction false} LayOutPiecesSound(ls: seq<Logical>, cols: nat)
    requires AllSound(ls) && OneCursor(ls) && cols >= 2
    ensures var out := LayOut(ls, cols); AllPiecesSound(Pieces(out.lines, out.row, out.col))
  {
    if ls != [] {
      if ls[0].cursor >= 0 {
        NoneIsOne(ls[1..]);
        LayOutNoCursor(ls[1..], cols);
      }
      LayOutPiecesSound(ls[1..], cols);
      LayOutSoundCons(ls[0], ls[1..], cols);
      assert [ls[0]] + ls[1..] == ls;
    }
  }

  // Text with a cursor in it, and not ending in an empty line nobody is on.
  ghost predicate Text(ls: seq<Logical>) {
    AllSound(ls) && OneCursor(ls) && HasCursor(ls) && Lasting(ls)
  }

  // Rows that are read back as this text, and are fit to be broken again.
  ghost predicate LaidWell(out: Laid, ls: seq<Logical>) {
    && 0 <= out.row < |out.lines| && 0 <= out.col <= out.lines[out.row].used
    && UsedFits(out.lines) && Solid(out)
    && (out.row == |out.lines| - 1 || out.lines[|out.lines| - 1].used > 0)
    && JoinPieces(Pieces(out.lines, out.row, out.col)) == ls
    && AllPiecesSound(Pieces(out.lines, out.row, out.col))
  }

  lemma LaidOut(ls: seq<Logical>, cols: nat)
    requires Text(ls) && cols >= 2
    ensures LaidWell(LayOut(ls, cols), ls)
  {
    LayOutFinds(ls, cols);
    LayOutLast(ls, cols);
    LayOutSolid(ls, cols);
    LayOutJoin(ls, cols);
    LayOutPiecesSound(ls, cols);
  }
}
