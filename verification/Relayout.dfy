/** Re-breaking the screen in place: paragraphs are read out of the rows, broken into new ones, and
    the terminal takes those instead. Changing size and changing screen are built on it. */
module Relayout {
  import opened Vt
  import opened Grid
  import opened Reflow
  import opened RowStore
  import opened Screens
  import History

  // ---------------------------------------------------------------- reading paragraphs

  const NONE := Logical([], -1)

  // A paragraph being read, with one more row.
  function Longer(cur: Logical, p: Piece): Logical {
    Logical(cur.cells + p.cells, if p.cursor >= 0 then |cur.cells| + p.cursor else cur.cursor)
  }

  // The paragraphs still to come, when one of them has been begun.
  ghost function Coming(cur: Logical, open: bool, ps: seq<Piece>): seq<Logical> {
    var rest := JoinPieces(ps);
    if !open then rest
    else if rest == [] then [cur]
    else [Logical(cur.cells + rest[0].cells, if rest[0].cursor >= 0 then |cur.cells| + rest[0].cursor
      else cur.cursor)] + rest[1..]
  }

  lemma OneMoreRow(cur: Logical, open: bool, ps: seq<Piece>)
    requires ps != [] && -1 <= ps[0].cursor && (!open ==> cur == NONE)
    ensures Coming(cur, open, ps) ==
      if ps[0].wrapped then Coming(Longer(cur, ps[0]), true, ps[1..]) else [Longer(cur, ps[0])] + Coming(NONE, false, ps[1..])
  {
    var rest := JoinPieces(ps[1..]);
    assert NONE.cells + ps[0].cells == ps[0].cells;
    if ps[0].wrapped && |ps| > 1 {
      assert cur.cells + (ps[0].cells + rest[0].cells) == (cur.cells + ps[0].cells) + rest[0].cells;
    }
  }

  // One more row of text: the k-th of all.
  method Add(lines: seq<Logical>, cur: Logical, open: bool, p: Piece, ghost ps: seq<Piece>, ghost k: nat)
    returns (lines': seq<Logical>, cur': Logical, open': bool)
    requires k < |ps| && ps[k] == p && -1 <= p.cursor && (!open ==> cur == NONE)
    ensures !open' ==> cur' == NONE
    ensures lines' + Coming(cur', open', ps[k + 1..]) == lines + Coming(cur, open, ps[k..])
  {
    hide Coming, JoinPieces;
    OneMoreRow(cur, open, ps[k..]);
    assert ps[k..][1..] == ps[k + 1..];
    cur' := Logical(cur.cells + p.cells, if p.cursor >= 0 then |cur.cells| + p.cursor else cur.cursor);
    if p.wrapped {
      return lines, cur', true;
    }
    assert lines + ([cur'] + Coming(NONE, false, ps[k + 1..])) == (lines + [cur']) + Coming(NONE, false, ps[k + 1..]);
    return lines + [cur'], NONE, false;
  }

  // The last row of the screen that is text, or -1.
  method LastRow(used: seq<nat>, row: int, ghost lines: seq<Line>) returns (last: int)
    requires |used| == |lines| && row >= 0 && forall r :: 0 <= r < |used| ==> lines[r].used == used[r]
    ensures last + 1 == TextRows(lines, row)
  {
    assert lines[..|used|] == lines;
    last := Min(row, |used| - 1);
    var r := |used| - 1;
    while r > last
      invariant last <= r < |used|
      invariant TextRows(lines[..r + 1], row) == TextRows(lines, row)
    {
      assert lines[..r + 1][..r] == lines[..r];
      if used[r] > 0 {
        return r;
      }
      r := r - 1;
    }
  }

  // The row of scrollback of an age, as a piece.
  method OldPiece(t: Terminal, i: nat) returns (p: Piece)
    requires t.hist.Valid() && i < t.hist.n
    ensures p == RowPiece(t.hist.Contents[i], -1) && p.cursor == -1
  {
    var h := t.hist.At(i);
    p := Piece(h.buf[..Min(h.used, h.len)], h.wrapped, -1);
  }

  // A row of the screen, as a piece.
  method ScreenPiece(t: Terminal, r: nat) returns (p: Piece)
    requires t.buf.Valid() && r < |t.buf.cells| && t.cur.col >= 0
    ensures p == RowPiece(t.buf.Lines[r], if r == t.cur.row then t.cur.col else -1) && -1 <= p.cursor
  {
    var col, used := -1, t.buf.used[r];
    if r == t.cur.row {
      col := t.cur.col;
      if t.cur.col > used {
        used := t.cur.col;
      }
    }
    p := Piece(t.buf.cells[r][..Min(used, t.buf.cells[r].Length)], t.buf.wrapped[r], col);
  }

  lemma Ready(t: Terminal)
    requires t.Apart() && t.Kept()
    ensures t.hist.Valid() && t.buf.Valid() && |t.buf.used| == |t.buf.Lines| == |t.buf.cells|
    ensures forall r :: 0 <= r < |t.buf.used| ==> t.buf.Lines[r].used == t.buf.used[r]
    ensures |t.hist.Contents| == t.hist.n
  {
  }

  // The text of the scrollback and of the screen, piece by piece.
  lemma Texts(t: Terminal, last: int)
    requires t.Apart() && t.Kept() && last + 1 == TextRows(t.buf.Lines, t.cur.row)
    requires |t.hist.Contents| == t.hist.n && |t.buf.Lines| == |t.buf.cells|
    ensures var ps := TextPieces(t.Screen());
            && |ps| == t.hist.n + last + 1 && -1 <= last < |t.buf.cells|
            && (forall i :: 0 <= i < t.hist.n ==> ps[i] == RowPiece(t.hist.Contents[i], -1))
            && (forall r :: 0 <= r <= last ==> ps[t.hist.n + r] == RowPiece(t.buf.Lines[r], if r
              == t.cur.row then t.cur.col else -1))
  {
    hide RowPiece, TextRows;
  }

  // Reads all text out of the rows, oldest first.
  method LogicalLines(t: Terminal) returns (lines: seq<Logical>)
    requires t.Apart() && t.Kept() && t.cur.row >= 0 && t.cur.col >= 0
    ensures lines == Reflow.LogicalLines(t.Screen())
  {
    hide *;
    Ready(t);
    ghost var ps := TextPieces(t.Screen());
    Texts(t, TextRows(t.buf.Lines, t.cur.row) - 1);
    var last := LastRow(t.buf.used, t.cur.row, t.buf.Lines);
    assert ps[0..] == ps;
    lines := [];
    var cur, open := NONE, false;
    var i := 0;
    while i < t.hist.n
      invariant i <= t.hist.n && (!open ==> cur == NONE)
      invariant lines + Coming(cur, open, ps[i..]) == [] + Coming(NONE, false, ps)
    {
      var p := OldPiece(t, i);
      lines, cur, open := Add(lines, cur, open, p, ps, i);
      i := i + 1;
    }
    var r := 0;
    while r <= last
      invariant 0 <= r <= last + 1 && (!open ==> cur == NONE)
      invariant lines + Coming(cur, open, ps[t.hist.n + r..]) == [] + Coming(NONE, false, ps)
    {
      var p := ScreenPiece(t, r);
      lines, cur, open := Add(lines, cur, open, p, ps, t.hist.n + r);
      r := r + 1;
    }
    assert ps[t.hist.n + r..] == [];
    lines := Finish(lines, cur, open);
    AllOf(t.Screen());
  }

  method Finish(lines: seq<Logical>, cur: Logical, open: bool) returns (lines': seq<Logical>)
    ensures lines' == lines + Coming(cur, open, [])
  {
    lines' := if open then lines + [cur] else lines;
  }

  lemma AllOf(t: Term)
    ensures [] + Coming(NONE, false, TextPieces(t)) == Reflow.LogicalLines(t)
  {
  }

  // ---------------------------------------------------------------- breaking them again

  // Rows already broken off, and the rest.
  ghost function After(rows: seq<seq<Cell>>, row: int, col: int, rest: Broken): Broken {
    Broken(rows + rest.rows, if rest.row >= 0 then |rows| + rest.row else row, if rest.row >= 0 then rest.col else col)
  }

  // What one character does.
  lemma BrokenOff(rows: seq<seq<Cell>>, row: seq<Cell>, at: int, col: int, cells: seq<Cell>, i: nat, cols: nat, cursor: int)
    requires cols >= 2 && |row| <= cols && i < |cells| && cells[i] != Continuation(cells[i].style)
    ensures var flush := |row| + |Glyph(cells[i])| > cols;
            After(rows, at, col, BreakFrom(cells, i, cols, cursor, row)) ==
            After(if flush then rows + [row] else rows,
                  if i != cursor then at else if flush then |rows| + 1 else |rows|,
                  if i != cursor then col else if flush then 0 else |row|,
                  BreakFrom(cells, i + 1, cols, cursor, Filled(row, cells[i], cols)))
  {
    var rest := BreakFrom(cells, i + 1, cols, cursor, Filled(row, cells[i], cols));
    assert rows + ([row] + rest.rows) == (rows + [row]) + rest.rows;
  }

  // Fills rows with the characters of a paragraph, one after another.
  method WrapCells(cells: seq<Cell>, cols: nat, cursor: int) returns (rows: seq<seq<Cell>>, cursorRow: int, cursorCol: int)
    requires cols >= 2
    ensures Broken(rows, cursorRow, cursorCol) == BreakFrom(cells, 0, cols, cursor, [])
  {
    rows, cursorRow, cursorCol := [], -1, 0;
    var row: seq<Cell> := [];
    var i := 0;
    ghost var whole := BreakFrom(cells, 0, cols, cursor, []);
    assert After([], -1, 0, whole) == whole;
    hide BreakFrom, After;
    while i < |cells|
      invariant i <= |cells| && |row| <= cols
      invariant After(rows, cursorRow, cursorCol, BreakFrom(cells, i, cols, cursor, row)) == whole
    {
      var c := cells[i];
      if c.content == [] && c.width == 0 {
        Skipped(cells, i, cols, cursor, row);
        i := i + 1;
        continue;
      }
      BrokenOff(rows, row, cursorRow, cursorCol, cells, i, cols, cursor);
      ghost var filled := Filled(row, c, cols);
      var w := if c.width == 0 then 1 else c.width;
      if |row| + w > cols {
        rows, row := rows + [row], [];
      }
      if i == cursor {
        cursorRow, cursorCol := |rows|, |row|;
      }
      row := row + [c];
      if w == 2 {
        row := row + [Continuation(c.style)];
      }
      assert row == filled;
      i := i + 1;
    }
    Ended(rows, row, cursorRow, cursorCol, cells, cols, cursor);
    if cursor >= |cells| {
      if |row| >= cols {
        rows, row := rows + [row], [];
      }
      cursorRow, cursorCol := |rows|, |row|;
    }
    rows := rows + [row];
  }

  lemma Skipped(cells: seq<Cell>, i: nat, cols: nat, cursor: int, row: seq<Cell>)
    requires cols >= 2 && |row| <= cols && i < |cells| && cells[i] == Continuation(cells[i].style)
    ensures BreakFrom(cells, i, cols, cursor, row) == BreakFrom(cells, i + 1, cols, cursor, row)
  {
  }

  lemma Ended(rows: seq<seq<Cell>>, row: seq<Cell>, at: int, col: int, cells: seq<Cell>, cols: nat, cursor: int)
    requires cols >= 2 && |row| <= cols
    ensures After(rows, at, col, BreakFrom(cells, |cells|, cols, cursor, row)) ==
      if cursor < |cells| then Broken(rows + [row], at, col)
      else if |row| < cols then Broken(rows + [row], |rows|, |row|)
      else Broken(rows + [row] + [[]], |rows| + 1, 0)
  {
    assert rows + [row] + [[]] == rows + [row, []];
  }

  // ---------------------------------------------------------------- laying them out

  // A row of its own, holding these cells and blanks.
  method PaddedRow(cells: seq<Cell>, cols: nat) returns (row: array<Cell>)
    requires |cells| <= cols
    ensures fresh(row) && row[..] == cells + BlankRow(cols - |cells|)
  {
    row := new Cell[cols](k requires 0 <= k => if k < |cells| then cells[k] else BLANK);
  }

  // The rows of one paragraph, wrapped each into the one below it.
  method AppendRows(out: Rows, rows: seq<seq<Cell>>, cols: nat)
    requires out.Valid() && forall k :: 0 <= k < |rows| ==> |rows[k]| <= cols
    modifies out
    ensures out.Valid() && fresh(out.Storage - old(out.Storage))
    ensures out.Lines == old(out.Lines) + PaddedRows(rows, cols)
  {
    hide Rows.Valid;
    var i := 0;
    while i < |rows|
      invariant i <= |rows| && out.Valid() && fresh(out.Storage - old(out.Storage))
      invariant out.Lines == old(out.Lines) + PaddedRows(rows, cols)[..i]
    {
      var row := PaddedRow(rows[i], cols);
      out.Append(row, i < |rows| - 1, |rows[i]|);
      i := i + 1;
    }
  }

  // Rows laid out already, and the rest.
  ghost function Under(lines: seq<Line>, row: int, col: int, rest: Laid): Laid {
    Laid(lines + rest.lines, if rest.row >= 0 then |lines| + rest.row else row, if rest.row >= 0 then rest.col else col)
  }

  lemma OneMoreParagraph(lines: seq<Line>, row: int, col: int, ls: seq<Logical>, cols: nat)
    requires cols >= 2 && ls != []
    ensures var b := BreakFrom(ls[0].cells, 0, cols, ls[0].cursor, []);
            Under(lines, row, col, Reflow.LayOut(ls, cols)) ==
            Under(lines + PaddedRows(b.rows, cols), if b.row >= 0 then |lines| + b.row else row,
              if b.row >= 0 then b.col else col,
                  Reflow.LayOut(ls[1..], cols))
  {
    hide BreakFrom;
    var b := BreakFrom(ls[0].cells, 0, cols, ls[0].cursor, []);
    assert lines + (PaddedRows(b.rows, cols) + Reflow.LayOut(ls[1..], cols).lines) == (lines + PaddedRows(b.rows,
      cols)) + Reflow.LayOut(ls[1..], cols).lines;
  }

  // Breaks every paragraph again.
  method LayOut(ls: seq<Logical>, cols: nat) returns (out: Rows, row: int, col: int)
    requires cols >= 2
    ensures fresh(out) && fresh(out.Storage) && out.Valid() && Laid(out.Lines, row, col) == Reflow.LayOut(ls, cols)
  {
    hide *;
    ghost var whole := Reflow.LayOut(ls, cols);
    Whole(whole);
    out := new Rows();
    row, col := -1, 0;
    var i := 0;
    assert ls[0..] == ls;
    while i < |ls|
      invariant i <= |ls| && fresh(out) && fresh(out.Storage) && out.Valid()
      invariant Under(out.Lines, row, col, Reflow.LayOut(ls[i..], cols)) == whole
    {
      OneMoreParagraph(out.Lines, row, col, ls[i..], cols);
      assert ls[i..][1..] == ls[i + 1..];
      var rows, cursorRow, cursorCol := WrapCells(ls[i].cells, cols, ls[i].cursor);
      RowCount(out);
      if cursorRow >= 0 {
        row, col := |out.cells| + cursorRow, cursorCol;
      }
      label before: AppendRows(out, rows, cols);
      assert forall a :: a in out.Storage && a !in old@before(out.Storage) ==> !old@before(allocated(a));
      i := i + 1;
    }
    assert ls[i..] == [];
    NothingLeft(out.Lines, row, col, cols);
  }

  lemma Whole(laid: Laid)
    requires -1 <= laid.row && (laid.row < 0 ==> laid.col == 0)
    ensures Under([], -1, 0, laid) == laid
  {
  }

  lemma NothingLeft(lines: seq<Line>, row: int, col: int, cols: nat)
    requires cols >= 2
    ensures Under(lines, row, col, Reflow.LayOut([], cols)) == Laid(lines, row, col)
  {
  }

  // A row exactly this wide, keeping what fits.
  method FitRow(row: array<Cell>, cols: nat) returns (row': array<Cell>)
    ensures fresh(row') && row'[..] == row[..Min(cols, row.Length)] + BlankRow(cols - Min(cols, row.Length))
    ensures row.Length == cols ==> row'[..] == row[..]
  {
    row' := PaddedRow(row[..Min(cols, row.Length)], cols);
  }

  // The last rows, down to the cursor at least, with blank ones below them.
  method Screenful(out: Rows, start: nat, cols: nat, rows: nat) returns (buf: Rows)
    requires out.Valid() && Sized(out.Lines, cols, |out.Lines|) && UsedFits(out.Lines)
    ensures fresh(buf) && fresh(buf.Storage) && buf.Valid() && |buf.Lines| == rows
    ensures forall k :: 0 <= k < rows ==> buf.Lines[k] == if start + k < |out.Lines| then out.Lines[start + k]
      else BlankLine(cols)
  {
    buf := new Rows();
    var r := 0;
    while r < rows
      invariant r <= rows && fresh(buf) && fresh(buf.Storage) && buf.Valid() && |buf.Lines| == r
      invariant forall k :: 0 <= k < r ==> buf.Lines[k] == if start + k < |out.Lines| then out.Lines[start + k]
        else BlankLine(cols)
    {
      if start + r < |out.cells| {
        var row := FitRow(out.cells[start + r], cols);
        buf.Append(row, out.wrapped[start + r], Min(out.used[start + r], cols));
      } else {
        var row := NewRow(cols);
        buf.Append(row, false, 0);
      }
      r := r + 1;
    }
  }

  lemma PushTrimmed(lines: seq<Line>, i: nat, limit: nat)
    requires i < |lines|
    ensures Push(Trim(lines[..i], limit), limit, lines[i]) == Trim(lines[..i + 1], limit)
  {
  }

  lemma RowAt(out: Rows, i: nat)
    requires out.Valid() && i < |out.Lines| && UsedFits(out.Lines)
    ensures |out.cells| == |out.wrapped| == |out.used| == |out.Lines|
    ensures out.used[i] <= out.cells[i].Length && out.Lines[i] == Line(out.cells[i][..], out.wrapped[i], out.used[i])
  {
  }

  // Everything above the screen becomes the scrollback.
  method Scroll(hist: History.HistRing, out: Rows, n: nat)
    requires hist.Valid() && out.Valid() && out.Storage !! hist.Bufs && n <= |out.Lines| && UsedFits(out.Lines)
    modifies hist, hist.Bufs
    ensures hist.Valid() && fresh(hist.Bufs) && hist.limit == old(hist.limit)
      && hist.Contents == Trim(out.Lines[..n], hist.limit)
  {
    hide Rows.Valid, History.HistRing.Valid, UsedFits, Push, Trim;
    hist.Reset();
    var i := 0;
    NothingTrimmed(hist.limit);
    assert out.Lines[..0] == [];
    while i < n
      invariant i <= n && hist.Valid() && out.Valid() && fresh(hist.Bufs) && hist.limit == old(hist.limit)
      invariant hist.Contents == Trim(out.Lines[..i], hist.limit)
    {
      PushTrimmed(out.Lines, i, hist.limit);
      RowAt(out, i);
      var row := FitRow(out.cells[i], out.cells[i].Length);
      hist.Push(row, out.wrapped[i], Min(out.used[i], row.Length));
      i := i + 1;
    }
  }

  lemma NothingTrimmed(limit: nat)
    ensures Trim([], limit) == []
  {
  }

  // ---------------------------------------------------------------- taking them

  // Rows that fit a screen of this size, and where the cursor is among them.
  ghost predicate Fits(out: Rows, row: int, col: int, cols: nat)
    reads out
  {
    Sized(out.Lines, cols, |out.Lines|) && UsedFits(out.Lines) && -1 <= row && 0 <= col < cols && (row < 0 ==> col == 0)
  }

  // Divides the rows between scrollback and screen: the screen's last row is the cursor's, unless
  // there is text below that.
  method Place(t: Terminal, out: Rows, row: int, col: int, cols: nat, rows: nat)
    requires t.Apart() && t.Kept() && t.alt == null && cols >= 2 && rows >= 1
    requires out.Valid() && Fits(out, row, col, cols)
    requires out.Storage !! t.hist.Bufs
    modifies t, t.hist, t.hist.Bufs
    ensures t.Apart() && t.Kept() && fresh(t.Repr() - old(t.Repr()))
    ensures t.Screen() == Relay(old(t.Screen()), old(Laid(out.Lines, row, col)), cols, rows)
    ensures t.cols == cols && t.rows == rows && t.altSaved == old(t.altSaved)
  {
    hide Rows.Valid, History.HistRing.Valid, Trim, Relay, UsedFits, Sized, DefaultTabs, BlankRow, BlankLine;
    RowCount(out);
    var n := |out.cells|;
    var curRow := if row < 0 then n else row;
    var start := Max(Max(curRow - rows + 1, n - rows), 0);
    ghost var before, laid := t.Screen(), Laid(out.Lines, row, col);
    var buf := Screenful(out, start, cols, rows);
    Scroll(t.hist, out, Min(start, n));
    t.Take(buf, cols, rows);
    t.Home(Clamp(curRow - start, 0, rows - 1), Clamp(col, 0, cols - 1));
    Replaced(before, laid, buf.Lines, start, cols, rows);
  }

  lemma RowCount(out: Rows)
    requires out.Valid()
    ensures |out.cells| == |out.Lines|
  {
  }

  lemma Shown(out: seq<Line>, start: nat, cols: nat, rows: nat, lines: seq<Line>)
    requires |lines| == rows
    requires forall k :: 0 <= k < rows ==> lines[k] == if start + k < |out| then out[start + k] else BlankLine(cols)
    ensures var shown := out[Min(start, |out|)..Min(start + rows, |out|)];
            lines == shown + BlankLines(cols, rows - |shown|)
  {
    hide BlankLine;
    var shown := out[Min(start, |out|)..Min(start + rows, |out|)];
    forall k | 0 <= k < rows
      ensures lines[k] == (shown + BlankLines(cols, rows - |shown|))[k]
    {
    }
  }

  lemma Replaced(t: Term, out: Laid, lines: seq<Line>, start: nat, cols: nat, rows: nat)
    requires cols >= 2 && rows >= 1 && |lines| == rows
    requires Sized(out.lines, cols, |out.lines|) && UsedFits(out.lines) && -1 <= out.row && 0 <= out.col < cols
    requires out.row < 0 ==> out.col == 0
    requires forall k :: 0 <= k < rows ==> lines[k] == if start + k < |out.lines| then out.lines[start + k] else BlankLine(cols)
    requires start == Start(|out.lines|, if out.row < 0 then |out.lines| else out.row, rows)
    ensures Relay(t, out, cols, rows) == t.(
      cols := cols, rows := rows, tabs := DefaultTabs(cols), lines := lines,
      hist := Trim(out.lines[..Min(start, |out.lines|)], t.limit),
      cur := t.cur.(row := Clamp((if out.row < 0 then |out.lines| else out.row) - start, 0, rows - 1),
        col := Clamp(out.col, 0, cols - 1)),
      pend := false, top := 0, bottom := rows - 1)
  {
    Shown(out.lines, start, cols, rows, lines);
  }

  // Reads the text, breaks it again, and shows the end of it.
  method ReflowTo(t: Terminal, cols: nat, rows: nat)
    requires t.Apart() && t.Kept() && t.alt == null && cols >= 2 && rows >= 1
    requires t.cur.row >= 0 && t.cur.col >= 0
    modifies t, t.hist, t.hist.Bufs
    ensures t.Apart() && t.Kept() && fresh(t.Repr() - old(t.Repr()))
    ensures t.Screen() == Reflow.ReflowTo(old(t.Screen()), cols, rows) && t.cols == cols && t.rows == rows
      && t.altSaved == old(t.altSaved)
  {
    hide Rows.Valid, History.HistRing.Valid, Reflow.LayOut, Relay, Reflow.LogicalLines;
    var lines := LogicalLines(t);
    var out, row, col := LayOut(lines, cols);
    Place(t, out, row, col, cols, rows);
  }

  lemma RowIs(buf: Rows, r: nat)
    requires buf.Valid() && r < |buf.Lines|
    ensures |buf.cells| == |buf.wrapped| == |buf.used| == |buf.Lines|
    ensures buf.Lines[r] == Line(buf.cells[r][..], buf.wrapped[r], buf.used[r])
  {
  }

  // Fits a row of the alternate screen, and what is known of it, to a size.
  method ResizeCells(buf: Rows, cols: nat, rows: nat) returns (buf': Rows)
    requires buf.Valid()
    ensures fresh(buf') && fresh(buf'.Storage) && buf'.Valid() && buf'.Lines == FitLines(buf.Lines, cols, rows)
  {
    hide Rows.Valid, BlankRow;
    buf' := new Rows();
    var r := 0;
    RowCount(buf);
    while r < rows
      invariant r <= rows && fresh(buf') && fresh(buf'.Storage) && buf'.Valid()
      invariant buf'.Lines == FitLines(buf.Lines, cols, rows)[..r]
    {
      assert FitLines(buf.Lines, cols, rows)[..r + 1] ==
        FitLines(buf.Lines, cols, rows)[..r] + [if r < |buf.Lines| then FitLine(buf.Lines[r], cols) else BlankLine(cols)];
      if r < |buf.cells| {
        RowIs(buf, r);
        var row := FitRow(buf.cells[r], cols);
        assert Line(row[..], buf.wrapped[r], buf.used[r]) == FitLine(buf.Lines[r], cols);
        buf'.Append(row, buf.wrapped[r], buf.used[r]);
      } else {
        var row := NewRow(cols);
        buf'.Append(row, false, 0);
      }
      r := r + 1;
    }
  }

  // Another size: for the text, or - on the alternate screen - for that alone until it is left.
  method Resize(t: Terminal, cols: nat, rows: nat)
    requires t.Valid() && cols >= 2 && rows >= 1
    modifies t.Repr()
    ensures t.Valid() && fresh(t.Repr() - old(t.Repr()))
    ensures t.Screen() == Reflow.Resize(old(t.Screen()), cols, rows)
  {
    if t.alt == null {
      ReflowTo(t, cols, rows);
    } else {
      ResizeAlt(t, cols, rows);
    }
  }

  method ResizeAlt(t: Terminal, cols: nat, rows: nat)
    requires t.Valid() && t.alt != null && cols >= 2 && rows >= 1
    modifies t
    ensures t.Valid() && fresh(t.Repr() - old(t.Repr()))
    ensures t.Screen() == Reflow.Resize(old(t.Screen()), cols, rows)
  {
    hide Inv, Rows.Valid, History.HistRing.Valid, FitLines;
    ghost var before := t.Screen();
    var buf := ResizeCells(t.buf, cols, rows);
    t.Take(buf, cols, rows);
    t.Home(Min(t.cur.row, rows - 1), Min(t.cur.col, cols - 1));
    t.Postpone(before);
  }

  // Shows the alternate screen, empty, with the primary one kept behind it.
  method EnterAlt(t: Terminal, save: bool)
    requires t.Valid()
    modifies t
    ensures t.Valid() && fresh(t.Repr() - old(t.Repr()))
    ensures t.Screen() == Reflow.EnterAlt(old(t.Screen()), save)
  {
    if t.alt != null {
      return;
    }
    var buf := new Rows.Blanks(t.cols, t.rows);
    t.Cover(buf, save);
  }

  // The primary screen comes back, re-laid if the size changed meanwhile.
  method LeaveAlt(t: Terminal, restore: bool)
    requires t.Valid()
    modifies t.Repr()
    ensures t.Valid() && fresh(t.Repr() - old(t.Repr()))
    ensures t.Screen() == Reflow.LeaveAlt(old(t.Screen()), restore)
  {
    if t.alt == null {
      return;
    }
    t.Bounds();
    hide Inv, Rows.Valid, History.HistRing.Valid, Reflow.ReflowTo;
    ghost var before := t.Screen();
    var pending := t.Uncover();
    if pending {
      label uncovered: ReflowTo(t, t.cols, t.rows);
      assert forall o :: o in t.Repr() && o !in old@uncovered(t.Repr()) ==> !old@uncovered(allocated(o));
    }
    t.Return(before, restore);
  }
}
