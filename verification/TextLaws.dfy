/** Text: what is printed, line after line, is on the screen and in the scrollback as laying it out at
    that width has it. */
module TextLaws {
  import opened Vt
  import opened Grid
  import opened Reflow
  import opened Parser
  import opened ParserLaws
  import opened Paragraphs
  import opened DrawLaws
  import opened ScrollLaws
  import opened Utf8

  const NEW_LINE: seq<Byte> := [0x0d, 0x0a]

  // The characters of a paragraph, from the one at a column on.
  function TextBytes(cells: seq<Cell>, i: nat): seq<Byte>
    decreases |cells| - i
  {
    if i >= |cells| || cells[i].width == 0 then [] else EncodeAll(cells[i].content) + TextBytes(cells, i + cells[i].width)
  }

  // Paragraphs with an end of line between them.
  function PageBytes(ps: seq<seq<Cell>>): seq<Byte> {
    if ps == [] then []
    else if |ps| == 1 then TextBytes(ps[0], 0)
    else TextBytes(ps[0], 0) + (NEW_LINE + PageBytes(ps[1..]))
  }

  function Texts(ps: seq<seq<Cell>>): (ls: seq<Logical>)
    ensures |ls| == |ps|
  {
    seq(|ps|, i requires 0 <= i < |ps| => Logical(ps[i], -1))
  }

  // Whole characters in one style.
  ghost predicate Printable(cells: seq<Cell>, style: Style) {
    WholeChars(cells) && forall i :: 0 <= i < |cells| && cells[i].width > 0 ==> cells[i].style == style
  }

  // ---------------------------------------------------------------- a page of rows

  // Scrollback and screen are these rows, the last of them the cursor's: the scrollback what does not
  // fit on the screen, trimmed, and the screen the rest, blank below it.
  ghost predicate Sheet(t: Term, all: seq<Line>) {
    && Inv(t) && Plain(t) && t.alt.None? && t.top == 0 && t.bottom == t.rows - 1 && |all| > 0
    && t.hist == Trim(all[..Max(|all| - t.rows, 0)], t.limit)
    && t.lines == all[Max(|all| - t.rows, 0)..] + BlankLines(t.cols, Max(t.rows - |all|, 0))
    && t.cur.row == Min(|all|, t.rows) - 1
  }

  // And the last row has this in it, with the cursor after that.
  ghost predicate Page(t: Term, all: seq<Line>, row: seq<Cell>) {
    && Sheet(t, all) && |row| <= t.cols && all[|all| - 1] == Padded(row, t.cols, false)
    && (if |row| < t.cols then t.cur.col == |row| && !t.pend else t.cur.col == t.cols - 1 && t.pend)
  }

  lemma RowAdded(t: Term, all: seq<Line>)
    requires Sheet(t, all)
    ensures var t' := LineFeed(t);
            && Sheet(t', all + [BlankLine(t.cols)])
            && t'.cur.col == t.cur.col && t'.pend == t.pend && t'.style == t.style && t'.cols == t.cols
  {
    hide Trim, BlankLines, UsedFits, Sized;
    if |all| < t.rows {
      RowBelow(all, t.rows, t.cols);
    } else {
      RowScrolled(t, all);
    }
  }

  lemma RowBelow(all: seq<Line>, rows: nat, cols: nat)
    requires |all| < rows
    ensures var more := all + [BlankLine(cols)];
            && all[0..] + BlankLines(cols, rows - |all|) == more[0..] + BlankLines(cols, rows - |more|)
            && all[..0] == more[..0]
  {
  }

  lemma RowScrolled(t: Term, all: seq<Line>)
    requires Sheet(t, all) && |all| >= t.rows
    ensures LineFeed(t) == ScrollUp(t, 1)
    ensures var t', more := ScrollUp(t, 1), all + [BlankLine(t.cols)];
            t'.lines == more[|more| - t.rows..] + BlankLines(t.cols, 0) && t'.hist == Trim(more[..|more| - t.rows], t.limit)
  {
    hide ShiftUp, Remember, Trim, Plain, UsedFits, Sized;
    ScrollUpAppends(t, 1);
    NoBlanks(t.cols);
    hide BlankLines;
    assert BlankLines(t.cols, 1) == [BlankLine(t.cols)] && BlankLines(t.cols, 0) == [];
    RowOff(all, t.rows, t.limit, BlankLine(t.cols));
  }

  lemma NoBlanks(cols: nat)
    ensures BlankLines(cols, 1) == [BlankLine(cols)] && BlankLines(cols, 0) == []
  {
  }

  // A row more on a full screen: the first goes into the scrollback.
  lemma RowOff(all: seq<Line>, rows: nat, limit: nat, line: Line)
    requires rows >= 1 && |all| >= rows
    ensures var d := |all| - rows; var more := all + [line]; var whole := Trim(all[..d], limit) + (all[d..] + []) + [line];
            && whole[|whole| - rows..] == more[d + 1..] + []
            && Trim(whole[..|whole| - rows], limit) == Trim(more[..d + 1], limit)
  {
    hide Trim;
    var d, more, hist := |all| - rows, all + [line], Trim(all[..|all| - rows], limit);
    var whole := hist + (all[d..] + []) + [line];
    assert whole[|whole| - rows..] == more[d + 1..];
    assert whole[..|whole| - rows] == hist + [all[d]];
    TrimTwice(all[..d], [all[d]], limit);
    assert all[..d] + [all[d]] == more[..d + 1];
  }

  lemma LastSet(t: Term, all: seq<Line>, line: Line)
    requires Sheet(t, all) && |line.cells| == t.cols && line.used <= t.cols
    ensures Sheet(SetLine(t, t.cur.row, line), all[|all| - 1 := line])
    ensures t.lines[t.cur.row] == all[|all| - 1]
  {
    hide Trim, BlankLines;
    var d := Max(|all| - t.rows, 0);
    LastOf(all, d, BlankLines(t.cols, Max(t.rows - |all|, 0)), line);
  }

  lemma LastOf(all: seq<Line>, d: nat, below: seq<Line>, line: Line)
    requires d < |all|
    ensures var n := |all|; var lines := all[d..] + below;
            && lines[n - 1 - d] == all[n - 1] && lines[n - 1 - d := line] == all[n - 1 := line][d..] + below
            && all[n - 1 := line][..d] == all[..d]
  {
    assert all[|all| - 1 := line][d..] == all[d..][|all| - 1 - d := line];
  }

  // Moving within the row, and drawing style and pending wrap, are no part of it.
  lemma SheetMoved(t: Term, all: seq<Line>, col: int, pend: bool)
    requires Sheet(t, all) && 0 <= col < t.cols
    ensures Sheet(t.(cur := t.cur.(col := col), pend := pend), all)
  {
    hide Trim, BlankLines, UsedFits, Sized;
  }

  // ---------------------------------------------------------------- ends of lines

  lemma FeedNewLine(t: Term, p: Parser, all: seq<Line>)
    requires Sheet(t, all) && Quiet(p)
    ensures var e := Feed(Emu(t, p), NEW_LINE);
            && e.Emu? && e.p == p && Page(e.t, all + [BlankLine(t.cols)], [])
            && e.t.style == t.style && e.t.cols == t.cols && e.t.rows == t.rows && e.t.limit == t.limit
  {
    hide LineFeed, Feed, Sheet;
    var t1 := t.(cur := t.cur.(col := 0), pend := false);
    SheetInv(t, all);
    FeedReturn(t, p);
    SheetMoved(t, all, 0, false);
    RowAdded(t1, all);
    var t2 := LineFeed(t1);
    assert t2.(pend := false) == t2;
    assert Padded([], t.cols, false) == BlankLine(t.cols);
  }

  lemma SheetInv(t: Term, all: seq<Line>)
    requires Sheet(t, all)
    ensures Inv(t) && t.cols >= 2 && |all| > 0
  {
  }

  lemma FeedReturn(t: Term, p: Parser)
    requires Inv(t) && Quiet(p)
    ensures Feed(Emu(t, p), NEW_LINE) == Emu(LineFeed(t.(cur := t.cur.(col := 0), pend := false)).(pend := false), p)
  {
    hide LineFeed, Inv, Feed;
    var t1 := t.(cur := t.cur.(col := 0), pend := false);
    ReturnKeeps(t);
    assert NEW_LINE == [0x0d] + [0x0a];
    WriteSplitting(Emu(t, p), [0x0d], [0x0a]);
    FeedOne(Emu(t, p), 0x0d);
    FeedOne(Emu(t1, p), 0x0a);
    ReturnStep(t, p);
    FeedStep(t1, p);
  }

  lemma ReturnKeeps(t: Term)
    requires Inv(t)
    ensures Inv(t.(cur := t.cur.(col := 0), pend := false))
  {
  }

  lemma ReturnStep(t: Term, p: Parser)
    requires Inv(t) && Quiet(p)
    ensures Step(Emu(t, p), 0x0d) == Emu(t.(cur := t.cur.(col := 0), pend := false), p)
  {
    hide Inv;
  }

  lemma FeedStep(t: Term, p: Parser)
    requires Inv(t) && Quiet(p)
    ensures Step(Emu(t, p), 0x0a) == Emu(LineFeed(t).(pend := false), p)
  {
    hide Inv, LineFeed;
  }

  // ---------------------------------------------------------------- characters

  // A character goes where there is room for it, whatever was pending.
  lemma FeedSettled(t: Term, p: Parser, c: Cell)
    requires Inv(t) && Plain(t) && Quiet(p) && Drawable(c) && c.style == t.style && Ready(Settle(t, c.width), c)
    ensures Feed(Emu(t, p), EncodeAll(c.content)) == Emu(Drawn(Settle(t, c.width), c), p)
  {
    hide Step, Put, Settle, Drawn, Encode;
    var u := Settle(t, c.width);
    var first, rest := c.content[0], EncodeAll(c.content[1..]);
    assert EncodeAll(c.content) == Encode(first) + rest;
    FeedRune(Emu(t, p), first);
    FeedRune(Emu(u, p), first);
    PutSettled(t, first, c.width);
    WriteSplitting(Emu(t, p), Encode(first), rest);
    WriteSplitting(Emu(u, p), Encode(first), rest);
    FeedContent(u, p, c);
  }

  lemma PutSettled(t: Term, r: Rune, width: Width)
    requires Inv(t) && width >= 1 && !Settle(t, width).pend && Settle(t, width).cur.col + width <= t.cols
    ensures Put(t, r, width) == Put(Settle(t, width), r, width)
  {
    hide Wrap;
    assert Settle(Settle(t, width), width) == Settle(t, width);
  }

  // There is room in the row: it is one character longer.
  lemma CharPlaced(t: Term, all: seq<Line>, row: seq<Cell>, c: Cell)
    requires Page(t, all, row) && Drawable(c) && c.style == t.style && |row| + c.width <= t.cols
    ensures Ready(t, c) && Settle(t, c.width) == t
    ensures var t' := Drawn(t, c);
            && Page(t', all[|all| - 1 := Padded(row + Glyph(c), t.cols, false)], row + Glyph(c))
            && t'.style == t.style && t'.rows == t.rows && t'.limit == t.limit && t'.cols == t.cols
  {
    hide WriteCell, Sheet, Inv, Plain;
    PageSound(t, all, row);
    var line := Padded(row + Glyph(c), t.cols, false);
    LastSet(t, all, line);
    PaddedWritten(row, c, t.cols);
    var t1 := SetLine(t, t.cur.row, line);
    assert Drawn(t, c) == Advance(t1, c.width);
    SheetMoved(t1, all[|all| - 1 := line], Drawn(t, c).cur.col, Drawn(t, c).pend);
  }

  lemma PageSound(t: Term, all: seq<Line>, row: seq<Cell>)
    requires Page(t, all, row)
    ensures Inv(t) && Plain(t) && t.awm && 0 <= t.cur.row < t.rows == |t.lines| && 0 <= t.cur.col < t.cols && |all| > 0
  {
  }

  lemma PaddedWritten(row: seq<Cell>, c: Cell, cols: nat)
    requires |row| + c.width <= cols && (c.width == 1 || c.width == 2)
    ensures WriteCell(Padded(row, cols, false), |row|, c) == Padded(row + Glyph(c), cols, false)
  {
    assert WriteCell(Padded(row, cols, false), |row|, c).cells == Padded(row + Glyph(c), cols, false).cells;
  }

  // There is none: the row carries on below, in a row that begins with the character.
  lemma RowWrapped(t: Term, all: seq<Line>, row: seq<Cell>, c: Cell)
    requires Page(t, all, row) && Drawable(c) && |row| + c.width > t.cols
    ensures var t' := Settle(t, c.width);
            && Page(t', all[|all| - 1 := Padded(row, t.cols, true)] + [BlankLine(t.cols)], [])
            && t'.style == t.style && t'.rows == t.rows && t'.limit == t.limit && t'.cols == t.cols
  {
    hide LineFeed, Sheet, Inv, Plain;
    PageSound(t, all, row);
    var line := Padded(row, t.cols, true);
    LastSet(t, all, line);
    assert t.lines[t.cur.row].(wrapped := true) == line;
    var t1 := SetLine(t, t.cur.row, line);
    SheetMoved(t1, all[|all| - 1 := line], 0, false);
    RowAdded(t1.(cur := t1.cur.(col := 0), pend := false), all[|all| - 1 := line]);
    assert Padded([], t.cols, false) == BlankLine(t.cols);
    WideEnough(t);
  }

  lemma WideEnough(t: Term)
    requires Inv(t)
    ensures t.cols >= 2
  {
  }

  // ---------------------------------------------------------------- a paragraph

  // What printing the rest of a paragraph comes to: the rows it is broken into, the last of them the
  // cursor's.
  ghost predicate Printed(t: Term, e: Emu, p: Parser, all: seq<Line>) {
    && e.Emu? && e.p == p && Sheet(e.t, all)
    && e.t.style == t.style && e.t.cols == t.cols && e.t.rows == t.rows && e.t.limit == t.limit
  }

  lemma {:induction false} FeedRest(t: Term, p: Parser, base: seq<Line>, row: seq<Cell>, cells: seq<Cell>, i: nat)
    requires t.cols >= 2 && |row| <= t.cols && Page(t, base + [Padded(row, t.cols, false)], row) && Quiet(p)
    requires i <= |cells| && Printable(cells[i..], t.style)
    ensures Printed(t, Feed(Emu(t, p), TextBytes(cells, i)), p, base + PaddedRows(BreakFrom(cells, i, t.cols, -1, row).rows, t.cols))
    decreases |cells| - i
  {
    hide Step, Feed, Page, Sheet, Inv, Plain, BreakFrom, Drawable, WholeChars, Placed, TextBytes, Printable;
    if i == |cells| {
      PageIsSheet(t, base + [Padded(row, t.cols, false)], row);
      BreakEnd(cells, t.cols, -1, row);
      OneRow(row, t.cols);
      FedNothing(t, p, cells);
    } else {
      FirstChar(t, cells, i);
      var t', base', row' := FeedOneChar(t, p, base, row, cells, i);
      FeedRest(t', p, base', row', cells, i + cells[i].width);
    }
  }

  // One character of it: what comes then is printed after it.
  lemma FeedOneChar(t: Term, p: Parser, base: seq<Line>, row: seq<Cell>, cells: seq<Cell>, i: nat)
    returns (t': Term, base': seq<Line>, row': seq<Cell>)
    requires t.cols >= 2 && |row| <= t.cols && Page(t, base + [Padded(row, t.cols, false)], row) && Quiet(p)
    requires i < |cells| && Printable(cells[i..], t.style)
    ensures t'.style == t.style && t'.rows == t.rows && t'.limit == t.limit && t'.cols == t.cols && |row'| <= t.cols
    ensures Page(t', base' + [Padded(row', t.cols, false)], row') && i + cells[i].width <= |cells| && cells[i].width > 0
    ensures Inv(t) && Inv(t') && Feed(Emu(t, p), TextBytes(cells, i)) == Feed(Emu(t', p), TextBytes(cells, i + cells[i].width))
    ensures base + PaddedRows(BreakFrom(cells, i, t.cols, -1, row).rows, t.cols)
            == base' + PaddedRows(BreakFrom(cells, i + cells[i].width, t.cols, -1, row').rows, t.cols)
  {
    hide Step, Feed, Page, Sheet, Inv, Plain, BreakFrom, Drawable, WholeChars, TextBytes, Printable, Glyph, Padded, PaddedRows,
      Drawn, Settle, EncodeAll;
    var c := cells[i];
    var next, all := i + c.width, base + [Padded(row, t.cols, false)];
    FirstChar(t, cells, i);
    PageSound(t, all, row);
    SameRows(base, row, cells, i, t.cols);
    if |row| + c.width <= t.cols {
      CharPlaced(t, all, row, c);
      FeedSettled(t, p, c);
      t', base', row' := Drawn(t, c), base, row + Glyph(c);
      assert all[|all| - 1 := Padded(row', t.cols, false)] == base + [Padded(row', t.cols, false)];
    } else {
      t' := CharBelow(t, base, row, c);
      base', row' := base + [Padded(row, t.cols, true)], Glyph(c);
      FeedSettled(t, p, c);
    }
    PageSound(t', base' + [Padded(row', t.cols, false)], row');
    FeedMore(t, t', p, cells, i);
  }

  // The rows there will be, whichever row the character goes into.
  lemma SameRows(base: seq<Line>, row: seq<Cell>, cells: seq<Cell>, i: nat, cols: nat)
    requires cols >= 2 && |row| <= cols && i < |cells| && WholeChars(cells[i..]) && 1 <= cells[i].width <= 2
    ensures var c := cells[i]; var next := i + c.width; var rows := BreakFrom(cells, i, cols, -1, row).rows;
            && |Glyph(c)| == c.width
            && (|row| + c.width <= cols ==> rows == BreakFrom(cells, next, cols, -1, row + Glyph(c)).rows)
            && (|row| + c.width > cols ==>
                  base + PaddedRows(rows, cols)
                  == base + [Padded(row, cols, true)] + PaddedRows(BreakFrom(cells, next, cols, -1, Glyph(c)).rows, cols))
  {
    hide BreakFrom, WholeChars, Placed, Padded, PaddedRows;
    var c, next := cells[i], i + cells[i].width;
    BreakStep(cells, i, cols, -1, row);
    PlacedPlain(BreakFrom(cells, next, cols, -1, Filled(row, c, cols)), row, c, cols);
    if |row| + c.width > cols {
      assert [] + Glyph(c) == Glyph(c);
      var rest := BreakFrom(cells, next, cols, -1, Glyph(c));
      RowsMore(row, rest, cols);
      assert base + [Padded(row, cols, true)] + PaddedRows(rest.rows, cols) == base + ([Padded(row, cols, true)] + PaddedRows(rest.rows, cols));
    }
  }

  // A character for which there was no room in its row.
  lemma CharBelow(t: Term, base: seq<Line>, row: seq<Cell>, c: Cell) returns (t': Term)
    requires t.cols >= 2 && |row| <= t.cols && Page(t, base + [Padded(row, t.cols, false)], row)
    requires Drawable(c) && c.style == t.style && |row| + c.width > t.cols && 1 <= c.width <= 2 && |Glyph(c)| == c.width
    ensures Inv(t) && Inv(Settle(t, c.width)) && Ready(Settle(t, c.width), c) && t' == Drawn(Settle(t, c.width), c)
    ensures t'.style == t.style && t'.rows == t.rows && t'.limit == t.limit && t'.cols == t.cols
    ensures Page(t', base + [Padded(row, t.cols, true)] + [Padded(Glyph(c), t.cols, false)], Glyph(c))
  {
    hide Page, Sheet, Inv, Plain, Drawable, Glyph, Padded, Ready;
    var all, base' := base + [Padded(row, t.cols, false)], base + [Padded(row, t.cols, true)];
    PageSound(t, all, row);
    RowWrapped(t, all, row, c);
    var t1 := Settle(t, c.width);
    assert all[|all| - 1 := Padded(row, t.cols, true)] == base';
    EmptyRow(t.cols);
    CharPlaced(t1, base' + [BlankLine(t.cols)], [], c);
    t' := Drawn(t1, c);
    assert [] + Glyph(c) == Glyph(c);
    assert (base' + [BlankLine(t.cols)])[|base'| := Padded(Glyph(c), t.cols, false)] == base' + [Padded(Glyph(c), t.cols, false)];
  }

  lemma PageIsSheet(t: Term, all: seq<Line>, row: seq<Cell>)
    requires Page(t, all, row)
    ensures Sheet(t, all)
  {
  }

  lemma OneRow(row: seq<Cell>, cols: nat)
    requires |row| <= cols
    ensures Ending(row, cols, false).rows == [row] && PaddedRows([row], cols) == [Padded(row, cols, false)]
  {
  }

  lemma FedNothing(t: Term, p: Parser, cells: seq<Cell>)
    requires Inv(t)
    ensures Feed(Emu(t, p), TextBytes(cells, |cells|)) == Emu(t, p)
  {
  }

  lemma FirstChar(t: Term, cells: seq<Cell>, i: nat)
    requires i < |cells| && Printable(cells[i..], t.style)
    ensures var c := cells[i]; var next := i + c.width;
            && Drawable(c) && 1 <= c.width <= 2 && |Glyph(c)| == c.width && c.style == t.style
            && next <= |cells| && Printable(cells[next..], t.style)
            && TextBytes(cells, i) == EncodeAll(c.content) + TextBytes(cells, next)
    ensures WholeChars(cells[i..])
  {
    var c := cells[i];
    assert cells[i..][0] == c && cells[i..][c.width..] == cells[i + c.width..];
  }

  lemma FeedMore(t: Term, t': Term, p: Parser, cells: seq<Cell>, i: nat)
    requires Inv(t) && Inv(t') && i < |cells| && Feed(Emu(t, p), EncodeAll(cells[i].content)) == Emu(t', p)
    requires TextBytes(cells, i) == EncodeAll(cells[i].content) + TextBytes(cells, i + cells[i].width)
    ensures Feed(Emu(t, p), TextBytes(cells, i)) == Feed(Emu(t', p), TextBytes(cells, i + cells[i].width))
  {
    hide Feed, TextBytes;
    WriteSplitting(Emu(t, p), EncodeAll(cells[i].content), TextBytes(cells, i + cells[i].width));
  }

  lemma EmptyRow(cols: nat)
    ensures Padded([], cols, false) == BlankLine(cols)
  {
  }

  lemma PlacedPlain(rest: Broken, row: seq<Cell>, c: Cell, cols: nat)
    ensures Placed(rest, row, c, cols, false).rows == if |row| + |Glyph(c)| > cols then [row] + rest.rows else rest.rows
  {
  }

  lemma RowsMore(row: seq<Cell>, rest: Broken, cols: nat)
    requires |row| <= cols && |rest.rows| > 0 && forall k :: 0 <= k < |rest.rows| ==> |rest.rows[k]| <= cols
    ensures PaddedRows([row] + rest.rows, cols) == [Padded(row, cols, true)] + PaddedRows(rest.rows, cols)
  {
  }

  // ---------------------------------------------------------------- a page

  ghost predicate AllPrintable(ps: seq<seq<Cell>>, style: Style) { forall i :: 0 <= i < |ps| ==> Printable(ps[i], style) }

  // Paragraphs printed after one another, from the beginning of a row.
  lemma {:induction false} FeedPage(t: Term, p: Parser, base: seq<Line>, ps: seq<seq<Cell>>)
    requires t.cols >= 2 && Page(t, base + [BlankLine(t.cols)], []) && Quiet(p) && ps != [] && AllPrintable(ps, t.style)
    ensures Printed(t, Feed(Emu(t, p), PageBytes(ps)), p, base + LayOut(Texts(ps), t.cols).lines)
    decreases |ps|
  {
    hide Step, Feed, Page, Sheet, Inv, Plain, BreakFrom, TextBytes, Printable, LayOut;
    EmptyRow(t.cols);
    assert ps[0][0..] == ps[0];
    FeedRest(t, p, base, [], ps[0], 0);
    LaidOutMore(ps, t.cols);
    PageSound(t, base + [BlankLine(t.cols)], []);
    var e1 := Feed(Emu(t, p), TextBytes(ps[0], 0));
    var rows := PaddedRows(BreakFrom(ps[0], 0, t.cols, -1, []).rows, t.cols);
    if |ps| == 1 {
      assert ps[1..] == [];
      NoText(t.cols);
      assert base + (rows + []) == base + rows;
    } else {
      SheetInv(e1.t, base + rows);
      FeedNewLine(e1.t, p, base + rows);
      var e2 := Feed(e1, NEW_LINE);
      FeedPage(e2.t, p, base + rows, ps[1..]);
      WriteInThree(Emu(t, p), TextBytes(ps[0], 0), NEW_LINE, PageBytes(ps[1..]));
      assert base + rows + LayOut(Texts(ps[1..]), t.cols).lines == base + (rows + LayOut(Texts(ps[1..]), t.cols).lines);
    }
  }

  lemma LaidOutMore(ps: seq<seq<Cell>>, cols: nat)
    requires ps != [] && cols >= 2
    ensures LayOut(Texts(ps), cols).lines == PaddedRows(BreakFrom(ps[0], 0, cols, -1, []).rows, cols) + LayOut(Texts(ps[1..]), cols).lines
  {
    hide BreakFrom;
    assert Texts(ps)[1..] == Texts(ps[1..]);
  }

  // Whatever is printed on a new terminal, scrollback and screen together have it as laying it out at
  // that width has it: the last rows are on the screen, and the others in the scrollback, as many of the
  // newest of them as it holds.
  lemma PrintedIsLaidOut(cols: nat, rows: nat, ps: seq<seq<Cell>>)
    requires cols >= 2 && rows >= 1 && ps != [] && AllPrintable(ps, PLAIN)
    ensures var e := Feed(Emu(New(cols, rows), START), PageBytes(ps)); var all := LayOut(Texts(ps), cols).lines;
            && e.Emu? && e.p == START
            && e.t.hist == Trim(all[..Max(|all| - rows, 0)], DEFAULT_SCROLLBACK)
            && e.t.lines == all[Max(|all| - rows, 0)..] + BlankLines(cols, Max(rows - |all|, 0))
            && e.t.cur.row == Min(|all|, rows) - 1
  {
    hide Step, Feed, LayOut, AllPrintable, Trim, New, Page, Sheet, Inv, BlankLines, PageBytes;
    var t := New(cols, rows);
    NewPage(cols, rows);
    assert [] + [BlankLine(cols)] == [BlankLine(cols)];
    FeedPage(t, START, [], ps);
    var all := LayOut(Texts(ps), cols).lines;
    assert [] + all == all;
    SheetIs(Feed(Emu(t, START), PageBytes(ps)).t, all);
  }

  lemma SheetIs(t: Term, all: seq<Line>)
    requires Sheet(t, all)
    ensures t.hist == Trim(all[..Max(|all| - t.rows, 0)], t.limit)
    ensures t.lines == all[Max(|all| - t.rows, 0)..] + BlankLines(t.cols, Max(t.rows - |all|, 0))
    ensures t.cur.row == Min(|all|, t.rows) - 1
  {
  }

  lemma NewPage(cols: nat, rows: nat)
    requires cols >= 2 && rows >= 1
    ensures Page(New(cols, rows), [BlankLine(cols)], [])
    ensures var t := New(cols, rows); t.cols == cols && t.rows == rows && t.style == PLAIN && t.limit == DEFAULT_SCROLLBACK
  {
    EmptyRow(cols);
    assert [BlankLine(cols)][0..] == [BlankLine(cols)] && [BlankLine(cols)][..0] == [];
    assert BlankLines(cols, rows) == [BlankLine(cols)] + BlankLines(cols, rows - 1);
  }

  // ---------------------------------------------------------------- what that is

  // Paragraphs that fit the width have a row each, in order.
  lemma {:induction false} ShortRows(cols: nat, ps: seq<seq<Cell>>)
    requires cols >= 2 && forall i :: 0 <= i < |ps| ==> |ps[i]| <= cols && WholeChars(ps[i])
    ensures var all := LayOut(Texts(ps), cols).lines;
            |all| == |ps| && forall i :: 0 <= i < |ps| ==> all[i] == Padded(ps[i], cols, false)
    decreases |ps|
  {
    hide LayOut, BreakFrom, WholeChars, Padded;
    if ps == [] {
      NoText(cols);
    } else {
      LaidOutMore(ps, cols);
      assert ps[0][0..] == ps[0];
      ShortRow(ps[0], 0, cols, []);
      assert [] + ps[0] == ps[0];
      OneRow(ps[0], cols);
      ShortRows(cols, ps[1..]);
    }
  }

  lemma NoText(cols: nat)
    requires cols >= 2
    ensures LayOut(Texts([]), cols).lines == []
  {
  }

  lemma {:induction false} ShortRow(cells: seq<Cell>, i: nat, cols: nat, row: seq<Cell>)
    requires cols >= 2 && i <= |cells| && |row| + (|cells| - i) <= cols && WholeChars(cells[i..])
    ensures BreakFrom(cells, i, cols, -1, row).rows == [row + cells[i..]]
    decreases |cells| - i
  {
    hide WholeChars, BreakFrom, Placed;
    if i == |cells| {
      BreakEnd(cells, cols, -1, row);
      assert row + cells[i..] == row;
    } else {
      BreakStep(cells, i, cols, -1, row);
      var c, next := cells[i], i + cells[i].width;
      PlacedPlain(BreakFrom(cells, next, cols, -1, Filled(row, c, cols)), row, c, cols);
      ShortRow(cells, next, cols, row + Glyph(c));
      assert row + Glyph(c) + cells[next..] == row + cells[i..];
    }
  }

  // Pieces of exactly this length, and the rest.
  function Chunks(cells: seq<Cell>, cols: nat): (cs: seq<seq<Cell>>)
    requires cols >= 1
    ensures |cs| > 0 && (forall k :: 0 <= k < |cs| ==> |cs[k]| <= cols) && (forall k :: 0 <= k < |cs| - 1 ==> |cs[k]| == cols)
    ensures Flat(cs) == cells && (cells != [] ==> cs[|cs| - 1] != [])
    decreases |cells|
  {
    if |cells| <= cols then [cells] else
      var rest := Chunks(cells[cols..], cols);
      assert ([cells[..cols]] + rest)[1..] == rest;
      [cells[..cols]] + rest
  }

  // A long one of narrow characters has rows of exactly the width, and the rest in the last; each but
  // that is marked as carrying on below.
  lemma {:induction false} NarrowRows(cols: nat, cells: seq<Cell>)
    requires cols >= 2 && WholeChars(cells) && forall i :: 0 <= i < |cells| ==> cells[i].width == 1
    ensures var all, pieces := LayOut(Texts([cells]), cols).lines, Chunks(cells, cols);
            |all| == |pieces| && forall k :: 0 <= k < |all| ==> all[k] == Padded(pieces[k], cols, k < |all| - 1)
  {
    hide LayOut, BreakFrom, WholeChars, Chunks;
    LaidOutMore([cells], cols);
    assert [cells][1..] == [];
    NoText(cols);
    assert cells[0..] == cells;
    NarrowFrom(cells, 0, cols);
  }

  lemma {:induction false} NarrowFrom(cells: seq<Cell>, i: nat, cols: nat)
    requires cols >= 2 && i <= |cells| && WholeChars(cells[i..]) && forall i :: 0 <= i < |cells| ==> cells[i].width == 1
    ensures BreakFrom(cells, i, cols, -1, []).rows == Chunks(cells[i..], cols)
    decreases |cells| - i
  {
    hide BreakFrom, WholeChars, Chunks, Flat;
    ChunksAre(cells, i, cols);
    if |cells| - i <= cols {
      ShortRow(cells, i, cols, []);
    } else {
      NarrowRow(cells, i, cols, []);
      NarrowFrom(cells, i + cols, cols);
    }
  }

  lemma ChunksAre(cells: seq<Cell>, i: nat, cols: nat)
    requires cols >= 1 && i <= |cells|
    ensures Chunks(cells[i..], cols) ==
      if |cells| - i <= cols then [[] + cells[i..]] else [[] + cells[i..i + cols]] + Chunks(cells[i + cols..], cols)
  {
    hide Flat;
    assert [] + cells[i..] == cells[i..];
    if |cells| - i > cols {
      assert [] + cells[i..i + cols] == cells[i..][..cols] && cells[i..][cols..] == cells[i + cols..];
    }
  }

  // A row of narrow characters is filled, and the next is begun.
  lemma {:induction false} NarrowRow(cells: seq<Cell>, i: nat, cols: nat, row: seq<Cell>)
    requires cols >= 2 && i < |cells| && |row| <= cols && |row| + (|cells| - i) > cols && WholeChars(cells[i..])
    requires forall i :: 0 <= i < |cells| ==> cells[i].width == 1
    ensures var k := i + (cols - |row|);
            && WholeChars(cells[k..])
            && BreakFrom(cells, i, cols, -1, row).rows == [row + cells[i..k]] + BreakFrom(cells, k, cols, -1, []).rows
    decreases |cells| - i
  {
    hide WholeChars, BreakFrom, Placed;
    BreakStep(cells, i, cols, -1, row);
    var c := cells[i];
    PlacedPlain(BreakFrom(cells, i + 1, cols, -1, Filled(row, c, cols)), row, c, cols);
    if |row| == cols {
      FreshRow(cells, i, cols);
      assert row + cells[i..i] == row && [] + Glyph(c) == Glyph(c);
    } else {
      NarrowRow(cells, i + 1, cols, row + Glyph(c));
      var k := i + (cols - |row|);
      assert row + Glyph(c) + cells[i + 1..k] == row + cells[i..k];
    }
  }

  lemma FreshRow(cells: seq<Cell>, i: nat, cols: nat)
    requires cols >= 2 && i < |cells| && WholeChars(cells[i..]) && cells[i].width == 1
    ensures BreakFrom(cells, i, cols, -1, []).rows == BreakFrom(cells, i + 1, cols, -1, Glyph(cells[i])).rows
  {
    hide WholeChars, BreakFrom, Placed;
    BreakStep(cells, i, cols, -1, []);
    PlacedPlain(BreakFrom(cells, i + 1, cols, -1, Filled([], cells[i], cols)), [], cells[i], cols);
    assert [] + Glyph(cells[i]) == Glyph(cells[i]);
  }
}
