/** Repainting: the bytes the renderer makes of a screen, played into a terminal of the same size,
    leave exactly that screen. */
module RepaintLaws {
  import opened Vt
  import opened Grid
  import opened Parser
  import opened ParserLaws
  import opened Decimal
  import opened Render
  import opened SgrLaws
  import opened DrawLaws
  import opened Utf8

  // A screen of whole characters, none of them part of a hyperlink, with its cursor on it.
  ghost predicate Paintable(f: Frame) {
    && f.cols >= 2 && f.rows >= 1 && |f.cells| == f.rows
    && (forall r :: 0 <= r < f.rows ==> |f.cells[r]| == f.cols && WholeChars(f.cells[r]) && Unlinked(f.cells[r]))
    && InScreen(f.cur, f.cols, f.rows)
  }

  // A terminal that can be repainted: of this size, with no sequence or character half-read,
  // drawing text as it comes.
  ghost predicate Canvas(t: Term, p: Parser, f: Frame) {
    Inv(t) && Quiet(p) && Plain(t) && t.cols == f.cols && t.rows == f.rows
  }

  // ---------------------------------------------------------------- moving

  lemma FeedMove(t: Term, p: Parser, row: nat, col: nat)
    requires Inv(t) && Quiet(p) && row < t.rows && col < t.cols
    ensures Became(Feed(Emu(t, p), CsiBytes([row + 1, col + 1], 'H' as int)), t.(cur := t.cur.(row := row,
      col := col), pend := false))
  {
    hide Step, Feed;
    FeedCsi(Emu(t, p), [row + 1, col + 1], 'H' as int);
    MovePerformed(t, row, col);
  }

  lemma MovePerformed(t: Term, row: nat, col: nat)
    requires Inv(t) && row < t.rows && col < t.cols
    ensures Perform(t, [row + 1, col + 1], [], 'H' as int) == t.(cur := t.cur.(row := row, col := col), pend := false)
  {
  }

  // ---------------------------------------------------------------- the rows

  // From row r on, the screen has these rows; the rows above are as they were.
  ghost predicate RowsDrawn(t: Term, t': Term, r: nat, rows: seq<seq<Cell>>, style: Style) {
    && Inv(t) && Inv(t') && r + |rows| == t.rows
    && t' == t.(lines := t'.lines, cur := t'.cur, pend := t'.pend, style := style)
    && t'.cur == t.cur.(row := t'.cur.row, col := t'.cur.col)
    && (forall k :: 0 <= k < r ==> t'.lines[k] == t.lines[k])
    && (forall k :: 0 <= k < |rows| ==> t'.lines[r + k].cells == rows[k])
  }

  lemma FirstRow(t: Term, t1: Term, t2: Term, r: nat, rows: seq<seq<Cell>>, style1: Style, style2: Style)
    requires rows != [] && RowDrawn(t, t1, rows[0], style1) && RowsDrawn(t1, t2, r + 1, rows[1..], style2)
    requires t.cur.row == r && |rows[0]| == t.cols
    ensures RowsDrawn(t, t2, r, rows, style2)
  {
    assert t1.lines[r].cells == rows[0] by {
      assert t.lines[r].cells[..0] + rows[0] == rows[0];
    }
    forall k | 0 <= k < |rows|
      ensures t2.lines[r + k].cells == rows[k]
    {
      if k > 0 {
        assert rows[1..][k - 1] == rows[k];
        assert t2.lines[(r + 1) + (k - 1)].cells == rows[1..][k - 1];
      }
    }
  }

  lemma MovedFirst(t: Term, row: nat, t': Term, r: nat, rows: seq<seq<Cell>>, style: Style)
    requires Inv(t) && RowsDrawn(t.(cur := t.cur.(row := row, col := 0), pend := false), t', r, rows, style)
    ensures RowsDrawn(t, t', r, rows, style)
  {
  }

  ghost predicate AllPaintable(rows: seq<seq<Cell>>, cols: nat) {
    forall k :: 0 <= k < |rows| ==> |rows[k]| == cols && WholeChars(rows[k]) && Unlinked(rows[k])
  }

  lemma {:induction false} RowStyleUnlinked(cs: seq<Cell>, style: Style)
    requires Unlinked(cs) && style.link == []
    ensures RowStyle(cs, style).link == []
  {
    if cs != [] {
      RowStyleUnlinked(cs[1..], if Skipped(cs[0]) then style else cs[0].style);
    }
  }

  lemma DrawnPlain(t: Term, t': Term, cs: seq<Cell>, style: Style)
    requires RowDrawn(t, t', cs, style) && Plain(t)
    ensures Plain(t') && t'.cols == t.cols && t'.rows == t.rows && t'.style == style && t'.cur.row == t.cur.row
  {
  }

  function ToRow(r: nat): seq<Byte> { if r > 0 then CsiBytes([r + 1, 1], 'H' as int) else [] }

  function AtRow(t: Term, r: nat): Term { t.(cur := t.cur.(row := r, col := 0), pend := false) }

  // The first row is drawn from where the prologue leaves the cursor, the others after a move.
  lemma FeedToRow(t: Term, p: Parser, r: nat)
    requires Inv(t) && Quiet(p) && r < t.rows && (r == 0 ==> t == AtRow(t, 0))
    ensures Became(Feed(Emu(t, p), ToRow(r)), AtRow(t, r))
  {
    hide Step;
    if r > 0 {
      FeedMove(t, p, r, 0);
    }
  }

  ghost predicate RowsPainted(t: Term, e: Emu, r: nat, rows: seq<seq<Cell>>, style: Style) {
    e.Emu? && Quiet(e.p) && RowsDrawn(t, e.t, r, rows, style)
  }

  lemma {:induction false} FeedRows(t: Term, p: Parser, r: nat, rows: seq<seq<Cell>>)
    requires Inv(t) && Plain(t) && Quiet(p) && t.style.link == [] && r + |rows| == t.rows && AllPaintable(rows, t.cols)
    requires r == 0 ==> t == AtRow(t, 0)
    ensures RowsPainted(t, Feed(Emu(t, p), RowsBytes(rows, r, t.style)), r, rows, RowsStyle(rows, t.style))
    decreases |rows|
  {
    hide Step, RowBytes, RowStyle, RowDrawn, WholeChars, Unlinked, RowsDrawn, ToRow;
    if rows == [] {
      NoRows(t, r);
    } else {
      var style1 := RowStyle(rows[0], t.style);
      var row, later := RowBytes(rows[0], t.style), RowsBytes(rows[1..], r + 1, style1);
      FeedToRow(t, p, r);
      var e0 := Feed(Emu(t, p), ToRow(r));
      FeedRow(e0.t, e0.p, rows[0]);
      var e1 := Feed(e0, row);
      DrawnPlain(e0.t, e1.t, rows[0], style1);
      RowStyleUnlinked(rows[0], t.style);
      FeedRows(e1.t, e1.p, r + 1, rows[1..]);
      var e2 := Feed(e1, later);
      FirstRow(e0.t, e1.t, e2.t, r, rows, style1, RowsStyle(rows[1..], style1));
      MovedFirst(t, r, e2.t, r, rows, RowsStyle(rows[1..], style1));
      RowsInThree(Emu(t, p), r, rows, t.style);
    }
  }

  // The bytes of the rows, as they are fed: to the row, the row, and the rest.
  lemma RowsInThree(e: Emu, r: nat, rows: seq<seq<Cell>>, style: Style)
    requires Valid(e) && rows != []
    ensures Feed(e, RowsBytes(rows, r, style)) ==
      Feed(Feed(Feed(e, ToRow(r)), RowBytes(rows[0], style)), RowsBytes(rows[1..], r + 1, RowStyle(rows[0], style)))
  {
    hide Step, Feed, RowBytes, RowStyle, ToRow;
    var row, later := RowBytes(rows[0], style), RowsBytes(rows[1..], r + 1, RowStyle(rows[0], style));
    RowsBytesStep(rows, r, style);
    WriteInThree(e, ToRow(r), row, later);
  }

  lemma RowsBytesStep(rows: seq<seq<Cell>>, r: nat, style: Style)
    requires rows != []
    ensures var style1 := RowStyle(rows[0], style);
            RowsBytes(rows, r, style) == ToRow(r) + (RowBytes(rows[0], style) + RowsBytes(rows[1..], r + 1, style1))
  {
  }

  lemma NoRows(t: Term, r: nat)
    requires Inv(t) && r == t.rows
    ensures RowsDrawn(t, t, r, [], t.style)
  {
  }

  // ---------------------------------------------------------------- the prologue

  // The terminal after the prologue: home, in no style, with the whole screen as its region. What
  // is on the screen is of no account.
  ghost predicate Cleared(t: Term, t': Term) {
    && Inv(t')
    && t' == t.(lines := t'.lines, cur := t.cur.(row := 0, col := 0), pend := false, style := PLAIN, top := 0,
      bottom := t.rows - 1)
  }

  lemma RegionPerformed(t: Term)
    requires Inv(t)
    ensures var t' := Perform(t, [], [], 'r' as int);
            t' == t.(top := 0, bottom := t.rows - 1, cur := t.cur.(row := t'.cur.row, col := t'.cur.col), pend := t'.pend)
  {
  }

  lemma HomePerformed(t: Term)
    requires Inv(t)
    ensures Perform(t, [], [], 'H' as int) == AtRow(t, 0)
  {
  }

  lemma ErasePerformed(t: Term)
    requires Inv(t)
    ensures var t' := Perform(t, [2], [], 'J' as int);
            t' == t.(lines := t'.lines)
  {
  }

  ghost predicate IsCleared(t: Term, e: Emu) { e.Emu? && Quiet(e.p) && Cleared(t, e.t) }

  lemma FeedPrologue(t: Term, p: Parser)
    requires Inv(t) && Quiet(p)
    ensures IsCleared(t, Feed(Emu(t, p), PROLOGUE))
  {
    hide Step, Perform, Inv;
    var region, home, erase := CsiBytes([], 'r' as int), CsiBytes([], 'H' as int), CsiBytes([2], 'J' as int);
    FeedReset(t, p);
    var e1 := Feed(Emu(t, p), RESET);
    FeedCsi(e1, [], 'r' as int);
    RegionPerformed(e1.t);
    var e2 := Feed(e1, region);
    FeedCsi(e2, [], 'H' as int);
    HomePerformed(e2.t);
    var e3 := Feed(e2, home);
    FeedCsi(e3, [2], 'J' as int);
    ErasePerformed(e3.t);
    WriteSplitting(Emu(t, p), RESET, region + (home + erase));
    WriteSplitting(e1, region, home + erase);
    WriteSplitting(e2, home, erase);
  }

  // ---------------------------------------------------------------- the cells

  // The whole screen is drawn and the style is back to none; the cursor is somewhere.
  ghost predicate CellsPainted(t: Term, e: Emu, f: Frame) {
    && e.Emu? && Quiet(e.p) && Inv(e.t) && |f.cells| == t.rows
    && e.t == t.(lines := e.t.lines, cur := e.t.cur, pend := e.t.pend, style := PLAIN, top := 0, bottom := t.rows - 1)
    && e.t.cur.shape == t.cur.shape
    && forall r :: 0 <= r < t.rows ==> e.t.lines[r].cells == f.cells[r]
  }

  lemma FeedResetFrom(t: Term, p: Parser)
    requires Inv(t) && Quiet(p)
    ensures Became(Feed(Emu(t, p), ResetFrom(t.style)), t.(style := PLAIN))
  {
    hide Step;
    if t.style != PLAIN {
      FeedReset(t, p);
    }
  }

  lemma CellsFrom(t: Term, t0: Term, t1: Term, p: Parser, f: Frame, style: Style)
    requires Inv(t) && Cleared(t, t0) && RowsDrawn(t0, t1, 0, f.cells, style) && Quiet(p)
    ensures CellsPainted(t, Emu(t1.(style := PLAIN), p), f)
  {
    forall r | 0 <= r < t.rows
      ensures t1.lines[r].cells == f.cells[r]
    {
      assert t1.lines[0 + r].cells == f.cells[r];
    }
  }

  lemma FeedCells(t: Term, p: Parser, f: Frame)
    requires Paintable(f) && Canvas(t, p, f)
    ensures var style := RowsStyle(f.cells, PLAIN);
            CellsPainted(t, Feed(Emu(t, p), PROLOGUE + (RowsBytes(f.cells, 0, PLAIN) + ResetFrom(style))), f)
  {
    hide Step, RowsBytes, RowsStyle, ResetFrom, RowsDrawn, WholeChars, CellsPainted;
    var style := RowsStyle(f.cells, PLAIN);
    var rows := RowsBytes(f.cells, 0, PLAIN);
    FeedPrologue(t, p);
    var e0 := Feed(Emu(t, p), PROLOGUE);
    FeedRows(e0.t, e0.p, 0, f.cells);
    var e1 := Feed(e0, rows);
    StyleDrawn(e0.t, e1.t, f.cells, style);
    FeedResetFrom(e1.t, e1.p);
    var e2 := Feed(e1, ResetFrom(style));
    CellsFrom(t, e0.t, e1.t, e2.p, f, style);
    WriteSplitting(Emu(t, p), PROLOGUE, rows + ResetFrom(style));
    WriteSplitting(e0, rows, ResetFrom(style));
  }

  lemma StyleDrawn(t: Term, t': Term, rows: seq<seq<Cell>>, style: Style)
    requires RowsDrawn(t, t', 0, rows, style)
    ensures Inv(t') && t'.style == style
  {
  }

  // ---------------------------------------------------------------- the cursor

  lemma ShowPerformed(t: Term, on: bool)
    requires Inv(t)
    ensures Dispatch(t, ['?' as int, '2' as int, '5' as int], [], if on then 'h' as int else 'l' as int)
            == Some(t.(cur := t.cur.(visible := on)))
  {
    var s: seq<Byte> := ['?' as int, '2' as int, '5' as int];
    assert s[1..] == Itoa(25);
    FieldsNumber(25, []);
    assert Itoa(25) + [] == Itoa(25);
    assert Params(s[1..]) == [25];
    assert PrivateMode(t, 25, on) == Some(t.(cur := t.cur.(visible := on)));
    assert [25][1..] == [];
  }

  lemma FeedShow(t: Term, p: Parser, on: bool)
    requires Inv(t) && Quiet(p)
    ensures Became(Feed(Emu(t, p), ShowCursor(on)), t.(cur := t.cur.(visible := on)))
  {
    hide Step, Dispatch;
    var s: seq<Byte> := ['?' as int, '2' as int, '5' as int];
    var final: Byte := if on then 'h' as int else 'l' as int;
    FeedSequence(Emu(t, p), s, final);
    ShowPerformed(t, on);
    assert ShowCursor(on) == [ESC, 0x5b] + s + [final];
  }

  // The terminal shows this screen and its cursor, and scrolled nothing away.
  ghost predicate Shows(t: Term, e: Emu, f: Frame) {
    && CellsPainted(t, e, f)
    && e.t.cur == Cursor(f.cur.row, f.cur.col, f.cur.visible, t.cur.shape) && e.t.pend == f.pending
  }

  lemma {:induction false} RowsStyleUnlinked(rows: seq<seq<Cell>>, cols: nat, style: Style)
    requires AllPaintable(rows, cols) && style.link == []
    ensures RowsStyle(rows, style).link == []
  {
    hide WholeChars, Unlinked;
    if rows != [] {
      RowStyleUnlinked(rows[0], style);
      RowsStyleUnlinked(rows[1..], cols, RowStyle(rows[0], style));
    }
  }

  lemma CellsStay(t: Term, t1: Term, p: Parser, t2: Term, p2: Parser, f: Frame)
    requires CellsPainted(t, Emu(t1, p), f) && Inv(t2) && Quiet(p2)
    requires t2 == t1.(cur := Cursor(f.cur.row, f.cur.col, f.cur.visible, t1.cur.shape), pend := f.pending)
    ensures Shows(t, Emu(t2, p2), f)
  {
  }

  lemma FeedRest(t: Term, t1: Term, p: Parser, f: Frame, style: Style)
    requires Inv(t) && CellsPainted(t, Emu(t1, p), f) && !f.pending && style.link == []
    requires f.cols == t.cols && f.cols >= 2 && InScreen(f.cur, t.cols, t.rows)
    ensures Shows(t, Feed(Emu(t1, p), CursorBytes(f, style)), f)
  {
    hide Step, Feed, Shows, CsiBytes, ShowCursor;
    var move, show := CsiBytes([f.cur.row + 1, f.cur.col + 1], 'H' as int), ShowCursor(f.cur.visible);
    assert CursorBytes(f, style) == move + show;
    WriteSplitting(Emu(t1, p), move, show);
    FeedMove(t1, p, f.cur.row, f.cur.col);
    var e2 := Feed(Emu(t1, p), move);
    FeedShow(e2.t, e2.p, f.cur.visible);
    var e3 := Feed(e2, show);
    CellsStay(t, t1, p, e3.t, e3.p, f);
  }

  // ---------------------------------------------------------------- a pending wrap

  // The character that fills the last column of a row.
  lemma {:induction false} LastChar(cells: seq<Cell>) returns (before: seq<Cell>, c: Cell)
    requires cells != [] && WholeChars(cells)
    ensures cells == before + Glyph(c) && Drawable(c)
    decreases |cells|
  {
    var w := cells[0].width;
    var tail := cells[w..];
    if tail == [] {
      before, c := [], cells[0];
    } else {
      before, c := LastChar(tail);
      assert cells == cells[..w] + tail;
      before := cells[..w] + before;
    }
  }

  lemma LastWidth(before: seq<Cell>, c: Cell)
    requires Drawable(c)
    ensures var cells := before + Glyph(c);
            WidthAt(cells, |cells| - 1) == c.width && cells[|cells| - c.width] == c
  {
    var cells := before + Glyph(c);
    if c.width == 2 {
      assert cells[|before| + 1] == Continuation(c.style);
    }
  }

  // Whether a style is got back to from no style by what leads to it from another one: what was
  // drawn last must share nothing with it, unless it takes a reset to get there.
  predicate PendingSafe(last: Style, style: Style) {
    || TurnsSomethingOff(last, style)
    || (&& last.attrs !! style.attrs
        && (last.fg == style.fg ==> style.fg == Default)
        && (last.bg == style.bg ==> style.bg == Default))
  }

  lemma PendingRestyled(last: Style, style: Style)
    requires style.link == []
    ensures Restyled(PLAIN, last, style) == style <==> PendingSafe(last, style)
    ensures style == PLAIN ==> Restyled(PLAIN, last, style) == PLAIN
    ensures Restyled(PLAIN, last, style).link == []
  {
    AddedFromPlain(style);
    var added := AddedFrom(PLAIN, last, style, 0);
    assert added.attrs == style.attrs - last.attrs;
    assert added.attrs == style.attrs <==> last.attrs !! style.attrs;
  }

  // The last character of a row written again, in some style: the cells of the row in which it has
  // that style, and a wrap pending.
  lemma RewrittenRow(t: Term, before: seq<Cell>, c: Cell, style: Style)
    requires Inv(t) && Drawable(c) && |before| + c.width == t.cols && t.cur.col == |before| && t.awm
    requires t.lines[t.cur.row].cells == before + Glyph(c)
    ensures var t' := Drawn(t, c.(style := style));
            && t' == t.(lines := t'.lines, cur := t.cur.(col := t.cols - 1), pend := true)
            && t'.lines == t.lines[t.cur.row := t'.lines[t.cur.row]]
            && t'.lines[t.cur.row].cells == before + Glyph(c.(style := style))
  {
    var c' := c.(style := style);
    var cells := WriteCell(t.lines[t.cur.row], t.cur.col, c').cells;
    assert cells == before + Glyph(c');
  }

  // The cursor's row ends in this character in this style, and the wrap after it is pending.
  ghost predicate PendingDrawn(t1: Term, e: Emu, f: Frame, before: seq<Cell>, c: Cell) {
    && e.Emu? && Quiet(e.p) && Inv(e.t) && 0 <= f.cur.row < |t1.lines| == |e.t.lines|
    && e.t == t1.(lines := e.t.lines, cur := Cursor(f.cur.row, t1.cols - 1, f.cur.visible, t1.cur.shape), pend := true)
    && e.t.lines == t1.lines[f.cur.row := e.t.lines[f.cur.row]]
    && e.t.lines[f.cur.row].cells == before + Glyph(c)
  }

  lemma PendingParts(f: Frame, before: seq<Cell>, c: Cell, last: Style)
    requires f.cols >= 2 && 0 <= f.cur.row < |f.cells| && f.cells[f.cur.row] == before + Glyph(c)
    requires |before| + c.width == f.cols && Drawable(c) && c.style.link == []
    ensures PendingBytes(f, last)
            == CsiBytes([f.cur.row + 1, f.cols - c.width + 1], 'H' as int)
               + (SgrBytes(last, c.style) + (EncodeAll(Content(c)) + (ResetFrom(c.style) + ShowCursor(f.cur.visible))))
  {
    hide SgrBytes, EncodeAll, ResetFrom, ShowCursor, CsiBytes;
    LastWidth(before, c);
    assert c.style.(link := []) == c.style;
    var rest := ResetFrom(c.style) + ShowCursor(f.cur.visible);
    assert [] + rest == rest;
  }

  // The last character written again, in the style the difference leads to.
  ghost predicate Rewritten(t1: Term, e: Emu, row: int, before: seq<Cell>, c: Cell) {
    && e.Emu? && Quiet(e.p) && Inv(e.t) && 0 <= row < |t1.lines| == |e.t.lines|
    && e.t == t1.(lines := e.t.lines, cur := t1.cur.(row := row, col := t1.cols - 1), pend := true, style := c.style)
    && e.t.lines == t1.lines[row := e.t.lines[row]]
    && e.t.lines[row].cells == before + Glyph(c)
  }

  lemma FeedRewrite(t1: Term, p: Parser, row: nat, before: seq<Cell>, c: Cell, last: Style)
    requires Inv(t1) && Quiet(p) && Plain(t1) && t1.style == PLAIN && row < t1.rows
    requires t1.lines[row].cells == before + Glyph(c) && Drawable(c) && c.style.link == []
    ensures var bytes := CsiBytes([row + 1, |before| + 1], 'H' as int) + (SgrBytes(last, c.style) + EncodeAll(Content(c)));
            Rewritten(t1, Feed(Emu(t1, p), bytes), row, before, c.(style := Restyled(PLAIN, last, c.style)))
  {
    hide Step, Feed, SgrBytes, Restyled, Drawn, EncodeAll, CsiBytes;
    var style := Restyled(PLAIN, last, c.style);
    var move, sgr, text := CsiBytes([row + 1, |before| + 1], 'H' as int), SgrBytes(last, c.style), EncodeAll(Content(c));
    FeedMove(t1, p, row, |before|);
    var e2 := Feed(Emu(t1, p), move);
    FeedSgr(e2.t, e2.p, last, c.style);
    var e3 := Feed(e2, sgr);
    FeedContent(e3.t, e3.p, c.(style := style));
    RewrittenRow(e3.t, before, c, style);
    WriteInThree(Emu(t1, p), move, sgr, text);
  }

  lemma FeedResetShow(t: Term, p: Parser, style: Style, on: bool)
    requires Inv(t) && Quiet(p) && (style == PLAIN ==> t.style == PLAIN)
    ensures Became(Feed(Emu(t, p), ResetFrom(style) + ShowCursor(on)), t.(style := PLAIN, cur := t.cur.(visible := on)))
  {
    hide Step, ResetFrom, ShowCursor;
    FeedPendingReset(t, p, style);
    var e := Feed(Emu(t, p), ResetFrom(style));
    FeedShow(e.t, e.p, on);
    WriteSplitting(Emu(t, p), ResetFrom(style), ShowCursor(on));
  }

  // What is left to do once the last character is written again.
  lemma FeedLast(t1: Term, e1: Emu, f: Frame, before: seq<Cell>, c: Cell, style: Style)
    requires Rewritten(t1, e1, f.cur.row, before, c) && t1.style == PLAIN && (style == PLAIN ==> c.style == PLAIN)
    ensures PendingDrawn(t1, Feed(e1, ResetFrom(style) + ShowCursor(f.cur.visible)), f, before, c)
  {
    hide Step, Feed, ResetFrom, ShowCursor, Glyph;
    FeedResetShow(e1.t, e1.p, style, f.cur.visible);
  }

  // The bytes for a pending wrap, and the terminal they leave.
  lemma FeedPending(t1: Term, p: Parser, f: Frame, before: seq<Cell>, c: Cell, last: Style)
    requires Inv(t1) && Quiet(p) && Plain(t1) && t1.style == PLAIN && f.cols == t1.cols && |f.cells| == t1.rows
    requires InScreen(f.cur, t1.cols, t1.rows) && f.cells[f.cur.row] == before + Glyph(c) == t1.lines[f.cur.row].cells
    requires Drawable(c) && c.style.link == []
    ensures PendingDrawn(t1, Feed(Emu(t1, p), PendingBytes(f, last)), f, before, c.(style := Restyled(PLAIN, last, c.style)))
  {
    hide Step, Feed, SgrBytes, Restyled, EncodeAll, ShowCursor, ResetFrom, PendingBytes, PendingDrawn, Rewritten;
    PendingParts(f, before, c, last);
    PendingRestyled(last, c.style);
    FeedRewrite(t1, p, f.cur.row, before, c, last);
    var move, sgr, text := CsiBytes([f.cur.row + 1, |before| + 1], 'H' as int), SgrBytes(last, c.style), EncodeAll(Content(c));
    var rest := ResetFrom(c.style) + ShowCursor(f.cur.visible);
    var e1 := Feed(Emu(t1, p), move + (sgr + text));
    assert move + (sgr + (text + rest)) == move + (sgr + text) + rest;
    WriteSplitting(Emu(t1, p), move + (sgr + text), rest);
    FeedLast(t1, e1, f, before, c.(style := Restyled(PLAIN, last, c.style)), c.style);
  }

  lemma FeedPendingReset(t: Term, p: Parser, style: Style)
    requires Inv(t) && Quiet(p) && (style == PLAIN ==> t.style == PLAIN)
    ensures Became(Feed(Emu(t, p), ResetFrom(style)), t.(style := PLAIN))
  {
    hide Step;
    if style != PLAIN {
      FeedReset(t, p);
    }
  }

  // ---------------------------------------------------------------- the theorem

  // The cell that a pending wrap waits after: the last character of the cursor's row.
  function PendingCell(f: Frame): Cell
    requires Paintable(f)
  {
    var cells := f.cells[f.cur.row];
    var w := WidthAt(cells, f.cols - 1);
    cells[f.cols - w]
  }

  // Whether a repaint is exact. Without a pending wrap it always is. With one, the cursor must be
  // where such a wrap leaves it, and the style of the last character drawn - against which the
  // renderer still compares after its reset - must not hide any of the style of the one it repeats.
  ghost predicate Repaints(f: Frame)
    requires Paintable(f)
  {
    f.pending ==> f.cur.col == f.cols - 1 && PendingSafe(RowsStyle(f.cells, PLAIN), PendingCell(f).style)
  }

  lemma ScreenParts(f: Frame)
    requires Paintable(f)
    ensures var style := RowsStyle(f.cells, PLAIN);
            Screen(f) == (PROLOGUE + (RowsBytes(f.cells, 0, PLAIN) + ResetFrom(style))) + CursorBytes(f, style)
  {
    hide RowsBytes, ResetFrom, CursorBytes, RowsStyle;
    var style := RowsStyle(f.cells, PLAIN);
    var a, b, c, d := PROLOGUE, RowsBytes(f.cells, 0, PLAIN), ResetFrom(style), CursorBytes(f, style);
    assert (a + (b + c)) + d == a + (b + (c + d));
  }

  lemma GlyphStyled(before: seq<Cell>, c: Cell, style: Style)
    requires Drawable(c)
    ensures before + Glyph(c.(style := style)) == before + Glyph(c) <==> style == c.style
  {
    assert (before + Glyph(c.(style := style)))[|before|] == c.(style := style);
    assert (before + Glyph(c))[|before|] == c;
  }

  // What is left after a pending wrap has been drawn shows the screen or does not.
  lemma PendingShows(t: Term, t1: Term, p: Parser, e: Emu, f: Frame, before: seq<Cell>, c: Cell, style: Style)
    requires CellsPainted(t, Emu(t1, p), f) && Inv(t) && InScreen(f.cur, t.cols, t.rows) && f.pending
    requires f.cells[f.cur.row] == before + Glyph(c) && Drawable(c)
    requires PendingDrawn(t1, e, f, before, c.(style := style))
    ensures Shows(t, e, f) <==> f.cur.col == t.cols - 1 && style == c.style
  {
    GlyphStyled(before, c, style);
    var row := f.cur.row;
    assert e.t.lines[row].cells == f.cells[row] <==> style == c.style;
    forall r | 0 <= r < t.rows && r != row
      ensures e.t.lines[r].cells == f.cells[r]
    {
      assert e.t.lines[r] == t1.lines[r];
    }
  }

  lemma PlainStays(t: Term, e: Emu, f: Frame)
    requires Plain(t) && CellsPainted(t, e, f)
    ensures Plain(e.t) && e.t.style == PLAIN && e.t.cols == t.cols && e.t.rows == t.rows
    ensures forall r :: 0 <= r < t.rows ==> e.t.lines[r].cells == f.cells[r]
  {
  }

  lemma PaintablePending(f: Frame) returns (before: seq<Cell>, c: Cell)
    requires Paintable(f)
    ensures f.cells[f.cur.row] == before + Glyph(c) && Drawable(c) && c.style.link == [] && PendingCell(f) == c
  {
    before, c := LastChar(f.cells[f.cur.row]);
    LastWidth(before, c);
    assert f.cells[f.cur.row][f.cols - c.width] == c;
  }

  // A repaint is exact. The bytes of a screen, played into any terminal of its size that has nothing
  // half-read and draws text as it comes, leave exactly its cells, styles and cursor, change nothing
  // else but the margins, and scroll nothing into the scrollback - precisely when Repaints says so.
  lemma RepaintRoundTrip(t: Term, p: Parser, f: Frame)
    requires Paintable(f) && Canvas(t, p, f)
    ensures Shows(t, Feed(Emu(t, p), Screen(f)), f) <==> Repaints(f)
  {
    hide Step, Shows, CellsPainted, PendingDrawn, PendingSafe, Restyled, CursorBytes, PendingBytes, Screen,
      RowsStyle, RowsBytes, ResetFrom, WholeChars, PendingCell;
    var style := RowsStyle(f.cells, PLAIN);
    var body := PROLOGUE + (RowsBytes(f.cells, 0, PLAIN) + ResetFrom(style));
    ScreenParts(f);
    WriteSplitting(Emu(t, p), body, CursorBytes(f, style));
    FeedCells(t, p, f);
    RowsStyleUnlinked(f.cells, f.cols, PLAIN);
    CursorShows(t, p, Feed(Emu(t, p), body), f);
  }

  lemma CursorShows(t: Term, p: Parser, e1: Emu, f: Frame)
    requires Paintable(f) && Canvas(t, p, f) && CellsPainted(t, e1, f) && RowsStyle(f.cells, PLAIN).link == []
    ensures Shows(t, Feed(e1, CursorBytes(f, RowsStyle(f.cells, PLAIN))), f) <==> Repaints(f)
  {
    hide Step, Shows, PendingDrawn, PendingSafe, Restyled, PendingBytes, RowsStyle, WholeChars, PendingCell;
    var style := RowsStyle(f.cells, PLAIN);
    if f.pending {
      var before, c := PaintablePending(f);
      PlainStays(t, e1, f);
      FeedPending(e1.t, e1.p, f, before, c, style);
      PendingRestyled(style, c.style);
      assert CursorBytes(f, style) == PendingBytes(f, style);
      PendingShows(t, e1.t, e1.p, Feed(e1, PendingBytes(f, style)), f, before, c, Restyled(PLAIN, style, c.style));
    } else {
      FeedRest(t, e1.t, e1.p, f, style);
    }
  }

  // The screen a terminal shows, as a renderer reads it.
  function FrameOf(t: Term): Frame
    requires Inv(t)
  {
    Frame(t.cols, t.rows, seq(|t.lines|, r requires 0 <= r < |t.lines| => t.lines[r].cells), t.cur, t.pend)
  }

  // A screen whose repaint is not exact: one bold row, full, with the wrap after it pending.
  function BoldCell(): Cell { Cell([0x78], 1, PLAIN.(attrs := {Bold})) }

  function BoldRow(): Frame { Frame(2, 1, [[BoldCell(), BoldCell()]], Cursor(0, 1, true, 0), true) }

  // The second drawing of its last character is not bold.
  lemma BoldRowNotRepainted(t: Term, p: Parser)
    requires Inv(t) && Quiet(p) && Plain(t) && t.cols == 2 && t.rows == 1
    ensures Paintable(BoldRow()) && !Shows(t, Feed(Emu(t, p), Screen(BoldRow())), BoldRow())
  {
    hide Step, Shows, Screen;
    var x, f := BoldCell(), BoldRow();
    assert [x, x][1..] == [x] && [x][1..] == [];
    assert WholeChars([x]);
    assert RowsStyle([[x, x]], PLAIN) == x.style by {
      assert RowStyle([x], x.style) == x.style;
    }
    RepaintRoundTrip(t, p, f);
  }

  // And an ordinary program draws it: a new terminal of that size is given a bold code and two letters.
  lemma BoldRowReached()
    ensures var e := Feed(Emu(New(2, 1), START), CsiBytes([1], 'm' as int) + (Encode(0x78) + Encode(0x78)));
            e.Emu? && FrameOf(e.t) == BoldRow()
  {
    hide Step, Drawn, Put, Encode;
    var t0, x := New(2, 1), BoldCell();
    FeedCsi(Emu(t0, START), [1], 'm' as int);
    BoldOn(t0);
    var t1 := t0.(style := x.style);
    var e1 := Feed(Emu(t0, START), CsiBytes([1], 'm' as int));
    FeedRune(e1, 0x78);
    BaseDrawn(t1, 0x78, x);
    var e2 := e1.(t := Drawn(t1, x));
    DrawnOnce(t1, x);
    FeedRune(e2, 0x78);
    BaseDrawn(e2.t, 0x78, x);
    WriteSplitting(Emu(t0, START), CsiBytes([1], 'm' as int), Encode(0x78) + Encode(0x78));
    WriteSplitting(e1, Encode(0x78), Encode(0x78));
    DrawnTwice(t1, x);
  }

  lemma BoldOn(t: Term)
    requires Inv(t) && t.style == PLAIN
    ensures Perform(t, [1], [], 'm' as int) == t.(style := BoldCell().style)
  {
    assert [1][1..] == [];
    assert {} + {Bold} == {Bold};
  }

  lemma DrawnOnce(t: Term, c: Cell)
    requires Inv(t) && Plain(t) && t.cols == 2 && t.cur.col == 0 && !t.pend && c.width == 1 && c.style == t.style
    ensures Ready(Drawn(t, c), c) && Drawn(t, c).cur.col == 1
  {
  }

  lemma DrawnTwice(t: Term, c: Cell)
    requires Inv(t) && Plain(t) && t.cols == 2 && t.rows == 1 && t.cur == Cursor(0, 0, true, 0) && !t.pend
      && c.width == 1 && c.style == t.style
    ensures FrameOf(Drawn(Drawn(t, c), c)) == Frame(2, 1, [[c, c]], Cursor(0, 1, true, 0), true)
  {
    var t2 := Drawn(Drawn(t, c), c);
    assert t2.lines[0].cells == [c, c];
    assert FrameOf(t2).cells == [[c, c]];
  }
}
