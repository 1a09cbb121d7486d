/** What the bytes of cells and rows draw. */
module DrawLaws {
  import opened Vt
  import opened Grid
  import opened Parser
  import opened ParserLaws
  import opened Utf8
  import opened Decimal
  import opened Render
  import opened SgrLaws

  // ---------------------------------------------------------------- one character

  // A terminal that has just drawn a character at its cursor.
  function Drawn(t: Term, c: Cell): (t': Term)
    requires Inv(t) && t.cur.col + c.width <= t.cols
    ensures Inv(t') && Steady(t, t')
  {
    Advance(SetLine(t, t.cur.row, WriteCell(t.lines[t.cur.row], t.cur.col, c)), c.width)
  }

  // Where a character can be drawn as it is: no wrap pending, room on the row, autowrap on.
  ghost predicate Ready(t: Term, c: Cell) {
    Inv(t) && Plain(t) && !t.pend && c.width >= 1 && t.cur.col + c.width <= t.cols && c.style == t.style
  }

  lemma BaseDrawn(t: Term, r: Rune, c: Cell)
    requires Ready(t, c) && c.content == [r] && RuneWidth(r) == c.width
    ensures Put(t, r, RuneWidth(r)) == Drawn(t, c)
  {
    assert Settle(t, c.width) == t;
  }

  // The mark joins the character just drawn, whether the cursor is after it or waits to wrap.
  lemma MarkPlace(t: Term, c: Cell)
    requires Ready(t, c) && c.content != []
    ensures var t1 := Drawn(t, c); var cells := t1.lines[t.cur.row].cells;
            && t1.cur.row == t.cur.row && (t1.pend || t1.cur.col > 0)
            && (if t1.pend then t.cols - 1 else t1.cur.col - 1) == t.cur.col + c.width - 1
            && Head(cells, t.cur.col + c.width - 1) == t.cur.col && cells[t.cur.col] == c
  {
  }

  lemma MarkWritten(line: Line, col: int, c: Cell, more: seq<Rune>)
    requires 0 <= col && col + c.width <= |line.cells| && c.width >= 1
    ensures var l := WriteCell(line, col, c); var c' := c.(content := more);
            l.(cells := l.cells[col := c']) == WriteCell(line, col, c')
  {
    var l, c' := WriteCell(line, col, c), c.(content := more);
    assert l.cells[col := c'] == WriteCell(line, col, c').cells;
  }

  lemma Combined(t: Term, r: Rune, col: nat)
    requires Inv(t) && (t.pend || t.cur.col > 0)
    requires var cells := t.lines[t.cur.row].cells;
             Head(cells, if t.pend then t.cols - 1 else t.cur.col - 1) == col && cells[col].content != []
    ensures var cells := t.lines[t.cur.row].cells;
            Combine(t, r) == SetCells(t, t.cur.row, cells[col := cells[col].(content := cells[col].content + [r])])
  {
  }

  lemma MarkDrawn(t: Term, c: Cell, r: Rune)
    requires Ready(t, c) && c.content != [] && RuneWidth(r) == 0
    ensures Put(Drawn(t, c), r, RuneWidth(r)) == Drawn(t, c.(content := c.content + [r]))
  {
    hide WriteCell, Head, Plain, RuneWidth, PutString, Combine;
    MarkPlace(t, c);
    Combined(Drawn(t, c), r, t.cur.col);
    MarkWritten(t.lines[t.cur.row], t.cur.col, c, c.content + [r]);
    DrawnLines(t, c);
    DrawnLines(t, c.(content := c.content + [r]));
    hide Drawn;
  }

  lemma DrawnLines(t: Term, c: Cell)
    requires Inv(t) && t.cur.col + c.width <= t.cols
    ensures Drawn(t, c) == Advance(t, c.width).(lines := t.lines[t.cur.row := WriteCell(t.lines[t.cur.row], t.cur.col, c)])
  {
    hide WriteCell, Inv;
  }

  // Drawing leaves the modes alone.
  ghost predicate SameModes(t: Term, t': Term) {
    t'.irm == t.irm && t'.awm == t.awm && t'.g0 == t.g0 && t'.g1 == t.g1 && t'.active == t.active
  }

  lemma DrawnSameModes(t: Term, c: Cell)
    requires Inv(t) && t.cur.col + c.width <= t.cols
    ensures SameModes(t, Drawn(t, c))
  {
  }

  // The bytes of a character draw it.
  lemma {:induction false} FeedChar(t: Term, p: Parser, c: Cell, k: nat)
    requires Ready(t, c) && Drawable(c) && Quiet(p) && 1 <= k <= |c.content|
    ensures Feed(Emu(t, p), EncodeAll(c.content[..k])) == Emu(Drawn(t, c.(content := c.content[..k])), p)
  {
    hide Step, Drawn, Put, Encode;
    var r := c.content[k - 1];
    EncodeAllOne(c.content[..k - 1], r);
    assert c.content[..k] == c.content[..k - 1] + [r];
    WriteSplitting(Emu(t, p), EncodeAll(c.content[..k - 1]), Encode(r));
    if k == 1 {
      assert c.content[..0] == [] && [] + [r] == [r];
      FeedRune(Emu(t, p), r);
      BaseDrawn(t, r, c.(content := [r]));
    } else {
      FeedChar(t, p, c, k - 1);
      var t1 := Drawn(t, c.(content := c.content[..k - 1]));
      DrawnSameModes(t, c.(content := c.content[..k - 1]));
      FeedRune(Emu(t1, p), r);
      MarkDrawn(t, c.(content := c.content[..k - 1]), r);
    }
  }

  lemma {:induction false} EncodeAllOne(rs: seq<Rune>, r: Rune)
    ensures EncodeAll(rs + [r]) == EncodeAll(rs) + Encode(r)
  {
    hide Encode;
    if rs == [] {
      assert rs + [r] == [r] && [r][1..] == [];
      assert EncodeAll([r]) == Encode(r) + [];
    } else {
      assert (rs + [r])[1..] == rs[1..] + [r];
      EncodeAllOne(rs[1..], r);
    }
  }

  lemma FeedContent(t: Term, p: Parser, c: Cell)
    requires Ready(t, c) && Drawable(c) && Quiet(p)
    ensures Feed(Emu(t, p), EncodeAll(Content(c))) == Emu(Drawn(t, c), p)
  {
    FeedChar(t, p, c, |c.content|);
    assert c.content[..|c.content|] == c.content;
  }

  // The bytes of a cell draw it, in its style, whatever style the terminal was drawing in.
  lemma FeedCell(t: Term, p: Parser, c: Cell)
    requires Inv(t) && Plain(t) && !t.pend && t.cur.col + c.width <= t.cols && Drawable(c) && Quiet(p)
    requires c.style.link == [] && t.style.link == []
    ensures Became(Feed(Emu(t, p), CellBytes(c, t.style)), Drawn(t.(style := c.style), c))
  {
    hide Step, EncodeAll, Drawn, SgrBytes, Content;
    var sgr := if c.style != t.style then SgrBytes(t.style, c.style) else [];
    assert t.style.(link := c.style.link) == t.style;
    assert CellBytes(c, t.style) == sgr + EncodeAll(Content(c));
    WriteSplitting(Emu(t, p), sgr, EncodeAll(Content(c)));
    var e1 := Feed(Emu(t, p), sgr);
    if c.style != t.style {
      SgrExact(t, p, c.style);
    }
    assert e1.Emu? && e1.t == t.(style := c.style) && Quiet(e1.p);
    FeedContent(e1.t, e1.p, c);
  }

  // ---------------------------------------------------------------- one row

  // The cursor's row ends in these cells now and is otherwise as it was; if there were any, a wrap
  // is pending after them. Nothing else is different but the style.
  ghost predicate RowDrawn(t: Term, t': Term, cs: seq<Cell>, style: Style) {
    && Inv(t) && Inv(t') && |cs| <= t.cols
    && t' == t.(lines := t'.lines, cur := t.cur.(col := t'.cur.col), pend := t'.pend, style := style)
    && t'.lines == t.lines[t.cur.row := t'.lines[t.cur.row]]
    && t'.lines[t.cur.row].cells == t.lines[t.cur.row].cells[..t.cols - |cs|] + cs
    && (if cs == [] then t'.cur == t.cur && t'.pend == t.pend else t'.cur.col == t.cols - 1 && t'.pend)
  }

  // What one character adds to a row.
  lemma DrawnWritten(t: Term, c: Cell)
    requires Ready(t, c)
    ensures var t' := Drawn(t, c); var col := t.cur.col; var cells := t.lines[t.cur.row].cells;
            && t' == t.(lines := t'.lines, cur := t.cur.(col := t'.cur.col), pend := t'.pend)
            && t'.lines == t.lines[t.cur.row := t'.lines[t.cur.row]]
            && t'.lines[t.cur.row].cells == WriteCell(t.lines[t.cur.row], col, c).cells
            && (if col + c.width == t.cols then t'.cur.col == t.cols - 1 && t'.pend
                else t'.cur.col == col + c.width && !t'.pend)
  {
    hide WriteCell;
  }

  lemma WrittenCells(line: Line, col: int, c: Cell)
    requires 0 <= col && col + c.width <= |line.cells| && c.width >= 1
    ensures WriteCell(line, col, c).cells[..col + c.width] == line.cells[..col] + Glyph(c)
  {
  }

  lemma RowDrawnMore(t: Term, c: Cell, t': Term, tail: seq<Cell>, style: Style)
    requires Ready(t, c) && t.cur.col + c.width + |tail| == t.cols
    requires RowDrawn(Drawn(t, c), t', tail, style)
    ensures RowDrawn(t, t', Glyph(c) + tail, style)
  {
    hide Drawn, WriteCell;
    DrawnWritten(t, c);
    WrittenCells(t.lines[t.cur.row], t.cur.col, c);
    var row, col := t.cur.row, t.cur.col;
    var before, after := t.lines[row].cells, Drawn(t, c).lines[row].cells;
    assert t'.lines[row].cells == after[..col + c.width] + tail;
    assert before[..col] + Glyph(c) + tail == before[..col] + (Glyph(c) + tail);
  }

  // No cell is part of a hyperlink.
  ghost predicate Unlinked(cs: seq<Cell>) {
    forall i :: 0 <= i < |cs| ==> cs[i].style.link == []
  }

  lemma RowBytesStep(cs: seq<Cell>, style: Style)
    requires cs != [] && WholeChars(cs)
    ensures var c := cs[0]; var tail := cs[c.width..];
            && Drawable(c) && WholeChars(tail) && cs == Glyph(c) + tail
            && RowBytes(cs, style) == CellBytes(c, style) + RowBytes(tail, c.style)
            && RowStyle(cs, style) == RowStyle(tail, c.style)
  {
    var c := cs[0];
    assert !Skipped(c);
    if c.width == 2 {
      assert Skipped(cs[1]) && cs[1..][0] == cs[1];
      assert cs[1..][1..] == cs[2..];
    }
  }

  // The bytes of the rest of a row draw it.
  lemma {:induction false} FeedRow(t: Term, p: Parser, cs: seq<Cell>)
    requires Inv(t) && Plain(t) && Quiet(p) && WholeChars(cs) && Unlinked(cs) && t.style.link == []
    requires cs != [] ==> !t.pend && t.cur.col + |cs| == t.cols
    ensures var e := Feed(Emu(t, p), RowBytes(cs, t.style));
            e.Emu? && Quiet(e.p) && RowDrawn(t, e.t, cs, RowStyle(cs, t.style))
    decreases |cs|
  {
    hide Step, CellBytes, Drawn, WholeChars, RowDrawn;
    if cs == [] {
      NothingDrawn(t);
    } else {
      RowBytesStep(cs, t.style);
      var c, tail := cs[0], cs[cs[0].width..];
      WriteSplitting(Emu(t, p), CellBytes(c, t.style), RowBytes(tail, c.style));
      FeedCell(t, p, c);
      var e1 := Feed(Emu(t, p), CellBytes(c, t.style));
      DrawnWritten(t.(style := c.style), c);
      FeedRow(e1.t, e1.p, tail);
      RowMore(t, c, Feed(e1, RowBytes(tail, c.style)).t, tail, RowStyle(tail, c.style));
    }
  }

  lemma RowMore(t: Term, c: Cell, t': Term, tail: seq<Cell>, style: Style)
    requires Ready(t.(style := c.style), c) && t.cur.col + c.width + |tail| == t.cols
    requires RowDrawn(Drawn(t.(style := c.style), c), t', tail, style)
    ensures RowDrawn(t, t', Glyph(c) + tail, style)
  {
    hide Drawn, RowDrawn, Glyph;
    RowDrawnMore(t.(style := c.style), c, t', tail, style);
    Restyle(t, c.style, t', Glyph(c) + tail, style);
  }

  lemma NothingDrawn(t: Term)
    requires Inv(t)
    ensures RowDrawn(t, t, [], t.style)
  {
  }

  lemma Restyle(t: Term, style: Style, t': Term, cs: seq<Cell>, style': Style)
    requires Inv(t) && RowDrawn(t.(style := style), t', cs, style')
    ensures RowDrawn(t, t', cs, style')
  {
  }

  // ---------------------------------------------------------------- hyperlinks

  // What can be the target of a link: nothing that ends the command, and no more than is kept of it.
  predicate Target(url: seq<Byte>) {
    |url| + 3 <= OSC_LIMIT && forall i :: 0 <= i < |url| ==> url[i] != 0x07 && url[i] != ESC
  }

  lemma {:induction false} FeedCommand(e: Emu, s: seq<Byte>)
    requires e.Emu? && Inv(e.t) && e.p.state == Osc && |e.p.oscBuf| + |s| <= OSC_LIMIT
    requires forall i :: 0 <= i < |s| ==> s[i] != 0x07 && s[i] != ESC
    ensures Feed(e, s) == e.(p := e.p.(oscBuf := e.p.oscBuf + s))
    decreases |s|
  {
    if s == [] {
      assert e.p.oscBuf + s == e.p.oscBuf;
    } else {
      assert e.p.oscBuf + [s[0]] + s[1..] == e.p.oscBuf + s;
      FeedCommand(Step(e, s[0]), s[1..]);
    }
  }

  lemma CutLink(url: seq<Byte>)
    ensures Cut([0x38, SEMICOLON, SEMICOLON] + url) == Some(([0x38], [SEMICOLON] + url))
    ensures Cut([SEMICOLON] + url) == Some(([], url))
  {
    var all := [0x38, SEMICOLON, SEMICOLON] + url;
    assert all[1..] == [SEMICOLON, SEMICOLON] + url && all[1..][1..] == [SEMICOLON] + url;
    var arg := [SEMICOLON] + url;
    assert arg[0] == SEMICOLON && arg[1..] == url;
    assert [all[0]] + [] == [0x38];
    assert Cut(all[1..]) == Some(([], [SEMICOLON] + url));
  }

  // The bytes that open a link, or close one, do so - and draw a backslash after it. The emulator ends
  // the command at the first byte of its two-byte end, and the second is text.
  lemma LinkDrawsBackslash(t: Term, p: Parser, url: seq<Byte>)
    requires Inv(t) && Quiet(p) && p.oscBuf == [] && Plain(t) && Target(url)
    ensures Feed(Emu(t, p), LinkBytes(url))
            == Emu(Put(t.(style := t.style.(link := url)), '\\' as int, 1), p.(params := [], inter := []))
  {
    hide Feed, Put, Plain, Cut;
    var opening, body: seq<Byte>, ending := [ESC, ']' as int], [0x38, SEMICOLON, SEMICOLON] + url, [ESC, '\\' as int];
    assert LinkBytes(url) == opening + (body + ending);
    WriteSplitting(Emu(t, p), opening, body + ending);
    FeedBegin(Emu(t, p));
    var e1 := Emu(t, p.(params := [], inter := [], state := Osc));
    WriteSplitting(e1, body, ending);
    FeedCommand(e1, body);
    assert [] + body == body;
    FeedEnd(t, e1.p.(oscBuf := body), url);
  }

  lemma FeedBegin(e: Emu)
    requires e.Emu? && Inv(e.t) && Quiet(e.p)
    ensures Feed(e, [ESC, ']' as int]) == e.(p := e.p.(params := [], inter := [], state := Osc))
  {
    assert [ESC, ']' as int] == [ESC] + [']' as int];
    WriteSplitting(e, [ESC], [']' as int]);
    FeedOne(e, ESC);
    FeedOne(Step(e, ESC), ']' as int);
  }

  lemma FeedEnd(t: Term, p: Parser, url: seq<Byte>)
    requires Inv(t) && Plain(t) && p.state == Osc && p.utf8 == [] && !p.invalid
    requires p.oscBuf == [0x38, SEMICOLON, SEMICOLON] + url
    ensures Feed(Emu(t, p), [ESC, '\\' as int])
            == Emu(Put(t.(style := t.style.(link := url)), '\\' as int, 1), p.(state := Ground, oscBuf := []))
  {
    hide Put, Cut, Settled;
    var e, e1 := Emu(t, p), Emu(t.(style := t.style.(link := url)), p.(state := Ground, oscBuf := []));
    assert [ESC, '\\' as int] == [ESC] + ['\\' as int];
    WriteSplitting(e, [ESC], ['\\' as int]);
    FeedOne(e, ESC);
    CutLink(url);
    assert Step(e, ESC) == e1;
    FeedOne(e1, '\\' as int);
    GroundAscii(e1, '\\' as int);
  }
}
