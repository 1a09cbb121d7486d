/** The renderer as it runs: cell by cell into one buffer, with the style the terminal will be
    drawing in beside it. */
module Paint {
  import opened Vt
  import opened Render
  import Utf8

  // The codes of what is on in one style and not in the other.
  method Attributes(from: Style, to: Style) returns (codes: seq<nat>)
    ensures codes == Codes(from, to, 0)
  {
    hide ColorCodes, Codes;
    codes := [];
    var k := 0;
    while k < |ORDER|
      invariant k <= |ORDER| && codes + Codes(from, to, k) == Codes(from, to, 0)
    {
      OneMoreAttribute(from, to, k);
      if ORDER[k] in to.attrs && ORDER[k] !in from.attrs {
        codes := codes + [CODES[k]];
      }
      k := k + 1;
    }
    OnlyColours(from, to);
    if to.fg != from.fg {
      codes := codes + ColorCodes(to.fg, false);
    }
    if to.bg != from.bg {
      codes := codes + ColorCodes(to.bg, true);
    }
  }

  lemma OneMoreAttribute(from: Style, to: Style, k: nat)
    requires k < |ORDER|
    ensures Codes(from, to, k) == (if ORDER[k] in to.attrs && ORDER[k] !in from.attrs then [CODES[k]]
      else []) + Codes(from, to, k + 1)
  {
    hide PairCodes;
  }

  lemma OnlyColours(from: Style, to: Style)
    ensures Codes(from, to, |ORDER|) == PairCodes(from, to)
  {
    hide PairCodes;
  }

  // From one style to another.
  method Sgr(from: Style, to: Style) returns (b: seq<Byte>)
    ensures b == SgrBytes(from, to)
  {
    hide TurnsSomethingOff, Codes;
    b := [];
    var base := from;
    if TurnsSomethingOff(from, to) {
      b, base := RESET, PLAIN;
    }
    var codes := Attributes(base, to);
    if codes != [] {
      b := b + CsiBytes(codes, 'm' as int);
    }
  }

  // One cell, and the style the terminal is then drawing in.
  method PaintCell(cell: Cell, style: Style) returns (b: seq<Byte>, style': Style)
    ensures b == CellBytes(cell, style) && style' == cell.style
  {
    hide SgrBytes, Utf8.EncodeAll;
    b, style' := [], style;
    if cell.style.link != style'.link {
      b := LinkBytes(cell.style.link);
      style' := style'.(link := cell.style.link);
    }
    if cell.style != style' {
      var codes := Sgr(style', cell.style);
      b := b + codes;
      style' := cell.style;
    }
    b := b + Utf8.EncodeAll(Content(cell));
  }

  method PaintRow(cells: seq<Cell>, style: Style) returns (b: seq<Byte>, style': Style)
    ensures b == RowBytes(cells, style) && style' == RowStyle(cells, style)
  {
    hide CellBytes;
    b, style' := [], style;
    var c := 0;
    while c < |cells|
      invariant 0 <= c <= |cells|
      invariant b + RowBytes(cells[c..], style') == RowBytes(cells, style)
      invariant RowStyle(cells[c..], style') == RowStyle(cells, style)
    {
      OneMoreCell(cells, c, style');
      if !(cells[c].content == [] && cells[c].width == 0) {
        var drawn, next := PaintCell(cells[c], style');
        assert b + (drawn + RowBytes(cells[c + 1..], next)) == (b + drawn) + RowBytes(cells[c + 1..], next);
        b, style' := b + drawn, next;
      }
      c := c + 1;
    }
  }

  lemma OneMoreCell(cells: seq<Cell>, c: nat, style: Style)
    requires c < |cells|
    ensures RowBytes(cells[c..], style) == if Skipped(cells[c]) then RowBytes(cells[c + 1..],
      style) else CellBytes(cells[c], style) + RowBytes(cells[c + 1..], cells[c].style)
    ensures RowStyle(cells[c..], style) == RowStyle(cells[c + 1..], if Skipped(cells[c]) then style else cells[c].style)
  {
    assert cells[c..][1..] == cells[c + 1..];
  }

  lemma OneMoreRow(rows: seq<seq<Cell>>, r: nat, style: Style)
    requires r < |rows|
    ensures RowsBytes(rows[r..], r, style) ==
      (if r > 0 then CsiBytes([r + 1, 1], 'H' as int) else []) + RowBytes(rows[r], style) + RowsBytes(rows[r + 1..],
        r + 1, RowStyle(rows[r], style))
    ensures RowsStyle(rows[r..], style) == RowsStyle(rows[r + 1..], RowStyle(rows[r], style))
  {
    hide RowBytes, RowStyle;
    assert rows[r..][1..] == rows[r + 1..];
  }

  // The character that fills the last column, written once more, or as much of that as there is.
  method PaintPending(f: Frame, style: Style) returns (b: seq<Byte>)
    requires f.cols >= 2
    ensures b == PendingBytes(f, style)
  {
    hide SgrBytes, Utf8.EncodeAll, WidthAt, Content, CsiBytes, ShowCursor, LinkBytes;
    b := [];
    var style' := style;
    if 0 <= f.cur.row < |f.cells| && |f.cells[f.cur.row]| == f.cols {
      var cells := f.cells[f.cur.row];
      var w := WidthAt(cells, f.cols - 1);
      assert 1 <= w <= 2 by { Narrow(cells, f.cols - 1); }
      var cell := cells[f.cols - w];
      var codes := Sgr(style', cell.style);
      b := CsiBytes([f.cur.row + 1, f.cols - w + 1], 'H' as int) + codes + Utf8.EncodeAll(Content(cell));
      style' := cell.style;
    }
    if style'.link != [] {
      b := b + LinkBytes([]);
      style' := style'.(link := []);
    }
    if style' != PLAIN {
      b := b + RESET;
    }
    b := b + ShowCursor(f.cur.visible);
  }

  lemma Narrow(cells: seq<Cell>, col: int)
    ensures 1 <= WidthAt(cells, col) <= 2
  {
  }

  method PaintRows(rows: seq<seq<Cell>>) returns (b: seq<Byte>, style: Style)
    ensures b == RowsBytes(rows, 0, PLAIN) && style == RowsStyle(rows, PLAIN)
  {
    hide RowBytes, RowsBytes, RowStyle, RowsStyle;
    b, style := [], PLAIN;
    var r := 0;
    assert rows[0..] == rows;
    while r < |rows|
      invariant 0 <= r <= |rows|
      invariant b + RowsBytes(rows[r..], r, style) == RowsBytes(rows, 0, PLAIN)
      invariant RowsStyle(rows[r..], style) == RowsStyle(rows, PLAIN)
    {
      OneMoreRow(rows, r, style);
      if r > 0 {
        b := b + CsiBytes([r + 1, 1], 'H' as int);
      }
      var drawn, next := PaintRow(rows[r], style);
      b, style := b + drawn, next;
      r := r + 1;
    }
    assert rows[r..] == [];
    NoMoreRows(r, style);
  }

  lemma NoMoreRows(r: nat, style: Style)
    ensures RowsBytes([], r, style) == [] && RowsStyle([], style) == style
  {
  }

  // The bytes that draw a screen, cursor included.
  method Screen(f: Frame) returns (b: seq<Byte>)
    requires f.cols >= 2 && f.cur.row >= 0 && f.cur.col >= 0
    requires |f.cells| == f.rows && forall r :: 0 <= r < f.rows ==> |f.cells[r]| == f.cols
    ensures b == Render.Screen(f)
  {
    hide RowsBytes, RowsStyle, PendingBytes, CsiBytes, LinkBytes, ShowCursor;
    var rows, style := PaintRows(f.cells);
    b := PROLOGUE + rows;
    if style != PLAIN {
      b := b + RESET;
    }
    if f.pending {
      var again := PaintPending(f, style);
      b := b + again;
      return;
    }
    if style.link != [] {
      b := b + LinkBytes([]);
    }
    b := b + CsiBytes([f.cur.row + 1, f.cur.col + 1], 'H' as int) + ShowCursor(f.cur.visible);
  }
}
