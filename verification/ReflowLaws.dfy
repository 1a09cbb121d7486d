/** A resize keeps every paragraph: what reflow preserves, exactly when, and what a chain of resizes
    comes to. */
module ReflowLaws {
  import opened Vt
  import opened Grid
  import opened Reflow
  import opened Paragraphs

  // A primary screen whose rows are whole characters as far as they are written, with the cursor
  // on a character and not on the second half of one.
  ghost predicate Reflowable(t: Term) {
    Inv(t) && t.alt.None? && AllPiecesSound(TextPieces(t))
  }

  // The rows a terminal's text makes at a new width.
  function NewRows(t: Term, cols: nat): Laid
    requires cols >= 2
  {
    LayOut(LogicalLines(t), cols)
  }

  // Whether rows fit: those above the screen in the scrollback, and the cursor's among those on it.
  ghost predicate Fits(out: Laid, limit: nat, rows: nat)
    requires rows >= 1
  {
    Start(|out.lines|, out.row, rows) <= limit && out.row >= |out.lines| - rows
  }

  // Whether a resize to this size keeps everything.
  ghost predicate KeepsAll(t: Term, cols: nat, rows: nat)
    requires cols >= 2 && rows >= 1
  {
    Fits(NewRows(t, cols), t.limit, rows)
  }

  // ---------------------------------------------------------------- the text of a terminal

  lemma {:induction false} TextRowsReach(lines: seq<Line>, row: int)
    requires 0 <= row < |lines|
    ensures var n := TextRows(lines, row);
            row < n && (n - 1 == row || lines[n - 1].used > 0)
    decreases |lines|
  {
    if !(row >= |lines| - 1 || lines[|lines| - 1].used > 0) {
      TextRowsReach(lines[..|lines| - 1], row);
    }
  }

  lemma {:induction false} TextRowsPadded(text: seq<Line>, cols: nat, k: nat, row: int)
    requires 0 <= row < |text| && (row == |text| - 1 || text[|text| - 1].used > 0)
    ensures TextRows(text + BlankLines(cols, k), row) == |text|
  {
    var lines := text + BlankLines(cols, k);
    if k == 0 {
      assert lines == text;
    } else {
      assert lines[..|lines| - 1] == text + BlankLines(cols, k - 1);
      TextRowsPadded(text, cols, k - 1, row);
    }
  }

  // What a terminal's text is made of: sound paragraphs, one of which has the cursor.
  lemma TextSound(t: Term)
    requires Reflowable(t)
    ensures Text(LogicalLines(t))
  {
    hide JoinPieces, TextRows, Sound;
    var n := TextRows(t.lines, t.cur.row);
    TextRowsReach(t.lines, t.cur.row);
    var screen := Pieces(t.lines[..n], t.cur.row, t.cur.col);
    PiecesOneMark(t.lines[..n], t.cur.row, t.cur.col);
    NoMarkThenOne(Pieces(t.hist, -1, -1), screen);
    var ps := TextPieces(t);
    assert ps[|ps| - 1] == screen[n - 1] == RowPiece(t.lines[n - 1], if n - 1 == t.cur.row then t.cur.col else -1);
    JoinOneMark(ps);
    JoinLasting(ps);
  }

  // ---------------------------------------------------------------- rows on a screen

  // How many rows are dropped because the scrollback is full.
  function Dropped(out: Laid, limit: nat, rows: nat): nat
    requires rows >= 1
  {
    Max(Start(|out.lines|, out.row, rows) - limit, 0)
  }

  ghost predicate Layable(out: Laid, cols: nat) {
    Sized(out.lines, cols, |out.lines|) && UsedFits(out.lines) && 0 <= out.row < |out.lines| && 0 <= out.col < cols
  }

  // Where the rows go when the cursor's is one of the last: the first ones into the scrollback, as
  // many as it holds, the rest onto the screen, blank rows below them.
  lemma RelayPlaces(t: Term, out: Laid, cols: nat, rows: nat)
    requires cols >= 2 && rows >= 1 && Layable(out, cols) && out.row >= |out.lines| - rows
    ensures var n := |out.lines|; var start := Start(n, out.row, rows); var d := Dropped(out, t.limit, rows);
            var t' := Relay(t, out, cols, rows);
            && d <= start <= out.row && n - start <= rows
            && t'.hist == out.lines[d..start]
            && t'.lines == out.lines[start..] + BlankLines(cols, rows - (n - start))
            && t'.cur.row == out.row - start && t'.cur.col == out.col
  {
    var start := Start(|out.lines|, out.row, rows);
    assert out.lines[start..Min(start + rows, |out.lines|)] == out.lines[start..];
  }

  // Such a screen and scrollback are read back as the rows they were made of.
  lemma PiecesOfPlaces(t: Term, lines: seq<Line>, row: int, start: nat, cols: nat, k: nat)
    requires 0 <= start <= row < |lines| && t.cur.col >= 0
    requires row == |lines| - 1 || lines[|lines| - 1].used > 0
    requires t.hist == lines[..start] && t.lines == lines[start..] + BlankLines(cols, k) && t.cur.row == row - start
    ensures TextPieces(t) == Pieces(lines, row, t.cur.col)
  {
    var text := lines[start..];
    TextRowsPadded(text, cols, k, row - start);
    assert t.lines[..|text|] == text;
    assert lines == lines[..start] + text;
    PiecesSplit(lines[..start], text, row, t.cur.col);
    assert Pieces(lines[..start], row, t.cur.col) == Pieces(lines[..start], -1, -1);
  }

  lemma KeptPieces(t: Term, out: Laid, d: nat, start: nat, cols: nat, rows: nat)
    requires d <= start <= out.row < |out.lines| && out.col >= 0 && |out.lines| - start <= rows
    requires out.row == |out.lines| - 1 || out.lines[|out.lines| - 1].used > 0
    requires t.hist == out.lines[d..start]
    requires t.lines == out.lines[start..] + BlankLines(cols, rows - (|out.lines| - start))
    requires t.cur.row == out.row - start && t.cur.col == out.col
    ensures TextPieces(t) == Pieces(out.lines[d..], out.row - d, out.col)
  {
    var kept := out.lines[d..];
    assert kept[..start - d] == out.lines[d..start];
    assert kept[start - d..] == out.lines[start..];
    assert kept[|kept| - 1] == out.lines[|out.lines| - 1];
    PiecesOfPlaces(t, kept, out.row - d, start - d, cols, rows - (|out.lines| - start));
  }

  lemma RelayPieces(t: Term, out: Laid, cols: nat, rows: nat)
    requires cols >= 2 && rows >= 1 && Layable(out, cols) && out.row >= |out.lines| - rows
    requires out.row == |out.lines| - 1 || out.lines[|out.lines| - 1].used > 0
    ensures var d := Dropped(out, t.limit, rows);
            && d <= out.row
            && TextPieces(Relay(t, out, cols, rows)) == Pieces(out.lines[d..], out.row - d, out.col)
  {
    RelayPlaces(t, out, cols, rows);
    KeptPieces(Relay(t, out, cols, rows), out, Dropped(out, t.limit, rows),
               Start(|out.lines|, out.row, rows), cols, rows);
  }

  // Rows that fit are read back as the same text.
  lemma RelayKeeps(t: Term, out: Laid, ls: seq<Logical>, cols: nat, rows: nat)
    requires cols >= 2 && rows >= 1 && Layable(out, cols) && LaidWell(out, ls) && Fits(out, t.limit, rows)
    ensures var t' := Relay(t, out, cols, rows);
            LogicalLines(t') == ls && AllPiecesSound(TextPieces(t'))
  {
    RelayPieces(t, out, cols, rows);
    assert out.lines[0..] == out.lines;
  }

  // ---------------------------------------------------------------- rows that do not fit

  lemma RelayDrops(t: Term, out: Laid, ls: seq<Logical>, cols: nat, rows: nat)
    requires cols >= 2 && rows >= 1 && Layable(out, cols) && LaidWell(out, ls)
    requires out.row >= |out.lines| - rows && Dropped(out, t.limit, rows) > 0
    ensures LogicalLines(Relay(t, out, cols, rows)) != ls
  {
    hide Relay, TextPieces, JoinPieces, Pieces, TextWeight, Start, Sized, UsedFits;
    RelayPieces(t, out, cols, rows);
    DroppedWeight(out, Dropped(out, t.limit, rows));
  }

  // A cursor that is above the screen: where the rows go then.
  lemma AbovePlaces(t: Term, out: Laid, cols: nat, rows: nat)
    requires cols >= 2 && rows >= 1 && Layable(out, cols) && out.row < |out.lines| - rows
    ensures var t' := Relay(t, out, cols, rows);
            t'.lines == out.lines[|out.lines| - rows..] && t'.cur.row == 0 && t'.cur.col == out.col
  {
    var start := |out.lines| - rows;
    assert Start(|out.lines|, out.row, rows) == start;
    assert out.lines[start..Min(start + rows, |out.lines|)] == out.lines[start..];
    assert out.lines[start..] + BlankLines(cols, 0) == out.lines[start..];
  }

  lemma AbovePieces(t: Term, lines: seq<Line>)
    requires lines != [] && (|lines| == 1 || lines[|lines| - 1].used > 0)
    requires t.lines == lines && t.cur.row == 0
    ensures TextPieces(t) == Pieces(t.hist, -1, -1) + Pieces(lines, 0, t.cur.col)
  {
    assert lines + BlankLines(t.cols, 0) == lines;
    TextRowsPadded(lines, t.cols, 0, 0);
    assert t.lines[..|lines|] == lines;
  }

  lemma TextTailAbove(hist: seq<Line>, out: Laid, start: nat)
    requires Solid(out) && UsedFits(out.lines) && 0 <= start < |out.lines| && out.col >= 0
    ensures var screen := Pieces(out.lines[start..], 0, out.col);
            TextTail(JoinPieces(Pieces(hist, -1, -1) + screen)) == Tail(screen)
  {
    var above, screen := Pieces(hist, -1, -1), Pieces(out.lines[start..], 0, out.col);
    EndedPieces(out.lines[start..], 0, out.col);
    PiecesOneMark(out.lines[start..], 0, out.col);
    NoMarkThenOne(above, screen);
    TailConcat(above, screen);
    assert (above + screen)[|above + screen| - 1] == screen[|screen| - 1];
    JoinTail(above + screen);
  }

  lemma RelayMoves(t: Term, out: Laid, ls: seq<Logical>, cols: nat, rows: nat)
    requires cols >= 2 && rows >= 1 && Layable(out, cols) && LaidWell(out, ls)
    requires out.row < |out.lines| - rows
    ensures LogicalLines(Relay(t, out, cols, rows)) != ls
  {
    hide Relay;
    var start := |out.lines| - rows;
    AbovePlaces(t, out, cols, rows);
    AbovePieces(Relay(t, out, cols, rows), out.lines[start..]);
    TextTailAbove(Relay(t, out, cols, rows).hist, out, start);
    MovedTail(out, start);
    EndedPieces(out.lines, out.row, out.col);
    PiecesOneMark(out.lines, out.row, out.col);
    JoinTail(Pieces(out.lines, out.row, out.col));
  }

  // ---------------------------------------------------------------- the theorems

  // A resize keeps the paragraphs - the cells of each, where it ends, and the cursor's place in it -
  // exactly when no row falls off the scrollback and the cursor's row is on the screen.
  lemma ReflowKeepsExactly(t: Term, cols: nat, rows: nat)
    requires Reflowable(t) && cols >= 2 && rows >= 1
    ensures LogicalLines(ReflowTo(t, cols, rows)) == LogicalLines(t) <==> KeepsAll(t, cols, rows)
  {
    var ls, out := LogicalLines(t), NewRows(t, cols);
    TextSound(t);
    LaidOut(ls, cols);
    if KeepsAll(t, cols, rows) {
      RelayKeeps(t, out, ls, cols, rows);
    } else if out.row < |out.lines| - rows {
      RelayMoves(t, out, ls, cols, rows);
    } else {
      RelayDrops(t, out, ls, cols, rows);
    }
  }

  lemma ReflowInv(t: Term, cols: nat, rows: nat)
    requires Inv(t) && t.alt.None? && cols >= 2 && rows >= 1
    ensures var t' := ReflowTo(t, cols, rows);
            Inv(t') && t'.alt.None? && Resize(t, cols, rows) == t'
  {
  }

  // What a resize leaves can be resized again.
  lemma ReflowableAgain(t: Term, cols: nat, rows: nat)
    requires Reflowable(t) && cols >= 2 && rows >= 1 && KeepsAll(t, cols, rows)
    ensures Reflowable(Resize(t, cols, rows))
  {
    TextSound(t);
    LaidOut(LogicalLines(t), cols);
    RelayKeeps(t, NewRows(t, cols), LogicalLines(t), cols, rows);
    ReflowInv(t, cols, rows);
  }

  lemma RelayTwice(t: Term, out1: Laid, cols1: nat, rows1: nat, out2: Laid, cols2: nat, rows2: nat)
    requires Relay.requires(t, out1, cols1, rows1)
    requires Relay.requires(t, out2, cols2, rows2)
    ensures Relay(Relay(t, out1, cols1, rows1), out2, cols2, rows2) == Relay(t, out2, cols2, rows2)
    ensures Relay(t, out1, cols1, rows1).limit == t.limit
  {
  }

  datatype Size = Size(cols: nat, rows: nat)

  ghost predicate Possible(sizes: seq<Size>) {
    forall i :: 0 <= i < |sizes| ==> sizes[i].cols >= 2 && sizes[i].rows >= 1
  }

  function ResizeAll(t: Term, sizes: seq<Size>): (t': Term)
    requires Inv(t) && Possible(sizes)
    ensures Inv(t')
    decreases |sizes|
  {
    if sizes == [] then t else ResizeAll(Resize(t, sizes[0].cols, sizes[0].rows), sizes[1..])
  }

  // Of what a resize changes, the next one reads the text alone.
  lemma ResizeTwice(t: Term, cols1: nat, rows1: nat, cols2: nat, rows2: nat)
    requires cols1 >= 2 && rows1 >= 1 && cols2 >= 2 && rows2 >= 1
    requires LogicalLines(ReflowTo(t, cols1, rows1)) == LogicalLines(t)
    ensures var t' := ReflowTo(t, cols1, rows1);
            && ReflowTo(t', cols2, rows2) == ReflowTo(t, cols2, rows2)
            && (KeepsAll(t', cols2, rows2) <==> KeepsAll(t, cols2, rows2))
  {
    RelayTwice(t, NewRows(t, cols1), cols1, rows1, NewRows(t, cols2), cols2, rows2);
  }

  // Dragging a window through any sizes ends exactly as going to the last one at once: the same
  // screen, scrollback and cursor. What each size on the way must do - keep all of the text - is
  // asked of the text as it was at the start.
  lemma {:induction false} ResizeChain(t: Term, sizes: seq<Size>, cols: nat, rows: nat)
    requires Reflowable(t) && Possible(sizes) && cols >= 2 && rows >= 1
    requires forall i :: 0 <= i < |sizes| ==> KeepsAll(t, sizes[i].cols, sizes[i].rows)
    ensures Resize(ResizeAll(t, sizes), cols, rows) == Resize(t, cols, rows)
    decreases |sizes|
  {
    if sizes != [] {
      var c, r := sizes[0].cols, sizes[0].rows;
      ReflowKeepsExactly(t, c, r);
      ReflowableAgain(t, c, r);
      forall i | 0 <= i < |sizes[1..]|
        ensures KeepsAll(Resize(t, c, r), sizes[1..][i].cols, sizes[1..][i].rows)
      {
        assert sizes[1..][i] == sizes[i + 1];
        ResizeTwice(t, c, r, sizes[i + 1].cols, sizes[i + 1].rows);
      }
      ResizeChain(Resize(t, c, r), sizes[1..], cols, rows);
      ResizeTwice(t, c, r, cols, rows);
    }
  }
}
