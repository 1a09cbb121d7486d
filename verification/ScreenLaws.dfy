/** What the control sequences do to the screen, cell by cell and row by row, from their bytes. */
module ScreenLaws {
  import opened Vt
  import opened Grid
  import opened Parser
  import opened ParserLaws
  import opened Render
  import opened SgrLaws
  import opened DrawLaws
  import opened Runs

  // A sequence with these parameters was fed, and this is the terminal then.
  ghost predicate Does(t: Term, p: Parser, ns: seq<nat>, final: Byte, t': Term)
    requires Inv(t)
  {
    Became(Feed(Emu(t, p), CsiBytes(ns, final)), t')
  }

  lemma Performs(t: Term, p: Parser, ns: seq<nat>, final: Byte)
    requires Inv(t) && Quiet(p) && 0x40 <= final <= 0x7e
    ensures Does(t, p, ns, final, Perform(t, ns, [], final))
  {
    hide Step, Feed, Perform, CsiBytes;
    FeedCsi(Emu(t, p), ns, final);
  }

  // ---------------------------------------------------------------- the cursor

  // Up and down by n: a margin stops what begins on its near side, and the edge what does not.
  lemma MovesVertically(t: Term, p: Parser, n: nat)
    requires Inv(t) && Quiet(p) && n > 0
    ensures var up := Max(t.cur.row - n, if t.cur.row >= t.top then t.top else 0);
            && Does(t, p, [n], 'A' as int, t.(cur := t.cur.(row := up), pend := false))
            && Does(t, p, [n], 'F' as int, t.(cur := t.cur.(row := up, col := 0), pend := false))
    ensures var down := Min(t.cur.row + n, if t.cur.row <= t.bottom then t.bottom else t.rows - 1);
            && Does(t, p, [n], 'B' as int, t.(cur := t.cur.(row := down), pend := false))
            && Does(t, p, [n], 'E' as int, t.(cur := t.cur.(row := down, col := 0), pend := false))
  {
    hide Does, Inv;
    Upright(t);
    Performs(t, p, [n], 'A' as int);
    Performs(t, p, [n], 'B' as int);
    Performs(t, p, [n], 'E' as int);
    Performs(t, p, [n], 'F' as int);
  }

  lemma Upright(t: Term)
    requires Inv(t)
    ensures 0 <= t.cur.row < t.rows && 0 <= t.cur.col < t.cols && 0 <= t.top <= t.bottom < t.rows
  {
  }

  // Right and left by n, to a column, to a row, and to both; never off the screen.
  lemma MovesAcross(t: Term, p: Parser, n: nat, m: nat)
    requires Inv(t) && Quiet(p) && n > 0 && m > 0
    ensures Does(t, p, [n], 'C' as int, t.(cur := t.cur.(col := Min(t.cur.col + n, t.cols - 1)), pend := false))
    ensures Does(t, p, [n], 'D' as int, t.(cur := t.cur.(col := Max(t.cur.col - n, 0)), pend := false))
    ensures Does(t, p, [n], 'G' as int, t.(cur := t.cur.(col := Min(n, t.cols) - 1), pend := false))
    ensures Does(t, p, [n], 'd' as int, t.(cur := t.cur.(row := Min(n, t.rows) - 1), pend := false))
    ensures Does(t, p, [n, m], 'H' as int, t.(cur := t.cur.(row := Min(n, t.rows) - 1, col := Min(m, t.cols) - 1), pend := false))
  {
    hide Does, Inv;
    Upright(t);
    Performs(t, p, [n], 'C' as int);
    Performs(t, p, [n], 'D' as int);
    Performs(t, p, [n], 'G' as int);
    Performs(t, p, [n], 'd' as int);
    Performs(t, p, [n, m], 'H' as int);
  }

  // A movement or a shift without a count, or with none, is by one.
  lemma OneByDefault(t: Term, p: Parser, final: Byte)
    requires Inv(t) && Quiet(p) && final in COUNTED
    ensures Does(t, p, [], final, Perform(t, [1], [], final)) && Does(t, p, [0], final, Perform(t, [1], [], final))
  {
    hide Does, Inv;
    Performs(t, p, [], final);
    Performs(t, p, [0], final);
    SameCount(t, final);
  }

  const COUNTED: set<int> :=
    {'A' as int, 'B' as int, 'C' as int, 'D' as int, 'E' as int, 'F' as int, 'L' as int, 'M' as int, 'P' as int, '@' as int,
     'X' as int, 'S' as int, 'T' as int}

  lemma SameCount(t: Term, final: Byte)
    requires Inv(t) && final in COUNTED
    ensures Perform(t, [], [], final) == Perform(t, [1], [], final) == Perform(t, [0], [], final)
  {
    hide Inv, MoveVertically, MoveTo, InsertLines, DeleteLines, DeleteChars, InsertChars, EraseInRow, ScrollUp, ScrollDown;
  }

  // A cursor saved is put back where it was, brought inside the screen, with the style it was saved with
  // and as visible as it is now.
  lemma SavesAndRestores(t: Term, p: Parser, u: Term, q: Parser)
    requires Inv(t) && Quiet(p) && Inv(u) && Quiet(q)
    requires u.saved == t.cur && u.savedStyle == t.style
    ensures Does(t, p, [], 's' as int, t.(saved := t.cur, savedStyle := t.style))
    ensures Does(u, q, [], 'u' as int,
      u.(cur := t.cur.(row := Min(t.cur.row, u.rows - 1), col := Min(t.cur.col, u.cols - 1), visible := u.cur.visible),
         style := t.style, pend := false))
  {
    hide Does, Inv;
    Upright(t);
    Upright(u);
    Performs(t, p, [], 's' as int);
    Performs(u, q, [], 'u' as int);
  }

  // ---------------------------------------------------------------- erasing

  // The terminal is the same but for the cells of these rows and columns, which are blank in the
  // background of the style in force.
  ghost predicate Blanked(t: Term, t': Term, blank: (int, int) -> bool)
    requires Inv(t)
  {
    && t' == t.(lines := t'.lines) && |t'.lines| == |t.lines|
    && forall r :: 0 <= r < t.rows ==>
         && |t'.lines[r].cells| == t.cols && t'.lines[r].wrapped == t.lines[r].wrapped && t'.lines[r].used == t.lines[r].used
         && forall c :: 0 <= c < t.cols ==>
              t'.lines[r].cells[c] == if blank(r, c) then Cell([0x20], 1, PLAIN.(bg := t.style.bg)) else t.lines[r].cells[c]
  }

  ghost predicate Erases(t: Term, p: Parser, ns: seq<nat>, final: Byte, blank: (int, int) -> bool)
    requires Inv(t)
  {
    var e := Feed(Emu(t, p), CsiBytes(ns, final));
    e.Emu? && Quiet(e.p) && Blanked(t, e.t, blank)
  }

  lemma ErasesIf(t: Term, p: Parser, ns: seq<nat>, final: Byte, blank: (int, int) -> bool)
    requires Inv(t) && Quiet(p) && 0x40 <= final <= 0x7e && Blanked(t, Perform(t, ns, [], final), blank)
    ensures Erases(t, p, ns, final, blank)
  {
    hide Perform, Blanked, Feed, Step, CsiBytes;
    Performs(t, p, ns, final);
  }

  lemma BlanksLine(t: Term, k: nat, blank: (int, int) -> bool)
    requires Inv(t) && k <= 2
    requires forall r, c :: 0 <= r < t.rows && 0 <= c < t.cols ==>
      (blank(r, c) <==> r == t.cur.row && (k == 0 ==> c >= EffCol(t)) && (k == 1 ==> c <= EffCol(t)))
    ensures Blanked(t, Perform(t, [k], [], 'K' as int), blank)
  {
    BlanksRow(t, if k == 0 then EffCol(t) else 0, if k == 1 then EffCol(t) else t.cols - 1, blank);
  }

  lemma BlanksSome(t: Term, n: nat, blank: (int, int) -> bool)
    requires Inv(t) && n > 0
    requires forall r, c :: 0 <= r < t.rows && 0 <= c < t.cols ==>
      (blank(r, c) <==> r == t.cur.row && EffCol(t) <= c < EffCol(t) + n)
    ensures Blanked(t, Perform(t, [n], [], 'X' as int), blank)
  {
    BlanksRow(t, EffCol(t), EffCol(t) + n - 1, blank);
  }

  lemma BlanksRow(t: Term, from: int, to: int, blank: (int, int) -> bool)
    requires Inv(t)
    requires forall r, c :: 0 <= r < t.rows && 0 <= c < t.cols ==> (blank(r, c) <==> r == t.cur.row && from <= c <= to)
    ensures Blanked(t, EraseInRow(t, t.cur.row, from, to), blank)
  {
  }

  lemma BlanksScreen(t: Term, k: nat, blank: (int, int) -> bool)
    requires Inv(t) && k <= 2
    requires forall r, c :: 0 <= r < t.rows && 0 <= c < t.cols ==>
      (blank(r, c) <==> && (k == 0 ==> r > t.cur.row || (r == t.cur.row && c >= t.cur.col))
                        && (k == 1 ==> r < t.cur.row || (r == t.cur.row && c <= t.cur.col)))
    ensures Blanked(t, Perform(t, [k], [], 'J' as int), blank)
  {
    assert Perform(t, [k], [], 'J' as int) == EraseDisplay(t, k);
    hide Perform, Blanked, EraseRows, EraseInRow;
    if k == 0 {
      BlanksFrom(t, blank);
    } else if k == 1 {
      BlanksTo(t, blank);
    } else {
      BlanksAll(t, blank);
    }
  }

  lemma BlanksAll(t: Term, blank: (int, int) -> bool)
    requires Inv(t) && forall r, c :: 0 <= r < t.rows && 0 <= c < t.cols ==> blank(r, c)
    ensures Blanked(t, EraseRows(t, 0, t.rows), blank)
  {
  }

  lemma BlanksFrom(t: Term, blank: (int, int) -> bool)
    requires Inv(t)
    requires forall r, c :: 0 <= r < t.rows && 0 <= c < t.cols ==>
      (blank(r, c) <==> r > t.cur.row || (r == t.cur.row && c >= t.cur.col))
    ensures Blanked(t, EraseRows(EraseInRow(t, t.cur.row, t.cur.col, t.cols - 1), t.cur.row + 1, t.rows), blank)
  {
  }

  lemma BlanksTo(t: Term, blank: (int, int) -> bool)
    requires Inv(t)
    requires forall r, c :: 0 <= r < t.rows && 0 <= c < t.cols ==>
      (blank(r, c) <==> r < t.cur.row || (r == t.cur.row && c <= t.cur.col))
    ensures Blanked(t, EraseInRow(EraseRows(t, 0, t.cur.row), t.cur.row, 0, t.cur.col), blank)
  {
  }

  // In the cursor's row: from the cursor on, up to it, all of it, or so many from it on. A cursor that
  // waits to wrap is past the edge.
  lemma ErasesLine(t: Term, p: Parser, n: nat)
    requires Inv(t) && Quiet(p) && n > 0
    ensures var col := if t.pend then t.cols else t.cur.col;
            && Erases(t, p, [0], 'K' as int, (r, c) => r == t.cur.row && c >= col)
            && Erases(t, p, [1], 'K' as int, (r, c) => r == t.cur.row && c <= col)
            && Erases(t, p, [2], 'K' as int, (r, c) => r == t.cur.row)
            && Erases(t, p, [n], 'X' as int, (r, c) => r == t.cur.row && col <= c < col + n)
  {
    hide Erases, Blanked, Perform;
    var col := if t.pend then t.cols else t.cur.col;
    BlanksLine(t, 0, (r, c) => r == t.cur.row && c >= col);
    BlanksLine(t, 1, (r, c) => r == t.cur.row && c <= col);
    BlanksLine(t, 2, (r, c) => r == t.cur.row);
    BlanksSome(t, n, (r, c) => r == t.cur.row && col <= c < col + n);
    ErasesIf(t, p, [0], 'K' as int, (r, c) => r == t.cur.row && c >= col);
    ErasesIf(t, p, [1], 'K' as int, (r, c) => r == t.cur.row && c <= col);
    ErasesIf(t, p, [2], 'K' as int, (r, c) => r == t.cur.row);
    ErasesIf(t, p, [n], 'X' as int, (r, c) => r == t.cur.row && col <= c < col + n);
  }

  // Of the whole screen: from the cursor on, up to it, or all of it.
  lemma ErasesScreen(t: Term, p: Parser)
    requires Inv(t) && Quiet(p)
    ensures Erases(t, p, [0], 'J' as int, (r, c) => r > t.cur.row || (r == t.cur.row && c >= t.cur.col))
    ensures Erases(t, p, [1], 'J' as int, (r, c) => r < t.cur.row || (r == t.cur.row && c <= t.cur.col))
    ensures Erases(t, p, [2], 'J' as int, (r, c) => true)
  {
    hide Erases, Blanked, Perform;
    BlanksScreen(t, 0, (r, c) => r > t.cur.row || (r == t.cur.row && c >= t.cur.col));
    BlanksScreen(t, 1, (r, c) => r < t.cur.row || (r == t.cur.row && c <= t.cur.col));
    BlanksScreen(t, 2, (r, c) => true);
    ErasesIf(t, p, [0], 'J' as int, (r, c) => r > t.cur.row || (r == t.cur.row && c >= t.cur.col));
    ErasesIf(t, p, [1], 'J' as int, (r, c) => r < t.cur.row || (r == t.cur.row && c <= t.cur.col));
    ErasesIf(t, p, [2], 'J' as int, (r, c) => true);
  }

  // ---------------------------------------------------------------- rows that move

  // Rows from..to are n rows further up, and as many blank ones have come in below them.
  ghost predicate RowsUp(lines: seq<Line>, lines': seq<Line>, from: int, to: int, n: nat, cols: nat)
    requires 0 <= from <= to < |lines|
  {
    |lines'| == |lines| && forall r :: 0 <= r < |lines| ==> lines'[r] == RowFromBelow(lines, from, to, n, cols, r)
  }

  function RowFromBelow(lines: seq<Line>, from: int, to: int, n: nat, cols: nat, r: nat): Line
    requires 0 <= from <= to < |lines| && r < |lines|
  {
    if r < from || r > to then lines[r] else if r + n <= to then lines[r + n] else BlankLine(cols)
  }

  // Or further down, with the blank ones above them.
  ghost predicate RowsDown(lines: seq<Line>, lines': seq<Line>, from: int, to: int, n: nat, cols: nat)
    requires 0 <= from <= to < |lines|
  {
    |lines'| == |lines| && forall r :: 0 <= r < |lines| ==> lines'[r] == RowFromAbove(lines, from, to, n, cols, r)
  }

  function RowFromAbove(lines: seq<Line>, from: int, to: int, n: nat, cols: nat, r: nat): Line
    requires 0 <= from <= to < |lines| && r < |lines|
  {
    if r < from || r > to then lines[r] else if r - n >= from then lines[r - n] else BlankLine(cols)
  }

  lemma {:induction false} ShiftUpIs(lines: seq<Line>, from: int, to: int, cols: nat, n: nat)
    requires 0 <= from <= to < |lines| && Sized(lines, cols, |lines|)
    ensures RowsUp(lines, ShiftUp(lines, from, to, cols, n), from, to, n, cols)
    decreases n
  {
    hide RowFromBelow, UpOne, Sized, UsedFits;
    if n == 0 {
      NoneUp(lines, from, to, cols);
    } else {
      var up := UpOne(lines, from, to, BlankLine(cols));
      OneUp(lines, from, to, cols, n);
      ShiftUpIs(up, from, to, cols, n - 1);
    }
  }

  lemma NoneUp(lines: seq<Line>, from: int, to: int, cols: nat)
    requires 0 <= from <= to < |lines|
    ensures RowsUp(lines, lines, from, to, 0, cols)
  {
  }

  lemma OneUp(lines: seq<Line>, from: int, to: int, cols: nat, n: nat)
    requires 0 <= from <= to < |lines| && Sized(lines, cols, |lines|) && n > 0
    ensures var up := UpOne(lines, from, to, BlankLine(cols));
            && Sized(up, cols, |lines|)
            && forall r :: 0 <= r < |lines| ==>
                 RowFromBelow(up, from, to, n - 1, cols, r) == RowFromBelow(lines, from, to, n, cols, r)
  {
  }

  lemma {:induction false} ShiftDownIs(lines: seq<Line>, from: int, to: int, cols: nat, n: nat)
    requires 0 <= from <= to < |lines| && Sized(lines, cols, |lines|)
    ensures RowsDown(lines, ShiftDown(lines, from, to, cols, n), from, to, n, cols)
    decreases n
  {
    hide RowFromAbove, DownOne, Sized, UsedFits;
    if n == 0 {
      NoneDown(lines, from, to, cols);
    } else {
      var down := DownOne(lines, from, to, BlankLine(cols));
      OneDown(lines, from, to, cols, n);
      ShiftDownIs(down, from, to, cols, n - 1);
    }
  }

  lemma NoneDown(lines: seq<Line>, from: int, to: int, cols: nat)
    requires 0 <= from <= to < |lines|
    ensures RowsDown(lines, lines, from, to, 0, cols)
  {
  }

  lemma OneDown(lines: seq<Line>, from: int, to: int, cols: nat, n: nat)
    requires 0 <= from <= to < |lines| && Sized(lines, cols, |lines|) && n > 0
    ensures var down := DownOne(lines, from, to, BlankLine(cols));
            && Sized(down, cols, |lines|)
            && forall r :: 0 <= r < |lines| ==>
                 RowFromAbove(down, from, to, n - 1, cols, r) == RowFromAbove(lines, from, to, n, cols, r)
  {
  }

  // Inserting and deleting lines moves the rows from the cursor's down to the bottom margin, or to the
  // last row when the cursor is not between the margins. Nothing goes into the scrollback.
  lemma ShiftsLines(t: Term, p: Parser, n: nat)
    requires Inv(t) && Quiet(p) && n > 0
    ensures var last := if t.top <= t.cur.row <= t.bottom then t.bottom else t.rows - 1;
            && var e := Feed(Emu(t, p), CsiBytes([n], 'L' as int));
               e.Emu? && e.t == t.(lines := e.t.lines) && RowsDown(t.lines, e.t.lines, t.cur.row, last, n, t.cols)
    ensures var last := if t.top <= t.cur.row <= t.bottom then t.bottom else t.rows - 1;
            && var e := Feed(Emu(t, p), CsiBytes([n], 'M' as int));
               e.Emu? && e.t == t.(lines := e.t.lines) && RowsUp(t.lines, e.t.lines, t.cur.row, last, n, t.cols)
  {
    hide ShiftUp, ShiftDown, RowsUp, RowsDown, Feed, Step, CsiBytes;
    var last := if t.top <= t.cur.row <= t.bottom then t.bottom else t.rows - 1;
    Performs(t, p, [n], 'L' as int);
    Performs(t, p, [n], 'M' as int);
    ShiftDownIs(t.lines, t.cur.row, last, t.cols, n);
    ShiftUpIs(t.lines, t.cur.row, last, t.cols, n);
  }

  // Scrolling moves the rows between the margins. Downwards nothing comes out of the scrollback.
  lemma ScrollsRegion(t: Term, p: Parser, n: nat)
    requires Inv(t) && Quiet(p) && n > 0
    ensures var e := Feed(Emu(t, p), CsiBytes([n], 'S' as int));
            && e.Emu? && e.t == t.(lines := e.t.lines, hist := e.t.hist) && RowsUp(t.lines, e.t.lines, t.top, t.bottom, n, t.cols)
            && (t.alt.Some? ==> e.t.hist == t.hist)
    ensures var e := Feed(Emu(t, p), CsiBytes([n], 'T' as int));
            e.Emu? && e.t == t.(lines := e.t.lines) && RowsDown(t.lines, e.t.lines, t.top, t.bottom, n, t.cols)
  {
    hide ShiftUp, ShiftDown, RowsUp, RowsDown, Feed, Step, CsiBytes;
    Performs(t, p, [n], 'S' as int);
    Performs(t, p, [n], 'T' as int);
    ShiftDownIs(t.lines, t.top, t.bottom, t.cols, n);
    ShiftUpIs(t.lines, t.top, t.bottom, t.cols, n);
  }

  // ---------------------------------------------------------------- cells that move

  // Only the cells of the cursor's row have changed, and none if the cursor waits to wrap.
  ghost predicate RowChanged(t: Term, t': Term)
    requires Inv(t)
  {
    && |t'.lines| == |t.lines| && |t'.lines[t.cur.row].cells| == t.cols
    && t' == (if t.pend then t else t.(lines := t.lines[t.cur.row := t.lines[t.cur.row].(cells := t'.lines[t.cur.row].cells)]))
  }

  // From the cursor on, each cell is the one n further right, and blank where there was none.
  ghost predicate CharsLeft(t: Term, t': Term, n: nat)
    requires Inv(t)
  {
    && RowChanged(t, t')
    && var cells, cells' := t.lines[t.cur.row].cells, t'.lines[t.cur.row].cells;
       !t.pend ==> forall c :: 0 <= c < t.cols ==>
         cells'[c] == if c < t.cur.col then cells[c] else if c + n < t.cols then cells[c + n]
                      else Cell([0x20], 1, PLAIN.(bg := t.style.bg))
  }

  // From the cursor on there are n blank cells, and then what was there.
  ghost predicate CharsRight(t: Term, t': Term, n: nat)
    requires Inv(t)
  {
    && RowChanged(t, t')
    && var cells, cells' := t.lines[t.cur.row].cells, t'.lines[t.cur.row].cells;
       !t.pend ==> forall c :: 0 <= c < t.cols ==>
         cells'[c] == if c < t.cur.col then cells[c]
                      else if c < t.cur.col + n then Cell([0x20], 1, PLAIN.(bg := t.style.bg)) else cells[c - n]
  }

  lemma DeletesChars(t: Term, n: nat)
    requires Inv(t) && n > 0
    ensures CharsLeft(t, DeleteChars(t, n), n)
  {
  }

  lemma InsertsChars(t: Term, n: nat)
    requires Inv(t) && n > 0
    ensures CharsRight(t, InsertChars(t, n), n)
  {
  }

  lemma ShiftsChars(t: Term, p: Parser, n: nat)
    requires Inv(t) && Quiet(p) && n > 0
    ensures var e := Feed(Emu(t, p), CsiBytes([n], 'P' as int)); e.Emu? && CharsLeft(t, e.t, n)
    ensures var e := Feed(Emu(t, p), CsiBytes([n], '@' as int)); e.Emu? && CharsRight(t, e.t, n)
  {
    hide Feed, Step, CsiBytes, CharsLeft, CharsRight, DeleteChars, InsertChars;
    Performs(t, p, [n], 'P' as int);
    Performs(t, p, [n], '@' as int);
    DeletesChars(t, n);
    InsertsChars(t, n);
  }

  // ---------------------------------------------------------------- styles

  // The codes that take away: each its own attribute or colour, and nothing else.
  lemma TakesAway(t: Term, p: Parser)
    requires Inv(t) && Quiet(p)
    ensures Does(t, p, [22], 'm' as int, t.(style := t.style.(attrs := t.style.attrs - {Bold, Faint})))
    ensures Does(t, p, [23], 'm' as int, t.(style := t.style.(attrs := t.style.attrs - {Italic})))
    ensures Does(t, p, [24], 'm' as int, t.(style := t.style.(attrs := t.style.attrs - {Underline})))
    ensures Does(t, p, [25], 'm' as int, t.(style := t.style.(attrs := t.style.attrs - {Blink})))
    ensures Does(t, p, [27], 'm' as int, t.(style := t.style.(attrs := t.style.attrs - {Reverse})))
    ensures Does(t, p, [29], 'm' as int, t.(style := t.style.(attrs := t.style.attrs - {Strikethrough})))
    ensures Does(t, p, [39], 'm' as int, t.(style := t.style.(fg := Default)))
    ensures Does(t, p, [49], 'm' as int, t.(style := t.style.(bg := Default)))
    ensures Does(t, p, [], 'm' as int, t.(style := PLAIN))
  {
    hide Does, Inv;
    forall n: nat | n in {22, 23, 24, 25, 27, 29, 39, 49}
      ensures Does(t, p, [n], 'm' as int, t.(style := SgrCode(t.style, n)))
    {
      Performs(t, p, [n], 'm' as int);
      assert [n][1..] == [];
      assert SgrFrom(t.style, [n]) == SgrFrom(SgrCode(t.style, n), []);
    }
    Performs(t, p, [], 'm' as int);
    assert [0][1..] == [];
    assert SgrFrom(t.style, [0]) == SgrFrom(PLAIN, []);
  }

  // ---------------------------------------------------------------- controls and escapes

  ghost predicate Gives(t: Term, p: Parser, bs: seq<Byte>, t': Term)
    requires Inv(t)
  {
    Became(Feed(Emu(t, p), bs), t')
  }

  lemma OneControl(t: Term, p: Parser, c: Byte)
    requires Inv(t) && Quiet(p) && c < 0x20 && c != ESC
    ensures Gives(t, p, [c], Control(t, c))
  {
    hide Control, Feed;
    FeedOne(Emu(t, p), c);
    assert Settled(Emu(t, p), c) == Emu(t, p);
  }

  // Back by one, or off the margin; and the other character set.
  lemma ControlsDo(t: Term, p: Parser)
    requires Inv(t) && Quiet(p)
    ensures Gives(t, p, [0x08], if t.pend then t.(pend := false) else t.(cur := t.cur.(col := Max(t.cur.col - 1, 0))))
    ensures Gives(t, p, [0x0e], t.(active := 1)) && Gives(t, p, [0x0f], t.(active := 0))
  {
    hide Feed, Gives, Inv;
    Upright(t);
    OneControl(t, p, 0x08);
    OneControl(t, p, 0x0e);
    OneControl(t, p, 0x0f);
  }

  // To the next stop, or to the edge.
  lemma TabDoes(t: Term, p: Parser)
    requires Inv(t) && Quiet(p)
    ensures t.pend ==> Gives(t, p, [0x09], t)
    ensures !t.pend ==> exists col :: NextStop(t, col) && Gives(t, p, [0x09], t.(cur := t.cur.(col := col)))
  {
    hide Feed, Gives;
    OneControl(t, p, 0x09);
    NextTabIs(t, t.cur.col);
    assert NextStop(t, NextTab(t, t.cur.col));
  }

  // The first tab stop to the right, or the edge when there is none.
  predicate NextStop(t: Term, col: int)
    requires Inv(t)
  {
    && t.cur.col <= col < t.cols && (forall c :: t.cur.col < c < col ==> !t.tabs[c])
    && (col == t.cols - 1 || (col > t.cur.col && t.tabs[col]))
  }

  lemma {:induction false} NextTabIs(t: Term, c: int)
    requires Inv(t) && 0 <= c < t.cols
    ensures var col := NextTab(t, c);
            && c <= col < t.cols && (forall k :: c < k < col ==> !t.tabs[k])
            && (col == t.cols - 1 || (col > c && t.tabs[col]))
    decreases t.cols - c
  {
    if c + 1 < t.cols && !t.tabs[c + 1] {
      NextTabIs(t, c + 1);
    }
  }

  lemma OneEscape(t: Term, p: Parser, c: Byte)
    requires Inv(t) && Quiet(p) && c in ACTS
    ensures var e := EscapeByte(Emu(t, p.(state := Escape, params := [], inter := [])), c);
            e.Emu? && Gives(t, p, [ESC, c], e.t)
  {
    hide Feed, LineFeed, ReverseIndex, SaveCursor, RestoreCursor, SetTab, New, Inv;
    assert [ESC, c] == [ESC] + [c];
    WriteSplitting(Emu(t, p), [ESC], [c]);
    FeedOne(Emu(t, p), ESC);
    FeedOne(Step(Emu(t, p), ESC), c);
    Quietly(t, p, c);
  }

  const ACTS: set<int> := {'7' as int, '8' as int, 'D' as int, 'E' as int, 'H' as int, 'M' as int, 'c' as int}

  lemma Quietly(t: Term, p: Parser, c: Byte)
    requires Inv(t) && Quiet(p) && c in ACTS
    ensures Step(Emu(t, p), ESC) == Emu(t, p.(state := Escape, params := [], inter := []))
    ensures Quiet(EscapeByte(Emu(t, p.(state := Escape, params := [], inter := [])), c).p)
  {
    hide LineFeed, ReverseIndex, SaveCursor, RestoreCursor, SetTab, New;
  }

  // Down a row: at the bottom margin the rows between the margins move up instead; past it, at the edge
  // of the screen, nothing does.
  ghost predicate DownRow(t: Term, t': Term)
    requires Inv(t)
  {
    if t.cur.row == t.bottom
    then t' == t.(lines := t'.lines, hist := t'.hist) && RowsUp(t.lines, t'.lines, t.top, t.bottom, 1, t.cols)
    else t' == t.(cur := t.cur.(row := Min(t.cur.row + 1, t.rows - 1)))
  }

  // And up.
  ghost predicate UpRow(t: Term, t': Term)
    requires Inv(t)
  {
    if t.cur.row == t.top
    then t' == t.(lines := t'.lines) && RowsDown(t.lines, t'.lines, t.top, t.bottom, 1, t.cols)
    else t' == t.(cur := t.cur.(row := Max(t.cur.row - 1, 0)))
  }

  lemma LineFeedIs(t: Term)
    requires Inv(t)
    ensures DownRow(t, LineFeed(t))
  {
    hide ShiftUp, RowsUp, Remember, Sized, UsedFits;
    Shapely(t);
    ShiftUpIs(t.lines, t.top, t.bottom, t.cols, 1);
  }

  lemma ReverseIndexIs(t: Term)
    requires Inv(t)
    ensures UpRow(t, ReverseIndex(t))
  {
    hide ShiftDown, RowsDown, Sized, UsedFits;
    Shapely(t);
    ShiftDownIs(t.lines, t.top, t.bottom, t.cols, 1);
  }

  lemma Shapely(t: Term)
    requires Inv(t)
    ensures Sized(t.lines, t.cols, |t.lines|) && |t.lines| == t.rows && 0 <= t.top <= t.bottom < t.rows && 0 <= t.cur.row < t.rows
  {
  }

  lemma IndexesDo(t: Term, p: Parser)
    requires Inv(t) && Quiet(p)
    ensures var e := Feed(Emu(t, p), [ESC, 'D' as int]); e.Emu? && DownRow(t, e.t)
    ensures var e := Feed(Emu(t, p), [ESC, 'M' as int]); e.Emu? && UpRow(t, e.t)
    ensures var e := Feed(Emu(t, p), [ESC, 'E' as int]); e.Emu? && DownRow(t.(cur := t.cur.(col := 0)), e.t)
  {
    hide Feed, DownRow, UpRow, LineFeed, ReverseIndex, Inv;
    var t0 := t.(cur := t.cur.(col := 0));
    AtColumn0(t);
    OneEscape(t, p, 'D' as int);
    OneEscape(t, p, 'M' as int);
    OneEscape(t, p, 'E' as int);
    LineFeedIs(t);
    LineFeedIs(t0);
    ReverseIndexIs(t);
  }

  lemma AtColumn0(t: Term)
    requires Inv(t)
    ensures Inv(t.(cur := t.cur.(col := 0)))
  {
  }

  // The cursor and its style kept and put back, a stop set, and everything begun again.
  lemma EscapesDo(t: Term, p: Parser)
    requires Inv(t) && Quiet(p)
    ensures Gives(t, p, [ESC, '7' as int], t.(saved := t.cur, savedStyle := t.style))
    ensures Gives(t, p, [ESC, '8' as int],
      t.(cur := Cursor(Clamp(t.saved.row, 0, t.rows - 1), Clamp(t.saved.col, 0, t.cols - 1), t.cur.visible, t.saved.shape),
         style := t.savedStyle, pend := false))
    ensures Gives(t, p, [ESC, 'H' as int], t.(tabs := t.tabs[t.cur.col := true]))
    ensures Gives(t, p, [ESC, 'c' as int], New(t.cols, t.rows))
    ensures Does(t, p, [], 'g' as int, t.(tabs := t.tabs[t.cur.col := false]))
    ensures Does(t, p, [3], 'g' as int, t.(tabs := seq(|t.tabs|, _ => false)))
  {
    hide Feed, Gives, Does, New, Inv;
    Upright(t);
    OneEscape(t, p, '7' as int);
    OneEscape(t, p, '8' as int);
    OneEscape(t, p, 'H' as int);
    OneEscape(t, p, 'c' as int);
    Performs(t, p, [], 'g' as int);
    Performs(t, p, [3], 'g' as int);
  }

  // ---------------------------------------------------------------- modes

  // The modes that are only kept, each where it is asked after; and the region, which is set when it is
  // one and sends the cursor home.
  lemma ModesDo(t: Term, p: Parser, on: bool)
    requires Inv(t) && Quiet(p)
    ensures Gives(t, p, PrivateBytes(25, on), t.(cur := t.cur.(visible := on)))
    ensures Gives(t, p, PrivateBytes(7, on), t.(awm := on))
    ensures Does(t, p, [4], if on then 'h' as int else 'l' as int, t.(irm := on))
  {
    hide Feed, Gives, Does, PrivateBytes, Inv;
    FeedPrivate(t, p, 25, on);
    FeedPrivate(t, p, 7, on);
    Performs(t, p, [4], 'h' as int);
    Performs(t, p, [4], 'l' as int);
    Given(t, p, PrivateBytes(25, on), t.(cur := t.cur.(visible := on)));
    Given(t, p, PrivateBytes(7, on), t.(awm := on));
  }

  lemma Given(t: Term, p: Parser, bs: seq<Byte>, t': Term)
    requires Inv(t) && Feed(Emu(t, p), bs).Emu? && Feed(Emu(t, p), bs).t == t' && Quiet(Feed(Emu(t, p), bs).p)
    ensures Gives(t, p, bs, t')
  {
    hide Feed;
  }

  lemma RegionDoes(t: Term, p: Parser, a: nat, b: nat)
    requires Inv(t) && Quiet(p)
    ensures Does(t, p, [a, b], 'r' as int,
      if 0 < a < b <= t.rows then t.(top := a - 1, bottom := b - 1, cur := t.cur.(row := 0, col := 0), pend := false) else t)
    ensures t.rows > 1 ==>
      Does(t, p, [], 'r' as int, t.(top := 0, bottom := t.rows - 1, cur := t.cur.(row := 0, col := 0), pend := false))
  {
    hide Does, Inv;
    Upright(t);
    Performs(t, p, [a, b], 'r' as int);
    Performs(t, p, [], 'r' as int);
  }

  // In insert mode a character makes room for itself: what was from the cursor on is one further right.
  lemma InsertsCharacter(t: Term, r: Rune)
    requires Inv(t) && t.irm && !t.pend && RuneWidth(r) == 1
    ensures var cells := t.lines[t.cur.row].cells; var t' := Put(t, r, 1);
            t'.lines[t.cur.row].cells == cells[..t.cur.col] + [Cell([r], 1, t.style)] + cells[t.cur.col..t.cols - 1]
  {
    hide Wrap, InsertCells, WriteCell, Sized, UsedFits;
    Shapely(t);
    RowShape(t);
    assert Settle(t, 1) == t;
    CellInserted(t.lines[t.cur.row].cells, t.cur.col, Cell([0x20], 1, t.style), Cell([r], 1, t.style));
    WrittenAt(ShiftRight(t, t.cur.row, t.cur.col, 1).lines[t.cur.row], t.cur.col, Cell([r], 1, t.style));
  }

  lemma RowShape(t: Term)
    requires Inv(t)
    ensures |t.lines[t.cur.row].cells| == t.cols && 0 <= t.cur.col < t.cols
  {
  }

  lemma CellInserted(cells: seq<Cell>, col: nat, fill: Cell, c: Cell)
    requires col < |cells|
    ensures InsertCells(cells, col, 1, fill)[col := c] == cells[..col] + [c] + cells[col..|cells| - 1]
  {
  }

  lemma WrittenAt(line: Line, col: nat, c: Cell)
    requires col < |line.cells| && c.width == 1
    ensures WriteCell(line, col, c).cells == line.cells[col := c]
  {
  }

  // With autowrap off one in the last column stays there, and the next takes its place.
  lemma NoWrap(t: Term, r: Rune)
    requires Inv(t) && !t.awm && !t.irm && !t.pend && t.cur.col == t.cols - 1 && RuneWidth(r) == 1
    ensures var t' := Put(t, r, 1);
            && t'.cur == t.cur && !t'.pend && t'.lines == t.lines[t.cur.row := t'.lines[t.cur.row]]
            && t'.lines[t.cur.row].cells == t.lines[t.cur.row].cells[t.cols - 1 := Cell([r], 1, t.style)]
  {
  }

  // A character set is chosen for either place, and the one in force draws lines for letters.
  lemma ChoosesCharset(t: Term, p: Parser, slot: nat, graphics: bool)
    requires Inv(t) && Quiet(p) && slot <= 1
    ensures var set_ := if graphics then CharsetGraphics else CharsetAscii;
            Gives(t, p, [ESC, if slot == 0 then '(' as int else ')' as int, if graphics then '0' as int else 'B' as int],
                  if slot == 0 then t.(g0 := set_) else t.(g1 := set_))
  {
    hide Feed, Inv;
    var open: Byte, which: Byte := if slot == 0 then '(' as int else ')' as int, if graphics then '0' as int else 'B' as int;
    assert [ESC, open, which] == [ESC] + ([open] + [which]);
    WriteInThree(Emu(t, p), [ESC], [open], [which]);
    FeedOne(Emu(t, p), ESC);
    FeedOne(Step(Emu(t, p), ESC), open);
    FeedOne(Step(Step(Emu(t, p), ESC), open), which);
  }

  lemma DrawsLines(t: Term, p: Parser, c: Byte)
    requires Inv(t) && Quiet(p) && 0x60 <= c <= 0x7e && (if t.active == 1 then t.g1 else t.g0) == CharsetGraphics
    ensures Gives(t, p, [c], PutString(t, [DecSpecial(c).value], RuneWidth(DecSpecial(c).value)))
    ensures DecSpecial(0x71) == Some(0x2500) && DecSpecial(0x78) == Some(0x2502) && DecSpecial(0x6c) == Some(0x250C)
    ensures DecSpecial(0x6b) == Some(0x2510) && DecSpecial(0x6d) == Some(0x2514) && DecSpecial(0x6a) == Some(0x2518)
  {
    hide Feed, PutString, Inv, RuneWidth;
    FeedOne(Emu(t, p), c);
    assert Settled(Emu(t, p), c) == Emu(t, p);
  }

  // ---------------------------------------------------------------- bytes that are no character

  // A byte that cannot begin one is a replacement character; and so is one that begins one which the
  // next byte does not go on with, drawn before that.
  lemma BadByte(t: Term, p: Parser, b: Byte)
    requires Inv(t) && Quiet(p) && b >= 0x80 && (b < 0xC2 || b > 0xF4)
    ensures Gives(t, p, [b], Put(t, REPLACEMENT, 1))
  {
    hide Feed, Put, Inv;
    FeedOne(Emu(t, p), b);
    assert Settled(Emu(t, p), b) == Emu(t, p);
    assert [] + [b] == [b];
  }

  lemma CutShort(t: Term, p: Parser, b: Byte, c: Byte)
    requires Inv(t) && Quiet(p) && 0xC2 <= b <= 0xF4 && 0x20 <= c < 0x7f && Plain(t)
    ensures Gives(t, p, [b, c], Put(Put(t, REPLACEMENT, 1), c, 1))
  {
    hide Feed, Put, Inv, Plain;
    FeedOne(Emu(t, p), b);
    assert Settled(Emu(t, p), b) == Emu(t, p);
    assert [] + [b] == [b] && [b, c] == [b] + [c];
    var e1 := Emu(t, p.(utf8 := [b]));
    assert Step(Emu(t, p), b) == e1;
    WriteSplitting(Emu(t, p), [b], [c]);
    FeedOne(e1, c);
    var e2 := Emu(Put(t, REPLACEMENT, 1), p);
    assert Settled(e1, c) == e2;
    ReplacementPlain(t);
    assert MapRune(e2.t, c) == None by { PlainMaps(e2.t, c); }
  }

  lemma ReplacementPlain(t: Term)
    requires Inv(t) && Plain(t)
    ensures Plain(Put(t, REPLACEMENT, 1))
  {
    hide ShiftUp, Remember, WriteCell;
    assert !t.irm;
  }

  lemma PlainMaps(t: Term, c: Byte)
    requires Plain(t)
    ensures MapRune(t, c) == None
  {
  }

  // ---------------------------------------------------------------- strings

  // A control string leaves no trace: what is between its two bytes and its end is not drawn.
  lemma SwallowsString(t: Term, p: Parser, kind: Byte, body: seq<Byte>)
    requires Inv(t) && Quiet(p) && kind in {'P' as int, 'X' as int, '^' as int, '_' as int} && ESC !in body
    ensures Gives(t, p, [ESC, kind] + (body + [ESC, '\\' as int]), t)
  {
    hide Feed, Inv;
    var p1 := p.(params := [], inter := [], state := Str, strEsc := false);
    var end: seq<Byte> := [ESC, '\\' as int];
    WriteInThree(Emu(t, p), [ESC, kind], body, end);
    FeedKind(t, p, kind);
    FeedBody(t, p1, body);
    assert end == [ESC] + ['\\' as int];
    WriteSplitting(Emu(t, p1), [ESC], ['\\' as int]);
    FeedOne(Emu(t, p1), ESC);
    FeedOne(Emu(t, p1.(strEsc := true)), '\\' as int);
  }

  lemma FeedKind(t: Term, p: Parser, kind: Byte)
    requires Inv(t) && Quiet(p) && kind in {'P' as int, 'X' as int, '^' as int, '_' as int}
    ensures Feed(Emu(t, p), [ESC, kind]) == Emu(t, p.(params := [], inter := [], state := Str, strEsc := false))
  {
    hide Feed, Inv;
    assert [ESC, kind] == [ESC] + [kind];
    WriteSplitting(Emu(t, p), [ESC], [kind]);
    FeedOne(Emu(t, p), ESC);
    FeedOne(Step(Emu(t, p), ESC), kind);
  }

  lemma {:induction false} FeedBody(t: Term, p: Parser, body: seq<Byte>)
    requires Inv(t) && p.state == Str && !p.strEsc && ESC !in body
    ensures Feed(Emu(t, p), body) == Emu(t, p)
    decreases |body|
  {
    hide Inv;
    if body != [] {
      assert Step(Emu(t, p), body[0]) == Emu(t, p);
      FeedBody(t, p, body[1..]);
    }
  }

  // And no more does a command that is not a hyperlink's, however it ends.
  lemma SwallowsCommand(t: Term, p: Parser, body: seq<Byte>)
    requires Inv(t) && Quiet(p) && p.oscBuf == [] && |body| <= OSC_LIMIT
    requires forall i :: 0 <= i < |body| ==> body[i] != 0x07 && body[i] != ESC
    requires body == [] || body[0] != '8' as int
    ensures Gives(t, p, [ESC, ']' as int] + (body + [0x07]), t)
  {
    hide Feed, Inv, Link;
    var p1 := p.(params := [], inter := [], state := Osc);
    WriteInThree(Emu(t, p), [ESC, ']' as int], body, [0x07]);
    FeedBegin(Emu(t, p));
    FeedCommand(Emu(t, p1), body);
    assert [] + body == body;
    var e := Emu(t, p1.(oscBuf := body));
    FeedOne(e, 0x07);
    CutFirst(body);
  }

  lemma CutFirst(body: seq<Byte>)
    requires body == [] || body[0] != '8' as int
    ensures Cut(body).Some? ==> Cut(body).value.0 != [0x38]
  {
  }
}
