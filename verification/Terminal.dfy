/** The terminal as it is kept: rows of cells shared by nobody, updated in place, each operation
    taking the screen to what the operation on values says. */
module Screens {
  import opened Vt
  import opened Grid
  import opened RowStore
  import History
  import Reflow
  import Parser

  class Terminal {
    var cols: nat
    var rows: nat
    var buf: Rows
    var cur: Cursor
    var saved: Cursor
    var savedStyle: Style
    var style: Style
    var pend: bool
    var top: int
    var bottom: int
    var alt: Rows?
    var altSaved: Cursor
    var altPending: bool
    var irm: bool
    var awm: bool
    var g0: Charset
    var g1: Charset
    var active: nat
    var tabs: seq<bool>
    var hist: History.HistRing

    // Every object this terminal is made of.
    ghost function Repr(): set<object>
      reads this, buf, alt, hist
    {
      {this, buf, hist} + buf.Storage + hist.Bufs + (if alt == null then {} else {alt} + alt.Storage)
    }

    // No row is in two places: not twice on a screen, not on both screens, and not in the
    // scrollback as well as on a screen.
    ghost predicate Apart()
      reads this, buf, alt, hist
    {
      && buf.Storage !! hist.Bufs
      && (alt != null ==> alt != buf && alt.Storage !! buf.Storage && alt.Storage !! hist.Bufs)
    }

    ghost predicate Kept()
      reads this, Repr()
    {
      buf.Valid() && hist.Valid() && (alt != null ==> alt.Valid())
    }

    // What the terminal is, as a value.
    ghost function Screen(): Term
      reads this, buf, alt, hist
    {
      Term(cols, rows, buf.Lines, cur, pend, style, saved, savedStyle, top, bottom, irm, awm,
           g0, g1, active, tabs, if alt == null then None else Some(alt.Lines), altSaved, altPending,
           hist.Contents, hist.limit)
    }

    ghost predicate Valid()
      reads this, Repr()
    {
      Apart() && Kept() && Inv(Screen())
    }

    constructor (c: nat, r: nat)
      requires c >= 2 && r >= 1
      ensures Valid() && fresh(Repr()) && Screen() == New(c, r)
    {
      hide Inv, Rows.Valid, History.HistRing.Valid, BlankRow, BlankLines, DefaultTabs;
      cols, rows, top, bottom, awm := c, r, 0, r - 1, true;
      cur, saved, altSaved := Cursor(0, 0, true, 0), Cursor(0, 0, false, 0), Cursor(0, 0, false, 0);
      savedStyle, style, pend, irm := PLAIN, PLAIN, false, false;
      alt, altPending := null, false;
      g0, g1, active := CharsetAscii, CharsetAscii, 0;
      tabs := DefaultTabs(c);
      buf := new Rows.Blanks(c, r);
      hist := new History.HistRing();
      new;
      hist.SetLimit(DEFAULT_SCROLLBACK);
      assert Screen() == New(c, r);
    }

    // ---------------------------------------------------------------- scrolling

    lemma Shape()
      requires Valid()
      ensures 0 <= top <= bottom < rows == |buf.cells| == |buf.wrapped| == |buf.used| == |buf.Lines|
      ensures 0 <= cur.row < rows && 0 <= cur.col < cols && cols >= 2
      ensures forall r :: 0 <= r < rows ==> buf.cells[r].Length == cols && buf.cells[r] in buf.Storage
      ensures forall r :: 0 <= r < rows ==> buf.Lines[r] == Line(buf.cells[r][..], buf.wrapped[r], buf.used[r])
    {
      assert forall r :: 0 <= r < rows ==> buf.cells[r].Length == |Screen().lines[r].cells|;
    }

    lemma Sound()
      requires Valid()
      ensures Inv(Screen())
    {
    }

    lemma Bounds()
      requires Valid()
      ensures cols >= 2 && rows >= 1 && 0 <= cur.row < rows && 0 <= cur.col < cols
    {
    }

    lemma ScrolledUp(t: Term)
      requires Inv(t)
      ensures Inv(Grid.ScrollUp(t, 1)) && Grid.ScrollUp(t, 1) ==
        t.(lines := UpOne(t.lines, t.top, t.bottom, BlankLine(t.cols)),
           hist := if t.alt.Some? then t.hist else Push(t.hist, t.limit, t.lines[t.top]))
    {
    }

    method ScrollOne()
      requires Valid()
      modifies Repr()
      ensures Valid() && fresh(Repr() - old(Repr())) && Screen() == Grid.ScrollUp(old(Screen()), 1)
    {
      Shape();
      ScrolledUp(Screen());
      hide Inv, Push, Grid.ScrollUp, Rows.Valid, History.HistRing.Valid;
      ScrollRows();
    }

    // Scrolls the region by one. The storage of its first row is used again for its last, which is
    // why the scrollback takes a copy.
    method ScrollRows()
      requires Valid()
      modifies buf, buf.Storage, hist, hist.Bufs
      ensures Apart() && Kept() && fresh(hist.Bufs - old(hist.Bufs)) && buf.Storage == old(buf.Storage)
      ensures buf.Lines == UpOne(old(buf.Lines), top, bottom, BlankLine(cols)) && hist.limit == old(hist.limit)
      ensures hist.Contents == if alt == null then Push(old(hist.Contents), hist.limit,
        old(buf.Lines)[top]) else old(hist.Contents)
    {
      hide Inv, Push, Rows.Valid, History.HistRing.Valid;
      Shape();
      Remember(buf.cells[top], buf.wrapped[top], buf.used[top]);
      buf.Recycle(top, bottom);
    }

    method Remember(line: array<Cell>, w: bool, u: nat)
      requires Apart() && Kept() && line in buf.Storage
      modifies hist, hist.Bufs
      ensures Apart() && Kept() && fresh(hist.Bufs - old(hist.Bufs)) && hist.limit == old(hist.limit)
      ensures hist.Contents == if alt == null then Push(old(hist.Contents), hist.limit, Line(old(line[..]), w,
        u)) else old(hist.Contents)
    {
      if alt != null {
        return;
      }
      hist.Push(line, w, u);
    }

    lemma ScrollUpStep(t: Term, n: int)
      requires Inv(t) && n > 0
      ensures Grid.ScrollUp(Grid.ScrollUp(t, 1), n - 1) == Grid.ScrollUp(t, n)
    {
    }

    lemma ScrollUpNone(t: Term)
      requires Inv(t)
      ensures forall n :: n <= 0 ==> Grid.ScrollUp(t, n) == t
    {
    }

    method ScrollUp(n: int)
      requires Valid()
      modifies Repr()
      ensures Valid() && fresh(Repr() - old(Repr())) && Screen() == Grid.ScrollUp(old(Screen()), n)
    {
      hide Inv, Rows.Valid, History.HistRing.Valid, Grid.ScrollUp, Screen;
      var i := 0;
      while i < n
        invariant 0 <= i <= Max(n, 0) && Valid() && fresh(Repr() - old(Repr()))
        invariant Grid.ScrollUp(Screen(), n - i) == Grid.ScrollUp(old(Screen()), n)
      {
        ScrollUpStep(Screen(), n - i);
        ScrollOne();
        i := i + 1;
      }
      ScrollUpNone(Screen());
    }

    // Rows from..to of the screen move down by one: a blank one comes in.
    method LowerRows(from: int, to: int)
      requires Valid() && 0 <= from <= to < rows
      modifies buf
      ensures Valid() && fresh(Repr() - old(Repr()))
      ensures Screen() == old(Screen()).(lines := DownOne(old(Screen()).lines, from, to, BlankLine(cols)))
    {
      hide Rows.Valid, History.HistRing.Valid;
      Shape();
      var row := NewRow(cols);
      buf.RollDown(from, to, row);
    }

    // Rows from..to move up by one.
    method RaiseRows(from: int, to: int)
      requires Valid() && 0 <= from <= to < rows
      modifies buf
      ensures Valid() && fresh(Repr() - old(Repr()))
      ensures Screen() == old(Screen()).(lines := UpOne(old(Screen()).lines, from, to, BlankLine(cols)))
    {
      hide Rows.Valid, History.HistRing.Valid;
      Shape();
      var row := NewRow(cols);
      buf.RollUp(from, to, row);
    }

    lemma ShiftDownStep(t: Term, from: int, to: int, n: int)
      requires Inv(t) && 0 <= from <= to < t.rows
      ensures Sized(t.lines, t.cols, |t.lines|) && |t.lines| == t.rows
      ensures n > 0 ==> (
        var moved := Grid.DownOne(t.lines, from, to, BlankLine(t.cols));
        Sized(moved, t.cols, |t.lines|) && Grid.ShiftDown(moved, from, to, t.cols, n - 1) == Grid.ShiftDown(t.lines,
          from, to, t.cols, n))
      ensures n <= 0 ==> Grid.ShiftDown(t.lines, from, to, t.cols, n) == t.lines
    {
    }

    method ShiftDown(from: int, to: int, n: int)
      requires Valid() && 0 <= from <= to < rows
      modifies buf
      ensures Valid() && fresh(Repr() - old(Repr()))
      ensures Screen() == old(Screen()).(lines := Grid.ShiftDown(old(Screen()).lines, from, to, cols, n))
    {
      hide Inv, Rows.Valid, History.HistRing.Valid, Repr, Grid.ShiftDown, DownOne, Sized;
      var i := 0;
      ShiftDownStep(Screen(), from, to, n);
      while i < n
        invariant 0 <= i <= Max(n, 0) && Valid() && fresh(Repr() - old(Repr()))
        invariant Screen() == old(Screen()).(lines := buf.Lines)
        invariant Sized(buf.Lines, cols, |buf.Lines|) && |buf.Lines| == rows
        invariant Grid.ShiftDown(buf.Lines, from, to, cols, n - i) == Grid.ShiftDown(old(Screen()).lines, from, to, cols, n)
      {
        ShiftDownStep(Screen(), from, to, n - i);
        label before: LowerRows(from, to);
        assert forall o :: o in Repr() && o !in old@before(Repr()) ==> !old@before(allocated(o));
        i := i + 1;
      }
      ShiftDownStep(Screen(), from, to, n - i);
    }

    lemma ShiftUpStep(t: Term, from: int, to: int, n: int)
      requires Inv(t) && 0 <= from <= to < t.rows
      ensures Sized(t.lines, t.cols, |t.lines|) && |t.lines| == t.rows
      ensures n > 0 ==> (
        var moved := Grid.UpOne(t.lines, from, to, BlankLine(t.cols));
        Sized(moved, t.cols, |t.lines|) && Grid.ShiftUp(moved, from, to, t.cols, n - 1)
          == Grid.ShiftUp(t.lines, from, to, t.cols, n))
      ensures n <= 0 ==> Grid.ShiftUp(t.lines, from, to, t.cols, n) == t.lines
    {
    }

    method ShiftUp(from: int, to: int, n: int)
      requires Valid() && 0 <= from <= to < rows
      modifies buf
      ensures Valid() && fresh(Repr() - old(Repr()))
      ensures Screen() == old(Screen()).(lines := Grid.ShiftUp(old(Screen()).lines, from, to, cols, n))
    {
      hide Inv, Rows.Valid, History.HistRing.Valid, Repr, Grid.ShiftUp, UpOne, Sized;
      var i := 0;
      ShiftUpStep(Screen(), from, to, n);
      while i < n
        invariant 0 <= i <= Max(n, 0) && Valid() && fresh(Repr() - old(Repr()))
        invariant Screen() == old(Screen()).(lines := buf.Lines)
        invariant Sized(buf.Lines, cols, |buf.Lines|) && |buf.Lines| == rows
        invariant Grid.ShiftUp(buf.Lines, from, to, cols, n - i) == Grid.ShiftUp(old(Screen()).lines, from, to, cols, n)
      {
        ShiftUpStep(Screen(), from, to, n - i);
        label before: RaiseRows(from, to);
        assert forall o :: o in Repr() && o !in old@before(Repr()) ==> !old@before(allocated(o));
        i := i + 1;
      }
      ShiftUpStep(Screen(), from, to, n - i);
    }

    method ScrollDown(n: int)
      requires Valid()
      modifies buf
      ensures Valid() && fresh(Repr() - old(Repr())) && Screen() == Grid.ScrollDown(old(Screen()), n)
    {
      hide Grid.ShiftDown;
      ShiftDown(top, bottom, n);
    }

    method InsertLines(n: int)
      requires Valid()
      modifies buf
      ensures Valid() && fresh(Repr() - old(Repr())) && Screen() == Grid.InsertLines(old(Screen()), n)
    {
      hide Grid.ShiftDown;
      var last := if top <= cur.row <= bottom then bottom else rows - 1;
      ShiftDown(cur.row, last, n);
    }

    method DeleteLines(n: int)
      requires Valid()
      modifies buf
      ensures Valid() && fresh(Repr() - old(Repr())) && Screen() == Grid.DeleteLines(old(Screen()), n)
    {
      hide Grid.ShiftUp;
      var last := if top <= cur.row <= bottom then bottom else rows - 1;
      ShiftUp(cur.row, last, n);
    }

    method LineFeed()
      requires Valid()
      modifies Repr()
      ensures Valid() && fresh(Repr() - old(Repr())) && Screen() == Grid.LineFeed(old(Screen()))
    {
      if cur.row == bottom {
        ScrollUp(1);
        return;
      }
      hide Rows.Valid, History.HistRing.Valid;
      if cur.row < rows - 1 {
        cur := cur.(row := cur.row + 1);
      }
    }

    // ---------------------------------------------------------------- the cursor and the stops

    method NextTab() returns (col: int)
      requires Valid()
      ensures col == Grid.NextTab(Screen(), cur.col)
    {
      hide Rows.Valid, History.HistRing.Valid;
      var c := cur.col + 1;
      while c < cols
        invariant cur.col < c <= cols
        invariant Grid.NextTab(Screen(), c - 1) == Grid.NextTab(Screen(), cur.col)
      {
        if tabs[c] {
          return c;
        }
        c := c + 1;
      }
      return cols - 1;
    }

    method SetTab()
      requires Valid()
      modifies this`tabs
      ensures Valid() && Repr() == old(Repr()) && Screen() == Grid.SetTab(old(Screen()))
    {
      hide Rows.Valid, History.HistRing.Valid;
      tabs := tabs[cur.col := true];
    }

    method ClearTabs(all: bool)
      requires Valid()
      modifies this`tabs
      ensures Valid() && Repr() == old(Repr()) && Screen() == Grid.ClearTabs(old(Screen()), all)
    {
      hide Rows.Valid, History.HistRing.Valid;
      if all {
        tabs := seq(|tabs|, _ => false);
        return;
      }
      tabs := tabs[cur.col := false];
    }

    method SaveCursor()
      requires Valid()
      modifies this`saved, this`savedStyle
      ensures Valid() && Repr() == old(Repr()) && Screen() == Grid.SaveCursor(old(Screen()))
    {
      hide Rows.Valid, History.HistRing.Valid;
      saved, savedStyle := cur, style;
    }

    method RestoreCursor()
      requires Valid()
      modifies this`cur, this`style, this`pend
      ensures Valid() && Repr() == old(Repr()) && Screen() == Grid.RestoreCursor(old(Screen()))
    {
      hide Inv, Rows.Valid, History.HistRing.Valid;
      var visible := cur.visible;
      cur, style := saved.(visible := visible), savedStyle;
      cur := cur.(row := Clamp(cur.row, 0, rows - 1), col := Clamp(cur.col, 0, cols - 1));
      pend := false;
      assert Screen() == Grid.RestoreCursor(old(Screen()));
    }

    method MoveTo(row: int, col: int)
      requires Valid()
      modifies this`cur, this`pend
      ensures Valid() && Repr() == old(Repr()) && Screen() == Grid.MoveTo(old(Screen()), row, col)
    {
      hide Rows.Valid, History.HistRing.Valid;
      cur := cur.(row := Clamp(row, 0, rows - 1));
      cur := cur.(col := Clamp(col, 0, cols - 1));
      pend := false;
    }

    method MoveVertically(delta: int)
      requires Valid()
      modifies this`cur, this`pend
      ensures Valid() && Repr() == old(Repr()) && Screen() == Grid.MoveVertically(old(Screen()), delta)
    {
      hide Rows.Valid, History.HistRing.Valid;
      var lo, hi := 0, rows - 1;
      if delta > 0 && cur.row <= bottom {
        hi := bottom;
      }
      if delta < 0 && cur.row >= top {
        lo := top;
      }
      cur := cur.(row := Clamp(cur.row + delta, lo, hi));
      pend := false;
    }

    method ReverseIndex()
      requires Valid()
      modifies buf, this`cur
      ensures Valid() && fresh(Repr() - old(Repr())) && Screen() == Grid.ReverseIndex(old(Screen()))
    {
      if cur.row == top {
        ScrollDown(1);
        return;
      }
      hide Rows.Valid, History.HistRing.Valid;
      if cur.row > 0 {
        cur := cur.(row := cur.row - 1);
      }
    }

    method CarriageReturn()
      requires Valid()
      modifies this`cur, this`pend
      ensures Valid() && Repr() == old(Repr()) && Screen() == old(Screen()).(cur := old(cur).(col := 0), pend := false)
    {
      hide Rows.Valid, History.HistRing.Valid;
      cur := cur.(col := 0);
      pend := false;
    }

    method Unpend()
      requires Valid()
      modifies this`pend
      ensures Valid() && Repr() == old(Repr()) && Screen() == old(Screen()).(pend := false)
    {
      hide Rows.Valid, History.HistRing.Valid;
      pend := false;
    }

    method Backspace()
      requires Valid()
      modifies this`cur, this`pend
      ensures Valid() && Repr() == old(Repr()) && Screen() == Parser.Control(old(Screen()), 0x08)
    {
      hide Rows.Valid, History.HistRing.Valid;
      if pend {
        pend := false;
      } else if cur.col > 0 {
        cur := cur.(col := cur.col - 1);
      }
    }

    // Sets a region, unless it is not one; the cursor then goes home.
    method SetRegion(ps: seq<int>)
      requires Valid()
      modifies this`top, this`bottom, this`cur, this`pend
      ensures Valid() && Repr() == old(Repr()) && Screen() == Parser.SetRegion(old(Screen()), ps)
    {
      hide Inv, Terminal.Valid, Repr, Grid.MoveTo, Parser.Arg;
      Sound();
      if (|ps| > 0 && ps[0] == 0) || (|ps| > 1 && ps[1] == 0) {
        return;
      }
      var first, last := Parser.Arg(ps, 0, 1) - 1, Parser.Arg(ps, 1, rows) - 1;
      if first < 0 || last >= rows || first >= last {
        return;
      }
      SetMargins(first, last);
      MoveTo(0, 0);
    }

    method SetMargins(first: int, last: int)
      requires Valid() && 0 <= first <= last < rows
      modifies this`top, this`bottom
      ensures Valid() && Repr() == old(Repr()) && Screen() == old(Screen()).(top := first, bottom := last)
    {
      hide Rows.Valid, History.HistRing.Valid;
      top, bottom := first, last;
    }

    method SelectCharset(slot: nat, set_: Charset)
      requires Valid()
      modifies this`g0, this`g1
      ensures Valid() && Repr() == old(Repr())
      ensures Screen() == if slot == 0 then old(Screen()).(g0 := set_) else old(Screen()).(g1 := set_)
    {
      hide Rows.Valid, History.HistRing.Valid;
      if slot == 0 {
        g0 := set_;
        return;
      }
      g1 := set_;
    }

    method ColumnZero()
      requires Valid()
      modifies this`cur
      ensures Valid() && Repr() == old(Repr()) && Screen() == Parser.Column0(old(Screen()))
    {
      hide Rows.Valid, History.HistRing.Valid;
      cur := cur.(col := 0);
    }

    method SetLink(arg: seq<Byte>)
      requires Valid()
      modifies this`style
      ensures Valid() && Repr() == old(Repr()) && Screen() == Parser.Link(old(Screen()), arg)
    {
      hide Rows.Valid, History.HistRing.Valid, Parser.Cut;
      match Parser.Cut(arg)
      case Some((_, uri)) => style := style.(link := uri);
      case None => style := style.(link := []);
    }

    method EraseDisplay(n: int)
      requires Valid()
      modifies buf, buf.Storage
      ensures Valid() && Repr() == old(Repr()) && Screen() == Parser.EraseDisplay(old(Screen()), n)
    {
      hide Inv, Rows.Valid, History.HistRing.Valid, Grid.EraseRows, Grid.EraseInRow;
      Bounds();
      if n > 3 {
        return;
      }
      if n == 0 {
        EraseInRow(cur.row, cur.col, cols - 1);
        EraseRows(cur.row + 1, rows);
      } else if n == 1 {
        EraseRows(0, cur.row);
        EraseInRow(cur.row, 0, cur.col);
      } else {
        EraseRows(0, rows);
      }
    }

    method EraseLine(n: int)
      requires Valid()
      modifies buf, buf.Storage
      ensures Valid() && Repr() == old(Repr()) && Screen() == Parser.EraseLine(old(Screen()), n)
    {
      hide Inv, Rows.Valid, History.HistRing.Valid, Grid.EraseInRow;
      if n == 0 {
        EraseInRow(cur.row, EffCol(), cols - 1);
      } else if n == 1 {
        EraseInRow(cur.row, 0, EffCol());
      } else {
        EraseInRow(cur.row, 0, cols - 1);
      }
    }

    // Nothing happens when a wrap is owed: the cursor is past every stop.
    method Tab()
      requires Valid()
      modifies this`cur
      ensures Valid() && Repr() == old(Repr()) && Screen() == Parser.Control(old(Screen()), 0x09)
    {
      hide Rows.Valid, History.HistRing.Valid;
      if pend {
        return;
      }
      var col := NextTab();
      cur := cur.(col := col);
    }

    method ShiftTo(slot: nat)
      requires Valid() && slot <= 1
      modifies this`active
      ensures Valid() && Repr() == old(Repr()) && Screen() == old(Screen()).(active := slot)
    {
      hide Rows.Valid, History.HistRing.Valid;
      active := slot;
    }

    // ---------------------------------------------------------------- drawing

    function EffCol(): int
      reads this
    {
      if pend then cols else cur.col
    }

    method EraseInRow(row: int, from: int, to: int)
      requires Valid()
      modifies buf, buf.Storage
      ensures Valid() && Repr() == old(Repr()) && buf.Storage == old(buf.Storage)
        && Screen() == Grid.EraseInRow(old(Screen()), row, from, to)
    {
      if row < 0 || row >= rows {
        return;
      }
      hide Inv, Rows.Valid, History.HistRing.Valid, EraseCells;
      Shape();
      buf.Erase(row, from, to, EraseCell(style));
      assert Screen() == Grid.EraseInRow(old(Screen()), row, from, to);
    }

    lemma EraseOneMore(t: Term, from: nat, to: nat)
      requires Inv(t) && from <= to < t.rows
      ensures Grid.EraseInRow(Grid.EraseRows(t, from, to), to, 0, t.cols - 1) == Grid.EraseRows(t, from, to + 1)
    {
    }

    lemma EraseNone(t: Term, from: nat)
      requires Inv(t)
      ensures Grid.EraseRows(t, from, from) == t
    {
    }

    // Rows from..to-1, whole.
    method EraseRows(from: nat, to: nat)
      requires Valid() && from <= to <= rows
      modifies buf, buf.Storage
      ensures Valid() && Repr() == old(Repr()) && buf.Storage == old(buf.Storage)
        && Screen() == Grid.EraseRows(old(Screen()), from, to)
    {
      EraseNone(Screen(), from);
      hide *;
      var r := from;
      while r < to
        invariant from <= r <= to && Valid() && Repr() == old(Repr()) && buf.Storage == old(buf.Storage)
        invariant Screen() == Grid.EraseRows(old(Screen()), from, r)
      {
        EraseOneMore(old(Screen()), from, r);
        EraseInRow(r, 0, cols - 1);
        r := r + 1;
      }
    }

    method DeleteChars(n: nat)
      requires Valid()
      modifies buf, buf.Storage
      ensures Valid() && Repr() == old(Repr()) && buf.Storage == old(buf.Storage)
        && Screen() == Grid.DeleteChars(old(Screen()), n)
    {
      var col := EffCol();
      if col >= cols {
        return;
      }
      hide Inv, Rows.Valid, History.HistRing.Valid, DeleteCells;
      Shape();
      buf.Delete(cur.row, col, n, EraseCell(style));
      assert Screen() == Grid.DeleteChars(old(Screen()), n);
    }

    method InsertChars(n: nat)
      requires Valid()
      modifies buf, buf.Storage
      ensures Valid() && Repr() == old(Repr()) && buf.Storage == old(buf.Storage)
        && Screen() == Grid.InsertChars(old(Screen()), n)
    {
      var col := EffCol();
      if col >= cols {
        return;
      }
      hide Inv, Rows.Valid, History.HistRing.Valid, InsertCells;
      Shape();
      buf.Insert(cur.row, col, n, EraseCell(style));
      assert Screen() == Grid.InsertChars(old(Screen()), n);
    }

    method ShiftRight(row: int, col: int, n: nat)
      requires Valid() && 0 <= row < rows && 0 <= col < cols
      modifies buf, buf.Storage
      ensures Valid() && Repr() == old(Repr()) && buf.Storage == old(buf.Storage)
        && Screen() == Grid.ShiftRight(old(Screen()), row, col, n)
    {
      if n <= 0 {
        return;
      }
      hide Inv, Rows.Valid, History.HistRing.Valid, InsertCells;
      Shape();
      buf.Push(row, col, n, Cell([0x20], 1, style));
      assert Screen() == Grid.ShiftRight(old(Screen()), row, col, n);
    }

    // Notes that the row goes on below, and has the cursor at its start.
    method MarkWrapped()
      requires Valid()
      modifies buf, this`pend, this`cur
      ensures Valid() && Repr() == old(Repr())
      ensures Screen() == Wrapped(old(Screen()))
    {
      hide Inv, Rows.Valid, History.HistRing.Valid;
      Shape();
      buf.MarkWrapped(cur.row);
      pend := false;
      cur := cur.(col := 0);
      assert Screen() == Wrapped(old(Screen()));
    }

    static ghost function Wrapped(t: Term): (t': Term)
      requires Inv(t)
      ensures Inv(t') && Grid.Wrap(t) == Grid.LineFeed(t')
    {
      Grid.SetLine(t, t.cur.row, t.lines[t.cur.row].(wrapped := true)).(pend := false, cur := t.cur.(col := 0))
    }

    method Wrap()
      requires Valid()
      modifies Repr()
      ensures Valid() && fresh(Repr() - old(Repr())) && Screen() == Grid.Wrap(old(Screen()))
    {
      hide Inv, Terminal.Valid, Grid.LineFeed, Grid.Wrap, Wrapped, Screen;
      Sound();
      label before: MarkWrapped();
      LineFeed();
    }

    // Moves off a pending wrap, and off a margin the character would straddle.
    method Settle(width: Width)
      requires Valid()
      modifies Repr()
      ensures Valid() && fresh(Repr() - old(Repr())) && Screen() == Grid.Settle(old(Screen()), width)
    {
      Settled(Screen(), width);
      assert Screen().pend == pend;
      hide *;
      if pend {
        Wrap();
      }
      label unwrapped: Fit(width);
      assert forall o :: o in Repr() && o !in old@unwrapped(Repr()) ==> !old@unwrapped(allocated(o));
    }

    static ghost function Fitted(t: Term, width: Width): (t': Term)
      requires Inv(t)
      ensures Inv(t')
    {
      if t.cur.col + width <= t.cols then t
      else if !t.awm then t.(cur := t.cur.(col := Max(t.cols - width, 0)))
      else Grid.Wrap(t)
    }

    lemma Settled(t: Term, width: Width)
      requires Inv(t)
      ensures Grid.Settle(t, width) == if t.pend then Fitted(Grid.Wrap(t), width) else Fitted(t, width)
      ensures Inv(Grid.Settle(t, width))
    {
    }

    method Fit(width: Width)
      requires Valid()
      modifies Repr()
      ensures Valid() && fresh(Repr() - old(Repr())) && Screen() == Fitted(old(Screen()), width)
    {
      hide Inv, Rows.Valid, History.HistRing.Valid, Grid.Wrap;
      if cur.col + width > cols {
        if !awm {
          PullBack(width);
        } else {
          Wrap();
        }
      }
    }

    method PullBack(width: Width)
      requires Valid() && cur.col + width > cols
      modifies this`cur
      ensures Valid() && Repr() == old(Repr()) && Screen() == old(Screen()).(cur := old(cur).(col := Max(cols - width, 0)))
    {
      hide Rows.Valid, History.HistRing.Valid;
      cur := cur.(col := Max(cols - width, 0));
    }

    method WriteCell(content: seq<Rune>, width: Width)
      requires Valid() && cur.col + width <= cols
      modifies buf, buf.Storage
      ensures Valid() && Repr() == old(Repr()) && buf.Storage == old(buf.Storage)
      ensures Screen() == Grid.SetLine(old(Screen()), cur.row, Grid.WriteCell(old(Screen()).lines[cur.row], cur.col,
        Cell(content, width, style)))
    {
      hide Inv, Rows.Valid, History.HistRing.Valid;
      Shape();
      buf.Write(cur.row, cur.col, Cell(content, width, style));
      assert Screen() == Grid.SetLine(old(Screen()), cur.row, Grid.WriteCell(old(Screen()).lines[cur.row], cur.col,
        Cell(content, width, style)));
    }

    method Advance(width: Width)
      requires Valid()
      modifies this`cur, this`pend
      ensures Valid() && Repr() == old(Repr()) && Screen() == Grid.Advance(old(Screen()), width)
    {
      hide Inv, Rows.Valid, History.HistRing.Valid;
      var col := cur.col + width;
      if col >= cols {
        col := cols - 1;
        pend := awm;
      }
      cur := cur.(col := col);
      assert Screen() == Grid.Advance(old(Screen()), width);
    }

    // One grapheme at the cursor.
    method PutString(content: seq<Rune>, width: Width)
      requires Valid()
      modifies Repr()
      ensures Valid() && fresh(Repr() - old(Repr())) && Screen() == Grid.PutString(old(Screen()), content, width)
    {
      PutInTwo(Screen(), content, width);
      hide *;
      Settle(width);
      ghost var now := Repr();
      PutHere(content, width);
      assert Repr() == now;
    }

    static ghost function Placed(t: Term, content: seq<Rune>, width: Width): (t': Term)
      requires Inv(t) && t.cur.col + width <= t.cols
      ensures Inv(t')
    {
      var t1 := if t.irm then Grid.ShiftRight(t, t.cur.row, t.cur.col, width) else t;
      Grid.Advance(Grid.SetLine(t1, t1.cur.row, Grid.WriteCell(t1.lines[t1.cur.row], t1.cur.col, Cell(content, width,
        t1.style))), width)
    }

    lemma PutInTwo(t: Term, content: seq<Rune>, width: Width)
      requires Inv(t)
      ensures var t1 := Grid.Settle(t, width);
              Inv(t1) && t1.cur.col + width <= t1.cols && Grid.PutString(t, content, width) == Placed(t1, content, width)
    {
    }

    method PutHere(content: seq<Rune>, width: Width)
      requires Valid() && cur.col + width <= cols
      modifies this`cur, this`pend, buf, buf.Storage
      ensures Valid() && Repr() == old(Repr()) && buf.Storage == old(buf.Storage)
        && Screen() == Placed(old(Screen()), content, width)
    {
      hide Inv, Rows.Valid, History.HistRing.Valid, Grid.ShiftRight, Grid.SetLine, Grid.Advance, Grid.WriteCell;
      Shape();
      if irm {
        ShiftRight(cur.row, cur.col, width);
      }
      WriteCell(content, width);
      Advance(width);
    }

    // A mark joins the character before the cursor, past the continuation of a wide one.
    method Combine(r: Rune)
      requires Valid()
      modifies buf, buf.Storage
      ensures Valid() && Repr() == old(Repr()) && buf.Storage == old(buf.Storage) && Screen() == Grid.Combine(old(Screen()), r)
    {
      hide Inv, Rows.Valid, History.HistRing.Valid;
      if cur.col == 0 && !pend {
        assert Screen() == Grid.Combine(old(Screen()), r);
        return;
      }
      Shape();
      var row := buf.cells[cur.row];
      var col := if pend then cols - 1 else cur.col - 1;
      ghost var first := col;
      while col > 0 && row[col].content == []
        invariant 0 <= col <= first < cols && Head(row[..], col) == Head(row[..], first)
      {
        col := col - 1;
      }
      if row[col].content != [] {
        buf.SetCell(cur.row, col, row[col].(content := row[col].content + [r]));
      }
      assert Screen() == Grid.Combine(old(Screen()), r);
    }

    method Put(r: Rune, width: Width)
      requires Valid()
      modifies Repr()
      ensures Valid() && fresh(Repr() - old(Repr())) && Screen() == Grid.Put(old(Screen()), r, width)
    {
      hide Inv, Rows.Valid, History.HistRing.Valid, Grid.Combine, Grid.PutString;
      if width == 0 {
        Combine(r);
        return;
      }
      PutString([r], width);
    }

    // ---------------------------------------------------------------- another screen

    // Takes other rows, of another size.
    method Take(b: Rows, c: nat, r: nat)
      requires Apart() && Kept() && b.Valid() && b !in Repr() && b.Storage !! Repr()
      modifies this`buf, this`cols, this`rows, this`tabs
      ensures Apart() && Kept() && Repr() <= old(Repr()) + {b} + b.Storage
      ensures Screen() == old(Screen()).(cols := c, rows := r, tabs := DefaultTabs(c), lines := b.Lines)
    {
      hide Kept, Apart, Repr, Screen, DefaultTabs;
      Swap(b);
      SetSize(c, r);
    }

    method Swap(b: Rows)
      requires Apart() && Kept() && b.Valid() && b !in Repr() && b.Storage !! Repr()
      modifies this`buf
      ensures Apart() && Kept() && Repr() <= old(Repr()) + {b} + b.Storage
      ensures Screen() == old(Screen()).(lines := b.Lines)
    {
      hide Rows.Valid, History.HistRing.Valid;
      buf := b;
    }

    method SetSize(c: nat, r: nat)
      requires Apart() && Kept()
      modifies this`cols, this`rows, this`tabs
      ensures Apart() && Kept() && Repr() == old(Repr())
      ensures Screen() == old(Screen()).(cols := c, rows := r, tabs := DefaultTabs(c))
    {
      hide Rows.Valid, History.HistRing.Valid, DefaultTabs;
      cols, rows := c, r;
      tabs := DefaultTabs(c);
    }

    // The primary screen is still to be brought to the size of this one.
    method Postpone(ghost before: Term)
      requires Apart() && Kept() && Inv(before) && before.alt.Some? && cols >= 2 && rows >= 1
      requires Screen().(altPending := true) == Reflow.Resize(before, cols, rows)
      modifies this`altPending
      ensures Valid() && Repr() == old(Repr()) && Screen() == Reflow.Resize(before, old(cols), old(rows))
    {
      hide Inv, Rows.Valid, History.HistRing.Valid, Reflow.FitLines;
      altPending := true;
    }

    // Shows other rows, and keeps the ones shown behind them.
    method Cover(b: Rows, save: bool)
      requires Valid() && alt == null && b.Valid() && b !in Repr() && b.Storage !! Repr() && b.Lines == BlankLines(cols, rows)
      modifies this`buf, this`alt, this`altSaved
      ensures Valid() && Repr() == old(Repr()) + {b} + b.Storage
      ensures Screen() == Reflow.EnterAlt(old(Screen()), save)
    {
      hide Inv, Rows.Valid, History.HistRing.Valid, BlankLines;
      if save {
        altSaved := cur;
      }
      alt, buf := buf, b;
      assert Screen() == Reflow.EnterAlt(old(Screen()), save);
    }

    // The rows behind come back. They may be of another size, which is what is returned.
    method Uncover() returns (pending: bool)
      requires Valid() && alt != null
      modifies this`buf, this`alt, this`altPending
      ensures Apart() && Kept() && Repr() <= old(Repr()) && alt == null && hist == old(hist)
      ensures pending == old(altPending)
      ensures Screen() == old(Screen()).(lines := old(alt.Lines), alt := None, altPending := false)
    {
      hide Inv, Rows.Valid, History.HistRing.Valid;
      buf, alt := alt, null;
      pending := altPending;
      if altPending {
        altPending := false;
      }
    }

    // The cursor comes back with them.
    method Return(ghost before: Term, restore: bool)
      requires Apart() && Kept() && Inv(before) && before.alt.Some?
      requires var uncovered := before.(lines := before.alt.value, alt := None, altPending := false);
               cols == before.cols && rows == before.rows && altSaved == before.altSaved &&
               Screen() == if before.altPending then Reflow.ReflowTo(uncovered, before.cols, before.rows) else uncovered
      modifies this`cur, this`pend
      ensures Valid() && Repr() == old(Repr()) && Screen() == Reflow.LeaveAlt(before, restore)
    {
      hide Inv, Rows.Valid, History.HistRing.Valid, Reflow.ReflowTo;
      if restore {
        cur := altSaved.(row := Min(altSaved.row, rows - 1), col := Min(altSaved.col, cols - 1));
      }
      pend := false;
      assert Screen() == Reflow.LeaveAlt(before, restore);
    }

    // Starts again, with everything a new terminal of this size has.
    method Renew()
      requires Valid()
      modifies this
      ensures Valid() && fresh(Repr() - old(Repr())) && Screen() == New(old(Screen()).cols, old(Screen()).rows)
    {
      Bounds();
      hide Apart, Kept, Inv, New;
      Become();
    }

    method Become()
      requires Apart() && Kept() && cols >= 2 && rows >= 1
      modifies this
      ensures Apart() && Kept() && fresh(Repr() - {this}) && Screen() == New(old(cols), old(rows)) && Inv(Screen())
    {
      hide Rows.Valid, History.HistRing.Valid, Inv, New, Screen;
      DropHidden();
      var n := NewOne();
      TakeAll(n);
    }

    method TakeAll(n: Terminal)
      requires Apart() && Kept() && n.Apart() && n.Kept() && n != this && this !in n.Repr() && n.alt == null
        && alt == null && Screen().alt.None?
      modifies this
      ensures Apart() && Kept() && Repr() == n.Repr() - {n} + {this} && Screen() == old(n.Screen())
    {
      hide Kept, Apart, Screen, Repr;
      ghost var s := n.Screen();
      n.Fields();
      TakeRows(n);
      TakeSize(n);
      TakeCursors(n);
      TakeRest(n);
      assert Screen() == s;
    }

    // A screen's parts, one by one.
    lemma Fields()
      ensures var s := Screen();
              && s.cols == cols && s.rows == rows && s.tabs == tabs && s.cur == cur && s.saved == saved
                && s.altSaved == altSaved
              && s.pend == pend && s.altPending == altPending && s.irm == irm && s.style == style && s.savedStyle == savedStyle
              && s.awm == awm && s.g0 == g0 && s.g1 == g1 && s.active == active && s.top == top && s.bottom == bottom
              && (s.alt.None? <==> alt == null)
    {
    }

    method TakeRest(n: Terminal)
      requires n != this && Apart() && Kept()
      modifies this`pend, this`altPending, this`irm, this`style, this`savedStyle, this`awm, this`g0, this`g1,
        this`active, this`top, this`bottom
      ensures Apart() && Kept() && Repr() == old(Repr())
      ensures Screen() == old(Screen()).(
        pend := n.pend, altPending := n.altPending, irm := n.irm, style := n.style, savedStyle := n.savedStyle, awm := n.awm,
        g0 := n.g0, g1 := n.g1, active := n.active, top := n.top, bottom := n.bottom)
    {
      hide Kept, Apart, Repr, Screen;
      TakeFlags(n);
      TakeStyles(n);
      TakeCharsets(n);
      TakeMargins(n);
    }

    method NewOne() returns (n: Terminal)
      requires cols >= 2 && rows >= 1
      ensures fresh(n) && fresh(n.Repr()) && n.Apart() && n.Kept() && n.alt == null && n.Screen() == New(cols,
        rows) && Inv(n.Screen())
    {
      n := new Terminal(cols, rows);
      assert n.alt == null <==> n.Screen().alt.None?;
    }

    method DropHidden()
      requires Apart() && Kept()
      modifies this`alt
      ensures Apart() && Kept() && alt == null && hist == old(hist) && cols == old(cols) && rows == old(rows)
        && Screen() == old(Screen()).(alt := None)
    {
      hide Rows.Valid, History.HistRing.Valid;
      alt := null;
    }

    method TakeRows(n: Terminal)
      requires n.Apart() && n.Kept() && this !in n.Repr() && alt == null && n.alt == null
      modifies this`buf, this`hist
      ensures Apart() && Kept() && Repr() == n.Repr() - {n} + {this}
      ensures Screen() == old(Screen()).(lines := old(n.Screen()).lines, hist := old(n.Screen()).hist,
        limit := old(n.Screen()).limit)
    {
      hide Rows.Valid, History.HistRing.Valid;
      buf, hist := n.buf, n.hist;
    }

    method TakeSize(n: Terminal)
      requires n != this && Apart() && Kept()
      modifies this`cols, this`rows, this`tabs
      ensures Apart() && Kept() && Repr() == old(Repr()) && Screen() == old(Screen()).(cols := n.cols,
        rows := n.rows, tabs := n.tabs)
    {
      hide Rows.Valid, History.HistRing.Valid;
      cols, rows, tabs := n.cols, n.rows, n.tabs;
    }

    method TakeCursors(n: Terminal)
      requires n != this && Apart() && Kept()
      modifies this`cur, this`saved, this`altSaved
      ensures Apart() && Kept() && Repr() == old(Repr()) && Screen() == old(Screen()).(cur := n.cur,
        saved := n.saved, altSaved := n.altSaved)
    {
      hide Rows.Valid, History.HistRing.Valid;
      cur, saved, altSaved := n.cur, n.saved, n.altSaved;
    }

    method TakeFlags(n: Terminal)
      requires n != this && Apart() && Kept()
      modifies this`pend, this`altPending, this`irm
      ensures Apart() && Kept() && Repr() == old(Repr()) && Screen() == old(Screen()).(pend := n.pend,
        altPending := n.altPending, irm := n.irm)
    {
      hide Rows.Valid, History.HistRing.Valid;
      pend, altPending, irm := n.pend, n.altPending, n.irm;
    }

    method TakeStyles(n: Terminal)
      requires n != this && Apart() && Kept()
      modifies this`style, this`savedStyle, this`awm
      ensures Apart() && Kept() && Repr() == old(Repr()) && Screen() == old(Screen()).(style := n.style,
        savedStyle := n.savedStyle, awm := n.awm)
    {
      hide Rows.Valid, History.HistRing.Valid;
      style, savedStyle, awm := n.style, n.savedStyle, n.awm;
    }

    method TakeCharsets(n: Terminal)
      requires n != this && Apart() && Kept()
      modifies this`g0, this`g1, this`active
      ensures Apart() && Kept() && Repr() == old(Repr()) && Screen() == old(Screen()).(g0 := n.g0, g1 := n.g1,
        active := n.active)
    {
      hide Rows.Valid, History.HistRing.Valid;
      g0, g1, active := n.g0, n.g1, n.active;
    }

    method TakeMargins(n: Terminal)
      requires n != this && Apart() && Kept()
      modifies this`top, this`bottom
      ensures Apart() && Kept() && Repr() == old(Repr()) && Screen() == old(Screen()).(top := n.top, bottom := n.bottom)
    {
      hide Rows.Valid, History.HistRing.Valid;
      top, bottom := n.top, n.bottom;
    }

    method SetVisible(on: bool)
      requires Valid()
      modifies this`cur
      ensures Valid() && Repr() == old(Repr()) && Screen() == old(Screen()).(cur := old(Screen()).cur.(visible := on))
    {
      hide Rows.Valid, History.HistRing.Valid;
      cur := cur.(visible := on);
    }

    method SetAutowrap(on: bool)
      requires Valid()
      modifies this`awm
      ensures Valid() && Repr() == old(Repr()) && Screen() == old(Screen()).(awm := on)
    {
      hide Rows.Valid, History.HistRing.Valid;
      awm := on;
    }

    method SetInsert(on: bool)
      requires Valid()
      modifies this`irm
      ensures Valid() && Repr() == old(Repr()) && Screen() == old(Screen()).(irm := on)
    {
      hide Rows.Valid, History.HistRing.Valid;
      irm := on;
    }

    method SetShape(shape: int)
      requires Valid()
      modifies this`cur
      ensures Valid() && Repr() == old(Repr()) && Screen() == old(Screen()).(cur := old(Screen()).cur.(shape := shape))
    {
      hide Rows.Valid, History.HistRing.Valid;
      cur := cur.(shape := shape);
    }

    // Mode 1048 keeps a cursor beside the one that switching screens keeps, in the same place.
    method KeepCursor()
      requires Valid()
      modifies this`altSaved
      ensures Valid() && Repr() == old(Repr()) && Screen() == old(Screen()).(altSaved := old(Screen()).cur)
    {
      hide Rows.Valid, History.HistRing.Valid;
      altSaved := cur;
    }

    method TakeBackCursor()
      requires Valid() && altSaved.row < rows && altSaved.col < cols
      modifies this`cur, this`pend
      ensures Valid() && Repr() == old(Repr()) && Screen() == old(Screen()).(cur := old(Screen()).altSaved, pend := false)
    {
      hide Rows.Valid, History.HistRing.Valid;
      cur := altSaved;
      pend := false;
    }

    // Has the cursor here, with the whole screen for a region.
    method Home(row: int, col: int)
      requires Apart() && Kept()
      modifies this`cur, this`pend, this`top, this`bottom
      ensures Apart() && Kept() && Repr() == old(Repr())
      ensures Screen() == old(Screen()).(cur := old(cur).(row := row, col := col), pend := false, top := 0, bottom := rows - 1)
    {
      assert Screen().cur == cur && Screen().rows == rows;
      hide Apart, Kept, Repr, Screen;
      Place(row, col);
      WholeRegion();
    }

    method Place(row: int, col: int)
      requires Apart() && Kept()
      modifies this`cur, this`pend
      ensures Apart() && Kept() && Repr() == old(Repr())
      ensures Screen() == old(Screen()).(cur := old(cur).(row := row, col := col), pend := false)
    {
      hide Rows.Valid, History.HistRing.Valid;
      cur := cur.(row := row, col := col);
      pend := false;
    }

    method WholeRegion()
      requires Apart() && Kept()
      modifies this`top, this`bottom
      ensures Apart() && Kept() && Repr() == old(Repr()) && Screen() == old(Screen()).(top := 0, bottom := rows - 1)
    {
      hide Rows.Valid, History.HistRing.Valid;
      top, bottom := 0, rows - 1;
    }
  }
}
