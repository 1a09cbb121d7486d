/** The scrollback and the screen are one list of lines: scrolling moves the screen along it, and a
    view of the scrollback is a window on it. */
module ScrollLaws {
  import opened Vt
  import opened Grid
  import opened RowStore
  import opened Screens
  import History

  // ---------------------------------------------------------------- scrolling the whole screen

  lemma WholeUp(lines: seq<Line>, cols: nat)
    requires |lines| > 0
    ensures UpOne(lines, 0, |lines| - 1, BlankLine(cols)) == lines[1..] + [BlankLine(cols)]
  {
  }

  lemma {:induction false} ShiftWhole(lines: seq<Line>, cols: nat, n: nat)
    requires |lines| > 0 && Sized(lines, cols, |lines|)
    ensures ShiftUp(lines, 0, |lines| - 1, cols, n) == (lines + BlankLines(cols, n))[n..]
    decreases n
  {
    if n > 0 {
      WholeUp(lines, cols);
      var up := lines[1..] + [BlankLine(cols)];
      ShiftWhole(up, cols, n - 1);
      assert (up + BlankLines(cols, n - 1))[n - 1..] == (lines + BlankLines(cols, n))[n..];
    }
  }

  // Trimming as lines arrive or once they all have makes no difference.
  lemma TrimTwice(a: seq<Line>, b: seq<Line>, limit: nat)
    ensures Trim(Trim(a, limit) + b, limit) == Trim(a + b, limit)
  {
  }

  lemma PushTrims(hist: seq<Line>, limit: nat, line: Line)
    requires |hist| <= limit
    ensures Push(hist, limit, line) == Trim(hist + [line], limit)
  {
  }

  lemma {:induction false} RememberWhole(hist: seq<Line>, limit: nat, lines: seq<Line>, cols: nat, n: nat)
    requires |hist| <= limit && |lines| > 0 && Sized(lines, cols, |lines|)
    ensures Remember(hist, limit, lines, 0, |lines| - 1, cols, n) == Trim(hist + (lines + BlankLines(cols, n))[..n], limit)
    decreases n
  {
    hide Trim, Push, UpOne, Remember;
    var all := lines + BlankLines(cols, n);
    if n == 0 {
      RememberNone(hist, limit, lines, cols);
      assert hist + all[..0] == hist;
    } else {
      var up := lines[1..] + [BlankLine(cols)];
      RememberOne(hist, limit, lines, cols, n);
      PushTrims(hist, limit, lines[0]);
      var rest := (up + BlankLines(cols, n - 1))[..n - 1];
      OneLineOff(lines, cols, n);
      RememberWhole(Push(hist, limit, lines[0]), limit, up, cols, n - 1);
      TrimTwice(hist + [lines[0]], rest, limit);
      assert hist + [lines[0]] + rest == hist + all[..n];
    }
  }

  lemma RememberNone(hist: seq<Line>, limit: nat, lines: seq<Line>, cols: nat)
    requires |hist| <= limit && |lines| > 0 && Sized(lines, cols, |lines|)
    ensures Remember(hist, limit, lines, 0, |lines| - 1, cols, 0) == hist == Trim(hist, limit)
  {
  }

  lemma RememberOne(hist: seq<Line>, limit: nat, lines: seq<Line>, cols: nat, n: nat)
    requires |hist| <= limit && |lines| > 0 && Sized(lines, cols, |lines|) && n > 0
    ensures var up := lines[1..] + [BlankLine(cols)];
            |Push(hist, limit, lines[0])| <= limit && Sized(up, cols, |up|) &&
            Remember(hist, limit, lines, 0, |lines| - 1, cols, n) == Remember(Push(hist, limit, lines[0]), limit, up,
              0, |up| - 1, cols, n - 1)
  {
    WholeUp(lines, cols);
    hide Push;
  }

  lemma OneLineOff(lines: seq<Line>, cols: nat, n: nat)
    requires |lines| > 0 && n > 0
    ensures (lines + BlankLines(cols, n))[..n] == [lines[0]] + (lines[1..] + [BlankLine(cols)] + BlankLines(cols,
      n - 1))[..n - 1]
  {
    assert lines + BlankLines(cols, n) == [lines[0]] + (lines[1..] + [BlankLine(cols)] + BlankLines(cols, n - 1));
  }

  lemma CutWhole<T>(hist: seq<T>, tail: seq<T>, n: nat, rows: nat)
    requires |tail| == rows + n
    ensures var all := hist + tail;
            all[|all| - rows..] == tail[n..] && all[..|all| - rows] == hist + tail[..n]
  {
  }

  // Scrolling the whole of the primary screen up by n puts n blank lines after the scrollback and
  // the screen: the screen is the last of them, and the scrollback what is before it, trimmed.
  lemma ScrollUpAppends(t: Term, n: nat)
    requires Inv(t) && t.alt.None? && t.top == 0 && t.bottom == t.rows - 1
    ensures var all := t.hist + t.lines + BlankLines(t.cols, n);
            && ScrollUp(t, n).lines == all[|all| - t.rows..]
            && ScrollUp(t, n).hist == Trim(all[..|all| - t.rows], t.limit)
  {
    hide ShiftUp, Remember, Trim;
    ShiftWhole(t.lines, t.cols, n);
    RememberWhole(t.hist, t.limit, t.lines, t.cols, n);
    var tail := t.lines + BlankLines(t.cols, n);
    CutWhole(t.hist, tail, n, t.rows);
    assert t.hist + t.lines + BlankLines(t.cols, n) == t.hist + tail;
  }

  // ---------------------------------------------------------------- looking back

  // A row as wide as the screen.
  function Fitted(cells: seq<Cell>, cols: nat): (row: seq<Cell>)
    ensures |row| == cols
  {
    cells[..Min(cols, |cells|)] + BlankRow(cols - Min(cols, |cells|))
  }

  // The rows to draw when the screen is moved back into the scrollback by this many lines, or by as
  // many as there are: a window on scrollback and screen together.
  method Snapshot(t: Terminal, offset: int) returns (shown: seq<seq<Cell>>)
    requires t.Valid()
    ensures var back := Clamp(offset, 0, |t.Screen().hist|);
            var all := t.Screen().hist + t.Screen().lines;
            && |shown| == t.rows
            && forall k :: 0 <= k < t.rows ==> shown[k] == Fitted(all[|t.Screen().hist| - back + k].cells, t.cols)
  {
    hide RowStore.Rows.Valid, History.HistRing.Valid, Terminal.Screen, Terminal.Valid, Inv, Fitted;
    Counted(t);
    var back := Clamp(offset, 0, t.hist.n);
    ghost var all := t.hist.Contents + t.buf.Lines;
    shown := [];
    var start := t.hist.n - back;
    var i := start;
    while i < t.hist.n && |shown| < t.rows
      invariant start <= i <= t.hist.n && |shown| == i - start && |shown| <= t.rows
      invariant forall k :: 0 <= k < |shown| ==> shown[k] == Fitted(all[start + k].cells, t.cols)
    {
      var row := OldRow(t, i);
      shown := shown + [row];
      i := i + 1;
    }
    var r := 0;
    while r < t.rows && |shown| < t.rows
      invariant 0 <= r <= t.rows && |shown| <= t.rows
      invariant |shown| < t.rows ==> |shown| == back + r
      invariant forall k :: 0 <= k < |shown| ==> shown[k] == Fitted(all[start + k].cells, t.cols)
    {
      shown := shown + [Fitted(t.buf.cells[r][..], t.cols)];
      r := r + 1;
    }
  }

  method OldRow(t: Terminal, i: nat) returns (row: seq<Cell>)
    requires t.hist.Valid() && i < t.hist.n
    ensures row == Fitted(t.hist.Contents[i].cells, t.cols)
  {
    hide Fitted;
    var line := t.hist.At(i);
    row := Fitted(line.buf[..line.len], t.cols);
  }

  lemma Counted(t: Terminal)
    requires t.Valid()
    ensures t.hist.n == |t.hist.Contents| && t.hist.Valid() && |t.buf.Lines| == |t.buf.cells| == t.rows
    ensures forall r :: 0 <= r < t.rows ==> t.buf.Lines[r].cells == t.buf.cells[r][..]
    ensures t.Screen().hist == t.hist.Contents && t.Screen().lines == t.buf.Lines
  {
  }
}
