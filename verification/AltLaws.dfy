/** Sizes that change while the other screen is up: when the hidden text comes back, it is what going
    to the last size at once would have made of it. */
module AltLaws {
  import opened Vt
  import opened Grid
  import opened Reflow
  import opened ReflowLaws

  // Where a program's cursor is after its screen has gone through these sizes.
  function Carried(cur: Cursor, sizes: seq<Size>): Cursor
    decreases |sizes|
  {
    if sizes == [] then cur
    else Carried(cur.(row := Min(cur.row, sizes[0].rows - 1), col := Min(cur.col, sizes[0].cols - 1)), sizes[1..])
  }

  // What the sizes leave of a terminal on its alternate screen: all but its size, its drawing and
  // where its cursor is. The hidden screen is as it was, and still to be brought to size.
  lemma {:induction false} AltResized(t: Term, sizes: seq<Size>)
    requires Inv(t) && t.alt.Some? && Possible(sizes) && sizes != []
    ensures var t' := ResizeAll(t, sizes); var last := sizes[|sizes| - 1];
            t' == t.(cols := last.cols, rows := last.rows, lines := t'.lines, tabs := DefaultTabs(last.cols),
                     top := 0, bottom := last.rows - 1, cur := Carried(t.cur, sizes), pend := false, altPending := true)
    decreases |sizes|
  {
    hide DefaultTabs, FitLines;
    var t1 := Resize(t, sizes[0].cols, sizes[0].rows);
    if |sizes| == 1 {
      assert sizes[1..] == [];
      assert Carried(t1.cur, []) == t1.cur;
    } else {
      AltResized(t1, sizes[1..]);
    }
  }

  // The screen that comes back is laid out once, for the last size, with the cursor the program had.
  lemma {:induction false} AltResizes(t: Term, save: bool, sizes: seq<Size>)
    requires Inv(t) && t.alt.None? && Possible(sizes) && sizes != []
    ensures var t' := LeaveAlt(ResizeAll(EnterAlt(t, save), sizes), false); var last := sizes[|sizes| - 1];
            t' == ReflowTo(t.(cur := Carried(t.cur, sizes), altSaved := if save then t.cur else t.altSaved),
              last.cols, last.rows)
  {
    hide ReflowTo, DefaultTabs, Carried;
    var u := EnterAlt(t, save);
    AltResized(u, sizes);
    var last := sizes[|sizes| - 1];
    var back := ResizeAll(u, sizes).(lines := t.lines, alt := None, altPending := false);
    var direct := t.(cur := Carried(t.cur, sizes), altSaved := u.altSaved);
    SameText(back, direct, last.cols, last.rows);
    NotPending(back, last.cols, last.rows);
  }

  // A layout reads the text, and writes over what a size brings with it.
  lemma SameText(t: Term, u: Term, cols: nat, rows: nat)
    requires cols >= 2 && rows >= 1
    requires t == u.(cols := t.cols, rows := t.rows, tabs := t.tabs, top := t.top, bottom := t.bottom, pend := t.pend)
    ensures ReflowTo(t, cols, rows) == ReflowTo(u, cols, rows)
  {
    hide LayOut;
  }

  lemma NotPending(t: Term, cols: nat, rows: nat)
    requires cols >= 2 && rows >= 1
    ensures !ReflowTo(t, cols, rows).pend
  {
    hide LayOut;
  }

  // A cursor that fits every size is carried through them all.
  lemma {:induction false} CarriedSame(cur: Cursor, sizes: seq<Size>)
    requires forall i :: 0 <= i < |sizes| ==> cur.row < sizes[i].rows && cur.col < sizes[i].cols
    ensures Carried(cur, sizes) == cur
    decreases |sizes|
  {
    if sizes != [] {
      CarriedSame(cur, sizes[1..]);
    }
  }

  // So with a cursor that fits every size, the text that was hidden comes back as a single resize to
  // the last size leaves it: exactly when that keeps it, the same paragraphs.
  lemma {:induction false} AltKeepsExactly(t: Term, save: bool, sizes: seq<Size>)
    requires Reflowable(t) && Possible(sizes) && sizes != []
    requires forall i :: 0 <= i < |sizes| ==> t.cur.row < sizes[i].rows && t.cur.col < sizes[i].cols
    ensures var t' := LeaveAlt(ResizeAll(EnterAlt(t, save), sizes), false); var last := sizes[|sizes| - 1];
            && t'.(altSaved := t.altSaved) == Resize(t, last.cols, last.rows)
            && (LogicalLines(t') == LogicalLines(t) <==> KeepsAll(t, last.cols, last.rows))
  {
    hide LeaveAlt, ResizeAll, EnterAlt, LogicalLines, ReflowTo, Carried;
    var last := sizes[|sizes| - 1];
    AltResizes(t, save, sizes);
    CarriedSame(t.cur, sizes);
    ReflowKeepsExactly(t, last.cols, last.rows);
    ReflowInv(t, last.cols, last.rows);
    var saved := if save then t.cur else t.altSaved;
    assert t.(cur := t.cur, altSaved := saved) == t.(altSaved := saved);
    SavedApart(t, saved, last.cols, last.rows);
  }

  // The cursor kept for later is no part of the text.
  lemma SavedApart(t: Term, saved: Cursor, cols: nat, rows: nat)
    requires cols >= 2 && rows >= 1
    ensures ReflowTo(t.(altSaved := saved), cols, rows) == ReflowTo(t, cols, rows).(altSaved := saved)
    ensures ReflowTo(t, cols, rows).altSaved == t.altSaved
    ensures LogicalLines(ReflowTo(t, cols, rows).(altSaved := saved)) == LogicalLines(ReflowTo(t, cols, rows))
  {
    hide LayOut;
  }
}
