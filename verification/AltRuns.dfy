/** A program that takes the whole screen: what it finds when it begins, and what is there again when it
    has gone, whatever it drew and however the size changed meanwhile. */
module AltRuns {
  import opened Vt
  import opened Grid
  import opened Reflow
  import opened Parser
  import opened ParserLaws
  import opened Decimal
  import opened Runs

  const ALT_SCREENS: set<int> := {47, 1047, 1049}

  // This byte completes a sequence that leaves the alternate screen, saves a cursor where the one to be
  // put back is kept, or starts the terminal afresh.
  predicate Disturbs(e: Emu, c: Byte) {
    && e.Emu?
    && (|| (e.p.state == Escape && c == 'c' as int)
        || (&& e.p.state == Csi && |e.p.params| > 0 && e.p.params[0] == '?' as int
            && var ns := Params(e.p.params[1..]);
               || (c == 'l' as int && exists n :: n in ns && n in ALT_SCREENS)
               || (c == 'h' as int && 1048 in ns)))
  }

  // Nothing of the kind happens in a run.
  ghost predicate Undisturbed(e: Emu, events: seq<Event>)
    requires Valid(e)
    decreases |events|
  {
    events != [] ==>
      && (events[0].Wrote? ==> forall k: nat :: k < |events[0].bytes| ==> !Disturbs(Feed(e, events[0].bytes[..k]),
        events[0].bytes[k]))
      && Undisturbed(Happened(e, events[0]), events[1..])
  }

  // The primary screen of t is behind this terminal, with its cursor and its scrollback. It is still of
  // the screen's size unless the size has changed.
  ghost predicate Behind(t: Term, u: Term) {
    && u.alt == Some(t.lines) && u.altSaved == t.cur && u.hist == t.hist && u.limit == t.limit
    && (!u.altPending ==> u.cols == t.cols && u.rows == t.rows)
  }

  lemma SteadyBehind(t: Term, u: Term, u': Term)
    requires Behind(t, u) && Steady(u, u')
    ensures Behind(t, u') && u'.altPending == u.altPending
  {
  }

  lemma ModeBehind(t: Term, u: Term, n: int, on: bool)
    requires Inv(u) && Behind(t, u) && (on ==> n != 1048) && (!on ==> n !in ALT_SCREENS)
    ensures var u' := PrivateMode(u, n, on); u'.Some? ==> Behind(t, u'.value) && u'.value.altPending == u.altPending
  {
    hide LeaveAlt;
  }

  lemma {:induction false} ModesBehind(t: Term, u: Term, ns: seq<int>, on: bool)
    requires Inv(u) && Behind(t, u) && (on ==> 1048 !in ns) && (!on ==> forall n :: n in ns ==> n !in ALT_SCREENS)
    ensures var u' := PrivateModes(u, ns, on); u'.Some? ==> Behind(t, u'.value) && u'.value.altPending == u.altPending
    decreases |ns|
  {
    hide PrivateMode, Behind;
    if ns != [] {
      ModeBehind(t, u, ns[0], on);
      var u1 := PrivateMode(u, ns[0], on);
      if u1.Some? {
        ModesBehind(t, u1.value, ns[1..], on);
      }
    }
  }

  lemma CsiBehind(t: Term, e: Emu, c: Byte)
    requires e.Emu? && Inv(e.t) && e.p.state == Csi && Behind(t, e.t) && !Disturbs(e, c)
    ensures var e' := CsiByte(e, c); e'.Emu? ==> Behind(t, e'.t) && e'.t.altPending == e.t.altPending
  {
    hide PrivateModes, Perform, Params, Control, Behind, Steady;
    if 0x40 <= c <= 0x7e {
      if |e.p.params| > 0 && e.p.params[0] == '?' as int {
        if c == 'h' as int || c == 'l' as int {
          ModesBehind(t, e.t, Params(e.p.params[1..]), c == 'h' as int);
        }
      } else {
        SteadyBehind(t, e.t, Perform(e.t, Params(e.p.params), e.p.inter, c));
      }
    } else {
      SteadyBehind(t, e.t, Control(e.t, c));
    }
  }

  lemma EscapeBehind(t: Term, e: Emu, c: Byte)
    requires e.Emu? && Inv(e.t) && Behind(t, e.t) && c != 'c' as int
    ensures var e' := EscapeByte(e, c); Behind(t, e'.t) && e'.t.altPending == e.t.altPending
  {
    hide Behind, Control, LineFeed, ReverseIndex, RestoreCursor, SaveCursor, SetTab, New;
    SteadyBehind(t, e.t, e.t);
    var e' := EscapeByte(e, c);
    assert Steady(e.t, e'.t);
    SteadyBehind(t, e.t, e'.t);
  }

  lemma StepBehind(t: Term, e: Emu, c: Byte)
    requires e.Emu? && Inv(e.t) && Behind(t, e.t) && !Disturbs(e, c)
    ensures var e' := Step(e, c); e'.Emu? ==> Behind(t, e'.t) && e'.t.altPending == e.t.altPending
  {
    hide GroundByte, EscapeByte, CsiByte, OscByte, StrByte, CharsetByte, Behind, Steady;
    match e.p.state
    case Ground => SteadyBehind(t, e.t, GroundByte(e, c).t);
    case Escape => EscapeBehind(t, e, c);
    case Csi => CsiBehind(t, e, c);
    case Osc => SteadyBehind(t, e.t, OscByte(e, c).t);
    case CharsetSelect => SteadyBehind(t, e.t, CharsetByte(e, c).t);
    case Str => SteadyBehind(t, e.t, StrByte(e, c).t);
  }

  ghost predicate Calm(e: Emu, bs: seq<Byte>)
    requires Valid(e)
  {
    forall k: nat :: k < |bs| ==> !Disturbs(Feed(e, bs[..k]), bs[k])
  }

  lemma CalmLater(e: Emu, bs: seq<Byte>)
    requires Valid(e) && bs != [] && Calm(e, bs)
    ensures !Disturbs(e, bs[0]) && Calm(Step(e, bs[0]), bs[1..])
  {
    hide Step, Disturbs;
    assert Feed(e, bs[..0]) == e;
    forall k: nat | k < |bs| - 1
      ensures !Disturbs(Feed(Step(e, bs[0]), bs[1..][..k]), bs[1..][k])
    {
      assert bs[..k + 1][1..] == bs[1..][..k];
      assert !Disturbs(Feed(e, bs[..k + 1]), bs[k + 1]);
    }
  }

  lemma {:induction false} WriteBehind(t: Term, e: Emu, bs: seq<Byte>)
    requires e.Emu? && Inv(e.t) && Behind(t, e.t) && Calm(e, bs)
    ensures var e' := Feed(e, bs); e'.Emu? ==> Behind(t, e'.t) && e'.t.altPending == e.t.altPending
    decreases |bs|
  {
    hide Step, Behind, Disturbs, Calm;
    if bs != [] {
      CalmLater(e, bs);
      StepBehind(t, e, bs[0]);
      if Step(e, bs[0]).Emu? {
        WriteBehind(t, Step(e, bs[0]), bs[1..]);
      } else {
        StaysLost(bs[1..]);
      }
    }
  }

  // The size was changed in a run.
  predicate SizeChanged(events: seq<Event>) {
    exists i :: 0 <= i < |events| && events[i].Resized? && events[i].cols >= 2 && events[i].rows >= 1
  }

  lemma ResizeBehind(t: Term, u: Term, cols: nat, rows: nat)
    requires Inv(u) && Behind(t, u) && cols >= 2 && rows >= 1
    ensures Behind(t, Resize(u, cols, rows)) && Resize(u, cols, rows).altPending
  {
    hide FitLines;
  }

  lemma {:induction false} RunBehind(t: Term, e: Emu, events: seq<Event>)
    requires e.Emu? && Inv(e.t) && Behind(t, e.t) && Undisturbed(e, events)
    ensures var e' := Run(e, events);
            e'.Emu? ==> Behind(t, e'.t) && (e'.t.altPending <==> e.t.altPending || SizeChanged(events))
    decreases |events|
  {
    hide Step, Behind, Disturbs, Resize;
    if events != [] {
      var e1 := Happened(e, events[0]);
      if events[0].Wrote? {
        assert Calm(e, events[0].bytes);
        WriteBehind(t, e, events[0].bytes);
      } else if events[0].cols >= 2 && events[0].rows >= 1 {
        ResizeBehind(t, e.t, events[0].cols, events[0].rows);
      }
      SizedLater(events);
      if e1.Emu? {
        RunBehind(t, e1, events[1..]);
      } else {
        LostForGood(events[1..]);
      }
    }
  }

  lemma SizedLater(events: seq<Event>)
    requires events != []
    ensures SizeChanged(events) <==>
      (events[0].Resized? && events[0].cols >= 2 && events[0].rows >= 1) || SizeChanged(events[1..])
  {
    if i :| 0 <= i < |events| && events[i].Resized? && events[i].cols >= 2 && events[i].rows >= 1 && i > 0 {
      assert events[1..][i - 1] == events[i];
    }
    if i :| 0 <= i < |events[1..]| && events[1..][i].Resized? && events[1..][i].cols >= 2 && events[1..][i].rows >= 1 {
      assert events[i + 1] == events[1..][i];
    }
  }

  // ---------------------------------------------------------------- coming and going

  // A program that takes the screen finds it empty, with the cursor where it was.
  lemma Entered(t: Term, p: Parser)
    requires Inv(t) && Quiet(p) && t.alt.None?
    ensures var e := Feed(Emu(t, p), PrivateBytes(1049, true));
            && e.Emu? && Quiet(e.p) && Behind(t, e.t) && !e.t.altPending
            && e.t == t.(lines := BlankLines(t.cols, t.rows), alt := Some(t.lines), altSaved := t.cur)
  {
    hide Step, PrivateBytes;
    FeedPrivate(t, p, 1049, true);
  }

  // When it has gone, the rows, the scrollback and the cursor are those from before it came. If the size
  // has changed meanwhile, the text is laid out once for the last size, and the cursor is where it was,
  // brought inside that.
  lemma Returned(t: Term, p: Parser, events: seq<Event>)
    requires Inv(t) && Quiet(p) && t.alt.None?
    requires var e0 := Feed(Emu(t, p), PrivateBytes(1049, true)); Undisturbed(e0, events)
    requires var e1 := Run(Feed(Emu(t, p), PrivateBytes(1049, true)), events); e1.Emu? && Quiet(e1.p)
    ensures var e1 := Run(Feed(Emu(t, p), PrivateBytes(1049, true)), events);
            var e2 := Feed(e1, PrivateBytes(1049, false));
            && e2.Emu? && e2.t.alt.None? && !e2.t.pend && Quiet(e2.p)
            && e2.t.cols == e1.t.cols && e2.t.rows == e1.t.rows
            && e2.t.cur == t.cur.(row := Min(t.cur.row, e1.t.rows - 1), col := Min(t.cur.col, e1.t.cols - 1))
            && (!SizeChanged(events) ==>
                  e2.t.lines == t.lines && e2.t.hist == t.hist && e2.t.cur == t.cur && e2.t.cols == t.cols && e2.t.rows == t.rows)
            && (SizeChanged(events) ==>
                  var laid := ReflowTo(t.(cur := e1.t.cur), e1.t.cols, e1.t.rows);
                  e2.t.lines == laid.lines && e2.t.hist == laid.hist)
  {
    hide Step, PrivateBytes, Undisturbed, Run, ReflowTo, PrivateMode;
    Entered(t, p);
    var e0 := Feed(Emu(t, p), PrivateBytes(1049, true));
    RunBehind(t, e0, events);
    var e1 := Run(e0, events);
    FeedPrivate(e1.t, e1.p, 1049, false);
    Leaving(t, e1.t);
  }

  lemma Leaving(t: Term, u: Term)
    requires Inv(t) && Inv(u) && Behind(t, u)
    ensures var u' := PrivateMode(u, 1049, false);
            && u'.Some? && u'.value.alt.None? && !u'.value.pend
            && u'.value.cols == u.cols && u'.value.rows == u.rows
            && u'.value.cur == t.cur.(row := Min(t.cur.row, u.rows - 1), col := Min(t.cur.col, u.cols - 1))
            && (!u.altPending ==> u'.value.lines == t.lines && u'.value.hist == t.hist && u'.value.cur == t.cur)
            && (u.altPending ==>
                  var laid := ReflowTo(t.(cur := u.cur), u.cols, u.rows);
                  u'.value.lines == laid.lines && u'.value.hist == laid.hist)
  {
    hide LayOut, LogicalLines;
    if u.altPending {
      SameLayout(u.(lines := t.lines, alt := None, altPending := false), t.(cur := u.cur), u.cols, u.rows);
    }
  }

  // A program that asks for the screen again changes nothing.
  lemma EnteredAgain(u: Term, n: int)
    requires Inv(u) && u.alt.Some? && n in ALT_SCREENS
    ensures PrivateMode(u, n, true) == Some(u)
  {
  }

  // While it has the screen a resize keeps of its drawing what fits, in place, and its cursor inside.
  lemma ResizedInPlace(u: Term, cols: nat, rows: nat)
    requires Inv(u) && u.alt.Some? && cols >= 2 && rows >= 1
    ensures var u' := Resize(u, cols, rows);
            && |u'.lines| == rows && u'.cur.row == Min(u.cur.row, rows - 1) && u'.cur.col == Min(u.cur.col, cols - 1)
            && forall r :: 0 <= r < rows ==> |u'.lines[r].cells| == cols
    ensures var u' := Resize(u, cols, rows);
            |u'.lines| == rows && forall r, c :: 0 <= r < rows && 0 <= c < cols && |u'.lines[r].cells| == cols ==>
              u'.lines[r].cells[c] == if r < u.rows && c < u.cols then u.lines[r].cells[c] else BLANK
  {
    var u' := Resize(u, cols, rows);
    assert u'.lines == FitLines(u.lines, cols, rows);
    forall r | 0 <= r < rows
      ensures FitLines(u.lines, cols, rows)[r] == FitTo(u.lines, r, cols)
    {
    }
  }

  // Without the saved cursor - modes 47 and 1047 - the rows and the scrollback are back too, and the
  // cursor stays where the program had it.
  lemma LeavingPlainly(t: Term, u: Term, n: int)
    requires Inv(t) && Inv(u) && Behind(t, u) && !u.altPending && (n == 47 || n == 1047)
    ensures var u' := PrivateMode(u, n, false);
            u'.Some? && u'.value == u.(lines := t.lines, alt := None, pend := false) && u'.value.hist == t.hist
  {
  }

  // What a layout makes of rows, scrollback and cursor is all it has to do with them.
  lemma SameLayout(t: Term, u: Term, cols: nat, rows: nat)
    requires cols >= 2 && rows >= 1
    requires t.lines == u.lines && t.hist == u.hist && t.cur == u.cur && t.limit == u.limit
    ensures ReflowTo(t, cols, rows).lines == ReflowTo(u, cols, rows).lines
    ensures ReflowTo(t, cols, rows).hist == ReflowTo(u, cols, rows).hist
  {
    hide LayOut;
    assert LogicalLines(t) == LogicalLines(u);
  }
}
