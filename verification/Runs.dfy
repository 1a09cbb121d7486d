/** Whole runs of writes and resizes: what the screen keeps through all of them, and the one thing
    that can put its cursor outside it. */
module Runs {
  import opened Vt
  import opened Grid
  import opened Reflow
  import opened Parser
  import opened ParserLaws
  import opened Decimal

  datatype Event = Wrote(bytes: seq<Byte>) | Resized(cols: nat, rows: nat)

  // A resize to less than one column or row does nothing; one column is not part of this model.
  function Happened(e: Emu, event: Event): (e': Emu)
    requires Valid(e)
    ensures Valid(e')
  {
    match event
    case Wrote(bytes) => Feed(e, bytes)
    case Resized(cols, rows) => if e.Lost? || cols < 2 || rows < 1 then e else e.(t := Resize(e.t, cols, rows))
  }

  // Every state of a run that is not lost has the screen's invariant, whatever was written and
  // however often the size changed.
  function Run(e: Emu, events: seq<Event>): (e': Emu)
    requires Valid(e)
    ensures Valid(e')
    decreases |events|
  {
    if events == [] then e else Run(Happened(e, events[0]), events[1..])
  }

  // ---------------------------------------------------------------- the one way out

  // This byte completes a sequence that switches mode 1048 off: the saved cursor is put back as it is.
  predicate Restores(e: Emu, c: Byte) {
    && e.Emu? && e.p.state == Csi && c == 'l' as int
    && |e.p.params| > 0 && e.p.params[0] == '?' as int && 1048 in Params(e.p.params[1..])
  }

  lemma ModeOffKeepsSaved(t: Term, n: int)
    requires Inv(t) && n != 1048
    ensures var t' := PrivateMode(t, n, false);
            t'.Some? && t'.value.altSaved == t.altSaved && t'.value.cols == t.cols && t'.value.rows == t.rows
  {
    hide LayOut, LogicalLines;
  }

  lemma {:induction false} ModesOff(t: Term, ns: seq<int>)
    requires Inv(t)
    ensures PrivateModes(t, ns, false).None? <==> 1048 in ns && !SavedFits(t)
    decreases |ns|
  {
    hide PrivateMode;
    if ns != [] {
      if ns[0] == 1048 {
        RestoreFits(t);
      } else {
        ModeOffKeepsSaved(t, ns[0]);
      }
      if PrivateMode(t, ns[0], false).Some? {
        ModesOff(PrivateMode(t, ns[0], false).value, ns[1..]);
      }
    }
  }

  lemma RestoreFits(t: Term)
    requires Inv(t)
    ensures PrivateMode(t, 1048, false) == if SavedFits(t) then Some(t.(cur := t.altSaved, pend := false)) else None
  {
  }

  lemma {:induction false} ModesOn(t: Term, ns: seq<int>)
    requires Inv(t)
    ensures PrivateModes(t, ns, true).Some?
    decreases |ns|
  {
    if ns != [] {
      assert PrivateMode(t, ns[0], true).Some?;
      ModesOn(PrivateMode(t, ns[0], true).value, ns[1..]);
    }
  }

  // A byte loses the terminal exactly when it restores a cursor that is not on the screen.
  lemma StepLost(e: Emu, c: Byte)
    requires e.Emu? && Inv(e.t)
    ensures Step(e, c).Lost? <==> Restores(e, c) && !SavedFits(e.t)
  {
    hide PrivateModes, Perform, GroundByte, EscapeByte, OscByte, StrByte, CharsetByte, Params;
    if e.p.state.Csi? {
      CsiLost(e, c);
    } else {
      OthersStay(e, c);
    }
  }

  lemma OthersStay(e: Emu, c: Byte)
    requires e.Emu? && Inv(e.t) && !e.p.state.Csi?
    ensures Step(e, c).Emu?
  {
    hide GroundByte, EscapeByte, OscByte, StrByte, CharsetByte;
    match e.p.state
    case Ground => GroundStays(e, c);
    case Escape => EscapeStays(e, c);
    case Osc => OscStays(e, c);
    case CharsetSelect => CharsetStays(e, c);
    case Str => StrStays(e, c);
  }

  lemma GroundStays(e: Emu, c: Byte)
    requires e.Emu? && Inv(e.t)
    ensures GroundByte(e, c).Emu?
  {
    assert Steady(e.t, GroundByte(e, c).t);
  }

  lemma EscapeStays(e: Emu, c: Byte)
    requires e.Emu? && Inv(e.t)
    ensures EscapeByte(e, c).Emu?
  {
    assert Inv(EscapeByte(e, c).t);
  }

  lemma OscStays(e: Emu, c: Byte)
    requires e.Emu? && Inv(e.t)
    ensures OscByte(e, c).Emu?
  {
    assert Steady(e.t, OscByte(e, c).t);
  }

  lemma CharsetStays(e: Emu, c: Byte)
    requires e.Emu? && Inv(e.t)
    ensures CharsetByte(e, c).Emu?
  {
    assert Steady(e.t, CharsetByte(e, c).t);
  }

  lemma StrStays(e: Emu, c: Byte)
    requires e.Emu? && Inv(e.t)
    ensures StrByte(e, c).Emu?
  {
    assert Steady(e.t, StrByte(e, c).t);
  }

  lemma CsiLost(e: Emu, c: Byte)
    requires e.Emu? && Inv(e.t) && e.p.state == Csi
    ensures CsiByte(e, c).Lost? <==> Restores(e, c) && !SavedFits(e.t)
  {
    hide PrivateModes, Perform, Params, Control;
    if 0x40 <= c <= 0x7e && |e.p.params| > 0 && e.p.params[0] == '?' as int {
      ModesOff(e.t, Params(e.p.params[1..]));
      ModesOn(e.t, Params(e.p.params[1..]));
    }
  }

  // The k-th byte of a write does.
  ghost predicate LosesAt(e: Emu, bs: seq<Byte>, k: nat)
    requires Valid(e)
  {
    k < |bs| && Feed(e, bs[..k]).Emu? && Restores(Feed(e, bs[..k]), bs[k]) && !SavedFits(Feed(e, bs[..k]).t)
  }

  lemma {:induction false} StaysLost(bs: seq<Byte>)
    ensures Feed(Lost, bs) == Lost
  {
    if bs != [] {
      StaysLost(bs[1..]);
    }
  }

  lemma {:induction false} FeedLost(e: Emu, bs: seq<Byte>)
    requires e.Emu? && Inv(e.t)
    ensures Feed(e, bs).Lost? <==> exists k: nat :: LosesAt(e, bs, k)
    decreases |bs|
  {
    hide Step, Restores, SavedFits;
    if bs != [] {
      var e1, rest := Step(e, bs[0]), bs[1..];
      StepLost(e, bs[0]);
      assert Feed(e, bs[..0]) == e;
      assert LosesAt(e, bs, 0) <==> e1.Lost?;
      if e1.Lost? {
        StaysLost(rest);
      } else {
        FeedLost(e1, rest);
        forall k: nat | k < |rest|
          ensures LosesAt(e1, rest, k) <==> LosesAt(e, bs, k + 1)
        {
          LosesLater(e, bs, k);
        }
        if k: nat :| LosesAt(e1, rest, k) {
          assert LosesAt(e, bs, k + 1);
        }
        if k: nat :| LosesAt(e, bs, k) {
          assert k > 0 && LosesAt(e1, rest, k - 1);
        }
      }
    }
  }

  lemma LosesLater(e: Emu, bs: seq<Byte>, k: nat)
    requires Valid(e) && k + 1 < |bs|
    ensures LosesAt(Step(e, bs[0]), bs[1..], k) <==> LosesAt(e, bs, k + 1)
  {
    hide Step;
    assert bs[..k + 1][1..] == bs[1..][..k];
  }

  // Somewhere in a run the saved cursor is put back when it is not on the screen.
  ghost predicate Strands(e: Emu, events: seq<Event>)
    requires Valid(e)
    decreases |events|
  {
    && events != [] && e.Emu?
    && (|| (events[0].Wrote? && exists k: nat :: LosesAt(e, events[0].bytes, k))
        || Strands(Happened(e, events[0]), events[1..]))
  }

  lemma {:induction false} LostForGood(events: seq<Event>)
    ensures Run(Lost, events) == Lost && !Strands(Lost, events)
    decreases |events|
  {
    if events != [] {
      if events[0].Wrote? {
        StaysLost(events[0].bytes);
      }
      LostForGood(events[1..]);
    }
  }

  // A run loses the terminal exactly when it does that; nothing else that is written, and no resize
  // by itself, can.
  lemma {:induction false} RunLost(e: Emu, events: seq<Event>)
    requires e.Emu? && Inv(e.t)
    ensures Run(e, events).Lost? <==> Strands(e, events)
    decreases |events|
  {
    hide Step, Resize;
    if events != [] {
      if events[0].Wrote? {
        FeedLost(e, events[0].bytes);
      }
      var e' := Happened(e, events[0]);
      if e'.Lost? {
        LostForGood(events[1..]);
      } else {
        RunLost(e', events[1..]);
      }
    }
  }

  // Mode 1048 is not switched off anywhere in a run.
  ghost predicate NeverRestores(e: Emu, events: seq<Event>)
    requires Valid(e)
    decreases |events|
  {
    events != [] ==>
      && (events[0].Wrote? ==> forall k: nat :: k < |events[0].bytes| ==> !Restores(Feed(e, events[0].bytes[..k]),
        events[0].bytes[k]))
      && NeverRestores(Happened(e, events[0]), events[1..])
  }

  // Such a run is survived whatever its sizes: entering and leaving the alternate screen included.
  lemma {:induction false} RunSurvives(e: Emu, events: seq<Event>)
    requires e.Emu? && Inv(e.t) && NeverRestores(e, events)
    ensures Run(e, events).Emu? && Inv(Run(e, events).t)
    decreases |events|
  {
    hide Step, Resize, Restores;
    if events != [] {
      if events[0].Wrote? {
        FeedLost(e, events[0].bytes);
      }
      RunSurvives(Happened(e, events[0]), events[1..]);
    }
  }

  // ---------------------------------------------------------------- and a run that takes it

  function PrivateBytes(n: nat, on: bool): seq<Byte> {
    [ESC, 0x5b] + (['?' as int] + Itoa(n)) + [if on then 'h' as int else 'l' as int]
  }

  lemma OneModeDispatched(t: Term, n: nat, on: bool)
    requires Inv(t)
    ensures Dispatch(t, ['?' as int] + Itoa(n), [], if on then 'h' as int else 'l' as int) == PrivateMode(t, n, on)
  {
    hide PrivateMode;
    var s: seq<Byte> := ['?' as int] + Itoa(n);
    assert s[1..] == Itoa(n);
    FieldsNumber(n, []);
    assert Itoa(n) + [] == Itoa(n) && Fields([], Itoa(n)) == [n];
    assert Params(s[1..]) == [n];
    assert [n][1..] == [];
    assert PrivateModes(t, [n], on) == PrivateMode(t, n, on);
  }

  lemma FeedPrivate(t: Term, p: Parser, n: nat, on: bool)
    requires Inv(t) && Quiet(p)
    ensures var e := Feed(Emu(t, p), PrivateBytes(n, on)); var t' := PrivateMode(t, n, on);
            if t'.Some? then e.Emu? && e.t == t'.value && Quiet(e.p) else e == Lost
  {
    hide Dispatch, PrivateMode, Step;
    var final: Byte := if on then 'h' as int else 'l' as int;
    FeedSequence(Emu(t, p), ['?' as int] + Itoa(n), final);
    OneModeDispatched(t, n, on);
  }

  // A cursor saved with mode 1048, a resize of the primary screen, and the cursor restored: the
  // terminal is lost exactly when the cursor was outside the new size.
  lemma SaveResizeRestore(t: Term, p: Parser, cols: nat, rows: nat)
    requires Inv(t) && Quiet(p) && t.alt.None? && cols >= 2 && rows >= 1
    ensures Run(Emu(t, p), [Wrote(PrivateBytes(1048, true)), Resized(cols, rows), Wrote(PrivateBytes(1048, false))]).Lost?
            <==> t.cur.row >= rows || t.cur.col >= cols
  {
    hide Step, PrivateBytes, PrivateMode, Resize;
    var save, restore := Wrote(PrivateBytes(1048, true)), Wrote(PrivateBytes(1048, false));
    SaveIs(t);
    FeedPrivate(t, p, 1048, true);
    var e1 := Feed(Emu(t, p), save.bytes);
    ResizeKeepsSaved(e1.t, cols, rows);
    var e2 := e1.(t := Resize(e1.t, cols, rows));
    FeedPrivate(e2.t, e2.p, 1048, false);
    RestoreFits(e2.t);
    RunOfThree(Emu(t, p), save, Resized(cols, rows), restore);
    assert Happened(Emu(t, p), save) == e1;
    assert Happened(e1, Resized(cols, rows)) == e2;
    assert e2.t.altSaved == t.cur;
    assert Happened(e2, restore).Lost? <==> !SavedFits(e2.t);
  }

  lemma SaveIs(t: Term)
    requires Inv(t)
    ensures PrivateMode(t, 1048, true) == Some(t.(altSaved := t.cur))
  {
  }

  lemma ResizeKeepsSaved(t: Term, cols: nat, rows: nat)
    requires Inv(t) && t.alt.None? && cols >= 2 && rows >= 1
    ensures var t' := Resize(t, cols, rows); t'.altSaved == t.altSaved && t'.cols == cols && t'.rows == rows
  {
    hide LayOut, LogicalLines;
  }

  lemma RunOfThree(e: Emu, a: Event, b: Event, c: Event)
    requires Valid(e)
    ensures Run(e, [a, b, c]) == Happened(Happened(Happened(e, a), b), c)
  {
    hide Happened;
    var e1 := Happened(e, a);
    var e2 := Happened(e1, b);
    assert [a, b, c][1..] == [b, c] && [b, c][1..] == [c] && [c][1..] == [];
    assert Run(e2, [c]) == Run(Happened(e2, c), []);
    assert Run(e1, [b, c]) == Run(e2, [c]);
  }
}
