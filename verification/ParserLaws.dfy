/** What the parser makes of whole sequences: writes split anywhere, control sequences, text. */
module ParserLaws {
  import opened Vt
  import opened Grid
  import opened Reflow
  import opened Parser
  import opened Utf8
  import opened Decimal
  import Render

  // ---------------------------------------------------------------- splitting writes

  // However a stream is cut into writes, the terminal and the parser end in the same state.
  lemma {:induction false} WriteSplitting(e: Emu, a: seq<Byte>, b: seq<Byte>)
    requires Valid(e)
    ensures Feed(e, a + b) == Feed(Feed(e, a), b)
    decreases |a|
  {
    if a == [] {
      assert a + b == b;
    } else {
      assert (a + b)[1..] == a[1..] + b;
      WriteSplitting(Step(e, a[0]), a[1..], b);
    }
  }

  lemma WriteInThree(e: Emu, a: seq<Byte>, b: seq<Byte>, c: seq<Byte>)
    requires Valid(e)
    ensures Feed(e, a + (b + c)) == Feed(Feed(Feed(e, a), b), c)
  {
    hide Step, Feed;
    WriteSplitting(e, a, b + c);
    WriteSplitting(Feed(e, a), b, c);
  }

  lemma FeedOne(e: Emu, c: Byte)
    requires Valid(e)
    ensures Feed(e, [c]) == Step(e, c)
  {
    assert Feed(Step(e, c), [c][1..]) == Step(e, c);
  }

  // ---------------------------------------------------------------- saved cursors

  // The cursor that mode 1048 would restore is on the screen.
  ghost predicate SavedFits(t: Term) { InScreen(t.altSaved, t.cols, t.rows) }

  lemma LeavingKeepsSaved(t: Term, restore: bool)
    requires Inv(t) && SavedFits(t)
    ensures SavedFits(LeaveAlt(t, restore))
  {
  }

  lemma ModeKeepsSaved(t: Term, n: int, on: bool)
    requires Inv(t) && SavedFits(t)
    ensures var t' := PrivateMode(t, n, on);
            t'.Some? && SavedFits(t'.value)
  {
    hide ReflowTo;
    if n == 47 || n == 1047 || n == 1049 {
      LeavingKeepsSaved(t, n == 1049);
    }
  }

  lemma {:induction false} ModesKeepSaved(t: Term, ns: seq<int>, on: bool)
    requires Inv(t) && SavedFits(t)
    ensures var t' := PrivateModes(t, ns, on);
            t'.Some? && SavedFits(t'.value)
    decreases |ns|
  {
    if ns != [] {
      ModeKeepsSaved(t, ns[0], on);
      ModesKeepSaved(PrivateMode(t, ns[0], on).value, ns[1..], on);
    }
  }

  lemma CsiKeepsSaved(e: Emu, c: Byte)
    requires e.Emu? && Inv(e.t) && SavedFits(e.t)
    ensures CsiByte(e, c).Emu? && SavedFits(CsiByte(e, c).t)
  {
    if 0x40 <= c <= 0x7e && |e.p.params| > 0 && e.p.params[0] == '?' as int {
      ModesKeepSaved(e.t, Params(e.p.params[1..]), c == 'h' as int);
    }
  }

  lemma StepKeepsSaved(e: Emu, c: Byte)
    requires e.Emu? && Inv(e.t) && SavedFits(e.t)
    ensures Step(e, c).Emu? && SavedFits(Step(e, c).t)
  {
    match e.p.state
    case Ground => assert Steady(e.t, GroundByte(e, c).t);
    case Escape => assert EscapeByte(e, c).Emu?;
    case Csi => CsiKeepsSaved(e, c);
    case Osc => assert Steady(e.t, OscByte(e, c).t);
    case CharsetSelect => assert Steady(e.t, CharsetByte(e, c).t);
    case Str => assert Steady(e.t, StrByte(e, c).t);
  }

  // While the cursor that mode 1048 would restore is on the screen, no write can lose the terminal.
  lemma {:induction false} WriteNeverLost(e: Emu, bs: seq<Byte>)
    requires e.Emu? && Inv(e.t) && SavedFits(e.t)
    ensures Feed(e, bs).Emu? && SavedFits(Feed(e, bs).t)
    decreases |bs|
  {
    if bs != [] {
      StepKeepsSaved(e, bs[0]);
      WriteNeverLost(Step(e, bs[0]), bs[1..]);
    }
  }

  // ---------------------------------------------------------------- control sequences

  // Nothing is half-read and nothing is owed.
  predicate Quiet(p: Parser) { p.state == Ground && p.utf8 == [] && !p.invalid }

  predicate ParameterBytes(s: seq<Byte>) { forall i :: 0 <= i < |s| ==> 0x30 <= s[i] <= 0x3f }

  lemma {:induction false} FeedParameters(e: Emu, s: seq<Byte>)
    requires e.Emu? && Inv(e.t) && e.p.state == Csi && ParameterBytes(s)
    ensures Feed(e, s) == e.(p := e.p.(params := e.p.params + s))
    decreases |s|
  {
    if s == [] {
      assert e.p.params + s == e.p.params;
    } else {
      assert e.p.params + [s[0]] + s[1..] == e.p.params + s;
      FeedParameters(Step(e, s[0]), s[1..]);
    }
  }

  lemma FeedOpening(e: Emu)
    requires e.Emu? && Inv(e.t) && Quiet(e.p)
    ensures Feed(e, [ESC, 0x5b]) == e.(p := e.p.(state := Csi, params := [], inter := []))
  {
    assert [ESC, 0x5b] == [ESC] + [0x5b];
    WriteSplitting(e, [ESC], [0x5b]);
    FeedOne(e, ESC);
    FeedOne(Step(e, ESC), 0x5b);
  }

  // A whole control sequence does what it is dispatched to, and leaves its parameters behind.
  lemma FeedSequence(e: Emu, s: seq<Byte>, final: Byte)
    requires e.Emu? && Inv(e.t) && Quiet(e.p) && ParameterBytes(s) && 0x40 <= final <= 0x7e
    ensures Feed(e, [ESC, 0x5b] + s + [final])
            == match Dispatch(e.t, s, [], final)
               case Some(t) => Emu(t, e.p.(params := s, inter := []))
               case None => Lost
  {
    hide Feed, Dispatch;
    var open := e.(p := e.p.(state := Csi, params := [], inter := []));
    var read := open.(p := open.p.(params := s));
    WriteSplitting(e, [ESC, 0x5b] + s, [final]);
    WriteSplitting(e, [ESC, 0x5b], s);
    FeedOpening(e);
    assert [] + s == s;
    FeedParameters(open, s);
    FeedOne(read, final);
    assert Step(read, final) == CsiByte(read, final);
  }

  lemma JoinIsParameters(ns: seq<nat>)
    ensures ParameterBytes(Join(ns)) && (Join(ns) != [] ==> Join(ns)[0] != '?' as int)
  {
  }

  // The same for a sequence with a list of numbers.
  lemma FeedCsi(e: Emu, ns: seq<nat>, final: Byte)
    requires e.Emu? && Inv(e.t) && Quiet(e.p) && 0x40 <= final <= 0x7e
    ensures Feed(e, Render.CsiBytes(ns, final)) == Emu(Perform(e.t, ns, [], final), e.p.(params := Join(ns), inter := []))
  {
    JoinIsParameters(ns);
    ParamsJoin(ns);
    FeedSequence(e, Join(ns), final);
  }

  // ---------------------------------------------------------------- text

  // Characters as text does not hide: autowrap on, nothing inserted, no line-drawing set in force.
  predicate Plain(t: Term) { !t.irm && t.awm && t.active <= 1 && (if t.active == 1 then t.g1 else t.g0) == CharsetAscii }

  // A byte that leaves a character unfinished is kept.
  lemma MiddleByte(e: Emu, c: Byte)
    requires e.Emu? && Inv(e.t) && e.p.state == Ground && !e.p.invalid && c >= 0x80
    requires !FullRune(e.p.utf8 + [c]) && (e.p.utf8 != [] ==> IsContinuation(c))
    ensures Step(e, c) == e.(p := e.p.(utf8 := e.p.utf8 + [c]))
  {
    IncompleteCouldComplete(e.p.utf8 + [c]);
    assert Settled(e, c) == e;
    assert Step(e, c) == Decoded(e.(p := e.p.(utf8 := e.p.utf8 + [c])));
  }

  lemma {:induction false} FeedPrefix(e: Emu, r: Rune, k: nat)
    requires e.Emu? && Inv(e.t) && Quiet(e.p) && r >= 0x80 && k < |Encode(r)|
    ensures Feed(e, Encode(r)[..k]) == e.(p := e.p.(utf8 := Encode(r)[..k]))
  {
    hide Step, FullRune;
    var u := Encode(r);
    if k > 0 {
      FeedPrefix(e, r, k - 1);
      assert u[..k] == u[..k - 1] + [u[k - 1]];
      var e1 := e.(p := e.p.(utf8 := u[..k - 1]));
      WriteSplitting(e, u[..k - 1], [u[k - 1]]);
      FeedOne(e1, u[k - 1]);
      DecodeEncode(r);
      LeadNotAscii(r);
      MiddleByte(e1, u[k - 1]);
    }
  }

  lemma LeadNotAscii(r: Rune)
    requires r >= 0x80
    ensures Encode(r)[0] >= 0x80
  {
  }

  lemma GroundAscii(e: Emu, c: Byte)
    requires e.Emu? && Inv(e.t) && Quiet(e.p) && Plain(e.t) && 0x20 <= c < 0x7f
    ensures GroundByte(e, c) == e.(t := Put(e.t, c, RuneWidth(c)))
  {
    assert Settled(e, c) == e;
    assert MapRune(e.t, c) == None;
  }

  lemma FeedAscii(e: Emu, r: Rune)
    requires e.Emu? && Inv(e.t) && Quiet(e.p) && Plain(e.t) && 0x20 <= r < 0x7f
    ensures Feed(e, Encode(r)) == e.(t := Put(e.t, r, RuneWidth(r)))
  {
    GroundAscii(e, r);
    FeedOne(e, r);
    assert Encode(r) == [r];
  }

  lemma LastByte(e: Emu, r: Rune)
    requires e.Emu? && Inv(e.t) && e.p.state == Ground && !e.p.invalid && r >= 0x80
    requires e.p.utf8 == Encode(r)[..|Encode(r)| - 1]
    ensures Step(e, Encode(r)[|Encode(r)| - 1]) == Emu(Put(e.t, r, RuneWidth(r)), e.p.(utf8 := []))
  {
    hide Decoded, FullRune, DecodeRune, CouldComplete;
    var u := Encode(r);
    var c := u[|u| - 1];
    assert u == u[..|u| - 1] + [c];
    assert Settled(e, c) == e;
    assert Step(e, c) == Decoded(e.(p := e.p.(utf8 := u)));
    WholeDecoded(e.(p := e.p.(utf8 := u)), r);
  }

  // A whole character is drawn.
  lemma WholeDecoded(e: Emu, r: Rune)
    requires e.Emu? && Inv(e.t) && r >= 0x80 && e.p.utf8 == Encode(r)
    ensures Decoded(e) == Emu(Put(e.t, r, RuneWidth(r)), e.p.(utf8 := []))
  {
    hide Encode, FullRune, DecodeRune, CouldComplete, RuneWidth, Put;
    DecodeEncode(r);
    LongerThanOne(r);
  }

  lemma LongerThanOne(r: Rune)
    requires r >= 0x80
    ensures |Encode(r)| > 1
  {
  }

  lemma FeedRune(e: Emu, r: Rune)
    requires e.Emu? && Inv(e.t) && Quiet(e.p) && Plain(e.t) && (r >= 0x80 || 0x20 <= r < 0x7f)
    ensures Feed(e, Encode(r)) == e.(t := Put(e.t, r, RuneWidth(r)))
  {
    if r < 0x80 {
      FeedAscii(e, r);
    } else {
      var u := Encode(r);
      var k := |u| - 1;
      var e1 := e.(p := e.p.(utf8 := u[..k]));
      FeedPrefix(e, r, k);
      assert u == u[..k] + [u[k]];
      WriteSplitting(e, u[..k], [u[k]]);
      FeedOne(e1, u[k]);
      LastByte(e1, r);
    }
  }
}
