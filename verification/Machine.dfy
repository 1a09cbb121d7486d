/** The parser as it is kept, driving a terminal in place: what it reads ahead and how a write is cut
    make no difference to where the byte-at-a-time machine would be. */
module Machine {
  import opened Vt
  import opened Grid
  import opened Utf8
  import opened Decimal
  import opened Screens
  import Reflow
  import Relayout
  import Parser
  import opened ParserLaws

  // ---------------------------------------------------------------- graphic rendition

  method Sgr(t: Terminal, params: seq<int>)
    requires t.Valid()
    modifies t`style
    ensures t.Valid() && t.Repr() == old(t.Repr())
    ensures t.Screen() == old(t.Screen()).(style := Parser.Sgr(old(t.Screen()).style, params))
  {
    hide RowStore.Rows.Valid, History.HistRing.Valid, Parser.SgrCode;
    var ps := if params == [] then [0] else params;
    var i := 0;
    var style := t.style;
    while i < |ps|
      invariant 0 <= i <= |ps|
      invariant Parser.SgrFrom(style, ps[i..]) == Parser.Sgr(t.style, params)
    {
      var n := ps[i];
      if n == 38 || n == 48 {
        var (c, used) := Parser.ExtendedColor(ps[i + 1..]);
        style := if n == 38 then style.(fg := c) else style.(bg := c);
        i := i + used;
      } else {
        style := Parser.SgrCode(style, n);
      }
      i := i + 1;
    }
    t.style := style;
  }

  // ---------------------------------------------------------------- the parser

  class Decoder {
    var state: Parser.State
    var strEsc: bool
    var params: seq<Byte>
    var inter: seq<Byte>
    var utf8: seq<Byte>
    var oscBuf: seq<Byte>
    var charsetSlot: nat
    var invalid: bool

    ghost function Value(): Parser.Parser
      reads this
    {
      Parser.Parser(state, strEsc, params, inter, utf8, oscBuf, charsetSlot, invalid)
    }

    ghost function Emu(t: Terminal): Parser.Emu
      reads this, t, t.buf, t.alt, t.hist
    {
      Parser.Emu(t.Screen(), Value())
    }

    constructor ()
      ensures Value() == Parser.START
    {
      state, strEsc, params, inter, utf8, oscBuf, charsetSlot, invalid := Parser.Ground, false, [], [], [], [], 0, false;
    }

    // ---------------------------------------------------------------- controls and text

    method Control(t: Terminal, c: Byte) returns (done: bool)
      requires t.Valid() && this !in t.Repr()
      modifies t.Repr()
      ensures t.Valid() && fresh(t.Repr() - old(t.Repr())) && done == Parser.IsControl(c)
      ensures t.Screen() == if done then Parser.Control(old(t.Screen()), c) else old(t.Screen())
    {
      t.Bounds();
      hide Inv, RowStore.Rows.Valid, History.HistRing.Valid, Grid.LineFeed, Grid.NextTab;
      if c == 0x0d {
        t.CarriageReturn();
      } else if c == 0x0a || c == 0x0b || c == 0x0c {
        t.LineFeed();
        t.Unpend();
      } else if c == 0x08 {
        t.Backspace();
      } else if c == 0x09 {
        t.Tab();
      } else if c == 0x0e {
        t.ShiftTo(1);
      } else if c == 0x0f {
        t.ShiftTo(0);
      }
      done := c < 0x20 || c == 0x7f;
    }

    // What a byte draws in the character set in force.
    method Ascii(t: Terminal, c: Byte)
      requires t.Valid() && this !in t.Repr() && c < 0x80
      modifies t.Repr()
      ensures t.Valid() && fresh(t.Repr() - old(t.Repr())) && t.Screen() == Parser.Ascii(old(t.Screen()), c)
    {
      hide Inv, RowStore.Rows.Valid, History.HistRing.Valid, Grid.PutString, Grid.Put, RuneWidth;
      var selected := if t.active == 1 then t.g1 else t.g0;
      var glyph := if selected == CharsetGraphics then Parser.DecSpecial(c) else None;
      if glyph.Some? {
        t.PutString([glyph.value], RuneWidth(glyph.value));
      } else {
        t.Put(c, RuneWidth(c));
      }
    }

    // Pays a replacement character that is owed.
    method DrawPending(t: Terminal)
      requires t.Valid() && this !in t.Repr()
      modifies this, t.Repr()
      ensures t.Valid() && fresh(t.Repr() - old(t.Repr()))
      ensures Emu(t) == Parser.DrawPending(old(Emu(t)))
    {
      hide Inv, RowStore.Rows.Valid, History.HistRing.Valid, Grid.Put;
      if invalid {
        invalid := false;
        t.Put(REPLACEMENT, 1);
      }
    }

    // What the bytes collected amount to.
    method Decode(t: Terminal)
      requires t.Valid() && this !in t.Repr() && |utf8| > 0
      modifies this, t.Repr()
      ensures t.Valid() && fresh(t.Repr() - old(t.Repr()))
      ensures Emu(t) == Parser.Decoded(old(Emu(t)))
    {
      hide Terminal.Valid, Terminal.Screen, Inv, Grid.Put, RuneWidth, FullRune, CouldComplete, DecodeRune;
      t.Sound();
      if !FullRune(utf8) {
        if |utf8| >= 4 || !CouldComplete(utf8) {
          utf8 := [];
          invalid := true;
        }
        return;
      }
      var (r, size) := DecodeRune(utf8);
      utf8 := [];
      if r == REPLACEMENT && size <= 1 {
        t.Put(REPLACEMENT, 1);
      } else {
        t.Put(r, RuneWidth(r));
      }
    }

    // What a new byte means for the bytes before it: a character they began may be over, and a
    // replacement owed for it is paid unless a sequence begins.
    method Settle(t: Terminal, c: Byte)
      requires t.Valid() && this !in t.Repr()
      modifies this, t.Repr()
      ensures t.Valid() && fresh(t.Repr() - old(t.Repr()))
      ensures Emu(t) == Parser.Settled(old(Emu(t)), c)
    {
      hide Terminal.Valid, Terminal.Screen, Inv, Parser.DrawPending, IsContinuation;
      t.Sound();
      if |utf8| > 0 && !IsContinuation(c) {
        utf8 := [];
        invalid := true;
      }
      if c != ESC {
        DrawPending(t);
      }
    }

    // Reads ahead within one write, to draw a character whole. How far it gets does not matter: the
    // bytes it takes are the ones that would have been collected one at a time.
    method Multibyte(t: Terminal, b: seq<Byte>, i: nat) returns (extra: nat)
      requires t.Valid() && this !in t.Repr() && i < |b| && state == Parser.Ground && !invalid && 0x80 <= b[i]
      modifies this, t.Repr()
      ensures t.Valid() && fresh(t.Repr() - old(t.Repr())) && i + extra < |b|
      ensures Parser.Feed(Emu(t), b[i + extra + 1..]) == Parser.Feed(Parser.Utf8Byte(old(Emu(t)), b[i]), b[i + 1..])
    {
      hide Terminal.Valid, Terminal.Repr, Terminal.Screen, Inv, Parser.Feed, Parser.Utf8Byte, Parser.Decoded, FullRune;
      t.Sound();
      ghost var target := Parser.Feed(Parser.Utf8Byte(Emu(t), b[i]), b[i + 1..]);
      Collected(Emu(t), b[i]);
      Collect(t, b[i]);
      extra := 0;
      while !FullRune(utf8) && extra < 3 && i + extra + 1 < |b| && IsContinuation(b[i + extra + 1])
        invariant i + extra < |b| && t.Valid() && Inv(t.Screen()) && t.Repr() == old(t.Repr())
        invariant state == Parser.Ground && !invalid && |utf8| > 0
        invariant Parser.Feed(Parser.Decoded(Emu(t)), b[i + extra + 1..]) == target
      {
        LookAhead(Emu(t), b[i + extra + 1..]);
        assert b[i + extra + 1..][1..] == b[i + extra + 2..];
        extra := extra + 1;
        Collect(t, b[i + extra]);
      }
      label whole: Decode(t);
      assert forall o :: o in t.Repr() && o !in old@whole(t.Repr()) ==> !old@whole(allocated(o));
    }

    // One more byte of a character.
    method Collect(t: Terminal, c: Byte)
      requires t.Valid() && this !in t.Repr()
      modifies this`utf8
      ensures t.Valid() && Inv(t.Screen()) && t.Repr() == old(t.Repr()) && |utf8| > 0 && Emu(t) == More(old(Emu(t)), c)
    {
      hide Inv, RowStore.Rows.Valid, History.HistRing.Valid;
      utf8 := utf8 + [c];
    }

    method Ground(t: Terminal, b: seq<Byte>, i: nat) returns (extra: nat)
      requires t.Valid() && this !in t.Repr() && i < |b| && state == Parser.Ground
      modifies this, t.Repr()
      ensures t.Valid() && fresh(t.Repr() - old(t.Repr())) && i + extra < |b|
      ensures Parser.Feed(Emu(t), b[i + extra + 1..]) == Parser.Feed(old(Emu(t)), b[i..])
    {
      hide Terminal.Valid, Terminal.Repr, Terminal.Screen, Inv, Parser.Feed, Parser.GroundByte, Parser.Utf8Byte,
        Parser.Settled, Began, Obeyed;
      t.Sound();
      var c := b[i];
      FirstByte(Emu(t), b[i..]);
      assert b[i..][1..] == b[i + 1..];
      label start: Settle(t, c);
      assert forall o :: o in t.Repr() && o !in old@start(t.Repr()) ==> !old@start(allocated(o));
      extra := 0;
      if c == ESC {
        Begin(t);
        return;
      }
      if c < 0x80 {
        label plain: AsciiByte(t, c);
        assert forall o :: o in t.Repr() && o !in old@plain(t.Repr()) ==> !old@plain(allocated(o));
        return;
      }
      label settled: extra := Multibyte(t, b, i);
      assert forall o :: o in t.Repr() && o !in old@settled(t.Repr()) ==> !old@settled(allocated(o));
    }

    method Begin(t: Terminal)
      requires t.Valid() && this !in t.Repr()
      modifies this
      ensures t.Valid() && t.Repr() == old(t.Repr()) && Emu(t) == Began(old(Emu(t)))
    {
      hide Inv, RowStore.Rows.Valid, History.HistRing.Valid;
      state, params, inter := Parser.Escape, [], [];
    }

    // A control is obeyed, and anything else drawn.
    method AsciiByte(t: Terminal, c: Byte)
      requires t.Valid() && this !in t.Repr() && c < 0x80
      modifies t.Repr()
      ensures t.Valid() && fresh(t.Repr() - old(t.Repr()))
      ensures Emu(t) == Obeyed(old(Emu(t)), c)
    {
      hide Terminal.Valid, Terminal.Screen, Inv, Parser.Control, Parser.Ascii;
      t.Sound();
      var done := Control(t, c);
      if !done {
        Ascii(t, c);
      }
    }

    // ---------------------------------------------------------------- sequences

    method Escape(t: Terminal, c: Byte)
      requires t.Valid() && this !in t.Repr()
      modifies this, t.Repr()
      ensures t.Valid() && fresh(t.Repr() - old(t.Repr()))
      ensures Emu(t) == Parser.EscapeByte(old(Emu(t)), c)
    {
      hide Terminal.Valid, Terminal.Screen, Inv, Parser.Control, Grid.LineFeed, Grid.ReverseIndex,
        Grid.RestoreCursor, Grid.SaveCursor, Grid.SetTab, New;
      t.Sound();
      if c == ESC {
        params, inter := [], [];
        return;
      }
      if c < 0x20 {
        var _ := Control(t, c);
        return;
      }
      if c == '[' as int || c == ']' as int || c == 'P' as int || c == 'X' as int || c == '^' as int
        || c == '_' as int || c == '(' as int || c == ')' as int {
        Introduce(t, c);
      } else if c == '7' as int || c == '8' as int || c == 'M' as int || c == 'D' as int || c == 'E' as int || c == 'H' as int {
        Act(t, c);
        state := Parser.Ground;
      } else if c == 'c' as int {
        Reset(t);
      } else {
        if 0x20 <= c <= 0x2f {
          return;
        }
        state := Parser.Ground;
      }
    }

    method Reset(t: Terminal)
      requires t.Valid() && this !in t.Repr()
      modifies this, t
      ensures t.Valid() && fresh(t.Repr() - old(t.Repr()))
      ensures Emu(t) == Parser.Emu(New(old(t.Screen()).cols, old(t.Screen()).rows), Parser.START)
    {
      hide Terminal.Valid, Terminal.Screen, Inv, New;
      t.Sound();
      state, strEsc, params, inter := Parser.Ground, false, [], [];
      utf8, oscBuf, charsetSlot, invalid := [], [], 0, false;
      t.Renew();
    }

    // The bytes after which more is to come.
    method Introduce(t: Terminal, c: Byte)
      requires t.Valid() && this !in t.Repr()
      requires c == '[' as int || c == ']' as int || c == 'P' as int || c == 'X' as int || c == '^' as int
        || c == '_' as int || c == '(' as int || c == ')' as int
      modifies this
      ensures t.Valid() && t.Repr() == old(t.Repr()) && Emu(t) == Parser.EscapeByte(old(Emu(t)), c)
    {
      hide Terminal.Valid, Terminal.Screen, Inv;
      t.Sound();
      if c == '[' as int {
        state, params, inter := Parser.Csi, [], [];
      } else if c == ']' as int {
        state := Parser.Osc;
      } else if c == '(' as int || c == ')' as int {
        charsetSlot := 0;
        if c == ')' as int {
          charsetSlot := 1;
        }
        state := Parser.CharsetSelect;
      } else {
        state, strEsc := Parser.Str, false;
      }
    }

    // The sequences of one letter that act on the screen.
    method Act(t: Terminal, c: Byte)
      requires t.Valid() && this !in t.Repr()
      requires c == '7' as int || c == '8' as int || c == 'M' as int || c == 'D' as int || c == 'E' as int || c == 'H' as int
      modifies t.Repr()
      ensures t.Valid() && fresh(t.Repr() - old(t.Repr()))
      ensures Parser.Emu(t.Screen(), Value().(state := Parser.Ground)) == Parser.EscapeByte(old(Emu(t)), c)
    {
      hide Terminal.Valid, Terminal.Screen, Inv, Parser.Control, Grid.LineFeed, Grid.ReverseIndex,
        Grid.RestoreCursor, Grid.SaveCursor, Grid.SetTab, New;
      t.Sound();
      if c == '7' as int {
        t.SaveCursor();
      } else if c == '8' as int {
        t.RestoreCursor();
      } else if c == 'M' as int {
        t.ReverseIndex();
      } else if c == 'D' as int {
        t.LineFeed();
      } else if c == 'E' as int {
        t.ColumnZero();
        t.LineFeed();
      } else {
        t.SetTab();
      }
    }

    method SelectCharset(t: Terminal, c: Byte)
      requires t.Valid() && this !in t.Repr()
      modifies this, t
      ensures t.Valid() && t.Repr() == old(t.Repr()) && Emu(t) == Parser.CharsetByte(old(Emu(t)), c)
    {
      hide Inv, RowStore.Rows.Valid, History.HistRing.Valid;
      t.SelectCharset(charsetSlot, if c == '0' as int then CharsetGraphics else CharsetAscii);
      state := Parser.Ground;
    }

    method Str(t: Terminal, c: Byte)
      requires t.Valid() && this !in t.Repr() && state == Parser.Str
      modifies this
      ensures t.Valid() && t.Repr() == old(t.Repr()) && Emu(t) == Parser.StrByte(old(Emu(t)), c)
    {
      hide Inv, RowStore.Rows.Valid, History.HistRing.Valid;
      if strEsc {
        strEsc := false;
        if c == '\\' as int {
          state := Parser.Ground;
        }
        return;
      }
      if c == ESC {
        strEsc := true;
      }
    }

    method Osc(t: Terminal, c: Byte)
      requires t.Valid() && this !in t.Repr()
      modifies this, t
      ensures t.Valid() && t.Repr() == old(t.Repr()) && Emu(t) == Parser.OscByte(old(Emu(t)), c)
    {
      hide Inv, RowStore.Rows.Valid, History.HistRing.Valid, Parser.FinishOsc;
      if c == 0x07 || c == ESC {
        FinishOsc(t);
      } else if |oscBuf| < Parser.OSC_LIMIT {
        oscBuf := oscBuf + [c];
      }
    }

    method FinishOsc(t: Terminal)
      requires t.Valid() && this !in t.Repr()
      modifies this, t
      ensures t.Valid() && t.Repr() == old(t.Repr()) && Emu(t) == Parser.FinishOsc(old(Emu(t)))
    {
      hide Terminal.Valid, Terminal.Screen, Inv, Parser.Cut, Parser.Link;
      t.Sound();
      state := Parser.Ground;
      var cmd := oscBuf;
      oscBuf := [];
      match Parser.Cut(cmd)
      case Some((num, arg)) =>
        if num == [0x38] {
          t.SetLink(arg);
        }
      case None =>
    }

    // ---------------------------------------------------------------- control sequences

    method Csi(t: Terminal, c: Byte) returns (lost: bool)
      requires t.Valid() && this !in t.Repr()
      modifies this, t.Repr()
      ensures t.Valid() && fresh(t.Repr() - old(t.Repr()))
      ensures Parser.CsiByte(old(Emu(t)), c) == if lost then Parser.Lost else Emu(t)
    {
      lost := false;
      hide Terminal.Valid, Terminal.Screen, Inv, Parser.Control, Parser.Dispatch;
      t.Sound();
      if 0x30 <= c <= 0x3f {
        params := params + [c];
      } else if 0x20 <= c <= 0x2f {
        inter := inter + [c];
      } else if c == ESC {
        state, params, inter := Parser.Escape, [], [];
      } else if c < 0x20 {
        var _ := Control(t, c);
      } else if c > 0x7e {
        state := Parser.Ground;
      } else {
        lost := Dispatch(t, c);
        state := Parser.Ground;
      }
    }

    method Dispatch(t: Terminal, final: Byte) returns (lost: bool)
      requires t.Valid() && this !in t.Repr()
      modifies t.Repr()
      ensures t.Valid() && fresh(t.Repr() - old(t.Repr()))
      ensures Parser.Dispatch(old(t.Screen()), params, inter, final) == if lost then None else Some(t.Screen())
    {
      hide Terminal.Valid, Terminal.Screen, Inv, Parser.PrivateModes, Parser.Perform, Params;
      t.Sound();
      lost := false;
      if |params| > 0 && params[0] == '?' as int {
        if final == 'h' as int || final == 'l' as int {
          lost := PrivateModes(t, Params(params[1..]), final == 'h' as int);
        }
        return;
      }
      Perform(t, Params(params), final);
    }

    method PrivateModes(t: Terminal, ns: seq<int>, on: bool) returns (lost: bool)
      requires t.Valid() && this !in t.Repr()
      modifies t.Repr()
      ensures t.Valid() && fresh(t.Repr() - old(t.Repr()))
      ensures Parser.PrivateModes(old(t.Screen()), ns, on) == if lost then None else Some(t.Screen())
    {
      hide Terminal.Valid, Terminal.Screen, Terminal.Repr, Inv, Parser.PrivateMode, Parser.PrivateModes;
      t.Sound();
      ghost var end := Parser.PrivateModes(t.Screen(), ns, on);
      var i := 0;
      lost := false;
      assert ns[0..] == ns;
      while i < |ns| && !lost
        invariant 0 <= i <= |ns| && t.Valid() && Inv(t.Screen()) && fresh(t.Repr() - old(t.Repr()))
        invariant end == if lost then None else Parser.PrivateModes(t.Screen(), ns[i..], on)
      {
        OneMode(t.Screen(), ns[i..], on);
        assert ns[i..][1..] == ns[i + 1..];
        label before: lost := PrivateMode(t, ns[i], on);
        assert forall o :: o in t.Repr() && o !in old@before(t.Repr()) ==> !old@before(allocated(o));
        t.Sound();
        i := i + 1;
      }
      NoMode(t.Screen(), on);
      assert i == |ns| ==> ns[i..] == [];
    }

    method PrivateMode(t: Terminal, n: int, on: bool) returns (lost: bool)
      requires t.Valid() && this !in t.Repr()
      modifies t.Repr()
      ensures t.Valid() && fresh(t.Repr() - old(t.Repr()))
      ensures Parser.PrivateMode(old(t.Screen()), n, on) == if lost then None else Some(t.Screen())
    {
      hide RowStore.Rows.Valid, History.HistRing.Valid, Reflow.EnterAlt, Reflow.LeaveAlt, Inv;
      t.Sound();
      lost := false;
      if n == 25 {
        t.SetVisible(on);
      } else if n == 47 || n == 1047 || n == 1049 {
        if on {
          Relayout.EnterAlt(t, n == 1049);
        } else {
          Relayout.LeaveAlt(t, n == 1049);
        }
      } else if n == 1048 {
        if on {
          t.KeepCursor();
        } else if t.altSaved.row < t.rows && t.altSaved.col < t.cols {
          t.TakeBackCursor();
        } else {
          lost := true;
        }
      } else if n == 7 {
        t.SetAutowrap(on);
      }
    }

    method Perform(t: Terminal, ps: seq<int>, final: Byte)
      requires t.Valid() && this !in t.Repr()
      modifies t.Repr()
      ensures t.Valid() && fresh(t.Repr() - old(t.Repr()))
      ensures t.Screen() == Parser.Perform(old(t.Screen()), ps, inter, final)
    {
      hide Terminal.Valid, Terminal.Screen, Inv, Grid.ScrollUp, Parser.Arg;
      t.Sound();
      if final == 'S' as int {
        t.ScrollUp(Parser.Arg(ps, 0, 1));
        return;
      }
      hide Parser.Perform;
      if Moves(final) {
        Move(t, ps, final);
      } else if Scrolls(final) {
        Scroll(t, ps, final);
      } else if Edits(final) {
        Edit(t, ps, final);
      } else {
        Set(t, ps, final);
      }
    }

    static predicate Moves(final: Byte) {
      || final == 'A' as int || final == 'B' as int || final == 'C' as int || final == 'D' as int
        || final == 'E' as int || final == 'F' as int
      || final == 'G' as int || final == '`' as int || final == 'd' as int || final == 'H' as int || final == 'f' as int
    }

    static predicate Scrolls(final: Byte) {
      final == 'L' as int || final == 'M' as int || final == 'T' as int
    }

    static predicate Edits(final: Byte) {
      final == 'J' as int || final == 'K' as int || final == 'P' as int || final == '@' as int || final == 'X' as int
    }

    method Move(t: Terminal, ps: seq<int>, final: Byte)
      requires t.Valid() && Moves(final)
      modifies t
      ensures t.Valid() && t.Repr() == old(t.Repr())
      ensures t.Screen() == Parser.Perform(old(t.Screen()), ps, inter, final)
    {
      hide Terminal.Valid, Terminal.Repr, Inv, Grid.MoveVertically, Grid.MoveTo, Parser.Column0, Parser.Arg;
      t.Sound();
      var n := Parser.Arg(ps, 0, 1);
      if final == 'A' as int {
        t.MoveVertically(-n);
      } else if final == 'B' as int {
        t.MoveVertically(n);
      } else if final == 'C' as int {
        t.MoveTo(t.cur.row, t.cur.col + n);
      } else if final == 'D' as int {
        t.MoveTo(t.cur.row, t.cur.col - n);
      } else if final == 'E' as int {
        t.MoveVertically(n);
        t.ColumnZero();
      } else if final == 'F' as int {
        t.MoveVertically(-n);
        t.ColumnZero();
      } else if final == 'G' as int || final == '`' as int {
        t.MoveTo(t.cur.row, n - 1);
      } else if final == 'd' as int {
        t.MoveTo(n - 1, t.cur.col);
      } else {
        t.MoveTo(n - 1, Parser.Arg(ps, 1, 1) - 1);
      }
    }

    method Scroll(t: Terminal, ps: seq<int>, final: Byte)
      requires t.Valid() && Scrolls(final)
      modifies t.buf
      ensures t.Valid() && fresh(t.Repr() - old(t.Repr()))
      ensures t.Screen() == Parser.Perform(old(t.Screen()), ps, inter, final)
    {
      hide Terminal.Valid, Terminal.Repr, Inv, Grid.InsertLines, Grid.DeleteLines, Grid.ScrollDown, Parser.Arg;
      t.Sound();
      var n := Parser.Arg(ps, 0, 1);
      if final == 'L' as int {
        t.InsertLines(n);
      } else if final == 'M' as int {
        t.DeleteLines(n);
      } else {
        t.ScrollDown(n);
      }
    }

    method Edit(t: Terminal, ps: seq<int>, final: Byte)
      requires t.Valid() && Edits(final)
      modifies t.buf, t.buf.Storage
      ensures t.Valid() && t.Repr() == old(t.Repr())
      ensures t.Screen() == Parser.Perform(old(t.Screen()), ps, inter, final)
    {
      hide Terminal.Valid, Terminal.Repr, Inv, Grid.DeleteChars, Grid.InsertChars, Grid.EraseInRow,
        Parser.EraseDisplay, Parser.EraseLine;
      t.Sound();
      var n := Parser.Arg(ps, 0, 1);
      if final == 'J' as int {
        t.EraseDisplay(Parser.Arg(ps, 0, 0));
      } else if final == 'K' as int {
        t.EraseLine(Parser.Arg(ps, 0, 0));
      } else if final == 'P' as int {
        t.DeleteChars(n);
      } else if final == '@' as int {
        t.InsertChars(n);
      } else {
        t.EraseInRow(t.cur.row, t.EffCol(), t.EffCol() + n - 1);
      }
    }

    method Set(t: Terminal, ps: seq<int>, final: Byte)
      requires t.Valid() && final != 'S' as int && !Moves(final) && !Scrolls(final) && !Edits(final)
      modifies t
      ensures t.Valid() && t.Repr() == old(t.Repr())
      ensures t.Screen() == Parser.Perform(old(t.Screen()), ps, inter, final)
    {
      hide Terminal.Valid, Terminal.Repr, Terminal.Screen, Inv, Grid.SaveCursor, Grid.RestoreCursor, Grid.ClearTabs,
        Parser.SetRegion,
        Parser.Sgr, Parser.Arg;
      t.Sound();
      if final == 'r' as int {
        t.SetRegion(ps);
      } else if final == 'h' as int || final == 'l' as int {
        if 4 in ps {
          t.SetInsert(final == 'h' as int);
        }
      } else if final == 's' as int {
        t.SaveCursor();
      } else if final == 'u' as int {
        t.RestoreCursor();
      } else if final == 'm' as int {
        Sgr(t, ps);
      } else if final == 'g' as int {
        t.ClearTabs(Parser.Arg(ps, 0, 0) == 3);
      } else if final == 'q' as int {
        if inter == [0x20] {
          t.SetShape(Parser.Arg(ps, 0, 0));
        }
      }
    }

    // ---------------------------------------------------------------- a write

    // One byte of anything but text.
    method Sequence(t: Terminal, c: Byte) returns (lost: bool)
      requires t.Valid() && this !in t.Repr() && state != Parser.Ground
      modifies this, t.Repr()
      ensures t.Valid() && fresh(t.Repr() - old(t.Repr()))
      ensures Parser.Step(old(Emu(t)), c) == if lost then Parser.Lost else Emu(t)
    {
      lost := false;
      hide Terminal.Valid, Terminal.Screen, Inv, Parser.EscapeByte, Parser.CsiByte, Parser.OscByte, Parser.StrByte,
        Parser.CharsetByte, Parser.GroundByte;
      t.Sound();
      match state
      case Escape => Escape(t, c);
      case Csi => lost := Csi(t, c);
      case Osc => Osc(t, c);
      case CharsetSelect => SelectCharset(t, c);
      case Str => Str(t, c);
    }

    // A write. It is followed to its end, or to the byte that puts the cursor outside the screen.
    method Feed(t: Terminal, b: seq<Byte>) returns (lost: bool)
      requires t.Valid() && this !in t.Repr()
      modifies this, t.Repr()
      ensures t.Valid() && fresh(t.Repr() - old(t.Repr()))
      ensures Parser.Feed(old(Emu(t)), b) == if lost then Parser.Lost else Emu(t)
    {
      hide Terminal.Valid, Terminal.Repr, Terminal.Screen, Inv, Parser.Feed, Parser.Step;
      t.Sound();
      ghost var end := Parser.Feed(Emu(t), b);
      var i := 0;
      lost := false;
      assert b[0..] == b;
      while i < |b| && !lost
        invariant 0 <= i <= |b| && t.Valid() && Inv(t.Screen()) && fresh(t.Repr() - old(t.Repr()))
        invariant end == if lost then Parser.Lost else Parser.Feed(Emu(t), b[i..])
      {
        label before:
        if state == Parser.Ground {
          var extra := Ground(t, b, i);
          i := i + extra + 1;
        } else {
          OneByte(Emu(t), b[i..]);
          assert b[i..][1..] == b[i + 1..];
          lost := Sequence(t, b[i]);
          i := i + 1;
        }
        assert forall o :: o in t.Repr() && o !in old@before(t.Repr()) ==> !old@before(allocated(o));
        t.Sound();
      }
      assert i == |b| ==> b[i..] == [];
      NoByte(Emu(t));
    }

    // A stream that arrives in any number of writes, each reading ahead only within itself.
    method Writes(t: Terminal, chunks: seq<seq<Byte>>) returns (lost: bool)
      requires t.Valid() && this !in t.Repr()
      modifies this, t.Repr()
      ensures t.Valid() && fresh(t.Repr() - old(t.Repr()))
      ensures Parser.Feed(old(Emu(t)), Joined(chunks)) == if lost then Parser.Lost else Emu(t)
    {
      hide Terminal.Valid, Terminal.Repr, Terminal.Screen, Inv, Parser.Feed, Joined;
      t.Sound();
      ghost var end := Parser.Feed(Emu(t), Joined(chunks));
      var i := 0;
      lost := false;
      assert chunks[0..] == chunks;
      while i < |chunks| && !lost
        invariant 0 <= i <= |chunks| && t.Valid() && Inv(t.Screen()) && fresh(t.Repr() - old(t.Repr()))
        invariant end == if lost then Parser.Lost else Parser.Feed(Emu(t), Joined(chunks[i..]))
      {
        OneWrite(Emu(t), chunks[i..]);
        assert chunks[i..][1..] == chunks[i + 1..];
        label before: lost := Feed(t, chunks[i]);
        assert forall o :: o in t.Repr() && o !in old@before(t.Repr()) ==> !old@before(allocated(o));
        t.Sound();
        i := i + 1;
      }
      assert i == |chunks| ==> chunks[i..] == [];
      NoWrite(Emu(t));
    }
  }

  function Joined(chunks: seq<seq<Byte>>): seq<Byte> {
    if chunks == [] then [] else chunks[0] + Joined(chunks[1..])
  }

  lemma OneWrite(e: Parser.Emu, chunks: seq<seq<Byte>>)
    requires Parser.Valid(e) && chunks != []
    ensures Parser.Feed(e, Joined(chunks)) == Parser.Feed(Parser.Feed(e, chunks[0]), Joined(chunks[1..]))
    ensures Parser.Feed(e, chunks[0]).Lost? ==> Parser.Feed(e, Joined(chunks)).Lost?
  {
    WriteSplitting(e, chunks[0], Joined(chunks[1..]));
    if Parser.Feed(e, chunks[0]).Lost? {
      LostStays(Joined(chunks[1..]));
    }
  }

  lemma NoWrite(e: Parser.Emu)
    requires Parser.Valid(e)
    ensures Parser.Feed(e, Joined([])) == e
  {
  }

  lemma OneByte(e: Parser.Emu, bs: seq<Byte>)
    requires Parser.Valid(e) && bs != []
    ensures Parser.Feed(e, bs) == Parser.Feed(Parser.Step(e, bs[0]), bs[1..])
    ensures Parser.Step(e, bs[0]).Lost? ==> Parser.Feed(e, bs).Lost?
  {
    if Parser.Step(e, bs[0]).Lost? {
      LostStays(bs[1..]);
    }
  }

  lemma {:induction false} LostStays(bs: seq<Byte>)
    ensures Parser.Feed(Parser.Lost, bs) == Parser.Lost
  {
    if bs != [] {
      LostStays(bs[1..]);
    }
  }

  lemma NoByte(e: Parser.Emu)
    requires Parser.Valid(e)
    ensures Parser.Feed(e, []) == e
  {
  }

  lemma OneMode(t: Term, ns: seq<int>, on: bool)
    requires Inv(t) && ns != []
    ensures var t' := Parser.PrivateMode(t, ns[0], on);
            Parser.PrivateModes(t, ns, on) == if t'.None? then None else Parser.PrivateModes(t'.value, ns[1..], on)
  {
  }

  lemma NoMode(t: Term, on: bool)
    requires Inv(t)
    ensures Parser.PrivateModes(t, [], on) == Some(t)
  {
  }

  // ---------------------------------------------------------------- reading ahead

  function More(e: Parser.Emu, c: Byte): Parser.Emu
    requires e.Emu?
  {
    e.(p := e.p.(utf8 := e.p.utf8 + [c]))
  }

  function Began(e: Parser.Emu): Parser.Emu
    requires e.Emu?
  {
    e.(p := e.p.(state := Parser.Escape, params := [], inter := []))
  }

  function Obeyed(e: Parser.Emu, c: Byte): Parser.Emu
    requires e.Emu? && Inv(e.t) && c < 0x80
  {
    e.(t := if Parser.IsControl(c) then Parser.Control(e.t, c) else Parser.Ascii(e.t, c))
  }

  lemma Collected(e: Parser.Emu, c: Byte)
    requires e.Emu? && Inv(e.t)
    ensures More(e, c).Emu? && |More(e, c).p.utf8| > 0 && Parser.Utf8Byte(e, c) == Parser.Decoded(More(e, c))
    ensures More(e, c).p.state == e.p.state && More(e, c).p.invalid == e.p.invalid
  {
  }

  // A character that is not whole yet waits, so the next byte of it may as well be taken at once.
  lemma LookAhead(e: Parser.Emu, bs: seq<Byte>)
    requires e.Emu? && Inv(e.t) && e.p.state == Parser.Ground && !e.p.invalid
    requires |e.p.utf8| > 0 && !FullRune(e.p.utf8) && bs != [] && IsContinuation(bs[0])
    ensures Parser.Feed(Parser.Decoded(e), bs) == Parser.Feed(Parser.Decoded(More(e, bs[0])), bs[1..])
    ensures More(e, bs[0]).p.state == e.p.state && More(e, bs[0]).p.invalid == e.p.invalid
  {
    IncompleteCouldComplete(e.p.utf8);
    assert Parser.Decoded(e) == e;
    assert Parser.Step(e, bs[0]) == Parser.Decoded(More(e, bs[0]));
  }

  lemma FirstByte(e: Parser.Emu, bs: seq<Byte>)
    requires e.Emu? && Inv(e.t) && e.p.state == Parser.Ground && bs != []
    ensures var e1 := Parser.Settled(e, bs[0]);
            && Parser.Feed(e, bs) == Parser.Feed(Parser.GroundByte(e, bs[0]), bs[1..])
            && e1.p.state == Parser.Ground && (bs[0] != ESC ==> !e1.p.invalid)
            && Parser.GroundByte(e, bs[0]) ==
                 if bs[0] == ESC then Began(e1) else if bs[0] < 0x80 then Obeyed(e1, bs[0]) else Parser.Utf8Byte(e1, bs[0])
  {
    hide Parser.Settled, Parser.Control, Parser.Ascii, Parser.Utf8Byte, Inv;
    SettledStays(e, bs[0]);
  }

  lemma SettledStays(e: Parser.Emu, c: Byte)
    requires e.Emu? && Inv(e.t)
    ensures var e1 := Parser.Settled(e, c);
            e1.Emu? && Inv(e1.t) && e1.p.state == e.p.state && (c != ESC ==> !e1.p.invalid)
  {
    hide Grid.Put;
  }
}
