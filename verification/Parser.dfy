/** The parser: bytes in, operations on the terminal out, following the control sequences of
    section 5.4 of ECMA-48. One byte at a time, with all that is remembered between bytes in a value. */
module Parser {
  import opened Vt
  import opened Grid
  import opened Reflow
  import opened Utf8
  import opened Decimal

  datatype State = Ground | Escape | Csi | Osc | CharsetSelect | Str

  datatype Parser = Parser(
    state: State,
    strEsc: bool,            // an ESC was seen inside a control string
    params: seq<Byte>, inter: seq<Byte>,
    utf8: seq<Byte>,         // the first bytes of a character
    oscBuf: seq<Byte>,
    charsetSlot: nat,
    invalid: bool)           // a replacement character is owed

  const START := Parser(Ground, false, [], [], [], [], 0, false)

  // A terminal and its parser. Lost is where mode 1048 has put back a cursor that is outside the
  // screen: from there on nothing is known of the screen. The emulator carries on, and comes to harm
  // only if a character is drawn before something moves the cursor back in.
  datatype Emu = Emu(t: Term, p: Parser) | Lost

  ghost predicate Valid(e: Emu) { e.Emu? ==> Inv(e.t) }

  const OSC_LIMIT: nat := 1024

  // ---------------------------------------------------------------- C0 controls

  predicate IsControl(c: Byte) { c < 0x20 || c == 0x7f }

  function Control(t: Term, c: Byte): (t': Term)
    requires Inv(t)
    ensures Inv(t') && Steady(t, t')
  {
    if c == 0x0d then t.(cur := t.cur.(col := 0), pend := false)
    else if c == 0x0a || c == 0x0b || c == 0x0c then LineFeed(t).(pend := false)
    else if c == 0x08 then
      if t.pend then t.(pend := false)
      else if t.cur.col > 0 then t.(cur := t.cur.(col := t.cur.col - 1))
      else t
    else if c == 0x09 then if t.pend then t else t.(cur := t.cur.(col := NextTab(t, t.cur.col)))
    else if c == 0x0e then t.(active := 1)
    else if c == 0x0f then t.(active := 0)
    else t
  }

  // ---------------------------------------------------------------- text

  // The line-drawing character a letter stands for.
  function DecSpecial(c: Byte): Option<Rune> {
    if c < 0x60 || c > 0x7e then None else
      Some([0x25C6, 0x2592, 0x2409, 0x240C, 0x240D, 0x240A, 0xB0, 0xB1,
            0x2424, 0x240B, 0x2518, 0x2510, 0x250C, 0x2514, 0x253C, 0x23BA,
            0x23BB, 0x2500, 0x23BC, 0x23BD, 0x251C, 0x2524, 0x2534, 0x252C,
            0x2502, 0x2264, 0x2265, 0x3C0, 0x2260, 0xA3, 0xB7][c - 0x60])
  }

  function MapRune(t: Term, c: Byte): Option<Rune> {
    if (if t.active == 1 then t.g1 else t.g0) == CharsetGraphics then DecSpecial(c) else None
  }

  function Ascii(t: Term, c: Byte): (t': Term)
    requires Inv(t) && c < 0x80
    ensures Inv(t') && Steady(t, t')
  {
    match MapRune(t, c)
    case Some(glyph) => PutString(t, [glyph], RuneWidth(glyph))
    case None => Put(t, c, RuneWidth(c))
  }

  // Paying for undecodable bytes: one replacement character.
  function DrawPending(e: Emu): (e': Emu)
    requires e.Emu? && Inv(e.t)
    ensures e'.Emu? && Inv(e'.t) && Steady(e.t, e'.t)
  {
    if e.p.invalid then Emu(Put(e.t, REPLACEMENT, 1), e.p.(invalid := false)) else e
  }

  // One byte of a character that is not ASCII.
  function Utf8Byte(e: Emu, c: Byte): (e': Emu)
    requires e.Emu? && Inv(e.t)
    ensures e'.Emu? && Inv(e'.t) && Steady(e.t, e'.t)
  {
    Decoded(e.(p := e.p.(utf8 := e.p.utf8 + [c])))
  }

  // What the bytes collected so far amount to: nothing yet, something that cannot become a
  // character, or a character.
  function Decoded(e: Emu): (e': Emu)
    requires e.Emu? && Inv(e.t) && |e.p.utf8| > 0
    ensures e'.Emu? && Inv(e'.t) && Steady(e.t, e'.t)
  {
    var u := e.p.utf8;
    if !FullRune(u) then
      if |u| >= 4 || !CouldComplete(u) then e.(p := e.p.(utf8 := [], invalid := true)) else e
    else
      var (r, size) := DecodeRune(u);
      Emu(Put(e.t, r, if r == REPLACEMENT && size <= 1 then 1 else RuneWidth(r)), e.p.(utf8 := []))
  }

  // What a new byte means for the bytes before it. A character it does not go on with is over, and
  // leaves a replacement owed; that is paid at once, except that a sequence is obeyed first.
  function Settled(e: Emu, c: Byte): (e': Emu)
    requires e.Emu? && Inv(e.t)
    ensures e'.Emu? && Inv(e'.t) && Steady(e.t, e'.t)
  {
    var e1 := if |e.p.utf8| > 0 && !IsContinuation(c) then e.(p := e.p.(utf8 := [], invalid := true)) else e;
    if c == ESC then e1 else DrawPending(e1)
  }

  function GroundByte(e: Emu, c: Byte): (e': Emu)
    requires e.Emu? && Inv(e.t)
    ensures e'.Emu? && Inv(e'.t) && Steady(e.t, e'.t)
  {
    var e1 := Settled(e, c);
    if c == ESC then e1.(p := e1.p.(state := Escape, params := [], inter := []))
    else if IsControl(c) then e1.(t := Control(e1.t, c))
    else if c < 0x80 then e1.(t := Ascii(e1.t, c))
    else Utf8Byte(e1, c)
  }

  // ---------------------------------------------------------------- escape sequences

  function EscapeByte(e: Emu, c: Byte): (e': Emu)
    requires e.Emu? && Inv(e.t)
    ensures e'.Emu? && Inv(e'.t)
    ensures Steady(e.t, e'.t) || e'.t == New(e.t.cols, e.t.rows)
  {
    var t, p := e.t, e.p;
    var done := p.(state := Ground);
    if c == ESC then Emu(t, p.(params := [], inter := []))
    else if c < 0x20 then Emu(Control(t, c), p)
    else if c == '[' as int then Emu(t, p.(state := Csi, params := [], inter := []))
    else if c == ']' as int then Emu(t, p.(state := Osc))
    else if c == 'P' as int || c == 'X' as int || c == '^' as int || c == '_' as int then
      Emu(t, p.(state := Str, strEsc := false))
    else if c == '7' as int then Emu(SaveCursor(t), done)
    else if c == '8' as int then Emu(RestoreCursor(t), done)
    else if c == 'M' as int then Emu(ReverseIndex(t), done)
    else if c == 'D' as int then Emu(LineFeed(t), done)
    else if c == 'E' as int then Emu(LineFeed(t.(cur := t.cur.(col := 0))), done)
    else if c == 'H' as int then Emu(SetTab(t), done)
    else if c == 'c' as int then Emu(New(t.cols, t.rows), START)
    else if c == '(' as int then Emu(t, p.(charsetSlot := 0, state := CharsetSelect))
    else if c == ')' as int then Emu(t, p.(charsetSlot := 1, state := CharsetSelect))
    else if c <= 0x2f then e
    else Emu(t, done)
  }

  function CharsetByte(e: Emu, c: Byte): (e': Emu)
    requires e.Emu? && Inv(e.t)
    ensures e'.Emu? && Inv(e'.t) && Steady(e.t, e'.t)
  {
    var selected := if c == '0' as int then CharsetGraphics else CharsetAscii;
    Emu(if e.p.charsetSlot == 0 then e.t.(g0 := selected) else e.t.(g1 := selected), e.p.(state := Ground))
  }

  // The body of a control string has no effect.
  function StrByte(e: Emu, c: Byte): (e': Emu)
    requires e.Emu? && Inv(e.t)
    ensures e'.Emu? && Inv(e'.t) && Steady(e.t, e'.t)
  {
    if e.p.strEsc then e.(p := e.p.(strEsc := false, state := if c == '\\' as int then Ground else Str))
    else e.(p := e.p.(strEsc := c == ESC))
  }

  // ---------------------------------------------------------------- operating-system commands

  // What is before the first semicolon and what is after it.
  function Cut(s: seq<Byte>): (c: Option<(seq<Byte>, seq<Byte>)>)
    ensures c.Some? ==> s == c.value.0 + [SEMICOLON] + c.value.1 && SEMICOLON !in c.value.0
    ensures c.None? ==> SEMICOLON !in s
  {
    if s == [] then None
    else if s[0] == SEMICOLON then Some(([], s[1..]))
    else
      match Cut(s[1..])
      case Some((before, after)) => Some(([s[0]] + before, after))
      case None => None
  }

  // Only the hyperlink, OSC 8 ; params ; URI, changes what is drawn. Without its second semicolon it
  // closes whatever link was open.
  function FinishOsc(e: Emu): (e': Emu)
    requires e.Emu? && Inv(e.t)
    ensures e'.Emu? && Inv(e'.t) && Steady(e.t, e'.t)
  {
    var p := e.p.(state := Ground, oscBuf := []);
    match Cut(e.p.oscBuf)
    case Some((num, arg)) => if num == [0x38] then Emu(Link(e.t, arg), p) else Emu(e.t, p)
    case None => Emu(e.t, p)
  }

  function Link(t: Term, arg: seq<Byte>): (t': Term)
    requires Inv(t)
    ensures Inv(t') && Steady(t, t')
  {
    t.(style := t.style.(link := match Cut(arg) case Some((_, uri)) => uri case None => []))
  }

  // An ESC ends the command as BEL does; the backslash that should follow it is then read as text.
  function OscByte(e: Emu, c: Byte): (e': Emu)
    requires e.Emu? && Inv(e.t)
    ensures e'.Emu? && Inv(e'.t) && Steady(e.t, e'.t)
  {
    if c == 0x07 || c == ESC then FinishOsc(e)
    else if |e.p.oscBuf| < OSC_LIMIT then e.(p := e.p.(oscBuf := e.p.oscBuf + [c]))
    else e
  }

  // ---------------------------------------------------------------- control sequences

  function CsiByte(e: Emu, c: Byte): (e': Emu)
    requires e.Emu? && Inv(e.t)
    ensures Valid(e')
  {
    if 0x30 <= c <= 0x3f then e.(p := e.p.(params := e.p.params + [c]))
    else if 0x20 <= c <= 0x2f then e.(p := e.p.(inter := e.p.inter + [c]))
    else if c == ESC then e.(p := e.p.(state := Escape, params := [], inter := []))
    else if c < 0x20 then e.(t := Control(e.t, c))
    else if c > 0x7e then e.(p := e.p.(state := Ground))
    else
      match Dispatch(e.t, e.p.params, e.p.inter, c)
      case Some(t) => Emu(t, e.p.(state := Ground))
      case None => Lost
  }

  // A parameter, or its default when it is left out or zero.
  function Arg(ps: seq<int>, i: nat, default: int): int {
    if i < |ps| && ps[i] > 0 then ps[i] else default
  }

  ghost predicate Kept(t: Option<Term>) { t.Some? ==> Inv(t.value) }

  function Dispatch(t: Term, params: seq<Byte>, inter: seq<Byte>, final: Byte): (t': Option<Term>)
    requires Inv(t)
    ensures Kept(t')
  {
    if |params| > 0 && params[0] == '?' as int then
      if final == 'h' as int || final == 'l' as int
      then PrivateModes(t, Params(params[1..]), final == 'h' as int)
      else Some(t)
    else Some(Perform(t, Params(params), inter, final))
  }

  function Perform(t: Term, ps: seq<int>, inter: seq<Byte>, final: Byte): (t': Term)
    requires Inv(t)
    ensures Inv(t') && Steady(t, t')
  {
    var n := Arg(ps, 0, 1);
    if final == 'A' as int then MoveVertically(t, -n)
    else if final == 'B' as int then MoveVertically(t, n)
    else if final == 'C' as int then MoveTo(t, t.cur.row, t.cur.col + n)
    else if final == 'D' as int then MoveTo(t, t.cur.row, t.cur.col - n)
    else if final == 'E' as int then Column0(MoveVertically(t, n))
    else if final == 'F' as int then Column0(MoveVertically(t, -n))
    else if final == 'G' as int || final == '`' as int then MoveTo(t, t.cur.row, n - 1)
    else if final == 'd' as int then MoveTo(t, n - 1, t.cur.col)
    else if final == 'H' as int || final == 'f' as int then MoveTo(t, n - 1, Arg(ps, 1, 1) - 1)
    else if final == 'J' as int then EraseDisplay(t, Arg(ps, 0, 0))
    else if final == 'K' as int then EraseLine(t, Arg(ps, 0, 0))
    else if final == 'L' as int then InsertLines(t, n)
    else if final == 'M' as int then DeleteLines(t, n)
    else if final == 'P' as int then DeleteChars(t, n)
    else if final == '@' as int then InsertChars(t, n)
    else if final == 'X' as int then EraseInRow(t, t.cur.row, EffCol(t), EffCol(t) + n - 1)
    else if final == 'S' as int then ScrollUp(t, n)
    else if final == 'T' as int then ScrollDown(t, n)
    else if final == 'r' as int then SetRegion(t, ps)
    else if final == 'h' as int then if 4 in ps then t.(irm := true) else t
    else if final == 'l' as int then if 4 in ps then t.(irm := false) else t
    else if final == 's' as int then SaveCursor(t)
    else if final == 'u' as int then RestoreCursor(t)
    else if final == 'm' as int then t.(style := Sgr(t.style, ps))
    else if final == 'g' as int then ClearTabs(t, Arg(ps, 0, 0) == 3)
    else if final == 'q' as int && inter == [0x20] then t.(cur := t.cur.(shape := Arg(ps, 0, 0)))
    else t
  }

  function Column0(t: Term): (t': Term)
    requires Inv(t)
    ensures Inv(t') && Steady(t, t')
  {
    t.(cur := t.cur.(col := 0))
  }

  function EraseDisplay(t: Term, n: int): (t': Term)
    requires Inv(t)
    ensures Inv(t') && Steady(t, t')
  {
    if n > 3 then t
    else if n == 0 then EraseRows(EraseInRow(t, t.cur.row, t.cur.col, t.cols - 1), t.cur.row + 1, t.rows)
    else if n == 1 then EraseInRow(EraseRows(t, 0, t.cur.row), t.cur.row, 0, t.cur.col)
    else EraseRows(t, 0, t.rows)
  }

  function EraseLine(t: Term, n: int): (t': Term)
    requires Inv(t)
    ensures Inv(t') && Steady(t, t')
  {
    if n == 0 then EraseInRow(t, t.cur.row, EffCol(t), t.cols - 1)
    else if n == 1 then EraseInRow(t, t.cur.row, 0, EffCol(t))
    else EraseInRow(t, t.cur.row, 0, t.cols - 1)
  }

  // A written zero, or a region that is not one, and the whole sequence is ignored. A region that
  // is set sends the cursor home.
  function SetRegion(t: Term, ps: seq<int>): (t': Term)
    requires Inv(t)
    ensures Inv(t') && Steady(t, t')
  {
    var top, bottom := Arg(ps, 0, 1) - 1, Arg(ps, 1, t.rows) - 1;
    if (|ps| > 0 && ps[0] == 0) || (|ps| > 1 && ps[1] == 0) || top < 0 || bottom >= t.rows || top >= bottom then t
    else MoveTo(t.(top := top, bottom := bottom), 0, 0)
  }

  function PrivateModes(t: Term, ns: seq<int>, on: bool): (t': Option<Term>)
    requires Inv(t)
    ensures Kept(t')
    decreases |ns|
  {
    if ns == [] then Some(t) else
      match PrivateMode(t, ns[0], on)
      case Some(t1) => PrivateModes(t1, ns[1..], on)
      case None => None
  }

  function PrivateMode(t: Term, n: int, on: bool): (t': Option<Term>)
    requires Inv(t)
    ensures Kept(t')
  {
    if n == 25 then Some(t.(cur := t.cur.(visible := on)))
    else if n == 47 || n == 1047 then Some(if on then EnterAlt(t, false) else LeaveAlt(t, false))
    else if n == 1048 then
      if on then Some(t.(altSaved := t.cur))
      else if t.altSaved.row < t.rows && t.altSaved.col < t.cols then Some(t.(cur := t.altSaved, pend := false))
      else None
    else if n == 7 then Some(t.(awm := on))
    else if n == 1049 then Some(if on then EnterAlt(t, true) else LeaveAlt(t, true))
    else Some(t)
  }

  // ---------------------------------------------------------------- graphic rendition

  // A colour given by number or by its three components, and how many parameters that took. The
  // values are cut to a byte.
  function ExtendedColor(rest: seq<int>): (Color, nat) {
    if |rest| == 0 then (Default, 0)
    else if rest[0] == 5 then
      if |rest| < 2 then (Default, 1) else (Indexed(rest[1] % 256), 2)
    else if rest[0] == 2 then
      if |rest| < 4 then (Default, |rest|) else (RGB(rest[1] % 256, rest[2] % 256, rest[3] % 256), 4)
    else (Default, 1)
  }

  function SgrCode(s: Style, n: int): Style {
    if n == 0 then PLAIN
    else if n == 1 then s.(attrs := s.attrs + {Bold})
    else if n == 2 then s.(attrs := s.attrs + {Faint})
    else if n == 3 then s.(attrs := s.attrs + {Italic})
    else if n == 4 then s.(attrs := s.attrs + {Underline})
    else if n == 5 then s.(attrs := s.attrs + {Blink})
    else if n == 7 then s.(attrs := s.attrs + {Reverse})
    else if n == 9 then s.(attrs := s.attrs + {Strikethrough})
    else if n == 22 then s.(attrs := s.attrs - {Bold, Faint})
    else if n == 23 then s.(attrs := s.attrs - {Italic})
    else if n == 24 then s.(attrs := s.attrs - {Underline})
    else if n == 27 then s.(attrs := s.attrs - {Reverse})
    else if n == 25 then s.(attrs := s.attrs - {Blink})
    else if n == 29 then s.(attrs := s.attrs - {Strikethrough})
    else if 30 <= n <= 37 then s.(fg := Indexed(n - 30))
    else if 40 <= n <= 47 then s.(bg := Indexed(n - 40))
    else if n == 39 then s.(fg := Default)
    else if n == 49 then s.(bg := Default)
    else if 90 <= n <= 97 then s.(fg := Indexed(n - 90 + 8))
    else if 100 <= n <= 107 then s.(bg := Indexed(n - 100 + 8))
    else s
  }

  function SgrFrom(s: Style, ps: seq<int>): Style
    decreases |ps|, s
  {
    if ps == [] then s
    else if ps[0] == 38 || ps[0] == 48 then
      var (c, used) := ExtendedColor(ps[1..]);
      SgrFrom(if ps[0] == 38 then s.(fg := c) else s.(bg := c), ps[1 + used..])
    else SgrFrom(SgrCode(s, ps[0]), ps[1..])
  }

  function Sgr(s: Style, ps: seq<int>): Style {
    SgrFrom(s, if ps == [] then [0] else ps)
  }

  // ---------------------------------------------------------------- the machine

  function Step(e: Emu, c: Byte): (e': Emu)
    requires Valid(e)
    ensures Valid(e')
  {
    if e.Lost? then Lost else
      match e.p.state
      case Ground => GroundByte(e, c)
      case Escape => EscapeByte(e, c)
      case Csi => CsiByte(e, c)
      case Osc => OscByte(e, c)
      case CharsetSelect => CharsetByte(e, c)
      case Str => StrByte(e, c)
  }

  function Feed(e: Emu, bs: seq<Byte>): (e': Emu)
    requires Valid(e)
    ensures Valid(e')
    decreases |bs|, e
  {
    if bs == [] then e else Feed(Step(e, bs[0]), bs[1..])
  }
}
