/** Style differencing: what the renderer writes to get from one style to another, the parser reads
    as exactly that. */
module SgrLaws {
  import opened Vt
  import opened Grid
  import opened Parser
  import opened ParserLaws
  import opened Render

  // Where an attribute comes in the order they are written.
  function Rank(a: Attribute): (k: nat)
    ensures k < |ORDER| && ORDER[k] == a
  {
    match a
    case Bold => 0 case Faint => 1 case Italic => 2 case Underline => 3
    case Blink => 4 case Reverse => 5 case Strikethrough => 6
  }

  // A style with what is on in one style and not in another added to it, from the k-th attribute
  // on, and the colours in which they differ taken over.
  function AddedFrom(base: Style, from: Style, to: Style, k: nat): Style {
    Style(base.link,
          if to.fg != from.fg then to.fg else base.fg,
          if to.bg != from.bg then to.bg else base.bg,
          base.attrs + set a | a in to.attrs - from.attrs && Rank(a) >= k)
  }

  function Added(base: Style, from: Style, to: Style): Style { AddedFrom(base, from, to, 0) }

  // What a terminal drawing in one style draws in after the difference of two others.
  function Restyled(base: Style, from: Style, to: Style): Style {
    if TurnsSomethingOff(from, to) then Added(PLAIN, PLAIN, to) else Added(base, from, to)
  }

  // ---------------------------------------------------------------- codes, one after another

  lemma SgrExtended(s: Style, n: int, tail: seq<int>)
    requires n == 38 || n == 48
    ensures var (c, used) := ExtendedColor(tail);
            SgrFrom(s, [n] + tail) == SgrFrom(if n == 38 then s.(fg := c) else s.(bg := c), tail[used..])
  {
    var all := [n] + tail;
    assert all[1..] == tail;
    assert all[1 + ExtendedColor(tail).1..] == tail[ExtendedColor(tail).1..];
  }

  lemma SgrPlain(s: Style, n: int, tail: seq<int>)
    requires n != 38 && n != 48
    ensures SgrFrom(s, [n] + tail) == SgrFrom(SgrCode(s, n), tail)
  {
    assert ([n] + tail)[1..] == tail;
  }

  lemma PaletteCode(s: Style, i: Byte, bg: bool)
    requires i < 16
    ensures SgrCode(s, ColorCodes(Indexed(i), bg)[0]) == if bg then s.(bg := Indexed(i)) else s.(fg := Indexed(i))
  {
  }

  lemma NumberedColor(s: Style, i: Byte, bg: bool, rest: seq<nat>)
    ensures SgrFrom(s, ColorCodes(Indexed(i), bg) + rest)
            == SgrFrom(if bg then s.(bg := Indexed(i)) else s.(fg := Indexed(i)), rest)
  {
    hide SgrFrom, SgrCode;
    if i < 16 {
      SgrPlain(s, ColorCodes(Indexed(i), bg)[0], rest);
      PaletteCode(s, i, bg);
    } else {
      var tail: seq<int> := [5, i] + rest;
      assert ColorCodes(Indexed(i), bg) + rest == [if bg then 48 else 38] + tail;
      SgrExtended(s, if bg then 48 else 38, tail);
      assert tail[2..] == rest;
    }
  }

  lemma MixedColor(s: Style, r: Byte, g: Byte, b: Byte, bg: bool, rest: seq<nat>)
    ensures SgrFrom(s, ColorCodes(RGB(r, g, b), bg) + rest)
            == SgrFrom(if bg then s.(bg := RGB(r, g, b)) else s.(fg := RGB(r, g, b)), rest)
  {
    hide SgrFrom;
    var n := if bg then 48 else 38;
    var tail: seq<int> := [2, r, g, b] + rest;
    assert ColorCodes(RGB(r, g, b), bg) + rest == [n] + tail;
    assert ExtendedColor(tail) == (RGB(r, g, b), 4);
    assert tail[4..] == rest;
    hide ExtendedColor, ColorCodes;
    SgrExtended(s, n, tail);
  }

  lemma DefaultColor(s: Style, bg: bool, rest: seq<nat>)
    ensures SgrFrom(s, ColorCodes(Default, bg) + rest) == SgrFrom(if bg then s.(bg := Default) else s.(fg := Default), rest)
  {
    hide SgrFrom;
    SgrPlain(s, if bg then 49 else 39, rest);
  }

  lemma OneColor(s: Style, c: Color, bg: bool, rest: seq<nat>)
    ensures SgrFrom(s, ColorCodes(c, bg) + rest) == SgrFrom(if bg then s.(bg := c) else s.(fg := c), rest)
  {
    hide SgrFrom, ColorCodes;
    match c
    case Indexed(i) => NumberedColor(s, i, bg, rest);
    case RGB(r, g, b) => MixedColor(s, r, g, b, bg, rest);
    case Default => DefaultColor(s, bg, rest);
  }

  lemma MaybeColor(s: Style, differs: bool, c: Color, bg: bool, rest: seq<nat>)
    ensures SgrFrom(s, (if differs then ColorCodes(c, bg) else []) + rest)
            == SgrFrom(if !differs then s else if bg then s.(bg := c) else s.(fg := c), rest)
  {
    if differs {
      OneColor(s, c, bg, rest);
    } else {
      assert [] + rest == rest;
    }
  }

  lemma PairAdds(s: Style, from: Style, to: Style)
    ensures SgrFrom(s, PairCodes(from, to)) == AddedFrom(s, from, to, |ORDER|)
  {
    var bgs := if to.bg != from.bg then ColorCodes(to.bg, true) else [];
    MaybeColor(s, to.fg != from.fg, to.fg, false, bgs);
    assert bgs + [] == bgs;
    MaybeColor(if to.fg != from.fg then s.(fg := to.fg) else s, to.bg != from.bg, to.bg, true, []);
    assert AddedFrom(s, from, to, |ORDER|).attrs == s.attrs;
  }

  lemma CodeSets(s: Style, k: nat)
    requires k < |ORDER|
    ensures SgrCode(s, CODES[k]) == s.(attrs := s.attrs + {ORDER[k]}) && CODES[k] != 38 && CODES[k] != 48
  {
  }

  lemma AddedStep(s: Style, from: Style, to: Style, k: nat)
    requires k < |ORDER|
    ensures AddedFrom(if ORDER[k] in to.attrs - from.attrs then s.(attrs := s.attrs + {ORDER[k]}) else s, from, to, k + 1)
            == AddedFrom(s, from, to, k)
  {
    var gained := set a | a in to.attrs - from.attrs && Rank(a) >= k;
    var later := set a | a in to.attrs - from.attrs && Rank(a) >= k + 1;
    assert Rank(ORDER[k]) == k;
    assert gained == if ORDER[k] in to.attrs - from.attrs then {ORDER[k]} + later else later;
    assert s.attrs + {ORDER[k]} + later == s.attrs + ({ORDER[k]} + later);
  }

  // Reading the codes of a difference adds it.
  lemma {:induction false} CodesAdd(s: Style, from: Style, to: Style, k: nat)
    requires k <= |ORDER|
    ensures SgrFrom(s, Codes(from, to, k)) == AddedFrom(s, from, to, k)
    decreases |ORDER| - k
  {
    hide AddedFrom, SgrCode;
    if k == |ORDER| {
      PairAdds(s, from, to);
    } else {
      AddedStep(s, from, to, k);
      CodeSets(s, k);
      var rest := Codes(from, to, k + 1);
      if ORDER[k] in to.attrs - from.attrs {
        assert ([CODES[k]] + rest)[1..] == rest;
        CodesAdd(SgrCode(s, CODES[k]), from, to, k + 1);
      } else {
        assert [] + rest == rest;
        CodesAdd(s, from, to, k + 1);
      }
    }
  }

  // ---------------------------------------------------------------- bytes

  // The emulator has nothing half-read and its terminal is this one.
  ghost predicate Became(e: Emu, t: Term) { e.Emu? && Inv(e.t) && e.t == t && Quiet(e.p) }

  lemma FeedReset(t: Term, p: Parser)
    requires Inv(t) && Quiet(p)
    ensures Became(Feed(Emu(t, p), RESET), t.(style := PLAIN))
  {
    hide Step;
    FeedCsi(Emu(t, p), [0], 'm' as int);
    assert SgrFrom(PLAIN, [0][1..]) == PLAIN;
  }

  lemma FeedCodes(t: Term, p: Parser, codes: seq<nat>)
    requires Inv(t) && Quiet(p) && codes != []
    ensures Became(Feed(Emu(t, p), CsiBytes(codes, 'm' as int)), t.(style := SgrFrom(t.style, codes)))
  {
    hide Step;
    FeedCsi(Emu(t, p), codes, 'm' as int);
  }

  lemma FeedAttrs(t: Term, p: Parser, from: Style, to: Style)
    requires Inv(t) && Quiet(p)
    ensures Became(Feed(Emu(t, p), Attrs(from, to)), t.(style := Added(t.style, from, to)))
  {
    assert SgrFrom(t.style, []) == t.style;
    hide Step, Codes, AddedFrom, SgrFrom;
    CodesAdd(t.style, from, to, 0);
    if Codes(from, to, 0) != [] {
      FeedCodes(t, p, Codes(from, to, 0));
    }
  }

  lemma FeedSgr(t: Term, p: Parser, from: Style, to: Style)
    requires Inv(t) && Quiet(p)
    ensures Became(Feed(Emu(t, p), SgrBytes(from, to)), t.(style := Restyled(t.style, from, to)))
  {
    hide Step, Attrs, AddedFrom;
    if TurnsSomethingOff(from, to) {
      WriteSplitting(Emu(t, p), RESET, Attrs(PLAIN, to));
      FeedReset(t, p);
      FeedAttrs(t.(style := PLAIN), Feed(Emu(t, p), RESET).p, PLAIN, to);
    } else {
      FeedAttrs(t, p, from, to);
    }
  }

  // Whether a style difference, which says nothing about hyperlinks, can be exact: what it leaves
  // is no link after a reset, and the link there was otherwise.
  predicate LinksAgree(from: Style, to: Style) {
    to.link == if TurnsSomethingOff(from, to) then [] else from.link
  }

  lemma AddedFromPlain(to: Style)
    ensures Added(PLAIN, PLAIN, to) == to.(link := [])
  {
    assert Added(PLAIN, PLAIN, to).attrs == to.attrs;
  }

  lemma AddedFromSelf(from: Style, to: Style)
    requires !TurnsSomethingOff(from, to)
    ensures Added(from, from, to) == to.(link := from.link)
  {
    var a := Added(from, from, to);
    assert a.attrs == to.attrs;
  }

  lemma RestyledExactly(from: Style, to: Style)
    ensures Restyled(from, from, to) == to <==> LinksAgree(from, to)
  {
    hide Added, AddedFrom, TurnsSomethingOff;
    AddedFromPlain(to);
    if !TurnsSomethingOff(from, to) {
      AddedFromSelf(from, to);
    }
  }

  // Style differencing is exact: a terminal drawing in one style, given the bytes of the difference
  // to another, draws in exactly that other one - precisely when hyperlinks do not get in the way.
  lemma SgrExact(t: Term, p: Parser, to: Style)
    requires Inv(t) && Quiet(p)
    ensures Became(Feed(Emu(t, p), SgrBytes(t.style, to)), t.(style := to)) <==> LinksAgree(t.style, to)
  {
    hide Step, SgrBytes, Restyled, LinksAgree, TurnsSomethingOff;
    FeedSgr(t, p, t.style, to);
    RestyledExactly(t.style, to);
  }
}
