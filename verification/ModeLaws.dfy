/** What following a stream's modes comes to: where it is cut does not matter, the state can be
    written out and undone, and a replay cut at a line ends in the state of the whole stream. */
module ModeLaws {
  import opened Vt
  import opened Decimal
  import opened TermModes

  // ---------------------------------------------------------------- chunks

  // A longer stream begins with the same sequence.
  lemma LengthStays(p: seq<Byte>, q: seq<Byte>)
    requires |p| > 0 && Length(p).Some?
    ensures Length(p + q) == Length(p)
  {
    if |p| >= 3 && p[1] == '[' as int && p[2] == '?' as int {
      ParamEndStays(p, q, 3);
    }
  }

  lemma {:induction false} ParamEndStays(p: seq<Byte>, q: seq<Byte>, k: nat)
    requires k <= |p| && ParamEnd(p, k) < |p|
    ensures ParamEnd(p + q, k) == ParamEnd(p, k)
    decreases |p| - k
  {
    if IsParam(p[k]) {
      ParamEndStays(p, q, k + 1);
    }
  }

  lemma ObeyedStays(m: Modes, p: seq<Byte>, q: seq<Byte>)
    requires |p| > 0 && Length(p).Some?
    ensures Length(p + q).Some? && Obeyed(m, p + q) == Obeyed(m, p)
  {
    LengthStays(p, q);
    if |p| >= 3 && p[1] == '[' as int && p[2] == '?' as int {
      ParamEndStays(p, q, 3);
      var k := ParamEnd(p, 3);
      assert (p + q)[3..k] == p[3..k];
    }
  }

  // The sequence a stream ends in the middle of.
  function Unfinished(p: seq<Byte>): (u: seq<Byte>)
    ensures |u| <= |p| && u == p[|p| - |u|..]
    decreases |p|
  {
    if p == [] then []
    else if p[0] != ESC then Unfinished(p[1..])
    else if Length(p).Some? then Unfinished(p[Length(p).value..])
    else p
  }

  // However a stream is cut, as long as nothing cut off is too long to be held.
  lemma {:induction false} ScanSplit(m: Modes, p: seq<Byte>, q: seq<Byte>)
    requires m.carry == [] && |Unfinished(p)| <= MAX_CARRY
    ensures Scan(m, p + q) == Fed(Scan(m, p), q)
    decreases |p|
  {
    hide Obeyed, Length;
    if p == [] {
      assert p + q == q && [] + q == q;
    } else if p[0] != ESC {
      assert (p + q)[1..] == p[1..] + q;
      ScanSplit(m, p[1..], q);
    } else if Length(p).Some? {
      var n := Length(p).value;
      LengthStays(p, q);
      ObeyedStays(m, p, q);
      KeepsCarry(m, p);
      assert (p + q)[n..] == p[n..] + q;
      ScanSplit(Obeyed(m, p), p[n..], q);
    }
  }

  // A private sequence and its parameters so far.
  ghost predicate Run(p: seq<Byte>, i: int, j: int) {
    && 0 <= i && i + 3 <= j <= |p| && p[i] == ESC && p[i + 1] == '[' as int && p[i + 2] == '?' as int
    && forall k :: i + 3 <= k < j ==> IsParam(p[k])
  }

  // No private sequence has so many parameters that it could not be held.
  ghost predicate ShortRuns(p: seq<Byte>) {
    forall i, j :: Run(p, i, j) ==> j - i <= MAX_CARRY
  }

  lemma ShortPrefix(p: seq<Byte>, q: seq<Byte>)
    requires ShortRuns(p + q)
    ensures ShortRuns(p)
  {
    forall i, j | Run(p, i, j)
      ensures j - i <= MAX_CARRY
    {
      assert forall k :: 0 <= k < |p| ==> (p + q)[k] == p[k];
      assert Run(p + q, i, j);
    }
  }

  lemma {:induction false} UnfinishedIsSequence(p: seq<Byte>)
    ensures Unfinished(p) != [] ==> Unfinished(p)[0] == ESC && Length(Unfinished(p)).None?
    decreases |p|
  {
    if p != [] {
      if p[0] != ESC {
        UnfinishedIsSequence(p[1..]);
      } else if Length(p).Some? {
        UnfinishedIsSequence(p[Length(p).value..]);
      }
    }
  }

  lemma UnfinishedShort(p: seq<Byte>)
    requires ShortRuns(p)
    ensures |Unfinished(p)| <= MAX_CARRY
  {
    UnfinishedIsSequence(p);
    var u := Unfinished(p);
    if |u| >= 3 {
      UnfinishedRun(u);
      RunWithin(p, u);
    }
  }

  lemma UnfinishedRun(u: seq<Byte>)
    requires |u| >= 3 && u[0] == ESC && Length(u).None?
    ensures Run(u, 0, |u|)
  {
  }

  lemma RunWithin(p: seq<Byte>, u: seq<Byte>)
    requires |u| <= |p| && u == p[|p| - |u|..] && Run(u, 0, |u|)
    ensures Run(p, |p| - |u|, |p|)
  {
    var i := |p| - |u|;
    assert forall k :: i <= k < |p| ==> p[k] == u[k - i];
  }

  // A stream with what was cut off in the middle of its sequences gone, when that was too long: the
  // rest is read as if the sequence had not begun.
  lemma {:induction false} ScanLost(m: Modes, p: seq<Byte>, q: seq<Byte>)
    requires |Unfinished(p)| > MAX_CARRY
    ensures Scan(m, p + q) == Scan(Scan(m, p), Unfinished(p) + q) && Scan(m, p).carry == m.carry
    decreases |p|
  {
    hide Obeyed, Length;
    if p[0] != ESC {
      assert (p + q)[1..] == p[1..] + q;
      ScanLost(m, p[1..], q);
    } else if Length(p).Some? {
      var n := Length(p).value;
      LengthStays(p, q);
      ObeyedStays(m, p, q);
      KeepsCarry(m, p);
      assert (p + q)[n..] == p[n..] + q;
      ScanLost(Obeyed(m, p), p[n..], q);
    }
  }

  // Cutting a stream somewhere makes no difference to anything that can follow - exactly when what is
  // cut off there, what was cut off before it included, can be held.
  lemma CutIgnored(m: Modes, a: seq<Byte>)
    ensures (forall b :: Fed(Fed(m, a), b) == Fed(m, a + b)) <==> |Unfinished(m.carry + a)| <= MAX_CARRY
  {
    hide Scan, Unfinished;
    var m0, p := m.(carry := []), m.carry + a;
    if |Unfinished(p)| <= MAX_CARRY {
      forall b
        ensures Fed(Fed(m, a), b) == Fed(m, a + b)
      {
        ScanSplit(m0, p, b);
        assert m.carry + (a + b) == p + b;
      }
    } else {
      var b := CutSeen(m0, p);
      assert m.carry + (a + b) == p + b;
      assert Fed(m, a + b) != Fed(Fed(m, a), b);
    }
  }

  // When it is too long, the rest of a sequence that sets or resets one mode more shows it.
  lemma CutSeen(m: Modes, p: seq<Byte>) returns (b: seq<Byte>)
    requires m.carry == [] && |Unfinished(p)| > MAX_CARRY
    ensures Scan(m, p + b) != Fed(Scan(m, p), b)
  {
    hide Scan, SetModes, Fields, Unfinished;
    var u, m1 := Unfinished(p), Scan(m, p);
    UnfinishedIsSequence(p);
    UnfinishedRun(u);
    var on := 1 !in m1.on;
    var digits, last: seq<Byte> := u[3..], [if on then 'h' as int else 'l' as int];
    b := [SEMICOLON, 0x31] + last;
    ScanLost(m, p, b);
    assert u + b == [ESC, '[' as int, '?' as int] + (digits + [SEMICOLON, 0x31]) + last + [];
    RunObeyed(m1, digits + [SEMICOLON, 0x31], on, []);
    ScanNothing(SetModes(m1, Fields(digits + [SEMICOLON, 0x31], []), on));
    LastField(digits, []);
    LastSet(m1, Fields(digits, []), on);
    PlainBytes(m1, b);
    assert [] + b == b;
  }

  lemma PlainBytes(m: Modes, b: seq<Byte>)
    requires ESC !in b
    ensures Scan(m, b) == m
  {
  }

  lemma {:induction false} LastField(s: seq<Byte>, read: seq<Byte>)
    ensures Fields(s + [SEMICOLON, 0x31], read) == Fields(s, read) + [1]
    decreases |s|
  {
    var end: seq<Byte> := [SEMICOLON, 0x31];
    if s == [] {
      assert s + end == end && end[1..] == [0x31] && [0x31 as Byte][1..] == [] && [] + [0x31] == [0x31];
      assert Fields([0x31], []) == Fields([], [0x31]);
      assert Value([0x31]) == 1 by { assert Value([]) == 0; assert [0x31 as Byte][..0] == []; }
    } else {
      assert (s + end)[1..] == s[1..] + end;
      LastField(s[1..], if s[0] == SEMICOLON then [] else read + [s[0]]);
    }
  }

  lemma {:induction false} LastSet(m: Modes, ns: seq<int>, on: bool)
    ensures 1 in SetModes(m, ns + [1], on).on <==> on
    decreases |ns|
  {
    if ns == [] {
      assert ns + [1] == [1] && [1][1..] == [];
    } else {
      assert (ns + [1])[1..] == ns[1..] + [1];
      LastSet(SetMode(m, ns[0], on), ns[1..], on);
    }
  }

  // So in a stream with no sequence too long to be held, chunks do not matter.
  lemma ChunksIgnored(m: Modes, a: seq<Byte>, b: seq<Byte>)
    requires ShortRuns(m.carry + a + b)
    ensures Fed(Fed(m, a), b) == Fed(m, a + b)
  {
    hide Fed, ShortRuns;
    ShortPrefix(m.carry + a, b);
    UnfinishedShort(m.carry + a);
    CutIgnored(m, a);
  }

  // And in one with a sequence that is, it is lost when it is cut before its last byte, though it is
  // obeyed when it comes whole.
  lemma LongSequenceLost(m: Modes, digits: seq<Byte>, on: bool)
    requires m.carry == [] && |digits| > MAX_CARRY - 3 && forall i :: 0 <= i < |digits| ==> IsParam(digits[i])
    ensures var a := [ESC, '[' as int, '?' as int] + digits; var b := [if on then 'h' as int else 'l' as int];
            && Fed(Fed(m, a), b) == m
            && Fed(m, a + b) == SetModes(m, Fields(digits, []), on)
  {
    hide Scan, Obeyed, Length, SetModes;
    var a := [ESC, '[' as int, '?' as int] + digits;
    var final: Byte := if on then 'h' as int else 'l' as int;
    assert [] + a == a && [] + [final] == [final] && [] + (a + [final]) == a + [final];
    TooLong(m, a);
    ScanStep(m, [final]);
    assert [final][1..] == [];
    ScanNothing(m);
    RunObeyed(m, digits, on, []);
    assert a + [final] + [] == a + [final];
    ScanNothing(SetModes(m, Fields(digits, []), on));
  }

  lemma TooLong(m: Modes, a: seq<Byte>)
    requires |a| > MAX_CARRY && Run(a, 0, |a|)
    ensures Scan(m, a) == m
  {
    RunEnds(a, [ESC]);
  }

  // A private sequence that is there whole is obeyed.
  lemma RunObeyed(m: Modes, digits: seq<Byte>, on: bool, rest: seq<Byte>)
    requires forall i :: 0 <= i < |digits| ==> IsParam(digits[i])
    ensures var p := [ESC, '[' as int, '?' as int] + digits + [if on then 'h' as int else 'l' as int] + rest;
            Scan(m, p) == Scan(SetModes(m, Fields(digits, []), on), rest)
  {
    hide SetModes, Fields;
    var a := [ESC, '[' as int, '?' as int] + digits;
    var final: Byte := if on then 'h' as int else 'l' as int;
    var p := a + [final] + rest;
    RunEnds(a, [final] + rest);
    assert a + ([final] + rest) == p;
    assert p[3..|a|] == digits && p[|a| + 1..] == rest;
    ScanStep(m, p);
  }

  lemma RunEnds(a: seq<Byte>, b: seq<Byte>)
    requires |a| >= 3 && |b| > 0 && !IsParam(b[0]) && forall i :: 3 <= i < |a| ==> IsParam(a[i])
    ensures ParamEnd(a, 3) == |a| == ParamEnd(a + b, 3)
  {
    RunEndsFrom(a, b, 3);
  }

  lemma {:induction false} RunEndsFrom(a: seq<Byte>, b: seq<Byte>, k: nat)
    requires k <= |a| && |b| > 0 && !IsParam(b[0]) && forall i :: k <= i < |a| ==> IsParam(a[i])
    ensures ParamEnd(a, k) == |a| == ParamEnd(a + b, k)
    decreases |a| - k
  {
    if k < |a| {
      assert (a + b)[k] == a[k];
      RunEndsFrom(a, b, k + 1);
    } else {
      assert (a + b)[k] == b[0];
    }
  }

  // One mode of those a terminal has: on is on, off is off, and nothing else changes. Of the visible
  // cursor, which is on to begin with, it is the absence that is kept.
  lemma OneModeFed(m: Modes, n: nat, on: bool)
    requires m.carry == []
    ensures var bytes := [ESC, '[' as int, '?' as int] + Itoa(n) + [if on then 'h' as int else 'l' as int];
            Fed(m, bytes) ==
              if n == 25 then m.(on := if on then m.on - {25} else m.on + {25})
              else if n == 1 || n == 47 || n == 1047 || n == 1049 || (1000 <= n <= 1006 && n != 1001) || n == 1015 || n == 2004
              then m.(on := if on then m.on + {n} else m.on - {n})
              else m
    ensures Fed(m, [ESC, '=' as int]) == m.(keypad := true) && Fed(m, [ESC, '>' as int]) == m.(keypad := false)
  {
    hide Scan, Fields;
    var final: Byte := if on then 'h' as int else 'l' as int;
    var bytes := [ESC, '[' as int, '?' as int] + Itoa(n) + [final];
    assert [] + bytes == bytes && bytes + [] == bytes;
    RunObeyed(m, Itoa(n), on, []);
    FieldsNumber(n, []);
    assert Itoa(n) + [] == Itoa(n);
    OneField(n);
    assert [n][1..] == [];
    ScanNothing(SetModes(m, [n], on));
    KeypadFed(m, true);
    KeypadFed(m, false);
  }

  lemma OneField(n: nat)
    ensures Fields([], Itoa(n)) == [Field(Itoa(n))]
  {
  }

  lemma KeypadFed(m: Modes, on: bool)
    requires m.carry == []
    ensures Fed(m, [ESC, if on then '=' as int else '>' as int]) == m.(keypad := on)
  {
    hide Scan;
    var p: seq<Byte> := [ESC, if on then '=' as int else '>' as int];
    assert [] + p == p && p + [] == p;
    ScanKeypad(m, on, []);
    ScanNothing(m.(keypad := on));
  }

  // ---------------------------------------------------------------- writing modes out

  lemma ScanModeSeq(m: Modes, n: int, on: bool, rest: seq<Byte>)
    requires n in TRACKED && m.carry == []
    ensures Scan(m, ModeSeq(n, on) + rest) == Scan(SetMode(m, n, on), rest)
  {
    hide Scan;
    RunObeyed(m, Itoa(n), on, rest);
    FieldsNumber(n, []);
    assert Itoa(n) + [] == Itoa(n);
    assert Fields([], Itoa(n)) == [n];
    assert SetModes(m, [n], on) == SetMode(m, n, on) by { assert [n][1..] == []; }
  }

  function Written(m: Modes, ns: seq<int>, flip: bool): Modes
    requires forall n :: n in ns ==> n in TRACKED
    decreases |ns|
  {
    if ns == [] then m else Written(SetMode(m, ns[0], InitiallyOn(ns[0]) != flip), ns[1..], flip)
  }

  lemma {:induction false} ScanSequences(m: Modes, ns: seq<int>, flip: bool, rest: seq<Byte>)
    requires m.carry == [] && forall n :: n in ns ==> n in TRACKED
    ensures Scan(m, Sequences(ns, flip) + rest) == Scan(Written(m, ns, flip), rest)
    decreases |ns|
  {
    hide ModeSeq, Scan;
    if ns == [] {
      assert [] + rest == rest;
    } else {
      var on := InitiallyOn(ns[0]) != flip;
      var more := Sequences(ns[1..], flip);
      assert Sequences(ns, flip) + rest == ModeSeq(ns[0], on) + (more + rest);
      ScanModeSeq(m, ns[0], on, more + rest);
      ScanSequences(SetMode(m, ns[0], on), ns[1..], flip, rest);
    }
  }

  lemma {:induction false} WrittenIs(m: Modes, ns: seq<int>, flip: bool)
    requires forall n :: n in ns ==> n in TRACKED
    ensures Written(m, ns, flip) == m.(on := if flip then m.on + set n | n in ns else m.on - set n | n in ns)
    decreases |ns|
  {
    if ns != [] {
      WrittenIs(SetMode(m, ns[0], InitiallyOn(ns[0]) != flip), ns[1..], flip);
    }
  }

  lemma {:induction false} SortedHas(on: set<int>, k: nat, n: int)
    requires k <= |ORDERED|
    ensures n in Sorted(on, k) <==> n in on && n in ORDERED[k..]
    decreases |ORDERED| - k
  {
    if k < |ORDERED| {
      SortedHas(on, k + 1, n);
      assert ORDERED[k..] == [ORDERED[k]] + ORDERED[k + 1..];
    }
  }

  lemma SortedAll(on: set<int>)
    requires on <= TRACKED
    ensures (set n | n in Sorted(on, 0)) == on
  {
    forall n
      ensures n in Sorted(on, 0) <==> n in on
    {
      SortedHas(on, 0, n);
      assert ORDERED[0..] == ORDERED;
      assert n in ORDERED <==> n in TRACKED;
    }
  }

  // Only followed modes are ever on.
  lemma {:induction false} ModesTracked(m: Modes, ns: seq<int>, on: bool)
    requires m.on <= TRACKED
    ensures SetModes(m, ns, on).on <= TRACKED
    decreases |ns|
  {
    if ns != [] {
      ModesTracked(SetMode(m, ns[0], on), ns[1..], on);
    }
  }

  lemma {:induction false} ScanTracked(m: Modes, p: seq<Byte>)
    requires m.on <= TRACKED
    ensures Scan(m, p).on <= TRACKED
    decreases |p|
  {
    hide SetModes;
    if p != [] {
      if p[0] != ESC {
        ScanTracked(m, p[1..]);
      } else if Length(p).Some? {
        if p[1] == '[' as int && p[2] == '?' as int {
          var k := ParamEnd(p, 3);
          ModesTracked(m, Fields(p[3..k], []), p[k] == 'h' as int);
        }
        ScanTracked(Obeyed(m, p), p[Length(p).value..]);
      }
    }
  }

  lemma ScanKeypad(m: Modes, on: bool, rest: seq<Byte>)
    requires m.carry == []
    ensures Scan(m, [ESC, if on then '=' as int else '>' as int] + rest) == Scan(m.(keypad := on), rest)
  {
    hide Scan;
    var p: seq<Byte> := [ESC, if on then '=' as int else '>' as int] + rest;
    assert p[0] == ESC && p[1] == (if on then '=' as int else '>' as int) && p[2..] == rest;
    ScanStep(m, p);
  }

  // The preamble of a state takes a terminal at its defaults to it.
  lemma PreambleRestores(m: Modes)
    requires m.on <= TRACKED
    ensures Fed(DEFAULTS, Preamble(m)) == m.(carry := [])
  {
    hide Scan;
    PreambleThen(m, []);
    assert Preamble(m) + [] == Preamble(m);
    ScanNothing(m.(carry := []));
  }

  lemma ReversedHas(ns: seq<int>)
    ensures (set n | n in Reversed(ns)) == set n | n in ns
  {
  }

  // What Reset gives takes a terminal in that state back to its defaults.
  lemma ResetUndoes(m: Modes)
    requires m.on <= TRACKED && m.carry == []
    ensures Fed(m, ResetBytes(m)) == DEFAULTS
  {
    hide Scan, Sequences, Sorted, Written, Reversed;
    var ns := Reversed(Sorted(m.on, 0));
    var tail: seq<Byte> := if m.keypad then [ESC, '>' as int] else [];
    assert [] + ResetBytes(m) == Sequences(ns, false) + tail;
    ScanSequences(m, ns, false, tail);
    WrittenIs(m, ns, false);
    ReversedHas(Sorted(m.on, 0));
    SortedAll(m.on);
    var m1 := m.(on := {});
    assert m.on - m.on == {};
    if m.keypad {
      assert tail + [] == tail;
      ScanKeypad(m1, false, []);
    }
    ScanNothing(m.(on := {}, keypad := false));
  }

  // ---------------------------------------------------------------- replays

  datatype Change = Mode(n: int, on: bool) | Keypad(app: bool)

  function Changed(m: Modes, c: Change): Modes {
    match c
    case Mode(n, on) => SetMode(m, n, on)
    case Keypad(app) => m.(keypad := app)
  }

  function AllChanged(m: Modes, cs: seq<Change>): Modes
    decreases |cs|
  {
    if cs == [] then m else AllChanged(Changed(m, cs[0]), cs[1..])
  }

  function ModeChanges(ns: seq<int>, on: bool): seq<Change> {
    seq(|ns|, i requires 0 <= i < |ns| => Mode(ns[i], on))
  }

  // The changes one sequence asks for, whatever the state it meets.
  function ChangesOf(p: seq<Byte>): seq<Change>
    requires |p| > 0 && Length(p).Some?
  {
    if p[1] == '=' as int then [Keypad(true)]
    else if p[1] == '>' as int then [Keypad(false)]
    else if p[1] != '[' as int || p[2] != '?' as int then []
    else
      var k := ParamEnd(p, 3);
      if p[k] == 'h' as int || p[k] == 'l' as int then ModeChanges(Fields(p[3..k], []), p[k] == 'h' as int) else []
  }

  function Changes(p: seq<Byte>): seq<Change>
    decreases |p|
  {
    if p == [] then []
    else if p[0] != ESC then Changes(p[1..])
    else if Length(p).Some? then ChangesOf(p) + Changes(p[Length(p).value..])
    else []
  }

  lemma {:induction false} ModesChanged(m: Modes, ns: seq<int>, on: bool)
    ensures SetModes(m, ns, on) == AllChanged(m, ModeChanges(ns, on))
    decreases |ns|
  {
    if ns != [] {
      ModesChanged(SetMode(m, ns[0], on), ns[1..], on);
      assert ModeChanges(ns, on)[1..] == ModeChanges(ns[1..], on);
    }
  }

  lemma ObeyedChanged(m: Modes, p: seq<Byte>)
    requires |p| > 0 && Length(p).Some?
    ensures Obeyed(m, p) == AllChanged(m, ChangesOf(p))
  {
    hide SetModes, ModeChanges;
    if p[1] == '[' as int && p[2] == '?' as int {
      var k := ParamEnd(p, 3);
      ModesChanged(m, Fields(p[3..k], []), p[k] == 'h' as int);
    }
  }

  lemma {:induction false} ChangedInTwo(m: Modes, a: seq<Change>, b: seq<Change>)
    ensures AllChanged(m, a + b) == AllChanged(AllChanged(m, a), b)
    decreases |a|
  {
    if a == [] {
      assert a + b == b;
    } else {
      assert (a + b)[1..] == a[1..] + b;
      ChangedInTwo(Changed(m, a[0]), a[1..], b);
    }
  }

  // What is held of a stream: what it is cut off in, unless that is too long.
  function Held(p: seq<Byte>): seq<Byte> { if |Unfinished(p)| <= MAX_CARRY then Unfinished(p) else [] }

  // What a stream does to a state: its changes in order, and what is held.
  lemma {:induction false} ScanChanges(m: Modes, p: seq<Byte>)
    requires m.carry == []
    ensures Scan(m, p) == AllChanged(m, Changes(p)).(carry := Held(p))
    decreases |p|
  {
    hide Length, Obeyed, ChangesOf;
    if p != [] {
      if p[0] != ESC {
        ScanChanges(m, p[1..]);
      } else if Length(p).Some? {
        var rest := p[Length(p).value..];
        ObeyedChanged(m, p);
        KeepsCarry(m, p);
        ScanChanges(Obeyed(m, p), rest);
        ChangedInTwo(m, ChangesOf(p), Changes(rest));
      }
    }
  }

  // The last word on a mode: on, off, or nothing said.
  function LastWord(cs: seq<Change>, n: int): Option<bool>
    decreases |cs|
  {
    if cs == [] then None
    else if LastWord(cs[1..], n).Some? then LastWord(cs[1..], n)
    else match cs[0] case Mode(k, on) => if k == n then Some(on) else None case Keypad(_) => None
  }

  function LastKeypad(cs: seq<Change>): Option<bool>
    decreases |cs|
  {
    if cs == [] then None
    else if LastKeypad(cs[1..]).Some? then LastKeypad(cs[1..])
    else match cs[0] case Mode(_, _) => None case Keypad(app) => Some(app)
  }

  // The last change to each mode wins.
  lemma {:induction false} LastWins(m: Modes, cs: seq<Change>, n: int)
    requires n in TRACKED
    ensures n in AllChanged(m, cs).on <==> if LastWord(cs, n).Some? then LastWord(cs, n).value != InitiallyOn(n) else n in m.on
    decreases |cs|
  {
    if cs != [] {
      LastWins(Changed(m, cs[0]), cs[1..], n);
    }
  }

  lemma {:induction false} LastKeypadWins(m: Modes, cs: seq<Change>)
    ensures AllChanged(m, cs).keypad == if LastKeypad(cs).Some? then LastKeypad(cs).value else m.keypad
    ensures AllChanged(m, cs).carry == m.carry
    ensures m.on <= TRACKED ==> AllChanged(m, cs).on <= TRACKED
    decreases |cs|
  {
    if cs != [] {
      LastKeypadWins(Changed(m, cs[0]), cs[1..]);
    }
  }

  // So making the same changes again changes nothing.
  lemma ChangesAgain(m: Modes, cs: seq<Change>)
    requires m.on <= TRACKED
    ensures AllChanged(AllChanged(m, cs), cs) == AllChanged(m, cs)
  {
    var m1 := AllChanged(m, cs);
    var m2 := AllChanged(m1, cs);
    LastKeypadWins(m, cs);
    LastKeypadWins(m1, cs);
    forall n | n in TRACKED
      ensures n in m2.on <==> n in m1.on
    {
      LastWins(m, cs, n);
      LastWins(m1, cs, n);
    }
    assert m2.on == m1.on;
  }

  const NEWLINE: Byte := 0x0a

  // A newline is never inside a sequence.
  lemma {:induction false} NewlineEnds(p: seq<Byte>)
    requires |p| > 0 && p[|p| - 1] == NEWLINE
    ensures Unfinished(p) == []
    decreases |p|
  {
    if p[0] != ESC {
      if |p| > 1 {
        NewlineEnds(p[1..]);
      }
    } else if Length(p).Some? {
      var rest := p[Length(p).value..];
      if rest != [] {
        NewlineEnds(rest);
      }
    }
  }

  // A stream and its last part, from anywhere that is not inside a sequence: after the preamble of the
  // whole, the last part leaves the state the whole stream left.
  lemma ReplayRestores(s: seq<Byte>, k: nat)
    requires k <= |s| && Unfinished(s[..k]) == []
    ensures Fed(DEFAULTS, Preamble(Fed(DEFAULTS, s)) + s[k..]) == Fed(DEFAULTS, s)
  {
    hide Scan, Changes, AllChanged, Preamble, Unfinished;
    var a, b := s[..k], s[k..];
    assert s == a + b && [] + s == s;
    UnfinishedAfter(a, b);
    var m1 := Scan(DEFAULTS, a);
    ScanChanges(DEFAULTS, a);
    ScanTracked(DEFAULTS, a);
    ScanSplit(DEFAULTS, a, b);
    assert [] + b == b;
    ScanChanges(m1, b);
    var whole := Fed(DEFAULTS, s);
    assert whole == AllChanged(m1, Changes(b)).(carry := Held(b));
    AgainFromWhole(m1, b, whole);
    PreambleThen(whole, b);
  }

  // As it does from a newline on.
  lemma ReplayFromLine(s: seq<Byte>, k: nat)
    requires 0 < k <= |s| && s[k - 1] == NEWLINE
    ensures Fed(DEFAULTS, Preamble(Fed(DEFAULTS, s)) + s[k..]) == Fed(DEFAULTS, s)
  {
    hide Fed, Unfinished;
    NewlineEnds(s[..k]);
    ReplayRestores(s, k);
  }

  lemma NothingUnfinished()
    ensures Unfinished([]) == []
  {
  }

  // With nothing cut off in the first part, what is cut off is cut off in the second.
  lemma {:induction false} UnfinishedAfter(a: seq<Byte>, b: seq<Byte>)
    requires Unfinished(a) == []
    ensures Unfinished(a + b) == Unfinished(b)
    decreases |a|
  {
    hide Length;
    if a == [] {
      assert a + b == b;
    } else if a[0] != ESC {
      assert (a + b)[1..] == a[1..] + b;
      UnfinishedAfter(a[1..], b);
    } else {
      LengthStays(a, b);
      var n := Length(a).value;
      assert (a + b)[n..] == a[n..] + b;
      UnfinishedAfter(a[n..], b);
    }
  }

  lemma AgainFromWhole(m1: Modes, b: seq<Byte>, whole: Modes)
    requires m1.carry == [] && m1.on <= TRACKED && whole == AllChanged(m1, Changes(b)).(carry := Held(b))
    ensures whole.on <= TRACKED && Scan(whole.(carry := []), b) == whole
  {
    hide Scan, Changes, AllChanged, Unfinished;
    LastKeypadWins(m1, Changes(b));
    ChangesAgain(m1, Changes(b));
    ScanChanges(whole.(carry := []), b);
  }

  lemma PreambleThen(m: Modes, b: seq<Byte>)
    requires m.on <= TRACKED
    ensures Fed(DEFAULTS, Preamble(m) + b) == Scan(m.(carry := []), b)
  {
    hide Scan, Sequences, Sorted, Written;
    var ns := Sorted(m.on, 0);
    var tail: seq<Byte> := if m.keypad then [ESC, '=' as int] else [];
    assert [] + (Preamble(m) + b) == Sequences(ns, true) + (tail + b);
    ScanSequences(DEFAULTS, ns, true, tail + b);
    WrittenIs(DEFAULTS, ns, true);
    SortedAll(m.on);
    var m1 := DEFAULTS.(on := m.on);
    assert {} + m.on == m.on;
    if m.keypad {
      ScanKeypad(m1, true, b);
    } else {
      assert tail + b == b;
    }
  }
}
