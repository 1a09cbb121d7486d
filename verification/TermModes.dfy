/** Following what a stream of output does to a terminal's modes. */
module TermModes {
  import opened Vt
  import opened Decimal

  // What is known: which private modes are not as they were at power-on, how the keypad is, and a
  // sequence that has begun and not ended.
  datatype Modes = Modes(on: set<int>, keypad: bool, carry: seq<Byte>)

  const DEFAULTS := Modes({}, false, [])

  // The modes followed. All are off by default except the visible cursor.
  const TRACKED: set<int> := {1, 25, 47, 1047, 1049, 1000, 1002, 1003, 1004, 1005, 1006, 1015, 2004}

  predicate InitiallyOn(n: int) { n == 25 }

  const MAX_CARRY: nat := 64

  predicate IsParam(b: Byte) { IsDigit(b) || b == SEMICOLON }

  // ---------------------------------------------------------------- one sequence

  // How far the parameters of a private sequence go.
  function ParamEnd(p: seq<Byte>, k: nat): (e: nat)
    requires k <= |p|
    ensures k <= e <= |p| && (e < |p| ==> !IsParam(p[e])) && forall i :: k <= i < e ==> IsParam(p[i])
    decreases |p| - k
  {
    if k < |p| && IsParam(p[k]) then ParamEnd(p, k + 1) else k
  }

  // The length of the escape sequence p begins with, or nothing when p ends before it does.
  function Length(p: seq<Byte>): (n: Option<nat>)
    requires |p| > 0
    ensures n.Some? ==> 1 <= n.value <= |p|
  {
    if |p| < 2 then None
    else if p[1] == '=' as int || p[1] == '>' as int then Some(2)
    else if p[1] != '[' as int then Some(1)
    else if |p| < 3 then None
    else if p[2] != '?' as int then Some(2)
    else if ParamEnd(p, 3) == |p| then None
    else Some(ParamEnd(p, 3) + 1)
  }

  // One mode set or reset.
  function SetMode(m: Modes, n: int, on: bool): Modes {
    if n !in TRACKED then m
    else if on == InitiallyOn(n) then m.(on := m.on - {n})
    else m.(on := m.on + {n})
  }

  function SetModes(m: Modes, ns: seq<int>, on: bool): Modes
    decreases |ns|
  {
    if ns == [] then m else SetModes(SetMode(m, ns[0], on), ns[1..], on)
  }

  // What a whole sequence does. A parameter that is not a number is skipped: an empty one reads as
  // -1 here, which is no mode.
  function Obeyed(m: Modes, p: seq<Byte>): Modes
    requires |p| > 0 && Length(p).Some?
  {
    if p[1] == '=' as int then m.(keypad := true)
    else if p[1] == '>' as int then m.(keypad := false)
    else if p[1] != '[' as int || p[2] != '?' as int then m
    else
      var k := ParamEnd(p, 3);
      if p[k] == 'h' as int || p[k] == 'l' as int then SetModes(m, Fields(p[3..k], []), p[k] == 'h' as int) else m
  }

  // ---------------------------------------------------------------- a stream

  // Reads what follows a state with nothing cut off.
  function Scan(m: Modes, p: seq<Byte>): Modes
    decreases |p|
  {
    if p == [] then m
    else if p[0] != ESC then Scan(m, p[1..])
    else
      match Length(p)
      case Some(n) => Scan(Obeyed(m, p), p[n..])
      case None => if |p| <= MAX_CARRY then m.(carry := p) else m
  }

  function Fed(m: Modes, p: seq<Byte>): Modes {
    Scan(m.(carry := []), m.carry + p)
  }

  // ---------------------------------------------------------------- sequences back

  function ModeSeq(n: int, on: bool): seq<Byte>
    requires n in TRACKED
  {
    [ESC, 0x5b, '?' as int] + Itoa(n) + [if on then 'h' as int else 'l' as int]
  }

  // The modes followed in the order they are written: alternate screens first.
  const ORDERED: seq<int> := [47, 1047, 1049, 1, 25, 1000, 1002, 1003, 1004, 1005, 1006, 1015, 2004]

  // Those of a state, in that order.
  function Sorted(on: set<int>, k: nat): (ns: seq<int>)
    requires k <= |ORDERED|
    ensures forall n :: n in ns ==> n in on && n in TRACKED
    decreases |ORDERED| - k
  {
    if k == |ORDERED| then [] else (if ORDERED[k] in on then [ORDERED[k]] else []) + Sorted(on, k + 1)
  }

  function Sequences(ns: seq<int>, flip: bool): seq<Byte>
    requires forall n :: n in ns ==> n in TRACKED
  {
    if ns == [] then [] else ModeSeq(ns[0], InitiallyOn(ns[0]) != flip) + Sequences(ns[1..], flip)
  }

  function Reversed(ns: seq<int>): (r: seq<int>)
    ensures forall n :: n in r <==> n in ns
  {
    if ns == [] then [] else Reversed(ns[1..]) + [ns[0]]
  }

  // What puts a terminal at its defaults into this state.
  function Preamble(m: Modes): seq<Byte> {
    Sequences(Sorted(m.on, 0), true) + if m.keypad then [ESC, '=' as int] else []
  }

  // What takes a terminal in this state back to its defaults: alternate screens last.
  function ResetBytes(m: Modes): seq<Byte> {
    Sequences(Reversed(Sorted(m.on, 0)), false) + if m.keypad then [ESC, '>' as int] else []
  }

  // ---------------------------------------------------------------- as it is kept

  class Tracker {
    var on: set<int>
    var keypad: bool
    var carry: seq<Byte>

    ghost function Value(): Modes
      reads this
    {
      Modes(on, keypad, carry)
    }

    constructor ()
      ensures Value() == DEFAULTS
    {
      on, keypad, carry := {}, false, [];
    }

    // Obeys the sequence p begins with, and measures it; one that p has not all of is left alone.
    method Escape(p: seq<Byte>) returns (n: nat, complete: bool)
      requires |p| > 0
      modifies this
      ensures complete == Length(p).Some? && (complete ==> n == Length(p).value)
      ensures Value() == if complete then Obeyed(old(Value()), p) else old(Value())
    {
      if |p| < 2 {
        return 0, false;
      }
      if p[1] == '=' as int {
        keypad := true;
        return 2, true;
      }
      if p[1] == '>' as int {
        keypad := false;
        return 2, true;
      }
      if p[1] != '[' as int {
        return 1, true;
      }
      if |p| < 3 {
        return 0, false;
      }
      if p[2] != '?' as int {
        return 2, true;
      }
      var k := 3;
      while k < |p| && IsParam(p[k])
        invariant 3 <= k <= |p| && ParamEnd(p, k) == ParamEnd(p, 3)
      {
        k := k + 1;
      }
      if k == |p| {
        return 0, false;
      }
      if p[k] == 'h' as int || p[k] == 'l' as int {
        Set(Fields(p[3..k], []), p[k] == 'h' as int);
      }
      return k + 1, true;
    }

    method Set(ns: seq<int>, set_: bool)
      modifies this`on
      ensures Value() == SetModes(old(Value()), ns, set_)
    {
      var i := 0;
      assert ns[0..] == ns;
      while i < |ns|
        invariant 0 <= i <= |ns|
        invariant SetModes(Value(), ns[i..], set_) == SetModes(old(Value()), ns, set_)
      {
        var n := ns[i];
        if n in TRACKED {
          if set_ == InitiallyOn(n) {
            on := on - {n};
          } else {
            on := on + {n};
          }
        }
        i := i + 1;
      }
    }

    // More of the stream.
    method Feed(p: seq<Byte>)
      modifies this
      ensures Value() == Fed(old(Value()), p)
    {
      hide Obeyed, Length, Scan;
      var q := p;
      if |carry| > 0 {
        q := carry + p;
        carry := [];
      }
      assert old(carry) + p == q;
      var i := 0;
      assert q[0..] == q;
      while i < |q|
        invariant 0 <= i <= |q| && carry == []
        invariant Scan(Value(), q[i..]) == Fed(old(Value()), p)
        decreases |q| - i
      {
        ScanStep(Value(), q[i..]);
        if q[i] != ESC {
          assert q[i..][1..] == q[i + 1..];
          i := i + 1;
        } else {
          ghost var before := Value();
          var n, complete := Escape(q[i..]);
          if !complete {
            if |q| - i <= MAX_CARRY {
              carry := q[i..];
            }
            return;
          }
          KeepsCarry(before, q[i..]);
          assert q[i..][n..] == q[i + n..];
          i := i + n;
        }
      }
      ScanNothing(Value());
    }

    // Gives what undoes the state, and forgets it.
    method Reset() returns (b: seq<Byte>)
      modifies this
      ensures b == ResetBytes(old(Value())) && Value() == DEFAULTS
    {
      b := ResetBytes(Modes(on, keypad, carry));
      on, keypad, carry := {}, false, [];
    }
  }

  lemma ScanStep(m: Modes, p: seq<Byte>)
    requires p != []
    ensures p[0] != ESC ==> Scan(m, p) == Scan(m, p[1..])
    ensures p[0] == ESC && Length(p).Some? ==> Scan(m, p) == Scan(Obeyed(m, p), p[Length(p).value..])
    ensures p[0] == ESC && Length(p).None? ==> Scan(m, p) == if |p| <= MAX_CARRY then m.(carry := p) else m
  {
    hide Obeyed, Length;
  }

  lemma ScanNothing(m: Modes)
    ensures Scan(m, []) == m
  {
  }

  lemma {:induction false} SetKeepsCarry(m: Modes, ns: seq<int>, on: bool)
    ensures SetModes(m, ns, on).carry == m.carry && SetModes(m, ns, on).keypad == m.keypad
    decreases |ns|
  {
    if ns != [] {
      SetKeepsCarry(SetMode(m, ns[0], on), ns[1..], on);
    }
  }

  lemma KeepsCarry(m: Modes, p: seq<Byte>)
    requires |p| > 0 && Length(p).Some?
    ensures Obeyed(m, p).carry == m.carry
  {
    if p[1] == '[' as int && p[2] == '?' as int {
      var k := ParamEnd(p, 3);
      SetKeepsCarry(m, Fields(p[3..k], []), p[k] == 'h' as int);
    }
  }
}
