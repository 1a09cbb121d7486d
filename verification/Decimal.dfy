/** Decimal numbers and the semicolon-separated parameter lists of control sequences. */
module Decimal {
  import opened Vt

  predicate IsDigit(b: Byte) { 0x30 <= b <= 0x39 }

  const SEMICOLON: Byte := 0x3b

  function Itoa(n: nat): (s: seq<Byte>)
    ensures |s| > 0 && forall i :: 0 <= i < |s| ==> IsDigit(s[i])
  {
    if n < 10 then [0x30 + n] else Itoa(n / 10) + [0x30 + n % 10]
  }

  function Value(s: seq<Byte>): nat
    requires forall i :: 0 <= i < |s| ==> IsDigit(s[i])
  {
    if s == [] then 0 else
      var last := s[|s| - 1] as int;
      assert IsDigit(last);
      10 * Value(s[..|s| - 1]) + (last - 0x30)
  }

  // One field: -1 when it was left out, 0 when it is not a number.
  function Field(s: seq<Byte>): int {
    if s == [] then -1
    else if forall i :: 0 <= i < |s| ==> IsDigit(s[i]) then Value(s)
    else 0
  }

  // The numbers in a parameter string. An empty string has none.
  function Params(s: seq<Byte>): seq<int> {
    if s == [] then [] else Fields(s, [])
  }

  // The fields of s, the first of which begins with the bytes already read.
  function Fields(s: seq<Byte>, read: seq<Byte>): (ps: seq<int>)
    ensures |ps| > 0
  {
    if s == [] then [Field(read)]
    else if s[0] == SEMICOLON then [Field(read)] + Fields(s[1..], [])
    else Fields(s[1..], read + [s[0]])
  }

  // The numbers of a list with semicolons between them.
  function Join(ns: seq<nat>): (s: seq<Byte>)
    ensures forall i :: 0 <= i < |s| ==> IsDigit(s[i]) || s[i] == SEMICOLON
    ensures ns != [] ==> s != []
  {
    if ns == [] then []
    else if |ns| == 1 then Itoa(ns[0])
    else Itoa(ns[0]) + [SEMICOLON] + Join(ns[1..])
  }

  lemma {:induction false} ValueItoa(n: nat)
    ensures Value(Itoa(n)) == n
  {
    if n >= 10 {
      ValueItoa(n / 10);
      assert Itoa(n)[..|Itoa(n)| - 1] == Itoa(n / 10);
    }
  }

  lemma {:induction false} FieldsDigits(d: seq<Byte>, rest: seq<Byte>, read: seq<Byte>)
    requires forall i :: 0 <= i < |d| ==> IsDigit(d[i])
    ensures Fields(d + rest, read) == Fields(rest, read + d)
  {
    if d == [] {
      assert d + rest == rest && read + d == read;
    } else {
      assert (d + rest)[1..] == d[1..] + rest;
      FieldsDigits(d[1..], rest, read + [d[0]]);
      assert read + [d[0]] + d[1..] == read + d;
    }
  }

  lemma FieldsNumber(n: nat, rest: seq<Byte>)
    ensures Fields(Itoa(n) + rest, []) == Fields(rest, Itoa(n)) && Field(Itoa(n)) == n
  {
    hide Fields, Itoa;
    FieldsDigits(Itoa(n), rest, []);
    assert [] + Itoa(n) == Itoa(n);
    ValueItoa(n);
  }

  lemma {:induction false} FieldsJoin(ns: seq<nat>)
    requires ns != []
    ensures Fields(Join(ns), []) == ns
  {
    var d := Itoa(ns[0]);
    if |ns| == 1 {
      FieldsNumber(ns[0], []);
      assert d + [] == d;
    } else {
      var rest := [SEMICOLON] + Join(ns[1..]);
      FieldsNumber(ns[0], rest);
      assert Join(ns) == d + rest;
      assert rest[1..] == Join(ns[1..]);
      FieldsJoin(ns[1..]);
      assert ns == [ns[0]] + ns[1..];
    }
  }

  // Writing a list of numbers and reading it back gives the list.
  lemma ParamsJoin(ns: seq<nat>)
    ensures Params(Join(ns)) == ns
  {
    if ns != [] {
      FieldsJoin(ns);
    }
  }
}
