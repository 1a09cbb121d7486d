/** UTF-8, section 4 of RFC 3629, as the standard decoder the emulator calls reads it. */
module Utf8 {
  import opened Vt

  // How many bytes the sequence a lead byte opens has; 1 for ASCII and for a byte that opens none.
  function Announced(lead: Byte): (n: nat) {
    if 0xC2 <= lead <= 0xDF then 2
    else if 0xE0 <= lead <= 0xEF then 3
    else if 0xF0 <= lead <= 0xF4 then 4
    else 1
  }

  // Whether a second byte is possible after this lead byte: overlong forms, surrogates and values
  // past the last code point are excluded here.
  predicate Second(lead: Byte, b: Byte) {
    (if lead == 0xE0 then 0xA0 else if lead == 0xF0 then 0x90 else 0x80) <= b <=
    (if lead == 0xED then 0x9F else if lead == 0xF4 then 0x8F else 0xBF)
  }

  predicate IsContinuation(b: Byte) { 0x80 <= b <= 0xBF }

  // Whether p begins with a whole encoding, a wrong one included: false exactly while more bytes
  // could still complete a character.
  predicate FullRune(p: seq<Byte>) {
    |p| > 0 &&
    (|| |p| >= Announced(p[0])
     || (|p| > 1 && !Second(p[0], p[1]))
     || (|p| > 2 && !IsContinuation(p[2])))
  }

  // What a byte carries once the bits that say its place in the sequence are taken off.
  function Bits(b: Byte, mark: int): int { b as int - mark }

  // The first character of p and its size; a size of one with the replacement character is how a
  // wrong encoding is reported.
  function DecodeRune(p: seq<Byte>): (Rune, nat)
    requires |p| > 0
  {
    var n := Announced(p[0]);
    if p[0] < 0x80 then (p[0], 1)
    else if n == 1 || |p| < n || !Second(p[0], p[1]) then (REPLACEMENT, 1)
    else if n == 2 then (Bits(p[0], 0xC0) * 0x40 + Bits(p[1], 0x80), 2)
    else if !IsContinuation(p[2]) then (REPLACEMENT, 1)
    else if n == 3 then (Bits(p[0], 0xE0) * 0x1000 + Bits(p[1], 0x80) * 0x40 + Bits(p[2], 0x80), 3)
    else if !IsContinuation(p[3]) then (REPLACEMENT, 1)
    else (Bits(p[0], 0xF0) * 0x40000 + Bits(p[1], 0x80) * 0x1000 + Bits(p[2], 0x80) * 0x40 + Bits(p[3], 0x80), 4)
  }

  function Encode(r: Rune): (p: seq<Byte>)
    ensures 1 <= |p| <= 4
    ensures |p| == 1 <==> r < 0x80
    ensures forall i :: 1 <= i < |p| ==> IsContinuation(p[i])
  {
    if r < 0x80 then [r]
    else if r < 0x800 then [0xC0 + r / 0x40, 0x80 + r % 0x40]
    else if r < 0x10000 then [0xE0 + r / 0x1000, 0x80 + r / 0x40 % 0x40, 0x80 + r % 0x40]
    else [0xF0 + r / 0x40000, 0x80 + r / 0x1000 % 0x40, 0x80 + r / 0x40 % 0x40, 0x80 + r % 0x40]
  }

  function EncodeAll(rs: seq<Rune>): seq<Byte> {
    if rs == [] then [] else Encode(rs[0]) + EncodeAll(rs[1..])
  }

  // Whether bytes that are not a whole character yet might still become one.
  predicate CouldComplete(p: seq<Byte>) {
    |p| == 0 || (|p| < if p[0] < 0x80 then 1 else if Announced(p[0]) == 1 then 0 else Announced(p[0]))
  }

  lemma DecodeThree(r: Rune)
    requires 0x800 <= r < 0x10000
    ensures DecodeRune(Encode(r)) == (r, 3)
  {
    var a, b, c := r / 0x1000, r / 0x40 % 0x40, r % 0x40;
    assert r == a * 0x1000 + b * 0x40 + c;
    var p := Encode(r);
    assert p == [0xE0 + a, 0x80 + b, 0x80 + c];
    assert Second(p[0], p[1]);
  }

  lemma DecodeFour(r: Rune)
    requires 0x10000 <= r
    ensures DecodeRune(Encode(r)) == (r, 4)
  {
    var a, b, c, d := r / 0x40000, r / 0x1000 % 0x40, r / 0x40 % 0x40, r % 0x40;
    assert r == a * 0x40000 + b * 0x1000 + c * 0x40 + d;
    var p := Encode(r);
    assert p == [0xF0 + a, 0x80 + b, 0x80 + c, 0x80 + d];
    assert Second(p[0], p[1]);
  }

  // Every encoding is recognised as whole exactly at its last byte, and decodes to its rune.
  lemma DecodeEncode(r: Rune)
    ensures var p := Encode(r);
            && FullRune(p)
            && DecodeRune(p) == (r, |p|)
            && forall k :: 0 <= k < |p| ==> !FullRune(p[..k])
  {
    if 0x10000 <= r {
      DecodeFour(r);
    } else if 0x800 <= r {
      DecodeThree(r);
    }
  }

  // The decoder's "not whole yet" already means that more bytes could complete the character.
  lemma IncompleteCouldComplete(p: seq<Byte>)
    requires |p| > 0 && !FullRune(p)
    ensures CouldComplete(p) && |p| < 4 && p[0] >= 0xC2
  {
  }
}
