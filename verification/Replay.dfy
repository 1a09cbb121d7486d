/** What a terminal that arrives is given: the modes of the stream, and the part of it that is kept. */
module Replay {
  import opened Vt
  import opened TermModes
  import opened ModeLaws
  import opened Output

  // How far in the first newline is looked for.
  const LOOK: nat := 65536

  // Bytes that begin anywhere, from the first line on.
  method ReplayStart(b: seq<Byte>) returns (r: seq<Byte>)
    ensures exists k :: 0 <= k <= |b| && r == b[k..] && (k > 0 ==> b[k - 1] == NEWLINE)
                     && (k == 0 <==> NEWLINE !in b[..Min(|b|, LOOK)])
                     && (k > 0 ==> NEWLINE !in b[..k - 1])
  {
    var i := 0;
    while i < |b| && i < LOOK
      invariant 0 <= i <= Min(|b|, LOOK) && NEWLINE !in b[..i]
    {
      if b[i] == NEWLINE {
        assert b[..i + 1 - 1] == b[..i];
        assert b[i] in b[..Min(|b|, LOOK)];
        return b[i + 1..];
      }
      i := i + 1;
    }
    assert b[..Min(|b|, LOOK)] == b[..i];
    assert b[0..] == b;
    return b;
  }

  // What an attaching terminal is sent: the preamble, and the snapshot - from its first line on, if
  // more was written than is kept. Its modes are then those of everything written, unless more was
  // written than is kept, what is kept begins inside a sequence, and there is no line to begin at.
  method Assemble(snap: seq<Byte>, s: Subscriber, ghost stream: seq<Byte>) returns (replay: seq<Byte>)
    requires |snap| <= |stream| && snap == Last(stream, |snap|) && s.from == |stream|
    requires s.preamble == Preamble(Fed(DEFAULTS, stream))
    ensures exists k :: |stream| - |snap| <= k <= |stream| && replay == s.preamble + stream[k..]
    ensures NEWLINE in snap[..Min(|snap|, LOOK)] || Unfinished(stream[..|stream| - |snap|]) == []
            ==> Fed(DEFAULTS, replay) == Fed(DEFAULTS, stream)
  {
    hide Fed, Preamble, Unfinished;
    var cut := snap;
    ghost var first := |stream| - |snap|;
    ghost var k := first;
    if s.from > |snap| {
      cut := ReplayStart(snap);
      k := |stream| - |cut|;
    } else {
      NothingUnfinished();
      assert stream[..first] == [];
    }
    assert cut == stream[k..];
    replay := s.preamble + cut;
    if k > first || (k > 0 && stream[k - 1] == NEWLINE) {
      ReplayFromLine(stream, k);
    } else if Unfinished(stream[..first]) == [] {
      ReplayRestores(stream, first);
    }
  }
}
