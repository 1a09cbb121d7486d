/** What a log holds of a stream, entry by entry: bytes of the stream, gaps and losses of a known
    length, and lines of the log's own. */
module Ledger {
  import opened Vt
  import Decimal

  datatype Entry =
    | Wrote(at: nat, bytes: seq<Byte>)   // bytes of the stream, from an offset on
    | Gap(at: nat, n: nat)               // bytes of the stream that were gone, as a note says
    | Lost(at: nat, n: nat)              // bytes of the stream that could not be written
    | Note(bytes: seq<Byte>)             // a line of the log's own
    | NoteLost(n: nat)                   // what could not be written of one

  // Where in the stream a log is, if every entry begins where the one before ended.
  function Position(log: seq<Entry>, start: nat): (pos: Option<nat>)
    decreases |log|
  {
    if log == [] then Some(start) else Moved(Position(log[..|log| - 1], start), log[|log| - 1])
  }

  function Moved(pos: Option<nat>, e: Entry): Option<nat> {
    match e
    case Wrote(at, bytes) => if pos == Some(at) then Some(at + |bytes|) else None
    case Gap(at, n) => if pos == Some(at) then Some(at + n) else None
    case Lost(at, n) => if pos == Some(at) then Some(at + n) else None
    case Note(_) => pos
    case NoteLost(_) => pos
  }

  // Every byte in the log that is of the stream is the stream's at that offset.
  ghost predicate True(log: seq<Entry>, stream: seq<Byte>) {
    forall e :: e in log && e.Wrote? ==> e.at + |e.bytes| <= |stream| && e.bytes == stream[e.at..e.at + |e.bytes|]
  }

  // What the files hold.
  function Text(log: seq<Entry>): seq<Byte>
    decreases |log|
  {
    if log == [] then [] else Text(log[..|log| - 1]) + TextOf(log[|log| - 1])
  }

  function TextOf(e: Entry): seq<Byte> {
    match e
    case Wrote(_, bytes) => bytes
    case Note(bytes) => bytes
    case Gap(_, _) => []
    case Lost(_, _) => []
    case NoteLost(_) => []
  }

  // How much is missing, in all.
  function Missing(log: seq<Entry>): nat
    decreases |log|
  {
    if log == [] then 0 else Missing(log[..|log| - 1]) + MissingOf(log[|log| - 1])
  }

  function MissingOf(e: Entry): nat {
    match e
    case Wrote(_, _) => 0
    case Note(_) => 0
    case Gap(_, n) => n
    case Lost(_, n) => n
    case NoteLost(n) => n
  }

  // How much of that was gone before the log could have it.
  function Gaps(log: seq<Entry>): nat
    decreases |log|
  {
    if log == [] then 0
    else Gaps(log[..|log| - 1]) + if log[|log| - 1].Gap? then log[|log| - 1].n else 0
  }

  lemma OneMore(log: seq<Entry>, e: Entry, start: nat)
    ensures Text(log + [e]) == Text(log) + TextOf(e)
    ensures Missing(log + [e]) == Missing(log) + MissingOf(e)
    ensures Gaps(log + [e]) == Gaps(log) + if e.Gap? then e.n else 0
    ensures Position(log + [e], start) == Moved(Position(log, start), e)
  {
    assert (log + [e])[..|log|] == log;
  }

  // ---------------------------------------------------------------- writing

  // Bytes of the stream given to the file, of which it took k.
  function Emitted(log: seq<Entry>, at: nat, p: seq<Byte>, k: nat): seq<Entry>
    requires k <= |p|
  {
    log + [Wrote(at, p[..k])] + (if k < |p| then [Lost(at + k, |p| - k)] else [])
  }

  // A line of the log's own given to the file, of which it took k.
  function Noted(log: seq<Entry>, p: seq<Byte>, k: nat): seq<Entry>
    requires k <= |p|
  {
    log + [Note(p[..k])] + (if k < |p| then [NoteLost(|p| - k)] else [])
  }

  function Ascii(s: string): seq<Byte> { seq(|s|, i requires 0 <= i < |s| => s[i] as int % 128) }

  // The line that says how much is gone.
  function GapNote(n: nat): seq<Byte> {
    Ascii("\r\n[gozellij] ") + Decimal.Itoa(n) + Ascii(" bytes of output never reached this log: the log writer fell behind and the buffer wrapped\r\n")
  }

  // Which it does: no two lengths have the same line.
  lemma GapNoteExact(n: nat, m: nat)
    requires GapNote(n) == GapNote(m)
    ensures n == m
  {
    var p, q := Ascii("\r\n[gozellij] "), Ascii(" bytes of output never reached this log: the log writer fell behind and the buffer wrapped\r\n");
    Middle(p, Decimal.Itoa(n), q);
    Middle(p, Decimal.Itoa(m), q);
    Decimal.ValueItoa(n);
    Decimal.ValueItoa(m);
  }

  lemma Middle(p: seq<Byte>, d: seq<Byte>, q: seq<Byte>)
    ensures (p + d + q)[|p|..|p + d + q| - |q|] == d
  {
  }

  // A gap with the line before it, of which the file took j bytes.
  function Skipped(log: seq<Entry>, at: nat, n: nat, j: nat): seq<Entry>
    requires j <= |GapNote(n)|
  {
    Noted(log, GapNote(n), j) + [Gap(at, n)]
  }

  // Every gap has a line before it that says how long it is, or as much of that as could be written.
  ghost predicate GapsSaid(log: seq<Entry>) {
    forall i :: 0 <= i < |log| && log[i].Gap? ==> exists j :: 0 <= j <= |GapNote(log[i].n)| && SaidAt(log, i, j)
  }

  ghost predicate SaidAt(log: seq<Entry>, i: nat, j: nat)
    requires i < |log| && log[i].Gap? && j <= |GapNote(log[i].n)|
  {
    var note := GapNote(log[i].n);
    if j == |note| then i >= 1 && log[i - 1] == Note(note)
    else i >= 2 && log[i - 2] == Note(note[..j]) && log[i - 1] == NoteLost(|note| - j)
  }

  // ---------------------------------------------------------------- what that comes to

  // Given bytes are written or lost, and the log moves on by all of them.
  lemma EmittedMoves(log: seq<Entry>, at: nat, p: seq<Byte>, k: nat, start: nat)
    requires k <= |p|
    ensures var log' := Emitted(log, at, p, k);
            && Position(log', start) == (if Position(log, start) == Some(at) then Some(at + |p|) else None)
            && Text(log') == Text(log) + p[..k] && Missing(log') == Missing(log) + (|p| - k) && Gaps(log') == Gaps(log)
  {
    hide Position, Text, Missing, Gaps;
    var log1 := log + [Wrote(at, p[..k])];
    OneMore(log, Wrote(at, p[..k]), start);
    if k < |p| {
      OneMore(log1, Lost(at + k, |p| - k), start);
      assert Text(log1) + [] == Text(log1);
    } else {
      assert log1 + [] == log1;
    }
  }

  lemma NotedStays(log: seq<Entry>, p: seq<Byte>, k: nat, start: nat)
    requires k <= |p|
    ensures var log' := Noted(log, p, k);
            && Position(log', start) == Position(log, start)
            && Text(log') == Text(log) + p[..k] && Missing(log') == Missing(log) + (|p| - k) && Gaps(log') == Gaps(log)
  {
    hide Position, Text, Missing, Gaps;
    var log1 := log + [Note(p[..k])];
    OneMore(log, Note(p[..k]), start);
    if k < |p| {
      OneMore(log1, NoteLost(|p| - k), start);
      assert Text(log1) + [] == Text(log1);
    } else {
      assert log1 + [] == log1;
    }
  }

  lemma SkippedMoves(log: seq<Entry>, at: nat, n: nat, j: nat, start: nat)
    requires j <= |GapNote(n)|
    ensures var log' := Skipped(log, at, n, j);
            && Position(log', start) == (if Position(log, start) == Some(at) then Some(at + n) else None)
            && |Text(log')| == |Text(log)| + j && Missing(log') == Missing(log) + (|GapNote(n)| - j) + n
              && Gaps(log') == Gaps(log) + n
  {
    hide Position, Text, Missing, Gaps, Noted, GapNote;
    NotedStays(log, GapNote(n), j, start);
    OneMore(Noted(log, GapNote(n), j), Gap(at, n), start);
  }

  // Entries that are no gaps may follow whatever has been said.
  lemma SaidStays(log: seq<Entry>, more: seq<Entry>)
    requires GapsSaid(log) && forall i :: 0 <= i < |more| ==> !more[i].Gap?
    ensures GapsSaid(log + more)
  {
    hide GapNote;
    forall i | 0 <= i < |log + more| && (log + more)[i].Gap?
      ensures exists j :: 0 <= j <= |GapNote((log + more)[i].n)| && SaidAt(log + more, i, j)
    {
      assert (log + more)[i] == log[i];
      var j :| 0 <= j <= |GapNote(log[i].n)| && SaidAt(log, i, j);
      assert SaidAt(log + more, i, j);
    }
  }

  lemma EmittedSaid(log: seq<Entry>, at: nat, p: seq<Byte>, k: nat)
    requires k <= |p| && GapsSaid(log)
    ensures GapsSaid(Emitted(log, at, p, k))
  {
    var more := [Wrote(at, p[..k])] + if k < |p| then [Lost(at + k, |p| - k)] else [];
    SaidStays(log, more);
    assert log + more == Emitted(log, at, p, k);
  }

  lemma NotedSaid(log: seq<Entry>, p: seq<Byte>, k: nat)
    requires k <= |p| && GapsSaid(log)
    ensures GapsSaid(Noted(log, p, k))
  {
    var more := [Note(p[..k])] + if k < |p| then [NoteLost(|p| - k)] else [];
    SaidStays(log, more);
    assert log + more == Noted(log, p, k);
  }

  lemma SkippedSaid(log: seq<Entry>, at: nat, n: nat, j: nat)
    requires j <= |GapNote(n)| && GapsSaid(log)
    ensures GapsSaid(Skipped(log, at, n, j))
  {
    hide GapNote;
    var before, log' := Noted(log, GapNote(n), j), Skipped(log, at, n, j);
    NotedSaid(log, GapNote(n), j);
    forall i | 0 <= i < |log'| && log'[i].Gap?
      ensures exists j :: 0 <= j <= |GapNote(log'[i].n)| && SaidAt(log', i, j)
    {
      if i < |before| {
        assert log'[i] == before[i];
        var j0 :| 0 <= j0 <= |GapNote(before[i].n)| && SaidAt(before, i, j0);
        assert SaidAt(log', i, j0);
      } else {
        assert GapNote(n)[..|GapNote(n)|] == GapNote(n);
        assert SaidAt(log', i, j);
      }
    }
  }

  lemma EmittedTrue(log: seq<Entry>, at: nat, p: seq<Byte>, k: nat, stream: seq<Byte>)
    requires k <= |p| && True(log, stream) && at + |p| <= |stream| && p == stream[at..at + |p|]
    ensures True(Emitted(log, at, p, k), stream)
  {
    assert p[..k] == stream[at..at + k];
  }

  lemma NotedTrue(log: seq<Entry>, p: seq<Byte>, k: nat, stream: seq<Byte>)
    requires k <= |p| && True(log, stream)
    ensures True(Noted(log, p, k), stream)
  {
  }

  lemma SkippedTrue(log: seq<Entry>, at: nat, n: nat, j: nat, stream: seq<Byte>)
    requires j <= |GapNote(n)| && True(log, stream)
    ensures True(Skipped(log, at, n, j), stream)
  {
    hide GapNote;
  }

  lemma TrueGrows(log: seq<Entry>, stream: seq<Byte>, more: seq<Byte>)
    requires True(log, stream)
    ensures True(log, stream + more)
  {
    forall e | e in log && e.Wrote?
      ensures e.at + |e.bytes| <= |stream + more| && e.bytes == (stream + more)[e.at..e.at + |e.bytes|]
    {
    }
  }
}
