/** The buffer's readers take the steps of the protocol the disk log is part of. */
module Followers {
  import opened Vt
  import opened Output
  import opened Ledger
  import opened Sink
  import LogRuns

  // The chunks of a channel, with where in the stream each is from.
  function Chunks(ch: seq<seq<Byte>>, at: nat): seq<LogRuns.Chunk> {
    if ch == [] then [] else [LogRuns.Chunk(at, ch[0])] + Chunks(ch[1..], at + |ch[0]|)
  }

  lemma {:induction false} ChunksMore(ch: seq<seq<Byte>>, at: nat, p: seq<Byte>)
    ensures Chunks(ch + [p], at) == Chunks(ch, at) + [LogRuns.Chunk(at + |Flat(ch)|, p)]
  {
    if ch == [] {
      assert ch + [p] == [p] && [p][1..] == [];
    } else {
      var rest, first := ch[1..], LogRuns.Chunk(at, ch[0]);
      ChunksMore(rest, at + |ch[0]|, p);
      assert (ch + [p])[1..] == rest + [p] && (ch + [p])[0] == ch[0];
      var last := LogRuns.Chunk(at + |ch[0]| + |Flat(rest)|, p);
      assert Chunks(ch, at) == [first] + Chunks(rest, at + |ch[0]|);
      hide Chunks;
      assert [first] + (Chunks(rest, at + |ch[0]|) + [last]) == ([first] + Chunks(rest, at + |ch[0]|)) + [last];
    }
  }

  // What the protocol sees of a reader.
  ghost function Seen(s: Subscriber): LogRuns.Reader
    reads s
  {
    LogRuns.Reader(s.from, Chunks(s.ch, s.from + |s.received|), s.open, s.lagged)
  }

  // A write is the protocol's: the readers without room are those that lag.
  method Write(o: OutputBuffer, p: seq<Byte>)
    requires o.Valid() && !o.closed && p != []
    modifies o, o.ring, o.ring.buf, o.modes, o.all
    ensures o.Valid() && o.all == old(o.all) && o.ring.stream == old(o.ring.stream) + p
    ensures forall s :: s in o.all ==> Seen(s) == LogRuns.Offered(old(Seen(s)), |old(o.ring.stream)|, p, !old(o.Room(s, p)))
  {
    hide OutputBuffer.Valid, OutputBuffer.Room, Subscriber.Valid;
    Attached(o);
    o.WriteSome(p);
    Attached(o);
    forall s | s in o.all
      ensures Seen(s) == LogRuns.Offered(old(Seen(s)), |old(o.ring.stream)|, p, !old(o.Room(s, p)))
    {
      if s.id !in old(o.subs) {
        assert unchanged(s);
        assert !s.open;
      } else if old(o.Room(s, p)) {
        ChunksMore(old(s.ch), s.from + |s.received|, p);
        assert s.ch == old(s.ch) + [p];
        assert s.open && !s.lagged;
        assert old(s.open) && !old(s.lagged);
        assert s.from + |s.received| + |Flat(old(s.ch))| == |old(o.ring.stream)|;
      } else {
        assert s.ch == old(s.ch) + [] && old(s.ch) + [] == old(s.ch);
        assert s.lagged && !s.open;
      }
    }
  }

  // An attached reader is open and up to date; any other is not open.
  lemma Attached(o: OutputBuffer)
    requires o.Valid()
    ensures forall s :: s in o.all ==> s.open == (s.id in o.subs) && s.Valid()
    ensures forall s :: s in o.all && s.open ==> !s.lagged && s.from + |s.received| + |Flat(s.ch)| == |o.ring.stream|
    ensures forall i :: i in o.subs ==> o.subs[i] in o.all && o.subs[i].id == i
    ensures forall s, t :: s in o.all && t in o.all && s.id == t.id ==> s == t
  {
  }

  // Taking a chunk is the protocol's too.
  method Take(s: Subscriber) returns (chunk: Option<seq<Byte>>)
    requires s.Valid() && s.ch != []
    modifies s`ch, s`received
    ensures s.Valid() && chunk == Some(old(Seen(s)).queue[0].bytes)
    ensures Seen(s) == old(Seen(s)).(queue := old(Seen(s)).queue[1..])
  {
    chunk := s.Receive();
  }

  // So is closing the buffer.
  method Close(o: OutputBuffer)
    requires o.Valid()
    modifies o`closed, o`subs, o.all
    ensures o.Valid() && o.closed
    ensures forall s :: s in o.all ==> Seen(s) == old(Seen(s)).(open := false)
  {
    hide OutputBuffer.Valid, Chunks;
    o.Close();
  }

  // And letting one reader go.
  method Detach(o: OutputBuffer, s: Subscriber)
    requires o.Valid() && s in o.all
    modifies o`subs, s
    ensures o.Valid() && Seen(s) == old(Seen(s)).(open := false)
  {
    hide OutputBuffer.Valid, Chunks;
    o.Detach(s);
  }

  // A new reader is the protocol's, and so is the snapshot it comes with.
  method Attach(o: OutputBuffer, queueBytes: nat) returns (snap: seq<Byte>, s: Subscriber?)
    requires o.Valid() && !o.closed
    modifies o`subs, o`nextID, o`all
    ensures o.Valid() && s != null && fresh(s) && o.all == old(o.all) + {s}
    ensures Seen(s) == LogRuns.Reader(|o.ring.stream|, [], true, false) && snap == Last(o.ring.stream, o.ring.buf.Length)
  {
    snap, s := o.Attach(queueBytes);
    Attached(o);
  }

  // ---------------------------------------------------------------- the log writer

  // The writer is where the protocol has it, with the same log.
  ghost predicate Mirrors(l: LogSink, s: LogRuns.State)
    reads l
  {
    l.flushed == s.flushed && l.log == s.log
  }

  // One chunk drained is the protocol's step, whatever the disk took of it.
  method Drain(l: LogSink, disk: Disk, ghost s: LogRuns.State, chunk: LogRuns.Chunk) returns (ghost k: nat)
    requires l.Valid() && Mirrors(l, s) && chunk.bytes != []
    requires s.at.Draining? && s.at.sub < |s.readers| && s.readers[s.at.sub].queue != [] && s.readers[s.at.sub].queue[0] == chunk
    modifies l
    ensures l.Valid() && LogRuns.Enabled(s, LogRuns.Drain(k)) && Mirrors(l, LogRuns.Next(s, LogRuns.Drain(k)))
  {
    hide LogSink.Valid, Emitted;
    k := l.Drain(chunk.at, chunk.bytes, disk);
  }

  // So is catching up with a snapshot, which is empty only before anything is written.
  method CatchUp(l: LogSink, first: Disk, then_: Disk, ghost s: LogRuns.State, snap: seq<Byte>, at: nat)
    returns (ghost j: nat, ghost k: nat)
    requires l.Valid() && Mirrors(l, s) && |snap| <= at && (snap == [] ==> at == 0)
    requires s.at.Catching? && s.at.snap == snap && s.at.next < |s.readers| && s.readers[s.at.next].from == at
    modifies l
    ensures l.Valid() && LogRuns.Enabled(s, LogRuns.CatchUp(j, k)) && Mirrors(l, LogRuns.Next(s, LogRuns.CatchUp(j, k)))
  {
    hide LogSink.Valid, Emitted, Skipped, GapNote;
    j, k := l.CatchUp(snap, at, first, then_);
    ghost var start := at - |snap|;
    if l.flushed <= s.flushed {
      j, k := 0, 0;
    } else if start <= s.flushed {
      j := 0;
    }
  }
}
