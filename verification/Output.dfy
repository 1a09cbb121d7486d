/** A byte ring with bounded readers: each gets the stream from where it began, or is told that it has
    not kept up. */
module Output {
  import opened Vt
  import opened TermModes
  import ModeLaws

  // How many chunks may wait in a reader's channel.
  const CHUNKS: nat := 4096

  function Flat(chunks: seq<seq<Byte>>): seq<Byte> {
    if chunks == [] then [] else chunks[0] + Flat(chunks[1..])
  }

  lemma {:induction false} FlatMore(chunks: seq<seq<Byte>>, p: seq<Byte>)
    ensures Flat(chunks + [p]) == Flat(chunks) + p
  {
    if chunks == [] {
      assert chunks + [p] == [p] && [p][1..] == [];
      assert Flat([p]) == p + [];
    } else {
      assert (chunks + [p])[1..] == chunks[1..] + [p];
      FlatMore(chunks[1..], p);
    }
  }

  // ---------------------------------------------------------------- a reader

  class Subscriber {
    const id: nat
    const from: nat          // where in the stream it began
    const maxBytes: nat      // how far it may fall behind
    const preamble: seq<Byte>

    var ch: seq<seq<Byte>>   // what waits in its channel
    var open: bool           // whether the channel is
    var once: bool           // whether anyone has closed it
    var queued: nat
    var lagged: bool

    // Everything it was ever handed, and what its reader has taken of that.
    ghost var sent: seq<Byte>
    ghost var received: seq<Byte>

    ghost predicate Valid()
      reads this
    {
      && open == !once && (lagged ==> !open)
      && queued <= maxBytes && |ch| <= CHUNKS
      && sent == received + Flat(ch)
    }

    constructor (id: nat, from: nat, maxBytes: nat, preamble: seq<Byte>)
      ensures Valid() && this.id == id && this.from == from && this.maxBytes == maxBytes && this.preamble == preamble
      ensures open && !lagged && ch == [] && sent == [] && received == [] && queued == 0
    {
      this.id, this.from, this.maxBytes, this.preamble := id, from, maxBytes, preamble;
      ch, open, once, queued, lagged := [], true, false, 0, false;
      sent, received := [], [];
    }

    // Closing a channel twice is an error, which is what `once` is for.
    method CloseChannel()
      requires open
      modifies this`open
      ensures !open
    {
      open := false;
    }

    method CloseOnce()
      requires open == !once
      modifies this`open, this`once
      ensures once && !open
    {
      if !once {
        once := true;
        CloseChannel();
      }
    }

    // Sending on a closed channel is an error too.
    method TrySend(chunk: seq<Byte>) returns (ok: bool)
      requires open && |ch| <= CHUNKS
      modifies this`ch
      ensures ok == (|old(ch)| < CHUNKS) && ch == if ok then old(ch) + [chunk] else old(ch)
    {
      ok := |ch| < CHUNKS;
      if ok {
        ch := ch + [chunk];
      }
    }

    // Queues a chunk, or marks the reader lagged and ends its stream. Never waits.
    method Offer(p: seq<Byte>)
      requires Valid() && (lagged || open)
      modifies this
      ensures Valid() && received == old(received)
      ensures lagged == (old(lagged) || old(queued) + |p| > maxBytes || |old(ch)| == CHUNKS)
      ensures if lagged then !open && sent == old(sent) && ch == old(ch) && queued == old(queued)
              else open && sent == old(sent) + p && ch == old(ch) + [p] && queued == old(queued) + |p|
    {
      if lagged {
        return;
      }
      if queued + |p| > maxBytes {
        lagged := true;
        CloseOnce();
        return;
      }
      queued := queued + |p|;
      var ok := TrySend(p);
      if ok {
        FlatMore(old(ch), p);
        sent := sent + p;
      } else {
        lagged := true;
        queued := queued - |p|;
        CloseOnce();
      }
    }

    // The reader takes a chunk, if there is one.
    method Receive() returns (chunk: Option<seq<Byte>>)
      requires Valid()
      modifies this`ch, this`received
      ensures Valid() && chunk == if old(ch) == [] then None else Some(old(ch)[0])
      ensures ch == if old(ch) == [] then [] else old(ch)[1..]
      ensures received == old(received) + if chunk.Some? then chunk.value else []
    {
      if ch == [] {
        return None;
      }
      chunk := Some(ch[0]);
      received := received + ch[0];
      ch := ch[1..];
    }

    method Consumed(n: nat)
      requires Valid()
      modifies this`queued
      ensures Valid() && queued == Max(old(queued) - n, 0)
    {
      queued := if n > queued then 0 else queued - n;
    }
  }

  // ---------------------------------------------------------------- the ring

  // The last bytes of a stream, as many as a ring of this size keeps.
  function Last(s: seq<Byte>, cap: nat): (r: seq<Byte>)
    ensures |r| == Min(|s|, cap)
  {
    s[|s| - Min(|s|, cap)..]
  }

  // A place in a ring, counted round.
  function Round(a: nat, n: nat): (r: nat)
    requires a < 2 * n
    ensures r < n
  {
    if a >= n then a - n else a
  }

  // What a ring holds, oldest first.
  function RingOf(v: seq<Byte>, start: nat, size: nat): seq<Byte>
    requires start < |v| && size <= |v|
  {
    if start + size <= |v| then v[start..start + size] else v[start..] + v[..start + size - |v|]
  }

  lemma RingAt(v: seq<Byte>, start: nat, size: nat, i: nat)
    requires start < |v| && i < size <= |v|
    ensures |RingOf(v, start, size)| == size && RingOf(v, start, size)[i] == v[Round(start + i, |v|)]
  {
  }

  // p written at a place, going on at the front when it does not fit before the end.
  ghost predicate WrittenAt(v: seq<Byte>, v': seq<Byte>, end: nat, p: seq<Byte>) {
    && |v'| == |v| && end < |v| && |p| < |v|
    && forall i :: 0 <= i < |v| ==> v'[i] == Overwritten(v, end, p, i)
  }

  function Overwritten(v: seq<Byte>, end: nat, p: seq<Byte>, i: nat): Byte
    requires end < |v| && |p| < |v| && i < |v|
  {
    if end <= i < end + |p| then p[i - end] else if i < end + |p| - |v| then p[i + |v| - end] else v[i]
  }

  // The k-th byte after what is dropped is where the moved ring has its k-th.
  lemma MovedAt(v: seq<Byte>, start: nat, size: nat, p: seq<Byte>, k: nat)
    requires start < |v| && size <= |v| && |p| < |v|
    requires k < Min(size + |p|, |v|)
    ensures var over := Max(size + |p| - |v|, 0);
            Overwritten(v, Round(start + size, |v|), p, Round(Round(start + over, |v|) + k, |v|)) ==
            if over + k < size then v[Round(start + (over + k), |v|)] else p[over + k - size]
  {
  }

  // The ring after p has been written at its end.
  lemma RingMoves(v: seq<Byte>, v': seq<Byte>, start: nat, size: nat, p: seq<Byte>)
    requires start < |v| && size <= |v| && WrittenAt(v, v', Round(start + size, |v|), p)
    ensures var over := Max(size + |p| - |v|, 0);
            RingOf(v', Round(start + over, |v|), size + |p| - over) == (RingOf(v, start, size) + p)[over..]
  {
    hide Overwritten, Round, RingOf;
    var over := Max(size + |p| - |v|, 0);
    var first := Round(start + over, |v|);
    RingFull(v, start, size);
    RingFull(v', first, size + |p| - over);
    forall k | 0 <= k < size + |p| - over
      ensures RingOf(v', first, size + |p| - over)[k] == (RingOf(v, start, size) + p)[over..][k]
    {
      MovedAt(v, start, size, p, k);
      RingAt(v', first, size + |p| - over, k);
      if over + k < size {
        RingAt(v, start, size, over + k);
      }
    }
  }

  lemma RingFull(v: seq<Byte>, start: nat, size: nat)
    requires start < |v| && size <= |v|
    ensures |RingOf(v, start, size)| == size
  {
  }

  lemma LastGrows(s: seq<Byte>, p: seq<Byte>, cap: nat)
    ensures var all := Last(s, cap) + p;
            Last(s + p, cap) == all[Max(|all| - cap, 0)..]
  {
  }

  lemma OnlyTail(s: seq<Byte>, p: seq<Byte>, cap: nat, v: seq<Byte>)
    requires 0 < cap == |v| <= |p| && forall i :: 0 <= i < cap ==> v[i] == p[|p| - cap..][i]
    ensures RingOf(v, 0, cap) == Last(s + p, cap)
  {
    assert v == p[|p| - cap..];
  }

  lemma Appended(v: seq<Byte>, v': seq<Byte>, start: nat, size: nat, s: seq<Byte>, p: seq<Byte>)
    requires start < |v| && size <= |v| && WrittenAt(v, v', Round(start + size, |v|), p)
    requires RingOf(v, start, size) == Last(s, |v|)
    ensures |v'| == |v| && if size + |p| <= |v| then RingOf(v', start, size + |p|) == Last(s + p, |v|)
            else RingOf(v', Round(start + (size + |p| - |v|), |v|), |v|) == Last(s + p, |v|)
  {
    hide RingOf, Last;
    RingMoves(v, v', start, size, p);
    RingFull(v, start, size);
    LastGrows(s, p, |v|);
    if size + |p| <= |v| {
      assert (RingOf(v, start, size) + p)[0..] == RingOf(v, start, size) + p;
    }
  }

  class Ring {
    var buf: array<Byte>
    var start: nat
    var size: nat

    // All that was ever written.
    ghost var stream: seq<Byte>

    ghost predicate Valid()
      reads this, buf
    {
      && buf.Length > 0 && start < buf.Length && size <= buf.Length
      && RingOf(buf[..], start, size) == Last(stream, buf.Length)
    }

    constructor (capacity: nat)
      requires capacity > 0
      ensures Valid() && stream == [] && buf.Length == capacity && fresh(buf)
    {
      buf := new Byte[capacity](_ => 0);
      start, size, stream := 0, 0, [];
    }

    // Copies p to the front of the ring.
    method Copy(at: nat, p: seq<Byte>)
      requires at + |p| <= buf.Length
      modifies buf
      ensures forall i :: 0 <= i < buf.Length ==> buf[i] == if at <= i < at + |p| then p[i - at] else old(buf[i])
    {
      var k := 0;
      while k < |p|
        invariant 0 <= k <= |p|
        invariant forall i :: 0 <= i < buf.Length ==> buf[i] == if at <= i < at + k then p[i - at] else old(buf[i])
      {
        buf[at + k] := p[k];
        k := k + 1;
      }
    }

    // p at a place in the ring, going on at the front when it does not fit before the end.
    method CopyRound(end: nat, p: seq<Byte>)
      requires end < buf.Length && |p| < buf.Length
      modifies buf
      ensures WrittenAt(old(buf[..]), buf[..], end, p)
    {
      var n := Min(|p|, buf.Length - end);
      Copy(end, p[..n]);
      if n < |p| {
        Copy(0, p[n..]);
      }
    }

    // p after what is held, of which only as much stays as there is room for.
    method Append(p: seq<Byte>)
      requires Valid()
      modifies this, buf
      ensures Valid() && buf == old(buf) && stream == old(stream) + p
    {
      hide RingOf, Last, WrittenAt;
      var capacity := buf.Length;
      ghost var before := buf[..];
      if |p| >= capacity {
        Copy(0, p[|p| - capacity..]);
        OnlyTail(stream, p, capacity, buf[..]);
        start, size, stream := 0, capacity, stream + p;
        return;
      }
      RoundOnce(start + size, capacity);
      CopyRound((start + size) % capacity, p);
      Appended(before, buf[..], start, size, stream, p);
      stream := stream + p;
      if size + |p| <= capacity {
        size := size + |p|;
        return;
      }
      var overflow := size + |p| - capacity;
      RoundOnce(start + overflow, capacity);
      start := (start + overflow) % capacity;
      size := capacity;
    }

    // A copy of what is held, oldest byte first.
    method Snapshot() returns (out: seq<Byte>)
      requires Valid()
      ensures out == Last(stream, buf.Length) && |out| == size
    {
      if start + size <= buf.Length {
        out := buf[start..start + size];
      } else {
        out := buf[start..] + buf[..start + size - buf.Length];
      }
      assert out == RingOf(buf[..], start, size);
    }
  }

  // ---------------------------------------------------------------- the buffer and its readers

  // What a reader was handed is the stream from where it began, without a gap.
  ghost predicate Follows(s: Subscriber, stream: seq<Byte>)
    reads s
  {
    s.Valid() && s.from + |s.sent| <= |stream| && s.sent == stream[s.from..s.from + |s.sent|]
  }

  // And all of it.
  ghost predicate Current(s: Subscriber, stream: seq<Byte>)
    reads s
  {
    Follows(s, stream) && s.open && !s.lagged && s.from + |s.sent| == |stream|
  }

  lemma StillFollows(s: Subscriber, stream: seq<Byte>, p: seq<Byte>)
    requires Follows(s, stream)
    ensures Follows(s, stream + p)
  {
  }

  lemma FedNothing()
    ensures Fed(DEFAULTS, []) == DEFAULTS
  {
  }

  lemma Beginning(s: Subscriber, stream: seq<Byte>)
    requires s.Valid() && s.open && !s.lagged && s.sent == [] && s.from == |stream|
    ensures Current(s, stream)
  {
  }

  lemma IsFollowing(s: Subscriber, stream: seq<Byte>)
    requires Current(s, stream)
    ensures Follows(s, stream)
  {
  }

  class OutputBuffer {
    var ring: Ring
    var written: nat
    var subs: map<nat, Subscriber>
    var nextID: nat
    var closed: bool
    var modes: Tracker

    // Every reader there ever was.
    ghost var all: set<Subscriber>

    // Readers have numbers of their own, and the attached ones are found by them.
    ghost predicate Numbered()
      reads this`subs, this`nextID, this`all
    {
      && (forall s :: s in all ==> s.id < nextID)
      && (forall s, t :: s in all && t in all && s.id == t.id ==> s == t)
      && (forall i :: i in subs ==> subs[i] in all && subs[i].id == i)
    }

    ghost predicate Recorded()
      reads this`ring, this`written, this`modes, ring, ring.buf, modes
    {
      && ring.Valid() && written == |ring.stream|
      && (ModeLaws.ShortRuns(ring.stream) ==> modes.Value() == Fed(DEFAULTS, ring.stream))
    }

    // Every reader follows the stream; an attached one is up to date, and any other has been told
    // that its stream is over.
    ghost predicate Followed(stream: seq<Byte>)
      reads this`subs, this`all, all
    {
      && (forall s :: s in all ==> Follows(s, stream))
      && (forall s :: s in all && s.id in subs ==> Current(s, stream))
      && (forall s :: s in all && s.id !in subs ==> !s.open)
    }

    ghost predicate Valid()
      reads this, ring, ring.buf, modes, all
    {
      Numbered() && Recorded() && Followed(ring.stream) && (closed ==> subs == map[])
    }

    constructor (capacity: nat)
      requires capacity > 0
      ensures Valid() && fresh(ring) && fresh(ring.buf) && fresh(modes) && ring.stream == [] && all == {} && !closed
      ensures ring.buf.Length == capacity
    {
      hide ModeLaws.ShortRuns, Fed, Ring.Valid;
      ring := new Ring(capacity);
      modes := new Tracker();
      written, subs, nextID, closed, all := 0, map[], 0, false, {};
      new;
      FedNothing();
    }

    // Whether a reader has room for a chunk.
    ghost predicate Room(s: Subscriber, p: seq<Byte>)
      reads s
    {
      s.queued + |p| <= s.maxBytes && |s.ch| < CHUNKS
    }

    // Records output. Never waits for a reader: one that has no room is dropped and told so.
    method Write(p: seq<Byte>) returns (ok: bool)
      requires Valid()
      modifies this, ring, ring.buf, modes, all
      ensures Valid() && ok == !old(closed) && closed == old(closed)
      ensures ring == old(ring) && ring.buf == old(ring.buf) && modes == old(modes) && all == old(all) && nextID == old(nextID)
      ensures ring.stream == old(ring.stream) + (if ok then p else [])
      ensures forall i :: i in subs <==> i in old(subs) && (p == [] || old(Room(subs[i], p)))
      ensures forall i :: i in subs ==> subs[i] == old(subs)[i]
      ensures forall s :: s in all ==> s.received == old(s.received)
    {
      if closed {
        return false;
      }
      ok := true;
      if p == [] {
        Nothing();
        return;
      }
      hide *;
      WriteSome(p);
    }

    lemma Nothing()
      requires Valid()
      ensures ring.stream + [] == ring.stream
    {
    }

    method WriteSome(p: seq<Byte>)
      requires Valid() && !closed && p != []
      modifies this, ring, ring.buf, modes, all
      ensures Valid() && !closed
      ensures ring == old(ring) && ring.buf == old(ring.buf) && modes == old(modes) && all == old(all) && nextID == old(nextID)
      ensures ring.stream == old(ring.stream) + p
      ensures forall i :: i in subs <==> i in old(subs) && old(Room(subs[i], p))
      ensures forall i :: i in subs ==> subs[i] == old(subs)[i]
      ensures forall s :: s in all ==> s.received == old(s.received)
      ensures forall s :: s in all && s.id in old(subs) ==> s.lagged == !old(Room(s, p)) && s.ch == old(s.ch) + if s.lagged then [] else [p]
      ensures forall s :: s in all && s.id !in old(subs) ==> unchanged(s)
    {
      hide Room, Recorded, Followed, Numbered;
      Record(p);
      Deliver(p, old(ring.stream));
    }

    // Hands a chunk on, and lets go of those that have no room.
    method Deliver(p: seq<Byte>, ghost was: seq<Byte>)
      requires Numbered() && Followed(was)
      modifies this`subs, all
      ensures Numbered() && Followed(was + p)
      ensures forall i :: i in subs <==> i in old(subs) && old(Room(subs[i], p))
      ensures forall i :: i in subs ==> subs[i] == old(subs)[i]
      ensures forall s :: s in all ==> s.received == old(s.received)
      ensures forall s :: s in all && s.id in old(subs) ==> s.lagged == !old(Room(s, p)) && s.ch == old(s.ch) + if s.lagged then [] else [p]
      ensures forall s :: s in all && s.id !in old(subs) ==> unchanged(s)
    {
      hide Follows, Current, Room, Subscriber.Valid;
      Fan(p, was);
      Prune();
    }

    method Record(p: seq<Byte>)
      requires Recorded()
      modifies this`written, ring, ring.buf, modes
      ensures Recorded() && ring.buf == old(ring.buf) && ring.stream == old(ring.stream) + p
    {
      hide ModeLaws.ShortRuns, Fed;
      ring.Append(p);
      written := written + |p|;
      modes.Feed(p);
      if ModeLaws.ShortRuns(ring.stream) {
        ModeLaws.ShortPrefix(old(ring.stream), p);
        assert DEFAULTS.carry + old(ring.stream) + p == ring.stream;
        ModeLaws.ChunksIgnored(DEFAULTS, old(ring.stream), p);
      }
    }

    // Hands a chunk to one reader.
    method Hand(s: Subscriber, p: seq<Byte>, ghost was: seq<Byte>)
      requires Current(s, was)
      modifies s
      ensures s.lagged == !old(Room(s, p)) && Follows(s, was + p) && s.received == old(s.received)
      ensures s.ch == old(s.ch) + if s.lagged then [] else [p]
      ensures if s.lagged then !s.open else Current(s, was + p)
    {
      StillFollows(s, was, p);
      s.Offer(p);
    }

    // Hands a chunk to every attached reader.
    method Fan(p: seq<Byte>, ghost was: seq<Byte>)
      requires Numbered() && Followed(was)
      modifies all
      ensures forall s :: s in all ==> Follows(s, was + p) && s.received == old(s.received)
      ensures forall s :: s in all && s.id in subs ==> s.lagged == !old(Room(s, p)) && (s.lagged || Current(s, was + p))
      ensures forall s :: s in all && (s.id !in subs || s.lagged) ==> !s.open
      ensures forall s :: s in all && s.id in subs ==> s.ch == old(s.ch) + if s.lagged then [] else [p]
      ensures forall s :: s in all && s.id !in subs ==> unchanged(s)
    {
      hide Follows, Current, Room, Subscriber.Valid;
      var todo := subs.Keys;
      while todo != {}
        invariant todo <= subs.Keys
        invariant forall s :: s in all && (s.id !in subs || s.id in todo) ==> unchanged(s)
        invariant forall s :: s in all && s.id in subs && s.id !in todo ==>
          && s.lagged == !old(Room(s, p)) && Follows(s, was + p) && s.received == old(s.received)
          && s.ch == old(s.ch) + (if s.lagged then [] else [p])
          && (if s.lagged then !s.open else Current(s, was + p))
        decreases |todo|
      {
        var i :| i in todo;
        Hand(subs[i], p, was);
        todo := todo - {i};
      }
      forall s | s in all
        ensures Follows(s, was + p)
      {
        if s.id !in subs {
          assert Follows(s, was);
          StillFollows(s, was, p);
        }
      }
    }

    // Forgets the readers that have lagged. Their streams are over already.
    method Prune()
      requires Numbered()
      modifies this`subs
      ensures Numbered()
      ensures forall i :: i in subs <==> i in old(subs) && !old(subs)[i].lagged
      ensures forall i :: i in subs ==> subs[i] == old(subs)[i]
    {
      subs := map i | i in subs && !subs[i].lagged :: subs[i];
    }

    // What is held now, and a reader whose first byte is the next one written.
    method Attach(queueBytes: nat) returns (snap: seq<Byte>, s: Subscriber?)
      requires Valid()
      modifies this`subs, this`nextID, this`all
      ensures Valid() && (s == null <==> closed)
      ensures s == null ==> subs == old(subs) && all == old(all)
      ensures s != null ==>
        && fresh(s) && subs == old(subs)[s.id := s] && all == old(all) + {s} && s.id !in old(subs)
        && snap == Last(ring.stream, ring.buf.Length) && s.from == |ring.stream| && s.maxBytes == queueBytes
        && s.preamble == Preamble(modes.Value()) && s.open && Kept(s, [], [], [], false)
    {
      hide Follows, Current, Ring.Valid, ModeLaws.ShortRuns, Fed, Preamble, Last, Subscriber.Valid, Followed, Numbered;
      if closed {
        return [], null;
      }
      snap := ring.Snapshot();
      var id := nextID;
      s := new Subscriber(id, written, queueBytes, Preamble(Modes(modes.on, modes.keypad, modes.carry)));
      Beginning(s, ring.stream);
      Add(s);
    }

    method Add(s: Subscriber)
      requires Numbered() && Followed(ring.stream) && s !in all && s.id == nextID && Current(s, ring.stream)
      modifies this`subs, this`nextID, this`all
      ensures Numbered() && Followed(ring.stream)
      ensures subs == old(subs)[s.id := s] && all == old(all) + {s} && s.id !in old(subs)
    {
      hide Follows, Current, Subscriber.Valid;
      IsFollowing(s, ring.stream);
      subs := subs[nextID := s];
      all := all + {s};
      nextID := nextID + 1;
    }

    // What a reader was handed and took is as it was, and so is whether it lagged.
    ghost predicate Kept(s: Subscriber, sent: seq<Byte>, ch: seq<seq<Byte>>, received: seq<Byte>, lagged: bool)
      reads s
    {
      s.sent == sent && s.ch == ch && s.received == received && s.lagged == lagged
    }

    // Removes a reader, however it was attached.
    method Detach(s: Subscriber)
      requires Valid() && s in all
      modifies this`subs, s
      ensures Valid() && !s.open && subs == old(subs) - {s.id} && Kept(s, old(s.sent), old(s.ch), old(s.received), old(s.lagged))
    {
      hide Ring.Valid, Recorded, Follows, Subscriber.Valid;
      if s.id !in subs {
        return;
      }
      End(s, ring.stream);
      subs := subs - {s.id};
    }

    // Ends every reader's stream. Nothing is written or attached afterwards.
    method Close()
      requires Valid()
      modifies this`closed, this`subs, all
      ensures Valid() && closed && subs == map[]
      ensures forall s :: s in all ==> !s.open && Kept(s, old(s.sent), old(s.ch), old(s.received), old(s.lagged))
    {
      hide Follows, Ring.Valid, Fed, ModeLaws.ShortRuns, Subscriber.Valid;
      if closed {
        return;
      }
      EndAll(ring.stream);
      closed, subs := true, map[];
    }

    method EndAll(ghost stream: seq<Byte>)
      requires Numbered() && Followed(stream)
      modifies all
      ensures forall s :: s in all ==> Follows(s, stream) && !s.open
      ensures forall s :: s in all ==> Kept(s, old(s.sent), old(s.ch), old(s.received), old(s.lagged))
    {
      hide Follows, Subscriber.Valid;
      var todo := subs.Keys;
      while todo != {}
        invariant todo <= subs.Keys
        invariant forall s :: s in all ==> Follows(s, stream) && Kept(s, old(s.sent), old(s.ch), old(s.received), old(s.lagged))
        invariant forall s :: s in all ==> s.open == (s.id in todo)
        decreases |todo|
      {
        var i :| i in todo;
        End(subs[i], stream);
        todo := todo - {i};
      }
    }

    method End(s: Subscriber, ghost stream: seq<Byte>)
      requires Follows(s, stream)
      modifies s
      ensures Follows(s, stream) && !s.open && Kept(s, old(s.sent), old(s.ch), old(s.received), old(s.lagged))
    {
      s.CloseOnce();
    }
  }
}
