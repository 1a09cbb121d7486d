/** The disk log as a protocol: the buffer writes, its readers lag, and the log writer drains, falls
    behind, attaches again, is closed and is moved, in any order. */
module LogRuns {
  import opened Vt
  import opened Ledger
  import Output

  // A chunk in a reader's channel, and where in the stream it is from.
  datatype Chunk = Chunk(at: nat, bytes: seq<Byte>)

  datatype Reader = Reader(from: nat, queue: seq<Chunk>, open: bool, lagged: bool)

  // Where the writer is: at the top of its loop, draining a reader, past the end of its stream,
  // about to attach again, attached but not yet registered, told to close meanwhile, about to catch
  // up with a snapshot, or finished.
  datatype At =
    | Top
    | Draining(sub: nat)
    | Ended(sub: nat)
    | Attaching
    | HasNext(next: nat, snap: seq<Byte>)
    | MustDetach(next: nat)
    | Catching(next: nat, snap: seq<Byte>)
    | Finished

  datatype State = State(
    stream: seq<Byte>, cap: nat, closed: bool,
    readers: seq<Reader>,
    registered: nat,                  // the reader that closing the writer detaches
    closing: bool, detaching: Option<nat>,
    at: At, flushed: nat, log: seq<Entry>,
    given: nat, dropped: nat,         // bytes given to the file, and bytes said to be missing
    interrupted: bool,                // whether the writer was closed between attaching again and registering
    cutOff: bool)                     // whether that left chunks waiting in the new reader, and a snapshot unwritten

  datatype Step =
    | Write(bytes: seq<Byte>, lag: set<nat>)   // the readers in lag have no room
    | CloseBuffer
    | Begin                                    // the writer reads which reader is registered
    | Drain(k: nat)                            // writes one chunk, of which the disk takes k bytes
    | End
    | Judge
    | Attach
    | Register
    | Detach
    | CatchUp(j: nat, k: nat)                  // the disk takes j bytes of a note and k of the snapshot
    | Close                                    // someone closes the writer
    | CloseDetach
    | Move(note: seq<Byte>, j: nat)            // a new writer carries on in the renamed files

  // ---------------------------------------------------------------- what each step does

  function Offered(r: Reader, at: nat, bytes: seq<Byte>, lag: bool): Reader {
    if !r.open || r.lagged then r
    else if lag then r.(open := false, lagged := true)
    else r.(queue := r.queue + [Chunk(at, bytes)])
  }

  function AllOffered(rs: seq<Reader>, at: nat, bytes: seq<Byte>, lag: set<nat>): seq<Reader> {
    seq(|rs|, i requires 0 <= i < |rs| => Offered(rs[i], at, bytes, i in lag))
  }

  function AllClosed(rs: seq<Reader>): seq<Reader> {
    seq(|rs|, i requires 0 <= i < |rs| => rs[i].(open := false))
  }

  function Fresh(s: State): Reader { Reader(|s.stream|, [], true, false) }

  predicate Enabled(s: State, step: Step) {
    match step
    case Write(bytes, _) => !s.closed && bytes != []
    case CloseBuffer => !s.closed
    case Begin => s.at.Top? && s.registered < |s.readers|
    case Drain(k) => s.at.Draining? && s.at.sub < |s.readers| && s.readers[s.at.sub].queue != []
      && k <= |s.readers[s.at.sub].queue[0].bytes|
    case End => s.at.Draining? && s.at.sub < |s.readers| && s.readers[s.at.sub].queue == [] && !s.readers[s.at.sub].open
    case Judge => s.at.Ended? && s.at.sub < |s.readers|
    case Attach => s.at.Attaching?
    case Register => s.at.HasNext?
    case Detach => s.at.MustDetach? && s.at.next < |s.readers|
    case CatchUp(j, k) => s.at.Catching? && s.at.next < |s.readers| && j <= |GapNote(Gone(s))| && k <= |Due(s)|
    case Close => !s.closing
    case CloseDetach => s.detaching.Some? && s.detaching.value < |s.readers|
    case Move(note, j) => s.at.Finished? && s.closing && s.detaching.None? && !s.closed && j <= |note|
  }

  // Where a fresh snapshot ends in the stream, and where it begins.
  function End_(s: State): nat
    requires s.at.Catching? && s.at.next < |s.readers|
  {
    s.readers[s.at.next].from
  }

  function Begin_(s: State): nat
    requires s.at.Catching? && s.at.next < |s.readers|
  {
    Max(End_(s) - |s.at.snap|, 0)
  }

  // The part of it that the files have not got.
  function Due(s: State): seq<Byte>
    requires s.at.Catching? && s.at.next < |s.readers|
  {
    if s.flushed >= End_(s) then []
    else if s.flushed >= Begin_(s) then s.at.snap[Min(s.flushed - Begin_(s), |s.at.snap|)..]
    else s.at.snap
  }

  // How much was gone before it began.
  function Gone(s: State): nat
    requires s.at.Catching? && s.at.next < |s.readers|
  {
    if s.flushed < Begin_(s) <= End_(s) then Begin_(s) - s.flushed else 0
  }

  // The log after catching up: a gap of exactly what is gone, and what is due.
  function CaughtUp(s: State, j: nat, k: nat): seq<Entry>
    requires s.at.Catching? && s.at.next < |s.readers| && j <= |GapNote(Gone(s))| && k <= |Due(s)|
  {
    if s.flushed >= End_(s) then s.log
    else if Gone(s) == 0 then Emitted(s.log, s.flushed, Due(s), k)
    else Emitted(Skipped(s.log, s.flushed, Gone(s), j), Begin_(s), Due(s), k)
  }

  function Next(s: State, step: Step): State
    requires Enabled(s, step)
  {
    match step
    case Write(bytes, lag) => s.(stream := s.stream + bytes, readers := AllOffered(s.readers, |s.stream|, bytes, lag))
    case CloseBuffer => s.(closed := true, readers := AllClosed(s.readers))
    case Begin => s.(at := Draining(s.registered))
    case Drain(k) =>
      var r := s.readers[s.at.sub];
      s.(readers := s.readers[s.at.sub := r.(queue := r.queue[1..])],
         log := Emitted(s.log, r.queue[0].at, r.queue[0].bytes, k),
         given := s.given + |r.queue[0].bytes|, dropped := s.dropped + (|r.queue[0].bytes| - k),
         flushed := s.flushed + |r.queue[0].bytes|)
    case End => s.(at := Ended(s.at.sub))
    case Judge => s.(at := if s.closing || !s.readers[s.at.sub].lagged then Finished else Attaching)
    case Attach =>
      if s.closed then s.(at := Finished)
      else s.(readers := s.readers + [Fresh(s)], at := HasNext(|s.readers|, Output.Last(s.stream, s.cap)))
    case Register => s.(registered := s.at.next, interrupted := s.interrupted
      || s.closing, at := if s.closing then MustDetach(s.at.next) else Catching(s.at.next, s.at.snap))
    case Detach => s.(cutOff := s.cutOff || (s.readers[s.at.next].queue != [] && s.flushed < s.readers[s.at.next].from),
                      readers := s.readers[s.at.next := s.readers[s.at.next].(open := false)], at := Top)
    case CatchUp(j, k) =>
      var note := if Gone(s) > 0 then |GapNote(Gone(s))| else 0;
      s.(log := CaughtUp(s, j, k), flushed := End_(s), at := Top,
         given := s.given + note + |Due(s)|,
         dropped := s.dropped + Gone(s) + (if Gone(s) > 0 then note - j else 0) + (|Due(s)| - k))
    case Close => s.(closing := true, detaching := Some(s.registered))
    case CloseDetach => s.(detaching := None,
      readers := s.readers[s.detaching.value := s.readers[s.detaching.value].(open := false)])
    case Move(note, j) =>
      s.(closing := false, readers := s.readers + [Fresh(s)], registered := |s.readers|, log := Noted(s.log, note, j),
         given := s.given + |note|, dropped := s.dropped + (|note| - j),
         at := Catching(|s.readers|, Output.Last(s.stream, s.cap)))
  }

  // A writer opened on a buffer that has this much behind it: it begins with a line of its own, and
  // has the ring's contents to write.
  function Opened(stream: seq<Byte>, cap: nat, header: seq<Byte>, j: nat): State
    requires j <= |header|
  {
    var snap := Output.Last(stream, cap);
    State(stream, cap, false, [Reader(|stream|, [], true, false)], 0, false, None,
          Catching(0, snap), |stream| - |snap|, Noted([], header, j), |header|, |header| - j, false, false)
  }

  ghost predicate Runs(s: State, steps: seq<Step>)
    decreases |steps|
  {
    steps == [] || (Enabled(s, steps[0]) && Runs(Next(s, steps[0]), steps[1..]))
  }

  function After(s: State, steps: seq<Step>): State
    requires Runs(s, steps)
    decreases |steps|
  {
    if steps == [] then s else After(Next(s, steps[0]), steps[1..])
  }

  // ---------------------------------------------------------------- what is always true

  // The chunks that wait are the stream from an offset on, without a gap.
  ghost predicate Waiting(q: seq<Chunk>, from: nat, stream: seq<Byte>)
    decreases |q|
  {
    q != [] ==>
      && q[0].at == from && from + |q[0].bytes| <= |stream| && q[0].bytes == stream[from..from + |q[0].bytes|]
      && Waiting(q[1..], from + |q[0].bytes|, stream)
  }

  function EndOf(q: seq<Chunk>, from: nat): nat {
    if q == [] then from else EndOf(q[1..], from + |q[0].bytes|)
  }

  // A reader whose next byte is at an offset: it has everything from there on, as long as it is
  // attached and has not lagged.
  ghost predicate Sound(r: Reader, from: nat, stream: seq<Byte>) {
    && Waiting(r.queue, from, stream) && EndOf(r.queue, from) <= |stream|
    && (r.open ==> !r.lagged && EndOf(r.queue, from) == |stream|)
  }

  // A reader that nobody has taken anything from.
  ghost predicate Untouched(s: State, i: nat, snap: seq<Byte>) {
    && i < |s.readers| && Sound(s.readers[i], s.readers[i].from, s.stream)
    && s.readers[i].from <= |s.stream| && |snap| <= s.readers[i].from
    && snap == s.stream[s.readers[i].from - |snap|..s.readers[i].from]
    && s.flushed <= s.readers[i].from
  }

  // A reader whose chunks are about to be written without what comes before them.
  ghost predicate Doomed(s: State, i: nat) {
    i < |s.readers| && !s.readers[i].open && s.readers[i].queue != [] && s.readers[i].queue[0].at > s.flushed
  }

  // The writer is where it should be: the reader to be drained has what comes next, and a snapshot
  // to be written ends where its reader begins.
  ghost predicate Placed(s: State) {
    match s.at
    case Top => s.registered < |s.readers| && Sound(s.readers[s.registered], s.flushed, s.stream)
    case Draining(i) => i < |s.readers| && Sound(s.readers[i], s.flushed, s.stream)
    case Ended(i) => i < |s.readers|
    case Attaching => true
    case HasNext(i, snap) => Untouched(s, i, snap)
    case MustDetach(i) => s.interrupted && s.registered == i && Untouched(s, i, [])
    case Catching(i, snap) => s.registered == i && Untouched(s, i, snap)
    case Finished => true
  }

  // What the log has of the stream ends where the writer says it is.
  ghost predicate Accounted(s: State, start: nat) {
    Position(s.log, start) == Some(s.flushed) && True(s.log, s.stream)
  }

  // A writer that was cut off has written what it should not have, or has nothing else to do.
  ghost predicate Astray(s: State, start: nat) {
    || Position(s.log, start) == None
    || (&& Position(s.log, start) == Some(s.flushed)
        && ((s.at.Top? && Doomed(s, s.registered)) || (s.at.Draining? && Doomed(s, s.at.sub))))
  }

  ghost predicate Sane(s: State, start: nat) { Accounted(s, start) && s.flushed <= |s.stream| && Placed(s) }

  // Readers that are named exist.
  ghost predicate Known(s: State) {
    && s.registered < |s.readers| && (s.detaching.Some? ==> s.detaching.value < |s.readers|)
    && (s.cutOff ==> s.interrupted)
    && (s.at.HasNext? || s.at.MustDetach? || s.at.Catching? ==> s.at.next < |s.readers|)
  }

  // What was given to the file was written or is missing, with what was gone before it could be
  // given; and every gap has a line that says how long it is.
  ghost predicate Tallied(s: State) {
    s.given + Gaps(s.log) == |Text(s.log)| + s.dropped && s.dropped == Missing(s.log) && GapsSaid(s.log)
  }

  ghost predicate Invariant(s: State, start: nat) {
    Known(s) && Tallied(s) && if s.cutOff then Astray(s, start) else Sane(s, start)
  }

  // ---------------------------------------------------------------- readers

  lemma {:induction false} WaitingMore(q: seq<Chunk>, from: nat, stream: seq<Byte>, p: seq<Byte>)
    requires Waiting(q, from, stream)
    ensures Waiting(q, from, stream + p)
    decreases |q|
  {
    if q != [] {
      assert (stream + p)[from..from + |q[0].bytes|] == stream[from..from + |q[0].bytes|];
      WaitingMore(q[1..], from + |q[0].bytes|, stream, p);
    }
  }

  lemma {:induction false} WaitingOne(q: seq<Chunk>, from: nat, stream: seq<Byte>, p: seq<Byte>)
    requires Waiting(q, from, stream) && EndOf(q, from) == |stream|
    ensures Waiting(q + [Chunk(|stream|, p)], from, stream + p)
    ensures EndOf(q + [Chunk(|stream|, p)], from) == |stream + p|
    decreases |q|
  {
    var c := Chunk(|stream|, p);
    if q == [] {
      assert q + [c] == [c] && [c][1..] == [];
      assert (stream + p)[|stream|..|stream| + |p|] == p;
    } else {
      assert (stream + p)[from..from + |q[0].bytes|] == stream[from..from + |q[0].bytes|];
      assert (q + [c])[1..] == q[1..] + [c];
      WaitingOne(q[1..], from + |q[0].bytes|, stream, p);
    }
  }

  lemma OfferedSound(r: Reader, from: nat, stream: seq<Byte>, p: seq<Byte>, lag: bool)
    requires Sound(r, from, stream)
    ensures Sound(Offered(r, |stream|, p, lag), from, stream + p)
  {
    hide Waiting, EndOf;
    WaitingMore(r.queue, from, stream, p);
    if r.open && !lag {
      WaitingOne(r.queue, from, stream, p);
    }
  }

  // Taking the first chunk moves a reader on by it.
  lemma TakenSound(r: Reader, from: nat, stream: seq<Byte>)
    requires Sound(r, from, stream) && r.queue != []
    ensures r.queue[0].at == from && from + |r.queue[0].bytes| <= |stream|
    ensures r.queue[0].bytes == stream[from..from + |r.queue[0].bytes|]
    ensures Sound(r.(queue := r.queue[1..]), from + |r.queue[0].bytes|, stream)
  {
  }

  // A new reader has everything after its snapshot still to come.
  lemma FreshUntouched(s: State, s': State)
    requires s'.stream == s.stream && s'.readers == s.readers + [Fresh(s)] && s'.flushed <= |s.stream|
    ensures Untouched(s', |s.readers|, Output.Last(s.stream, s.cap))
  {
    assert s'.readers[|s.readers|] == Fresh(s);
  }

  // ---------------------------------------------------------------- every step keeps it

  lemma UntouchedGrows(s: State, i: nat, snap: seq<Byte>, bytes: seq<Byte>, lag: set<nat>)
    requires Untouched(s, i, snap)
    ensures Untouched(s.(stream := s.stream + bytes, readers := AllOffered(s.readers, |s.stream|, bytes, lag)), i, snap)
  {
    OfferedSound(s.readers[i], s.readers[i].from, s.stream, bytes, i in lag);
    hide Sound;
    var from := s.readers[i].from;
    assert (s.stream + bytes)[from - |snap|..from] == s.stream[from - |snap|..from];
  }

  lemma WriteKeeps(s: State, bytes: seq<Byte>, lag: set<nat>, start: nat)
    requires Invariant(s, start) && Enabled(s, Write(bytes, lag))
    ensures Invariant(Next(s, Write(bytes, lag)), start)
  {
    hide Sound, Untouched, Position, True, Tallied;
    TalliedStays(s, Next(s, Write(bytes, lag)));
    if !s.cutOff {
      TrueGrows(s.log, s.stream, bytes);
      match s.at {
        case Top => OfferedSound(s.readers[s.registered], s.flushed, s.stream, bytes, s.registered in lag);
        case Draining(i) => OfferedSound(s.readers[i], s.flushed, s.stream, bytes, i in lag);
        case HasNext(i, snap) => UntouchedGrows(s, i, snap, bytes, lag);
        case MustDetach(i) => UntouchedGrows(s, i, [], bytes, lag);
        case Catching(i, snap) => UntouchedGrows(s, i, snap, bytes, lag);
        case _ =>
      }
    }
  }

  lemma TalliedStays(s: State, s': State)
    requires Tallied(s) && s'.log == s.log && s'.given == s.given && s'.dropped == s.dropped
    ensures Tallied(s')
  {
  }

  // Readers that are the same but for some being closed.
  ghost predicate Closings(rs: seq<Reader>, rs': seq<Reader>) {
    |rs'| == |rs| && forall i :: 0 <= i < |rs| ==> rs'[i] == rs[i] || rs'[i] == rs[i].(open := false)
  }

  lemma ClosingKeeps(s: State, s': State, start: nat)
    requires Invariant(s, start) && Closings(s.readers, s'.readers)
    requires s' == s.(readers := s'.readers, closed := s'.closed, detaching := None)
    ensures Invariant(s', start)
  {
    hide Waiting, Position, True, EndOf, Tallied;
    TalliedStays(s, s');
  }

  lemma DrainedIs(s: State, k: nat)
    requires Enabled(s, Drain(k))
    ensures var s' := Next(s, Drain(k)); var r := s.readers[s.at.sub]; var n := |r.queue[0].bytes|;
            && s'.stream == s.stream && s'.at == s.at && s'.registered == s.registered && s'.detaching == s.detaching
            && |s'.readers| == |s.readers| && s'.readers[s.at.sub] == r.(queue := r.queue[1..])
            && s'.log == Emitted(s.log, r.queue[0].at, r.queue[0].bytes, k) && s'.flushed == s.flushed + n
            && s'.given == s.given + n && s'.dropped == s.dropped + (n - k)
            && s'.interrupted == s.interrupted && s'.cutOff == s.cutOff
  {
  }

  lemma DrainKeeps(s: State, k: nat, start: nat)
    requires Invariant(s, start) && Enabled(s, Drain(k))
    ensures Invariant(Next(s, Drain(k)), start)
  {
    hide Position, True, Emitted, Sound, Next, Text, Missing, Gaps, GapsSaid;
    DrainedIs(s, k);
    var c := s.readers[s.at.sub].queue[0];
    EmittedMoves(s.log, c.at, c.bytes, k, start);
    EmittedSaid(s.log, c.at, c.bytes, k);
    if !s.cutOff {
      TakenSound(s.readers[s.at.sub], s.flushed, s.stream);
      EmittedTrue(s.log, c.at, c.bytes, k, s.stream);
    }
  }

  lemma CaughtUpLog(s: State, j: nat, k: nat, start: nat)
    requires Enabled(s, CatchUp(j, k)) && Tallied(s)
    ensures Tallied(Next(s, CatchUp(j, k)))
    ensures Position(s.log, start) == None ==> Position(CaughtUp(s, j, k), start) == None
  {
    hide Position, Emitted, Skipped, Text, Missing, Gaps, GapsSaid, GapNote, Due, Gone, Begin_;
    if s.flushed < End_(s) {
      if Gone(s) == 0 {
        EmittedMoves(s.log, s.flushed, Due(s), k, start);
        EmittedSaid(s.log, s.flushed, Due(s), k);
      } else {
        var log1 := Skipped(s.log, s.flushed, Gone(s), j);
        SkippedMoves(s.log, s.flushed, Gone(s), j, start);
        SkippedSaid(s.log, s.flushed, Gone(s), j);
        EmittedMoves(log1, Begin_(s), Due(s), k, start);
        EmittedSaid(log1, Begin_(s), Due(s), k);
      }
    } else {
      NothingDue(s);
    }
  }

  lemma NothingDue(s: State)
    requires s.at.Catching? && s.at.next < |s.readers| && s.flushed >= End_(s)
    ensures Due(s) == [] && Gone(s) == 0
  {
  }

  lemma CaughtUpAccounts(s: State, j: nat, k: nat, start: nat)
    requires Enabled(s, CatchUp(j, k)) && Untouched(s, s.at.next, s.at.snap) && Accounted(s, start)
    ensures Position(CaughtUp(s, j, k), start) == Some(End_(s)) && True(CaughtUp(s, j, k), s.stream)
  {
    hide Position, Emitted, Skipped, True, Sound, GapNote, Text, Missing, Gaps, Due, Gone, Begin_, Untouched;
    DueIs(s);
    if Gone(s) > 0 {
      SkippedMoves(s.log, s.flushed, Gone(s), j, start);
      SkippedTrue(s.log, s.flushed, Gone(s), j, s.stream);
      EmittedFrom(Skipped(s.log, s.flushed, Gone(s), j), Begin_(s), Due(s), k, start, s.stream);
    } else if s.flushed < End_(s) {
      EmittedFrom(s.log, s.flushed, Due(s), k, start, s.stream);
    }
  }

  // What is due follows what the files have, or what is gone, up to where the snapshot ends.
  lemma DueIs(s: State)
    requires s.at.Catching? && Untouched(s, s.at.next, s.at.snap)
    ensures var from := s.flushed + Gone(s);
            && from + |Due(s)| == End_(s) <= |s.stream| && Due(s) == s.stream[from..End_(s)]
            && (Gone(s) > 0 ==> from == Begin_(s) && s.flushed < End_(s)) && (s.flushed >= End_(s) ==> s.flushed == End_(s))
  {
    hide Sound;
  }

  lemma EmittedFrom(log: seq<Entry>, at: nat, p: seq<Byte>, k: nat, start: nat, stream: seq<Byte>)
    requires Position(log, start) == Some(at) && True(log, stream) && k <= |p|
    requires at + |p| <= |stream| && p == stream[at..at + |p|]
    ensures Position(Emitted(log, at, p, k), start) == Some(at + |p|) && True(Emitted(log, at, p, k), stream)
  {
    EmittedMoves(log, at, p, k, start);
    EmittedTrue(log, at, p, k, stream);
  }

  lemma CatchUpKeeps(s: State, j: nat, k: nat, start: nat)
    requires Invariant(s, start) && Enabled(s, CatchUp(j, k))
    ensures Invariant(Next(s, CatchUp(j, k)), start)
  {
    hide Position, CaughtUp, True, Sound, Due, Gone, Tallied, GapNote, Begin_;
    CaughtUpLog(s, j, k, start);
    if !s.cutOff {
      CaughtUpAccounts(s, j, k, start);
    }
  }

  lemma MovedIs(s: State, note: seq<Byte>, j: nat)
    requires Enabled(s, Move(note, j))
    ensures var s' := Next(s, Move(note, j));
            && s'.stream == s.stream && s'.readers == s.readers + [Fresh(s)] && s'.registered == |s.readers|
            && s'.detaching == s.detaching && s'.flushed == s.flushed && s'.interrupted == s.interrupted
              && s'.cutOff == s.cutOff
            && s'.log == Noted(s.log, note, j) && s'.at == Catching(|s.readers|, Output.Last(s.stream, s.cap))
            && s'.given == s.given + |note| && s'.dropped == s.dropped + (|note| - j)
  {
  }

  lemma MoveKeeps(s: State, note: seq<Byte>, j: nat, start: nat)
    requires Invariant(s, start) && Enabled(s, Move(note, j))
    ensures Invariant(Next(s, Move(note, j)), start)
  {
    hide Position, Noted, True, Untouched, Output.Last, Next, Text, Missing, Gaps, GapsSaid;
    NotedStays(s.log, note, j, start);
    NotedSaid(s.log, note, j);
    MovedIs(s, note, j);
    if !s.cutOff {
      NotedTrue(s.log, note, j, s.stream);
      FreshUntouched(s, Next(s, Move(note, j)));
    }
  }

  lemma AttachKeeps(s: State, start: nat)
    requires Invariant(s, start) && Enabled(s, Step.Attach)
    ensures Invariant(Next(s, Step.Attach), start)
  {
    hide Position, True, Untouched, Tallied;
    TalliedStays(s, Next(s, Step.Attach));
    if !s.cutOff && !s.closed {
      FreshUntouched(s, Next(s, Step.Attach));
    }
  }

  // The branch that matters: a reader with chunks in it and a snapshot before them is let go of.
  lemma DetachKeeps(s: State, start: nat)
    requires Invariant(s, start) && Enabled(s, Step.Detach)
    ensures Invariant(Next(s, Step.Detach), start)
  {
    hide Position, True, Tallied;
    TalliedStays(s, Next(s, Step.Detach));
  }

  lemma OtherKeeps(s: State, step: Step, start: nat)
    requires Invariant(s, start) && Enabled(s, step)
    requires step.Begin? || step.End? || step.Judge? || step.Close?
    ensures Invariant(Next(s, step), start)
  {
    hide Position, True, Sound, Tallied, Untouched;
    TalliedStays(s, Next(s, step));
    if step.Close? && !s.cutOff && s.at.MustDetach? {
      UntouchedStays(s, Next(s, step), s.at.next, []);
    } else if step.Close? && !s.cutOff && (s.at.HasNext? || s.at.Catching?) {
      UntouchedStays(s, Next(s, step), s.at.next, s.at.snap);
    }
  }

  lemma UntouchedStays(s: State, s': State, i: nat, snap: seq<Byte>)
    requires Untouched(s, i, snap) && s'.readers == s.readers && s'.stream == s.stream && s'.flushed == s.flushed
    ensures Untouched(s', i, snap) && Untouched(s', i, [])
  {
    hide Sound;
  }

  lemma RegisterKeeps(s: State, start: nat)
    requires Invariant(s, start) && Enabled(s, Register)
    ensures Invariant(Next(s, Register), start)
  {
    hide Position, True, Sound, Tallied, Untouched;
    TalliedStays(s, Next(s, Register));
    if !s.cutOff {
      UntouchedStays(s, Next(s, Register), s.at.next, s.at.snap);
    }
  }

  lemma StepKeeps(s: State, step: Step, start: nat)
    requires Invariant(s, start) && Enabled(s, step)
    ensures Invariant(Next(s, step), start)
  {
    hide Invariant;
    match step
    case Write(bytes, lag) => WriteKeeps(s, bytes, lag, start);
    case Drain(k) => DrainKeeps(s, k, start);
    case CatchUp(j, k) => CatchUpKeeps(s, j, k, start);
    case Move(note, j) => MoveKeeps(s, note, j, start);
    case CloseBuffer => BufferKeeps(s, start);
    case CloseDetach => LetGoKeeps(s, start);
    case Detach => DetachKeeps(s, start);
    case Attach => AttachKeeps(s, start);
    case Register => RegisterKeeps(s, start);
    case _ => OtherKeeps(s, step, start);
  }

  lemma BufferKeeps(s: State, start: nat)
    requires Invariant(s, start) && Enabled(s, CloseBuffer)
    ensures Invariant(Next(s, CloseBuffer), start)
  {
    hide Position, True, Sound, Tallied;
    ClosingKeeps(s, Next(s, CloseBuffer).(detaching := None), start);
    TalliedStays(s, Next(s, CloseBuffer));
  }

  lemma LetGoKeeps(s: State, start: nat)
    requires Invariant(s, start) && Enabled(s, CloseDetach)
    ensures Invariant(Next(s, CloseDetach), start)
  {
    hide Invariant;
    ClosingKeeps(s, Next(s, CloseDetach), start);
  }

  // ---------------------------------------------------------------- whole runs

  lemma {:induction false} RunKeeps(s: State, steps: seq<Step>, start: nat)
    requires Invariant(s, start) && Runs(s, steps)
    ensures Invariant(After(s, steps), start)
    decreases |steps|
  {
    hide Invariant, Enabled, Next;
    if steps != [] {
      StepKeeps(s, steps[0], start);
      RunKeeps(Next(s, steps[0]), steps[1..], start);
    }
  }

  // Where a writer begins: with what the ring holds.
  function Start(stream: seq<Byte>, cap: nat): nat { |stream| - |Output.Last(stream, cap)| }

  lemma OpenedSane(stream: seq<Byte>, cap: nat, header: seq<Byte>, j: nat)
    requires j <= |header|
    ensures Invariant(Opened(stream, cap, header, j), Start(stream, cap))
  {
    hide Position, True, Noted, GapsSaid, Text, Missing, Gaps;
    Empty(stream, Start(stream, cap));
    NotedStays([], header, j, Start(stream, cap));
    NotedTrue([], header, j, stream);
    NotedSaid([], header, j);
    assert Sound(Reader(|stream|, [], true, false), |stream|, stream);
  }

  lemma Empty(stream: seq<Byte>, start: nat)
    ensures Position([], start) == Some(start) && True([], stream) && GapsSaid([])
    ensures Text([]) == [] && Missing([]) == 0 && Gaps([]) == 0
  {
  }

  // Whatever happens in whatever order, once the writer has finished the log accounts for every byte
  // up to where it says it is - unless it was told to close after it had attached again and before it
  // had caught up, with chunks already waiting in the new reader and something in the snapshot still
  // to be written. And always, what was given was written or is counted as missing.
  lemma LogExact(stream: seq<Byte>, cap: nat, header: seq<Byte>, j: nat, steps: seq<Step>)
    requires j <= |header| && Runs(Opened(stream, cap, header, j), steps)
    ensures var s := After(Opened(stream, cap, header, j), steps);
            && (s.at.Finished? ==> (Accounted(s, Start(stream, cap)) <==> !s.cutOff))
            && s.given + Gaps(s.log) == |Text(s.log)| + s.dropped && s.dropped == Missing(s.log) && GapsSaid(s.log)
  {
    hide Runs, After, True, Position, Opened, Placed, Text, Missing, Gaps, GapsSaid, Start;
    OpenedSane(stream, cap, header, j);
    RunKeeps(Opened(stream, cap, header, j), steps, Start(stream, cap));
  }

  // So with nobody closing the writer at that moment, every byte is accounted for at every moment.
  lemma LogExactUninterrupted(stream: seq<Byte>, cap: nat, header: seq<Byte>, j: nat, steps: seq<Step>)
    requires j <= |header| && Runs(Opened(stream, cap, header, j), steps)
    requires !After(Opened(stream, cap, header, j), steps).interrupted
    ensures Accounted(After(Opened(stream, cap, header, j), steps), Start(stream, cap))
  {
    hide Runs, After, True, Position, Opened, Placed, Tallied, Start;
    OpenedSane(stream, cap, header, j);
    RunKeeps(Opened(stream, cap, header, j), steps, Start(stream, cap));
  }

  // Once everything that waits in an attached reader has been drained, that is the whole stream.
  lemma DrainedWhole(s: State, start: nat)
    requires Invariant(s, start) && !s.cutOff && s.at.Draining?
    requires s.at.sub < |s.readers| && s.readers[s.at.sub].open && s.readers[s.at.sub].queue == []
    ensures s.flushed == |s.stream|
  {
    hide Position, True, Tallied;
  }

  // ---------------------------------------------------------------- one that goes wrong

  // With a ring of any size: a byte is missed by lagging, another waits in the new reader, and the writer is closed before it
  // has looked at the snapshot that has the first.
  lemma ClosedTooSoon(cap: nat) returns (steps: seq<Step>)
    requires cap >= 1
    ensures Runs(Opened([], cap, [], 0), steps)
    ensures var s := After(Opened([], cap, [], 0), steps); s.at.Finished? && !Accounted(s, 0)
  {
    hide *;
    steps := UntilBehind(Opened([], cap, [], 0), cap);
    steps := UntilSkipping(Opened([], cap, [], 0), cap, steps);
    steps := UntilStray(Opened([], cap, [], 0), cap, steps);
    StepFinished(cap);
    steps := OneStep(Opened([], cap, [], 0), steps, End);
    steps := OneStep(Opened([], cap, [], 0), steps, Judge);
    OpenedAtZero(cap);
    LogExact([], cap, [], 0, steps);
  }

  lemma UntilBehind(s: State, cap: nat) returns (steps: seq<Step>)
    requires cap >= 1 && s == Opened([], cap, [], 0)
    ensures Runs(s, steps) && After(s, steps) == Behind(cap)
  {
    hide *;
    Nothing(s);
    StepCaughtUp(cap);
    steps := OneStep(s, [], CatchUp(0, 0));
    StepLagged(cap);
    steps := OneStep(s, steps, Begin);
    steps := OneStep(s, steps, Write([1], {0}));
    StepAttached(cap);
    steps := OneStep(s, steps, End);
    steps := OneStep(s, steps, Judge);
    steps := OneStep(s, steps, Step.Attach);
  }

  lemma UntilSkipping(s: State, cap: nat, before: seq<Step>) returns (steps: seq<Step>)
    requires Runs(s, before) && After(s, before) == Behind(cap)
    ensures Runs(s, steps) && After(s, steps) == Skipping(cap)
  {
    hide *;
    StepClosed(cap);
    steps := OneStep(s, before, Write([2], {}));
    steps := OneStep(s, steps, Step.Close);
    steps := OneStep(s, steps, Register);
  }

  lemma UntilStray(s: State, cap: nat, before: seq<Step>) returns (steps: seq<Step>)
    requires Runs(s, before) && After(s, before) == Skipping(cap)
    ensures Runs(s, steps) && After(s, steps) == Stray(cap)
  {
    hide *;
    StepCutOff(cap);
    steps := OneStep(s, before, Step.Detach);
    steps := OneStep(s, steps, Begin);
    steps := OneStep(s, steps, Drain(1));
  }

  lemma Nothing(s: State)
    ensures Runs(s, []) && After(s, []) == s
  {
  }

  lemma OpenedAtZero(cap: nat)
    ensures Start([], cap) == 0
  {
  }

  // A run goes on with one more step.
  lemma {:induction false} OneStep(s: State, steps: seq<Step>, step: Step) returns (more: seq<Step>)
    requires Runs(s, steps) && Enabled(After(s, steps), step)
    ensures Runs(s, more) && After(s, more) == Next(After(s, steps), step)
    decreases |steps|
  {
    hide Next, Enabled;
    if steps == [] {
      more := [step];
      assert more[1..] == [];
    } else {
      more := OneStep(Next(s, steps[0]), steps[1..], step);
      assert ([steps[0]] + more)[1..] == more;
      more := [steps[0]] + more;
    }
  }

  // The states it goes through.
  function First(): Reader { Reader(0, [], false, true) }

  function Begun(cap: nat): State {
    State([], cap, false, [Reader(0, [], true, false)], 0, false, None, Catching(0, []), 0, [Note([])], 0, 0, false, false)
  }

  function Up(cap: nat): State { Begun(cap).(at := Top) }

  function Lagging(cap: nat): State { Begun(cap).(stream := [1], readers := [First()], at := Draining(0)) }

  function Behind(cap: nat): State {
    Lagging(cap).(readers := [First(), Reader(1, [], true, false)], at := HasNext(1, [1]))
  }

  function Skipping(cap: nat): State {
    Behind(cap).(stream := [1, 2], readers := [First(), Reader(1, [Chunk(1, [2])], true, false)], registered := 1,
              closing := true, detaching := Some(0), at := MustDetach(1), interrupted := true)
  }

  function Stray(cap: nat): State {
    Skipping(cap).(readers := [First(), Reader(1, [], false, false)], at := Draining(1), flushed := 1, given := 1,
      cutOff := true,
                log := [Note([]), Wrote(1, [2])])
  }

  lemma OpenedIs(cap: nat)
    ensures Opened([], cap, [], 0) == Begun(cap)
  {
    assert Output.Last([], cap) == [];
    assert Noted([], [], 0) == [Note([])];
  }

  lemma BegunUp(cap: nat)
    ensures Enabled(Begun(cap), CatchUp(0, 0)) && Next(Begun(cap), CatchUp(0, 0)) == Up(cap)
  {
    hide Emitted, Noted, Skipped, Output.Last, Opened, GapNote;
  }

  lemma StepCaughtUp(cap: nat)
    ensures Enabled(Opened([], cap, [], 0), CatchUp(0, 0)) && Next(Opened([], cap, [], 0), CatchUp(0, 0)) == Up(cap)
  {
    hide *;
    OpenedIs(cap);
    BegunUp(cap);
  }

  lemma StepLagged(cap: nat)
    ensures Enabled(Up(cap), Begin) && Enabled(Next(Up(cap), Begin), Write([1], {0})) && Next(Next(Up(cap), Begin),
      Write([1], {0})) == Lagging(cap)
  {
    assert AllOffered(Up(cap).readers, 0, [1], {0}) == [First()];
  }

  lemma StepAttached(cap: nat)
    requires cap >= 1
    ensures Enabled(Lagging(cap), End) && Enabled(Next(Lagging(cap), End), Judge)
    ensures Enabled(Next(Next(Lagging(cap), End), Judge), Step.Attach) && Next(Next(Next(Lagging(cap), End), Judge),
      Step.Attach) == Behind(cap)
  {
    assert Output.Last([1], cap) == [1];
  }

  lemma StepClosed(cap: nat)
    ensures Enabled(Behind(cap), Write([2], {})) && Enabled(Next(Behind(cap), Write([2], {})), Step.Close)
    ensures Enabled(Next(Next(Behind(cap), Write([2], {})), Step.Close), Register)
    ensures Next(Next(Next(Behind(cap), Write([2], {})), Step.Close), Register) == Skipping(cap)
  {
    var rs := AllOffered(Behind(cap).readers, 1, [2], {});
    assert rs[0] == First();
    assert [] + [Chunk(1, [2])] == [Chunk(1, [2])];
    assert rs[1] == Reader(1, [Chunk(1, [2])], true, false);
    assert rs == [First(), Reader(1, [Chunk(1, [2])], true, false)];
    assert [1] + [2] == [1, 2];
  }

  lemma StepCutOff(cap: nat)
    ensures Enabled(Skipping(cap), Step.Detach) && Enabled(Next(Skipping(cap), Step.Detach), Begin)
    ensures Enabled(Next(Next(Skipping(cap), Step.Detach), Begin), Drain(1))
    ensures Next(Next(Next(Skipping(cap), Step.Detach), Begin), Drain(1)) == Stray(cap)
  {
    assert [2][..1] == [2];
    assert [Chunk(1, [2])][1..] == [];
    assert Emitted([Note([])], 1, [2], 1) == [Note([]), Wrote(1, [2])];
  }

  lemma StepFinished(cap: nat)
    ensures Enabled(Stray(cap), End) && Enabled(Next(Stray(cap), End), Judge)
    ensures Next(Next(Stray(cap), End), Judge).at.Finished? && Next(Next(Stray(cap), End), Judge).cutOff
  {
  }
}
