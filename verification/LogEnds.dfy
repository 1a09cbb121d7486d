/** How the log writer comes to its end: only when it is told to, or when there is nothing more to come;
    and what it has written by then. */
module LogEnds {
  import opened Vt
  import opened LogRuns
  import Ledger
  import Output

  // A reader whose next byte is at an offset: while it is open it has all the rest of the stream, when it
  // has lagged it lacks some of it, and when it was closed without that, the buffer was.
  ghost predicate Tail(s: State, r: Reader, pos: nat) {
    && (r.open ==> !r.lagged && EndOf(r.queue, pos) == |s.stream|)
    && (r.lagged ==> !r.open && EndOf(r.queue, pos) < |s.stream|)
    && (!r.open && !r.lagged ==> s.closed && EndOf(r.queue, pos) == |s.stream|)
  }

  // As long as nobody has told the writer to close.
  ghost predicate Followed(s: State) {
    match s.at
    case Top => s.registered < |s.readers| && Tail(s, s.readers[s.registered], s.flushed)
    case Draining(i) => i < |s.readers| && Tail(s, s.readers[i], s.flushed)
    case Ended(i) =>
      i < |s.readers| && s.readers[i].queue == [] && !s.readers[i].open && Tail(s, s.readers[i], s.flushed)
    case Attaching => s.flushed < |s.stream|
    case HasNext(i, _) => i < |s.readers| && Tail(s, s.readers[i], s.readers[i].from)
    case MustDetach(_) => false
    case Catching(i, _) => i < |s.readers| && s.registered == i && Tail(s, s.readers[i], s.readers[i].from)
    case Finished => s.closed
  }

  ghost predicate Ends(s: State) {
    (s.detaching.Some? ==> s.closing) && (!s.closing ==> Followed(s))
  }

  lemma {:induction false} EndMore(q: seq<Chunk>, pos: nat, c: Chunk)
    ensures EndOf(q + [c], pos) == EndOf(q, pos) + |c.bytes|
    decreases |q|
  {
    if q == [] {
      assert q + [c] == [c] && [c][1..] == [];
    } else {
      assert (q + [c])[1..] == q[1..] + [c];
      EndMore(q[1..], pos + |q[0].bytes|, c);
    }
  }

  lemma TailGrows(s: State, s': State, r: Reader, pos: nat, bytes: seq<Byte>, lag: bool)
    requires Tail(s, r, pos) && !s.closed && bytes != []
    requires s'.stream == s.stream + bytes && s'.closed == s.closed
    ensures Tail(s', Offered(r, |s.stream|, bytes, lag), pos)
  {
    EndMore(r.queue, pos, Chunk(|s.stream|, bytes));
  }

  lemma TailCloses(s: State, s': State, r: Reader, pos: nat)
    requires Tail(s, r, pos) && s'.stream == s.stream && s'.closed
    ensures Tail(s', r.(open := false), pos)
  {
  }

  lemma WriteEnds(s: State, bytes: seq<Byte>, lag: set<nat>)
    requires Ends(s) && Enabled(s, Write(bytes, lag))
    ensures Ends(Next(s, Write(bytes, lag)))
  {
    hide Tail, EndOf, Offered;
    var s' := Next(s, Write(bytes, lag));
    if !s.closing {
      match s.at {
        case Top => TailGrows(s, s', s.readers[s.registered], s.flushed, bytes, s.registered in lag);
        case Draining(i) => TailGrows(s, s', s.readers[i], s.flushed, bytes, i in lag);
        case Ended(i) =>
          TailGrows(s, s', s.readers[i], s.flushed, bytes, i in lag);
          NotOffered(s.readers[i], |s.stream|, bytes, i in lag);
        case HasNext(i, _) =>
          TailGrows(s, s', s.readers[i], s.readers[i].from, bytes, i in lag);
          SameFrom(s.readers[i], |s.stream|, bytes, i in lag);
        case Catching(i, _) =>
          TailGrows(s, s', s.readers[i], s.readers[i].from, bytes, i in lag);
          SameFrom(s.readers[i], |s.stream|, bytes, i in lag);
        case _ =>
      }
    }
  }

  lemma NotOffered(r: Reader, at: nat, bytes: seq<Byte>, lag: bool)
    requires !r.open
    ensures Offered(r, at, bytes, lag) == r
  {
  }

  lemma SameFrom(r: Reader, at: nat, bytes: seq<Byte>, lag: bool)
    ensures Offered(r, at, bytes, lag).from == r.from
  {
  }

  lemma BufferEnds(s: State)
    requires Ends(s) && Enabled(s, CloseBuffer)
    ensures Ends(Next(s, CloseBuffer))
  {
    hide Tail, EndOf;
    var s' := Next(s, CloseBuffer);
    if !s.closing {
      match s.at {
        case Top => TailCloses(s, s', s.readers[s.registered], s.flushed);
        case Draining(i) => TailCloses(s, s', s.readers[i], s.flushed);
        case Ended(i) => TailCloses(s, s', s.readers[i], s.flushed);
        case HasNext(i, _) => TailCloses(s, s', s.readers[i], s.readers[i].from);
        case Catching(i, _) => TailCloses(s, s', s.readers[i], s.readers[i].from);
        case _ =>
      }
    }
  }

  lemma StepEnds(s: State, step: Step)
    requires Ends(s) && Enabled(s, step)
    ensures Ends(Next(s, step))
  {
    hide Ends, Next, Enabled;
    match step
    case Write(bytes, lag) => WriteEnds(s, bytes, lag);
    case CloseBuffer => BufferEnds(s);
    case CatchUp(_, _) => CatchUpEnds(s, step);
    case Attach => FreshEnds(s, step);
    case Move(_, _) => FreshEnds(s, step);
    case _ => OtherEnds(s, step);
  }

  lemma CatchUpEnds(s: State, step: Step)
    requires Ends(s) && Enabled(s, step) && step.CatchUp?
    ensures Ends(Next(s, step))
  {
    hide CaughtUp, Due, Gone, EndOf;
  }

  lemma FreshEnds(s: State, step: Step)
    requires Ends(s) && Enabled(s, step) && (step.Attach? || step.Move?)
    ensures Ends(Next(s, step))
  {
    hide Output.Last;
  }

  lemma OtherEnds(s: State, step: Step)
    requires Ends(s) && Enabled(s, step)
    requires !step.Write? && !step.CloseBuffer? && !step.CatchUp? && !step.Attach? && !step.Move?
    ensures Ends(Next(s, step))
  {
  }

  lemma {:induction false} RunEnds(s: State, steps: seq<Step>)
    requires Ends(s) && Runs(s, steps)
    ensures Ends(After(s, steps))
    decreases |steps|
  {
    hide Ends, Enabled, Next;
    if steps != [] {
      StepEnds(s, steps[0]);
      RunEnds(Next(s, steps[0]), steps[1..]);
    }
  }

  lemma OpenedEnds(stream: seq<Byte>, cap: nat, header: seq<Byte>, j: nat)
    requires j <= |header|
    ensures Ends(Opened(stream, cap, header, j))
  {
    hide Output.Last;
  }

  // In every run, a writer that has finished was told to, or the buffer was closed. One that nobody told
  // and that has come to the end of its reader's stream has everything in the log that was ever written,
  // and the buffer is closed - exactly when the reader has not lagged. When it has, it goes on, unless the
  // buffer is closed before it has attached again; then the end of the stream is not in the log.
  lemma EndsExactly(stream: seq<Byte>, cap: nat, header: seq<Byte>, j: nat, steps: seq<Step>)
    requires j <= |header| && Runs(Opened(stream, cap, header, j), steps)
    ensures var s := After(Opened(stream, cap, header, j), steps);
            && (s.at.Finished? ==> s.closing || s.closed)
            && (s.at.Ended? && !s.closing ==>
                  && s.at.sub < |s.readers|
                  && (s.flushed == |s.stream| <==> !s.readers[s.at.sub].lagged)
                  && (!s.readers[s.at.sub].lagged ==> s.closed)
                  && Next(s, Judge).at == (if s.readers[s.at.sub].lagged then Attaching else Finished))
            && (s.at.Attaching? && !s.closing ==> s.flushed < |s.stream| && (Next(s, Attach).at.Finished? <==> s.closed))
  {
    hide Runs, After, Opened;
    OpenedEnds(stream, cap, header, j);
    RunEnds(Opened(stream, cap, header, j), steps);
  }

  // It is not there, and nothing says so: a reader lags, and the buffer is closed before anything else.
  lemma EndLost(cap: nat) returns (steps: seq<Step>)
    ensures Runs(Opened([], cap, [], 0), steps)
    ensures var s := After(Opened([], cap, [], 0), steps);
            s.at.Finished? && !s.closing && s.flushed == 0 && s.stream == [1] && Ledger.Gaps(s.log) == 0
  {
    hide *;
    StepCaughtUp(cap);
    StepLagged(cap);
    Nothing(Opened([], cap, [], 0));
    steps := OneStep(Opened([], cap, [], 0), [], CatchUp(0, 0));
    steps := OneStep(Opened([], cap, [], 0), steps, Begin);
    steps := OneStep(Opened([], cap, [], 0), steps, Write([1], {0}));
    LaggedAndClosed(cap);
    steps := OneStep(Opened([], cap, [], 0), steps, CloseBuffer);
    steps := OneStep(Opened([], cap, [], 0), steps, End);
    steps := OneStep(Opened([], cap, [], 0), steps, Judge);
    steps := OneStep(Opened([], cap, [], 0), steps, Step.Attach);
  }

  lemma LaggedAndClosed(cap: nat)
    ensures Enabled(Lagging(cap), CloseBuffer) && Enabled(Next(Lagging(cap), CloseBuffer), End)
    ensures Enabled(Next(Next(Lagging(cap), CloseBuffer), End), Judge)
    ensures Enabled(Next(Next(Next(Lagging(cap), CloseBuffer), End), Judge), Step.Attach)
    ensures var s := Next(Next(Next(Next(Lagging(cap), CloseBuffer), End), Judge), Step.Attach);
            s.at.Finished? && !s.closing && s.flushed == 0 && s.stream == [1] && Ledger.Gaps(s.log) == 0
  {
    assert Lagging(cap).log == [Ledger.Note([])];
    assert [Ledger.Note([])][..0] == [];
    assert Ledger.Gaps([]) == 0;
  }
}
