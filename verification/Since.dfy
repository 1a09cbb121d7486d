/** The time index beside a log, and what is asked of it: the output from a moment on. */
module Since {
  import opened Vt

  // A line of the index: a moment, and where in the file the output from then on begins. Only the
  // second is written down.
  datatype Mark = Mark(time: nat, offset: nat)

  function At(m: Mark, c: Clock): nat
    requires c.second > 0
  {
    Second(m.time, c)
  }

  // The clock's units in a second, and how often, in those units, the index gets a line.
  datatype Clock = Clock(second: nat, every: nat)

  // The second a moment is in, and the whole seconds of the interval.
  function Second(t: nat, c: Clock): nat
    requires c.second > 0
  {
    t / c.second
  }

  function Interval(c: Clock): nat
    requires c.second > 0
  {
    c.every / c.second
  }

  ghost predicate Ticks(c: Clock) { c.second > 0 && c.every >= c.second }

  // The interval is a whole number of seconds, to within the clock's own unit.
  predicate WholeSeconds(c: Clock)
    requires c.second > 0
  {
    c.every % c.second <= 1
  }

  // One file: when each of its bytes was written, and its index. What was there before the index was
  // kept has no time.
  datatype File = File(untimed: nat, times: seq<nat>, marks: seq<Mark>)

  function Size(f: File): nat { f.untimed + |f.times| }

  const EMPTY := File(0, [], [])

  // The two files that are kept, when the index was last written, and the time.
  datatype Log = Log(prev: File, cur: File, marked: Option<nat>, now: nat)

  // ---------------------------------------------------------------- writing

  // A mark is due when the last one is old enough, or there is none.
  predicate Due(l: Log, c: Clock) { l.marked.None? || l.now - l.marked.value >= c.every }

  function Marked(l: Log, c: Clock): Log {
    if !Due(l, c) then l
    else l.(cur := l.cur.(marks := l.cur.marks + [Mark(l.now, Size(l.cur))]), marked := Some(l.now))
  }

  datatype Step =
    | Tick(elapsed: nat)
    | Emit(n: nat)    // a piece is written, at once, of which the disk takes n bytes
    | Rotate          // the file is moved aside, its index with it
    | Reopen          // another writer takes over the same file

  function Next(l: Log, c: Clock, step: Step): Log {
    match step
    case Tick(elapsed) => l.(now := l.now + elapsed)
    case Emit(n) =>
      var m := Marked(l, c);
      m.(cur := m.cur.(times := m.cur.times + seq(n, _ => m.now)))
    case Rotate => Log(l.cur, EMPTY, None, l.now)
    case Reopen => l.(marked := None)
  }

  function Run(l: Log, c: Clock, steps: seq<Step>): Log
    decreases |steps|
  {
    if steps == [] then l else Run(Next(l, c, steps[0]), c, steps[1..])
  }

  // A log begins with whatever an older version of the program wrote, which has no index.
  function Fresh(prev: nat, cur: nat): Log { Log(File(prev, [], []), File(cur, [], []), None, 0) }

  // ---------------------------------------------------------------- reading

  // The last mark not later than a second, or -1: marks are looked at up to the first that is.
  function LastMark(marks: seq<Mark>, since: int, c: Clock, i: nat, last: int): int
    requires i <= |marks| && c.second > 0
    decreases |marks| - i
  {
    if i == |marks| || At(marks[i], c) > since then last else LastMark(marks, since, c, i + 1, i)
  }

  // Where in a file the output from a second on begins, or nothing when that is before every mark.
  method SinceStart(marks: seq<Mark>, since: int, size: nat, c: Clock) returns (off: Option<nat>)
    requires Ticks(c)
    ensures off == StartOf(marks, since, size, c)
  {
    var last := -1;
    var i := 0;
    while i < |marks| && At(marks[i], c) <= since
      invariant 0 <= i <= |marks| && -1 <= last < |marks|
      invariant LastMark(marks, since, c, i, last) == LastMark(marks, since, c, 0, -1)
    {
      last := i;
      i := i + 1;
    }
    if last < 0 {
      return None;
    }
    var at := size;
    if since < At(marks[last], c) + Interval(c) || c.every < c.second {
      at := marks[last].offset;
    } else if last + 1 < |marks| {
      at := marks[last + 1].offset;
    }
    return Some(Min(at, size));
  }

  function StartOf(marks: seq<Mark>, since: int, size: nat, c: Clock): (off: Option<nat>)
    requires Ticks(c)
  {
    var last := LastMark(marks, since, c, 0, -1);
    if last < 0 || last >= |marks| then None
    else if since < At(marks[last], c) + Interval(c) then Some(Min(marks[last].offset, size))
    else if last + 1 < |marks| then Some(Min(marks[last + 1].offset, size))
    else Some(size)
  }

  // The answer: how much of the two files together is left out at the front, whether a limit is a
  // reason for that, and how much of the answer is said to have no time.
  datatype Answer = Answer(skipped: nat, truncated: bool, unknown: nat)

  // Nothing when there is no index to answer from. A limit of zero or less is none.
  method ReadSince(l: Log, since: int, limit: int, c: Clock) returns (a: Option<Answer>)
    requires Ticks(c)
    ensures a == Answered(l, since, limit, c)
  {
    if |l.prev.marks| == 0 && |l.cur.marks| == 0 {
      return None;
    }
    var skipped, unknown := 0, 0;
    var off := SinceStart(l.cur.marks, since, Size(l.cur), c);
    if off.Some? {
      skipped := Size(l.prev) + off.value;
    } else {
      off := SinceStart(l.prev.marks, since, Size(l.prev), c);
      if off.Some? {
        skipped := off.value;
      } else if |l.prev.marks| > 0 {
        unknown := l.prev.marks[0].offset;
      } else if Size(l.prev) > 0 {
        unknown := Size(l.prev);
      } else {
        unknown := l.cur.marks[0].offset;
      }
    }
    var size := Size(l.prev) + Size(l.cur) - skipped;
    var truncated := limit > 0 && size > limit;
    if truncated {
      var cut := size - limit;
      skipped, unknown := skipped + cut, Max(unknown - cut, 0);
    }
    return Some(Answer(skipped, truncated, unknown));
  }

  function Total(l: Log): nat { Size(l.prev) + Size(l.cur) }

  // What of the bytes kept comes before the index begins, as the answer has it when it begins with
  // everything that is kept.
  function Unindexed(l: Log): nat {
    if |l.prev.marks| > 0 then l.prev.marks[0].offset
    else if Size(l.prev) > 0 then Size(l.prev)
    else if |l.cur.marks| > 0 then l.cur.marks[0].offset else 0
  }

  predicate FromTheStart(l: Log, since: int, c: Clock)
    requires Ticks(c)
  {
    StartOf(l.cur.marks, since, Size(l.cur), c).None? && StartOf(l.prev.marks, since, Size(l.prev), c).None?
  }

  // Of what the index answers, the newest bytes that are within the limit.
  function Answered(l: Log, since: int, limit: int, c: Clock): Option<Answer>
    requires Ticks(c)
  {
    match Skipped(l, since, c)
    case None => None
    case Some(skipped) =>
      var cut := if limit > 0 then Max(Total(l) - skipped - limit, 0) else 0;
      var unknown := if FromTheStart(l, since, c) then Unindexed(l) else 0;
      Some(Answer(skipped + cut, cut > 0, Max(unknown - cut, 0)))
  }

  function Skipped(l: Log, since: int, c: Clock): (skipped: Option<nat>)
    requires Ticks(c)
  {
    if l.prev.marks == [] && l.cur.marks == [] then None
    else
      var cur, prev := StartOf(l.cur.marks, since, Size(l.cur), c), StartOf(l.prev.marks, since, Size(l.prev), c);
      Some(if cur.Some? then Size(l.prev) + cur.value else if prev.Some? then prev.value else 0)
  }

  // ---------------------------------------------------------------- what is always true

  // A byte is before a mark and not written after it, or after it and not written before.
  ghost predicate Sides(f: File, i: nat, k: nat)
    requires i < |f.marks| && k < |f.times|
  {
    if f.untimed + k < f.marks[i].offset then f.times[k] <= f.marks[i].time else f.marks[i].time <= f.times[k]
  }

  // A byte between a mark and the next is written less than an interval after it.
  ghost predicate Near(f: File, c: Clock, i: nat, k: nat)
    requires i < |f.marks| && k < |f.times|
  {
    f.marks[i].offset <= f.untimed + k && (i + 1 < |f.marks| ==> f.untimed + k < f.marks[i + 1].offset)
    ==> f.times[k] < f.marks[i].time + c.every
  }

  // An index that fits its file.
  ghost predicate Indexed(f: File, c: Clock) {
    && (forall i :: 0 <= i < |f.marks| ==> f.untimed <= f.marks[i].offset <= Size(f))
    && (forall i, j :: 0 <= i < j < |f.marks| ==> f.marks[i].time <= f.marks[j].time && f.marks[i].offset <= f.marks[j].offset)
    && (|f.times| > 0 ==> |f.marks| > 0) && (|f.marks| > 0 ==> f.marks[0].offset == f.untimed)
    && (forall i, k :: 0 <= i < |f.marks| && 0 <= k < |f.times| ==> Sides(f, i, k) && Near(f, c, i, k))
  }

  // Nothing in a file is later than a moment.
  ghost predicate By(f: File, now: nat) {
    (forall i :: 0 <= i < |f.marks| ==> f.marks[i].time <= now) && (forall k :: 0 <= k < |f.times| ==> f.times[k] <= now)
  }

  ghost predicate Valid(l: Log, c: Clock) {
    && Indexed(l.prev, c) && Indexed(l.cur, c) && By(l.prev, l.now) && By(l.cur, l.now)
    && (forall i :: 0 <= i < |l.cur.marks| ==> By(l.prev, l.cur.marks[i].time))
    && (l.marked.Some? ==> |l.cur.marks| > 0 && l.marked.value == l.cur.marks[|l.cur.marks| - 1].time)
    && (|l.prev.marks| > 0 ==> l.cur.untimed == 0)
  }

  lemma MarkIndexed(f: File, c: Clock, now: nat)
    requires Indexed(f, c) && By(f, now)
    ensures var f' := f.(marks := f.marks + [Mark(now, Size(f))]); Indexed(f', c) && By(f', now)
  {
    var f' := f.(marks := f.marks + [Mark(now, Size(f))]);
    forall i, k | 0 <= i < |f'.marks| && 0 <= k < |f'.times|
      ensures Sides(f', i, k) && Near(f', c, i, k)
    {
      if i < |f.marks| {
        assert Sides(f, i, k) && Near(f, c, i, k);
      }
    }
  }

  lemma BytesIndexed(f: File, c: Clock, now: nat, n: nat)
    requires Indexed(f, c) && By(f, now) && |f.marks| > 0 && now < f.marks[|f.marks| - 1].time + c.every
    ensures var f' := f.(times := f.times + seq(n, _ => now)); Indexed(f', c) && By(f', now)
  {
    var f' := f.(times := f.times + seq(n, _ => now));
    if |f.times| == 0 {
      assert f.untimed <= f.marks[0].offset <= Size(f) == f.untimed;
    }
    forall i, k | 0 <= i < |f'.marks| && 0 <= k < |f'.times|
      ensures Sides(f', i, k) && Near(f', c, i, k)
    {
      if k < |f.times| {
        assert Sides(f, i, k) && Near(f, c, i, k);
      } else {
        assert f.marks[i].offset <= Size(f);
        if i + 1 < |f.marks| {
          assert f.marks[i + 1].offset <= Size(f);
        }
      }
    }
  }

  lemma {:induction false} StepValid(l: Log, c: Clock, step: Step)
    requires Valid(l, c) && Ticks(c)
    ensures Valid(Next(l, c, step), c)
  {
    hide Indexed;
    match step {
      case Emit(n) => EmitValid(l, c, n);
      case Tick(_) =>
      case Rotate => assert Indexed(EMPTY, c) by { NothingIndexed(c); }
      case Reopen =>
    }
  }

  lemma NothingIndexed(c: Clock)
    ensures Indexed(EMPTY, c) && forall n: nat :: Indexed(File(n, [], []), c)
  {
  }

  lemma {:induction false} EmitValid(l: Log, c: Clock, n: nat)
    requires Valid(l, c) && Ticks(c)
    ensures Valid(Next(l, c, Emit(n)), c)
  {
    hide Indexed;
    if Due(l, c) {
      MarkIndexed(l.cur, c, l.now);
    }
    var m := Marked(l, c);
    BytesIndexed(m.cur, c, m.now, n);
  }

  lemma {:induction false} RunValid(l: Log, c: Clock, steps: seq<Step>)
    requires Valid(l, c) && Ticks(c)
    ensures Valid(Run(l, c, steps), c)
    decreases |steps|
  {
    hide Valid, Next;
    if steps != [] {
      StepValid(l, c, steps[0]);
      RunValid(Next(l, c, steps[0]), c, steps[1..]);
    }
  }

  // ---------------------------------------------------------------- the answer

  lemma {:induction false} LastMarkIs(marks: seq<Mark>, since: int, c: Clock, i: nat)
    requires i <= |marks| && c.second > 0
    requires forall j :: 0 <= j < i ==> At(marks[j], c) <= since
    ensures var last := LastMark(marks, since, c, i, i - 1);
            && i - 1 <= last < |marks| && (forall j :: 0 <= j <= last ==> At(marks[j], c) <= since)
            && (last + 1 < |marks| ==> At(marks[last + 1], c) > since)
    decreases |marks| - i
  {
    if i < |marks| && At(marks[i], c) <= since {
      LastMarkIs(marks, since, c, i + 1);
    }
  }

  // A moment is not before the second it is in, and before the next.
  lemma InSecond(t: nat, c: Clock)
    requires c.second > 0
    ensures Second(t, c) * c.second <= t < (Second(t, c) + 1) * c.second
  {
  }

  lemma Times(a: nat, b: nat, u: nat)
    ensures a <= b ==> a * u <= b * u
  {
  }

  lemma LaterSecond(t: nat, s: nat, c: Clock)
    requires c.second > 0 && s <= t
    ensures Second(s, c) <= Second(t, c)
  {
    hide Second;
    InSecond(s, c);
    InSecond(t, c);
    Times(Second(t, c) + 1, Second(s, c), c.second);
  }

  // What is written less than a whole number of seconds after a moment is in a second at most that
  // much later.
  lemma WithinWhole(t: nat, m: nat, c: Clock)
    requires Ticks(c) && WholeSeconds(c) && t < m + c.every
    ensures Second(t, c) <= Second(m, c) + Interval(c)
  {
    hide Second, Interval;
    InSecond(t, c);
    InSecond(m, c);
    WholeInterval(c);
    WholeWithin(t, m, Second(t, c), Second(m, c), Interval(c), c.second);
  }

  lemma WholeInterval(c: Clock)
    requires c.second > 0 && WholeSeconds(c)
    ensures c.every <= Interval(c) * c.second + 1
  {
  }

  lemma WholeWithin(t: nat, m: nat, b: nat, a: nat, q: nat, u: nat)
    requires b * u <= t <= m + q * u && m < (a + 1) * u
    ensures b <= a + q
  {
    assert (a + 1) * u + q * u == (a + q + 1) * u;
    Times(a + q + 1, b, u);
  }

  // In one file, with an interval of whole seconds: nothing later than a second is before where the
  // answer begins, and nothing after that is older than the second by more than the interval.
  lemma StartSound(f: File, since: int, c: Clock, k: nat)
    requires Indexed(f, c) && Ticks(c) && WholeSeconds(c) && k < |f.times|
    ensures var off := StartOf(f.marks, since, Size(f), c);
            && (off.Some? && f.untimed + k < off.value ==> Second(f.times[k], c) <= since)
            && (off.Some? && f.untimed + k >= off.value ==> Second(f.times[k], c) + Interval(c) > since)
            && (off.None? ==> Second(f.times[k], c) > since)
  {
    hide Second, Interval;
    LastMarkIs(f.marks, since, c, 0);
    var last := LastMark(f.marks, since, c, 0, -1);
    if last < 0 {
      assert Sides(f, 0, k);
      LaterSecond(f.times[k], f.marks[0].time, c);
    } else {
      StartWithin(f, since, c, k, last);
    }
  }

  lemma StartWithin(f: File, since: int, c: Clock, k: nat, last: nat)
    requires Indexed(f, c) && Ticks(c) && WholeSeconds(c) && k < |f.times| && last < |f.marks|
    requires last == LastMark(f.marks, since, c, 0, -1) && At(f.marks[last], c) <= since
    requires last + 1 < |f.marks| ==> At(f.marks[last + 1], c) > since
    ensures var off := StartOf(f.marks, since, Size(f), c);
            && off.Some?
            && (f.untimed + k < off.value ==> Second(f.times[k], c) <= since)
            && (f.untimed + k >= off.value ==> Second(f.times[k], c) + Interval(c) > since)
  {
    hide Indexed, Second, Interval;
    var m := f.marks[last];
    MarksFit(f, c, last, k);
    MarksUp(f, c, last);
    if f.untimed + k < m.offset {
      LaterSecond(m.time, f.times[k], c);
    } else {
      LaterSecond(f.times[k], m.time, c);
      if last + 1 < |f.marks| {
        MarksFit(f, c, last + 1, k);
        if f.untimed + k >= f.marks[last + 1].offset {
          LaterSecond(f.times[k], f.marks[last + 1].time, c);
        } else {
          WithinWhole(f.times[k], m.time, c);
        }
      } else {
        WithinWhole(f.times[k], m.time, c);
      }
    }
  }

  lemma MarksUp(f: File, c: Clock, i: nat)
    requires Indexed(f, c)
    ensures i + 1 < |f.marks| ==> f.marks[i].offset <= f.marks[i + 1].offset <= Size(f)
  {
  }

  lemma MarksFit(f: File, c: Clock, i: nat, k: nat)
    requires Indexed(f, c) && i < |f.marks| && k < |f.times|
    ensures Sides(f, i, k) && Near(f, c, i, k) && f.marks[i].offset <= Size(f)
  {
  }

  // A byte of a second later than the one asked for is in the answer, and a byte that is in it is of a
  // second not more than the interval before that.
  ghost predicate Timely(time: nat, place: nat, skipped: nat, since: int, c: Clock)
    requires c.second > 0
  {
    if place < skipped then Second(time, c) <= since else Second(time, c) + Interval(c) > since
  }

  // So for every byte of the two files that has a time.
  ghost predicate Answers(l: Log, skipped: nat, since: int, c: Clock)
    requires c.second > 0
  {
    && (forall k :: 0 <= k < |l.prev.times| ==> Timely(l.prev.times[k], l.prev.untimed + k, skipped, since, c))
    && (forall k :: 0 <= k < |l.cur.times| ==> Timely(l.cur.times[k], Size(l.prev) + l.cur.untimed + k, skipped, since, c))
  }

  lemma SinceSound(l: Log, since: int, c: Clock)
    requires Valid(l, c) && Ticks(c) && WholeSeconds(c) && Skipped(l, since, c).Some?
    ensures Answers(l, Skipped(l, since, c).value, since, c)
  {
    hide Indexed, StartOf, Second, Interval;
    var skipped := Skipped(l, since, c).value;
    forall k | 0 <= k < |l.cur.times|
      ensures Timely(l.cur.times[k], Size(l.prev) + l.cur.untimed + k, skipped, since, c)
    {
      StartSound(l.cur, since, c, k);
      StartFits(l.prev.marks, since, Size(l.prev), c);
    }
    forall k | 0 <= k < |l.prev.times|
      ensures Timely(l.prev.times[k], l.prev.untimed + k, skipped, since, c)
    {
      StartSound(l.prev, since, c, k);
      if StartOf(l.cur.marks, since, Size(l.cur), c).Some? {
        BeforeCurrent(l, since, c, k);
      }
    }
  }

  lemma StartFits(marks: seq<Mark>, since: int, size: nat, c: Clock)
    requires Ticks(c)
    ensures StartOf(marks, since, size, c).Some? ==> StartOf(marks, since, size, c).value <= size
  {
  }

  // When the current file answers, nothing in the one before it is late enough.
  lemma BeforeCurrent(l: Log, since: int, c: Clock, k: nat)
    requires Valid(l, c) && Ticks(c) && k < |l.prev.times| && StartOf(l.cur.marks, since, Size(l.cur), c).Some?
    ensures Second(l.prev.times[k], c) <= since
  {
    hide Indexed;
    LastMarkIs(l.cur.marks, since, c, 0);
    var m := l.cur.marks[LastMark(l.cur.marks, since, c, 0, -1)];
    assert By(l.prev, m.time);
    LaterSecond(m.time, l.prev.times[k], c);
  }

  lemma FreshValid(prev: nat, cur: nat, c: Clock)
    ensures Valid(Fresh(prev, cur), c)
  {
    hide Indexed;
    NothingIndexed(c);
  }

  // Whatever has been written, moved aside and taken over, from whatever an older program left: with
  // an interval of whole seconds, an answer has everything later than the second asked for, and
  // nothing older by more than the interval.
  lemma SinceRun(prev: nat, cur: nat, steps: seq<Step>, since: int, c: Clock)
    requires Ticks(c) && WholeSeconds(c)
    ensures var l := Run(Fresh(prev, cur), c, steps); var skipped := Skipped(l, since, c);
            && (skipped.None? <==> l.prev.marks == [] && l.cur.marks == [])
            && (skipped.Some? ==> Answers(l, skipped.value, since, c))
  {
    hide Valid, Next, StartOf, Answers;
    FreshValid(prev, cur, c);
    RunValid(Fresh(prev, cur), c, steps);
    var l := Run(Fresh(prev, cur), c, steps);
    if Skipped(l, since, c).Some? {
      SinceSound(l, since, c);
    }
  }

  // With a limit it is the newest of that, and says when it is not all.
  lemma LimitNewest(l: Log, since: int, limit: int, c: Clock)
    requires Ticks(c) && Answered(l, since, limit, c).Some?
    ensures var a, skipped := Answered(l, since, limit, c).value, Skipped(l, since, c).value;
            && a.skipped == (if limit > 0 then Max(skipped, Total(l) - limit) else skipped) <= Total(l)
            && (a.truncated <==> a.skipped != skipped)
            && (limit > 0 ==> Total(l) - a.skipped <= limit && (a.truncated ==> Total(l) - a.skipped == limit))
  {
    StartFits(l.cur.marks, since, Size(l.cur), c);
    StartFits(l.prev.marks, since, Size(l.prev), c);
  }

  // How many of the bytes kept after the first so many have no time.
  function Untimed(l: Log, skipped: nat): nat {
    Max(l.prev.untimed - skipped, 0) + Max(l.cur.untimed - Max(skipped - Size(l.prev), 0), 0)
  }

  // What an answer says has no time is what has none - except when neither file had an index once, the
  // older one still has not, and the answer reaches back before the first mark: then what is in the
  // newer one before that mark has no time either, and is not counted.
  lemma UnknownRun(prev: nat, cur: nat, steps: seq<Step>, since: int, limit: int, c: Clock)
    requires Ticks(c)
    ensures var l := Run(Fresh(prev, cur), c, steps); var a := Answered(l, since, limit, c);
            a.Some? ==>
              (a.value.unknown == Untimed(l, a.value.skipped) <==>
               !(|l.prev.marks| == 0 && Size(l.prev) > 0 && FromTheStart(l, since, c)
                 && a.value.skipped < Size(l.prev) + l.cur.marks[0].offset && l.cur.marks[0].offset > 0))
  {
    hide Next, StartOf, Answered;
    FreshValid(prev, cur, c);
    RunValid(Fresh(prev, cur), c, steps);
    var l := Run(Fresh(prev, cur), c, steps);
    if Answered(l, since, limit, c).Some? {
      SomeMarks(l, since, limit, c);
      UnknownIs(l, since, limit, c);
    }
  }

  lemma SomeMarks(l: Log, since: int, limit: int, c: Clock)
    requires Ticks(c) && Answered(l, since, limit, c).Some?
    ensures |l.prev.marks| > 0 || |l.cur.marks| > 0
  {
  }

  lemma UnknownIs(l: Log, since: int, limit: int, c: Clock)
    requires Valid(l, c) && Ticks(c) && Answered(l, since, limit, c).Some?
    requires |l.prev.marks| > 0 || |l.cur.marks| > 0
    ensures var a := Answered(l, since, limit, c).value;
            a.unknown == Untimed(l, a.skipped) <==>
            !(|l.prev.marks| == 0 && Size(l.prev) > 0 && FromTheStart(l, since, c)
              && a.skipped < Size(l.prev) + l.cur.marks[0].offset && l.cur.marks[0].offset > 0)
  {
    hide StartOf;
    if !FromTheStart(l, since, c) {
      StartTimed(l.cur, since, c);
      StartTimed(l.prev, since, c);
      StartFits(l.prev.marks, since, Size(l.prev), c);
    }
  }

  // What is answered from a mark on has a time.
  lemma StartTimed(f: File, since: int, c: Clock)
    requires Indexed(f, c) && Ticks(c)
    ensures var off := StartOf(f.marks, since, Size(f), c); off.Some? ==> |f.marks| > 0 && f.untimed <= off.value
  {
    LastMarkIs(f.marks, since, c, 0);
  }

  // It comes to that when two files from before there was an index are written on: two of the three
  // bytes in the answer have no time, and only the one in the older file is said to have none.
  lemma UnknownMissed(c: Clock)
    requires Ticks(c)
    ensures var l := Run(Fresh(1, 1), c, [Emit(1)]); var a := Answered(l, -1, 0, c);
            a == Some(Answer(0, false, 1)) && Untimed(l, 0) == 2
  {
    assert [Emit(1)][1..] == [];
    assert Run(Fresh(1, 1), c, [Emit(1)]) == Next(Fresh(1, 1), c, Emit(1));
  }

  // With an interval that is not whole seconds the answer can miss output: a byte written at the end
  // of the interval is in a second that is later by one more than the interval's seconds.
  lemma FractionMisses(c: Clock)
    requires Ticks(c) && !WholeSeconds(c)
    ensures var steps := [Tick(c.second - 1), Emit(1), Tick(c.every - 1), Emit(1)];
            var l := Run(Fresh(0, 0), c, steps); var since := Interval(c);
            && |l.cur.times| == 2 && Second(l.cur.times[1], c) > since
            && Skipped(l, since, c) == Some(2)
  {
    var e, u := c.every, c.second;
    var l0 := Fresh(0, 0);
    var l1 := Next(l0, c, Tick(u - 1));
    var l2 := Next(l1, c, Emit(1));
    var l3 := Next(l2, c, Tick(e - 1));
    var l4 := Next(l3, c, Emit(1));
    FourSteps(l0, c, Tick(u - 1), Emit(1), Tick(e - 1), Emit(1));
    FractionLater(c);
    assert l4.cur.marks == [Mark(u - 1, 0)];
    FirstSecond(u);
    FractionAnswer(c, l4);
  }

  lemma FractionAnswer(c: Clock, l: Log)
    requires Ticks(c) && l.cur.marks == [Mark(c.second - 1, 0)] && |l.cur.times| == 2 && l.cur.untimed == 0
      && l.prev == File(0, [], [])
    requires (c.second - 1) / c.second == 0
    ensures Skipped(l, Interval(c), c) == Some(2)
  {
    var since := Interval(c);
    LastMarkIs(l.cur.marks, since, c, 0);
  }

  lemma FirstSecond(u: nat)
    requires u > 0
    ensures (u - 1) / u == 0
  {
  }

  lemma FractionLater(c: Clock)
    requires Ticks(c) && !WholeSeconds(c)
    ensures Second(c.second - 1 + (c.every - 1), c) == Interval(c) + 1
  {
    var q, r, u := c.every / c.second, c.every % c.second, c.second;
    assert c.every == q * u + r;
    assert u - 1 + (c.every - 1) == (q + 1) * u + (r - 2);
    Quotient(q + 1, r - 2, c);
  }

  lemma Quotient(q: nat, r: nat, c: Clock)
    requires r < c.second
    ensures Second(q * c.second + r, c) == q
  {
    hide Second;
    var t := q * c.second + r;
    InSecond(t, c);
    Times(Second(t, c) + 1, q, c.second);
    Times(q + 1, Second(t, c), c.second);
  }

  lemma FourSteps(l: Log, c: Clock, a: Step, b: Step, d: Step, e: Step)
    ensures Run(l, c, [a, b, d, e]) == Next(Next(Next(Next(l, c, a), c, b), c, d), c, e)
  {
    hide Next;
    assert [a, b, d, e][1..] == [b, d, e] && [b, d, e][1..] == [d, e] && [d, e][1..] == [e] && [e][1..] == [];
    var l3 := Next(Next(Next(l, c, a), c, b), c, d);
    assert Run(l3, c, [e]) == Run(Next(l3, c, e), c, []);
    assert Run(Next(Next(l, c, a), c, b), c, [d, e]) == Run(l3, c, [e]);
  }
}
