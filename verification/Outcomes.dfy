/** What a caller of the supervision protocol has brought about by the time it lets go of its locks,
    when nothing failed on the way. */
module Outcomes {
  import opened Vt
  import opened Lifecycle

  // What is remembered of a caller: whether a step of it failed or what it asked for was refused, and
  // the supervisor its name led to when it looked.
  datatype Memo = Memo(failed: bool, found: Option<nat>)

  // What was asked for cannot be done with the names as they are.
  predicate Refused(s: State, op: Op) {
    match op
    case Start(n) => n !in s.sups
    case Stop(n) => n !in s.sups
    case Restart(n) => n !in s.sups
    case Rename(n, to) => n !in s.sups || to in s.sups
    case _ => false
  }

  function Noted(s: State, x: Caller, m: Memo, fails: bool): Memo {
    match x.pc
    case Looking =>
      Memo(m.failed || fails || Refused(s, x.op), if x.op.name in s.sups then Some(s.sups[x.op.name]) else None)
    case Launching(_) => m.(failed := m.failed || fails)
    case _ => m
  }

  function NextMemos(s: State, ms: seq<Memo>, step: Step): (ms': seq<Memo>)
    requires |ms| == |s.callers|
  {
    match step
    case Call(_) => ms + [Memo(false, None)]
    case Act(c, fails) => if c < |ms| then ms[c := Noted(s, s.callers[c], ms[c], fails)] else ms
    case _ => ms
  }

  // The memos at the end of a run.
  ghost function Memos(s: State, ms: seq<Memo>, steps: seq<Step>): seq<Memo>
    requires |ms| == |s.callers| && Runs(s, steps)
    decreases |steps|
  {
    if steps == [] then ms
    else
      CallersAfter(s, ms, steps[0]);
      Memos(Next(s, steps[0]), NextMemos(s, ms, steps[0]), steps[1..])
  }

  lemma {:induction false} CallersAfter(s: State, ms: seq<Memo>, step: Step)
    requires |ms| == |s.callers| && Enabled(s, step)
    ensures |NextMemos(s, ms, step)| == |Next(s, step).callers|
  {
    if step.Act? {
      ActMoves(s, step.caller, step.fails);
    }
  }

  // ---------------------------------------------------------------- what is brought about

  // The loop of the supervisor under a name has begun.
  predicate Begun(s: State, n: nat) { n in s.sups && s.sups[n] < |s.pool| && s.pool[s.sups[n]].phase != Idle }

  // What each operation is called for.
  predicate Effect(s: State, op: Op, m: Memo) {
    match op
    case Add(n, start) => n in s.sups && (start ==> Begun(s, n))
    case Ensure(n) => Begun(s, n)
    case Start(n) => Begun(s, n)
    case Stop(n) => n in s.sups && m.found == Some(s.sups[n]) && s.sups[n] < |s.pool| && !Live(s.pool[s.sups[n]])
    case Restart(n) => Begun(s, n) && m.found.Some? && m.found != Some(s.sups[n])
    case Remove(n) => n !in s.sups
    case Rename(n, to) => n !in s.sups && to in s.sups && m.found == Some(s.sups[to])
  }

  predicate Starts(op: Op) { op.Ensure? || op.Start? || (op.Add? && op.start) }

  // What is known of a caller on the way there.
  ghost predicate Promise(s: State, x: Caller, m: Memo) {
    match x.pc
    case Choosing(i) => !m.failed && Starts(x.op) && Leads(s, x.op.name, i)
    case Replacing(i) => !m.failed && Starts(x.op) && Leads(s, x.op.name, i)
    case Launching(i) =>
      && !m.failed && (Starts(x.op) || x.op.Restart?) && Leads(s, x.op.name, i)
      && (x.op.Restart? ==> m.found.Some? && m.found != Some(i))
    case Cancelling(i, next) => !m.failed && m.found == Some(i) && next != Some(i)
    case Awaiting(i, next) => !m.failed && m.found == Some(i) && next != Some(i)
    case Deleting => !m.failed && x.op.Remove?
    case Moving(i) => !m.failed && m.found == Some(i)
    case Unlocking => m.failed || Effect(s, x.op, m)
    case Done => true
    case _ => !m.failed
  }

  ghost predicate Promised(s: State, ms: seq<Memo>) {
    |ms| == |s.callers| && forall c :: 0 <= c < |ms| ==> Promise(s, s.callers[c], ms[c])
  }

  // ---------------------------------------------------------------- what others do

  // What a caller's names lead to is the same, and no livelier, and as much begun.
  ghost predicate Undone(s: State, s': State, c: Caller) {
    && |s'.pool| >= |s.pool|
    && (forall n :: Holds(c, n) ==> (n in s'.sups <==> n in s.sups))
    && (forall n :: Holds(c, n) && n in s.sups ==> s'.sups[n] == s.sups[n])
    && (forall n :: Holds(c, n) && n in s.sups && s.sups[n] < |s.pool| ==> Milder(s.pool[s.sups[n]], s'.pool[s.sups[n]]))
  }

  predicate Milder(x: Sup, y: Sup) { (Live(y) ==> Live(x)) && (y.phase == Idle <==> x.phase == Idle) }

  lemma {:induction false} PromiseStays(s: State, s': State, x: Caller, m: Memo)
    requires Promise(s, x, m) && Undone(s, s', x)
    ensures Promise(s', x, m)
  {
    hide Live;
    if !x.pc.Locking? && !x.pc.Done? && !x.pc.LockingSecond? {
      assert Holds(x, x.op.name);
      assert x.op.Rename? ==> Holds(x, x.op.to);
    }
  }

  lemma SameIsUndone(s: State, s': State, c: Caller)
    requires SameFor(s, s', c)
    ensures Undone(s, s', c)
  {
  }

  // A step of one caller leaves alone what the others' locks keep.
  lemma {:induction false} OthersApart(s: State, c: nat, fails: bool, d: nat)
    requires Inv(s) && Enabled(s, Act(c, fails)) && d < |s.callers| && d != c
    ensures var s' := Next(s, Act(c, fails)); |s'.callers| > d && s'.callers[d] == s.callers[d] && SameFor(s, s', s.callers[d])
  {
    hide Live, Holds, Reached;
    var x, s' := s.callers[c], Next(s, Act(c, fails));
    ActMoves(s, c, fails);
    assert Aware(s, x);
    if !x.pc.Locking? && !x.pc.LockingSecond? && !x.pc.Done? {
      SameLocks(x, x.pc);
      OthersLock(s, c, d, x.op.name);
      if x.op.Rename? {
        OthersLock(s, c, d, x.op.to);
      }
    }
    if x.pc.Looking? && !fails {
      LookedApart(s, c, d);
    }
  }

  lemma {:induction false} LookedApart(s: State, c: nat, d: nat)
    requires Inv(s) && c < |s.callers| && s.callers[c].pc.Looking? && d < |s.callers| && d != c
    requires !Holds(s.callers[d], s.callers[c].op.name)
    ensures SameFor(s, Looked(s, c), s.callers[d])
  {
    hide Live, Holds, Reached, Aware;
  }

  // ---------------------------------------------------------------- what it does itself

  lemma {:induction false} OwnPromise(s: State, c: nat, fails: bool, m: Memo)
    requires Inv(s) && Enabled(s, Act(c, fails)) && Promise(s, s.callers[c], m)
    ensures var s' := Next(s, Act(c, fails)); |s'.callers| > c && Promise(s', s'.callers[c], Noted(s, s.callers[c], m, fails))
  {
    hide Reached, Holds, Looked;
    var x := s.callers[c];
    ActMoves(s, c, fails);
    assert Aware(s, x);
    if x.pc.Looking? && !fails {
      LookedPromise(s, c, m);
    } else if x.pc.Launching? || x.pc.Awaiting? {
      LaunchedPromise(s, c, fails, m);
    }
  }

  lemma {:induction false} LaunchedPromise(s: State, c: nat, fails: bool, m: Memo)
    requires Enabled(s, Act(c, fails)) && Promise(s, s.callers[c], m) && Aware(s, s.callers[c])
    requires s.callers[c].pc.Launching? || s.callers[c].pc.Awaiting?
    ensures var s' := Next(s, Act(c, fails)); |s'.callers| > c && Promise(s', s'.callers[c], Noted(s, s.callers[c], m, fails))
  {
    hide Looked, Inv, Reached, Holds;
  }

  lemma {:induction false} LookedPromise(s: State, c: nat, m: Memo)
    requires Inv(s) && c < |s.callers| && s.callers[c].pc.Looking? && !m.failed
    ensures var s' := Looked(s, c); |s'.callers| > c && Promise(s', s'.callers[c], Noted(s, s.callers[c], m, false))
  {
    hide Inv, Live;
    var op := s.callers[c].op;
    FoundKnown(s, op.name);
    if op.name in s.sups {
      LookedFound(s, c, m);
    } else {
      LookedNew(s, c, m);
    }
  }

  lemma {:induction false} LookedFound(s: State, c: nat, m: Memo)
    requires c < |s.callers| && s.callers[c].pc.Looking? && !m.failed
    requires s.callers[c].op.name in s.sups && s.sups[s.callers[c].op.name] < |s.pool|
    ensures var s' := Looked(s, c); |s'.callers| > c && Promise(s', s'.callers[c], Noted(s, s.callers[c], m, false))
  {
    hide Live;
  }

  lemma {:induction false} LookedNew(s: State, c: nat, m: Memo)
    requires c < |s.callers| && s.callers[c].pc.Looking? && !m.failed && s.callers[c].op.name !in s.sups
    ensures var s' := Looked(s, c); |s'.callers| > c && Promise(s', s'.callers[c], Noted(s, s.callers[c], m, false))
  {
    hide Live;
  }

  lemma FoundKnown(s: State, n: nat)
    requires Inv(s)
    ensures n in s.sups ==> s.sups[n] < |s.pool|
  {
  }

  // ---------------------------------------------------------------- every run

  lemma {:induction false} StepPromised(s: State, ms: seq<Memo>, step: Step)
    requires Inv(s) && Promised(s, ms) && Enabled(s, step)
    ensures Promised(Next(s, step), NextMemos(s, ms, step))
  {
    hide Inv, Promise, Noted;
    var s', ms' := Next(s, step), NextMemos(s, ms, step);
    CallersAfter(s, ms, step);
    forall c | 0 <= c < |ms'|
      ensures Promise(s', s'.callers[c], ms'[c])
    {
      if step.Act? && c == step.caller {
        OwnPromise(s, c, step.fails, ms[c]);
      } else if step.Act? {
        OthersApart(s, step.caller, step.fails, c);
        SameIsUndone(s, s', s.callers[c]);
        PromiseStays(s, s', s.callers[c], ms[c]);
      } else if c < |ms| {
        NoCallersStep(s, step, c);
        PromiseStays(s, s', s.callers[c], ms[c]);
      } else {
        NewPromise(s', s'.callers[c]);
      }
    }
  }

  lemma NewPromise(s: State, x: Caller)
    requires x.pc.Locking?
    ensures Promise(s, x, Memo(false, None))
  {
  }

  lemma {:induction false} NoCallersStep(s: State, step: Step, c: nat)
    requires Inv(s) && Enabled(s, step) && !step.Act? && c < |s.callers|
    ensures var s' := Next(s, step); |s'.callers| > c && s'.callers[c] == s.callers[c] && Undone(s, s', s.callers[c])
  {
    hide Live, Holds, Reached, Aware, Moved, MoveEnabled;
    if step.Loop? {
      MovedStays(s.pool[step.sup], step.move);
    }
  }

  lemma {:induction false} RunPromised(s: State, ms: seq<Memo>, steps: seq<Step>)
    requires Inv(s) && Promised(s, ms) && Runs(s, steps)
    ensures Promised(After(s, steps), Memos(s, ms, steps))
    decreases |steps|
  {
    hide Inv, Enabled, Next, Promise, NextMemos;
    if steps != [] {
      StepKeeps(s, steps[0]);
      CallersAfter(s, ms, steps[0]);
      StepPromised(s, ms, steps[0]);
      RunPromised(Next(s, steps[0]), NextMemos(s, ms, steps[0]), steps[1..]);
    }
  }

  // In every run, a caller that met with no failure has done what it was called for by the time it lets
  // go of its locks: what was to be started has begun, what was to be stopped is not live, a restart
  // has another supervisor in place, what was to be removed has no name, and what was to be renamed is
  // under the new name and not the old.
  lemma {:induction false} DoneAsAsked(running: seq<bool>, steps: seq<Step>, c: nat)
    requires Runs(Initial(running), steps) && c < |After(Initial(running), steps).callers|
    ensures var s, ms := After(Initial(running), steps), Memos(Initial(running), [], steps);
            && |ms| == |s.callers|
            && (s.callers[c].pc.Unlocking? && !ms[c].failed ==> Effect(s, s.callers[c].op, ms[c]))
  {
    hide Runs, After, Memos, Inv, Effect;
    InitialInv(running);
    RunPromised(Initial(running), [], steps);
  }

  // ---------------------------------------------------------------- a loop that is told to stop

  // How many moves it has left at the most.
  function MovesLeft(p: Phase): nat {
    match p
    case Spawning => 8
    case Alive => 7
    case Dead => 6
    case Waiting => 5
    case Top => 4
    case Ending => 3
    case Over => 2
    case Told => 1
    case Closed => 0
    case Idle => 0
  }

  // It comes to an end whatever moves it makes: each brings it nearer, and none starts a process but the
  // one it had made up its mind to start before. A loop that has begun and not finished has a move.
  lemma StopsSoon(x: Sup, m: Move)
    requires x.cancelled && MoveEnabled(x, m)
    ensures var y := Moved(x, m);
            && y.cancelled && MovesLeft(y.phase) < MovesLeft(x.phase)
            && (y.phase == Alive ==> x.phase == Spawning) && y.phase != Spawning
  {
  }
}
