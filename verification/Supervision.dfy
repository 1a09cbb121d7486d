/** One supervisor's loop: what it publishes, how long it waits, and how often it can start a process. */
module Supervision {
  import opened Vt

  const SECOND: nat := 1_000_000_000
  const FIRST_WAIT: nat := SECOND
  const LONGEST_WAIT: nat := 30 * SECOND
  const STABLE: nat := 60 * SECOND

  // ---------------------------------------------------------------- restarting

  datatype Policy = Never | OnFailure | Always

  // How a process ended: its code, and whether a signal killed it.
  datatype Exit = Exit(code: int, signalled: bool)

  predicate Clean(e: Exit) { e.code == 0 && !e.signalled }

  predicate ShouldRestart(p: Policy, e: Exit) {
    match p
    case Always => true
    case OnFailure => !Clean(e)
    case Never => false
  }

  function Power(k: nat): (p: nat)
    ensures p >= 1
  {
    if k == 0 then 1 else 2 * Power(k - 1)
  }

  // How long the k-th short run in a row is waited for.
  function Wait(k: nat): (w: nat)
    ensures k > 0 ==> FIRST_WAIT <= w <= LONGEST_WAIT
  {
    if k == 0 then 0 else Min(Power(k - 1), 30) * SECOND
  }

  lemma WaitDoubles(k: nat)
    requires k > 0
    ensures Wait(k + 1) == Min(2 * Wait(k), LONGEST_WAIT)
  {
    assert Power(k) == 2 * Power(k - 1);
  }

  class RestartTracker {
    var delay: nat
    var restarts: nat

    ghost predicate Valid()
      reads this
    {
      delay == Wait(restarts)
    }

    constructor ()
      ensures Valid() && restarts == 0
    {
      delay, restarts := 0, 0;
    }

    // After a run of this length: how long to wait.
    method Died(ran: nat) returns (wait: nat)
      requires Valid()
      modifies this
      ensures Valid() && restarts == (if ran >= STABLE then 1 else old(restarts) + 1) && wait == Wait(restarts)
    {
      if ran >= STABLE {
        delay, restarts := 0, 0;
      }
      if restarts > 0 {
        WaitDoubles(restarts);
      }
      if delay == 0 {
        delay := FIRST_WAIT;
      } else if delay < LONGEST_WAIT {
        delay := delay * 2;
        if delay > LONGEST_WAIT {
          delay := LONGEST_WAIT;
        }
      }
      restarts := restarts + 1;
      wait := delay;
    }
  }

  // ---------------------------------------------------------------- the loop

  datatype RunState = Stopped | Running | BackingOff | Failed | Exited

  datatype Status = Status(
    state: RunState, pid: nat, restarts: nat, totalStarts: nat, hasExited: bool,
    nextRestart: Option<nat>, started: bool, ended: bool)

  // What any reader of a status may rely on.
  predicate Consistent(s: Status) {
    && (s.state == Running <==> s.pid != 0)
    && (s.ended ==> s.started && (s.state == Stopped || s.state == Failed || s.state == Exited))
    && (s.state == BackingOff ==> s.nextRestart.Some?)
    && (s.state == Running ==> s.started && s.totalStarts > 0)
  }

  // What one turn of the loop meets.
  datatype Turn = Turn(
    stopped: bool,             // it is told to stop before it spawns
    pid: Option<nat>,          // the process, or a failure to start one
    policy: Policy,
    ran: nat, exit: Exit,
    stoppedRunning: bool,      // it is told to stop while the process runs
    outputOpen: bool,          // whether the notice of a restart can be written
    stoppedWaiting: bool, late: nat)

  predicate Possible(turns: seq<Turn>) { forall i :: 0 <= i < |turns| ==> turns[i].pid != Some(0) }

  // The state a turn ends the loop in, if it does.
  function Outcome(turn: Turn): Option<RunState> {
    if turn.stopped then Some(Stopped)
    else if turn.pid.None? && turn.policy != Always then Some(Failed)
    else if turn.pid.Some? && turn.stoppedRunning then Some(Stopped)
    else if turn.pid.Some? && !ShouldRestart(turn.policy, turn.exit) then Some(if Clean(turn.exit) then Exited else Failed)
    else if !turn.outputOpen then Some(Failed)
    else if turn.stoppedWaiting then Some(Stopped)
    else None
  }

  // An exit without being told to ends the loop when the policy says never, or says on failure and the
  // process ended with code 0 and no signal; as exited, exactly when it ended so.
  lemma ExitOutcome(turn: Turn)
    requires turn.pid.Some? && !turn.stopped && !turn.stoppedRunning && turn.outputOpen && !turn.stoppedWaiting
    ensures var well := turn.exit.code == 0 && !turn.exit.signalled;
            && (Outcome(turn).Some? <==> turn.policy == Never || (turn.policy == OnFailure && well))
            && (Outcome(turn) == Some(Exited) <==> Outcome(turn).Some? && well)
            && (Outcome(turn) == Some(Failed) <==> Outcome(turn).Some? && !well)
  {
  }

  // Being told to stop ends it as stopped, whatever the policy and however the process ended; and where
  // there was no process, only always tries again.
  lemma OtherOutcomes(turn: Turn)
    ensures turn.stopped || (turn.pid.Some? && turn.stoppedRunning) ==> Outcome(turn) == Some(Stopped)
    ensures turn.pid.None? && !turn.stopped && turn.policy != Always ==> Outcome(turn) == Some(Failed)
    ensures turn.pid.None? && !turn.stopped && turn.policy == Always && turn.outputOpen ==>
      Outcome(turn) == if turn.stoppedWaiting then Some(Stopped) else None
    ensures !turn.stopped && !(turn.pid.Some? && turn.stoppedRunning) && !turn.outputOpen ==>
      Outcome(turn) == Some(Failed) || Outcome(turn) == Some(Exited)
  {
  }

  // The processes there are from a turn on, each with how many there have been.
  function Started(turns: seq<Turn>, total: nat): seq<(nat, nat)> {
    if turns == [] || turns[0].stopped then []
    else
      OneStarted(turns[0], total)
      + if Outcome(turns[0]).Some? then [] else Started(turns[1..], total + |OneStarted(turns[0], total)|)
  }

  function OneStarted(turn: Turn, total: nat): seq<(nat, nat)> {
    if turn.pid.Some? && !turn.stopped then [(turn.pid.value, total + 1)] else []
  }

  // What the statuses published say has been running.
  function Shown(published: seq<Status>): seq<(nat, nat)>
    decreases |published|
  {
    if published == [] then []
    else
      var last := published[|published| - 1];
      Shown(published[..|published| - 1]) + if last.state == Running then [(last.pid, last.totalStarts)] else []
  }

  lemma OneMoreShown(published: seq<Status>, next: Status)
    ensures Shown(published + [next]) == Shown(published) + if next.state == Running then [(next.pid, next.totalStarts)] else []
  {
    assert (published + [next])[..|published|] == published;
  }

  // How long its process ran; one that could not be started did not.
  function Lasted(turn: Turn): nat { if turn.pid.None? then 0 else turn.ran }

  // How many runs in a row have been short, when k had been before this one.
  function ShortRuns(turn: Turn, k: nat): nat { if Lasted(turn) >= STABLE then 1 else k + 1 }

  // When processes are started, from a moment on and after k short runs.
  function Times(turns: seq<Turn>, now: nat, k: nat): seq<nat> {
    if turns == [] || turns[0].stopped then []
    else if Outcome(turns[0]).Some? then [now]
    else
      var k' := ShortRuns(turns[0], k);
      [now] + Times(turns[1..], now + Lasted(turns[0]) + Wait(k') + turns[0].late, k')
  }

  lemma Regroup(a: seq<nat>, b: seq<nat>, c: seq<nat>)
    ensures a + (b + c) == (a + b) + c
  {
  }

  // The starts there have been, and those there are to be.
  function Begun(turns: seq<Turn>, i: nat, spawns: seq<nat>, over: bool, now: nat, k: nat): seq<nat>
    requires i <= |turns|
  {
    spawns + if over then [] else Times(turns[i..], now, k)
  }

  // The processes there have been, and those there are to be.
  function RunSoFar(turns: seq<Turn>, i: nat, shown: seq<(nat, nat)>, over: bool, total: nat): seq<(nat, nat)>
    requires i <= |turns|
  {
    shown + if over then [] else Started(turns[i..], total)
  }

  lemma NoneShown(turns: seq<Turn>, shown: seq<(nat, nat)>, total: nat)
    ensures RunSoFar(turns, 0, shown, false, total) == shown + Started(turns, total)
  {
    assert turns[0..] == turns;
  }

  lemma AllShown(turns: seq<Turn>, i: nat, shown: seq<(nat, nat)>, over: bool, total: nat)
    requires i <= |turns| && (over || i == |turns|)
    ensures RunSoFar(turns, i, shown, over, total) == shown
  {
    assert i == |turns| ==> turns[i..] == [];
    assert shown + [] == shown;
  }

  lemma OneTurnShown(turns: seq<Turn>, i: nat, shown: seq<(nat, nat)>, total: nat, shown': seq<(nat, nat)>, over: bool, total': nat)
    requires i < |turns| && over == Outcome(turns[i]).Some?
    requires shown' == shown + OneStarted(turns[i], total) && total' == total + |OneStarted(turns[i], total)|
    ensures RunSoFar(turns, i + 1, shown', over, total') == RunSoFar(turns, i, shown, false, total)
  {
    assert turns[i..][0] == turns[i] && turns[i..][1..] == turns[i + 1..];
    var one, rest := OneStarted(turns[i], total), if over then [] else Started(turns[i + 1..], total');
    assert shown + (one + rest) == (shown + one) + rest;
  }

  lemma StartedIs(turn: Turn, total: nat)
    ensures OneStarted(turn, total) == if turn.pid.Some? && !turn.stopped then [(turn.pid.value, total + 1)] else []
  {
  }

  lemma NoneBegun(turns: seq<Turn>, now: nat, k: nat)
    ensures Begun(turns, 0, [], false, now, k) == Times(turns, now, k)
  {
    assert turns[0..] == turns && [] + Times(turns, now, k) == Times(turns, now, k);
  }

  lemma AllBegun(turns: seq<Turn>, i: nat, spawns: seq<nat>, over: bool, now: nat, k: nat)
    requires i <= |turns| && (over || i == |turns|)
    ensures Begun(turns, i, spawns, over, now, k) == spawns
  {
    assert i == |turns| ==> turns[i..] == [];
    assert spawns + [] == spawns;
  }

  lemma OneTurn(turns: seq<Turn>, i: nat, spawns: seq<nat>, now: nat, k: nat, spawns': seq<nat>, over: bool, now': nat, k': nat)
    requires i < |turns| && over == Outcome(turns[i]).Some?
    requires spawns' == spawns + if turns[i].stopped then [] else [now]
    requires !over ==> k' == ShortRuns(turns[i], k) && now' == now + Lasted(turns[i]) + Wait(k') + turns[i].late
    ensures Begun(turns, i + 1, spawns', over, now', k') == Begun(turns, i, spawns, false, now, k)
  {
    assert turns[i..][0] == turns[i] && turns[i..][1..] == turns[i + 1..];
    hide ShortRuns, Wait, Lasted;
    if !over {
      Regroup(spawns, [now], Times(turns[i + 1..], now', k'));
    }
  }

  // How many short runs there have been in a row at a turn.
  function Streak(turns: seq<Turn>, i: nat, k: nat): nat
    requires i < |turns|
  {
    ShortRuns(turns[i], if i == 0 then k else Streak(turns, i - 1, k))
  }

  // After each run the next begins its wait later, doubled for every short run in a row up to half a
  // minute; and nothing else is waited for.
  lemma {:induction false} StartsWait(turns: seq<Turn>, now: nat, k: nat, i: nat)
    requires i + 1 < |Times(turns, now, k)|
    ensures i + 1 < |turns|
    ensures Times(turns, now, k)[i + 1]
            == Times(turns, now, k)[i] + Lasted(turns[i]) + Wait(Streak(turns, i, k)) + turns[i].late
    ensures Streak(turns, i, k) > 0
  {
    var k' := ShortRuns(turns[0], k);
    if i > 0 {
      StartsWait(turns[1..], now + Lasted(turns[0]) + Wait(k') + turns[0].late, k', i - 1);
      StreakFrom(turns, i, k);
    }
  }

  lemma {:induction false} StreakFrom(turns: seq<Turn>, i: nat, k: nat)
    requires 0 < i < |turns|
    ensures Streak(turns, i, k) == Streak(turns[1..], i - 1, ShortRuns(turns[0], k))
  {
    if i > 1 {
      StreakFrom(turns, i - 1, k);
    }
  }

  class Supervisor {
    var status: Status
    var tracker: RestartTracker

    var now: nat

    // Every status there was, and when each spawn was tried.
    ghost var published: seq<Status>
    ghost var spawns: seq<nat>

    ghost predicate Valid()
      reads this, tracker
    {
      && tracker.Valid() && Consistent(status)
      && (forall i :: 0 <= i < |published| ==> Consistent(published[i]))
      && (forall i, j :: 0 <= i < j < |published| && published[i].ended ==> published[j].ended)
      && (forall i :: 0 <= i < |published| && published[i].ended ==> status.ended)
      && Spaced(spawns) && (spawns != [] ==> spawns[|spawns| - 1] <= now)
    }

    constructor ()
      ensures Valid() && !status.started && !status.ended && published == [] && fresh(tracker)
    {
      status := Status(Stopped, 0, 0, 0, false, None, false, false);
      tracker := new RestartTracker();
      now, published, spawns := 0, [], [];
    }

    // Changes the status, and tells.
    method Publish(next: Status)
      requires Valid() && Consistent(next) && (status.ended ==> next.ended)
      modifies this`status, this`published
      ensures Valid() && status == next
      ensures Shown(published) == Shown(old(published)) + if next.state == Running then [(next.pid, next.totalStarts)] else []
    {
      hide Shown, Consistent, Spaced;
      OneMoreShown(published, next);
      status := next;
      published := published + [next];
    }

    // Runs the loop through these turns, or until it ends.
    method Run(turns: seq<Turn>) returns (over: bool)
      requires Valid() && !status.started && !status.ended && spawns == [] && Possible(turns)
      modifies this, tracker
      ensures Valid() && over == status.ended && status.started && tracker == old(tracker)
      ensures spawns == Times(turns, old(now), old(tracker.restarts))
      ensures Shown(published) == Shown(old(published)) + Started(turns, old(status.totalStarts))
      ensures over <==> exists i :: 0 <= i < |turns| && Outcome(turns[i]).Some?
      ensures over ==> exists i :: 0 <= i < |turns| && Outcome(turns[i]) == Some(status.state) && forall j :: 0 <= j < i ==> Outcome(turns[j]).None?
    {
      hide Started, OneStarted, Shown, Times, Outcome, ShortRuns, Wait, Lasted, Begun, ShouldRestart, Clean, Consistent, Spaced, Supervisor.Valid;
      NoneBegun(turns, now, tracker.restarts);
      NoneShown(turns, Shown(published), status.totalStarts);
      Begin();
      var i := 0;
      over := false;
      while i < |turns| && !over
        invariant 0 <= i <= |turns| && Valid() && status.started && tracker == old(tracker)
        invariant Begun(turns, i, spawns, over, now, tracker.restarts) == Times(turns, old(now), old(tracker.restarts))
        invariant RunSoFar(turns, i, Shown(published), over, status.totalStarts)
                  == Shown(old(published)) + Started(turns, old(status.totalStarts))
        invariant forall j :: 0 <= j < (if over then i - 1 else i) ==> Outcome(turns[j]).None?
        invariant over ==> i > 0 && Outcome(turns[i - 1]) == Some(status.state)
        invariant !status.ended && (over ==> status.state == Stopped || status.state == Failed || status.state == Exited)
        invariant !over ==> status.state != Running && (spawns != [] ==> spawns[|spawns| - 1] + SECOND <= now)
      {
        ghost var was, then_, k := spawns, now, tracker.restarts;
        ghost var shown, total := Shown(published), status.totalStarts;
        over := Once(turns[i]);
        OneTurn(turns, i, was, then_, k, spawns, over, now, tracker.restarts);
        OneTurnShown(turns, i, shown, total, Shown(published), over, status.totalStarts);
        i := i + 1;
      }
      if over {
        Finish();
      }
      AllBegun(turns, i, spawns, over, now, tracker.restarts);
      AllShown(turns, i, Shown(published), over, status.totalStarts);
    }

    method Begin()
      requires Valid() && !status.started && !status.ended
      modifies this`status, this`published
      ensures Valid() && status == old(status).(started := true) && status.state != Running
      ensures Shown(published) == Shown(old(published))
    {
      Publish(status.(started := true));
    }

    method Finish()
      requires Valid() && status.started && (status.state == Stopped || status.state == Failed || status.state == Exited)
      modifies this`status, this`published
      ensures Valid() && status == old(status).(ended := true) && Shown(published) == Shown(old(published))
    {
      Publish(status.(ended := true));
    }

    // The loop goes round: a run more has been counted, and waited for.
    predicate Again(turn: Turn, then_: nat, k: nat)
      reads this, tracker
    {
      tracker.restarts == ShortRuns(turn, k) && now == then_ + Lasted(turn) + Wait(tracker.restarts) + turn.late
    }

    // One turn: a process, and the wait after it; or the end of the loop.
    method Once(turn: Turn) returns (over: bool)
      requires Valid() && status.started && !status.ended && status.state != Running && turn.pid != Some(0)
      requires spawns != [] ==> spawns[|spawns| - 1] + SECOND <= now
      modifies this, tracker
      ensures Valid() && status.started && !status.ended && tracker == old(tracker)
      ensures over ==> status.state == Stopped || status.state == Failed || status.state == Exited
      ensures !over ==> status.state != Running && (spawns != [] ==> spawns[|spawns| - 1] + SECOND <= now)
      ensures Outcome(turn) == (if over then Some(status.state) else None)
      ensures spawns == old(spawns) + if turn.stopped then [] else [old(now)]
      ensures Shown(published) == Shown(old(published)) + OneStarted(turn, old(status.totalStarts))
      ensures status.totalStarts == old(status.totalStarts) + |OneStarted(turn, old(status.totalStarts))|
      ensures !over ==> Again(turn, old(now), old(tracker.restarts))
    {
      hide OneStarted;
      StartedIs(turn, status.totalStarts);
      hide Shown, Consistent, Spaced, Supervisor.Valid, ShortRuns, Wait, Lasted, ShouldRestart, Clean;
      if turn.stopped {
        StopHere();
        return true;
      }
      Try();
      if turn.pid.None? {
        over := NotSpawned(turn);
      } else {
        over := Spawned(turn, turn.pid.value);
      }
    }

    method StopHere()
      requires Valid() && !status.ended
      modifies this`status, this`published
      ensures Valid() && status == old(status).(state := Stopped, pid := 0) && Shown(published) == Shown(old(published))
    {
      Publish(status.(state := Stopped, pid := 0));
    }

    ghost method Try()
      requires Valid() && (spawns != [] ==> spawns[|spawns| - 1] + SECOND <= now)
      modifies this`spawns
      ensures Valid() && spawns == old(spawns) + [now]
    {
      spawns := spawns + [now];
    }

    method NotSpawned(turn: Turn) returns (over: bool)
      requires Valid() && status.started && !status.ended && status.state != Running && spawns != []
        && spawns[|spawns| - 1] <= now && !turn.stopped && turn.pid.None?
      modifies this, tracker
      ensures Valid() && status.started && !status.ended && tracker == old(tracker) && spawns == old(spawns)
      ensures over ==> status.state == Stopped || status.state == Failed || status.state == Exited
      ensures !over ==> status.state != Running && spawns[|spawns| - 1] + SECOND <= now
      ensures Outcome(turn) == (if over then Some(status.state) else None)
      ensures Shown(published) == Shown(old(published)) && status.totalStarts == old(status.totalStarts)
      ensures !over ==> Again(turn, old(now), old(tracker.restarts))
    {
      hide Shown, Spaced;
      Publish(status.(pid := 0));
      if turn.policy != Always {
        Publish(status.(state := Failed));
        return true;
      }
      var wait := tracker.Died(0);
      Publish(status.(state := BackingOff, restarts := tracker.restarts, nextRestart := Some(now + wait)));
      over := WaitOut(turn, wait);
    }

    method Spawned(turn: Turn, pid: nat) returns (over: bool)
      requires Valid() && status.started && !status.ended && pid != 0 && spawns != []
        && spawns[|spawns| - 1] <= now && !turn.stopped && turn.pid == Some(pid)
      modifies this, tracker
      ensures Valid() && status.started && !status.ended && tracker == old(tracker) && spawns == old(spawns)
      ensures over ==> status.state == Stopped || status.state == Failed || status.state == Exited
      ensures !over ==> status.state != Running && spawns[|spawns| - 1] + SECOND <= now
      ensures Outcome(turn) == (if over then Some(status.state) else None)
      ensures Shown(published) == Shown(old(published)) + [(pid, old(status.totalStarts) + 1)]
      ensures status.totalStarts == old(status.totalStarts) + 1
      ensures !over ==> Again(turn, old(now), old(tracker.restarts))
    {
      hide Shown, Spaced;
      Publish(status.(state := Running, pid := pid, totalStarts := status.totalStarts + 1, nextRestart := None));
      now := now + turn.ran;
      var next, wait := BackingOff, 0;
      if turn.stoppedRunning {
        next := Stopped;
      } else if !ShouldRestart(turn.policy, turn.exit) {
        next := if Clean(turn.exit) then Exited else Failed;
      } else {
        wait := tracker.Died(turn.ran);
      }
      if next != BackingOff {
        Publish(status.(hasExited := true, pid := 0, state := next));
        return true;
      }
      Publish(status.(hasExited := true, pid := 0, state := next, restarts := tracker.restarts,
        nextRestart := Some(now + wait)));
      over := WaitOut(turn, wait);
    }

    // Says that it will try again, and waits - or finds that it should not.
    method WaitOut(turn: Turn, wait: nat) returns (over: bool)
      requires Valid() && status.started && !status.ended && status.state == BackingOff && spawns != []
        && spawns[|spawns| - 1] <= now && wait >= SECOND
      modifies this`status, this`published, this`now
      ensures Valid() && status.started && !status.ended
      ensures over ==> status.state == Stopped || status.state == Failed || status.state == Exited
      ensures !over ==> status.state != Running && spawns[|spawns| - 1] + SECOND <= now
      ensures over == (!turn.outputOpen || turn.stoppedWaiting)
      ensures Shown(published) == Shown(old(published)) && status.totalStarts == old(status.totalStarts)
      ensures over ==> status.state == if turn.outputOpen then Stopped else Failed
      ensures !over ==> now == old(now) + wait + turn.late
    {
      hide Shown;
      if !turn.outputOpen {
        Publish(status.(state := Failed, nextRestart := None));
        return true;
      }
      if turn.stoppedWaiting {
        Publish(status.(state := Stopped, nextRestart := None));
        return true;
      }
      now := now + wait + turn.late;
      return false;
    }
  }

  // ---------------------------------------------------------------- how often

  // Moments at least a second apart.
  ghost predicate Spaced(times: seq<nat>) {
    forall i :: 0 < i < |times| ==> times[i - 1] + SECOND <= times[i]
  }

  lemma {:induction false} ApartBySeconds(times: seq<nat>, i: nat, j: nat)
    requires Spaced(times) && i <= j < |times|
    ensures times[i] + (j - i) * SECOND <= times[j]
    decreases j
  {
    if i < j {
      ApartBySeconds(times, i, j - 1);
      assert times[j - 1] + SECOND <= times[j];
    }
  }

  // So a window of t seconds has at most t + 1 of them.
  lemma WindowBound(times: seq<nat>, i: nat, j: nat, t: nat)
    requires Spaced(times) && i <= j < |times| && times[j] - times[i] <= t * SECOND
    ensures j - i + 1 <= t + 1
  {
    ApartBySeconds(times, i, j);
    Scaled(t + 1, j - i);
  }

  lemma Scaled(a: nat, b: nat)
    ensures a <= b ==> a * SECOND <= b * SECOND
  {
  }

  // ---------------------------------------------------------------- watchers

  // Who is told when a status changes: each has a channel with room for one token, so telling never
  // waits and being told twice is being told once.
  class StatusWatchers {
    var chans: map<nat, bool>
    var next: nat

    ghost predicate Valid()
      reads this
    {
      forall i :: i in chans ==> i < next
    }

    constructor ()
      ensures Valid() && chans == map[]
    {
      chans, next := map[], 0;
    }

    method Watch() returns (id: nat)
      requires Valid()
      modifies this
      ensures Valid() && id !in old(chans) && chans == old(chans)[id := false]
    {
      id := next;
      next := next + 1;
      chans := chans[id := false];
    }

    method Notify()
      requires Valid()
      modifies this`chans
      ensures Valid() && chans == map i | i in old(chans) :: true
    {
      var todo := chans.Keys;
      while todo != {}
        invariant todo <= chans.Keys == old(chans).Keys
        invariant forall i :: i in chans ==> chans[i] == (if i in todo then old(chans)[i] else true)
        decreases |todo|
      {
        var i :| i in todo;
        chans := chans[i := true];
        todo := todo - {i};
      }
    }

    method Take(id: nat) returns (token: bool)
      requires Valid() && id in chans
      modifies this`chans
      ensures Valid() && token == old(chans)[id] && chans == old(chans)[id := false]
    {
      token := chans[id];
      chans := chans[id := false];
    }

    method Stop(id: nat)
      requires Valid()
      modifies this`chans
      ensures Valid() && chans == old(chans) - {id}
    {
      chans := chans - {id};
    }
  }
}
