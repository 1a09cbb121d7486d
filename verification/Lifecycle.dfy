/** The supervision protocol: callers that take a service's lock, supervisors that are replaced while
    they are watched, and watchers with room for one token. */
module Lifecycle {
  import opened Vt

  // A supervisor's loop: not started; at its top, with or without its mind made up to spawn; with a
  // process, or one that has ended; waiting to try again; about to end; ended, and then told so; and
  // finished, which is what stopping it waits for.
  datatype Phase = Idle | Top | Spawning | Alive | Dead | Waiting | Ending | Over | Told | Closed

  // A supervisor belongs to a service for good; the service is known by its set of watchers.
  datatype Sup = Sup(service: nat, phase: Phase, cancelled: bool)

  // The loop has begun and has not ended: there may be a process, or may be one again.
  predicate Live(s: Sup) { s.phase != Idle && !Ended(s) }

  predicate Ended(s: Sup) { s.phase == Over || s.phase == Told || s.phase == Closed }

  datatype Op =
    | Add(name: nat, start: bool)
    | Ensure(name: nat)
    | Start(name: nat)
    | Stop(name: nat)
    | Restart(name: nat)
    | Remove(name: nat)
    | Rename(name: nat, to: nat)

  // Where a caller is. It holds its locks from Looking to Unlocking.
  datatype Pc =
    | Locking                              // about to take its first lock
    | LockingSecond                        // and its second
    | Looking                              // about to look its service up
    | Choosing(sup: nat)                   // about to ask whether this one is live
    | Replacing(sup: nat)                  // it is not: about to put another in its place
    | Launching(sup: nat)                  // about to start this one
    | Cancelling(sup: nat, next: Option<nat>)
    | Awaiting(sup: nat, next: Option<nat>)
    | Deleting
    | Moving(sup: nat)
    | Unlocking
    | Done

  datatype Caller = Caller(op: Op, pc: Pc)

  // A watcher: whether its channel has a token, and whether it is about to look its service up, about
  // to read the supervisor it found, blocked on its channel, or satisfied that the service has ended.
  datatype Watching = Seeking | Holding(sup: nat) | Blocked | Satisfied
  datatype Watcher = Watcher(service: nat, token: bool, at: Watching)

  datatype State = State(
    sups: map<nat, nat>,        // by name
    pool: seq<Sup>,             // every supervisor there ever was
    held: map<nat, nat>,        // who has the lock of a name
    callers: seq<Caller>,
    watchers: seq<Watcher>,
    services: nat)              // how many services there ever were

  // ---------------------------------------------------------------- locks

  predicate Both(op: Op) { op.Rename? }

  function FirstLock(op: Op): nat { if op.Rename? then Min(op.name, op.to) else op.name }

  function SecondLock(op: Op): nat
    requires op.Rename?
  {
    Max(op.name, op.to)
  }

  predicate Free(s: State, name: nat) { name !in s.held }

  // ---------------------------------------------------------------- steps

  // What a loop may do next.
  datatype Move = Decide | Spawn | FailToSpawn(again: bool) | Exit | Judge(again: bool) | Retry | GiveUp | Publish | Notify | Close

  datatype Step =
    | Call(op: Op)                      // a new caller
    | Watch(service: nat)               // a new watcher
    | Act(caller: nat, fails: bool)     // a caller's next step; those that touch the disk may fail
    | Loop(sup: nat, move: Move)
    | Stir(service: nat)                // some other change of status, which notifies too
    | Look(watcher: nat)
    | Read(watcher: nat)
    | Take(watcher: nat)

  predicate MoveEnabled(s: Sup, m: Move) {
    match m
    case Decide => s.phase == Top
    case Spawn => s.phase == Spawning
    case FailToSpawn(_) => s.phase == Spawning
    case Exit => s.phase == Alive
    case Judge(again) => s.phase == Dead && (again ==> !s.cancelled)
    case Retry => s.phase == Waiting
    case GiveUp => s.phase == Waiting
    case Publish => s.phase == Ending
    case Notify => s.phase == Over
    case Close => s.phase == Told
  }

  function Moved(s: Sup, m: Move): Sup {
    s.(phase :=
      match m
      case Decide => if s.cancelled then Ending else Spawning
      case Spawn => Alive
      case FailToSpawn(again) => if again then Waiting else Ending
      case Exit => Dead
      case Judge(again) => if again then Waiting else Ending
      case Retry => Top
      case GiveUp => Ending
      case Publish => Over
      case Notify => Told
      case Close => Closed)
  }

  function Woken(ws: seq<Watcher>, service: nat): seq<Watcher> {
    seq(|ws|, i requires 0 <= i < |ws| => if ws[i].service == service then ws[i].(token := true) else ws[i])
  }

  // The supervisor a service has now, if it has one.
  ghost predicate Current(s: State, service: nat, i: nat) {
    i < |s.pool| && i in s.sups.Values && s.pool[i].service == service
  }

  predicate Known(s: State, i: nat) { i < |s.pool| }

  ghost predicate Enabled(s: State, step: Step) {
    match step
    case Call(op) => op.Rename? ==> op.to != op.name
    case Watch(service) => service < s.services
    case Act(c, _) => c < |s.callers| && ActEnabled(s, s.callers[c])
    case Loop(i, m) => Known(s, i) && MoveEnabled(s.pool[i], m)
    case Stir(_) => true
    case Look(w) => w < |s.watchers| && s.watchers[w].at.Seeking?
    case Read(w) => w < |s.watchers| && s.watchers[w].at.Holding? && Known(s, s.watchers[w].at.sup)
    case Take(w) => w < |s.watchers| && s.watchers[w].at.Blocked? && s.watchers[w].token
  }

  predicate ActEnabled(s: State, c: Caller) {
    match c.pc
    case Locking => Free(s, FirstLock(c.op))
    case LockingSecond => c.op.Rename? && Free(s, SecondLock(c.op))
    case Looking => true
    case Choosing(i) => Known(s, i)
    case Replacing(i) => Known(s, i)
    case Launching(i) => Known(s, i)
    case Cancelling(i, _) => Known(s, i)
    case Awaiting(i, _) => Known(s, i) && (s.pool[i].phase == Closed || s.pool[i].phase == Idle)
    case Deleting => true
    case Moving(_) => c.op.Rename?
    case Unlocking => true
    case Done => false
  }

  function At(s: State, c: nat, pc: Pc): State
    requires c < |s.callers|
  {
    s.(callers := s.callers[c := s.callers[c].(pc := pc)])
  }

  // A fresh supervisor of a service, under a name.
  function Installed(s: State, name: nat, service: nat): State {
    s.(pool := s.pool + [Sup(service, Idle, false)], sups := s.sups[name := |s.pool|])
  }

  // A caller's next step. Looking covers what is looked up, refused or found to be there already.
  function Acted(s: State, c: nat, fails: bool): State
    requires c < |s.callers| && ActEnabled(s, s.callers[c])
  {
    var op, pc := s.callers[c].op, s.callers[c].pc;
    match pc
    case Locking =>
      At(s.(held := s.held[FirstLock(op) := c]), c, if Both(op) then LockingSecond else Looking)
    case LockingSecond => At(s.(held := s.held[SecondLock(op) := c]), c, Looking)
    case Looking => if fails then At(s, c, Unlocking) else Looked(s, c)
    case Choosing(i) => At(s, c, if Live(s.pool[i]) then Launching(i) else Replacing(i))
    case Replacing(i) => At(Installed(s, op.name, s.pool[i].service), c, Launching(|s.pool|))
    case Launching(i) =>
      if fails || s.pool[i].phase != Idle then At(s, c, Unlocking)
      else At(s.(pool := s.pool[i := s.pool[i].(phase := Top)]), c, Unlocking)
    case Cancelling(i, next) =>
      At(s.(pool := s.pool[i := s.pool[i].(cancelled := s.pool[i].phase != Idle)]), c, Awaiting(i, next))
    case Awaiting(i, next) =>
      At(s, c, if op.Remove? then Deleting else if next.Some? then Launching(next.value) else Unlocking)
    case Deleting => At(s.(sups := s.sups - {op.name}), c, Unlocking)
    case Moving(i) => At(s.(sups := (s.sups - {op.name})[op.to := i]), c, Unlocking)
    case Unlocking => At(s.(held := map n | n in s.held && s.held[n] != c :: s.held[n]), c, Done)
  }

  function Looked(s: State, c: nat): State
    requires c < |s.callers|
  {
    var op := s.callers[c].op;
    match op
    case Add(n, start) =>
      if n in s.sups then At(s, c, if start then Choosing(s.sups[n]) else Unlocking)
      else At(Installed(s, n, s.services).(services := s.services + 1), c, if start then Choosing(|s.pool|) else Unlocking)
    case Ensure(n) =>
      if n in s.sups then At(s, c, Choosing(s.sups[n]))
      else At(Installed(s, n, s.services).(services := s.services + 1), c, Choosing(|s.pool|))
    case Start(n) => At(s, c, if n in s.sups then Choosing(s.sups[n]) else Unlocking)
    case Stop(n) => At(s, c, if n in s.sups then Cancelling(s.sups[n], None) else Unlocking)
    case Remove(n) => At(s, c, if n in s.sups then Cancelling(s.sups[n], None) else Unlocking)
    case Restart(n) =>
      if n !in s.sups || s.sups[n] >= |s.pool| then At(s, c, Unlocking)
      else At(Installed(s, n, s.pool[s.sups[n]].service), c, Cancelling(s.sups[n], Some(|s.pool|)))
    case Rename(n, to) => At(s, c, if n in s.sups && to !in s.sups then Moving(s.sups[n]) else Unlocking)
  }

  // The supervisor a watcher finds. A service has at most one; a watcher of one that has none is told
  // that it is gone.
  ghost function Found(s: State, service: nat): Option<nat> {
    if exists i: nat :: Current(s, service, i) then var i: nat :| Current(s, service, i); Some(i) else None
  }

  ghost function Next(s: State, step: Step): State
    requires Enabled(s, step)
  {
    match step
    case Call(op) => s.(callers := s.callers + [Caller(op, Locking)])
    case Watch(service) => s.(watchers := s.watchers + [Watcher(service, false, Seeking)])
    case Act(c, fails) => Acted(s, c, fails)
    case Loop(i, m) =>
      s.(pool := s.pool[i := Moved(s.pool[i], m)],
         watchers := if m == Notify then Woken(s.watchers, s.pool[i].service) else s.watchers)
    case Stir(service) => s.(watchers := Woken(s.watchers, service))
    case Look(w) =>
      var found := Found(s, s.watchers[w].service);
      s.(watchers := s.watchers[w := s.watchers[w].(at := if found.Some? then Holding(found.value) else Satisfied)])
    case Read(w) =>
      s.(watchers := s.watchers[w := s.watchers[w].(at := if Ended(s.pool[s.watchers[w].at.sup]) then Satisfied else Blocked)])
    case Take(w) => s.(watchers := s.watchers[w := s.watchers[w].(token := false, at := Seeking)])
  }

  function Names(k: nat): map<nat, nat> { if k == 0 then map[] else Names(k - 1)[k - 1 := k - 1] }

  lemma {:induction false} NamesAre(k: nat)
    ensures forall n :: n in Names(k) <==> 0 <= n < k
    ensures forall n :: n in Names(k) ==> Names(k)[n] == n
  {
    if k > 0 {
      NamesAre(k - 1);
    }
  }

  // The services that are there at the beginning, each under its own number: those that have a process
  // already, taken over from an earlier daemon, and those that have none.
  function Initial(running: seq<bool>): State {
    State(Names(|running|),
          seq(|running|, i requires 0 <= i < |running| => Sup(i, if running[i] then Alive else Idle, false)),
          map[], [], [], |running|)
  }

  ghost predicate Runs(s: State, steps: seq<Step>)
    decreases |steps|
  {
    steps == [] || (Enabled(s, steps[0]) && Runs(Next(s, steps[0]), steps[1..]))
  }

  ghost function After(s: State, steps: seq<Step>): State
    requires Runs(s, steps)
    decreases |steps|
  {
    if steps == [] then s else After(Next(s, steps[0]), steps[1..])
  }

  // ---------------------------------------------------------------- what is always true

  // Names lead to supervisors, of different services.
  ghost predicate Named(s: State) {
    && (forall n :: n in s.sups ==> s.sups[n] < |s.pool|)
    && (forall i :: 0 <= i < |s.pool| ==> s.pool[i].service < s.services)
    && (forall n, m :: n in s.sups && m in s.sups && n != m && s.sups[n] < |s.pool| && s.sups[m] < |s.pool|
          ==> s.pool[s.sups[n]].service != s.pool[s.sups[m]].service)
  }

  // A caller has this name's lock.
  predicate Holds(c: Caller, n: nat) {
    match c.pc
    case Locking => false
    case Done => false
    case LockingSecond => n == FirstLock(c.op)
    case _ => n == c.op.name || (c.op.Rename? && n == c.op.to)
  }

  ghost predicate Locked(s: State) {
    && (forall n :: n in s.held ==> s.held[n] < |s.callers| && Holds(s.callers[s.held[n]], n))
    && (forall c, n: nat :: 0 <= c < |s.callers| && Holds(s.callers[c], n) ==> n in s.held && s.held[n] == c)
    && (forall c :: 0 <= c < |s.callers| ==> (s.callers[c].op.Rename? ==> s.callers[c].op.name != s.callers[c].op.to))
    && (forall c :: 0 <= c < |s.callers| && s.callers[c].pc.LockingSecond? ==> s.callers[c].op.Rename?)
  }

  // A name leads to this supervisor.
  ghost predicate Leads(s: State, n: nat, i: nat) { n in s.sups && s.sups[n] == i && i < |s.pool| }

  // The successor a restart has put in place: it has not run.
  ghost predicate Replaced(s: State, n: nat, i: nat, f: nat) {
    Leads(s, n, f) && i < |s.pool| && i != f && s.pool[f].phase == Idle && s.pool[i].service == s.pool[f].service
  }

  // What a caller knows where it is.
  ghost predicate Aware(s: State, c: Caller) {
    match c.pc
    case Choosing(i) => Leads(s, c.op.name, i) && !c.op.Rename? && !c.op.Restart?
    case Replacing(i) => Leads(s, c.op.name, i) && !Live(s.pool[i]) && !c.op.Rename? && !c.op.Restart?
    case Launching(i) => Leads(s, c.op.name, i) && !c.op.Rename? && (c.op.Restart? ==> s.pool[i].phase == Idle)
    case Cancelling(i, None) => Leads(s, c.op.name, i) && (c.op.Stop? || c.op.Remove?)
    case Cancelling(i, Some(f)) => Replaced(s, c.op.name, i, f) && c.op.Restart?
    case Awaiting(i, None) => Leads(s, c.op.name, i) && (c.op.Stop? || c.op.Remove?)
    case Awaiting(i, Some(f)) => Replaced(s, c.op.name, i, f) && c.op.Restart?
    case Deleting => c.op.Remove? && (c.op.name in s.sups ==> Known(s, s.sups[c.op.name]) && !Live(s.pool[s.sups[c.op.name]]))
    case Moving(i) => c.op.Rename? && Leads(s, c.op.name, i) && c.op.to !in s.sups
    case _ => true
  }

  // This caller is a restart that is stopping this supervisor.
  ghost predicate Retiring(c: Caller, i: nat) {
    c.op.Restart? && ((c.pc.Cancelling? && c.pc.sup == i && c.pc.next.Some?) || (c.pc.Awaiting? && c.pc.sup == i
      && c.pc.next.Some?))
  }

  // Nothing that may have a process is out of reach.
  ghost predicate Reached(s: State, i: nat) {
    (exists n :: Leads(s, n, i)) || (exists c :: 0 <= c < |s.callers| && Retiring(s.callers[c], i))
  }

  ghost predicate Inv(s: State) {
    && Named(s) && Locked(s)
    && (forall c :: 0 <= c < |s.callers| ==> Aware(s, s.callers[c]))
    && (forall i :: 0 <= i < |s.pool| && Live(s.pool[i]) ==> Reached(s, i))
  }

  // ---------------------------------------------------------------- one process, within reach

  // Two supervisors of one service are never both live, so there is at most one process of it; and a
  // live one has the service's name, or is the one that a restart with the name's lock is stopping.
  lemma OneProcess(s: State, i: nat, j: nat)
    requires Inv(s) && i < |s.pool| && j < |s.pool| && i != j && Live(s.pool[i]) && Live(s.pool[j])
    ensures s.pool[i].service != s.pool[j].service
  {
    if s.pool[i].service == s.pool[j].service {
      var n, f := Place(s, i);
      var m, g := Place(s, j);
      assert false;
    }
  }

  // The name and the supervisor under it by which a live one is reached.
  lemma Place(s: State, i: nat) returns (n: nat, f: nat)
    requires Inv(s) && i < |s.pool| && Live(s.pool[i])
    ensures Leads(s, n, f) && s.pool[f].service == s.pool[i].service
    ensures f == i || (s.pool[f].phase == Idle && n in s.held && s.held[n] < |s.callers|
      && Retiring(s.callers[s.held[n]], i) && s.callers[s.held[n]].op.name == n)
  {
    assert Reached(s, i);
    if n0 :| Leads(s, n0, i) {
      return n0, i;
    } else {
      var c :| 0 <= c < |s.callers| && Retiring(s.callers[c], i);
      assert Aware(s, s.callers[c]);
      n, f := s.callers[c].op.name, s.callers[c].pc.next.value;
      assert Holds(s.callers[c], n);
    }
  }

  // ---------------------------------------------------------------- every step keeps it

  lemma {:induction false} InitialInv(running: seq<bool>)
    ensures Inv(Initial(running))
  {
    var s := Initial(running);
    NamesAre(|running|);
    forall i | 0 <= i < |s.pool| && Live(s.pool[i])
      ensures Reached(s, i)
    {
      assert Leads(s, i, i);
    }
  }

  // A supervisor's own moves neither bring a loop to life nor change whose it is.
  lemma MovedStays(x: Sup, m: Move)
    requires MoveEnabled(x, m)
    ensures Moved(x, m).service == x.service && (Live(Moved(x, m)) ==> Live(x)) && x.phase != Idle && Moved(x, m).phase != Idle
  {
  }

  lemma {:induction false} LoopKeeps(s: State, i: nat, m: Move)
    requires Inv(s) && Enabled(s, Loop(i, m))
    ensures Inv(Next(s, Loop(i, m)))
  {
    hide Live, Moved, MoveEnabled;
    var s' := Next(s, Loop(i, m));
    MovedStays(s.pool[i], m);
    assert Named(s');
    forall c | 0 <= c < |s'.callers|
      ensures Aware(s', s'.callers[c])
    {
      assert Aware(s, s.callers[c]);
    }
    forall k | 0 <= k < |s'.pool| && Live(s'.pool[k])
      ensures Reached(s', k)
    {
      assert Reached(s, k);
      ReachedStays(s, s', k);
    }
  }

  // Who reaches what depends on the names, the callers and the number of supervisors.
  lemma {:induction false} ReachedStays(s: State, s': State, k: nat)
    requires Reached(s, k) && s'.sups == s.sups && s'.callers == s.callers && |s'.pool| >= |s.pool|
    ensures Reached(s', k)
  {
    if n :| Leads(s, n, k) {
      assert Leads(s', n, k);
    } else {
      var c :| 0 <= c < |s.callers| && Retiring(s.callers[c], k);
      assert Retiring(s'.callers[c], k);
    }
  }

  lemma {:induction false} WatchersApart(s: State, ws: seq<Watcher>)
    requires Inv(s)
    ensures Inv(s.(watchers := ws))
  {
    var s' := s.(watchers := ws);
    forall c | 0 <= c < |s'.callers|
      ensures Aware(s', s'.callers[c])
    {
      assert Aware(s, s.callers[c]);
    }
    forall k | 0 <= k < |s'.pool| && Live(s'.pool[k])
      ensures Reached(s', k)
    {
      ReachedStays(s, s', k);
    }
  }

  lemma {:induction false} CallKeeps(s: State, op: Op)
    requires Inv(s) && Enabled(s, Call(op))
    ensures Inv(Next(s, Call(op)))
  {
    var s' := Next(s, Call(op));
    forall c | 0 <= c < |s'.callers|
      ensures Aware(s', s'.callers[c])
    {
      if c < |s.callers| {
        assert Aware(s, s.callers[c]);
      }
    }
    forall k | 0 <= k < |s'.pool| && Live(s'.pool[k])
      ensures Reached(s', k)
    {
      assert Reached(s, k);
      if n :| Leads(s, n, k) {
        assert Leads(s', n, k);
      } else {
        var c :| 0 <= c < |s.callers| && Retiring(s.callers[c], k);
        assert Retiring(s'.callers[c], k);
      }
    }
  }

  // Two callers never have the same name's lock.
  lemma {:induction false} Exclusive(s: State, c: nat, d: nat, n: nat)
    requires Locked(s) && c < |s.callers| && d < |s.callers| && Holds(s.callers[c], n) && Holds(s.callers[d], n)
    ensures c == d
  {
    assert s.held[n] == c;
  }

  // What a caller's names lead to is as it was.
  ghost predicate SameFor(s: State, s': State, c: Caller) {
    && |s'.pool| >= |s.pool| && (forall k :: 0 <= k < |s.pool| ==> s'.pool[k].service == s.pool[k].service)
    && forall n :: Holds(c, n) ==>
         && (n in s'.sups <==> n in s.sups)
         && (n in s.sups ==> s'.sups[n] == s.sups[n] && (s.sups[n] < |s.pool| ==> s'.pool[s.sups[n]].phase == s.pool[s.sups[n]].phase))
  }

  lemma {:induction false} AwareStays(s: State, s': State, c: Caller)
    requires Aware(s, c) && SameFor(s, s', c)
    ensures Aware(s', c)
  {
    if !c.pc.Locking? && !c.pc.Done? && !c.pc.LockingSecond? {
      assert Holds(c, c.op.name);
      assert c.op.Rename? ==> Holds(c, c.op.to);
      match c.pc {
        case Deleting => assert c.op.name in s'.sups ==> Known(s', s'.sups[c.op.name]);
        case Cancelling(i, next) => assert Leads(s, c.op.name, if next.Some? then next.value else i);
        case Awaiting(i, next) => assert Leads(s, c.op.name, if next.Some? then next.value else i);
        case _ =>
      }
    }
  }

  // A supervisor that was reached by a name, or by another caller, still is.
  lemma {:induction false} StillReached(s: State, s': State, c: nat, k: nat)
    requires Reached(s, k) && c < |s.callers| && |s'.callers| == |s.callers| && |s'.pool| >= |s.pool|
    requires forall d :: 0 <= d < |s.callers| && d != c ==> s'.callers[d] == s.callers[d]
    requires Retiring(s.callers[c], k) ==> Retiring(s'.callers[c], k)
    requires forall n :: Leads(s, n, k) ==> Leads(s', n, k)
    ensures Reached(s', k)
  {
    if n :| Leads(s, n, k) {
      assert Leads(s', n, k);
    } else {
      var d :| 0 <= d < |s.callers| && Retiring(s.callers[d], k);
      assert Retiring(s'.callers[d], k);
    }
  }

  // A step of one caller: the others are where they were, and so is all that their locks keep.
  ghost predicate OwnStep(s: State, s': State, c: nat) {
    && c < |s.callers| && |s'.callers| == |s.callers| && s'.callers[c].op == s.callers[c].op
    && (forall d :: 0 <= d < |s.callers| && d != c ==> s'.callers[d] == s.callers[d])
    && (forall d :: 0 <= d < |s.callers| && d != c ==> SameFor(s, s', s.callers[d]))
  }

  lemma {:induction false} OthersAware(s: State, s': State, c: nat)
    requires Inv(s) && OwnStep(s, s', c) && Aware(s', s'.callers[c])
    ensures forall d :: 0 <= d < |s'.callers| ==> Aware(s', s'.callers[d])
  {
    forall d | 0 <= d < |s'.callers|
      ensures Aware(s', s'.callers[d])
    {
      if d != c {
        assert Aware(s, s.callers[d]);
        AwareStays(s, s', s.callers[d]);
      }
    }
  }

  // A caller that keeps its locks and moves on.
  lemma {:induction false} PcKeeps(s: State, c: nat, pc: Pc)
    requires Inv(s) && c < |s.callers| && Aware(s, s.callers[c].(pc := pc))
    requires forall n :: Holds(s.callers[c].(pc := pc), n) <==> Holds(s.callers[c], n)
    requires pc.LockingSecond? ==> s.callers[c].op.Rename?
    requires forall k :: 0 <= k < |s.pool| && Live(s.pool[k]) && Retiring(s.callers[c], k) ==> Retiring(s.callers[c].(pc := pc), k)
    ensures Inv(At(s, c, pc))
  {
    hide Live, Holds;
    var s' := At(s, c, pc);
    LockedAfter(s, c, pc);
    AwareAfter(s, c, pc);
    forall k | 0 <= k < |s'.pool| && Live(s'.pool[k])
      ensures Reached(s', k)
    {
      assert Reached(s, k);
      StillReached(s, s', c, k);
    }
  }

  lemma {:induction false} LockedAfter(s: State, c: nat, pc: Pc)
    requires Locked(s) && c < |s.callers|
    requires forall n :: Holds(s.callers[c].(pc := pc), n) <==> Holds(s.callers[c], n)
    requires pc.LockingSecond? ==> s.callers[c].op.Rename?
    ensures Locked(At(s, c, pc))
  {
    hide Holds;
  }

  lemma {:induction false} AwareAfter(s: State, c: nat, pc: Pc)
    requires Inv(s) && c < |s.callers| && Aware(s, s.callers[c].(pc := pc))
    ensures forall d :: 0 <= d < |s.callers| ==> Aware(At(s, c, pc), At(s, c, pc).callers[d])
  {
    var s' := At(s, c, pc);
    forall d | 0 <= d < |s.callers|
      ensures Aware(s', s'.callers[d])
    {
      if d != c {
        assert Aware(s, s.callers[d]);
      }
      SameAware(s, s', s'.callers[d]);
    }
  }

  lemma {:induction false} SameAware(s: State, s': State, c: Caller)
    requires s'.sups == s.sups && s'.pool == s.pool
    ensures Aware(s', c) <==> Aware(s, c)
  {
  }

  // ---------------------------------------------------------------- taking and leaving locks

  lemma {:induction false} LockKeeps(s: State, c: nat, n: nat, pc: Pc)
    requires Inv(s) && c < |s.callers| && Free(s, n) && (pc.Looking? || pc.LockingSecond?)
    requires s.callers[c].pc.Locking? || s.callers[c].pc.LockingSecond?
    requires pc.LockingSecond? ==> s.callers[c].op.Rename?
    requires forall m :: Holds(s.callers[c].(pc := pc), m) <==> Holds(s.callers[c], m) || m == n
    ensures Inv(At(s.(held := s.held[n := c]), c, pc))
  {
    hide Live, Holds;
    var s1 := s.(held := s.held[n := c]);
    var s' := At(s1, c, pc);
    LockedMore(s, c, n, pc);
    forall d | 0 <= d < |s'.callers|
      ensures Aware(s', s'.callers[d])
    {
      if d != c {
        assert Aware(s, s.callers[d]);
        SameAware(s, s', s.callers[d]);
      }
    }
    forall k | 0 <= k < |s'.pool| && Live(s'.pool[k])
      ensures Reached(s', k)
    {
      assert Reached(s, k);
      StillReached(s, s', c, k);
    }
  }

  lemma {:induction false} LockedMore(s: State, c: nat, n: nat, pc: Pc)
    requires Locked(s) && c < |s.callers| && Free(s, n) && (pc.LockingSecond? ==> s.callers[c].op.Rename?)
    requires forall m :: Holds(s.callers[c].(pc := pc), m) <==> Holds(s.callers[c], m) || m == n
    ensures Locked(At(s.(held := s.held[n := c]), c, pc))
  {
    hide Holds;
  }

  lemma {:induction false} UnlockKeeps(s: State, c: nat)
    requires Inv(s) && c < |s.callers| && s.callers[c].pc.Unlocking?
    ensures Inv(Acted(s, c, false)) && Acted(s, c, true) == Acted(s, c, false)
  {
    hide Live, Holds;
    var s' := Acted(s, c, false);
    LockedLess(s, c);
    forall d | 0 <= d < |s'.callers|
      ensures Aware(s', s'.callers[d])
    {
      if d != c {
        assert Aware(s, s.callers[d]);
        SameAware(s, s', s.callers[d]);
      }
    }
    forall k | 0 <= k < |s'.pool| && Live(s'.pool[k])
      ensures Reached(s', k)
    {
      assert Reached(s, k);
      StillReached(s, s', c, k);
    }
  }

  lemma {:induction false} LockedLess(s: State, c: nat)
    requires Locked(s) && c < |s.callers|
    ensures Locked(At(s.(held := map n | n in s.held && s.held[n] != c :: s.held[n]), c, Done))
  {
  }

  // ---------------------------------------------------------------- changing what names lead to

  // A fresh supervisor put in place by a caller that has the name's lock, for a service no other name
  // leads to; whatever the name led to before is not live, or is being retired by the caller.
  lemma {:induction false} InstallKeeps(s: State, c: nat, n: nat, service: nat, services: nat, pc: Pc)
    requires Inv(s) && c < |s.callers| && Holds(s.callers[c], n) && service < services && s.services <= services
    requires forall m :: m in s.sups && m != n ==> s.pool[s.sups[m]].service != service
    requires forall m :: Holds(s.callers[c].(pc := pc), m) <==> Holds(s.callers[c], m)
    requires s.callers[c].pc.Looking? || s.callers[c].pc.Replacing?
    requires !pc.LockingSecond? && !pc.Locking? && !pc.Done?
    requires n in s.sups && Live(s.pool[s.sups[n]]) ==> Retiring(s.callers[c].(pc := pc), s.sups[n])
    requires Aware(Installed(s, n, service), s.callers[c].(pc := pc))
    ensures Inv(At(Installed(s, n, service).(services := services), c, pc))
  {
    hide Live, Holds, Retiring, Reached, Aware;
    var s1 := Installed(s, n, service).(services := services);
    var s' := At(s1, c, pc);
    LockedAfter(s1, c, pc);
    NamedMore(s, n, service, services);
    InstalledAware(s, s', c, n, service, services, pc);
    InstalledReached(s, s', c, n);
  }

  lemma {:induction false} InstalledAware(s: State, s': State, c: nat, n: nat, service: nat, services: nat, pc: Pc)
    requires Inv(s) && c < |s.callers| && Holds(s.callers[c], n)
    requires s' == At(Installed(s, n, service).(services := services), c, pc)
    requires Aware(Installed(s, n, service), s.callers[c].(pc := pc))
    ensures forall d :: 0 <= d < |s'.callers| ==> Aware(s', s'.callers[d])
  {
    hide Live, Holds, Retiring, Reached, Named, Locked;
    SameAware(Installed(s, n, service), s', s'.callers[c]);
    InstalledApart(s, s', c, n);
    OthersAware(s, s', c);
  }

  lemma {:induction false} InstalledApart(s: State, s': State, c: nat, n: nat)
    requires Inv(s) && c < |s.callers| && Holds(s.callers[c], n) && |s'.pool| >= |s.pool| && s'.pool[..|s.pool|] == s.pool
    requires forall m :: m != n ==> (m in s'.sups <==> m in s.sups) && (m in s.sups ==> s'.sups[m] == s.sups[m])
    ensures forall d :: 0 <= d < |s.callers| && d != c ==> SameFor(s, s', s.callers[d])
  {
    hide Holds, Aware, Live;
    assert forall k :: 0 <= k < |s.pool| ==> s'.pool[k] == s.pool[k];
    forall d | 0 <= d < |s.callers| && d != c
      ensures SameFor(s, s', s.callers[d])
    {
      OthersLock(s, c, d, n);
    }
  }

  lemma {:induction false} InstalledReached(s: State, s': State, c: nat, n: nat)
    requires Inv(s) && c < |s.callers| && |s'.callers| == |s.callers| && |s'.pool| == |s.pool| + 1
    requires s'.pool[..|s.pool|] == s.pool && s'.pool[|s.pool|].phase == Idle
    requires forall d :: 0 <= d < |s.callers| && d != c ==> s'.callers[d] == s.callers[d]
    requires s.callers[c].pc.Looking? || s.callers[c].pc.Replacing?
    requires forall m :: m != n && m in s.sups ==> m in s'.sups && s'.sups[m] == s.sups[m]
    requires n in s.sups && Live(s.pool[s.sups[n]]) ==> Retiring(s'.callers[c], s.sups[n])
    ensures forall k :: 0 <= k < |s'.pool| && Live(s'.pool[k]) ==> Reached(s', k)
  {
    hide Live, Holds, Aware;
    forall k | 0 <= k < |s'.pool| && Live(s'.pool[k])
      ensures Reached(s', k)
    {
      if k < |s.pool| {
        assert s'.pool[k] == s.pool[k];
        assert Reached(s, k);
        InstalledReach(s, s', c, n, k);
      } else {
        IdleNotLive(s'.pool[k]);
      }
    }
  }

  lemma IdleNotLive(x: Sup)
    requires x.phase == Idle
    ensures !Live(x)
  {
  }

  lemma {:induction false} InstalledReach(s: State, s': State, c: nat, n: nat, k: nat)
    requires Reached(s, k) && c < |s.callers| && |s'.callers| == |s.callers| && |s'.pool| >= |s.pool| && k < |s.pool|
    requires forall d :: 0 <= d < |s.callers| && d != c ==> s'.callers[d] == s.callers[d]
    requires !Retiring(s.callers[c], k)
    requires forall m :: m != n && m in s.sups ==> m in s'.sups && s'.sups[m] == s.sups[m]
    requires n in s.sups && s.sups[n] == k ==> Retiring(s'.callers[c], k)
    ensures Reached(s', k)
  {
    if n in s.sups && s.sups[n] == k {
      assert Retiring(s'.callers[c], k);
    } else {
      StillReached(s, s', c, k);
    }
  }

  lemma {:induction false} NamedMore(s: State, n: nat, service: nat, services: nat)
    requires Named(s) && service < services && s.services <= services
    requires forall m :: m in s.sups && m != n ==> s.pool[s.sups[m]].service != service
    ensures Named(Installed(s, n, service).(services := services))
  {
  }

  lemma {:induction false} OthersLock(s: State, c: nat, d: nat, n: nat)
    requires Locked(s) && c < |s.callers| && d < |s.callers| && c != d && Holds(s.callers[c], n)
    ensures !Holds(s.callers[d], n)
  {
    if Holds(s.callers[d], n) {
      Exclusive(s, c, d, n);
    }
  }

  // The supervisor a caller's name leads to begins its loop.
  lemma {:induction false} LaunchKeeps(s: State, c: nat, i: nat)
    requires Inv(s) && c < |s.callers| && s.callers[c].pc == Launching(i) && Known(s, i) && s.pool[i].phase == Idle
    ensures Inv(At(s.(pool := s.pool[i := s.pool[i].(phase := Top)]), c, Unlocking))
  {
    hide Live, Holds;
    var n := s.callers[c].op.name;
    assert Aware(s, s.callers[c]);
    var s1 := s.(pool := s.pool[i := s.pool[i].(phase := Top)]);
    var s' := At(s1, c, Unlocking);
    SameLocks(s.callers[c], Unlocking);
    LockedAfter(s1, c, Unlocking);
    forall d | 0 <= d < |s.callers| && d != c
      ensures SameFor(s, s', s.callers[d])
    {
      OthersLock(s, c, d, n);
    }
    OthersAware(s, s', c);
    forall k | 0 <= k < |s'.pool| && Live(s'.pool[k])
      ensures Reached(s', k)
    {
      if k == i {
        assert Leads(s', n, i);
      } else {
        assert Reached(s, k);
        StillReached(s, s', c, k);
      }
    }
  }

  // From where it looks to where it lets go, a caller has the same locks.
  lemma SameLocks(c: Caller, pc: Pc)
    requires !c.pc.Locking? && !c.pc.LockingSecond? && !c.pc.Done? && !pc.Locking? && !pc.LockingSecond? && !pc.Done?
    ensures forall n :: Holds(c.(pc := pc), n) <==> Holds(c, n)
    ensures Holds(c, c.op.name) && (c.op.Rename? ==> Holds(c, c.op.to))
  {
  }

  lemma {:induction false} CancelKeeps(s: State, c: nat, i: nat, next: Option<nat>)
    requires Inv(s) && c < |s.callers| && s.callers[c].pc == Cancelling(i, next) && Known(s, i)
    ensures Inv(At(s.(pool := s.pool[i := s.pool[i].(cancelled := s.pool[i].phase != Idle)]), c, Awaiting(i, next)))
  {
    hide Live, Holds;
    var x := s.pool[i].(cancelled := s.pool[i].phase != Idle);
    var s1 := s.(pool := s.pool[i := x]);
    var s' := At(s1, c, Awaiting(i, next));
    SameLocks(s.callers[c], Awaiting(i, next));
    LockedAfter(s1, c, Awaiting(i, next));
    assert Aware(s, s.callers[c]);
    OthersAware(s, s', c);
    forall k | 0 <= k < |s'.pool| && Live(s'.pool[k])
      ensures Reached(s', k)
    {
      CancelLives(s.pool[i], x);
      assert Reached(s, k);
      StillReached(s, s', c, k);
    }
  }

  lemma CancelLives(x: Sup, y: Sup)
    requires y.phase == x.phase
    ensures Live(y) == Live(x)
  {
  }

  lemma {:induction false} DeleteKeeps(s: State, c: nat)
    requires Inv(s) && c < |s.callers| && s.callers[c].pc == Deleting
    ensures Inv(At(s.(sups := s.sups - {s.callers[c].op.name}), c, Unlocking))
  {
    hide Live, Holds;
    var n := s.callers[c].op.name;
    var s1 := s.(sups := s.sups - {n});
    var s' := At(s1, c, Unlocking);
    SameLocks(s.callers[c], Unlocking);
    LockedAfter(s1, c, Unlocking);
    assert Aware(s, s.callers[c]);
    forall d | 0 <= d < |s.callers| && d != c
      ensures SameFor(s, s', s.callers[d])
    {
      OthersLock(s, c, d, n);
    }
    OthersAware(s, s', c);
    DeletedReached(s, s', c);
  }

  lemma {:induction false} DeletedReached(s: State, s': State, c: nat)
    requires Inv(s) && c < |s.callers| && s.callers[c].pc == Deleting
    requires s' == At(s.(sups := s.sups - {s.callers[c].op.name}), c, Unlocking)
    ensures forall k :: 0 <= k < |s'.pool| && Live(s'.pool[k]) ==> Reached(s', k)
  {
    hide Live, Holds;
    assert Aware(s, s.callers[c]);
    forall k | 0 <= k < |s'.pool| && Live(s'.pool[k])
      ensures Reached(s', k)
    {
      assert Reached(s, k);
      StillReached(s, s', c, k);
    }
  }

  lemma {:induction false} MoveKeeps(s: State, c: nat, i: nat)
    requires Inv(s) && c < |s.callers| && s.callers[c].pc == Moving(i) && s.callers[c].op.Rename?
    ensures Inv(At(s.(sups := (s.sups - {s.callers[c].op.name})[s.callers[c].op.to := i]), c, Unlocking))
  {
    hide Live, Holds;
    var n, to := s.callers[c].op.name, s.callers[c].op.to;
    var s1 := s.(sups := (s.sups - {n})[to := i]);
    var s' := At(s1, c, Unlocking);
    SameLocks(s.callers[c], Unlocking);
    LockedAfter(s1, c, Unlocking);
    assert Aware(s, s.callers[c]);
    forall d | 0 <= d < |s.callers| && d != c
      ensures SameFor(s, s', s.callers[d])
    {
      OthersLock(s, c, d, n);
      OthersLock(s, c, d, to);
    }
    OthersAware(s, s', c);
    forall k | 0 <= k < |s'.pool| && Live(s'.pool[k])
      ensures Reached(s', k)
    {
      assert Reached(s, k);
      if k == i {
        assert Leads(s', to, i);
      } else {
        StillReached(s, s', c, k);
      }
    }
  }

  // ---------------------------------------------------------------- a caller's step

  lemma {:induction false} LookKeeps(s: State, c: nat)
    requires Inv(s) && c < |s.callers| && s.callers[c].pc.Looking?
    ensures Inv(Looked(s, c))
  {
    hide Inv, Live, Holds;
    var op := s.callers[c].op;
    if op.Restart? && op.name in s.sups {
      RestartKeeps(s, c);
    } else if (op.Add? || op.Ensure?) && op.name !in s.sups {
      AddKeeps(s, c);
    } else {
      FindKeeps(s, c);
    }
  }

  lemma {:induction false} RestartKeeps(s: State, c: nat)
    requires Inv(s) && c < |s.callers| && s.callers[c].pc.Looking? && s.callers[c].op.Restart? && s.callers[c].op.name in s.sups
    ensures Inv(Looked(s, c))
  {
    hide Live, Holds, Locked;
    var n := s.callers[c].op.name;
    var i := s.sups[n];
    var pc := Cancelling(i, Some(|s.pool|));
    SameLocks(s.callers[c], pc);
    assert Replaced(Installed(s, n, s.pool[i].service), n, i, |s.pool|);
    InstallKeeps(s, c, n, s.pool[i].service, s.services, pc);
  }

  lemma {:induction false} AddKeeps(s: State, c: nat)
    requires Inv(s) && c < |s.callers| && s.callers[c].pc.Looking? && (s.callers[c].op.Add? || s.callers[c].op.Ensure?)
    requires s.callers[c].op.name !in s.sups
    ensures Inv(Looked(s, c))
  {
    hide Live, Holds, Locked;
    var n := s.callers[c].op.name;
    var pc := if s.callers[c].op.Add? && !s.callers[c].op.start then Unlocking else Choosing(|s.pool|);
    SameLocks(s.callers[c], pc);
    assert Leads(Installed(s, n, s.services), n, |s.pool|);
    InstallKeeps(s, c, n, s.services, s.services + 1, pc);
  }

  lemma {:induction false} FindKeeps(s: State, c: nat)
    requires Inv(s) && c < |s.callers| && s.callers[c].pc.Looking?
    requires s.callers[c].op.name in s.sups ==> !s.callers[c].op.Restart?
    requires s.callers[c].op.name !in s.sups ==> !s.callers[c].op.Add? && !s.callers[c].op.Ensure?
    ensures Inv(Looked(s, c))
  {
    hide Live, Holds, Locked;
    var s' := Looked(s, c);
    var pc := s'.callers[c].pc;
    assert s' == At(s, c, pc);
    SameLocks(s.callers[c], pc);
    PcKeeps(s, c, pc);
  }

  lemma {:induction false} ActKeeps(s: State, c: nat, fails: bool)
    requires Inv(s) && Enabled(s, Act(c, fails))
    ensures Inv(Next(s, Act(c, fails)))
  {
    hide Inv, Live, Holds;
    match s.callers[c].pc
    case Locking => FirstLockKeeps(s, c);
    case LockingSecond => SecondLockKeeps(s, c);
    case Looking => if fails { SimpleKeeps(s, c, Unlocking); } else { LookKeeps(s, c); }
    case Choosing(i) => ChooseKeeps(s, c, i);
    case Replacing(i) => ReplaceKeeps(s, c, i);
    case Launching(i) => if fails || s.pool[i].phase != Idle { SimpleKeeps(s, c, Unlocking); } else { LaunchKeeps(s, c, i); }
    case Cancelling(i, next) => CancelKeeps(s, c, i, next);
    case Awaiting(i, next) => AwaitKeeps(s, c, i, next);
    case Deleting => DeleteKeeps(s, c);
    case Moving(i) => MoveKeeps(s, c, i);
    case Unlocking => UnlockKeeps(s, c);
  }

  lemma {:induction false} SimpleKeeps(s: State, c: nat, pc: Pc)
    requires Inv(s) && c < |s.callers| && (s.callers[c].pc.Looking? || s.callers[c].pc.Launching?) && pc.Unlocking?
    ensures Inv(At(s, c, pc))
  {
    hide Live, Holds, Locked;
    SameLocks(s.callers[c], pc);
    PcKeeps(s, c, pc);
  }

  lemma {:induction false} FirstLockKeeps(s: State, c: nat)
    requires Inv(s) && c < |s.callers| && s.callers[c].pc.Locking? && Free(s, FirstLock(s.callers[c].op))
    ensures forall f :: Inv(Acted(s, c, f))
  {
    var op := s.callers[c].op;
    LockKeeps(s, c, FirstLock(op), if Both(op) then LockingSecond else Looking);
  }

  lemma {:induction false} SecondLockKeeps(s: State, c: nat)
    requires Inv(s) && c < |s.callers| && s.callers[c].pc.LockingSecond? && s.callers[c].op.Rename?
      && Free(s, SecondLock(s.callers[c].op))
    ensures forall f :: Inv(Acted(s, c, f))
  {
    LockKeeps(s, c, SecondLock(s.callers[c].op), Looking);
  }

  lemma {:induction false} ChooseKeeps(s: State, c: nat, i: nat)
    requires Inv(s) && c < |s.callers| && s.callers[c].pc == Choosing(i) && Known(s, i)
    ensures Inv(At(s, c, if Live(s.pool[i]) then Launching(i) else Replacing(i)))
  {
    hide Holds, Locked;
    assert Aware(s, s.callers[c]);
    var pc := if Live(s.pool[i]) then Launching(i) else Replacing(i);
    SameLocks(s.callers[c], pc);
    PcKeeps(s, c, pc);
  }

  lemma {:induction false} ReplaceKeeps(s: State, c: nat, i: nat)
    requires Inv(s) && c < |s.callers| && s.callers[c].pc == Replacing(i) && Known(s, i)
    ensures Inv(At(Installed(s, s.callers[c].op.name, s.pool[i].service), c, Launching(|s.pool|)))
  {
    hide Live, Holds, Locked;
    assert Aware(s, s.callers[c]);
    var n := s.callers[c].op.name;
    SameLocks(s.callers[c], Launching(|s.pool|));
    assert Leads(Installed(s, n, s.pool[i].service), n, |s.pool|);
    InstallKeeps(s, c, n, s.pool[i].service, s.services, Launching(|s.pool|));
  }

  lemma {:induction false} AwaitKeeps(s: State, c: nat, i: nat, next: Option<nat>)
    requires Inv(s) && c < |s.callers| && s.callers[c].pc == Awaiting(i, next) && ActEnabled(s, s.callers[c])
    ensures Inv(At(s, c, if s.callers[c].op.Remove? then Deleting else if next.Some? then Launching(next.value) else Unlocking))
  {
    hide Holds, Locked;
    assert Aware(s, s.callers[c]);
    var pc := if s.callers[c].op.Remove? then Deleting else if next.Some? then Launching(next.value) else Unlocking;
    SameLocks(s.callers[c], pc);
    PcKeeps(s, c, pc);
  }

  lemma {:induction false} StepKeeps(s: State, step: Step)
    requires Inv(s) && Enabled(s, step)
    ensures Inv(Next(s, step))
  {
    hide Inv;
    match step
    case Call(op) => CallKeeps(s, op);
    case Act(c, fails) => ActKeeps(s, c, fails);
    case Loop(i, m) => LoopKeeps(s, i, m);
    case _ => WatchersApart(s, Next(s, step).watchers);
  }

  lemma {:induction false} RunKeeps(s: State, steps: seq<Step>)
    requires Inv(s) && Runs(s, steps)
    ensures Inv(After(s, steps))
    decreases |steps|
  {
    hide Inv, Enabled, Next;
    if steps != [] {
      StepKeeps(s, steps[0]);
      RunKeeps(Next(s, steps[0]), steps[1..]);
    }
  }

  // ---------------------------------------------------------------- nothing waits for ever

  // The names whose locks are taken and come after one.
  function Later(held: map<nat, nat>, n: nat): set<nat> { set m | m in held && m > n }

  // How far a caller has to go, and a loop that has been told to stop.
  function ToGo(pc: Pc): nat {
    match pc
    case Locking => 10
    case LockingSecond => 9
    case Looking => 8
    case Choosing(_) => 7
    case Cancelling(_, _) => 7
    case Replacing(_) => 6
    case Awaiting(_, _) => 6
    case Launching(_) => 5
    case Deleting => 2
    case Moving(_) => 2
    case Unlocking => 1
    case Done => 0
  }

  function ToEnd(p: Phase): nat {
    match p
    case Top => 8
    case Spawning => 7
    case Alive => 6
    case Dead => 5
    case Waiting => 4
    case Ending => 3
    case Over => 2
    case Told => 1
    case Closed => 0
    case Idle => 0
  }

  function AllToGo(cs: seq<Caller>): nat { if cs == [] then 0 else ToGo(cs[0].pc) + AllToGo(cs[1..]) }

  function AllToEnd(pool: seq<Sup>): nat { if pool == [] then 0 else ToEnd(pool[0].phase) + AllToEnd(pool[1..]) }

  // Something has been got out of the way.
  predicate Nearer(s: State, s': State) {
    AllToGo(s'.callers) < AllToGo(s.callers) || (s'.callers == s.callers && AllToEnd(s'.pool) < AllToEnd(s.pool))
  }

  lemma {:induction false} LessToGo(cs: seq<Caller>, c: nat, x: Caller)
    requires c < |cs| && ToGo(x.pc) < ToGo(cs[c].pc)
    ensures AllToGo(cs[c := x]) < AllToGo(cs)
  {
    if c == 0 {
      assert cs[c := x][1..] == cs[1..];
    } else {
      assert cs[c := x][1..] == cs[1..][c - 1 := x];
      LessToGo(cs[1..], c - 1, x);
    }
  }

  lemma {:induction false} LessToEnd(pool: seq<Sup>, i: nat, x: Sup)
    requires i < |pool| && ToEnd(x.phase) < ToEnd(pool[i].phase)
    ensures AllToEnd(pool[i := x]) < AllToEnd(pool)
  {
    if i == 0 {
      assert pool[i := x][1..] == pool[1..];
    } else {
      assert pool[i := x][1..] == pool[1..][i - 1 := x];
      LessToEnd(pool[1..], i - 1, x);
    }
  }

  // A caller's step takes it nearer, whichever it is.
  lemma {:induction false} ActNearer(s: State, c: nat, fails: bool)
    requires Enabled(s, Act(c, fails))
    ensures Nearer(s, Next(s, Act(c, fails)))
  {
    var s' := Next(s, Act(c, fails));
    ActMoves(s, c, fails);
    LessToGo(s.callers, c, s'.callers[c]);
  }

  lemma {:induction false} ActMoves(s: State, c: nat, fails: bool)
    requires Enabled(s, Act(c, fails))
    ensures var s' := Next(s, Act(c, fails));
            && |s'.callers| == |s.callers| && s'.callers == s.callers[c := s'.callers[c]]
            && ToGo(s'.callers[c].pc) < ToGo(s.callers[c].pc)
  {
    hide Live, Looked;
    if s.callers[c].pc.Looking? {
      LookedMoves(s, c);
    }
  }

  lemma {:induction false} LookedMoves(s: State, c: nat)
    requires c < |s.callers| && s.callers[c].pc.Looking?
    ensures var s' := Looked(s, c);
            && |s'.callers| == |s.callers| && s'.callers == s.callers[c := s'.callers[c]]
            && ToGo(s'.callers[c].pc) < ToGo(s.callers[c].pc)
  {
  }

  // Whoever has a lock can go on, or someone can on whom that waits: the second lock of a rename comes
  // after its first, and a loop that is being stopped has a move of its own.
  lemma {:induction false} HolderGoesOn(s: State, c: nat, n: nat) returns (step: Step)
    requires Inv(s) && c < |s.callers| && Holds(s.callers[c], n)
    ensures (step.Act? || step.Loop?) && Enabled(s, step) && Nearer(s, Next(s, step))
    decreases |Later(s.held, n)|
  {
    hide Live;
    assert Aware(s, s.callers[c]);
    var x := s.callers[c];
    if x.pc.LockingSecond? && !Free(s, SecondLock(x.op)) {
      var m := SecondLock(x.op);
      assert n == FirstLock(x.op) && m > n;
      Fewer(s.held, n, m);
      step := HolderGoesOn(s, s.held[m], m);
    } else if x.pc.Awaiting? && !ActEnabled(s, x) {
      step := LoopGoesOn(s, x.pc.sup);
    } else {
      step := Act(c, false);
      ActNearer(s, c, false);
    }
  }

  lemma Fewer(held: map<nat, nat>, n: nat, m: nat)
    requires n < m && m in held
    ensures |Later(held, m)| < |Later(held, n)|
  {
    assert Later(held, m) < Later(held, n) by {
      assert m in Later(held, n) && m !in Later(held, m);
    }
    Smaller(Later(held, m), Later(held, n));
  }

  lemma {:induction false} Smaller(a: set<nat>, b: set<nat>)
    requires a < b
    ensures |a| < |b|
  {
    var x :| x in b && x !in a;
    assert a <= b - {x};
    NoLarger(a, b - {x});
  }

  lemma {:induction false} NoLarger(a: set<nat>, b: set<nat>)
    requires a <= b
    ensures |a| <= |b|
  {
    if a != {} {
      var x :| x in a;
      NoLarger(a - {x}, b - {x});
    }
  }

  // A loop that has not finished has a move.
  lemma LoopGoesOn(s: State, i: nat) returns (step: Step)
    requires i < |s.pool| && s.pool[i].phase != Idle && s.pool[i].phase != Closed
    ensures step.Loop? && Enabled(s, step) && Nearer(s, Next(s, step))
  {
    hide AllToEnd, AllToGo;
    match s.pool[i].phase {
      case Top => step := Loop(i, Decide);
      case Spawning => step := Loop(i, Spawn);
      case Alive => step := Loop(i, Exit);
      case Dead => step := Loop(i, Judge(false));
      case Waiting => step := Loop(i, GiveUp);
      case Ending => step := Loop(i, Publish);
      case Over => step := Loop(i, Notify);
      case Told => step := Loop(i, Move.Close);
    }
    LessToEnd(s.pool, i, Moved(s.pool[i], step.move));
  }

  // So while any caller is not done, something can happen that gets work out of the way: no set of
  // callers, renames included, ever waits for itself.
  lemma {:induction false} NoDeadlock(s: State, c: nat) returns (step: Step)
    requires Inv(s) && c < |s.callers| && !s.callers[c].pc.Done?
    ensures (step.Act? || step.Loop?) && Enabled(s, step) && Nearer(s, Next(s, step))
  {
    hide Live, Aware, Nearer;
    var x := s.callers[c];
    if x.pc.Locking? {
      if Free(s, FirstLock(x.op)) {
        step := Act(c, false);
        ActNearer(s, c, false);
      } else {
        step := HolderGoesOn(s, s.held[FirstLock(x.op)], FirstLock(x.op));
      }
    } else {
      assert Holds(x, if x.pc.LockingSecond? then FirstLock(x.op) else x.op.name);
      step := HolderGoesOn(s, c, if x.pc.LockingSecond? then FirstLock(x.op) else x.op.name);
    }
  }

  // And no caller is ever stuck: whatever has happened, it can still finish, with nobody new coming and
  // nothing needed of the others but what they are doing.
  lemma {:induction false} CanFinish(s: State, c: nat) returns (steps: seq<Step>)
    requires Inv(s) && c < |s.callers|
    ensures Runs(s, steps) && forall i :: 0 <= i < |steps| ==> steps[i].Act? || steps[i].Loop?
    ensures |After(s, steps).callers| == |s.callers| && After(s, steps).callers[c].pc.Done?
    decreases AllToGo(s.callers), AllToEnd(s.pool)
  {
    if s.callers[c].pc.Done? {
      steps := [];
    } else {
      var step := NoDeadlock(s, c);
      StepKeeps(s, step);
      SameCallers(s, step);
      hide Inv, Enabled, Next, AllToGo, AllToEnd;
      var rest := CanFinish(Next(s, step), c);
      steps := [step] + rest;
      assert steps[1..] == rest;
    }
  }

  lemma {:induction false} SameCallers(s: State, step: Step)
    requires Enabled(s, step) && (step.Act? || step.Loop?)
    ensures |Next(s, step).callers| == |s.callers|
  {
    if step.Act? {
      ActMoves(s, step.caller, step.fails);
    }
  }

  // ---------------------------------------------------------------- no lost wakeup

  predicate Notified(x: Sup) { x.phase == Told || x.phase == Closed }

  // A watcher with no token, past looking, has found the supervisor that has ended and said so; so a
  // blocked one is not owed anything.
  ghost predicate Heard(s: State, w: Watcher) {
    forall i: nat :: Current(s, w.service, i) && Notified(s.pool[i]) && !w.token
      ==> w.at.Seeking? || w.at.Satisfied? || (w.at.Holding? && w.at.sup == i)
  }

  ghost predicate AllHeard(s: State) { forall w :: 0 <= w < |s.watchers| ==> Heard(s, s.watchers[w]) }

  // A service has at most one supervisor in place.
  lemma {:induction false} OneCurrent(s: State, service: nat, i: nat, j: nat)
    requires Named(s) && Current(s, service, i) && Current(s, service, j)
    ensures i == j
  {
    var n :| n in s.sups && s.sups[n] == i;
    var m :| m in s.sups && s.sups[m] == j;
  }

  // Watchers hear as before when no supervisor comes to be in place that has ended and said so.
  lemma {:induction false} HeardStays(s: State, s': State)
    requires AllHeard(s) && s'.watchers == s.watchers
    requires forall service: nat, i: nat :: Current(s', service, i) && Notified(s'.pool[i]) ==> Current(s, service, i) && Notified(s.pool[i])
    ensures AllHeard(s')
  {
    hide Current, Notified;
    forall w | 0 <= w < |s'.watchers|
      ensures Heard(s', s'.watchers[w])
    {
      assert Heard(s, s.watchers[w]);
    }
  }

  lemma {:induction false} ActHeard(s: State, c: nat, fails: bool)
    requires Inv(s) && AllHeard(s) && Enabled(s, Act(c, fails))
    ensures AllHeard(Next(s, Act(c, fails)))
  {
    var s' := Next(s, Act(c, fails));
    assert Aware(s, s.callers[c]);
    forall service: nat, i: nat | Current(s', service, i) && Notified(s'.pool[i])
      ensures Current(s, service, i) && Notified(s.pool[i])
    {
      ActCurrent(s, c, fails, service, i);
    }
    HeardStays(s, s');
  }

  // A caller's step names no supervisor that was not named, but one that is idle; and it changes no
  // loop but by starting or cancelling it.
  lemma {:induction false} ActShape(s: State, c: nat, fails: bool)
    requires Inv(s) && Enabled(s, Act(c, fails))
    ensures var s' := Next(s, Act(c, fails));
            && |s'.pool| >= |s.pool| && s'.watchers == s.watchers
            && (forall k :: 0 <= k < |s.pool| ==> s'.pool[k].service == s.pool[k].service && (Notified(s'.pool[k]) ==> Notified(s.pool[k])))
            && (forall n :: n in s'.sups ==> (exists m :: m in s.sups && s.sups[m] == s'.sups[n]) || (s'.sups[n] < |s'.pool| && s'.pool[s'.sups[n]].phase == Idle))
  {
    hide Live, Holds, Locked, Reached, Named;
    assert Aware(s, s.callers[c]);
    if s.callers[c].pc.Looking? && !fails {
      LookShape(s, c);
    }
  }

  lemma {:induction false} LookShape(s: State, c: nat)
    requires c < |s.callers|
    ensures var s' := Looked(s, c);
            && |s'.pool| >= |s.pool| && s'.watchers == s.watchers && s'.pool[..|s.pool|] == s.pool
            && (forall n :: n in s'.sups ==> (n in s.sups && s.sups[n] == s'.sups[n]) || (s'.sups[n] < |s'.pool| && s'.pool[s'.sups[n]].phase == Idle))
  {
  }

  lemma {:induction false} ActCurrent(s: State, c: nat, fails: bool, service: nat, i: nat)
    requires Inv(s) && Enabled(s, Act(c, fails))
    requires Current(Next(s, Act(c, fails)), service, i) && Notified(Next(s, Act(c, fails)).pool[i])
    ensures Current(s, service, i) && Notified(s.pool[i])
  {
    ActShape(s, c, fails);
    var s' := Next(s, Act(c, fails));
    NamesKnown(s);
    hide Inv, Next, Enabled;
    var n :| n in s'.sups && s'.sups[n] == i;
    var m :| m in s.sups && s.sups[m] == i;
  }

  lemma NamesKnown(s: State)
    requires Inv(s)
    ensures forall m :: m in s.sups ==> s.sups[m] < |s.pool|
  {
  }

  lemma {:induction false} LoopHeard(s: State, i: nat, m: Move)
    requires Inv(s) && AllHeard(s) && Enabled(s, Loop(i, m))
    ensures AllHeard(Next(s, Loop(i, m)))
  {
    hide Inv;
    var s' := Next(s, Loop(i, m));
    forall w | 0 <= w < |s'.watchers|
      ensures Heard(s', s'.watchers[w])
    {
      assert Heard(s, s.watchers[w]);
      forall k: nat | Current(s', s'.watchers[w].service, k) && Notified(s'.pool[k]) && !s'.watchers[w].token
        ensures s'.watchers[w].at.Seeking? || s'.watchers[w].at.Satisfied? || (s'.watchers[w].at.Holding?
          && s'.watchers[w].at.sup == k)
      {
        assert Current(s, s.watchers[w].service, k);
      }
    }
  }

  // A watcher of its own moving on, or being given a token.
  lemma {:induction false} WatcherHeard(s: State, step: Step)
    requires Inv(s) && AllHeard(s) && Enabled(s, step)
    requires step.Look? || step.Read? || step.Take? || step.Stir? || step.Watch?
    ensures AllHeard(Next(s, step))
  {
    var s' := Next(s, step);
    forall w | 0 <= w < |s'.watchers|
      ensures Heard(s', s'.watchers[w])
    {
      if w < |s.watchers| {
        assert Heard(s, s.watchers[w]);
        forall k: nat | Current(s', s'.watchers[w].service, k) && Notified(s'.pool[k]) && !s'.watchers[w].token
          ensures s'.watchers[w].at.Seeking? || s'.watchers[w].at.Satisfied? || (s'.watchers[w].at.Holding?
            && s'.watchers[w].at.sup == k)
        {
          assert Current(s, s.watchers[w].service, k);
          if step == Look(w) {
            FoundIs(s, s.watchers[w].service, k);
          }
        }
      }
    }
  }

  lemma {:induction false} FoundIs(s: State, service: nat, k: nat)
    requires Inv(s) && Current(s, service, k)
    ensures Found(s, service) == Some(k)
  {
    OneCurrent(s, service, Found(s, service).value, k);
  }

  ghost predicate Sound(s: State) { Inv(s) && AllHeard(s) }

  lemma {:induction false} StepSound(s: State, step: Step)
    requires Sound(s) && Enabled(s, step)
    ensures Sound(Next(s, step))
  {
    StepKeeps(s, step);
    hide Inv;
    match step
    case Act(c, fails) => ActHeard(s, c, fails);
    case Loop(i, m) => LoopHeard(s, i, m);
    case Call(op) => HeardStays(s, Next(s, step));
    case _ => WatcherHeard(s, step);
  }

  lemma {:induction false} RunSound(s: State, steps: seq<Step>)
    requires Sound(s) && Runs(s, steps)
    ensures Sound(After(s, steps))
    decreases |steps|
  {
    hide Sound, Enabled, Next;
    if steps != [] {
      StepSound(s, steps[0]);
      RunSound(Next(s, steps[0]), steps[1..]);
    }
  }

  // In every run from any services: at most one process of each, none out of reach; and
  // when a watcher is blocked with no token while its service's supervisor has ended, the word of
  // that is still to come.
  lemma {:induction false} RunFromStart(running: seq<bool>, steps: seq<Step>)
    requires Runs(Initial(running), steps)
    ensures var s := After(Initial(running), steps);
            && (forall i, j :: 0 <= i < j < |s.pool| && Live(s.pool[i]) && Live(s.pool[j]) ==>
                  s.pool[i].service != s.pool[j].service)
            && (forall i :: 0 <= i < |s.pool| && Live(s.pool[i]) ==> Reached(s, i))
            && (forall w, i: nat :: (0 <= w < |s.watchers| && s.watchers[w].at.Blocked? && !s.watchers[w].token
                  && Current(s, s.watchers[w].service, i) && Ended(s.pool[i])) ==> s.pool[i].phase == Over)
  {
    InitialInv(running);
    RunSound(Initial(running), steps);
    var s := After(Initial(running), steps);
    hide Runs, After, Live;
    forall i, j | 0 <= i < j < |s.pool| && Live(s.pool[i]) && Live(s.pool[j])
      ensures s.pool[i].service != s.pool[j].service
    {
      OneProcess(s, i, j);
    }
    forall w, i: nat | 0 <= w < |s.watchers| && s.watchers[w].at.Blocked? && !s.watchers[w].token
      && Current(s, s.watchers[w].service, i) && Ended(s.pool[i])
      ensures s.pool[i].phase == Over
    {
      assert Heard(s, s.watchers[w]);
    }
  }

  // ---------------------------------------------------------------- no false ending

  // A restart that has put this successor in place and not started it yet.
  ghost predicate Restarting(c: Caller, f: nat) {
    c.op.Restart? && (((c.pc.Cancelling? || c.pc.Awaiting?) && c.pc.next == Some(f)) || c.pc == Launching(f))
  }

  // While a restart is on its way, a watcher reads that its service has ended only from a supervisor
  // that is not in place any more: it looked before the successor was put there.
  lemma {:induction false} EndedIsOld(s: State, c: nat, f: nat, w: nat)
    requires Inv(s) && c < |s.callers| && Restarting(s.callers[c], f)
    requires Enabled(s, Read(w)) && f < |s.pool| && s.watchers[w].service == s.pool[f].service
    ensures Next(s, Read(w)).watchers[w].at.Satisfied? ==> !Current(s, s.watchers[w].service, s.watchers[w].at.sup)
    ensures s.watchers[w].at.sup == f ==> Next(s, Read(w)).watchers[w].at.Blocked?
  {
    assert Aware(s, s.callers[c]);
    var n := s.callers[c].op.name;
    assert Leads(s, n, f);
    var k := s.watchers[w].at.sup;
    if Current(s, s.watchers[w].service, k) {
      OneCurrent(s, s.watchers[w].service, k, f);
    }
  }

  // By the time the successor is started, the old one has ended; so a watcher then reads an ending from
  // every supervisor but the successor that ever ran, and from no other.
  lemma {:induction false} EndedWhenLaunching(s: State, c: nat, f: nat, w: nat)
    requires Inv(s) && c < |s.callers| && s.callers[c].op.Restart? && s.callers[c].pc == Launching(f)
    requires Enabled(s, Read(w)) && f < |s.pool| && s.watchers[w].service == s.pool[f].service
    requires s.pool[s.watchers[w].at.sup].service == s.watchers[w].service
    ensures var k := s.watchers[w].at.sup;
            Next(s, Read(w)).watchers[w].at.Satisfied? <==> k != f && s.pool[k].phase != Idle
  {
    var k := s.watchers[w].at.sup;
    assert Aware(s, s.callers[c]);
    hide Inv, Aware;
    if k != f {
      NotLiveAside(s, c, f, k);
    }
    assert Next(s, Read(w)).watchers[w].at.Satisfied? <==> Ended(s.pool[k]);
  }

  lemma {:induction false} SameName(s: State, m: nat, k: nat, n: nat, f: nat)
    requires Named(s) && Leads(s, m, k) && Leads(s, n, f) && s.pool[k].service == s.pool[f].service
    ensures m == n && k == f
  {
  }

  lemma {:induction false} NotLiveAside(s: State, c: nat, f: nat, k: nat)
    requires Inv(s) && c < |s.callers| && s.callers[c].op.Restart? && s.callers[c].pc == Launching(f)
    requires f < |s.pool| && k < |s.pool| && k != f && s.pool[k].service == s.pool[f].service
    ensures !Live(s.pool[k])
  {
    var n := s.callers[c].op.name;
    assert Aware(s, s.callers[c]) && Leads(s, n, f);
    if Live(s.pool[k]) {
      assert Reached(s, k);
      if m :| Leads(s, m, k) {
        SameName(s, m, k, n, f);
      } else {
        var d :| 0 <= d < |s.callers| && Retiring(s.callers[d], k);
        var m, next := s.callers[d].op.name, s.callers[d].pc.next.value;
        assert Aware(s, s.callers[d]) && Replaced(s, m, k, next);
        SameName(s, m, next, n, f);
        Exclusive(s, c, d, n);
      }
    }
  }

  // And one that did look before can be told so, whenever there is a process and nobody has the
  // service's lock: the restart goes through, the service runs on, and the watcher has left.
  lemma {:induction false} StaleEnding(s: State, n: nat, i: nat, w: nat) returns (steps: seq<Step>)
    requires Leads(s, n, i) && s.pool[i].phase == Alive && Free(s, n)
    requires w < |s.watchers| && s.watchers[w].at == Holding(i)
    ensures Runs(s, steps)
    ensures var s' := After(s, steps); var f := |s.pool|;
            && |s'.watchers| == |s.watchers| && s'.watchers[w].at.Satisfied?
            && Leads(s', n, f) && Live(s'.pool[f]) && s'.pool[f].service == s.pool[i].service
  {
    hide Runs, After;
    var begun := RestartBegins(s, n, i);
    var ended := OldEnds(After(s, begun), n, i, w, |s.callers|, |s.pool|);
    Joined(s, begun, ended);
    var launched := SuccessorStarts(After(s, begun + ended), n, i, w, |s.callers|, |s.pool|);
    Joined(s, begun + ended, launched);
    steps := begun + ended + launched;
  }

  // As it happens from the start: one service with a process, and one watcher of it that has looked.
  lemma {:induction false} StaleEndingReached() returns (steps: seq<Step>)
    ensures Runs(Initial([true]), steps) && |steps| >= 2 && steps[0] == Watch(0) && steps[1] == Look(0)
    ensures var s' := After(Initial([true]), steps);
            && |s'.watchers| == 1 && s'.watchers[0].at.Satisfied?
            && Leads(s', 0, 1) && Live(s'.pool[1]) && s'.pool[1].service == 0
  {
    var s := Initial([true]);
    NamesAre(1);
    assert s.pool == [Sup(0, Alive, false)];
    var s1 := Next(s, Watch(0));
    assert Current(s1, 0, 0) by { assert s1.sups[0] == 0; }
    assert Found(s1, 0) == Some(0);
    var s2 := Next(s1, Look(0));
    assert s2.watchers[0].at == Holding(0);
    var rest := StaleEnding(s2, 0, 0, 0);
    hide Enabled, Next, Live, Leads;
    var look := [Look(0)] + rest;
    assert look[1..] == rest;
    steps := [Watch(0)] + look;
    assert steps[1..] == look;
  }

  // What holds while the restart of n by c replaces i with f, as far as the watcher w goes.
  ghost predicate Midway(s: State, n: nat, i: nat, w: nat, c: nat, f: nat) {
    && Leads(s, n, f) && i < f < |s.pool| && s.pool[f].phase == Idle && s.pool[f].service == s.pool[i].service
    && c < |s.callers| && s.callers[c] == Caller(Restart(n), Awaiting(i, Some(f))) && w < |s.watchers|
  }

  lemma {:induction false} RestartBegins(s: State, n: nat, i: nat) returns (steps: seq<Step>)
    requires Leads(s, n, i) && s.pool[i].phase == Alive && Free(s, n)
    ensures Runs(s, steps)
    ensures var s' := After(s, steps);
            && i < |s.pool| < |s'.pool| && s'.watchers == s.watchers && s'.pool[i].phase == Alive
            && (forall w :: 0 <= w < |s.watchers| ==> Midway(s', n, i, w, |s.callers|, |s.pool|))
            && s'.pool[|s.pool|].service == s.pool[i].service
  {
    var c := |s.callers|;
    var s1 := Next(s, Call(Restart(n)));
    var s2 := Next(s1, Act(c, false));
    var s3 := Next(s2, Act(c, false));
    var s4 := Next(s3, Act(c, false));
    steps := [Call(Restart(n)), Act(c, false), Act(c, false), Act(c, false)];
    Four(s, steps[0], steps[1], steps[2], steps[3]);
    assert s3.callers[c].pc == Cancelling(i, Some(|s.pool|));
  }

  lemma {:induction false} OldEnds(s: State, n: nat, i: nat, w: nat, c: nat, f: nat) returns (steps: seq<Step>)
    requires Midway(s, n, i, w, c, f) && s.pool[i].phase == Alive && s.watchers[w].at == Holding(i)
    ensures Runs(s, steps)
    ensures var s' := After(s, steps);
            && |s'.watchers| == |s.watchers| && s'.watchers[w].at.Satisfied? && Midway(s', n, i, w, c, f)
              && s'.pool[i].phase == Over
            && s'.pool[f] == s.pool[f]
  {
    steps := [Loop(i, Exit), Loop(i, Judge(false)), Loop(i, Publish), Read(w)];
    Four(s, steps[0], steps[1], steps[2], steps[3]);
  }

  lemma {:induction false} SuccessorStarts(s: State, n: nat, i: nat, w: nat, c: nat, f: nat) returns (steps: seq<Step>)
    requires Midway(s, n, i, w, c, f) && s.pool[i].phase == Over && s.watchers[w].at.Satisfied?
    ensures Runs(s, steps)
    ensures var s' := After(s, steps);
            && |s'.watchers| == |s.watchers| && s'.watchers[w].at.Satisfied? && Leads(s', n, f) && Live(s'.pool[f])
            && s'.pool[f].service == s.pool[f].service
  {
    steps := [Loop(i, Move.Notify), Loop(i, Move.Close), Act(c, false), Act(c, false)];
    Four(s, steps[0], steps[1], steps[2], steps[3]);
  }

  lemma {:induction false} Four(s: State, a: Step, b: Step, d: Step, e: Step)
    requires Enabled(s, a) && Enabled(Next(s, a), b) && Enabled(Next(Next(s, a), b), d) && Enabled(Next(Next(Next(s,
      a), b), d), e)
    ensures Runs(s, [a, b, d, e]) && After(s, [a, b, d, e]) == Next(Next(Next(Next(s, a), b), d), e)
  {
    hide Enabled, Next;
    var s1, s2, s3 := Next(s, a), Next(Next(s, a), b), Next(Next(Next(s, a), b), d);
    assert [a, b, d, e][1..] == [b, d, e] && [b, d, e][1..] == [d, e] && [d, e][1..] == [e] && [e][1..] == [];
    assert Runs(Next(s3, e), []) && After(Next(s3, e), []) == Next(s3, e);
    assert Runs(s3, [e]) && After(s3, [e]) == Next(s3, e);
    assert Runs(s2, [d, e]) && After(s2, [d, e]) == Next(s3, e);
    assert Runs(s1, [b, d, e]) && After(s1, [b, d, e]) == Next(s3, e);
  }

  lemma {:induction false} Joined(s: State, a: seq<Step>, b: seq<Step>)
    requires Runs(s, a) && Runs(After(s, a), b)
    ensures Runs(s, a + b) && After(s, a + b) == After(After(s, a), b)
    decreases |a|
  {
    hide Enabled, Next;
    if a == [] {
      assert a + b == b;
    } else {
      assert (a + b)[1..] == a[1..] + b;
      Joined(Next(s, a[0]), a[1..], b);
    }
  }
}
