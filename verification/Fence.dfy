/** The keyboard and its commands: two channels from one reader, a listener that takes from either as
    it likes, and the fence that keeps what was typed on the right side of a command. */
module Fence {
  import opened Vt

  // What is typed: keys, and commands to the program itself.
  datatype Item = Key(b: Byte) | Command(what: nat)

  // What is sent on the channel for keys: a run of them, or the fence after a command.
  datatype Chunk = Run(keys: seq<Byte>) | Fence

  // How much the channels hold.
  const DATA: nat := 64

  // Where the reader is: reading, with a command to send, or with the fence for one it has sent.
  datatype Reading = Ready | Commanding(what: nat) | Fencing

  // Where the session is: taking whichever comes, or sending on what was typed before a command it has
  // taken, up to the fence.
  datatype Listening = Open | Draining(what: nat)

  datatype State = State(
    typed: seq<Item>,
    pending: seq<Byte>, reader: Reading,
    data: seq<Chunk>, cmds: seq<nat>,
    session: Listening,
    fenced: bool,              // the fence came first: nothing is taken but its command
    done: seq<Item>,           // the keys that were sent on and the commands that were obeyed, in order
    cutOff: bool)              // whether a session ended by itself while it waited behind a fence

  const START := State([], [], Ready, [], [], Open, false, [], false)

  datatype Step =
    | Type(b: Byte)
    | Flush
    | Press(what: nat)
    | SendCommand
    | SendFence
    | TakeData
    | TakeCommand
    | EndSession               // the service finished or was lost: another session begins

  predicate Enabled(s: State, step: Step) {
    match step
    case Type(_) => s.reader.Ready?
    case Flush => s.pending != [] && !s.reader.Fencing? && |s.data| < DATA
    case Press(_) => s.reader.Ready?
    case SendCommand => s.reader.Commanding? && s.pending == [] && s.cmds == []
    case SendFence => s.reader.Fencing? && |s.data| < DATA
    case TakeData => s.data != [] && !s.fenced
    case TakeCommand => s.session.Open? && s.cmds != []
    case EndSession => s.session.Open?
  }

  function Keys(bs: seq<Byte>): (ks: seq<Item>)
    ensures |ks| == |bs|
  {
    seq(|bs|, i requires 0 <= i < |bs| => Key(bs[i]))
  }

  function Next(s: State, step: Step): State
    requires Enabled(s, step)
  {
    match step
    case Type(b) => s.(typed := s.typed + [Key(b)], pending := s.pending + [b])
    case Flush => s.(data := s.data + [Run(s.pending)], pending := [])
    case Press(what) => s.(typed := s.typed + [Command(what)], reader := Commanding(what))
    case SendCommand => s.(cmds := [s.reader.what], reader := Fencing)
    case SendFence => s.(data := s.data + [Fence], reader := Ready)
    case TakeData => Taken(s)
    case TakeCommand =>
      var what := s.cmds[0];
      if s.fenced then s.(cmds := s.cmds[1..], fenced := false, done := s.done + [Command(what)])
      else s.(cmds := s.cmds[1..], session := Draining(what))
    case EndSession => s.(fenced := false, cutOff := s.cutOff || s.fenced)
  }

  // A run is sent on. A fence either ends the draining before a command, or says that its command is
  // waiting; one with no command waiting is nothing.
  function Taken(s: State): State
    requires s.data != []
  {
    var rest := s.(data := s.data[1..]);
    match s.data[0]
    case Run(keys) => rest.(done := s.done + Keys(keys))
    case Fence =>
      match s.session
      case Draining(what) => rest.(session := Open, done := s.done + [Command(what)])
      case Open => if s.cmds != [] then rest.(fenced := true) else rest
  }

  ghost predicate Runs(s: State, steps: seq<Step>)
    decreases |steps|
  {
    steps == [] || (Enabled(s, steps[0]) && Runs(Next(s, steps[0]), steps[1..]))
  }

  function After(s: State, steps: seq<Step>): State
    requires Runs(s, steps)
    decreases |steps|
  {
    if steps == [] then s else After(Next(s, steps[0]), steps[1..])
  }

  // ---------------------------------------------------------------- what is on its way

  function Fences(data: seq<Chunk>): nat {
    if data == [] then 0 else Fences(data[1..]) + if data[0].Fence? then 1 else 0
  }

  // The items a channel holds, when its fences stand for these commands in turn.
  function Held(data: seq<Chunk>, commands: seq<nat>): seq<Item>
    requires Fences(data) <= |commands|
  {
    if data == [] then []
    else match data[0]
      case Run(keys) => Keys(keys) + Held(data[1..], commands)
      case Fence => [Command(commands[0])] + Held(data[1..], commands[1..])
  }

  // The commands on their way, oldest first: taken, waiting, or about to be sent.
  function Commands(s: State): seq<nat> {
    (if s.session.Draining? then [s.session.what] else []) + s.cmds + (if s.reader.Commanding? then [s.reader.what] else [])
  }

  // Whether the last of them has no fence yet.
  function Unfenced(s: State): nat { if s.reader.Ready? then 0 else 1 }

  // The commands whose fences are still in the channel, or to come.
  function Ahead(s: State): seq<nat> { if s.fenced && Commands(s) != [] then Commands(s)[1..] else Commands(s) }

  ghost predicate Counted(s: State) {
    && |s.cmds| <= 1 && (s.reader.Fencing? ==> s.pending == [])
    && (s.fenced ==> s.session.Open? && s.cmds != [])
    && |Ahead(s)| == Fences(s.data) + Unfenced(s)
  }

  // What was typed is what has been done, and then what is on its way, in its order.
  ghost predicate InOrder(s: State) {
    && Counted(s)
    && s.typed == s.done + (if s.fenced then [Command(s.cmds[0])] else []) + Held(s.data, Ahead(s)) + Keys(s.pending)
                  + (if s.reader.Ready? then [] else [Command(Ahead(s)[|Ahead(s)| - 1])])
  }

  lemma {:induction false} FencesMore(data: seq<Chunk>, c: Chunk)
    ensures Fences(data + [c]) == Fences(data) + if c.Fence? then 1 else 0
  {
    if data == [] {
      assert data + [c] == [c] && [c][1..] == [];
    } else {
      assert (data + [c])[1..] == data[1..] + [c];
      FencesMore(data[1..], c);
    }
  }

  lemma {:induction false} HeldRun(data: seq<Chunk>, commands: seq<nat>, keys: seq<Byte>)
    requires Fences(data) <= |commands|
    ensures Fences(data + [Run(keys)]) <= |commands| && Held(data + [Run(keys)], commands) == Held(data, commands) + Keys(keys)
  {
    FencesMore(data, Run(keys));
    var c := Run(keys);
    if data == [] {
      assert data + [c] == [c] && [c][1..] == [];
      assert Held([c], commands) == Keys(keys) + [];
    } else {
      assert (data + [c])[1..] == data[1..] + [c] && (data + [c])[0] == data[0];
      HeldRun(data[1..], if data[0].Fence? then commands[1..] else commands, keys);
    }
  }

  lemma {:induction false} HeldFence(data: seq<Chunk>, commands: seq<nat>)
    requires Fences(data) < |commands|
    ensures Fences(data + [Fence]) <= |commands|
    ensures Held(data + [Fence], commands) == Held(data, commands) + [Command(commands[Fences(data)])]
  {
    FencesMore(data, Fence);
    if data == [] {
      assert data + [Fence] == [Fence] && [Fence][1..] == [];
      assert Held([Fence], commands) == [Command(commands[0])] + [];
    } else {
      assert (data + [Fence])[1..] == data[1..] + [Fence] && (data + [Fence])[0] == data[0];
      HeldFence(data[1..], if data[0].Fence? then commands[1..] else commands);
    }
  }

  // Commands beyond those with a fence in the channel do not show in it.
  lemma {:induction false} HeldPrefix(data: seq<Chunk>, commands: seq<nat>, more: seq<nat>)
    requires Fences(data) <= |commands|
    ensures Held(data, commands + more) == Held(data, commands)
  {
    if data != [] {
      if data[0].Fence? {
        assert (commands + more)[1..] == commands[1..] + more;
        HeldPrefix(data[1..], commands[1..], more);
      } else {
        HeldPrefix(data[1..], commands, more);
      }
    }
  }

  // ---------------------------------------------------------------- every step keeps the order

  lemma {:induction false} TypeKeeps(s: State, b: Byte)
    requires InOrder(s) && Enabled(s, Type(b))
    ensures InOrder(Next(s, Type(b)))
  {
    hide Held, Fences;
    assert Keys(s.pending + [b]) == Keys(s.pending) + [Key(b)];
  }

  lemma {:induction false} FlushKeeps(s: State)
    requires InOrder(s) && Enabled(s, Flush)
    ensures InOrder(Next(s, Flush))
  {
    hide Held, Fences, Keys;
    var s' := Next(s, Flush);
    FencesMore(s.data, Run(s.pending));
    HeldRun(s.data, Ahead(s), s.pending);
    assert Ahead(s') == Ahead(s);
    NoKeys();
    var held, keys := Held(s.data, Ahead(s)), Keys(s.pending);
    var before := s.done + if s.fenced then [Command(s.cmds[0])] else [];
    assert before + held + keys == before + (held + keys) + [];
  }

  lemma NoKeys()
    ensures Keys([]) == []
  {
  }

  lemma {:induction false} PressKeeps(s: State, what: nat)
    requires InOrder(s) && Enabled(s, Press(what))
    ensures InOrder(Next(s, Press(what)))
  {
    hide Held, Fences;
    HeldPrefix(s.data, Ahead(s), [what]);
    assert Ahead(Next(s, Press(what))) == Ahead(s) + [what];
  }

  lemma {:induction false} SendCommandKeeps(s: State)
    requires InOrder(s) && Enabled(s, SendCommand)
    ensures InOrder(Next(s, SendCommand))
  {
    hide Held, Fences;
    assert Commands(Next(s, SendCommand)) == Commands(s);
  }

  lemma {:induction false} SendFenceKeeps(s: State)
    requires InOrder(s) && Enabled(s, SendFence)
    ensures InOrder(Next(s, SendFence))
  {
    hide Held, Fences;
    FencesMore(s.data, Fence);
    HeldFence(s.data, Ahead(s));
    assert Keys([]) == [];
  }

  lemma {:induction false} HeldFirst(data: seq<Chunk>, commands: seq<nat>)
    requires Fences(data) <= |commands| && data != []
    ensures data[0].Run? ==> Fences(data[1..]) == Fences(data) && Held(data, commands) == Keys(data[0].keys) + Held(data[1..], commands)
    ensures data[0].Fence? ==> (commands != [] && Fences(data[1..]) == Fences(data) - 1
              && Held(data, commands) == [Command(commands[0])] + Held(data[1..], commands[1..]))
  {
  }

  lemma {:induction false} TakeDataKeeps(s: State)
    requires InOrder(s) && Enabled(s, TakeData)
    ensures InOrder(Next(s, TakeData))
  {
    if s.data[0].Run? {
      TakeRunKeeps(s);
    } else {
      TakeFenceKeeps(s);
    }
  }

  lemma {:induction false} TakeRunKeeps(s: State)
    requires InOrder(s) && Enabled(s, TakeData) && s.data[0].Run?
    ensures InOrder(Next(s, TakeData))
  {
    hide Held, Fences, Keys;
    var s' := Next(s, TakeData);
    assert Ahead(s') == Ahead(s);
    HeldFirst(s.data, Ahead(s));
    var keys, rest := Keys(s.data[0].keys), Held(s.data[1..], Ahead(s));
    assert s.done + [] + (keys + rest) == (s.done + keys) + [] + rest;
  }

  lemma {:induction false} TakeFenceKeeps(s: State)
    requires InOrder(s) && Enabled(s, TakeData) && s.data[0].Fence?
    ensures InOrder(Next(s, TakeData))
  {
    hide Held, Fences, Keys;
    var s' := Next(s, TakeData);
    FenceHasCommand(s);
    HeldFirst(s.data, Ahead(s));
    var c, rest := Ahead(s)[0], Held(s.data[1..], Ahead(s)[1..]);
    assert Ahead(s') == Ahead(s)[1..];
    assert s.done + [] + ([Command(c)] + rest) == s.done + [Command(c)] + rest;
    assert s.done + [Command(c)] + [] + rest == s.done + [Command(c)] + rest;
  }

  // A fence that comes first has its command waiting, or taken already.
  lemma {:induction false} FenceHasCommand(s: State)
    requires Counted(s) && !s.fenced && s.data != [] && s.data[0].Fence?
    ensures s.session.Open? ==> s.cmds != [] && Ahead(s)[0] == s.cmds[0]
    ensures s.session.Draining? ==> Ahead(s) != [] && Ahead(s)[0] == s.session.what
  {
  }

  lemma {:induction false} TakeCommandKeeps(s: State)
    requires InOrder(s) && Enabled(s, TakeCommand)
    ensures InOrder(Next(s, TakeCommand))
  {
    hide Held, Fences;
    var s' := Next(s, TakeCommand);
    if s.fenced {
      assert Ahead(s') == Ahead(s);
    } else {
      assert Commands(s') == Commands(s);
    }
  }

  lemma {:induction false} StepKeeps(s: State, step: Step)
    requires (s.cutOff || InOrder(s)) && Enabled(s, step)
    ensures var s' := Next(s, step); s'.cutOff || InOrder(s')
  {
    hide InOrder, Next, Enabled;
    CutOffStays(s, step);
    if !s.cutOff {
      match step
      case Type(b) => TypeKeeps(s, b);
      case Flush => FlushKeeps(s);
      case Press(what) => PressKeeps(s, what);
      case SendCommand => SendCommandKeeps(s);
      case SendFence => SendFenceKeeps(s);
      case TakeData => TakeDataKeeps(s);
      case TakeCommand => TakeCommandKeeps(s);
      case EndSession =>
    }
  }

  lemma CutOffStays(s: State, step: Step)
    requires Enabled(s, step)
    ensures s.cutOff ==> Next(s, step).cutOff
    ensures step.EndSession? && !Next(s, step).cutOff ==> Next(s, step) == s
  {
  }

  lemma {:induction false} RunKeeps(s: State, steps: seq<Step>)
    requires (s.cutOff || InOrder(s)) && Runs(s, steps)
    ensures var s' := After(s, steps); s'.cutOff || InOrder(s')
    decreases |steps|
  {
    hide InOrder, Next, Enabled;
    if steps != [] {
      StepKeeps(s, steps[0]);
      RunKeeps(Next(s, steps[0]), steps[1..]);
    }
  }

  // Whatever is typed, and whichever channel is taken from whenever: what has been sent on and obeyed
  // is what was typed, up to some point, in the same order - so what was typed before a command was
  // sent on before it was obeyed, all of it and once, and nothing typed after it was. Unless a session
  // ended by itself while it waited behind a fence.
  lemma {:induction false} NothingCrosses(steps: seq<Step>)
    requires Runs(START, steps) && !After(START, steps).cutOff
    ensures After(START, steps).done <= After(START, steps).typed
  {
    hide Runs, After, Held, Fences;
    assert Keys([]) == [];
    StartInOrder();
    RunKeeps(START, steps);
  }

  lemma StartInOrder()
    ensures InOrder(START)
  {
  }

  // In that case the command has lost its fence. A key typed after it is on its way, or can be, with
  // nothing that stops it.
  ghost predicate Unguarded(s: State) {
    && s.session.Open? && !s.fenced && |s.cmds| == 1 && !s.reader.Fencing? && Fences(s.data) == 0
    && s.typed == s.done + [Command(s.cmds[0])] + Held(s.data, []) + Keys(s.pending)
                  + (if s.reader.Commanding? then [Command(s.reader.what)] else [])
  }

  lemma {:induction false} FenceLost(s: State)
    requires InOrder(s) && s.fenced
    ensures Enabled(s, EndSession) && Unguarded(Next(s, EndSession))
  {
    hide Keys;
    assert Fences(s.data) == 0;
    HeldPrefix(s.data, [], Ahead(s));
    assert [] + Ahead(s) == Ahead(s);
  }

  // What has been done is not what was typed first.
  predicate Crossed(s: State) { !(s.done <= s.typed) }

  ghost predicate NoEnding(steps: seq<Step>) { forall i :: 0 <= i < |steps| ==> !steps[i].EndSession? }

  // A run that ends with a command overtaken.
  ghost predicate Crosses(s: State, steps: seq<Step>) { Runs(s, steps) && NoEnding(steps) && Crossed(After(s, steps)) }

  lemma {:induction false} OneMore(s: State, step: Step, steps: seq<Step>)
    requires Enabled(s, step) && !step.EndSession? && Crosses(Next(s, step), steps)
    ensures Crosses(s, [step] + steps)
  {
    hide Enabled, Next;
    var _ := FirstStep(s, step, steps);
  }

  lemma {:induction false} Arrived(s: State)
    requires Crossed(s)
    ensures Crosses(s, [])
  {
  }

  // Whatever else is on its way, then, some key gets there before the command: the first in the
  // channel, the first that was read, or the next one typed.
  lemma {:induction false} KeyOvertakes(s: State) returns (steps: seq<Step>)
    requires Unguarded(s)
    ensures Crosses(s, steps)
    decreases |s.data|
  {
    if s.data == [] {
      steps := KeyFollows(s);
    } else {
      var s' := Next(s, TakeData);
      TakenUnguarded(s);
      if s.data[0].keys == [] {
        steps := KeyOvertakes(s');
      } else {
        Arrived(s');
        steps := [];
      }
      hide Enabled, Next, Crosses, Unguarded;
      OneMore(s, TakeData, steps);
      steps := [TakeData] + steps;
    }
  }

  // Such as the next one taken, when that is a key.
  lemma {:induction false} CutOffCrosses(s: State)
    requires InOrder(s) && s.fenced && s.data != [] && s.data[0].Run? && s.data[0].keys != []
    ensures Enabled(s, EndSession) && Enabled(Next(s, EndSession), TakeData)
    ensures var s' := Next(Next(s, EndSession), TakeData); !(s'.done <= s'.typed)
  {
    hide Held, Fences;
    var s' := Next(Next(s, EndSession), TakeData);
    assert s'.done[|s.done|] == Key(s.data[0].keys[0]);
    assert s.typed[|s.done|] == Command(s.cmds[0]);
  }

  lemma {:induction false} TakenUnguarded(s: State)
    requires Unguarded(s) && s.data != []
    ensures s.data[0].Run? && Enabled(s, TakeData)
    ensures if s.data[0].keys == [] then Unguarded(Next(s, TakeData)) else Crossed(Next(s, TakeData))
  {
    hide Held, Fences;
    HeldFirst(s.data, []);
    var s' := Next(s, TakeData);
    if s.data[0].keys == [] {
      assert s'.done == s.done;
      assert Keys(s.data[0].keys) + Held(s'.data, []) == Held(s'.data, []);
    } else {
      assert s'.done[|s.done|] == Key(s.data[0].keys[0]);
      assert s.typed[|s.done|] == Command(s.cmds[0]);
    }
  }

  // With nothing in the channel.
  lemma {:induction false} KeyFollows(s: State) returns (steps: seq<Step>)
    requires Unguarded(s) && s.data == []
    ensures Crosses(s, steps)
  {
    hide Crosses;
    if s.pending != [] {
      steps := KeyFlushed(s);
    } else if s.reader.Ready? {
      var s1 := Next(s, Type(0x41));
      assert Keys(s1.pending) == [Key(0x41)] && Keys(s.pending) == [];
      steps := KeyFlushed(s1);
      OneMore(s, Type(0x41), steps);
      steps := [Type(0x41)] + steps;
    } else {
      steps := SecondCommand(s);
    }
  }

  lemma {:induction false} KeyFlushed(s: State) returns (steps: seq<Step>)
    requires Unguarded(s) && s.data == [] && s.pending != []
    ensures Crosses(s, steps)
  {
    hide Crosses;
    var s1 := Next(s, Flush);
    assert s1.data == [Run(s.pending)];
    assert Held(s1.data, []) == Keys(s.pending) + [] && Keys(s1.pending) == [];
    TakenUnguarded(s1);
    Arrived(Next(s1, TakeData));
    OneMore(s1, TakeData, []);
    OneMore(s, Flush, [TakeData] + []);
    steps := [Flush] + ([TakeData] + []);
  }

  // With a second command about to be sent: the first is taken, and the fence of the second ends the
  // wait for its own.
  lemma {:induction false} SecondCommand(s: State) returns (steps: seq<Step>)
    requires Unguarded(s) && s.data == [] && s.pending == [] && s.reader.Commanding?
    ensures Crosses(s, steps)
  {
    hide Crosses, Keys, Held, Fences, Runs, After, Commands;
    var c, c' := s.cmds[0], s.reader.what;
    var s1 := Next(s, TakeCommand);
    assert s1 == s.(cmds := [], session := Draining(c));
    var s2 := Next(s1, SendCommand);
    var s3 := Next(s2, SendFence);
    assert s3.data == [Fence];
    var s4 := Next(s3, TakeData);
    assert s4 == s.(cmds := [c'], reader := Ready, done := s.done + [Command(c)]);
    SecondKey(s, s4, c, c');
    var rest := [Type(0x41), Flush, TakeData];
    OneMore(s3, TakeData, rest);
    OneMore(s2, SendFence, [TakeData] + rest);
    OneMore(s1, SendCommand, [SendFence] + ([TakeData] + rest));
    OneMore(s, TakeCommand, [SendCommand] + ([SendFence] + ([TakeData] + rest)));
    steps := [TakeCommand] + ([SendCommand] + ([SendFence] + ([TakeData] + rest)));
  }

  lemma {:induction false} SecondKey(s: State, s4: State, c: nat, c': nat)
    requires Unguarded(s) && s.data == [] && s.pending == [] && s.reader == Commanding(c') && s.cmds == [c]
    requires s4 == s.(cmds := [c'], reader := Ready, done := s.done + [Command(c)])
    ensures Crosses(s4, [Type(0x41), Flush, TakeData])
  {
    hide Crosses;
    var s5 := Next(s4, Type(0x41));
    var s6 := Next(s5, Flush);
    assert s5.pending == [0x41];
    assert s6.data == [Run([0x41])];
    var s7 := Next(s6, TakeData);
    assert Keys([0x41]) == [Key(0x41)] && Keys([]) == [];
    assert [Run([0x41])][1..] == [] && s6.data[1..] == [];
    assert s7.done == s.done + [Command(c)] + [Key(0x41)];
    assert s7.typed == s.done + [Command(c), Command(c')] + [Key(0x41)];
    assert s7.done[|s.done| + 1] != s7.typed[|s.done| + 1];
    Arrived(s7);
    OneMore(s6, TakeData, []);
    OneMore(s5, Flush, [TakeData] + []);
    OneMore(s4, Type(0x41), [Flush] + ([TakeData] + []));
    assert [Type(0x41)] + ([Flush] + ([TakeData] + [])) == [Type(0x41), Flush, TakeData];
  }

  // A session that ends by itself does no harm to what follows it - whatever is typed, and up to the
  // next such ending - exactly when it was not waiting behind a fence.
  lemma {:induction false} EndingCrosses(s: State)
    requires InOrder(s) && !s.cutOff && Enabled(s, EndSession)
    ensures (forall steps :: !Crosses(Next(s, EndSession), steps)) <==> !s.fenced
  {
    var s' := Next(s, EndSession);
    if s.fenced {
      FenceLost(s);
      var steps := KeyOvertakes(s');
      assert Crosses(s', steps);
    } else {
      assert s' == s;
      forall steps
        ensures !Crosses(s', steps)
      {
        if Runs(s', steps) && NoEnding(steps) {
          NotCutOff(s, steps);
          RunKeeps(s, steps);
          DonePrefix(After(s, steps));
        }
      }
    }
  }

  lemma {:induction false} DonePrefix(s: State)
    requires InOrder(s)
    ensures s.done <= s.typed
  {
  }

  lemma {:induction false} NotCutOff(s: State, steps: seq<Step>)
    requires Runs(s, steps) && NoEnding(steps) && !s.cutOff
    ensures !After(s, steps).cutOff
    decreases |steps|
  {
    hide Enabled, Next;
    if steps != [] {
      if Next(s, steps[0]).cutOff {
        OnlyEnding(s, steps[0]);
      }
      NotCutOff(Next(s, steps[0]), steps[1..]);
    }
  }

  // It happens from the start: a command, whose fence comes first; a key; and the session ends.
  lemma {:induction false} KeyCrosses() returns (steps: seq<Step>)
    ensures Runs(START, steps) && Crossed(After(START, steps))
    ensures steps == [Press(1), SendCommand, SendFence, TakeData, Type(0x41), Flush, EndSession, TakeData]
  {
    var s1 := Next(START, Press(1));
    var s2 := Next(s1, SendCommand);
    var s3 := Next(s2, SendFence);
    assert Next(s3, TakeData) == Fenced() by {
      assert s3.data == [Fence] && [Fence][1..] == [];
    }
    steps := FencedKeyCrosses();
    hide Crossed, Next, Fenced;
    steps := FirstStep(s3, TakeData, steps);
    steps := FirstStep(s2, SendFence, steps);
    steps := FirstStep(s1, SendCommand, steps);
    steps := FirstStep(START, Press(1), steps);
  }

  function Fenced(): State { State([Command(1)], [], Ready, [], [1], Open, true, [], false) }

  lemma {:induction false} FencedKeyCrosses() returns (steps: seq<Step>)
    ensures Runs(Fenced(), steps) && Crossed(After(Fenced(), steps))
    ensures steps == [Type(0x41), Flush, EndSession, TakeData]
  {
    var s4 := Fenced();
    var s5 := Next(s4, Type(0x41));
    assert s5.pending == [0x41];
    var s6 := Next(s5, Flush);
    assert s6.pending == [] && s6.data == [Run([0x41])];
    var s7 := Next(s6, EndSession);
    var s8 := Next(s7, TakeData);
    assert s8.done == [] + Keys([0x41]);
    assert s8.done[0] == Key(0x41) && s8.typed[0] == Command(1);
    hide Crossed, Next;
    steps := FirstStep(s7, TakeData, []);
    steps := FirstStep(s6, EndSession, steps);
    steps := FirstStep(s5, Flush, steps);
    steps := FirstStep(s4, Type(0x41), steps);
  }

  lemma {:induction false} FirstStep(s: State, step: Step, steps: seq<Step>) returns (all: seq<Step>)
    requires Enabled(s, step) && Runs(Next(s, step), steps)
    ensures all == [step] + steps && Runs(s, all) && After(s, all) == After(Next(s, step), steps)
  {
    all := [step] + steps;
    assert all[1..] == steps;
  }

  // ---------------------------------------------------------------- coming to rest

  // Everything that was typed has gone where it was going.
  predicate Quiet(s: State) { s.pending == [] && s.reader.Ready? && s.data == [] && s.cmds == [] && s.session.Open? }

  // A command has lost its fence: there are fewer to come than commands that wait for one.
  ghost predicate Indebted(s: State) {
    && (s.reader.Fencing? ==> s.pending == [])
    && |Commands(s)| > Fences(s.data) + Unfenced(s) + (if s.fenced then 1 else 0)
    && (s.fenced ==> s.session.Open? && s.cmds != [])
  }

  lemma {:induction false} DebtStays(s: State, step: Step)
    requires Indebted(s) && Enabled(s, step)
    ensures Indebted(Next(s, step))
  {
    match step
    case Flush => FencesMore(s.data, Run(s.pending));
    case SendFence => FencesMore(s.data, Fence);
    case _ =>
  }

  lemma {:induction false} DebtBegins(s: State)
    requires InOrder(s) && s.fenced && Enabled(s, EndSession)
    ensures Indebted(Next(s, EndSession))
  {
    hide Held, Fences, Keys;
  }

  lemma {:induction false} DebtRuns(s: State, steps: seq<Step>)
    requires Runs(s, steps) && (if s.cutOff then Indebted(s) else InOrder(s))
    ensures var s' := After(s, steps); if s'.cutOff then Indebted(s') else InOrder(s')
    decreases |steps|
  {
    hide InOrder, Indebted, Next, Enabled;
    if steps != [] {
      CutOffStays(s, steps[0]);
      if s.cutOff {
        DebtStays(s, steps[0]);
      } else if Next(s, steps[0]).cutOff {
        OnlyEnding(s, steps[0]);
        DebtBegins(s);
      } else {
        StepKeeps(s, steps[0]);
      }
      DebtRuns(Next(s, steps[0]), steps[1..]);
    }
  }

  lemma OnlyEnding(s: State, step: Step)
    requires Enabled(s, step) && !s.cutOff && Next(s, step).cutOff
    ensures step.EndSession? && s.fenced
  {
  }

  // Every run that comes to rest has done exactly what was typed, in order; and one in which a session
  // was cut off behind its fence never does, for a command waits for a fence that is gone.
  lemma {:induction false} RestIsInOrder(steps: seq<Step>)
    requires Runs(START, steps) && Quiet(After(START, steps))
    ensures After(START, steps).done == After(START, steps).typed && !After(START, steps).cutOff
  {
    hide Runs, After;
    StartInOrder();
    DebtRuns(START, steps);
    NoKeys();
  }

  // Until then nothing waits for ever: while anything is on its way, something can happen that moves
  // it on.
  lemma {:induction false} MovesOn(s: State) returns (step: Step)
    requires InOrder(s) && (s.pending != [] || !s.reader.Ready? || s.data != [] || s.cmds != [] || s.session.Draining?)
    ensures Enabled(s, step) && (step.Flush? || step.SendCommand? || step.SendFence? || step.TakeData? || step.TakeCommand?)
  {
    if s.data != [] && !s.fenced {
      step := TakeData;
    } else if s.session.Open? && s.cmds != [] {
      step := TakeCommand;
    } else if s.reader.Fencing? {
      step := SendFence;
    } else if s.pending != [] {
      step := Flush;
    } else {
      step := SendCommand;
    }
  }
}
