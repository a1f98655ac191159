/**
 * The shells of one phone connection (internal/bridge/pty.go).
 *
 * One caller at a time handles the phone's frames: openTerminal checks in one lock section, starts the
 * shell, and inserts it in another. Each shell has a pump of its own running beside the caller and the other
 * pumps. Lock sections, reads of a tty and sends are single steps. Shells are numbered in the order they start.
 */
module Terminals {
  import opened Bytes
  import opened Runs

  const MAX_TERMINALS: nat := 8
  const PTY_READ_CHUNK: nat := 32 * 1024

  datatype Refusal = AlreadyOpen | TooMany | NotStarted

  /** A frame handed to send, whether or not the connection took it. */
  datatype Frame =
    | Data(from: nat, id: string, data: seq<byte>)
    | Exit(of: nat, id: string, code: int)
    | Refuse(id: string, reason: Refusal)

  /** A pump reads and sends in turn, then has the shell's exit code, then is forgotten, then has reported the exit. */
  datatype Phase = Copying | Sending(data: seq<byte>, last: bool) | Ended | Forgotten | Reported

  datatype Terminal = Terminal(id: string, phase: Phase)

  datatype Caller = Idle | Starting(id: string)

  datatype State = State(caller: Caller, open: map<string, nat>, shells: seq<Terminal>, attempts: seq<Frame>)

  datatype Action =
    | Check(id: string)
    | StartFails
    | Starts
    | ReadTty(reader: nat, data: seq<byte>, failed: bool)
    | SendData(sender: nat, sent: bool)
    | Forget(forgotten: nat)
    | Report(reported: nat, code: int)

  const NEW := State(Idle, map[], [], [])

  predicate Enabled(s: State, a: Action) {
    match a
    case Check(id) => s.caller.Idle? && id != ""
    case StartFails => s.caller.Starting?
    case Starts => s.caller.Starting?
    case ReadTty(t, data, _) => t < |s.shells| && s.shells[t].phase.Copying? && |data| <= PTY_READ_CHUNK
    case SendData(t, _) => t < |s.shells| && s.shells[t].phase.Sending?
    case Forget(t) => t < |s.shells| && s.shells[t].phase.Ended?
    case Report(t, _) => t < |s.shells| && s.shells[t].phase.Forgotten?
  }

  /** What the first lock section of openTerminal finds; None lets the shell be started. */
  function CheckOpen<T>(open: map<string, T>, id: string): Option<Refusal> {
    if id in open then Some(AlreadyOpen)
    else if |open| >= MAX_TERMINALS then Some(TooMany)
    else None
  }

  function Moved(s: State, t: nat, phase: Phase): seq<Terminal>
    requires t < |s.shells|
  {
    s.shells[t := s.shells[t].(phase := phase)]
  }

  function Step(s: State, a: Action): State {
    if !Enabled(s, a) then s
    else
      match a
      case Check(id) =>
        (match CheckOpen(s.open, id)
         case Some(reason) => s.(attempts := s.attempts + [Refuse(id, reason)])
         case None => s.(caller := Starting(id)))
      case StartFails => s.(caller := Idle, attempts := s.attempts + [Refuse(s.caller.id, NotStarted)])
      case Starts =>
        s.(caller := Idle, open := s.open[s.caller.id := |s.shells|],
           shells := s.shells + [Terminal(s.caller.id, Copying)])
      case ReadTty(t, data, failed) =>
        s.(shells := Moved(s, t, if data != [] then Sending(data, failed) else if failed then Ended else Copying))
      case SendData(t, sent) =>
        var p := s.shells[t].phase;
        s.(attempts := s.attempts + [Data(t, s.shells[t].id, p.data)],
           shells := Moved(s, t, if !sent || p.last then Ended else Copying))
      case Forget(t) => s.(open := s.open - {s.shells[t].id}, shells := Moved(s, t, Forgotten))
      case Report(t, code) =>
        s.(attempts := s.attempts + [Exit(t, s.shells[t].id, code)], shells := Moved(s, t, Reported))
  }

  function Run(actions: seq<Action>): State {
    After(Step, NEW, actions)
  }

  /** The frames of one shell. */
  function Of(attempts: seq<Frame>, t: nat): seq<Frame> {
    if attempts == [] then []
    else
      var rest, f := Of(attempts[..|attempts| - 1], t), attempts[|attempts| - 1];
      if (f.Data? && f.from == t) || (f.Exit? && f.of == t) then rest + [f] else rest
  }

  lemma OfOne(attempts: seq<Frame>, f: Frame, t: nat)
    ensures Of(attempts + [f], t)
         == if (f.Data? && f.from == t) || (f.Exit? && f.of == t) then Of(attempts, t) + [f] else Of(attempts, t)
  {
    assert (attempts + [f])[..|attempts|] == attempts;
  }

  // ---------------------------------------------------------------- one pump among others

  predicate IsPump(a: Action, t: nat) {
    match a
    case ReadTty(reader, _, _) => reader == t
    case SendData(sender, _) => sender == t
    case Forget(forgotten) => forgotten == t
    case Report(reported, _) => reported == t
    case _ => false
  }

  /** A shell and the frames its pump has attempted. */
  datatype Pump = Pump(shell: Terminal, frames: seq<Frame>)

  function PumpOf(s: State, t: nat): Pump
    requires t < |s.shells|
  {
    Pump(s.shells[t], Of(s.attempts, t))
  }

  /** What the code of pump does by itself, knowing nothing but its own shell. */
  function PumpStep(p: Pump, t: nat, a: Action): Pump {
    match (a, p.shell.phase)
    case (ReadTty(_, data, failed), Copying) =>
      if |data| > PTY_READ_CHUNK then p
      else
        var phase := if data != [] then Sending(data, failed) else if failed then Ended else Copying;
        p.(shell := p.shell.(phase := phase))
    case (SendData(_, sent), Sending(data, last)) =>
      Pump(p.shell.(phase := if !sent || last then Ended else Copying), p.frames + [Data(t, p.shell.id, data)])
    case (Forget(_), Ended) => p.(shell := p.shell.(phase := Forgotten))
    case (Report(_, code), Forgotten) => Pump(p.shell.(phase := Reported), p.frames + [Exit(t, p.shell.id, code)])
    case _ => p
  }

  function Own(actions: seq<Action>, t: nat): seq<Action> {
    if actions == [] then []
    else
      var rest, a := Own(actions[..|actions| - 1], t), actions[|actions| - 1];
      if IsPump(a, t) then rest + [a] else rest
  }

  function PumpAfter(p: Pump, t: nat, actions: seq<Action>): Pump {
    if actions == [] then p else PumpStep(PumpAfter(p, t, actions[..|actions| - 1]), t, actions[|actions| - 1])
  }

  /** A step of the pump is its own step, whatever the state of the rest; any other step is none to it. */
  lemma StepsAlone(s: State, a: Action, t: nat)
    requires t < |s.shells|
    ensures t < |Step(s, a).shells|
    ensures PumpOf(Step(s, a), t) == if IsPump(a, t) then PumpStep(PumpOf(s, t), t, a) else PumpOf(s, t)
  {
    var v := Step(s, a);
    if v.attempts != s.attempts {
      var f := v.attempts[|v.attempts| - 1];
      assert v.attempts == s.attempts + [f];
      OfOne(s.attempts, f, t);
    }
  }

  // ---------------------------------------------------------------- invariant

  predicate Running(p: Phase) {
    p.Copying? || p.Sending? || p.Ended?
  }

  /** Registered exactly while running, under its own id. */
  ghost predicate ShellOk(s: State, t: nat)
    requires t < |s.shells|
  {
    Running(s.shells[t].phase) <==> s.shells[t].id in s.open && s.open[s.shells[t].id] == t
  }

  ghost predicate Registered(s: State) {
    && (forall t: nat :: t < |s.shells| ==> ShellOk(s, t))
    && (forall id :: id in s.open ==> s.open[id] < |s.shells| && s.shells[s.open[id]].id == id)
  }

  ghost predicate RoomForOne(s: State) {
    && |s.open| <= MAX_TERMINALS
    && (s.caller.Starting? ==> |s.open| < MAX_TERMINALS && s.caller.id !in s.open)
  }

  /** Data under the shell's id, and nothing else. */
  ghost predicate DataOnly(frames: seq<Frame>, id: string) {
    forall i :: 0 <= i < |frames| ==> frames[i].Data? && frames[i].id == id && frames[i].data != []
  }

  ghost predicate DataThenExit(frames: seq<Frame>, id: string) {
    && |frames| > 0 && frames[|frames| - 1].Exit? && frames[|frames| - 1].id == id
    && DataOnly(frames[..|frames| - 1], id)
  }

  ghost predicate FramesOk(p: Pump) {
    && (p.shell.phase.Sending? ==> p.shell.phase.data != [])
    && if p.shell.phase.Reported? then DataThenExit(p.frames, p.shell.id) else DataOnly(p.frames, p.shell.id)
  }

  ghost predicate Inv(s: State) {
    && Registered(s) && RoomForOne(s)
    && (forall t: nat :: t < |s.shells| ==> FramesOk(PumpOf(s, t)))
    && (forall t: nat :: t >= |s.shells| ==> Of(s.attempts, t) == [])
  }

  /** What is registered depends on ids and on who is running alone. */
  lemma SameRegistered(s: State, v: State)
    requires Registered(s) && v.open == s.open && |v.shells| == |s.shells|
    requires forall t: nat :: t < |s.shells| ==> Alike(s.shells[t], v.shells[t])
    ensures Registered(v)
  {
    forall t: nat | t < |v.shells|
      ensures ShellOk(v, t)
    {
      assert ShellOk(s, t) && Alike(s.shells[t], v.shells[t]);
    }
    forall id | id in v.open
      ensures v.shells[v.open[id]].id == id
    {
      assert Alike(s.shells[s.open[id]], v.shells[s.open[id]]);
    }
  }

  ghost predicate Alike(a: Terminal, b: Terminal) {
    a.id == b.id && Running(a.phase) == Running(b.phase)
  }

  lemma ForgetKeeps(s: State, t: nat)
    requires Registered(s) && Enabled(s, Forget(t))
    ensures Registered(Step(s, Forget(t)))
  {
    var v := Step(s, Forget(t));
    assert ShellOk(s, t);
    forall u: nat | u < |v.shells|
      ensures ShellOk(v, u)
    {
      assert ShellOk(s, u);
    }
  }

  lemma StartKeeps(s: State)
    requires Registered(s) && Enabled(s, Starts) && s.caller.id !in s.open
    ensures Registered(Step(s, Starts))
  {
    var v := Step(s, Starts);
    forall u: nat | u < |v.shells|
      ensures ShellOk(v, u)
    {
      if u < |s.shells| { assert ShellOk(s, u); }
    }
  }

  lemma RegisteredKeeps(s: State, a: Action)
    requires Registered(s) && RoomForOne(s) && Enabled(s, a)
    ensures Registered(Step(s, a))
  {
    hide Registered;
    if a.Forget? {
      ForgetKeeps(s, a.forgotten);
    } else if a.Starts? {
      StartKeeps(s);
    } else {
      SameRegistered(s, Step(s, a));
    }
  }

  lemma RoomKeeps(s: State, a: Action)
    requires RoomForOne(s) && Enabled(s, a)
    ensures RoomForOne(Step(s, a))
  {
    if a.Forget? { SubsetSize(Step(s, a).open.Keys, s.open.Keys); }
    if a.Starts? { assert s.open[s.caller.id := |s.shells|].Keys == s.open.Keys + {s.caller.id}; }
  }

  lemma PumpKeeps(p: Pump, t: nat, a: Action)
    requires FramesOk(p)
    ensures FramesOk(PumpStep(p, t, a))
  {
  }

  lemma FramesKeep(s: State, a: Action, t: nat)
    requires Enabled(s, a)
    requires t < |s.shells| ==> FramesOk(PumpOf(s, t))
    requires t >= |s.shells| ==> Of(s.attempts, t) == []
    ensures t < |Step(s, a).shells| ==> FramesOk(PumpOf(Step(s, a), t))
    ensures t >= |Step(s, a).shells| ==> Of(Step(s, a).attempts, t) == []
  {
    if t < |s.shells| {
      StepsAlone(s, a, t);
      PumpKeeps(PumpOf(s, t), t, a);
    } else {
      NobodyElse(s, a, t);
    }
  }

  /** A shell that has not started attempts nothing. */
  lemma NobodyElse(s: State, a: Action, t: nat)
    requires t >= |s.shells| && Of(s.attempts, t) == []
    ensures Of(Step(s, a).attempts, t) == []
    ensures t < |Step(s, a).shells| ==> Step(s, a).shells[t].phase == Copying
  {
    var v := Step(s, a);
    if v.attempts != s.attempts {
      var f := v.attempts[|v.attempts| - 1];
      assert v.attempts == s.attempts + [f];
      OfOne(s.attempts, f, t);
    }
  }

  lemma StepKeeps(s: State, a: Action)
    requires Inv(s)
    ensures Inv(Step(s, a))
  {
    if Enabled(s, a) {
      RegisteredKeeps(s, a);
      RoomKeeps(s, a);
      forall t: nat
        ensures t < |Step(s, a).shells| ==> FramesOk(PumpOf(Step(s, a), t))
        ensures t >= |Step(s, a).shells| ==> Of(Step(s, a).attempts, t) == []
      {
        FramesKeep(s, a, t);
      }
    }
  }

  lemma {:induction false} RunKeeps(actions: seq<Action>)
    ensures Inv(Run(actions))
  {
    if actions == [] {
    } else {
      RunKeeps(actions[..|actions| - 1]);
      StepKeeps(Run(actions[..|actions| - 1]), actions[|actions| - 1]);
    }
  }

  // ---------------------------------------------------------------- theorems

  /** However the caller and the pumps interleave: at most eight shells are registered, each under its
      own id exactly while it runs. */
  lemma {:induction false} AtMostEight(actions: seq<Action>, t: nat)
    ensures var s := Run(actions);
            && |s.open| <= MAX_TERMINALS
            && (t < |s.shells| ==>
                  var x := s.shells[t];
                  Running(x.phase) <==> x.id in s.open && s.open[x.id] == t)
  {
    RunKeeps(actions);
    assert t < |Run(actions).shells| ==> ShellOk(Run(actions), t);
  }

  /** The ids of the shells that run. */
  ghost function RunningIds(s: State): set<string> {
    set t | 0 <= t < |s.shells| && Running(s.shells[t].phase) :: s.shells[t].id
  }

  lemma OpenIsRunning(s: State)
    requires Registered(s)
    ensures s.open.Keys == RunningIds(s)
  {
    forall id | id in s.open
      ensures id in RunningIds(s)
    {
      assert ShellOk(s, s.open[id]);
    }
    forall t: nat | t < |s.shells| && Running(s.shells[t].phase)
      ensures s.shells[t].id in s.open
    {
      assert ShellOk(s, t);
    }
  }

  /** A shell is refused exactly if one runs under its id or eight run; otherwise, unless it cannot be started, it
      runs under its id. */
  lemma {:induction false} RefusesExactly(actions: seq<Action>, id: string)
    requires Run(actions).caller.Idle? && id != ""
    ensures var s, t := Run(actions), Run(actions + [Check(id)]);
            var ids := RunningIds(s);
            && (id in ids ==> t == s.(attempts := s.attempts + [Refuse(id, AlreadyOpen)]))
            && (id !in ids && |ids| >= 8 ==> t == s.(attempts := s.attempts + [Refuse(id, TooMany)]))
            && (id !in ids && |ids| < 8 ==>
                  && Run(actions + [Check(id)] + [StartFails])
                     == s.(attempts := s.attempts + [Refuse(id, NotStarted)])
                  && var u := Run(actions + [Check(id)] + [Starts]);
                     && u.caller.Idle? && u.attempts == s.attempts && u.shells == s.shells + [Terminal(id, Copying)]
                     && RunningIds(u) == ids + {id})
  {
    hide After, RunningIds;
    RunKeeps(actions);
    OpenIsRunning(Run(actions));
    AfterOne(Step, NEW, actions, Check(id));
    AfterOne(Step, NEW, actions + [Check(id)], StartFails);
    AfterOne(Step, NEW, actions + [Check(id)], Starts);
    RunKeeps(actions + [Check(id)] + [Starts]);
    OpenIsRunning(Run(actions + [Check(id)] + [Starts]));
  }

  /** The pump's delete by id hits its own shell and no other. */
  lemma {:induction false} ForgetsItself(actions: seq<Action>, t: nat)
    requires t < |Run(actions).shells| && Enabled(Run(actions), Forget(t))
    ensures var s, v := Run(actions), Run(actions + [Forget(t)]);
            && s.shells[t].id in s.open && s.open[s.shells[t].id] == t
            && v.open.Keys == s.open.Keys - {s.shells[t].id}
            && forall id :: id in v.open ==> v.open[id] == s.open[id] && v.open[id] != t
  {
    hide After;
    RunKeeps(actions);
    AfterOne(Step, NEW, actions, Forget(t));
    var s := Run(actions);
    assert ShellOk(s, t);
    assert Step(s, Forget(t)).open == s.open - {s.shells[t].id};
    ForgottenIsOut(s, t);
  }

  lemma ForgottenIsOut(s: State, t: nat)
    requires Registered(s) && t < |s.shells| && s.shells[t].id in s.open && s.open[s.shells[t].id] == t
    ensures forall id :: id in s.open - {s.shells[t].id} ==> s.open[id] != t
  {
  }

  /** Two running shells have different ids. */
  lemma {:induction false} RunningIdsDiffer(actions: seq<Action>, t: nat, u: nat)
    ensures var s := Run(actions);
            t < u < |s.shells| && Running(s.shells[t].phase) && Running(s.shells[u].phase) ==>
              s.shells[t].id != s.shells[u].id
  {
    AtMostEight(actions, t);
    AtMostEight(actions, u);
  }

  /** Every started shell attempts data frames, and exactly one exit, after them, once its pump is done. */
  lemma {:induction false} DataThenOneExit(actions: seq<Action>, t: nat)
    ensures var s := Run(actions);
            t < |s.shells| ==>
              if s.shells[t].phase.Reported? then DataThenExit(Of(s.attempts, t), s.shells[t].id)
              else DataOnly(Of(s.attempts, t), s.shells[t].id)
  {
    RunKeeps(actions);
    assert t < |Run(actions).shells| ==> FramesOk(PumpOf(Run(actions), t));
  }

  function StepAll(s: State, actions: seq<Action>): State {
    After(Step, s, actions)
  }

  /** From any state in which its shell is running, a pump goes through its own steps as if it were alone,
      however the caller and the other pumps interleave with them. */
  lemma {:induction false} PumpsAlone(s: State, actions: seq<Action>, t: nat)
    requires t < |s.shells|
    ensures t < |StepAll(s, actions).shells|
    ensures PumpOf(StepAll(s, actions), t) == PumpAfter(PumpOf(s, t), t, Own(actions, t))
  {
    if actions == [] {
    } else {
      var init, a := actions[..|actions| - 1], actions[|actions| - 1];
      PumpsAlone(s, init, t);
      StepsAlone(StepAll(s, init), a, t);
      if IsPump(a, t) {
        assert (Own(init, t) + [a])[..|Own(init, t)|] == Own(init, t);
      }
    }
  }

  // ---------------------------------------------------------------- in place

  /** One read of the tty, and whether the frame it gives rise to is taken by the connection. */
  datatype Read = Read(data: seq<byte>, failed: bool, sent: bool)

  /** The frames the reads of a tty should give rise to: one for each that brought data, up to the first that failed
      or whose frame was not taken. */
  function DataFrames(t: nat, id: string, tty: seq<Read>): seq<Frame> {
    if tty == [] then []
    else
      var r := tty[0];
      var frame := if r.data != [] then [Data(t, id, r.data)] else [];
      if r.failed || (r.data != [] && !r.sent) then frame else frame + DataFrames(t, id, tty[1..])
  }

  /** What a pump will have attempted: `done` and, unless it has stopped, the frames of the reads from i on. */
  ghost function WillAttempt(done: seq<Frame>, t: nat, id: string, tty: seq<Read>, i: nat, stopped: bool): seq<Frame>
    requires i <= |tty|
  {
    if stopped then done else done + DataFrames(t, id, tty[i..])
  }

  lemma ReadsOn(done: seq<Frame>, t: nat, id: string, tty: seq<Read>, i: nat)
    requires i < |tty|
    ensures var r := tty[i];
            var more := if r.data != [] then done + [Data(t, id, r.data)] else done;
            WillAttempt(done, t, id, tty, i, false)
            == WillAttempt(more, t, id, tty, i + 1, r.failed || (r.data != [] && !r.sent))
  {
    var r := tty[i];
    assert tty[i..][0] == r && tty[i..][1..] == tty[i + 1..];
    if r.data != [] {
      var tail := if r.failed || !r.sent then [] else DataFrames(t, id, tty[i + 1..]);
      assert DataFrames(t, id, tty[i..]) == [Data(t, id, r.data)] + tail;
      assert done + ([Data(t, id, r.data)] + tail) == (done + [Data(t, id, r.data)]) + tail;
    }
  }

  lemma NothingRead(done: seq<Frame>, t: nat, id: string, tty: seq<Read>)
    ensures WillAttempt(done, t, id, tty, 0, false) == done + DataFrames(t, id, tty)
  {
    assert tty[0..] == tty;
  }

  lemma AllRead(done: seq<Frame>, t: nat, id: string, tty: seq<Read>, i: nat)
    requires i <= |tty|
    ensures WillAttempt(done, t, id, tty, i, true) == done
  {
  }

  lemma ReadShape(s: State, t: nat, data: seq<byte>, failed: bool)
    requires Enabled(s, ReadTty(t, data, failed))
    ensures var phase := if data != [] then Sending(data, failed) else if failed then Ended else Copying;
            Step(s, ReadTty(t, data, failed)) == s.(shells := Moved(s, t, phase))
  {
  }

  lemma EndShape(s: State, t: nat, code: int)
    requires Enabled(s, Forget(t))
    ensures var v := Step(s, Forget(t));
            && v == s.(open := s.open - {s.shells[t].id}, shells := Moved(s, t, Forgotten))
            && Step(v, Report(t, code))
               == v.(attempts := v.attempts + [Exit(t, s.shells[t].id, code)], shells := Moved(v, t, Reported))
  {
  }

  lemma NoneYet(s: State)
    ensures StepAll(s, []) == s
  {
    AfterNone(Step, s);
  }

  lemma SendShape(s: State, t: nat, sent: bool)
    requires Enabled(s, SendData(t, sent))
    ensures var p := s.shells[t].phase;
            Step(s, SendData(t, sent))
            == s.(attempts := s.attempts + [Data(t, s.shells[t].id, p.data)],
                  shells := Moved(s, t, if !sent || p.last then Ended else Copying))
  {
  }

  class TerminalManager {
    /** Shell numbers stand for the terminal objects. */
    var open: map<string, nat>
    var attempts: seq<Frame>
    ghost var state: State

    constructor ()
      ensures Matches() && state == NEW
    {
      open, attempts, state := map[], [], NEW;
    }

    ghost predicate Matches()
      reads this
    {
      open == state.open && attempts == state.attempts
    }

    ghost method Advance(start: State, actions: seq<Action>, a: Action) returns (more: seq<Action>)
      requires state == StepAll(start, actions)
      modifies `state
      ensures state == Step(old(state), a)
      ensures more == actions + [a] && state == StepAll(start, more)
    {
      AfterOne(Step, start, actions, a);
      more := actions + [a];
      state := Step(state, a);
    }

    /** openTerminal; `number` is the shell's if it starts. */
    method OpenTerminal(id: string, starts: bool, number: nat)
      returns (refused: Option<Refusal>, ghost actions: seq<Action>)
      requires Matches() && state.caller.Idle? && id != "" && number == |state.shells|
      modifies this
      ensures Matches() && state.caller.Idle? && state == StepAll(old(state), actions)
      ensures refused == match CheckOpen(old(open), id)
                         case Some(reason) => Some(reason)
                         case None => if starts then None else Some(NotStarted)
      ensures refused.Some? ==> open == old(open) && attempts == old(attempts) + [Refuse(id, refused.value)]
      ensures refused.None? ==> open == old(open)[id := number] && attempts == old(attempts)
    {
      hide After;
      ghost var start := state;
      actions := [];
      AfterNone(Step, start);
      actions := Advance(start, actions, Check(id));
      if id in open {
        attempts := attempts + [Refuse(id, AlreadyOpen)];
        return Some(AlreadyOpen), actions;
      }
      if |open| >= MAX_TERMINALS {
        attempts := attempts + [Refuse(id, TooMany)];
        return Some(TooMany), actions;
      }
      if !starts {
        actions := Advance(start, actions, StartFails);
        attempts := attempts + [Refuse(id, NotStarted)];
        return Some(NotStarted), actions;
      }
      actions := Advance(start, actions, Starts);
      open := open[id := number];
      return None, actions;
    }

    /** One read of the pump, and the send that follows it. */
    ghost method Copies(start: State, actions: seq<Action>, t: nat, r: Read) returns (more: seq<Action>)
      requires state == StepAll(start, actions) && t < |state.shells| && state.shells[t].phase.Copying?
      requires |r.data| <= PTY_READ_CHUNK
      modifies `state
      ensures state == StepAll(start, more) && state.open == old(state).open && |state.shells| == |old(state).shells|
      ensures var stops := r.failed || (r.data != [] && !r.sent);
              state.shells[t] == Terminal(old(state).shells[t].id, if stops then Ended else Copying)
      ensures state.attempts
           == old(state).attempts + if r.data != [] then [Data(t, old(state).shells[t].id, r.data)] else []
    {
      hide After, Step;
      ReadShape(state, t, r.data, r.failed);
      more := Advance(start, actions, ReadTty(t, r.data, r.failed));
      if r.data != [] {
        SendShape(state, t, r.sent);
        more := Advance(start, more, SendData(t, r.sent));
      }
    }

    /** The pump's last two steps. */
    ghost method Ends(start: State, actions: seq<Action>, t: nat, code: int) returns (more: seq<Action>)
      requires state == StepAll(start, actions) && t < |state.shells| && state.shells[t].phase.Ended?
      modifies `state
      ensures state == StepAll(start, more) && |state.shells| == |old(state).shells|
      ensures var id := old(state).shells[t].id;
              && state.shells[t] == Terminal(id, Reported) && state.open == old(state).open - {id}
              && state.attempts == old(state).attempts + [Exit(t, id, code)]
    {
      hide After, Step;
      EndShape(state, t, code);
      more := Advance(start, actions, Forget(t));
      more := Advance(start, more, Report(t, code));
    }

    /** pump, undisturbed. The tty fails at some point: the shell ends or the caller closes it. */
    method Pump(id: string, t: nat, tty: seq<Read>, code: int) returns (ghost actions: seq<Action>)
      requires Matches() && t < |state.shells| && state.shells[t] == Terminal(id, Copying)
      requires |tty| > 0 && tty[|tty| - 1].failed
      requires forall i :: 0 <= i < |tty| ==> |tty[i].data| <= PTY_READ_CHUNK
      modifies this
      ensures Matches() && state == StepAll(old(state), actions)
      ensures |state.shells| == |old(state.shells)| && state.shells[t] == Terminal(id, Reported)
      ensures id !in open && attempts == old(attempts) + DataFrames(t, id, tty) + [Exit(t, id, code)]
    {
      hide StepAll, Step, DataFrames, WillAttempt;
      ghost var start, all := state, attempts + DataFrames(t, id, tty);
      actions := [];
      NoneYet(start);
      var i, ended := 0, false;
      NothingRead(attempts, t, id, tty);
      while !ended
        invariant 0 <= i <= |tty| && (!ended ==> i < |tty|)
        invariant Matches() && state == StepAll(start, actions)
        invariant |state.shells| == |start.shells|
        invariant state.shells[t] == Terminal(id, if ended then Ended else Copying)
        invariant WillAttempt(attempts, t, id, tty, i, ended) == all
        decreases |tty| - i
      {
        var r := tty[i];
        ReadsOn(attempts, t, id, tty, i);
        actions := Copies(start, actions, t, r);
        ended := (|r.data| > 0 && !r.sent) || r.failed;
        if |r.data| > 0 {
          attempts := attempts + [Data(t, id, r.data)];
        }
        i := i + 1;
      }
      AllRead(attempts, t, id, tty, i);
      actions := Ends(start, actions, t, code);
      open := open - {id};
      attempts := attempts + [Exit(t, id, code)];
    }
  }
}
