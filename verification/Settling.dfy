/**
 * A relay session left to itself comes to rest: from every reachable state finitely many steps lead to one in
 * which every channel is Quiet and both maps hold the same channels. None of them is a new phone or a failing
 * write, and no phone is given up that was not told to stop.
 */
module Settling {
  import opened Bytes
  import opened Link
  import opened Relay
  import C = Channels
  import R = Runs

  function PhoneWeight(p: Phone): nat {
    match p
    case Unborn => 0
    case Opening => 60
    case Running => 40
    case Leaving => 30
    case Closing => 20
    case Gone => 0
  }

  function OnceWeight(o: Once): nat {
    match o
    case Fresh => 6
    case Deleting => 5
    case Writing => 4
    case Over => 0
  }

  function DemuxWeight(d: Demux): nat {
    match d
    case Idle => 0
    case Deliver(_) => 9
    case Backlog => 8
    case Finish => 9
  }

  function LoopWeight(l: Loop): nat {
    match l
    case Waiting => 0
    case Forward(_) => 2
    case Cancelling => 1
  }

  function EndsWeight(x: Ends): nat {
    PhoneWeight(x.p.phone) + OnceWeight(x.b.once)
  }

  /** What is still to be done for one channel. */
  function ChannelWeight(v: Channel): nat {
    EndsWeight(Ends(v.p, v.r, v.b)) + 10 * |v.down| + 3 * |v.up| + DemuxWeight(v.demux) + LoopWeight(v.loop)
  }

  /** The channels numbered 1 to n. */
  function Total(ends: map<nat, Ends>, n: nat): nat {
    if n == 0 then 0 else Total(ends, n - 1) + if n in ends then EndsWeight(ends[n]) else 0
  }

  /** What is still to be done in the whole session. */
  function Weight(s: State, n: nat): nat {
    Total(s.ends, n) + 10 * |s.down| + 3 * |s.up| + DemuxWeight(s.demux) + LoopWeight(s.loop)
  }

  lemma {:induction false} TotalUpdate(ends: map<nat, Ends>, n: nat, ch: nat, x: Ends)
    requires ch in ends
    ensures Total(ends[ch := x], n) == Total(ends, n) + if 1 <= ch <= n then EndsWeight(x) - EndsWeight(ends[ch]) else 0
  {
    if n > 0 {
      TotalUpdate(ends, n - 1, ch, x);
    }
  }

  lemma PutLength<T>(q: seq<T>, x: Option<T>)
    ensures |Put(q, x)| == |q| + if x.Some? then 1 else 0
  {
  }

  /** The shared queues grow and shrink with the channel's. */
  lemma QueuesMove(s: State, ch: nat, e: Event)
    requires CanMove(s, ch, e)
    ensures |Advance(s, ch, e).down| - |s.down| == |Step(View(s, ch), e).down| - |View(s, ch).down|
    ensures |Advance(s, ch, e).up| - |s.up| == |Step(View(s, ch), e).up| - |View(s, ch).up|
  {
    hide Step, Down, Up, Put;
    var v := View(s, ch);
    StepShape(v, e);
    PutLength(if e.DemuxPop? then s.down[1..] else s.down, Tag(ch, Down(v, e)));
    PutLength(if e.LoopPop? then s.up[1..] else s.up, Tag(ch, Up(v, e)));
    PutLength(if e.DemuxPop? then v.down[1..] else v.down, Down(v, e));
    PutLength(if e.LoopPop? then v.up[1..] else v.up, Up(v, e));
  }

  /** A step of one channel changes the session's weight as it changes the channel's. */
  lemma MoveWeight(s: State, ch: nat, e: Event, n: nat)
    requires CanMove(s, ch, e) && 1 <= ch <= n
    ensures var v := View(s, ch);
            Weight(Advance(s, ch, e), n) - Weight(s, n) == ChannelWeight(Step(v, e)) - ChannelWeight(v)
  {
    hide Step, Down, Up, Put, Total, EndsWeight, DemuxWeight, LoopWeight;
    var v := View(s, ch);
    var t := Step(v, e);
    StepShape(v, e);
    QueuesMove(s, ch, e);
    TotalUpdate(s.ends, n, ch, Ends(t.p, t.r, t.b));
    DemuxBusy(s, ch, e);
  }

  /** A busy read loop is busy with the channel that moves it. */
  lemma DemuxBusy(s: State, ch: nat, e: Event)
    requires CanMove(s, ch, e)
    ensures DemuxEvent(e) ==> View(s, ch).demux == s.demux
    ensures LoopEvent(e) ==> View(s, ch).loop == s.loop
  {
  }

  /** The steps that get something done. */
  predicate Progress(e: Event) {
    || e.WriteOpen? || e.Quit? || e.Forget? || e.WriteClose? || e.CloseDelete? || e.CloseWrite?
    || e.DemuxPop? || e.DemuxPush? || e.DemuxClose? || e.DemuxResume? || e.DemuxFinish?
    || e.LoopPop? || e.LoopWrite? || e.LoopCancel?
  }

  lemma PhoneLighter(v: Channel, e: Event)
    requires Enabled(v, e) && (e.WriteOpen? || e.Quit? || e.Forget? || e.WriteClose? || e.CloseDelete? || e.CloseWrite?)
    ensures ChannelWeight(Step(v, e)) < ChannelWeight(v)
  {
    StepShape(v, e);
  }

  lemma LoopLighter(v: Channel, e: Event)
    requires Enabled(v, e) && (DemuxEvent(e) || e.LoopPop? || e.LoopWrite? || e.LoopCancel?)
    ensures ChannelWeight(Step(v, e)) < ChannelWeight(v)
  {
    StepShape(v, e);
  }

  lemma Lighter(v: Channel, e: Event)
    requires Enabled(v, e) && Progress(e)
    ensures ChannelWeight(Step(v, e)) < ChannelWeight(v)
  {
    hide Step, Enabled, ChannelWeight;
    if DemuxEvent(e) || e.LoopPop? || e.LoopWrite? || e.LoopCancel? { LoopLighter(v, e); } else { PhoneLighter(v, e); }
  }

  // ---------------------------------------------------------------- what to do next

  /** How the bridge's busy read loop goes on. */
  function DemuxChoice(v: Channel): Event {
    match v.b.once
    case Deleting => if v.demux.Deliver? then DemuxPush else CloseDelete
    case Writing => if v.demux.Deliver? then DemuxPush else CloseWrite
    case Fresh => if v.demux.Deliver? then DemuxPush else if v.demux.Backlog? then DemuxClose else DemuxFinish
    case Over => if v.demux.Deliver? then DemuxPush else if v.demux.Backlog? then DemuxResume else DemuxFinish
  }

  /** How a channel with empty queues and idle read loops goes on. */
  function RestChoice(v: Channel): Event {
    if v.b.once == Deleting then CloseDelete
    else if v.b.once == Writing then CloseWrite
    else if v.p.phone == Opening then WriteOpen
    else if v.p.phone == Leaving then Forget
    else if v.p.phone == Closing then WriteClose
    else Quit
  }

  function Choose(s: State, restless: nat): Move {
    if !s.demux.Idle? && s.demuxAt in s.ends then On(s.demuxAt, DemuxChoice(View(s, s.demuxAt)))
    else if s.down != [] then On(s.down[0].ch, DemuxPop)
    else if !s.loop.Waiting? then On(s.loopAt, if s.loop.Forward? then LoopWrite else LoopCancel)
    else if s.up != [] then if s.up[0].ch == 0 then KeepaliveRead else On(s.up[0].ch, LoopPop)
    else if restless in s.ends then On(restless, RestChoice(View(s, restless)))
    else KeepaliveRead
  }

  /** A step that is possible and gets something done; a phone quits only when its context is cancelled. */
  ghost predicate Moves(s: State, m: Move) {
    match m
    case On(ch, e) => CanMove(s, ch, e) && Progress(e) && 1 <= ch <= C.CHANNELS && (e.Quit? ==> s.ends[ch].r.cancelled)
    case KeepaliveRead => s.loop.Waiting? && s.up != [] && s.up[0].ch == 0
    case _ => false
  }

  lemma DemuxMoves(v: Channel)
    requires !v.demux.Idle?
    ensures var e := DemuxChoice(v);
            Enabled(v, e) && Progress(e) && !e.Admit? && !e.DemuxPop? && !e.LoopPop? && !e.Quit?
  {
  }

  lemma RestMoves(v: Channel)
    requires !Quiet(v) && v.down == [] && v.up == [] && v.demux.Idle? && v.loop.Waiting?
    ensures var e := RestChoice(v); Enabled(v, e) && Progress(e) && !e.Admit? && !e.DemuxPop? && !e.LoopPop?
    ensures RestChoice(v).Quit? ==> v.r.cancelled
  {
  }

  /** The next frame of a queue can be read by an idle loop. */
  lemma PopMoves(maxPhones: nat, s: State)
    requires Numbers(maxPhones, s) && TagsOk(s)
    ensures s.demux.Idle? && s.down != [] ==> Moves(s, On(s.down[0].ch, DemuxPop))
    ensures s.loop.Waiting? && s.up != [] && s.up[0].ch != 0 ==> Moves(s, On(s.up[0].ch, LoopPop))
  {
    if s.down != [] {
      assert s.down[0] in s.down;
      ProjPop(s.down, s.down[0].ch);
    }
    if s.up != [] {
      assert s.up[0] in s.up;
      ProjPop(s.up, s.up[0].ch);
    }
  }

  lemma ChoiceMoves(maxPhones: nat, s: State, restless: nat)
    requires Numbers(maxPhones, s) && TagsOk(s) && restless in s.ends && !Quiet(View(s, restless))
    ensures Moves(s, Choose(s, restless))
  {
    hide TagsOk, Quiet, DemuxChoice, RestChoice, Progress;
    PopMoves(maxPhones, s);
    if !s.demux.Idle? {
      DemuxMoves(View(s, s.demuxAt));
    } else if s.down != [] {
    } else if !s.loop.Waiting? {
      LoopMoves(View(s, s.loopAt));
    } else if s.up != [] {
    } else {
      RestMoves(View(s, restless));
    }
  }

  lemma LoopMoves(v: Channel)
    requires !v.loop.Waiting?
    ensures var e := if v.loop.Forward? then LoopWrite else LoopCancel; Enabled(v, e) && Progress(e)
  {
  }

  /** While some channel is not quiet there is a step that gets something done. */
  lemma StepsOn(maxPhones: nat, s: State, restless: nat)
    requires maxPhones <= C.CHANNELS && Numbers(maxPhones, s) && TagsOk(s)
    requires restless in s.ends && !Quiet(View(s, restless))
    ensures var m := Choose(s, restless);
            Moves(s, m) && Weight(Next(maxPhones, s, m), C.CHANNELS) < Weight(s, C.CHANNELS)
  {
    hide Total, ChannelWeight, Quiet, Numbers, TagsOk, Choose;
    ChoiceMoves(maxPhones, s, restless);
    match Choose(s, restless)
    case On(ch, e) =>
      MoveWeight(s, ch, e, C.CHANNELS);
      Lighter(View(s, ch), e);
    case KeepaliveRead =>
  }

  /** Every run can be completed, without another phone coming, a write failing or a phone quitting that is not
      cancelled, to one in which every channel is quiet; both maps then hold the same channels. */
  lemma {:induction false} ComesToRest(maxPhones: nat, moves: seq<Move>) returns (more: seq<Move>)
    requires maxPhones <= C.CHANNELS
    ensures forall i :: 0 <= i < |more| ==> Moves(Run(maxPhones, moves + more[..i]), more[i])
    ensures var s := Run(maxPhones, moves + more);
            (forall c :: c in s.ends ==> Quiet(View(s, c))) && Held(s) == InMap(s)
    decreases Weight(Run(maxPhones, moves), C.CHANNELS)
  {
    hide R.After, Weight, Choose, Moves, Quiet, Numbers, TagsOk, ChannelOk, PastOk, Held, InMap;
    var s := Run(maxPhones, moves);
    RunKeeps(maxPhones, moves);
    if restless :| restless in s.ends && !Quiet(View(s, restless)) {
      var m := Choose(s, restless);
      StepsOn(maxPhones, s, restless);
      R.AfterOne(Stepper(maxPhones), IDLE, moves, m);
      var rest := ComesToRest(maxPhones, moves + [m]);
      more := [m] + rest;
      assert moves + more == moves + [m] + rest;
      forall i | 0 <= i < |more|
        ensures Moves(Run(maxPhones, moves + more[..i]), more[i])
      {
        if i == 0 {
          assert moves + more[..0] == moves;
        } else {
          assert moves + more[..i] == moves + [m] + rest[..i - 1];
        }
      }
    } else {
      more := [];
      assert moves + more == moves;
      MapsEqualWhenQuiet(maxPhones, moves);
    }
  }
}
