/**
 * Two holders of one channel number, the second entered while the first is still being taken down (the relay
 * deletes a phone before it writes its close). Both are channels of Link. Whatever the first still writes, and
 * whatever of it the relay still reads, goes by the number: to the second.
 */
module Reuse {
  import opened Bytes
  import opened Link
  import opened Runs

  /** A channel whose phone has just been entered into the relay's map. */
  const ENTERED := Channel(UNBORN.p.(phone := Opening), UNBORN.r.(held := true), UNBORN.b, [], [], Idle, Waiting)

  /** was: the first holder, with its frames toward the bridge from before; now: the second, with all other frames of
      the number; alone: the second as it would be without the first. */
  datatype Hand = Hand(was: Channel, now: Channel, alone: Channel)

  datatype Move = ByOld(e: Event) | ByNow(e: Event)

  function Start(was: Channel): Hand {
    Hand(was.(up := []), ENTERED.(up := was.up), ENTERED)
  }

  /** Each read loop does one thing at a time, and the bridge reads the first holder's frames first. */
  predicate Can(h: Hand, m: Move) {
    match m
    case ByOld(e) =>
      && Enabled(h.was, e) && (DemuxEvent(e) ==> h.now.demux.Idle?) && (LoopEvent(e) ==> h.now.loop.Waiting?)
    case ByNow(e) =>
      && Enabled(h.now, e) && !e.Admit? && (e.DemuxPop? ==> h.was.down == [])
      && (DemuxEvent(e) ==> h.was.demux.Idle?) && (LoopEvent(e) ==> h.was.loop.Waiting?)
  }

  /** The first holder's next state; its frames and a failing write to its phone hit the number. */
  function OldStep(h: Hand, e: Event): Hand {
    var t := Step(h.was, e);
    var was := t.(down := if e.DemuxPop? then t.down else h.was.down, up := []);
    var now := h.now.(down := Put(h.now.down, Down(h.was, e)), up := Put(h.now.up, Up(h.was, e)));
    h.(was := was, now := if e.LoopFails? then now.(r := now.r.(held := false, cancelled := true)) else now)
  }

  function HandStep(h: Hand, m: Move): Hand {
    if !Can(h, m) then h
    else
      match m
      case ByOld(e) => OldStep(h, e)
      case ByNow(e) => h.(now := Step(h.now, e), alone := Step(h.alone, e))
  }

  function Run(was: Channel, moves: seq<Move>): Hand {
    After(HandStep, Start(was), moves)
  }

  /** The first holder has left no trace on the second. */
  predicate Undisturbed(h: Hand) {
    h.now == h.alone
  }

  /** No frame of the first holder is on its way to the relay or can still be written in either direction, and no write
      to its phone can still fail. */
  predicate Safe(was: Channel) {
    && was.p.phone == Gone && was.up == [] && was.b.writer.None? && !was.loop.Forward?
    && (was.b.once == Over || (was.b.once == Fresh && !was.b.made && !was.p.announced))
  }

  lemma RetiredIsSafe(was: Channel)
    requires Inv(was) && Retired(was)
    ensures Safe(was)
  {
    var first := was.p.announced && !was.b.made;
    assert |Bracket(first, was.p.fwd[was.b.landed..], !was.b.ended)| >= if first then 1 else 0;
  }

  // ---------------------------------------------------------------- safe is enough

  /** What a safe holder still does: nothing that the number could feel. */
  lemma SafeIsSilent(was: Channel, e: Event)
    requires Inv(was) && Safe(was) && Enabled(was, e)
    ensures Down(was, e) == None && Up(was, e) == None && !e.LoopFails? && !e.LoopPop?
    ensures Safe(Step(was, e))
  {
    hide Step, Safe, DownOk, PhoneOk, ReadOk, UpOk;
    if e.DemuxPop? {
      SafePops(was);
    } else {
      SafeMoves(was, e);
    }
    SafeWrites(was, e);
  }

  lemma SafeWrites(was: Channel, e: Event)
    requires Safe(was) && Enabled(was, e)
    ensures Down(was, e) == None && Up(was, e) == None && !e.LoopFails? && !e.LoopPop?
  {
  }

  lemma SafeMoves(was: Channel, e: Event)
    requires Safe(was) && Enabled(was, e) && !e.DemuxPop? && (was.demux.Backlog? ==> was.b.made)
    ensures Safe(Step(was, e))
  {
  }

  lemma SafePops(was: Channel)
    requires Inv(was) && Safe(was) && Enabled(was, DemuxPop)
    ensures Safe(Step(was, DemuxPop))
  {
    hide Step, Safe, PhoneOk, ReadOk, UpOk, HeadOk;
    NextDown(was);
    NoOpen(was);
    SafeReads(was);
  }

  lemma NoOpen(was: Channel)
    requires was.down != [] && was.b.landed <= |was.p.fwd| && HeadOk(was) && Safe(was)
    requires was.b.once == Over ==> was.b.made
    ensures was.down[0] != Open
  {
  }

  lemma SafeReads(was: Channel)
    requires Safe(was) && Enabled(was, DemuxPop) && was.down[0] != Open
    ensures Safe(Step(was, DemuxPop))
  {
  }

  ghost predicate SafeHand(h: Hand) {
    Inv(h.was) && Safe(h.was) && Undisturbed(h) && Inv(h.now)
  }

  lemma OldIsSilent(h: Hand, e: Event)
    requires Inv(h.was) && Safe(h.was) && Undisturbed(h) && Can(h, ByOld(e))
    ensures var t := HandStep(h, ByOld(e)); Inv(t.was) && Safe(t.was) && Undisturbed(t) && t.now == h.now
  {
    hide Inv, Step, Enabled, Down, Up;
    SafeIsSilent(h.was, e);
    StepKeeps(h.was, e);
    SilentStep(h.was, e);
    assert HandStep(h, ByOld(e)) == h.(was := Step(h.was, e));
  }

  lemma SilentStep(was: Channel, e: Event)
    requires Enabled(was, e) && was.up == [] && Down(was, e) == None && Up(was, e) == None && !e.LoopPop?
    ensures Step(was, e).up == [] && (!e.DemuxPop? ==> Step(was, e).down == was.down)
  {
  }

  lemma NowIsAlone(h: Hand, e: Event)
    requires Inv(h.now) && Undisturbed(h) && Can(h, ByNow(e))
    ensures var t := HandStep(h, ByNow(e)); t.was == h.was && Undisturbed(t) && Inv(t.now)
  {
    hide Inv, Step, Enabled, Safe;
    StepKeeps(h.now, e);
  }

  lemma EnteredKeeps()
    ensures Inv(ENTERED)
  {
    BracketNone();
  }

  lemma {:induction false} SafeRun(was: Channel, moves: seq<Move>)
    requires Inv(was) && Safe(was)
    ensures SafeHand(Run(was, moves))
  {
    hide Inv, Safe, HandStep;
    if moves == [] {
      EnteredKeeps();
      SafeStart(was);
    } else {
      var h, m := Run(was, moves[..|moves| - 1]), moves[|moves| - 1];
      SafeRun(was, moves[..|moves| - 1]);
      if !Can(h, m) {
        Skips(h, m);
      } else if m.ByOld? {
        OldIsSilent(h, m.e);
      } else {
        NowIsAlone(h, m.e);
      }
    }
  }

  lemma SafeStart(was: Channel)
    requires Safe(was)
    ensures Start(was) == Hand(was, ENTERED, ENTERED)
  {
  }

  lemma Skips(h: Hand, m: Move)
    requires !Can(h, m)
    ensures HandStep(h, m) == h
  {
  }

  // ---------------------------------------------------------------- and it is needed

  /** A step of the first holder that the second feels. */
  predicate Felt(was: Channel, e: Event) {
    Enabled(was, e) && (Down(was, e).Some? || Up(was, e).Some? || e.LoopFails?)
  }

  /** Steps of the first holder up to one that the second feels. */
  predicate Path(was: Channel, es: seq<Event>)
    decreases |es|
  {
    && es != [] && was.up == []
    && (Felt(was, es[0]) || (Enabled(was, es[0]) && !es[0].LoopPop? && Path(Step(was, es[0]), es[1..])))
  }

  /** A step of the first holder right after the second was entered. */
  lemma OldMoves(h: Hand, e: Event)
    requires Enabled(h.was, e) && h.was.up == [] && !e.LoopPop? && h.now == h.alone == ENTERED
    ensures var t := HandStep(h, ByOld(e));
            && t.alone == ENTERED && (Felt(h.was, e) ==> !Undisturbed(t))
            && (!Felt(h.was, e) ==> t == h.(was := Step(h.was, e)))
  {
    hide Enabled, Step;
    if !Felt(h.was, e) { SilentStep(h.was, e); }
  }

  /** What the second holder has felt by itself stays felt: nothing else moves in these runs. */
  lemma {:induction false} PathDisturbs(h: Hand, es: seq<Event>)
    requires h.now == h.alone == ENTERED && Path(h.was, es)
    ensures exists moves :: !Undisturbed(After(HandStep, h, moves))
    decreases |es|
  {
    hide HandStep, Step, Felt;
    var m := ByOld(es[0]);
    FeltIsNoPop(h.was, es[0]);
    OldMoves(h, es[0]);
    AfterNone(HandStep, h);
    AfterOne(HandStep, h, [], m);
    assert [] + [m] == [m];
    if !Felt(h.was, es[0]) {
      PathDisturbs(HandStep(h, m), es[1..]);
      var rest :| !Undisturbed(After(HandStep, HandStep(h, m), rest));
      AfterBoth(HandStep, h, [m], rest);
    }
  }

  lemma FeltIsNoPop(was: Channel, e: Event)
    requires was.up == []
    ensures Felt(was, e) ==> Enabled(was, e) && !e.LoopPop?
  {
  }

  lemma PathOn(was: Channel, e: Event, es: seq<Event>)
    requires was.up == [] && Enabled(was, e) && !e.LoopPop? && Path(Step(was, e), es)
    ensures Path(was, [e] + es)
  {
    hide Enabled, Step, Felt;
    assert ([e] + es)[1..] == es;
  }

  lemma ClosingPath(was: Channel)
    requires was.up == [] && (was.b.once == Deleting || was.b.once == Writing)
    ensures Path(was, if was.b.once == Deleting then [CloseDelete, CloseWrite] else [CloseWrite])
  {
    hide Path;
    if was.b.once == Deleting {
      var t := Step(was, CloseDelete);
      assert t == was.(b := was.b.(once := Writing, inMap := false));
      FeltAtOnce(t, CloseWrite);
      PathOn(was, CloseDelete, [CloseWrite]);
      assert [CloseDelete] + [CloseWrite] == [CloseDelete, CloseWrite];
    } else {
      FeltAtOnce(was, CloseWrite);
    }
  }

  lemma TunnelPath(was: Channel)
    requires was.up == [] && was.b.once == Fresh && was.b.made
    ensures Path(was, [ConnClose, CloseDelete, CloseWrite])
  {
    hide Path;
    var t := Step(was, ConnClose);
    assert t == was.(b := was.b.(once := Deleting));
    ClosingPath(t);
    PathOn(was, ConnClose, [CloseDelete, CloseWrite]);
    assert [ConnClose] + [CloseDelete, CloseWrite] == [ConnClose, CloseDelete, CloseWrite];
  }

  /** The open is still on its way: the bridge makes the channel, and the tunnel closes it. */
  lemma OpenPath(was: Channel)
    requires was.up == [] && was.b.once == Fresh && was.demux.Idle? && was.down != [] && was.down[0] == Open
    ensures Path(was, [DemuxPop, ConnClose, CloseDelete, CloseWrite])
  {
    hide Path;
    var t := Step(was, DemuxPop);
    assert t == was.(b := was.b.(made := true, inMap := true), down := was.down[1..]);
    TunnelPath(t);
    PathOn(was, DemuxPop, [ConnClose, CloseDelete, CloseWrite]);
    assert [DemuxPop] + [ConnClose, CloseDelete, CloseWrite] == [DemuxPop, ConnClose, CloseDelete, CloseWrite];
  }

  lemma PhonePath(was: Channel) returns (es: seq<Event>)
    requires was.up == [] && was.p.phone != Gone && was.p.phone != Unborn
    ensures Path(was, es)
  {
    match was.p.phone
    case Opening => es := [WriteOpen];
    case Closing => es := [WriteClose];
    case Leaving =>
      es := [Forget, WriteClose];
      assert Step(was, Forget) == was.(p := was.p.(phone := Closing), r := was.r.(held := false));
      assert es[1..] == [WriteClose];
    case Running =>
      es := [Quit, Forget, WriteClose];
      var t := Step(was, Quit);
      assert t == was.(p := was.p.(phone := Leaving, pending := None));
      assert Step(t, Forget) == t.(p := t.p.(phone := Closing), r := t.r.(held := false));
      assert es[1..] == [Forget, WriteClose] && es[1..][1..] == [WriteClose];
  }

  lemma UnsafePath(was: Channel) returns (es: seq<Event>)
    requires Inv(was) && was.up == [] && was.p.phone != Unborn && !Safe(was)
    ensures Path(was, es)
  {
    hide Path, Step;
    if was.p.phone != Gone {
      es := PhonePath(was);
    } else if was.b.once == Deleting || was.b.once == Writing {
      ClosingPath(was);
      es := if was.b.once == Deleting then [CloseDelete, CloseWrite] else [CloseWrite];
    } else if was.b.writer.Some? {
      es := [ConnWrite];
      FeltAtOnce(was, ConnWrite);
    } else if was.loop.Forward? {
      es := [LoopFails];
      FeltAtOnce(was, LoopFails);
    } else if was.b.made {
      TunnelPath(was);
      es := [ConnClose, CloseDelete, CloseWrite];
    } else {
      BracketOpen(was.p.fwd[was.b.landed..], !was.b.ended);
      OpenPath(was);
      es := [DemuxPop, ConnClose, CloseDelete, CloseWrite];
    }
  }

  lemma FeltAtOnce(was: Channel, e: Event)
    requires was.up == [] && Felt(was, e)
    ensures Path(was, [e])
  {
  }

  // ---------------------------------------------------------------- theorems

  /** A number can be handed on with its first holder in this state, and no run of the two will ever show in the
      second, exactly if the first is Safe. A Retired one is. */
  lemma UndisturbedIff(was: Channel)
    requires Inv(was) && was.p.phone != Unborn
    ensures Safe(was) <==> forall moves :: Undisturbed(Run(was, moves))
    ensures Retired(was) ==> Safe(was)
  {
    hide Inv, HandStep, Safe, Step;
    if Retired(was) { RetiredIsSafe(was); }
    if Safe(was) {
      forall moves
        ensures Undisturbed(Run(was, moves))
      {
        SafeRun(was, moves);
      }
    } else if was.up != [] {
      AfterNone(HandStep, Start(was));
      assert !Undisturbed(Run(was, []));
    } else {
      var es := UnsafePath(was);
      assert Start(was) == Hand(was, ENTERED, ENTERED);
      PathDisturbs(Start(was), es);
      var moves :| !Undisturbed(After(HandStep, Start(was), moves));
      assert !Undisturbed(Run(was, moves));
    }
  }

  /** After a safe hand-over everything Link says of a channel holds of the second holder. */
  lemma {:induction false} SecondIsAChannel(was: Channel, moves: seq<Move>)
    requires Inv(was) && Safe(was)
    ensures Inv(Run(was, moves).now) && Run(was, moves).now == Run(was, moves).alone
  {
    hide Inv, Safe, HandStep;
    SafeRun(was, moves);
  }

  /** A write to the first phone that fails late takes the second one out of the relay's map. */
  lemma FailureHitsNumber(h: Hand)
    requires h.was.loop.Forward? && h.now.loop.Waiting?
    ensures var t := HandStep(h, ByOld(LoopFails));
            t.now == h.now.(r := h.now.r.(held := false, cancelled := true)) && t.alone == h.alone
  {
  }

  // ---------------------------------------------------------------- a hand-over that is not safe

  /** A phone that has been deleted from the relay's map and has not written its close. */
  const DELETED := ENTERED.(
    p := ENTERED.p.(phone := Closing, announced := true), r := UNBORN.r, b := UNBORN.b.(made := true, inMap := true))

  const LATE := [ByNow(WriteOpen), ByNow(DemuxPop), ByOld(WriteClose), ByNow(DemuxPop), ByNow(DemuxFinish)]

  /** The first holder's close comes late: nothing is in flight any more and the second phone is served, but the bridge
      has dropped its channel. */
  lemma LateClose()
    ensures DELETED == After(Step, ENTERED, [WriteOpen, DemuxPop, Quit, Forget])
    ensures var h := Run(DELETED, LATE);
            && h.alone.b.inMap && h.alone.r.held && h.now.r.held && h.now.p.phone == Running
            && Quiet(h.alone) && Quiet(h.now) && !h.now.b.inMap
  {
    Deleted();
    Late();
  }

  lemma Opens(c: Channel)
    requires c.p.phone == Opening
    ensures Step(c, WriteOpen) == c.(p := c.p.(phone := Running, announced := true), down := c.down + [Open])
  {
  }

  lemma OpenArrives(c: Channel)
    requires c.demux.Idle? && c.down == [Open]
    ensures Step(c, DemuxPop) == c.(b := c.b.(made := true, inMap := true), down := [])
  {
  }

  lemma Leaves(c: Channel)
    requires c.p.phone == Running
    ensures Step(Step(c, Quit), Forget)
         == c.(p := c.p.(phone := Closing, pending := None), r := c.r.(held := false))
  {
    var t := Step(c, Quit);
    assert t == c.(p := c.p.(phone := Leaving, pending := None));
  }

  lemma CloseArrives(c: Channel)
    requires c.demux.Idle? && c.down == [Close] && c.b.inMap && c.b.once == Fresh
    ensures Step(Step(c, DemuxPop), DemuxFinish)
         == c.(b := c.b.(inMap := false, ended := true, once := Over), down := [])
    ensures Enabled(Step(c, DemuxPop), DemuxFinish)
  {
    var t := Step(c, DemuxPop);
    assert t == c.(b := c.b.(inMap := false, ended := true), down := [], demux := Finish);
  }

  lemma Deleted()
    ensures DELETED == After(Step, ENTERED, [WriteOpen, DemuxPop, Quit, Forget])
  {
    hide Step, After;
    var es := [WriteOpen, DemuxPop, Quit, Forget, Quit];
    FiveSteps(Step, ENTERED, es);
    assert es[..4] == [WriteOpen, DemuxPop, Quit, Forget];
    Opens(ENTERED);
    OpenArrives(Step(ENTERED, WriteOpen));
    Leaves(Step(Step(ENTERED, WriteOpen), DemuxPop));
  }

  lemma Together(h: Hand)
    requires h.was == DELETED && h.now == h.alone == ENTERED
    ensures var t := HandStep(HandStep(h, ByNow(WriteOpen)), ByNow(DemuxPop));
            && t.was == DELETED && t.now == t.alone
            && t.now == ENTERED.(p := ENTERED.p.(phone := Running, announced := true),
                                 b := ENTERED.b.(made := true, inMap := true))
  {
    hide Step;
    Opens(ENTERED);
    OpenArrives(Step(ENTERED, WriteOpen));
  }

  lemma Apart(h: Hand)
    requires h.was == DELETED && h.now == h.alone && h.now.down == [] && h.now.demux.Idle? && h.now.b.inMap
    requires h.now.b.once == Fresh
    ensures var t := HandStep(HandStep(HandStep(h, ByOld(WriteClose)), ByNow(DemuxPop)), ByNow(DemuxFinish));
            && t.alone == h.alone && t.now == h.now.(b := h.now.b.(inMap := false, ended := true, once := Over))
  {
    hide Step;
    var t := HandStep(h, ByOld(WriteClose));
    LateStep(h);
    CloseArrives(t.now);
    Disabled(h.alone, DemuxPop);
    Disabled(h.alone, DemuxFinish);
  }

  lemma LateStep(h: Hand)
    requires h.was == DELETED && h.now.down == []
    ensures var t := HandStep(h, ByOld(WriteClose));
            && t == h.(was := t.was, now := h.now.(down := [Close])) && t.was.demux.Idle? && t.was.down == []
  {
  }

  lemma Late()
    ensures var h := Run(DELETED, LATE);
            && h.alone.b.inMap && h.alone.r.held && h.now.r.held && h.now.p.phone == Running
            && Quiet(h.alone) && Quiet(h.now) && !h.now.b.inMap
  {
    hide HandStep, After;
    var s := Start(DELETED);
    FiveSteps(HandStep, s, LATE);
    Together(s);
    Apart(HandStep(HandStep(s, LATE[0]), LATE[1]));
  }
}
