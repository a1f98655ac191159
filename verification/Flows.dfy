/**
 * One channel left to itself, end to end: from a quiet state each way of using it has exactly its effect. A phone
 * comes and is in both maps; a message reaches the inbox, a reply the phone; either end closes and both let go.
 */
module Flows {
  import opened Bytes
  import opened Link
  import opened Runs

  const NOBODY := Channel(UNBORN.p, UNBORN.r, UNBORN.b, [], [], Idle, Waiting)

  /** A channel in use at both ends, with nothing on its way. */
  predicate InUse(s: Channel) {
    && Quiet(s) && s.p.phone == Running && s.p.pending.None? && s.p.read == |s.p.sent|
    && s.r.held && s.b.made && s.b.inMap && s.b.once == Fresh && s.b.writer.None?
  }

  // ---------------------------------------------------------------- single steps

  lemma PhoneSide1(s: Channel, m: Msg)
    requires InUse(s)
    ensures Step(Step(s, PhoneSends(m)), PhoneRead)
         == s.(p := s.p.(sent := s.p.sent + [m], pending := Some(m), read := s.p.read + 1))
  {
    var a := Step(s, PhoneSends(m));
    assert a == s.(p := s.p.(sent := s.p.sent + [m]));
  }

  lemma PhoneSide2(s: Channel)
    requires s.p.phone == Running && s.p.pending.Some?
    ensures var m := s.p.pending.value;
            Step(s, WriteData)
            == s.(p := s.p.(pending := None, fwd := s.p.fwd + [m]), down := s.down + [ToFrame(m)])
  {
  }

  lemma Delivered(s: Channel, m: Msg)
    requires s.demux.Idle? && s.down == [ToFrame(m)] && s.b.inMap && |s.b.inbox| < 256
    ensures Step(Step(s, DemuxPop), DemuxPush)
         == s.(b := s.b.(landed := s.b.landed + 1, inbox := s.b.inbox + [m], got := s.b.got + [m]), down := [])
  {
    var a := Step(s, DemuxPop);
    assert a == s.(b := s.b.(landed := s.b.landed + 1), down := [], demux := Deliver(m));
  }

  lemma Written(s: Channel, m: Msg)
    requires s.b.made && s.b.writer.None? && s.b.once == Fresh
    ensures Step(Step(s, ConnCheck(m)), ConnWrite)
         == s.(b := s.b.(wrote := s.b.wrote + [m]), up := s.up + [ToFrame(m)])
  {
    var a := Step(s, ConnCheck(m));
    assert a == s.(b := s.b.(writer := Some(m)));
  }

  lemma Forwarded(s: Channel, m: Msg)
    requires s.loop.Waiting? && s.up == [ToFrame(m)] && s.r.held
    ensures Step(Step(s, LoopPop), LoopWrite)
         == s.(r := s.r.(popped := s.r.popped + 1, toPhone := s.r.toPhone + [m]), up := [])
  {
    var a := Step(s, LoopPop);
    assert a == s.(r := s.r.(popped := s.r.popped + 1), up := [], loop := Forward(m));
  }

  lemma Entered()
    ensures Step(Step(NOBODY, Admit), WriteOpen)
         == NOBODY.(p := NOBODY.p.(phone := Running, announced := true), r := NOBODY.r.(held := true), down := [Open])
  {
    var a := Step(NOBODY, Admit);
    assert a == NOBODY.(p := NOBODY.p.(phone := Opening), r := NOBODY.r.(held := true));
  }

  lemma OpenRead(s: Channel)
    requires s.demux.Idle? && s.down == [Open]
    ensures Step(s, DemuxPop) == s.(b := s.b.(made := true, inMap := true), down := [])
  {
  }

  lemma Taken(s: Channel)
    requires s.p.phone == Leaving
    ensures Step(Step(s, Forget), WriteClose)
         == s.(p := s.p.(phone := Gone), r := s.r.(held := false), down := s.down + [Close])
  {
    var a := Step(s, Forget);
    assert a == s.(p := s.p.(phone := Closing), r := s.r.(held := false));
  }

  lemma Left(s: Channel)
    requires s.p.phone == Running
    ensures Step(Step(Step(s, Quit), Forget), WriteClose)
         == s.(p := s.p.(phone := Gone, pending := None), r := s.r.(held := false), down := s.down + [Close])
  {
    var a := Step(s, Quit);
    assert a == s.(p := s.p.(phone := Leaving, pending := None));
    Taken(a);
  }

  lemma CloseRead(s: Channel)
    requires s.demux.Idle? && s.down == [Close] && s.b.inMap && s.b.once == Fresh
    ensures Step(Step(s, DemuxPop), DemuxFinish)
         == s.(b := s.b.(inMap := false, ended := true, once := Over), down := [])
  {
    var a := Step(s, DemuxPop);
    assert a == s.(b := s.b.(inMap := false, ended := true), down := [], demux := Finish);
  }

  lemma Closed(s: Channel)
    requires s.b.made && s.b.once == Fresh
    ensures Step(Step(Step(s, ConnClose), CloseDelete), CloseWrite)
         == s.(b := s.b.(inMap := false, once := Over, closed := true), up := s.up + [Close])
  {
    var a := Step(s, ConnClose);
    assert a == s.(b := s.b.(once := Deleting));
    DeletesAndWrites(a);
  }

  lemma DeletesAndWrites(s: Channel)
    requires s.b.once == Deleting
    ensures Step(Step(s, CloseDelete), CloseWrite)
         == s.(b := s.b.(inMap := false, once := Over, closed := true), up := s.up + [Close])
  {
    var a := Step(s, CloseDelete);
    assert a == s.(b := s.b.(once := Writing, inMap := false));
  }

  lemma Cancelled(s: Channel)
    requires s.loop.Waiting? && s.up == [Close] && s.r.held
    ensures Step(Step(s, LoopPop), LoopCancel)
         == s.(r := s.r.(held := false, closeSeen := true, cancelled := true), up := [])
  {
    var a := Step(s, LoopPop);
    assert a == s.(r := s.r.(held := false, closeSeen := true), up := [], loop := Cancelling);
  }

  lemma Failed(s: Channel)
    requires s.loop.Forward? && s.r.held
    ensures Step(Step(s, LoopFails), LoopCancel) == s.(r := s.r.(held := false, cancelled := true), loop := Waiting)
  {
    var a := Step(s, LoopFails);
    assert a == s.(r := s.r.(held := false), loop := Cancelling);
  }

  // ---------------------------------------------------------------- theorems

  /** A phone that comes is soon in both maps, and nothing is left on its way. */
  lemma PhoneComes()
    ensures var s := After(Step, NOBODY, [Admit, WriteOpen, DemuxPop]);
            InUse(s) && s.p.sent == s.p.fwd == [] && s.b.inbox == s.b.got == s.b.wrote == s.r.toPhone == []
  {
    hide Step, After;
    var es := [Admit, WriteOpen, DemuxPop, Quit, Quit];
    FiveSteps(Step, NOBODY, es);
    assert es[..3] == [Admit, WriteOpen, DemuxPop];
    Entered();
    OpenRead(Step(Step(NOBODY, Admit), WriteOpen));
  }

  /** A phone whose open cannot be written leaves nothing behind, and its number is free for the next. */
  lemma PhoneFails()
    ensures var s := After(Step, NOBODY, [Admit, OpenFails, Forget, WriteClose, DemuxPop]);
            Retired(s) && !s.r.held && !s.b.made && !s.b.inMap && s.p.fwd == []
  {
    hide Step, After;
    FiveSteps(Step, NOBODY, [Admit, OpenFails, Forget, WriteClose, DemuxPop]);
    Refused();
  }

  lemma Refused()
    ensures Step(Step(Step(Step(Step(NOBODY, Admit), OpenFails), Forget), WriteClose), DemuxPop)
         == NOBODY.(p := NOBODY.p.(phone := Gone), b := NOBODY.b.(ended := true))
  {
    hide Step;
    NotOpened();
    var a := Step(Step(NOBODY, Admit), OpenFails);
    Taken(a);
    CloseUnused(Step(Step(a, Forget), WriteClose));
  }

  lemma NotOpened()
    ensures Step(Step(NOBODY, Admit), OpenFails)
         == NOBODY.(p := NOBODY.p.(phone := Leaving), r := NOBODY.r.(held := true))
  {
    var a := Step(NOBODY, Admit);
    assert a == NOBODY.(p := NOBODY.p.(phone := Opening), r := NOBODY.r.(held := true));
  }

  lemma CloseUnused(s: Channel)
    requires s.demux.Idle? && s.down == [Close] && !s.b.inMap
    ensures Step(s, DemuxPop) == s.(b := s.b.(ended := true), down := [])
  {
  }

  /** What the phone sends reaches the inbox, unless 256 messages wait there, and changes nothing else. */
  lemma MessageArrives(s: Channel, m: Msg)
    requires InUse(s) && |s.b.inbox| < 256
    ensures After(Step, s, [PhoneSends(m), PhoneRead, WriteData, DemuxPop, DemuxPush])
         == s.(p := s.p.(sent := s.p.sent + [m], read := s.p.read + 1, fwd := s.p.fwd + [m]),
               b := s.b.(landed := s.b.landed + 1, inbox := s.b.inbox + [m], got := s.b.got + [m]))
  {
    hide Step, After;
    FiveSteps(Step, s, [PhoneSends(m), PhoneRead, WriteData, DemuxPop, DemuxPush]);
    PhoneSide1(s, m);
    var a := Step(Step(s, PhoneSends(m)), PhoneRead);
    PhoneSide2(a);
    assert [ToFrame(m)] == s.down + [ToFrame(m)];
    Delivered(Step(a, WriteData), m);
  }

  /** Read takes the oldest message that waits, whatever else the channel is doing. */
  lemma OldestIsRead(s: Channel)
    requires s.b.inbox != []
    ensures Step(s, ConnRead)
         == s.(b := s.b.(inbox := s.b.inbox[1..], yielded := s.b.yielded + [s.b.inbox[0]]))
  {
  }

  /** What arrives for a phone that is no longer in the relay's map is dropped, a close too; and a write that fails to a
      phone taken out meanwhile has nobody to cancel. */
  lemma LateFramesAreDropped(s: Channel)
    requires !s.r.held
    ensures s.loop.Waiting? && s.up != [] ==>
              var t := Step(s, LoopPop);
              t.loop.Waiting? && !t.r.held && t.r.cancelled == s.r.cancelled && t.r.toPhone == s.r.toPhone
    ensures s.loop.Forward? ==>
              Step(s, LoopFails) == s.(loop := Waiting)
  {
  }

  /** And what the tunnel writes reaches the phone. */
  lemma ReplyArrives(s: Channel, m: Msg)
    requires InUse(s)
    ensures After(Step, s, [ConnCheck(m), ConnWrite, LoopPop, LoopWrite])
         == s.(b := s.b.(wrote := s.b.wrote + [m]),
               r := s.r.(popped := s.r.popped + 1, toPhone := s.r.toPhone + [m]))
  {
    hide Step, After;
    var es := [ConnCheck(m), ConnWrite, LoopPop, LoopWrite, Quit];
    FiveSteps(Step, s, es);
    assert es[..4] == [ConnCheck(m), ConnWrite, LoopPop, LoopWrite];
    Written(s, m);
    assert [ToFrame(m)] == s.up + [ToFrame(m)];
    Forwarded(Step(Step(s, ConnCheck(m)), ConnWrite), m);
  }

  /** A phone that leaves is out of both maps; what its inbox holds can still be read. */
  lemma PhoneLeaves(s: Channel)
    requires InUse(s)
    ensures After(Step, s, [Quit, Forget, WriteClose, DemuxPop, DemuxFinish])
         == s.(p := s.p.(phone := Gone), r := s.r.(held := false),
               b := s.b.(inMap := false, ended := true, once := Over))
  {
    hide Step, After;
    FiveSteps(Step, s, [Quit, Forget, WriteClose, DemuxPop, DemuxFinish]);
    Left(s);
    assert [Close] == s.down + [Close];
    CloseRead(Step(Step(Step(s, Quit), Forget), WriteClose));
  }

  /** A channel that the tunnel closes is out of both maps, and its phone told to stop. */
  lemma TunnelCloses(s: Channel)
    requires InUse(s)
    ensures After(Step, s, [ConnClose, CloseDelete, CloseWrite, LoopPop, LoopCancel])
         == s.(b := s.b.(inMap := false, once := Over, closed := true),
               r := s.r.(held := false, closeSeen := true, cancelled := true))
  {
    hide Step, After;
    FiveSteps(Step, s, [ConnClose, CloseDelete, CloseWrite, LoopPop, LoopCancel]);
    Closed(s);
    assert [Close] == s.up + [Close];
    Cancelled(Step(Step(Step(s, ConnClose), CloseDelete), CloseWrite));
  }

  /** A reply the phone's socket does not take has the phone taken out of the relay's map and told to stop. */
  lemma ReplyFails(s: Channel, m: Msg)
    requires InUse(s)
    ensures After(Step, s, [ConnCheck(m), ConnWrite, LoopPop, LoopFails, LoopCancel])
         == s.(b := s.b.(wrote := s.b.wrote + [m]),
               r := s.r.(popped := s.r.popped + 1, held := false, cancelled := true))
  {
    hide Step, After;
    FiveSteps(Step, s, [ConnCheck(m), ConnWrite, LoopPop, LoopFails, LoopCancel]);
    Written(s, m);
    assert [ToFrame(m)] == s.up + [ToFrame(m)];
    var a := Step(Step(s, ConnCheck(m)), ConnWrite);
    Popped(a, m);
    Failed(Step(a, LoopPop));
  }

  lemma Popped(s: Channel, m: Msg)
    requires s.loop.Waiting? && s.up == [ToFrame(m)] && s.r.held
    ensures Step(s, LoopPop) == s.(r := s.r.(popped := s.r.popped + 1), up := [], loop := Forward(m))
  {
  }
}
