/**
 * What a connection promises its two ends: a prefix of what was sent and nothing else, whatever the network does;
 * exactly when the receiver stops; and that while nothing was lost any message can still be delivered.
 */
module Delivery {
  import opened Bytes
  import opened Envelope
  import opened Messages
  import opened Reading
  import opened Runs
  import opened Stream

  // ---------------------------------------------------------------- a prefix of what was sent

  /** Whatever the network and failing writes do, recv has returned a prefix of what was sent, in lock
      order, and no message before every one of its frames was sealed, written and opened. */
  lemma {:induction false} DeliversPrefix(c: Config, events: seq<Event>)
    requires Usable(c)
    ensures var s := Run(c, events);
            && s.reader.out <= s.sends
            && |Expand(Outgoings(c.json, s.sends[..|s.reader.out|]))| <= s.recvCounter - c.base
            && c.base <= s.recvCounter <= s.sendCounter
            && forall i :: 0 <= i < s.recvCounter - c.base ==> i < |s.frames| && s.frames[i] in s.wire
  {
    RunKeeps(c, events);
    ReadsPromised(c, Run(c, events));
  }

  lemma ReadsPromised(c: Config, s: State)
    requires Good(c.json) && Inv(c, s)
    ensures s.reader.out <= s.sends
    ensures |Expand(Outgoings(c.json, s.sends[..|s.reader.out|]))| <= s.recvCounter - c.base
  {
    var n := s.recvCounter - c.base;
    OpenedIsPromised(c, s, n);
    PrefixRead(c, s.sends, s.sealed[..n]);
  }

  /** A prefix of the promised frames reads as a prefix of the messages. */
  lemma PrefixRead(c: Config, sends: seq<seq<byte>>, plains: seq<seq<byte>>)
    requires Good(c.json) && plains <= Frames(c.json, sends) && forall m :: m in sends ==> Passable(c.json, m)
    ensures var out := FeedAll(START, Read(c.json, plains)).out;
            out <= sends && |Expand(Outgoings(c.json, sends[..|out|]))| <= |plains|
  {
    hide Expand, FeedAll;
    ReadFrames(c.json, sends);
    assert Read(c.json, plains) <= Read(c.json, Frames(c.json, sends));
    SendsSendable(c, sends);
    var os := Outgoings(c.json, sends);
    ReadPrefix(os, Read(c.json, plains));
    var out := FeedAll(START, Read(c.json, plains)).out;
    assert os[..|out|] == Outgoings(c.json, sends[..|out|]);
  }

  lemma OpenedIsPromised(c: Config, s: State, n: nat)
    requires HolderOk(c, s) && LockOrder(c, s) && GapOk(c, s)
    requires n <= |s.sealed| && (s.gap.Some? ==> n <= s.gap.value)
    ensures s.sealed[..n] <= Frames(c.json, s.sends)
  {
    if s.gap.None? {
      PrefixPromised(c, s, n);
    } else {
      assert GapAt(c, s, s.gap.value);
      assert s.sealed[..n] <= s.sealed[..s.gap.value];
    }
  }

  lemma SendsSendable(c: Config, sends: seq<seq<byte>>)
    requires Good(c.json) && forall m :: m in sends ==> Passable(c.json, m)
    ensures forall o :: o in Outgoings(c.json, sends) ==> Sendable(o)
  {
    forall i | 0 <= i < |sends|
      ensures Sendable(Outgoings(c.json, sends)[i])
    {
      assert sends[i] in sends && Passable(c.json, sends[i]);
    }
  }

  // ---------------------------------------------------------------- when the receiver stops

  ghost predicate AllDeliverable(c: Config, sends: seq<seq<byte>>) {
    forall m :: m in sends ==> Deliverable(Sent(c.json, m))
  }

  /** The frame the receiver is waiting for. */
  predicate IsNext(c: Config, s: State, frame: seq<byte>)
    requires c.base <= s.recvCounter
  {
    s.recvCounter - c.base < |s.frames| && frame == s.frames[s.recvCounter - c.base]
  }

  /** Whether the receiver was ever handed, while it still read, bytes that are not the frame it was waiting for. */
  predicate Strayed(c: Config, events: seq<Event>) {
    events != [] &&
    var init, e := events[..|events| - 1], events[|events| - 1];
    || Strayed(c, init)
    || (e.Receive? && Enabled(c, Run(c, init), e)
        && !(c.base <= Run(c, init).recvCounter && IsNext(c, Run(c, init), e.frame)))
  }

  /** Exactly that frame opens. */
  lemma NextOpens(c: Config, s: State, frame: seq<byte>)
    requires LogIsHistory(c, s) && c.base <= s.recvCounter <= s.sendCounter
    ensures OpenNext(c.key, s.recvCounter, s.log, frame).Opened? <==> IsNext(c, s, frame)
  {
    hide LogIsHistory, OpenNext, Entry, Header;
    OpensOnlyNext(c, s, frame);
    if IsNext(c, s, frame) {
      var n := s.recvCounter - c.base;
      HistoryAt(c, s, n);
      assert frame == frame[..HEADER_SIZE] + frame[HEADER_SIZE..];
      HeaderOpens(c.key, s.recvCounter, s.log, frame[HEADER_SIZE..]);
    }
  }

  lemma HistoryAt(c: Config, s: State, i: nat)
    requires LogIsHistory(c, s) && i < |s.frames|
    ensures |s.frames| == |s.sealed| && FrameAt(c, s, i)
  {
  }

  /** What has been read by itself stops the reader. */
  ghost predicate ReadStops(c: Config, s: State) {
    && c.base <= s.recvCounter <= c.base + |s.sealed|
    && FeedAll(START, Read(c.json, s.sealed[..s.recvCounter - c.base])).dead
  }

  lemma ReceiveStops(c: Config, s: State, frame: seq<byte>)
    requires Inv(c, s) && Enabled(c, s, Receive(frame))
    ensures var t := Step(c, s, Receive(frame));
            t.reader.dead <==> !IsNext(c, s, frame) || ReadStops(c, t)
    ensures IsNext(c, s, frame) || !ReadStops(c, Step(c, s, Receive(frame)))
  {
    hide LogIsHistory, LockOrder, GapOk, HolderOk, FeedAll, OpenNext;
    var n := s.recvCounter - c.base;
    HistoryLengths(c, s);
    NextOpens(c, s, frame);
    OpensOnlyNext(c, s, frame);
    if IsNext(c, s, frame) {
      var read := Read(c.json, s.sealed[..n + 1]);
      assert read[..n] == Read(c.json, s.sealed[..n]) && read[n] == c.json.read(s.sealed[n]);
      FeedLast(read);
    }
  }

  /** Nothing but a receive stops the reader, or moves what it has read. */
  lemma OthersDoNotStop(c: Config, s: State, e: Event)
    requires Inv(c, s) && (!e.Receive? || !Enabled(c, s, e))
    ensures Step(c, s, e).reader == s.reader
    ensures ReadStops(c, Step(c, s, e)) <==> ReadStops(c, s)
  {
    hide LogIsHistory, LockOrder, GapOk, HolderOk, FeedAll;
    var t, n := Step(c, s, e), s.recvCounter - c.base;
    assert t.recvCounter == s.recvCounter && s.sealed <= t.sealed;
    assert t.sealed[..n] == s.sealed[..n];
  }

  /** The reader stops for two reasons and no other: bytes that are not the next frame, or a message it cannot return
      among the frames it has read. */
  lemma {:induction false} ReaderStops(c: Config, events: seq<Event>)
    requires Usable(c)
    ensures Run(c, events).reader.dead <==> Strayed(c, events) || ReadStops(c, Run(c, events))
  {
    hide Inv, Step, ReadStops;
    RunKeeps(c, events);
    if events == [] {
      NothingStops(c);
    } else {
      var init, e := events[..|events| - 1], events[|events| - 1];
      var s := Run(c, init);
      RunKeeps(c, init);
      ReaderStops(c, init);
      CountersApart(c, s);
      if e.Receive? && Enabled(c, s, e) {
        ReceiveStops(c, s, e.frame);
      } else {
        OthersDoNotStop(c, s, e);
      }
    }
  }

  lemma NothingStops(c: Config)
    ensures !Run(c, []).reader.dead && !ReadStops(c, Run(c, []))
  {
  }

  lemma CountersApart(c: Config, s: State)
    requires Inv(c, s)
    ensures c.base <= s.recvCounter
  {
  }

  /** With nothing lost and every frame read, the receiver has stopped exactly if it was handed bytes that were not
      the next frame, or some message is one it cannot return; and otherwise, or if all of them are, it has
      returned exactly what was sent. */
  lemma {:induction false} LosslessDelivery(c: Config, events: seq<Event>)
    requires Usable(c)
    ensures var s := Run(c, events);
            s.gap.None? && s.holder.None? && s.recvCounter == s.sendCounter ==>
              && (s.reader.dead <==> Strayed(c, events) || !AllDeliverable(c, s.sends))
              && (AllDeliverable(c, s.sends) ==> s.reader.out == s.sends)
              && (!s.reader.dead ==> s.reader.out == s.sends && AllDeliverable(c, s.sends))
  {
    RunKeeps(c, events);
    var s := Run(c, events);
    if s.gap.None? && s.holder.None? && s.recvCounter == s.sendCounter {
      ReaderStops(c, events);
      ReadsAllSealed(c, s);
    }
  }

  lemma ReadsAllSealed(c: Config, s: State)
    requires Good(c.json) && ReaderOk(c, s) && s.sealed == Frames(c.json, s.sends)
    requires s.recvCounter - c.base == |s.sealed|
    requires forall m :: m in s.sends ==> Passable(c.json, m)
    ensures AllDeliverable(c, s.sends) ==> s.reader.out == s.sends
    ensures !s.reader.dead ==> s.reader.out == s.sends && AllDeliverable(c, s.sends)
    ensures ReadStops(c, s) <==> !AllDeliverable(c, s.sends)
  {
    hide FeedAll, Frames, Expand, Deliverable, Passable;
    assert s.sealed[..s.recvCounter - c.base] == s.sealed;
    PassableFit(c, s.sends);
    ReadFrames(c.json, s.sends);
    ReadsEverything(c, s.sends);
  }

  lemma PassableFit(c: Config, sends: seq<seq<byte>>)
    requires forall m :: m in sends ==> Passable(c.json, m)
    ensures forall m :: m in sends ==> |m| <= MAX_INT
  {
  }

  lemma ReadsEverything(c: Config, sends: seq<seq<byte>>)
    requires Good(c.json) && forall m :: m in sends ==> Passable(c.json, m)
    ensures var read := FeedAll(START, Expand(Outgoings(c.json, sends)));
            && (!read.dead ==> read.out == sends)
            && (!read.dead <==> AllDeliverable(c, sends))
  {
    var os := Outgoings(c.json, sends);
    SendsSendable(c, sends);
    ReadAll(os);
    forall m | m in sends
      ensures Sent(c.json, m) in os
    {
      var i :| 0 <= i < |sends| && sends[i] == m;
      assert os[i] == Sent(c.json, m);
    }
  }

  // ---------------------------------------------------------------- what can be delivered

  /** Nothing was lost, nobody is sending, and the receiver goes on reading. */
  ghost predicate Open(s: State) {
    s.gap.None? && s.holder.None? && !s.reader.dead
  }

  lemma OneMore(c: Config, events: seq<Event>, e: Event)
    ensures Run(c, events + [e]) == Step(c, Run(c, events), e)
  {
    AfterOne(Stepper(c), Start(c), events, e);
  }

  /** The lock holder has sealed and written its first frames, and the next can be. */
  ghost predicate Sending(s: State) {
    && s.gap.None? && s.holder.Some? && s.holder.value.inFlight.None?
    && s.sendCounter + (|s.holder.value.frames| - s.holder.value.next) <= MAX_COUNTER
  }

  function Cipher(plain: seq<byte>): (cipher: seq<byte>)
    ensures |cipher| == |plain| + GCM_TAG
  {
    plain + seq(GCM_TAG, _ => 0)
  }

  /** One more frame is sealed and written. */
  lemma SendsOne(c: Config, s: State)
    requires Good(c.json) && Inv(c, s) && Sending(s) && s.holder.value.next < |s.holder.value.frames|
    ensures var h := s.holder.value;
            var t := Step(c, Step(c, s, Seal(Cipher(h.frames[h.next]))), WriteOk);
            && Sending(t) && t.holder.value == h.(next := h.next + 1)
            && t.sends == s.sends && t.reader == s.reader && t.recvCounter == s.recvCounter
  {
    hide LogIsHistory, LockOrder, GapOk, ReaderOk, FramesOf, Passable, Good, Entry, Header;
    var h := s.holder.value;
    FramesFit(c.json, s.sends[|s.sends| - 1], h.next);
    var t := Step(c, s, Seal(Cipher(h.frames[h.next])));
    assert t.holder.value == h.(next := h.next + 1, inFlight := t.holder.value.inFlight);
  }

  lemma {:induction false} SendsRest(c: Config, events: seq<Event>) returns (more: seq<Event>)
    requires Usable(c) && Sending(Run(c, events))
    requires var h := Run(c, events).holder.value; h.next <= |h.frames|
    ensures var s, t := Run(c, events), Run(c, events + more);
            && Sending(t) && t.holder.value.next == |t.holder.value.frames|
            && t.sends == s.sends && t.reader == s.reader && t.recvCounter == s.recvCounter
    decreases |Run(c, events).holder.value.frames| - Run(c, events).holder.value.next
  {
    hide Run, Step, Inv;
    var s := Run(c, events);
    var h := s.holder.value;
    if h.next == |h.frames| {
      more := [];
      assert events + more == events;
    } else {
      var seal := Seal(Cipher(h.frames[h.next]));
      RunKeeps(c, events);
      SendsOne(c, s);
      OneMore(c, events, seal);
      OneMore(c, events + [seal], WriteOk);
      var rest := SendsRest(c, events + [seal] + [WriteOk]);
      more := [seal, WriteOk] + rest;
      assert events + more == events + [seal] + [WriteOk] + rest;
    }
  }

  /** Taking the lock, sending every frame and giving the lock back. */
  lemma {:induction false} SendsWhole(c: Config, events: seq<Event>, sender: nat, message: seq<byte>)
    returns (more: seq<Event>)
    requires Usable(c) && Open(Run(c, events)) && Passable(c.json, message)
    requires Run(c, events).sendCounter + |FramesOf(c.json, message)| <= MAX_COUNTER
    ensures var s, t := Run(c, events), Run(c, events + more);
            Open(t) && t.sends == s.sends + [message] && t.reader == s.reader && t.recvCounter == s.recvCounter
  {
    hide Run;
    var s := Run(c, events);
    OneMore(c, events, Lock(sender, message));
    var t := Run(c, events + [Lock(sender, message)]);
    var rest := SendsRest(c, events + [Lock(sender, message)]);
    OneMore(c, events + [Lock(sender, message)] + rest, Unlock);
    more := [Lock(sender, message)] + rest + [Unlock];
    assert events + more == events + [Lock(sender, message)] + rest + [Unlock];
  }

  /** Frames of messages that can all be returned do not stop the reader, however few of them were read. */
  lemma PartDoesNotStop(c: Config, sends: seq<seq<byte>>, n: nat)
    requires Good(c.json) && (forall m :: m in sends ==> Passable(c.json, m)) && AllDeliverable(c, sends)
    requires n <= |Frames(c.json, sends)|
    ensures !FeedAll(START, Read(c.json, Frames(c.json, sends)[..n])).dead
  {
    hide FeedAll, Frames, Expand, Deliverable, Passable, Good;
    PassableFit(c, sends);
    ReadFrames(c.json, sends);
    ReadsEverything(c, sends);
    var all, part := Read(c.json, Frames(c.json, sends)), Read(c.json, Frames(c.json, sends)[..n]);
    assert all == part + all[n..];
    FeedConcat(START, part, all[n..]);
    if FeedAll(START, part).dead {
      DeadStaysDead(FeedAll(START, part), all[n..]);
    }
  }

  /** The next frame is on the wire, and reading it goes well. */
  lemma ReadsNext(c: Config, s: State)
    requires Good(c.json) && Inv(c, s) && Open(s) && AllDeliverable(c, s.sends) && s.recvCounter < s.sendCounter
    ensures s.recvCounter - c.base < |s.frames|
    ensures var t := Step(c, s, Receive(s.frames[s.recvCounter - c.base]));
            Open(t) && t.sends == s.sends && t.sendCounter == s.sendCounter && t.recvCounter == s.recvCounter + 1
  {
    hide LogIsHistory, FeedAll, Frames, Passable, OpenNext, Deliverable;
    HistoryLengths(c, s);
    var n := s.recvCounter - c.base;
    var frame := s.frames[n];
    assert frame in s.wire by { assert !InFlight(s, n); }
    ReceiveStops(c, s, frame);
    OpensOnlyNext(c, s, frame);
    NextOpens(c, s, frame);
    PartDoesNotStop(c, s.sends, n + 1);
  }

  lemma {:induction false} ReadsRest(c: Config, events: seq<Event>) returns (more: seq<Event>)
    requires Usable(c) && Open(Run(c, events)) && AllDeliverable(c, Run(c, events).sends)
    requires Run(c, events).recvCounter <= Run(c, events).sendCounter
    ensures var s, t := Run(c, events), Run(c, events + more);
            Open(t) && t.sends == s.sends && t.recvCounter == t.sendCounter
    decreases Run(c, events).sendCounter - Run(c, events).recvCounter
  {
    hide Run, Step, Inv, AllDeliverable;
    var s := Run(c, events);
    if s.recvCounter == s.sendCounter {
      more := [];
      assert events + more == events;
    } else {
      RunKeeps(c, events);
      CountersApart(c, s);
      ReadsNext(c, s);
      var read := Receive(s.frames[s.recvCounter - c.base]);
      OneMore(c, events, read);
      var rest := ReadsRest(c, events + [read]);
      more := [read] + rest;
      assert events + more == events + [read] + rest;
    }
  }

  lemma CountersOrdered(c: Config, s: State)
    requires Inv(c, s)
    ensures s.recvCounter <= s.sendCounter
  {
    HistoryLengths(c, s);
  }

  /** Whatever happened before, as long as nothing was lost, everything was read and the receiver has not stopped: a
      message it can return, if there are counters left for its frames, can be sent and read, and is then the last
      one returned. */
  lemma {:induction false} CanDeliver(c: Config, events: seq<Event>, sender: nat, message: seq<byte>)
    returns (more: seq<Event>)
    requires Usable(c) && Open(Run(c, events)) && Run(c, events).recvCounter == Run(c, events).sendCounter
    requires Passable(c.json, message) && Deliverable(Sent(c.json, message))
    requires Run(c, events).sendCounter + |FramesOf(c.json, message)| <= MAX_COUNTER
    ensures var s, t := Run(c, events), Run(c, events + more);
            Open(t) && t.recvCounter == t.sendCounter && t.reader.out == s.reader.out + [message]
  {
    hide Run, Step, Inv, Deliverable, FramesOf, Passable, Usable;
    LosslessDelivery(c, events);
    var sent := SendsWhole(c, events, sender, message);
    RunKeeps(c, events + sent);
    CountersOrdered(c, Run(c, events + sent));
    var received := ReadsRest(c, events + sent);
    more := sent + received;
    assert events + more == events + sent + received;
    LosslessDelivery(c, events + more);
  }
}
