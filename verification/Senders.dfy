/**
 * Senders that take turns on one connection: how far each of their messages has been sealed, and under which nonces.
 * The lock keeps the frames of one message together, whoever else is sending and whatever write fails.
 */
module Senders {
  import opened Bytes
  import opened Envelope
  import opened Reading
  import opened Stream

  /** How much of each send is sealed, and which sends returned without an error. */
  datatype Progress = Progress(counts: seq<nat>, done: set<nat>)

  function Advance(c: Config, s: State, p: Progress, e: Event): Progress {
    if !Enabled(c, s, e) then p
    else
      match e
      case Lock(_, _) => p.(counts := p.counts + [0])
      case Seal(_) =>
        var plain := s.holder.value.frames[s.holder.value.next];
        if SealNext(s.sendCounter, |plain|).Next? && p.counts != [] then
          p.(counts := OneMore(p.counts))
        else p
      case Unlock => if p.counts != [] then p.(done := p.done + {|p.counts| - 1}) else p
      case _ => p
  }

  function ProgressOf(c: Config, events: seq<Event>): Progress {
    if events == [] then Progress([], {})
    else
      var init := events[..|events| - 1];
      Advance(c, Run(c, init), ProgressOf(c, init), events[|events| - 1])
  }

  /** A number of frames for each message. */
  predicate Fits(j: Codec, sends: seq<seq<byte>>, counts: seq<nat>) {
    |counts| == |sends| && forall i :: 0 <= i < |sends| ==> counts[i] <= |FramesOf(j, sends[i])|
  }

  /** The first frames of each message, one message after another. */
  function Parts(j: Codec, sends: seq<seq<byte>>, counts: seq<nat>): seq<seq<byte>>
    requires Fits(j, sends, counts)
  {
    if sends == [] then []
    else
      var n := |sends| - 1;
      Parts(j, sends[..n], counts[..n]) + FramesOf(j, sends[n])[..counts[n]]
  }

  ghost predicate HolderAt(c: Config, s: State, p: Progress) {
    s.holder.Some? ==>
      && |s.sends| == |p.counts| > 0 && s.holder.value.next == p.counts[|p.counts| - 1] && |p.counts| - 1 !in p.done
      && s.holder.value.frames == FramesOf(c.json, s.sends[|s.sends| - 1])
  }

  ghost predicate Parted(c: Config, s: State, p: Progress) {
    && Fits(c.json, s.sends, p.counts) && s.sealed == Parts(c.json, s.sends, p.counts) && HolderAt(c, s, p)
    && (forall i :: i in p.done ==> i < |s.sends| && p.counts[i] == |FramesOf(c.json, s.sends[i])|)
  }

  lemma PartsLast(j: Codec, sends: seq<seq<byte>>, counts: seq<nat>, m: seq<byte>, n: nat)
    requires Fits(j, sends, counts) && n <= |FramesOf(j, m)|
    ensures Fits(j, sends + [m], counts + [n])
    ensures Parts(j, sends + [m], counts + [n]) == Parts(j, sends, counts) + FramesOf(j, m)[..n]
  {
    assert (sends + [m])[..|sends|] == sends && (counts + [n])[..|sends|] == counts;
  }

  lemma LockParts(c: Config, s: State, p: Progress, sender: nat, message: seq<byte>)
    requires Parted(c, s, p) && Enabled(c, s, Lock(sender, message))
    ensures Parted(c, Step(c, s, Lock(sender, message)), Advance(c, s, p, Lock(sender, message)))
  {
    PartsLast(c.json, s.sends, p.counts, message, 0);
    assert FramesOf(c.json, message)[..0] == [];
  }

  function OneMore(counts: seq<nat>): seq<nat>
    requires counts != []
  {
    counts[..|counts| - 1] + [counts[|counts| - 1] + 1]
  }

  lemma PartsGrow(j: Codec, sends: seq<seq<byte>>, counts: seq<nat>)
    requires Fits(j, sends, counts) && sends != [] && counts[|sends| - 1] < |FramesOf(j, sends[|sends| - 1])|
    ensures Fits(j, sends, OneMore(counts))
    ensures Parts(j, sends, OneMore(counts))
         == Parts(j, sends, counts) + [FramesOf(j, sends[|sends| - 1])[counts[|sends| - 1]]]
  {
    hide FramesOf;
    var n := |sends| - 1;
    var k, frames := counts[n], FramesOf(j, sends[n]);
    assert frames[..k + 1] == frames[..k] + [frames[k]];
    assert OneMore(counts)[..n] == counts[..n];
  }

  lemma SealParts(c: Config, s: State, p: Progress, cipher: seq<byte>)
    requires Parted(c, s, p) && Enabled(c, s, Seal(cipher))
    requires SealNext(s.sendCounter, |s.holder.value.frames[s.holder.value.next]|).Next?
    ensures Parted(c, Step(c, s, Seal(cipher)), Advance(c, s, p, Seal(cipher)))
  {
    hide Parts, Fits, FramesOf;
    PartsGrow(c.json, s.sends, p.counts);
    assert Advance(c, s, p, Seal(cipher)) == p.(counts := OneMore(p.counts));
    var t, h := Step(c, s, Seal(cipher)), s.holder.value;
    assert t.sends == s.sends && t.sealed == s.sealed + [h.frames[h.next]];
    assert t.holder.Some? && t.holder.value.frames == h.frames && t.holder.value.next == h.next + 1;
    FitsLengths(c.json, s.sends, p.counts);
  }

  lemma FitsLengths(j: Codec, sends: seq<seq<byte>>, counts: seq<nat>)
    requires Fits(j, sends, counts)
    ensures |counts| == |sends|
  {
  }

  lemma UnlockParts(c: Config, s: State, p: Progress)
    requires Parted(c, s, p) && Enabled(c, s, Unlock)
    ensures Parted(c, Step(c, s, Unlock), Advance(c, s, p, Unlock))
  {
    hide Parts, Fits;
    assert Step(c, s, Unlock) == s.(holder := None);
    assert Advance(c, s, p, Unlock) == p.(done := p.done + {|p.counts| - 1});
    assert p.counts[|p.counts| - 1] == |FramesOf(c.json, s.sends[|s.sends| - 1])|;
  }

  /** No other step seals anything or lets go of the lock in good order. */
  lemma OtherParts(c: Config, s: State, p: Progress, e: Event)
    requires Parted(c, s, p) && Enabled(c, s, e) && !e.Lock? && !e.Unlock?
    requires e.Seal? ==> !SealNext(s.sendCounter, |s.holder.value.frames[s.holder.value.next]|).Next?
    ensures Parted(c, Step(c, s, e), Advance(c, s, p, e))
  {
    hide Parts, Fits, FramesOf, OpenNext, Feed;
    var t := Step(c, s, e);
    assert Advance(c, s, p, e) == p && t.sends == s.sends && t.sealed == s.sealed;
    assert t.holder.Some? ==> s.holder.Some? && t.holder.value == s.holder.value.(inFlight := t.holder.value.inFlight);
  }

  lemma StepParts(c: Config, s: State, p: Progress, e: Event)
    requires Parted(c, s, p)
    ensures Parted(c, Step(c, s, e), Advance(c, s, p, e))
  {
    hide Parted;
    if !Enabled(c, s, e) {
    } else if e.Lock? {
      LockParts(c, s, p, e.sender, e.message);
    } else if e.Unlock? {
      UnlockParts(c, s, p);
    } else if e.Seal? && SealNext(s.sendCounter, |s.holder.value.frames[s.holder.value.next]|).Next? {
      SealParts(c, s, p, e.cipher);
    } else {
      OtherParts(c, s, p, e);
    }
  }

  lemma {:induction false} RunParts(c: Config, events: seq<Event>)
    ensures Parted(c, Run(c, events), ProgressOf(c, events))
  {
    if events == [] {
    } else {
      var init := events[..|events| - 1];
      RunParts(c, init);
      StepParts(c, Run(c, init), ProgressOf(c, init), events[|events| - 1]);
    }
  }

  /** However senders interleave and writes fail, the sealed plaintexts are the first frames of each message in turn,
      in lock order, and all of them where send returned without an error. */
  lemma {:induction false} SendersDoNotInterleave(c: Config, events: seq<Event>, i: nat)
    ensures var s, p := Run(c, events), ProgressOf(c, events);
            && Fits(c.json, s.sends, p.counts) && s.sealed == Parts(c.json, s.sends, p.counts)
            && (i in p.done ==> i < |s.sends| && p.counts[i] == |FramesOf(c.json, s.sends[i])|)
  {
    RunParts(c, events);
  }

  /** Until something is lost, only the lock holder's rest is missing. */
  lemma {:induction false} AllSealedButTheRest(c: Config, events: seq<Event>)
    requires Usable(c)
    ensures var s := Run(c, events);
            s.gap.None? ==>
              match s.holder
              case None => s.sealed == Frames(c.json, s.sends)
              case Some(h) =>
                && |s.sends| > 0 && h.frames == FramesOf(c.json, s.sends[|s.sends| - 1]) && h.next <= |h.frames|
                && s.sealed == Frames(c.json, s.sends[..|s.sends| - 1]) + h.frames[..h.next]
  {
    RunKeeps(c, events);
  }

  /** No nonce is used twice, none is that of counter 0 or of the handshake's seals, a full counter seals nothing
      more, and a receive counter that would wrap opens nothing at all. */
  lemma {:induction false} NoncesAreFresh(c: Config, events: seq<Event>, i: nat, k: nat, length: nat, frame: seq<byte>)
    requires Usable(c)
    ensures var s := Run(c, events);
            && s.sendCounter == c.base + |s.frames| <= MAX_COUNTER
            && (i < k < |s.frames| ==> NonceFor(CounterAt(c, i)) != NonceFor(CounterAt(c, k)))
            && (i < |s.frames| ==>
                  && (forall used: uint64 :: used <= c.base ==> NonceFor(CounterAt(c, i)) != NonceFor(used))
                  && |s.frames[i]| >= HEADER_SIZE && s.frames[i][..HEADER_SIZE] == Header(CounterAt(c, i)))
            && (s.sendCounter == MAX_COUNTER ==> !SealNext(s.sendCounter, length).Next?)
            && (s.recvCounter == MAX_COUNTER ==> !OpenNext(c.key, s.recvCounter, s.log, frame).Opened?)
  {
    RunKeeps(c, events);
    var s := Run(c, events);
    if i < k < |s.frames| {
      NonceInjective(CounterAt(c, i), CounterAt(c, k));
    }
    if i < |s.frames| {
      assert FrameAt(c, s, i);
      forall used: uint64 | used <= c.base
        ensures NonceFor(CounterAt(c, i)) != NonceFor(used)
      {
        NonceInjective(CounterAt(c, i), used);
      }
    }
    OpensOnlyNext(c, s, frame);
  }
}
