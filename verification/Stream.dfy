/**
 * One direction of an encrypted connection as a state machine (conn.send, sealAndWrite, conn.recv).
 *
 * Any number of senders contend for sendMu; the holder seals and writes its message frame by frame,
 * Seal and Write being separate steps that may each fail; a Write that fails may still have sent its bytes, and then
 * the socket is broken and every later Write fails. The network hands the receiver any bytes it
 * likes, as often and in whatever order it likes, with one exception: it cannot produce a frame
 * that was sealed but never written, for nobody outside has seen it. Seals under other keys happen freely.
 */
module Stream {
  import opened Bytes
  import opened Envelope
  import opened Messages
  import opened Reading
  import opened Runs

  /** The key of this direction, JSON, the counter both ends start from after the handshake, and what was
      sealed before that. */
  datatype Config = Config(key: seq<byte>, json: Codec, base: uint64, earlier: SealLog)

  /** Sealed in the handshake, under one of the counters that are used up. */
  ghost predicate Early(c: Config, e: Sealing) {
    exists n: uint64, cipher :: 1 <= n <= c.base && e == Entry(c.key, n, cipher)
  }

  ghost predicate Usable(c: Config) {
    Good(c.json) && forall e :: e in c.earlier && e.key == c.key ==> Early(c, e)
  }

  /** The plaintext frames conn.send makes of one message. */
  function FramesOf(j: Codec, message: seq<byte>): (frames: seq<seq<byte>>)
    ensures |frames| > 0
  {
    if |message| <= CHUNK_THRESHOLD then [message]
    else seq(ChunkCount(|message|), i requires 0 <= i < ChunkCount(|message|) => j.encode(Split(message)[i]))
  }

  function Read(j: Codec, plains: seq<seq<byte>>): (items: seq<Item>)
    ensures |items| == |plains|
  {
    seq(|plains|, i requires 0 <= i < |plains| => j.read(plains[i]))
  }

  function Sent(j: Codec, message: seq<byte>): Outgoing {
    Outgoing(message, j.read(message))
  }

  /** The holder of sendMu: its frames, how many are sealed, and the sealed one not yet written. */
  datatype Holder = Holder(sender: nat, frames: seq<seq<byte>>, next: nat, inFlight: Option<seq<byte>>)

  /**
   * sends: messages in the order their senders got the lock; sealed, frames: plaintext and frame of every
   * Seal so far, in counter order; wire: frames written; gap: the first position whose frame will never
   * be written, because its write failed, the socket broke before it or the counter ran out.
   */
  datatype State = State(
    sendCounter: uint64, log: SealLog, holder: Option<Holder>,
    sends: seq<seq<byte>>, sealed: seq<seq<byte>>, frames: seq<seq<byte>>, wire: set<seq<byte>>, gap: Option<int>,
    broken: bool, recvCounter: uint64, reader: Reader)

  datatype Event =
    | Lock(sender: nat, message: seq<byte>)
    | Seal(cipher: seq<byte>)
    | WriteOk
    | WriteFails
    | WriteBreaks
    | Unlock
    | Receive(frame: seq<byte>)
    | OtherSeal(other: Sealing, plain: seq<byte>)

  function Start(c: Config): State {
    State(c.base, c.earlier, None, [], [], [], {}, None, false, c.base, START)
  }

  predicate Enabled(c: Config, s: State, e: Event) {
    match e
    case Lock(_, message) => s.holder.None? && Passable(c.json, message)
    case Seal(cipher) =>
      && s.holder.Some? && s.holder.value.inFlight.None? && s.holder.value.next < |s.holder.value.frames|
      && |cipher| == |s.holder.value.frames[s.holder.value.next]| + GCM_TAG
    case WriteOk => s.holder.Some? && s.holder.value.inFlight.Some? && !s.broken
    case WriteFails => s.holder.Some? && s.holder.value.inFlight.Some?
    case WriteBreaks => s.holder.Some? && s.holder.value.inFlight.Some? && !s.broken
    case Unlock => s.holder.Some? && s.holder.value.inFlight.None? && s.holder.value.next == |s.holder.value.frames|
    case Receive(frame) => !s.reader.dead && (frame in s.frames ==> frame in s.wire)
    case OtherSeal(other, _) => other.key != c.key
  }

  function FirstGap(s: State, at: int): Option<int> {
    if s.gap.Some? then s.gap else Some(at)
  }

  /** One step; a disabled event changes nothing. */
  function Step(c: Config, s: State, e: Event): State {
    if !Enabled(c, s, e) then s
    else
      match e
      case Lock(sender, message) =>
        s.(holder := Some(Holder(sender, FramesOf(c.json, message), 0, None)), sends := s.sends + [message])
      case Seal(cipher) =>
        var h := s.holder.value;
        var plain := h.frames[h.next];
        (match SealNext(s.sendCounter, |plain|)
         case Next(counter) =>
           var frame := Header(counter) + cipher;
           s.(sendCounter := counter, log := s.log[Entry(c.key, counter, cipher) := plain],
              sealed := s.sealed + [plain], frames := s.frames + [frame],
              holder := Some(h.(next := h.next + 1, inFlight := Some(frame))))
         case _ => s.(holder := None, gap := FirstGap(s, |s.sealed|)))
      case WriteOk =>
        var h := s.holder.value;
        s.(wire := s.wire + {h.inFlight.value}, holder := Some(h.(inFlight := None)))
      case WriteFails => s.(holder := None, gap := FirstGap(s, |s.sealed| - 1))
      case WriteBreaks =>
        s.(wire := s.wire + {s.holder.value.inFlight.value}, holder := None,
           gap := FirstGap(s, |s.sealed|), broken := true)
      case Unlock => s.(holder := None)
      case Receive(frame) =>
        (match OpenNext(c.key, s.recvCounter, s.log, frame)
         case Opened(counter, plain) =>
           s.(recvCounter := counter, reader := Feed(s.reader, c.json.read(plain)))
         case _ => s.(reader := s.reader.(dead := true)))
      case OtherSeal(other, plain) => s.(log := s.log[other := plain])
  }

  function Stepper(c: Config): (State, Event) -> State {
    (s, e) => Step(c, s, e)
  }

  function Run(c: Config, events: seq<Event>): State {
    After(Stepper(c), Start(c), events)
  }

  // ---------------------------------------------------------------- invariant

  function Outgoings(j: Codec, sends: seq<seq<byte>>): (os: seq<Outgoing>)
    ensures |os| == |sends| && Texts(os) == sends
  {
    seq(|sends|, i requires 0 <= i < |sends| => Sent(j, sends[i]))
  }

  /** The plaintext frames of a list of messages, one message after another. */
  function Frames(j: Codec, sends: seq<seq<byte>>): seq<seq<byte>> {
    if sends == [] then [] else Frames(j, sends[..|sends| - 1]) + FramesOf(j, sends[|sends| - 1])
  }

  /** Position i of the send history carries counter base+i+1. */
  function CounterAt(c: Config, i: nat): nat {
    c.base + i + 1
  }

  ghost predicate FrameAt(c: Config, s: State, i: nat)
    requires i < |s.frames| == |s.sealed|
  {
    && CounterAt(c, i) <= MAX_COUNTER
    && |s.frames[i]| >= HEADER_SIZE + GCM_TAG
    && s.frames[i][..HEADER_SIZE] == Header(CounterAt(c, i))
    && var entry := Entry(c.key, CounterAt(c, i), s.frames[i][HEADER_SIZE..]);
       entry in s.log && s.log[entry] == s.sealed[i]
  }

  /** The seal log holds, under this key, the send history and what was there before, and nothing else. */
  ghost predicate LogIsHistory(c: Config, s: State) {
    && s.sendCounter == c.base + |s.sealed| && |s.frames| == |s.sealed|
    && (forall i :: 0 <= i < |s.frames| ==> FrameAt(c, s, i))
    && (forall e :: e in s.log && e.key == c.key ==> Placed(c, s, e))
    && (forall f :: f in s.wire ==> f in s.frames)
  }

  ghost predicate Placed(c: Config, s: State, e: Sealing) {
    Early(c, e) || exists i :: 0 <= i < |s.frames| && IsEntry(c, s, e, i)
  }

  lemma StaysPlaced(c: Config, s: State, t: State, e: Sealing)
    requires Placed(c, s, e) && s.frames <= t.frames
    ensures Placed(c, t, e)
  {
    if !Early(c, e) {
      var i :| 0 <= i < |s.frames| && IsEntry(c, s, e, i);
      assert IsEntry(c, t, e, i);
    }
  }

  ghost predicate IsEntry(c: Config, s: State, e: Sealing, i: nat)
    requires i < |s.frames|
  {
    && |s.frames[i]| >= HEADER_SIZE && CounterAt(c, i) <= MAX_COUNTER
    && e == Entry(c.key, CounterAt(c, i), s.frames[i][HEADER_SIZE..])
  }

  ghost predicate HolderOk(c: Config, s: State) {
    s.holder.Some? ==> LockHeld(c, s, s.holder.value)
  }

  ghost predicate LockHeld(c: Config, s: State, h: Holder) {
    && |s.sends| > 0 && h.frames == FramesOf(c.json, s.sends[|s.sends| - 1])
    && |s.sends[|s.sends| - 1]| <= MAX_INT
    && h.next <= |h.frames|
    && (h.inFlight.Some? ==> |s.frames| > 0 && h.inFlight.value == s.frames[|s.frames| - 1]
                             && h.inFlight.value !in s.wire)
  }

  /** While nothing was lost, what was sealed is what the senders promised, up to the lock holder's rest. */
  ghost predicate LockOrder(c: Config, s: State) {
    s.gap.None? ==> InOrder(c, s) && AllWritten(s)
  }

  ghost predicate InOrder(c: Config, s: State) {
    match s.holder
    case None => s.sealed == Frames(c.json, s.sends)
    case Some(h) =>
      && |s.sends| > 0 && h.next <= |h.frames|
      && s.sealed == Frames(c.json, s.sends[..|s.sends| - 1]) + h.frames[..h.next]
  }

  ghost predicate AllWritten(s: State) {
    forall i :: 0 <= i < |s.frames| ==> s.frames[i] in s.wire || InFlight(s, i)
  }

  ghost predicate InFlight(s: State, i: nat)
    requires i < |s.frames|
  {
    i == |s.frames| - 1 && s.holder.Some? && s.holder.value.inFlight == Some(s.frames[i])
  }

  /** Beyond the gap nothing can be read, and before it everything is as promised. */
  ghost predicate GapOk(c: Config, s: State) {
    s.gap.Some? ==> GapAt(c, s, s.gap.value)
  }

  ghost predicate GapAt(c: Config, s: State, g: int) {
    && 0 <= g <= |s.sealed| == |s.frames|
    && s.sealed[..g] <= Frames(c.json, s.sends)
    && (g < |s.frames| ==> s.frames[g] !in s.wire && (InFlight(s, g) ==> s.broken))
    && (g == |s.frames| ==> s.broken || s.sendCounter == MAX_COUNTER)
  }

  ghost predicate ReaderOk(c: Config, s: State) {
    && c.base <= s.recvCounter <= c.base + |s.sealed|
    && var n := s.recvCounter - c.base;
    && (s.gap.Some? ==> n <= s.gap.value)
    && |s.frames| == |s.sealed|
    && (forall i :: 0 <= i < n ==> s.frames[i] in s.wire)
    && var read := FeedAll(START, Read(c.json, s.sealed[..n]));
       s.reader.out == read.out && (!s.reader.dead ==> s.reader == read)
  }

  ghost predicate Inv(c: Config, s: State) {
    && LogIsHistory(c, s) && HolderOk(c, s) && LockOrder(c, s) && GapOk(c, s) && ReaderOk(c, s)
    && (forall m :: m in s.sends ==> Passable(c.json, m)) && (s.broken ==> s.gap.Some?)
  }

  // ---------------------------------------------------------------- preservation

  lemma FramesFit(j: Codec, m: seq<byte>, i: nat)
    requires Good(j) && |m| <= MAX_INT && i < |FramesOf(j, m)|
    ensures |FramesOf(j, m)[i]| <= MAX_PLAINTEXT
  {
    if |m| > CHUNK_THRESHOLD {
      assert Small(Split(m)[i]);
    }
  }

  lemma ReadConcat(j: Codec, a: seq<seq<byte>>, b: seq<seq<byte>>)
    ensures Read(j, a + b) == Read(j, a) + Read(j, b)
  {
  }

  lemma ReadOneMessage(j: Codec, m: seq<byte>)
    requires Good(j) && |m| <= MAX_INT
    ensures Read(j, FramesOf(j, m)) == Items(Sent(j, m))
  {
    if |m| > CHUNK_THRESHOLD {
      forall i | 0 <= i < ChunkCount(|m|)
        ensures j.read(FramesOf(j, m)[i]) == Item.Piece(Split(m)[i])
      {
        assert Small(Split(m)[i]);
      }
    }
  }

  lemma ExpandLast(j: Codec, sends: seq<seq<byte>>)
    requires sends != []
    ensures Expand(Outgoings(j, sends))
         == Expand(Outgoings(j, sends[..|sends| - 1])) + Items(Sent(j, sends[|sends| - 1]))
  {
    var n := |sends| - 1;
    assert Outgoings(j, sends)[..n] == Outgoings(j, sends[..n]);
  }

  /** The receiver sees the promised frames as the promised items. */
  lemma {:induction false} ReadFrames(j: Codec, sends: seq<seq<byte>>)
    requires Good(j) && forall m :: m in sends ==> |m| <= MAX_INT
    ensures Read(j, Frames(j, sends)) == Expand(Outgoings(j, sends))
  {
    if sends == [] {
    } else {
      var init, last := sends[..|sends| - 1], sends[|sends| - 1];
      ReadFrames(j, init);
      ReadOneMessage(j, last);
      ReadConcat(j, Frames(j, init), FramesOf(j, last));
      ExpandLast(j, sends);
    }
  }

  /** The log and the send history depend on nothing but Seal and Write. */
  lemma SameHistory(c: Config, s: State, t: State)
    requires LogIsHistory(c, s)
    requires t.sendCounter == s.sendCounter && t.log == s.log && t.sealed == s.sealed && t.frames == s.frames
    requires forall f :: f in t.wire ==> f in s.frames
    ensures LogIsHistory(c, t)
  {
    forall i | 0 <= i < |t.frames|
      ensures FrameAt(c, t, i)
    {
      assert FrameAt(c, s, i);
    }
    forall e | e in t.log && e.key == c.key
      ensures Placed(c, t, e)
    {
      StaysPlaced(c, s, t, e);
    }
  }

  lemma LockKeeps(c: Config, s: State, sender: nat, message: seq<byte>)
    requires Good(c.json) && Inv(c, s) && Enabled(c, s, Lock(sender, message))
    ensures Inv(c, Step(c, s, Lock(sender, message)))
  {
    var t := Step(c, s, Lock(sender, message));
    SameHistory(c, s, t);
    SameReader(c, s, t);
    LockPlaces(c, s, t, message);
  }

  lemma LockPlaces(c: Config, s: State, t: State, message: seq<byte>)
    requires LockOrder(c, s) && GapOk(c, s) && s.holder.None?
    requires t.holder.Some? && t.holder.value.next == 0 && t.holder.value.inFlight.None?
    requires t == s.(holder := t.holder, sends := s.sends + [message])
    ensures LockOrder(c, t) && GapOk(c, t)
  {
    assert t.sends[..|t.sends| - 1] == s.sends;
    assert t.holder.value.frames[..0] == [];
    assert forall i :: 0 <= i < |s.frames| ==> !InFlight(s, i);
    assert AllWritten(s) ==> AllWritten(t);
    assert s.gap.Some? ==> GapAt(c, s, s.gap.value) && GapAt(c, t, s.gap.value);
  }

  lemma UnlockKeeps(c: Config, s: State)
    requires Good(c.json) && Inv(c, s) && Enabled(c, s, Unlock)
    ensures Inv(c, Step(c, s, Unlock))
  {
    hide GapOk, ReaderOk;
    var t := Step(c, s, Unlock);
    SameHistory(c, s, t);
    var h := s.holder.value;
    assert h.frames[..|h.frames|] == h.frames;
    assert AllWritten(s) ==> AllWritten(t);
    UnlockRest(c, s);
  }

  lemma UnlockRest(c: Config, s: State)
    requires GapOk(c, s) && ReaderOk(c, s) && Enabled(c, s, Unlock)
    ensures GapOk(c, Step(c, s, Unlock)) && ReaderOk(c, Step(c, s, Unlock))
  {
    assert forall i :: 0 <= i < |s.frames| ==> !InFlight(s, i);
  }

  lemma WriteOkKeeps(c: Config, s: State)
    requires Good(c.json) && Inv(c, s) && Enabled(c, s, WriteOk)
    ensures Inv(c, Step(c, s, WriteOk))
  {
    var t := Step(c, s, WriteOk);
    SameHistory(c, s, t);
    var last := |s.frames| - 1;
    assert s.holder.value.inFlight == Some(s.frames[last]);
    assert InFlight(s, last);
    FramesDiffer(c, s);
    forall i | 0 <= i < |s.frames| && s.gap.None?
      ensures t.frames[i] in t.wire
    {
      assert s.frames[i] in s.wire || InFlight(s, i);
    }
  }

  /** Frames of different positions differ: their headers do. */
  lemma FramesDiffer(c: Config, s: State)
    requires LogIsHistory(c, s)
    ensures forall i, k :: 0 <= i < k < |s.frames| ==> s.frames[i] != s.frames[k]
  {
    forall i, k | 0 <= i < k < |s.frames|
      ensures s.frames[i] != s.frames[k]
    {
      assert FrameAt(c, s, i) && FrameAt(c, s, k);
      NonceInjective(CounterAt(c, i), CounterAt(c, k));
    }
  }

  lemma WriteBreaksKeeps(c: Config, s: State)
    requires Good(c.json) && Inv(c, s) && Enabled(c, s, WriteBreaks)
    ensures Inv(c, Step(c, s, WriteBreaks))
  {
    var t := Step(c, s, WriteBreaks);
    assert s.holder.value.inFlight.value == s.frames[|s.frames| - 1];
    SameHistory(c, s, t);
    BreakGap(c, s);
    SameReader(c, s, t);
  }

  /** The frame that may have gone out is the last one that can. */
  lemma BreakGap(c: Config, s: State)
    requires LogIsHistory(c, s) && HolderOk(c, s) && LockOrder(c, s) && GapOk(c, s) && Enabled(c, s, WriteBreaks)
    ensures GapOk(c, Step(c, s, WriteBreaks))
  {
    var t, last := Step(c, s, WriteBreaks), |s.frames| - 1;
    assert InFlight(s, last);
    FramesDiffer(c, s);
    if s.gap.None? {
      PrefixPromised(c, s, |s.sealed|);
    } else {
      assert GapAt(c, s, s.gap.value);
    }
    assert GapAt(c, t, t.gap.value);
  }

  lemma WriteFailsKeeps(c: Config, s: State)
    requires Good(c.json) && Inv(c, s) && Enabled(c, s, WriteFails)
    ensures Inv(c, Step(c, s, WriteFails))
  {
    var t := Step(c, s, WriteFails);
    SameHistory(c, s, t);
    LoseLast(c, s);
    SameReader(c, s, t);
  }

  lemma LoseLast(c: Config, s: State)
    requires HolderOk(c, s) && LockOrder(c, s) && GapOk(c, s) && Enabled(c, s, WriteFails)
    requires |s.frames| == |s.sealed| && c.base <= s.recvCounter <= c.base + |s.sealed|
    requires forall i :: 0 <= i < s.recvCounter - c.base ==> s.frames[i] in s.wire
    requires s.gap.Some? ==> s.recvCounter - c.base <= s.gap.value
    ensures var t := Step(c, s, WriteFails); GapOk(c, t) && s.recvCounter - c.base <= t.gap.value
  {
    var t := Step(c, s, WriteFails);
    var g := if s.gap.Some? then s.gap.value else |s.frames| - 1;
    if s.gap.None? {
      PrefixPromised(c, s, g);
      var n := s.recvCounter - c.base;
      assert s.frames[g] !in s.wire;
      assert n > 0 ==> s.frames[n - 1] in s.wire;
    } else {
      assert GapAt(c, s, g);
    }
    assert GapAt(c, t, g);
  }

  /** What was read stays explained when only the sending side moves. */
  lemma SameReader(c: Config, s: State, t: State)
    requires ReaderOk(c, s) && t.recvCounter == s.recvCounter && t.reader == s.reader
    requires s.sealed <= t.sealed && s.frames <= t.frames && |t.frames| == |t.sealed| && s.wire <= t.wire
    requires t.gap == s.gap || (t.gap.Some? && s.recvCounter - c.base <= t.gap.value)
    ensures ReaderOk(c, t)
  {
    var n := s.recvCounter - c.base;
    assert t.sealed[..n] == s.sealed[..n];
  }

  /** Before any loss every prefix of what was sealed is promised. */
  lemma {:induction false} PrefixPromised(c: Config, s: State, k: nat)
    requires HolderOk(c, s) && InOrder(c, s) && k <= |s.sealed|
    ensures s.sealed[..k] <= Frames(c.json, s.sends)
  {
  }

  lemma {:induction false} SealStopsKeeps(c: Config, s: State, cipher: seq<byte>)
    requires Good(c.json) && Inv(c, s) && Enabled(c, s, Seal(cipher)) && s.sendCounter == MAX_COUNTER
    ensures Inv(c, Step(c, s, Seal(cipher)))
  {
    var t := Step(c, s, Seal(cipher));
    FramesFit(c.json, s.sends[|s.sends| - 1], s.holder.value.next);
    SameHistory(c, s, t);
    CounterEnds(c, s, t);
    SameReader(c, s, t);
  }

  lemma CounterEnds(c: Config, s: State, t: State)
    requires HolderOk(c, s) && LockOrder(c, s) && GapOk(c, s) && |s.frames| == |s.sealed|
    requires s.sendCounter == MAX_COUNTER && t == s.(holder := None, gap := FirstGap(s, |s.sealed|))
    ensures GapOk(c, t)
  {
    var g := t.gap.value;
    if s.gap.None? {
      PrefixPromised(c, s, g);
    } else {
      assert GapAt(c, s, g);
    }
    assert GapAt(c, t, g);
  }

  lemma SealHistory(c: Config, s: State, cipher: seq<byte>)
    requires Good(c.json) && LogIsHistory(c, s) && HolderOk(c, s)
    requires Enabled(c, s, Seal(cipher)) && s.sendCounter < MAX_COUNTER
    ensures var t, h := Step(c, s, Seal(cipher)), s.holder.value;
            && LogIsHistory(c, t) && HolderOk(c, t)
            && t == s.(sendCounter := t.sendCounter, log := t.log, sealed := s.sealed + [h.frames[h.next]],
                       frames := s.frames + [Header(s.sendCounter + 1) + cipher],
                       holder := Some(h.(next := h.next + 1, inFlight := Some(Header(s.sendCounter + 1) + cipher))))
  {
    var t, h := Step(c, s, Seal(cipher)), s.holder.value;
    var n := |s.frames|;
    FramesFit(c.json, s.sends[|s.sends| - 1], h.next);
    SealLog(c, s, t, h.frames[h.next], cipher);
    FramesDiffer(c, t);
    assert forall i :: 0 <= i < n ==> s.frames[i] == t.frames[i] != t.frames[n];
    assert t.frames[n] !in s.frames;
  }

  lemma SealLog(c: Config, s: State, t: State, plain: seq<byte>, cipher: seq<byte>)
    requires LogIsHistory(c, s) && s.sendCounter < MAX_COUNTER && |cipher| >= GCM_TAG
    requires t.sendCounter == s.sendCounter + 1 && t.wire == s.wire
    requires t.sealed == s.sealed + [plain] && t.frames == s.frames + [Header(s.sendCounter + 1) + cipher]
    requires t.log == s.log[Entry(c.key, s.sendCounter + 1, cipher) := plain]
    ensures LogIsHistory(c, t)
  {
    var n := |s.frames|;
    HeaderCounter(s.sendCounter + 1, cipher);
    assert CounterAt(c, n) == s.sendCounter + 1;
    assert IsEntry(c, t, Entry(c.key, s.sendCounter + 1, cipher), n);
    forall i | 0 <= i < |t.frames|
      ensures FrameAt(c, t, i)
    {
      if i < n {
        assert FrameAt(c, s, i);
        NonceInjective(CounterAt(c, i), CounterAt(c, n));
      }
    }
    forall e | e in t.log && e.key == c.key
      ensures Placed(c, t, e)
    {
      if e != Entry(c.key, s.sendCounter + 1, cipher) {
        StaysPlaced(c, s, t, e);
      }
    }
  }

  lemma SealKeeps(c: Config, s: State, cipher: seq<byte>)
    requires Good(c.json) && Inv(c, s) && Enabled(c, s, Seal(cipher)) && s.sendCounter < MAX_COUNTER
    ensures Inv(c, Step(c, s, Seal(cipher)))
  {
    SealHistory(c, s, cipher);
    SealOrder(c, s, cipher);
    SealGap(c, s, cipher);
    SameReader(c, s, Step(c, s, Seal(cipher)));
  }

  lemma SealOrder(c: Config, s: State, cipher: seq<byte>)
    requires Good(c.json) && LogIsHistory(c, s) && HolderOk(c, s) && LockOrder(c, s)
    requires Enabled(c, s, Seal(cipher)) && s.sendCounter < MAX_COUNTER
    ensures LockOrder(c, Step(c, s, Seal(cipher)))
  {
    hide Step, LogIsHistory, HolderOk;
    var t, h := Step(c, s, Seal(cipher)), s.holder.value;
    SealHistory(c, s, cipher);
    if s.gap.None? {
      assert h.frames[..h.next + 1] == h.frames[..h.next] + [h.frames[h.next]];
      forall i | 0 <= i < |t.frames|
        ensures t.frames[i] in t.wire || InFlight(t, i)
      {
        assert i < |s.frames| ==> s.frames[i] in s.wire || InFlight(s, i);
      }
    }
  }

  lemma SealGap(c: Config, s: State, cipher: seq<byte>)
    requires Good(c.json) && LogIsHistory(c, s) && HolderOk(c, s) && GapOk(c, s)
    requires Enabled(c, s, Seal(cipher)) && s.sendCounter < MAX_COUNTER
    ensures GapOk(c, Step(c, s, Seal(cipher)))
  {
    var t := Step(c, s, Seal(cipher));
    SealHistory(c, s, cipher);
    if s.gap.Some? {
      var g := s.gap.value;
      assert GapAt(c, s, g);
      FramesDiffer(c, t);
      assert t.sealed[..g] == s.sealed[..g];
      assert GapAt(c, t, g);
    }
  }

  /** Lock order and gap depend on nothing but the sending side. */
  lemma SamePlaces(c: Config, s: State, t: State)
    requires LockOrder(c, s) && GapOk(c, s)
    requires t == s.(log := t.log, recvCounter := t.recvCounter, reader := t.reader)
    ensures LockOrder(c, t) && GapOk(c, t)
  {
    assert forall i :: 0 <= i < |t.frames| ==> (InFlight(t, i) <==> InFlight(s, i));
    assert AllWritten(s) ==> AllWritten(t);
    assert s.gap.Some? ==> GapAt(c, s, s.gap.value);
  }

  lemma OtherSealKeeps(c: Config, s: State, other: Sealing, plain: seq<byte>)
    requires Inv(c, s) && other.key != c.key
    ensures Inv(c, Step(c, s, OtherSeal(other, plain)))
  {
    hide LogIsHistory, LockOrder, GapOk, ReaderOk;
    var t := Step(c, s, OtherSeal(other, plain));
    assert t == s.(log := s.log[other := plain]);
    assert |t.frames| == |t.sealed| by { HistoryLengths(c, s); }
    OtherLog(c, s, other, plain);
    SamePlaces(c, s, t);
    SameReader(c, s, t);
  }

  lemma HistoryLengths(c: Config, s: State)
    requires LogIsHistory(c, s)
    ensures |s.frames| == |s.sealed| && s.sendCounter == c.base + |s.sealed|
  {
  }

  lemma OtherLog(c: Config, s: State, other: Sealing, plain: seq<byte>)
    requires LogIsHistory(c, s) && other.key != c.key
    ensures LogIsHistory(c, s.(log := s.log[other := plain]))
  {
    var t := s.(log := s.log[other := plain]);
    forall i | 0 <= i < |t.frames|
      ensures FrameAt(c, t, i)
    {
      assert FrameAt(c, s, i);
    }
    forall e | e in t.log && e.key == c.key
      ensures Placed(c, t, e)
    {
      StaysPlaced(c, s, t, e);
    }
  }

  /** Whatever bytes arrive: they are the next frame of the history, or an error. */
  lemma OpensOnlyNext(c: Config, s: State, frame: seq<byte>)
    requires LogIsHistory(c, s) && c.base <= s.recvCounter <= s.sendCounter
    ensures var r := OpenNext(c.key, s.recvCounter, s.log, frame);
            var n := s.recvCounter - c.base;
            r.Opened? ==> n < |s.frames| && frame == s.frames[n] && r == Opened(s.recvCounter + 1, s.sealed[n])
  {
    if OpenNext(c.key, s.recvCounter, s.log, frame).Opened? {
      var cipher := OpenedFrame(c.key, s.recvCounter, s.log, frame);
      CipherIsNext(c, s, (s.recvCounter + 1) % TWO_TO_64, cipher);
    }
  }

  lemma CipherIsNext(c: Config, s: State, counter: uint64, cipher: seq<byte>)
    requires LogIsHistory(c, s) && c.base <= s.recvCounter <= s.sendCounter
    requires Entry(c.key, counter, cipher) in s.log && counter == (s.recvCounter + 1) % TWO_TO_64
    ensures var n := s.recvCounter - c.base;
            && counter == s.recvCounter + 1 && n < |s.frames| && s.frames[n] == Header(counter) + cipher
            && s.log[Entry(c.key, counter, cipher)] == s.sealed[n]
  {
    hide LogIsHistory, FrameAt, IsEntry, Early, Placed;
    LaterIsNotEarly(c, counter, cipher);
    var i := EntryIndex(c, s, Entry(c.key, counter, cipher));
    HistoryLengths(c, s);
    EntryFrame(c, s, counter, cipher, i);
  }

  lemma LaterIsNotEarly(c: Config, counter: uint64, cipher: seq<byte>)
    requires counter == 0 || counter > c.base
    ensures !Early(c, Entry(c.key, counter, cipher))
  {
    forall n: uint64, other | 1 <= n <= c.base
      ensures Entry(c.key, counter, cipher) != Entry(c.key, n, other)
    {
      NonceInjective(counter, n);
    }
  }

  lemma EntryIndex(c: Config, s: State, e: Sealing) returns (i: nat)
    requires LogIsHistory(c, s) && e in s.log && e.key == c.key && !Early(c, e)
    ensures i < |s.frames| && IsEntry(c, s, e, i) && FrameAt(c, s, i)
  {
    assert Placed(c, s, e);
    i :| 0 <= i < |s.frames| && IsEntry(c, s, e, i);
  }

  lemma EntryFrame(c: Config, s: State, counter: uint64, cipher: seq<byte>, i: nat)
    requires |s.frames| == |s.sealed| && i < |s.frames| && FrameAt(c, s, i)
    requires IsEntry(c, s, Entry(c.key, counter, cipher), i)
    ensures counter == CounterAt(c, i) && s.frames[i] == Header(counter) + cipher
    ensures s.log[Entry(c.key, counter, cipher)] == s.sealed[i]
  {
    NonceInjective(counter, CounterAt(c, i));
    assert s.frames[i] == s.frames[i][..HEADER_SIZE] + s.frames[i][HEADER_SIZE..];
  }

  lemma ReceiveKeeps(c: Config, s: State, frame: seq<byte>)
    requires Good(c.json) && Inv(c, s) && Enabled(c, s, Receive(frame))
    ensures Inv(c, Step(c, s, Receive(frame)))
  {
    hide LogIsHistory, LockOrder, GapOk, ReaderOk, OpenNext, Feed;
    var t := Step(c, s, Receive(frame));
    assert t == s.(recvCounter := t.recvCounter, reader := t.reader);
    WireSealed(c, s);
    SameHistory(c, s, t);
    SamePlaces(c, s, t);
    ReceiveReads(c, s, frame);
  }

  lemma WireSealed(c: Config, s: State)
    requires LogIsHistory(c, s)
    ensures forall f :: f in s.wire ==> f in s.frames
  {
  }

  lemma ReceiveReads(c: Config, s: State, frame: seq<byte>)
    requires LogIsHistory(c, s) && ReaderOk(c, s) && GapOk(c, s) && Enabled(c, s, Receive(frame))
    ensures ReaderOk(c, Step(c, s, Receive(frame)))
  {
    hide Step, LogIsHistory, GapOk, ReaderOk;
    ReaderBehind(c, s);
    OpensOnlyNext(c, s, frame);
    if OpenNext(c.key, s.recvCounter, s.log, frame).Opened? {
      ReadsOneMore(c, s, frame);
      ReceiveShape(c, s, frame);
    } else {
      ReadsNoMore(c, s, frame);
    }
  }

  lemma ReaderBehind(c: Config, s: State)
    requires LogIsHistory(c, s) && ReaderOk(c, s)
    ensures c.base <= s.recvCounter <= s.sendCounter && |s.frames| == |s.sealed|
  {
  }

  lemma ReceiveShape(c: Config, s: State, frame: seq<byte>)
    requires Enabled(c, s, Receive(frame))
    ensures var r := OpenNext(c.key, s.recvCounter, s.log, frame);
            r.Opened? ==>
              Step(c, s, Receive(frame)) == s.(recvCounter := r.counter, reader := Feed(s.reader, c.json.read(r.plain)))
  {
  }

  lemma ReadsNoMore(c: Config, s: State, frame: seq<byte>)
    requires ReaderOk(c, s) && Enabled(c, s, Receive(frame))
    requires !OpenNext(c.key, s.recvCounter, s.log, frame).Opened?
    ensures ReaderOk(c, Step(c, s, Receive(frame)))
  {
    assert Step(c, s, Receive(frame)) == s.(reader := s.reader.(dead := true));
  }

  lemma FeedLast(items: seq<Item>)
    requires items != []
    ensures FeedAll(START, items) == Feed(FeedAll(START, items[..|items| - 1]), items[|items| - 1])
  {
  }

  lemma ReadsOneMore(c: Config, s: State, frame: seq<byte>)
    requires |s.frames| == |s.sealed| && ReaderOk(c, s) && GapOk(c, s) && s.recvCounter < MAX_COUNTER
    requires !s.reader.dead && (frame in s.frames ==> frame in s.wire)
    requires s.recvCounter - c.base < |s.frames| && frame == s.frames[s.recvCounter - c.base]
    ensures var n := s.recvCounter - c.base;
            ReaderOk(c, s.(recvCounter := s.recvCounter + 1, reader := Feed(s.reader, c.json.read(s.sealed[n]))))
  {
    hide FeedAll;
    var n := s.recvCounter - c.base;
    assert s.frames[n] in s.frames && s.frames[n] in s.wire;
    assert s.gap.Some? ==> GapAt(c, s, s.gap.value);
    var read := Read(c.json, s.sealed[..n + 1]);
    assert read[..n] == Read(c.json, s.sealed[..n]) && read[n] == c.json.read(s.sealed[n]);
    FeedLast(read);
  }

  lemma StepKeeps(c: Config, s: State, e: Event)
    requires Good(c.json) && Inv(c, s)
    ensures Inv(c, Step(c, s, e))
  {
    if Enabled(c, s, e) {
      match e
      case Lock(sender, message) => LockKeeps(c, s, sender, message);
      case Seal(cipher) =>
        if s.sendCounter == MAX_COUNTER { SealStopsKeeps(c, s, cipher); } else { SealKeeps(c, s, cipher); }
      case WriteOk => WriteOkKeeps(c, s);
      case WriteFails => WriteFailsKeeps(c, s);
      case WriteBreaks => WriteBreaksKeeps(c, s);
      case Unlock => UnlockKeeps(c, s);
      case Receive(frame) => ReceiveKeeps(c, s, frame);
      case OtherSeal(other, plain) => OtherSealKeeps(c, s, other, plain);
    }
  }

  lemma {:induction false} RunKeeps(c: Config, events: seq<Event>)
    requires Usable(c)
    ensures Inv(c, Run(c, events))
  {
    if events == [] {
    } else {
      RunKeeps(c, events[..|events| - 1]);
      StepKeeps(c, Run(c, events[..|events| - 1]), events[|events| - 1]);
    }
  }
}
