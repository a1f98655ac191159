/**
 * conn.send and conn.recv (internal/bridge/server.go) as they run: loops over frames that update the
 * suite, the socket and the assembler in place. Each is shown to perform steps of the machine in
 * Stream and nothing else, so what is proved of its runs holds of these loops.
 */
module Conn {
  import opened Bytes
  import opened Envelope
  import opened Messages
  import opened Reading
  import opened Runs
  import S = Stream

  function StepAll(c: S.Config, s: S.State, events: seq<S.Event>): S.State {
    After(S.Stepper(c), s, events)
  }

  /** What a receive does to the machine when it is possible at all. */
  lemma ReceiveStep(c: S.Config, s: S.State, frame: seq<byte>)
    requires !s.reader.dead && (frame in s.frames ==> frame in s.wire)
    ensures S.Step(c, s, S.Receive(frame)) ==
            match OpenNext(c.key, s.recvCounter, s.log, frame)
            case Opened(counter, plain) => s.(recvCounter := counter, reader := Feed(s.reader, c.json.read(plain)))
            case _ => s.(reader := s.reader.(dead := true))
  {
  }

  /** The state of the direction's machine; bookkeeping only. */
  class History {
    ghost var state: S.State

    ghost constructor (c: S.Config)
      ensures state == S.Start(c)
    {
      state := S.Start(c);
    }
  }

  /** The socket: what went out, how many writes will still succeed, whether the first one to fail sends its bytes
      all the same, and what is left to read. */
  class Socket {
    var written: seq<seq<byte>>
    var budget: nat
    var leaks: bool
    var inbound: seq<seq<byte>>

    constructor (budget: nat, leaks: bool, inbound: seq<seq<byte>>)
      ensures written == [] && this.budget == budget && this.leaks == leaks && this.inbound == inbound
    {
      written, this.budget, this.leaks, this.inbound := [], budget, leaks, inbound;
    }

    method Write(frame: seq<byte>) returns (ok: bool)
      modifies this`written, this`budget, this`leaks
      ensures ok == (old(budget) > 0)
      ensures written == if ok || old(leaks) then old(written) + [frame] else old(written)
      ensures budget == if ok then old(budget) - 1 else 0
      ensures leaks == (ok && old(leaks))
    {
      if budget == 0 {
        if leaks {
          written, leaks := written + [frame], false;
        }
        return false;
      }
      written, budget := written + [frame], budget - 1;
      return true;
    }
  }

  function SetOf(frames: seq<seq<byte>>): set<seq<byte>> {
    set f | f in frames
  }

  /** The sending end of one direction. */
  class Sender {
    const suite: Suite
    const socket: Socket
    ghost const config: S.Config
    const json: Codec
    ghost const history: History

    constructor (suite: Suite, socket: Socket, json: Codec, ghost config: S.Config, ghost history: History)
      ensures this.suite == suite && this.socket == socket && this.json == json
      ensures this.config == config && this.history == history
    {
      this.suite, this.socket, this.json, this.config, this.history := suite, socket, json, config, history;
    }

    /** The fields are the machine's state, seen from the sending end. */
    ghost predicate Matches()
      reads suite, suite.aead, socket, history
    {
      && suite.sendKey == config.key && json == config.json
      && suite.sendCounter == history.state.sendCounter
      && suite.aead.log == history.state.log
      && SetOf(socket.written) == history.state.wire
      && (history.state.broken ==> socket.budget == 0 && !socket.leaks)
    }

    /** Seals and writes one frame of the message being sent. */
    method SealAndWrite(plain: seq<byte>, cipher: seq<byte>) returns (ok: bool, ghost events: seq<S.Event>)
      requires Matches() && history.state.holder.Some?
      requires var h := history.state.holder.value;
               && h.inFlight.None? && h.next < |h.frames| && plain == h.frames[h.next]
               && |cipher| == |plain| + GCM_TAG
      modifies suite`sendCounter, suite.aead, socket`written, socket`budget, socket`leaks, history
      ensures Matches() && history.state == StepAll(config, old(history.state), events)
      ensures history.state.sends == old(history.state.sends)
      ensures ok ==>
                && var h := old(history.state.holder.value);
                && history.state.holder == Some(h.(next := h.next + 1))
                && history.state.sealed == old(history.state.sealed) + [plain]
                && |socket.written| == old(|socket.written|) + 1
      ensures !ok ==> history.state.holder.None? && history.state.gap.Some?
    {
      ghost var seal := S.Seal(cipher);
      var outcome, frame := suite.Seal(plain, cipher);
      history.state := S.Step(config, history.state, seal);
      AfterOne(S.Stepper(config), old(history.state), [], seal);
      events := [] + [seal];
      if !outcome.Next? {
        return false, events;
      }
      ghost var sent := socket.leaks;
      ok := socket.Write(frame);
      ghost var write := if ok then S.WriteOk else if sent then S.WriteBreaks else S.WriteFails;
      history.state := S.Step(config, history.state, write);
      AfterOne(S.Stepper(config), old(history.state), events, write);
      events := events + [write];
    }

    /** Runs under sendMu. `ciphers` are the ideal cipher's outputs for the frames in turn. */
    method Send(plain: seq<byte>, ciphers: seq<seq<byte>>, ghost sender: nat)
      returns (ok: bool, ghost events: seq<S.Event>)
      requires Matches() && history.state.holder.None? && Passable(json, plain)
      requires Fit(ciphers, S.FramesOf(json, plain))
      modifies suite`sendCounter, suite.aead, socket`written, socket`budget, socket`leaks, history
      ensures Matches() && history.state.holder.None?
      ensures history.state == StepAll(config, old(history.state), events)
      ensures history.state.sends == old(history.state.sends) + [plain]
      ensures ok ==> history.state.sealed == old(history.state.sealed) + S.FramesOf(json, plain)
                     && |socket.written| == old(|socket.written|) + |S.FramesOf(json, plain)|
      ensures !ok ==> history.state.gap.Some?
    {
      events := Acquire(sender, plain);
      var frames := FramesToSend(plain);
      ghost var more;
      ok, more := SendFrames(frames, ciphers);
      AfterBoth(S.Stepper(config), old(history.state), events, more);
      events := events + more;
      if ok {
        more := Release();
        AfterBoth(S.Stepper(config), old(history.state), events, more);
        events := events + more;
      }
    }

    ghost predicate Fit(ciphers: seq<seq<byte>>, frames: seq<seq<byte>>) {
      |ciphers| == |frames| && forall i :: 0 <= i < |ciphers| ==> |ciphers[i]| == |frames[i]| + GCM_TAG
    }

    /** The loop of send: stops at the first frame that cannot be sealed or written. */
    method SendFrames(frames: seq<seq<byte>>, ciphers: seq<seq<byte>>)
      returns (ok: bool, ghost events: seq<S.Event>)
      requires Matches() && Fit(ciphers, frames)
      requires history.state.holder.Some? && history.state.holder.value.frames == frames
      requires history.state.holder.value.next == 0 && history.state.holder.value.inFlight.None?
      modifies suite`sendCounter, suite.aead, socket`written, socket`budget, socket`leaks, history
      ensures Matches() && history.state == StepAll(config, old(history.state), events)
      ensures history.state.sends == old(history.state.sends)
      ensures ok ==>
                && history.state.holder == Some(old(history.state.holder.value).(next := |frames|))
                && history.state.sealed == old(history.state.sealed) + frames
                && |socket.written| == old(|socket.written|) + |frames|
      ensures !ok ==> history.state.holder.None? && history.state.gap.Some?
    {
      ghost var start := history.state;
      events := [];
      var i := 0;
      while i < |frames|
        invariant 0 <= i <= |frames|
        invariant Matches() && history.state == StepAll(config, start, events)
        invariant history.state.holder == Some(start.holder.value.(next := i))
        invariant history.state.sends == start.sends
        invariant history.state.sealed == start.sealed + frames[..i]
        invariant |socket.written| == old(|socket.written|) + i
      {
        assert frames[..i + 1] == frames[..i] + [frames[i]];
        ghost var earlier, more := events, [];
        ok, more := SealAndWrite(frames[i], ciphers[i]);
        events := earlier + more;
        AfterBoth(S.Stepper(config), start, earlier, more);
        if !ok {
          return;
        }
        i := i + 1;
      }
      assert frames[..|frames|] == frames;
      ok := true;
    }

    /** The plaintext frames of a message: itself, or its marshalled chunks. */
    method FramesToSend(plain: seq<byte>) returns (frames: seq<seq<byte>>)
      ensures frames == S.FramesOf(json, plain)
    {
      var chunks := SplitChunks(plain);
      match chunks
      case None => frames := [plain];
      case Some(cs) => frames := seq(|cs|, i requires 0 <= i < |cs| => json.encode(cs[i]));
    }

    ghost method Acquire(sender: nat, plain: seq<byte>) returns (events: seq<S.Event>)
      requires Matches() && history.state.holder.None? && Passable(json, plain)
      modifies history
      ensures Matches() && history.state == StepAll(config, old(history.state), events)
      ensures history.state == old(history.state).(
                holder := Some(S.Holder(sender, S.FramesOf(json, plain), 0, None)),
                sends := old(history.state).sends + [plain])
    {
      events := [] + [S.Lock(sender, plain)];
      AfterOne(S.Stepper(config), history.state, [], S.Lock(sender, plain));
      history.state := S.Step(config, history.state, S.Lock(sender, plain));
    }

    ghost method Release() returns (events: seq<S.Event>)
      requires Matches() && history.state.holder.Some? && history.state.holder.value.inFlight.None?
      requires history.state.holder.value.next == |history.state.holder.value.frames|
      modifies history
      ensures Matches() && history.state == StepAll(config, old(history.state), events)
      ensures history.state == old(history.state).(holder := None)
    {
      events := [] + [S.Unlock];
      AfterOne(S.Stepper(config), history.state, [], S.Unlock);
      history.state := S.Step(config, history.state, S.Unlock);
    }
  }

  datatype Received = Message(plain: seq<byte>) | Failed

  /** Receiving the first n of the frames, one after another. */
  ghost function Receives(frames: seq<seq<byte>>, n: nat): (events: seq<S.Event>)
    requires n <= |frames|
    ensures |events| == n
  {
    if n == 0 then [] else Receives(frames, n - 1) + [S.Receive(frames[n - 1])]
  }

  /** The receiving end of one direction. */
  class Receiver {
    const suite: Suite
    const socket: Socket
    const json: Codec
    const asm: ChunkAssembler
    ghost const config: S.Config
    ghost const history: History

    constructor (suite: Suite, socket: Socket, json: Codec, asm: ChunkAssembler,
                 ghost config: S.Config, ghost history: History)
      ensures this.suite == suite && this.socket == socket && this.json == json && this.asm == asm
      ensures this.config == config && this.history == history
    {
      this.suite, this.socket, this.json, this.asm := suite, socket, json, asm;
      this.config, this.history := config, history;
    }

    ghost predicate Matches()
      reads suite, suite.aead, asm, history
    {
      && suite.recvKey == config.key && json == config.json
      && suite.recvCounter == history.state.recvCounter
      && suite.aead.log == history.state.log
      && asm.State() == history.state.reader.asm
    }

    /** Nobody outside has seen a frame that was sealed but never written. */
    ghost predicate Possible()
      reads socket, history
    {
      forall f :: f in socket.inbound && f in history.state.frames ==> f in history.state.wire
    }

    /** Reads frames until one completes a message or something fails. */
    method Recv() returns (r: Received, ghost events: seq<S.Event>)
      requires Matches() && Possible() && !history.state.reader.dead
      modifies suite`recvCounter, socket`inbound, asm, history
      ensures Matches() && Possible()
      ensures history.state == StepAll(config, old(history.state), events)
      ensures |events| <= |old(socket.inbound)| && socket.inbound == old(socket.inbound)[|events|..]
      ensures events == Receives(old(socket.inbound), |events|)
      ensures r.Message? ==>
                && !history.state.reader.dead
                && history.state.reader.out == old(history.state.reader.out) + [r.plain]
      ensures r.Failed? ==>
                && history.state.reader.out == old(history.state.reader.out)
                && (history.state.reader.dead || socket.inbound == [])
    {
      hide S.Step, S.Enabled, OpenNext, After;
      events := [];
      AfterNone(S.Stepper(config), history.state);
      while true
        invariant Matches() && Possible() && !history.state.reader.dead
        invariant history.state == StepAll(config, old(history.state), events)
        invariant |events| <= |old(socket.inbound)| && socket.inbound == old(socket.inbound)[|events|..]
        invariant events == Receives(old(socket.inbound), |events|)
        invariant history.state.reader.out == old(history.state.reader.out)
        decreases |socket.inbound|
      {
        if socket.inbound == [] {
          return Failed, events;
        }
        var frame := socket.inbound[0];
        assert frame in socket.inbound;
        socket.inbound := socket.inbound[1..];
        var outcome := suite.Open(frame);
        ReceiveStep(config, history.state, frame);
        history.state := S.Step(config, history.state, S.Receive(frame));
        AfterOne(S.Stepper(config), old(history.state), events, S.Receive(frame));
        events := events + [S.Receive(frame)];
        if !outcome.Opened? {
          return Failed, events;
        }
        match json.read(outcome.plain)
        case Unreadable =>
          return Failed, events;
        case Plain(message) =>
          return Message(message), events;
        case Piece(chunk) =>
          var added := asm.Add(chunk);
          match added
          case OrderError =>
            return Failed, events;
          case TooLarge =>
            return Failed, events;
          case Whole(message) =>
            return Message(message), events;
          case More =>
      }
    }
  }
}
