/**
 * The encrypted envelope (internal/protocol/envelope.go): frames
 *     0x01 | counter, 8 bytes big-endian | ciphertext and tag
 * whose counters must be strictly sequential in each direction.
 *
 * AES-GCM is ideal: sealing returns any string 16 bytes longer than the plaintext (chosen by the
 * environment) and records it; opening succeeds exactly on what was recorded under the same key,
 * nonce and associated data.
 */
module Envelope {
  import opened Bytes

  const FRAME_VERSION: byte := 1
  const HEADER_SIZE: nat := 9
  const GCM_TAG: nat := 16
  const MAX_PLAINTEXT: nat := 16 * 0x10_0000
  const MAX_COUNTER: nat := TWO_TO_64 - 1

  datatype Sealing = Sealing(key: seq<byte>, nonce: seq<byte>, aad: seq<byte>, cipher: seq<byte>)

  /** Everything ever sealed, under any key. */
  type SealLog = map<Sealing, seq<byte>>

  function Header(counter: uint64): (h: seq<byte>)
    ensures |h| == HEADER_SIZE
  {
    [FRAME_VERSION] + BigEndian(counter, 8)
  }

  function NonceFor(counter: uint64): (n: seq<byte>)
    ensures |n| == 12
  {
    [0, 0, 0, 0] + BigEndian(counter, 8)
  }

  /** The layout of a frame's header and of the nonce that goes with it. */
  lemma Layout(counter: uint64)
    ensures var h := Header(counter); |h| == 9 && h[0] == 1 && FromBigEndian(h[1..]) == counter
    ensures var n := NonceFor(counter); |n| == 12 && n[..4] == [0, 0, 0, 0] && FromBigEndian(n[4..]) == counter
  {
    Uint64Fits(counter);
    assert Header(counter)[1..] == BigEndian(counter, 8) == NonceFor(counter)[4..];
  }

  method BuildHeader(counter: uint64) returns (h: array<byte>)
    ensures fresh(h) && h[..] == Header(counter)
  {
    h := new byte[HEADER_SIZE];
    h[0] := FRAME_VERSION;
    PutBigEndian(h, 1, 8, counter);
    assert h[..] == [h[0]] + h[1..9];
  }

  method BuildNonce(counter: uint64) returns (n: array<byte>)
    ensures fresh(n) && n[..] == NonceFor(counter)
  {
    n := new byte[12](_ => 0);
    PutBigEndian(n, 4, 8, counter);
    assert n[..] == n[..4] + n[4..12];
  }

  function Entry(key: seq<byte>, counter: uint64, cipher: seq<byte>): Sealing {
    Sealing(key, NonceFor(counter), Header(counter), cipher)
  }

  datatype SealOutcome = Next(counter: uint64) | TooLong | Exhausted

  /** What Seal decides before it encrypts: the counter of the frame, or why there is none. */
  function SealNext(counter: uint64, length: nat): SealOutcome {
    if length > MAX_PLAINTEXT then TooLong
    else if counter == MAX_COUNTER then Exhausted
    else Next(counter + 1)
  }

  /** A counter for every plaintext of at most 16 MiB until the last counter is used, and for no other. */
  lemma SealsExactly(counter: uint64, length: nat)
    ensures var r := SealNext(counter, length);
            && (r.TooLong? <==> length > 16_777_216)
            && (r.Next? <==> length <= 16_777_216 && counter < 0xFFFF_FFFF_FFFF_FFFF)
            && (r.Next? ==> r.counter == counter + 1)
  {
  }

  datatype OpenOutcome = Opened(counter: uint64, plain: seq<byte>) | BadFrame | BadCounter

  /** Open on a suite whose last accepted counter is `last`; the expected counter wraps as uint64. */
  function OpenNext(key: seq<byte>, last: uint64, log: SealLog, frame: seq<byte>): OpenOutcome {
    if |frame| < HEADER_SIZE + GCM_TAG || frame[0] != FRAME_VERSION then BadFrame
    else
      var counter := FrameCounter(frame);
      if counter != (last + 1) % TWO_TO_64 then BadCounter
      else
        var sealing := Sealing(key, NonceFor(counter), frame[..HEADER_SIZE], frame[HEADER_SIZE..]);
        if sealing in log then Opened(counter, log[sealing]) else BadFrame
  }

  function FrameCounter(frame: seq<byte>): uint64
    requires |frame| >= HEADER_SIZE
  {
    assert Pow256(8) == TWO_TO_64;
    FromBigEndian(frame[1..HEADER_SIZE])
  }

  lemma HeaderCounter(counter: uint64, cipher: seq<byte>)
    ensures FrameCounter(Header(counter) + cipher) == counter
    ensures (Header(counter) + cipher)[..HEADER_SIZE] == Header(counter)
    ensures (Header(counter) + cipher)[HEADER_SIZE..] == cipher
  {
    var frame := Header(counter) + cipher;
    assert frame[1..HEADER_SIZE] == BigEndian(counter, 8);
    Uint64Fits(counter);
  }

  /** The next frame, if it was sealed, is accepted. */
  lemma HeaderOpens(key: seq<byte>, last: uint64, log: SealLog, cipher: seq<byte>)
    requires last < MAX_COUNTER && |cipher| >= GCM_TAG && Entry(key, last + 1, cipher) in log
    ensures OpenNext(key, last, log, Header(last + 1) + cipher) == Opened(last + 1, log[Entry(key, last + 1, cipher)])
  {
    HeaderCounter(last + 1, cipher);
  }

  /** A frame is accepted exactly when it is header(last+1) followed by a ciphertext that was sealed
      under this key with that counter's nonce and header. */
  lemma OpenIff(key: seq<byte>, last: uint64, log: SealLog, frame: seq<byte>, plain: seq<byte>)
    ensures var counter := (last + 1) % TWO_TO_64;
            OpenNext(key, last, log, frame) == Opened(counter, plain)
            <==> exists cipher :: |cipher| >= 16 && frame == Header(counter) + cipher
                                  && Entry(key, counter, cipher) in log
                                  && log[Entry(key, counter, cipher)] == plain
  {
    var counter := (last + 1) % TWO_TO_64;
    if OpenNext(key, last, log, frame) == Opened(counter, plain) {
      var cipher := frame[HEADER_SIZE..];
      BigEndianOnto(frame[1..HEADER_SIZE]);
      assert frame[..HEADER_SIZE] == Header(counter);
      assert frame == Header(counter) + cipher;
    }
    forall cipher | |cipher| >= GCM_TAG && frame == Header(counter) + cipher
                    && Entry(key, counter, cipher) in log && log[Entry(key, counter, cipher)] == plain
      ensures OpenNext(key, last, log, frame) == Opened(counter, plain)
    {
      HeaderCounter(counter, cipher);
    }
  }

  /** What an accepted frame is made of. */
  lemma OpenedFrame(key: seq<byte>, last: uint64, log: SealLog, frame: seq<byte>) returns (cipher: seq<byte>)
    requires OpenNext(key, last, log, frame).Opened?
    ensures var r := OpenNext(key, last, log, frame);
            && r.counter == (last + 1) % TWO_TO_64 && frame == Header(r.counter) + cipher
            && Entry(key, r.counter, cipher) in log && log[Entry(key, r.counter, cipher)] == r.plain
  {
    var r := OpenNext(key, last, log, frame);
    OpenIff(key, last, log, frame, r.plain);
    cipher :| |cipher| >= GCM_TAG && frame == Header(r.counter) + cipher
              && Entry(key, r.counter, cipher) in log && log[Entry(key, r.counter, cipher)] == r.plain;
  }

  /** Nonces of different counters differ, so a key never reuses a nonce while counters do not repeat. */
  lemma NonceInjective(c: uint64, d: uint64)
    ensures NonceFor(c) == NonceFor(d) ==> c == d
    ensures Header(c) == Header(d) ==> c == d
  {
    assert NonceFor(c)[4..] == BigEndian(c, 8) && NonceFor(d)[4..] == BigEndian(d, 8);
    assert Header(c)[1..] == BigEndian(c, 8) && Header(d)[1..] == BigEndian(d, 8);
    Uint64Fits(c);
    Uint64Fits(d);
  }

  /** The ideal cipher shared by both ends. */
  class Aead {
    var log: SealLog

    constructor ()
      ensures log == map[]
    {
      log := map[];
    }

    method Seal(key: seq<byte>, nonce: seq<byte>, aad: seq<byte>, plain: seq<byte>, cipher: seq<byte>)
      requires |cipher| == |plain| + GCM_TAG
      modifies this
      ensures log == old(log)[Sealing(key, nonce, aad, cipher) := plain]
    {
      log := log[Sealing(key, nonce, aad, cipher) := plain];
    }
  }

  /** One connection's directional keys and counters. */
  class Suite {
    const aead: Aead
    const sendKey: seq<byte>
    const recvKey: seq<byte>
    var sendCounter: uint64
    var recvCounter: uint64

    constructor (aead: Aead, sendKey: seq<byte>, recvKey: seq<byte>)
      ensures this.aead == aead && this.sendKey == sendKey && this.recvKey == recvKey
      ensures sendCounter == 0 && recvCounter == 0
    {
      this.aead, this.sendKey, this.recvKey := aead, sendKey, recvKey;
      sendCounter, recvCounter := 0, 0;
    }

    /** `cipher` is the ideal cipher's output for this frame. */
    method Seal(plain: seq<byte>, cipher: seq<byte>) returns (outcome: SealOutcome, frame: seq<byte>)
      requires |cipher| == |plain| + GCM_TAG
      modifies this`sendCounter, aead
      ensures outcome == SealNext(old(sendCounter), |plain|)
      ensures outcome.Next? ==>
                && sendCounter == outcome.counter
                && frame == Header(outcome.counter) + cipher
                && aead.log == old(aead.log)[Entry(sendKey, outcome.counter, cipher) := plain]
      ensures !outcome.Next? ==> sendCounter == old(sendCounter) && aead.log == old(aead.log)
    {
      frame := [];
      if |plain| > MAX_PLAINTEXT {
        return TooLong, [];
      }
      if sendCounter == MAX_COUNTER {
        return Exhausted, [];
      }
      sendCounter := sendCounter + 1;
      var header := BuildHeader(sendCounter);
      var nonce := BuildNonce(sendCounter);
      aead.Seal(sendKey, nonce[..], header[..], plain, cipher);
      return Next(sendCounter), header[..] + cipher;
    }

    method Open(frame: seq<byte>) returns (outcome: OpenOutcome)
      modifies this`recvCounter
      ensures outcome == OpenNext(recvKey, old(recvCounter), aead.log, frame)
      ensures recvCounter == if outcome.Opened? then outcome.counter else old(recvCounter)
    {
      if |frame| < HEADER_SIZE + GCM_TAG || frame[0] != FRAME_VERSION {
        return BadFrame;
      }
      var counter := FrameCounter(frame);
      if counter != (recvCounter + 1) % TWO_TO_64 {
        return BadCounter;
      }
      var nonce := BuildNonce(counter);
      var sealing := Sealing(recvKey, nonce[..], frame[..HEADER_SIZE], frame[HEADER_SIZE..]);
      if sealing !in aead.log {
        return BadFrame;
      }
      recvCounter := counter;
      return Opened(counter, aead.log[sealing]);
    }
  }
}
