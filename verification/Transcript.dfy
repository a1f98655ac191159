/** The handshake transcript (internal/protocol/handshake.go, lp and Transcript), as bytes. */
module Transcript {
  import opened Bytes

  datatype Hello = Hello(version: int, sessionID: seq<byte>, phoneID: seq<byte>, phoneEph: seq<byte>, nonceP: seq<byte>)

  datatype Accept = Accept(bridgeEph: seq<byte>, nonceB: seq<byte>, sig: seq<byte>)

  const LABEL_TRANSCRIPT := Ascii("hermes-remote v1 transcript")

  /** A two-byte length, truncated to uint16, and the bytes. */
  function Lp(b: seq<byte>): seq<byte> {
    BigEndian(|b|, 2) + b
  }

  function Join(fields: seq<seq<byte>>): seq<byte> {
    if fields == [] then [] else Lp(fields[0]) + Join(fields[1..])
  }

  function Fields(h: Hello, bridgeID: seq<byte>, a: Accept): (fields: seq<seq<byte>>)
    ensures |fields| == 8
  {
    [[h.version % 256], h.sessionID, h.phoneID, h.phoneEph, h.nonceP, bridgeID, a.bridgeEph, a.nonceB]
  }

  /** What is hashed. */
  function Preimage(h: Hello, bridgeID: seq<byte>, a: Accept): seq<byte> {
    LABEL_TRANSCRIPT + Join(Fields(h, bridgeID, a))
  }

  ghost predicate Short(fields: seq<seq<byte>>) {
    forall i :: 0 <= i < |fields| ==> |fields[i]| < 0x1_0000
  }

  lemma LpHead(b: seq<byte>, rest: seq<byte>)
    requires |b| < 0x1_0000
    ensures |Lp(b) + rest| >= 2 && FromBigEndian((Lp(b) + rest)[..2]) == |b|
    ensures (Lp(b) + rest)[2..2 + |b|] == b && (Lp(b) + rest)[2 + |b|..] == rest
  {
    assert Pow256(2) == 0x1_0000;
    BigEndianRoundTrip(|b|, 2);
    assert (Lp(b) + rest)[..2] == BigEndian(|b|, 2);
  }

  /** The length prefixes can be read back: as many short fields joined to the same bytes are the same. */
  lemma {:induction false} JoinInjective(fs: seq<seq<byte>>, gs: seq<seq<byte>>)
    requires |fs| == |gs| && Short(fs) && Short(gs) && Join(fs) == Join(gs)
    ensures fs == gs
  {
    if fs == [] {
    } else {
      LpHead(fs[0], Join(fs[1..]));
      LpHead(gs[0], Join(gs[1..]));
      JoinInjective(fs[1..], gs[1..]);
      assert fs == [fs[0]] + fs[1..] && gs == [gs[0]] + gs[1..];
    }
  }

  /** Takes a field off the front: two bytes of length, high byte first, and as many bytes. */
  function CutField(b: seq<byte>): Option<(seq<byte>, seq<byte>)> {
    if |b| < 2 then None
    else
      var length := b[0] as int * 256 + b[1] as int;
      if |b| - 2 < length then None else Some((b[2..2 + length], b[2 + length..]))
  }

  /** All fields of a transcript after its label. */
  function ReadFields(b: seq<byte>): Option<seq<seq<byte>>>
    decreases |b|
  {
    if b == [] then Some([])
    else
      match CutField(b)
      case None => None
      case Some((field, rest)) =>
        match ReadFields(rest)
        case None => None
        case Some(fields) => Some([field] + fields)
  }

  lemma CutsField(b: seq<byte>, rest: seq<byte>)
    requires |b| < 0x1_0000
    ensures CutField(Lp(b) + rest) == Some((b, rest))
  {
    var s := Lp(b) + rest;
    LpHead(b, rest);
    assert s[..2] == [s[0], s[1]];
    MostSignificantFirst(s[..2]);
    assert s[..2][1..] == [s[1]] && [s[1]][..0] == [];
    assert FromBigEndian([s[1]]) == s[1] && Pow256(1) == 256;
  }

  lemma {:induction false} FieldsAreRead(fs: seq<seq<byte>>)
    requires Short(fs)
    ensures ReadFields(Join(fs)) == Some(fs)
  {
    if fs == [] {
    } else {
      CutsField(fs[0], Join(fs[1..]));
      FieldsAreRead(fs[1..]);
      assert fs == [fs[0]] + fs[1..];
    }
  }

  /** What the transcript holds, read field by field: the label, then the version's low byte, the session, the phone's
      keys and nonce, and the bridge's key, ephemeral and nonce. */
  lemma TranscriptReads(h: Hello, bridgeID: seq<byte>, a: Accept)
    requires Short(Fields(h, bridgeID, a))
    ensures var b := Preimage(h, bridgeID, a);
            && |b| >= 27 && b[..27] == Ascii("hermes-remote v1 transcript")
            && ReadFields(b[27..]) == Some([[h.version % 256], h.sessionID, h.phoneID, h.phoneEph, h.nonceP, bridgeID,
                                            a.bridgeEph, a.nonceB])
  {
    var b := Preimage(h, bridgeID, a);
    assert b[27..] == Join(Fields(h, bridgeID, a));
    FieldsAreRead(Fields(h, bridgeID, a));
  }

  lemma {:induction false} FieldsFit(fs: seq<seq<byte>>)
    ensures forall i :: 0 <= i < |fs| ==> |fs[i]| <= |Join(fs)|
  {
    if fs != [] {
      FieldsFit(fs[1..]);
      forall i | 0 <= i < |fs|
        ensures |fs[i]| <= |Join(fs)|
      {
        if i > 0 { assert fs[i] == fs[1..][i - 1]; }
      }
    }
  }

  /** Equal transcripts force equal hello fields, bridge key, ephemeral and nonce. */
  lemma TranscriptInjective(h: Hello, b: seq<byte>, a: Accept, h': Hello, b': seq<byte>, a': Accept)
    requires Short(Fields(h, b, a)) && Short(Fields(h', b', a'))
    requires 0 <= h.version < 256 && 0 <= h'.version < 256
    ensures Preimage(h, b, a) == Preimage(h', b', a') <==>
              h == h' && b == b' && a.bridgeEph == a'.bridgeEph && a.nonceB == a'.nonceB
  {
    if Preimage(h, b, a) == Preimage(h', b', a') {
      var fs, gs := Fields(h, b, a), Fields(h', b', a');
      var n := |LABEL_TRANSCRIPT|;
      assert Join(fs) == Preimage(h, b, a)[n..] && Join(gs) == Preimage(h', b', a')[n..];
      JoinInjective(fs, gs);
      assert fs[0][0] == gs[0][0] && fs[1] == gs[1] && fs[2] == gs[2] && fs[3] == gs[3];
      assert fs[4] == gs[4] && fs[5] == gs[5] && fs[6] == gs[6] && fs[7] == gs[7];
    }
  }

  /** It is enough that one side is short as a whole: nothing longer can produce the same bytes. */
  lemma ShortSideDecides(h: Hello, b: seq<byte>, a: Accept, h': Hello, b': seq<byte>, a': Accept)
    requires |Join(Fields(h, b, a))| < 0x1_0000 && 0 <= h.version < 256 && 0 <= h'.version < 256
    requires Preimage(h, b, a) == Preimage(h', b', a')
    ensures h == h' && b == b' && a.bridgeEph == a'.bridgeEph && a.nonceB == a'.nonceB
  {
    var n := |LABEL_TRANSCRIPT|;
    assert Join(Fields(h, b, a)) == Preimage(h, b, a)[n..] && Join(Fields(h', b', a')) == Preimage(h', b', a')[n..];
    FieldsFit(Fields(h, b, a));
    FieldsFit(Fields(h', b', a'));
    TranscriptInjective(h, b, a, h', b', a');
  }

  lemma LpTwo(a: seq<byte>, b: seq<byte>)
    ensures Join([a, b]) == Lp(a) + Lp(b)
  {
    assert [a, b][1..] == [b] && [b][1..] == [];
    assert Join([b]) == Lp(b) + [] == Lp(b);
  }

  lemma LengthWraps()
    ensures BigEndian(0x1_0000, 2) == [0, 0] && BigEndian(0, 2) == [0, 0]
  {
    assert BigEndian(0x1_0000 / 256, 1) == BigEndian(0x1_0000 / 256 / 256, 0) + [0];
    assert BigEndian(0, 1) == BigEndian(0, 0) + [0];
  }

  lemma TailsMeet(zeros: seq<byte>)
    requires |zeros| == 0x1_0000 && forall i :: 0 <= i < |zeros| ==> zeros[i] == 0
    ensures Join([zeros, []]) == Join([[], zeros])
  {
    LengthWraps();
    LpTwo(zeros, []);
    LpTwo([], zeros);
    assert ([0, 0] + zeros) + [0, 0] == [0, 0] + ([0, 0] + zeros);
  }

  /** The bound is sharp: a field of 65,536 bytes is written with length 0, and two transcripts meet. */
  lemma LongFieldsCollide(h: Hello, b: seq<byte>, sig: seq<byte>)
    ensures var zeros: seq<byte> := seq(0x1_0000, _ => 0);
            Preimage(h, b, Accept(zeros, [], sig)) == Preimage(h, b, Accept([], zeros, sig))
  {
    var zeros: seq<byte> := seq(0x1_0000, _ => 0);
    TailsMeet(zeros);
    var front := [[h.version % 256], h.sessionID, h.phoneID, h.phoneEph, h.nonceP, b];
    JoinConcat(front, [zeros, []]);
    JoinConcat(front, [[], zeros]);
    assert Fields(h, b, Accept(zeros, [], sig)) == front + [zeros, []];
    assert Fields(h, b, Accept([], zeros, sig)) == front + [[], zeros];
  }

  lemma {:induction false} JoinConcat(fs: seq<seq<byte>>, gs: seq<seq<byte>>)
    ensures Join(fs + gs) == Join(fs) + Join(gs)
  {
    if fs == [] {
      assert fs + gs == gs;
    } else {
      assert (fs + gs)[1..] == fs[1..] + gs && (fs + gs)[0] == fs[0];
      JoinConcat(fs[1..], gs);
    }
  }
}
