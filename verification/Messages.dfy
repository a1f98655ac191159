/** Splitting large messages into chunks and joining them again (internal/protocol/messages.go). */
module Messages {
  import opened Bytes
  import opened Envelope

  const CHUNK_THRESHOLD: nat := 0x10_0000

  datatype Chunk = Chunk(index: int, count: int, data: seq<byte>)

  function ChunkCount(length: nat): nat {
    (length + CHUNK_THRESHOLD - 1) / CHUNK_THRESHOLD
  }

  function Piece(plain: seq<byte>, i: nat): seq<byte>
    requires i < ChunkCount(|plain|)
  {
    plain[i * CHUNK_THRESHOLD..Min((i + 1) * CHUNK_THRESHOLD, |plain|)]
  }

  function Min(a: int, b: int): int {
    if a <= b then a else b
  }

  /** What SplitChunks returns for a message above the threshold. */
  function Split(plain: seq<byte>): (chunks: seq<Chunk>)
    ensures |chunks| == ChunkCount(|plain|)
  {
    seq(ChunkCount(|plain|), i requires 0 <= i < ChunkCount(|plain|) =>
      Chunk(i, ChunkCount(|plain|), Piece(plain, i)))
  }

  /** None stands for the nil slice: the message travels as it is. */
  method SplitChunks(plain: seq<byte>) returns (chunks: Option<seq<Chunk>>)
    ensures |plain| <= 1_048_576 ==> chunks == None
    ensures |plain| > 1_048_576 ==> chunks == Some(Split(plain))
  {
    if |plain| <= CHUNK_THRESHOLD {
      return None;
    }
    var count := (|plain| + CHUNK_THRESHOLD - 1) / CHUNK_THRESHOLD;
    var out: seq<Chunk> := [];
    var i := 0;
    while i < count
      invariant 0 <= i <= count && out == Split(plain)[..i]
    {
      var lo, hi := i * CHUNK_THRESHOLD, Min((i + 1) * CHUNK_THRESHOLD, |plain|);
      out := out + [Chunk(i, count, plain[lo..hi])];
      i := i + 1;
    }
    assert out == Split(plain);
    return Some(out);
  }

  /** The assembler's fields. */
  datatype Asm = Asm(buf: seq<byte>, next: int, count: int)

  const EMPTY_ASM := Asm([], 0, 0)

  /** More is (nil, nil). A complete message of no bytes is a nil slice too, so it is also More. */
  datatype AddResult = More | Whole(message: seq<byte>) | OrderError | TooLarge

  function AddNext(a: Asm, c: Chunk): (Asm, AddResult) {
    if c.count <= 0 || c.index != a.next || (a.next > 0 && c.count != a.count) then (EMPTY_ASM, OrderError)
    else if |a.buf| + |c.data| > MAX_PLAINTEXT then (EMPTY_ASM, TooLarge)
    else
      var buf := a.buf + c.data;
      if a.next + 1 == c.count then (EMPTY_ASM, if buf == [] then More else Whole(buf))
      else (Asm(buf, a.next + 1, c.count), More)
  }

  class ChunkAssembler {
    var buf: seq<byte>
    var next: int
    var count: int

    function State(): Asm
      reads this
    {
      Asm(buf, next, count)
    }

    constructor ()
      ensures State() == EMPTY_ASM
    {
      buf, next, count := [], 0, 0;
    }

    method Reset()
      modifies this
      ensures State() == EMPTY_ASM
    {
      buf, next, count := [], 0, 0;
    }

    method Add(c: Chunk) returns (r: AddResult)
      modifies this
      ensures (State(), r) == AddNext(old(State()), c)
    {
      if c.count <= 0 || c.index != next || (next > 0 && c.count != count) {
        Reset();
        return OrderError;
      }
      if |buf| + |c.data| > MAX_PLAINTEXT {
        Reset();
        return TooLarge;
      }
      count := c.count;
      buf := buf + c.data;
      next := next + 1;
      if next == count {
        var out := buf;
        Reset();
        return if out == [] then More else Whole(out);
      }
      return More;
    }
  }

  /** The assembler after a sequence of Add calls. */
  function AddAll(a: Asm, cs: seq<Chunk>): Asm {
    if cs == [] then a else AddNext(AddAll(a, cs[..|cs| - 1]), cs[|cs| - 1]).0
  }

  /** The messages those calls return, errors not stopping the caller. */
  function Messages(a: Asm, cs: seq<Chunk>): seq<seq<byte>> {
    if cs == [] then []
    else
      var init := cs[..|cs| - 1];
      var r := AddNext(AddAll(a, init), cs[|cs| - 1]).1;
      Messages(a, init) + if r.Whole? then [r.message] else []
  }

  function Concat(cs: seq<Chunk>): seq<byte> {
    if cs == [] then [] else Concat(cs[..|cs| - 1]) + cs[|cs| - 1].data
  }

  /** cs is a run of pieces 0, 1, ... that all announce n pieces. */
  ghost predicate Consecutive(cs: seq<Chunk>, n: int) {
    forall i :: 0 <= i < |cs| ==> cs[i].index == i && cs[i].count == n
  }

  /** The chunks the assembler is holding after cs: the last `next` of them. */
  ghost predicate Holds(a: Asm, cs: seq<Chunk>) {
    && 0 <= a.next <= |cs| && (a.next > 0 ==> a.next < a.count)
    && var held := cs[|cs| - a.next..];
       Consecutive(held, a.count) && a.buf == Concat(held) && |a.buf| <= MAX_PLAINTEXT
  }

  lemma AddKeepsRun(a: Asm, cs: seq<Chunk>, c: Chunk)
    requires Holds(a, cs)
    ensures Holds(AddNext(a, c).0, cs + [c])
  {
    var b, all := AddNext(a, c).0, cs + [c];
    if b.next == 0 {
      assert all[|all|..] == [];
    } else {
      var before, held := cs[|cs| - a.next..], all[|all| - b.next..];
      assert held == before + [c] && held[..|held| - 1] == before;
    }
  }

  lemma {:induction false} AssemblerHoldsARun(cs: seq<Chunk>)
    ensures Holds(AddAll(EMPTY_ASM, cs), cs)
  {
    if cs == [] {
    } else {
      var init := cs[..|cs| - 1];
      AssemblerHoldsARun(init);
      AddKeepsRun(AddAll(EMPTY_ASM, init), init, cs[|cs| - 1]);
      assert init + [cs[|cs| - 1]] == cs;
    }
  }

  /** Whatever chunks arrive, a message is only emitted as the join of the last n of them, pieces
      0..n-1 of one n, and never exceeds MAX_PLAINTEXT; the buffer does not either. */
  lemma {:induction false} EmittedIsOneRun(cs: seq<Chunk>, c: Chunk)
    ensures var a := AddAll(EMPTY_ASM, cs);
            && |a.buf| <= MAX_PLAINTEXT
            && var r := AddNext(a, c).1;
               r.Whole? ==>
                 && 0 < c.count <= |cs| + 1
                 && var run := (cs + [c])[|cs| + 1 - c.count..];
                    Consecutive(run, c.count) && r.message == Concat(run) && |r.message| <= MAX_PLAINTEXT
  {
    AssemblerHoldsARun(cs);
    var a := AddAll(EMPTY_ASM, cs);
    if AddNext(a, c).1.Whole? {
      var run := (cs + [c])[|cs| + 1 - c.count..];
      assert run[..|run| - 1] == cs[|cs| - a.next..];
    }
  }

  lemma {:induction false} PartIsHeld(cs: seq<Chunk>, n: int)
    requires Consecutive(cs, n) && |cs| < n && |Concat(cs)| <= MAX_PLAINTEXT
    ensures AddAll(EMPTY_ASM, cs) == if cs == [] then EMPTY_ASM else Asm(Concat(cs), |cs|, n)
    ensures Messages(EMPTY_ASM, cs) == []
  {
    if cs != [] {
      var init, c := cs[..|cs| - 1], cs[|cs| - 1];
      assert cs == init + [c];
      PartIsHeld(init, n);
    }
  }

  /** And such a run is always emitted: pieces 0..n-1 of one n, in a row, give their join if it fits; a join of no
      bytes is no message. */
  lemma {:induction false} RunIsEmitted(cs: seq<Chunk>, n: int)
    requires Consecutive(cs, n) && |cs| == n > 0 && |Concat(cs)| <= 16_777_216
    ensures AddAll(EMPTY_ASM, cs) == EMPTY_ASM
    ensures Messages(EMPTY_ASM, cs) == if Concat(cs) == [] then [] else [Concat(cs)]
  {
    var init, c := cs[..n - 1], cs[n - 1];
    assert cs == init + [c];
    PartIsHeld(init, n);
    AddLast(init, c);
  }

  lemma PieceEnds(plain: seq<byte>, i: nat)
    requires |plain| > CHUNK_THRESHOLD && i < ChunkCount(|plain|)
    ensures i * CHUNK_THRESHOLD < |plain| && |Piece(plain, i)| > 0
    ensures plain[..i * CHUNK_THRESHOLD] + Piece(plain, i) == plain[..Min((i + 1) * CHUNK_THRESHOLD, |plain|)]
    ensures i + 1 == ChunkCount(|plain|) <==> (i + 1) * CHUNK_THRESHOLD >= |plain|
  {
  }

  lemma {:induction false} PiecesJoin(plain: seq<byte>, i: nat)
    requires |plain| > CHUNK_THRESHOLD && i <= ChunkCount(|plain|)
    ensures Concat(Split(plain)[..i]) == plain[..Min(i * CHUNK_THRESHOLD, |plain|)]
  {
    if i > 0 {
      PiecesJoin(plain, i - 1);
      PieceEnds(plain, i - 1);
      assert Split(plain)[..i][..i - 1] == Split(plain)[..i - 1];
    }
  }

  /** The pieces are numbered and counted, each full but the last, which is not empty; and they join to the message. */
  lemma PiecesAreFull(plain: seq<byte>, i: nat)
    requires |plain| > 1_048_576 && i < |Split(plain)|
    ensures var cs := Split(plain);
            && cs[i].index == i && cs[i].count == |cs|
            && (if i + 1 < |cs| then |cs[i].data| == 1_048_576 else 0 < |cs[i].data| <= 1_048_576)
            && Concat(cs) == plain
  {
    var n := ChunkCount(|plain|);
    PieceEnds(plain, i);
    PieceEnds(plain, n - 1);
    PiecesJoin(plain, n);
    assert Split(plain)[..n] == Split(plain) && plain[..|plain|] == plain;
  }

  /** The assembler after the first i pieces of a message. */
  function PartAsm(plain: seq<byte>, i: nat): Asm
    requires i * CHUNK_THRESHOLD <= |plain|
  {
    if i == 0 then EMPTY_ASM else Asm(plain[..i * CHUNK_THRESHOLD], i, ChunkCount(|plain|))
  }

  lemma AddPiece(plain: seq<byte>, i: nat)
    requires |plain| > CHUNK_THRESHOLD && i < ChunkCount(|plain|) && i * CHUNK_THRESHOLD <= |plain|
    ensures AddNext(PartAsm(plain, i), Split(plain)[i]) ==
            if Min((i + 1) * CHUNK_THRESHOLD, |plain|) > MAX_PLAINTEXT then (EMPTY_ASM, TooLarge)
            else if i + 1 == ChunkCount(|plain|) then (EMPTY_ASM, Whole(plain))
            else (PartAsm(plain, i + 1), More)
  {
    PieceEnds(plain, i);
    assert PartAsm(plain, i).buf == plain[..i * CHUNK_THRESHOLD];
    assert plain[..|plain|] == plain;
  }

  lemma AddLast(cs: seq<Chunk>, c: Chunk)
    ensures var (asm, r) := AddNext(AddAll(EMPTY_ASM, cs), c);
            && AddAll(EMPTY_ASM, cs + [c]) == asm
            && Messages(EMPTY_ASM, cs + [c]) == Messages(EMPTY_ASM, cs) + if r.Whole? then [r.message] else []
  {
    assert (cs + [c])[..|cs|] == cs;
  }

  /** The pieces of a message are held while they fit; then the rest are all refused. */
  lemma {:induction false} AddPieces(plain: seq<byte>, i: nat)
    requires |plain| > CHUNK_THRESHOLD && i < ChunkCount(|plain|) && i * CHUNK_THRESHOLD <= |plain|
    ensures AddAll(EMPTY_ASM, Split(plain)[..i]) == HeldAsm(plain, i)
    ensures Messages(EMPTY_ASM, Split(plain)[..i]) == []
  {
    if i == 0 {
      assert Split(plain)[..0] == [];
    } else {
      var head, last := Split(plain)[..i - 1], Split(plain)[i - 1];
      assert Split(plain)[..i] == head + [last];
      AddPieces(plain, i - 1);
      AddHeldPiece(plain, i - 1);
      AddLast(head, last);
    }
  }

  function HeldAsm(plain: seq<byte>, i: nat): Asm
    requires i * CHUNK_THRESHOLD <= |plain|
  {
    if i * CHUNK_THRESHOLD <= MAX_PLAINTEXT then PartAsm(plain, i) else EMPTY_ASM
  }

  lemma AddHeldPiece(plain: seq<byte>, i: nat)
    requires |plain| > CHUNK_THRESHOLD && i + 1 < ChunkCount(|plain|) && (i + 1) * CHUNK_THRESHOLD <= |plain|
    ensures AddNext(HeldAsm(plain, i), Split(plain)[i]).0 == HeldAsm(plain, i + 1)
    ensures !AddNext(HeldAsm(plain, i), Split(plain)[i]).1.Whole?
  {
    AddPiece(plain, i);
  }

  /** Splitting a large message and adding the pieces returns it exactly when it fits MAX_PLAINTEXT;
      a larger one never comes out at all. */
  lemma SplitThenAdd(plain: seq<byte>)
    requires |plain| > CHUNK_THRESHOLD
    ensures Messages(EMPTY_ASM, Split(plain)) == (if |plain| <= MAX_PLAINTEXT then [plain] else [])
    ensures AddAll(EMPTY_ASM, Split(plain)) == EMPTY_ASM
  {
    hide AddAll, Messages;
    var last := ChunkCount(|plain|) - 1;
    PieceEnds(plain, last);
    AddPieces(plain, last);
    assert Split(plain) == Split(plain)[..last] + [Split(plain)[last]];
    AddLast(Split(plain)[..last], Split(plain)[last]);
    if last * CHUNK_THRESHOLD <= MAX_PLAINTEXT {
      AddPiece(plain, last);
    }
  }
}
