/**
 * What travels in one direction of a connection (internal/bridge/server.go): the frames conn.send
 * makes of a message, and what conn.recv makes of the frames it opens.
 */
module Reading {
  import opened Bytes
  import opened Envelope
  import opened Messages

  /** How recv sees one opened plaintext. */
  datatype Item = Plain(message: seq<byte>) | Piece(chunk: Chunk) | Unreadable

  /** encoding/json as far as send and recv use it: chunks are marshalled, any plaintext is read. */
  datatype Codec = Codec(encode: Chunk -> seq<byte>, read: seq<byte> -> Item)

  /** The largest int, and so the longest slice, of a 64-bit Go program. */
  const MAX_INT: nat := 0x7FFF_FFFF_FFFF_FFFF

  predicate Small(c: Chunk) {
    0 <= c.index <= MAX_INT && 0 <= c.count <= MAX_INT && |c.data| <= CHUNK_THRESHOLD
  }

  /** Marshalled chunks are recognised and parsed back; whatever is not a chunk is passed on
      verbatim; a chunk of at most CHUNK_THRESHOLD bytes fits an envelope. */
  ghost predicate Good(j: Codec) {
    && (forall c: Chunk :: Small(c) ==> j.read(j.encode(c)) == Item.Piece(c) && |j.encode(c)| <= MAX_PLAINTEXT)
    && (forall p: seq<byte> :: j.read(p).Plain? ==> j.read(p).message == p)
  }

  /** A chunk and its fixed-width encoding, behind a mark no other plaintext starts with. */
  function Marshal(c: Chunk): seq<byte> {
    if Small(c) then [0] + BigEndian(c.index, 8) + BigEndian(c.count, 8) + c.data else []
  }

  function Unmarshal(p: seq<byte>): Item {
    if |p| < 17 || p[0] != 0 then Plain(p)
    else Item.Piece(Chunk(FromBigEndian(p[1..9]), FromBigEndian(p[9..17]), p[17..]))
  }

  /** The laws can be met. */
  lemma SomeCodecIsGood()
    ensures Good(Codec(Marshal, Unmarshal))
  {
    forall c: Chunk | Small(c)
      ensures Unmarshal(Marshal(c)) == Item.Piece(c) && |Marshal(c)| <= MAX_PLAINTEXT
    {
      var p := Marshal(c);
      assert p[1..9] == BigEndian(c.index, 8) && p[9..17] == BigEndian(c.count, 8) && p[17..] == c.data;
      Uint64Fits(c.index);
      Uint64Fits(c.count);
    }
  }

  /** What callers hand to send: a slice, and not a message of the chunk channel, which is send's own. */
  predicate Passable(j: Codec, message: seq<byte>) {
    |message| <= MAX_INT && !j.read(message).Piece?
  }

  function Pieces(message: seq<byte>): (items: seq<Item>)
    ensures |items| == ChunkCount(|message|)
  {
    seq(ChunkCount(|message|), i requires 0 <= i < ChunkCount(|message|) => Item.Piece(Split(message)[i]))
  }

  /** A message as the receiver should see it; `short` is how recv reads it when it is sent as it is. */
  datatype Outgoing = Outgoing(message: seq<byte>, short: Item)

  function Items(o: Outgoing): (items: seq<Item>)
    ensures |items| > 0
  {
    if |o.message| <= CHUNK_THRESHOLD then [o.short] else Pieces(o.message)
  }

  /** The items of a list of messages, one after another. */
  function Expand(os: seq<Outgoing>): seq<Item> {
    if os == [] then [] else Expand(os[..|os| - 1]) + Items(os[|os| - 1])
  }

  function Texts(os: seq<Outgoing>): (r: seq<seq<byte>>)
    ensures |r| == |os|
  {
    seq(|os|, i requires 0 <= i < |os| => os[i].message)
  }

  /** recv between frames: the assembler, what was returned so far, and whether an error ended it. */
  datatype Reader = Reader(asm: Asm, out: seq<seq<byte>>, dead: bool)

  const START := Reader(EMPTY_ASM, [], false)

  function Feed(r: Reader, item: Item): Reader {
    if r.dead then r
    else
      match item
      case Unreadable => r.(dead := true)
      case Plain(message) => r.(out := r.out + [message])
      case Piece(c) =>
        var (asm, added) := AddNext(r.asm, c);
        match added
        case More => r.(asm := asm)
        case Whole(message) => r.(asm := asm, out := r.out + [message])
        case OrderError => r.(asm := asm, dead := true)
        case TooLarge => r.(asm := asm, dead := true)
  }

  /** A frame stops the reader exactly if it is unreadable, a piece out of turn, or one that makes the message exceed
      16 MiB. */
  lemma StopsExactly(r: Reader, item: Item)
    requires !r.dead
    ensures var out := item.Piece? && (item.chunk.count <= 0 || item.chunk.index != r.asm.next
                                       || (r.asm.next > 0 && item.chunk.count != r.asm.count));
            var large := item.Piece? && |r.asm.buf| + |item.chunk.data| > 16_777_216;
            && (Feed(r, item).dead <==> item.Unreadable? || out || large)
            && (Feed(r, item).dead ==> Feed(r, item).out == r.out)
  {
  }

  function FeedAll(r: Reader, items: seq<Item>): Reader {
    if items == [] then r else Feed(FeedAll(r, items[..|items| - 1]), items[|items| - 1])
  }

  /** Callers of send pass messages of the other channels; only send itself makes chunks. */
  ghost predicate Sendable(o: Outgoing) {
    match o.short
    case Plain(message) => message == o.message
    case Piece(_) => false
    case Unreadable => true
  }

  /** What an honest receiver returns: recognised if short, within MAX_PLAINTEXT if long. */
  predicate Deliverable(o: Outgoing) {
    if |o.message| <= CHUNK_THRESHOLD then o.short.Plain? else |o.message| <= MAX_PLAINTEXT
  }

  lemma {:induction false} FeedConcat(r: Reader, a: seq<Item>, b: seq<Item>)
    ensures FeedAll(r, a + b) == FeedAll(FeedAll(r, a), b)
  {
    if b == [] {
      assert a + b == a;
    } else {
      assert (a + b)[..|a + b| - 1] == a + b[..|b| - 1];
      FeedConcat(r, a, b[..|b| - 1]);
    }
  }

  lemma {:induction false} DeadStaysDead(r: Reader, items: seq<Item>)
    requires r.dead
    ensures FeedAll(r, items) == r
  {
    if items != [] {
      DeadStaysDead(r, items[..|items| - 1]);
    }
  }

  /** The reader after i pieces of a large message, from a clean state. */
  function PartRead(r: Reader, m: seq<byte>, i: nat): Reader
    requires |m| > CHUNK_THRESHOLD && i <= ChunkCount(|m|)
  {
    if Min(i * CHUNK_THRESHOLD, |m|) > MAX_PLAINTEXT then Reader(EMPTY_ASM, r.out, true)
    else if i < ChunkCount(|m|) then Reader(PartAsm(m, i), r.out, false)
    else Reader(EMPTY_ASM, r.out + [m], false)
  }

  lemma ReadNextPiece(r: Reader, m: seq<byte>, i: nat)
    requires |m| > CHUNK_THRESHOLD && i < ChunkCount(|m|)
    ensures Feed(PartRead(r, m, i), Item.Piece(Split(m)[i])) == PartRead(r, m, i + 1)
  {
    PieceEnds(m, i);
    AddPiece(m, i);
  }

  lemma {:induction false} ReadPart(r: Reader, m: seq<byte>, i: nat)
    requires !r.dead && r.asm == EMPTY_ASM && |m| > CHUNK_THRESHOLD && i <= ChunkCount(|m|)
    ensures FeedAll(r, Pieces(m)[..i]) == PartRead(r, m, i)
  {
    if i > 0 {
      var head, last := Pieces(m)[..i - 1], Item.Piece(Split(m)[i - 1]);
      assert Pieces(m)[..i] == head + [last];
      ReadPart(r, m, i - 1);
      ReadNextPiece(r, m, i - 1);
      assert (head + [last])[..i - 1] == head;
    }
  }

  /** All items of one message, read from a clean state: the message, or an error and nothing. */
  lemma ReadWhole(r: Reader, o: Outgoing)
    requires !r.dead && r.asm == EMPTY_ASM && Sendable(o)
    ensures FeedAll(r, Items(o)) == Reader(EMPTY_ASM, r.out + [o.message], false) || FeedAll(r, Items(o)).dead
    ensures FeedAll(r, Items(o)).dead <==> !Deliverable(o)
    ensures FeedAll(r, Items(o)).dead ==> FeedAll(r, Items(o)).out == r.out
  {
    if |o.message| <= CHUNK_THRESHOLD {
      assert [o.short][..0] == [];
      assert FeedAll(r, [o.short]) == Feed(FeedAll(r, []), o.short);
    } else {
      ReadPart(r, o.message, ChunkCount(|o.message|));
      assert Pieces(o.message)[..ChunkCount(|o.message|)] == Pieces(o.message);
    }
  }

  /** Fewer than all items of one message: nothing comes out. */
  lemma ReadIncomplete(r: Reader, o: Outgoing, i: nat)
    requires !r.dead && r.asm == EMPTY_ASM && i < |Items(o)|
    ensures FeedAll(r, Items(o)[..i]).out == r.out
  {
    if |o.message| <= CHUNK_THRESHOLD {
    } else {
      ReadPart(r, o.message, i);
    }
  }

  /** Reading whole messages returns exactly those messages in order; it stops early exactly when
      one of them is not deliverable, and then returns the ones before it. */
  lemma {:induction false} ReadAll(os: seq<Outgoing>)
    requires forall o :: o in os ==> Sendable(o)
    ensures var after := FeedAll(START, Expand(os));
            && (!after.dead ==> after == Reader(EMPTY_ASM, Texts(os), false))
            && after.out <= Texts(os)
            && (after.dead <==> exists i :: 0 <= i < |os| && !Deliverable(os[i]))
  {
    if os == [] {
    } else {
      var init, o := os[..|os| - 1], os[|os| - 1];
      assert os == init + [o];
      ReadAll(init);
      var before := FeedAll(START, Expand(init));
      FeedConcat(START, Expand(init), Items(o));
      assert Texts(os) == Texts(init) + [o.message];
      if before.dead {
        DeadStaysDead(before, Items(o));
      } else {
        ReadWhole(before, o);
      }
    }
  }

  lemma {:induction false} ExpandMonotone(os: seq<Outgoing>, a: nat)
    requires a <= |os|
    ensures |Expand(os[..a])| <= |Expand(os)|
  {
    if a == |os| {
      assert os[..a] == os;
    } else {
      var init := os[..|os| - 1];
      ExpandMonotone(init, a);
      assert init[..a] == os[..a];
    }
  }

  lemma FeedNothing()
    ensures FeedAll(START, []).out == []
  {
  }

  /** Reading any prefix of the items returns a prefix of the messages, and only messages whose
      items were all read. */
  lemma {:induction false} ReadPrefix(os: seq<Outgoing>, items: seq<Item>)
    requires (forall o :: o in os ==> Sendable(o)) && items <= Expand(os)
    ensures var out := FeedAll(START, items).out;
            out <= Texts(os) && |Expand(os[..|out|])| <= |items|
  {
    hide FeedAll, Feed;
    if os == [] {
      FeedNothing();
    } else {
      var init, o := os[..|os| - 1], os[|os| - 1];
      var out := FeedAll(START, items).out;
      assert Texts(init) <= Texts(os);
      if |items| <= |Expand(init)| {
        ReadPrefix(init, items);
        assert init[..|out|] == os[..|out|];
      } else {
        var part := items[|Expand(init)|..];
        assert items == Expand(init) + part;
        ReadIntoLast(init, o, part);
        LastPrefix(os, out, part);
      }
    }
  }

  lemma LastPrefix(os: seq<Outgoing>, out: seq<seq<byte>>, part: seq<Item>)
    requires |os| > 0
    requires var init, o := os[..|os| - 1], os[|os| - 1];
             out <= Texts(init) || (out == Texts(init) + [o.message] && part == Items(o))
    ensures out <= Texts(os) && |Expand(os[..|out|])| <= |Expand(os[..|os| - 1])| + |part|
  {
    var init, o := os[..|os| - 1], os[|os| - 1];
    assert Texts(os) == Texts(init) + [o.message];
    if out <= Texts(init) {
      ExpandMonotone(init, |out|);
      assert init[..|out|] == os[..|out|];
    } else {
      assert os[..|out|] == os;
    }
  }

  lemma ReadIntoLast(init: seq<Outgoing>, o: Outgoing, part: seq<Item>)
    requires (forall p :: p in init ==> Sendable(p)) && Sendable(o) && part <= Items(o)
    ensures var out := FeedAll(START, Expand(init) + part).out;
            out <= Texts(init) || (out == Texts(init) + [o.message] && part == Items(o))
  {
    FeedConcat(START, Expand(init), part);
    ReadAll(init);
    var before := FeedAll(START, Expand(init));
    if before.dead {
      DeadStaysDead(before, part);
    } else if |part| == |Items(o)| {
      assert part == Items(o);
      ReadWhole(before, o);
    } else {
      assert part == Items(o)[..|part|];
      ReadIncomplete(before, o, |part|);
    }
  }
}
