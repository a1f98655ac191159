/**
 * A whole relay session: any number of phones, their goroutines and the two read loops interleaved
 * step by step, over one queue of frames in each direction. The machine of each channel is the one of Link; here
 * they share the socket, and the relay picks the channel numbers, which wrap. A number is assigned again
 * only to a channel that is Retired: nothing can happen to its previous holder any more but the reading of
 * what is left in its inbox.
 */
module Relay {
  import opened Bytes
  import opened Link
  import C = Channels
  import R = Runs

  datatype Tagged = Tagged(ch: nat, frame: Frame)

  /** A previous holder of a number. */
  datatype Past = Past(ch: nat, ends: Ends)

  /** ends: both ends of each number's latest holder; past: the holders before; demuxAt and loopAt name the channel
      a busy read loop is working for; position: the allocator's progress; history: every frame ever
      written toward the bridge. */
  datatype State = State(
    ends: map<nat, Ends>, past: seq<Past>, down: seq<Tagged>, up: seq<Tagged>,
    demux: Demux, demuxAt: nat, loop: Loop, loopAt: nat, position: nat, history: seq<Tagged>)

  datatype Move = Admission | On(ch: nat, e: Event) | LateRead(k: nat) | Keepalive | KeepaliveRead

  /** A phone that has just been entered into the relay's map: its open is still to be written. */
  const ADMITTED := UNBORN.(p := UNBORN.p.(phone := Opening), r := UNBORN.r.(held := true))

  const IDLE := State(map[], [], [], [], Idle, 0, Waiting, 0, 0, [])

  /** One channel's frames of a queue, in order. */
  function Proj(q: seq<Tagged>, ch: nat): seq<Frame> {
    if q == [] then [] else (if q[0].ch == ch then [q[0].frame] else []) + Proj(q[1..], ch)
  }

  function View(s: State, ch: nat): Channel
    requires ch in s.ends
  {
    var x := s.ends[ch];
    Channel(x.p, x.r, x.b, Proj(s.down, ch), Proj(s.up, ch),
            if s.demuxAt == ch then s.demux else Idle, if s.loopAt == ch then s.loop else Waiting)
  }

  ghost function Held(s: State): set<nat> {
    set c | c in s.ends && s.ends[c].r.held
  }

  ghost function InMap(s: State): set<nat> {
    set c | c in s.ends && s.ends[c].b.inMap
  }

  /** A step of one channel, if the read loops are free for it. */
  predicate CanMove(s: State, ch: nat, e: Event) {
    && ch in s.ends && !e.Admit? && Enabled(View(s, ch), e)
    && (e.DemuxPop? ==> s.demux.Idle? && s.down != [] && s.down[0].ch == ch)
    && (e.LoopPop? ==> s.loop.Waiting? && s.up != [] && s.up[0].ch == ch)
  }

  function Tag(ch: nat, f: Option<Frame>): Option<Tagged> {
    if f.Some? then Some(Tagged(ch, f.value)) else None
  }

  /** s after a step of channel ch that left the channel as t and wrote the given frames. */
  function Settle(s: State, ch: nat, e: Event, t: Channel, down: Option<Frame>, up: Option<Frame>): State
    requires (e.DemuxPop? ==> s.down != []) && (e.LoopPop? ==> s.up != [])
  {
    s.(ends := s.ends[ch := Ends(t.p, t.r, t.b)],
       down := Put(if e.DemuxPop? then s.down[1..] else s.down, Tag(ch, down)),
       up := Put(if e.LoopPop? then s.up[1..] else s.up, Tag(ch, up)),
       demux := if DemuxEvent(e) then t.demux else s.demux, demuxAt := if DemuxEvent(e) then ch else s.demuxAt,
       loop := if LoopEvent(e) then t.loop else s.loop, loopAt := if LoopEvent(e) then ch else s.loopAt,
       history := Put(s.history, Tag(ch, down)))
  }

  function Advance(s: State, ch: nat, e: Event): State
    requires CanMove(s, ch, e)
  {
    var v := View(s, ch);
    Settle(s, ch, e, Step(v, e), Down(v, e), Up(v, e))
  }

  /** The place the allocator goes to next. */
  ghost function Place(s: State): nat
    requires |Held(s)| < C.CHANNELS
  {
    C.FirstFree(Held(s), s.position, s.position)
  }

  ghost predicate CanAdmit(maxPhones: nat, s: State)
    requires maxPhones <= C.CHANNELS
  {
    && |Held(s)| < maxPhones
    && var ch := C.Number(Place(s));
       ch in s.ends ==> Retired(View(s, ch))
  }

  /** s after a phone was entered at a place of the allocator. */
  function Entered(s: State, place: nat): State {
    var ch := C.Number(place);
    s.(position := place, ends := s.ends[ch := ADMITTED],
       past := if ch in s.ends then s.past + [Past(ch, s.ends[ch])] else s.past)
  }

  function ReadLate(x: Ends): Ends {
    if x.b.inbox == [] then x
    else x.(b := x.b.(yielded := x.b.yielded + [x.b.inbox[0]], inbox := x.b.inbox[1..]))
  }

  ghost function Next(maxPhones: nat, s: State, m: Move): State
    requires maxPhones <= C.CHANNELS
  {
    match m
    case Admission => if CanAdmit(maxPhones, s) then Entered(s, Place(s)) else s
    case LateRead(k) =>
      if k < |s.past| then s.(past := s.past[k := s.past[k].(ends := ReadLate(s.past[k].ends))]) else s
    case On(ch, e) => if CanMove(s, ch, e) then Advance(s, ch, e) else s
    case Keepalive => s.(up := s.up + [Tagged(0, Ping)])
    case KeepaliveRead => if s.loop.Waiting? && s.up != [] && s.up[0].ch == 0 then s.(up := s.up[1..]) else s
  }

  ghost function Stepper(maxPhones: nat): (State, Move) -> State
    requires maxPhones <= C.CHANNELS
  {
    (s, m) => Next(maxPhones, s, m)
  }

  ghost function Run(maxPhones: nat, moves: seq<Move>): State
    requires maxPhones <= C.CHANNELS
  {
    R.After(Stepper(maxPhones), IDLE, moves)
  }

  // ---------------------------------------------------------------- projections

  lemma {:induction false} ProjAppend(q: seq<Tagged>, x: Tagged, ch: nat)
    ensures Proj(q + [x], ch) == Proj(q, ch) + if x.ch == ch then [x.frame] else []
  {
    if q == [] {
      assert [x][1..] == [];
    } else {
      var all := q + [x];
      assert all[1..] == q[1..] + [x] && all[0] == q[0];
      ProjAppend(q[1..], x, ch);
      var first, last := if q[0].ch == ch then [q[0].frame] else [], if x.ch == ch then [x.frame] else [];
      assert first + (Proj(q[1..], ch) + last) == (first + Proj(q[1..], ch)) + last;
    }
  }

  lemma ProjPut(q: seq<Tagged>, at: nat, f: Option<Frame>, ch: nat)
    ensures Proj(Put(q, Tag(at, f)), ch) == if at == ch then Put(Proj(q, ch), f) else Proj(q, ch)
  {
    if f.Some? {
      ProjAppend(q, Tagged(at, f.value), ch);
    }
  }

  lemma ProjPop(q: seq<Tagged>, ch: nat)
    requires q != []
    ensures q[0].ch == ch ==> Proj(q, ch) != [] && Proj(q, ch)[0] == q[0].frame && Proj(q[1..], ch) == Proj(q, ch)[1..]
    ensures q[0].ch != ch ==> Proj(q[1..], ch) == Proj(q, ch)
  {
  }

  /** What a pop and a write do to the frames of one channel. */
  lemma QueueMoves(q: seq<Tagged>, popped: bool, at: nat, f: Option<Frame>, ch: nat)
    requires popped ==> q != [] && q[0].ch == at
    ensures var t := Put(if popped then q[1..] else q, Tag(at, f));
            && (at != ch ==> Proj(t, ch) == Proj(q, ch))
            && (at == ch && popped ==> Proj(q, ch) != [] && Proj(q, ch)[0] == q[0].frame)
            && (at == ch ==> Proj(t, ch) == Put(if popped then Proj(q, ch)[1..] else Proj(q, ch), f))
  {
    ProjPut(if popped then q[1..] else q, at, f, ch);
    if popped {
      ProjPop(q, ch);
    }
  }

  /** What a step does to the queues and to the loops it is no step of. */
  lemma StepShape(v: Channel, e: Event)
    requires Enabled(v, e)
    ensures Step(v, e).down == Put(if e.DemuxPop? then v.down[1..] else v.down, Down(v, e))
    ensures Step(v, e).up == Put(if e.LoopPop? then v.up[1..] else v.up, Up(v, e))
    ensures !DemuxEvent(e) ==> Step(v, e).demux == v.demux
    ensures !LoopEvent(e) ==> Step(v, e).loop == v.loop
  {
  }

  lemma SettleOwn(s: State, ch: nat, e: Event, t: Channel, down: Option<Frame>, up: Option<Frame>)
    requires (e.DemuxPop? ==> s.down != [] && s.down[0].ch == ch) && (e.LoopPop? ==> s.up != [] && s.up[0].ch == ch)
    requires ch in s.ends && (e.DemuxPop? ==> View(s, ch).down != []) && (e.LoopPop? ==> View(s, ch).up != [])
    requires t.down == Put(if e.DemuxPop? then View(s, ch).down[1..] else View(s, ch).down, down)
    requires t.up == Put(if e.LoopPop? then View(s, ch).up[1..] else View(s, ch).up, up)
    requires (!DemuxEvent(e) ==> t.demux == View(s, ch).demux) && (!LoopEvent(e) ==> t.loop == View(s, ch).loop)
    ensures View(Settle(s, ch, e, t, down, up), ch) == t
  {
    QueueMoves(s.down, e.DemuxPop?, ch, down, ch);
    QueueMoves(s.up, e.LoopPop?, ch, up, ch);
  }

  /** A step of one channel is a step of its own machine ... */
  lemma MovesOwn(s: State, ch: nat, e: Event)
    requires CanMove(s, ch, e)
    ensures View(Advance(s, ch, e), ch) == Step(View(s, ch), e)
  {
    hide Step, Down, Up;
    var v := View(s, ch);
    StepShape(v, e);
    SettleOwn(s, ch, e, Step(v, e), Down(v, e), Up(v, e));
  }

  /** ... and no step at all of any other channel's. */
  lemma LeavesOthers(s: State, ch: nat, e: Event, other: nat)
    requires CanMove(s, ch, e) && other in s.ends && other != ch
    ensures View(Advance(s, ch, e), other) == View(s, other)
  {
    var v := View(s, ch);
    assert DemuxEvent(e) ==> s.demuxAt == ch || s.demux.Idle?;
    assert LoopEvent(e) ==> s.loopAt == ch || s.loop.Waiting?;
    SettleOther(s, ch, e, Step(v, e), Down(v, e), Up(v, e), other);
  }

  lemma SettleOther(s: State, ch: nat, e: Event, t: Channel, down: Option<Frame>, up: Option<Frame>, other: nat)
    requires (e.DemuxPop? ==> s.down != [] && s.down[0].ch == ch) && (e.LoopPop? ==> s.up != [] && s.up[0].ch == ch)
    requires DemuxEvent(e) ==> s.demuxAt == ch || s.demux.Idle?
    requires LoopEvent(e) ==> s.loopAt == ch || s.loop.Waiting?
    requires other in s.ends && other != ch
    ensures var u := Settle(s, ch, e, t, down, up); other in u.ends && View(u, other) == View(s, other)
  {
    QueueMoves(s.down, e.DemuxPop?, ch, down, other);
    QueueMoves(s.up, e.LoopPop?, ch, up, other);
  }

  // ---------------------------------------------------------------- invariant

  ghost predicate Numbers(maxPhones: nat, s: State) {
    && |Held(s)| <= maxPhones && (forall c :: c in s.ends ==> 1 <= c <= C.CHANNELS)
    && (s.demux.Idle? || s.demuxAt in s.ends) && (s.loop.Waiting? || s.loopAt in s.ends)
  }

  ghost predicate TagsOk(s: State) {
    && (forall x :: x in s.down ==> x.ch in s.ends)
    && (forall x :: x in s.up ==> x.ch in s.ends || x.ch == 0)
    && (forall x :: x in s.history ==> x.ch in s.ends)
    && (forall k :: 0 <= k < |s.past| ==> s.past[k].ch in s.ends)
  }

  ghost predicate ChannelOk(s: State, ch: nat)
    requires ch in s.ends
  {
    Link.Inv(View(s, ch)) && Proj(s.history, ch) == Earlier(s.past, ch) + Written(View(s, ch))
  }

  /** All that previous holders of a number wrote toward the bridge. */
  function Earlier(past: seq<Past>, ch: nat): seq<Frame> {
    if past == [] then []
    else
      var before, x := Earlier(past[..|past| - 1], ch), past[|past| - 1];
      if x.ch == ch then before + Bracket(x.ends.p.announced, x.ends.p.fwd, true) else before
  }

  /** What stays true of a previous holder. */
  ghost predicate PastOk(x: Ends) {
    && x.b.yielded + x.b.inbox == x.b.got && x.b.got <= x.p.sent && x.r.toPhone <= x.b.wrote
    && x.p.fwd <= x.p.sent && (x.p.fwd != [] ==> x.p.announced) && |x.b.inbox| <= INBOX
  }

  ghost predicate Inv(maxPhones: nat, s: State) {
    && Numbers(maxPhones, s) && TagsOk(s)
    && (forall c :: c in s.ends ==> ChannelOk(s, c))
    && (forall k :: 0 <= k < |s.past| ==> PastOk(s.past[k].ends))
  }

  lemma {:induction false} ProjNone(q: seq<Tagged>, ch: nat)
    requires forall x :: x in q ==> x.ch != ch
    ensures Proj(q, ch) == []
  {
    if q != [] {
      assert q[0] in q;
      ProjNone(q[1..], ch);
    }
  }

  /** A number nobody holds, and a channel that is retired if it has been used before. */
  lemma PlaceIsFree(maxPhones: nat, s: State)
    requires maxPhones <= C.CHANNELS && CanAdmit(maxPhones, s)
    ensures var ch := C.Number(Place(s)); ch !in Held(s) && 1 <= ch <= C.CHANNELS
  {
    C.BumpNumber(Place(s));
  }

  lemma AdmissionKeeps(maxPhones: nat, s: State)
    requires maxPhones <= C.CHANNELS && Inv(maxPhones, s) && CanAdmit(maxPhones, s)
    ensures Inv(maxPhones, Entered(s, Place(s)))
  {
    hide Numbers, TagsOk, ChannelOk;
    var ch, t := C.Number(Place(s)), Entered(s, Place(s));
    EnteredNumbers(maxPhones, s);
    forall c | c in t.ends
      ensures ChannelOk(t, c)
    {
      if c == ch {
        NewChannel(maxPhones, s);
      } else {
        assert Earlier(t.past, c) == Earlier(s.past, c) by { EarlierAppend(s.past, ch, t, c); }
        SameChannel(s, t, c);
      }
    }
    if ch in s.ends {
      RetireeIsPast(s, ch);
    }
  }

  lemma EarlierAppend(past: seq<Past>, ch: nat, t: State, c: nat)
    requires t.past == past || (|t.past| == |past| + 1 && t.past[..|past|] == past && t.past[|past|].ch == ch)
    ensures c != ch ==> Earlier(t.past, c) == Earlier(past, c)
    ensures |t.past| == |past| + 1 ==>
              var p := t.past[|past|].ends.p;
              Earlier(t.past, ch) == Earlier(past, ch) + Bracket(p.announced, p.fwd, true)
  {
  }

  lemma RetireeIsPast(s: State, ch: nat)
    requires ch in s.ends && ChannelOk(s, ch)
    ensures PastOk(s.ends[ch])
  {
  }

  lemma EnteredNumbers(maxPhones: nat, s: State)
    requires maxPhones <= C.CHANNELS && Numbers(maxPhones, s) && TagsOk(s) && CanAdmit(maxPhones, s)
    ensures Numbers(maxPhones, Entered(s, Place(s))) && TagsOk(Entered(s, Place(s)))
  {
    PlaceIsFree(maxPhones, s);
    assert Held(Entered(s, Place(s))) == Held(s) + {C.Number(Place(s))};
  }

  lemma SameChannel(s: State, t: State, c: nat)
    requires c in s.ends && ChannelOk(s, c) && c in t.ends && t.ends[c] == s.ends[c]
    requires Proj(t.down, c) == Proj(s.down, c) && Proj(t.up, c) == Proj(s.up, c) && t.history == s.history
    requires t.demux == s.demux && t.demuxAt == s.demuxAt && t.loop == s.loop && t.loopAt == s.loopAt
    requires Earlier(t.past, c) == Earlier(s.past, c)
    ensures ChannelOk(t, c)
  {
    assert View(t, c) == View(s, c);
  }

  /** The channel's queues and read loops are clean: it has never been used, or it is retired. */
  lemma CleanSlate(maxPhones: nat, s: State)
    requires maxPhones <= C.CHANNELS && Numbers(maxPhones, s) && TagsOk(s) && CanAdmit(maxPhones, s)
    ensures var ch, t := C.Number(Place(s)), Entered(s, Place(s));
            View(t, ch) == Channel(ADMITTED.p, ADMITTED.r, ADMITTED.b, [], [], Idle, Waiting)
  {
    PlaceIsFree(maxPhones, s);
    var ch := C.Number(Place(s));
    if ch !in s.ends {
      ProjNone(s.down, ch);
      ProjNone(s.up, ch);
    }
  }

  lemma NewChannel(maxPhones: nat, s: State)
    requires maxPhones <= C.CHANNELS && Numbers(maxPhones, s) && TagsOk(s) && CanAdmit(maxPhones, s)
    requires C.Number(Place(s)) in s.ends ==> ChannelOk(s, C.Number(Place(s)))
    ensures ChannelOk(Entered(s, Place(s)), C.Number(Place(s)))
  {
    var ch, t := C.Number(Place(s)), Entered(s, Place(s));
    CleanSlate(maxPhones, s);
    NewHistory(maxPhones, s);
    assert Written(View(t, ch)) == [];
    assert Earlier(t.past, ch) + [] == Earlier(t.past, ch);
  }

  /** What the previous holder wrote becomes part of the past. */
  lemma NewHistory(maxPhones: nat, s: State)
    requires maxPhones <= C.CHANNELS && TagsOk(s) && CanAdmit(maxPhones, s)
    requires C.Number(Place(s)) in s.ends ==> ChannelOk(s, C.Number(Place(s)))
    ensures Proj(s.history, C.Number(Place(s))) == Earlier(Entered(s, Place(s)).past, C.Number(Place(s)))
  {
    var ch, t := C.Number(Place(s)), Entered(s, Place(s));
    if ch in s.ends {
      EarlierAppend(s.past, ch, t, ch);
    } else {
      ProjNone(s.history, ch);
      EarlierNone(s.past, ch);
    }
  }

  lemma {:induction false} EarlierNone(past: seq<Past>, ch: nat)
    requires forall k :: 0 <= k < |past| ==> past[k].ch != ch
    ensures Earlier(past, ch) == []
  {
    if past != [] {
      EarlierNone(past[..|past| - 1], ch);
    }
  }

  /** No step but an admission makes the relay hold a channel. */
  lemma NeverReheld(s: Channel, e: Event)
    requires !e.Admit?
    ensures Step(s, e).r.held ==> s.r.held
  {
  }

  lemma PutLater<T>(a: seq<T>, b: seq<T>, x: Option<T>)
    ensures Put(a + b, x) == a + Put(b, x)
  {
    if x.Some? {
      assert (a + b) + [x.value] == a + (b + [x.value]);
    }
  }

  lemma OwnChannelMoves(s: State, ch: nat, e: Event)
    requires CanMove(s, ch, e) && ch in s.ends && ChannelOk(s, ch)
    ensures ChannelOk(Advance(s, ch, e), ch)
  {
    hide Enabled, Step, Down, Up, Written;
    var t, v := Advance(s, ch, e), View(s, ch);
    MovesOwn(s, ch, e);
    Link.StepKeeps(v, e);
    WrittenGrows(v, e);
    ProjPut(s.history, ch, Down(v, e), ch);
    PutLater(Earlier(s.past, ch), Written(v), Down(v, e));
    assert t.past == s.past;
  }

  lemma OtherChannelMoves(s: State, ch: nat, e: Event, c: nat)
    requires CanMove(s, ch, e) && c in s.ends && c != ch && ChannelOk(s, c)
    ensures ChannelOk(Advance(s, ch, e), c)
  {
    hide Enabled, Step, Down, Up, Written;
    LeavesOthers(s, ch, e, c);
    ProjPut(s.history, ch, Down(View(s, ch), e), c);
    assert Advance(s, ch, e).past == s.past;
  }

  lemma ChannelMoves(s: State, ch: nat, e: Event, c: nat)
    requires CanMove(s, ch, e) && c in s.ends && ChannelOk(s, c)
    ensures ChannelOk(Advance(s, ch, e), c)
  {
    hide ChannelOk, Advance;
    if c == ch { OwnChannelMoves(s, ch, e); } else { OtherChannelMoves(s, ch, e, c); }
  }

  lemma MoveHolds(s: State, ch: nat, e: Event)
    requires CanMove(s, ch, e)
    ensures |Held(Advance(s, ch, e))| <= |Held(s)|
  {
    var t := Advance(s, ch, e);
    NeverReheld(View(s, ch), e);
    assert Held(t) <= Held(s);
    R.SubsetSize(Held(t), Held(s));
  }

  lemma MoveKeeps(maxPhones: nat, s: State, ch: nat, e: Event)
    requires Inv(maxPhones, s) && CanMove(s, ch, e)
    ensures Inv(maxPhones, Advance(s, ch, e))
  {
    hide Numbers, TagsOk, ChannelOk;
    MoveNumbers(maxPhones, s, ch, e);
    TagsMove(s, ch, e);
    forall c | c in Advance(s, ch, e).ends
      ensures ChannelOk(Advance(s, ch, e), c)
    {
      ChannelMoves(s, ch, e, c);
    }
  }

  lemma MoveNumbers(maxPhones: nat, s: State, ch: nat, e: Event)
    requires Numbers(maxPhones, s) && CanMove(s, ch, e)
    ensures Numbers(maxPhones, Advance(s, ch, e)) && Advance(s, ch, e).ends.Keys == s.ends.Keys
  {
    MoveHolds(s, ch, e);
  }

  lemma TagsMove(s: State, ch: nat, e: Event)
    requires TagsOk(s) && CanMove(s, ch, e)
    ensures TagsOk(Advance(s, ch, e))
  {
    var t := Advance(s, ch, e);
    assert forall x :: x in t.down ==> x in s.down || x.ch == ch;
    assert forall x :: x in t.up ==> x in s.up || x.ch == ch;
    assert forall x :: x in t.history ==> x in s.history || x.ch == ch;
  }

  lemma KeepaliveKeeps(maxPhones: nat, s: State, t: State)
    requires Inv(maxPhones, s) && t == s.(up := t.up)
    requires t.up == s.up + [Tagged(0, Ping)] || (s.up != [] && s.up[0].ch == 0 && t.up == s.up[1..])
    ensures Inv(maxPhones, t)
  {
    assert forall x :: x in t.up ==> x in s.up || x.ch == 0;
    assert Held(t) == Held(s);
    forall c | c in t.ends
      ensures ChannelOk(t, c)
    {
      if t.up == s.up + [Tagged(0, Ping)] {
        ProjAppend(s.up, Tagged(0, Ping), c);
      } else {
        ProjPop(s.up, c);
      }
      SameChannel(s, t, c);
    }
  }

  lemma LateReadKeeps(maxPhones: nat, s: State, k: nat)
    requires maxPhones <= C.CHANNELS && Inv(maxPhones, s) && k < |s.past|
    ensures Inv(maxPhones, Next(maxPhones, s, LateRead(k)))
  {
    hide ChannelOk, PastOk, Earlier;
    var t := Next(maxPhones, s, LateRead(k));
    assert t == s.(past := s.past[k := s.past[k].(ends := ReadLate(s.past[k].ends))]);
    assert Held(t) == Held(s);
    ReadPast(s.past[k].ends);
    forall c | c in t.ends
      ensures ChannelOk(t, c)
    {
      SameEarlier(s.past, t.past, c);
      SameChannel(s, t, c);
    }
  }

  lemma ReadPast(x: Ends)
    requires PastOk(x)
    ensures PastOk(ReadLate(x)) && ReadLate(x).p == x.p
  {
    if x.b.inbox != [] {
      assert x.b.inbox == [x.b.inbox[0]] + x.b.inbox[1..];
    }
  }

  lemma {:induction false} SameEarlier(a: seq<Past>, b: seq<Past>, ch: nat)
    requires |a| == |b| && forall k :: 0 <= k < |a| ==> a[k].ch == b[k].ch && a[k].ends.p == b[k].ends.p
    ensures Earlier(a, ch) == Earlier(b, ch)
  {
    if a != [] {
      SameEarlier(a[..|a| - 1], b[..|b| - 1], ch);
    }
  }

  lemma NextKeeps(maxPhones: nat, s: State, m: Move)
    requires maxPhones <= C.CHANNELS && Inv(maxPhones, s)
    ensures Inv(maxPhones, Next(maxPhones, s, m))
  {
    hide Inv, CanAdmit, Entered, CanMove, Advance;
    match m
    case Admission =>
      if CanAdmit(maxPhones, s) { AdmissionKeeps(maxPhones, s); }
    case On(ch, e) =>
      if CanMove(s, ch, e) { MoveKeeps(maxPhones, s, ch, e); }
    case LateRead(k) =>
      if k < |s.past| { LateReadKeeps(maxPhones, s, k); }
    case Keepalive => KeepaliveKeeps(maxPhones, s, Next(maxPhones, s, m));
    case KeepaliveRead =>
      if s.loop.Waiting? && s.up != [] && s.up[0].ch == 0 { KeepaliveKeeps(maxPhones, s, Next(maxPhones, s, m)); }
  }

  lemma {:induction false} RunKeeps(maxPhones: nat, moves: seq<Move>)
    requires maxPhones <= C.CHANNELS
    ensures Inv(maxPhones, Run(maxPhones, moves))
  {
    if moves == [] {
      assert Held(IDLE) == {};
    } else {
      RunKeeps(maxPhones, moves[..|moves| - 1]);
      NextKeeps(maxPhones, Run(maxPhones, moves[..|moves| - 1]), moves[|moves| - 1]);
    }
  }

  // ---------------------------------------------------------------- theorems

  /** In every reachable state a channel in one map only is explained by an open or close that is pending
      in some goroutine or in flight. */
  lemma {:induction false} MapsAgree(maxPhones: nat, moves: seq<Move>, ch: nat)
    requires maxPhones <= C.CHANNELS
    ensures var s := Run(maxPhones, moves);
            && (ch in Held(s) && ch !in InMap(s) ==>
                  var v := View(s, ch);
                  || v.p.phone == Opening || v.p.phone == Leaving || Open in v.down
                  || v.b.once == Writing || Close in v.up)
            && (ch in InMap(s) && ch !in Held(s) ==>
                  var v := View(s, ch);
                  || (v.p.phone == Running && (v.r.cancelled || v.loop.Cancelling?))
                  || v.p.phone == Leaving || v.p.phone == Closing || Close in v.down)
  {
    RunKeeps(maxPhones, moves);
    var s := Run(maxPhones, moves);
    if ch in s.ends {
      assert ChannelOk(s, ch);
      DifferenceExplained(View(s, ch));
    }
  }

  /** Once every frame is processed and no goroutine is mid-step, both maps hold the same channels. */
  lemma {:induction false} MapsEqualWhenQuiet(maxPhones: nat, moves: seq<Move>)
    requires maxPhones <= C.CHANNELS
    ensures var s := Run(maxPhones, moves);
            (forall c :: c in s.ends ==> Quiet(View(s, c))) ==> Held(s) == InMap(s)
  {
    RunKeeps(maxPhones, moves);
    var s := Run(maxPhones, moves);
    forall c | c in s.ends && Quiet(View(s, c))
      ensures c in Held(s) <==> c in InMap(s)
    {
      assert ChannelOk(s, c);
      DifferenceExplained(View(s, c));
    }
  }

  /** The relayed link behaves as a direct one: what relayChannel.Read returns is a gap-free prefix of
      what that one phone sent, and what the phone gets is a gap-free prefix of what was written to it; for
      the latest holder of a number and for all before it. */
  lemma {:induction false} RefinesDirectLink(maxPhones: nat, moves: seq<Move>, ch: nat, k: nat)
    requires maxPhones <= C.CHANNELS
    ensures var s := Run(maxPhones, moves);
            && (ch in s.ends ==> Refines(s.ends[ch]))
            && (k < |s.past| ==> Refines(s.past[k].ends))
  {
    RunKeeps(maxPhones, moves);
    var s := Run(maxPhones, moves);
    if ch in s.ends {
      assert ChannelOk(s, ch);
      NoGaps(View(s, ch));
    }
  }

  ghost predicate Refines(x: Ends) {
    x.b.yielded <= x.p.sent && x.r.toPhone <= x.b.wrote && |x.b.inbox| <= INBOX
  }

  /** The frames a number ever gets toward the bridge: for each of its holders in turn an open, then data, then a
      close, and the next holder's open only after the close; the data are a prefix of the holder's messages. */
  lemma {:induction false} OpenDataClose(maxPhones: nat, moves: seq<Move>, ch: nat, k: nat)
    requires maxPhones <= C.CHANNELS
    ensures var s := Run(maxPhones, moves);
            && (ch in s.ends ==>
                  && var p := s.ends[ch].p;
                  && Proj(s.history, ch) == Earlier(s.past, ch) + Bracket(p.announced, p.fwd, p.phone == Gone)
                  && p.fwd <= p.sent && (p.fwd != [] ==> p.announced))
            && (ch !in s.ends ==> Proj(s.history, ch) == [])
            && (k < |s.past| ==>
                  && var p := s.past[k].ends.p;
                  && p.fwd <= p.sent && (p.fwd != [] ==> p.announced))
  {
    RunKeeps(maxPhones, moves);
    var s := Run(maxPhones, moves);
    if ch in s.ends {
      assert ChannelOk(s, ch);
    } else {
      ProjNone(s.history, ch);
    }
  }

  /** Live phones hold different numbers in 1..65535, never more of them than the cap. */
  lemma {:induction false} HeldWithinCap(maxPhones: nat, moves: seq<Move>)
    requires maxPhones <= C.CHANNELS
    ensures var s := Run(maxPhones, moves); |Held(s)| <= maxPhones && forall c :: c in Held(s) ==> 1 <= c <= C.CHANNELS
  {
    RunKeeps(maxPhones, moves);
  }

  /** What waits for a number's previous holder can still be read, oldest first, and nobody else notices. */
  lemma {:induction false} LateReadTakes(maxPhones: nat, moves: seq<Move>, k: nat)
    requires maxPhones <= C.CHANNELS
    ensures var s, t := Run(maxPhones, moves), Run(maxPhones, moves + [LateRead(k)]);
            k < |s.past| && s.past[k].ends.b.inbox != [] ==>
              var b := s.past[k].ends.b;
              && |t.past| == |s.past| && t == s.(past := t.past)
              && t.past[k].ends.b == b.(inbox := b.inbox[1..], yielded := b.yielded + [b.inbox[0]])
              && forall i :: 0 <= i < |s.past| && i != k ==> t.past[i] == s.past[i]
  {
    R.AfterOne(Stepper(maxPhones), IDLE, moves, LateRead(k));
  }

  // ---------------------------------------------------------------- the first round

  function Admissions(moves: seq<Move>): nat {
    if moves == [] then 0
    else Admissions(moves[..|moves| - 1]) + if moves[|moves| - 1] == Admission then 1 else 0
  }

  /** No number has been assigned twice: the k-th phone is channel k. */
  ghost predicate FirstRound(s: State) {
    s.past == [] && s.position <= C.CHANNELS && forall c :: c in s.ends <==> 1 <= c <= s.position
  }

  lemma NextInRound(s: State)
    requires FirstRound(s) && s.position < C.CHANNELS && |Held(s)| < C.CHANNELS
    ensures Place(s) == s.position + 1 && C.Number(Place(s)) == s.position + 1 && s.position + 1 !in s.ends
  {
    assert C.Number(s.position + 1) == s.position + 1;
    assert C.Number(s.position + 1) !in Held(s);
  }

  lemma RoundGoesOn(maxPhones: nat, s: State, m: Move)
    requires maxPhones <= C.CHANNELS && FirstRound(s) && (m == Admission ==> s.position < C.CHANNELS)
    ensures FirstRound(Next(maxPhones, s, m))
    ensures Next(maxPhones, s, m).position <= s.position + if m == Admission then 1 else 0
  {
    if m == Admission && |Held(s)| < maxPhones {
      NextInRound(s);
    }
  }

  lemma {:induction false} StaysInRound(maxPhones: nat, moves: seq<Move>)
    requires maxPhones <= C.CHANNELS && Admissions(moves) <= C.CHANNELS
    ensures FirstRound(Run(maxPhones, moves)) && Run(maxPhones, moves).position <= Admissions(moves)
  {
    hide Next, FirstRound;
    if moves == [] {
      RoundStarts();
    } else {
      var init := moves[..|moves| - 1];
      StaysInRound(maxPhones, init);
      RoundGoesOn(maxPhones, Run(maxPhones, init), moves[|moves| - 1]);
    }
  }

  lemma RoundStarts()
    ensures FirstRound(IDLE) && IDLE.position == 0
  {
  }

  /** Through the first 65,535 admissions a phone is refused at the cap and for no other reason, so that every
      such run of the code is a run of the machine. */
  lemma {:induction false} FirstRoundIsFree(maxPhones: nat, moves: seq<Move>)
    requires maxPhones <= C.CHANNELS && Admissions(moves) < C.CHANNELS
    ensures var s := Run(maxPhones, moves);
            && (CanAdmit(maxPhones, s) <==> |Held(s)| < maxPhones)
            && (CanAdmit(maxPhones, s) ==> Next(maxPhones, s, Admission) == Entered(s, s.position + 1))
            && s.past == [] && forall c :: c in s.ends <==> 1 <= c <= s.position
  {
    StaysInRound(maxPhones, moves);
    var s := Run(maxPhones, moves);
    if |Held(s)| < maxPhones {
      NextInRound(s);
    }
  }
}
