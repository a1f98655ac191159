/**
 * One channel of a relay session, seen alone: the phone's goroutine in servePhone, the relay's loop over
 * bridge frames (internal/relay/relay.go), and the bridge's demultiplexing loop and relayChannel
 * (internal/bridge/relay_client.go). Every lock section and every socket write is one step; the two
 * queues hold this channel's frames in flight. The bridge socket does not fail; phone sockets,
 * rate limits and cancelled contexts may end anything at any time.
 */
module Link {
  import opened Bytes

  const INBOX: nat := 256

  /** A phone's WebSocket message. */
  datatype Msg = Msg(text: bool, data: seq<byte>)

  datatype Frame = Open | Data(kind: byte, payload: seq<byte>) | Close | Ping

  function ToFrame(m: Msg): Frame {
    Data(if m.text then 0 else 1, m.data)
  }

  function FromFrame(f: Frame): Msg
    requires f.Data?
  {
    Msg(f.kind == 0, f.payload)
  }

  /** Where servePhone is: before the open is written, reading, about to delete, about to write close. */
  datatype Phone = Unborn | Opening | Running | Leaving | Closing | Gone

  /** relayChannel.once: Close runs in three steps, finish in one. */
  datatype Once = Fresh | Deleting | Writing | Over

  /** The bridge's read loop, while busy with this channel. */
  datatype Demux = Idle | Deliver(m: Msg) | Backlog | Finish

  /** The relay's read loop, while busy with this channel. */
  datatype Loop = Waiting | Forward(f: Msg) | Cancelling

  /** servePhone. sent: messages on the phone's socket; read: how many were taken off it; pending: the
      one in hand; announced: open was written; fwd: data written to the bridge. */
  datatype PhoneSide = PhoneSide(
    phone: Phone, sent: seq<Msg>, read: nat, pending: Option<Msg>, announced: bool, fwd: seq<Msg>)

  /** The relay. held: its map has the channel; cancelled: the phone's context is; popped: data frames read
      from the bridge; closeSeen: the bridge's close was read; toPhone: messages written to the phone. */
  datatype RelaySide = RelaySide(held: bool, cancelled: bool, popped: nat, closeSeen: bool, toPhone: seq<Msg>)

  /** The bridge. landed: data frames read; made: the relayChannel exists; inMap: the map has it; ended: the
      close was read; got: messages ever put into the inbox; yielded: returned by Read; writer: a Write
      past its check of done; wrote: data written; closed: Close wrote its frame. */
  datatype BridgeSide = BridgeSide(
    landed: nat, made: bool, inMap: bool, ended: bool, once: Once, inbox: seq<Msg>, got: seq<Msg>, yielded: seq<Msg>,
    writer: Option<Msg>, wrote: seq<Msg>, closed: bool)

  /** The channel's state at both ends. */
  datatype Ends = Ends(p: PhoneSide, r: RelaySide, b: BridgeSide)

  /** With its frames in flight toward the bridge (down) and the relay (up), and the two read loops. */
  datatype Channel = Channel(
    p: PhoneSide, r: RelaySide, b: BridgeSide, down: seq<Frame>, up: seq<Frame>, demux: Demux, loop: Loop)

  const UNBORN := Ends(PhoneSide(Unborn, [], 0, None, false, []), RelaySide(false, false, 0, false, []),
                       BridgeSide(0, false, false, false, Fresh, [], [], [], None, [], false))

  datatype Event =
    | Admit | PhoneSends(m: Msg) | WriteOpen | OpenFails | PhoneRead | WriteData | Quit | Forget | WriteClose
    | DemuxPop | DemuxPush | DemuxClose | DemuxResume | DemuxFinish
    | ConnRead | ConnClose | CloseDelete | CloseWrite | ConnCheck(m: Msg) | ConnWrite | ConnAbort
    | LoopPop | LoopWrite | LoopFails | LoopCancel

  /** The steps of the bridge's read loop, and of the relay's. */
  predicate DemuxEvent(e: Event) {
    e.DemuxPop? || e.DemuxPush? || e.DemuxClose? || e.DemuxResume? || e.DemuxFinish?
  }

  predicate LoopEvent(e: Event) {
    e.LoopPop? || e.LoopWrite? || e.LoopFails? || e.LoopCancel?
  }

  predicate Enabled(s: Channel, e: Event) {
    match e
    case Admit => s.p.phone == Unborn
    case PhoneSends(_) => s.p.phone != Unborn
    case WriteOpen => s.p.phone == Opening
    case OpenFails => s.p.phone == Opening
    case PhoneRead => s.p.phone == Running && s.p.pending.None? && s.p.read < |s.p.sent|
    case WriteData => s.p.phone == Running && s.p.pending.Some?
    case Quit => s.p.phone == Running
    case Forget => s.p.phone == Leaving
    case WriteClose => s.p.phone == Closing
    case DemuxPop => s.demux.Idle? && s.down != []
    case DemuxPush => s.demux.Deliver?
    case DemuxClose => s.demux.Backlog? && s.b.once == Fresh
    case DemuxResume => s.demux.Backlog? && s.b.once == Over
    case DemuxFinish => s.demux.Finish? && (s.b.once == Fresh || s.b.once == Over)
    case ConnRead => s.b.inbox != []
    case ConnClose => s.b.made && s.b.once == Fresh
    case CloseDelete => s.b.once == Deleting
    case CloseWrite => s.b.once == Writing
    case ConnCheck(_) => s.b.made && s.b.writer.None? && s.b.once == Fresh
    case ConnWrite => s.b.writer.Some?
    case ConnAbort => s.b.writer.Some?
    case LoopPop => s.loop.Waiting? && s.up != []
    case LoopWrite => s.loop.Forward?
    case LoopFails => s.loop.Forward?
    case LoopCancel => s.loop.Cancelling?
  }

  /** What the step appends to the queue toward the bridge, and toward the relay. */
  function Down(s: Channel, e: Event): Option<Frame> {
    match e
    case WriteOpen => Some(Open)
    case WriteData => if s.p.pending.Some? then Some(ToFrame(s.p.pending.value)) else None
    case WriteClose => Some(Close)
    case _ => None
  }

  function Up(s: Channel, e: Event): Option<Frame> {
    match e
    case CloseWrite => Some(Close)
    case ConnWrite => if s.b.writer.Some? then Some(ToFrame(s.b.writer.value)) else None
    case _ => None
  }

  function Put<T>(queue: seq<T>, item: Option<T>): seq<T> {
    match item
    case None => queue
    case Some(x) => queue + [x]
  }

  function NextPhone(s: Channel, e: Event): PhoneSide
    requires Enabled(s, e)
  {
    var p := s.p;
    match e
    case Admit => p.(phone := Opening)
    case PhoneSends(m) => p.(sent := p.sent + [m])
    case WriteOpen => p.(phone := Running, announced := true)
    case OpenFails => p.(phone := Leaving)
    case PhoneRead => p.(pending := Some(p.sent[p.read]), read := p.read + 1)
    case WriteData => p.(pending := None, fwd := p.fwd + [p.pending.value])
    case Quit => p.(phone := Leaving, pending := None)
    case Forget => p.(phone := Closing)
    case WriteClose => p.(phone := Gone)
    case _ => p
  }

  /** The relay takes a frame off the bridge's socket. */
  function PopUp(r: RelaySide, f: Frame): RelaySide {
    match f
    case Close => r.(held := false, closeSeen := true)
    case Data(_, _) => r.(popped := r.popped + 1)
    case _ => r
  }

  function NextRelay(s: Channel, e: Event): RelaySide
    requires Enabled(s, e)
  {
    var r := s.r;
    match e
    case Admit => r.(held := true)
    case Forget => r.(held := false)
    case LoopPop => PopUp(r, s.up[0])
    case LoopWrite => r.(toPhone := r.toPhone + [s.loop.f])
    case LoopFails => r.(held := false)
    case LoopCancel => r.(cancelled := true)
    case _ => r
  }

  function NextLoop(s: Channel, e: Event): Loop
    requires Enabled(s, e)
  {
    match e
    case LoopPop =>
      (match s.up[0]
       case Close => if s.r.held then Cancelling else Waiting
       case Data(_, _) => if s.r.held then Forward(FromFrame(s.up[0])) else Waiting
       case _ => Waiting)
    case LoopWrite => Waiting
    case LoopFails => if s.r.held then Cancelling else Waiting
    case LoopCancel => Waiting
    case _ => s.loop
  }

  /** The bridge takes a frame off its socket. */
  function PopDown(b: BridgeSide, f: Frame): BridgeSide {
    match f
    case Open => b.(made := true, inMap := true)
    case Close => b.(inMap := false, ended := true)
    case Data(_, _) => b.(landed := b.landed + 1)
    case Ping => b
  }

  function NextBridge(s: Channel, e: Event): BridgeSide
    requires Enabled(s, e)
  {
    var b := s.b;
    match e
    case DemuxPop => PopDown(b, s.down[0])
    case DemuxPush =>
      if |b.inbox| < INBOX then b.(inbox := b.inbox + [s.demux.m], got := b.got + [s.demux.m]) else b
    case DemuxClose => b.(once := Deleting)
    case DemuxFinish => b.(once := Over)
    case ConnRead => b.(yielded := b.yielded + [b.inbox[0]], inbox := b.inbox[1..])
    case ConnClose => b.(once := Deleting)
    case CloseDelete => b.(once := Writing, inMap := false)
    case CloseWrite => b.(once := Over, closed := true)
    case ConnCheck(m) => b.(writer := Some(m))
    case ConnWrite => b.(writer := None, wrote := b.wrote + [b.writer.value])
    case ConnAbort => b.(writer := None)
    case _ => b
  }

  function NextDemux(s: Channel, e: Event): Demux
    requires Enabled(s, e)
  {
    match e
    case DemuxPop =>
      (match s.down[0]
       case Close => if s.b.inMap then Finish else Idle
       case Data(_, _) => if s.b.inMap then Deliver(FromFrame(s.down[0])) else Idle
       case _ => Idle)
    case DemuxPush => if |s.b.inbox| < INBOX then Idle else Backlog
    case DemuxResume => Idle
    case DemuxFinish => Idle
    case _ => s.demux
  }

  function Step(s: Channel, e: Event): Channel {
    if !Enabled(s, e) then s
    else
      Channel(NextPhone(s, e), NextRelay(s, e), NextBridge(s, e),
              Put(if e.DemuxPop? then s.down[1..] else s.down, Down(s, e)),
              Put(if e.LoopPop? then s.up[1..] else s.up, Up(s, e)),
              NextDemux(s, e), NextLoop(s, e))
  }

  // ---------------------------------------------------------------- invariant

  function Datas(ms: seq<Msg>): (fs: seq<Frame>)
    ensures |fs| == |ms| && forall i :: 0 <= i < |fs| ==> fs[i] == ToFrame(ms[i])
  {
    seq(|ms|, i requires 0 <= i < |ms| => ToFrame(ms[i]))
  }

  /** The messages among the frames of a queue. */
  function Msgs(fs: seq<Frame>): seq<Msg> {
    if fs == [] then []
    else (if fs[0].Data? then [FromFrame(fs[0])] else []) + Msgs(fs[1..])
  }

  /** How many of the frames are closes. */
  function Closes(fs: seq<Frame>): nat {
    if fs == [] then 0 else (if fs[0] == Close then 1 else 0) + Closes(fs[1..])
  }

  lemma {:induction false} CloseIn(fs: seq<Frame>)
    ensures Closes(fs) > 0 ==> Close in fs
  {
    if fs != [] {
      CloseIn(fs[1..]);
    }
  }

  lemma {:induction false} MsgsAppend(fs: seq<Frame>, f: Frame)
    ensures Msgs(fs + [f]) == Msgs(fs) + if f.Data? then [FromFrame(f)] else []
    ensures Closes(fs + [f]) == Closes(fs) + if f == Close then 1 else 0
  {
    if fs == [] {
      assert [f][1..] == [];
    } else {
      var all := fs + [f];
      assert all[1..] == fs[1..] + [f] && all[0] == fs[0];
      MsgsAppend(fs[1..], f);
      var first, last := if fs[0].Data? then [FromFrame(fs[0])] else [], if f.Data? then [FromFrame(f)] else [];
      assert first + (Msgs(fs[1..]) + last) == (first + Msgs(fs[1..])) + last;
    }
  }

  function Bracket(first: bool, ms: seq<Msg>, last: bool): seq<Frame> {
    (if first then [Open] else []) + Datas(ms) + (if last then [Close] else [])
  }

  /** Frames reach the bridge in the order open, data, close, and only what was written. */
  ghost predicate DownOk(s: Channel) {
    && s.b.landed <= |s.p.fwd|
    && s.down == Bracket(s.p.announced && !s.b.made, s.p.fwd[s.b.landed..], s.p.phone == Gone && !s.b.ended)
    && (s.b.made ==> s.p.announced) && (s.b.ended ==> s.p.phone == Gone && s.b.landed == |s.p.fwd|)
    && (!s.b.made ==> s.b.landed == 0) && (!s.p.announced ==> s.p.fwd == [])
    && (s.p.phone == Unborn || s.p.phone == Opening ==> !s.p.announced) && (s.p.phone == Running ==> s.p.announced)
    && (s.p.announced && s.b.ended ==> s.b.made)
  }

  /** What servePhone has taken off the phone's socket. */
  ghost predicate PhoneOk(s: Channel) {
    && |s.p.fwd| <= s.p.read <= |s.p.sent| && s.p.fwd == s.p.sent[..|s.p.fwd|]
    && (s.p.pending.Some? ==> s.p.phone == Running && |s.p.fwd| + 1 == s.p.read)
    && (s.p.pending.Some? ==> s.p.pending.value == s.p.sent[s.p.read - 1])
    && (s.p.phone == Running && s.p.pending.None? ==> |s.p.fwd| == s.p.read)
    && (s.p.phone == Unborn || s.p.phone == Opening ==> s.p.read == 0)
  }

  /** The two maps. */
  ghost predicate MapsOk(s: Channel) {
    && (s.r.held ==> s.p.phone == Opening || s.p.phone == Running || s.p.phone == Leaving)
    && ((s.p.phone == Opening || s.p.phone == Running || s.p.phone == Leaving) && !s.r.held ==>
          s.r.cancelled || s.loop.Cancelling?)
    && (s.loop.Cancelling? ==> !s.r.held)
    && (s.b.inMap ==> s.b.made && !s.b.ended && s.b.once != Writing && s.b.once != Over)
    && (s.b.made && !s.b.ended && (s.b.once == Fresh || s.b.once == Deleting) ==> s.b.inMap)
    && (s.b.once == Over && !s.b.closed ==> s.b.ended)
    && (s.b.closed ==> s.b.once == Over) && (s.r.closeSeen ==> s.b.closed && !s.r.held)
    && Closes(s.up) == (if s.b.closed && !s.r.closeSeen then 1 else 0)
    && (!s.b.made ==> s.b.once == Fresh && s.b.wrote == [] && s.b.writer == None && !s.loop.Cancelling?)
    && (s.demux.Finish? ==> s.b.ended && s.b.made) && (s.demux.Deliver? || s.demux.Backlog? ==> s.b.made && !s.b.ended)
  }

  /** Messages on their way from the phone to Read: no gap up to the last one put into the inbox. */
  ghost predicate ReadOk(s: Channel) {
    && |s.b.inbox| <= INBOX && s.b.yielded + s.b.inbox == s.b.got
    && |s.b.got| <= s.b.landed <= |s.p.fwd| && s.b.got == s.p.fwd[..|s.b.got|]
    && (s.demux.Deliver? ==> |s.b.got| + 1 == s.b.landed && s.demux.m == s.p.fwd[s.b.landed - 1])
    && (s.demux.Backlog? ==> |s.b.got| < s.b.landed)
    && (s.b.inMap && (s.demux.Idle? || s.demux.Finish?) ==> |s.b.got| == s.b.landed)
    && (!s.b.made ==> s.b.got == [])
  }

  /** Messages on their way from the tunnel to the phone. */
  ghost predicate UpOk(s: Channel) {
    && s.r.popped <= |s.b.wrote| && Msgs(s.up) == s.b.wrote[s.r.popped..]
    && |s.r.toPhone| <= s.r.popped && s.r.toPhone == s.b.wrote[..|s.r.toPhone|]
    && (s.loop.Forward? ==> |s.r.toPhone| + 1 == s.r.popped && s.loop.f == s.b.wrote[s.r.popped - 1])
    && (s.r.held && s.loop.Waiting? ==> |s.r.toPhone| == s.r.popped)
  }

  ghost predicate Inv(s: Channel) {
    DownOk(s) && PhoneOk(s) && MapsOk(s) && ReadOk(s) && UpOk(s)
  }

  // ---------------------------------------------------------------- preservation

  lemma DownSame(s: Channel, t: Channel)
    requires DownOk(s) && t.p == s.p && t.down == s.down
    requires t.b.landed == s.b.landed && t.b.made == s.b.made && t.b.ended == s.b.ended
    ensures DownOk(t)
  {
  }

  lemma PhoneSame(s: Channel, t: Channel)
    requires PhoneOk(s) && t.p == s.p
    ensures PhoneOk(t)
  {
  }

  lemma ReadSame(s: Channel, t: Channel)
    requires ReadOk(s) && t.p == s.p && t.demux == s.demux && (t.b.inMap ==> s.b.inMap)
    requires t.b.landed == s.b.landed && t.b.made == s.b.made
    requires t.b.inbox == s.b.inbox && t.b.got == s.b.got && t.b.yielded == s.b.yielded
    ensures ReadOk(t)
  {
  }

  lemma UpSame(s: Channel, t: Channel)
    requires UpOk(s) && t.r == s.r && t.up == s.up && t.loop == s.loop && t.b.wrote == s.b.wrote
    ensures UpOk(t)
  {
  }

  lemma StartKeeps(s: Channel, e: Event)
    requires Inv(s) && Enabled(s, e) && (e.Admit? || e.WriteOpen? || e.OpenFails?)
    ensures Inv(Step(s, e))
  {
  }

  lemma PhoneSendsKeeps(s: Channel, m: Msg)
    requires Inv(s) && Enabled(s, PhoneSends(m))
    ensures Inv(Step(s, PhoneSends(m)))
  {
    var t := Step(s, PhoneSends(m));
    assert t == s.(p := s.p.(sent := s.p.sent + [m]));
  }

  lemma PhoneKeeps(s: Channel, e: Event)
    requires Inv(s) && Enabled(s, e) && (e.PhoneRead? || e.Quit? || e.Forget? || e.WriteClose?)
    ensures Inv(Step(s, e))
  {
    hide Step, DownOk, PhoneOk, MapsOk, ReadOk, UpOk;
    PhoneDown(s, e);
    PhoneRest(s, e);
  }

  lemma PhoneDown(s: Channel, e: Event)
    requires DownOk(s) && PhoneOk(s) && Enabled(s, e) && (e.PhoneRead? || e.Quit? || e.Forget? || e.WriteClose?)
    ensures DownOk(Step(s, e)) && PhoneOk(Step(s, e))
  {
  }

  lemma PhoneRest(s: Channel, e: Event)
    requires MapsOk(s) && ReadOk(s) && UpOk(s) && Enabled(s, e)
    requires e.PhoneRead? || e.Quit? || e.Forget? || e.WriteClose?
    ensures MapsOk(Step(s, e)) && ReadOk(Step(s, e)) && UpOk(Step(s, e))
  {
    var t := Step(s, e);
    assert t.b == s.b && t.up == s.up && t.demux == s.demux && t.loop == s.loop && t.p.fwd == s.p.fwd;
  }

  lemma WriteDataKeeps(s: Channel)
    requires Inv(s) && Enabled(s, WriteData)
    ensures Inv(Step(s, WriteData))
  {
    hide Step, DownOk, PhoneOk, MapsOk, ReadOk, UpOk;
    WriteDataDown(s);
    WriteDataRest(s);
  }

  lemma WriteDataDown(s: Channel)
    requires DownOk(s) && PhoneOk(s) && Enabled(s, WriteData)
    ensures DownOk(Step(s, WriteData)) && PhoneOk(Step(s, WriteData))
  {
    var fwd, m := s.p.fwd, s.p.pending.value;
    assert (fwd + [m])[s.b.landed..] == fwd[s.b.landed..] + [m];
    BracketEnds(s.p.announced && !s.b.made, fwd[s.b.landed..], m);
  }

  lemma BracketEnds(first: bool, ms: seq<Msg>, m: Msg)
    ensures Bracket(first, ms + [m], false) == Bracket(first, ms, false) + [ToFrame(m)]
  {
    assert Datas(ms + [m]) == Datas(ms) + [ToFrame(m)];
  }

  lemma WriteDataRest(s: Channel)
    requires MapsOk(s) && ReadOk(s) && UpOk(s) && Enabled(s, WriteData)
    ensures MapsOk(Step(s, WriteData)) && ReadOk(Step(s, WriteData)) && UpOk(Step(s, WriteData))
  {
    var t := Step(s, WriteData);
    assert t.b == s.b && t.up == s.up && t.r == s.r;
    assert t.p.phone == s.p.phone && t.p.fwd == s.p.fwd + [s.p.pending.value];
  }

  lemma DemuxKeeps(s: Channel, e: Event)
    requires Inv(s) && Enabled(s, e) && (e.DemuxClose? || e.DemuxResume? || e.DemuxFinish?)
    ensures Inv(Step(s, e))
  {
    hide Step, DownOk, PhoneOk, ReadOk, UpOk;
    DemuxMaps(s, e);
    DemuxRest(s, e);
  }

  lemma DemuxMaps(s: Channel, e: Event)
    requires MapsOk(s) && Enabled(s, e) && (e.DemuxClose? || e.DemuxResume? || e.DemuxFinish?)
    ensures MapsOk(Step(s, e))
  {
    var t := Step(s, e);
    assert t == s.(b := t.b, demux := t.demux) && t.b == s.b.(once := t.b.once);
  }

  lemma DemuxRest(s: Channel, e: Event)
    requires DownOk(s) && PhoneOk(s) && ReadOk(s) && UpOk(s) && (s.b.once == Over ==> !s.b.inMap)
    requires Enabled(s, e) && (e.DemuxClose? || e.DemuxResume? || e.DemuxFinish?)
    ensures var t := Step(s, e); DownOk(t) && PhoneOk(t) && ReadOk(t) && UpOk(t)
  {
    hide DownOk, PhoneOk, UpOk;
    var t := Step(s, e);
    assert t == s.(b := t.b, demux := t.demux) && t.b == s.b.(once := t.b.once);
    DownSame(s, t);
    PhoneSame(s, t);
    UpSame(s, t);
  }

  lemma DemuxPushKeeps(s: Channel)
    requires Inv(s) && Enabled(s, DemuxPush)
    ensures Inv(Step(s, DemuxPush))
  {
    hide Step, DownOk, PhoneOk, ReadOk, UpOk;
    DemuxPushRead(s);
    DemuxPushRest(s);
  }

  lemma DemuxPushRead(s: Channel)
    requires ReadOk(s) && Enabled(s, DemuxPush) && s.b.made
    ensures ReadOk(Step(s, DemuxPush))
  {
    var m := s.demux.m;
    assert s.b.yielded + (s.b.inbox + [m]) == s.b.got + [m];
  }

  lemma DemuxPushRest(s: Channel)
    requires DownOk(s) && PhoneOk(s) && MapsOk(s) && UpOk(s) && Enabled(s, DemuxPush)
    ensures var t := Step(s, DemuxPush); DownOk(t) && PhoneOk(t) && MapsOk(t) && UpOk(t)
  {
    var t := Step(s, DemuxPush);
    assert t.b == s.b.(inbox := t.b.inbox, got := t.b.got);
    assert t.p == s.p && t.r == s.r && t.down == s.down && t.up == s.up;
  }

  lemma BracketBare(ms: seq<Msg>, last: bool)
    ensures Bracket(false, ms, last) == Datas(ms) + if last then [Close] else []
  {
    assert [] + Datas(ms) == Datas(ms);
  }

  lemma BracketOpen(ms: seq<Msg>, last: bool)
    ensures Bracket(true, ms, last) == [Open] + Bracket(false, ms, last)
  {
    BracketBare(ms, last);
    var tail := if last then [Close] else [];
    assert ([Open] + Datas(ms)) + tail == [Open] + (Datas(ms) + tail);
  }

  lemma BracketData(ms: seq<Msg>, last: bool)
    requires ms != []
    ensures Bracket(false, ms, last) == [ToFrame(ms[0])] + Bracket(false, ms[1..], last)
  {
    BracketBare(ms, last);
    BracketBare(ms[1..], last);
    DatasHead(ms);
    var head, tail := [ToFrame(ms[0])], if last then [Close] else [];
    assert (head + Datas(ms[1..])) + tail == head + (Datas(ms[1..]) + tail);
  }

  lemma DatasHead(ms: seq<Msg>)
    requires ms != []
    ensures Datas(ms) == [ToFrame(ms[0])] + Datas(ms[1..])
  {
  }

  ghost predicate HeadOk(s: Channel)
    requires s.down != [] && s.b.landed <= |s.p.fwd|
  {
    var f, rest := s.down[0], s.down[1..];
    var last := s.p.phone == Gone && !s.b.ended;
    match f
    case Open => s.p.announced && !s.b.made && rest == Bracket(false, s.p.fwd[s.b.landed..], last)
    case Data(_, _) => s.b.landed < |s.p.fwd| && s.b.made && FromFrame(f) == s.p.fwd[s.b.landed]
                       && rest == Bracket(false, s.p.fwd[s.b.landed + 1..], last)
    case Close => s.b.landed == |s.p.fwd| && last && (s.p.announced ==> s.b.made) && rest == []
    case Ping => false
  }

  /** The next frame for the bridge is the open, or the next data frame, or after all data the close. */
  lemma NextDown(s: Channel)
    requires DownOk(s) && s.down != []
    ensures HeadOk(s)
  {
    var ms := s.p.fwd[s.b.landed..];
    var last := s.p.phone == Gone && !s.b.ended;
    BracketOpen(ms, last);
    if ms == [] {
      BracketBare(ms, last);
    } else {
      BracketData(ms, last);
      assert ms[1..] == s.p.fwd[s.b.landed + 1..] && ms[0] == s.p.fwd[s.b.landed];
    }
  }

  lemma DemuxPopKeeps(s: Channel)
    requires Inv(s) && Enabled(s, DemuxPop)
    ensures Inv(Step(s, DemuxPop))
  {
    hide Step, PhoneOk, MapsOk, ReadOk, UpOk, HeadOk;
    NextDown(s);
    DemuxPopDown(s);
    DemuxPopMaps(s);
    DemuxPopRead(s);
    DemuxPopRest(s);
  }

  lemma DemuxPopDown(s: Channel)
    requires DownOk(s) && Enabled(s, DemuxPop) && HeadOk(s)
    ensures DownOk(Step(s, DemuxPop))
  {
    hide Bracket;
    var t := Step(s, DemuxPop);
    assert t.down == s.down[1..] && t.p == s.p;
    assert s.p.fwd[|s.p.fwd|..] == [];
    BracketNone();
  }

  lemma BracketNone()
    ensures Bracket(false, [], false) == []
  {
  }

  lemma DemuxPopMaps(s: Channel)
    requires s.b.landed <= |s.p.fwd| && MapsOk(s) && Enabled(s, DemuxPop) && HeadOk(s) && (!s.p.announced ==> !s.b.made)
    requires s.b.ended ==> s.p.phone == Gone
    requires s.p.phone == Gone && s.b.ended ==> s.down == []
    requires s.p.announced && s.b.ended ==> s.b.made
    ensures MapsOk(Step(s, DemuxPop))
  {
  }

  lemma DemuxPopRead(s: Channel)
    requires s.b.landed <= |s.p.fwd| && ReadOk(s) && Enabled(s, DemuxPop) && HeadOk(s)
    requires !s.b.made ==> s.b.landed == 0
    ensures ReadOk(Step(s, DemuxPop))
  {
  }

  lemma DemuxPopRest(s: Channel)
    requires PhoneOk(s) && UpOk(s) && Enabled(s, DemuxPop)
    ensures PhoneOk(Step(s, DemuxPop)) && UpOk(Step(s, DemuxPop))
  {
    var t := Step(s, DemuxPop);
    assert t.p == s.p && t.r == s.r && t.up == s.up && t.loop == s.loop && t.b.wrote == s.b.wrote;
  }

  lemma ConnReadKeeps(s: Channel)
    requires Inv(s) && Enabled(s, ConnRead)
    ensures Inv(Step(s, ConnRead))
  {
    hide Step, DownOk, PhoneOk, MapsOk, ReadOk, UpOk;
    ConnReadRead(s);
    ConnReadRest(s);
  }

  lemma ConnReadRead(s: Channel)
    requires ReadOk(s) && Enabled(s, ConnRead)
    ensures ReadOk(Step(s, ConnRead))
  {
    var t := Step(s, ConnRead);
    assert s.b.inbox == [s.b.inbox[0]] + s.b.inbox[1..];
    assert t.b.yielded == s.b.yielded + [s.b.inbox[0]] && t.b.inbox == s.b.inbox[1..] && t.b.got == s.b.got;
  }

  lemma ConnReadRest(s: Channel)
    requires DownOk(s) && PhoneOk(s) && MapsOk(s) && UpOk(s) && Enabled(s, ConnRead)
    ensures var t := Step(s, ConnRead); DownOk(t) && PhoneOk(t) && MapsOk(t) && UpOk(t)
  {
    hide DownOk, PhoneOk, UpOk;
    var t := Step(s, ConnRead);
    assert t == s.(b := t.b) && t.b == s.b.(yielded := t.b.yielded, inbox := t.b.inbox);
    DownSame(s, t);
    PhoneSame(s, t);
    UpSame(s, t);
  }

  lemma ConnKeeps(s: Channel, e: Event)
    requires Inv(s) && Enabled(s, e) && (e.ConnCheck? || e.ConnAbort?)
    ensures Inv(Step(s, e))
  {
    hide DownOk, PhoneOk, ReadOk, UpOk;
    var t := Step(s, e);
    assert t == s.(b := t.b) && t.b == s.b.(writer := t.b.writer);
    DownSame(s, t);
    PhoneSame(s, t);
    ReadSame(s, t);
    UpSame(s, t);
  }

  lemma CloseKeeps(s: Channel, e: Event)
    requires Inv(s) && Enabled(s, e) && (e.ConnClose? || e.CloseDelete?)
    ensures Inv(Step(s, e))
  {
    hide Step, DownOk, PhoneOk, MapsOk, ReadOk, UpOk;
    CloseMaps(s, e);
    CloseRest(s, e);
  }

  lemma CloseMaps(s: Channel, e: Event)
    requires MapsOk(s) && Enabled(s, e) && (e.ConnClose? || e.CloseDelete?)
    ensures MapsOk(Step(s, e))
  {
    var t := Step(s, e);
    assert t == s.(b := t.b) && t.b == s.b.(once := t.b.once, inMap := t.b.inMap);
  }

  lemma CloseRest(s: Channel, e: Event)
    requires DownOk(s) && PhoneOk(s) && ReadOk(s) && UpOk(s) && Enabled(s, e) && (e.ConnClose? || e.CloseDelete?)
    ensures var t := Step(s, e); DownOk(t) && PhoneOk(t) && ReadOk(t) && UpOk(t)
  {
    hide Step, DownOk, PhoneOk, ReadOk, UpOk;
    var t := Step(s, e);
    CloseShape(s, e);
    DownSame(s, t);
    PhoneSame(s, t);
    ReadSame(s, t);
    UpSame(s, t);
  }

  lemma CloseShape(s: Channel, e: Event)
    requires Enabled(s, e) && (e.ConnClose? || e.CloseDelete?)
    ensures var t := Step(s, e);
            t == s.(b := t.b) && t.b == s.b.(once := t.b.once, inMap := t.b.inMap) && (t.b.inMap ==> s.b.inMap)
  {
  }

  lemma CloseWriteKeeps(s: Channel)
    requires Inv(s) && Enabled(s, CloseWrite)
    ensures Inv(Step(s, CloseWrite))
  {
    hide Msgs;
    MsgsAppend(s.up, Close);
    var t := Step(s, CloseWrite);
    assert t == s.(b := s.b.(once := Over, closed := true), up := s.up + [Close]);
  }

  lemma ConnWriteKeeps(s: Channel)
    requires Inv(s) && Enabled(s, ConnWrite)
    ensures Inv(Step(s, ConnWrite))
  {
    ConnWriteUp(s);
    ConnWriteRest(s);
  }

  lemma ConnWriteRest(s: Channel)
    requires DownOk(s) && PhoneOk(s) && ReadOk(s) && MapsOk(s) && Enabled(s, ConnWrite)
    ensures var t := Step(s, ConnWrite); DownOk(t) && PhoneOk(t) && ReadOk(t) && MapsOk(t)
  {
    hide DownOk, PhoneOk, ReadOk;
    MsgsAppend(s.up, ToFrame(s.b.writer.value));
    var t := Step(s, ConnWrite);
    assert t == s.(b := t.b, up := t.up) && t.b == s.b.(writer := None, wrote := t.b.wrote);
    DownSame(s, t);
    PhoneSame(s, t);
    ReadSame(s, t);
  }

  lemma ConnWriteUp(s: Channel)
    requires UpOk(s) && Enabled(s, ConnWrite)
    ensures UpOk(Step(s, ConnWrite))
  {
    var m := s.b.writer.value;
    var wrote := s.b.wrote + [m];
    MsgsAppend(s.up, ToFrame(m));
    assert wrote[s.r.popped..] == s.b.wrote[s.r.popped..] + [m];
    assert wrote[..|s.r.toPhone|] == s.b.wrote[..|s.r.toPhone|];
  }

  lemma LoopKeeps(s: Channel, e: Event)
    requires Inv(s) && Enabled(s, e) && (e.LoopWrite? || e.LoopFails? || e.LoopCancel?)
    ensures Inv(Step(s, e))
  {
    hide Step, DownOk, PhoneOk, ReadOk;
    LoopMaps(s, e);
    LoopUp(s, e);
    LoopRest(s, e);
  }

  lemma LoopMaps(s: Channel, e: Event)
    requires MapsOk(s) && (s.loop.Forward? ==> s.b.made)
    requires Enabled(s, e) && (e.LoopWrite? || e.LoopFails? || e.LoopCancel?)
    ensures MapsOk(Step(s, e))
  {
    var t := Step(s, e);
    assert t == s.(r := t.r, loop := t.loop);
  }

  lemma LoopUp(s: Channel, e: Event)
    requires UpOk(s) && Enabled(s, e) && (e.LoopWrite? || e.LoopFails? || (e.LoopCancel? && !s.r.held))
    ensures UpOk(Step(s, e))
  {
    var t := Step(s, e);
    assert t == s.(r := t.r, loop := t.loop) && t.r.popped == s.r.popped;
  }

  /** The relay's read loop touches neither the phone nor the bridge. */
  lemma LoopRest(s: Channel, e: Event)
    requires DownOk(s) && PhoneOk(s) && ReadOk(s) && Enabled(s, e)
    requires e.LoopPop? || e.LoopWrite? || e.LoopFails? || e.LoopCancel?
    ensures var t := Step(s, e); DownOk(t) && PhoneOk(t) && ReadOk(t)
  {
    hide Step, DownOk, PhoneOk, ReadOk;
    var t := Step(s, e);
    LoopShape(s, e);
    DownSame(s, t);
    PhoneSame(s, t);
    ReadSame(s, t);
  }

  lemma LoopShape(s: Channel, e: Event)
    requires Enabled(s, e) && (e.LoopPop? || e.LoopWrite? || e.LoopFails? || e.LoopCancel?)
    ensures var t := Step(s, e); t.p == s.p && t.b == s.b && t.down == s.down && t.demux == s.demux
  {
  }

  /** The next frame for the relay: the next message written, or the one close. */
  lemma NextUp(s: Channel)
    requires UpOk(s) && s.up != []
    ensures var f, rest := s.up[0], s.up[1..];
            && (f.Data? ==> s.r.popped < |s.b.wrote| && FromFrame(f) == s.b.wrote[s.r.popped])
            && Msgs(rest) == s.b.wrote[if f.Data? then s.r.popped + 1 else s.r.popped..]
            && Closes(s.up) == Closes(rest) + if f == Close then 1 else 0
  {
    var f, rest := s.up[0], s.up[1..];
    if f.Data? {
      assert Msgs(s.up) == [FromFrame(f)] + Msgs(rest);
    }
  }

  lemma LoopPopKeeps(s: Channel)
    requires Inv(s) && Enabled(s, LoopPop)
    ensures Inv(Step(s, LoopPop))
  {
    hide Step, DownOk, PhoneOk, MapsOk, ReadOk, UpOk;
    NextUp(s);
    LoopPopMaps(s);
    LoopPopUp(s);
    LoopRest(s, LoopPop);
  }

  lemma LoopPopMaps(s: Channel)
    requires MapsOk(s) && Enabled(s, LoopPop) && Closes(s.up) == Closes(s.up[1..]) + if s.up[0] == Close then 1 else 0
    ensures MapsOk(Step(s, LoopPop))
  {
  }

  lemma LoopPopUp(s: Channel)
    requires UpOk(s) && Enabled(s, LoopPop)
    requires var f := s.up[0];
             && (f.Data? ==> s.r.popped < |s.b.wrote| && FromFrame(f) == s.b.wrote[s.r.popped])
             && Msgs(s.up[1..]) == s.b.wrote[if f.Data? then s.r.popped + 1 else s.r.popped..]
    ensures UpOk(Step(s, LoopPop))
  {
    var t := Step(s, LoopPop);
    assert t.up == s.up[1..] && t.b == s.b && t.r.toPhone == s.r.toPhone;
    assert t.r.popped == if s.up[0].Data? then s.r.popped + 1 else s.r.popped;
  }

  lemma Disabled(s: Channel, e: Event)
    requires !Enabled(s, e)
    ensures Step(s, e) == s
  {
  }

  lemma StepKeeps(s: Channel, e: Event)
    requires Inv(s)
    ensures Inv(Step(s, e))
  {
    hide Step, Inv;
    if !Enabled(s, e) {
      Disabled(s, e);
    } else {
      match e
      case Admit => StartKeeps(s, e);
      case PhoneSends(m) => PhoneSendsKeeps(s, m);
      case WriteOpen => StartKeeps(s, e);
      case OpenFails => StartKeeps(s, e);
      case PhoneRead => PhoneKeeps(s, e);
      case Quit => PhoneKeeps(s, e);
      case Forget => PhoneKeeps(s, e);
      case WriteClose => PhoneKeeps(s, e);
      case WriteData => WriteDataKeeps(s);
      case DemuxPop => DemuxPopKeeps(s);
      case DemuxPush => DemuxPushKeeps(s);
      case DemuxClose => DemuxKeeps(s, e);
      case DemuxResume => DemuxKeeps(s, e);
      case DemuxFinish => DemuxKeeps(s, e);
      case ConnRead => ConnReadKeeps(s);
      case ConnCheck(_) => ConnKeeps(s, e);
      case ConnWrite => ConnWriteKeeps(s);
      case ConnAbort => ConnKeeps(s, e);
      case ConnClose => CloseKeeps(s, e);
      case CloseDelete => CloseKeeps(s, e);
      case CloseWrite => CloseWriteKeeps(s);
      case LoopPop => LoopPopKeeps(s);
      case LoopWrite => LoopKeeps(s, e);
      case LoopFails => LoopKeeps(s, e);
      case LoopCancel => LoopKeeps(s, e);
    }
  }

  // ---------------------------------------------------------------- what the invariant says

  /** No frame of the channel is in flight and none of its goroutines is in the middle of anything. */
  predicate Quiet(s: Channel) {
    && s.down == [] && s.up == [] && s.demux.Idle? && s.loop.Waiting?
    && (s.p.phone == Unborn || s.p.phone == Gone || (s.p.phone == Running && !s.r.cancelled))
    && (s.b.once == Fresh || s.b.once == Over)
  }

  /** The phone is gone, both ends have read each other's last frame, and the tunnel is through with the channel. */
  predicate Retired(s: Channel) {
    && s.p.phone == Gone && s.b.ended && s.b.writer.None? && (s.b.once == Over || (s.b.once == Fresh && !s.b.made))
    && s.down == [] && s.up == [] && s.demux.Idle? && s.loop.Waiting?
  }

  /** No step of the channel but the reading of what the inbox holds, and the phone talking to a closed socket. */
  ghost predicate Finished(s: Channel) {
    forall e :: Enabled(s, e) ==> e.PhoneSends? || e.ConnRead?
  }

  lemma RetiredFinishes(s: Channel)
    requires Retired(s)
    ensures Finished(s)
  {
  }

  lemma Blocked(s: Channel, e: Event)
    requires Finished(s) && !e.PhoneSends? && !e.ConnRead?
    ensures !Enabled(s, e)
  {
  }

  lemma NobodyWrites(s: Channel)
    requires Finished(s)
    ensures s.p.phone == Gone && s.b.writer.None? && s.b.once != Deleting && s.b.once != Writing
    ensures s.b.once == Fresh ==> !s.b.made
  {
    hide Finished;
    Blocked(s, Admit);
    Blocked(s, WriteOpen);
    Blocked(s, Quit);
    Blocked(s, Forget);
    Blocked(s, WriteClose);
    Blocked(s, CloseDelete);
    Blocked(s, CloseWrite);
    Blocked(s, ConnClose);
    Blocked(s, ConnWrite);
  }

  lemma NobodyReads(s: Channel)
    requires Finished(s) && s.b.once != Deleting && s.b.once != Writing
    ensures s.demux.Idle? && s.loop.Waiting? && s.down == [] && s.up == []
  {
    hide Finished;
    Blocked(s, DemuxPush);
    Blocked(s, DemuxClose);
    Blocked(s, DemuxResume);
    Blocked(s, DemuxFinish);
    Blocked(s, DemuxPop);
    Blocked(s, LoopWrite);
    Blocked(s, LoopCancel);
    Blocked(s, LoopPop);
  }

  lemma FinishedRetires(s: Channel)
    requires DownOk(s) && Finished(s)
    ensures Retired(s)
  {
    hide DownOk, Finished;
    NobodyWrites(s);
    NobodyReads(s);
    CloseRead(s);
  }

  lemma CloseRead(s: Channel)
    requires DownOk(s) && s.p.phone == Gone && s.down == []
    ensures s.b.ended
  {
    var first, ms, last := s.p.announced && !s.b.made, s.p.fwd[s.b.landed..], !s.b.ended;
    assert |Bracket(first, ms, last)| >= if last then 1 else 0;
  }

  /** A channel is retired exactly when nothing can happen to it any more. */
  lemma RetiredIff(s: Channel)
    requires DownOk(s)
    ensures Retired(s) <==> Finished(s)
  {
    if Retired(s) { RetiredFinishes(s); }
    if Finished(s) { FinishedRetires(s); }
  }

  /** Where the two maps differ, an open or a close is pending or in flight. */
  lemma DifferenceExplained(s: Channel)
    requires Inv(s)
    ensures && (s.r.held && !s.b.inMap ==>
                  || s.p.phone == Opening || s.p.phone == Leaving || Open in s.down
                  || s.b.once == Writing || Close in s.up)
            && (s.b.inMap && !s.r.held ==>
                  s.p.phone == Running || s.p.phone == Leaving || s.p.phone == Closing || Close in s.down)
            && (s.b.inMap && !s.r.held && s.p.phone == Running ==> s.r.cancelled || s.loop.Cancelling?)
            && (Quiet(s) ==> s.r.held == s.b.inMap)
  {
    if s.p.announced && !s.b.made {
      assert s.down[0] == Open;
    }
    if s.p.phone == Gone && !s.b.ended {
      assert s.down[|s.down| - 1] == Close;
    }
    CloseIn(s.up);
  }

  /** Everything the phone's goroutine ever wrote toward the bridge. */
  function Written(s: Channel): seq<Frame> {
    Bracket(s.p.announced, s.p.fwd, s.p.phone == Gone)
  }

  lemma WrittenGrows(s: Channel, e: Event)
    requires DownOk(s) && PhoneOk(s) && Enabled(s, e)
    ensures Written(Step(s, e)) == Put(Written(s), Down(s, e))
  {
    var p, t := s.p, Step(s, e).p;
    match e
    case WriteOpen => BracketOpens();
    case WriteData => BracketGrows(p.fwd, p.pending.value);
    case WriteClose => BracketCloses(p.announced, p.fwd);
    case _ => assert t.announced == p.announced && t.fwd == p.fwd && (t.phone == Gone <==> p.phone == Gone);
  }

  lemma BracketOpens()
    ensures Bracket(true, [], false) == Bracket(false, [], false) + [Open]
  {
  }

  lemma BracketGrows(ms: seq<Msg>, m: Msg)
    ensures Bracket(true, ms + [m], false) == Bracket(true, ms, false) + [ToFrame(m)]
  {
    assert Datas(ms + [m]) == Datas(ms) + [ToFrame(m)];
  }

  lemma BracketCloses(first: bool, ms: seq<Msg>)
    ensures Bracket(first, ms, true) == Bracket(first, ms, false) + [Close]
  {
  }

  /** What Read has returned is a prefix of what the phone sent, kinds included, and what the phone has been
      given is a prefix of what the tunnel wrote. */
  lemma NoGaps(s: Channel)
    requires Inv(s)
    ensures s.b.yielded <= s.p.sent && s.r.toPhone <= s.b.wrote
  {
  }
}
