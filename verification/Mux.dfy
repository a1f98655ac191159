/**
 * relayMux and relayChannel (internal/bridge/relay_client.go) as objects: the map of live channels, each
 * channel's bounded inbox and once-only done, all updated in place.
 *
 * A method here runs without interruption; Link and Relay interleave its lock sections. That it is made of
 * the steps taken there is what the Plays lemmas and the Shows clauses say: where the objects show a
 * channel of the machine before the call, they show it after the call's steps.
 */
module Mux {
  import opened Bytes
  import opened Link

  class RelayChannel {
    const ch: nat
    var inbox: seq<Msg>
    var done: bool

    constructor (ch: nat)
      ensures this.ch == ch && inbox == [] && !done
    {
      this.ch := ch;
      inbox, done := [], false;
    }

    /** rc.once: whoever comes first closes done. */
    method Finish() returns (first: bool)
      modifies this`done
      ensures done && first == !old(done)
    {
      first := !done;
      done := true;
    }

    /** Several arms of the select may be ready; `preferInbox` is the runtime's choice between the inbox and the
        two that fail, done and a cancelled context. */
    method Read(cancelled: bool, preferInbox: bool) returns (m: Option<Msg>)
      modifies this`inbox
      ensures m.Some? ==> old(inbox) != [] && m.value == old(inbox)[0] && inbox == old(inbox)[1..]
      ensures m.None? ==> inbox == old(inbox) && (done || cancelled || inbox == [])
      ensures old(inbox) != [] && (preferInbox || !(done || cancelled)) ==> m.Some?
    {
      if inbox != [] && (preferInbox || !(done || cancelled)) {
        m := Some(inbox[0]);
        inbox := inbox[1..];
      } else {
        m := None;
      }
    }
  }

  datatype Sent = Sent(ch: nat, frame: Frame)

  /** The steps of each method, for a channel in state v. */
  function OpenSteps(v: Channel): Channel {
    Step(v, DemuxPop)
  }

  function RemoteClosedSteps(v: Channel): Channel {
    if v.b.inMap then Step(Step(v, DemuxPop), DemuxFinish) else Step(v, DemuxPop)
  }

  function CloseSteps(v: Channel): Channel {
    Step(Step(Step(v, ConnClose), CloseDelete), CloseWrite)
  }

  function DeliverSteps(v: Channel): Channel {
    var pushed := Step(Step(v, DemuxPop), DemuxPush);
    if pushed.demux.Backlog? then Step(Step(Step(Step(pushed, DemuxClose), CloseDelete), CloseWrite), DemuxResume)
    else if v.b.inMap then pushed
    else Step(v, DemuxPop)
  }

  function WriteSteps(v: Channel, m: Msg, aborted: bool): Channel {
    Step(Step(v, ConnCheck(m)), if aborted then ConnAbort else ConnWrite)
  }

  /** The last two steps of Close. */
  lemma DeleteAndWrite(v: Channel)
    requires v.b.once == Deleting
    ensures Step(Step(v, CloseDelete), CloseWrite)
         == v.(b := v.b.(once := Over, inMap := false, closed := true), up := v.up + [Frame.Close])
  {
    assert Step(v, CloseDelete) == v.(b := v.b.(once := Writing, inMap := false));
  }

  /** Close is three steps, none of them refused: it ends the channel and writes one close. */
  lemma ClosePlays(v: Channel)
    requires v.b.made && v.b.once == Fresh
    ensures CloseSteps(v) == v.(b := v.b.(once := Over, inMap := false, closed := true), up := v.up + [Frame.Close])
  {
    var x := Step(v, ConnClose);
    assert x == v.(b := v.b.(once := Deleting));
    DeleteAndWrite(x);
  }

  /** The same three steps taken by the read loop for a full inbox. */
  lemma BacklogPlays(v: Channel)
    requires v.b.made && v.b.once == Fresh && v.demux.Backlog?
    ensures Step(Step(Step(Step(v, DemuxClose), CloseDelete), CloseWrite), DemuxResume)
         == v.(b := v.b.(once := Over, inMap := false, closed := true), up := v.up + [Frame.Close], demux := Idle)
  {
    var x := Step(v, DemuxClose);
    assert x == v.(b := v.b.(once := Deleting));
    DeleteAndWrite(x);
  }

  lemma WritePlays(v: Channel, m: Msg, aborted: bool)
    requires v.b.made && v.b.once == Fresh && v.b.writer.None?
    ensures WriteSteps(v, m, aborted)
         == if aborted then v else v.(b := v.b.(wrote := v.b.wrote + [m]), up := v.up + [ToFrame(m)])
  {
    assert Step(v, ConnCheck(m)) == v.(b := v.b.(writer := Some(m)));
  }

  lemma PushPlays(v: Channel)
    requires v.demux.Idle? && v.down != [] && v.down[0].Data? && v.b.inMap
    ensures var t, m := Step(Step(v, DemuxPop), DemuxPush), FromFrame(v.down[0]);
            && t.down == v.down[1..] && t.up == v.up
            && if |v.b.inbox| < INBOX then
                 t.demux.Idle? && t.b == v.b.(landed := v.b.landed + 1, inbox := v.b.inbox + [m], got := v.b.got + [m])
               else t.demux.Backlog? && t.b == v.b.(landed := v.b.landed + 1)
  {
    var x := Step(v, DemuxPop);
    assert x.demux == Deliver(FromFrame(v.down[0])) && x.b == v.b.(landed := v.b.landed + 1) && x.up == v.up;
  }

  /** A delivery puts the frame into the inbox, or ends the channel when it is full. */
  lemma DeliverPlays(v: Channel)
    requires v.demux.Idle? && v.down != [] && v.down[0].Data? && v.b.made && v.b.inMap && v.b.once == Fresh
    ensures var t, m := DeliverSteps(v), FromFrame(v.down[0]);
            && t.demux.Idle? && t.down == v.down[1..]
            && if |v.b.inbox| < INBOX then
                 t.b == v.b.(landed := v.b.landed + 1, inbox := v.b.inbox + [m], got := v.b.got + [m]) && t.up == v.up
               else
                 && t.b == v.b.(landed := v.b.landed + 1, once := Over, inMap := false, closed := true)
                 && t.up == v.up + [Frame.Close]
  {
    PushPlays(v);
    var x := Step(Step(v, DemuxPop), DemuxPush);
    if x.demux.Backlog? { BacklogPlays(x); }
  }

  class RelayMux {
    var channels: map<nat, RelayChannel>
    var written: seq<Sent>

    constructor ()
      ensures channels == map[] && written == []
    {
      channels, written := map[], [];
    }

    /** Every channel sits in the map under its own number, still open, with a bounded inbox. */
    ghost predicate Valid()
      reads this, channels.Values
    {
      forall c :: c in channels ==> channels[c].ch == c && !channels[c].done && |channels[c].inbox| <= INBOX
    }

    /** The objects are the state v of channel ch in the machine of Link. */
    ghost predicate Shows(v: Channel, ch: nat)
      reads this, channels.Values
    {
      && v.demux.Idle? && (v.b.inMap <==> ch in channels)
      && (ch in channels ==> v.b.made && v.b.once == Fresh && channels[ch].inbox == v.b.inbox)
    }

    method Open(ch: nat, ghost v: Channel) returns (rc: RelayChannel)
      requires Valid()
      modifies this`channels, channels.Values`done
      ensures Valid() && fresh(rc) && channels == old(channels)[ch := rc] && rc.inbox == []
      ensures ch in old(channels) ==> old(channels)[ch].done
      ensures forall c :: c in old(channels) && c != ch ==> !old(channels)[c].done
      ensures old(Shows(v, ch)) && v.down != [] && v.down[0] == Frame.Open && v.b.inbox == [] && v.b.once == Fresh ==>
                Shows(OpenSteps(v), ch)
    {
      rc := new RelayChannel(ch);
      if ch in channels {
        var _ := channels[ch].Finish();
      }
      channels := channels[ch := rc];
    }

    method RemoteClosed(ch: nat, ghost v: Channel)
      requires Valid()
      modifies this`channels, channels.Values`done
      ensures Valid() && channels == old(channels) - {ch}
      ensures ch in old(channels) ==> old(channels)[ch].done
      ensures old(Shows(v, ch)) && v.down != [] && v.down[0] == Frame.Close ==>
                var t := RemoteClosedSteps(v); Shows(t, ch) && (v.b.inMap ==> t.b.once == Over)
    {
      if ch in channels {
        var rc := channels[ch];
        channels := channels - {ch};
        var _ := rc.Finish();
      }
    }

    /** relayChannel.Close: only the first close deletes, and only its own entry, and writes a frame. */
    method Close(rc: RelayChannel, ghost v: Channel)
      requires Valid()
      modifies this, rc`done
      ensures Valid() && rc.done
      ensures old(rc.done) ==> channels == old(channels) && written == old(written)
      ensures !old(rc.done) ==>
                && written == old(written) + [Sent(rc.ch, Frame.Close)]
                && channels == if rc.ch in old(channels) && old(channels)[rc.ch] == rc
                               then old(channels) - {rc.ch} else old(channels)
      ensures old(Shows(v, rc.ch)) && rc.ch in old(channels) && old(channels)[rc.ch] == rc ==>
                var t := CloseSteps(v); Shows(t, rc.ch) && t.b.once == Over && t.up == v.up + [Frame.Close]
    {
      if v.b.made && v.b.once == Fresh { ClosePlays(v); }
      var first := rc.Finish();
      if first {
        if rc.ch in channels && channels[rc.ch] == rc {
          channels := channels - {rc.ch};
        }
        written := written + [Sent(rc.ch, Frame.Close)];
      }
    }

    /** When the relay's socket is gone: every channel ends, and what its inbox holds can still be read. */
    method CloseAll()
      requires Valid()
      modifies this`channels, channels.Values`done
      ensures Valid() && channels == map[]
      ensures forall c :: c in old(channels) ==> old(channels)[c].done
    {
      var taken := channels;
      channels := map[];
      var left := taken.Keys;
      while left != {}
        invariant left <= taken.Keys && channels == map[]
        invariant forall c :: c in taken && c !in left ==> taken[c].done
        decreases left
      {
        var c :| c in left;
        var _ := taken[c].Finish();
        left := left - {c};
      }
    }

    /** A data frame goes to the end of its channel's inbox; a full inbox drops the channel, and with it
        this and every later message. */
    method DeliverFrame(ch: nat, kind: byte, payload: seq<byte>, ghost v: Channel)
      requires Valid()
      modifies this, if ch in channels then {channels[ch]} else {}
      ensures Valid()
      ensures ch !in old(channels) ==> channels == old(channels) && written == old(written)
      ensures ch in old(channels) ==>
                var rc, m := old(channels)[ch], Msg(kind == 0, payload);
                if old(|rc.inbox|) < 256 then
                  rc.inbox == old(rc.inbox) + [m] && !rc.done && channels == old(channels) && written == old(written)
                else
                  && rc.inbox == old(rc.inbox) && rc.done
                  && channels == old(channels) - {ch} && written == old(written) + [Sent(ch, Frame.Close)]
      ensures old(Shows(v, ch)) && v.down != [] && v.down[0] == Data(kind, payload) ==> Shows(DeliverSteps(v), ch)
    {
      ghost var shown := Shows(v, ch) && v.down != [] && v.down[0] == Data(kind, payload);
      if shown && v.b.inMap {
        DeliverPlays(v);
      }
      if ch in channels {
        var rc := channels[ch];
        var m := Msg(kind == 0, payload);
        if |rc.inbox| < INBOX {
          rc.inbox := rc.inbox + [m];
        } else {
          Close(rc, v);
        }
      }
    }

    /** Write refuses once done is closed; a text message travels as kind 0, a binary one as kind 1. `aborted` says
        that the channel or the context ended before the frame was written. */
    method WriteData(rc: RelayChannel, m: Msg, aborted: bool, ghost v: Channel) returns (ok: bool)
      requires Valid()
      modifies this`written
      ensures ok == (!rc.done && !aborted)
      ensures written == if ok then old(written) + [Sent(rc.ch, Data(if m.text then 0 else 1, m.data))]
                         else old(written)
      ensures Shows(v, rc.ch) && rc.ch in channels && channels[rc.ch] == rc && v.b.writer.None? ==>
                var t := WriteSteps(v, m, aborted);
                && ok == !aborted && Shows(t, rc.ch)
                && t.up == (if ok then v.up + [ToFrame(m)] else v.up)
                && t.b == (if ok then v.b.(wrote := v.b.wrote + [m]) else v.b)
    {
      hide WriteSteps;
      if v.b.made && v.b.once == Fresh && v.b.writer.None? { WritePlays(v, m, aborted); }
      if rc.done {
        return false;
      }
      if aborted {
        return false;
      }
      written := written + [Sent(rc.ch, Data(if m.text then 0 else 1, m.data))];
      return true;
    }
  }
}
