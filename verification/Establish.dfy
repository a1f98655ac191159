/**
 * From the handshake to the stream: what the world of Handshake leaves behind is a starting state of Stream, in
 * both directions of every connection, and no two connections share a key.
 */
module Establish {
  import opened Bytes
  import opened Envelope
  import opened Handshake
  import opened Reading
  import opened Transcript
  import S = Stream

  /** Two acceptances that drew different ephemerals or nonces have four different keys. */
  lemma KeysAreFresh(cr: Crypto, p: PendingState, eph: nat, q: PendingState, eph': nat)
    requires Ideal(cr) && KeysApart(cr) && AcceptOk(cr, p, eph) && AcceptOk(cr, q, eph')
    requires p.accept.bridgeEph != q.accept.bridgeEph || p.accept.nonceB != q.accept.nonceB
    requires p.transcript == q.transcript ==>
               Preimage(p.hello, p.bridgeID, p.accept) == Preimage(q.hello, q.bridgeID, q.accept)
    ensures p.keys.p2b != p.keys.b2p && q.keys.p2b != q.keys.b2p
    ensures {p.keys.p2b, p.keys.b2p} !! {q.keys.p2b, q.keys.b2p}
  {
    AcceptIsShort(cr, p, eph);
    AcceptIsShort(cr, q, eph');
    if p.transcript == q.transcript {
      ShortSideDecides(p.hello, p.bridgeID, p.accept, q.hello, q.bridgeID, q.accept);
    }
    var a, b := cr.agree(eph, p.hello.phoneEph), cr.agree(eph', q.hello.phoneEph);
    assert p.keys == cr.derive(a.value, p.transcript) && q.keys == cr.derive(b.value, q.transcript);
  }

  /** Nobody but the handshake has sealed under a key. */
  ghost predicate Untouched(events: seq<Event>, key: seq<byte>) {
    forall i :: 0 <= i < |events| && events[i].Seals? ==> events[i].sealing.key != key
  }

  /** Sealed by a phone's Finish: under some phone-to-bridge key, as frame 1. */
  ghost predicate ByFinish(cr: Crypto, e: Sealing) {
    exists shared, transcript, cipher :: IsConfirm(cr, e, shared, transcript, cipher)
  }

  ghost predicate IsConfirm(cr: Crypto, e: Sealing, shared: seq<byte>, transcript: seq<byte>, cipher: seq<byte>) {
    e == Entry(cr.derive(shared, transcript).p2b, 1, cipher)
  }

  lemma {:induction false} OnlyConfirms(cr: Crypto, honest: set<seq<byte>>, events: seq<Event>, key: seq<byte>)
    requires Untouched(events, key)
    ensures forall e :: e in Run(cr, honest, events).log && e.key == key ==> ByFinish(cr, e)
  {
    if events == [] {
    } else {
      var init, last := events[..|events| - 1], events[|events| - 1];
      OnlyConfirms(cr, honest, init, key);
      var w := Run(cr, honest, init);
      forall e | e in Step(cr, honest, w, last).log && e !in w.log && e.key == key
        ensures ByFinish(cr, e)
      {
        SealedNow(cr, honest, w, last, e);
      }
    }
  }

  lemma SealedNow(cr: Crypto, honest: set<seq<byte>>, w: World, a: Event, e: Sealing)
    requires e in Step(cr, honest, w, a).log && e !in w.log && (a.Seals? ==> a.sealing != e)
    ensures ByFinish(cr, e)
  {
    assert a.PhoneFinishes?;
    var shared := cr.agree(a.session.eph, a.accept.bridgeEph);
    var derived := PhoneDerives(cr, w.signed, a.session, a.accept, a.bridge);
    assert IsConfirm(cr, e, shared.value, derived.transcript, a.cipher);
  }

  /** After any run of the world both directions of an accepted connection can start: phone to bridge from
      counter 1, the confirm, and bridge to phone from 0. Only secrecy is assumed of the two keys. */
  lemma {:induction false} StreamsCanStart(
    cr: Crypto, honest: set<seq<byte>>, events: seq<Event>, p: PendingState, eph: nat, json: Codec)
    requires KeysApart(cr) && AcceptOk(cr, p, eph) && Good(json)
    requires Untouched(events, p.keys.p2b) && Untouched(events, p.keys.b2p)
    ensures var log := Run(cr, honest, events).log;
            && S.Usable(S.Config(p.keys.p2b, json, 1, log)) && S.Usable(S.Config(p.keys.b2p, json, 0, log))
            && forall e :: e in log ==> e.key != p.keys.b2p
  {
    var log := Run(cr, honest, events).log;
    OnlyConfirms(cr, honest, events, p.keys.p2b);
    OnlyConfirms(cr, honest, events, p.keys.b2p);
    var c := S.Config(p.keys.p2b, json, 1, log);
    forall e | e in log && e.key == p.keys.p2b
      ensures S.Early(c, e)
    {
      var shared, transcript, cipher :| IsConfirm(cr, e, shared, transcript, cipher);
      assert e == Entry(c.key, 1, cipher);
    }
    var agreed := cr.agree(eph, p.hello.phoneEph);
    assert p.keys == cr.derive(agreed.value, p.transcript);
    forall e | ByFinish(cr, e)
      ensures e.key != p.keys.b2p
    {
      ConfirmKey(cr, e, agreed.value, p.transcript);
    }
  }

  /** No confirm travels under a bridge-to-phone key. */
  lemma ConfirmKey(cr: Crypto, e: Sealing, a: seq<byte>, t: seq<byte>)
    requires KeysApart(cr) && ByFinish(cr, e)
    ensures e.key != cr.derive(a, t).b2p
  {
    var shared, transcript, cipher :| IsConfirm(cr, e, shared, transcript, cipher);
    assert cr.derive(shared, transcript).p2b != cr.derive(a, t).b2p;
  }
}
