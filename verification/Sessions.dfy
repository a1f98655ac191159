/**
 * The relay's session registry (internal/relay/relay.go, serveBridge and Drain; internal/protocol/relay.go,
 * VerifyRelayAttach). Every lock section is one step; a bridge connection is named by a number. A
 * handler's deferred cleanup may run arbitrarily late, after its bridge was replaced or drained. Drain takes
 * all bridges out in its lock section, and tells them to stop one by one after it.
 */
module Sessions {
  import opened Bytes
  import opened Runs
  import H = Handshake

  const ATTACH := Ascii("attach")

  /** A bridge's answer to the challenge. */
  datatype Attach = Attach(t: seq<byte>, s: seq<byte>, k: seq<byte>, sig: seq<byte>)

  predicate VerifyAttach(cr: H.Crypto, signed: set<H.Signature>, a: Attach, nonce: seq<byte>) {
    && a.t == ATTACH && |a.k| == H.KEY_SIZE && |nonce| == H.NONCE_SIZE
    && cr.sessionID(a.k) == a.s
    && H.Verify(signed, a.k, H.LABEL_RELAY_ATTACH, nonce, a.sig)
  }

  // ---------------------------------------------------------------- the lock sections

  /** Cleanup removes an entry only if it is still the handler's own. */
  function Cleaned<T(==)>(sessions: map<seq<byte>, T>, id: seq<byte>, own: T): map<seq<byte>, T> {
    if id in sessions && sessions[id] == own then sessions - {id} else sessions
  }

  // ---------------------------------------------------------------- runs

  /** A registered bridge: its connection, the challenge it was sent, and its answer. */
  datatype Bridge = Bridge(conn: nat, nonce: seq<byte>, attach: Attach)

  /**
   * challenged: connections waiting to attach; order: every registration so far, in order; exited: handlers
   * that ran their cleanup; drained: bridges Drain took out; cancelled: bridges told to stop.
   */
  datatype World = World(
    signed: set<H.Signature>, challenged: map<nat, seq<byte>>, used: set<nat>, sessions: map<seq<byte>, nat>,
    order: seq<Bridge>, exited: set<nat>, drained: set<nat>, cancelled: set<nat>)

  datatype Action =
    | Sign(signature: H.Signature)
    | Challenge(opener: nat, nonce: seq<byte>)
    | Answer(from: nat, attach: Attach)
    | Exit(which: nat)
    | Drain
    | StopDrained(conn: nat)

  const EMPTY := World({}, map[], {}, map[], [], {}, {}, {})

  predicate Enabled(w: World, a: Action) {
    match a
    case Sign(_) => true
    case Challenge(conn, nonce) => conn !in w.used && |nonce| == H.NONCE_SIZE
    case Answer(from, _) => from in w.challenged
    case Exit(which) => which < |w.order| && w.order[which].conn !in w.exited
    case Drain => true
    case StopDrained(conn) => conn in w.drained
  }

  function Step(cr: H.Crypto, w: World, a: Action): World {
    if !Enabled(w, a) then w
    else
      match a
      case Sign(signature) => w.(signed := w.signed + {signature})
      case Challenge(conn, nonce) => w.(challenged := w.challenged[conn := nonce], used := w.used + {conn})
      case Answer(from, attach) =>
        var nonce := w.challenged[from];
        var waiting := map c | c in w.challenged && c != from :: w.challenged[c];
        if !VerifyAttach(cr, w.signed, attach, nonce) then w.(challenged := waiting)
        else
          w.(challenged := waiting, sessions := w.sessions[attach.s := from],
             order := w.order + [Bridge(from, nonce, attach)],
             cancelled := if attach.s in w.sessions then w.cancelled + {w.sessions[attach.s]} else w.cancelled)
      case Exit(which) =>
        var b := w.order[which];
        w.(sessions := Cleaned(w.sessions, b.attach.s, b.conn), exited := w.exited + {b.conn})
      case Drain =>
        w.(sessions := map[], drained := w.drained + w.sessions.Values)
      case StopDrained(conn) => w.(cancelled := w.cancelled + {conn})
  }

  function Stepper(cr: H.Crypto): (World, Action) -> World {
    (w, a) => Step(cr, w, a)
  }

  function Run(cr: H.Crypto, actions: seq<Action>): World {
    After(Stepper(cr), EMPTY, actions)
  }

  /** The last bridge to register for an id. */
  function Latest(order: seq<Bridge>, id: seq<byte>): Option<Bridge> {
    if order == [] then None
    else
      var b := order[|order| - 1];
      if b.attach.s == id then Some(b) else Latest(order[..|order| - 1], id)
  }

  ghost predicate Gone(w: World, conn: nat) {
    conn in w.exited || conn in w.drained
  }

  /** What the registry should say about an id. */
  ghost predicate EntryOk(w: World, id: seq<byte>) {
    match Latest(w.order, id)
    case None => id !in w.sessions
    case Some(b) => if Gone(w, b.conn) then id !in w.sessions else id in w.sessions && w.sessions[id] == b.conn
  }

  /** A registration that was verified, and whose bridge is the entry, has left, has been told to stop, or is one
      that Drain is about to tell. */
  ghost predicate BridgeOk(cr: H.Crypto, w: World, b: Bridge) {
    && b.conn in w.used && b.conn !in w.challenged
    && VerifyAttach(cr, w.signed, b.attach, b.nonce)
    && (b.conn in w.exited || b.conn in w.cancelled || b.conn in w.drained
        || (b.attach.s in w.sessions && w.sessions[b.attach.s] == b.conn))
  }

  /** Numbers name one connection each. */
  ghost predicate Distinct(order: seq<Bridge>) {
    forall i, k :: 0 <= i < k < |order| ==> order[i].conn != order[k].conn
  }

  ghost predicate Registered(order: seq<Bridge>, conn: nat) {
    exists i :: 0 <= i < |order| && order[i].conn == conn
  }

  ghost predicate Inv(cr: H.Crypto, w: World) {
    && Distinct(w.order)
    && (forall c :: c in w.challenged ==> c in w.used)
    && (forall i :: 0 <= i < |w.order| ==> BridgeOk(cr, w, w.order[i]))
    && (forall id :: EntryOk(w, id))
    && (forall c :: c in w.exited || c in w.drained ==> Registered(w.order, c))
  }

  ghost predicate LastFor(order: seq<Bridge>, id: seq<byte>, i: int) {
    0 <= i < |order| && order[i].attach.s == id && forall k :: i < k < |order| ==> order[k].attach.s != id
  }

  lemma {:induction false} LatestIs(order: seq<Bridge>, id: seq<byte>)
    ensures match Latest(order, id)
            case None => forall i :: 0 <= i < |order| ==> order[i].attach.s != id
            case Some(b) =>
              b.attach.s == id && exists i :: LastFor(order, id, i) && order[i] == b
  {
    if order != [] {
      var init, last := order[..|order| - 1], order[|order| - 1];
      LatestIs(init, id);
      if last.attach.s == id {
        assert LastFor(order, id, |order| - 1);
      } else if i :| LastFor(init, id, i) {
        assert LastFor(order, id, i);
      }
    }
  }

  lemma LatestAfter(order: seq<Bridge>, b: Bridge, id: seq<byte>)
    ensures Latest(order + [b], id) == if b.attach.s == id then Some(b) else Latest(order, id)
  {
    assert (order + [b])[..|order|] == order;
  }

  lemma AnswerEntries(cr: H.Crypto, w: World, from: nat, attach: Attach)
    requires Enabled(w, Answer(from, attach)) && forall c :: c in w.exited || c in w.drained ==> c != from
    requires VerifyAttach(cr, w.signed, attach, w.challenged[from]) && forall id :: EntryOk(w, id)
    ensures forall id :: EntryOk(Step(cr, w, Answer(from, attach)), id)
  {
    var v := Step(cr, w, Answer(from, attach));
    forall id
      ensures EntryOk(v, id)
    {
      assert EntryOk(w, id);
      LatestAfter(w.order, Bridge(from, w.challenged[from], attach), id);
    }
  }

  lemma AnswerBridges(cr: H.Crypto, w: World, from: nat, attach: Attach)
    requires Enabled(w, Answer(from, attach)) && from in w.used
    requires VerifyAttach(cr, w.signed, attach, w.challenged[from])
    requires forall i :: 0 <= i < |w.order| ==> BridgeOk(cr, w, w.order[i])
    ensures var v := Step(cr, w, Answer(from, attach)); forall i :: 0 <= i < |v.order| ==> BridgeOk(cr, v, v.order[i])
  {
    var v := Step(cr, w, Answer(from, attach));
    forall i | 0 <= i < |v.order|
      ensures BridgeOk(cr, v, v.order[i])
    {
      assert i < |w.order| ==> v.order[i] == w.order[i] && BridgeOk(cr, w, w.order[i]);
    }
  }

  lemma AnswerKeeps(cr: H.Crypto, w: World, from: nat, attach: Attach)
    requires Inv(cr, w) && Enabled(w, Answer(from, attach)) && VerifyAttach(cr, w.signed, attach, w.challenged[from])
    ensures Inv(cr, Step(cr, w, Answer(from, attach)))
  {
    var v := Step(cr, w, Answer(from, attach));
    forall i | 0 <= i < |w.order|
      ensures w.order[i].conn != from
    {
      assert BridgeOk(cr, w, w.order[i]);
    }
    forall c | c in w.exited || c in w.drained
      ensures c != from && Registered(v.order, c)
    {
      var i :| 0 <= i < |w.order| && w.order[i].conn == c;
      assert v.order[i].conn == c;
    }
    AnswerEntries(cr, w, from, attach);
    AnswerBridges(cr, w, from, attach);
  }

  /** Exactly the handler's own entry goes, and only if it is still there. */
  lemma ExitKeeps(cr: H.Crypto, w: World, which: nat)
    requires Inv(cr, w) && Enabled(w, Exit(which))
    ensures Inv(cr, Step(cr, w, Exit(which)))
  {
    var v := Step(cr, w, Exit(which));
    var own := w.order[which];
    forall id
      ensures EntryOk(v, id)
    {
      assert EntryOk(w, id);
      OwnEntry(w, which, id);
    }
    forall i | 0 <= i < |v.order|
      ensures BridgeOk(cr, v, v.order[i])
    {
      assert BridgeOk(cr, w, w.order[i]);
    }
    assert Registered(w.order, own.conn);
  }

  /** Connections are unique, so the latest registration for an id is the handler's own only if it is that one. */
  lemma OwnEntry(w: World, which: nat, id: seq<byte>)
    requires Distinct(w.order) && which < |w.order|
    ensures Latest(w.order, id).Some? && Latest(w.order, id).value.conn == w.order[which].conn ==>
              Latest(w.order, id).value == w.order[which] && id == w.order[which].attach.s
  {
    LatestIs(w.order, id);
  }

  lemma DrainKeeps(cr: H.Crypto, w: World)
    requires Inv(cr, w)
    ensures Inv(cr, Step(cr, w, Drain))
  {
    var v := Step(cr, w, Drain);
    forall id
      ensures EntryOk(v, id)
    {
      assert EntryOk(w, id);
      assert id in w.sessions ==> w.sessions[id] in w.sessions.Values;
    }
    forall i | 0 <= i < |v.order|
      ensures BridgeOk(cr, v, v.order[i])
    {
      assert BridgeOk(cr, w, w.order[i]);
    }
    forall c | c in w.sessions.Values
      ensures Registered(w.order, c)
    {
      var id :| id in w.sessions && w.sessions[id] == c;
      assert EntryOk(w, id);
      LatestIs(w.order, id);
    }
  }

  lemma EnvironmentKeeps(cr: H.Crypto, w: World, a: Action)
    requires Inv(cr, w) && Enabled(w, a)
    requires || a.Sign? || a.Challenge? || a.StopDrained?
             || (a.Answer? && !VerifyAttach(cr, w.signed, a.attach, w.challenged[a.from]))
    ensures Inv(cr, Step(cr, w, a))
  {
    var v := Step(cr, w, a);
    forall id
      ensures EntryOk(v, id)
    {
      assert EntryOk(w, id);
    }
    forall i | 0 <= i < |v.order|
      ensures BridgeOk(cr, v, v.order[i])
    {
      assert BridgeOk(cr, w, w.order[i]);
    }
  }

  lemma StepKeeps(cr: H.Crypto, w: World, a: Action)
    requires Inv(cr, w)
    ensures Inv(cr, Step(cr, w, a))
  {
    if Enabled(w, a) {
      match a
      case Sign(_) => EnvironmentKeeps(cr, w, a);
      case Challenge(_, _) => EnvironmentKeeps(cr, w, a);
      case Answer(from, attach) =>
        if VerifyAttach(cr, w.signed, attach, w.challenged[from]) {
          AnswerKeeps(cr, w, from, attach);
        } else {
          EnvironmentKeeps(cr, w, a);
        }
      case Exit(which) => ExitKeeps(cr, w, which);
      case Drain => DrainKeeps(cr, w);
      case StopDrained(_) => EnvironmentKeeps(cr, w, a);
    }
  }

  lemma {:induction false} RunKeeps(cr: H.Crypto, actions: seq<Action>)
    ensures Inv(cr, Run(cr, actions))
  {
    if actions == [] {
    } else {
      RunKeeps(cr, actions[..|actions| - 1]);
      StepKeeps(cr, Run(cr, actions[..|actions| - 1]), actions[|actions| - 1]);
    }
  }

  // ---------------------------------------------------------------- theorems

  /** An attach message that proves its key: the session id is the key's, and the key signed the challenge. */
  ghost predicate Proof(cr: H.Crypto, actions: seq<Action>, nonce: seq<byte>, a: Attach) {
    && a.t == Ascii("attach") && |a.k| == 32 && |nonce| == 32 && a.s == cr.sessionID(a.k)
    && Sign(H.Signature(a.k, Ascii("hermes-remote v1 relay attach") + nonce, a.sig)) in actions
  }

  lemma {:induction false} SignedIsMade(cr: H.Crypto, actions: seq<Action>, s: H.Signature)
    ensures s in Run(cr, actions).signed <==> Sign(s) in actions
  {
    if actions != [] {
      var init, last := actions[..|actions| - 1], actions[|actions| - 1];
      SignedIsMade(cr, init, s);
      assert actions == init + [last];
    }
  }

  /** Where the nonces come from: a connection waits for, and was registered with, the challenge it was sent. */
  ghost predicate Sent(actions: seq<Action>, w: World) {
    && (forall c :: c in w.challenged ==> Challenge(c, w.challenged[c]) in actions && |w.challenged[c]| == 32)
    && (forall b :: b in w.order ==> Challenge(b.conn, b.nonce) in actions)
    && (forall c :: c in w.used ==> exists nonce :: Challenge(c, nonce) in actions)
  }

  lemma SendsOn(cr: H.Crypto, actions: seq<Action>, w: World, a: Action)
    requires Sent(actions, w)
    ensures Sent(actions + [a], Step(cr, w, a))
  {
    var v := Step(cr, w, a);
    forall c | c in v.used
      ensures exists nonce :: Challenge(c, nonce) in actions + [a]
    {
      if c in w.used {
        var nonce :| Challenge(c, nonce) in actions;
        assert Challenge(c, nonce) in actions + [a];
      } else {
        assert Challenge(c, a.nonce) in actions + [a];
      }
    }
  }

  lemma {:induction false} ChallengesAreSent(cr: H.Crypto, actions: seq<Action>)
    ensures Sent(actions, Run(cr, actions))
  {
    if actions == [] {
    } else {
      var init, last := actions[..|actions| - 1], actions[|actions| - 1];
      ChallengesAreSent(cr, init);
      SendsOn(cr, init, Run(cr, init), last);
      assert actions == init + [last];
    }
  }

  /** An id is registered exactly while the last bridge to register for it has neither left nor been drained;
      the entry is that bridge, and it proved a key with that session id over the challenge it was sent. */
  lemma {:induction false} EntryIsLatestProver(cr: H.Crypto, actions: seq<Action>, id: seq<byte>)
    ensures var w := Run(cr, actions);
            var latest := Latest(w.order, id);
            && (id in w.sessions <==> latest.Some? && !Gone(w, latest.value.conn))
            && (id in w.sessions && latest.Some? ==>
                  && w.sessions[id] == latest.value.conn && latest.value.attach.s == id
                  && Challenge(latest.value.conn, latest.value.nonce) in actions
                  && Proof(cr, actions, latest.value.nonce, latest.value.attach))
  {
    RunKeeps(cr, actions);
    ChallengesAreSent(cr, actions);
    var w := Run(cr, actions);
    assert EntryOk(w, id);
    LatestIs(w.order, id);
    if id in w.sessions {
      var b := Latest(w.order, id).value;
      var i :| 0 <= i < |w.order| && w.order[i] == b;
      assert BridgeOk(cr, w, w.order[i]);
      SignedIsMade(cr, actions, H.Signature(b.attach.k, H.LABEL_RELAY_ATTACH + b.nonce, b.attach.sig));
    }
  }

  /** A step registers a bridge exactly if it is the answer of a connection to its challenge and proves its key; a
      connection has one answer. */
  lemma {:induction false} RegistersExactly(cr: H.Crypto, actions: seq<Action>, a: Action)
    ensures var w, v := Run(cr, actions), Run(cr, actions + [a]);
            if a.Answer? && a.from in w.challenged && Proof(cr, actions, w.challenged[a.from], a.attach) then
              && v.order == w.order + [Bridge(a.from, w.challenged[a.from], a.attach)]
              && v.sessions == w.sessions[a.attach.s := a.from]
            else v.order == w.order && v.sessions.Keys <= w.sessions.Keys
    ensures a.Answer? ==> a.from !in Run(cr, actions + [a]).challenged
  {
    var w := Run(cr, actions);
    AfterOne(Stepper(cr), EMPTY, actions, a);
    if a.Answer? && a.from in w.challenged {
      ChallengesAreSent(cr, actions);
      SignedIsMade(cr, actions,
                   H.Signature(a.attach.k, H.LABEL_RELAY_ATTACH + w.challenged[a.from], a.attach.sig));
    }
  }

  /** So whoever holds a key can register for its id: a new connection that signs what it is sent. */
  lemma {:induction false} ProverIsRegistered(
    cr: H.Crypto, actions: seq<Action>, conn: nat, nonce: seq<byte>, a: Attach)
    requires Proof(cr, actions, nonce, a) && forall other :: Challenge(conn, other) !in actions
    ensures var w := Run(cr, actions + [Challenge(conn, nonce)] + [Answer(conn, a)]);
            a.s in w.sessions && w.sessions[a.s] == conn
  {
    ChallengesAreSent(cr, actions);
    AfterOne(Stepper(cr), EMPTY, actions, Challenge(conn, nonce));
    RegistersExactly(cr, actions + [Challenge(conn, nonce)], Answer(conn, a));
  }

  /** Cleaning up after a bridge that was replaced or drained removes nothing; after any bridge, nothing
      but its own entry. */
  lemma {:induction false} CleanupSparesSuccessor(cr: H.Crypto, actions: seq<Action>, which: nat)
    requires which < |Run(cr, actions).order|
    ensures var w, v := Run(cr, actions), Run(cr, actions + [Exit(which)]);
            var b := w.order[which];
            && (Latest(w.order, b.attach.s) != Some(b) || b.conn in w.drained ==> v.sessions == w.sessions)
            && v.sessions == if b.attach.s in w.sessions && w.sessions[b.attach.s] == b.conn
                             then w.sessions - {b.attach.s} else w.sessions
  {
    var w := Run(cr, actions);
    assert (actions + [Exit(which)])[..|actions|] == actions;
    RunKeeps(cr, actions);
    var b := w.order[which];
    assert EntryOk(w, b.attach.s);
    OwnEntry(w, which, b.attach.s);
  }

  /** Of two bridges registered for one id the earlier has left, been told to stop, or been taken out by a Drain;
      so once Drain's loop has reached everyone it took out, the earlier has left or been told to stop. */
  lemma {:induction false} OthersAreCancelled(cr: H.Crypto, actions: seq<Action>, i: nat, k: nat)
    ensures var w := Run(cr, actions);
            i < k < |w.order| && w.order[i].attach.s == w.order[k].attach.s ==>
              && (w.order[i].conn in w.exited || w.order[i].conn in w.cancelled || w.order[i].conn in w.drained)
              && (w.drained <= w.cancelled ==> w.order[i].conn in w.exited || w.order[i].conn in w.cancelled)
  {
    RunKeeps(cr, actions);
    var w := Run(cr, actions);
    if i < k < |w.order| && w.order[i].attach.s == w.order[k].attach.s {
      var id := w.order[i].attach.s;
      assert BridgeOk(cr, w, w.order[i]) && EntryOk(w, id);
      LatestIs(w.order, id);
      OwnEntry(w, i, id);
    }
  }

  /** Drain empties the registry, and its loop reaches everyone it took out. */
  lemma {:induction false} DrainReaches(cr: H.Crypto, actions: seq<Action>, id: seq<byte>)
    ensures var w, v := Run(cr, actions), Run(cr, actions + [Drain]);
            && v.sessions == map[] && v.cancelled == w.cancelled
            && (id in w.sessions ==>
                  w.sessions[id] in v.drained
                  && w.sessions[id] in Run(cr, actions + [Drain] + [StopDrained(w.sessions[id])]).cancelled)
  {
    var w := Run(cr, actions);
    AfterOne(Stepper(cr), EMPTY, actions, Drain);
    if id in w.sessions {
      assert w.sessions[id] in w.sessions.Values;
      AfterOne(Stepper(cr), EMPTY, actions + [Drain], StopDrained(w.sessions[id]));
    }
  }

  /** Told to stop is only who was drained, or whose id another bridge has registered for since. */
  ghost predicate Superseded(order: seq<Bridge>, conn: nat) {
    exists i, k :: 0 <= i < k < |order| && order[i].conn == conn && order[k].attach.s == order[i].attach.s
  }

  lemma SupersededStays(order: seq<Bridge>, b: Bridge, conn: nat)
    requires Superseded(order, conn)
    ensures Superseded(order + [b], conn)
  {
    var i, k :| 0 <= i < k < |order| && order[i].conn == conn && order[k].attach.s == order[i].attach.s;
    assert (order + [b])[i].conn == conn && (order + [b])[k].attach.s == (order + [b])[i].attach.s;
  }

  /** Registering for an id in use is what supersedes its holder. */
  lemma {:induction false} Supersedes(cr: H.Crypto, actions: seq<Action>, b: Bridge)
    requires var w := Run(cr, actions); b.attach.s in w.sessions
    ensures var w := Run(cr, actions); Superseded(w.order + [b], w.sessions[b.attach.s])
  {
    RunKeeps(cr, actions);
    var w := Run(cr, actions);
    assert EntryOk(w, b.attach.s);
    LatestIs(w.order, b.attach.s);
    var i :| LastFor(w.order, b.attach.s, i) && w.order[i] == Latest(w.order, b.attach.s).value;
    var all := w.order + [b];
    assert all[i].conn == w.sessions[b.attach.s] && all[|w.order|].attach.s == all[i].attach.s;
  }

  lemma {:induction false} ToldForAReason(cr: H.Crypto, actions: seq<Action>, conn: nat)
    ensures var w := Run(cr, actions);
            conn in w.cancelled ==> conn in w.drained || Superseded(w.order, conn)
  {
    if actions != [] {
      var init, a := actions[..|actions| - 1], actions[|actions| - 1];
      var w, v := Run(cr, init), Run(cr, actions);
      ToldForAReason(cr, init, conn);
      assert v == Step(cr, w, a);
      if v.order != w.order {
        var b := v.order[|v.order| - 1];
        assert v.order == w.order + [b];
        if Superseded(w.order, conn) { SupersededStays(w.order, b, conn); }
        if b.attach.s in w.sessions { Supersedes(cr, init, b); }
      }
    }
  }

  /** Not before: between Drain's lock section and its loop a second bridge can register for an id whose drained
      bridge has neither left nor been told to stop. */
  lemma DrainWindow(cr: H.Crypto, nonce: seq<byte>, attach: Attach)
    requires attach.t == Ascii("attach") && |attach.k| == |nonce| == 32 && attach.s == cr.sessionID(attach.k)
    ensures var signature := H.Signature(attach.k, H.LABEL_RELAY_ATTACH + nonce, attach.sig);
            var w := Run(cr, [Sign(signature), Challenge(0, nonce), Challenge(1, nonce),
                              Answer(0, attach), Drain, Answer(1, attach)]);
            && |w.order| == 2 && w.order[0].attach.s == w.order[1].attach.s == attach.s
            && attach.s in w.sessions && w.sessions[attach.s] == 1
            && 0 !in w.exited && 0 !in w.cancelled && w.order[0].conn == 0
  {
    var signature := H.Signature(attach.k, H.LABEL_RELAY_ATTACH + nonce, attach.sig);
    hide After, VerifyAttach;
    Verifies(cr, nonce, attach);
    var a := [Sign(signature), Challenge(0, nonce), Challenge(1, nonce)];
    Opened(cr, signature, nonce);
    AfterOne(Stepper(cr), EMPTY, a, Answer(0, attach));
    var b := a + [Answer(0, attach)];
    AfterOne(Stepper(cr), EMPTY, b, Drain);
    var c := b + [Drain];
    assert Run(cr, c).challenged == map[1 := nonce];
    AfterOne(Stepper(cr), EMPTY, c, Answer(1, attach));
    assert c + [Answer(1, attach)]
        == [Sign(signature), Challenge(0, nonce), Challenge(1, nonce), Answer(0, attach), Drain, Answer(1, attach)];
  }

  lemma Verifies(cr: H.Crypto, nonce: seq<byte>, attach: Attach)
    requires attach.t == Ascii("attach") && |attach.k| == |nonce| == 32 && attach.s == cr.sessionID(attach.k)
    ensures VerifyAttach(cr, {H.Signature(attach.k, H.LABEL_RELAY_ATTACH + nonce, attach.sig)}, attach, nonce)
  {
  }

  lemma Opened(cr: H.Crypto, signature: H.Signature, nonce: seq<byte>)
    requires |nonce| == H.NONCE_SIZE
    ensures Run(cr, [Sign(signature), Challenge(0, nonce), Challenge(1, nonce)])
         == EMPTY.(signed := {signature}, challenged := map[0 := nonce, 1 := nonce], used := {0, 1})
  {
    hide After, VerifyAttach;
    AfterNone(Stepper(cr), EMPTY);
    var none: seq<Action> := [];
    AfterOne(Stepper(cr), EMPTY, none, Sign(signature));
    var a := none + [Sign(signature)];
    assert Run(cr, a) == EMPTY.(signed := {signature});
    AfterOne(Stepper(cr), EMPTY, a, Challenge(0, nonce));
    var b := a + [Challenge(0, nonce)];
    assert Run(cr, b) == EMPTY.(signed := {signature}, challenged := map[0 := nonce], used := {0});
    AfterOne(Stepper(cr), EMPTY, b, Challenge(1, nonce));
    assert b + [Challenge(1, nonce)] == [Sign(signature), Challenge(0, nonce), Challenge(1, nonce)];
  }

  // ---------------------------------------------------------------- in place

  class Session {
    const id: seq<byte>
    var cancelled: bool

    constructor (id: seq<byte>)
      ensures this.id == id && !cancelled
    {
      this.id, cancelled := id, false;
    }
  }

  class Server {
    var sessions: map<seq<byte>, Session>

    constructor ()
      ensures sessions == map[]
    {
      sessions := map[];
    }

    /** Takes the place of whatever bridge holds the id, and stops it. */
    method Register(sess: Session)
      modifies this, if sess.id in sessions then {sessions[sess.id]} else {}
      ensures sessions == old(sessions)[sess.id := sess]
      ensures sess.id in old(sessions) ==> old(sessions)[sess.id].cancelled
    {
      if sess.id in sessions {
        sessions[sess.id].cancelled := true;
      }
      sessions := sessions[sess.id := sess];
    }

    method Cleanup(sess: Session)
      modifies this
      ensures sessions == Cleaned(old(sessions), sess.id, sess)
    {
      if sess.id in sessions && sessions[sess.id] == sess {
        sessions := sessions - {sess.id};
      }
    }

    /** Drain's lock section: everybody is out, nobody has been told yet. */
    method TakeAll() returns (taken: map<seq<byte>, Session>)
      modifies this
      ensures sessions == map[] && taken == old(sessions)
    {
      taken := sessions;
      sessions := map[];
    }

    /** The loop after it, which touches the bridges taken out and not the registry they were in. */
    method StopAll(taken: map<seq<byte>, Session>)
      modifies taken.Values
      ensures forall id :: id in taken ==> taken[id].cancelled
    {
      var left := taken.Keys;
      while left != {}
        invariant left <= taken.Keys
        invariant forall id :: id in taken && id !in left ==> taken[id].cancelled
        decreases left
      {
        var id :| id in left;
        taken[id].cancelled := true;
        left := left - {id};
      }
    }
  }
}
