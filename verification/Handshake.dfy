/**
 * The signed handshake (internal/protocol/handshake.go, identity.go) in a world where any number of honest
 * identities and an attacker who owns the network run it side by side.
 *
 * The primitives are ideal. Diffie-Hellman, HKDF, HMAC and the hash are functions about which only the laws of
 * Ideal are known. Signatures verify exactly if they were made: honest keys sign only what the code signs,
 * every other key signs anything at any time. Anything may be sealed at any time.
 */
module Handshake {
  import opened Bytes
  import opened Envelope
  import opened Runs
  import opened Transcript

  const VERSION: int := 1
  const NONCE_SIZE: nat := 32
  const KEY_SIZE: nat := 32
  const MAC_SIZE: nat := 32
  const SIGNATURE_SIZE: nat := 64
  const LABEL_SIG_BRIDGE := Ascii("hermes-remote v1 bridge")
  const LABEL_SIG_PHONE := Ascii("hermes-remote v1 phone")
  const LABEL_PAIR_PROOF := Ascii("hermes-remote v1 pair")
  const LABEL_RELAY_ATTACH := Ascii("hermes-remote v1 relay attach")

  datatype Confirm = Confirm(sig: seq<byte>, proof: Option<seq<byte>>)

  datatype Keys = Keys(p2b: seq<byte>, b2p: seq<byte>)

  datatype Crypto = Crypto(
    hash: seq<byte> -> seq<byte>,
    public: nat -> seq<byte>,
    agree: (nat, seq<byte>) -> Option<seq<byte>>,
    derive: (seq<byte>, seq<byte>) -> Keys,
    mac: (seq<byte>, seq<byte>) -> seq<byte>,
    sessionID: seq<byte> -> seq<byte>,
    encode: Confirm -> seq<byte>,
    decode: seq<byte> -> Option<Confirm>)

  /** Confirms as the code makes them: an Ed25519 signature and perhaps an HMAC-SHA256. */
  predicate Proper(c: Confirm) {
    |c.sig| == SIGNATURE_SIZE && (c.proof.Some? ==> |c.proof.value| == MAC_SIZE)
  }

  ghost predicate Ideal(cr: Crypto) {
    && (forall b :: |cr.hash(b)| == 32)
    && (forall x :: |cr.public(x)| == KEY_SIZE)
    && (forall x, y :: cr.agree(x, cr.public(y)) == cr.agree(y, cr.public(x)) && cr.agree(x, cr.public(y)).Some?)
    && (forall x, k :: |k| != KEY_SIZE ==> cr.agree(x, k) == None)
    && (forall code, b :: |cr.mac(code, b)| == MAC_SIZE)
    && (forall k :: |cr.sessionID(k)| == 22)
    && (forall c :: Proper(c) ==> cr.decode(cr.encode(c)) == Some(c) && |cr.encode(c)| <= MAX_PLAINTEXT)
  }

  /** The key derivation is injective in the transcript, and never gives both directions one key. */
  ghost predicate KeysApart(cr: Crypto) {
    && (forall a, t, b, u :: cr.derive(a, t).p2b == cr.derive(b, u).p2b ==> t == u)
    && (forall a, t, b, u :: cr.derive(a, t).b2p == cr.derive(b, u).b2p ==> t == u)
    && (forall a, t, b, u :: cr.derive(a, t).p2b != cr.derive(b, u).b2p)
  }

  /** The laws can be met. */
  lemma SomeCryptoIsIdeal() returns (cr: Crypto)
    ensures Ideal(cr) && KeysApart(cr)
  {
    var block: seq<byte> := seq(32, _ => 0);
    cr := Crypto(
      _ => block, _ => block, (_, k) => if |k| == KEY_SIZE then Some([]) else None, (_, t) => Keys([0] + t, [1] + t),
      (_, _) => block,
      _ => block[..22],
      (c: Confirm) => if c.proof.Some? then c.sig + c.proof.value else c.sig,
      b => if |b| == SIGNATURE_SIZE then Some(Confirm(b, None))
           else if |b| > SIGNATURE_SIZE then Some(Confirm(b[..SIGNATURE_SIZE], Some(b[SIGNATURE_SIZE..]))) else None);
    forall a, t, b, u
      ensures cr.derive(a, t).p2b == cr.derive(b, u).p2b || cr.derive(a, t).b2p == cr.derive(b, u).b2p ==> t == u
    {
      assert cr.derive(a, t).p2b[1..] == t == cr.derive(a, t).b2p[1..];
      assert cr.derive(b, u).p2b[1..] == u == cr.derive(b, u).b2p[1..];
    }
    forall a, t, b, u
      ensures cr.derive(a, t).p2b != cr.derive(b, u).b2p
    {
      assert cr.derive(a, t).p2b[0] == 0 && cr.derive(b, u).b2p[0] == 1;
    }
    forall c | Proper(c)
      ensures cr.decode(cr.encode(c)) == Some(c) && |cr.encode(c)| <= MAX_PLAINTEXT
    {
      if c.proof.Some? {
        var b := c.sig + c.proof.value;
        assert b[..SIGNATURE_SIZE] == c.sig && b[SIGNATURE_SIZE..] == c.proof.value;
      }
    }
  }

  datatype Signature = Signature(key: seq<byte>, message: seq<byte>, sig: seq<byte>)

  predicate Verify(signed: set<Signature>, key: seq<byte>, role: seq<byte>, transcript: seq<byte>, sig: seq<byte>) {
    |key| == KEY_SIZE && Signature(key, role + transcript, sig) in signed
  }

  function Digest(cr: Crypto, h: Hello, bridgeID: seq<byte>, a: Accept): seq<byte> {
    cr.hash(Preimage(h, bridgeID, a))
  }

  function PairProof(cr: Crypto, code: seq<byte>, transcript: seq<byte>): seq<byte> {
    cr.mac(code, LABEL_PAIR_PROOF + transcript)
  }

  // ---------------------------------------------------------------- the phone

  datatype PhoneSession = PhoneSession(id: seq<byte>, eph: nat, hello: Hello)

  function PhoneHello(cr: Crypto, id: seq<byte>, sessionID: seq<byte>, eph: nat, nonce: seq<byte>): PhoneSession {
    PhoneSession(id, eph, Hello(VERSION, sessionID, id, cr.public(eph), nonce))
  }

  datatype PhoneOutcome = BadBridgeSignature | BadBridgeKey | Derived(transcript: seq<byte>, keys: Keys)

  /** PhoneState.Finish up to the sealing of the confirm. */
  function PhoneDerives(cr: Crypto, signed: set<Signature>, p: PhoneSession, a: Accept, bridgeID: seq<byte>):
    PhoneOutcome
  {
    var transcript := Digest(cr, p.hello, bridgeID, a);
    if !Verify(signed, bridgeID, LABEL_SIG_BRIDGE, transcript, a.sig) then BadBridgeSignature
    else
      match cr.agree(p.eph, a.bridgeEph)
      case None => BadBridgeKey
      case Some(shared) => Derived(transcript, cr.derive(shared, transcript))
  }

  function ConfirmFor(cr: Crypto, sig: seq<byte>, code: Option<seq<byte>>, transcript: seq<byte>): Confirm {
    Confirm(sig, if code.Some? then Some(PairProof(cr, code.value, transcript)) else None)
  }

  // ---------------------------------------------------------------- the bridge

  datatype PendingState = PendingState(
    hello: Hello, bridgeID: seq<byte>, accept: Accept, transcript: seq<byte>, keys: Keys)

  /** BridgeAccept: None when it refuses the hello. `sig` is the bridge's signature over the transcript. */
  function BridgeAccept(cr: Crypto, bridgeID: seq<byte>, h: Hello, eph: nat, nonce: seq<byte>, sig: seq<byte>):
    Option<PendingState>
  {
    if h.version != VERSION || h.sessionID != cr.sessionID(bridgeID) then None
    else if |h.phoneID| != KEY_SIZE || |h.nonceP| != NONCE_SIZE then None
    else
      match cr.agree(eph, h.phoneEph)
      case None => None
      case Some(shared) =>
        var a := Accept(cr.public(eph), nonce, sig);
        var transcript := Digest(cr, h, bridgeID, a);
        Some(PendingState(h, bridgeID, a, transcript, cr.derive(shared, transcript)))
  }

  datatype Decision = FrameError | NotConfirm | BadPhoneSignature | Untrusted | Trusted | Paired(code: seq<byte>)

  predicate Admits(v: Decision) {
    v.Trusted? || v.Paired?
  }

  /** The first of the codes whose proof is the one presented. */
  function MatchCode(cr: Crypto, transcript: seq<byte>, codes: seq<seq<byte>>, proof: seq<byte>): Option<seq<byte>> {
    if codes == [] then None
    else if PairProof(cr, codes[0], transcript) == proof then Some(codes[0])
    else MatchCode(cr, transcript, codes[1..], proof)
  }

  /** Pending.Finish from the confirm on. */
  function DecideConfirm(cr: Crypto, signed: set<Signature>, p: PendingState, c: Confirm, trusted: set<seq<byte>>,
                         codes: seq<seq<byte>>): Decision {
    if !Verify(signed, p.hello.phoneID, LABEL_SIG_PHONE, p.transcript, c.sig) then BadPhoneSignature
    else if p.hello.phoneID in trusted then Trusted
    else if c.proof.Some? && |c.proof.value| == MAC_SIZE then
      match MatchCode(cr, p.transcript, codes, c.proof.value)
      case Some(code) => Paired(code)
      case None => Untrusted
    else Untrusted
  }

  /** Pending.Finish on a suite that has opened nothing yet. */
  function Decide(cr: Crypto, signed: set<Signature>, log: SealLog, p: PendingState, frame: seq<byte>,
                  trusted: set<seq<byte>>, codes: seq<seq<byte>>): Decision {
    match OpenNext(p.keys.p2b, 0, log, frame)
    case BadFrame => FrameError
    case BadCounter => FrameError
    case Opened(_, plain) =>
      match cr.decode(plain)
      case None => NotConfirm
      case Some(c) => DecideConfirm(cr, signed, p, c, trusted, codes)
  }

  /** The code found is the first on the list whose proof is the one presented. */
  lemma {:induction false} MatchedCodeListed(cr: Crypto, transcript: seq<byte>, codes: seq<seq<byte>>, proof: seq<byte>)
    ensures match MatchCode(cr, transcript, codes, proof)
            case Some(code) =>
              exists i :: FirstProven(cr, transcript, codes, proof, i) && code == codes[i]
            case None =>
              forall code :: code in codes ==> cr.mac(code, Ascii("hermes-remote v1 pair") + transcript) != proof
  {
    if codes != [] && PairProof(cr, codes[0], transcript) != proof {
      MatchedCodeListed(cr, transcript, codes[1..], proof);
      if i :| FirstProven(cr, transcript, codes[1..], proof, i) {
        assert FirstProven(cr, transcript, codes, proof, i + 1);
      }
    } else if codes != [] {
      assert FirstProven(cr, transcript, codes, proof, 0);
    }
  }

  ghost predicate FirstProven(cr: Crypto, transcript: seq<byte>, codes: seq<seq<byte>>, proof: seq<byte>, i: int) {
    && 0 <= i < |codes| && cr.mac(codes[i], Ascii("hermes-remote v1 pair") + transcript) == proof
    && forall k :: 0 <= k < i ==> cr.mac(codes[k], Ascii("hermes-remote v1 pair") + transcript) != proof
  }

  /** Whether some code on the list has this proof over the transcript. */
  ghost predicate Proven(cr: Crypto, transcript: seq<byte>, codes: seq<seq<byte>>, proof: seq<byte>) {
    && |proof| == 32
    && exists code :: code in codes && cr.mac(code, Ascii("hermes-remote v1 pair") + transcript) == proof
  }

  ghost predicate SignedByPhone(signed: set<Signature>, key: seq<byte>, transcript: seq<byte>, sig: seq<byte>) {
    |key| == 32 && Signature(key, Ascii("hermes-remote v1 phone") + transcript, sig) in signed
  }

  /** Version 1 and the counter 1 in eight bytes. */
  const FIRST_HEADER: seq<byte> := [1, 0, 0, 0, 0, 0, 0, 0, 1]

  /** The decision on a first frame that holds a confirm: by the signature over the transcript, then by the key, then
      by the codes, and by nothing else. */
  lemma DecisionIsExact(cr: Crypto, signed: set<Signature>, log: SealLog, p: PendingState, cipher: seq<byte>,
                        c: Confirm, trusted: set<seq<byte>>, codes: seq<seq<byte>>)
    requires |cipher| >= 16 && Entry(p.keys.p2b, 1, cipher) in log
    requires cr.decode(log[Entry(p.keys.p2b, 1, cipher)]) == Some(c)
    ensures var v := Decide(cr, signed, log, p, FIRST_HEADER + cipher, trusted, codes);
            var phone, own := p.hello.phoneID, SignedByPhone(signed, p.hello.phoneID, p.transcript, c.sig);
            var proven := c.proof.Some? && Proven(cr, p.transcript, codes, c.proof.value);
            && (v.BadPhoneSignature? <==> !own)
            && (v.Trusted? <==> own && phone in trusted)
            && (v.Paired? <==> own && phone !in trusted && proven)
            && (v.Untrusted? <==> own && phone !in trusted && !proven)
            && (v.Paired? ==> c.proof.Some? && exists i :: FirstProven(cr, p.transcript, codes, c.proof.value, i)
                                                           && v.code == codes[i])
  {
    hide OpenNext, Entry, Header, Verify, MatchCode, FirstProven, Proven, DecideConfirm;
    HeaderOfOne();
    HeaderOpens(p.keys.p2b, 0, log, cipher);
    ConfirmDecision(cr, signed, p, c, trusted, codes);
  }

  lemma ConfirmDecision(cr: Crypto, signed: set<Signature>, p: PendingState, c: Confirm, trusted: set<seq<byte>>,
                        codes: seq<seq<byte>>)
    ensures var v := DecideConfirm(cr, signed, p, c, trusted, codes);
            var phone, own := p.hello.phoneID, SignedByPhone(signed, p.hello.phoneID, p.transcript, c.sig);
            var proven := c.proof.Some? && Proven(cr, p.transcript, codes, c.proof.value);
            && (v.BadPhoneSignature? <==> !own)
            && (v.Trusted? <==> own && phone in trusted)
            && (v.Paired? <==> own && phone !in trusted && proven)
            && (v.Untrusted? <==> own && phone !in trusted && !proven)
            && (v.Paired? ==> c.proof.Some? && exists i :: FirstProven(cr, p.transcript, codes, c.proof.value, i)
                                                           && v.code == codes[i])
  {
    hide MatchCode;
    if c.proof.Some? {
      MatchedCodeListed(cr, p.transcript, codes, c.proof.value);
    }
  }

  lemma HeaderOfOne()
    ensures Header(1) == FIRST_HEADER
  {
    assert BigEndian(0, 7) == [0, 0, 0, 0, 0, 0, 0] by {
      assert BigEndian(0, 4) == [0, 0, 0, 0];
    }
  }

  /** Any other first frame admits nobody. */
  lemma OnlyConfirmsAdmit(cr: Crypto, signed: set<Signature>, log: SealLog, p: PendingState, frame: seq<byte>,
                          trusted: set<seq<byte>>, codes: seq<seq<byte>>)
    ensures var r := OpenNext(p.keys.p2b, 0, log, frame);
            var v := Decide(cr, signed, log, p, frame, trusted, codes);
            (v.FrameError? <==> !r.Opened?) && (v.NotConfirm? <==> r.Opened? && cr.decode(r.plain).None?)
  {
  }

  /** A phone is paired by a listed code only: it is unknown, signed the transcript, and shows the MAC of that code
      over this very transcript. */
  lemma PairedIsListed(cr: Crypto, signed: set<Signature>, log: SealLog, p: PendingState, frame: seq<byte>,
                       trusted: set<seq<byte>>, codes: seq<seq<byte>>)
    requires Decide(cr, signed, log, p, frame, trusted, codes).Paired?
    ensures var code := Decide(cr, signed, log, p, frame, trusted, codes).code;
            && code in codes && p.hello.phoneID !in trusted
            && OpenNext(p.keys.p2b, 0, log, frame).Opened?
            && var c := cr.decode(OpenNext(p.keys.p2b, 0, log, frame).plain);
            && c.Some? && c.value == Shown(cr, c.value.sig, Some(code), p.transcript)
            && SignedByPhone(signed, p.hello.phoneID, p.transcript, c.value.sig)
  {
    var c := cr.decode(OpenNext(p.keys.p2b, 0, log, frame).plain).value;
    MatchedCodeListed(cr, p.transcript, codes, c.proof.value);
  }

  /** A hello is accepted exactly if it has this version and is addressed to this bridge, with a key and a nonce of
      the right sizes and an ephemeral that agrees; what is hashed, derived and kept is this. */
  lemma AcceptsExactly(cr: Crypto, bridgeID: seq<byte>, h: Hello, eph: nat, nonce: seq<byte>, sig: seq<byte>)
    ensures var r := BridgeAccept(cr, bridgeID, h, eph, nonce, sig);
            var shared := cr.agree(eph, h.phoneEph);
            && (r.Some? <==> h.version == 1 && h.sessionID == cr.sessionID(bridgeID) && |h.phoneID| == 32
                             && |h.nonceP| == 32 && shared.Some?)
            && (r.Some? && shared.Some? ==>
                  && r.value.hello == h && r.value.bridgeID == bridgeID
                  && r.value.accept == Accept(cr.public(eph), nonce, sig)
                  && r.value.transcript == cr.hash(Preimage(h, bridgeID, r.value.accept))
                  && r.value.keys == cr.derive(shared.value, r.value.transcript))
  {
  }

  /** A phone goes on exactly if the bridge it has pinned signed this transcript and its ephemeral agrees. */
  lemma FinishesExactly(cr: Crypto, signed: set<Signature>, p: PhoneSession, a: Accept, bridgeID: seq<byte>)
    ensures var r := PhoneDerives(cr, signed, p, a, bridgeID);
            var transcript, shared := cr.hash(Preimage(p.hello, bridgeID, a)), cr.agree(p.eph, a.bridgeEph);
            && (r.Derived? <==> |bridgeID| == 32 && shared.Some?
                                && Signature(bridgeID, Ascii("hermes-remote v1 bridge") + transcript, a.sig) in signed)
            && (r.Derived? && shared.Some? ==> r == Derived(transcript, cr.derive(shared.value, transcript)))
  {
  }

  // ---------------------------------------------------------------- the world

  /** A phone that finished, and a bridge that accepted. */
  datatype PhoneRun = PhoneRun(session: PhoneSession, bridgeID: seq<byte>, accept: Accept)

  datatype World = World(signed: set<Signature>, log: SealLog, runs: seq<PhoneRun>, accepted: seq<PendingState>)

  datatype Event =
    | PhoneFinishes(session: PhoneSession, accept: Accept, bridge: seq<byte>, code: Option<seq<byte>>,
                    phoneSig: seq<byte>, cipher: seq<byte>)
    | BridgeAccepts(bridge: seq<byte>, hello: Hello, eph: nat, nonce: seq<byte>, bridgeSig: seq<byte>)
    | Attaches(bridge: seq<byte>, challenge: seq<byte>, attachSig: seq<byte>)
    | Signs(key: seq<byte>, message: seq<byte>, sig: seq<byte>)
    | Seals(sealing: Sealing, plain: seq<byte>)

  const EMPTY_WORLD := World({}, map[], [], [])

  /** What PhoneHello returns, for some session id and nonce. */
  predicate Genuine(cr: Crypto, p: PhoneSession) {
    p == PhoneHello(cr, p.id, p.hello.sessionID, p.eph, p.hello.nonceP)
  }

  /** Whose turn it may be: honest keys are used by the code alone, all others by anybody. */
  predicate Enabled(cr: Crypto, honest: set<seq<byte>>, w: World, e: Event) {
    match e
    case PhoneFinishes(p, a, bridge, _, _, _) =>
      p.id in honest && Genuine(cr, p) && PhoneDerives(cr, w.signed, p, a, bridge).Derived?
    case BridgeAccepts(bridge, h, eph, nonce, sig) =>
      && bridge in honest && |bridge| == KEY_SIZE && |nonce| == NONCE_SIZE
      && BridgeAccept(cr, bridge, h, eph, nonce, sig).Some?
    case Attaches(bridge, _, _) => bridge in honest
    case Signs(key, _, _) => key !in honest
    case Seals(_, _) => true
  }

  function Step(cr: Crypto, honest: set<seq<byte>>, w: World, e: Event): World {
    if !Enabled(cr, honest, w, e) then w
    else
      match e
      case PhoneFinishes(p, a, bridge, code, sig, cipher) =>
        var r := PhoneDerives(cr, w.signed, p, a, bridge);
        w.(signed := w.signed + {Signature(p.id, LABEL_SIG_PHONE + r.transcript, sig)},
           log := w.log[Entry(r.keys.p2b, 1, cipher) := cr.encode(ConfirmFor(cr, sig, code, r.transcript))],
           runs := w.runs + [PhoneRun(p, bridge, a)])
      case BridgeAccepts(bridge, h, eph, nonce, sig) =>
        var p := BridgeAccept(cr, bridge, h, eph, nonce, sig).value;
        w.(signed := w.signed + {Signature(bridge, LABEL_SIG_BRIDGE + p.transcript, sig)}, accepted := w.accepted + [p])
      case Attaches(bridge, challenge, sig) =>
        w.(signed := w.signed + {Signature(bridge, LABEL_RELAY_ATTACH + challenge, sig)})
      case Signs(key, message, sig) => w.(signed := w.signed + {Signature(key, message, sig)})
      case Seals(sealing, plain) => w.(log := w.log[sealing := plain])
  }

  function Stepper(cr: Crypto, honest: set<seq<byte>>): (World, Event) -> World {
    (w, e) => Step(cr, honest, w, e)
  }

  function Run(cr: Crypto, honest: set<seq<byte>>, events: seq<Event>): World {
    After(Stepper(cr, honest), EMPTY_WORLD, events)
  }

  function RunDigest(cr: Crypto, r: PhoneRun): seq<byte> {
    Digest(cr, r.session.hello, r.bridgeID, r.accept)
  }

  ghost predicate ByPhone(cr: Crypto, r: PhoneRun, s: Signature) {
    s.key == r.session.id && s.message == LABEL_SIG_PHONE + RunDigest(cr, r)
  }

  ghost predicate ByBridge(p: PendingState, s: Signature) {
    s.key == p.bridgeID && s.message == LABEL_SIG_BRIDGE + p.transcript
  }

  /** Why an honest key signed something. */
  ghost predicate Explained(cr: Crypto, w: World, s: Signature) {
    || (exists i :: 0 <= i < |w.runs| && ByPhone(cr, w.runs[i], s))
    || (exists i :: 0 <= i < |w.accepted| && ByBridge(w.accepted[i], s))
    || (exists challenge :: s.message == LABEL_RELAY_ATTACH + challenge)
  }

  ghost predicate RunOk(cr: Crypto, honest: set<seq<byte>>, r: PhoneRun) {
    r.session.id in honest && Genuine(cr, r.session)
  }

  /** What BridgeAccept returned for some ephemeral and nonce of its own. */
  ghost predicate AcceptOk(cr: Crypto, p: PendingState, eph: nat) {
    && |p.bridgeID| == KEY_SIZE && |p.accept.nonceB| == NONCE_SIZE
    && BridgeAccept(cr, p.bridgeID, p.hello, eph, p.accept.nonceB, p.accept.sig) == Some(p)
  }

  ghost predicate Accepted(cr: Crypto, p: PendingState) {
    exists eph :: AcceptOk(cr, p, eph)
  }

  ghost predicate WorldOk(cr: Crypto, honest: set<seq<byte>>, w: World) {
    && (forall s :: s in w.signed && s.key in honest ==> Explained(cr, w, s))
    && (forall i :: 0 <= i < |w.runs| ==> RunOk(cr, honest, w.runs[i]))
    && (forall i :: 0 <= i < |w.accepted| ==> Accepted(cr, w.accepted[i]))
  }

  /** A signature stays explained as the world goes on. */
  lemma StaysExplained(cr: Crypto, w: World, v: World, s: Signature)
    requires w.runs <= v.runs && w.accepted <= v.accepted && Explained(cr, w, s)
    ensures Explained(cr, v, s)
  {
    if i :| 0 <= i < |w.runs| && ByPhone(cr, w.runs[i], s) {
      assert ByPhone(cr, v.runs[i], s);
    } else if i :| 0 <= i < |w.accepted| && ByBridge(w.accepted[i], s) {
      assert ByBridge(v.accepted[i], s);
    }
  }

  /** What an honest key signs in a step is explained after it. */
  lemma NewExplained(cr: Crypto, honest: set<seq<byte>>, w: World, e: Event, s: Signature)
    requires Enabled(cr, honest, w, e) && s.key in honest && s !in w.signed && s in Step(cr, honest, w, e).signed
    ensures Explained(cr, Step(cr, honest, w, e), s)
  {
    var v := Step(cr, honest, w, e);
    match e
    case PhoneFinishes(p, a, bridge, _, _, _) => assert ByPhone(cr, v.runs[|w.runs|], s);
    case BridgeAccepts(_, _, _, _, _) => assert ByBridge(v.accepted[|w.accepted|], s);
    case Attaches(_, challenge, _) => assert s.message == LABEL_RELAY_ATTACH + challenge;
    case Signs(_, _, _) =>
    case Seals(_, _) =>
  }

  lemma StepKeeps(cr: Crypto, honest: set<seq<byte>>, w: World, e: Event)
    requires WorldOk(cr, honest, w)
    ensures WorldOk(cr, honest, Step(cr, honest, w, e))
  {
    var v := Step(cr, honest, w, e);
    if Enabled(cr, honest, w, e) {
      forall s | s in v.signed && s.key in honest
        ensures Explained(cr, v, s)
      {
        if s in w.signed { StaysExplained(cr, w, v, s); } else { NewExplained(cr, honest, w, e, s); }
      }
      forall i | 0 <= i < |v.accepted|
        ensures Accepted(cr, v.accepted[i])
      {
        if i < |w.accepted| {
          assert v.accepted[i] == w.accepted[i];
        } else {
          assert AcceptOk(cr, v.accepted[i], e.eph);
        }
      }
    }
  }

  lemma {:induction false} RunKeeps(cr: Crypto, honest: set<seq<byte>>, events: seq<Event>)
    ensures WorldOk(cr, honest, Run(cr, honest, events))
  {
    if events == [] {
    } else {
      RunKeeps(cr, honest, events[..|events| - 1]);
      StepKeeps(cr, honest, Run(cr, honest, events[..|events| - 1]), events[|events| - 1]);
    }
  }

  /** The three labels honest keys sign under differ in their 18th byte: no message carries two of them. */
  lemma LabelsApart(a: seq<byte>, b: seq<byte>, c: seq<byte>)
    ensures LABEL_SIG_PHONE + a != LABEL_SIG_BRIDGE + b
    ensures LABEL_SIG_PHONE + a != LABEL_RELAY_ATTACH + c
    ensures LABEL_SIG_BRIDGE + b != LABEL_RELAY_ATTACH + c
  {
    assert (LABEL_SIG_PHONE + a)[17] == 'p' as int;
    assert (LABEL_SIG_BRIDGE + b)[17] == 'b' as int;
    assert (LABEL_RELAY_ATTACH + c)[17] == 'r' as int;
  }

  /** What BridgeAccept hashes is far too short for a length prefix to be cut. */
  lemma AcceptIsShort(cr: Crypto, p: PendingState, eph: nat)
    requires Ideal(cr) && AcceptOk(cr, p, eph)
    ensures |Join(Fields(p.hello, p.bridgeID, p.accept))| < 0x1_0000
    ensures 0 <= p.hello.version < 256
  {
    var fs := Fields(p.hello, p.bridgeID, p.accept);
    assert |p.hello.phoneEph| == KEY_SIZE;
    JoinBound(fs);
  }

  lemma {:induction false} JoinBound(fs: seq<seq<byte>>)
    requires forall i :: 0 <= i < |fs| ==> |fs[i]| <= KEY_SIZE
    ensures |Join(fs)| <= |fs| * (2 + KEY_SIZE)
  {
    if fs == [] {
    } else {
      JoinBound(fs[1..]);
      assert |Join(fs)| == |Lp(fs[0])| + |Join(fs[1..])|;
    }
  }

  /** The hash was not made to collide between this run and this acceptance. */
  ghost predicate NoCollision(cr: Crypto, r: PhoneRun, p: PendingState) {
    RunDigest(cr, r) == p.transcript ==>
      Preimage(r.session.hello, r.bridgeID, r.accept) == Preimage(p.hello, p.bridgeID, p.accept)
  }

  /** Both ends saw the same hello, bridge key, ephemeral and nonce, and so derive the same keys. */
  ghost predicate Agree(cr: Crypto, r: PhoneRun, p: PendingState) {
    && r.session.hello == p.hello && r.bridgeID == p.bridgeID
    && r.accept.bridgeEph == p.accept.bridgeEph && r.accept.nonceB == p.accept.nonceB
    && cr.agree(r.session.eph, r.accept.bridgeEph).Some?
    && cr.derive(cr.agree(r.session.eph, r.accept.bridgeEph).value, RunDigest(cr, r)) == p.keys
  }

  lemma SharedSecret(cr: Crypto, ph: PhoneSession, eph: nat)
    requires Ideal(cr) && Genuine(cr, ph)
    ensures cr.agree(ph.eph, cr.public(eph)) == cr.agree(eph, ph.hello.phoneEph)
    ensures cr.agree(eph, ph.hello.phoneEph).Some?
  {
    assert ph.hello.phoneEph == cr.public(ph.eph);
  }

  lemma SameDigestAgrees(cr: Crypto, r: PhoneRun, p: PendingState, eph: nat)
    requires Ideal(cr) && AcceptOk(cr, p, eph) && Genuine(cr, r.session)
    requires RunDigest(cr, r) == p.transcript && NoCollision(cr, r, p)
    ensures Agree(cr, r, p)
  {
    AcceptIsShort(cr, p, eph);
    ShortSideDecides(p.hello, p.bridgeID, p.accept, r.session.hello, r.bridgeID, r.accept);
    SharedSecret(cr, r.session, eph);
  }

  // ---------------------------------------------------------------- theorems

  /** If the bridge admits an honest phone's key, that phone finished a handshake on the same values. */
  lemma {:induction false} PhoneIsAuthentic(
    cr: Crypto, honest: set<seq<byte>>, events: seq<Event>, p: PendingState, eph: nat,
    frame: seq<byte>, trusted: set<seq<byte>>, codes: seq<seq<byte>>)
    returns (i: nat)
    requires Ideal(cr) && AcceptOk(cr, p, eph)
    requires var w := Run(cr, honest, events);
             && p.hello.phoneID in honest && Admits(Decide(cr, w.signed, w.log, p, frame, trusted, codes))
             && forall r :: r in w.runs ==> NoCollision(cr, r, p)
    ensures var w := Run(cr, honest, events); i < |w.runs| && Agree(cr, w.runs[i], p)
  {
    hide Run, Ideal, NoCollision, Agree, RunDigest;
    var w := Run(cr, honest, events);
    RunKeeps(cr, honest, events);
    var sig: seq<byte> :| Verify(w.signed, p.hello.phoneID, LABEL_SIG_PHONE, p.transcript, sig);
    var s := Signature(p.hello.phoneID, LABEL_SIG_PHONE + p.transcript, sig);
    assert Explained(cr, w, s);
    i := PhoneSigned(cr, w, s, p.transcript);
    SameDigestAgrees(cr, w.runs[i], p, eph);
  }

  lemma PhoneSigned(cr: Crypto, w: World, s: Signature, transcript: seq<byte>) returns (i: nat)
    requires Explained(cr, w, s) && s.message == LABEL_SIG_PHONE + transcript
    ensures i < |w.runs| && w.runs[i].session.id == s.key && RunDigest(cr, w.runs[i]) == transcript
  {
    if k :| 0 <= k < |w.runs| && ByPhone(cr, w.runs[k], s) {
      i := k;
      assert s.message[|LABEL_SIG_PHONE|..] == transcript == RunDigest(cr, w.runs[k]);
    } else if k :| 0 <= k < |w.accepted| && ByBridge(w.accepted[k], s) {
      LabelsApart(transcript, w.accepted[k].transcript, []);
      assert false;
    } else {
      var challenge :| s.message == LABEL_RELAY_ATTACH + challenge;
      LabelsApart(transcript, [], challenge);
      assert false;
    }
  }

  /** If a phone finishes against an honest bridge's key, that bridge accepted the same values. */
  lemma {:induction false} BridgeIsAuthentic(cr: Crypto, honest: set<seq<byte>>, events: seq<Event>, r: PhoneRun)
    returns (i: nat)
    requires Ideal(cr) && Genuine(cr, r.session) && r.bridgeID in honest
    requires var w := Run(cr, honest, events);
             && PhoneDerives(cr, w.signed, r.session, r.accept, r.bridgeID).Derived?
             && forall p :: p in w.accepted ==> NoCollision(cr, r, p)
    ensures var w := Run(cr, honest, events); i < |w.accepted| && Agree(cr, r, w.accepted[i])
  {
    var w := Run(cr, honest, events);
    RunKeeps(cr, honest, events);
    var s := Signature(r.bridgeID, LABEL_SIG_BRIDGE + RunDigest(cr, r), r.accept.sig);
    assert Explained(cr, w, s);
    i := BridgeSigned(cr, w, s, RunDigest(cr, r));
    var eph :| AcceptOk(cr, w.accepted[i], eph);
    SameDigestAgrees(cr, r, w.accepted[i], eph);
  }

  lemma BridgeSigned(cr: Crypto, w: World, s: Signature, transcript: seq<byte>) returns (i: nat)
    requires Explained(cr, w, s) && s.message == LABEL_SIG_BRIDGE + transcript
    ensures i < |w.accepted| && w.accepted[i].bridgeID == s.key && w.accepted[i].transcript == transcript
  {
    if k :| 0 <= k < |w.accepted| && ByBridge(w.accepted[k], s) {
      i := k;
      assert s.message[|LABEL_SIG_BRIDGE|..] == transcript == w.accepted[k].transcript;
    } else if k :| 0 <= k < |w.runs| && ByPhone(cr, w.runs[k], s) {
      LabelsApart(RunDigest(cr, w.runs[k]), transcript, []);
      assert false;
    } else {
      var challenge :| s.message == LABEL_RELAY_ATTACH + challenge;
      LabelsApart([], transcript, challenge);
      assert false;
    }
  }

  /** A relay challenge signed by an honest key was signed by its bridge, for that very challenge: no other
      signature an honest key makes can be passed off as one. */
  lemma {:induction false} AttachIsAuthentic(cr: Crypto, honest: set<seq<byte>>, events: seq<Event>, key: seq<byte>,
                                             challenge: seq<byte>, sig: seq<byte>) returns (i: nat)
    requires key in honest && Verify(Run(cr, honest, events).signed, key, LABEL_RELAY_ATTACH, challenge, sig)
    ensures i < |events| && events[i] == Attaches(key, challenge, sig)
  {
    var n := |events| - 1;
    var w := Run(cr, honest, events[..n]);
    var s := Signature(key, LABEL_RELAY_ATTACH + challenge, sig);
    if s in w.signed {
      i := AttachIsAuthentic(cr, honest, events[..n], key, challenge, sig);
    } else {
      i := n;
      AttachSigned(cr, honest, w, events[n], s, challenge);
    }
  }

  lemma AttachSigned(cr: Crypto, honest: set<seq<byte>>, w: World, e: Event, s: Signature, challenge: seq<byte>)
    requires s.key in honest && s.message == LABEL_RELAY_ATTACH + challenge
    requires s !in w.signed && s in Step(cr, honest, w, e).signed
    ensures e == Attaches(s.key, challenge, s.sig)
  {
    match e
    case PhoneFinishes(p, a, bridge, _, _, _) =>
      LabelsApart(PhoneDerives(cr, w.signed, p, a, bridge).transcript, [], challenge);
    case BridgeAccepts(bridge, h, eph, nonce, sig) =>
      LabelsApart([], BridgeAccept(cr, bridge, h, eph, nonce, sig).value.transcript, challenge);
    case Attaches(_, c, _) =>
      assert s.message[|LABEL_RELAY_ATTACH|..] == challenge;
      assert (LABEL_RELAY_ATTACH + c)[|LABEL_RELAY_ATTACH|..] == c;
    case Signs(_, _, _) =>
    case Seals(_, _) =>
  }

  /** The confirm a phone should show: its signature, and for a code the MAC over the transcript under it. */
  ghost function Shown(cr: Crypto, sig: seq<byte>, code: Option<seq<byte>>, transcript: seq<byte>): (c: Confirm)
    ensures c.proof.Some? <==> code.Some?
  {
    match code
    case None => Confirm(sig, None)
    case Some(secret) => Confirm(sig, Some(cr.mac(secret, Ascii("hermes-remote v1 pair") + transcript)))
  }

  /** Undisturbed, an honest phone is let in exactly when its key is trusted or a listed code has the
      proof it shows, and then both ends hold the same keys. */
  lemma HonestHandshake(cr: Crypto, signed: set<Signature>, log: SealLog, ph: PhoneSession, bridgeID: seq<byte>,
                        eph: nat, nonce: seq<byte>, bridgeSig: seq<byte>, code: Option<seq<byte>>, phoneSig: seq<byte>,
                        cipher: seq<byte>, trusted: set<seq<byte>>, codes: seq<seq<byte>>)
    requires Ideal(cr) && Genuine(cr, ph) && |ph.id| == KEY_SIZE == |bridgeID| && |ph.hello.nonceP| == NONCE_SIZE
    requires ph.hello.sessionID == cr.sessionID(bridgeID) && |phoneSig| == SIGNATURE_SIZE && |cipher| >= GCM_TAG
    requires var p := BridgeAccept(cr, bridgeID, ph.hello, eph, nonce, bridgeSig);
             p.Some? ==>
               && Signature(bridgeID, LABEL_SIG_BRIDGE + p.value.transcript, bridgeSig) in signed
               && Signature(ph.id, LABEL_SIG_PHONE + p.value.transcript, phoneSig) in signed
               && var entry := Entry(p.value.keys.p2b, 1, cipher);
                  entry in log && log[entry] == cr.encode(Shown(cr, phoneSig, code, p.value.transcript))
    ensures var p := BridgeAccept(cr, bridgeID, ph.hello, eph, nonce, bridgeSig);
            && p.Some?
            && PhoneDerives(cr, signed, ph, p.value.accept, bridgeID) == Derived(p.value.transcript, p.value.keys)
            && var v := Decide(cr, signed, log, p.value, Header(1) + cipher, trusted, codes);
            && (v.Trusted? <==> ph.id in trusted)
            && (v.Paired? <==>
                  && ph.id !in trusted && code.Some?
                  && Proven(cr, p.value.transcript, codes,
                            Shown(cr, phoneSig, code, p.value.transcript).proof.value))
            && (Admits(v) || v.Untrusted?)
  {
    SharedSecret(cr, ph, eph);
    var p := BridgeAccept(cr, bridgeID, ph.hello, eph, nonce, bridgeSig).value;
    var c := Shown(cr, phoneSig, code, p.transcript);
    HeaderCounter(1, cipher);
    assert OpenNext(p.keys.p2b, 0, log, Header(1) + cipher) == Opened(1, cr.encode(c));
    assert Proper(c);
    if code.Some? {
      MatchedCodeListed(cr, p.transcript, codes, PairProof(cr, code.value, p.transcript));
    }
  }

  /** The same as steps of the world: after any run a bridge accepts an honest phone's hello, the phone finishes, and
      the bridge decides on the frame it sent. */
  lemma {:induction false} HonestRun(
    cr: Crypto, honest: set<seq<byte>>, events: seq<Event>, ph: PhoneSession, bridgeID: seq<byte>, eph: nat,
    nonce: seq<byte>, bridgeSig: seq<byte>, code: Option<seq<byte>>, phoneSig: seq<byte>, cipher: seq<byte>,
    trusted: set<seq<byte>>, codes: seq<seq<byte>>) returns (p: PendingState)
    requires Ideal(cr) && Genuine(cr, ph) && |ph.id| == 32 == |bridgeID| && |ph.hello.nonceP| == 32 == |nonce|
    requires ph.id in honest && bridgeID in honest
    requires ph.hello.sessionID == cr.sessionID(bridgeID) && |phoneSig| == SIGNATURE_SIZE && |cipher| >= GCM_TAG
    ensures var accepts := BridgeAccepts(bridgeID, ph.hello, eph, nonce, bridgeSig);
            var w := Run(cr, honest, events);
            var v := Run(cr, honest, events + [accepts]);
            var u := Run(cr, honest, events + [accepts]
                                     + [PhoneFinishes(ph, p.accept, bridgeID, code, phoneSig, cipher)]);
            && BridgeAccept(cr, bridgeID, ph.hello, eph, nonce, bridgeSig) == Some(p)
            && v.accepted == w.accepted + [p] && u.runs == w.runs + [PhoneRun(ph, bridgeID, p.accept)]
            && var d := Decide(cr, u.signed, u.log, p, Header(1) + cipher, trusted, codes);
               && (d.Trusted? <==> ph.id in trusted) && (Admits(d) || d.Untrusted?)
               && (d.Paired? <==>
                     && ph.id !in trusted && code.Some?
                     && Proven(cr, p.transcript, codes, Shown(cr, phoneSig, code, p.transcript).proof.value))
  {
    hide After, Decide, Proven;
    SharedSecret(cr, ph, eph);
    p := BridgeAccept(cr, bridgeID, ph.hello, eph, nonce, bridgeSig).value;
    var accepts := BridgeAccepts(bridgeID, ph.hello, eph, nonce, bridgeSig);
    var finishes := PhoneFinishes(ph, p.accept, bridgeID, code, phoneSig, cipher);
    AfterOne(Stepper(cr, honest), EMPTY_WORLD, events, accepts);
    AfterOne(Stepper(cr, honest), EMPTY_WORLD, events + [accepts], finishes);
    var u := Run(cr, honest, events + [accepts] + [finishes]);
    assert PhoneDerives(cr, Run(cr, honest, events + [accepts]).signed, ph, p.accept, bridgeID)
        == Derived(p.transcript, p.keys);
    HonestHandshake(cr, u.signed, u.log, ph, bridgeID, eph, nonce, bridgeSig, code, phoneSig, cipher, trusted, codes);
  }

  ghost function ChallengeSigned(key: seq<byte>, challenge: seq<byte>, sig: seq<byte>): Signature {
    Signature(key, Ascii("hermes-remote v1 relay attach") + challenge, sig)
  }

  /** What the environment may do: a bridge signs any challenge it is sent; keys that are not honest sign anything;
      anybody seals anything. Nothing else is ever signed for an honest key. */
  lemma {:induction false} EnvironmentMay(cr: Crypto, honest: set<seq<byte>>, events: seq<Event>, key: seq<byte>,
                                          message: seq<byte>, sig: seq<byte>, sealing: Sealing, plain: seq<byte>)
    ensures var w := Run(cr, honest, events);
            && Run(cr, honest, events + [Attaches(key, message, sig)])
               == (if key in honest then
                     w.(signed := w.signed + {ChallengeSigned(key, message, sig)})
                   else w)
            && Run(cr, honest, events + [Signs(key, message, sig)])
               == (if key in honest then w else w.(signed := w.signed + {Signature(key, message, sig)}))
            && Run(cr, honest, events + [Seals(sealing, plain)]) == w.(log := w.log[sealing := plain])
  {
    hide After, PhoneDerives, BridgeAccept, Genuine, ConfirmFor;
    AfterOne(Stepper(cr, honest), EMPTY_WORLD, events, Attaches(key, message, sig));
    AfterOne(Stepper(cr, honest), EMPTY_WORLD, events, Signs(key, message, sig));
    AfterOne(Stepper(cr, honest), EMPTY_WORLD, events, Seals(sealing, plain));
  }

  // ---------------------------------------------------------------- the same, in place

  class PhoneState {
    const session: PhoneSession

    constructor (session: PhoneSession)
      ensures this.session == session
    {
      this.session := session;
    }

    /** `sig` is the phone's signature over the transcript, `cipher` the ideal cipher's output. */
    method Finish(cr: Crypto, signed: set<Signature>, aead: Aead, a: Accept, bridgeID: seq<byte>,
                  code: Option<seq<byte>>, sig: seq<byte>, cipher: seq<byte>)
      returns (suite: Suite?, frame: seq<byte>)
      requires Ideal(cr) && |sig| == SIGNATURE_SIZE
      requires var r := PhoneDerives(cr, signed, session, a, bridgeID);
               r.Derived? ==> |cipher| == |cr.encode(Shown(cr, sig, code, r.transcript))| + GCM_TAG
      modifies aead
      ensures var r := PhoneDerives(cr, signed, session, a, bridgeID);
              if r.Derived? then
                && suite != null && fresh(suite) && suite.aead == aead
                && suite.sendKey == r.keys.p2b && suite.recvKey == r.keys.b2p
                && suite.sendCounter == 1 && suite.recvCounter == 0
                && frame == Header(1) + cipher
                && var plain := cr.encode(Shown(cr, sig, code, r.transcript));
                   aead.log == old(aead.log)[Entry(r.keys.p2b, 1, cipher) := plain]
              else suite == null && aead.log == old(aead.log)
    {
      suite, frame := null, [];
      var transcript := Digest(cr, session.hello, bridgeID, a);
      if !Verify(signed, bridgeID, LABEL_SIG_BRIDGE, transcript, a.sig) {
        return;
      }
      var shared := cr.agree(session.eph, a.bridgeEph);
      if shared.None? {
        return;
      }
      var keys := cr.derive(shared.value, transcript);
      suite := new Suite(aead, keys.p2b, keys.b2p);
      assert Proper(ConfirmFor(cr, sig, code, transcript));
      var plain := cr.encode(ConfirmFor(cr, sig, code, transcript));
      var outcome;
      outcome, frame := suite.Seal(plain, cipher);
    }
  }

  class Pending {
    const state: PendingState
    const suite: Suite

    constructor (state: PendingState, aead: Aead)
      ensures this.state == state && fresh(suite) && suite.aead == aead
      ensures suite.sendKey == state.keys.b2p && suite.recvKey == state.keys.p2b
      ensures suite.sendCounter == 0 && suite.recvCounter == 0
    {
      this.state := state;
      this.suite := new Suite(aead, state.keys.b2p, state.keys.p2b);
    }

    method Finish(cr: Crypto, signed: set<Signature>, frame: seq<byte>, trusted: set<seq<byte>>, codes: seq<seq<byte>>)
      returns (v: Decision)
      requires suite.recvKey == state.keys.p2b && suite.recvCounter == 0
      modifies suite`recvCounter
      ensures v == Decide(cr, signed, suite.aead.log, state, frame, trusted, codes)
      ensures suite.recvCounter == if v.FrameError? then 0 else 1
    {
      var outcome := suite.Open(frame);
      if !outcome.Opened? {
        return FrameError;
      }
      var c := cr.decode(outcome.plain);
      if c.None? {
        return NotConfirm;
      }
      if !Verify(signed, state.hello.phoneID, LABEL_SIG_PHONE, state.transcript, c.value.sig) {
        return BadPhoneSignature;
      }
      if state.hello.phoneID in trusted {
        return Trusted;
      }
      if c.value.proof.Some? && |c.value.proof.value| == MAC_SIZE {
        var i := 0;
        while i < |codes|
          invariant 0 <= i <= |codes|
          invariant MatchCode(cr, state.transcript, codes, c.value.proof.value)
                 == MatchCode(cr, state.transcript, codes[i..], c.value.proof.value)
        {
          assert codes[i..][0] == codes[i] && codes[i..][1..] == codes[i + 1..];
          if PairProof(cr, codes[i], state.transcript) == c.value.proof.value {
            return Paired(codes[i]);
          }
          i := i + 1;
        }
      }
      return Untrusted;
    }
  }
}
