/**
 * One-time pairing codes (internal/bridge/pairing.go) as handshakes use them (internal/bridge/server.go,
 * conn.handshake): Outstanding takes a snapshot, Pending.Finish may admit a phone by a code in it, and a
 * later, separate Consume retires the code. Any number of handshakes do this at once.
 *
 * Codes are drawn at random; two equal ones are taken not to occur. Issue reads the clock before it takes the
 * lock, so its time may be any; Outstanding reads it inside, where the clock does not run backwards.
 */
module Pairings {
  import opened Bytes
  import opened Runs

  type Code = seq<byte>

  // ---------------------------------------------------------------- the lock sections

  /** Kept by Outstanding: a code expires strictly after its last instant. */
  function Live(codes: map<Code, int>, now: int): map<Code, int> {
    map c | c in codes && now <= codes[c] :: codes[c]
  }

  // ---------------------------------------------------------------- runs

  datatype Issued = Issued(step: nat, expires: int)

  /** A handshake from its snapshot on: the code that admitted it, and the step at which it was consumed. */
  datatype Attempt = Attempt(step: nat, now: int, snapshot: set<Code>, used: Option<Code>, consumed: Option<nat>)

  /** clock: the time of the last snapshot; issued: every code so far. */
  datatype State = State(
    step: nat, clock: int, codes: map<Code, int>, issued: map<Code, Issued>, attempts: map<nat, Attempt>)

  datatype Action =
    | Issue(minted: Code, ttl: int, at: int)
    | Snapshot(who: nat, now: int)
    | Admit(admitted: nat, code: Code)
    | Consume(consumer: nat)

  predicate Enabled(s: State, a: Action) {
    match a
    case Issue(code, _, _) => code !in s.issued
    case Snapshot(who, now) => who !in s.attempts && now >= s.clock
    case Admit(h, code) => h in s.attempts && s.attempts[h].used.None? && code in s.attempts[h].snapshot
    case Consume(h) => h in s.attempts && s.attempts[h].used.Some? && s.attempts[h].consumed.None?
  }

  function Step(s: State, a: Action): State {
    if !Enabled(s, a) then s
    else
      var next := s.(step := s.step + 1);
      match a
      case Issue(code, ttl, at) =>
        next.(codes := s.codes[code := at + ttl], issued := s.issued[code := Issued(s.step, at + ttl)])
      case Snapshot(who, now) =>
        var live := Live(s.codes, now);
        next.(clock := now, codes := live, attempts := s.attempts[who := Attempt(s.step, now, live.Keys, None, None)])
      case Admit(h, code) =>
        next.(attempts := s.attempts[h := s.attempts[h].(used := Some(code))])
      case Consume(h) =>
        next.(codes := s.codes - {s.attempts[h].used.value},
              attempts := s.attempts[h := s.attempts[h].(consumed := Some(s.step))])
  }

  const NEW := State(0, 0, map[], map[], map[])

  function Run(actions: seq<Action>): State {
    After(Step, NEW, actions)
  }

  /** Codes in a snapshot were issued before it and had not expired at it. */
  ghost predicate AttemptOk(s: State, a: Attempt) {
    && a.step < s.step
    && (forall c :: c in a.snapshot ==> c in s.issued && s.issued[c].step < a.step && a.now <= s.issued[c].expires)
    && (a.used.Some? ==> a.used.value in a.snapshot)
    && (a.consumed.Some? ==> a.used.Some? && a.step < a.consumed.value < s.step)
  }

  /** A consumed code is gone for good, and no later snapshot has it. */
  ghost predicate Retired(s: State, a: Attempt) {
    a.consumed.Some? && a.used.Some? ==>
      && a.used.value !in s.codes
      && forall h :: h in s.attempts && a.used.value in s.attempts[h].snapshot ==> s.attempts[h].step < a.consumed.value
  }

  /** Some handshake that used the code has consumed it. */
  ghost predicate Spent(s: State, code: Code) {
    exists h :: h in s.attempts && s.attempts[h].used == Some(code) && s.attempts[h].consumed.Some?
  }

  /** A code that is no longer there has expired or been spent. */
  ghost predicate NothingLost(s: State) {
    forall c :: c in s.issued && c !in s.codes ==> s.issued[c].expires < s.clock || Spent(s, c)
  }

  ghost predicate Inv(s: State) {
    && NothingLost(s)
    && (forall c :: c in s.codes ==> c in s.issued && s.codes[c] == s.issued[c].expires)
    && (forall c :: c in s.issued ==> s.issued[c].step < s.step)
    && (forall h :: h in s.attempts ==> AttemptOk(s, s.attempts[h]) && Retired(s, s.attempts[h]))
  }

  lemma AttemptsKeep(s: State, a: Action)
    requires Inv(s) && Enabled(s, a)
    ensures var t := Step(s, a); forall h :: h in t.attempts ==> AttemptOk(t, t.attempts[h])
  {
    var t := Step(s, a);
    forall h | h in t.attempts
      ensures AttemptOk(t, t.attempts[h])
    {
      if h in s.attempts { assert AttemptOk(s, s.attempts[h]); }
    }
  }

  lemma RetiredKeep(s: State, a: Action)
    requires Inv(s) && Enabled(s, a)
    ensures var t := Step(s, a); forall h :: h in t.attempts ==> Retired(t, t.attempts[h])
  {
    var t := Step(s, a);
    forall h | h in t.attempts && t.attempts[h].consumed.Some?
      ensures Retired(t, t.attempts[h])
    {
      assert AttemptOk(s, s.attempts[h]) && Retired(s, s.attempts[h]);
      forall g | g in t.attempts && t.attempts[h].used.value in t.attempts[g].snapshot
        ensures t.attempts[g].step < t.attempts[h].consumed.value
      {
        if g in s.attempts { assert AttemptOk(s, s.attempts[g]); }
      }
    }
  }

  lemma LossKeeps(s: State, a: Action)
    requires Inv(s) && Enabled(s, a)
    ensures NothingLost(Step(s, a))
  {
    var t := Step(s, a);
    forall c | c in t.issued && c !in t.codes
      ensures t.issued[c].expires < t.clock || Spent(t, c)
    {
      if c !in s.codes {
        if Spent(s, c) {
          var h :| h in s.attempts && s.attempts[h].used == Some(c) && s.attempts[h].consumed.Some?;
          assert t.attempts[h] == s.attempts[h];
        }
      } else if a.Consume? {
        assert t.attempts[a.consumer].used == Some(c) && t.attempts[a.consumer].consumed.Some?;
      }
    }
  }

  lemma {:induction false} RunKeeps(actions: seq<Action>)
    ensures Inv(Run(actions))
  {
    if actions == [] {
    } else {
      var s, a := Run(actions[..|actions| - 1]), actions[|actions| - 1];
      RunKeeps(actions[..|actions| - 1]);
      if Enabled(s, a) {
        AttemptsKeep(s, a);
        RetiredKeep(s, a);
        LossKeeps(s, a);
      }
    }
  }

  // ---------------------------------------------------------------- theorems

  /** The last instant of a code: that of the first Issue that minted it. */
  function FirstIssue(actions: seq<Action>, code: Code): Option<int> {
    if actions == [] then None
    else
      var before, a := FirstIssue(actions[..|actions| - 1], code), actions[|actions| - 1];
      if before.None? && a.Issue? && a.minted == code then Some(a.at + a.ttl) else before
  }

  lemma {:induction false} IssuedAsMinted(actions: seq<Action>, code: Code)
    ensures code in Run(actions).issued <==> FirstIssue(actions, code).Some?
    ensures code in Run(actions).issued ==> FirstIssue(actions, code) == Some(Run(actions).issued[code].expires)
  {
    if actions != [] { IssuedAsMinted(actions[..|actions| - 1], code); }
  }

  /** A code that admits a phone was issued before the handshake's snapshot, had not expired at it, and
      nobody had consumed it before. */
  lemma {:induction false} AdmittingCodeWasLive(actions: seq<Action>, h: nat, g: nat)
    ensures var s := Run(actions);
            h in s.attempts && s.attempts[h].used.Some? ==>
              && var (a, code) := (s.attempts[h], s.attempts[h].used.value);
              && code in s.issued && s.issued[code].step < a.step
              && FirstIssue(actions, code).Some? && a.now <= FirstIssue(actions, code).value
              && (g in s.attempts && s.attempts[g].used == Some(code) && s.attempts[g].consumed.Some? ==>
                    a.step < s.attempts[g].consumed.value)
  {
    RunKeeps(actions);
    var s := Run(actions);
    if h in s.attempts {
      assert AttemptOk(s, s.attempts[h]);
      if s.attempts[h].used.Some? { IssuedAsMinted(actions, s.attempts[h].used.value); }
    }
    if g in s.attempts { assert Retired(s, s.attempts[g]); }
  }

  /** A snapshot has exactly the codes that were issued, have not expired and have not been spent: pruning never
      loses a live code, and nothing else ever gets in. */
  lemma {:induction false} SnapshotIsExact(actions: seq<Action>, who: nat, now: int, code: Code)
    requires Enabled(Run(actions), Snapshot(who, now))
    ensures var s, t := Run(actions), Run(actions + [Snapshot(who, now)]);
            && who in t.attempts && t.codes.Keys == t.attempts[who].snapshot
            && (code in t.attempts[who].snapshot <==>
                  FirstIssue(actions, code).Some? && now <= FirstIssue(actions, code).value && !Spent(s, code))
  {
    var s := Run(actions);
    IssuedAsMinted(actions, code);
    RunKeeps(actions);
    AfterOne(Step, NEW, actions, Snapshot(who, now));
    if Spent(s, code) {
      var h :| h in s.attempts && s.attempts[h].used == Some(code) && s.attempts[h].consumed.Some?;
      assert Retired(s, s.attempts[h]);
    }
  }

  /** Two handshakes that are still to be decided can both be admitted by a code exactly when both have it in their
      snapshots. */
  lemma {:induction false} BothAdmitted(actions: seq<Action>, h: nat, g: nat, code: Code)
    requires var s := Run(actions);
             h != g && h in s.attempts && g in s.attempts && s.attempts[h].used.None? && s.attempts[g].used.None?
    ensures var s, t := Run(actions), Run(actions + [Admit(h, code)] + [Admit(g, code)]);
            && h in t.attempts && g in t.attempts
            && (t.attempts[h].used == Some(code) == t.attempts[g].used
                <==> code in s.attempts[h].snapshot && code in s.attempts[g].snapshot)
  {
    AfterOne(Step, NEW, actions, Admit(h, code));
    AfterOne(Step, NEW, actions + [Admit(h, code)], Admit(g, code));
  }

  /** So a handshake that starts now can share the code another one holds exactly while it has neither expired nor
      been consumed: a code pairs one phone only when its snapshots wait for Consume. */
  lemma {:induction false} SharedUntilConsumed(actions: seq<Action>, h: nat, g: nat, now: int, code: Code)
    requires var s := Run(actions);
             && h in s.attempts && s.attempts[h].used.None? && code in s.attempts[h].snapshot
             && Enabled(s, Snapshot(g, now))
    ensures var s, t := Run(actions), Run(actions + [Snapshot(g, now)] + [Admit(h, code)] + [Admit(g, code)]);
            && h in t.attempts && g in t.attempts && FirstIssue(actions, code).Some?
            && (t.attempts[h].used == Some(code) == t.attempts[g].used
                <==> now <= FirstIssue(actions, code).value && !Spent(s, code))
  {
    RunKeeps(actions);
    assert AttemptOk(Run(actions), Run(actions).attempts[h]);
    IssuedAsMinted(actions, code);
    SnapshotIsExact(actions, g, now, code);
    AfterOne(Step, NEW, actions, Snapshot(g, now));
    BothAdmitted(actions + [Snapshot(g, now)], h, g, code);
  }

  /** Consume ends that: no handshake that starts after it has the code. */
  lemma {:induction false} ConsumedIsSpent(actions: seq<Action>, h: nat, g: nat, now: int)
    requires var s := Run(actions);
             h in s.attempts && s.attempts[h].used.Some? && s.attempts[h].consumed.None?
    ensures var s, t := Run(actions), Run(actions + [Consume(h)] + [Snapshot(g, now)]);
            && (g !in s.attempts && now >= s.clock ==> g in t.attempts)
            && (g !in s.attempts && g in t.attempts ==> s.attempts[h].used.value !in t.attempts[g].snapshot)
  {
    var s := Run(actions);
    AfterOne(Step, NEW, actions, Consume(h));
    AfterOne(Step, NEW, actions + [Consume(h)], Snapshot(g, now));
  }

  /** One handshake was over, code consumed, before the other took its snapshot. */
  ghost predicate Before(a: Attempt, b: Attempt) {
    a.consumed.Some? && a.consumed.value <= b.step
  }

  /** Two handshakes admitted by one code overlap: of those that do not, each code pairs at most one. */
  lemma {:induction false} OneCodeOnePhone(actions: seq<Action>, h: nat, g: nat)
    ensures var s := Run(actions);
            h != g && h in s.attempts && g in s.attempts
            && s.attempts[h].used.Some? && s.attempts[h].used == s.attempts[g].used ==>
              !Before(s.attempts[h], s.attempts[g]) && !Before(s.attempts[g], s.attempts[h])
  {
    AdmittingCodeWasLive(actions, h, g);
    AdmittingCodeWasLive(actions, g, h);
  }

  /** Overlapping handshakes can share a code: the snapshot and Consume are separate lock sections. */
  lemma OverlapPairsTwo(code: Code)
    ensures var s := Run([Issue(code, 300, 0), Snapshot(1, 1), Snapshot(2, 1), Admit(1, code), Admit(2, code)]);
            && 1 in s.attempts && s.attempts[1].used == Some(code)
            && 2 in s.attempts && s.attempts[2].used == Some(code)
  {
    var a := [Issue(code, 300, 0), Snapshot(1, 1), Snapshot(2, 1), Admit(1, code), Admit(2, code)];
    assert a[..4][..3] == a[..3] && a[..3][..2] == a[..2] && a[..2][..1] == a[..1] && a[..1][..0] == [];
    var s1 := Run(a[..1]);
    assert s1 == Step(Run([]), a[0]) && code in s1.codes;
    var s2 := Run(a[..2]);
    assert s2 == Step(s1, a[1]) && code in s2.codes && code in s2.attempts[1].snapshot;
    var s3 := Run(a[..3]);
    assert s3 == Step(s2, a[2]) && code in s3.attempts[2].snapshot;
    var s4 := Run(a[..4]);
    assert s4 == Step(s3, a[3]) && Run(a) == Step(s4, a[4]);
  }

  // ---------------------------------------------------------------- in place

  class Pairings {
    var codes: map<Code, int>

    constructor ()
      ensures codes == map[]
    {
      codes := map[];
    }

    method Issue(code: Code, ttl: int, now: int)
      modifies this
      ensures codes == old(codes)[code := now + ttl]
    {
      codes := codes[code := now + ttl];
    }

    /** Lists the codes that have not expired, in any order, and drops the others. */
    method Outstanding(now: int) returns (out: seq<Code>)
      modifies this
      ensures codes == Live(old(codes), now)
      ensures forall c :: c in out <==> c in codes
      ensures forall i, k :: 0 <= i < k < |out| ==> out[i] != out[k]
    {
      out := [];
      ghost var before := codes;
      var left := codes.Keys;
      while left != {}
        invariant left <= before.Keys && left <= codes.Keys
        invariant forall c :: c in codes <==> c in before && (c in left || now <= before[c])
        invariant forall c :: c in codes ==> codes[c] == before[c]
        invariant forall c :: c in out <==> c in codes && c !in left
        invariant forall i, k :: 0 <= i < k < |out| ==> out[i] != out[k]
        decreases left
      {
        var c :| c in left;
        left := left - {c};
        if now > codes[c] {
          codes := codes - {c};
        } else {
          out := out + [c];
        }
      }
    }

    method Consume(code: Code)
      modifies this
      ensures codes == old(codes) - {code}
    {
      ghost var before := codes;
      var left := codes.Keys;
      while left != {}
        invariant left <= codes.Keys
        invariant forall c :: c in codes <==> c in before && (c != code || c in left)
        invariant forall c :: c in codes ==> codes[c] == before[c]
        decreases left
      {
        var c :| c in left;
        left := left - {c};
        if c == code {
          codes := codes - {c};
        }
      }
    }
  }
}
