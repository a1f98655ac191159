/**
 * Channel numbers of a relay session (internal/relay/relay.go): a uint16 that is bumped, skips 0 and
 * then skips numbers still in use.
 */
module Channels {
  import opened Bytes
  import opened Runs

  /** Non-zero uint16 values. */
  const CHANNELS: nat := 0xFFFF

  /** nextCh++ in uint16, stepping over the control channel. */
  function Bump(n: nat): nat {
    var m := (n + 1) % 0x1_0000;
    if m == 0 then 1 else m
  }

  /** The number reached after `position` bumps from 0. */
  function Number(position: nat): nat {
    if position == 0 then 0 else 1 + (position - 1) % CHANNELS
  }

  lemma NextRemainder(n: nat)
    ensures (n + 1) % CHANNELS == if n % CHANNELS == CHANNELS - 1 then 0 else n % CHANNELS + 1
  {
  }

  lemma BumpNumber(position: nat)
    ensures Bump(Number(position)) == Number(position + 1)
    ensures position > 0 ==> 1 <= Number(position) <= CHANNELS
  {
    if position > 0 {
      NextRemainder(position - 1);
      BumpInRange((position - 1) % CHANNELS);
    }
  }

  lemma BumpInRange(r: nat)
    requires r < CHANNELS
    ensures Bump(r + 1) == if r == CHANNELS - 1 then 1 else r + 2
  {
  }

  /** Numbers at different positions coincide only a whole round apart. */
  lemma NumbersDiffer(a: nat, b: nat)
    requires 0 < a < b
    ensures Number(a) == Number(b) ==> b >= a + CHANNELS
  {
    if Number(a) == Number(b) {
      var r := (a - 1) % CHANNELS;
      assert a - 1 == (a - 1) / CHANNELS * CHANNELS + r && b - 1 == (b - 1) / CHANNELS * CHANNELS + r;
    }
  }

  ghost predicate Taken(live: set<nat>) {
    forall c :: c in live ==> 1 <= c <= CHANNELS
  }

  /** The numbers of the positions from a to b. */
  ghost function Visited(a: nat, b: nat): (s: set<nat>)
    requires a <= b
  {
    if a == b then {} else Visited(a, b - 1) + {Number(b)}
  }

  lemma {:induction false} VisitedAll(a: nat, b: nat)
    requires a <= b <= a + CHANNELS
    ensures |Visited(a, b)| == b - a
    ensures forall c :: c in Visited(a, b) ==> exists q :: a < q <= b && c == Number(q)
    decreases b
  {
    if a < b {
      VisitedAll(a, b - 1);
      forall q | a < q < b
        ensures Number(q) != Number(b)
      {
        NumbersDiffer(q, b);
      }
      assert Number(b) == Number(b);
    }
  }

  /** Every number passed after position a, up to b, is held by a live phone. */
  ghost predicate AllTaken(live: set<nat>, a: nat, b: nat) {
    forall q :: a < q <= b ==> Number(q) in live
  }

  /** A run of taken numbers is at most as long as there are live phones. */
  lemma Pigeonhole(live: set<nat>, a: nat, b: nat)
    requires a <= b <= a + CHANNELS && AllTaken(live, a, b)
    ensures b - a <= |live|
  {
    VisitedAll(a, b);
    SubsetSize(Visited(a, b), live);
  }

  /** The position the allocator stops at, having looked at those up to b: the first whose number
      nobody holds, at most one further on than there are live phones. */
  ghost function FirstFree(live: set<nat>, a: nat, b: nat): (p: nat)
    requires |live| < CHANNELS && a <= b <= a + |live| && AllTaken(live, a, b)
    ensures b < p <= a + |live| + 1 && Number(p) !in live && AllTaken(live, a, p - 1)
    decreases a + CHANNELS - b
  {
    if Number(b + 1) !in live then b + 1
    else
      Pigeonhole(live, a, b + 1);
      FirstFree(live, a, b + 1)
  }

  /** Admissions and departures in any order. `at` is the position of each assignment so far, `live`
      the set of numbers in use right after it. */
  datatype Alloc = Alloc(taken: set<nat>, at: seq<nat>, live: seq<set<nat>>)

  datatype Op = Admit | Remove(ch: nat)

  function Position(a: Alloc): nat {
    if a.at == [] then 0 else a.at[|a.at| - 1]
  }

  ghost function Apply(a: Alloc, maxPhones: nat, op: Op): Alloc
    requires maxPhones <= CHANNELS
  {
    match op
    case Remove(ch) => a.(taken := a.taken - {ch})
    case Admit =>
      if |a.taken| >= maxPhones then a
      else
        var p := FirstFree(a.taken, Position(a), Position(a));
        var taken := a.taken + {Number(p)};
        Alloc(taken, a.at + [p], a.live + [taken])
  }

  class Phone {
    var ch: nat
    var cancelled: bool

    constructor ()
      ensures ch == 0 && !cancelled
    {
      ch, cancelled := 0, false;
    }
  }

  /** The registry of one session's phones. */
  class Session {
    var phones: map<nat, Phone>
    var nextCh: nat
    ghost var position: nat
    /** What the allocator's machine makes of the same admissions and departures. */
    ghost var alloc: Alloc

    constructor ()
      ensures phones == map[] && Valid() && position == 0 && Matches() && alloc == Alloc({}, [], [])
    {
      phones, nextCh, position, alloc := map[], 0, 0, Alloc({}, [], []);
    }

    ghost predicate Matches()
      reads this
    {
      alloc.taken == phones.Keys && Position(alloc) == position
    }

    ghost predicate Valid()
      reads this
    {
      nextCh == Number(position) && Taken(phones.Keys)
    }

    /** Registers p under the first number after nextCh that no live phone holds, at most one
        number further on than there are live phones. */
    method Admit(p: Phone, maxPhones: nat) returns (ch: Option<nat>)
      requires Valid() && Matches() && maxPhones <= CHANNELS
      modifies this, p`ch
      ensures Valid() && Matches() && alloc == Apply(old(alloc), maxPhones, Op.Admit)
      ensures ch.None? <==> |old(phones)| >= maxPhones
      ensures ch.None? ==> phones == old(phones) && p.ch == old(p.ch)
      ensures ch.None? ==> nextCh == old(nextCh) && position == old(position)
      ensures ch.Some? ==>
                && 1 <= ch.value <= CHANNELS && ch.value !in old(phones)
                && position == FirstFree(old(phones.Keys), old(position), old(position))
                && ch.value == nextCh == p.ch == Number(position)
                && phones == old(phones)[ch.value := p]
                && |phones| <= maxPhones
    {
      if |phones| >= maxPhones {
        return None;
      }
      Advance();
      p.ch := nextCh;
      phones := phones[nextCh := p];
      alloc := Apply(alloc, maxPhones, Op.Admit);
      return Some(nextCh);
    }

    /** The search loop: leaves nextCh at the first number after it that is free. */
    method Advance()
      requires Valid() && |phones| < CHANNELS
      modifies this`nextCh, this`position
      ensures Valid() && 1 <= nextCh <= CHANNELS && nextCh !in phones
      ensures position == FirstFree(phones.Keys, old(position), old(position))
    {
      ghost var live, start := phones.Keys, position;
      nextCh, position := Bump(nextCh), position + 1;
      BumpNumber(start);
      while nextCh in phones
        invariant start < position <= start + |live| + 1 && nextCh == Number(position)
        invariant AllTaken(live, start, position - 1)
        invariant FirstFree(live, start, start) == FirstFree(live, start, position - 1)
        decreases start + |live| + 1 - position
      {
        Pigeonhole(live, start, position);
        BumpNumber(position);
        nextCh, position := Bump(nextCh), position + 1;
      }
      BumpNumber(position);
    }

    /** The deferred cleanup of servePhone: removes the phone itself and never a successor. */
    method Leave(p: Phone)
      requires Valid() && Matches()
      modifies this`phones, this`alloc
      ensures Valid() && Matches()
      ensures alloc == if p.ch in old(phones) && old(phones)[p.ch] == p then Apply(old(alloc), 0, Remove(p.ch))
                       else old(alloc)
      ensures phones == if p.ch in old(phones) && old(phones)[p.ch] == p then old(phones) - {p.ch} else old(phones)
    {
      if p.ch in phones && phones[p.ch] == p {
        phones, alloc := phones - {p.ch}, Apply(alloc, 0, Remove(p.ch));
      }
    }

    method ClosePhone(ch: nat) returns (p: Phone?)
      requires Valid() && Matches()
      modifies this`phones, this`alloc, if ch in phones then {phones[ch]} else {}
      ensures Valid() && phones == old(phones) - {ch}
      ensures Matches() && alloc == Apply(old(alloc), 0, Remove(ch))
      ensures p == if ch in old(phones) then old(phones)[ch] else null
      ensures p != null ==> p.cancelled && p.ch == old(p.ch)
    {
      p := if ch in phones then phones[ch] else null;
      phones, alloc := phones - {ch}, Apply(alloc, 0, Remove(ch));
      if p != null {
        p.cancelled := true;
      }
    }

    /** When the bridge is gone: nobody stays registered, and everybody is told to stop. */
    method CloseAllPhones()
      requires Valid()
      modifies this`phones, phones.Values
      ensures Valid() && phones == map[]
      ensures forall c :: c in old(phones) ==> old(phones)[c].cancelled
    {
      var taken := phones;
      phones := map[];
      var left := taken.Keys;
      while left != {}
        invariant left <= taken.Keys && phones == map[] && Valid()
        invariant forall c :: c in taken && c !in left ==> taken[c].cancelled
        decreases left
      {
        var c :| c in left;
        taken[c].cancelled := true;
        left := left - {c};
      }
    }
  }

  // ---------------------------------------------------------------- reuse of numbers

  ghost function Applier(maxPhones: nat): (Alloc, Op) -> Alloc
    requires maxPhones <= CHANNELS
  {
    (a, op) => Apply(a, maxPhones, op)
  }

  ghost function Run(maxPhones: nat, ops: seq<Op>): Alloc
    requires maxPhones <= CHANNELS
  {
    After(Applier(maxPhones), Alloc({}, [], []), ops)
  }

  ghost predicate Shape(a: Alloc, maxPhones: nat) {
    && |a.live| == |a.at| && Taken(a.taken) && |a.taken| <= maxPhones
    && (forall i :: 0 <= i < |a.at| ==> 0 < a.at[i] <= Position(a))
    && (forall i, k :: 0 <= i < k < |a.at| ==> a.at[i] < a.at[k])
    && (forall i :: 0 <= i < |a.live| ==> |a.live[i]| <= maxPhones && Number(a.at[i]) in a.live[i])
  }

  /** Whoever is live now was live after assignment i, or was assigned since. */
  ghost predicate LiveSince(a: Alloc, i: nat)
    requires i < |a.at| == |a.live|
  {
    forall c :: c in a.taken && c !in a.live[i] ==> exists k :: i < k < |a.at| && Number(a.at[k]) == c
  }

  /** In the round after assignment i, a position that was passed over was held by a phone live then. */
  ghost predicate SkippedWasLive(a: Alloc, i: nat)
    requires i < |a.at| == |a.live|
  {
    forall q :: a.at[i] < q <= Position(a) && q < a.at[i] + CHANNELS && q !in a.at[i..] ==> Number(q) in a.live[i]
  }

  ghost predicate AllocInv(a: Alloc, maxPhones: nat) {
    && Shape(a, maxPhones)
    && forall i :: 0 <= i < |a.at| ==> LiveSince(a, i) && SkippedWasLive(a, i)
  }

  lemma AdmitShape(a: Alloc, maxPhones: nat)
    requires maxPhones <= CHANNELS && Shape(a, maxPhones) && |a.taken| < maxPhones
    ensures var b := Apply(a, maxPhones, Admit);
            Shape(b, maxPhones) && |b.at| == |a.at| + 1 && Position(b) > Position(a)
  {
    var b := Apply(a, maxPhones, Admit);
    BumpNumber(Position(b) - 1);
    assert Number(Position(b)) !in a.taken;
  }

  lemma AdmitSkips(a: Alloc, maxPhones: nat, i: nat)
    requires maxPhones <= CHANNELS && AllocInv(a, maxPhones) && |a.taken| < maxPhones && i < |a.at|
    ensures |Apply(a, maxPhones, Admit).at| == |a.at| + 1 == |Apply(a, maxPhones, Admit).live|
    ensures SkippedWasLive(Apply(a, maxPhones, Admit), i)
  {
    var b := Apply(a, maxPhones, Admit);
    AdmitShape(a, maxPhones);
    assert b.at[i..] == a.at[i..] + [Position(b)];
    forall q | b.at[i] < q <= Position(b) && q < b.at[i] + CHANNELS && q !in b.at[i..]
      ensures Number(q) in b.live[i]
    {
      if q <= Position(a) {
        assert SkippedWasLive(a, i) && q !in a.at[i..];
      } else {
        assert q != Position(b) by { assert Position(b) in b.at[i..]; }
        assert Number(q) in a.taken;
        if Number(q) !in a.live[i] {
          assert LiveSince(a, i);
          var k :| i < k < |a.at| && Number(a.at[k]) == Number(q);
          NumbersDiffer(a.at[k], q);
        }
      }
    }
  }

  lemma AdmitKeeps(a: Alloc, maxPhones: nat)
    requires maxPhones <= CHANNELS && AllocInv(a, maxPhones) && |a.taken| < maxPhones
    ensures AllocInv(Apply(a, maxPhones, Admit), maxPhones)
  {
    var b := Apply(a, maxPhones, Admit);
    AdmitShape(a, maxPhones);
    forall i | 0 <= i < |b.at|
      ensures LiveSince(b, i) && SkippedWasLive(b, i)
    {
      if i < |a.at| {
        AdmitSkips(a, maxPhones, i);
        assert LiveSince(a, i);
        forall c | c in b.taken && c !in b.live[i]
          ensures exists k :: i < k < |b.at| && Number(b.at[k]) == c
        {
          if c == Number(Position(b)) {
            assert Number(b.at[|a.at|]) == c;
          } else {
            var k :| i < k < |a.at| && Number(a.at[k]) == c;
            assert Number(b.at[k]) == c;
          }
        }
      }
    }
  }

  lemma RemoveKeeps(a: Alloc, maxPhones: nat, ch: nat)
    requires maxPhones <= CHANNELS && AllocInv(a, maxPhones)
    ensures AllocInv(Apply(a, maxPhones, Remove(ch)), maxPhones)
  {
    var b := Apply(a, maxPhones, Remove(ch));
    SubsetSize(b.taken, a.taken);
    forall i | 0 <= i < |b.at|
      ensures LiveSince(b, i) && SkippedWasLive(b, i)
    {
      assert LiveSince(a, i) && SkippedWasLive(a, i);
    }
  }

  lemma NobodyYet(maxPhones: nat)
    ensures AllocInv(Alloc({}, [], []), maxPhones)
  {
  }

  lemma {:induction false} AllocRunInv(maxPhones: nat, ops: seq<Op>)
    requires maxPhones <= CHANNELS
    ensures AllocInv(Run(maxPhones, ops), maxPhones)
  {
    hide AllocInv;
    if ops == [] {
      NobodyYet(maxPhones);
    } else {
      var a := Run(maxPhones, ops[..|ops| - 1]);
      AllocRunInv(maxPhones, ops[..|ops| - 1]);
      match ops[|ops| - 1]
      case Admit => if |a.taken| < maxPhones { AdmitKeeps(a, maxPhones); }
      case Remove(ch) => RemoveKeeps(a, maxPhones, ch);
    }
  }

  /** Live phones hold distinct non-zero numbers, at most maxPhones of them, whatever happened. */
  lemma {:induction false} LiveWithinCap(maxPhones: nat, ops: seq<Op>)
    requires maxPhones <= CHANNELS
    ensures Taken(Run(maxPhones, ops).taken) && |Run(maxPhones, ops).taken| <= maxPhones
  {
    AllocRunInv(maxPhones, ops);
  }

  /** Every operation's effect on the numbers in use: a departure frees its number at once; an admission is refused
      exactly at the cap, and otherwise takes the number reached by passing over numbers in use and nothing else. */
  lemma {:induction false} NumbersInUse(maxPhones: nat, ops: seq<Op>, op: Op) returns (p: nat)
    requires maxPhones <= CHANNELS
    ensures var a, b := Run(maxPhones, ops), Run(maxPhones, ops + [op]);
            match op
            case Remove(ch) => b == a.(taken := a.taken - {ch})
            case Admit =>
              if |a.taken| >= maxPhones then b == a
              else
                && p > Position(a) && Number(p) !in a.taken && AllTaken(a.taken, Position(a), p - 1)
                && b.at == a.at + [p] && b.taken == a.taken + {Number(p)}
  {
    hide After, Apply, AllTaken, Number;
    AfterOne(Applier(maxPhones), Alloc({}, [], []), ops, op);
    p := Position(Run(maxPhones, ops + [op]));
    match op
    case Admit => AdmissionTakes(Run(maxPhones, ops), maxPhones);
    case Remove(ch) => DepartureFrees(Run(maxPhones, ops), maxPhones, ch);
  }

  lemma AdmissionTakes(a: Alloc, maxPhones: nat)
    requires maxPhones <= CHANNELS
    ensures var b := Apply(a, maxPhones, Op.Admit);
            var p := Position(b);
            if |a.taken| >= maxPhones then b == a
            else
              && p > Position(a) && Number(p) !in a.taken && AllTaken(a.taken, Position(a), p - 1)
              && b.at == a.at + [p] && b.taken == a.taken + {Number(p)}
  {
    hide Number, AllTaken;
    NoneBetween(a.taken, Position(a));
  }

  lemma NoneBetween(live: set<nat>, a: nat)
    ensures AllTaken(live, a, a)
  {
  }

  lemma DepartureFrees(a: Alloc, maxPhones: nat, ch: nat)
    requires maxPhones <= CHANNELS
    ensures Apply(a, maxPhones, Remove(ch)) == a.(taken := a.taken - {ch})
  {
  }

  /** Numbers are counted up from 1, and after 65,535 comes 1. */
  lemma NumbersCount(position: nat)
    ensures Number(0) == 0
    ensures Number(position + 1) == if Number(position) == 65_535 then 1 else Number(position) + 1
  {
    BumpNumber(position);
    if position > 0 {
      NextRemainder(position - 1);
    }
  }

  lemma NotThere(at: seq<nat>, n: nat, x: nat)
    requires n <= |at| && (forall i :: 0 <= i < n ==> at[i] < x) && (n < |at| ==> at[n] > x)
    requires forall i, k :: 0 <= i < k < |at| ==> at[i] < at[k]
    ensures x !in at
  {
    forall i | n <= i < |at|
      ensures at[i] > x
    {
    }
  }

  /** The positions strictly between a and b: n of them in `at`, the others passed over, with
      different numbers s. */
  lemma {:induction false} CountPassed(at: seq<nat>, skipped: set<nat>, a: nat, b: nat) returns (n: nat, s: set<nat>)
    requires 0 < a < b <= a + CHANNELS
    requires forall q :: a < q < b ==> q in at || Number(q) in skipped
    requires forall i, k :: 0 <= i < k < |at| ==> at[i] < at[k]
    requires forall i :: 0 <= i < |at| ==> a < at[i]
    ensures n <= |at| && s <= skipped && n + |s| == b - 1 - a
    ensures (forall i :: 0 <= i < n ==> at[i] < b) && (n < |at| ==> at[n] >= b)
    ensures forall c :: c in s ==> exists q :: a < q < b && c == Number(q)
    decreases b
  {
    hide Number;
    if b == a + 1 {
      n, s := 0, {};
    } else {
      n, s := CountPassed(at, skipped, a, b - 1);
      if n < |at| && at[n] == b - 1 {
        n := n + 1;
      } else {
        NotThere(at, n, b - 1);
        if Number(b - 1) in s {
          var q :| a < q < b - 1 && Number(b - 1) == Number(q);
          NumbersDiffer(q, b - 1);
        }
        s := s + {Number(b - 1)};
      }
    }
  }

  /** Between two assignments of one number lie at least 65,535 - maxPhones others. */
  lemma {:induction false} NumberReuse(maxPhones: nat, ops: seq<Op>, i: nat, j: nat)
    requires maxPhones <= CHANNELS
    ensures var a := Run(maxPhones, ops);
            i < j < |a.at| && Number(a.at[i]) == Number(a.at[j]) ==> j - i - 1 >= CHANNELS - maxPhones
  {
    hide AllocInv;
    var a := Run(maxPhones, ops);
    AllocRunInv(maxPhones, ops);
    if i < j < |a.at| && Number(a.at[i]) == Number(a.at[j]) {
      RoundBetween(a, maxPhones, i, j);
    }
  }

  /** A whole round lies between them, and of its numbers only those live then were passed over. */
  lemma RoundBetween(a: Alloc, maxPhones: nat, i: nat, j: nat)
    requires AllocInv(a, maxPhones) && i < j < |a.at| && Number(a.at[i]) == Number(a.at[j])
    ensures j - i - 1 >= CHANNELS - maxPhones
  {
    hide Number;
    var p := a.at[i];
    NumbersDiffer(p, a.at[j]);
    var between, held := a.at[i + 1..j], a.live[i] - {Number(p)};
    PassedOrHeld(a, maxPhones, i, j);
    assert forall q :: p < q < p + CHANNELS ==> q in between || Number(q) in held;
    var n, s := CountPassed(between, held, p, p + CHANNELS);
    SubsetSize(s, held);
    assert |held| == |a.live[i]| - 1;
  }

  lemma PassedOrHeld(a: Alloc, maxPhones: nat, i: nat, j: nat)
    requires AllocInv(a, maxPhones) && i < j < |a.at| && a.at[j] >= a.at[i] + CHANNELS
    ensures var p := a.at[i];
            forall q :: p < q < p + CHANNELS ==> q in a.at[i + 1..j] || Number(q) in a.live[i] - {Number(p)}
  {
    var p, between := a.at[i], a.at[i + 1..j];
    assert SkippedWasLive(a, i);
    forall q | p < q < p + CHANNELS
      ensures q in between || Number(q) in a.live[i] - {Number(p)}
    {
      NumbersDiffer(p, q);
      if q in a.at[i..] {
        var k :| i <= k < |a.at| && a.at[k] == q;
        assert k < j && between[k - i - 1] == q;
      }
    }
  }
}
