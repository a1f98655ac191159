/**
 * The relay's per-phone token bucket (internal/relay/relay.go): tokens and time are reals, as rounding is
 * not the point. One bucket is shared by both directions of a phone.
 */
module TokenBucket {

  datatype Config = Config(rate: real, burst: real, start: real)

  datatype State = State(tokens: real, last: real)

  datatype Call = Call(n: nat, now: real)

  function Min(a: real, b: real): real {
    if a <= b then a else b
  }

  /** What the rate pays in between two times. */
  function Earns(rate: real, from: real, to: real): real {
    (to - from) * rate
  }

  function Refill(c: Config, s: State, now: real): real {
    Min(c.burst, s.tokens + Earns(c.rate, s.last, now))
  }

  function TakeNext(c: Config, s: State, call: Call): (State, bool) {
    var tokens := Refill(c, s, call.now);
    if call.n as real > tokens then (State(tokens, call.now), false)
    else (State(tokens - call.n as real, call.now), true)
  }

  class Bucket {
    var tokens: real
    var last: real
    const rate: real
    const burst: real

    constructor (rate: nat, burst: nat, now: real)
      ensures this.rate == rate as real && this.burst == burst as real
      ensures tokens == burst as real && last == now
    {
      this.rate, this.burst := rate as real, burst as real;
      tokens, last := burst as real, now;
    }

    method Take(n: nat, now: real) returns (ok: bool)
      modifies this
      ensures (State(tokens, last), ok)
           == TakeNext(Config(rate, burst, 0.0), State(old(tokens), old(last)), Call(n, now))
    {
      tokens := Min(burst, tokens + Earns(rate, last, now));
      last := now;
      if n as real > tokens {
        return false;
      }
      tokens := tokens - n as real;
      return true;
    }
  }

  /** A run: calls at non-decreasing times, from a full bucket. */
  ghost predicate Valid(c: Config, calls: seq<Call>) {
    && c.rate >= 0.0 && c.burst >= 0.0
    && (forall i :: 0 <= i < |calls| ==> c.start <= calls[i].now)
    && (forall i, k :: 0 <= i < k < |calls| ==> calls[i].now <= calls[k].now)
  }

  /** The bucket before call k. */
  function Before(c: Config, calls: seq<Call>, k: nat): State
    requires k <= |calls|
  {
    if k == 0 then State(c.burst, c.start) else TakeNext(c, Before(c, calls, k - 1), calls[k - 1]).0
  }

  /** What call k is answered. */
  predicate Admitted(c: Config, calls: seq<Call>, k: nat)
    requires k < |calls|
  {
    TakeNext(c, Before(c, calls, k), calls[k]).1
  }

  function Answers(c: Config, calls: seq<Call>): (ok: seq<bool>)
    ensures |ok| == |calls| && forall k :: 0 <= k < |calls| ==> ok[k] == Admitted(c, calls, k)
  {
    seq(|calls|, k requires 0 <= k < |calls| => Admitted(c, calls, k))
  }

  /** Bytes admitted by the calls from i to k-1. */
  function Bytes(calls: seq<Call>, ok: seq<bool>, i: nat, k: nat): real
    requires k <= |calls| == |ok|
  {
    if k <= i then 0.0 else Bytes(calls, ok, i, k - 1) + if ok[k - 1] then calls[k - 1].n as real else 0.0
  }

  // ---------------------------------------------------------------- the linear core

  /** earned[k] is what the rate has paid in by call k, level[k] the tokens call k finds. */
  ghost predicate Tracks(burst: real, earned: seq<real>, calls: seq<Call>, ok: seq<bool>, level: seq<real>) {
    && |earned| == |calls| == |ok| == |level| && burst >= 0.0
    && (|calls| > 0 ==> earned[0] >= 0.0 && level[0] == burst)
    && (forall k :: 0 <= k < |calls| ==> ok[k] == (calls[k].n as real <= level[k]))
    && forall k :: 0 < k < |calls| ==>
         && earned[k - 1] <= earned[k]
         && level[k] == Min(burst, level[k - 1] - (if ok[k - 1] then calls[k - 1].n as real else 0.0)
                                   + (earned[k] - earned[k - 1]))
  }

  /** The level at call k is the least of what would be left had the bucket last been full at call i. */
  lemma {:induction false} LevelIsLeast(
    burst: real, earned: seq<real>, calls: seq<Call>, ok: seq<bool>, level: seq<real>, k: nat)
    returns (full: nat)
    requires Tracks(burst, earned, calls, ok, level) && k < |calls|
    ensures full <= k && level[k] == burst + (earned[k] - earned[full]) - Bytes(calls, ok, full, k)
    ensures forall i :: 0 <= i <= k ==> level[k] <= burst + (earned[k] - earned[i]) - Bytes(calls, ok, i, k)
    ensures 0.0 <= level[k] <= burst
  {
    if k == 0 {
      full := 0;
    } else {
      full := LevelIsLeast(burst, earned, calls, ok, level, k - 1);
      if level[k] == burst {
        full := k;
      }
    }
  }

  // ---------------------------------------------------------------- runs

  function Earned(c: Config, calls: seq<Call>): (e: seq<real>)
    ensures |e| == |calls| && forall k :: 0 <= k < |calls| ==> e[k] == Credit(c, calls[k].now)
  {
    seq(|calls|, k requires 0 <= k < |calls| => Credit(c, calls[k].now))
  }

  function Credit(c: Config, now: real): real {
    Earns(c.rate, c.start, now)
  }

  function Levels(c: Config, calls: seq<Call>): (l: seq<real>)
    ensures |l| == |calls| && forall k :: 0 <= k < |calls| ==> l[k] == Refill(c, Before(c, calls, k), calls[k].now)
  {
    seq(|calls|, k requires 0 <= k < |calls| => Refill(c, Before(c, calls, k), calls[k].now))
  }

  lemma CreditDifference(c: Config, a: real, b: real)
    requires c.rate >= 0.0 && a <= b
    ensures Earns(c.rate, a, b) == c.rate * (b - a) == Credit(c, b) - Credit(c, a) >= 0.0
  {
    var x, y, r := a - c.start, b - c.start, c.rate;
    assert (y - x) * r == y * r - x * r;
  }

  lemma RefillCredit(c: Config, s: State, now: real)
    requires c.rate >= 0.0 && s.last <= now
    ensures Refill(c, s, now) == Min(c.burst, s.tokens + (Credit(c, now) - Credit(c, s.last)))
    ensures Credit(c, s.last) <= Credit(c, now) && Credit(c, c.start) == 0.0
  {
    CreditDifference(c, s.last, now);
  }

  lemma {:induction false} LastCall(c: Config, calls: seq<Call>, k: nat)
    requires 0 < k <= |calls|
    ensures Before(c, calls, k).last == calls[k - 1].now
    ensures Before(c, calls, k).tokens
         == Levels(c, calls)[k - 1] - if Answers(c, calls)[k - 1] then calls[k - 1].n as real else 0.0
  {
  }

  lemma TracksAt(c: Config, calls: seq<Call>, k: nat)
    requires Valid(c, calls) && 0 < k < |calls|
    ensures Earned(c, calls)[k - 1] <= Earned(c, calls)[k]
    ensures Levels(c, calls)[k] ==
            Min(c.burst, Levels(c, calls)[k - 1] - (if Answers(c, calls)[k - 1] then calls[k - 1].n as real else 0.0)
                         + (Earned(c, calls)[k] - Earned(c, calls)[k - 1]))
  {
    LastCall(c, calls, k);
    RefillCredit(c, Before(c, calls, k), calls[k].now);
  }

  lemma TracksFirst(c: Config, calls: seq<Call>)
    requires Valid(c, calls) && 0 < |calls|
    ensures Earned(c, calls)[0] >= 0.0 && Levels(c, calls)[0] == c.burst
  {
    RefillCredit(c, Before(c, calls, 0), calls[0].now);
  }

  lemma RunTracks(c: Config, calls: seq<Call>)
    requires Valid(c, calls)
    ensures Tracks(c.burst, Earned(c, calls), calls, Answers(c, calls), Levels(c, calls))
  {
    if |calls| > 0 {
      TracksFirst(c, calls);
    }
    forall k | 0 < k < |calls|
      ensures Earned(c, calls)[k - 1] <= Earned(c, calls)[k]
      ensures Levels(c, calls)[k] ==
            Min(c.burst, Levels(c, calls)[k - 1] - (if Answers(c, calls)[k - 1] then calls[k - 1].n as real else 0.0)
                         + (Earned(c, calls)[k] - Earned(c, calls)[k - 1]))
    {
      TracksAt(c, calls, k);
    }
  }

  /** The exactness of the linear core. */
  lemma CoreIsExact(burst: real, earned: seq<real>, calls: seq<Call>, ok: seq<bool>, level: seq<real>, k: nat)
    requires Tracks(burst, earned, calls, ok, level) && k < |calls|
    ensures ok[k] <==>
              forall i :: 0 <= i <= k ==>
                Bytes(calls, ok, i, k) + calls[k].n as real <= burst + (earned[k] - earned[i])
    ensures ok[k] ==> Bytes(calls, ok, 0, k) + calls[k].n as real <= burst + earned[k]
  {
    var full := LevelIsLeast(burst, earned, calls, ok, level, k);
  }

  /** Admitting n more at call k keeps what was admitted since `from`, by calls i.., within the allowance. */
  predicate Within(c: Config, calls: seq<Call>, from: real, i: nat, k: nat)
    requires k < |calls|
  {
    Bytes(calls, Answers(c, calls), i, k) + calls[k].n as real <= c.burst + c.rate * (calls[k].now - from)
  }

  lemma WithinLinear(c: Config, calls: seq<Call>, i: nat, k: nat)
    requires Valid(c, calls) && i <= k < |calls|
    ensures Within(c, calls, calls[i].now, i, k) <==>
            Bytes(calls, Answers(c, calls), i, k) + calls[k].n as real
              <= c.burst + (Earned(c, calls)[k] - Earned(c, calls)[i])
  {
    hide Credit, Bytes;
    CreditDifference(c, calls[i].now, calls[k].now);
  }

  lemma WithinFromStart(c: Config, calls: seq<Call>, k: nat)
    requires Valid(c, calls) && k < |calls|
    ensures Within(c, calls, c.start, 0, k) <==>
            Bytes(calls, Answers(c, calls), 0, k) + calls[k].n as real <= c.burst + Earned(c, calls)[k]
  {
    hide Credit, Bytes;
    CreditDifference(c, c.start, calls[k].now);
    StartCredit(c);
  }

  lemma StartCredit(c: Config)
    ensures Credit(c, c.start) == 0.0
  {
  }

  /** take(n) succeeds exactly when, counted from the bucket's creation and from every call so far, the
      bytes admitted since then plus n stay within burst + rate * elapsed. */
  lemma TakeIsExact(c: Config, calls: seq<Call>, k: nat)
    requires Valid(c, calls) && k < |calls|
    ensures Admitted(c, calls, k) <==>
              Within(c, calls, c.start, 0, k) && forall i :: 0 <= i <= k ==> Within(c, calls, calls[i].now, i, k)
  {
    hide Bytes, Within, Credit, Tracks;
    RunTracks(c, calls);
    CoreIsExact(c.burst, Earned(c, calls), calls, Answers(c, calls), Levels(c, calls), k);
    WithinFromStart(c, calls, k);
    forall i | 0 <= i <= k
      ensures Within(c, calls, calls[i].now, i, k) <==>
              Bytes(calls, Answers(c, calls), i, k) + calls[k].n as real
                <= c.burst + (Earned(c, calls)[k] - Earned(c, calls)[i])
    {
      WithinLinear(c, calls, i, k);
    }
  }

  /** Over any interval the bytes admitted, in both directions together, are at most burst + rate * length;
      and the level never leaves [0, burst]. */
  lemma IntervalBound(c: Config, calls: seq<Call>, i: nat, k: nat, from: real, to: real)
    requires Valid(c, calls) && i <= k < |calls| && from <= calls[i].now && calls[k].now <= to
    ensures Bytes(calls, Answers(c, calls), i, k + 1) <= c.burst + c.rate * (to - from)
    ensures 0.0 <= Before(c, calls, k + 1).tokens <= c.burst
  {
    RunTracks(c, calls);
    var ok, earned := Answers(c, calls), Earned(c, calls);
    var _ := LevelIsLeast(c.burst, earned, calls, ok, Levels(c, calls), k);
    LastCall(c, calls, k + 1);
    CreditDifference(c, from, calls[i].now);
    CreditDifference(c, calls[k].now, to);
    CreditDifference(c, from, to);
  }
}
