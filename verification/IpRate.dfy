/**
 * The relay's limit on connections per address (internal/relay/relay.go): one window per address, opened by
 * the first request after the last window is over a minute old, and a map that is pruned when it
 * grows past 10,000 entries. Times are in nanoseconds.
 */
module IpRate {
  const MINUTE: int := 60_000_000_000
  const MAX_ENTRIES: nat := 10000

  datatype Window = Window(start: int, count: nat)

  datatype Request = Request(ip: string, now: int)

  predicate Expired(w: Window, now: int) {
    now - w.start > MINUTE
  }

  /** The window the request is counted in, counted. */
  function Counted(m: map<string, Window>, q: Request): Window {
    if q.ip !in m || Expired(m[q.ip], q.now) then Window(q.now, 1) else Window(m[q.ip].start, m[q.ip].count + 1)
  }

  function Prune(m: map<string, Window>, now: int): map<string, Window> {
    if |m| > MAX_ENTRIES then map ip | ip in m && !Expired(m[ip], now) :: m[ip] else m
  }

  function AllowNext(m: map<string, Window>, limit: nat, q: Request): (map<string, Window>, bool) {
    var w := Counted(m, q);
    (Prune(m[q.ip := w], q.now), w.count <= limit)
  }

  class Limiter {
    var ipRate: map<string, Window>
    const limit: nat

    constructor (limit: nat)
      ensures this.limit == limit && ipRate == map[]
    {
      this.limit := limit;
      ipRate := map[];
    }

    method Allow(ip: string, now: int) returns (ok: bool)
      modifies this
      ensures ipRate == AllowNext(old(ipRate), limit, Request(ip, now)).0
      ensures ok == AllowNext(old(ipRate), limit, Request(ip, now)).1
    {
      if ip !in ipRate || now - ipRate[ip].start > MINUTE {
        ipRate := ipRate[ip := Window(now, 0)];
      }
      var w := Window(ipRate[ip].start, ipRate[ip].count + 1);
      ipRate := ipRate[ip := w];
      ghost var full := ipRate;
      assert full == old(ipRate)[ip := Counted(old(ipRate), Request(ip, now))];
      if |ipRate| > MAX_ENTRIES {
        var left := ipRate.Keys;
        while left != {}
          invariant left <= full.Keys
          invariant ipRate == map k | k in full && (k in left || !Expired(full[k], now)) :: full[k]
          decreases left
        {
          var k :| k in left;
          left := left - {k};
          if now - ipRate[k].start > MINUTE {
            ipRate := ipRate - {k};
          }
        }
      }
      return w.count <= limit;
    }
  }

  ghost predicate Ordered(qs: seq<Request>) {
    forall i, k :: 0 <= i < k < |qs| ==> qs[i].now <= qs[k].now
  }

  /** The map after a run of requests, pruned as the relay does, and never pruned. */
  function Pruned(limit: nat, qs: seq<Request>): map<string, Window> {
    if qs == [] then map[] else AllowNext(Pruned(limit, qs[..|qs| - 1]), limit, qs[|qs| - 1]).0
  }

  function Unpruned(qs: seq<Request>): map<string, Window> {
    if qs == [] then map[]
    else
      var m, q := Unpruned(qs[..|qs| - 1]), qs[|qs| - 1];
      m[q.ip := Counted(m, q)]
  }

  /** p is u without some windows that are over. */
  ghost predicate PartOf(p: map<string, Window>, u: map<string, Window>, now: int) {
    && (forall ip :: ip in p ==> ip in u && p[ip] == u[ip])
    && (forall ip :: ip in u && ip !in p ==> Expired(u[ip], now))
  }

  /** Pruning only ever drops windows that are over, and time does not bring them back. */
  lemma StepPrunes(p: map<string, Window>, u: map<string, Window>, limit: nat, q: Request, last: int)
    requires PartOf(p, u, last) && last <= q.now
    ensures Counted(p, q) == Counted(u, q)
    ensures PartOf(AllowNext(p, limit, q).0, u[q.ip := Counted(u, q)], q.now)
  {
    assert Counted(p, q) == Counted(u, q) by {
      assert q.ip in u && q.ip !in p ==> Expired(u[q.ip], last);
    }
    assert !Expired(Counted(p, q), q.now);
  }

  function Last(qs: seq<Request>, q: Request): int {
    if qs == [] then q.now else qs[|qs| - 1].now
  }

  lemma {:induction false} PrunedIsPart(limit: nat, qs: seq<Request>, q: Request)
    requires Ordered(qs + [q])
    ensures PartOf(Pruned(limit, qs), Unpruned(qs), Last(qs, q)) && Last(qs, q) <= q.now
  {
    if qs == [] {
    } else {
      var init, p := qs[..|qs| - 1], qs[|qs| - 1];
      var all := qs + [q];
      assert init + [p] == all[..|qs|] && all[|qs| - 1] == p && all[|qs|] == q;
      PrunedIsPart(limit, init, p);
      StepPrunes(Pruned(limit, init), Unpruned(init), limit, p, Last(init, p));
    }
  }

  /** A pruned map and one that is never pruned give the same answer to every request of a run. */
  lemma {:induction false} PruningIsInvisible(limit: nat, qs: seq<Request>, q: Request)
    requires Ordered(qs + [q])
    ensures AllowNext(Pruned(limit, qs), limit, q).1 == (Counted(Unpruned(qs), q).count <= limit)
  {
    PrunedIsPart(limit, qs, q);
    StepPrunes(Pruned(limit, qs), Unpruned(qs), limit, q, Last(qs, q));
  }

  /** Requests from ip, at or after `from`, allowed or not. */
  function Recent(qs: seq<Request>, ip: string, from: int): nat {
    if qs == [] then 0
    else
      var q := qs[|qs| - 1];
      Recent(qs[..|qs| - 1], ip, from) + if q.ip == ip && q.now >= from then 1 else 0
  }

  lemma {:induction false} RecentFalls(qs: seq<Request>, ip: string, from: int, later: int)
    requires from <= later
    ensures Recent(qs, ip, later) <= Recent(qs, ip, from)
  {
    if qs != [] { RecentFalls(qs[..|qs| - 1], ip, from, later); }
  }

  /** A window counts no more than the requests since it was opened. */
  lemma {:induction false} CountsRecent(qs: seq<Request>, ip: string)
    requires Ordered(qs)
    ensures ip in Unpruned(qs) && qs != [] ==> Unpruned(qs)[ip].start <= qs[|qs| - 1].now
    ensures ip in Unpruned(qs) ==> Unpruned(qs)[ip].count <= Recent(qs, ip, Unpruned(qs)[ip].start)
  {
    if qs != [] {
      var init, q := qs[..|qs| - 1], qs[|qs| - 1];
      CountsRecent(init, ip);
      assert init != [] ==> init[|init| - 1].now <= q.now;
    }
  }

  /** A request is refused only if its address has made as many as the limit within the last minute. */
  lemma {:induction false} AllowedBelowLimit(limit: nat, qs: seq<Request>, q: Request)
    requires Ordered(qs + [q]) && Recent(qs, q.ip, q.now - 60_000_000_000) < limit
    ensures AllowNext(Pruned(limit, qs), limit, q).1
  {
    assert forall i :: 0 <= i < |qs| ==> (qs + [q])[i] == qs[i];
    PruningIsInvisible(limit, qs, q);
    CountsRecent(qs, q.ip);
    var u := Unpruned(qs);
    if q.ip in u && !Expired(u[q.ip], q.now) {
      RecentFalls(qs, q.ip, q.now - 60_000_000_000, u[q.ip].start);
    }
  }

  /** A map of more than 10,000 entries holds windows of the last minute only. */
  lemma {:induction false} PrunedIsFresh(limit: nat, qs: seq<Request>, ip: string)
    requires qs != []
    ensures var m := Pruned(limit, qs);
            |m| > 10_000 && ip in m ==> qs[|qs| - 1].now - m[ip].start <= 60_000_000_000
  {
    var full := Pruned(limit, qs[..|qs| - 1]);
    var q := qs[|qs| - 1];
    var m := full[q.ip := Counted(full, q)];
    if |m| <= MAX_ENTRIES { assert Pruned(limit, qs) == m; }
  }

  /** Requests from ip, at or after `from`, that were allowed. */
  function Allowed(limit: nat, qs: seq<Request>, ip: string, from: int): nat {
    if qs == [] then 0
    else
      var init, q := qs[..|qs| - 1], qs[|qs| - 1];
      Allowed(limit, init, ip, from)
        + if q.ip == ip && q.now >= from && AllowNext(Pruned(limit, init), limit, q).1 then 1 else 0
  }

  /** The most that a minute from `from` can hold when w is the latest window: the request that opened a
      window before `from` is not in that minute. */
  function Cap(w: Window, limit: nat, from: int): int {
    var counted := if w.count <= limit then w.count else limit;
    if limit == 0 then 0
    else if w.start < from then counted - 1
    else counted + limit - 1
  }

  /** Within one minute from `from`, only the window open at `from` and one more can allow requests. */
  ghost predicate Bounded(u: map<string, Window>, ip: string, limit: nat, from: int, now: int, n: nat) {
    if ip !in u then n == 0
    else u[ip].start <= now && u[ip].count > 0 && (now < from ==> n == 0) && n <= Cap(u[ip], limit, from)
  }

  lemma StepBounded(u: map<string, Window>, ip: string, limit: nat, from: int, last: int, n: nat, q: Request)
    requires Bounded(u, ip, limit, from, last, n) && last <= q.now <= from + MINUTE
    ensures var w := Counted(u, q);
            var m := n + if q.ip == ip && q.now >= from && w.count <= limit then 1 else 0;
            Bounded(u[q.ip := w], ip, limit, from, q.now, m)
  {
  }

  lemma {:induction false} AllowedByWindow(limit: nat, qs: seq<Request>, ip: string, from: int, now: int)
    requires Ordered(qs) && (forall i :: 0 <= i < |qs| ==> qs[i].now <= now) && now <= from + MINUTE
    ensures Bounded(Unpruned(qs), ip, limit, from, now, Allowed(limit, qs, ip, from))
  {
    if qs == [] {
    } else {
      var init, q := qs[..|qs| - 1], qs[|qs| - 1];
      assert init + [q] == qs;
      AllowedByWindow(limit, init, ip, from, q.now);
      PruningIsInvisible(limit, init, q);
      StepBounded(Unpruned(init), ip, limit, from, q.now, Allowed(limit, init, ip, from), q);
    }
  }

  /** In any one-minute interval no address is allowed twice the limit of requests. */
  lemma {:induction false} TwiceTheLimit(limit: nat, qs: seq<Request>, ip: string, from: int)
    requires Ordered(qs) && forall i :: 0 <= i < |qs| ==> qs[i].now <= from + 60_000_000_000
    ensures Allowed(limit, qs, ip, from) <= if limit == 0 then 0 else 2 * limit - 1
  {
    AllowedByWindow(limit, qs, ip, from, from + MINUTE);
  }
}
