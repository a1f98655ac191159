/**
 * The push watcher's high-water marks (internal/push/watcher.go, Poll).
 *
 * Each gateway session has a log of events with strictly increasing positive seqs. A visit asks for the
 * events after the session's mark and gets every one of them, in log order and without repeats, perhaps
 * after older ones it has already seen; or the call fails. Whether Classify finds an alert in an
 * event is the parameter `news`; it does not depend on the session's title.
 */
module Watcher {
  import opened Bytes
  import opened Runs

  datatype Event = Event(name: string, session: string, payload: seq<byte>, seqno: int)

  /** An event handed to deliver, with the session it was polled for. */
  datatype Delivery = Delivery(id: string, event: Event)

  datatype Session = Session(id: string, title: string)

  // ---------------------------------------------------------------- one visit

  /** The mark and the deliveries after a number of events of one reply. */
  datatype Scan = Scan(mark: int, out: seq<Delivery>)

  /** `last` and `known` are read once, before the first event of the reply. */
  function ScanOne(news: Event -> bool, id: string, last: int, known: bool, s: Scan, e: Event): Scan {
    if e.seqno <= last then s
    else
      Scan(if e.seqno > s.mark then e.seqno else s.mark,
           if known && news(e) then s.out + [Delivery(id, e)] else s.out)
  }

  function ScanAll(news: Event -> bool, id: string, last: int, known: bool, s: Scan, events: seq<Event>): Scan {
    if events == [] then s
    else
      var n := |events| - 1;
      ScanOne(news, id, last, known, ScanAll(news, id, last, known, s, events[..n]), events[n])
  }

  function MaxSeq(events: seq<Event>): (m: int)
    ensures m >= 0
  {
    if events == [] then 0
    else
      var m, e := MaxSeq(events[..|events| - 1]), events[|events| - 1];
      if e.seqno > m then e.seqno else m
  }

  /** The watcher's state: the marks, and what was handed to deliver so far. */
  datatype Marks = Marks(seen: map<string, int>, out: seq<Delivery>)

  function Last(seen: map<string, int>, id: string): int {
    if id in seen then seen[id] else 0
  }

  function Visited(news: Event -> bool, m: Marks, id: string, reply: Option<seq<Event>>): Marks {
    match reply
    case None => m
    case Some(events) =>
      var known := id in m.seen;
      var s := ScanAll(news, id, Last(m.seen, id), known, Scan(Last(m.seen, id), m.out), events);
      Marks(m.seen[id := if known then s.mark else MaxSeq(events)], s.out)
  }

  function VisitAll(news: Event -> bool, m: Marks, sessions: seq<Session>, replies: seq<Option<seq<Event>>>): Marks
    requires |replies| == |sessions|
  {
    if sessions == [] then m
    else
      var n := |sessions| - 1;
      Visited(news, VisitAll(news, m, sessions[..n], replies[..n]), sessions[n].id, replies[n])
  }

  // ---------------------------------------------------------------- runs

  datatype World = World(logs: map<string, seq<Event>>, base: map<string, int>, marks: Marks)

  datatype Action = Append(id: string, event: Event) | Visit(visited: string, reply: Option<seq<Event>>)

  const QUIET := World(map[], map[], Marks(map[], []))

  function Log(w: World, id: string): seq<Event> {
    if id in w.logs then w.logs[id] else []
  }

  ghost predicate Increasing(events: seq<Event>) {
    && (forall i :: 0 <= i < |events| ==> events[i].seqno > 0)
    && (forall i, k :: 0 <= i < k < |events| ==> events[i].seqno < events[k].seqno)
  }

  /** The events after a mark. */
  function Newer(events: seq<Event>, last: int): seq<Event> {
    if events == [] then []
    else
      var rest, e := Newer(events[..|events| - 1], last), events[|events| - 1];
      if e.seqno > last then rest + [e] else rest
  }

  /** Everything the log has after `last`, once each and in log order, after some things replayed. */
  ghost predicate ValidReply(log: seq<Event>, last: int, events: seq<Event>) {
    exists k :: 0 <= k <= |events| && ReplayedUpTo(log, last, events, k)
  }

  ghost predicate ReplayedUpTo(log: seq<Event>, last: int, events: seq<Event>, k: nat)
    requires k <= |events|
  {
    events[k..] == Newer(log, last) && forall i :: 0 <= i < k ==> events[i].seqno <= last
  }

  ghost predicate Enabled(w: World, a: Action) {
    match a
    case Append(id, event) => Increasing(Log(w, id) + [event])
    case Visit(id, reply) => reply.Some? ==> ValidReply(Log(w, id), Last(w.marks.seen, id), reply.value)
  }

  /** `base` keeps the mark a session got when it was first seen. */
  ghost function Step(news: Event -> bool, w: World, a: Action): World {
    if !Enabled(w, a) then w
    else
      match a
      case Append(id, event) => w.(logs := w.logs[id := Log(w, id) + [event]])
      case Visit(id, reply) =>
        var m := Visited(news, w.marks, id, reply);
        w.(marks := m, base := if id in m.seen && id !in w.base then w.base[id := m.seen[id]] else w.base)
  }

  ghost function Stepper(news: Event -> bool): (World, Action) -> World {
    (w, a) => Step(news, w, a)
  }

  ghost function Run(news: Event -> bool, actions: seq<Action>): World {
    After(Stepper(news), QUIET, actions)
  }

  /** The events handed to deliver for one session, in order. */
  function Delivered(out: seq<Delivery>, id: string): seq<Event> {
    if out == [] then []
    else
      var rest, d := Delivered(out[..|out| - 1], id), out[|out| - 1];
      if d.id == id then rest + [d.event] else rest
  }

  /** What of a log should have been delivered: the news above the first sight and up to the mark. */
  function News(news: Event -> bool, log: seq<Event>, base: int, mark: int): seq<Event> {
    if log == [] then []
    else
      var rest, e := News(news, log[..|log| - 1], base, mark), log[|log| - 1];
      if base < e.seqno <= mark && news(e) then rest + [e] else rest
  }

  ghost predicate SessionOk(news: Event -> bool, w: World, id: string) {
    && (id in w.marks.seen <==> id in w.base)
    && (id !in w.base ==> Delivered(w.marks.out, id) == [])
    && (id in w.base && id in w.marks.seen ==>
          && 0 <= w.base[id] <= w.marks.seen[id] <= MaxSeq(Log(w, id))
          && Delivered(w.marks.out, id) == News(news, Log(w, id), w.base[id], w.marks.seen[id]))
  }

  ghost predicate Inv(news: Event -> bool, w: World) {
    && (forall id :: id in w.logs ==> Increasing(w.logs[id]))
    && (forall id :: SessionOk(news, w, id))
  }

  // ---------------------------------------------------------------- replies

  lemma {:induction false} NewerMembers(events: seq<Event>, last: int)
    ensures forall e :: e in Newer(events, last) <==> e in events && e.seqno > last
  {
    if events != [] {
      var n := |events| - 1;
      NewerMembers(events[..n], last);
      assert events == events[..n] + [events[n]];
    }
  }

  lemma {:induction false} NewerIncreasing(events: seq<Event>, last: int)
    requires Increasing(events)
    ensures Increasing(Newer(events, last))
  {
    if events != [] {
      var n := |events| - 1;
      NewerIncreasing(events[..n], last);
      NewerMembers(events[..n], last);
      Extends(Newer(events[..n], last), events[..n], events[n]);
    }
  }

  lemma Extends(part: seq<Event>, events: seq<Event>, e: Event)
    requires Increasing(part) && Increasing(events + [e]) && forall x :: x in part ==> x in events
    ensures Increasing(part + [e])
  {
    forall i | 0 <= i < |part|
      ensures part[i].seqno < e.seqno
    {
      assert part[i] in events;
      var k :| 0 <= k < |events| && events[k] == part[i];
      assert (events + [e])[k].seqno < (events + [e])[|events|].seqno;
    }
    assert (events + [e])[|events|].seqno > 0;
  }

  lemma {:induction false} NewerConcat(a: seq<Event>, b: seq<Event>, last: int)
    ensures Newer(a + b, last) == Newer(a, last) + Newer(b, last)
    ensures MaxSeq(a + b) == if MaxSeq(a) > MaxSeq(b) then MaxSeq(a) else MaxSeq(b)
  {
    if b == [] {
      assert a + b == a;
    } else {
      var n := |b| - 1;
      assert (a + b)[..|a + b| - 1] == a + b[..n] && (a + b)[|a + b| - 1] == b[n];
      NewerConcat(a, b[..n], last);
    }
  }

  lemma {:induction false} NewerAgain(log: seq<Event>, last: int)
    requires last >= 0
    ensures Newer(Newer(log, last), last) == Newer(log, last)
    ensures MaxSeq(Newer(log, last)) == if MaxSeq(log) > last then MaxSeq(log) else 0
  {
    if log != [] {
      var n := |log| - 1;
      NewerAgain(log[..n], last);
      NewerConcat(Newer(log[..n], last), [log[n]], last);
      NewerSingle(log[n], last);
    }
  }

  lemma NewerSingle(e: Event, last: int)
    ensures Newer([e], last) == if e.seqno > last then [e] else []
    ensures MaxSeq([e]) == if e.seqno > 0 then e.seqno else 0
  {
    assert [e][..0] == [];
  }

  lemma {:induction false} OldOnly(events: seq<Event>, last: int)
    requires last >= 0 && forall i :: 0 <= i < |events| ==> events[i].seqno <= last
    ensures Newer(events, last) == [] && MaxSeq(events) <= last
  {
    if events != [] { OldOnly(events[..|events| - 1], last); }
  }

  /** Whatever a reply replays, what it has after the mark is what the log has, and its greatest seq
      brings the mark to the end of the log. */
  lemma ReplyIsNewer(log: seq<Event>, last: int, events: seq<Event>)
    requires last >= 0 && ValidReply(log, last, events)
    ensures Newer(events, last) == Newer(log, last)
    ensures MaxSeq(log) > last ==> MaxSeq(events) == MaxSeq(log)
    ensures MaxSeq(log) <= last ==> MaxSeq(events) <= last
  {
    var k :| 0 <= k <= |events| && ReplayedUpTo(log, last, events, k);
    var older := events[..k];
    assert events == older + Newer(log, last);
    OldOnly(older, last);
    ReplayIsIgnored(older, log, last);
  }

  lemma ReplayIsIgnored(older: seq<Event>, log: seq<Event>, last: int)
    requires last >= 0 && Newer(older, last) == [] && MaxSeq(older) <= last
    ensures Newer(older + Newer(log, last), last) == Newer(log, last)
    ensures MaxSeq(log) > last ==> MaxSeq(older + Newer(log, last)) == MaxSeq(log)
    ensures MaxSeq(log) <= last ==> MaxSeq(older + Newer(log, last)) <= last
  {
    NewerAgain(log, last);
    NewerConcat(older, Newer(log, last), last);
  }

  lemma {:induction false} MaxSeqIsLast(events: seq<Event>)
    requires Increasing(events)
    ensures MaxSeq(events) == if events == [] then 0 else events[|events| - 1].seqno
  {
    if events != [] {
      MaxSeqIsLast(events[..|events| - 1]);
    }
  }

  lemma NewerNone(log: seq<Event>, last: int)
    requires MaxSeq(log) <= last
    ensures Newer(log, last) == []
  {
  }

  lemma {:induction false} NewsNone(news: Event -> bool, log: seq<Event>, mark: int)
    ensures News(news, log, mark, mark) == []
  {
    if log != [] { NewsNone(news, log[..|log| - 1], mark); }
  }

  /** What one reply does to the mark and hands to deliver, seen from any session. */
  lemma {:induction false} ScanFinds(news: Event -> bool, id: string, last: int, known: bool, out: seq<Delivery>,
                                     events: seq<Event>, other: string)
    requires last >= 0
    ensures var r := ScanAll(news, id, last, known, Scan(last, out), events);
            && r.mark == (if MaxSeq(events) > last then MaxSeq(events) else last)
            && Delivered(r.out, other) == Delivered(out, other) + Found(news, id, last, known, events, other)
  {
    if events == [] {
      assert Delivered(out, other) + [] == Delivered(out, other);
    } else {
      var n := |events| - 1;
      ScanFinds(news, id, last, known, out, events[..n], other);
      var before := ScanAll(news, id, last, known, Scan(last, out), events[..n]);
      ScanOneFinds(news, id, last, known, before, events[n], other);
      FoundOne(news, id, last, known, events, other);
      AppendLater(Delivered(out, other), Found(news, id, last, known, events[..n], other), events[n]);
    }
  }

  lemma ScanOneFinds(news: Event -> bool, id: string, last: int, known: bool, s: Scan, e: Event, other: string)
    ensures var r := ScanOne(news, id, last, known, s, e);
            && r.mark == (if e.seqno > last && e.seqno > s.mark then e.seqno else s.mark)
            && Delivered(r.out, other) == if known && other == id && e.seqno > last && news(e)
                                          then Delivered(s.out, other) + [e] else Delivered(s.out, other)
  {
    DeliversOne(s.out, id, e, other);
  }

  lemma AppendLater(a: seq<Event>, b: seq<Event>, e: Event)
    ensures (a + b) + [e] == a + (b + [e])
  {
  }

  /** The news a reply has for one session. */
  function Found(news: Event -> bool, id: string, last: int, known: bool, events: seq<Event>, other: string):
    seq<Event>
  {
    if known && other == id then Kept(news, Newer(events, last)) else []
  }

  lemma FoundOne(news: Event -> bool, id: string, last: int, known: bool, events: seq<Event>, other: string)
    requires events != []
    ensures var n := |events| - 1;
            Found(news, id, last, known, events, other)
            == if known && other == id && events[n].seqno > last && news(events[n])
               then Found(news, id, last, known, events[..n], other) + [events[n]]
               else Found(news, id, last, known, events[..n], other)
  {
    var n := |events| - 1;
    KeptOne(news, Newer(events[..n], last), events[n]);
  }

  lemma DeliversOne(out: seq<Delivery>, id: string, e: Event, other: string)
    ensures Delivered(out + [Delivery(id, e)], other)
         == if other == id then Delivered(out, other) + [e] else Delivered(out, other)
  {
    assert (out + [Delivery(id, e)])[..|out|] == out;
  }

  function Kept(news: Event -> bool, events: seq<Event>): seq<Event> {
    if events == [] then []
    else
      var rest, e := Kept(news, events[..|events| - 1]), events[|events| - 1];
      if news(e) then rest + [e] else rest
  }

  lemma KeptOne(news: Event -> bool, events: seq<Event>, e: Event)
    ensures Kept(news, events + [e]) == if news(e) then Kept(news, events) + [e] else Kept(news, events)
  {
    assert (events + [e])[..|events|] == events;
  }

  /** The news up to a later mark are those up to the earlier one and then those between. */
  lemma {:induction false} NewsSplit(news: Event -> bool, log: seq<Event>, base: int, mark: int, top: int)
    requires Increasing(log) && base <= mark <= top && MaxSeq(log) <= top
    ensures News(news, log, base, top) == News(news, log, base, mark) + Kept(news, Newer(log, mark))
  {
    if log == [] {
    } else {
      var init, e := log[..|log| - 1], log[|log| - 1];
      MaxSeqIsLast(log);
      MaxSeqIsLast(init);
      NewsSplit(news, init, base, mark, top);
      if e.seqno <= mark {
        NewerNone(init, mark);
        NewerNone(log, mark);
      } else {
        NewsSplitLater(news, log, base, mark, top);
      }
    }
  }

  lemma NewsSplitLater(news: Event -> bool, log: seq<Event>, base: int, mark: int, top: int)
    requires log != [] && base <= mark < log[|log| - 1].seqno <= top
    requires var init := log[..|log| - 1];
             News(news, init, base, top) == News(news, init, base, mark) + Kept(news, Newer(init, mark))
    ensures News(news, log, base, top) == News(news, log, base, mark) + Kept(news, Newer(log, mark))
  {
    var init, e := log[..|log| - 1], log[|log| - 1];
    KeptOne(news, Newer(init, mark), e);
    assert News(news, log, base, mark) == News(news, init, base, mark);
    if news(e) {
      assert News(news, log, base, top) == News(news, init, base, top) + [e];
    }
  }

  // ---------------------------------------------------------------- preservation

  lemma AppendKeeps(news: Event -> bool, w: World, id: string, event: Event)
    requires Inv(news, w) && Enabled(w, Append(id, event))
    ensures Inv(news, Step(news, w, Append(id, event)))
  {
    forall other
      ensures SessionOk(news, Step(news, w, Append(id, event)), other)
    {
      AppendSpares(news, w, id, event, other);
    }
  }

  lemma AppendSpares(news: Event -> bool, w: World, id: string, event: Event, other: string)
    requires SessionOk(news, w, other) && Enabled(w, Append(id, event))
    ensures SessionOk(news, Step(news, w, Append(id, event)), other)
  {
    if other == id && id in w.base {
      LaterIsNotNews(news, Log(w, id), event, w.base[id], w.marks.seen[id]);
    } else {
      assert Log(Step(news, w, Append(id, event)), other)
          == if other == id then Log(w, id) + [event] else Log(w, other);
    }
  }

  lemma LaterIsNotNews(news: Event -> bool, log: seq<Event>, event: Event, base: int, mark: int)
    requires Increasing(log + [event]) && mark <= MaxSeq(log)
    ensures News(news, log + [event], base, mark) == News(news, log, base, mark)
    ensures mark <= MaxSeq(log + [event])
  {
    assert (log + [event])[..|log|] == log;
    assert Increasing(log) by {
      assert forall i :: 0 <= i < |log| ==> log[i] == (log + [event])[i];
    }
    MaxSeqIsLast(log);
    MaxSeqIsLast(log + [event]);
    if log != [] {
      assert (log + [event])[|log| - 1].seqno < (log + [event])[|log|].seqno;
    }
  }

  /** A visit to a session with a mark. */
  lemma KnownVisit(news: Event -> bool, w: World, id: string, events: seq<Event>)
    requires Increasing(Log(w, id)) && SessionOk(news, w, id) && id in w.marks.seen
    requires ValidReply(Log(w, id), w.marks.seen[id], events)
    ensures SessionOk(news, Step(news, w, Visit(id, Some(events))), id)
    ensures Step(news, w, Visit(id, Some(events))).marks.seen[id] == MaxSeq(Log(w, id))
  {
    var log, last, base := Log(w, id), w.marks.seen[id], w.base[id];
    ScanFinds(news, id, last, true, w.marks.out, events, id);
    ReplyIsNewer(log, last, events);
    NewsSplit(news, log, base, last, MaxSeq(log));
  }

  /** The first visit: everything up to the end of the log is history. */
  lemma FirstVisit(news: Event -> bool, w: World, id: string, events: seq<Event>)
    requires Increasing(Log(w, id)) && SessionOk(news, w, id) && id !in w.marks.seen
    requires ValidReply(Log(w, id), 0, events)
    ensures SessionOk(news, Step(news, w, Visit(id, Some(events))), id)
    ensures Step(news, w, Visit(id, Some(events))).marks.seen[id] == MaxSeq(Log(w, id))
  {
    ScanFinds(news, id, 0, false, w.marks.out, events, id);
    ReplyIsNewer(Log(w, id), 0, events);
    NewsNone(news, Log(w, id), MaxSeq(Log(w, id)));
  }

  /** A visit leaves the other sessions alone. */
  lemma VisitSpares(news: Event -> bool, w: World, id: string, events: seq<Event>, other: string)
    requires SessionOk(news, w, other) && other != id && Enabled(w, Visit(id, Some(events)))
    requires id in w.marks.seen ==> w.marks.seen[id] >= 0
    ensures SessionOk(news, Step(news, w, Visit(id, Some(events))), other)
  {
    ScanFinds(news, id, Last(w.marks.seen, id), id in w.marks.seen, w.marks.out, events, other);
  }

  lemma VisitKeeps(news: Event -> bool, w: World, id: string, events: seq<Event>)
    requires Inv(news, w) && Enabled(w, Visit(id, Some(events)))
    ensures Inv(news, Step(news, w, Visit(id, Some(events))))
  {
    assert SessionOk(news, w, id);
    forall other
      ensures SessionOk(news, Step(news, w, Visit(id, Some(events))), other)
    {
      assert SessionOk(news, w, other);
      if other != id {
        VisitSpares(news, w, id, events, other);
      } else if id in w.marks.seen {
        KnownVisit(news, w, id, events);
      } else {
        FirstVisit(news, w, id, events);
      }
    }
  }

  lemma StepKeeps(news: Event -> bool, w: World, a: Action)
    requires Inv(news, w)
    ensures Inv(news, Step(news, w, a))
  {
    if Enabled(w, a) {
      match a
      case Append(id, event) => AppendKeeps(news, w, id, event);
      case Visit(id, reply) =>
        if reply.Some? {
          VisitKeeps(news, w, id, reply.value);
        } else {
          assert SessionOk(news, w, id);
        }
    }
  }

  lemma {:induction false} RunKeeps(news: Event -> bool, actions: seq<Action>)
    ensures Inv(news, Run(news, actions))
  {
    if actions == [] {
    } else {
      RunKeeps(news, actions[..|actions| - 1]);
      StepKeeps(news, Run(news, actions[..|actions| - 1]), actions[|actions| - 1]);
    }
  }

  // ---------------------------------------------------------------- theorems

  lemma {:induction false} NewsAre(news: Event -> bool, log: seq<Event>, base: int, mark: int)
    ensures forall e :: e in News(news, log, base, mark) <==> e in log && base < e.seqno <= mark && news(e)
  {
    if log != [] {
      var n := |log| - 1;
      NewsAre(news, log[..n], base, mark);
      assert log == log[..n] + [log[n]];
    }
  }

  lemma {:induction false} NewsIncreasing(news: Event -> bool, log: seq<Event>, base: int, mark: int)
    requires Increasing(log)
    ensures Increasing(News(news, log, base, mark))
  {
    if log != [] {
      var n := |log| - 1;
      NewsIncreasing(news, log[..n], base, mark);
      NewsAre(news, log[..n], base, mark);
      Extends(News(news, log[..n], base, mark), log[..n], log[n]);
    }
  }

  /** After any run, what was handed to deliver for a session is exactly the news of its log above the
      mark it was first given and up to its present mark, each once, in log order. */
  lemma {:induction false} DeliversNewsOnce(news: Event -> bool, actions: seq<Action>, id: string)
    ensures var w := Run(news, actions);
            var delivered := Delivered(w.marks.out, id);
            && (id in w.marks.seen <==> id in w.base) && (id !in w.base ==> delivered == [])
            && (id in w.base && id in w.marks.seen ==>
                  && 0 <= w.base[id] <= w.marks.seen[id] <= MaxSeq(Log(w, id))
                  && Increasing(delivered)
                  && forall e :: e in delivered <==>
                       e in Log(w, id) && w.base[id] < e.seqno <= w.marks.seen[id] && news(e))
  {
    RunKeeps(news, actions);
    var w := Run(news, actions);
    assert SessionOk(news, w, id);
    if id in w.base {
      NewsAre(news, Log(w, id), w.base[id], w.marks.seen[id]);
      NewsIncreasing(news, Log(w, id), w.base[id], w.marks.seen[id]);
    }
  }

  /** No step lowers a mark or moves the place where a session was first seen; a successful visit brings
      the mark to the end of the log. */
  lemma {:induction false} MarksNeverFall(news: Event -> bool, actions: seq<Action>, a: Action, id: string)
    ensures var w, v := Run(news, actions), Run(news, actions + [a]);
            && (id in w.marks.seen ==> id in v.marks.seen && w.marks.seen[id] <= v.marks.seen[id])
            && (id in w.base ==> id in v.base && v.base[id] == w.base[id])
            && (Enabled(w, a) && a.Visit? && a.visited == id && a.reply.Some? ==>
                  id in v.marks.seen && v.marks.seen[id] == MaxSeq(Log(w, id)))
  {
    var w := Run(news, actions);
    assert (actions + [a])[..|actions|] == actions;
    RunKeeps(news, actions);
    assert SessionOk(news, w, id);
    if Enabled(w, a) && a.Visit? && a.reply.Some? && a.visited == id {
      if id in w.marks.seen {
        KnownVisit(news, w, id, a.reply.value);
      } else {
        FirstVisit(news, w, id, a.reply.value);
      }
    }
  }

  // ---------------------------------------------------------------- rounds of polling

  /** What one call of Poll is given. */
  datatype Round = Round(offline: nat, active: Option<seq<Session>>, replies: seq<Option<seq<Event>>>)

  predicate Answered(r: Round) {
    r.active.Some? ==> |r.replies| == |r.active.value|
  }

  /** What Poll leaves. */
  function Polled(news: Event -> bool, m: Marks, r: Round): Marks
    requires Answered(r)
  {
    if r.offline > 0 && r.active.Some? then VisitAll(news, m, r.active.value, r.replies) else m
  }

  function PolledAll(news: Event -> bool, rounds: seq<Round>): Marks
    requires forall r :: r in rounds ==> Answered(r)
  {
    if rounds == [] then Marks(map[], [])
    else Polled(news, PolledAll(news, rounds[..|rounds| - 1]), rounds[|rounds| - 1])
  }

  /** The visits a round should make, session by session; none when everybody is connected or the list fails. */
  function RoundVisits(r: Round): (visits: seq<Action>)
    requires Answered(r)
  {
    if r.offline == 0 then []
    else
      match r.active
      case None => []
      case Some(sessions) => seq(|sessions|, i requires 0 <= i < |sessions| => Visit(sessions[i].id, r.replies[i]))
  }

  function AllVisits(rounds: seq<Round>): seq<Action>
    requires forall r :: r in rounds ==> Answered(r)
  {
    if rounds == [] then [] else AllVisits(rounds[..|rounds| - 1]) + RoundVisits(rounds[|rounds| - 1])
  }

  /** The visits of a run; between them the logs grow. */
  function VisitsOf(actions: seq<Action>): seq<Action> {
    if actions == [] then []
    else
      var rest, a := VisitsOf(actions[..|actions| - 1]), actions[|actions| - 1];
      if a.Visit? then rest + [a] else rest
  }

  /** Every step of a run is one the gateway can make: logs increase, replies are valid when they are given. */
  ghost predicate AllEnabled(news: Event -> bool, actions: seq<Action>) {
    forall i :: 0 <= i < |actions| ==> Enabled(Run(news, actions[..i]), actions[i])
  }

  /** A run in which the gateway answers exactly these rounds. */
  ghost predicate Answers(news: Event -> bool, actions: seq<Action>, rounds: seq<Round>) {
    && (forall r :: r in rounds ==> Answered(r))
    && AllEnabled(news, actions) && VisitsOf(actions) == AllVisits(rounds)
  }

  function MarksAfter(news: Event -> bool, m: Marks, visits: seq<Action>): Marks
    requires forall a :: a in visits ==> a.Visit?
  {
    if visits == [] then m
    else
      var a := visits[|visits| - 1];
      Visited(news, MarksAfter(news, m, visits[..|visits| - 1]), a.visited, a.reply)
  }

  lemma {:induction false} OnlyVisits(actions: seq<Action>)
    ensures forall a :: a in VisitsOf(actions) ==> a.Visit?
  {
    if actions != [] { OnlyVisits(actions[..|actions| - 1]); }
  }

  /** Only visits move the marks. */
  lemma {:induction false} VisitsDecide(news: Event -> bool, actions: seq<Action>)
    requires AllEnabled(news, actions)
    ensures forall a :: a in VisitsOf(actions) ==> a.Visit?
    ensures Run(news, actions).marks == MarksAfter(news, Marks(map[], []), VisitsOf(actions))
  {
    hide After, Step, Visited, Enabled;
    OnlyVisits(actions);
    if actions == [] {
      AfterNone(Stepper(news), QUIET);
    } else {
      var n := |actions| - 1;
      var init := actions[..n];
      assert forall i :: 0 <= i < n ==> init[..i] == actions[..i];
      OnlyVisits(init);
      VisitsDecide(news, init);
      OneStep(news, init, actions[n]);
      StepMarks(news, Run(news, init), actions[n]);
      assert init + [actions[n]] == actions;
      if actions[n].Visit? { LastVisit(news, Marks(map[], []), VisitsOf(init), actions[n]); }
    }
  }

  lemma StepMarks(news: Event -> bool, w: World, a: Action)
    requires Enabled(w, a)
    ensures Step(news, w, a).marks == if a.Visit? then Visited(news, w.marks, a.visited, a.reply) else w.marks
  {
  }

  lemma OneStep(news: Event -> bool, actions: seq<Action>, a: Action)
    ensures Run(news, actions + [a]) == Step(news, Run(news, actions), a)
  {
    AfterOne(Stepper(news), QUIET, actions, a);
  }

  lemma LastVisit(news: Event -> bool, m: Marks, visits: seq<Action>, a: Action)
    requires a.Visit? && forall b :: b in visits ==> b.Visit?
    ensures MarksAfter(news, m, visits + [a]) == Visited(news, MarksAfter(news, m, visits), a.visited, a.reply)
  {
    assert (visits + [a])[..|visits|] == visits;
  }

  lemma {:induction false} MarksAfterBoth(news: Event -> bool, m: Marks, a: seq<Action>, b: seq<Action>)
    requires (forall x :: x in a ==> x.Visit?) && (forall x :: x in b ==> x.Visit?)
    ensures MarksAfter(news, m, a + b) == MarksAfter(news, MarksAfter(news, m, a), b)
  {
    if b == [] {
      assert a + b == a;
    } else {
      var n := |b| - 1;
      MarksAfterBoth(news, m, a, b[..n]);
      assert a + b == a + b[..n] + [b[n]];
      LastVisit(news, m, a + b[..n], b[n]);
    }
  }

  lemma {:induction false} PollVisits(news: Event -> bool, m: Marks, sessions: seq<Session>,
                                      replies: seq<Option<seq<Event>>>, offline: nat)
    requires |replies| == |sessions| && offline > 0
    ensures MarksAfter(news, m, RoundVisits(Round(offline, Some(sessions), replies)))
         == VisitAll(news, m, sessions, replies)
  {
    if sessions != [] {
      var n := |sessions| - 1;
      PollVisits(news, m, sessions[..n], replies[..n], offline);
      var visits := RoundVisits(Round(offline, Some(sessions), replies));
      assert visits == RoundVisits(Round(offline, Some(sessions[..n]), replies[..n])) + [visits[n]];
    }
  }

  /** A call of Poll is its visits, one after another, and nothing else. */
  lemma PollIsVisits(news: Event -> bool, m: Marks, r: Round)
    requires Answered(r)
    ensures Polled(news, m, r) == MarksAfter(news, m, RoundVisits(r))
  {
    if r.offline > 0 && r.active.Some? {
      PollVisits(news, m, r.active.value, r.replies, r.offline);
    }
  }

  lemma {:induction false} PollsAreVisits(news: Event -> bool, rounds: seq<Round>)
    requires forall r :: r in rounds ==> Answered(r)
    ensures forall a :: a in AllVisits(rounds) ==> a.Visit?
    ensures PolledAll(news, rounds) == MarksAfter(news, Marks(map[], []), AllVisits(rounds))
  {
    if rounds != [] {
      var init, r := rounds[..|rounds| - 1], rounds[|rounds| - 1];
      PollsAreVisits(news, init);
      PollIsVisits(news, PolledAll(news, init), r);
      MarksAfterBoth(news, Marks(map[], []), AllVisits(init), RoundVisits(r));
    }
  }

  /** Rounds of polling are runs of the machine: while the logs grow in between, the marks and the deliveries that the
      calls of Poll leave are those of the run. */
  lemma {:induction false} PollsAreARun(news: Event -> bool, actions: seq<Action>, rounds: seq<Round>)
    requires Answers(news, actions, rounds)
    ensures Run(news, actions).marks == PolledAll(news, rounds)
  {
    VisitsDecide(news, actions);
    PollsAreVisits(news, rounds);
  }

  /** So whatever the calls of Poll handed to deliver for a session is exactly the news of its log above some first
      sight and up to the mark they left, each once, in log order. */
  lemma {:induction false} PollsDeliverOnce(news: Event -> bool, actions: seq<Action>, rounds: seq<Round>, id: string)
    returns (base: int)
    requires Answers(news, actions, rounds)
    ensures var m, log := PolledAll(news, rounds), Log(Run(news, actions), id);
            var delivered := Delivered(m.out, id);
            && (id !in m.seen ==> delivered == [])
            && (id in m.seen ==>
                  && 0 <= base <= m.seen[id] <= MaxSeq(log) && Increasing(delivered)
                  && forall e :: e in delivered <==> e in log && base < e.seqno <= m.seen[id] && news(e))
  {
    PollsAreARun(news, actions, rounds);
    DeliversNewsOnce(news, actions, id);
    var w := Run(news, actions);
    base := if id in w.base then w.base[id] else 0;
  }

  /** A log takes any event above those it has. */
  lemma {:induction false} LogTakes(news: Event -> bool, actions: seq<Action>, id: string, event: Event)
    ensures var w, v := Run(news, actions), Run(news, actions + [Append(id, event)]);
            v.marks == w.marks
            && Log(v, id) == if event.seqno > MaxSeq(Log(w, id)) then Log(w, id) + [event] else Log(w, id)
  {
    RunKeeps(news, actions);
    OneStep(news, actions, Append(id, event));
    var log := Log(Run(news, actions), id);
    MaxSeqIsLast(log);
    assert (log + [event])[|log|] == event;
    assert log != [] ==> (log + [event])[|log| - 1] == log[|log| - 1];
    if event.seqno > MaxSeq(log) { HigherExtends(log, event); }
  }

  lemma HigherExtends(log: seq<Event>, event: Event)
    requires Increasing(log) && event.seqno > MaxSeq(log)
    ensures Increasing(log + [event])
  {
    MaxSeqIsLast(log);
    forall i | 0 <= i < |log|
      ensures log[i].seqno < event.seqno
    {
      assert i < |log| - 1 ==> log[i].seqno < log[|log| - 1].seqno;
    }
  }

  lemma LogsGrow(news: Event -> bool, w: World, a: Action, id: string)
    ensures MaxSeq(Log(w, id)) <= MaxSeq(Log(Step(news, w, a), id))
  {
    if Enabled(w, a) && a.Append? && a.id == id {
      assert (Log(w, id) + [a.event])[..|Log(w, id)|] == Log(w, id);
    }
  }

  /** Later rounds never lower a mark, and one in which the session answers brings it to where its log ended before. */
  lemma {:induction false} RunGoesOn(news: Event -> bool, actions: seq<Action>, more: seq<Action>, id: string)
    requires AllEnabled(news, actions + more)
    ensures var w, v := Run(news, actions), Run(news, actions + more);
            && MaxSeq(Log(w, id)) <= MaxSeq(Log(v, id))
            && (id in w.marks.seen ==> id in v.marks.seen && w.marks.seen[id] <= v.marks.seen[id])
            && ((exists events :: Visit(id, Some(events)) in more) ==>
                  id in v.marks.seen && MaxSeq(Log(w, id)) <= v.marks.seen[id])
  {
    hide After, Step, MaxSeq, Enabled;
    if more == [] {
      assert actions + more == actions;
    } else {
      var n := |more| - 1;
      var all, init := actions + more, actions + more[..n];
      assert all == init + [more[n]] && init == all[..|actions| + n];
      assert forall i :: 0 <= i < |init| ==> init[..i] == all[..i];
      RunGoesOn(news, actions, more[..n], id);
      MarksNeverFall(news, init, more[n], id);
      OneStep(news, init, more[n]);
      LogsGrow(news, Run(news, init), more[n], id);
      assert more == more[..n] + [more[n]];
    }
  }

  lemma {:induction false} PollsNeverLower(
    news: Event -> bool, actions: seq<Action>, rounds: seq<Round>, more: seq<Action>, later: seq<Round>, id: string)
    requires Answers(news, actions, rounds) && Answers(news, actions + more, rounds + later)
    ensures var m, v := PolledAll(news, rounds), PolledAll(news, rounds + later);
            && (id in m.seen ==> id in v.seen && m.seen[id] <= v.seen[id])
            && ((exists events :: Visit(id, Some(events)) in more) ==>
                  id in v.seen && MaxSeq(Log(Run(news, actions), id)) <= v.seen[id])
  {
    PollsAreARun(news, actions, rounds);
    PollsAreARun(news, actions + more, rounds + later);
    RunGoesOn(news, actions, more, id);
  }

  // ---------------------------------------------------------------- in place

  class Watcher {
    const news: Event -> bool
    var seen: map<string, int>
    /** What was handed to deliver. */
    var out: seq<Delivery>

    constructor (news: Event -> bool)
      ensures this.news == news && State() == Marks(map[], [])
    {
      this.news, seen, out := news, map[], [];
    }

    ghost function State(): Marks
      reads this
    {
      Marks(seen, out)
    }

    /** One round. `active` and `replies` are the gateway's answers; None stands for a failed call. */
    method Poll(offline: nat, active: Option<seq<Session>>, replies: seq<Option<seq<Event>>>) returns (ok: bool)
      requires active.Some? ==> |replies| == |active.value|
      modifies this
      ensures ok <==> offline == 0 || active.Some?
      ensures State() == Polled(news, old(State()), Round(offline, active, replies))
    {
      if offline == 0 {
        return true;
      }
      if active.None? {
        return false;
      }
      var sessions := active.value;
      var i := 0;
      while i < |sessions|
        invariant 0 <= i <= |sessions|
        invariant State() == VisitAll(news, old(State()), sessions[..i], replies[..i])
      {
        VisitOneMore(news, old(State()), sessions, replies, i);
        if replies[i].Some? {
          Visit(sessions[i].id, replies[i].value);
        }
        i := i + 1;
      }
      assert sessions[..i] == sessions && replies[..i] == replies;
      return true;
    }

    method Visit(id: string, events: seq<Event>)
      modifies this
      ensures State() == Visited(news, old(State()), id, Some(events))
    {
      var known := id in seen;
      var last := if known then seen[id] else 0;
      var k := 0;
      while k < |events|
        invariant 0 <= k <= |events|
        invariant known ==> id in seen
        invariant var s := ScanAll(news, id, last, known, Scan(last, old(out)), events[..k]);
                  && out == s.out && Last(seen, id) == s.mark
                  && forall other :: other != id ==> (other in seen <==> other in old(seen))
                                                     && Last(seen, other) == Last(old(seen), other)
      {
        assert events[..k + 1][..k] == events[..k];
        var e := events[k];
        if e.seqno > last {
          if e.seqno > (if id in seen then seen[id] else 0) {
            seen := seen[id := e.seqno];
          }
          if known && news(e) {
            out := out + [Delivery(id, e)];
          }
        }
        k := k + 1;
      }
      assert events[..k] == events;
      if !known {
        var most := Greatest(events);
        seen := seen[id := most];
      }
    }

    method Greatest(events: seq<Event>) returns (m: int)
      ensures m == MaxSeq(events)
    {
      m := 0;
      var k := 0;
      while k < |events|
        invariant 0 <= k <= |events| && m == MaxSeq(events[..k])
      {
        assert events[..k + 1][..k] == events[..k];
        if events[k].seqno > m {
          m := events[k].seqno;
        }
        k := k + 1;
      }
      assert events[..k] == events;
    }
  }

  lemma VisitOneMore(news: Event -> bool, m: Marks, sessions: seq<Session>, replies: seq<Option<seq<Event>>>, i: nat)
    requires i < |sessions| == |replies|
    ensures VisitAll(news, m, sessions[..i + 1], replies[..i + 1])
         == Visited(news, VisitAll(news, m, sessions[..i], replies[..i]), sessions[i].id, replies[i])
  {
    assert sessions[..i + 1][..i] == sessions[..i] && replies[..i + 1][..i] == replies[..i];
  }
}
