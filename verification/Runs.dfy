/** Steps taken one after another, and the size of a subset. */
module Runs {

  /** The state after a list of events. */
  function After<S, E>(step: (S, E) -> S, s: S, events: seq<E>): S {
    if events == [] then s else step(After(step, s, events[..|events| - 1]), events[|events| - 1])
  }

  lemma AfterNone<S, E>(step: (S, E) -> S, s: S)
    ensures After(step, s, []) == s
  {
  }

  lemma AfterOne<S, E>(step: (S, E) -> S, s: S, events: seq<E>, e: E)
    ensures After(step, s, events + [e]) == step(After(step, s, events), e)
  {
    assert (events + [e])[..|events|] == events;
  }

  lemma {:induction false} AfterBoth<S, E>(step: (S, E) -> S, s: S, a: seq<E>, b: seq<E>)
    ensures After(step, s, a + b) == After(step, After(step, s, a), b)
  {
    if b == [] {
      assert a + b == a;
    } else {
      assert (a + b)[..|a + b| - 1] == a + b[..|b| - 1];
      AfterBoth(step, s, a, b[..|b| - 1]);
    }
  }

  /** Five steps, one by one. */
  lemma {:induction false} FiveSteps<S, E>(step: (S, E) -> S, s: S, es: seq<E>)
    requires |es| == 5
    ensures After(step, s, es[..3]) == step(step(step(s, es[0]), es[1]), es[2])
    ensures After(step, s, es[..4]) == step(After(step, s, es[..3]), es[3])
    ensures After(step, s, es) == step(After(step, s, es[..4]), es[4])
  {
    AfterNone(step, s);
    assert es[..1] == [] + [es[0]];
    AfterOne(step, s, [], es[0]);
    assert es[..2] == es[..1] + [es[1]];
    AfterOne(step, s, es[..1], es[1]);
    assert es[..3] == es[..2] + [es[2]];
    AfterOne(step, s, es[..2], es[2]);
    assert es[..4] == es[..3] + [es[3]];
    AfterOne(step, s, es[..3], es[3]);
    assert es == es[..4] + [es[4]];
    AfterOne(step, s, es[..4], es[4]);
  }

  lemma SubsetSize<T>(a: set<T>, b: set<T>)
    requires a <= b
    ensures |a| <= |b|
  {
    assert b == a + (b - a);
  }
}
