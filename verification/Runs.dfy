/** Runs of a step system: folding a step function over a list of events, oldest event first. */
module Runs {

  function Fold<S, E>(step: (S, E) -> S, s: S, events: seq<E>): S
    decreases |events|
  {
    if events == [] then s else step(Fold(step, s, events[..|events| - 1]), events[|events| - 1])
  }

  lemma FoldSnoc<S, E>(step: (S, E) -> S, s: S, events: seq<E>, e: E)
    ensures Fold(step, s, events + [e]) == step(Fold(step, s, events), e)
  {
    assert (events + [e])[..|events|] == events;
  }

  /** Running two lists of events one after the other is running their concatenation. */
  lemma {:induction false} FoldConcat<S, E>(step: (S, E) -> S, s: S, first: seq<E>, second: seq<E>)
    ensures Fold(step, s, first + second) == Fold(step, Fold(step, s, first), second)
    decreases |second|
  {
    if second == [] {
      assert first + second == first;
    } else {
      var n := |second| - 1;
      assert (first + second)[..|first| + n] == first + second[..n];
      FoldConcat(step, s, first, second[..n]);
    }
  }

  lemma FoldCons<S, E>(step: (S, E) -> S, s: S, e: E, events: seq<E>)
    ensures Fold(step, s, [e] + events) == Fold(step, step(s, e), events)
  {
    FoldConcat(step, s, [e], events);
    assert [e][..0] == [];
    assert Fold(step, s, [e]) == step(Fold(step, s, [e][..0]), e);
  }
}
