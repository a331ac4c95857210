/** Runs of an event loop: its rounds, folded over what it receives. */
module Runs {

  function Fold<S, E>(round: (S, E) -> S, s: S, events: seq<E>): S {
    if events == [] then s
    else round(Fold(round, s, events[..|events| - 1]), events[|events| - 1])
  }

  lemma FoldOneMore<S, E>(round: (S, E) -> S, s: S, events: seq<E>, e: E)
    ensures Fold(round, s, events + [e]) == round(Fold(round, s, events), e)
  {
    assert (events + [e])[..|events|] == events;
  }

  /** A run goes on from where its first part ended. */
  lemma {:induction false} FoldSplits<S, E>(round: (S, E) -> S, s: S, first: seq<E>, rest: seq<E>)
    ensures Fold(round, s, first + rest) == Fold(round, Fold(round, s, first), rest)
  {
    if rest == [] {
      assert first + rest == first;
    } else {
      var init := rest[..|rest| - 1];
      FoldSplits(round, s, first, init);
      assert (first + rest)[..|first + rest| - 1] == first + init;
    }
  }

  lemma {:induction false} FoldStays<S, E>(round: (S, E) -> S, s: S, events: seq<E>)
    requires forall i :: 0 <= i < |events| ==> round(s, events[i]) == s
    ensures Fold(round, s, events) == s
  {
    if events != [] {
      FoldStays(round, s, events[..|events| - 1]);
    }
  }

  /** A run that nothing moves after its first i rounds has ended there. */
  lemma FoldStops<S, E>(round: (S, E) -> S, s: S, events: seq<E>, i: nat)
    requires i <= |events|
    requires forall j :: i <= j < |events| ==> round(Fold(round, s, events[..i]), events[j]) == Fold(round, s, events[..i])
    ensures Fold(round, s, events) == Fold(round, s, events[..i])
  {
    assert events == events[..i] + events[i..];
    FoldSplits(round, s, events[..i], events[i..]);
    FoldStays(round, Fold(round, s, events[..i]), events[i..]);
  }
}
