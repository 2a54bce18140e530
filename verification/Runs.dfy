/**
 Runs of a deterministic transition function. Every protocol of this project is a function
 `step(state, event)`; a run is the replay of a finite event sequence, and the lemmas here turn
 facts about one step into facts about every run.
 */
module Runs {

  /** The state reached from `s` by the events of `es`, in order. */
  ghost function Replay<S, E>(step: (S, E) -> S, s: S, es: seq<E>): S
    decreases |es|
  {
    if es == [] then s else step(Replay(step, s, es[..|es| - 1]), es[|es| - 1])
  }

  lemma Extend<S, E>(step: (S, E) -> S, s: S, es: seq<E>, e: E)
    ensures Replay(step, s, es + [e]) == step(Replay(step, s, es), e)
  {
  }

  /** A run of four events, written out. */
  lemma Four<S, E>(step: (S, E) -> S, s: S, a: E, b: E, c: E, d: E)
    ensures Replay(step, s, [a, b, c, d]) == step(step(step(step(s, a), b), c), d)
  {
    Extend(step, s, [], a);
    Extend(step, s, [a], b);
    Extend(step, s, [a, b], c);
    Extend(step, s, [a, b, c], d);
    assert [] + [a] == [a] && [a] + [b] == [a, b] && [a, b] + [c] == [a, b, c] && [a, b, c] + [d] == [a, b, c, d];
  }

  /** A run of five events, written out. */
  lemma Five<S, E>(step: (S, E) -> S, s: S, a: E, b: E, c: E, d: E, e: E)
    ensures Replay(step, s, [a, b, c, d, e]) == step(step(step(step(step(s, a), b), c), d), e)
  {
    Four(step, s, a, b, c, d);
    Extend(step, s, [a, b, c, d], e);
    assert [a, b, c, d] + [e] == [a, b, c, d, e];
  }

  /** Replaying a concatenation is replaying its parts one after the other. */
  lemma {:induction false} Split<S, E>(step: (S, E) -> S, s: S, a: seq<E>, b: seq<E>)
    ensures Replay(step, s, a + b) == Replay(step, Replay(step, s, a), b)
    decreases |b|
  {
    if b == [] {
      assert a + b == a;
    } else {
      var front := b[..|b| - 1];
      assert (a + b)[..|a + b| - 1] == a + front;
      Split(step, s, a, front);
    }
  }

  /** An invariant of every step holds after every run that starts inside it. */
  lemma {:induction false} Invariant<S(!new), E(!new)>(step: (S, E) -> S, inv: S -> bool, s: S, es: seq<E>)
    requires inv(s)
    requires forall t, e {:trigger step(t, e)} :: inv(t) ==> inv(step(t, e))
    ensures inv(Replay(step, s, es))
    decreases |es|
  {
    if es != [] {
      Invariant(step, inv, s, es[..|es| - 1]);
    }
  }

  /** A preorder that every step inside the invariant respects relates the ends of every run. */
  lemma {:induction false} Ordered<S(!new), E(!new)>(
    step: (S, E) -> S, inv: S -> bool, rel: (S, S) -> bool, s: S, es: seq<E>)
    requires inv(s)
    requires forall t, e {:trigger step(t, e)} :: inv(t) ==> inv(step(t, e)) && rel(t, step(t, e))
    requires forall t {:trigger rel(t, t)} :: rel(t, t)
    requires forall t, u, v {:trigger rel(t, u), rel(u, v)} :: rel(t, u) && rel(u, v) ==> rel(t, v)
    ensures inv(Replay(step, s, es)) && rel(s, Replay(step, s, es))
    decreases |es|
  {
    if es != [] {
      var front := es[..|es| - 1];
      Ordered(step, inv, rel, s, front);
      var mid := Replay(step, s, front);
      assert rel(mid, step(mid, es[|es| - 1]));
    }
  }
}
