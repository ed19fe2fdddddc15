/** Runs of a state machine whose steps are a function of the state and an event. */
module Machine {

  /** The state after a sequence of events. */
  function Exec<S, E>(step: (S, E) -> S, s: S, es: seq<E>): S {
    if |es| == 0 then s else step(Exec(step, s, es[..|es| - 1]), es[|es| - 1])
  }

  lemma ExecSnoc<S, E>(step: (S, E) -> S, s: S, es: seq<E>, e: E)
    ensures Exec(step, s, es + [e]) == step(Exec(step, s, es), e)
  {
    assert (es + [e])[..|es + [e]| - 1] == es;
  }

  lemma {:induction false} ExecConcat<S, E>(step: (S, E) -> S, s: S, a: seq<E>, b: seq<E>)
    ensures Exec(step, s, a + b) == Exec(step, Exec(step, s, a), b)
  {
    if |b| == 0 {
      assert a + b == a;
    } else {
      var n := |b| - 1;
      ExecConcat(step, s, a, b[..n]);
      assert (a + b)[..|a + b| - 1] == a + b[..n];
    }
  }

  lemma ExecOne<S, E>(step: (S, E) -> S, s: S, e: E)
    ensures Exec(step, s, [e]) == step(s, e)
  {
    ExecSnoc(step, s, [], e);
    assert [] + [e] == [e];
  }

  lemma ExecCons<S, E>(step: (S, E) -> S, s: S, e: E, es: seq<E>)
    ensures Exec(step, step(s, e), es) == Exec(step, s, [e] + es)
  {
    ExecConcat(step, s, [e], es);
    ExecOne(step, s, e);
  }
}
