// Histories of a state machine: what holds after every sequence of enabled actions, and when.
module Histories {

  // step matters only where the action is enabled.
  datatype Machine<!S(!new), !A(!new)> = Machine(enabled: (S, A) -> bool, step: (S, A) -> S)

  ghost predicate Valid<S(!new), A(!new)>(m: Machine<S, A>, s: S, acts: seq<A>)
    decreases |acts|
  {
    acts != [] ==> m.enabled(s, acts[0]) && Valid(m, m.step(s, acts[0]), acts[1..])
  }

  ghost function Exec<S(!new), A(!new)>(m: Machine<S, A>, s: S, acts: seq<A>): S
    decreases |acts|
  {
    if acts == [] then s else Exec(m, m.step(s, acts[0]), acts[1..])
  }

  // ok holds in every state of the history.
  ghost predicate Always<S(!new), A(!new)>(m: Machine<S, A>, ok: S -> bool, s: S, acts: seq<A>)
    decreases |acts|
  {
    ok(s) && (acts != [] ==> Always(m, ok, m.step(s, acts[0]), acts[1..]))
  }

  // No step of the history is bad.
  ghost predicate Never<S(!new), A(!new)>(m: Machine<S, A>, bad: (S, A) -> bool, s: S, acts: seq<A>)
    decreases |acts|
  {
    acts != [] ==> !bad(s, acts[0]) && Never(m, bad, m.step(s, acts[0]), acts[1..])
  }

  lemma {:induction false} NeverLess<S(!new), A(!new)>(m: Machine<S, A>, bad: (S, A) -> bool, less: (S, A) -> bool,
                                                      s: S, acts: seq<A>)
    requires Never(m, bad, s, acts) && forall t, a :: less(t, a) ==> bad(t, a)
    ensures Never(m, less, s, acts)
    decreases |acts|
  {
    if acts != [] {
      NeverLess(m, bad, less, m.step(s, acts[0]), acts[1..]);
    }
  }

  // What every enabled step keeps, every history keeps.
  lemma {:induction false} Invariant<S(!new), A(!new)>(m: Machine<S, A>, inv: S -> bool, s: S, acts: seq<A>)
    requires inv(s) && Valid(m, s, acts)
    requires forall t, a :: inv(t) && m.enabled(t, a) ==> inv(m.step(t, a))
    ensures inv(Exec(m, s, acts))
    decreases |acts|
  {
    if acts != [] {
      Invariant(m, inv, m.step(s, acts[0]), acts[1..]);
    }
  }

  // What every enabled step that is not bad keeps, every history without bad steps keeps; and such
  // a history has no step that only bad ones lead to.
  lemma {:induction false} Discipline<S(!new), A(!new)>(m: Machine<S, A>, inv: S -> bool, bad: (S, A) -> bool,
                                                       worse: (S, A) -> bool, s: S, acts: seq<A>)
    requires inv(s) && Valid(m, s, acts) && Never(m, bad, s, acts)
    requires forall t, a :: inv(t) && m.enabled(t, a) && !bad(t, a) ==> inv(m.step(t, a)) && !worse(t, a)
    ensures inv(Exec(m, s, acts)) && Never(m, worse, s, acts)
    decreases |acts|
  {
    if acts != [] {
      Discipline(m, inv, bad, worse, m.step(s, acts[0]), acts[1..]);
    }
  }

  // A step that no state of the invariant takes is never taken.
  lemma {:induction false} NeverFrom<S(!new), A(!new)>(m: Machine<S, A>, inv: S -> bool, bad: (S, A) -> bool,
                                                      s: S, acts: seq<A>)
    requires inv(s) && Valid(m, s, acts)
    requires forall t, a :: inv(t) && m.enabled(t, a) ==> inv(m.step(t, a)) && !bad(t, a)
    ensures Never(m, bad, s, acts)
    decreases |acts|
  {
    if acts != [] {
      NeverFrom(m, inv, bad, m.step(s, acts[0]), acts[1..]);
    }
  }

  // If one step from a good state stays good exactly when it is not bad, a history from a good state
  // is good throughout exactly when none of its steps is bad.
  lemma {:induction false} Exact<S(!new), A(!new)>(m: Machine<S, A>, inv: S -> bool, ok: S -> bool,
                                                  bad: (S, A) -> bool, s: S, acts: seq<A>)
    requires inv(s) && ok(s) && Valid(m, s, acts)
    requires forall t, a :: inv(t) && ok(t) && m.enabled(t, a) ==>
               inv(m.step(t, a)) && (ok(m.step(t, a)) <==> !bad(t, a))
    ensures Always(m, ok, s, acts) <==> Never(m, bad, s, acts)
    ensures Never(m, bad, s, acts) ==> ok(Exec(m, s, acts))
    decreases |acts|
  {
    if acts != [] && ok(m.step(s, acts[0])) {
      Exact(m, inv, ok, bad, m.step(s, acts[0]), acts[1..]);
    }
  }

  // What the first bad step brings about, and every later step keeps, holds at the end of a history
  // with a bad step.
  lemma {:induction false} Lasting<S(!new), A(!new)>(m: Machine<S, A>, inv: S -> bool, bad: (S, A) -> bool,
                                                    after: S -> bool, s: S, acts: seq<A>)
    requires inv(s) && Valid(m, s, acts)
    requires forall t, a :: inv(t) && m.enabled(t, a) ==>
               inv(m.step(t, a)) && (bad(t, a) || after(t) ==> after(m.step(t, a)))
    ensures after(s) || !Never(m, bad, s, acts) ==> after(Exec(m, s, acts))
    decreases |acts|
  {
    if acts != [] {
      Lasting(m, inv, bad, after, m.step(s, acts[0]), acts[1..]);
    }
  }

  // The machine that never takes certain steps.
  function Without<S(!new), A(!new)>(m: Machine<S, A>, bad: (S, A) -> bool): Machine<S, A> {
    Machine((s: S, a: A) => m.enabled(s, a) && !bad(s, a), m.step)
  }

  lemma {:induction false} StaysWithout<S(!new), A(!new)>(m: Machine<S, A>, bad: (S, A) -> bool,
                                                         other: (S, A) -> bool, s: S, acts: seq<A>)
    requires Valid(m, s, acts) && Never(m, bad, s, acts)
    ensures Valid(Without(m, bad), s, acts) && Exec(Without(m, bad), s, acts) == Exec(m, s, acts)
    ensures Never(Without(m, bad), other, s, acts) <==> Never(m, other, s, acts)
    decreases |acts|
  {
    if acts != [] {
      StaysWithout(m, bad, other, m.step(s, acts[0]), acts[1..]);
    }
  }

  // ---------------------------------------------------------------- One machine seen as another

  // The actions of the abstract machine that a history of the concrete one amounts to.
  ghost function Projected<S(!new), A(!new), B(!new)>(m: Machine<S, A>, act: (S, A) -> B, s: S, acts: seq<A>): seq<B>
    decreases |acts|
  {
    if acts == [] then [] else [act(s, acts[0])] + Projected(m, act, m.step(s, acts[0]), acts[1..])
  }

  // Every enabled step of m is, through the view, an enabled step of n.
  ghost predicate Simulates<S(!new), A(!new), T(!new), B(!new)>(m: Machine<S, A>, n: Machine<T, B>, view: S -> T,
                                                               act: (S, A) -> B)
  {
    forall s, a :: m.enabled(s, a) ==>
      n.enabled(view(s), act(s, a)) && n.step(view(s), act(s, a)) == view(m.step(s, a))
  }

  lemma {:induction false} Projects<S(!new), A(!new), T(!new), B(!new)>(m: Machine<S, A>, n: Machine<T, B>,
                                                                       view: S -> T, act: (S, A) -> B,
                                                                       s: S, acts: seq<A>)
    requires Simulates(m, n, view, act) && Valid(m, s, acts)
    ensures Leads(n, view(s), Projected(m, act, s, acts), view(Exec(m, s, acts)))
    decreases |acts|
  {
    if acts != [] {
      Projects(m, n, view, act, m.step(s, acts[0]), acts[1..]);
    }
  }

  lemma {:induction false} NeverProjected<S(!new), A(!new), T(!new), B(!new)>(
      m: Machine<S, A>, n: Machine<T, B>, view: S -> T, act: (S, A) -> B,
      bad: (T, B) -> bool, seen: (S, A) -> bool, s: S, acts: seq<A>)
    requires Simulates(m, n, view, act) && Valid(m, s, acts)
    requires forall t, a :: m.enabled(t, a) ==> (seen(t, a) <==> bad(view(t), act(t, a)))
    ensures Never(n, bad, view(s), Projected(m, act, s, acts)) <==> Never(m, seen, s, acts)
    decreases |acts|
  {
    if acts != [] {
      NeverProjected(m, n, view, act, bad, seen, m.step(s, acts[0]), acts[1..]);
    }
  }

  // A history of two parts.
  lemma {:induction false} Splits<S(!new), A(!new)>(m: Machine<S, A>, s: S, xs: seq<A>, ys: seq<A>)
    requires Valid(m, s, xs + ys)
    ensures Valid(m, s, xs) && Valid(m, Exec(m, s, xs), ys) && Exec(m, s, xs + ys) == Exec(m, Exec(m, s, xs), ys)
    decreases |xs|
  {
    if xs == [] {
      assert xs + ys == ys;
    } else {
      assert (xs + ys)[1..] == xs[1..] + ys;
      Splits(m, m.step(s, xs[0]), xs[1..], ys);
    }
  }

  // ---------------------------------------------------------------- Building histories

  ghost predicate Leads<S(!new), A(!new)>(m: Machine<S, A>, s: S, acts: seq<A>, t: S) {
    Valid(m, s, acts) && Exec(m, s, acts) == t
  }

  lemma {:induction false} Then<S(!new), A(!new)>(m: Machine<S, A>, s: S, xs: seq<A>, t: S, ys: seq<A>, u: S)
    requires Leads(m, s, xs, t) && Leads(m, t, ys, u)
    ensures Leads(m, s, xs + ys, u)
    decreases |xs|
  {
    if xs == [] {
      assert xs + ys == ys;
    } else {
      Then(m, m.step(s, xs[0]), xs[1..], t, ys, u);
      assert (xs + ys)[1..] == xs[1..] + ys;
    }
  }

  lemma {:induction false} NeverThen<S(!new), A(!new)>(m: Machine<S, A>, bad: (S, A) -> bool, s: S, xs: seq<A>, t: S,
                                                      ys: seq<A>)
    requires Leads(m, s, xs, t) && Never(m, bad, s, xs) && Never(m, bad, t, ys)
    ensures Never(m, bad, s, xs + ys)
    decreases |xs|
  {
    if xs == [] {
      assert xs + ys == ys;
    } else {
      NeverThen(m, bad, m.step(s, xs[0]), xs[1..], t, ys);
      assert (xs + ys)[1..] == xs[1..] + ys;
    }
  }

  lemma OneStep<S(!new), A(!new)>(m: Machine<S, A>, s: S, a: A, t: S)
    requires m.enabled(s, a) && m.step(s, a) == t
    ensures Leads(m, s, [a], t)
  {
    assert [a][1..] == [];
  }

  lemma OneMore<S(!new), A(!new)>(m: Machine<S, A>, s: S, acts: seq<A>, t: S, a: A)
    requires Leads(m, s, acts, t) && m.enabled(t, a)
    ensures Leads(m, s, acts + [a], m.step(t, a))
  {
    OneStep(m, t, a, m.step(t, a));
    Then(m, s, acts, t, [a], m.step(t, a));
  }

  lemma TwoSteps<S(!new), A(!new)>(m: Machine<S, A>, s: S, a: A, b: A, t: S)
    requires m.enabled(s, a) && m.enabled(m.step(s, a), b) && m.step(m.step(s, a), b) == t
    ensures Leads(m, s, [a, b], t)
  {
    OneStep(m, s, a, m.step(s, a));
    OneStep(m, m.step(s, a), b, t);
    Then(m, s, [a], m.step(s, a), [b], t);
    assert [a] + [b] == [a, b];
  }

  lemma ThreeSteps<S(!new), A(!new)>(m: Machine<S, A>, s: S, a: A, b: A, c: A, t: S)
    requires m.enabled(s, a)
    requires var s1 := m.step(s, a); m.enabled(s1, b) && var s2 := m.step(s1, b); m.enabled(s2, c) && m.step(s2, c) == t
    ensures Leads(m, s, [a, b, c], t)
  {
    OneStep(m, s, a, m.step(s, a));
    TwoSteps(m, m.step(s, a), b, c, t);
    Then(m, s, [a], m.step(s, a), [b, c], t);
    assert [a] + [b, c] == [a, b, c];
  }

  lemma OneClean<S(!new), A(!new)>(m: Machine<S, A>, bad: (S, A) -> bool, s: S, acts: seq<A>, t: S, a: A)
    requires Leads(m, s, acts, t) && Never(m, bad, s, acts) && m.enabled(t, a) && !bad(t, a)
    ensures Leads(m, s, acts + [a], m.step(t, a)) && Never(m, bad, s, acts + [a])
  {
    OneMore(m, s, acts, t, a);
    assert [a][1..] == [];
    NeverThen(m, bad, s, acts, t, [a]);
  }
}
