/** Finding the step of a run at which something changed. */
module Moments {
  import opened Outcomes
  import opened Signing
  import opened Runs

  /** `u` is the world before step `i` of the run and `u'` the one after it. */
  ghost predicate Moment(recover: Recovery, w: World, steps: seq<Step>, i: nat, u: World, u': World) {
    i < |steps| && Run(recover, w, steps[..i]) == Ok(u) && Do(recover, u, steps[i]) == Ok(u')
  }

  lemma LaterMoment(recover: Recovery, w: World, steps: seq<Step>, w': World, i: nat, u: World, u': World)
    requires steps != [] && Do(recover, w, steps[0]) == Ok(w') && Moment(recover, w', steps[1..], i, u, u')
    ensures Moment(recover, w, steps, i + 1, u, u')
  {
    hide Do, Run;
    var front := steps[..i + 1];
    assert front[1..] == steps[1..][..i];
    RunNext(recover, w, front, w');
  }

  lemma FirstMoment(recover: Recovery, w: World, steps: seq<Step>, w': World)
    requires steps != [] && Do(recover, w, steps[0]) == Ok(w')
    ensures Moment(recover, w, steps, 0, w, w')
  {
    hide Do;
    assert steps[..0] == [];
  }

  /** What differs at the two ends of a run was changed by one of its steps. */
  lemma {:induction false} SomeMoment<X>(recover: Recovery, w: World, steps: seq<Step>, f: World -> X)
    returns (i: nat, u: World, u': World)
    requires Run(recover, w, steps).Ok? && f(Run(recover, w, steps).value) != f(w)
    ensures Moment(recover, w, steps, i, u, u') && f(u) != f(u')
    decreases |steps|
  {
    hide Do, Moment;
    var w' := Do(recover, w, steps[0]).value;
    RunNext(recover, w, steps, w');
    if f(w') != f(w) {
      FirstMoment(recover, w, steps, w');
      i, u, u' := 0, w, w';
    } else {
      i, u, u' := SomeMoment(recover, w', steps[1..], f);
      LaterMoment(recover, w, steps, w', i, u, u');
      i := i + 1;
    }
  }
}
