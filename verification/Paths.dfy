/** Sequences of steps of any machine, from one state to another, and its runs. go gives the state
    after a step, if the step is possible. */
module Paths {
  import opened KvsBuckets

  ghost predicate Leads<S(!new), T(!new)>(go: (S, T) -> Option<S>, s: S, steps: seq<T>, s': S)
    decreases |steps|
  {
    if steps == [] then s' == s
    else go(s, steps[0]).Some? && Leads(go, go(s, steps[0]).value, steps[1..], s')
  }

  lemma LeadsOne<S(!new), T(!new)>(go: (S, T) -> Option<S>, s: S, step: T, s': S)
    requires go(s, step) == Some(s')
    ensures Leads(go, s, [step], s')
  {
    assert [step][1..] == [];
  }

  lemma {:induction false} LeadsOn<S(!new), T(!new)>(go: (S, T) -> Option<S>, s: S, a: seq<T>, s1: S,
                                                       b: seq<T>, s2: S)
    requires Leads(go, s, a, s1) && Leads(go, s1, b, s2)
    ensures Leads(go, s, a + b, s2)
    decreases |a|
  {
    if a == [] {
      assert a + b == b;
    } else {
      LeadsOn(go, go(s, a[0]).value, a[1..], s1, b, s2);
      assert (a + b)[1..] == a[1..] + b;
    }
  }

  /** The steps so far and one more. */
  lemma LeadsThen<S(!new), T(!new)>(go: (S, T) -> Option<S>, s: S, a: seq<T>, s1: S, step: T, s2: S)
    requires Leads(go, s, a, s1) && go(s1, step) == Some(s2)
    ensures Leads(go, s, a + [step], s2)
  {
    LeadsOne(go, s1, step, s2);
    LeadsOn(go, s, a, s1, [step], s2);
  }

  /** The state after a run from some start, if each of its steps was possible in its turn. */
  ghost function RunFrom<S(!new), T(!new)>(go: (S, T) -> Option<S>, start: S, steps: seq<T>): Option<S> {
    if steps == [] then Some(start)
    else
      var before := RunFrom(go, start, steps[..|steps| - 1]);
      if before.Some? then go(before.value, steps[|steps| - 1]) else None
  }

  lemma OneMore<S(!new), T(!new)>(go: (S, T) -> Option<S>, start: S, steps: seq<T>, step: T)
    requires RunFrom(go, start, steps).Some?
    ensures RunFrom(go, start, steps + [step]) == go(RunFrom(go, start, steps).value, step)
  {
    assert (steps + [step])[..|steps + [step]| - 1] == steps;
  }

  /** A run goes on with any steps that lead on. */
  lemma {:induction false} RunLeads<S(!new), T(!new)>(go: (S, T) -> Option<S>, start: S,
                                                        steps: seq<T>, more: seq<T>, s': S)
    requires RunFrom(go, start, steps).Some? && Leads(go, RunFrom(go, start, steps).value, more, s')
    ensures RunFrom(go, start, steps + more) == Some(s')
    decreases |more|
  {
    if more == [] {
      assert steps + more == steps;
    } else {
      OneMore(go, start, steps, more[0]);
      RunLeads(go, start, steps + [more[0]], more[1..], s');
      assert steps + [more[0]] + more[1..] == steps + more;
    }
  }

  /** A front of a run is a run, and the step behind it is possible. */
  lemma {:induction false} PrefixRuns<S(!new), T(!new)>(go: (S, T) -> Option<S>, start: S, steps: seq<T>, k: nat)
    requires RunFrom(go, start, steps).Some? && k <= |steps|
    ensures RunFrom(go, start, steps[..k]).Some?
    ensures k < |steps| ==>
              && go(RunFrom(go, start, steps[..k]).value, steps[k]).Some?
              && RunFrom(go, start, steps[..k + 1]) == go(RunFrom(go, start, steps[..k]).value, steps[k])
    decreases |steps|
  {
    var m := |steps| - 1;
    if k == |steps| {
      assert steps[..k] == steps;
    } else if k == m {
      assert steps[..k + 1] == steps;
    } else {
      PrefixRuns(go, start, steps[..m], k);
      assert steps[..m][..k] == steps[..k] && steps[..m][..k + 1] == steps[..k + 1];
    }
  }

  /** What holds of the steps since some point and the state they lead to, every allowed step keeps. */
  ghost predicate StepsKeep<S(!new), T(!new)>(go: (S, T) -> Option<S>, p: (seq<T>, S) -> bool, allowed: T -> bool) {
    forall since, s, step :: p(since, s) && allowed(step) && go(s, step).Some? ==>
      p(since + [step], go(s, step).value)
  }

  lemma {:induction false} KeptSince<S(!new), T(!new)>(go: (S, T) -> Option<S>, start: S, steps: seq<T>, m: nat, n: nat,
                                                       p: (seq<T>, S) -> bool, allowed: T -> bool)
    requires RunFrom(go, start, steps).Some? && m <= n <= |steps| && StepsKeep(go, p, allowed)
    requires RunFrom(go, start, steps[..m]).Some? && p([], RunFrom(go, start, steps[..m]).value)
    requires forall k :: m <= k < n ==> allowed(steps[k])
    ensures RunFrom(go, start, steps[..n]).Some? && p(steps[m..n], RunFrom(go, start, steps[..n]).value)
    decreases n
  {
    if m == n {
      assert steps[m..n] == [];
    } else {
      KeptSince(go, start, steps, m, n - 1, p, allowed);
      PrefixRuns(go, start, steps, n - 1);
      assert steps[m..n] == steps[m..n - 1] + [steps[n - 1]];
    }
  }
}
