/** Runs of a step machine: finite sequences of states joined by a step relation. */
module Runs {

  function Last<S>(run: seq<S>): S
    requires run != []
  {
    run[|run| - 1]
  }

  /** `run` begins in `start` and every later state follows from the one before it. */
  ghost predicate IsRun<S(!new)>(start: S, next: (S, S) -> bool, run: seq<S>)
    decreases |run|
  {
    if |run| <= 1 then
      run == [start]
    else
      next(run[|run| - 2], Last(run)) && IsRun(start, next, run[..|run| - 1])
  }

  /** What holds at the start and is kept by every step holds wherever a run gets to. */
  lemma {:induction false} Invariant<S(!new)>(start: S, next: (S, S) -> bool, inv: S -> bool, run: seq<S>)
    requires IsRun(start, next, run) && inv(start)
    requires forall s, s' :: inv(s) && next(s, s') ==> inv(s')
    ensures inv(Last(run))
    decreases |run|
  {
    if |run| > 1 {
      Invariant(start, next, inv, run[..|run| - 1]);
    }
  }

  /** When every step raises a potential by at least one, the potential bounds the length of a run. */
  lemma {:induction false} Bounded<S(!new)>(
      start: S, next: (S, S) -> bool, inv: S -> bool, potential: S -> int, run: seq<S>)
    requires IsRun(start, next, run) && inv(start)
    requires forall s, s' :: inv(s) && next(s, s') ==> inv(s') && potential(s) < potential(s')
    ensures inv(Last(run))
    ensures |run| - 1 <= potential(Last(run)) - potential(start)
    decreases |run|
  {
    if |run| > 1 {
      Bounded(start, next, inv, potential, run[..|run| - 1]);
    }
  }

  lemma Extend<S(!new)>(start: S, next: (S, S) -> bool, run: seq<S>, s: S)
    requires IsRun(start, next, run) && next(Last(run), s)
    ensures IsRun(start, next, run + [s]) && Last(run + [s]) == s
  {
    assert (run + [s])[..|run|] == run;
  }

  /** The definition read forwards: the first state is the start, and each one leads to the next. */
  lemma {:induction false} IsRunIff<S(!new)>(start: S, next: (S, S) -> bool, run: seq<S>)
    ensures IsRun(start, next, run)
       <==> run != [] && run[0] == start && forall k :: 0 <= k < |run| - 1 ==> next(run[k], run[k + 1])
    decreases |run|
  {
    if |run| > 1 {
      var init := run[..|run| - 1];
      IsRunIff(start, next, init);
      if IsRun(start, next, run) {
        forall k | 0 <= k < |run| - 1
          ensures next(run[k], run[k + 1])
        {
          if k < |init| - 1 {
            assert next(init[k], init[k + 1]);
          }
        }
      } else if run[0] == start && forall k :: 0 <= k < |run| - 1 ==> next(run[k], run[k + 1]) {
        assert next(run[|run| - 2], run[|run| - 2 + 1]);
        forall k | 0 <= k < |init| - 1
          ensures next(init[k], init[k + 1])
        {
          assert next(run[k], run[k + 1]);
        }
      }
    }
  }

  // Runs with the names of their steps.

  /** `run` begins in `start`, and the k-th of `steps` leads from its k-th state to the one after it. */
  ghost predicate IsTrace<S(!new), A(!new)>(start: S, does: (S, A, S) -> bool, steps: seq<A>, run: seq<S>)
    decreases |steps|
  {
    if steps == [] then
      run == [start]
    else
      && |run| == |steps| + 1
      && does(run[|run| - 2], steps[|steps| - 1], Last(run))
      && IsTrace(start, does, steps[..|steps| - 1], run[..|run| - 1])
  }

  /** Every run of a machine whose states are joined by named steps is the trace of some steps. */
  lemma {:induction false} StepsOf<S(!new), A(!new)>(
      start: S, next: (S, S) -> bool, does: (S, A, S) -> bool, run: seq<S>) returns (steps: seq<A>)
    requires IsRun(start, next, run)
    requires forall s, s' :: next(s, s') ==> exists step :: does(s, step, s')
    ensures IsTrace(start, does, steps, run)
    decreases |run|
  {
    if |run| == 1 {
      steps := [];
    } else {
      var init := StepsOf(start, next, does, run[..|run| - 1]);
      var step :| does(run[|run| - 2], step, Last(run));
      steps := init + [step];
      assert steps[..|steps| - 1] == init;
      TraceLength(start, does, init, run[..|run| - 1]);
    }
  }

  lemma TraceLength<S(!new), A(!new)>(start: S, does: (S, A, S) -> bool, steps: seq<A>, run: seq<S>)
    requires IsTrace(start, does, steps, run)
    ensures |run| == |steps| + 1
  {
  }

  lemma {:induction false} TraceIsRun<S(!new), A(!new)>(
      start: S, next: (S, S) -> bool, does: (S, A, S) -> bool, steps: seq<A>, run: seq<S>)
    requires IsTrace(start, does, steps, run)
    requires forall s, step, s' :: does(s, step, s') ==> next(s, s')
    ensures IsRun(start, next, run)
    decreases |steps|
  {
    if steps != [] {
      TraceIsRun(start, next, does, steps[..|steps| - 1], run[..|run| - 1]);
    }
  }

  /** What some steps bring in, one after the other. */
  function Inputs<A, B>(steps: seq<A>, input: A -> seq<B>): seq<B> {
    if steps == [] then [] else Inputs(steps[..|steps| - 1], input) + input(steps[|steps| - 1])
  }

  /** A history to which every step adds its input holds the inputs of all steps, in order. */
  lemma {:induction false} HistoryIs<S(!new), A(!new), B>(
      start: S, does: (S, A, S) -> bool, inv: S -> bool, history: S -> seq<B>, input: A -> seq<B>,
      steps: seq<A>, run: seq<S>)
    requires IsTrace(start, does, steps, run) && inv(start)
    requires forall s, step, s' :: inv(s) && does(s, step, s') ==> inv(s') && history(s') == history(s) + input(step)
    ensures inv(Last(run)) && history(Last(run)) == history(start) + Inputs(steps, input)
    decreases |steps|
  {
    if steps == [] {
      assert history(start) + [] == history(start);
    } else {
      var init, step := steps[..|steps| - 1], steps[|steps| - 1];
      HistoryIs(start, does, inv, history, input, init, run[..|run| - 1]);
      assert history(start) + (Inputs(init, input) + input(step)) == history(start) + Inputs(init, input) + input(step);
    }
  }
}
