/**
 A barrier made from a pipe. The parent forks n children that inherit the write end; each closes it
 when its work is done, and the parent's read returns only at end of file. fork() succeeds.
 */
module PipeSync {
  import opened Runs

  datatype ParentPhase = Forking | ClosingWrite | Reading | Passed

  datatype ChildPhase = ClosingRead | Working | Done | Closed | Exited

  /**
   `children` are those forked so far, `writeEnds` the number of descriptors open on the write end.
   `closes` says whether the parent closes its own, as the program does.
   */
  datatype State = State(n: nat, closes: bool, parent: ParentPhase, children: seq<ChildPhase>, writeEnds: nat)

  datatype Step = ParentStep | ChildStep(c: nat)

  function Start(n: nat, closes: bool): State {
    State(n, closes, Forking, [], 1)
  }

  predicate Enabled(s: State, step: Step) {
    match step
    case ParentStep => (s.parent.Reading? ==> s.writeEnds == 0) && !s.parent.Passed?
    case ChildStep(c) => c < |s.children| && s.children[c] != Exited && (s.children[c].Done? ==> s.writeEnds > 0)
  }

  function Apply(s: State, step: Step): State
    requires Enabled(s, step)
  {
    match step
    case ParentStep => ApplyParent(s)
    case ChildStep(c) =>
      var s' := s.(children := s.children[c := After(s.children[c])]);
      if s.children[c].Done? then s'.(writeEnds := s.writeEnds - 1) else s'
  }

  function ApplyParent(s: State): State {
    match s.parent
    case Forking =>
      if |s.children| < s.n then
        s.(children := s.children + [ClosingRead], writeEnds := s.writeEnds + 1)
      else
        s.(parent := ClosingWrite)
    case ClosingWrite =>
      if s.closes && s.writeEnds > 0 then s.(parent := Reading, writeEnds := s.writeEnds - 1)
      else s.(parent := Reading)
    case _ => s.(parent := Passed)
  }

  function After(phase: ChildPhase): ChildPhase {
    match phase
    case ClosingRead => Working
    case Working => Done
    case Done => Closed
    case _ => Exited
  }

  ghost predicate Next(s: State, s': State) {
    exists step :: Enabled(s, step) && s' == Apply(s, step)
  }

  /** Children that still hold the write end. */
  function Holders(children: seq<ChildPhase>): nat {
    multiset(children)[ClosingRead] + multiset(children)[Working] + multiset(children)[Done]
  }

  function ParentHolds(s: State): nat {
    if s.parent.Forking? || s.parent.ClosingWrite? || !s.closes then 1 else 0
  }

  ghost predicate Inv(s: State) {
    && s.writeEnds == ParentHolds(s) + Holders(s.children)
    && |s.children| <= s.n
    && (!s.parent.Forking? ==> |s.children| == s.n)
    && (s.parent.Passed? ==> s.writeEnds == 0)
  }

  /** An upper bound on the steps still to come. */
  function Work(s: State): int {
    5 * (s.n - |s.children|)
    + 4 * multiset(s.children)[ClosingRead] + 3 * multiset(s.children)[Working]
    + 2 * multiset(s.children)[Done] + multiset(s.children)[Closed]
    + match s.parent case Forking => 3 case ClosingWrite => 2 case Reading => 1 case Passed => 0
  }

  function WorkDone(s: State): int {
    0 - Work(s)
  }

  lemma ChildMoves(children: seq<ChildPhase>, c: nat, phase: ChildPhase)
    requires c < |children|
    ensures var was := children[c];
            var counts, counts' := multiset(children), multiset(children[c := After(was)]);
            was != Exited ==>
              counts'[phase] == counts[phase]
                                - (if phase == was then 1 else 0) + (if phase == After(was) then 1 else 0)
  {
    var was := children[c];
    assert was in multiset(children);
    assert multiset(children[c := After(was)]) == multiset(children) - multiset{was} + multiset{After(was)};
  }

  lemma ChildStepKeepsInv(s: State, c: nat)
    requires Inv(s) && Enabled(s, ChildStep(c))
    ensures Inv(Apply(s, ChildStep(c))) && WorkDone(s) < WorkDone(Apply(s, ChildStep(c)))
  {
    ChildMoves(s.children, c, ClosingRead);
    ChildMoves(s.children, c, Working);
    ChildMoves(s.children, c, Done);
    ChildMoves(s.children, c, Closed);
  }

  lemma StepKeepsInv(s: State, step: Step)
    requires Inv(s) && Enabled(s, step)
    ensures Inv(Apply(s, step)) && WorkDone(s) < WorkDone(Apply(s, step))
    ensures Apply(s, step).n == s.n && Apply(s, step).closes == s.closes
  {
    match step
    case ChildStep(c) => ChildStepKeepsInv(s, c);
    case ParentStep =>
  }

  ghost predicate InvOf(s: State, n: nat, closes: bool) {
    Inv(s) && s.n == n && s.closes == closes
  }

  lemma RunKeepsInv(n: nat, closes: bool, run: seq<State>)
    requires IsRun(Start(n, closes), Next, run)
    ensures Inv(Last(run)) && Last(run).n == n && Last(run).closes == closes
    ensures |run| - 1 <= 5 * n + 3 - Work(Last(run))
  {
    var inv := (s: State) => InvOf(s, n, closes);
    forall s, s' | inv(s) && Next(s, s')
      ensures inv(s') && WorkDone(s) < WorkDone(s')
    {
      var step :| Enabled(s, step) && s' == Apply(s, step);
      StepKeepsInv(s, step);
    }
    Bounded(Start(n, closes), Next, inv, WorkDone, run);
  }

  /** The number of write ends open is the parent's, if it is open, and one for each child not yet closed. */
  lemma WriteEndsAreCounted(n: nat, closes: bool, run: seq<State>)
    requires IsRun(Start(n, closes), Next, run)
    ensures Last(run).writeEnds == ParentHolds(Last(run)) + Holders(Last(run).children)
  {
    RunKeepsInv(n, closes, run);
  }

  lemma {:induction false} NoHolders(children: seq<ChildPhase>, c: nat)
    requires Holders(children) == 0 && c < |children|
    ensures children[c].Closed? || children[c].Exited?
  {
    assert children[c] in multiset(children);
  }

  /** The step from the k-th state of the run is the one in which child c finishes its work, its write end still open. */
  ghost predicate WorksAt(run: seq<State>, c: nat, k: nat) {
    && k + 1 < |run|
    && c < |run[k].children| && c < |run[k + 1].children|
    && run[k].children[c] == Working && run[k + 1].children[c] == Done
  }

  ghost predicate HasWorked(run: seq<State>, c: nat) {
    exists k :: WorksAt(run, c, k)
  }

  /** A child only comes into being about to work, and a step takes it no further than that. */
  lemma StepsOneByOne(s: State, s': State, c: nat)
    requires Next(s, s') && c < |s'.children| && s'.children[c] in {Done, Closed, Exited}
    ensures c < |s.children|
    ensures s.children[c] in {Done, Closed, Exited} || (s.children[c] == Working && s'.children[c] == Done)
  {
  }

  /** A child that is past its work has done it at some step of the run. */
  lemma {:induction false} WorkComesFirst(n: nat, closes: bool, run: seq<State>, c: nat)
    requires IsRun(Start(n, closes), Next, run)
    requires c < |Last(run).children| && Last(run).children[c] in {Done, Closed, Exited}
    ensures HasWorked(run, c)
    decreases |run|
  {
    var init := run[..|run| - 1];
    StepsOneByOne(Last(init), Last(run), c);
    if Last(init).children[c] == Working {
      assert WorksAt(run, c, |run| - 2);
    } else {
      WorkComesFirst(n, closes, init, c);
      var k :| WorksAt(init, c, k);
      assert WorksAt(run, c, k);
    }
  }

  /**
   When the parent passes the barrier, each of the n children has done its work at some earlier step
   of the run, and has closed its end.
   */
  lemma BarrierHolds(n: nat, closes: bool, run: seq<State>)
    requires IsRun(Start(n, closes), Next, run) && Last(run).parent == Passed
    ensures |Last(run).children| == n
    ensures forall c: nat :: c < n ==> Last(run).children[c].Closed? || Last(run).children[c].Exited?
    ensures forall c: nat :: c < n ==> HasWorked(run, c)
  {
    RunKeepsInv(n, closes, run);
    forall c: nat | c < n
      ensures Last(run).children[c].Closed? || Last(run).children[c].Exited?
      ensures HasWorked(run, c)
    {
      NoHolders(Last(run).children, c);
      WorkComesFirst(n, closes, run, c);
    }
  }

  ghost predicate Stuck(s: State) {
    s.parent != Passed && !exists step :: Enabled(s, step)
  }

  lemma CanMove(s: State) returns (step: Step)
    requires Inv(s) && s.closes && s.parent != Passed
    ensures Enabled(s, step)
  {
    if s.parent == Reading && s.writeEnds > 0 {
      var phase := if ClosingRead in multiset(s.children) then ClosingRead
                   else if Working in multiset(s.children) then Working else Done;
      assert phase in multiset(s.children);
      var c :| 0 <= c < |s.children| && s.children[c] == phase;
      step := ChildStep(c);
    } else {
      step := ParentStep;
    }
  }

  lemma {:induction false} RunOut(n: nat, closes: bool, run: seq<State>) returns (run': seq<State>)
    requires IsRun(Start(n, closes), Next, run)
    ensures IsRun(Start(n, closes), Next, run') && !exists step :: Enabled(Last(run'), step)
    decreases Work(Last(run))
  {
    RunKeepsInv(n, closes, run);
    if step :| Enabled(Last(run), step) {
      StepKeepsInv(Last(run), step);
      Extend(Start(n, closes), Next, run, Apply(Last(run), step));
      run' := RunOut(n, closes, run + [Apply(Last(run), step)]);
    } else {
      run' := run;
    }
  }

  /** Whatever the number of children, the barrier is always reached if and only if the parent closes its own end. */
  lemma AlwaysPassesIffParentCloses(n: nat, closes: bool)
    ensures (forall run :: IsRun(Start(n, closes), Next, run) ==> !Stuck(Last(run))) <==> closes
  {
    if closes {
      forall run | IsRun(Start(n, closes), Next, run)
        ensures !Stuck(Last(run))
      {
        RunKeepsInv(n, closes, run);
        if Last(run).parent != Passed {
          var step := CanMove(Last(run));
        }
      }
    } else {
      assert IsRun(Start(n, closes), Next, [Start(n, closes)]);
      var run := RunOut(n, closes, [Start(n, closes)]);
      RunKeepsInv(n, closes, run);
      assert Stuck(Last(run));
    }
  }

  /** Runs end: with n children none has more than 5n + 3 steps. */
  lemma RunsAreBounded(n: nat, closes: bool, run: seq<State>)
    requires IsRun(Start(n, closes), Next, run)
    ensures |run| - 1 <= 5 * n + 3
  {
    RunKeepsInv(n, closes, run);
  }
}
