/**
 One process writes a string into a pipe, and its child copies the pipe to standard output in chunks
 of at most ten bytes, adding a newline at end of file. The pipe holds `capacity` bytes; a write may
 go through in any pieces that fit, and a read may return any part of what is there. fork() succeeds.
 */
module SimplePipe {
  import opened Runs

  const BUF_SIZE := 10

  datatype ParentPhase = ClosingRead | Writing | ClosingWrite | Waiting | Gone

  datatype ChildPhase = Starting | Reading | Echoing(chunk: string) | AtEof | Closing | Exited

  /**
   `closes` says whether the child closes its copy of the write end, as the program does. `out` is
   standard output, and `broken` is set by a write to a pipe that has no reader.
   */
  datatype State = State(
    text: string,
    capacity: nat,
    closes: bool,
    parent: ParentPhase,
    child: ChildPhase,
    unsent: string,
    pipe: string,
    out: string,
    broken: bool)

  datatype Step = ParentStep | ParentWrite(k: nat) | ChildStep | ChildRead(k: nat) | ChildEof

  function Start(text: string, capacity: nat, closes: bool): State {
    State(text, capacity, closes, ClosingRead, Starting, text, "", "", false)
  }

  predicate HasWriter(s: State) {
    || s.parent.ClosingRead? || s.parent.Writing? || s.parent.ClosingWrite?
    || s.child.Starting? || (!s.closes && !s.child.Exited?)
  }

  predicate HasReader(s: State) {
    s.parent.ClosingRead? || !s.child.Exited?
  }

  predicate Enabled(s: State, step: Step) {
    && !s.broken
    && match step
       case ParentStep =>
         (s.parent.Writing? ==> s.unsent == "") && (s.parent.Waiting? ==> s.child.Exited?) && !s.parent.Gone?
       case ParentWrite(k) => s.parent.Writing? && 0 < k <= |s.unsent| && |s.pipe| + k <= s.capacity
       case ChildStep => s.child.Starting? || s.child.Echoing? || s.child.AtEof? || s.child.Closing?
       case ChildRead(k) => s.child.Reading? && 0 < k <= |s.pipe| && k <= BUF_SIZE
       case ChildEof => s.child.Reading? && s.pipe == "" && !HasWriter(s)
  }

  function Apply(s: State, step: Step): State
    requires Enabled(s, step)
  {
    match step
    case ParentStep =>
      s.(parent := match s.parent
                   case ClosingRead => Writing
                   case Writing => ClosingWrite
                   case ClosingWrite => Waiting
                   case _ => Gone)
    case ParentWrite(k) =>
      if HasReader(s) then s.(unsent := s.unsent[k..], pipe := s.pipe + s.unsent[..k])
      else s.(broken := true)
    case ChildStep => ApplyChild(s)
    case ChildRead(k) => s.(child := Echoing(s.pipe[..k]), pipe := s.pipe[k..])
    case ChildEof => s.(child := AtEof)
  }

  function ApplyChild(s: State): State {
    match s.child
    case Starting => s.(child := Reading)
    case Echoing(chunk) => s.(child := Reading, out := s.out + chunk)
    case AtEof => s.(child := Closing, out := s.out + "\n")
    case _ => s.(child := Exited)
  }

  ghost predicate Next(s: State, s': State) {
    exists step :: Enabled(s, step) && s' == Apply(s, step)
  }

  /** What the child has read: all it has printed, and the chunk it is about to print. */
  function Taken(s: State): string {
    if s.child.Echoing? then s.out + s.child.chunk else s.out
  }

  ghost predicate Inv(s: State) {
    && !s.broken
    && |s.pipe| <= s.capacity
    && (if s.child.Closing? || s.child.Exited? then s.out == s.text + "\n"
        else Taken(s) + s.pipe + s.unsent == s.text)
    && (s.parent.ClosingWrite? || s.parent.Waiting? || s.parent.Gone? ==> s.unsent == "")
    && (s.child.AtEof? || s.child.Closing? || s.child.Exited? ==>
          s.pipe == "" && (s.parent.Waiting? || s.parent.Gone?) && s.closes)
    && (s.parent.Gone? ==> s.child.Exited?)
    && (s.parent.ClosingRead? ==> s.unsent == s.text)
  }

  lemma WriteKeepsText(s: State, k: nat)
    requires Inv(s) && Enabled(s, ParentWrite(k))
    ensures Inv(Apply(s, ParentWrite(k)))
  {
    var taken, sent, unsent := Taken(s), s.unsent[..k], s.unsent[k..];
    assert s.unsent == sent + unsent;
    assert taken + s.pipe + (sent + unsent) == taken + (s.pipe + sent) + unsent;
  }

  lemma ReadKeepsText(s: State, k: nat)
    requires Inv(s) && Enabled(s, ChildRead(k))
    ensures Inv(Apply(s, ChildRead(k)))
  {
    var chunk, rest := s.pipe[..k], s.pipe[k..];
    assert s.pipe == chunk + rest;
    assert s.out + (chunk + rest) + s.unsent == s.out + chunk + rest + s.unsent;
  }

  lemma StepKeepsInv(s: State, step: Step)
    requires Inv(s) && Enabled(s, step)
    ensures Inv(Apply(s, step))
  {
    match step
    case ParentWrite(k) => WriteKeepsText(s, k);
    case ChildRead(k) => ReadKeepsText(s, k);
    case _ =>
      assert s.out + "" + "" == s.out;
  }

  /** An upper bound on the steps still to come. */
  function Work(s: State): nat {
    3 * |s.unsent| + 2 * |s.pipe|
    + (match s.parent case ClosingRead => 4 case Writing => 3 case ClosingWrite => 2 case Waiting => 1 case Gone => 0)
    + (match s.child
       case Starting => 4 case Echoing(_) => 4 case Reading => 3 case AtEof => 2 case Closing => 1 case Exited => 0)
  }

  function WorkDone(s: State): int {
    0 - Work(s)
  }

  lemma StepWorks(s: State, step: Step)
    requires Inv(s) && Enabled(s, step)
    ensures WorkDone(s) < WorkDone(Apply(s, step))
  {
  }

  ghost predicate InvOf(s: State, start: State) {
    Inv(s) && s.text == start.text && s.capacity == start.capacity && s.closes == start.closes
  }

  lemma RunKeepsInv(start: State, run: seq<State>)
    requires start == Start(start.text, start.capacity, start.closes) && IsRun(start, Next, run)
    ensures InvOf(Last(run), start)
    ensures |run| - 1 <= Work(start) - Work(Last(run))
  {
    var inv := (s: State) => InvOf(s, start);
    assert start.out + start.pipe + start.unsent == start.text;
    forall s, s' | inv(s) && Next(s, s')
      ensures inv(s') && WorkDone(s) < WorkDone(s')
    {
      var step :| Enabled(s, step) && s' == Apply(s, step);
      StepKeepsInv(s, step);
      StepWorks(s, step);
    }
    Bounded(start, Next, inv, WorkDone, run);
  }

  /** In every state what was printed, what is on its way and what is unsent make up the string. */
  lemma TextIsConserved(text: string, capacity: nat, closes: bool, run: seq<State>)
    requires IsRun(Start(text, capacity, closes), Next, run)
    ensures var s := Last(run);
            && !s.broken && |s.pipe| <= capacity
            && if s.child.Closing? || s.child.Exited? then s.out == text + "\n"
               else Taken(s) + s.pipe + s.unsent == text
  {
    RunKeepsInv(Start(text, capacity, closes), run);
  }

  predicate Finished(s: State) {
    s.parent.Gone? && s.child.Exited?
  }

  ghost predicate Stuck(s: State) {
    !Finished(s) && !exists step :: Enabled(s, step)
  }

  lemma CanMove(s: State) returns (step: Step)
    requires Inv(s) && s.closes && s.capacity > 0 && !Finished(s)
    ensures Enabled(s, step)
  {
    step :=
      if s.child.Reading? && s.pipe != "" then ChildRead(1)
      else if s.child.Reading? && !HasWriter(s) then ChildEof
      else if !s.child.Reading? && !s.child.Exited? then ChildStep
      else if s.parent.Writing? && s.unsent != "" then ParentWrite(1)
      else ParentStep;
  }

  /** From anywhere, the processes can go on until no step is left. */
  lemma {:induction false} RunOut(start: State, run: seq<State>) returns (run': seq<State>)
    requires start == Start(start.text, start.capacity, start.closes) && IsRun(start, Next, run)
    ensures IsRun(start, Next, run') && !exists step :: Enabled(Last(run'), step)
    decreases Work(Last(run))
  {
    RunKeepsInv(start, run);
    if step :| Enabled(Last(run), step) {
      StepWorks(Last(run), step);
      Extend(start, Next, run, Apply(Last(run), step));
      run' := RunOut(start, run + [Apply(Last(run), step)]);
    } else {
      run' := run;
    }
  }

  /** For any string and any capacity there is no deadlock if and only if the child closes its write end. */
  lemma NeverStuckIffChildCloses(text: string, capacity: nat, closes: bool)
    requires capacity > 0
    ensures (forall run :: IsRun(Start(text, capacity, closes), Next, run) ==> !Stuck(Last(run))) <==> closes
  {
    var start := Start(text, capacity, closes);
    if closes {
      forall run | IsRun(start, Next, run)
        ensures !Stuck(Last(run))
      {
        RunKeepsInv(start, run);
        if !Finished(Last(run)) {
          var step := CanMove(Last(run));
        }
      }
    } else {
      assert IsRun(start, Next, [start]);
      var run := RunOut(start, [start]);
      RunKeepsInv(start, run);
      assert Stuck(Last(run));
    }
  }

  /** Every run is short, and one that has ended has printed the string and a newline. */
  lemma EndsWithText(text: string, capacity: nat, closes: bool, run: seq<State>)
    requires IsRun(Start(text, capacity, closes), Next, run)
    ensures |run| - 1 <= 3 * |text| + 8
    ensures Finished(Last(run)) ==> Last(run).out == text + "\n"
  {
    RunKeepsInv(Start(text, capacity, closes), run);
  }
}
