/**
 Signal-driven terminal input. SIGIO's handler sets a flag; the main loop tests the flag, clears it,
 and reads the non-blocking terminal until a read fails or a '#' has been read. The model starts once
 the terminal is in cbreak mode: that call flushes the input, so nothing is waiting to be read.
 */
module SigioLoop {
  import opened Runs

  /**
   The points of the outer loop: the test of `done`, the test of the flag, the assignment that
   clears it, the call of read(), and the end of the loop.
   */
  datatype Phase = Testing | Polling | Clearing | Reading | Exited

  /**
   `unread` is what the terminal holds and `pending` a SIGIO that is still to be delivered. `typed`
   is the history of the input, `swallowed` the history of characters read but not printed.
   */
  datatype State = State(
    phase: Phase,
    gotSigio: bool,
    pending: bool,
    done: bool,
    unread: string,
    typed: string,
    printed: string,
    swallowed: string)

  datatype Step = Type(ch: char) | Deliver | TestDone | Poll | Clear | Read

  /** Signals that came before the terminal was flushed may have left the flag set or a SIGIO pending. */
  function Start(gotSigio: bool, pending: bool): State {
    State(Testing, gotSigio, pending, false, "", "", "", "")
  }

  predicate Enabled(s: State, step: Step) {
    && s.phase != Exited
    && match step
       case Type(_) => true
       case Deliver => s.pending
       case TestDone => s.phase == Testing
       case Poll => s.phase == Polling
       case Clear => s.phase == Clearing
       case Read => s.phase == Reading
  }

  function Apply(s: State, step: Step): State
    requires Enabled(s, step)
  {
    match step
    case Type(ch) =>
      s.(unread := s.unread + [ch], typed := s.typed + [ch], pending := true)
    case Deliver =>
      s.(gotSigio := true, pending := false)
    case TestDone =>
      s.(phase := if s.done then Exited else Polling)
    case Poll =>
      s.(phase := if s.gotSigio then Clearing else Testing)
    case Clear =>
      s.(gotSigio := false, phase := Reading)
    case Read =>
      if s.unread == "" then
        s.(phase := Testing)
      else if s.done then
        s.(unread := s.unread[1..], swallowed := s.swallowed + [s.unread[0]], phase := Testing)
      else
        s.(unread := s.unread[1..], printed := s.printed + [s.unread[0]], done := s.unread[0] == '#')
  }

  ghost predicate Does(s: State, step: Step, s': State) {
    Enabled(s, step) && s' == Apply(s, step)
  }

  ghost predicate Next(s: State, s': State) {
    exists step :: Does(s, step, s')
  }

  /** The input up to and including its first '#'. */
  function UpToHash(input: string): string {
    if input == "" then ""
    else if input[0] == '#' then "#"
    else [input[0]] + UpToHash(input[1..])
  }

  lemma {:induction false} UpToHashSkips(a: string, b: string)
    requires '#' !in a
    ensures UpToHash(a + b) == a + UpToHash(b)
  {
    if a == "" {
      assert a + b == b;
    } else {
      assert (a + b)[1..] == a[1..] + b;
      UpToHashSkips(a[1..], b);
    }
  }

  /** What has been printed so far, and whether it ends in the '#' that ends the program. */
  ghost predicate PrintedWell(s: State) {
    if s.done then
      s.printed != "" && Last(s.printed) == '#' && '#' !in s.printed[..|s.printed| - 1]
    else
      '#' !in s.printed
  }

  ghost predicate Inv(s: State) {
    && s.typed == s.printed + s.swallowed + s.unread
    && PrintedWell(s)
    && |s.swallowed| <= 1
    && (s.swallowed != "" ==> s.done && s.phase in {Testing, Exited})
    && (s.done ==> s.phase in {Testing, Reading, Exited})
    && (s.phase == Exited ==> s.done)
    && (s.unread != "" && s.phase in {Testing, Polling} && !s.done ==> s.gotSigio || s.pending)
  }

  lemma StepKeepsInv(s: State, step: Step)
    requires Inv(s) && Enabled(s, step)
    ensures Inv(Apply(s, step))
  {
    var s' := Apply(s, step);
    if step.Read? && s.unread != "" {
      assert s.unread == [s.unread[0]] + s.unread[1..];
      if !s.done {
        assert s'.printed[..|s'.printed| - 1] == s.printed;
      }
    }
  }

  lemma RunKeepsInv(gotSigio: bool, pending: bool, run: seq<State>)
    requires IsRun(Start(gotSigio, pending), Next, run)
    ensures Inv(Last(run))
  {
    forall s, s' | Inv(s) && Next(s, s')
      ensures Inv(s')
    {
      var step :| Does(s, step, s');
      StepKeepsInv(s, step);
    }
    Invariant(Start(gotSigio, pending), Next, Inv, run);
  }

  lemma PrintedIsPrefix(s: State)
    requires Inv(s)
    ensures s.printed <= UpToHash(s.typed)
    ensures s.done || s.unread == "" ==> s.printed == UpToHash(s.typed)
  {
    var rest := s.swallowed + s.unread;
    assert s.typed == s.printed + rest;
    if s.done {
      var k := |s.printed| - 1;
      assert s.typed == s.printed[..k] + (['#'] + rest);
      UpToHashSkips(s.printed[..k], ['#'] + rest);
    } else {
      UpToHashSkips(s.printed, rest);
    }
  }

  /** The loop prints the input in order, and nothing after the first '#'. */
  lemma PrintsOnlyUpToHash(gotSigio: bool, pending: bool, run: seq<State>)
    requires IsRun(Start(gotSigio, pending), Next, run)
    ensures Last(run).printed <= UpToHash(Last(run).typed)
  {
    RunKeepsInv(gotSigio, pending, run);
    PrintedIsPrefix(Last(run));
  }

  /** The program ends only after printing everything up to the '#'; at most one more character is consumed. */
  lemma ExitPrintsAll(gotSigio: bool, pending: bool, run: seq<State>)
    requires IsRun(Start(gotSigio, pending), Next, run) && Last(run).phase == Exited
    ensures var s := Last(run);
            && s.printed == UpToHash(s.typed)
            && '#' in s.typed
            && |s.typed| - |s.unread| <= |s.printed| + 1
  {
    RunKeepsInv(gotSigio, pending, run);
    PrintedIsPrefix(Last(run));
    assert '#' in Last(run).printed;
  }

  /** Input that arrives outside the drain is never forgotten: the flag is set, or a SIGIO is pending. */
  lemma UnreadIsSignalled(gotSigio: bool, pending: bool, run: seq<State>)
    requires IsRun(Start(gotSigio, pending), Next, run)
    requires Last(run).phase in {Testing, Polling} && !Last(run).done && Last(run).unread != ""
    ensures Last(run).gotSigio || Last(run).pending
  {
    RunKeepsInv(gotSigio, pending, run);
  }

  /** Nothing has been typed and no signal has been seen, and the loop has not gone to read. */
  predicate Quiet(s: State) {
    s.typed == "" ==> s.unread == "" && !s.gotSigio && !s.pending && s.phase in {Testing, Polling} && !s.done
  }

  /** The terminal is read only after a signal: until something is typed the loop just goes round. */
  lemma ReadsOnlyWhenSignalled(run: seq<State>)
    requires IsRun(Start(false, false), Next, run) && Last(run).typed == ""
    ensures Last(run).phase == Testing || Last(run).phase == Polling
  {
    Invariant(Start(false, false), Next, Quiet, run);
  }

  function Distance(phase: Phase): nat {
    match phase case Testing => 3 case Polling => 2 case Clearing => 1 case _ => 0
  }

  /**
   From wherever the program has got to, its own steps alone can bring it to where everything typed
   so far, up to the '#', has been printed.
   */
  lemma {:induction false} CanPrintAll(gotSigio: bool, pending: bool, run: seq<State>) returns (run': seq<State>)
    requires IsRun(Start(gotSigio, pending), Next, run)
    ensures IsRun(Start(gotSigio, pending), Next, run') && run <= run'
    ensures Last(run').typed == Last(run).typed
    ensures Last(run').printed == UpToHash(Last(run).typed)
    decreases |Last(run).unread|, Last(run).pending, Distance(Last(run).phase)
  {
    var s := Last(run);
    RunKeepsInv(gotSigio, pending, run);
    PrintedIsPrefix(s);
    if s.done || s.unread == "" {
      run' := run;
    } else {
      var step := if s.pending then Deliver else match s.phase
        case Testing => TestDone
        case Polling => Poll
        case Clearing => Clear
        case _ => Read;
      assert Does(s, step, Apply(s, step));
      Extend(Start(gotSigio, pending), Next, run, Apply(s, step));
      run' := CanPrintAll(gotSigio, pending, run + [Apply(s, step)]);
    }
  }

  /** The character that a step types. */
  function TypedBy(step: Step): string {
    match step case Type(ch) => [ch] case _ => ""
  }

  lemma TypedIs(gotSigio: bool, pending: bool, steps: seq<Step>, run: seq<State>)
    requires IsTrace(Start(gotSigio, pending), Does, steps, run)
    ensures Last(run).typed == Inputs(steps, TypedBy)
  {
    HistoryIs(Start(gotSigio, pending), Does, (s: State) => true, (s: State) => s.typed, TypedBy, steps, run);
    assert "" + Inputs(steps, TypedBy) == Inputs(steps, TypedBy);
  }

  /**
   Whatever the steps of a run, what was printed, what was swallowed after it, and what is unread make
   up the characters typed, in order; what was printed is a prefix of them up to the first '#'.
   */
  lemma TypedIsAccountedFor(gotSigio: bool, pending: bool, steps: seq<Step>, run: seq<State>)
    requires IsTrace(Start(gotSigio, pending), Does, steps, run)
    ensures var s, typed := Last(run), Inputs(steps, TypedBy);
            && s.printed + s.swallowed + s.unread == typed
            && s.printed <= UpToHash(typed)
  {
    TypedIs(gotSigio, pending, steps, run);
    TraceIsRun(Start(gotSigio, pending), Next, Does, steps, run);
    RunKeepsInv(gotSigio, pending, run);
    PrintedIsPrefix(Last(run));
  }
}
