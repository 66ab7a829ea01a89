/**
 The pipeline `ls | wc -l`. The parent makes a pipe and two children; each child moves its end of the
 pipe to standard output or standard input, and everyone closes what is left over. fork() succeeds.
 */
module PipeLsWc {
  import opened Descriptors
  import opened Runs

  const STDIN_FILENO: nat := 0
  const STDOUT_FILENO: nat := 1

  /** What the program does to a table: the calls of the parent and of each child up to its exec. */
  datatype Call = Close(fd: nat) | Dup2(from: nat, to: nat) | ForkLs | ForkWc | Wait

  function LsCalls(reader: nat, writer: nat): seq<Call> {
    [Close(reader)] + if writer != STDOUT_FILENO then [Dup2(writer, STDOUT_FILENO), Close(writer)] else []
  }

  function WcCalls(reader: nat, writer: nat): seq<Call> {
    [Close(writer)] + if reader != STDIN_FILENO then [Dup2(reader, STDIN_FILENO), Close(reader)] else []
  }

  function ParentCalls(reader: nat, writer: nat): seq<Call> {
    [ForkLs, ForkWc, Close(reader), Close(writer), Wait, Wait]
  }

  // The shuffles, as the program makes them.

  /** The first child, up to execlp("ls"); false if a call fails. */
  method RunLs(self: Process, reader: nat, writer: nat) returns (ok: bool)
    modifies self
    ensures reader != writer && reader in old(self.fds) && writer in old(self.fds) ==>
              ok && self.fds == (old(self.fds) - {reader, writer})[STDOUT_FILENO := old(self.fds)[writer]]
    ensures ok <==> reader in old(self.fds)
                    && (writer == STDOUT_FILENO || (writer in old(self.fds) && writer != reader))
  {
    var result := self.Close(reader);
    if result == -1 {
      return false;
    }
    if writer != STDOUT_FILENO {
      result := self.Dup2(writer, STDOUT_FILENO);
      if result == -1 {
        return false;
      }
      result := self.Close(writer);
      if result == -1 {
        return false;
      }
    }
    ok := true;
  }

  /** The second child, up to execlp("wc"); false if a call fails. */
  method RunWc(self: Process, reader: nat, writer: nat) returns (ok: bool)
    modifies self
    ensures reader != writer && reader in old(self.fds) && writer in old(self.fds) ==>
              ok && self.fds == (old(self.fds) - {reader, writer})[STDIN_FILENO := old(self.fds)[reader]]
    ensures ok <==> writer in old(self.fds)
                    && (reader == STDIN_FILENO || (reader in old(self.fds) && reader != writer))
  {
    var result := self.Close(writer);
    if result == -1 {
      return false;
    }
    if reader != STDIN_FILENO {
      result := self.Dup2(reader, STDIN_FILENO);
      if result == -1 {
        return false;
      }
      result := self.Close(reader);
      if result == -1 {
        return false;
      }
    }
    ok := true;
  }

  /**
   The whole program, up to its waits: whatever descriptors were open or closed before, the parent ends
   with its old table, `ls` differs from it only in standard output, and `wc` only in standard input.
   */
  method Pipeline(self: Process) returns (ok: bool, ls: Process, wc: Process)
    modifies self
    ensures ok && fresh(ls) && fresh(wc) && ls != wc
    ensures self.fds == old(self.fds)
    ensures ls.fds == old(self.fds)[STDOUT_FILENO := WriteEnd]
    ensures wc.fds == old(self.fds)[STDIN_FILENO := ReadEnd]
  {
    var reader, writer := self.Pipe();
    ls := self.Fork();
    var lsOk := RunLs(ls, reader, writer);
    wc := self.Fork();
    var wcOk := RunWc(wc, reader, writer);
    var result := self.Close(reader);
    var result' := self.Close(writer);
    ok := lsOk && wcOk && result != -1 && result' != -1;
  }

  /** No descriptor refers to an end of the pipe. */
  ghost predicate NoPipe(fds: Table) {
    ReadEnd !in fds.Values && WriteEnd !in fds.Values
  }

  /** In tables like these, standard output of `ls` is the only write end and standard input of `wc` the only read end. */
  lemma OnlyTheirEnds(fds: Table, fd: nat)
    requires NoPipe(fds)
    ensures var ls, wc := fds[STDOUT_FILENO := WriteEnd], fds[STDIN_FILENO := ReadEnd];
            && (fd in ls && ls[fd] == WriteEnd <==> fd == STDOUT_FILENO)
            && (fd in wc && wc[fd] == ReadEnd <==> fd == STDIN_FILENO)
            && ReadEnd !in ls.Values && WriteEnd !in wc.Values
  {
    if fd in fds {
      assert fds[fd] in fds.Values;
    }
  }

  // The three processes at work together.

  /** A process not yet forked, one with calls still to make before it runs on, and one that has exited. */
  datatype Proc = Unborn | Live(todo: seq<Call>, fds: Table) | Dead

  /**
   `before` is the parent's table before it made the pipe. `written` and `counted` are the histories of
   what `ls` wrote and `wc` read; `mishap` is set by a call that fails and by a write that has no reader.
   */
  datatype State = State(
    before: Table,
    reader: nat,
    writer: nat,
    parent: Proc,
    ls: Proc,
    wc: Proc,
    reaped: nat,
    buffer: seq<int>,
    written: seq<int>,
    counted: seq<int>,
    mishap: bool)

  datatype Step =
    | ParentStep
    | LsCall | LsWrite(data: seq<int>) | LsExit
    | WcCall | WcRead(k: nat) | WcEof

  function PipeTable(before: Table, reader: nat, writer: nat): Table {
    before[reader := ReadEnd][writer := WriteEnd]
  }

  /** Right after pipe(), on whatever two descriptors were free. */
  ghost predicate Init(s: State) {
    && NoPipe(s.before)
    && s.reader !in s.before && s.writer !in s.before && s.reader != s.writer
    && s.parent == Live(ParentCalls(s.reader, s.writer), PipeTable(s.before, s.reader, s.writer))
    && s.ls == Unborn && s.wc == Unborn && s.reaped == 0
    && s.buffer == [] && s.written == [] && s.counted == []
    && !s.mishap
  }

  predicate Holds(p: Proc, file: File) {
    p.Live? && file in p.fds.Values
  }

  predicate HasWriter(s: State) {
    Holds(s.parent, WriteEnd) || Holds(s.ls, WriteEnd) || Holds(s.wc, WriteEnd)
  }

  predicate HasReader(s: State) {
    Holds(s.parent, ReadEnd) || Holds(s.ls, ReadEnd) || Holds(s.wc, ReadEnd)
  }

  function DeadChildren(s: State): nat {
    (if s.ls == Dead then 1 else 0) + if s.wc == Dead then 1 else 0
  }

  predicate Running(p: Proc) {
    p.Live? && p.todo == []
  }

  predicate Calling(p: Proc) {
    p.Live? && p.todo != []
  }

  predicate Enabled(s: State, step: Step) {
    && !s.mishap
    && match step
       case ParentStep => s.parent.Live? && (Calling(s.parent) && s.parent.todo[0] == Wait ==> DeadChildren(s) > s.reaped)
       case LsCall => Calling(s.ls)
       case LsWrite(data) => Running(s.ls) && data != []
       case LsExit => Running(s.ls)
       case WcCall => Calling(s.wc)
       case WcRead(k) => Running(s.wc) && 0 < k <= |s.buffer|
       case WcEof => Running(s.wc) && s.buffer == [] && !HasWriter(s)
  }

  /** One close() or dup2(); anything else leaves the table alone. */
  function CallOn(fds: Table, call: Call): Table {
    match call
    case Close(fd) => fds - {fd}
    case Dup2(from, to) => if from in fds then fds[to := fds[from]] else fds
    case _ => fds
  }

  predicate CallFails(fds: Table, call: Call) {
    match call
    case Close(fd) => fd !in fds
    case Dup2(from, _) => from !in fds
    case _ => false
  }

  function DoCall(p: Proc): Proc
    requires Calling(p)
  {
    Live(p.todo[1..], CallOn(p.fds, p.todo[0]))
  }

  predicate Fails(p: Proc)
    requires Calling(p)
  {
    CallFails(p.fds, p.todo[0])
  }

  function ParentCall(s: State): State
    requires Calling(s.parent)
  {
    var s' := s.(parent := DoCall(s.parent), mishap := Fails(s.parent));
    match s.parent.todo[0]
    case ForkLs => s'.(ls := Live(LsCalls(s.reader, s.writer), s.parent.fds))
    case ForkWc => s'.(wc := Live(WcCalls(s.reader, s.writer), s.parent.fds))
    case Wait => s'.(reaped := s.reaped + 1)
    case _ => s'
  }

  function Apply(s: State, step: Step): State
    requires Enabled(s, step)
  {
    match step
    case ParentStep =>
      if s.parent.todo == [] then s.(parent := Dead) else ParentCall(s)
    case LsCall => s.(ls := DoCall(s.ls), mishap := Fails(s.ls))
    case LsWrite(data) =>
      if STDOUT_FILENO in s.ls.fds && s.ls.fds[STDOUT_FILENO] == WriteEnd && HasReader(s) then
        s.(buffer := s.buffer + data, written := s.written + data)
      else
        s.(mishap := true)
    case LsExit => s.(ls := Dead)
    case WcCall => s.(wc := DoCall(s.wc), mishap := Fails(s.wc))
    case WcRead(k) => s.(buffer := s.buffer[k..], counted := s.counted + s.buffer[..k])
    case WcEof => s.(wc := Dead)
  }

  ghost predicate Does(s: State, step: Step, s': State) {
    Enabled(s, step) && s' == Apply(s, step)
  }

  ghost predicate Next(s: State, s': State) {
    exists step :: Does(s, step, s')
  }

  // The invariant: each process's table, call by call.

  predicate LsOk(s: State) {
    var all := PipeTable(s.before, s.reader, s.writer);
    var r, w := s.reader, s.writer;
    s.ls.Live? ==>
      || (s.ls.todo == LsCalls(r, w) && s.ls.fds == all)
      || (w != STDOUT_FILENO && s.ls.todo == [Dup2(w, STDOUT_FILENO), Close(w)] && s.ls.fds == all - {r})
      || (w != STDOUT_FILENO && s.ls.todo == [Close(w)] && s.ls.fds == (all - {r})[STDOUT_FILENO := WriteEnd])
      || (s.ls.todo == [] && s.ls.fds == s.before[STDOUT_FILENO := WriteEnd])
  }

  predicate WcOk(s: State) {
    var all := PipeTable(s.before, s.reader, s.writer);
    var r, w := s.reader, s.writer;
    s.wc.Live? ==>
      || (s.wc.todo == WcCalls(r, w) && s.wc.fds == all)
      || (r != STDIN_FILENO && s.wc.todo == [Dup2(r, STDIN_FILENO), Close(r)] && s.wc.fds == all - {w})
      || (r != STDIN_FILENO && s.wc.todo == [Close(r)] && s.wc.fds == (all - {w})[STDIN_FILENO := ReadEnd])
      || (s.wc.todo == [] && s.wc.fds == s.before[STDIN_FILENO := ReadEnd])
  }

  /** The parent's calls when n of them are left. */
  function Remaining(reader: nat, writer: nat, n: nat): seq<Call> {
    if n == 0 then []
    else if n == 1 then [Wait]
    else if n == 2 then [Wait, Wait]
    else if n == 3 then [Close(writer), Wait, Wait]
    else if n == 4 then [Close(reader), Close(writer), Wait, Wait]
    else if n == 5 then [ForkWc, Close(reader), Close(writer), Wait, Wait]
    else ParentCalls(reader, writer)
  }

  predicate ParentOk(s: State) {
    var all := PipeTable(s.before, s.reader, s.writer);
    match s.parent
    case Unborn => false
    case Dead => s.ls != Unborn && s.wc != Unborn && s.reaped == 2
    case Live(todo, fds) =>
      && todo == Remaining(s.reader, s.writer, |todo|)
      && fds == (if |todo| >= 4 then all else if |todo| == 3 then all - {s.reader} else s.before)
      && (s.ls == Unborn <==> |todo| == 6) && (s.wc == Unborn <==> |todo| >= 5)
      && s.reaped == (if |todo| >= 2 then 0 else 2 - |todo|)
  }

  ghost predicate Inv(s: State) {
    && NoPipe(s.before)
    && s.reader !in s.before && s.writer !in s.before && s.reader != s.writer
    && !s.mishap
    && LsOk(s) && WcOk(s) && ParentOk(s)
    && s.written == s.counted + s.buffer
    && s.reaped <= DeadChildren(s)
    && (s.wc == Dead ==> s.ls == Dead && s.buffer == [])
  }

  /** While `ls` lives it holds the write end; until it is done, the parent or `wc` holds the read end. */
  lemma EndsAreHeld(s: State)
    requires Inv(s)
    ensures s.ls.Live? ==> Holds(s.ls, WriteEnd) && HasReader(s)
    ensures Running(s.ls) ==> STDOUT_FILENO in s.ls.fds && s.ls.fds[STDOUT_FILENO] == WriteEnd
    ensures s.ls == Unborn ==> Holds(s.parent, WriteEnd)
  {
    var all := PipeTable(s.before, s.reader, s.writer);
    assert all[s.reader] == ReadEnd && all[s.writer] == WriteEnd;
    if s.ls.Live? {
      assert (s.writer in s.ls.fds && s.ls.fds[s.writer] == WriteEnd) || s.ls.fds[STDOUT_FILENO] == WriteEnd;
    }
    if s.parent.Live? && |s.parent.todo| >= 4 {
      assert s.parent.fds[s.reader] == ReadEnd;
    }
    if s.wc.Live? {
      assert (s.reader in s.wc.fds && s.wc.fds[s.reader] == ReadEnd) || s.wc.fds[STDIN_FILENO] == ReadEnd;
    }
  }

  lemma LsCallKeepsInv(s: State)
    requires Inv(s) && Enabled(s, LsCall)
    ensures Inv(Apply(s, LsCall))
  {
    var all := PipeTable(s.before, s.reader, s.writer);
    if |s.ls.todo| == 1 {
      var fds := if s.writer == STDOUT_FILENO then all else (all - {s.reader})[STDOUT_FILENO := WriteEnd];
      assert s.ls.fds == fds;
      assert CallOn(fds, s.ls.todo[0]) == s.before[STDOUT_FILENO := WriteEnd];
    }
  }

  lemma WcCallKeepsInv(s: State)
    requires Inv(s) && Enabled(s, WcCall)
    ensures Inv(Apply(s, WcCall))
  {
    var all := PipeTable(s.before, s.reader, s.writer);
    if |s.wc.todo| == 1 {
      var fds := if s.reader == STDIN_FILENO then all else (all - {s.writer})[STDIN_FILENO := ReadEnd];
      assert s.wc.fds == fds;
      assert CallOn(fds, s.wc.todo[0]) == s.before[STDIN_FILENO := ReadEnd];
    }
  }

  lemma ParentCallKeepsParent(s: State)
    requires ParentOk(s) && Calling(s.parent) && Enabled(s, ParentStep)
    requires s.reader !in s.before && s.writer !in s.before && s.reader != s.writer
    requires s.ls != Unborn || s.parent.todo[0] == ForkLs
    ensures ParentOk(ParentCall(s)) && !ParentCall(s).mishap
  {
    var all := PipeTable(s.before, s.reader, s.writer);
    assert all - {s.reader} - {s.writer} == s.before;
    assert s.writer in all - {s.reader};
    var n := |s.parent.todo|;
    assert s.parent.todo[1..] == Remaining(s.reader, s.writer, n - 1);
  }

  lemma ParentStepKeepsInv(s: State)
    requires Inv(s) && Enabled(s, ParentStep)
    ensures Inv(Apply(s, ParentStep))
  {
    if Calling(s.parent) {
      ParentCallKeepsParent(s);
    }
  }

  /** `wc` sees end of file only once `ls` has exited. */
  lemma EofMeansLsDone(s: State)
    requires Inv(s) && !HasWriter(s)
    ensures s.ls == Dead
  {
    EndsAreHeld(s);
  }

  lemma StepKeepsInv(s: State, step: Step)
    requires Inv(s) && Enabled(s, step)
    ensures Inv(Apply(s, step))
  {
    EndsAreHeld(s);
    match step
    case ParentStep => ParentStepKeepsInv(s);
    case LsCall => LsCallKeepsInv(s);
    case WcCall => WcCallKeepsInv(s);
    case LsWrite(data) => assert s.counted + s.buffer + data == s.counted + (s.buffer + data);
    case WcRead(k) => assert s.buffer == s.buffer[..k] + s.buffer[k..];
    case WcEof => EofMeansLsDone(s);
    case LsExit =>
  }

  lemma InitKeepsInv(s: State)
    requires Init(s)
    ensures Inv(s)
  {
    assert |ParentCalls(s.reader, s.writer)| == 6;
  }

  // Progress.

  function ProcWork(p: Proc): nat {
    match p case Unborn => 4 case Live(todo, _) => |todo| + 1 case Dead => 0
  }

  function Work(s: State): nat {
    ProcWork(s.parent) + ProcWork(s.ls) + ProcWork(s.wc) + |s.buffer|
  }

  function Potential(s: State): int {
    2 * |s.written| - Work(s)
  }

  lemma StepWorks(s: State, step: Step)
    requires Inv(s) && Enabled(s, step)
    ensures Potential(s) < Potential(Apply(s, step))
  {
    EndsAreHeld(s);
  }

  lemma RunKeepsInv(start: State, run: seq<State>)
    requires Init(start) && IsRun(start, Next, run)
    ensures Inv(Last(run))
    ensures |run| - 1 <= Potential(Last(run)) - Potential(start)
  {
    InitKeepsInv(start);
    forall s, s' | Inv(s) && Next(s, s')
      ensures Inv(s') && Potential(s) < Potential(s')
    {
      var step :| Does(s, step, s');
      StepKeepsInv(s, step);
      StepWorks(s, step);
    }
    Bounded(start, Next, Inv, Potential, run);
  }

  /** In every interleaving no call fails, `ls` always has a reader, and no byte is lost or reordered. */
  lemma NothingIsLost(start: State, run: seq<State>)
    requires Init(start) && IsRun(start, Next, run)
    ensures var s := Last(run); !s.mishap && s.written == s.counted + s.buffer
  {
    RunKeepsInv(start, run);
  }

  /**
   In every interleaving: once `ls` runs, its standard output is its only end of the pipe, once `wc` runs
   its standard input is its only one, and from its first wait on the parent has none; all other
   descriptors are as they were before the pipe was made.
   */
  lemma EndsInEveryRun(start: State, run: seq<State>)
    requires Init(start) && IsRun(start, Next, run)
    ensures var s := Last(run);
            && NoPipe(s.before)
            && (Running(s.ls) ==> s.ls.fds == s.before[STDOUT_FILENO := WriteEnd])
            && (Running(s.wc) ==> s.wc.fds == s.before[STDIN_FILENO := ReadEnd])
            && (s.parent.Live? && |s.parent.todo| <= 2 ==> s.parent.fds == s.before)
  {
    RunKeepsInv(start, run);
  }

  /** Once the parent has closed its ends, `wc` would see end of file exactly when `ls` has exited and the pipe is empty. */
  lemma EofExactly(start: State, run: seq<State>)
    requires Init(start) && IsRun(start, Next, run)
    requires Running(Last(run).wc)
    ensures Enabled(Last(run), WcEof) ==> Last(run).ls == Dead && Last(run).counted == Last(run).written
    ensures !Holds(Last(run).parent, WriteEnd) ==>
              (Enabled(Last(run), WcEof) <==> Last(run).ls == Dead && Last(run).buffer == [])
  {
    var s := Last(run);
    RunKeepsInv(start, run);
    EndsAreHeld(s);
    if !HasWriter(s) {
      EofMeansLsDone(s);
    }
    assert WriteEnd !in s.wc.fds.Values by {
      OnlyTheirEnds(s.before, STDIN_FILENO);
    }
  }

  /** `wc` finishes only after counting every byte that `ls` wrote. */
  lemma WcCountsEverything(start: State, run: seq<State>)
    requires Init(start) && IsRun(start, Next, run) && Last(run).wc == Dead
    ensures Last(run).ls == Dead && Last(run).counted == Last(run).written
  {
    RunKeepsInv(start, run);
  }

  /** There is no deadlock, and runs end: until all three have exited some step is enabled. */
  lemma RunsToTheEnd(start: State, run: seq<State>)
    requires Init(start) && IsRun(start, Next, run)
    ensures (Last(run).parent == Dead && Last(run).ls == Dead && Last(run).wc == Dead)
         || exists step :: Enabled(Last(run), step)
    ensures |run| - 1 <= 2 * |Last(run).written| + 15
  {
    var s := Last(run);
    RunKeepsInv(start, run);
    EndsAreHeld(s);
    if s.ls.Live? {
      assert Enabled(s, if s.ls.todo == [] then LsExit else LsCall);
    } else if s.parent.Live? && Enabled(s, ParentStep) {
    } else if Calling(s.wc) {
      assert Enabled(s, WcCall);
    } else if s.wc.Live? && s.buffer != [] {
      assert Enabled(s, WcRead(1));
    } else if s.wc.Live? {
      assert WriteEnd !in s.wc.fds.Values by {
        OnlyTheirEnds(s.before, STDIN_FILENO);
      }
      assert Enabled(s, WcEof);
    }
  }

  /** The bytes that a step of `ls` writes. */
  function WrittenBy(step: Step): seq<int> {
    match step case LsWrite(data) => data case _ => []
  }

  lemma StepAddsInput(s: State, step: Step)
    requires Inv(s) && Enabled(s, step)
    ensures Inv(Apply(s, step)) && Apply(s, step).written == s.written + WrittenBy(step)
  {
    StepKeepsInv(s, step);
    EndsAreHeld(s);
    assert s.written + [] == s.written;
  }

  lemma WrittenIs(start: State, steps: seq<Step>, run: seq<State>)
    requires Inv(start) && IsTrace(start, Does, steps, run)
    ensures Last(run).written == start.written + Inputs(steps, WrittenBy)
  {
    forall s, step, s' | Inv(s) && Does(s, step, s')
      ensures Inv(s') && s'.written == s.written + WrittenBy(step)
    {
      StepAddsInput(s, step);
    }
    HistoryIs(start, Does, Inv, (s: State) => s.written, WrittenBy, steps, run);
  }

  /** Whatever the steps of a run, the bytes counted and those in the pipe are all that `ls` wrote, in order. */
  lemma WritesAreConserved(start: State, steps: seq<Step>, run: seq<State>)
    requires Init(start) && IsTrace(start, Does, steps, run)
    ensures Last(run).counted + Last(run).buffer == Inputs(steps, WrittenBy)
    ensures Last(run).wc == Dead ==> Last(run).counted == Inputs(steps, WrittenBy)
  {
    InitKeepsInv(start);
    WrittenIs(start, steps, run);
    assert [] + Inputs(steps, WrittenBy) == Inputs(steps, WrittenBy);
    TraceIsRun(start, Next, Does, steps, run);
    NothingIsLost(start, run);
    if Last(run).wc == Dead {
      WcCountsEverything(start, run);
    }
  }
}
