/**
 The epoll loop over several FIFOs. epoll is level-triggered; each turn handles a snapshot of at most
 five ready descriptors, reading those that had input and closing those that had only hung up.
 Descriptors are numbered, and each is the only reader of a FIFO of its own.
 */
module EpollInput {
  import opened Runs

  type byte = b: int | 0 <= b < 256

  const MAX_BUF := 1000
  const MAX_EVENTS := 5

  /** A FIFO and our descriptor on it. `written` and `delivered` are histories. */
  datatype Channel = Channel(open: bool, buffer: seq<byte>, writers: nat, written: seq<byte>, delivered: seq<byte>)

  /** EPOLLIN and EPOLLHUP as epoll_wait() saw them; a read end never reports EPOLLERR. */
  datatype Event = Event(fd: nat, input: bool, hup: bool)

  /**
   `events` are the entries of the snapshot still to be handled; none are left when the loop is about
   to wait. `reopen` says whether a writer may come back after the last one has gone. `failed` is set
   when a close() fails.
   */
  datatype State = State(
    reopen: bool, channels: seq<Channel>, events: seq<Event>, numOpenFds: int, failed: bool)

  datatype Step =
    | Write(fd: nat, data: seq<byte>)
    | OpenWriter(fd: nat)
    | CloseWriter(fd: nat)
    | Wait(ready: seq<Event>)
    | Interrupted
    | Handle(k: nat)

  /** Every descriptor open and nothing read yet. */
  ghost predicate Init(s: State) {
    && (forall fd :: 0 <= fd < |s.channels| ==>
          var ch := s.channels[fd]; ch.open && ch.buffer == ch.written && ch.delivered == [])
    && s.events == []
    && s.numOpenFds == |s.channels|
    && !s.failed
  }

  predicate IsOpen(s: State, fd: nat) {
    fd < |s.channels| && s.channels[fd].open
  }

  /** The event tells how an open descriptor is ready at the moment. */
  predicate Reports(s: State, event: Event) {
    && IsOpen(s, event.fd)
    && event.input == (s.channels[event.fd].buffer != [])
    && event.hup == (s.channels[event.fd].writers == 0)
    && (event.input || event.hup)
  }

  ghost predicate Distinct(events: seq<Event>) {
    forall i, j :: 0 <= i < j < |events| ==> events[i].fd != events[j].fd
  }

  /** A read takes some of what is there, at most MAX_BUF bytes; with nothing there it waits for a writer. */
  predicate CanHandle(s: State, event: Event, k: nat) {
    event.input && event.fd < |s.channels| ==>
      var ch := s.channels[event.fd];
      if ch.buffer == [] then ch.writers == 0 && k == 0 else 0 < k <= |ch.buffer| && k <= MAX_BUF
  }

  ghost predicate Enabled(s: State, step: Step) {
    && !s.failed
    && match step
       case Write(fd, data) => IsOpen(s, fd) && s.channels[fd].writers > 0 && data != []
       case OpenWriter(fd) => IsOpen(s, fd) && (s.channels[fd].writers > 0 || s.reopen)
       case CloseWriter(fd) => fd < |s.channels| && s.channels[fd].writers > 0
       case Wait(ready) =>
         && s.events == [] && s.numOpenFds > 0
         && 0 < |ready| <= MAX_EVENTS && Distinct(ready)
         && forall i :: 0 <= i < |ready| ==> Reports(s, ready[i])
       case Interrupted => s.events == [] && s.numOpenFds > 0
       case Handle(k) => s.events != [] && s.events[0].fd < |s.channels| && CanHandle(s, s.events[0], k)
  }

  function Put(s: State, fd: nat, ch: Channel): State
    requires fd < |s.channels|
  {
    s.(channels := s.channels[fd := ch])
  }

  ghost function Apply(s: State, step: Step): State
    requires Enabled(s, step)
  {
    match step
    case Write(fd, data) =>
      var ch := s.channels[fd];
      Put(s, fd, ch.(buffer := ch.buffer + data, written := ch.written + data))
    case OpenWriter(fd) => Put(s, fd, s.channels[fd].(writers := s.channels[fd].writers + 1))
    case CloseWriter(fd) => Put(s, fd, s.channels[fd].(writers := s.channels[fd].writers - 1))
    case Wait(ready) => s.(events := ready)
    case Interrupted => s
    case Handle(k) => HandleEvent(s.(events := s.events[1..]), s.events[0], k)
  }

  /** The body of the loop over the snapshot. */
  function HandleEvent(s: State, event: Event, k: nat): State
    requires event.fd < |s.channels| && CanHandle(s, event, k)
  {
    var ch := s.channels[event.fd];
    if event.input then
      Put(s, event.fd, ch.(buffer := ch.buffer[k..], delivered := ch.delivered + ch.buffer[..k]))
    else if event.hup then
      if ch.open then
        Put(s, event.fd, ch.(open := false)).(numOpenFds := s.numOpenFds - 1)
      else
        s.(failed := true)
    else
      s
  }

  ghost predicate Does(s: State, step: Step, s': State) {
    Enabled(s, step) && s' == Apply(s, step)
  }

  ghost predicate Next(s: State, s': State) {
    exists step :: Does(s, step, s')
  }

  // What holds whether or not writers come back.

  function OpenCount(channels: seq<Channel>): nat {
    if channels == [] then 0
    else OpenCount(channels[..|channels| - 1]) + if channels[|channels| - 1].open then 1 else 0
  }

  /** Bytes buffered plus descriptors open: each event handled brings it down. */
  function Load(channels: seq<Channel>): nat {
    if channels == [] then 0
    else
      var ch := channels[|channels| - 1];
      Load(channels[..|channels| - 1]) + |ch.buffer| + if ch.open then 1 else 0
  }

  lemma {:induction false} CountsUpdate(channels: seq<Channel>, fd: nat, ch: Channel)
    requires fd < |channels|
    ensures var was := channels[fd];
            && OpenCount(channels[fd := ch]) - (if ch.open then 1 else 0)
               == OpenCount(channels) - (if was.open then 1 else 0)
            && Load(channels[fd := ch]) - |ch.buffer| - (if ch.open then 1 else 0)
               == Load(channels) - |was.buffer| - (if was.open then 1 else 0)
  {
    var n := |channels| - 1;
    if fd < n {
      CountsUpdate(channels[..n], fd, ch);
      assert channels[fd := ch][..n] == channels[..n][fd := ch];
    } else {
      assert channels[fd := ch][..n] == channels[..n];
    }
  }

  ghost predicate Conserved(ch: Channel) {
    ch.delivered + ch.buffer == ch.written
  }

  /** An entry of the snapshot is still good: its descriptor is open, and input that was there is there. */
  predicate StillGood(s: State, event: Event) {
    && IsOpen(s, event.fd)
    && (event.input ==> s.channels[event.fd].buffer != [])
    && (event.input || event.hup)
  }

  ghost predicate Inv(s: State) {
    && !s.failed
    && s.numOpenFds == OpenCount(s.channels)
    && (forall fd :: 0 <= fd < |s.channels| ==> Conserved(s.channels[fd]))
    && Distinct(s.events)
    && forall i :: 0 <= i < |s.events| ==> StillGood(s, s.events[i])
  }

  lemma HandleKeepsInv(s: State, k: nat)
    requires Inv(s) && Enabled(s, Handle(k))
    ensures Inv(Apply(s, Handle(k)))
  {
    var s', event := Apply(s, Handle(k)), s.events[0];
    var ch := s.channels[event.fd];
    CountsUpdate(s.channels, event.fd, s'.channels[event.fd]);
    assert StillGood(s, event);
    assert Conserved(s'.channels[event.fd]) by {
      assert Conserved(ch);
      if event.input {
        assert ch.buffer == ch.buffer[..k] + ch.buffer[k..];
      }
    }
    forall i | 0 <= i < |s'.events|
      ensures StillGood(s', s'.events[i])
    {
      assert s'.events[i] == s.events[i + 1] && StillGood(s, s.events[i + 1]);
    }
  }

  /** Writers coming and going, and what they write. */
  predicate ByWriter(step: Step) {
    step.Write? || step.OpenWriter? || step.CloseWriter?
  }

  lemma WriterKeepsInv(s: State, step: Step)
    requires Inv(s) && Enabled(s, step) && ByWriter(step)
    ensures Inv(Apply(s, step))
  {
    var s', fd := Apply(s, step), step.fd;
    var was, ch := s.channels[fd], s'.channels[fd];
    CountsUpdate(s.channels, fd, ch);
    assert Conserved(ch) by {
      assert Conserved(was);
      if step.Write? {
        assert was.delivered + (was.buffer + step.data) == was.delivered + was.buffer + step.data;
      }
    }
    forall i | 0 <= i < |s'.events|
      ensures StillGood(s', s'.events[i])
    {
      assert StillGood(s, s.events[i]);
    }
  }

  lemma StepKeepsInv(s: State, step: Step)
    requires Inv(s) && Enabled(s, step)
    ensures Inv(Apply(s, step))
  {
    match step
    case Handle(k) => HandleKeepsInv(s, k);
    case Wait(_) =>
    case Interrupted =>
    case _ => WriterKeepsInv(s, step);
  }

  lemma {:induction false} AllOpenCount(channels: seq<Channel>)
    requires forall ch :: ch in channels ==> ch.open
    ensures OpenCount(channels) == |channels|
  {
    if channels != [] {
      AllOpenCount(channels[..|channels| - 1]);
    }
  }

  lemma RunKeepsInv(start: State, run: seq<State>)
    requires Init(start) && IsRun(start, Next, run)
    ensures Inv(Last(run))
  {
    AllOpenCount(start.channels);
    forall s, s' | Inv(s) && Next(s, s')
      ensures Inv(s')
    {
      var step :| Does(s, step, s');
      StepKeepsInv(s, step);
    }
    Invariant(start, Next, Inv, run);
  }

  /**
   In every state what was delivered and what is buffered make up what was written, the counter is the
   number of descriptors that are open, and no descriptor has been closed twice.
   */
  lemma BytesAreConserved(start: State, run: seq<State>, fd: nat)
    requires Init(start) && IsRun(start, Next, run) && fd < |Last(run).channels|
    ensures var s := Last(run);
            && s.channels[fd].delivered + s.channels[fd].buffer == s.channels[fd].written
            && s.numOpenFds == OpenCount(s.channels)
            && !s.failed
  {
    RunKeepsInv(start, run);
    assert Conserved(Last(run).channels[fd]);
  }

  // What holds when writers do not come back.

  /** A descriptor that hung up before, or was closed, has nothing left to read. */
  ghost predicate Drained(ch: Channel) {
    ch.buffer == [] && ch.writers == 0
  }

  ghost predicate SafeInv(s: State) {
    && Inv(s)
    && !s.reopen
    && (forall fd :: 0 <= fd < |s.channels| && !s.channels[fd].open ==> Drained(s.channels[fd]))
    && forall i :: 0 <= i < |s.events| && !s.events[i].input ==> Drained(s.channels[s.events[i].fd])
  }

  lemma StepKeepsSafe(s: State, step: Step)
    requires SafeInv(s) && Enabled(s, step)
    ensures SafeInv(Apply(s, step))
  {
    var s' := Apply(s, step);
    StepKeepsInv(s, step);
    if step.Handle? {
      forall i | 0 <= i < |s'.events| && !s'.events[i].input
        ensures Drained(s'.channels[s'.events[i].fd])
      {
        assert s'.events[i] == s.events[i + 1];
      }
    }
  }

  lemma RunKeepsSafe(start: State, run: seq<State>)
    requires Init(start) && !start.reopen && IsRun(start, Next, run)
    ensures SafeInv(Last(run))
  {
    AllOpenCount(start.channels);
    forall s, s' | SafeInv(s) && Next(s, s')
      ensures SafeInv(s')
    {
      var step :| Does(s, step, s');
      StepKeepsSafe(s, step);
    }
    Invariant(start, Next, SafeInv, run);
  }

  /** Closed with bytes undelivered. */
  ghost predicate Lost(s: State) {
    exists fd :: 0 <= fd < |s.channels| && !s.channels[fd].open && s.channels[fd].delivered != s.channels[fd].written
  }

  /** A descriptor is closed only after its writers have gone and everything written has been delivered. */
  lemma ClosedMeansDelivered(start: State, run: seq<State>, fd: nat)
    requires Init(start) && !start.reopen && IsRun(start, Next, run)
    requires fd < |Last(run).channels| && !Last(run).channels[fd].open
    ensures Last(run).channels[fd].writers == 0
    ensures Last(run).channels[fd].delivered == Last(run).channels[fd].written
  {
    RunKeepsSafe(start, run);
    assert Drained(Last(run).channels[fd]) && Conserved(Last(run).channels[fd]);
  }

  lemma {:induction false} NoneOpen(channels: seq<Channel>, fd: nat)
    requires fd < |channels| && OpenCount(channels) == 0
    ensures !channels[fd].open
  {
    if fd < |channels| - 1 {
      NoneOpen(channels[..|channels| - 1], fd);
    }
  }

  /** When the loop ends, every byte ever written to any of the FIFOs has been delivered, in order. */
  lemma LoopEndsWithAllDelivered(start: State, run: seq<State>, fd: nat)
    requires Init(start) && !start.reopen && IsRun(start, Next, run)
    requires Last(run).numOpenFds == 0 && fd < |Last(run).channels|
    ensures Last(run).channels[fd].delivered == Last(run).channels[fd].written
  {
    RunKeepsInv(start, run);
    NoneOpen(Last(run).channels, fd);
    ClosedMeansDelivered(start, run, fd);
  }

  /** A writer that comes back between epoll_wait() and close() loses what it writes. */
  lemma ReopenLoses(start: State) returns (run: seq<State>)
    requires Init(start) && start.reopen && start.channels != [] && start.channels[0].writers == 1
    requires start.channels[0].buffer == []
    ensures IsRun(start, Next, run) && Lost(Last(run))
  {
    var steps := [CloseWriter(0), Wait([Event(0, false, true)]), OpenWriter(0), Write(0, [0]), Handle(0)];
    run := [start];
    run := Do(start, run, steps[0]);
    run := Do(start, run, steps[1]);
    run := Do(start, run, steps[2]);
    run := Do(start, run, steps[3]);
    run := Do(start, run, steps[4]);
    var ch := Last(run).channels[0];
    assert !ch.open && ch.delivered != ch.written;
  }

  lemma Do(start: State, run: seq<State>, step: Step) returns (run': seq<State>)
    requires IsRun(start, Next, run) && Enabled(Last(run), step)
    ensures IsRun(start, Next, run') && run' == run + [Apply(Last(run), step)]
  {
    run' := run + [Apply(Last(run), step)];
    assert Does(Last(run), step, Apply(Last(run), step));
    Extend(start, Next, run, Apply(Last(run), step));
  }

  /** A loop over one fresh FIFO. */
  function OneFifo(reopen: bool): State {
    State(reopen, [Channel(true, [], 1, [], [])], [], 1, false)
  }

  /** Nothing is ever lost, in any run from any start, if and only if writers do not come back. */
  lemma NeverLostIff(reopen: bool)
    ensures (forall start, run :: Init(start) && start.reopen == reopen && IsRun(start, Next, run) ==> !Lost(Last(run)))
       <==> !reopen
  {
    if reopen {
      var run := ReopenLoses(OneFifo(true));
    } else {
      forall start, run | Init(start) && start.reopen == reopen && IsRun(start, Next, run)
        ensures !Lost(Last(run))
      {
        forall fd | 0 <= fd < |Last(run).channels| && !Last(run).channels[fd].open
          ensures Last(run).channels[fd].delivered == Last(run).channels[fd].written
        {
          ClosedMeansDelivered(start, run, fd);
        }
      }
    }
  }

  // Termination.

  ghost predicate HungUp(s: State) {
    forall fd :: 0 <= fd < |s.channels| ==> s.channels[fd].writers == 0
  }

  function Work(s: State): nat {
    2 * Load(s.channels) + if s.events == [] then 1 else 0
  }

  /** Once all writers have gone, every step but an interrupted wait brings the end nearer. */
  lemma HungUpStepWorks(s: State, step: Step)
    requires SafeInv(s) && HungUp(s) && Enabled(s, step) && step != Interrupted
    ensures SafeInv(Apply(s, step)) && HungUp(Apply(s, step))
    ensures Work(Apply(s, step)) < Work(s)
  {
    StepKeepsSafe(s, step);
    if step.Handle? {
      var s', fd := Apply(s, step), s.events[0].fd;
      assert StillGood(s, s.events[0]);
      CountsUpdate(s.channels, fd, s'.channels[fd]);
    }
  }

  lemma {:induction false} SomeOpen(channels: seq<Channel>) returns (fd: nat)
    requires OpenCount(channels) > 0
    ensures fd < |channels| && channels[fd].open
  {
    var n := |channels| - 1;
    if channels[n].open {
      fd := n;
    } else {
      fd := SomeOpen(channels[..n]);
    }
  }

  /** The loop never waits in vain: until it ends, some step of its own is enabled. */
  lemma HungUpCanMove(s: State)
    requires SafeInv(s) && HungUp(s)
    ensures (s.events == [] && s.numOpenFds == 0) || exists step :: Enabled(s, step) && step != Interrupted
  {
    if s.events != [] {
      var event := s.events[0];
      assert StillGood(s, event);
      var k := if !event.input then 0 else if |s.channels[event.fd].buffer| < MAX_BUF then |s.channels[event.fd].buffer| else MAX_BUF;
      assert Enabled(s, Handle(k));
    } else if s.numOpenFds > 0 {
      var fd := SomeOpen(s.channels);
      var event := Event(fd, s.channels[fd].buffer != [], true);
      assert Reports(s, event);
      assert Enabled(s, Wait([event]));
    }
  }

  /** The steps that are not interrupted waits. */
  ghost predicate Progress(s: State, s': State) {
    exists step :: Enabled(s, step) && step != Interrupted && s' == Apply(s, step)
  }

  ghost predicate EndInv(s: State) {
    SafeInv(s) && HungUp(s)
  }

  function WorkDone(s: State): int {
    0 - Work(s)
  }

  /** From where all writers have gone, the loop ends after at most Work(s) steps, with everything closed. */
  lemma LoopTerminates(start: State, run: seq<State>, rest: seq<State>)
    requires Init(start) && !start.reopen && IsRun(start, Next, run)
    requires HungUp(Last(run)) && IsRun(Last(run), Progress, rest)
    ensures |rest| - 1 <= Work(Last(run))
    ensures Last(rest).numOpenFds == 0 || exists s :: Progress(Last(rest), s)
  {
    RunKeepsSafe(start, run);
    forall s, s' | EndInv(s) && Progress(s, s')
      ensures EndInv(s') && WorkDone(s) < WorkDone(s')
    {
      var step :| Enabled(s, step) && step != Interrupted && s' == Apply(s, step);
      HungUpStepWorks(s, step);
    }
    Bounded(Last(run), Progress, EndInv, WorkDone, rest);
    var s := Last(rest);
    HungUpCanMove(s);
    if step :| Enabled(s, step) && step != Interrupted {
      assert Progress(s, Apply(s, step));
    }
  }

  // What the writers' steps write.

  function WrittenBy(step: Step, fd: nat): seq<byte> {
    if step.Write? && step.fd == fd then step.data else []
  }

  function History(s: State, fd: nat): seq<byte> {
    if fd < |s.channels| then s.channels[fd].written else []
  }

  lemma StepAddsInput(s: State, step: Step, fd: nat)
    requires fd < |s.channels| && Enabled(s, step)
    ensures |Apply(s, step).channels| == |s.channels|
    ensures History(Apply(s, step), fd) == History(s, fd) + WrittenBy(step, fd)
  {
    assert s.channels[fd].written + [] == s.channels[fd].written;
  }

  /**
   Whatever the steps of a run, what was delivered from a descriptor and what is still buffered make up
   what was there at the start and the data of all writes to it, in order.
   */
  lemma WritesAreConserved(start: State, steps: seq<Step>, run: seq<State>, fd: nat)
    requires Init(start) && IsTrace(start, Does, steps, run) && fd < |start.channels|
    ensures |Last(run).channels| == |start.channels|
    ensures var ch := Last(run).channels[fd];
            ch.delivered + ch.buffer == start.channels[fd].buffer + Inputs(steps, step => WrittenBy(step, fd))
  {
    var inv := (s: State) => |s.channels| == |start.channels|;
    forall s, step, s' | inv(s) && Does(s, step, s')
      ensures inv(s') && History(s', fd) == History(s, fd) + WrittenBy(step, fd)
    {
      StepAddsInput(s, step, fd);
    }
    HistoryIs(start, Does, inv, s => History(s, fd), step => WrittenBy(step, fd), steps, run);
    TraceIsRun(start, Next, Does, steps, run);
    BytesAreConserved(start, run, fd);
  }
}
