/**
 The message queue reader that is notified by a signal. SIGUSR1 stays blocked except inside
 sigsuspend(), so a notification waits as a pending signal until the loop comes round. Nobody else
 sends SIGUSR1 or receives from the queue.
 */
module NotifySignal {
  import opened MessageQueue
  import opened Runs

  /** The program registers again before it drains the queue. The other order is kept for comparison. */
  datatype Order = RegisterFirst | DrainFirst

  datatype Phase = Suspended | Registering | Draining

  /** `pending` is the pending SIGUSR1; `exited` is set when a failed mq_notify() ends the process. */
  datatype State = State(
    order: Order,
    queue: Queue,
    phase: Phase,
    pending: bool,
    exited: bool,
    sent: seq<Message>,
    received: seq<Message>)

  datatype Step = Send(m: Message) | Wake | Register | Receive | SeeEmpty

  /** The loop is entered right after the first registration, made on a queue that holds `waiting`. */
  function Start(order: Order, waiting: seq<Message>): State {
    State(order, Queue(waiting, true), Suspended, false, false, waiting, [])
  }

  predicate Enabled(s: State, step: Step) {
    && !s.exited
    && match step
       case Send(_) => true
       case Wake => s.phase == Suspended && s.pending
       case Register => s.phase == Registering
       case Receive => s.phase == Draining && s.queue.messages != []
       case SeeEmpty => s.phase == Draining && s.queue.messages == []
  }

  function Apply(s: State, step: Step): State
    requires Enabled(s, step)
  {
    match step
    case Send(m) =>
      s.(queue := Arrive(s.queue, m), pending := s.pending || Notifies(s.queue), sent := s.sent + [m])
    case Wake =>
      s.(pending := false, phase := if s.order == RegisterFirst then Registering else Draining)
    case Register =>
      if NotifyFails(s.queue) then
        s.(exited := true)
      else
        s.(queue := s.queue.(registered := true),
           phase := if s.order == RegisterFirst then Draining else Suspended)
    case Receive =>
      var i := Front(s.queue.messages);
      s.(queue := s.queue.(messages := Without(s.queue.messages, i)),
         received := s.received + [s.queue.messages[i]])
    case SeeEmpty =>
      s.(phase := if s.order == RegisterFirst then Suspended else Registering)
  }

  ghost predicate Does(s: State, step: Step, s': State) {
    Enabled(s, step) && s' == Apply(s, step)
  }

  ghost predicate Next(s: State, s': State) {
    exists step :: Does(s, step, s')
  }

  /** Asleep in sigsuspend() with nothing to wake it. */
  predicate Asleep(s: State) {
    s.phase == Suspended && !s.pending
  }

  predicate Stranded(s: State) {
    Asleep(s) && s.queue.messages != []
  }

  /** The notification is in one place: registered, pending as a signal, or about to be registered. */
  function Notifications(s: State): nat {
    (if s.queue.registered then 1 else 0)
    + (if s.pending then 1 else 0)
    + (if s.phase == Registering then 1 else 0)
  }

  /** An upper bound on the program's own steps still to come if nothing more is sent. */
  function Work(s: State): nat {
    |s.queue.messages|
    + (if s.pending then 3 else 0)
    + (match s.phase case Suspended => 0 case Registering => 2 case Draining => 1)
  }

  ghost predicate Inv(s: State) {
    && s.order == RegisterFirst
    && !s.exited
    && Notifications(s) == 1
    && !Stranded(s)
    && Accounted(s.sent, s.received, s.queue.messages)
  }

  lemma StepKeepsInv(s: State, step: Step)
    requires Inv(s) && Enabled(s, step)
    ensures var s' := Apply(s, step);
            && Inv(s')
            && 5 * |s.sent| - Work(s) < 5 * |s'.sent| - Work(s')
  {
    match step
    case Send(m) => ArriveAccounted(s.sent, s.received, s.queue.messages, m);
    case Receive => ReceiveAccounted(s.sent, s.received, s.queue.messages);
    case _ =>
  }

  lemma RunKeepsInv(run: seq<State>)
    requires IsRun(Start(RegisterFirst, []), Next, run)
    ensures Inv(Last(run))
    ensures |run| - 1 <= 5 * |Last(run).sent| - Work(Last(run))
  {
    var potential := (s: State) => 5 * |s.sent| - Work(s);
    forall s, s' | Inv(s) && Next(s, s')
      ensures Inv(s') && potential(s) < potential(s')
    {
      var step :| Does(s, step, s');
      StepKeepsInv(s, step);
    }
    Bounded(Start(RegisterFirst, []), Next, Inv, potential, run);
  }

  /**
   Whenever the program sleeps with no signal pending it is registered, the queue is empty, and every
   message sent has been received exactly once.
   */
  lemma AsleepMeansAllReceived(run: seq<State>)
    requires IsRun(Start(RegisterFirst, []), Next, run) && Asleep(Last(run))
    ensures var s := Last(run);
            && s.queue == Queue([], true)
            && multiset(s.received) == multiset(s.sent)
            && forall p: nat :: OfPriority(s.received, p) == OfPriority(s.sent, p)
  {
    var s := Last(run);
    RunKeepsInv(run);
    AccountedIsExactlyOnce(s.sent, s.received);
    forall p: nat
      ensures OfPriority(s.received, p) == OfPriority(s.sent, p)
    {
      assert OfPriority(s.received, p) + OfPriority([], p) == OfPriority(s.sent, p);
    }
  }

  /** mq_notify() inside the loop never finds a registration, and no notification meets a pending signal. */
  lemma RegistrationNeverFails(run: seq<State>)
    requires IsRun(Start(RegisterFirst, []), Next, run)
    ensures var s := Last(run);
            && !s.exited
            && (s.phase == Registering ==> !s.queue.registered && !NotifyFails(s.queue))
            && (s.pending ==> !Notifies(s.queue))
  {
    RunKeepsInv(run);
  }

  /** The program is asleep or has a step of its own, and k messages cost at most 5k steps in all. */
  lemma ReachesSleep(run: seq<State>)
    requires IsRun(Start(RegisterFirst, []), Next, run)
    ensures Asleep(Last(run)) || exists step: Step :: !step.Send? && Enabled(Last(run), step)
    ensures |run| - 1 <= 5 * |Last(run).sent|
  {
    var s := Last(run);
    RunKeepsInv(run);
    var step := match s.phase
      case Suspended => Wake
      case Registering => Register
      case Draining => if s.queue.messages == [] then SeeEmpty else Receive;
    assert Asleep(s) || Enabled(s, step);
  }

  /** Appends the state that `step` leads to. */
  ghost function Do(run: seq<State>, step: Step): seq<State>
    requires run != [] && Enabled(Last(run), step)
  {
    run + [Apply(Last(run), step)]
  }

  lemma DoExtends(start: State, run: seq<State>, step: Step)
    requires IsRun(start, Next, run) && Enabled(Last(run), step)
    ensures IsRun(start, Next, Do(run, step))
  {
    assert Does(Last(run), step, Apply(Last(run), step));
    Extend(start, Next, run, Apply(Last(run), step));
  }

  /** Draining before registering loses the message that arrives in between: the run below strands `m`. */
  lemma DrainFirstStrands(m: Message) returns (run: seq<State>)
    ensures IsRun(Start(DrainFirst, []), Next, run) && Stranded(Last(run))
    ensures m in Last(run).queue.messages
  {
    var start := Start(DrainFirst, []);
    run := [start];
    var steps := [Send(m), Wake, Receive, SeeEmpty, Send(m), Register];
    DoExtends(start, run, steps[0]);
    run := Do(run, steps[0]);
    DoExtends(start, run, steps[1]);
    run := Do(run, steps[1]);
    DoExtends(start, run, steps[2]);
    run := Do(run, steps[2]);
    DoExtends(start, run, steps[3]);
    run := Do(run, steps[3]);
    DoExtends(start, run, steps[4]);
    run := Do(run, steps[4]);
    DoExtends(start, run, steps[5]);
    run := Do(run, steps[5]);
  }

  /** Exactly two things keep messages from being stranded: the order of the calls, and an empty queue. */
  lemma NeverStrandedIff(order: Order, waiting: seq<Message>)
    ensures (forall run :: IsRun(Start(order, waiting), Next, run) ==> !Stranded(Last(run)))
       <==> order == RegisterFirst && waiting == []
  {
    if waiting != [] {
      assert IsRun(Start(order, waiting), Next, [Start(order, waiting)]);
      assert Stranded(Last([Start(order, waiting)]));
    } else if order == DrainFirst {
      var run := DrainFirstStrands(Message(0, ""));
    } else {
      forall run | IsRun(Start(order, waiting), Next, run)
        ensures !Stranded(Last(run))
      {
        RunKeepsInv(run);
      }
    }
  }

  // What is received first, and what is sent at all.

  function TrafficOf(s: State): Traffic {
    Traffic(s.sent, s.received, s.queue.messages)
  }

  lemma NextMoves(s: State, s': State)
    requires Next(s, s')
    ensures Moves(TrafficOf(s), TrafficOf(s'))
  {
  }

  function Traffics(run: seq<State>): (ts: seq<Traffic>)
    ensures |ts| == |run| && forall k :: 0 <= k < |run| ==> ts[k] == TrafficOf(run[k])
  {
    seq(|run|, k requires 0 <= k < |run| => TrafficOf(run[k]))
  }

  lemma RunMoves(order: Order, waiting: seq<Message>, run: seq<State>)
    requires IsRun(Start(order, waiting), Next, run)
    ensures forall k :: 0 <= k < |run| - 1 ==> Moves(Traffics(run)[k], Traffics(run)[k + 1])
  {
    IsRunIff(Start(order, waiting), Next, run);
    forall k | 0 <= k < |run| - 1
      ensures Moves(Traffics(run)[k], Traffics(run)[k + 1])
    {
      NextMoves(run[k], run[k + 1]);
    }
  }

  /**
   Between two states of a run with nothing sent from one to the other, messages are received by
   falling priority, and none is left behind that has a higher priority than one received.
   */
  lemma ReceivesHighestFirst(order: Order, waiting: seq<Message>, run: seq<State>, i: nat, j: nat)
    requires IsRun(Start(order, waiting), Next, run) && i <= j < |run| && run[i].sent == run[j].sent
    ensures run[i].received <= run[j].received
    ensures HighestFirst(run[j].received, |run[i].received|, run[j].queue.messages)
  {
    RunMoves(order, waiting, run);
    StretchHighestFirst(Traffics(run), i, j);
  }

  /** The message that a step sends. */
  function SentBy(step: Step): seq<Message> {
    match step case Send(m) => [m] case _ => []
  }

  /** Whatever the steps of a run, the messages sent are those of its sends, after those there at the start. */
  lemma SentIsWhatWasSent(order: Order, waiting: seq<Message>, steps: seq<Step>, run: seq<State>)
    requires IsTrace(Start(order, waiting), Does, steps, run)
    ensures Last(run).sent == waiting + Inputs(steps, SentBy)
  {
    HistoryIs(Start(order, waiting), Does, (s: State) => true, (s: State) => s.sent, SentBy, steps, run);
  }
}
