/**
 The message queue reader that is notified by threads. Each notification starts a handler thread
 that registers again and then drains the queue until mq_receive() reports EAGAIN; any number
 of handlers can be at work on the queue at once.
 */
module NotifyThread {
  import opened MessageQueue
  import opened Runs

  /** A handler before its call of notifySetup(), inside its receive loop, and after it. */
  datatype Handler = Starting | Draining | Finished

  /** `exited` is set when a failed mq_notify() ends the process. `sent` and `received` are histories. */
  datatype State = State(
    queue: Queue,
    handlers: seq<Handler>,
    exited: bool,
    sent: seq<Message>,
    received: seq<Message>)

  datatype Step =
    | Send(m: Message)
    | Reregister(t: nat)
    | Receive(t: nat)
    | SeeEmpty(t: nat)

  /** The state right after main()'s own registration, made on a queue that holds `waiting`. */
  function Start(waiting: seq<Message>): State {
    State(Queue(waiting, true), [], false, waiting, [])
  }

  predicate At(s: State, t: nat, h: Handler) {
    t < |s.handlers| && s.handlers[t] == h
  }

  predicate Enabled(s: State, step: Step) {
    && !s.exited
    && match step
       case Send(_) => true
       case Reregister(t) => At(s, t, Starting)
       case Receive(t) => At(s, t, Draining) && s.queue.messages != []
       case SeeEmpty(t) => At(s, t, Draining) && s.queue.messages == []
  }

  function Apply(s: State, step: Step): State
    requires Enabled(s, step)
  {
    match step
    case Send(m) =>
      s.(queue := Arrive(s.queue, m),
         handlers := if Notifies(s.queue) then s.handlers + [Starting] else s.handlers,
         sent := s.sent + [m])
    case Reregister(t) =>
      if NotifyFails(s.queue) then
        s.(exited := true)
      else
        s.(queue := s.queue.(registered := true), handlers := s.handlers[t := Draining])
    case Receive(t) =>
      var i := Front(s.queue.messages);
      s.(queue := s.queue.(messages := Without(s.queue.messages, i)),
         received := s.received + [s.queue.messages[i]])
    case SeeEmpty(t) =>
      s.(handlers := s.handlers[t := Finished])
  }

  ghost predicate Does(s: State, step: Step, s': State) {
    Enabled(s, step) && s' == Apply(s, step)
  }

  ghost predicate Next(s: State, s': State) {
    exists step :: Does(s, step, s')
  }

  function Registrations(s: State): nat {
    if s.queue.registered then 1 else 0
  }

  /** Handlers that have yet to see EAGAIN. */
  function AtWork(s: State): nat {
    multiset(s.handlers)[Starting] + multiset(s.handlers)[Draining]
  }

  /** Messages wait, and no handler is left to take them. */
  predicate Stranded(s: State) {
    s.queue.messages != [] && AtWork(s) == 0
  }

  /** An upper bound on the handler steps still to come if nothing more is sent. */
  function Work(s: State): nat {
    |s.queue.messages| + 2 * multiset(s.handlers)[Starting] + multiset(s.handlers)[Draining]
  }

  ghost predicate Inv(s: State) {
    && !s.exited
    && Registrations(s) + multiset(s.handlers)[Starting] == 1
    && !Stranded(s)
    && Accounted(s.sent, s.received, s.queue.messages)
  }

  /** Every step keeps the invariant and pays for itself out of four units for each message sent. */
  lemma StepKeepsInv(s: State, step: Step)
    requires Inv(s) && Enabled(s, step)
    ensures var s' := Apply(s, step);
            && Inv(s')
            && 4 * |s.sent| - Work(s) < 4 * |s'.sent| - Work(s')
  {
    match step
    case Send(m) =>
      ArriveAccounted(s.sent, s.received, s.queue.messages, m);
    case Reregister(t) =>
    case Receive(t) =>
      ReceiveAccounted(s.sent, s.received, s.queue.messages);
      assert Draining in s.handlers;
    case SeeEmpty(t) =>
  }

  lemma RunKeepsInv(run: seq<State>)
    requires IsRun(Start([]), Next, run)
    ensures Inv(Last(run))
    ensures |run| - 1 <= 4 * |Last(run).sent| - Work(Last(run))
  {
    var potential := (s: State) => 4 * |s.sent| - Work(s);
    forall s, s' | Inv(s) && Next(s, s')
      ensures Inv(s') && potential(s) < potential(s')
    {
      var step :| Does(s, step, s');
      StepKeepsInv(s, step);
    }
    Bounded(Start([]), Next, Inv, potential, run);
  }

  /** Re-registration never fails: at every moment exactly one registration is held or about to be made. */
  lemma RegistrationNeverFails(run: seq<State>)
    requires IsRun(Start([]), Next, run)
    ensures var s := Last(run);
            && !s.exited
            && Registrations(s) + multiset(s.handlers)[Starting] == 1
            && (Starting in s.handlers ==> !s.queue.registered && !NotifyFails(s.queue))
  {
    RunKeepsInv(run);
  }

  /** While a message waits, some handler will still look at the queue. */
  lemma NoLostWakeup(run: seq<State>)
    requires IsRun(Start([]), Next, run)
    requires Last(run).queue.messages != []
    ensures exists t :: At(Last(run), t, Starting) || At(Last(run), t, Draining)
  {
    var s := Last(run);
    RunKeepsInv(run);
    if Starting in s.handlers {
      var t :| 0 <= t < |s.handlers| && s.handlers[t] == Starting;
      assert At(s, t, Starting);
    } else {
      assert Draining in s.handlers;
      var t :| 0 <= t < |s.handlers| && s.handlers[t] == Draining;
      assert At(s, t, Draining);
    }
  }

  /** At every moment, messages of one priority have been received in the order they were sent, none lost. */
  lemma ReceivedInOrder(run: seq<State>, p: nat)
    requires IsRun(Start([]), Next, run)
    ensures var s := Last(run);
            OfPriority(s.sent, p) == OfPriority(s.received, p) + OfPriority(s.queue.messages, p)
  {
    RunKeepsInv(run);
  }

  /** Once every handler has finished, every message sent has been received exactly once. */
  lemma AllReceivedOnceFinished(run: seq<State>)
    requires IsRun(Start([]), Next, run)
    requires forall h :: h in Last(run).handlers ==> h == Finished
    ensures Last(run).queue == Queue([], true)
    ensures multiset(Last(run).received) == multiset(Last(run).sent)
  {
    var s := Last(run);
    RunKeepsInv(run);
    assert Starting !in s.handlers && Draining !in s.handlers;
    assert AtWork(s) == 0;
    AccountedIsExactlyOnce(s.sent, s.received);
  }

  /** A handler that has not finished always has a step of its own to take, whatever the others do. */
  lemma HandlersNeverBlock(run: seq<State>, t: nat)
    requires IsRun(Start([]), Next, run)
    requires t < |Last(run).handlers| && Last(run).handlers[t] != Finished
    ensures exists step: Step :: !step.Send? && step.t == t && Enabled(Last(run), step)
  {
    var s := Last(run);
    RunKeepsInv(run);
    var step := if At(s, t, Starting) then Reregister(t)
                else if s.queue.messages != [] then Receive(t) else SeeEmpty(t);
    assert Enabled(s, step);
  }

  /** The handlers quiesce: a run in which k messages are sent has at most 4k steps. */
  lemma RunsAreBounded(run: seq<State>)
    requires IsRun(Start([]), Next, run)
    ensures |run| - 1 <= 4 * |Last(run).sent|
  {
    RunKeepsInv(run);
  }

  /** A queue that is not empty at the first registration never notifies again, however much is sent. */
  lemma LeftoverIsNeverRead(waiting: seq<Message>, run: seq<State>)
    requires waiting != []
    requires IsRun(Start(waiting), Next, run)
    ensures var s := Last(run);
            Stranded(s) && s.handlers == [] && s.received == [] && s.queue.messages == s.sent
  {
    var inv := (s: State) =>
      && s.queue.messages != [] && s.handlers == [] && s.received == [] && s.queue.messages == s.sent;
    Invariant(Start(waiting), Next, inv, run);
  }

  /** The reader never strands a message if and only if the queue is empty when main() registers. */
  lemma NeverStrandedIffStartedEmpty(waiting: seq<Message>)
    ensures (forall run :: IsRun(Start(waiting), Next, run) ==> !Stranded(Last(run))) <==> waiting == []
  {
    if waiting == [] {
      forall run | IsRun(Start(waiting), Next, run)
        ensures !Stranded(Last(run))
      {
        RunKeepsInv(run);
      }
    } else {
      var run := [Start(waiting)];
      assert IsRun(Start(waiting), Next, run);
      LeftoverIsNeverRead(waiting, run);
    }
  }

  // What is received first, and what is sent at all.

  function TrafficOf(s: State): Traffic {
    Traffic(s.sent, s.received, s.queue.messages)
  }

  lemma NextMoves(s: State, s': State)
    requires Next(s, s')
    ensures Moves(TrafficOf(s), TrafficOf(s'))
  {
  }

  function Traffics(run: seq<State>): (ts: seq<Traffic>)
    ensures |ts| == |run| && forall k :: 0 <= k < |run| ==> ts[k] == TrafficOf(run[k])
  {
    seq(|run|, k requires 0 <= k < |run| => TrafficOf(run[k]))
  }

  lemma RunMoves(waiting: seq<Message>, run: seq<State>)
    requires IsRun(Start(waiting), Next, run)
    ensures forall k :: 0 <= k < |run| - 1 ==> Moves(Traffics(run)[k], Traffics(run)[k + 1])
  {
    IsRunIff(Start(waiting), Next, run);
    forall k | 0 <= k < |run| - 1
      ensures Moves(Traffics(run)[k], Traffics(run)[k + 1])
    {
      NextMoves(run[k], run[k + 1]);
    }
  }

  /**
   Between two states of a run with nothing sent from one to the other, messages are received by
   falling priority, and none is left behind that has a higher priority than one received.
   */
  lemma ReceivesHighestFirst(waiting: seq<Message>, run: seq<State>, i: nat, j: nat)
    requires IsRun(Start(waiting), Next, run) && i <= j < |run| && run[i].sent == run[j].sent
    ensures run[i].received <= run[j].received
    ensures HighestFirst(run[j].received, |run[i].received|, run[j].queue.messages)
  {
    RunMoves(waiting, run);
    StretchHighestFirst(Traffics(run), i, j);
  }

  /** The message that a step sends. */
  function SentBy(step: Step): seq<Message> {
    match step case Send(m) => [m] case _ => []
  }

  /** Whatever the steps of a run, the messages sent are those of its sends, after those there at the start. */
  lemma SentIsWhatWasSent(waiting: seq<Message>, steps: seq<Step>, run: seq<State>)
    requires IsTrace(Start(waiting), Does, steps, run)
    ensures Last(run).sent == waiting + Inputs(steps, SentBy)
  {
    HistoryIs(Start(waiting), Does, (s: State) => true, (s: State) => s.sent, SentBy, steps, run);
  }
}
