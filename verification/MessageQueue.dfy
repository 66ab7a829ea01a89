/**
 A POSIX message queue with its single notification slot, as described for mq_send(),
 mq_receive() and mq_notify() in IEEE Std 1003.1. The descriptor is non-blocking.
 */
module MessageQueue {

  datatype Message = Message(prio: nat, body: seq<char>)

  /** A queue, and whether some process is registered for notification on it. */
  datatype Queue = Queue(messages: seq<Message>, registered: bool)

  /** mq_notify() fails with EBUSY while a registration exists. */
  predicate NotifyFails(q: Queue) {
    q.registered
  }

  /** A message that arrives on an empty queue notifies the registered process, if there is one. */
  predicate Notifies(q: Queue) {
    q.messages == [] && q.registered
  }

  /** A notification uses the registration up. */
  function Arrive(q: Queue, m: Message): Queue {
    Queue(q.messages + [m], q.registered && !Notifies(q))
  }

  /** mq_receive() takes the oldest of the messages with the highest priority. */
  function Front(q: seq<Message>): (i: nat)
    requires q != []
    ensures i < |q|
    ensures forall j :: 0 <= j < |q| ==> q[j].prio <= q[i].prio
    ensures forall j :: 0 <= j < i ==> q[j].prio < q[i].prio
  {
    var last := |q| - 1;
    if last == 0 then 0
    else
      var i := Front(q[..last]);
      if q[i].prio < q[last].prio then last else i
  }

  function Without(q: seq<Message>, i: nat): seq<Message>
    requires i < |q|
  {
    q[..i] + q[i + 1..]
  }

  /** The messages of one priority, in order. */
  function OfPriority(q: seq<Message>, p: nat): seq<Message> {
    if q == [] then []
    else (if q[0].prio == p then [q[0]] else []) + OfPriority(q[1..], p)
  }

  lemma {:induction false} OfPriorityConcat(a: seq<Message>, b: seq<Message>, p: nat)
    ensures OfPriority(a + b, p) == OfPriority(a, p) + OfPriority(b, p)
  {
    if a == [] {
      assert a + b == b;
    } else {
      assert (a + b)[0] == a[0] && (a + b)[1..] == a[1..] + b;
      OfPriorityConcat(a[1..], b, p);
      Regroup(if a[0].prio == p then [a[0]] else [], OfPriority(a[1..], p), OfPriority(b, p));
    }
  }

  lemma Regroup(a: seq<Message>, b: seq<Message>, c: seq<Message>)
    ensures a + b + c == a + (b + c)
  {
  }

  lemma {:induction false} NoneOfPriority(q: seq<Message>, p: nat)
    requires forall m :: m in q ==> m.prio != p
    ensures OfPriority(q, p) == []
  {
    if q != [] {
      NoneOfPriority(q[1..], p);
    }
  }

  /** Receiving takes the first message of its priority and leaves every other priority as it was. */
  lemma ReceiveKeepsOrder(q: seq<Message>, p: nat)
    requires q != []
    ensures var i := Front(q);
            OfPriority(q, p) == OfPriority([q[i]], p) + OfPriority(Without(q, i), p)
  {
    var i := Front(q);
    var before, after := q[..i], q[i + 1..];
    assert q == before + ([q[i]] + after);
    OfPriorityConcat(before, [q[i]] + after, p);
    OfPriorityConcat([q[i]], after, p);
    OfPriorityConcat(before, after, p);
    var b, m, a := OfPriority(before, p), OfPriority([q[i]], p), OfPriority(after, p);
    assert OfPriority(q, p) == b + (m + a);
    assert b == [] || m == [] by {
      if q[i].prio == p {
        NoneOfPriority(before, p);
      }
    }
    Swap(b, m, a);
  }

  lemma Swap(a: seq<Message>, b: seq<Message>, c: seq<Message>)
    requires a == [] || b == []
    ensures a + (b + c) == b + (a + c)
  {
    assert [] + (b + c) == b + c && [] + (a + c) == a + c && [] + c == c;
  }

  /**
   `received` and then `queued` account for `sent`: at each priority the messages received so far,
   followed by those still queued, are exactly those sent, in the order they were sent.
   */
  ghost predicate Accounted(sent: seq<Message>, received: seq<Message>, queued: seq<Message>) {
    forall p: nat :: OfPriority(received, p) + OfPriority(queued, p) == OfPriority(sent, p)
  }

  lemma ArriveAccounted(sent: seq<Message>, received: seq<Message>, queued: seq<Message>, m: Message)
    requires Accounted(sent, received, queued)
    ensures Accounted(sent + [m], received, queued + [m])
  {
    forall p: nat
      ensures OfPriority(received, p) + OfPriority(queued + [m], p) == OfPriority(sent + [m], p)
    {
      OfPriorityConcat(queued, [m], p);
      OfPriorityConcat(sent, [m], p);
    }
  }

  lemma ReceiveAccounted(sent: seq<Message>, received: seq<Message>, queued: seq<Message>)
    requires Accounted(sent, received, queued) && queued != []
    ensures var i := Front(queued); Accounted(sent, received + [queued[i]], Without(queued, i))
  {
    var i := Front(queued);
    var m, rest := queued[i], Without(queued, i);
    forall p: nat
      ensures OfPriority(received + [m], p) + OfPriority(rest, p) == OfPriority(sent, p)
    {
      ReceiveKeepsOrder(queued, p);
      MoveAcross(sent, received, queued, m, rest, p);
    }
  }

  lemma MoveAcross(
      sent: seq<Message>, received: seq<Message>, queued: seq<Message>, m: Message, rest: seq<Message>, p: nat)
    requires OfPriority(received, p) + OfPriority(queued, p) == OfPriority(sent, p)
    requires OfPriority(queued, p) == OfPriority([m], p) + OfPriority(rest, p)
    ensures OfPriority(received + [m], p) + OfPriority(rest, p) == OfPriority(sent, p)
  {
    OfPriorityConcat(received, [m], p);
    Regroup(OfPriority(received, p), OfPriority([m], p), OfPriority(rest, p));
  }

  lemma {:induction false} CountOfPriority(q: seq<Message>, m: Message)
    ensures multiset(q)[m] == multiset(OfPriority(q, m.prio))[m]
  {
    if q != [] {
      assert q == [q[0]] + q[1..];
      CountOfPriority(q[1..], m);
    }
  }

  /** With nothing left in the queue, accounting means: each message sent was received exactly once. */
  lemma AccountedIsExactlyOnce(sent: seq<Message>, received: seq<Message>)
    requires Accounted(sent, received, [])
    ensures multiset(received) == multiset(sent)
  {
    forall m: Message
      ensures multiset(received)[m] == multiset(sent)[m]
    {
      CountOfPriority(received, m);
      CountOfPriority(sent, m);
      assert OfPriority(received, m.prio) + OfPriority([], m.prio) == OfPriority(sent, m.prio);
    }
  }

  // The order in which messages are received while none is sent.

  /** A queue's traffic: what has been sent and received so far, and what is queued. */
  datatype Traffic = Traffic(sent: seq<Message>, received: seq<Message>, queued: seq<Message>)

  /** The oldest of the queued messages with the highest priority is received. */
  ghost predicate Receives(t: Traffic, t': Traffic) {
    && t.queued != []
    && var i := Front(t.queued);
    t' == Traffic(t.sent, t.received + [t.queued[i]], Without(t.queued, i))
  }

  /** Nothing happens, a message is sent, or one is received. */
  ghost predicate Moves(t: Traffic, t': Traffic) {
    || t' == t
    || (t.sent < t'.sent && t'.received == t.received)
    || Receives(t, t')
  }

  /**
   What was received after the first `from` messages came out by falling priority, and nothing still
   queued has a higher priority than any of it.
   */
  ghost predicate HighestFirst(received: seq<Message>, from: nat, queued: seq<Message>) {
    && (forall a, b :: from <= a <= b < |received| ==> received[b].prio <= received[a].prio)
    && (forall a, m :: from <= a < |received| && m in queued ==> m.prio <= received[a].prio)
  }

  lemma ReceiveKeepsHighestFirst(t: Traffic, t': Traffic, from: nat)
    requires from <= |t.received| && HighestFirst(t.received, from, t.queued) && Receives(t, t')
    ensures HighestFirst(t'.received, from, t'.queued)
  {
    var i := Front(t.queued);
    assert t.queued[i] in t.queued;
    assert forall m :: m in t'.queued ==> m in t.queued;
  }

  lemma {:induction false} SentGrows(ts: seq<Traffic>, i: nat, j: nat)
    requires i <= j < |ts| && forall k :: i <= k < j ==> Moves(ts[k], ts[k + 1])
    ensures ts[i].sent <= ts[j].sent
    decreases j
  {
    if i < j {
      SentGrows(ts, i, j - 1);
      assert Moves(ts[j - 1], ts[j - 1 + 1]);
    }
  }

  /** While nothing is sent, messages are received highest priority first. */
  lemma {:induction false} StretchHighestFirst(ts: seq<Traffic>, i: nat, j: nat)
    requires i <= j < |ts| && forall k :: i <= k < j ==> Moves(ts[k], ts[k + 1])
    requires ts[i].sent == ts[j].sent
    ensures ts[i].received <= ts[j].received
    ensures HighestFirst(ts[j].received, |ts[i].received|, ts[j].queued)
    decreases j
  {
    if i < j {
      var t, t' := ts[j - 1], ts[j - 1 + 1];
      SentGrows(ts, i, j - 1);
      assert Moves(t, t');
      assert t.sent == t'.sent;
      StretchHighestFirst(ts, i, j - 1);
      if t' != t {
        ReceiveKeepsHighestFirst(t, t', |ts[i].received|);
      }
    }
  }
}
