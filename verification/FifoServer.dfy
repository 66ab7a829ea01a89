/** The sequence number server that takes requests from a FIFO and answers on one FIFO for each client. */
module FifoServer {
  import opened DecimalText
  import opened Grants
  import opened LineReader

  /** "/tmp/seqnum_cl." */
  const PREFIX: seq<byte> := [47, 116, 109, 112, 47, 115, 101, 113, 110, 117, 109, 95, 99, 108, 46]

  /** sizeof("/tmp/seqnum_cl.%ld") + 20 */
  const CLIENT_FIFO_NAME_LEN: nat := 39

  /** The name of the FIFO on which the client with this process ID is answered. */
  function FifoName(pid: int32): seq<byte> {
    PREFIX + Decimal(pid)
  }

  /** Different clients have different FIFOs. */
  lemma FifoNamesDiffer(p: int32, q: int32)
    requires FifoName(p) == FifoName(q)
    ensures p == q
  {
    assert FifoName(p)[|PREFIX|..] == Decimal(p) && FifoName(q)[|PREFIX|..] == Decimal(q);
    DecimalInjective(p, q);
  }

  /** The message a client sends. */
  datatype Request = Request(pid: int32, seqLen: int32)

  /** One turn of the loop: a bad read, or a request, and whether the client's FIFO can be opened. */
  datatype Turn = BadRead | Received(req: Request, opens: bool)

  /** The requests for which a grant is attempted. */
  function Attempted(turns: seq<Turn>): seq<Request> {
    if turns == [] then []
    else
      var turn := turns[|turns| - 1];
      Attempted(turns[..|turns| - 1]) + if turn.Received? && turn.opens then [turn.req] else []
  }

  function Lengths(reqs: seq<Request>): (lens: seq<int>)
    ensures |lens| == |reqs|
    ensures forall i :: 0 <= i < |reqs| ==> lens[i] == reqs[i].seqLen
  {
    seq(|reqs|, i requires 0 <= i < |reqs| => reqs[i].seqLen)
  }

  /** The counter after some turns, as an integer that does not overflow. */
  function CounterAfter(from: int, turns: seq<Turn>): int {
    from + Sum(Lengths(Attempted(turns)))
  }

  /** The counter never leaves the range of an int, beyond which C does not define its addition. */
  ghost predicate NeverOverflows(from: int, turns: seq<Turn>) {
    forall k :: 0 <= k <= |turns| ==> INT_MIN <= CounterAfter(from, turns[..k]) <= INT_MAX
  }

  /** The FIFO opened for each request, and the grant attempted on it. */
  datatype Attempt = Attempt(name: seq<byte>, grant: Grant)

  /** What the server does for some requests: their own FIFOs, and grants that tile. */
  ghost predicate Answers(attempts: seq<Attempt>, reqs: seq<Request>, from: int) {
    && |attempts| == |reqs|
    && forall i :: 0 <= i < |reqs| ==>
         && attempts[i].name == FifoName(reqs[i].pid)
         && attempts[i].grant == Tile(Lengths(reqs), from)[i]
  }

  lemma AnswersSnoc(
      attempts: seq<Attempt>, reqs: seq<Request>, from: int, req: Request, name: seq<byte>, counter: int)
    requires Answers(attempts, reqs, from)
    requires name == FifoName(req.pid) && counter == from + Sum(Lengths(reqs))
    ensures Answers(attempts + [Attempt(name, Grant(counter, req.seqLen))], reqs + [req], from)
    ensures from + Sum(Lengths(reqs + [req])) == counter + req.seqLen
  {
    TileSnoc(Lengths(reqs), req.seqLen, from);
    assert Lengths(reqs + [req]) == Lengths(reqs) + [req.seqLen];
  }

  class SeqnumServer {
    var seqNum: int32
    const clientFifo: array<byte>

    ghost predicate Valid() {
      clientFifo.Length == CLIENT_FIFO_NAME_LEN
    }

    constructor ()
      ensures Valid() && fresh(clientFifo) && seqNum == 0
    {
      seqNum := 0;
      clientFifo := new byte[CLIENT_FIFO_NAME_LEN];
    }

    /** Prints the name of the client's FIFO into `clientFifo`: nothing is cut off. */
    method FormatName(pid: int32)
      requires Valid()
      modifies clientFifo
      ensures CString(clientFifo[..]) == FifoName(pid)
    {
      var name := FifoName(pid);
      Snprintf(clientFifo, name);
      DecimalFits(pid);
      CStringStops(name, clientFifo[..][|name| + 1..]);
      assert clientFifo[..] == name + [NUL] + clientFifo[..][|name| + 1..];
    }

    /** The request loop. A write that fails is reported, and the counter moves on all the same. */
    method Run(turns: seq<Turn>) returns (attempts: seq<Attempt>)
      requires Valid() && NeverOverflows(seqNum, turns)
      modifies this`seqNum, clientFifo
      ensures seqNum == CounterAfter(old(seqNum), turns)
      ensures Answers(attempts, Attempted(turns), old(seqNum))
    {
      attempts := [];
      ghost var from, reqs := seqNum, Attempted([]);
      for i := 0 to |turns|
        invariant reqs == Attempted(turns[..i])
        invariant seqNum == from + Sum(Lengths(reqs))
        invariant Answers(attempts, reqs, from)
      {
        var turn := turns[i];
        assert turns[..i + 1][..i] == turns[..i];
        if turn.BadRead? {
          continue;
        }
        FormatName(turn.req.pid);
        if !turn.opens {
          continue;
        }
        var name, grant := CString(clientFifo[..]), Grant(seqNum, turn.req.seqLen);
        AnswersSnoc(attempts, reqs, from, turn.req, name, seqNum);
        reqs := reqs + [turn.req];
        assert CounterAfter(from, turns[..i + 1]) == seqNum + turn.req.seqLen;
        attempts := attempts + [Attempt(name, grant)];
        seqNum := seqNum + turn.req.seqLen;
      }
      assert turns[..|turns|] == turns;
    }
  }

  lemma {:induction false} AttemptedPrefix(turns: seq<Turn>, k: nat)
    requires k <= |turns|
    ensures Attempted(turns[..k]) <= Attempted(turns)
    decreases |turns|
  {
    if k == |turns| {
      assert turns[..k] == turns;
    } else {
      AttemptedPrefix(turns[..|turns| - 1], k);
      assert turns[..|turns| - 1][..k] == turns[..k];
    }
  }

  /** Requests of length zero or more that total at most INT_MAX never overflow a counter that starts at 0. */
  lemma SmallTotalsFit(turns: seq<Turn>)
    requires NonNegative(Lengths(Attempted(turns))) && CounterAfter(0, turns) <= INT_MAX
    ensures NeverOverflows(0, turns)
  {
    var lens := Lengths(Attempted(turns));
    forall k | 0 <= k <= |turns|
      ensures 0 <= CounterAfter(0, turns[..k]) <= INT_MAX
    {
      AttemptedPrefix(turns, k);
      var prefix := Lengths(Attempted(turns[..k]));
      assert lens[..|prefix|] == prefix && lens[..|lens|] == lens;
      SumMonotone(lens, |prefix|, |lens|);
    }
  }

  /**
   With no negative length and a total of at most INT_MAX, every number below the final counter has
   been offered to exactly one client, and no number above it to any.
   */
  lemma AttemptsTile(turns: seq<Turn>, attempts: seq<Attempt>, p: int)
    requires NonNegative(Lengths(Attempted(turns))) && CounterAfter(0, turns) <= INT_MAX
    requires Answers(attempts, Attempted(turns), 0)
    ensures NeverOverflows(0, turns)
    ensures 0 <= p < CounterAfter(0, turns)
       <==> exists i :: 0 <= i < |attempts| && Contains(attempts[i].grant, p)
    ensures forall i, j :: 0 <= i < j < |attempts| ==>
              !(Contains(attempts[i].grant, p) && Contains(attempts[j].grant, p))
  {
    SmallTotalsFit(turns);
    var lens := Lengths(Attempted(turns));
    if 0 <= p < CounterAfter(0, turns) {
      var i := Locate(lens, 0, p);
      assert Contains(attempts[i].grant, p);
    }
    if i :| 0 <= i < |attempts| && Contains(attempts[i].grant, p) {
      TileBounded(lens, 0, i);
    }
    forall i, j | 0 <= i < j < |attempts|
      ensures !(Contains(attempts[i].grant, p) && Contains(attempts[j].grant, p))
    {
      TileOrdered(lens, 0, i, j);
    }
  }

  lemma {:induction false} AttemptedConcat(a: seq<Turn>, b: seq<Turn>)
    ensures Attempted(a + b) == Attempted(a) + Attempted(b)
  {
    if b == [] {
      assert a + b == a && Attempted(a) + [] == Attempted(a);
    } else {
      var init, turn := b[..|b| - 1], b[|b| - 1];
      AttemptedConcat(a, init);
      assert (a + b)[..|a + b| - 1] == a + init && (a + b)[|a + b| - 1] == turn;
      Regroup(Attempted(a), Attempted(init), if turn.Received? && turn.opens then [turn.req] else []);
    }
  }

  lemma Regroup(a: seq<Request>, b: seq<Request>, c: seq<Request>)
    ensures a + b + c == a + (b + c)
  {
  }

  /** A turn whose read is bad or whose FIFO cannot be opened moves nothing. */
  lemma AbandonedTurnsChangeNothing(before: seq<Turn>, turn: Turn, after: seq<Turn>)
    requires turn.BadRead? || !turn.opens
    ensures Attempted(before + [turn] + after) == Attempted(before + after)
  {
    AttemptedConcat(before + [turn], after);
    AttemptedConcat(before, [turn]);
    AttemptedConcat(before, after);
    assert [turn][..0] == [] && Attempted(before) + [] == Attempted(before);
  }

  /** Every request whose FIFO can be opened is attempted, in its turn. */
  lemma OtherTurnsAreAttempted(before: seq<Turn>, req: Request, after: seq<Turn>)
    ensures Attempted(before + [Received(req, true)] + after) == Attempted(before) + [req] + Attempted(after)
  {
    var turn := Received(req, true);
    AttemptedConcat(before + [turn], after);
    AttemptedConcat(before, [turn]);
    assert [turn][..0] == [] && [] + [req] == [req];
  }

  /**
   The attempt for a request is on the requester's own FIFO, and its grant is for the length requested
   and starts at the sum of the lengths attempted before it.
   */
  lemma AttemptIs(attempts: seq<Attempt>, before: seq<Turn>, req: Request, after: seq<Turn>, from: int)
    requires Answers(attempts, Attempted(before + [Received(req, true)] + after), from)
    ensures var k := |Attempted(before)|;
            && k < |attempts|
            && attempts[k].name == PREFIX + Decimal(req.pid)
            && attempts[k].grant == Grant(CounterAfter(from, before), req.seqLen)
  {
    var reqs, k := Attempted(before + [Received(req, true)] + after), |Attempted(before)|;
    OtherTurnsAreAttempted(before, req, after);
    assert reqs[..k] == Attempted(before) && reqs[k] == req;
    assert Lengths(reqs)[..k] == Lengths(Attempted(before));
    TileAt(Lengths(reqs), from, k);
  }
}
