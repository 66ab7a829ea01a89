/**
 The FIFO server and any number of its clients, running at once. Clients are numbered; distinct
 process IDs have distinct FIFOs, so a client's number stands for its process ID and its FIFO's name.
 Opening a FIFO for reading waits for a writer and the other way round; requests are written and read
 whole. No process is killed, and no FIFO is left over from earlier runs.
 */
module FifoProtocol {
  import opened Grants
  import opened Runs

  datatype Request = Request(client: nat, seqLen: int)

  /** Why a client gives up: there is no server FIFO to open, or its own FIFO is at end of file. */
  datatype Reason = NoServer | NoReply

  /** Where a client is: before mkfifo(), before each of its two opens, and so on to its exit. */
  datatype ClientPhase =
    | Unborn
    | Ready
    | OpeningServer
    | Connected
    | Requested
    | OpeningReply
    | Reading
    | Finished(answer: int)
    | Failed(reason: Reason)

  /**
   A client's FIFO: whether its reader has come, whether the server holds it open for writing, whether
   it ever did, and the replies it holds. It is absent before mkfifo() and after the client's exit.
   */
  datatype ReplyFifo = Absent | Present(reader: bool, writer: bool, written: bool, data: seq<int>)

  /** `turn` is the place of the client's request among all those that arrived, once there is one. */
  datatype Client = Client(phase: ClientPhase, seqLen: int, fifo: ReplyFifo, turn: nat)

  /** Where the server is with a request: about to open the client's FIFO, waiting in that open, and so on. */
  datatype Stop = Received | Opening | Opened | Written | Closed

  datatype ServerPhase =
    | Begin
    | Made
    | OpeningRead
    | NeedDummy
    | Idle
    | Busy(at: Stop, req: Request)

  /** What the server reports and carries on from. */
  datatype Mishap = ServerEof | CannotOpen | BrokenPipe

  /**
   `dummy` says whether the server opens its own FIFO for writing as well, as the program does, and
   `writerCame` that some process has opened that FIFO for writing. `arrived` is the history of
   requests and `starts` that of the replies written.
   */
  datatype State = State(
    dummy: bool,
    clients: seq<Client>,
    server: ServerPhase,
    writerCame: bool,
    queue: seq<Request>,
    seqNum: int,
    mishaps: set<Mishap>,
    arrived: seq<Request>,
    starts: seq<int>)

  datatype Step = ClientStep(c: nat) | ServerStep

  function Start(lens: seq<int>, dummy: bool): State {
    State(dummy, seq(|lens|, i requires 0 <= i < |lens| => Client(Unborn, lens[i], Absent, 0)),
          Begin, false, [], 0, {}, [], [])
  }

  /** Some process holds the server's FIFO open for writing: the server itself, or a client. */
  ghost predicate HasWriter(s: State) {
    || (s.dummy && !(s.server.Begin? || s.server.Made? || s.server.OpeningRead? || s.server.NeedDummy?))
    || exists c :: 0 <= c < |s.clients| && Connects(s.clients[c].phase)
  }

  predicate Connects(phase: ClientPhase) {
    phase.OpeningServer? || phase.Connected? || phase.Requested? || phase.OpeningReply? || phase.Reading?
  }

  /** A client's open waits for the other end, and its read for a reply or for the last writer to leave. */
  predicate ClientEnabled(s: State, c: nat) {
    && c < |s.clients|
    && var client := s.clients[c];
    match client.phase
    case OpeningServer => !s.server.Begin? && !s.server.Made?
    case OpeningReply => client.fifo.Present? && client.fifo.written
    case Reading => client.fifo.Present? && (client.fifo.data != [] || !client.fifo.writer)
    case Finished(_) => false
    case Failed(_) => false
    case _ => true
  }

  /** The client a server has a request of. */
  predicate Knows(s: State, req: Request) {
    req.client < |s.clients|
  }

  ghost predicate ServerEnabled(s: State) {
    match s.server
    case OpeningRead => s.writerCame
    case Idle => s.queue != [] || !HasWriter(s)
    case Busy(at, req) =>
      && req.client < |s.clients|
      && (at == Opening ==> var fifo := s.clients[req.client].fifo; fifo.Present? && fifo.reader)
    case _ => true
  }

  ghost predicate Enabled(s: State, step: Step) {
    match step case ClientStep(c) => ClientEnabled(s, c) case ServerStep => ServerEnabled(s)
  }

  function Put(s: State, c: nat, client: Client): State
    requires c < |s.clients|
  {
    s.(clients := s.clients[c := client])
  }

  ghost function Apply(s: State, step: Step): State
    requires Enabled(s, step)
  {
    match step case ClientStep(c) => ApplyClient(s, c) case ServerStep => ApplyServer(s)
  }

  function ApplyClient(s: State, c: nat): State
    requires ClientEnabled(s, c)
  {
    var client := s.clients[c];
    match client.phase
    case Unborn =>
      Put(s, c, client.(phase := Ready, fifo := Present(false, false, false, [])))
    case Ready =>
      if s.server.Begin? then
        Put(s, c, client.(phase := Failed(NoServer), fifo := Absent))
      else
        Put(s, c, client.(phase := OpeningServer)).(writerCame := true)
    case OpeningServer =>
      Put(s, c, client.(phase := Connected))
    case Connected =>
      var req := Request(c, client.seqLen);
      Put(s, c, client.(phase := Requested, turn := |s.arrived|))
        .(queue := s.queue + [req], arrived := s.arrived + [req])
    case Requested =>
      Put(s, c, client.(phase := OpeningReply,
                        fifo := if client.fifo.Present? then client.fifo.(reader := true) else Absent))
    case OpeningReply =>
      Put(s, c, client.(phase := Reading))
    case Reading =>
      if client.fifo.data != [] then
        Put(s, c, client.(phase := Finished(client.fifo.data[0]), fifo := Absent))
      else
        Put(s, c, client.(phase := Failed(NoReply), fifo := Absent))
  }

  ghost function ApplyServer(s: State): State
    requires ServerEnabled(s)
  {
    match s.server
    case Begin => s.(server := Made)
    case Made => s.(server := OpeningRead)
    case OpeningRead => s.(server := NeedDummy)
    case NeedDummy => s.(server := Idle)
    case Idle =>
      if s.queue != [] then
        s.(server := Busy(Received, s.queue[0]), queue := s.queue[1..])
      else
        s.(mishaps := s.mishaps + {ServerEof})
    case Busy(_, _) => ServeClient(s)
  }

  /** The body of the server's loop: answers one request on the client's FIFO. */
  ghost function ServeClient(s: State): State
    requires s.server.Busy? && ServerEnabled(s)
  {
    var req := s.server.req;
    var client := s.clients[req.client];
    match s.server.at
    case Received =>
      if client.fifo.Absent? then
        s.(server := Idle, mishaps := s.mishaps + {CannotOpen})
      else
        Put(s, req.client, client.(fifo := client.fifo.(writer := true, written := true)))
          .(server := Busy(Opening, req))
    case Opening => s.(server := Busy(Opened, req))
    case Opened =>
      var s' := s.(server := Busy(Written, req), starts := s.starts + [s.seqNum]);
      if client.fifo.Present? && client.fifo.reader then
        Put(s', req.client, client.(fifo := client.fifo.(data := client.fifo.data + [s.seqNum])))
      else
        s'.(mishaps := s.mishaps + {BrokenPipe})
    case Written =>
      var s' := s.(server := Busy(Closed, req));
      if client.fifo.Present? then
        Put(s', req.client, client.(fifo := client.fifo.(writer := false)))
      else
        s'
    case Closed => s.(server := Idle, seqNum := s.seqNum + req.seqLen)
  }

  ghost predicate Next(s: State, s': State) {
    exists step :: Enabled(s, step) && s' == Apply(s, step)
  }

  // The invariant.

  function Lengths(reqs: seq<Request>): (lens: seq<int>)
    ensures |lens| == |reqs|
    ensures forall i :: 0 <= i < |reqs| ==> lens[i] == reqs[i].seqLen
  {
    seq(|reqs|, i requires 0 <= i < |reqs| => reqs[i].seqLen)
  }

  /** The request the server is about to answer. */
  function Current(server: ServerPhase): seq<Request> {
    if server.Busy? && server.at != Written && server.at != Closed then [server.req] else []
  }

  /**
   How far the server is with one client: its request waits, the server is opening its FIFO, has it
   open, or has written the reply (and may hold the FIFO open still).
   */
  datatype Stage = Waiting | Contacted | Attached | Answered(start: int, held: bool)

  function StageOf(s: State, c: nat): Stage
    requires c < |s.clients|
  {
    var turn := s.clients[c].turn;
    if turn < |s.starts| then Answered(s.starts[turn], s.server.Busy? && s.server.at == Written && s.server.req.client == c)
    else if s.server.Busy? && s.server.req.client == c then
      match s.server.at case Opening => Contacted case Opened => Attached case _ => Waiting
    else Waiting
  }

  /** What a client's FIFO holds at each stage, before its reader has come and after. */
  function FifoAt(reader: bool, stage: Stage): ReplyFifo {
    match stage
    case Waiting => Present(reader, false, false, [])
    case Contacted => Present(reader, true, true, [])
    case Attached => Present(reader, true, true, [])
    case Answered(start, held) => Present(reader, held, true, [start])
  }

  /** The client's request is the one that arrived in its turn. */
  predicate Asked(s: State, c: nat)
    requires c < |s.clients|
  {
    var client := s.clients[c];
    client.turn < |s.arrived| && s.arrived[client.turn] == Request(c, client.seqLen)
  }

  predicate Consistent(client: Client, stage: Stage) {
    match client.phase
    case Unborn => client.fifo == Absent
    case Requested => (stage.Waiting? || stage.Contacted?) && client.fifo == FifoAt(false, stage)
    case OpeningReply => client.fifo == FifoAt(true, stage)
    case Reading => !stage.Waiting? && client.fifo == FifoAt(true, stage)
    case Finished(answer) => stage.Answered? && answer == stage.start && client.fifo == Absent
    case Failed(reason) => reason == NoServer && client.fifo == Absent
    case _ => client.fifo == Present(false, false, false, [])
  }

  predicate ClientOk(s: State, c: nat)
    requires c < |s.clients|
  {
    && Consistent(s.clients[c], StageOf(s, c))
    && (HasAsked(s.clients[c].phase) ==> Asked(s, c))
  }

  /** A request of this client has arrived. */
  predicate HasAsked(phase: ClientPhase) {
    phase.Requested? || phase.OpeningReply? || phase.Reading? || phase.Finished?
  }

  /** Requests are answered in the order they arrive, each from where the last one ended. */
  ghost predicate StartsOk(arrived: seq<Request>, starts: seq<int>) {
    && |starts| <= |arrived|
    && forall k :: 0 <= k < |starts| ==> starts[k] == Sum(Lengths(arrived[..k]))
  }

  /** The counter is where the next answer starts, or still where the last one did. */
  ghost predicate CounterOk(s: State)
    requires |s.starts| <= |s.arrived|
  {
    var served := |s.starts|;
    if s.server.Busy? && (s.server.at == Written || s.server.at == Closed) then
      served > 0 && s.server.req == s.arrived[served - 1] && s.seqNum == s.starts[served - 1]
    else
      s.seqNum == Sum(Lengths(s.arrived[..served]))
  }

  ghost predicate BooksOk(s: State) {
    && StartsOk(s.arrived, s.starts)
    && s.arrived[|s.starts|..] == Current(s.server) + s.queue
    && CounterOk(s)
  }

  /** The server's start: who can have got how far before it. */
  ghost predicate StartOk(s: State) {
    && (s.server.Begin? || s.server.Made? || s.server.OpeningRead? || s.server.NeedDummy? ==> s.starts == [])
    && (s.server.Begin? || s.server.Made? ==> s.arrived == [])
    && forall c :: 0 <= c < |s.clients| ==>
         var phase := s.clients[c].phase;
         && (Connects(phase) || phase.Finished? ==> s.writerCame && !s.server.Begin?)
         && (phase.Connected? ==> !s.server.Begin? && !s.server.Made?)
  }

  /** Each request that arrived belongs to one client, and counts as that client's turn. */
  ghost predicate TurnsOk(s: State) {
    forall k :: 0 <= k < |s.arrived| ==>
      var c := s.arrived[k].client;
      c < |s.clients| && s.clients[c].turn == k && HasAsked(s.clients[c].phase)
  }

  ghost predicate ClientsOk(s: State) {
    forall c :: 0 <= c < |s.clients| ==> ClientOk(s, c)
  }

  ghost predicate Inv(s: State) {
    && BooksOk(s)
    && StartOk(s)
    && TurnsOk(s)
    && ClientsOk(s)
    && s.mishaps <= (if s.dummy then {} else {ServerEof})
  }

  /** The request the server has at hand has a client, which has asked, and whose turn it is. */
  lemma AtHand(s: State, req: Request)
    requires BooksOk(s) && TurnsOk(s)
    ensures Current(s.server) == [req] ==>
              && |s.starts| < |s.arrived| && s.arrived[|s.starts|] == req
              && Knows(s, req) && HasAsked(s.clients[req.client].phase)
              && s.clients[req.client].turn == |s.starts|
    ensures s.server == Busy(Written, req) || s.server == Busy(Closed, req) ==>
              && 0 < |s.starts| && s.arrived[|s.starts| - 1] == req
              && Knows(s, req) && HasAsked(s.clients[req.client].phase)
              && s.clients[req.client].turn == |s.starts| - 1
  {
    if Current(s.server) == [req] {
      assert s.arrived[|s.starts|] == s.arrived[|s.starts|..][0] == req;
    }
  }

  // Steps of a client.

  lemma ClientStepKeepsStage(s: State, c: nat, d: nat)
    requires ClientEnabled(s, c) && d < |s.clients|
    requires d != c || !s.clients[c].phase.Connected?
    ensures d < |ApplyClient(s, c).clients| && StageOf(ApplyClient(s, c), d) == StageOf(s, d)
  {
  }

  lemma SendStartsWaiting(s: State, c: nat)
    requires BooksOk(s) && TurnsOk(s) && c < |s.clients| && s.clients[c].phase.Connected?
    ensures StageOf(ApplyClient(s, c), c) == Waiting
  {
    if s.server.Busy? {
      AtHand(s, s.server.req);
    }
  }

  /** A client that can read finds its reply: its FIFO is never at end of file before that. */
  lemma ReadFindsReply(s: State, c: nat)
    requires ClientEnabled(s, c) && ClientOk(s, c) && s.clients[c].phase.Reading?
    ensures var client, stage := s.clients[c], StageOf(s, c);
            stage.Answered? && client.fifo.Present? && client.fifo.data == [stage.start]
  {
  }

  lemma ClientStepKeepsOwn(s: State, c: nat)
    requires BooksOk(s) && TurnsOk(s) && ClientEnabled(s, c) && ClientOk(s, c)
    ensures c < |ApplyClient(s, c).clients| && ClientOk(ApplyClient(s, c), c)
  {
    if s.clients[c].phase.Connected? {
      SendStartsWaiting(s, c);
    } else {
      ClientStepKeepsStage(s, c, c);
      if s.clients[c].phase.Reading? {
        ReadFindsReply(s, c);
      }
    }
  }

  lemma ClientStepKeepsClients(s: State, c: nat)
    requires BooksOk(s) && TurnsOk(s) && ClientsOk(s) && ClientEnabled(s, c)
    ensures ClientsOk(ApplyClient(s, c))
  {
    ClientStepKeepsOwn(s, c);
    var s' := ApplyClient(s, c);
    forall d | 0 <= d < |s'.clients|
      ensures ClientOk(s', d)
    {
      if d != c {
        assert ClientOk(s, d) && s'.clients[d] == s.clients[d] && s.arrived <= s'.arrived;
        ClientStepKeepsStage(s, c, d);
      }
    }
  }

  lemma SendKeepsBooks(s: State, c: nat)
    requires BooksOk(s) && c < |s.clients| && s.clients[c].phase.Connected?
    ensures BooksOk(ApplyClient(s, c))
  {
    var s' := ApplyClient(s, c);
    var served, current, req := |s.starts|, Current(s.server), Request(c, s.clients[c].seqLen);
    assert s'.arrived[served..] == s.arrived[served..] + [req];
    assert current + (s.queue + [req]) == current + s.queue + [req];
    assert forall k :: 0 <= k <= served ==> s'.arrived[..k] == s.arrived[..k];
  }

  lemma OtherClientStepKeepsBooks(s: State, c: nat)
    requires BooksOk(s) && ClientEnabled(s, c) && !s.clients[c].phase.Connected?
    ensures BooksOk(ApplyClient(s, c))
  {
  }

  lemma ClientStepKeepsTurns(s: State, c: nat)
    requires TurnsOk(s) && ClientEnabled(s, c) && ClientOk(s, c)
    ensures TurnsOk(ApplyClient(s, c))
  {
    var s' := ApplyClient(s, c);
    if s.clients[c].phase.Reading? {
      ReadFindsReply(s, c);
    }
    assert s.arrived <= s'.arrived && |s'.clients| == |s.clients|;
    assert HasAsked(s.clients[c].phase) ==>
             HasAsked(s'.clients[c].phase) && s'.clients[c].turn == s.clients[c].turn;
    forall k | 0 <= k < |s'.arrived|
      ensures var d := s'.arrived[k].client;
              d < |s'.clients| && s'.clients[d].turn == k && HasAsked(s'.clients[d].phase)
    {
      if k < |s.arrived| {
        assert s'.arrived[k] == s.arrived[k];
      }
    }
  }

  lemma ClientStepKeepsStart(s: State, c: nat)
    requires StartOk(s) && ClientEnabled(s, c)
    ensures StartOk(ApplyClient(s, c))
  {
  }

  lemma ClientKeepsConstants(s: State, c: nat)
    requires ClientEnabled(s, c)
    ensures ApplyClient(s, c).mishaps == s.mishaps && ApplyClient(s, c).dummy == s.dummy
    ensures |ApplyClient(s, c).clients| == |s.clients|
  {
  }

  lemma ClientStepKeepsInv(s: State, c: nat)
    requires Inv(s) && ClientEnabled(s, c)
    ensures Inv(ApplyClient(s, c))
  {
    ClientStepKeepsClients(s, c);
    ClientStepKeepsTurns(s, c);
    ClientStepKeepsStart(s, c);
    if s.clients[c].phase.Connected? {
      SendKeepsBooks(s, c);
    } else {
      OtherClientStepKeepsBooks(s, c);
    }
    ClientKeepsConstants(s, c);
  }

  // Steps of the server.

  /** The server has a request at hand whose client's FIFO or reply the step concerns. */
  predicate Serves(server: ServerPhase) {
    server.Busy? && server.at != Closed
  }

  lemma QuietStepKeepsClients(s: State)
    requires ClientsOk(s) && ServerEnabled(s) && !Serves(s.server)
    ensures ClientsOk(ApplyServer(s))
  {
    var s' := ApplyServer(s);
    forall c | 0 <= c < |s'.clients|
      ensures ClientOk(s', c)
    {
      assert ClientOk(s, c) && StageOf(s', c) == StageOf(s, c);
    }
  }

  /** A client whose request is not at hand sees nothing of what the server does. */
  lemma ServingKeepsOtherStage(s: State, c: nat)
    requires BooksOk(s) && TurnsOk(s) && ServerEnabled(s) && Serves(s.server)
    requires c < |s.clients| && c != s.server.req.client
    requires HasAsked(s.clients[c].phase) ==> Asked(s, c)
    ensures var s' := ApplyServer(s);
            && |s'.clients| == |s.clients| && s'.clients[c] == s.clients[c]
            && (HasAsked(s.clients[c].phase) ==> StageOf(s', c) == StageOf(s, c))
  {
    AtHand(s, s.server.req);
  }

  /** Whose turn it is while the server is busy. */
  predicate TurnAtHand(s: State)
    requires s.server.Busy?
  {
    && Knows(s, s.server.req)
    && HasAsked(s.clients[s.server.req.client].phase)
    && var turn, served := s.clients[s.server.req.client].turn, |s.starts|;
    if s.server.at == Written || s.server.at == Closed then turn == served - 1 && s.starts[turn] == s.seqNum
    else turn == served
  }

  lemma BusyHasTurn(s: State)
    requires BooksOk(s) && TurnsOk(s) && s.server.Busy?
    ensures TurnAtHand(s)
  {
    AtHand(s, s.server.req);
  }

  /** The stages of the client whose request is at hand. */
  lemma ServingMovesStage(s: State)
    requires s.server.Busy? && s.server.at != Closed && ServerEnabled(s) && TurnAtHand(s)
    requires Consistent(s.clients[s.server.req.client], StageOf(s, s.server.req.client))
    ensures var s', c := ApplyServer(s), s.server.req.client;
            && |s'.clients| == |s.clients|
            && match s.server.at
               case Received => StageOf(s, c) == Waiting && StageOf(s', c) == Contacted
               case Opening => StageOf(s, c) == Contacted && StageOf(s', c) == Attached
               case Opened => StageOf(s, c) == Attached && StageOf(s', c) == Answered(s.seqNum, true)
               case Written => StageOf(s, c) == Answered(s.seqNum, true) && StageOf(s', c) == Answered(s.seqNum, false)
               case Closed => true
  {
  }

  lemma ServingKeepsOwn(s: State)
    requires BooksOk(s) && TurnsOk(s) && ServerEnabled(s) && Serves(s.server)
    requires Knows(s, s.server.req) && ClientOk(s, s.server.req.client)
    ensures var s', c := ApplyServer(s), s.server.req.client;
            && |s'.clients| == |s.clients| && ClientOk(s', c)
            && s'.mishaps == s.mishaps
            && s'.clients[c] == s.clients[c].(fifo := s'.clients[c].fifo)
            && (s.server.at == Received ==> s'.server == Busy(Opening, s.server.req))
  {
    var c := s.server.req.client;
    BusyHasTurn(s);
    ServingMovesStage(s);
    assert HasAsked(s.clients[c].phase) && Consistent(s.clients[c], StageOf(s, c));
  }

  lemma ServingKeepsClients(s: State)
    requires BooksOk(s) && TurnsOk(s) && ClientsOk(s) && ServerEnabled(s) && Serves(s.server)
    ensures ClientsOk(ApplyServer(s))
  {
    var s' := ApplyServer(s);
    AtHand(s, s.server.req);
    assert ClientOk(s, s.server.req.client);
    ServingKeepsOwn(s);
    forall c | 0 <= c < |s'.clients|
      ensures ClientOk(s', c)
    {
      if c != s.server.req.client {
        assert ClientOk(s, c);
        ServingKeepsOtherStage(s, c);
      }
    }
  }

  lemma TakeKeepsBooks(s: State)
    requires BooksOk(s) && s.server == Idle && s.queue != []
    ensures BooksOk(ApplyServer(s))
  {
    assert s.queue == [s.queue[0]] + s.queue[1..];
    assert s.arrived[|s.starts|..] == s.queue;
  }

  lemma AnswerKeepsBooks(s: State)
    requires BooksOk(s) && s.server.Busy? && s.server.at == Opened && ServerEnabled(s)
    ensures BooksOk(ApplyServer(s))
  {
    var served, s' := |s.starts|, ApplyServer(s);
    var pending := s.arrived[served..];
    assert pending == [s.server.req] + s.queue;
    assert s.arrived[served] == pending[0];
    assert StartsOk(s.arrived, s.starts + [s.seqNum]);
    assert s.arrived[served + 1..] == pending[1..] == s.queue == [] + s.queue;
    assert s'.arrived == s.arrived && s'.queue == s.queue && s'.starts == s.starts + [s.seqNum];
  }

  lemma AdvanceKeepsBooks(s: State)
    requires BooksOk(s) && s.server.Busy? && s.server.at == Closed && ServerEnabled(s)
    ensures BooksOk(ApplyServer(s))
  {
    var served := |s.starts|;
    var before, req := s.arrived[..served - 1], s.arrived[served - 1];
    assert s.arrived[..served] == before + [req];
    assert Lengths(before + [req]) == Lengths(before) + [req.seqLen];
    TileSnoc(Lengths(before), req.seqLen, 0);
  }

  /** Steps that take no request, answer none, and leave the counter alone. */
  lemma OtherStepKeepsBooks(s: State)
    requires BooksOk(s) && ServerEnabled(s)
    requires s.server.Busy? ==> s.server.at != Opened && s.server.at != Closed
    requires s.server.Idle? ==> s.queue == []
    requires s.server.Busy? && s.server.at == Received ==> ApplyServer(s).server == Busy(Opening, s.server.req)
    ensures BooksOk(ApplyServer(s))
  {
    var s' := ApplyServer(s);
    assert s'.arrived == s.arrived && s'.starts == s.starts && s'.queue == s.queue && s'.seqNum == s.seqNum;
    assert Current(s'.server) == Current(s.server);
  }

  lemma ServerStepKeepsBooks(s: State)
    requires BooksOk(s) && TurnsOk(s) && ClientsOk(s) && ServerEnabled(s)
    ensures BooksOk(ApplyServer(s))
  {
    if s.server.Idle? && s.queue != [] {
      TakeKeepsBooks(s);
    } else if s.server.Busy? && s.server.at == Opened {
      AnswerKeepsBooks(s);
    } else if s.server.Busy? && s.server.at == Closed {
      AdvanceKeepsBooks(s);
    } else {
      if s.server.Busy? && s.server.at == Received {
        AtHand(s, s.server.req);
        assert ClientOk(s, s.server.req.client);
        ServingKeepsOwn(s);
      }
      OtherStepKeepsBooks(s);
    }
  }

  /** The server touches nothing of its clients but their FIFOs. */
  lemma ServerLeavesClients(s: State, c: nat)
    requires ServerEnabled(s) && c < |s.clients|
    ensures var s' := ApplyServer(s);
            && |s'.clients| == |s.clients|
            && s'.clients[c] == s.clients[c].(fifo := s'.clients[c].fifo)
  {
  }

  lemma ServerStepKeepsTurns(s: State)
    requires TurnsOk(s) && ServerEnabled(s)
    ensures TurnsOk(ApplyServer(s))
  {
    var s' := ApplyServer(s);
    assert s'.arrived == s.arrived;
    forall k | 0 <= k < |s'.arrived|
      ensures var c := s'.arrived[k].client;
              c < |s'.clients| && s'.clients[c].turn == k && HasAsked(s'.clients[c].phase)
    {
      ServerLeavesClients(s, s.arrived[k].client);
    }
  }

  lemma ServerStepKeepsStart(s: State)
    requires BooksOk(s) && StartOk(s) && ServerEnabled(s)
    ensures StartOk(ApplyServer(s))
  {
    var s' := ApplyServer(s);
    forall c | 0 <= c < |s'.clients|
      ensures var phase := s'.clients[c].phase;
              && (Connects(phase) || phase.Finished? ==> s'.writerCame && !s'.server.Begin?)
              && (phase.Connected? ==> !s'.server.Begin? && !s'.server.Made?)
    {
      ServerLeavesClients(s, c);
    }
  }

  lemma ServerStepKeepsMishaps(s: State)
    requires Inv(s) && ServerEnabled(s)
    ensures ApplyServer(s).mishaps <= s.mishaps + (if s.dummy then {} else {ServerEof})
  {
    if Serves(s.server) {
      AtHand(s, s.server.req);
      assert ClientOk(s, s.server.req.client);
      ServingKeepsOwn(s);
    }
  }

  lemma ServerKeepsConstants(s: State)
    requires ServerEnabled(s)
    ensures ApplyServer(s).dummy == s.dummy && |ApplyServer(s).clients| == |s.clients|
  {
  }

  lemma ServerStepKeepsInv(s: State)
    requires Inv(s) && ServerEnabled(s)
    ensures Inv(ApplyServer(s))
  {
    ServerStepKeepsBooks(s);
    ServerStepKeepsTurns(s);
    ServerStepKeepsStart(s);
    ServerStepKeepsMishaps(s);
    if Serves(s.server) {
      ServingKeepsClients(s);
    } else {
      QuietStepKeepsClients(s);
    }
    ServerKeepsConstants(s);
  }

  // Progress.

  /** A read of the server's own FIFO that returns end of file. */
  predicate ReadsEof(s: State, step: Step) {
    step == ServerStep && s.server == Idle && s.queue == []
  }

  /** The steps still to come on behalf of one client. */
  function ClientCost(phase: ClientPhase): nat {
    match phase
    case Unborn => 13
    case Ready => 12
    case OpeningServer => 11
    case Connected => 10
    case Requested => 3
    case OpeningReply => 2
    case Reading => 1
    case _ => 0
  }

  function ServerCost(server: ServerPhase): nat {
    match server
    case Begin => 4
    case Made => 3
    case OpeningRead => 2
    case NeedDummy => 1
    case Idle => 0
    case Busy(at, _) =>
      match at case Received => 5 case Opening => 4 case Opened => 3 case Written => 2 case Closed => 1
  }

  function Costs(clients: seq<Client>): nat {
    if clients == [] then 0 else Costs(clients[..|clients| - 1]) + ClientCost(clients[|clients| - 1].phase)
  }

  lemma {:induction false} CostsUpdate(clients: seq<Client>, c: nat, client: Client)
    requires c < |clients|
    ensures Costs(clients[c := client]) == Costs(clients) - ClientCost(clients[c].phase) + ClientCost(client.phase)
  {
    var n := |clients| - 1;
    if c < n {
      CostsUpdate(clients[..n], c, client);
      assert clients[c := client][..n] == clients[..n][c := client];
    } else {
      assert clients[c := client][..n] == clients[..n];
    }
  }

  function Work(s: State): nat {
    Costs(s.clients) + 6 * |s.queue| + ServerCost(s.server)
  }

  lemma ClientStepWorks(s: State, c: nat)
    requires ClientEnabled(s, c)
    ensures Work(ApplyClient(s, c)) < Work(s)
  {
    CostsUpdate(s.clients, c, ApplyClient(s, c).clients[c]);
  }

  lemma ServerStepWorks(s: State)
    requires ServerEnabled(s) && !ReadsEof(s, ServerStep)
    ensures Work(ApplyServer(s)) < Work(s)
  {
    if Serves(s.server) {
      var c := s.server.req.client;
      var client := ApplyServer(s).clients[c];
      ServerLeavesClients(s, c);
      CostsUpdate(s.clients, c, client);
      assert ApplyServer(s).clients == s.clients[c := client];
    }
  }

  predicate Done(phase: ClientPhase) {
    phase.Finished? || phase.Failed?
  }

  /** All clients are done, and the server waits for the next one. */
  ghost predicate AtRest(s: State) {
    && (forall c :: 0 <= c < |s.clients| ==> Done(s.clients[c].phase))
    && ((s.server == OpeningRead && !s.writerCame) || (s.server == Idle && s.queue == []))
  }

  lemma ClientCanMove(s: State, c: nat)
    requires Inv(s) && c < |s.clients| && !Done(s.clients[c].phase)
    requires (s.server == OpeningRead && !s.writerCame) || (s.server == Idle && s.queue == [])
    ensures ClientEnabled(s, c)
  {
    assert ClientOk(s, c);
    if s.server == Idle {
      assert s.arrived[|s.starts|..] == [];
    }
  }

  /** The client whose FIFO the server waits to open can come to meet it. */
  lemma CanMeet(s: State)
    requires Inv(s) && s.server.Busy? && s.server.at == Opening
    ensures ServerEnabled(s) || ClientEnabled(s, s.server.req.client)
  {
    AtHand(s, s.server.req);
    assert ClientOk(s, s.server.req.client);
  }

  /** Unless everyone is at rest, someone can take a step. */
  lemma SomeoneCanMove(s: State) returns (step: Step)
    requires Inv(s) && !AtRest(s)
    ensures Enabled(s, step) && !ReadsEof(s, step)
  {
    if (s.server == OpeningRead && !s.writerCame) || (s.server == Idle && s.queue == []) {
      var c :| 0 <= c < |s.clients| && !Done(s.clients[c].phase);
      ClientCanMove(s, c);
      step := ClientStep(c);
    } else if s.server.Busy? {
      AtHand(s, s.server.req);
      if s.server.at == Opening {
        CanMeet(s);
        step := if ServerEnabled(s) then ServerStep else ClientStep(s.server.req.client);
      } else {
        step := ServerStep;
      }
    } else {
      step := ServerStep;
    }
  }

  // Whole runs.

  ghost predicate HasLens(s: State, lens: seq<int>) {
    |s.clients| == |lens| && forall c :: 0 <= c < |lens| ==> s.clients[c].seqLen == lens[c]
  }

  lemma StepKeepsLens(s: State, step: Step, lens: seq<int>)
    requires HasLens(s, lens) && Enabled(s, step)
    ensures HasLens(Apply(s, step), lens) && Apply(s, step).dummy == s.dummy
  {
    match step
    case ClientStep(c) => ClientKeepsConstants(s, c);
    case ServerStep =>
      ServerKeepsConstants(s);
      forall c | 0 <= c < |lens|
        ensures ApplyServer(s).clients[c].seqLen == lens[c]
      {
        ServerLeavesClients(s, c);
      }
  }

  lemma StepKeepsInv(s: State, step: Step)
    requires Inv(s) && Enabled(s, step)
    ensures Inv(Apply(s, step))
    ensures !ReadsEof(s, step) ==> Work(Apply(s, step)) < Work(s)
  {
    match step
    case ClientStep(c) =>
      ClientStepKeepsInv(s, c);
      ClientStepWorks(s, c);
    case ServerStep =>
      ServerStepKeepsInv(s);
      if !ReadsEof(s, step) {
        ServerStepWorks(s);
      }
  }

  lemma StartKeepsInv(lens: seq<int>, dummy: bool)
    ensures Inv(Start(lens, dummy)) && HasLens(Start(lens, dummy), lens)
  {
  }

  lemma RunKeepsInv(lens: seq<int>, dummy: bool, run: seq<State>)
    requires IsRun(Start(lens, dummy), Next, run)
    ensures Inv(Last(run)) && HasLens(Last(run), lens) && Last(run).dummy == dummy
  {
    var inv := (s: State) => Inv(s) && HasLens(s, lens) && s.dummy == dummy;
    StartKeepsInv(lens, dummy);
    forall s, s' | inv(s) && Next(s, s')
      ensures inv(s')
    {
      var step :| Enabled(s, step) && s' == Apply(s, step);
      StepKeepsInv(s, step);
      StepKeepsLens(s, step, lens);
    }
    Invariant(Start(lens, dummy), Next, inv, run);
  }

  /**
   A client that has finished got the answer to its own request: the sum of the lengths that were
   asked for before it, in the order in which the requests arrived.
   */
  lemma AnswerIsOwn(lens: seq<int>, dummy: bool, run: seq<State>, c: nat)
    requires IsRun(Start(lens, dummy), Next, run)
    requires c < |lens| == |Last(run).clients| && Last(run).clients[c].phase.Finished?
    ensures var s := Last(run);
            var turn := s.clients[c].turn;
            && turn < |s.arrived|
            && s.arrived[turn] == Request(c, lens[c])
            && (forall k :: 0 <= k < |s.arrived| && s.arrived[k].client == c ==> k == turn)
            && s.clients[c].phase.answer == Sum(Lengths(s.arrived[..turn]))
  {
    RunKeepsInv(lens, dummy, run);
    assert ClientOk(Last(run), c);
  }

  lemma AskedNonNegative(s: State, lens: seq<int>)
    requires TurnsOk(s) && ClientsOk(s) && HasLens(s, lens) && NonNegative(lens)
    ensures NonNegative(Lengths(s.arrived))
  {
    forall k | 0 <= k < |s.arrived|
      ensures 0 <= Lengths(s.arrived)[k]
    {
      assert ClientOk(s, s.arrived[k].client);
    }
  }

  /** Any two clients that have finished got disjoint ranges of numbers. */
  lemma AnswersAreDisjoint(lens: seq<int>, dummy: bool, run: seq<State>, c: nat, d: nat)
    requires IsRun(Start(lens, dummy), Next, run) && NonNegative(lens)
    requires c < |lens| && d < |lens| && c != d && |Last(run).clients| == |lens|
    requires Last(run).clients[c].phase.Finished? && Last(run).clients[d].phase.Finished?
    ensures var a, b := Last(run).clients[c].phase.answer, Last(run).clients[d].phase.answer;
            a + lens[c] <= b || b + lens[d] <= a
  {
    var s := Last(run);
    RunKeepsInv(lens, dummy, run);
    AnswerIsOwn(lens, dummy, run, c);
    AnswerIsOwn(lens, dummy, run, d);
    var i, j := s.clients[c].turn, s.clients[d].turn;
    var asked := Lengths(s.arrived);
    AskedNonNegative(s, lens);
    assert asked[..i] == Lengths(s.arrived[..i]) && asked[..j] == Lengths(s.arrived[..j]);
    TileAt(asked, 0, i);
    TileAt(asked, 0, j);
    if i < j {
      TileOrdered(asked, 0, i, j);
    } else {
      TileOrdered(asked, 0, j, i);
    }
  }

  /**
   In every run the client's FIFO is there when the server opens it, the reader is there when it writes,
   no client reads end of file, and the server never does either, since it holds its own FIFO open.
   */
  lemma NothingGoesWrong(lens: seq<int>, run: seq<State>)
    requires IsRun(Start(lens, true), Next, run)
    ensures Last(run).mishaps == {}
    ensures forall c :: 0 <= c < |Last(run).clients| ==> Last(run).clients[c].phase != Failed(NoReply)
  {
    RunKeepsInv(lens, true, run);
    forall c | 0 <= c < |Last(run).clients|
      ensures Last(run).clients[c].phase != Failed(NoReply)
    {
      assert ClientOk(Last(run), c);
    }
  }

  /** There is no deadlock: unless all are at rest, some process can take a step. */
  lemma NeverStuck(lens: seq<int>, dummy: bool, run: seq<State>)
    requires IsRun(Start(lens, dummy), Next, run)
    ensures AtRest(Last(run)) || exists step :: Enabled(Last(run), step)
  {
    RunKeepsInv(lens, dummy, run);
    if !AtRest(Last(run)) {
      var step := SomeoneCanMove(Last(run));
    }
  }

  ghost predicate DummyInv(s: State) {
    Inv(s) && s.dummy
  }

  function WorkDone(s: State): int {
    0 - Work(s)
  }

  lemma DummyStep(s: State, step: Step)
    requires DummyInv(s) && Enabled(s, step)
    ensures DummyInv(Apply(s, step)) && WorkDone(s) < WorkDone(Apply(s, step))
  {
    StepKeepsInv(s, step);
    match step
    case ClientStep(c) => ClientKeepsConstants(s, c);
    case ServerStep => ServerKeepsConstants(s);
  }

  /** All runs come to rest: with n clients no run has more than 13n + 4 steps. */
  lemma RunsAreBounded(lens: seq<int>, run: seq<State>)
    requires IsRun(Start(lens, true), Next, run)
    ensures |run| - 1 <= 13 * |lens| + 4
  {
    StartKeepsInv(lens, true);
    forall s, s' | DummyInv(s) && Next(s, s')
      ensures DummyInv(s') && WorkDone(s) < WorkDone(s')
    {
      var step :| Enabled(s, step) && s' == Apply(s, step);
      DummyStep(s, step);
    }
    Bounded(Start(lens, true), Next, DummyInv, WorkDone, run);
    CostsAtStart(Start(lens, true).clients);
  }

  lemma {:induction false} CostsAtStart(clients: seq<Client>)
    requires forall client :: client in clients ==> client.phase == Unborn
    ensures Costs(clients) == 13 * |clients|
  {
    if clients != [] {
      CostsAtStart(clients[..|clients| - 1]);
    }
  }

  /** At rest, every client has its own answer unless it came before the server had made its FIFO. */
  lemma RestMeansAnswered(lens: seq<int>, run: seq<State>, c: nat)
    requires IsRun(Start(lens, true), Next, run) && AtRest(Last(run)) && c < |lens|
    ensures |Last(run).clients| == |lens|
    ensures Last(run).clients[c].phase.Finished? || Last(run).clients[c].phase == Failed(NoServer)
    ensures |Last(run).starts| == |Last(run).arrived|
    ensures Last(run).seqNum == Sum(Lengths(Last(run).arrived))
  {
    RunKeepsInv(lens, true, run);
    assert ClientOk(Last(run), c);
    RestBooks(Last(run));
  }

  lemma RestBooks(s: State)
    requires BooksOk(s) && StartOk(s) && TurnsOk(s) && AtRest(s)
    ensures |s.starts| == |s.arrived| && s.seqNum == Sum(Lengths(s.arrived))
  {
    assert s.arrived != [] ==> HasAsked(s.clients[s.arrived[0].client].phase);
    assert |s.arrived[|s.starts|..]| == 0;
    assert s.arrived[..|s.arrived|] == s.arrived;
  }

  // The server's extra descriptor.

  ghost predicate NoneFailed(s: State) {
    forall c :: 0 <= c < |s.clients| ==> !s.clients[c].phase.Failed?
  }

  lemma ClientStepFailsNone(s: State, c: nat)
    requires ClientEnabled(s, c) && ClientOk(s, c) && NoneFailed(s) && s.server != Begin
    ensures NoneFailed(ApplyClient(s, c)) && ApplyClient(s, c).server == s.server
  {
    if s.clients[c].phase.Reading? {
      ReadFindsReply(s, c);
    }
  }

  lemma ServerStepFailsNone(s: State)
    requires ServerEnabled(s) && NoneFailed(s)
    ensures NoneFailed(ApplyServer(s)) && ApplyServer(s).server != Begin
  {
    ServerKeepsConstants(s);
    forall c | 0 <= c < |s.clients|
      ensures !ApplyServer(s).clients[c].phase.Failed?
    {
      ServerLeavesClients(s, c);
    }
  }

  lemma StepFailsNone(s: State, step: Step)
    requires ClientsOk(s) && Enabled(s, step) && NoneFailed(s) && s.server != Begin
    ensures NoneFailed(Apply(s, step)) && Apply(s, step).server != Begin
  {
    match step
    case ClientStep(c) =>
      assert ClientOk(s, c);
      ClientStepFailsNone(s, c);
    case ServerStep => ServerStepFailsNone(s);
  }

  /** From where the server has made its FIFO, some run serves every client and comes to rest. */
  lemma {:induction false} ServeAll(lens: seq<int>, dummy: bool, run: seq<State>) returns (run': seq<State>)
    requires IsRun(Start(lens, dummy), Next, run) && NoneFailed(Last(run)) && Last(run).server != Begin
    ensures IsRun(Start(lens, dummy), Next, run') && NoneFailed(Last(run')) && AtRest(Last(run'))
    decreases Work(Last(run))
  {
    var s := Last(run);
    RunKeepsInv(lens, dummy, run);
    if AtRest(s) {
      run' := run;
    } else {
      var step := SomeoneCanMove(s);
      StepKeepsInv(s, step);
      StepFailsNone(s, step);
      Extend(Start(lens, dummy), Next, run, Apply(s, step));
      run' := ServeAll(lens, dummy, run + [Apply(s, step)]);
    }
  }

  /** Without its own descriptor for writing, the server reads end of file once its clients have gone. */
  lemma WithoutDummyReadsEof(lens: seq<int>) returns (run: seq<State>)
    requires lens != []
    ensures IsRun(Start(lens, false), Next, run) && ServerEof in Last(run).mishaps
  {
    var start := Start(lens, false);
    run := [start];
    assert Enabled(start, ServerStep);
    Extend(start, Next, run, Apply(start, ServerStep));
    run := ServeAll(lens, false, run + [Apply(start, ServerStep)]);
    var s := Last(run);
    RunKeepsInv(lens, false, run);
    assert Done(s.clients[0].phase);
    assert !HasWriter(s);
    assert Enabled(s, ServerStep);
    Extend(start, Next, run, Apply(s, ServerStep));
    run := run + [Apply(s, ServerStep)];
  }

  /** With any client at all, the server never reads end of file if and only if it opens that descriptor. */
  lemma NeverEofIffDummy(lens: seq<int>, dummy: bool)
    requires lens != []
    ensures (forall run :: IsRun(Start(lens, dummy), Next, run) ==> ServerEof !in Last(run).mishaps) <==> dummy
  {
    if dummy {
      forall run | IsRun(Start(lens, dummy), Next, run)
        ensures ServerEof !in Last(run).mishaps
      {
        NothingGoesWrong(lens, run);
      }
    } else {
      var run := WithoutDummyReadsEof(lens);
    }
  }
}
