/** The sequence number server and client over TCP, from an accepted connection on. */
module TcpSeqnum {
  import opened DecimalText
  import opened Grants
  import opened LineReader
  import opened Lines

  const INT_LEN: nat := 30

  /**
   What the server meets at one accept(): a failure, or a connection with the outcomes of its reads,
   the value atoi() gives if the number does not fit an int, the number of bytes write() takes (-1 if
   it fails), and whether close() succeeds.
   */
  datatype Peer =
    | AcceptFailed
    | Connected(input: seq<Outcome>, overflow: int32, takes: int, closes: bool)

  /** The length a connection asks for, or that its request is skipped. */
  datatype Request = Skipped | Wanted(len: nat)

  /** atoi(); C does not define the result for a number that does not fit an int. */
  function ReadInt(text: seq<byte>, overflow: int32): int32 {
    if INT_MIN <= Atoi(text) <= INT_MAX then Atoi(text) else overflow
  }

  function RequestOf(peer: Peer): Request {
    match peer
    case AcceptFailed => Skipped
    case Connected(input, overflow, _, _) =>
      var scan := ScanLine(input);
      if Returned(scan, INT_LEN) <= 0 then Skipped
      else
        var reqLen := ReadInt(Kept(scan.line, INT_LEN), overflow);
        if reqLen < 0 then Skipped else Wanted(reqLen)
  }

  /** The peer sends the decimal text of a number, on a line of its own. */
  ghost predicate Asks(peer: Peer, i: int32) {
    peer.Connected? && ScanLine(peer.input).line == Decimal(i) + [NEWLINE]
  }

  /** The peer cannot be accepted, sends nothing, or cannot be read. */
  ghost predicate Silent(peer: Peer) {
    peer.Connected? ==> Data(peer.input) == [] || ScanLine(peer.input).ending.AtError?
  }

  lemma {:induction false} NoDataNoLine(pending: seq<Outcome>)
    requires Data(pending) == []
    ensures ScanLine(pending).line == []
  {
    if pending != [] {
      NoDataNoLine(pending[1..]);
    }
  }

  /** A line with a number is read whole, as that number. */
  lemma AskedNumber(peer: Peer, i: int32)
    requires Asks(peer, i)
    ensures var scan := ScanLine(peer.input);
            Returned(scan, INT_LEN) > 0 && Atoi(Kept(scan.line, INT_LEN)) == i
  {
    DecimalFits(i);
    AtoiReadsDecimal(i, [NEWLINE]);
    NewlineIsLast(peer.input);
    var line := ScanLine(peer.input).line;
    assert line[|line| - 1] == NEWLINE;
  }

  /** Which peers are skipped, and what the others are granted. */
  lemma RequestIs(peer: Peer)
    ensures Silent(peer) ==> RequestOf(peer) == Skipped
    ensures forall i: int32 :: Asks(peer, i) ==> RequestOf(peer) == if i < 0 then Skipped else Wanted(i)
  {
    if peer.Connected? && Data(peer.input) == [] {
      NoDataNoLine(peer.input);
    }
    forall i: int32 | Asks(peer, i)
      ensures RequestOf(peer) == if i < 0 then Skipped else Wanted(i)
    {
      AskedNumber(peer, i);
    }
  }

  /** The bytes that get through a write() of `data`. */
  function Written(data: seq<byte>, takes: int): seq<byte> {
    if takes < 0 then [] else if takes < |data| then data[..takes] else data
  }

  /** What gets through is from the start of the data, and as much as write() takes. */
  lemma WrittenIsPrefix(data: seq<byte>, takes: int)
    ensures Written(data, takes) <= data
    ensures |Written(data, takes)| == if takes < 0 then 0 else if takes < |data| then takes else |data|
  {
  }

  /** A request that is granted: its length, and what write() takes of the reply. */
  datatype Job = Job(len: nat, takes: int)

  /** The requests granted. The server exits when it cannot close a connection that it has served. */
  function Granted(peers: seq<Peer>): seq<Job> {
    if peers == [] then []
    else match RequestOf(peers[0])
      case Skipped => Granted(peers[1..])
      case Wanted(len) =>
        [Job(len, peers[0].takes)] + if peers[0].closes then Granted(peers[1..]) else []
  }

  function Lengths(jobs: seq<Job>): (lens: seq<int>)
    ensures |lens| == |jobs|
    ensures forall i :: 0 <= i < |jobs| ==> lens[i] == jobs[i].len
  {
    seq(|jobs|, i requires 0 <= i < |jobs| => jobs[i].len)
  }

  /** A server's counter, the grants it has made, and what it has written back for each. */
  datatype Books = Books(counter: uint32, grants: seq<Grant>, sent: seq<seq<byte>>)

  function Serve(books: Books, job: Job): Books {
    Books(Wrap(books.counter + job.len),
          books.grants + [Grant(books.counter, job.len)],
          books.sent + [Written(CounterLine(books.counter), job.takes)])
  }

  function Serving(jobs: seq<Job>, initial: uint32): Books {
    if jobs == [] then Books(initial, [], [])
    else Serve(Serving(jobs[..|jobs| - 1], initial), jobs[|jobs| - 1])
  }

  lemma ServingSnoc(
      jobs: seq<Job>, initial: uint32, start: uint32, grants: seq<Grant>, sent: seq<seq<byte>>,
      len: nat, takes: int, counter: uint32, reply: seq<byte>)
    requires Books(start, grants, sent) == Serving(jobs, initial)
    requires counter == Wrap(start + len)
    requires reply == Written(CounterLine(start), takes)
    ensures Books(counter, grants + [Grant(start, len)], sent + [reply])
         == Serving(jobs + [Job(len, takes)], initial)
  {
    var longer := jobs + [Job(len, takes)];
    assert longer[..|longer| - 1] == jobs && longer[|longer| - 1] == Job(len, takes);
    assert Serving(longer, initial) == Serve(Books(start, grants, sent), Job(len, takes));
  }

  /** The counter has moved on by the sum of the lengths granted; each grant starts where the last one ended. */
  lemma {:induction false} ServingTiles(jobs: seq<Job>, initial: uint32)
    ensures var books, lens := Serving(jobs, initial), Lengths(jobs);
            && books.counter == Wrap(initial + Sum(lens))
            && books.grants == OnCircle(Tile(lens, initial))
  {
    if jobs != [] {
      var init, job := jobs[..|jobs| - 1], jobs[|jobs| - 1];
      ServingTiles(init, initial);
      assert jobs == init + [job];
      LengthsSnoc(init, job);
      ServeTiles(Serving(init, initial), Lengths(init), job, initial);
    }
  }

  lemma ServeTiles(books: Books, lens: seq<int>, job: Job, initial: uint32)
    requires books.counter == Wrap(initial + Sum(lens)) && books.grants == OnCircle(Tile(lens, initial))
    ensures Serve(books, job).counter == Wrap(initial + Sum(lens + [job.len]))
    ensures Serve(books, job).grants == OnCircle(Tile(lens + [job.len], initial))
  {
    TilesSnoc(lens, job.len, initial);
  }

  lemma LengthsSnoc(jobs: seq<Job>, job: Job)
    ensures Lengths(jobs + [job]) == Lengths(jobs) + [job.len]
  {
  }

  lemma TilesSnoc(lens: seq<int>, len: int, initial: uint32)
    ensures Wrap(initial + Sum(lens + [len])) == Wrap(Wrap(initial + Sum(lens)) + len)
    ensures OnCircle(Tile(lens + [len], initial))
         == OnCircle(Tile(lens, initial)) + [Grant(Wrap(initial + Sum(lens)), len)]
  {
    TileSnoc(lens, len, initial);
    OnCircleSnoc(Tile(lens, initial), Grant(initial + Sum(lens), len));
    WrapAdd(initial + Sum(lens), len);
  }

  /** Each reply is what gets through of the line for the start of its grant. */
  lemma {:induction false} RepliesMatchGrants(jobs: seq<Job>, initial: uint32, k: nat)
    requires k < |jobs|
    ensures var books := Serving(jobs, initial);
            && |books.sent| == |books.grants| == |jobs|
            && 0 <= books.grants[k].start < MODULUS
            && books.sent[k] == Written(CounterLine(books.grants[k].start), jobs[k].takes)
  {
    var init := jobs[..|jobs| - 1];
    if k < |init| {
      RepliesMatchGrants(init, initial, k);
    } else if init != [] {
      RepliesMatchGrants(init, initial, k - 1);
    }
  }

  /** With `jobs` served and the peers from `i` on still to come, if the server runs on. */
  ghost predicate WillServe(peers: seq<Peer>, i: nat, running: bool, jobs: seq<Job>) {
    i <= |peers| && Granted(peers) == jobs + (if running then Granted(peers[i..]) else [])
  }

  lemma WillServeStep(peers: seq<Peer>, i: nat, jobs: seq<Job>)
    requires i < |peers| && WillServe(peers, i, true, jobs)
    ensures RequestOf(peers[i]).Skipped? ==> WillServe(peers, i + 1, true, jobs)
    ensures RequestOf(peers[i]).Wanted? ==>
              WillServe(peers, i + 1, peers[i].closes, jobs + [Job(RequestOf(peers[i]).len, peers[i].takes)])
  {
    var peer := peers[i];
    assert peers[i..][0] == peer && peers[i..][1..] == peers[i + 1..];
    if RequestOf(peer).Wanted? {
      var job, rest := Job(RequestOf(peer).len, peer.takes), if peer.closes then Granted(peers[i + 1..]) else [];
      assert jobs + ([job] + rest) == jobs + [job] + rest;
    }
  }

  lemma WillServeDone(peers: seq<Peer>, i: nat, running: bool, jobs: seq<Job>)
    requires WillServe(peers, i, running, jobs) && (i == |peers| || !running)
    ensures Granted(peers) == jobs
  {
    assert jobs + [] == jobs;
  }

  // Which peers a run serves.

  /** Every connection so far could be closed. */
  predicate AllClose(peers: seq<Peer>) {
    forall i :: 0 <= i < |peers| && peers[i].Connected? ==> peers[i].closes
  }

  lemma {:induction false} GrantedConcat(before: seq<Peer>, after: seq<Peer>)
    requires AllClose(before)
    ensures Granted(before + after) == Granted(before) + Granted(after)
  {
    if before == [] {
      assert before + after == after && [] + Granted(after) == Granted(after);
    } else {
      assert (before + after)[0] == before[0] && (before + after)[1..] == before[1..] + after;
      GrantedConcat(before[1..], after);
      if RequestOf(before[0]).Wanted? {
        Regroup([Job(RequestOf(before[0]).len, before[0].takes)], Granted(before[1..]), Granted(after));
      }
    }
  }

  lemma GrantedCons(peer: Peer, after: seq<Peer>)
    ensures var job := if RequestOf(peer).Wanted? then [Job(RequestOf(peer).len, peer.takes)] else [];
            Granted([peer] + after) == job + if job == [] || peer.closes then Granted(after) else []
  {
    assert ([peer] + after)[0] == peer && ([peer] + after)[1..] == after;
    assert [] + Granted(after) == Granted(after);
  }

  lemma {:induction false} SkippedAddsNothing(before: seq<Peer>, peer: Peer, after: seq<Peer>)
    requires RequestOf(peer) == Skipped
    ensures Granted(before + [peer] + after) == Granted(before + after)
  {
    if before == [] {
      GrantedCons(peer, after);
      assert before + [peer] + after == [peer] + after && before + after == after;
    } else {
      var first, rest := before[0], before[1..];
      SkippedAddsNothing(rest, peer, after);
      GrantedCons(first, rest + [peer] + after);
      GrantedCons(first, rest + after);
      assert before + [peer] + after == [first] + (rest + [peer] + after);
      assert before + after == [first] + (rest + after);
    }
  }

  /**
   A peer that is silent or asks for a negative length may as well not have come: the counter, the
   grants and the replies of a run are the same without it.
   */
  lemma SkippedPeersChangeNothing(before: seq<Peer>, peer: Peer, after: seq<Peer>, i: int32, initial: uint32)
    requires Silent(peer) || (Asks(peer, i) && i < 0)
    ensures Serving(Granted(before + [peer] + after), initial) == Serving(Granted(before + after), initial)
  {
    RequestIs(peer);
    SkippedAddsNothing(before, peer, after);
  }

  /**
   A peer that asks for a length of zero or more is granted it, after those that came before, and the
   ones after it are served unless its connection cannot be closed.
   */
  lemma OtherPeersAreGranted(before: seq<Peer>, peer: Peer, after: seq<Peer>, i: int32)
    requires AllClose(before) && Asks(peer, i) && 0 <= i
    ensures Granted(before + [peer] + after)
         == Granted(before) + [Job(i, peer.takes)] + (if peer.closes then Granted(after) else [])
  {
    RequestIs(peer);
    GrantedConcat(before, [peer] + after);
    GrantedCons(peer, after);
    assert before + [peer] + after == before + ([peer] + after);
    Regroup(Granted(before), [Job(i, peer.takes)], if peer.closes then Granted(after) else []);
  }

  lemma Regroup(a: seq<Job>, b: seq<Job>, c: seq<Job>)
    ensures a + (b + c) == a + b + c
  {
  }

  /** A peer is sent nothing, and neither the counter nor the server is affected. */
  predicate PassedOver(sent: seq<byte>, running: bool, before: uint32, after: uint32) {
    running && sent == [] && after == before
  }

  /** A peer is granted `len` numbers from the counter on, and sent as much of its line as write() takes. */
  predicate Served(peer: Peer, len: nat, sent: seq<byte>, running: bool, before: uint32, after: uint32) {
    && peer.Connected?
    && running == peer.closes
    && sent == Written(CounterLine(before), peer.takes)
    && after == Wrap(before + len)
  }

  class SeqnumServer {
    var seqNum: uint32
    const reqLenStr: array<byte>
    const seqNumStr: array<byte>

    ghost predicate Valid() {
      reqLenStr.Length == INT_LEN && seqNumStr.Length == INT_LEN && reqLenStr != seqNumStr
    }

    constructor (initial: int32)
      ensures Valid() && fresh(reqLenStr) && fresh(seqNumStr)
      ensures seqNum == Wrap(initial)
    {
      seqNum := Wrap(initial);
      reqLenStr := new byte[INT_LEN];
      seqNumStr := new byte[INT_LEN];
    }

    /** The call of snprintf() that prints the counter with "%d\n": nothing is cut off. */
    method FormatCounter()
      requires Valid()
      modifies seqNumStr
      ensures CString(seqNumStr[..]) == CounterLine(seqNum)
    {
      var line := CounterLine(seqNum);
      Snprintf(seqNumStr, line);
      CounterLineDenotesCounter(seqNum);
      CStringStops(line, seqNumStr[..][|line| + 1..]);
      assert seqNumStr[..] == line + [NUL] + seqNumStr[..][|line| + 1..];
    }

    /** The body of the accept loop. */
    method Exchange(peer: Peer) returns (request: Request, sent: seq<byte>, running: bool)
      requires Valid()
      modifies this, reqLenStr, seqNumStr
      ensures request == RequestOf(peer)
      ensures if request.Skipped? then PassedOver(sent, running, old(seqNum), seqNum)
              else Served(peer, request.len, sent, running, old(seqNum), seqNum)
    {
      if peer.AcceptFailed? {
        return Skipped, [], true;
      }
      var cfd := new Descriptor(peer.input);
      var numRead, _ := ReadLine(cfd, reqLenStr, INT_LEN);
      if numRead <= 0 {
        return Skipped, [], true;
      }
      ghost var kept := Kept(ScanLine(peer.input).line, INT_LEN);
      assert Atoi(reqLenStr[..]) == Atoi(kept) by {
        assert reqLenStr[..] == kept + [NUL] + reqLenStr[..][|kept| + 1..];
        AtoiStopsAtNul(kept, reqLenStr[..][|kept| + 1..]);
      }
      var reqLen := ReadInt(reqLenStr[..], peer.overflow);
      if reqLen < 0 {
        return Skipped, [], true;
      }
      FormatCounter();
      request := Wanted(reqLen);
      sent := Written(CString(seqNumStr[..]), peer.takes);
      seqNum := Wrap(seqNum + reqLen);
      running := peer.closes;
    }

    /**
     Serves one peer. One that is silent or asks for a negative length is sent nothing and changes
     nothing. Any other is sent the line for the counter, as far as write() takes it, and the counter
     moves on by the length asked for, even if the write fails. What is asked for is the number that
     the line, cut to the buffer, starts with.
     */
    method ServePeer(peer: Peer) returns (request: Request, sent: seq<byte>, running: bool)
      requires Valid()
      modifies this, reqLenStr, seqNumStr
      ensures request == RequestOf(peer)
      ensures if request.Skipped? then PassedOver(sent, running, old(seqNum), seqNum)
              else Served(peer, request.len, sent, running, old(seqNum), seqNum)
      ensures Silent(peer) ==> PassedOver(sent, running, old(seqNum), seqNum)
      ensures peer.Connected? ==>
                var scan := ScanLine(peer.input);
                var number := Atoi(Kept(scan.line, INT_LEN));
                !scan.ending.AtError? && scan.line != [] && INT_MIN <= number <= INT_MAX ==>
                  if number < 0 then PassedOver(sent, running, old(seqNum), seqNum)
                  else Served(peer, number, sent, running, old(seqNum), seqNum)
      ensures forall i: int32 :: Asks(peer, i) ==>
                if i < 0 then PassedOver(sent, running, old(seqNum), seqNum)
                else Served(peer, i, sent, running, old(seqNum), seqNum)
    {
      RequestIs(peer);
      request, sent, running := Exchange(peer);
    }

    /** The accept loop. `grants` and `sent` record what was granted and what was written back. */
    method Run(peers: seq<Peer>) returns (grants: seq<Grant>, sent: seq<seq<byte>>)
      requires Valid()
      modifies this, reqLenStr, seqNumStr
      ensures Valid()
      ensures Books(seqNum, grants, sent) == Serving(Granted(peers), old(seqNum))
    {
      grants, sent := [], [];
      ghost var initial, jobs: seq<Job> := seqNum, [];
      var i, running := 0, true;
      while i < |peers| && running
        invariant WillServe(peers, i, running, jobs)
        invariant Books(seqNum, grants, sent) == Serving(jobs, initial)
      {
        var peer, start := peers[i], seqNum;
        WillServeStep(peers, i, jobs);
        var request, reply;
        request, reply, running := ServePeer(peer);
        if request.Wanted? {
          ServingSnoc(jobs, initial, start, grants, sent, request.len, peer.takes, seqNum, reply);
          jobs := jobs + [Job(request.len, peer.takes)];
          grants, sent := grants + [Grant(start, request.len)], sent + [reply];
        }
        i := i + 1;
      }
      WillServeDone(peers, i, running, jobs);
    }
  }

  lemma {:induction false} GrantedAreInts(peers: seq<Peer>)
    ensures forall job :: job in Granted(peers) ==> job.len <= INT_MAX
  {
    if peers != [] {
      GrantedAreInts(peers[1..]);
    }
  }

  /**
   Over any run of the server, from any counter, the numbers granted to different connections are
   disjoint modulo 2^32 if and only if no more than 2^32 numbers were granted in all. Whether the
   replies got through makes no difference.
   */
  lemma GrantsDisjointIff(peers: seq<Peer>, initial: uint32)
    ensures var jobs := Granted(peers);
            PairwiseDisjoint(Serving(jobs, initial).grants) <==> Sum(Lengths(jobs)) <= MODULUS
  {
    var jobs := Granted(peers);
    GrantedAreInts(peers);
    forall i | 0 <= i < |jobs|
      ensures 0 <= Lengths(jobs)[i] < MODULUS
    {
      assert jobs[i] in jobs;
    }
    ServingTiles(jobs, initial);
    DisjointIffTotalFits(Lengths(jobs), initial);
  }

  // The client, and the exchange between the two.

  /** How the client ends. */
  datatype Answer = WriteFailed | ReadFailed | NoReply | Printed(text: seq<byte>)

  /** The client's half: sends its argument and a newline, each in one write(), and reads the reply. */
  method Ask(arg: seq<byte>, takesArg: int, takesNewline: int, server: Descriptor)
      returns (sent: seq<byte>, answer: Answer)
    modifies server
    ensures var whole := takesArg >= |arg| && takesNewline >= 1;
            && (answer == WriteFailed <==> !whole)
            && (if whole then sent == arg + [NEWLINE] else sent == Written(arg, takesArg) && server.pending == old(server.pending))
    ensures takesArg >= |arg| && takesNewline >= 1 ==>
              var scan := ScanLine(old(server.pending));
              && server.pending == scan.rest
              && (answer == ReadFailed <==> scan.ending.AtError?)
              && (answer == NoReply <==> scan.line == [] && scan.ending == AtEnd)
              && (answer.Printed? ==> answer.text == CString(Kept(scan.line, INT_LEN) + [NUL]))
  {
    sent := Written(arg, takesArg);
    if takesArg < |arg| {
      return sent, WriteFailed;
    }
    if takesNewline < 1 {
      return sent, WriteFailed;
    }
    sent := sent + [NEWLINE];
    var seqNumStr := new byte[INT_LEN];
    ghost var scan := ScanLine(server.pending);
    NewlineIsLast(server.pending);
    var numRead, _ := ReadLine(server, seqNumStr, INT_LEN);
    if numRead == -1 {
      return sent, ReadFailed;
    }
    if numRead == 0 {
      return sent, NoReply;
    }
    CStringIgnoresTail(Kept(scan.line, INT_LEN), seqNumStr[..][|Kept(scan.line, INT_LEN)| + 1..]);
    assert seqNumStr[..] == Kept(scan.line, INT_LEN) + [NUL] + seqNumStr[..][|Kept(scan.line, INT_LEN)| + 1..];
    answer := Printed(CString(seqNumStr[..]));
  }

  lemma {:induction false} CStringIgnoresTail(text: seq<byte>, rest: seq<byte>)
    ensures CString(text + [NUL] + rest) == CString(text + [NUL])
  {
    if text != [] {
      assert (text + [NUL] + rest)[1..] == text[1..] + [NUL] + rest;
      assert (text + [NUL])[1..] == text[1..] + [NUL];
      CStringIgnoresTail(text[1..], rest);
    }
  }

  /** A stream that carries one line and no more is read whole by one call. */
  lemma ReadsOneLine(input: seq<Outcome>, text: seq<byte>)
    requires PlainStream(input) && Data(input) == text + [NEWLINE] && NEWLINE !in text
    ensures ScanLine(input) == Scan(text + [NEWLINE], AtNewline, ScanLine(input).rest)
  {
    var data := text + [NEWLINE];
    ScanPlain(input);
    NewlineIsLast(input);
    var k := FirstLine(data);
    assert forall i :: 0 <= i < |text| ==> data[i] == text[i] && text[i] in text;
    assert k == |data|;
    assert data[..k] == data;
  }

  /** What the client sends for a number reaches the server as that number, however its reads are interrupted. */
  lemma RequestRoundTrip(i: int32, peer: Peer)
    requires peer.Connected?
    requires PlainStream(peer.input) && Data(peer.input) == Decimal(i) + [NEWLINE]
    ensures Asks(peer, i)
    ensures RequestOf(peer) == if i < 0 then Skipped else Wanted(i)
  {
    ReadsOneLine(peer.input, Decimal(i));
    RequestIs(peer);
    assert Asks(peer, i);
  }

  /** What the server writes for its counter is read whole by the client and denotes the counter modulo 2^32. */
  lemma ReplyRoundTrip(counter: uint32, reply: seq<Outcome>)
    requires PlainStream(reply) && Data(reply) == CounterLine(counter)
    ensures var scan := ScanLine(reply);
            && Returned(scan, INT_LEN) == |CounterLine(counter)|
            && CString(Kept(scan.line, INT_LEN) + [NUL]) == CounterLine(counter)
            && Wrap(Atoi(Kept(scan.line, INT_LEN))) == counter
  {
    CounterLineDenotesCounter(counter);
    ReadsOneLine(reply, Decimal(AsInt(counter)));
    CStringStops(CounterLine(counter), []);
    assert CounterLine(counter) + [NUL] + [] == CounterLine(counter) + [NUL];
  }

  /**
   The client does not look for the newline: it takes whatever part of the reply gets through for the
   whole. It prints what was granted if and only if the server's write() took all of the line.
   */
  lemma ReplyWholeIffWritten(counter: uint32, takes: int, reply: seq<Outcome>)
    requires PlainStream(reply) && Data(reply) == Written(CounterLine(counter), takes)
    ensures Kept(ScanLine(reply).line, INT_LEN) == CounterLine(counter) <==> |CounterLine(counter)| <= takes
    ensures 0 < takes ==> Returned(ScanLine(reply), INT_LEN) > 0
  {
    var line, data := CounterLine(counter), Data(reply);
    CounterLineDenotesCounter(counter);
    ScanPlain(reply);
    if |line| <= takes {
      ReplyRoundTrip(counter, reply);
      ReadsOneLine(reply, Decimal(AsInt(counter)));
    } else if data != [] {
      assert |ScanLine(reply).line| == FirstLine(data) < |line|;
    }
  }
}
