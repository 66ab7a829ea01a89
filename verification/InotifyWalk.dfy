/**
 The walk over a buffer of inotify events. A record is a header of four 32-bit words (wd, mask, cookie,
 len), least significant byte first, followed by len bytes of name.
 */
module InotifyWalk {

  type byte = b: int | 0 <= b < 256
  type int32 = i: int | -0x8000_0000 <= i < 0x8000_0000
  type uint32 = i: int | 0 <= i < 0x1_0000_0000

  const HEADER: nat := 16
  const NAME_MAX: nat := 255

  /** 10 * (sizeof(struct inotify_event) + NAME_MAX + 1) */
  const BUF_LEN: nat := 2720

  /** An event. The name carries its terminating NUL and padding, and may be empty. */
  datatype Event = Event(wd: int32, mask: uint32, cookie: uint32, name: seq<byte>)

  // The packed form.

  function Word(w: uint32): (bytes: seq<byte>)
    ensures |bytes| == 4
  {
    [w % 256, w / 256 % 256, w / 65536 % 256, w / 16777216]
  }

  function Value(b0: byte, b1: byte, b2: byte, b3: byte): uint32 {
    b0 + 256 * b1 + 65536 * b2 + 16777216 * b3
  }

  lemma WordRoundTrip(w: uint32)
    ensures var b := Word(w); Value(b[0], b[1], b[2], b[3]) == w
  {
    var q1, q2, q3 := w / 256, w / 65536, w / 16777216;
    assert q2 == q1 / 256 && q3 == q2 / 256;
    assert w == 256 * q1 + w % 256 && q1 == 256 * q2 + q1 % 256 && q2 == 256 * q3 + q2 % 256;
  }

  function Unsigned(i: int32): uint32 {
    if i < 0 then i + 0x1_0000_0000 else i
  }

  function Signed(w: uint32): int32 {
    if w < 0x8000_0000 then w else w - 0x1_0000_0000
  }

  /** What the kernel can pack: a name whose length fits its field. */
  predicate Packable(e: Event) {
    |e.name| < 0x1_0000_0000
  }

  function Record(e: Event): (bytes: seq<byte>)
    requires Packable(e)
    ensures |bytes| == HEADER + |e.name|
  {
    Word(Unsigned(e.wd)) + Word(e.mask) + Word(e.cookie) + Word(|e.name|) + e.name
  }

  ghost predicate AllPackable(events: seq<Event>) {
    forall e :: e in events ==> Packable(e)
  }

  function Pack(events: seq<Event>): seq<byte>
    requires AllPackable(events)
  {
    if events == [] then [] else Record(events[0]) + Pack(events[1..])
  }

  /** The word at an offset of a buffer. */
  function WordAt(buffer: seq<byte>, p: nat): uint32
    requires p + 4 <= |buffer|
  {
    Value(buffer[p], buffer[p + 1], buffer[p + 2], buffer[p + 3])
  }

  /** The event whose record starts at an offset, as the program reads it. */
  function EventAt(buffer: seq<byte>, p: nat): Event
    requires p + HEADER <= |buffer| && p + HEADER + WordAt(buffer, p + 12) <= |buffer|
  {
    var len := WordAt(buffer, p + 12);
    Event(Signed(WordAt(buffer, p)), WordAt(buffer, p + 4), WordAt(buffer, p + 8),
          buffer[p + HEADER..p + HEADER + len])
  }

  lemma WordAtRoundTrip(buffer: seq<byte>, p: nat, w: uint32)
    requires p + 4 <= |buffer| && buffer[p..p + 4] == Word(w)
    ensures WordAt(buffer, p) == w
  {
    var bytes := buffer[p..p + 4];
    assert bytes[0] == buffer[p] && bytes[1] == buffer[p + 1] && bytes[2] == buffer[p + 2] && bytes[3] == buffer[p + 3];
    WordRoundTrip(w);
  }

  lemma Subslice(buffer: seq<byte>, p: nat, i: nat, j: nat)
    requires i <= j <= HEADER && p + HEADER <= |buffer|
    ensures buffer[p..p + HEADER][i..j] == buffer[p + i..p + j]
  {
    var a, b := buffer[p..p + HEADER][i..j], buffer[p + i..p + j];
    assert |a| == |b| && forall k :: 0 <= k < |a| ==> a[k] == b[k];
  }

  lemma HeaderRoundTrip(buffer: seq<byte>, p: nat, e: Event)
    requires Packable(e) && p + HEADER <= |buffer| && buffer[p..p + HEADER] == Record(e)[..HEADER]
    ensures Signed(WordAt(buffer, p)) == e.wd
    ensures WordAt(buffer, p + 4) == e.mask
    ensures WordAt(buffer, p + 8) == e.cookie
    ensures WordAt(buffer, p + 12) == |e.name|
  {
    var header := buffer[p..p + HEADER];
    assert header == Word(Unsigned(e.wd)) + Word(e.mask) + Word(e.cookie) + Word(|e.name|);
    Subslice(buffer, p, 0, 4);
    Subslice(buffer, p, 4, 8);
    Subslice(buffer, p, 8, 12);
    Subslice(buffer, p, 12, 16);
    assert header[0..4] == Word(Unsigned(e.wd)) && header[4..8] == Word(e.mask);
    assert header[8..12] == Word(e.cookie) && header[12..16] == Word(|e.name|);
    WordAtRoundTrip(buffer, p, Unsigned(e.wd));
    WordAtRoundTrip(buffer, p + 4, e.mask);
    WordAtRoundTrip(buffer, p + 8, e.cookie);
    WordAtRoundTrip(buffer, p + 12, |e.name|);
  }

  /** What lies ahead of the cursor is the packed form of some events. */
  ghost predicate Ahead(buffer: seq<byte>, p: nat, end: nat, rest: seq<Event>) {
    p <= end <= |buffer| && AllPackable(rest) && buffer[p..end] == Pack(rest)
  }

  lemma SplitAhead(buffer: seq<byte>, p: nat, end: nat, rest: seq<Event>)
    requires Ahead(buffer, p, end, rest) && p < end
    ensures rest != []
    ensures var next := p + |Record(rest[0])|;
            && next <= end
            && buffer[p..next] == Record(rest[0])
            && Ahead(buffer, next, end, rest[1..])
  {
    var record, later := Record(rest[0]), Pack(rest[1..]);
    var ahead := buffer[p..end];
    assert ahead == record + later;
    assert buffer[p..p + |record|] == ahead[..|record|] == record;
    assert buffer[p + |record|..end] == ahead[|record|..] == later;
  }

  /** With records still ahead, the cursor is at the start of one, and past it the others begin. */
  lemma StepOver(buffer: seq<byte>, p: nat, end: nat, rest: seq<Event>)
    requires Ahead(buffer, p, end, rest) && p < end
    ensures rest != [] && p + HEADER <= end && p + HEADER + WordAt(buffer, p + 12) <= end
    ensures EventAt(buffer, p) == rest[0]
    ensures Ahead(buffer, p + HEADER + |rest[0].name|, end, rest[1..])
  {
    SplitAhead(buffer, p, end, rest);
    var e, record := rest[0], buffer[p..p + |Record(rest[0])|];
    assert buffer[p..p + HEADER] == record[..HEADER];
    HeaderRoundTrip(buffer, p, e);
    assert buffer[p + HEADER..p + HEADER + |e.name|] == record[HEADER..] == e.name;
  }

  /** Where the record of the i-th event starts. */
  function StartOf(packed: seq<Event>, i: nat): nat
    requires i <= |packed|
  {
    if i == 0 then 0 else StartOf(packed, i - 1) + HEADER + |packed[i - 1].name|
  }

  /** Records start where the packed form of the events before them ends. */
  lemma {:induction false} StartOfIsPackedLength(packed: seq<Event>, i: nat)
    requires AllPackable(packed) && i <= |packed|
    ensures StartOf(packed, i) == |Pack(packed[..i])|
  {
    if i == 0 {
      assert packed[..0] == [];
    } else {
      StartOfIsPackedLength(packed, i - 1);
      PackSnoc(packed, i - 1);
    }
  }

  /** The cursor is at the start of the k-th record, and the rest lie ahead. */
  ghost predicate Cursor(data: seq<byte>, p: nat, end: nat, packed: seq<Event>, k: nat) {
    k <= |packed| && p == StartOf(packed, k) && Ahead(data, p, end, packed[k..])
  }

  /** Reads the record at the cursor and moves the cursor past it. */
  method ReadRecord(data: seq<byte>, p: nat, ghost end: nat, ghost packed: seq<Event>, ghost k: nat)
      returns (event: Event, next: nat)
    requires p < end && Cursor(data, p, end, packed, k)
    ensures k < |packed| && event == packed[k]
    ensures p < next <= end && Cursor(data, next, end, packed, k + 1)
  {
    StepOver(data, p, end, packed[k..]);
    assert packed[k..][0] == packed[k] && packed[k..][1..] == packed[k + 1..];
    event := EventAt(data, p);
    next := p + HEADER + |event.name|;
  }

  /** The first so many events have been read, each from where its record starts. */
  ghost predicate ReadSoFar(events: seq<Event>, offsets: seq<int>, packed: seq<Event>) {
    && |offsets| == |events| <= |packed|
    && forall i :: 0 <= i < |events| ==> events[i] == packed[i] && offsets[i] == StartOf(packed, i)
  }

  lemma ReadMore(events: seq<Event>, offsets: seq<int>, packed: seq<Event>, p: int)
    requires ReadSoFar(events, offsets, packed) && |events| < |packed| && p == StartOf(packed, |events|)
    ensures ReadSoFar(events + [packed[|events|]], offsets + [p], packed)
  {
  }

  /**
   The walk over what one read() put into the buffer, which the kernel promises to be whole records.
   It recovers them all, in order, visiting the start of each once, and stops at numRead.
   */
  method Walk(buf: array<byte>, numRead: nat, ghost packed: seq<Event>)
      returns (events: seq<Event>, offsets: seq<int>, stop: nat)
    requires numRead <= buf.Length
    requires AllPackable(packed) && buf[..numRead] == Pack(packed)
    ensures events == packed && stop == numRead
    ensures |offsets| == |packed|
    ensures forall i :: 0 <= i < |packed| ==> offsets[i] == StartOf(packed, i)
  {
    var data := buf[..];
    events, offsets := [], [];
    var p: nat := 0;
    CursorStart(data, numRead, packed);
    while p < numRead
      invariant p <= numRead && Cursor(data, p, numRead, packed, |events|)
      invariant ReadSoFar(events, offsets, packed)
      decreases numRead - p
    {
      var event, next := ReadRecord(data, p, numRead, packed, |events|);
      ReadMore(events, offsets, packed, p);
      events, offsets, p := events + [event], offsets + [p], next;
    }
    CursorEnd(data, p, packed, |events|);
    assert events == packed;
    stop := p;
  }

  lemma CursorStart(data: seq<byte>, end: nat, packed: seq<Event>)
    requires end <= |data| && AllPackable(packed) && data[..end] == Pack(packed)
    ensures Cursor(data, 0, end, packed, 0)
  {
    assert data[0..end] == data[..end] && packed[0..] == packed;
  }

  lemma CursorEnd(data: seq<byte>, p: nat, packed: seq<Event>, k: nat)
    requires Cursor(data, p, p, packed, k)
    ensures k == |packed|
  {
    NothingAhead(data, p, packed[k..]);
  }

  lemma NothingAhead(buffer: seq<byte>, p: nat, rest: seq<Event>)
    requires Ahead(buffer, p, p, rest)
    ensures rest == []
  {
    assert |buffer[p..p]| == 0;
  }

  lemma {:induction false} PackConcat(a: seq<Event>, b: seq<Event>)
    requires AllPackable(a) && AllPackable(b)
    ensures AllPackable(a + b) && Pack(a + b) == Pack(a) + Pack(b)
  {
    if a == [] {
      assert a + b == b;
    } else {
      assert (a + b)[1..] == a[1..] + b;
      PackConcat(a[1..], b);
    }
  }

  lemma PackSnoc(events: seq<Event>, i: nat)
    requires i < |events| && AllPackable(events)
    ensures |Pack(events[..i + 1])| == |Pack(events[..i])| + HEADER + |events[i].name|
  {
    assert events[..i + 1] == events[..i] + [events[i]];
    PackConcat(events[..i], [events[i]]);
    assert Pack([events[i]]) == Record(events[i]);
  }

  // The reads.

  predicate RecordFits(e: Event) {
    HEADER + |e.name| <= BUF_LEN
  }

  /** The number of events that one read() returns: as many whole records as fit. */
  function Fitting(queue: seq<Event>, room: nat): (n: nat)
    ensures n <= |queue|
    ensures room <= BUF_LEN ==> forall i :: 0 <= i < n ==> RecordFits(queue[i])
    ensures room == BUF_LEN && queue != [] ==> (n == 0 <==> !RecordFits(queue[0]))
  {
    if queue == [] || HEADER + |queue[0].name| > room then 0
    else 1 + Fitting(queue[1..], room - HEADER - |queue[0].name|)
  }

  lemma {:induction false} FittingFits(queue: seq<Event>, room: nat)
    requires AllPackable(queue)
    ensures |Pack(queue[..Fitting(queue, room)])| <= room
  {
    var n := Fitting(queue, room);
    if n > 0 {
      FittingFits(queue[1..], room - HEADER - |queue[0].name|);
      PackHead(queue, n);
    }
  }

  /** No more of them would fit. */
  lemma {:induction false} FittingIsMost(queue: seq<Event>, room: nat)
    requires AllPackable(queue) && Fitting(queue, room) < |queue|
    ensures room < |Pack(queue[..Fitting(queue, room) + 1])|
  {
    var n := Fitting(queue, room);
    if n > 0 {
      FittingIsMost(queue[1..], room - HEADER - |queue[0].name|);
    }
    PackHead(queue, n + 1);
  }

  lemma PackHead(queue: seq<Event>, n: nat)
    requires 0 < n <= |queue| && AllPackable(queue)
    ensures |Pack(queue[..n])| == HEADER + |queue[0].name| + |Pack(queue[1..][..n - 1])|
  {
    assert queue[..n][0] == queue[0] && queue[..n][1..] == queue[1..][..n - 1];
  }

  /** The kernel's read() of an inotify descriptor: fails if not even the first event fits. */
  method Read(queue: seq<Event>, buf: array<byte>) returns (numRead: int, n: nat)
    requires AllPackable(queue) && queue != []
    modifies buf
    ensures n == Fitting(queue, buf.Length)
    ensures numRead == if n == 0 then -1 else |Pack(queue[..n])|
    ensures n > 0 ==> 0 < numRead <= buf.Length && buf[..numRead] == Pack(queue[..n])
  {
    n := Fitting(queue, buf.Length);
    if n == 0 {
      return -1, n;
    }
    FittingFits(queue, buf.Length);
    var bytes := Pack(queue[..n]);
    forall i | 0 <= i < |bytes| {
      buf[i] := bytes[i];
    }
    numRead := |bytes|;
  }

  /** The number of events before the first whose record is too long for the buffer. */
  function FirstTooLong(queue: seq<Event>): (k: nat)
    ensures k <= |queue|
    ensures forall i :: 0 <= i < k ==> RecordFits(queue[i])
    ensures k < |queue| ==> !RecordFits(queue[k])
  {
    if queue == [] || !RecordFits(queue[0]) then 0 else 1 + FirstTooLong(queue[1..])
  }

  /**
   The whole program on a queue of events: reads and walks until the queue is empty or a read fails.
   It sees the events before the first that is too long, and all of them if there is none.
   */
  method Monitor(queue: seq<Event>) returns (seen: seq<Event>, ok: bool)
    requires AllPackable(queue)
    ensures seen == queue[..FirstTooLong(queue)]
    ensures ok <==> seen == queue
  {
    var buf := new byte[BUF_LEN];
    seen := [];
    while |seen| < |queue|
      invariant |seen| <= FirstTooLong(queue) && seen == queue[..|seen|]
      decreases |queue| - |seen|
    {
      var rest := queue[|seen|..];
      var numRead, n := Read(rest, buf);
      if numRead == -1 {
        assert !RecordFits(queue[|seen|]);
        return seen, false;
      }
      var events, _, _ := Walk(buf, numRead, rest[..n]);
      NextTooLong(queue, |seen|, n);
      assert queue[..|seen| + n] == queue[..|seen|] + rest[..n];
      seen := seen + events;
    }
    ok := true;
  }

  lemma NextTooLong(queue: seq<Event>, k: nat, n: nat)
    requires k <= FirstTooLong(queue) && k + n <= |queue|
    requires forall i :: 0 <= i < n ==> RecordFits(queue[k..][i])
    ensures k + n <= FirstTooLong(queue)
  {
    forall i | k <= i < k + n
      ensures RecordFits(queue[i])
    {
      assert queue[i] == queue[k..][i - k];
    }
  }

  /** The program sees every event of a queue if and only if each record fits the buffer. */
  lemma AllSeenIffAllFit(queue: seq<Event>)
    ensures queue[..FirstTooLong(queue)] == queue <==> forall e :: e in queue ==> RecordFits(e)
  {
    var k := FirstTooLong(queue);
    if k < |queue| {
      assert queue[k] in queue && |queue[..k]| < |queue|;
    } else {
      assert queue[..k] == queue;
    }
  }

  /** Names of files do fit: NAME_MAX bytes and a NUL, ten times over. */
  lemma FileNamesFit(e: Event)
    requires |e.name| <= NAME_MAX + 1
    ensures 10 * |Record(e)| <= BUF_LEN
  {
  }

  /** The packed form determines the events. */
  lemma {:induction false} PackInjective(a: seq<Event>, b: seq<Event>)
    requires AllPackable(a) && AllPackable(b) && Pack(a) == Pack(b)
    ensures a == b
  {
    AheadInjective(Pack(a), 0, a, b);
  }

  lemma {:induction false} AheadInjective(buffer: seq<byte>, p: nat, a: seq<Event>, b: seq<Event>)
    requires Ahead(buffer, p, |buffer|, a) && Ahead(buffer, p, |buffer|, b)
    ensures a == b
    decreases |buffer| - p
  {
    if p == |buffer| {
      NothingAhead(buffer, p, a);
      NothingAhead(buffer, p, b);
    } else {
      StepOver(buffer, p, |buffer|, a);
      StepOver(buffer, p, |buffer|, b);
      AheadInjective(buffer, p + HEADER + |a[0].name|, a[1..], b[1..]);
      assert a == [a[0]] + a[1..] && b == [b[0]] + b[1..];
    }
  }
}
