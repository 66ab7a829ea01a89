/** readLine(): reads a descriptor one byte at a time, up to and including a newline. */
module LineReader {

  type byte = b: int | 0 <= b < 256

  const NEWLINE: byte := 10
  const NUL: byte := 0
  const EINTR := 4
  const EINVAL := 22

  /** What one call of read(fd, &ch, 1) can do. */
  datatype Outcome = Byte(ch: byte) | EndOfFile | Failed(errno: int)

  /** A descriptor open for reading. Once `pending` is used up, every further read is at end of file. */
  class Descriptor {
    var pending: seq<Outcome>

    constructor (pending: seq<Outcome>)
      ensures this.pending == pending
    {
      this.pending := pending;
    }

    method Read() returns (outcome: Outcome)
      modifies this
      ensures outcome == if old(pending) == [] then EndOfFile else old(pending)[0]
      ensures pending == if old(pending) == [] then [] else old(pending)[1..]
    {
      if pending == [] {
        outcome := EndOfFile;
      } else {
        outcome, pending := pending[0], pending[1..];
      }
    }
  }

  // What a call reads.

  datatype Ending = AtNewline | AtEnd | AtError(errno: int)

  /** A line, what ended it, and what is left to read. */
  datatype Scan = Scan(line: seq<byte>, ending: Ending, rest: seq<Outcome>)

  function ScanLine(pending: seq<Outcome>): Scan {
    if pending == [] then Scan([], AtEnd, [])
    else
      var rest := pending[1..];
      match pending[0]
      case EndOfFile => Scan([], AtEnd, rest)
      case Failed(errno) => if errno == EINTR then ScanLine(rest) else Scan([], AtError(errno), rest)
      case Byte(ch) =>
        if ch == NEWLINE then Scan([ch], AtNewline, rest)
        else var scan := ScanLine(rest); scan.(line := [ch] + scan.line)
  }

  /** The bytes of a line that fit a buffer of size n beside the terminating NUL. */
  function Kept(line: seq<byte>, n: nat): seq<byte>
    requires n > 0
  {
    if |line| < n then line else line[..n - 1]
  }

  /** The return value of readLine() with a buffer of size n. */
  function Returned(scan: Scan, n: nat): int
    requires n > 0
  {
    if scan.ending.AtError? then -1 else |Kept(scan.line, n)|
  }

  /** The bytes readLine() writes at the start of its buffer. */
  function Stored(scan: Scan, n: nat): seq<byte>
    requires n > 0
  {
    var kept := Kept(scan.line, n);
    if scan.ending.AtError? || (scan.ending.AtEnd? && kept == []) then kept else kept + [NUL]
  }

  /** Writing over the start of a buffer: the bytes past the data stay what they were. */
  function Overwrite(before: seq<byte>, data: seq<byte>): (after: seq<byte>)
    requires |data| <= |before|
    ensures |after| == |before|
  {
    data + before[|data|..]
  }

  lemma {:induction false} NewlineIsRead(pending: seq<Outcome>)
    ensures ScanLine(pending).ending == AtNewline ==> ScanLine(pending).line != []
  {
    if pending != [] {
      NewlineIsRead(pending[1..]);
    }
  }

  /** Byte by byte, what a call leaves in its buffer. */
  lemma StoredByIndex(before: seq<byte>, after: seq<byte>, scan: Scan, n: nat)
    requires 0 < n <= |before| && after == Overwrite(before, Stored(scan, n))
    requires scan.ending == AtNewline ==> scan.line != []
    ensures var stored := if |scan.line| < n then |scan.line| else n - 1;
            && Returned(scan, n) == (if scan.ending.AtError? then -1 else stored)
            && after[..stored] == scan.line[..stored]
            && (Returned(scan, n) > 0 || scan.ending == AtNewline ==> after[stored] == NUL)
            && (Returned(scan, n) <= 0 && scan.ending != AtNewline ==> after[stored] == before[stored])
            && after[stored + 1..] == before[stored + 1..]
    ensures n > 1 && Returned(scan, n) == 0 ==> after == before
  {
  }

  /** With `got` read and `pending` still to come, a call will have read `whole`. */
  ghost predicate WillRead(whole: Scan, got: seq<byte>, pending: seq<Outcome>) {
    var scan := ScanLine(pending);
    whole == Scan(got + scan.line, scan.ending, scan.rest)
  }

  lemma WillReadStep(whole: Scan, got: seq<byte>, pending: seq<Outcome>)
    requires WillRead(whole, got, pending)
    ensures pending == [] ==> whole == Scan(got, AtEnd, [])
    ensures pending != [] ==>
              var rest := pending[1..];
              match pending[0]
              case EndOfFile => whole == Scan(got, AtEnd, rest)
              case Failed(e) =>
                if e == EINTR then WillRead(whole, got, rest) else whole == Scan(got, AtError(e), rest)
              case Byte(ch) =>
                if ch == NEWLINE then whole == Scan(got + [ch], AtNewline, rest)
                else WillRead(whole, got + [ch], rest)
  {
    assert got + [] == got;
    if pending != [] && pending[0].Byte? && pending[0].ch != NEWLINE {
      var ch, line := pending[0].ch, ScanLine(pending[1..]).line;
      assert got + ([ch] + line) == got + [ch] + line;
    }
  }

  /** The buffer holds what is kept of the bytes got so far, `totRead` of them. */
  ghost predicate Filled(before: seq<byte>, after: seq<byte>, got: seq<byte>, n: nat, totRead: nat) {
    0 < n <= |before| && totRead == |Kept(got, n)| && after == Overwrite(before, Kept(got, n))
  }

  lemma FilledStep(before: seq<byte>, after: seq<byte>, got: seq<byte>, n: nat, totRead: nat, ch: byte)
    requires Filled(before, after, got, n, totRead)
    ensures totRead < n <= |after|
    ensures if totRead < n - 1 then Filled(before, after[totRead := ch], got + [ch], n, totRead + 1)
            else Filled(before, after, got + [ch], n, totRead)
  {
    if totRead < n - 1 {
      assert Kept(got, n) == got && Kept(got + [ch], n) == got + [ch];
    } else {
      assert Kept(got + [ch], n) == Kept(got, n);
    }
  }

  lemma FilledEnd(before: seq<byte>, after: seq<byte>, got: seq<byte>, n: nat, totRead: nat, scan: Scan)
    requires Filled(before, after, got, n, totRead) && scan.line == got
    ensures totRead < n <= |after| && |after| == |before|
    ensures Returned(scan, n) == if scan.ending.AtError? then -1 else totRead
    ensures Overwrite(before, Stored(scan, n))
         == if scan.ending.AtError? || (scan.ending == AtEnd && totRead == 0) then after else after[totRead := NUL]
  {
  }

  /** The loop of readLine(), on arguments that are in order. */
  method ReadLoop(fd: Descriptor, buffer: array<byte>, n: nat) returns (result: int, errno: int)
    requires 0 < n <= buffer.Length
    modifies fd, buffer
    ensures var scan := ScanLine(old(fd.pending));
            && result == Returned(scan, n)
            && (scan.ending.AtError? ==> errno == scan.ending.errno)
            && buffer[..] == Overwrite(old(buffer[..]), Stored(scan, n))
            && fd.pending == scan.rest
  {
    errno := 0;
    ghost var before, whole, got := buffer[..], ScanLine(fd.pending), [];
    var totRead := 0;
    while true
      invariant Filled(before, buffer[..], got, n, totRead)
      invariant WillRead(whole, got, fd.pending)
      decreases |fd.pending|
    {
      WillReadStep(whole, got, fd.pending);
      var outcome := fd.Read();
      match outcome {
        case Failed(e) =>
          if e != EINTR {
            FilledEnd(before, buffer[..], got, n, totRead, whole);
            return -1, e;
          }
        case EndOfFile =>
          if totRead == 0 {
            FilledEnd(before, buffer[..], got, n, totRead, whole);
            return 0, errno;
          }
          break;
        case Byte(ch) =>
          FilledStep(before, buffer[..], got, n, totRead, ch);
          got := got + [ch];
          if totRead < n - 1 {
            buffer[totRead] := ch;
            totRead := totRead + 1;
          }
          if ch == NEWLINE {
            break;
          }
      }
    }
    FilledEnd(before, buffer[..], got, n, totRead, whole);
    buffer[totRead] := NUL;
    result := totRead;
  }

  /**
   Reads a line into a buffer of size n: as many of its first bytes as fit beside a NUL are stored, and
   the rest of it is read and dropped. A call that succeeds puts the NUL after them, unless it meets
   the end of file with nothing stored. No other byte of the buffer is written, whatever its length.
   */
  method ReadLine(fd: Descriptor, buffer: array?<byte>, n: nat) returns (result: int, errno: int)
    requires buffer != null ==> n <= buffer.Length
    modifies fd, if buffer == null then {} else {buffer}
    ensures n == 0 || buffer == null ==> result == -1 && errno == EINVAL && fd.pending == old(fd.pending)
    ensures n == 0 && buffer != null ==> buffer[..] == old(buffer[..])
    ensures n > 0 && buffer != null ==>
              var scan, before, after := ScanLine(old(fd.pending)), old(buffer[..]), buffer[..];
              var stored := if |scan.line| < n then |scan.line| else n - 1;
              && result == (if scan.ending.AtError? then -1 else stored)
              && (scan.ending.AtError? ==> errno == scan.ending.errno)
              && fd.pending == scan.rest
              && after[..stored] == scan.line[..stored]
              && (result > 0 || scan.ending == AtNewline ==> after[stored] == NUL)
              && (result <= 0 && scan.ending != AtNewline ==> after[stored] == before[stored])
              && after[stored + 1..] == before[stored + 1..]
    ensures n > 1 && buffer != null && result == 0 ==> buffer[..] == old(buffer[..])
    ensures n > 0 && buffer != null ==>
              var scan := ScanLine(old(fd.pending));
              result == Returned(scan, n) && buffer[..] == Overwrite(old(buffer[..]), Stored(scan, n))
  {
    if n <= 0 || buffer == null {
      return -1, EINVAL;
    }
    ghost var before, whole := buffer[..], ScanLine(fd.pending);
    NewlineIsRead(fd.pending);
    result, errno := ReadLoop(fd, buffer, n);
    StoredByIndex(before, buffer[..], whole, n);
  }
}
