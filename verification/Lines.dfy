/** What readLine() promises about whole streams: interrupts, stopping point, and repeated calls. */
module Lines {
  import opened LineReader

  predicate Interrupt(o: Outcome) {
    o == Failed(EINTR)
  }

  function WithoutInterrupts(pending: seq<Outcome>): (clean: seq<Outcome>)
    ensures forall o :: o in clean ==> !Interrupt(o)
  {
    if pending == [] then []
    else (if Interrupt(pending[0]) then [] else [pending[0]]) + WithoutInterrupts(pending[1..])
  }

  /** Taking the interrupts out leaves everything else as it was, in order. */
  lemma {:induction false} WithoutInterruptsConcat(a: seq<Outcome>, o: Outcome, b: seq<Outcome>)
    ensures WithoutInterrupts(a + [o] + b)
         == WithoutInterrupts(a) + (if Interrupt(o) then [] else [o]) + WithoutInterrupts(b)
  {
    if a == [] {
      assert a + [o] + b == [o] + b && ([o] + b)[1..] == b;
    } else {
      var first := if Interrupt(a[0]) then [] else [a[0]];
      assert (a + [o] + b)[0] == a[0] && (a + [o] + b)[1..] == a[1..] + [o] + b;
      WithoutInterruptsConcat(a[1..], o, b);
      var x, y, z := WithoutInterrupts(a[1..]), if Interrupt(o) then [] else [o], WithoutInterrupts(b);
      assert first + (x + y + z) == first + x + y + z;
    }
  }

  /** The bytes among the outcomes, in order. */
  function Data(pending: seq<Outcome>): seq<byte> {
    if pending == [] then []
    else (if pending[0].Byte? then [pending[0].ch] else []) + Data(pending[1..])
  }

  /** The stream that brings a text, one byte a read. */
  function Bytes(text: seq<byte>): (pending: seq<Outcome>)
    ensures |pending| == |text| && forall i :: 0 <= i < |text| ==> pending[i] == Byte(text[i])
  {
    seq(|text|, i requires 0 <= i < |text| => Byte(text[i]))
  }

  /** A stream that brings a text carries it as its data, wherever its reads are interrupted. */
  lemma {:induction false} DataOfBytes(pending: seq<Outcome>, text: seq<byte>)
    requires WithoutInterrupts(pending) == Bytes(text)
    ensures Data(pending) == text && PlainStream(pending)
    decreases |pending|
  {
    if pending != [] {
      var o, later := pending[0], pending[1..];
      if Interrupt(o) {
        assert WithoutInterrupts(pending) == [] + WithoutInterrupts(later);
        DataOfBytes(later, text);
        assert Data(pending) == [] + text;
      } else {
        BytesSplit(o, WithoutInterrupts(later), text);
        DataOfBytes(later, text[1..]);
      }
    }
  }

  lemma BytesSplit(o: Outcome, later: seq<Outcome>, text: seq<byte>)
    requires [o] + later == Bytes(text)
    ensures text != [] && o == Byte(text[0]) && later == Bytes(text[1..])
    ensures [text[0]] + text[1..] == text
  {
    var all := [o] + later;
    assert all[0] == Byte(text[0]);
    var rest := Bytes(text[1..]);
    forall i | 0 <= i < |later|
      ensures later[i] == rest[i]
    {
      assert all[i + 1] == Byte(text[i + 1]);
    }
    assert later == rest;
  }

  /** Interrupted reads change nothing but how many reads are made. */
  lemma {:induction false} InterruptsAreInvisible(pending: seq<Outcome>)
    ensures var scan := ScanLine(pending);
            ScanLine(WithoutInterrupts(pending)) == scan.(rest := WithoutInterrupts(scan.rest))
  {
    if pending != [] {
      var rest := pending[1..];
      InterruptsAreInvisible(rest);
      if !Interrupt(pending[0]) {
        var clean := WithoutInterrupts(pending);
        assert clean[0] == pending[0] && clean[1..] == WithoutInterrupts(rest);
      } else {
        assert WithoutInterrupts(pending) == WithoutInterrupts(rest);
      }
    }
  }

  /** An outcome that ends a call. */
  predicate Ends(o: Outcome) {
    match o case Byte(ch) => ch == NEWLINE case EndOfFile => true case Failed(e) => e != EINTR
  }

  /** How an outcome that ends a call ends it. */
  function EndingOf(o: Outcome): Ending {
    match o case Byte(_) => AtNewline case EndOfFile => AtEnd case Failed(errno) => AtError(errno)
  }

  lemma DataCons(o: Outcome, later: seq<Outcome>)
    ensures Data([o] + later) == (if o.Byte? then [o.ch] else []) + Data(later)
  {
    assert ([o] + later)[1..] == later;
  }

  lemma {:induction false} ConsumesItsLine(pending: seq<Outcome>)
    ensures var scan := ScanLine(pending);
            && |scan.rest| <= |pending|
            && var k := |pending| - |scan.rest|;
            && pending[k..] == scan.rest
            && scan.line == Data(pending[..k])
  {
    if pending != [] {
      var o, later := pending[0], pending[1..];
      ConsumesItsLine(later);
      if Ends(o) {
        DataCons(o, []);
        assert pending[..1] == [o] + [];
      } else {
        var k := |later| - |ScanLine(later).rest|;
        DataCons(o, later[..k]);
        assert pending[..k + 1] == [o] + later[..k] && pending[k + 1..] == later[k..];
      }
    }
  }

  lemma {:induction false} EndsWhereItStops(pending: seq<Outcome>)
    ensures var scan := ScanLine(pending);
            && |scan.rest| <= |pending|
            && var k := |pending| - |scan.rest|;
            && (forall i :: 0 <= i < k - 1 ==> !Ends(pending[i]))
            && if k > 0 && Ends(pending[k - 1]) then scan.ending == EndingOf(pending[k - 1])
               else scan.rest == [] && scan.ending == AtEnd
  {
    if pending != [] && !Ends(pending[0]) {
      EndsWhereItStops(pending[1..]);
    }
  }

  lemma {:induction false} NewlineIsLast(pending: seq<Outcome>)
    ensures var scan := ScanLine(pending);
            && (scan.ending == AtNewline <==> NEWLINE in scan.line)
            && (forall i :: 0 <= i < |scan.line| - 1 ==> scan.line[i] != NEWLINE)
  {
    if pending != [] && !Ends(pending[0]) {
      NewlineIsLast(pending[1..]);
    }
  }

  /**
   A call reads through the first outcome that ends it, or to the end of the stream, and no further:
   the line is the bytes of what was consumed, and holds no newline except as its last byte.
   */
  lemma StopsAtFirstEnd(pending: seq<Outcome>)
    ensures var scan := ScanLine(pending);
            && |scan.rest| <= |pending|
            && var k := |pending| - |scan.rest|;
            && pending[k..] == scan.rest
            && scan.line == Data(pending[..k])
            && (forall i :: 0 <= i < k - 1 ==> !Ends(pending[i]))
            && (if k > 0 && Ends(pending[k - 1]) then scan.ending == EndingOf(pending[k - 1])
                else scan.rest == [] && scan.ending == AtEnd)
            && (scan.ending == AtNewline <==> NEWLINE in scan.line)
            && (forall i :: 0 <= i < |scan.line| - 1 ==> scan.line[i] != NEWLINE)
  {
    ConsumesItsLine(pending);
    EndsWhereItStops(pending);
    NewlineIsLast(pending);
  }

  /** A return of 0 marks the end of the stream if and only if the buffer holds more than the NUL. */
  lemma ZeroMeansEndIffRoom(n: nat)
    requires n > 0
    ensures (forall pending ::
               Returned(ScanLine(pending), n) == 0 ==> ScanLine(pending).line == []) <==> n > 1
  {
    if n == 1 {
      var pending := [Byte(NEWLINE)];
      assert Returned(ScanLine(pending), n) == 0 && ScanLine(pending).line == [NEWLINE];
    }
  }

  // Repeated calls, compared with an independent way to cut a text into lines.

  /** The length of the first line of a text, its newline included. */
  function FirstLine(text: seq<byte>): (k: nat)
    requires text != []
    ensures 0 < k <= |text|
    ensures forall i :: 0 <= i < k - 1 ==> text[i] != NEWLINE
    ensures text[k - 1] == NEWLINE || k == |text|
  {
    if text[0] == NEWLINE || |text| == 1 then 1 else 1 + FirstLine(text[1..])
  }

  function Split(text: seq<byte>): seq<seq<byte>>
    decreases |text|
  {
    if text == [] then []
    else
      var k := FirstLine(text);
      [text[..k]] + Split(text[k..])
  }

  function Flatten(lines: seq<seq<byte>>): seq<byte> {
    if lines == [] then [] else lines[0] + Flatten(lines[1..])
  }

  lemma FlattenCons(line: seq<byte>, lines: seq<seq<byte>>)
    ensures Flatten([line] + lines) == line + Flatten(lines)
  {
    assert ([line] + lines)[1..] == lines;
  }

  lemma {:induction false} SplitLosesNothing(text: seq<byte>)
    ensures Flatten(Split(text)) == text
    decreases |text|
  {
    if text != [] {
      var k := FirstLine(text);
      SplitLosesNothing(text[k..]);
      FlattenCons(text[..k], Split(text[k..]));
      assert text[..k] + text[k..] == text;
    }
  }

  /** The buffers of successive calls, up to the first that does not return a positive count. */
  function Calls(pending: seq<Outcome>, n: nat): seq<seq<byte>>
    requires n > 0
    decreases |pending|
  {
    var scan := ScanLine(pending);
    if Returned(scan, n) <= 0 then []
    else
      ConsumesItsLine(pending);
      [Kept(scan.line, n)] + Calls(scan.rest, n)
  }

  /** A stream of bytes, interrupted now and then, that ends when it is used up. */
  ghost predicate PlainStream(pending: seq<Outcome>) {
    forall o :: o in pending ==> o.Byte? || Interrupt(o)
  }

  function Truncate(lines: seq<seq<byte>>, n: nat): (kept: seq<seq<byte>>)
    requires n > 0
    ensures |kept| == |lines|
    ensures forall i :: 0 <= i < |lines| ==> kept[i] == Kept(lines[i], n)
  {
    seq(|lines|, i requires 0 <= i < |lines| => Kept(lines[i], n))
  }

  /** On a plain stream one call reads the first line of the data. */
  lemma {:induction false} ScanPlain(pending: seq<Outcome>)
    requires PlainStream(pending)
    ensures var scan := ScanLine(pending); var data := Data(pending);
            && PlainStream(scan.rest)
            && !scan.ending.AtError?
            && (data == [] ==> scan.line == [] && scan.rest == [])
            && (data != [] ==> scan.line == data[..FirstLine(data)] && Data(scan.rest) == data[FirstLine(data)..])
  {
    if pending != [] {
      var rest := pending[1..];
      ScanPlain(rest);
      if pending[0].Byte? {
        var data := Data(pending);
        assert data[1..] == Data(rest);
        if pending[0].ch == NEWLINE || Data(rest) == [] {
          assert data[..1] == [data[0]];
        } else {
          var k := FirstLine(Data(rest));
          assert data[..1 + k] == [data[0]] + Data(rest)[..k];
          assert data[1 + k..] == Data(rest)[k..];
        }
      } else {
        assert Data(pending) == Data(rest);
      }
    }
  }

  lemma TruncateCons(line: seq<byte>, lines: seq<seq<byte>>, n: nat)
    requires n > 0
    ensures Truncate([line] + lines, n) == [Kept(line, n)] + Truncate(lines, n)
  {
  }

  /** What one call on a plain stream with data left returns, and how the rest goes on. */
  lemma OneCall(pending: seq<Outcome>, n: nat)
    requires PlainStream(pending) && n > 1 && Data(pending) != []
    ensures var scan := ScanLine(pending);
            && |scan.rest| < |pending| && PlainStream(scan.rest)
            && Returned(scan, n) > 0
            && Split(Data(pending)) == [scan.line] + Split(Data(scan.rest))
  {
    ScanPlain(pending);
    ConsumesItsLine(pending);
    assert pending[..0] == [];
  }

  /** Repeated calls return the lines of the data one by one, each cut to what the buffer holds. */
  lemma {:induction false} CallsReturnLines(pending: seq<Outcome>, n: nat)
    requires PlainStream(pending) && n > 1
    ensures Calls(pending, n) == Truncate(Split(Data(pending)), n)
    decreases |pending|
  {
    if Data(pending) == [] {
      ScanPlain(pending);
    } else {
      var scan := ScanLine(pending);
      OneCall(pending, n);
      CallsReturnLines(scan.rest, n);
      TruncateCons(scan.line, Split(Data(scan.rest)), n);
    }
  }

  /** Repeated calls return exactly the lines of the stream if and only if every line fits the buffer. */
  lemma CallsExactIffLinesFit(pending: seq<Outcome>, n: nat)
    requires PlainStream(pending) && n > 0
    ensures Calls(pending, n) == Split(Data(pending))
       <==> forall line :: line in Split(Data(pending)) ==> |line| < n
    ensures Calls(pending, n) == Split(Data(pending)) ==> Flatten(Calls(pending, n)) == Data(pending)
  {
    var lines := Split(Data(pending));
    SplitLosesNothing(Data(pending));
    if n > 1 {
      CallsReturnLines(pending, n);
      if Calls(pending, n) == lines {
        forall line | line in lines
          ensures |line| < n
        {
          var i :| 0 <= i < |lines| && lines[i] == line;
          assert Truncate(lines, n)[i] == Kept(line, n);
        }
      }
    } else if Data(pending) != [] {
      ScanPlain(pending);
      var k := FirstLine(Data(pending));
      assert lines[0] == Data(pending)[..k] && lines[0] in lines;
    }
  }
}
