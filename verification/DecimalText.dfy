/** Numbers as text: printf("%d") and atoi(), on bytes. */
module DecimalText {
  import opened LineReader

  const INT_MIN: int := -0x8000_0000
  const INT_MAX: int := 0x7fff_ffff

  /** A C int of 32 bits. */
  type int32 = i: int | INT_MIN <= i <= INT_MAX

  const MINUS: byte := 45
  const PLUS: byte := 43
  const ZERO: byte := 48

  predicate IsDigit(ch: byte) {
    ZERO <= ch <= ZERO + 9
  }

  predicate IsSpace(ch: byte) {
    ch == 32 || 9 <= ch <= 13
  }

  function Digits(n: nat): (text: seq<byte>)
    ensures text != [] && forall ch :: ch in text ==> IsDigit(ch)
    ensures |text| > 1 ==> text[0] != ZERO
  {
    (if n < 10 then [] else Digits(n / 10)) + [ZERO + n % 10]
  }

  /** What printf() writes for %d. */
  function Decimal(i: int): (text: seq<byte>)
    ensures text != [] && forall ch :: ch in text ==> IsDigit(ch) || ch == MINUS
  {
    if i < 0 then [MINUS] + Digits(-i) else Digits(i)
  }

  /** The number that the leading digits denote, after `high` has been read. */
  function Number(text: seq<byte>, high: nat): nat {
    if text == [] || !IsDigit(text[0]) then high
    else Number(text[1..], 10 * high + (text[0] - ZERO))
  }

  /** The number that atoi() reads: white space, one sign, then digits up to the first other byte. */
  function Atoi(text: seq<byte>): int {
    if text == [] then 0
    else if IsSpace(text[0]) then Atoi(text[1..])
    else if text[0] == MINUS then 0 - Number(text[1..], 0) as int
    else if text[0] == PLUS then Number(text[1..], 0)
    else Number(text, 0)
  }

  lemma {:induction false} NumberConcat(a: seq<byte>, b: seq<byte>, high: nat)
    requires forall ch :: ch in a ==> IsDigit(ch)
    ensures Number(a + b, high) == Number(b, Number(a, high))
  {
    if a == [] {
      assert a + b == b;
    } else {
      assert a[0] in a && (a + b)[1..] == a[1..] + b;
      NumberConcat(a[1..], b, 10 * high + (a[0] - ZERO));
    }
  }

  lemma {:induction false} NumberOfDigits(n: nat)
    ensures Number(Digits(n), 0) == n
  {
    var high, low := if n < 10 then [] else Digits(n / 10), [ZERO + n % 10];
    if n >= 10 {
      NumberOfDigits(n / 10);
    }
    NumberConcat(high, low, 0);
    assert Number(low, n / 10) == 10 * (n / 10) + n % 10 by {
      assert low[1..] == [];
    }
  }

  lemma {:induction false} NumberStops(text: seq<byte>, rest: seq<byte>, high: nat)
    requires rest == [] || !IsDigit(rest[0])
    ensures Number(text + rest, high) == Number(text, high)
  {
    if text == [] {
      assert text + rest == rest;
    } else if IsDigit(text[0]) {
      assert (text + rest)[1..] == text[1..] + rest;
      NumberStops(text[1..], rest, 10 * high + (text[0] - ZERO));
    }
  }

  /** The number that some digits denote, from the last one backwards. */
  function Denotes(digits: seq<byte>): nat
    requires forall ch :: ch in digits ==> IsDigit(ch)
  {
    if digits == [] then 0
    else
      var n := |digits| - 1;
      assert IsDigit(digits[n]) by { assert digits[n] in digits; }
      10 * Denotes(digits[..n]) + (digits[n] - ZERO)
  }

  lemma {:induction false} NumberIsDenoted(digits: seq<byte>)
    requires forall ch :: ch in digits ==> IsDigit(ch)
    ensures Number(digits, 0) == Denotes(digits)
  {
    if digits != [] {
      var n := |digits| - 1;
      var last := [digits[n]];
      NumberIsDenoted(digits[..n]);
      NumberConcat(digits[..n], last, 0);
      assert digits == digits[..n] + last && last[1..] == [];
    }
  }

  lemma {:induction false} AtoiSkipsSpaces(spaces: seq<byte>, text: seq<byte>)
    requires forall i :: 0 <= i < |spaces| ==> spaces[i] in {9, 10, 11, 12, 13, 32}
    ensures Atoi(spaces + text) == Atoi(text)
  {
    if spaces == [] {
      assert spaces + text == text;
    } else {
      assert (spaces + text)[0] == spaces[0] && (spaces + text)[1..] == spaces[1..] + text;
      AtoiSkipsSpaces(spaces[1..], text);
    }
  }

  /**
   What atoi() makes of any text: white space, perhaps a sign, some digits, and then something that is
   not a digit. If there is neither sign nor digit, what comes then is no white space or sign either.
   */
  lemma AtoiReads(spaces: seq<byte>, sign: seq<byte>, digits: seq<byte>, rest: seq<byte>)
    requires forall i :: 0 <= i < |spaces| ==> spaces[i] in {9, 10, 11, 12, 13, 32}
    requires sign == [] || sign == [MINUS] || sign == [PLUS]
    requires forall ch :: ch in digits ==> IsDigit(ch)
    requires rest == [] || !IsDigit(rest[0])
    requires sign == [] && digits == [] && rest != [] ==> rest[0] !in {9, 10, 11, 12, 13, 32, MINUS, PLUS}
    ensures Atoi(spaces + (sign + (digits + rest)))
         == if sign == [MINUS] then 0 - Denotes(digits) as int else Denotes(digits)
  {
    var number := digits + rest;
    AtoiSkipsSpaces(spaces, sign + number);
    NumberStops(digits, rest, 0);
    NumberIsDenoted(digits);
    if sign == [] {
      assert sign + number == number;
      assert digits != [] ==> number[0] == digits[0] && digits[0] in digits;
      assert digits == [] ==> number == rest;
    } else {
      assert (sign + number)[0] == sign[0] && (sign + number)[1..] == number;
    }
  }

  lemma Regroup(a: seq<byte>, b: seq<byte>, c: seq<byte>)
    ensures a + b + c == [] + (a + (b + c))
  {
  }

  /** atoi() reads back what printf() wrote, whatever follows, as long as it is not a digit. */
  lemma AtoiReadsDecimal(i: int, rest: seq<byte>)
    requires rest == [] || !IsDigit(rest[0])
    ensures Atoi(Decimal(i) + rest) == i
  {
    var sign, digits := if i < 0 then [MINUS] else [], Digits(if i < 0 then -i else i);
    NumberOfDigits(if i < 0 then -i else i);
    NumberIsDenoted(digits);
    AtoiReads([], sign, digits, rest);
    assert Decimal(i) == sign + digits;
    Regroup(sign, digits, rest);
  }

  lemma DecimalInjective(i: int, j: int)
    requires Decimal(i) == Decimal(j)
    ensures i == j
  {
    AtoiReadsDecimal(i, []);
    AtoiReadsDecimal(j, []);
    assert Decimal(i) + [] == Decimal(i) && Decimal(j) + [] == Decimal(j);
  }

  function Pow10(k: nat): nat {
    if k == 0 then 1 else 10 * Pow10(k - 1)
  }

  lemma {:induction false} DigitsLength(n: nat, k: nat)
    requires k > 0 && n < Pow10(k)
    ensures |Digits(n)| <= k
  {
    if n >= 10 {
      DigitsLength(n / 10, k - 1);
    }
  }

  /** The text of an int is at most eleven bytes. */
  lemma DecimalFits(i: int32)
    ensures |Decimal(i)| <= 11
  {
    assert Pow10(5) == 100000;
    assert Pow10(10) == 10_000_000_000;
    var n: int := i;
    DigitsLength(if n < 0 then -n else n, 10);
  }

  // C strings: a byte buffer read up to its first NUL.

  function CString(buffer: seq<byte>): seq<byte> {
    if buffer == [] || buffer[0] == NUL then [] else [buffer[0]] + CString(buffer[1..])
  }

  lemma {:induction false} CStringStops(text: seq<byte>, rest: seq<byte>)
    requires NUL !in text
    ensures CString(text + [NUL] + rest) == text
  {
    var buffer := text + [NUL] + rest;
    if text != [] {
      assert buffer[1..] == text[1..] + [NUL] + rest;
      CStringStops(text[1..], rest);
    }
  }

  /** What follows the terminating NUL of a buffer does not matter to atoi(). */
  lemma {:induction false} AtoiStopsAtNul(text: seq<byte>, rest: seq<byte>)
    ensures Atoi(text + [NUL] + rest) == Atoi(text)
  {
    var tail := [NUL] + rest;
    assert text + [NUL] + rest == text + tail;
    if text == [] {
      assert text + tail == tail;
    } else {
      assert (text + tail)[1..] == text[1..] + tail;
      NumberStops(text, tail, 0);
      NumberStops(text[1..], tail, 0);
      if IsSpace(text[0]) {
        AtoiStopsAtNul(text[1..], rest);
        assert text[1..] + [NUL] + rest == text[1..] + tail;
      }
    }
  }

  /** snprintf(): as much of the text as fits beside the NUL. */
  method Snprintf(buffer: array<byte>, text: seq<byte>)
    requires buffer.Length > 0
    modifies buffer
    ensures buffer[..] == Overwrite(old(buffer[..]), Kept(text, buffer.Length) + [NUL])
  {
    var kept := Kept(text, buffer.Length);
    forall i | 0 <= i < |kept| {
      buffer[i] := kept[i];
    }
    buffer[|kept|] := NUL;
  }

  // A 32-bit unsigned counter printed with %d.

  /** The int that %d makes of a uint32_t. */
  function AsInt(counter: int): (i: int32)
    requires 0 <= counter <= 0xffff_ffff
    ensures (i - counter) % 0x1_0000_0000 == 0
  {
    if counter <= INT_MAX then counter else counter - 0x1_0000_0000
  }

  /** The line printed for a counter. */
  function CounterLine(counter: int): seq<byte>
    requires 0 <= counter <= 0xffff_ffff
  {
    Decimal(AsInt(counter)) + [NEWLINE]
  }

  /**
   The line denotes the counter modulo 2^32, fits the buffer of 30 bytes with room to spare, and has
   its only newline at the end.
   */
  lemma CounterLineDenotesCounter(counter: int)
    requires 0 <= counter <= 0xffff_ffff
    ensures var line := CounterLine(counter);
            && Atoi(line) % 0x1_0000_0000 == counter
            && |line| <= 12
            && NUL !in line
            && line[|line| - 1] == NEWLINE
            && (forall i :: 0 <= i < |line| - 1 ==> line[i] != NEWLINE)
  {
    DecimalFits(AsInt(counter));
    AtoiReadsDecimal(AsInt(counter), [NEWLINE]);
  }

  /** The line denotes the counter itself if and only if the counter is below 2^31; beyond, it is negative. */
  lemma CounterLineExactIff(counter: int)
    requires 0 <= counter <= 0xffff_ffff
    ensures Atoi(CounterLine(counter)) == counter <==> counter <= INT_MAX
    ensures counter > INT_MAX ==> CounterLine(counter)[0] == MINUS
  {
    AtoiReadsDecimal(AsInt(counter), [NEWLINE]);
  }
}
