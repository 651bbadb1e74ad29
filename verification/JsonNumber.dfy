/**
  Printing any signed 64-bit integer, against the number grammar of section 6 of RFC 8259.
 */
module JsonNumber {
  import opened Bytes
  import opened JsonString

  const INT64_MIN: int64 := -0x8000_0000_0000_0000

  const MINUS: byte := 45

  /** number = [ minus ] int, without fraction, exponent or negative zero. */
  predicate IsInteger(s: Text) {
    if s != [] && s[0] == MINUS then Canonical(s[1..]) && s[1] != 48 else Canonical(s)
  }

  function IntegerValue(s: Text): int
    requires IsInteger(s)
  {
    if s[0] == MINUS then -(Value(s[1..]) as int) else Value(s)
  }

  function IntegerText(n: int): Text {
    if n < 0 then [MINUS] + Digits(-n) else Digits(n)
  }

  /** The text is legal and denotes the number. */
  lemma IntegerTextReadsBack(n: int)
    ensures IsInteger(IntegerText(n)) && IntegerValue(IntegerText(n)) == n
  {
    if n < 0 {
      assert IntegerText(n)[1..] == Digits(-n);
    }
    hide Digits, Value;
  }

  /** It is the only such text of that number. */
  lemma IntegerTextIsUnique(s: Text)
    requires IsInteger(s)
    ensures s == IntegerText(IntegerValue(s))
  {
    if s[0] == MINUS {
      CanonicalIsUnique(s[1..]);
      NonZeroDigits(s[1..]);
      assert s == [MINUS] + s[1..];
    } else {
      CanonicalIsUnique(s);
    }
    hide Digits, Value;
  }

  lemma {:induction false} NonZeroDigits(s: Text)
    requires AllDigits(s) && s != [] && s[0] != 48
    ensures Value(s) > 0
  {
    if |s| > 1 {
      NonZeroDigits(s[..|s| - 1]);
    } else {
      assert s[..0] == [];
    }
  }

  function Reverse(s: Text): (r: Text)
    ensures |r| == |s|
  {
    seq(|s|, i requires 0 <= i < |s| => s[|s| - 1 - i])
  }

  lemma ReverseAppend(s: Text, b: byte)
    ensures Reverse(s + [b]) == [b] + Reverse(s)
  {}

  /** The sign is taken off before the conversion to u64; the minimum has no negation. */
  function Magnitude(n: int64): (m: uint64)
    ensures m as int == if n < 0 then -(n as int) else n as int
  {
    if n >= 0 then n as uint64
    else if n == INT64_MIN then 0x8000_0000_0000_0000
    else (0 - n) as uint64
  }

  /** The digits that are still to be pushed: none for zero. */
  function Leading(m: nat): Text {
    if m > 0 then Digits(m) else []
  }

  lemma DigitsStep(m: nat)
    requires m > 0
    ensures Leading(m) == Leading(m / 10) + [48 + m % 10]
  {}

  lemma PushDigit(front: Text, digit: byte, digits: Text)
    ensures front + [digit] + Reverse(digits) == front + Reverse(digits + [digit])
  {
    ReverseAppend(digits, digit);
    hide Reverse;
    assert front + [digit] + Reverse(digits) == front + ([digit] + Reverse(digits));
  }

  method ReversedDigits(number: uint64) returns (digits: Text)
    requires number > 0
    ensures Reverse(digits) == Digits(number as int)
  {
    var magnitude := number;
    digits := [];
    assert Reverse([]) == [];
    assert Leading(0) == [];
    assert Leading(number as int) == Digits(number as int);
    hide Leading, Reverse;
    while magnitude > 0
      invariant Leading(number as int) == Leading(magnitude as int) + Reverse(digits)
    {
      DigitsStep(magnitude as int);
      var digit: byte := (48 + magnitude % 10) as int;
      PushDigit(Leading(magnitude as int / 10), digit, digits);
      digits := digits + [digit];
      magnitude := magnitude / 10;
    }
  }

  method PushReversed(buffer: Buffer, digits: Text)
    modifies buffer
    ensures buffer.data == old(buffer.data) + Reverse(digits)
  {
    ghost var text := Reverse(digits);
    var i := |digits|;
    while i > 0
      invariant 0 <= i <= |digits|
      invariant buffer.data == old(buffer.data) + text[..|digits| - i]
    {
      i := i - 1;
      ghost var j := |digits| - i - 1;
      assert text[..j + 1] == text[..j] + [text[j]];
      buffer.Push(digits[i]);
    }
    assert text[..|digits|] == text;
  }

  /** The least significant digits first, then copied backwards; no step leaves 64 bits. */
  method JsonPushI64(buffer: Buffer, number: int64)
    modifies buffer
    ensures buffer.data == old(buffer.data) + IntegerText(number as int)
  {
    var magnitude := Magnitude(number);
    if number < 0 {
      buffer.Push(MINUS);
    }
    assert IntegerText(number as int) == (if number < 0 then [MINUS] else []) + Digits(magnitude as int);
    if magnitude == 0 {
      buffer.Push(48);
      return;
    }
    hide Digits, IntegerText;
    var digits := ReversedDigits(magnitude);
    PushReversed(buffer, digits);
  }
}
