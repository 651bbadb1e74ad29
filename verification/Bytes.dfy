/**
  Bytes, optional values, and the decimal notation shared by every component that
  prints or reads a number.
 */
module Bytes {

  type byte = b: int | 0 <= b < 256

  newtype uint64 = x: int | 0 <= x < 0x1_0000_0000_0000_0000
  newtype int64 = x: int | -0x8000_0000_0000_0000 <= x < 0x8000_0000_0000_0000
  newtype int32 = x: int | -0x8000_0000 <= x < 0x8000_0000

  const INT_MAX: int := 0x7fff_ffff

  datatype Option<+T> = None | Some(value: T)

  function Max(a: int, b: int): int {
    if a < b then b else a
  }

  predicate IsDigit(b: byte) {
    48 <= b <= 57
  }

  predicate AllDigits(s: seq<byte>) {
    forall i :: 0 <= i < |s| ==> IsDigit(s[i])
  }

  /** The number a string of decimal digits denotes, leading zeros allowed. */
  function Value(s: seq<byte>): nat
    requires AllDigits(s)
  {
    if s == [] then 0 else 10 * Value(s[..|s| - 1]) + (s[|s| - 1] - 48)
  }

  /** Decimal digits without superfluous leading zeros. */
  predicate Canonical(s: seq<byte>) {
    s != [] && AllDigits(s) && (s[0] == 48 ==> |s| == 1)
  }

  /** The canonical decimal digits of a number. */
  function Digits(n: nat): (s: seq<byte>)
    ensures Canonical(s) && Value(s) == n
    ensures n > 0 ==> s[0] != 48
  {
    if n < 10 then
      assert [48 + n][..0] == [];
      [48 + n]
    else
      var front := Digits(n / 10);
      var s := front + [48 + n % 10];
      assert s[..|s| - 1] == front;
      s
  }

  /** There is one canonical notation for each number. */
  lemma {:induction false} CanonicalIsUnique(s: seq<byte>)
    requires Canonical(s)
    ensures Digits(Value(s)) == s
    ensures |s| > 1 ==> Value(s) >= 10
  {
    if |s| == 1 {
      assert s[..0] == [];
    } else {
      var front := s[..|s| - 1];
      CanonicalIsUnique(front);
      if |front| == 1 {
        assert front[..0] == [];
        assert Value(front) == front[0] - 48;
      }
      assert s == front + [s[|s| - 1]];
    }
  }

  /** Reading one more digit. */
  lemma ValueAppend(s: seq<byte>, d: byte)
    requires AllDigits(s) && IsDigit(d)
    ensures AllDigits(s + [d]) && Value(s + [d]) == 10 * Value(s) + (d - 48)
  {
    assert (s + [d])[..|s|] == s;
  }

  /** Longer digit strings denote numbers at least as large as their prefixes. */
  lemma {:induction false} ValueMonotone(s: seq<byte>, k: nat)
    requires AllDigits(s) && k <= |s|
    ensures AllDigits(s[..k]) && Value(s[..k]) <= Value(s)
  {
    if k < |s| {
      ValueMonotone(s[..|s| - 1], k);
      assert s[..|s| - 1][..k] == s[..k];
    } else {
      assert s[..k] == s;
    }
  }
}
