/**
  The three guarded decimal readers: environment limits, the analysis timeout, and the
  descriptor numbers listed by /dev/fd. Each checks before multiplying, in the machine width
  of its C variable, so a value that does not fit is refused and never wraps.
 */
module Limits {
  import opened Bytes

  /** A non-empty string of digits whose value lies between the bounds. */
  predicate InRange(s: seq<byte>, minimum: int, maximum: int) {
    s != [] && AllDigits(s) && minimum <= Value(s) <= maximum
  }

  /** Once the prefix read so far exceeds the maximum, so does the whole string. */
  lemma PrefixTooLarge(s: seq<byte>, k: nat, maximum: int)
    requires k <= |s|
    requires AllDigits(s[..k]) && Value(s[..k]) > maximum
    ensures !(AllDigits(s) && Value(s) <= maximum)
  {
    if AllDigits(s) {
      ValueMonotone(s, k);
    }
  }

  /** The digit at k is the next one to be read. */
  lemma NextDigit(s: seq<byte>, k: nat)
    requires k < |s| && AllDigits(s[..k]) && IsDigit(s[k])
    ensures AllDigits(s[..k + 1]) && Value(s[..k + 1]) == 10 * Value(s[..k]) + (s[k] - 48)
  {
    assert s[..k + 1] == s[..k] + [s[k]];
    ValueAppend(s[..k], s[k]);
  }

  method ConfiguredLimit(raw: Option<seq<byte>>, fallback: int64, minimum: int64, maximum: int64) returns (r: int64)
    requires 0 <= minimum <= maximum
    ensures raw.None? ==> r == fallback
    ensures raw.Some? && InRange(raw.value, minimum as int, maximum as int) ==> r as int == Value(raw.value)
    ensures raw.Some? && !InRange(raw.value, minimum as int, maximum as int) ==> r == -1
  {
    if raw.None? {
      return fallback;
    }
    var s := raw.value;
    if s == [] {
      return -1;
    }
    var limit := maximum as uint64;
    var value: uint64 := 0;
    assert s[..0] == [];
    for p := 0 to |s|
      invariant AllDigits(s[..p]) && value as int == Value(s[..p]) && value <= limit
    {
      if !IsDigit(s[p]) {
        return -1;
      }
      var digit := (s[p] - 48) as uint64;
      NextDigit(s, p);
      if value > limit / 10 || (value == limit / 10 && digit > limit % 10) {
        PrefixTooLarge(s, p + 1, maximum as int);
        return -1;
      }
      value := value * 10 + digit;
    }
    assert s[..|s|] == s;
    if value < minimum as uint64 || value > limit {
      return -1;
    }
    r := value as int64;
  }

  /** ELISA_LSP_ANALYSIS_TIMEOUT_MS: 30 seconds when unset, otherwise 100 to 300000 milliseconds. */
  method AnalysisTimeoutMillis(raw: Option<seq<byte>>) returns (r: int64)
    ensures raw.None? ==> r == 30000
    ensures raw.Some? && InRange(raw.value, 100, 300000) ==> r as int == Value(raw.value)
    ensures raw.Some? && !InRange(raw.value, 100, 300000) ==> r == -1
  {
    if raw.None? {
      return 30000;
    }
    var s := raw.value;
    if s == [] {
      return -1;
    }
    var value: uint64 := 0;
    assert s[..0] == [];
    for p := 0 to |s|
      invariant AllDigits(s[..p]) && value as int == Value(s[..p]) <= 300000
    {
      if !IsDigit(s[p]) {
        return -1;
      }
      var digit := (s[p] - 48) as uint64;
      NextDigit(s, p);
      if value > 300000 / 10 || (value == 300000 / 10 && digit > 300000 % 10) {
        PrefixTooLarge(s, p + 1, 300000);
        return -1;
      }
      value := value * 10 + digit;
    }
    assert s[..|s|] == s;
    if value < 100 || value > 300000 {
      return -1;
    }
    r := value as int64;
  }

  /** A directory entry of /dev/fd names a descriptor exactly when it is a digit string of int range. */
  method DescriptorNumber(name: seq<byte>) returns (number: Option<int32>)
    ensures number.Some? <==> InRange(name, 0, 0x7fff_ffff)
    ensures number.Some? ==> number.value as int == Value(name)
  {
    if name == [] {
      return None;
    }
    var value: int32 := 0;
    assert name[..0] == [];
    for p := 0 to |name|
      invariant AllDigits(name[..p]) && value as int == Value(name[..p])
    {
      if !IsDigit(name[p]) {
        return None;
      }
      var digit := (name[p] - 48) as int32;
      NextDigit(name, p);
      if value > 0x7fff_ffff / 10 || (value == 0x7fff_ffff / 10 && digit > 0x7fff_ffff % 10) {
        PrefixTooLarge(name, p + 1, 0x7fff_ffff);
        return None;
      }
      value := value * 10 + digit;
    }
    assert name[..|name|] == name;
    number := Some(value);
  }
}
