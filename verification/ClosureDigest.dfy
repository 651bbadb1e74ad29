/**
  The canonical digest of an include closure: which byte stream is hashed, and what follows from
  two digests being equal. SHA-256 is collision free here: a digest is the stream it hashes.
  Paths are their UTF-8 encodings, whose byte order is the order of the decoded strings.
 */
module ClosureDigest {
  import opened Bytes
  import opened Sorting

  type Text = seq<byte>

  datatype Digest = Sha256(preimage: seq<byte>)

  datatype Entry = Entry(path: Text, sha256: Text)

  /** A JSON record; absent and non-string fields are None. */
  datatype Record = NotAnObject | Fields(path: Option<Text>, sha256: Option<Text>)

  datatype Error = InvalidRecord | NoFiles | DuplicatePath | UnknownPrefix | Unresolvable | ContentChanged

  datatype Result<+T> = Ok(value: T) | Err(error: Error)

  /** "elisa-lsp-compiler-include-closure-v1" and a zero byte. */
  const TAG: seq<byte> := [101, 108, 105, 115, 97, 45, 108, 115, 112, 45, 99, 111, 109, 112, 105, 108, 101, 114, 45,
                           105, 110, 99, 108, 117, 100, 101, 45, 99, 108, 111, 115, 117, 114, 101, 45, 118, 49, 0]
  /** "lsp/" */
  const LSP: seq<byte> := [108, 115, 112, 47]
  /** "compiler/" */
  const COMPILER: seq<byte> := [99, 111, 109, 112, 105, 108, 101, 114, 47]

  // ---- Hexadecimal content hashes ----

  predicate IsHexDigit(b: byte) {
    48 <= b <= 57 || 97 <= b <= 102
  }

  predicate IsHash(s: seq<byte>) {
    |s| == 64 && forall i :: 0 <= i < 64 ==> IsHexDigit(s[i])
  }

  function HexValue(b: byte): (v: nat)
    requires IsHexDigit(b)
    ensures v < 16
  {
    if b <= 57 then b - 48 else b - 87
  }

  function HexDigit(v: nat): (b: byte)
    requires v < 16
    ensures IsHexDigit(b) && HexValue(b) == v
  {
    if v < 10 then 48 + v else 87 + v
  }

  function FromHex(s: seq<byte>): (r: seq<byte>)
    requires IsHash(s)
    ensures |r| == 32
  {
    seq(32, i requires 0 <= i < 32 => 16 * HexValue(s[2 * i]) + HexValue(s[2 * i + 1]))
  }

  function ToHex(r: seq<byte>): (s: seq<byte>)
    requires |r| == 32
    ensures IsHash(s)
  {
    seq(64, i requires 0 <= i < 64 => if i % 2 == 0 then HexDigit(r[i / 2] / 16) else HexDigit(r[i / 2] % 16))
  }

  lemma HexRoundTrip(s: seq<byte>)
    requires IsHash(s)
    ensures ToHex(FromHex(s)) == s
  {
    hide FromHex, ToHex;
    forall i | 0 <= i < 64
      ensures ToHex(FromHex(s))[i] == s[i]
    {
      HexPair(s, i / 2);
      assert i == 2 * (i / 2) || i == 2 * (i / 2) + 1;
    }
  }

  lemma Nibbles(high: nat, low: nat)
    requires low < 16
    ensures (16 * high + low) / 16 == high && (16 * high + low) % 16 == low
  {}

  lemma HexPair(s: seq<byte>, k: nat)
    requires IsHash(s) && k < 32
    ensures ToHex(FromHex(s))[2 * k] == s[2 * k] && ToHex(FromHex(s))[2 * k + 1] == s[2 * k + 1]
  {
    Nibbles(HexValue(s[2 * k]), HexValue(s[2 * k + 1]));
    var r := FromHex(s);
    assert r[k] == 16 * HexValue(s[2 * k]) + HexValue(s[2 * k + 1]);
    hide FromHex;
    assert ToHex(r)[2 * k] == HexDigit(r[2 * k / 2] / 16) && 2 * k / 2 == k;
    assert ToHex(r)[2 * k + 1] == HexDigit(r[(2 * k + 1) / 2] % 16) && (2 * k + 1) / 2 == k;
  }

  // ---- Big-endian lengths ----

  /** Lengths are written in eight bytes; no string of a 64-bit process is longer. */
  const LENGTH_LIMIT := 0x1_0000_0000_0000_0000

  function Power256(k: nat): (p: nat)
    ensures p > 0
  {
    if k == 0 then 1 else 256 * Power256(k - 1)
  }

  function ToBytes(n: nat, k: nat): (s: seq<byte>)
    requires n < Power256(k)
    ensures |s| == k
  {
    if k == 0 then [] else ToBytes(n / 256, k - 1) + [n % 256]
  }

  function FromBytes(s: seq<byte>): nat {
    if s == [] then 0 else 256 * FromBytes(s[..|s| - 1]) + s[|s| - 1]
  }

  lemma {:induction false} BytesRoundTrip(n: nat, k: nat)
    requires n < Power256(k)
    ensures FromBytes(ToBytes(n, k)) == n
  {
    if k > 0 {
      BytesRoundTrip(n / 256, k - 1);
      var s := ToBytes(n, k);
      assert s[..|s| - 1] == ToBytes(n / 256, k - 1);
    }
  }

  function Length8(n: nat): (s: seq<byte>)
    requires n < LENGTH_LIMIT
    ensures |s| == 8 && FromBytes(s) == n
  {
    assert Power256(8) == 0x1_0000_0000_0000_0000 by {
      assert Power256(2) == 0x1_0000;
      assert Power256(4) == 0x1_0000_0000;
      assert Power256(6) == 0x1_0000_0000_0000;
    }
    BytesRoundTrip(n, 8);
    ToBytes(n, 8)
  }

  // ---- The order of (path, hash) pairs ----

  predicate Less(a: seq<byte>, b: seq<byte>) {
    b != [] && (a == [] || a[0] < b[0] || (a[0] == b[0] && Less(a[1..], b[1..])))
  }

  lemma LessIsTotal(a: seq<byte>, b: seq<byte>)
    ensures Less(a, b) || Less(b, a) || a == b
    ensures !(Less(a, b) && Less(b, a)) && !Less(a, a)
  {
    if a != [] && b != [] && a[0] == b[0] {
      LessIsTotal(a[1..], b[1..]);
      assert a == [a[0]] + a[1..] && b == [b[0]] + b[1..];
    }
    if a != [] {
      LessIsTotal(a[1..], a[1..]);
    }
  }

  lemma LessIsTransitive(a: seq<byte>, b: seq<byte>, c: seq<byte>)
    requires Less(a, b) && Less(b, c)
    ensures Less(a, c)
  {
    if a != [] && a[0] == b[0] == c[0] {
      LessIsTransitive(a[1..], b[1..], c[1..]);
    }
  }

  predicate Before(x: Entry, y: Entry) {
    Less(x.path, y.path) || (x.path == y.path && Less(x.sha256, y.sha256))
  }

  lemma BeforeIsTotal(x: Entry, y: Entry)
    ensures Before(x, y) || Before(y, x) || x == y
    ensures !(Before(x, y) && Before(y, x)) && !Before(x, x)
  {
    LessIsTotal(x.path, y.path);
    LessIsTotal(x.sha256, y.sha256);
    LessIsTotal(x.path, x.path);
    LessIsTotal(x.sha256, x.sha256);
  }

  lemma BeforeIsTransitive(x: Entry, y: Entry, z: Entry)
    requires Before(x, y) && Before(y, z)
    ensures Before(x, z)
  {
    if Less(x.path, y.path) && Less(y.path, z.path) {
      LessIsTransitive(x.path, y.path, z.path);
    }
    if Less(x.sha256, y.sha256) && Less(y.sha256, z.sha256) {
      LessIsTransitive(x.sha256, y.sha256, z.sha256);
    }
  }

  /** Tuples of strings are compared component by component. */
  const BEFORE: (Entry, Entry) -> bool := (x, y) => Before(x, y)

  lemma BeforeIsOrder()
    ensures StrictTotalOrder(BEFORE)
  {
    forall x, y
      ensures BEFORE(x, y) || BEFORE(y, x) || x == y
      ensures !(BEFORE(x, y) && BEFORE(y, x))
    {
      BeforeIsTotal(x, y);
    }
    forall x, y, z | BEFORE(x, y) && BEFORE(y, z)
      ensures BEFORE(x, z)
    {
      BeforeIsTransitive(x, y, z);
    }
  }

  function Normalize(s: seq<Entry>): seq<Entry> {
    Sort(BEFORE, s)
  }

  lemma NormalizeSorts(s: seq<Entry>)
    ensures Sorted(BEFORE, Normalize(s)) && multiset(Normalize(s)) == multiset(s)
    ensures |Normalize(s)| == |s| && forall e :: e in Normalize(s) <==> e in s
    ensures AllWellFormed(s) ==> AllWellFormed(Normalize(s))
  {
    BeforeIsOrder();
    SortSorts(BEFORE, s);
    if AllWellFormed(s) {
      forall i | 0 <= i < |Normalize(s)|
        ensures WellFormed(Normalize(s)[i])
      {
        assert Normalize(s)[i] in s;
      }
    }
  }

  lemma NormalizeIsCanonical(s: seq<Entry>, t: seq<Entry>)
    requires multiset(s) == multiset(t)
    ensures Normalize(s) == Normalize(t)
  {
    BeforeIsOrder();
    SortSorts(BEFORE, s);
    SortSorts(BEFORE, t);
    SortedIsUnique(BEFORE, Normalize(s), Normalize(t));
  }

  // ---- The hashed byte stream and its inverse ----

  predicate WellFormed(e: Entry) {
    0 < |e.path| < LENGTH_LIMIT && IsHash(e.sha256)
  }

  predicate AllWellFormed(s: seq<Entry>) {
    forall i :: 0 <= i < |s| ==> WellFormed(s[i])
  }

  function EncodeEntry(e: Entry): seq<byte>
    requires WellFormed(e)
  {
    Length8(|e.path|) + e.path + FromHex(e.sha256)
  }

  function Encode(s: seq<Entry>): seq<byte>
    requires AllWellFormed(s)
  {
    if s == [] then [] else Encode(s[..|s| - 1]) + EncodeEntry(s[|s| - 1])
  }

  /** Recovers the entries from a hashed stream, reading it from the front. */
  function Decode(stream: seq<byte>): Option<seq<Entry>>
    decreases |stream|
  {
    if stream == [] then Some([])
    else if |stream| < 8 then None
    else
      var n := FromBytes(stream[..8]);
      if |stream| < 8 + n + 32 then None
      else
        match Decode(stream[8 + n + 32..])
        case None => None
        case Some(rest) => Some([Entry(stream[8..8 + n], ToHex(stream[8 + n..8 + n + 32]))] + rest)
  }

  lemma DecodeEntry(e: Entry, rest: seq<byte>)
    requires WellFormed(e)
    ensures Decode(EncodeEntry(e) + rest) ==
      (match Decode(rest) case None => None case Some(more) => Some([e] + more))
  {
    var stream := EncodeEntry(e) + rest;
    var n := |e.path|;
    assert stream[..8] == Length8(n);
    assert stream[8..8 + n] == e.path;
    assert stream[8 + n..8 + n + 32] == FromHex(e.sha256);
    assert stream[8 + n + 32..] == rest;
    HexRoundTrip(e.sha256);
  }

  lemma {:induction false} DecodeAfter(s: seq<Entry>, rest: seq<byte>)
    requires AllWellFormed(s)
    ensures Decode(Encode(s) + rest) ==
      (match Decode(rest) case None => None case Some(more) => Some(s + more))
    decreases |s|
  {
    hide EncodeEntry, Decode;
    if s == [] {
      assert Encode(s) + rest == rest;
      assert forall more :: s + more == more;
    } else {
      var last := s[|s| - 1];
      assert Encode(s) + rest == Encode(s[..|s| - 1]) + (EncodeEntry(last) + rest);
      DecodeAfter(s[..|s| - 1], EncodeEntry(last) + rest);
      DecodeEntry(last, rest);
      assert s == s[..|s| - 1] + [last];
      assert forall more :: s + more == s[..|s| - 1] + ([last] + more);
    }
  }

  lemma EncodeStep(s: seq<Entry>, k: nat)
    requires AllWellFormed(s) && k < |s|
    ensures Encode(s[..k + 1]) == Encode(s[..k]) + EncodeEntry(s[k])
  {
    assert s[..k + 1][..k] == s[..k];
  }

  /** The stream determines the entries, whatever the lengths of their paths. */
  lemma DecodeInvertsEncode(s: seq<Entry>)
    requires AllWellFormed(s)
    ensures Decode(Encode(s)) == Some(s)
  {
    DecodeAfter(s, []);
    assert Encode(s) + [] == Encode(s);
    assert s + [] == s;
  }

  // ---- The digest of a list of records ----

  function ToEntry(r: Record): Option<Entry> {
    if r.NotAnObject? || r.path.None? || r.sha256.None? || !WellFormed(Entry(r.path.value, r.sha256.value)) then None
    else Some(Entry(r.path.value, r.sha256.value))
  }

  predicate AllValid(records: seq<Record>) {
    forall i :: 0 <= i < |records| ==> ToEntry(records[i]).Some?
  }

  function Entries(records: seq<Record>): (s: seq<Entry>)
    requires AllValid(records)
    ensures |s| == |records| && AllWellFormed(s)
    ensures forall i :: 0 <= i < |s| ==> s[i] == ToEntry(records[i]).value
  {
    seq(|records|, i requires 0 <= i < |records| => ToEntry(records[i]).value)
  }

  function Paths(s: seq<Entry>): (r: seq<Text>)
    ensures |r| == |s| && forall i :: 0 <= i < |s| ==> r[i] == s[i].path
  {
    seq(|s|, i requires 0 <= i < |s| => s[i].path)
  }

  predicate DistinctPaths(s: seq<Entry>) {
    |Elements(Paths(s))| == |s|
  }

  lemma DistinctPathsMeaning(s: seq<Entry>)
    requires DistinctPaths(s)
    ensures forall i, j :: 0 <= i < j < |s| ==> s[i].path != s[j].path && s[i] != s[j]
  {
    CountingDetectsRepeats(Paths(s));
    assert forall i :: 0 <= i < |s| ==> Paths(s)[i] == s[i].path;
  }

  lemma DistinctPathsIgnoresOrder(s: seq<Entry>, t: seq<Entry>)
    requires |s| == |t| && (forall e :: e in s <==> e in t) && DistinctPaths(s)
    ensures DistinctPaths(t)
  {
    forall p
      ensures p in Elements(Paths(s)) <==> p in Elements(Paths(t))
    {
      SamePath(s, t, p);
      SamePath(t, s, p);
    }
    assert Elements(Paths(s)) == Elements(Paths(t));
  }

  lemma SamePath(s: seq<Entry>, t: seq<Entry>, p: Text)
    requires forall e :: e in s ==> e in t
    ensures p in Elements(Paths(s)) ==> p in Elements(Paths(t))
  {
    if p in Elements(Paths(s)) {
      var i :| 0 <= i < |s| && Paths(s)[i] == p;
      assert s[i] in t;
      var j :| 0 <= j < |t| && t[j] == s[i];
      assert Paths(t)[j] == p;
    }
  }

  /** The digest as a function of the records, errors included. */
  function ClosureDigest(records: seq<Record>): Result<Digest> {
    if !AllValid(records) then Err(InvalidRecord)
    else if records == [] then Err(NoFiles)
    else
      var s := Entries(records);
      if !DistinctPaths(Normalize(s)) then Err(DuplicatePath)
      else
        NormalizeSorts(s);
        Ok(Sha256(TAG + Encode(Normalize(s))))
  }

  method DependencyClosureSha256(records: seq<Record>) returns (r: Result<Digest>)
    ensures r == ClosureDigest(records)
  {
    hide Encode, Normalize, DistinctPaths, IsHash, Sorted;
    var normalized: seq<Entry> := [];
    for k := 0 to |records|
      invariant AllValid(records[..k]) && normalized == Entries(records[..k])
    {
      var entry := ToEntry(records[k]);
      if entry.None? {
        assert !AllValid(records);
        return Err(InvalidRecord);
      }
      assert records[..k + 1] == records[..k] + [records[k]];
      normalized := normalized + [entry.value];
    }
    assert records[..|records|] == records;
    NormalizeSorts(normalized);
    normalized := Normalize(normalized);
    if normalized == [] {
      return Err(NoFiles);
    }
    if !DistinctPaths(normalized) {
      return Err(DuplicatePath);
    }
    r := HashEntries(normalized);
  }

  method HashEntries(normalized: seq<Entry>) returns (r: Result<Digest>)
    requires AllWellFormed(normalized)
    ensures r == Ok(Sha256(TAG + Encode(normalized)))
  {
    var digest := TAG;
    assert TAG + Encode([]) == TAG;
    assert normalized[..0] == [];
    hide *;
    for k := 0 to |normalized|
      invariant AllWellFormed(normalized[..k]) && digest == TAG + Encode(normalized[..k])
    {
      HashStep(TAG, normalized, k);
      digest := digest + Length8(|normalized[k].path|);
      digest := digest + normalized[k].path;
      digest := digest + FromHex(normalized[k].sha256);
    }
    assert normalized[..|normalized|] == normalized;
    r := Ok(Sha256(digest));
  }

  lemma HashStep(tag: seq<byte>, s: seq<Entry>, k: nat)
    requires AllWellFormed(s) && k < |s|
    ensures WellFormed(s[k]) && AllWellFormed(s[..k]) && AllWellFormed(s[..k + 1])
    ensures |s[k].path| < LENGTH_LIMIT && IsHash(s[k].sha256)
    ensures tag + Encode(s[..k + 1]) ==
      tag + Encode(s[..k]) + Length8(|s[k].path|) + s[k].path + FromHex(s[k].sha256)
  {
    EncodeStep(s, k);
    hide Encode, IsHash, FromHex, Length8;
    Associate(tag + Encode(s[..k]), Length8(|s[k].path|), s[k].path, FromHex(s[k].sha256));
  }

  // ---- The hashed stream, byte by byte ----

  /** At the first place where they differ x has the smaller byte, or it ends there. */
  predicate Ascends(x: Text, y: Text) {
    exists i ::
      && 0 <= i <= |x| && i <= |y| && x[..i] == y[..i]
      && (if i == |x| then i < |y| else i < |y| && x[i] < y[i])
  }

  lemma {:induction false} LessAscends(x: Text, y: Text)
    requires Less(x, y)
    ensures Ascends(x, y)
  {
    if x == [] || x[0] != y[0] {
      assert x[..0] == y[..0];
    } else {
      LessAscends(x[1..], y[1..]);
      var i :| 0 <= i <= |x[1..]| && i <= |y[1..]| && x[1..][..i] == y[1..][..i]
        && (if i == |x[1..]| then i < |y[1..]| else i < |y[1..]| && x[1..][i] < y[1..][i]);
      assert x[..i + 1] == [x[0]] + x[1..][..i] && y[..i + 1] == [y[0]] + y[1..][..i];
    }
  }

  /** The number that eight bytes denote, the most significant one first. */
  function BigEndian8(b: seq<byte>): nat
    requires |b| == 8
  {
    0x100_0000_0000_0000 * (b[0] as int) + 0x1_0000_0000_0000 * (b[1] as int)
    + 0x100_0000_0000 * (b[2] as int) + 0x1_0000_0000 * (b[3] as int)
    + 0x100_0000 * (b[4] as int) + 0x1_0000 * (b[5] as int) + 0x100 * (b[6] as int) + b[7] as int
  }

  /** The character of one hexadecimal digit, in lower case. */
  function LowerHex(v: nat): int {
    if v < 10 then 48 + v else 87 + v
  }

  /** At an offset: the length of the path, the path, and the bytes that the hash is the hexadecimal text of. */
  predicate LaidOut(stream: seq<byte>, at: nat, e: Entry) {
    && at + 8 + |e.path| + 32 <= |stream| && |e.sha256| == 64
    && BigEndian8(stream[at..at + 8]) == |e.path|
    && stream[at + 8..at + 8 + |e.path|] == e.path
    && forall i :: 0 <= i < 32 ==>
      var v := stream[at + 8 + |e.path| + i];
      e.sha256[2 * i] == LowerHex(v / 16) && e.sha256[2 * i + 1] == LowerHex(v % 16)
  }

  /** Where the k-th entry begins. */
  function Offset(s: seq<Entry>, k: nat): nat
    requires k <= |s|
  {
    if k == 0 then 38 else Offset(s, k - 1) + 40 + |s[k - 1].path|
  }

  lemma FromBytes8(b: seq<byte>)
    requires |b| == 8
    ensures FromBytes(b) == BigEndian8(b)
  {
    hide FromBytes;
    FromBytesSplit(b, 8);
    FromBytesSplit(b, 7);
    FromBytesSplit(b, 6);
    FromBytesSplit(b, 5);
    FromBytesSplit(b, 4);
    FromBytesSplit(b, 3);
    FromBytesSplit(b, 2);
    FromBytesSplit(b, 1);
    assert b[..8] == b && b[..0] == [];
    FromNoBytes();
  }

  lemma FromNoBytes()
    ensures FromBytes([]) == 0
  {}

  lemma FromBytesSplit(b: seq<byte>, k: nat)
    requires 0 < k <= |b|
    ensures FromBytes(b[..k]) == 256 * FromBytes(b[..k - 1]) + b[k - 1]
  {
    assert b[..k][..k - 1] == b[..k - 1];
  }

  lemma HexIsLower(s: seq<byte>, i: nat)
    requires IsHash(s) && i < 32
    ensures s[2 * i] == LowerHex(FromHex(s)[i] / 16) && s[2 * i + 1] == LowerHex(FromHex(s)[i] % 16)
  {
    var high, low := HexValue(s[2 * i]), HexValue(s[2 * i + 1]);
    assert FromHex(s)[i] == 16 * high + low;
    assert (16 * high + low) / 16 == high && (16 * high + low) % 16 == low;
  }

  lemma EntryIsLaidOut(front: seq<byte>, e: Entry, rest: seq<byte>)
    requires WellFormed(e)
    ensures LaidOut(front + EncodeEntry(e) + rest, |front|, e)
  {
    var stream, at, n := front + EncodeEntry(e) + rest, |front|, |e.path|;
    assert stream[at..at + 8] == Length8(n);
    FromBytes8(Length8(n));
    assert stream[at + 8..at + 8 + n] == e.path;
    forall i | 0 <= i < 32
      ensures e.sha256[2 * i] == LowerHex(stream[at + 8 + n + i] / 16)
      ensures e.sha256[2 * i + 1] == LowerHex(stream[at + 8 + n + i] % 16)
    {
      assert stream[at + 8 + n + i] == FromHex(e.sha256)[i];
      HexIsLower(e.sha256, i);
    }
    hide FromBytes, BigEndian8, FromHex, Length8, LowerHex;
  }

  lemma EncodedLength(s: seq<Entry>, k: nat)
    requires AllWellFormed(s) && k <= |s|
    ensures |TAG + Encode(s[..k])| == Offset(s, k)
  {
    if k > 0 {
      EncodedLength(s, k - 1);
      EncodeStep(s, k - 1);
    }
  }

  lemma {:induction false} EncodedTail(s: seq<Entry>, k: nat) returns (tail: seq<byte>)
    requires AllWellFormed(s) && k <= |s|
    ensures Encode(s) == Encode(s[..k]) + tail
    decreases |s| - k
  {
    if k == |s| {
      assert s[..k] == s;
      tail := [];
    } else {
      EncodeStep(s, k);
      hide Encode, EncodeEntry;
      var more := EncodedTail(s, k + 1);
      tail := EncodeEntry(s[k]) + more;
      assert Encode(s[..k]) + EncodeEntry(s[k]) + more == Encode(s[..k]) + tail;
    }
  }

  lemma Regroup(tag: seq<byte>, front: seq<byte>, entry: seq<byte>, tail: seq<byte>)
    ensures tag + (front + entry + tail) == (tag + front) + entry + tail
  {}

  lemma StreamIsLaidOut(s: seq<Entry>, k: nat)
    requires AllWellFormed(s) && k < |s|
    ensures LaidOut(TAG + Encode(s), Offset(s, k), s[k])
  {
    hide *;
    EncodedLength(s, k);
    EncodeStep(s, k);
    var tail := EncodedTail(s, k + 1);
    AllOf(s, k);
    Regroup(TAG, Encode(s[..k]), EncodeEntry(s[k]), tail);
    EntryIsLaidOut(TAG + Encode(s[..k]), s[k], tail);
  }

  lemma AllOf(s: seq<Entry>, k: nat)
    requires AllWellFormed(s) && k < |s|
    ensures WellFormed(s[k]) && AllWellFormed(s[..k])
  {}

  lemma {:induction false} SortedAscends(s: seq<Entry>, k: nat)
    requires Sorted(BEFORE, s) && k + 1 < |s| && forall i, j :: 0 <= i < j < |s| ==> s[i].path != s[j].path
    ensures Ascends(s[k].path, s[k + 1].path)
  {
    if k == 0 {
      assert s[1] in s[1..] && !Before(s[1], s[0]);
      BeforeIsTotal(s[0], s[1]);
      LessAscends(s[0].path, s[1].path);
    } else {
      SortedAscends(s[1..], k - 1);
    }
  }

  lemma Preimage(records: seq<Record>)
    requires ClosureDigest(records).Ok?
    ensures AllValid(records) && AllWellFormed(Normalize(Entries(records)))
    ensures DistinctPaths(Normalize(Entries(records)))
    ensures
      var stream := ClosureDigest(records).value.preimage;
      && stream == TAG + Encode(Normalize(Entries(records)))
      && stream[..38] == TAG && stream[38..] == Encode(Normalize(Entries(records)))
  {
    NormalizeSorts(Entries(records));
    hide Normalize, DistinctPaths, Encode;
  }

  /**
    What is hashed, in bytes: the tag, and then the given pairs in ascending order of their paths, each
    as the big-endian length of the path in eight bytes, the path and the 32 bytes of the hash.
   */
  lemma HashedStream(records: seq<Record>) returns (s: seq<Entry>)
    requires ClosureDigest(records).Ok?
    ensures multiset(s) == multiset(Entries(records))
    ensures forall k :: 0 <= k < |s| - 1 ==> Ascends(s[k].path, s[k + 1].path)
    ensures
      var stream := ClosureDigest(records).value.preimage;
      && |stream| == Offset(s, |s|) && stream[..38] == TAG
      && forall k :: 0 <= k < |s| ==> LaidOut(stream, Offset(s, k), s[k])
    ensures Decode(ClosureDigest(records).value.preimage[38..]) == Some(s)
  {
    Preimage(records);
    s := Normalize(Entries(records));
    hide *;
    NormalizeSorts(Entries(records));
    DistinctPathsMeaning(s);
    assert s[..|s|] == s;
    EncodedLength(s, |s|);
    DecodeInvertsEncode(s);
    forall k | 0 <= k < |s|
      ensures LaidOut(TAG + Encode(s), Offset(s, k), s[k])
      ensures k < |s| - 1 ==> Ascends(s[k].path, s[k + 1].path)
    {
      StreamIsLaidOut(s, k);
      if k < |s| - 1 {
        SortedAscends(s, k);
      }
    }
  }

  /** Which lists of records are refused, and why. */
  predicate Admissible(r: Record) {
    && r.Fields? && r.path.Some? && r.sha256.Some? && 0 < |r.path.value| < LENGTH_LIMIT && |r.sha256.value| == 64
    && forall i :: 0 <= i < 64 ==> 48 <= r.sha256.value[i] <= 57 || 97 <= r.sha256.value[i] <= 102
  }

  lemma RepeatedPath(s: seq<Entry>)
    requires !DistinctPaths(s)
    ensures exists i, j :: 0 <= i < j < |s| && s[i].path == s[j].path
  {
    CountingDetectsRepeats(Paths(s));
    var i, j :| 0 <= i < j < |s| && Paths(s)[i] == Paths(s)[j];
    assert s[i].path == s[j].path;
  }

  lemma RefusedIff(records: seq<Record>)
    ensures ClosureDigest(records) == Err(InvalidRecord) <==>
      exists i :: 0 <= i < |records| && !Admissible(records[i])
    ensures ClosureDigest(records) == Err(NoFiles) <==> records == []
    ensures ClosureDigest(records) == Err(DuplicatePath) <==>
      && (forall i :: 0 <= i < |records| ==> Admissible(records[i]))
      && exists i, j :: 0 <= i < j < |records| && records[i].path == records[j].path
  {
    forall i | 0 <= i < |records|
      ensures ToEntry(records[i]).Some? <==> Admissible(records[i])
    {}
    if AllValid(records) {
      var s := Entries(records);
      NormalizeSorts(s);
      if DistinctPaths(Normalize(s)) {
        DistinctPathsIgnoresOrder(Normalize(s), s);
      }
      if DistinctPaths(s) {
        DistinctPathsIgnoresOrder(s, Normalize(s));
        DistinctPathsMeaning(s);
      } else {
        RepeatedPath(s);
      }
    }
  }

  // ---- What equal digests mean ----

  /** The order in which the records are reported does not matter, not even for the errors. */
  lemma DigestIgnoresOrder(r1: seq<Record>, r2: seq<Record>)
    requires multiset(r1) == multiset(r2)
    ensures ClosureDigest(r1) == ClosureDigest(r2)
  {
    forall i | 0 <= i < |r1|
      ensures r1[i] in r2
    {
      assert r1[i] in multiset(r2);
    }
    forall i | 0 <= i < |r2|
      ensures r2[i] in r1
    {
      assert r2[i] in multiset(r1);
    }
    assert |multiset(r1)| == |r1| && |multiset(r2)| == |r2|;
    if AllValid(r1) {
      var pick := (r: Record) => if ToEntry(r).Some? then ToEntry(r).value else Entry([], []);
      ImageMultiset(pick, r1, Entries(r1), r2, Entries(r2));
      NormalizeIsCanonical(Entries(r1), Entries(r2));
    }
  }

  /** Two closures have the same digest exactly when they are the same set of (path, hash) pairs. */
  lemma DigestIsInjective(r1: seq<Record>, r2: seq<Record>)
    requires ClosureDigest(r1).Ok? && ClosureDigest(r2).Ok?
    ensures ClosureDigest(r1) == ClosureDigest(r2) <==> (forall e :: e in Entries(r1) <==> e in Entries(r2))
  {
    var s1, s2 := Entries(r1), Entries(r2);
    var t1, t2 := Normalize(s1), Normalize(s2);
    NormalizeSorts(s1);
    NormalizeSorts(s2);
    hide Normalize, Sorted;
    DecodeInvertsEncode(t1);
    DecodeInvertsEncode(t2);
    hide Encode, Decode;
    assert (TAG + Encode(t1))[|TAG|..] == Encode(t1);
    assert (TAG + Encode(t2))[|TAG|..] == Encode(t2);
    if forall e :: e in s1 <==> e in s2 {
      DistinctPathsMeaning(t1);
      DistinctPathsMeaning(t2);
      NoRepeatsMultiset(t1, t2);
      BeforeIsOrder();
      SortedIsUnique(BEFORE, t1, t2);
    }
  }

  // ---- Re-hashing recorded paths against a source tree ----

  /** The content hash now found at a logical path; paths that do not resolve inside their root are absent. */
  type FileHashes = map<Text, Text>

  predicate KnownPrefix(path: Text) {
    LSP <= path || COMPILER <= path
  }

  /** A record whose file is still there with the recorded content. */
  predicate Unchanged(files: FileHashes, r: Record) {
    && r.Fields? && r.path.Some? && KnownPrefix(r.path.value)
    && r.path.value in files && r.sha256 == Some(files[r.path.value])
  }

  predicate Rehashable(files: FileHashes, r: Record) {
    r.Fields? && r.path.Some? && KnownPrefix(r.path.value) && r.path.value in files
  }

  function Rehash(files: FileHashes, r: Record): Record
    requires Rehashable(files, r)
  {
    Fields(r.path, Some(files[r.path.value]))
  }

  function Rehashed(files: FileHashes, records: seq<Record>): (s: seq<Record>)
    requires forall i :: 0 <= i < |records| ==> Rehashable(files, records[i])
    ensures |s| == |records|
  {
    seq(|records|, i requires 0 <= i < |records| => Rehash(files, records[i]))
  }

  /**
    With verification on, success means that nothing changed since the records were made: it happens
    exactly when every file has its recorded hash and the records themselves have a digest, and
    then the result is that recorded digest. Without verification the result is the digest of
    the present contents.
   */
  method ClosureDigestForRoots(files: FileHashes, records: seq<Record>, verify: bool) returns (r: Result<Digest>)
    ensures verify ==>
      (r.Ok? <==> (forall i :: 0 <= i < |records| ==> Unchanged(files, records[i])) && ClosureDigest(records).Ok?)
    ensures verify && r.Ok? ==> r == ClosureDigest(records)
    ensures !verify && (forall i :: 0 <= i < |records| ==> Rehashable(files, records[i])) ==>
      r == ClosureDigest(Rehashed(files, records))
    ensures !verify && !(forall i :: 0 <= i < |records| ==> Rehashable(files, records[i])) ==> r.Err?
  {
    hide ClosureDigest;
    var refreshed: seq<Record> := [];
    for k := 0 to |records|
      invariant forall i :: 0 <= i < k ==> Rehashable(files, records[i])
      invariant verify ==> forall i :: 0 <= i < k ==> Unchanged(files, records[i])
      invariant |refreshed| == k && forall i :: 0 <= i < k ==> refreshed[i] == Rehash(files, records[i])
    {
      var record := records[k];
      if record.NotAnObject? || record.path.None? {
        return Err(InvalidRecord);
      }
      var logical := record.path.value;
      if !(LSP <= logical) && !(COMPILER <= logical) {
        return Err(UnknownPrefix);
      }
      if logical !in files {
        return Err(Unresolvable);
      }
      var contentHash := files[logical];
      if verify && Some(contentHash) != record.sha256 {
        return Err(ContentChanged);
      }
      refreshed := refreshed + [Fields(Some(logical), Some(contentHash))];
    }
    assert refreshed == Rehashed(files, records);
    if verify {
      assert refreshed == records;
    }
    r := DependencyClosureSha256(refreshed);
  }

  lemma PathsAreDistinct(records: seq<Record>)
    requires ClosureDigest(records).Ok?
    ensures
      var s := Entries(records);
      forall i, j :: 0 <= i < j < |s| ==> s[i].path != s[j].path && s[i] != s[j]
  {
    var s := Entries(records);
    NormalizeSorts(s);
    DistinctPathsIgnoresOrder(Normalize(s), s);
    DistinctPathsMeaning(s);
  }

  /**
    Even without verification, a re-hash that reproduces the recorded digest proves every file
    unchanged.
   */
  lemma SameDigestMeansUnchanged(files: FileHashes, records: seq<Record>)
    requires forall i :: 0 <= i < |records| ==> Rehashable(files, records[i])
    requires ClosureDigest(records).Ok? && ClosureDigest(Rehashed(files, records)) == ClosureDigest(records)
    ensures forall i :: 0 <= i < |records| ==> Unchanged(files, records[i])
  {
    var again := Rehashed(files, records);
    DigestIsInjective(again, records);
    var s, t := Entries(records), Entries(again);
    PathsAreDistinct(records);
    hide ClosureDigest, ToEntry;
    forall i | 0 <= i < |records|
      ensures Unchanged(files, records[i])
    {
      assert again[i] == Rehash(files, records[i]);
      assert t[i] in s;
      var j :| 0 <= j < |s| && s[j] == t[i];
    }
  }
}
