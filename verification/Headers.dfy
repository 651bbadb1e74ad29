/**
  LSP header blocks as two readers take them apart: the strict decoder of the test client, and the
  lenient scan of the output-stall test.
 */
module Headers {
  import opened Bytes

  type Text = seq<byte>

  const CR: byte := 13
  const LF: byte := 10
  const COLON: byte := 58

  /** "content-length" */
  const CONTENT_LENGTH: Text := [99, 111, 110, 116, 101, 110, 116, 45, 108, 101, 110, 103, 116, 104]
  /** "Content-Length: " */
  const FIELD: Text := [67, 111, 110, 116, 101, 110, 116, 45, 76, 101, 110, 103, 116, 104, 58, 32]

  datatype FrameError =
    | HeaderTooLong
    | EmptyLine
    | MalformedLine
    | DuplicateField
    | ControlByte
    | NoContentLength
    | InvalidContentLength
    | NumberTooLong
    | BodyTooLong
    | InvalidBody

  datatype Result<+T> = Ok(value: T) | Err(error: FrameError)

  /** maxDigits is the interpreter's limit on int() conversions; 0 means none. */
  datatype Limits = Limits(maxHeader: nat, maxBody: nat, maxDigits: nat)

  predicate DigitsAllowed(maxDigits: nat, n: nat) {
    maxDigits == 0 || n <= maxDigits
  }

  // ---- Splitting a block into lines and a line at its colon ----

  /** The first CRLF at or after i, or the length of s. */
  function FindCrlf(s: Text, i: nat): (e: nat)
    requires i <= |s|
    ensures i <= e <= |s|
    ensures e < |s| ==> e + 1 < |s| && s[e] == CR && s[e + 1] == LF
    ensures forall p :: i <= p < e && p + 1 < |s| ==> !(s[p] == CR && s[p + 1] == LF)
    decreases |s| - i
  {
    if i + 1 >= |s| then |s| else if s[i] == CR && s[i + 1] == LF then i else FindCrlf(s, i + 1)
  }

  /** header.split(b"\r\n") */
  function Lines(s: Text): (r: seq<Text>)
    ensures r != []
    decreases |s|
  {
    var e := FindCrlf(s, 0);
    if e == |s| then [s] else [s[..e]] + Lines(s[e + 2..])
  }

  function FindColon(s: Text, i: nat): (e: nat)
    requires i <= |s|
    ensures i <= e <= |s|
    ensures e < |s| ==> s[e] == COLON
    ensures forall p :: i <= p < e ==> s[p] != COLON
    decreases |s| - i
  {
    if i == |s| || s[i] == COLON then i else FindColon(s, i + 1)
  }

  // ---- Bytes methods ----

  function LowerByte(b: byte): byte {
    if 65 <= b <= 90 then b + 32 else b
  }

  function Lower(s: Text): (r: Text)
    ensures |r| == |s|
  {
    seq(|s|, i requires 0 <= i < |s| => LowerByte(s[i]))
  }

  /** strip(b" \t") when all is false, strip() of ASCII whitespace when all is true. */
  predicate IsSpace(all: bool, b: byte) {
    b == 32 || b == 9 || (all && 10 <= b <= 13)
  }

  function LeftStrip(all: bool, s: Text): Text {
    if s != [] && IsSpace(all, s[0]) then LeftStrip(all, s[1..]) else s
  }

  function RightStrip(all: bool, s: Text): Text {
    if s != [] && IsSpace(all, s[|s| - 1]) then RightStrip(all, s[..|s| - 1]) else s
  }

  function Strip(all: bool, s: Text): Text {
    RightStrip(all, LeftStrip(all, s))
  }

  /** int(text) for the text that strip() leaves: optional sign, digits with single underscores between them. */
  function ParseInt(maxDigits: nat, s: Text): Option<int> {
    var negative := s != [] && s[0] == 45;
    var digits := if negative || (s != [] && s[0] == 43) then s[1..] else s;
    if !UnderscoresBetween(digits) then None
    else
      var d := DropUnderscores(digits);
      if d == [] || !AllDigits(d) || !DigitsAllowed(maxDigits, |d|) then None
      else
        var magnitude: int := Value(d);
        Some(if negative then -magnitude else magnitude)
  }

  predicate UnderscoresBetween(s: Text) {
    forall i :: 0 <= i < |s| && s[i] == 95 ==> 0 < i < |s| - 1 && s[i - 1] != 95
  }

  function DropUnderscores(s: Text): Text {
    if s == [] then [] else DropUnderscores(s[..|s| - 1]) + if s[|s| - 1] == 95 then [] else [s[|s| - 1]]
  }

  // ---- The strict reader ----

  predicate IsTokenByte(b: byte) {
    || 48 <= b <= 57 || 65 <= b <= 90 || 97 <= b <= 122
    || b in {33, 35, 36, 37, 38, 39, 42, 43, 45, 46, 94, 95, 96, 124, 126}
  }

  predicate IsToken(s: Text) {
    s != [] && forall i :: 0 <= i < |s| ==> IsTokenByte(s[i])
  }

  predicate HasControl(s: Text) {
    exists i :: 0 <= i < |s| && ((s[i] < 32 && s[i] != 9) || s[i] == 127)
  }

  type Fields = map<Text, Text>

  function AddLine(fields: Fields, line: Text): Result<Fields> {
    var colon := FindColon(line, 0);
    if colon == |line| || !IsToken(line[..colon]) then Err(MalformedLine)
    else
      var folded := Lower(line[..colon]);
      if folded in fields then Err(DuplicateField)
      else
        var value := Strip(false, line[colon + 1..]);
        if HasControl(value) then Err(ControlByte) else Ok(fields[folded := value])
  }

  function AddLines(fields: Fields, lines: seq<Text>): Result<Fields>
    decreases |lines|
  {
    if lines == [] then Ok(fields)
    else
      match AddLine(fields, lines[0])
      case Err(e) => Err(e)
      case Ok(more) => AddLines(more, lines[1..])
  }

  function LengthField(limits: Limits, fields: Fields): Result<nat> {
    if CONTENT_LENGTH !in fields then Err(NoContentLength)
    else
      var length := fields[CONTENT_LENGTH];
      if length == [] || !AllDigits(length) then Err(InvalidContentLength)
      else if !DigitsAllowed(limits.maxDigits, |length|) then Err(NumberTooLong)
      else if Value(length) > limits.maxBody then Err(BodyTooLong)
      else Ok(Value(length))
  }

  /** The body length a header block announces, or why the block is refused. */
  function ContentLength(limits: Limits, header: Text): (r: Result<nat>)
    ensures r.Ok? ==> r.value <= limits.maxBody && |header| <= limits.maxHeader
  {
    if |header| > limits.maxHeader then Err(HeaderTooLong)
    else
      var lines := Lines(header);
      if [] in lines then Err(EmptyLine)
      else
        match AddLines(map[], lines)
        case Err(e) => Err(e)
        case Ok(fields) => LengthField(limits, fields)
  }

  /** The reader itself: a dictionary filled line by line. */
  method ReadContentLength(limits: Limits, header: Text) returns (r: Result<nat>)
    ensures r == ContentLength(limits, header)
  {
    hide AddLine, LengthField, Lines;
    if |header| > limits.maxHeader {
      return Err(HeaderTooLong);
    }
    var lines := Lines(header);
    if [] in lines {
      return Err(EmptyLine);
    }
    var fields: Fields := map[];
    for k := 0 to |lines|
      invariant AddLines(map[], lines) == AddLines(fields, lines[k..])
    {
      assert lines[k..][1..] == lines[k + 1..];
      var added := AddLine(fields, lines[k]);
      if added.Err? {
        return Err(added.error);
      }
      fields := added.value;
    }
    r := LengthField(limits, fields);
  }

  // ---- Which blocks the strict reader accepts ----

  /** name ":" value, with a token for a name and no control bytes in the value. */
  predicate IsField(line: Text) {
    && FindColon(line, 0) < |line| && FieldName(line) != []
    && (forall i :: 0 <= i < FindColon(line, 0) ==> IsTokenByte(line[i]))
    && !HasControl(FieldValue(line))
  }

  function FieldName(line: Text): Text {
    Lower(line[..FindColon(line, 0)])
  }

  function FieldValue(line: Text): Text
    requires FindColon(line, 0) < |line|
  {
    Strip(false, line[FindColon(line, 0) + 1..])
  }

  lemma AddLineIff(fields: Fields, line: Text)
    ensures AddLine(fields, line).Ok? <==> IsField(line) && FieldName(line) !in fields
    ensures AddLine(fields, line).Ok? ==>
      AddLine(fields, line).value == fields[FieldName(line) := FieldValue(line)]
  {
    hide Strip, HasControl, IsTokenByte, FindColon;
  }

  /** Lines are accepted exactly when each is a field and no two have the same name. */
  lemma {:induction false} AddLinesIff(fields: Fields, lines: seq<Text>)
    ensures AddLines(fields, lines).Ok? <==>
      && (forall i :: 0 <= i < |lines| ==> IsField(lines[i]) && FieldName(lines[i]) !in fields)
      && (forall i, j :: 0 <= i < j < |lines| ==> FieldName(lines[i]) != FieldName(lines[j]))
    decreases |lines|
  {
    if lines != [] {
      AddLineIff(fields, lines[0]);
      hide AddLine, IsField, FieldName, FieldValue;
      if AddLine(fields, lines[0]).Ok? {
        AddLinesIff(AddLine(fields, lines[0]).value, lines[1..]);
        assert forall i :: 0 < i < |lines| ==> lines[i] == lines[1..][i - 1];
      }
    }
  }

  /** Then each is recorded under its name, and nothing else. */
  lemma {:induction false} AddLinesRecord(fields: Fields, lines: seq<Text>)
    requires AddLines(fields, lines).Ok?
    ensures
      var r := AddLines(fields, lines).value;
      && (forall i :: 0 <= i < |lines| ==> FieldName(lines[i]) in r && IsField(lines[i])
                                           && r[FieldName(lines[i])] == FieldValue(lines[i]))
      && (forall name :: name in fields ==> name in r && r[name] == fields[name])
      && (forall name :: name in r ==> name in fields || exists i :: 0 <= i < |lines| && FieldName(lines[i]) == name)
    decreases |lines|
  {
    if lines != [] {
      AddLineIff(fields, lines[0]);
      hide AddLine, IsField, FieldName, FieldValue;
      var rest, r := lines[1..], AddLines(fields, lines).value;
      AddLinesRecord(AddLine(fields, lines[0]).value, rest);
      hide AddLines;
      forall i | 0 <= i < |lines|
        ensures FieldName(lines[i]) in r && IsField(lines[i]) && r[FieldName(lines[i])] == FieldValue(lines[i])
      {
        if i > 0 {
          assert lines[i] == rest[i - 1];
        }
      }
      assert forall i :: 0 <= i < |rest| ==> rest[i] == lines[i + 1];
    }
  }

  /**
    A block announces a length exactly when it is not too long, each of its lines is a field, no two
    have the same name whatever its case, and the one named Content-Length has digits for a value that
    can be converted and is not above the limit. Other fields may stand beside it in any order.
   */
  lemma AnnouncesIff(limits: Limits, header: Text, n: nat)
    ensures ContentLength(limits, header) == Ok(n) <==>
      && |header| <= limits.maxHeader
      && var lines := Lines(header);
      && (forall i :: 0 <= i < |lines| ==> lines[i] != [] && IsField(lines[i]))
      && (forall i, j :: 0 <= i < j < |lines| ==> FieldName(lines[i]) != FieldName(lines[j]))
      && exists i ::
        && 0 <= i < |lines| && FieldName(lines[i]) == CONTENT_LENGTH
        && FieldValue(lines[i]) != [] && AllDigits(FieldValue(lines[i])) && Value(FieldValue(lines[i])) == n
        && DigitsAllowed(limits.maxDigits, |FieldValue(lines[i])|) && n <= limits.maxBody
  {
    var lines := Lines(header);
    AddLinesIff(map[], lines);
    hide AddLines, Lines, IsField, FieldName, FieldValue, AllDigits, Value, DigitsAllowed;
    assert [] in lines <==> exists i :: 0 <= i < |lines| && lines[i] == [];
    if AddLines(map[], lines).Ok? {
      LengthIsRecorded(lines);
    }
  }

  lemma LengthIsRecorded(lines: seq<Text>)
    requires AddLines(map[], lines).Ok?
    ensures
      var r := AddLines(map[], lines).value;
      && (forall i :: 0 <= i < |lines| && FieldName(lines[i]) == CONTENT_LENGTH ==>
            CONTENT_LENGTH in r && IsField(lines[i]) && r[CONTENT_LENGTH] == FieldValue(lines[i]))
      && (CONTENT_LENGTH in r ==> exists i :: 0 <= i < |lines| && FieldName(lines[i]) == CONTENT_LENGTH)
  {
    AddLinesRecord(map[], lines);
    hide AddLines, IsField, FieldName, FieldValue;
  }

  // ---- The lenient reader ----

  /** line.lower().startswith(b"content-length:") */
  predicate IsLengthLine(line: Text) {
    |line| >= 15 && Lower(line[..14]) == CONTENT_LENGTH && line[14] == COLON
  }

  /** The list of int(...) values of all length lines; None if int() raises. */
  function Lengths(maxDigits: nat, lines: seq<Text>): Option<seq<int>> {
    if lines == [] then Some([])
    else if !IsLengthLine(lines[0]) then Lengths(maxDigits, lines[1..])
    else
      match ParseInt(maxDigits, Strip(true, lines[0][15..]))
      case None => None
      case Some(n) =>
        match Lengths(maxDigits, lines[1..])
        case None => None
        case Some(rest) => Some([n] + rest)
  }

  // ---- Both readers agree on every block the strict one accepts ----

  lemma {:induction false} PlainDigits(s: Text)
    requires AllDigits(s)
    ensures DropUnderscores(s) == s && UnderscoresBetween(s)
  {
    if s != [] {
      PlainDigits(s[..|s| - 1]);
      assert s == s[..|s| - 1] + [s[|s| - 1]];
    }
  }

  lemma ParsePlainDigits(maxDigits: nat, s: Text)
    requires s != [] && AllDigits(s)
    ensures ParseInt(maxDigits, s) == if DigitsAllowed(maxDigits, |s|) then Some(Value(s)) else None
  {
    PlainDigits(s);
  }

  /** Stripping more kinds of whitespace removes nothing more around digits. */
  lemma StripAgrees(s: Text)
    requires Strip(false, s) != [] && AllDigits(Strip(false, s))
    ensures Strip(true, s) == Strip(false, s)
  {
    LeftStripAgrees(s);
    RightStripAgrees(LeftStrip(false, s));
  }

  lemma {:induction false} LeftStripAgrees(s: Text)
    requires RightStrip(false, LeftStrip(false, s)) != []
    requires AllDigits(RightStrip(false, LeftStrip(false, s)))
    ensures LeftStrip(true, s) == LeftStrip(false, s)
  {
    if s != [] {
      if IsSpace(false, s[0]) {
        LeftStripAgrees(s[1..]);
      } else {
        RightStripKeepsFirst(s);
      }
    }
  }

  lemma {:induction false} RightStripKeepsFirst(s: Text)
    requires RightStrip(false, s) != []
    ensures s != [] && RightStrip(false, s)[0] == s[0]
  {
    if IsSpace(false, s[|s| - 1]) {
      RightStripKeepsFirst(s[..|s| - 1]);
    }
  }

  lemma {:induction false} RightStripAgrees(s: Text)
    requires RightStrip(false, s) != [] && AllDigits(RightStrip(false, s))
    ensures RightStrip(true, s) == RightStrip(false, s)
  {
    if IsSpace(false, s[|s| - 1]) {
      RightStripAgrees(s[..|s| - 1]);
    }
  }

  /** Both readers pick the same lines. */
  lemma LengthLineIsField(line: Text)
    requires FindColon(line, 0) < |line|
    ensures IsLengthLine(line) <==> Lower(line[..FindColon(line, 0)]) == CONTENT_LENGTH
    ensures IsLengthLine(line) ==> FindColon(line, 0) == 14
  {
    if IsLengthLine(line) {
      forall p | 0 <= p < 14
        ensures line[p] != COLON
      {
        assert LowerByte(line[p]) == Lower(line[..14])[p] == CONTENT_LENGTH[p];
      }
    }
  }

  /** What one accepted line does to the recorded length. */
  lemma LineEffect(fields: Fields, line: Text)
    requires AddLine(fields, line).Ok?
    ensures
      var more := AddLine(fields, line).value;
      if IsLengthLine(line) then
        CONTENT_LENGTH !in fields && CONTENT_LENGTH in more && more[CONTENT_LENGTH] == Strip(false, line[15..])
      else
        && (CONTENT_LENGTH in more <==> CONTENT_LENGTH in fields)
        && (CONTENT_LENGTH in fields ==> more[CONTENT_LENGTH] == fields[CONTENT_LENGTH])
  {
    LengthLineIsField(line);
    hide IsToken, HasControl, Strip, Lower, IsLengthLine;
  }

  lemma {:induction false} SameLines(maxDigits: nat, fields: Fields, lines: seq<Text>)
    requires AddLines(fields, lines).Ok? && CONTENT_LENGTH in AddLines(fields, lines).value
    requires
      var length := AddLines(fields, lines).value[CONTENT_LENGTH];
      length != [] && AllDigits(length) && DigitsAllowed(maxDigits, |length|)
    ensures
      var length := AddLines(fields, lines).value[CONTENT_LENGTH];
      if CONTENT_LENGTH in fields then fields[CONTENT_LENGTH] == length && Lengths(maxDigits, lines) == Some([])
      else Lengths(maxDigits, lines) == Some([Value(length)])
    decreases |lines|
  {
    if lines != [] {
      var line := lines[0];
      LineEffect(fields, line);
      var more := AddLine(fields, line).value;
      assert AddLines(fields, lines) == AddLines(more, lines[1..]);
      hide AddLine, AddLines, Strip, ParseInt;
      SameLines(maxDigits, more, lines[1..]);
      if IsLengthLine(line) {
        StripAgrees(line[15..]);
        var length := more[CONTENT_LENGTH];
        ParsePlainDigits(maxDigits, length);
        assert [Value(length)] + [] == [Value(length)];
        assert Lengths(maxDigits, lines) == Some([Value(length)]);
      }
    }
  }

  /** On a block that the strict reader accepts, the lenient one finds the same single length. */
  lemma ReadersAgree(limits: Limits, header: Text)
    requires ContentLength(limits, header).Ok?
    ensures Lengths(limits.maxDigits, Lines(header)) == Some([ContentLength(limits, header).value])
  {
    SameLines(limits.maxDigits, map[], Lines(header));
  }

  // ---- The header the encoder writes ----

  function EncodedHeader(n: nat): Text {
    FIELD + Digits(n)
  }

  lemma EncodedHeaderHasNoBreak(n: nat, i: nat)
    requires i < |EncodedHeader(n)|
    ensures EncodedHeader(n)[i] != CR
  {}

  lemma StripField(s: Text)
    requires s != [] && AllDigits(s)
    ensures Strip(false, [32] + s) == s
  {
    assert ([32] + s)[1..] == s;
    assert LeftStrip(false, s) == s;
  }

  /** Reading an encoded header gives back the encoded length. */
  lemma EncodedHeaderIsRead(limits: Limits, n: nat)
    requires |EncodedHeader(n)| <= limits.maxHeader && n <= limits.maxBody
    requires DigitsAllowed(limits.maxDigits, |Digits(n)|)
    ensures ContentLength(limits, EncodedHeader(n)) == Ok(n)
  {
    var h := EncodedHeader(n);
    forall i | 0 <= i < |h|
      ensures h[i] != CR
    {
      EncodedHeaderHasNoBreak(n, i);
    }
    assert FindCrlf(h, 0) == |h|;
    assert Lines(h) == [h];
    EncodedLine(n);
    assert AddLines(map[], [h]) == AddLines(map[CONTENT_LENGTH := Digits(n)], [h][1..]);
  }

  lemma EncodedLine(n: nat)
    ensures AddLine(map[], EncodedHeader(n)) == Ok(map[CONTENT_LENGTH := Digits(n)])
  {
    hide FindColon, Lower, IsToken, Strip, HasControl, EncodedHeader, Digits;
    EncodedName(n);
    EncodedValue(n);
  }

  lemma EncodedValue(n: nat)
    ensures |EncodedHeader(n)| > 15 && Strip(false, EncodedHeader(n)[15..]) == Digits(n)
    ensures !HasControl(Digits(n))
  {
    hide Strip;
    assert EncodedHeader(n)[15..] == [32] + Digits(n);
    StripField(Digits(n));
  }

  lemma EncodedName(n: nat)
    ensures |EncodedHeader(n)| > 15 && FindColon(EncodedHeader(n), 0) == 14
    ensures Lower(EncodedHeader(n)[..14]) == CONTENT_LENGTH && IsToken(EncodedHeader(n)[..14])
  {
    var h := EncodedHeader(n);
    hide Digits;
    assert h[14] == COLON && forall i :: 0 <= i < 14 ==> h[i] == FIELD[i] != COLON;
    ColonAt(h, 0, 14);
  }

  lemma {:induction false} ColonAt(s: Text, i: nat, e: nat)
    requires i <= e < |s| && s[e] == COLON && forall p :: i <= p < e ==> s[p] != COLON
    ensures FindColon(s, i) == e
    decreases e - i
  {
    if i < e {
      ColonAt(s, i + 1, e);
    }
  }
}
