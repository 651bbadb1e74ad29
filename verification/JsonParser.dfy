/**
  The grammar of RFC 8259 as a parser, and the proof that it recovers every value from the text
  the writer produces.
 */
module JsonParser {
  import opened Bytes
  import opened JsonString
  import opened JsonValue
  import JsonNumber

  // ---- Numbers (section 6) ----

  /** The end of the run of digits that starts at i. */
  function DigitsEnd(s: Text, i: nat): (e: nat)
    requires i <= |s|
    ensures i <= e <= |s| && forall k :: i <= k < e ==> IsDigit(s[k])
    decreases |s| - i
  {
    if i == |s| || !IsDigit(s[i]) then i else DigitsEnd(s, i + 1)
  }

  /** int: a zero, or digits that do not start with zero; 0 if there is none at i. */
  function IntEnd(s: Text, i: nat): (e: nat)
    requires i <= |s|
    ensures e == 0 || i < e <= |s|
  {
    var e := DigitsEnd(s, i);
    if e == i || (s[i] == 48 && e > i + 1) then 0 else e
  }

  /** [ frac ], or 0 if a point is not followed by digits. */
  function FracEnd(s: Text, i: nat): (e: nat)
    requires i <= |s|
    ensures e == 0 || i <= e <= |s|
  {
    if i == |s| || s[i] != 46 then i
    else
      var e := DigitsEnd(s, i + 1);
      if e == i + 1 then 0 else e
  }

  /** [ exp ], or 0 if it has no digits. */
  function ExpEnd(s: Text, i: nat): (e: nat)
    requires i <= |s|
    ensures e == 0 || i <= e <= |s|
  {
    if i == |s| || (s[i] != 101 && s[i] != 69) then i
    else
      var from := if i + 1 < |s| && (s[i + 1] == 43 || s[i + 1] == 45) then i + 2 else i + 1;
      var e := DigitsEnd(s, from);
      if e == from then 0 else e
  }

  /** number = [ minus ] int [ frac ] [ exp ] */
  predicate IsNumber(s: Text) {
    var start := if s != [] && s[0] == 45 then 1 else 0;
    var i := IntEnd(s, start);
    i > 0 &&
    var f := FracEnd(s, i);
    f > 0 && ExpEnd(s, f) == |s|
  }

  /** The integers of the number writer are the numbers without fraction and exponent, negative zero aside. */
  lemma IntegersAreNumbers(s: Text)
    ensures JsonNumber.IsInteger(s) <==>
      IsNumber(s) && s != [45, 48] && forall k :: 0 <= k < |s| ==> s[k] !in {46, 69, 101}
  {
    var start := if s != [] && s[0] == 45 then 1 else 0;
    if JsonNumber.IsInteger(s) {
      if start == 1 {
        assert forall k :: 1 <= k < |s| ==> s[k] == s[1..][k - 1];
      }
      AllDigitsEnd(s, start);
    } else if IsNumber(s) && forall k :: 0 <= k < |s| ==> s[k] !in {46, 69, 101} {
      var i := IntEnd(s, start);
      assert i == |s|;
    }
  }

  lemma {:induction false} AllDigitsEnd(s: Text, i: nat)
    requires i <= |s| && forall k :: i <= k < |s| ==> IsDigit(s[k])
    ensures DigitsEnd(s, i) == |s|
    decreases |s| - i
  {
    if i < |s| {
      AllDigitsEnd(s, i + 1);
    }
  }

  /** A number text of an integer is the writer's text of it, or the negative zero. */
  lemma IntegerTextIsTheNumber(s: Text)
    requires IsNumber(s) && forall k :: 0 <= k < |s| ==> s[k] !in {46, 69, 101}
    ensures s == [45, 48] || (JsonNumber.IsInteger(s) && s == JsonNumber.IntegerText(JsonNumber.IntegerValue(s)))
  {
    IntegersAreNumbers(s);
    if s != [45, 48] {
      JsonNumber.IntegerTextIsUnique(s);
    }
  }

  /** What the number writer prints is a number. */
  lemma IntegerTextIsNumber(n: int)
    ensures IsNumber(JsonNumber.IntegerText(n))
  {
    JsonNumber.IntegerTextReadsBack(n);
    IntegersAreNumbers(JsonNumber.IntegerText(n));
  }

  predicate IsNumberByte(b: byte) {
    IsDigit(b) || b in {43, 45, 46, 69, 101}
  }

  lemma NumberBytes(s: Text, k: nat)
    requires IsNumber(s) && k < |s|
    ensures IsNumberByte(s[k])
    ensures IsDigit(s[0]) || s[0] == 45
  {}

  /** The longest run of bytes that occur in numbers. */
  function NumberLength(s: Text): (n: nat)
    ensures n <= |s| && forall k :: 0 <= k < n ==> IsNumberByte(s[k])
    ensures n < |s| ==> !IsNumberByte(s[n])
  {
    if s == [] || !IsNumberByte(s[0]) then 0 else 1 + NumberLength(s[1..])
  }

  /** What follows a number in a text cannot continue it. */
  predicate EndsNumber(rest: Text) {
    rest == [] || !IsNumberByte(rest[0])
  }

  lemma {:induction false} NumberLengthIs(s: Text, rest: Text)
    requires (forall k :: 0 <= k < |s| ==> IsNumberByte(s[k])) && EndsNumber(rest)
    ensures NumberLength(s + rest) == |s|
  {
    if s == [] {
      assert s + rest == rest;
    } else {
      assert (s + rest)[1..] == s[1..] + rest;
      NumberLengthIs(s[1..], rest);
    }
  }

  // ---- Strings (section 7) ----

  /** The length of the body before the closing quote, or None if it is not a legal body. */
  function BodyLength(s: Text): (n: Option<nat>)
    ensures n.Some? ==> n.value < |s| && s[n.value] == 34
    decreases |s|
  {
    if s == [] then None
    else if s[0] == 34 then Some(0)
    else
      var u := UnitLength(s);
      if u == 0 then None
      else
        match BodyLength(s[u..])
        case None => None
        case Some(n) => Some(u + n)
  }

  lemma UnitIsLocal(s: Text, more: Text)
    requires UnitLength(s) > 0
    ensures UnitLength(s + more) == UnitLength(s)
    ensures (s + more)[UnitLength(s)..] == s[UnitLength(s)..] + more
  {
    if s[0] != 92 {
      CharIsLocal(s, more);
    }
  }

  lemma UnitIsNoQuote(s: Text)
    requires UnitLength(s) > 0
    ensures s[0] != 34
  {}

  lemma {:induction false} BodyLengthIs(body: Text, tail: Text)
    requires IsStringBody(body) && tail != [] && tail[0] == 34
    ensures BodyLength(body + tail) == Some(|body|)
    decreases |body|
  {
    hide UnitLength;
    if body == [] {
      assert body + tail == tail;
    } else {
      UnitIsLocal(body, tail);
      UnitIsNoQuote(body);
      BodyLengthIs(body[UnitLength(body)..], tail);
    }
  }

  // ---- Values (sections 2 to 5) ----

  predicate IsWhitespace(b: byte) {
    b in {32, 9, 10, 13}
  }

  function SkipWhitespace(s: Text): (r: Text)
    ensures |r| <= |s|
  {
    if s != [] && IsWhitespace(s[0]) then SkipWhitespace(s[1..]) else s
  }

  type Parsed<T> = Option<(T, Text)>

  function ParseString(s: Text): (r: Parsed<Text>)
    ensures r.Some? ==> |r.value.1| < |s|
  {
    if s == [] || s[0] != 34 then None
    else
      match BodyLength(s[1..])
      case None => None
      case Some(n) => Some((s[1..][..n], s[1..][n + 1..]))
  }

  function ParseNumber(s: Text): (r: Parsed<Value>)
    ensures r.Some? ==> |r.value.1| < |s|
  {
    var n := NumberLength(s);
    if n > 0 && IsNumber(s[..n]) then Some((Num(s[..n]), s[n..])) else None
  }

  /** A value with whitespace allowed in front of it, and what follows it. */
  function ParseValue(s: Text): (r: Parsed<Value>)
    ensures r.Some? ==> |r.value.1| < |s|
    decreases |s|, 2
  {
    var t := SkipWhitespace(s);
    if t == [] then None
    else if t[0] == 34 then
      (match ParseString(t) case None => None case Some(r) => Some((Str(r.0), r.1)))
    else if t[0] == 91 then
      var u := SkipWhitespace(t[1..]);
      if u != [] && u[0] == 93 then Some((Arr([]), u[1..]))
      else (match ParseItems(t[1..]) case None => None case Some(r) => Some((Arr(r.0), r.1)))
    else if t[0] == 123 then
      var u := SkipWhitespace(t[1..]);
      if u != [] && u[0] == 125 then Some((Obj([]), u[1..]))
      else (match ParseFields(t[1..]) case None => None case Some(r) => Some((Obj(r.0), r.1)))
    else if NULL <= t then Some((Null, t[4..]))
    else if TRUE <= t then Some((Bool(true), t[4..]))
    else if FALSE <= t then Some((Bool(false), t[5..]))
    else ParseNumber(t)
  }

  /** One or more values separated by commas, up to the closing bracket. */
  function ParseItems(s: Text): (r: Parsed<seq<Value>>)
    ensures r.Some? ==> |r.value.1| < |s|
    decreases |s|, 3
  {
    match ParseValue(s)
    case None => None
    case Some(v) =>
      var t := SkipWhitespace(v.1);
      if t == [] then None
      else if t[0] == 93 then Some(([v.0], t[1..]))
      else if t[0] != 44 then None
      else
        match ParseItems(t[1..])
        case None => None
        case Some(more) => Some(([v.0] + more.0, more.1))
  }

  /** A name, a colon and a value, with whitespace allowed in front of each. */
  function ParseField(s: Text): (r: Parsed<Field>)
    ensures r.Some? ==> |r.value.1| < |s|
    decreases |s|, 1
  {
    match ParseString(SkipWhitespace(s))
    case None => None
    case Some(key) =>
      var t := SkipWhitespace(key.1);
      if t == [] || t[0] != 58 then None
      else
        match ParseValue(t[1..])
        case None => None
        case Some(v) => Some((Field(key.0, v.0), v.1))
  }

  function ParseFields(s: Text): (r: Parsed<seq<Field>>)
    ensures r.Some? ==> |r.value.1| < |s|
    decreases |s|, 3
  {
    match ParseField(s)
    case None => None
    case Some(f) =>
      var t := SkipWhitespace(f.1);
      if t == [] then None
      else if t[0] == 125 then Some(([f.0], t[1..]))
      else if t[0] != 44 then None
      else
        match ParseFields(t[1..])
        case None => None
        case Some(more) => Some(([f.0] + more.0, more.1))
  }

  /** A complete JSON text. */
  function Parse(s: Text): Option<Value> {
    match ParseValue(s)
    case None => None
    case Some(r) => if SkipWhitespace(r.1) == [] then Some(r.0) else None
  }

  // ---- The writer's text parses back ----

  /** Numbers and strings hold what a parser of the grammar would have put there. */
  predicate RawWellFormed(v: Value)
    decreases v, 0
  {
    match v
    case Num(text) => IsNumber(text)
    case Str(text) => IsStringBody(text)
    case Arr(items) => forall i :: 0 <= i < |items| ==> RawWellFormed(items[i])
    case Obj(fields) => forall i :: 0 <= i < |fields| ==> FieldWellFormed(fields[i])
    case _ => true
  }

  predicate FieldWellFormed(f: Field)
    decreases f, 1
  {
    IsStringBody(f.key) && RawWellFormed(f.value)
  }

  lemma {:induction false} ItemsFront(items: seq<Value>)
    requires |items| > 1
    ensures PrintItems(items) == Print(items[0]) + [44] + PrintItems(items[1..])
  {
    var n := |items|;
    var front, last := items[..n - 1], Print(items[n - 1]);
    if n > 2 {
      ItemsFront(front);
      var tail := items[1..];
      assert tail[..n - 2] == front[1..] && tail[n - 2] == items[n - 1];
      assert PrintItems(tail) == PrintItems(front[1..]) + [44] + last;
      hide Print, PrintItems;
      Regroup(Print(items[0]), PrintItems(front[1..]), last);
    }
  }

  lemma {:induction false} FieldsFront(fields: seq<Field>)
    requires |fields| > 1
    ensures PrintFields(fields) == PrintField(fields[0]) + [44] + PrintFields(fields[1..])
  {
    var n := |fields|;
    var front, last := fields[..n - 1], PrintField(fields[n - 1]);
    if n > 2 {
      FieldsFront(front);
      var tail := fields[1..];
      assert tail[..n - 2] == front[1..] && tail[n - 2] == fields[n - 1];
      assert PrintFields(tail) == PrintFields(front[1..]) + [44] + last;
      hide PrintField, PrintFields;
      Regroup(PrintField(fields[0]), PrintFields(front[1..]), last);
    }
  }

  lemma Regroup(a: Text, b: Text, c: Text)
    ensures (a + [44] + b) + [44] + c == a + [44] + (b + [44] + c)
  {}

  /** No printed value starts with whitespace or a closing bracket. */
  lemma PrintStarts(v: Value, rest: Text)
    requires RawWellFormed(v)
    ensures Print(v) != [] && Print(v)[0] !in {32, 9, 10, 13, 93, 125}
    ensures SkipWhitespace(Print(v) + rest) == Print(v) + rest
  {
    if v.Num? {
      NumberBytes(v.text, 0);
    }
    hide IsNumber;
  }

  lemma StringParses(body: Text, rest: Text)
    requires IsStringBody(body)
    ensures ParseString(Quoted(body) + rest) == Some((body, rest))
  {
    var s := Quoted(body) + rest;
    assert s[1..] == body + ([34] + rest);
    BodyLengthIs(body, [34] + rest);
    hide BodyLength, IsStringBody;
    assert s[1..][..|body|] == body && s[1..][|body| + 1..] == rest;
  }

  lemma NumberParses(text: Text, rest: Text)
    requires IsNumber(text) && EndsNumber(rest)
    ensures ParseNumber(text + rest) == Some((Num(text), rest))
  {
    forall k | 0 <= k < |text|
      ensures IsNumberByte(text[k])
    {
      NumberBytes(text, k);
    }
    NumberLengthIs(text, rest);
    assert (text + rest)[..|text|] == text && (text + rest)[|text|..] == rest;
    assert text != [];
    hide IsNumber;
  }

  lemma LiteralParses(v: Value, rest: Text)
    requires v.Null? || v.Bool?
    ensures ParseValue(Print(v) + rest) == Some((v, rest))
  {
    var s := Print(v) + rest;
    PrintStarts(v, rest);
    assert s[..|Print(v)|] == Print(v) && s[|Print(v)|..] == rest;
  }

  lemma NumberValueParses(v: Value, rest: Text)
    requires v.Num? && RawWellFormed(v) && EndsNumber(rest)
    ensures ParseValue(Print(v) + rest) == Some((v, rest))
  {
    PrintStarts(v, rest);
    NumberBytes(v.text, 0);
    NumberParses(v.text, rest);
    hide IsNumber, ParseNumber, SkipWhitespace;
  }

  lemma StringValueParses(v: Value, rest: Text)
    requires v.Str? && RawWellFormed(v)
    ensures ParseValue(Print(v) + rest) == Some((v, rest))
  {
    PrintStarts(v, rest);
    StringParses(v.text, rest);
    hide ParseString, IsStringBody, SkipWhitespace;
  }

  /** The writer's text of one value, followed by anything that cannot continue a number. */
  lemma {:induction false} ValueParses(v: Value, rest: Text)
    requires RawWellFormed(v) && EndsNumber(rest)
    ensures ParseValue(Print(v) + rest) == Some((v, rest))
    decreases v, 0
  {
    hide Print, ParseValue, EndsNumber;
    match v
    case Null =>
      LiteralParses(v, rest);
    case Bool(b) =>
      LiteralParses(v, rest);
    case Num(text) =>
      NumberValueParses(v, rest);
    case Str(text) =>
      StringValueParses(v, rest);
    case Arr(items) =>
      ArrayParses(items, rest);
    case Obj(fields) =>
      ObjectParses(fields, rest);
  }

  lemma {:induction false} ArrayParses(items: seq<Value>, rest: Text)
    requires forall i :: 0 <= i < |items| ==> RawWellFormed(items[i])
    ensures ParseValue(Print(Arr(items)) + rest) == Some((Arr(items), rest))
    decreases items, 1
  {
    var s := Print(Arr(items)) + rest;
    var inner := PrintItems(items) + [93] + rest;
    assert s == [91] + inner;
    assert s[1..] == inner;
    if items == [] {
      assert inner == [93] + rest;
      assert inner[1..] == rest;
    } else {
      hide PrintItems, Print, ParseItems, SkipWhitespace;
      ItemsStart(items, [93] + rest);
      Reassociate(PrintItems(items), [93], rest);
      ItemsParse(items, rest);
    }
  }

  lemma ItemsStart(items: seq<Value>, rest: Text)
    requires items != [] && forall i :: 0 <= i < |items| ==> RawWellFormed(items[i])
    ensures SkipWhitespace(PrintItems(items) + rest) == PrintItems(items) + rest
    ensures PrintItems(items) != [] && PrintItems(items)[0] != 93
  {
    PrintStarts(items[0], []);
    if |items| > 1 {
      ItemsFront(items);
    }
    hide Print, PrintItems, RawWellFormed;
  }

  lemma {:induction false} ItemsParse(items: seq<Value>, rest: Text)
    requires items != [] && forall i :: 0 <= i < |items| ==> RawWellFormed(items[i])
    ensures ParseItems(PrintItems(items) + [93] + rest) == Some((items, rest))
    decreases items, 0
  {
    hide Print, ParseValue;
    if |items| == 1 {
      assert PrintItems(items) == Print(items[0]);
      Reassociate(Print(items[0]), [93], rest);
      ValueParses(items[0], [93] + rest);
      assert items == [items[0]];
    } else {
      var tail := PrintItems(items[1..]) + [93] + rest;
      ItemsFront(items);
      SplitOff(Print(items[0]), PrintItems(items[1..]), [93] + rest);
      Reassociate(PrintItems(items), [93], rest);
      Reassociate(PrintItems(items[1..]), [93], rest);
      ValueParses(items[0], [44] + tail);
      ItemsParse(items[1..], rest);
      assert ([44] + tail)[1..] == tail;
      assert items == [items[0]] + items[1..];
    }
  }

  lemma {:induction false} ObjectParses(fields: seq<Field>, rest: Text)
    requires forall i :: 0 <= i < |fields| ==> FieldWellFormed(fields[i])
    ensures ParseValue(Print(Obj(fields)) + rest) == Some((Obj(fields), rest))
    decreases fields, 1
  {
    var s := Print(Obj(fields)) + rest;
    var inner := PrintFields(fields) + [125] + rest;
    assert s == [123] + inner;
    assert s[1..] == inner;
    if fields == [] {
      assert inner == [125] + rest;
      assert inner[1..] == rest;
    } else {
      hide PrintFields, Print, ParseFields, SkipWhitespace;
      FieldsStart(fields, [125] + rest);
      Reassociate(PrintFields(fields), [125], rest);
      FieldsParse(fields, rest);
    }
  }

  lemma FieldsStart(fields: seq<Field>, rest: Text)
    requires fields != []
    ensures SkipWhitespace(PrintFields(fields) + rest) == PrintFields(fields) + rest
    ensures PrintFields(fields) != [] && PrintFields(fields)[0] != 125
  {
    if |fields| > 1 {
      FieldsFront(fields);
    }
    assert PrintField(fields[0])[0] == 34;
    hide Print, PrintFields, PrintField;
  }

  lemma QuotedStarts(body: Text, rest: Text)
    ensures SkipWhitespace(Quoted(body) + rest) == Quoted(body) + rest
  {}

  lemma {:induction false} FieldParses(f: Field, rest: Text)
    requires FieldWellFormed(f) && EndsNumber(rest)
    ensures ParseField(PrintField(f) + rest) == Some((f, rest))
    decreases f, 1
  {
    var s, tail := PrintField(f) + rest, [58] + Print(f.value) + rest;
    hide Print, ParseString, ParseValue, Quoted, RawWellFormed, IsStringBody;
    assert s == Quoted(f.key) + tail;
    assert tail[1..] == Print(f.value) + rest;
    StringParses(f.key, tail);
    ValueParses(f.value, rest);
    QuotedStarts(f.key, tail);
  }

  lemma SingleField(fields: seq<Field>)
    requires |fields| == 1
    ensures PrintFields(fields) == PrintField(fields[0])
  {}

  lemma {:induction false} FieldsParse(fields: seq<Field>, rest: Text)
    requires fields != [] && forall i :: 0 <= i < |fields| ==> FieldWellFormed(fields[i])
    ensures ParseFields(PrintFields(fields) + [125] + rest) == Some((fields, rest))
    decreases fields, 0
  {
    hide PrintField, ParseField, PrintFields, FieldWellFormed;
    if |fields| == 1 {
      SingleField(fields);
      Reassociate(PrintField(fields[0]), [125], rest);
      FieldParses(fields[0], [125] + rest);
      assert fields == [fields[0]];
    } else {
      var tail := PrintFields(fields[1..]) + [125] + rest;
      FieldsFront(fields);
      SplitOff(PrintField(fields[0]), PrintFields(fields[1..]), [125] + rest);
      Reassociate(PrintFields(fields), [125], rest);
      Reassociate(PrintFields(fields[1..]), [125], rest);
      FieldParses(fields[0], [44] + tail);
      FieldsParse(fields[1..], rest);
      assert ([44] + tail)[1..] == tail;
      assert fields == [fields[0]] + fields[1..];
    }
  }

  lemma Reassociate(a: Text, b: Text, c: Text)
    ensures a + b + c == a + (b + c)
  {}

  lemma SplitOff(a: Text, b: Text, c: Text)
    ensures (a + [44] + b) + c == a + ([44] + (b + c))
  {}

  /** What the writer appends when it succeeds is a JSON text of the same value tree. */
  lemma PrintedTextParses(v: Value)
    requires RawWellFormed(v)
    ensures Parse(Print(v)) == Some(v)
  {
    ValueParses(v, []);
    assert Print(v) + [] == Print(v);
    hide ParseValue, Print;
  }

  /** Different value trees have different texts. */
  lemma PrintIsInjective(v: Value, w: Value)
    requires RawWellFormed(v) && RawWellFormed(w) && Print(v) == Print(w)
    ensures v == w
  {
    PrintedTextParses(v);
    PrintedTextParses(w);
  }
}
