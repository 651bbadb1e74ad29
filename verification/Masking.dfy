/**
  Masking of comments and quoted text, against a lexer that reads one character at a time.
 */
module Masking {

  /**
    The lexer's state before a character. A double quote may open a plain or a triple-quoted string;
    First and Second are the states after one and two of them. Triple counts the quotes just read.
   */
  datatype Mode =
    | Code
    | Comment
    | First
    | Second
    | Text(quote: char)
    | Escaped(quote: char)
    | Triple(quotes: nat)
    | TripleEscaped

  predicate IsQuote(c: char) {
    c == '"' || c == '\''
  }

  function StepCode(c: char): Mode {
    if c == '#' then Comment
    else if c == '"' then First
    else if c == '\'' then Text('\'')
    else Code
  }

  function Step(m: Mode, c: char): Mode {
    match m
    case Code => StepCode(c)
    case Comment => if c == '\n' then Code else Comment
    case First => if c == '"' then Second else if c == '\\' then Escaped('"') else Text('"')
    case Second => if c == '"' then Triple(0) else StepCode(c)
    case Text(q) => if c == '\\' then Escaped(q) else if c == q then Code else Text(q)
    case Escaped(q) => Text(q)
    case Triple(n) =>
      if c == '\\' then TripleEscaped else if c != '"' then Triple(0) else if n == 2 then Code else Triple(n + 1)
    case TripleEscaped => Triple(0)
  }

  function ModeAt(s: string, i: nat): Mode
    requires i <= |s|
  {
    if i == 0 then Code else Step(ModeAt(s, i - 1), s[i - 1])
  }

  /** Program text, as opposed to a comment, a string or one of their delimiters. */
  predicate IsProgramText(m: Mode, c: char) {
    (m == Code || m == Second) && c != '#' && !IsQuote(c)
  }

  function MaskedChar(m: Mode, c: char): char {
    if c == '\n' || IsProgramText(m, c) then c else ' '
  }

  function Masked(s: string): (r: string)
    ensures |r| == |s|
  {
    seq(|s|, i requires 0 <= i < |s| => MaskedChar(ModeAt(s, i), s[i]))
  }

  function LineEnd(s: string, i: nat): (end: nat)
    requires i <= |s|
    ensures i <= end <= |s|
    ensures forall p :: i <= p < end ==> s[p] != '\n'
    ensures end < |s| ==> s[end] == '\n'
    decreases |s| - i
  {
    if i == |s| || s[i] == '\n' then i else LineEnd(s, i + 1)
  }

  /** The text that opens and closes a string: one quote, or three double quotes. */
  datatype Delimiter = Single(quote: char) | TripleDouble {
    function Length(): (n: nat)
      ensures n > 0
    {
      if Single? then 1 else 3
    }

    /** source.startswith(delimiter, at) */
    predicate StandsAt(s: string, at: nat) {
      at + Length() <= |s| &&
      if Single? then s[at] == quote else s[at] == '"' && s[at + 1] == '"' && s[at + 2] == '"'
    }
  }

  /** The scanner's outer loop is looking at program text, or at the newline that ends a comment. */
  predicate OutsideAt(s: string, i: nat)
    requires i < |s|
  {
    var m := ModeAt(s, i);
    m == Code || (m == Second && s[i] != '"') || (m == Comment && s[i] == '\n')
  }

  /** The scanner's inner loop stands at `cursor` inside the string that opened at `index`. */
  predicate InsideAt(s: string, index: nat, d: Delimiter, cursor: nat)
    requires index < cursor <= |s|
  {
    var m := ModeAt(s, cursor);
    if d.TripleDouble? then
      && m.Triple? && m.quotes <= 2 && index + 3 + m.quotes <= cursor
      && (m.quotes >= 1 ==> s[cursor - 1] == '"')
      && (m.quotes == 2 ==> s[cursor - 2] == '"')
      && (m.quotes > 0 ==> !d.StandsAt(s, cursor - m.quotes))
    else if d.quote == '"' && cursor == index + 1 then
      m == First && s[index] == '"' && !TripleDouble.StandsAt(s, index)
    else
      IsQuote(d.quote) && m == Text(d.quote)
  }

  /** Everything from the opening quote on is blanked. */
  ghost predicate BlankFrom(s: string, index: nat, cursor: nat) {
    forall p :: index <= p < cursor && p < |s| ==> !IsProgramText(ModeAt(s, p), s[p])
  }

  /** One more character read. */
  lemma Advance(s: string, i: nat)
    requires i < |s|
    ensures ModeAt(s, i + 1) == Step(ModeAt(s, i), s[i])
  {}

  lemma {:induction false} CommentIsBlank(s: string, index: nat, end: nat)
    requires index < end <= |s| && s[index] == '#' && OutsideAt(s, index)
    requires forall p :: index <= p < end ==> s[p] != '\n'
    ensures ModeAt(s, end) == Comment && BlankFrom(s, index, end)
    ensures end < |s| && s[end] == '\n' ==> OutsideAt(s, end)
  {
    Advance(s, end - 1);
    if index + 1 < end {
      CommentIsBlank(s, index, end - 1);
    }
  }

  lemma OpenString(s: string, index: nat, d: Delimiter)
    requires index < |s| && OutsideAt(s, index) && IsQuote(s[index])
    requires d == if TripleDouble.StandsAt(s, index) then TripleDouble else Single(s[index])
    ensures index + d.Length() <= |s|
    ensures BlankFrom(s, index, index + d.Length()) && InsideAt(s, index, d, index + d.Length())
  {
    Advance(s, index);
    assert BlankFrom(s, index, index);
    BlankExtends(s, index, index);
    if d.TripleDouble? {
      OpenTriple(s, index);
      BlankExtends(s, index, index + 1);
      BlankExtends(s, index, index + 2);
    }
    hide ModeAt, BlankFrom;
  }

  lemma OpenTriple(s: string, index: nat)
    requires index < |s| && OutsideAt(s, index) && TripleDouble.StandsAt(s, index)
    ensures ModeAt(s, index + 1) == First && ModeAt(s, index + 2) == Second && ModeAt(s, index + 3) == Triple(0)
  {
    Advance(s, index);
    Advance(s, index + 1);
    Advance(s, index + 2);
    hide ModeAt;
  }

  /** A backslash and whatever follows it. */
  lemma SkipEscape(s: string, index: nat, d: Delimiter, cursor: nat)
    requires index < cursor < |s| && InsideAt(s, index, d, cursor) && s[cursor] == '\\'
    requires BlankFrom(s, index, cursor)
    ensures BlankFrom(s, index, cursor + 2)
    ensures cursor + 2 <= |s| ==> InsideAt(s, index, d, cursor + 2)
  {
    hide ModeAt, BlankFrom;
    Advance(s, cursor);
    BlankExtends(s, index, cursor);
    if cursor + 2 <= |s| {
      Advance(s, cursor + 1);
    }
    BlankExtends(s, index, cursor + 1);
  }

  lemma BlankExtends(s: string, index: nat, cursor: nat)
    requires BlankFrom(s, index, cursor)
    requires cursor < |s| ==> !IsProgramText(ModeAt(s, cursor), s[cursor])
    ensures BlankFrom(s, index, cursor + 1)
  {
    hide ModeAt, IsProgramText;
  }

  lemma StepInside(s: string, index: nat, d: Delimiter, cursor: nat)
    requires index < cursor < |s| && InsideAt(s, index, d, cursor)
    requires s[cursor] != '\\' && !d.StandsAt(s, cursor)
    requires BlankFrom(s, index, cursor)
    ensures BlankFrom(s, index, cursor + 1) && InsideAt(s, index, d, cursor + 1)
  {
    Advance(s, cursor);
    BlankExtends(s, index, cursor);
    hide ModeAt, BlankFrom;
  }

  /** The closing delimiter ends the string for the lexer too. */
  lemma CloseString(s: string, index: nat, d: Delimiter, cursor: nat)
    requires index < cursor < |s| && InsideAt(s, index, d, cursor)
    requires d.StandsAt(s, cursor)
    requires BlankFrom(s, index, cursor)
    ensures cursor + d.Length() <= |s| && BlankFrom(s, index, cursor + d.Length())
    ensures cursor + d.Length() < |s| ==> OutsideAt(s, cursor + d.Length())
  {
    Advance(s, cursor);
    if d.TripleDouble? {
      CloseTriple(s, index, cursor);
    } else {
      hide ModeAt;
    }
  }

  lemma CloseTriple(s: string, index: nat, cursor: nat)
    requires index < cursor < |s| && InsideAt(s, index, TripleDouble, cursor)
    requires TripleDouble.StandsAt(s, cursor)
    ensures ModeAt(s, cursor) == Triple(0) && ModeAt(s, cursor + 1) == Triple(1)
    ensures ModeAt(s, cursor + 2) == Triple(2) && ModeAt(s, cursor + 3) == Code
  {
    assert ModeAt(s, cursor) == Triple(0);
    hide InsideAt;
    Advance(s, cursor);
    Advance(s, cursor + 1);
    Advance(s, cursor + 2);
    hide ModeAt;
  }

  /** What the loops store in a blanked range. */
  lemma BlankedCharacter(s: string, from: nat, k: nat, end: nat)
    requires BlankFrom(s, from, end) && from <= k < end && k < |s|
    ensures MaskedChar(ModeAt(s, k), s[k]) == if s[k] == '\n' then '\n' else ' '
  {}

  /** The characters below `index` have their final value, the others are still those of the source. */
  ghost predicate Progress(s: string, chars: string, index: nat) {
    && |chars| == |s|
    && forall p :: 0 <= p < |s| ==> chars[p] == if p < index then MaskedChar(ModeAt(s, p), s[p]) else s[p]
  }

  lemma PlainCharacter(s: string, chars: string, index: nat)
    requires index < |s| && OutsideAt(s, index) && s[index] != '#' && !IsQuote(s[index])
    requires Progress(s, chars, index)
    ensures Progress(s, chars, index + 1)
    ensures index + 1 < |s| ==> OutsideAt(s, index + 1)
  {
    Advance(s, index);
    AdvanceProgress(s, chars, index);
    hide ModeAt, Progress;
  }

  lemma AdvanceProgress(s: string, chars: string, index: nat)
    requires index < |s| && Progress(s, chars, index) && MaskedChar(ModeAt(s, index), s[index]) == s[index]
    ensures Progress(s, chars, index + 1)
  {
    hide ModeAt, MaskedChar;
  }

  lemma ProgressBegins(s: string)
    ensures Progress(s, s, 0)
    ensures |s| > 0 ==> OutsideAt(s, 0)
  {}

  lemma ProgressEnds(s: string, chars: string, index: nat)
    requires Progress(s, chars, index)
    ensures index >= |s| ==> chars == Masked(s)
  {}

  /** The inner loop: the position after the string that opens at `index`, past the end if an escape is cut off. */
  method StringEnd(source: string, index: nat, delimiter: Delimiter) returns (cursor: nat)
    requires index < |source| && OutsideAt(source, index) && IsQuote(source[index])
    requires delimiter == if TripleDouble.StandsAt(source, index) then TripleDouble else Single(source[index])
    ensures index < cursor <= |source| + 1 && BlankFrom(source, index, cursor)
    ensures cursor < |source| ==> OutsideAt(source, cursor)
  {
    hide *;
    OpenString(source, index, delimiter);
    cursor := index + delimiter.Length();
    while cursor < |source|
      invariant index < cursor <= |source| + 1
      invariant BlankFrom(source, index, cursor)
      invariant cursor <= |source| ==> InsideAt(source, index, delimiter, cursor)
    {
      if source[cursor] == '\\' {
        SkipEscape(source, index, delimiter, cursor);
        cursor := cursor + 2;
      } else if delimiter.StandsAt(source, cursor) {
        CloseString(source, index, delimiter, cursor);
        cursor := cursor + delimiter.Length();
        break;
      } else {
        StepInside(source, index, delimiter, cursor);
        cursor := cursor + 1;
      }
    }
  }

  /** Overwrites a comment or a string with spaces, keeping its newlines. */
  method BlankRange(source: string, chars: array<char>, index: nat, cursor: nat)
    requires index <= cursor && index <= |source| && BlankFrom(source, index, cursor)
    requires Progress(source, chars[..], index)
    modifies chars
    ensures Progress(source, chars[..], cursor)
  {
    var stop := if cursor < |source| then cursor else |source|;
    for position := index to stop
      invariant Progress(source, chars[..], position)
    {
      BlankedCharacter(source, index, position, cursor);
      hide ModeAt, MaskedChar, BlankFrom;
      if source[position] != '\n' {
        chars[position] := ' ';
      }
    }
  }

  /** The scanner: whole comments and whole strings at a time, on a mutable list of characters. */
  method MaskLiteralsAndComments(source: string) returns (r: string)
    ensures r == Masked(source)
  {
    hide *;
    var chars := new char[|source|](i requires 0 <= i < |source| => source[i]);
    var index := 0;
    assert chars[..] == source;
    ProgressBegins(source);
    while index < |source|
      invariant index <= |source| + 1
      invariant index < |source| ==> OutsideAt(source, index)
      invariant Progress(source, chars[..], index)
    {
      if source[index] == '#' {
        var end := LineEnd(source, index);
        CommentIsBlank(source, index, end);
        BlankRange(source, chars, index, end);
        index := end;
      } else if !IsQuote(source[index]) {
        PlainCharacter(source, chars[..], index);
        index := index + 1;
      } else {
        var delimiter := if TripleDouble.StandsAt(source, index) then TripleDouble else Single(source[index]);
        var cursor := StringEnd(source, index, delimiter);
        BlankRange(source, chars, index, cursor);
        index := cursor;
      }
    }
    ProgressEnds(source, chars[..], index);
    r := chars[..];
  }

  // ---- What masking keeps and what it removes ----

  /** Same length, the same newlines, no comment sign and no quote, everything else kept or blanked. */
  lemma MaskingKeepsLayout(s: string, i: nat)
    requires i < |s|
    ensures |Masked(s)| == |s|
    ensures Masked(s)[i] == '\n' <==> s[i] == '\n'
    ensures Masked(s)[i] != '#' && !IsQuote(Masked(s)[i])
    ensures Masked(s)[i] == s[i] || Masked(s)[i] == ' '
  {}

  lemma {:induction false} PlainTextStaysCode(s: string, i: nat)
    requires i <= |s| && forall p :: 0 <= p < i ==> s[p] != '#' && !IsQuote(s[p])
    ensures ModeAt(s, i) == Code
  {
    if i > 0 {
      PlainTextStaysCode(s, i - 1);
    }
  }

  /** Text without comment signs and quotes is left alone, so masking twice is masking once. */
  lemma MaskingIsIdempotent(s: string)
    ensures Masked(Masked(s)) == Masked(s)
  {
    var m := Masked(s);
    forall i | 0 <= i < |m|
      ensures Masked(m)[i] == m[i]
    {
      forall p | 0 <= p < i
        ensures m[p] != '#' && !IsQuote(m[p])
      {
        MaskingKeepsLayout(s, p);
      }
      MaskingKeepsLayout(s, i);
      PlainTextStaysCode(m, i);
      assert IsProgramText(Code, m[i]);
    }
  }

  /** source.count("\n", 0, offset) + 1 */
  function LineOf(s: string, offset: nat): nat
    requires offset <= |s|
  {
    if offset == 0 then 1 else LineOf(s, offset - 1) + if s[offset - 1] == '\n' then 1 else 0
  }

  lemma {:induction false} SameNewlinesSameLines(a: string, b: string, offset: nat)
    requires |a| == |b| && offset <= |a|
    requires forall i :: 0 <= i < |a| ==> (a[i] == '\n' <==> b[i] == '\n')
    ensures LineOf(a, offset) == LineOf(b, offset)
  {
    if offset > 0 {
      SameNewlinesSameLines(a, b, offset - 1);
    }
  }

  /** An offset found in the masked text is on the same line of the source. */
  lemma MaskedOffsetsAreSourceLines(s: string, offset: nat)
    requires offset <= |s|
    ensures LineOf(Masked(s), offset) == LineOf(s, offset)
  {
    SameNewlinesSameLines(Masked(s), s, offset);
  }

  lemma {:induction false} ModesLookBackOnly(s: string, t: string, i: nat)
    requires i <= |s|
    ensures ModeAt(s + t, i) == ModeAt(s, i)
  {
    if i > 0 {
      ModesLookBackOnly(s, t, i - 1);
      assert (s + t)[i - 1] == s[i - 1];
    }
  }

  /** Masking a prefix of a file is a prefix of its masking, whatever follows. */
  lemma MaskingIsIncremental(s: string, t: string)
    ensures Masked(s + t)[..|s|] == Masked(s)
  {
    forall i | 0 <= i < |s|
      ensures Masked(s + t)[i] == Masked(s)[i]
    {
      ModesLookBackOnly(s, t, i);
      assert (s + t)[i] == s[i];
    }
  }

  // ---- The masked text, piece by piece ----

  /** Spaces for everything but newlines. */
  function Blanked(s: string): string {
    seq(|s|, i requires 0 <= i < |s| => if s[i] == '\n' then '\n' else ' ')
  }

  lemma {:induction false} ModesOfParts(a: string, b: string, k: nat)
    requires k <= |a| + |b|
    ensures k <= |a| ==> ModeAt(a + b, k) == ModeAt(a, k)
    ensures k >= |a| && ModeAt(a, |a|) == Code ==> ModeAt(a + b, k) == ModeAt(b, k - |a|)
  {
    if k > 0 {
      ModesOfParts(a, b, k - 1);
      if k > |a| {
        assert (a + b)[k - 1] == b[k - 1 - |a|];
      }
    }
  }

  /** After a piece that ends in program text, the rest is masked as if it stood alone. */
  lemma MaskedInParts(a: string, b: string)
    requires ModeAt(a, |a|) == Code
    ensures Masked(a + b) == Masked(a) + Masked(b)
  {
    hide ModeAt;
    forall k | 0 <= k < |a| + |b|
      ensures Masked(a + b)[k] == (Masked(a) + Masked(b))[k]
    {
      ModesOfParts(a, b, k);
      if k >= |a| {
        assert (a + b)[k] == b[k - |a|];
      }
    }
  }

  /** A character that begins neither a comment nor a string stays. */
  lemma PlainPiece(c: char, rest: string)
    requires c != '#' && c != '"' && c != '\''
    ensures Masked([c] + rest) == [c] + Masked(rest)
  {
    assert ModeAt([c], 0) == Code && ModeAt([c], 1) == Code;
    MaskedInParts([c], rest);
    assert Masked([c]) == [c];
  }

  lemma {:induction false} InComment(body: string, k: nat)
    requires k <= |body| && '\n' !in body
    ensures ModeAt(['#'] + body, 1 + k) == Comment
  {
    var s := ['#'] + body;
    if k == 0 {
      assert ModeAt(s, 0) == Code;
    } else {
      InComment(body, k - 1);
      assert s[k] == body[k - 1];
    }
  }

  /** A comment is blanked up to its newline, and program text follows. */
  lemma CommentPiece(body: string, rest: string)
    requires '\n' !in body
    ensures Masked(['#'] + body) == Blanked(['#'] + body)
    ensures Masked(['#'] + body + ['\n'] + rest) == Blanked(['#'] + body) + ['\n'] + Masked(rest)
  {
    var s := ['#'] + body;
    forall k | 0 <= k < |s|
      ensures ModeAt(s, k) == if k == 0 then Code else Comment
    {
      if k > 0 {
        InComment(body, k - 1);
      }
    }
    hide ModeAt;
    assert Masked(s) == Blanked(s);
    InComment(body, |body|);
    EndOfComment(s);
    MaskedInParts(s + ['\n'], rest);
    forall k | 0 <= k < |s|
      ensures ModeAt(s + ['\n'], k) == ModeAt(s, k)
    {
      ModesOfParts(s, ['\n'], k);
    }
    assert Masked(s + ['\n']) == Blanked(s) + ['\n'];
  }

  lemma EndOfComment(s: string)
    requires ModeAt(s, |s|) == Comment
    ensures ModeAt(s + ['\n'], |s| + 1) == Code
  {
    ModesOfParts(s, ['\n'], |s|);
  }

  /** Inside a string a character other than its quote and the backslash, or a backslash and any character. */
  predicate IsUnit(quote: char, u: string) {
    (|u| == 1 && u[0] != quote && u[0] != '\\') || (|u| == 2 && u[0] == '\\')
  }

  function Joined(units: seq<string>): string {
    if units == [] then "" else Joined(units[..|units| - 1]) + units[|units| - 1]
  }

  lemma {:induction false} InString(quote: char, units: seq<string>)
    requires IsQuote(quote) && forall i :: 0 <= i < |units| ==> IsUnit(quote, units[i])
    ensures
      var s := [quote] + Joined(units);
      && ModeAt(s, |s|) == (if units == [] && quote == '"' then First else Text(quote))
      && BlankFrom(s, 0, |s|)
    decreases |units|
  {
    var s := [quote] + Joined(units);
    hide ModeAt, BlankFrom, Step, IsUnit;
    if units == [] {
      assert s == [quote];
      OpeningQuote(quote);
    } else {
      var front, u := [quote] + Joined(units[..|units| - 1]), units[|units| - 1];
      InString(quote, units[..|units| - 1]);
      assert s == front + u;
      UnitInString(quote, front, u);
    }
  }

  lemma OpeningQuote(quote: char)
    requires IsQuote(quote)
    ensures ModeAt([quote], 1) == (if quote == '"' then First else Text(quote)) && BlankFrom([quote], 0, 1)
  {
    assert ModeAt([quote], 0) == Code;
    Advance([quote], 0);
  }

  /** What is appended changes neither the modes nor what is blank before it. */
  lemma BlankInParts(a: string, b: string)
    requires BlankFrom(a, 0, |a|)
    ensures ModeAt(a + b, |a|) == ModeAt(a, |a|) && BlankFrom(a + b, 0, |a|)
  {
    hide ModeAt, IsProgramText;
    forall k | 0 <= k <= |a|
      ensures ModeAt(a + b, k) == ModeAt(a, k)
    {
      ModesOfParts(a, b, k);
    }
    assert forall k :: 0 <= k < |a| ==> (a + b)[k] == a[k];
  }

  lemma UnitInString(quote: char, front: string, u: string)
    requires IsQuote(quote) && IsUnit(quote, u) && BlankFrom(front, 0, |front|)
    requires ModeAt(front, |front|) == Text(quote) || (quote == '"' && ModeAt(front, |front|) == First)
    ensures ModeAt(front + u, |front| + |u|) == Text(quote) && BlankFrom(front + u, 0, |front| + |u|)
  {
    hide ModeAt, BlankFrom;
    var s, n := front + u, |front|;
    BlankInParts(front, u);
    assert s[n] == u[0];
    Advance(s, n);
    BlankExtends(s, 0, n);
    if |u| == 2 {
      assert s[n + 1] == u[1];
      Advance(s, n + 1);
      BlankExtends(s, 0, n + 1);
    }
  }

  /**
    A string is blanked from its quote to the next one that no backslash precedes, and program text
    follows. Two double quotes at once are left to the delimiter of three.
   */
  lemma StringPiece(quote: char, units: seq<string>, rest: string)
    requires IsQuote(quote) && (quote == '"' ==> units != [])
    requires forall i :: 0 <= i < |units| ==> IsUnit(quote, units[i])
    ensures
      var s := [quote] + Joined(units);
      && Masked(s) == Blanked(s)
      && Masked(s + [quote] + rest) == Blanked(s + [quote]) + Masked(rest)
  {
    var s := [quote] + Joined(units);
    InString(quote, units);
    BlankIsBlanked(s);
    ClosingQuote(s, quote);
    BlankIsBlanked(s + [quote]);
    MaskedInParts(s + [quote], rest);
    hide Masked, Blanked;
  }

  lemma ClosingQuote(s: string, quote: char)
    requires IsQuote(quote) && ModeAt(s, |s|) == Text(quote) && BlankFrom(s, 0, |s|)
    ensures ModeAt(s + [quote], |s| + 1) == Code && BlankFrom(s + [quote], 0, |s| + 1)
  {
    BlankInParts(s, [quote]);
    Advance(s + [quote], |s|);
    BlankExtends(s + [quote], 0, |s|);
    hide ModeAt, BlankFrom;
  }

  lemma BlankIsBlanked(s: string)
    requires BlankFrom(s, 0, |s|)
    ensures Masked(s) == Blanked(s)
  {
    hide ModeAt;
  }

  /** Inside three double quotes, pieces without a double quote of their own. */
  lemma {:induction false} InTriple(units: seq<string>)
    requires forall i :: 0 <= i < |units| ==> IsUnit('"', units[i])
    ensures
      var s := "\"\"\"" + Joined(units);
      ModeAt(s, |s|) == Triple(0) && BlankFrom(s, 0, |s|)
    decreases |units|
  {
    var s := "\"\"\"" + Joined(units);
    if units == [] {
      assert s == "\"\"\"";
      OpeningTriple();
    } else {
      var front, u := "\"\"\"" + Joined(units[..|units| - 1]), units[|units| - 1];
      InTriple(units[..|units| - 1]);
      assert s == front + u;
      UnitInTriple(front, u);
    }
  }

  lemma OpeningTriple()
    ensures ModeAt("\"\"\"", 3) == Triple(0) && BlankFrom("\"\"\"", 0, 3)
  {
    var s := "\"\"\"";
    assert ModeAt(s, 0) == Code;
    Advance(s, 0);
    Advance(s, 1);
    Advance(s, 2);
  }

  lemma UnitInTriple(front: string, u: string)
    requires IsUnit('"', u) && BlankFrom(front, 0, |front|) && ModeAt(front, |front|) == Triple(0)
    ensures ModeAt(front + u, |front| + |u|) == Triple(0) && BlankFrom(front + u, 0, |front| + |u|)
  {
    hide ModeAt, BlankFrom;
    var s, n := front + u, |front|;
    BlankInParts(front, u);
    assert s[n] == u[0];
    Advance(s, n);
    BlankExtends(s, 0, n);
    if |u| == 2 {
      assert s[n + 1] == u[1];
      Advance(s, n + 1);
      BlankExtends(s, 0, n + 1);
    }
  }

  /** A string in three double quotes is blanked to the next three, and program text follows. */
  lemma TriplePiece(units: seq<string>, rest: string)
    requires forall i :: 0 <= i < |units| ==> IsUnit('"', units[i])
    ensures
      var s := "\"\"\"" + Joined(units);
      && Masked(s) == Blanked(s)
      && Masked(s + "\"\"\"" + rest) == Blanked(s + "\"\"\"") + Masked(rest)
  {
    var s := "\"\"\"" + Joined(units);
    InTriple(units);
    BlankIsBlanked(s);
    ClosingTriple(s);
    BlankIsBlanked(s + "\"\"\"");
    MaskedInParts(s + "\"\"\"", rest);
    hide Masked, Blanked;
  }

  lemma ClosingTriple(s: string)
    requires ModeAt(s, |s|) == Triple(0) && BlankFrom(s, 0, |s|)
    ensures ModeAt(s + "\"\"\"", |s| + 3) == Code && BlankFrom(s + "\"\"\"", 0, |s| + 3)
  {
    hide ModeAt, BlankFrom;
    var quotes := "\"\"\"";
    var t, n := s + quotes, |s|;
    BlankInParts(s, quotes);
    assert t[n] == '"' && t[n + 1] == '"' && t[n + 2] == '"';
    Advance(t, n);
    Advance(t, n + 1);
    Advance(t, n + 2);
    BlankExtends(t, 0, n);
    BlankExtends(t, 0, n + 1);
    BlankExtends(t, 0, n + 2);
  }
}
