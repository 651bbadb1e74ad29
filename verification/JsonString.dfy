/**
  Escaping arbitrary bytes as the body of a JSON string. The writer's arithmetic is compared with
  the grammar of section 4 of RFC 3629, its output with section 7 of RFC 8259.
 */
module JsonString {
  import opened Bytes

  type Text = seq<byte>

  /** The growing array of bytes the writers push into. */
  class Buffer {
    var data: Text

    constructor ()
      ensures data == []
    {
      data := [];
    }

    method Push(b: byte)
      modifies this
      ensures data == old(data) + [b]
    {
      data := data + [b];
    }
  }

  // ---- Well-formed UTF-8 (RFC 3629, section 4) ----

  predicate IsTail(b: byte) {
    0x80 <= b <= 0xBF
  }

  predicate IsThreeByteLead(b0: byte, b1: byte) {
    || (b0 == 0xE0 && 0xA0 <= b1 <= 0xBF)
    || (0xE1 <= b0 <= 0xEC && IsTail(b1))
    || (b0 == 0xED && 0x80 <= b1 <= 0x9F)
    || (0xEE <= b0 <= 0xEF && IsTail(b1))
  }

  predicate IsFourByteLead(b0: byte, b1: byte) {
    || (b0 == 0xF0 && 0x90 <= b1 <= 0xBF)
    || (0xF1 <= b0 <= 0xF3 && IsTail(b1))
    || (b0 == 0xF4 && 0x80 <= b1 <= 0x8F)
  }

  /** The length of the UTF-8 character at the front of s, or 0 if there is none. */
  function CharLength(s: Text): (n: nat)
    ensures n <= 4 && n <= |s|
  {
    if s == [] then 0
    else if s[0] <= 0x7F then 1
    else if |s| >= 2 && 0xC2 <= s[0] <= 0xDF && IsTail(s[1]) then 2
    else if |s| >= 3 && IsThreeByteLead(s[0], s[1]) && IsTail(s[2]) then 3
    else if |s| >= 4 && IsFourByteLead(s[0], s[1]) && IsTail(s[2]) && IsTail(s[3]) then 4
    else 0
  }

  predicate WellFormed(s: Text) {
    s == [] || (CharLength(s) > 0 && WellFormed(s[CharLength(s)..]))
  }

  /** U+FFFD in UTF-8. */
  const REPLACEMENT: Text := [0xEF, 0xBF, 0xBD]

  /** Every byte at which no character starts is replaced. */
  function Sanitize(s: Text): Text {
    if s == [] then []
    else if CharLength(s) > 0 then s[..CharLength(s)] + Sanitize(s[CharLength(s)..])
    else REPLACEMENT + Sanitize(s[1..])
  }

  /** A character is recognised by its own bytes. */
  lemma CharIsLocal(s: Text, more: Text)
    requires CharLength(s) > 0
    ensures CharLength(s + more) == CharLength(s)
    ensures (s + more)[..CharLength(s)] == s[..CharLength(s)]
    ensures (s + more)[CharLength(s)..] == s[CharLength(s)..] + more
    ensures CharLength(s[..CharLength(s)]) == CharLength(s)
  {}

  lemma PrependChar(ch: Text, rest: Text)
    requires ch != [] && CharLength(ch) == |ch|
    ensures CharLength(ch + rest) == |ch| && (ch + rest)[..|ch|] == ch && (ch + rest)[|ch|..] == rest
    ensures WellFormed(ch + rest) <==> WellFormed(rest)
    ensures Sanitize(ch + rest) == ch + Sanitize(rest)
  {
    CharIsLocal(ch, rest);
    assert ch[|ch|..] + rest == rest;
    assert ch[..|ch|] == ch;
  }

  lemma ReplacementIsChar()
    ensures CharLength(REPLACEMENT) == |REPLACEMENT|
  {}

  lemma {:induction false} SanitizeIsWellFormed(s: Text)
    ensures WellFormed(Sanitize(s))
    ensures WellFormed(s) ==> Sanitize(s) == s
  {
    hide CharLength;
    if s != [] {
      if CharLength(s) > 0 {
        var n := CharLength(s);
        SanitizeIsWellFormed(s[n..]);
        CharIsLocal(s, []);
        PrependChar(s[..n], Sanitize(s[n..]));
        assert s == s[..n] + s[n..];
      } else {
        SanitizeIsWellFormed(s[1..]);
        ReplacementIsChar();
        PrependChar(REPLACEMENT, Sanitize(s[1..]));
      }
    }
  }

  /** Sanitizing leaves exactly the well-formed texts alone. */
  lemma SanitizeFixpoints(s: Text)
    ensures Sanitize(s) == s <==> WellFormed(s)
  {
    SanitizeIsWellFormed(s);
  }

  // ---- The writer ----

  /** The code point that the writer assembles; masks and shifts are written as remainders and products. */
  function CodePoint(s: Text, n: nat): nat
    requires 2 <= n <= 4 && n <= |s|
  {
    var b: int, c1: int := s[0], s[1];
    if n == 2 then (b % 32) * 64 + c1 % 64
    else
      var c2: int := s[2];
      if n == 3 then (b % 16) * 4096 + (c1 % 64) * 64 + c2 % 64
      else (b % 8) * 262144 + (c1 % 64) * 4096 + (c2 % 64) * 64 + s[3] % 64
  }

  /** The length the writer derives from a lead byte, and the smallest code point of that length. */
  function LeadLength(b: byte): (n: nat)
    ensures n in {0, 2, 3, 4}
  {
    if 0xC2 <= b <= 0xDF then 2 else if 0xE0 <= b <= 0xEF then 3 else if 0xF0 <= b <= 0xF4 then 4 else 0
  }

  function MinimumCodePoint(n: nat): nat {
    if n == 2 then 0x80 else if n == 3 then 0x800 else 0x10000
  }

  /** The writer's test of a sequence that starts with a byte above 127. */
  function AcceptedLength(s: Text): (n: nat)
    requires s != [] && s[0] >= 128
    ensures n <= |s|
  {
    var n := LeadLength(s[0]);
    if n == 0 || n > |s| then 0
    else if !(forall k :: 1 <= k < n ==> IsTail(s[k])) then 0
    else
      var cp := CodePoint(s, n);
      if cp < MinimumCodePoint(n) || 0xD800 <= cp <= 0xDFFF || cp > 0x10FFFF then 0 else n
  }

  /** The arithmetic test accepts exactly the characters of the grammar. */
  lemma AcceptsExactlyUtf8(s: Text)
    requires s != [] && s[0] >= 128
    ensures AcceptedLength(s) == CharLength(s)
  {
    var n := LeadLength(s[0]);
    if n != 0 && n <= |s| {
      assert (forall k :: 1 <= k < n ==> IsTail(s[k])) <==>
        IsTail(s[1]) && (n >= 3 ==> IsTail(s[2])) && (n == 4 ==> IsTail(s[3]));
    }
  }

  function HexDigit(n: nat): byte
    requires n < 16
  {
    if n < 10 then 48 + n else 87 + n
  }

  function EscapedByte(b: byte): Text {
    if b == 34 then [92, 34]
    else if b == 92 then [92, 92]
    else if b == 10 then [92, 110]
    else if b == 13 then [92, 114]
    else if b == 9 then [92, 116]
    else if b < 32 then [92, 117, 48, 48, HexDigit(b / 16), HexDigit(b % 16)]
    else [b]
  }

  /** \ufffd */
  const ESCAPED_REPLACEMENT: Text := [92, 117, 102, 102, 102, 100]

  function Escape(s: Text): Text {
    if s == [] then []
    else if s[0] < 128 then EscapedByte(s[0]) + Escape(s[1..])
    else if AcceptedLength(s) > 0 then s[..AcceptedLength(s)] + Escape(s[AcceptedLength(s)..])
    else ESCAPED_REPLACEMENT + Escape(s[1..])
  }

  method JsonEscapeByte(buffer: Buffer, b: byte)
    modifies buffer
    ensures buffer.data == old(buffer.data) + EscapedByte(b)
    // The shortest escapes that RFC 8259 has for the quote, the backslash and three controls.
    ensures b == 34 ==> buffer.data == old(buffer.data) + [92, 34]
    ensures b == 92 ==> buffer.data == old(buffer.data) + [92, 92]
    ensures b == 10 ==> buffer.data == old(buffer.data) + [92, 110]
    ensures b == 13 ==> buffer.data == old(buffer.data) + [92, 114]
    ensures b == 9 ==> buffer.data == old(buffer.data) + [92, 116]
    ensures b < 32 && b !in {9, 10, 13} ==>
      buffer.data == old(buffer.data) + [92, 117, 48, 48, 48 + b / 16, if b % 16 < 10 then 48 + b % 16 else 87 + b % 16]
    ensures 32 <= b && b !in {34, 92} ==> buffer.data == old(buffer.data) + [b]
  {
    if b == 34 {
      buffer.Push(92);
      buffer.Push(34);
    } else if b == 92 {
      buffer.Push(92);
      buffer.Push(92);
    } else if b == 10 {
      buffer.Push(92);
      buffer.Push(110);
    } else if b == 13 {
      buffer.Push(92);
      buffer.Push(114);
    } else if b == 9 {
      buffer.Push(92);
      buffer.Push(116);
    } else if b < 32 {
      buffer.Push(92);
      buffer.Push(117);
      buffer.Push(48);
      buffer.Push(48);
      buffer.Push(HexDigit(b / 16));
      buffer.Push(HexDigit(b % 16));
    } else {
      buffer.Push(b);
    }
  }

  /** Copies an accepted sequence. */
  method PushSequence(buffer: Buffer, text: Text, i: nat, n: nat)
    requires i + n <= |text|
    modifies buffer
    ensures buffer.data == old(buffer.data) + text[i..i + n]
  {
    for k := 0 to n
      invariant buffer.data == old(buffer.data) + text[i..i + k]
    {
      assert text[i..i + k + 1] == text[i..i + k] + [text[i + k]];
      buffer.Push(text[i + k]);
    }
  }

  method PushReplacement(buffer: Buffer)
    modifies buffer
    ensures buffer.data == old(buffer.data) + ESCAPED_REPLACEMENT
  {
    buffer.Push(92);
    buffer.Push(117);
    buffer.Push(102);
    buffer.Push(102);
    buffer.Push(102);
    buffer.Push(100);
  }

  /** What one round of the loop writes, and how far it advances. */
  function Piece(text: Text, i: nat): Text
    requires i < |text|
  {
    if text[i] < 128 then EscapedByte(text[i])
    else if AcceptedLength(text[i..]) > 0 then text[i..i + AcceptedLength(text[i..])]
    else ESCAPED_REPLACEMENT
  }

  function Advance(text: Text, i: nat): (n: nat)
    requires i < |text|
    ensures 0 < n && i + n <= |text|
  {
    if text[i] < 128 || AcceptedLength(text[i..]) == 0 then 1 else AcceptedLength(text[i..])
  }

  lemma EscapeAdvances(text: Text, i: nat)
    requires i < |text|
    ensures Escape(text[i..]) == Piece(text, i) + Escape(text[i + Advance(text, i)..])
  {
    var n := Advance(text, i);
    assert text[i..][n..] == text[i + n..] && text[i..][..n] == text[i..i + n];
    hide AcceptedLength, EscapedByte;
  }

  /** The body of the loop: classify the byte at i, write its piece, say how far to go on. */
  method EscapeAt(buffer: Buffer, text: Text, i: nat) returns (n: nat)
    requires i < |text|
    modifies buffer
    ensures buffer.data == old(buffer.data) + Piece(text, i) && n == Advance(text, i)
  {
    hide EscapedByte, AcceptedLength;
    var b := text[i];
    if b < 128 {
      JsonEscapeByte(buffer, b);
      return 1;
    }
    n := AcceptedLength(text[i..]);
    if n > 0 {
      PushSequence(buffer, text, i, n);
    } else {
      PushReplacement(buffer);
      n := 1;
    }
  }

  method JsonEscapeUtf8(buffer: Buffer, text: Text)
    modifies buffer
    ensures buffer.data == old(buffer.data) + Escape(text)
  {
    assert Escape([]) == [];
    hide Escape, Piece, Advance;
    var i: nat := 0;
    assert text[0..] == text;
    while i < |text|
      invariant i <= |text|
      invariant old(buffer.data) + Escape(text) == buffer.data + Escape(text[i..])
    {
      ghost var before := buffer.data;
      EscapeAdvances(text, i);
      var n := EscapeAt(buffer, text, i);
      Associate(before, Piece(text, i), Escape(text[i + n..]));
      i := i + n;
    }
    assert text[|text|..] == [];
  }

  lemma Associate(a: Text, b: Text, c: Text)
    ensures a + (b + c) == (a + b) + c
  {}

  // ---- String bodies (RFC 8259, section 7) ----

  predicate IsHex(b: byte) {
    48 <= b <= 57 || 65 <= b <= 70 || 97 <= b <= 102
  }

  function HexValue(b: byte): (v: nat)
    requires IsHex(b)
    ensures v < 16
  {
    if b <= 57 then b - 48 else if b <= 70 then b - 55 else b - 87
  }

  /** After the reverse solidus: quote, reverse solidus, solidus, b, f, n, r, t. */
  predicate IsShortEscape(b: byte) {
    b in {34, 92, 47, 98, 102, 110, 114, 116}
  }

  /** The length of the grammar's `char` at the front of s, or 0. */
  function UnitLength(s: Text): (n: nat)
    ensures n <= |s|
  {
    if s == [] || s[0] == 34 || s[0] < 32 then 0
    else if s[0] != 92 then CharLength(s)
    else if |s| >= 2 && IsShortEscape(s[1]) then 2
    else if |s| >= 6 && s[1] == 117 && IsHex(s[2]) && IsHex(s[3]) && IsHex(s[4]) && IsHex(s[5]) then 6
    else 0
  }

  /** *char */
  predicate IsStringBody(s: Text) {
    s == [] || (UnitLength(s) > 0 && IsStringBody(s[UnitLength(s)..]))
  }

  function FourHex(s: Text): (v: nat)
    requires |s| >= 6 && IsHex(s[2]) && IsHex(s[3]) && IsHex(s[4]) && IsHex(s[5])
    ensures v < 0x10000
  {
    4096 * HexValue(s[2]) + 256 * HexValue(s[3]) + 16 * HexValue(s[4]) + HexValue(s[5])
  }

  function ShortEscape(b: byte): byte
    requires IsShortEscape(b)
  {
    if b == 98 then 8 else if b == 102 then 12 else if b == 110 then 10 else if b == 114 then 13
    else if b == 116 then 9 else b
  }

  /** UTF-8 of a scalar value. */
  function Utf8(cp: nat): Text
    requires cp <= 0x10FFFF
  {
    if cp < 0x80 then [cp]
    else if cp < 0x800 then [0xC0 + cp / 64, 0x80 + cp % 64]
    else if cp < 0x10000 then [0xE0 + cp / 4096, 0x80 + cp / 64 % 64, 0x80 + cp % 64]
    else [0xF0 + cp / 262144, 0x80 + cp / 4096 % 64, 0x80 + cp / 64 % 64, 0x80 + cp % 64]
  }

  /** What one unit of a body stands for, and how many bytes it takes; an unpaired surrogate stands for nothing. */
  function DecodeUnit(s: Text): (r: Option<(Text, nat)>)
    ensures r.Some? ==> 0 < UnitLength(s) <= r.value.1 <= |s|
  {
    var n := UnitLength(s);
    if n == 0 then None
    else if s[0] != 92 then Some((s[..n], n))
    else if n == 2 then Some(([ShortEscape(s[1])], n))
    else
      var u := FourHex(s);
      if u < 0xD800 || u > 0xDFFF then Some((Utf8(u), n))
      else if u <= 0xDBFF && UnitLength(s[6..]) == 6 && s[6] == 92 && 0xDC00 <= FourHex(s[6..]) <= 0xDFFF then
        Some((Utf8(0x10000 + (u - 0xD800) * 1024 + (FourHex(s[6..]) - 0xDC00)), 12))
      else None
  }

  /** The text a string body denotes. */
  function Unescape(s: Text): Option<Text>
    decreases |s|
  {
    if s == [] then Some([])
    else
      match DecodeUnit(s)
      case None => None
      case Some(unit) =>
        match Unescape(s[unit.1..])
        case None => None
        case Some(rest) => Some(unit.0 + rest)
  }

  /** One unit in front of any continuation. */
  lemma UnescapePiece(piece: Text, meaning: Text, rest: Text)
    requires piece != [] && DecodeUnit(piece + rest) == Some((meaning, |piece|))
    ensures Unescape(piece + rest) ==
      (match Unescape(rest) case None => None case Some(text) => Some(meaning + text))
  {
    assert (piece + rest)[|piece|..] == rest;
  }

  lemma EscapedByteDecodes(b: byte, rest: Text)
    requires b < 128
    ensures DecodeUnit(EscapedByte(b) + rest) == Some(([b], |EscapedByte(b)|))
  {
    var s := EscapedByte(b) + rest;
    if b < 32 && b != 10 && b != 13 && b != 9 {
      assert s[..6] == EscapedByte(b);
      assert FourHex(s) == b;
    } else if b != 34 && b != 92 && b >= 32 {
      assert s[..1] == [b];
    }
  }

  lemma ReplacementDecodes(rest: Text)
    ensures DecodeUnit(ESCAPED_REPLACEMENT + rest) == Some((REPLACEMENT, 6))
  {
    var s := ESCAPED_REPLACEMENT + rest;
    assert s[..6] == ESCAPED_REPLACEMENT;
    assert FourHex(s) == 0xFFFD;
  }

  lemma CharDecodes(s: Text, rest: Text)
    requires s != [] && s[0] >= 128 && CharLength(s) > 0
    ensures DecodeUnit(s[..CharLength(s)] + rest) == Some((s[..CharLength(s)], CharLength(s)))
  {
    var ch := s[..CharLength(s)];
    CharIsLocal(s, []);
    PrependChar(ch, rest);
  }

  /** Unescaping the writer's output gives the input with every ill-formed byte replaced. */
  lemma {:induction false} EscapingIsLossless(s: Text)
    ensures Unescape(Escape(s)) == Some(Sanitize(s))
    decreases |s|
  {
    hide Unescape, DecodeUnit, EscapedByte;
    if s == [] {
      UnescapeEmpty();
    } else if s[0] < 128 {
      EscapingIsLossless(s[1..]);
      EscapedByteDecodes(s[0], Escape(s[1..]));
      EscapedByteIsNotEmpty(s[0]);
      UnescapePiece(EscapedByte(s[0]), [s[0]], Escape(s[1..]));
      assert s[..1] == [s[0]];
    } else {
      AcceptsExactlyUtf8(s);
      var n := CharLength(s);
      hide AcceptedLength, CharLength;
      if n > 0 {
        EscapingIsLossless(s[n..]);
        CharDecodes(s, Escape(s[n..]));
        UnescapePiece(s[..n], s[..n], Escape(s[n..]));
      } else {
        EscapingIsLossless(s[1..]);
        ReplacementDecodes(Escape(s[1..]));
        UnescapePiece(ESCAPED_REPLACEMENT, REPLACEMENT, Escape(s[1..]));
      }
    }
  }

  lemma UnescapeEmpty()
    ensures Unescape([]) == Some([])
  {}

  lemma EscapedByteIsNotEmpty(b: byte)
    ensures EscapedByte(b) != []
  {}

  /** Well-formed text survives unchanged, so different texts stay different. */
  lemma EscapingIsInjective(a: Text, b: Text)
    requires WellFormed(a) && WellFormed(b) && Escape(a) == Escape(b)
    ensures a == b
  {
    EscapingIsLossless(a);
    EscapingIsLossless(b);
    SanitizeIsWellFormed(a);
    SanitizeIsWellFormed(b);
  }

  lemma UnitIsWellFormed(s: Text)
    requires UnitLength(s) > 0
    ensures WellFormed(s) <==> WellFormed(s[UnitLength(s)..])
  {
    var n := UnitLength(s);
    if s[0] == 92 {
      AsciiPrefix(s, n);
    }
  }

  lemma {:induction false} AsciiPrefix(s: Text, n: nat)
    requires n <= |s| && forall k :: 0 <= k < n ==> s[k] <= 0x7F
    ensures WellFormed(s) <==> WellFormed(s[n..])
  {
    if n > 0 {
      AsciiPrefix(s[1..], n - 1);
      assert s[1..][n - 1..] == s[n..];
    } else {
      assert s[0..] == s;
    }
  }

  /** Every string body is well-formed UTF-8. */
  lemma {:induction false} StringBodyIsWellFormed(s: Text)
    requires IsStringBody(s)
    ensures WellFormed(s)
  {
    if s != [] {
      UnitIsWellFormed(s);
      hide UnitLength, CharLength;
      StringBodyIsWellFormed(s[UnitLength(s)..]);
    }
  }

  /** Whatever has a meaning is a string body. */
  lemma {:induction false} UnescapableIsBody(s: Text)
    requires Unescape(s).Some?
    ensures IsStringBody(s)
    decreases |s|
  {
    if s != [] {
      var n, k := UnitLength(s), DecodeUnit(s).value.1;
      UnescapableIsBody(s[k..]);
      if k != n {
        assert s[6..][6..] == s[12..];
      }
    }
  }

  /** For any input bytes the output is a legal string body in well-formed UTF-8. */
  lemma EscapedTextIsLegal(s: Text)
    ensures IsStringBody(Escape(s)) && WellFormed(Escape(s))
  {
    EscapingIsLossless(s);
    UnescapableIsBody(Escape(s));
    StringBodyIsWellFormed(Escape(s));
  }
}
