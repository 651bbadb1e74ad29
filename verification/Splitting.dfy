/**
  Splitting the fields of a constructor literal at its outer level, against a grammar of
  balanced brackets.
 */
module Splitting {
  import opened Bytes

  predicate IsOpen(c: char) {
    c == '(' || c == '[' || c == '{'
  }

  predicate IsClose(c: char) {
    c == ')' || c == ']' || c == '}'
  }

  function Matching(c: char): char
    requires IsClose(c)
  {
    if c == ')' then '(' else if c == ']' then '[' else '{'
  }

  predicate Closes(open: char, c: char) {
    IsClose(c) && Matching(c) == open
  }

  predicate IsPair(open: char, close: char) {
    (open == '(' && close == ')') || (open == '[' && close == ']') || (open == '{' && close == '}')
  }

  predicate IsBracket(c: char) {
    c == '(' || c == ')' || c == '[' || c == ']' || c == '{' || c == '}'
  }

  /** text := empty | other text | "(" text ")" text | "[" text "]" text | "{" text "}" text. */
  ghost predicate Balanced(s: string)
    decreases |s|
  {
    s == []
    || (!IsBracket(s[0]) && Balanced(s[1..]))
    || exists k :: 1 <= k < |s| && IsPair(s[0], s[k]) && Balanced(s[1..k]) && Balanced(s[k + 1..])
  }

  /** The bracket stack after reading s, or None at the first bracket that does not fit. */
  function Scan(s: string, stack: string): Option<string> {
    if s == [] then Some(stack)
    else if IsOpen(s[0]) then Scan(s[1..], stack + [s[0]])
    else if IsClose(s[0]) then
      if stack != [] && Closes(stack[|stack| - 1], s[0]) then Scan(s[1..], stack[..|stack| - 1]) else None
    else Scan(s[1..], stack)
  }

  lemma {:induction false} ScanConcat(s: string, t: string, stack: string)
    ensures Scan(s + t, stack) ==
      (match Scan(s, stack) case None => None case Some(after) => Scan(t, after))
  {
    if s == [] {
      assert s + t == t;
    } else {
      assert (s + t)[1..] == s[1..] + t;
      if IsOpen(s[0]) {
        ScanConcat(s[1..], t, stack + [s[0]]);
      } else if IsClose(s[0]) {
        if stack != [] {
          ScanConcat(s[1..], t, stack[..|stack| - 1]);
        }
      } else {
        ScanConcat(s[1..], t, stack);
      }
    }
  }

  /** Balanced text leaves any stack as it found it. */
  lemma {:induction false} BalancedScans(s: string, stack: string)
    requires Balanced(s)
    ensures Scan(s, stack) == Some(stack)
    decreases |s|
  {
    if s == [] {
    } else if !IsOpen(s[0]) {
      BalancedScans(s[1..], stack);
    } else {
      var k :| 1 <= k < |s| && Closes(s[0], s[k]) && Balanced(s[1..k]) && Balanced(s[k + 1..]);
      BalancedScans(s[1..k], stack + [s[0]]);
      BalancedScans(s[k + 1..], stack);
      ScanPair(s, k, stack);
    }
  }

  lemma ScanPair(s: string, k: nat, stack: string)
    requires 1 <= k < |s| && IsOpen(s[0]) && Closes(s[0], s[k])
    requires Scan(s[1..k], stack + [s[0]]) == Some(stack + [s[0]])
    ensures Scan(s, stack) == Scan(s[k + 1..], stack)
  {
    var inner := stack + [s[0]];
    assert s[1..] == s[1..k] + s[k..];
    ScanConcat(s[1..k], s[k..], inner);
    assert s[k..][1..] == s[k + 1..];
    assert inner[..|inner| - 1] == stack;
  }

  lemma BalancedPlain(s: string, n: nat)
    requires n < |s| && !IsOpen(s[0]) && !IsClose(s[0]) && Balanced(s[1..][..n])
    ensures Balanced(s[..n + 1])
  {
    assert s[..n + 1][1..] == s[1..][..n];
  }

  lemma OpensOrCloses(c: char)
    ensures !(IsOpen(c) && IsClose(c))
  {}

  lemma EmptyIsBalanced(s: string)
    ensures Balanced(s[..0])
  {}

  /** Reading one character with something on the stack. */
  lemma ScanFirst(s: string, top: string)
    requires top != "" && Scan(s, top).Some? && |Scan(s, top).value| < |top|
    ensures s != ""
    ensures IsOpen(s[0]) ==> Scan(s, top) == Scan(s[1..], top + [s[0]])
    ensures !IsOpen(s[0]) && IsClose(s[0]) ==>
      Closes(top[|top| - 1], s[0]) && Scan(s, top) == Scan(s[1..], top[..|top| - 1])
    ensures !IsOpen(s[0]) && !IsClose(s[0]) ==> Scan(s, top) == Scan(s[1..], top)
  {}

  /** If reading s pops `open` off the stack, some bracket in s closes it after balanced text. */
  lemma {:induction false} FindClose(s: string, open: char, stack: string) returns (k: nat)
    requires Scan(s, stack + [open]).Some? && |Scan(s, stack + [open]).value| <= |stack|
    ensures k < |s| && Closes(open, s[k]) && Balanced(s[..k])
    ensures Scan(s[k + 1..], stack) == Scan(s, stack + [open])
    decreases |s|
  {
    var top := stack + [open];
    assert top[|top| - 1] == open && top[..|top| - 1] == stack;
    ScanFirst(s, top);
    OpensOrCloses(s[0]);
    hide Scan, Balanced, IsOpen, IsClose, Closes;
    if IsClose(s[0]) {
      k := 0;
      EmptyIsBalanced(s);
    } else if IsOpen(s[0]) {
      var inner := FindClose(s[1..], s[0], top);
      var rest := s[inner + 2..];
      assert s[1..][inner + 1..] == rest;
      var outer := FindClose(rest, open, stack);
      k := inner + 2 + outer;
      BalancedPair(s, inner + 1, k);
      assert rest[outer + 1..] == s[k + 1..];
    } else {
      var later := FindClose(s[1..], open, stack);
      k := later + 1;
      BalancedPlain(s, later);
      assert s[1..][later + 1..] == s[k + 1..];
    }
  }

  lemma BalancedPair(s: string, close: nat, end: nat)
    requires 1 <= close < end <= |s| && IsOpen(s[0]) && Closes(s[0], s[close])
    requires Balanced(s[1..][..close - 1]) && Balanced(s[close + 1..][..end - close - 1])
    ensures Balanced(s[..end])
  {
    var t := s[..end];
    assert t[1..close] == s[1..][..close - 1];
    assert t[close + 1..] == s[close + 1..][..end - close - 1];
    assert Closes(t[0], t[close]);
  }

  lemma {:induction false} ScansBalanced(s: string)
    requires Scan(s, "") == Some("")
    ensures Balanced(s)
    decreases |s|
  {
    if s == [] {
    } else if IsOpen(s[0]) {
      assert "" + [s[0]] == [s[0]];
      var k := FindClose(s[1..], s[0], "");
      var rest := s[k + 2..];
      assert s[1..][k + 1..] == rest == rest[..|s| - k - 2];
      ScansBalanced(rest);
      BalancedPair(s, k + 1, |s|);
      assert s[..|s|] == s;
    } else {
      ScansBalanced(s[1..]);
    }
  }

  /** The grammar and the stack agree. */
  lemma BalancedIffScans(s: string)
    ensures Balanced(s) <==> Scan(s, "") == Some("")
  {
    if Balanced(s) {
      BalancedScans(s, "");
    }
    if Scan(s, "") == Some("") {
      ScansBalanced(s);
    }
  }

  /** The constructor that opened before `opening` ends with the brace at `end`. */
  ghost predicate EndsAt(masked: string, opening: nat, end: nat) {
    opening <= end < |masked| && masked[end] == '}' && Balanced(masked[opening..end])
  }

  /** There is at most one such brace. */
  lemma EndIsUnique(masked: string, opening: nat, a: nat, b: nat)
    requires EndsAt(masked, opening, a) && EndsAt(masked, opening, b)
    ensures a == b
  {
    EndsNoLater(masked, opening, a, b);
    EndsNoLater(masked, opening, b, a);
  }

  lemma EndsNoLater(masked: string, opening: nat, a: nat, b: nat)
    requires EndsAt(masked, opening, a) && EndsAt(masked, opening, b)
    ensures b <= a
  {
    if a < b {
      BalancedIffScans(masked[opening..a]);
      BalancedIffScans(masked[opening..b]);
      assert masked[opening..b] == masked[opening..a] + masked[a..b];
      ScanConcat(masked[opening..a], masked[a..b], "");
      assert false;
    }
  }

  /** Fields joined by commas. */
  function Join(fields: seq<string>): string {
    if fields == [] then ""
    else if |fields| == 1 then fields[0]
    else Join(fields[..|fields| - 1]) + "," + fields[|fields| - 1]
  }

  /** Balanced text whose commas are all inside brackets. */
  ghost predicate IsField(f: string) {
    Balanced(f) && forall k :: 0 <= k < |f| && f[k] == ',' ==> !Balanced(f[..k])
  }

  /** A field that is still being read, with the bracket stack reached so far. */
  ghost predicate PartialField(f: string, stack: string) {
    Scan(f, "") == Some(stack) && forall k :: 0 <= k < |f| && f[k] == ',' ==> !Balanced(f[..k])
  }

  lemma ExtendField(f: string, stack: string, c: char, after: string)
    requires PartialField(f, stack) && Scan([c], stack) == Some(after)
    requires stack == "" ==> c != ','
    ensures PartialField(f + [c], after)
  {
    ScanConcat(f, [c], "");
    BalancedIffScans(f);
    hide Scan, Balanced;
    assert f[..|f|] == f;
    forall k | 0 <= k < |f + [c]| && (f + [c])[k] == ','
      ensures !Balanced((f + [c])[..k])
    {
      assert (f + [c])[..k] == f[..k];
    }
  }

  /** What the splitter knows before it looks at `index`. */
  ghost predicate SplitState(masked: string, opening: nat, fields: seq<string>, fieldStart: nat, stack: string,
                             index: nat) {
    && opening <= fieldStart <= index <= |masked|
    && PartialField(masked[fieldStart..index], stack)
    && Scan(masked[opening..index], "") == Some(stack)
    && (forall i :: 0 <= i < |fields| ==> IsField(fields[i]))
    && Join(fields + [masked[fieldStart..index]]) == masked[opening..index]
    && (forall end: nat :: end < index ==> !EndsAt(masked, opening, end))
  }

  /** A character that neither cuts a field nor ends the constructor. */
  lemma ReadOn(masked: string, opening: nat, fields: seq<string>, fieldStart: nat, stack: string, index: nat,
               after: string)
    requires index < |masked| && SplitState(masked, opening, fields, fieldStart, stack, index)
    requires Scan([masked[index]], stack) == Some(after)
    requires stack == "" ==> masked[index] != ',' && masked[index] != '}'
    ensures SplitState(masked, opening, fields, fieldStart, after, index + 1)
  {
    var c, f, t := masked[index], masked[fieldStart..index], masked[opening..index];
    SliceGrows(masked, fieldStart, index);
    SliceGrows(masked, opening, index);
    ExtendField(f, stack, c, after);
    ScanConcat(t, [c], "");
    JoinExtends(fields, f, [c]);
    NotHere(masked, opening, stack, index);
    hide Scan, PartialField, IsField, Join, EndsAt;
  }

  lemma SliceGrows(s: string, from: nat, to: nat)
    requires from <= to < |s|
    ensures s[from..to + 1] == s[from..to] + [s[to]]
  {}

  lemma NotHere(masked: string, opening: nat, stack: string, index: nat)
    requires opening <= index < |masked| && Scan(masked[opening..index], "") == Some(stack)
    requires stack == "" ==> masked[index] != '}'
    ensures !EndsAt(masked, opening, index)
  {
    BalancedIffScans(masked[opening..index]);
  }

  lemma JoinExtends(fields: seq<string>, f: string, more: string)
    ensures Join(fields + [f + more]) == Join(fields + [f]) + more
  {
    assert (fields + [f + more])[..|fields|] == fields == (fields + [f])[..|fields|];
  }

  /** An outer comma ends one field and starts the next. */
  lemma CutField(masked: string, opening: nat, fields: seq<string>, fieldStart: nat, index: nat)
    requires index < |masked| && SplitState(masked, opening, fields, fieldStart, "", index)
    requires masked[index] == ','
    ensures SplitState(masked, opening, fields + [masked[fieldStart..index]], index + 1, "", index + 1)
  {
    var f, t := masked[fieldStart..index], masked[opening..index];
    assert masked[opening..index + 1] == t + ",";
    ScanConcat(t, ",", "");
    BalancedIffScans(f);
    NotHere(masked, opening, "", index);
    assert masked[index + 1..index + 1] == "";
    var longer := fields + [f];
    assert (longer + [""])[..|longer|] == longer;
  }

  /** A bracket that does not fit leaves no way to end the constructor. */
  lemma Misfit(masked: string, opening: nat, fields: seq<string>, fieldStart: nat, stack: string, index: nat, end: nat)
    requires index < |masked| && SplitState(masked, opening, fields, fieldStart, stack, index)
    requires Scan([masked[index]], stack) == None && !(masked[index] == '}' && stack == "")
    ensures !EndsAt(masked, opening, end)
  {
    if index <= end < |masked| {
      var t := masked[opening..index];
      BalancedIffScans(t);
      if index < end {
        assert masked[opening..end] == t + ([masked[index]] + masked[index + 1..end]);
        ScanConcat(t, [masked[index]] + masked[index + 1..end], "");
        ScanConcat([masked[index]], masked[index + 1..end], stack);
        BalancedIffScans(masked[opening..end]);
      }
    }
  }

  /**
    Some fields exactly when balanced text starting at `opening` is followed by a closing brace; the
    fields are that text cut at its outer commas.
   */
  method SplitConstructorFields(masked: string, opening: nat) returns (r: Option<seq<string>>)
    requires opening <= |masked|
    ensures r.Some? <==> exists end: nat :: EndsAt(masked, opening, end)
    ensures r.Some? ==>
      && r.value != [] && (forall i :: 0 <= i < |r.value| ==> IsField(r.value[i]))
      && forall end: nat :: EndsAt(masked, opening, end) ==> Join(r.value) == masked[opening..end]
  {
    var fields: seq<string> := [];
    var stack: string := "";
    var fieldStart: nat := opening;
    assert masked[opening..opening] == "" && fields + [""] == [""];
    for index := opening to |masked|
      invariant SplitState(masked, opening, fields, fieldStart, stack, index)
    {
      var c := masked[index];
      ghost var after := Scan([c], stack);
      if IsOpen(c) {
        ReadOn(masked, opening, fields, fieldStart, stack, index, stack + [c]);
        stack := stack + [c];
      } else if IsClose(c) {
        if c == '}' && stack == "" {
          Finish(masked, opening, fields, fieldStart, index);
          fields := fields + [masked[fieldStart..index]];
          return Some(fields);
        }
        if stack == "" || stack[|stack| - 1] != Matching(c) {
          forall end: nat
            ensures !EndsAt(masked, opening, end)
          {
            Misfit(masked, opening, fields, fieldStart, stack, index, end);
          }
          return None;
        }
        ReadOn(masked, opening, fields, fieldStart, stack, index, stack[..|stack| - 1]);
        stack := stack[..|stack| - 1];
      } else if c == ',' && stack == "" {
        CutField(masked, opening, fields, fieldStart, index);
        fields := fields + [masked[fieldStart..index]];
        fieldStart := index + 1;
      } else {
        ReadOn(masked, opening, fields, fieldStart, stack, index, stack);
      }
    }
    r := None;
  }

  /** The outer brace ends the last field and the constructor. */
  lemma Finish(masked: string, opening: nat, fields: seq<string>, fieldStart: nat, index: nat)
    requires index < |masked| && SplitState(masked, opening, fields, fieldStart, "", index)
    requires masked[index] == '}'
    ensures EndsAt(masked, opening, index) && IsField(masked[fieldStart..index])
    ensures forall end: nat :: EndsAt(masked, opening, end) ==> end == index
  {
    BalancedIffScans(masked[opening..index]);
    BalancedIffScans(masked[fieldStart..index]);
    forall end: nat | EndsAt(masked, opening, end)
      ensures end == index
    {
      EndIsUnique(masked, opening, end, index);
    }
  }
}
