/**
  LSP base-protocol framing: the incremental decoder, the encoder, the buffer helper that
  re-serialises a partial frame, and the truncation detector.
 */
module Framing {
  import opened Bytes
  import opened Headers

  /** Header CRLF, then an empty line. */
  const MARKER: Text := [13, 10, 13, 10]

  /** `accepts` says which bodies are UTF-8 JSON objects without duplicate keys or NaN constants. */
  datatype Config = Config(limits: Limits, accepts: Text -> bool)

  datatype State = State(buffer: Text, expected: Option<nat>) {
    function Append(more: Text): State {
      State(buffer + more, expected)
    }
  }

  const EMPTY := State([], None)

  /** Frames completed, the state left behind, and the exception raised, if any. */
  datatype Drained = Drained(frames: seq<Text>, state: State, error: Option<FrameError>) {
    function After(earlier: seq<Text>): Drained {
      Drained(earlier + frames, state, error)
    }
  }

  predicate MarkerAt(s: Text, i: nat) {
    i + 4 <= |s| && s[i] == CR && s[i + 1] == LF && s[i + 2] == CR && s[i + 3] == LF
  }

  /** buffer.find(marker, i), or the length of the buffer if there is none. */
  function FindMarker(s: Text, i: nat): (e: nat)
    requires i <= |s|
    ensures i <= e <= |s|
    ensures e < |s| ==> MarkerAt(s, e)
    ensures forall p :: i <= p < e ==> !MarkerAt(s, p)
    decreases |s| - i
  {
    if i == |s| || MarkerAt(s, i) then i else FindMarker(s, i + 1)
  }

  lemma MarkerIs(s: Text, i: nat, e: nat)
    requires i <= e && MarkerAt(s, e) && forall p :: i <= p < e ==> !MarkerAt(s, p)
    ensures FindMarker(s, i) == e
  {
    var f := FindMarker(s, i);
    assert f >= e;
  }

  /**
    What the decoder finds at the front of its buffer: nothing complete, a reason to raise, a
    complete header, or a complete body.
   */
  datatype Move = Stall | Fail(after: State, error: FrameError) | Open(next: State) | Emit(frame: Text, next: State)

  /**
    The check for an overlong unfinished header is made only when `strict`; the source is strict,
    the other setting is for comparison.
   */
  function Step(c: Config, strict: bool, st: State): (m: Move)
    ensures m.Open? ==> st.expected.None? && m.next.expected.Some? && |m.next.buffer| + 4 <= |st.buffer|
    ensures m.Open? ==> m.next.expected.value <= c.limits.maxBody
    ensures m.Emit? ==> st.expected.Some? && m.next.expected.None? && st.buffer == m.frame + m.next.buffer
    ensures m.Emit? ==> c.accepts(m.frame) && |m.frame| == st.expected.value
  {
    var b := st.buffer;
    match st.expected
    case None =>
      var h := FindMarker(b, 0);
      if h == |b| then
        if strict && |b| > c.limits.maxHeader then Fail(st, HeaderTooLong) else Stall
      else
        (match ContentLength(c.limits, b[..h])
         case Err(e) => Fail(st, e)
         case Ok(n) => Open(State(b[h + 4..], Some(n))))
    case Some(n) =>
      if |b| < n then Stall
      else if !c.accepts(b[..n]) then Fail(State(b[n..], None), InvalidBody)
      else Emit(b[..n], State(b[n..], None))
  }

  /** Everything one call of feed() does with the buffer. */
  function Drain(c: Config, strict: bool, st: State): Drained
    decreases |st.buffer|, if st.expected.Some? then 1 else 0
  {
    match Step(c, strict, st)
    case Stall => Drained([], st, None)
    case Fail(after, error) => Drained([], after, Some(error))
    case Open(next) => Drain(c, strict, next)
    case Emit(frame, next) => Drain(c, strict, next).After([frame])
  }

  lemma AfterTwice(d: Drained, a: seq<Text>, b: seq<Text>)
    ensures d.After(b).After(a) == d.After(a + b)
  {
    assert a + (b + d.frames) == (a + b) + d.frames;
  }

  class FrameDecoder {
    const config: Config
    var buffer: Text
    var expectedBody: Option<nat>

    constructor (config: Config)
      ensures this.config == config && State(buffer, expectedBody) == EMPTY
    {
      this.config, buffer, expectedBody := config, [], None;
    }

    /** The first half of a round: take a header off the buffer if one is complete. */
    method TakeHeader() returns (taken: Result<bool>)
      requires expectedBody.None?
      modifies this
      ensures
        match Step(config, true, old(State(buffer, expectedBody)))
        case Stall => taken == Ok(false) && State(buffer, expectedBody) == old(State(buffer, expectedBody))
        case Fail(after, error) => taken == Err(error) && State(buffer, expectedBody) == after
        case Open(next) => taken == Ok(true) && State(buffer, expectedBody) == next
        case Emit(_, _) => false
    {
      var headerEnd := FindMarker(buffer, 0);
      hide FindMarker, MarkerAt, ContentLength;
      if headerEnd == |buffer| {
        if |buffer| > config.limits.maxHeader {
          return Err(HeaderTooLong);
        }
        return Ok(false);
      }
      var length := ReadContentLength(config.limits, buffer[..headerEnd]);
      if length.Err? {
        return Err(length.error);
      }
      expectedBody := Some(length.value);
      buffer := buffer[headerEnd + 4..];
      taken := Ok(true);
    }

    /** The second half: take the body off the buffer if all of it is there. */
    method TakeBody() returns (taken: Result<Option<Text>>)
      requires expectedBody.Some?
      modifies this
      ensures
        match Step(config, true, old(State(buffer, expectedBody)))
        case Stall => taken == Ok(None) && State(buffer, expectedBody) == old(State(buffer, expectedBody))
        case Fail(after, error) => taken == Err(error) && State(buffer, expectedBody) == after
        case Emit(frame, next) => taken == Ok(Some(frame)) && State(buffer, expectedBody) == next
        case Open(_) => false
    {
      hide FindMarker, ContentLength;
      if |buffer| < expectedBody.value {
        return Ok(None);
      }
      var body := buffer[..expectedBody.value];
      buffer := buffer[expectedBody.value..];
      expectedBody := None;
      if !config.accepts(body) {
        return Err(InvalidBody);
      }
      taken := Ok(Some(body));
    }

    method Feed(data: Text) returns (r: Result<seq<Text>>)
      modifies this
      ensures
        var d := Drain(config, true, old(State(buffer, expectedBody)).Append(data));
        && State(buffer, expectedBody) == d.state
        && r == match d.error case None => Ok(d.frames) case Some(e) => Err(e)
    {
      hide Step;
      buffer := buffer + data;
      var complete: seq<Text> := [];
      ghost var whole := Drain(config, true, State(buffer, expectedBody));
      assert whole.After([]) == whole;
      while true
        invariant whole == Drain(config, true, State(buffer, expectedBody)).After(complete)
        decreases |buffer|, if expectedBody.Some? then 1 else 0
      {
        if expectedBody.None? {
          var header := TakeHeader();
          if header.Err? {
            return Err(header.error);
          }
          if !header.value {
            break;
          }
        }
        var body := TakeBody();
        if body.Err? {
          return Err(body.error);
        }
        if body.value.None? {
          break;
        }
        AfterTwice(Drain(config, true, State(buffer, None)), complete, [body.value.value]);
        complete := complete + [body.value.value];
      }
      assert complete + [] == complete;
      r := Ok(complete);
    }

    /** At end of input: an exception exactly when part of a frame is left. */
    method Finish() returns (clean: bool)
      ensures clean <==> State(buffer, expectedBody) == EMPTY
    {
      if expectedBody.Some? {
        return false;
      }
      if buffer != [] {
        return false;
      }
      clean := true;
    }
  }

  // ---- Chunk independence ----

  lemma MarkerSurvives(s: Text, more: Text)
    requires FindMarker(s, 0) < |s|
    ensures FindMarker(s + more, 0) == FindMarker(s, 0)
    ensures (s + more)[..FindMarker(s, 0)] == s[..FindMarker(s, 0)]
    ensures FindMarker(s, 0) + 4 <= |s|
    ensures (s + more)[FindMarker(s, 0) + 4..] == s[FindMarker(s, 0) + 4..] + more
  {
    var h := FindMarker(s, 0);
    forall p | 0 <= p < h
      ensures !MarkerAt(s + more, p)
    {
      assert !MarkerAt(s, p);
      assert p + 4 <= h + 4 <= |s|;
    }
    assert MarkerAt(s + more, h);
    MarkerIs(s + more, 0, h);
  }

  /** Later bytes change none of the moves already possible. */
  lemma StepAppend(c: Config, strict: bool, st: State, more: Text)
    ensures
      var later := Step(c, strict, st.Append(more));
      match Step(c, strict, st)
      case Stall => true
      case Fail(after, error) => strict || later == Fail(after.Append(more), error)
      case Open(next) => later == Open(next.Append(more))
      case Emit(frame, next) => later == Emit(frame, next.Append(more))
  {
    var b := st.buffer;
    match st.expected
    case None =>
      if FindMarker(b, 0) < |b| {
        MarkerSurvives(b, more);
      }
    case Some(n) =>
      if n <= |b| {
        assert (b + more)[..n] == b[..n] && (b + more)[n..] == b[n..] + more;
      }
  }

  /** Feeding a and then b is feeding a + b: same frames, same final state, same exception. */
  lemma {:induction false} DrainAppend(c: Config, strict: bool, st: State, more: Text)
    requires Drain(c, strict, st).error.None?
    ensures
      var d := Drain(c, strict, st);
      Drain(c, strict, st.Append(more)) == Drain(c, strict, d.state.Append(more)).After(d.frames)
    decreases |st.buffer|, if st.expected.Some? then 1 else 0
  {
    StepAppend(c, strict, st, more);
    hide Step;
    match Step(c, strict, st)
    case Stall =>
    case Open(next) =>
      DrainAppend(c, strict, next, more);
    case Emit(frame, next) =>
      DrainAppend(c, strict, next, more);
      var d := Drain(c, strict, next);
      AfterTwice(Drain(c, strict, d.state.Append(more)), [frame], d.frames);
  }

  /** Apart from the unfinished-header check, an exception raised on a prefix is raised on the whole. */
  lemma {:induction false} DrainErrorPersists(c: Config, st: State, more: Text)
    requires Drain(c, false, st).error.Some?
    ensures Drain(c, false, st.Append(more)).error == Drain(c, false, st).error
    decreases |st.buffer|, if st.expected.Some? then 1 else 0
  {
    StepAppend(c, false, st, more);
    hide Step;
    match Step(c, false, st)
    case Fail(after, error) =>
    case Open(next) =>
      DrainErrorPersists(c, next, more);
    case Emit(frame, next) =>
      DrainErrorPersists(c, next, more);
  }

  /** Bytes of a header whose end has not been seen. */
  function Unfinished(c: Config, st: State): nat {
    var l := Drain(c, false, st);
    if l.state.expected.None? then |l.state.buffer| else 0
  }

  lemma StrictStep(c: Config, st: State)
    ensures
      if Step(c, false, st).Stall? && st.expected.None? && |st.buffer| > c.limits.maxHeader then
        Step(c, true, st) == Fail(st, HeaderTooLong)
      else
        Step(c, true, st) == Step(c, false, st)
  {}

  lemma {:induction false} StrictOrLenient(c: Config, st: State)
    ensures Drain(c, true, st).error.None? <==>
      Drain(c, false, st).error.None? && Unfinished(c, st) <= c.limits.maxHeader
    ensures Drain(c, true, st).error.None? ==> Drain(c, true, st) == Drain(c, false, st)
    decreases |st.buffer|, if st.expected.Some? then 1 else 0
  {
    StrictStep(c, st);
    hide Step;
    match Step(c, false, st)
    case Stall =>
    case Fail(after, error) =>
    case Open(next) =>
      StrictOrLenient(c, next);
    case Emit(frame, next) =>
      StrictOrLenient(c, next);
  }

  /**
    The converse holds exactly when the split does not leave too long an unfinished header: the
    check on unfinished headers counts up to three bytes of the marker.
   */
  lemma SplitSucceedsIff(c: Config, st: State, a: Text, b: Text)
    requires Drain(c, true, st.Append(a + b)).error.None?
    ensures Drain(c, true, st.Append(a)).error.None? <==> Unfinished(c, st.Append(a)) <= c.limits.maxHeader
  {
    StrictOrLenient(c, st.Append(a));
    StrictOrLenient(c, st.Append(a + b));
    assert st.Append(a).Append(b) == st.Append(a + b) by {
      assert st.buffer + a + b == st.buffer + (a + b);
    }
    hide Step;
    if Drain(c, false, st.Append(a)).error.Some? {
      DrainErrorPersists(c, st.Append(a), b);
    }
  }

  /** Every header completed while draining is at most `limit` bytes long. */
  predicate HeadersWithin(c: Config, st: State, limit: int)
    decreases |st.buffer|, if st.expected.Some? then 1 else 0
  {
    match Step(c, true, st)
    case Open(next) => |st.buffer| - |next.buffer| - 4 <= limit && HeadersWithin(c, next, limit)
    case Emit(_, next) => HeadersWithin(c, next, limit)
    case _ => true
  }

  /** With three bytes to spare in every header, no prefix of an accepted stream is refused. */
  lemma {:induction false} ShortHeadersAllowPrefixes(c: Config, st: State, more: Text)
    requires Drain(c, true, st.Append(more)).error.None?
    requires HeadersWithin(c, st.Append(more), c.limits.maxHeader - 3)
    ensures Drain(c, true, st).error.None?
    ensures HeadersWithin(c, Drain(c, true, st).state.Append(more), c.limits.maxHeader - 3)
    decreases |st.buffer|, if st.expected.Some? then 1 else 0
  {
    StepAppend(c, true, st, more);
    PrefixStep(c, st, more);
    hide Step;
    match Step(c, true, st)
    case Stall =>
    case Open(next) =>
      ShortHeadersAllowPrefixes(c, next, more);
    case Emit(frame, next) =>
      ShortHeadersAllowPrefixes(c, next, more);
  }

  lemma PrefixStep(c: Config, st: State, more: Text)
    requires !Step(c, true, st.Append(more)).Fail?
    requires
      var m := Step(c, true, st.Append(more));
      m.Open? ==> |st.buffer + more| - |m.next.buffer| - 4 <= c.limits.maxHeader - 3
    ensures !Step(c, true, st).Fail?
  {
    var b := st.buffer;
    match st.expected
    case None =>
      if FindMarker(b, 0) < |b| {
        MarkerSurvives(b, more);
      } else {
        NewMarkerIsLate(b, more);
      }
    case Some(n) =>
      if n <= |b| {
        assert (b + more)[..n] == b[..n];
      }
  }

  /** A marker completed by later bytes starts at most three bytes before them. */
  lemma NewMarkerIsLate(s: Text, more: Text)
    requires FindMarker(s, 0) == |s|
    ensures |s| <= FindMarker(s + more, 0) + 3
  {
    var h := FindMarker(s + more, 0);
    if h + 4 <= |s| {
      MarkerInPrefix(s, more, h);
    }
  }

  lemma MarkerInPrefix(s: Text, more: Text, i: nat)
    requires i + 4 <= |s|
    ensures MarkerAt(s, i) <==> MarkerAt(s + more, i)
  {}

  function Concat(chunks: seq<Text>): Text {
    if chunks == [] then [] else chunks[0] + Concat(chunks[1..])
  }

  /** feed() called once per chunk, stopping at the first exception. */
  function FeedAll(c: Config, st: State, chunks: seq<Text>): Drained
    decreases |chunks|
  {
    if chunks == [] then Drained([], st, None)
    else
      var d := Drain(c, true, st.Append(chunks[0]));
      if d.error.Some? then d else FeedAll(c, d.state, chunks[1..]).After(d.frames)
  }

  /** The state feed() leaves behind: nothing more can be taken from it. */
  predicate Settled(c: Config, st: State) {
    Drain(c, true, st) == Drained([], st, None)
  }

  lemma {:induction false} DrainSettles(c: Config, st: State)
    requires Drain(c, true, st).error.None?
    ensures Settled(c, Drain(c, true, st).state)
    decreases |st.buffer|, if st.expected.Some? then 1 else 0
  {
    hide Step;
    match Step(c, true, st)
    case Stall =>
    case Open(next) =>
      DrainSettles(c, next);
    case Emit(frame, next) =>
      DrainSettles(c, next);
  }

  /** However a stream with short enough headers is cut into chunks, the decoder produces the same. */
  lemma {:induction false} AnyChunking(c: Config, st: State, chunks: seq<Text>)
    requires Settled(c, st)
    requires Drain(c, true, st.Append(Concat(chunks))).error.None?
    requires HeadersWithin(c, st.Append(Concat(chunks)), c.limits.maxHeader - 3)
    ensures FeedAll(c, st, chunks) == Drain(c, true, st.Append(Concat(chunks)))
    decreases |chunks|
  {
    if chunks == [] {
      assert st.buffer + [] == st.buffer;
    } else {
      var a, rest := chunks[0], Concat(chunks[1..]);
      assert st.Append(a + rest) == st.Append(a).Append(rest) by {
        assert st.buffer + (a + rest) == st.buffer + a + rest;
      }
      hide Drain, HeadersWithin;
      ShortHeadersAllowPrefixes(c, st.Append(a), rest);
      DrainAppend(c, true, st.Append(a), rest);
      DrainSettles(c, st.Append(a));
      AnyChunking(c, Drain(c, true, st.Append(a)).state, chunks[1..]);
    }
  }

  /** "Content-Length: 2", 17 bytes, is a legal header under a limit of 17; a cut inside its marker is refused. */
  lemma MarkerBytesAreCounted(c: Config)
    requires c.limits == Limits(17, 2, 0) && c.accepts([123, 125])
    ensures
      var stream := FrameBytes([123, 125]);
      && Drain(c, true, State(stream, None)) == Drained([[123, 125]], EMPTY, None)
      && Drain(c, true, State(stream[..20], None)).error == Some(HeaderTooLong)
  {
    var body: Text := [123, 125];
    assert Digits(2) == [50];
    assert |EncodedHeader(2)| == 17;
    DrainFrame(c, true, body, []);
    var stream := FrameBytes(body);
    assert stream + [] == stream;
    assert Drain(c, true, State([], None)) == Drained([], EMPTY, None);
    PartialHeader(2, body, 20);
  }

  // ---- The encoder and the round trip ----

  function FrameBytes(body: Text): Text {
    EncodedHeader(|body|) + MARKER + body
  }

  /** A body the decoder can take, under a header limit that fits the encoder's header. */
  predicate Admissible(c: Config, body: Text) {
    && c.accepts(body) && |body| <= c.limits.maxBody
    && |EncodedHeader(|body|)| <= c.limits.maxHeader
    && DigitsAllowed(c.limits.maxDigits, |Digits(|body|)|)
  }

  predicate AllAdmissible(c: Config, bodies: seq<Text>) {
    forall i :: 0 <= i < |bodies| ==> Admissible(c, bodies[i])
  }

  function Stream(bodies: seq<Text>): Text {
    if bodies == [] then [] else FrameBytes(bodies[0]) + Stream(bodies[1..])
  }

  lemma MarkerAfterHeader(n: nat, tail: Text)
    ensures FindMarker(EncodedHeader(n) + MARKER + tail, 0) == |EncodedHeader(n)|
  {
    var h := EncodedHeader(n);
    var s := h + MARKER + tail;
    forall p | 0 <= p < |h|
      ensures !MarkerAt(s, p)
    {
      EncodedHeaderHasNoBreak(n, p);
      assert s[p] == h[p];
    }
    assert MarkerAt(s, |h|);
    MarkerIs(s, 0, |h|);
  }

  lemma FrameParts(body: Text, rest: Text)
    ensures
      var s, h := FrameBytes(body) + rest, EncodedHeader(|body|);
      && s == h + MARKER + (body + rest) && s[..|h|] == h && s[|h| + 4..] == body + rest
  {
    var s, h := FrameBytes(body) + rest, EncodedHeader(|body|);
    assert s == h + MARKER + (body + rest);
  }

  lemma DrainFrame(c: Config, strict: bool, body: Text, rest: Text)
    requires Admissible(c, body)
    ensures Drain(c, strict, State(FrameBytes(body) + rest, None)) ==
      Drain(c, strict, State(rest, None)).After([body])
  {
    var s, h := FrameBytes(body) + rest, EncodedHeader(|body|);
    FrameParts(body, rest);
    MarkerAfterHeader(|body|, body + rest);
    EncodedHeaderIsRead(c.limits, |body|);
    assert (body + rest)[..|body|] == body && (body + rest)[|body|..] == rest;
    assert Step(c, strict, State(s, None)) == Open(State(body + rest, Some(|body|)));
    assert Step(c, strict, State(body + rest, Some(|body|))) == Emit(body, State(rest, None));
    hide Step;
  }

  lemma {:induction false} DrainFrames(c: Config, strict: bool, bodies: seq<Text>, rest: Text)
    requires AllAdmissible(c, bodies)
    ensures Drain(c, strict, State(Stream(bodies) + rest, None)) ==
      Drain(c, strict, State(rest, None)).After(bodies)
    decreases |bodies|
  {
    hide Drain, FrameBytes, Admissible;
    if bodies == [] {
      assert Stream(bodies) + rest == rest;
    } else {
      var more := Stream(bodies[1..]) + rest;
      assert Stream(bodies) + rest == FrameBytes(bodies[0]) + more;
      DrainFrame(c, strict, bodies[0], more);
      DrainFrames(c, strict, bodies[1..], rest);
      assert forall d: seq<Text> :: [bodies[0]] + (bodies[1..] + d) == bodies + d;
    }
  }

  /** Decoding the encoded frames gives exactly the bodies, whatever bytes they contain. */
  lemma RoundTrip(c: Config, bodies: seq<Text>)
    requires AllAdmissible(c, bodies)
    ensures Drain(c, true, State(Stream(bodies), None)) == Drained(bodies, EMPTY, None)
  {
    DrainFrames(c, true, bodies, []);
    assert Stream(bodies) + [] == Stream(bodies) && bodies + [] == bodies;
    assert Drain(c, true, State([], None)) == Drained([], EMPTY, None);
  }

  // ---- Cutting a stream ----

  /** The cut falls between two frames, or at an end of the stream. */
  ghost predicate IsBoundary(bodies: seq<Text>, cut: nat) {
    exists j :: 0 <= j <= |bodies| && |Stream(bodies[..j])| == cut
  }

  lemma BoundaryStep(bodies: seq<Text>, cut: nat)
    requires bodies != []
    ensures cut == 0 ==> IsBoundary(bodies, cut)
    ensures 0 < cut < |FrameBytes(bodies[0])| ==> !IsBoundary(bodies, cut)
    ensures cut >= |FrameBytes(bodies[0])| ==>
      (IsBoundary(bodies, cut) <==> IsBoundary(bodies[1..], cut - |FrameBytes(bodies[0])|))
  {
    var f := |FrameBytes(bodies[0])|;
    assert |Stream(bodies[..0])| == 0;
    forall j | 0 <= j < |bodies|
      ensures |Stream(bodies[..j + 1])| == f + |Stream(bodies[1..][..j])|
    {
      assert bodies[..j + 1][1..] == bodies[1..][..j];
    }
    if IsBoundary(bodies, cut) && cut > 0 {
      var j :| 0 <= j <= |bodies| && |Stream(bodies[..j])| == cut;
      assert |Stream(bodies[..(j - 1) + 1])| == f + |Stream(bodies[1..][..j - 1])|;
    }
    if cut >= f && IsBoundary(bodies[1..], cut - f) {
      var j :| 0 <= j <= |bodies[1..]| && |Stream(bodies[1..][..j])| == cut - f;
      assert |Stream(bodies[..j + 1])| == cut;
    }
  }

  lemma PartialHeader(n: nat, body: Text, k: nat)
    requires |body| == n && k < |EncodedHeader(n)| + 4
    ensures k <= |FrameBytes(body)| && FindMarker(FrameBytes(body)[..k], 0) == k
  {
    var s := FrameBytes(body);
    FrameParts(body, []);
    assert s + [] == s;
    MarkerAfterHeader(n, body);
    var p := FindMarker(s[..k], 0);
    if p < k {
      assert s == s[..k] + s[k..];
      MarkerInPrefix(s[..k], s[k..], p);
      assert false;
    }
  }

  /** What is left after a frame has been cut short. */
  lemma DrainPartial(c: Config, strict: bool, body: Text, k: nat)
    requires Admissible(c, body) && 0 < k < |FrameBytes(body)|
    ensures
      var d := Drain(c, strict, State(FrameBytes(body)[..k], None));
      && d.state != EMPTY
      && (d.error.Some? ==> strict && |EncodedHeader(|body|)| + 3 > c.limits.maxHeader)
  {
    var h, s := EncodedHeader(|body|), FrameBytes(body);
    if k < |h| + 4 {
      PartialHeader(|body|, body, k);
    } else {
      var tail := body[..k - |h| - 4];
      assert s[..k] == h + MARKER + tail;
      MarkerAfterHeader(|body|, tail);
      EncodedHeaderIsRead(c.limits, |body|);
      assert s[..k][..|h|] == h && s[..k][|h| + 4..] == tail;
      assert Step(c, strict, State(s[..k], None)) == Open(State(tail, Some(|body|)));
    }
  }

  /** Some header plus three marker bytes exceeds the limit. */
  ghost predicate SomeHeaderIsTight(c: Config, bodies: seq<Text>) {
    exists i :: 0 <= i < |bodies| && |EncodedHeader(|bodies[i]|)| + 3 > c.limits.maxHeader
  }

  lemma TightLater(c: Config, bodies: seq<Text>)
    requires bodies != [] && SomeHeaderIsTight(c, bodies[1..])
    ensures SomeHeaderIsTight(c, bodies)
  {
    var i :| 0 <= i < |bodies[1..]| && |EncodedHeader(|bodies[1..][i]|)| + 3 > c.limits.maxHeader;
    assert bodies[1..][i] == bodies[i + 1];
  }

  /**
    What a cut must leave behind: nothing at a frame boundary, where nothing is raised either, and
    something elsewhere. An exception before the end of input needs a tight header limit.
   */
  ghost predicate CutOutcome(c: Config, strict: bool, bodies: seq<Text>, cut: nat, d: Drained) {
    && (d.state == EMPTY <==> IsBoundary(bodies, cut))
    && (IsBoundary(bodies, cut) ==> d.error.None?)
    && (d.error.Some? ==> strict && SomeHeaderIsTight(c, bodies))
  }

  lemma CutInFirst(c: Config, strict: bool, bodies: seq<Text>, cut: nat)
    requires AllAdmissible(c, bodies) && bodies != [] && cut < |FrameBytes(bodies[0])|
    ensures cut <= |Stream(bodies)|
    ensures CutOutcome(c, strict, bodies, cut, Drain(c, strict, State(Stream(bodies)[..cut], None)))
  {
    var f := FrameBytes(bodies[0]);
    BoundaryStep(bodies, cut);
    assert Stream(bodies)[..cut] == f[..cut];
    if cut == 0 {
      assert Drain(c, strict, State([], None)) == Drained([], EMPTY, None);
    } else {
      assert Admissible(c, bodies[0]);
      hide Drain, FrameBytes, IsBoundary;
      DrainPartial(c, strict, bodies[0], cut);
    }
  }

  lemma CutNothing(c: Config, strict: bool, cut: nat)
    requires cut <= |Stream([])|
    ensures CutOutcome(c, strict, [], cut, Drain(c, strict, State(Stream([])[..cut], None)))
  {
    var none: seq<Text> := [];
    assert |Stream(none[..0])| == 0;
    assert Stream(none)[..cut] == [];
    assert Drain(c, strict, State([], None)) == Drained([], EMPTY, None);
  }

  lemma CutLater(bodies: seq<Text>, cut: nat)
    requires bodies != [] && |FrameBytes(bodies[0])| <= cut <= |Stream(bodies)|
    ensures cut - |FrameBytes(bodies[0])| <= |Stream(bodies[1..])|
    ensures Stream(bodies)[..cut] == FrameBytes(bodies[0]) + Stream(bodies[1..])[..cut - |FrameBytes(bodies[0])|]
  {}

  /**
    A stream cut at any byte: the decoder ends in the empty state exactly at a frame boundary,
    whether or not it has raised before, and it raises nothing before the end of input if the header
    limit leaves three bytes to spare.
   */
  lemma {:induction false} CutStream(c: Config, strict: bool, bodies: seq<Text>, cut: nat)
    requires AllAdmissible(c, bodies) && cut <= |Stream(bodies)|
    ensures CutOutcome(c, strict, bodies, cut, Drain(c, strict, State(Stream(bodies)[..cut], None)))
    decreases |bodies|
  {
    hide Drain, Admissible, FrameBytes, IsBoundary, SomeHeaderIsTight, Stream;
    if bodies == [] {
      CutNothing(c, strict, cut);
    } else if cut < |FrameBytes(bodies[0])| {
      CutInFirst(c, strict, bodies, cut);
    } else {
      var f := FrameBytes(bodies[0]);
      CutLater(bodies, cut);
      var rest := Stream(bodies[1..])[..cut - |f|];
      BoundaryStep(bodies, cut);
      DrainFrame(c, strict, bodies[0], rest);
      CutStream(c, strict, bodies[1..], cut - |f|);
      if SomeHeaderIsTight(c, bodies[1..]) {
        TightLater(c, bodies);
      }
    }
  }

  // ---- The truncation detector ----

  /** NegativeEnd: a negative length whose frame end is before the data, where Python would wrap around. */
  datatype Verdict = Answer(incomplete: bool) | Raises | NegativeEnd

  function Trailing(loads: Text -> bool, maxDigits: nat, data: Text, offset: nat): Verdict
    requires offset <= |data|
    decreases |data| - offset
  {
    if offset == |data| then Answer(false)
    else
      var headerEnd := FindMarker(data, offset);
      if headerEnd == |data| then Answer(true)
      else
        match Lengths(maxDigits, Lines(data[offset..headerEnd]))
        case None => Raises
        case Some(lengths) =>
          if |lengths| != 1 then Raises
          else
            var bodyStart := headerEnd + 4;
            var frameEnd := bodyStart + lengths[0];
            if frameEnd > |data| then Answer(true)
            else if frameEnd < 0 then NegativeEnd
            else if frameEnd < bodyStart || !loads(data[bodyStart..frameEnd]) then Raises
            else Trailing(loads, maxDigits, data, frameEnd)
  }

  method IncompleteTrailingFrame(loads: Text -> bool, maxDigits: nat, data: Text) returns (v: Verdict)
    ensures v == Trailing(loads, maxDigits, data, 0)
  {
    var offset: nat := 0;
    var incomplete := false;
    while offset < |data|
      invariant offset <= |data|
      invariant incomplete ==> offset == |data| && Trailing(loads, maxDigits, data, 0) == Answer(true)
      invariant !incomplete ==> Trailing(loads, maxDigits, data, 0) == Trailing(loads, maxDigits, data, offset)
    {
      var headerEnd := FindMarker(data, offset);
      if headerEnd == |data| {
        return Answer(offset < |data|);
      }
      var lengths := Lengths(maxDigits, Lines(data[offset..headerEnd]));
      if lengths.None? || |lengths.value| != 1 {
        return Raises;
      }
      var bodyStart := headerEnd + 4;
      var frameEnd := bodyStart + lengths.value[0];
      if frameEnd > |data| {
        incomplete := true;
        offset := |data|;
      } else if frameEnd < 0 {
        return NegativeEnd;
      } else if frameEnd < bodyStart || !loads(data[bodyStart..frameEnd]) {
        return Raises;
      } else {
        offset := frameEnd;
      }
    }
    v := Answer(incomplete);
  }

  lemma MarkerInSuffix(data: Text, offset: nat)
    requires offset <= |data|
    ensures FindMarker(data, offset) == offset + FindMarker(data[offset..], 0)
  {
    var rest := data[offset..];
    var h := FindMarker(rest, 0);
    forall p | offset <= p < offset + h
      ensures !MarkerAt(data, p)
    {
      assert !MarkerAt(rest, p - offset);
    }
    if h < |rest| {
      assert MarkerAt(data, offset + h);
      MarkerIs(data, offset, offset + h);
    }
  }

  /** One round of the detector on a block the strict reader accepts. */
  lemma TrailingRound(c: Config, loads: Text -> bool, data: Text, offset: nat, h: nat, n: nat)
    requires offset <= h < |data| && FindMarker(data, offset) == h && h + 4 <= |data|
    requires Lengths(c.limits.maxDigits, Lines(data[offset..h])) == Some([n])
    ensures
      var v := Trailing(loads, c.limits.maxDigits, data, offset);
      var end := h + 4 + n;
      if end > |data| then v == Answer(true)
      else loads(data[h + 4..end]) ==> v == Trailing(loads, c.limits.maxDigits, data, end)
  {
    hide FindMarker, Lengths, Lines, MarkerAt;
  }

  lemma TrailingStall(loads: Text -> bool, maxDigits: nat, data: Text, offset: nat)
    requires offset <= |data| && FindMarker(data, offset) == |data|
    ensures Trailing(loads, maxDigits, data, offset) == Answer(offset < |data|)
  {}

  lemma DrainOpen(c: Config, st: State, next: State)
    requires Step(c, true, st) == Open(next)
    ensures Drain(c, true, st) == Drain(c, true, next)
  {
    hide Step;
  }

  lemma DrainStops(c: Config, st: State)
    requires Drain(c, true, st).error.None?
    ensures !Step(c, true, st).Fail?
    ensures Step(c, true, st).Stall? ==> Drain(c, true, st).state == st
    ensures st.expected.Some? && |st.buffer| < st.expected.value ==> Drain(c, true, st).state == st
  {
    hide FindMarker, ContentLength;
  }

  lemma SplitSuffix(data: Text, at: nat, n: nat)
    requires at + n <= |data|
    ensures data[at..] == data[at..at + n] + data[at + n..]
  {}

  lemma DrainBody(c: Config, st: State, body: Text, rest: Text)
    requires st == State(body + rest, Some(|body|)) && Drain(c, true, st).error.None?
    ensures c.accepts(body) && Drain(c, true, State(rest, None)).error.None?
    ensures Drain(c, true, State(rest, None)).state == Drain(c, true, st).state
  {
    assert (body + rest)[..|body|] == body && (body + rest)[|body|..] == rest;
    hide FindMarker, ContentLength;
  }

  lemma HeaderMove(c: Config, buffer: Text)
    ensures
      var m := Step(c, true, State(buffer, None));
      var h := FindMarker(buffer, 0);
      if h == |buffer| then m.Stall? || m.Fail?
      else
        && h + 4 <= |buffer|
        && match ContentLength(c.limits, buffer[..h])
           case Err(e) => m.Fail?
           case Ok(n) => m == Open(State(buffer[h + 4..], Some(n)))
  {
    hide ContentLength;
  }

  lemma FirstMove(c: Config, data: Text, offset: nat)
    requires offset <= |data|
    ensures
      var m := Step(c, true, State(data[offset..], None));
      var h := FindMarker(data, offset);
      if h == |data| then m.Stall? || m.Fail?
      else
        && h + 4 <= |data|
        && match ContentLength(c.limits, data[offset..h])
           case Err(e) => m.Fail?
           case Ok(n) => m == Open(State(data[h + 4..], Some(n)))
  {
    hide *;
    var rest := data[offset..];
    var h := FindMarker(data, offset);
    MarkerInSuffix(data, offset);
    HeaderMove(c, rest);
    if h < |data| {
      SuffixOfSuffix(data, offset, h - offset);
    }
  }

  lemma SuffixOfSuffix(data: Text, offset: nat, n: nat)
    requires offset + n <= |data|
    ensures data[offset..][..n] == data[offset..offset + n]
    ensures offset + n + 4 <= |data| ==> data[offset..][n + 4..] == data[offset + n + 4..]
  {}

  /** Where both readers go on after one complete frame, or that they stop with the same verdict. */
  lemma DetectorRound(c: Config, loads: Text -> bool, data: Text, offset: nat) returns (next: Option<nat>)
    requires forall b :: c.accepts(b) ==> loads(b)
    requires offset <= |data| && Drain(c, true, State(data[offset..], None)).error.None?
    ensures
      var d := Drain(c, true, State(data[offset..], None));
      match next
      case None => Trailing(loads, c.limits.maxDigits, data, offset) == Answer(d.state != EMPTY)
      case Some(k) =>
        && offset < k <= |data|
        && Trailing(loads, c.limits.maxDigits, data, offset) == Trailing(loads, c.limits.maxDigits, data, k)
        && Drain(c, true, State(data[k..], None)).error.None?
        && Drain(c, true, State(data[k..], None)).state == d.state
  {
    hide Drain, Trailing, FindMarker, ContentLength, Step;
    var st := State(data[offset..], None);
    var h := FindMarker(data, offset);
    FirstMove(c, data, offset);
    DrainStops(c, st);
    next := None;
    if h == |data| {
      TrailingStall(loads, c.limits.maxDigits, data, offset);
    } else {
      var n := ContentLength(c.limits, data[offset..h]).value;
      var end := h + 4 + n;
      ReadersAgree(c.limits, data[offset..h]);
      TrailingRound(c, loads, data, offset, h, n);
      DrainOpen(c, st, State(data[h + 4..], Some(n)));
      if end > |data| {
        DrainStops(c, State(data[h + 4..], Some(n)));
      } else {
        SplitSuffix(data, h + 4, n);
        DrainBody(c, State(data[h + 4..], Some(n)), data[h + 4..end], data[end..]);
        assert loads(data[h + 4..end]);
        next := Some(end);
      }
    }
  }

  /**
    On every stream the strict decoder accepts, not only on encoded ones, the truncation detector
    answers what finish() reports.
   */
  lemma {:induction false} DetectorAgrees(c: Config, loads: Text -> bool, data: Text, offset: nat)
    requires forall b :: c.accepts(b) ==> loads(b)
    requires offset <= |data| && Drain(c, true, State(data[offset..], None)).error.None?
    ensures Trailing(loads, c.limits.maxDigits, data, offset) ==
      Answer(Drain(c, true, State(data[offset..], None)).state != EMPTY)
    decreases |data| - offset
  {
    hide *;
    var next := DetectorRound(c, loads, data, offset);
    if next.Some? {
      DetectorAgrees(c, loads, data, next.value);
    }
  }

  /** The detector has no header limit, so it is judged by a decoder with three bytes to spare. */
  lemma DetectorIsExact(c: Config, loads: Text -> bool, bodies: seq<Text>, cut: nat)
    requires forall b :: c.accepts(b) ==> loads(b)
    requires AllAdmissible(c, bodies) && cut <= |Stream(bodies)|
    requires !SomeHeaderIsTight(c, bodies)
    ensures Trailing(loads, c.limits.maxDigits, Stream(bodies)[..cut], 0) == Answer(!IsBoundary(bodies, cut))
  {
    var data := Stream(bodies)[..cut];
    CutStream(c, true, bodies, cut);
    assert data[0..] == data;
    hide Drain, Trailing;
    DetectorAgrees(c, loads, data, 0);
  }

  /**
    Both ways of noticing a truncated stream of encoded frames, for a cut at any byte and any header
    limit that fits the encoder's headers: the decoder keeps something for finish to raise about, and
    the detector is true, exactly when the cut is not on a frame boundary. With three bytes to spare
    in every header the decoder raises nothing earlier.
   */
  lemma BothDetectTruncation(c: Config, loads: Text -> bool, bodies: seq<Text>, cut: nat)
    requires forall b :: c.accepts(b) ==> loads(b)
    requires AllAdmissible(c, bodies) && cut <= |Stream(bodies)|
    ensures
      var data := Stream(bodies)[..cut];
      && (Drain(c, true, State(data, None)).state != EMPTY <==> !IsBoundary(bodies, cut))
      && (IsBoundary(bodies, cut) || !SomeHeaderIsTight(c, bodies) ==> Drain(c, true, State(data, None)).error.None?)
      && Trailing(loads, c.limits.maxDigits, data, 0) == Answer(!IsBoundary(bodies, cut))
  {
    CutStream(c, true, bodies, cut);
    var roomy := c.(limits := c.limits.(maxHeader := c.limits.maxHeader + 3));
    assert AllAdmissible(roomy, bodies) by {
      forall i | 0 <= i < |bodies|
        ensures Admissible(roomy, bodies[i])
      {
        assert Admissible(c, bodies[i]);
      }
    }
    assert !SomeHeaderIsTight(roomy, bodies) by {
      forall i | 0 <= i < |bodies|
        ensures |EncodedHeader(|bodies[i]|)| + 3 <= roomy.limits.maxHeader
      {
        assert Admissible(c, bodies[i]);
      }
    }
    hide Drain, Trailing, IsBoundary, SomeHeaderIsTight, Stream, Admissible;
    DetectorIsExact(roomy, loads, bodies, cut);
  }

  // ---- The compatibility helper ----

  /** The limits of a decoder created with its defaults. */
  predicate DefaultLimits(limits: Limits) {
    limits.maxHeader == 8192 && limits.maxBody == 16777216 && (limits.maxDigits == 0 || limits.maxDigits >= 640)
  }

  /** The buffer the helper leaves: the tail itself, or a minimal header in front of a partial body. */
  function Residue(st: State): Text {
    match st.expected
    case None => st.buffer
    case Some(n) => EncodedHeader(n) + MARKER + st.buffer
  }

  method ParseStream(c: Config, buf: Text) returns (r: Result<seq<Text>>, rest: Text)
    ensures
      var d := Drain(c, true, State(buf, None));
      match d.error
      case None => r == Ok(d.frames) && rest == Residue(d.state)
      case Some(e) => r == Err(e) && rest == buf
  {
    var decoder := new FrameDecoder(c);
    assert [] + buf == buf;
    r := decoder.Feed(buf);
    rest := buf;
    if r.Ok? {
      rest := if decoder.expectedBody.None? then decoder.buffer
              else EncodedHeader(decoder.expectedBody.value) + MARKER + decoder.buffer;
    }
  }

  lemma {:induction false} ExpectedFits(c: Config, st: State)
    requires st.expected.Some? ==> st.expected.value <= c.limits.maxBody
    ensures Drain(c, true, st).error.None? && Drain(c, true, st).state.expected.Some? ==>
      Drain(c, true, st).state.expected.value <= c.limits.maxBody
    decreases |st.buffer|, if st.expected.Some? then 1 else 0
  {
    hide Step;
    match Step(c, true, st)
    case Open(next) =>
      ExpectedFits(c, next);
    case Emit(frame, next) =>
      ExpectedFits(c, next);
    case _ =>
  }

  lemma {:induction false} DigitCount(n: nat, k: nat)
    requires n < Power10(k) && k > 0
    ensures |Digits(n)| <= k
  {
    if n >= 10 {
      DigitCount(n / 10, k - 1);
    }
  }

  function Power10(k: nat): nat {
    if k == 0 then 1 else 10 * Power10(k - 1)
  }

  lemma DefaultHeaderFits(limits: Limits, n: nat)
    requires DefaultLimits(limits) && n <= limits.maxBody
    ensures |EncodedHeader(n)| <= limits.maxHeader && DigitsAllowed(limits.maxDigits, |Digits(n)|)
  {
    assert Power10(8) == 100000000 by {
      assert Power10(4) == 10000;
    }
    DigitCount(n, 8);
  }

  /** Reading the residue back restores the state of the decoder that produced it. */
  lemma ResidueRestores(c: Config, st: State)
    requires DefaultLimits(c.limits) && Settled(c, st)
    requires st.expected.Some? ==> st.expected.value <= c.limits.maxBody
    ensures Drain(c, true, State(Residue(st), None)) == Drained([], st, None)
  {
    if st.expected.Some? {
      var n := st.expected.value;
      var s, h := Residue(st), EncodedHeader(n);
      DefaultHeaderFits(c.limits, n);
      EncodedHeaderIsRead(c.limits, n);
      MarkerAfterHeader(n, st.buffer);
      assert s[..|h|] == h && s[|h| + 4..] == st.buffer;
      assert Step(c, true, State(s, None)) == Open(st);
      hide Step;
    }
  }

  /** Calling the helper again on its residue and new bytes is one decoder being fed the new bytes. */
  lemma ParseStreamContinues(c: Config, st: State, data: Text)
    requires DefaultLimits(c.limits) && Settled(c, st)
    requires st.expected.Some? ==> st.expected.value <= c.limits.maxBody
    ensures Drain(c, true, State(Residue(st) + data, None)) == Drain(c, true, st.Append(data))
  {
    ResidueRestores(c, st);
    hide Drain;
    DrainAppend(c, true, State(Residue(st), None), data);
    var d := Drain(c, true, st.Append(data));
    assert [] + d.frames == d.frames;
  }
}
