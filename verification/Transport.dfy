/**
  Writing whole buffers to a descriptor under one deadline. The environment is a finite script of
  ticks, one for each system call: how much time passes before the call, whether a termination
  signal arrives, whether another process changes the status flags, and what the call answers. A
  call for which the script has no tick left returns Unfinished, so a statement about all scripts is
  a statement about every finite run, including those that stop in the middle of a call.
 */
module Transport {
  import opened Bytes
  import opened Deadlines
  import opened Handlers

  datatype Answer = Count(n: nat) | Interrupted | WouldBlock | Broken
  datatype Tick = Tick(elapsed: nat, signal: Signal, others: Option<nat>, answer: Answer)

  datatype Errno = EINTR | EAGAIN | EIO | ETIMEDOUT | EINVAL | EBUSY | EOTHER
  datatype Result = Done(count: nat) | Failure(errno: Errno) | Unfinished

  /**
    A write that was started: when, the clock reading it relies on, how many calls after that reading,
    whether it repeats an interrupted one, whether it was itself interrupted without a signal, how many
    waits there were before it, and what it answered.
   */
  datatype Attempt = Attempt(at: nat, checked: nat, calls: nat, retried: bool, again: bool, waits: nat,
                             outcome: Result)

  /**
    A wait for standard output: what it answered, whether a signal was recorded by then, how many writes
    were started before it, and how many calls after the clock reading it relies on.
   */
  datatype Wait = Wait(answer: Answer, signal: bool, attempts: nat, calls: nat)

  datatype Env = Env(
    script: seq<Tick>,
    now: nat,
    pending: Signal,
    stdout: Flags,
    others: nat,
    sinks: map<int, seq<byte>>,
    checked: nat,
    since: nat,
    attempts: seq<Attempt>,
    waits: seq<Wait>,
    /** Readings of the clock, and calls that a fresh one is made for: waits, and writes that are no repetitions. */
    readings: nat,
    uses: nat,
    faults: nat,
    fcntlFaults: nat)

  datatype Frame = Closed | Open(fd: int, saved: Flags, deadline: Timespec)

  // ---- System calls ----

  /**
    Time passes and a signal may be recorded; the other status flags stay as they are. Only clock_gettime
    and F_SETFL are quiet calls: nobody else changes the flags between their reading and their setting.
   */
  function Quiet(e: Env): (r: Env)
    requires e.script != []
  {
    var t := e.script[0];
    e.(script := e.script[1..], now := e.now + t.elapsed, since := e.since + 1,
       pending := if e.pending == 0 then t.signal else e.pending)
  }

  function Pass(e: Env): (r: Env)
    requires e.script != []
  {
    var t := e.script[0];
    if t.others.None? then Quiet(e)
    else Quiet(e).(stdout := e.stdout.(others := t.others.value), others := t.others.value)
  }

  function Fault(e: Env): Env {
    e.(faults := e.faults + 1)
  }

  function FcntlFault(e: Env): Env {
    e.(faults := e.faults + 1, fcntlFaults := e.fcntlFaults + 1)
  }

  /** clock_gettime: fails when told to, or when the seconds do not fit. */
  function Clock(e: Env): (r: (Env, Option<Timespec>))
    requires e.script != []
    ensures r.1.Some? ==> IsReading(r.1.value) && r.1.value.Ns() == r.0.now == r.0.checked
  {
    var p := Quiet(e).(readings := e.readings + 1);
    if e.script[0].answer.Count? && Reading(p.now).Some? then (p.(checked := p.now, since := 0), Reading(p.now))
    else (Fault(p), None)
  }

  /** The bytes that reach a descriptor; nothing reaches a closed one. */
  function Gain(sinks: map<int, seq<byte>>, fd: int, data: seq<byte>): map<int, seq<byte>> {
    if data != [] && fd in sinks then sinks[fd := sinks[fd] + data] else sinks
  }

  /** One write: on success a prefix of the data has been taken, on failure nothing. */
  function WriteOnce(e: Env, fd: int, data: seq<byte>, retried: bool): (r: (Env, Result))
    requires e.script != []
  {
    var p := Pass(e);
    var answer := e.script[0].answer;
    var outcome := WriteAnswer(p, fd, data, answer);
    var again := answer.Interrupted? && p.pending == 0;
    var logged := p.(attempts := p.attempts + [Attempt(p.now, e.checked, p.since, retried, again, |p.waits|, outcome)],
                     uses := p.uses + (if retried then 0 else 1));
    match outcome
    case Done(0) => (Fault(logged), outcome)
    case Done(k) => (logged.(sinks := Gain(p.sinks, fd, data[..k])), outcome)
    case Failure(EOTHER) => (Fault(logged), outcome)
    case _ => (logged, outcome)
  }

  function WriteAnswer(e: Env, fd: int, data: seq<byte>, answer: Answer): (r: Result)
    ensures r.Done? ==> r.count <= |data| && fd in e.sinks
    ensures r.Done? || (r.Failure? && r.errno in {EINTR, EAGAIN, EOTHER})
  {
    match answer
    case Count(n) => if fd !in e.sinks then Failure(EOTHER) else Done(if n < |data| then n else |data|)
    case Interrupted => Failure(EINTR)
    case WouldBlock => Failure(EAGAIN)
    case Broken => Failure(EOTHER)
  }

  /** A write repeated while it is interrupted and no termination signal is recorded. */
  function RetryWrite(e: Env, fd: int, data: seq<byte>, retried: bool): (r: (Env, Result))
    decreases |e.script|
  {
    if e.pending != 0 then (e, Failure(EINTR))
    else if e.script == [] then (e, Unfinished)
    else
      var (e', r) := WriteOnce(e, fd, data, retried);
      if r == Failure(EINTR) && e'.pending == 0 then RetryWrite(e', fd, data, true) else (e', r)
  }

  /** pselect for writing: it reports a timeout only after waiting for all of it. */
  function Select(e: Env, wait: nat): (r: (Env, Answer))
    requires e.script != []
  {
    var answer := e.script[0].answer;
    var passed := Pass(e);
    var p := passed.(waits := e.waits + [Wait(answer, passed.pending != 0, |e.attempts|, e.since + 1)],
                     uses := e.uses + 1);
    match answer
    case Count(0) => (p.(now := if p.now < e.now + wait then e.now + wait else p.now), answer)
    case Broken => (Fault(p), answer)
    case WouldBlock => (Fault(p), answer)
    case _ => (p, answer)
  }

  // ---- What a run of system calls keeps ----

  /** From e0 to e the descriptor has gained `data`, and every write relied on a reading before the limit. */
  predicate Later(e0: Env, e: Env, fd: int, data: seq<byte>, limit: int) {
    && e0.now <= e.now && e0.faults <= e.faults && |e.script| <= |e0.script|
    && (e0.pending != 0 ==> e.pending == e0.pending)
    && e.stdout.nonblock == e0.stdout.nonblock && e.fcntlFaults == e0.fcntlFaults
    && (e0.stdout.others == e0.others ==> e.stdout.others == e.others)
    && Wrote(e0, e, fd, data, limit)
  }

  predicate Wrote(e0: Env, e: Env, fd: int, data: seq<byte>, limit: int) {
    && (data != [] ==> fd in e0.sinks) && e.sinks == Gain(e0.sinks, fd, data)
    && Relies(e0, e, limit)
  }

  /** Every attempt made since relies on a clock reading before the limit. */
  predicate Relies(e0: Env, e: Env, limit: int) {
    e0.attempts <= e.attempts && forall i :: |e0.attempts| <= i < |e.attempts| ==> e.attempts[i].checked < limit
  }

  predicate Passed(e0: Env, e: Env) {
    && e0.now <= e.now && e0.faults <= e.faults && e0.fcntlFaults <= e.fcntlFaults && |e.script| <= |e0.script|
    && (e0.pending != 0 ==> e.pending == e0.pending)
  }

  /** Time and failures may have passed, but nothing was written. */
  predicate Silent(e0: Env, e: Env) {
    && Passed(e0, e)
    && e.sinks == e0.sinks && e.attempts == e0.attempts
  }

  lemma ClockKeeps(e: Env, fd: int, limit: int)
    requires e.script != []
    ensures Later(e, Clock(e).0, fd, [], limit) && |Clock(e).0.script| < |e.script|
    ensures Clock(e).1.None? ==> e.faults < Clock(e).0.faults
    ensures Clock(e).0.attempts == e.attempts && (Clock(e).1.Some? ==> Clock(e).0.since == 0)
    ensures e.stdout.others == e.others ==> Clock(e).0.stdout.others == Clock(e).0.others
  {}

  lemma SelectKeeps(e: Env, fd: int, wait: nat, limit: int)
    requires e.script != []
    ensures
      var (e', answer) := Select(e, wait);
      && Later(e, e', fd, [], limit) && |e'.script| < |e.script| && e'.attempts == e.attempts
      && (e.stdout.others == e.others ==> e'.stdout.others == e'.others)
      && (answer == Count(0) ==> e.now + wait <= e'.now)
      && (answer.Broken? || answer.WouldBlock? ==> e.faults < e'.faults)
  {}

  lemma ClockIsSilent(e: Env)
    requires e.script != []
    ensures Silent(e, Clock(e).0) && Clock(e).0.fcntlFaults == e.fcntlFaults
    ensures Clock(e).0.stdout == e.stdout && Clock(e).0.others == e.others
    ensures Clock(e).1.None? ==> e.faults < Clock(e).0.faults
  {}

  lemma GainNothing(sinks: map<int, seq<byte>>, fd: int, nothing: seq<byte>)
    requires nothing == []
    ensures Gain(sinks, fd, nothing) == sinks
  {}

  lemma GainTwice(sinks: map<int, seq<byte>>, fd: int, a: seq<byte>, b: seq<byte>)
    ensures Gain(Gain(sinks, fd, a), fd, b) == Gain(sinks, fd, a + b)
  {
    if a == [] {
      assert a + b == b;
    } else if b == [] {
      assert a + b == a;
    } else if fd in sinks {
      assert sinks[fd] + a + b == sinks[fd] + (a + b);
    }
  }

  lemma LaterTwice(e0: Env, e1: Env, e2: Env, fd: int, a: seq<byte>, b: seq<byte>, limit: int)
    requires Later(e0, e1, fd, a, limit) && Later(e1, e2, fd, b, limit)
    ensures Later(e0, e2, fd, a + b, limit)
  {
    GainTwice(e0.sinks, fd, a, b);
  }

  lemma LaterFacts(e0: Env, e: Env, fd: int, data: seq<byte>, limit: int)
    requires Later(e0, e, fd, data, limit)
    ensures e0.now <= e.now && e0.faults <= e.faults && |e.script| <= |e0.script|
    ensures e0.pending != 0 ==> e.pending == e0.pending
  {}

  lemma LaterOn(e0: Env, e1: Env, e2: Env, fd: int, limit: int)
    requires Later(e0, e1, fd, [], limit) && Later(e1, e2, fd, [], limit)
    ensures Later(e0, e2, fd, [], limit)
  {
    var nothing: seq<byte> := [];
    assert nothing + nothing == nothing;
    LaterTwice(e0, e1, e2, fd, nothing, nothing, limit);
  }

  function Taken(r: Result, data: seq<byte>): seq<byte> {
    if r.Done? && r.count <= |data| then data[..r.count] else []
  }

  lemma TakenLength(r: Result, data: seq<byte>)
    requires r.Done? ==> r.count <= |data|
    ensures |Taken(r, data)| == if r.Done? then r.count else 0
    ensures Taken(r, data) <= data
  {}

  lemma WroteNothing(e: Env, fd: int, limit: int)
    ensures Wrote(e, e, fd, [], limit)
  {}

  lemma PassKeeps(e: Env, fd: int, limit: int)
    requires e.script != []
    ensures Later(e, Pass(e), fd, [], limit) && Later(e, Fault(Pass(e)), fd, [], limit)
    ensures Pass(e).checked == e.checked
    ensures e.stdout.others == e.others ==> Pass(e).stdout.others == Pass(e).others
  {}

  lemma PassMarks(e: Env)
    ensures e.script != [] ==> Pass(e).attempts == e.attempts && Pass(e).since == e.since + 1
  {}

  lemma {:induction false} RetryWriteKeeps(e: Env, fd: int, data: seq<byte>, retried: bool, limit: int)
    requires data != [] && e.checked < limit
    ensures
      var (e', r) := RetryWrite(e, fd, data, retried);
      && Later(e, e', fd, Taken(r, data), limit)
      && (r.Done? ==> r.count <= |data| && |e'.script| < |e.script|)
      && (r == Failure(EINTR) ==> e'.pending != 0)
      && (r == Done(0) || r == Failure(EOTHER) ==> e.faults < e'.faults)
      && (r.Failure? ==> r.errno in {EINTR, EAGAIN, EOTHER})
      && (r == Failure(EAGAIN) ==> |e'.script| < |e.script|)
      && (r == Unfinished ==> e'.script == [])
      && (r.Done? || r == Failure(EAGAIN) ==> |e'.attempts| > |e.attempts|)
    decreases |e.script|
  {
    if e.pending == 0 && e.script != [] {
      var (e', r) := WriteOnce(e, fd, data, retried);
      WriteOnceKeeps(e, fd, data, retried, limit);
      if r == Failure(EINTR) && e'.pending == 0 {
        RetryWriteKeeps(e', fd, data, true, limit);
        var (e2, r2) := RetryWrite(e', fd, data, true);
        LaterTwice(e, e', e2, fd, [], Taken(r2, data), limit);
        assert [] + Taken(r2, data) == Taken(r2, data);
      }
      hide WriteOnce, Later;
    }
  }

  lemma WriteOnceKeeps(e: Env, fd: int, data: seq<byte>, retried: bool, limit: int)
    requires data != [] && e.checked < limit && e.script != []
    ensures
      var (e', r) := WriteOnce(e, fd, data, retried);
      && Later(e, e', fd, Taken(r, data), limit) && e'.checked == e.checked && e'.script == e.script[1..]
      && |e'.attempts| == |e.attempts| + 1
      && (r.Done? ==> r.count <= |data|)
      && (r == Done(0) || r == Failure(EOTHER) ==> e.faults < e'.faults)
      && (r.Failure? ==> r.errno in {EINTR, EAGAIN, EOTHER})
      && !r.Unfinished?
  {}

  /**
    The repetition of an interrupted write does not look at the clock: whatever the deadline, a
    write can start after it. The same buffer is then written in full.
   */
  lemma InterruptedWriteStartsLate(e: Env, fd: int, b: byte, limit: nat)
    requires e.checked < limit && e.now < limit && fd in e.sinks && e.pending == 0
    requires e.script == [Tick(0, 0, None, Interrupted), Tick(limit, 0, None, Count(1))]
    ensures
      var (e', r) := RetryWrite(e, fd, [b], false);
      && r == Done(1) && |e'.attempts| == |e.attempts| + 2
      && e'.attempts[|e.attempts| + 1].retried && e'.attempts[|e.attempts| + 1].at >= limit
  {
    var (e1, r1) := WriteOnce(e, fd, [b], false);
    assert e1.script == [Tick(limit, 0, None, Count(1))];
  }

  /** Only repeated writes can rely on a reading that is older than the call before them. */
  lemma {:induction false} FirstWriteFollowsReading(e: Env, fd: int, data: seq<byte>)
    requires data != [] && e.script != [] && e.pending == 0 && e.checked == e.now
    ensures
      var (e', r) := RetryWrite(e, fd, data, false);
      && |e'.attempts| > |e.attempts|
      && var a := e'.attempts[|e.attempts|];
      && a.at == e.checked + e.script[0].elapsed && a.checked == e.checked && a.calls == e.since + 1 && !a.retried
      && (a.again <==> e.script[0].answer.Interrupted? && e.script[0].signal == 0)
      && forall i :: |e.attempts| < i < |e'.attempts| ==> e'.attempts[i].retried
  {
    var (e1, r1) := WriteOnce(e, fd, data, false);
    if r1 == Failure(EINTR) && e1.pending == 0 {
      RetriesAreMarked(e1, fd, data);
    }
  }

  lemma {:induction false} RetriesAreMarked(e: Env, fd: int, data: seq<byte>)
    ensures
      var (e', r) := RetryWrite(e, fd, data, true);
      e.attempts <= e'.attempts && forall i :: |e.attempts| <= i < |e'.attempts| ==> e'.attempts[i].retried
    decreases |e.script|
  {
    if e.pending == 0 && e.script != [] {
      var (e', r) := WriteOnce(e, fd, data, true);
      if r == Failure(EINTR) && e'.pending == 0 {
        RetriesAreMarked(e', fd, data);
      }
    }
  }

  /** When the last write of one call starts: interruptions without a signal each allow another one. */
  function LastStart(script: seq<Tick>, now: nat): nat
    requires script != []
  {
    var at := now + script[0].elapsed;
    if script[0].answer.Interrupted? && script[0].signal == 0 && |script| > 1 then LastStart(script[1..], at) else at
  }

  predicate StartedBefore(attempts: seq<Attempt>, from: nat, limit: int) {
    forall i :: from <= i < |attempts| ==> attempts[i].at < limit
  }

  lemma WriteOnceMarks(e: Env, fd: int, data: seq<byte>, retried: bool)
    requires e.script != []
    ensures
      var (e', r) := WriteOnce(e, fd, data, retried);
      && |e'.attempts| == |e.attempts| + 1 && e.attempts <= e'.attempts && e'.script == e.script[1..]
      && e'.now == e.now + e.script[0].elapsed
      && var a := e'.attempts[|e.attempts|];
      && a.retried == retried && a.calls == e.since + 1 && (a.again <==> r == Failure(EINTR) && e'.pending == 0)
      && a.at == e'.now
      && (e.pending == 0 ==> (a.again <==> e.script[0].answer.Interrupted? && e.script[0].signal == 0))
  {}

  /** No write of a call starts after the deadline exactly when the interruptions are over before it. */
  lemma {:induction false} WritesStartInTime(e: Env, fd: int, data: seq<byte>, retried: bool, limit: int)
    requires data != [] && e.script != [] && e.pending == 0
    ensures
      var (e', r) := RetryWrite(e, fd, data, retried);
      && e.attempts < e'.attempts
      && (StartedBefore(e'.attempts, |e.attempts|, limit) <==> LastStart(e.script, e.now) < limit)
      && e.now + e.script[0].elapsed <= LastStart(e.script, e.now)
    decreases |e.script|
  {
    WriteOnceMarks(e, fd, data, retried);
    hide WriteOnce;
    var (e1, r1) := WriteOnce(e, fd, data, retried);
    if r1 == Failure(EINTR) && e1.pending == 0 && e1.script != [] {
      WritesStartInTime(e1, fd, data, true, limit);
    }
  }

  // ---- Which writes rely on a fresh reading ----

  /**
    From an index on, an attempt is a repetition exactly when the attempt before it was interrupted
    without a signal; any other attempt is the next call after its reading, except that SIGPIPE may
    have to be ignored first.
   */
  predicate Marked(attempts: seq<Attempt>, from: nat, ignored: bool) {
    && from <= |attempts| && (from < |attempts| ==> MarkedAt(attempts, from, true, ignored))
    && forall i :: from < i < |attempts| ==> MarkedAt(attempts, i, false, ignored)
  }

  predicate MarkedAt(attempts: seq<Attempt>, i: nat, first: bool, ignored: bool)
    requires i < |attempts|
  {
    && (attempts[i].retried <==> !first && i > 0 && attempts[i - 1].again)
    && (!attempts[i].retried ==> attempts[i].calls == if first && !ignored then 2 else 1)
  }

  /** The last of them is not about to be repeated. */
  predicate Settled(attempts: seq<Attempt>, from: nat) {
    |attempts| > from ==> !attempts[|attempts| - 1].again
  }

  /** The attempts of one retried write: each but the first repeats the one before it. */
  predicate MarkedRetry(attempts: seq<Attempt>, from: nat, retried: bool, calls: nat) {
    && from <= |attempts| && (forall i :: from < i < |attempts| ==> Repeats(attempts, i))
    && (from < |attempts| ==> attempts[from].retried == retried && attempts[from].calls == calls)
  }

  predicate Repeats(attempts: seq<Attempt>, i: nat)
    requires 0 < i < |attempts|
  {
    attempts[i].retried && attempts[i - 1].again
  }

  lemma ExtendRetry(attempts: seq<Attempt>, from: nat, calls: nat)
    requires from < |attempts| && (|attempts| > from + 1 ==> attempts[from].again)
    requires MarkedRetry(attempts, from + 1, true, calls)
    ensures MarkedRetry(attempts, from, attempts[from].retried, attempts[from].calls)
  {
    forall i | from < i < |attempts|
      ensures Repeats(attempts, i)
    {
      if i > from + 1 {
        assert Repeats(attempts, i);
      }
    }
  }

  lemma {:induction false} RetryWriteMarks(e: Env, fd: int, data: seq<byte>, retried: bool)
    ensures
      var (e', r) := RetryWrite(e, fd, data, retried);
      && e.attempts <= e'.attempts && MarkedRetry(e'.attempts, |e.attempts|, retried, e.since + 1)
      && (r != Unfinished ==> Settled(e'.attempts, |e.attempts|))
      && (r != Unfinished && e.pending == 0 ==> |e'.attempts| > |e.attempts|)
    decreases |e.script|
  {
    if e.pending == 0 && e.script != [] {
      WriteOnceMarks(e, fd, data, retried);
      hide WriteOnce;
      var (e1, r1) := WriteOnce(e, fd, data, retried);
      if r1 == Failure(EINTR) && e1.pending == 0 {
        RetryWriteMarks(e1, fd, data, true);
        var (e2, r2) := RetryWrite(e1, fd, data, true);
        assert e2.attempts[|e.attempts|] == e1.attempts[|e.attempts|];
        ExtendRetry(e2.attempts, |e.attempts|, e1.since + 1);
        hide MarkedRetry;
      }
    }
  }

  /** One retried write after a fresh reading. */
  lemma RetryIsMarked(attempts: seq<Attempt>, from: nat, ignored: bool)
    requires MarkedRetry(attempts, from, false, if ignored then 1 else 2)
    ensures Marked(attempts, from, ignored)
  {
    forall i | from < i < |attempts|
      ensures MarkedAt(attempts, i, false, ignored)
    {
      assert Repeats(attempts, i);
    }
  }

  lemma MarkedTwice(a: seq<Attempt>, b: seq<Attempt>, from: nat, ignored: bool)
    requires Marked(a, from, ignored) && Settled(a, from) && a <= b && Marked(b, |a|, ignored || |a| > from)
    ensures Marked(b, from, ignored)
    ensures Settled(b, |a|) ==> Settled(b, from)
  {
    forall i | from < i < |b|
      ensures MarkedAt(b, i, false, ignored)
    {
      if i < |a| {
        assert MarkedAt(a, i, false, ignored);
      } else if i > |a| {
        assert MarkedAt(b, i, false, ignored || |a| > from);
      }
    }
  }

  lemma LaterNothing(e: Env, fd: int, limit: int)
    ensures Later(e, e, fd, [], limit)
  {}

  lemma TakesNothing(data: seq<byte>)
    ensures forall r: Result :: !r.Done? || r.count == 0 ==> Taken(r, data) == []
  {}

  lemma WritesNothing(e: Env, fd: int, data: seq<byte>, ignored: bool)
    ensures Gain(e.sinks, fd, data[..0]) == e.sinks && Marked(e.attempts, |e.attempts|, ignored)
  {}

  lemma WroteFacts(e0: Env, e: Env, fd: int, data: seq<byte>, limit: int)
    requires Wrote(e0, e, fd, data, limit)
    ensures (data != [] ==> fd in e0.sinks) && e.sinks == Gain(e0.sinks, fd, data) && Relies(e0, e, limit)
  {}

  lemma MarkedNothing(a: seq<Attempt>, ignored: bool)
    ensures Marked(a, |a|, ignored) && Settled(a, |a|)
  {}

  // ---- What each call is made for ----

  /** Calls that are neither readings of the clock nor writes nor waits. */
  function Others(e0: Env, e: Env): int {
    |e0.script| - |e.script| - (e.readings - e0.readings) - (|e.attempts| - |e0.attempts|) - (|e.waits| - |e0.waits|)
  }

  /** Readings that no write and no wait was made after. */
  function Unused(e0: Env, e: Env): int {
    (e.readings - e0.readings) - (e.uses - e0.uses)
  }

  /** Standard output takes bytes again, and no signal is recorded. */
  predicate Ready(w: Wait) {
    w.answer.Count? && w.answer.n > 0 && !w.signal
  }

  predicate InVain(w: Wait) {
    w.answer.Interrupted? && !w.signal
  }

  /** Waits that begin after so many writes, each directly after a reading, and all but the last of them in vain. */
  predicate WaitsAfter(w: seq<Wait>, from: nat, attempts: nat) {
    && from <= |w| && (forall i :: from <= i < |w| ==> w[i].attempts == attempts && w[i].calls == 1)
    && forall i :: from <= i < |w| - 1 ==> InVain(w[i])
  }

  /** Writes of one retried write: no wait between them, and all but the last interrupted. */
  predicate WritesAfter(a: seq<Attempt>, from: nat, waits: nat) {
    && from <= |a| && (forall j :: from <= j < |a| ==> a[j].waits == waits)
    && forall j :: from <= j < |a| - 1 ==> a[j].outcome == Failure(EINTR)
  }

  /** What one retried write adds to the lists and the counts. */
  predicate Counted(e: Env, e': Env, r: Result, retried: bool) {
    && e.attempts <= e'.attempts && WritesAfter(e'.attempts, |e.attempts|, |e.waits|)
    && e'.waits == e.waits && e'.readings == e.readings && Others(e, e') == 0
    && e'.uses == e.uses + (if retried || e'.attempts == e.attempts then 0 else 1)
    && (if e'.attempts == e.attempts then r == Failure(EINTR) || r == Unfinished
        else e'.attempts[|e'.attempts| - 1].outcome == if r == Unfinished then Failure(EINTR) else r)
  }

  lemma {:induction false} RetryWriteCounts(e: Env, fd: int, data: seq<byte>, retried: bool)
    ensures
      var (e', r) := RetryWrite(e, fd, data, retried);
      Counted(e, e', r, retried)
    decreases |e.script|
  {
    if e.pending == 0 && e.script != [] {
      WriteOnceCounts(e, fd, data, retried);
      var (e1, r1) := WriteOnce(e, fd, data, retried);
      if r1 == Failure(EINTR) && e1.pending == 0 {
        RetryWriteCounts(e1, fd, data, true);
        var (e2, r2) := RetryWrite(e1, fd, data, true);
        CountedAgain(e, e1, e2, r2, retried);
      }
      hide WriteOnce, Counted;
    }
  }

  lemma CountedAgain(e: Env, e1: Env, e2: Env, r: Result, retried: bool)
    requires Counted(e, e1, Failure(EINTR), retried) && e1.attempts != e.attempts && Counted(e1, e2, r, true)
    ensures Counted(e, e2, r, retried)
  {}

  lemma WriteOnceCounts(e: Env, fd: int, data: seq<byte>, retried: bool)
    requires e.script != []
    ensures
      var (e', r) := WriteOnce(e, fd, data, retried);
      Counted(e, e', r, retried) && |e'.attempts| == |e.attempts| + 1 && |e'.script| < |e.script|
  {}

  lemma ClockCounts(e: Env)
    requires e.script != []
    ensures
      var c := Clock(e).0;
      && c.attempts == e.attempts && c.waits == e.waits && c.uses == e.uses && c.readings == e.readings + 1
      && c.script == e.script[1..] && (Clock(e).1.Some? ==> c.since == 0)
  {}

  lemma SelectCounts(e: Env, wait: nat)
    requires e.script != []
    ensures
      var (e', answer) := Select(e, wait);
      && e'.attempts == e.attempts && e'.uses == e.uses + 1 && e'.readings == e.readings && e'.script == e.script[1..]
      && e'.waits == e.waits + [Wait(answer, e'.pending != 0, |e.attempts|, e.since + 1)] && e'.since == e.since + 1
  {}

  /** At most one wait, directly after a reading, and nothing else. */
  predicate OneWait(e0: Env, e: Env) {
    && e.attempts == e0.attempts && Others(e0, e) == 0 && 0 <= Unused(e0, e) <= 1
    && (e.waits != e0.waits ==>
      && |e.waits| == |e0.waits| + 1 && e0.waits <= e.waits && Unused(e0, e) == 0 && e.since == 1
      && e.waits[|e0.waits|].attempts == |e.attempts| && e.waits[|e0.waits|].calls == 1)
  }

  lemma NoWait(e: Env)
    ensures OneWait(e, e)
  {}

  lemma ReadingAndWait(e: Env, wait: nat)
    requires e.script != []
    ensures OneWait(e, Clock(e).0) && Clock(e).0.waits == e.waits
    ensures Clock(e).1.Some? && Clock(e).0.script != [] ==>
      var (e', answer) := Select(Clock(e).0, wait);
      && OneWait(e, e') && |e'.waits| == |e.waits| + 1
      && e'.waits[|e.waits|].answer == answer && (e'.waits[|e.waits|].signal <==> e'.pending != 0)
  {
    ClockCounts(e);
    if Clock(e).1.Some? && Clock(e).0.script != [] {
      SelectCounts(Clock(e).0, wait);
    }
    hide Clock, Select;
  }

  /** Several waits, all but the last in vain. */
  predicate Waited(e0: Env, e: Env) {
    && e0.waits <= e.waits && WaitsAfter(e.waits, |e0.waits|, |e.attempts|) && Others(e0, e) == 0
    && 0 <= Unused(e0, e) <= 1 && e.attempts == e0.attempts
  }

  lemma WaitedAgain(e0: Env, e1: Env, e2: Env)
    requires Waited(e0, e1) && Unused(e0, e1) == 0 && (e1.waits != e0.waits ==> InVain(e1.waits[|e1.waits| - 1]))
    requires OneWait(e1, e2)
    ensures Waited(e0, e2) && Unused(e0, e2) == Unused(e1, e2)
    ensures e0.waits <= e1.waits <= e2.waits
  {}

  lemma VainIsNotReady(w: seq<Wait>)
    ensures w != [] && InVain(w[|w| - 1]) ==> !Ready(w[|w| - 1])
  {}

  lemma WaitedFacts(e0: Env, e: Env)
    requires Waited(e0, e)
    ensures e0.waits <= e.waits && WaitsAfter(e.waits, |e0.waits|, |e.attempts|)
    ensures Others(e0, e) == 0 && 0 <= Unused(e0, e) <= 1 && e.attempts == e0.attempts
  {}

  lemma PassCounts(e: Env)
    requires e.script != []
    ensures
      var p := Pass(e);
      && p.attempts == e.attempts && p.uses == e.uses && p.readings == e.readings && p.waits == e.waits
      && p.script == e.script[1..]
  {}

  /** One retried write, and what it answered. */
  predicate OneWrite(e0: Env, e: Env, r: Result) {
    && e0.attempts <= e.attempts && WritesAfter(e.attempts, |e0.attempts|, |e0.waits|)
    && e.waits == e0.waits && e.readings == e0.readings && 0 <= Others(e0, e)
    && e.uses == e0.uses + (if e.attempts == e0.attempts then 0 else 1)
    && (if e.attempts == e0.attempts then r in {Failure(EINTR), Failure(EOTHER), Unfinished}
        else e.attempts[|e.attempts| - 1].outcome == if r == Unfinished then Failure(EINTR) else r)
  }

  lemma NoWrite(e: Env)
    ensures forall r :: r in {Failure(EINTR), Failure(EOTHER), Unfinished} ==> OneWrite(e, e, r)
    ensures Others(e, e) == 0
  {}

  lemma PassIsNoWrite(e: Env)
    requires e.script != []
    ensures forall r :: r in {Failure(EINTR), Failure(EOTHER), Unfinished} ==> OneWrite(e, Fault(Pass(e)), r)
    ensures Others(e, Pass(e)) == Others(e, Fault(Pass(e))) == 1
    ensures Pass(e).attempts == e.attempts && Pass(e).waits == e.waits && Pass(e).uses == e.uses
    ensures Pass(e).readings == e.readings
  {
    PassCounts(e);
  }

  lemma RetryIsOneWrite(e0: Env, e1: Env, fd: int, data: seq<byte>)
    requires e1.attempts == e0.attempts && e1.waits == e0.waits && e1.uses == e0.uses && e1.readings == e0.readings
    requires 0 <= Others(e0, e1)
    ensures
      var (e2, r) := RetryWrite(e1, fd, data, false);
      OneWrite(e0, e2, r) && Others(e0, e2) == Others(e0, e1)
  {
    RetryWriteCounts(e1, fd, data, false);
    hide RetryWrite;
  }

  /** One turn: after a reading one retried write, and after one that would block, in a frame, the waits for it. */
  predicate OneTurn(e0: Env, e: Env, r: Result, inFrame: bool) {
    && e0.attempts <= e.attempts && e0.waits <= e.waits
    && WritesAfter(e.attempts, |e0.attempts|, |e0.waits|) && WaitsAfter(e.waits, |e0.waits|, |e.attempts|)
    && (e.waits != e0.waits ==> inFrame && e.attempts != e0.attempts && EndsBlocked(e.attempts))
    && (r == Done(0) <==> e.waits != e0.waits && Ready(e.waits[|e.waits| - 1]))
    && (r.Done? ==> e.attempts != e0.attempts && Unused(e0, e) == 0)
    && (r.Done? && r.count > 0 ==> e.attempts[|e.attempts| - 1].outcome == r)
    && (r == Failure(EIO) || r == Failure(EAGAIN) ==> e.attempts != e0.attempts && e.waits == e0.waits)
    && (e.attempts != e0.attempts && e.attempts[|e.attempts| - 1].outcome.Done? ==>
          r == if e.attempts[|e.attempts| - 1].outcome == Done(0) then Failure(EIO)
               else e.attempts[|e.attempts| - 1].outcome)
    && 0 <= Unused(e0, e) <= 1 && 0 <= Others(e0, e)
  }

  /** The last write would have blocked. */
  predicate EndsBlocked(a: seq<Attempt>)
    requires a != []
  {
    a[|a| - 1].outcome == Failure(EAGAIN)
  }

  /**
    How writes and waits follow each other: a write that would block is followed by another write only
    after a wait that found standard output ready, and no other write is preceded by a wait; a wait
    that found it ready is followed by another wait only after a write, and one in vain by a wait.
   */
  predicate Chained(a: seq<Attempt>, w: seq<Wait>, a0: nat, w0: nat) {
    && a0 <= |a| && w0 <= |w| && (a0 < |a| ==> a[a0].waits == w0)
    && (forall j :: a0 < j < |a| ==> NextWrite(a, w, j))
    && (forall i :: w0 <= i < |w| ==> ForBlocked(a, w, a0, i))
    && (forall i :: w0 <= i < |w| - 1 ==> NextWait(w, i))
  }

  predicate NextWrite(a: seq<Attempt>, w: seq<Wait>, j: nat)
    requires 0 < j < |a|
  {
    if a[j - 1].outcome == Failure(EAGAIN) then a[j - 1].waits < a[j].waits <= |w| && Ready(w[a[j].waits - 1])
    else a[j].waits == a[j - 1].waits
  }

  predicate ForBlocked(a: seq<Attempt>, w: seq<Wait>, a0: nat, i: nat)
    requires i < |w|
  {
    a0 < w[i].attempts <= |a| && a[w[i].attempts - 1].outcome == Failure(EAGAIN) && w[i].calls == 1
  }

  predicate NextWait(w: seq<Wait>, i: nat)
    requires i + 1 < |w|
  {
    if Ready(w[i]) then w[i].attempts < w[i + 1].attempts else InVain(w[i]) && w[i + 1].attempts == w[i].attempts
  }

  /** Between two turns: a write that would block was waited for, and the last wait found it ready. */
  predicate Poised(a: seq<Attempt>, w: seq<Wait>, a0: nat, w0: nat) {
    && a0 <= |a| && w0 <= |w| && (|w| > w0 ==> Ready(w[|w| - 1]))
    && (if |a| == a0 then |w| == w0
        else if a[|a| - 1].outcome == Failure(EAGAIN) then
          |w| > w0 && |w| > a[|a| - 1].waits && w[|w| - 1].attempts == |a|
        else |w| == a[|a| - 1].waits)
  }

  /** A readiness that no write has followed yet. */
  predicate Unanswered(a: seq<Attempt>, w: seq<Wait>, w0: nat) {
    |w| > w0 && Ready(w[|w| - 1]) && w[|w| - 1].attempts == |a|
  }

  /** At most so many calls that are neither readings nor writes nor waits, and so many unused readings. */
  predicate Sparing(e0: Env, e: Env, others: int, unused: int) {
    && e0.attempts <= e.attempts && e0.waits <= e.waits && 0 <= Others(e0, e) <= others && 0 <= Unused(e0, e) <= unused
  }

  lemma SparingTurn(e0: Env, e1: Env, e2: Env, r: Result, inFrame: bool, others: nat, more: nat)
    requires Sparing(e0, e1, others, 0) && OneTurn(e1, e2, r, inFrame) && Others(e1, e2) <= more
    ensures Sparing(e0, e2, others + more, if r.Done? then 0 else 1)
    ensures !inFrame ==> e2.waits == e1.waits
  {}

  lemma ChainTurn(e0: Env, e: Env, r: Result, inFrame: bool, a0: nat, w0: nat)
    requires Chained(e0.attempts, e0.waits, a0, w0) && Poised(e0.attempts, e0.waits, a0, w0)
    requires OneTurn(e0, e, r, inFrame)
    ensures Chained(e.attempts, e.waits, a0, w0)
    ensures r.Done? ==> Poised(e.attempts, e.waits, a0, w0)
    ensures (r.Done? && r.count > 0) || r == Failure(EIO) || r == Failure(EAGAIN) ==>
      !Unanswered(e.attempts, e.waits, w0)
  {
    var a, w := e.attempts, e.waits;
    forall j | a0 < j < |a|
      ensures NextWrite(a, w, j)
    {
      if j < |e0.attempts| {
        assert NextWrite(e0.attempts, e0.waits, j);
      }
    }
    forall i | w0 <= i < |w|
      ensures ForBlocked(a, w, a0, i)
    {
      if i < |e0.waits| {
        assert ForBlocked(e0.attempts, e0.waits, a0, i);
      }
    }
    forall i | w0 <= i < |w| - 1
      ensures NextWait(w, i)
    {
      if i < |e0.waits| - 1 {
        assert NextWait(e0.waits, i);
      } else if i == |e0.waits| - 1 {
        assert ForBlocked(e0.attempts, e0.waits, a0, i);
      } else {
        assert InVain(w[i]);
      }
    }
    if |e0.waits| > w0 {
      assert ForBlocked(e0.attempts, e0.waits, a0, |e0.waits| - 1);
    }
  }

  /** Neither writes nor waits: a few readings and a few other calls. */
  predicate Aside(e0: Env, e: Env, others: int, readings: int) {
    && e.attempts == e0.attempts && e.waits == e0.waits && e.uses == e0.uses && 0 <= Others(e0, e) <= others
    && e0.readings <= e.readings <= e0.readings + readings
  }

  lemma NothingAside(e: Env)
    ensures Aside(e, e, 0, 0) && Aside(e, e, 1, 1) && Aside(e, e, 1, 0) && Aside(e, e, 2, 1) && Aside(e, e, 2, 0)
  {}

  lemma PassAside(e0: Env, e: Env)
    requires e.script != [] && Aside(e0, e, 1, 1)
    ensures Aside(e0, Pass(e), 2, 1) && Aside(e0, FcntlFault(Pass(e)), 2, 1) && Aside(e0, FcntlFault(Quiet(e)), 2, 1)
    ensures forall flags: Flags :: Aside(e0, Quiet(e).(stdout := flags), 2, 1)
    ensures e == e0 ==>
      && Aside(e0, Pass(e), 1, 0) && Aside(e0, Pass(e), 1, 1) && Aside(e0, Pass(e), 2, 0)
      && Aside(e0, FcntlFault(Pass(e)), 2, 0)
    ensures Aside(e0, e, 1, 0) ==>
      Aside(e0, FcntlFault(Quiet(e)), 2, 0) && forall flags: Flags :: Aside(e0, Quiet(e).(stdout := flags), 2, 0)
  {}

  lemma ClockAside(e0: Env, e: Env)
    requires e.script != [] && Aside(e0, e, 1, 0)
    ensures Aside(e0, Clock(e).0, 1, 1) && Aside(e0, Clock(e).0, 2, 1)
  {
    ClockCounts(e);
    hide Clock;
  }

  lemma EndedSince(e0: Env, e1: Env, e2: Env, r: Result, before: nat, readings: nat)
    requires Aside(e0, e1, before, readings) && Ended(e1, e2, r, 1)
    ensures Ending(e0, e2, r, before + 1, readings + 1)
  {}

  lemma EndingThen(e0: Env, e1: Env, e2: Env, r: Result, others: nat, unused: nat, after: nat)
    requires Ending(e0, e1, r, others, unused) && Aside(e1, e2, after, 0)
    ensures Ending(e0, e2, r, others + after, unused)
  {}

  /** How a whole call ends: the same, with what opening and closing a frame takes. */
  predicate Ending(e0: Env, e: Env, r: Result, others: nat, unused: nat) {
    && Chained(e.attempts, e.waits, |e0.attempts|, |e0.waits|) && Sparing(e0, e, others, unused)
    && (Unanswered(e.attempts, e.waits, |e0.waits|) ==>
          r in {Failure(EINTR), Failure(ETIMEDOUT), Failure(EOTHER), Unfinished})
  }

  lemma DoneEnds(e0: Env, e: Env, r: Result, other: Result)
    requires Ending(e0, e, r, 5, 2) && (r.Done? || other == Unfinished)
    ensures Ending(e0, e, other, 5, 2)
  {}

  lemma EndedIsEnding(e0: Env, e: Env, r: Result)
    requires Ended(e0, e, r, 1)
    ensures Ending(e0, e, r, 5, 2)
  {}

  lemma EndingAnswers(e0: Env, e: Env, r: Result)
    requires Ending(e0, e, r, 5, 2)
    ensures forall i :: |e0.waits| <= i < |e.waits| && Ready(e.waits[i]) && e.waits[i].attempts >= |e.attempts| ==>
      i == |e.waits| - 1 && r in {Failure(EINTR), Failure(ETIMEDOUT), Failure(EOTHER), Unfinished}
  {
    ChainAnswers(e.attempts, e.waits, |e0.attempts|, |e0.waits|);
    hide Chained;
  }

  lemma NothingEnds(e: Env, r: Result)
    ensures Ending(e, e, r, 5, 2)
  {}

  lemma AsideEnds(e0: Env, e: Env, r: Result)
    requires Aside(e0, e, 2, 1)
    ensures Ending(e0, e, r, 5, 2)
  {}

  lemma EndingMore(e0: Env, e: Env, r: Result, others: nat, unused: nat)
    requires Ending(e0, e, r, others, unused) && others <= 5 && unused <= 2
    ensures Ending(e0, e, r, 5, 2)
  {}

  /** Between two turns of the writing loop. */
  predicate Steady(e0: Env, e: Env, others: nat) {
    && Chained(e.attempts, e.waits, |e0.attempts|, |e0.waits|) && Poised(e.attempts, e.waits, |e0.attempts|, |e0.waits|)
    && Sparing(e0, e, others, 0)
  }

  /** Its end: only a signal, the deadline, a fault or the end of the run leaves a readiness unanswered. */
  predicate Ended(e0: Env, e: Env, r: Result, others: nat) {
    && Chained(e.attempts, e.waits, |e0.attempts|, |e0.waits|) && Sparing(e0, e, others, if r.Done? then 0 else 1)
    && (Unanswered(e.attempts, e.waits, |e0.waits|) ==>
          r in {Failure(EINTR), Failure(ETIMEDOUT), Failure(EOTHER), Unfinished})
  }

  lemma SteadyNothing(e: Env)
    ensures Steady(e, e, 0) && !Unanswered(e.attempts, e.waits, |e.waits|)
  {}

  lemma SteadyTurn(e0: Env, e1: Env, e2: Env, r: Result, inFrame: bool, others: nat, more: nat)
    requires Steady(e0, e1, others) && OneTurn(e1, e2, r, inFrame) && Others(e1, e2) <= more && others + more <= 1
    requires r.Done? || r == Unfinished || (r.Failure? && r.errno in {EINTR, ETIMEDOUT, EAGAIN, EIO, EOTHER})
    ensures r.Done? ==> Steady(e0, e2, others + more)
    ensures r.Done? && r.count > 0 ==> !Unanswered(e2.attempts, e2.waits, |e0.waits|)
    ensures !r.Done? ==> Ended(e0, e2, r, 1)
    ensures !inFrame ==> e2.waits == e1.waits
  {
    ChainTurn(e1, e2, r, inFrame, |e0.attempts|, |e0.waits|);
    SparingTurn(e0, e1, e2, r, inFrame, others, more);
    hide Chained, Poised, OneTurn, Unanswered;
  }

  lemma SteadyEnds(e0: Env, e: Env, r: Result, others: nat)
    requires Steady(e0, e, others) && others <= 1 && r.Done? && !Unanswered(e.attempts, e.waits, |e0.waits|)
    ensures Ended(e0, e, r, 1)
  {}

  /** What one turn of the writing loop does. */
  predicate Turned(e1: Env, e2: Env, fd: int, data: seq<byte>, r: Result, limit: int, ignored1: bool, ignored2: bool,
                   inFrame: bool) {
    && (r == Unfinished ==> e2.script == []) && Later(e1, e2, fd, Taken(r, data), limit)
    && (r.Done? ==> r.count <= |data| && Settled(e2.attempts, |e1.attempts|) && ignored2)
    && (r.Done? ==> |e2.attempts| > |e1.attempts|)
    && Marked(e2.attempts, |e1.attempts|, ignored1) && e1.attempts <= e2.attempts
    && Explained(e1, e2, r, limit) && (r == Failure(EAGAIN) ==> !inFrame)
    && OneTurn(e1, e2, r, inFrame) && Others(e1, e2) <= (if ignored1 then 0 else 1)
  }

  /** Each failure has its reason. */
  predicate Explained(e1: Env, e2: Env, r: Result, limit: int) {
    && (r == Failure(EINTR) ==> e2.pending != 0) && (r == Failure(ETIMEDOUT) ==> limit <= e2.now)
    && (r == Failure(EIO) || r == Failure(EOTHER) ==> e2.faults > e1.faults)
    && (r.Failure? ==> r.errno in {EINTR, ETIMEDOUT, EAGAIN, EIO, EOTHER})
  }

  /** What holds between two turns. */
  predicate Midway(e0: Env, e: Env, fd: int, data: seq<byte>, sent: nat, limit: int, ignored0: bool, ignored: bool) {
    && sent <= |data| && Later(e0, e, fd, data[..sent], limit)
    && Marked(e.attempts, |e0.attempts|, ignored0) && Settled(e.attempts, |e0.attempts|)
    && |e0.attempts| <= |e.attempts| && ignored == (ignored0 || |e.attempts| > |e0.attempts|)
    && Steady(e0, e, if ignored && !ignored0 then 1 else 0)
    && (Unanswered(e.attempts, e.waits, |e0.waits|) ==> sent < |data|)
  }

  /** What holds when the loop ends with a result. */
  predicate Over(e0: Env, e: Env, fd: int, data: seq<byte>, sent: nat, r: Result, limit: int, ignored0: bool) {
    && sent <= |data| && Later(e0, e, fd, data[..sent], limit) && (r == Unfinished ==> e.script == [])
    && Marked(e.attempts, |e0.attempts|, ignored0) && Explained(e0, e, r, limit) && Ended(e0, e, r, 1)
  }

  lemma MidwayBegins(e: Env, fd: int, data: seq<byte>, limit: int, ignored: bool)
    ensures Midway(e, e, fd, data, 0, limit, ignored, ignored)
  {
    LaterNothing(e, fd, limit);
    assert data[..0] == [];
    SteadyNothing(e);
  }

  lemma MidwayEnds(e0: Env, e: Env, fd: int, data: seq<byte>, limit: int, ignored0: bool, ignored: bool)
    requires Midway(e0, e, fd, data, |data|, limit, ignored0, ignored)
    ensures Over(e0, e, fd, data, |data|, Done(|data|), limit, ignored0)
  {
    SteadyEnds(e0, e, Done(|data|), if ignored && !ignored0 then 1 else 0);
    hide Steady, Ended, Later, Marked;
  }

  lemma MidwayTurn(e0: Env, e1: Env, e2: Env, fd: int, data: seq<byte>, sent: nat, r: Result, limit: int,
                   ignored0: bool, ignored1: bool, ignored2: bool, inFrame: bool)
    requires Midway(e0, e1, fd, data, sent, limit, ignored0, ignored1) && sent < |data|
    requires Turned(e1, e2, fd, data[sent..], r, limit, ignored1, ignored2, inFrame)
    ensures r.Done? ==> Midway(e0, e2, fd, data, sent + r.count, limit, ignored0, ignored2)
    ensures !r.Done? ==> Over(e0, e2, fd, data, sent, r, limit, ignored0)
  {
    hide Later, Taken, Marked, Settled, Steady, Ended, Unanswered, OneTurn, Others;
    LaterFacts(e0, e1, fd, data[..sent], limit);
    MarkedTwice(e1.attempts, e2.attempts, |e0.attempts|, ignored0);
    TakenLength(r, data[sent..]);
    Progress(e0, e1, e2, fd, data, sent, Taken(r, data[sent..]), limit);
    SteadyTurn(e0, e1, e2, r, inFrame, if ignored1 && !ignored0 then 1 else 0, if ignored1 then 0 else 1);
  }

  /** Every readiness but the last was followed by a write. */
  lemma ChainAnswers(a: seq<Attempt>, w: seq<Wait>, a0: nat, w0: nat)
    requires Chained(a, w, a0, w0)
    ensures forall i :: w0 <= i < |w| && Ready(w[i]) ==>
      w[i].attempts < |a| || (i == |w| - 1 && Unanswered(a, w, w0))
  {
    forall i | w0 <= i < |w| && Ready(w[i])
      ensures w[i].attempts < |a| || (i == |w| - 1 && Unanswered(a, w, w0))
    {
      assert ForBlocked(a, w, a0, i);
      if i < |w| - 1 {
        assert NextWait(w, i) && ForBlocked(a, w, a0, i + 1);
      }
    }
  }

  lemma NoTurn(e: Env, inFrame: bool)
    ensures forall r :: r in {Failure(EINTR), Unfinished} ==> OneTurn(e, e, r, inFrame)
    ensures Others(e, e) == 0
  {}

  lemma ReadingTurn(e: Env, inFrame: bool)
    requires e.script != []
    ensures forall r :: r in {Failure(ETIMEDOUT), Failure(EOTHER)} ==> OneTurn(e, Clock(e).0, r, inFrame)
    ensures Others(e, Clock(e).0) == 0
  {
    ClockCounts(e);
  }

  lemma WritingTurn(e0: Env, e2: Env, r: Result, inFrame: bool)
    requires e0.script != [] && OneWrite(Clock(e0).0, e2, r)
    ensures Others(e0, e2) == Others(Clock(e0).0, e2)
    ensures r != Done(0) ==> OneTurn(e0, e2, r, inFrame)
    ensures r == Done(0) ==> OneTurn(e0, e2, Failure(EIO), inFrame)
    ensures e0.attempts <= e2.attempts && e0.waits == e2.waits
    ensures r == Failure(EAGAIN) ==> e2.attempts != e0.attempts && EndsBlocked(e2.attempts) && Unused(e0, e2) == 0
  {
    ClockCounts(e0);
    hide Clock;
  }

  lemma WaitingTurn(e0: Env, e2: Env, e3: Env, r: Result)
    requires OneTurn(e0, e2, Failure(EAGAIN), true) && e2.waits == e0.waits && Unused(e0, e2) == 0
    requires e2.attempts != e0.attempts && EndsBlocked(e2.attempts)
    requires e3.attempts == e2.attempts && e2.waits <= e3.waits && WaitsAfter(e3.waits, |e2.waits|, |e3.attempts|)
    requires Others(e2, e3) == 0 && 0 <= Unused(e2, e3) <= 1
    requires r == Done(0) <==> |e3.waits| > |e2.waits| && Ready(e3.waits[|e3.waits| - 1])
    requires r == Done(0) ==> Unused(e2, e3) == 0
    requires r in {Done(0), Unfinished, Failure(EINTR), Failure(ETIMEDOUT), Failure(EOTHER)}
    ensures OneTurn(e0, e3, r, true) && Others(e0, e3) == Others(e0, e2)
  {}

  // ---- The transport's state ----

  class Transport {
    var env: Env
    var frame: Frame
    var sigpipeIgnored: bool

    constructor (e: Env)
      requires e.stdout.others == e.others
      ensures Valid() && env == e && frame.Closed?
    {
      env, frame, sigpipeIgnored := e, Closed, false;
    }

    predicate Valid()
      reads this
    {
      env.stdout.others == env.others && (frame.Open? ==> frame.fd == STDOUT && IsDeadline(frame.deadline))
    }

    /** fcntl(F_GETFL): on success the flags are those of the moment. */
    method GetFlags() returns (ok: bool)
      requires Valid() && env.script != []
      modifies this`env
      ensures Valid() && env == (if ok then Pass(old(env)) else FcntlFault(Pass(old(env))))
    {
      ok := env.script[0].answer.Count?;
      env := if ok then Pass(env) else FcntlFault(Pass(env));
    }

    /** signal(SIGPIPE, SIG_IGN). */
    method IgnoreSigpipe() returns (ok: bool)
      requires Valid() && env.script != []
      modifies this`env
      ensures Valid() && env == (if ok then Pass(old(env)) else Fault(Pass(old(env))))
    {
      ok := env.script[0].answer.Count?;
      env := if ok then Pass(env) else Fault(Pass(env));
    }

    /** fcntl(F_SETFL). */
    method SetFlags(flags: Flags) returns (ok: bool)
      requires Valid() && env.script != [] && flags.others == env.others
      modifies this`env
      ensures Valid() && env == (if ok then Quiet(old(env)).(stdout := flags) else FcntlFault(Quiet(old(env))))
    {
      ok := env.script[0].answer.Count?;
      env := if ok then Quiet(env).(stdout := flags) else FcntlFault(Quiet(env));
    }

    method ReadClock() returns (clock: Option<Timespec>)
      requires Valid() && env.script != []
      modifies this`env
      ensures Valid() && (env, clock) == Clock(old(env))
    {
      var (e, c) := Clock(env);
      env, clock := e, c;
    }

    /**
      Open a frame: from now on standard output does not block, and every write up to the end of the
      frame shares the deadline made here. On failure nothing has changed.
     */
    method OutputBegin(fd: int, timeoutMs: int64) returns (r: Result)
      requires Valid() && timeoutMs < 0x8_0000_0000_0000
      modifies this`env, this`frame
      ensures r == Unfinished ==> env.script == []
      ensures Valid() && (r == Done(0) || (r.Failure? && r.errno in {EINVAL, EBUSY, EOTHER}) || r == Unfinished)
      ensures r == Failure(EINVAL) <==> fd != STDOUT || timeoutMs < 1
      ensures r == Failure(EBUSY) <==> fd == STDOUT && timeoutMs >= 1 && old(frame).Open?
      ensures r == Failure(EOTHER) ==> env.faults > old(env).faults
      ensures r == Done(0) ==> frame.Open? && frame.saved.nonblock == old(env).stdout.nonblock && env.stdout.nonblock
      ensures r != Unfinished && fd == STDOUT && timeoutMs >= 1 ==>
        forall w :: Agrees(w, old(env), old(frame)) ==>
          var (w', ok) := BeginOutput(w, r != Done(0), false, false);
          ok == (r == Done(0)) && Agrees(w', env, frame)
      ensures r == Done(0) ==>
        old(env).now <= frame.deadline.Ns() - timeoutMs as int * NS_PER_MS <= env.now
      ensures r != Done(0) ==> frame == old(frame)
      ensures Silent(old(env), env) && Aside(old(env), env, 2, 1)
      ensures r != Done(0) ==> env.stdout.nonblock == old(env).stdout.nonblock
    {
      NothingAside(env);
      hide Clock, Aside;
      if fd != STDOUT || fd >= FD_SETSIZE || timeoutMs < 1 {
        return Failure(EINVAL);
      }
      if frame.Open? {
        return Failure(EBUSY);
      }
      if env.script == [] {
        return Unfinished;
      }
      PassAside(env, env);
      var ok := GetFlags();
      if !ok {
        return Failure(EOTHER);
      }
      var flags := env.stdout;
      if env.script == [] {
        return Unfinished;
      }
      ClockIsSilent(env);
      ClockAside(old(env), env);
      var clock := ReadClock();
      var made, deadline := MakeDeadline(clock, timeoutMs);
      if !made {
        return Failure(EOTHER);
      }
      if !flags.nonblock {
        if env.script == [] {
          return Unfinished;
        }
        PassAside(old(env), env);
        ok := SetFlags(flags.(nonblock := true));
        if !ok {
          return Failure(EOTHER);
        }
      }
      frame := Open(fd, flags, deadline);
      r := Done(0);
    }

    /** Close the frame: the O_NONBLOCK bit of its beginning returns, the other flags are kept. */
    method OutputEnd(fd: int) returns (r: Result)
      requires Valid()
      modifies this`env, this`frame
      ensures r == Failure(EOTHER) ==> env.fcntlFaults > old(env).fcntlFaults
      ensures r == Unfinished ==> env.script == []
      ensures Valid() && (r == Done(0) || r == Failure(EINVAL) || r == Failure(EOTHER) || r == Unfinished)
      ensures r == Failure(EINVAL) <==> !(old(frame).Open? && old(frame).fd == fd)
      ensures r == Failure(EOTHER) ==> env.faults > old(env).faults
      ensures r == Done(0) ==> frame.Closed? && env.stdout == Flags(old(frame).saved.nonblock, env.others)
      ensures r != Unfinished && fd == STDOUT ==>
        forall w :: Agrees(w, old(env), old(frame)) ==>
          var (w', ok) := EndOutput(w, r != Done(0), false);
          ok == (r == Done(0)) && Agrees(w', env, frame)
      ensures r != Done(0) ==> frame == old(frame) && env.stdout.nonblock == old(env).stdout.nonblock
      ensures Silent(old(env), env) && Aside(old(env), env, 2, 0)
    {
      NothingAside(env);
      hide Aside;
      if frame.Closed? || frame.fd != fd {
        return Failure(EINVAL);
      }
      if env.script == [] {
        return Unfinished;
      }
      PassAside(env, env);
      var ok := GetFlags();
      if !ok {
        return Failure(EOTHER);
      }
      if env.script == [] {
        return Unfinished;
      }
      PassAside(old(env), env);
      ok := SetFlags(env.stdout.(nonblock := frame.saved.nonblock));
      if !ok {
        return Failure(EOTHER);
      }
      frame := Closed;
      r := Done(0);
    }

    /** Wait until standard output takes bytes, a signal is recorded, or the deadline passes. */
    method WaitStdoutWritable(fd: int, deadline: Timespec) returns (r: Result)
      requires Valid() && IsDeadline(deadline)
      modifies this`env
      ensures r == Unfinished ==> env.script == []
      ensures Valid() && Later(old(env), env, fd, [], deadline.Ns()) && env.attempts == old(env).attempts
      ensures r == Done(0) || r == Unfinished || (r.Failure? && r.errno in {EINTR, ETIMEDOUT, EOTHER})
      ensures r == Done(0) ==> env.pending == 0 && |env.script| < |old(env).script|
      ensures r == Failure(EINTR) ==> env.pending != 0
      ensures r == Failure(ETIMEDOUT) ==> deadline.Ns() <= env.now
      ensures r == Failure(EOTHER) ==> env.faults > old(env).faults
      // Each call is a reading of the clock or a wait directly after one; a wait that is interrupted
      // without a signal is repeated, and the first one that finds standard output ready is the last call.
      ensures old(env).waits <= env.waits && WaitsAfter(env.waits, |old(env).waits|, |env.attempts|)
      ensures Others(old(env), env) == 0 && 0 <= Unused(old(env), env) <= 1
      ensures r == Done(0) <==>
        && |env.waits| > |old(env).waits|
        && var w := env.waits[|env.waits| - 1];
        w.answer.Count? && w.answer.n > 0 && !w.signal
      ensures r == Done(0) ==> env.since == 1 && Unused(old(env), env) == 0
    {
      LaterNothing(env, fd, deadline.Ns());
      assert Waited(env, env) && Unused(env, env) == 0;
      hide Wrote, Waited, OneWait, Unused, Others, WaitsAfter, Ready, InVain;
      while true
        invariant Valid() && Later(old(env), env, fd, [], deadline.Ns())
        invariant Waited(old(env), env) && Unused(old(env), env) == 0
        invariant env.waits != old(env).waits ==> env.waits != [] && InVain(env.waits[|env.waits| - 1])
        decreases |env.script|
      {
        ghost var before := env;
        var turn := WaitOnce(fd, deadline);
        LaterOn(old(env), before, env, fd, deadline.Ns());
        WaitedAgain(old(env), before, env);
        WaitedFacts(old(env), env);
        if turn.Some? {
          VainIsNotReady(before.waits);
          return turn.value;
        }
      }
    }

    /** One turn of waiting: None when it was interrupted without a signal. */
    method WaitOnce(fd: int, deadline: Timespec) returns (r: Option<Result>)
      requires Valid() && IsDeadline(deadline)
      modifies this`env
      ensures r == Some(Unfinished) ==> env.script == []
      ensures Valid() && Later(old(env), env, fd, [], deadline.Ns()) && OneWait(old(env), env)
      ensures r.None? ==> Unused(old(env), env) == 0 && |env.script| < |old(env).script|
      ensures r.None? ==> env.waits != old(env).waits && InVain(env.waits[|env.waits| - 1])
      ensures r == Some(Done(0)) <==> env.waits != old(env).waits && Ready(env.waits[|env.waits| - 1])
      ensures r == Some(Done(0)) ==> env.pending == 0 && |env.script| < |old(env).script|
      ensures r == Some(Done(0)) ==> env.since == 1 && Unused(old(env), env) == 0
      ensures r.Some? ==> r.value in {Done(0), Unfinished, Failure(EINTR), Failure(ETIMEDOUT), Failure(EOTHER)}
      ensures r == Some(Failure(EINTR)) ==> env.pending != 0
      ensures r == Some(Failure(ETIMEDOUT)) ==> deadline.Ns() <= env.now
      ensures r == Some(Failure(EOTHER)) ==> env.faults > old(env).faults
    {
      LaterNothing(env, fd, deadline.Ns());
      NoWait(env);
      hide Wrote, Select, Clock, Unused, Others;
      if env.pending != 0 {
        return Some(Failure(EINTR));
      }
      if env.script == [] {
        return Some(Unfinished);
      }
      ClockKeeps(env, fd, deadline.Ns());
      ReadingAndWait(env, 0);
      var clock := ReadClock();
      var timeLeft, remaining := Remaining(clock, deadline);
      if timeLeft != Left {
        return Some(Failure(if timeLeft == Expired then ETIMEDOUT else EOTHER));
      }
      if env.script == [] {
        return Some(Unfinished);
      }
      ReadingAndWait(old(env), remaining.Ns());
      SelectKeeps(env, fd, remaining.Ns(), deadline.Ns());
      LaterOn(old(env), env, Select(env, remaining.Ns()).0, fd, deadline.Ns());
      var (e, answer) := Select(env, remaining.Ns());
      env := e;
      if answer.Count? && answer.n > 0 {
        return Some(if env.pending != 0 then Failure(EINTR) else Done(0));
      }
      if answer.Count? {
        return Some(Failure(ETIMEDOUT));
      }
      if answer.Interrupted? && env.pending == 0 {
        return None;
      }
      r := Some(Failure(if answer.Interrupted? then EINTR else EOTHER));
    }

    /** One write, repeated while interrupted; SIGPIPE is ignored from the first call on. */
    method WriteRetry(fd: int, data: seq<byte>, ghost limit: int) returns (r: Result)
      requires Valid() && data != [] && env.checked < limit
      modifies this`env, this`sigpipeIgnored
      ensures r == Unfinished ==> env.script == []
      ensures Valid() && Later(old(env), env, fd, Taken(r, data), limit)
      ensures old(sigpipeIgnored) ==> (env, r) == RetryWrite(old(env), fd, data, false)
      ensures old(env).since == 0 ==> Marked(env.attempts, |old(env).attempts|, old(sigpipeIgnored))
      ensures r != Unfinished ==> Settled(env.attempts, |old(env).attempts|)
      ensures old(env).attempts <= env.attempts
      ensures if env.attempts == old(env).attempts then !r.Done? && r != Failure(EAGAIN) else sigpipeIgnored
      ensures r.Done? ==> r.count <= |data| && |env.script| < |old(env).script|
      ensures r == Failure(EINTR) ==> env.pending != 0
      ensures r == Done(0) || r == Failure(EOTHER) ==> env.faults > old(env).faults
      ensures r.Failure? ==> r.errno in {EINTR, EAGAIN, EOTHER}
      ensures r == Failure(EAGAIN) ==> |env.script| < |old(env).script|
      ensures OneWrite(old(env), env, r) && Others(old(env), env) <= (if old(sigpipeIgnored) then 0 else 1)
    {
      MarkedNothing(env.attempts, sigpipeIgnored);
      NoWrite(env);
      hide Wrote, RetryWrite, Taken, Pass, Marked, MarkedRetry, Settled, OneWrite, Others;
      PassMarks(env);
      WroteNothing(env, fd, limit);
      TakesNothing(data);
      if !sigpipeIgnored {
        if env.script == [] {
          return Unfinished;
        }
        PassKeeps(env, fd, limit);
        PassIsNoWrite(env);
        var ok := IgnoreSigpipe();
        if !ok {
          return Failure(EOTHER);
        }
        sigpipeIgnored := true;
      }
      ghost var start := env;
      r := RepeatWrite(fd, data);
      RetryWriteKeeps(start, fd, data, false, limit);
      RetryWriteMarks(start, fd, data, false);
      RetryIsOneWrite(old(env), start, fd, data);
      if old(env).since == 0 {
        RetryIsMarked(env.attempts, |start.attempts|, old(sigpipeIgnored));
      }
      LaterTwice(old(env), start, env, fd, [], Taken(r, data), limit);
      assert [] + Taken(r, data) == Taken(r, data);
    }

    method RepeatWrite(fd: int, data: seq<byte>) returns (r: Result)
      modifies this`env
      ensures r == Unfinished ==> env.script == []
      ensures (env, r) == RetryWrite(old(env), fd, data, false)
    {
      var retried := false;
      while true
        invariant RetryWrite(env, fd, data, retried) == RetryWrite(old(env), fd, data, false)
        decreases |env.script|
      {
        if env.pending != 0 {
          return Failure(EINTR);
        }
        if env.script == [] {
          return Unfinished;
        }
        var (e, answer) := WriteOnce(env, fd, data, retried);
        env, retried := e, true;
        if answer != Failure(EINTR) || env.pending != 0 {
          return answer;
        }
      }
    }

    /** One turn of the writing loop: some bytes, or none after waiting for standard output. */
    method WriteTurn(fd: int, data: seq<byte>, deadline: Timespec) returns (r: Result)
      requires Valid() && IsDeadline(deadline) && data != []
      modifies this`env, this`sigpipeIgnored
      ensures r == Unfinished ==> env.script == []
      ensures Valid() && Later(old(env), env, fd, Taken(r, data), deadline.Ns())
      ensures r.Done? ==> r.count <= |data| && |env.script| < |old(env).script|
      ensures Marked(env.attempts, |old(env).attempts|, old(sigpipeIgnored)) && old(env).attempts <= env.attempts
      ensures r.Done? ==> Settled(env.attempts, |old(env).attempts|) && sigpipeIgnored
      ensures r.Done? ==> |env.attempts| > |old(env).attempts|
      ensures r == Failure(EINTR) ==> env.pending != 0
      ensures r == Failure(ETIMEDOUT) ==> deadline.Ns() <= env.now
      ensures r == Failure(EAGAIN) ==> !(frame.Open? && frame.fd == fd)
      ensures r == Failure(EIO) || r == Failure(EOTHER) ==> env.faults > old(env).faults
      ensures r.Failure? ==> r.errno in {EINTR, ETIMEDOUT, EAGAIN, EIO, EOTHER}
      ensures OneTurn(old(env), env, r, frame.Open? && frame.fd == fd)
      ensures Others(old(env), env) <= (if old(sigpipeIgnored) then 0 else 1)
    {
      MarkedNothing(env.attempts, sigpipeIgnored);
      LaterNothing(env, fd, deadline.Ns());
      TakesNothing(data);
      ghost var inFrame := frame.Open? && frame.fd == fd;
      NoTurn(env, inFrame);
      hide Wrote, Taken, Marked, Settled, RetryWrite, OneWrite, OneTurn, Others, Unused, WaitsAfter, Clock;
      if env.pending != 0 {
        return Failure(EINTR);
      }
      if env.script == [] {
        return Unfinished;
      }
      ClockKeeps(env, fd, deadline.Ns());
      ReadingTurn(env, inFrame);
      var clock := ReadClock();
      var timeLeft, remaining := Remaining(clock, deadline);
      if timeLeft != Left {
        return Failure(if timeLeft == Expired then ETIMEDOUT else EOTHER);
      }
      ghost var e1 := env;
      r := WriteThenWait(fd, data, deadline, old(env));
      LaterTwice(old(env), e1, env, fd, [], Taken(r, data), deadline.Ns());
      assert [] + Taken(r, data) == Taken(r, data);
    }

    /** After the reading of the clock: one retried write, and the wait when it would block inside a frame. */
    method WriteThenWait(fd: int, data: seq<byte>, deadline: Timespec, ghost e0: Env) returns (r: Result)
      requires Valid() && IsDeadline(deadline) && data != []
      requires e0.script != [] && env == Clock(e0).0 && env.since == 0 && env.checked < deadline.Ns()
      modifies this`env, this`sigpipeIgnored
      ensures r == Unfinished ==> env.script == []
      ensures Valid() && Later(old(env), env, fd, Taken(r, data), deadline.Ns())
      ensures r.Done? ==> r.count <= |data| && |env.script| < |old(env).script|
      ensures Marked(env.attempts, |old(env).attempts|, old(sigpipeIgnored)) && old(env).attempts <= env.attempts
      ensures r.Done? ==> Settled(env.attempts, |old(env).attempts|) && sigpipeIgnored
      ensures r.Done? ==> |env.attempts| > |old(env).attempts|
      ensures r == Failure(EINTR) ==> env.pending != 0
      ensures r == Failure(ETIMEDOUT) ==> deadline.Ns() <= env.now
      ensures r == Failure(EAGAIN) ==> !(frame.Open? && frame.fd == fd)
      ensures r == Failure(EIO) || r == Failure(EOTHER) ==> env.faults > old(env).faults
      ensures r.Failure? ==> r.errno in {EINTR, ETIMEDOUT, EAGAIN, EIO, EOTHER}
      ensures OneTurn(e0, env, r, frame.Open? && frame.fd == fd)
      ensures Others(e0, env) <= (if old(sigpipeIgnored) then 0 else 1)
    {
      TakesNothing(data);
      hide Wrote, Taken, Marked, Settled, RetryWrite, OneWrite, OneTurn, Others, Unused;
      hide WaitsAfter, Clock, EndsBlocked;
      r := WriteRetry(fd, data, deadline.Ns());
      ghost var e2 := env;
      WritingTurn(e0, e2, r, frame.Open? && frame.fd == fd);
      if r == Done(0) {
        return Failure(EIO);
      }
      if r == Failure(EAGAIN) && frame.Open? && frame.fd == fd {
        r := WaitStdoutWritable(fd, deadline);
        LaterOn(old(env), e2, env, fd, deadline.Ns());
        WaitingTurn(e0, e2, env, r);
      }
    }

    /** The writing loop: a prefix arrives, all of it on success, and a failure has its reason. */
    method WriteLoop(fd: int, data: seq<byte>, deadline: Timespec) returns (r: Result, ghost sent: nat)
      requires Valid() && IsDeadline(deadline) && (frame.Open? ==> frame.fd == fd && frame.deadline == deadline)
      modifies this`env, this`sigpipeIgnored
      ensures r == Unfinished ==> env.script == []
      ensures Valid() && sent <= |data| && Later(old(env), env, fd, data[..sent], deadline.Ns())
      ensures r.Done? ==> r.count == sent == |data|
      ensures Marked(env.attempts, |old(env).attempts|, old(sigpipeIgnored))
      ensures r == Failure(EINTR) ==> env.pending != 0
      ensures r == Failure(ETIMEDOUT) ==> deadline.Ns() <= env.now
      ensures r == Failure(EAGAIN) ==> frame.Closed?
      ensures r == Failure(EIO) || r == Failure(EOTHER) ==> env.faults > old(env).faults
      ensures r.Failure? ==> r.errno in {EINTR, ETIMEDOUT, EAGAIN, EIO, EOTHER}
      // Writes and waits follow each other, each after its own reading, and no readiness is passed over.
      ensures Ended(old(env), env, r, 1)
      ensures frame.Closed? ==> env.waits == old(env).waits
    {
      var offset := 0;
      r, sent := Done(0), 0;
      ghost var inFrame := frame.Open? && frame.fd == fd;
      MidwayBegins(env, fd, data, deadline.Ns(), sigpipeIgnored);
      hide Midway, Turned;
      while offset < |data|
        invariant Valid() && offset == sent <= |data|
        invariant Midway(old(env), env, fd, data, sent, deadline.Ns(), old(sigpipeIgnored), sigpipeIgnored)
        invariant frame.Closed? ==> env.waits == old(env).waits
        decreases |env.script|
      {
        ghost var before, ignored := env, sigpipeIgnored;
        var turn := MarkedTurn(fd, data[offset..], deadline);
        MidwayTurn(old(env), before, env, fd, data, sent, turn, deadline.Ns(), old(sigpipeIgnored), ignored,
                   sigpipeIgnored, inFrame);
        sent := offset + if turn.Done? then turn.count else 0;
        if !turn.Done? {
          return turn, sent;
        }
        offset := offset + turn.count;
      }
      r := Done(offset);
      MidwayEnds(old(env), env, fd, data, deadline.Ns(), old(sigpipeIgnored), sigpipeIgnored);
    }

    /** One turn, in the terms of the loop. */
    method MarkedTurn(fd: int, data: seq<byte>, deadline: Timespec) returns (r: Result)
      requires Valid() && IsDeadline(deadline) && data != []
      modifies this`env, this`sigpipeIgnored
      ensures Valid() && (r.Done? ==> r.count <= |data| && |env.script| < |old(env).script|)
      ensures Turned(old(env), env, fd, data, r, deadline.Ns(), old(sigpipeIgnored), sigpipeIgnored,
                     frame.Open? && frame.fd == fd)
      ensures frame.Closed? ==> env.waits == old(env).waits
    {
      hide Later, Taken, Marked, Settled, Others, Unused, WaitsAfter, WritesAfter;
      r := WriteTurn(fd, data, deadline);
    }

    /** A write to another descriptor outside any frame: the deadline is its own. */
    method WriteAlone(fd: int, data: seq<byte>, timeoutMs: int64) returns (r: Result, ghost sent: nat, ghost limit: int)
      requires Valid() && frame.Closed? && 1 <= timeoutMs < 0x8_0000_0000_0000
      modifies this`env, this`sigpipeIgnored
      ensures Passed(old(env), env)
      ensures Valid() && sent <= |data| && (sent > 0 ==> fd in old(env).sinks)
      ensures env.sinks == Gain(old(env).sinks, fd, data[..sent])
      ensures Relies(old(env), env, limit)
      ensures Marked(env.attempts, |old(env).attempts|, old(sigpipeIgnored))
      ensures old(env).now <= limit - timeoutMs as int * NS_PER_MS <= env.now
      ensures env.stdout == Flags(old(env).stdout.nonblock, env.others)
      ensures r.Done? ==> r.count == sent == |data|
      ensures r == Unfinished ==> env.script == []
      ensures r == Failure(EINTR) ==> env.pending != 0
      ensures r == Failure(ETIMEDOUT) ==> limit <= env.now
      ensures r == Failure(EIO) || r == Failure(EOTHER) ==> env.faults > old(env).faults
      ensures r.Failure? ==> r.errno in {EINTR, ETIMEDOUT, EAGAIN, EIO, EOTHER}
      ensures Ending(old(env), env, r, 5, 2) && env.waits == old(env).waits
    {
      NothingEnds(env, Unfinished);
      NothingAside(env);
      sent := 0;
      limit := env.now + timeoutMs as int * NS_PER_MS;
      WritesNothing(env, fd, data, sigpipeIgnored);
      if env.script == [] {
        return Unfinished, sent, limit;
      }
      ClockIsSilent(env);
      ClockAside(env, env);
      AsideEnds(env, Clock(env).0, Failure(EOTHER));
      hide Ending, Ended, Aside, Clock, Gain, Marked, Wrote, IsReading, IsDeadline, Timespec.Ns;
      var clock := ReadClock();
      var made, deadline := MakeDeadline(clock, timeoutMs);
      if !made {
        return Failure(EOTHER), sent, limit;
      }
      limit := deadline.Ns();
      ghost var before := env;
      r, sent := WriteLoop(fd, data, deadline);
      WroteFacts(before, env, fd, data[..sent], limit);
      EndedSince(old(env), before, env, r, 1, 1);
      EndingMore(old(env), env, r, 2, 2);
    }

    /** A write to standard output outside any frame opens one and closes it again unless fcntl fails. */
    method WriteOwnFrame(fd: int, data: seq<byte>, timeoutMs: int64)
      returns (r: Result, ghost sent: nat, ghost limit: int)
      requires Valid() && frame.Closed? && fd == STDOUT && 1 <= timeoutMs < 0x8_0000_0000_0000
      modifies this
      ensures Passed(old(env), env)
      ensures Valid() && sent <= |data| && (sent > 0 ==> fd in old(env).sinks)
      ensures env.sinks == Gain(old(env).sinks, fd, data[..sent])
      ensures Relies(old(env), env, limit)
      ensures Marked(env.attempts, |old(env).attempts|, old(sigpipeIgnored))
      ensures old(env).now <= limit - timeoutMs as int * NS_PER_MS <= env.now
      ensures frame.Closed? ==> env.stdout == Flags(old(env).stdout.nonblock, env.others)
      ensures frame.Open? ==>
        && frame.saved.nonblock == old(env).stdout.nonblock && !r.Done?
        && (r.Unfinished? || env.fcntlFaults > old(env).fcntlFaults)
      ensures r.Done? ==> r.count == sent == |data|
      ensures r == Unfinished ==> env.script == []
      ensures r == Failure(EINTR) ==> env.pending != 0
      ensures r == Failure(ETIMEDOUT) ==> limit <= env.now
      ensures r == Failure(EIO) || r == Failure(EOTHER) ==> env.faults > old(env).faults
      ensures r.Failure? ==> r.errno in {EINTR, ETIMEDOUT, EIO, EOTHER}
      ensures Ending(old(env), env, r, 5, 2)
    {
      sent := 0;
      limit := env.now + timeoutMs as int * NS_PER_MS;
      WritesNothing(env, fd, data, sigpipeIgnored);
      hide Ending, Ended, Aside, Gain, Marked, Wrote, IsReading, IsDeadline, Timespec.Ns;
      r := OutputBegin(fd, timeoutMs);
      if r != Done(0) {
        AsideEnds(old(env), env, r);
        return;
      }
      limit := frame.deadline.Ns();
      ghost var begun := env;
      r, sent := WriteLoop(fd, data, frame.deadline);
      WroteFacts(begun, env, fd, data[..sent], limit);
      EndedSince(old(env), begun, env, r, 2, 1);
      ghost var written := env;
      if r.Unfinished? {
        EndingMore(old(env), env, r, 3, 2);
        return;
      }
      var ended := OutputEnd(fd);
      EndingThen(old(env), written, env, r, 3, 2, 2);
      if ended.Unfinished? || (ended.Failure? && r.Done?) {
        DoneEnds(old(env), env, r, ended);
        r := ended;
      }
    }

    /**
      Write a complete buffer. Inside a frame the frame's deadline counts; otherwise standard output
      gets a frame of its own, which is closed again unless closing fails.
     */
    method WriteAll(fd: int, data: seq<byte>, timeoutMs: int64) returns (r: Result, ghost sent: nat, ghost limit: int)
      requires Valid() && timeoutMs < 0x8_0000_0000_0000
      modifies this
      ensures Passed(old(env), env)
      ensures r == Unfinished ==> env.script == []
      ensures Valid()
      // The bytes: a prefix arrives, and the whole buffer exactly once on success.
      ensures sent <= |data| && (sent > 0 ==> fd in old(env).sinks)
      ensures env.sinks == Gain(old(env).sinks, fd, data[..sent])
      ensures r.Done? ==> r.count == sent == |data|
      // The deadline: every write relies on a clock reading before it.
      ensures Relies(old(env), env, limit)
      ensures old(frame).Open? ==> limit == old(frame).deadline.Ns()
      ensures old(frame).Closed? ==> old(env).now <= limit - timeoutMs as int * NS_PER_MS <= env.now
      // Only the repetition of an interrupted write does without a fresh reading.
      ensures Marked(env.attempts, |old(env).attempts|, old(sigpipeIgnored))
      // When a wait finds standard output ready and no signal is recorded, another write follows, unless
      // a signal, the deadline, a fault or the end of the run comes first.
      ensures forall i :: |old(env).waits| <= i < |env.waits| ==>
        var w := env.waits[i];
        w.answer.Count? && w.answer.n > 0 && !w.signal && w.attempts >= |env.attempts| ==>
          i == |env.waits| - 1 && r in {Failure(EINTR), Failure(ETIMEDOUT), Failure(EOTHER), Unfinished}
      // Otherwise writes and waits follow each other as they should, and few calls are made for nothing.
      ensures Ending(old(env), env, r, 5, 2) && (fd != STDOUT ==> env.waits == old(env).waits)
      // The frame and the flags.
      ensures old(frame).Open? || fd != STDOUT ==>
        frame == old(frame) && env.stdout.nonblock == old(env).stdout.nonblock
      ensures old(frame).Closed? && frame.Closed? ==> env.stdout == Flags(old(env).stdout.nonblock, env.others)
      ensures old(frame).Closed? && frame.Open? ==>
        && frame.saved.nonblock == old(env).stdout.nonblock && !r.Done?
        && (r.Unfinished? || env.fcntlFaults > old(env).fcntlFaults)
      // The reasons of a failure.
      ensures r == Failure(EINVAL) <==>
        timeoutMs < 1 || fd < 0 || fd >= FD_SETSIZE || (old(frame).Open? && fd != STDOUT)
      ensures r == Failure(EINTR) ==> env.pending != 0
      ensures r == Failure(ETIMEDOUT) ==> limit <= env.now
      ensures r == Failure(EAGAIN) ==> fd != STDOUT
      ensures r == Failure(EIO) || r == Failure(EOTHER) ==> env.faults > old(env).faults
      ensures r != Failure(EBUSY)
    {
      NothingEnds(env, Failure(EINVAL));
      sent := 0;
      limit := if frame.Open? then frame.deadline.Ns() else env.now + timeoutMs as int * NS_PER_MS;
      WritesNothing(env, fd, data, sigpipeIgnored);
      hide Gain, Marked, Wrote, Timespec.Ns, IsDeadline;
      if timeoutMs < 1 || fd < 0 || fd >= FD_SETSIZE {
        return Failure(EINVAL), sent, limit;
      }
      if frame.Closed? && fd == STDOUT {
        r, sent, limit := WriteOwnFrame(fd, data, timeoutMs);
        EndingAnswers(old(env), env, r);
        return;
      }
      if frame.Open? {
        if fd != frame.fd {
          return Failure(EINVAL), sent, limit;
        }
        r, sent := WriteLoop(fd, data, frame.deadline);
        WroteFacts(old(env), env, fd, data[..sent], limit);
        EndedIsEnding(old(env), env, r);
        EndingAnswers(old(env), env, r);
        return;
      }
      r, sent, limit := WriteAlone(fd, data, timeoutMs);
    }

    // ---- Whole frames, and any sequence of calls ----

    /** The O_NONBLOCK bit that standard output had outside all frames is in force or saved in the open one. */
    predicate Holds(original: bool)
      reads this
    {
      if frame.Open? then frame.saved.nonblock == original else env.stdout.nonblock == original
    }

    /**
      One frame: begin, the buffers one after the other, end. On success the descriptor has gained
      exactly their concatenation, otherwise a prefix of it; every write of the whole frame relies on
      a reading before the one deadline made at its beginning; and afterwards the O_NONBLOCK bit is
      as it was unless fcntl failed.
     */
    method WriteFrame(buffers: seq<seq<byte>>, timeoutMs: int64)
      returns (r: Result, ghost sent: seq<byte>, ghost limit: int)
      requires Valid() && frame.Closed? && 1 <= timeoutMs < 0x8_0000_0000_0000
      modifies this
      ensures Passed(old(env), env)
      ensures Valid() && Holds(old(env).stdout.nonblock)
      ensures r == Unfinished ==> env.script == []
      ensures env.sinks == Gain(old(env).sinks, STDOUT, sent) && sent <= Concat(buffers)
      ensures r.Done? ==> sent == Concat(buffers) && frame.Closed?
      ensures Relies(old(env), env, limit)
      ensures old(env).now <= limit - timeoutMs as int * NS_PER_MS <= env.now
      ensures frame.Open? ==> r.Unfinished? || env.fcntlFaults > old(env).fcntlFaults
      ensures frame.Closed? ==> env.stdout == Flags(old(env).stdout.nonblock, env.others)
    {
      sent := [];
      limit := env.now + timeoutMs as int * NS_PER_MS;
      GainNothing(env.sinks, STDOUT, []);
      hide Gain, Concat, Relies, Timespec.Ns, IsDeadline, Marked;
      r := OutputBegin(STDOUT, timeoutMs);
      if r != Done(0) {
        ReliesSilent(old(env), env, limit);
        return;
      }
      limit := frame.deadline.Ns();
      ghost var begun, opened_ := env, frame;
      ReliesSilent(old(env), env, limit);
      assert buffers[..0] == [];
      ConcatEmpty();
      for i := 0 to |buffers|
        invariant Valid() && frame == opened_ && env.sinks == Gain(old(env).sinks, STDOUT, sent)
        invariant sent == Concat(buffers[..i]) && Relies(old(env), env, limit) && r.Done?
        invariant Passed(begun, env) && limit == opened_.deadline.Ns()
      {
        ghost var before, taken := env, 0;
        r, taken, limit := WriteAll(STDOUT, buffers[i], timeoutMs);
        GainTwice(old(env).sinks, STDOUT, sent, buffers[i][..taken]);
        ReliesTwice(old(env), before, env, limit);
        ConcatStep(buffers, i, taken);
        sent := sent + buffers[i][..taken];
        if !r.Done? {
          break;
        }
        assert buffers[i][..taken] == buffers[i];
      }
      if r.Done? {
        assert buffers[..|buffers|] == buffers;
      }
      if r.Unfinished? {
        return;
      }
      ghost var before := env;
      var ended := OutputEnd(STDOUT);
      ReliesSilent(before, env, limit);
      ReliesTwice(old(env), before, env, limit);
      if ended.Unfinished? || (ended.Failure? && r.Done?) {
        r := ended;
      }
    }

    /**
      Any sequence of calls with any outcomes: outside a frame standard output has its original
      O_NONBLOCK bit, inside one that bit is saved; and every descriptor has gained exactly the bytes
      of the successful writes and prefixes of the others, in order.
     */
    method Session(calls: seq<Call>) returns (completed: bool, results: seq<Result>, ghost sent: seq<seq<byte>>)
      requires Valid() && frame.Closed? && forall i :: 0 <= i < |calls| ==> Admissible(calls[i])
      modifies this
      ensures Valid() && Holds(old(env).stdout.nonblock)
      ensures completed ==> |results| == |calls|
      ensures !completed ==> env.script == []
      ensures |results| == |sent| <= |calls| && env.sinks == Gains(old(env).sinks, calls, sent)
      ensures forall i :: 0 <= i < |results| ==> Accounts(calls[i], results[i], sent[i])
    {
      results, sent := [], [];
      for i := 0 to |calls|
        invariant Valid() && Holds(old(env).stdout.nonblock) && |results| == |sent| == i
        invariant env.sinks == Gains(old(env).sinks, calls, sent)
        invariant forall j :: 0 <= j < i ==> Accounts(calls[j], results[j], sent[j])
      {
        var r;
        ghost var bytes;
        r, bytes := Perform(calls[i], old(env).stdout.nonblock);
        ghost var earlier := sent;
        results, sent := results + [r], sent + [bytes];
        assert sent[..|sent| - 1] == earlier;
        if r.Unfinished? {
          return false, results, sent;
        }
      }
      completed := true;
    }

    method Perform(call: Call, ghost original: bool) returns (r: Result, ghost bytes: seq<byte>)
      requires Valid() && Holds(original) && Admissible(call)
      modifies this
      ensures Valid() && Holds(original) && (r == Unfinished ==> env.script == [])
      ensures Accounts(call, r, bytes) && env.sinks == Gain(old(env).sinks, Target(call), bytes)
    {
      bytes := [];
      GainNothing(env.sinks, Target(call), []);
      hide Gain, IsDeadline, Timespec.Ns, Marked, Relies;
      match call
      case CallBegin(fd, timeoutMs) => r := OutputBegin(fd, timeoutMs);
      case CallEnd(fd) => r := OutputEnd(fd);
      case CallWrite(fd, data, timeoutMs) =>
        ghost var taken, limit;
        r, taken, limit := WriteAll(fd, data, timeoutMs);
        bytes := data[..taken];
        assert r.Done? ==> bytes == data;
    }
  }

  datatype Call =
    | CallBegin(fd: int, timeoutMs: int64)
    | CallWrite(fd: int, data: seq<byte>, timeoutMs: int64)
    | CallEnd(fd: int)

  /** Timeouts that the clock arithmetic can hold. */
  predicate Admissible(call: Call) {
    !call.CallEnd? ==> call.timeoutMs < 0x8_0000_0000_0000
  }

  function Target(call: Call): int {
    call.fd
  }

  /** A write hands over a prefix of its buffer, all of it when it succeeds; the other calls nothing. */
  predicate Accounts(call: Call, r: Result, bytes: seq<byte>) {
    if call.CallWrite? then bytes <= call.data && (r.Done? ==> bytes == call.data && r.count == |call.data|)
    else bytes == []
  }

  /** What the descriptors hold after the calls handed over these bytes. */
  function Gains(sinks: map<int, seq<byte>>, calls: seq<Call>, sent: seq<seq<byte>>): map<int, seq<byte>>
    requires |sent| <= |calls|
    decreases |sent|
  {
    if sent == [] then sinks
    else
      var last := |sent| - 1;
      Gain(Gains(sinks, calls, sent[..last]), Target(calls[last]), sent[last])
  }

  // ---- The frame as part of the process state ----

  /** The frame and the bit of standard output are those of a process state. */
  predicate Agrees(w: World, e: Env, frame: Frame) {
    && STDOUT in w.flags && w.flags[STDOUT].nonblock == e.stdout.nonblock
    && (w.output.Attached? <==> frame.Open?)
    && (frame.Open? ==> w.output.fd == frame.fd == STDOUT && w.output.saved.nonblock == frame.saved.nonblock)
  }

  lemma ReliesTwice(e0: Env, e1: Env, e2: Env, limit: int)
    requires Relies(e0, e1, limit) && Relies(e1, e2, limit)
    ensures Relies(e0, e2, limit)
  {}

  lemma ReliesSilent(e0: Env, e1: Env, limit: int)
    requires e1.attempts == e0.attempts
    ensures Relies(e0, e1, limit)
  {}

  function Concat(buffers: seq<seq<byte>>): seq<byte> {
    if buffers == [] then [] else Concat(buffers[..|buffers| - 1]) + buffers[|buffers| - 1]
  }

  lemma ConcatEmpty()
    ensures Concat([]) == []
  {}

  /** A part of the next buffer after the earlier ones is a prefix of everything. */
  lemma ConcatStep(buffers: seq<seq<byte>>, i: nat, taken: nat)
    requires i < |buffers| && taken <= |buffers[i]|
    ensures Concat(buffers[..i]) + buffers[i][..taken] <= Concat(buffers)
    ensures taken == |buffers[i]| ==> Concat(buffers[..i]) + buffers[i][..taken] == Concat(buffers[..i + 1])
  {
    assert buffers[..i + 1][..i] == buffers[..i];
    ConcatGrows(buffers, i + 1);
    assert Concat(buffers[..i + 1]) == Concat(buffers[..i]) + buffers[i];
  }

  lemma {:induction false} ConcatGrows(buffers: seq<seq<byte>>, i: nat)
    requires i <= |buffers|
    ensures Concat(buffers[..i]) <= Concat(buffers)
    decreases |buffers| - i
  {
    if i == |buffers| {
      assert buffers[..i] == buffers;
    } else {
      assert buffers[..i + 1][..i] == buffers[..i];
      ConcatGrows(buffers, i + 1);
    }
  }

  lemma Progress(e0: Env, e1: Env, e2: Env, fd: int, data: seq<byte>, offset: nat, more: seq<byte>, limit: int)
    requires offset <= |data| && more <= data[offset..]
    requires Later(e0, e1, fd, data[..offset], limit) && Later(e1, e2, fd, more, limit)
    ensures Later(e0, e2, fd, data[..offset + |more|], limit)
  {
    LaterTwice(e0, e1, e2, fd, data[..offset], more, limit);
    assert data[..offset + |more|] == data[..offset] + more;
  }
}
