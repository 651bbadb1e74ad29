/**
  Reading input while termination handlers are installed. A termination signal is delivered to the
  recorder when the mask in force does not block it and stays pending in the kernel otherwise. The
  script decides, one tick for each system call, which signal arrives, what reaches the input, and
  what the call answers.
 */
module Input {
  import opened Bytes
  import opened Handlers

  datatype Answer = Answers(n: nat) | Interrupted | Broken
  datatype Tick = Tick(signal: Signal, bytes: seq<byte>, ends: bool, answer: Answer)

  /** What each system call answered: sigprocmask, pselect, sigpending, read and fcntl. */
  datatype Event =
    | Masked(ok: bool)
    | Selected(answer: Answer)
    | Asked(ok: bool, found: bool)
    | Fetched(got: ReadAnswer)
    | Controlled(ok: bool)

  /**
    `blocked` are the signals pending in the kernel, `arrived` all that ever arrived, `stream` all input
    so far, and `log` what every call has answered.
   */
  datatype Env = Env(
    script: seq<Tick>, pending: Signal, blocked: set<Signal>, arrived: set<Signal>, mask: set<Signal>,
    stream: seq<byte>, taken: nat, ended: bool, nonblocking: bool, maskFaults: nat, faults: nat,
    log: seq<Event>)

  datatype Errno = EINTR | EAGAIN | EINVAL | EOTHER
  datatype ReadAnswer = ReadBytes(bytes: seq<byte>) | ReadEnd | ReadAgain | ReadInterrupted | ReadBroken
  datatype Result = Received(bytes: seq<byte>) | EndOfInput | Failure(errno: Errno) | Unfinished
  datatype Waited = Readable | Retry | Refused(errno: Errno) | WaitUnfinished

  /** A signal is recorded, or pending and blocked by the mask; one that is neither has come after the recorded one. */
  predicate Accounted(e: Env) {
    && e.blocked <= e.mask * TerminationSet()
    && (e.pending == 0 ==> e.arrived <= e.blocked)
    && e.taken <= |e.stream|
  }

  /** The kernel delivers what the mask does not block; the first signal is recorded. */
  function Deliver(e: Env, mask: set<Signal>): (r: Env)
    ensures r.blocked <= mask * e.blocked
    ensures r == e.(pending := r.pending, blocked := r.blocked)
    ensures e.pending != 0 ==> r.pending == e.pending
    ensures r.pending == 0 ==> r.blocked == e.blocked
  {
    if e.blocked <= mask then e
    else
      var pending := if e.pending != 0 then e.pending
                     else if 2 in e.blocked - mask then 2
                     else if 15 in e.blocked - mask then 15
                     else 1;
      e.(pending := pending, blocked := e.blocked * mask)
  }

  /** One system call made under a mask: a signal may arrive and input may come in. */
  function Pass(e: Env, mask: set<Signal>): Env
    requires e.script != []
  {
    var t := e.script[0];
    var fed := e.(script := e.script[1..], stream := if e.ended then e.stream else e.stream + t.bytes,
                  ended := e.ended || t.ends);
    if t.signal !in TerminationSet() then Deliver(fed, mask)
    else Deliver(fed.(blocked := e.blocked + {t.signal}, arrived := e.arrived + {t.signal}), mask)
  }

  /** Signals are sticky and input only grows. */
  predicate Passed(e0: Env, e: Env) {
    && |e.script| <= |e0.script| && (e0.pending != 0 ==> e.pending == e0.pending)
    && (e.pending == 0 ==> e0.blocked <= e.blocked)
    && e0.arrived <= e.arrived && e0.stream <= e.stream && (e0.ended ==> e.ended && e.stream == e0.stream)
    && e0.maskFaults <= e.maskFaults && e0.faults <= e.faults
  }

  /** What every call keeps. */
  predicate Later(e0: Env, e: Env) {
    Passed(e0, e) && Logged(e0, e) && (Calm(e0) ==> Calm(e))
  }

  /** Each call has used a tick and left an event that agrees with it. */
  predicate Logged(e0: Env, e: Env) {
    && e0.log <= e.log && |e0.script| == |e.script| + (|e.log| - |e0.log|)
    && e.script == e0.script[|e.log| - |e0.log|..]
    && forall i :: |e0.log| <= i < |e.log| ==> Tells(e0.script[i - |e0.log|].answer, e.log[i])
  }

  predicate Tells(answer: Answer, event: Event) {
    match event
    case Masked(ok) => ok == answer.Answers?
    case Selected(a) => a == answer
    case Asked(ok, _) => ok == answer.Answers?
    case Fetched(got) => (got.ReadBroken? <==> answer.Broken?) && (got.ReadInterrupted? <==> answer.Interrupted?)
    case Controlled(ok) => ok == answer.Answers?
  }

  /** No signal is recorded or pending, and none will arrive. */
  predicate Calm(e: Env) {
    e.pending == 0 && e.blocked == {} && forall i :: 0 <= i < |e.script| ==> e.script[i].signal !in TerminationSet()
  }

  lemma LaterTwice(e0: Env, e1: Env, e2: Env)
    requires Later(e0, e1) && Later(e1, e2)
    ensures Later(e0, e2)
  {
    LoggedTwice(e0, e1, e2);
    hide Logged, Calm;
  }

  lemma LoggedTwice(e0: Env, e1: Env, e2: Env)
    requires Logged(e0, e1) && Logged(e1, e2)
    ensures Logged(e0, e2)
  {
    forall i | |e0.log| <= i < |e2.log|
      ensures Tells(e0.script[i - |e0.log|].answer, e2.log[i])
    {
      if i < |e1.log| {
        assert e2.log[i] == e1.log[i];
      } else {
        assert e1.script[i - |e1.log|] == e0.script[i - |e0.log|];
      }
    }
    hide Tells;
  }

  /** What a call adds to its passing: its event, and perhaps faults, bytes taken, a mask or a delivery. */
  lemma CallLogged(e0: Env, e: Env, event: Event)
    requires e0.script != [] && e.script == e0.script[1..] && e.log == e0.log + [event]
    requires Tells(e0.script[0].answer, event)
    ensures Logged(e0, e)
  {}

  lemma PassCalm(e: Env, mask: set<Signal>)
    requires e.script != [] && Calm(e)
    ensures Calm(Pass(e, mask))
  {}

  lemma PassKeeps(e: Env, mask: set<Signal>)
    requires e.script != [] && Accounted(e) && mask <= e.mask
    ensures
      var p := Pass(e, mask);
      && Accounted(p) && Passed(e, p) && p.script == e.script[1..] && p.log == e.log && p.blocked <= mask
      && (Calm(e) ==> Calm(p))
      && p.mask == e.mask && p.taken == e.taken && p.maskFaults == e.maskFaults && p.faults == e.faults
      && p.nonblocking == e.nonblocking
  {
    if Calm(e) {
      PassCalm(e, mask);
    }
    hide Calm;
  }

  /** The attached input and its O_NONBLOCK bit are those of a process state with handlers installed. */
  predicate Agrees(w: World, e: Env, fd: int, input: int) {
    && Shaped(w) && AnyInstalled(w) && input in w.flags && w.flags[input].nonblock == e.nonblocking
    && (w.input.Attached? <==> fd >= 0) && (fd >= 0 ==> w.input.fd == fd)
  }

  lemma LaterSame(e: Env)
    ensures Later(e, e)
  {}

  lemma NonblockingLater(e0: Env, e: Env)
    requires Later(e0, e)
    ensures Later(e0, e.(nonblocking := true))
  {}

  /** pselect has found the input. */
  predicate Finds(answer: Answer) {
    answer.Answers? && answer.n > 0
  }

  /** The four calls of a wait in which nothing has failed and no signal was pending, with what pselect found. */
  predicate IsWait(events: seq<Event>, found: bool) {
    && |events| == 4 && events[0] == Masked(true) && events[2] == Asked(true, false) && events[3] == Masked(true)
    && events[1].Selected? && !events[1].answer.Broken? && Finds(events[1].answer) == found
  }

  /** No more than the calls of one wait, in their order. */
  predicate WaitBegins(events: seq<Event>) {
    && |events| <= 4
    && forall k :: 0 <= k < |events| ==>
      && !events[k].Fetched? && !events[k].Controlled?
      && (events[k].Selected? ==> k == 1) && (events[k].Asked? ==> k == 2)
  }

  /** A wait without faults and pending signals that begins there and has found the input. */
  predicate ReadyAt(log: seq<Event>, i: nat) {
    i + 4 <= |log| && IsWait(log[i..i + 4], true)
  }

  /** The first four calls since then are a whole wait. */
  predicate FirstWait(log: seq<Event>, from: nat) {
    from + 4 <= |log| && (IsWait(log[from..from + 4], true) || IsWait(log[from..from + 4], false))
  }

  /** No read since then has found the input empty or at its end. */
  predicate NoneEmpty(log: seq<Event>, from: nat) {
    forall i :: from <= i < |log| ==> log[i] != Fetched(ReadAgain) && log[i] != Fetched(ReadEnd)
  }

  /** The latest calls since then are a wait that has found the input. */
  predicate EndsReady(log: seq<Event>, from: nat) {
    from + 4 <= |log| && ReadyAt(log, |log| - 4)
  }

  /** A read that brings nothing, so that another wait is needed. */
  predicate Vain(got: ReadAnswer, installed: bool) {
    got.ReadInterrupted? || (installed && got.ReadAgain?)
  }

  /** From an index on: calls that only attach and wait, and where a wait has found the input. */
  predicate Awaited(log: seq<Event>, from: nat) {
    && from <= |log| && (forall i :: from <= i < |log| ==> !log[i].Fetched?)
    && (from < |log| ==> !log[from].Selected? && !log[from].Asked?)
    && forall i :: from <= i < |log| && ReadyAt(log, i) ==> i == |log| - 4
  }

  /** Every read follows a wait that has found the input and brought nothing, and every such wait a read. */
  predicate Orderly(log: seq<Event>, from: nat, installed: bool) {
    && from <= |log| && (forall i :: from <= i < |log| && ReadyAt(log, i) ==> i + 4 < |log| && log[i + 4].Fetched?)
    && (forall i :: from <= i < |log| && log[i].Fetched? ==>
          Vain(log[i].got, installed) && (installed ==> from + 4 <= i && ReadyAt(log, i - 4)))
    && (from < |log| ==> !log[|log| - 1].Selected? && !log[|log| - 1].Asked?)
    && (!installed ==> forall i :: from <= i < |log| ==> log[i].Fetched?)
  }

  /** What the last read is answered with. */
  predicate Verdict(got: ReadAnswer, installed: bool, pending: Signal, r: Result) {
    if pending != 0 then r == Failure(EINTR)
    else
      match got
      case ReadBytes(bytes) => r == Received(bytes)
      case ReadEnd => r == EndOfInput
      case ReadBroken => r == Failure(EOTHER)
      case ReadAgain => r == if installed then Unfinished else Failure(EAGAIN)
      case ReadInterrupted => r == Unfinished
  }

  /**
    How a guarded read ends. Every read but the last was in vain and, while handlers are installed,
    directly follows a wait that has found the input; every such wait is followed by a read, unless a
    signal is recorded; and the last read decides the result.
   */
  predicate Concluded(log: seq<Event>, from: nat, installed: bool, pending: Signal, r: Result) {
    && from <= |log|
    && (forall i :: from <= i < |log| && ReadyAt(log, i) ==>
          if i + 4 < |log| then log[i + 4].Fetched? else pending != 0 || r == Unfinished)
    && (forall i :: from <= i < |log| && log[i].Fetched? ==>
          (i < |log| - 1 ==> Vain(log[i].got, installed)) && (installed ==> from + 4 <= i && ReadyAt(log, i - 4)))
    && (from < |log| && log[|log| - 1].Fetched? ==> Verdict(log[|log| - 1].got, installed, pending, r))
    && (r.Received? ==> from < |log| && log[|log| - 1] == Fetched(ReadBytes(r.bytes)))
    && (r.EndOfInput? ==> from < |log| && log[|log| - 1] == Fetched(ReadEnd))
  }

  lemma ShortWait(events: seq<Event>)
    requires 2 <= |events| <= 3 && events[0].Masked? && events[1].Selected? && (|events| == 3 ==> events[2].Asked?)
    ensures WaitBegins(events) && !IsWait(events, true) && !IsWait(events, false)
  {}

  lemma WholeWait(log: seq<Event>, from: nat, answer: Answer, asked: bool, found: bool, ok: bool)
    requires from <= |log| && log[from..] == [Masked(true), Selected(answer), Asked(asked, found), Masked(ok)]
    ensures WaitBegins(log[from..]) && |log| == from + 4 && log[|log| - 2] == Asked(asked, found)
    ensures forall f :: IsWait(log[from..], f) <==> asked && !found && ok && !answer.Broken? && Finds(answer) == f
    ensures !asked || !ok || answer.Broken? ==> exists i :: from <= i < |log| && Failing(log[i])
  {
    assert log[from + 1] == log[from..][1] && log[from + 2] == log[from..][2] && log[from + 3] == log[from..][3];
    assert !ok ==> Failing(log[from + 3]);
    assert !asked ==> Failing(log[from + 2]);
    assert answer.Broken? ==> Failing(log[from + 1]);
  }

  lemma WaitIsAwaited(log: seq<Event>, from: nat, mid: nat)
    requires from <= mid <= |log| && (forall i :: from <= i < mid ==> log[i].Controlled?) && WaitBegins(log[mid..])
    ensures Awaited(log, from)
    ensures forall i :: from <= i < |log| && ReadyAt(log, i) ==> i == mid && |log| == mid + 4
  {
    assert forall i :: mid <= i < |log| ==> log[i] == log[mid..][i - mid];
    forall i | from <= i < |log| && ReadyAt(log, i)
      ensures i == mid && |log| == mid + 4
    {
      assert log[i..i + 4][1] == log[i + 1] && log[i..i + 4][3] == log[i + 3];
    }
  }

  lemma AfterAwaiting(before: seq<Event>, log: seq<Event>, from: nat)
    requires Orderly(before, from, true) && before <= log && Awaited(log, |before|)
    ensures forall i :: from <= i < |log| && ReadyAt(log, i) ==>
      (i + 4 < |log| && log[i + 4].Fetched?) || i + 4 == |log|
    ensures forall i :: from <= i < |log| && log[i].Fetched? ==>
      i < |before| && Vain(log[i].got, true) && from + 4 <= i && ReadyAt(log, i - 4)
  {
    forall i | from <= i < |log| && ReadyAt(log, i)
      ensures (i + 4 < |log| && log[i + 4].Fetched?) || i + 4 == |log|
    {
      if i < |before| {
        assert log[i..i + 4][1] == log[i + 1] && log[i..i + 4][2] == log[i + 2];
        assert i + 4 <= |before|;
        assert before[i..i + 4] == log[i..i + 4];
        assert ReadyAt(before, i);
      }
    }
    forall i | from <= i < |log| && log[i].Fetched?
      ensures i < |before| && Vain(log[i].got, true) && from + 4 <= i && ReadyAt(log, i - 4)
    {
      assert before[i - 4..i] == log[i - 4..i];
    }
  }

  lemma GoOn(before: seq<Event>, log: seq<Event>, from: nat)
    requires Orderly(before, from, true) && before <= log && Awaited(log, |before|)
    requires !EndsReady(log, |before|) && |log| > |before| && log[|log| - 1].Masked?
    ensures Orderly(log, from, true)
  {
    AfterAwaiting(before, log, from);
    hide ReadyAt;
  }

  lemma Stop(before: seq<Event>, log: seq<Event>, from: nat, pending: Signal, r: Result)
    requires Orderly(before, from, true) && before <= log && Awaited(log, |before|)
    requires pending != 0 || r == Unfinished || !EndsReady(log, |before|)
    requires !r.Received? && !r.EndOfInput? && (log == before ==> r == Unfinished || from == |log|)
    requires log == before && from < |log| ==> pending == 0
    ensures Concluded(log, from, true, pending, r)
  {
    AfterAwaiting(before, log, from);
    hide ReadyAt;
  }

  lemma FirstWaitLonger(before: seq<Event>, log: seq<Event>, from: nat)
    requires before <= log
    ensures FirstWait(before, from) ==> FirstWait(log, from)
  {
    if from + 4 <= |before| {
      assert log[from..from + 4] == before[from..from + 4];
    }
  }

  lemma AwaitedNoneEmpty(before: seq<Event>, log: seq<Event>, from: nat)
    requires before <= log && Awaited(log, |before|) && NoneEmpty(before, from)
    ensures NoneEmpty(log, from)
  {}

  lemma StopAtOnce(log: seq<Event>, installed: bool, pending: Signal)
    ensures Concluded(log, |log|, installed, pending, Failure(EINTR))
  {}

  lemma StopBeforeReading(before: seq<Event>, log: seq<Event>, from: nat, installed: bool, pending: Signal)
    requires Orderly(before, from, installed) && before <= log && (from < |log| ==> pending == 0)
    requires if installed then Awaited(log, |before|) else log == before
    ensures Concluded(log, from, installed, pending, Unfinished)
  {
    if installed {
      Stop(before, log, from, pending, Unfinished);
    }
  }

  /** A read after a wait that has found the input, or without handlers. */
  lemma ReadConcludes(before: seq<Event>, mid: seq<Event>, from: nat, installed: bool, got: ReadAnswer, pending: Signal)
    requires Orderly(before, from, installed) && before <= mid
    requires if installed then Awaited(mid, |before|) && EndsReady(mid, |before|) else mid == before
    ensures Vain(got, installed) ==> Orderly(mid + [Fetched(got)], from, installed)
    ensures forall r :: Verdict(got, installed, pending, r) ==>
      Concluded(mid + [Fetched(got)], from, installed, pending, r)
  {
    var log := mid + [Fetched(got)];
    if installed {
      AfterAwaiting(before, mid, from);
    }
    forall i | from <= i < |log| && ReadyAt(log, i)
      ensures i + 4 < |log| && log[i + 4].Fetched?
    {
      assert log[i..i + 4][3] == log[i + 3];
      assert mid[i..i + 4] == log[i..i + 4];
      assert ReadyAt(mid, i);
    }
    forall i | from <= i < |log| && log[i].Fetched?
      ensures i < |log| - 1 ==> Vain(log[i].got, installed)
      ensures installed ==> from + 4 <= i && ReadyAt(log, i - 4)
    {
      if installed {
        assert ReadyAt(mid, i - 4) && mid[i - 4..i] == log[i - 4..i];
      }
    }
  }

  predicate Failing(event: Event) {
    match event
    case Masked(ok) => !ok
    case Selected(answer) => answer.Broken?
    case Asked(ok, _) => !ok
    case Fetched(got) => got.ReadBroken?
    case Controlled(ok) => !ok
  }

  predicate EndsMasked(log: seq<Event>, from: nat) {
    |log| > from && log[|log| - 1].Masked?
  }

  predicate SomeFailing(log: seq<Event>, from: nat) {
    exists i :: from <= i < |log| && Failing(log[i])
  }

  /** What waiting for the input does. */
  predicate AwaitDone(e1: Env, e2: Env, fd1: int, fd2: int, input: int, r: Waited) {
    && (r == WaitUnfinished ==> e2.script == [])
    && (Later(e1, e2) && e2.taken == e1.taken)
    && (r != WaitUnfinished && e2.maskFaults == e1.maskFaults ==> e2.mask == e1.mask)
    && (r == Readable || r == Retry ==> fd2 == input >= 0 && input < FD_SETSIZE)
    && (r == Readable || r == Retry ==> e2.maskFaults == e1.maskFaults)
    && (r == Readable || r == Retry ==> fd1 < 0 || fd1 == input)
    && (r == Readable ==> e2.pending == 0)
    && (r == Retry ==> |e2.script| < |e1.script|)
    && (r == Refused(EINTR) ==> e2.pending != 0 || e2.blocked != {})
    && (r == Refused(EINVAL) ==> input < 0 || input >= FD_SETSIZE || (fd1 >= 0 && fd1 != input))
    && (r == Refused(EOTHER) ==> e2.faults > e1.faults)
    && (r.Refused? ==> r.errno in {EINTR, EINVAL, EOTHER})
    && (Awaited(e2.log, |e1.log|) && e1.log <= e2.log)
    && (fd1 == input && 0 <= input < FD_SETSIZE ==> |e2.log| <= |e1.log| + 4)
    && (fd1 == input && (r == Readable || r == Retry) ==> FirstWait(e2.log, |e1.log|))
    && (r == Readable ==> EndsReady(e2.log, |e1.log|))
    && (r == Retry ==> EndsMasked(e2.log, |e1.log|) && e2.pending == 0)
    && (r != Readable && e2.pending == 0 ==> !EndsReady(e2.log, |e1.log|))
    && (fd1 == input && 0 <= input < FD_SETSIZE && e2.log == e1.log ==> r == WaitUnfinished && e2 == e1)
    && (r == Refused(EOTHER) ==> SomeFailing(e2.log, |e1.log|))
  }

  /** What one read does. */
  predicate ReadDone(e1: Env, e2: Env, count: nat, r: ReadAnswer) {
    && (|e2.script| == |e1.script| - 1)
    && (Later(e1, e2) && e2.log == e1.log + [Fetched(r)])
    && (e2.mask == e1.mask && e2.maskFaults == e1.maskFaults && e2.nonblocking == e1.nonblocking)
    && (e2.taken == e1.taken + (if r.ReadBytes? then |r.bytes| else 0))
    && (r.ReadBytes? ==> |r.bytes| <= count && (count > 0 ==> r.bytes != []))
    && (r.ReadBytes? ==> e1.taken <= e2.taken <= |e2.stream| && r.bytes == e2.stream[e1.taken..e2.taken])
    && (r.ReadEnd? ==> e2.ended && e2.taken == |e2.stream|)
    && (r.ReadAgain? ==> !e2.ended && e2.taken == |e2.stream|)
    && (r.ReadBroken? ==> e2.faults > e1.faults)
  }

  /** What a guarded read promises when it ends. */
  predicate Ended(e0: Env, e: Env, installed: bool, fd0: int, fd: int, input: int, count: nat, r: Result) {
    && (r == Unfinished ==> e.script == [])
    && (Later(e0, e))
    && (r != Unfinished && e.maskFaults == e0.maskFaults ==> e.mask == e0.mask)
    && (r.Received? ==> |r.bytes| <= count && e.taken == e0.taken + |r.bytes|)
    && (r.Received? ==> e0.taken <= e.taken <= |e.stream| && r.bytes == e.stream[e0.taken..e.taken])
    && (r.Received? && count > 0 ==> r.bytes != [])
    && (r.EndOfInput? ==> e.ended && e.taken == e0.taken == |e.stream|)
    && (r.Received? || r.EndOfInput? ==> e.pending == 0 && (installed ==> e.nonblocking && fd == input))
    && (r.Received? || r.EndOfInput? ==> (e0.mask * TerminationSet() == {} ==> e.arrived == {}))
    && (r == Failure(EINTR) ==> e.pending != 0 || e.blocked != {})
    && (r == Failure(EOTHER) ==> e.faults > e0.faults)
    && (r == Failure(EAGAIN) ==> !installed && !e.ended && e.taken == |e.stream|)
    && (r == Failure(EINVAL) ==>
        installed && (input < 0 || input >= FD_SETSIZE || (fd0 >= 0 && fd0 != input)))
    && (r.Failure? && e.pending == 0 ==> e.taken == e0.taken)
    && (Concluded(e.log, |e0.log|, installed, e.pending, r))
    && (r == Failure(EOTHER) ==> SomeFailing(e.log, |e0.log|))
    && (installed && fd0 == input && 0 <= input < FD_SETSIZE && |e.log| > |e0.log| + 4 ==>
        FirstWait(e.log, |e0.log|))
    && (e0.taken < |e0.stream| ==> NoneEmpty(e.log, |e0.log|))
  }

  predicate Ranged(input: int) {
    0 <= input < FD_SETSIZE
  }

  /** Between two turns of a guarded read. */
  predicate Head(e0: Env, e: Env, installed: bool, fd0: int, fd: int, input: int) {
    && Later(e0, e) && e.taken == e0.taken && e.mask == e0.mask && e.maskFaults == e0.maskFaults
    && (fd == fd0 || (fd == input && installed && fd0 < 0 && Ranged(input)))
    && Orderly(e.log, |e0.log|, installed) && e0.log <= e.log
    && (installed && fd0 == input && Ranged(input) && e.log != e0.log ==> FirstWait(e.log, |e0.log|))
    && (e0.taken < |e0.stream| ==> NoneEmpty(e.log, |e0.log|))
    && (e.log != e0.log ==> e.pending == 0 && (installed ==> fd == input && Ranged(input)))
  }

  /** Before a read: a wait has found the input, or there is no guard. */
  predicate Mid(e0: Env, before: Env, e: Env, installed: bool, fd0: int, fd: int, input: int) {
    && Later(e0, e) && e.taken == e0.taken && e.mask == e0.mask && e.maskFaults == e0.maskFaults && e.pending == 0
    && (fd == fd0 || (fd == input && installed && fd0 < 0 && Ranged(input)))
    && (installed ==> fd == input && Ranged(input))
    && Orderly(before.log, |e0.log|, installed) && e0.log <= before.log <= e.log
    && (if installed then Awaited(e.log, |before.log|) && EndsReady(e.log, |before.log|) else e.log == before.log)
    && (installed && fd0 == input ==> FirstWait(e.log, |e0.log|))
    && (e0.taken < |e0.stream| ==> NoneEmpty(e.log, |e0.log|))
  }

  lemma HeadBegins(e: Env, installed: bool, fd: int, input: int)
    ensures Head(e, e, installed, fd, fd, input)
  {
    LaterSame(e);
  }

  lemma EndAtOnce(e0: Env, e: Env, installed: bool, fd0: int, fd: int, input: int, count: nat)
    requires Head(e0, e, installed, fd0, fd, input) && e.pending != 0
    ensures Ended(e0, e, installed, fd0, fd, input, count, Failure(EINTR))
  {
    StopAtOnce(e.log, installed, e.pending);
    hide Later, Concluded, Orderly, FirstWait;
  }

  lemma WithoutWait(e0: Env, e: Env, fd0: int, fd: int, input: int)
    requires Head(e0, e, false, fd0, fd, input) && e.pending == 0
    ensures Mid(e0, e, e, false, fd0, fd, input)
  {
    hide Later, Orderly, FirstWait;
  }

  lemma LaterFaults(e0: Env, e1: Env, e2: Env)
    requires Later(e0, e1) && Later(e1, e2)
    ensures e0.faults <= e1.faults <= e2.faults && e0.maskFaults <= e1.maskFaults <= e2.maskFaults
    ensures e0.log <= e1.log <= e2.log
  {
    hide Calm, Tells;
  }

  lemma StopsWaiting(e0: Env, before: Env, e: Env, fd0: int, fd1: int, fd: int, input: int, count: nat,
                     waited: Waited, r: Result)
    requires Head(e0, before, true, fd0, fd1, input) && before.pending == 0
    requires AwaitDone(before, e, fd1, fd, input, waited)
    requires (waited == WaitUnfinished && r == Unfinished) || (waited.Refused? && r == Failure(waited.errno))
    ensures Ended(e0, e, true, fd0, fd, input, count, r)
  {
    hide Later, Concluded, Orderly, FirstWait, Awaited, EndsReady, NoneEmpty;
    LaterTwice(e0, before, e);
    LaterFaults(e0, before, e);
    FirstWaitLonger(before.log, e.log, |e0.log|);
    if e0.taken < |e0.stream| {
      AwaitedNoneEmpty(before.log, e.log, |e0.log|);
    }
    Stop(before.log, e.log, |e0.log|, e.pending, r);
  }

  lemma WaitsOn(e0: Env, before: Env, e: Env, fd0: int, fd1: int, fd: int, input: int, waited: Waited)
    requires Head(e0, before, true, fd0, fd1, input) && before.pending == 0
    requires AwaitDone(before, e, fd1, fd, input, waited)
    ensures waited == Retry ==> Head(e0, e, true, fd0, fd, input) && |e.script| < |before.script|
    ensures waited == Readable ==> Mid(e0, before, e, true, fd0, fd, input) && |e.script| <= |before.script|
  {
    hide Later, Concluded, Orderly, FirstWait, Awaited, EndsReady, NoneEmpty;
    LaterTwice(e0, before, e);
    LaterFaults(e0, before, e);
    LaterUses(before, e);
    FirstWaitLonger(before.log, e.log, |e0.log|);
    if e0.taken < |e0.stream| {
      AwaitedNoneEmpty(before.log, e.log, |e0.log|);
    }
    if waited == Retry {
      GoOn(before.log, e.log, |e0.log|);
    }
  }

  lemma LaterUses(e0: Env, e: Env)
    requires Later(e0, e)
    ensures |e.script| <= |e0.script|
  {}

  lemma AfterAwait(e0: Env, before: Env, e: Env, fd0: int, fd1: int, fd: int, input: int, count: nat, waited: Waited)
    requires Head(e0, before, true, fd0, fd1, input) && before.pending == 0
    requires AwaitDone(before, e, fd1, fd, input, waited)
    ensures waited == WaitUnfinished ==> Ended(e0, e, true, fd0, fd, input, count, Unfinished)
    ensures waited.Refused? ==> Ended(e0, e, true, fd0, fd, input, count, Failure(waited.errno))
    ensures waited == Retry ==> Head(e0, e, true, fd0, fd, input) && |e.script| < |before.script|
    ensures waited == Readable ==> Mid(e0, before, e, true, fd0, fd, input) && |e.script| <= |before.script|
  {
    hide Head, Mid, Ended, AwaitDone;
    if waited == WaitUnfinished {
      StopsWaiting(e0, before, e, fd0, fd1, fd, input, count, waited, Unfinished);
    } else if waited.Refused? {
      StopsWaiting(e0, before, e, fd0, fd1, fd, input, count, waited, Failure(waited.errno));
    } else {
      WaitsOn(e0, before, e, fd0, fd1, fd, input, waited);
    }
  }

  lemma EndUnread(e0: Env, before: Env, e: Env, installed: bool, fd0: int, fd: int, input: int, count: nat)
    requires Mid(e0, before, e, installed, fd0, fd, input) && e.script == []
    ensures Ended(e0, e, installed, fd0, fd, input, count, Unfinished)
  {
    hide Later, Concluded, Orderly, FirstWait, Awaited, EndsReady, NoneEmpty;
    StopBeforeReading(before.log, e.log, |e0.log|, installed, e.pending);
  }

  lemma StillNoneEmpty(e0: Env, mid: Env, e: Env, got: ReadAnswer, count: nat)
    requires Later(e0, mid) && mid.taken == e0.taken < |e0.stream| && NoneEmpty(mid.log, |e0.log|)
    requires ReadDone(mid, e, count, got)
    ensures NoneEmpty(e.log, |e0.log|)
  {
    hide Logged, Calm;
  }

  lemma AfterVainRead(e0: Env, before: Env, mid: Env, e: Env, installed: bool, fd0: int, fd: int, input: int,
                      count: nat, got: ReadAnswer)
    requires Mid(e0, before, mid, installed, fd0, fd, input) && ReadDone(mid, e, count, got)
    requires e.pending == 0 && Vain(got, installed)
    ensures Head(e0, e, installed, fd0, fd, input)
  {
    hide Later, Concluded, Orderly, FirstWait, Awaited, EndsReady, NoneEmpty;
    LaterTwice(e0, mid, e);
    FirstWaitLonger(mid.log, e.log, |e0.log|);
    ReadConcludes(before.log, mid.log, |e0.log|, installed, got, e.pending);
    if e0.taken < |e0.stream| {
      StillNoneEmpty(e0, mid, e, got, count);
    }
  }

  lemma AfterLastRead(e0: Env, before: Env, mid: Env, e: Env, installed: bool, fd0: int, fd: int, input: int,
                      count: nat, got: ReadAnswer, r: Result)
    requires Mid(e0, before, mid, installed, fd0, fd, input) && ReadDone(mid, e, count, got)
    requires Accounted(e) && (fd >= 0 ==> e.nonblocking)
    requires Verdict(got, installed, e.pending, r) && r != Unfinished
    ensures Ended(e0, e, installed, fd0, fd, input, count, r)
  {
    hide Later, Concluded, Orderly, FirstWait, Awaited, EndsReady, NoneEmpty;
    LaterTwice(e0, mid, e);
    LaterFaults(e0, mid, e);
    assert e.log[|mid.log|] == Fetched(got);
    assert got.ReadBroken? ==> Failing(e.log[|mid.log|]);
    FirstWaitLonger(mid.log, e.log, |e0.log|);
    ReadConcludes(before.log, mid.log, |e0.log|, installed, got, e.pending);
    if e0.taken < |e0.stream| {
      StillNoneEmpty(e0, mid, e, got, count);
    }
  }

  lemma AfterRead(e0: Env, before: Env, mid: Env, e: Env, installed: bool, fd0: int, fd: int, input: int, count: nat,
                  got: ReadAnswer)
    requires Mid(e0, before, mid, installed, fd0, fd, input) && ReadDone(mid, e, count, got)
    requires Accounted(e) && (fd >= 0 ==> e.nonblocking)
    ensures e.pending == 0 && Vain(got, installed) ==> Head(e0, e, installed, fd0, fd, input)
    ensures |e.script| < |mid.script|
    ensures forall r :: Verdict(got, installed, e.pending, r) && r != Unfinished ==>
      Ended(e0, e, installed, fd0, fd, input, count, r)
  {
    hide Mid, Head, Ended, Verdict, Vain;
    if e.pending == 0 && Vain(got, installed) {
      AfterVainRead(e0, before, mid, e, installed, fd0, fd, input, count, got);
    }
    forall r | Verdict(got, installed, e.pending, r) && r != Unfinished
      ensures Ended(e0, e, installed, fd0, fd, input, count, r)
    {
      AfterLastRead(e0, before, mid, e, installed, fd0, fd, input, count, got, r);
    }
  }

  class Reader {
    var e: Env
    var installed: bool
    var fd: int

    predicate Valid()
      reads this
    {
      Accounted(e) && (fd >= 0 ==> e.nonblocking)
    }

    constructor (e: Env, installed: bool)
      requires Accounted(e)
      ensures Valid() && this.e == e && this.installed == installed && fd == -1
    {
      this.e, this.installed, fd := e, installed, -1;
    }

    /** fcntl, made under the current mask. */
    method Control() returns (ok: bool)
      requires Valid() && e.script != []
      modifies this`e
      ensures |e.script| == |old(e).script| - 1
      ensures Valid() && Later(old(e), e) && e.log == old(e).log + [Controlled(ok)] && e.taken == old(e).taken
      ensures e.mask == old(e).mask && e.maskFaults == old(e).maskFaults && e.nonblocking == old(e).nonblocking
      ensures !ok ==> e.faults > old(e).faults
    {
      PassKeeps(e, e.mask);
      ok := e.script[0].answer.Answers?;
      e := Pass(e, e.mask);
      hide Pass;
      e := e.(faults := if ok then e.faults else e.faults + 1, log := e.log + [Controlled(ok)]);
      CallLogged(old(e), e, Controlled(ok));
    }

    /** sigpending: is a termination signal pending in the kernel? */
    method AskPending() returns (ok: bool, found: bool)
      requires Valid() && e.script != []
      modifies this`e
      ensures |e.script| == |old(e).script| - 1
      ensures Valid() && Later(old(e), e) && e.log == old(e).log + [Asked(ok, found)] && e.taken == old(e).taken
      ensures e.mask == old(e).mask && e.maskFaults == old(e).maskFaults && e.nonblocking == old(e).nonblocking
      ensures (found <==> e.blocked != {}) && (!ok ==> e.faults > old(e).faults)
    {
      PassKeeps(e, e.mask);
      ok := e.script[0].answer.Answers?;
      e := Pass(e, e.mask);
      hide Pass;
      found := e.blocked != {};
      e := e.(faults := if ok then e.faults else e.faults + 1, log := e.log + [Asked(ok, found)]);
      CallLogged(old(e), e, Asked(ok, found));
    }

    /** sigprocmask: what the new mask no longer blocks is delivered at once. */
    method SetMask(mask: set<Signal>) returns (ok: bool)
      requires Valid() && e.script != []
      modifies this`e
      ensures |e.script| == |old(e).script| - 1
      ensures Valid() && Later(old(e), e) && e.log == old(e).log + [Masked(ok)] && e.taken == old(e).taken
      ensures e.mask == (if ok then mask else old(e).mask) && e.nonblocking == old(e).nonblocking
      ensures ok ==> e.maskFaults == old(e).maskFaults && e.faults == old(e).faults
      ensures !ok ==> e.maskFaults > old(e).maskFaults && e.faults > old(e).faults
    {
      PassKeeps(e, e.mask);
      ok := e.script[0].answer.Answers?;
      e := Pass(e, e.mask);
      hide Pass;
      if ok {
        e := Deliver(e, mask).(mask := mask, log := e.log + [Masked(true)]);
      } else {
        e := e.(maskFaults := e.maskFaults + 1, faults := e.faults + 1, log := e.log + [Masked(false)]);
      }
      CallLogged(old(e), e, Masked(ok));
    }

    /** pselect under its own mask. */
    method Select(waitMask: set<Signal>) returns (answer: Answer)
      requires Valid() && e.script != [] && waitMask <= e.mask
      modifies this`e
      ensures |e.script| == |old(e).script| - 1
      ensures Valid() && Later(old(e), e) && e.log == old(e).log + [Selected(answer)] && e.taken == old(e).taken
      ensures e.mask == old(e).mask && e.maskFaults == old(e).maskFaults && e.nonblocking == old(e).nonblocking
      ensures answer.Broken? ==> e.faults > old(e).faults
    {
      PassKeeps(e, waitMask);
      answer := e.script[0].answer;
      e := Pass(e, waitMask);
      hide Pass;
      e := e.(faults := if answer.Broken? then e.faults + 1 else e.faults, log := e.log + [Selected(answer)]);
      CallLogged(old(e), e, Selected(answer));
    }

    /** read: the next bytes, the end, or nothing; it would block only on a descriptor that blocks. */
    method ReadOnce(count: nat) returns (r: ReadAnswer)
      requires Valid() && e.script != []
      modifies this`e
      ensures Valid() && ReadDone(old(e), e, count, r)
    {
      PassKeeps(e, e.mask);
      var answer := e.script[0].answer;
      e := Pass(e, e.mask);
      hide Pass;
      var available := |e.stream| - e.taken;
      var wanted := if answer.Answers? && 0 < answer.n < count then answer.n else count;
      var amount := if wanted < available then wanted else available;
      r := if answer.Broken? then ReadBroken
           else if answer.Interrupted? then ReadInterrupted
           else if count == 0 then ReadBytes([])
           else if available > 0 then ReadBytes(e.stream[e.taken..e.taken + amount])
           else if e.ended then ReadEnd
           else ReadAgain;
      e := e.(taken := if r.ReadBytes? then e.taken + |r.bytes| else e.taken,
              faults := if r.ReadBroken? then e.faults + 1 else e.faults, log := e.log + [Fetched(r)]);
      CallLogged(old(e), e, Fetched(r));
    }

    /** The first guarded read of a descriptor makes it non-blocking; there is one input only. */
    method Attach(input: int) returns (r: Waited)
      requires Valid() && installed
      modifies this`e, this`fd
      ensures r == WaitUnfinished ==> e.script == []
      ensures Valid() && Later(old(e), e) && e.taken == old(e).taken && e.maskFaults == old(e).maskFaults
      ensures e.mask == old(e).mask
      ensures r == Readable ==> fd == input >= 0
      ensures r != Readable ==> fd == old(fd)
      ensures r == Refused(EINVAL) <==> input < 0 || input >= FD_SETSIZE || (old(fd) >= 0 && old(fd) != input)
      ensures r != WaitUnfinished ==>
        forall w :: Agrees(w, old(e), old(fd), input) ==>
          var (w', ok) := AttachInput(w, input, r == Refused(EOTHER), false);
          ok == (r == Readable) && Agrees(w', e, fd, input)
      ensures r.Refused? && r.errno != EINVAL ==> r.errno == EOTHER && e.faults > old(e).faults
      ensures r != Retry
      // At most two calls of fcntl, and the descriptor is attached unless one of them fails.
      ensures |e.log| <= |old(e).log| + 2 && old(e).log <= e.log
      ensures forall i :: |old(e).log| <= i < |e.log| ==> e.log[i].Controlled?
      ensures r == Refused(EOTHER) <==> |e.log| > |old(e).log| && e.log[|e.log| - 1] == Controlled(false)
      ensures old(fd) == input && 0 <= input < FD_SETSIZE ==> r == Readable && e == old(e)
    {
      LaterSame(e);
      hide Logged;
      if input < 0 || input >= FD_SETSIZE {
        return Refused(EINVAL);
      }
      if fd == input {
        return Readable;
      }
      if fd >= 0 {
        return Refused(EINVAL);
      }
      if e.script == [] {
        return WaitUnfinished;
      }
      ghost var before := e;
      var ok := Control();
      LaterTwice(old(e), before, e);
      if !ok {
        return Refused(EOTHER);
      }
      if !e.nonblocking {
        if e.script == [] {
          return WaitUnfinished;
        }
        before := e;
        ok := Control();
        LaterTwice(old(e), before, e);
        if !ok {
          return Refused(EOTHER);
        }
        e := e.(nonblocking := true);
        NonblockingLater(old(e), e.(nonblocking := false));
      }
      fd := input;
      r := Readable;
    }

    /** Wait with the signals unblocked only inside pselect, and put the mask back before looking at the outcome. */
    method WaitInput() returns (r: Waited)
      requires Valid() && fd >= 0
      modifies this`e
      ensures r == WaitUnfinished ==> e.script == []
      ensures Valid() && Later(old(e), e) && e.taken == old(e).taken && e.nonblocking == old(e).nonblocking
      ensures r != WaitUnfinished && e.maskFaults == old(e).maskFaults ==> e.mask == old(e).mask
      ensures r == Readable ==> e.pending == 0 && e.maskFaults == old(e).maskFaults
      ensures r == Retry ==> e.maskFaults == old(e).maskFaults && |e.script| < |old(e).script|
      ensures r == Refused(EINTR) ==> e.pending != 0 || e.blocked != {}
      ensures r.Refused? ==> r.errno == EINTR || (r.errno == EOTHER && e.faults > old(e).faults)
      // The calls are those of one wait, and the input is reported exactly if pselect has found it and
      // neither a signal nor a fault has come between.
      ensures old(e).log <= e.log
      ensures WaitBegins(e.log[|old(e).log|..]) && (r != WaitUnfinished ==> |e.log| > |old(e).log|)
      ensures e.log == old(e).log ==> e == old(e)
      ensures r == Readable <==>
        && e.pending == 0 && |e.log| == |old(e).log| + 4
        && var n := |old(e).log|;
        && e.log[n] == Masked(true) && e.log[n + 2] == Asked(true, false) && e.log[n + 3] == Masked(true)
        && e.log[n + 1].Selected? && e.log[n + 1].answer.Answers? && e.log[n + 1].answer.n > 0
      ensures r == Readable <==> e.pending == 0 && IsWait(e.log[|old(e).log|..], true)
      ensures r == Retry <==> e.pending == 0 && IsWait(e.log[|old(e).log|..], false)
      ensures r == Refused(EOTHER) ==> exists i :: |old(e).log| <= i < |e.log| && Failing(e.log[i])
      ensures r == Refused(EINTR) ==>
        e.pending != 0 || (|e.log| == |old(e).log| + 4 && e.log[|e.log| - 2] == Asked(true, true))
    {
      LaterSame(e);
      hide Logged;
      ghost var e0 := e;
      if e.script == [] {
        return WaitUnfinished;
      }
      var original := e.mask;
      var ok := SetMask(original + TerminationSet());
      ghost var e1 := e;
      assert e.log[|e0.log|..] == [Masked(ok)];
      assert e.log[|e0.log|] == Masked(ok);
      if !ok {
        return Refused(EOTHER);
      }
      if e.script == [] {
        return WaitUnfinished;
      }
      if e.pending != 0 {
        ok := SetMask(original);
        LaterTwice(e0, e1, e);
        assert e.log[|e0.log|..] == [Masked(true), Masked(ok)];
        return Refused(EINTR);
      }
      r := WaitUnblocked(original, e0);
      LaterTwice(e0, e1, e);
    }

    /** The rest of a wait, once the signals are blocked. */
    method WaitUnblocked(original: set<Signal>, ghost e0: Env) returns (r: Waited)
      requires Valid() && e.script != [] && e.pending == 0 && e.mask == original + TerminationSet()
      requires e.log == e0.log + [Masked(true)]
      modifies this`e
      ensures r == WaitUnfinished ==> e.script == []
      ensures Valid() && Later(old(e), e) && e.taken == old(e).taken && e.nonblocking == old(e).nonblocking
      ensures old(e).log <= e.log && |e.script| < |old(e).script| && e.faults >= old(e).faults
      ensures r != WaitUnfinished && e.maskFaults == old(e).maskFaults ==> e.mask == original
      ensures r == Readable || r == Retry ==> e.maskFaults == old(e).maskFaults
      ensures r == Refused(EINTR) ==> e.pending != 0 || e.blocked != {}
      ensures r.Refused? ==> r.errno == EINTR || (r.errno == EOTHER && e.faults > old(e).faults)
      ensures WaitBegins(e.log[|e0.log|..])
      ensures r == Readable <==> e.pending == 0 && IsWait(e.log[|e0.log|..], true)
      ensures r == Retry <==> e.pending == 0 && IsWait(e.log[|e0.log|..], false)
      ensures r == Refused(EOTHER) ==> exists i :: |e0.log| <= i < |e.log| && Failing(e.log[i])
      ensures r == Refused(EINTR) ==>
        e.pending != 0 || (|e.log| == |e0.log| + 4 && e.log[|e.log| - 2] == Asked(true, true))
    {
      hide Logged, Calm, WaitBegins, IsWait, Failing;
      ghost var e1 := e;
      var answer := Select(original - TerminationSet());
      ghost var e2 := e;
      assert e.log[|e0.log|..] == [Masked(true), Selected(answer)];
      ShortWait(e.log[|e0.log|..]);
      if e.script == [] {
        return WaitUnfinished;
      }
      var asked, kernelPending := AskPending();
      ghost var e3 := e;
      LaterTwice(e1, e2, e3);
      assert e.log[|e0.log|..] == [Masked(true), Selected(answer), Asked(asked, kernelPending)];
      ShortWait(e.log[|e0.log|..]);
      if e.script == [] {
        return WaitUnfinished;
      }
      var ok := SetMask(original);
      LaterTwice(e1, e3, e);
      assert e.log[|e0.log|..] == [Masked(true), Selected(answer), Asked(asked, kernelPending), Masked(ok)];
      WholeWait(e.log, |e0.log|, answer, asked, kernelPending, ok);
      if e.pending != 0 || (asked && kernelPending) {
        return Refused(EINTR);
      }
      if !asked || !ok || answer.Broken? {
        return Refused(EOTHER);
      }
      r := if answer.Answers? && answer.n > 0 then Readable else Retry;
    }

    method AwaitInput(input: int) returns (r: Waited)
      requires Valid() && installed
      modifies this`e, this`fd
      ensures Valid() && AwaitDone(old(e), e, old(fd), fd, input, r)
    {
      hide Accounted, Logged;
      r := Attach(input);
      ghost var attached := e;
      if r == Readable {
        r := WaitInput();
        LaterTwice(old(e), attached, e);
      }
      ghost var mid := |attached.log|;
      assert |e.log| >= mid + 4 ==> e.log[mid..] == e.log[mid..mid + 4] + e.log[mid + 4..];
      assert |e.log| == mid + 4 ==> e.log[mid..mid + 4] == e.log[mid..];
      WaitIsAwaited(e.log, |old(e).log|, |attached.log|);
    }

    /**
      Read once there is input. Bytes or the end are only reported when no termination signal is
      recorded; bytes that were read when one arrives are dropped. The mask is as it was.
     */
    method ReadRetry(input: int, count: nat) returns (r: Result)
      requires Valid()
      modifies this`e, this`fd
      ensures r == Unfinished ==> e.script == []
      ensures Valid() && Later(old(e), e)
      ensures r != Unfinished && e.maskFaults == old(e).maskFaults ==> e.mask == old(e).mask
      ensures r.Received? ==> |r.bytes| <= count && e.taken == old(e).taken + |r.bytes|
      ensures r.Received? ==> r.bytes == e.stream[old(e).taken..e.taken] && (count > 0 ==> r.bytes != [])
      ensures r.EndOfInput? ==> e.ended && e.taken == old(e).taken == |e.stream|
      ensures r.Received? || r.EndOfInput? ==> e.pending == 0 && (installed ==> e.nonblocking && fd == input)
      ensures r.Received? || r.EndOfInput? ==> (old(e).mask * TerminationSet() == {} ==> e.arrived == {})
      ensures r == Failure(EINTR) ==> e.pending != 0 || e.blocked != {}
      ensures r == Failure(EOTHER) ==> e.faults > old(e).faults
      ensures r == Failure(EAGAIN) ==> !installed && !e.ended && e.taken == |e.stream|
      ensures r == Failure(EINVAL) ==>
        installed && (input < 0 || input >= FD_SETSIZE || (old(fd) >= 0 && old(fd) != input))
      ensures r.Failure? && e.pending == 0 ==> e.taken == old(e).taken
      // Every wait that finds the input is followed by a read, and the first read that is not in vain decides.
      ensures Concluded(e.log, |old(e).log|, installed, e.pending, r)
      ensures r == Failure(EOTHER) ==> exists i :: |old(e).log| <= i < |e.log| && Failing(e.log[i])
      // On a descriptor that is attached already it begins with a wait.
      ensures installed && old(fd) == input && 0 <= input < FD_SETSIZE && |e.log| > |old(e).log| + 4 ==>
        FirstWait(e.log, |old(e).log|)
      ensures old(e).taken < |old(e).stream| ==> NoneEmpty(e.log, |old(e).log|)
    {
      HeadBegins(e, installed, fd, input);
      var turn := None;
      hide Head;
      while turn.None?
        invariant Valid()
        invariant turn.None? ==> Head(old(e), e, installed, old(fd), fd, input)
        invariant turn.Some? ==> Ended(old(e), e, installed, old(fd), fd, input, count, turn.value)
        decreases if turn.None? then 1 else 0, |e.script|
      {
        turn := ReadTurn(input, count, old(e), old(fd));
      }
      r := turn.value;
    }

    /** One turn: None asks for another wait. */
    method ReadTurn(input: int, count: nat, ghost e0: Env, ghost fd0: int) returns (r: Option<Result>)
      requires Valid() && Head(e0, e, installed, fd0, fd, input)
      modifies this`e, this`fd
      ensures Valid()
      ensures r.None? ==> Head(e0, e, installed, fd0, fd, input) && |e.script| < |old(e).script|
      ensures r.Some? ==> Ended(e0, e, installed, fd0, fd, input, count, r.value)
    {
      hide Pass, Deliver, Head, Ended, Mid, AwaitDone;
      ghost var before := e;
      if e.pending != 0 {
        EndAtOnce(e0, e, installed, fd0, fd, input, count);
        return Some(Failure(EINTR));
      }
      if installed {
        var waited := AwaitInput(input);
        AfterAwait(e0, before, e, fd0, old(fd), fd, input, count, waited);
        if waited == WaitUnfinished {
          return Some(Unfinished);
        }
        if waited.Refused? {
          return Some(Failure(waited.errno));
        }
        if waited == Retry {
          return None;
        }
      } else {
        WithoutWait(e0, e, fd0, fd, input);
      }
      ghost var mid := e;
      if e.script == [] {
        EndUnread(e0, before, e, installed, fd0, fd, input, count);
        return Some(Unfinished);
      }
      var received := ReadOnce(count);
      AfterRead(e0, before, mid, e, installed, fd0, fd, input, count, received);
      if e.pending != 0 {
        return Some(Failure(EINTR));
      }
      match received
      case ReadBytes(bytes) => return Some(Received(bytes));
      case ReadEnd => return Some(EndOfInput);
      case ReadBroken => return Some(Failure(EOTHER));
      case ReadInterrupted => return None;
      case ReadAgain => return if installed then None else Some(Failure(EAGAIN));
    }
  }

  /**
    One wait is enough: without signals and faults, pselect finds the input, and the read that follows
    hands over exactly the next bytes.
   */
  method OneWaitIsEnough(reader: Reader, count: nat) returns (r: Result)
    requires reader.Valid() && reader.installed && 0 <= reader.fd < FD_SETSIZE && Calm(reader.e)
    requires |reader.e.script| == 5 && forall i :: 0 <= i < 5 ==> reader.e.script[i].answer.Answers?
    requires reader.e.script[1].answer.n > 0 && reader.e.taken < |reader.e.stream| && count > 0
    modifies reader
    ensures r.Received? && 0 < |r.bytes| <= count && old(reader.e).stream <= reader.e.stream
    ensures reader.e.taken == old(reader.e).taken + |r.bytes| <= |reader.e.stream|
    ensures r.bytes == reader.e.stream[old(reader.e).taken..reader.e.taken]
  {
    ghost var e0 := reader.e;
    r := reader.ReadRetry(reader.fd, count);
    CalmRun(e0, reader.e);
    NoFault(e0, reader.e);
    if |reader.e.log| == |e0.log| + 5 {
      OneWaitDecides(e0, reader.e, r);
    }
    assert r.Failure? ==> r.errno == EINTR || r.errno == EAGAIN || r.errno == EINVAL || r.errno == EOTHER;
  }

  lemma CalmRun(e0: Env, e: Env)
    requires Later(e0, e) && Calm(e0)
    ensures e.pending == 0 && e.blocked == {}
  {}

  lemma NoFault(e0: Env, e: Env)
    requires Later(e0, e) && forall i :: 0 <= i < |e0.script| ==> e0.script[i].answer.Answers?
    ensures forall i :: |e0.log| <= i < |e.log| ==> !Failing(e.log[i])
  {
    assert forall i :: |e0.log| <= i < |e.log| ==> Tells(e0.script[i - |e0.log|].answer, e.log[i]);
  }

  lemma OneWaitDecides(e0: Env, e: Env, r: Result)
    requires Later(e0, e) && |e0.script| == 5 && forall i :: 0 <= i < 5 ==> e0.script[i].answer.Answers?
    requires e0.script[1].answer.n > 0 && e.pending == 0 && Concluded(e.log, |e0.log|, true, 0, r)
    requires |e.log| == |e0.log| + 5 && FirstWait(e.log, |e0.log|) && NoneEmpty(e.log, |e0.log|)
    ensures r.Received?
  {
    var from := |e0.log|;
    assert e.log[from..from + 4][1] == e.log[from + 1];
    assert Tells(e0.script[1].answer, e.log[from + 1]);
    assert ReadyAt(e.log, from);
    assert Tells(e0.script[4].answer, e.log[from + 4]);
    assert Verdict(e.log[from + 4].got, true, 0, r);
  }
}
