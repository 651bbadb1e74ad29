/**
  The parent's side of the one-shot analysis worker: creating it, waiting for events, reading its
  output, and ending it. The kernel is an explicit value: a finite script decides, one tick for each
  system call, how much time passes, whether a termination signal arrives, what the child does in
  the meantime, and what the call answers. A call without a tick returns Unfinished.
 */
module Worker {
  import opened Bytes
  import opened Deadlines
  import opened Trails
  import WorkerChild

  const POLL_SLICE_MS := 25
  const SLICE_NS := 25_000_000
  const MAX_TIMEOUT_MS := 300000

  // ---- The kernel ----

  datatype Status = Exited(code: nat) | Signaled

  /** What the child does between two system calls of the parent: write, close its end, exit. */
  datatype ChildAct = ChildAct(bytes: seq<byte>, closes: bool, exits: Option<Status>)

  datatype Answer =
    | Count(n: nat)
    | Ready(input: bool, invalid: bool)
    | Interrupted
    | WouldBlock
    | Ends(readFd: int, writeFd: int)
    | Spoils(lost: bool, left: set<int>)
    | Broken(released: bool)

  datatype Tick = Tick(elapsed: nat, waited: nat, signal: nat, act: ChildAct, answer: Answer)

  /** The latest child: running, exited but not yet waited for, or reaped. */
  datatype Child = NoChild | Running(pid: int) | Zombie(pid: int, status: Status) | Reaped(pid: int, status: Status)

  /**
    How often: `polls`, `blind` ones among them that did not watch the pipe, `ready` ones that found it
    readable and no signal, `spins` ones that ran out of no time at all; `fetches` reads of the pipe,
    `got` among them that were not in vain; and `checks` whether the child has exited.
   */
  datatype Counts = Counts(polls: nat, blind: nat, ready: nat, spins: nat, fetches: nat, got: nat, checks: nat)

  predicate Grew(a: Counts, b: Counts) {
    && a.polls <= b.polls && a.blind <= b.blind && a.ready <= b.ready && a.fetches <= b.fetches
    && a.got <= b.got && a.checks <= b.checks && a.spins <= b.spins
  }

  /**
    The counters record what must not happen: `doubleCloses` of descriptors that are not open,
    `lateSignals` to a child that is already reaped, `orphans` left unreaped when the next child is
    created. `kills` and `waits` count the signals sent and the waits for a child's exit, `input` is
    what the last poll said about the client. `stuck` are descriptors that a failed close left open.
    `busy` is the time that was not spent waiting inside poll, and `lostEnds` are pipe ends that begin
    closed with a failure report although they were released. `found` is what each poll has found.
    `log` holds one entry for each system call, made when the call starts.
   */
  datatype Kernel = Kernel(
    script: seq<Tick>, now: nat, busy: nat, checked: nat,
    pending: nat, pendingSince: nat,
    written: seq<byte>, taken: nat, writerOpen: bool,
    child: Child, autoReap: bool,
    open_: set<int>, stuck: set<int>,
    doubleCloses: nat, lateSignals: nat, orphans: nat, waitFaults: nat, closeFaults: nat, faults: nat,
    interruptions: nat, kills: nat, waits: nat, input: bool, lostEnds: nat,
    counts: Counts, found: seq<Polled>, log: seq<Moment>)

  function Present(k: Kernel): Moment {
    Moment(k.now, k.busy, k.pending != 0, k.interruptions)
  }

  function TrailOf(k: Kernel): Trail {
    Trail(Present(k), k.pendingSince, |k.script|, k.log)
  }

  /** The pipe has bytes that were not taken, or is at its end. */
  predicate Readable(k: Kernel) {
    k.taken < |k.written| || !k.writerOpen
  }

  function Fault(k: Kernel): Kernel {
    k.(faults := k.faults + 1)
  }

  function Interruption(k: Kernel): Kernel {
    k.(interruptions := k.interruptions + 1)
  }

  predicate FailedChild(k: Kernel) {
    k.child.Reaped? && k.child.status != Exited(0)
  }

  predicate Unreaped(c: Child) {
    c.Running? || c.Zombie?
  }

  function Ended(k: Kernel, status: Status): Kernel
    requires k.child.Running?
  {
    k.(child := if k.autoReap then Reaped(k.child.pid, status) else Zombie(k.child.pid, status), writerOpen := false)
  }

  function Act(k: Kernel, a: ChildAct): Kernel {
    if !k.child.Running? then k
    else
      var wrote := if k.writerOpen then k.(written := k.written + a.bytes, writerOpen := !a.closes) else k;
      if a.exits.Some? then Ended(wrote, a.exits.value) else wrote
  }

  /** A signal that arrives is recorded unless an earlier one is. */
  function Signal(k: Kernel, signal: nat): Kernel {
    if k.pending == 0 && signal != 0 then k.(pending := signal, pendingSince := k.now) else k
  }

  /** One system call that does not wait: time passes, the child acts, a signal may arrive. */
  function Pass(k: Kernel): Kernel
    requires k.script != []
  {
    var t := k.script[0];
    var s := Act(Signal(k, t.signal), t.act);
    s.(script := k.script[1..], now := k.now + t.elapsed, busy := k.busy + t.elapsed,
       log := k.log + [Present(k)])
  }

  /** poll: waits no longer than its timeout, and all of it when it times out. */
  function PollPass(k: Kernel, timeoutMs: int): Kernel
    requires k.script != []
  {
    var t := k.script[0];
    var limit := timeoutMs * NS_PER_MS;
    var waited := if timeoutMs >= 0 && (t.answer == Count(0) || t.waited > limit) then limit else t.waited;
    var p := Pass(k);
    p.(now := p.now + waited)
  }

  /** How a child can change while the parent does not wait for it. */
  predicate ChildLater(a: Child, b: Child, autoReap: bool) {
    a == b || (a.Running? && !b.NoChild? && b.pid == a.pid && (if autoReap then b.Reaped? else b.Zombie?))
  }

  /** What every system call keeps. */
  predicate Flow(k0: Kernel, k: Kernel) {
    && |k.script| <= |k0.script| && k0.now <= k.now && k0.busy <= k.busy && Follows(TrailOf(k0), TrailOf(k))
    && (k0.pending != 0 ==> k.pending == k0.pending && k.pendingSince == k0.pendingSince)
    && (k0.pending == 0 && k.pending != 0 ==> k0.now <= k.pendingSince)
    && k0.written <= k.written && (!k0.writerOpen ==> !k.writerOpen && k.written == k0.written)
    && (k0.child.Running? && !k.child.Running? ==> !k.writerOpen)
    && k.autoReap == k0.autoReap && k0.faults <= k.faults && k0.interruptions <= k.interruptions
    && k0.kills <= k.kills && k0.waits <= k.waits && (k0.waits < k.waits ==> k0.kills < k.kills)
    && Grew(k0.counts, k.counts) && k0.found <= k.found
  }

  /** What only waiting, closing, signalling and forking change. */
  predicate Rest(k0: Kernel, k: Kernel) {
    && k.open_ == k0.open_ && k.stuck == k0.stuck && k.doubleCloses == k0.doubleCloses
    && k.lateSignals == k0.lateSignals && k.orphans == k0.orphans && k.waitFaults == k0.waitFaults
    && k.closeFaults == k0.closeFaults && k.lostEnds == k0.lostEnds && ChildLater(k0.child, k.child, k0.autoReap)
  }

  /** Time that was spent waiting inside poll: the clock less the busy time. */
  function Idle(k: Kernel): int {
    k.now - k.busy
  }

  /** No poll, and so no waiting inside one. */
  predicate Unpolled(k0: Kernel, k: Kernel) {
    Idle(k) == Idle(k0) && k.counts == k0.counts && k.found == k0.found
  }

  /** At most n calls, and one for each interruption, none of them waiting inside poll. */
  predicate Brief(k0: Kernel, k: Kernel, n: nat) {
    Late(TrailOf(k0), TrailOf(k), Anytime, n, 1) && Idle(k) == Idle(k0)
  }

  lemma BriefNothing(k: Kernel)
    ensures Brief(k, k, 0) && Brief(k, k, 1) && Follows(TrailOf(k), TrailOf(k))
  {}

  lemma BriefAnyway(k0: Kernel, k: Kernel, n: nat, m: nat)
    requires Brief(k0, k, n) && n <= m
    ensures Brief(k0, k, m)
  {
    LateAnyway(TrailOf(k0), TrailOf(k), Anytime, n, m, 1);
  }

  lemma BriefTwice(k0: Kernel, k1: Kernel, k2: Kernel, m: nat, n: nat)
    requires Follows(TrailOf(k0), TrailOf(k1)) && Follows(TrailOf(k1), TrailOf(k2))
    requires Brief(k0, k1, m) && Brief(k1, k2, n)
    ensures Brief(k0, k2, m + n)
  {
    LateTwice(TrailOf(k0), TrailOf(k1), TrailOf(k2), Anytime, m, n, 1);
  }

  /** One more call, which counts unless it is interrupted. */
  lemma BriefOnce(k0: Kernel, k1: Kernel, k2: Kernel, m: nat)
    requires Follows(TrailOf(k0), TrailOf(k1)) && Follows(TrailOf(k1), TrailOf(k2))
    requires Brief(k0, k1, m) && |k1.script| == |k2.script| + 1 && Idle(k1) == Idle(k2)
    ensures Brief(k0, k2, m + 1)
    ensures k2.interruptions > k1.interruptions ==> Brief(k0, k2, m)
  {
    OneCall(TrailOf(k1), TrailOf(k2), Anytime, 1);
    LateTwice(TrailOf(k0), TrailOf(k1), TrailOf(k2), Anytime, m, 1, 1);
    if k2.interruptions > k1.interruptions {
      LateTwice(TrailOf(k0), TrailOf(k1), TrailOf(k2), Anytime, m, 0, 1);
    }
  }

  /** At most one call, that is not late if it starts before the cut. */
  lemma CutShort(k0: Kernel, k: Kernel, cut: Cut)
    requires Later(k0, k) && |k0.script| <= |k.script| + 1
    ensures Follows(TrailOf(k0), TrailOf(k)) && Late(TrailOf(k0), TrailOf(k), cut, 1, 0)
    ensures !Past(Present(k0), cut) || !Past(Present(k), cut) ==> Late(TrailOf(k0), TrailOf(k), cut, 0, 0)
  {
    OneCall(TrailOf(k0), TrailOf(k), cut, 0);
    if !Past(Present(k), cut) {
      NotPast(TrailOf(k0), TrailOf(k), cut, 0);
    }
  }

  lemma TwoChecks(k0: Kernel, k1: Kernel, k2: Kernel, cut: Cut)
    requires Later(k0, k1) && |k0.script| <= |k1.script| + 1
    requires Later(k1, k2) && |k1.script| <= |k2.script| + 1
    ensures !Past(Present(k0), cut) ==> Late(TrailOf(k0), TrailOf(k2), cut, 1, 0)
    ensures !Past(Present(k1), cut) ==> Late(TrailOf(k0), TrailOf(k2), cut, 0, 0)
    ensures !Past(Present(k1), cut) ==> Late(TrailOf(k0), TrailOf(k2), cut, 1, 0)
  {
    CutShort(k0, k1, cut);
    CutShort(k1, k2, cut);
    if !Past(Present(k1), cut) {
      CutTwice(k0, k1, k2, cut, 0, 0);
    } else if !Past(Present(k0), cut) {
      CutTwice(k0, k1, k2, cut, 0, 1);
    }
  }

  lemma FlowFacts(k0: Kernel, k: Kernel)
    requires Flow(k0, k)
    ensures k0.faults <= k.faults && k0.interruptions <= k.interruptions && |k.script| <= |k0.script|
    ensures Grew(k0.counts, k.counts) && k0.found <= k.found
    ensures k0.now <= k.now && |k0.written| <= |k.written| && k.autoReap == k0.autoReap
    ensures !k0.writerOpen ==> !k.writerOpen && k.written == k0.written
    ensures k0.pending != 0 ==> k.pending != 0
    ensures k0.pending == 0 && k.pending != 0 ==> k0.now <= k.pendingSince
  {}

  /** What follows a poll starts before the cut if the poll does, but for one call. */
  lemma PollEnds(k0: Kernel, k1: Kernel, k2: Kernel, cut: Cut)
    requires Later(k0, k1) && |k0.script| == |k1.script| + 1 && Later(k1, k2)
    requires Late(TrailOf(k1), TrailOf(k2), cut, 1, 0)
    ensures !Past(Present(k0), cut) ==> Late(TrailOf(k0), TrailOf(k2), cut, 1, 0)
    ensures !Past(Present(k0), cut) && Late(TrailOf(k1), TrailOf(k2), cut, 0, 0) ==>
      Late(TrailOf(k0), TrailOf(k2), cut, 0, 0)
  {
    CutShort(k0, k1, cut);
    if !Past(Present(k0), cut) {
      CutTwice(k0, k1, k2, cut, 0, 1);
    }
  }

  /** A turn ends after a poll and what follows it, and only before the cut once it has polled. */
  lemma TurnEnds(k0: Kernel, k1: Kernel, k2: Kernel, cut: Cut, n: nat)
    requires Later(k0, k1) && |k0.script| <= |k1.script| + 3 && Later(k1, k2)
    requires Late(TrailOf(k1), TrailOf(k2), cut, n, 0)
    ensures Late(TrailOf(k0), TrailOf(k2), cut, 3 + n, 0)
    ensures !Past(Present(k1), cut) ==> Late(TrailOf(k0), TrailOf(k2), cut, n, 0)
    ensures !Past(Present(k1), cut) && Late(TrailOf(k1), TrailOf(k2), cut, 0, 0) ==>
      Late(TrailOf(k0), TrailOf(k2), cut, 0, 0)
  {
    FewCalls(TrailOf(k0), TrailOf(k1), cut, 3, 0);
    LateTwice(TrailOf(k0), TrailOf(k1), TrailOf(k2), cut, 3, n, 0);
    if !Past(Present(k1), cut) {
      NotPast(TrailOf(k0), TrailOf(k1), cut, 0);
      LateTwice(TrailOf(k0), TrailOf(k1), TrailOf(k2), cut, 0, n, 0);
    }
  }

  /** A turn goes on only before the caller's limit or after an interruption. */
  lemma TurnGoesOn(k0: Kernel, k1: Kernel, k2: Kernel, limit: int)
    requires Later(k0, k1) && |k0.script| <= |k1.script| + 3 && Later(k1, k2)
    requires k2.now < limit || (|k1.script| == |k2.script| + 1 && k2.interruptions > k1.interruptions)
    ensures Late(TrailOf(k0), TrailOf(k2), TimeIs(limit), 0, 4)
  {
    FollowsTwice(TrailOf(k0), TrailOf(k1), TrailOf(k2));
    if k2.now < limit {
      NotPast(TrailOf(k0), TrailOf(k2), TimeIs(limit), 4);
    } else {
      LateInterrupted(TrailOf(k0), TrailOf(k1), TrailOf(k2), TimeIs(limit));
    }
  }

  /** Of the calls, n start past the limit, and c more for each interruption since; and it is waited for no longer. */
  predicate Punctual(k0: Kernel, k: Kernel, limit: int, n: nat, c: nat) {
    Late(TrailOf(k0), TrailOf(k), TimeIs(limit), n, c) && Timely(TrailOf(k0), TrailOf(k), limit)
  }

  /** Nothing was found. */
  predicate Negative(e: Event) {
    e in {WorkerDeadline, WorkerEof, NoEvent, EventUnfinished}
  }

  /** None of the polls since k0 has found anything. */
  predicate NoneFound(k0: Kernel, k: Kernel) {
    k0.found <= k.found && forall i :: |k0.found| <= i < |k.found| ==> !Hit(k.found[i])
  }

  /** None of the polls since k0 has run out of time. */
  predicate NoneIdle(k0: Kernel, k: Kernel) {
    k0.found <= k.found && forall i :: |k0.found| <= i < |k.found| ==> k.found[i] != TimedOut
  }

  /** Only the last poll since k0 may have run out of time. */
  predicate IdleAtLast(k0: Kernel, k: Kernel) {
    k0.found <= k.found && forall i :: |k0.found| <= i < |k.found| - 1 ==> k.found[i] != TimedOut
  }

  lemma IdleLater(k0: Kernel, k1: Kernel, k2: Kernel)
    requires NoneIdle(k0, k1)
    ensures NoneIdle(k1, k2) ==> NoneIdle(k0, k2)
    ensures IdleAtLast(k1, k2) ==> IdleAtLast(k0, k2)
  {}

  lemma NothingFound(k: Kernel)
    ensures NoneFound(k, k)
  {}

  lemma StillNothing(k0: Kernel, k1: Kernel, k2: Kernel)
    requires NoneFound(k0, k1)
    ensures NoneFound(k1, k2) ==> NoneFound(k0, k2)
  {}

  lemma IdleUnpolled(k0: Kernel, k1: Kernel)
    requires Unpolled(k0, k1)
    ensures NoneIdle(k0, k1) && IdleAtLast(k0, k1)
  {}

  lemma IdleOnce(k0: Kernel, k1: Kernel, k2: Kernel, r: Polled)
    requires k1.found == k0.found + [r] && Unpolled(k1, k2)
    ensures IdleAtLast(k0, k2) && (r != TimedOut ==> NoneIdle(k0, k2))
  {}

  /** Waiting goes on: nothing has been found, no limit has been passed, no signal has been waited on. */
  predicate Underway(k0: Kernel, k: Kernel, settles: bool, worker: Option<int>, caller: Option<int>) {
    && Later(k0, k) && NoneFound(k0, k) && (settles ==> NoneIdle(k0, k))
    && |k0.script| <= |k.script| + 6 * (k.counts.polls - k0.counts.polls) && k.counts.spins == k0.counts.spins
    && (worker.Some? ==> Punctual(k0, k, worker.value, 0, 0) && Heard(TrailOf(k0), TrailOf(k), 0))
    && (caller.Some? ==> Punctual(k0, k, caller.value, 0, 4))
    && Late(TrailOf(k0), TrailOf(k), SignalIsRecorded, 1, 0)
  }

  lemma UnderwayAtOnce(k: Kernel, settles: bool, worker: Option<int>, caller: Option<int>)
    ensures Underway(k, k, settles, worker, caller) && Later(k, k)
  {
    WaitNothing(k);
    NothingFound(k);
    IdleUnpolled(k, k);
    hide Later, NoneFound, NoneIdle, Punctual, Heard, Late;
  }

  /** Only once the caller's time is over may a poll run out of no time at all, and then it is the last. */
  predicate Spinning(k0: Kernel, k: Kernel, caller: Option<int>) {
    && k.counts.spins <= k0.counts.spins + 1
    && (k.counts.spins > k0.counts.spins ==> caller.Some? && caller.value <= k.now)
  }

  /** What one turn of waiting keeps, whether it goes on or not. */
  predicate OneWait(k1: Kernel, k2: Kernel, worker: Option<int>, caller: Option<int>) {
    && Later(k1, k2) && |k1.script| <= |k2.script| + 6 && IdleAtLast(k1, k2)
    && Spinning(k1, k2, caller)
    && (worker.Some? ==>
          Idle(k2) <= Max(Idle(k1), worker.value + NS_PER_MS - k1.busy) && Idle(k2) <= Idle(k1) + SLICE_NS)
    && (caller.Some? ==> Idle(k2) <= Max(Idle(k1), caller.value + NS_PER_MS - k1.busy))
  }

  lemma StillUnderway(k0: Kernel, k1: Kernel, k2: Kernel, settles: bool, worker: Option<int>, caller: Option<int>)
    requires Underway(k0, k1, settles, worker, caller) && OneWait(k1, k2, worker, caller)
    requires k2.counts.polls == k1.counts.polls + 1 && k2.counts.spins == k1.counts.spins
    requires NoneFound(k1, k2) && (settles ==> NoneIdle(k1, k2))
    requires worker.Some? ==> Late(TrailOf(k1), TrailOf(k2), TimeIs(worker.value), 0, 0)
    requires caller.Some? ==> Late(TrailOf(k1), TrailOf(k2), TimeIs(caller.value), 0, 4)
    requires k1.pending == 0 && Late(TrailOf(k1), TrailOf(k2), SignalIsRecorded, 1, 0)
    requires k2.pending != 0 ==> Idle(k2) + k1.busy <= k2.pendingSince
    ensures Underway(k0, k2, settles, worker, caller)
  {
    hide Later, NoneFound, NoneIdle, IdleAtLast, Punctual, Heard, Late;
    LaterTwice(k0, k1, k2);
    StillNothing(k0, k1, k2);
    if settles {
      IdleLater(k0, k1, k2);
    }
    if worker.Some? {
      TurnAfter(k0, k1, k2, worker.value, 0, 0);
      TurnIsHeard(k0, k1, k2, true);
    }
    if caller.Some? {
      TurnAfter(k0, k1, k2, caller.value, 0, 4);
    }
    NotCut(k0, k1, SignalIsRecorded);
    CutTwice(k0, k1, k2, SignalIsRecorded, 0, 1);
  }

  lemma WaitEnds(k0: Kernel, k1: Kernel, k2: Kernel, settles: bool, worker: Option<int>, caller: Option<int>, e: Event)
    requires Underway(k0, k1, settles, worker, caller) && OneWait(k1, k2, worker, caller)
    requires Answered(k1, k2, e) && Late(TrailOf(k1), TrailOf(k2), SignalIsRecorded, 4, 0)
    requires worker.Some? ==> Late(TrailOf(k1), TrailOf(k2), TimeIs(worker.value), 2, 0)
    ensures Answered(k0, k2, e) && (settles ==> IdleAtLast(k0, k2)) && KeepsPolling(k0, k2, 6)
    ensures Spinning(k0, k2, caller)
    ensures worker.Some? ==> Punctual(k0, k2, worker.value, 2, 0) && Heard(TrailOf(k0), TrailOf(k2), SLICE_NS)
    ensures caller.Some? ==> Punctual(k0, k2, caller.value, 6, 4)
    ensures Late(TrailOf(k0), TrailOf(k2), SignalIsRecorded, 5, 0)
  {
    LaterCounts(k1, k2);
    hide Later, NoneFound, NoneIdle, IdleAtLast, Punctual, Heard, Late, Answered;
    AnsweredLater(k0, k1, k2, e);
    if settles {
      IdleLater(k0, k1, k2);
    }
    if worker.Some? {
      TurnAfter(k0, k1, k2, worker.value, 2, 0);
      TurnIsHeard(k0, k1, k2, false);
    }
    if caller.Some? {
      TurnAfter(k0, k1, k2, caller.value, 6, 4);
    }
    CutTwice(k0, k1, k2, SignalIsRecorded, 1, 4);
  }

  /** The loop begins after at most one reading of the clock. */
  lemma LoopEnds(k0: Kernel, k1: Kernel, k2: Kernel, e: Event)
    requires Later(k0, k1) && Later(k1, k2) && Unpolled(k0, k1) && |k0.script| <= |k1.script| + 1
    requires Answered(k1, k2, e) && KeepsPolling(k1, k2, 6) && k1.pending == 0
    requires Late(TrailOf(k1), TrailOf(k2), SignalIsRecorded, 5, 0)
    ensures Later(k0, k2) && Answered(k0, k2, e) && KeepsPolling(k0, k2, 7) && k0.counts == k1.counts
    ensures IdleAtLast(k1, k2) ==> IdleAtLast(k0, k2)
    ensures Late(TrailOf(k0), TrailOf(k2), SignalIsRecorded, 5, 0)
  {
    LaterTwice(k0, k1, k2);
    IdleUnpolled(k0, k1);
    IdleLater(k0, k1, k2);
    KeepsPollingLater(k0, k1, k2);
    FirstAnswer(k0, k1, k2, e);
    SignalEnds(k0, k1, k2);
    hide Later, Answered, KeepsPolling, IdleAtLast, Late, NoneIdle;
  }

  lemma LaterCounts(k0: Kernel, k: Kernel)
    requires Later(k0, k)
    ensures k0.counts.polls <= k.counts.polls
  {}

  /** What a poll's finding is answered with: a signal goes first. */
  predicate AnswerTo(p: Polled, pending: nat, e: Event) {
    if pending != 0 then e == Termination
    else
      match p
      case Readied(input, worker, invalid) => e == if invalid then EventError(EBADF) else Events(input, worker)
      case _ => e == EventError(EOTHER)
  }

  /** Only the last poll can have found something, and it is answered. "Nothing" is only said after a poll. */
  predicate Answered(k0: Kernel, k: Kernel, e: Event) {
    && k0.found <= k.found
    && (forall i :: |k0.found| <= i < |k.found| && Hit(k.found[i]) ==>
          i == |k.found| - 1 && AnswerTo(k.found[i], k.pending, e))
    && (e == NoEvent || e == WorkerEof ==> |k.found| > |k0.found| && NoneFound(k0, k))
    && (e.Events? ==> |k.found| > |k0.found| && k.found[|k.found| - 1] == Readied(e.input, e.worker, false))
  }

  /** The limit is no further than the longest timeout from now. */
  predicate Near(k: Kernel, limit: Timespec) {
    limit.Ns() <= k.now + MAX_TIMEOUT_MS * NS_PER_MS
  }

  /** At least every sixth call is a poll. */
  predicate KeepsPolling(k0: Kernel, k: Kernel, n: nat) {
    |k0.script| <= |k.script| + 6 * (k.counts.polls - k0.counts.polls) + n
  }

  /** No signal has arrived before k1, so it is heard as from there. */
  lemma HeardLater(k0: Kernel, k1: Kernel, k2: Kernel)
    requires Later(k0, k1) && Later(k1, k2) && k1.pending == 0
    requires Heard(TrailOf(k0), TrailOf(k1), 0) && Heard(TrailOf(k1), TrailOf(k2), SLICE_NS)
    ensures Heard(TrailOf(k0), TrailOf(k2), SLICE_NS)
  {
    HeardTwice(TrailOf(k0), TrailOf(k1), TrailOf(k2), 0, SLICE_NS);
  }

  lemma NoHit(k0: Kernel, k: Kernel)
    requires Unpolled(k0, k) && |k0.script| <= |k.script| + 1
    ensures KeepsPolling(k0, k, 7) && k.counts == k0.counts
    ensures forall e: Event :: e.EventError? || e == Termination || e == EventUnfinished ==> Answered(k0, k, e)
  {}

  /** Without a poll, an answer that does not need one. */
  lemma Unasked(k0: Kernel, k: Kernel)
    requires Unpolled(k0, k)
    ensures forall e: Event :: !e.Events? && e != NoEvent && e != WorkerEof ==> Answered(k0, k, e)
    ensures k.counts == k0.counts && Idle(k) == Idle(k0)
  {}

  /** What a poll promises, promised by the turn that has prepared it. */
  lemma TurnSince(k0: Kernel, k1: Kernel, k2: Kernel)
    requires Later(k0, k1) && Later(k1, k2) && Unpolled(k0, k1) && |k0.script| <= |k1.script| + 3
    requires Late(TrailOf(k1), TrailOf(k2), SignalIsRecorded, 1, 0) && IdleAtLast(k1, k2)
    ensures Later(k0, k2) && k1.counts == k0.counts && Idle(k1) == Idle(k0)
    ensures forall e: Event :: Answered(k1, k2, e) ==> Answered(k0, k2, e)
    ensures NoneFound(k1, k2) ==> NoneFound(k0, k2)
    ensures IdleAtLast(k0, k2) && (NoneIdle(k1, k2) ==> NoneIdle(k0, k2))
    ensures Late(TrailOf(k0), TrailOf(k2), SignalIsRecorded, 4, 0)
    ensures k1.pending == 0 ==> Late(TrailOf(k0), TrailOf(k2), SignalIsRecorded, 1, 0)
  {
    LaterTwice(k0, k1, k2);
    IdleUnpolled(k0, k1);
    IdleLater(k0, k1, k2);
    AskedSince(k0, k1, k2);
    TurnEnds(k0, k1, k2, SignalIsRecorded, 1);
    hide Later, Late, Answered, NoneFound, NoneIdle, IdleAtLast;
  }

  lemma TurnUnasked(k0: Kernel, k: Kernel)
    requires Later(k0, k) && Unpolled(k0, k) && |k0.script| <= |k.script| + 3
    ensures Late(TrailOf(k0), TrailOf(k), SignalIsRecorded, 4, 0)
    ensures forall e: Event :: !e.Events? && e != NoEvent && e != WorkerEof ==> Answered(k0, k, e)
    ensures k.counts == k0.counts && Idle(k) == Idle(k0)
  {
    FewCalls(TrailOf(k0), TrailOf(k), SignalIsRecorded, 4, 0);
    Unasked(k0, k);
    hide Late;
  }

  lemma AskedSince(k0: Kernel, k1: Kernel, k2: Kernel)
    requires Unpolled(k0, k1)
    ensures forall e: Event :: Answered(k1, k2, e) ==> Answered(k0, k2, e)
    ensures NoneFound(k1, k2) ==> NoneFound(k0, k2)
    ensures k1.counts == k0.counts && Idle(k1) == Idle(k0)
  {}

  lemma FirstAnswer(k0: Kernel, k1: Kernel, k2: Kernel, e: Event)
    requires Unpolled(k0, k1) && Answered(k1, k2, e)
    ensures Answered(k0, k2, e) && k0.counts == k1.counts
  {}

  /** What a poll may be answered with at once. */
  lemma PollAnswered(k0: Kernel, k: Kernel, r: Polled, timeoutMs: int, watch: bool)
    requires k.counts == AfterPolling(k0.counts, r, timeoutMs, watch, k.pending) && k.found == k0.found + [r]
    ensures k.counts.polls == k0.counts.polls + 1 && (watch ==> k.counts.blind == k0.counts.blind)
    ensures k.counts.spins == k0.counts.spins + if r.TimedOut? && timeoutMs < 1 then 1 else 0
    ensures !Hit(r) ==> NoneFound(k0, k)
    ensures k.pending != 0 ==> Answered(k0, k, Termination)
    ensures k.pending == 0 && r == PollFailed ==> Answered(k0, k, EventError(EOTHER))
    ensures k.pending == 0 && r.Readied? && Hit(r) ==>
      Answered(k0, k, if r.invalid then EventError(EBADF) else Events(r.input, r.worker))
  {}

  /** After a poll that found nothing, any answer that says no more. */
  lemma IdleAnswered(k0: Kernel, k1: Kernel, k2: Kernel)
    requires |k1.found| > |k0.found| && NoneFound(k0, k1) && Unpolled(k1, k2)
    ensures NoneFound(k0, k2)
    ensures forall e: Event :: !e.Events? ==> Answered(k0, k2, e)
  {}

  lemma AnsweredLater(k0: Kernel, k1: Kernel, k2: Kernel, e: Event)
    requires NoneFound(k0, k1) && Answered(k1, k2, e)
    ensures Answered(k0, k2, e)
  {}

  lemma KeepsPollingLater(k0: Kernel, k1: Kernel, k2: Kernel)
    requires Unpolled(k0, k1) && |k0.script| <= |k1.script| + 1 && KeepsPolling(k1, k2, 6)
    ensures KeepsPolling(k0, k2, 7)
  {}

  /** When the caller's time is up: its timeout after the first reading of the clock. */
  function CallerEnd(k0: Kernel, k: Kernel, timeoutMs: int): int {
    FirstReading(TrailOf(k0), TrailOf(k)) + timeoutMs * NS_PER_MS
  }

  lemma PunctualTwice(k0: Kernel, k1: Kernel, k2: Kernel, limit: int, m: nat, n: nat, c: nat)
    requires Later(k0, k1) && Later(k1, k2) && Punctual(k0, k1, limit, m, c) && Punctual(k1, k2, limit, n, c)
    ensures Punctual(k0, k2, limit, m + n, c)
  {
    LateTwice(TrailOf(k0), TrailOf(k1), TrailOf(k2), TimeIs(limit), m, n, c);
    TimelyTwice(TrailOf(k0), TrailOf(k1), TrailOf(k2), limit);
  }

  /** The same for a deadline and a signal, but for the calls that bring the worker to its end. */
  predicate Prompt(k0: Kernel, k: Kernel, limit: int, n: nat) {
    && Punctual(k0, k, limit, n, 1) && Late(TrailOf(k0), TrailOf(k), SignalIsRecorded, n, 1)
    && Heard(TrailOf(k0), TrailOf(k), SLICE_NS)
  }

  lemma PromptAnyway(k0: Kernel, k: Kernel, limit: int, n: nat, m: nat)
    requires Prompt(k0, k, limit, n) && n <= m
    ensures Prompt(k0, k, limit, m)
  {
    hide Timely, Heard;
  }

  lemma PromptTwice(k0: Kernel, k1: Kernel, k2: Kernel, limit: int, m: nat, n: nat)
    requires Flow(k0, k1) && Flow(k1, k2) && Prompt(k0, k1, limit, m) && Prompt(k1, k2, limit, n)
    requires k1.pending != 0 ==> Idle(k2) == Idle(k1)
    ensures Prompt(k0, k2, limit, m + n)
  {
    hide Follows, Late, Timely, Heard;
    LateTwice(TrailOf(k0), TrailOf(k1), TrailOf(k2), TimeIs(limit), m, n, 1);
    LateTwice(TrailOf(k0), TrailOf(k1), TrailOf(k2), SignalIsRecorded, m, n, 1);
    TimelyTwice(TrailOf(k0), TrailOf(k1), TrailOf(k2), limit);
    HeardTwice(TrailOf(k0), TrailOf(k1), TrailOf(k2), SLICE_NS, 0);
  }

  lemma BriefIsPrompt(k0: Kernel, k: Kernel, limit: int, n: nat)
    requires Flow(k0, k) && Brief(k0, k, n)
    ensures Prompt(k0, k, limit, n)
  {
    LateAnyway(TrailOf(k0), TrailOf(k), TimeIs(limit), n, n, 1);
    LateAnyway(TrailOf(k0), TrailOf(k), SignalIsRecorded, n, n, 1);
    Quiet(TrailOf(k0), TrailOf(k), limit, SLICE_NS);
  }

  lemma PromptThenBrief(k0: Kernel, k1: Kernel, k2: Kernel, limit: int, m: nat, n: nat)
    requires Flow(k0, k1) && Flow(k1, k2) && Prompt(k0, k1, limit, m) && Brief(k1, k2, n)
    ensures Prompt(k0, k2, limit, m + n)
  {
    BriefIsPrompt(k1, k2, limit, n);
    PromptTwice(k0, k1, k2, limit, m, n);
  }

  /** While neither the limit has passed nor a signal is recorded, nothing is late. */
  lemma PromptSoFar(k0: Kernel, k: Kernel, limit: int, n: nat)
    requires Flow(k0, k) && Prompt(k0, k, limit, n) && k.now < limit && k.pending == 0
    ensures Prompt(k0, k, limit, 0)
  {
    NotPast(TrailOf(k0), TrailOf(k), TimeIs(limit), 1);
    NotPast(TrailOf(k0), TrailOf(k), SignalIsRecorded, 1);
    hide Timely, Heard, Late, Follows;
  }

  /** One reading of the clock before the limit, other calls, and one poll for what is left or a slice. */
  lemma GuardedPoll(k0: Kernel, k1: Kernel, k2: Kernel, k3: Kernel, limit: int, timeoutMs: nat)
    requires Flow(k0, k1) && Flow(k1, k2) && Flow(k2, k3) && k0.pending == 0 && timeoutMs <= POLL_SLICE_MS
    requires |k0.script| == |k1.script| + 1 && |k2.script| <= |k1.script| <= |k2.script| + 1
    requires |k2.script| == |k3.script| + 1
    requires Idle(k0) == Idle(k1) == Idle(k2) && Idle(k3) <= Idle(k2) + timeoutMs * NS_PER_MS
    requires k1.now < limit && k1.now + timeoutMs * NS_PER_MS < limit + NS_PER_MS
    ensures Prompt(k0, k3, limit, 2) && (k2 == k1 ==> Prompt(k0, k3, limit, 1))
  {
    var a, b, c, d := TrailOf(k0), TrailOf(k1), TrailOf(k2), TrailOf(k3);
    FlowTwice(k0, k1, k2);
    FlowTwice(k0, k2, k3);
    FewCalls(c, d, TimeIs(limit), 1, 1);
    NotPast(a, b, TimeIs(limit), 1);
    OneCall(b, c, TimeIs(limit), 1);
    LateTwice(a, b, c, TimeIs(limit), 0, 0, 1);
    OneCall(c, d, TimeIs(limit), 1);
    LateTwice(a, c, d, TimeIs(limit), 0, 1, 1);
    OneCall(a, b, SignalIsRecorded, 1);
    FewCalls(b, d, SignalIsRecorded, if k2 == k1 then 1 else 2, 1);
    LateTwice(a, b, d, SignalIsRecorded, 0, if k2 == k1 then 1 else 2, 1);
    TimelyOnce(a, d, limit);
    HeardOnce(a, d, SLICE_NS);
  }

  /** One poll that watches the pipe, and whether it found the pipe readable. */
  predicate PolledOnce(a: Counts, b: Counts, timeoutMs: int, ready: bool) {
    && b == a.(polls := a.polls + 1, ready := a.ready + (if ready then 1 else 0), spins := b.spins)
    && (timeoutMs >= 1 ==> b.spins == a.spins)
  }

  /** One read, unless the run stops before it; a read that is not in vain is answered. */
  predicate ReadOnce(a: Counts, b: Counts, r: ReadResult) {
    && b == a.(fetches := b.fetches, got := b.got, checks := b.checks)
    && (if r == ReadUnfinished then a.fetches <= b.fetches <= a.fetches + 1 else b.fetches == a.fetches + 1)
    && a.got <= b.got <= a.got + 1 && (r == NotReady ==> b.got == a.got)
    && (b.got > a.got ==>
      r.Bytes? || r.Eof? || r == ReadError(EINTR) || r == ReadError(EOTHER) || r == ReadUnfinished)
    && (r.Bytes? || r.Eof? ==> b.got > a.got)
  }

  /** The first read that is not in vain is the last, and is answered unless a signal or a fault comes first. */
  predicate GotAnswer(a: Counts, b: Counts, r: ReadResult) {
    && (r == NotReady ==> b.got == a.got) && b.got <= a.got + 1
    && (b.got > a.got ==>
      r.Bytes? || r.Eof? || r == ReadError(EINTR) || r == ReadError(EOTHER) || r == ReadUnfinished)
    && (r == Eof || (r.Bytes? && r.bytes != []) ==> b.got > a.got)
  }

  /** Reading the pipe is all that is counted. */
  predicate OnlyFetched(k0: Kernel, k: Kernel) {
    k.counts == k0.counts.(fetches := k.counts.fetches, got := k.counts.got)
  }

  lemma ReadNothing(a: Counts)
    ensures ReadOnce(a, a, ReadUnfinished)
  {}

  lemma ReadAnswers(a: Counts, b: Counts, received: PipeRead)
    requires b == AfterReading(a, received)
    ensures received.Data? ==> ReadOnce(a, b, Bytes(received.bytes))
    ensures received.EndOfFile? ==> ReadOnce(a, b, Eof)
    ensures received.ReadAgain? || received.ReadInterrupted? ==> ReadOnce(a, b, NotReady)
  {}

  lemma ReadThenEnded(a: Counts, k1: Kernel, k2: Kernel, received: PipeRead, r: ReadResult)
    requires k1.counts == AfterReading(a, received) && OnlyChecked(k1, k2) && Flow(k1, k2)
    requires r == ReadError(EINTR) || r == ReadError(EOTHER) || r == ReadUnfinished
    ensures ReadOnce(a, k2.counts, r)
  {
    hide Follows;
  }

  lemma NoPolls(k0: Kernel, k1: Kernel, k2: Kernel)
    requires Unpolled(k0, k1) && OnlyChecked(k1, k2) && Flow(k1, k2)
    ensures forall open_: nat, eofSeen: bool :: Tended(k0.counts, k2.counts, open_, eofSeen)
  {
    hide Follows;
  }

  /** Looking for the child's exit is all that is counted. */
  predicate OnlyChecked(k0: Kernel, k: Kernel) {
    k.counts == k0.counts.(checks := k.counts.checks)
  }

  /** No poll. */
  predicate NotPolled(a: Counts, b: Counts) {
    && b.polls == a.polls && b.blind == a.blind && b.ready == a.ready && b.spins == a.spins
    && a.checks <= b.checks && a.fetches <= b.fetches
  }

  /** At most one poll, which watches the pipe while its end was not seen, and the pipe is read if it was readable. */
  predicate PolledAndRead(a: Counts, b: Counts, open_: nat, eofSeen: bool) {
    && b.polls <= a.polls + 1 && b.spins == a.spins && a.checks <= b.checks && a.fetches <= b.fetches
    && b.ready - a.ready <= b.fetches - a.fetches + open_ && (!eofSeen ==> b.blind == a.blind)
  }

  /** No more polls than looks for the child's exit, and the pipe is watched and read. */
  predicate Tended(a: Counts, b: Counts, open_: nat, eofSeen: bool) {
    && b.polls - a.polls <= b.checks - a.checks && b.spins == a.spins
    && b.ready - a.ready <= b.fetches - a.fetches + open_ && (!eofSeen ==> b.blind == a.blind)
  }

  lemma TendedTwice(a: Counts, b: Counts, c: Counts, open_: nat, early: bool, late: bool)
    requires Tended(a, b, 0, early) && Tended(b, c, open_, late)
    ensures Tended(a, c, open_, early || late)
  {}

  /** Each time the pipe is found readable it is read, all but the last time when a reader stops there. */
  predicate Fetches(a: Counts, b: Counts, open_: nat) {
    && a.blind == b.blind && a.spins == b.spins
    && b.fetches - a.fetches <= b.ready - a.ready <= b.fetches - a.fetches + open_
  }

  /** Four calls for each poll, one for each interruption, and n more. */
  predicate Polling(k0: Kernel, k: Kernel, n: nat) {
    |k0.script| <= |k.script| + 4 * (k.counts.polls - k0.counts.polls) + (k.interruptions - k0.interruptions) + n
  }

  /** How many calls a brief end takes. */
  lemma BriefCount(k0: Kernel, k: Kernel, n: nat)
    requires Flow(k0, k) && Brief(k0, k, n)
    ensures |k0.script| <= |k.script| + n + (k.interruptions - k0.interruptions) && k0.counts.polls <= k.counts.polls
    ensures k0.interruptions <= k.interruptions
  {
    var a, b := TrailOf(k0), TrailOf(k);
    if |b.log| > |a.log| {
      assert Past(b.log[|a.log|], Anytime);
    }
  }

  lemma PromptNothing(k: Kernel, limit: int)
    ensures Flow(k, k) && forall n: nat :: Prompt(k, k, limit, n)
  {}

  /** One more turn of a loop that goes on only before the limit and without a signal. */
  lemma GoOn(k0: Kernel, k1: Kernel, k2: Kernel, limit: int, goesOn: bool, m: nat, n: nat)
    requires Flow(k0, k1) && Flow(k1, k2) && Prompt(k0, k1, limit, m)
    requires Prompt(k1, k2, limit, if goesOn then m else n)
    requires k1.pending != 0 ==> Idle(k2) == Idle(k1)
    requires goesOn ==> k1.now < limit && k1.pending == 0
    ensures Prompt(k0, k2, limit, if goesOn then m else m + n)
  {
    hide Flow, Prompt;
    if goesOn {
      PromptSoFar(k0, k1, limit, m);
      PromptTwice(k0, k1, k2, limit, 0, m);
    } else {
      PromptTwice(k0, k1, k2, limit, m, n);
    }
  }

  /** A guard that refuses, and the end of the worker. */
  lemma RefusedIsPrompt(k0: Kernel, k1: Kernel, k2: Kernel, limit: int)
    requires Flow(k0, k1) && Flow(k1, k2) && Brief(k0, k1, 1) && Brief(k1, k2, 4)
    ensures Prompt(k0, k2, limit, 6) && Brief(k0, k2, 6) && Idle(k2) == Idle(k0)
  {
    hide Follows, Late, Prompt;
    FlowTwice(k0, k1, k2);
    BriefTwice(k0, k1, k2, 1, 4);
    BriefAnyway(k0, k2, 5, 6);
    BriefIsPrompt(k0, k2, limit, 6);
  }

  lemma FlowSame(k: Kernel)
    ensures Flow(k, k)
  {}

  lemma BriefRead(k0: Kernel, k: Kernel)
    requires Flow(k0, k) && |k0.script| == |k.script| + 1 && Idle(k) == Idle(k0)
    ensures Brief(k0, k, 1) && Brief(k0, k, 5)
  {
    BriefNothing(k0);
    hide Follows, Late;
    BriefOnce(k0, k0, k, 0);
    BriefAnyway(k0, k, 1, 5);
  }

  lemma BriefThen(k0: Kernel, k1: Kernel, k2: Kernel)
    requires Flow(k0, k1) && Flow(k1, k2) && Brief(k0, k1, 1) && Brief(k1, k2, 4)
    ensures Flow(k0, k2) && Brief(k0, k2, 5) && k0.faults <= k1.faults <= k2.faults
  {
    FlowTwice(k0, k1, k2);
    BriefTwice(k0, k1, k2, 1, 4);
  }

  lemma NeverBack(k0: Kernel, k: Kernel)
    requires Flow(k0, k)
    ensures Idle(k0) <= Idle(k)
  {}

  lemma BriefTwo(k0: Kernel, k1: Kernel, k2: Kernel)
    requires Flow(k0, k1) && Flow(k1, k2) && Brief(k0, k1, 1) && |k1.script| == |k2.script| + 1 && Idle(k2) == Idle(k1)
    ensures Brief(k0, k2, 2) && Brief(k0, k2, 7)
  {
    hide Follows, Late;
    BriefOnce(k0, k1, k2, 1);
    BriefAnyway(k0, k2, 2, 7);
  }

  lemma SevenCalls(k0: Kernel, k1: Kernel, k2: Kernel, n: nat)
    requires Flow(k0, k1) && Flow(k1, k2) && Brief(k0, k1, 2) && Brief(k1, k2, n) && n <= 5
    ensures Brief(k0, k2, 7)
  {
    hide Follows, Late;
    BriefTwice(k0, k1, k2, 2, n);
    BriefAnyway(k0, k2, 2 + n, 7);
  }

  lemma SixCalls(k0: Kernel, k1: Kernel, k2: Kernel)
    requires Flow(k0, k1) && Flow(k1, k2) && Brief(k0, k1, 1) && Brief(k1, k2, 5)
    ensures Brief(k0, k2, 6)
  {
    hide Follows, Late;
    BriefTwice(k0, k1, k2, 1, 5);
  }

  /** One more call; it counts unless it is interrupted. */
  lemma OneMore(k0: Kernel, k1: Kernel, k2: Kernel, n: nat)
    requires Flow(k0, k1) && Flow(k1, k2) && Brief(k0, k1, n)
    requires (|k1.script| == |k2.script| + 1 && Idle(k2) == Idle(k1)) || Brief(k1, k2, 1)
    ensures Brief(k0, k2, n + 1)
    ensures |k1.script| == |k2.script| + 1 && k2.interruptions > k1.interruptions ==> Brief(k0, k2, n)
  {
    hide Follows, Late;
    if |k1.script| == |k2.script| + 1 && Idle(k2) == Idle(k1) {
      BriefOnce(k0, k1, k2, n);
    } else {
      BriefTwice(k0, k1, k2, n, 1);
    }
  }

  /** waitpid, and draining `bytes` bytes before the end. */
  lemma ExitIsBrief(k0: Kernel, k1: Kernel, k2: Kernel, bytes: nat)
    requires Flow(k0, k1) && Flow(k1, k2) && Brief(k0, k1, 1) && Brief(k1, k2, 2 + bytes)
    ensures Brief(k0, k2, 5 + bytes)
  {
    hide Follows, Late;
    BriefTwice(k0, k1, k2, 1, 2 + bytes);
    BriefAnyway(k0, k2, 3 + bytes, 5 + bytes);
  }

  lemma ExitIsPrompt(k0: Kernel, k1: Kernel, k2: Kernel, limit: int, bytes: nat)
    requires Flow(k0, k1) && Flow(k1, k2) && Brief(k0, k1, 1) && Brief(k1, k2, 5 + bytes)
    ensures Prompt(k0, k2, limit, 7 + bytes)
  {
    hide Follows, Late, Prompt;
    FlowTwice(k0, k1, k2);
    BriefTwice(k0, k1, k2, 1, 5 + bytes);
    BriefIsPrompt(k0, k2, limit, 6 + bytes);
    PromptAnyway(k0, k2, limit, 6 + bytes, 7 + bytes);
  }

  /** Draining leaves a reaped worker with its read end. */
  lemma StillReaped(k0: Kernel, k: Kernel, readFd: int)
    requires Sound(k0) && k0.open_ == k0.stuck + {readFd} && readFd !in k0.stuck && k0.child.Reaped?
    requires Flow(k0, k) && Rest(k0, k)
    ensures Sound(k) && k.open_ == k.stuck + {readFd} && readFd !in k.stuck && k.child == k0.child
  {
    hide Follows;
  }

  lemma BriefLast(k0: Kernel, k1: Kernel, k2: Kernel)
    requires Flow(k0, k1) && Flow(k1, k2) && Brief(k0, k1, 1) && Brief(k1, k2, 1)
    ensures Brief(k0, k2, 5)
  {
    hide Follows, Late;
    BriefTwice(k0, k1, k2, 1, 1);
    BriefAnyway(k0, k2, 2, 5);
  }

  /** waitpid finds no child although the worker was not waited for. */
  lemma ReapedUnasked(k0: Kernel, k: Kernel, pid: int, readFd: int, eofSeen: bool)
    requires Attends(k0, pid, readFd, eofSeen) && Rest(k0, k) && k.child.Reaped?
    ensures k0.autoReap
  {}

  /** A child that waitpid has reaped: nothing more can come from it. */
  lemma GotFacts(k0: Kernel, k: Kernel, pid: int, readFd: int, eofSeen: bool)
    requires Sound(k0) && Attends(k0, pid, readFd, eofSeen) && Flow(k0, k) && k.taken == k0.taken
    requires Rest(k0, k.(child := k0.child)) && k.child.Reaped?
    ensures Sound(k) && k.open_ == k.stuck + {readFd} && readFd !in k.stuck
    ensures k.taken <= |k.written| && !k.writerOpen && k0.faults <= k.faults
    ensures eofSeen ==> k.taken == |k.written| && k.written == k0.written
  {
    hide Follows;
  }

  lemma PunctualAtOnce(k: Kernel, limit: int, n: nat, c: nat)
    ensures Punctual(k, k, limit, n, c)
  {}

  lemma WaitNothing(k: Kernel)
    ensures Later(k, k) && forall limit: int, n: nat, c: nat :: Punctual(k, k, limit, n, c)
    ensures Late(TrailOf(k), TrailOf(k), SignalIsRecorded, 5, 0) && Late(TrailOf(k), TrailOf(k), SignalIsRecorded, 1, 0)
    ensures Heard(TrailOf(k), TrailOf(k), 0)
  {}

  /** What reading the clock once for the caller's limit leaves to be waited for. */
  lemma PrepareWait(k0: Kernel, k: Kernel, limit: int)
    requires Later(k0, k) && |k0.script| <= |k.script| + 1 && Unpolled(k0, k)
    ensures Punctual(k0, k, limit, 3, 0) && Late(TrailOf(k0), TrailOf(k), SignalIsRecorded, 5, 0)
    ensures Heard(TrailOf(k0), TrailOf(k), SLICE_NS)
    ensures forall other: int :: Punctual(k0, k, other, 7, 4)
  {
    FewCalls(TrailOf(k0), TrailOf(k), Anytime, 1, 0);
    Quiet(TrailOf(k0), TrailOf(k), limit, SLICE_NS);
    forall other: int
      ensures Punctual(k0, k, other, 7, 4)
    {
      FewCalls(TrailOf(k0), TrailOf(k), TimeIs(other), 7, 4);
      Quiet(TrailOf(k0), TrailOf(k), other, 0);
    }
  }

  /** A reading of the clock, and a wait that begins without a signal. */
  lemma SignalEnds(k0: Kernel, k1: Kernel, k2: Kernel)
    requires Later(k0, k1) && Later(k1, k2) && k1.pending == 0
    requires Late(TrailOf(k1), TrailOf(k2), SignalIsRecorded, 5, 0)
    ensures Late(TrailOf(k0), TrailOf(k2), SignalIsRecorded, 5, 0)
  {
    NotCut(k0, k1, SignalIsRecorded);
    CutTwice(k0, k1, k2, SignalIsRecorded, 0, 5);
  }

  lemma WorkerEnds(k0: Kernel, k1: Kernel, k2: Kernel, limit: int)
    requires Later(k0, k1) && Later(k1, k2) && k1.pending == 0
    requires |k0.script| <= |k1.script| + 1 && Unpolled(k0, k1)
    requires Punctual(k1, k2, limit, 2, 0) && Heard(TrailOf(k1), TrailOf(k2), SLICE_NS)
    ensures Punctual(k0, k2, limit, 3, 0) && Heard(TrailOf(k0), TrailOf(k2), SLICE_NS)
  {
    FewCalls(TrailOf(k0), TrailOf(k1), TimeIs(limit), 1, 0);
    Quiet(TrailOf(k0), TrailOf(k1), limit, 0);
    PunctualTwice(k0, k1, k2, limit, 1, 2, 0);
    HeardLater(k0, k1, k2);
  }

  lemma CallerEnds(k0: Kernel, k1: Kernel, k2: Kernel, timeoutMs: int)
    requires Later(k0, k1) && Later(k1, k2) && |k0.script| == |k1.script| + 1 && Unpolled(k0, k1)
    requires Punctual(k1, k2, k1.now + timeoutMs * NS_PER_MS, 6, 4)
    ensures Punctual(k0, k2, CallerEnd(k0, k2, timeoutMs), 7, 4)
  {
    var limit := k1.now + timeoutMs * NS_PER_MS;
    SameEnd(k0, k1, k2, timeoutMs);
    FewCalls(TrailOf(k0), TrailOf(k1), TimeIs(limit), 1, 4);
    Quiet(TrailOf(k0), TrailOf(k1), limit, 0);
    PunctualTwice(k0, k1, k2, limit, 1, 6, 4);
  }

  /** Waiting on does not change when the first reading ended. */
  lemma SameEnd(k0: Kernel, k1: Kernel, k2: Kernel, timeoutMs: int)
    requires Later(k0, k1) && Later(k1, k2) && |k0.script| == |k1.script| + 1
    ensures CallerEnd(k0, k2, timeoutMs) == k1.now + timeoutMs * NS_PER_MS
  {}

  lemma TurnIsPunctual(k0: Kernel, k: Kernel, limit: int, n: nat, c: nat)
    requires Later(k0, k) && |k0.script| <= |k.script| + 6
    requires Idle(k) <= Max(Idle(k0), limit + NS_PER_MS - k0.busy)
    requires Late(TrailOf(k0), TrailOf(k), TimeIs(limit), n, c) || n >= 6
    ensures Punctual(k0, k, limit, n, c)
  {
    if n >= 6 {
      FewCalls(TrailOf(k0), TrailOf(k), TimeIs(limit), n, c);
    }
    TimelyOnce(TrailOf(k0), TrailOf(k), limit);
  }

  lemma TurnAfter(k0: Kernel, k1: Kernel, k2: Kernel, limit: int, n: nat, c: nat)
    requires Later(k0, k1) && Later(k1, k2) && |k1.script| <= |k2.script| + 6 && Punctual(k0, k1, limit, 0, c)
    requires Idle(k2) <= Max(Idle(k1), limit + NS_PER_MS - k1.busy)
    requires Late(TrailOf(k1), TrailOf(k2), TimeIs(limit), n, c) || n >= 6
    ensures Punctual(k0, k2, limit, n, c)
  {
    TurnIsPunctual(k1, k2, limit, n, c);
    PunctualTwice(k0, k1, k2, limit, 0, n, c);
  }

  /** While turns go on, a signal that has arrived was not waited on; the last turn waits one slice. */
  lemma TurnIsHeard(k0: Kernel, k1: Kernel, k2: Kernel, goesOn: bool)
    requires Later(k0, k1) && Later(k1, k2) && Heard(TrailOf(k0), TrailOf(k1), 0) && |k1.script| <= |k2.script| + 6
    requires Idle(k2) <= Idle(k1) + SLICE_NS
    requires goesOn ==> k1.pending == 0 && (k2.pending != 0 ==> Idle(k2) + k1.busy <= k2.pendingSince)
    ensures Heard(TrailOf(k0), TrailOf(k2), if goesOn then 0 else SLICE_NS)
  {
    HeardOnce(TrailOf(k1), TrailOf(k2), if goesOn then 0 else SLICE_NS);
    HeardTwice(TrailOf(k0), TrailOf(k1), TrailOf(k2), 0, if goesOn then 0 else SLICE_NS);
  }

  lemma NotCut(k0: Kernel, k: Kernel, cut: Cut)
    requires Later(k0, k) && !Past(Present(k), cut)
    ensures Late(TrailOf(k0), TrailOf(k), cut, 0, 0)
  {
    NotPast(TrailOf(k0), TrailOf(k), cut, 0);
  }

  lemma CutTwice(k0: Kernel, k1: Kernel, k2: Kernel, cut: Cut, m: nat, n: nat)
    requires Later(k0, k1) && Later(k1, k2)
    requires Late(TrailOf(k0), TrailOf(k1), cut, m, 0) && Late(TrailOf(k1), TrailOf(k2), cut, n, 0)
    ensures Late(TrailOf(k0), TrailOf(k2), cut, m + n, 0)
  {
    LateTwice(TrailOf(k0), TrailOf(k1), TrailOf(k2), cut, m, n, 0);
  }

  predicate Later(k0: Kernel, k: Kernel) {
    Flow(k0, k) && Rest(k0, k) && k.taken == k0.taken && k.kills == k0.kills && k.waits == k0.waits
  }

  lemma PassLater(k: Kernel)
    requires k.script != []
    ensures Later(k, Pass(k)) && Pass(k).script == k.script[1..]
    ensures Unpolled(k, Pass(k)) && Pass(k).checked == k.checked
    ensures Pass(k).pending != 0 ==> k.pending != 0 || Pass(k).pendingSince == k.now
  {
    ActKeeps(Signal(k, k.script[0].signal), k.script[0].act);
    PassFollows(k);
    hide Act, Follows;
  }

  /** Nobody else writes to the pipe while a child does, and a system call changes nothing else of it. */
  lemma WriterPasses(k: Kernel)
    requires k.script != [] && k.child.NoChild?
    ensures |Pass(k).script| == |k.script| - 1
    ensures
      var p := Pass(k);
      p == k.(script := p.script, now := p.now, busy := p.busy, pending := p.pending,
              pendingSince := p.pendingSince, log := p.log)
  {}

  lemma PassFollows(k: Kernel)
    requires k.script != []
    ensures Follows(TrailOf(k), TrailOf(Pass(k)))
  {
    ActKeeps(Signal(k, k.script[0].signal), k.script[0].act);
    hide Act;
  }

  /** poll waits at most its timeout, and all of it when it answers that nothing happened. */
  lemma PollLater(k: Kernel, timeoutMs: int)
    requires k.script != []
    ensures
      var p := PollPass(k, timeoutMs);
      && Later(k, p) && |p.script| == |k.script| - 1 && p.checked == k.checked
      && p.counts == k.counts && p.found == k.found
      && (p.pending != 0 ==> k.pending != 0 || p.pendingSince == k.now)
      && (timeoutMs >= 0 ==> p.now <= k.now + timeoutMs * NS_PER_MS + (p.busy - k.busy))
      && (timeoutMs >= 0 && k.script[0].answer == Count(0) ==> p.now >= k.now + timeoutMs * NS_PER_MS)
  {
    PassLater(k);
    PollFollows(TrailOf(k), TrailOf(Pass(k)), TrailOf(PollPass(k, timeoutMs)));
    hide Act, Follows;
  }

  lemma PollFollows(a: Trail, b: Trail, c: Trail)
    requires Follows(a, b) && b.left < a.left && b.present.now <= c.present.now
    requires c == b.(present := b.present.(now := c.present.now))
    ensures Follows(a, c)
  {}

  /** The child's step changes its output and its state only. */
  lemma ActKeeps(k: Kernel, a: ChildAct)
    ensures
      var r := Act(k, a);
      && r == k.(written := r.written, writerOpen := r.writerOpen, child := r.child)
      && k.written <= r.written && (!k.writerOpen ==> !r.writerOpen && r.written == k.written)
      && (k.child.Running? && !r.child.Running? ==> !r.writerOpen)
      && ChildLater(k.child, r.child, k.autoReap)
  {}

  /** What waitpid says of the latest child. */
  function WaitAnswer(k: Kernel, answer: Answer, blocks: bool): Waited {
    if answer.Broken? then WaitFailed
    else if answer.Interrupted? then WaitInterrupted
    else if k.child.Zombie? then Got(k.child.status)
    else if k.child.Reaped? then WaitNoChild
    else if blocks then WaitInterrupted
    else StillRunning
  }

  function AfterWaiting(k: Kernel, r: Waited, blocks: bool): Kernel {
    k.(child := if r.Got? && k.child.Zombie? then Reaped(k.child.pid, r.status) else k.child,
       waits := if blocks then k.waits + 1 else k.waits,
       counts := k.counts.(checks := k.counts.checks + (if blocks then 0 else 1)),
       waitFaults := if r == WaitFailed then k.waitFaults + 1 else k.waitFaults,
       faults := if r == WaitFailed then k.faults + 1 else k.faults,
       interruptions := if r == WaitInterrupted then k.interruptions + 1 else k.interruptions)
  }

  /** What waitpid adds to a system call, its count of waits aside. */
  lemma WaitFlows(k0: Kernel, k1: Kernel, r: Waited, blocks: bool)
    requires Later(k0, k1) && k0.script != [] && k1.script == k0.script[1..]
    ensures Flow(k0, AfterWaiting(k1, r, blocks).(waits := k0.waits))
  {
    hide Follows;
    FollowsInterrupted(TrailOf(k0), TrailOf(k1), AfterWaiting(k1, r, blocks).interruptions);
  }

  lemma WaitRests(k0: Kernel, k1: Kernel, answer: Answer, blocks: bool)
    requires Later(k0, k1) && !k1.child.NoChild?
    ensures
      var r := WaitAnswer(k1, answer, blocks);
      var k := AfterWaiting(k1, r, blocks);
      && (r.Got? ==> Rest(k0, k.(child := k0.child)) && k.child == Reaped(k1.child.pid, r.status) && Unreaped(k0.child))
      && (r == WaitNoChild ==> Rest(k0, k) && k.child.Reaped?)
      && (r == StillRunning ==> !blocks && k.child.Running?)
      && (r == StillRunning || r == WaitInterrupted ==> Rest(k0, k))
      && (r == WaitFailed ==> Rest(k0, k.(waitFaults := k0.waitFaults)) && k.waitFaults == k0.waitFaults + 1)
      && (r == WaitInterrupted ==> answer.Interrupted? || (blocks && k.child.Running?))
  {
    hide Flow;
  }

  /** Two waits, their count aside. */
  lemma WaitsTwice(k0: Kernel, k1: Kernel, k2: Kernel)
    requires Flow(k0, k1.(waits := k0.waits)) && Flow(k1, k2.(waits := k1.waits))
    ensures Flow(k0, k2.(waits := k0.waits)) && k0.autoReap == k1.autoReap == k2.autoReap
    ensures Follows(TrailOf(k0), TrailOf(k1)) && Follows(TrailOf(k1), TrailOf(k2))
  {
    hide Follows;
    FollowsTwice(TrailOf(k0), TrailOf(k1), TrailOf(k2));
  }

  /** What read adds to a system call. */
  lemma ReadFlows(k0: Kernel, k1: Kernel, k2: Kernel, r: PipeRead)
    requires Later(k0, k1) && |k0.script| == |k1.script| + 1
    requires k2 == k1.(taken := k2.taken, faults := k2.faults, interruptions := k2.interruptions, counts := k2.counts)
    requires k2.counts == AfterReading(k1.counts, r)
    requires k1.faults <= k2.faults && k1.interruptions <= k2.interruptions
    ensures Flow(k0, k2) && Rest(k0, k2)
  {
    hide Follows;
    FollowsInterrupted(TrailOf(k0), TrailOf(k1), k2.interruptions);
  }

  lemma LaterSame(k: Kernel)
    ensures Later(k, k)
  {}

  lemma LaterTwice(k0: Kernel, k1: Kernel, k2: Kernel)
    requires Later(k0, k1) && Later(k1, k2)
    ensures Later(k0, k2)
  {
    FollowsTwice(TrailOf(k0), TrailOf(k1), TrailOf(k2));
    hide Follows;
  }

  /** What may have gone wrong so far, and only through a failing waitpid or close, or children reaped unasked. */
  predicate Sound(k: Kernel) {
    && (k.waitFaults == 0 ==> k.orphans == 0)
    && k.doubleCloses == k.lostEnds && (k.closeFaults == 0 ==> k.doubleCloses == 0 && k.stuck == {})
    && (!k.autoReap ==> k.lateSignals == 0)
    && k.stuck <= k.open_
  }

  /** One child that has not been waited for, one open read end, and nothing more to come after end of file. */
  predicate Attends(k: Kernel, pid: int, readFd: int, eofSeen: bool) {
    && pid > 0 && !k.child.NoChild? && k.child.pid == pid && (Unreaped(k.child) || k.autoReap)
    && (k.child.Running? || !k.writerOpen)
    && readFd >= 0 && readFd in k.open_ && readFd !in k.stuck && k.open_ == k.stuck + {readFd}
    && k.taken <= |k.written| && (eofSeen ==> !k.writerOpen && k.taken == |k.written|)
  }

  /** Reading from the pipe leaves the worker attended. */
  lemma ReadAttends(k0: Kernel, k: Kernel, pid: int, readFd: int, eofSeen: bool)
    requires Sound(k0) && Attends(k0, pid, readFd, eofSeen) && Flow(k0, k) && Rest(k0, k)
    requires k0.taken <= k.taken <= |k.written|
    ensures k0.faults <= k.faults && k0.interruptions <= k.interruptions && k0.written <= k.written
    ensures Sound(k) && Attends(k, pid, readFd, eofSeen)
    ensures !k.writerOpen && k.taken == |k.written| ==> Attends(k, pid, readFd, true)
  {
    hide Follows;
  }

  lemma LaterAttends(k0: Kernel, k: Kernel, pid: int, readFd: int, eofSeen: bool)
    requires Sound(k0) && Attends(k0, pid, readFd, eofSeen) && Later(k0, k)
    ensures k0.faults <= k.faults && k0.interruptions <= k.interruptions
    ensures Sound(k) && Attends(k, pid, readFd, eofSeen)
  {
    hide Follows;
  }

  lemma AttendsFacts(k: Kernel, pid: int, readFd: int, eofSeen: bool)
    requires Attends(k, pid, readFd, eofSeen)
    ensures k.taken <= |k.written| && readFd in k.open_ && !k.child.NoChild? && k.child.pid == pid > 0
    ensures eofSeen ==> k.taken == |k.written| && !k.writerOpen
  {}

  lemma HandsOver(k0: Kernel, k: Kernel, delivered: seq<byte>)
    requires delivered <= k0.written && |delivered| == k0.taken && Flow(k0, k) && k.taken == k0.taken
    ensures delivered <= k.written && |delivered| == k.taken
  {
    hide Follows;
  }

  /** A waitpid that did not reap leaves the worker attended. */
  lemma WaitAttends(k0: Kernel, k: Kernel, pid: int, readFd: int, eofSeen: bool)
    requires Sound(k0) && Attends(k0, pid, readFd, eofSeen) && Flow(k0, k) && k.taken == k0.taken
    requires k.waitFaults >= k0.waitFaults && Rest(k0, k.(waitFaults := k0.waitFaults))
    ensures k0.faults <= k.faults && k0.interruptions <= k.interruptions
    ensures Sound(k) && Attends(k, pid, readFd, eofSeen)
  {
    hide Follows;
  }

  lemma FlowTwice(k0: Kernel, k1: Kernel, k2: Kernel)
    requires Flow(k0, k1) && Flow(k1, k2)
    ensures Flow(k0, k2)
    ensures k0.faults <= k1.faults <= k2.faults && k0.interruptions <= k1.interruptions <= k2.interruptions
  {
    FollowsTwice(TrailOf(k0), TrailOf(k1), TrailOf(k2));
    hide Follows;
  }

  /** The next n calls are neither interrupted nor fail. */
  predicate Calm(script: seq<Tick>, n: nat) {
    |script| >= n && forall i :: 0 <= i < n ==> !script[i].answer.Interrupted? && !script[i].answer.Broken?
  }

  // ---- What the calls answer ----

  datatype Errno = EINTR | ETIMEDOUT | EINVAL | EBADF | EBUSY | ECHILD | EIO | EOTHER

  datatype Polled = TimedOut | Readied(input: bool, worker: bool, invalid: bool) | PollInterrupted | PollFailed

  /** poll has found something or failed. */
  predicate Hit(r: Polled) {
    r == PollFailed || (r.Readied? && (r.input || r.worker || r.invalid))
  }

  function AfterPolling(c: Counts, r: Polled, timeoutMs: int, watch: bool, pending: nat): Counts {
    c.(polls := c.polls + 1, spins := if r.TimedOut? && timeoutMs < 1 then c.spins + 1 else c.spins,
       blind := if watch then c.blind else c.blind + 1,
       ready := if r.Readied? && r.worker && !r.invalid && pending == 0 then c.ready + 1 else c.ready)
  }

  /** What poll adds to a system call. */
  lemma PollAdjusts(k0: Kernel, k1: Kernel, k2: Kernel, r: Polled, timeoutMs: int, watch: bool)
    requires Later(k0, k1) && |k0.script| == |k1.script| + 1
    requires k2 == k1.(input := k2.input, counts := k2.counts, found := k1.found + [r], faults := k2.faults,
                       interruptions := k2.interruptions)
    requires k2.counts == AfterPolling(k1.counts, r, timeoutMs, watch, k1.pending)
    requires k1.faults <= k2.faults && k1.interruptions <= k2.interruptions
    ensures Later(k0, k2)
  {
    hide Follows;
    FollowsInterrupted(TrailOf(k0), TrailOf(k1), k2.interruptions);
  }

  datatype PipeRead = Data(bytes: seq<byte>) | EndOfFile | ReadInterrupted | ReadAgain | ReadFailed
  function AfterReading(c: Counts, r: PipeRead): Counts {
    c.(fetches := c.fetches + 1, got := if r.ReadInterrupted? || r.ReadAgain? then c.got else c.got + 1)
  }

  datatype Waited = Got(status: Status) | StillRunning | WaitInterrupted | WaitNoChild | WaitFailed

  datatype Readiness = PipeReady | PipeNotReady | PipeError(errno: Errno)
  datatype Guarded = Proceed(timeoutMs: int) | Refuse(errno: Errno) | GuardUnfinished

  datatype ReadResult = Bytes(bytes: seq<byte>) | Eof | NotReady | ReadError(errno: Errno) | ReadUnfinished
  datatype WriteResult = Written(count: nat) | WriteError(errno: Errno) | WriteUnfinished
  datatype Outcome = Success | NotYet | Failed(errno: Errno) | Unfinished
  datatype Event =
    | Events(input: bool, worker: bool)
    | Termination
    | WorkerDeadline
    | WorkerEof
    | NoEvent
    | EventError(errno: Errno)
    | EventUnfinished

  /** What precedes a poll: its timeout, or an answer without polling. */
  datatype Prepared = PollFor(timeoutMs: int) | Report(event: Event)

  /** What a caller of the parent can do. */
  datatype Call =
    | CallBegin(timeoutMs: int64)
    | CallWait(timeoutMs: int64)
    | CallRead(count: nat)
    | CallReadAvailable(count: nat)
    | CallTryFinish
    | CallFinish
    | CallAbort

  /** What the caller is answered. */
  datatype Reply =
    | Began(outcome: Outcome)
    | Saw(event: Event)
    | ReadReply(result: ReadResult)
    | Tried(outcome: Outcome)
    | Finished(outcome: Outcome)
    | Aborted

  predicate Answers(call: Call, reply: Reply) {
    match call
    case CallBegin(_) => reply.Began?
    case CallWait(_) => reply.Saw?
    case CallRead(_) => reply.ReadReply?
    case CallReadAvailable(_) => reply.ReadReply?
    case CallTryFinish => reply.Tried?
    case CallFinish => reply.Finished?
    case CallAbort => reply.Aborted?
  }

  function AfterReply(before: seq<byte>, reply: Reply): seq<byte> {
    if reply == Began(Success) then []
    else if reply.ReadReply? && reply.result.Bytes? then before + reply.result.bytes
    else before
  }

  /** The bytes answered since the last successful begin. */
  function Replied(replies: seq<Reply>): seq<byte> {
    if replies == [] then [] else AfterReply(Replied(replies[..|replies| - 1]), replies[|replies| - 1])
  }

  /** The end of the output was answered since the last successful begin. */
  predicate EofReplied(replies: seq<Reply>) {
    && replies != []
    && var last := replies[|replies| - 1];
    last == ReadReply(Eof) || (last != Began(Success) && EofReplied(replies[..|replies| - 1]))
  }

  /** Right after the end of the output or a successful try_finish, the bytes answered are all that was written. */
  predicate EndsAreComplete(replies: seq<Reply>, k: Kernel) {
    replies != [] && (replies[|replies| - 1] == ReadReply(Eof) || replies[|replies| - 1] == Tried(Success)) ==>
      Replied(replies) == k.written && !k.writerOpen
  }

  class Worker {
    var k: Kernel
    var active: bool
    var isChild: bool
    var pid: int
    var readFd: int
    var writeFd: int
    var eofSeen: bool
    var reaped: bool
    var status: Status
    var deadline: Timespec
    /** The bytes handed to the caller since the worker began. */
    ghost var delivered: seq<byte>

    /** A process without a worker, with its kernel in any state that has not gone wrong. */
    constructor (k: Kernel)
      requires Sound(k) && k.open_ == k.stuck && !Unreaped(k.child)
      ensures Valid() && AtRest() && this.k == k && delivered == []
    {
      this.k := k;
      active, isChild, pid, readFd, writeFd := false, false, -1, -1, -1;
      eofSeen, reaped, status, deadline := false, false, Exited(0), Timespec(0, 0);
      delivered := [];
    }

    // ---- System calls ----

    method Clock() returns (clock: Option<Timespec>)
      requires k.script != []
      modifies this`k
      ensures Later(old(k), k) && |k.script| == |old(k).script| - 1 && Unpolled(old(k), k)
      ensures old(k).pending == 0 ==> k.pending == 0 || k.pendingSince == old(k).now
      ensures clock.Some? ==> IsReading(clock.value) && clock.value.Ns() == k.now == k.checked
      ensures clock.None? ==> k.checked == old(k).checked && k.faults > old(k).faults
    {
      PassLater(k);
      hide Act, Follows;
      var p := Pass(k);
      clock := if k.script[0].answer.Count? then Reading(p.now) else None;
      k := if clock.Some? then p.(checked := p.now) else Fault(p);
    }

    /** poll, watching the pipe or not; a negative timeout waits for an event without limit. */
    method Poll(timeoutMs: int, watch: bool) returns (r: Polled)
      requires k.script != []
      modifies this`k
      ensures Later(old(k), k) && |k.script| == |old(k).script| - 1 && k.checked == old(k).checked
      ensures old(k).pending == 0 ==> k.pending == 0 || k.pendingSince == old(k).now
      ensures timeoutMs >= 0 ==> k.now <= old(k).now + timeoutMs * NS_PER_MS + (k.busy - old(k).busy)
      ensures r == TimedOut ==> timeoutMs >= 0 && k.now >= old(k).now + timeoutMs * NS_PER_MS && !(watch && Readable(k))
      ensures r.Readied? ==> (r.worker <==> watch && Readable(k)) && (r.invalid ==> k.faults > old(k).faults)
      ensures r.Readied? ==> r.input == k.input
      ensures r == PollFailed ==> k.faults > old(k).faults
      ensures r == PollInterrupted || (r.Readied? && !r.input && !r.worker && !r.invalid) ==>
        k.interruptions > old(k).interruptions
      ensures k.counts == AfterPolling(old(k).counts, r, timeoutMs, watch, k.pending) && k.found == old(k).found + [r]
    {
      PollLater(k, timeoutMs);
      hide PollPass, Flow, Rest, AfterPolling;
      var answer := k.script[0].answer;
      var p := PollPass(k, timeoutMs);
      var worker := watch && Readable(p);
      r := if answer.Ready? then Readied(answer.input, worker, answer.invalid)
           else if answer.Broken? then PollFailed
           else if answer == Count(0) && worker then Readied(false, true, false)
           else if answer == Count(0) && timeoutMs >= 0 then TimedOut
           else PollInterrupted;
      var faulty := r == PollFailed || (r.Readied? && r.invalid);
      var nothing := r == PollInterrupted || (r.Readied? && !r.input && !r.worker && !r.invalid);
      FlowFacts(k, p);
      k := p.(input := r.Readied? && r.input, counts := AfterPolling(p.counts, r, timeoutMs, watch, p.pending),
              found := p.found + [r],
              faults := if faulty then p.faults + 1 else p.faults,
              interruptions := if nothing then p.interruptions + 1 else p.interruptions);
      PollAdjusts(old(k), p, k, r, timeoutMs, watch);
    }

    /** What every call that does not wait inside poll has in common. */
    method SystemCall() returns (answer: Answer)
      requires k.script != []
      modifies this`k
      ensures Later(old(k), k) && |k.script| == |old(k).script| - 1 && k.checked == old(k).checked
      ensures k.now - old(k).now == k.busy - old(k).busy && answer == old(k).script[0].answer
      ensures k.script == old(k).script[1..] && k.counts == old(k).counts && k.found == old(k).found
    {
      PassLater(k);
      hide Act, Follows;
      answer := k.script[0].answer;
      k := Pass(k);
    }

    /** read from the pipe: the next bytes, end of file once they are used up and nobody can write, or an error. */
    method ReadPipe(count: nat) returns (r: PipeRead)
      requires k.script != [] && k.taken <= |k.written| && readFd in k.open_ && count > 0
      modifies this`k
      ensures Flow(old(k), k) && Rest(old(k), k) && |k.script| == |old(k).script| - 1 && k.checked == old(k).checked
      ensures k.now - old(k).now == k.busy - old(k).busy
      ensures r.Data? ==> 0 < |r.bytes| <= count && k.taken == old(k).taken + |r.bytes| <= |k.written|
      ensures r.Data? ==> r.bytes == k.written[old(k).taken..k.taken]
      ensures !r.Data? ==> k.taken == old(k).taken
      ensures r.EndOfFile? ==> !k.writerOpen && k.taken == |k.written|
      ensures r == ReadAgain ==> !Readable(k)
      ensures r == ReadInterrupted ==> k.interruptions > old(k).interruptions
      ensures r == ReadFailed ==> k.faults > old(k).faults
      ensures k.counts == AfterReading(old(k).counts, r)
    {
      hide Flow, Rest, AfterReading;
      var answer := SystemCall();
      ghost var k1 := k;
      FlowFacts(old(k), k1);
      r := TakeBytes(answer, count);
      ReadFlows(old(k), k1, k, r);
    }

    /** What a read takes out of the pipe. */
    method TakeBytes(answer: Answer, count: nat) returns (r: PipeRead)
      requires k.taken <= |k.written| && count > 0
      modifies this`k
      ensures k == old(k).(taken := k.taken, faults := k.faults, interruptions := k.interruptions, counts := k.counts)
      ensures k.counts == AfterReading(old(k).counts, r)
      ensures k.faults == old(k).faults + (if r == ReadFailed then 1 else 0)
      ensures k.interruptions == old(k).interruptions + if r == ReadInterrupted then 1 else 0
      ensures r.Data? ==> 0 < |r.bytes| <= count && k.taken == old(k).taken + |r.bytes| <= |k.written|
      ensures r.Data? ==> r.bytes == k.written[old(k).taken..k.taken]
      ensures !r.Data? ==> k.taken == old(k).taken
      ensures r.EndOfFile? ==> !k.writerOpen && k.taken == |k.written|
      ensures r == ReadAgain ==> !Readable(k)
    {
      var available := |k.written| - k.taken;
      if answer.Broken? {
        r := ReadFailed;
        k := Fault(k);
      } else if answer.Interrupted? {
        r := ReadInterrupted;
        k := Interruption(k);
      } else if available == 0 {
        r := if k.writerOpen then ReadAgain else EndOfFile;
      } else {
        var wanted := if answer.Count? && 0 < answer.n < count then answer.n else count;
        var amount := if wanted < available then wanted else available;
        r := Data(k.written[k.taken..k.taken + amount]);
        k := k.(taken := k.taken + amount);
      }
      k := k.(counts := AfterReading(k.counts, r));
    }

    /** waitpid for the latest child, waiting for its exit when `blocks`; reaping is final. */
    method WaitPid(child: int, blocks: bool) returns (r: Waited)
      requires k.script != [] && !k.child.NoChild? && k.child.pid == child
      modifies this`k
      ensures Flow(old(k), k.(waits := old(k).waits)) && k.kills == old(k).kills
      ensures k.waits == old(k).waits + (if blocks then 1 else 0) && k.script == old(k).script[1..]
      ensures k.checked == old(k).checked && k.taken == old(k).taken
      ensures k.now - old(k).now == k.busy - old(k).busy
      ensures r.Got? ==> Rest(old(k), k.(child := old(k).child)) && k.child == Reaped(child, r.status)
      ensures r.Got? ==> Unreaped(old(k).child)
      ensures r == WaitNoChild ==> Rest(old(k), k) && k.child.Reaped?
      ensures r == StillRunning ==> !blocks && k.child.Running?
      ensures r == StillRunning || r == WaitInterrupted ==> Rest(old(k), k)
      ensures r == WaitFailed ==>
        Rest(old(k), k.(waitFaults := old(k).waitFaults)) && k.waitFaults == old(k).waitFaults + 1
      ensures r == WaitFailed ==> k.faults > old(k).faults
      ensures r == WaitInterrupted ==> k.interruptions > old(k).interruptions
      ensures r == WaitInterrupted ==> old(k).script[0].answer.Interrupted? || (blocks && k.child.Running?)
      ensures k.counts == old(k).counts.(checks := old(k).counts.checks + (if blocks then 0 else 1))
    {
      var answer := SystemCall();
      ghost var k1 := k;
      hide Flow, Rest;
      r := WaitAnswer(k, answer, blocks);
      k := AfterWaiting(k, r, blocks);
      WaitFlows(old(k), k1, r, blocks);
      WaitRests(old(k), k1, answer, blocks);
      hide AfterWaiting, WaitAnswer;
    }

    /** kill(child, SIGKILL), which may fail; signalling a child that is already reaped is counted. */
    method Kill(child: int)
      requires k.script != [] && !k.child.NoChild? && k.child.pid == child
      modifies this`k
      ensures Flow(old(k), k) && k.kills == old(k).kills + 1 && k.script == old(k).script[1..]
      ensures !old(k).script[0].answer.Broken? ==> !k.child.Running?
      ensures k.counts == old(k).counts
      ensures k.checked == old(k).checked && k.taken == old(k).taken
      ensures k.now - old(k).now == k.busy - old(k).busy
      ensures Rest(old(k), k.(lateSignals := old(k).lateSignals))
      ensures k.lateSignals == old(k).lateSignals || (k.lateSignals == old(k).lateSignals + 1 && k.child.Reaped?)
    {
      var answer := SystemCall();
      hide Follows;
      k := k.(kills := k.kills + 1);
      if k.child.Reaped? {
        k := k.(lateSignals := k.lateSignals + 1);
      } else if !answer.Broken? && k.child.Running? {
        k := Ended(k, Signaled);
      }
    }

    /** close: a failure may leave the descriptor open; closing one that is not open is counted. */
    method CloseFd(fd: int) returns (ok: bool)
      requires k.script != []
      modifies this`k
      ensures Flow(old(k), k) && k.script == old(k).script[1..]
      ensures k.checked == old(k).checked && k.taken == old(k).taken
      ensures k.now - old(k).now == k.busy - old(k).busy
      ensures Rest(old(k), k.(open_ := old(k).open_, stuck := old(k).stuck, closeFaults := old(k).closeFaults,
                              doubleCloses := old(k).doubleCloses))
      ensures
        || (k.open_ == old(k).open_ - {fd} && k.stuck == old(k).stuck - {fd})
        || (k.open_ == old(k).open_ && k.stuck == old(k).stuck + {fd} && fd in old(k).open_ && !ok)
      ensures k.closeFaults >= old(k).closeFaults && (!ok ==> k.closeFaults > old(k).closeFaults || fd !in old(k).open_)
      ensures !ok && fd in old(k).open_ ==> k.faults > old(k).faults
      ensures k.doubleCloses == old(k).doubleCloses + (if fd in old(k).open_ then 0 else 1)
      ensures k.counts == old(k).counts
      ensures fd in old(k).open_ ==>
        (fd in k.open_ <==> old(k).script[0].answer == Broken(false)) && (ok <==> !old(k).script[0].answer.Broken?)
      ensures ok ==> k.open_ == old(k).open_ - {fd} && k.closeFaults == old(k).closeFaults
    {
      var answer := SystemCall();
      hide Follows;
      if fd !in k.open_ {
        k := k.(stuck := k.stuck - {fd}, doubleCloses := k.doubleCloses + 1);
        return false;
      }
      ok := !answer.Broken?;
      if ok {
        k := k.(open_ := k.open_ - {fd}, stuck := k.stuck - {fd});
      } else if answer.released {
        k := k.(open_ := k.open_ - {fd}, stuck := k.stuck - {fd}, closeFaults := k.closeFaults + 1,
                faults := k.faults + 1);
      } else {
        k := k.(stuck := k.stuck + {fd}, closeFaults := k.closeFaults + 1, faults := k.faults + 1);
      }
    }

    // ---- The state between calls ----

    predicate IsReset()
      reads this
    {
      && !active && !isChild && pid == -1 && readFd == -1 && writeFd == -1 && !eofSeen && !reaped && status == Exited(0)
      && deadline == Timespec(0, 0)
    }

    /** No child is left to be waited for, unless waitpid failed. */
    predicate AtRest()
      reads this
    {
      IsReset() && k.open_ == k.stuck && (k.waitFaults == 0 ==> !Unreaped(k.child))
    }

    predicate Attending()
      reads this
    {
      && active && !isChild && writeFd == -1 && !reaped && IsDeadline(deadline)
      && pid > 0 && readFd >= 0 && Attends(k, pid, readFd, eofSeen)
    }

    /** The forked child's copy: its write end on descriptor 3 and nothing of the parent's. */
    predicate Sending()
      reads this
    {
      && active && isChild && pid == -1 && readFd == -1 && writeFd == WorkerChild.PIPE_FD && !eofSeen && !reaped
      && k.open_ == k.stuck + {WorkerChild.PIPE_FD}
      && WorkerChild.PIPE_FD !in k.stuck && k.child.NoChild? && IsDeadline(deadline)
    }

    /** Every byte taken from the pipe has been handed to the caller, in order. */
    ghost predicate Conserved()
      reads this
    {
      delivered <= k.written && |delivered| == k.taken
    }

    ghost predicate Valid()
      reads this
    {
      Sound(k) && (AtRest() || (Attending() && Conserved()) || Sending())
    }

    method Reset()
      modifies this
      ensures IsReset() && k == old(k) && delivered == old(delivered)
    {
      active, isChild, pid, readFd, writeFd := false, false, -1, -1, -1;
      eofSeen, reaped, status, deadline := false, false, Exited(0), Timespec(0, 0);
    }

    /** Reap a child that has exited, or stop a running one and reap it. */
    method KillAndReap(child: int) returns (finished: bool)
      requires child > 0 && !k.child.NoChild? && k.child.pid == child
      modifies this`k
      ensures !finished ==> k.script == []
      ensures Flow(old(k), k) && k.taken == old(k).taken && k.checked == old(k).checked
      ensures Brief(old(k), k, 3) && OnlyChecked(old(k), k)
      ensures
        Rest(old(k), k.(child := old(k).child, waitFaults := old(k).waitFaults, lateSignals := old(k).lateSignals))
      ensures k.waitFaults >= old(k).waitFaults && (old(k).autoReap || k.lateSignals == old(k).lateSignals)
      // It never waits for the exit of a child that it has not signalled.
      ensures k.waits > old(k).waits ==> k.kills == old(k).kills + 1
      ensures finished && k.waitFaults == old(k).waitFaults ==> k.child.Reaped?
      ensures Calm(old(k).script, 3) ==> finished && |k.script| >= |old(k).script| - 3
    {
      hide Follows, Late, Brief;
      var reapedNow;
      finished, reapedNow := ReapIfExited(child);
      if !finished || reapedNow {
        BriefAnyway(old(k), k, 1, 3);
        return;
      }
      if k.script == [] {
        BriefAnyway(old(k), k, 1, 3);
        return false;
      }
      ghost var k1 := k;
      Kill(child);
      ghost var k2 := k;
      BriefOnce(old(k), k1, k2, 1);
      FollowsTwice(TrailOf(old(k)), TrailOf(k1), TrailOf(k2));
      finished := ReapBlocking(child);
      BriefTwice(old(k), k2, k, 2, 1);
      FollowsTwice(TrailOf(old(k)), TrailOf(k2), TrailOf(k));
    }

    /** The first loop of kill_and_reap: waitpid without waiting, until it says something definite. */
    method ReapIfExited(child: int) returns (finished: bool, done: bool)
      requires child > 0 && !k.child.NoChild? && k.child.pid == child
      modifies this`k
      ensures !finished ==> k.script == []
      ensures Flow(old(k), k) && k.taken == old(k).taken && k.checked == old(k).checked
      ensures Brief(old(k), k, 1) && OnlyChecked(old(k), k)
      ensures Rest(old(k), k.(child := old(k).child, waitFaults := old(k).waitFaults))
      ensures k.waits == old(k).waits && k.kills == old(k).kills
      ensures k.waitFaults >= old(k).waitFaults
      ensures finished && done && k.waitFaults == old(k).waitFaults ==> k.child.Reaped?
      ensures finished && !done ==> k.child.Running? && Later(old(k), k)
      ensures Calm(old(k).script, 1) ==> finished && k.script == old(k).script[1..]
    {
      hide Flow, Follows, Brief;
      FlowSame(k);
      BriefNothing(k);
      done := true;
      while true
        invariant Later(old(k), k) && k.checked == old(k).checked && Brief(old(k), k, 0) && OnlyChecked(old(k), k)
        invariant Calm(old(k).script, 1) ==> k == old(k)
        decreases |k.script|
      {
        if k.script == [] {
          BriefAnyway(old(k), k, 0, 1);
          return false, done;
        }
        ghost var before := k;
        var waited := WaitPid(child, false);
        WaitsTwice(old(k), before, k);
        assert k.(waits := old(k).waits) == k;
        BriefOnce(old(k), before, k, 0);
        if waited.Got? || waited == WaitNoChild || waited == WaitFailed {
          return true, true;
        }
        if waited == StillRunning {
          return true, false;
        }
      }
    }

    /** The second loop of kill_and_reap: waitpid until the child is reaped. */
    method ReapBlocking(child: int) returns (finished: bool)
      requires child > 0 && !k.child.NoChild? && k.child.pid == child
      modifies this`k
      ensures !finished ==> k.script == []
      ensures Flow(old(k), k.(waits := old(k).waits)) && k.waits >= old(k).waits && k.kills == old(k).kills
      ensures Brief(old(k), k, 1) && OnlyChecked(old(k), k)
      ensures k.taken == old(k).taken && k.checked == old(k).checked
      ensures Rest(old(k), k.(child := old(k).child, waitFaults := old(k).waitFaults))
      ensures k.waitFaults >= old(k).waitFaults
      ensures finished && k.waitFaults == old(k).waitFaults ==> k.child.Reaped?
      ensures Calm(old(k).script, 1) && !old(k).child.Running? ==> finished && k.script == old(k).script[1..]
    {
      hide Flow, Follows, Brief;
      FlowSame(k);
      BriefNothing(k);
      while true
        invariant Later(old(k), k.(waits := old(k).waits)) && k.checked == old(k).checked
        invariant k.waits >= old(k).waits && k.kills == old(k).kills && Brief(old(k), k, 0) && OnlyChecked(old(k), k)
        invariant Calm(old(k).script, 1) && !old(k).child.Running? ==> k == old(k)
        decreases |k.script|
      {
        if k.script == [] {
          BriefAnyway(old(k), k, 0, 1);
          return false;
        }
        ghost var before := k;
        var waited := WaitPid(child, true);
        WaitsTwice(old(k), before, k);
        BriefOnce(old(k), before, k, 0);
        if waited != WaitInterrupted {
          return true;
        }
      }
    }

    /** Stop and reap the child, close the read end, forget everything. */
    method EndWorker() returns (finished: bool)
      requires Sound(k) && Attending()
      modifies this
      ensures !finished ==> k.script == []
      ensures Flow(old(k), k) && delivered == old(delivered) && k.checked == old(k).checked && k.taken == old(k).taken
      ensures Brief(old(k), k, 4) && OnlyChecked(old(k), k)
      ensures finished ==> Sound(k) && AtRest()
    {
      hide Follows, Late;
      var child := pid;
      pid := -1;
      finished := KillAndReap(child);
      if !finished || k.script == [] {
        BriefAnyway(old(k), k, 3, 4);
        return false;
      }
      ghost var before := k;
      var closing := readFd;
      readFd := -1;
      var ok := CloseFd(closing);
      FollowsTwice(TrailOf(old(k)), TrailOf(before), TrailOf(k));
      BriefOnce(old(k), before, k, 3);
      Reset();
    }

    method FailAndAbort(errno: Errno) returns (r: Outcome)
      requires Sound(k) && Attending()
      modifies this
      ensures r == Unfinished ==> k.script == []
      ensures Flow(old(k), k) && delivered == old(delivered) && k.checked == old(k).checked && k.taken == old(k).taken
      ensures Brief(old(k), k, 4) && OnlyChecked(old(k), k)
      ensures r == Unfinished || (r == Failed(errno) && Valid() && AtRest())
    {
      var finished := EndWorker();
      r := if finished then Failed(errno) else Unfinished;
    }

    /** The caller gives up: afterwards no child is left and the read end is closed. */
    method Abort() returns (finished: bool)
      requires Valid()
      modifies this
      ensures !finished ==> k.script == []
      ensures Flow(old(k), k) && delivered == old(delivered) && Brief(old(k), k, 4)
      ensures finished ==> Valid() && AtRest()
      ensures !old(active) ==> finished && k == old(k)
    {
      hide Follows, Late;
      NoCall(TrailOf(k));
      if !active {
        BriefAnyway(old(k), k, 0, 4);
        return true;
      }
      if isChild {
        if k.script == [] {
          BriefAnyway(old(k), k, 0, 4);
          return false;
        }
        var ok := CloseFd(writeFd);
        BriefOnce(old(k), old(k), k, 0);
        BriefAnyway(old(k), k, 1, 4);
        Reset();
        return true;
      }
      finished := EndWorker();
    }

    /** What is left of the deadline, as poll's timeout of at most one slice. */
    method PollTimeout(limit: Timespec) returns (state: TimeLeft, timeoutMs: int)
      requires k.script != [] && IsDeadline(limit)
      modifies this`k
      ensures Later(old(k), k) && |k.script| == |old(k).script| - 1 && Unpolled(old(k), k)
      ensures old(k).pending == 0 ==> k.pending == 0 || k.pendingSince == old(k).now
      ensures state == Left ==> 1 <= timeoutMs <= POLL_SLICE_MS && k.checked == k.now < limit.Ns()
      ensures state == Left ==> k.now + timeoutMs * NS_PER_MS < limit.Ns() + NS_PER_MS
      ensures state == Expired ==> limit.Ns() <= k.now
      ensures state == ClockError ==> k.faults > old(k).faults
    {
      var clock := Clock();
      var t;
      state, t := TimeoutUntil(clock, limit);
      timeoutMs := t as int;
      if state == Left && timeoutMs > POLL_SLICE_MS {
        timeoutMs := POLL_SLICE_MS;
      }
    }

    /**
      What every parent call does first: give up on a recorded signal, a passed deadline or a broken
      clock, otherwise compute the slice to wait for.
     */
    method Guard() returns (g: Guarded)
      requires IsDeadline(deadline)
      modifies this`k
      ensures g == GuardUnfinished ==> k.script == []
      ensures Later(old(k), k) && Unpolled(old(k), k) && Brief(old(k), k, 1)
      ensures g.Proceed? ==> |k.script| == |old(k).script| - 1 && k.checked < deadline.Ns() && old(k).pending == 0
      ensures g.Proceed? ==> k.now < deadline.Ns() && k.now + g.timeoutMs * NS_PER_MS < deadline.Ns() + NS_PER_MS
      ensures old(k).pending != 0 ==> k == old(k) && g == Refuse(EINTR)
      ensures g.Proceed? ==> 1 <= g.timeoutMs <= POLL_SLICE_MS
      ensures g.Refuse? ==> g.errno in {EINTR, ETIMEDOUT, EOTHER}
      ensures g == Refuse(EINTR) ==> k.pending != 0
      ensures g == Refuse(ETIMEDOUT) ==> deadline.Ns() <= k.now
      ensures g == Refuse(EOTHER) ==> k.faults > old(k).faults
    {
      hide Follows, Late, Rest;
      LaterSame(k);
      BriefNothing(k);
      if k.pending != 0 {
        return Refuse(EINTR);
      }
      if k.script == [] {
        return GuardUnfinished;
      }
      var timeLeft, timeoutMs := PollTimeout(deadline);
      BriefOnce(old(k), old(k), k, 0);
      match timeLeft
      case Left => g := Proceed(timeoutMs);
      case Expired => g := Refuse(ETIMEDOUT);
      case ClockError => g := Refuse(EOTHER);
    }

    // ---- Beginning ----

    /**
      pipe with both ends above the standard streams, as set up before forking. A creation that is
      spoilt by a failing close may leave descriptors open or close a lost end a second time.
     */
    method Pipe() returns (ok: bool, first: int, second: int)
      requires k.script != [] && k.stuck <= k.open_
      modifies this`k
      ensures Flow(old(k), k) && |k.script| == |old(k).script| - 1
      ensures k.taken == old(k).taken && k.checked == old(k).checked
      ensures ok ==> first >= 3 && second >= 3 && first != second && first !in old(k).open_ && second !in old(k).open_
      ensures Rest(old(k), k.(open_ := old(k).open_, stuck := old(k).stuck, closeFaults := old(k).closeFaults,
                              doubleCloses := old(k).doubleCloses, lostEnds := old(k).lostEnds))
      ensures ok ==> k.open_ == old(k).open_ + {first, second} && k.stuck == old(k).stuck
      ensures !ok && old(k).open_ == old(k).stuck ==> k.open_ == k.stuck
      ensures k.stuck <= k.open_ && k.closeFaults >= old(k).closeFaults
      ensures k.closeFaults == old(k).closeFaults ==> k.stuck == old(k).stuck && k.doubleCloses == old(k).doubleCloses
      ensures k.doubleCloses - old(k).doubleCloses == k.lostEnds - old(k).lostEnds
      ensures k.lostEnds == old(k).lostEnds +
        (if old(k).script[0].answer.Spoils? && old(k).script[0].answer.lost then 1 else 0)
      ensures !ok ==> k.faults > old(k).faults
    {
      var answer := SystemCall();
      hide Follows;
      ok := answer.Ends? && answer.readFd >= 3 && answer.writeFd >= 3 && answer.readFd != answer.writeFd
        && answer.readFd !in k.open_ && answer.writeFd !in k.open_;
      first, second := -1, -1;
      if ok {
        first, second := answer.readFd, answer.writeFd;
        k := k.(open_ := k.open_ + {first, second});
      } else if answer.Spoils? {
        var lost := if answer.lost then 1 else 0;
        var left := answer.left - k.open_;
        k := Fault(k).(open_ := k.open_ + left, stuck := k.stuck + left, closeFaults := k.closeFaults + 1,
                       doubleCloses := k.doubleCloses + lost, lostEnds := k.lostEnds + lost);
      } else {
        k := Fault(k);
      }
    }

    /** fork in the parent: a running child with an empty pipe; an earlier unreaped one becomes an orphan. */
    method Fork() returns (child: int)
      requires k.script != []
      modifies this`k
      ensures |k.script| < |old(k).script| && k.now >= old(k).now
      ensures k.checked == old(k).checked && k.autoReap == old(k).autoReap
      ensures k.open_ == old(k).open_ && k.stuck == old(k).stuck && k.doubleCloses == old(k).doubleCloses
      ensures k.waitFaults == old(k).waitFaults && k.closeFaults == old(k).closeFaults
      ensures k.lateSignals == old(k).lateSignals && k.lostEnds == old(k).lostEnds
      ensures child > 0 ==> k.child == Running(child) && k.written == [] && k.taken == 0 && k.writerOpen
      ensures !Unreaped(old(k).child) ==> k.orphans == old(k).orphans
      ensures child <= 0 ==> k.orphans == old(k).orphans && ChildLater(old(k).child, k.child, k.autoReap)
      ensures k.faults >= old(k).faults && (child <= 0 ==> k.faults > old(k).faults)
    {
      var answer := SystemCall();
      if !answer.Count? {
        k := Fault(k);
        return -1;
      }
      child := answer.n + 1;
      k := k.(orphans := k.orphans + (if Unreaped(k.child) then 1 else 0), child := Running(child),
              written := [], taken := 0, writerOpen := true);
    }

    method ClosePair(first: int, second: int) returns (finished: bool)
      requires Sound(k) && first in k.open_ && second in k.open_ && first != second
      requires first !in k.stuck && second !in k.stuck
      modifies this`k
      ensures !finished ==> k.script == []
      ensures finished ==> Sound(k) && (old(k).open_ == old(k).stuck + {first, second} ==> k.open_ == k.stuck)
      ensures finished ==> k.now >= old(k).now && k.waitFaults == old(k).waitFaults
      ensures finished ==> ChildLater(old(k).child, k.child, k.autoReap)
      ensures k.faults >= old(k).faults
    {
      if k.script == [] {
        return false;
      }
      var one := CloseFd(first);
      if k.script == [] {
        return false;
      }
      var two := CloseFd(second);
      finished := true;
    }

    /**
      The parent could not close its copy of the write end: it closes that descriptor a second time,
      stops and reaps the child, and closes the read end.
     */
    method Withdraw(child: int, first: int, second: int) returns (finished: bool)
      requires Sound(k.(doubleCloses := k.lostEnds)) && k.closeFaults > 0
      requires k.lostEnds == k.doubleCloses + (if second in k.open_ then 0 else 1)
      requires child > 0 && !k.child.NoChild? && k.child.pid == child
      requires first in k.open_ && first !in k.stuck && first != second
      requires k.open_ == k.stuck + {first}
      modifies this`k
      ensures !finished ==> k.script == []
      ensures finished ==> k.doubleCloses == k.lostEnds == old(k).lostEnds
      ensures finished ==> Sound(k) && k.open_ == k.stuck && (k.waitFaults == 0 ==> !Unreaped(k.child))
      ensures k.now >= old(k).now && k.faults >= old(k).faults
      ensures Calm(old(k).script, 5) ==> finished
    {
      if k.script == [] {
        return false;
      }
      var again := CloseFd(second);
      finished := KillAndReap(child);
      if !finished || k.script == [] {
        return false;
      }
      var closed := CloseFd(first);
    }

    /** Create the pipe and the child; afterwards the parent attends one worker, or nothing is left of it. */
    method Begin(timeoutMs: int64) returns (r: Outcome)
      requires Valid()
      modifies this
      ensures r.Failed? ==> delivered == old(delivered) && (old(active) ==> unchanged(this))
      ensures r == Unfinished ==> k.script == []
      ensures r == Failed(EOTHER) ==> k.faults > old(k).faults
      ensures !old(isChild) && r != Unfinished ==> !isChild
      ensures r != Unfinished ==> Valid()
      ensures r == Failed(EBUSY) <==> old(active)
      ensures r == Failed(EINVAL) <==> !old(active) && !(1 <= timeoutMs as int <= MAX_TIMEOUT_MS)
      ensures r == Failed(EBUSY) || r == Failed(EINVAL) ==> k == old(k)
      ensures r != Unfinished ==> k.doubleCloses - old(k).doubleCloses == k.lostEnds - old(k).lostEnds
      ensures r.Failed? && !old(active) ==> AtRest()
      ensures r == Success ==> active && !eofSeen && delivered == [] && pid > 0
      ensures r == Success ==> old(k).now <= deadline.Ns() - timeoutMs as int * NS_PER_MS <= k.now
      ensures r in {Success, Unfinished, Failed(EBUSY), Failed(EINVAL), Failed(EOTHER)}
    {
      if active {
        return Failed(EBUSY);
      }
      if timeoutMs < 1 || timeoutMs > 300000 {
        return Failed(EINVAL);
      }
      if k.script == [] {
        return Unfinished;
      }
      var clock := Clock();
      var made, limit := MakeDeadline(clock, timeoutMs);
      if !made {
        return Failed(EOTHER);
      }
      if k.script == [] {
        return Unfinished;
      }
      var piped, first, second := Pipe();
      if !piped {
        return Failed(EOTHER);
      }
      r := ForkWorker(first, second, limit);
    }

    /** fork, give up the write end, and record the worker. */
    method ForkWorker(first: int, second: int, limit: Timespec) returns (r: Outcome)
      requires Sound(k) && IsReset() && (k.waitFaults == 0 ==> !Unreaped(k.child)) && IsDeadline(limit)
      requires first >= 3 && second >= 3 && first != second && k.open_ == k.stuck + {first, second}
      requires first !in k.stuck && second !in k.stuck
      modifies this
      ensures r.Failed? ==> delivered == old(delivered)
      ensures r == Unfinished ==> k.script == []
      ensures r == Failed(EOTHER) ==> k.faults > old(k).faults
      ensures r != Unfinished ==> Valid() && k.now >= old(k).now
      ensures r.Failed? ==> AtRest()
      ensures r == Success ==> active && !isChild && !eofSeen && delivered == [] && pid > 0 && deadline == limit
      ensures r in {Success, Unfinished, Failed(EOTHER)}
    {
      if k.script == [] {
        return Unfinished;
      }
      var child := Fork();
      if child <= 0 {
        var finished := ClosePair(first, second);
        return if finished then Failed(EOTHER) else Unfinished;
      }
      if k.script == [] {
        return Unfinished;
      }
      r := GiveUpWriteEnd(child, first, second);
      if r == Success {
        Attend(child, first, limit);
      }
    }

    /** The parent's copy of the worker's state. */
    method Attend(child: int, first: int, limit: Timespec)
      requires Sound(k) && Attends(k, child, first, false) && k.taken == 0 && IsDeadline(limit)
      modifies this
      ensures Valid() && k == old(k)
      ensures active && !isChild && !eofSeen && delivered == [] && pid == child && deadline == limit
    {
      active, isChild, pid, readFd, writeFd := true, false, child, first, -1;
      eofSeen, reaped, status, deadline := false, false, Exited(0), limit;
      delivered := [];
    }

    /** Close the parent's copy of the write end, or withdraw. */
    method GiveUpWriteEnd(child: int, first: int, second: int) returns (r: Outcome)
      requires Sound(k) && child > 0 && k.child == Running(child) && k.taken == 0 && k.written == []
      requires first >= 3 && first != second && k.open_ == k.stuck + {first, second}
      requires first !in k.stuck && second !in k.stuck && k.script != []
      modifies this`k
      ensures r == Unfinished ==> k.script == []
      ensures r == Failed(EOTHER) ==> k.faults > old(k).faults
      ensures r != Unfinished ==> Sound(k) && k.now >= old(k).now
      // The write end is closed twice exactly when its first close failed after releasing it.
      ensures r != Unfinished ==> k.doubleCloses == k.lostEnds
      ensures r != Unfinished ==>
        k.lostEnds == old(k).lostEnds + (if old(k).script[0].answer == Broken(true) then 1 else 0)
      ensures r == Success ==> Attends(k, child, first, false) && k.taken == 0
      ensures r == Failed(EOTHER) ==> k.open_ == k.stuck && (k.waitFaults == 0 ==> !Unreaped(k.child))
      ensures r in {Success, Unfinished, Failed(EOTHER)}
      ensures old(k).script[0].answer.Broken? && Calm(old(k).script[1..], 5) ==> r == Failed(EOTHER)
    {
      var closed := CloseFd(second);
      if closed {
        return Success;
      }
      if second !in k.open_ {
        k := k.(lostEnds := k.lostEnds + 1);
      }
      var finished := Withdraw(child, first, second);
      r := if finished then Failed(EOTHER) else Unfinished;
    }

    // ---- Waiting for an event ----

    /** The timeout of the next poll: the caller's time left and at most one slice of the worker's. */
    method PreparePoll(limit: Option<Timespec>) returns (p: Prepared)
      requires (active ==> IsDeadline(deadline)) && (limit.Some? ==> IsDeadline(limit.value) && Near(k, limit.value))
      modifies this`k
      ensures p == Report(EventUnfinished) ==> k.script == []
      ensures Later(old(k), k) && Unpolled(old(k), k) && |old(k).script| <= |k.script| + 3
      ensures p.PollFor? && !active ==>
        if limit.None? then p.timeoutMs < 0 else limit.value.Ns() <= k.now + p.timeoutMs * NS_PER_MS
      ensures p.PollFor? && active ==>
        0 <= p.timeoutMs <= POLL_SLICE_MS && Idle(k) + p.timeoutMs * NS_PER_MS < deadline.Ns() + NS_PER_MS - old(k).busy
      ensures p.PollFor? && active ==> k.now < deadline.Ns()
      ensures active ==> Late(TrailOf(old(k)), TrailOf(k), TimeIs(deadline.Ns()), 2, 0)
      ensures p.PollFor? && limit.Some? ==>
        0 <= p.timeoutMs
        && (p.timeoutMs == 0 || Idle(k) + p.timeoutMs * NS_PER_MS < limit.value.Ns() + NS_PER_MS - old(k).busy)
      ensures p.PollFor? && 0 <= p.timeoutMs < 1 ==> limit.Some? && limit.value.Ns() <= k.now
      ensures p.Report? ==> p.event in {WorkerDeadline, EventError(EOTHER), EventUnfinished}
      ensures p.Report? ==> GoodEvent(p.event, limit)
      ensures p == Report(EventError(EOTHER)) ==> k.faults > old(k).faults
      ensures p == Report(WorkerDeadline) ==> active && deadline.Ns() <= k.now
    {
      hide Rest, Follows, Late;
      ghost var cut := TimeIs(deadline.Ns());
      p := CallerTimeout(limit);
      ghost var called := k;
      CutShort(old(k), called, cut);
      if p.Report? || !active {
        LateAnyway(TrailOf(old(k)), TrailOf(k), cut, 1, 2, 0);
        return;
      }
      var slice := WorkerSlice();
      LaterTwice(old(k), called, k);
      CutTwice(old(k), called, k, cut, 1, 1);
      if slice.Report? || p.timeoutMs < 0 || slice.timeoutMs < p.timeoutMs {
        p := slice;
      }
    }

    /** The caller's time left, rounded up; zero when it has passed and negative when there is no limit. */
    method CallerTimeout(limit: Option<Timespec>) returns (p: Prepared)
      requires limit.Some? ==> IsDeadline(limit.value) && Near(k, limit.value)
      modifies this`k
      ensures p == Report(EventUnfinished) ==> k.script == []
      ensures p.PollFor? && limit.Some? ==> limit.value.Ns() <= k.now + p.timeoutMs * NS_PER_MS
      ensures Later(old(k), k) && Unpolled(old(k), k) && |old(k).script| <= |k.script| + 1
      ensures p.PollFor? && limit.Some? ==>
        0 <= p.timeoutMs
        && (p.timeoutMs == 0 || Idle(k) + p.timeoutMs * NS_PER_MS < limit.value.Ns() + NS_PER_MS - old(k).busy)
      ensures p.PollFor? && limit.None? ==> p.timeoutMs == -1
      ensures p.PollFor? && 0 <= p.timeoutMs < 1 ==> limit.Some? && limit.value.Ns() <= k.now
      ensures p.Report? ==> p.event in {EventError(EOTHER), EventUnfinished}
      ensures p == Report(EventError(EOTHER)) ==> k.faults > old(k).faults
    {
      hide Follows;
      NoCall(TrailOf(k));
      if limit.None? {
        return PollFor(-1);
      }
      if k.script == [] {
        return Report(EventUnfinished);
      }
      var clock := Clock();
      var timeLeft, callerMs := TimeoutUntil(clock, limit.value);
      match timeLeft
      case ClockError => p := Report(EventError(EOTHER));
      case Expired => p := PollFor(0);
      case Left => p := PollFor(callerMs as int);
    }

    /** One slice of the worker's time left, or the report that none is. */
    method WorkerSlice() returns (p: Prepared)
      requires active && IsDeadline(deadline)
      modifies this`k
      ensures p == Report(EventUnfinished) ==> k.script == []
      ensures Later(old(k), k) && Unpolled(old(k), k) && |old(k).script| <= |k.script| + 2
      ensures p.PollFor? ==> 1 <= p.timeoutMs <= POLL_SLICE_MS && k.now < deadline.Ns()
      ensures p.PollFor? ==> Idle(k) + p.timeoutMs * NS_PER_MS < deadline.Ns() + NS_PER_MS - old(k).busy
      ensures Late(TrailOf(old(k)), TrailOf(k), TimeIs(deadline.Ns()), 1, 0)
      ensures p.Report? ==> p.event in {WorkerDeadline, EventError(EOTHER), EventUnfinished}
      ensures p == Report(EventError(EOTHER)) ==> k.faults > old(k).faults
      ensures p == Report(WorkerDeadline) ==> deadline.Ns() <= k.now
    {
      hide Follows, Late, Rest;
      ghost var cut := TimeIs(deadline.Ns());
      LaterSame(k);
      CutShort(k, k, cut);
      if k.script == [] {
        return Report(EventUnfinished);
      }
      var clock := Clock();
      CutShort(old(k), k, cut);
      var timeLeft, remaining := Remaining(clock, deadline);
      if timeLeft != Left {
        return Report(if timeLeft == Expired then WorkerDeadline else EventError(EOTHER));
      }
      if k.script == [] {
        return Report(EventUnfinished);
      }
      ghost var before := k;
      var sliceMs;
      timeLeft, sliceMs := PollTimeout(deadline);
      LaterTwice(old(k), before, k);
      CutShort(before, k, cut);
      CutTwice(old(k), before, k, cut, 0, 1);
      match timeLeft
      case ClockError => p := Report(EventError(EOTHER));
      case Expired => p := Report(WorkerDeadline);
      case Left => p := PollFor(sliceMs);
    }

    /** poll timed out: has the worker's or the caller's time passed, or is only the exit still awaited? */
    method AfterTimeout(limit: Option<Timespec>) returns (e: Option<Event>)
      requires (active ==> IsDeadline(deadline)) && (limit.Some? ==> IsDeadline(limit.value))
      modifies this`k
      ensures e == Some(EventUnfinished) ==> k.script == []
      ensures Later(old(k), k) && Unpolled(old(k), k) && |old(k).script| <= |k.script| + 2
      ensures active ==> Late(TrailOf(old(k)), TrailOf(k), TimeIs(deadline.Ns()), 1, 0)
      ensures e.None? ==> Late(TrailOf(old(k)), TrailOf(k), TimeIs(deadline.Ns()), 0, 0)
      ensures old(k).pending == 0 ==> Late(TrailOf(old(k)), TrailOf(k), SignalIsRecorded, 1, 0)
      ensures e.None? && limit.Some? ==> k.now < limit.value.Ns()
      ensures e.None? ==> active && !eofSeen
      ensures e.Some? ==> e.value in {WorkerDeadline, NoEvent, WorkerEof, EventError(EOTHER), EventUnfinished}
      ensures e == Some(WorkerDeadline) ==> active && deadline.Ns() <= k.now
      ensures e == Some(NoEvent) ==> !active || (limit.Some? && limit.value.Ns() <= k.now)
      ensures e == Some(WorkerEof) ==> active && eofSeen && (limit.Some? ==> k.now < limit.value.Ns())
      ensures e == Some(EventError(EOTHER)) ==> k.faults > old(k).faults
    {
      hide Follows, Late, Rest;
      ghost var worker, signal := TimeIs(deadline.Ns()), SignalIsRecorded;
      LaterSame(k);
      if active {
        e := WorkerTimePassed();
        if e.Some? {
          CutShort(old(k), k, worker);
          CutShort(old(k), k, signal);
          return;
        }
      }
      ghost var before := k;
      e := CallerTimePassed(limit);
      LaterTwice(old(k), before, k);
      TwoChecks(old(k), before, k, worker);
      TwoChecks(old(k), before, k, signal);
      if e.None? {
        e := if !active then Some(NoEvent) else if eofSeen then Some(WorkerEof) else None;
      }
    }

    /** The worker's side of a poll that timed out; None when its time has not passed. */
    method WorkerTimePassed() returns (e: Option<Event>)
      requires active && IsDeadline(deadline)
      modifies this`k
      ensures e == Some(EventUnfinished) ==> k.script == []
      ensures Later(old(k), k) && Unpolled(old(k), k) && |old(k).script| <= |k.script| + 1
      ensures e.None? ==> k.now < deadline.Ns()
      ensures e.Some? ==> e.value in {WorkerDeadline, EventError(EOTHER), EventUnfinished}
      ensures e == Some(WorkerDeadline) ==> deadline.Ns() <= k.now
      ensures e == Some(EventError(EOTHER)) ==> k.faults > old(k).faults
    {
      hide Follows, Rest;
      LaterSame(k);
      if k.script == [] {
        return Some(EventUnfinished);
      }
      var clock := Clock();
      var timeLeft, remaining := Remaining(clock, deadline);
      e := match timeLeft
        case Left => None
        case Expired => Some(WorkerDeadline)
        case ClockError => Some(EventError(EOTHER));
    }

    /** The caller's side; None when there is no limit or it has not passed. */
    method CallerTimePassed(limit: Option<Timespec>) returns (e: Option<Event>)
      requires limit.Some? ==> IsDeadline(limit.value)
      modifies this`k
      ensures e == Some(EventUnfinished) ==> k.script == []
      ensures Later(old(k), k) && Unpolled(old(k), k) && |old(k).script| <= |k.script| + 1
      ensures e.None? && limit.Some? ==> k.now < limit.value.Ns()
      ensures e.Some? ==> e.value in {NoEvent, EventError(EOTHER), EventUnfinished}
      ensures e == Some(NoEvent) ==> limit.Some? && limit.value.Ns() <= k.now
      ensures e == Some(EventError(EOTHER)) ==> k.faults > old(k).faults
    {
      hide Follows, Rest;
      LaterSame(k);
      if limit.None? {
        return None;
      }
      if k.script == [] {
        return Some(EventUnfinished);
      }
      var clock := Clock();
      var timeLeft, callerMs := TimeoutUntil(clock, limit.value);
      e := match timeLeft
        case Left => None
        case Expired => Some(NoEvent)
        case ClockError => Some(EventError(EOTHER));
    }

    /** What poll found, when it found something: None when it was nothing after all. */
    method Found(ready: Polled) returns (e: Option<Event>)
      requires ready.Readied? && ready.input == k.input && (ready.worker <==> active && !eofSeen && Readable(k))
      ensures e.None? ==> !ready.invalid && !ready.input && !ready.worker
      ensures e.Some? ==> e.value == if ready.invalid then EventError(EBADF) else Events(ready.input, ready.worker)
      ensures e.Some? && !ready.invalid ==> ready.input || ready.worker
    {
      if ready.invalid {
        return Some(EventError(EBADF));
      }
      var worker := active && !eofSeen && ready.worker;
      e := if ready.input || worker then Some(Events(ready.input, worker)) else None;
    }

    /** One turn of the waiting loop; None asks for another one. */
    method WaitTurn(limit: Option<Timespec>) returns (e: Option<Event>)
      requires (active ==> IsDeadline(deadline)) && (limit.Some? ==> IsDeadline(limit.value) && Near(k, limit.value))
      modifies this`k
      ensures k.counts.spins <= old(k).counts.spins + 1
      ensures k.counts.spins > old(k).counts.spins ==> e.Some? && limit.Some? && limit.value.Ns() <= k.now
      ensures e == Some(EventUnfinished) ==> k.script == []
      ensures e.Some? ==> Answered(old(k), k, e.value)
      ensures active && !eofSeen ==> k.counts.blind == old(k).counts.blind
      ensures Later(old(k), k) && (e.None? ==> |k.script| < |old(k).script|) && |old(k).script| <= |k.script| + 6
      ensures e.None? ==> k.counts.polls == old(k).counts.polls + 1 && NoneFound(old(k), k)
      ensures IdleAtLast(old(k), k) && (e.None? && (!active || eofSeen) ==> NoneIdle(old(k), k))
      ensures active ==> Idle(k) <= Max(Idle(old(k)), deadline.Ns() + NS_PER_MS - old(k).busy)
      ensures active ==> Idle(k) <= Idle(old(k)) + SLICE_NS
      ensures limit.Some? ==> Idle(k) <= Max(Idle(old(k)), limit.value.Ns() + NS_PER_MS - old(k).busy)
      ensures active ==> Late(TrailOf(old(k)), TrailOf(k), TimeIs(deadline.Ns()), 2, 0)
      ensures active && e.None? ==> Late(TrailOf(old(k)), TrailOf(k), TimeIs(deadline.Ns()), 0, 0)
      ensures e.None? && limit.Some? ==> Late(TrailOf(old(k)), TrailOf(k), TimeIs(limit.value.Ns()), 0, 4)
      ensures Late(TrailOf(old(k)), TrailOf(k), SignalIsRecorded, 4, 0)
      ensures e.None? ==> old(k).pending == 0 && Late(TrailOf(old(k)), TrailOf(k), SignalIsRecorded, 1, 0)
      ensures e.None? && k.pending != 0 ==> Idle(k) + old(k).busy <= k.pendingSince
      ensures e.Some? ==> GoodEvent(e.value, limit) && (e.value.EventError? ==> k.faults > old(k).faults)
    {
      hide Rest, Flow, Late, Readable, Answered, NoneFound, Unpolled, IdleAtLast, NoneIdle;
      var prepared := PreparePoll(limit);
      ghost var before := k;
      assert GoodEvent(EventUnfinished, limit);
      hide GoodEvent;
      FlowFacts(old(k), before);
      IdleUnpolled(old(k), before);
      if prepared.Report? || k.script == [] {
        TurnUnasked(old(k), k);
        if prepared.Report? {
          return Some(prepared.event);
        }
        return Some(EventUnfinished);
      }
      e := PollOnce(prepared.timeoutMs, limit);
      FlowFacts(before, k);
      TurnSince(old(k), before, k);
      if active {
        TurnEnds(old(k), before, k, TimeIs(deadline.Ns()), 1);
        LateAnyway(TrailOf(old(k)), TrailOf(k), TimeIs(deadline.Ns()), 1, 2, 0);
      }
      if limit.Some? && e.None? {
        TurnGoesOn(old(k), before, k, limit.value.Ns());
      }
    }

    /** poll, and what its outcome means: a signal goes first, nothing at all asks for another turn. */
    method PollOnce(timeoutMs: int, limit: Option<Timespec>) returns (e: Option<Event>)
      requires (active ==> IsDeadline(deadline)) && (limit.Some? ==> IsDeadline(limit.value)) && k.script != []
      requires active ==> k.now < deadline.Ns()
      requires !active ==>
        if limit.None? then timeoutMs < 0 else limit.value.Ns() <= k.now + timeoutMs * NS_PER_MS
      requires 0 <= timeoutMs < 1 ==> limit.Some? && limit.value.Ns() <= k.now
      modifies this`k
      ensures k.counts.spins <= old(k).counts.spins + 1
      ensures k.counts.spins > old(k).counts.spins ==> e.Some? && limit.Some? && limit.value.Ns() <= k.now
      ensures e.Some? ==> Answered(old(k), k, e.value)
      ensures active && !eofSeen ==> k.counts.blind == old(k).counts.blind
      ensures Later(old(k), k) && |k.script| < |old(k).script| <= |k.script| + 3
      ensures k.counts.polls == old(k).counts.polls + 1 && (e.None? ==> NoneFound(old(k), k))
      ensures IdleAtLast(old(k), k) && (e.None? && (!active || eofSeen) ==> NoneIdle(old(k), k))
      ensures e == Some(EventUnfinished) ==> k.script == []
      ensures timeoutMs >= 0 ==> Idle(k) <= Idle(old(k)) + timeoutMs * NS_PER_MS
      ensures active ==> Late(TrailOf(old(k)), TrailOf(k), TimeIs(deadline.Ns()), 1, 0)
      ensures active && e.None? ==> Late(TrailOf(old(k)), TrailOf(k), TimeIs(deadline.Ns()), 0, 0)
      ensures Late(TrailOf(old(k)), TrailOf(k), SignalIsRecorded, 1, 0) && (e.None? ==> old(k).pending == 0)
      ensures e.None? && limit.Some? ==>
        k.now < limit.value.Ns() || (|old(k).script| == |k.script| + 1 && k.interruptions > old(k).interruptions)
      ensures e.None? && k.pending != 0 ==> Idle(k) + old(k).busy <= k.pendingSince
      ensures e.Some? ==> GoodEvent(e.value, limit) && (e.value.EventError? ==> k.faults > old(k).faults)
    {
      hide Rest, Flow, Late, Readable, Answered, AfterPolling, IdleAtLast, NoneIdle;
      var ready := Poll(timeoutMs, active && !eofSeen);
      FlowFacts(old(k), k);
      ghost var polled := k;
      IdleOnce(old(k), polled, polled, ready);
      PollAnswered(old(k), polled, ready, timeoutMs, active && !eofSeen);
      ghost var worker, signal := TimeIs(deadline.Ns()), SignalIsRecorded;
      CutShort(old(k), polled, worker);
      CutShort(old(k), polled, signal);
      if k.pending != 0 {
        return Some(Termination);
      }
      if ready == PollInterrupted {
        return None;
      }
      if ready == PollFailed {
        return Some(EventError(EOTHER));
      }
      if ready == TimedOut {
        e := IdlePoll(limit, old(k));
        IdleOnce(old(k), polled, k, ready);
        FlowFacts(old(k), k);
      } else {
        e := Found(ready);
      }
    }

    /** What follows a poll that timed out. */
    method IdlePoll(limit: Option<Timespec>, ghost k0: Kernel) returns (e: Option<Event>)
      requires (active ==> IsDeadline(deadline)) && (limit.Some? ==> IsDeadline(limit.value))
      requires Later(k0, k) && |k0.script| == |k.script| + 1 && k.pending == 0 && (active ==> k0.now < deadline.Ns())
      requires !active ==> limit.Some? && limit.value.Ns() <= k.now
      requires |k.found| > |k0.found| && NoneFound(k0, k)
      modifies this`k
      ensures Later(k0, k) && Unpolled(old(k), k) && NoneFound(k0, k) && |k0.script| <= |k.script| + 3
      ensures e == Some(EventUnfinished) ==> k.script == []
      ensures Idle(k) == Idle(old(k)) && (k.pending != 0 ==> old(k).now <= k.pendingSince)
      ensures |k.script| <= |old(k).script|
      ensures active ==> Late(TrailOf(k0), TrailOf(k), TimeIs(deadline.Ns()), 1, 0)
      ensures active && e.None? ==> Late(TrailOf(k0), TrailOf(k), TimeIs(deadline.Ns()), 0, 0)
      ensures Late(TrailOf(k0), TrailOf(k), SignalIsRecorded, 1, 0)
      ensures e.None? ==> active && !eofSeen && (limit.Some? ==> k.now < limit.value.Ns())
      ensures e.Some? ==> Answered(k0, k, e.value) && GoodEvent(e.value, limit)
      ensures e.Some? ==> Negative(e.value) || (e.value == EventError(EOTHER) && k.faults > k0.faults)
    {
      hide Rest, Flow, Late, Readable, Answered;
      ghost var polled := k;
      ghost var worker, signal := TimeIs(deadline.Ns()), SignalIsRecorded;
      FlowFacts(k0, polled);
      CutShort(k0, polled, worker);
      CutShort(k0, polled, signal);
      e := AfterTimeout(limit);
      LaterTwice(k0, polled, k);
      FlowFacts(polled, k);
      IdleAnswered(k0, polled, k);
      PollEnds(k0, polled, k, signal);
      if active {
        PollEnds(k0, polled, k, worker);
      }
    }

    /** What an answer says about the state it is given in. */
    ghost predicate GoodEvent(e: Event, limit: Option<Timespec>)
      reads this
    {
      match e
      case Events(input, worker) =>
        && (input || worker) && input == k.input && k.pending == 0
        && (worker <==> active && !eofSeen && Readable(k))
      case Termination => k.pending != 0
      case WorkerDeadline => active && deadline.Ns() <= k.now
      case WorkerEof => active && eofSeen && (limit.Some? ==> k.now < limit.value.Ns())
      case NoEvent => limit.Some? && limit.value.Ns() <= k.now
      case EventError(errno) => errno in {EBADF, EOTHER}
      case EventUnfinished => true
    }

    /** Wait for input, for the worker, or for the caller's time to pass; the deadline and signals stay observable. */
    method WaitEvent(timeoutMs: int64) returns (r: Event)
      requires Valid()
      modifies this`k
      ensures r == EventUnfinished ==> k.script == []
      ensures Valid() && Later(old(k), k)
      ensures r == EventError(EINVAL) <==> !(-1 <= timeoutMs as int <= MAX_TIMEOUT_MS)
      ensures r == EventError(ECHILD) <==> -1 <= timeoutMs as int <= MAX_TIMEOUT_MS && isChild
      // What each answer means.
      ensures r == WorkerDeadline ==> active && deadline.Ns() <= k.now
      ensures r == NoEvent ==> timeoutMs >= 0 && old(k).now + timeoutMs as int * NS_PER_MS <= k.now
      // A poll that finds something is answered, and "nothing" is only said after polling.
      ensures old(k).found <= k.found && forall i :: |old(k).found| <= i < |k.found| ==>
        match k.found[i]
        case Readied(input, worker, invalid) =>
          input || worker || invalid ==>
            && i == |k.found| - 1
            && (if k.pending != 0 then r == Termination
                else if invalid then r == EventError(EBADF) else r == Events(input, worker))
        case PollFailed => i == |k.found| - 1 && r == if k.pending != 0 then Termination else EventError(EOTHER)
        case _ => true
      ensures r == NoEvent || r == WorkerEof ==> |k.found| > |old(k).found|
      // Without a worker, or when its end was seen, a poll that runs out of time is the last.
      ensures !isChild && (!active || eofSeen) ==>
        forall i :: |old(k).found| <= i < |k.found| && k.found[i] == TimedOut ==> i == |k.found| - 1
      ensures r.Events? ==> |k.found| > |old(k).found| && k.found[|k.found| - 1] == Readied(r.input, r.worker, false)
      // Every poll watches the pipe while its end was not seen.
      ensures active && !isChild && !eofSeen ==> k.counts.blind == old(k).counts.blind
      ensures r.Events? ==> (r.input || r.worker) && r.input == k.input && k.pending == 0
      ensures r.Events? ==> (r.worker <==> active && !eofSeen && Readable(k))
      ensures r == WorkerEof ==>
        active && eofSeen && (timeoutMs >= 0 ==> k.now < CallerEnd(old(k), k, timeoutMs as int))
      ensures r == Termination ==> k.pending != 0
      ensures old(k).pending != 0 ==> r == Termination || r.EventError? || r == EventUnfinished
      ensures r.EventError? && r.errno !in {EINVAL, ECHILD} ==> r.errno in {EBADF, EOTHER} && k.faults > old(k).faults
      // At most three system calls start once the deadline has passed, and five more once a signal is recorded.
      ensures active && !isChild ==> Late(TrailOf(old(k)), TrailOf(k), TimeIs(deadline.Ns()), 3, 0)
      ensures Late(TrailOf(old(k)), TrailOf(k), SignalIsRecorded, 5, 0)
      // So it returns in time, but for the last few calls.
      ensures active && !isChild ==>
        k.now <= Max(old(k).now, deadline.Ns() + NS_PER_MS) + Recent(TrailOf(old(k)), TrailOf(k), 9)
      ensures active && !isChild && old(k).pending == 0 && k.pending != 0 ==>
        k.now <= k.pendingSince + SLICE_NS + Recent(TrailOf(old(k)), TrailOf(k), 11)
      // Once the caller's time is up, only interruptions can make it go on.
      ensures timeoutMs >= 0 ==> Punctual(old(k), k, CallerEnd(old(k), k, timeoutMs as int), 7, 4)
      // It keeps polling.
      ensures KeepsPolling(old(k), k, 7)
      // It does not spin: a poll without time is made once, when the caller's time is up.
      ensures k.counts.spins <= old(k).counts.spins + 1
      ensures k.counts.spins > old(k).counts.spins ==>
        timeoutMs >= 0 && CallerEnd(old(k), k, timeoutMs as int) <= k.now
    {
      hide Follows, Late, Timely, CallerEnd, Readable, FirstReading, Heard;
      WaitNothing(k);
      PunctualAtOnce(k, deadline.Ns(), 3, 0);
      PunctualAtOnce(k, CallerEnd(k, k, timeoutMs as int), 7, 4);
      if timeoutMs < -1 || timeoutMs > 300000 {
        return EventError(EINVAL);
      }
      if isChild {
        return EventError(ECHILD);
      }
      r := WaitFor(timeoutMs);
      if active {
        LateEnds(TrailOf(old(k)), TrailOf(k), deadline.Ns(), 3);
        if old(k).pending == 0 && k.pending != 0 {
          HeardEnds(TrailOf(old(k)), TrailOf(k), SLICE_NS, 5);
        }
      }
    }

    /** The instant at which the caller's time is up, if it is limited. */
    method CallerLimit(timeoutMs: int64) returns (early: Option<Event>, limit: Option<Timespec>)
      requires -1 <= timeoutMs as int <= MAX_TIMEOUT_MS
      modifies this`k
      ensures early == Some(EventUnfinished) ==> k.script == []
      ensures Later(old(k), k) && Unpolled(old(k), k) && |old(k).script| <= |k.script| + 1
      ensures early.None? && timeoutMs >= 0 ==> |old(k).script| == |k.script| + 1
      ensures early.Some? ==>
        early.value == EventUnfinished || (early.value == EventError(EOTHER) && k.faults > old(k).faults)
      ensures early.None? ==> (limit.Some? <==> timeoutMs >= 0)
      ensures early.None? && timeoutMs >= 0 ==>
        IsDeadline(limit.value) && limit.value.Ns() == k.now + timeoutMs as int * NS_PER_MS
    {
      if timeoutMs < 0 {
        return None, None;
      }
      if k.script == [] {
        return Some(EventUnfinished), None;
      }
      var clock := Clock();
      var made, end := MakeDeadline(clock, timeoutMs);
      if !made {
        return Some(EventError(EOTHER)), None;
      }
      early, limit := None, Some(end);
    }

    /** The wait proper, for a parent and an admissible timeout. */
    method WaitFor(timeoutMs: int64) returns (r: Event)
      requires (active ==> IsDeadline(deadline)) && -1 <= timeoutMs as int <= MAX_TIMEOUT_MS
      modifies this`k
      ensures r == EventUnfinished ==> k.script == []
      ensures Later(old(k), k)
      ensures r == WorkerDeadline ==> active && deadline.Ns() <= k.now
      ensures r == NoEvent ==> timeoutMs >= 0 && old(k).now + timeoutMs as int * NS_PER_MS <= k.now
      ensures Answered(old(k), k, r) && (active && !eofSeen ==> k.counts.blind == old(k).counts.blind)
      ensures !active || eofSeen ==> IdleAtLast(old(k), k)
      ensures r == WorkerEof && timeoutMs >= 0 ==> k.now < CallerEnd(old(k), k, timeoutMs as int)
      ensures r.Events? ==> (r.input || r.worker) && r.input == k.input && k.pending == 0
      ensures r.Events? ==> (r.worker <==> active && !eofSeen && Readable(k))
      ensures r == WorkerEof ==> active && eofSeen
      ensures r == Termination ==> k.pending != 0
      ensures r.EventError? ==> r.errno in {EBADF, EOTHER} && k.faults > old(k).faults
      ensures old(k).pending != 0 ==> r == Termination || r.EventError? || r == EventUnfinished
      ensures active ==> Punctual(old(k), k, deadline.Ns(), 3, 0)
      ensures timeoutMs >= 0 ==> Punctual(old(k), k, CallerEnd(old(k), k, timeoutMs as int), 7, 4)
      ensures Late(TrailOf(old(k)), TrailOf(k), SignalIsRecorded, 5, 0)
      ensures active ==> Heard(TrailOf(old(k)), TrailOf(k), SLICE_NS)
      ensures KeepsPolling(old(k), k, 7)
      ensures Spinning(old(k), k, if timeoutMs >= 0 then Some(CallerEnd(old(k), k, timeoutMs as int)) else None)
    {
      hide Rest, Flow, Late, Timely, Heard, Punctual, KeepsPolling, Unpolled, CallerEnd, Readable, Answered;
      hide NoneIdle, IdleAtLast;
      var early, limit := CallerLimit(timeoutMs);
      ghost var before := k;
      FlowFacts(old(k), before);
      IdleUnpolled(old(k), before);
      if early.Some? || k.pending != 0 {
        PrepareWait(old(k), before, deadline.Ns());
        NoHit(old(k), before);
        return if early.Some? then early.value else Termination;
      }
      r := WaitLoop(limit);
      FlowFacts(before, k);
      LoopEnds(old(k), before, k, r);
      if active {
        WorkerEnds(old(k), before, k, deadline.Ns());
      }
      if timeoutMs >= 0 {
        CallerEnds(old(k), before, k, timeoutMs as int);
        SameEnd(old(k), before, k, timeoutMs as int);
      }
    }

    method WaitLoop(limit: Option<Timespec>) returns (r: Event)
      requires (active ==> IsDeadline(deadline)) && (limit.Some? ==> IsDeadline(limit.value) && Near(k, limit.value))
      requires k.pending == 0
      modifies this`k
      ensures Answered(old(k), k, r) && (active && !eofSeen ==> k.counts.blind == old(k).counts.blind)
      ensures !active || eofSeen ==> IdleAtLast(old(k), k)
      ensures r == EventUnfinished ==> k.script == []
      ensures Later(old(k), k) && GoodEvent(r, limit) && (r.EventError? ==> k.faults > old(k).faults)
      ensures active ==> Punctual(old(k), k, deadline.Ns(), 2, 0)
      ensures limit.Some? ==> Punctual(old(k), k, limit.value.Ns(), 6, 4)
      ensures Late(TrailOf(old(k)), TrailOf(k), SignalIsRecorded, 5, 0)
      ensures active ==> Heard(TrailOf(old(k)), TrailOf(k), SLICE_NS)
      ensures KeepsPolling(old(k), k, 6)
      ensures Spinning(old(k), k, if limit.Some? then Some(limit.value.Ns()) else None)
    {
      hide Rest, Flow, Late, Timely, Heard, Punctual, Answered, NoneIdle, IdleAtLast, NoneFound, Underway;
      ghost var settles := !active || eofSeen;
      ghost var worker: Option<int> := if active then Some(deadline.Ns()) else None;
      ghost var caller: Option<int> := if limit.Some? then Some(limit.value.Ns()) else None;
      UnderwayAtOnce(k, settles, worker, caller);
      while true
        invariant Underway(old(k), k, settles, worker, caller) && Later(old(k), k)
        invariant active && !eofSeen ==> k.counts.blind == old(k).counts.blind
        invariant limit.Some? ==> Near(k, limit.value)
        decreases |k.script|
      {
        ghost var before := k;
        var e := WaitTurn(limit);
        LaterTwice(old(k), before, k);
        FlowFacts(old(k), before);
        FlowFacts(before, k);
        if e.Some? {
          WaitEnds(old(k), before, k, settles, worker, caller, e.value);
          return e.value;
        }
        StillUnderway(old(k), before, k, settles, worker, caller);
      }
    }

    // ---- Reading the output ----

    /** The next bytes of the output, in order and without gaps, or its end; in time and without a signal. */
    method Read(count: nat) returns (r: ReadResult)
      requires Valid()
      modifies this
      ensures r.Bytes? || r.NotReady? ==> eofSeen == old(eofSeen)
      ensures r.ReadError? ==> delivered == old(delivered)
      ensures r == ReadError(EINVAL) ==> unchanged(this)
      ensures r == ReadUnfinished ==> k.script == []
      // At most eight calls start past the deadline or once a signal is recorded, and one for each interruption.
      ensures Prompt(old(k), k, old(deadline).Ns(), 8)
      ensures Polling(old(k), k, 7)
      // Whenever the pipe is found readable it is read, and the first read that is not in vain is answered.
      ensures Fetches(old(k).counts, k.counts, if r == ReadUnfinished then 1 else 0)
      ensures k.counts.spins == old(k).counts.spins
      ensures GotAnswer(old(k).counts, k.counts, r)
      ensures r.ReadError? && r.errno in {EBADF, EOTHER} ==> k.faults > old(k).faults
      ensures !old(isChild) && r != ReadUnfinished ==> !isChild
      ensures Flow(old(k), k)
      ensures r != ReadUnfinished ==> Valid()
      ensures r == ReadError(EINVAL) <==> !old(active) || old(isChild)
      ensures r.Bytes? ==> active && |r.bytes| <= count && (count > 0 ==> r.bytes != [])
      ensures r.Bytes? ==> delivered == old(delivered) + r.bytes
      ensures r.Bytes? && count > 0 ==> k.checked < deadline.Ns() && k.pending == 0
      ensures r.Eof? ==> active && eofSeen && !k.writerOpen && delivered == old(delivered) == k.written
      ensures r.ReadError? && r.errno != EINVAL ==> AtRest() && delivered == old(delivered)
      ensures r == ReadError(ETIMEDOUT) ==> old(deadline).Ns() <= k.now
      ensures r == ReadError(EINTR) ==> k.pending != 0
      ensures !r.NotReady?
    {
      if !active || isChild || readFd < 0 {
        PromptNothing(k, deadline.Ns());
        return ReadError(EINVAL);
      }
      hide Flow, Rest, Prompt, Sound, Attends;
      PromptNothing(k, deadline.Ns());
      if count == 0 {
        return Bytes([]);
      }
      r := NotReady;
      while r == NotReady
        invariant Flow(old(k), k)
        invariant r == NotReady ==> Valid() && Attending() && delivered == old(delivered) && deadline == old(deadline)
        invariant r != ReadUnfinished ==> Valid()
        invariant r == ReadUnfinished ==> k.script == []
        invariant GoodRead(r, count, old(delivered), old(deadline))
        invariant r.Bytes? || r.NotReady? ==> eofSeen == old(eofSeen)
        invariant r.ReadError? && r.errno in {EBADF, EOTHER} ==> k.faults > old(k).faults
        invariant Prompt(old(k), k, old(deadline).Ns(), if r == NotReady then 2 else 8)
        invariant Polling(old(k), k, if r == NotReady then 0 else 7)
        invariant Fetches(old(k).counts, k.counts, if r == ReadUnfinished then 1 else 0)
        invariant GotAnswer(old(k).counts, k.counts, r)
        decreases if r == NotReady then 1 else 0, |k.script|
      {
        ghost var before := k;
        r := ReadTurn(count);
        FlowTwice(old(k), before, k);
        GoOn(old(k), before, k, old(deadline).Ns(), r == NotReady, 2, 6);
      }
    }

    /** What a result says about the bytes delivered before and after. */
    ghost predicate GoodRead(r: ReadResult, count: nat, before: seq<byte>, limit: Timespec)
      reads this
    {
      match r
      case Bytes(bytes) =>
        && active && !isChild && 0 < |bytes| <= count && delivered == before + bytes
        && k.checked < deadline.Ns() && k.pending == 0
      case Eof => active && !isChild && eofSeen && !k.writerOpen && delivered == before == k.written
      case NotReady => active && !isChild && delivered == before
      case ReadError(errno) =>
        && AtRest() && delivered == before && errno in {EINTR, ETIMEDOUT, EBADF, EOTHER}
        && (errno == ETIMEDOUT ==> limit.Ns() <= k.now) && (errno == EINTR ==> k.pending != 0)
      case ReadUnfinished => true
    }

    method FailRead(errno: Errno) returns (r: ReadResult)
      requires Sound(k) && Attending()
      modifies this
      ensures r == ReadUnfinished ==> k.script == []
      ensures Flow(old(k), k) && delivered == old(delivered) && Brief(old(k), k, 4) && OnlyChecked(old(k), k)
      ensures r == ReadUnfinished || (r == ReadError(errno) && Valid() && AtRest())
    {
      var ended := FailAndAbort(errno);
      r := if ended.Failed? then ReadError(errno) else ReadUnfinished;
    }

    /** One turn of the reading loop: NotReady asks for another one. */
    method ReadTurn(count: nat) returns (r: ReadResult)
      requires Valid() && Attending() && count > 0
      modifies this
      ensures r.Bytes? || r.NotReady? ==> eofSeen == old(eofSeen)
      ensures r == ReadUnfinished ==> k.script == []
      ensures Prompt(old(k), k, old(deadline).Ns(), if r == NotReady then 2 else 6)
      ensures Polling(old(k), k, if r == NotReady then 0 else 7)
      ensures Fetches(old(k).counts, k.counts, if r == ReadUnfinished then 1 else 0)
      ensures GotAnswer(old(k).counts, k.counts, r)
      ensures old(k).pending != 0 ==> Idle(k) == Idle(old(k))
      ensures r == NotReady ==> old(k).now < old(deadline).Ns() && old(k).pending == 0
      ensures r.ReadError? && r.errno in {EBADF, EOTHER} ==> k.faults > old(k).faults
      ensures Flow(old(k), k) && (r == NotReady ==> |k.script| < |old(k).script| && deadline == old(deadline))
      ensures r != ReadUnfinished ==> Valid()
      ensures GoodRead(r, count, old(delivered), old(deadline))
    {
      hide Attends, Sound, Flow, Rest, Late, Timely, Heard, Punctual, Prompt, Brief;
      ghost var k0 := k;
      var guard := Guard();
      ghost var k1 := k;
      LaterAttends(k0, k1, pid, readFd, eofSeen);
      HandsOver(k0, k1, delivered);
      if !guard.Proceed? || k.script == [] {
        r := Refused(guard);
        FlowTwice(k0, k1, k);
        FlowFacts(k1, k);
        RefusedIsPrompt(k0, k1, k, old(deadline).Ns());
        BriefCount(k0, k, 6);
        return;
      }
      FlowFacts(k0, k1);
      var ready := AwaitPipe(guard.timeoutMs);
      ghost var k2 := k;
      LaterAttends(k1, k2, pid, readFd, eofSeen);
      HandsOver(k1, k2, delivered);
      FlowTwice(k0, k1, k2);
      LaterSame(k1);
      GuardedPoll(k0, k1, k1, k2, deadline.Ns(), guard.timeoutMs);
      if ready == PipeNotReady {
        PromptAnyway(k0, k2, deadline.Ns(), 1, 2);
        return NotReady;
      }
      r := AfterPoll(ready, count);
      BriefCount(k2, k, if r == NotReady then 1 else 5);
      FlowFacts(k0, k1);
      FlowFacts(k1, k2);
      FlowTwice(k0, k2, k);
      PromptThenBrief(k0, k2, k, old(deadline).Ns(), 1, if r == NotReady then 1 else 5);
    }

    /** The guard refuses: give the worker up, unless the run ends. */
    method Refused(guard: Guarded) returns (r: ReadResult)
      requires Valid() && Attending() && (guard.Refuse? || k.script == [])
      modifies this
      ensures r == ReadUnfinished ==> k.script == []
      ensures Flow(old(k), k) && delivered == old(delivered) && Brief(old(k), k, 4) && OnlyChecked(old(k), k)
      ensures r == ReadUnfinished || (guard.Refuse? && r == ReadError(guard.errno) && Valid() && AtRest())
    {
      hide Attends, Sound, Flow, Rest;
      BriefNothing(k);
      BriefAnyway(k, k, 0, 4);
      PromptNothing(k, 0);
      if !guard.Refuse? {
        return ReadUnfinished;
      }
      r := FailRead(guard.errno);
    }

    /** poll has ended: fail, or read what there is. */
    method AfterPoll(ready: Readiness, count: nat) returns (r: ReadResult)
      requires Valid() && Attending() && count > 0 && k.checked < deadline.Ns() && ready != PipeNotReady
      requires ready.PipeError? ==> ready.errno in {EINTR, EBADF, EOTHER} && (ready.errno == EINTR ==> k.pending != 0)
      modifies this
      ensures r.Bytes? || r.NotReady? ==> eofSeen == old(eofSeen)
      ensures r == ReadUnfinished ==> k.script == []
      ensures r == NotReady ==> !Readable(k) || k.interruptions > old(k).interruptions
      ensures ready == PipeReady && r.ReadError? && r.errno in {EBADF, EOTHER} ==> k.faults > old(k).faults
      ensures ready.PipeError? ==> r == ReadUnfinished || r == ReadError(ready.errno)
      ensures Flow(old(k), k) && k.faults >= old(k).faults && Brief(old(k), k, if r == NotReady then 1 else 5)
      ensures if ready == PipeReady then ReadOnce(old(k).counts, k.counts, r) else OnlyChecked(old(k), k)
      ensures r == NotReady ==> |k.script| < |old(k).script| && deadline == old(deadline)
      ensures r != ReadUnfinished ==> Valid()
      ensures GoodRead(r, count, old(delivered), old(deadline))
    {
      hide Attends, Sound, Rest, Late, Follows;
      if ready.PipeError? {
        r := FailRead(ready.errno);
        BriefAnyway(old(k), k, 4, 5);
      } else {
        r := Receive(count);
      }
    }

    /** Wait for the pipe; a signal that arrived meanwhile goes before what poll found. */
    method AwaitPipe(timeoutMs: int) returns (r: Readiness)
      requires k.script != [] && timeoutMs >= 0
      modifies this`k
      ensures Later(old(k), k) && |k.script| == |old(k).script| - 1 && k.checked == old(k).checked
      ensures Idle(k) <= Idle(old(k)) + timeoutMs * NS_PER_MS
      ensures PolledOnce(old(k).counts, k.counts, timeoutMs, r == PipeReady)
      ensures r.PipeError? ==> r.errno in {EINTR, EBADF, EOTHER} && (r.errno == EINTR ==> k.pending != 0)
      ensures r.PipeError? && r.errno != EINTR ==> k.faults > old(k).faults
    {
      hide Follows, Rest;
      var ready := Poll(timeoutMs, true);
      if ready == PollInterrupted {
        return PipeNotReady;
      }
      if ready == PollFailed {
        return PipeError(EOTHER);
      }
      if k.pending != 0 {
        return PipeError(EINTR);
      }
      if ready == TimedOut {
        return PipeNotReady;
      }
      if ready.invalid {
        return PipeError(EBADF);
      }
      r := if ready.worker then PipeReady else PipeNotReady;
    }

    /** Read from the pipe once and hand the bytes over, unless a signal has arrived meanwhile. */
    method Receive(count: nat) returns (r: ReadResult)
      requires Valid() && Attending() && count > 0 && k.checked < deadline.Ns()
      modifies this
      ensures r.Bytes? || r.NotReady? ==> eofSeen == old(eofSeen)
      ensures r == ReadUnfinished ==> k.script == []
      ensures r == NotReady ==> !Readable(k) || k.interruptions > old(k).interruptions
      ensures r.ReadError? && r.errno in {EBADF, EOTHER} ==> k.faults > old(k).faults
      ensures Flow(old(k), k) && (r == NotReady ==> |k.script| < |old(k).script| && deadline == old(deadline))
      ensures k.faults >= old(k).faults && Brief(old(k), k, if r == NotReady then 1 else 5)
      ensures ReadOnce(old(k).counts, k.counts, r)
      ensures r != ReadUnfinished ==> Valid()
      ensures GoodRead(r, count, old(delivered), old(deadline))
    {
      hide Follows, Late, Brief, Attends, Sound, Flow, Rest, ReadOnce, AfterReading, OnlyChecked;
      BriefNothing(k);
      FlowSame(k);
      if k.script == [] {
        BriefAnyway(k, k, 0, 5);
        ReadNothing(k.counts);
        return ReadUnfinished;
      }
      ghost var before := k;
      AttendsFacts(k, pid, readFd, eofSeen);
      var received := ReadPipe(count);
      FlowFacts(before, k);
      ReadAttends(before, k, pid, readFd, eofSeen);
      BriefRead(before, k);
      ghost var read := k;
      match received
      case Data(bytes) =>
        if k.pending != 0 {
          r := FailRead(EINTR);
          BriefThen(before, read, k);
          FlowFacts(read, k);
          ReadThenEnded(before.counts, read, k, received, r);
          return;
        }
        ReadAnswers(before.counts, k.counts, received);
        TakeMore(before.written, k.written, before.taken, k.taken, delivered, bytes);
        delivered := delivered + bytes;
        r := Bytes(bytes);
      case EndOfFile =>
        ReadAnswers(before.counts, k.counts, received);
        eofSeen := true;
        r := Eof;
      case ReadFailed =>
        r := FailRead(EOTHER);
        BriefThen(before, read, k);
        ReadThenEnded(before.counts, read, k, received, r);
      case _ =>
        ReadAnswers(before.counts, k.counts, received);
        r := NotReady;
    }

    /** What is in the pipe now, without waiting: NotReady when there is nothing yet. */
    method ReadAvailable(count: nat) returns (r: ReadResult)
      requires Valid()
      modifies this
      ensures r.Bytes? || r.NotReady? ==> eofSeen == old(eofSeen)
      ensures r.ReadError? ==> delivered == old(delivered)
      ensures r == ReadError(EINVAL) ==> unchanged(this)
      ensures r == ReadUnfinished ==> k.script == []
      ensures r == NotReady ==> !Readable(k) || k.interruptions > old(k).interruptions
      // It never waits inside poll, and makes at most seven calls and one for each interruption.
      ensures Brief(old(k), k, 7)
      ensures r.ReadError? && r.errno in {EBADF, EOTHER} ==> k.faults > old(k).faults
      ensures !old(isChild) && r != ReadUnfinished ==> !isChild
      ensures Flow(old(k), k)
      ensures r != ReadUnfinished ==> Valid()
      ensures r == ReadError(EINVAL) <==> !old(active) || old(isChild)
      ensures old(active) && !old(isChild) && count == 0 ==>
        r == Bytes([]) && k == old(k) && delivered == old(delivered)
      ensures old(active) && !old(isChild) && count > 0 && old(eofSeen) ==>
        r == Eof && delivered == old(delivered) == k.written
      ensures old(active) && !old(isChild) && count > 0 && !old(eofSeen) ==>
        GoodRead(r, count, old(delivered), old(deadline))
    {
      BriefNothing(k);
      BriefAnyway(k, k, 0, 7);
      if !active || isChild || pid <= 0 || readFd < 0 {
        return ReadError(EINVAL);
      }
      if count == 0 {
        return Bytes([]);
      }
      if eofSeen {
        return Eof;
      }
      r := ReadNow(count);
    }

    method ReadNow(count: nat) returns (r: ReadResult)
      requires Valid() && Attending() && count > 0
      modifies this
      ensures r.Bytes? || r.NotReady? ==> eofSeen == old(eofSeen)
      ensures r == ReadUnfinished ==> k.script == []
      ensures r == NotReady ==> !Readable(k) || k.interruptions > old(k).interruptions
      ensures r.ReadError? && r.errno in {EBADF, EOTHER} ==> k.faults > old(k).faults
      ensures Flow(old(k), k) && Brief(old(k), k, 7)
      ensures r != ReadUnfinished ==> Valid()
      ensures GoodRead(r, count, old(delivered), old(deadline))
    {
      hide Attends, Sound, Flow, Rest, Brief;
      ghost var k0 := k;
      var guard := Guard();
      ghost var k1 := k;
      LaterAttends(k0, k1, pid, readFd, eofSeen);
      HandsOver(k0, k1, delivered);
      if !guard.Proceed? || k.script == [] {
        r := Refused(guard);
        FlowTwice(k0, k1, k);
        FlowFacts(k1, k);
        RefusedIsPrompt(k0, k1, k, 0);
        BriefAnyway(k0, k, 6, 7);
        return;
      }
      var ready := LookNow();
      ghost var k2 := k;
      LaterAttends(k1, k2, pid, readFd, eofSeen);
      HandsOver(k1, k2, delivered);
      FlowTwice(k0, k1, k2);
      BriefTwo(k0, k1, k2);
      if ready == PipeNotReady {
        return NotReady;
      }
      r := AfterPoll(ready, count);
      FlowTwice(k0, k2, k);
      SevenCalls(k0, k2, k, if r == NotReady then 1 else 5);
    }

    /** poll without waiting: what is in the pipe now. */
    method LookNow() returns (r: Readiness)
      requires k.script != []
      modifies this`k
      ensures Later(old(k), k) && |k.script| == |old(k).script| - 1 && k.checked == old(k).checked
      ensures Idle(k) == Idle(old(k))
      ensures r == PipeNotReady ==> !Readable(k) || k.interruptions > old(k).interruptions
      ensures r.PipeError? ==> r.errno in {EBADF, EOTHER} && k.faults > old(k).faults
    {
      var ready := Poll(0, true);
      NeverBack(old(k), k);
      hide Follows, Rest;
      if ready == PollInterrupted || ready == TimedOut {
        return PipeNotReady;
      }
      if ready == PollFailed || ready.invalid {
        return PipeError(if ready == PollFailed then EOTHER else EBADF);
      }
      r := if ready.worker then PipeReady else PipeNotReady;
    }

    // ---- Ending the worker ----

    /** Close the read end of a worker whose child is reaped; success only if it exited with status 0. */
    method CloseOut(final: Status) returns (r: Outcome)
      requires Sound(k) && active && k.open_ == k.stuck + {readFd} && readFd !in k.stuck && k.child.Reaped?
      modifies this
      ensures r == Unfinished ==> k.script == []
      ensures Flow(old(k), k) && delivered == old(delivered) && k.taken == old(k).taken && k.checked == old(k).checked
      ensures r != Unfinished ==> Valid() && AtRest() && k.child == old(k).child
      ensures r == Success <==> r != Unfinished && final == Exited(0) && k.closeFaults == old(k).closeFaults
      ensures r in {Success, Failed(ECHILD), Failed(EOTHER), Unfinished}
      ensures r == Failed(ECHILD) ==> final != Exited(0)
      ensures r == Failed(EOTHER) ==> k.faults > old(k).faults
      ensures Brief(old(k), k, 1) && k.counts == old(k).counts
    {
      hide Follows, Brief;
      BriefNothing(k);
      if k.script == [] {
        return Unfinished;
      }
      pid := -1;
      var closed := CloseFd(readFd);
      BriefRead(old(k), k);
      readFd := -1;
      Reset();
      if !closed {
        return Failed(EOTHER);
      }
      r := if final == Exited(0) then Success else Failed(ECHILD);
    }

    /**
      End the worker once its output has been read to the end, without waiting for the child. Success
      means: every byte it wrote has been delivered, the deadline had not passed, and it exited with 0.
     */
    method TryFinish() returns (r: Outcome)
      requires Valid()
      modifies this
      ensures r == Failed(EINVAL) ==> unchanged(this)
      ensures r == Unfinished ==> k.script == []
      ensures r == Failed(ECHILD) ==> k.autoReap || FailedChild(k)
      ensures r == Failed(EOTHER) || r == Failed(EBADF) ==> k.faults > old(k).faults
      ensures r == NotYet ==> k.child.Running? || k.interruptions > old(k).interruptions
      // It never waits inside poll, and makes at most six calls and one for each interruption.
      ensures Brief(old(k), k, 6)
      ensures !old(isChild) && r != Unfinished ==> !isChild
      ensures Flow(old(k), k) && delivered == old(delivered)
      ensures r != Unfinished ==> Valid()
      ensures r == Failed(EINVAL) <==> !(old(active) && !old(isChild) && old(eofSeen))
      ensures r == Success ==>
        && old(active) && old(eofSeen) && delivered == k.written && !k.writerOpen
        && k.checked < old(deadline).Ns() && k.child == Reaped(old(pid), Exited(0)) && AtRest()
      ensures r == NotYet ==> active && !isChild && eofSeen && pid == old(pid) && deadline == old(deadline)
      ensures r.Failed? && r != Failed(EINVAL) ==> AtRest()
      ensures r == Failed(ETIMEDOUT) ==> old(deadline).Ns() <= k.now
      ensures r == Failed(EINTR) ==> k.pending != 0
    {
      hide Attends, Sound, Flow, Rest, Brief;
      FlowSame(k);
      BriefNothing(k);
      BriefAnyway(k, k, 0, 6);
      if !active || isChild || pid <= 0 || readFd < 0 || !eofSeen {
        return Failed(EINVAL);
      }
      ghost var k0 := k;
      var guard := Guard();
      ghost var k1 := k;
      LaterAttends(k0, k1, pid, readFd, eofSeen);
      HandsOver(k0, k1, delivered);
      if !guard.Proceed? || k.script == [] {
        r := GiveUp(guard);
        RefusedIsPrompt(k0, k1, k, 0);
      } else {
        r := TryReap();
        SixCalls(k0, k1, k);
      }
      FlowTwice(k0, k1, k);
      FlowFacts(k1, k);
    }

    /** The guard refuses: stop and reap the worker, unless the run ends. */
    method GiveUp(guard: Guarded) returns (r: Outcome)
      requires Sound(k) && Attending() && (guard.Refuse? || k.script == [])
      modifies this
      ensures r == Unfinished ==> k.script == []
      ensures Flow(old(k), k) && delivered == old(delivered) && Brief(old(k), k, 4) && k.taken == old(k).taken
      ensures OnlyChecked(old(k), k)
      ensures r == Unfinished || (guard.Refuse? && r == Failed(guard.errno) && Valid() && AtRest())
    {
      hide Attends, Sound, Flow, Rest, Brief;
      FlowSame(k);
      BriefNothing(k);
      BriefAnyway(k, k, 0, 4);
      if !guard.Refuse? {
        return Unfinished;
      }
      r := FailAndAbort(guard.errno);
    }

    method TryReap() returns (r: Outcome)
      requires Valid() && Attending() && eofSeen && k.script != []
      modifies this
      ensures r == Unfinished ==> k.script == []
      ensures r == Failed(ECHILD) ==> k.autoReap || FailedChild(k)
      ensures r == Failed(EOTHER) || r == Failed(EBADF) ==> k.faults > old(k).faults
      ensures r == NotYet ==> k.child.Running? || k.interruptions > old(k).interruptions
      ensures Flow(old(k), k) && delivered == old(delivered) && Brief(old(k), k, 5)
      ensures r != Unfinished ==> Valid()
      ensures r == Success ==>
        && delivered == k.written && !k.writerOpen && k.checked == old(k).checked
        && k.child == Reaped(old(pid), Exited(0)) && AtRest()
      ensures r == NotYet ==> active && !isChild && eofSeen && pid == old(pid) && deadline == old(deadline)
      ensures r.Failed? ==> AtRest() && r.errno in {ECHILD, EOTHER}
    {
      ghost var k0 := k;
      AttendsFacts(k0, pid, readFd, eofSeen);
      hide Attends, Sound, Flow, Rest, Brief;
      var waited := WaitPid(pid, false);
      ghost var k1 := k;
      BriefRead(k0, k1);
      if waited.Got? {
        GotFacts(k0, k1, pid, readFd, eofSeen);
        reaped, status := true, waited.status;
        r := CloseOut(waited.status);
        FlowTwice(k0, k1, k);
        BriefLast(k0, k1, k);
        FlowFacts(k1, k);
        return;
      }
      WaitAttends(k0, k1, pid, readFd, eofSeen);
      HandsOver(k0, k1, delivered);
      FlowFacts(k0, k1);
      if waited == WaitNoChild {
        ReapedUnasked(k0, k1, pid, readFd, eofSeen);
      }
      if waited == StillRunning || waited == WaitInterrupted {
        r := NotYet;
      } else {
        r := FailAndAbort(if waited == WaitNoChild then ECHILD else EOTHER);
        BriefThen(k0, k1, k);
        FlowFacts(k1, k);
      }
    }

    /** Forget a worker whose child is reaped, whatever closing its read end says. */
    method Discard() returns (finished: bool)
      requires Sound(k) && active && k.open_ == k.stuck + {readFd} && readFd !in k.stuck && k.child.Reaped?
      modifies this
      ensures !finished ==> k.script == []
      ensures k.child == old(k).child && k.taken == old(k).taken
      ensures Flow(old(k), k) && delivered == old(delivered) && Brief(old(k), k, 1) && k.counts == old(k).counts
      ensures finished ==> Valid() && AtRest()
    {
      hide Follows, Brief;
      BriefNothing(k);
      if k.script == [] {
        return false;
      }
      var closed := CloseFd(readFd);
      BriefRead(old(k), k);
      Reset();
      finished := true;
    }

    /** The child is reaped: drain what it left in the pipe, which cannot block, and close. */
    method DrainReaped(final: Status) returns (r: Outcome)
      requires Sound(k) && active && k.open_ == k.stuck + {readFd} && readFd !in k.stuck && k.child.Reaped?
      requires k.taken <= |k.written| && !k.writerOpen
      modifies this
      ensures r == Unfinished ==> k.script == []
      ensures r == Failed(ECHILD) ==> final != Exited(0) && k.child == old(k).child
      ensures r == Failed(EOTHER) ==> k.faults > old(k).faults
      ensures Flow(old(k), k) && delivered == old(delivered)
      ensures k.taken >= old(k).taken && Brief(old(k), k, 2 + k.taken - old(k).taken)
      ensures OnlyFetched(old(k), k)
      ensures r != Unfinished ==> Valid() && AtRest()
      ensures r == Success ==> final == Exited(0) && k.taken == |k.written| && !k.writerOpen
      ensures r == Success ==> k.child == old(k).child && k.checked == old(k).checked
      ensures r in {Success, Failed(ECHILD), Failed(EOTHER), Unfinished}
    {
      hide Flow, Rest, Sound, Brief;
      ghost var k0 := k;
      pid := -1;
      if final != Exited(0) {
        var finished := Discard();
        BriefAnyway(k0, k, 1, 2);
        return if finished then Failed(ECHILD) else Unfinished;
      }
      var received := DrainPipe();
      ghost var k1 := k;
      FlowFacts(k0, k1);
      BriefAnyway(k0, k1, 1 + k1.taken - k0.taken, 2 + k1.taken - k0.taken);
      if received == ReadInterrupted {
        return Unfinished;
      }
      StillReaped(k0, k1, readFd);
      if received == EndOfFile {
        r := CloseOut(final);
      } else {
        var finished := Discard();
        r := if finished then Failed(EOTHER) else Unfinished;
      }
      FlowTwice(k0, k1, k);
      FlowFacts(k1, k);
      OneMore(k0, k1, k, 1 + k1.taken - k0.taken);
    }

    /** Read until end of file or an error; ReadInterrupted only when the run stops. */
    method DrainPipe() returns (r: PipeRead)
      requires k.taken <= |k.written| && readFd in k.open_
      modifies this`k
      ensures r == ReadInterrupted ==> k.script == []
      ensures r != EndOfFile && r != ReadInterrupted ==> k.faults > old(k).faults || !Readable(k)
      ensures Flow(old(k), k) && Rest(old(k), k) && k.checked == old(k).checked
      ensures k.taken >= old(k).taken && Brief(old(k), k, 1 + k.taken - old(k).taken)
      ensures OnlyFetched(old(k), k)
      ensures r == EndOfFile ==> k.taken == |k.written| && !k.writerOpen
      ensures !r.Data?
    {
      hide Flow, Brief;
      FlowSame(k);
      BriefNothing(k);
      while true
        invariant Flow(old(k), k) && Rest(old(k), k) && k.taken <= |k.written| && k.checked == old(k).checked
        invariant k.faults >= old(k).faults && k.autoReap == old(k).autoReap
        invariant k.taken >= old(k).taken && Brief(old(k), k, k.taken - old(k).taken) && OnlyFetched(old(k), k)
        decreases |k.script|
      {
        if k.script == [] {
          BriefAnyway(old(k), k, k.taken - old(k).taken, 1 + k.taken - old(k).taken);
          return ReadInterrupted;
        }
        ghost var before := k;
        r := ReadPipe(8192);
        FlowTwice(old(k), before, k);
        FlowFacts(before, k);
        OneMore(old(k), before, k, before.taken - old(k).taken);
        if r.Data? {
          BriefAnyway(old(k), k, 1 + before.taken - old(k).taken, k.taken - old(k).taken);
        } else if !r.ReadInterrupted? {
          return;
        }
      }
    }

    /** One turn of finish: NotYet asks for another one. Output read here is discarded. */
    method FinishTurn() returns (r: Outcome)
      requires Sound(k) && Attending()
      modifies this
      ensures r == Unfinished ==> k.script == []
      ensures k.taken >= old(k).taken
      ensures Prompt(old(k), k, old(deadline).Ns(), if r == NotYet then 3 else 7 + k.taken - old(k).taken)
      ensures Polling(old(k), k, if r == NotYet then 0 else 7 + k.taken - old(k).taken)
      ensures Tended(old(k).counts, k.counts, if r == Unfinished then 1 else 0, old(eofSeen))
      ensures old(k).pending != 0 ==> Idle(k) == Idle(old(k))
      ensures r == NotYet ==> old(k).now < old(deadline).Ns() && old(k).pending == 0
      ensures r == Failed(ECHILD) ==> k.autoReap || FailedChild(k)
      ensures r == Failed(EOTHER) || r == Failed(EBADF) ==> k.faults > old(k).faults
      ensures Flow(old(k), k) && delivered == old(delivered)
      ensures r == NotYet ==> |k.script| < |old(k).script| && Sound(k) && Attending()
      ensures r == NotYet ==> pid == old(pid) && deadline == old(deadline) && (old(eofSeen) ==> eofSeen)
      ensures r.Failed? ==> Valid() && AtRest() && r != Failed(EINVAL)
      ensures r == Success ==> Valid() && AtRest() && k.child == Reaped(old(pid), Exited(0))
      ensures r == Success ==> k.taken == |k.written| && !k.writerOpen && k.checked < old(deadline).Ns()
      ensures r == Failed(ETIMEDOUT) ==> old(deadline).Ns() <= k.now
      ensures r == Failed(EINTR) ==> k.pending != 0
    {
      hide Attends, Sound, Flow, Rest, Brief, Prompt, OnlyChecked;
      ghost var k0, limit := k, deadline.Ns();
      var guard := Guard();
      ghost var k1 := k;
      LaterAttends(k0, k1, pid, readFd, eofSeen);
      FlowFacts(k0, k1);
      if !guard.Proceed? || k.script == [] {
        r := GiveUp(guard);
        FlowTwice(k0, k1, k);
        FlowFacts(k1, k);
        RefusedIsPrompt(k0, k1, k, limit);
        PromptAnyway(k0, k, limit, 6, 7 + k.taken - k0.taken);
        BriefCount(k0, k, 6);
        NoPolls(k0, k1, k);
        return;
      }
      r := CheckExit();
      ghost var k2 := k;
      FlowTwice(k0, k1, k2);
      FlowFacts(k1, k2);
      if r != NotYet || k.script == [] {
        r := if r == NotYet then Unfinished else r;
        ExitIsPrompt(k0, k1, k2, limit, k2.taken - k0.taken);
        BriefCount(k0, k1, 1);
        BriefCount(k1, k2, 5 + k2.taken - k0.taken);
        return;
      }
      r := AwaitExit(guard.timeoutMs, k0, k1, limit);
      FlowFacts(k2, k);
      FlowTwice(k0, k2, k);
      PromptAnyway(k0, k, limit, if r == NotYet then 3 else 7, if r == NotYet then 3 else 7 + k.taken - k0.taken);
    }

    /** See whether the child has exited: NotYet when it has not. */
    method CheckExit() returns (r: Outcome)
      requires Sound(k) && Attending() && k.script != []
      modifies this
      ensures r == Unfinished ==> k.script == []
      ensures r == Failed(ECHILD) ==> k.autoReap || FailedChild(k)
      ensures r == Failed(EOTHER) || r == Failed(EBADF) ==> k.faults > old(k).faults
      ensures Flow(old(k), k) && delivered == old(delivered)
      ensures k.taken >= old(k).taken && Brief(old(k), k, 5 + k.taken - old(k).taken)
      ensures NotPolled(old(k).counts, k.counts) && k.counts.checks > old(k).counts.checks
      ensures r == NotYet ==> |k.script| == |old(k).script| - 1 && Sound(k) && Attending() && k.taken == old(k).taken
      ensures r == NotYet ==> pid == old(pid) && deadline == old(deadline)
      ensures r == NotYet ==> eofSeen == old(eofSeen) && Idle(k) == Idle(old(k))
      ensures r.Failed? ==> Valid() && AtRest() && r.errno !in {EINVAL, ETIMEDOUT, EINTR}
      ensures r == Success ==> Valid() && AtRest() && k.child == Reaped(old(pid), Exited(0))
      ensures r == Success ==> k.taken == |k.written| && !k.writerOpen && k.checked == old(k).checked
    {
      hide Attends, Sound, Flow, Rest, Brief;
      ghost var k0 := k;
      var waited := LookForExit();
      FlowFacts(k0, k);
      if waited.Got? {
        r := TakeExit(waited.status, k0);
      } else if waited == StillRunning || waited == WaitInterrupted {
        BriefAnyway(k0, k, 1, 5);
        r := NotYet;
      } else {
        r := LoseChild(waited == WaitNoChild, k0);
      }
    }

    /** waitpid without waiting: the child is reaped, or the worker is still attended. */
    method LookForExit() returns (r: Waited)
      requires Sound(k) && Attending() && k.script != []
      modifies this`k
      ensures Flow(old(k), k) && Sound(k) && Brief(old(k), k, 1) && Idle(k) == Idle(old(k))
      ensures k.taken == old(k).taken && |k.script| == |old(k).script| - 1 && k.checked == old(k).checked
      ensures !r.Got? ==> Attending()
      ensures r.Got? ==> k.child == Reaped(pid, r.status) && k.open_ == k.stuck + {readFd} && readFd !in k.stuck
      ensures r.Got? ==> k.taken <= |k.written| && !k.writerOpen
      ensures r == WaitNoChild ==> Rest(old(k), k) && k.child.Reaped?
      ensures r == WaitFailed ==> k.faults > old(k).faults
      ensures k.counts == old(k).counts.(checks := old(k).counts.checks + 1)
    {
      AttendsFacts(k, pid, readFd, eofSeen);
      hide Attends, Sound, Flow, Rest, Brief;
      ghost var k0 := k;
      r := WaitPid(pid, false);
      BriefRead(k0, k);
      if r.Got? {
        GotFacts(k0, k, pid, readFd, eofSeen);
      } else {
        WaitAttends(k0, k, pid, readFd, eofSeen);
      }
    }

    /** waitpid has reaped the child. */
    method TakeExit(final: Status, ghost k0: Kernel) returns (r: Outcome)
      requires Sound(k) && active && k.open_ == k.stuck + {readFd} && readFd !in k.stuck
      requires k.child.Reaped? && k.child.status == final && k.taken <= |k.written| && !k.writerOpen
      requires Flow(k0, k) && Brief(k0, k, 1) && k.taken == k0.taken
      modifies this
      ensures r == Unfinished ==> k.script == []
      ensures r == Failed(ECHILD) ==> FailedChild(k)
      ensures r == Failed(EOTHER) ==> k.faults > k0.faults
      ensures Flow(k0, k) && delivered == old(delivered)
      ensures k.taken >= k0.taken && Brief(k0, k, 5 + k.taken - k0.taken)
      ensures r != Unfinished ==> Valid() && AtRest()
      ensures r == Success ==> k.child == old(k).child && final == Exited(0)
      ensures r == Success ==> k.taken == |k.written| && !k.writerOpen && k.checked == old(k).checked
      ensures r in {Success, Failed(ECHILD), Failed(EOTHER), Unfinished}
      ensures NotPolled(old(k).counts, k.counts)
    {
      hide Sound, Flow, Rest, Brief;
      ghost var k1 := k;
      FlowFacts(k0, k1);
      r := DrainReaped(final);
      FlowTwice(k0, k1, k);
      FlowFacts(k1, k);
      ExitIsBrief(k0, k1, k, k.taken - k0.taken);
    }

    /** waitpid has failed, or finds no child. */
    method LoseChild(gone: bool, ghost k0: Kernel) returns (r: Outcome)
      requires Sound(k) && Attending() && Flow(k0, k) && Brief(k0, k, 1) && Attends(k0, pid, readFd, eofSeen)
      requires if gone then Rest(k0, k) && k.child.Reaped? else k.faults > k0.faults
      modifies this
      ensures r == Unfinished ==> k.script == []
      ensures r == Unfinished || (r == Failed(if gone then ECHILD else EOTHER) && Valid() && AtRest())
      ensures gone ==> k.autoReap
      ensures NotPolled(old(k).counts, k.counts)
      ensures Flow(k0, k) && delivered == old(delivered) && k.taken == old(k).taken && Brief(k0, k, 5)
      ensures k.faults >= old(k).faults
    {
      hide Sound, Flow, Rest, Brief;
      ghost var k1 := k;
      if gone {
        ReapedUnasked(k0, k1, pid, readFd, eofSeen);
      }
      hide Attends;
      FlowFacts(k0, k1);
      r := FailAndAbort(if gone then ECHILD else EOTHER);
      BriefThen(k0, k1, k);
      FlowFacts(k1, k);
    }

    /** Sleep one slice after end of file, or discard what the pipe has. */
    method AwaitExit(timeoutMs: int, ghost k0: Kernel, ghost k1: Kernel, ghost limit: int) returns (r: Outcome)
      requires Sound(k) && Attending() && k.script != [] && 1 <= timeoutMs <= POLL_SLICE_MS
      requires Flow(k0, k1) && Flow(k1, k) && k0.pending == 0 && k1.now < limit
      requires |k0.script| == |k1.script| + 1 && |k1.script| == |k.script| + 1
      requires Idle(k0) == Idle(k1) == Idle(k) && k1.now + timeoutMs * NS_PER_MS < limit + NS_PER_MS
      modifies this
      ensures r == Unfinished ==> k.script == []
      ensures k.taken >= old(k).taken
      ensures Prompt(k0, k, limit, if r == NotYet then 3 else 7)
      ensures Polling(k0, k, if r == NotYet then 0 else 7)
      ensures PolledAndRead(old(k).counts, k.counts, if r == Unfinished then 1 else 0, old(eofSeen))
      ensures r.Failed? ==> k.faults > old(k).faults
      ensures Flow(old(k), k) && delivered == old(delivered)
      ensures r == NotYet ==> |k.script| < |old(k).script| && Sound(k) && Attending()
      ensures r == NotYet ==> pid == old(pid) && deadline == old(deadline) && (old(eofSeen) ==> eofSeen)
      ensures r.Failed? ==> Valid() && AtRest() && r.errno in {EBADF, EOTHER}
      ensures r != Success
    {
      hide Attends, Sound, Flow, Rest, Brief, Prompt;
      ghost var k2 := k;
      var ready := AwaitMore(timeoutMs);
      ghost var k3 := k;
      LaterAttends(k2, k3, pid, readFd, eofSeen);
      GuardedPoll(k0, k1, k2, k3, limit, timeoutMs);
      FlowTwice(k0, k1, k2);
      FlowTwice(k0, k2, k3);
      r := AfterWait(ready);
      BriefCount(k3, k, if r == NotYet then 1 else 5);
      FlowFacts(k0, k1);
      FlowFacts(k1, k2);
      FlowFacts(k2, k3);
      FlowFacts(k3, k);
      FlowTwice(k2, k3, k);
      PromptThenBrief(k0, k3, k, limit, 2, if r == NotYet then 1 else 5);
    }

    /** poll for at most one slice, watching the pipe until its end was seen. */
    method AwaitMore(timeoutMs: int) returns (r: Readiness)
      requires k.script != [] && timeoutMs >= 1
      modifies this`k
      ensures Later(old(k), k) && |k.script| == |old(k).script| - 1
      ensures Idle(k) <= Idle(old(k)) + timeoutMs * NS_PER_MS
      ensures k.counts.polls == old(k).counts.polls + 1 && k.counts.checks == old(k).counts.checks
      ensures k.counts.spins == old(k).counts.spins
      ensures k.counts.fetches == old(k).counts.fetches
      ensures k.counts.ready <= old(k).counts.ready + if r == PipeReady then 1 else 0
      ensures !eofSeen ==> k.counts.blind == old(k).counts.blind
      ensures r.PipeError? ==> r.errno in {EBADF, EOTHER} && k.faults > old(k).faults
    {
      hide Follows, Rest;
      var ready := Poll(timeoutMs, !eofSeen);
      if ready == PollFailed {
        return PipeError(EOTHER);
      }
      if eofSeen || ready == PollInterrupted || ready == TimedOut {
        return PipeNotReady;
      }
      if ready.invalid {
        return PipeError(EBADF);
      }
      r := if ready.worker then PipeReady else PipeNotReady;
    }

    /** poll has ended: fail, discard some output, or go on. */
    method AfterWait(ready: Readiness) returns (r: Outcome)
      requires Sound(k) && Attending() && (ready.PipeError? ==> ready.errno in {EBADF, EOTHER})
      modifies this
      ensures r == Unfinished ==> k.script == []
      ensures ready.PipeError? ==> r == Unfinished || r == Failed(ready.errno)
      ensures !ready.PipeError? && r.Failed? ==> k.faults > old(k).faults
      ensures Flow(old(k), k) && delivered == old(delivered) && k.taken >= old(k).taken
      ensures Brief(old(k), k, if r == NotYet then 1 else 5)
      ensures NotPolled(old(k).counts, k.counts)
      ensures ready == PipeReady && r != Unfinished ==> k.counts.fetches > old(k).counts.fetches
      ensures r == NotYet ==> Sound(k) && Attending() && pid == old(pid)
      ensures r == NotYet ==> deadline == old(deadline) && (old(eofSeen) ==> eofSeen)
      ensures r.Failed? ==> Valid() && AtRest() && r.errno in {EBADF, EOTHER}
      ensures r != Success
    {
      hide Attends, Sound, Flow, Rest, Brief;
      FlowSame(k);
      BriefNothing(k);
      BriefAnyway(k, k, 0, 5);
      if ready.PipeError? {
        r := FailAndAbort(ready.errno);
        FlowFacts(old(k), k);
        BriefAnyway(old(k), k, 4, 5);
        return;
      }
      if ready == PipeNotReady {
        return NotYet;
      }
      if k.script == [] {
        return Unfinished;
      }
      r := DiscardSome();
    }

    method DiscardSome() returns (r: Outcome)
      requires Sound(k) && Attending() && k.script != []
      modifies this
      ensures r == Unfinished ==> k.script == []
      ensures r.Failed? ==> k.faults > old(k).faults
      ensures Flow(old(k), k) && delivered == old(delivered) && k.taken >= old(k).taken
      ensures Brief(old(k), k, if r == NotYet then 1 else 5)
      ensures NotPolled(old(k).counts, k.counts) && k.counts.fetches > old(k).counts.fetches
      ensures r == NotYet ==> Sound(k) && Attending() && pid == old(pid)
      ensures r == NotYet ==> deadline == old(deadline) && (old(eofSeen) ==> eofSeen)
      ensures r == NotYet || r == Unfinished || (r == Failed(EOTHER) && Valid() && AtRest())
    {
      AttendsFacts(k, pid, readFd, eofSeen);
      hide Attends, Sound, Flow, Rest, Brief;
      ghost var k0 := k;
      var received := ReadPipe(8192);
      ghost var k1 := k;
      FlowFacts(k0, k1);
      ReadAttends(k0, k1, pid, readFd, eofSeen);
      BriefRead(k0, k1);
      if received == EndOfFile {
        eofSeen := true;
      }
      if received == ReadFailed {
        r := FailAndAbort(EOTHER);
        BriefThen(k0, k1, k);
        return;
      }
      r := NotYet;
    }

    /**
      Wait for the child to exit, discarding what it still writes. Success means it exited with 0
      before the deadline and its pipe was drained to the end.
     */
    method Finish() returns (r: Outcome)
      requires Valid()
      modifies this
      ensures r == Failed(EINVAL) ==> unchanged(this)
      ensures r == Unfinished ==> k.script == []
      // At most ten calls start past the deadline or once a signal is recorded, and one for each
      // interruption and each byte that is drained.
      ensures k.taken >= old(k).taken && Prompt(old(k), k, old(deadline).Ns(), 10 + k.taken - old(k).taken)
      ensures Polling(old(k), k, 7 + k.taken - old(k).taken)
      // Before every poll it has looked whether the child has exited, and each time the pipe is found
      // readable it is read; the pipe is watched until its end.
      ensures k.counts.polls - old(k).counts.polls <= k.counts.checks - old(k).counts.checks
      ensures k.counts.ready - old(k).counts.ready <=
        k.counts.fetches - old(k).counts.fetches + if r == Unfinished then 1 else 0
      ensures k.counts.spins == old(k).counts.spins
      ensures k.counts.blind > old(k).counts.blind ==> old(eofSeen) || (!k.writerOpen && k.taken >= |k.written|)
      ensures r == Failed(ECHILD) ==> k.autoReap || FailedChild(k)
      ensures r == Failed(EOTHER) || r == Failed(EBADF) ==> k.faults > old(k).faults
      ensures !old(isChild) && r != Unfinished ==> !isChild
      ensures Flow(old(k), k) && delivered == old(delivered)
      ensures r != Unfinished ==> Valid() && (old(isChild) || !active)
      ensures r == Failed(EINVAL) <==> !old(active) || old(isChild)
      ensures r == Success ==> k.child == Reaped(old(pid), Exited(0)) && k.checked < old(deadline).Ns()
      ensures r == Success ==> old(active) && k.taken == |k.written| && !k.writerOpen
      ensures r == Failed(ETIMEDOUT) ==> old(deadline).Ns() <= k.now
      ensures r == Failed(EINTR) ==> k.pending != 0
      ensures r != NotYet
    {
      hide Attends, Sound, Flow, Rest, Prompt;
      PromptNothing(k, deadline.Ns());
      if !active || isChild || pid <= 0 || readFd < 0 {
        return Failed(EINVAL);
      }
      while true
        invariant Flow(old(k), k) && delivered == old(delivered) && Sound(k) && Attending()
        invariant pid == old(pid) && deadline == old(deadline)
        invariant k.taken >= old(k).taken && Prompt(old(k), k, old(deadline).Ns(), 3) && Polling(old(k), k, 0)
        invariant Tended(old(k).counts, k.counts, 0, old(eofSeen) || eofSeen)
        invariant k.faults >= old(k).faults
        decreases |k.script|
      {
        ghost var before, ended := k, eofSeen;
        AttendsFacts(k, pid, readFd, eofSeen);
        r := FinishTurn();
        TendedTwice(old(k).counts, before.counts, k.counts, if r == Unfinished then 1 else 0, old(eofSeen) || ended,
                    ended);
        FlowTwice(old(k), before, k);
        FlowFacts(before, k);
        GoOn(old(k), before, k, old(deadline).Ns(), r == NotYet, 3, 7 + k.taken - before.taken);
        if r != NotYet {
          PromptAnyway(old(k), k, old(deadline).Ns(), 10 + k.taken - before.taken, 10 + k.taken - old(k).taken);
          return;
        }
      }
    }

    // ---- The child's side ----

    /** The forked child after its preparation: it owns the write end and has no child of its own. */
    constructor InChild(k: Kernel, limit: Timespec)
      requires Sound(k) && k.open_ == {WorkerChild.PIPE_FD} && k.stuck == {} && k.child.NoChild? && IsDeadline(limit)
      ensures Valid() && Sending() && this.k == k
    {
      this.k := k;
      active, isChild, pid, readFd, writeFd := true, true, -1, -1, WorkerChild.PIPE_FD;
      eofSeen, reaped, status, deadline := false, false, Exited(0), limit;
      delivered := [];
    }

    /** write on the pipe: a prefix is taken, or nothing on an error. */
    method WritePipe(data: seq<byte>) returns (r: WriteResult)
      requires k.script != [] && k.child.NoChild? && data != []
      modifies this`k
      ensures |k.script| == |old(k).script| - 1
      ensures k == old(k).(script := k.script, now := k.now, busy := k.busy, pending := k.pending,
                           pendingSince := k.pendingSince, written := k.written, faults := k.faults,
                           counts := k.counts, found := k.found, log := k.log, interruptions := k.interruptions)
      ensures k.interruptions == old(k).interruptions + if r == WriteError(EINTR) then 1 else 0
      ensures k.faults >= old(k).faults
      ensures r == Written(0) || r == WriteError(EOTHER) ==> k.faults > old(k).faults
      ensures r.WriteError? ==> r.errno in {EINTR, EOTHER}
      ensures r.Written? ==> r.count <= |data| && k.written == old(k).written + data[..r.count]
      ensures !r.Written? ==> k.written == old(k).written && r.WriteError?
    {
      WriterPasses(k);
      hide Pass;
      var answer := k.script[0].answer;
      k := Pass(k);
      match answer
      case Count(n) =>
        var count := if n < |data| then n else |data|;
        k := k.(written := k.written + data[..count], faults := if count == 0 then k.faults + 1 else k.faults);
        r := Written(count);
      case Interrupted =>
        k := Interruption(k);
        r := WriteError(EINTR);
      case _ =>
        k := Fault(k);
        r := WriteError(EOTHER);
    }

    /** Write a complete buffer to the parent: a prefix arrives in order, on success all of it exactly once. */
    method Write(data: seq<byte>) returns (r: WriteResult, ghost sent: nat)
      requires Valid()
      modifies this`k
      ensures r == WriteUnfinished ==> k.script == []
      ensures Valid() && sent <= |data|
      ensures r == WriteError(EINVAL) <==> !Sending()
      ensures k.written == old(k).written + data[..sent]
      ensures r.Written? ==> r.count == sent == |data|
      // Each call hands bytes over, is interrupted, or is the last.
      ensures |old(k).script| <= |k.script| + sent + (k.interruptions - old(k).interruptions) + 1
      ensures r.WriteError? ==> r.errno in {EINVAL, EIO, EOTHER} && (r.errno != EINVAL ==> k.faults > old(k).faults)
    {
      sent := 0;
      assert data[..0] == [];
      if !active || !isChild || writeFd < 0 {
        return WriteError(EINVAL), sent;
      }
      var offset := 0;
      while offset < |data|
        invariant offset == sent <= |data| && k.written == old(k).written + data[..sent]
        invariant |old(k).script| <= |k.script| + sent + (k.interruptions - old(k).interruptions)
        invariant Valid() && Sending() && k.faults >= old(k).faults
        decreases |k.script|
      {
        if k.script == [] {
          return WriteUnfinished, sent;
        }
        var written := WritePipe(data[offset..]);
        if written.Written? && written.count > 0 {
          assert data[..offset + written.count] == data[..offset] + data[offset..][..written.count];
          offset := offset + written.count;
          sent := offset;
          continue;
        }
        if written == WriteError(EINTR) {
          continue;
        }
        return WriteError(if written.Written? then EIO else EOTHER), sent;
      }
      r := Written(offset);
    }

    // ---- Any sequence of calls ----

    /**
      Whatever a caller does and whatever the kernel answers: between calls there is no worker, or
      there is one unreaped child, one open read end and a delivered prefix of the output. Unless
      waitpid or close failed, or children are reaped unasked, no child was left behind, no
      descriptor was closed twice and no reaped child was signalled. The bytes answered since the
      last successful begin are what was delivered, all of the output once its end was answered, and
      try_finish succeeds only after that.
     */
    method Session(calls: seq<Call>) returns (completed: bool, replies: seq<Reply>)
      requires Sound(k) && AtRest() && delivered == []
      modifies this
      ensures !completed ==> k.script == []
      ensures completed ==> |replies| == |calls| && forall i :: 0 <= i < |calls| ==> Answers(calls[i], replies[i])
      ensures completed ==> Sound(k) && (AtRest() || (Attending() && Conserved()))
      ensures completed ==> Replied(replies) == delivered && (active ==> Replied(replies) <= k.written)
      ensures completed ==> EndsAreComplete(replies, k)
      ensures forall i :: 0 <= i < |replies| && replies[i] == Tried(Success) ==> EofReplied(replies[..i])
      ensures completed && calls != [] && calls[|calls| - 1].CallAbort? ==> AtRest()
    {
      hide Attends, Sound, Replied, EofReplied, AfterReply, EndsAreComplete;
      replies := [];
      NothingReplied(k);
      for i := 0 to |calls|
        invariant Valid() && !isChild && |replies| == i
        invariant forall j :: 0 <= j < i ==> Answers(calls[j], replies[j])
        invariant delivered == Replied(replies) && (active && eofSeen ==> EofReplied(replies))
        invariant EndsAreComplete(replies, k)
        invariant forall j :: 0 <= j < |replies| && replies[j] == Tried(Success) ==> EofReplied(replies[..j])
        invariant i > 0 && calls[i - 1].CallAbort? ==> AtRest()
      {
        var reply;
        ghost var before := replies;
        completed, reply := Perform(calls[i]);
        if !completed {
          return;
        }
        replies := replies + [reply];
        OneMoreReply(before, reply, delivered, k);
      }
      completed := true;
    }

    method Perform(call: Call) returns (completed: bool, reply: Reply)
      requires Valid() && !isChild
      modifies this
      ensures !completed ==> k.script == []
      ensures completed ==> Answers(call, reply)
      ensures completed ==> Valid() && !isChild && (call.CallAbort? ==> AtRest())
      ensures completed ==> delivered == AfterReply(old(delivered), reply)
      ensures completed && active && eofSeen ==>
        reply == ReadReply(Eof) || (old(active) && old(eofSeen) && reply != Began(Success))
      ensures completed && reply == Tried(Success) ==> old(active) && old(eofSeen)
      ensures completed && (reply == ReadReply(Eof) || reply == Tried(Success))
        ==> delivered == k.written && !k.writerOpen
    {
      reply := Aborted;
      match call
      case CallBegin(timeoutMs) =>
        var r := Begin(timeoutMs);
        completed, reply := r != Unfinished, Began(r);
      case CallWait(timeoutMs) =>
        var e := WaitEvent(timeoutMs);
        completed, reply := e != EventUnfinished, Saw(e);
      case CallRead(count) =>
        var r := Read(count);
        completed, reply := r != ReadUnfinished, ReadReply(r);
      case CallReadAvailable(count) =>
        var r := ReadAvailable(count);
        completed, reply := r != ReadUnfinished, ReadReply(r);
      case CallTryFinish =>
        var r := TryFinish();
        completed, reply := r != Unfinished, Tried(r);
      case CallFinish =>
        var r := Finish();
        completed, reply := r != Unfinished, Finished(r);
      case CallAbort =>
        completed := Abort();
    }
  }

  lemma NothingReplied(k: Kernel)
    ensures Replied([]) == [] && EndsAreComplete([], k)
  {}

  /** What the answers say after one more. */
  lemma OneMoreReply(before: seq<Reply>, reply: Reply, delivered: seq<byte>, k: Kernel)
    ensures Replied(before + [reply]) == AfterReply(Replied(before), reply)
    ensures EofReplied(before + [reply]) <==> reply == ReadReply(Eof) || (reply != Began(Success) && EofReplied(before))
    ensures delivered == Replied(before + [reply]) ==>
      (EndsAreComplete(before + [reply], k) <==>
       (reply == ReadReply(Eof) || reply == Tried(Success) ==> delivered == k.written && !k.writerOpen))
    ensures forall j :: 0 <= j <= |before| ==> (before + [reply])[..j] == before[..j]
  {
    var after := before + [reply];
    assert after[..|after| - 1] == before;
    hide AfterReply;
  }

  /** The parent's close of the write end fails after releasing it: begin closes that descriptor twice. */
  method WriteEndIsClosedTwice() returns (w: Worker)
    ensures fresh(w) && w.k.doubleCloses == 1 && w.k.open_ == w.k.stuck
  {
    var tick := Tick(1, 0, 0, ChildAct([], false, None), Count(0));
    var script := [tick.(answer := Broken(true)), tick, tick, tick, tick, tick];
    var idle := Kernel(script, 0, 0, 0, 0, 0, [], 0, true, NoChild, false, {}, {}, 0, 0, 0, 0, 0, 0, 0, 0, 0, false, 0,
                       Counts(0, 0, 0, 0, 0, 0, 0), [], []);
    w := new Worker(idle);
    w.k := idle.(child := Running(7), open_ := {3, 4});
    assert Calm(w.k.script[1..], 5);
    var r := w.GiveUpWriteEnd(7, 3, 4);
    assert r == Failed(EOTHER);
  }

  /** Appending the next bytes taken keeps what was delivered a prefix of what was written. */
  lemma TakeMore(old_: seq<byte>, now: seq<byte>, from: nat, to: nat, delivered: seq<byte>, bytes: seq<byte>)
    requires old_ <= now && from <= |old_| && from <= to <= |now|
    requires delivered <= old_ && |delivered| == from && bytes == now[from..to]
    ensures delivered + bytes <= now && |delivered + bytes| == to
  {}
}
