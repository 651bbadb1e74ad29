/**
  How a run goes on in time: every system call leaves an entry when it starts. What a call of the
  parent promises about deadlines and signals is stated on these entries: how many system calls may
  still start once it should come to its end, and how long it may wait.
 */
module Trails {
  import opened Bytes
  import opened Deadlines

  /** When a system call starts, and whether a signal is recorded by then. */
  datatype Moment = Moment(now: nat, busy: nat, signalled: bool, interruptions: nat)

  /** The part of the kernel's state that tells how the run went on in time. */
  datatype Trail = Trail(present: Moment, since: nat, left: nat, log: seq<Moment>)

  /** The clock, the busy time, the waiting time and the interruptions never go back, and a signal stays recorded. */
  predicate Before(a: Moment, b: Moment) {
    && a.now <= b.now && a.busy <= b.busy && a.now - a.busy <= b.now - b.busy
    && (a.signalled ==> b.signalled) && a.interruptions <= b.interruptions
  }

  /** Each system call since `a` has its entry, in order, and a recorded signal keeps its time. */
  predicate Follows(a: Trail, b: Trail) {
    && Before(a.present, b.present) && a.log <= b.log && |b.log| + b.left == |a.log| + a.left
    && (if b.log == a.log then b.present == a.present else b.log[|a.log|] == a.present)
    && (a.present.signalled ==> b.since == a.since)
    && (!a.present.signalled && b.present.signalled ==> a.present.now <= b.since)
    && (forall i :: |a.log| <= i < |b.log| ==> Before(a.present, b.log[i]) && Before(b.log[i], b.present))
    && (forall i :: |a.log| <= i < |b.log| && b.present.signalled && !b.log[i].signalled ==> b.log[i].now <= b.since)
    && (forall i, j :: |a.log| <= i <= j < |b.log| ==> Before(b.log[i], b.log[j]))
  }

  lemma FollowsTwice(a: Trail, b: Trail, c: Trail)
    requires Follows(a, b) && Follows(b, c)
    ensures Follows(a, c)
  {
    assert forall i :: |a.log| <= i < |b.log| ==> c.log[i] == b.log[i];
  }

  /** An interruption is counted when its call ends. */
  lemma FollowsInterrupted(a: Trail, b: Trail, interruptions: nat)
    requires Follows(a, b) && b.left < a.left && b.present.interruptions <= interruptions
    ensures Follows(a, b.(present := b.present.(interruptions := interruptions)))
  {}

  // ---- How long a run goes on ----

  /** From when on a call of the parent should come to its end. */
  datatype Cut = TimeIs(limit: int) | SignalIsRecorded | Anytime

  predicate Past(m: Moment, cut: Cut) {
    match cut
    case TimeIs(limit) => limit <= m.now
    case SignalIsRecorded => m.signalled
    case Anytime => true
  }

  /** From any system call that starts past the cut, at most n are left, and c more for each interruption. */
  predicate Late(a: Trail, b: Trail, cut: Cut, n: nat, c: nat) {
    forall i :: |a.log| <= i < |b.log| && Past(b.log[i], cut) ==>
      |b.log| - i <= n + c * (b.present.interruptions - b.log[i].interruptions)
  }

  /** The entry five calls before the i-th one, but none before `a`. */
  function Earlier(a: Trail, b: Trail, i: nat): Moment
    requires |a.log| <= i < |b.log|
  {
    b.log[Max(i - 5, |a.log|)]
  }

  /** poll waits until the limit and its rounding; the rest is time in calls, counted from five before the limit. */
  predicate Timely(a: Trail, b: Trail, limit: int) {
    && b.present.now <= Max(a.present.now, limit + NS_PER_MS) + (b.present.busy - a.present.busy)
    && forall i :: |a.log| <= i < |b.log| && b.log[i].now < limit ==>
      b.present.now <= limit + NS_PER_MS + (b.present.busy - Earlier(a, b, i).busy)
  }

  /** A signal that arrives after `a` is waited on for no longer than `slack`, counted in the same way. */
  predicate Heard(a: Trail, b: Trail, slack: nat) {
    !a.present.signalled && b.present.signalled ==>
      && b.present.now <= b.since + slack + (b.present.busy - a.present.busy)
      && forall i :: |a.log| <= i < |b.log| && !b.log[i].signalled ==>
        b.present.now <= b.since + slack + (b.present.busy - Earlier(a, b, i).busy)
  }

  /** The time that the last n calls since `a` took, waiting inside poll aside. */
  function Recent(a: Trail, b: Trail, n: nat): int
    requires n > 0
  {
    b.present.busy - if |b.log| - n > |a.log| then b.log[|b.log| - n].busy else a.present.busy
  }

  /** When the first call after `a` ended. */
  function FirstReading(a: Trail, b: Trail): nat {
    if |b.log| > |a.log| + 1 then b.log[|a.log| + 1].now else b.present.now
  }

  /** Time that was spent waiting inside poll: the clock less the busy time. */
  function Waiting(t: Trail): int {
    t.present.now - t.present.busy
  }

  lemma NoCall(a: Trail)
    ensures Follows(a, a) && Late(a, a, Anytime, 0, 0) && Late(a, a, Anytime, 0, 1)
  {}

  lemma LateAnyway(a: Trail, b: Trail, cut: Cut, n: nat, m: nat, c: nat)
    requires Late(a, b, cut, n, c) || Late(a, b, Anytime, n, c)
    requires n <= m
    ensures Late(a, b, cut, m, c)
  {}

  lemma FewCalls(a: Trail, b: Trail, cut: Cut, n: nat, c: nat)
    requires Follows(a, b) && a.left <= b.left + n
    ensures Late(a, b, cut, n, c)
  {
    forall i | |a.log| <= i < |b.log| && Past(b.log[i], cut)
      ensures |b.log| - i <= n + c * (b.present.interruptions - b.log[i].interruptions)
    {
      assert Before(b.log[i], b.present);
    }
  }

  /** Calls that all start before the cut are not late. */
  lemma NotPast(a: Trail, b: Trail, cut: Cut, c: nat)
    requires Follows(a, b) && !Past(b.present, cut)
    ensures Late(a, b, cut, 0, c)
  {}

  /** At most one call: it is not late if it starts before the cut or is interrupted. */
  lemma OneCall(a: Trail, b: Trail, cut: Cut, c: nat)
    requires Follows(a, b) && a.left <= b.left + 1
    ensures Late(a, b, cut, 1, c)
    ensures !Past(a.present, cut) ==> Late(a, b, cut, 0, c)
    ensures b.present.interruptions > a.present.interruptions && c == 1 ==> Late(a, b, cut, 0, c)
  {
    FewCalls(a, b, cut, 1, c);
  }

  lemma LateTwice(a: Trail, b: Trail, d: Trail, cut: Cut, m: nat, n: nat, c: nat)
    requires Follows(a, b) && Follows(b, d) && Late(a, b, cut, m, c) && Late(b, d, cut, n, c)
    ensures Late(a, d, cut, m + n, c)
  {
    forall i | |a.log| <= i < |d.log| && Past(d.log[i], cut)
      ensures |d.log| - i <= m + n + c * (d.present.interruptions - d.log[i].interruptions)
    {
      if i < |b.log| {
        var x, y, z := d.log[i].interruptions, b.present.interruptions, d.present.interruptions;
        assert d.log[i] == b.log[i] && Before(b.log[i], b.present);
        assert c * (y - x) + c * (z - y) == c * (z - x);
      }
    }
  }

  /** An interrupted poll after at most three other calls. */
  lemma LateInterrupted(a: Trail, b: Trail, d: Trail, cut: Cut)
    requires Follows(a, b) && Follows(b, d) && a.left <= b.left + 3 && b.left == d.left + 1
    requires d.present.interruptions > b.present.interruptions
    ensures Late(a, d, cut, 0, 4)
  {
    forall i | |a.log| <= i < |d.log|
      ensures d.log[i].interruptions <= b.present.interruptions
    {
      if i < |b.log| {
        assert d.log[i] == b.log[i];
      }
    }
  }

  lemma TimelyOnce(a: Trail, b: Trail, limit: int)
    requires Follows(a, b) && a.left <= b.left + 6
    requires b.present.now <= Max(a.present.now, limit + NS_PER_MS) + (b.present.busy - a.present.busy)
    ensures Timely(a, b, limit)
  {}

  lemma TimelyTwice(a: Trail, b: Trail, d: Trail, limit: int)
    requires Follows(a, b) && Follows(b, d) && Timely(a, b, limit) && Timely(b, d, limit)
    ensures Timely(a, d, limit)
  {
    forall i | |a.log| <= i < |d.log| && d.log[i].now < limit
      ensures d.present.now <= limit + NS_PER_MS + (d.present.busy - Earlier(a, d, i).busy)
    {
      if i < |b.log| {
        assert d.log[i] == b.log[i] && Earlier(a, d, i) == Earlier(a, b, i);
      } else {
        EarlierFirst(a, b, d, i);
      }
    }
  }

  lemma EarlierFirst(a: Trail, b: Trail, d: Trail, i: nat)
    requires Follows(a, b) && Follows(b, d) && |b.log| <= i < |d.log|
    ensures Earlier(a, d, i).busy <= Earlier(b, d, i).busy
  {
    FollowsTwice(a, b, d);
  }

  /** Without waiting inside poll, time passes only in the calls themselves. */
  lemma Quiet(a: Trail, b: Trail, limit: int, slack: nat)
    requires Follows(a, b) && Waiting(a) == Waiting(b)
    ensures Timely(a, b, limit) && Heard(a, b, slack)
  {
    forall i | |a.log| <= i < |b.log|
      ensures b.present.now == b.log[i].now + (b.present.busy - b.log[i].busy)
      ensures Earlier(a, b, i).busy <= b.log[i].busy
    {
      assert Before(a.present, b.log[i]) && Before(b.log[i], b.present);
    }
  }

  lemma HeardOnce(a: Trail, b: Trail, slack: nat)
    requires Follows(a, b) && a.left <= b.left + 6
    requires !a.present.signalled && b.present.signalled ==>
      b.present.now <= b.since + slack + (b.present.busy - a.present.busy)
    ensures Heard(a, b, slack)
  {}

  lemma HeardTwice(a: Trail, b: Trail, d: Trail, slack: nat, more: nat)
    requires Follows(a, b) && Follows(b, d) && Heard(a, b, slack) && Heard(b, d, slack + more)
    requires b.present.signalled ==> Waiting(d) <= Waiting(b) + more
    ensures Heard(a, d, slack + more)
  {
    if !a.present.signalled && d.present.signalled {
      forall i | |a.log| <= i < |d.log| && !d.log[i].signalled
        ensures d.present.now <= d.since + slack + more + (d.present.busy - Earlier(a, d, i).busy)
      {
        if i < |b.log| {
          assert d.log[i] == b.log[i] && Earlier(a, d, i) == Earlier(a, b, i);
        } else {
          EarlierFirst(a, b, d, i);
        }
      }
    }
  }

  lemma LateEnds(a: Trail, b: Trail, limit: int, n: nat)
    requires Follows(a, b) && Late(a, b, TimeIs(limit), n, 0) && Timely(a, b, limit)
    ensures b.present.now <= Max(a.present.now, limit + NS_PER_MS) + Recent(a, b, n + 6)
  {
    var i := |b.log| - n - 1;
    if i >= |a.log| {
      assert !Past(b.log[i], TimeIs(limit));
    }
  }

  lemma HeardEnds(a: Trail, b: Trail, slack: nat, n: nat)
    requires Follows(a, b) && Late(a, b, SignalIsRecorded, n, 0) && Heard(a, b, slack)
    requires !a.present.signalled && b.present.signalled
    ensures b.present.now <= b.since + slack + Recent(a, b, n + 6)
  {
    var i := |b.log| - n - 1;
    if i >= |a.log| {
      assert !Past(b.log[i], SignalIsRecorded);
    }
  }
}
