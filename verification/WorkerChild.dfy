/**
  The descriptors of the analysis worker: how the pipe is placed above the standard streams, and how
  the forked child gives up everything except the pipe's write end on descriptor 3. Whether a call
  fails is decided by an oracle indexed by the number of the call, so a statement about all oracles
  is a statement about failures at any calls.
 */
module WorkerChild {
  import opened Bytes
  import opened Handlers
  import Limits

  const PIPE_FD := 3
  const LAST_STREAM := 2

  /** What a descriptor refers to, and whether it is closed on exec. */
  datatype Slot = Slot(file: nat, cloexec: bool)
  type Table = map<int, Slot>

  datatype CloseResult = Released | NotOpen | CloseFailed

  /** Which strategy reported that everything above descriptor 3 is closed. */
  datatype How = ByRange | ByDirectory(path: nat) | ByLoop

  /** Some descriptors of b may be closed, the others are as in b. */
  predicate Within(a: Table, b: Table) {
    forall fd :: fd in a ==> fd in b && a[fd] == b[fd]
  }

  /** The descriptors up to 3 are the same. */
  ghost predicate SameLow(a: Table, b: Table) {
    forall fd :: fd <= PIPE_FD ==> (fd in a <==> fd in b) && (fd in a ==> a[fd] == b[fd])
  }

  predicate InBounds(t: Table) {
    forall fd :: fd in t ==> 0 <= fd <= INT_MAX
  }

  /** A name that does not denote a descriptor above 3, or one that has been closed. */
  predicate NameHandled(name: seq<byte>, t: Table) {
    Limits.InRange(name, 0, INT_MAX) && Value(name) > PIPE_FD ==> Value(name) !in t
  }

  /** Moving one end leaves the rest of the table as it was. */
  lemma RestAfterMove(t0: Table, t1: Table, a: int, moved: int, other: int)
    requires t1 - {moved} == t0 - {a}
    ensures t1 - {moved, other} == t0 - {a, other}
  {
    assert t1 - {moved, other} == (t1 - {moved}) - {other};
    assert t0 - {a, other} == (t0 - {a}) - {other};
  }

  /**
    What has gone wrong: failed closes that left their descriptor open, failed calls, pipe ends that
    were released by a close that then failed, and closes of a pipe end that was no longer open.
   */
  datatype Tally = Tally(stuck: nat, failures: nat, lostEnds: nat, doubleCloses: nat)

  /** More calls may have failed, but every pipe end was treated as it should be. */
  predicate Orderly(t0: Tally, t: Tally) {
    t0.stuck <= t.stuck && t0.failures <= t.failures && t.lostEnds == t0.lostEnds && t.doubleCloses == t0.doubleCloses
  }

  function Missing(t: Table, fd: int): nat {
    if fd in t then 0 else 1
  }

  /** Descriptor 0 is closed, and so are the two highest ones. */
  predicate WithoutInput(t: Table) {
    0 !in t && INT_MAX !in t && INT_MAX - 1 !in t
  }

  class Process {
    const fails: nat -> bool
    const releases: nat -> bool
    /** The names that a directory lists while the given descriptors are open. */
    const listing: (nat, set<int>) -> seq<seq<byte>>
    /** sysconf(_SC_OPEN_MAX), negative when unknown. */
    const openMax: int
    var calls: nat
    ghost var tally: Tally
    var table: Table
    var mask: set<Signal>
    var handled: set<Signal>

    constructor (fails: nat -> bool, releases: nat -> bool, listing: (nat, set<int>) -> seq<seq<byte>>, openMax: int,
                 table: Table, mask: set<Signal>, handled: set<Signal>)
      ensures this.fails == fails && this.releases == releases && this.listing == listing && this.openMax == openMax
      ensures this.table == table && this.mask == mask && this.handled == handled && calls == 0
      ensures tally == Tally(0, 0, 0, 0)
    {
      this.fails, this.releases, this.listing, this.openMax := fails, releases, listing, openMax;
      this.table, this.mask, this.handled, calls := table, mask, handled, 0;
      tally := Tally(0, 0, 0, 0);
    }

    /** The directory lists every open descriptor above 3 by its number. */
    ghost predicate IsComplete(path: nat) {
      forall open_: set<int>, fd: int :: fd in open_ && PIPE_FD < fd ==> Digits(fd) in listing(path, open_)
    }

    method Call() returns (ok: bool)
      modifies this`calls, this`tally
      ensures calls == old(calls) + 1 && (ok <==> !fails(old(calls)))
      ensures tally == if ok then old(tally) else old(tally).(failures := old(tally).failures + 1)
    {
      ok := !fails(calls);
      calls := calls + 1;
      if !ok {
        tally := tally.(failures := tally.failures + 1);
      }
    }

    /** close: a failure may or may not have released the descriptor. */
    method Close(fd: int) returns (r: CloseResult)
      modifies this`calls, this`table, this`tally
      ensures Orderly(old(tally), tally)
      ensures fd !in old(table) ==> r == NotOpen && table == old(table)
      ensures fd in old(table) ==> r != NotOpen
      ensures r == Released ==> table == old(table) - {fd}
      ensures r == CloseFailed ==> tally.failures > old(tally).failures
      ensures r == CloseFailed ==> table == old(table) || table == old(table) - {fd}
      ensures r != NotOpen && tally.stuck == old(tally).stuck ==> table == old(table) - {fd}
      ensures fd in old(table) ==> (r == Released <==> !fails(old(calls)))
      ensures fd in old(table) && releases(old(calls)) ==> table == old(table) - {fd}
    {
      if fd !in table {
        calls := calls + 1;
        return NotOpen;
      }
      var n := calls;
      var ok := Call();
      if ok || releases(n) {
        table := table - {fd};
      } else {
        tally := tally.(stuck := tally.stuck + 1);
      }
      r := if ok then Released else CloseFailed;
    }

    /** The n-th call succeeds, and the next one, a close, releases its descriptor but reports a failure. */
    predicate LosesAt(n: nat) {
      !fails(n) && fails(n + 1) && releases(n + 1)
    }

    /** A close of a pipe end whose outcome is looked at. */
    method CloseChecked(fd: int) returns (ok: bool)
      requires fd in table
      modifies this`calls, this`table, this`tally
      ensures table == old(table) || table == old(table) - {fd}
      ensures ok ==> table == old(table) - {fd} && Orderly(old(tally), tally)
      ensures Orderly(old(tally), tally.(lostEnds := old(tally).lostEnds))
      ensures tally.stuck == old(tally).stuck ==> table == old(table) - {fd}
      ensures !ok ==> tally.failures > old(tally).failures && tally.lostEnds == old(tally).lostEnds + Missing(table, fd)
      ensures fails(old(calls)) && releases(old(calls)) ==> !ok && fd !in table
    {
      var closed := Close(fd);
      ok := closed == Released;
      if !ok && fd !in table {
        tally := tally.(lostEnds := tally.lostEnds + 1);
      }
    }

    /** A close of a pipe end whose outcome is not looked at; it should still be open. */
    method CloseOnce(fd: int)
      modifies this`calls, this`table, this`tally
      ensures table == old(table) || table == old(table) - {fd}
      ensures Orderly(old(tally), tally.(doubleCloses := old(tally).doubleCloses))
      ensures tally.doubleCloses == old(tally).doubleCloses + Missing(old(table), fd)
      ensures tally.stuck == old(tally).stuck ==> table == old(table) - {fd}
    {
      if fd !in table {
        tally := tally.(doubleCloses := tally.doubleCloses + 1);
      }
      var closed := Close(fd);
    }

    /** The lowest unused descriptor from a bound on. */
    method LowestFree(from: nat) returns (fd: nat)
      ensures fd >= from && fd !in table && forall k :: from <= k < fd ==> k in table
    {
      fd := from;
      ghost var rest := table.Keys;
      while fd in table
        invariant fd >= from && forall k :: from <= k < fd ==> k in table
        invariant forall k :: k in table && k >= fd ==> k in rest
        decreases |rest|
      {
        rest := rest - {fd};
        fd := fd + 1;
      }
    }

    // ---- Closing what was inherited ----

    /** Close the listed descriptors above 3 except the directory's own; stop at the first failure. */
    method CloseListed(names: seq<seq<byte>>, dirFd: int) returns (ok: bool)
      requires dirFd in table
      modifies this`calls, this`table, this`tally
      ensures Orderly(old(tally), tally)
      ensures !ok ==> tally.failures > old(tally).failures
      ensures dirFd in table && Within(table, old(table)) && SameLow(table, old(table))
      ensures ok ==> forall k :: 0 <= k < |names| ==> NameHandled(names[k], table - {dirFd})
    {
      for i := 0 to |names|
        invariant dirFd in table && Within(table, old(table)) && SameLow(table, old(table))
        invariant Orderly(old(tally), tally)
        invariant forall k :: 0 <= k < i ==> NameHandled(names[k], table - {dirFd})
      {
        ok := Call();
        if !ok {
          return;
        }
        var number := Limits.DescriptorNumber(names[i]);
        if number.Some? && number.value as int >= PIPE_FD + 1 && number.value as int != dirFd {
          var closed := Close(number.value as int);
          if closed == CloseFailed {
            return false;
          }
        }
      }
      ok := Call();
    }

    /** Close what a directory of descriptors lists. The directory's own descriptor is closed at the end. */
    method CloseFromDirectory(path: nat) returns (ok: bool)
      requires InBounds(table)
      modifies this`calls, this`table, this`tally
      ensures Orderly(old(tally), tally)
      ensures !ok ==> tally.failures > old(tally).failures
      ensures Within(table, old(table)) && SameLow(table, old(table))
      ensures ok && IsComplete(path) ==> forall fd :: fd in table ==> fd <= PIPE_FD
    {
      var opens := Call();
      if !opens {
        return false;
      }
      var dirFd := LowestFree(0);
      ghost var inherited := table;
      table := table[dirFd := Slot(0, true)];
      var hasFd := Call();
      if !hasFd {
        table := table - {dirFd};
        return false;
      }
      var names := listing(path, table.Keys);
      ghost var listed := table.Keys;
      var closed := CloseListed(names, dirFd);
      var ended := Call();
      table := table - {dirFd};
      ok := ended && closed;
      if ok && IsComplete(path) {
        forall fd | fd in listed && fd > PIPE_FD
          ensures fd !in table
        {
          assert Digits(fd) in names;
        }
      }
    }

    /** Close every descriptor above 3 by the first strategy that works. */
    method CloseInherited() returns (ok: bool, ghost how: How)
      requires InBounds(table)
      modifies this`calls, this`table, this`tally
      ensures Orderly(old(tally), tally)
      ensures !ok ==> tally.failures > old(tally).failures
      ensures Within(table, old(table)) && SameLow(table, old(table))
      ensures ok && Closes(how, old(table)) ==> forall fd :: fd in table ==> fd <= PIPE_FD
    {
      how := ByRange;
      var ranged := Call();
      if ranged {
        table := map fd | fd in table && fd <= PIPE_FD :: table[fd];
        return true, how;
      }
      how := ByDirectory(0);
      ok := CloseFromDirectory(0);
      if ok {
        return;
      }
      how := ByDirectory(1);
      ok := CloseFromDirectory(1);
      if ok {
        return;
      }
      how := ByLoop;
      if openMax < 0 {
        return false, how;
      }
      var limit := if openMax > INT_MAX then INT_MAX else openMax;
      var fd := PIPE_FD + 1;
      ghost var before := table;
      while fd < limit
        invariant Within(table, before) && SameLow(table, before)
        invariant Orderly(old(tally), tally) && tally.failures > old(tally).failures
        invariant PIPE_FD < fd && forall k :: PIPE_FD < k < fd ==> k !in table
      {
        var closed := Close(fd);
        if closed == CloseFailed {
          return false, how;
        }
        fd := fd + 1;
      }
      ok := true;
    }

    /** What makes the strategy close everything: a complete listing, or descriptors below the limit. */
    ghost predicate Closes(how: How, inherited: Table) {
      match how
      case ByRange => true
      case ByDirectory(path) => IsComplete(path)
      case ByLoop => forall fd :: fd in inherited && PIPE_FD < fd ==> fd < openMax && fd < INT_MAX
    }

    /** The termination signals get their default action and are unblocked. */
    method ResetTerminationSignals() returns (ok: bool)
      modifies this`calls, this`mask, this`handled, this`tally
      ensures Orderly(old(tally), tally)
      ensures !ok ==> tally.failures > old(tally).failures
      ensures ok ==> handled == old(handled) - TerminationSet() && mask == old(mask) - TerminationSet()
    {
      for i := 0 to |SIGNALS|
        invariant mask == old(mask) && Orderly(old(tally), tally)
        invariant handled == old(handled) - (set s | s in SIGNALS[..i])
      {
        ok := Call();
        if !ok {
          return;
        }
        handled := handled - {SIGNALS[i]};
        assert SIGNALS[..i + 1] == SIGNALS[..i] + [SIGNALS[i]];
      }
      assert SIGNALS[..|SIGNALS|] == SIGNALS;
      assert (set s | s in SIGNALS) == TerminationSet();
      ok := Call();
      if ok {
        mask := mask - TerminationSet();
      }
    }

    /** Move the write end to 3 and close the read end and the standard streams. */
    method PlacePipe(readFd: int, writeFd: int) returns (ok: bool)
      requires InBounds(table) && readFd in table && writeFd in table && readFd != writeFd
      requires readFd > LAST_STREAM && writeFd > LAST_STREAM
      modifies this`calls, this`table, this`tally
      ensures Orderly(old(tally), tally)
      ensures !ok ==> tally.failures > old(tally).failures
      ensures ok ==> InBounds(table) && PIPE_FD in table && table[PIPE_FD].file == old(table)[writeFd].file
      ensures ok ==> forall k :: k in table ==> k >= PIPE_FD && (k in old(table) || k == PIPE_FD)
    {
      if writeFd != PIPE_FD {
        ok := Call();
        if !ok {
          return;
        }
        table := table[PIPE_FD := Slot(table[writeFd].file, false)];
        var closed := Close(writeFd);
        if closed != Released {
          return false;
        }
      }
      if readFd != PIPE_FD {
        var closed := Close(readFd);
        if closed != Released {
          return false;
        }
      }
      var fd := 0;
      while fd <= LAST_STREAM
        invariant 0 <= fd <= PIPE_FD && Orderly(old(tally), tally)
        invariant forall k :: 0 <= k < fd ==> k !in table
        invariant PIPE_FD in table && table[PIPE_FD].file == old(table)[writeFd].file
        invariant forall k :: k in table ==> k in old(table) || k == PIPE_FD
        modifies this`calls, this`table, this`tally
      {
        var closed := Close(fd);
        if closed == CloseFailed {
          return false;
        }
        fd := fd + 1;
      }
      ok := true;
    }

    /**
      The child keeps exactly the pipe's write end, on descriptor 3 and closed on exec, wherever the
      two ends were and whatever else was inherited.
     */
    method PrepareWorkerChild(readFd: int, writeFd: int) returns (ok: bool, ghost how: How)
      requires InBounds(table) && readFd in table && writeFd in table && readFd != writeFd
      requires readFd > LAST_STREAM && writeFd > LAST_STREAM
      modifies this
      ensures Orderly(old(tally), tally)
      ensures !ok ==> tally.failures > old(tally).failures
      ensures ok && Closes(how, old(table)) ==> table == map[PIPE_FD := Slot(old(table)[writeFd].file, true)]
      ensures ok ==> handled == old(handled) - TerminationSet() && mask == old(mask) - TerminationSet()
    {
      how := ByRange;
      ok := ResetTerminationSignals();
      if !ok {
        return;
      }
      ok := Call();
      if !ok {
        return;
      }
      ok := PlacePipe(readFd, writeFd);
      if !ok {
        return;
      }
      ghost var placed := table;
      ok, how := CloseInherited();
      if !ok {
        return;
      }
      if Closes(how, old(table)) {
        assert Closes(how, placed);
        assert forall fd :: fd in table ==> fd in placed && fd <= PIPE_FD;
        assert PIPE_FD in placed && PIPE_FD in table && table.Keys == {PIPE_FD};
      }
      ok := SetCloseOnExec(PIPE_FD);
    }

    method SetCloseOnExec(fd: int) returns (ok: bool)
      modifies this`calls, this`table, this`tally
      ensures Orderly(old(tally), tally)
      ensures !ok ==> tally.failures > old(tally).failures
      ensures ok ==> fd in old(table) && table == old(table)[fd := Slot(old(table)[fd].file, true)]
      ensures !ok ==> table == old(table)
    {
      ok := Call();
      if !ok {
        return;
      }
      if fd !in table {
        tally := tally.(failures := tally.failures + 1);
        return false;
      }
      ok := Call();
      if ok {
        table := table[fd := Slot(table[fd].file, true)];
      }
    }

    method SetBothCloseOnExec(first: int, second: int) returns (ok: bool)
      requires first in table && second in table && first != second
      modifies this`calls, this`table, this`tally
      ensures Orderly(old(tally), tally) && table.Keys == old(table).Keys
      ensures !ok ==> tally.failures > old(tally).failures
      ensures table - {first, second} == old(table) - {first, second}
      ensures ok ==>
        table == old(table)[first := Slot(old(table)[first].file, true)][second := Slot(old(table)[second].file, true)]
    {
      ok := SetCloseOnExec(first);
      if ok {
        ok := SetCloseOnExec(second);
      }
    }

    // ---- The parent's side of the pipe ----

    /** pipe: two lowest free descriptors. */
    method Pipe(readEnd: nat, writeEnd: nat) returns (ok: bool, readFd: int, writeFd: int)
      requires InBounds(table)
      modifies this`calls, this`table, this`tally
      ensures Orderly(old(tally), tally)
      ensures !ok ==> tally.failures > old(tally).failures
      ensures ok ==> readFd != writeFd && readFd !in old(table) && writeFd !in old(table) && InBounds(table)
      ensures ok ==> table == old(table)[readFd := Slot(readEnd, false)][writeFd := Slot(writeEnd, false)]
      ensures !ok ==> table == old(table)
      ensures calls == old(calls) + 1
      ensures ok ==> readFd >= 0 && forall k :: 0 <= k < readFd ==> k in old(table)
      ensures WithoutInput(old(table)) && !fails(old(calls)) ==> ok && INT_MAX !in table
    {
      readFd, writeFd := -1, -1;
      ok := Call();
      if !ok {
        return;
      }
      ghost var before := table;
      var first := LowestFree(0);
      table := table[first := Slot(readEnd, false)];
      var second := LowestFree(0);
      if first > INT_MAX || second > INT_MAX {
        table := table - {first};
        tally := tally.(failures := tally.failures + 1);
        return false, -1, -1;
      }
      assert WithoutInput(before) ==> first == 0 && INT_MAX - 1 !in table && second < INT_MAX;
      table := table[second := Slot(writeEnd, false)];
      readFd, writeFd := first, second;
    }

    /** A pipe end on a standard stream's number is duplicated above them and the original closed. */
    method MoveAboveStreams(fd: int) returns (ok: bool, moved: int)
      requires InBounds(table) && fd in table
      modifies this`calls, this`table, this`tally
      ensures InBounds(table) && Orderly(old(tally), tally.(lostEnds := old(tally).lostEnds)) && (!ok ==> moved == fd)
      ensures tally.lostEnds == old(tally).lostEnds + Missing(table, moved)
      ensures !ok ==> tally.failures > old(tally).failures
      ensures ok ==> moved > LAST_STREAM
      ensures moved != fd ==> fd <= LAST_STREAM && moved !in old(table)
      ensures ok ==> moved in table && table[moved].file == old(table)[fd].file
      ensures ok || tally.stuck == old(tally).stuck ==> table - {moved} == old(table) - {fd}
      ensures forall k :: k in old(table) && k != fd ==> k in table && table[k] == old(table)[k]
      ensures fd <= LAST_STREAM && INT_MAX !in old(table) && LosesAt(old(calls)) ==> !ok && fd !in table
    {
      if fd > LAST_STREAM {
        return true, fd;
      }
      ok := Call();
      if !ok {
        return false, fd;
      }
      var copy := LowestFree(LAST_STREAM + 1);
      if copy > INT_MAX {
        tally := tally.(failures := tally.failures + 1);
        return false, fd;
      }
      table := table[copy := Slot(table[fd].file, false)];
      ok := CloseChecked(fd);
      if !ok {
        var undone := Close(copy);
        return false, fd;
      }
      moved := copy;
    }

    /** close_fd_once on both ends, whatever comes of it. */
    method ClosePair(first: int, second: int)
      requires first != second
      modifies this`calls, this`table, this`tally
      ensures Within(table, old(table)) && Orderly(old(tally), tally.(doubleCloses := old(tally).doubleCloses))
      ensures tally.doubleCloses == old(tally).doubleCloses + Missing(old(table), first) + Missing(old(table), second)
      ensures forall k :: k in old(table) && k != first && k != second ==> k in table
      ensures tally.stuck == old(tally).stuck ==> table == old(table) - {first, second}
    {
      CloseOnce(first);
      CloseOnce(second);
    }

    method MoveBoth(first: int, second: int) returns (ok: bool, readFd: int, writeFd: int)
      requires InBounds(table) && first in table && second in table && first != second
      modifies this`calls, this`table, this`tally
      ensures Orderly(old(tally), tally.(lostEnds := old(tally).lostEnds)) && (ok ==> InBounds(table))
      ensures tally.lostEnds == old(tally).lostEnds + Missing(table, readFd) + Missing(table, writeFd)
      ensures !ok ==> tally.failures > old(tally).failures
      ensures forall k :: k in old(table) && k != first && k != second ==> k in table && table[k] == old(table)[k]
      ensures readFd == first || readFd !in old(table)
      ensures writeFd == second || writeFd !in old(table)
      ensures ok || tally.stuck == old(tally).stuck ==> table - {readFd, writeFd} == old(table) - {first, second}
      ensures readFd != writeFd && (ok ==> readFd > LAST_STREAM && writeFd > LAST_STREAM)
      ensures ok ==> readFd in table && table[readFd].file == old(table)[first].file
      ensures ok ==> writeFd in table && table[writeFd].file == old(table)[second].file
      ensures first <= LAST_STREAM && INT_MAX !in old(table) && LosesAt(old(calls)) ==>
        !ok && tally.lostEnds > old(tally).lostEnds
    {
      writeFd := second;
      ok, readFd := MoveAboveStreams(first);
      if ok || tally.stuck == old(tally).stuck {
        RestAfterMove(old(table), table, first, readFd, second);
      }
      if !ok {
        return;
      }
      ghost var t, s := table, tally.stuck;
      ok, writeFd := MoveAboveStreams(second);
      if ok || tally.stuck == s {
        RestAfterMove(t, table, second, writeFd, readFd);
        assert {writeFd, readFd} == {readFd, writeFd} && {second, readFd} == {readFd, second};
      }
    }

    /**
      Both ends above the standard streams and closed on exec, or, unless closing fails, nothing
      changed. An end is closed again exactly when moving it released it and reported a failure.
     */
    method CreatePipe(readEnd: nat, writeEnd: nat) returns (ok: bool, readFd: int, writeFd: int)
      requires InBounds(table)
      modifies this`calls, this`table, this`tally
      ensures ok ==> readFd > LAST_STREAM && writeFd > LAST_STREAM && readFd != writeFd && InBounds(table)
      ensures ok ==> readFd !in old(table) && writeFd !in old(table)
      ensures ok ==> table == old(table)[readFd := Slot(readEnd, true)][writeFd := Slot(writeEnd, true)]
      ensures Within(old(table), table) && (!ok && tally.stuck == old(tally).stuck ==> table == old(table))
      ensures !ok ==> tally.failures > old(tally).failures
      ensures tally.stuck >= old(tally).stuck && tally.failures >= old(tally).failures
      ensures tally.doubleCloses - old(tally).doubleCloses == tally.lostEnds - old(tally).lostEnds
      // With descriptor 0 closed, the failing close of the end that is moved away from it is repeated.
      ensures WithoutInput(old(table)) && !fails(old(calls)) && LosesAt(old(calls) + 1) ==>
        !ok && tally.doubleCloses > old(tally).doubleCloses
    {
      ok, readFd, writeFd := Pipe(readEnd, writeEnd);
      if !ok {
        return;
      }
      ghost var first, second, made := readFd, writeFd, table;
      ok, readFd, writeFd := MoveBoth(readFd, writeFd);
      assert made - {first, second} == old(table);
      if ok {
        ok := SetBothCloseOnExec(readFd, writeFd);
      }
      if !ok {
        ClosePair(readFd, writeFd);
      }
    }

    /** The descriptors of begin in the parent when the child could be created: give up the write end. */
    method GiveUpWriteEnd(readFd: int, writeFd: int) returns (ok: bool)
      requires readFd in table && writeFd in table && readFd != writeFd
      modifies this`calls, this`table, this`tally
      ensures Within(table, old(table)) && forall k :: k in old(table) && k != readFd && k != writeFd ==> k in table
      ensures ok ==> table == old(table) - {writeFd} && Orderly(old(tally), tally)
      ensures !ok && tally.stuck == old(tally).stuck ==> table == old(table) - {readFd, writeFd}
      ensures !ok ==> tally.failures > old(tally).failures
      ensures tally.stuck >= old(tally).stuck && tally.failures >= old(tally).failures
      ensures tally.doubleCloses - old(tally).doubleCloses == tally.lostEnds - old(tally).lostEnds
    {
      ok := CloseChecked(writeFd);
      if !ok {
        CloseOnce(writeFd);
        CloseOnce(readFd);
      }
    }

    /**
      All that begin does to the parent's descriptors. On success exactly the read end is added, on
      failure nothing unless closing failed; and over the whole call descriptors are closed twice
      exactly as often as a pipe end is released by a close that then reports a failure.
     */
    method BeginInParent(readEnd: nat, writeEnd: nat) returns (ok: bool, readFd: int)
      requires InBounds(table)
      modifies this`calls, this`table, this`tally
      ensures Within(old(table), table)
      ensures ok ==> readFd !in old(table) && readFd > LAST_STREAM && table == old(table)[readFd := Slot(readEnd, true)]
      ensures !ok && tally.stuck == old(tally).stuck ==> table == old(table)
      ensures !ok ==> tally.failures > old(tally).failures
      ensures tally.doubleCloses - old(tally).doubleCloses == tally.lostEnds - old(tally).lostEnds
      ensures WithoutInput(old(table)) && !fails(old(calls)) && LosesAt(old(calls) + 1) ==>
        !ok && tally.doubleCloses > old(tally).doubleCloses
    {
      var writeFd;
      ok, readFd, writeFd := CreatePipe(readEnd, writeEnd);
      if !ok {
        return;
      }
      ghost var made := table;
      assert made - {readFd, writeFd} == old(table);
      ok := Call();
      if !ok {
        ClosePair(readFd, writeFd);
        return;
      }
      ok := GiveUpWriteEnd(readFd, writeFd);
    }

    /** fork: the child starts with a copy of everything. */
    method Fork() returns (child: Process)
      ensures fresh(child) && child.table == table && child.mask == mask && child.handled == handled
      ensures child.openMax == openMax && child.listing == listing && child.tally == Tally(0, 0, 0, 0)
    {
      child := new Process(fails, releases, listing, openMax, table, mask, handled);
    }

    /** Creating the pipe, forking and preparing: what the child of a successful begin has left. */
    method BeginInChild(readEnd: nat, writeEnd: nat) returns (ok: bool, child: Process?, ghost how: How)
      requires InBounds(table)
      modifies this`calls, this`table, this`tally
      ensures ok ==> child != null && fresh(child)
      ensures ok && Closes(how, table) ==> child.table == map[PIPE_FD := Slot(writeEnd, true)]
      ensures !ok ==> tally.failures > old(tally).failures || (child != null && child.tally.failures > 0)
      ensures ok ==> child.handled == handled - TerminationSet() && child.mask == mask - TerminationSet()
    {
      child, how := null, ByRange;
      var readFd, writeFd;
      ok, readFd, writeFd := CreatePipe(readEnd, writeEnd);
      if !ok {
        return;
      }
      child := Fork();
      ok, how := child.PrepareWorkerChild(readFd, writeFd);
    }
  }

  /** A parent without standard input, whose close of the moved pipe end fails: begin closes descriptor 0 twice. */
  method MovedEndIsClosedTwice() returns (p: Process)
    ensures fresh(p) && p.tally.doubleCloses > 0
  {
    var table: Table := map[1 := Slot(1, false), 2 := Slot(2, false)];
    p := new Process(n => n == 2, n => true, (path, open_) => [], -1, table, {}, {});
    assert p.LosesAt(1);
    var ok, readFd := p.BeginInParent(3, 4);
  }
}
