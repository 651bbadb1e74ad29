/**
  Installing and restoring the termination handlers, the signal mask and the O_NONBLOCK bits, with
  any system call failing at any moment. Every operation takes a record saying which of its calls
  fail, so a statement for all records is a statement for all failures.
 */
module Handlers {

  type Signal = nat

  const SIGNALS: seq<Signal> := [2, 15, 1]
  const COUNT := 3
  const STDOUT := 1
  const FD_SETSIZE := 1024

  function TerminationSet(): set<Signal> {
    {2, 15, 1}
  }

  /** What the kernel does with a signal: call this module's recorder, or what it did before. */
  datatype Disposition = Recorder | Foreign(id: nat)

  /** File status flags: O_NONBLOCK and all the others. */
  datatype Flags = Flags(nonblock: bool, others: nat)

  /** An attached descriptor with the flags found when it was attached. */
  datatype Attached = Detached | Attached(fd: int, saved: Flags)

  /** Kernel state of the process and the module's static variables. */
  datatype World = World(
    actions: seq<Disposition>,
    mask: set<Signal>,
    flags: map<int, Flags>,
    installed: seq<bool>,
    previous: seq<Disposition>,
    previousMask: set<Signal>,
    maskSaved: bool,
    input: Attached,
    output: Attached,
    pending: Signal)

  predicate Shaped(w: World) {
    |w.actions| == COUNT && |w.installed| == COUNT && |w.previous| == COUNT
  }

  predicate AnyInstalled(w: World)
    requires Shaped(w)
  {
    w.installed[0] || w.installed[1] || w.installed[2]
  }

  // ---- Installing ----

  /** Which calls of one installation fail: the two mask calls at the start and end, sigaction, its undoing. */
  datatype InstallFaults = InstallFaults(block: bool, empty: bool, action: seq<bool>, rollback: seq<bool>,
                                         activate: bool, reset: bool)

  predicate InstallShaped(f: InstallFaults) {
    |f.action| == COUNT && |f.rollback| == COUNT
  }

  /** sigaction with the saved disposition, for the handlers below j that this call has installed. */
  function Rollback(w: World, f: InstallFaults, now: seq<bool>, j: nat): (r: World)
    requires Shaped(w) && InstallShaped(f) && |now| == COUNT && j <= COUNT
    ensures Shaped(r)
    ensures r == w.(actions := r.actions, installed := r.installed)
    decreases j
  {
    if j == 0 then w
    else
      var i := j - 1;
      var w' := if now[i] && !f.rollback[i]
                then w.(actions := w.actions[i := w.previous[i]], installed := w.installed[i := false])
                else w;
      Rollback(w', f, now, i)
  }

  /** sigprocmask(SIG_SETMASK, original): on failure the termination signals stay blocked. */
  function ResetMask(w: World, f: InstallFaults, original: set<Signal>): World {
    if f.reset then w else w.(mask := original)
  }

  /** sigaction(signal, recorder, &previous) succeeding. */
  function InstallOne(w: World, i: nat): (r: World)
    requires Shaped(w) && i < COUNT
    ensures Shaped(r)
  {
    w.(previous := w.previous[i := w.actions[i]], actions := w.actions[i := Recorder],
       installed := w.installed[i := true])
  }

  /** The installation loop from signal i on; `now` are the handlers installed by this call. */
  function InstallFrom(w: World, f: InstallFaults, now: seq<bool>, i: nat): (r: (World, seq<bool>, bool))
    requires Shaped(w) && InstallShaped(f) && |now| == COUNT && i <= COUNT
    ensures Shaped(r.0) && |r.1| == COUNT
    decreases COUNT - i
  {
    if i == COUNT then (w, now, true)
    else if w.installed[i] then InstallFrom(w, f, now, i + 1)
    else if f.action[i] then (Rollback(w, f, now, i), now, false)
    else InstallFrom(InstallOne(w, i), f, now[i := true], i + 1)
  }

  const NONE_NOW: seq<bool> := [false, false, false]

  /** The termination signals are blocked, and the first installation forgets an earlier signal. */
  function Started(w: World): (r: World)
    requires Shaped(w)
    ensures Shaped(r)
  {
    w.(mask := w.mask + TerminationSet(), pending := if AnyInstalled(w) then w.pending else 0)
  }

  function Install(w: World, f: InstallFaults): (r: (World, bool))
    requires Shaped(w) && InstallShaped(f)
    ensures Shaped(r.0)
  {
    if f.block then (w, false)
    else
      var original := w.mask;
      var first := !AnyInstalled(w);
      var started := Started(w);
      if f.empty then (ResetMask(started, f, original), false)
      else
        var (tried, now, ok) := InstallFrom(started, f, NONE_NOW, 0);
        if !ok then (ResetMask(tried, f, original), false)
        else
          var saved := if first then tried.(previousMask := original, maskSaved := true) else tried;
          if f.activate then
            var undone := Rollback(saved, f, now, COUNT);
            var cleared := if AnyInstalled(undone) then undone else undone.(maskSaved := false);
            (ResetMask(cleared, f, original), false)
          else (saved.(mask := original - TerminationSet()), true)
  }

  // ---- Restoring ----

  datatype RestoreFaults = RestoreFaults(block: bool, action: seq<bool>, setmask: bool,
                                         getInput: bool, setInput: bool, getOutput: bool, setOutput: bool)

  predicate RestoreShaped(f: RestoreFaults) {
    |f.action| == COUNT
  }

  /** The restoring loop for the signals below j. */
  function RestoreBelow(w: World, f: RestoreFaults, j: nat): (r: World)
    requires Shaped(w) && RestoreShaped(f) && j <= COUNT
    ensures Shaped(r) && r == w.(actions := r.actions, installed := r.installed)
    decreases j
  {
    if j == 0 then w
    else
      var i := j - 1;
      var w' := if w.installed[i] && !f.action[i]
                then w.(actions := w.actions[i := w.previous[i]], installed := w.installed[i := false])
                else w;
      RestoreBelow(w', f, i)
  }

  /** Put the saved O_NONBLOCK bit back, keeping the other flags as they are; fcntl fails on unknown descriptors. */
  function Detach(flags: map<int, Flags>, a: Attached, getFails: bool, setFails: bool)
    : (r: (map<int, Flags>, Attached, bool))
    ensures r.0.Keys == flags.Keys
    ensures r.2 ==> r.1.Detached?
  {
    if a.Detached? then (flags, a, true)
    else if getFails || a.fd !in flags || setFails then (flags, a, false)
    else (flags[a.fd := flags[a.fd].(nonblock := a.saved.nonblock)], Detached, true)
  }

  /** The input first, then the output; each is attempted whatever became of the other. */
  function DetachBoth(flags: map<int, Flags>, a: Attached, b: Attached, f: RestoreFaults)
    : (r: (map<int, Flags>, Attached, Attached, bool))
    ensures r.3 ==> r.1.Detached? && r.2.Detached?
    ensures r.0.Keys == flags.Keys && (r.1 == a || r.1.Detached?) && (r.2 == b || r.2.Detached?)
  {
    var (flags1, input, inputOk) := Detach(flags, a, f.getInput, f.setInput);
    var (flags2, output, outputOk) := Detach(flags1, b, f.getOutput, f.setOutput);
    (flags2, input, output, inputOk && outputOk)
  }

  predicate NothingToRestore(w: World)
    requires Shaped(w)
  {
    !AnyInstalled(w) && !w.maskSaved && w.output.Detached?
  }

  function Blocked(w: World): World {
    w.(mask := w.mask + TerminationSet())
  }

  function Restore(w: World, f: RestoreFaults): (r: (World, bool))
    requires Shaped(w) && RestoreShaped(f)
    ensures Shaped(r.0)
  {
    if NothingToRestore(w) then (w, true)
    else if f.block then (w, false)
    else
      var current := w.mask;
      var blocked := Blocked(w);
      var acted := RestoreBelow(blocked, f, COUNT);
      var mask := if f.setmask then blocked.mask else if w.maskSaved then w.previousMask else current;
      var (flags, input, output, detached) := DetachBoth(w.flags, w.input, w.output, f);
      var done := acted.(mask := mask, flags := flags, input := input, output := output);
      if AnyInstalled(acted) || f.setmask || !detached then (done, false)
      else (done.(maskSaved := false), true)
  }

  // ---- Attaching descriptors ----

  /** The first lines of a guarded read: the descriptor becomes non-blocking while handlers are installed. */
  function AttachInput(w: World, fd: int, getFails: bool, setFails: bool): (World, bool)
    requires Shaped(w)
  {
    if !AnyInstalled(w) then (w, true)
    else if fd < 0 || fd >= FD_SETSIZE then (w, false)
    else if w.input.Attached? && w.input.fd == fd then (w, true)
    else if w.input.Attached? || getFails || fd !in w.flags then (w, false)
    else if !w.flags[fd].nonblock && setFails then (w, false)
    else (w.(flags := w.flags[fd := w.flags[fd].(nonblock := true)], input := Attached(fd, w.flags[fd])), true)
  }

  function BeginOutput(w: World, getFails: bool, clockFails: bool, setFails: bool): (World, bool) {
    if w.output.Attached? || getFails || STDOUT !in w.flags || clockFails then (w, false)
    else if !w.flags[STDOUT].nonblock && setFails then (w, false)
    else (w.(flags := w.flags[STDOUT := w.flags[STDOUT].(nonblock := true)],
             output := Attached(STDOUT, w.flags[STDOUT])), true)
  }

  function EndOutput(w: World, getFails: bool, setFails: bool): (World, bool) {
    if w.output.Detached? then (w, false)
    else
      var (flags, output, ok) := Detach(w.flags, w.output, getFails, setFails);
      (w.(flags := flags, output := output), ok)
  }

  /** The signal handler: the first signal wins. */
  function Record(w: World, signal: Signal): World {
    if w.pending == 0 then w.(pending := signal) else w
  }

  // ---- Histories ----

  datatype Op =
    | DoInstall(install: InstallFaults)
    | DoRestore(restore: RestoreFaults)
    | DoAttach(fd: int, getFails: bool, setFails: bool)
    | DoBegin(getFails: bool, clockFails: bool, setFails: bool)
    | DoEnd(getFails: bool, setFails: bool)
    /** The recorder runs: it can only be one of the three signals. */
    | DoSignal(signal: Signal)
    | DoOtherFlags(fd: int, others: nat)

  predicate OpShaped(op: Op) {
    (op.DoInstall? ==> InstallShaped(op.install)) && (op.DoRestore? ==> RestoreShaped(op.restore))
  }

  function Apply(w: World, op: Op): (r: World)
    requires Shaped(w) && OpShaped(op)
    ensures Shaped(r)
  {
    match op
    case DoInstall(f) => Install(w, f).0
    case DoRestore(f) => Restore(w, f).0
    case DoAttach(fd, g, s) => AttachInput(w, fd, g, s).0
    case DoBegin(g, c, s) => BeginOutput(w, g, c, s).0
    case DoEnd(g, s) => EndOutput(w, g, s).0
    case DoSignal(signal) => if signal in SIGNALS then Record(w, signal) else w
    case DoOtherFlags(fd, others) =>
      if fd in w.flags then w.(flags := w.flags[fd := w.flags[fd].(others := others)]) else w
  }

  function Run(w: World, ops: seq<Op>): (r: World)
    requires Shaped(w) && forall i :: 0 <= i < |ops| ==> OpShaped(ops[i])
    ensures Shaped(r)
  {
    if ops == [] then w else Apply(Run(w, ops[..|ops| - 1]), ops[|ops| - 1])
  }

  /** Nothing installed, saved or attached: the state the process was started in. */
  predicate Pristine(w: World) {
    && Shaped(w) && w.installed == NONE_NOW && !w.maskSaved && w.input.Detached? && w.output.Detached?
    && forall i :: 0 <= i < COUNT ==> w.actions[i].Foreign?
  }

  // ---- Dispositions, whatever fails ----

  /** Each signal is marked installed with its original disposition saved, or still has that disposition. */
  predicate DispositionsKept(w0: World, w: World)
    requires Shaped(w0)
  {
    Shaped(w) && TablesKept(w0.actions, w.actions, w.installed, w.previous)
  }

  predicate TablesKept(original: seq<Disposition>, actions: seq<Disposition>, installed: seq<bool>,
                       previous: seq<Disposition>)
    requires |original| == |actions| == |installed| == |previous| == COUNT
  {
    forall i :: 0 <= i < COUNT ==>
      if installed[i] then actions[i] == Recorder && previous[i] == original[i] else actions[i] == original[i]
  }

  lemma {:induction false} RollbackKeeps(w0: World, w: World, f: InstallFaults, now: seq<bool>, j: nat)
    requires Shaped(w0) && DispositionsKept(w0, w) && InstallShaped(f) && |now| == COUNT && j <= COUNT
    requires forall i :: 0 <= i < j && now[i] ==> w.installed[i]
    ensures DispositionsKept(w0, Rollback(w, f, now, j))
    decreases j
  {
    if j > 0 {
      var i := j - 1;
      var w' := if now[i] && !f.rollback[i]
                then w.(actions := w.actions[i := w.previous[i]], installed := w.installed[i := false])
                else w;
      RollbackKeeps(w0, w', f, now, i);
    }
  }

  lemma {:induction false} RollbackMarks(w: World, f: InstallFaults, now: seq<bool>, j: nat)
    requires Shaped(w) && InstallShaped(f) && |now| == COUNT && j <= COUNT
    ensures forall i :: 0 <= i < COUNT ==>
      (Rollback(w, f, now, j).installed[i] <==> w.installed[i] && !(i < j && now[i] && !f.rollback[i]))
    decreases j
  {
    if j > 0 {
      var i := j - 1;
      var w' := if now[i] && !f.rollback[i]
                then w.(actions := w.actions[i := w.previous[i]], installed := w.installed[i := false])
                else w;
      RollbackMarks(w', f, now, i);
    }
  }

  lemma {:induction false} InstallFromKeeps(w0: World, w: World, f: InstallFaults, now: seq<bool>, i: nat)
    requires Shaped(w0) && DispositionsKept(w0, w) && InstallShaped(f) && |now| == COUNT && i <= COUNT
    requires forall k :: 0 <= k < COUNT && now[k] ==> k < i && w.installed[k]
    ensures
      var (r, after, ok) := InstallFrom(w, f, now, i);
      && DispositionsKept(w0, r) && (ok ==> forall k :: 0 <= k < COUNT && after[k] ==> r.installed[k])
      && r == w.(actions := r.actions, installed := r.installed, previous := r.previous)
    decreases COUNT - i
  {
    if i < COUNT {
      if w.installed[i] {
        InstallFromKeeps(w0, w, f, now, i + 1);
      } else if f.action[i] {
        RollbackKeeps(w0, w, f, now, i);
      } else {
        InstallFromKeeps(w0, InstallOne(w, i), f, now[i := true], i + 1);
      }
      hide Rollback, DispositionsKept;
    }
  }

  /** The loop installs the missing handlers, or undoes its own except where the undoing fails. */
  lemma {:induction false} InstallFromMarks(w: World, f: InstallFaults, now: seq<bool>, i: nat)
    requires Shaped(w) && InstallShaped(f) && |now| == COUNT && i <= COUNT
    requires forall k :: 0 <= k < COUNT && now[k] ==> k < i && w.installed[k]
    ensures
      var (r, after, ok) := InstallFrom(w, f, now, i);
      && (ok ==> forall k :: 0 <= k < COUNT ==> (r.installed[k] <==> w.installed[k] || i <= k))
      && (!ok ==> forall k :: 0 <= k < COUNT && (w.installed[k] && !now[k]) ==> r.installed[k])
      && (!ok ==> forall k :: 0 <= k < COUNT && r.installed[k] ==> (w.installed[k] && !now[k]) || f.rollback[k])
    decreases COUNT - i
  {
    if i < COUNT {
      if w.installed[i] {
        InstallFromMarks(w, f, now, i + 1);
      } else if f.action[i] {
        RollbackMarks(w, f, now, i);
      } else {
        InstallFromMarks(InstallOne(w, i), f, now[i := true], i + 1);
      }
      hide Rollback;
    }
  }

  lemma {:induction false} RestoreBelowKeeps(w0: World, w: World, f: RestoreFaults, j: nat)
    requires Shaped(w0) && DispositionsKept(w0, w) && RestoreShaped(f) && j <= COUNT
    ensures DispositionsKept(w0, RestoreBelow(w, f, j))
    ensures forall i :: 0 <= i < COUNT ==>
      (RestoreBelow(w, f, j).installed[i] <==> w.installed[i] && !(i < j && !f.action[i]))
    decreases j
  {
    if j > 0 {
      var i := j - 1;
      var w' := if w.installed[i] && !f.action[i]
                then w.(actions := w.actions[i := w.previous[i]], installed := w.installed[i := false])
                else w;
      RestoreBelowKeeps(w0, w', f, i);
    }
  }

  lemma InstallKeepsDispositions(w0: World, w: World, f: InstallFaults)
    requires Shaped(w0) && DispositionsKept(w0, w) && InstallShaped(f)
    ensures DispositionsKept(w0, Install(w, f).0)
    ensures Install(w, f).1 ==> forall k :: 0 <= k < COUNT ==> Install(w, f).0.installed[k]
  {
    var started := Started(w);
    InstallFromKeeps(w0, started, f, NONE_NOW, 0);
    InstallFromMarks(started, f, NONE_NOW, 0);
    hide InstallFrom, Rollback;
    var (tried, now, ok) := InstallFrom(started, f, NONE_NOW, 0);
    if ok {
      var saved := if !AnyInstalled(w) then tried.(previousMask := w.mask, maskSaved := true) else tried;
      RollbackKeeps(w0, saved, f, now, COUNT);
    }
    hide TablesKept;
  }

  lemma {:induction false} RestoreBelowMarks(w: World, f: RestoreFaults, j: nat)
    requires Shaped(w) && RestoreShaped(f) && j <= COUNT
    ensures forall i :: 0 <= i < COUNT ==>
      (RestoreBelow(w, f, j).installed[i] <==> w.installed[i] && !(i < j && !f.action[i]))
    decreases j
  {
    if j > 0 {
      var i := j - 1;
      var w' := if w.installed[i] && !f.action[i]
                then w.(actions := w.actions[i := w.previous[i]], installed := w.installed[i := false])
                else w;
      RestoreBelowMarks(w', f, i);
    }
  }

  lemma {:induction false} InstallFromFrame(w: World, f: InstallFaults, now: seq<bool>, i: nat)
    requires Shaped(w) && InstallShaped(f) && |now| == COUNT && i <= COUNT
    ensures
      var r := InstallFrom(w, f, now, i).0;
      r == w.(actions := r.actions, installed := r.installed, previous := r.previous)
    decreases COUNT - i
  {
    if i < COUNT {
      InstallFromFrame(w, f, now, i + 1);
      InstallFromFrame(InstallOne(w, i), f, now[i := true], i + 1);
      hide Rollback;
    }
  }

  /** After a successful installation no termination signal is blocked, and the first one starts afresh. */
  lemma InstallUnblocks(w: World, f: InstallFaults)
    requires Shaped(w) && InstallShaped(f) && Install(w, f).1
    ensures
      var r := Install(w, f).0;
      && r.mask == w.mask - TerminationSet() && AnyInstalled(r)
      && (!AnyInstalled(w) ==> r.pending == 0 && r.maskSaved && r.previousMask == w.mask)
      && (AnyInstalled(w) ==> r.pending == w.pending && r.maskSaved == w.maskSaved && r.previousMask == w.previousMask)
      && r.flags == w.flags && r.input == w.input && r.output == w.output
  {
    InstallFromFrame(Started(w), f, NONE_NOW, 0);
    InstallFromMarks(Started(w), f, NONE_NOW, 0);
    hide InstallFrom, Rollback;
  }

  /** However the calls of any history fail, no original disposition is lost. */
  lemma {:induction false} HistoriesKeepDispositions(w0: World, ops: seq<Op>)
    requires Pristine(w0) && forall i :: 0 <= i < |ops| ==> OpShaped(ops[i])
    ensures DispositionsKept(w0, Run(w0, ops))
  {
    if ops != [] {
      var w, op := Run(w0, ops[..|ops| - 1]), ops[|ops| - 1];
      HistoriesKeepDispositions(w0, ops[..|ops| - 1]);
      hide Install, Restore, Run;
      match op
      case DoInstall(f) => InstallKeepsDispositions(w0, w, f);
      case DoRestore(f) => RestoreReturnsDispositions(w0, w, f);
      case _ =>
      assert Run(w0, ops) == Apply(w, op) by { RunLast(w0, ops); }
    }
  }

  lemma RunLast(w0: World, ops: seq<Op>)
    requires Shaped(w0) && ops != [] && forall i :: 0 <= i < |ops| ==> OpShaped(ops[i])
    ensures Run(w0, ops) == Apply(Run(w0, ops[..|ops| - 1]), ops[|ops| - 1])
  {}

  lemma RestoreReturnsDispositions(w0: World, w: World, f: RestoreFaults)
    requires Shaped(w0) && DispositionsKept(w0, w) && RestoreShaped(f)
    ensures DispositionsKept(w0, Restore(w, f).0)
    ensures Restore(w, f).1 ==> Restore(w, f).0.actions == w0.actions && Restore(w, f).0.installed == NONE_NOW
  {
    RestoreBelowKeeps(w0, Blocked(w), f, COUNT);
    var acted := RestoreBelow(Blocked(w), f, COUNT);
    assert !AnyInstalled(acted) ==> acted.actions == w0.actions && acted.installed == NONE_NOW;
    assert !AnyInstalled(w) ==> w.actions == w0.actions && w.installed == NONE_NOW;
    hide RestoreBelow, DetachBoth, TablesKept;
  }

  /** A restore that reports success has given all three dispositions back. */
  lemma SuccessfulRestoreReturnsDispositions(w0: World, ops: seq<Op>, f: RestoreFaults)
    requires Pristine(w0) && RestoreShaped(f) && forall i :: 0 <= i < |ops| ==> OpShaped(ops[i])
    requires Restore(Run(w0, ops), f).1
    ensures Restore(Run(w0, ops), f).0.actions == w0.actions
    ensures Restore(Run(w0, ops), f).0.installed == NONE_NOW
  {
    hide Run, Restore;
    HistoriesKeepDispositions(w0, ops);
    RestoreReturnsDispositions(w0, Run(w0, ops), f);
  }

  // ---- The signal mask and the O_NONBLOCK bits ----

  /** Undoing and putting the mask back succeed; everything else may fail. */
  predicate CleanOp(op: Op) {
    match op
    case DoInstall(f) => InstallShaped(f) && !f.reset && f.rollback == NONE_NOW
    case DoRestore(f) => RestoreShaped(f) && !f.setmask
    case _ => true
  }

  /** The guarded input is not standard output, which output frames use. */
  predicate SeparateInput(op: Op) {
    op.DoAttach? ==> op.fd != STDOUT
  }

  predicate MaskKept(w0: World, w: World)
    requires Shaped(w)
  {
    && (!AnyInstalled(w) ==> w.mask == w0.mask)
    && (w.maskSaved ==> w.previousMask == w0.mask)
    && (AnyInstalled(w) ==> w.maskSaved)
  }

  predicate AttachedTo(a: Attached, fd: int) {
    a.Attached? && a.fd == fd
  }

  predicate BitsKept(w0: World, w: World)
    requires Shaped(w)
  {
    && FlagsKept(w0.flags, w.flags, w.input, w.output)
    && (w.input.Attached? ==> w.input.fd != STDOUT)
    && (w.output.Attached? ==> w.output.fd == STDOUT)
  }

  /** Every descriptor has its original O_NONBLOCK bit, or is attached with that bit saved. */
  predicate FlagsKept(base: map<int, Flags>, flags: map<int, Flags>, a: Attached, b: Attached) {
    && flags.Keys == base.Keys
    && (forall fd :: fd in flags && !AttachedTo(a, fd) && !AttachedTo(b, fd) ==>
          flags[fd].nonblock == base[fd].nonblock)
    && (a.Attached? ==> a.fd in base && a.saved.nonblock == base[a.fd].nonblock)
    && (b.Attached? ==> b.fd in base && b.saved.nonblock == base[b.fd].nonblock)
  }

  // ---- The signal mask ----

  /** The mask that a successful restore would put back. */
  function HeldMask(w: World): set<Signal> {
    if w.maskSaved then w.previousMask else w.mask
  }

  /** A successful restore puts back the mask that was held, and none else. */
  lemma RestoreReturnsHeldMask(w: World, f: RestoreFaults)
    requires Shaped(w) && RestoreShaped(f) && Restore(w, f).1
    ensures Restore(w, f).0.mask == HeldMask(w) && !Restore(w, f).0.maskSaved
  {
    hide RestoreBelow, DetachBoth;
  }

  /** Whether the loop of an installation succeeds: every handler that is missing can be installed. */
  predicate CanInstall(w: World, f: InstallFaults)
    requires Shaped(w) && InstallShaped(f)
  {
    forall i :: 0 <= i < COUNT ==> w.installed[i] || !f.action[i]
  }

  lemma {:induction false} InstallFromSucceeds(w: World, f: InstallFaults, now: seq<bool>, i: nat)
    requires Shaped(w) && InstallShaped(f) && |now| == COUNT && i <= COUNT
    ensures InstallFrom(w, f, now, i).2 <==> forall k :: i <= k < COUNT ==> w.installed[k] || !f.action[k]
    ensures InstallFrom(w, f, now, i).2 ==>
      forall k :: 0 <= k < COUNT ==> (InstallFrom(w, f, now, i).1[k] <==> now[k] || (i <= k && !w.installed[k]))
    decreases COUNT - i
  {
    hide Rollback;
    if i < COUNT {
      if w.installed[i] {
        InstallFromSucceeds(w, f, now, i + 1);
      } else if !f.action[i] {
        hide Shaped, InstallShaped;
        InstallFromSucceeds(InstallOne(w, i), f, now[i := true], i + 1);
      }
    }
  }

  /**
    Whether an operation keeps the held mask, from its failing calls and the state before it. It is
    lost when a mask that was not saved cannot be put back, when handlers are found installed without
    a saved mask, and when a first installation saves a mask other than the one still held.
   */
  predicate KeepsMask(w: World, op: Op)
    requires Shaped(w) && OpShaped(op)
  {
    match op
    case DoInstall(f) =>
      var putBack := !f.reset || TerminationSet() <= w.mask;
      f.block ||
      if f.empty || !CanInstall(w, f) then w.maskSaved || putBack
      else if AnyInstalled(w) then w.maskSaved || (if f.activate then putBack else w.mask !! TerminationSet())
      else if f.activate && f.rollback == NONE_NOW then
        (if w.maskSaved then w.previousMask == (if f.reset then w.mask + TerminationSet() else w.mask) else putBack)
      else !w.maskSaved || w.previousMask == w.mask
    case DoRestore(f) =>
      NothingToRestore(w) || f.block || w.maskSaved || !f.setmask || TerminationSet() <= w.mask
    case _ => true
  }

  lemma InstallKeepsMaskIff(w: World, f: InstallFaults)
    requires Shaped(w) && InstallShaped(f)
    ensures HeldMask(Install(w, f).0) == HeldMask(w) <==> KeepsMask(w, DoInstall(f))
  {
    var started := Started(w);
    InstallFromSucceeds(started, f, NONE_NOW, 0);
    InstallFromFrame(started, f, NONE_NOW, 0);
    InstallFromMarks(started, f, NONE_NOW, 0);
    var (tried, now, ok) := InstallFrom(started, f, NONE_NOW, 0);
    if ok {
      var saved := if !AnyInstalled(w) then tried.(previousMask := w.mask, maskSaved := true) else tried;
      RollbackMarks(saved, f, now, COUNT);
    }
    hide InstallFrom, Rollback;
  }

  lemma RestoreKeepsMaskIff(w: World, f: RestoreFaults)
    requires Shaped(w) && RestoreShaped(f)
    ensures HeldMask(Restore(w, f).0) == HeldMask(w) <==> KeepsMask(w, DoRestore(f))
  {
    hide RestoreBelow, DetachBoth;
  }

  /** Exactly when one operation, with any of its calls failing, keeps the held mask. */
  lemma MaskIsKeptIff(w: World, op: Op)
    requires Shaped(w) && OpShaped(op)
    ensures HeldMask(Apply(w, op)) == HeldMask(w) <==> KeepsMask(w, op)
  {
    match op
    case DoInstall(f) => InstallKeepsMaskIff(w, f);
    case DoRestore(f) => RestoreKeepsMaskIff(w, f);
    case _ =>
  }

  predicate AllKeepMask(w0: World, ops: seq<Op>)
    requires Shaped(w0) && forall i :: 0 <= i < |ops| ==> OpShaped(ops[i])
  {
    ops == [] || (AllKeepMask(w0, ops[..|ops| - 1]) && KeepsMask(Run(w0, ops[..|ops| - 1]), ops[|ops| - 1]))
  }

  lemma {:induction false} HistoriesKeepMask(w0: World, ops: seq<Op>)
    requires Pristine(w0) && forall i :: 0 <= i < |ops| ==> OpShaped(ops[i])
    requires AllKeepMask(w0, ops)
    ensures HeldMask(Run(w0, ops)) == w0.mask
  {
    if ops != [] {
      HistoriesKeepMask(w0, ops[..|ops| - 1]);
      RunLast(w0, ops);
      hide Run, Apply, KeepsMask;
      MaskIsKeptIff(Run(w0, ops[..|ops| - 1]), ops[|ops| - 1]);
    }
  }

  /** When undoing and putting masks back succeed, no operation loses the mask. */
  lemma {:induction false} CleanHistoriesKeepMask(w0: World, ops: seq<Op>)
    requires Pristine(w0) && forall i :: 0 <= i < |ops| ==> OpShaped(ops[i]) && CleanOp(ops[i])
    ensures AllKeepMask(w0, ops) && MaskKept(w0, Run(w0, ops))
  {
    if ops != [] {
      var w, op := Run(w0, ops[..|ops| - 1]), ops[|ops| - 1];
      CleanHistoriesKeepMask(w0, ops[..|ops| - 1]);
      RunLast(w0, ops);
      assert CleanOp(op) && OpShaped(op);
      hide Run;
      CleanOpKeepsMask(w0, w, op);
      hide Apply, KeepsMask, MaskKept;
    }
  }

  lemma CleanOpKeepsMask(w0: World, w: World, op: Op)
    requires Shaped(w) && MaskKept(w0, w) && OpShaped(op) && CleanOp(op)
    ensures KeepsMask(w, op) && MaskKept(w0, Apply(w, op))
  {
    match op
    case DoInstall(f) =>
      var started := Started(w);
      InstallFromSucceeds(started, f, NONE_NOW, 0);
      InstallFromFrame(started, f, NONE_NOW, 0);
      InstallFromMarks(started, f, NONE_NOW, 0);
      var (tried, now, ok) := InstallFrom(started, f, NONE_NOW, 0);
      if ok {
        var saved := if !AnyInstalled(w) then tried.(previousMask := w.mask, maskSaved := true) else tried;
        RollbackMarks(saved, f, now, COUNT);
      }
      hide InstallFrom, Rollback;
    case DoRestore(f) =>
      RestoreBelowMarks(Blocked(w), f, COUNT);
      hide RestoreBelow, DetachBoth;
    case _ =>
  }

  // ---- The O_NONBLOCK bits ----

  /** Detaching one descriptor, with or without success, keeps the bits of all. */
  lemma DetachKeepsBits(base: map<int, Flags>, flags: map<int, Flags>, a: Attached, other: Attached, getFails: bool,
                        setFails: bool)
    requires FlagsKept(base, flags, a, other) && (a.Attached? && other.Attached? ==> a.fd != other.fd)
    ensures
      var (flags', a', ok) := Detach(flags, a, getFails, setFails);
      FlagsKept(base, flags', a', other) && (a' == a || a'.Detached?)
  {}

  predicate DetachedOrSame(a: Attached, b: Attached) {
    a == b || a.Detached?
  }

  lemma DetachBothKeeps(base: map<int, Flags>, w: World, f: RestoreFaults)
    requires FlagsKept(base, w.flags, w.input, w.output)
    requires w.input.Attached? && w.output.Attached? ==> w.input.fd != w.output.fd
    ensures
      var r := DetachBoth(w.flags, w.input, w.output, f);
      FlagsKept(base, r.0, r.1, r.2) && DetachedOrSame(r.1, w.input) && DetachedOrSame(r.2, w.output)
  {
    DetachKeepsBits(base, w.flags, w.input, w.output, f.getInput, f.setInput);
    var (flags1, input, _) := Detach(w.flags, w.input, f.getInput, f.setInput);
    FlagsKeptSwap(base, flags1, input, w.output);
    DetachKeepsBits(base, flags1, w.output, input, f.getOutput, f.setOutput);
    var (flags2, output, _) := Detach(flags1, w.output, f.getOutput, f.setOutput);
    FlagsKeptSwap(base, flags2, output, input);
    hide FlagsKept, Detach;
  }

  lemma RestoreKeepsBits(w0: World, w: World, f: RestoreFaults)
    requires Shaped(w) && BitsKept(w0, w) && RestoreShaped(f)
    ensures BitsKept(w0, Restore(w, f).0)
    ensures Restore(w, f).1 && !NothingToRestore(w) ==>
      Restore(w, f).0.input.Detached? && Restore(w, f).0.output.Detached?
    ensures NothingToRestore(w) ==> Restore(w, f).0 == w
  {
    DetachBothKeeps(w0.flags, w, f);
    hide RestoreBelow, FlagsKept, DetachBoth;
  }

  lemma FlagsKeptSwap(base: map<int, Flags>, flags: map<int, Flags>, a: Attached, b: Attached)
    requires FlagsKept(base, flags, a, b)
    ensures FlagsKept(base, flags, b, a)
  {}

  lemma InstallKeepsBits(w0: World, w: World, f: InstallFaults)
    requires Shaped(w) && BitsKept(w0, w) && InstallShaped(f)
    ensures BitsKept(w0, Install(w, f).0)
  {
    InstallFromFrame(Started(w), f, NONE_NOW, 0);
    hide InstallFrom, Rollback, FlagsKept;
  }

  /** Attaching the input, output frames and signals. */
  lemma OtherOpsKeep(w0: World, w: World, op: Op)
    requires Shaped(w0) && Shaped(w) && BitsKept(w0, w)
    requires SeparateInput(op) && OpShaped(op) && !op.DoInstall? && !op.DoRestore?
    ensures BitsKept(w0, Apply(w, op)) && HeldMask(Apply(w, op)) == HeldMask(w)
    ensures DispositionsKept(w0, w) ==> DispositionsKept(w0, Apply(w, op))
  {}

  /** However the calls of any history fail, every O_NONBLOCK bit is in force or saved. */
  lemma {:induction false} HistoriesKeepBits(w0: World, ops: seq<Op>)
    requires Pristine(w0) && forall i :: 0 <= i < |ops| ==> OpShaped(ops[i]) && SeparateInput(ops[i])
    ensures BitsKept(w0, Run(w0, ops))
  {
    if ops != [] {
      var w, op := Run(w0, ops[..|ops| - 1]), ops[|ops| - 1];
      HistoriesKeepBits(w0, ops[..|ops| - 1]);
      RunLast(w0, ops);
      assert SeparateInput(op) && OpShaped(op);
      hide BitsKept, Run, Install, Restore;
      match op
      case DoInstall(f) => InstallKeepsBits(w0, w, f);
      case DoRestore(f) => RestoreKeepsBits(w0, w, f);
      case _ => OtherOpsKeep(w0, w, op);
    }
  }

  predicate BitsReturned(w0: World, flags: map<int, Flags>) {
    flags.Keys == w0.flags.Keys && forall fd :: fd in flags ==> flags[fd].nonblock == w0.flags[fd].nonblock
  }

  /** A restore has nothing to do although the input is still attached with another bit than the saved one. */
  predicate InputForgotten(w: World)
    requires Shaped(w)
  {
    && NothingToRestore(w) && w.input.Attached?
    && w.input.fd in w.flags && w.flags[w.input.fd].nonblock != w.input.saved.nonblock
  }

  /**
    After any history with any failures, a restore that reports success has given back all three
    dispositions; the original mask exactly if it was still held; and every O_NONBLOCK bit exactly
    unless there was nothing to restore while the input was left attached with its bit changed.
   */
  lemma SuccessfulRestoreReturnsExactly(w0: World, ops: seq<Op>, f: RestoreFaults)
    requires Pristine(w0) && forall i :: 0 <= i < |ops| ==> OpShaped(ops[i]) && SeparateInput(ops[i])
    requires RestoreShaped(f) && Restore(Run(w0, ops), f).1
    ensures
      var w, r := Run(w0, ops), Restore(Run(w0, ops), f).0;
      && r.actions == w0.actions
      && (r.mask == w0.mask <==> HeldMask(w) == w0.mask)
      && (BitsReturned(w0, r.flags) <==> !InputForgotten(w))
  {
    var w := Run(w0, ops);
    HistoriesKeepBits(w0, ops);
    hide Run, Restore;
    SuccessfulRestoreReturnsDispositions(w0, ops, f);
    RestoreReturnsHeldMask(w, f);
    RestoreKeepsBits(w0, w, f);
  }

  /** Nothing of the original state is lost from reach: dispositions, mask and bits are in force or saved. */
  lemma CleanHistoriesKeep(w0: World, ops: seq<Op>)
    requires Pristine(w0)
    requires forall i :: 0 <= i < |ops| ==> OpShaped(ops[i]) && CleanOp(ops[i]) && SeparateInput(ops[i])
    ensures
      var w := Run(w0, ops);
      && DispositionsKept(w0, w) && MaskKept(w0, w) && BitsKept(w0, w) && HeldMask(w) == w0.mask
  {
    HistoriesKeepDispositions(w0, ops);
    CleanHistoriesKeepMask(w0, ops);
    HistoriesKeepBits(w0, ops);
    hide Run;
    HistoriesKeepMask(w0, ops);
  }

  /**
    When undoing and putting masks back succeed, a restore that reports success returns the
    dispositions and the original mask, and every O_NONBLOCK bit exactly unless the input is forgotten.
   */
  lemma SuccessfulRestoreAfterCleanHistories(w0: World, ops: seq<Op>, f: RestoreFaults)
    requires Pristine(w0) && RestoreShaped(f)
    requires forall i :: 0 <= i < |ops| ==> OpShaped(ops[i]) && CleanOp(ops[i]) && SeparateInput(ops[i])
    requires Restore(Run(w0, ops), f).1
    ensures
      var r := Restore(Run(w0, ops), f).0;
      && r.actions == w0.actions && r.mask == w0.mask
      && (BitsReturned(w0, r.flags) <==> !InputForgotten(Run(w0, ops)))
  {
    hide Run, Restore, BitsReturned, InputForgotten;
    CleanHistoriesKeep(w0, ops);
    SuccessfulRestoreReturnsExactly(w0, ops, f);
  }

  // ---- Forgetting the input ----

  /** The input is still attached, but a restore would find nothing to do. */
  predicate Forgotten(w: World)
    requires Shaped(w)
  {
    NothingToRestore(w) && w.input.Attached?
  }

  /** Detaching will fail, or there is nothing attached. */
  predicate StaysAttached(w: World, a: Attached, getFails: bool, setFails: bool) {
    a.Attached? && (getFails || setFails || a.fd !in w.flags)
  }

  /**
    Which operation forgets the input, and from which state: a first installation whose last mask call
    fails and that undoes every handler, the end of a frame when handlers and mask are already given
    back, and a restore without a saved mask that gives back everything but the input.
   */
  predicate ForgetsInput(w: World, op: Op)
    requires Shaped(w) && OpShaped(op)
  {
    && w.input.Attached?
    && match op
       case DoInstall(f) =>
         && w.output.Detached? && !AnyInstalled(w) && !f.block && !f.empty && f.action == NONE_NOW
         && f.activate && f.rollback == NONE_NOW
       case DoRestore(f) =>
         && !w.maskSaved && !f.block && StaysAttached(w, w.input, f.getInput, f.setInput)
         && (forall i :: 0 <= i < COUNT ==> w.installed[i] ==> !f.action[i])
         && !StaysAttached(w, w.output, f.getOutput, f.setOutput)
       case DoEnd(g, s) =>
         w.output.Attached? && !AnyInstalled(w) && !w.maskSaved && !StaysAttached(w, w.output, g, s)
       case _ => false
  }

  lemma InstallForgetsIff(w: World, f: InstallFaults)
    requires Shaped(w) && InstallShaped(f) && !Forgotten(w)
    ensures Forgotten(Install(w, f).0) <==> ForgetsInput(w, DoInstall(f))
  {
    var started := Started(w);
    InstallFromSucceeds(started, f, NONE_NOW, 0);
    InstallFromFrame(started, f, NONE_NOW, 0);
    InstallFromMarks(started, f, NONE_NOW, 0);
    var (tried, now, ok) := InstallFrom(started, f, NONE_NOW, 0);
    if ok {
      var saved := if !AnyInstalled(w) then tried.(previousMask := w.mask, maskSaved := true) else tried;
      RollbackMarks(saved, f, now, COUNT);
    }
    hide InstallFrom, Rollback;
  }

  lemma RestoreForgetsIff(w: World, f: RestoreFaults)
    requires Shaped(w) && RestoreShaped(f) && !Forgotten(w)
    ensures Forgotten(Restore(w, f).0) <==> ForgetsInput(w, DoRestore(f))
  {
    RestoreBelowMarks(Blocked(w), f, COUNT);
    DetachBothIff(w, f);
    hide RestoreBelow, DetachBoth, StaysAttached;
  }

  lemma DetachBothIff(w: World, f: RestoreFaults)
    ensures
      var r := DetachBoth(w.flags, w.input, w.output, f);
      && (r.1.Attached? <==> StaysAttached(w, w.input, f.getInput, f.setInput))
      && (r.2.Attached? <==> StaysAttached(w, w.output, f.getOutput, f.setOutput))
      && (r.3 <==> r.1.Detached? && r.2.Detached?)
  {}

  /** Exactly when one operation, with any of its calls failing, forgets the input. */
  lemma InputIsForgottenIff(w: World, op: Op)
    requires Shaped(w) && OpShaped(op) && !Forgotten(w)
    ensures Forgotten(Apply(w, op)) <==> ForgetsInput(w, op)
  {
    match op
    case DoInstall(f) => InstallForgetsIff(w, f);
    case DoRestore(f) => RestoreForgetsIff(w, f);
    case _ =>
      hide Install, Restore;
  }

  predicate AllRemember(w0: World, ops: seq<Op>)
    requires Shaped(w0) && forall i :: 0 <= i < |ops| ==> OpShaped(ops[i])
  {
    ops == [] || (AllRemember(w0, ops[..|ops| - 1]) && !ForgetsInput(Run(w0, ops[..|ops| - 1]), ops[|ops| - 1]))
  }

  lemma {:induction false} HistoriesRemember(w0: World, ops: seq<Op>)
    requires Pristine(w0) && forall i :: 0 <= i < |ops| ==> OpShaped(ops[i])
    requires AllRemember(w0, ops)
    ensures !Forgotten(Run(w0, ops))
  {
    if ops != [] {
      HistoriesRemember(w0, ops[..|ops| - 1]);
      RunLast(w0, ops);
      hide Run, Apply, ForgetsInput, Forgotten;
      InputIsForgottenIff(Run(w0, ops[..|ops| - 1]), ops[|ops| - 1]);
    }
  }

  /** Besides, the last mask call of every installation succeeds. */
  predicate QuietOp(op: Op) {
    CleanOp(op) && (op.DoInstall? ==> !op.install.activate)
  }

  /** When mask calls and undoing succeed, an attached input has a saved mask, so nothing is forgotten. */
  lemma {:induction false} QuietHistoriesRemember(w0: World, ops: seq<Op>)
    requires Pristine(w0) && forall i :: 0 <= i < |ops| ==> OpShaped(ops[i]) && QuietOp(ops[i])
    ensures Run(w0, ops).input.Attached? ==> Run(w0, ops).maskSaved
    ensures AllRemember(w0, ops)
  {
    if ops != [] {
      var w, op := Run(w0, ops[..|ops| - 1]), ops[|ops| - 1];
      QuietHistoriesRemember(w0, ops[..|ops| - 1]);
      CleanHistoriesKeepMask(w0, ops[..|ops| - 1]);
      RunLast(w0, ops);
      assert QuietOp(op) && OpShaped(op);
      hide Run;
      QuietOpRemembers(w0, w, op);
      hide Apply, ForgetsInput, MaskKept;
    }
  }

  lemma QuietOpRemembers(w0: World, w: World, op: Op)
    requires Shaped(w) && OpShaped(op) && QuietOp(op) && MaskKept(w0, w) && (w.input.Attached? ==> w.maskSaved)
    ensures !ForgetsInput(w, op) && (Apply(w, op).input.Attached? ==> Apply(w, op).maskSaved)
  {
    match op
    case DoInstall(f) =>
      InstallFromFrame(Started(w), f, NONE_NOW, 0);
      hide InstallFrom, Rollback, Restore;
    case DoRestore(f) =>
      hide RestoreBelow, DetachBoth, Install;
    case _ =>
      hide Install, Restore;
  }

  /**
    When mask calls and undoing succeed, whatever else fails, a restore that reports success returns
    the dispositions, the original mask and every O_NONBLOCK bit.
   */
  lemma SuccessfulRestoreReturnsEverything(w0: World, ops: seq<Op>, f: RestoreFaults)
    requires Pristine(w0) && RestoreShaped(f)
    requires forall i :: 0 <= i < |ops| ==> OpShaped(ops[i]) && QuietOp(ops[i]) && SeparateInput(ops[i])
    requires Restore(Run(w0, ops), f).1
    ensures
      var r := Restore(Run(w0, ops), f).0;
      r.actions == w0.actions && r.mask == w0.mask && BitsReturned(w0, r.flags)
  {
    hide Run, Restore, BitsReturned, AllRemember;
    QuietHistoriesRemember(w0, ops);
    HistoriesRemember(w0, ops);
    SuccessfulRestoreAfterCleanHistories(w0, ops, f);
  }

  // ---- The input on standard output ----

  /** The O_NONBLOCK bit that a successful restore would leave: the output is detached last. */
  function HeldBit(w: World, fd: int): bool
    requires fd in w.flags
  {
    if AttachedTo(w.output, fd) then w.output.saved.nonblock
    else if AttachedTo(w.input, fd) then w.input.saved.nonblock
    else w.flags[fd].nonblock
  }

  /** A successful restore that has something to do puts back the bits that were held, and none else. */
  lemma RestoreReturnsHeldBits(w: World, f: RestoreFaults)
    requires Shaped(w) && RestoreShaped(f) && Restore(w, f).1 && !NothingToRestore(w)
    ensures Restore(w, f).0.flags.Keys == w.flags.Keys
    ensures forall fd :: fd in w.flags ==> Restore(w, f).0.flags[fd].nonblock == HeldBit(w, fd)
  {
    hide RestoreBelow;
  }

  /**
    Whether an operation keeps the held bit of a descriptor, whichever descriptor the input is. It is
    lost only where input and output share one: when a frame begins and saves the bit that the reader
    has set, and when the output is detached before the input and their saved bits differ.
   */
  predicate KeepsBit(w: World, op: Op, fd: int)
    requires Shaped(w) && OpShaped(op) && fd in w.flags
  {
    fd == STDOUT && AttachedTo(w.input, fd) ==>
      match op
      case DoBegin(g, c, s) =>
        || w.output.Attached? || g || c || (!w.flags[fd].nonblock && s)
        || w.flags[fd].nonblock == w.input.saved.nonblock
      case DoEnd(g, s) =>
        w.output.Detached? || g || s || w.output.saved.nonblock == w.input.saved.nonblock
      case DoRestore(f) =>
        || NothingToRestore(w) || f.block || w.output.Detached? || !(f.getInput || f.setInput)
        || f.getOutput || f.setOutput || w.output.saved.nonblock == w.input.saved.nonblock
      case _ => true
  }

  /** What every history keeps: frames are on standard output, and what is attached is open. */
  predicate Known(w: World) {
    AttachedKnown(w) && (w.output.Attached? ==> w.output.fd == STDOUT)
  }

  lemma RestoreKeepsBitIff(w: World, f: RestoreFaults, fd: int)
    requires Shaped(w) && RestoreShaped(f) && Known(w) && fd in w.flags
    ensures Known(Restore(w, f).0) && Restore(w, f).0.flags.Keys == w.flags.Keys
    ensures HeldBit(Restore(w, f).0, fd) == HeldBit(w, fd) <==> KeepsBit(w, DoRestore(f), fd)
  {
    DetachBothBits(w, f, fd);
    DetachBothIff(w, f);
    hide RestoreBelow, AnyInstalled, DetachBoth;
  }

  /** The bit after both have been detached, as far as that succeeds. */
  lemma DetachBothBits(w: World, f: RestoreFaults, fd: int)
    requires fd in w.flags
    ensures
      var r := DetachBoth(w.flags, w.input, w.output, f);
      r.0[fd].nonblock ==
        if AttachedTo(w.output, fd) && r.2.Detached? then w.output.saved.nonblock
        else if AttachedTo(w.input, fd) && r.1.Detached? then w.input.saved.nonblock
        else w.flags[fd].nonblock
  {}

  /** Exactly when one operation, with any of its calls failing, keeps the held bit of a descriptor. */
  lemma BitIsKeptIff(w: World, op: Op, fd: int)
    requires Shaped(w) && OpShaped(op) && Known(w) && fd in w.flags
    ensures Known(Apply(w, op)) && Apply(w, op).flags.Keys == w.flags.Keys
    ensures HeldBit(Apply(w, op), fd) == HeldBit(w, fd) <==> KeepsBit(w, op, fd)
  {
    hide Install, Restore, AttachInput, HeldBit, KeepsBit, Known;
    match op
    case DoInstall(f) => InstallKeepsBit(w, f, fd);
    case DoRestore(f) => RestoreKeepsBitIff(w, f, fd);
    case DoAttach(input, g, s) => AttachKeepsBit(w, input, g, s, fd);
    case _ => FrameKeepsBitIff(w, op, fd);
  }

  lemma InstallKeepsBit(w: World, f: InstallFaults, fd: int)
    requires Shaped(w) && InstallShaped(f) && Known(w) && fd in w.flags
    ensures Known(Install(w, f).0) && Install(w, f).0.flags == w.flags
    ensures HeldBit(Install(w, f).0, fd) == HeldBit(w, fd) && KeepsBit(w, DoInstall(f), fd)
  {
    InstallFrame(w, f);
    hide Install;
  }

  lemma InstallFrame(w: World, f: InstallFaults)
    requires Shaped(w) && InstallShaped(f)
    ensures
      var r := Install(w, f).0;
      r.flags == w.flags && r.input == w.input && r.output == w.output
  {
    InstallFromFrame(Started(w), f, NONE_NOW, 0);
    hide InstallFrom, Rollback;
  }

  lemma AttachKeepsBit(w: World, input: int, getFails: bool, setFails: bool, fd: int)
    requires Shaped(w) && Known(w) && fd in w.flags
    ensures
      var r := AttachInput(w, input, getFails, setFails).0;
      Known(r) && r.flags.Keys == w.flags.Keys && HeldBit(r, fd) == HeldBit(w, fd)
    ensures KeepsBit(w, DoAttach(input, getFails, setFails), fd)
  {
    hide AnyInstalled;
  }

  lemma FrameKeepsBitIff(w: World, op: Op, fd: int)
    requires Shaped(w) && OpShaped(op) && Known(w) && fd in w.flags
    requires !op.DoInstall? && !op.DoRestore? && !op.DoAttach?
    ensures Known(Apply(w, op)) && Apply(w, op).flags.Keys == w.flags.Keys
    ensures HeldBit(Apply(w, op), fd) == HeldBit(w, fd) <==> KeepsBit(w, op, fd)
  {
    hide Install, Restore, AttachInput;
  }

  predicate AllKeepBit(w0: World, ops: seq<Op>, fd: int)
    requires Shaped(w0) && forall i :: 0 <= i < |ops| ==> OpShaped(ops[i])
  {
    || ops == []
    || (&& AllKeepBit(w0, ops[..|ops| - 1], fd) && fd in Run(w0, ops[..|ops| - 1]).flags
        && KeepsBit(Run(w0, ops[..|ops| - 1]), ops[|ops| - 1], fd))
  }

  lemma {:induction false} HistoriesKnow(w0: World, ops: seq<Op>, fd: int)
    requires Pristine(w0) && fd in w0.flags && forall i :: 0 <= i < |ops| ==> OpShaped(ops[i])
    ensures Known(Run(w0, ops)) && Run(w0, ops).flags.Keys == w0.flags.Keys
    ensures AllKeepBit(w0, ops, fd) ==> HeldBit(Run(w0, ops), fd) == w0.flags[fd].nonblock
  {
    if ops != [] {
      HistoriesKnow(w0, ops[..|ops| - 1], fd);
      RunLast(w0, ops);
      hide Run, Apply, KeepsBit, HeldBit, Known;
      BitIsKeptIff(Run(w0, ops[..|ops| - 1]), ops[|ops| - 1], fd);
    }
  }

  /**
    After any history on any descriptors, a restore that reports success returns the bit of a
    descriptor exactly if that bit was still held, or, when there was nothing to do, still in force;
    and it is held when every operation of the history keeps it.
   */
  lemma SuccessfulRestoreReturnsBitIff(w0: World, ops: seq<Op>, f: RestoreFaults, fd: int)
    requires Pristine(w0) && fd in w0.flags && forall i :: 0 <= i < |ops| ==> OpShaped(ops[i])
    requires RestoreShaped(f) && Restore(Run(w0, ops), f).1
    ensures
      var w, r := Run(w0, ops), Restore(Run(w0, ops), f).0;
      && fd in w.flags && fd in r.flags
      && (r.flags[fd].nonblock == w0.flags[fd].nonblock <==>
          (if NothingToRestore(w) then w.flags[fd].nonblock else HeldBit(w, fd)) == w0.flags[fd].nonblock)
      && (AllKeepBit(w0, ops, fd) && AllRemember(w0, ops) ==> r.flags[fd].nonblock == w0.flags[fd].nonblock)
  {
    var w := Run(w0, ops);
    HistoriesKnow(w0, ops, fd);
    if AllRemember(w0, ops) {
      HistoriesRemember(w0, ops);
    }
    hide Run, AllKeepBit, AllRemember;
    if !NothingToRestore(w) {
      RestoreReturnsHeldBits(w, f);
      hide Restore, HeldBit;
    }
  }

  const NO_RESTORE_FAULTS := RestoreFaults(false, NONE_NOW, false, false, false, false, false)

  predicate AttachedKnown(w: World) {
    (w.input.Attached? ==> w.input.fd in w.flags) && (w.output.Attached? ==> w.output.fd in w.flags)
  }

  lemma {:induction false} HistoriesKnowAttached(w0: World, ops: seq<Op>)
    requires Pristine(w0) && forall i :: 0 <= i < |ops| ==> OpShaped(ops[i])
    ensures AttachedKnown(Run(w0, ops))
  {
    if ops != [] {
      var w, op := Run(w0, ops[..|ops| - 1]), ops[|ops| - 1];
      HistoriesKnowAttached(w0, ops[..|ops| - 1]);
      RunLast(w0, ops);
      OpKnowsAttached(w, op);
      hide Run, Apply, AttachedKnown;
    }
  }

  lemma OpKnowsAttached(w: World, op: Op)
    requires Shaped(w) && AttachedKnown(w) && OpShaped(op)
    ensures AttachedKnown(Apply(w, op))
  {
    match op
    case DoInstall(f) => InstallKnowsAttached(w, f);
    case DoRestore(f) => RestoreKnowsAttached(w, f);
    case _ =>
      hide Install, Restore;
  }

  lemma InstallKnowsAttached(w: World, f: InstallFaults)
    requires Shaped(w) && AttachedKnown(w) && InstallShaped(f)
    ensures AttachedKnown(Install(w, f).0)
  {
    InstallFromFrame(Started(w), f, NONE_NOW, 0);
    hide InstallFrom, Rollback;
  }

  lemma RestoreKnowsAttached(w: World, f: RestoreFaults)
    requires Shaped(w) && AttachedKnown(w) && RestoreShaped(f)
    ensures AttachedKnown(Restore(w, f).0)
  {
    hide RestoreBelow, DetachBoth;
  }

  /** After any history, whatever failed in it, a restore without failures succeeds. */
  lemma RestoreCanBeRetried(w0: World, ops: seq<Op>)
    requires Pristine(w0) && forall i :: 0 <= i < |ops| ==> OpShaped(ops[i])
    ensures Restore(Run(w0, ops), NO_RESTORE_FAULTS).1
  {
    HistoriesKnowAttached(w0, ops);
    RestoreBelowMarks(Blocked(Run(w0, ops)), NO_RESTORE_FAULTS, COUNT);
    hide Run, RestoreBelow;
  }

  // ---- What is lost when undoing fails ----

  const NO_INSTALL_FAULTS := InstallFaults(false, false, NONE_NOW, NONE_NOW, false, false)

  /** sigaction fails for the second signal, and so does undoing the first. */
  const STUCK_INSTALL := InstallFaults(false, false, [false, true, false], [true, false, false], false, false)

  /**
    After an installation whose undoing failed, the next one is not the first and saves no mask: a
    later restore reports success and leaves the termination signals unblocked for good.
   */
  lemma MaskIsLostAfterStuckInstall(w0: World)
    requires Pristine(w0)
    ensures
      var w1 := Install(w0, STUCK_INSTALL).0;
      var w2 := Install(w1, NO_INSTALL_FAULTS);
      var w3 := Restore(w2.0, NO_RESTORE_FAULTS);
      w2.1 && w3.1 && w3.0.actions == w0.actions && w3.0.mask == w0.mask - TerminationSet()
  {
    var w1 := Install(w0, STUCK_INSTALL).0;
    StuckInstall(w0);
    assert InstallFrom(Started(w1), NO_INSTALL_FAULTS, NONE_NOW, 0).2 by { CleanInstall(Started(w1), NONE_NOW, 0); }
    var w2 := Install(w1, NO_INSTALL_FAULTS);
    InstallKeepsDispositions(w0, w1, NO_INSTALL_FAULTS);
    CleanInstall(Started(w1), NONE_NOW, 0);
    assert w2.0.mask == w0.mask - TerminationSet() && !w2.0.maskSaved;
    InstallKeepsDispositions(w0, w0, STUCK_INSTALL);
    RestoreReturnsDispositions(w0, w2.0, NO_RESTORE_FAULTS);
    RestoreBelowKeeps(w0, Blocked(w2.0), NO_RESTORE_FAULTS, COUNT);
    hide Install, InstallFrom, RestoreBelow, TablesKept;
  }

  lemma StuckInstall(w0: World)
    requires Pristine(w0)
    ensures
      var w1 := Install(w0, STUCK_INSTALL).0;
      w1.mask == w0.mask && !w1.maskSaved && AnyInstalled(w1) && w1.input.Detached? && w1.output.Detached?
    ensures DispositionsKept(w0, Install(w0, STUCK_INSTALL).0)
  {
    InstallKeepsDispositions(w0, w0, STUCK_INSTALL);
  }

  lemma {:induction false} CleanInstall(w: World, now: seq<bool>, i: nat)
    requires Shaped(w) && |now| == COUNT && i <= COUNT
    ensures
      var r := InstallFrom(w, NO_INSTALL_FAULTS, now, i);
      r.2 && r.0 == w.(actions := r.0.actions, installed := r.0.installed, previous := r.0.previous)
    decreases COUNT - i
  {
    if i < COUNT {
      CleanInstall(w, now, i + 1);
      CleanInstall(InstallOne(w, i), now[i := true], i + 1);
    }
  }

  const STUCK_INPUT := RestoreFaults(false, NONE_NOW, false, true, false, false, false)
  const LATE_INSTALL := InstallFaults(false, false, NONE_NOW, NONE_NOW, true, false)

  /** A first installation without failures: everything is saved. */
  lemma FirstInstall(w0: World)
    requires Pristine(w0)
    ensures
      var r := Install(w0, NO_INSTALL_FAULTS);
      && r.1 && r.0.installed == [true, true, true] && r.0.actions == [Recorder, Recorder, Recorder]
      && r.0.previous == w0.actions && r.0.maskSaved && r.0.previousMask == w0.mask
      && r.0.flags == w0.flags && r.0.input.Detached? && r.0.output.Detached?
  {
    var started := Started(w0);
    InstallFromKeeps(w0, started, NO_INSTALL_FAULTS, NONE_NOW, 0);
    InstallFromMarks(started, NO_INSTALL_FAULTS, NONE_NOW, 0);
    CleanInstall(started, NONE_NOW, 0);
    hide InstallFrom;
  }

  /** An installation whose last mask call fails forgets that a mask was saved. */
  lemma LateInstall(w: World)
    requires Shaped(w) && w.installed == NONE_NOW
    ensures
      var r := Install(w, LATE_INSTALL);
      && !r.1 && r.0.installed == NONE_NOW && !r.0.maskSaved
      && r.0.flags == w.flags && r.0.input == w.input && r.0.output == w.output
  {}

  /**
    The input's O_NONBLOCK bit could not be put back, and the next installation fails at its last
    call: the following restore finds nothing to do and reports success with the bit still set.
   */
  lemma InputBitIsLostAfterLateInstall(w0: World)
    requires Pristine(w0) && 0 in w0.flags && !w0.flags[0].nonblock
    ensures
      var w2 := AttachInput(Install(w0, NO_INSTALL_FAULTS).0, 0, false, false).0;
      var w3 := Restore(w2, STUCK_INPUT);
      var w4 := Install(w3.0, LATE_INSTALL).0;
      var w5 := Restore(w4, NO_RESTORE_FAULTS);
      !w3.1 && w5.1 && w5.0.flags == w0.flags[0 := w0.flags[0].(nonblock := true)]
  {
    FirstInstall(w0);
    hide Install;
    var w2 := AttachInput(Install(w0, NO_INSTALL_FAULTS).0, 0, false, false).0;
    InstallKeepsDispositions(w0, w0, NO_INSTALL_FAULTS);
    RestoreBelowKeeps(w0, Blocked(w2), STUCK_INPUT, COUNT);
    hide RestoreBelow, TablesKept;
    LateInstall(Restore(w2, STUCK_INPUT).0);
  }

  const STUCK_MASK := RestoreFaults(false, NONE_NOW, true, false, false, false, false)

  /**
    Nothing but one restore's last mask call fails, so the termination signals stay blocked. The next
    installation saves that mask, and the following restore reports success and leaves them blocked.
   */
  lemma MaskIsLostAfterFailedRestore(w0: World)
    requires Pristine(w0)
    ensures
      var w1 := Install(w0, NO_INSTALL_FAULTS).0;
      var w2 := Restore(w1, STUCK_MASK);
      var w3 := Install(w2.0, NO_INSTALL_FAULTS);
      var w4 := Restore(w3.0, NO_RESTORE_FAULTS);
      !w2.1 && w3.1 && w4.1 && w4.0.mask == w0.mask - TerminationSet() + TerminationSet()
  {
    FirstInstall(w0);
    InstallUnblocks(w0, NO_INSTALL_FAULTS);
    var w1 := Install(w0, NO_INSTALL_FAULTS).0;
    RestoreBelowMarks(Blocked(w1), STUCK_MASK, COUNT);
    var w2 := Restore(w1, STUCK_MASK).0;
    CleanInstall(Started(w2), NONE_NOW, 0);
    hide InstallFrom, RestoreBelow;
    assert Install(w2, NO_INSTALL_FAULTS).1;
    InstallUnblocks(w2, NO_INSTALL_FAULTS);
    var w3 := Install(w2, NO_INSTALL_FAULTS).0;
    RestoreBelowMarks(Blocked(w3), NO_RESTORE_FAULTS, COUNT);
  }

  /** Guarded reads from standard output: the frame saves the bit that the reader has set. */
  lemma SharedDescriptorLosesBit(w0: World)
    requires Pristine(w0) && STDOUT in w0.flags && !w0.flags[STDOUT].nonblock
    ensures
      var w1 := AttachInput(Install(w0, NO_INSTALL_FAULTS).0, STDOUT, false, false).0;
      var w2 := BeginOutput(w1, false, false, false).0;
      var w3 := Restore(w2, NO_RESTORE_FAULTS);
      w3.1 && w3.0.flags == w0.flags[STDOUT := w0.flags[STDOUT].(nonblock := true)]
  {
    FirstInstall(w0);
    hide Install;
    var w1 := AttachInput(Install(w0, NO_INSTALL_FAULTS).0, STDOUT, false, false).0;
    var w2 := BeginOutput(w1, false, false, false).0;
    RestoreBelowMarks(Blocked(w2), NO_RESTORE_FAULTS, COUNT);
    hide RestoreBelow;
  }

  // ---- The first signal wins ----

  /** The first termination signal a history delivers, 0 when it delivers none. */
  function FirstSignal(ops: seq<Op>): Signal {
    if ops == [] then 0
    else
      var earlier := FirstSignal(ops[..|ops| - 1]);
      var last := ops[|ops| - 1];
      if earlier != 0 || !last.DoSignal? || last.signal !in SIGNALS then earlier else last.signal
  }

  /** Until the next installation the recorded signal is the first one and never changes again. */
  lemma {:induction false} FirstSignalWins(w: World, ops: seq<Op>)
    requires Shaped(w) && forall i :: 0 <= i < |ops| ==> OpShaped(ops[i]) && !ops[i].DoInstall?
    ensures Run(w, ops).pending == if w.pending != 0 then w.pending else FirstSignal(ops)
  {
    if ops != [] {
      FirstSignalWins(w, ops[..|ops| - 1]);
      RunLast(w, ops);
      hide Run, RestoreBelow, DetachBoth, NothingToRestore;
    }
  }

  // ---- The module's state, updated in place ----

  /** The static variables with their arrays, and the kernel state the calls change. */
  class Termination {
    const actions: array<Disposition>
    const installed: array<bool>
    const previous: array<Disposition>
    var mask: set<Signal>
    var flags: map<int, Flags>
    var previousMask: set<Signal>
    var maskSaved: bool
    var input: Attached
    var output: Attached
    var pending: Signal

    /** A process as it was started. */
    constructor (handled: seq<Disposition>, blocked: set<Signal>, descriptors: map<int, Flags>)
      requires |handled| == COUNT && forall i :: 0 <= i < COUNT ==> handled[i].Foreign?
      ensures Valid() && fresh(actions) && fresh(installed) && fresh(previous) && Pristine(Abstract())
      ensures actions[..] == handled && mask == blocked && flags == descriptors && pending == 0
    {
      actions := new Disposition[COUNT](i requires 0 <= i < COUNT => handled[i]);
      installed := new bool[COUNT](_ => false);
      previous := new Disposition[COUNT](_ => Foreign(0));
      mask, flags, previousMask, maskSaved := blocked, descriptors, {}, false;
      input, output, pending := Detached, Detached, 0;
    }

    ghost predicate Valid()
      reads this
    {
      actions.Length == COUNT && installed.Length == COUNT && previous.Length == COUNT && actions != previous
    }

    ghost function Abstract(): (w: World)
      requires Valid()
      reads this, actions, installed, previous
      ensures Shaped(w)
    {
      World(actions[..], mask, flags, installed[..], previous[..], previousMask, maskSaved, input, output, pending)
    }

    method IsAnyInstalled() returns (any: bool)
      requires Valid()
      ensures any == AnyInstalled(Abstract())
    {
      for i := 0 to COUNT
        invariant forall k :: 0 <= k < i ==> !installed[k]
      {
        if installed[i] {
          return true;
        }
      }
      any := false;
    }

    /** Undo, newest first, what this call has installed below `count`. */
    method UndoInstalled(f: InstallFaults, now: array<bool>, count: nat)
      requires Valid() && InstallShaped(f) && now.Length == COUNT && now != installed && count <= COUNT
      modifies actions, installed
      ensures Abstract() == Rollback(old(Abstract()), f, now[..], count)
    {
      var j := count;
      while j > 0
        invariant 0 <= j <= count
        invariant Rollback(Abstract(), f, now[..], j) == Rollback(old(Abstract()), f, now[..], count)
      {
        j := j - 1;
        ghost var before := Abstract();
        if now[j] && !f.rollback[j] {
          actions[j] := previous[j];
          installed[j] := false;
          assert Abstract() == before.(actions := before.actions[j := before.previous[j]],
                                       installed := before.installed[j := false]);
        }
      }
    }

    /** Install the missing handlers in order; when one cannot be installed undo those of this call. */
    method InstallMissing(f: InstallFaults, now: array<bool>) returns (ok: bool)
      requires Valid() && InstallShaped(f) && now.Length == COUNT && now != installed && now[..] == NONE_NOW
      modifies actions, installed, previous, now
      ensures (Abstract(), now[..], ok) == InstallFrom(old(Abstract()), f, NONE_NOW, 0)
    {
      hide Rollback;
      ghost var started := Abstract();
      for i := 0 to COUNT
        invariant InstallFrom(Abstract(), f, now[..], i) == InstallFrom(started, f, NONE_NOW, 0)
      {
        if installed[i] {
          continue;
        }
        if f.action[i] {
          UndoInstalled(f, now, i);
          return false;
        }
        ghost var before, marked := Abstract(), now[..];
        previous[i] := actions[i];
        actions[i] := Recorder;
        installed[i] := true;
        now[i] := true;
        assert Abstract() == InstallOne(before, i) && now[..] == marked[i := true];
      }
      ok := true;
    }

    method ResetSignalMask(f: InstallFaults, original: set<Signal>)
      requires Valid()
      modifies this`mask
      ensures Abstract() == ResetMask(old(Abstract()), f, original)
    {
      if !f.reset {
        mask := original;
      }
    }

    /** Install the recorder for all three signals; on failure undo what this call installed. */
    method InstallHandlers(f: InstallFaults) returns (ok: bool)
      requires Valid() && InstallShaped(f)
      modifies this, actions, installed, previous
      ensures Valid() && (Abstract(), ok) == Install(old(Abstract()), f)
    {
      hide Rollback, InstallFrom, ResetMask, AnyInstalled;
      var any := IsAnyInstalled();
      if f.block {
        return false;
      }
      var original := mask;
      mask := original + TerminationSet();
      if !any {
        pending := 0;
      }
      assert Abstract() == Started(old(Abstract()));
      if f.empty {
        ResetSignalMask(f, original);
        return false;
      }
      var now := new bool[COUNT](_ => false);
      assert now[..] == NONE_NOW;
      ok := InstallMissing(f, now);
      if !ok {
        ResetSignalMask(f, original);
        return;
      }
      if !any {
        previousMask := original;
        maskSaved := true;
      }
      if f.activate {
        UndoInstalled(f, now, COUNT);
        any := IsAnyInstalled();
        if !any {
          maskSaved := false;
        }
        ResetSignalMask(f, original);
        return false;
      }
      mask := original - TerminationSet();
    }

    /** Give back, newest first, what the previous installations took. */
    method ReturnDispositions(f: RestoreFaults)
      requires Valid() && RestoreShaped(f)
      modifies actions, installed
      ensures Abstract() == RestoreBelow(old(Abstract()), f, COUNT)
    {
      var j := COUNT;
      while j > 0
        invariant 0 <= j <= COUNT
        invariant RestoreBelow(Abstract(), f, j) == RestoreBelow(old(Abstract()), f, COUNT)
      {
        j := j - 1;
        ghost var before := Abstract();
        if installed[j] && !f.action[j] {
          actions[j] := previous[j];
          installed[j] := false;
          assert Abstract() == before.(actions := before.actions[j := before.previous[j]],
                                       installed := before.installed[j := false]);
        }
      }
    }

    /** Put both O_NONBLOCK bits back, each independently of the other. */
    method DetachDescriptors(f: RestoreFaults) returns (ok: bool)
      requires Valid()
      modifies this`flags, this`input, this`output
      ensures
        var r := DetachBoth(old(flags), old(input), old(output), f);
        Abstract() == old(Abstract()).(flags := r.0, input := r.1, output := r.2) && ok == r.3
    {
      var failed := false;
      if input.Attached? {
        if f.getInput || input.fd !in flags || f.setInput {
          failed := true;
        } else {
          flags := flags[input.fd := flags[input.fd].(nonblock := input.saved.nonblock)];
          input := Detached;
        }
      }
      if output.Attached? {
        if f.getOutput || output.fd !in flags || f.setOutput {
          failed := true;
        } else {
          flags := flags[output.fd := flags[output.fd].(nonblock := output.saved.nonblock)];
          output := Detached;
        }
      }
      ok := !failed;
    }

    /** Restore everything that can be restored; success only when all of it was. */
    method RestoreHandlers(f: RestoreFaults) returns (ok: bool)
      requires Valid() && RestoreShaped(f)
      modifies this, actions, installed
      ensures Valid() && (Abstract(), ok) == Restore(old(Abstract()), f)
    {
      hide RestoreBelow, AnyInstalled, DetachBoth;
      var any := IsAnyInstalled();
      if !any && !maskSaved && output.Detached? {
        return true;
      }
      if f.block {
        return false;
      }
      var current := mask;
      mask := current + TerminationSet();
      var failed := false;
      ReturnDispositions(f);
      any := IsAnyInstalled();
      if any {
        failed := true;
      }
      if f.setmask {
        failed := true;
      } else {
        mask := if maskSaved then previousMask else current;
      }
      var detached := DetachDescriptors(f);
      if !detached {
        failed := true;
      }
      if failed {
        return false;
      }
      maskSaved := false;
      ok := true;
    }
  }
}
