# Elisa-LSP: a verified model

This project models the parts of the Elisa language server that stand between the server and the
operating system, its clients and its build, and proves what they promise: the isolated analysis
worker, the transport to standard output, the LSP framing, the JSON writer, the include closure and
its digest, the diagnostic scanner, and the publication of builds.

Code that updates state in place is a class or a method with loops, proved against a specification;
the properties of that specification are lemmas. The operating system is explicit. Each call of the
kernel takes one tick from a finite script, and the tick decides how much time passes, which signal
arrives, what the other process does and what the call answers. A call for which no tick is left
ends with `Unfinished`, and every contract says that it does so only with the script used up; so a
contract that holds for all scripts holds for every finite run, including runs that stop in the
middle of a call. Loops of the C code that may retry for ever are bounded only by the length of the
script.

| file | models |
|---|---|
| `Bytes.dfy` | bytes and decimal digits |
| `Deadlines.dfy`, `Limits.dfy` | timespec arithmetic and guarded decimal readers in machine width |
| `Handlers.dfy` | termination handlers, signal mask and O_NONBLOCK bits with calls failing anywhere |
| `Transport.dfy`, `Input.dfy` | whole-buffer writes under a frame deadline; guarded reads |
| `WorkerChild.dfy`, `Worker.dfy` | the worker's descriptors in the child; the parent's protocol |
| `Trails.dfy` | how many calls may still start, and how long may be waited, after a deadline or a signal |
| `Headers.dfy`, `Framing.dfy` | the decoder, encoder, residue and truncation detector of LSP frames |
| `JsonString.dfy`, `JsonNumber.dfy`, `JsonValue.dfy`, `JsonParser.dfy` | the JSON writer, and the unescaper and parser it is judged by |
| `IncludeClosure.dfy`, `Sorting.dfy`, `ClosureDigest.dfy` | include traversal and the canonical digest |
| `Masking.dfy`, `Splitting.dfy` | the scanner's masker and bracket splitter |
| `Publication.dfy` | concurrent builders, source edits, crashes and the freshness check |

Standards are RFC 8259 sections 6 and 7 for JSON numbers and strings, RFC 3629 section 4 for UTF-8,
and the Base Protocol of the Language Server Protocol 3.18 for frames.

## Findings

Some natural statements are false of the code. In each case the model keeps the code's behaviour, a
member shows a failing run, and another states exactly when the statement holds.

- Feeding a stream in pieces can be refused although the whole is accepted: bytes of an unfinished
  header's end marker count against the header limit, test/lsp_client.py:170-177
  (`Framing.MarkerBytesAreCounted`; exactly: `Framing.SplitSucceedsIff`).
- A write can start after the deadline: an interrupted write is repeated without looking at the
  clock, src/transport_posix.c:449-455 (`Transport.InterruptedWriteStartsLate`; exactly:
  `Transport.WritesStartInTime`, and over a whole call the marks of `Transport.Transport.WriteAll`).
- A restore can report success although the original signal mask is lost: after an installation
  whose undoing failed (src/transport_posix.c:92-113, `Handlers.MaskIsLostAfterStuckInstall`), or
  after a restore whose last mask call failed (src/transport_posix.c:167 and 110-113,
  `Handlers.MaskIsLostAfterFailedRestore`). Exactly: success returns the mask held before
  (`Handlers.SuccessfulRestoreReturnsExactly`), and `Handlers.MaskIsKeptIff` says for every operation
  with any failing calls whether it keeps the held mask.
- A restore can report success with the input's O_NONBLOCK bit still changed, after an installation
  that fails at its last mask call, src/transport_posix.c:120-133 and 145-146
  (`Handlers.InputBitIsLostAfterLateInstall`). Exactly: `Handlers.InputIsForgottenIff` says which
  operation, from which state, leaves an attached input with nothing to restore, and without one
  every bit returns (`Handlers.SuccessfulRestoreReturnsBitIff`). When mask calls and undoing succeed
  there is none (`Handlers.SuccessfulRestoreReturnsEverything`).
- When guarded reads use standard output itself, an output frame saves the changed bit,
  src/transport_posix.c:352-362 and 499-504 (`Handlers.SharedDescriptorLosesBit`; exactly, for every
  operation and descriptor: `Handlers.BitIsKeptIff`).
- Beginning a worker closes a descriptor twice exactly as often as a close of a pipe end fails after
  releasing it, src/analysis_worker_posix.c:158, 340 and 366-368
  (`WorkerChild.MovedEndIsClosedTwice` and `Worker.WriteEndIsClosedTwice`; exactly:
  `WorkerChild.Process.BeginInParent`, `Worker.Worker.Begin`, `Worker.Worker.GiveUpWriteEnd`).
- A compiler binary that is replaced before the compilation and put back before the recheck is not
  noticed, build.sh:500-503 and 593-594 (`Publication.ReplacedBinaryGoesUnnoticed`; exactly:
  `Publication.BinaryIsNamedIff`).
- A `project.json` edited between its reading and the fingerprints is not noticed: the build is
  configured by the old file while the manifest's hash and snapshot are those of the new one,
  build.sh:80-143 and 331-335 (`Publication.EditedProjectGoesUnnoticed`; exactly:
  `Publication.ProjectIsNamedIff`).

## Model

| member | source | states |
|---|---|---|
| Limits.ConfiguredLimit | src/transport_posix.c:211-229 | An unset variable gives the fallback; a set one is accepted exactly when it is a non-empty digit string whose unbounded value lies in the range, and no 64-bit step wraps. |
| Limits.AnalysisTimeoutMillis | src/analysis_worker_posix.c:291-318 | 30 seconds when unset; otherwise exactly the digit strings of 100 to 300000 are accepted. |
| Limits.DescriptorNumber | src/analysis_worker_posix.c:191-203 | A directory entry is a descriptor exactly when it is a digit string whose value fits an int, and the result is that value. |
| Deadlines.MakeDeadline | src/transport_posix.c:477-486 | The deadline in unbounded nanoseconds is the clock reading plus the timeout, normalised, without overflow. |
| Deadlines.Remaining | src/analysis_worker_posix.c:61-78 | Time is left exactly when the reading is before the deadline in nanoseconds, and the remainder is their exact difference. |
| Deadlines.ClampTimeout | src/analysis_worker_posix.c:86-90 | The rounded time is never turned into zero, never shortened below INT_MAX, and never lengthened except to one. |
| Deadlines.TimeoutUntil | src/analysis_worker_posix.c:80-92 | The poll timeout is the time left rounded up by less than a millisecond, at least one, clamped to INT_MAX. |
| Deadlines.MonotonicMillis | src/transport_posix.c:308-318 | Milliseconds of every non-negative clock value, saturating at INT64_MAX instead of wrapping; -1 without a clock. |
| Handlers.RollbackKeeps | src/transport_posix.c:94-101 | Undoing any subset of this call's installations, any of them failing, keeps every original disposition saved or in force. |
| Handlers.InstallFromMarks | src/transport_posix.c:88-108 | The loop marks all handlers installed on success, and on failure keeps earlier ones and leaves of its own only those whose undoing failed. |
| Handlers.InstallKeepsDispositions | src/transport_posix.c:68-136 | One installation, failing at any call, loses no disposition; on success all three handlers are installed. |
| Handlers.InstallUnblocks | src/transport_posix.c:110-135 | After a successful installation no termination signal is blocked; the first one starts without a recorded signal and saves the mask found, later ones keep both. |
| Handlers.RestoreReturnsDispositions | src/transport_posix.c:144-206 | One restoration, failing at any call, loses no disposition; success means all three are back. |
| Handlers.RestoreReturnsHeldMask | src/transport_posix.c:165-167 | A restore that returns 0 has put back exactly the mask that was held: the saved one, or else the one in force. |
| Handlers.MaskIsKeptIff | src/transport_posix.c:68-206 | For every operation and every choice of failing calls: the held mask stays the same if and only if a condition on the state before and the failing calls holds, branch by branch. |
| Handlers.HistoriesKeepDispositions | src/transport_posix.c:68-206 | After any sequence of operations with failures at any calls, each signal is marked installed with its original disposition saved or still has that disposition. |
| Handlers.HistoriesKeepMask | src/transport_posix.c:68-206 | If every operation of a history meets its condition, the original mask is still held at the end. |
| Handlers.CleanHistoriesKeepMask | src/transport_posix.c:68-206 | When undoing and putting masks back succeed, every operation of a history meets its condition. |
| Handlers.HistoriesKeepBits | src/transport_posix.c:170-206 | After any history with any failures every descriptor has its original O_NONBLOCK bit or is attached with that bit saved. |
| Handlers.SuccessfulRestoreReturnsExactly | src/transport_posix.c:144-206 | After any history with any failures a restore that returns 0 has given back the dispositions; the original mask if and only if it was held; all O_NONBLOCK bits if and only if it did not find nothing to restore with the input attached and its bit changed. |
| Handlers.SuccessfulRestoreReturnsDispositions | src/transport_posix.c:144-206 | After any such sequence, a restore that returns 0 has given back all three dispositions. |
| Handlers.CleanHistoriesKeep | src/transport_posix.c:68-206 | If undoing and putting masks back succeed (a last mask call of an install may fail), dispositions, mask and every O_NONBLOCK bit stay in force or saved throughout. |
| Handlers.SuccessfulRestoreAfterCleanHistories | src/transport_posix.c:144-206 | Under the same condition a restore that returns 0 gives back the dispositions and the original mask, and all O_NONBLOCK bits exactly unless it had nothing to do with the input still attached and its bit changed. |
| Handlers.SuccessfulRestoreReturnsEverything | src/transport_posix.c:144-206 | If mask calls and undoing succeed, whatever else fails, a restore that returns 0 gives back the dispositions, the original mask and every O_NONBLOCK bit. |
| Handlers.RestoreCanBeRetried | src/transport_posix.c:144-206 | After any history, whatever failed in it, a restore whose calls succeed returns 0. |
| Handlers.InputIsForgottenIff | src/transport_posix.c:68-206 | For every operation and every choice of failing calls: it leaves an attached input with nothing to restore if and only if it is a first installation that fails at its last mask call and undoes every handler, the end of a frame when handlers and mask are already back, or a restore without a saved mask that gives back all but the input. |
| Handlers.HistoriesRemember | src/transport_posix.c:68-206 | After a history without such an operation an attached input leaves something to restore. |
| Handlers.QuietHistoriesRemember | src/transport_posix.c:68-206 | When mask calls and undoing succeed, an attached input has a saved mask, so no operation of a history forgets it. |
| Handlers.BitIsKeptIff | src/transport_posix.c:346-522 | For every operation, choice of failing calls and descriptor, the input's being standard output included: the bit that a restore would leave stays the same if and only if a condition on the shared descriptor's saved bits holds. |
| Handlers.RestoreReturnsHeldBits | src/transport_posix.c:170-199 | A restore that returns 0 and had something to do has left exactly the held bits: the output's saved bit, or else the input's, or else the one in force. |
| Handlers.SuccessfulRestoreReturnsBitIff | src/transport_posix.c:144-206 | After any history with any failures on any descriptors a restore that returns 0 has given a descriptor its bit back if and only if the bit was held, or in force with nothing to restore; both when no operation loses the bit or forgets the input. |
| Handlers.MaskIsLostAfterStuckInstall | src/transport_posix.c:92-113 | A failed undoing followed by a clean install makes a successful restore leave the termination signals unblocked for good. |
| Handlers.MaskIsLostAfterFailedRestore | src/transport_posix.c:110-113 | With nothing failing but one restore's last mask call, install and restore succeed again and leave the termination signals blocked for good. |
| Handlers.SharedDescriptorLosesBit | src/transport_posix.c:499-504 | Guarded reads from standard output make a frame save the changed bit, and a successful restore leaves it changed. |
| Handlers.InputBitIsLostAfterLateInstall | src/transport_posix.c:120-133 | A failing last mask call of an install can make a later restore return 0 with the input still non-blocking. |
| Handlers.FirstSignalWins | src/transport_posix.c:29-34 | Until the next installation the recorded signal is the first one delivered and never changes. |
| Handlers.Termination.constructor | src/transport_posix.c:18-27 | A process starts with nothing installed, saved or attached. |
| Handlers.Termination.UndoInstalled | src/transport_posix.c:94-101 | The rollback loop on the arrays has the effect of the specified rollback. |
| Handlers.Termination.InstallMissing | src/transport_posix.c:88-108 | The installation loop on the arrays has the effect of the specified one, its record of new handlers included. |
| Handlers.Termination.InstallHandlers | src/transport_posix.c:68-136 | The in-place installation reaches exactly the specified state and result for every choice of failing calls. |
| Handlers.Termination.ReturnDispositions | src/transport_posix.c:154-163 | The restoring loop on the arrays has the effect of the specified one. |
| Handlers.Termination.DetachDescriptors | src/transport_posix.c:170-199 | Each descriptor's O_NONBLOCK bit returns independently of the other, keeping its current other flags. |
| Handlers.Termination.RestoreHandlers | src/transport_posix.c:144-206 | The in-place restoration reaches exactly the specified state and result for every choice of failing calls. |
| Input.Reader.Attach | src/transport_posix.c:346-362 | One input at most is attached, within the select range, and it is non-blocking afterwards; state and result are those of the attaching operation of the handlers' histories. |
| Input.Reader.WaitInput | src/transport_posix.c:364-414 | Without a recorded signal readiness is reported if and only if the calls were blocking, a pselect that found the input, the pending check and unblocking, none of them failing; the mask is put back before any outcome is reported. |
| Input.Reader.ReadRetry | src/transport_posix.c:339-434 | Bytes are the next of the input and 0 is its end; either is returned only without a recorded signal, and if the caller blocks no termination signal, only if none has ever arrived; every wait that finds the input is followed by a read, with handlers installed no read happens otherwise, and the first read that is neither interrupted nor empty-handed is answered; every failure has its reason. |
| Input.OneWaitIsEnough | src/transport_posix.c:414-421 | Without signals and faults, a pselect that finds an attached input with bytes left makes the call return exactly the next bytes, at least one. |
| Transport.RetryWriteKeeps | src/transport_posix.c:448-456 | One retried write hands over exactly a prefix of the data, nothing on failure, however often it is interrupted. |
| Transport.RetryWriteMarks | src/transport_posix.c:448-456 | Each attempt of one retried write but the first repeats the one before it, which was interrupted without a signal. |
| Transport.FirstWriteFollowsReading | src/transport_posix.c:587-595 | The first write of a call directly follows its clock reading; all further ones are repetitions after interruptions. |
| Transport.InterruptedWriteStartsLate | src/transport_posix.c:449-455 | For every deadline there is a run in which a repeated write starts after it. |
| Transport.WritesStartInTime | src/transport_posix.c:449-455 | All writes of a call start before a limit if and only if the leading interruptions are over before it. |
| Transport.Transport.OutputBegin | src/transport_posix.c:490-506 | A frame opens with its deadline a timeout after a reading and the O_NONBLOCK bit saved; a failure changes nothing and has its reason; state and result are those of the handlers' histories. |
| Transport.Transport.OutputEnd | src/transport_posix.c:509-522 | Closing restores the bit of the frame's beginning and keeps the other flags as they are now; it fails only if fcntl does, and then leaves the frame open; state and result are those of the handlers' histories. |
| Transport.Transport.WaitStdoutWritable | src/transport_posix.c:524-551 | It answers 0 if and only if its last wait found the descriptor writable and no signal; every wait directly follows its own clock reading, and only waits in vain are repeated; nothing is written, a timeout is reported only after the deadline, a signal only when recorded. |
| Transport.Transport.WaitOnce | src/transport_posix.c:528-550 | One turn is one clock reading and at most one wait after it; it ends the waiting with 0 exactly when that wait found the descriptor writable without a signal. |
| Transport.Transport.RepeatWrite | src/transport_posix.c:448-456 | The retry loop is the specified repetition. |
| Transport.Transport.WriteRetry | src/transport_posix.c:439-457 | A prefix of the data arrives and every attempt relies on a reading before the limit; a failure has its reason. |
| Transport.Transport.WriteLoop | src/transport_posix.c:579-612 | Over any short writes, interruptions and waits a prefix arrives, on success the whole buffer exactly once; an attempt is a repetition exactly when the one before was interrupted without a signal, and any other follows its clock reading directly; a blocked write inside a frame is followed by a wait and a wait that finds room by another write. |
| Transport.Transport.WriteAll | src/transport_posix.c:555-619 | A prefix of the buffer arrives and a non-negative result means all of it once; all writes rely on readings before the deadline, which is the frame's own inside a frame, and only repetitions of interrupted writes do without a fresh one; every wait that finds standard output writable is followed by another write unless a signal, the deadline or a fault comes first; a frame of its own is closed with its original bit and the others kept unless an fcntl call fails; each error has its reason. |
| Transport.Transport.WriteFrame | src/transport_posix.c:488-522 | A whole frame of any buffers: on success exactly their concatenation arrives, otherwise a prefix of it; every write relies on a reading before the one deadline made at its beginning; afterwards the bit is as it was unless an fcntl call fails. |
| Transport.Transport.Session | src/transport_posix.c:488-619 | Any sequence of begin, write and end calls: outside a frame the original bit is in force and inside one it is saved; every descriptor has gained the buffers of the successful writes and prefixes of the others, in order. |
| WorkerChild.Process.MoveAboveStreams | src/analysis_worker_posix.c:152-166 | A pipe end on a standard stream's number moves to an unused one above; nothing else changes, also on failure unless close leaves descriptors open; it fails only if a call does. |
| WorkerChild.Process.CreatePipe | src/analysis_worker_posix.c:333-343 | Success adds exactly the two ends, both above the standard streams and closed on exec; failure leaves the table as it was unless a close got stuck; an end is closed twice exactly when moving it released it with a failure report. |
| WorkerChild.Process.GiveUpWriteEnd | src/analysis_worker_posix.c:366-374 | Success closes the write end only; failure closes both unless a close got stuck, and the write end twice exactly when its first close released it. |
| WorkerChild.Process.BeginInParent | src/analysis_worker_posix.c:333-374 | Over the whole of begin: success adds exactly the read end, failure nothing unless a close got stuck, and descriptors are closed twice exactly as often as a pipe end is released by a close that reports a failure. |
| WorkerChild.MovedEndIsClosedTwice | src/analysis_worker_posix.c:152-166 | A run of begin without standard input in which the moved end's failing close is repeated on the same number. |
| WorkerChild.Process.CloseListed | src/analysis_worker_posix.c:218-233 | Every listed descriptor above 3 is closed; nothing at or below 3 changes. |
| WorkerChild.Process.CloseFromDirectory | src/analysis_worker_posix.c:207-241 | Success with a complete listing leaves no descriptor above 3. |
| WorkerChild.Process.CloseInherited | src/analysis_worker_posix.c:243-266 | Whichever strategy succeeds closes everything above 3, given a complete listing or descriptors below the limit; failed strategies harm nothing at or below 3. |
| WorkerChild.Process.ResetTerminationSignals | src/analysis_worker_posix.c:174-189 | Success removes all three handlers and unblocks all three signals, and no others. |
| WorkerChild.Process.PlacePipe | src/analysis_worker_posix.c:276-285 | The write end is on 3 and the standard streams are closed, wherever the ends were, the read end on 3 included. |
| WorkerChild.Process.PrepareWorkerChild | src/analysis_worker_posix.c:268-289 | Success leaves exactly descriptor 3, bound to the pipe's write end and closed on exec, for every inherited table; it fails only if a call fails. |
| WorkerChild.Process.BeginInChild | src/analysis_worker_posix.c:330-364 | Creating the pipe, forking and preparing compose: the child of a successful begin has exactly its write end. |
| Worker.Worker.constructor | src/analysis_worker_posix.c:37-45 | A process starts without a worker. |
| Worker.Worker.Reset | src/analysis_worker_posix.c:103-114 | All worker state returns to its initial values; the kernel is untouched. |
| Worker.Worker.ReapIfExited | src/analysis_worker_posix.c:133-139 | The first loop ends with the child reaped, with a child known to run, or with a waitpid failure. |
| Worker.Worker.ReapBlocking | src/analysis_worker_posix.c:144-149 | The second loop ends only with the child reaped or with a waitpid failure. |
| Worker.Worker.KillAndReap | src/analysis_worker_posix.c:129-150 | The child is reaped unless waitpid fails, with at most three calls and one more for each interruption; its exit is waited for only after signalling it, and no reaped child is signalled unless children are reaped unasked. |
| Worker.Worker.EndWorker | src/analysis_worker_posix.c:717-721 | The child is stopped and reaped, the read end closed once, and the state reset. |
| Worker.Worker.Abort | src/analysis_worker_posix.c:709-722 | Afterwards nothing is left of the worker; without one it does nothing. It makes at most four calls and one more for each interruption. |
| Worker.Worker.Fork | src/analysis_worker_posix.c:345-351 | A new running child has an empty pipe; a predecessor becomes an orphan only if it was not reaped. |
| Worker.Worker.GiveUpWriteEnd | src/analysis_worker_posix.c:366-374 | Failure withdraws everything; the write end is closed twice exactly when its first close failed after releasing it. |
| Worker.WriteEndIsClosedTwice | src/analysis_worker_posix.c:366-374 | A run in which the parent's close of the write end fails after releasing it: everything is withdrawn and that number was closed twice. |
| Worker.Worker.Begin | src/analysis_worker_posix.c:320-387 | Success attends one fresh worker whose deadline is the timeout after a reading; every failure leaves none and has its reason; descriptors are closed twice exactly as often as pipe ends are lost. |
| Worker.Worker.Pipe | src/analysis_worker_posix.c:333-343 | Success adds two unused descriptors above the streams; a creation spoilt by a failing close leaves descriptors open or closes a lost end twice, as modelled in detail for the child. |
| Worker.Worker.Guard | src/analysis_worker_posix.c:558-566 | Work goes on only without a signal and after a reading before the deadline, with a slice of 1 to 25 milliseconds that ends before the deadline plus a millisecond; each refusal has its reason, and a recorded signal is refused at once. |
| Worker.Worker.WorkerSlice | src/analysis_worker_posix.c:422-434 | There is a slice to wait only after a reading before the deadline, and it ends before the deadline plus a millisecond; otherwise at most one call starts past the deadline. |
| Worker.Worker.CallerTimeout | src/analysis_worker_posix.c:414-421 | Waiting the caller's time left ends before its end plus a millisecond, busy time aside. |
| Worker.Worker.AfterTimeout | src/analysis_worker_posix.c:460-477 | After an idle poll: deadline only when passed, 0 only when the caller's time is up or there is no worker, end of file only after it was seen; another turn only after readings before the worker's and the caller's end. |
| Worker.Worker.WaitTurn | src/analysis_worker_posix.c:413-497 | One turn waits at most one slice and never past either limit plus a millisecond; at most two of its calls start past the deadline, and none if it asks for another turn; another turn follows only after an interruption or before the caller's end, and only if no signal was recorded when this one began. |
| Worker.Worker.WaitEvent | src/analysis_worker_posix.c:397-498 | The first poll that finds input, the worker or a fault is the last and is answered as such, by the signal if one is recorded; that nothing happened is said only after a poll and when the caller's time is over, so never when it waits without limit; without a worker, or when its end was seen, the first poll that runs out of time is the last, and the end is reported only before the caller's time is over; a poll without time is made at most once, when that time is over. At most three of its calls start past the worker's deadline and five once a signal is recorded, so it returns by the deadline plus a millisecond, and within one 25 ms slice of a signal, but for the time its last nine or eleven calls take; past the caller's end it makes at most seven calls and four for each interruption since; the same holds for runs that stop inside. At least every sixth call is a poll, each watches the pipe until its end was seen, and every other answer is given only in its situation. |
| Worker.Worker.Receive | src/analysis_worker_posix.c:637-649 | The bytes handed over continue the child's output without gap or repetition, unless a signal has arrived. |
| Worker.Worker.ReadTurn | src/analysis_worker_posix.c:557-598 | One turn of the reading loop, with the same promises as the whole. |
| Worker.Worker.Read | src/analysis_worker_posix.c:546-600 | What was delivered stays a prefix of what the child wrote; end of file means all of it and nobody can write; every poll that finds the pipe readable is followed by a read, and the first read that is neither interrupted nor empty-handed is answered; an error other than a wrong call leaves no worker and has its reason. At most eight calls, and one for each interruption, start past the deadline or once a signal is recorded, and until then at least every fourth call is a poll. |
| Worker.Worker.ReadAvailable | src/analysis_worker_posix.c:605-650 | The same with at most seven calls and one for each interruption, none of them waiting; "not readable" is answered only for an empty pipe or after an interruption. |
| Worker.Worker.TryFinish | src/analysis_worker_posix.c:654-707 | 1 means end of file was seen, every byte was delivered, the deadline had not passed and the child exited with 0; 0 means it still runs or the call was interrupted. It never waits, and makes at most six calls and one for each interruption. |
| Worker.Worker.DrainReaped | src/analysis_worker_posix.c:755-784 | A reaped child's pipe is drained to its end; afterwards nothing is left whatever fails; at most two calls, and one for each interruption and each byte. |
| Worker.Worker.FinishTurn | src/analysis_worker_posix.c:733-834 | One turn of finish: the worker is still attended, or nothing is left of it; another turn only if this one began before the deadline and without a signal. |
| Worker.Worker.Finish | src/analysis_worker_posix.c:724-836 | 0 means the child exited with 0 before the deadline and its pipe was drained; every other result leaves no worker and has its reason; it polls no more often than it looks whether the child has exited, watches the pipe until its end, reads it each time it is readable, and never polls without time. At most ten calls, and one for each interruption and each byte drained, start past the deadline or once a signal is recorded, and until then at least every fourth call is a poll. |
| Worker.Worker.Write | src/analysis_worker_posix.c:500-525 | In the child a prefix of the buffer arrives in order, on success all of it exactly once; every error has its reason; each of its calls hands bytes over, is interrupted, or is the last. |
| Worker.Worker.Session | src/analysis_worker_posix.c:320-836 | After any sequence of calls and any kernel answers: no worker, or one unreaped child, one open read end and a delivered prefix; the bytes answered since begin are what was delivered, all of the output once its end was answered, and try_finish succeeds only after that; no orphan, double close or late signal unless waitpid or close failed or children are reaped unasked. |
| Headers.ContentLength | test/lsp_client.py:131-162 | An announced length never exceeds the body limit, and its block never the header limit. |
| Headers.ReadContentLength | test/lsp_client.py:131-162 | The dictionary-filling reader accepts and refuses exactly as specified, with the same error. |
| Headers.AnnouncesIff | test/lsp_client.py:131-162 | A block of any number of fields announces a length if and only if it is within the limit, its lines are fields of distinct names, and the one named Content-Length has an admissible number for its value; other fields in any order are accepted. |
| Headers.EncodedHeaderIsRead | test/lsp_client.py:105-107 | The encoder's header is read back as the length it was made from. |
| Headers.ReadersAgree | test/output_stall_server_test.py:73-79 | On every block the strict reader accepts, the lenient one finds the same single length. |
| Framing.FrameDecoder.TakeHeader | test/lsp_client.py:170-180 | The in-place header step is the specified one, errors and leftover buffer included. |
| Framing.FrameDecoder.TakeBody | test/lsp_client.py:182-189 | The in-place body step is the specified one. |
| Framing.FrameDecoder.Feed | test/lsp_client.py:164-190 | Feeding completes exactly the specified frames, state and exception for any buffer and any data. |
| Framing.FrameDecoder.Finish | test/lsp_client.py:192-200 | It raises exactly when part of a frame is left. |
| Framing.DrainAppend | test/lsp_client.py:164-190 | If feeding a succeeds, feeding a and then b is feeding a + b: same frames, state and exception. |
| Framing.SplitSucceedsIff | test/lsp_client.py:170-180 | For an accepted a + b, feeding a alone succeeds if and only if its unfinished header with marker bytes fits the limit. |
| Framing.ShortHeadersAllowPrefixes | test/lsp_client.py:170-180 | With every header at least three bytes below the limit, no prefix of an accepted stream is refused. |
| Framing.AnyChunking | test/lsp_client.py:164-190 | Such a stream gives the same frames and state however it is cut into chunks. |
| Framing.MarkerBytesAreCounted | test/lsp_client.py:170-180 | A legal header is refused when its marker arrives in two pieces. |
| Framing.RoundTrip | test/lsp_client.py:91-107 | Decoding the encoding of any admissible bodies gives exactly those bodies and an empty state, whatever bytes they contain. |
| Framing.CutStream | test/lsp_client.py:164-200 | A stream cut at any byte leaves an empty state exactly at a frame boundary, whether or not the decoder has raised before; it raises nothing at a boundary, and nothing early with three bytes to spare in every header. |
| Framing.IncompleteTrailingFrame | test/output_stall_server_test.py:66-88 | The offset loop computes the specified verdict. |
| Framing.DetectorAgrees | test/output_stall_server_test.py:66-88 | On every stream the decoder accepts, the detector reports an incomplete frame exactly when the decoder has one. |
| Framing.BothDetectTruncation | test/output_stall_server_test.py:66-88 | For a cut at any byte and any header limit that fits the encoder's headers, finish has something to raise about and the detector is true exactly when the cut is not on a boundary. |
| Framing.ParseStream | test/lsp_client.py:203-218 | The helper returns the decoder's frames and a residue of its state. |
| Framing.ResidueRestores | test/lsp_client.py:208-218 | Reading the residue restores the decoder state it was made from. |
| Framing.ParseStreamContinues | test/lsp_client.py:203-218 | Continuing with the residue and new bytes is one decoder being fed the new bytes. |
| JsonString.AcceptsExactlyUtf8 | src/json_writer.elisa:125-160 | The lead, continuation, minimum and surrogate tests accept exactly the sequences of RFC 3629 section 4. |
| JsonString.SanitizeFixpoints | src/json_writer.elisa:111-114 | Replacing ill-formed bytes changes exactly the texts that are not well-formed UTF-8. |
| JsonString.JsonEscapeByte | src/json_writer.elisa:7-31 | The bytes pushed for one byte are its escape, the buffer is kept. |
| JsonString.JsonEscapeUtf8 | src/json_writer.elisa:115-177 | The loop appends exactly the specified escaping of the whole text. |
| JsonString.EscapingIsLossless | src/json_writer.elisa:115-177 | Unescaping by RFC 8259 section 7 gives the input with each ill-formed byte replaced by U+FFFD. |
| JsonString.EscapingIsInjective | src/json_writer.elisa:115-177 | Different well-formed texts have different escapings. |
| JsonString.EscapedTextIsLegal | src/json_writer.elisa:111-177 | For any input bytes the output is a legal JSON string body in well-formed UTF-8. |
| JsonNumber.JsonPushI64 | src/json_writer.elisa:40-58 | The two digit loops append the canonical decimal text of every 64-bit integer, the minimum included, without leaving 64 bits. |
| JsonNumber.IntegerTextReadsBack | src/json_writer.elisa:38-58 | That text is a legal JSON integer and denotes the number. |
| JsonNumber.IntegerTextIsUnique | src/json_writer.elisa:38-58 | It is the only integer text of the number without fraction, exponent and negative zero. |
| JsonParser.IntegersAreNumbers | src/json_writer.elisa:38-58 | The writer's integers are exactly the numbers of RFC 8259 section 6 without fraction and exponent, the negative zero aside. |
| JsonParser.IntegerTextIsTheNumber | src/json_writer.elisa:38-58 | A number without fraction and exponent is the writer's text of its value, or the negative zero. |
| JsonParser.IntegerTextIsNumber | src/json_writer.elisa:38-58 | Whatever the writer prints is a number of the grammar. |
| JsonValue.JsonAppendRawValue | src/json_writer.elisa:78-108 | The result is true exactly when depth plus height is at most 256; on true the value's text is appended, otherwise a prefix of it. |
| JsonValue.PrintIsCompact | src/json_writer.elisa:61-108 | The text has its tokens in order without spaces, items and fields separated by single commas. |
| JsonParser.ValueParses | src/json_writer.elisa:61-64 | The writer's text followed by anything that cannot continue a number parses to the same value and leaves the rest. |
| JsonParser.PrintedTextParses | src/json_writer.elisa:61-108 | What is appended on success parses by the grammar to the same value tree. |
| JsonParser.PrintIsInjective | src/json_writer.elisa:61-108 | Different value trees have different texts. |
| IncludeClosure.NoCycleInOrder | scripts/build_hashes.py:268-280 | A finish order in which every file follows its includes excludes cycles and contains everything reachable. |
| IncludeClosure.Traversal.Open | scripts/build_hashes.py:275-277 | Entering a file keeps the chain, the preorder and the seen set consistent. |
| IncludeClosure.Traversal.Close | scripts/build_hashes.py:278-280 | Leaving a file keeps them consistent and extends the finish order. |
| IncludeClosure.Traversal.Visit | scripts/build_hashes.py:268-280 | A visit adds exactly the preorder of what was not seen and keeps the order depth-first by directives, or reports a real cycle or an unavailable file. |
| IncludeClosure.Traversal.VisitIncludes | scripts/build_hashes.py:278-279 | The includes of a file are visited in the order of its directives. |
| IncludeClosure.RecursiveIncludePaths | scripts/build_hashes.py:262-283 | On every finite graph it ends, and it succeeds exactly when everything reachable is readable and free of cycles; then the result is the reachable files without repetition, beginning with the entry, each next one being the first unlisted include, by the order of the directives, of the latest listed file that has one; a topological finish order comes with it. With all files readable the cycle error is raised exactly when a cycle is reachable, and names one. |
| ClosureDigest.DependencyClosureSha256 | scripts/build_hashes.py:124-159 | The step-by-step digest is the specified one, and refuses exactly the record lists the specification refuses. |
| ClosureDigest.HashedStream | scripts/build_hashes.py:147-159 | What is hashed is the tag and the given pairs in ascending byte order of their paths, each as the eight-byte big-endian length of the path, the path and the 32 bytes of the hash. |
| ClosureDigest.RefusedIff | scripts/build_hashes.py:132-150 | A list is refused if and only if it is empty, holds an inadmissible record or names a path twice, each with its own error. |
| ClosureDigest.DecodeInvertsEncode | scripts/build_hashes.py:152-158 | A decoder recovers the records from the hashed stream, so the stream is unambiguous. |
| ClosureDigest.DigestIgnoresOrder | scripts/build_hashes.py:132-159 | Permuting the records changes neither the digest nor the error. |
| ClosureDigest.DigestIsInjective | scripts/build_hashes.py:124-159 | Two closures have the same digest if and only if they are the same set of path and hash pairs. |
| ClosureDigest.ClosureDigestForRoots | scripts/build_hashes.py:162-193 | With verification it succeeds exactly when every file still has its recorded hash, and then gives the recorded digest. |
| ClosureDigest.SameDigestMeansUnchanged | scripts/build_hashes.py:162-193 | Without verification, getting the recorded digest means that every file is unchanged. |
| Masking.StringEnd | scripts/diagnostic_span_inventory.py:51-60 | The inner loop stops where the lexer leaves the string, escapes included. |
| Masking.BlankRange | scripts/diagnostic_span_inventory.py:61-63 | Overwriting the range gives the final characters there and touches no others. |
| Masking.MaskLiteralsAndComments | scripts/diagnostic_span_inventory.py:33-65 | Skipping whole comments and strings gives what a lexer that reads one character at a time gives. |
| Masking.PlainPiece | scripts/diagnostic_span_inventory.py:46-49 | A character that begins neither a comment nor a string stays, and the rest is masked as if it stood alone. |
| Masking.CommentPiece | scripts/diagnostic_span_inventory.py:38-44 | A comment is blanked up to its newline or the end, and program text follows. |
| Masking.StringPiece | scripts/diagnostic_span_inventory.py:51-64 | A string is blanked from its quote to the next one that no backslash escapes, newlines kept, and program text follows. |
| Masking.TriplePiece | scripts/diagnostic_span_inventory.py:51-64 | A string in three double quotes is blanked to the next three, escapes included, and program text follows. |
| Masking.MaskingKeepsLayout | scripts/diagnostic_span_inventory.py:33-65 | Same length and newlines, no comment sign or quote left, every other character kept or blanked. |
| Masking.MaskingIsIdempotent | scripts/diagnostic_span_inventory.py:33-65 | Masking twice is masking once. |
| Masking.MaskedOffsetsAreSourceLines | scripts/diagnostic_span_inventory.py:91-123 | The line number of an offset found in the masked text is its line in the source. |
| Masking.MaskingIsIncremental | scripts/diagnostic_span_inventory.py:33-65 | What follows a prefix does not change how the prefix is masked. |
| Splitting.BalancedIffScans | scripts/diagnostic_span_inventory.py:68-88 | The bracket stack accepts exactly the balanced texts of a grammar. |
| Splitting.EndIsUnique | scripts/diagnostic_span_inventory.py:68-88 | At most one brace ends the constructor. |
| Splitting.SplitConstructorFields | scripts/diagnostic_span_inventory.py:68-88 | Fields are returned exactly when balanced text is followed by a closing brace; joined by commas they are that text, each balanced without an outer comma. |
| Publication.CheckFreshness | scripts/check_build_freshness.py:119-235 | It accepts if and only if the manifest, executable, live LSP inputs, pipeline, read-only snapshot and recorded closure agree, the compiler binary does if it is present, and the live closure report does if checkout and binary are present; each rejection names the first guard that fails. |
| Publication.StepIsSafe | build.sh:331-670 | Every step of any builder, edit or crash keeps: snapshots hold what their key is the hash of, and manifests name what was compiled. |
| Publication.PublishedManifestsNameTheirInputs | build.sh:400-465 | For every interleaving, with or without the lock, a visible new snapshot holds its key's contents and a published manifest names what its executable was compiled from. |
| Publication.AcceptedExecutablesAreNamed | scripts/check_build_freshness.py:171-203 | After any crashes and interleavings an accepted executable was compiled from the contents the manifest names. |
| Publication.StepIsSerialized | build.sh:145-204 | Under the lock every step keeps that at most its holder is at work and that the published files belong together, a promotion under way aside. |
| Publication.FreshIffInputsUnchanged | build.sh:666-670 | Under the lock, with no promotion under way or torn, the published files belong together, and the check accepts if and only if a manifest is published, the live LSP sources and pipeline are those it records, a binary that is present is the recorded one, and with checkout and binary present the live report is the recorded closure. |
| Publication.FreshIffClosureUnchanged | scripts/check_build_freshness.py:139-154 | With checkout and binary present and a closure reported by the recorded binary, that agreement is: the binary is the same and every file of the closure is unchanged. The report must list true hashes and depend on the files it lists only, as the compiler's and the parser's do, but not the fallback that lists all source files. |
| Publication.EditedClosureIsRejected | scripts/check_build_freshness.py:139-154 | With checkout and binary present, one edited file of the closure is enough for a rejection. |
| Publication.BuildsHaveACourse | build.sh:80-503 | In every run from the beginning, a builder that has a manifest has read its configuration, then taken its fingerprints, then compiled. |
| Publication.CompilationOfBuild | build.sh:331-503 | The manifest such a builder makes names the fingerprint it took, and the contents and outputs of its own compilation, which used the binary present then and the project file present when it was configured. |
| Publication.BinaryIsNamedIff | build.sh:331-335 | The manifest names the binary of the builder's own compilation if and only if the edits between its fingerprinting and its compilation leave the binary that was read. |
| Publication.ProjectIsNamedIff | build.sh:80-143 | The manifest names the project file that configured the compilation if and only if the fingerprint has read the file that was there when the configuration was read. |
| Publication.EditedProjectGoesUnnoticed | build.sh:331-335 | From the beginning and under the lock, an edit of the project file between the two leads to a published manifest and snapshot with the new file for a compilation configured by the old one, and the freshness check accepts. |
| Publication.ReplacedBinaryGoesUnnoticed | build.sh:593-594 | From the beginning and under the lock, a binary replaced for the compilation only leads to a published manifest that names another one and that the freshness check accepts. |

## Left out

- The language server proper (`src/main.elisa`, providers, document store, scheduler) is not part of this model.
- Real system calls, scheduling and signal delivery: the kernel is the script described above. `closedir` is taken to release its descriptor even when it fails, SIGKILL to end a running child, and nobody to change the status flags of a descriptor between their reading and their setting.
- SHA-256 is an injective function of its input; path resolution, symlinks, temporary directories and the compiler are abstract.
- JSON decoding of a frame's body is an arbitrary predicate on bytes, and Python's limit on integer conversions a parameter.
- `send_fragmented`, `_record_frame`, `recv` and the threads of `LspSession` are plumbing around the decoder.
- `tree_digest`, `_closure_records`, the regular expressions of `scan_diagnostic_constructors` and the counters of `build_inventory`.
- `test/bench.py`, `scripts/compiler_upgrade_gate.py`, `scripts/platform_validation.py`, log levels and truthy environment vocabularies: reading them settles them.
- Loops that may retry for ever (`EINTR`, `EAGAIN`) are modelled for runs of every finite length; that such a loop ends is not claimed.
- Masks and shifts of the JSON writer are written as remainders and products.
- Clock readings are those of a host that has been up for less than 2^51 seconds; a later reading counts as a failing clock. Timeouts are below 2^51 milliseconds.
- Framing.IncompleteTrailingFrame: for a negative length whose frame end lies before the data, where Python's slices wrap around, it answers `NegativeEnd` and says nothing more.
- Publication.CheckFreshness: the compiler's dependency reporter is an arbitrary function of the live trees and the binary; the theorems that need it to be truthful or local say so.
- The configuration of a build is the hash of `project.json` as read under the lock; the reading before the lock, which is repeated there, and a profile requested on the command line are left out.
- Worker.Worker.Pipe: one call stands for creating and placing both ends, which `WorkerChild` models in detail.
- Worker.Worker.Read: null buffers and counts above SSIZE_MAX do not exist here, and both a zero count and end of file are 0 in C.
- Input.Reader.ReadRetry: a signal between two calls is one that arrives with the next call, so the second look at the recorded signal before `read` coincides with the first.
- Handlers.FirstSignalWins: that a handler runs at a given moment is an event of the history, whatever the signal mask is.
- WorkerChild.Process.PrepareWorkerChild: the core-size limit is a call that succeeds or fails.
