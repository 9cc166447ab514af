# netcheck connectivity state machine, in Dafny

This project models the `InternetChecker` class of netcheck, a daemon that
probes a URL at a fixed interval, counts consecutive failed probes, and
decides whether the Internet connection is up. When its view of the
connection changes it logs "Connected to the Internet" or "Disconnected from
the Internet", and on a disconnect it runs a configured command.

The model is one module, `NetCheck` (`netcheck.dfy`):

- `Status` holds the checker's three mutable fields: `online`,
  `failedChecks` and `statusChanged` (the pending-change flag).
- `SuccessSpec`, `FailureSpec`, `ProcessChangeSpec` and `StepSpec` say what
  `record_success`, `record_failure`, `process_change` and one iteration of
  the `run` loop do to those fields. `Run` folds `StepSpec` over a finite
  sequence of probe outcomes.
- The class `InternetChecker` has the same fields. Its methods update them
  in place, and each method is proved to agree with its value-level
  definition. `Step(success)` is one loop iteration, with the probe result
  as input. `RunProbes(probes)` is the loop over a finite sequence of probes.
- Observable output is a sequence of `Event`s: `Connected`, `Disconnected`
  and `RunCommand(command)`.
- Lemmas about `Run` state the invariant, the final state of any run, and
  the "one event per boundary crossing" behaviour.

Configuration: `downAfter` is an unbounded `int`, as in the source, which
does not validate it. The invariant "online implies `failedChecks <
downAfter`" is stated for `downAfter >= 1`. With a smaller threshold the
equality test in `record_failure` never fires, so failures never take the
checker offline. `on_disconnect` may be `None` or a string in the source;
both are falsy when there is no command, and both are modelled as the
string `""`.

The start-up quirk is modelled as written. A fresh checker is offline with
its pending flag set. So the first loop iteration always announces the
state. A failing first probe therefore reports a disconnect and runs the
command, whatever `downAfter` is (`FirstStep`).

The test file targets a later version of netcheck. That version has an
"unknown" initial state, an `is_connected` query that fails before the first
probe, and a rerun interval with timestamps. netcheck.py has none of these.
The model follows netcheck.py as written: the state starts as "offline,
change pending", there is no query and no rerun, and the command runs
whenever a pending change is processed while offline.

## Model

| member | source | states |
|---|---|---|
| `NetCheck.Initial` | netcheck.py:13-19 | the state of a new checker satisfies the invariant for every threshold and has a change pending |
| `NetCheck.InternetChecker.constructor` | netcheck.py:12-19 | a new checker is offline, has no failures, has a change pending, and keeps its configuration |
| `NetCheck.SuccessSpec` | netcheck.py:47-51 | after a success the checker is online with count 0; the flag is raised if it was offline, and otherwise left as it was; the invariant then holds for every threshold of at least one |
| `NetCheck.InternetChecker.RecordSuccess` | netcheck.py:47-51 | updates the fields in place as `SuccessSpec` says and keeps the object invariant |
| `NetCheck.FailureSpec` | netcheck.py:53-58 | the count grows by exactly one; a failure never brings the checker online; it goes from online to offline exactly when the new count equals `downAfter`; the flag is raised only on that transition; while offline, `online` and the flag are unchanged; the invariant is preserved |
| `NetCheck.InternetChecker.RecordFailure` | netcheck.py:53-58 | updates the fields in place as `FailureSpec` says and keeps the object invariant |
| `NetCheck.NonPositiveThresholdNeverDisconnects` | netcheck.py:56-58 | with `downAfter < 1` a failure never changes `online` |
| `NetCheck.ProcessChangeSpec` | netcheck.py:60-74 | clears the flag and changes nothing else; the first event announces the current state; a command run is requested exactly when offline with a command configured, and then exactly once; every event after the first is that command run |
| `NetCheck.InternetChecker.ProcessChange` | netcheck.py:60-74 | returns the events and updates the fields as `ProcessChangeSpec` says |
| `NetCheck.StepSpec` | netcheck.py:78-85 | after a step no change is pending; the count is reset by a success and grows by one on a failure; the checker is online iff the probe succeeded or it was online and the count did not reach `downAfter`; no events are emitted iff nothing was pending and `online` did not change; the invariant is preserved |
| `NetCheck.InternetChecker.Step` | netcheck.py:78-85 | records the probe, processes a pending change, and agrees with `StepSpec` on the new fields and the events |
| `NetCheck.Run` | netcheck.py:76-86 | the loop over a finite sequence of probes: no probes leave the state as it was; after at least one probe no change is pending; each probe emits at most two events |
| `NetCheck.InternetChecker.RunProbes` | netcheck.py:76-86 | running the loop over a finite sequence of probes leaves the fields and returns the events that `Run` gives |
| `NetCheck.StepIsCrossing` | netcheck.py:47-74 | from a settled checker, a step emits nothing when `online` holds, `Connected` when it comes up, and `Disconnected` plus the command when it goes down |
| `NetCheck.FirstStep` | netcheck.py:13-19 | the first step of a fresh checker announces its state: a failing first probe emits `Disconnected` and the command for every `downAfter` |
| `NetCheck.RunPreservesInv` | netcheck.py:47-58 | for `downAfter >= 1`, online implies `failedChecks < downAfter` after any run that starts in such a state |
| `NetCheck.RunState` | netcheck.py:47-58 | for `downAfter >= 1`, from a state satisfying the invariant, after any run the count is the number of trailing failures, plus the old count when no probe succeeded; the checker is online iff that count is below `downAfter` and, when no probe succeeded, it was online before |
| `NetCheck.InitialRunOnline` | netcheck.py:13-58 | for `downAfter >= 1`, a fresh checker is online after a run iff some probe succeeded and fewer than `downAfter` failures followed the last success |
| `NetCheck.ShortOutageIsSilent` | netcheck.py:53-58 | from a settled online checker, failures that do not reach `downAfter` emit nothing, keep it online, and only add to the count |
| `NetCheck.OutageFiresOnce` | netcheck.py:53-74 | from a settled online checker, any run of failures reaching `downAfter` emits exactly one `Disconnected`, followed by one command run when a command is configured, however long the outage lasts |
| `NetCheck.SteadyConnectionIsSilent` | netcheck.py:47-51 | successes on a settled online checker emit nothing, and at least one success resets the count to 0 |
| `NetCheck.ThresholdThreeScenario` | netcheck.py:47-85 | with `downAfter = 3`, starting online: three failures give one disconnect and one command run, a fourth failure gives nothing, a success gives one `Connected`, and three more failures run the command again |
| `NetCheck.RunAnnouncesCrossings` | netcheck.py:47-85 | from a settled checker, the `Connected`/`Disconnected` announcements of any run alternate, the first one is the opposite of the starting state, and the last one is the final state |
| `NetCheck.RunAppend` | netcheck.py:76-86 | a run over two consecutive stretches of probes is the run over the first followed by the run over the second from where the first ended |
| `NetCheck.InitialRunAnnounces` | netcheck.py:13-19 | from a fresh checker, the first announcement reports the first probe's outcome, the later announcements alternate from there, and the last one is the final state |
| `NetCheck.RunCommandsFollowDisconnects` | netcheck.py:60-74 | in any run from any state, each command run comes directly after a `Disconnected`; with a command configured, each `Disconnected` is directly followed by exactly one command run |

## Left out

- The HTTP probe (`requests.get` and `raise_for_status`) is a network call. It is a boolean input to `Step`.
- Only an HTTP error status counts as a failed probe. Other request exceptions, such as a connection error or a timeout, are not caught by the source and end the `run` loop. Exception flow is not modelled, so the boolean input covers only "success" and "HTTP error".
- `subprocess.run` is a foreign call. A command invocation is a `RunCommand` event, and the model gives it no effect on the state.
- The errors of the command are not modelled. The source catches only `SubprocessError` and `FileNotFoundError`; those are logged and change nothing. Any other `OSError`, such as the `PermissionError` for a command file that is not executable, escapes `process_change` before `status_changed` is cleared, and it also ends the `run` loop. The model assumes every command invocation returns.
- The logger and file-handler setup, the start-up banner, the "Failed URL check; fail count" line and the command error line are logging. They are not events of the model. The announcements and command runs are the only events.
- `time.sleep` and the unbounded `while True` loop are not modelled. `RunProbes` and `Run` cover any finite prefix of the loop.
- `url` and `every` are only stored; the probe and the sleep that use them are outside the model.
- The argument parsing and `__main__` wiring are not modelled.
- tests/test_netcheck.py is not modelled. It calls a seven-argument constructor, `is_connected`, `run_on_disconnect_command` and a rerun interval, none of which netcheck.py defines.
