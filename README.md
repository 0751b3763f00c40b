# timeout escalation, modelled in Dafny

A model of the core of the Go package `timeout` (Songmu/timeouts): it runs
one external command under a time budget and, when the command outlives it,
escalates from a termination signal to a forced kill, then reports an exit
code compatible with GNU timeout: the child's own code after a normal run,
124 timed out, 125 internal failure, 137 killed, and 0 for a spawn that
returned no error.

The project has four modules:

- `Wrappers` (`wrappers.dfy`): `Option`, standing for Go's nil.
- `SignalPolicy` (`signal_policy.dfy`): the signals the model tells apart
  and the platform default fixed at start-up (`init`).
- `ExitClassifier` (`exit_classifier.dfy`): the `ExitStatus` value with its
  hidden phase (`Normal`, `TimedOut`, `Killed`), its accessors, the exit
  constants, the package's `Error` and `getExitCodeFromErr`.
- `Supervisor` (`supervisor.dfy`): the `Timeout` configuration and its
  `signal()`, the escalation loop `handleTimeout` as a method, and the
  entry points `RunCommand`, `Run` and `RunSimple` reduced to their
  control flow and exit codes.

The escalation loop waits on a process-exit channel, a timeout timer and,
only when `KillAfter > 0`, a kill-after timer. The model replaces the
goroutines, `reflect.Select` and `time.After` by a finite trace of `Event`s,
one per case the wait selects, in the order it selects them. `Feasible`
says which traces the wait can produce: only armed cases are chosen
(`Cases`), and each timer delivers at most one value. The relative order of
the two timers is part of the trace: the wait picks among ready cases
arbitrarily, so the model does not assume the timeout comes first, and
proves phase monotonicity only under `TimeoutPrecedesKill`.
`ReversedTimersReportTimedOut` shows why: if the kill-after case is selected
before the timeout case, the child is killed but the run reports
`TimedOut` and exit code 124. The package's design intends the phase never
to move backwards; the code guarantees that only when the timers are
selected in their scheduled order, and the model follows the code.

`HandleTimeout` consumes the trace with a `while` loop that updates `ex` as
the Go loop does and records the side effects in an action log
(`Terminate`, `KillAll`, `ProcessKill`). It is proved against `Outcome`
(the status delivered: nothing until the first process exit, then its wait
result with the phase of the last timer handled before it) and `Actions`
(the log). A trace that runs out before any process exit yields `Blocked`:
the Go loop would still be waiting.

## Model

| member | source | states |
|---|---|---|
| `SignalPolicy.DefaultSignal` | timeout.go:29-36 | the start-up default is one of the interrupt signal and SIGTERM, and the interrupt signal exactly when the system is windows |
| `Supervisor.Timeout.ResolvedSignal` | timeout.go:99-104 | a configured signal is returned unchanged; without one, the interrupt signal on windows and SIGTERM on any other system |
| `ExitClassifier.ExitStatus.IsTimedOut` | timeout.go:64-66 | timed out holds exactly when escalation reached at least the timeout phase (TimedOut or Killed) |
| `ExitClassifier.ExitStatus.IsKilled` | timeout.go:69-71 | killed holds exactly in the Killed phase and implies timed out |
| `ExitClassifier.ExitStatus.GetExitCode` | timeout.go:74-83 | 137 when killed, 124 when timed out but not killed; a code other than the child's is reported only after escalation, and it is 124 or 137 |
| `ExitClassifier.ExitStatus.GetChildExitCode` | timeout.go:86-88 | the raw `Code`, the same for every phase, and equal to the reported code when no escalation happened |
| `ExitClassifier.GetExitCodeFromErr` | timeout.go:160-168 | nil gives 0, the package's `*Error` gives its `ExitCode`, any other error gives -1 |
| `SignalPolicy.DefaultSignalByPlatform` | timeout.go:29-36 | the default signal is the interrupt signal exactly on windows and SIGTERM on every other system |
| `Supervisor.ResolvedSignalChoice` | timeout.go:99-104 | `signal()` returns the configured signal when one is set, otherwise the platform default (interrupt on windows, SIGTERM elsewhere) |
| `ExitClassifier.ExitCodeByPhase` | timeout.go:74-83 | the reported code is 137 when killed, 124 when timed out, the child's own code when no escalation happened |
| `ExitClassifier.ExitCodeRevealsPhase` | timeout.go:74-83 | when the child's code is neither 124 nor 137, the reported code is 137 iff killed, 124 iff timed out, and equals the child's code iff the phase is Normal |
| `ExitClassifier.ChildExitCodeIgnoresPhase` | timeout.go:86-88 | the child exit code is the raw `Code`, the same whatever the phase |
| `ExitClassifier.KilledImpliesTimedOut` | timeout.go:64-71 | killed implies timed out; timed out holds exactly when the phase is TimedOut or Killed, i.e. at or past the timeout in escalation order |
| `ExitClassifier.ExitCodeFromErrCases` | timeout.go:160-168 | nil maps to 0, the package's `*Error` to its `ExitCode`, any other error to -1 |
| `Supervisor.Cases` | timeout.go:192-208 | the wait always listens for the process exit and the timeout; the kill-after case is armed exactly when `KillAfter > 0` |
| `Supervisor.FirstExit` | timeout.go:209-217 | the index of the first process-exit event, every earlier event being a timer, or the trace length when there is none |
| `Supervisor.HandleTimeout` | timeout.go:189-228 | the loop, run over a feasible trace, delivers exactly `Outcome`: nothing until the first process exit, then that exit's wait result (or code 0, not signaled, when it does not decode) with the phase of the last timer handled before it; its action log is `Actions` of the events handled before that exit (Terminate per timeout; KillAll then ProcessKill per kill-after event) |
| `Supervisor.OutcomeDeliveredIffExit` | timeout.go:209-217 | a status is delivered exactly when the trace holds a process-exit event: the loop has no other way out |
| `Supervisor.NoKillWithoutKillEvent` | timeout.go:221-225 | without a kill-after event the phase never becomes Killed and neither kill action is taken |
| `Supervisor.ActionCounts` | timeout.go:218-225 | each timeout event sends exactly one termination signal; each kill-after event exactly one group kill and one direct kill |
| `Supervisor.KillAllThenProcessKill` | timeout.go:221-225 | in the action log every group kill is immediately followed by the direct kill of the process handle |
| `Supervisor.EscalationBounds` | timeout.go:202-208 | on any feasible trace each action happens at most once before the exit, and with `KillAfter <= 0` no kill happens and the phase is not Killed |
| `Supervisor.PhaseMonotone` | timeout.go:209-227 | when the timeout is selected before the kill-after event, the phase after handling more events is never lower (Normal, TimedOut, Killed) |
| `Supervisor.FinalPhase` | timeout.go:209-227 | with the timers in order, the reported phase is Killed iff the kill-after event came before the exit, TimedOut iff only the timeout did, Normal iff the child exited first |
| `Supervisor.ReversedTimersReportTimedOut` | timeout.go:209-227 | a feasible trace that selects kill-after before timeout, then sees the child exit by a signal with any code, delivers that code and signaled flag with phase TimedOut, reports 124, and logs the group kill, the direct kill, then the termination signal |
| `Supervisor.ReportedExitCode` | timeout.go:209-227 | with the timers in order, the delivered status reports 137 after a kill, 124 after only a timeout, the child's code when the child exited first; the child's code is the decoded wait code, or 0 when it does not decode |
| `Supervisor.RunCommand` | timeout.go:171-187 | a spawn failure returns the package's error with the resolved exit code and never runs the loop; otherwise no error and the loop's outcome and log |
| `Supervisor.Run` | timeout.go:107-120 | a spawn failure returns the zero status and the error; otherwise the status the loop delivers and no error |
| `Supervisor.RunSimple` | timeout.go:123-158 | a pipe-setup failure gives 125; a spawn failure the resolved exit code; otherwise the child's code with `preserveStatus` and the escalation-aware code without it, once the child exits |

## Left out

- Process spawning and waiting (`cmd.Start`, `cmd.Wait`, `getExitChan`): their outcome is an input, `Start` for the spawn and the `ProcessExit` event for the wait.
- Goroutines, channels, `reflect.Select` and `time.After`: replaced by the event trace; `Timeout.duration` and the timer arithmetic `Duration + KillAfter` have no counterpart, since wall-clock time is not modelled.
- The `wrapcommander` calls (`ResolveExitCode`, `WaitStatusToExitCode`, `ErrorToWaitStatus`) and the `syscall.WaitStatus` method `Signaled()`: foreign code; their results are inputs (`Start.resolvedCode`, `WaitStatus`).
- `ProcessExit(None)` models the failing side of the type assertion at timeout.go:213, which the channel's type `chan syscall.WaitStatus` never reaches; a wait result that fails to decode (the discarded `ok` at timeout.go:234) still arrives as a `WaitStatus` and is modelled as `Some` of whatever the decoders return.
- `terminate`, `killall` and `getCmd` are not part of this model: they are platform-specific files; escalation records them only as the actions `Terminate` and `KillAll`, so which signal is sent and whether it targets the process group (`Foreground`) is not connected to the log.
- Stream relaying in `RunSimple` and output capture in `Run`: I/O plumbing; `Run` returns no captured text, and the messages printed to standard error are not modelled.
- `Error.Error()` formatting and the wrapped `Err` cause of `Error`: only the exit code is kept.
- `timeouts/main.go`: a demonstration program against a different API that only prints.
- Go's 64-bit `int`: exit codes are compared and copied, never computed, so unbounded integers change nothing.
