# arduino-build `watch.js`, modelled in Dafny

`watch.js` watches an Arduino sketch. On start-up and on every change it does the following:

- kills the `screen` session that captures the board's serial output;
- interrupts the `tail -f` that echoes the capture log;
- compiles the sketch with `arduino-cli`;
- uploads it to the ESP32 on `/dev/tty.usbserial-0001`;
- starts a new capture session and a new `tail`.

A `building` flag drops changes that arrive while a cycle is in flight. A failed compile or upload rejects a promise that nobody catches, so the `unhandledRejection` handler exits with status 1. SIGINT runs a fixed teardown and exits.

The model has five modules.

- `JsString`: the JavaScript string built-ins `killScreen` relies on, over `seq<char>`. These are `split` by one character, with its inverse `join`; `match` on a literal pattern; and `trim` with the ECMAScript white-space set.
- `Screen`: how `killScreen` picks the session id out of the output of `screen -ls`.
- `ArduinoCli`: the argument lists of `build` and `upload` and the rule that their promises resolve exactly on exit code 0. An independent reader of such command lines (`Parse`) serves as the partner of the argument lists.
- `Lifecycle`: the reload cycle as a sequential state machine.
  - The state is `building`, the `tailProc` handle (a fresh `TailId` per spawned `tail`) and the `await` that `exec` is suspended at.
  - The events are `Trigger` (a change, or the initial `exec()`), `CompileExited(code)`, `UploadExited(code)` and `Sigint`.
  - `Step` gives the new state and the external effects in the order the script issues them. Every shell command, spawn, signal and exit is an `Effect`.
  - The lemmas state the guard, the ordering rules, the exit-code rules and the teardown for one event. Over any sequence of events from start-up they state three things: cycles never overlap; at most one `tail` is ever live; and every capture session is started only after a `killScreen` since the previous start.
- `Controller`: class `Watcher`, whose fields are the script's module state plus a trace of effects.
  - Its methods update the fields step by step, as `exec`, `killScreen`, `createScreen` and the two process handlers do.
  - `Exec`, `OnBuildExit`, `OnUploadExit` and `OnSigint` are each proved to produce exactly the new state and effects of `Lifecycle.Step` on their event.
  - The constructor is proved to produce the scratch directory and the watch, followed by `Lifecycle.Step` on the initial trigger.
  - The helpers are proved against the pieces `Step` is built from. `KillScreen`, `InterruptTail`, `CreateScreen` and `Teardown` append `Lifecycle.KillScreenEffects`, `Lifecycle.InterruptEffects`, `Lifecycle.CreateScreenEffects` or their concatenation. `Reject` appends `exit(1)`, and `SessionToQuit` returns `Screen.QuitTarget`.

What `screen -ls` prints is an input of the events that call `killScreen`. `None` stands for the case where that command failed and `execSync` threw. The `ListSessions` effect records that output, so a trace shows what each `killScreen` saw. A child's exit code is an `Option<int>`, where `None` is Node's `null` for a child ended by a signal.

## Model

| member | source | states |
|---|---|---|
| JsString.Split | watch.js:102 | `split` by a one-character pattern always gives at least one piece. No piece contains the separator, and joining the pieces with it gives back the input. |
| JsString.SplitJoin | watch.js:102 | The other half of the round trip: splitting the join of separator-free pieces (at least one) gives back exactly those pieces. |
| JsString.SplitAfterPlainPrefix | watch.js:105 | A separator-free prefix ends up at the front of the first piece; the remaining pieces do not change. |
| JsString.FirstPieceIsPrefix | watch.js:105 | `split(sep)[0]` is a prefix of the text that has no separator. It is either the whole text or ends just before the first separator. |
| JsString.ContainsIffOccurs | watch.js:102 | `line.match(/arduino-logs/)` is truthy exactly when the pattern occurs at some index of the line (both directions). |
| JsString.Contains | watch.js:102 | No contract of its own. `line.match(/arduino-logs/)` for a pattern without special characters. Specified by `JsString.ContainsIffOccurs`. |
| JsString.TrimStart | watch.js:105 | The result is a suffix of the input, everything dropped is white space, and the result does not start with white space. |
| JsString.TrimStartSkipsWhite | watch.js:105 | White space in front of a text that does not start with white space is exactly what `trimStart` removes. |
| JsString.TrimEnd | watch.js:105 | The result is a prefix of the input, everything dropped is white space, and the result does not end with white space. |
| JsString.Trim | watch.js:105 | `trim` cuts a contiguous slice out of the input with only white space on either side, and the slice neither starts nor ends with white space. |
| Screen.Find | watch.js:102 | `find` returns nothing exactly when no line matches. Otherwise it returns a matching line with no matching line before it. |
| Screen.SessionId | watch.js:105 | The id taken from a line has no `.` and neither starts nor ends with white space. |
| Screen.QuitTarget | watch.js:93-111 | No quit is issued when `screen -ls` failed or when no line names `arduino-logs`. An id that is quit is non-empty, contains no `.` and has no white space at either end. |
| Screen.QuitTargetOfFirstMatch | watch.js:102-109 | If line `k` is the first line naming the session, the quit target is that line's trimmed text before its first `.`, or nothing when that text is empty. |
| Screen.QuitsListedSession | watch.js:102-109 | The converse: in a listing whose first entry naming the session reads `<white space><id>.<rest>`, `killScreen` quits exactly `id`. |
| Screen.SplitAroundEntry | watch.js:102 | Splitting a listing at newlines recovers the lines it was joined from. |
| Screen.EntrySessionId | watch.js:105 | The id carried by an entry `<white space><id>.<rest>` is `id`. |
| ArduinoCli.CompileAndUploadAgree | watch.js:35-57 | For an absolute sketch path, the compile and the upload name the same board `esp32:esp32:nodemcu-32s` and the path as their only operand, which stands last in both lists. The upload's port, the value after `-p`, is the socket. |
| Lifecycle.KillScreenEffects | watch.js:93-111 | No contract of its own. The effects of `killScreen`: listing the sessions (and what the listing printed), then quitting the session `Screen.QuitTarget` picks, if any. Specified by `Screen.QuitTarget`, `Screen.QuitTargetOfFirstMatch`, `Screen.QuitsListedSession` and `Lifecycle.AcceptedTriggerOrder`. |
| Lifecycle.InterruptEffects | watch.js:127-129 | No contract of its own. Interrupting the held tail, if any. Specified by `Lifecycle.AcceptedTriggerOrder`, `Lifecycle.TriggerStopsTail` and `Lifecycle.SigintStopsTail`. |
| Lifecycle.CreateScreenEffects | watch.js:76-91 | No contract of its own. Clearing and touching the log, starting the capture at 9600 baud, flushing, and spawning the next tail. Specified by `Lifecycle.ClearedOnlyByCleanUpload`, `Lifecycle.UploadStartsTail` and `Lifecycle.CaptureOnlyAfterKillScreen`. |
| Lifecycle.INIT | watch.js:19-20 | No contract of its own. The module state at start-up: not building, no tail held, idle, no tail spawned yet. Specified by `Lifecycle.NoOverlappingCycles`, `Lifecycle.AtMostOneTail` and `Lifecycle.CaptureOnlyAfterKillScreen`, which start from it. |
| Lifecycle.Rejected | watch.js:22-30 | No contract of its own. An uncaught rejection exits with status 1. Specified by `Lifecycle.FailedStepIsFatal`. |
| Lifecycle.OnTrigger | watch.js:113-132 | No contract of its own. The accepted part of `exec()` up to `await build`. Specified by `Lifecycle.AcceptedTriggerOrder`, `Lifecycle.TriggerStopsTail` and `Lifecycle.TriggerKeepsCaptureRule`. |
| Lifecycle.OnCompileExit | watch.js:45-57 | No contract of its own. The awaited compile's exit: start the upload on code 0, or reject. Specified by `Lifecycle.UploadOnlyAfterCleanCompile` and `Lifecycle.FailedStepIsFatal`. |
| Lifecycle.OnUploadExit | watch.js:133-138 | No contract of its own. The awaited upload's exit: clear `building` and create a new screen on code 0, or reject. Specified by `Lifecycle.ClearedOnlyByCleanUpload`, `Lifecycle.FailedStepIsFatal`, `Lifecycle.UploadStartsTail` and `Lifecycle.UploadKeepsCaptureRule`. |
| Lifecycle.OnSigint | watch.js:147-158 | No contract of its own. The SIGINT handler. Specified by `Lifecycle.ShutdownSequence`, `Lifecycle.SigintStopsTail` and `Lifecycle.SigintKeepsCaptureRule`. |
| Lifecycle.Step | watch.js:113-158 | No contract of its own. One event: the busy guard, the exit of the awaited child, SIGINT, and nothing after exit. Specified by `Lifecycle.StepPreservesValid`, `Lifecycle.BusyTriggerIgnored`, `Lifecycle.ExitedIsFinal`, `Lifecycle.StepMilestones` and the lemmas named for each handler above. |
| Lifecycle.StepPreservesValid | watch.js:113-139 | While the process runs, every event keeps `building` set exactly while `exec` awaits `build` or `upload`. It also keeps the held tail older than any tail not yet spawned. `Valid` leaves `building` free after exit. |
| Lifecycle.RunPreservesValid | watch.js:113-158 | The same holds after any sequence of events. |
| Lifecycle.BusyTriggerIgnored | watch.js:113-116 | A trigger while `building` changes nothing and issues no effect. |
| Lifecycle.AcceptedTriggerOrder | watch.js:118-132 | An accepted trigger sets `building` and awaits the compile, and changes nothing else in the state (the tail handle and the next tail id stay as they were). Its effects are exactly `killScreen`, the interrupt of the held tail and the compile, and nothing else. They begin with listing the screen sessions and end with the compile. The trigger quits exactly the session `killScreen` finds, interrupts exactly the held tail, and never quits after interrupting. |
| Lifecycle.UploadOnlyAfterCleanCompile | watch.js:132-133 | An upload is spawned exactly when a compile that was being awaited exits with code 0. It is then the only effect, with the upload arguments. |
| Lifecycle.FailedStepIsFatal | watch.js:22-30 | A non-zero or signal exit of the awaited compile or upload issues only `exit(1)`. `building` stays set after the exit and the tail handle is kept. |
| Lifecycle.ClearedOnlyByCleanUpload | watch.js:132-138 | `building` is cleared exactly when the awaited upload exits with code 0. The effects are then exactly `createScreen`, and the held handle becomes the newly spawned tail, which differs from the old one. |
| Lifecycle.ShutdownSequence | watch.js:147-158 | SIGINT, whatever `building` is, only moves to the exited state, leaving `building` as it was. Its effects are, in order: stop watching, `killScreen`, interrupt the held tail, remove the scratch directory, `exit(0)`. It spawns no compile, upload or monitor. |
| Lifecycle.ExitedIsFinal | watch.js:157 | After the process has exited, no further event changes the state or issues an effect. |
| Lifecycle.StepMilestones | watch.js:113-139 | For each event it gives which of compile, upload and monitor start are spawned. |
| Lifecycle.StepFollowsCycle | watch.js:113-139 | For one event, the spawns continue the compile, upload, monitor cycle from where the state stands. |
| Lifecycle.RunFollowsCycle | watch.js:113-158 | Over any sequence of events, the spawns follow compile, upload, monitor, compile, ... from where the start state stands. |
| Lifecycle.NoOverlappingCycles | watch.js:113-145 | From start-up, every sequence of events spawns compile, upload and monitor strictly in turn. A second compile never starts before the previous cycle has started its monitor. |
| Lifecycle.TriggerStopsTail | watch.js:127-129 | An accepted trigger removes exactly the held tail from the live tails. |
| Lifecycle.UploadStartsTail | watch.js:138 | A clean upload adds exactly the new tail to the live tails. |
| Lifecycle.SigintStopsTail | watch.js:151-153 | SIGINT removes exactly the held tail from the live tails. |
| Lifecycle.StepTracksMonitor | watch.js:127-138 | For one event, the tails live after its effects are the held tail while idle, and none otherwise. |
| Lifecycle.RunTracksMonitor | watch.js:113-158 | The same holds over any sequence of events. |
| Lifecycle.AtMostOneTail | watch.js:127-158 | After any sequence of events from start-up, at most one `tail` is live: the held one while idle, none during a cycle or after exit. |
| Lifecycle.TriggerKeepsCaptureRule | watch.js:113-132 | An accepted trigger's effects begin with the listing of `killScreen` and start no capture session. The `killScreen` arms the rule, so the trace after the trigger may start a capture session. |
| Lifecycle.UploadKeepsCaptureRule | watch.js:133-138 | A clean upload starts exactly one capture session, on the socket at 9600 baud. The `killScreen` of the current cycle has already paid for it, so the trace after it needs a new `killScreen` before the next start. |
| Lifecycle.SigintKeepsCaptureRule | watch.js:147-158 | SIGINT starts no capture session, and its `killScreen` keeps the rule for whatever trace follows. |
| Lifecycle.StepKeepsCaptureRule | watch.js:113-158 | For one event: if the rule holds for the trace that follows, armed as the new state is, it holds for the event's effects followed by that trace, armed as the old state is. A cycle in flight is armed, and an idle or exited state is not. |
| Lifecycle.RunKeepsCaptureRule | watch.js:113-158 | The rule holds for the effects of any sequence of events from any valid state, armed as that state is. |
| Lifecycle.KillBeforeEachCapture | watch.js:93-138 | The fold read positionally: each capture start at index `k` has, at some `j < k` with no capture start in between, a listing of the sessions followed at once by the quit its output calls for. When armed, that `killScreen` may also lie before the trace. |
| Lifecycle.CaptureOnlyAfterKillScreen | watch.js:93-138 | From start-up, over any sequence of events, every start of the `arduino-logs` capture session comes after a `screen -ls` since the previous start. That `screen -ls` is followed at once by the quit of exactly the session its output names. |
| Lifecycle.UnlistedCleanCycle | watch.js:96-100 | One clean cycle from idle while `screen -ls` fails: the state and the effects, which list the sessions, quit nothing and start a new capture session. |
| Lifecycle.SecondCaptureUnlisted | watch.js:81 | Two clean cycles from start-up, each while `screen -ls` fails, start two `arduino-logs` capture sessions and quit none. |
| ArduinoCli.Resolves | watch.js:45-51 | No contract of its own. A child's promise resolves exactly on exit code 0; a non-zero code or a signal (`null`) rejects. Specified by `Lifecycle.UploadOnlyAfterCleanCompile`, `Lifecycle.FailedStepIsFatal` and `Lifecycle.ClearedOnlyByCleanUpload`. |
| ArduinoCli.CompileArgs | watch.js:35 | No contract of its own. The argument list of `arduino-cli compile`. Specified by `ArduinoCli.CompileAndUploadAgree`. |
| ArduinoCli.UploadArgs | watch.js:57 | No contract of its own. The argument list of `arduino-cli upload`. Specified by `ArduinoCli.CompileAndUploadAgree`. |
| Controller.Watcher.constructor | watch.js:141-145 | Start-up creates the scratch directory, watches the path and runs the initial `exec()`. The state and trace are those of a trigger on the initial state. |
| Controller.Watcher.KillScreen | watch.js:93-111 | Appends listing the sessions and, when the listing names one, quitting exactly the id `Screen.QuitTarget` gives. |
| Controller.Watcher.InterruptTail | watch.js:127-129 | Appends an interrupt of the held tail, if any. |
| Controller.Watcher.CreateScreen | watch.js:76-91 | Appends clearing and creating the log, starting the capture at 9600 baud, flushing, and spawning a fresh tail, which it returns. |
| Controller.SessionToQuit | watch.js:102-109 | Computes, step by step, the session id `killScreen` quits. It is exactly `Screen.QuitTarget` of the listing. |
| Controller.Watcher.Teardown | watch.js:148-155 | Appends, in order, stopping the watch, the effects of `killScreen`, the interrupt of the held tail, and removing the scratch directory. Specified further by `Controller.Watcher.OnSigint` and `Lifecycle.ShutdownSequence`. |
| Controller.Watcher.Reject | watch.js:22-30 | Appends `exit(1)` and marks the process exited. |
| Controller.Watcher.Exec | watch.js:113-132 | The new state and effects are exactly `Lifecycle.Step` on a trigger, and the invariant is kept. |
| Controller.Watcher.OnBuildExit | watch.js:45-57 | The new state and effects are exactly `Lifecycle.Step` on the compile's exit. |
| Controller.Watcher.OnUploadExit | watch.js:133-138 | The new state and effects are exactly `Lifecycle.Step` on the upload's exit. |
| Controller.Watcher.OnSigint | watch.js:147-158 | The new state and effects are exactly `Lifecycle.Step` on SIGINT. |

## Left out

- Spawning processes, forwarding their stdout and stderr, and the streaming of `tail -f` (watch.js:37-43, 59-65, 84-88) are I/O. Only the exit codes appear, as event inputs.
- The shell commands run through `execSync` (`mkdir`, `rm`, `touch`, `screen`) are recorded as effects and not executed. The model assumes they succeed, with one exception: the failure of `screen -ls`, which the source catches, is modelled. A failure of any other command would throw out of its caller and, inside `exec`, reach the `unhandledRejection` handler.
- The effects do not carry the timestamped `TMPDIR` or the `LOGFILE` path built from it (watch.js:7, 12).
- Console output is not modelled. This covers the `Reloading...` message, the only use of `exec`'s `isReload` parameter, so the initial run and a reload are the same `Trigger` event. It also covers the printing of the error in the `unhandledRejection` handler.
- Command-line handling (watch.js:10-17) is not modelled. `resolvePath` throws on a missing argument before the usage check can run, so the path is a parameter.
- `fsevents` and signal delivery are foreign calls. They appear as events.
- The promises are sequentialised. A rejection reaches the `unhandledRejection` handler during the same event as the exit that caused it.
  - An exit event means something only while `exec` awaits that child. Any other exit event changes nothing.
  - A SIGINT that arrives during a cycle ends the process. The in-flight child is not interrupted by the script.
- No flag records whether the capture session is alive, because the script keeps no such variable. The session is observed only through the listing given to each `killScreen`.
- The code cannot promise a single capture session. `execSync` throws when `screen -ls` fails or exits non-zero, and the catch at watch.js:96-100 drops the output, so nothing is quit. The next clean cycle then starts a second `arduino-logs` session on the same device (watch.js:81) while the first may still be running. `Lifecycle.SecondCaptureUnlisted` exhibits such a run. What the code does keep is proved as `Lifecycle.CaptureOnlyAfterKillScreen`: every start follows a `killScreen` since the previous start.
- A failed compile or upload does not clear `building` and does not return to idle. Instead the process exits with status 1, because the rejected promise of `exec` is never caught. The model follows this code. A design that clears the guard and returns to idle on failure is not what `watch.js` does.
