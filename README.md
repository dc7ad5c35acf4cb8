# networkrecoverd monitoring state machine, in Dafny

networkrecoverd is a connectivity watchdog. It checks at a fixed interval whether the
internet is reachable. It counts consecutive failed checks. When an outage lasts for
`FAILURE_THRESHOLD` (3) checks, it asks the operator once whether to run a recovery
script. This project models the daemon's monitoring cycle and the loop that drives it,
and proves what the cycle promises.

- `monitor_core.dfy`, module `MonitorCore`: the specification, written as values.
  - `MonitorState` holds the counter and the prompt flag.
  - `Advance` is one cycle. It returns the next state and the cycle's event log, that is
    the calls made to the confirmation dialog (`Prompted`) and to the recovery script
    (`Recovered`), in order.
  - `Run` is the driver loop, a fold of `Advance` over a sequence of observations.
  - The lemmas state what holds across cycles.
- `daemon.dfy`, module `Daemon`: the daemon as it runs, proved against `MonitorCore`.
  - The class `MonitorRecord` is the dictionary that the daemon updates field by field.
  - `RunMonitoringCycle` writes into the record it is handed and returns that same record.
  - `RunDaemon` is the `while True` loop. Each cycle gets a fresh copy of the current record.
- `traces.dfy`, module `MonitorTraces`: the traces scripted in the daemon's test and in
  its simulation script, checked against `Run`.

The collaborators of a cycle are parameters:

- The reachability probe `has_internet` becomes the boolean `isOnline` of an `Observation`.
- The dialog `ask_user` becomes the boolean `userAccepts`. It is read only on the cycle that prompts.
- `run_dummy_recovery` becomes a `Recovered` entry in the event log. Its exit status never
  reaches the state machine.

The threshold is a parameter. `FailureThreshold` is the daemon's value, 3. The invariant
lemmas need `threshold >= 1`.

The daemon has one quirk, and the model keeps it. An accepted recovery leaves the state
`(0, true)`. Later offline cycles therefore only raise the counter and never prompt again
until an online observation clears the flag (`NoRepromptWhileFlagSet`, and the fourth
cycle of `SimulationTrace`).

Two consequences of the code as written:

- The daemon can reach `(k, true)` with `0 < k < threshold`, for example `(1, true)`
  after an accepted recovery and one more failure (`SimulationTrace`).
- The cycle writes into the record it is handed (`RunMonitoringCycle`) and does not roll
  back if `ask_user` raises. Only the loop's `state.copy()` (networkrecoverd/daemon.py:94)
  keeps cycles apart (`RunDaemon`).

## Model

| member | source | states |
|---|---|---|
| MonitorCore.Advance | networkrecoverd/daemon.py:26-52 | Online: the state becomes `(0, false)` whatever it was, and nothing is called. Offline: the counter rises by exactly one and keeps that value unless an accepted recovery resets it to 0. The flag is set by a prompt and is otherwise unchanged. A prompt happens exactly when the raised counter is `>= threshold` and the flag was clear. A recovery happens exactly when that prompt was answered yes. The log is one of `[]`, `[Prompted]` or `[Prompted, Recovered]` |
| MonitorCore.Run | networkrecoverd/daemon.py:93-94 | Runs the cycles one after another, each on the state the previous one left; the log of a run has at most two calls per cycle |
| MonitorCore.RunCallBounds | networkrecoverd/daemon.py:40-47 | Over any run, the number of prompts is at most the number of cycles, and the number of recoveries is at most the number of prompts. That each single cycle makes at most one prompt and at most one recovery is in `Advance`'s contract |
| MonitorCore.RunAppend | networkrecoverd/daemon.py:93-94 | Running two stretches of observations one after the other equals running the second from the state the first left, with the two logs joined. This lets the outage lemmas apply to an outage that comes after earlier cycles |
| MonitorCore.RunKeepsConsistent | networkrecoverd/daemon.py:29-50 | Every cycle keeps the invariant: the counter is never negative, and while the flag is clear the counter is below the threshold. So every state reachable from `(0, false)` satisfies it |
| MonitorCore.PromptFlagRisesOnlyAtThreshold | networkrecoverd/daemon.py:40-50 | In any state that keeps the invariant (every reachable state, by `RunKeepsConsistent`), the flag goes from false to true only in an offline cycle that raises the counter to exactly the threshold, and that cycle prompts |
| MonitorCore.RecoveryFollowsPrompt | networkrecoverd/daemon.py:43-47 | In the log of any run, every recovery comes immediately after a prompt. That the prompt belongs to the same cycle is in `Advance`'s contract |
| MonitorCore.NoRepromptWhileFlagSet | networkrecoverd/daemon.py:37-40 | Once the flag is set, any number of offline cycles only add to the counter: the flag stays set and nothing is called |
| MonitorCore.OnePromptPerOutage | networkrecoverd/daemon.py:37-50 | An outage that starts with the flag clear and the counter below the threshold prompts exactly once if it lasts long enough to reach the threshold and never otherwise. It recovers at most once. While it stays below the threshold, the state is `(initial counter + failed cycles, false)` and nothing has been called |
| MonitorCore.PromptOnCycleReachingThreshold | networkrecoverd/daemon.py:37-43 | Within such an outage, the prompt fires on exactly the cycle that brings the counter to the threshold |
| MonitorCore.OutageOutcome | networkrecoverd/daemon.py:37-50 | Such an outage, once it has reached the threshold at cycle `k`, ends exactly as follows. If the answer at cycle `k` is yes, the log is `[Prompted, Recovered]` and the state is `(cycles after k, true)`. Otherwise the log is `[Prompted]` and the state is `(initial counter + failed cycles, true)` |
| MonitorCore.ThresholdCycle | networkrecoverd/daemon.py:40-50 | Such an outage that ends on the cycle reaching the threshold leaves `(0, true)` with `[Prompted, Recovered]` on a yes, and `(threshold, true)` with `[Prompted]` on a no |
| MonitorCore.QuietAfterPrompt | networkrecoverd/daemon.py:37-40 | Offline cycles after a stretch that left the flag set add one to the counter each and nothing to the log |
| Daemon.MonitorRecord.constructor | networkrecoverd/daemon.py:83-86 | The new record holds the given counter and flag |
| Daemon.MonitorRecord.Copy | networkrecoverd/daemon.py:94 | The copy is a fresh record with the same contents |
| Daemon.RunMonitoringCycle | networkrecoverd/daemon.py:26-52 | Writes into the record it is handed and returns that same record. Its new contents and the calls it makes are exactly those of `Advance` on its old contents |
| Daemon.RunDaemon | networkrecoverd/daemon.py:83-95 | Starting from `(0, false)` and passing a copy of the record to each cycle, the final state and the log are those of `Run`, and the final state satisfies the invariant |
| MonitorTraces.PromptAndRecoveryFlow | test/test_monitoring_cycle.py:17-91 | With threshold 3: failures with the third prompt accepted give `(1, false)`, `(2, false)`, `(0, true)`, with one prompt and one recovery. A following online cycle gives `(0, false)`. The answers of the cycles that do not prompt do not matter |
| MonitorTraces.SimulationTrace | simulate_monitoring.py:19-35 | After the accepted prompt, a fourth failure gives `(1, true)` and does not prompt again. Online cycles then give `(0, false)`. The run makes one prompt and one recovery in all |
| MonitorTraces.DeclineTrace | networkrecoverd/daemon.py:48-50 | Three failures with the prompt declined give `(3, true)`. A fourth failure gives `(4, true)` and does not prompt again |

## Left out

- The reachability probe (`networkrecoverd/connectivity.py`) opens a TCP socket. It is the input `isOnline`. Its host and port parameters are ignored by the probe and do not appear in the model.
- The confirmation dialog (`networkrecoverd/notifications.py`) runs `zenity`. It is the input `userAccepts`. A dialog that fails to launch is not modelled.
- The recovery script runner (`networkrecoverd/recovery.py`) runs a subprocess and only logs the result. It is the `Recovered` event.
- `main`'s argument parsing, including the `--once` mode (one cycle whose result is discarded), is process plumbing and is not modelled. So are `load_dotenv` and the environment variables, the logging setup, `time.sleep(CHECK_INTERVAL)` and the `KeyboardInterrupt` exit.
- The `logger.info` calls inside the cycle have no effect on the state and are left out.
- Daemon.RunDaemon: the daemon's loop never ends. The model runs it over a finite sequence of observations, that is, over any finite prefix of the daemon's life.
