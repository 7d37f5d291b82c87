# convox `test` command — a Dafny model

This project models `Test` in `pkg/cli/test.go` of convox. It is the routine behind `convox test`, which runs each service's test against a release:

1. It resolves the release. This is the `--release` flag, or, when the flag is empty, the release a fresh build produces.
2. It fetches that release's manifest.
3. It walks the manifest's services in order, skipping every service without a test. For each remaining service it:
   - announces the test;
   - spawns a placeholder process running `sleep N` on the release;
   - defers a stop of that process;
   - waits until the process is running;
   - builds the exec options from the terminal;
   - runs the test inside the process.
4. It stops at the first failure.

Every deferred stop runs when the routine returns, newest first, on every return path.

## Structure

- **Platform replies.** The platform (build, manifest lookup, `ProcessRun`, the readiness wait, `ProcessExec`) and the terminal queries are inputs. An `Env` holds the build and manifest replies, plus one `ServiceReplies` per manifest position. A `ServiceReplies` holds the spawn, wait, terminal size, stdin-is-a-terminal and exec replies.
- **The trace.** Each run records every call it makes, together with the reply the call got, as a sequence of `Event`s.
- **`TestCommand.Test`** is the routine itself, written as an imperative method:
  - a loop over the services;
  - a trace that is only ever appended to;
  - a stack of pending stops, which each `return` flushes newest first (as Go's `defer` does).

  It is proved equal to the reference definition `TestCommand.Orchestrate`. That definition is built from four pieces:
  - `TestCommand.ExecOptionsFor`, the exec options (lines 74-85);
  - `TestCommand.ExecOutcome`, what an exec reply means (lines 87-94);
  - `TestCommand.ServiceStep`, the calls for one service with a test (lines 56-94);
  - `TestCommand.LoopFrom`, the loop over the services (lines 51-95).
- **`TraceProperties`** defines views of a trace:
  - the ids spawned;
  - the services announced;
  - the services spawned on;
  - the trace without its stops;
  - call order;
  - fail-fast.

  It also proves what one service's calls and the loop over the services guarantee.
- **`CommandProperties`** states the properties of the whole command for every platform reply.
- **`Scenarios`** works out two complete runs.
- **`Decimal`** renders the `%d` of `sleep %d` and proves it can be read back.

## Model

| member | source | states |
|---|---|---|
| `TestCommand.Test` | pkg/cli/test.go:28-98 | Two things hold on every return path: the result it returns and every call it makes (with replies, in order) are those of the reference definition `Orchestrate`. This covers the build/manifest early returns, the skip of test-less services, the spawn, wait and exec failures, the non-zero exit, and the deferred stops flushed in reverse. |
| `TestCommand.DeferredStops` | pkg/cli/test.go:68 | The stops run at return are one `ProcessStop` per pending process, in reverse order of pushing (last deferred runs first). |
| `TestCommand.PlaceholderTimeout` | pkg/cli/test.go:45-49 | The placeholder lifetime is always a positive number of seconds. |
| `Decimal.Format` | pkg/cli/test.go:59 | The rendering of a non-negative number is a non-empty string of decimal digits that starts with `0` only for zero. |
| `Decimal.ParseFormat` | pkg/cli/test.go:59 | Reading back the decimal rendering of `n` gives `n`. |
| `Decimal.FormatInjective` | pkg/cli/test.go:59 | Two numbers have the same decimal rendering exactly when they are equal. |
| `TraceProperties.SegmentFacts` | pkg/cli/test.go:56-94 | For one service with a test, the calls it makes: <br>• are only announce/run/wait/terminal/exec calls; <br>• spawn the placeholder on the given release and command; <br>• are in call order; <br>• defer exactly the ids they spawned; <br>• fail fast; <br>• announce that service, and spawn on that service, exactly once. |
| `TraceProperties.LoopFacts` | pkg/cli/test.go:51-95 | From any manifest position, the loop: <br>• only appends calls, and pushes exactly the ids it spawned onto the pending stops; <br>• makes no build, manifest or stop call; <br>• uses one release and one sleep command for every spawn; <br>• keeps call order and fails fast; <br>• announces a prefix of the tested services in manifest order (all of them when it finishes without failure), with one spawn per announcement, on the announced service. |
| `TraceProperties.LoopNoTests` | pkg/cli/test.go:51-54 | When no remaining service has a test, the loop makes no call, leaves the pending stops as they were and succeeds. |
| `CommandProperties.ReleaseResolution` | pkg/cli/test.go:29-40 | With a `--release` flag, no build is ever invoked, and the first call is the manifest lookup with exactly that release, which every manifest lookup and `ProcessRun` uses. Without the flag, the build is the first call and the only one. A build failure returns that error with no further call. Otherwise the built release goes to the manifest lookup and every `ProcessRun`. |
| `CommandProperties.ManifestFailure` | pkg/cli/test.go:40-43 | A manifest error is returned as-is. The lookup is the last call, and no spawn, wait, exec or stop is made. |
| `CommandProperties.PlaceholderCommand` | pkg/cli/test.go:45-63 | Every `ProcessRun` runs `SleepCommand(N)`, with the same `N` for every service: the `--timeout` flag when positive, 3600 otherwise (zero and negatives included). |
| `CommandProperties.SleepCommandNames` | pkg/cli/test.go:59 | The placeholder command is `sleep ` followed by the decimal digits of `N`, which read back to `N`. Different lifetimes give different commands. |
| `CommandProperties.TestedSelects` | pkg/cli/test.go:51-54 | The tested services of a manifest are exactly its services with a non-empty test. |
| `CommandProperties.TestedInManifestOrder` | pkg/cli/test.go:51-63 | The announced services are a prefix of the services with a test, in manifest order, and each announcement is followed by exactly one spawn on that service. On success, every service with a test was announced, so a test-less service is never announced or spawned. |
| `CommandProperties.CleanupAtReturn` | pkg/cli/test.go:63-68 | On every return path the trace is all other calls followed by one `ProcessStop` per successful spawn, in reverse spawn order. A failed spawn gets no stop, and no stop runs before the routine returns. |
| `CommandProperties.FailFast` | pkg/cli/test.go:87-97 | Leaving the stops aside, every call but the last succeeded, so no later service is started after a failure. The result is success exactly when the last call also succeeded. Otherwise it is that call's error unchanged (build, manifest, spawn, wait, exec transport), or `ExitFailure(code)` for a non-zero exit. |
| `CommandProperties.CallOrderHolds` | pkg/cli/test.go:56-87 | Everywhere in the trace: <br>• an announcement is immediately followed by a spawn on its service; <br>• a successful spawn is immediately followed by the wait for its process; <br>• a successful wait leads, through the terminal-size and stdin queries, to the exec; <br>• every exec directly follows the announcement of its test, the spawn that returned its process, and its successful wait. |
| `CommandProperties.ExecAfterWait` | pkg/cli/test.go:70-85 | An exec runs only on a process whose wait just succeeded. Its options always set the entrypoint. Width and height are set exactly when the terminal size query succeeded, with its values. TTY is set (to false) exactly when stdin is not a terminal. |
| `CommandProperties.NoTestsNoProcesses` | pkg/cli/test.go:51-97 | When no service has a test, the command succeeds after the resolution and manifest calls, with no spawn, exec or stop. |
| `Scenarios.WorkerPasses` | pkg/cli/test.go:51-97 | Manifest `web` (no test) and `worker` (`pytest`), release flag, timeout 1200, exit 0. `web` is skipped, and one `sleep 1200` placeholder is spawned for `worker`. `pytest` runs in it with TTY off, the placeholder is stopped once, and the result is success. |
| `Scenarios.WorkerFails` | pkg/cli/test.go:92-94 | The same run with `pytest` exiting 2 fails with exit code 2. The placeholder is stopped exactly once. |

## Left out

- **Command registration.** Registration and flag declarations in `init` (pkg/cli/test.go:14-26) are command-line scaffolding and are not modelled.
- **Platform internals.** These are replies, not models:
  - The build, the manifest lookup and the readiness wait. Their internals, including the readiness polling and its deadline, are not part of this model.
  - `ProcessRun` and `ProcessExec`. These are network calls.
- **Stop errors.** `ProcessStop` is recorded as a call. Its own error is discarded by the deferred call, so the model has no reply for it.
- **Terminal I/O.** The exec session's streaming through the terminal is not modelled. The terminal size and the stdin check are per-service replies, queried again for every service as in the source.
- **Progress line.** The formatted progress line (`Writef` markup) is recorded only as an `Announce(test, service)` event.
- **App name.** The app name passed to every platform call is the same throughout a run, so it is not recorded in the events.
- **Exit error text.** The `exit %d` error text is not rendered. `ExitFailure(code)` carries the code. Other errors are opaque strings passed through unchanged.
- `TestCommand.PlaceholderTimeout`: does not model Go's machine-width `int` for the `--timeout` flag. Integers are unbounded, so a timeout that would overflow `int` cannot arise in the model.
- **Cleanup timing.** No placeholder is stopped at the end of its own service's iteration. The `defer` at line 68 postpones every stop to the return of `Test`, so every placeholder spawned so far stays alive until the routine returns.
- **Panics.** A call that panics (the readiness wait at line 70, the terminal-size query at line 78, `ProcessExec` at line 87) unwinds through the pending stops, newest first, and then propagates instead of returning an error. The model's replies only succeed or fail with an error, so `CommandProperties.CleanupAtReturn` covers return paths only, not unwinding by a panic.
