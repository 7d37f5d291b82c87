/**
 * The `test` command: resolve a release, fetch its manifest, and for every
 * service with a test run that test inside a placeholder process bound to
 * the release, stopping on the first failure. `Orchestrate` is the reference
 * definition of the calls made and the result; `Test` is the step-by-step
 * procedure with its deferred-stop stack, proved to agree with it.
 */
module TestCommand {
  import opened Wrappers
  import opened Platform
  import Decimal

  /** Seconds a placeholder lives when no positive `--timeout` is given. */
  const DefaultTimeout := 3600

  /** The placeholder's lifetime: the `--timeout` flag if positive, else the default. */
  function PlaceholderTimeout(flag: int): (seconds: nat)
    ensures 0 < seconds
  {
    if flag > 0 then flag else DefaultTimeout
  }

  /** The inert command the placeholder process runs. */
  function SleepCommand(seconds: nat): string {
    "sleep " + Decimal.Format(seconds)
  }

  /** The exec options built from the terminal size reply and the stdin check. */
  function ExecOptionsFor(size: Option<TermSize>, stdinIsTerminal: bool): ExecOptions {
    ExecOptions(
      Some(true),
      if size.Some? then Some(size.value.height) else None,
      if size.Some? then Some(size.value.width) else None,
      if stdinIsTerminal then None else Some(false))
  }

  /**
   * The `ProcessStop` calls that the deferred stops pending on `pending`
   * (pushed in spawn order) make when `Test` returns: the last one pushed
   * runs first.
   */
  function DeferredStops(pending: seq<ProcessId>): (stops: seq<Event>)
    ensures |stops| == |pending|
    ensures forall k :: 0 <= k < |pending| ==> stops[k] == ProcessStop(pending[|pending| - 1 - k])
  {
    if pending == [] then []
    else [ProcessStop(pending[|pending| - 1])] + DeferredStops(pending[..|pending| - 1])
  }

  /**
   * Where a run stands: every call made so far (with its reply), the process
   * ids whose stops are deferred (in spawn order, newest last), and whether
   * the run must now return (`outcome` is not `Ok`) or may go on.
   */
  datatype Progress = Progress(calls: seq<Event>, pending: seq<ProcessId>, outcome: Outcome)

  /** The result of `Test` and every call it made, in order. */
  datatype Report = Report(outcome: Outcome, calls: seq<Event>)

  /** What an exec reply means for the command. */
  function ExecOutcome(x: ExecResult): Outcome {
    match x
    case TransportError(e) => Failed(e)
    case Exited(code) => if code != 0 then ExitFailure(code) else Ok
  }

  /**
   * Handling one service that has a test, after the calls `calls` and with
   * the stops `pending` deferred: announce, spawn the placeholder, defer its
   * stop, wait for it, query the terminal, exec the test.
   */
  function ServiceStep(calls: seq<Event>, pending: seq<ProcessId>, s: ServiceSpec, release: string,
                       sleep: string, r: ServiceReplies): Progress
    requires s.test != ""
  {
    var announced := calls + [Announce(s.test, s.name)];
    var started := announced + [ProcessRun(s.name, sleep, release, r.spawn)];
    match r.spawn
    case Failure(e) => Progress(started, pending, Failed(e))
    case Success(id) =>
      var waited := started + [WaitRunning(id, r.wait)];
      match r.wait
      case Some(e) => Progress(waited, pending + [id], Failed(e))
      case None =>
        var sized := waited + [TerminalSize(r.size)];
        var checked := sized + [StdinIsTerminal(r.stdinIsTerminal)];
        var opts := ExecOptionsFor(r.size, r.stdinIsTerminal);
        var execd := checked + [ProcessExec(id, s.test, opts, r.exec)];
        Progress(execd, pending + [id], ExecOutcome(r.exec))
  }

  /** Handling the services from manifest position `i` on, stopping at the first failure. */
  function LoopFrom(services: seq<ServiceSpec>, i: nat, release: string, sleep: string,
                    replies: nat -> ServiceReplies, calls: seq<Event>, pending: seq<ProcessId>): Progress
    requires i <= |services|
    decreases |services| - i
  {
    if i == |services| then Progress(calls, pending, Ok)
    else if services[i].test == "" then LoopFrom(services, i + 1, release, sleep, replies, calls, pending)
    else
      var step := ServiceStep(calls, pending, services[i], release, sleep, replies(i));
      if step.outcome != Ok then step
      else LoopFrom(services, i + 1, release, sleep, replies, step.calls, step.pending)
  }

  /** Reference definition of the whole command: every call it makes and what it returns. */
  function Orchestrate(flags: Flags, env: Env): Report {
    var resolving := if flags.release == "" then [Build(env.build)] else [];
    var resolved := if flags.release == "" then env.build else Success(flags.release);
    if resolved.Failure? then Report(Failed(resolved.error), resolving)
    else
      var fetched := resolving + [Manifest(resolved.value, env.manifest)];
      if env.manifest.Failure? then Report(Failed(env.manifest.error), fetched)
      else
        var sleep := SleepCommand(PlaceholderTimeout(flags.timeout));
        var loop := LoopFrom(env.manifest.value, 0, resolved.value, sleep, env.replies, fetched, []);
        Report(loop.outcome, loop.calls + DeferredStops(loop.pending))
  }

  /**
   * The `test` command. `trace` is every call made, with its reply; each
   * `return` first runs the stops deferred so far, newest first.
   */
  method Test(flags: Flags, env: Env) returns (result: Outcome, trace: seq<Event>)
    ensures Report(result, trace) == Orchestrate(flags, env)
  {
    var pending: seq<ProcessId> := [];
    trace := [];

    var release := flags.release;
    if release == "" {
      var b := env.build;
      trace := trace + [Build(b)];
      if b.Failure? {
        result := Failed(b.error);
        trace := trace + DeferredStops(pending);
        return;
      }
      release := b.value;
    }

    var m := env.manifest;
    trace := trace + [Manifest(release, m)];
    if m.Failure? {
      result := Failed(m.error);
      trace := trace + DeferredStops(pending);
      return;
    }

    var timeout := DefaultTimeout;
    if flags.timeout > 0 {
      timeout := flags.timeout;
    }

    var services := m.value;
    ghost var sleep := SleepCommand(timeout);
    ghost var whole := LoopFrom(services, 0, release, sleep, env.replies, trace, pending);
    assert Orchestrate(flags, env) == Report(whole.outcome, whole.calls + DeferredStops(whole.pending)) by {
      assert PlaceholderTimeout(flags.timeout) == timeout;
      assert trace == (if flags.release == "" then [Build(env.build)] else []) + [Manifest(release, m)];
    }
    var i := 0;
    while i < |services|
      invariant i <= |services|
      invariant whole == LoopFrom(services, i, release, sleep, env.replies, trace, pending)
    {
      var s := services[i];
      if s.test == "" {
        i := i + 1;
        continue;
      }
      var r := env.replies(i);
      ghost var step := ServiceStep(trace, pending, s, release, sleep, r);

      trace := trace + [Announce(s.test, s.name)];
      var ps := r.spawn;
      trace := trace + [ProcessRun(s.name, SleepCommand(timeout), release, ps)];
      if ps.Failure? {
        result := Failed(ps.error);
        assert whole == step;
        trace := trace + DeferredStops(pending);
        return;
      }
      pending := pending + [ps.value];

      trace := trace + [WaitRunning(ps.value, r.wait)];
      if r.wait.Some? {
        result := Failed(r.wait.value);
        assert whole == step;
        trace := trace + DeferredStops(pending);
        return;
      }

      var eopts := ExecOptions(Some(true), None, None, None);
      var size := r.size;
      trace := trace + [TerminalSize(size)];
      if size.Some? {
        eopts := eopts.(height := Some(size.value.height), width := Some(size.value.width));
      }
      trace := trace + [StdinIsTerminal(r.stdinIsTerminal)];
      if !r.stdinIsTerminal {
        eopts := eopts.(tty := Some(false));
      }

      var x := r.exec;
      trace := trace + [ProcessExec(ps.value, s.test, eopts, x)];
      if x.TransportError? {
        result := Failed(x.error);
        assert whole == step;
        trace := trace + DeferredStops(pending);
        return;
      }
      if x.code != 0 {
        result := ExitFailure(x.code);
        assert whole == step;
        trace := trace + DeferredStops(pending);
        return;
      }
      i := i + 1;
    }

    result := Ok;
    trace := trace + DeferredStops(pending);
  }
}
