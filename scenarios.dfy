/**
 * Two runs of the `test` command worked out in full: a manifest with a
 * service without a test (`web`) and one with `pytest` (`worker`), run with
 * an existing release and a 1200-second placeholder, from a stdin that is
 * not a terminal and a terminal whose size cannot be read.
 */
module Scenarios {
  import opened Wrappers
  import opened Platform
  import opened TestCommand

  const WebAndWorker: seq<ServiceSpec> := [ServiceSpec("web", ""), ServiceSpec("worker", "pytest")]

  /** The platform replies when every spawn returns `p1` and every exec exits with `code`. */
  function WorkerReplies(code: int): nat -> ServiceReplies {
    k => ServiceReplies(Success("p1"), None, None, false, Exited(code))
  }

  function WorkerCalls(code: int): seq<Event> {
    [Manifest("r1", Success(WebAndWorker)),
     Announce("pytest", "worker"),
     ProcessRun("worker", "sleep 1200", "r1", Success("p1")),
     WaitRunning("p1", None),
     TerminalSize(None),
     StdinIsTerminal(false),
     ProcessExec("p1", "pytest", ExecOptions(Some(true), None, None, Some(false)), Exited(code)),
     ProcessStop("p1")]
  }

  /**
   * `web` is skipped, one placeholder running `sleep 1200` is spawned for
   * `worker`, `pytest` is executed in it with the TTY turned off, the
   * placeholder is stopped once at return, and the command succeeds.
   */
  lemma WorkerPasses()
    ensures Orchestrate(Flags("r1", 1200), Env(Failure("no build"), Success(WebAndWorker), WorkerReplies(0)))
            == Report(Ok, WorkerCalls(0))
  {
    assert SleepCommand(1200) == "sleep 1200";
  }

  /** The same run with `pytest` exiting with 2: the command fails with exit code 2, after the same calls. */
  lemma WorkerFails()
    ensures Orchestrate(Flags("r1", 1200), Env(Failure("no build"), Success(WebAndWorker), WorkerReplies(2)))
            == Report(ExitFailure(2), WorkerCalls(2))
  {
    assert SleepCommand(1200) == "sleep 1200";
  }
}
