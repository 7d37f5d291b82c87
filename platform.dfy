/**
 * What the `test` command exchanges with the rack (the remote platform), the
 * build, the manifest lookup and the local terminal. Every remote call and
 * every terminal query is an oracle: its reply is an input of the model, and
 * the model records each call, with the reply it got, as an `Event`.
 */
module Platform {
  import opened Wrappers

  /** Errors are opaque and are passed on unchanged. */
  type Error = string

  type ProcessId = string

  /** One service of a release's manifest; an empty `test` means it has no test. */
  datatype ServiceSpec = ServiceSpec(name: string, test: string)

  datatype TermSize = TermSize(width: int, height: int)

  /**
   * Options of a `ProcessExec` call. Every field is optional (a nil pointer in
   * the client): `None` leaves the platform's default in effect.
   */
  datatype ExecOptions = ExecOptions(
    entrypoint: Option<bool>,
    height: Option<int>,
    width: Option<int>,
    tty: Option<bool>)

  /** A `ProcessExec` either fails in transport or runs the command to an exit code. */
  datatype ExecResult = TransportError(error: Error) | Exited(code: int)

  /** The command-line flags `Test` reads: `--release` and `--timeout`. */
  datatype Flags = Flags(release: string, timeout: int)

  /**
   * The replies seen while handling the service at one manifest position:
   * `ProcessRun`, `WaitForProcessRunning` (`None` once the process runs),
   * the terminal size query, whether stdin is a terminal, and `ProcessExec`.
   */
  datatype ServiceReplies = ServiceReplies(
    spawn: Result<ProcessId, Error>,
    wait: Option<Error>,
    size: Option<TermSize>,
    stdinIsTerminal: bool,
    exec: ExecResult)

  /**
   * The world `Test` runs against: the build's release (or its error), the
   * manifest lookup's services (or its error), and the replies for the
   * service at each manifest position.
   */
  datatype Env = Env(
    build: Result<string, Error>,
    manifest: Result<seq<ServiceSpec>, Error>,
    replies: nat -> ServiceReplies)

  /** One call made by `Test`, with the reply it received. */
  datatype Event =
    | Build(built: Result<string, Error>)
    | Manifest(release: string, manifest: Result<seq<ServiceSpec>, Error>)
    | Announce(test: string, service: string)
    | ProcessRun(service: string, command: string, release: string, process: Result<ProcessId, Error>)
    | WaitRunning(id: ProcessId, waitError: Option<Error>)
    | TerminalSize(size: Option<TermSize>)
    | StdinIsTerminal(isTerminal: bool)
    | ProcessExec(id: ProcessId, command: string, opts: ExecOptions, exec: ExecResult)
    | ProcessStop(id: ProcessId)

  /** What `Test` returns: nil, an error passed on unchanged, or the `exit <code>` error. */
  datatype Outcome = Ok | Failed(error: Error) | ExitFailure(code: int)
}
