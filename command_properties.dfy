/**
 * What the `test` command does, stated over the calls it makes (with their
 * replies) and the result it returns, for every build, manifest and
 * platform reply: release resolution, manifest failure, the placeholder
 * command, which services are tested and in what order, the per-service
 * call order and exec options, fail-fast, and the stops run at return.
 */
module CommandProperties {
  import opened Wrappers
  import opened Platform
  import opened TestCommand
  import opened TraceProperties
  import Decimal

  /** The release resolves and the manifest is found, so the services are handled. */
  predicate Proceeds(flags: Flags, env: Env) {
    (flags.release != "" || env.build.Success?) && env.manifest.Success?
  }

  /** The release every later call uses: the flag, else the one the build made. */
  function ReleaseUsed(flags: Flags, env: Env): string
    requires flags.release != "" || env.build.Success?
  {
    if flags.release == "" then env.build.value else flags.release
  }

  /** The calls before the per-service loop: the build (only without a flag), then the manifest lookup. */
  function Fetched(flags: Flags, env: Env): seq<Event>
    requires flags.release != "" || env.build.Success?
  {
    (if flags.release == "" then [Build(env.build)] else []) + [Manifest(ReleaseUsed(flags, env), env.manifest)]
  }

  /** A trace made of build and manifest calls only is in order and holds no spawn, announcement or stop. */
  lemma SetupOnly(f: seq<Event>)
    requires forall e | e in f :: e.Build? || e.Manifest?
    ensures CallOrder(f) && WithoutStops(f) == f
    ensures Spawned(f) == [] && Announced(f) == [] && Runs(f) == []
  {
    forall k
      ensures OrderedAt(f, k)
    {
      if 0 <= k < |f| {
        assert f[k] in f;
      }
    }
    CollectNothing(f, SpawnedBy);
    CollectNothing(f, AnnouncedBy);
    CollectNothing(f, RunBy);
    KeepsAll(f);
  }

  /**
   * On the path that reaches the loop, the trace is the setup calls, then
   * the calls `d` of the loop, then the stops of every process the loop
   * spawned, newest first; and `d` has the properties the loop guarantees.
   */
  lemma RunDecomposed(flags: Flags, env: Env) returns (d: seq<Event>)
    requires Proceeds(flags, env)
    ensures var rep := Orchestrate(flags, env);
            && rep.calls == Fetched(flags, env) + d + DeferredStops(Spawned(d))
            && LoopCallsOnly(d)
            && RunsUse(d, ReleaseUsed(flags, env), SleepCommand(PlaceholderTimeout(flags.timeout)))
            && CallOrder(d) && FailsFast(d, rep.outcome)
            && IsPrefix(Announced(d), Tested(env.manifest.value))
            && Runs(d) == Names(Announced(d))
            && (rep.outcome == Ok ==> Announced(d) == Tested(env.manifest.value))
  {
    var services := env.manifest.value;
    var f := Fetched(flags, env);
    var sleep := SleepCommand(PlaceholderTimeout(flags.timeout));
    var p := LoopFrom(services, 0, ReleaseUsed(flags, env), sleep, env.replies, f, []);
    LoopFacts(services, 0, ReleaseUsed(flags, env), sleep, env.replies, f, []);
    assert services[0..] == services;
    d := p.calls[|f|..];
    assert [] + Spawned(d) == Spawned(d);
  }

  /** The whole trace, seen through the observations, on the path that reaches the loop. */
  lemma WholeTrace(f: seq<Event>, d: seq<Event>)
    requires forall e | e in f :: e.Build? || e.Manifest?
    requires LoopCallsOnly(d) && CallOrder(d)
    ensures var t := f + d + DeferredStops(Spawned(d));
            && WithoutStops(t) == f + d && Spawned(t) == Spawned(d)
            && Announced(t) == Announced(d) && Runs(t) == Runs(d)
            && CallOrder(t)
  {
    WholeViews(f, d);
    WholeOrder(f, d);
  }

  lemma WholeViews(f: seq<Event>, d: seq<Event>)
    requires forall e | e in f :: e.Build? || e.Manifest?
    requires LoopCallsOnly(d)
    ensures var t := f + d + DeferredStops(Spawned(d));
            && WithoutStops(t) == f + d && Spawned(t) == Spawned(d)
            && Announced(t) == Announced(d) && Runs(t) == Runs(d)
  {
    var stops := DeferredStops(Spawned(d));
    assert forall e | e in stops :: e.ProcessStop?;
    SetupOnly(f);
    OnlyStops(stops);
    assert WithoutStops(d) == d by {
      KeepsAll(d);
    }
    WholeCollected(f, d, stops, SpawnedBy);
    WholeCollected(f, d, stops, AnnouncedBy);
    WholeCollected(f, d, stops, RunBy);
    WholeCollected(f, d, stops, KeptBy);
  }

  lemma WholeOrder(f: seq<Event>, d: seq<Event>)
    requires forall e | e in f :: e.Build? || e.Manifest?
    requires CallOrder(d)
    ensures CallOrder(f + d + DeferredStops(Spawned(d)))
  {
    var stops := DeferredStops(Spawned(d));
    assert forall e | e in stops :: e.ProcessStop?;
    SetupOnly(f);
    OnlyStops(stops);
    CallOrderAppend(f, d);
    CallOrderAppend(f + d, stops);
  }

  lemma WholeCollected<T>(f: seq<Event>, d: seq<Event>, stops: seq<Event>, g: Event -> seq<T>)
    ensures Collect(f + d + stops, g) == Collect(f, g) + Collect(d, g) + Collect(stops, g)
  {
    CollectAppend(f + d, stops, g);
    CollectAppend(f, d, g);
  }

  // ---------------------------------------------------------------------
  // The properties
  // ---------------------------------------------------------------------

  /**
   * With a `--release` flag the build is never invoked and that exact
   * release goes to the manifest lookup and to every `ProcessRun`. Without
   * one the build is invoked first, and only then; its failure is returned
   * at once with no further call, and otherwise its release is used.
   */
  lemma ReleaseResolution(flags: Flags, env: Env)
    ensures var rep := Orchestrate(flags, env); var t := rep.calls;
            && 0 < |t|
            && (flags.release != "" ==>
                  t[0] == Manifest(flags.release, env.manifest)
                  && (forall e | e in t :: !e.Build?)
                  && UsesRelease(t, flags.release))
            && (flags.release == "" ==>
                  t[0] == Build(env.build) && forall k :: 0 < k < |t| ==> !t[k].Build?)
            && (flags.release == "" && env.build.Failure? ==>
                  rep == Report(Failed(env.build.error), [Build(env.build)]))
            && (flags.release == "" && env.build.Success? ==>
                  1 < |t| && t[1] == Manifest(env.build.value, env.manifest)
                  && UsesRelease(t, env.build.value))
  {
    var t := Orchestrate(flags, env).calls;
    if flags.release == "" && env.build.Failure? {
    } else if env.manifest.Failure? {
      assert t == Fetched(flags, env);
      assert forall k :: 0 < k < |t| ==> t[k] == Manifest(ReleaseUsed(flags, env), env.manifest);
    } else {
      ReleaseInLoop(flags, env);
      var f := Fetched(flags, env);
      if flags.release != "" {
        forall e | e in t
          ensures !e.Build?
        {
          var k :| 0 <= k < |t| && t[k] == e;
        }
      } else {
        assert t[1] == f[1];
      }
    }
  }

  /**
   * On the path that reaches the loop, the trace starts with the setup calls,
   * no later call is a build, and every manifest lookup and spawn uses the
   * release resolved.
   */
  lemma ReleaseInLoop(flags: Flags, env: Env)
    requires Proceeds(flags, env)
    ensures var t := Orchestrate(flags, env).calls; var f := Fetched(flags, env);
            && |f| <= |t| && (forall k | 0 <= k < |f| :: t[k] == f[k])
            && (forall k | |f| <= k < |t| :: !t[k].Build?)
            && UsesRelease(t, ReleaseUsed(flags, env))
  {
    var t := Orchestrate(flags, env).calls;
    var d := RunDecomposed(flags, env);
    var f := Fetched(flags, env);
    var stops := DeferredStops(Spawned(d));
    assert t == f + (d + stops);
    assert forall e | e in stops :: e.ProcessStop?;
    forall k | |f| <= k < |t|
      ensures !t[k].Build?
    {
      assert t[k] in d + stops;
    }
    assert forall e | e in t :: e in f || e in d || e in stops;
  }

  /**
   * A manifest that cannot be fetched ends the command with that error;
   * nothing after the lookup is called: no spawn, wait, exec or stop.
   */
  lemma ManifestFailure(flags: Flags, env: Env)
    requires flags.release != "" || env.build.Success?
    requires env.manifest.Failure?
    ensures var rep := Orchestrate(flags, env);
            && rep.outcome == Failed(env.manifest.error)
            && rep.calls[|rep.calls| - 1] == Manifest(ReleaseUsed(flags, env), env.manifest)
            && forall e | e in rep.calls :: e.Build? || e.Manifest?
  {
    assert Orchestrate(flags, env).calls == Fetched(flags, env);
  }

  /**
   * Every placeholder runs `sleep N`, the same `N` for every service of a
   * run: the `--timeout` flag when it is positive, 3600 otherwise.
   */
  lemma PlaceholderCommand(flags: Flags, env: Env)
    ensures var n := if flags.timeout > 0 then flags.timeout else 3600;
            forall e | e in Orchestrate(flags, env).calls && e.ProcessRun? :: e.command == SleepCommand(n)
  {
    var t := Orchestrate(flags, env).calls;
    if Proceeds(flags, env) {
      var d := RunDecomposed(flags, env);
      var f := Fetched(flags, env);
      var stops := DeferredStops(Spawned(d));
      assert forall e | e in stops :: e.ProcessStop?;
      assert forall e | e in t :: e in f || e in d || e in stops;
    } else if flags.release == "" && env.build.Failure? {
    } else {
      assert t == Fetched(flags, env);
    }
  }

  /**
   * `SleepCommand(n)` is the text `sleep ` followed by the decimal digits of
   * `n`, and different lifetimes give different commands.
   */
  lemma SleepCommandNames(n: nat, m: nat)
    ensures var s := SleepCommand(n);
            && 6 < |s| && s[..6] == "sleep " && Decimal.AllDigits(s[6..])
            && Decimal.Parse(s[6..]) == n
    ensures SleepCommand(n) == SleepCommand(m) <==> n == m
  {
    var s := SleepCommand(n);
    assert s[6..] == Decimal.Format(n);
    Decimal.ParseFormat(n);
    if SleepCommand(n) == SleepCommand(m) {
      assert Decimal.Format(m) == SleepCommand(m)[6..];
      Decimal.FormatInjective(n, m);
    }
  }

  /** The services of a manifest that are tested are exactly those with a test. */
  lemma {:induction false} TestedSelects(services: seq<ServiceSpec>)
    ensures forall x | x in Tested(services) :: x in services && x.test != ""
    ensures forall x | x in services && x.test != "" :: x in Tested(services)
    decreases |services|
  {
    if services != [] {
      TestedSelects(services[1..]);
      assert forall x | x in services :: x == services[0] || x in services[1..];
    }
  }

  /** A manifest in which no service has a test has nothing to test. */
  lemma {:induction false} NothingTested(services: seq<ServiceSpec>)
    requires forall s | s in services :: s.test == ""
    ensures Tested(services) == []
    decreases |services|
  {
    if services != [] {
      assert services[0] in services;
      assert forall s | s in services[1..] :: s in services;
      NothingTested(services[1..]);
    }
  }

  /**
   * Services are announced and spawned in manifest order, only those with a
   * test, one spawn per announcement on the announced service; when the
   * command succeeds, every service with a test was handled. Without a
   * failure no service is left out, and after one none is started.
   */
  lemma TestedInManifestOrder(flags: Flags, env: Env)
    requires Proceeds(flags, env)
    ensures var rep := Orchestrate(flags, env); var t := rep.calls;
            && IsPrefix(Announced(t), Tested(env.manifest.value))
            && Runs(t) == Names(Announced(t))
            && (rep.outcome == Ok ==> Announced(t) == Tested(env.manifest.value))
  {
    var d := RunDecomposed(flags, env);
    WholeTrace(Fetched(flags, env), d);
  }

  /**
   * Every process whose spawn succeeded is stopped exactly once, after every
   * other call, in reverse spawn order, on every return path; a failed
   * spawn is never stopped.
   */
  lemma CleanupAtReturn(flags: Flags, env: Env)
    ensures var t := Orchestrate(flags, env).calls;
            t == WithoutStops(t) + DeferredStops(Spawned(t))
  {
    var t := Orchestrate(flags, env).calls;
    if Proceeds(flags, env) {
      var d := RunDecomposed(flags, env);
      WholeTrace(Fetched(flags, env), d);
    } else if flags.release == "" && env.build.Failure? {
      SetupOnly(t);
    } else {
      assert t == Fetched(flags, env);
      SetupOnly(t);
    }
  }

  /**
   * Fail-fast: every call but the last one before the stops got the reply
   * that lets the command go on; the command succeeds exactly when that last
   * one did too, and otherwise returns that call's error or exit code.
   */
  lemma FailFast(flags: Flags, env: Env)
    ensures var rep := Orchestrate(flags, env);
            FailsFast(WithoutStops(rep.calls), rep.outcome)
  {
    if Proceeds(flags, env) {
      FailFastInLoop(flags, env);
    } else {
      FailFastInSetup(flags, env);
    }
  }

  lemma FailFastInLoop(flags: Flags, env: Env)
    requires Proceeds(flags, env)
    ensures var rep := Orchestrate(flags, env);
            FailsFast(WithoutStops(rep.calls), rep.outcome)
  {
    var rep := Orchestrate(flags, env);
    var d := RunDecomposed(flags, env);
    var f := Fetched(flags, env);
    WholeViews(f, d);
    assert forall e | e in f :: Succeeded(e);
    FailsFastAfter(f, d, rep.outcome);
  }

  lemma FailFastInSetup(flags: Flags, env: Env)
    requires !Proceeds(flags, env)
    ensures var rep := Orchestrate(flags, env);
            FailsFast(WithoutStops(rep.calls), rep.outcome)
  {
    var rep := Orchestrate(flags, env);
    var t := rep.calls;
    SetupOnly(t);
    if flags.release == "" && env.build.Failure? {
      assert t == [] + [Build(env.build)];
      FailsFastOnLast([], Build(env.build), rep.outcome);
    } else {
      var setup := if flags.release == "" then [Build(env.build)] else [];
      assert t == setup + [Manifest(ReleaseUsed(flags, env), env.manifest)];
      assert forall e | e in setup :: Succeeded(e);
      FailsFastOnLast(setup, Manifest(ReleaseUsed(flags, env), env.manifest), rep.outcome);
    }
  }

  /** The calls for each service come in the order `OrderedAt` describes, everywhere in the trace. */
  lemma CallOrderHolds(flags: Flags, env: Env)
    ensures CallOrder(Orchestrate(flags, env).calls)
  {
    var t := Orchestrate(flags, env).calls;
    if Proceeds(flags, env) {
      var d := RunDecomposed(flags, env);
      WholeTrace(Fetched(flags, env), d);
    } else if flags.release == "" && env.build.Failure? {
      SetupOnly(t);
    } else {
      assert t == Fetched(flags, env);
      SetupOnly(t);
    }
  }

  /**
   * An exec runs only on a process whose wait just succeeded, and its
   * options follow the two terminal queries made right before it.
   */
  lemma ExecAfterWait(flags: Flags, env: Env)
    ensures var t := Orchestrate(flags, env).calls;
            forall k | 0 <= k < |t| && t[k].ProcessExec? ::
              3 <= k && t[k - 3] == WaitRunning(t[k].id, None)
              && t[k - 2].TerminalSize? && t[k - 1].StdinIsTerminal?
              && OptionsFollowTerminal(t[k].opts, t[k - 2].size, t[k - 1].isTerminal)
  {
    var t := Orchestrate(flags, env).calls;
    CallOrderHolds(flags, env);
    forall k | 0 <= k < |t| && t[k].ProcessExec?
      ensures 3 <= k && t[k - 3] == WaitRunning(t[k].id, None)
      ensures t[k - 2].TerminalSize? && t[k - 1].StdinIsTerminal?
      ensures OptionsFollowTerminal(t[k].opts, t[k - 2].size, t[k - 1].isTerminal)
    {
      assert OrderedAt(t, k);
    }
  }

  /** A manifest with no test makes the command succeed without spawning anything. */
  lemma NoTestsNoProcesses(flags: Flags, env: Env)
    requires Proceeds(flags, env)
    requires forall s | s in env.manifest.value :: s.test == ""
    ensures Orchestrate(flags, env) == Report(Ok, Fetched(flags, env))
  {
    var services := env.manifest.value;
    NothingTested(services);
    assert services[0..] == services;
    var sleep := SleepCommand(PlaceholderTimeout(flags.timeout));
    LoopNoTests(services, 0, ReleaseUsed(flags, env), sleep, env.replies, Fetched(flags, env), []);
  }
}
