/**
 * Properties of the calls `Test` makes, stated over the recorded trace
 * alone: which release is used, what the placeholder runs, which services
 * are tested and in what order, the order of the calls for one service, the
 * exec options, fail-fast, and the deferred stops run at return.
 */
module TraceProperties {
  import opened Wrappers
  import opened Platform
  import opened TestCommand
  import Decimal

  // ---------------------------------------------------------------------
  // Observing a trace
  // ---------------------------------------------------------------------

  /** Concatenation of `f(e)` over the events `e` of `t`, in order. */
  function Collect<T>(t: seq<Event>, f: Event -> seq<T>): seq<T> {
    if t == [] then [] else Collect(t[..|t| - 1], f) + f(t[|t| - 1])
  }

  lemma CollectSnoc<T>(t: seq<Event>, e: Event, f: Event -> seq<T>)
    ensures Collect(t + [e], f) == Collect(t, f) + f(e)
  {
    assert (t + [e])[..|t + [e]| - 1] == t;
  }

  lemma {:induction false} CollectAppend<T>(a: seq<Event>, b: seq<Event>, f: Event -> seq<T>)
    ensures Collect(a + b, f) == Collect(a, f) + Collect(b, f)
    decreases |b|
  {
    if b == [] {
      assert a + b == a;
    } else {
      var b' := b[..|b| - 1];
      assert a + b == (a + b') + [b[|b| - 1]];
      assert b == b' + [b[|b| - 1]];
      CollectSnoc(a + b', b[|b| - 1], f);
      CollectSnoc(b', b[|b| - 1], f);
      CollectAppend(a, b', f);
    }
  }

  /** `f` yields nothing for any event of `t`, so neither does the whole trace. */
  lemma {:induction false} CollectNothing<T>(t: seq<Event>, f: Event -> seq<T>)
    requires forall e | e in t :: f(e) == []
    ensures Collect(t, f) == []
    decreases |t|
  {
    if t != [] {
      assert forall e | e in t[..|t| - 1] :: e in t;
      CollectNothing(t[..|t| - 1], f);
    }
  }

  /** `f` keeps exactly the events of `t`, so the whole trace is kept. */
  lemma {:induction false} CollectEverything(t: seq<Event>, f: Event -> seq<Event>)
    requires forall e | e in t :: f(e) == [e]
    ensures Collect(t, f) == t
    decreases |t|
  {
    if t != [] {
      var init, last := t[..|t| - 1], t[|t| - 1];
      assert t == init + [last];
      assert forall e | e in init :: e in t;
      CollectEverything(init, f);
      assert f(last) == [last] by {
        assert last in t;
      }
    }
  }

  function SpawnedBy(e: Event): seq<ProcessId> {
    if e.ProcessRun? && e.process.Success? then [e.process.value] else []
  }

  /** Ids returned by the successful `ProcessRun` calls, in call order. */
  function Spawned(t: seq<Event>): seq<ProcessId> {
    Collect(t, SpawnedBy)
  }

  function AnnouncedBy(e: Event): seq<ServiceSpec> {
    if e.Announce? then [ServiceSpec(e.service, e.test)] else []
  }

  /** The services announced as tested, with their tests, in call order. */
  function Announced(t: seq<Event>): seq<ServiceSpec> {
    Collect(t, AnnouncedBy)
  }

  function RunBy(e: Event): seq<string> {
    if e.ProcessRun? then [e.service] else []
  }

  /** The services a placeholder was asked for, one per `ProcessRun` call, in call order. */
  function Runs(t: seq<Event>): seq<string> {
    Collect(t, RunBy)
  }

  /** The names of the services `ss`, in order. */
  function Names(ss: seq<ServiceSpec>): (names: seq<string>)
    ensures |names| == |ss| && forall k :: 0 <= k < |ss| ==> names[k] == ss[k].name
  {
    seq(|ss|, k requires 0 <= k < |ss| => ss[k].name)
  }

  function KeptBy(e: Event): seq<Event> {
    if e.ProcessStop? then [] else [e]
  }

  /** Every call except the `ProcessStop` calls. */
  function WithoutStops(t: seq<Event>): seq<Event> {
    Collect(t, KeptBy)
  }

  /** The services of a manifest that have a test, in manifest order. */
  function Tested(services: seq<ServiceSpec>): seq<ServiceSpec> {
    if services == [] then []
    else (if services[0].test == "" then [] else [services[0]]) + Tested(services[1..])
  }

  predicate IsPrefix<T(==)>(a: seq<T>, b: seq<T>) {
    |a| <= |b| && a == b[..|a|]
  }

  /** Whether a call got the reply that lets `Test` carry on. */
  predicate Succeeded(e: Event) {
    match e
    case Build(b) => b.Success?
    case Manifest(_, m) => m.Success?
    case ProcessRun(_, _, _, p) => p.Success?
    case WaitRunning(_, w) => w.None?
    case ProcessExec(_, _, _, x) => x == Exited(0)
    case _ => true
  }

  /** What `Test` returns after a call that did not succeed. */
  function FailureOf(e: Event): Outcome
    requires !Succeeded(e)
  {
    match e
    case Build(b) => Failed(b.error)
    case Manifest(_, m) => Failed(m.error)
    case ProcessRun(_, _, _, p) => Failed(p.error)
    case WaitRunning(_, w) => Failed(w.value)
    case ProcessExec(_, _, _, x) => if x.TransportError? then Failed(x.error) else ExitFailure(x.code)
  }

  ghost predicate AllSucceeded(t: seq<Event>) {
    forall e | e in t :: Succeeded(e)
  }

  /**
   * Every call but the last succeeded; the outcome is `Ok` exactly when the
   * last one did too, and otherwise is what the last call's failure means.
   */
  ghost predicate FailsFast(t: seq<Event>, outcome: Outcome) {
    && (forall k :: 0 <= k < |t| - 1 ==> Succeeded(t[k]))
    && (outcome == Ok <==> AllSucceeded(t))
    && (outcome != Ok ==> 0 < |t| && !Succeeded(t[|t| - 1]) && outcome == FailureOf(t[|t| - 1]))
  }

  ghost predicate NoStops(t: seq<Event>) {
    forall e | e in t :: !e.ProcessStop?
  }

  /** Only the calls of the per-service loop: no build, manifest lookup or stop. */
  ghost predicate LoopCallsOnly(t: seq<Event>) {
    forall e | e in t :: !e.Build? && !e.Manifest? && !e.ProcessStop?
  }

  /** Every `ProcessRun` runs `sleep` bound to `release`. */
  ghost predicate RunsUse(t: seq<Event>, release: string, sleep: string) {
    forall e | e in t && e.ProcessRun? :: e.release == release && e.command == sleep
  }

  /** Every manifest lookup and every `ProcessRun` uses `release`. */
  ghost predicate UsesRelease(t: seq<Event>, release: string) {
    forall e | e in t && (e.Manifest? || e.ProcessRun?) :: e.release == release
  }

  /** The exec options say what the terminal replies call for. */
  predicate OptionsFollowTerminal(opts: ExecOptions, size: Option<TermSize>, isTerminal: bool) {
    && opts.entrypoint == Some(true)
    && (size.Some? ==> opts.width == Some(size.value.width) && opts.height == Some(size.value.height))
    && (size.None? ==> opts.width.None? && opts.height.None?)
    && (opts.tty.Some? <==> !isTerminal)
    && opts.tty != Some(true)
  }

  /**
   * The five calls before an exec: the announcement of that test on a
   * service, the spawn on that service that returned the exec's process, the
   * successful wait for it, and the two terminal queries whose replies the
   * options follow.
   */
  predicate ExecPreceded(a: Event, r: Event, w: Event, z: Event, i: Event, x: Event)
    requires x.ProcessExec?
  {
    && r.ProcessRun? && a == Announce(x.command, r.service)
    && r.process == Success(x.id)
    && w == WaitRunning(x.id, None)
    && z.TerminalSize? && i.StdinIsTerminal?
    && OptionsFollowTerminal(x.opts, z.size, i.isTerminal)
  }

  /**
   * The calls around position `k` of `t` are in the order the source makes
   * them: an announcement is followed by the spawn on its service and every
   * spawn is announced; a wait comes right after the spawn that returned its
   * process and every spawned process is waited for; a successful wait leads,
   * through the two terminal queries, to an exec; and every exec comes right
   * after the five calls `ExecPreceded` describes.
   */
  predicate OrderedAt(t: seq<Event>, k: int) {
    0 <= k < |t| ==>
      && (t[k].Announce? ==> k + 1 < |t| && t[k + 1].ProcessRun? && t[k + 1].service == t[k].service)
      && (t[k].ProcessRun? ==> 0 < k && t[k - 1].Announce? && t[k - 1].service == t[k].service)
      && (t[k].ProcessRun? && t[k].process.Success? ==>
            k + 1 < |t| && t[k + 1].WaitRunning? && t[k + 1].id == t[k].process.value)
      && (t[k].WaitRunning? ==> 0 < k && t[k - 1].ProcessRun? && t[k - 1].process == Success(t[k].id))
      && (t[k].WaitRunning? && t[k].waitError.None? ==> k + 3 < |t| && t[k + 3].ProcessExec?)
      && (t[k].TerminalSize? ==> k + 2 < |t| && t[k + 2].ProcessExec?)
      && (t[k].StdinIsTerminal? ==> k + 1 < |t| && t[k + 1].ProcessExec?)
      && (t[k].ProcessExec? ==>
            5 <= k && ExecPreceded(t[k - 5], t[k - 4], t[k - 3], t[k - 2], t[k - 1], t[k]))
  }

  /** Every position of the trace is in call order. */
  ghost predicate CallOrder(t: seq<Event>) {
    forall k :: OrderedAt(t, k)
  }

  // ---------------------------------------------------------------------
  // How the observations combine
  // ---------------------------------------------------------------------

  lemma Observed(t: seq<Event>, e: Event)
    ensures Spawned(t + [e]) == Spawned(t) + SpawnedBy(e)
    ensures Announced(t + [e]) == Announced(t) + AnnouncedBy(e)
    ensures WithoutStops(t + [e]) == WithoutStops(t) + KeptBy(e)
    ensures Runs(t + [e]) == Runs(t) + RunBy(e)
  {
    CollectSnoc(t, e, RunBy);
    CollectSnoc(t, e, SpawnedBy);
    CollectSnoc(t, e, AnnouncedBy);
    CollectSnoc(t, e, KeptBy);
  }

  /** Call order is kept when two traces in call order are joined. */
  lemma CallOrderAppend(a: seq<Event>, b: seq<Event>)
    requires CallOrder(a) && CallOrder(b)
    ensures CallOrder(a + b)
  {
    var t := a + b;
    forall k
      ensures OrderedAt(t, k)
    {
      if 0 <= k < |a| {
        assert OrderedAt(a, k);
      } else if |a| <= k < |t| {
        assert OrderedAt(b, k - |a|);
        var j := k - |a|;
        if b[j].ProcessExec? {
          assert t[k - 5] == b[j - 5] && t[k - 4] == b[j - 4] && t[k - 3] == b[j - 3];
          assert t[k - 2] == b[j - 2] && t[k - 1] == b[j - 1];
        }
      }
    }
  }

  /** A run of successful calls followed by a fail-fast trace fails fast. */
  lemma FailsFastAfter(a: seq<Event>, b: seq<Event>, outcome: Outcome)
    requires AllSucceeded(a) && FailsFast(b, outcome)
    ensures FailsFast(a + b, outcome)
  {
    var t := a + b;
    forall k | 0 <= k < |t| - 1
      ensures Succeeded(t[k])
    {
      if k < |a| {
        assert t[k] in a;
      } else {
        assert t[k] == b[k - |a|];
      }
    }
    if outcome != Ok {
      assert t[|t| - 1] == b[|b| - 1];
      assert b[|b| - 1] in t;
    }
  }

  /** Successful calls followed by one last call fail fast on that call. */
  lemma FailsFastOnLast(prev: seq<Event>, e: Event, outcome: Outcome)
    requires AllSucceeded(prev)
    requires outcome == Ok <==> Succeeded(e)
    requires !Succeeded(e) ==> outcome == FailureOf(e)
    ensures FailsFast(prev + [e], outcome)
  {
    var t := prev + [e];
    forall k | 0 <= k < |t| - 1
      ensures Succeeded(t[k])
    {
      assert t[k] == prev[k] && prev[k] in prev;
    }
    assert t[|t| - 1] == e;
  }

  /** A trace of only stops keeps the call order and yields no spawn, announcement or other call. */
  lemma OnlyStops(t: seq<Event>)
    requires forall e | e in t :: e.ProcessStop?
    ensures CallOrder(t)
    ensures Spawned(t) == [] && Announced(t) == [] && Runs(t) == [] && WithoutStops(t) == []
  {
    forall k
      ensures OrderedAt(t, k)
    {
      if 0 <= k < |t| {
        assert t[k] in t;
      }
    }
    CollectNothing(t, SpawnedBy);
    CollectNothing(t, AnnouncedBy);
    CollectNothing(t, KeptBy);
    CollectNothing(t, RunBy);
  }

  /** Nothing but stops is left out of a trace without stops. */
  lemma KeepsAll(t: seq<Event>)
    requires NoStops(t)
    ensures WithoutStops(t) == t
  {
    CollectEverything(t, KeptBy);
  }

  // ---------------------------------------------------------------------
  // One service, and the loop over the services
  // ---------------------------------------------------------------------

  /** Handling a service appends its calls and its deferred stop to what came before. */
  lemma StepAppends(calls: seq<Event>, pending: seq<ProcessId>, s: ServiceSpec, release: string,
                    sleep: string, r: ServiceReplies)
    requires s.test != ""
    ensures var g := ServiceStep([], [], s, release, sleep, r);
            ServiceStep(calls, pending, s, release, sleep, r) ==
              Progress(calls + g.calls, pending + g.pending, g.outcome)
  {
    var g := ServiceStep([], [], s, release, sleep, r);
    var A := Announce(s.test, s.name);
    var R := ProcessRun(s.name, sleep, release, r.spawn);
    assert calls + [A] + [R] == calls + ([] + [A] + [R]);
    if r.spawn.Success? {
      var W := WaitRunning(r.spawn.value, r.wait);
      assert calls + [A] + [R] + [W] == calls + ([] + [A] + [R] + [W]);
      var Z := TerminalSize(r.size);
      var I := StdinIsTerminal(r.stdinIsTerminal);
      var X := ProcessExec(r.spawn.value, s.test, ExecOptionsFor(r.size, r.stdinIsTerminal), r.exec);
      assert calls + [A] + [R] + [W] + [Z] + [I] + [X] == calls + ([] + [A] + [R] + [W] + [Z] + [I] + [X]);
    }
  }

  /** What is true of the calls made for one service with a test, on their own. */
  ghost predicate SegmentSound(g: Progress, s: ServiceSpec, release: string, sleep: string) {
    && LoopCallsOnly(g.calls) && RunsUse(g.calls, release, sleep) && CallOrder(g.calls)
    && Spawned(g.calls) == g.pending && FailsFast(g.calls, g.outcome)
    && Announced(g.calls) == [s] && Runs(g.calls) == [s.name]
  }

  lemma SpawnFailedSegment(s: ServiceSpec, release: string, sleep: string, r: ServiceReplies)
    requires s.test != "" && r.spawn.Failure?
    ensures SegmentSound(ServiceStep([], [], s, release, sleep, r), s, release, sleep)
  {
    var g := ServiceStep([], [], s, release, sleep, r);
    var A := Announce(s.test, s.name);
    var R := ProcessRun(s.name, sleep, release, r.spawn);
    Observed([], A);
    Observed([] + [A], R);
    assert g.calls == [A, R];
    FailsFastOnLast([A], R, g.outcome);
    forall k
      ensures OrderedAt(g.calls, k)
    {
      if k == 0 {} else if k == 1 {}
    }
  }

  lemma WaitFailedSegment(s: ServiceSpec, release: string, sleep: string, r: ServiceReplies)
    requires s.test != "" && r.spawn.Success? && r.wait.Some?
    ensures SegmentSound(ServiceStep([], [], s, release, sleep, r), s, release, sleep)
  {
    var g := ServiceStep([], [], s, release, sleep, r);
    var A := Announce(s.test, s.name);
    var R := ProcessRun(s.name, sleep, release, r.spawn);
    var W := WaitRunning(r.spawn.value, r.wait);
    Observed([], A);
    Observed([] + [A], R);
    Observed([] + [A] + [R], W);
    assert g.calls == [A, R, W];
    FailsFastOnLast([A, R], W, g.outcome);
    forall k
      ensures OrderedAt(g.calls, k)
    {
      if k == 0 {} else if k == 1 {} else if k == 2 {}
    }
  }

  lemma ExecutedSegment(s: ServiceSpec, release: string, sleep: string, r: ServiceReplies)
    requires s.test != "" && r.spawn.Success? && r.wait.None?
    ensures SegmentSound(ServiceStep([], [], s, release, sleep, r), s, release, sleep)
  {
    ExecutedObserved(s, release, sleep, r);
    ExecutedInOrder(s, release, sleep, r);
  }

  /** The calls made for a service whose placeholder ran, one by one. */
  function ExecutedCalls(s: ServiceSpec, release: string, sleep: string, r: ServiceReplies): seq<Event>
    requires r.spawn.Success?
  {
    [] + [Announce(s.test, s.name)] + [ProcessRun(s.name, sleep, release, r.spawn)]
    + [WaitRunning(r.spawn.value, r.wait)] + [TerminalSize(r.size)] + [StdinIsTerminal(r.stdinIsTerminal)]
    + [ProcessExec(r.spawn.value, s.test, ExecOptionsFor(r.size, r.stdinIsTerminal), r.exec)]
  }

  lemma ExecutedObserved(s: ServiceSpec, release: string, sleep: string, r: ServiceReplies)
    requires s.test != "" && r.spawn.Success? && r.wait.None?
    ensures var g := ServiceStep([], [], s, release, sleep, r);
            && LoopCallsOnly(g.calls) && RunsUse(g.calls, release, sleep)
            && Spawned(g.calls) == g.pending && FailsFast(g.calls, g.outcome)
            && Announced(g.calls) == [s] && Runs(g.calls) == [s.name]
  {
    var g := ServiceStep([], [], s, release, sleep, r);
    var t := ExecutedCalls(s, release, sleep, r);
    assert g.calls == t;
    ExecutedCollected(s, release, sleep, r);
    assert t == t[..5] + [t[5]];
    FailsFastOnLast(t[..5], t[5], g.outcome);
  }

  lemma ExecutedCollected(s: ServiceSpec, release: string, sleep: string, r: ServiceReplies)
    requires r.spawn.Success?
    ensures var t := ExecutedCalls(s, release, sleep, r);
            Spawned(t) == [r.spawn.value] && Announced(t) == [s] && Runs(t) == [s.name]
  {
    var id := r.spawn.value;
    var t1 := [] + [Announce(s.test, s.name)];
    var t2 := t1 + [ProcessRun(s.name, sleep, release, r.spawn)];
    var t3 := t2 + [WaitRunning(id, r.wait)];
    var t4 := t3 + [TerminalSize(r.size)];
    var t5 := t4 + [StdinIsTerminal(r.stdinIsTerminal)];
    var t6 := t5 + [ProcessExec(id, s.test, ExecOptionsFor(r.size, r.stdinIsTerminal), r.exec)];
    Observed([], Announce(s.test, s.name));
    Observed(t1, ProcessRun(s.name, sleep, release, r.spawn));
    Observed(t2, WaitRunning(id, r.wait));
    Observed(t3, TerminalSize(r.size));
    Observed(t4, StdinIsTerminal(r.stdinIsTerminal));
    Observed(t5, ProcessExec(id, s.test, ExecOptionsFor(r.size, r.stdinIsTerminal), r.exec));
  }

  lemma ExecutedInOrder(s: ServiceSpec, release: string, sleep: string, r: ServiceReplies)
    requires s.test != "" && r.spawn.Success? && r.wait.None?
    ensures CallOrder(ServiceStep([], [], s, release, sleep, r).calls)
  {
    var t := ServiceStep([], [], s, release, sleep, r).calls;
    var id := r.spawn.value;
    assert t == [Announce(s.test, s.name), ProcessRun(s.name, sleep, release, r.spawn),
                 WaitRunning(id, r.wait), TerminalSize(r.size), StdinIsTerminal(r.stdinIsTerminal),
                 ProcessExec(id, s.test, ExecOptionsFor(r.size, r.stdinIsTerminal), r.exec)];
    forall k
      ensures OrderedAt(t, k)
    {
      if k == 0 {} else if k == 1 {} else if k == 2 {}
      else if k == 3 {} else if k == 4 {} else if k == 5 {}
    }
  }

  /** The calls made for one service with a test, on their own. */
  lemma SegmentFacts(s: ServiceSpec, release: string, sleep: string, r: ServiceReplies)
    requires s.test != ""
    ensures SegmentSound(ServiceStep([], [], s, release, sleep, r), s, release, sleep)
  {
    if r.spawn.Failure? {
      SpawnFailedSegment(s, release, sleep, r);
    } else if r.wait.Some? {
      WaitFailedSegment(s, release, sleep, r);
    } else {
      ExecutedSegment(s, release, sleep, r);
    }
  }

  /**
   * What the calls `d` added by the loop from position `i` on establish: the
   * stops now pending are the old ones followed by the spawned ids, only loop
   * calls are made, every spawn runs `sleep` on `release`, the calls are in
   * order, the loop fails fast, and the announced services are the tested
   * ones in manifest order — all of them when the loop finished.
   */
  ghost predicate LoopSound(services: seq<ServiceSpec>, i: nat, release: string, sleep: string,
                            calls0: seq<Event>, pending0: seq<ProcessId>, p: Progress)
    requires i <= |services|
  {
    && |calls0| <= |p.calls|
    && var d := p.calls[|calls0|..];
    && p.calls == calls0 + d
    && p.pending == pending0 + Spawned(d)
    && LoopCallsOnly(d) && RunsUse(d, release, sleep) && CallOrder(d)
    && FailsFast(d, p.outcome)
    && IsPrefix(Announced(d), Tested(services[i..]))
    && Runs(d) == Names(Announced(d))
    && (p.outcome == Ok ==> Announced(d) == Tested(services[i..]))
  }

  lemma TestedFrom(services: seq<ServiceSpec>, i: nat)
    requires i < |services|
    ensures Tested(services[i..]) ==
              (if services[i].test == "" then [] else [services[i]]) + Tested(services[i + 1..])
  {
    assert services[i..][0] == services[i];
    assert services[i..][1..] == services[i + 1..];
  }

  /** The loop's reference definition satisfies `LoopSound` from every position. */
  lemma {:induction false} LoopFacts(services: seq<ServiceSpec>, i: nat, release: string, sleep: string,
                                     replies: nat -> ServiceReplies, calls0: seq<Event>,
                                     pending0: seq<ProcessId>)
    requires i <= |services|
    ensures LoopSound(services, i, release, sleep, calls0, pending0,
                      LoopFrom(services, i, release, sleep, replies, calls0, pending0))
    decreases |services| - i
  {
    if i == |services| {
      LoopEndSound(services, i, release, sleep, calls0, pending0);
    } else if services[i].test == "" {
      LoopFacts(services, i + 1, release, sleep, replies, calls0, pending0);
      LoopSkipSound(services, i, release, sleep, calls0, pending0,
                    LoopFrom(services, i + 1, release, sleep, replies, calls0, pending0));
    } else {
      var s := services[i];
      var g := ServiceStep([], [], s, release, sleep, replies(i));
      StepAppends(calls0, pending0, s, release, sleep, replies(i));
      SegmentFacts(s, release, sleep, replies(i));
      TestedFrom(services, i);
      if g.outcome != Ok {
        LoopStopSound(services, i, release, sleep, calls0, pending0, g);
      } else {
        LoopFacts(services, i + 1, release, sleep, replies, calls0 + g.calls, pending0 + g.pending);
        LoopStepCombined(services, i, release, sleep, calls0, pending0, g,
                         LoopFrom(services, i + 1, release, sleep, replies, calls0 + g.calls, pending0 + g.pending));
      }
    }
  }

  /** At the end of the manifest the loop adds nothing and succeeds. */
  lemma LoopEndSound(services: seq<ServiceSpec>, i: nat, release: string, sleep: string,
                     calls0: seq<Event>, pending0: seq<ProcessId>)
    requires i == |services|
    ensures LoopSound(services, i, release, sleep, calls0, pending0, Progress(calls0, pending0, Ok))
  {
    assert calls0[|calls0|..] == [];
    assert services[i..] == [];
    forall k ensures OrderedAt([], k) {}
  }

  /** A service without a test adds nothing to what the rest of the loop does. */
  lemma LoopSkipSound(services: seq<ServiceSpec>, i: nat, release: string, sleep: string,
                      calls0: seq<Event>, pending0: seq<ProcessId>, p: Progress)
    requires i < |services| && services[i].test == ""
    requires LoopSound(services, i + 1, release, sleep, calls0, pending0, p)
    ensures LoopSound(services, i, release, sleep, calls0, pending0, p)
  {
    TestedFrom(services, i);
  }

  /** A service whose handling failed ends the loop with its calls. */
  lemma LoopStopSound(services: seq<ServiceSpec>, i: nat, release: string, sleep: string,
                      calls0: seq<Event>, pending0: seq<ProcessId>, g: Progress)
    requires i < |services| && services[i].test != ""
    requires SegmentSound(g, services[i], release, sleep) && g.outcome != Ok
    requires Tested(services[i..]) == [services[i]] + Tested(services[i + 1..])
    ensures LoopSound(services, i, release, sleep, calls0, pending0,
                      Progress(calls0 + g.calls, pending0 + g.pending, g.outcome))
  {
    assert (calls0 + g.calls)[|calls0|..] == g.calls;
  }

  /** A successful service segment `g` followed by the rest of the loop. */
  lemma LoopStepCombined(services: seq<ServiceSpec>, i: nat, release: string, sleep: string,
                         calls0: seq<Event>, pending0: seq<ProcessId>, g: Progress, p: Progress)
    requires i < |services| && services[i].test != ""
    requires SegmentSound(g, services[i], release, sleep) && g.outcome == Ok
    requires Tested(services[i..]) == [services[i]] + Tested(services[i + 1..])
    requires LoopSound(services, i + 1, release, sleep, calls0 + g.calls, pending0 + g.pending, p)
    ensures LoopSound(services, i, release, sleep, calls0, pending0, p)
  {
    var d' := p.calls[|calls0 + g.calls|..];
    var d := g.calls + d';
    assert p.calls[|calls0|..] == d && p.calls == calls0 + d;
    assert p.pending == pending0 + Spawned(d) by {
      CollectAppend(g.calls, d', SpawnedBy);
    }
    assert LoopCallsOnly(d) && RunsUse(d, release, sleep) by {
      JoinedCalls(g.calls, d', release, sleep);
    }
    assert CallOrder(d) by {
      CallOrderAppend(g.calls, d');
    }
    assert FailsFast(d, p.outcome) by {
      FailsFastAfter(g.calls, d', p.outcome);
    }
    AnnouncedJoined(services[i], g.calls, d');
  }

  /** One service's announcement and spawn followed by those of the rest of the loop. */
  lemma AnnouncedJoined(s: ServiceSpec, a: seq<Event>, b: seq<Event>)
    requires Announced(a) == [s] && Runs(a) == [s.name]
    requires Runs(b) == Names(Announced(b))
    ensures Announced(a + b) == [s] + Announced(b)
    ensures Runs(a + b) == Names(Announced(a + b))
  {
    CollectAppend(a, b, AnnouncedBy);
    CollectAppend(a, b, RunBy);
    assert Names([s] + Announced(b)) == [s.name] + Names(Announced(b));
  }

  lemma JoinedCalls(a: seq<Event>, b: seq<Event>, release: string, sleep: string)
    requires LoopCallsOnly(a) && RunsUse(a, release, sleep)
    requires LoopCallsOnly(b) && RunsUse(b, release, sleep)
    ensures LoopCallsOnly(a + b) && RunsUse(a + b, release, sleep)
  {
    assert forall e | e in a + b :: e in a || e in b;
  }

  /** When no service has a test, the loop makes no call and leaves the stops as they were. */
  lemma {:induction false} LoopNoTests(services: seq<ServiceSpec>, i: nat, release: string, sleep: string,
                                       replies: nat -> ServiceReplies, calls0: seq<Event>,
                                       pending0: seq<ProcessId>)
    requires i <= |services| && Tested(services[i..]) == []
    ensures LoopFrom(services, i, release, sleep, replies, calls0, pending0) == Progress(calls0, pending0, Ok)
    decreases |services| - i
  {
    if i < |services| {
      TestedFrom(services, i);
      LoopNoTests(services, i + 1, release, sleep, replies, calls0, pending0);
    }
  }
}
