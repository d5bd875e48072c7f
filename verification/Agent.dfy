/** cmd/agent/main.go: the agent's start-up and shutdown sequence, as the trace
    of the effects it has on the health flags and on the components.

    Everything the process waits for or cannot see is an input: the kernel's
    answers while loading, what the collection goroutine recovers if it
    panics, what the two listeners return, the order in which their shutdown
    results arrive, and the link's close error. The collector's panic, if any,
    is placed while the servers are running; the termination signal is simply
    the next step. */
module Agent {
  import opened Wrappers
  import Health
  import Metrics
  import BpfManager
  import Server

  datatype Event =
    | ManagerLoadFailed(error: BpfManager.ManagerError)
    | ManagerLoaded
    | ReadySet(ready: bool)
    | AliveSet(alive: bool)
    | CollectorStarted
    | ServersStarted
    | SignalReceived
    | ServersShutdown(err: Option<Server.ShutdownError>)
    | CollectorStopped
    | ManagerClosed

  datatype AgentEnv = AgentEnv(
    load: BpfManager.LoadEnv,
    collectorPanic: Metrics.Recovered,
    metricsExit: Server.ServeExit,
    healthExit: Server.ServeExit,
    metricsShutdown: Option<string>,
    healthShutdown: Option<string>,
    metricsShutdownFirst: bool,
    linkCloseErr: Option<string>)

  /** Whether loading the eBPF object with the default configuration fails. */
  predicate LoadFails(env: AgentEnv) {
    BpfManager.OpenError(BpfManager.DefaultConfig(), env.load).Some?
  }

  /** Every occurrence of `b` in `trace` comes after some occurrence of `a`. */
  predicate Precedes(trace: seq<Event>, a: Event, b: Event) {
    forall j :: 0 <= j < |trace| && trace[j] == b ==> a in trace[..j]
  }

  /** Every `ServersShutdown` comes after a `ReadySet(false)`. */
  predicate RevokedBeforeShutdown(trace: seq<Event>) {
    forall j :: 0 <= j < |trace| && trace[j].ServersShutdown? ==> ReadySet(false) in trace[..j]
  }

  /** Every `ReadySet(true)` immediately follows `ManagerLoaded`. */
  predicate ReadyRightAfterLoad(trace: seq<Event>) {
    forall i :: 0 <= i < |trace| && trace[i] == ReadySet(true) ==> 0 < i && trace[i - 1] == ManagerLoaded
  }

  /** The trace of a run whose manager loaded. */
  function ServingTrace(aliveCleared: bool, shutdownErr: Option<Server.ShutdownError>): seq<Event> {
    [ManagerLoaded, ReadySet(true), CollectorStarted, ServersStarted]
    + (if aliveCleared then [AliveSet(false)] else [])
    + [SignalReceived, ReadySet(false), ServersShutdown(shutdownErr), CollectorStopped, ManagerClosed]
  }

  /** The ordering properties of a run whose manager loaded. */
  lemma ServingTraceOrdered(aliveCleared: bool, shutdownErr: Option<Server.ShutdownError>)
    ensures var t := ServingTrace(aliveCleared, shutdownErr);
      && ReadySet(true) in t
      && ReadyRightAfterLoad(t)
      && Precedes(t, ReadySet(true), CollectorStarted)
      && Precedes(t, ReadySet(true), ServersStarted)
      && AliveSet(true) !in t
      && (AliveSet(false) in t <==> aliveCleared)
      && RevokedBeforeShutdown(t)
      && t[|t| - 2..] == [CollectorStopped, ManagerClosed]
  {
    ServingTraceStartup(aliveCleared, shutdownErr);
    ServingTraceShutdown(aliveCleared, shutdownErr);
  }

  /** Start-up: ready right after loading, before anything is started. */
  lemma ServingTraceStartup(aliveCleared: bool, shutdownErr: Option<Server.ShutdownError>)
    ensures var t := ServingTrace(aliveCleared, shutdownErr);
      && ReadySet(true) in t
      && ReadyRightAfterLoad(t)
      && Precedes(t, ReadySet(true), CollectorStarted)
      && Precedes(t, ReadySet(true), ServersStarted)
  {
    var t := ServingTrace(aliveCleared, shutdownErr);
    assert t[1] == ReadySet(true);
    forall j | 0 <= j < |t| && t[j] == CollectorStarted ensures ReadySet(true) in t[..j] {
      assert t[..j][1] == ReadySet(true);
    }
    forall j | 0 <= j < |t| && t[j] == ServersStarted ensures ReadySet(true) in t[..j] {
      assert t[..j][1] == ReadySet(true);
    }
  }

  /** Shutdown: liveness only cleared, readiness revoked first, cleanup last. */
  lemma ServingTraceShutdown(aliveCleared: bool, shutdownErr: Option<Server.ShutdownError>)
    ensures var t := ServingTrace(aliveCleared, shutdownErr);
      && AliveSet(true) !in t
      && (AliveSet(false) in t <==> aliveCleared)
      && RevokedBeforeShutdown(t)
      && t[|t| - 2..] == [CollectorStopped, ManagerClosed]
  {
    var t := ServingTrace(aliveCleared, shutdownErr);
    var n := if aliveCleared then 5 else 4;
    assert |t| == n + 5;
    forall j | 0 <= j < |t| && t[j].ServersShutdown? ensures ReadySet(false) in t[..j] {
      assert t[..j][n + 1] == ReadySet(false);
    }
  }

  /** main: returns the trace of effects and the kernel resources still live
      when the process ends. */
  method Run(env: AgentEnv)
    returns (trace: seq<Event>, shutdownErr: Option<Server.ShutdownError>, leaked: set<BpfManager.Resource>)
    // A failed load is fatal before anything else happens.
    ensures LoadFails(env) ==>
              trace == [ManagerLoadFailed(BpfManager.OpenError(BpfManager.DefaultConfig(), env.load).value)]
    // Ready is set only after the manager loaded, and before anything starts.
    // A loaded run goes through every step: both starts, the readiness
    // revocation, the shutdown and the cleanup.
    ensures !LoadFails(env) ==> trace == ServingTrace(env.collectorPanic.PanicError?, shutdownErr)
    ensures ReadySet(true) in trace <==> !LoadFails(env)
    ensures ReadyRightAfterLoad(trace)
    ensures Precedes(trace, ReadySet(true), CollectorStarted)
    ensures Precedes(trace, ReadySet(true), ServersStarted)
    // Liveness is only ever cleared, and only by the collector's error callback.
    ensures AliveSet(true) !in trace
    ensures AliveSet(false) in trace <==> !LoadFails(env) && env.collectorPanic.PanicError?
    // Readiness is revoked before the servers are shut down.
    ensures RevokedBeforeShutdown(trace)
    // A shutdown error is not fatal: the deferred cleanup still runs, in LIFO order.
    ensures !LoadFails(env) ==> |trace| >= 2 && trace[|trace| - 2..] == [CollectorStopped, ManagerClosed]
    // No kernel resource outlives the process's own cleanup, on either path.
    ensures leaked == {}
  {
    var checker := new Health.Checker();
    var kernel := new BpfManager.Kernel();
    var loaded := BpfManager.NewManager(BpfManager.DefaultConfig(), env.load, kernel);
    if loaded.Failure? {
      // log.Fatalf: the process exits before any defer is registered.
      trace := [ManagerLoadFailed(loaded.error)];
      assert ReadyRightAfterLoad(trace) by {
        assert forall i :: 0 <= i < |trace| ==> trace[i] == ManagerLoadFailed(loaded.error);
      }
      shutdownErr := None;
      leaked := kernel.live;
      return;
    }
    trace, shutdownErr := Serve(env, checker, loaded.value, kernel);
    leaked := kernel.live;
    ServingTraceOrdered(env.collectorPanic.PanicError?, shutdownErr);
  }

  /** The rest of main once the manager has loaded (its Close deferred). */
  method Serve(env: AgentEnv, checker: Health.Checker, manager: BpfManager.Manager, kernel: BpfManager.Kernel)
    returns (trace: seq<Event>, shutdownErr: Option<Server.ShutdownError>)
    requires checker.Valid() && checker.IsAlive()
    requires kernel.Valid() && manager.Valid()
    requires kernel.live == {manager.collection.value, manager.kprobeLink.value}
    modifies checker, kernel
    ensures trace == ServingTrace(env.collectorPanic.PanicError?, shutdownErr)
    // On exit the process reports not ready, and not alive only after a collector error.
    ensures checker.Valid() && !checker.IsReady()
    ensures checker.IsAlive() <==> !env.collectorPanic.PanicError?
    ensures kernel.live == {}
  {
    trace := [ManagerLoaded];

    checker.SetReady(true);
    trace := trace + [ReadySet(true)];
    assert checker.IsReady() && checker.IsAlive();

    var collector := new Metrics.Collector(5 * Metrics.Second, true);
    trace := trace + [CollectorStarted];
    // deferred: collector.Stop

    // Start never returns an error, so its log.Fatalf is never reached.
    var _ := Server.Start(env.metricsExit, env.healthExit);
    trace := trace + [ServersStarted];
    ghost var startup := trace;
    assert startup == [ManagerLoaded, ReadySet(true), CollectorStarted, ServersStarted];

    var report := Metrics.ReportPanic(env.collectorPanic, collector.hasOnError);
    if report.delivered.Some? {
      checker.SetAlive(false);
      trace := trace + [AliveSet(false)];
      assert !checker.IsAlive();
    }

    ghost var serving := trace;
    trace := trace + [SignalReceived];
    checker.SetReady(false);
    trace := trace + [ReadySet(false)];
    assert !checker.IsReady();

    shutdownErr := Server.Shutdown(env.metricsShutdown, env.healthShutdown, env.metricsShutdownFirst);
    trace := trace + [ServersShutdown(shutdownErr)];

    // Deferred calls run last-in first-out.
    trace := trace + [CollectorStopped];
    var _ := manager.Close(kernel, env.linkCloseErr);
    trace := trace + [ManagerClosed];
    assert trace == serving + [SignalReceived, ReadySet(false), ServersShutdown(shutdownErr), CollectorStopped, ManagerClosed];
  }
}
