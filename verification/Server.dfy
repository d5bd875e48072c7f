/** pkg/server/server.go: the metrics listener and the health listener.

    Request handling is reduced to the path of the request and the response it
    gets. What a listener's `ListenAndServe` and `Shutdown` eventually return
    are inputs, as is the order in which the two shutdown results arrive on
    the `done` channel. */
module Server {
  import opened Wrappers
  import Health

  const StatusNotFound := 404

  /** The body `http.NotFound` writes. */
  const NotFoundBody := "404 page not found\n"

  // ---------------------------------------------------------------------------
  // Routing
  // ---------------------------------------------------------------------------

  /** Metrics listener: `exposition` is what the Prometheus handler renders. */
  function ServeMetrics(path: string, exposition: string): (r: Health.Response)
    ensures r.code == Health.StatusOK <==> path == "/metrics"
    ensures path == "/metrics" ==> r.body == Health.Text(exposition)
    ensures path != "/metrics" ==> r == Health.Response(StatusNotFound, Health.Text(NotFoundBody))
  {
    if path == "/metrics" then Health.Response(Health.StatusOK, Health.Text(exposition))
    else Health.Response(StatusNotFound, Health.Text(NotFoundBody))
  }

  datatype HealthRoute = Readiness | Liveness | Detailed

  /** The three patterns registered on the health mux. Any other path is left
      to the mux's own fallback, which is not part of this model. */
  function HealthRouteOf(path: string): (r: Option<HealthRoute>)
    ensures r.Some? <==> path in {"/readiness", "/liveness", "/health"}
    ensures r == Some(Readiness) <==> path == "/readiness"
    ensures r == Some(Liveness) <==> path == "/liveness"
    ensures r == Some(Detailed) <==> path == "/health"
  {
    if path == "/readiness" then Some(Readiness)
    else if path == "/liveness" then Some(Liveness)
    else if path == "/health" then Some(Detailed)
    else None
  }

  /** Health listener: each registered path answers with its handler on the
      shared checker. */
  function ServeHealth(c: Health.Checker, path: string, now: int): (r: Option<Health.Response>)
    reads c
    requires c.Valid()
    ensures r.Some? <==> HealthRouteOf(path).Some?
    ensures path == "/readiness" ==> r == Some(c.ReadinessHandler())
    ensures path == "/liveness" ==> r == Some(c.LivenessHandler())
    ensures path == "/health" ==> r == Some(c.HealthHandler(now))
  {
    match HealthRouteOf(path)
    case None => None
    case Some(Readiness) => Some(c.ReadinessHandler())
    case Some(Liveness) => Some(c.LivenessHandler())
    case Some(Detailed) => Some(c.HealthHandler(now))
  }

  // ---------------------------------------------------------------------------
  // Start
  // ---------------------------------------------------------------------------

  /** What `ListenAndServe` returns when it stops; it never returns nil. */
  datatype ServeExit = ErrServerClosed | ServeError(msg: string)

  /** The error Start returns and the error lines its two goroutines log. */
  datatype StartReport = StartReport(err: Option<string>, metricsLog: Option<string>, healthLog: Option<string>)

  /** Start launches both listeners and returns nil at once; a listener that
      stops for any reason other than a requested shutdown only logs. */
  function Start(metricsExit: ServeExit, healthExit: ServeExit): (r: StartReport)
    ensures r.err.None?
    ensures r.metricsLog.Some? <==> metricsExit.ServeError?
    ensures r.healthLog.Some? <==> healthExit.ServeError?
    ensures metricsExit.ServeError? ==> r.metricsLog == Some(metricsExit.msg)
    ensures healthExit.ServeError? ==> r.healthLog == Some(healthExit.msg)
  {
    StartReport(None, LoggedExit(metricsExit), LoggedExit(healthExit))
  }

  /** The error line a listener logs when `ListenAndServe` returns: none for
      a requested shutdown, the error otherwise. */
  function LoggedExit(e: ServeExit): (line: Option<string>)
    ensures line.None? <==> e == ErrServerClosed
    ensures e.ServeError? ==> line == Some(e.msg)
  {
    if e.ServeError? then Some(e.msg) else None
  }

  // ---------------------------------------------------------------------------
  // Shutdown
  // ---------------------------------------------------------------------------

  /** `fmt.Errorf("server shutdown error: %w", err)`. */
  datatype ShutdownError = ShutdownError(cause: string)

  /** The last failure among the results, in arrival order. */
  function LastFailure(results: seq<Option<string>>): (f: Option<string>)
    ensures f.Some? <==> exists i :: 0 <= i < |results| && results[i].Some?
    decreases |results|
  {
    if results == [] then None
    else if results[|results| - 1].Some? then results[|results| - 1]
    else LastFailure(results[..|results| - 1])
  }

  /** The failure kept is the last one: it occurs in the results and only
      successes arrive after it. */
  lemma {:induction false} LastFailureIsLast(results: seq<Option<string>>)
    ensures LastFailure(results).Some? ==>
              exists i :: 0 <= i < |results| && results[i] == LastFailure(results) &&
                forall j :: i < j < |results| ==> results[j].None?
    decreases |results|
  {
    if results != [] {
      var n := |results| - 1;
      if results[n].Some? {
        assert results[n] == LastFailure(results);
      } else {
        var prefix := results[..n];
        LastFailureIsLast(prefix);
        if LastFailure(results).Some? {
          var i :| 0 <= i < |prefix| && prefix[i] == LastFailure(prefix) &&
                   forall j :: i < j < |prefix| ==> prefix[j].None?;
          assert results[i] == prefix[i];
          forall j | i < j < |results|
            ensures results[j].None?
          {
            if j < n {
              assert results[j] == prefix[j];
            }
          }
        }
      }
    }
  }

  /** Shutdown: receive both listeners' results from the `done` channel, in
      the order they arrive, keeping the last failure. It reports an error
      exactly when some listener failed; when both fail, the one that arrived
      second wins. */
  method Shutdown(metricsResult: Option<string>, healthResult: Option<string>, metricsFirst: bool)
    returns (r: Option<ShutdownError>)
    ensures r.None? <==> metricsResult.None? && healthResult.None?
    ensures metricsResult.Some? && healthResult.None? ==> r == Some(ShutdownError(metricsResult.value))
    ensures metricsResult.None? && healthResult.Some? ==> r == Some(ShutdownError(healthResult.value))
    ensures metricsResult.Some? && healthResult.Some? ==>
              r == Some(ShutdownError(if metricsFirst then healthResult.value else metricsResult.value))
  {
    var done := if metricsFirst then [metricsResult, healthResult] else [healthResult, metricsResult];
    var err: Option<string> := None;
    for i := 0 to 2
      invariant err == LastFailure(done[..i])
    {
      var e := done[i];
      if e.Some? {
        err := e;
      }
      assert done[..i + 1][..i] == done[..i];
    }
    assert done[..2] == done;
    if err.Some? {
      return Some(ShutdownError(err.value));
    }
    return None;
  }
}
