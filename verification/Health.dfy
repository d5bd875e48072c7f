/** pkg/health/health.go: the two-flag health state and its three probe
    handlers.

    Each flag is a 64-bit word holding 0 or 1, written by the setters and read
    by the getters; the atomic load/store of the source becomes a plain field
    access (one call at a time). A handler's answer is a `Response`: the status
    code (200 or 503, sections 15.3.1 and 15.6.4 of RFC 9110) and the body. */
module Health {

  const StatusOK := 200
  const StatusServiceUnavailable := 503

  /** The JSON document of the detailed handler; `timestamp` is the Unix
      second at which it was read. */
  datatype Status = Status(ready: bool, alive: bool, timestamp: int)

  datatype Body = Text(text: string) | Json(status: Status)

  datatype Response = Response(code: int, body: Body)

  /** The word a setter stores for a boolean. */
  function Word(b: bool): (w: int)
    ensures w == 0 || w == 1
    ensures w == 1 <==> b
  {
    if b then 1 else 0
  }

  class Checker {
    var ready: int
    var alive: int

    /** Both words only ever hold 0 or 1. */
    ghost predicate Valid()
      reads this
    {
      (ready == 0 || ready == 1) && (alive == 0 || alive == 1)
    }

    /** NewChecker: alive from the start, not ready until initialised. */
    constructor ()
      ensures Valid()
      ensures !IsReady() && IsAlive()
    {
      alive := 1;
      ready := 0;
    }

    /** The stored word read back as a boolean: any non-zero word the setters
        can leave behind reads as true. */
    function IsReady(): (r: bool)
      reads this
      requires Valid()
      ensures r <==> ready != 0
    {
      ready == 1
    }

    function IsAlive(): (r: bool)
      reads this
      requires Valid()
      ensures r <==> alive != 0
    {
      alive == 1
    }

    /** The new readiness depends on `b` alone, so setting the same value
        twice is the same as setting it once; liveness is untouched. */
    method SetReady(b: bool)
      requires Valid()
      modifies this
      ensures Valid()
      ensures IsReady() == b && ready == Word(b)
      ensures alive == old(alive)
    {
      if b {
        ready := 1;
      } else {
        ready := 0;
      }
    }

    method SetAlive(b: bool)
      requires Valid()
      modifies this
      ensures Valid()
      ensures IsAlive() == b && alive == Word(b)
      ensures ready == old(ready)
    {
      if b {
        alive := 1;
      } else {
        alive := 0;
      }
    }

    /** GetStatus; the wall clock reading `now` is an input. */
    function GetStatus(now: int): (s: Status)
      reads this
      requires Valid()
      ensures s.ready <==> ready == 1
      ensures s.alive <==> alive == 1
      ensures s.timestamp == now
    {
      Status(IsReady(), IsAlive(), now)
    }

    /** Liveness probe: 200 "OK" exactly when alive, otherwise 503 "Not alive". */
    function LivenessHandler(): (r: Response)
      reads this
      requires Valid()
      ensures r == Response(StatusOK, Text("OK")) <==> alive == 1
      ensures alive != 1 <==> r == Response(StatusServiceUnavailable, Text("Not alive"))
    {
      if IsAlive() then Response(StatusOK, Text("OK"))
      else Response(StatusServiceUnavailable, Text("Not alive"))
    }

    /** Readiness probe: 200 "Ready" exactly when ready, otherwise 503 "Not ready". */
    function ReadinessHandler(): (r: Response)
      reads this
      requires Valid()
      ensures r == Response(StatusOK, Text("Ready")) <==> ready == 1
      ensures ready != 1 <==> r == Response(StatusServiceUnavailable, Text("Not ready"))
    {
      if IsReady() then Response(StatusOK, Text("Ready"))
      else Response(StatusServiceUnavailable, Text("Not ready"))
    }

    /** Detailed probe: 200 exactly when both flags are set, 503 when either
        is clear; the JSON body reports the flags it read and the time. */
    function HealthHandler(now: int): (r: Response)
      reads this
      requires Valid()
      ensures r.code == StatusOK <==> ready == 1 && alive == 1
      ensures r.code == StatusOK || r.code == StatusServiceUnavailable
      ensures r.body.Json?
      ensures r.body.status.ready <==> ready == 1
      ensures r.body.status.alive <==> alive == 1
      ensures r.body.status.timestamp == now
    {
      var status := GetStatus(now);
      var code := if status.ready && status.alive then StatusOK else StatusServiceUnavailable;
      Response(code, Json(status))
    }
  }
}
