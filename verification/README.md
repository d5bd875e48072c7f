# tcp_connect agent, modelled in Dafny

The agent counts `tcp_connect()` calls per process and exports the counts.
It has four parts:

- **Kernel probe.** A kprobe program `on_tcp_connect` bumps a per-pid counter in the kernel hash map `counts`. The map holds at most 8192 entries.
- **Manager.** It loads the compiled object, attaches the probe and hands out the map. On every failure it releases what it has already acquired.
- **Collector.** Every interval it drains the map, sorts the entries by pid, and sets the gauge `tcp_connects_by_pid{pid, comm}` for each one. `comm` is read from `/proc/<pid>/comm`.
- **Servers.** One HTTP server exposes `/metrics`. A second serves `/readiness`, `/liveness` and `/health` from a shared health checker.

`main` ties the parts together. It loads the manager and marks the agent ready. It then starts the collector and the servers and waits for a signal. On the signal it revokes readiness, shuts the servers down and runs its deferred cleanup.

The modules follow the program's packages:

| module | source |
|---|---|
| `Procfs` | `internal/procfs/procfs.go`. `/proc` is a map from path to file content. |
| `Health` | `pkg/health/health.go`. `Checker` is a class whose two flags the setters update in place. |
| `TcpConnect` | `eBPF/tcpconnect.bpf.c`. `CountsMap` is a class over the kernel map; the probe `OnTcpConnect` is a module-level method that takes it and updates it in place. |
| `Metrics` | `pkg/metrics/collector.go`. `Collector` owns the gauge family as a map that `collect` updates. |
| `BpfManager` | `pkg/ebpf/manager.go`. A `Kernel` object hands out resources, tracks which are live, and logs every acquire and release. |
| `Server` | `pkg/server/server.go`. Routing, the result of `Start`, and the fold over the shutdown results. |
| `Agent` | `cmd/agent/main.go`. `main` as a trace of the effects it has. |
| `Ints`, `Wrappers` | u32/u64 subset types; `Option` and `Result`. |

The code behaves as follows where a reader might expect otherwise:

- `Manager.Close` does not clear its fields, so a second call releases everything again (`BpfManager.CloseTwice`).
- `Server.Manager.Shutdown` returns the error of the server whose result arrives last, not the first error.
- A listener that fails to bind only logs; `Start` still returns nil.
- `collect` never looks at the iterator's error. A failing iteration publishes only the entries read so far.

## Model

| member | source | states |
|---|---|---|
| Procfs.Decimal | internal/procfs/procfs.go:11 | The `%d` rendering of a pid is a non-empty digit string. It has a leading zero exactly when the pid is 0. |
| Procfs.DecimalRoundTrip | internal/procfs/procfs.go:11 | Parsing the decimal rendering gives back the number. |
| Procfs.DecimalInjective | internal/procfs/procfs.go:11 | Distinct numbers render differently. |
| Procfs.IsSpace | internal/procfs/procfs.go:15 | The white-space set `strings.TrimSpace` removes: Go's `unicode.IsSpace`. |
| Procfs.FirstNonSpace | internal/procfs/procfs.go:15 | The start index of the trim: everything before it, from `lo`, is white space, and the character at it is not. |
| Procfs.LastNonSpace | internal/procfs/procfs.go:15 | The stop index of the trim: everything from it up to `hi` is white space, and the character before it is not, unless it reached `lo`. |
| Procfs.FirstNonSpaceAt | internal/procfs/procfs.go:15 | The start scan stops exactly at the first non-space character. |
| Procfs.LastNonSpaceAt | internal/procfs/procfs.go:15 | The stop scan stops exactly after the last non-space character. |
| Procfs.TrimSpace | internal/procfs/procfs.go:15 | `strings.TrimSpace`: the result has no white space at either end and is the input with white-space runs cut from both ends. |
| Procfs.TrimSpaceUnique | internal/procfs/procfs.go:15 | Any string that is trimmed and cut from `s` by removing white space at its ends is exactly `TrimSpace(s)`. This is the reference definition. |
| Procfs.TrimSpaceIdempotent | internal/procfs/procfs.go:15 | Trimming twice equals trimming once. |
| Procfs.TrimFixesTrimmed | internal/procfs/procfs.go:15 | A string with no white space at its ends is left unchanged. |
| Procfs.CommPath | internal/procfs/procfs.go:11 | The path is `/proc/` + digits + `/comm`. The digits are exactly the unpadded decimal rendering of the pid, and they parse back to the pid. |
| Procfs.CommPathInjective | internal/procfs/procfs.go:11 | Distinct pids read distinct files. |
| Procfs.GetProcessName | internal/procfs/procfs.go:10-16 | A failed read gives "unknown". Otherwise the result is the file content with surrounding white space removed. |
| Procfs.ProcessNameIsTrimmed | internal/procfs/procfs.go:10-16 | The name has no surrounding white space on either path. |
| Health.Word | pkg/health/health.go:32-47 | The stored word is 1 for true and 0 for false. |
| Health.Checker.constructor | pkg/health/health.go:24-29 | A new checker is alive and not ready. |
| Health.Checker.SetReady | pkg/health/health.go:32-38 | Stores 1 or 0 into `ready` so that `IsReady` returns the argument. `alive` is untouched. |
| Health.Checker.SetAlive | pkg/health/health.go:41-47 | Stores 1 or 0 into `alive` so that `IsAlive` returns the argument. `ready` is untouched. |
| Health.Checker.IsReady | pkg/health/health.go:50-52 | True exactly when the stored word is 1. |
| Health.Checker.IsAlive | pkg/health/health.go:55-57 | True exactly when the stored word is 1. |
| Health.Checker.GetStatus | pkg/health/health.go:60-66 | The status carries both flags and the given time. |
| Health.Checker.LivenessHandler | pkg/health/health.go:70-77 | 200 "OK" if and only if alive; otherwise 503 "Not alive". |
| Health.Checker.ReadinessHandler | pkg/health/health.go:82-89 | 200 "Ready" if and only if ready; otherwise 503 "Not ready". |
| Health.Checker.HealthHandler | pkg/health/health.go:93-103 | 200 if and only if both ready and alive, else 503. The JSON body is the current status. |
| TcpConnect.PidOf | eBPF/tcpconnect.bpf.c:26 | The pid is the upper 32 bits of the 64-bit pid_tgid word. |
| TcpConnect.WrapInc | eBPF/tcpconnect.bpf.c:28 | A u64 increment that wraps to 0 after the largest value. |
| TcpConnect.CountsMap.LookupElem | eBPF/tcpconnect.bpf.c:27 | A slot is found exactly for a present key and holds its value. |
| TcpConnect.CountsMap.FetchAndAdd | eBPF/tcpconnect.bpf.c:28 | Returns the old value and stores its wrapped increment; other keys are unchanged. |
| TcpConnect.CountsMap.UpdateElem | eBPF/tcpconnect.bpf.c:17-22 | Overwrites or inserts while there is room. Inserting a new key into a full map (8192 entries) returns -E2BIG and changes nothing. |
| TcpConnect.Probe | eBPF/tcpconnect.bpf.c:25-31 | Only the caller's entry changes: it goes up by one, or is inserted as 1 if there is room. No key is lost and the bound of 8192 holds. |
| TcpConnect.OnTcpConnect | eBPF/tcpconnect.bpf.c:24-31 | Always returns 0 and leaves the map as `Probe` says. |
| TcpConnect.ProbeAllBounded | eBPF/tcpconnect.bpf.c:21 | Any run of probes keeps the map within 8192 entries, and grows it by at most one per call. |
| TcpConnect.ProbeAllKeeps | eBPF/tcpconnect.bpf.c:25-31 | Probes never remove a key. |
| TcpConnect.CountIsNumberOfConnects | eBPF/tcpconnect.bpf.c:25-31 | Given room and no wrap-around, a process's count is its earlier count plus its number of calls. It is present exactly when it was present before or made a call. |
| Metrics.EffectiveInterval | pkg/metrics/collector.go:42-44 | A zero interval becomes 5 s; any other value is kept. The result is never 0. |
| Metrics.ReportPanic | pkg/metrics/collector.go:63-71 | Every panic is logged. It reaches `onError` exactly when a callback is set and the value is an `error`. |
| Metrics.Drain | pkg/metrics/collector.go:90-97 | The list holds table entries with distinct pids. Without an iterator failure it holds every key; after one, it holds the entries read so far. |
| Metrics.DrainStep | pkg/metrics/collector.go:95-97 | Appending the entry of a pid not yet read keeps the list a duplicate-free selection of table entries, and removes that pid from those still to read. |
| Metrics.Swap | pkg/metrics/collector.go:100-102 | Exchanges two positions and keeps the multiset and pid distinctness. |
| Metrics.MinPidFrom | pkg/metrics/collector.go:100-102 | Finds a position of a smallest pid in the unsorted tail. |
| Metrics.SortByPid | pkg/metrics/collector.go:100-102 | The result is a permutation in ascending pid order, strictly ascending when the pids are distinct. |
| Metrics.SortedFromTable | pkg/metrics/collector.go:100-102 | Sorting keeps exactly the drained table entries and their pids. |
| Metrics.LabelsOf | pkg/metrics/collector.go:106-109 | The label pair of a pid: its decimal rendering and its process name. What it promises is stated by `LabelsOfInjective`. |
| Metrics.LabelsOfInjective | pkg/metrics/collector.go:106-109 | The pid label parses back to the pid, so distinct pids get distinct label pairs. |
| Metrics.PidsOfSnoc | pkg/metrics/collector.go:96 | Appending an entry adds exactly its pid. |
| Metrics.LabelSetSnoc | pkg/metrics/collector.go:105-111 | Publishing one more entry adds exactly its label pair. |
| Metrics.Publish | pkg/metrics/collector.go:105-111 | The gauge family after one `Set` per entry, in list order. What it promises is stated by `PublishKeys`, `PublishSetsEach` and `PublishKeepsOthers`. |
| Metrics.PublishSnoc | pkg/metrics/collector.go:105-111 | Publishing one more entry gives the earlier result with that entry's label pair set to its count. |
| Metrics.PublishKeys | pkg/metrics/collector.go:105-111 | After the update loop, the gauge holds the earlier label pairs plus those of the published entries. |
| Metrics.PublishSetsEach | pkg/metrics/collector.go:105-111 | With distinct pids, each published entry's label pair holds that entry's count. |
| Metrics.PublishKeepsOthers | pkg/metrics/collector.go:105-111 | Label pairs the cycle does not touch keep their earlier value. |
| Metrics.Collector.constructor | pkg/metrics/collector.go:31-53 | An empty gauge family named `tcp_connects_by_pid`, and the defaulted interval. |
| Metrics.Collector.UpdateGauges | pkg/metrics/collector.go:105-111 | The gauge becomes the fold of `Set` over the list, in list order. |
| Metrics.Collector.Collect | pkg/metrics/collector.go:89-112 | The entries published are table entries in strictly ascending pid order; without an iterator failure they cover every key. The gauge becomes their publication. |
| Metrics.CycleOutcome | pkg/metrics/collector.go:89-112 | After a full cycle, every pid of the table is published under (decimal pid, comm) with its count. Untouched earlier label pairs survive, and no label pair is removed. |
| BpfManager.DefaultConfig | pkg/ebpf/manager.go:26-33 | The default names are exactly the program, map and kprobe section that the object declares. |
| BpfManager.Kernel.Acquire | pkg/ebpf/manager.go:43-59 | A new resource becomes live and is logged. |
| BpfManager.Kernel.Release | pkg/ebpf/manager.go:63-66 | The resource stops being live. The release is logged even if it was already released. |
| BpfManager.OpenError | pkg/ebpf/manager.go:36-74 | Loading succeeds exactly when every step can succeed. The first failing step names the error, carrying the configured program or map name. |
| BpfManager.ReleaseLog | pkg/ebpf/manager.go:82-93 | Close logs the link's release before the collection's, and only for the handles that are set. |
| BpfManager.NewManager | pkg/ebpf/manager.go:36-74 | Fails exactly as `OpenError` says. Every failure releases what it acquired, the link before the collection, and leaves the live set as it was. Success holds a new collection, a new link, and the map inside the collection. |
| BpfManager.Manager.GetCountsMap | pkg/ebpf/manager.go:77-79 | On a loaded manager, the handle of the map owned by its collection. |
| BpfManager.Manager.Close | pkg/ebpf/manager.go:82-93 | Releases the link, then the collection. It returns the link's close error and ignores the collection's. The fields are left set. |
| BpfManager.CloseTwice | pkg/ebpf/manager.go:82-93 | A second Close releases both resources again and again returns the link's error: Close is not idempotent. |
| Server.ServeMetrics | pkg/server/server.go:32-38 | 200 with the exposition if and only if the path is exactly `/metrics`; otherwise 404 with the standard not-found body. |
| Server.HealthRouteOf | pkg/server/server.go:42-45 | Exactly the three registered paths have a handler, one each. |
| Server.ServeHealth | pkg/server/server.go:42-45 | Each registered path answers with its checker handler. |
| Server.Start | pkg/server/server.go:59-77 | Always returns nil. A listener logs exactly when it stopped with an error other than `ErrServerClosed`. |
| Server.LoggedExit | pkg/server/server.go:63-65 | The error line a listener logs: present exactly for an error other than `ErrServerClosed`. Its promise is stated by `Server.Start`. |
| Server.LastFailure | pkg/server/server.go:95-99 | A failure is kept exactly when one of the results failed. |
| Server.LastFailureIsLast | pkg/server/server.go:95-99 | The kept failure is the last failed result: it occurs among the results and every result after it succeeded. |
| Server.Shutdown | pkg/server/server.go:80-106 | Reports an error exactly when a listener failed. When both fail, it reports the one whose result arrived second. |
| Agent.ServingTraceOrdered | cmd/agent/main.go:26-70 | In a loaded run: ready is set right after loading and before the collector and the servers start. Alive is never set true. Readiness is revoked before shutdown. Cleanup runs last: collector, then manager. |
| Agent.ServingTraceStartup | cmd/agent/main.go:26-46 | Ready is set right after loading, and before the collector and the servers start. |
| Agent.ServingTraceShutdown | cmd/agent/main.go:37-70 | Alive is only ever cleared, and only after a collector error. Readiness is revoked before shutdown. The deferred cleanup comes last. |
| Agent.Serve | cmd/agent/main.go:29-70 | Produces the serving trace. Ends not ready, and not alive exactly after a collector error. Both kernel resources are released. |
| Agent.Run | cmd/agent/main.go:16-71 | A load failure is fatal and is the only event. Ready is set if and only if loading succeeded. Alive is cleared if and only if the collector reported an error. When loading succeeds, the trace is exactly `ServingTrace`: both servers start, readiness is set, alive is revoked only on a collector error, then shutdown with the returned shutdown error and cleanup follow, so the ordering properties of `ServingTraceOrdered` hold of it. No kernel resource is left live. |

## Left out

- Goroutines, the ticker loop and `stopChan` are not modelled. Calling `Collector.Stop` twice panics on the second `close`; that is not captured. One cycle is `Collect`.
- The atomics in `health.go` are not modelled. The flags are plain fields because the model has a single thread.
- `time.Now()` is a parameter of the handlers.
- The gauge stores the integer count; the `float64` conversion is not modelled.
- The promhttp handler is not modelled; its exposition text is an input of `ServeMetrics`.
- `prometheus.MustRegister` and its panic on a duplicate registration are not modelled.
- Response headers are not modelled, including the JSON content type.
- The JSON encoding is represented by the status value the body carries.
- The health mux's fallback for paths outside the three patterns is not modelled; `ServeHealth` returns `None` for them.
- `/proc` reads are a map from path to content: any absent path is a read error. The content is taken as already decoded Unicode text; UTF-8 decoding, and invalid UTF-8 in particular, is not modelled.
- Procfs.GetProcessName: takes a `nat` pid, where the Go function takes an `int` for which `%d` would print a leading minus sign. Its only caller passes a `uint32` pid converted to `int`, so no reachable behaviour is lost.
- The kernel's concurrent probe calls are not modelled; the atomic add is a single-threaded increment.
- The iterator's snapshot behaviour while the probe keeps writing is not modelled. The drained table is a fixed map, and the iteration order is an arbitrary choice.
- `ShutdownGracefully`'s 10-second deadline is not modelled. Each server's `Shutdown` result, and the order they arrive in, are inputs.
- Log output is modelled only as whether a line is written: the panic line of the collector goroutine (`Metrics.ReportPanic`) and the listener error lines of `Start` (`Server.Start`). The other log lines are not modelled: the "serving … on …" lines of the two listeners, every `log.Println` of `main`, the collection-error line of the `OnError` callback, and the shutdown-error line of `main`.
- The process exit of `log.Fatalf` is not modelled; the trace simply stops.
- The Unix signal is not modelled; it is the next step of the trace.
- The moment of a collector panic is not modelled. In `Agent.Run` the panic, if any, is placed after the servers start and before the signal; it cannot happen before readiness is set.
