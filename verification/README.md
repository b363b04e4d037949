# cbdynclusterd daemon core in Dafny

This project models the daemon loop of `cbdynclusterd`, which hands out short-lived Couchbase test clusters in Docker containers (`daemon/daemon.go`). It covers five parts:

- **The expiry sweep** (`cleanupClusters`). It lists every cluster and picks the ones whose timeout lies before the current time. It tears them all down concurrently. It then drains one result per candidate and reports the first error drained.
- **The reconciler goroutine.** It waits for either the five-minute timer or the shutdown request. On the timer it sweeps and logs the sweep's error. On shutdown it acknowledges once and returns.
- **The shutdown handshake** in `startDaemon`. The listener returns. The main goroutine sends the shutdown request, waits for the acknowledgement, closes the meta-data store and reports completion.
- **Startup gating.** `startDaemon` opens the store, connects to Docker and requires a network named `macvlan0` (`hasMacvlan0`). Only then does it start the reconciler.
- **Configuration** (`initConfig`). A flag the user set beats the configuration file. The resolved Docker host becomes `tcp://<host>:<port>` only for a positive port.

Modules, one per file:

| module | file | contents |
|---|---|---|
| `Errors` | errors.dfy | Go's `error`, nil or not, and `(T, error)` results |
| `Clusters` | clusters.dfy | cluster and node records; when a cluster has expired |
| `Sweep` | sweep.dfy | candidate selection, the first-error drain, `cleanupClusters` |
| `Trace` | trace.dfy | the events of a daemon run and facts about event orders |
| `Reconciler` | reconciler.dfy | the reconciler loop as a function of what wakes its `select` |
| `Shutdown` | shutdown.dfy | one interleaved run of serving and shutdown, and its two goroutines' views |
| `Startup` | startup.dfy | `hasMacvlan0`, the startup checks and `startDaemon` as a whole |
| `Config` | config.dfy | flag/file precedence, `dockerHost` formatting and its inverse, `initConfig` |

Modelling decisions:

- **Clock readings.** The clock is read again for every cluster examined (`time.Now()` sits inside the loop). The sweep therefore takes one clock reading per listed cluster. With a single common reading the candidates are exactly the expired clusters. With a clock that never goes backwards, the expiry instants seen by the first and last readings bound the candidates.
- **Result channel.** The result channel is unbuffered (daemon/daemon.go:209). Each teardown goroutine blocks in its send until the drain loop receives from it. Any order in which the blocked senders are received is a drain-order permutation `schedule`, so every candidate's result is received exactly once.
- **Drain order.** The order in which teardown results arrive is a permutation (`schedule`) of the candidate positions. The sweep reports the first non-nil result in that order.
- **Concurrency.** The goroutines are modelled as one interleaved sequence of events. The reconciler's steps and the main goroutine's steps are recovered as two projections of that sequence. The shutdown request and its acknowledgement go over unbuffered channels, so each send and its receive are adjacent in the sequence.
- **Network listing failure.** A failed network listing panics in the source. The model records the panic as an abort of startup.
- **Failed config file creation.** When the default configuration file cannot be created, `initConfig` returns before assigning anything. The package defaults then stand, even over flags the user set (`Config.CreateFailureKeepsDefaults`).
- **Keys missing from the file.** The configuration library is not bound to the flags. A key missing from the configuration file therefore reads as `""` or 0, not as the flag's registered default (`Config.MissingKeysReadAsEmpty`).

## Model

| member | source | states |
|---|---|---|
| Sweep.ExpiredIdsSelection | daemon/daemon.go:202-207 | the candidates are the IDs of exactly those listed clusters whose timeout is before the clock reading taken for them, in listing order |
| Sweep.ExpiredIdsMembership | daemon/daemon.go:202-207 | an ID is a candidate if and only if some listed cluster with that ID had expired when it was examined |
| Sweep.SingleReadingMembership | daemon/daemon.go:202-207 | with one clock reading for all clusters, an ID is a candidate if and only if a listed cluster with that ID expired before that instant |
| Sweep.AllExpiredAtStart | daemon/daemon.go:203-206 | with a clock that never goes backwards, when every cluster had expired by the first reading, all of them are candidates, in listing order |
| Sweep.ClockBoundsCandidates | daemon/daemon.go:203-206 | with a clock that never goes backwards, a cluster expired by the first reading is a candidate, and a cluster with a unique ID whose timeout is at or after the last reading is not |
| Sweep.NoneExpiredAtEnd | daemon/daemon.go:203-206 | with a clock that never goes backwards, when no timeout is before the last reading, there are no candidates |
| Sweep.ExpiryBoundaryScenario | daemon/daemon.go:202-207 | of four clusters whose timeouts are 60 and 1 time units before the reading, equal to it, and 600 after it, only the first two are candidates, in listing order |
| Sweep.CollectExpired | daemon/daemon.go:202-207 | the selection loop builds exactly the candidate list |
| Sweep.FirstError | daemon/daemon.go:217-223 | the drained error is nil exactly when every result was nil; a non-nil one is one of the results |
| Sweep.FirstErrorIsEarliest | daemon/daemon.go:217-223 | a non-nil drained error is the first non-nil result; every result before it was nil |
| Sweep.FirstErrorAppend | daemon/daemon.go:217-223 | results drained after the first failure cannot change the reported error; before one, the later results decide |
| Sweep.Drain | daemon/daemon.go:217-228 | the drain loop receives one result per candidate and keeps the first non-nil one, nil when all succeeded |
| Sweep.Received | daemon/daemon.go:209-219 | the results as the drain receives them: a permutation of the per-candidate results, so each candidate's result is received exactly once |
| Sweep.DrainedIsPermutation | daemon/daemon.go:211-219 | receiving the results in any order that takes each goroutine's send once yields a permutation of the per-candidate results |
| Sweep.CleanupClusters | daemon/daemon.go:194-229 | a listing error is returned with nothing torn down; otherwise exactly the expired clusters are torn down, one result is received per candidate, and the sweep fails exactly when some teardown failed, with one of those errors |
| Sweep.FirstFailureInDrainOrder | daemon/daemon.go:209-228 | a failed sweep reports the first failure in the order the results arrive, whatever order the teardowns were launched in |
| Sweep.SingleFailure | daemon/daemon.go:209-228 | when exactly one teardown fails, the sweep reports that failure whatever the arrival order, after receiving every result |
| Sweep.NothingExpired | daemon/daemon.go:202-228 | when no cluster has expired nothing is torn down, nothing is awaited, and the sweep succeeds |
| Reconciler.Run | daemon/daemon.go:276-290 | the loop over the wakes its `select` observes: it returns exactly when a shutdown request is among them, and then its last step is the acknowledgement |
| Reconciler.AckIsLast | daemon/daemon.go:276-290 | the loop returns exactly when a shutdown request arrives; its acknowledgement is its last step and occurs nowhere else, so no sweep follows it |
| Reconciler.StopsAtFirstShutdown | daemon/daemon.go:278-283 | the loop acts on the first shutdown request: it sweeps once per earlier timer wake, acknowledges, and observes nothing after |
| Reconciler.SweepErrorsNeverStop | daemon/daemon.go:282-288 | a sweep error is only logged: without a shutdown request the loop keeps running, sweeps once per timer wake and logs every failed sweep's error |
| Reconciler.FailedSweepLogged | daemon/daemon.go:285-288 | the error of a failed sweep is logged, whatever wakes follow it |
| Reconciler.RunAppend | daemon/daemon.go:276-290 | the loop keeps no state between iterations: running it over two periods, the first without shutdown, is running it over each in turn |
| Shutdown.CoordinatorSteps | daemon/daemon.go:351-368 | the main goroutine's steps from the listener's return: they start with that return and end with the completion report |
| Shutdown.ServeAndShutdown | daemon/daemon.go:351-368 | one run of serving and shutdown, sweeps interleaved before and after the listener returns; completion is its last step |
| Shutdown.Interleaving | daemon/daemon.go:272-368 | in a run of serving and shutdown, the reconciler's steps are exactly the loop's steps over its timer wakes followed by the shutdown request, and the main goroutine's are exactly its own: the listener returns, shutdown is requested, acknowledged, the store is closed and completion is reported |
| Shutdown.HandshakeOrder | daemon/daemon.go:351-368 | the listener returns before shutdown is requested, the request precedes the acknowledgement, which precedes its receipt, which precedes closing the store; every sweep comes before the acknowledgement and completion is the last step |
| Shutdown.CloseFailureOnlyLogged | daemon/daemon.go:361-368 | a failure to close the store is logged, and logged only when it happened; shutdown still completes last, after one sweep per timer wake |
| Startup.HasMacvlan0 | daemon/daemon.go:179-192 | true exactly when some listed network is named `macvlan0` |
| Startup.BootChecks | daemon/daemon.go:246-267 | startup passes exactly when the store opened, Docker connected, the networks were listed and one is `macvlan0`; the earliest failing check is the reported cause |
| Startup.StartupSteps | daemon/daemon.go:246-276 | the startup steps end with the reconciler's start exactly when every check passed and with the abort otherwise; the store-opened step appears exactly when the store opened, and the Docker step exactly when the store and Docker both succeeded |
| Startup.StartDaemon | daemon/daemon.go:246-368 | the whole run ends with the completion report when every check passed, and with the abort otherwise |
| Startup.FailedStartupStartsNothing | daemon/daemon.go:246-267 | after a failed check the run ends with the abort: no reconciler, no sweep, no listener, no store close, and no Docker contact when the store did not open |
| Startup.ReconcilerStartsOnlyAfterChecks | daemon/daemon.go:246-290 | the reconciler starts exactly when every check passed, after the store, Docker and `macvlan0` steps in that order, and every sweep follows its start |
| Config.StringArg | daemon/daemon.go:99-105 | a set string flag wins; otherwise the file's value, or the empty string when the file lacks the key |
| Config.Int32Arg | daemon/daemon.go:107-113 | a set integer flag wins; otherwise the file's value, or 0 when the file lacks the key |
| Config.UnsetFlagValueIgnored | daemon/daemon.go:99-105 | the value of a flag the user did not set never affects the setting |
| Config.SetFlagOverridesFile | daemon/daemon.go:99-105 | once the user sets a flag, the configuration file's contents no longer affect the setting |
| Config.DecimalDigits | daemon/daemon.go:124-126 | a port prints as a non-empty digit string with no leading zero |
| Config.DockerHost | daemon/daemon.go:124-126 | a non-positive port leaves the host as it is; a positive one gives a `tcp://` URL whose last ':' separates exactly the host from the port's digits |
| Config.ParsePrinted | daemon/daemon.go:124-126 | the printed port reads back as the same number |
| Config.PrintParsed | daemon/daemon.go:124-126 | a digit string without a leading zero is the printed form of the number it denotes |
| Config.ParseTcpHost | daemon/daemon.go:124-126 | whatever a TCP host URL reads back as formats to that same URL with a positive port |
| Config.TcpHostRoundTrip | daemon/daemon.go:124-126 | the URL formatted for a host and positive port reads back as exactly that host and port, whatever the host contains |
| Config.ResolvedDockerHost | daemon/daemon.go:115-126 | the resolved Docker host is the resolved host string for a non-positive port, and otherwise a URL that reads back as the resolved host and port |
| Config.Resolve | daemon/daemon.go:115-126 | the settings from flags and file: a set registry or DNS flag is used as is, and with host and port flags both set the Docker host depends on them alone |
| Config.Written | daemon/daemon.go:129-144 | the file `createConfigFile` writes holds the port exactly when it is positive, and read back with no flag set reproduces the settings the flags describe |
| Config.InitConfig | daemon/daemon.go:70-126 | the process exits exactly when the home directory cannot be found; when the default file cannot be created the package defaults stand |
| Config.ExistingFileResolves | daemon/daemon.go:70-126 | with a file given on the command line or an existing default file: a set flag's value is the setting, an unset flag whose key the readable file holds takes the file's value, a missing key or unreadable file gives the empty value, and the Docker host reads back as the resolved host and port for a positive port |
| Config.CreateFailureKeepsDefaults | daemon/daemon.go:87-91 | when the default file cannot be created, the settings are the package defaults even over flags the user set |
| Config.FreshFileMirrorsFlags | daemon/daemon.go:129-144 | after the default file is created from the flags, every setting resolves to its flag's value, set by the user or not |
| Config.MissingKeysReadAsEmpty | daemon/daemon.go:99-126 | with no flag set and a file lacking the keys, every setting is empty rather than its registered default |

## Left out

- Docker, the meta-data store, the HTTP server and the operating-system signal watcher are outside the model. Their outcomes are inputs: the open, connect, list, serve and close results, and the sweep outcome carried by each timer wake.
- `getAllClusters` and `killCluster`, with the system caller context's privileges, are not part of this model. The listing and each teardown outcome are inputs.
- The clock and the five-minute timer are inputs. The clock is one reading per examined cluster. The timer is the sequence of wakes the reconciler's `select` observes; the interval's length is not modelled.
- Real concurrency is left out. Goroutine scheduling is reduced to the drain-order permutation in the sweep and to one interleaving of the reconciler and main goroutine.
- Log output is left out except for the error lines whose presence the shutdown and sweep properties speak about. This covers `getAndPrintClusters` and the log text.
- The commented-out block after the reconciler starts (daemon/daemon.go:294-330) is left out. It is not compiled.
- The TOML encoding, the file write in `createConfigFile` and the home-directory lookup are left out. Only the keys and values the created file holds are modelled (`Config.Written`). A newly created default file is assumed to read back exactly as written, so the read outcome `InHome.read` is not consulted on that path.
- The configuration library's type coercion and environment-variable lookup are left out. The file's contents are two typed maps, string and 32-bit integer.
- `connectRegistry`, `openMeta`'s and `connectDocker`'s internals, and the cobra command wiring are left out. They are library plumbing.
- Reconciler.SweepErrorsNeverStop: states that each failed sweep's error is logged, but not that the log lines appear in wake order.
- Blocking forever is not modelled. The traces describe runs in which every teardown and every sweep returns. A `killCluster` that never returns stalls the drain (daemon/daemon.go:218-219). The reconciler then never gets back to its `select`, so the main goroutine's shutdown send (daemon/daemon.go:356) blocks forever, with no acknowledgement and no shutdown. The same holds for a listener that never returns.
