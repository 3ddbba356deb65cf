# Edge-agent workload monitor: lifecycle events and data-sync bookkeeping

This project models, in Dafny, the two sequential pieces of bookkeeping that
run inside the background loops of the device worker's monitoring layer, and
proves properties of them.

**Lifecycle event listener** (`internal/service/event_listener.go`, module
`Service`). A workload `w` runs as the systemd unit `w.service`. The listener
keeps a subscription set of watched unit names. It turns each entry of a
status-change notification into an event for the workload's observers:
- `running` gives Started;
- `start`, `stop`, `dead` and `failed` give Stopped;
- an absent status object (the `removed` sentinel) unsubscribes the unit, then gives Stopped;
- any other sub-state, and any unit name whose extension is not `.service`, is ignored.

`Update` and `Init` register the units of configured workloads. The class
`Service.EventListener` holds the subscription set (`watched: set<string>`) and
the event channel (`events: seq<Event>`, oldest first, capacity 1000). The
functions `ExtractWorkloadName`, `TranslateUnitSubStatus`, `ApplyEntry` and
`RunBatch` are the specification that its methods are proved against, and
lemmas beside them state what those functions mean. Module
`FilePath` models the Go library helpers the listener calls
(`filepath.Ext`, `filepath.Base`, `strings.TrimSuffix`) for a Unix host.

**Data-transfer monitor** (`internal/datatransfer/monitor.go`, module
`DataTransfer`). The class `DataTransfer.Monitor` holds the map from workload
name to the time of its last fully successful sync. `SyncPaths` is one tick:
- it builds a lookup of configured data paths;
- it tries every path of every active workload, in order;
- it stamps a workload with `now` only when none of its paths failed.

The tick is specified by `TickRecords` (the new map) and `TickAttempts` (the
sync calls made). Lemmas beside them state that there is no partial credit,
that a workload with no paths succeeds vacuously, and what a tick leaves alone.

Collaborators are parameters:
- the active workload list, the storage configuration and the configured workloads;
- `Collaborators`, a datatype holding the exported host directory per workload, path joining and the outcome of each `SyncPath` call;
- the tick's instant `now`;
- for `Init`, whether the bus connection opened and, per unit, whether its `UnitFileState` property could be read and whether its value could be unquoted.

`ServiceSuffix` and `DefaultServiceName` are defined in a file that is not part
of this model. They are taken as the constant `".service"` and as
`name + ".service"`. The lemmas about `Ext` hold for any extension: a `.`
followed by characters that are neither `.` nor `/`.

## Model

| member | source | states |
|---|---|---|
| FilePath.TrimSuffix | internal/service/event_listener.go:166 | `strings.TrimSuffix`: with the suffix removed the result plus the suffix is the input; without it the input is unchanged |
| FilePath.Ext | internal/service/event_listener.go:163 | `filepath.Ext`; no contract of its own, its meaning is stated by `ExtShape` and `ExtIsSuffix` |
| FilePath.Base | internal/service/event_listener.go:166 | `filepath.Base`; no contract of its own, its meaning is stated by `BaseIsLastElement`, `LastElementShape` and `TrimmedBaseShape` |
| FilePath.ExtShape | internal/service/event_listener.go:163 | `filepath.Ext` returns either nothing or an extension that ends the path |
| FilePath.ExtIsSuffix | internal/service/event_listener.go:163 | `filepath.Ext(id)` equals a given extension exactly when `id` ends with that extension |
| FilePath.TrimmedBaseShape | internal/service/event_listener.go:166 | for an id ending in the extension, the base name with the extension trimmed has no `/`, and the id is an empty or `/`-terminated directory part, that name, then the extension |
| Service.DefaultServiceName | internal/service/event_listener.go:68 | the unit name of a workload; no contract of its own, `ExtractRoundTrip` states that extraction inverts it |
| Service.ExtractWorkloadName | internal/service/event_listener.go:162-167 | `extractWorkloadName`; no contract of its own, its meaning is stated by `ExtractWorkloadNameSpec`, `ExtractWorkloadNameSplit` and `ExtractRoundTrip` |
| Service.ExtractWorkloadNameSpec | internal/service/event_listener.go:162-167 | succeeds exactly when the id ends with `.service`, otherwise fails with the id in the error; a successful name has no `/` |
| Service.ExtractWorkloadNameSplit | internal/service/event_listener.go:166 | a successful name sits between an empty or `/`-terminated directory part and `.service`, which fixes it uniquely |
| Service.ExtractRoundTrip | internal/service/event_listener.go:162-167 | for a workload name without `/`, extracting from `DefaultServiceName(name)` gives back `name` |
| Service.TranslateUnitSubStatus | internal/service/event_listener.go:169-174 | an absent status becomes `removed`; a present one yields its sub-state unchanged |
| Service.EntryEvents | internal/service/event_listener.go:113-133 | the event one entry sends; no contract of its own, `EntryTable` states it case by case |
| Service.IsRemoval | internal/service/event_listener.go:124-126 | an entry with a valid id and the `removed` sub-state; no contract of its own, `EntryTable` states its effect |
| Service.ApplyEntry | internal/service/event_listener.go:113-133 | one pass of the loop body; no contract of its own, `EntryTable` states its dispatch table |
| Service.EntryTable | internal/service/event_listener.go:113-133 | the dispatch table for one entry: a bad id leaves the state alone; `running` appends one Started event; `start`/`stop`/`dead`/`failed` append one Stopped event; `removed` drops the id from the set and appends one Stopped event; any other sub-state changes nothing |
| Service.RunBatch | internal/service/event_listener.go:111-134 | the loop over one notification; no contract of its own, `RunBatchSpec` states its result |
| Service.RunBatchSpec | internal/service/event_listener.go:110-134 | for any order of the entries: the queue becomes the old queue followed by each entry's event in that order, independent of the watched set; the set is the old set minus exactly the ids reported removed |
| Service.FailedThenRunning | internal/service/event_listener.go:120-130 | a unit reporting `failed` and later `running` queues Stopped then Started for its workload, and the set is unchanged |
| Service.EventListener.constructor | internal/service/event_listener.go:56-58 | a new listener watches nothing and has an empty queue |
| Service.EventListener.Contains | internal/service/event_listener.go:156-160 | returns true exactly when the unit is watched |
| Service.EventListener.Add | internal/service/event_listener.go:142-147 | the set gains the unit; the queue is unchanged |
| Service.EventListener.Remove | internal/service/event_listener.go:149-154 | the set loses the unit; the queue is unchanged |
| Service.EventListener.Send | internal/service/event_listener.go:123-130 | a send appends the event at the end of the queue and leaves the set alone |
| Service.EventListener.HandleEntry | internal/service/event_listener.go:111-133 | the new state is `ApplyEntry` of the old one, the one-entry step whose dispatch table `EntryTable` states |
| Service.EventListener.HandleBatch | internal/service/event_listener.go:110-134 | handling the entries in the given order leaves the state `RunBatch` gives |
| Service.EventListener.Update | internal/service/event_listener.go:86-96 | succeeds exactly when no unit is already watched or repeated earlier in the call, and then every unit is watched; otherwise fails at the first such unit, naming it, with exactly the units before it added; the queue is unchanged |
| Service.EventListener.Init | internal/service/event_listener.go:60-84 | fails without touching the set when the connection cannot be opened; otherwise starts from an empty set; on success every configured workload's unit is watched; on failure at the first unit whose property query or unquoting fails, exactly the earlier units are watched; a failed query gives an error naming that workload, a failed unquote the bare `UnquoteFailed` |
| DataTransfer.PathsLookup | internal/datatransfer/monitor.go:67-72 | the lookup of configured data paths; no contract of its own, `PathsLookupSpec` states its contents |
| DataTransfer.PathsLookupSpec | internal/datatransfer/monitor.go:67-72 | a name is in the lookup exactly when some configured workload of that name has a non-nil `Data` with non-empty paths; it maps to the paths of the last such workload |
| DataTransfer.PathCalls | internal/datatransfer/monitor.go:90-99 | one sync call per path, in path order, from `join(hostPath, source)` to `target` |
| DataTransfer.TickCalls | internal/datatransfer/monitor.go:86-99 | the sync calls of the workload loop; no contract of its own, `TickCallsAppend` and `TickTriesEveryPath` state its shape |
| DataTransfer.TickCallsAppend | internal/datatransfer/monitor.go:86-103 | the calls of a list of workloads are the calls of its first part followed by those of the rest |
| DataTransfer.TickTriesEveryPath | internal/datatransfer/monitor.go:86-99 | in an enabled tick, the calls are the earlier workloads' calls, then every path of the i-th workload, then the later ones; no call depends on an earlier call's outcome |
| DataTransfer.SyncedRecords | internal/datatransfer/monitor.go:86-103 | the record map after the workload loop; no contract of its own, `SyncedRecordsSpec` states its contents |
| DataTransfer.SyncedRecordsSpec | internal/datatransfer/monitor.go:86-103 | after the workload loop, a name has an entry exactly when it had one before or it is active with no failed path; such workloads hold `now`, every other entry is unchanged |
| DataTransfer.TickRecords | internal/datatransfer/monitor.go:57-105 | the record map after a tick; no contract of its own, `TickRecordsSpec` states its contents |
| DataTransfer.TickRecordsSpec | internal/datatransfer/monitor.go:57-105 | the same, with stamping limited to ticks that have an active workload and S3 storage configured |
| DataTransfer.TickAttempts | internal/datatransfer/monitor.go:62-66 | a tick with no active workload or no S3 storage makes no sync call |
| DataTransfer.TickSkipped | internal/datatransfer/monitor.go:62-66 | with no active workload, no storage, or no S3 configuration, the records are unchanged and no call is made |
| DataTransfer.TickNoPartialCredit | internal/datatransfer/monitor.go:89-102 | a workload with any failed path keeps its entry after the tick, or keeps having none |
| DataTransfer.TickVacuousSuccess | internal/datatransfer/monitor.go:86-102 | in an enabled tick, an active workload with no configured paths (unconfigured, nil `Data` or empty paths) is stamped with `now` |
| DataTransfer.TickFrame | internal/datatransfer/monitor.go:86-111 | a tick deletes no entry, every entry afterwards is `now` or unchanged, and names outside the active list are untouched |
| DataTransfer.TickMonotone | internal/datatransfer/monitor.go:107-111 | when `now` is no earlier than any stored time, no entry moves backwards and none passes `now` |
| DataTransfer.Monitor.constructor | internal/datatransfer/monitor.go:23-33 | a new monitor has no entries, so every lookup reports none |
| DataTransfer.Monitor.GetLastSuccessfulSyncTime | internal/datatransfer/monitor.go:43-50 | returns the stored time when the workload has an entry, and none otherwise |
| DataTransfer.Monitor.WorkloadRemoved | internal/datatransfer/monitor.go:52-56 | the workload has no entry afterwards; other entries are unchanged; removing an absent name changes nothing |
| DataTransfer.Monitor.StoreLastUpdateTime | internal/datatransfer/monitor.go:107-111 | the workload's entry becomes the given time; other entries are unchanged |
| DataTransfer.Monitor.BuildLookup | internal/datatransfer/monitor.go:67-72 | the loop over the configured workloads builds exactly `PathsLookup` |
| DataTransfer.Monitor.SyncWorkload | internal/datatransfer/monitor.go:87-99 | the inner loop tries every path and reports success exactly when no path failed |
| DataTransfer.Monitor.SyncPaths | internal/datatransfer/monitor.go:57-105 | the record map after a tick is `TickRecords` of the old one, and the calls made are `TickAttempts` |

## Left out

- Goroutines, `select`, the listener's mutex and the monitor's reader/writer lock: every call is modelled as atomic.
- The loop structure of `Listen` and `Start` is not modelled. `Listen` receives notifications forever and logs error-stream messages. `Start` runs a tick per `time.Ticker` event. One notification is `HandleBatch`; one tick is `SyncPaths`.
- Blocking channel sends and backpressure: `EVENT_CHANNEL_CAPACITY` records the capacity of 1000. A send appends to the queue and never waits for the consumer. The consumer side (`GetEventChannel`) is not modelled.
- Map iteration order of a notification: a notification is a sequence of entries in any order. Results hold for every order.
- The bus connection, `NewSubscriptionSet`, `Subscribe`, `GetUnitPropertyContext` and `strconv.Unquote`: `Init` takes a connection flag and, per unit, one success flag for the property query and one for unquoting its value instead. Only a failed query yields an error naming the workload; a failed unquote yields `UnquoteFailed`, standing for the bare `strconv` syntax error. The warning for a disabled unit is only a log line and is left out.
- The systemd `SubscriptionSet` is modelled as a plain set of unit names.
- Service.EventListener.constructor: the model starts with an empty set. `NewDBusEventListener` creates no subscription set. Until `Init` opens a connection, the Go listener's set is nil, so `Update`, `add`, `contains` and `remove` would dereference nil and panic. In the model those calls act on the empty set. `Init` failing to connect likewise keeps whatever set came before, which for a fresh listener is nil in the source and empty here.
- `ListWorkloads` errors: the source only logs them and goes on with the list it got back, so the model takes that list as input.
- The S3 client and base64 decoding of the credentials are left out. `SyncPath` outcomes come from `Collaborators.syncPath`, which depends on the source and target only. A decode failure only logs.
- DataTransfer.SyncPaths: one instant `now` is used for the whole tick. The source reads `time.Now()` separately at each store, so entries written in one tick may differ slightly.
- `path.Join` cleaning rules are left out: joining is the function `Collaborators.join`, which the model does not constrain.
- All logging.
