/** The data-transfer monitor: the per-workload record of the last fully
    successful synchronisation, and the sync pass run on every tick. */
module DataTransfer {
  import opened Wrappers

  /** An instant, as a count of some fixed clock unit. */
  type Time = int

  /** One binding of a workload's data: a path relative to the workload's
      exported host directory, and the remote key it is copied to. */
  datatype DataPath = DataPath(source: string, target: string)

  datatype DataConfig = DataConfig(paths: seq<DataPath>)

  /** A workload of the device configuration; `data` is nil when the workload
      exports nothing. */
  datatype WorkloadConfig = WorkloadConfig(name: string, data: Option<DataConfig>)

  datatype S3Config = S3Config(
    bucketHost: string, bucketPort: int, accessKeyId: string, secretAccessKey: string, bucketName: string)

  datatype StorageConfig = StorageConfig(s3: Option<S3Config>)

  /** One call of the remote client: copy local path `source` to remote key `target`. */
  datatype SyncCall = SyncCall(source: string, target: string)

  /** What a tick consults outside the monitor: the workload manager's exported
      host directory per workload, path joining, and the outcome of each sync
      call of the tick's remote client (true for success). */
  datatype Collaborators = Collaborators(
    hostPath: string -> string,
    join: (string, string) -> string,
    syncPath: (string, string) -> bool)

  predicate HasPaths(w: WorkloadConfig) {
    w.data.Some? && |w.data.value.paths| > 0
  }

  /** Entry `i` is the last configured workload named `name` that has paths. */
  predicate LastWithPaths(configured: seq<WorkloadConfig>, name: string, i: int) {
    0 <= i < |configured| && configured[i].name == name && HasPaths(configured[i]) &&
    forall j :: i < j < |configured| && configured[j].name == name ==> !HasPaths(configured[j])
  }

  /** The lookup the sync pass builds from the configured workloads: each name
      with non-empty paths, mapped to the paths of its last such entry. */
  function PathsLookup(configured: seq<WorkloadConfig>): map<string, seq<DataPath>>
    decreases |configured|
  {
    if configured == [] then map[]
    else
      var last := configured[|configured| - 1];
      var m := PathsLookup(configured[..|configured| - 1]);
      if HasPaths(last) then m[last.name := last.data.value.paths] else m
  }

  /** A name is in the lookup exactly when some configured workload of that name
      has paths, and it maps to the paths of the last one. */
  lemma {:induction false} PathsLookupSpec(configured: seq<WorkloadConfig>)
    ensures forall name :: name in PathsLookup(configured) <==>
      exists i :: 0 <= i < |configured| && configured[i].name == name && HasPaths(configured[i])
    ensures forall name :: name in PathsLookup(configured) ==>
      exists i :: LastWithPaths(configured, name, i) && PathsLookup(configured)[name] == configured[i].data.value.paths
    decreases |configured|
  {
    if configured != [] {
      var n := |configured|;
      var init, last := configured[..n - 1], configured[n - 1];
      PathsLookupSpec(init);
      var m, m' := PathsLookup(init), PathsLookup(configured);
      assert m' == if HasPaths(last) then m[last.name := last.data.value.paths] else m;
      forall name
        ensures name in m' <==> exists i :: 0 <= i < n && configured[i].name == name && HasPaths(configured[i])
      {
        if HasPaths(last) && name == last.name {
          assert configured[n - 1].name == name && HasPaths(configured[n - 1]);
        } else {
          assert name in m' <==> name in m;
          if name in m {
            var i :| 0 <= i < |init| && init[i].name == name && HasPaths(init[i]);
            assert configured[i] == init[i];
          }
          if exists i :: 0 <= i < n && configured[i].name == name && HasPaths(configured[i]) {
            var i :| 0 <= i < n && configured[i].name == name && HasPaths(configured[i]);
            assert i < n - 1 && init[i] == configured[i];
          }
        }
      }
      forall name | name in m'
        ensures exists i :: LastWithPaths(configured, name, i) && m'[name] == configured[i].data.value.paths
      {
        if HasPaths(last) && name == last.name {
          assert LastWithPaths(configured, name, n - 1);
        } else {
          assert name in m && m'[name] == m[name];
          var i :| LastWithPaths(init, name, i) && m[name] == init[i].data.value.paths;
          assert configured[i] == init[i];
          forall j | i < j < n && configured[j].name == name
            ensures !HasPaths(configured[j])
          {
            if j < n - 1 {
              assert configured[j] == init[j];
            }
          }
          assert LastWithPaths(configured, name, i);
        }
      }
    }
  }

  /** The paths synced for `name`: none when the lookup has no entry. */
  function PathsOf(lookup: map<string, seq<DataPath>>, name: string): seq<DataPath> {
    if name in lookup then lookup[name] else []
  }

  /** Every path of `paths` syncs successfully from `hostDir`. */
  predicate AllSynced(paths: seq<DataPath>, hostDir: string, env: Collaborators) {
    forall dp :: dp in paths ==> env.syncPath(env.join(hostDir, dp.source), dp.target)
  }

  /** Workload `name` has no failed path in this tick. */
  predicate WorkloadSynced(lookup: map<string, seq<DataPath>>, name: string, env: Collaborators) {
    AllSynced(PathsOf(lookup, name), env.hostPath(name), env)
  }

  /** The sync calls made for one workload: one per path, in order. */
  function PathCalls(hostDir: string, paths: seq<DataPath>, env: Collaborators): (r: seq<SyncCall>)
    ensures |r| == |paths|
    ensures forall k :: 0 <= k < |paths| ==> r[k] == SyncCall(env.join(hostDir, paths[k].source), paths[k].target)
    decreases |paths|
  {
    if paths == [] then []
    else PathCalls(hostDir, paths[..|paths| - 1], env) + [SyncCall(env.join(hostDir, paths[|paths| - 1].source), paths[|paths| - 1].target)]
  }

  /** The sync calls of a tick, workload by workload in the order of `active`. */
  function TickCalls(active: seq<string>, lookup: map<string, seq<DataPath>>, env: Collaborators): seq<SyncCall>
    decreases |active|
  {
    if active == [] then []
    else
      var w := active[|active| - 1];
      TickCalls(active[..|active| - 1], lookup, env) + PathCalls(env.hostPath(w), PathsOf(lookup, w), env)
  }

  /** The calls of a list of workloads are those of its parts, one after the other. */
  lemma {:induction false} TickCallsAppend(a: seq<string>, b: seq<string>, lookup: map<string, seq<DataPath>>, env: Collaborators)
    ensures TickCalls(a + b, lookup, env) == TickCalls(a, lookup, env) + TickCalls(b, lookup, env)
    decreases |b|
  {
    if b == [] {
      assert a + b == a;
    } else {
      var init, w := b[..|b| - 1], b[|b| - 1];
      assert (a + b)[..|a + b| - 1] == a + init;
      assert (a + b)[|a + b| - 1] == w;
      TickCallsAppend(a, init, lookup, env);
    }
  }

  /** The record map after the workloads of `active` are synced in order: each
      one with no failed path is stamped `now`; nothing else changes. */
  function SyncedRecords(records: map<string, Time>, active: seq<string>, lookup: map<string, seq<DataPath>>,
                         env: Collaborators, now: Time): map<string, Time>
    decreases |active|
  {
    if active == [] then records
    else
      var prev := SyncedRecords(records, active[..|active| - 1], lookup, env, now);
      var w := active[|active| - 1];
      if WorkloadSynced(lookup, w, env) then prev[w := now] else prev
  }

  /** After the workload loop a record exists for every workload that had one
      or is active and fully synced; those hold `now`, the rest are unchanged. */
  lemma {:induction false} SyncedRecordsSpec(records: map<string, Time>, active: seq<string>,
                                             lookup: map<string, seq<DataPath>>, env: Collaborators, now: Time)
    ensures forall n :: n in SyncedRecords(records, active, lookup, env, now) <==>
      n in records || (n in active && WorkloadSynced(lookup, n, env))
    ensures forall n :: n in SyncedRecords(records, active, lookup, env, now) ==>
      SyncedRecords(records, active, lookup, env, now)[n] ==
        if n in active && WorkloadSynced(lookup, n, env) then now else records[n]
    decreases |active|
  {
    if active != [] {
      var init, w := active[..|active| - 1], active[|active| - 1];
      SyncedRecordsSpec(records, init, lookup, env, now);
      assert forall n :: n in active <==> n in init || n == w;
    }
  }

  /** A tick syncs anything only when some workload is active and S3 storage is configured. */
  predicate TickEnabled(active: seq<string>, storage: Option<StorageConfig>) {
    |active| > 0 && storage.Some? && storage.value.s3.Some?
  }

  /** Workload `n` is stamped by the tick. */
  predicate Stamped(active: seq<string>, storage: Option<StorageConfig>, configured: seq<WorkloadConfig>,
                    env: Collaborators, n: string) {
    TickEnabled(active, storage) && n in active && WorkloadSynced(PathsLookup(configured), n, env)
  }

  /** The record map after one tick of the sync pass. */
  function TickRecords(records: map<string, Time>, active: seq<string>, storage: Option<StorageConfig>,
                       configured: seq<WorkloadConfig>, env: Collaborators, now: Time): map<string, Time>
  {
    if TickEnabled(active, storage) then SyncedRecords(records, active, PathsLookup(configured), env, now)
    else records
  }

  /** A tick stamps exactly the workloads that are active and fully synced,
      and only when it is enabled; every other record is left as it was. */
  lemma TickRecordsSpec(records: map<string, Time>, active: seq<string>, storage: Option<StorageConfig>,
                        configured: seq<WorkloadConfig>, env: Collaborators, now: Time)
    ensures forall n :: n in TickRecords(records, active, storage, configured, env, now) <==>
      n in records || Stamped(active, storage, configured, env, n)
    ensures forall n :: n in TickRecords(records, active, storage, configured, env, now) ==>
      TickRecords(records, active, storage, configured, env, now)[n] ==
        if Stamped(active, storage, configured, env, n) then now else records[n]
  {
    SyncedRecordsSpec(records, active, PathsLookup(configured), env, now);
  }

  /** The sync calls of one tick. */
  function TickAttempts(active: seq<string>, storage: Option<StorageConfig>, configured: seq<WorkloadConfig>,
                        env: Collaborators): (r: seq<SyncCall>)
    ensures !TickEnabled(active, storage) ==> r == []
  {
    if TickEnabled(active, storage) then TickCalls(active, PathsLookup(configured), env) else []
  }

  /** With no active workload, or no S3 storage configured, a tick changes no record. */
  lemma TickSkipped(records: map<string, Time>, active: seq<string>, storage: Option<StorageConfig>,
                    configured: seq<WorkloadConfig>, env: Collaborators, now: Time)
    requires active == [] || storage.None? || storage.value.s3.None?
    ensures TickRecords(records, active, storage, configured, env, now) == records
    ensures TickAttempts(active, storage, configured, env) == []
  {
  }

  /** No partial credit: a workload with a failed path keeps its record, or its
      absence of one. Should a name occur twice in `active`, its paths are
      tried twice, and `syncPath` gives the same outcome both times. */
  lemma TickNoPartialCredit(records: map<string, Time>, active: seq<string>, storage: Option<StorageConfig>,
                            configured: seq<WorkloadConfig>, env: Collaborators, now: Time, n: string, dp: DataPath)
    requires dp in PathsOf(PathsLookup(configured), n)
    requires !env.syncPath(env.join(env.hostPath(n), dp.source), dp.target)
    ensures var r := TickRecords(records, active, storage, configured, env, now);
      (n in r <==> n in records) && (n in r ==> r[n] == records[n])
  {
    TickRecordsSpec(records, active, storage, configured, env, now);
  }

  /** An active workload with no configured paths (unconfigured, without data,
      or with an empty path list) is stamped on every enabled tick. */
  lemma TickVacuousSuccess(records: map<string, Time>, active: seq<string>, storage: Option<StorageConfig>,
                           configured: seq<WorkloadConfig>, env: Collaborators, now: Time, n: string)
    requires TickEnabled(active, storage) && n in active
    requires forall i :: 0 <= i < |configured| && configured[i].name == n ==> !HasPaths(configured[i])
    ensures var r := TickRecords(records, active, storage, configured, env, now);
      n in r && r[n] == now
  {
    TickRecordsSpec(records, active, storage, configured, env, now);
    PathsLookupSpec(configured);
    assert PathsOf(PathsLookup(configured), n) == [];
  }

  /** A tick never deletes a record, writes only `now`, and leaves every
      workload outside the active list as it was. */
  lemma TickFrame(records: map<string, Time>, active: seq<string>, storage: Option<StorageConfig>,
                  configured: seq<WorkloadConfig>, env: Collaborators, now: Time)
    ensures var r := TickRecords(records, active, storage, configured, env, now);
      && records.Keys <= r.Keys
      && (forall n :: n in r ==> r[n] == now || (n in records && r[n] == records[n]))
      && (forall n :: n !in active ==> (n in r <==> n in records) && (n in r ==> r[n] == records[n]))
  {
    TickRecordsSpec(records, active, storage, configured, env, now);
  }

  /** Records never move backwards when the tick's instant is no earlier than any of them. */
  lemma TickMonotone(records: map<string, Time>, active: seq<string>, storage: Option<StorageConfig>,
                     configured: seq<WorkloadConfig>, env: Collaborators, now: Time)
    requires forall n :: n in records ==> records[n] <= now
    ensures var r := TickRecords(records, active, storage, configured, env, now);
      forall n :: n in records ==> n in r && records[n] <= r[n] <= now
  {
    TickRecordsSpec(records, active, storage, configured, env, now);
  }

  /** Every path of every active workload is tried, in order, whatever the
      earlier outcomes: the calls do not depend on `syncPath`. */
  lemma TickTriesEveryPath(active: seq<string>, storage: Option<StorageConfig>, configured: seq<WorkloadConfig>,
                           env: Collaborators, i: int)
    requires TickEnabled(active, storage) && 0 <= i < |active|
    ensures var lookup := PathsLookup(configured);
      TickAttempts(active, storage, configured, env) ==
        TickCalls(active[..i], lookup, env) +
        PathCalls(env.hostPath(active[i]), PathsOf(lookup, active[i]), env) +
        TickCalls(active[i + 1..], lookup, env)
  {
    var lookup := PathsLookup(configured);
    assert active == active[..i] + [active[i]] + active[i + 1..];
    TickCallsAppend(active[..i] + [active[i]], active[i + 1..], lookup, env);
    TickCallsAppend(active[..i], [active[i]], lookup, env);
    assert TickCalls([active[i]], lookup, env) ==
      TickCalls([], lookup, env) + PathCalls(env.hostPath(active[i]), PathsOf(lookup, active[i]), env);
  }

  /** The monitor's record store: workload name to last fully successful sync. */
  class Monitor {
    var records: map<string, Time>

    /** NewMonitor */
    constructor ()
      ensures records == map[]
    {
      records := map[];
    }

    method GetLastSuccessfulSyncTime(name: string) returns (t: Option<Time>)
      ensures t.Some? <==> name in records
      ensures t.Some? ==> t.value == records[name]
    {
      if name in records {
        t := Some(records[name]);
      } else {
        t := None;
      }
    }

    method WorkloadRemoved(name: string)
      modifies this
      ensures name !in records
      ensures records == old(records) - {name}
      ensures name !in old(records) ==> records == old(records)
    {
      records := records - {name};
    }

    method StoreLastUpdateTime(name: string, now: Time)
      modifies this
      ensures records == old(records)[name := now]
    {
      records := records[name := now];
    }

    /** The loop of syncPaths that builds the name-to-paths lookup from the
        configured workloads. */
    static method BuildLookup(configured: seq<WorkloadConfig>) returns (lookup: map<string, seq<DataPath>>)
      ensures lookup == PathsLookup(configured)
    {
      lookup := map[];
      var i := 0;
      while i < |configured|
        invariant 0 <= i <= |configured|
        invariant lookup == PathsLookup(configured[..i])
      {
        var wd := configured[i];
        if wd.data.Some? && |wd.data.value.paths| > 0 {
          lookup := lookup[wd.name := wd.data.value.paths];
        }
        assert configured[..i + 1][..i] == configured[..i];
        i := i + 1;
      }
      assert configured[..i] == configured;
    }

    /** The inner loop of syncPaths for one active workload: every path is
        synced, and `success` survives only if none fails. */
    static method SyncWorkload(name: string, lookup: map<string, seq<DataPath>>, env: Collaborators)
      returns (success: bool, calls: seq<SyncCall>)
      ensures success <==> WorkloadSynced(lookup, name, env)
      ensures calls == PathCalls(env.hostPath(name), PathsOf(lookup, name), env)
    {
      var hostDir := env.hostPath(name);
      var dataPaths := if name in lookup then lookup[name] else [];
      success, calls := true, [];
      var k := 0;
      while k < |dataPaths|
        invariant 0 <= k <= |dataPaths|
        invariant success <==> AllSynced(dataPaths[..k], hostDir, env)
        invariant calls == PathCalls(hostDir, dataPaths[..k], env)
      {
        var dp := dataPaths[k];
        var source := env.join(hostDir, dp.source);
        calls := calls + [SyncCall(source, dp.target)];
        if !env.syncPath(source, dp.target) {
          success := false;
        }
        assert dataPaths[..k + 1] == dataPaths[..k] + [dp];
        k := k + 1;
      }
      assert dataPaths[..k] == dataPaths;
    }

    /** syncPaths: one tick. `active` is the workload manager's list, `storage`
        the device's storage configuration, `configured` the configured
        workloads; the result is the sequence of sync calls made. */
    method SyncPaths(active: seq<string>, storage: Option<StorageConfig>, configured: seq<WorkloadConfig>,
                     env: Collaborators, now: Time) returns (calls: seq<SyncCall>)
      modifies this
      ensures records == TickRecords(old(records), active, storage, configured, env, now)
      ensures calls == TickAttempts(active, storage, configured, env)
    {
      calls := [];
      if |active| == 0 {
        return;
      }
      if storage.None? || storage.value.s3.None? {
        return;
      }
      var lookup := BuildLookup(configured);
      var j := 0;
      while j < |active|
        invariant 0 <= j <= |active|
        invariant records == SyncedRecords(old(records), active[..j], lookup, env, now)
        invariant calls == TickCalls(active[..j], lookup, env)
      {
        var name := active[j];
        var success, workloadCalls := SyncWorkload(name, lookup, env);
        calls := calls + workloadCalls;
        if success {
          StoreLastUpdateTime(name, now);
        }
        assert active[..j + 1][..j] == active[..j];
        j := j + 1;
      }
      assert active[..j] == active;
    }
  }
}
