/** The workload lifecycle event listener: the naming convention between
    workloads and their systemd services, the translation of systemd unit
    sub-states into Started/Stopped events, and the registry of watched
    service identifiers. */
module Service {
  import opened Wrappers
  import opened FilePath

  /** The file-name extension of every workload's systemd unit. */
  const SERVICE_SUFFIX: string := ".service"

  /** Capacity of the listener's event channel. */
  const EVENT_CHANNEL_CAPACITY: nat := 1000

  /** The systemd unit that runs a workload. */
  function DefaultServiceName(workloadName: string): string {
    workloadName + SERVICE_SUFFIX
  }

  /** The sequence of service identifiers of a list of workload names. */
  function ServiceNames(workloads: seq<string>): (r: seq<string>)
    ensures |r| == |workloads|
    ensures forall i :: 0 <= i < |workloads| ==> r[i] == DefaultServiceName(workloads[i])
  {
    seq(|workloads|, i requires 0 <= i < |workloads| => DefaultServiceName(workloads[i]))
  }

  function Elements(s: seq<string>): set<string> {
    set x | x in s
  }

  // Unit sub-states as systemd reports them, plus the sentinel for a unit
  // whose status object is absent.
  const RUNNING: string := "running"
  const START: string := "start"
  const STOP: string := "stop"
  const DEAD: string := "dead"
  const FAILED: string := "failed"
  const REMOVED: string := "removed"

  /** Sub-states that are reported to observers as Stopped without touching the registry. */
  predicate IsStopState(subState: string) {
    subState == START || subState == STOP || subState == DEAD || subState == FAILED
  }

  datatype EventType = Started | Stopped

  datatype Event = Event(workloadName: string, kind: EventType)

  /** dbus.UnitStatus; only its sub-state is read. */
  datatype UnitStatus = UnitStatus(subState: string)

  /** One entry of a status-change notification: a service identifier and its
      status object, absent when systemd no longer knows the unit. */
  datatype StatusEntry = StatusEntry(serviceName: string, status: Option<UnitStatus>)

  datatype ListenerError =
    | NotAService(serviceName: string)
    | ConnectionFailed
    | PropertyQueryFailed(workloadName: string)
    | UnquoteFailed
    | AlreadyMonitored(serviceName: string)

  lemma ServiceSuffixIsExtension()
    ensures IsExtension(SERVICE_SUFFIX) && SEPARATOR !in SERVICE_SUFFIX
  {
  }

  /** The workload name of a service identifier: its last path element without
      the service suffix, or an error when its extension is not that suffix. */
  function ExtractWorkloadName(serviceName: string): Result<string, ListenerError> {
    if Ext(serviceName) != SERVICE_SUFFIX then Failure(NotAService(serviceName))
    else Success(TrimSuffix(Base(serviceName), SERVICE_SUFFIX))
  }

  /** A service identifier yields a workload name exactly when it ends with
      the service suffix, and the name holds no separator; otherwise the
      error carries the identifier. */
  lemma ExtractWorkloadNameSpec(serviceName: string)
    ensures var r := ExtractWorkloadName(serviceName);
      && (r.Success? <==> HasSuffix(serviceName, SERVICE_SUFFIX))
      && (r.Failure? ==> r.error == NotAService(serviceName))
      && (r.Success? ==> SEPARATOR !in r.value)
  {
    ServiceSuffixIsExtension();
    ExtIsSuffix(serviceName, SERVICE_SUFFIX);
    if HasSuffix(serviceName, SERVICE_SUFFIX) {
      TrimmedBaseShape(serviceName, SERVICE_SUFFIX);
    }
  }

  /** An extracted workload name sits between a directory part (empty or
      ending in a separator) and the service suffix. */
  lemma ExtractWorkloadNameSplit(serviceName: string)
    requires ExtractWorkloadName(serviceName).Success?
    ensures exists dir :: (serviceName == dir + ExtractWorkloadName(serviceName).value + SERVICE_SUFFIX &&
      (dir == [] || dir[|dir| - 1] == SEPARATOR))
  {
    ServiceSuffixIsExtension();
    ExtIsSuffix(serviceName, SERVICE_SUFFIX);
    TrimmedBaseShape(serviceName, SERVICE_SUFFIX);
    var name := TrimSuffix(Base(serviceName), SERVICE_SUFFIX);
    var dir := serviceName[..|serviceName| - |name| - |SERVICE_SUFFIX|];
    assert serviceName == dir + name + SERVICE_SUFFIX;
  }

  /** Workload names survive the round trip through their service identifier. */
  lemma ExtractRoundTrip(workloadName: string)
    requires SEPARATOR !in workloadName
    ensures ExtractWorkloadName(DefaultServiceName(workloadName)) == Success(workloadName)
  {
    var id := DefaultServiceName(workloadName);
    ServiceSuffixIsExtension();
    assert HasSuffix(id, SERVICE_SUFFIX);
    ExtIsSuffix(id, SERVICE_SUFFIX);
    LastElementOfPlain(id);
    assert TrimSuffix(id, SERVICE_SUFFIX) == workloadName;
  }

  /** The sub-state a status object stands for: REMOVED when it is absent. */
  function TranslateUnitSubStatus(status: Option<UnitStatus>): (r: string)
    ensures status.None? ==> r == REMOVED
    ensures status.Some? ==> r == status.value.subState
  {
    match status
    case None => REMOVED
    case Some(unit) => unit.subState
  }

  /** The events one status entry produces, whatever the registry holds. */
  function EntryEvents(entry: StatusEntry): seq<Event> {
    match ExtractWorkloadName(entry.serviceName)
    case Failure(_) => []
    case Success(name) =>
      var subState := TranslateUnitSubStatus(entry.status);
      if subState == RUNNING then [Event(name, Started)]
      else if subState == REMOVED || IsStopState(subState) then [Event(name, Stopped)]
      else []
  }

  /** Whether a status entry unsubscribes its service identifier. */
  predicate IsRemoval(entry: StatusEntry) {
    ExtractWorkloadName(entry.serviceName).Success? && TranslateUnitSubStatus(entry.status) == REMOVED
  }

  /** The listener's state: the watched identifiers and the queued events. */
  datatype ListenerState = ListenerState(watched: set<string>, events: seq<Event>)

  /** The effect of one status entry on the listener. */
  function ApplyEntry(s: ListenerState, entry: StatusEntry): ListenerState {
    ListenerState(
      if IsRemoval(entry) then s.watched - {entry.serviceName} else s.watched,
      s.events + EntryEvents(entry))
  }

  /** The dispatch table of Listen, entry by entry. */
  lemma EntryTable(s: ListenerState, entry: StatusEntry)
    ensures var r := ApplyEntry(s, entry);
      var extracted := ExtractWorkloadName(entry.serviceName);
      var subState := TranslateUnitSubStatus(entry.status);
      && (extracted.Failure? ==> r == s)
      && (extracted.Success? && subState == RUNNING ==>
            r == s.(events := s.events + [Event(extracted.value, Started)]))
      && (extracted.Success? && IsStopState(subState) ==>
            r == s.(events := s.events + [Event(extracted.value, Stopped)]))
      && (extracted.Success? && subState == REMOVED ==>
            r == ListenerState(s.watched - {entry.serviceName}, s.events + [Event(extracted.value, Stopped)]))
      && (subState != RUNNING && subState != REMOVED && !IsStopState(subState) ==> r == s)
  {
  }

  /** Service identifiers a batch unsubscribes. */
  function RemovedServices(batch: seq<StatusEntry>): set<string> {
    set i | 0 <= i < |batch| && IsRemoval(batch[i]) :: batch[i].serviceName
  }

  /** The events of a batch, entry by entry in batch order. */
  function BatchEvents(batch: seq<StatusEntry>): seq<Event> {
    if batch == [] then [] else EntryEvents(batch[0]) + BatchEvents(batch[1..])
  }

  lemma {:induction false} BatchEventsAppend(a: seq<StatusEntry>, b: seq<StatusEntry>)
    ensures BatchEvents(a + b) == BatchEvents(a) + BatchEvents(b)
  {
    if a == [] {
      assert a + b == b;
    } else {
      assert (a + b)[0] == a[0];
      assert (a + b)[1..] == a[1..] + b;
      BatchEventsAppend(a[1..], b);
    }
  }

  lemma BatchEventsSnoc(init: seq<StatusEntry>, last: StatusEntry)
    ensures BatchEvents(init + [last]) == BatchEvents(init) + EntryEvents(last)
  {
    BatchEventsAppend(init, [last]);
    assert BatchEvents([last]) == EntryEvents(last) + BatchEvents([]);
  }

  lemma RemovedServicesSnoc(init: seq<StatusEntry>, last: StatusEntry)
    ensures RemovedServices(init + [last]) == RemovedServices(init) + (if IsRemoval(last) then {last.serviceName} else {})
  {
    var batch := init + [last];
    forall id | id in RemovedServices(batch)
      ensures id in RemovedServices(init) + (if IsRemoval(last) then {last.serviceName} else {})
    {
      var i :| 0 <= i < |batch| && IsRemoval(batch[i]) && batch[i].serviceName == id;
      if i < |init| {
        assert batch[i] == init[i];
      }
    }
    forall id | id in RemovedServices(init)
      ensures id in RemovedServices(batch)
    {
      var i :| 0 <= i < |init| && IsRemoval(init[i]) && init[i].serviceName == id;
      assert batch[i] == init[i];
    }
    if IsRemoval(last) {
      assert batch[|init|] == last;
    }
  }

  /** The listener after a status batch, entries handled in the given order. */
  function RunBatch(s: ListenerState, batch: seq<StatusEntry>): ListenerState
    decreases |batch|
  {
    if batch == [] then s
    else ApplyEntry(RunBatch(s, batch[..|batch| - 1]), batch[|batch| - 1])
  }

  /** After a batch the queue holds the old events followed by the batch's
      events in entry order, and the watched set has lost exactly the
      services the batch reports removed. */
  lemma {:induction false} RunBatchSpec(s: ListenerState, batch: seq<StatusEntry>)
    ensures RunBatch(s, batch).events == s.events + BatchEvents(batch)
    ensures RunBatch(s, batch).watched == s.watched - RemovedServices(batch)
    decreases |batch|
  {
    if batch != [] {
      var init, last := batch[..|batch| - 1], batch[|batch| - 1];
      assert batch == init + [last];
      RunBatchSpec(s, init);
      BatchEventsSnoc(init, last);
      RemovedServicesSnoc(init, last);
    }
  }

  /** A workload whose unit reports `failed` and later `running` is reported
      Stopped and then Started, and stays watched. */
  lemma FailedThenRunning(s: ListenerState, workloadName: string)
    requires SEPARATOR !in workloadName
    ensures var id := DefaultServiceName(workloadName);
      var s1 := RunBatch(s, [StatusEntry(id, Some(UnitStatus(FAILED)))]);
      var s2 := RunBatch(s1, [StatusEntry(id, Some(UnitStatus(RUNNING)))]);
      s2.events == s.events + [Event(workloadName, Stopped), Event(workloadName, Started)] &&
      s2.watched == s.watched
  {
    ExtractRoundTrip(workloadName);
  }

  /** DBusEventListener: the watched service identifiers (the subscription set)
      and the events queued on the event channel, oldest first. */
  class EventListener {
    var watched: set<string>
    var events: seq<Event>

    function State(): ListenerState
      reads this
    {
      ListenerState(watched, events)
    }

    /** NewDBusEventListener */
    constructor ()
      ensures watched == {} && events == []
    {
      watched, events := {}, [];
    }

    method Contains(serviceName: string) returns (b: bool)
      ensures b <==> serviceName in watched
    {
      b := serviceName in watched;
    }

    method Add(serviceName: string)
      modifies this
      ensures watched == old(watched) + {serviceName} && events == old(events)
    {
      watched := watched + {serviceName};
    }

    method Remove(serviceName: string)
      modifies this
      ensures watched == old(watched) - {serviceName} && events == old(events)
    {
      watched := watched - {serviceName};
    }

    /** A send on the event channel. */
    method Send(e: Event)
      modifies this
      ensures events == old(events) + [e] && watched == old(watched)
    {
      events := events + [e];
    }

    /** The handling of one entry of a status notification in Listen. */
    method HandleEntry(entry: StatusEntry)
      modifies this
      ensures State() == ApplyEntry(old(State()), entry)
    {
      var extracted := ExtractWorkloadName(entry.serviceName);
      if extracted.Failure? {
        return;
      }
      var name := extracted.value;
      var subState := TranslateUnitSubStatus(entry.status);
      if subState == RUNNING {
        Send(Event(name, Started));
      } else if subState == REMOVED {
        Remove(entry.serviceName);
        Send(Event(name, Stopped));
      } else if IsStopState(subState) {
        Send(Event(name, Stopped));
      }
    }

    /** The handling of one status notification in Listen, entries in the
        order the notification's map happens to be iterated. */
    method HandleBatch(batch: seq<StatusEntry>)
      modifies this
      ensures State() == RunBatch(old(State()), batch)
    {
      var i := 0;
      while i < |batch|
        invariant 0 <= i <= |batch|
        invariant State() == RunBatch(old(State()), batch[..i])
      {
        HandleEntry(batch[i]);
        assert batch[..i + 1][..i] == batch[..i];
        i := i + 1;
      }
      assert batch[..i] == batch;
    }

    /** Update: watch the service of every workload of a new configuration, in
        order, failing at the first one already watched. */
    method Update(workloads: seq<string>) returns (r: Outcome<ListenerError>)
      modifies this
      ensures events == old(events)
      ensures r.Pass? <==> AllNew(old(watched), ServiceNames(workloads))
      ensures r.Pass? ==> watched == old(watched) + Elements(ServiceNames(workloads))
      ensures r.Fail? ==> exists k :: (ConflictAt(old(watched), ServiceNames(workloads), k) &&
        watched == old(watched) + Elements(ServiceNames(workloads)[..k]) &&
        r.error == AlreadyMonitored(ServiceNames(workloads)[k]))
    {
      ghost var services := ServiceNames(workloads);
      var i := 0;
      while i < |workloads|
        invariant 0 <= i <= |workloads|
        invariant AllNew(old(watched), services[..i])
        invariant watched == old(watched) + Elements(services[..i])
        invariant events == old(events)
      {
        var serviceName := DefaultServiceName(workloads[i]);
        var present := Contains(serviceName);
        if present {
          assert ConflictAt(old(watched), services, i);
          return Fail(AlreadyMonitored(serviceName));
        }
        Add(serviceName);
        assert services[..i + 1] == services[..i] + [serviceName];
        i := i + 1;
      }
      assert services[..i] == services;
      r := Pass;
    }

    /** The registration loop of Init. `connected` says whether the bus
        connection could be opened; per service, `propertyOk` says whether its
        UnitFileState property could be read and `unquoteOk` whether that
        value could then be unquoted. Opening the connection starts from an
        empty subscription set. A failed query names the workload; a failed
        unquote gives the bare syntax error. */
    method Init(connected: bool, workloads: seq<string>, propertyOk: string -> bool, unquoteOk: string -> bool)
      returns (r: Outcome<ListenerError>)
      modifies this
      ensures events == old(events)
      ensures !connected ==> r == Fail(ConnectionFailed) && watched == old(watched)
      ensures connected ==> (r.Pass? <==> forall i :: 0 <= i < |workloads| ==>
        propertyOk(DefaultServiceName(workloads[i])) && unquoteOk(DefaultServiceName(workloads[i])))
      ensures r.Pass? ==> watched == Elements(ServiceNames(workloads))
      ensures connected && r.Fail? ==> exists k :: (0 <= k < |workloads| &&
        !(propertyOk(DefaultServiceName(workloads[k])) && unquoteOk(DefaultServiceName(workloads[k]))) &&
        (forall j :: 0 <= j < k ==>
          propertyOk(DefaultServiceName(workloads[j])) && unquoteOk(DefaultServiceName(workloads[j]))) &&
        watched == Elements(ServiceNames(workloads)[..k]) &&
        r == Fail(if !propertyOk(DefaultServiceName(workloads[k])) then PropertyQueryFailed(workloads[k])
                  else UnquoteFailed))
    {
      if !connected {
        return Fail(ConnectionFailed);
      }
      ghost var services := ServiceNames(workloads);
      watched := {};
      var i := 0;
      while i < |workloads|
        invariant 0 <= i <= |workloads|
        invariant forall j :: 0 <= j < i ==>
          propertyOk(DefaultServiceName(workloads[j])) && unquoteOk(DefaultServiceName(workloads[j]))
        invariant watched == Elements(services[..i])
        invariant events == old(events)
      {
        var serviceName := DefaultServiceName(workloads[i]);
        if !propertyOk(serviceName) {
          return Fail(PropertyQueryFailed(workloads[i]));
        }
        if !unquoteOk(serviceName) {
          return Fail(UnquoteFailed);
        }
        Add(serviceName);
        assert services[..i + 1] == services[..i] + [serviceName];
        i := i + 1;
      }
      assert services[..i] == services;
      r := Pass;
    }
  }

  /** No identifier of `services` is in `watched` or earlier in `services`. */
  predicate AllNew(watched: set<string>, services: seq<string>) {
    forall i :: 0 <= i < |services| ==> services[i] !in watched && services[i] !in services[..i]
  }

  /** Index `k` is the first identifier of `services` that is already watched or repeated. */
  predicate ConflictAt(watched: set<string>, services: seq<string>, k: int) {
    0 <= k < |services| && AllNew(watched, services[..k]) &&
    (services[k] in watched || services[k] in services[..k])
  }
}
