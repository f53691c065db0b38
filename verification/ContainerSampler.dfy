/** Sampling all containers: which of them are reported, in which order, and with which groups of metrics. */
module ContainerSampler {
  import opened Machine
  import opened Outcomes
  import opened Text
  import opened Cpu
  import opened MetricsFetcher
  import opened Runs
  import opened Attributes
  import opened MetricSets
  import opened MetricNames
  import opened Emission
  import MemoryLimits
  import BlkioTotals
  import RawBlkio
  import Decimal

  /** What is reported of a container: the attributes common to all, and for a running one its sample. */
  datatype Report = Report(attributes: AttributeMap, running: Option<Sample>)

  /** A metric set as emitted. */
  type Output = map<string, Datum>

  /** The number a metric set shows for a metric. */
  function NumberAt(out: Output, m: Metric): Option<real> {
    var v: Option<Datum> := ValueAt(out, MetricName(m));
    if v.Some? && v.value.Number? then Some(v.value.number) else None
  }

  /** The metric set holds the attributes and exactly the metrics of the report, and those of the storage driver. */
  ghost predicate Realises(out: Output, storage: Option<DeviceMapperStats>, r: Report) {
    NoMetricNames(r.attributes) && Complete(out, r.attributes, storage, r.running)
  }

  ghost predicate AllRealise(outs: seq<Output>, storage: Option<DeviceMapperStats>, rs: seq<Report>) {
    |outs| == |rs| && forall i :: 0 <= i < |outs| ==> Realises(outs[i], storage, rs[i])
  }

  predicate IsRunning(c: Summary) {
    ToLower(c.state) == "running" || ToLower(c.status) == "running" || "up" <= ToLower(c.status)
  }

  /** The state or the status spells "running", or the status starts with "up", each in whatever case. */
  lemma RunningMeans(c: Summary)
    ensures IsRunning(c) <==> Spells(c.state, "running") || Spells(c.status, "running") || StartsLike(c.status, "up")
  {
    ToLowerSpells(c.state, "running");
    ToLowerSpells(c.status, "running");
    ToLowerSpells(c.status, "up");
  }

  predicate Dropped(ttl: int64, call: Call) {
    Fetched(ttl, call) == Err(ExpiredContainer)
  }

  /** The sample `Process` returns: the zero sample when the call fails. */
  function Processed(ttl: int64, numCPU: Positive, store: Store, call: Call): Sample
    requires Safe(ttl, store, call)
  {
    match Fetched(ttl, call)
    case Err(_) => NO_SAMPLE
    case Ok((json, m)) => SampleFor(numCPU, store, json, m, call.hit)
  }

  function SetFor(c: Summary, sample: Sample): Report {
    Report(Shown(c), if IsRunning(c) then Some(sample) else None)
  }

  /** One round over the containers, when every entity can be created. */
  function Emitted(ttl: int64, numCPU: Positive, store: Store, containers: seq<Summary>, calls: seq<Call>): seq<Report>
    requires |calls| == |containers| && RunSafe(ttl, store, calls)
    decreases |calls|
  {
    if calls == [] then []
    else
      (if Dropped(ttl, calls[0]) then [] else [SetFor(containers[0], Processed(ttl, numCPU, store, calls[0]))])
      + Emitted(ttl, numCPU, StoreStep(ttl, store, calls[0]), containers[1..], calls[1..])
  }

  /** What a round emits and leaves in the store, and whether it gets through. */
  datatype RoundResult = RoundResult(sets: seq<Report>, store: Store, ok: bool)

  function After(sets: seq<Report>, r: RoundResult): RoundResult {
    r.(sets := sets + r.sets)
  }

  /** One round, which stops at the first container whose entity cannot be created. */
  function Round(ttl: int64, numCPU: Positive, store: Store, containers: seq<Summary>, calls: seq<Call>,
                 creatable: seq<bool>): RoundResult
    requires |calls| == |containers| == |creatable| && RunSafe(ttl, store, calls)
    decreases |calls|
  {
    if calls == [] then RoundResult([], store, true)
    else
      var next := StoreStep(ttl, store, calls[0]);
      if Dropped(ttl, calls[0]) then Round(ttl, numCPU, next, containers[1..], calls[1..], creatable[1..])
      else if !creatable[0] then RoundResult([], next, false)
      else
        After([SetFor(containers[0], Processed(ttl, numCPU, store, calls[0]))],
              Round(ttl, numCPU, next, containers[1..], calls[1..], creatable[1..]))
  }

  lemma AfterTwice(sets: seq<Report>, s: Report, r: RoundResult)
    ensures After(sets, After([s], r)) == After(sets + [s], r)
  {
  }

  /** The loop body: the metric set of one container, none for an expired one; or the failure to create its entity. */
  method SampleOne(fetcher: Fetcher, container: Summary, call: Call, creatable: bool,
                   storage: Option<DeviceMapperStats>)
    returns (out: Option<Output>, ok: bool)
    requires Safe(fetcher.exitedContainerTTL, fetcher.store, call)
    modifies fetcher
    ensures fetcher.store == StoreStep(fetcher.exitedContainerTTL, old(fetcher.store), call)
    ensures ok <==> Dropped(fetcher.exitedContainerTTL, call) || creatable
    ensures ok ==>
      if Dropped(fetcher.exitedContainerTTL, call) then out == None
      else
        out.Some? &&
        Realises(out.value, storage,
                 SetFor(container, Processed(fetcher.exitedContainerTTL, fetcher.numCPU, old(fetcher.store), call)))
  {
    var metrics, err := fetcher.Process(call);
    if err == Some(ExpiredContainer) {
      return None, true;
    }
    if !creatable {
      return None, false;
    }
    var ms := PopulateCommon(container);
    ShownHasNoMetricNames(container);
    if ToLower(container.state) != "running" && ToLower(container.status) != "running"
       && !("up" <= ToLower(container.status)) {
      PopulateNumbers(ms, storage, None, Shown(container));
      return Some(ms.metrics), true;
    }
    PopulateNumbers(ms, storage, Some(metrics), Shown(container));
    return Some(ms.metrics), true;
  }

  /** `SampleAll`, after the container list and the storage driver's statistics were fetched. */
  method SampleAll(fetcher: Fetcher, containers: seq<Summary>, calls: seq<Call>, creatable: seq<bool>,
                   storage: Option<DeviceMapperStats>)
    returns (emitted: seq<Output>, ok: bool)
    requires |calls| == |containers| == |creatable|
    requires RunSafe(fetcher.exitedContainerTTL, fetcher.store, calls)
    modifies fetcher
    ensures var ttl, numCPU := fetcher.exitedContainerTTL, fetcher.numCPU;
      var round := Round(ttl, numCPU, old(fetcher.store), containers, calls, creatable);
      AllRealise(emitted, storage, round.sets) && fetcher.store == round.store && ok == round.ok
  {
    var ttl, numCPU := fetcher.exitedContainerTTL, fetcher.numCPU;
    ghost var round := Round(ttl, numCPU, fetcher.store, containers, calls, creatable);
    ghost var done: seq<Report> := [];
    emitted := [];
    assert calls[0..] == calls && containers[0..] == containers && creatable[0..] == creatable;
    assert [] + round.sets == round.sets;
    for i := 0 to |containers|
      invariant RunSafe(ttl, fetcher.store, calls[i..])
      invariant round == After(done, Round(ttl, numCPU, fetcher.store, containers[i..], calls[i..], creatable[i..]))
      invariant AllRealise(emitted, storage, done)
    {
      assert calls[i..][0] == calls[i] && calls[i..][1..] == calls[i + 1..];
      assert creatable[i..][0] == creatable[i] && creatable[i..][1..] == creatable[i + 1..];
      assert containers[i..][0] == containers[i] && containers[i..][1..] == containers[i + 1..];
      ghost var report := SetFor(containers[i], Processed(ttl, numCPU, fetcher.store, calls[i]));
      var out, created := SampleOne(fetcher, containers[i], calls[i], creatable[i], storage);
      if !created {
        assert done + [] == done;
        return emitted, false;
      }
      if out.Some? {
        AfterTwice(done, report,
                   Round(ttl, numCPU, fetcher.store, containers[i + 1..], calls[i + 1..], creatable[i + 1..]));
        done := done + [report];
        emitted := emitted + [out.value];
      }
    }
    assert done + [] == done;
    ok := true;
  }

  /** Every entity that is needed can be created. */
  predicate Creatable(ttl: int64, calls: seq<Call>, creatable: seq<bool>)
    requires |calls| == |creatable|
  {
    forall i :: 0 <= i < |calls| ==> Dropped(ttl, calls[i]) || creatable[i]
  }

  lemma CreatableCons(ttl: int64, calls: seq<Call>, creatable: seq<bool>)
    requires |calls| == |creatable| > 0
    ensures Creatable(ttl, calls, creatable)
            <==> (Dropped(ttl, calls[0]) || creatable[0]) && Creatable(ttl, calls[1..], creatable[1..])
  {
    assert forall i :: 1 <= i < |calls| ==> calls[i] == calls[1..][i - 1] && creatable[i] == creatable[1..][i - 1];
  }

  /** A round gets through exactly if every entity it needs can be created; then it emits for the whole list, and
      otherwise a prefix of that. */
  lemma {:induction false} RoundEmits(ttl: int64, numCPU: Positive, store: Store, containers: seq<Summary>,
                                      calls: seq<Call>, creatable: seq<bool>)
    requires |calls| == |containers| == |creatable| && RunSafe(ttl, store, calls)
    ensures var r := Round(ttl, numCPU, store, containers, calls, creatable);
      && (r.ok <==> Creatable(ttl, calls, creatable))
      && (r.ok ==> r.sets == Emitted(ttl, numCPU, store, containers, calls) && r.store == StoreAfter(ttl, store, calls))
      && r.sets <= Emitted(ttl, numCPU, store, containers, calls)
    decreases |calls|
  {
    if calls != [] {
      var next := StoreStep(ttl, store, calls[0]);
      RoundEmits(ttl, numCPU, next, containers[1..], calls[1..], creatable[1..]);
      var rest := Emitted(ttl, numCPU, next, containers[1..], calls[1..]);
      assert [] + rest == rest;
      CreatableCons(ttl, calls, creatable);
    }
  }

  // ----- Which containers are emitted

  /** The containers that are not dropped, in list order. */
  function Kept(ttl: int64, containers: seq<Summary>, calls: seq<Call>): seq<Summary>
    requires |calls| == |containers|
  {
    if calls == [] then []
    else (if Dropped(ttl, calls[0]) then [] else [containers[0]]) + Kept(ttl, containers[1..], calls[1..])
  }

  /** Whatever the store holds: the non-expired containers are emitted in list order, each with its own attributes, and
      the running-only groups are present exactly for those whose summary says running. */
  lemma {:induction false} EmittedContainers(ttl: int64, numCPU: Positive, store: Store, containers: seq<Summary>,
                                             calls: seq<Call>)
    requires |calls| == |containers| && RunSafe(ttl, store, calls)
    ensures var sets, kept := Emitted(ttl, numCPU, store, containers, calls), Kept(ttl, containers, calls);
      |sets| == |kept| && forall i :: 0 <= i < |sets| ==>
        sets[i].attributes == Shown(kept[i]) && (sets[i].running.Some? <==> IsRunning(kept[i]))
    decreases |calls|
  {
    if calls != [] {
      EmittedContainers(ttl, numCPU, StoreStep(ttl, store, calls[0]), containers[1..], calls[1..]);
    }
  }

  lemma {:induction false} EmittedAt(ttl: int64, numCPU: Positive, store: Store, containers: seq<Summary>,
                                     calls: seq<Call>, i: nat)
    requires |calls| == |containers| && RunSafe(ttl, store, calls) && i < |calls|
    ensures RunSafe(ttl, store, calls[..i]) && Safe(ttl, StoreAfter(ttl, store, calls[..i]), calls[i])
    ensures !Dropped(ttl, calls[i]) ==>
      SetFor(containers[i], Processed(ttl, numCPU, StoreAfter(ttl, store, calls[..i]), calls[i]))
      in Emitted(ttl, numCPU, store, containers, calls)
    decreases i
  {
    if i > 0 {
      assert calls[..i][0] == calls[0] && calls[..i][1..] == calls[1..][..i - 1];
      EmittedAt(ttl, numCPU, StoreStep(ttl, store, calls[0]), containers[1..], calls[1..], i - 1);
    }
  }

  /** Among the metric sets of a round is the one of each container that was not dropped. */
  lemma EmittedSet(ttl: int64, numCPU: Positive, store: Store, containers: seq<Summary>, calls: seq<Call>, i: nat,
                   outs: seq<Output>, storage: Option<DeviceMapperStats>)
    requires |calls| == |containers| && RunSafe(ttl, store, calls) && i < |calls| && !Dropped(ttl, calls[i])
    requires AllRealise(outs, storage, Emitted(ttl, numCPU, store, containers, calls))
    ensures RunSafe(ttl, store, calls[..i]) && Safe(ttl, StoreAfter(ttl, store, calls[..i]), calls[i])
    ensures exists out <- outs ::
      Realises(out, storage,
               SetFor(containers[i], Processed(ttl, numCPU, StoreAfter(ttl, store, calls[..i]), calls[i])))
  {
    EmittedAt(ttl, numCPU, store, containers, calls, i);
    var sets := Emitted(ttl, numCPU, store, containers, calls);
    var report := SetFor(containers[i], Processed(ttl, numCPU, StoreAfter(ttl, store, calls[..i]), calls[i]));
    var k :| 0 <= k < |sets| && sets[k] == report;
    assert Realises(outs[k], storage, report);
  }

  /** A container whose summary says that it runs, and no other one, gets the running-only metrics: for it, the set
      shows all that its sample has a value for, which always includes the restart count; for any other one, no number
      but those of storage. */
  lemma RunningMetrics(out: Output, storage: Option<DeviceMapperStats>, c: Summary, s: Sample)
    requires Realises(out, storage, SetFor(c, s))
    ensures var running := Spells(c.state, "running") || Spells(c.status, "running") || StartsLike(c.status, "up");
      && (running <==> NumberAt(out, RestartCount).Some?)
      && forall m: Metric | !m.OfStorage? :: NumberAt(out, m) == if running then SampleValue(s, m) else None
  {
    RunningMeans(c);
    forall m: Metric | !m.OfStorage?
      ensures NumberAt(out, m) == if IsRunning(c) then SampleValue(s, m) else None
    {
      assert ValueAt(out, MetricName(m)) == AsNumber(Value(storage, SetFor(c, s).running, m));
    }
  }

  /** All attributes of the container are in the metric set. */
  predicate ShowsAttributes(out: Output, c: Summary) {
    forall name <- Shown(c) :: ValueAt(out, name) == Some(Text(Shown(c)[name]))
  }

  lemma RealisedMeans(out: Output, storage: Option<DeviceMapperStats>, c: Summary, running: Option<Sample>)
    requires Realises(out, storage, Report(Shown(c), running))
    ensures ShowsAttributes(out, c)
    ensures forall m :: NumberAt(out, m) == Value(storage, running, m)
  {
    forall name <- Shown(c)
      ensures !IsMetricName(name)
    {
    }
  }

  /** Some metric set emitted for the container shows these CPU metrics. */
  ghost predicate ShowsCpu(outs: seq<Output>, c: Summary, cpu: CpuSample) {
    exists out <- outs ::
      ShowsAttributes(out, c) && forall k :: NumberAt(out, OfCpu(k)) == Some(CpuValue(cpu, k))
  }

  lemma EmittedCpu(ttl: int64, numCPU: Positive, store: Store, containers: seq<Summary>, calls: seq<Call>, i: nat,
                   outs: seq<Output>, storage: Option<DeviceMapperStats>)
    requires |calls| == |containers| && RunSafe(ttl, store, calls) && i < |calls|
    requires Fetched(ttl, calls[i]).Ok? && IsRunning(containers[i])
    requires AllRealise(outs, storage, Emitted(ttl, numCPU, store, containers, calls))
    ensures RunSafe(ttl, store, calls[..i]) && Safe(ttl, StoreAfter(ttl, store, calls[..i]), calls[i])
    ensures var (json, m) := Fetched(ttl, calls[i]).value;
      ShowsCpu(outs, containers[i], SampleFor(numCPU, StoreAfter(ttl, store, calls[..i]), json, m, calls[i].hit).cpu)
  {
    EmittedSet(ttl, numCPU, store, containers, calls, i, outs, storage);
    var s := Processed(ttl, numCPU, StoreAfter(ttl, store, calls[..i]), calls[i]);
    var out :| out in outs && Realises(out, storage, SetFor(containers[i], s));
    RealisedMeans(out, storage, containers[i], Some(s));
    forall k
      ensures NumberAt(out, OfCpu(k)) == Some(CpuValue(s.cpu, k))
    {
      assert NumberAt(out, OfCpu(k)) == Value(storage, Some(s), OfCpu(k));
    }
    assert ShowsCpu(outs, containers[i], s.cpu);
  }

  /** From the host to the report: whatever rounds came before and whatever other containers this one holds, the CPU
      metrics emitted for a running container are those of replaying its own fetches alone. */
  lemma ReportedCpuIsPrivate(ttl: int64, numCPU: Positive, store: Store, earlier: seq<Call>,
                             containers: seq<Summary>, calls: seq<Call>, i: nat,
                             outs: seq<Output>, storage: Option<DeviceMapperStats>)
    requires |calls| == |containers| && i < |calls|
    requires RunSafe(ttl, store, earlier) && RunSafe(ttl, StoreAfter(ttl, store, earlier), calls)
    requires Fetched(ttl, calls[i]).Ok? && IsRunning(containers[i])
    requires AllRealise(outs, storage, Emitted(ttl, numCPU, StoreAfter(ttl, store, earlier), containers, calls))
    ensures var (_, m) := Fetched(ttl, calls[i]).value;
      var rs := Readings(ttl, earlier + calls[..i] + [calls[i]], m.containerID);
      && rs != [] && ReplaySafe(Lookup(store, m.containerID), rs)
      && ShowsCpu(outs, containers[i], Replay(numCPU, Lookup(store, m.containerID), rs)[|rs| - 1])
  {
    RunConcat(ttl, store, earlier, calls);
    EmittedCpu(ttl, numCPU, StoreAfter(ttl, store, earlier), containers, calls, i, outs, storage);
    RunConcat(ttl, store, earlier, calls[..i]);
    SampleIsReplayed(ttl, numCPU, store, earlier + calls[..i], calls[i]);
  }

  // ----- From counters to metrics

  /** A metric set of a running container whose sample was made from this inspection and these metrics. */
  ghost predicate MadeFrom(out: Output, storage: Option<DeviceMapperStats>, c: Summary, json: Inspect, m: Metrics) {
    exists s: Sample ::
      && s.pids == m.pids && s.network == m.network && s.restartCount == json.restartCount
      && s.memory == MemoryLimits.MemoryOf(m.memory) && s.blkIO == BlkioTotals.TotalsOf(m.blkio)
      && Realises(out, storage, Report(Shown(c), Some(s)))
  }

  /** The metric set emitted for a running container shows the memory limits and block I/O of its own fetch. */
  lemma EmittedFromFetch(ttl: int64, numCPU: Positive, store: Store, containers: seq<Summary>, calls: seq<Call>, i: nat,
                         outs: seq<Output>, storage: Option<DeviceMapperStats>)
    requires |calls| == |containers| && RunSafe(ttl, store, calls) && i < |calls|
    requires Fetched(ttl, calls[i]).Ok? && IsRunning(containers[i])
    requires AllRealise(outs, storage, Emitted(ttl, numCPU, store, containers, calls))
    ensures calls[i].inspect.Some? && calls[i].fetch.Some?
    ensures exists out <- outs ::
      MadeFrom(out, storage, containers[i], calls[i].inspect.value, calls[i].fetch.value)
  {
    EmittedSet(ttl, numCPU, store, containers, calls, i, outs, storage);
    var s := Processed(ttl, numCPU, StoreAfter(ttl, store, calls[..i]), calls[i]);
    var out :| out in outs && Realises(out, storage, SetFor(containers[i], s));
    FetchedMeans(ttl, calls[i]);
    assert MadeFrom(out, storage, containers[i], calls[i].inspect.value, calls[i].fetch.value);
  }

  /** The soft limit, from the text of the v1 file to the metric set. */
  lemma SoftLimitInMetricSet(out: Output, storage: Option<DeviceMapperStats>, c: Summary, json: Inspect, m: Metrics,
                             text: string)
    requires MadeFrom(out, storage, c, json, m) && m.memory.softLimit == MemoryLimits.SoftLimitOf(Some(text))
    ensures var t := TrimSpace(text);
      NumberAt(out, OfMemory(MemoryLimits.SoftLimitBytes))
      == if Decimal.IsDecimal(t) && 1 <= Decimal.Value(t) <= HALF_MAX_INT64 then Some(Decimal.Value(t) as real)
         else None
  {
    MemoryLimits.EmittedSoftLimit(text, m.memory);
  }

  /** The swap limit, from Docker's settings to the metric set. */
  lemma SwapLimitInMetricSet(out: Output, storage: Option<DeviceMapperStats>, c: Summary, json: Inspect, m: Metrics,
                             memorySwap: int64, memory: int64)
    requires MadeFrom(out, storage, c, json, m)
    requires m.memory.swapLimit == MemoryLimits.DockerSwapLimit(memorySwap, memory)
    requires memorySwap >= -1 && memory >= 0
    ensures NumberAt(out, OfMemory(MemoryLimits.SwapLimitBytes))
            == if 0 < memorySwap - memory <= HALF_MAX_INT64 then Some((memorySwap - memory) as real) else None
  {
    MemoryLimits.EmittedSwapLimit(memorySwap, memory, m.memory);
  }

  /** Block I/O statistics as either fetcher makes them of these devices: from the text of the v1 files, or as v2. */
  predicate BlkioOf(stats: RawBlkio.Stats, ds: seq<RawBlkio.Device>, bytesTotal: nat, servicedTotal: nat) {
    || (&& RawBlkio.ReadLines(RawBlkio.V1File(ds, true, bytesTotal)) == Some(stats.serviceBytes)
        && RawBlkio.ReadLines(RawBlkio.V1File(ds, false, servicedTotal)) == Some(stats.serviced))
    || stats == RawBlkio.Stats(RawBlkio.V2Entries(ds, true), RawBlkio.V2Entries(ds, false))
  }

  lemma BlkioTotalsAreExact(stats: RawBlkio.Stats, ds: seq<RawBlkio.Device>, bytesTotal: nat, servicedTotal: nat)
    requires BlkioOf(stats, ds, bytesTotal, servicedTotal)
    ensures BlkioTotals.TotalsOf(stats) == BlkioTotals.ExactTotals(ds)
  {
    BlkioTotals.PipelinesAgree(ds, bytesTotal, servicedTotal);
    assert stats == RawBlkio.Stats(stats.serviceBytes, stats.serviced);
  }

  lemma BlkioAsSampled(out: Output, storage: Option<DeviceMapperStats>, c: Summary, json: Inspect, m: Metrics,
                       k: BlkioTotals.Metric)
    requires MadeFrom(out, storage, c, json, m)
    ensures NumberAt(out, OfBlkio(k)) == BlkioTotals.MetricValue(BlkioTotals.TotalsOf(m.blkio), k)
  {
  }

  /** All block I/O metrics, from the devices to the metric set. */
  lemma BlkioInMetricSet(out: Output, storage: Option<DeviceMapperStats>, c: Summary, json: Inspect, m: Metrics,
                         ds: seq<RawBlkio.Device>, bytesTotal: nat, servicedTotal: nat, k: BlkioTotals.Metric)
    requires MadeFrom(out, storage, c, json, m) && BlkioOf(m.blkio, ds, bytesTotal, servicedTotal)
    ensures NumberAt(out, OfBlkio(k)) == BlkioTotals.MetricValue(BlkioTotals.ExactTotals(ds), k)
  {
    BlkioTotalsAreExact(m.blkio, ds, bytesTotal, servicedTotal);
    BlkioAsSampled(out, storage, c, json, m, k);
  }

  /** The parts of a fetch that are shown as they are: threads, restarts and the eight network counters. */
  lemma PlainNumbersInMetricSet(out: Output, storage: Option<DeviceMapperStats>, c: Summary, json: Inspect, m: Metrics)
    requires MadeFrom(out, storage, c, json, m)
    ensures NumberAt(out, ThreadCount) == Some(m.pids.current as real)
    ensures NumberAt(out, ThreadCountLimit) == Some(m.pids.limit as real)
    ensures NumberAt(out, RestartCount) == Some(json.restartCount as real)
    ensures forall k, perSecond :: NumberAt(out, OfNetwork(k, perSecond)) == Some(NetworkValue(m.network, k))
  {
  }

  // ----- Expiry

  /** A container is dropped exactly when it is found exited, a TTL is set, and its age exceeds it. */
  lemma DroppedMeans(ttl: int64, call: Call)
    ensures Dropped(ttl, call) <==>
      && call.inspect.Some? && call.inspect.value.id != "" && Exited(call.inspect.value)
      && ttl != 0 && call.inspect.value.state.value.finishedAt.Some?
      && SaturatedSub(call.now, call.inspect.value.state.value.finishedAt.value) > ttl
  {
    FetchedMeans(ttl, call);
  }

  /** A later call still finds the container exited, since the same time, and the clock did not go back. */
  predicate StillExited(earlier: Call, later: Call) {
    && earlier.inspect.Some? && earlier.inspect.value.state.Some?
    && later.inspect.Some? && later.inspect.value.id != "" && Exited(later.inspect.value)
    && later.inspect.value.state.value.finishedAt == earlier.inspect.value.state.value.finishedAt
    && earlier.now <= later.now
  }

  lemma StaysDropped(ttl: int64, earlier: Call, later: Call)
    requires Dropped(ttl, earlier) && StillExited(earlier, later)
    ensures Dropped(ttl, later)
  {
    DroppedMeans(ttl, earlier);
    DroppedMeans(ttl, later);
  }

  lemma {:induction false} KeptMeans(ttl: int64, containers: seq<Summary>, calls: seq<Call>, c: Summary)
    requires |calls| == |containers| && c in Kept(ttl, containers, calls)
    ensures exists j :: 0 <= j < |calls| && containers[j] == c && !Dropped(ttl, calls[j])
    decreases |calls|
  {
    if !Dropped(ttl, calls[0]) && containers[0] == c {
      assert containers[0] == c && !Dropped(ttl, calls[0]);
    } else {
      KeptMeans(ttl, containers[1..], calls[1..], c);
      var j :| 0 <= j < |calls[1..]| && containers[1..][j] == c && !Dropped(ttl, calls[1..][j]);
      assert containers[j + 1] == c && !Dropped(ttl, calls[j + 1]);
    }
  }

  lemma IDIsShown(c: Summary)
    ensures ValueAt(Shown(c), "containerId") == Some(c.id)
  {
    OwnAttributesAreShown(c);
    assert ("containerId", c.id) in Identified(c).Items;
  }

  /** No metric set is emitted under an ID all of whose containers are dropped, even if the round ends early. */
  lemma DroppedIsNotEmitted(ttl: int64, numCPU: Positive, store: Store, containers: seq<Summary>, calls: seq<Call>,
                            creatable: seq<bool>, id: string)
    requires |calls| == |containers| == |creatable| && RunSafe(ttl, store, calls)
    requires forall j :: 0 <= j < |calls| && containers[j].id == id ==> Dropped(ttl, calls[j])
    ensures forall r <- Round(ttl, numCPU, store, containers, calls, creatable).sets ::
      ValueAt(r.attributes, "containerId") != Some(id)
  {
    var sets, kept := Emitted(ttl, numCPU, store, containers, calls), Kept(ttl, containers, calls);
    RoundEmits(ttl, numCPU, store, containers, calls, creatable);
    EmittedContainers(ttl, numCPU, store, containers, calls);
    forall k | 0 <= k < |sets|
      ensures ValueAt(sets[k].attributes, "containerId") != Some(id)
    {
      KeptMeans(ttl, containers, calls, kept[k]);
      IDIsShown(kept[k]);
    }
  }

  // ----- Rounds

  datatype RoundInput = RoundInput(containers: seq<Summary>, calls: seq<Call>, creatable: seq<bool>) {
    predicate Valid() {
      |calls| == |containers| == |creatable|
    }
  }

  function RoundOf(ttl: int64, numCPU: Positive, store: Store, round: RoundInput): RoundResult
    requires round.Valid() && RunSafe(ttl, store, round.calls)
  {
    Round(ttl, numCPU, store, round.containers, round.calls, round.creatable)
  }

  /** No round meets an unset counter. */
  predicate RoundsSafe(ttl: int64, numCPU: Positive, store: Store, rounds: seq<RoundInput>)
    decreases |rounds|
  {
    rounds == [] ||
    (&& rounds[0].Valid() && RunSafe(ttl, store, rounds[0].calls)
     && RoundsSafe(ttl, numCPU, RoundOf(ttl, numCPU, store, rounds[0]).store, rounds[1..]))
  }

  /** Successive rounds over one store. */
  function Rounds(ttl: int64, numCPU: Positive, store: Store, rounds: seq<RoundInput>): (results: seq<RoundResult>)
    requires RoundsSafe(ttl, numCPU, store, rounds)
    ensures |results| == |rounds|
    decreases |rounds|
  {
    if rounds == [] then []
    else
      var first := RoundOf(ttl, numCPU, store, rounds[0]);
      [first] + Rounds(ttl, numCPU, first.store, rounds[1..])
  }

  /** The calls for an ID in one round all still find it exited, compared with an earlier call. */
  predicate StillExitedIn(earlier: Call, round: RoundInput, id: string)
    requires round.Valid()
  {
    forall j :: 0 <= j < |round.calls| && round.containers[j].id == id ==> StillExited(earlier, round.calls[j])
  }

  /** What holds of a round over any store holds of every round. */
  lemma {:induction false} DroppedInRound(ttl: int64, numCPU: Positive, store: Store, rounds: seq<RoundInput>, b: nat,
                                          earlier: Call, id: string)
    requires RoundsSafe(ttl, numCPU, store, rounds) && b < |rounds|
    requires Dropped(ttl, earlier) && (rounds[b].Valid() ==> StillExitedIn(earlier, rounds[b], id))
    ensures rounds[b].Valid()
    ensures forall r <- Rounds(ttl, numCPU, store, rounds)[b].sets :: ValueAt(r.attributes, "containerId") != Some(id)
    decreases b
  {
    if b > 0 {
      DroppedInRound(ttl, numCPU, RoundOf(ttl, numCPU, store, rounds[0]).store, rounds[1..], b - 1, earlier, id);
    } else {
      var round := rounds[0];
      forall j | 0 <= j < |round.calls| && round.containers[j].id == id
        ensures Dropped(ttl, round.calls[j])
      {
        StaysDropped(ttl, earlier, round.calls[j]);
      }
      DroppedIsNotEmitted(ttl, numCPU, store, round.containers, round.calls, round.creatable, id);
    }
  }

  /** Metric sets under an ID are those whose report is. */
  lemma EmittedID(out: Output, storage: Option<DeviceMapperStats>, r: Report)
    requires Realises(out, storage, r)
    ensures ValueAt(out, "containerId") == AsText(ValueAt(r.attributes, "containerId"))
  {
    forall m: Metric
      ensures MetricName(m) != "containerId"
    {
      NameStart(m);
    }
    assert !IsMetricName("containerId");
  }

  /** Expiry is permanent: once a container is dropped in a round, no later round that still finds it exited since the
      same time, with a clock that did not go back, emits a metric set under its ID. */
  lemma ExpiryIsPermanent(ttl: int64, numCPU: Positive, store: Store, rounds: seq<RoundInput>, a: nat, i: nat, b: nat,
                          outs: seq<Output>, storage: Option<DeviceMapperStats>)
    requires RoundsSafe(ttl, numCPU, store, rounds) && a < b < |rounds|
    requires rounds[a].Valid() && i < |rounds[a].calls| && Dropped(ttl, rounds[a].calls[i])
    requires rounds[b].Valid() && StillExitedIn(rounds[a].calls[i], rounds[b], rounds[a].containers[i].id)
    requires AllRealise(outs, storage, Rounds(ttl, numCPU, store, rounds)[b].sets)
    ensures forall out <- outs :: ValueAt(out, "containerId") != Some(Text(rounds[a].containers[i].id))
  {
    DroppedInRound(ttl, numCPU, store, rounds, b, rounds[a].calls[i], rounds[a].containers[i].id);
    var sets := Rounds(ttl, numCPU, store, rounds)[b].sets;
    forall k | 0 <= k < |outs|
      ensures ValueAt(outs[k], "containerId") != Some(Text(rounds[a].containers[i].id))
    {
      EmittedID(outs[k], storage, sets[k]);
      assert sets[k] in sets;
    }
  }
}
