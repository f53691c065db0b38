/** Processing one container: inspection, expiry of exited containers, and the samples of running ones, with a
    store that keeps each container's last CPU reading between runs. */
module MetricsFetcher {
  import opened Machine
  import opened Outcomes
  import opened Text
  import opened Networks
  import opened Cpu
  import RawBlkio
  import BlkioTotals
  import MemoryLimits

  datatype Pids = Pids(current: uint64, limit: uint64)

  /** `raw.Metrics`. */
  datatype Metrics = Metrics(
    time: int, containerID: string, memory: MemoryLimits.RawMemory, network: Counters, cpu: RawCPU, pids: Pids,
    blkio: RawBlkio.Stats)

  /** `biz.Sample`. */
  datatype Sample = Sample(
    pids: Pids, network: Counters, blkIO: BlkioTotals.BlkIO, cpu: CpuSample, memory: MemoryLimits.Memory,
    restartCount: int)

  const NO_MEMORY := MemoryLimits.Memory(0, 0, 0, 0, 0.0, 0, 0, 0, None, None, None)
  const NO_SAMPLE := Sample(Pids(0, 0), ZERO, BlkioTotals.BlkIO(None, None, None, None), ZERO_SAMPLE, NO_MEMORY, 0)

  /** A failing call returns a sample in which nothing is known and every number is 0. */
  lemma NoSampleMeans()
    ensures var s := NO_SAMPLE;
      && s.pids.current == s.pids.limit == 0 && s.restartCount == 0
      && s.network == Counters(0, 0, 0, 0, 0, 0, 0, 0)
      && s.blkIO == BlkioTotals.BlkIO(None, None, None, None)
      && s.cpu == CpuSample(0.0, 0.0, 0.0, 0.0, 0.0, 0.0, 0, 0.0, 0)
      && s.memory == MemoryLimits.Memory(0, 0, 0, 0, 0.0, 0, 0, 0, None, None, None)
  {
  }

  /** The finish time is what parsing `FinishedAt` gives, if it parses. */
  datatype State = State(status: string, finishedAt: Option<int>)

  /** What the code reads of an inspection: `nanoCPUs` is 0 without a host configuration or a quota. */
  datatype Inspect = Inspect(id: string, state: Option<State>, nanoCPUs: int, restartCount: int)

  datatype Error = InspectFailed | EmptyInspect | BadFinishTime | ExpiredContainer | UnexpiredContainer | FetchFailed

  /** What one call of `Process` meets outside: the answers of inspector and fetcher, the clock, and whether the
      store still has the entry it holds. */
  datatype Call = Call(inspect: Option<Inspect>, fetch: Option<Metrics>, now: int, hit: bool)

  type Store = map<string, Stored>

  type Positive = n: int | n > 0 witness 1

  /** `isExpired`. */
  function IsExpired(ttl: int64, finishedAt: Option<int>, now: int): Option<bool> {
    if ttl == 0 then Some(false)
    else if finishedAt.None? then None
    else Some(SaturatedSub(now, finishedAt.value) > ttl)
  }

  /** Whether a call gets as far as a sample, and from which inspection and metrics. The store plays no part. */
  function Fetched(ttl: int64, call: Call): Result<(Inspect, Metrics), Error> {
    if call.inspect.None? then Err(InspectFailed)
    else
      var json := call.inspect.value;
      if json.id == "" then Err(EmptyInspect)
      else if json.state.Some? && ToLower(json.state.value.status) == "exited" then
        match IsExpired(ttl, json.state.value.finishedAt, call.now)
        case None => Err(BadFinishTime)
        case Some(expired) => Err(if expired then ExpiredContainer else UnexpiredContainer)
      else if call.fetch.None? then Err(FetchFailed)
      else Ok((json, call.fetch.value))
  }

  /** The inspection shows an exited container, in whatever case it is written. */
  predicate Exited(json: Inspect) {
    json.state.Some? && Spells(json.state.value.status, "exited")
  }

  /** When a call fails, and how: each outcome by what the call met. An exited container is never fetched, whether or
      not it has expired. */
  lemma FetchedMeans(ttl: int64, call: Call)
    ensures var r := Fetched(ttl, call);
      && (r == Err(InspectFailed) <==> call.inspect == None)
      && (r == Err(EmptyInspect) <==> call.inspect.Some? && call.inspect.value.id == "")
      && (call.inspect.Some? && call.inspect.value.id != "" ==>
            var json := call.inspect.value;
            && (Exited(json) ==>
                  var finished := json.state.value.finishedAt;
                  && (r == Err(BadFinishTime) <==> ttl != 0 && finished == None)
                  && (r == Err(ExpiredContainer) <==>
                        ttl != 0 && finished.Some? && SaturatedSub(call.now, finished.value) > ttl)
                  && (r == Err(UnexpiredContainer) <==>
                        ttl == 0 || (finished.Some? && SaturatedSub(call.now, finished.value) <= ttl)))
            && (!Exited(json) ==>
                  && (r == Err(FetchFailed) <==> call.fetch == None)
                  && (call.fetch.Some? ==> r == Ok((json, call.fetch.value)))))
  {
    if call.inspect.Some? && call.inspect.value.state.Some? {
      ToLowerSpells(call.inspect.value.state.value.status, "exited");
    }
  }

  function Lookup(store: Store, id: string): Option<Stored> {
    if id in store then Some(store[id]) else None
  }

  /** What `Get` returns: the entry, unless it expired. */
  function Recall(entry: Option<Stored>, hit: bool): Option<Stored> {
    if hit then entry else None
  }

  function LimitCores(nanoCPUs: int, numCPU: Positive): (cores: real)
    ensures cores != 0.0
  {
    if nanoCPUs != 0 then nanoCPUs as real / 1000000000.0 else numCPU as real
  }

  /** The quota in billionths of a CPU, or the CPUs of the host. */
  lemma LimitCoresMeans(nanoCPUs: int, numCPU: Positive)
    ensures nanoCPUs != 0 ==> LimitCores(nanoCPUs, numCPU) * 1000000000.0 == nanoCPUs as real
    ensures nanoCPUs == 0 ==> LimitCores(nanoCPUs, numCPU) == numCPU as real
  {
  }

  /** The store after a successful call for metrics `m`. */
  function Remember(store: Store, m: Metrics): Store {
    store[m.containerID := StoredOf(m.time, m.cpu)]
  }

  /** No counter that the call needs is unset. */
  predicate Safe(ttl: int64, store: Store, call: Call) {
    match Fetched(ttl, call)
    case Err(_) => true
    case Ok((json, m)) => !Panics(Recall(Lookup(store, m.containerID), call.hit), m.time, m.cpu)
  }

  function SampleFor(numCPU: Positive, store: Store, json: Inspect, m: Metrics, hit: bool): Sample
    requires !Panics(Recall(Lookup(store, m.containerID), hit), m.time, m.cpu)
  {
    Sample(m.pids, m.network, BlkioTotals.TotalsOf(m.blkio),
           SampleOf(Recall(Lookup(store, m.containerID), hit), m.time, m.cpu, LimitCores(json.nanoCPUs, numCPU)),
           MemoryLimits.MemoryOf(m.memory), json.restartCount)
  }

  /** The parts of a sample that are taken over from the fetch and the inspection. */
  lemma SampleParts(numCPU: Positive, store: Store, json: Inspect, m: Metrics, hit: bool)
    requires !Panics(Recall(Lookup(store, m.containerID), hit), m.time, m.cpu)
    ensures var s := SampleFor(numCPU, store, json, m, hit);
      && s.pids.current == m.pids.current && s.pids.limit == m.pids.limit
      && s.network == m.network && s.restartCount == json.restartCount
      && (json.nanoCPUs != 0 ==> s.cpu.limitCores * 1000000000.0 == json.nanoCPUs as real)
      && (json.nanoCPUs == 0 ==> s.cpu.limitCores == numCPU as real)
  {
    LimitCoresMeans(json.nanoCPUs, numCPU);
  }

  /** Without a reading to compare with, because the store has none or its entry expired, all CPU metrics but the limit
      are 0. */
  lemma FirstSample(numCPU: Positive, store: Store, json: Inspect, m: Metrics, hit: bool)
    requires m.containerID !in store || !hit
    ensures SampleFor(numCPU, store, json, m, hit).cpu
            == CpuSample(0.0, 0.0, 0.0, 0.0, LimitCores(json.nanoCPUs, numCPU), 0.0, 0, 0.0, 0)
  {
  }

  class Fetcher {
    var store: Store
    const exitedContainerTTL: int64
    const numCPU: Positive

    constructor (store: Store, exitedContainerTTL: int64, numCPU: Positive)
      ensures this.store == store && this.exitedContainerTTL == exitedContainerTTL && this.numCPU == numCPU
    {
      this.store := store;
      this.exitedContainerTTL := exitedContainerTTL;
      this.numCPU := numCPU;
    }

    /** `cpu`: however it returns, the reading is stored for the next call. */
    method ComputeCPU(metrics: Metrics, json: Inspect, hit: bool) returns (cpu: CpuSample)
      requires !Panics(Recall(Lookup(store, metrics.containerID), hit), metrics.time, metrics.cpu)
      modifies this
      ensures store == Remember(old(store), metrics)
      ensures cpu == SampleOf(Recall(old(Lookup(store, metrics.containerID)), hit), metrics.time, metrics.cpu,
                              LimitCores(json.nanoCPUs, numCPU))
    {
      label body: {
        cpu := ZERO_SAMPLE;
        if json.nanoCPUs != 0 {
          cpu := cpu.(limitCores := json.nanoCPUs as real / 1000000000.0);
        } else {
          cpu := cpu.(limitCores := numCPU as real);
        }
        if metrics.containerID !in store || !hit {
          break body;
        }
        var previous := store[metrics.containerID];
        var durationNS := DurationNS(previous, metrics.time);
        if durationNS <= 0 {
          break body;
        }
        var online: int := OnlineCPUsWithFallback(metrics.cpu);
        var maxVal := Int64(online * 100) as real;
        cpu := cpu.(cpuPercent := CpuPercent(previous.cpu, metrics.cpu));
        var userDelta := Delta(metrics.cpu.usageInUsermode.value, previous.cpu.usageInUsermode.value);
        cpu := cpu.(userPercent := MinReal(maxVal, userDelta as real * 100.0 / durationNS as real));
        var kernelDelta := Delta(metrics.cpu.usageInKernelmode.value, previous.cpu.usageInKernelmode.value);
        cpu := cpu.(kernelPercent := MinReal(maxVal, kernelDelta as real * 100.0 / durationNS as real));
        cpu := cpu.(usedCores := Delta(metrics.cpu.totalUsage, previous.cpu.totalUsage) as real / durationNS as real);
        cpu := cpu.(throttlePeriods := metrics.cpu.throttledPeriods);
        cpu := cpu.(throttledTime := metrics.cpu.throttledTimeNS as real / 1000000000.0);
        cpu := cpu.(usedCoresPercent := 100.0 * cpu.usedCores / cpu.limitCores);
        cpu := cpu.(shares := metrics.cpu.shares);
      }
      // the deferred update
      store := store[metrics.containerID := Stored(Unix(metrics.time), metrics.cpu)];
    }

    /** `Process`: a call that fails returns the zero sample and leaves the store alone; one that succeeds stores
        the reading it used. */
    method Process(call: Call) returns (metrics: Sample, err: Option<Error>)
      requires Safe(exitedContainerTTL, store, call)
      modifies this
      ensures match Fetched(exitedContainerTTL, call)
              case Err(e) => err == Some(e) && metrics == NO_SAMPLE && store == old(store)
              case Ok((json, m)) =>
                && err == None && store == Remember(old(store), m)
                && metrics == SampleFor(numCPU, old(store), json, m, call.hit)
    {
      metrics := NO_SAMPLE;
      if call.inspect == None {
        return metrics, Some(InspectFailed);
      }
      var json := call.inspect.value;
      if json.id == "" {
        return metrics, Some(EmptyInspect);
      }
      if json.state.Some? && ToLower(json.state.value.status) == "exited" {
        var expired := IsExpired(exitedContainerTTL, json.state.value.finishedAt, call.now);
        if expired.None? {
          return metrics, Some(BadFinishTime);
        }
        if expired.value {
          return metrics, Some(ExpiredContainer);
        }
        return metrics, Some(UnexpiredContainer);
      }
      if call.fetch == None {
        return metrics, Some(FetchFailed);
      }
      var rawMetrics := call.fetch.value;
      metrics := metrics.(network := rawMetrics.network);
      var blkIO := BlkioTotals.TotalBlkIO(rawMetrics.blkio);
      metrics := metrics.(blkIO := blkIO);
      var cpu := ComputeCPU(rawMetrics, json, call.hit);
      metrics := metrics.(cpu := cpu);
      metrics := metrics.(pids := rawMetrics.pids);
      var memory := MemoryLimits.NormaliseMemory(rawMetrics.memory);
      metrics := metrics.(memory := memory);
      metrics := metrics.(restartCount := json.restartCount);
      return metrics, None;
    }
  }
}
