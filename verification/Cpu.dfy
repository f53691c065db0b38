/** CPU metrics from two successive readings of a container's counters. Times are nanoseconds since the epoch;
    `float64` values are reals. */
module Cpu {
  import opened Machine
  import opened Outcomes

  const SECOND: int := 1_000_000_000

  /** `raw.CPU`, without the Windows fields. A fetcher may leave the two mode counters unset. */
  datatype RawCPU = RawCPU(
    totalUsage: uint64, usageInUsermode: Option<uint64>, usageInKernelmode: Option<uint64>, percpuUsage: seq<uint64>,
    throttledPeriods: uint64, throttledTimeNS: uint64, systemUsage: uint64, onlineCPUs: uint64, shares: uint64)
  {
    predicate HasModes() {
      usageInUsermode.Some? && usageInKernelmode.Some?
    }

    /** How many CPUs are online: as reported, else the entries of the per-CPU list that were ever used. */
    function CPUCount(): nat {
      if onlineCPUs != 0 then onlineCPUs else Active(percpuUsage)
    }
  }

  /** `biz.CPU`. */
  datatype CpuSample = CpuSample(
    cpuPercent: real, kernelPercent: real, userPercent: real, usedCores: real, limitCores: real, usedCoresPercent: real,
    throttlePeriods: uint64, throttledTime: real, shares: uint64)

  const ZERO_SAMPLE := CpuSample(0.0, 0.0, 0.0, 0.0, 0.0, 0.0, 0, 0.0, 0)

  /** `StoredCPUSample`: the time is in whole seconds. */
  datatype Stored = Stored(time: int, cpu: RawCPU)

  function Active(usage: seq<uint64>): (n: nat)
    ensures n <= |usage|
  {
    if usage == [] then 0
    else Active(usage[..|usage| - 1]) + if usage[|usage| - 1] > 0 then 1 else 0
  }

  /** `OnlineCPUsWithFallback`. */
  method OnlineCPUsWithFallback(c: RawCPU) returns (n: int64)
    ensures n == Int64(c.CPUCount())
  {
    if c.onlineCPUs != 0 {
      return Int64(c.onlineCPUs);
    }
    var onlineCPUs: int64 := 0;
    for i := 0 to |c.percpuUsage|
      invariant onlineCPUs == Int64(Active(c.percpuUsage[..i]))
    {
      assert c.percpuUsage[..i + 1][..i] == c.percpuUsage[..i];
      if c.percpuUsage[i] > 0 {
        WrapSumInt64(Active(c.percpuUsage[..i]), 1);
        onlineCPUs := Int64(onlineCPUs + 1);
      }
    }
    assert c.percpuUsage[..|c.percpuUsage|] == c.percpuUsage;
    return onlineCPUs;
  }

  /** `time.Time.Unix`: whole seconds, rounded down. */
  function Unix(time: int): int {
    time / SECOND
  }

  function StoredOf(time: int, cpu: RawCPU): Stored {
    Stored(Unix(time), cpu)
  }

  /** The duration the rates are computed with: from the stored whole second to now. */
  function DurationNS(previous: Stored, now: int): int64 {
    SaturatedSub(now, previous.time * SECOND)
  }

  /** The code would dereference an unset counter. */
  predicate Panics(previous: Option<Stored>, now: int, cpu: RawCPU) {
    previous.Some? && DurationNS(previous.value, now) > 0 && !(previous.value.cpu.HasModes() && cpu.HasModes())
  }

  function Delta(current: uint64, previous: uint64): uint64 {
    var c: int, p: int := current, previous;
    Uint64(c - p)
  }

  /** A share of the system's time, in percent of one of `n` CPUs. */
  function SystemShare(cpuDelta: real, systemDelta: real, n: real): real {
    if systemDelta > 0.0 && cpuDelta > 0.0 then cpuDelta / systemDelta * n * 100.0 else 0.0
  }

  /** `cpuPercent`. */
  function CpuPercent(previous: RawCPU, current: RawCPU): real {
    SystemShare(Delta(current.totalUsage, previous.totalUsage) as real,
                Delta(current.systemUsage, previous.systemUsage) as real,
                Int64(current.CPUCount()) as real)
  }

  function MinReal(a: real, b: real): real {
    if a <= b then a else b
  }

  /** Share of one CPU mode, capped at what the online CPUs can do; the cap is an `int64` product. */
  function ModePercent(cpuCount: nat, delta: uint64, durationNS: int): real
    requires durationNS > 0
  {
    MinReal(Int64(Int64(cpuCount) * 100) as real, delta as real * 100.0 / durationNS as real)
  }

  /** The sample `cpu` computes, from the stored previous reading if there is one. */
  function SampleOf(previous: Option<Stored>, now: int, cpu: RawCPU, limitCores: real): CpuSample
    requires !Panics(previous, now, cpu)
    requires limitCores != 0.0
  {
    if previous.None? || DurationNS(previous.value, now) <= 0 then ZERO_SAMPLE.(limitCores := limitCores)
    else
      var before, duration := previous.value.cpu, DurationNS(previous.value, now);
      var usedCores := Delta(cpu.totalUsage, before.totalUsage) as real / duration as real;
      CpuSample(
        CpuPercent(before, cpu),
        ModePercent(cpu.CPUCount(), Delta(cpu.usageInKernelmode.value, before.usageInKernelmode.value), duration),
        ModePercent(cpu.CPUCount(), Delta(cpu.usageInUsermode.value, before.usageInUsermode.value), duration),
        usedCores,
        limitCores,
        100.0 * usedCores / limitCores,
        cpu.throttledPeriods,
        cpu.throttledTimeNS as real / 1000000000.0,
        cpu.shares)
  }

  /** The code would dereference an unset counter exactly when it compares two readings, the clock having passed the
      stored whole second, and one of their four mode counters is unset. */
  lemma PanicsMeans(previous: Option<Stored>, now: int, cpu: RawCPU)
    ensures Panics(previous, now, cpu) <==>
      && previous.Some? && now > previous.value.time * SECOND
      && (|| cpu.usageInUsermode == None || cpu.usageInKernelmode == None
          || previous.value.cpu.usageInUsermode == None || previous.value.cpu.usageInKernelmode == None)
  {
  }

  // ----- What a sample carries over

  /** The used entries of a per-CPU list. */
  ghost function Used(usage: seq<uint64>): set<int> {
    set i | 0 <= i < |usage| && usage[i] > 0
  }

  lemma {:induction false} ActiveCounts(usage: seq<uint64>)
    ensures Active(usage) == |Used(usage)|
  {
    if usage != [] {
      var n := |usage| - 1;
      ActiveCounts(usage[..n]);
      assert Used(usage) == Used(usage[..n]) + if usage[n] > 0 then {n} else {};
    }
  }

  /** The reported CPU count, and without one the number of CPUs that were ever used. */
  lemma CPUCountMeans(cpu: RawCPU)
    ensures cpu.onlineCPUs != 0 ==> cpu.CPUCount() == cpu.onlineCPUs
    ensures cpu.onlineCPUs == 0 ==> cpu.CPUCount() == |Used(cpu.percpuUsage)|
  {
    ActiveCounts(cpu.percpuUsage);
  }

  /** A sample shows the limit and, with a usable previous reading, the throttling and shares of the current one;
      without one, all its other fields are 0. */
  lemma SampleCarries(previous: Option<Stored>, now: int, cpu: RawCPU, limitCores: real)
    requires !Panics(previous, now, cpu) && limitCores != 0.0
    ensures var s := SampleOf(previous, now, cpu, limitCores);
      && s.limitCores == limitCores
      && (if previous.Some? && DurationNS(previous.value, now) > 0
          then s.throttlePeriods == cpu.throttledPeriods && s.shares == cpu.shares
               && s.throttledTime * 1000000000.0 == cpu.throttledTimeNS as real
          else s.cpuPercent == s.kernelPercent == s.userPercent == s.usedCores == s.usedCoresPercent == 0.0
               && s.throttlePeriods == 0 && s.throttledTime == 0.0 && s.shares == 0)
  {
  }

  // ----- The duration

  /** The guard fires exactly when the clock has not passed the stored whole second. */
  lemma GuardFires(previousTime: int, cpu: RawCPU, now: int)
    ensures DurationNS(StoredOf(previousTime, cpu), now) <= 0 <==> now <= Unix(previousTime) * SECOND
    ensures now > previousTime ==> DurationNS(StoredOf(previousTime, cpu), now) > 0
  {
  }

  /** The duration used is the true gap, or less than a second more, for every gap an `int64` can hold and no other. */
  lemma TruncationBound(previousTime: int, cpu: RawCPU, now: int)
    requires now > previousTime
    ensures var gap := now - previousTime;
      gap <= DurationNS(StoredOf(previousTime, cpu), now) < gap + SECOND <==> gap <= MAX_INT64
  {
  }

  lemma ProductMonotone(a: real, b: real, c: real)
    requires a <= b && c >= 0.0
    ensures c * a <= c * b
  {
  }

  lemma StrictProduct(a: real, b: real, c: real)
    requires a < b && c > 0.0
    ensures c * a < c * b
  {
  }

  /** Dividing by a duration that is less than a second too long: never above the true rate, and short of it by
      a relative error below one second in gap plus a second. */
  lemma RateError(delta: real, gap: real, duration: real)
    requires delta >= 0.0 && 0.0 < gap <= duration < gap + 1000000000.0
    ensures 0.0 <= delta / duration <= delta / gap
    ensures delta > 0.0 ==> delta / gap - delta / duration < delta / gap * (1000000000.0 / (gap + 1000000000.0))
  {
    var rate, used := delta / gap, delta / duration;
    var s := gap + 1000000000.0;
    assert rate * gap == delta && used * duration == delta;
    assert used >= 0.0 && rate >= 0.0;
    ProductMonotone(gap, duration, used);
    if used > rate {
      StrictProduct(rate, used, gap);
    }
    if delta > 0.0 {
      var floor := rate * gap / s;
      assert floor * s == delta;
      if used <= floor {
        ProductMonotone(used, floor, duration);
        assert floor > 0.0;
        StrictProduct(duration, s, floor);
      }
      assert rate * (1000000000.0 / s) == rate - floor by {
        assert 1000000000.0 / s == 1.0 - gap / s;
        assert rate * (gap / s) == floor;
      }
    }
  }
}
