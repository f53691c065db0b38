/** Bounds of the CPU percentages. */
module CpuPercentages {
  import opened Machine
  import opened Outcomes
  import opened Cpu
  import SystemCpu

  lemma QuotientNonNegative(a: real, b: real)
    requires a >= 0.0 && b > 0.0
    ensures a / b >= 0.0
  {
  }

  lemma Multiplied(a: real, b: real)
    requires b != 0.0
    ensures a / b * b == a
  {
  }

  lemma CapIsProduct(cpuCount: nat)
    ensures Int64(Int64(cpuCount) * 100) == Int64(100 * cpuCount)
  {
    var n: int := Int64(cpuCount);
    Convert(cpuCount);
    var k := Quotient(cpuCount);
    var l := Quotient(n);
    assert n == cpuCount + (l - k) * 0x1_0000_0000_0000_0000;
    Wrap(100 * cpuCount, 100 * (l - k));
  }

  lemma CapBound(x: nat)
    ensures Int64(x) <= x
  {
  }

  /** User and kernel percent lie between 0 and 100 per online CPU for every pair of counters, resets included,
      exactly when the cap's `int64` multiplication does not turn it negative. */
  lemma ModePercentBounds(cpuCount: nat, delta: uint64, durationNS: int)
    requires durationNS > 0
    ensures 0.0 <= ModePercent(cpuCount, delta, durationNS) <= 100.0 * cpuCount as real <==> Int64(100 * cpuCount) >= 0
  {
    QuotientNonNegative(delta as real * 100.0, durationNS as real);
    CapIsProduct(cpuCount);
    CapBound(100 * cpuCount);
    assert (100 * cpuCount) as real == 100.0 * cpuCount as real;
  }

  /** Every sample with a usable previous reading, whatever the counters: both mode percentages are in range exactly
      when the cap is not negative. */
  lemma SampleModeBounds(previous: Stored, now: int, cpu: RawCPU, limitCores: real)
    requires !Panics(Some(previous), now, cpu) && DurationNS(previous, now) > 0 && limitCores != 0.0
    ensures var s, top := SampleOf(Some(previous), now, cpu, limitCores), 100.0 * cpu.CPUCount() as real;
      0.0 <= s.userPercent <= top && 0.0 <= s.kernelPercent <= top <==> Int64(100 * cpu.CPUCount()) >= 0
  {
    var duration := DurationNS(previous, now);
    var before, n := previous.cpu, cpu.CPUCount();
    ModePercentBounds(n, Delta(cpu.usageInUsermode.value, before.usageInUsermode.value), duration);
    ModePercentBounds(n, Delta(cpu.usageInKernelmode.value, before.usageInKernelmode.value), duration);
  }

  /** The `int64` product is the cap that is meant, 100 per CPU, exactly for counts up to MaxInt64/100. */
  lemma CapIsIntended(cpuCount: nat)
    ensures Int64(Int64(cpuCount) * 100) == 100 * cpuCount <==> cpuCount <= MAX_INT64 / 100
  {
    CapIsProduct(cpuCount);
    Fits(100 * cpuCount);
  }

  /** The two differ: the next count makes the cap negative, and with 2^62 CPUs the cap is 0, which keeps every
      percentage in range and wrong. */
  lemma CapGoesWrong()
    ensures Int64(100 * (MAX_INT64 / 100 + 1)) < 0
    ensures ModePercent(0x4000_0000_0000_0000, 1, 1) == 0.0
  {
    CapIsProduct(0x4000_0000_0000_0000);
  }

  lemma QuotientPositive(a: real, b: real)
    requires a > 0.0 && b > 0.0
    ensures a / b > 0.0
  {
  }

  lemma SignOfProduct(q: real, m: real)
    requires q > 0.0
    ensures q * m >= 0.0 <==> m >= 0.0
  {
  }

  lemma Scaled(x: real, y: real, b: real)
    requires b > 0.0
    ensures x <= y <==> x * b <= b * y
  {
    if x <= y {
      ProductMonotone(x, y, b);
    } else {
      StrictProduct(y, x, b);
    }
  }

  /** With a count `m` that may have wrapped around. */
  lemma ShareBounds(a: real, b: real, m: real, n: real)
    requires a >= 0.0 && b >= 0.0 && n >= 0.0
    ensures 0.0 <= SystemShare(a, b, m) <= 100.0 * n <==> a == 0.0 || b == 0.0 || (m >= 0.0 && a * m <= b * n)
  {
    if a > 0.0 && b > 0.0 {
      var q := a / b;
      Multiplied(a, b);
      QuotientPositive(a, b);
      SignOfProduct(q, m);
      assert q * m * b == a * m;
      Scaled(q * m, n, b);
    }
  }

  lemma ProductAsReal(a: int, b: int)
    ensures (a * b) as real == a as real * b as real
  {
  }

  /** CPU percent lies between 0 and 100 per online CPU exactly when a delta is 0, or the `int` the count is converted
      to is not negative and the container's share of it does not exceed that of the system. */
  lemma CpuPercentBounds(previous: RawCPU, current: RawCPU)
    ensures var cpuDelta: int := Delta(current.totalUsage, previous.totalUsage);
      var systemDelta: int, n := Delta(current.systemUsage, previous.systemUsage), current.CPUCount();
      0.0 <= CpuPercent(previous, current) <= 100.0 * n as real
      <==> cpuDelta == 0 || systemDelta == 0 || (Int64(n) >= 0 && cpuDelta * Int64(n) <= systemDelta * n)
  {
    var cpuDelta: int := Delta(current.totalUsage, previous.totalUsage);
    var systemDelta: int := Delta(current.systemUsage, previous.systemUsage);
    var n := current.CPUCount();
    var m: int := Int64(n);
    ShareBounds(cpuDelta as real, systemDelta as real, m as real, n as real);
    ProductAsReal(cpuDelta, m);
    ProductAsReal(systemDelta, n);
  }

  lemma CommonFactor(a: int, b: int, n: nat)
    ensures a * n <= b * n <==> a <= b || n == 0
  {
  }

  /** For every count a fetcher reports, which is a `uint64`, that is the case exactly when a factor is 0, or the
      container did not get more time than the system and the count is one that `int` holds. */
  lemma ReportedCountBounds(previous: RawCPU, current: RawCPU)
    requires current.CPUCount() <= MAX_UINT64
    ensures var cpuDelta: int := Delta(current.totalUsage, previous.totalUsage);
      var systemDelta: int, n := Delta(current.systemUsage, previous.systemUsage), current.CPUCount();
      0.0 <= CpuPercent(previous, current) <= 100.0 * n as real
      <==> cpuDelta == 0 || systemDelta == 0 || n == 0 || (cpuDelta <= systemDelta && n <= MAX_INT64)
  {
    CpuPercentBounds(previous, current);
    Fits(current.CPUCount());
    CommonFactor(Delta(current.totalUsage, previous.totalUsage), Delta(current.systemUsage, previous.systemUsage),
                 current.CPUCount());
  }

  /** With 2^63 + 1 CPUs, to which a cpuset list can be counted (`Cpuset.CountBeyondInt64`), a container that got all
      the time of the system is reported with a negative percentage. */
  lemma NegativeCpuPercent(previous: RawCPU, current: RawCPU)
    requires current.onlineCPUs == 0x8000_0000_0000_0001
    requires previous.totalUsage == previous.systemUsage == 0 && current.totalUsage == current.systemUsage == 1
    ensures CpuPercent(previous, current) < 0.0
  {
    assert Int64(0x8000_0000_0000_0001) < 0;
    assert Delta(1, 0) == 1;
  }

  lemma MonotoneDelta(current: uint64, previous: uint64)
    requires previous <= current
    ensures Delta(current, previous) == current - previous
  {
  }

  lemma ProductsInOrder(a: int, m: int, b: int, n: int)
    requires 0 <= a <= b && 0 <= m <= n
    ensures a * m <= b * n
  {
  }

  /** From tick sums to percentage: with tick sums in range, monotone counters and a container that gets at most the
      time of the system, CPU percent lies between 0 and 100 per online CPU, unless the container gained time and the
      count turns negative as an `int`. */
  lemma CpuPercentEndToEnd(previous: RawCPU, current: RawCPU, previousTicks: nat, currentTicks: nat)
    requires previousTicks <= currentTicks <= SystemCpu.MAX_TICKS
    requires previous.systemUsage == SystemCpu.Nanoseconds(previousTicks)
    requires current.systemUsage == SystemCpu.Nanoseconds(currentTicks)
    requires previous.totalUsage <= current.totalUsage
    requires current.totalUsage - previous.totalUsage <= (currentTicks - previousTicks) * 10_000_000
    ensures 0.0 <= CpuPercent(previous, current) <= 100.0 * current.CPUCount() as real
            <==> current.totalUsage == previous.totalUsage || Int64(current.CPUCount()) >= 0
  {
    SystemCpu.NanosecondsExact(previousTicks);
    SystemCpu.NanosecondsExact(currentTicks);
    MonotoneDelta(current.totalUsage, previous.totalUsage);
    MonotoneDelta(current.systemUsage, previous.systemUsage);
    CpuPercentBounds(previous, current);
    CapBound(current.CPUCount());
    if Int64(current.CPUCount()) >= 0 {
      ProductsInOrder(current.totalUsage - previous.totalUsage, Int64(current.CPUCount()),
                      (currentTicks - previousTicks) * 10_000_000, current.CPUCount());
    }
  }

  /** The fields of a sample, multiplied out: what the rates are rates of. */
  lemma SampleMeans(previous: Stored, now: int, cpu: RawCPU, limitCores: real)
    requires !Panics(Some(previous), now, cpu) && DurationNS(previous, now) > 0 && limitCores != 0.0
    ensures var s := SampleOf(Some(previous), now, cpu, limitCores);
      && s.usedCores * DurationNS(previous, now) as real == Delta(cpu.totalUsage, previous.cpu.totalUsage) as real
      && s.usedCoresPercent * s.limitCores == 100.0 * s.usedCores && s.limitCores == limitCores
  {
  }

  /** The largest rate that neither exceeds the cap nor, over the duration, the amount. */
  predicate CappedRate(p: real, cap: real, amount: real, duration: real) {
    p <= cap && p * duration <= amount && (p == cap || p * duration == amount)
  }

  lemma MinRate(cap: real, amount: real, duration: real)
    requires duration > 0.0
    ensures CappedRate(MinReal(cap, amount / duration), cap, amount, duration)
  {
    var rate := amount / duration;
    Multiplied(amount, duration);
    if cap < rate {
      ProductMonotone(cap, rate, duration);
      assert duration * cap == cap * duration;
    }
  }

  /** A mode percentage: what the delta of its counter amounts to over the duration, but at most the cap. */
  lemma ModePercentMeans(cpuCount: nat, delta: uint64, durationNS: int)
    requires durationNS > 0
    ensures CappedRate(ModePercent(cpuCount, delta, durationNS), Int64(100 * cpuCount) as real, delta as real * 100.0,
                       durationNS as real)
  {
    CapIsProduct(cpuCount);
    MinRate(Int64(100 * cpuCount) as real, delta as real * 100.0, durationNS as real);
  }

  /** Each mode's percentage comes from its own counter. */
  lemma SampleModesMean(previous: Stored, now: int, cpu: RawCPU, limitCores: real)
    requires !Panics(Some(previous), now, cpu) && DurationNS(previous, now) > 0 && limitCores != 0.0
    ensures var s, duration := SampleOf(Some(previous), now, cpu, limitCores), DurationNS(previous, now) as real;
      var cap := Int64(100 * cpu.CPUCount()) as real;
      && CappedRate(s.userPercent, cap,
                    Delta(cpu.usageInUsermode.value, previous.cpu.usageInUsermode.value) as real * 100.0, duration)
      && CappedRate(s.kernelPercent, cap,
                    Delta(cpu.usageInKernelmode.value, previous.cpu.usageInKernelmode.value) as real * 100.0, duration)
  {
    var durationNS := DurationNS(previous, now);
    var before, n := previous.cpu, cpu.CPUCount();
    ModePercentMeans(n, Delta(cpu.usageInUsermode.value, before.usageInUsermode.value), durationNS);
    ModePercentMeans(n, Delta(cpu.usageInKernelmode.value, before.usageInKernelmode.value), durationNS);
  }

  /** The container's part of the system's time, in percent of one of `n` CPUs; 0 if the system's time stands still. */
  predicate PercentOfSystem(p: real, cpuDelta: real, systemDelta: real, n: real) {
    if systemDelta > 0.0 then p * systemDelta == cpuDelta * n * 100.0 else p == 0.0
  }

  lemma Rearranged(q: real, n: real, d: real)
    ensures q * n * 100.0 * d == q * d * n * 100.0
  {
    assert q * n * d == q * d * n;
  }

  lemma SystemShareMeans(cpuDelta: real, systemDelta: real, n: real)
    requires cpuDelta >= 0.0
    ensures PercentOfSystem(SystemShare(cpuDelta, systemDelta, n), cpuDelta, systemDelta, n)
  {
    if systemDelta > 0.0 && cpuDelta > 0.0 {
      var q := cpuDelta / systemDelta;
      Multiplied(cpuDelta, systemDelta);
      Rearranged(q, n, systemDelta);
    }
  }

  /** CPU percent, for all counters. */
  lemma CpuPercentMeans(previous: RawCPU, current: RawCPU)
    ensures PercentOfSystem(CpuPercent(previous, current), Delta(current.totalUsage, previous.totalUsage) as real,
                            Delta(current.systemUsage, previous.systemUsage) as real, Int64(current.CPUCount()) as real)
  {
    SystemShareMeans(Delta(current.totalUsage, previous.totalUsage) as real,
                     Delta(current.systemUsage, previous.systemUsage) as real, Int64(current.CPUCount()) as real);
  }

  // ----- The CPU percent that a sample shows

  /** Every sample with a usable previous reading: the container's part of the system's time, from that reading to the
      current one. */
  lemma SampleShareMeans(previous: Stored, now: int, cpu: RawCPU, limitCores: real)
    requires !Panics(Some(previous), now, cpu) && DurationNS(previous, now) > 0 && limitCores != 0.0
    ensures PercentOfSystem(SampleOf(Some(previous), now, cpu, limitCores).cpuPercent,
                            Uint64(cpu.totalUsage - previous.cpu.totalUsage) as real,
                            Uint64(cpu.systemUsage - previous.cpu.systemUsage) as real, Int64(cpu.CPUCount()) as real)
  {
    CpuPercentMeans(previous.cpu, cpu);
  }

  /** The bound, for the CPU percent of a sample. */
  lemma SampleShareBounds(previous: Stored, now: int, cpu: RawCPU, limitCores: real,
                          previousTicks: nat, currentTicks: nat)
    requires !Panics(Some(previous), now, cpu) && DurationNS(previous, now) > 0 && limitCores != 0.0
    requires previousTicks <= currentTicks <= SystemCpu.MAX_TICKS
    requires previous.cpu.systemUsage == SystemCpu.Nanoseconds(previousTicks)
    requires cpu.systemUsage == SystemCpu.Nanoseconds(currentTicks)
    requires previous.cpu.totalUsage <= cpu.totalUsage
    requires cpu.totalUsage - previous.cpu.totalUsage <= (currentTicks - previousTicks) * 10_000_000
    ensures 0.0 <= SampleOf(Some(previous), now, cpu, limitCores).cpuPercent <= 100.0 * cpu.CPUCount() as real
            <==> cpu.totalUsage == previous.cpu.totalUsage || Int64(cpu.CPUCount()) >= 0
  {
    CpuPercentEndToEnd(previous.cpu, cpu, previousTicks, currentTicks);
  }
}
