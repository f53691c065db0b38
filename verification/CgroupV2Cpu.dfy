/** CPU readings of the cgroup v2 fetcher, whose kernel counters are in microseconds. */
module CgroupV2Cpu {
  import opened Machine
  import opened Outcomes
  import opened Cpu
  import opened MetricsFetcher
  import opened Runs

  /** The kernel's `cpu.stat`, as far as the fetcher reads it. */
  datatype CPUStat = CPUStat(
    usageUsec: uint64, userUsec: uint64, systemUsec: uint64, nrThrottled: uint64, throttledUsec: uint64)

  const NO_CPU := RawCPU(0, None, None, [], 0, 0, 0, 0, 0)

  /** `microsecondsToNanoseconds`. */
  function ToNanoseconds(v: uint64): uint64 {
    Uint64(v * 1000)
  }

  /** `cpu` of the v2 fetcher, which keeps what it returns even when it fails; `system` is the host's CPU time. */
  method CpuOf(stat: Option<CPUStat>, system: Option<uint64>) returns (cpu: RawCPU, ok: bool)
    ensures ok <==> stat.Some? && stat.value.usageUsec != 0 && system.Some?
    ensures cpu.HasModes() <==> stat.Some? && stat.value.usageUsec != 0
    ensures !cpu.HasModes() ==> cpu == NO_CPU
    ensures cpu.HasModes() ==>
      && cpu.totalUsage == ToNanoseconds(stat.value.usageUsec)
      && cpu.usageInUsermode == Some(ToNanoseconds(stat.value.userUsec))
      && cpu.usageInKernelmode == Some(ToNanoseconds(stat.value.systemUsec))
      && cpu.throttledPeriods == stat.value.nrThrottled
      && cpu.throttledTimeNS == (if stat.value.nrThrottled != 0 then ToNanoseconds(stat.value.throttledUsec) else 0)
      && cpu.systemUsage == (if system.Some? then system.value else 0)
      && cpu.percpuUsage == [] && cpu.onlineCPUs == cpu.shares == 0
  {
    cpu := NO_CPU;
    if stat.None? || stat.value.usageUsec == 0 {
      return cpu, false;
    }
    var userUsage := ToNanoseconds(stat.value.userUsec);
    var kernelUsage := ToNanoseconds(stat.value.systemUsec);
    cpu := cpu.(totalUsage := ToNanoseconds(stat.value.usageUsec),
                usageInUsermode := Some(userUsage), usageInKernelmode := Some(kernelUsage));
    if stat.value.nrThrottled != 0 {
      cpu := cpu.(throttledPeriods := stat.value.nrThrottled,
                  throttledTimeNS := ToNanoseconds(stat.value.throttledUsec));
    }
    if system.None? {
      return cpu, false;
    }
    return cpu.(systemUsage := system.value), true;
  }

  // ----- The conversion wraps around, its differences rarely do

  lemma WrapsDown(x: nat)
    ensures Uint64(x) <= x
    ensures Uint64(x) == x <==> x <= MAX_UINT64
  {
  }

  lemma DeltaIsWrapped(current: uint64, previous: uint64)
    requires previous <= current
    ensures Delta(ToNanoseconds(current), ToNanoseconds(previous)) == Uint64(1000 * (current - previous))
  {
    var c: int, p: int := current * 1000, previous * 1000;
    var k := Quotient(c);
    var l := Quotient(p);
    Wrap(c - p, l - k);
  }

  /** For counters that never decrease: the delta is a thousand times the microseconds gained if and only if that
      fits `uint64`, however large the counters themselves are; otherwise it is less. */
  lemma DeltaOfConverted(current: uint64, previous: uint64)
    requires previous <= current
    ensures var delta: int := Delta(ToNanoseconds(current), ToNanoseconds(previous));
      var gained := 1000 * (current - previous);
      delta <= gained && (delta == gained <==> gained <= MAX_UINT64)
  {
    DeltaIsWrapped(current, previous);
    WrapsDown(1000 * (current - previous));
  }

  // ----- Conservation, from the kernel's counters

  /** The readings were made of these microsecond counters. */
  predicate Converted(usecs: seq<uint64>, rs: seq<Reading>) {
    |usecs| == |rs| && forall i :: 0 <= i < |rs| ==> rs[i].metrics.cpu.totalUsage == ToNanoseconds(usecs[i])
  }

  function Last(start: uint64, usecs: seq<uint64>): uint64 {
    if usecs == [] then start else usecs[|usecs| - 1]
  }

  predicate Rising(start: uint64, usecs: seq<uint64>)
    decreases |usecs|
  {
    usecs == [] || (start <= usecs[0] && Rising(usecs[0], usecs[1..]))
  }

  /** No single step gains more than 2^64 - 1 nanoseconds. */
  predicate GainsFit(start: uint64, usecs: seq<uint64>)
    decreases |usecs|
  {
    usecs == [] || (1000 * (usecs[0] - start) <= MAX_UINT64 && GainsFit(usecs[0], usecs[1..]))
  }

  lemma {:induction false} DeltaSumOfConverted(start: uint64, usecs: seq<uint64>, rs: seq<Reading>)
    requires Converted(usecs, rs) && Rising(start, usecs)
    ensures var gained := 1000 * (Last(start, usecs) - start);
      && DeltaSum(ToNanoseconds(start), rs) <= gained
      && (DeltaSum(ToNanoseconds(start), rs) == gained <==> GainsFit(start, usecs))
    decreases |rs|
  {
    if rs != [] {
      DeltaOfConverted(usecs[0], start);
      DeltaSumOfConverted(usecs[0], usecs[1..], rs[1..]);
      assert Last(usecs[0], usecs[1..]) == Last(start, usecs);
    }
  }

  /** Over any run made of kernel counters that never decrease: used cores times duration add up to the CPU time the
      kernel counted, if and only if no step that gained usage was lost and no single step gained more than 2^64 - 1
      nanoseconds. The converted counters themselves may wrap around. */
  lemma KernelTimeIsConserved(numCPU: Positive, first: Reading, rs: seq<Reading>, start: uint64, usecs: seq<uint64>)
    requires ReplaySafe(Some(first.Kept()), rs)
    requires first.metrics.cpu.totalUsage == ToNanoseconds(start)
    requires Converted(usecs, rs) && Rising(start, usecs)
    ensures Sum(CoreTimes(first, rs, Replay(numCPU, Some(first.Kept()), rs)))
            == (1000 * (Last(start, usecs) - start)) as real
            <==> NothingLost(first, rs) && GainsFit(start, usecs)
  {
    CpuTimeIsConserved(numCPU, first, rs);
    DeltaSumOfConverted(start, usecs, rs);
    LostSumMeans(first, rs);
  }
}
