/** Whole runs of the metrics fetcher: any interleaving of calls for any containers. */
module Runs {
  import opened Machine
  import opened Outcomes
  import opened Cpu
  import opened MetricsFetcher

  /** One successful fetch of a container. */
  datatype Reading = Reading(json: Inspect, metrics: Metrics, hit: bool) {
    function Kept(): Stored {
      StoredOf(metrics.time, metrics.cpu)
    }
  }

  // ----- One container alone, on a private store entry

  predicate ReplaySafe(previous: Option<Stored>, rs: seq<Reading>)
    decreases |rs|
  {
    rs == []
    || (!Panics(Recall(previous, rs[0].hit), rs[0].metrics.time, rs[0].metrics.cpu)
        && ReplaySafe(Some(rs[0].Kept()), rs[1..]))
  }

  function Replay(numCPU: Positive, previous: Option<Stored>, rs: seq<Reading>): (samples: seq<CpuSample>)
    requires ReplaySafe(previous, rs)
    ensures |samples| == |rs|
    decreases |rs|
  {
    if rs == [] then []
    else
      [SampleOf(Recall(previous, rs[0].hit), rs[0].metrics.time, rs[0].metrics.cpu,
                LimitCores(rs[0].json.nanoCPUs, numCPU))]
      + Replay(numCPU, Some(rs[0].Kept()), rs[1..])
  }

  /** The entry left behind: the last reading, if there was one. */
  function LastKept(previous: Option<Stored>, rs: seq<Reading>): Option<Stored> {
    if rs == [] then previous else Some(rs[|rs| - 1].Kept())
  }

  // ----- All containers, on the shared store

  function StoreStep(ttl: int64, store: Store, call: Call): Store {
    match Fetched(ttl, call) case Err(_) => store case Ok((_, m)) => Remember(store, m)
  }

  function StoreAfter(ttl: int64, store: Store, calls: seq<Call>): Store
    decreases |calls|
  {
    if calls == [] then store else StoreAfter(ttl, StoreStep(ttl, store, calls[0]), calls[1..])
  }

  predicate RunSafe(ttl: int64, store: Store, calls: seq<Call>)
    decreases |calls|
  {
    calls == [] || (Safe(ttl, store, calls[0]) && RunSafe(ttl, StoreStep(ttl, store, calls[0]), calls[1..]))
  }

  /** The successful fetches of one container, in order. */
  function Readings(ttl: int64, calls: seq<Call>, id: string): seq<Reading> {
    if calls == [] then []
    else
      match Fetched(ttl, calls[0])
      case Err(_) => Readings(ttl, calls[1..], id)
      case Ok((json, m)) =>
        if m.containerID == id then [Reading(json, m, calls[0].hit)] + Readings(ttl, calls[1..], id)
        else Readings(ttl, calls[1..], id)
  }

  /** The CPU samples the run returns for one container, in order. */
  function CpuResults(ttl: int64, numCPU: Positive, store: Store, calls: seq<Call>, id: string): seq<CpuSample>
    requires RunSafe(ttl, store, calls)
    decreases |calls|
  {
    if calls == [] then []
    else
      var rest := CpuResults(ttl, numCPU, StoreStep(ttl, store, calls[0]), calls[1..], id);
      match Fetched(ttl, calls[0])
      case Err(_) => rest
      case Ok((json, m)) =>
        if m.containerID == id then [SampleFor(numCPU, store, json, m, calls[0].hit).cpu] + rest else rest
  }

  /** Non-interference: in any interleaving with other containers and failing calls, a container's CPU samples are
      those of replaying its own successful fetches on a private entry, and the store keeps its last reading. */
  lemma {:induction false} NonInterference(ttl: int64, numCPU: Positive, store: Store, calls: seq<Call>, id: string)
    requires RunSafe(ttl, store, calls)
    ensures ReplaySafe(Lookup(store, id), Readings(ttl, calls, id))
    ensures CpuResults(ttl, numCPU, store, calls, id) == Replay(numCPU, Lookup(store, id), Readings(ttl, calls, id))
    ensures Lookup(StoreAfter(ttl, store, calls), id) == LastKept(Lookup(store, id), Readings(ttl, calls, id))
    decreases |calls|
  {
    if calls != [] {
      NonInterference(ttl, numCPU, StoreStep(ttl, store, calls[0]), calls[1..], id);
      var rest := Readings(ttl, calls[1..], id);
      if Fetched(ttl, calls[0]).Ok? {
        var (json, m) := Fetched(ttl, calls[0]).value;
        if m.containerID == id {
          assert ([Reading(json, m, calls[0].hit)] + rest)[1..] == rest;
        }
      }
    }
  }

  /** Two runs that agree on one container's fetches agree on its samples, whatever else they do. */
  lemma OtherCallsAreIrrelevant(ttl: int64, numCPU: Positive, store: Store, calls: seq<Call>,
                                store': Store, calls': seq<Call>, id: string)
    requires RunSafe(ttl, store, calls) && RunSafe(ttl, store', calls')
    requires Lookup(store, id) == Lookup(store', id)
    requires Readings(ttl, calls, id) == Readings(ttl, calls', id)
    ensures CpuResults(ttl, numCPU, store, calls, id) == CpuResults(ttl, numCPU, store', calls', id)
    ensures Lookup(StoreAfter(ttl, store, calls), id) == Lookup(StoreAfter(ttl, store', calls'), id)
  {
    NonInterference(ttl, numCPU, store, calls, id);
    NonInterference(ttl, numCPU, store', calls', id);
  }

  /** A run meets no unset counter exactly when no container does on its own. */
  lemma {:induction false} SafetyIsPerContainer(ttl: int64, store: Store, calls: seq<Call>)
    ensures RunSafe(ttl, store, calls) <==> forall id :: ReplaySafe(Lookup(store, id), Readings(ttl, calls, id))
    decreases |calls|
  {
    if calls != [] {
      var next := StoreStep(ttl, store, calls[0]);
      SafetyIsPerContainer(ttl, next, calls[1..]);
      match Fetched(ttl, calls[0])
      case Err(_) =>
        assert forall id :: Readings(ttl, calls, id) == Readings(ttl, calls[1..], id);
      case Ok((json, m)) =>
        var r := Reading(json, m, calls[0].hit);
        forall id
          ensures ReplaySafe(Lookup(store, id), Readings(ttl, calls, id))
                  <==> (id == m.containerID ==> Safe(ttl, store, calls[0]))
                       && ReplaySafe(Lookup(next, id), Readings(ttl, calls[1..], id))
        {
          var rest := Readings(ttl, calls[1..], id);
          if id == m.containerID {
            assert ([r] + rest)[1..] == rest;
          }
        }
    }
  }

  // ----- One more call, one more reading

  lemma {:induction false} RunConcat(ttl: int64, store: Store, a: seq<Call>, b: seq<Call>)
    ensures StoreAfter(ttl, store, a + b) == StoreAfter(ttl, StoreAfter(ttl, store, a), b)
    ensures RunSafe(ttl, store, a + b) <==> RunSafe(ttl, store, a) && RunSafe(ttl, StoreAfter(ttl, store, a), b)
    decreases |a|
  {
    if a == [] {
      assert a + b == b;
    } else {
      assert (a + b)[1..] == a[1..] + b;
      RunConcat(ttl, StoreStep(ttl, store, a[0]), a[1..], b);
    }
  }

  lemma {:induction false} ReadingsConcat(ttl: int64, a: seq<Call>, b: seq<Call>, id: string)
    ensures Readings(ttl, a + b, id) == Readings(ttl, a, id) + Readings(ttl, b, id)
  {
    if a == [] {
      assert a + b == b;
    } else {
      assert (a + b)[1..] == a[1..] + b;
      ReadingsConcat(ttl, a[1..], b, id);
    }
  }

  lemma {:induction false} ReplaySnoc(numCPU: Positive, previous: Option<Stored>, rs: seq<Reading>, r: Reading)
    requires ReplaySafe(previous, rs)
    requires !Panics(Recall(LastKept(previous, rs), r.hit), r.metrics.time, r.metrics.cpu)
    ensures ReplaySafe(previous, rs + [r])
    ensures Replay(numCPU, previous, rs + [r])
            == Replay(numCPU, previous, rs)
               + [SampleOf(Recall(LastKept(previous, rs), r.hit), r.metrics.time, r.metrics.cpu,
                           LimitCores(r.json.nanoCPUs, numCPU))]
    decreases |rs|
  {
    if rs == [] {
      assert rs + [r] == [r];
    } else {
      assert (rs + [r])[1..] == rs[1..] + [r];
      ReplaySnoc(numCPU, Some(rs[0].Kept()), rs[1..], r);
    }
  }

  /** The sample of any one call, after any run: the last sample of replaying its container's own readings. */
  lemma SampleIsReplayed(ttl: int64, numCPU: Positive, store: Store, before: seq<Call>, call: Call)
    requires RunSafe(ttl, store, before) && Safe(ttl, StoreAfter(ttl, store, before), call)
    requires Fetched(ttl, call).Ok?
    ensures var (json, m) := Fetched(ttl, call).value;
      var rs := Readings(ttl, before + [call], m.containerID);
      && rs != [] && ReplaySafe(Lookup(store, m.containerID), rs)
      && SampleFor(numCPU, StoreAfter(ttl, store, before), json, m, call.hit).cpu
         == Replay(numCPU, Lookup(store, m.containerID), rs)[|rs| - 1]
  {
    var (json, m) := Fetched(ttl, call).value;
    var id := m.containerID;
    var r := Reading(json, m, call.hit);
    ReadingsConcat(ttl, before, [call], id);
    assert Readings(ttl, [call], id) == [r] by {
      assert [call][1..] == [];
    }
    NonInterference(ttl, numCPU, store, before, id);
    ReplaySnoc(numCPU, Lookup(store, id), Readings(ttl, before, id), r);
  }

  // ----- CPU time over a whole run

  /** The reading that step `i` of a run is compared with. */
  function Before(first: Reading, rs: seq<Reading>, i: nat): Reading
    requires i < |rs|
  {
    if i == 0 then first else rs[i - 1]
  }

  lemma {:induction false} ReplayAt(numCPU: Positive, first: Reading, rs: seq<Reading>, i: nat)
    requires ReplaySafe(Some(first.Kept()), rs) && i < |rs|
    ensures !Panics(Recall(Some(Before(first, rs, i).Kept()), rs[i].hit), rs[i].metrics.time, rs[i].metrics.cpu)
    ensures Replay(numCPU, Some(first.Kept()), rs)[i]
            == SampleOf(Recall(Some(Before(first, rs, i).Kept()), rs[i].hit), rs[i].metrics.time, rs[i].metrics.cpu,
                        LimitCores(rs[i].json.nanoCPUs, numCPU))
    decreases i
  {
    if i > 0 {
      ReplayAt(numCPU, rs[0], rs[1..], i - 1);
    }
  }

  function Sum(xs: seq<real>): real {
    if xs == [] then 0.0 else xs[0] + Sum(xs[1..])
  }

  /** Used cores times the duration they were computed with. */
  function CoreTime(s: CpuSample, before: Reading, r: Reading): real {
    s.usedCores * DurationNS(before.Kept(), r.metrics.time) as real
  }

  /** The core times of a run, step by step. */
  function CoreTimes(first: Reading, rs: seq<Reading>, samples: seq<CpuSample>): (times: seq<real>)
    requires |samples| == |rs|
  {
    seq(|rs|, i requires 0 <= i < |rs| =>
      CoreTime(samples[i], Before(first, rs, i), rs[i]))
  }

  function StepDelta(first: Reading, rs: seq<Reading>, i: nat): uint64
    requires i < |rs|
  {
    Delta(rs[i].metrics.cpu.totalUsage, Before(first, rs, i).metrics.cpu.totalUsage)
  }

  /** A step whose usage is never reported: the store entry had expired, or the duration guard fires. */
  predicate Lost(first: Reading, rs: seq<Reading>, i: nat)
    requires i < |rs|
  {
    !rs[i].hit || DurationNS(Before(first, rs, i).Kept(), rs[i].metrics.time) <= 0
  }

  /** The usage gained at each step, without the lost ones. */
  function Reported(first: Reading, rs: seq<Reading>): seq<real> {
    seq(|rs|, i requires 0 <= i < |rs| => if Lost(first, rs, i) then 0.0 else StepDelta(first, rs, i) as real)
  }

  /** The usage gained at lost steps. */
  function LostSum(first: Reading, rs: seq<Reading>): (n: nat)
    decreases |rs|
  {
    if rs == [] then 0
    else (if Lost(first, rs, 0) then StepDelta(first, rs, 0) else 0) + LostSum(rs[0], rs[1..])
  }

  function DeltaSum(previous: uint64, rs: seq<Reading>): int
    decreases |rs|
  {
    if rs == [] then 0
    else Delta(rs[0].metrics.cpu.totalUsage, previous) + DeltaSum(rs[0].metrics.cpu.totalUsage, rs[1..])
  }

  function LastUsage(previous: uint64, rs: seq<Reading>): uint64 {
    if rs == [] then previous else rs[|rs| - 1].metrics.cpu.totalUsage
  }

  predicate Nondecreasing(previous: uint64, rs: seq<Reading>)
    decreases |rs|
  {
    rs == [] || (previous <= rs[0].metrics.cpu.totalUsage && Nondecreasing(rs[0].metrics.cpu.totalUsage, rs[1..]))
  }

  lemma AddDeltas(last: uint64, middle: uint64, first: uint64, sum: int)
    requires Uint64(sum) == Delta(last, middle)
    ensures Uint64(Delta(middle, first) + sum) == Delta(last, first)
  {
    var l: int, m: int, f: int := last, middle, first;
    WrapSum(m - f, sum);
    WrapSum(sum, m - f);
    WrapSum(l - m, m - f);
  }

  lemma {:induction false} DeltasTelescope(previous: uint64, rs: seq<Reading>)
    ensures Uint64(DeltaSum(previous, rs)) == Delta(LastUsage(previous, rs), previous)
    ensures Nondecreasing(previous, rs) ==> DeltaSum(previous, rs) == LastUsage(previous, rs) - previous
    decreases |rs|
  {
    if rs != [] {
      var usage := rs[0].metrics.cpu.totalUsage;
      DeltasTelescope(usage, rs[1..]);
      assert LastUsage(usage, rs[1..]) == LastUsage(previous, rs);
      AddDeltas(LastUsage(previous, rs), usage, previous, DeltaSum(usage, rs[1..]));
      if Nondecreasing(previous, rs) {
        Fits(usage - previous);
      }
    }
  }

  /** Used cores are the delta over the duration, or 0 where nothing is reported. */
  lemma UsedCoresAt(numCPU: Positive, first: Reading, rs: seq<Reading>, i: nat)
    requires ReplaySafe(Some(first.Kept()), rs) && i < |rs|
    ensures var used := Replay(numCPU, Some(first.Kept()), rs)[i].usedCores;
      var duration := DurationNS(Before(first, rs, i).Kept(), rs[i].metrics.time);
      if Lost(first, rs, i) then used == 0.0
      else duration > 0 && used == StepDelta(first, rs, i) as real / duration as real
  {
    ReplayAt(numCPU, first, rs, i);
  }

  lemma TimesDuration(used: real, delta: int, duration: int)
    requires duration > 0 && used == delta as real / duration as real
    ensures used * duration as real == delta as real
  {
  }

  lemma CoreTimeAt(numCPU: Positive, first: Reading, rs: seq<Reading>, i: nat)
    requires ReplaySafe(Some(first.Kept()), rs) && i < |rs|
    ensures CoreTimes(first, rs, Replay(numCPU, Some(first.Kept()), rs))[i] == Reported(first, rs)[i]
  {
    UsedCoresAt(numCPU, first, rs, i);
    if !Lost(first, rs, i) {
      TimesDuration(Replay(numCPU, Some(first.Kept()), rs)[i].usedCores, StepDelta(first, rs, i),
                    DurationNS(Before(first, rs, i).Kept(), rs[i].metrics.time));
    }
  }

  lemma CoreTimesAreReported(numCPU: Positive, first: Reading, rs: seq<Reading>)
    requires ReplaySafe(Some(first.Kept()), rs)
    ensures CoreTimes(first, rs, Replay(numCPU, Some(first.Kept()), rs)) == Reported(first, rs)
  {
    forall i | 0 <= i < |rs|
      ensures CoreTimes(first, rs, Replay(numCPU, Some(first.Kept()), rs))[i] == Reported(first, rs)[i]
    {
      CoreTimeAt(numCPU, first, rs, i);
    }
  }

  lemma {:induction false} SumOfReported(first: Reading, rs: seq<Reading>)
    ensures Sum(Reported(first, rs)) == (DeltaSum(first.metrics.cpu.totalUsage, rs) - LostSum(first, rs)) as real
    decreases |rs|
  {
    if rs != [] {
      SumOfReported(rs[0], rs[1..]);
      assert forall i :: 1 <= i < |rs| ==> Lost(first, rs, i) == Lost(rs[0], rs[1..], i - 1);
      assert Reported(first, rs)[1..] == Reported(rs[0], rs[1..]);
    }
  }

  /** No step that gained usage was lost. */
  predicate NothingLost(first: Reading, rs: seq<Reading>) {
    forall i :: 0 <= i < |rs| && Lost(first, rs, i) ==> StepDelta(first, rs, i) == 0
  }

  lemma {:induction false} LostSumMeans(first: Reading, rs: seq<Reading>)
    ensures LostSum(first, rs) == 0 <==> NothingLost(first, rs)
    decreases |rs|
  {
    if rs != [] {
      LostSumMeans(rs[0], rs[1..]);
      assert forall i :: 1 <= i < |rs| ==>
        && Lost(first, rs, i) == Lost(rs[0], rs[1..], i - 1)
        && StepDelta(first, rs, i) == StepDelta(rs[0], rs[1..], i - 1);
      assert forall i :: 0 <= i < |rs[1..]| ==> Lost(first, rs, i + 1) == Lost(rs[0], rs[1..], i);
    }
  }

  /** What used cores times duration add up to, over any run: the usage gained, modulo 2^64, except that of the lost
      steps. For counters that never decrease it is all of it if and only if no step that gained usage was lost. */
  predicate Accounted(first: Reading, rs: seq<Reading>, samples: seq<CpuSample>)
    requires |samples| == |rs|
  {
    var usage, coreTime := first.metrics.cpu.totalUsage, Sum(CoreTimes(first, rs, samples));
    && coreTime == (DeltaSum(usage, rs) - LostSum(first, rs)) as real
    && Uint64(DeltaSum(usage, rs)) == Delta(LastUsage(usage, rs), usage)
    && (Nondecreasing(usage, rs) ==>
          (coreTime == (LastUsage(usage, rs) - usage) as real <==> NothingLost(first, rs)))
  }

  lemma CpuTimeIsConserved(numCPU: Positive, first: Reading, rs: seq<Reading>)
    requires ReplaySafe(Some(first.Kept()), rs)
    ensures Accounted(first, rs, Replay(numCPU, Some(first.Kept()), rs))
  {
    CoreTimesAreReported(numCPU, first, rs);
    SumOfReported(first, rs);
    LostSumMeans(first, rs);
    DeltasTelescope(first.metrics.cpu.totalUsage, rs);
  }

  /** The same in any interleaving: what a container's samples after its first one account for. */
  lemma InterleavedRunsConserve(ttl: int64, numCPU: Positive, store: Store, calls: seq<Call>, id: string,
                                first: Reading, rs: seq<Reading>)
    requires RunSafe(ttl, store, calls)
    requires Readings(ttl, calls, id) == [first] + rs
    ensures var results := CpuResults(ttl, numCPU, store, calls, id);
      |results| == 1 + |rs| && Accounted(first, rs, results[1..])
  {
    NonInterference(ttl, numCPU, store, calls, id);
    assert ([first] + rs)[1..] == rs;
    CpuTimeIsConserved(numCPU, first, rs);
    var results := CpuResults(ttl, numCPU, store, calls, id);
    assert results[1..] == Replay(numCPU, Some(first.Kept()), rs);
  }

  /** Strictly increasing times, from `time` on. */
  predicate Ticking(time: int, rs: seq<Reading>)
    decreases |rs|
  {
    rs == [] || (time < rs[0].metrics.time && Ticking(rs[0].metrics.time, rs[1..]))
  }

  lemma {:induction false} TickingAt(first: Reading, rs: seq<Reading>, i: nat)
    requires Ticking(first.metrics.time, rs) && i < |rs|
    ensures Before(first, rs, i).metrics.time < rs[i].metrics.time
    decreases i
  {
    if i > 0 {
      TickingAt(rs[0], rs[1..], i - 1);
    }
  }

  /** With strictly increasing times the guard never fires: a step is lost exactly if its store entry had expired. */
  lemma GuardNeverFires(first: Reading, rs: seq<Reading>, i: nat)
    requires Ticking(first.metrics.time, rs) && i < |rs|
    ensures DurationNS(Before(first, rs, i).Kept(), rs[i].metrics.time) > 0
    ensures Lost(first, rs, i) <==> !rs[i].hit
  {
    TickingAt(first, rs, i);
    GuardFires(Before(first, rs, i).metrics.time, Before(first, rs, i).metrics.cpu, rs[i].metrics.time);
  }

  // ----- The error of every rate

  /** A rate that is never too high and, in relation to itself, too low by less than a second in the gap plus one. */
  predicate Close(used: real, rate: real, gap: real)
    requires gap > 0.0
  {
    0.0 <= used <= rate && (rate > 0.0 ==> rate - used < rate * (1000000000.0 / (gap + 1000000000.0)))
  }

  lemma RateIsClose(delta: real, gap: real, duration: real)
    requires delta >= 0.0 && 0.0 < gap <= duration < gap + 1000000000.0
    ensures Close(delta / duration, delta / gap, gap)
  {
    RateError(delta, gap, duration);
    if delta == 0.0 {
      assert delta / gap == 0.0;
    }
  }

  /** The true time between step `i` and the reading it is compared with. */
  function Gap(first: Reading, rs: seq<Reading>, i: nat): int
    requires i < |rs|
  {
    rs[i].metrics.time - Before(first, rs, i).metrics.time
  }

  /** A duration that saturated below the true time makes the rate too high. */
  lemma RateTooHigh(delta: real, gap: real, duration: real)
    requires delta > 0.0 && 0.0 < duration < gap
    ensures delta / duration > delta / gap
  {
    var used, rate := delta / duration, delta / gap;
    assert used * duration == delta && rate * gap == delta;
    if used <= rate {
      ProductMonotone(used, rate, duration);
      StrictProduct(duration, gap, rate);
    }
  }

  /** A step that is compared with its predecessor: the rate is close exactly for times that `int64` holds. */
  lemma RateIsCloseOrZero(first: Reading, rs: seq<Reading>, i: nat)
    requires i < |rs| && !Lost(first, rs, i) && Gap(first, rs, i) > 0
    ensures var delta, gap := StepDelta(first, rs, i) as real, Gap(first, rs, i) as real;
      Close(delta / DurationNS(Before(first, rs, i).Kept(), rs[i].metrics.time) as real, delta / gap, gap)
      <==> StepDelta(first, rs, i) == 0 || Gap(first, rs, i) <= MAX_INT64
  {
    var before := Before(first, rs, i);
    var delta, gap := StepDelta(first, rs, i), Gap(first, rs, i);
    var duration := DurationNS(before.Kept(), rs[i].metrics.time);
    TruncationBound(before.metrics.time, before.metrics.cpu, rs[i].metrics.time);
    if gap <= MAX_INT64 {
      RateIsClose(delta as real, gap as real, duration as real);
    } else if delta > 0 {
      RateTooHigh(delta as real, gap as real, duration as real);
    }
  }

  /** Where an expired entry makes the code report 0, that is close only if nothing was gained. */
  lemma NothingIsClose(delta: real, gap: real)
    requires delta >= 0.0 && gap > 0.0
    ensures Close(0.0, delta / gap, gap) <==> delta == 0.0
  {
    var rate, part := delta / gap, 1000000000.0 / (gap + 1000000000.0);
    assert rate * gap == delta;
    assert part < 1.0;
    if delta > 0.0 {
      assert rate > 0.0;
      StrictProduct(part, 1.0, rate);
    }
  }

  /** At every step of every run after which time has passed: the used cores do not exceed the true rate, and fall
      short of it by a relative error below one second in the gap plus a second, if and only if nothing was gained, or
      the store still had its entry and the gap is one that `int64` holds. */
  lemma EveryRateIsClose(numCPU: Positive, first: Reading, rs: seq<Reading>, i: nat)
    requires ReplaySafe(Some(first.Kept()), rs) && i < |rs| && Gap(first, rs, i) > 0
    ensures var gap := Gap(first, rs, i) as real;
      Close(Replay(numCPU, Some(first.Kept()), rs)[i].usedCores, StepDelta(first, rs, i) as real / gap, gap)
      <==> StepDelta(first, rs, i) == 0 || (rs[i].hit && Gap(first, rs, i) <= MAX_INT64)
  {
    UsedCoresAt(numCPU, first, rs, i);
    GuardFires(Before(first, rs, i).metrics.time, Before(first, rs, i).metrics.cpu, rs[i].metrics.time);
    if rs[i].hit {
      RateIsCloseOrZero(first, rs, i);
    } else {
      NothingIsClose(StepDelta(first, rs, i) as real, Gap(first, rs, i) as real);
    }
  }

  /** One second and one nanosecond of usage after any reading, but with its store entry expired: no time is accounted
      for, and the rate is not close. */
  lemma ExpiredEntryLosesUsage(numCPU: Positive, first: Reading)
    requires first.metrics.cpu.totalUsage == 0
    ensures var cpu := first.metrics.cpu.(totalUsage := 1);
      var r := Reading(first.json, first.metrics.(time := first.metrics.time + SECOND, cpu := cpu), false);
      && ReplaySafe(Some(first.Kept()), [r]) && Nondecreasing(0, [r])
      && Sum(CoreTimes(first, [r], Replay(numCPU, Some(first.Kept()), [r]))) == 0.0
      && !Close(Replay(numCPU, Some(first.Kept()), [r])[0].usedCores, 1.0 / SECOND as real, SECOND as real)
  {
    var cpu := first.metrics.cpu.(totalUsage := 1);
    var r := Reading(first.json, first.metrics.(time := first.metrics.time + SECOND, cpu := cpu), false);
    assert [r][1..] == [];
    CpuTimeIsConserved(numCPU, first, [r]);
    EveryRateIsClose(numCPU, first, [r], 0);
  }
}
