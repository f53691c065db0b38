/** Single-value cgroup stat files. */
module StatFile {
  import opened Machine
  import opened Outcomes
  import opened Text
  import opened Decimal

  datatype StatError = ReadFailed | NotANumber

  /** `parseUint`: negative numbers read as 0, "-0" and signed positive numbers are errors. */
  function ParseStatUint(s: string): Result<uint64, StatError> {
    match ParseUint(s)
    case Ok(v) => Ok(v)
    case Err(_) =>
      var (intValue, intErr) := ParseInt(s);
      if intErr == None && intValue < 0 then Ok(0)
      else if intErr == Some(Range) && intValue < 0 then Ok(0)
      else Err(NotANumber)
  }

  /** `ParseStatFileContentUint64`, for a file's text or none. */
  function ParseContent(contents: Option<string>): Result<uint64, StatError> {
    match contents
    case None => Err(ReadFailed)
    case Some(text) =>
      var trimmed := TrimSpace(text);
      if trimmed == "max" then Ok(MAX_UINT64) else ParseStatUint(trimmed)
  }

  /** Which texts outside the unsigned range read as 0: a minus sign with a non-zero number, or with digits
      that already left the 64-bit range, whatever follows those. */
  lemma NegativeReadsAsZero(s: string)
    requires ParseUint(s).Err?
    ensures ParseStatUint(s).Ok? <==>
            && s != "" && s[0] == '-'
            && (ParseUint(s[1..]) == Err(Range) || (ParseUint(s[1..]).Ok? && ParseUint(s[1..]).value > 0))
    ensures ParseStatUint(s).Ok? ==> ParseStatUint(s).value == 0
  {
  }

  lemma TrimmedNumber(before: string, n: nat, after: string)
    requires AllIn(before, SPACES) && AllIn(after, SPACES)
    ensures TrimSpace(before + OfNat(n) + after) == OfNat(n)
  {
    var s := OfNat(n);
    assert IsDigit(s[0]) && IsDigit(s[|s| - 1]);
    TrimPadding(before, s, after);
  }

  lemma DecimalStart(s: string)
    requires IsDecimal(s)
    ensures s[0] != '-' && s != "max"
  {
    assert IsDigit(s[0]);
  }

  lemma PrintedStatUint(n: nat)
    ensures ParseStatUint(OfNat(n)) == if n <= MAX_UINT64 then Ok(n) else Err(NotANumber)
  {
    ParseUintExact(OfNat(n));
    DecimalStart(OfNat(n));
    if n > MAX_UINT64 {
      NegativeReadsAsZero(OfNat(n));
    }
  }

  /** A printed number reads as that number as far as it fits, with any white space around it. */
  lemma PrintedStat(before: string, n: nat, after: string)
    requires AllIn(before, SPACES) && AllIn(after, SPACES)
    ensures ParseContent(Some(before + OfNat(n) + after)) == if n <= MAX_UINT64 then Ok(n) else Err(NotANumber)
  {
    TrimmedNumber(before, n, after);
    DecimalStart(OfNat(n));
    PrintedStatUint(n);
  }

  /** And "max" as the largest one. */
  lemma MaxStat(before: string, after: string)
    requires AllIn(before, SPACES) && AllIn(after, SPACES)
    ensures ParseContent(Some(before + "max" + after)) == Ok(MAX_UINT64)
    ensures ParseContent(None) == Err(ReadFailed)
  {
    TrimPadding(before, "max", after);
  }
}

/** Memory metrics: limits that mean "no limit", and swap usage. */
module MemoryLimits {
  import opened Machine
  import opened Outcomes
  import opened Text
  import opened Decimal
  import opened StatFile
  import opened MetricSets

  /** `raw.Memory`, without the Windows fields. */
  datatype RawMemory = RawMemory(
    usageLimit: uint64, cache: uint64, rss: uint64, swapUsage: Option<uint64>, fuzzUsage: uint64,
    kernelMemoryUsage: uint64, swapLimit: uint64, softLimit: uint64)

  /** `biz.Memory`, without the Windows fields. */
  datatype Memory = Memory(
    usageBytes: uint64, cacheUsageBytes: uint64, rssUsageBytes: uint64, memLimitBytes: uint64, usagePercent: real,
    kernelUsageBytes: uint64, softLimitBytes: uint64, swapLimitBytes: uint64,
    swapUsageBytes: Option<uint64>, swapOnlyUsageBytes: Option<uint64>, swapLimitUsagePercent: Option<real>)

  /** A ridiculously large limit is no limit. */
  function Limit(x: uint64): uint64 {
    if x > HALF_MAX_INT64 then 0 else x
  }

  function PercentOf(x: uint64, limit: uint64): real {
    if limit > 0 then 100.0 * x as real / limit as real else 0.0
  }

  /** Swap beyond memory, when it is reported and not below the memory it should contain. */
  function SwapOnly(mem: RawMemory): Option<uint64> {
    match mem.swapUsage
    case None => None
    case Some(swap) =>
      if swap == 0 then Some(0) else if mem.fuzzUsage > swap then None else Some(swap - mem.fuzzUsage)
  }

  function MemoryOf(mem: RawMemory): Memory {
    var swapOnly := SwapOnly(mem);
    var swapUsage := if swapOnly.Some? then Some(Uint64(mem.rss + swapOnly.value)) else None;
    Memory(
      mem.rss, mem.cache, mem.rss, Limit(mem.usageLimit), PercentOf(mem.rss, Limit(mem.usageLimit)),
      mem.kernelMemoryUsage, Limit(mem.softLimit), Limit(mem.swapLimit),
      swapUsage, swapOnly, if swapUsage.Some? then Some(PercentOf(swapUsage.value, Limit(mem.swapLimit))) else None)
  }

  /** `memory` of the metrics fetcher. */
  method NormaliseMemory(mem: RawMemory) returns (m: Memory)
    ensures m == MemoryOf(mem)
  {
    var memLimits := mem.usageLimit;
    if memLimits > HALF_MAX_INT64 {
      memLimits := 0;
    }
    var usagePercent := 0.0;
    if memLimits > 0 {
      usagePercent := 100.0 * mem.rss as real / memLimits as real;
    }
    var softLimit := mem.softLimit;
    if mem.softLimit > HALF_MAX_INT64 {
      softLimit := 0;
    }
    var swapLimit := mem.swapLimit;
    if mem.swapLimit > HALF_MAX_INT64 {
      swapLimit := 0;
    }
    m := Memory(mem.rss, mem.cache, mem.rss, memLimits, usagePercent, mem.kernelMemoryUsage, softLimit, swapLimit,
                None, None, None);
    if mem.swapUsage == None {
      return;
    }
    if mem.swapUsage.value != 0 && mem.fuzzUsage > mem.swapUsage.value {
      return;
    }
    var swapOnlyUsage: uint64 := 0;
    if mem.swapUsage.value != 0 {
      swapOnlyUsage := mem.swapUsage.value - mem.fuzzUsage;
    }
    var swapUsage := Uint64(mem.rss + swapOnlyUsage);
    var swapLimitUsagePercent := 0.0;
    if swapLimit > 0 {
      swapLimitUsagePercent := 100.0 * swapUsage as real / swapLimit as real;
    }
    m := m.(swapUsageBytes := Some(swapUsage), swapOnlyUsageBytes := Some(swapOnlyUsage),
            swapLimitUsagePercent := Some(swapLimitUsagePercent));
  }

  datatype Metric =
    | CacheBytes | UsageBytes | ResidentSizeBytes | KernelUsageBytes | SizeLimitBytes | UsageLimitPercent
    | SoftLimitBytes | SwapLimitBytes | SwapLimitUsagePercent | SwapUsageBytes | SwapOnlyUsageBytes

  function Positive(x: uint64): Option<real> {
    if x > 0 then Some(x as real) else None
  }

  function Present(x: Option<uint64>): Option<real> {
    if x.Some? then Some(x.value as real) else None
  }

  /** The value each metric is emitted with, if it is emitted. */
  function MetricValue(mem: Memory, metric: Metric): Option<real> {
    match metric
    case CacheBytes => Some(mem.cacheUsageBytes as real)
    case UsageBytes => Some(mem.usageBytes as real)
    case ResidentSizeBytes => Some(mem.rssUsageBytes as real)
    case KernelUsageBytes => Some(mem.kernelUsageBytes as real)
    case SizeLimitBytes => Positive(mem.memLimitBytes)
    case UsageLimitPercent => if mem.memLimitBytes > 0 then Some(mem.usagePercent) else None
    case SoftLimitBytes => Positive(mem.softLimitBytes)
    case SwapLimitBytes => Positive(mem.swapLimitBytes)
    case SwapLimitUsagePercent => if mem.swapLimitBytes > 0 then mem.swapLimitUsagePercent else None
    case SwapUsageBytes => Present(mem.swapUsageBytes)
    case SwapOnlyUsageBytes => Present(mem.swapOnlyUsageBytes)
  }

  /** `memory` of the sampler. */
  method MemoryEntries(mem: Memory) returns (metrics: seq<Entry<Metric, real>>)
    ensures forall m, v :: Entry(m, v) in metrics <==> MetricValue(mem, m) == Some(v)
  {
    metrics := [
      Entry(CacheBytes, mem.cacheUsageBytes as real),
      Entry(UsageBytes, mem.usageBytes as real),
      Entry(ResidentSizeBytes, mem.rssUsageBytes as real),
      Entry(KernelUsageBytes, mem.kernelUsageBytes as real)];
    if mem.memLimitBytes > 0 {
      metrics := metrics
        + [Entry(SizeLimitBytes, mem.memLimitBytes as real), Entry(UsageLimitPercent, mem.usagePercent)];
    }
    if mem.softLimitBytes > 0 {
      metrics := metrics + [Entry(SoftLimitBytes, mem.softLimitBytes as real)];
    }
    if mem.swapLimitBytes > 0 {
      metrics := metrics + [Entry(SwapLimitBytes, mem.swapLimitBytes as real)];
    }
    if mem.swapLimitBytes > 0 && mem.swapLimitUsagePercent.Some? {
      metrics := metrics + [Entry(SwapLimitUsagePercent, mem.swapLimitUsagePercent.value)];
    }
    if mem.swapUsageBytes.Some? {
      metrics := metrics + [Entry(SwapUsageBytes, mem.swapUsageBytes.value as real)];
    }
    if mem.swapOnlyUsageBytes.Some? {
      metrics := metrics + [Entry(SwapOnlyUsageBytes, mem.swapOnlyUsageBytes.value as real)];
    }
  }

  // ----- The swap limit of the Docker API

  /** `memoryMetrics`: an unsigned difference, which wraps around when the container may swap without limit. */
  function DockerSwapLimit(memorySwap: int64, memory: int64): uint64 {
    Uint64(Uint64(memorySwap) - Uint64(memory))
  }

  /** The swap a container may use beyond its memory, 0 if there is no limit to report. */
  function IntendedSwapLimit(memorySwap: int, memory: int): int {
    if 0 <= memorySwap - memory <= HALF_MAX_INT64 then memorySwap - memory else 0
  }

  lemma DockerSwapLimitIsDifference(memorySwap: int64, memory: int64)
    ensures var d: int := memorySwap - memory as int; DockerSwapLimit(memorySwap, memory) == Uint64(d)
  {
    var s: int, m: int := memorySwap, memory;
    var k := Quotient(s);
    var l := Quotient(m);
    Wrap(s - m, l - k);
  }

  /** On all 64-bit inputs: the wrapped difference is neutralised precisely while it is not so far below
      zero that it wraps around into the range of plausible limits. */
  lemma SwapLimitNeutralised(memorySwap: int64, memory: int64)
    ensures var s: int, m: int := memorySwap, memory;
      Limit(DockerSwapLimit(memorySwap, memory)) == IntendedSwapLimit(s, m) <==> m - s < TWO64 - HALF_MAX_INT64
  {
    DockerSwapLimitIsDifference(memorySwap, memory);
    var s: int, m: int := memorySwap, memory;
    if s < m {
      Wrap(s - m, 1);
      Fits(s - m + TWO64);
    }
  }

  /** Beyond that, a limit is made up: the smallest swap setting and the largest memory read as one byte of swap. */
  lemma SwapLimitMadeUp()
    ensures Limit(DockerSwapLimit(MIN_INT64, MAX_INT64)) == 1 && IntendedSwapLimit(MIN_INT64, MAX_INT64) == 0
  {
    DockerSwapLimitIsDifference(MIN_INT64, MAX_INT64);
  }

  /** For every configuration Docker can report (limits from 0 up, swap from -1 up) the emitted swap limit is the
      intended one, and none is emitted when swap is unlimited, unset or not above memory. */
  lemma EmittedSwapLimit(memorySwap: int64, memory: int64, mem: RawMemory)
    requires memorySwap >= -1 && memory >= 0
    requires mem.swapLimit == DockerSwapLimit(memorySwap, memory)
    ensures MetricValue(MemoryOf(mem), SwapLimitBytes)
            == if 0 < memorySwap - memory <= HALF_MAX_INT64 then Some((memorySwap - memory) as real) else None
  {
  }

  // ----- The soft limit of cgroup v1, from file text to metric

  /** What `Fetch` stores: an error leaves the zero value. */
  function SoftLimitOf(contents: Option<string>): uint64 {
    match ParseContent(contents) case Ok(v) => v case Err(_) => 0
  }

  lemma SoftLimitValue(t: string)
    ensures (match ParseStatUint(t) case Ok(v) => Limit(v) case Err(_) => 0)
            == if IsDecimal(t) && Value(t) <= HALF_MAX_INT64 then Value(t) else 0
  {
    ParseUintExact(t);
    if ParseUint(t).Err? {
      NegativeReadsAsZero(t);
    }
  }

  /** The unsigned decimal texts from 1 to MaxInt64/2 are emitted, with their value, and no other text is. */
  lemma EmittedSoftLimit(text: string, mem: RawMemory)
    requires mem.softLimit == SoftLimitOf(Some(text))
    ensures var t := TrimSpace(text);
      MetricValue(MemoryOf(mem), SoftLimitBytes)
      == if IsDecimal(t) && 1 <= Value(t) <= HALF_MAX_INT64 then Some(Value(t) as real) else None
  {
    var t := TrimSpace(text);
    if t == "max" {
      assert !IsDigit(t[0]);
      assert t[0] in t;
    } else {
      SoftLimitValue(t);
    }
  }

  /** Swap metrics come all three or not at all, and the subtraction behind them never wraps. */
  lemma SwapMetricsTogether(mem: RawMemory)
    ensures var m := MemoryOf(mem);
      && (m.swapUsageBytes.Some? <==> m.swapOnlyUsageBytes.Some?)
      && (m.swapUsageBytes.Some? <==> m.swapLimitUsagePercent.Some?)
      && (m.swapUsageBytes.Some? <==>
            mem.swapUsage.Some? && (mem.swapUsage.value == 0 || mem.fuzzUsage <= mem.swapUsage.value))
      && (m.swapOnlyUsageBytes.Some? && mem.swapUsage.value > 0 ==>
            m.swapOnlyUsageBytes.value + mem.fuzzUsage == mem.swapUsage.value)
  {
  }

  /** The percentage of a plausible memory limit, multiplied out. */
  lemma UsagePercentMeans(mem: RawMemory)
    requires 1 <= mem.usageLimit <= HALF_MAX_INT64
    ensures MemoryOf(mem).memLimitBytes == mem.usageLimit
    ensures MemoryOf(mem).usagePercent * mem.usageLimit as real == 100.0 * mem.rss as real
  {
  }

  /** The percentage of a plausible swap limit, multiplied out. */
  lemma SwapPercentMeans(mem: RawMemory)
    requires SwapOnly(mem).Some? && 1 <= mem.swapLimit <= HALF_MAX_INT64
    ensures var m := MemoryOf(mem);
      m.swapUsageBytes.Some? && m.swapLimitUsagePercent.Some?
      && m.swapLimitUsagePercent.value * mem.swapLimit as real == 100.0 * m.swapUsageBytes.value as real
  {
  }

  /** Without a plausible memory limit neither the limit nor a percentage of it is emitted. */
  lemma NoLimitNoPercent(mem: RawMemory)
    requires !(1 <= mem.usageLimit <= HALF_MAX_INT64)
    ensures MetricValue(MemoryOf(mem), SizeLimitBytes) == None && MetricValue(MemoryOf(mem), UsageLimitPercent) == None
  {
  }

  /** The fields that are taken over, and the limits that are plausible ones or 0. */
  lemma FieldsMean(mem: RawMemory)
    ensures var m := MemoryOf(mem);
      && m.usageBytes == m.rssUsageBytes == mem.rss
      && m.cacheUsageBytes == mem.cache && m.kernelUsageBytes == mem.kernelMemoryUsage
      && m.memLimitBytes == (if mem.usageLimit <= MAX_INT64 / 2 then mem.usageLimit else 0)
      && m.softLimitBytes == (if mem.softLimit <= MAX_INT64 / 2 then mem.softLimit else 0)
      && m.swapLimitBytes == (if mem.swapLimit <= MAX_INT64 / 2 then mem.swapLimit else 0)
  {
  }

  /** Swap usage: nothing when it is not reported or below the memory it should contain; else what it has beyond memory,
      0 if there is none at all, and the resident size on top of that. */
  lemma SwapMeans(mem: RawMemory)
    ensures var m := MemoryOf(mem);
      && (mem.swapUsage == None ==> m.swapOnlyUsageBytes == None && m.swapUsageBytes == None)
      && (mem.swapUsage == Some(0) ==> m.swapOnlyUsageBytes == Some(0) && m.swapUsageBytes == Some(mem.rss))
      && (mem.swapUsage.Some? && 0 < mem.swapUsage.value < mem.fuzzUsage ==>
            m.swapOnlyUsageBytes == None && m.swapUsageBytes == None)
      && (mem.swapUsage.Some? && 0 < mem.swapUsage.value && mem.fuzzUsage <= mem.swapUsage.value ==>
            var only := mem.swapUsage.value - mem.fuzzUsage;
            && m.swapOnlyUsageBytes == Some(only)
            && (mem.rss + only <= MAX_UINT64 ==> m.swapUsageBytes == Some(mem.rss + only)))
  {
  }

  /** Without a plausible limit a percentage of it is 0. */
  lemma NoLimitZeroPercent(mem: RawMemory)
    ensures mem.usageLimit == 0 || mem.usageLimit > MAX_INT64 / 2 ==> MemoryOf(mem).usagePercent == 0.0
    ensures mem.swapLimit == 0 || mem.swapLimit > MAX_INT64 / 2 ==>
      MemoryOf(mem).swapLimitUsagePercent in {None, Some(0.0)}
  {
  }

  /** From printed file to metric: a number with white space around it, such as the newline the kernel prints, is the
      soft limit that is emitted, as far as it is a plausible one. */
  lemma PrintedSoftLimit(before: string, n: nat, after: string, mem: RawMemory)
    requires AllIn(before, SPACES) && AllIn(after, SPACES)
    requires mem.softLimit == SoftLimitOf(Some(before + OfNat(n) + after))
    ensures MetricValue(MemoryOf(mem), SoftLimitBytes) == if 1 <= n <= MAX_INT64 / 2 then Some(n as real) else None
  {
    PrintedStat(before, n, after);
  }

  /** "max" is no limit. */
  lemma MaxSoftLimit(before: string, after: string, mem: RawMemory)
    requires AllIn(before, SPACES) && AllIn(after, SPACES)
    requires mem.softLimit == SoftLimitOf(Some(before + "max" + after))
    ensures MetricValue(MemoryOf(mem), SoftLimitBytes) == None
  {
    MaxStat(before, after);
  }
}
