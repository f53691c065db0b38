/** What a metric set shows under each name: the emitted metrics, one by one, for any sample. */
module MetricTable {
  import opened Outcomes
  import opened MetricsFetcher
  import opened MetricSets
  import opened MetricNames
  import opened Attributes
  import opened Emission
  import MemoryLimits
  import BlkioTotals

  /** The set shows this number under the name, or nothing. */
  predicate Shows(set0: map<string, Datum>, name: string, v: Option<real>) {
    ValueAt(set0, name) == AsNumber(v)
  }

  predicate ShowsNumber(set0: map<string, Datum>, name: string, v: real) {
    Shows(set0, name, Some(v))
  }

  function When(shown: bool, v: real): Option<real> {
    if shown then Some(v) else None
  }

  function OrZero(v: Option<real>): real {
    if v.Some? then v.value else 0.0
  }

  lemma MiscByName(set0: map<string, Datum>, attributes: AttributeMap, storage: Option<DeviceMapperStats>, s: Sample)
    requires Complete(set0, attributes, storage, Some(s))
    ensures ShowsNumber(set0, "restartCount", s.restartCount as real)
    ensures ShowsNumber(set0, "threadCount", s.pids.current as real)
    ensures ShowsNumber(set0, "threadCountLimit", s.pids.limit as real)
  {
    assert MetricName(RestartCount) == "restartCount";
    assert MetricName(ThreadCount) == "threadCount" && MetricName(ThreadCountLimit) == "threadCountLimit";
  }

  lemma CpuByName(set0: map<string, Datum>, attributes: AttributeMap, storage: Option<DeviceMapperStats>, s: Sample,
                  k: CpuMetric)
    requires Complete(set0, attributes, storage, Some(s))
    ensures match k
            case UsedCores => ShowsNumber(set0, "cpuUsedCores", s.cpu.usedCores)
            case UsedCoresPercent => ShowsNumber(set0, "cpuUsedCoresPercent", s.cpu.usedCoresPercent)
            case LimitCores => ShowsNumber(set0, "cpuLimitCores", s.cpu.limitCores)
            case CPUPercent => ShowsNumber(set0, "cpuPercent", s.cpu.cpuPercent)
            case KernelPercent => ShowsNumber(set0, "cpuKernelPercent", s.cpu.kernelPercent)
            case UserPercent => ShowsNumber(set0, "cpuUserPercent", s.cpu.userPercent)
            case ThrottlePeriods => ShowsNumber(set0, "cpuThrottlePeriods", s.cpu.throttlePeriods as real)
            case ThrottleTime => ShowsNumber(set0, "cpuThrottleTimeMs", s.cpu.throttledTime)
            case Shares => ShowsNumber(set0, "cpuShares", s.cpu.shares as real)
  {
    assert MetricName(OfCpu(k)) == CpuName(k);
  }

  function AsReal(v: Option<int>): Option<real> {
    if v.Some? then Some(v.value as real) else None
  }

  /** Limits are shown when there is one, and swap metrics when swap usage is known. */
  lemma MemoryByName(set0: map<string, Datum>, attributes: AttributeMap, storage: Option<DeviceMapperStats>, s: Sample,
                     k: MemoryLimits.Metric)
    requires Complete(set0, attributes, storage, Some(s))
    ensures var m := s.memory;
      match k
      case CacheBytes => ShowsNumber(set0, "memoryCacheBytes", m.cacheUsageBytes as real)
      case UsageBytes => ShowsNumber(set0, "memoryUsageBytes", m.usageBytes as real)
      case ResidentSizeBytes => ShowsNumber(set0, "memoryResidentSizeBytes", m.rssUsageBytes as real)
      case KernelUsageBytes => ShowsNumber(set0, "memoryKernelUsageBytes", m.kernelUsageBytes as real)
      case SizeLimitBytes => Shows(set0, "memorySizeLimitBytes", When(m.memLimitBytes > 0, m.memLimitBytes as real))
      case UsageLimitPercent => Shows(set0, "memoryUsageLimitPercent", When(m.memLimitBytes > 0, m.usagePercent))
      case SoftLimitBytes => Shows(set0, "memorySoftLimitBytes", When(m.softLimitBytes > 0, m.softLimitBytes as real))
      case SwapLimitBytes => Shows(set0, "memorySwapLimitBytes", When(m.swapLimitBytes > 0, m.swapLimitBytes as real))
      case SwapLimitUsagePercent =>
        Shows(set0, "memorySwapLimitUsagePercent", if m.swapLimitBytes > 0 then m.swapLimitUsagePercent else None)
      case SwapUsageBytes => Shows(set0, "memorySwapUsageBytes", AsReal(m.swapUsageBytes))
      case SwapOnlyUsageBytes => Shows(set0, "memorySwapOnlyUsageBytes", AsReal(m.swapOnlyUsageBytes))
  {
    assert MetricName(OfMemory(k)) == MemoryName(k);
  }

  /** Each block I/O total, as it is and as a rate; and all bytes, counting a direction without a total as 0. */
  lemma BlkioByName(set0: map<string, Datum>, attributes: AttributeMap, storage: Option<DeviceMapperStats>, s: Sample,
                    k: BlkioTotals.Metric)
    requires Complete(set0, attributes, storage, Some(s))
    ensures var b := s.blkIO;
      match k
      case TotalReadCount => Shows(set0, "ioTotalReadCount", b.readCount)
      case ReadCountPerSecond => Shows(set0, "ioReadCountPerSecond", b.readCount)
      case TotalWriteCount => Shows(set0, "ioTotalWriteCount", b.writeCount)
      case WriteCountPerSecond => Shows(set0, "ioWriteCountPerSecond", b.writeCount)
      case TotalReadBytes => Shows(set0, "ioTotalReadBytes", b.readBytes)
      case ReadBytesPerSecond => Shows(set0, "ioReadBytesPerSecond", b.readBytes)
      case TotalWriteBytes => Shows(set0, "ioTotalWriteBytes", b.writeBytes)
      case WriteBytesPerSecond => Shows(set0, "ioWriteBytesPerSecond", b.writeBytes)
      case TotalBytes =>
        Shows(set0, "ioTotalBytes",
              When(b.readBytes.Some? || b.writeBytes.Some?, OrZero(b.readBytes) + OrZero(b.writeBytes)))
  {
    assert MetricName(OfBlkio(k)) == BlkioName(k);
  }

  lemma NetworkByName(set0: map<string, Datum>, attributes: AttributeMap, storage: Option<DeviceMapperStats>, s: Sample,
                      k: NetworkMetric)
    requires Complete(set0, attributes, storage, Some(s))
    ensures match k
            case RxBytes => ShowsNumber(set0, "networkRxBytes", s.network.rxBytes as real)
            case RxErrors => ShowsNumber(set0, "networkRxErrors", s.network.rxErrors as real)
            case RxDropped => ShowsNumber(set0, "networkRxDropped", s.network.rxDropped as real)
            case RxPackets => ShowsNumber(set0, "networkRxPackets", s.network.rxPackets as real)
            case TxBytes => ShowsNumber(set0, "networkTxBytes", s.network.txBytes as real)
            case TxErrors => ShowsNumber(set0, "networkTxErrors", s.network.txErrors as real)
            case TxDropped => ShowsNumber(set0, "networkTxDropped", s.network.txDropped as real)
            case TxPackets => ShowsNumber(set0, "networkTxPackets", s.network.txPackets as real)
  {
    assert MetricName(OfNetwork(k, false)) == NetworkName(k);
  }

  /** Every network counter is also handed over as a rate, under its name followed by "PerSecond". */
  lemma NetworkRates(set0: map<string, Datum>, attributes: AttributeMap, storage: Option<DeviceMapperStats>, s: Sample,
                     k: NetworkMetric)
    requires Complete(set0, attributes, storage, Some(s))
    ensures ValueAt(set0, NetworkName(k) + "PerSecond") == ValueAt(set0, NetworkName(k))
  {
    assert MetricName(OfNetwork(k, false)) == NetworkName(k);
    assert MetricName(OfNetwork(k, true)) == NetworkName(k) + "PerSecond";
  }

  lemma StorageByName(set0: map<string, Datum>, attributes: AttributeMap, d: DeviceMapperStats, running: Option<Sample>,
                      k: StorageMetric)
    requires Complete(set0, attributes, Some(d), running)
    ensures match k
            case DataUsed => ShowsNumber(set0, "storageDataUsedBytes", d.dataUsed as real)
            case DataAvailable => ShowsNumber(set0, "storageDataAvailableBytes", d.dataAvailable as real)
            case DataTotal => ShowsNumber(set0, "storageDataTotalBytes", d.dataTotal as real)
            case DataUsagePercent => ShowsNumber(set0, "storageDataUsagePercent", d.dataUsagePercent)
            case MetadataUsed => ShowsNumber(set0, "storageMetadataUsedBytes", d.metadataUsed as real)
            case MetadataAvailable => ShowsNumber(set0, "storageMetadataAvailableBytes", d.metadataAvailable as real)
            case MetadataTotal => ShowsNumber(set0, "storageMetadataTotalBytes", d.metadataTotal as real)
            case MetadataUsagePercent => ShowsNumber(set0, "storageMetadataUsagePercent", d.metadataUsagePercent)
  {
    assert MetricName(OfStorage(k)) == StorageName(k);
  }

  /** A container that is not running shows no number but those of storage, and none without statistics. */
  lemma OnlyStorage(set0: map<string, Datum>, attributes: AttributeMap, storage: Option<DeviceMapperStats>, m: Metric)
    requires Complete(set0, attributes, storage, None)
    ensures storage == None || !m.OfStorage? ==> Shows(set0, MetricName(m), None)
  {
  }
}
