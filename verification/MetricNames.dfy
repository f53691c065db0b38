/** The numeric metrics of a metric set, and the names they are set under. */
module MetricNames {
  import MemoryLimits
  import BlkioTotals

  datatype CpuMetric =
    | UsedCores | UsedCoresPercent | LimitCores | CPUPercent | KernelPercent | UserPercent
    | ThrottlePeriods | ThrottleTime | Shares

  datatype NetworkMetric =
    | RxBytes | RxErrors | RxDropped | RxPackets | TxBytes | TxErrors | TxDropped | TxPackets

  datatype StorageMetric =
    | DataUsed | DataAvailable | DataTotal | DataUsagePercent
    | MetadataUsed | MetadataAvailable | MetadataTotal | MetadataUsagePercent

  /** One network metric is emitted as it is and as a rate. */
  datatype Metric =
    | RestartCount
    | OfCpu(cpu: CpuMetric)
    | OfMemory(memory: MemoryLimits.Metric)
    | ThreadCount
    | ThreadCountLimit
    | OfBlkio(blkio: BlkioTotals.Metric)
    | OfNetwork(network: NetworkMetric, perSecond: bool)
    | OfStorage(storage: StorageMetric)

  function CpuName(m: CpuMetric): (name: string)
    ensures |name| >= 3 && name[0] == 'c' && name[1] == 'p'
  {
    match m
    case UsedCores => "cpuUsedCores"
    case UsedCoresPercent => "cpuUsedCoresPercent"
    case LimitCores => "cpuLimitCores"
    case CPUPercent => "cpuPercent"
    case KernelPercent => "cpuKernelPercent"
    case UserPercent => "cpuUserPercent"
    case ThrottlePeriods => "cpuThrottlePeriods"
    case ThrottleTime => "cpuThrottleTimeMs"
    case Shares => "cpuShares"
  }

  function MemoryName(m: MemoryLimits.Metric): (name: string)
    ensures |name| >= 3 && name[0] == 'm'
  {
    match m
    case CacheBytes => "memoryCacheBytes"
    case UsageBytes => "memoryUsageBytes"
    case ResidentSizeBytes => "memoryResidentSizeBytes"
    case KernelUsageBytes => "memoryKernelUsageBytes"
    case SizeLimitBytes => "memorySizeLimitBytes"
    case UsageLimitPercent => "memoryUsageLimitPercent"
    case SoftLimitBytes => "memorySoftLimitBytes"
    case SwapLimitBytes => "memorySwapLimitBytes"
    case SwapLimitUsagePercent => "memorySwapLimitUsagePercent"
    case SwapUsageBytes => "memorySwapUsageBytes"
    case SwapOnlyUsageBytes => "memorySwapOnlyUsageBytes"
  }

  function BlkioName(m: BlkioTotals.Metric): (name: string)
    ensures |name| >= 3 && name[0] == 'i' && name[1] == 'o'
  {
    match m
    case TotalReadCount => "ioTotalReadCount"
    case ReadCountPerSecond => "ioReadCountPerSecond"
    case TotalWriteCount => "ioTotalWriteCount"
    case WriteCountPerSecond => "ioWriteCountPerSecond"
    case TotalReadBytes => "ioTotalReadBytes"
    case ReadBytesPerSecond => "ioReadBytesPerSecond"
    case TotalWriteBytes => "ioTotalWriteBytes"
    case WriteBytesPerSecond => "ioWriteBytesPerSecond"
    case TotalBytes => "ioTotalBytes"
  }

  function NetworkName(m: NetworkMetric): (name: string)
    ensures 14 <= |name| <= 16 && name[0] == 'n' && name[1] == 'e'
  {
    match m
    case RxBytes => "networkRxBytes"
    case RxErrors => "networkRxErrors"
    case RxDropped => "networkRxDropped"
    case RxPackets => "networkRxPackets"
    case TxBytes => "networkTxBytes"
    case TxErrors => "networkTxErrors"
    case TxDropped => "networkTxDropped"
    case TxPackets => "networkTxPackets"
  }

  function StorageName(m: StorageMetric): (name: string)
    ensures |name| >= 3 && name[0] == 's' && name[1] == 't' && name[2] == 'o'
  {
    match m
    case DataUsed => "storageDataUsedBytes"
    case DataAvailable => "storageDataAvailableBytes"
    case DataTotal => "storageDataTotalBytes"
    case DataUsagePercent => "storageDataUsagePercent"
    case MetadataUsed => "storageMetadataUsedBytes"
    case MetadataAvailable => "storageMetadataAvailableBytes"
    case MetadataTotal => "storageMetadataTotalBytes"
    case MetadataUsagePercent => "storageMetadataUsagePercent"
  }

  const PER_SECOND := "PerSecond"

  function MetricName(m: Metric): string {
    match m
    case RestartCount => "restartCount"
    case OfCpu(c) => CpuName(c)
    case OfMemory(k) => MemoryName(k)
    case ThreadCount => "threadCount"
    case ThreadCountLimit => "threadCountLimit"
    case OfBlkio(k) => BlkioName(k)
    case OfNetwork(n, perSecond) => if perSecond then NetworkName(n) + PER_SECOND else NetworkName(n)
    case OfStorage(k) => StorageName(k)
  }

  // ----- No two metrics share a name

  lemma CpuNamesDiffer(a: CpuMetric, b: CpuMetric)
    requires CpuName(a) == CpuName(b)
    ensures a == b
  {
  }

  lemma MemoryNamesDiffer(a: MemoryLimits.Metric, b: MemoryLimits.Metric)
    requires MemoryName(a) == MemoryName(b)
    ensures a == b
  {
  }

  lemma BlkioNamesDiffer(a: BlkioTotals.Metric, b: BlkioTotals.Metric)
    requires BlkioName(a) == BlkioName(b)
    ensures a == b
  {
  }

  lemma NetworkNamesDiffer(a: NetworkMetric, b: NetworkMetric)
    requires NetworkName(a) == NetworkName(b)
    ensures a == b
  {
  }

  lemma StorageNamesDiffer(a: StorageMetric, b: StorageMetric)
    requires StorageName(a) == StorageName(b)
    ensures a == b
  {
  }

  lemma RateNamesDiffer(a: string, b: string)
    requires 14 <= |a| <= 16 && 14 <= |b| <= 16
    ensures a + PER_SECOND != b
    ensures a + PER_SECOND == b + PER_SECOND ==> a == b
  {
    assert |a + PER_SECOND| == |a| + 9;
    if a + PER_SECOND == b + PER_SECOND {
      assert (a + PER_SECOND)[..|a|] == a && (b + PER_SECOND)[..|b|] == b;
    }
  }

  /** How the names of each group start. */
  function Initial(m: Metric): char {
    match m
    case RestartCount => 'r'
    case OfCpu(_) => 'c'
    case OfMemory(_) => 'm'
    case ThreadCount => 't'
    case ThreadCountLimit => 't'
    case OfBlkio(_) => 'i'
    case OfNetwork(_, _) => 'n'
    case OfStorage(_) => 's'
  }

  lemma NameStart(m: Metric)
    ensures |MetricName(m)| >= 3 && MetricName(m)[0] == Initial(m)
    ensures m.OfCpu? ==> MetricName(m)[1] == 'p'
    ensures m.OfBlkio? ==> MetricName(m)[1] == 'o'
    ensures m.OfNetwork? ==> MetricName(m)[1] == 'e'
    ensures m.OfStorage? ==> MetricName(m)[1] == 't' && MetricName(m)[2] == 'o'
  {
  }

  /** No two metrics share a name. */
  lemma NamesDiffer(a: Metric, b: Metric)
    requires MetricName(a) == MetricName(b)
    ensures a == b
  {
    NameStart(a);
    NameStart(b);
    if a.OfCpu? {
      CpuNamesDiffer(a.cpu, b.cpu);
    } else if a.OfMemory? {
      MemoryNamesDiffer(a.memory, b.memory);
    } else if a.OfBlkio? {
      BlkioNamesDiffer(a.blkio, b.blkio);
    } else if a.OfNetwork? {
      RateNamesDiffer(NetworkName(a.network), NetworkName(b.network));
      RateNamesDiffer(NetworkName(b.network), NetworkName(a.network));
      NetworkNamesDiffer(a.network, b.network);
    } else if a.OfStorage? {
      StorageNamesDiffer(a.storage, b.storage);
    }
  }
}
