/** The metrics emitted for a running container: every group of them, from one sample. */
module Emission {
  import opened Machine
  import opened Outcomes
  import opened Networks
  import opened Cpu
  import opened MetricsFetcher
  import opened MetricSets
  import opened MetricNames
  import opened Attributes
  import MemoryLimits
  import BlkioTotals
  import FargateLabels

  /** `biz.DeviceMapperStats`. */
  datatype DeviceMapperStats = DeviceMapperStats(
    dataAvailable: uint64, dataUsed: uint64, dataTotal: uint64, dataUsagePercent: real,
    metadataAvailable: uint64, metadataUsed: uint64, metadataTotal: uint64, metadataUsagePercent: real)

  type Entries = seq<Entry<Metric, real>>

  /** The groups a metric set is populated with, in this order. */
  datatype Group = StorageGroup | MiscGroup | CpuGroup | MemoryGroup | PidsGroup | BlkioGroup | NetworkGroup

  const GROUPS: nat := 7

  function Rank(g: Group): (n: nat)
    ensures n < GROUPS
  {
    match g
    case StorageGroup => 0
    case MiscGroup => 1
    case CpuGroup => 2
    case MemoryGroup => 3
    case PidsGroup => 4
    case BlkioGroup => 5
    case NetworkGroup => 6
  }

  function GroupOf(m: Metric): Group {
    match m
    case RestartCount => MiscGroup
    case OfCpu(_) => CpuGroup
    case OfMemory(_) => MemoryGroup
    case ThreadCount => PidsGroup
    case ThreadCountLimit => PidsGroup
    case OfBlkio(_) => BlkioGroup
    case OfNetwork(_, _) => NetworkGroup
    case OfStorage(_) => StorageGroup
  }

  // ----- The value of each metric

  function CpuValue(cpu: CpuSample, m: CpuMetric): real {
    match m
    case UsedCores => cpu.usedCores
    case UsedCoresPercent => cpu.usedCoresPercent
    case LimitCores => cpu.limitCores
    case CPUPercent => cpu.cpuPercent
    case KernelPercent => cpu.kernelPercent
    case UserPercent => cpu.userPercent
    case ThrottlePeriods => cpu.throttlePeriods as real
    case ThrottleTime => cpu.throttledTime
    case Shares => cpu.shares as real
  }

  function NetworkValue(net: Counters, m: NetworkMetric): real {
    match m
    case RxBytes => net.rxBytes as real
    case RxErrors => net.rxErrors as real
    case RxDropped => net.rxDropped as real
    case RxPackets => net.rxPackets as real
    case TxBytes => net.txBytes as real
    case TxErrors => net.txErrors as real
    case TxDropped => net.txDropped as real
    case TxPackets => net.txPackets as real
  }

  function StorageValue(s: DeviceMapperStats, m: StorageMetric): real {
    match m
    case DataUsed => s.dataUsed as real
    case DataAvailable => s.dataAvailable as real
    case DataTotal => s.dataTotal as real
    case DataUsagePercent => s.dataUsagePercent
    case MetadataUsed => s.metadataUsed as real
    case MetadataAvailable => s.metadataAvailable as real
    case MetadataTotal => s.metadataTotal as real
    case MetadataUsagePercent => s.metadataUsagePercent
  }

  /** What a sample says of a metric. */
  function SampleValue(s: Sample, m: Metric): Option<real> {
    match m
    case RestartCount => Some(s.restartCount as real)
    case OfCpu(c) => Some(CpuValue(s.cpu, c))
    case OfMemory(k) => MemoryLimits.MetricValue(s.memory, k)
    case ThreadCount => Some(s.pids.current as real)
    case ThreadCountLimit => Some(s.pids.limit as real)
    case OfBlkio(k) => BlkioTotals.MetricValue(s.blkIO, k)
    case OfNetwork(n, _) => Some(NetworkValue(s.network, n))
    case OfStorage(_) => None
  }

  /** What a metric set holds of a metric: storage for all containers, the rest for running ones. */
  function Value(storage: Option<DeviceMapperStats>, running: Option<Sample>, m: Metric): Option<real> {
    if m.OfStorage? then (if storage.Some? then Some(StorageValue(storage.value, m.storage)) else None)
    else if running.Some? then SampleValue(running.value, m)
    else None
  }

  // ----- The entries of each group

  /** The entries are those of the metrics of a group that have a value. */
  ghost predicate Lists(entries: Entries, g: Group, storage: Option<DeviceMapperStats>, running: Option<Sample>) {
    forall m, v :: Entry(m, v) in entries <==> GroupOf(m) == g && Value(storage, running, m) == Some(v)
  }

  /** `misc`. */
  function MiscEntries(s: Sample): (entries: Entries)
    ensures Lists(entries, MiscGroup, None, Some(s))
  {
    [Entry(RestartCount, s.restartCount as real)]
  }

  /** `cpu` of the sampler. */
  method CpuEntries(s: Sample) returns (entries: Entries)
    ensures Lists(entries, CpuGroup, None, Some(s))
  {
    entries := [
      Entry(OfCpu(UsedCores), s.cpu.usedCores),
      Entry(OfCpu(UsedCoresPercent), s.cpu.usedCoresPercent),
      Entry(OfCpu(LimitCores), s.cpu.limitCores),
      Entry(OfCpu(CPUPercent), s.cpu.cpuPercent),
      Entry(OfCpu(KernelPercent), s.cpu.kernelPercent),
      Entry(OfCpu(UserPercent), s.cpu.userPercent),
      Entry(OfCpu(ThrottlePeriods), s.cpu.throttlePeriods as real),
      Entry(OfCpu(ThrottleTime), s.cpu.throttledTime),
      Entry(OfCpu(Shares), s.cpu.shares as real) ];
  }

  /** `pids`. */
  function PidsEntries(s: Sample): (entries: Entries)
    ensures Lists(entries, PidsGroup, None, Some(s))
  {
    [Entry(ThreadCount, s.pids.current as real), Entry(ThreadCountLimit, s.pids.limit as real)]
  }

  method CounterEntries(net: Counters, perSecond: bool) returns (entries: Entries)
    ensures forall m, v :: Entry(m, v) in entries <==>
      m.OfNetwork? && m.perSecond == perSecond && v == NetworkValue(net, m.network)
  {
    entries := [
      Entry(OfNetwork(RxBytes, perSecond), net.rxBytes as real),
      Entry(OfNetwork(RxErrors, perSecond), net.rxErrors as real),
      Entry(OfNetwork(RxDropped, perSecond), net.rxDropped as real),
      Entry(OfNetwork(RxPackets, perSecond), net.rxPackets as real),
      Entry(OfNetwork(TxBytes, perSecond), net.txBytes as real),
      Entry(OfNetwork(TxErrors, perSecond), net.txErrors as real),
      Entry(OfNetwork(TxDropped, perSecond), net.txDropped as real),
      Entry(OfNetwork(TxPackets, perSecond), net.txPackets as real) ];
  }

  /** `networkMetrics` of the sampler: every counter as it is and, under another name, as a rate. */
  method NetworkEntries(s: Sample) returns (entries: Entries)
    ensures Lists(entries, NetworkGroup, None, Some(s))
  {
    var asTheyAre := CounterEntries(s.network, false);
    var rates := CounterEntries(s.network, true);
    entries := asTheyAre + rates;
  }

  /** `getStorageEntry`. */
  method StorageEntries(storage: Option<DeviceMapperStats>) returns (entries: Entries)
    ensures forall running :: Lists(entries, StorageGroup, storage, running)
  {
    if storage.None? {
      return [];
    }
    var s := storage.value;
    entries := [
      Entry(OfStorage(DataUsed), s.dataUsed as real),
      Entry(OfStorage(DataAvailable), s.dataAvailable as real),
      Entry(OfStorage(DataTotal), s.dataTotal as real),
      Entry(OfStorage(DataUsagePercent), s.dataUsagePercent),
      Entry(OfStorage(MetadataUsed), s.metadataUsed as real),
      Entry(OfStorage(MetadataAvailable), s.metadataAvailable as real),
      Entry(OfStorage(MetadataTotal), s.metadataTotal as real),
      Entry(OfStorage(MetadataUsagePercent), s.metadataUsagePercent) ];
  }

  /** The entries of a group under their names in the metric set. */
  function InGroup<K(!new)>(entries: seq<Entry<K, real>>, name: K -> Metric): (named: Entries)
    ensures forall m, v :: Entry(m, v) in named <==> exists k :: Entry(k, v) in entries && name(k) == m
  {
    var named := seq(|entries|, i requires 0 <= i < |entries| => Entry(name(entries[i].name), entries[i].value));
    assert forall i :: 0 <= i < |entries| ==>
      && named[i] == Entry(name(entries[i].name), entries[i].value)
      && Entry(entries[i].name, entries[i].value) == entries[i];
    named
  }

  method MemoryGroupEntries(s: Sample) returns (entries: Entries)
    ensures Lists(entries, MemoryGroup, None, Some(s))
  {
    var metrics := MemoryLimits.MemoryEntries(s.memory);
    entries := InGroup(metrics, k => OfMemory(k));
  }

  method BlkioGroupEntries(s: Sample) returns (entries: Entries)
    ensures Lists(entries, BlkioGroup, None, Some(s))
  {
    var metrics := BlkioTotals.BlkioEntries(s.blkIO);
    entries := InGroup(metrics, k => OfBlkio(k));
  }

  // ----- Populating a metric set

  function AsNumber(v: Option<real>): Option<Datum> {
    if v.Some? then Some(Number(v.value)) else None
  }

  function AsText(v: Option<string>): Option<Datum> {
    if v.Some? then Some(Text(v.value)) else None
  }

  ghost predicate IsMetricName(name: string) {
    exists m: Metric :: MetricName(m) == name
  }

  /** A metric set with these attributes and, of the first `k` groups, every metric that has a value, under its own
      name; it holds nothing else, and no metric in place of an attribute or another metric. */
  ghost predicate Populated(set0: map<string, Datum>, attributes: AttributeMap, storage: Option<DeviceMapperStats>,
                            running: Option<Sample>, k: nat)
  {
    && (forall m: Metric :: ValueAt(set0, MetricName(m))
                            == AsNumber(if Rank(GroupOf(m)) < k then Value(storage, running, m) else None))
    && (forall name :: !IsMetricName(name) ==> ValueAt(set0, name) == AsText(ValueAt(attributes, name)))
  }

  /** All that a metric set holds, for a running container or any other one. */
  ghost predicate Complete(set0: map<string, Datum>, attributes: AttributeMap, storage: Option<DeviceMapperStats>,
                           running: Option<Sample>)
  {
    && (forall m: Metric :: ValueAt(set0, MetricName(m)) == AsNumber(Value(storage, running, m)))
    && (forall name :: !IsMetricName(name) ==> ValueAt(set0, name) == AsText(ValueAt(attributes, name)))
  }

  /** The entries as `SetMetric` takes them. */
  function NumberEntries(entries: Entries): (data: seq<Entry<string, Datum>>)
    ensures |data| == |entries|
    ensures forall i :: 0 <= i < |entries| ==> data[i] == Entry(MetricName(entries[i].name), Number(entries[i].value))
  {
    seq(|entries|, i requires 0 <= i < |entries| => Entry(MetricName(entries[i].name), Number(entries[i].value)))
  }

  /** The entry of a metric is set under its name, and no entry of another metric is. */
  lemma NumberEntryOf(entries: Entries, m: Metric, e: Entry<string, Datum>)
    requires e.name == MetricName(m)
    ensures e in NumberEntries(entries) <==> e.value.Number? && Entry(m, e.value.number) in entries
  {
    if e in NumberEntries(entries) {
      var i :| 0 <= i < |entries| && NumberEntries(entries)[i] == e;
      NamesDiffer(entries[i].name, m);
      assert entries[i] == Entry(m, e.value.number);
    }
    if e.value.Number? && Entry(m, e.value.number) in entries {
      var i :| 0 <= i < |entries| && entries[i] == Entry(m, e.value.number);
      assert NumberEntries(entries)[i] == e;
    }
  }

  lemma ListsAt(entries: Entries, g: Group, storage: Option<DeviceMapperStats>, running: Option<Sample>,
                m: Metric, v: real)
    requires Lists(entries, g, storage, running)
    ensures Entry(m, v) in entries <==> GroupOf(m) == g && Value(storage, running, m) == Some(v)
  {
  }

  /** Setting the entries of a group gives its metrics their values and leaves the others alone. */
  lemma SetMetricOf(set0: map<string, Datum>, entries: Entries, g: Group, storage: Option<DeviceMapperStats>,
                    running: Option<Sample>, m: Metric)
    requires Lists(entries, g, storage, running)
    ensures ValueAt(SetAll(set0, NumberEntries(entries)), MetricName(m))
      == if GroupOf(m) == g && Value(storage, running, m).Some? then AsNumber(Value(storage, running, m))
         else ValueAt(set0, MetricName(m))
  {
    var name, v := MetricName(m), if GroupOf(m) == g then Value(storage, running, m) else None;
    forall e <- NumberEntries(entries) | e.name == name
      ensures AsNumber(v) == Some(e.value)
    {
      NumberEntryOf(entries, m, e);
      ListsAt(entries, g, storage, running, m, e.value.number);
    }
    if v.Some? {
      NumberEntryOf(entries, m, Entry(name, Number(v.value)));
      ListsAt(entries, g, storage, running, m, v.value);
    }
    SetConsistent(set0, NumberEntries(entries), name, AsNumber(v));
  }

  lemma AttributeStays(set0: map<string, Datum>, entries: Entries, name: string)
    requires !IsMetricName(name)
    ensures ValueAt(SetAll(set0, NumberEntries(entries)), name) == ValueAt(set0, name)
  {
    SetConsistent(set0, NumberEntries(entries), name, None);
  }

  lemma RankIsInjective(g: Group)
    ensures forall h: Group :: Rank(h) == Rank(g) ==> h == g
  {
  }

  /** Setting the entries of one more group. */
  lemma SetGroup(set0: map<string, Datum>, attributes: AttributeMap, entries: Entries, g: Group,
                 storage: Option<DeviceMapperStats>, running: Option<Sample>)
    requires Lists(entries, g, storage, running) && Populated(set0, attributes, storage, running, Rank(g))
    ensures Populated(SetAll(set0, NumberEntries(entries)), attributes, storage, running, Rank(g) + 1)
  {
    forall m: Metric
      ensures ValueAt(SetAll(set0, NumberEntries(entries)), MetricName(m))
        == if GroupOf(m) == g && Value(storage, running, m).Some? then AsNumber(Value(storage, running, m))
           else ValueAt(set0, MetricName(m))
    {
      SetMetricOf(set0, entries, g, storage, running, m);
    }
    forall name | !IsMetricName(name)
      ensures ValueAt(SetAll(set0, NumberEntries(entries)), name) == ValueAt(set0, name)
    {
      AttributeStays(set0, entries, name);
    }
    RankIsInjective(g);
  }

  /** Populates one more group of a running container. */
  method PopulateGroup(ms: MetricSet, entries: Entries, ghost g: Group, ghost attributes: AttributeMap,
                       ghost storage: Option<DeviceMapperStats>, ghost s: Sample)
    requires g != StorageGroup && Lists(entries, g, None, Some(s))
    requires Populated(ms.metrics, attributes, storage, Some(s), Rank(g))
    modifies ms
    ensures Populated(ms.metrics, attributes, storage, Some(s), Rank(g) + 1)
  {
    assert Lists(entries, g, storage, Some(s)) by {
      forall m, v
        ensures Entry(m, v) in entries <==> GroupOf(m) == g && Value(storage, Some(s), m) == Some(v)
      {
        ListsAt(entries, g, None, Some(s), m, v);
      }
    }
    SetGroup(ms.metrics, attributes, entries, g, storage, Some(s));
    Populate(ms, NumberEntries(entries));
  }

  /** The running-only part of the sampling loop. */
  method PopulateRunning(ms: MetricSet, s: Sample, ghost attributes: AttributeMap,
                         ghost storage: Option<DeviceMapperStats>)
    requires Populated(ms.metrics, attributes, storage, Some(s), Rank(MiscGroup))
    modifies ms
    ensures Populated(ms.metrics, attributes, storage, Some(s), GROUPS)
  {
    PopulateGroup(ms, MiscEntries(s), MiscGroup, attributes, storage, s);
    var cpu := CpuEntries(s);
    PopulateGroup(ms, cpu, CpuGroup, attributes, storage, s);
    var memory := MemoryGroupEntries(s);
    PopulateGroup(ms, memory, MemoryGroup, attributes, storage, s);
    PopulateGroup(ms, PidsEntries(s), PidsGroup, attributes, storage, s);
    var blkio := BlkioGroupEntries(s);
    PopulateGroup(ms, blkio, BlkioGroup, attributes, storage, s);
    var network := NetworkEntries(s);
    PopulateGroup(ms, network, NetworkGroup, attributes, storage, s);
  }

  /** No attribute bears the name of a metric. */
  ghost predicate NoMetricNames(attributes: AttributeMap) {
    forall m: Metric :: MetricName(m) !in attributes
  }

  lemma OnlyAttributes(attributes: AttributeMap, storage: Option<DeviceMapperStats>, running: Option<Sample>)
    requires NoMetricNames(attributes)
    ensures Populated(Texts(attributes), attributes, storage, running, 0)
  {
  }

  lemma AllGroups(set0: map<string, Datum>, attributes: AttributeMap, storage: Option<DeviceMapperStats>,
                  running: Option<Sample>)
    requires Populated(set0, attributes, storage, running, if running.Some? then GROUPS else 1)
    ensures Complete(set0, attributes, storage, running)
  {
    forall m: Metric
      ensures ValueAt(set0, MetricName(m)) == AsNumber(Value(storage, running, m))
    {
      assert Rank(GroupOf(m)) < GROUPS;
      RankIsInjective(GroupOf(m));
    }
  }

  /** The numbers of a metric set: those of storage for every container, the rest for running ones. */
  method PopulateNumbers(ms: MetricSet, storage: Option<DeviceMapperStats>, running: Option<Sample>,
                         ghost attributes: AttributeMap)
    requires ms.metrics == Texts(attributes) && NoMetricNames(attributes)
    modifies ms
    ensures Complete(ms.metrics, attributes, storage, running)
  {
    OnlyAttributes(attributes, storage, running);
    var entries := StorageEntries(storage);
    SetGroup(ms.metrics, attributes, entries, StorageGroup, storage, running);
    Populate(ms, NumberEntries(entries));
    if running.Some? {
      PopulateRunning(ms, running.value, attributes, storage);
    }
    AllGroups(ms.metrics, attributes, storage, running);
  }

  // ----- No attribute in place of a metric

  lemma OwnNameIsNoMetric(c: Summary, m: Metric)
    ensures !OwnName(c, MetricName(m))
  {
    NameStart(m);
    var name := MetricName(m);
    assert name !in Identified(c);
    forall i | 0 <= i < 6
      ensures AllEntries(c)[i].name != name
    {
    }
  }

  lemma LabelNameIsNoMetric(labels: FargateLabels.Labels, m: Metric)
    ensures !ShowsALabel(labels, MetricName(m))
  {
    NameStart(m);
    NoSource(MetricName(m));
    forall k <- labels
      ensures !ShownUnder(MetricName(m), k)
    {
      SourceOfLabel(k);
    }
  }

  /** Whatever a container's labels are called. */
  lemma ShownHasNoMetricNames(c: Summary)
    ensures NoMetricNames(Shown(c))
  {
    forall m: Metric
      ensures MetricName(m) !in Shown(c)
    {
      OwnNameIsNoMetric(c, m);
      LabelNameIsNoMetric(c.labels, m);
      if MetricName(m) in Shown(c) {
        NothingElseIsShown(c, MetricName(m));
        assert false;
      }
    }
  }
}
