# Verification model of nri-docker

nri-docker samples the containers of a host, of a Docker daemon or of a Fargate task, and turns their kernel,
Docker API and ECS counters into metrics. This project models the parts of it that compute, in Dafny 4.11, and proves
what they promise. `dafny verify dfyconfig.toml` checks everything.

- **Sampling over time** (`Cpu`, `CgroupV2Cpu`, `CpuPercentages`, `MetricsFetcher`, `Runs`, `MetricSets`,
  `MetricNames`, `Attributes`, `Emission`, `MetricTable`, `ContainerSampler`, `FargateSampling`). The store of last
  CPU readings is a field of a class that `Process` updates; times are integer nanoseconds, `float64` is `real`, and
  every `uint64` or `int64` wrap-around and the saturation of `time.Time.Sub` are written out. The theorems speak
  about whole runs: any interleaving of calls for any containers, with inspect errors, exited containers, fetch errors
  and store misses in it.
- **Text parsers** (`Text`, `Decimal`, `Cpuset`, `Networks`, `Blkio`, `SystemCpu`, `MemoryLimits`, `Arn`). Each loop is a
  method proved against a function of the text; each function is tied to a printer or to a characterisation of the
  accepted texts.
- **cgroup detection** (`FilePath`, `CgroupDetect`, `CgroupPaths`, `CgroupRecords`). Go's `filepath.Clean`, `Dir`,
  `Base` and `Join` are modelled on path segments and proved to keep where a path leads; the map-filling loops have
  first-wins and last-wins specifications, and from printed mounts and process records to the paths the theorems go
  all the way.
- **Fargate listing** (`FargateLabels`, `FargateInspector`, `FargateRuns`). Label maps are objects that the range loop
  rewrites in place. The loop takes its keys in any order and may or may not meet the keys it inserts; the cache may
  hand out the stored maps or copies of them.

## What the code does that its text does not say

- The cap of user and kernel percent is the `int64` product of the CPU count and 100. The percentages stay between 0 and
  100 per CPU if and only if that product does not turn negative (`CpuPercentages.ModePercentBounds`). The product is
  the cap that is meant if and only if the count is at most MaxInt64/100 (`CpuPercentages.CapIsIntended`); with 2^62 CPUs
  it is 0 (`CpuPercentages.CapGoesWrong`).
- A store entry that expired between two readings takes the usage between them with it, and so does a duration guard that
  fires: the next sample reports 0 used cores. For counters that never decrease, CPU time is conserved if and only if
  neither happens to a step that gained usage (`Runs.CpuTimeIsConserved`). After a step at which time has passed, the
  rate is close if and only if nothing was gained, or the entry was found and the gap is at most MaxInt64 nanoseconds
  (`Runs.EveryRateIsClose`; `Runs.ExpiredEntryLosesUsage` is a reading for which it is not).
- The CPU count is converted to `int`. From 2^63 on it turns negative, and CPU percent with it
  (`CpuPercentages.ReportedCountBounds`, `CpuPercentages.NegativeCpuPercent`).
- The v2 fetcher's microseconds wrap around when they are converted to nanoseconds. The differences of counters that never
  decrease do not suffer from it unless a single step gains 2^64 nanoseconds or more (`CgroupV2Cpu.DeltaOfConverted`).
- `time.Time.Sub` saturates, so the duration between two readings is the one promised exactly for gaps up to
  2^63 - 1 nanoseconds (`Cpu.TruncationBound`).
- The unsigned swap limit is neutralised for everything Docker reports, but not for all `int64` pairs: it fails exactly
  when memory exceeds the swap setting by 2^64 - MaxInt64/2 or more (`MemoryLimits.SwapLimitNeutralised`,
  `MemoryLimits.SwapLimitMadeUp`).
- Host CPU time loses its meaning at 18446744074 clock ticks, when the product with 10^9 wraps around
  (`SystemCpu.NanosecondsMonotone`).
- A cpuset list with overlapping intervals is counted with the overlap (`Cpuset.CountBoundsCardinality`).
- Any interface whose name starts with "lo" is skipped as a loopback, and one counter above MaxInt64 makes the whole line
  of an interface disappear from all eight sums (`NetDev.RoundTrip`).
- For cgroup v1 a comment says that only mounts of type 'cgroup' are considered; the code accepts every type that starts
  with it, "cgroup2" included (src/raw/cgroup_detect.go:43-44). The model follows the code.
- `ThrottledTimeMS` holds seconds (src/biz/metrics_all.go:151); the model calls the field `throttledTime`.
- A negative number with digits beyond 64 bits reads as 0 from a stat file even when other characters follow
  (`StatFile.NegativeReadsAsZero`).

## Model

| member | source | states |
|---|---|---|
| MetricsFetcher.Fetcher.ComputeCPU | src/biz/metrics_all.go:105-158 | whichever way the call returns, the store holds the current reading under the container's ID and nothing else changed; the sample is the one determined by the entry the store still had |
| MetricsFetcher.Fetcher.Process | src/biz/metrics.go:120-163 | a failing call (inspect error, empty inspection, unparsable finish time, expired, exited, fetch error) returns the zero sample and leaves the store as it was; a successful one returns all six parts of the sample and stores the reading |
| MetricsFetcher.FetchedMeans | src/biz/metrics.go:120-160 | which of the six errors a call gives, each by what it met, and that an exited container, in whatever case its status is written, is never fetched |
| MetricsFetcher.SampleParts | src/biz/metrics.go:149-163 | pids, network and restart count are those of the fetch and the inspection; the core limit times 10^9 is the quota, or the limit is the host's CPU number |
| MetricsFetcher.FirstSample | src/biz/metrics_all.go:112-124 | without a found entry every CPU metric but the limit is 0 |
| MetricsFetcher.NoSampleMeans | src/biz/metrics.go:121 | the sample of a failing call is all zero |
| Cpu.PanicsMeans | src/biz/metrics_all.go:132-145 | the calls that are excluded: those that compare two readings one of whose four mode counters is unset |
| Cpu.CPUCountMeans | src/raw/metrics.go:97-112 | the reported count, or the number of CPUs whose entry is above 0 |
| Cpu.SampleCarries | src/biz/metrics_all.go:112-158 | limit, throttled periods, throttled time and shares of a sample are the current ones; without a usable previous reading everything but the limit is 0 |
| Cpu.OnlineCPUsWithFallback | src/raw/metrics.go:96-112 | the reported CPU count, or the number of per-CPU entries above zero, as an `int` |
| Cpu.GuardFires | src/biz/metrics_all.go:132-135 | the duration guard fires exactly when the clock has not passed the stored whole second, so never after a later reading |
| Cpu.TruncationBound | src/biz/metrics_all.go:109-132 | the duration used lies between the true gap and less than a second more, for every gap up to MaxInt64 nanoseconds and for no larger one |
| Cpu.RateError | src/biz/metrics_all.go:148 | a rate over a duration that is less than a second too long is never too high, and too low by a relative error below one second in the gap plus a second |
| CpuPercentages.SampleMeans | src/biz/metrics_all.go:148-153 | used cores times duration is the wrapped usage delta; their percentage times the core limit is a hundred times them |
| CpuPercentages.ModePercentMeans | src/biz/metrics_all.go:142-146 | a mode percentage exceeds neither the cap nor, times the duration, a hundred times the delta, and reaches one of the two |
| CpuPercentages.SampleModesMean | src/biz/metrics_all.go:142-146 | the same for every sample: user percent from the user counter, kernel percent from the kernel counter |
| CpuPercentages.CpuPercentMeans | src/biz/metrics_all.go:160-174 | CPU percent times the wrapped system delta is the wrapped container delta times the CPUs times a hundred; it is 0 if the system's time stands still |
| CpuPercentages.ModePercentBounds | src/biz/metrics_all.go:138-146 | for every delta, resets included, a mode percentage lies between 0 and 100 per CPU if and only if the `int64` cap did not turn negative |
| CpuPercentages.SampleModeBounds | src/biz/metrics_all.go:138-146 | the same for both percentages of every sample with a usable previous reading, whatever the counters |
| CpuPercentages.CapIsIntended | src/biz/metrics_all.go:138 | the `int64` product is 100 times the CPU count if and only if the count is at most MaxInt64/100 |
| CpuPercentages.CapGoesWrong | src/biz/metrics_all.go:138 | the next count makes the cap negative; with 2^62 CPUs a mode percentage is 0 although its counter moved |
| CpuPercentages.CpuPercentBounds | src/biz/metrics_all.go:160-174 | for all counters and CPU counts, CPU percent lies between 0 and 100 per CPU if and only if a delta is 0, or the `int` the count is converted to is not negative and the container's delta times it does not exceed the system's delta times the count |
| CpuPercentages.ReportedCountBounds | src/raw/metrics.go:97-112 | for every `uint64` count: if and only if a delta or the count is 0, or the container's delta does not exceed the system's and the count does not exceed MaxInt64 |
| CpuPercentages.NegativeCpuPercent | src/biz/metrics_all.go:160-174 | with 2^63 + 1 CPUs, a container that got all the system's time has a negative CPU percent |
| CpuPercentages.CpuPercentEndToEnd | src/biz/metrics_all.go:160-174 | with tick sums in range, monotone counters and no more container time than system time, CPU percent lies between 0 and 100 per CPU, if and only if the container gained no time or the count does not turn negative as an `int` |
| CpuPercentages.SampleShareMeans | src/biz/metrics_all.go:140 | the CPU percent of every sample with a usable previous reading, times the system delta from that reading to the current one, is the container's delta times the CPUs times a hundred; it is 0 if the system's time stands still |
| CpuPercentages.SampleShareBounds | src/biz/metrics_all.go:140 | the end-to-end bound for the CPU percent that a sample shows |
| Runs.NonInterference | src/biz/metrics_all.go:105-158 | in any interleaving of calls for any containers, failing or not, a container's CPU samples are those of replaying its own successful fetches on a private entry, and the store ends with its last reading |
| Runs.OtherCallsAreIrrelevant | src/biz/metrics.go:120-163 | two runs that agree on a container's fetches and its store entry agree on its samples and on the entry they leave |
| Runs.SafetyIsPerContainer | src/biz/metrics_all.go:142-145 | a run meets no unset counter if and only if no container's own replay does |
| Runs.SampleIsReplayed | src/biz/metrics.go:157 | the CPU sample of any one successful call after any run is the last sample of replaying that container alone |
| Runs.GuardNeverFires | src/biz/metrics_all.go:132-135 | over readings with strictly increasing times the duration stays positive at every step, so that a step is lost if and only if its store entry had expired |
| Runs.DeltasTelescope | src/biz/metrics_all.go:148 | the wrapped usage deltas of a run add up to last minus first, exactly for nondecreasing counters and modulo 2^64 always |
| Runs.CpuTimeIsConserved | src/biz/metrics_all.go:105-158 | over any run, whatever its times and store misses, used cores times duration add up to the usage gained (modulo 2^64) less the usage of the lost steps, where the entry had expired or the guard fired; for nondecreasing counters they add up to last minus first if and only if no step that gained usage was lost |
| Runs.UsedCoresAt | src/biz/metrics_all.go:121-148 | a lost step reports 0 used cores, every other one its usage over its positive duration |
| Runs.InterleavedRunsConserve | src/biz/metrics.go:120-163 | the same for one container inside any interleaved run |
| Runs.EveryRateIsClose | src/biz/metrics_all.go:109-148 | at every step of every run at which time has passed, the used cores do not exceed the true rate and miss it by less than one second in the gap plus a second, relatively, if and only if nothing was gained, or the store still had the entry and the gap is at most MaxInt64 nanoseconds |
| Runs.ExpiredEntryLosesUsage | src/biz/metrics_all.go:121-124 | one second and one nanosecond of usage after a reading whose entry expired: nothing is accounted for, and the rate is not close |
| CgroupV2Cpu.CpuOf | src/raw/cgroupv2.go:102-126 | the reading made of the kernel's counters; an empty one, with unset modes, exactly without counters or with a usage of 0, and one without host time when only that fails |
| CgroupV2Cpu.DeltaOfConverted | src/raw/util.go:87-89 | the wrapped difference of two converted counters that did not decrease is a thousand times the microseconds gained if and only if that fits `uint64`, and less otherwise |
| CgroupV2Cpu.KernelTimeIsConserved | src/raw/cgroupv2.go:107-115 | over any run made of kernel counters that never decrease, used cores times duration add up to the CPU time the kernel counted if and only if no step that gained usage was lost and no step gained 2^64 nanoseconds or more |
| ContainerSampler.SampleAll | src/nri/sampler.go:89-147 | the emitted metric sets realise the reports of the round, container by container, with the same store and the same early end at a failing entity |
| ContainerSampler.SampleOne | src/nri/sampler.go:90-145 | one container: nothing for an expired one, else its metric set, one map from names to texts and numbers: its attributes, the storage metrics and, only if its state or status says running, exactly the metrics its sample has a value for (those of the zero sample when fetching failed), each under its own name |
| ContainerSampler.RunningMeans | src/nri/sampler.go:132-137 | a summary counts as running if and only if its state or status spells "running", or its status starts with "up", in whatever case |
| ContainerSampler.RunningMetrics | src/nri/sampler.go:132-145 | such a container, and no other one, gets the running-only metrics: all that its sample has a value for |
| FargateSampling.RunningByKnownStatus | src/raw/aws/fargate_inspector.go:115-122 | a listed container of a Fargate task runs if and only if its known status spells "running" or starts with "up" |
| FargateSampling.MetricsByKnownStatus | src/nri/sampler.go:132-145 | its metric set has the running-only metrics exactly then |
| FargateSampling.DescribedByResponse | src/raw/aws/fargate_inspector.go:115-122 | it is reported with the ID, image, image ID and known status of the task response, and without state and command |
| ContainerSampler.RoundEmits | src/nri/sampler.go:89-147 | a round succeeds exactly if every entity it needs can be created; it then emits for the whole list, and else a prefix of that |
| ContainerSampler.EmittedContainers | src/nri/sampler.go:89-147 | whatever the store holds, exactly the non-expired containers are emitted, in list order, each with its own attributes, with running-only groups exactly for the running ones |
| ContainerSampler.ReportedCpuIsPrivate | src/nri/sampler.go:89-147 | some metric set emitted shows all attributes of a running container and, as its nine CPU metrics, those of replaying its own fetches, whatever earlier rounds and other containers there were |
| ContainerSampler.EmittedFromFetch | src/nri/sampler.go:89-147 | among the metric sets of a round is one for each running container made of its own inspection and fetch: pids, network, restarts, memory and block I/O |
| ContainerSampler.PlainNumbersInMetricSet | src/nri/sampler.go:139-145 | threads, restarts and the eight network counters of the fetch are in it, the counters twice |
| ContainerSampler.SoftLimitInMetricSet | src/raw/cgroupv1.go:95-97 | from the text of the v1 file to the metric set: the soft limit is in it if and only if the trimmed text is a decimal from 1 to MaxInt64/2, with its value |
| ContainerSampler.SwapLimitInMetricSet | src/raw/dockerapi/fetcher.go:52 | from Docker's settings to the metric set: the swap limit is in it exactly when the difference is positive and plausible |
| ContainerSampler.BlkioInMetricSet | src/biz/metrics_all.go:177-216 | from the devices to the metric set, through the text of the v1 files and through v2: every block I/O metric has the exact sum |
| ContainerSampler.DroppedMeans | src/biz/metrics.go:136-147 | a container is dropped if and only if it is found exited, a TTL other than 0 is set and its age exceeds it |
| ContainerSampler.ExpiryIsPermanent | src/biz/metrics.go:136-180 | once a container is dropped in a round, no later round that still finds it exited with the same finish time, at a clock that did not go back, emits a metric set under its ID, whatever happens to other containers, to the store and in between |
| ContainerSampler.DroppedIsNotEmitted | src/nri/sampler.go:93-96 | a round emits no metric set under an ID all of whose containers are dropped, even if it ends early |
| MetricSets.Populate | src/nri/sampler.go:150-156 | sets the entries one after the other over what the set holds |
| MetricSets.SetConsistent | src/nri/sampler.go:150-156 | entries that agree on the value of a name give it that value and leave a name they do not mention alone |
| Emission.CpuEntries | src/nri/sampler_all.go:41-53 | exactly the nine CPU metrics, each with its field |
| Emission.NetworkEntries | src/nri/sampler.go:231-250 | exactly the eight network counters, each as it is and as a rate |
| Emission.StorageEntries | src/nri/sampler.go:258-272 | the eight storage metrics, or none without statistics |
| Emission.PopulateRunning | src/nri/sampler.go:139-145 | after populating group by group the set holds each metric with a value under its name, no other metric, and the attributes untouched |
| Emission.PopulateNumbers | src/nri/sampler.go:124-145 | a set of attributes, none under a metric's name, becomes complete: the attributes, storage for every container, and for a running one each metric its sample has a value for, and nothing else |
| MetricTable.CpuByName | src/nri/sampler_all.go:41-53 | the nine CPU metrics of a set, each by its name and field |
| MetricTable.MemoryByName | src/nri/sampler_all.go:10-39 | the eleven memory metrics, each by its name, field and condition |
| MetricTable.BlkioByName | src/nri/sampler_all.go:55-83 | the nine block I/O metrics, with the total of bytes counting a missing direction as 0 |
| MetricTable.NetworkByName | src/nri/sampler.go:231-250 | the eight network metrics, each by its name and field |
| MetricTable.NetworkRates | src/nri/sampler.go:241-248 | each of them also under its name and "PerSecond" |
| MetricTable.MiscByName | src/nri/sampler.go:252-256 | restart count, threads and thread limit by name |
| MetricTable.StorageByName | src/nri/sampler.go:258-272 | the eight storage metrics by name |
| MetricTable.OnlyStorage | src/nri/sampler.go:124-137 | a container that is not running shows no other number |
| Emission.ShownHasNoMetricNames | src/nri/sampler.go:109-123 | whatever its labels are called, no attribute of a container bears the name of a metric |
| MetricNames.NamesDiffer | src/nri/metrics.go:9-76 | no two of the modelled metrics have the same name |
| Attributes.AttributesOf | src/nri/sampler.go:158-184 | the six entries of a container without the empty ones, the name without its leading slash |
| Attributes.LabelsOf | src/nri/sampler.go:210-229 | in whatever order the loop takes the labels, setting its entries over any set gives the same set, with every label shown |
| Attributes.PopulateCommon | src/nri/sampler.go:109-123 | a new metric set with the IDs, the container's entries and its labels |
| Attributes.RenamingIsInvertible | src/nri/sampler.go:197-208 | no two labels get the same new name |
| Attributes.OwnAttributesAreShown | src/nri/sampler.go:116-123 | no label overwrites an ID or an own attribute of the container; an empty own attribute is not shown |
| Attributes.LabelsAreShown | src/nri/sampler.go:210-229 | every label, even an empty one, is shown with its value under its prefixed name and, if it has one, its new name |
| Attributes.NothingElseIsShown | src/nri/sampler.go:116-123 | every name shown is an ID, an own attribute or a name of some label |
| Attributes.FargateAttributes | src/nri/sampler.go:197-229 | a Fargate container labelled with the ARNs of its cluster and task is reported with cluster name, cluster ARN, task ARN, region and launch type |
| Attributes.OwnAttributesByName | src/nri/sampler.go:116-175 | each own attribute by its name: the IDs always, the others where they are not empty |
| Attributes.NameByName | src/nri/sampler.go:159-165 | the name is the first of the names without a leading slash |
| Attributes.LabelsByName | src/nri/sampler.go:197-229 | the eight renamed labels by their old and new names, and every label behind "label." |
| Cpuset.CountCpusetCPUs | src/raw/cgroup.go:45-77 | on every text: rejected exactly when some element is not a number or two ascending numbers; otherwise the sum of the interval widths modulo 2^64 |
| Cpuset.CountInterval | src/raw/cgroup.go:51-74 | one element adds its width, also where the `int` difference overflows |
| Cpuset.IntervalMeans | src/raw/cgroup.go:51-74 | an element is accepted if and only if it is one number, or two in strictly ascending order joined by "-" |
| Cpuset.ListMeans | src/raw/cgroup.go:45-77 | a list is accepted if and only if it is not empty and every element is, and denotes them in order |
| Cpuset.WidthsBoundCardinality | src/raw/cgroup.go:45-77 | the summed widths are at least the number of CPUs denoted, and equal to it if and only if the intervals are pairwise disjoint |
| Cpuset.CountBoundsCardinality | src/raw/cgroup.go:45-77 | the same for the count of every accepted text whose sum fits `uint64` |
| Cpuset.CountOfPrintedSet | src/raw/cgroup.go:42-77 | printing any non-empty set of CPU numbers in the list format gives an accepted text that denotes the set, and counting it gives the size of the set |
| Cpuset.CountOfPrintedIntervals | src/raw/cgroup.go:45-77 | any printed intervals, overlapping or not, are counted by their widths |
| Cpuset.CountBeyondInt64 | src/raw/cgroup.go:45-77 | a text for the intervals 0-9223372036854775807 and 0 is counted to 2^63 + 1 |
| FilePath.CleanIdempotent | src/raw/cgroupv2_detect.go:70 | cleaning a cleaned path changes nothing |
| FilePath.CleanKeepsDestination | src/raw/cgroupv2_detect.go:70 | cleaning a path does not change where following its elements leads |
| FilePath.DirOfRendered | src/raw/cgroupv2_detect.go:74-75 | directory and base of a cleaned path are the cleaned path of its other segments and its last segment |
| FilePath.CleanIsCanonical | src/raw/cgroupv2_detect.go:70 | two paths are cleaned to the same one if and only if they lead to the same place from the same start |
| FilePath.DetoursVanish | src/raw/cgroupv2_detect.go:70 | going into a directory and back out vanishes |
| FilePath.NameStays | src/raw/cgroupv2_detect.go:70 | an ordinary name behind a cleaned path stays behind it |
| FilePath.DirAndBase | src/raw/cgroup_detect.go:48-50 | directory and base of a directory and a name joined by a slash |
| FilePath.JoinMeans | src/raw/cgroupv1_detect.go:94 | joining leaves out leading empty elements and cleans the others joined by slashes |
| CgroupPaths.SplitAndRejoin | src/raw/cgroupv2_detect.go:73-90 | splitting into mount point and group and joining again gives the same path if and only if the path is a cleaned one |
| CgroupPaths.CgroupV2FullPath | src/raw/cgroupv2_detect.go:51-71 | the full path, or the error, named by the first qualifying mount line and the first "0::" line |
| CgroupPaths.PathsV2 | src/raw/cgroupv2_detect.go:37-47 | succeeds exactly when the full path is named; the group is "/" and its last segment, the mount point the cleaned path in front, and the getter returns that very path |
| CgroupPaths.SplitIsCut | src/raw/cgroupv2_detect.go:73-78 | splitting a cleaned path cuts off its last segment |
| CgroupRecords.MountReads | src/raw/cgroup_detect.go:44-54 | a mount printed with any padding qualifies if and only if its type starts with the name and its mount point with the host root, and its mount point is read back |
| CgroupRecords.HierarchyReads | src/raw/cgroup_detect.go:48-50 | a printed hierarchy mounts exactly its subsystems, in its directory |
| CgroupRecords.HierarchyLineReads | src/raw/cgroup_detect.go:87-102 | a printed process record places exactly its controllers, with its path, and is unified if and only if its ID is 0 and it has no controllers |
| CgroupRecords.ColonInPath | src/raw/cgroup_detect.go:89-91 | a colon in the path makes the line malformed |
| CgroupRecords.V1FromRecords | src/raw/cgroupv1_detect.go:32-96 | from printed files: a subsystem's mount point and path are those of its first mount and its last record, and its full path leads where directory, name and path lead |
| CgroupRecords.NoRecordMounts | src/raw/cgroup_detect.go:44-52 | a subsystem has no mount point if and only if no record mounts it |
| CgroupRecords.V2FromRecords | src/raw/cgroupv2_detect.go:51-71 | from printed files: the full path is cleaned and leads where the mount point of the first unified mount and then the path of the first unified record lead |
| CgroupRecords.V2Failures | src/raw/cgroupv2_detect.go:51-71 | without a unified mount, or else without a unified record, detection fails with that error |
| CgroupPaths.PathsV1 | src/raw/cgroupv1_detect.go:32-49 | fails exactly when a file cannot be opened or some cgroup line has not three fields, with that error; otherwise every subsystem maps to the first mount directory and the last cgroup path found, and no other key appears |
| CgroupPaths.V1FullPath | src/raw/cgroupv1_detect.go:84-96 | the full path exists exactly when both maps know the subsystem, and leads where mount point, name and path lead |
| CgroupDetect.GetMountsFile | src/raw/cgroup_detect.go:22-62 | v1: entries present stay, the others are the first qualifying mounts; v2: the first qualifying mount point under "/" |
| CgroupDetect.AddSubsystems | src/raw/cgroup_detect.go:48-52 | the subsystems of one mount line are added unless already present |
| CgroupDetect.GetCgroupFilePaths | src/raw/cgroup_detect.go:64-107 | v1: fails exactly on a malformed line, having read the lines before it; v2: stops at the first "0::" or malformed line |
| CgroupDetect.SetSubsystems | src/raw/cgroup_detect.go:95-97 | the subsystems of one cgroup line get its path, replacing earlier ones |
| CgroupDetect.FirstMountIsFirst | src/raw/cgroup_detect.go:44-52 | a subsystem is mapped if and only if some line mounts it, to the directory of the first such line |
| CgroupDetect.PathsAfterLookup | src/raw/cgroup_detect.go:95-97 | reading lines replaces exactly the entries of the subsystems they list |
| CgroupDetect.LastPathIsLast | src/raw/cgroup_detect.go:89-97 | a subsystem is mapped if and only if some line lists it, to the path of the last such line |
| CgroupDetect.WellFormedIffNoMalformedLine | src/raw/cgroup_detect.go:89-91 | all lines are read if and only if none is malformed |
| CgroupDetect.MalformedMeans | src/raw/cgroup_detect.go:87-91 | a line is malformed if and only if it has not exactly two colons |
| CgroupDetect.LaterLinesAreIrrelevant | src/raw/cgroup_detect.go:54-57 | v2: once a line decided, any continuation of the file gives the same |
| CgroupDetect.UnifiedScanDecides | src/raw/cgroup_detect.go:99-102 | v2: which line decides, and what it decides |
| CgroupDetect.NoLineDecides | src/raw/cgroup_detect.go:54-57 | v2: no mount is found if and only if no line qualifies, and no path, without an error, if and only if no line is malformed or starts with "0::" |
| Arn.AcceptedARNs | src/raw/aws/arn.go:62-69 | accepted are exactly the texts that start with "arn:" and contain at least five colons |
| Arn.FormatParsed | src/raw/aws/arn.go:62-77 | joining the parsed fields gives the text back |
| Arn.ParseFormatted | src/raw/aws/arn.go:62-77 | parsing the join of four colon-free fields and any resource gives the fields back |
| Arn.FormatMeans | src/raw/aws/arn.go:70-77 | which field stands in which section |
| FargateLabels.ProcessFargateLabels | src/raw/aws/fargate_inspector.go:130-157 | whatever order the range loop takes and whichever inserted keys it meets, the map ends as the one-shot rewriting of the original |
| FargateLabels.Confluence | src/raw/aws/fargate_inspector.go:131-151 | every legal order of visits ends in the one-shot rewriting |
| FargateLabels.EnumerationsAreLegal | src/raw/aws/fargate_inspector.go:131 | every enumeration of the original keys is a legal order |
| FargateLabels.RewrittenKeys | src/raw/aws/fargate_inspector.go:130-157 | which labels exist after the rewriting |
| FargateLabels.RewrittenMeans | src/raw/aws/fargate_inspector.go:133-154 | launch type, cluster name, preserved ARN and region after the rewriting, and that all other labels keep their values |
| FargateLabels.ArnsAreRewritten | src/raw/aws/fargate_inspector.go:159-183 | a cluster ARN is replaced by its name and preserved, a task ARN yields its region, and the launch type is set |
| FargateLabels.ClusterNameMeans | src/raw/aws/fargate_inspector.go:160-172 | "cluster/<name>", whatever follows behind another slash, names a cluster; no other resource and no text that is no ARN does |
| FargateLabels.RegionMeans | src/raw/aws/fargate_inspector.go:176-183 | the region is that of the ARN; a text that is none has no region |
| FargateLabels.NameIsNoClusterARN | src/raw/aws/fargate_inspector.go:160-172 | a text without "/", such as every extracted name, is never taken for a cluster ARN |
| FargateLabels.RewritingIsIdempotent | src/raw/aws/fargate_inspector.go:130-157 | rewriting rewritten labels changes nothing |
| FargateInspector.Inspector.TaskResponseFromCacheOrNew | src/raw/aws/fargate_inspector.go:57-74 | serves the cached response on a hit, else the fetched one, and keeps what it serves, in maps it had, was handed or made; a failed fetch changes nothing |
| FargateInspector.Inspector.ContainerList | src/raw/aws/fargate_inspector.go:41-54 | the summaries list the cached containers on a hit, else the fetched ones, in order, each with its ID, name, image, image ID, known status, creation time or 0, and rewritten labels; the cache will list the same again, shared or copied, in maps it had, was handed or made; every map keeps its rewriting, and maps rewritten before keep their contents |
| FargateInspector.Inspector.ContainerInspect | src/raw/aws/fargate_inspector.go:97-113 | an ID is found if and only if the served response lists it |
| FargateRuns.Run | src/raw/aws/fargate_inspector.go:41-113 | any run of listings and inspections, hits and misses mixed: at its end every list and inspection given in it still is the one for the response served at its time, the cache lists what the run leaves, shared or copied, in maps it had, was handed or made, and maps rewritten before keep their contents |
| FargateRuns.AnswerFromCache | src/raw/aws/fargate_inspector.go:41-113 | any number of listings and inspections of one cached response in any order: all lists show the same summaries, also after the later calls, the inspections find exactly the IDs listed, and the cache is ready for the next such run |
| FargateRuns.ListingsAgree | src/raw/aws/fargate_inspector.go:41-54 | two listings of the same response show equal summaries, and every ID they show can be inspected |
| FargateRuns.ServedUntilMiss | src/raw/aws/fargate_inspector.go:57-74 | a response once served is served again until the next miss, and is what the cache lists |
| FargateRuns.AccessMeans | src/raw/aws/fargate_inspector.go:57-74 | a hit serves what the cache lists, a miss what was fetched; what is served is kept, and a failed fetch changes nothing |
| FargateRuns.InspectedMeans | src/raw/aws/fargate_inspector.go:97-113 | an inspection finds exactly the IDs of the served containers |
| FargateRuns.ListShows | src/raw/aws/fargate_inspector.go:115-128 | what each answer of a run shows of each container, field by field |
| RawBlkio.BlkioEntries | src/raw/cgroupv1.go:118-167 | the entries of all lines in order, the total line skipped, or an error if any line is invalid |
| RawBlkio.BlkioV1 | src/raw/cgroupv1.go:171-182 | both files, or what was read before the first failing one |
| RawBlkio.IoV2 | src/raw/cgroupv2.go:163-181 | a read and a write entry per device in both lists, or an error without I/O information |
| RawBlkio.V1FileReads | src/raw/cgroupv1.go:118-167 | reading a printed throttle file gives the six entries of each device |
| RawBlkio.NamelessLineReads | src/raw/cgroupv1.go:153-163 | a line without an operation yields an entry under the empty name |
| RawBlkio.EntryMeans | src/raw/cgroupv1.go:134-163 | which lines are entries, with which operation and value |
| RawBlkio.SkippedMeans | src/raw/cgroupv1.go:134-142 | which lines are skipped |
| RawBlkio.FileFails | src/raw/cgroupv1.go:118-167 | a file fails if and only if one of its lines is invalid |
| BlkioTotals.TotalBlkIO | src/biz/metrics_all.go:177-216 | the four totals of the entries by direction, each absent if no entry goes that way |
| BlkioTotals.TotalsMean | src/biz/metrics_all.go:177-216 | for any entries, the total of a direction is the sum over the operations that start with its letter in either case, and absent if and only if there is none |
| BlkioTotals.PipelinesAgree | src/biz/metrics_all.go:177-216 | on any devices the v1 text pipeline and the v2 pipeline both give the exact sums of reads and writes, and no totals exactly when there are no devices |
| BlkioTotals.DeviceOrderIsIrrelevant | src/biz/metrics_all.go:177-216 | rearranging the devices changes no total |
| BlkioTotals.BlkioEntries | src/nri/sampler_all.go:55-83 | which of the nine metrics are emitted, and with which value |
| BlkioTotals.EmittedTotalBytes | src/nri/sampler_all.go:71-80 | the emitted total is all bytes read plus all bytes written |
| NetDev.ParseLine | src/raw/network_stats_getter.go:55-108 | a line is accepted with all eight counters or not at all |
| NetDev.Parse | src/raw/network_stats_getter.go:49-120 | all eight counters are `int64` sums over the same accepted lines behind the two headers |
| NetDev.RenderedLine | src/raw/network_stats_getter.go:61-108 | an interface printed with any padding of its columns is read back whole unless its name starts with "lo" or one of its eight summed columns exceeds MaxInt64 |
| NetDev.RejectedLine | src/raw/network_stats_getter.go:61-108 | a line with fewer than 13 words, or with one of the eight columns no integer, is not read at all |
| NetDev.RoundTrip | src/raw/network_stats_getter.go:49-120 | reading a printed file gives the counters of the interfaces that count, in order |
| Networks.ComputeNetworkStats | src/raw/aws/fargate_raw_metrics.go:66-93 | adding as `uint64` and then converting gives the exact sums converted to `int64` |
| Networks.NetworkMetrics | src/raw/dockerapi/fetcher.go:75-89 | converting first and adding as `int64` gives the same exact sums converted to `int64` |
| Networks.InterfaceOrderIsIrrelevant | src/raw/aws/fargate_raw_metrics.go:70-79 | ranging over the interfaces in another order gives the same sums |
| SystemCpu.ParseAndGetUsage | src/raw/system_cpu_reader.go:55-85 | the first line whose first field is "cpu" decides, its errors included; without one the format is invalid |
| SystemCpu.SumFields | src/raw/system_cpu_reader.go:70-81 | too few fields, a field that is no number, or the scaled sum of seven counters |
| SystemCpu.PrintedCpuLine | src/raw/system_cpu_reader.go:69-81 | reading a "cpu" line printed with any padding scales the sum of its first seven counters, whatever follows |
| SystemCpu.FirstCpuLineDecides | src/raw/system_cpu_reader.go:62-69 | lines in front of the first line whose first word is exactly "cpu", and lines behind it, do not matter |
| SystemCpu.CpuLineErrors | src/raw/system_cpu_reader.go:69-80 | too few fields, or one of the first seven counters no unsigned number that fits, and no other error |
| SystemCpu.NanosecondsExact | src/raw/system_cpu_reader.go:81 | ten million nanoseconds a tick if and only if the tick sum is at most 18446744073 |
| SystemCpu.NanosecondsMonotone | src/raw/system_cpu_reader.go:73-81 | more ticks never show less time exactly while the sums stay within that bound |
| StatFile.NegativeReadsAsZero | src/raw/util.go:69-85 | which texts outside the unsigned range read as 0, and that all others are errors |
| StatFile.PrintedStat | src/raw/util.go:51-67 | a printed number reads as that number, as far as it fits, with any white space around it |
| StatFile.MaxStat | src/raw/util.go:56-59 | "max" reads as the largest number; an unreadable file is an error |
| Decimal.ParseUintExact | src/raw/util.go:70 | `ParseUint` accepts exactly the unsigned decimals that fit, with their value |
| Decimal.AtoiExact | src/raw/cgroup.go:55-67 | `Atoi` accepts exactly the optionally signed decimals that fit, with their value |
| MemoryLimits.NormaliseMemory | src/biz/metrics_all.go:17-103 | every field of the memory metrics, with implausible limits cleared and swap usage only where it is consistent |
| MemoryLimits.FieldsMean | src/biz/metrics_all.go:17-72 | the fields that are taken over, and the limits, each its own or 0 |
| MemoryLimits.SwapMeans | src/biz/metrics_all.go:73-100 | swap beyond memory, and swap usage as resident size plus that, for each kind of report |
| MemoryLimits.SwapMetricsTogether | src/biz/metrics_all.go:73-100 | the three swap usage metrics come together, exactly when swap usage is reported and zero or not below memory, and the subtraction never wraps |
| MemoryLimits.UsagePercentMeans | src/biz/metrics_all.go:24-27 | usage percent times the limit is a hundred times the resident size |
| MemoryLimits.SwapPercentMeans | src/biz/metrics_all.go:90-96 | the same for swap usage and the swap limit |
| MemoryLimits.NoLimitNoPercent | src/nri/sampler_all.go:17-22 | without a plausible limit neither it nor a percentage is emitted |
| MemoryLimits.MemoryEntries | src/nri/sampler_all.go:10-39 | which of the eleven metrics are emitted, and with which value |
| MemoryLimits.SwapLimitNeutralised | src/raw/dockerapi/fetcher.go:52 | on all `int64` pairs, the wrapped difference normalises to the intended limit if and only if memory exceeds the swap setting by less than 2^64 - MaxInt64/2 |
| MemoryLimits.SwapLimitMadeUp | src/raw/dockerapi/fetcher.go:52 | the smallest swap setting with the largest memory reads as a limit of one byte |
| MemoryLimits.EmittedSwapLimit | src/nri/sampler_all.go:26-28 | for all settings Docker reports, the swap limit is emitted exactly when the difference is positive and plausible, and then with it |
| MemoryLimits.EmittedSoftLimit | src/nri/sampler_all.go:23-25 | for every content of the v1 file, the soft limit is emitted if and only if the trimmed text is a decimal from 1 to MaxInt64/2, with its value |
| MemoryLimits.PrintedSoftLimit | src/raw/cgroupv1.go:95-97 | a number printed with white space around it is the soft limit that is emitted, as far as it is plausible |
| MemoryLimits.MaxSoftLimit | src/biz/metrics_all.go:36-39 | "max" is no soft limit |
| Text.SplitJoin | src/raw/cgroup.go:50-52 | the split of a text is its only decomposition into separator-free parts |
| Text.FieldsSpaced | src/raw/cgroup_detect.go:39 | however words are padded and laid out with separators, splitting into fields gives the words back |
| Text.TextIsSpaced | src/raw/cgroup_detect.go:39 | and every text is its fields laid out in some way |
| Text.TrimPadding | src/raw/util.go:56 | trimming takes away exactly the white space around a text, and leaves nothing of white space alone |
| Text.SpacesMean | src/raw/util.go:56 | the white space of ASCII: codes 9 to 13 and the blank |
| Text.ToLowerSpells | src/nri/sampler.go:132-134 | a lowered text equals, or starts with, a word if and only if the text spells it in some case |

## Left out

- Docker client, HTTP, retries, JSON decoding, opening files, logging, configuration and driver wiring: their results are parameters.
- containerd's `Load`, `Stat`, `LoadManager` and `getHierarchyFn`: library calls whose decoded statistics are inputs.
- The SDK's stores: a map whose `Get` may miss; errors other than a missing entry are not part of this model.
- Files are sequences of lines (for `/proc/stat`, of newline-terminated lines): scanner buffer limits, read errors and non-ASCII white space are not modelled.
- Rounding of `float64`: values are reals.
- Windows variants, fields and metrics, `DetectHostRoot` and the parsing of storage driver statistics: they would only add easy members.
- Attributes.NothingElseIsShown: speaks of what the sampler sets; the event type and whatever else the SDK itself puts into a metric set are not part of this model.
- Emission.PopulateNumbers: states the values handed to `SetMetric`; turning the per-second metrics into rates, and the errors of `SetMetric`, belong to the SDK.
- The statistics cache of the Fargate fetcher, which reads one key and writes another.
- The Docker API fetcher's plain field copies, the v1 fetcher's copies of decoded CPU and memory statistics, and the v2 fetcher's of memory statistics.
- FilePath.Clean: Go's byte-level buffer is not modelled; the function works on path elements, as the documentation of `filepath.Clean` describes it.
- MetricsFetcher.Fetcher.Process: calls in which the code would dereference an unset user or kernel counter are excluded by a precondition that names exactly those.
- SystemCpu.ParseAndGetUsage: a blank line in front of the "cpu" line, on which the code would panic, is excluded by a precondition.
- FargateLabels.ProcessFargateLabels: a nil label map, on which the code would panic, is not a value of the model's label maps.
