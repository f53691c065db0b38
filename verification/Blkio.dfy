/** Block I/O entries as the cgroup v1 and v2 fetchers produce them. */
module RawBlkio {
  import opened Machine
  import opened Outcomes
  import opened Text
  import opened Decimal

  datatype BlkioEntry = BlkioEntry(op: string, value: uint64)
  datatype Stats = Stats(serviceBytes: seq<BlkioEntry>, serviced: seq<BlkioEntry>)

  const SEPARATORS: set<char> := {' ', ':'}

  /** What one line of a `blkio.throttle` file means: an entry, the skipped total, or an error. */
  datatype Line = Counter(entry: BlkioEntry) | Skipped | Invalid

  function ReadLine(line: string): Line {
    var fields := FieldsBy(line, SEPARATORS);
    if |fields| < 3 then
      if |fields| == 2 && fields[0] == "Total" then Skipped else Invalid
    else if ParseUint(fields[0]).Err? || ParseUint(fields[1]).Err? then Invalid
    else
      var op := if |fields| == 4 then fields[2] else "";
      match ParseUint(fields[if |fields| == 4 then 3 else 2])
      case Err(_) => Invalid
      case Ok(value) => Counter(BlkioEntry(op, value))
  }

  function Prepend(es: seq<BlkioEntry>, rest: Option<seq<BlkioEntry>>): Option<seq<BlkioEntry>> {
    if rest.None? then None else Some(es + rest.value)
  }

  /** The entries of a file, `None` as soon as one line is invalid. */
  function ReadLines(lines: seq<string>): Option<seq<BlkioEntry>> {
    if lines == [] then Some([])
    else
      match ReadLine(lines[0])
      case Invalid => None
      case Skipped => ReadLines(lines[1..])
      case Counter(e) => Prepend([e], ReadLines(lines[1..]))
  }

  lemma PrependNothing(rest: Option<seq<BlkioEntry>>)
    ensures Prepend([], rest) == rest
  {
    if rest.Some? {
      assert [] + rest.value == rest.value;
    }
  }

  lemma PrependTwice(es: seq<BlkioEntry>, e: BlkioEntry, rest: Option<seq<BlkioEntry>>)
    ensures Prepend(es, Prepend([e], rest)) == Prepend(es + [e], rest)
  {
    if rest.Some? {
      assert es + ([e] + rest.value) == es + [e] + rest.value;
    }
  }

  lemma {:induction false} ReadLinesConcat(a: seq<string>, b: seq<string>)
    requires ReadLines(a).Some? && ReadLines(b).Some?
    ensures ReadLines(a + b) == Some(ReadLines(a).value + ReadLines(b).value)
  {
    if a == [] {
      assert a + b == b;
      PrependNothing(ReadLines(b));
    } else {
      assert (a + b)[1..] == a[1..] + b;
      ReadLinesConcat(a[1..], b);
      if ReadLine(a[0]).Counter? {
        assert [ReadLine(a[0]).entry] + (ReadLines(a[1..]).value + ReadLines(b).value)
            == [ReadLine(a[0]).entry] + ReadLines(a[1..]).value + ReadLines(b).value;
      }
    }
  }

  /** `blkioEntries`; a file that cannot be opened is `None`. */
  method BlkioEntries(file: Option<seq<string>>) returns (r: Option<seq<BlkioEntry>>)
    ensures r == if file.None? then None else ReadLines(file.value)
  {
    if file.None? {
      return None;
    }
    var entries: seq<BlkioEntry> := [];
    var lines := file.value;
    assert lines[0..] == lines;
    PrependNothing(ReadLines(lines));
    for i := 0 to |lines|
      invariant ReadLines(lines) == Prepend(entries, ReadLines(lines[i..]))
    {
      var line := lines[i];
      assert lines[i..][0] == line && lines[i..][1..] == lines[i + 1..];
      var fields := FieldsBy(line, SEPARATORS);
      if |fields| < 3 {
        if |fields| == 2 && fields[0] == "Total" {
          continue;
        } else {
          return None;
        }
      }
      if ParseUint(fields[0]).Err? {
        return None;
      }
      if ParseUint(fields[1]).Err? {
        return None;
      }
      var op := "";
      var valueField := 2;
      if |fields| == 4 {
        op := fields[2];
        valueField := 3;
      }
      var val := ParseUint(fields[valueField]);
      if val.Err? {
        return None;
      }
      PrependTwice(entries, BlkioEntry(op, val.value), ReadLines(lines[i + 1..]));
      entries := entries + [BlkioEntry(op, val.value)];
    }
    assert lines[|lines|..] == [] && entries + [] == entries;
    return Some(entries);
  }

  /** `blkio` of the v1 fetcher: it stops at the first file that fails, keeping what it has. */
  method BlkioV1(bytesFile: Option<seq<string>>, servicedFile: Option<seq<string>>) returns (stats: Stats, ok: bool)
    ensures ok <==> && bytesFile.Some? && ReadLines(bytesFile.value).Some?
                    && servicedFile.Some? && ReadLines(servicedFile.value).Some?
    ensures ok ==> stats == Stats(ReadLines(bytesFile.value).value, ReadLines(servicedFile.value).value)
    ensures !ok ==> stats.serviced == []
    ensures !ok ==> stats.serviceBytes
                    == if bytesFile.Some? && ReadLines(bytesFile.value).Some? then ReadLines(bytesFile.value).value
                       else []
  {
    stats := Stats([], []);
    var bytes := BlkioEntries(bytesFile);
    if bytes.None? {
      return stats, false;
    }
    stats := stats.(serviceBytes := bytes.value);
    var serviced := BlkioEntries(servicedFile);
    if serviced.None? {
      return stats, false;
    }
    return stats.(serviced := serviced.value), true;
  }

  // ----- Devices, as each kernel interface reports them

  /** One counter of a device, split by kind of operation as in `struct blkg_rwstat`. */
  datatype Counts = Counts(read: uint64, write: uint64, sync: uint64, async: uint64, discard: uint64, total: uint64)

  datatype Device = Device(major: uint64, minor: uint64, bytes: Counts, ios: Counts)

  /** The six lines `blkg_rwstat` prints for a device. */
  function DeviceEntries(c: Counts): seq<BlkioEntry> {
    [BlkioEntry("Read", c.read), BlkioEntry("Write", c.write), BlkioEntry("Sync", c.sync),
     BlkioEntry("Async", c.async), BlkioEntry("Discard", c.discard), BlkioEntry("Total", c.total)]
  }

  function DeviceLine(d: Device, e: BlkioEntry): string {
    OfNat(d.major) + [':'] + (OfNat(d.minor) + [' '] + (e.op + [' '] + OfNat(e.value)))
  }

  function DeviceLines(d: Device, es: seq<BlkioEntry>): seq<string> {
    if es == [] then [] else [DeviceLine(d, es[0])] + DeviceLines(d, es[1..])
  }

  function CountsOf(d: Device, bytes: bool): Counts {
    if bytes then d.bytes else d.ios
  }

  /** All device lines of one v1 throttle file. */
  function FileBody(ds: seq<Device>, bytes: bool): seq<string> {
    if ds == [] then [] else DeviceLines(ds[0], DeviceEntries(CountsOf(ds[0], bytes))) + FileBody(ds[1..], bytes)
  }

  function TotalLine(total: nat): string {
    "Total" + [' '] + OfNat(total)
  }

  /** A v1 throttle file: the devices, then the grand total. */
  function V1File(ds: seq<Device>, bytes: bool, total: nat): seq<string> {
    FileBody(ds, bytes) + [TotalLine(total)]
  }

  function V1Entries(ds: seq<Device>, bytes: bool): seq<BlkioEntry> {
    if ds == [] then [] else DeviceEntries(CountsOf(ds[0], bytes)) + V1Entries(ds[1..], bytes)
  }

  function V2Entries(ds: seq<Device>, bytes: bool): seq<BlkioEntry> {
    if ds == [] then []
    else
      var c := CountsOf(ds[0], bytes);
      [BlkioEntry("Read", c.read), BlkioEntry("Write", c.write)] + V2Entries(ds[1..], bytes)
  }

  /** `io` of the v2 fetcher: two entries per device; `None` when there is no I/O information. */
  method IoV2(usage: Option<seq<Device>>) returns (stats: Stats, ok: bool)
    ensures ok <==> usage.Some?
    ensures stats == if usage.None? then Stats([], [])
                     else Stats(V2Entries(usage.value, true), V2Entries(usage.value, false))
  {
    stats := Stats([], []);
    if usage.None? {
      return stats, false;
    }
    var ds := usage.value;
    for i := 0 to |ds|
      invariant V2Entries(ds, true) == stats.serviceBytes + V2Entries(ds[i..], true)
      invariant V2Entries(ds, false) == stats.serviced + V2Entries(ds[i..], false)
    {
      var m := ds[i];
      assert ds[i..][0] == m && ds[i..][1..] == ds[i + 1..];
      stats := Stats(
        stats.serviceBytes + [BlkioEntry("Read", m.bytes.read), BlkioEntry("Write", m.bytes.write)],
        stats.serviced + [BlkioEntry("Read", m.ios.read), BlkioEntry("Write", m.ios.write)]);
    }
    return stats, true;
  }

  lemma DeviceLineFields(d: Device, e: BlkioEntry)
    requires IsWord(e.op, SEPARATORS)
    ensures FieldsBy(DeviceLine(d, e), SEPARATORS) == [OfNat(d.major), OfNat(d.minor), e.op, OfNat(e.value)]
  {
    var major, minor, value := OfNat(d.major), OfNat(d.minor), OfNat(e.value);
    DecimalIsWord(OfNat(d.major), SEPARATORS);
    DecimalIsWord(OfNat(d.minor), SEPARATORS);
    DecimalIsWord(OfNat(e.value), SEPARATORS);
    var rest := e.op + [' '] + value;
    FieldsOne(value, SEPARATORS);
    FieldsCons(e.op, ' ', value, SEPARATORS);
    assert FieldsBy(rest, SEPARATORS) == [e.op, value];
    FieldsCons(minor, ' ', rest, SEPARATORS);
    assert FieldsBy(minor + [' '] + rest, SEPARATORS) == [minor, e.op, value];
    FieldsCons(major, ':', minor + [' '] + rest, SEPARATORS);
  }

  lemma DeviceLineReads(d: Device, e: BlkioEntry)
    requires IsWord(e.op, SEPARATORS)
    ensures ReadLine(DeviceLine(d, e)) == Counter(e)
  {
    DeviceLineFields(d, e);
    PrintedParses(d.major);
    PrintedParses(d.minor);
    PrintedParses(e.value);
  }

  lemma {:induction false} DeviceLinesRead(d: Device, es: seq<BlkioEntry>)
    requires forall e <- es :: IsWord(e.op, SEPARATORS)
    ensures ReadLines(DeviceLines(d, es)) == Some(es)
  {
    if es != [] {
      DeviceLineReads(d, es[0]);
      DeviceLinesRead(d, es[1..]);
      assert DeviceLines(d, es)[1..] == DeviceLines(d, es[1..]);
      assert es == [es[0]] + es[1..];
    }
  }

  lemma OperationsAreWords(c: Counts)
    ensures forall e <- DeviceEntries(c) :: IsWord(e.op, SEPARATORS)
  {
  }

  lemma {:induction false} FileBodyReads(ds: seq<Device>, bytes: bool)
    ensures ReadLines(FileBody(ds, bytes)) == Some(V1Entries(ds, bytes))
  {
    if ds != [] {
      var es := DeviceEntries(CountsOf(ds[0], bytes));
      OperationsAreWords(CountsOf(ds[0], bytes));
      DeviceLinesRead(ds[0], es);
      FileBodyReads(ds[1..], bytes);
      ReadLinesConcat(DeviceLines(ds[0], es), FileBody(ds[1..], bytes));
    }
  }

  function NamelessLine(major: uint64, minor: uint64, value: uint64): string {
    OfNat(major) + [':'] + (OfNat(minor) + [' '] + OfNat(value))
  }

  lemma NamelessLineFields(major: uint64, minor: uint64, value: uint64)
    ensures FieldsBy(NamelessLine(major, minor, value), SEPARATORS) == [OfNat(major), OfNat(minor), OfNat(value)]
  {
    DecimalIsWord(OfNat(major), SEPARATORS);
    DecimalIsWord(OfNat(minor), SEPARATORS);
    DecimalIsWord(OfNat(value), SEPARATORS);
    FieldsOne(OfNat(value), SEPARATORS);
    FieldsCons(OfNat(minor), ' ', OfNat(value), SEPARATORS);
    FieldsCons(OfNat(major), ':', OfNat(minor) + [' '] + OfNat(value), SEPARATORS);
  }

  /** A line without an operation is read too, under the empty operation name. */
  lemma NamelessLineReads(major: uint64, minor: uint64, value: uint64)
    ensures ReadLine(NamelessLine(major, minor, value)) == Counter(BlkioEntry("", value))
  {
    NamelessLineFields(major, minor, value);
    PrintedParses(major);
    PrintedParses(minor);
    PrintedParses(value);
  }

  lemma TotalLineSkipped(total: nat)
    ensures ReadLines([TotalLine(total)]) == Some([])
  {
    DecimalIsWord(OfNat(total), SEPARATORS);
    FieldsOne(OfNat(total), SEPARATORS);
    FieldsCons("Total", ' ', OfNat(total), SEPARATORS);
    assert FieldsBy(TotalLine(total), SEPARATORS) == ["Total", OfNat(total)];
    assert [TotalLine(total)][1..] == [];
  }

  /** Reading a printed throttle file gives the six entries of every device, and skips the grand total. */
  lemma V1FileReads(ds: seq<Device>, bytes: bool, total: nat)
    ensures ReadLines(V1File(ds, bytes, total)) == Some(V1Entries(ds, bytes))
  {
    FileBodyReads(ds, bytes);
    TotalLineSkipped(total);
    ReadLinesConcat(FileBody(ds, bytes), [TotalLine(total)]);
    assert V1Entries(ds, bytes) + [] == V1Entries(ds, bytes);
  }

  /** An unsigned decimal that fits 64 bits. */
  predicate IsUint(s: string) {
    IsDecimal(s) && Value(s) <= MAX_UINT64
  }

  /** What makes a line an entry, and which: three words or more, the first two and the value unsigned numbers; with
      exactly four words the third is the operation and the fourth the value, else the third is the value. */
  lemma EntryMeans(line: string, e: BlkioEntry)
    ensures var fields := FieldsBy(line, {' ', ':'});
      ReadLine(line) == Counter(e) <==>
        && |fields| >= 3 && IsUint(fields[0]) && IsUint(fields[1])
        && e.op == (if |fields| == 4 then fields[2] else "")
        && var value := fields[if |fields| == 4 then 3 else 2]; IsUint(value) && e.value == Value(value)
  {
    var fields := FieldsBy(line, SEPARATORS);
    if |fields| >= 3 {
      ParseUintExact(fields[0]);
      ParseUintExact(fields[1]);
      ParseUintExact(fields[2]);
      if |fields| == 4 {
        ParseUintExact(fields[3]);
      }
    }
  }

  /** A line is skipped exactly if it is "Total" and one more word. */
  lemma SkippedMeans(line: string)
    ensures ReadLine(line) == Skipped <==>
            |FieldsBy(line, {' ', ':'})| == 2 && FieldsBy(line, {' ', ':'})[0] == "Total"
  {
  }

  /** A file fails exactly if one of its lines is invalid. */
  lemma {:induction false} FileFails(lines: seq<string>)
    ensures ReadLines(lines) == None <==> exists line <- lines :: ReadLine(line) == Invalid
  {
    if lines != [] {
      FileFails(lines[1..]);
      assert forall line :: line in lines <==> line == lines[0] || line in lines[1..];
    }
  }
}

/** Totals of the block I/O entries, and the metrics emitted for them. */
module BlkioTotals {
  import opened Machine
  import opened Outcomes
  import opened Sums
  import opened RawBlkio
  import opened Text
  import opened MetricSets

  datatype Direction = Read | Write

  datatype BlkIO = BlkIO(
    readCount: Option<real>, writeCount: Option<real>, readBytes: Option<real>, writeBytes: Option<real>)

  /** An operation counts by its first letter, in either case. */
  predicate Goes(e: BlkioEntry, d: Direction) {
    e.op != "" && match d case Read => e.op[0] in {'r', 'R'} case Write => e.op[0] in {'w', 'W'}
  }

  function Plus(total: Option<real>, value: uint64): Option<real> {
    Some((if total.Some? then total.value else 0.0) + value as real)
  }

  /** The total over the entries of one direction; none if there is no such entry. */
  function Total(es: seq<BlkioEntry>, d: Direction): Option<real> {
    if es == [] then None
    else
      var n := |es| - 1;
      if Goes(es[n], d) then Plus(Total(es[..n], d), es[n].value) else Total(es[..n], d)
  }

  method SumEntries(es: seq<BlkioEntry>) returns (read: Option<real>, write: Option<real>)
    ensures read == Total(es, Read) && write == Total(es, Write)
  {
    read, write := None, None;
    for i := 0 to |es|
      invariant read == Total(es[..i], Read) && write == Total(es[..i], Write)
    {
      var svc := es[i];
      assert es[..i + 1][..i] == es[..i];
      if |svc.op| == 0 {
        continue;
      }
      var count := svc.value as real;
      if svc.op[0] in {'r', 'R'} {
        if read == None {
          read := Some(0.0);
        }
        read := Some(read.value + count);
      } else if svc.op[0] in {'w', 'W'} {
        if write == None {
          write := Some(0.0);
        }
        write := Some(write.value + count);
      }
    }
    assert es[..|es|] == es;
  }

  function TotalsOf(stats: Stats): BlkIO {
    BlkIO(Total(stats.serviced, Read), Total(stats.serviced, Write),
          Total(stats.serviceBytes, Read), Total(stats.serviceBytes, Write))
  }

  /** `blkIO`. */
  method TotalBlkIO(stats: Stats) returns (bio: BlkIO)
    ensures bio == TotalsOf(stats)
  {
    var readCount, writeCount := SumEntries(stats.serviced);
    var readBytes, writeBytes := SumEntries(stats.serviceBytes);
    return BlkIO(readCount, writeCount, readBytes, writeBytes);
  }

  // ----- Both fetchers, on the same devices

  /** The exact total of one counter over the devices: none exactly when there are no devices. */
  function Exact(ds: seq<Device>, f: Device -> int): Option<real> {
    if ds == [] then None else Some(SumBy(ds, f) as real)
  }

  const READ_BYTES: Device -> int := (d: Device) => d.bytes.read
  const WRITE_BYTES: Device -> int := (d: Device) => d.bytes.write
  const READ_IOS: Device -> int := (d: Device) => d.ios.read
  const WRITE_IOS: Device -> int := (d: Device) => d.ios.write

  function ExactTotals(ds: seq<Device>): BlkIO {
    BlkIO(Exact(ds, READ_IOS), Exact(ds, WRITE_IOS), Exact(ds, READ_BYTES), Exact(ds, WRITE_BYTES))
  }

  function Both(a: Option<real>, b: Option<real>): Option<real> {
    if a.None? then b else if b.None? then a else Some(a.value + b.value)
  }

  lemma {:induction false} TotalConcat(a: seq<BlkioEntry>, b: seq<BlkioEntry>, d: Direction)
    ensures Total(a + b, d) == Both(Total(a, d), Total(b, d))
  {
    if b == [] {
      assert a + b == a;
    } else {
      var n := |b| - 1;
      TotalConcat(a, b[..n], d);
      assert (a + b)[..|a| + n] == a + b[..n];
      assert (a + b)[|a| + n] == b[n];
    }
  }

  lemma TotalSnoc(es: seq<BlkioEntry>, e: BlkioEntry, d: Direction)
    ensures Total(es + [e], d) == if Goes(e, d) then Plus(Total(es, d), e.value) else Total(es, d)
  {
  }

  lemma {:induction false} NothingGoes(es: seq<BlkioEntry>, d: Direction)
    requires forall e <- es :: !Goes(e, d)
    ensures Total(es, d) == None
  {
    if es != [] {
      var n := |es| - 1;
      assert es[n] in es;
      assert forall e <- es[..n] :: e in es;
      NothingGoes(es[..n], d);
    }
  }

  function ReadAndWrite(c: Counts): seq<BlkioEntry> {
    [BlkioEntry("Read", c.read), BlkioEntry("Write", c.write)]
  }

  function Counted(c: Counts, d: Direction): uint64 {
    if d.Read? then c.read else c.write
  }

  lemma ReadAndWriteTotal(c: Counts, d: Direction)
    ensures Total(ReadAndWrite(c), d) == Some(Counted(c, d) as real)
  {
    TotalSnoc([], BlkioEntry("Read", c.read), d);
    TotalSnoc([BlkioEntry("Read", c.read)], BlkioEntry("Write", c.write), d);
    assert [] + [BlkioEntry("Read", c.read)] == [BlkioEntry("Read", c.read)];
    assert [BlkioEntry("Read", c.read)] + [BlkioEntry("Write", c.write)] == ReadAndWrite(c);
  }

  /** Of the six lines of a device only the first two count. */
  lemma DeviceTotals(c: Counts, d: Direction)
    ensures Total(DeviceEntries(c), d) == Some(Counted(c, d) as real)
  {
    var es := DeviceEntries(c);
    assert es[..2] == ReadAndWrite(c) && es == es[..2] + es[2..];
    assert es[2..] == [es[2], es[3], es[4], es[5]];
    NothingGoes(es[2..], d);
    TotalConcat(es[..2], es[2..], d);
    ReadAndWriteTotal(c, d);
  }

  function CounterOf(d: Direction, bytes: bool): Device -> int {
    if bytes then (if d.Read? then READ_BYTES else WRITE_BYTES) else (if d.Read? then READ_IOS else WRITE_IOS)
  }

  lemma CounterOfDevice(d: Device, direction: Direction, bytes: bool)
    ensures CounterOf(direction, bytes)(d) == Counted(CountsOf(d, bytes), direction)
  {
  }

  lemma ExactCons(ds: seq<Device>, f: Device -> int)
    requires ds != []
    ensures Exact(ds, f) == Both(Some(f(ds[0]) as real), Exact(ds[1..], f))
  {
    if ds[1..] == [] {
      assert SumBy(ds[1..], f) == 0;
    }
    assert SumBy(ds, f) == f(ds[0]) + SumBy(ds[1..], f);
  }

  lemma {:induction false} V1Total(ds: seq<Device>, d: Direction, bytes: bool)
    ensures Total(V1Entries(ds, bytes), d) == Exact(ds, CounterOf(d, bytes))
  {
    if ds != [] {
      V1Total(ds[1..], d, bytes);
      DeviceTotals(CountsOf(ds[0], bytes), d);
      TotalConcat(DeviceEntries(CountsOf(ds[0], bytes)), V1Entries(ds[1..], bytes), d);
      CounterOfDevice(ds[0], d, bytes);
      ExactCons(ds, CounterOf(d, bytes));
    }
  }

  lemma {:induction false} V2Total(ds: seq<Device>, d: Direction, bytes: bool)
    ensures Total(V2Entries(ds, bytes), d) == Exact(ds, CounterOf(d, bytes))
  {
    if ds != [] {
      V2Total(ds[1..], d, bytes);
      ReadAndWriteTotal(CountsOf(ds[0], bytes), d);
      TotalConcat(ReadAndWrite(CountsOf(ds[0], bytes)), V2Entries(ds[1..], bytes), d);
      CounterOfDevice(ds[0], d, bytes);
      ExactCons(ds, CounterOf(d, bytes));
    }
  }

  lemma FetchersTotal(ds: seq<Device>, d: Direction, bytes: bool)
    ensures Total(V1Entries(ds, bytes), d) == Exact(ds, CounterOf(d, bytes))
    ensures Total(V2Entries(ds, bytes), d) == Exact(ds, CounterOf(d, bytes))
  {
    V1Total(ds, d, bytes);
    V2Total(ds, d, bytes);
  }

  /** On any list of devices the v1 text pipeline and the v2 pipeline give the same totals: the exact sums of the
      reads and of the writes, and no total at all exactly when there are no devices. */
  lemma PipelinesAgree(ds: seq<Device>, bytesTotal: nat, servicedTotal: nat)
    ensures ReadLines(V1File(ds, true, bytesTotal)).Some? && ReadLines(V1File(ds, false, servicedTotal)).Some?
    ensures TotalsOf(Stats(ReadLines(V1File(ds, true, bytesTotal)).value,
                           ReadLines(V1File(ds, false, servicedTotal)).value))
            == ExactTotals(ds)
    ensures TotalsOf(Stats(V2Entries(ds, true), V2Entries(ds, false))) == ExactTotals(ds)
  {
    V1FileReads(ds, true, bytesTotal);
    V1FileReads(ds, false, servicedTotal);
    FetchersTotal(ds, Read, true);
    FetchersTotal(ds, Write, true);
    FetchersTotal(ds, Read, false);
    FetchersTotal(ds, Write, false);
  }

  /** The order in which the kernel lists the devices does not matter. */
  lemma DeviceOrderIsIrrelevant(ds: seq<Device>, es: seq<Device>)
    requires multiset(ds) == multiset(es)
    ensures ExactTotals(ds) == ExactTotals(es)
  {
    assert |ds| == |multiset(ds)| == |multiset(es)| == |es|;
    SumOfPermutation(ds, es, READ_BYTES);
    SumOfPermutation(ds, es, WRITE_BYTES);
    SumOfPermutation(ds, es, READ_IOS);
    SumOfPermutation(ds, es, WRITE_IOS);
  }

  // ----- The emitted metrics

  datatype Metric =
    | TotalReadCount | ReadCountPerSecond | TotalWriteCount | WriteCountPerSecond
    | TotalReadBytes | ReadBytesPerSecond | TotalWriteBytes | WriteBytesPerSecond | TotalBytes

  /** The value each metric is emitted with, if it is emitted. */
  function MetricValue(bio: BlkIO, m: Metric): Option<real> {
    match m
    case TotalReadCount => bio.readCount
    case ReadCountPerSecond => bio.readCount
    case TotalWriteCount => bio.writeCount
    case WriteCountPerSecond => bio.writeCount
    case TotalReadBytes => bio.readBytes
    case ReadBytesPerSecond => bio.readBytes
    case TotalWriteBytes => bio.writeBytes
    case WriteBytesPerSecond => bio.writeBytes
    case TotalBytes => Both(bio.readBytes, bio.writeBytes)
  }

  /** `blkio` of the sampler. */
  method BlkioEntries(bio: BlkIO) returns (entries: seq<Entry<Metric, real>>)
    ensures forall m, v :: Entry(m, v) in entries <==> MetricValue(bio, m) == Some(v)
  {
    entries := [];
    if bio.readCount.Some? {
      var count := bio.readCount.value;
      entries := entries + [Entry(TotalReadCount, count), Entry(ReadCountPerSecond, count)];
    }
    if bio.writeCount.Some? {
      var count := bio.writeCount.value;
      entries := entries + [Entry(TotalWriteCount, count), Entry(WriteCountPerSecond, count)];
    }
    if bio.readBytes.Some? {
      var bytes := bio.readBytes.value;
      entries := entries + [Entry(TotalReadBytes, bytes), Entry(ReadBytesPerSecond, bytes)];
    }
    if bio.writeBytes.Some? {
      var bytes := bio.writeBytes.value;
      entries := entries + [Entry(TotalWriteBytes, bytes), Entry(WriteBytesPerSecond, bytes)];
    }
    if bio.readBytes.Some? || bio.writeBytes.Some? {
      var totalBytes := 0.0;
      if bio.readBytes.Some? {
        totalBytes := totalBytes + bio.readBytes.value;
      }
      if bio.writeBytes.Some? {
        totalBytes := totalBytes + bio.writeBytes.value;
      }
      entries := entries + [Entry(TotalBytes, totalBytes)];
    }
  }

  /** From devices to metric: the emitted total is all bytes read plus all bytes written. */
  lemma EmittedTotalBytes(ds: seq<Device>)
    ensures MetricValue(ExactTotals(ds), TotalBytes)
            == if ds == [] then None else Some((SumBy(ds, READ_BYTES) + SumBy(ds, WRITE_BYTES)) as real)
  {
  }

  // ----- Any entries

  /** The value of an entry whose operation starts with an "r", small or capital. */
  const READ_VALUE: BlkioEntry -> int :=
    (e: BlkioEntry) => if e.op != "" && (e.op[0] == 'r' || e.op[0] == 'R') then e.value else 0

  const WRITE_VALUE: BlkioEntry -> int :=
    (e: BlkioEntry) => if e.op != "" && (e.op[0] == 'w' || e.op[0] == 'W') then e.value else 0

  predicate Reads(e: BlkioEntry) {
    StartsLike(e.op, "r")
  }

  predicate NoneReads(es: seq<BlkioEntry>) {
    forall e <- es :: !Reads(e)
  }

  lemma NoneReadsSnoc(es: seq<BlkioEntry>, e: BlkioEntry)
    ensures NoneReads(es + [e]) <==> NoneReads(es) && !Reads(e)
  {
    assert forall f :: f in es + [e] <==> f in es || f == e;
  }

  lemma ReadsMeans(e: BlkioEntry)
    ensures Goes(e, Read) <==> Reads(e)
    ensures READ_VALUE(e) == if Reads(e) then e.value else 0
  {
  }

  lemma {:induction false} ReadTotalMeans(es: seq<BlkioEntry>)
    ensures Total(es, Read) == if NoneReads(es) then None else Some(SumBy(es, READ_VALUE) as real)
    ensures NoneReads(es) ==> SumBy(es, READ_VALUE) == 0
  {
    if es != [] {
      var init, last := es[..|es| - 1], es[|es| - 1];
      assert es == init + [last];
      ReadTotalMeans(init);
      SumSnoc(init, last, READ_VALUE);
      NoneReadsSnoc(init, last);
      ReadsMeans(last);
    }
  }

  predicate Writes(e: BlkioEntry) {
    StartsLike(e.op, "w")
  }

  predicate NoneWrites(es: seq<BlkioEntry>) {
    forall e <- es :: !Writes(e)
  }

  lemma NoneWritesSnoc(es: seq<BlkioEntry>, e: BlkioEntry)
    ensures NoneWrites(es + [e]) <==> NoneWrites(es) && !Writes(e)
  {
    assert forall f :: f in es + [e] <==> f in es || f == e;
  }

  lemma WritesMeans(e: BlkioEntry)
    ensures Goes(e, Write) <==> Writes(e)
    ensures WRITE_VALUE(e) == if Writes(e) then e.value else 0
  {
  }

  lemma {:induction false} WriteTotalMeans(es: seq<BlkioEntry>)
    ensures Total(es, Write) == if NoneWrites(es) then None else Some(SumBy(es, WRITE_VALUE) as real)
    ensures NoneWrites(es) ==> SumBy(es, WRITE_VALUE) == 0
  {
    if es != [] {
      var init, last := es[..|es| - 1], es[|es| - 1];
      assert es == init + [last];
      WriteTotalMeans(init);
      SumSnoc(init, last, WRITE_VALUE);
      NoneWritesSnoc(init, last);
      WritesMeans(last);
    }
  }

  /** Whatever the entries are called: the total of each direction is the sum over the entries whose operation starts
      with its letter in either case, and there is none exactly if there is no such entry. */
  lemma TotalsMean(es: seq<BlkioEntry>)
    ensures Total(es, Read) == if forall e <- es :: !Reads(e) then None else Some(SumBy(es, READ_VALUE) as real)
    ensures Total(es, Write) == if forall e <- es :: !Writes(e) then None else Some(SumBy(es, WRITE_VALUE) as real)
  {
    ReadTotalMeans(es);
    WriteTotalMeans(es);
  }
}
