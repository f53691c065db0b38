/** Host CPU time from `/proc/stat`, in nanoseconds. A file is its newline-terminated lines. */
module SystemCpu {
  import opened Machine
  import opened Outcomes
  import opened Text
  import opened Decimal
  import opened Sums

  datatype CpuError = NoCpuLine | TooFewFields | BadField

  /** Largest number of clock ticks (1/100 s) whose nanoseconds survive the multiplication by 10^9. */
  const MAX_TICKS: int := 18446744073

  /** No blank line in front of the "cpu" line: on one, the code would index an empty slice. */
  predicate Readable(lines: seq<string>) {
    lines == [] || (Fields(lines[0]) != [] && (Fields(lines[0])[0] == "cpu" || Readable(lines[1..])))
  }

  /** The exact sum of numeric fields. */
  function SumTicks(fields: seq<string>): Option<int> {
    if fields == [] then Some(0)
    else
      var n := |fields| - 1;
      var sum, v := SumTicks(fields[..n]), ParseUint(fields[n]);
      if sum.Some? && v.Ok? then Some(sum.value + v.value) else None
  }

  /** The scaling of a tick sum, in `uint64` arithmetic. */
  function Nanoseconds(ticks: int): uint64 {
    Uint64(Uint64(ticks) * 1_000_000_000) / 100
  }

  function CpuUsage(fields: seq<string>): Result<uint64, CpuError> {
    if |fields| < 8 then Err(TooFewFields)
    else
      match SumTicks(fields[1..8])
      case None => Err(BadField)
      case Some(ticks) => Ok(Nanoseconds(ticks))
  }

  /** The first line whose first field is "cpu" decides. */
  function Usage(lines: seq<string>): Result<uint64, CpuError>
    requires Readable(lines)
  {
    if lines == [] then Err(NoCpuLine)
    else if Fields(lines[0])[0] == "cpu" then CpuUsage(Fields(lines[0]))
    else Usage(lines[1..])
  }

  lemma Scaled(ticks: int)
    ensures Uint64(Uint64(ticks) * 1_000_000_000) / 100 == Nanoseconds(ticks)
  {
  }

  lemma {:induction false} NoSum(fields: seq<string>, i: nat)
    requires i < |fields| && ParseUint(fields[i]).Err?
    ensures SumTicks(fields) == None
  {
    if i < |fields| - 1 {
      NoSum(fields[..|fields| - 1], i);
    }
  }

  /** The inner loop, over the first seven counters of the "cpu" line. */
  method SumFields(parts: seq<string>) returns (r: Result<uint64, CpuError>)
    ensures r == CpuUsage(parts)
  {
    if |parts| < 8 {
      return Err(TooFewFields);
    }
    var totalClockTicks: uint64 := 0;
    var fields := parts[1..8];
    for i := 0 to 7
      invariant SumTicks(fields[..i]).Some? && totalClockTicks == Uint64(SumTicks(fields[..i]).value)
    {
      assert fields[..i + 1][..i] == fields[..i];
      var v := ParseUint(fields[i]);
      if v.Err? {
        NoSum(fields, i);
        return Err(BadField);
      }
      WrapSum(SumTicks(fields[..i]).value, v.value);
      totalClockTicks := Uint64(totalClockTicks + v.value);
    }
    assert fields[..7] == fields;
    Scaled(SumTicks(fields).value);
    return Ok(Uint64(totalClockTicks * 1_000_000_000) / 100);
  }

  /** `parseAndGetUsage`. */
  method ParseAndGetUsage(lines: seq<string>) returns (r: Result<uint64, CpuError>)
    requires Readable(lines)
    ensures r == Usage(lines)
  {
    for i := 0 to |lines|
      invariant Readable(lines[i..]) && Usage(lines[i..]) == Usage(lines)
    {
      assert lines[i..][0] == lines[i] && lines[i..][1..] == lines[i + 1..];
      var parts := Fields(lines[i]);
      if parts[0] == "cpu" {
        r := SumFields(parts);
        return;
      }
    }
    return Err(NoCpuLine);
  }

  /** Ten million nanoseconds a tick, exactly while the tick sum is at most MAX_TICKS. */
  lemma NanosecondsExact(ticks: nat)
    ensures Nanoseconds(ticks) == ticks * 10_000_000 <==> ticks <= MAX_TICKS
  {
    if ticks <= MAX_TICKS {
      Fits(ticks);
      Fits(ticks * 1_000_000_000);
    } else {
      assert Nanoseconds(ticks) <= MAX_UINT64 / 100;
    }
  }

  /** Reading more ticks never shows less time, exactly while the tick sums stay within MAX_TICKS. */
  lemma NanosecondsMonotone(n: nat)
    ensures (forall a, b :: 0 <= a <= b <= n ==> Nanoseconds(a) <= Nanoseconds(b)) <==> n <= MAX_TICKS
  {
    if n <= MAX_TICKS {
      forall a, b | 0 <= a <= b <= n ensures Nanoseconds(a) <= Nanoseconds(b) {
        NanosecondsExact(a);
        NanosecondsExact(b);
      }
    } else {
      NanosecondsExact(MAX_TICKS);
      assert Nanoseconds(18446744074) == 2904483;
      assert Nanoseconds(MAX_TICKS + 1) < Nanoseconds(MAX_TICKS);
    }
  }

  const TICKS: uint64 -> int := (n: uint64) => n

  function Total(ns: seq<uint64>): int {
    SumBy(ns, TICKS)
  }

  lemma SumTicksSnoc(fields: seq<string>, field: string, sum: int, v: uint64)
    requires SumTicks(fields) == Some(sum) && ParseUint(field) == Ok(v)
    ensures SumTicks(fields + [field]) == Some(sum + v)
  {
    assert (fields + [field])[..|fields|] == fields;
  }

  lemma TotalSnoc(ns: seq<uint64>, last: uint64)
    ensures Total(ns + [last]) == Total(ns) + last
  {
    SumSnoc(ns, last, TICKS);
  }

  lemma OneMoreTick(ns: seq<uint64>, last: uint64)
    requires SumTicks(Printed(ns)) == Some(Total(ns))
    ensures SumTicks(Printed(ns + [last])) == Some(Total(ns + [last]))
  {
    PrintedUint(last);
    SumTicksSnoc(Printed(ns), OfNat(last), Total(ns), last);
    PrintedSnoc(ns, last);
    TotalSnoc(ns, last);
  }

  lemma {:induction false} PrintedTicks(ns: seq<uint64>)
    ensures SumTicks(Printed(ns)) == Some(Total(ns))
  {
    if ns != [] {
      var init, last := ns[..|ns| - 1], ns[|ns| - 1];
      PrintedTicks(init);
      OneMoreTick(init, last);
      assert ns == init + [last];
    }
  }

  /** A "cpu" line, however its words are padded. */
  function CpuLine(ns: seq<uint64>, gaps: seq<string>, rest: string): string
    requires |gaps| == 1 + |ns|
  {
    Spaced(["cpu"] + Printed(ns), gaps, rest)
  }

  lemma CpuLineFields(ns: seq<uint64>, gaps: seq<string>, rest: string)
    requires |gaps| == 1 + |ns| && Separates(gaps, SPACES) && AllIn(rest, SPACES)
    ensures Fields(CpuLine(ns, gaps, rest)) == ["cpu"] + Printed(ns)
  {
    assert IsWord("cpu", SPACES);
    PrintedAreWords(ns, SPACES);
    FieldsSpaced(["cpu"] + Printed(ns), gaps, rest, SPACES);
  }

  lemma PrintedPrefix(ns: seq<uint64>, k: nat)
    requires k <= |ns|
    ensures SumTicks((["cpu"] + Printed(ns))[1..k + 1]) == Some(Total(ns[..k]))
  {
    assert (["cpu"] + Printed(ns))[1..k + 1] == Printed(ns[..k]);
    PrintedTicks(ns[..k]);
  }

  /** Reading a printed "cpu" line gives the nanoseconds of its first seven counters. */
  lemma PrintedCpuLine(ns: seq<uint64>, gaps: seq<string>, rest: string, lines: seq<string>)
    requires |ns| >= 7
    requires |gaps| == 1 + |ns| && Separates(gaps, SPACES) && AllIn(rest, SPACES)
    ensures Readable([CpuLine(ns, gaps, rest)] + lines)
    ensures Usage([CpuLine(ns, gaps, rest)] + lines) == Ok(Nanoseconds(Total(ns[..7])))
  {
    CpuLineFields(ns, gaps, rest);
    PrintedPrefix(ns, 7);
    assert CpuUsage(["cpu"] + Printed(ns)) == Ok(Nanoseconds(Total(ns[..7])));
  }

  // ----- Any "cpu" line

  lemma {:induction false} SumTicksMeans(fields: seq<string>)
    ensures SumTicks(fields) == None <==> exists w <- fields :: !(IsDecimal(w) && Value(w) <= MAX_UINT64)
  {
    if fields != [] {
      var init, last := fields[..|fields| - 1], fields[|fields| - 1];
      SumTicksMeans(init);
      ParseUintExact(last);
      assert forall w :: w in fields <==> w in init || w == last;
    }
  }

  /** What is wrong with a line: too few words, or one of its first seven counters is no unsigned number that fits. */
  lemma CpuLineErrors(words: seq<string>)
    ensures CpuUsage(words) == Err(TooFewFields) <==> |words| < 8
    ensures CpuUsage(words) == Err(BadField) <==>
            |words| >= 8 && exists w <- words[1..8] :: !(IsDecimal(w) && Value(w) <= MAX_UINT64)
  {
    if |words| >= 8 {
      SumTicksMeans(words[1..8]);
    }
  }

  /** Lines of single CPUs, or any others, in front of the first line that is exactly "cpu" do not matter, nor do lines
      behind it. */
  lemma {:induction false} FirstCpuLineDecides(before: seq<string>, line: string, behind: seq<string>)
    requires forall l <- before :: Fields(l) != [] && Fields(l)[0] != "cpu"
    requires Fields(line) != [] && Fields(line)[0] == "cpu"
    ensures Readable(before + [line] + behind) && Usage(before + [line] + behind) == CpuUsage(Fields(line))
  {
    var lines := before + [line] + behind;
    if before == [] {
      assert lines[0] == line;
    } else {
      assert before[0] in before && lines[0] == before[0];
      assert lines[1..] == before[1..] + [line] + behind;
      FirstCpuLineDecides(before[1..], line, behind);
    }
  }

  /** Without such a line the format is invalid. */
  lemma {:induction false} NoCpuLineFails(lines: seq<string>)
    requires forall l <- lines :: Fields(l) != [] && Fields(l)[0] != "cpu"
    ensures Readable(lines) && Usage(lines) == Err(NoCpuLine)
  {
    if lines != [] {
      assert lines[0] in lines;
      NoCpuLineFails(lines[1..]);
    }
  }

  /** The host CPU time of a printed file is that of the first seven counters of its "cpu" line. */
  lemma UsageOfTicks(ns: seq<uint64>, gaps: seq<string>, rest: string, before: seq<string>, behind: seq<string>)
    requires |ns| >= 7 && |gaps| == 1 + |ns| && Separates(gaps, SPACES) && AllIn(rest, SPACES)
    requires forall l <- before :: Fields(l) != [] && Fields(l)[0] != "cpu"
    ensures var lines := before + [CpuLine(ns, gaps, rest)] + behind;
      Readable(lines) && Usage(lines) == Ok(Nanoseconds(Total(ns[..7])))
  {
    CpuLineFields(ns, gaps, rest);
    FirstCpuLineDecides(before, CpuLine(ns, gaps, rest), behind);
    PrintedPrefix(ns, 7);
  }
}
