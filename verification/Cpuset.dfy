/** Finite sets of integers. */
module IntSets {
  ghost function Members(lo: int, hi: int): (s: set<int>)
    ensures forall x :: x in s <==> lo <= x <= hi
    ensures lo <= hi ==> |s| == hi - lo + 1
    decreases hi - lo + 1
  {
    if lo > hi then {} else Members(lo, hi - 1) + {hi}
  }

  lemma EmptyOrInhabited(s: set<int>)
    ensures s == {} || exists x :: x in s
  {
    if forall x :: x !in s {
      assert s == {};
    }
  }

  ghost function Min(s: set<int>): (m: int)
    requires s != {}
    ensures m in s && forall x <- s :: m <= x
  {
    EmptyOrInhabited(s);
    var x :| x in s;
    if s == {x} then x
    else
      assert s == {x} + (s - {x});
      var m := Min(s - {x});
      if x < m then x else m
  }

  ghost function Above(s: set<int>, a: int): set<int> {
    set x | x in s && x > a
  }

  /** Last element of the run of consecutive elements that starts at `a`. */
  ghost function RunEnd(s: set<int>, a: int): (b: int)
    requires a in s
    ensures a <= b && b + 1 !in s
    ensures Members(a, b) <= s
    decreases |Above(s, a)|
  {
    if a + 1 in s then
      assert Above(s, a) == Above(s, a + 1) + {a + 1};
      RunEnd(s, a + 1)
    else a
  }

  lemma BoundedSize(s: set<int>, n: int)
    requires n >= 0 && forall x <- s :: 0 <= x <= n
    ensures |s| <= n + 1
  {
    var all := Members(0, n);
    assert all == s + (all - s);
  }
}

/** Counting the CPUs of a cpuset list such as "0-4,8,10,12-16". */
module Cpuset {
  import opened Machine
  import opened Outcomes
  import opened Text
  import opened Decimal
  import opened IntSets

  datatype Interval = Interval(lo: int, hi: int) {
    function Width(): int {
      hi - lo + 1
    }

    predicate Overlaps(other: Interval) {
      lo <= other.hi && other.lo <= hi
    }
  }

  predicate NonEmpty(ivs: seq<Interval>) {
    forall iv <- ivs :: iv.lo <= iv.hi
  }

  // ----- The accepted texts and what they denote

  /** One element of the list: a number, or two numbers in strictly ascending order. */
  function ParseInterval(text: string): (iv: Option<Interval>)
    ensures iv.Some? ==> iv.value.lo <= iv.value.hi
  {
    var limits := Split(text, '-');
    if |limits| == 1 then
      var n := Atoi(limits[0]);
      if n.Some? then Some(Interval(n.value, n.value)) else None
    else if |limits| == 2 then
      var lo, hi := Atoi(limits[0]), Atoi(limits[1]);
      if lo.Some? && hi.Some? && lo.value < hi.value then Some(Interval(lo.value, hi.value)) else None
    else None
  }

  function ParseIntervals(texts: seq<string>): (ivs: Option<seq<Interval>>)
    ensures ivs.Some? ==> NonEmpty(ivs.value)
  {
    if texts == [] then Some([])
    else
      var iv, rest := ParseInterval(texts[0]), ParseIntervals(texts[1..]);
      if iv.Some? && rest.Some? then Some([iv.value] + rest.value) else None
  }

  function ParseCpuset(info: string): (ivs: Option<seq<Interval>>)
    ensures ivs.Some? ==> NonEmpty(ivs.value)
  {
    if info == "" then None else ParseIntervals(Split(info, ','))
  }

  function TotalWidth(ivs: seq<Interval>): int {
    if ivs == [] then 0 else ivs[0].Width() + TotalWidth(ivs[1..])
  }

  /** The count after one more interval. */
  function Added(count: uint64, iv: Interval): uint64 {
    Uint64(count + Uint64(iv.Width()))
  }

  /** The interval widths added to a count, in `uint64` arithmetic. */
  function CountOf(count: uint64, ivs: seq<Interval>): uint64 {
    Uint64(count + TotalWidth(ivs))
  }

  /** The count after the remaining elements; `None` for a rejected list. */
  function CountFrom(count: uint64, texts: seq<string>): Option<uint64> {
    var ivs := ParseIntervals(texts);
    if ivs.None? then None else Some(CountOf(count, ivs.value))
  }

  /** The counted number of CPUs: the sum of the interval widths, in `uint64` arithmetic; `None` for a rejected text. */
  function CpusetCount(info: string): Option<uint64> {
    var ivs := ParseCpuset(info);
    if ivs.None? then None else Some(Uint64(TotalWidth(ivs.value)))
  }

  lemma CountFromNothing(info: string)
    requires info != ""
    ensures CountFrom(0, Split(info, ',')) == CpusetCount(info)
  {
  }

  lemma CountFromEnd(count: uint64)
    ensures CountFrom(count, []) == Some(count)
  {
  }

  lemma WrappedWidth(lo: int, hi: int)
    ensures Uint64(Int64(hi - lo + 1)) == Uint64(Interval(lo, hi).Width())
  {
  }

  /** The loop body: how much one interval adds to the count. */
  method CountInterval(interval: string) returns (width: Option<uint64>)
    ensures width == match ParseInterval(interval) case None => None case Some(iv) => Some(Uint64(iv.Width()))
  {
    var limits := Split(interval, '-');
    if |limits| == 1 {
      if Atoi(limits[0]).None? {
        return None;
      }
      return Some(1);
    } else if |limits| == 2 {
      var lowerLimit := Atoi(limits[0]);
      if lowerLimit.None? {
        return None;
      }
      var upperLimit := Atoi(limits[1]);
      if upperLimit.None? {
        return None;
      }
      if lowerLimit.value >= upperLimit.value {
        return None;
      }
      var lower: int, upper: int := lowerLimit.value, upperLimit.value;
      WrappedWidth(lower, upper);
      return Some(Uint64(Int64(upper - lower + 1)));
    } else {
      return None;
    }
  }

  lemma CountCons(count: uint64, iv: Interval, rest: seq<Interval>)
    ensures CountOf(Added(count, iv), rest) == CountOf(count, [iv] + rest)
  {
    assert ([iv] + rest)[1..] == rest;
    WrapSum(iv.Width(), count);
    WrapSum(count + iv.Width(), TotalWidth(rest));
  }

  lemma CountStep(count: uint64, texts: seq<string>)
    requires texts != []
    ensures ParseInterval(texts[0]) == None ==> CountFrom(count, texts) == None
    ensures ParseInterval(texts[0]).Some? ==>
      CountFrom(Added(count, ParseInterval(texts[0]).value), texts[1..]) == CountFrom(count, texts)
  {
    var iv, rest := ParseInterval(texts[0]), ParseIntervals(texts[1..]);
    if iv.Some? && rest.Some? {
      CountCons(count, iv.value, rest.value);
    }
  }

  /** `countCpusetCPUs` on every text: which are accepted, and the sum of the widths. */
  method CountCpusetCPUs(info: string) returns (r: Option<uint64>)
    ensures r == CpusetCount(info)
  {
    var numCPUs: uint64 := 0;
    if info == "" {
      return None;
    }
    var intervals := Split(info, ',');
    ghost var total := CountFrom(0, intervals);
    CountFromNothing(info);
    assert intervals[0..] == intervals;
    for i := 0 to |intervals|
      invariant CountFrom(numCPUs, intervals[i..]) == total
    {
      assert intervals[i..][0] == intervals[i] && intervals[i..][1..] == intervals[i + 1..];
      CountStep(numCPUs, intervals[i..]);
      var width := CountInterval(intervals[i]);
      if width.None? {
        return None;
      }
      numCPUs := Uint64(numCPUs + width.value);
    }
    assert intervals[|intervals|..] == [];
    CountFromEnd(numCPUs);
    return Some(numCPUs);
  }

  // ----- Widths and cardinality

  /** The CPU numbers an interval list denotes. */
  ghost function Denoted(ivs: seq<Interval>): set<int> {
    if ivs == [] then {} else Members(ivs[0].lo, ivs[0].hi) + Denoted(ivs[1..])
  }

  predicate PairwiseDisjoint(ivs: seq<Interval>) {
    forall i, j :: 0 <= i < j < |ivs| ==> !ivs[i].Overlaps(ivs[j])
  }

  lemma OverlapMeans(a: Interval, b: Interval)
    requires a.lo <= a.hi && b.lo <= b.hi
    ensures Members(a.lo, a.hi) * Members(b.lo, b.hi) != {} <==> a.Overlaps(b)
  {
    var common := Members(a.lo, a.hi) * Members(b.lo, b.hi);
    if a.Overlaps(b) {
      assert (if a.lo <= b.lo then b.lo else a.lo) in common;
    } else {
      assert forall x :: x !in common;
    }
  }

  predicate ClearOf(iv: Interval, rest: seq<Interval>) {
    forall j :: 0 <= j < |rest| ==> !iv.Overlaps(rest[j])
  }

  lemma ClearCons(iv: Interval, rest: seq<Interval>)
    requires rest != []
    ensures ClearOf(iv, rest) <==> !iv.Overlaps(rest[0]) && ClearOf(iv, rest[1..])
  {
  }

  lemma {:induction false} DisjointFromRest(iv: Interval, rest: seq<Interval>)
    requires iv.lo <= iv.hi && NonEmpty(rest)
    ensures Members(iv.lo, iv.hi) * Denoted(rest) == {} <==> ClearOf(iv, rest)
  {
    var a := Members(iv.lo, iv.hi);
    if rest == [] {
      assert a * Denoted(rest) == {};
    } else {
      var b, c := Members(rest[0].lo, rest[0].hi), Denoted(rest[1..]);
      DisjointFromRest(iv, rest[1..]);
      OverlapMeans(iv, rest[0]);
      assert a * (b + c) == a * b + a * c;
      assert a * b + a * c == {} <==> a * b == {} && a * c == {};
      ClearCons(iv, rest);
    }
  }

  lemma SplitPairs(iv: Interval, rest: seq<Interval>)
    ensures PairwiseDisjoint([iv] + rest) <==>
            PairwiseDisjoint(rest) && ClearOf(iv, rest)
  {
    var ivs := [iv] + rest;
    assert forall j :: 0 <= j < |rest| ==> rest[j] == ivs[j + 1];
    if PairwiseDisjoint(ivs) {
      forall j | 0 <= j < |rest| ensures !iv.Overlaps(rest[j]) {
        assert !ivs[0].Overlaps(ivs[j + 1]);
      }
    }
  }

  /** The summed widths bound the number of CPUs denoted, and are exact precisely on disjoint intervals. */
  lemma {:induction false} WidthsBoundCardinality(ivs: seq<Interval>)
    requires NonEmpty(ivs)
    ensures |Denoted(ivs)| <= TotalWidth(ivs)
    ensures |Denoted(ivs)| == TotalWidth(ivs) <==> PairwiseDisjoint(ivs)
  {
    if ivs != [] {
      var iv, rest := ivs[0], ivs[1..];
      WidthsBoundCardinality(rest);
      DisjointFromRest(iv, rest);
      var a, b := Members(iv.lo, iv.hi), Denoted(rest);
      assert |a + b| == |a| + |b| - |a * b|;
      assert a * b != {} ==> |a * b| > 0;
      SplitPairs(iv, rest);
      assert ivs == [iv] + rest;
    }
  }

  /** The count of an accepted text whose widths fit `uint64`: at least the number of CPUs denoted,
      and that number exactly when no two intervals overlap. */
  lemma CountBoundsCardinality(info: string)
    requires ParseCpuset(info).Some? && TotalWidth(ParseCpuset(info).value) <= MAX_UINT64
    ensures var ivs := ParseCpuset(info).value;
      && CpusetCount(info) == Some(TotalWidth(ivs))
      && CpusetCount(info).value >= |Denoted(ivs)|
      && (CpusetCount(info).value == |Denoted(ivs)| <==> PairwiseDisjoint(ivs))
  {
    WidthsBoundCardinality(ParseCpuset(info).value);
    Fits(TotalWidth(ParseCpuset(info).value));
  }

  // ----- Printing a set in list format: its maximal runs in ascending order

  ghost function Runs(s: set<int>): (ivs: seq<Interval>)
    ensures NonEmpty(ivs)
    ensures forall iv <- ivs :: iv.lo in s && iv.hi in s
    ensures s != {} ==> ivs != []
    decreases |s|
  {
    if s == {} then []
    else
      var a := Min(s);
      var b := RunEnd(s, a);
      assert a in Members(a, b) && b in Members(a, b);
      [Interval(a, b)] + Runs(s - Members(a, b))
  }

  lemma {:induction false} RunsDenote(s: set<int>)
    ensures Denoted(Runs(s)) == s
    ensures PairwiseDisjoint(Runs(s))
    decreases |s|
  {
    if s != {} {
      var a := Min(s);
      var b := RunEnd(s, a);
      var rest := s - Members(a, b);
      assert a in Members(a, b);
      RunsDenote(rest);
      assert Runs(s) == [Interval(a, b)] + Runs(rest);
      assert Runs(s)[1..] == Runs(rest);
      DisjointFromRest(Interval(a, b), Runs(rest));
      SplitPairs(Interval(a, b), Runs(rest));
    }
  }

  function FormatInterval(iv: Interval): string
    requires 0 <= iv.lo <= iv.hi
  {
    if iv.lo == iv.hi then OfNat(iv.lo) else OfNat(iv.lo) + ['-'] + OfNat(iv.hi)
  }

  predicate Printable(ivs: seq<Interval>) {
    forall iv <- ivs :: 0 <= iv.lo <= iv.hi <= MAX_INT64
  }

  function FormatIntervals(ivs: seq<Interval>): (texts: seq<string>)
    requires Printable(ivs)
    ensures |texts| == |ivs|
  {
    if ivs == [] then [] else [FormatInterval(ivs[0])] + FormatIntervals(ivs[1..])
  }

  predicate InRange(s: set<int>) {
    forall x <- s :: 0 <= x <= MAX_INT64
  }

  /** The kernel's list format of a CPU set. */
  ghost function FormatCpuset(s: set<int>): string
    requires InRange(s)
  {
    Join(FormatIntervals(Runs(s)), ',')
  }

  lemma NotInDecimal(s: string, c: char)
    requires AllDigits(s) && !IsDigit(c)
    ensures c !in s
  {
  }

  lemma SplitOne(s: string, sep: char)
    requires sep !in s
    ensures Split(s, sep) == [s]
  {
  }

  lemma PrintedNumber(n: int)
    requires 0 <= n <= MAX_INT64
    ensures Atoi(OfNat(n)) == Some(n)
    ensures Split(OfNat(n), '-') == [OfNat(n)]
    ensures '-' !in OfNat(n) && ',' !in OfNat(n) && OfNat(n) != ""
  {
    PrintedParses(n);
    NotInDecimal(OfNat(n), '-');
    NotInDecimal(OfNat(n), ',');
    SplitOne(OfNat(n), '-');
  }

  lemma FormattedIntervalParses(iv: Interval)
    requires 0 <= iv.lo <= iv.hi <= MAX_INT64
    ensures ParseInterval(FormatInterval(iv)) == Some(iv)
    ensures ',' !in FormatInterval(iv) && FormatInterval(iv) != ""
  {
    PrintedNumber(iv.lo);
    PrintedNumber(iv.hi);
    if iv.lo < iv.hi {
      SplitCons(OfNat(iv.lo), '-', OfNat(iv.hi));
      assert Split(FormatInterval(iv), '-') == [OfNat(iv.lo), OfNat(iv.hi)];
    }
  }

  lemma FormatCons(ivs: seq<Interval>)
    requires Printable(ivs) && ivs != []
    ensures 0 <= ivs[0].lo <= ivs[0].hi <= MAX_INT64 && Printable(ivs[1..])
    ensures FormatIntervals(ivs) == [FormatInterval(ivs[0])] + FormatIntervals(ivs[1..])
  {
  }

  lemma {:induction false} FormattedIntervalsParse(ivs: seq<Interval>)
    requires Printable(ivs)
    ensures ParseIntervals(FormatIntervals(ivs)) == Some(ivs)
  {
    if ivs != [] {
      FormatCons(ivs);
      FormattedIntervalsParse(ivs[1..]);
      FormattedIntervalParses(ivs[0]);
      assert FormatIntervals(ivs)[1..] == FormatIntervals(ivs[1..]);
      assert ivs == [ivs[0]] + ivs[1..];
    }
  }

  lemma {:induction false} FormattedIntervalsFree(ivs: seq<Interval>)
    requires Printable(ivs)
    ensures Free(FormatIntervals(ivs), ',')
  {
    if ivs != [] {
      FormatCons(ivs);
      FormattedIntervalsFree(ivs[1..]);
      FormattedIntervalParses(ivs[0]);
    }
  }

  lemma PrintedIntervalsParse(ivs: seq<Interval>)
    requires ivs != [] && Printable(ivs)
    ensures ParseCpuset(Join(FormatIntervals(ivs), ',')) == Some(ivs)
  {
    FormattedIntervalsParse(ivs);
    FormattedIntervalsFree(ivs);
    SplitJoin(FormatIntervals(ivs), ',');
    FormattedIntervalParses(ivs[0]);
    assert FormatIntervals(ivs)[0] != "";
  }

  lemma PrintedSetParses(s: set<int>)
    requires s != {} && InRange(s)
    ensures ParseCpuset(FormatCpuset(s)) == Some(Runs(s))
  {
    PrintedIntervalsParse(Runs(s));
  }

  lemma RunsCover(s: set<int>)
    ensures TotalWidth(Runs(s)) == |s|
  {
  }

  /** Printing a set of CPU numbers gives an accepted text for that very set, and counting it the set's cardinality. */
  lemma CountOfPrintedSet(s: set<int>)
    requires s != {} && InRange(s)
    ensures ParseCpuset(FormatCpuset(s)).Some? && Denoted(ParseCpuset(FormatCpuset(s)).value) == s
    ensures CpusetCount(FormatCpuset(s)) == Some(|s|)
  {
    PrintedSetParses(s);
    RunsDenote(s);
    RunsCover(s);
    BoundedSize(s, MAX_INT64);
    Fits(|s|);
  }

  /** Any printed intervals are counted by their widths, overlapping or not. */
  lemma CountOfPrintedIntervals(ivs: seq<Interval>)
    requires ivs != [] && Printable(ivs)
    ensures CpusetCount(Join(FormatIntervals(ivs), ',')) == Some(Uint64(TotalWidth(ivs)))
  {
    PrintedIntervalsParse(ivs);
  }

  /** "0-9223372036854775807,0", or any other text for these two intervals, is counted to 2^63 + 1. */
  lemma CountBeyondInt64(text: string, ivs: seq<Interval>)
    requires |ivs| == 2 && ivs[0] == Interval(0, MAX_INT64) && ivs[1] == Interval(0, 0)
    requires ParseCpuset(text) == Some(ivs)
    ensures CpusetCount(text) == Some(0x8000_0000_0000_0001)
  {
    assert ivs[1..][0] == ivs[1] && ivs[1..][1..] == [];
    assert TotalWidth(ivs[1..]) == ivs[1].Width() + TotalWidth(ivs[1..][1..]);
  }

  // ----- The accepted elements

  predicate Joins(text: string, lo: string, hi: string) {
    text == lo + ['-'] + hi && '-' !in lo && '-' !in hi
  }

  lemma JoinedSplits(text: string, lo: string, hi: string)
    ensures Joins(text, lo, hi) <==> Split(text, '-') == [lo, hi]
  {
    var parts := Split(text, '-');
    if |parts| == 2 {
      assert Join(parts, '-') == parts[0] + ['-'] + parts[1];
      assert parts[0] in parts && parts[1] in parts;
    }
    if Joins(text, lo, hi) {
      SplitCons(lo, '-', hi);
      SplitOne(hi, '-');
    }
  }

  lemma SingleSplits(text: string)
    ensures '-' !in text <==> |Split(text, '-')| == 1
    ensures |Split(text, '-')| == 1 ==> Split(text, '-')[0] == text
  {
    SplitCounts(text, '-');
  }

  /** An element is one number, or two numbers in strictly ascending order joined by a minus sign, neither with one of
      its own. */
  lemma IntervalMeans(text: string, iv: Interval)
    ensures ParseInterval(text) == Some(iv) <==>
      || (iv.lo == iv.hi && '-' !in text && Atoi(text) == Some(iv.lo))
      || (iv.lo < iv.hi && exists lo, hi :: Joins(text, lo, hi) && Atoi(lo) == Some(iv.lo) && Atoi(hi) == Some(iv.hi))
  {
    var limits := Split(text, '-');
    SingleSplits(text);
    forall lo, hi
      ensures Joins(text, lo, hi) <==> limits == [lo, hi]
    {
      JoinedSplits(text, lo, hi);
    }
    if |limits| == 2 {
      assert limits == [limits[0], limits[1]];
    }
  }

  lemma {:induction false} ElementsMean(texts: seq<string>, ivs: seq<Interval>)
    ensures ParseIntervals(texts) == Some(ivs) <==>
      |ivs| == |texts| && forall i :: 0 <= i < |ivs| ==> ParseInterval(texts[i]) == Some(ivs[i])
  {
    if texts != [] {
      if ivs != [] {
        ElementsMean(texts[1..], ivs[1..]);
        assert ivs == [ivs[0]] + ivs[1..];
        assert forall i :: 1 <= i < |texts| ==> texts[i] == texts[1..][i - 1];
        assert forall i :: 1 <= i < |ivs| ==> ivs[i] == ivs[1..][i - 1];
      }
    }
  }

  /** A list is accepted exactly if it is not empty and all its elements are, and it denotes what they do, in order. */
  lemma ListMeans(texts: seq<string>, ivs: seq<Interval>)
    requires texts != [] && Free(texts, ',') && Join(texts, ',') != ""
    ensures ParseCpuset(Join(texts, ',')) == Some(ivs) <==>
      |ivs| == |texts| && forall i :: 0 <= i < |ivs| ==> ParseInterval(texts[i]) == Some(ivs[i])
    ensures ParseCpuset("") == None
  {
    SplitJoin(texts, ',');
    ElementsMean(texts, ivs);
  }
}
