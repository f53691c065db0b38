/** The eight network counters of a container, and the three ways its interfaces are added up. */
module Networks {
  import opened Machine
  import opened Sums

  datatype Counters = Counters(
    rxBytes: int, rxDropped: int, rxErrors: int, rxPackets: int,
    txBytes: int, txDropped: int, txErrors: int, txPackets: int)

  const ZERO := Counters(0, 0, 0, 0, 0, 0, 0, 0)

  function Plus(a: Counters, b: Counters): Counters {
    Counters(a.rxBytes + b.rxBytes, a.rxDropped + b.rxDropped, a.rxErrors + b.rxErrors, a.rxPackets + b.rxPackets,
             a.txBytes + b.txBytes, a.txDropped + b.txDropped, a.txErrors + b.txErrors, a.txPackets + b.txPackets)
  }

  function AsUint64(c: Counters): Counters {
    Counters(Uint64(c.rxBytes), Uint64(c.rxDropped), Uint64(c.rxErrors), Uint64(c.rxPackets),
             Uint64(c.txBytes), Uint64(c.txDropped), Uint64(c.txErrors), Uint64(c.txPackets))
  }

  function AsInt64(c: Counters): Counters {
    Counters(Int64(c.rxBytes), Int64(c.rxDropped), Int64(c.rxErrors), Int64(c.rxPackets),
             Int64(c.txBytes), Int64(c.txDropped), Int64(c.txErrors), Int64(c.txPackets))
  }

  const RX_BYTES: Counters -> int := (c: Counters) => c.rxBytes
  const RX_DROPPED: Counters -> int := (c: Counters) => c.rxDropped
  const RX_ERRORS: Counters -> int := (c: Counters) => c.rxErrors
  const RX_PACKETS: Counters -> int := (c: Counters) => c.rxPackets
  const TX_BYTES: Counters -> int := (c: Counters) => c.txBytes
  const TX_DROPPED: Counters -> int := (c: Counters) => c.txDropped
  const TX_ERRORS: Counters -> int := (c: Counters) => c.txErrors
  const TX_PACKETS: Counters -> int := (c: Counters) => c.txPackets

  /** The sums without any wrap-around. */
  function ExactSum(cs: seq<Counters>): Counters {
    Counters(SumBy(cs, RX_BYTES), SumBy(cs, RX_DROPPED), SumBy(cs, RX_ERRORS), SumBy(cs, RX_PACKETS),
             SumBy(cs, TX_BYTES), SumBy(cs, TX_DROPPED), SumBy(cs, TX_ERRORS), SumBy(cs, TX_PACKETS))
  }

  lemma ExactSumSnoc(cs: seq<Counters>, c: Counters)
    ensures ExactSum(cs + [c]) == Plus(ExactSum(cs), c)
  {
    SumSnoc(cs, c, RX_BYTES);
    SumSnoc(cs, c, RX_DROPPED);
    SumSnoc(cs, c, RX_ERRORS);
    SumSnoc(cs, c, RX_PACKETS);
    SumSnoc(cs, c, TX_BYTES);
    SumSnoc(cs, c, TX_DROPPED);
    SumSnoc(cs, c, TX_ERRORS);
    SumSnoc(cs, c, TX_PACKETS);
  }

  /** `uint64` sums may wrap at every step. */
  lemma AddAsUint64(a: Counters, b: Counters)
    ensures AsUint64(Plus(AsUint64(a), b)) == AsUint64(Plus(a, b))
  {
    WrapSum(a.rxBytes, b.rxBytes);
    WrapSum(a.rxDropped, b.rxDropped);
    WrapSum(a.rxErrors, b.rxErrors);
    WrapSum(a.rxPackets, b.rxPackets);
    WrapSum(a.txBytes, b.txBytes);
    WrapSum(a.txDropped, b.txDropped);
    WrapSum(a.txErrors, b.txErrors);
    WrapSum(a.txPackets, b.txPackets);
  }

  /** `int64` sums of converted counters may wrap at every step. */
  lemma AddAsInt64(a: Counters, b: Counters)
    ensures AsInt64(Plus(AsInt64(a), AsInt64(b))) == AsInt64(Plus(a, b))
  {
    WrapSumInt64(a.rxBytes, b.rxBytes);
    WrapSumInt64(a.rxDropped, b.rxDropped);
    WrapSumInt64(a.rxErrors, b.rxErrors);
    WrapSumInt64(a.rxPackets, b.rxPackets);
    WrapSumInt64(a.txBytes, b.txBytes);
    WrapSumInt64(a.txDropped, b.txDropped);
    WrapSumInt64(a.txErrors, b.txErrors);
    WrapSumInt64(a.txPackets, b.txPackets);
  }

  /** Converting a wrapped sum is converting the sum. */
  lemma ConvertAll(a: Counters)
    ensures AsInt64(AsUint64(a)) == AsInt64(a)
  {
  }

  /** `computeNetworkStats` (Fargate): add as `uint64` in the order the range loop takes, then convert. */
  method ComputeNetworkStats(interfaces: seq<Counters>) returns (n: Counters)
    ensures n == AsInt64(ExactSum(interfaces))
  {
    n := ZERO;
    if |interfaces| > 0 {
      var total := ZERO;
      for i := 0 to |interfaces|
        invariant total == AsUint64(ExactSum(interfaces[..i]))
      {
        AddAsUint64(ExactSum(interfaces[..i]), interfaces[i]);
        ExactSumSnoc(interfaces[..i], interfaces[i]);
        assert interfaces[..i + 1] == interfaces[..i] + [interfaces[i]];
        total := AsUint64(Plus(total, interfaces[i]));
      }
      assert interfaces[..|interfaces|] == interfaces;
      ConvertAll(ExactSum(interfaces));
      n := AsInt64(total);
    }
  }

  /** `networkMetrics` (Docker API): convert each counter, then add as `int64`. */
  method NetworkMetrics(interfaces: seq<Counters>) returns (aggregated: Counters)
    ensures aggregated == AsInt64(ExactSum(interfaces))
  {
    aggregated := ZERO;
    for i := 0 to |interfaces|
      invariant aggregated == AsInt64(ExactSum(interfaces[..i]))
    {
      AddAsInt64(ExactSum(interfaces[..i]), interfaces[i]);
      ExactSumSnoc(interfaces[..i], interfaces[i]);
      assert interfaces[..i + 1] == interfaces[..i] + [interfaces[i]];
      aggregated := AsInt64(Plus(aggregated, AsInt64(interfaces[i])));
    }
    assert interfaces[..|interfaces|] == interfaces;
  }

  // ----- The order of the interfaces

  /** However Go ranges over the interfaces, the exact sums are the same, and hence both aggregates. */
  lemma InterfaceOrderIsIrrelevant(cs: seq<Counters>, ds: seq<Counters>)
    requires multiset(cs) == multiset(ds)
    ensures ExactSum(cs) == ExactSum(ds)
  {
    SumOfPermutation(cs, ds, RX_BYTES);
    SumOfPermutation(cs, ds, RX_DROPPED);
    SumOfPermutation(cs, ds, RX_ERRORS);
    SumOfPermutation(cs, ds, RX_PACKETS);
    SumOfPermutation(cs, ds, TX_BYTES);
    SumOfPermutation(cs, ds, TX_DROPPED);
    SumOfPermutation(cs, ds, TX_ERRORS);
    SumOfPermutation(cs, ds, TX_PACKETS);
  }
}

/** Reading `/proc/<pid>/net/dev`. */
module NetDev {
  import opened Machine
  import opened Outcomes
  import opened Text
  import opened Decimal
  import opened Networks

  /** All eight fields are integers. */
  predicate Numeric(words: seq<string>)
    requires |words| >= 13
  {
    && Atoi(words[1]).Some? && Atoi(words[2]).Some? && Atoi(words[3]).Some? && Atoi(words[4]).Some?
    && Atoi(words[9]).Some? && Atoi(words[10]).Some? && Atoi(words[11]).Some? && Atoi(words[12]).Some?
  }

  function CountersIn(words: seq<string>): Counters
    requires |words| >= 13 && Numeric(words)
  {
    Counters(Atoi(words[1]).value, Atoi(words[4]).value, Atoi(words[3]).value, Atoi(words[2]).value,
             Atoi(words[9]).value, Atoi(words[12]).value, Atoi(words[11]).value, Atoi(words[10]).value)
  }

  lemma CountersFit(words: seq<string>)
    requires |words| >= 13 && Numeric(words)
    ensures AsInt64(CountersIn(words)) == CountersIn(words)
  {
    Fits(Atoi(words[1]).value);
    Fits(Atoi(words[2]).value);
    Fits(Atoi(words[3]).value);
    Fits(Atoi(words[4]).value);
    Fits(Atoi(words[9]).value);
    Fits(Atoi(words[10]).value);
    Fits(Atoi(words[11]).value);
    Fits(Atoi(words[12]).value);
  }

  /** The counters of an accepted line: 13 words or more, not a loopback, and all eight fields integers. */
  function LineCounters(line: string): Option<Counters> {
    var words := Fields(line);
    if |words| >= 13 && !("lo" <= words[0]) && Numeric(words) then Some(CountersIn(words)) else None
  }

  lemma LineCountersFit(line: string)
    ensures LineCounters(line).Some? ==> AsInt64(LineCounters(line).value) == LineCounters(line).value
  {
    if LineCounters(line).Some? {
      CountersFit(Fields(line));
    }
  }

  /** The counters of the accepted lines, in order. */
  function Accepted(lines: seq<string>): seq<Counters> {
    if lines == [] then []
    else
      var n := |lines| - 1;
      match LineCounters(lines[n])
      case None => Accepted(lines[..n])
      case Some(c) => Accepted(lines[..n]) + [c]
  }

  /** The lines behind the two header lines. */
  function Body(lines: seq<string>): seq<string> {
    if |lines| < 2 then [] else lines[2..]
  }

  /** One round of the loop: the counters to add, if the line passes every check. */
  method ParseLine(line: string) returns (c: Option<Counters>)
    ensures c == LineCounters(line)
  {
    var words := Fields(line);
    if |words| < 13 {
      return None;
    }
    if "lo" <= words[0] {
      return None;
    }
    var rxBytes := Atoi(words[1]);
    if rxBytes.None? {
      return None;
    }
    var rxPackets := Atoi(words[2]);
    if rxPackets.None? {
      return None;
    }
    var rxErrors := Atoi(words[3]);
    if rxErrors.None? {
      return None;
    }
    var rxDropped := Atoi(words[4]);
    if rxDropped.None? {
      return None;
    }
    var txBytes := Atoi(words[9]);
    if txBytes.None? {
      return None;
    }
    var txPackets := Atoi(words[10]);
    if txPackets.None? {
      return None;
    }
    var txErrors := Atoi(words[11]);
    if txErrors.None? {
      return None;
    }
    var txDropped := Atoi(words[12]);
    if txDropped.None? {
      return None;
    }
    return Some(Counters(rxBytes.value, rxDropped.value, rxErrors.value, rxPackets.value,
                         txBytes.value, txDropped.value, txErrors.value, txPackets.value));
  }

  lemma AcceptLine(lines: seq<string>, c: Counters)
    requires lines != [] && LineCounters(lines[|lines| - 1]) == Some(c)
    ensures AsInt64(ExactSum(Accepted(lines)))
            == AsInt64(Plus(AsInt64(ExactSum(Accepted(lines[..|lines| - 1]))), c))
  {
    var cs := Accepted(lines[..|lines| - 1]);
    ExactSumSnoc(cs, c);
    AddAsInt64(ExactSum(cs), c);
    LineCountersFit(lines[|lines| - 1]);
  }

  /** The `int64` sums over the accepted lines. */
  function SumOf(lines: seq<string>): Counters {
    AsInt64(ExactSum(Accepted(lines)))
  }

  lemma NextLine(lines: seq<string>, i: nat)
    requires i < |lines|
    ensures SumOf(lines[..i + 1])
            == match LineCounters(lines[i])
               case None => SumOf(lines[..i])
               case Some(c) => AsInt64(Plus(SumOf(lines[..i]), c))
  {
    assert lines[..i + 1][..i] == lines[..i];
    if LineCounters(lines[i]).Some? {
      AcceptLine(lines[..i + 1], LineCounters(lines[i]).value);
    }
  }

  /** `parse`: all eight counters are sums over one and the same set of lines. */
  method Parse(lines: seq<string>) returns (network: Counters)
    ensures network == AsInt64(ExactSum(Accepted(Body(lines))))
  {
    network := ZERO;
    var body := Body(lines);
    for i := 0 to |body|
      invariant network == SumOf(body[..i])
    {
      NextLine(body, i);
      var c := ParseLine(body[i]);
      if c.Some? {
        network := AsInt64(Plus(network, c.value));
      }
    }
    assert body[..|body|] == body;
  }

  // ----- Printing interfaces and reading them back

  /** The columns of one direction, in the kernel's order: the four that are read, and those behind them. */
  datatype Direction = Direction(bytes: nat, packets: nat, errs: nat, drop: nat, others: seq<nat>) {
    function Columns(): seq<nat> {
      [bytes, packets, errs, drop] + others
    }
  }

  /** One line of the file: the name, eight receive columns and at least four transmit columns, however padded. */
  datatype Interface = Interface(name: string, rx: Direction, tx: Direction, gaps: seq<string>, rest: string) {
    predicate Valid() {
      && IsWord(name + ":", SPACES) && |rx.others| == 4
      && |gaps| == 13 + |tx.others| && Separates(gaps, SPACES) && AllIn(rest, SPACES)
    }
  }

  function Words(r: Interface): (words: seq<string>)
    ensures |words| == 9 + |r.rx.others| + |r.tx.others|
  {
    [r.name + ":"] + Printed(r.rx.Columns()) + Printed(r.tx.Columns())
  }

  function RenderInterface(r: Interface): string
    requires r.Valid()
  {
    Spaced(Words(r), r.gaps, r.rest)
  }

  /** The columns that are summed: bytes, packets, errors and drops of each direction. */
  function Columns(r: Interface): Counters {
    Counters(r.rx.bytes, r.rx.drop, r.rx.errs, r.rx.packets, r.tx.bytes, r.tx.drop, r.tx.errs, r.tx.packets)
  }

  /** What is added up: interfaces not named "lo..." whose eight summed columns all fit `int64`. */
  predicate Counts(r: Interface)
    requires r.Valid()
  {
    !("lo" <= r.name) && AsInt64(Columns(r)) == Columns(r)
  }

  lemma WordsAreWords(r: Interface)
    requires r.Valid()
    ensures Fields(RenderInterface(r)) == Words(r)
  {
    PrintedAreWords(r.rx.Columns(), SPACES);
    PrintedAreWords(r.tx.Columns(), SPACES);
    FieldsSpaced(Words(r), r.gaps, r.rest, SPACES);
  }

  lemma PrintedColumn(n: nat)
    ensures Atoi(OfNat(n)).Some? <==> Int64(n) == n
    ensures Atoi(OfNat(n)).Some? ==> Atoi(OfNat(n)).value == n
  {
    PrintedParses(n);
  }

  lemma LoopbackName(name: string)
    ensures "lo" <= name + ":" <==> "lo" <= name
  {
    var word := name + ":";
    assert |name| == 1 ==> word[1] == ':';
    assert forall k :: 0 <= k < |name| ==> word[k] == name[k];
    assert "lo" <= word <==> |word| >= 2 && word[0] == 'l' && word[1] == 'o';
    assert "lo" <= name <==> |name| >= 2 && name[0] == 'l' && name[1] == 'o';
  }

  lemma RenderedWords(r: Interface)
    requires r.Valid()
    ensures var words, rx, tx := Words(r), r.rx.Columns(), r.tx.Columns();
      && words[0] == r.name + ":"
      && (forall i :: 0 <= i < 4 ==> words[1 + i] == OfNat(rx[i]) && words[9 + i] == OfNat(tx[i]))
  {
  }

  lemma RenderedNumbers(r: Interface)
    requires r.Valid()
    ensures Numeric(Words(r)) <==> AsInt64(Columns(r)) == Columns(r)
    ensures Numeric(Words(r)) ==> CountersIn(Words(r)) == Columns(r)
  {
    RenderedWords(r);
    var words := Words(r);
    assert words[1] == OfNat(r.rx.bytes) && words[2] == OfNat(r.rx.packets);
    assert words[3] == OfNat(r.rx.errs) && words[4] == OfNat(r.rx.drop);
    assert words[9] == OfNat(r.tx.bytes) && words[10] == OfNat(r.tx.packets);
    assert words[11] == OfNat(r.tx.errs) && words[12] == OfNat(r.tx.drop);
    PrintedColumn(r.rx.bytes);
    PrintedColumn(r.rx.packets);
    PrintedColumn(r.rx.errs);
    PrintedColumn(r.rx.drop);
    PrintedColumn(r.tx.bytes);
    PrintedColumn(r.tx.packets);
    PrintedColumn(r.tx.errs);
    PrintedColumn(r.tx.drop);
  }

  lemma FitsInt64(n: nat)
    ensures Int64(n) == n <==> n <= MAX_INT64
  {
  }

  lemma ColumnsFit(r: Interface)
    ensures AsInt64(Columns(r)) == Columns(r) <==>
      && r.rx.bytes <= MAX_INT64 && r.rx.packets <= MAX_INT64 && r.rx.errs <= MAX_INT64 && r.rx.drop <= MAX_INT64
      && r.tx.bytes <= MAX_INT64 && r.tx.packets <= MAX_INT64 && r.tx.errs <= MAX_INT64 && r.tx.drop <= MAX_INT64
  {
    FitsInt64(r.rx.bytes);
    FitsInt64(r.rx.packets);
    FitsInt64(r.rx.errs);
    FitsInt64(r.rx.drop);
    FitsInt64(r.tx.bytes);
    FitsInt64(r.tx.packets);
    FitsInt64(r.tx.errs);
    FitsInt64(r.tx.drop);
  }

  /** A printed interface is read back whole or not at all. */
  lemma RenderedLine(r: Interface)
    requires r.Valid()
    ensures LineCounters(RenderInterface(r)) == if Counts(r) then Some(Columns(r)) else None
    ensures LineCounters(RenderInterface(r)).Some? <==>
      && !("lo" <= r.name)
      && r.rx.bytes <= MAX_INT64 && r.rx.packets <= MAX_INT64 && r.rx.errs <= MAX_INT64 && r.rx.drop <= MAX_INT64
      && r.tx.bytes <= MAX_INT64 && r.tx.packets <= MAX_INT64 && r.tx.errs <= MAX_INT64 && r.tx.drop <= MAX_INT64
    ensures LineCounters(RenderInterface(r)).Some? ==>
      var c := LineCounters(RenderInterface(r)).value;
      && c.rxBytes == r.rx.bytes && c.rxPackets == r.rx.packets && c.rxErrors == r.rx.errs && c.rxDropped == r.rx.drop
      && c.txBytes == r.tx.bytes && c.txPackets == r.tx.packets && c.txErrors == r.tx.errs && c.txDropped == r.tx.drop
  {
    WordsAreWords(r);
    RenderedWords(r);
    LoopbackName(r.name);
    RenderedNumbers(r);
    ColumnsFit(r);
  }

  /** Lines that are too short, or in which one of the eight columns is no integer, are not read at all. */
  lemma RejectedLine(line: string, column: nat)
    ensures |Fields(line)| < 13 ==> LineCounters(line) == None
    ensures |Fields(line)| >= 13 && column in {1, 2, 3, 4, 9, 10, 11, 12} && Atoi(Fields(line)[column]) == None ==>
      LineCounters(line) == None
  {
  }

  predicate AllValid(rs: seq<Interface>) {
    forall r <- rs :: r.Valid()
  }

  function RenderInterfaces(rs: seq<Interface>): (lines: seq<string>)
    requires AllValid(rs)
    ensures |lines| == |rs|
    ensures forall i :: 0 <= i < |rs| ==> rs[i] in rs && lines[i] == RenderInterface(rs[i])
  {
    if rs == [] then []
    else
      assert rs[|rs| - 1] in rs;
      RenderInterfaces(rs[..|rs| - 1]) + [RenderInterface(rs[|rs| - 1])]
  }

  /** The columns of the interfaces that count. */
  function Counted(rs: seq<Interface>): seq<Counters>
    requires AllValid(rs)
  {
    if rs == [] then []
    else
      var last := rs[|rs| - 1];
      assert last in rs;
      if Counts(last) then Counted(rs[..|rs| - 1]) + [Columns(last)] else Counted(rs[..|rs| - 1])
  }

  lemma {:induction false} RenderedInterfaces(rs: seq<Interface>)
    requires AllValid(rs)
    ensures Accepted(RenderInterfaces(rs)) == Counted(rs)
  {
    if rs != [] {
      var n := |rs| - 1;
      assert rs[n] in rs;
      RenderedLine(rs[n]);
      RenderedInterfaces(rs[..n]);
      assert RenderInterfaces(rs)[..n] == RenderInterfaces(rs[..n]);
    }
  }

  /** Reading a printed file gives the sums over the interfaces that count. */
  lemma RoundTrip(header: seq<string>, rs: seq<Interface>)
    requires |header| == 2 && AllValid(rs)
    ensures Accepted(Body(header + RenderInterfaces(rs))) == Counted(rs)
  {
    assert (header + RenderInterfaces(rs))[2..] == RenderInterfaces(rs);
    RenderedInterfaces(rs);
  }
}
