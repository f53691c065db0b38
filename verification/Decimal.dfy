/** Go's `strconv` for base 10 and 64 bits. */
module Decimal {
  import opened Machine
  import opened Outcomes
  import opened Text

  datatype NumError = Syntax | Range

  predicate IsDigit(c: char) {
    '0' <= c <= '9'
  }

  predicate AllDigits(s: string) {
    forall c <- s :: IsDigit(c)
  }

  /** A non-empty run of decimal digits. */
  predicate IsDecimal(s: string) {
    s != "" && AllDigits(s)
  }

  function Value(s: string): nat
    requires AllDigits(s)
  {
    if s == "" then 0
    else
      assert IsDigit(s[|s| - 1]);
      Value(s[..|s| - 1]) * 10 + (s[|s| - 1] as int - '0' as int)
  }

  /** Length of the leading run of digits. */
  function DigitRun(s: string): (n: nat)
    ensures n <= |s| && AllDigits(s[..n])
    ensures n < |s| ==> !IsDigit(s[n])
  {
    if s == "" || !IsDigit(s[0]) then 0
    else
      var m := DigitRun(s[1..]);
      assert s[..1 + m] == [s[0]] + s[1..][..m];
      1 + m
  }

  /** `strconv.ParseUint(s, 10, 64)`. The scan stops at the first digit that takes the value out of range,
      so a range error hides any bad character behind that digit. */
  function ParseUint(s: string): Result<uint64, NumError> {
    var n := DigitRun(s);
    if Value(s[..n]) > MAX_UINT64 then Err(Range)
    else if s == "" || n < |s| then Err(Syntax)
    else
      assert s == s[..n];
      Ok(Value(s[..n]))
  }

  /** `strconv.ParseInt(s, 10, 64)`: the value, also clamped when out of range, and the error. */
  function ParseInt(s: string): (int64, Option<NumError>) {
    if s == "" then (0, Some(Syntax))
    else
      var negative := s[0] == '-';
      match ParseUint(if negative || s[0] == '+' then s[1..] else s)
      case Err(Syntax) => (0, Some(Syntax))
      case Err(Range) => (if negative then MIN_INT64 else MAX_INT64, Some(Range))
      case Ok(n) =>
        if !negative && n > MAX_INT64 then (MAX_INT64, Some(Range))
        else if negative && n > MAX_INT64 + 1 then (MIN_INT64, Some(Range))
        else
          var magnitude: int := n;
          (if negative then -magnitude else magnitude, None)
  }

  /** `strconv.Atoi`; the callers never look into its error. */
  function Atoi(s: string): Option<int64> {
    var (n, err) := ParseInt(s);
    if err.None? then Some(n) else None
  }

  /** Canonical decimal digits, as the kernel prints counters. */
  function OfNat(n: nat): (s: string)
    ensures IsDecimal(s)
    ensures Value(s) == n
  {
    var last := ['0' + (n % 10) as char];
    if n < 10 then
      assert last[..0] == "";
      last
    else
      var s := OfNat(n / 10) + last;
      assert s[..|s| - 1] == OfNat(n / 10);
      s
  }

  /** Counters as printed. */
  function Printed(ns: seq<nat>): (words: seq<string>)
    ensures |words| == |ns|
    ensures forall i :: 0 <= i < |ns| ==> words[i] == OfNat(ns[i])
  {
    seq(|ns|, i requires 0 <= i < |ns| => OfNat(ns[i]))
  }

  lemma PrintedSnoc(ns: seq<nat>, n: nat)
    ensures Printed(ns + [n]) == Printed(ns) + [OfNat(n)]
  {
  }

  lemma DecimalIsWord(w: string, seps: set<char>)
    requires IsDecimal(w) && forall c <- seps :: !IsDigit(c)
    ensures IsWord(w, seps)
  {
    forall c | c in w ensures c !in seps {
      assert IsDigit(c);
    }
  }

  lemma PrintedAreWords(ns: seq<nat>, seps: set<char>)
    requires forall c <- seps :: !IsDigit(c)
    ensures forall w <- Printed(ns) :: IsWord(w, seps)
  {
    forall i | 0 <= i < |ns| ensures IsWord(Printed(ns)[i], seps) {
      DecimalIsWord(OfNat(ns[i]), seps);
    }
  }

  /** `ParseUint` accepts exactly the decimal texts in range, with their value. */
  lemma ParseUintExact(s: string)
    ensures ParseUint(s).Ok? <==> IsDecimal(s) && Value(s) <= MAX_UINT64
    ensures ParseUint(s).Ok? ==> ParseUint(s).value == Value(s)
  {
    var n := DigitRun(s);
    if AllDigits(s) {
      assert n == |s|;
      assert s[..n] == s;
    } else {
      assert n < |s|;
    }
  }

  lemma PrintedParses(n: nat)
    ensures n <= MAX_UINT64 ==> ParseUint(OfNat(n)) == Ok(n)
    ensures n > MAX_UINT64 ==> ParseUint(OfNat(n)).Err?
    ensures Atoi(OfNat(n)) == if n <= MAX_INT64 then Some(n) else None
  {
    ParseUintExact(OfNat(n));
    var s := OfNat(n);
    assert IsDigit(s[0]);
  }

  lemma PrintedUint(n: uint64)
    ensures ParseUint(OfNat(n)) == Ok(n)
  {
    PrintedParses(n);
  }

  /** `Atoi` accepts exactly the decimals with an optional sign, in range, with their signed value. */
  lemma AtoiExact(s: string)
    ensures var signed := s != "" && s[0] in {'+', '-'};
      var digits, negative := if signed then s[1..] else s, s != "" && s[0] == '-';
      && (Atoi(s).Some? <==> IsDecimal(digits) && Value(digits) <= MAX_INT64 + (if negative then 1 else 0))
      && (Atoi(s).Some? ==> var v: int := Value(digits); Atoi(s).value == if negative then -v else v)
  {
    var digits := if s != "" && s[0] in {'+', '-'} then s[1..] else s;
    ParseUintExact(digits);
  }

  /** The ten digits, and what each is worth. */
  lemma DigitsMean(c: char)
    ensures IsDigit(c) <==> c in {'0', '1', '2', '3', '4', '5', '6', '7', '8', '9'}
    ensures IsDigit(c) ==> Value([c]) == c as int - '0' as int
  {
    if IsDigit(c) {
      assert [c][..0] == "";
      assert AllDigits([c]);
    }
  }
}
