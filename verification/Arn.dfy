/** Amazon Resource Names: six colon-separated sections, of which the last may contain colons. */
module Arn {
  import opened Outcomes
  import opened Text

  datatype Name = Name(partition: string, service: string, region: string, accountID: string, resource: string)
  datatype ArnError = InvalidPrefix | InvalidSections

  const PREFIX := "arn:"
  const SECTIONS := 6

  /** All parts but the last are separator-free. */
  predicate FreeButLast(parts: seq<string>, sep: char) {
    forall i :: 0 <= i < |parts| - 1 ==> sep !in parts[i]
  }

  /** `strings.SplitN`: at most `n` parts, the last of which is what remains unsplit. */
  function SplitN(s: string, sep: char, n: nat): (parts: seq<string>)
    requires n >= 1
    ensures 1 <= |parts| <= n
    ensures Join(parts, sep) == s
    ensures FreeButLast(parts, sep)
    decreases |s|
  {
    var i := IndexOf(s, sep);
    if n == 1 || i == |s| then [s]
    else
      var rest := SplitN(s[i + 1..], sep, n - 1);
      assert ([s[..i]] + rest)[1..] == rest;
      assert s == s[..i] + [sep] + s[i + 1..];
      [s[..i]] + rest
  }

  function Count(s: string, c: char): nat {
    if s == "" then 0 else (if s[0] == c then 1 else 0) + Count(s[1..], c)
  }

  lemma {:induction false} CountFrom(s: string, c: char)
    ensures var i := IndexOf(s, c); Count(s, c) == if i == |s| then 0 else 1 + Count(s[i + 1..], c)
  {
    if s != "" && s[0] != c {
      CountFrom(s[1..], c);
      var i := IndexOf(s[1..], c);
      assert s[1..][i..] == s[i + 1..];
    }
  }

  /** Number of parts, from the number of separators. */
  lemma {:induction false} SplitNLength(s: string, sep: char, n: nat)
    requires n >= 1
    ensures |SplitN(s, sep, n)| == if Count(s, sep) + 1 < n then Count(s, sep) + 1 else n
    decreases n
  {
    CountFrom(s, sep);
    var i := IndexOf(s, sep);
    if i < |s| && n > 1 {
      SplitNLength(s[i + 1..], sep, n - 1);
    }
  }

  lemma SplitNCons(p: string, sep: char, rest: string, n: nat)
    requires sep !in p && n >= 1
    ensures SplitN(p + [sep] + rest, sep, n + 1) == [p] + SplitN(rest, sep, n)
  {
    var s := p + [sep] + rest;
    IndexOfJoin(p, sep, rest);
    assert s[..|p|] == p && s[|p| + 1..] == rest;
  }

  lemma FreeButLastTail(parts: seq<string>, sep: char)
    requires |parts| > 1 && FreeButLast(parts, sep)
    ensures sep !in parts[0] && FreeButLast(parts[1..], sep)
  {
  }

  lemma {:induction false} SplitNJoin(parts: seq<string>, sep: char)
    requires parts != [] && FreeButLast(parts, sep)
    ensures SplitN(Join(parts, sep), sep, |parts|) == parts
  {
    if |parts| > 1 {
      var rest := parts[1..];
      FreeButLastTail(parts, sep);
      SplitNJoin(rest, sep);
      SplitNCons(parts[0], sep, Join(rest, sep), |rest|);
    }
  }

  /** `parseARN`. */
  function ParseARN(s: string): Result<Name, ArnError> {
    if !(PREFIX <= s) then Err(InvalidPrefix)
    else
      var sections := SplitN(s, ':', SECTIONS);
      if |sections| != SECTIONS then Err(InvalidSections)
      else Ok(Name(sections[1], sections[2], sections[3], sections[4], sections[5]))
  }

  /** Section texts of a name, in order. */
  function Sections(n: Name): seq<string> {
    ["arn", n.partition, n.service, n.region, n.accountID, n.resource]
  }

  function FormatARN(n: Name): string {
    Join(Sections(n), ':')
  }

  predicate ColonFree(n: Name) {
    ':' !in n.partition && ':' !in n.service && ':' !in n.region && ':' !in n.accountID
  }

  /** Exactly the texts that start with "arn:" and hold at least five colons are accepted. */
  lemma AcceptedARNs(s: string)
    ensures ParseARN(s).Ok? <==> PREFIX <= s && Count(s, ':') >= 5
    ensures ParseARN(s) == Err(InvalidPrefix) <==> !(PREFIX <= s)
  {
    SplitNLength(s, ':', SECTIONS);
  }

  lemma FirstSection(s: string)
    requires PREFIX <= s
    ensures IndexOf(s, ':') == 3 && s[..3] == "arn"
  {
    assert s == "arn" + [':'] + s[4..];
    assert ':' !in "arn";
    IndexOfJoin("arn", ':', s[4..]);
  }

  /** Printing what was parsed gives the text back. */
  lemma FormatParsed(s: string)
    requires ParseARN(s).Ok?
    ensures FormatARN(ParseARN(s).value) == s
    ensures ColonFree(ParseARN(s).value)
  {
    FirstSection(s);
    var sections := SplitN(s, ':', SECTIONS);
    assert sections[0] == "arn";
    assert Sections(ParseARN(s).value) == sections;
  }

  /** Parsing what was printed gives the fields back; only the resource may contain colons. */
  lemma ParseFormatted(n: Name)
    requires ColonFree(n)
    ensures ParseARN(FormatARN(n)) == Ok(n)
  {
    var sections := Sections(n);
    assert ':' !in sections[0];
    SplitNJoin(sections, ':');
    assert FormatARN(n) == "arn" + [':'] + Join(sections[1..], ':');
    assert PREFIX <= FormatARN(n);
  }

  /** The sections of a printed name, one by one. */
  lemma FormatMeans(n: Name)
    ensures FormatARN(n)
            == "arn:" + n.partition + ":" + n.service + ":" + n.region + ":" + n.accountID + ":" + n.resource
  {
    var s := Sections(n);
    assert Join(s[5..], ':') == n.resource;
    assert s[4..][1..] == s[5..] && s[3..][1..] == s[4..] && s[2..][1..] == s[3..] && s[1..][1..] == s[2..];
    assert Join(s[4..], ':') == n.accountID + [':'] + Join(s[5..], ':');
    assert Join(s[3..], ':') == n.region + [':'] + Join(s[4..], ':');
    assert Join(s[2..], ':') == n.service + [':'] + Join(s[3..], ':');
    assert Join(s[1..], ':') == n.partition + [':'] + Join(s[2..], ':');
    assert Join(s, ':') == "arn" + [':'] + Join(s[1..], ':');
  }
}
