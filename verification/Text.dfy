/** The string functions of Go's standard library that the parsers call, on ASCII text. */
module Text {
  const SPACES: set<char> := {' ', '\t', '\n', '\r', '\U{B}', '\U{C}'}

  /** The six white-space characters of ASCII: the codes 9 to 13 and the blank. */
  lemma SpacesMean(c: char)
    ensures c in SPACES <==> c == ' ' || 9 <= c as int <= 13
  {
  }

  /** Index of the first `sep`, or the length. */
  function IndexOf(s: string, sep: char): (i: nat)
    ensures i <= |s|
    ensures forall k :: 0 <= k < i ==> s[k] != sep
    ensures i < |s| ==> s[i] == sep
  {
    if s == "" || s[0] == sep then 0 else 1 + IndexOf(s[1..], sep)
  }

  lemma IndexOfJoin(p: string, sep: char, rest: string)
    requires sep !in p
    ensures IndexOf(p + [sep] + rest, sep) == |p|
  {
    var s := p + [sep] + rest;
    assert s[|p|] == sep;
    assert forall k :: 0 <= k < |p| ==> s[k] == p[k];
  }

  /** `strings.Join`, for a one-character separator. */
  function Join(parts: seq<string>, sep: char): string {
    if parts == [] then ""
    else if |parts| == 1 then parts[0]
    else parts[0] + [sep] + Join(parts[1..], sep)
  }

  predicate Free(parts: seq<string>, sep: char) {
    forall p <- parts :: sep !in p
  }

  /** `strings.Split`, for a one-character separator. */
  function Split(s: string, sep: char): (parts: seq<string>)
    ensures parts != []
    ensures Free(parts, sep)
    ensures Join(parts, sep) == s
    decreases |s|
  {
    var i := IndexOf(s, sep);
    if i == |s| then [s]
    else
      var rest := Split(s[i + 1..], sep);
      assert s == s[..i] + [sep] + s[i + 1..];
      assert ([s[..i]] + rest)[1..] == rest;
      [s[..i]] + rest
  }

  lemma SplitCons(p: string, sep: char, rest: string)
    requires sep !in p
    ensures Split(p + [sep] + rest, sep) == [p] + Split(rest, sep)
  {
    var s := p + [sep] + rest;
    IndexOfJoin(p, sep, rest);
    assert s[..|p|] == p;
    assert s[|p| + 1..] == rest;
  }

  /** Splitting undoes joining: the split of a text is its only decomposition into separator-free parts. */
  lemma {:induction false} SplitJoin(parts: seq<string>, sep: char)
    requires parts != [] && Free(parts, sep)
    ensures Split(Join(parts, sep), sep) == parts
  {
    if |parts| > 1 {
      SplitJoin(parts[1..], sep);
      SplitCons(parts[0], sep, Join(parts[1..], sep));
      assert parts == [parts[0]] + parts[1..];
    } else {
      assert sep !in parts[0];
      assert parts == [parts[0]];
    }
  }

  /** One part more than there are separators. */
  lemma {:induction false} SplitCounts(s: string, sep: char)
    ensures |Split(s, sep)| == 1 + multiset(s)[sep]
    decreases |s|
  {
    var i := IndexOf(s, sep);
    if i < |s| {
      assert s == s[..i] + ([sep] + s[i + 1..]);
      assert multiset(s) == multiset(s[..i]) + (multiset{sep} + multiset(s[i + 1..]));
      assert sep !in s[..i];
      SplitCounts(s[i + 1..], sep);
    } else {
      assert sep !in s;
    }
  }

  lemma {:induction false} JoinConcat(a: seq<string>, b: seq<string>, sep: char)
    requires a != [] && b != []
    ensures Join(a + b, sep) == Join(a, sep) + [sep] + Join(b, sep)
  {
    assert (a + b)[1..] == a[1..] + b;
    if |a| > 1 {
      JoinConcat(a[1..], b, sep);
    }
  }

  /** A separator cuts a text into two that split on their own. */
  lemma SplitConcat(a: string, sep: char, b: string)
    ensures Split(a + [sep] + b, sep) == Split(a, sep) + Split(b, sep)
  {
    JoinConcat(Split(a, sep), Split(b, sep), sep);
    SplitJoin(Split(a, sep) + Split(b, sep), sep);
  }

  /** Length of the leading run of characters outside `seps`. */
  function WordLength(s: string, seps: set<char>): (n: nat)
    ensures n <= |s|
    ensures forall k :: 0 <= k < n ==> s[k] !in seps
    ensures n < |s| ==> s[n] in seps
  {
    if s == "" || s[0] in seps then 0 else 1 + WordLength(s[1..], seps)
  }

  predicate IsWord(w: string, seps: set<char>) {
    w != "" && forall c <- w :: c !in seps
  }

  /** `strings.FieldsFunc`: the maximal non-empty runs of characters outside `seps`. */
  function FieldsBy(s: string, seps: set<char>): (words: seq<string>)
    ensures forall w <- words :: IsWord(w, seps)
    decreases |s|
  {
    if s == "" then []
    else if s[0] in seps then FieldsBy(s[1..], seps)
    else
      var n := WordLength(s, seps);
      [s[..n]] + FieldsBy(s[n..], seps)
  }

  /** `strings.Fields`, and the words of `bufio.ScanWords`. */
  function Fields(s: string): seq<string> {
    FieldsBy(s, SPACES)
  }

  lemma WordLengthOf(w: string, rest: string, seps: set<char>)
    requires IsWord(w, seps)
    requires rest == "" || rest[0] in seps
    ensures WordLength(w + rest, seps) == |w|
  {
    var s := w + rest;
    assert forall k :: 0 <= k < |w| ==> s[k] == w[k];
    assert rest != "" ==> s[|w|] == rest[0];
  }

  lemma FieldsBehindWord(w: string, s: string, seps: set<char>)
    requires IsWord(w, seps)
    requires s == "" || s[0] in seps
    ensures FieldsBy(w + s, seps) == [w] + FieldsBy(s, seps)
  {
    WordLengthOf(w, s, seps);
    assert (w + s)[..|w|] == w && (w + s)[|w|..] == s;
  }

  /** A word in front of a separator is the first field, and of any text after it the fields follow. */
  lemma FieldsCons(w: string, sep: char, rest: string, seps: set<char>)
    requires IsWord(w, seps) && sep in seps
    ensures FieldsBy(w + [sep] + rest, seps) == [w] + FieldsBy(rest, seps)
  {
    assert w + [sep] + rest == w + ([sep] + rest);
    FieldsBehindWord(w, [sep] + rest, seps);
    assert ([sep] + rest)[1..] == rest;
  }

  lemma FieldsOne(w: string, seps: set<char>)
    requires IsWord(w, seps)
    ensures FieldsBy(w, seps) == [w]
  {
    assert w + "" == w;
    FieldsBehindWord(w, "", seps);
  }

  predicate AllIn(s: string, seps: set<char>) {
    forall c <- s :: c in seps
  }

  /** Separators in front of each word, which may be missing only in front of the first. */
  predicate Separates(gaps: seq<string>, seps: set<char>) {
    (forall g <- gaps :: AllIn(g, seps)) && forall i :: 1 <= i < |gaps| ==> gaps[i] != ""
  }

  /** A text laid out as words with gaps in front of them and a rest behind the last. */
  function Spaced(words: seq<string>, gaps: seq<string>, rest: string): string
    requires |gaps| == |words|
  {
    if words == [] then rest else gaps[0] + (words[0] + Spaced(words[1..], gaps[1..], rest))
  }

  lemma {:induction false} FieldsBehindGap(gap: string, s: string, seps: set<char>)
    requires AllIn(gap, seps)
    ensures FieldsBy(gap + s, seps) == FieldsBy(s, seps)
  {
    if gap == "" {
      assert gap + s == s;
    } else {
      assert (gap + s)[0] == gap[0] && (gap + s)[1..] == gap[1..] + s;
      assert gap[0] in gap && forall c <- gap[1..] :: c in gap;
      FieldsBehindGap(gap[1..], s, seps);
    }
  }

  /** However words are padded and laid out, splitting into fields gives them back. */
  lemma {:induction false} FieldsSpaced(words: seq<string>, gaps: seq<string>, rest: string, seps: set<char>)
    requires |gaps| == |words| && Separates(gaps, seps) && AllIn(rest, seps)
    requires forall w <- words :: IsWord(w, seps)
    ensures FieldsBy(Spaced(words, gaps, rest), seps) == words
  {
    if words == [] {
      FieldsBehindGap(rest, "", seps);
      assert rest + "" == rest;
    } else {
      var behind := Spaced(words[1..], gaps[1..], rest);
      assert gaps[0] in gaps && words[0] in words;
      assert forall g <- gaps[1..] :: g in gaps;
      FieldsSpaced(words[1..], gaps[1..], rest, seps);
      if |words| > 1 {
        assert behind[0] == gaps[1][0] && gaps[1] in gaps;
      }
      FieldsBehindGap(gaps[0], words[0] + behind, seps);
      FieldsBehindWord(words[0], behind, seps);
      assert words == [words[0]] + words[1..];
    }
  }

  lemma WiderGap(c: char, gaps: seq<string>, seps: set<char>)
    requires c in seps && gaps != [] && Separates(gaps, seps)
    ensures Separates([[c] + gaps[0]] + gaps[1..], seps)
  {
    assert gaps[0] in gaps;
    assert forall g <- gaps[1..] :: g in gaps;
    assert AllIn([c] + gaps[0], seps);
  }

  lemma NoGap(gaps: seq<string>, seps: set<char>)
    requires Separates(gaps, seps) && (gaps == [] || gaps[0] != "")
    ensures Separates([""] + gaps, seps)
  {
  }

  /** And every text is its fields, laid out in some way. */
  lemma {:induction false} TextIsSpaced(s: string, seps: set<char>) returns (gaps: seq<string>, rest: string)
    ensures |gaps| == |FieldsBy(s, seps)| && Separates(gaps, seps) && AllIn(rest, seps)
    ensures s == Spaced(FieldsBy(s, seps), gaps, rest)
    ensures s != "" && s[0] in seps && gaps != [] ==> gaps[0] != ""
    decreases |s|
  {
    if s == "" {
      gaps, rest := [], "";
    } else if s[0] in seps {
      gaps, rest := TextIsSpaced(s[1..], seps);
      assert s == [s[0]] + s[1..];
      if gaps == [] {
        rest := [s[0]] + rest;
      } else {
        WiderGap(s[0], gaps, seps);
        gaps := [[s[0]] + gaps[0]] + gaps[1..];
      }
    } else {
      var n := WordLength(s, seps);
      gaps, rest := TextIsSpaced(s[n..], seps);
      assert s == s[..n] + s[n..];
      ghost var words := FieldsBy(s, seps);
      assert words[0] == s[..n] && words[1..] == FieldsBy(s[n..], seps);
      NoGap(gaps, seps);
      gaps := [""] + gaps;
      assert Spaced(words, gaps, rest) == "" + (words[0] + Spaced(words[1..], gaps[1..], rest));
    }
  }

  function TrimLeft(s: string): string {
    if s == "" || s[0] !in SPACES then s else TrimLeft(s[1..])
  }

  function TrimRight(s: string): string {
    if s == "" || s[|s| - 1] !in SPACES then s else TrimRight(s[..|s| - 1])
  }

  /** `strings.TrimSpace`. */
  function TrimSpace(s: string): string {
    TrimRight(TrimLeft(s))
  }

  lemma {:induction false} TrimLeftPadding(pad: string, s: string)
    requires AllIn(pad, SPACES) && (s == "" || s[0] !in SPACES)
    ensures TrimLeft(pad + s) == s
  {
    if pad == "" {
      assert pad + s == s;
    } else {
      assert (pad + s)[1..] == pad[1..] + s;
      assert pad[0] in pad && forall c <- pad[1..] :: c in pad;
      TrimLeftPadding(pad[1..], s);
    }
  }

  lemma {:induction false} TrimRightPadding(s: string, pad: string)
    requires AllIn(pad, SPACES) && (s == "" || s[|s| - 1] !in SPACES)
    ensures TrimRight(s + pad) == s
  {
    if pad == "" {
      assert s + pad == s;
    } else {
      var n := |pad| - 1;
      assert (s + pad)[..|s| + n] == s + pad[..n];
      assert pad[n] in pad && forall c <- pad[..n] :: c in pad;
      TrimRightPadding(s, pad[..n]);
    }
  }

  /** Trimming takes away exactly the white space around a text; nothing is left of white space alone. */
  lemma TrimPadding(before: string, s: string, after: string)
    requires AllIn(before, SPACES) && AllIn(after, SPACES)
    requires s == "" || (s[0] !in SPACES && s[|s| - 1] !in SPACES)
    ensures TrimSpace(before + s + after) == s
  {
    if s == "" {
      assert before + s + after == (before + after) + "";
      TrimLeftPadding(before + after, "");
    } else {
      assert before + s + after == before + (s + after);
      TrimLeftPadding(before, s + after);
      TrimRightPadding(s, after);
    }
  }

  /** `strings.ToLower`. */
  function ToLower(s: string): (r: string)
    ensures |r| == |s|
    ensures forall i :: 0 <= i < |s| ==>
      if 'A' <= s[i] <= 'Z' then r[i] as int == s[i] as int - 'A' as int + 'a' as int else r[i] == s[i]
  {
    seq(|s|, i requires 0 <= i < |s| => if 'A' <= s[i] <= 'Z' then s[i] + 32 as char else s[i])
  }

  /** The character is this one, or its capital letter. */
  predicate SameLetter(c: char, lower: char) {
    c == lower || ('a' <= lower <= 'z' && c as int - 'A' as int == lower as int - 'a' as int)
  }

  /** The text starts with this word, in whatever case. */
  predicate StartsLike(s: string, word: string) {
    |s| >= |word| && forall i :: 0 <= i < |word| ==> SameLetter(s[i], word[i])
  }

  /** The text is this word, in whatever case. */
  predicate Spells(s: string, word: string) {
    |s| == |word| && StartsLike(s, word)
  }

  lemma ToLowerSpells(s: string, word: string)
    requires forall c <- word :: 'a' <= c <= 'z'
    ensures ToLower(s) == word <==> Spells(s, word)
    ensures word <= ToLower(s) <==> StartsLike(s, word)
  {
    assert forall i :: 0 <= i < |word| ==> word[i] in word;
    if StartsLike(s, word) {
      assert forall i :: 0 <= i < |word| ==> ToLower(s)[i] == word[i];
    }
  }
}
