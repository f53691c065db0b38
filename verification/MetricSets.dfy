/** Metric sets of the SDK: texts and numbers under names, set in place. */
module MetricSets {
  import opened Outcomes

  datatype Entry<K, V> = Entry(name: K, value: V)

  datatype Datum = Text(text: string) | Number(number: real)

  class MetricSet {
    var metrics: map<string, Datum>

    constructor (metrics: map<string, Datum>)
      ensures this.metrics == metrics
    {
      this.metrics := metrics;
    }
  }

  function ValueAt<K, V>(metrics: map<K, V>, name: K): Option<V> {
    if name in metrics then Some(metrics[name]) else None
  }

  /** The entries set in order, later ones over earlier ones. */
  function SetAll<K, V>(metrics: map<K, V>, entries: seq<Entry<K, V>>): map<K, V>
    decreases |entries|
  {
    if entries == [] then metrics
    else
      var last := entries[|entries| - 1];
      SetAll(metrics, entries[..|entries| - 1])[last.name := last.value]
  }

  lemma {:induction false} SetAllConcat<K, V>(metrics: map<K, V>, first: seq<Entry<K, V>>, second: seq<Entry<K, V>>)
    ensures SetAll(metrics, first + second) == SetAll(SetAll(metrics, first), second)
    decreases |second|
  {
    if second == [] {
      assert first + second == first;
    } else {
      assert (first + second)[..|first + second| - 1] == first + second[..|second| - 1];
      SetAllConcat(metrics, first, second[..|second| - 1]);
    }
  }

  lemma SetOne<K, V>(metrics: map<K, V>, e: Entry<K, V>)
    ensures SetAll(metrics, [e]) == metrics[e.name := e.value]
  {
    assert [e][..0] == [];
  }

  /** Setting entries that agree with a value for each name, however often they repeat it. */
  lemma {:induction false} SetConsistent<K, V>(metrics: map<K, V>, entries: seq<Entry<K, V>>, name: K, v: Option<V>)
    requires forall e <- entries :: e.name == name ==> v == Some(e.value)
    requires v.Some? ==> Entry(name, v.value) in entries
    ensures ValueAt(SetAll(metrics, entries), name) == if v.Some? then v else ValueAt(metrics, name)
    decreases |entries|
  {
    if entries != [] {
      var init, last := entries[..|entries| - 1], entries[|entries| - 1];
      assert entries == init + [last];
      if last.name != name {
        assert v.Some? ==> Entry(name, v.value) != last;
        SetConsistent(metrics, init, name, v);
      }
    }
  }

  function Texts(m: map<string, string>): map<string, Datum> {
    map name <- m :: Text(m[name])
  }

  function TextEntries(entries: seq<Entry<string, string>>): (data: seq<Entry<string, Datum>>)
    ensures |data| == |entries|
  {
    seq(|entries|, i requires 0 <= i < |entries| => Entry(entries[i].name, Text(entries[i].value)))
  }

  /** Setting texts in a set of texts. */
  lemma {:induction false} SetTexts(m: map<string, string>, entries: seq<Entry<string, string>>)
    ensures SetAll(Texts(m), TextEntries(entries)) == Texts(SetAll(m, entries))
    decreases |entries|
  {
    if entries != [] {
      var init := entries[..|entries| - 1];
      SetTexts(m, init);
      assert TextEntries(entries)[..|entries| - 1] == TextEntries(init);
    }
  }

  /** `populate`. */
  method Populate(ms: MetricSet, entries: seq<Entry<string, Datum>>)
    modifies ms
    ensures ms.metrics == SetAll(old(ms.metrics), entries)
  {
    for i := 0 to |entries|
      invariant ms.metrics == SetAll(old(ms.metrics), entries[..i])
    {
      assert entries[..i + 1][..i] == entries[..i];
      ms.metrics := ms.metrics[entries[i].name := entries[i].value];
    }
    assert entries[..|entries|] == entries;
  }
}
