/** Whole runs of listings and inspections on one inspector. */
module FargateRuns {
  import opened Outcomes
  import opened FargateLabels
  import opened FargateInspector

  /** A listing, or the inspection of an ID, and what cache and endpoint do meanwhile. */
  datatype Call = Call(hit: bool, fetched: Response, inspected: Option<string>)

  datatype Answer =
    | Summaries(listed: Option<seq<Summary<LabelMap>>>)
    | Inspection(found: Result<string, InspectError>)

  ghost function MapsIn(calls: seq<Call>): set<LabelMap> {
    set c, m | c in calls && m in MapsOf(c.fetched) :: m
  }

  ghost function AccessOf(c: Call): Access
    reads MapsOf(c.fetched)
  {
    Access(c.hit, Listed(c.fetched))
  }

  ghost function AccessesOf(calls: seq<Call>): (accesses: seq<Access>)
    reads MapsIn(calls)
    ensures |accesses| == |calls|
    ensures forall i :: 0 <= i < |calls| ==> accesses[i] == AccessOf(calls[i])
  {
    if calls == [] then []
    else
      var last := |calls| - 1;
      assert forall c <- calls[..last] :: c in calls;
      assert calls[last] in calls;
      AccessesOf(calls[..last]) + [AccessOf(calls[last])]
  }

  ghost function MapsShown(a: Answer): set<LabelMap> {
    if a.Summaries? && a.listed.Some? then set s | s in a.listed.value :: s.labels else {}
  }

  /** The answer a reader sees now is the one for the served containers. */
  ghost predicate Answers(a: Answer, inspected: Option<string>, served: Option<seq<Plain>>)
    reads MapsShown(a)
  {
    match inspected
    case Some(id) => a == Inspection(Inspected(served, id))
    case None =>
      a.Summaries? &&
      match served
      case None => a.listed == None
      case Some(cs) =>
        a.listed.Some? && |a.listed.value| == |cs|
        && forall i :: 0 <= i < |cs| ==>
          a.listed.value[i] in a.listed.value && Seen(a.listed.value[i]) == SummaryOf(cs[i])
  }

  ghost predicate AllRewritten(cs: Option<seq<Plain>>) {
    cs.Some? ==> forall c <- cs.value :: Rewritten(c.labels) == c.labels
  }

  lemma ListedIsRewritten(r: Response)
    ensures AllRewritten(Listed(r))
  {
    if r.Some? {
      forall c <- r.value
        ensures Rewritten(Target(c).labels) == Target(c).labels
      {
        RewritingIsIdempotent(c.labels.entries);
      }
    }
  }

  /** What the cache lists before call `k` of a run. */
  function CacheBefore(cache: Option<seq<Plain>>, accesses: seq<Access>, k: nat): Option<seq<Plain>>
    requires k <= |accesses|
  {
    CacheAfterAll(cache, accesses[..k])
  }

  lemma {:induction false} CacheSnoc(cache: Option<seq<Plain>>, accesses: seq<Access>, a: Access)
    ensures CacheAfterAll(cache, accesses + [a]) == CacheAfter(CacheAfterAll(cache, accesses), a)
    decreases |accesses|
  {
    if accesses == [] {
      assert accesses + [a] == [a];
    } else {
      assert (accesses + [a])[1..] == accesses[1..] + [a];
      CacheSnoc(CacheAfter(cache, accesses[0]), accesses[1..], a);
    }
  }

  lemma NextCache(cache: Option<seq<Plain>>, accesses: seq<Access>, k: nat)
    requires k < |accesses|
    ensures CacheBefore(cache, accesses, k + 1) == CacheAfter(CacheBefore(cache, accesses, k), accesses[k])
  {
    CacheSnoc(cache, accesses[..k], accesses[k]);
    assert accesses[..k + 1] == accesses[..k] + [accesses[k]];
  }

  lemma FetchedMaps(calls: seq<Call>, i: nat)
    requires i < |calls|
    ensures MapsOf(calls[i].fetched) <= MapsIn(calls)
  {
    assert calls[i] in calls;
  }

  /** One call. */
  method Perform(inspector: Inspector, call: Call) returns (answer: Answer)
    modifies inspector, MapsOf(inspector.cached), MapsOf(call.fetched)
    ensures Listed(inspector.cached) == CacheAfter(old(Listed(inspector.cached)), old(AccessOf(call)))
    ensures Answers(answer, call.inspected, Serve(old(Listed(inspector.cached)), old(AccessOf(call))))
    ensures forall m <- MapsOf(inspector.cached) ::
      m in old(MapsOf(inspector.cached)) || m in MapsOf(call.fetched) || fresh(m)
    ensures forall m: LabelMap :: old(allocated(m)) && old(m.entries) == Rewritten(old(m.entries)) ==>
      m.entries == old(m.entries)
    ensures forall m: LabelMap :: old(allocated(m)) ==> Rewritten(m.entries) == Rewritten(old(m.entries))
    ensures forall m <- MapsShown(answer) :: m.entries == Rewritten(m.entries)
  {
    ListedIsRewritten(inspector.cached);
    ListedIsRewritten(call.fetched);
    if call.inspected.Some? {
      var found := inspector.ContainerInspect(call.inspected.value, call.hit, call.fetched);
      return Inspection(found);
    } else {
      var listed := inspector.ContainerList(call.hit, call.fetched);
      return Summaries(listed);
    }
  }

  /** What each access of a run is served. */
  function ServedIn(cache: Option<seq<Plain>>, accesses: seq<Access>): (served: seq<Option<seq<Plain>>>)
    ensures |served| == |accesses|
    ensures forall k :: 0 <= k < |accesses| ==> served[k] == Serve(CacheBefore(cache, accesses, k), accesses[k])
  {
    seq(|accesses|, k requires 0 <= k < |accesses| => Serve(CacheBefore(cache, accesses, k), accesses[k]))
  }

  /** A run so far: all its calls, what each is served, and the answers given. */
  datatype Log = Log(calls: seq<Call>, served: seq<Option<seq<Plain>>>, answers: seq<Answer>)

  ghost function MapsShownIn(answers: seq<Answer>): set<LabelMap> {
    set a, m | a in answers && m in MapsShown(a) :: m
  }

  /** The answers are right, and the maps they show are rewritten for good. */
  ghost predicate AllAnswer(log: Log)
    reads MapsShownIn(log.answers)
  {
    && |log.answers| <= |log.calls| == |log.served|
    && forall k :: 0 <= k < |log.answers| ==>
      && log.answers[k] in log.answers
      && Answers(log.answers[k], log.calls[k].inspected, log.served[k])
      && forall m <- MapsShown(log.answers[k]) :: m.entries == Rewritten(m.entries)
  }

  /** A call that only rewrites maps leaves a run alone: its accesses are the same, the answers so far stay right. */
  twostate lemma Undisturbed(log: Log)
    requires forall m <- MapsIn(log.calls) :: Rewritten(m.entries) == Rewritten(old(m.entries))
    requires forall m <- MapsShownIn(log.answers) :: m.entries == old(m.entries)
    ensures AccessesOf(log.calls) == old(AccessesOf(log.calls))
    ensures old(AllAnswer(log)) ==> AllAnswer(log)
  {
    forall i | 0 <= i < |log.calls|
      ensures AccessOf(log.calls[i]) == old(AccessOf(log.calls[i]))
    {
      assert log.calls[i] in log.calls;
      assert forall m <- MapsOf(log.calls[i].fetched) :: m in MapsIn(log.calls);
      SameListing(log.calls[i].fetched);
    }
    if old(AllAnswer(log)) {
      forall k | 0 <= k < |log.answers|
        ensures Answers(log.answers[k], log.calls[k].inspected, log.served[k])
      {
        assert log.answers[k] in log.answers;
        assert forall m <- MapsShown(log.answers[k]) :: m in MapsShownIn(log.answers);
        if log.calls[k].inspected.None? && log.served[k].Some? {
          assert forall s <- log.answers[k].listed.value :: s.labels in MapsShown(log.answers[k]);
        }
      }
    }
  }

  lemma OneMore(log: Log, answer: Answer)
    requires AllAnswer(log) && |log.answers| < |log.calls|
    requires Answers(answer, log.calls[|log.answers|].inspected, log.served[|log.answers|])
    requires forall m <- MapsShown(answer) :: m.entries == Rewritten(m.entries)
    ensures AllAnswer(log.(answers := log.answers + [answer]))
  {
  }

  /** Maps that have been rewritten. */
  ghost predicate AllSettled(settled: set<LabelMap>)
    reads settled
  {
    forall m <- settled :: m.entries == Rewritten(m.entries)
  }

  ghost function Contents(maps: set<LabelMap>): map<LabelMap, Labels>
    reads maps
  {
    map m <- maps :: m.entries
  }

  /** The next call of a run: what all calls amount to and what was answered before stays, and so do rewritten maps. */
  method Step(inspector: Inspector, call: Call, ghost log: Log, ghost settled: set<LabelMap>) returns (answer: Answer)
    requires AllSettled(settled)
    requires |log.answers| < |log.calls| && AllAnswer(log) && call == log.calls[|log.answers|]
    requires log.served[|log.answers|] == Serve(Listed(inspector.cached), AccessOf(call))
    modifies inspector, MapsOf(inspector.cached), MapsOf(call.fetched)
    ensures AllAnswer(log.(answers := log.answers + [answer]))
    ensures AccessesOf(log.calls) == old(AccessesOf(log.calls))
    ensures Listed(inspector.cached) == CacheAfter(old(Listed(inspector.cached)), old(AccessOf(call)))
    ensures forall m <- MapsOf(inspector.cached) ::
      m in old(MapsOf(inspector.cached)) || m in MapsOf(call.fetched) || fresh(m)
    ensures AllSettled(settled) && Contents(settled) == old(Contents(settled))
  {
    answer := Perform(inspector, call);
    assert Contents(settled) == old(Contents(settled)) by {
      assert forall m <- settled :: m.entries == old(m.entries);
    }
    Undisturbed(log);
    OneMore(log, answer);
  }

  /** Any run of calls, hits and misses mixed: at its end every answer given in it still is the one for the containers
      served at its time, whether the store shares or copies the label maps, and all maps rewritten before are as
      they were. */
  method Run(inspector: Inspector, calls: seq<Call>, ghost settled: set<LabelMap>) returns (answers: seq<Answer>)
    requires AllSettled(settled)
    modifies inspector, MapsOf(inspector.cached), MapsIn(calls)
    ensures var start, accesses := old(Listed(inspector.cached)), old(AccessesOf(calls));
      && Listed(inspector.cached) == CacheAfterAll(start, accesses)
      && |answers| == |calls| && AllAnswer(Log(calls, ServedIn(start, accesses), answers))
    ensures forall m <- MapsOf(inspector.cached) ::
      m in old(MapsOf(inspector.cached)) || m in MapsIn(calls) || fresh(m)
    ensures AllSettled(settled) && Contents(settled) == old(Contents(settled))
  {
    ghost var start, accesses := Listed(inspector.cached), AccessesOf(calls);
    ghost var served := ServedIn(start, accesses);
    answers := [];
    for i := 0 to |calls|
      invariant |answers| == i && AllAnswer(Log(calls, served, answers))
      invariant AccessesOf(calls) == accesses
      invariant Listed(inspector.cached) == CacheBefore(start, accesses, i)
      invariant forall m <- MapsOf(inspector.cached) ::
        m in old(MapsOf(inspector.cached)) || m in MapsIn(calls) || fresh(m)
      invariant AllSettled(settled) && Contents(settled) == old(Contents(settled))
    {
      FetchedMaps(calls, i);
      NextCache(start, accesses, i);
      var answer := Step(inspector, calls[i], Log(calls, served, answers), settled);
      answers := answers + [answer];
    }
    assert accesses[..|calls|] == accesses;
  }

  /** What one access is served and leaves: a hit serves what the cache lists; a miss, or an empty cache, serves what
      was fetched; whatever is served is kept, and a failed fetch changes nothing. */
  lemma AccessMeans(cache: Option<seq<Plain>>, accesses: seq<Access>, k: nat)
    requires k < |accesses|
    ensures var before, served := CacheBefore(cache, accesses, k), ServedIn(cache, accesses)[k];
      && (accesses[k].hit && before.Some? ==> served == before)
      && (!accesses[k].hit || before.None? ==> served == accesses[k].fetched)
      && CacheBefore(cache, accesses, k + 1) == (if served.Some? then served else before)
  {
    NextCache(cache, accesses, k);
  }

  /** What a list shows of each served container, field by field. */
  lemma ListShows(a: Answer, served: seq<Plain>, i: nat)
    requires Answers(a, None, Some(served)) && i < |served|
    ensures |a.listed.value| == |served|
    ensures var s, c := Seen(a.listed.value[i]), served[i];
      && s.id == c.id && s.names == [c.name] && s.image == c.image && s.imageID == c.imageID && s.labels == c.labels
      && s.status == c.knownStatus && s.created == (if c.createdAt == None then 0 else c.createdAt.value)
  {
  }

  /** An inspection finds exactly the IDs of the served containers, and answers with the ID. */
  lemma InspectedMeans(served: Option<seq<Plain>>, id: string)
    ensures Inspected(served, id) == Err(NoResponse) <==> served == None
    ensures Inspected(served, id) == Ok(id) <==> served.Some? && exists c <- served.value :: c.id == id
    ensures Inspected(served, id) == Err(ContainerNotFound) <==> served.Some? && forall c <- served.value :: c.id != id
  {
  }

  /** A response once served is served again until the next miss. */
  lemma {:induction false} ServedUntilMiss(cache: Option<seq<Plain>>, accesses: seq<Access>, i: nat, k: nat)
    requires i <= k < |accesses|
    requires ServedIn(cache, accesses)[i].Some?
    requires forall j :: i < j <= k ==> accesses[j].hit
    ensures ServedIn(cache, accesses)[k] == ServedIn(cache, accesses)[i]
    ensures CacheBefore(cache, accesses, k + 1) == ServedIn(cache, accesses)[i]
    decreases k
  {
    if i < k {
      ServedUntilMiss(cache, accesses, i, k - 1);
    }
    NextCache(cache, accesses, k);
  }

  /** Any number of hits serve what the cache lists. */
  lemma HitsServeTheSame(cs: seq<Plain>, accesses: seq<Access>)
    requires forall a <- accesses :: a.hit
    ensures forall k :: 0 <= k < |accesses| ==> ServedIn(Some(cs), accesses)[k] == Some(cs)
    ensures CacheAfterAll(Some(cs), accesses) == Some(cs)
  {
    if accesses != [] {
      assert accesses[..0] == [] && accesses[..|accesses|] == accesses;
      assert accesses[0].hit;
      forall k | 0 <= k < |accesses|
        ensures ServedIn(Some(cs), accesses)[k] == Some(cs) == CacheBefore(Some(cs), accesses, k + 1)
      {
        ServedUntilMiss(Some(cs), accesses, 0, k);
      }
    }
  }

  function CachedCalls(requests: seq<Option<string>>): (calls: seq<Call>)
    ensures |calls| == |requests|
    ensures forall k :: 0 <= k < |calls| ==> calls[k] == Call(true, None, requests[k])
  {
    seq(|requests|, k requires 0 <= k < |requests| => Call(true, None, requests[k]))
  }

  /** Listings (`None`) and inspections of one cached response, any number in any order: at the end all lists show the
      same summaries, and the inspections found exactly the IDs listed. */
  method AnswerFromCache(inspector: Inspector, requests: seq<Option<string>>, ghost settled: set<LabelMap>)
    returns (answers: seq<Answer>)
    requires inspector.cached.Some? && AllSettled(settled)
    modifies inspector, MapsOf(inspector.cached)
    ensures |answers| == |requests|
    ensures forall k :: 0 <= k < |requests| ==> Answers(answers[k], requests[k], old(Listed(inspector.cached)))
    ensures Listed(inspector.cached) == old(Listed(inspector.cached))
    ensures forall m <- MapsOf(inspector.cached) :: m in old(MapsOf(inspector.cached)) || fresh(m)
    ensures AllSettled(settled) && Contents(settled) == old(Contents(settled))
  {
    var calls := CachedCalls(requests);
    ghost var cached, accesses := Listed(inspector.cached), AccessesOf(calls);
    HitsServeTheSame(cached.value, accesses);
    assert MapsIn(calls) == {};
    answers := Run(inspector, calls, settled);
  }

  /** Any two listings among them show the same, and every listed ID is found. */
  lemma ListingsAgree(a: Answer, b: Answer, served: Option<seq<Plain>>)
    requires served.Some? && Answers(a, None, served) && Answers(b, None, served)
    ensures a.listed.Some? && b.listed.Some? && |a.listed.value| == |b.listed.value|
    ensures forall i :: 0 <= i < |a.listed.value| ==> Seen(a.listed.value[i]) == Seen(b.listed.value[i])
    ensures forall s <- a.listed.value :: Inspected(served, s.id) == Ok(s.id)
  {
    forall i | 0 <= i < |a.listed.value|
      ensures a.listed.value[i].id == served.value[i].id
    {
      assert Seen(a.listed.value[i]) == SummaryOf(served.value[i]);
    }
  }
}
