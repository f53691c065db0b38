/** Listing and inspecting the containers of a Fargate task, over one cached task response whose label maps
    the listing rewrites. The cache may hand out the stored maps themselves or copies of them. */
module FargateInspector {
  import opened Outcomes
  import opened FargateLabels

  datatype InspectError = NoResponse | ContainerNotFound

  /** A container of the task response; `L` is a label map, or its contents. */
  datatype ContainerResponse<L> = ContainerResponse(
    id: string, name: string, image: string, imageID: string, labels: L, knownStatus: string, createdAt: Option<int>)

  datatype Summary<L> = Summary(
    id: string, names: seq<string>, image: string, imageID: string, labels: L, status: string, created: int)

  type Stored = ContainerResponse<LabelMap>
  type Plain = ContainerResponse<Labels>

  /** A task response, or that of a store or endpoint that gave none. */
  type Response = Option<seq<Stored>>

  ghost function MapsOf(r: Response): set<LabelMap> {
    if r.Some? then set c | c in r.value :: c.labels else {}
  }

  /** What listing makes of a container, whether or not its map has been rewritten already. */
  ghost function Target(c: Stored): Plain
    reads c.labels
  {
    ContainerResponse(c.id, c.name, c.image, c.imageID, Rewritten(c.labels.entries), c.knownStatus, c.createdAt)
  }

  ghost function Targets(cs: seq<Stored>): (ts: seq<Plain>)
    reads set c | c in cs :: c.labels
    ensures |ts| == |cs|
    ensures forall i :: 0 <= i < |cs| ==> ts[i] == Target(cs[i])
  {
    if cs == [] then []
    else
      assert forall c <- cs[1..] :: c in cs;
      [Target(cs[0])] + Targets(cs[1..])
  }

  /** The listed form of a response. */
  ghost function Listed(r: Response): Option<seq<Plain>>
    reads MapsOf(r)
  {
    if r.Some? then Some(Targets(r.value)) else None
  }

  function SummaryOf<L>(c: ContainerResponse<L>): Summary<L> {
    var created := if c.createdAt.Some? then c.createdAt.value else 0;
    Summary(c.id, [c.name], c.image, c.imageID, c.labels, c.knownStatus, created)
  }

  /** The summary lists the container: under its ID and only name, with its own image and image ID, its known status,
      its creation time or 0, and these labels rewritten. */
  predicate ListedAs(s: Summary<Labels>, c: Stored, labels: Labels) {
    && s.id == c.id && s.names == [c.name] && s.image == c.image && s.imageID == c.imageID
    && s.status == c.knownStatus && s.created == (if c.createdAt == None then 0 else c.createdAt.value)
    && s.labels == Rewritten(labels)
  }

  /** The summary as its reader sees it now. */
  ghost function Seen(s: Summary<LabelMap>): Summary<Labels>
    reads s.labels
  {
    Summary(s.id, s.names, s.image, s.imageID, s.labels.entries, s.status, s.created)
  }

  // ----- Accesses to the response, and whole runs, on the listed containers

  /** Whether the cache entry is found and, if not, what the metadata endpoint answers. */
  datatype Access = Access(hit: bool, fetched: Option<seq<Plain>>)

  function Serve(cache: Option<seq<Plain>>, a: Access): Option<seq<Plain>> {
    if cache.Some? && a.hit then cache else a.fetched
  }

  function CacheAfter(cache: Option<seq<Plain>>, a: Access): Option<seq<Plain>> {
    if Serve(cache, a).Some? then Serve(cache, a) else cache
  }

  function CacheAfterAll(cache: Option<seq<Plain>>, accesses: seq<Access>): Option<seq<Plain>>
    decreases |accesses|
  {
    if accesses == [] then cache else CacheAfterAll(CacheAfter(cache, accesses[0]), accesses[1..])
  }

  /** Outcome of inspecting one ID: found exactly if the served response lists it. */
  ghost function Inspected(served: Option<seq<Plain>>, containerID: string): Result<string, InspectError> {
    if served.None? then Err(NoResponse)
    else if exists i :: 0 <= i < |served.value| && served.value[i].id == containerID then Ok(containerID)
    else Err(ContainerNotFound)
  }

  ghost predicate HasID(cs: seq<Stored>, containerID: string) {
    exists i :: 0 <= i < |cs| && cs[i].id == containerID
  }

  /** Listing changes no ID. */
  lemma SearchTargets(cs: seq<Stored>, containerID: string)
    ensures Inspected(Some(Targets(cs)), containerID)
            == if HasID(cs, containerID) then Ok(containerID) else Err(ContainerNotFound)
  {
  }

  /** The search loop of `ContainerInspect`. */
  method Search(cs: seq<Stored>, containerID: string) returns (r: Result<string, InspectError>)
    ensures r == if HasID(cs, containerID) then Ok(containerID) else Err(ContainerNotFound)
  {
    for i := 0 to |cs|
      invariant forall j :: 0 <= j < i ==> cs[j].id != containerID
    {
      if cs[i].id == containerID {
        return Ok(containerID);
      }
    }
    return Err(ContainerNotFound);
  }

  twostate lemma SameListing(r: Response)
    requires forall m <- MapsOf(r) :: Rewritten(m.entries) == Rewritten(old(m.entries))
    ensures Listed(r) == old(Listed(r))
  {
    if r.Some? {
      assert forall c <- r.value :: c.labels in MapsOf(r);
      assert Targets(r.value) == old(Targets(r.value));
    }
  }

  /** A store access: the very maps that were put in, or copies with the same entries. */
  method ShareOrCopy(r: Response) returns (stored: Response)
    ensures Listed(stored) == Listed(r) == old(Listed(r))
    ensures fresh(MapsOf(stored) - MapsOf(r))
  {
    var share: bool := *;
    if share || r.None? {
      return r;
    }
    var cs: seq<Stored> := [];
    for i := 0 to |r.value|
      invariant |cs| == i
      invariant forall j :: 0 <= j < i ==> fresh(cs[j].labels) && Target(cs[j]) == Target(r.value[j])
    {
      var copy := new LabelMap(r.value[i].labels.entries);
      cs := cs + [r.value[i].(labels := copy)];
    }
    SameListing(r);
    assert Targets(cs) == Targets(r.value);
    return Some(cs);
  }

  /** The conversion loop of `ContainerList`. */
  method Convert(cs: seq<Stored>, ghost kept: Response) returns (summaries: seq<Summary<LabelMap>>)
    modifies MapsOf(Some(cs))
    ensures |summaries| == |cs|
    ensures forall i :: 0 <= i < |cs| ==> Seen(summaries[i]) == SummaryOf(old(Target(cs[i])))
    ensures Listed(kept) == old(Listed(kept))
    ensures forall m: LabelMap :: old(allocated(m)) && old(m.entries) == Rewritten(old(m.entries)) ==>
      m.entries == old(m.entries)
    ensures forall m: LabelMap :: old(allocated(m)) ==> Rewritten(m.entries) == Rewritten(old(m.entries))
  {
    summaries := [];
    for i := 0 to |cs|
      invariant |summaries| == i
      invariant forall j :: 0 <= j < i ==> summaries[j] == SummaryOf(cs[j])
      invariant forall j :: 0 <= j < i ==> cs[j].labels.entries == Rewritten(old(cs[j].labels.entries))
      invariant forall m: LabelMap :: old(allocated(m)) ==> Rewritten(m.entries) == Rewritten(old(m.entries))
      invariant forall m: LabelMap :: old(allocated(m)) && old(m.entries) == Rewritten(old(m.entries)) ==>
        m.entries == old(m.entries)
    {
      RewritingIsIdempotent(cs[i].labels.entries);
      ProcessFargateLabels(cs[i].labels);
      summaries := summaries + [SummaryOf(cs[i])];
    }
    SameListing(kept);
  }

  class Inspector {
    var cached: Response

    constructor ()
      ensures cached == None
    {
      cached := None;
    }

    /** The store's `Get`, which may also miss because the entry expired. */
    method Get(hit: bool) returns (r: Response)
      ensures Listed(r) == if hit then Listed(cached) else None
      ensures fresh(MapsOf(r) - MapsOf(cached))
      ensures Listed(cached) == old(Listed(cached))
    {
      r := None;
      if cached.Some? && hit {
        r := ShareOrCopy(cached);
      }
    }

    /** The store's `Set`. */
    method Set(r: Response)
      modifies this
      ensures Listed(cached) == Listed(r) == old(Listed(r))
      ensures fresh(MapsOf(cached) - MapsOf(r))
    {
      var kept := ShareOrCopy(r);
      ghost var listed := Listed(r);
      cached := kept;
      assert Listed(kept) == Listed(r) == listed;
    }

    /** `taskResponseFromCacheOrNew`. */
    method TaskResponseFromCacheOrNew(hit: bool, fetched: Response) returns (r: Response)
      modifies this
      ensures Listed(r) == Serve(old(Listed(cached)), Access(hit, old(Listed(fetched))))
      ensures Listed(cached) == CacheAfter(old(Listed(cached)), Access(hit, old(Listed(fetched))))
      ensures fresh(MapsOf(r) - old(MapsOf(cached)) - MapsOf(fetched))
      ensures fresh(MapsOf(cached) - old(MapsOf(cached)) - MapsOf(fetched))
    {
      r := Get(hit);
      if r.None? {
        SameListing(fetched);
        r := fetched;
      }
      if r.Some? {
        Set(r);
      }
    }

    /** `ContainerList`: the summaries show the rewritten labels, and the cache will list the same again.
        Maps that were rewritten before are left as they are, so summaries handed out earlier stay valid. */
    method ContainerList(hit: bool, fetched: Response) returns (r: Option<seq<Summary<LabelMap>>>)
      modifies this, MapsOf(cached), MapsOf(fetched)
      ensures Listed(cached) == CacheAfter(old(Listed(cached)), Access(hit, old(Listed(fetched))))
      ensures var served := Serve(old(Listed(cached)), Access(hit, old(Listed(fetched))));
        if served.None? then r == None
        else r.Some? && |r.value| == |served.value|
             && forall i :: 0 <= i < |r.value| ==> Seen(r.value[i]) == SummaryOf(served.value[i])
      ensures var source := if old(cached).Some? && hit then old(cached) else fetched;
        if source.None? then r == None
        else r.Some? && |r.value| == |source.value|
             && forall i :: 0 <= i < |r.value| ==>
               ListedAs(Seen(r.value[i]), source.value[i], old(source.value[i].labels.entries))
      ensures fresh(MapsOf(cached) - old(MapsOf(cached)) - MapsOf(fetched))
      ensures forall m: LabelMap :: old(allocated(m)) && old(m.entries) == Rewritten(old(m.entries)) ==>
        m.entries == old(m.entries)
      ensures forall m: LabelMap :: old(allocated(m)) ==> Rewritten(m.entries) == Rewritten(old(m.entries))
    {
      ghost var source := if cached.Some? && hit then cached else fetched;
      ghost var targets := Listed(source);
      var response := TaskResponseFromCacheOrNew(hit, fetched);
      if response.None? {
        return None;
      }
      var summaries := Convert(response.value, cached);
      forall i | 0 <= i < |summaries|
        ensures ListedAs(Seen(summaries[i]), source.value[i], old(source.value[i].labels.entries))
      {
        assert Seen(summaries[i]) == SummaryOf(targets.value[i]);
        assert targets.value[i] == old(Target(source.value[i]));
      }
      return Some(summaries);
    }

    /** `ContainerInspect`: finds exactly the IDs that listing shows. */
    method ContainerInspect(containerID: string, hit: bool, fetched: Response) returns (r: Result<string, InspectError>)
      modifies this
      ensures Listed(cached) == CacheAfter(old(Listed(cached)), Access(hit, old(Listed(fetched))))
      ensures r == Inspected(Serve(old(Listed(cached)), Access(hit, old(Listed(fetched)))), containerID)
      ensures fresh(MapsOf(cached) - old(MapsOf(cached)) - MapsOf(fetched))
    {
      var response := TaskResponseFromCacheOrNew(hit, fetched);
      if response.None? {
        return Err(NoResponse);
      }
      ghost var listed := Listed(cached);
      SearchTargets(response.value, containerID);
      r := Search(response.value, containerID);
      assert Listed(cached) == listed;
    }
  }
}
