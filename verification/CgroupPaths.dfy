/** The path getters built from the detection loops, for cgroup v1 and v2. */
module CgroupPaths {
  import opened Outcomes
  import opened StringMaps
  import opened Text
  import opened FilePath
  import opened CgroupDetect

  /** `cgroupV1Paths`. */
  datatype V1Paths = V1Paths(mountPoints: map<string, string>, paths: map<string, string>) {
    function GetMountPoint(name: string): Result<string, DetectError> {
      if name in mountPoints then Ok(mountPoints[name]) else Err(MountPointNotFound)
    }

    function GetPath(name: string): Result<string, DetectError> {
      if name in paths then Ok(paths[name]) else Err(PathNotFound)
    }

    function GetFullPath(name: string): Result<string, DetectError> {
      match GetMountPoint(name)
      case Err(e) => Err(e)
      case Ok(mountPoint) =>
        match GetPath(name)
        case Err(e) => Err(e)
        case Ok(path) => Ok(JoinPath([mountPoint, name, path]))
    }
  }

  /** `CgroupV1PathParser.Paths`. */
  method PathsV1(hostRoot: string, mounts: Option<seq<string>>, cgroup: Option<seq<string>>)
    returns (r: Result<V1Paths, DetectError>)
    ensures r.Ok? <==>
      mounts.Some? && cgroup.Some? && forall i :: 0 <= i < |cgroup.value| ==> !Malformed(cgroup.value[i])
    ensures r.Err? ==> r.error == if mounts.None? || cgroup.None? then OpenFailed else BadCgroupLine
    ensures r.Ok? ==> forall s ::
      Lookup(r.value.mountPoints, s) == FirstMount(mounts.value, hostRoot, s)
      && Lookup(r.value.paths, s) == LastPath(cgroup.value, s)
  {
    var mountPoints := new StringMap();
    var err := GetMountsFile(hostRoot, mountPoints, V1, mounts);
    if err.Some? {
      return Err(err.value);
    }
    var cgroupPaths := new StringMap();
    err := GetCgroupFilePaths(cgroupPaths, V1, cgroup);
    if cgroup.Some? {
      WellFormedIffNoMalformedLine(cgroup.value);
    }
    if err.Some? {
      return Err(err.value);
    }
    forall s ensures Lookup(cgroupPaths.entries, s) == LastPath(cgroup.value, s) {
      PathsAfterLookup(map[], cgroup.value, s);
    }
    return Ok(V1Paths(mountPoints.entries, cgroupPaths.entries));
  }

  /** `cgroupV2Paths`. */
  datatype V2Paths = V2Paths(mountPoint: string, group: string) {
    function GetFullPath(): string {
      JoinPath([mountPoint, group])
    }
  }

  /** `splitMountPointAndGroup`. */
  function SplitMountPointAndGroup(fullPath: string): V2Paths {
    V2Paths(Dir(fullPath), "/" + Base(fullPath))
  }

  /** The full path named by the two files: both must name a non-empty one. */
  function NamedV2Path(hostRoot: string, mounts: Option<seq<string>>, cgroup: Option<seq<string>>)
    : Result<string, DetectError>
  {
    if mounts.None? then Err(OpenFailed)
    else if FirstUnifiedMount(mounts.value, hostRoot).None? then Err(MountPointNotFound)
    else if cgroup.None? then Err(OpenFailed)
    else
      match UnifiedPath(cgroup.value)
      case Err(e) => Err(e)
      case Ok(None) => Err(PathNotFound)
      case Ok(Some(path)) =>
        if path == "" then Err(PathNotFound)
        else Ok(Clean(FirstUnifiedMount(mounts.value, hostRoot).value + "/" + path))
  }

  /** `cgroupV2FullPath`. */
  method CgroupV2FullPath(hostRoot: string, mounts: Option<seq<string>>, cgroup: Option<seq<string>>)
    returns (r: Result<string, DetectError>)
    ensures r == NamedV2Path(hostRoot, mounts, cgroup)
  {
    var mountPoints := new StringMap();
    var err := GetMountsFile(hostRoot, mountPoints, V2, mounts);
    if err.Some? {
      return Err(err.value);
    }
    var mountPoint := Lookup(mountPoints.entries, UNIFIED);
    if mountPoint == None || mountPoint.value == "" {
      return Err(MountPointNotFound);
    }
    var cgroupPaths := new StringMap();
    err := GetCgroupFilePaths(cgroupPaths, V2, cgroup);
    if err.Some? {
      return Err(err.value);
    }
    var path := Lookup(cgroupPaths.entries, UNIFIED);
    if path == None || path.value == "" {
      return Err(PathNotFound);
    }
    assert Join([mountPoint.value, path.value], '/') == mountPoint.value + "/" + path.value;
    return Ok(JoinPath([mountPoint.value, path.value]));
  }

  predicate Neutral(parts: seq<string>) {
    forall p <- parts :: p == "" || p == "."
  }

  lemma {:induction false} NeutralParts(rooted: bool, parts: seq<string>)
    requires Neutral(parts)
    ensures Free(parts, '/') && Reduce(rooted, parts) == []
  {
    if parts != [] {
      var init, last := parts[..|parts| - 1], parts[|parts| - 1];
      assert parts == init + [last];
      assert forall p <- init :: p in parts;
      NeutralParts(rooted, init);
      assert last in parts;
      ReduceSnoc(rooted, init, last);
    }
  }

  lemma SplitTop(rooted: bool)
    ensures SplitMountPointAndGroup(Render(rooted, [])) == V2Paths(Render(rooted, []), "/" + Render(rooted, []))
  {
    CleanRendered(rooted, []);
    if rooted {
      assert AfterLastSlash("/") == 1;
      assert "/"[..1] == "/";
      assert "/"[..0] == "";
    } else {
      assert AfterLastSlash(".") == 0 by {
        assert "."[..0] == "";
      }
      assert "."[0..] == ".";
    }
  }

  lemma TopParts(rooted: bool)
    ensures Neutral(Split(Render(rooted, []), '/'))
  {
    if rooted {
      assert "/" == "" + ['/'] + "";
      SplitConcat("", '/', "");
    }
  }

  /** The text that rejoining the top joins: nothing but separators and dots. */
  lemma RejoinedTop(rooted: bool, text: string)
    requires text == Join([Render(rooted, []), "/" + Render(rooted, [])], '/')
    ensures Neutral(Split(text, '/')) && text != "" && (text[0] == '/' <==> rooted)
  {
    var top := Render(rooted, []);
    TopParts(rooted);
    assert [top, "/" + top][1..] == ["/" + top];
    assert text == top + ['/'] + ("" + ['/'] + top);
    SplitConcat(top, '/', "" + ['/'] + top);
    SplitConcat("", '/', top);
    assert text[0] == top[0];
  }

  /** The root and the empty relative path have no segment to cut off. */
  lemma RejoinTop(rooted: bool)
    ensures SplitMountPointAndGroup(Render(rooted, [])).GetFullPath() == Render(rooted, [])
  {
    var text := Join([Render(rooted, []), "/" + Render(rooted, [])], '/');
    SplitTop(rooted);
    RejoinedTop(rooted, text);
    NeutralParts(rooted, Split(text, '/'));
  }

  lemma RejoinedIsClean(path: string)
    ensures Clean(SplitMountPointAndGroup(path).GetFullPath()) == SplitMountPointAndGroup(path).GetFullPath()
  {
    var split := SplitMountPointAndGroup(path);
    var rooted, segs := CleanIsRendered(path[..AfterLastSlash(path)]);
    RenderedStart(rooted, segs);
    CleanIdempotent(Join([split.mountPoint, split.group], '/'));
  }

  /** Split and rejoin is lossless on the cleaned paths, and on no others. */
  lemma SplitAndRejoin(path: string)
    ensures SplitMountPointAndGroup(path).GetFullPath() == path <==> Clean(path) == path
  {
    if Clean(path) == path {
      var rooted, segs := CleanIsRendered(path);
      if segs == [] {
        RejoinTop(rooted);
      } else {
        var init, last := segs[..|segs| - 1], segs[|segs| - 1];
        assert segs == init + [last];
        DirOfRendered(rooted, init, last);
        JoinRendered(rooted, init, last);
      }
    } else {
      RejoinedIsClean(path);
    }
  }

  /** The group is a slash and the last segment of the path, the mount point the path in front of it; the top, which has
      no segment, is both. */
  predicate CutFrom(p: V2Paths, path: string) {
    if path == "/" || path == "." then p == V2Paths(path, "/" + path)
    else
      && Clean(p.mountPoint) == p.mountPoint
      && |p.group| > 1 && p.group[0] == '/' && '/' !in p.group[1..]
      && path == (if p.mountPoint == "/" then p.group
                  else if p.mountPoint == "." then p.group[1..]
                  else p.mountPoint + p.group)
  }

  lemma RenderedIsNotTop(rooted: bool, segs: seq<string>)
    requires Normal(rooted, segs) && segs != []
    ensures Render(rooted, segs) != "/" && Render(rooted, segs) != "."
  {
    RenderedStart(rooted, segs);
    ReduceRendered(rooted, segs);
    ReduceTop(rooted);
  }

  lemma CutOfParts(mountPoint: string, last: string, path: string)
    requires Clean(mountPoint) == mountPoint && last != "" && '/' !in last && path != "/" && path != "."
    requires path == if mountPoint == "/" then "/" + last
                     else if mountPoint == "." then last
                     else mountPoint + "/" + last
    ensures CutFrom(V2Paths(mountPoint, "/" + last), path)
  {
    assert ("/" + last)[1..] == last;
    assert mountPoint + "/" + last == mountPoint + ("/" + last);
  }

  lemma CutOfRendered(rooted: bool, init: seq<string>, last: string)
    requires Normal(rooted, init + [last])
    ensures CutFrom(SplitMountPointAndGroup(Render(rooted, init + [last])), Render(rooted, init + [last]))
  {
    DirOfRendered(rooted, init, last);
    NormalSnoc(rooted, init, last);
    RenderSnoc(rooted, init, last);
    RenderedIsNotTop(rooted, init + [last]);
    CleanRendered(rooted, init);
    if init != [] {
      RenderedIsNotTop(rooted, init);
    }
    CutOfParts(Render(rooted, init), last, Render(rooted, init + [last]));
  }

  /** Splitting a cleaned path cuts off its last segment. */
  lemma SplitIsCut(path: string)
    requires Clean(path) == path
    ensures CutFrom(SplitMountPointAndGroup(path), path)
  {
    var rooted, segs := CleanIsRendered(path);
    if segs == [] {
      SplitTop(rooted);
    } else {
      var init, last := segs[..|segs| - 1], segs[|segs| - 1];
      assert segs == init + [last];
      CutOfRendered(rooted, init, last);
    }
  }

  /** `CgroupV2PathParser.Paths`: whatever it splits, `getFullPath` puts back together. */
  method PathsV2(hostRoot: string, mounts: Option<seq<string>>, cgroup: Option<seq<string>>)
    returns (r: Result<V2Paths, DetectError>)
    ensures r.Ok? <==> NamedV2Path(hostRoot, mounts, cgroup).Ok?
    ensures r.Ok? ==> r.value.GetFullPath() == NamedV2Path(hostRoot, mounts, cgroup).value
    ensures r.Ok? ==> CutFrom(r.value, NamedV2Path(hostRoot, mounts, cgroup).value)
    ensures r.Err? ==> r.error == NamedV2Path(hostRoot, mounts, cgroup).error
  {
    var fullPath := CgroupV2FullPath(hostRoot, mounts, cgroup);
    match fullPath {
      case Err(e) => return Err(e);
      case Ok(p) =>
        CleanIdempotent(FirstUnifiedMount(mounts.value, hostRoot).value + "/" + UnifiedPath(cgroup.value).value.value);
        SplitAndRejoin(p);
        SplitIsCut(p);
        return Ok(SplitMountPointAndGroup(p));
    }
  }

  /** The full v1 path exists exactly when both files know the subsystem, and leads where the joined text leads. */
  lemma V1FullPath(p: V1Paths, name: string)
    ensures p.GetFullPath(name).Ok? <==> name in p.mountPoints && name in p.paths
    ensures p.GetFullPath(name).Ok? && p.mountPoints[name] != "" ==>
      Destination(p.GetFullPath(name).value) == Destination(p.mountPoints[name] + "/" + name + "/" + p.paths[name])
  {
    if p.GetFullPath(name).Ok? && p.mountPoints[name] != "" {
      var text := p.mountPoints[name] + "/" + name + "/" + p.paths[name];
      var elems := [p.mountPoints[name], name, p.paths[name]];
      var rest := name + "/" + p.paths[name];
      assert Join([name, p.paths[name]], '/') == rest;
      assert elems[1..] == [name, p.paths[name]];
      assert Join(elems, '/') == p.mountPoints[name] + "/" + rest == text;
      CleanKeepsDestination(text);
    }
  }
}
