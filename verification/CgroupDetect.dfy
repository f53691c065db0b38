/** A Go `map[string]string`: a reference, which callees fill in place. */
module StringMaps {
  import opened Outcomes

  class StringMap {
    var entries: map<string, string>

    constructor ()
      ensures entries == map[]
    {
      entries := map[];
    }
  }

  function Lookup(m: map<string, string>, key: string): Option<string> {
    if key in m then Some(m[key]) else None
  }

  function OrElse(o: Option<string>, p: Option<string>): Option<string> {
    if o.Some? then o else p
  }
}

/** The loops that read `/proc/mounts` and `/proc/<pid>/cgroup` into maps. A file is its lines;
    `None` is a file that cannot be opened. */
module CgroupDetect {
  import opened Outcomes
  import opened StringMaps
  import opened Text
  import opened FilePath

  datatype DetectError = OpenFailed | BadCgroupLine | MountPointNotFound | PathNotFound

  datatype CgroupVersion = V1 | V2

  const UNIFIED: string := "/"

  function MountName(version: CgroupVersion): string {
    if version.V1? then "cgroup" else "cgroup2"
  }

  /** The line mounts a file system whose type starts with the name, below the host root. */
  predicate Qualifies(line: string, hostRoot: string, version: CgroupVersion) {
    var fields := Fields(line);
    |fields| >= 3 && MountName(version) <= fields[2] && hostRoot <= fields[1]
  }

  function MountPoint(line: string): (path: string)
    requires |Fields(line)| >= 3
    ensures path != ""
  {
    assert Fields(line)[1] in Fields(line);
    Fields(line)[1]
  }

  /** A version 1 mount line for the subsystem: the last path element lists it. */
  predicate Mounts(line: string, hostRoot: string, subsystem: string) {
    Qualifies(line, hostRoot, V1) && subsystem in Split(Base(MountPoint(line)), ',')
  }

  /** Directory of the first line that mounts the subsystem. */
  function FirstMount(lines: seq<string>, hostRoot: string, subsystem: string): Option<string> {
    if lines == [] then None
    else if Mounts(lines[0], hostRoot, subsystem) then Some(Dir(MountPoint(lines[0])))
    else FirstMount(lines[1..], hostRoot, subsystem)
  }

  function FirstUnifiedMount(lines: seq<string>, hostRoot: string): (path: Option<string>)
    ensures path.Some? ==> path.value != ""
  {
    if lines == [] then None
    else if Qualifies(lines[0], hostRoot, V2) then Some(MountPoint(lines[0]))
    else FirstUnifiedMount(lines[1..], hostRoot)
  }

  predicate Malformed(line: string) {
    |Split(line, ':')| != 3
  }

  /** A line of `/proc/<pid>/cgroup` that puts the process in the subsystem's hierarchy. */
  predicate Places(line: string, subsystem: string) {
    !Malformed(line) && subsystem in Split(Split(line, ':')[1], ',')
  }

  function PathOf(line: string): string
    requires !Malformed(line)
  {
    Split(line, ':')[2]
  }

  /** Path of the last line that lists the subsystem. */
  function LastPath(lines: seq<string>, subsystem: string): Option<string> {
    if lines == [] then None
    else OrElse(LastPath(lines[1..], subsystem), if Places(lines[0], subsystem) then Some(PathOf(lines[0])) else None)
  }

  /** A path set for each of some subsystems. */
  function SetAll(m: map<string, string>, subsystems: seq<string>, path: string): map<string, string>
    decreases |subsystems|
  {
    if subsystems == [] then m else SetAll(m[subsystems[0] := path], subsystems[1..], path)
  }

  /** The map after reading well-formed lines. */
  function PathsAfter(m: map<string, string>, lines: seq<string>): map<string, string>
    requires forall line <- lines :: !Malformed(line)
    decreases |lines|
  {
    if lines == [] then m
    else
      assert !Malformed(lines[0]);
      PathsAfter(SetAll(m, Split(Split(lines[0], ':')[1], ','), PathOf(lines[0])), lines[1..])
  }

  lemma {:induction false} SetAllLookup(m: map<string, string>, subsystems: seq<string>, path: string, s: string)
    ensures Lookup(SetAll(m, subsystems, path), s) == if s in subsystems then Some(path) else Lookup(m, s)
    decreases |subsystems|
  {
    if subsystems != [] {
      SetAllLookup(m[subsystems[0] := path], subsystems[1..], path, s);
    }
  }

  /** Reading lines into a map puts the last path found for a subsystem in place of its old one. */
  lemma {:induction false} PathsAfterLookup(m: map<string, string>, lines: seq<string>, s: string)
    requires forall line <- lines :: !Malformed(line)
    ensures Lookup(PathsAfter(m, lines), s) == OrElse(LastPath(lines, s), Lookup(m, s))
    decreases |lines|
  {
    if lines != [] {
      assert !Malformed(lines[0]);
      var subsystems := Split(Split(lines[0], ':')[1], ',');
      SetAllLookup(m, subsystems, PathOf(lines[0]), s);
      PathsAfterLookup(SetAll(m, subsystems, PathOf(lines[0])), lines[1..], s);
    }
  }

  /** The lines in front of the first malformed one. */
  function WellFormedPrefix(lines: seq<string>): (prefix: seq<string>)
    ensures forall line <- prefix :: !Malformed(line)
  {
    if lines == [] || Malformed(lines[0]) then [] else [lines[0]] + WellFormedPrefix(lines[1..])
  }

  predicate IsUnified(line: string) {
    !Malformed(line) && Split(line, ':')[0] == "0" && Split(line, ':')[1] == ""
  }

  /** What the version 2 scan finds: the path of the first "0::" line, unless a malformed line precedes it. */
  function UnifiedPath(lines: seq<string>): Result<Option<string>, DetectError> {
    if lines == [] then Ok(None)
    else if Malformed(lines[0]) then Err(BadCgroupLine)
    else if IsUnified(lines[0]) then Ok(Some(PathOf(lines[0])))
    else UnifiedPath(lines[1..])
  }

  /** The inner loop for one version 1 mount line: the first directory found for a subsystem stays. */
  method AddSubsystems(mountPoints: StringMap, subsystems: seq<string>, dir: string)
    modifies mountPoints
    ensures forall s ::
      Lookup(mountPoints.entries, s)
      == OrElse(Lookup(old(mountPoints.entries), s), if s in subsystems then Some(dir) else None)
  {
    for i := 0 to |subsystems|
      invariant forall s ::
        Lookup(mountPoints.entries, s)
        == OrElse(Lookup(old(mountPoints.entries), s), if s in subsystems[..i] then Some(dir) else None)
    {
      assert subsystems[..i + 1] == subsystems[..i] + [subsystems[i]];
      if subsystems[i] !in mountPoints.entries {
        mountPoints.entries := mountPoints.entries[subsystems[i] := dir];
      }
    }
    assert subsystems[..|subsystems|] == subsystems;
  }

  method GetMountsFile(hostRoot: string, mountPoints: StringMap, version: CgroupVersion, file: Option<seq<string>>)
    returns (err: Option<DetectError>)
    modifies mountPoints
    ensures err == if file.None? then Some(OpenFailed) else None
    ensures file.None? ==> mountPoints.entries == old(mountPoints.entries)
    ensures file.Some? && version.V1? ==> forall s ::
      Lookup(mountPoints.entries, s) == OrElse(Lookup(old(mountPoints.entries), s), FirstMount(file.value, hostRoot, s))
    ensures file.Some? && version.V2? ==>
      mountPoints.entries == match FirstUnifiedMount(file.value, hostRoot)
                             case None => old(mountPoints.entries)
                             case Some(path) => old(mountPoints.entries)[UNIFIED := path]
  {
    if file.None? {
      return Some(OpenFailed);
    }
    var lines := file.value;
    for i := 0 to |lines|
      invariant version.V1? ==> forall s ::
        OrElse(Lookup(mountPoints.entries, s), FirstMount(lines[i..], hostRoot, s))
        == OrElse(Lookup(old(mountPoints.entries), s), FirstMount(lines, hostRoot, s))
      invariant version.V2? ==> mountPoints.entries == old(mountPoints.entries)
      invariant version.V2? ==> FirstUnifiedMount(lines[i..], hostRoot) == FirstUnifiedMount(lines, hostRoot)
    {
      assert lines[i..][0] == lines[i] && lines[i..][1..] == lines[i + 1..];
      if !Qualifies(lines[i], hostRoot, version) {
        continue;
      }
      match version {
        case V1 =>
          AddSubsystems(mountPoints, Split(Base(MountPoint(lines[i])), ','), Dir(MountPoint(lines[i])));
        case V2 =>
          mountPoints.entries := mountPoints.entries[UNIFIED := MountPoint(lines[i])];
          return None;
      }
    }
    return None;
  }

  /** The inner loop for one version 1 cgroup line: a later path replaces an earlier one. */
  method SetSubsystems(cgroupPaths: StringMap, subsystems: seq<string>, path: string)
    modifies cgroupPaths
    ensures cgroupPaths.entries == SetAll(old(cgroupPaths.entries), subsystems, path)
  {
    for i := 0 to |subsystems|
      invariant SetAll(cgroupPaths.entries, subsystems[i..], path) == SetAll(old(cgroupPaths.entries), subsystems, path)
    {
      assert subsystems[i..][1..] == subsystems[i + 1..];
      cgroupPaths.entries := cgroupPaths.entries[subsystems[i] := path];
    }
  }

  lemma NextPaths(m: map<string, string>, lines: seq<string>)
    requires lines != [] && !Malformed(lines[0])
    ensures PathsAfter(m, WellFormedPrefix(lines))
            == PathsAfter(SetAll(m, Split(Split(lines[0], ':')[1], ','), PathOf(lines[0])),
                          WellFormedPrefix(lines[1..]))
  {
    var rest := WellFormedPrefix(lines[1..]);
    assert WellFormedPrefix(lines) == [lines[0]] + rest;
    assert ([lines[0]] + rest)[1..] == rest;
  }

  method GetCgroupFilePaths(cgroupPaths: StringMap, version: CgroupVersion, file: Option<seq<string>>)
    returns (err: Option<DetectError>)
    modifies cgroupPaths
    ensures file.None? ==> err == Some(OpenFailed) && cgroupPaths.entries == old(cgroupPaths.entries)
    ensures file.Some? && version.V1? ==>
      err == if forall i :: 0 <= i < |file.value| ==> !Malformed(file.value[i]) then None else Some(BadCgroupLine)
    ensures file.Some? && version.V1? ==>
      cgroupPaths.entries == PathsAfter(old(cgroupPaths.entries), WellFormedPrefix(file.value))
    ensures file.Some? && version.V2? ==>
      match UnifiedPath(file.value)
      case Err(e) => err == Some(e) && cgroupPaths.entries == old(cgroupPaths.entries)
      case Ok(None) => err == None && cgroupPaths.entries == old(cgroupPaths.entries)
      case Ok(Some(path)) => err == None && cgroupPaths.entries == old(cgroupPaths.entries)[UNIFIED := path]
  {
    if file.None? {
      return Some(OpenFailed);
    }
    var lines := file.value;
    ghost var after := PathsAfter(cgroupPaths.entries, WellFormedPrefix(lines));
    assert lines[0..] == lines;
    for i := 0 to |lines|
      invariant forall j :: 0 <= j < i ==> !Malformed(lines[j])
      invariant version.V1? ==> PathsAfter(cgroupPaths.entries, WellFormedPrefix(lines[i..])) == after
      invariant version.V2? ==> cgroupPaths.entries == old(cgroupPaths.entries)
      invariant version.V2? ==> UnifiedPath(lines[i..]) == UnifiedPath(lines)
    {
      var line := lines[i];
      assert lines[i..][0] == line && lines[i..][1..] == lines[i + 1..];
      var fields := Split(line, ':');
      if |fields| != 3 {
        return Some(BadCgroupLine);
      }
      match version {
        case V1 =>
          NextPaths(cgroupPaths.entries, lines[i..]);
          SetSubsystems(cgroupPaths, Split(fields[1], ','), fields[2]);
        case V2 =>
          if fields[0] == "0" && fields[1] == "" {
            cgroupPaths.entries := cgroupPaths.entries[UNIFIED := fields[2]];
            return None;
          }
      }
    }
    return None;
  }

  // ----- What the scans find, line by line

  predicate IsFirstMount(lines: seq<string>, hostRoot: string, subsystem: string, i: int) {
    0 <= i < |lines| && Mounts(lines[i], hostRoot, subsystem)
    && forall j :: 0 <= j < i ==> !Mounts(lines[j], hostRoot, subsystem)
  }

  /** First wins: a subsystem is mapped exactly when some line mounts it, to the directory of the first such line. */
  lemma {:induction false} FirstMountIsFirst(lines: seq<string>, hostRoot: string, subsystem: string)
    ensures FirstMount(lines, hostRoot, subsystem).None? <==>
            forall i :: 0 <= i < |lines| ==> !Mounts(lines[i], hostRoot, subsystem)
    ensures forall i :: IsFirstMount(lines, hostRoot, subsystem, i) ==>
            FirstMount(lines, hostRoot, subsystem) == Some(Dir(MountPoint(lines[i])))
  {
    if lines != [] {
      FirstMountIsFirst(lines[1..], hostRoot, subsystem);
      forall i | IsFirstMount(lines, hostRoot, subsystem, i)
        ensures FirstMount(lines, hostRoot, subsystem) == Some(Dir(MountPoint(lines[i])))
      {
        if i > 0 {
          assert IsFirstMount(lines[1..], hostRoot, subsystem, i - 1);
        }
      }
    }
  }

  predicate IsLastPlacing(lines: seq<string>, subsystem: string, i: int) {
    0 <= i < |lines| && Places(lines[i], subsystem)
    && forall j :: i < j < |lines| ==> !Places(lines[j], subsystem)
  }

  /** Last wins: a subsystem is mapped exactly when some line lists it, to the path of the last such line. */
  lemma {:induction false} LastPathIsLast(lines: seq<string>, subsystem: string)
    ensures LastPath(lines, subsystem).None? <==> forall i :: 0 <= i < |lines| ==> !Places(lines[i], subsystem)
    ensures forall i :: IsLastPlacing(lines, subsystem, i) ==>
            LastPath(lines, subsystem) == Some(PathOf(lines[i]))
  {
    if lines != [] {
      var rest := lines[1..];
      LastPathIsLast(rest, subsystem);
      assert forall j :: 0 <= j < |rest| ==> lines[j + 1] == rest[j];
      forall i | IsLastPlacing(lines, subsystem, i)
        ensures LastPath(lines, subsystem) == Some(PathOf(lines[i]))
      {
        if i > 0 {
          assert IsLastPlacing(rest, subsystem, i - 1);
        }
      }
    }
  }

  /** One malformed line anywhere makes the version 1 scan fail, and nothing else does. */
  lemma {:induction false} WellFormedIffNoMalformedLine(lines: seq<string>)
    ensures WellFormedPrefix(lines) == lines <==> forall i :: 0 <= i < |lines| ==> !Malformed(lines[i])
  {
    if lines != [] {
      WellFormedIffNoMalformedLine(lines[1..]);
      if !Malformed(lines[0]) {
        assert lines == [lines[0]] + lines[1..];
        assert WellFormedPrefix(lines)[1..] == WellFormedPrefix(lines[1..]);
      }
    }
  }

  /** Version 2: the scans stop at the line that decides, so any continuation of the files gives the same. */
  lemma {:induction false} LaterLinesAreIrrelevant(lines: seq<string>, more: seq<string>, hostRoot: string)
    ensures FirstUnifiedMount(lines, hostRoot).Some? ==>
            FirstUnifiedMount(lines + more, hostRoot) == FirstUnifiedMount(lines, hostRoot)
    ensures UnifiedPath(lines) != Ok(None) ==> UnifiedPath(lines + more) == UnifiedPath(lines)
  {
    if lines != [] {
      assert (lines + more)[1..] == lines[1..] + more;
      LaterLinesAreIrrelevant(lines[1..], more, hostRoot);
    }
  }

  /** Version 2: which line decides. */
  lemma {:induction false} UnifiedScanDecides(lines: seq<string>, hostRoot: string, i: nat)
    requires i < |lines|
    ensures Qualifies(lines[i], hostRoot, V2) && (forall j :: 0 <= j < i ==> !Qualifies(lines[j], hostRoot, V2)) ==>
            FirstUnifiedMount(lines, hostRoot) == Some(MountPoint(lines[i]))
    ensures (forall j :: 0 <= j < i ==> !Malformed(lines[j]) && !IsUnified(lines[j])) ==>
            (IsUnified(lines[i]) ==> UnifiedPath(lines) == Ok(Some(PathOf(lines[i]))))
            && (Malformed(lines[i]) ==> UnifiedPath(lines) == Err(BadCgroupLine))
  {
    if i > 0 {
      UnifiedScanDecides(lines[1..], hostRoot, i - 1);
    }
  }

  /** Version 2: when no line decides. */
  lemma {:induction false} NoLineDecides(lines: seq<string>, hostRoot: string)
    ensures FirstUnifiedMount(lines, hostRoot) == None <==>
            forall i :: 0 <= i < |lines| ==> !Qualifies(lines[i], hostRoot, V2)
    ensures UnifiedPath(lines) == Ok(None) <==>
            forall i :: 0 <= i < |lines| ==> !Malformed(lines[i]) && !IsUnified(lines[i])
  {
    if lines != [] {
      NoLineDecides(lines[1..], hostRoot);
      assert forall i :: 1 <= i < |lines| ==> lines[i] == lines[1..][i - 1];
    }
  }

  /** A line of `/proc/<pid>/cgroup` is malformed exactly if it has not two colons. */
  lemma MalformedMeans(line: string)
    ensures Malformed(line) <==> multiset(line)[':'] != 2
  {
    SplitCounts(line, ':');
  }
}
