/** The two files of cgroup detection, from the records they print: mounts, and hierarchies of a process. */
module CgroupRecords {
  import opened Outcomes
  import opened StringMaps
  import opened Text
  import opened FilePath
  import opened CgroupDetect
  import opened CgroupPaths

  // ----- Mounts

  /** A line of `/proc/mounts`: device, mount point, type and what follows, however they are padded. */
  datatype Mount = Mount(device: string, mountPoint: string, fsType: string, others: seq<string>, gaps: seq<string>,
                         rest: string)
  {
    function Words(): (words: seq<string>) {
      [device, mountPoint, fsType] + others
    }

    predicate Valid() {
      && (forall w <- Words() :: IsWord(w, SPACES))
      && |gaps| == |Words()| && Separates(gaps, SPACES) && AllIn(rest, SPACES)
    }

    function Line(): string
      requires Valid()
    {
      Spaced(Words(), gaps, rest)
    }

    /** The mount is one of cgroup version 1 or 2 below the host root; types that go on behind the name count. */
    predicate Counts(hostRoot: string, version: CgroupVersion) {
      && (match version case V1 => "cgroup" <= fsType case V2 => "cgroup2" <= fsType)
      && hostRoot <= mountPoint
    }

    /** A version 1 mount of the hierarchy of these subsystems, in a cleaned directory. */
    predicate Hierarchy(dir: string, subsystems: seq<string>) {
      && dir != "" && Clean(dir) == dir && mountPoint == dir + "/" + Join(subsystems, ',')
      && subsystems != [] && Join(subsystems, ',') != "" && forall s <- subsystems :: ',' !in s && '/' !in s
    }
  }

  /** A printed mount is read back: it qualifies exactly if it counts, and its mount point is the record's. */
  lemma MountReads(m: Mount, hostRoot: string, version: CgroupVersion)
    requires m.Valid()
    ensures |Fields(m.Line())| >= 3
    ensures Qualifies(m.Line(), hostRoot, version) <==> m.Counts(hostRoot, version)
    ensures MountPoint(m.Line()) == m.mountPoint
  {
    FieldsSpaced(m.Words(), m.gaps, m.rest, SPACES);
  }

  /** A line with fewer than three words never qualifies. */
  lemma ShortLine(line: string, hostRoot: string, version: CgroupVersion)
    requires |Fields(line)| < 3
    ensures !Qualifies(line, hostRoot, version)
  {
  }

  lemma {:induction false} SlashFree(parts: seq<string>, sep: char)
    requires sep != '/' && forall s <- parts :: '/' !in s
    ensures '/' !in Join(parts, sep)
  {
    if |parts| > 1 {
      SlashFree(parts[1..], sep);
    }
  }

  /** A hierarchy mounts exactly its subsystems, all in its directory. */
  lemma HierarchyReads(m: Mount, hostRoot: string, dir: string, subsystems: seq<string>, s: string)
    requires m.Valid() && m.Hierarchy(dir, subsystems)
    ensures Mounts(m.Line(), hostRoot, s) <==> m.Counts(hostRoot, V1) && s in subsystems
    ensures |Fields(m.Line())| >= 3 && Dir(MountPoint(m.Line())) == dir
  {
    MountReads(m, hostRoot, V1);
    SlashFree(subsystems, ',');
    DirAndBase(dir, Join(subsystems, ','));
    SplitJoin(subsystems, ',');
  }

  predicate AllMounts(ms: seq<Mount>) {
    forall m <- ms :: m.Valid()
  }

  function MountLines(ms: seq<Mount>): (lines: seq<string>)
    requires AllMounts(ms)
    ensures |lines| == |ms| && forall i :: 0 <= i < |ms| ==> ms[i].Valid() && lines[i] == ms[i].Line()
  {
    seq(|ms|, i requires 0 <= i < |ms| => assert ms[i] in ms; ms[i].Line())
  }

  // ----- Hierarchies of a process

  /** A line of `/proc/<pid>/cgroup`: hierarchy ID, controllers and path. */
  datatype Hierarchy = Hierarchy(id: string, controllers: seq<string>, path: string) {
    predicate Valid() {
      && ':' !in id && ':' !in path && controllers != []
      && forall c <- controllers :: ':' !in c && ',' !in c
    }

    function Line(): string {
      id + ":" + Join(controllers, ',') + ":" + path
    }
  }

  lemma {:induction false} ColonFreeJoin(parts: seq<string>)
    requires forall s <- parts :: ':' !in s
    ensures ':' !in Join(parts, ',')
  {
    if |parts| > 1 {
      ColonFreeJoin(parts[1..]);
    }
  }

  lemma HierarchyFields(h: Hierarchy)
    requires h.Valid()
    ensures Split(h.Line(), ':') == [h.id, Join(h.controllers, ','), h.path]
  {
    ColonFreeJoin(h.controllers);
    var fields := [h.id, Join(h.controllers, ','), h.path];
    assert Join(fields[1..], ':') == Join(h.controllers, ',') + ":" + h.path by {
      assert fields[1..][1..] == [h.path];
    }
    assert Join(fields, ':') == h.Line();
    SplitJoin(fields, ':');
  }

  /** A printed hierarchy is read back: its controllers get its path, and it is the unified one exactly if its ID is 0
      and it has no controllers. */
  lemma HierarchyLineReads(h: Hierarchy, s: string)
    requires h.Valid()
    ensures !Malformed(h.Line()) && PathOf(h.Line()) == h.path
    ensures Places(h.Line(), s) <==> s in h.controllers
    ensures IsUnified(h.Line()) <==> h.id == "0" && h.controllers == [""]
  {
    HierarchyFields(h);
    SplitJoin(h.controllers, ',');
    if Join(h.controllers, ',') == "" {
      assert Split("", ',') == [""];
    }
  }

  lemma FourParts(a: string, b: string, c: string, d: string)
    ensures |Split(a + [':'] + (b + [':'] + (c + [':'] + d)), ':')| >= 4
  {
    SplitConcat(a, ':', b + [':'] + (c + [':'] + d));
    SplitConcat(b, ':', c + [':'] + d);
    SplitConcat(c, ':', d);
  }

  lemma Regrouped(a: string, b: string, c: string, d: string)
    ensures a + ":" + b + ":" + (c + ":" + d) == a + [':'] + (b + [':'] + (c + [':'] + d))
  {
  }

  /** A path with a colon makes its line malformed. */
  lemma ColonInPath(h: Hierarchy, before: string, after: string)
    requires h.path == before + ":" + after
    ensures Malformed(h.Line())
  {
    var controllers := Join(h.controllers, ',');
    FourParts(h.id, controllers, before, after);
    Regrouped(h.id, controllers, before, after);
  }

  predicate AllHierarchies(hs: seq<Hierarchy>) {
    forall h <- hs :: h.Valid()
  }

  function HierarchyLines(hs: seq<Hierarchy>): (lines: seq<string>)
    ensures |lines| == |hs| && forall i :: 0 <= i < |hs| ==> lines[i] == hs[i].Line()
  {
    seq(|hs|, i requires 0 <= i < |hs| => hs[i].Line())
  }

  // ----- Version 1, from records to maps

  /** The record mounts the subsystem below the host root. */
  predicate MountsRecord(m: Mount, hostRoot: string, s: string) {
    m.Counts(hostRoot, V1) && s in Split(Base(m.mountPoint), ',')
  }

  lemma MountsRecordReads(m: Mount, hostRoot: string, s: string)
    requires m.Valid()
    ensures Mounts(m.Line(), hostRoot, s) <==> MountsRecord(m, hostRoot, s)
  {
    MountReads(m, hostRoot, V1);
  }

  /** The first record that mounts a subsystem decides its directory. */
  lemma FirstRecordMounts(ms: seq<Mount>, hostRoot: string, s: string, i: nat, dir: string, subsystems: seq<string>)
    requires AllMounts(ms) && i < |ms| && ms[i].Hierarchy(dir, subsystems) && s in subsystems
    requires ms[i].Counts(hostRoot, V1) && forall j :: 0 <= j < i ==> !MountsRecord(ms[j], hostRoot, s)
    ensures FirstMount(MountLines(ms), hostRoot, s) == Some(dir)
  {
    var lines := MountLines(ms);
    forall j | 0 <= j < i
      ensures !Mounts(lines[j], hostRoot, s)
    {
      MountsRecordReads(ms[j], hostRoot, s);
    }
    HierarchyReads(ms[i], hostRoot, dir, subsystems, s);
    FirstMountIsFirst(lines, hostRoot, s);
    assert IsFirstMount(lines, hostRoot, s, i);
  }

  lemma NoRecordMounts(ms: seq<Mount>, hostRoot: string, s: string)
    requires AllMounts(ms)
    ensures FirstMount(MountLines(ms), hostRoot, s) == None <==> forall m <- ms :: !MountsRecord(m, hostRoot, s)
  {
    var lines := MountLines(ms);
    FirstMountIsFirst(lines, hostRoot, s);
    forall i | 0 <= i < |ms|
      ensures Mounts(lines[i], hostRoot, s) <==> MountsRecord(ms[i], hostRoot, s)
    {
      MountsRecordReads(ms[i], hostRoot, s);
    }
  }

  /** The last record that lists a subsystem decides its path. */
  lemma LastRecordPlaces(hs: seq<Hierarchy>, s: string, k: nat)
    requires AllHierarchies(hs) && k < |hs| && s in hs[k].controllers
    requires forall j :: k < j < |hs| ==> s !in hs[j].controllers
    ensures LastPath(HierarchyLines(hs), s) == Some(hs[k].path)
  {
    var lines := HierarchyLines(hs);
    forall j | k <= j < |hs|
      ensures Places(lines[j], s) <==> s in hs[j].controllers
      ensures !Malformed(lines[j]) && PathOf(lines[j]) == hs[j].path
    {
      HierarchyLineReads(hs[j], s);
    }
    LastPathIsLast(lines, s);
    assert IsLastPlacing(lines, s, k);
  }

  /** What version 1 detection finds of a subsystem in printed files: the path that leads where the directory of its
      first mount, its name and the path of its last record lead. */
  lemma V1FromRecords(p: V1Paths, ms: seq<Mount>, hs: seq<Hierarchy>, hostRoot: string, s: string, i: nat, k: nat,
                      dir: string, subsystems: seq<string>)
    requires AllMounts(ms) && i < |ms| && ms[i].Hierarchy(dir, subsystems) && s in subsystems
    requires ms[i].Counts(hostRoot, V1) && forall j :: 0 <= j < i ==> !MountsRecord(ms[j], hostRoot, s)
    requires AllHierarchies(hs) && k < |hs| && s in hs[k].controllers
    requires forall j :: k < j < |hs| ==> s !in hs[j].controllers
    requires Lookup(p.mountPoints, s) == FirstMount(MountLines(ms), hostRoot, s)
    requires Lookup(p.paths, s) == LastPath(HierarchyLines(hs), s)
    ensures p.GetMountPoint(s) == Ok(dir) && p.GetPath(s) == Ok(hs[k].path)
    ensures p.GetFullPath(s).Ok?
    ensures Destination(p.GetFullPath(s).value) == Destination(dir + "/" + s + "/" + hs[k].path)
  {
    FirstRecordMounts(ms, hostRoot, s, i, dir, subsystems);
    LastRecordPlaces(hs, s, k);
    V1FullPath(p, s);
  }

  // ----- Version 2, from records to the path

  lemma FirstUnifiedRecord(ms: seq<Mount>, hostRoot: string, i: nat)
    requires AllMounts(ms) && i < |ms| && ms[i].Counts(hostRoot, V2)
    requires forall j :: 0 <= j < i ==> !ms[j].Counts(hostRoot, V2)
    ensures FirstUnifiedMount(MountLines(ms), hostRoot) == Some(ms[i].mountPoint)
  {
    var lines := MountLines(ms);
    forall j | 0 <= j <= i
      ensures Qualifies(lines[j], hostRoot, V2) <==> ms[j].Counts(hostRoot, V2)
    {
      MountReads(ms[j], hostRoot, V2);
    }
    MountReads(ms[i], hostRoot, V2);
    UnifiedScanDecides(lines, hostRoot, i);
  }

  predicate UnifiedRecord(h: Hierarchy) {
    h.id == "0" && h.controllers == [""]
  }

  lemma FirstUnifiedPath(hs: seq<Hierarchy>, k: nat)
    requires AllHierarchies(hs) && k < |hs| && UnifiedRecord(hs[k])
    requires forall j :: 0 <= j < k ==> !UnifiedRecord(hs[j])
    ensures UnifiedPath(HierarchyLines(hs)) == Ok(Some(hs[k].path))
  {
    var lines := HierarchyLines(hs);
    forall j | 0 <= j <= k
      ensures !Malformed(lines[j]) && (IsUnified(lines[j]) <==> UnifiedRecord(hs[j]))
    {
      HierarchyLineReads(hs[j], "");
    }
    HierarchyLineReads(hs[k], "");
    UnifiedScanDecides(lines, "", k);
  }

  /** What version 2 detection finds in printed files: a cleaned path that leads where the mount point of the first
      unified mount and then the path of the first unified record lead. */
  lemma V2FromRecords(ms: seq<Mount>, hs: seq<Hierarchy>, hostRoot: string, i: nat, k: nat)
    requires AllMounts(ms) && i < |ms| && ms[i].Counts(hostRoot, V2)
    requires forall j :: 0 <= j < i ==> !ms[j].Counts(hostRoot, V2)
    requires AllHierarchies(hs) && k < |hs| && UnifiedRecord(hs[k]) && hs[k].path != ""
    requires forall j :: 0 <= j < k ==> !UnifiedRecord(hs[j])
    ensures var r := NamedV2Path(hostRoot, Some(MountLines(ms)), Some(HierarchyLines(hs)));
      && r.Ok? && Clean(r.value) == r.value
      && Destination(r.value) == Destination(ms[i].mountPoint + "/" + hs[k].path)
  {
    FirstUnifiedRecord(ms, hostRoot, i);
    FirstUnifiedPath(hs, k);
    CleanIdempotent(ms[i].mountPoint + "/" + hs[k].path);
    CleanKeepsDestination(ms[i].mountPoint + "/" + hs[k].path);
  }

  lemma NoUnifiedMount(ms: seq<Mount>, hostRoot: string)
    requires AllMounts(ms)
    ensures FirstUnifiedMount(MountLines(ms), hostRoot) == None <==> forall m <- ms :: !m.Counts(hostRoot, V2)
  {
    var lines := MountLines(ms);
    forall i | 0 <= i < |ms|
      ensures Qualifies(lines[i], hostRoot, V2) <==> ms[i].Counts(hostRoot, V2)
    {
      MountReads(ms[i], hostRoot, V2);
    }
    NoLineDecides(lines, hostRoot);
  }

  lemma NoUnifiedRecord(hs: seq<Hierarchy>)
    requires AllHierarchies(hs)
    ensures UnifiedPath(HierarchyLines(hs)) == Ok(None) <==> forall h <- hs :: !UnifiedRecord(h)
  {
    var lines := HierarchyLines(hs);
    forall k | 0 <= k < |hs|
      ensures !Malformed(lines[k]) && (IsUnified(lines[k]) <==> UnifiedRecord(hs[k]))
    {
      HierarchyLineReads(hs[k], "");
    }
    NoLineDecides(lines, "");
  }

  /** What version 2 detection fails with, on printed files. */
  lemma V2Failures(ms: seq<Mount>, hs: seq<Hierarchy>, hostRoot: string)
    requires AllMounts(ms) && AllHierarchies(hs)
    ensures var r := NamedV2Path(hostRoot, Some(MountLines(ms)), Some(HierarchyLines(hs)));
      && ((forall m <- ms :: !m.Counts(hostRoot, V2)) ==> r == Err(MountPointNotFound))
      && ((exists m <- ms :: m.Counts(hostRoot, V2)) && (forall h <- hs :: !UnifiedRecord(h)) ==>
            r == Err(PathNotFound))
  {
    NoUnifiedMount(ms, hostRoot);
    NoUnifiedRecord(hs);
  }
}
