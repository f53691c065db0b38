/** The attributes every reported container carries: its IDs, what the container list says of it, and its labels.
    Go ranges over the label map in an unspecified order. */
module Attributes {
  import opened Outcomes
  import opened FargateLabels
  import opened MetricSets
  import Arn

  /** `container.Summary`, as far as the sampler reads it. */
  datatype Summary = Summary(
    id: string, names: seq<string>, command: string, imageID: string, image: string, state: string, status: string,
    labels: Labels)

  /** The text attributes of a metric set. */
  type AttributeMap = map<string, string>

  type Attribute = Entry<string, string>

  const SHORT_ID_LENGTH := 12
  const LABEL_PREFIX := "label."

  function ShortID(id: string): (short: string)
    ensures short <= id && |short| == if |id| <= 12 then |id| else 12
  {
    if |id| > SHORT_ID_LENGTH then id[..SHORT_ID_LENGTH] else id
  }

  // ----- What the container list says

  /** The first name, without its leading slash. */
  function ContainerName(names: seq<string>): string {
    if |names| == 0 then ""
    else if |names[0]| > 0 && names[0][0] == '/' then names[0][1..]
    else names[0]
  }

  function AllEntries(c: Summary): seq<Attribute> {
    [ Entry("commandLine", c.command),
      Entry("name", ContainerName(c.names)),
      Entry("image", c.imageID),
      Entry("imageName", c.image),
      Entry("state", c.state),
      Entry("status", c.status) ]
  }

  /** The entries that say something. */
  function Sanitized(entries: seq<Attribute>): seq<Attribute> {
    if entries == [] then []
    else
      var last := entries[|entries| - 1];
      Sanitized(entries[..|entries| - 1]) + if last.value == "" then [] else [last]
  }

  /** `attributes`. */
  method AttributesOf(container: Summary) returns (sanitizedEntries: seq<Attribute>)
    ensures sanitizedEntries == Sanitized(AllEntries(container))
  {
    var cname := "";
    if |container.names| > 0 {
      cname := container.names[0];
      if |cname| > 0 && cname[0] == '/' {
        cname := cname[1..];
      }
    }
    var entries := [
      Entry("commandLine", container.command),
      Entry("name", cname),
      Entry("image", container.imageID),
      Entry("imageName", container.image),
      Entry("state", container.state),
      Entry("status", container.status) ];
    sanitizedEntries := [];
    for i := 0 to |entries|
      invariant sanitizedEntries == Sanitized(entries[..i])
    {
      assert entries[..i + 1][..i] == entries[..i];
      if entries[i].value != "" {
        sanitizedEntries := sanitizedEntries + [entries[i]];
      }
    }
    assert entries[..|entries|] == entries;
  }

  // ----- Labels

  /** `labelRename`. */
  function Renamed(key: string): Option<string> {
    if key == "com.amazonaws.ecs.container-name" then Some("ecsContainerName")
    else if key == CLUSTER then Some("ecsClusterName")
    else if key == TASK_ARN then Some("ecsTaskArn")
    else if key == "com.amazonaws.ecs.task-definition-family" then Some("ecsTaskDefinitionFamily")
    else if key == "com.amazonaws.ecs.task-definition-version" then Some("ecsTaskDefinitionVersion")
    else if key == LAUNCH_TYPE then Some("ecsLaunchType")
    else if key == CLUSTER_ARN then Some("ecsClusterArn")
    else if key == AWS_REGION then Some("awsRegion")
    else None
  }

  /** The label a new name stands for. */
  function Original(name: string): Option<string> {
    if name == "ecsContainerName" then Some("com.amazonaws.ecs.container-name")
    else if name == "ecsClusterName" then Some(CLUSTER)
    else if name == "ecsTaskArn" then Some(TASK_ARN)
    else if name == "ecsTaskDefinitionFamily" then Some("com.amazonaws.ecs.task-definition-family")
    else if name == "ecsTaskDefinitionVersion" then Some("com.amazonaws.ecs.task-definition-version")
    else if name == "ecsLaunchType" then Some(LAUNCH_TYPE)
    else if name == "ecsClusterArn" then Some(CLUSTER_ARN)
    else if name == "awsRegion" then Some(AWS_REGION)
    else None
  }

  /** The label whose value is shown under a name, if any label is. */
  function SourceOf(name: string): Option<string> {
    if LABEL_PREFIX <= name then Some(name[|LABEL_PREFIX|..]) else Original(name)
  }

  lemma OriginalOfRenamed(key: string, name: string)
    requires Renamed(key) == Some(name)
    ensures Original(name) == Some(key)
  {
  }

  lemma RenamedOfOriginal(key: string, name: string)
    requires Original(name) == Some(key)
    ensures Renamed(key) == Some(name)
  {
  }

  /** No two labels have the same new name. */
  lemma RenamingIsInvertible(key: string, name: string)
    ensures Renamed(key) == Some(name) <==> Original(name) == Some(key)
  {
    if Renamed(key) == Some(name) {
      OriginalOfRenamed(key, name);
    }
    if Original(name) == Some(key) {
      RenamedOfOriginal(key, name);
    }
  }

  /** No prefixed label is mistaken for a renamed one. */
  lemma RenamedIsNotPrefixed(key: string)
    requires Renamed(key).Some?
    ensures !(LABEL_PREFIX <= Renamed(key).value)
  {
    assert LABEL_PREFIX[0] == 'l';
    assert Renamed(key).value[0] == 'e' || Renamed(key).value[0] == 'a';
  }

  /** Some of the labels are shown under this name. */
  predicate Shows(name: string, keys: set<string>) {
    SourceOf(name).Some? && SourceOf(name).value in keys
  }

  lemma SourceOfLabel(key: string)
    ensures SourceOf(LABEL_PREFIX + key) == Some(key)
    ensures Renamed(key).Some? ==> SourceOf(Renamed(key).value) == Some(key)
  {
    assert (LABEL_PREFIX + key)[|LABEL_PREFIX|..] == key;
    if Renamed(key).Some? {
      OriginalOfRenamed(key, Renamed(key).value);
      RenamedIsNotPrefixed(key);
    }
  }

  lemma ShownName(name: string)
    requires SourceOf(name).Some?
    ensures name == LABEL_PREFIX + SourceOf(name).value || Renamed(SourceOf(name).value) == Some(name)
  {
    if !(LABEL_PREFIX <= name) {
      RenamedOfOriginal(SourceOf(name).value, name);
    }
  }

  lemma NamesAreShown(keys: set<string>)
    ensures var names := (set k <- keys :: LABEL_PREFIX + k) + (set k <- keys | Renamed(k).Some? :: Renamed(k).value);
      forall name :: name in names <==> Shows(name, keys)
  {
    forall k <- keys
      ensures SourceOf(LABEL_PREFIX + k) == Some(k)
      ensures Renamed(k).Some? ==> SourceOf(Renamed(k).value) == Some(k)
    {
      SourceOfLabel(k);
    }
    forall name | Shows(name, keys)
      ensures name == LABEL_PREFIX + SourceOf(name).value || Renamed(SourceOf(name).value) == Some(name)
    {
      ShownName(name);
    }
  }

  function NamesOf(keys: set<string>): (names: set<string>)
    ensures forall name :: name in names <==> Shows(name, keys)
  {
    NamesAreShown(keys);
    (set k <- keys :: LABEL_PREFIX + k) + (set k <- keys | Renamed(k).Some? :: Renamed(k).value)
  }

  /** The entries of one label: under its new name if it has one, and always under its prefixed name. */
  function EntriesFor(key: string, value: string): seq<Attribute> {
    (if Renamed(key).Some? then [Entry(Renamed(key).value, value)] else []) + [Entry(LABEL_PREFIX + key, value)]
  }

  /** The metrics with these of the labels shown. */
  function Labelled(metrics: AttributeMap, labels: Labels, keys: set<string>): AttributeMap
    requires keys <= labels.Keys
  {
    map name | name in metrics.Keys + NamesOf(keys) ::
      if Shows(name, keys) then labels[SourceOf(name).value] else metrics[name]
  }

  /** The names a label is shown under. */
  predicate ShownUnder(name: string, key: string) {
    name == LABEL_PREFIX + key || Renamed(key) == Some(name)
  }

  lemma ShowsOne(name: string, keys: set<string>, key: string)
    ensures Shows(name, keys + {key}) <==> Shows(name, keys) || ShownUnder(name, key)
    ensures ShownUnder(name, key) ==> SourceOf(name) == Some(key)
  {
    SourceOfLabel(key);
    if SourceOf(name) == Some(key) {
      ShownName(name);
    }
  }

  lemma SetEntries(metrics: AttributeMap, key: string, value: string, name: string)
    ensures var after := SetAll(metrics, EntriesFor(key, value));
      && (name in after <==> name in metrics || ShownUnder(name, key))
      && (name in after ==> after[name] == if ShownUnder(name, key) then value else metrics[name])
  {
    var prefixed := Entry(LABEL_PREFIX + key, value);
    SetOne(metrics, prefixed);
    if Renamed(key).Some? {
      var renamed := Entry(Renamed(key).value, value);
      SetAllConcat(metrics, [renamed], [prefixed]);
      SetOne(metrics, renamed);
      SetOne(SetAll(metrics, [renamed]), prefixed);
    }
  }

  /** One more label. */
  lemma LabelledStep(metrics: AttributeMap, labels: Labels, keys: set<string>, key: string)
    requires keys <= labels.Keys && key in labels && key !in keys
    ensures SetAll(Labelled(metrics, labels, keys), EntriesFor(key, labels[key]))
            == Labelled(metrics, labels, keys + {key})
  {
    var before, after := Labelled(metrics, labels, keys), Labelled(metrics, labels, keys + {key});
    var result := SetAll(before, EntriesFor(key, labels[key]));
    forall name
      ensures name in result <==> name in after
      ensures name in after ==> result[name] == after[name]
    {
      SetEntries(before, key, labels[key], name);
      ShowsOne(name, keys, key);
    }
  }

  /** `labels`, ranging over the map in any order: setting the entries shows every label. */
  method LabelsOf(labels: Labels) returns (metrics: seq<Attribute>)
    ensures forall base :: SetAll(base, metrics) == Labelled(base, labels, labels.Keys)
  {
    metrics := [];
    var toVisit := labels.Keys;
    ghost var visited: set<string> := {};
    assert forall base :: Labelled(base, labels, {}) == base;
    while toVisit != {}
      invariant toVisit !! visited && toVisit + visited == labels.Keys
      invariant forall base :: SetAll(base, metrics) == Labelled(base, labels, visited)
    {
      NonEmpty(toVisit);
      var key :| key in toVisit;
      ghost var before := metrics;
      if Renamed(key).Some? {
        metrics := metrics + [Entry(Renamed(key).value, labels[key])];
      }
      metrics := metrics + [Entry(LABEL_PREFIX + key, labels[key])];
      assert metrics == before + EntriesFor(key, labels[key]);
      forall base
        ensures SetAll(base, metrics) == Labelled(base, labels, visited + {key})
      {
        SetAllConcat(base, before, EntriesFor(key, labels[key]));
        LabelledStep(base, labels, visited, key);
      }
      toVisit := toVisit - {key};
      visited := visited + {key};
    }
    assert visited == labels.Keys;
  }

  // ----- All attributes of a container

  function Identified(c: Summary): AttributeMap {
    map["containerId" := c.id, "shortContainerId" := ShortID(c.id)]
  }

  function Described(c: Summary): AttributeMap {
    SetAll(Identified(c), Sanitized(AllEntries(c)))
  }

  /** The attributes a container is reported with. */
  function Shown(c: Summary): AttributeMap {
    Labelled(Described(c), c.labels, c.labels.Keys)
  }

  /** The part of the sampling loop common to running and stopped containers. */
  method PopulateCommon(container: Summary) returns (ms: MetricSet)
    ensures fresh(ms) && ms.metrics == Texts(Shown(container))
  {
    var shortContainerID := container.id;
    if |container.id| > SHORT_ID_LENGTH {
      shortContainerID := container.id[..SHORT_ID_LENGTH];
    }
    ms := new MetricSet(Texts(map["containerId" := container.id, "shortContainerId" := shortContainerID]));
    var attributes := AttributesOf(container);
    SetTexts(Identified(container), attributes);
    Populate(ms, TextEntries(attributes));
    var labels := LabelsOf(container.labels);
    SetTexts(Described(container), labels);
    Populate(ms, TextEntries(labels));
  }

  predicate DistinctNames(entries: seq<Attribute>) {
    forall i, j :: 0 <= i < j < |entries| ==> entries[i].name != entries[j].name
  }

  /** The metrics agree on this name. */
  predicate SameAt(m: AttributeMap, n: AttributeMap, name: string) {
    (name in m <==> name in n) && (name in m ==> m[name] == n[name])
  }

  lemma SanitizedStep(metrics: AttributeMap, entries: seq<Attribute>)
    requires entries != []
    ensures var rest, last := SetAll(metrics, Sanitized(entries[..|entries| - 1])), entries[|entries| - 1];
      SetAll(metrics, Sanitized(entries)) == if last.value == "" then rest else rest[last.name := last.value]
  {
    var rest, last := Sanitized(entries[..|entries| - 1]), entries[|entries| - 1];
    if last.value != "" {
      SetAllConcat(metrics, rest, [last]);
      SetOne(SetAll(metrics, rest), last);
    } else {
      assert rest + [] == rest;
    }
  }

  lemma {:induction false} OthersStay(metrics: AttributeMap, entries: seq<Attribute>, name: string)
    requires forall e <- entries :: e.name != name
    ensures SameAt(SetAll(metrics, Sanitized(entries)), metrics, name)
    decreases |entries|
  {
    if entries != [] {
      OthersStay(metrics, entries[..|entries| - 1], name);
      SanitizedStep(metrics, entries);
    }
  }

  /** Of entries with distinct names, those that say something are set, and the others are not. */
  lemma {:induction false} SanitizedAt(metrics: AttributeMap, entries: seq<Attribute>, i: nat)
    requires DistinctNames(entries) && i < |entries| && entries[i].name !in metrics
    ensures var after, e := SetAll(metrics, Sanitized(entries)), entries[i];
      (e.name in after <==> e.value != "") && (e.name in after ==> after[e.name] == e.value)
    decreases |entries|
  {
    SanitizedStep(metrics, entries);
    if i < |entries| - 1 {
      SanitizedAt(metrics, entries[..|entries| - 1], i);
    } else {
      OthersStay(metrics, entries[..|entries| - 1], entries[i].name);
    }
  }

  lemma NoSource(name: string)
    requires name != "" && name[0] != 'l' && name[0] != 'e' && name[0] != 'a'
    ensures SourceOf(name) == None
  {
    assert LABEL_PREFIX[0] == 'l';
  }

  lemma OwnNamesDiffer(c: Summary)
    ensures DistinctNames(AllEntries(c))
  {
    var lengths := [11, 4, 5, 9, 5, 6];
    assert forall i :: 0 <= i < 6 ==> |AllEntries(c)[i].name| == lengths[i];
    assert AllEntries(c)[2].name[0] != AllEntries(c)[4].name[0];
  }

  lemma OwnNamesAreNoIDs(c: Summary)
    ensures forall e <- AllEntries(c) :: e.name !in Identified(c)
  {
    assert "commandLine"[2] != "containerId"[2];
    assert |"containerId"| == 11 && |"shortContainerId"| == 16;
    assert forall i :: 1 <= i < 6 ==> |AllEntries(c)[i].name| < 11;
  }

  lemma OwnNamesAreNoLabels(c: Summary)
    ensures forall e <- AllEntries(c) :: SourceOf(e.name) == None
    ensures forall name <- Identified(c) :: SourceOf(name) == None
  {
    forall i | 0 <= i < 6
      ensures SourceOf(AllEntries(c)[i].name) == None
    {
      NoSource(AllEntries(c)[i].name);
    }
    NoSource("containerId");
    NoSource("shortContainerId");
  }

  lemma DescribedMeans(c: Summary)
    ensures forall e <- AllEntries(c) ::
      (e.name in Described(c) <==> e.value != "") && (e.name in Described(c) ==> Described(c)[e.name] == e.value)
    ensures forall name | (forall e <- AllEntries(c) :: e.name != name) :: SameAt(Described(c), Identified(c), name)
  {
    OwnNamesDiffer(c);
    OwnNamesAreNoIDs(c);
    var entries := AllEntries(c);
    forall i | 0 <= i < |entries|
      ensures entries[i].name in Described(c) <==> entries[i].value != ""
      ensures entries[i].name in Described(c) ==> Described(c)[entries[i].name] == entries[i].value
    {
      SanitizedAt(Identified(c), entries, i);
    }
    forall name | forall e <- entries :: e.name != name
      ensures SameAt(Described(c), Identified(c), name)
    {
      OthersStay(Identified(c), entries, name);
    }
  }

  /** Some label is shown under this name. */
  predicate ShowsALabel(labels: Labels, name: string) {
    exists k <- labels :: ShownUnder(name, k)
  }

  /** A container's own attribute. */
  predicate OwnName(c: Summary, name: string) {
    name in Identified(c) || exists e <- AllEntries(c) :: e.name == name
  }

  lemma LabelledMeans(metrics: AttributeMap, labels: Labels, name: string)
    ensures var after := Labelled(metrics, labels, labels.Keys);
      && (SourceOf(name) == None ==> SameAt(after, metrics, name))
      && (name in after ==> name in metrics || ShowsALabel(labels, name))
      && forall k <- labels | ShownUnder(name, k) :: name in after && after[name] == labels[k]
  {
    forall k <- labels | ShownUnder(name, k)
      ensures SourceOf(name) == Some(k)
    {
      SourceOfLabel(k);
    }
    if Shows(name, labels.Keys) {
      ShownName(name);
    }
  }

  /** No label can overwrite what a container is itself reported with: its IDs always, and what is known of it. */
  lemma OwnAttributesAreShown(c: Summary)
    ensures Identified(c).Items <= Shown(c).Items
    ensures forall e <- AllEntries(c) ::
      (e.name in Shown(c) <==> e.value != "") && (e.name in Shown(c) ==> Shown(c)[e.name] == e.value)
  {
    OwnNamesAreNoIDs(c);
    OwnNamesAreNoLabels(c);
    DescribedMeans(c);
    forall name <- Identified(c)
      ensures name in Shown(c) && Shown(c)[name] == Identified(c)[name]
    {
      LabelledMeans(Described(c), c.labels, name);
      assert forall e <- AllEntries(c) :: e.name != name;
      assert SameAt(Described(c), Identified(c), name);
    }
    forall e <- AllEntries(c)
      ensures SameAt(Shown(c), Described(c), e.name)
    {
      LabelledMeans(Described(c), c.labels, e.name);
    }
  }

  /** Every label is shown under its prefixed name and, if it has one, its new name; even an empty one. */
  lemma LabelsAreShown(c: Summary, key: string)
    requires key in c.labels
    ensures forall name | ShownUnder(name, key) :: name in Shown(c) && Shown(c)[name] == c.labels[key]
  {
    forall name | ShownUnder(name, key)
      ensures name in Shown(c) && Shown(c)[name] == c.labels[key]
    {
      LabelledMeans(Described(c), c.labels, name);
    }
  }

  lemma DescribedNames(c: Summary, name: string)
    requires name in Described(c)
    ensures OwnName(c, name)
  {
    if forall e <- AllEntries(c) :: e.name != name {
      OthersStay(Identified(c), AllEntries(c), name);
    }
  }

  /** Nothing else is shown. */
  lemma NothingElseIsShown(c: Summary, name: string)
    requires name in Shown(c)
    ensures OwnName(c, name) || ShowsALabel(c.labels, name)
  {
    LabelledMeans(Described(c), c.labels, name);
    if name in Described(c) {
      DescribedNames(c, name);
    }
  }

  predicate ShownAs(c: Summary, name: string, value: string) {
    Has(Shown(c), name, value)
  }

  lemma RenamedShown(c: Summary, key: string, name: string)
    requires Original(name) == Some(key)
    ensures forall v | Has(c.labels, key, v) :: ShownAs(c, name, v)
  {
    RenamedOfOriginal(key, name);
    LabelledMeans(Described(c), c.labels, name);
  }

  lemma EcsLabelsAreShown(c: Summary)
    ensures forall v | Has(c.labels, CLUSTER, v) :: ShownAs(c, "ecsClusterName", v)
    ensures forall v | Has(c.labels, CLUSTER_ARN, v) :: ShownAs(c, "ecsClusterArn", v)
    ensures forall v | Has(c.labels, AWS_REGION, v) :: ShownAs(c, "awsRegion", v)
    ensures forall v | Has(c.labels, TASK_ARN, v) :: ShownAs(c, "ecsTaskArn", v)
    ensures forall v | Has(c.labels, LAUNCH_TYPE, v) :: ShownAs(c, "ecsLaunchType", v)
  {
    RenamedShown(c, CLUSTER, "ecsClusterName");
    RenamedShown(c, CLUSTER_ARN, "ecsClusterArn");
    RenamedShown(c, AWS_REGION, "awsRegion");
    RenamedShown(c, TASK_ARN, "ecsTaskArn");
    RenamedShown(c, LAUNCH_TYPE, "ecsLaunchType");
  }

  /** From the task to the report: a Fargate container whose labels name its cluster and task by ARN is reported with
      the cluster's name and ARN, the task's ARN and region, and its launch type. */
  lemma FargateAttributes(c: Summary, raw: Labels, cluster: Arn.Name, task: Arn.Name, name: string)
    requires Arn.ColonFree(cluster) && Arn.ColonFree(task) && name != "" && '/' !in name && task.region != ""
    requires cluster.resource == "cluster/" + name
    requires CLUSTER in raw && raw[CLUSTER] == Arn.FormatARN(cluster)
    requires TASK_ARN in raw && raw[TASK_ARN] == Arn.FormatARN(task)
    requires c.labels == Rewritten(raw)
    ensures ShownAs(c, "ecsClusterName", name) && ShownAs(c, "ecsClusterArn", raw[CLUSTER])
    ensures ShownAs(c, "awsRegion", task.region) && ShownAs(c, "ecsTaskArn", raw[TASK_ARN])
    ensures ShownAs(c, "ecsLaunchType", "fargate")
  {
    ArnsAreRewritten(raw, cluster, task, name);
    EcsLabelsAreShown(c);
  }

  // ----- The attributes by name

  function NonEmptyText(s: string): Option<string> {
    if s == "" then None else Some(s)
  }

  lemma OwnAttribute(c: Summary, i: nat)
    requires i < 6
    ensures ValueAt(Shown(c), AllEntries(c)[i].name) == NonEmptyText(AllEntries(c)[i].value)
  {
    OwnAttributesAreShown(c);
  }

  /** What a container is shown with under its own names, which is nothing where nothing is known. */
  lemma OwnAttributesByName(c: Summary)
    ensures ValueAt(Shown(c), "containerId") == Some(c.id)
    ensures ValueAt(Shown(c), "shortContainerId") == Some(ShortID(c.id))
    ensures ValueAt(Shown(c), "commandLine") == NonEmptyText(c.command)
    ensures ValueAt(Shown(c), "image") == NonEmptyText(c.imageID)
    ensures ValueAt(Shown(c), "imageName") == NonEmptyText(c.image)
    ensures ValueAt(Shown(c), "state") == NonEmptyText(c.state) && ValueAt(Shown(c), "status") == NonEmptyText(c.status)
  {
    OwnAttributesAreShown(c);
    OwnAttribute(c, 0);
    OwnAttribute(c, 2);
    OwnAttribute(c, 3);
    OwnAttribute(c, 4);
    OwnAttribute(c, 5);
    assert ("containerId", c.id) in Identified(c).Items && ("shortContainerId", ShortID(c.id)) in Identified(c).Items;
  }

  /** The name is the first of the names, without a leading slash. */
  lemma NameByName(c: Summary, name: string)
    ensures c.names == [] ==> ValueAt(Shown(c), "name") == None
    ensures c.names != [] && c.names[0] == "/" + name ==> ValueAt(Shown(c), "name") == NonEmptyText(name)
    ensures c.names != [] && c.names[0] == name && !("/" <= name) ==> ValueAt(Shown(c), "name") == NonEmptyText(name)
  {
    OwnAttribute(c, 1);
    assert ("/" + name)[1..] == name;
    assert "/" <= "/" + name;
  }

  /** The eight labels that are also shown under a name of their own, and how every label is shown. */
  lemma LabelsByName(c: Summary)
    ensures forall v | Has(c.labels, "com.amazonaws.ecs.container-name", v) :: ShownAs(c, "ecsContainerName", v)
    ensures forall v | Has(c.labels, "com.amazonaws.ecs.cluster", v) :: ShownAs(c, "ecsClusterName", v)
    ensures forall v | Has(c.labels, "com.amazonaws.ecs.task-arn", v) :: ShownAs(c, "ecsTaskArn", v)
    ensures forall v | Has(c.labels, "com.amazonaws.ecs.task-definition-family", v) ::
      ShownAs(c, "ecsTaskDefinitionFamily", v)
    ensures forall v | Has(c.labels, "com.amazonaws.ecs.task-definition-version", v) ::
      ShownAs(c, "ecsTaskDefinitionVersion", v)
    ensures forall v | Has(c.labels, "com.newrelic.nri-docker.launch-type", v) :: ShownAs(c, "ecsLaunchType", v)
    ensures forall v | Has(c.labels, "com.newrelic.nri-docker.cluster-arn", v) :: ShownAs(c, "ecsClusterArn", v)
    ensures forall v | Has(c.labels, "com.newrelic.nri-docker.aws-region", v) :: ShownAs(c, "awsRegion", v)
    ensures forall k <- c.labels :: ShownAs(c, "label." + k, c.labels[k])
  {
    EcsLabelsAreShown(c);
    RenamedShown(c, "com.amazonaws.ecs.container-name", "ecsContainerName");
    RenamedShown(c, "com.amazonaws.ecs.task-definition-family", "ecsTaskDefinitionFamily");
    RenamedShown(c, "com.amazonaws.ecs.task-definition-version", "ecsTaskDefinitionVersion");
    forall k <- c.labels
      ensures ShownAs(c, "label." + k, c.labels[k])
    {
      LabelsAreShown(c, k);
      assert ShownUnder("label." + k, k);
    }
  }
}
