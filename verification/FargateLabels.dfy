/** Rewriting of the ECS labels of Fargate containers. Go ranges over a map in an unspecified order, and
    may or may not visit keys that the loop body inserts. */
module FargateLabels {
  import opened Outcomes
  import opened Text
  import opened Arn

  // The label keys the code names.
  const CLUSTER := "com.amazonaws.ecs.cluster"
  const TASK_ARN := "com.amazonaws.ecs.task-arn"
  const CLUSTER_ARN := "com.newrelic.nri-docker.cluster-arn"
  const AWS_REGION := "com.newrelic.nri-docker.aws-region"
  const LAUNCH_TYPE := "com.newrelic.nri-docker.launch-type"

  type Labels = map<string, string>

  /** A Go label map: a reference, rewritten in place. */
  class LabelMap {
    var entries: Labels

    constructor (labels: Labels)
      ensures entries == labels
    {
      entries := labels;
    }
  }

  /** `clusterNameFromARN`: "" if the text names no cluster. */
  function ClusterNameFromARN(ecsClusterARN: string): (name: string)
    ensures '/' !in name
  {
    match ParseARN(ecsClusterARN)
    case Err(_) => ""
    case Ok(a) =>
      var resourceParts := Split(a.resource, '/');
      if |resourceParts| < 2 || resourceParts[0] != "cluster" then ""
      else
        assert resourceParts[1] in resourceParts;
        resourceParts[1]
  }

  /** `regionFromTaskARN`. */
  function RegionFromTaskARN(taskARN: string): string {
    match ParseARN(taskARN) case Err(_) => "" case Ok(a) => a.region
  }

  /** The loop body, for one visited label. */
  function Visit(labels: Labels, key: string): Labels
    requires key in labels
  {
    var value := labels[key];
    if key == CLUSTER then
      var name := ClusterNameFromARN(value);
      if name != "" then labels[key := name][CLUSTER_ARN := value] else labels
    else if key == TASK_ARN then
      var region := RegionFromTaskARN(value);
      if region != "" then labels[AWS_REGION := region] else labels
    else labels
  }

  /** The cluster name to put in place of the cluster ARN, "" if there is none. */
  function NameIn(labels: Labels): string {
    if CLUSTER in labels then ClusterNameFromARN(labels[CLUSTER]) else ""
  }

  function RegionIn(labels: Labels): string {
    if TASK_ARN in labels then RegionFromTaskARN(labels[TASK_ARN]) else ""
  }

  function SetName(labels: Labels, name: string, arn: string): Labels {
    if name == "" then labels else labels[CLUSTER := name][CLUSTER_ARN := arn]
  }

  function SetRegion(labels: Labels, region: string): Labels {
    if region == "" then labels else labels[AWS_REGION := region]
  }

  /** The labels after some visits, from the original labels and the set of visited keys. */
  function AfterVisits(labels: Labels, visited: set<string>): Labels {
    var named := if CLUSTER in labels && CLUSTER in visited
                 then SetName(labels, NameIn(labels), labels[CLUSTER]) else labels;
    if TASK_ARN in visited then SetRegion(named, RegionIn(labels)) else named
  }

  /** All rewritings at once, from the original labels. */
  function Rewritten(labels: Labels): Labels {
    AfterVisits(labels, labels.Keys)[LAUNCH_TYPE := "fargate"]
  }

  /** Which labels there are after the rewriting. */
  lemma RewrittenKeys(labels: Labels)
    ensures Rewritten(labels).Keys
            == labels.Keys + {LAUNCH_TYPE} + (if NameIn(labels) != "" then {CLUSTER_ARN} else {})
               + (if RegionIn(labels) != "" then {AWS_REGION} else {})
  {
  }

  /** The labels whose old value the rewriting may lose. */
  predicate Replaced(labels: Labels, k: string) {
    || k == LAUNCH_TYPE
    || ((k == CLUSTER || k == CLUSTER_ARN) && NameIn(labels) != "")
    || (k == AWS_REGION && RegionIn(labels) != "")
  }

  /** What the rewriting does, label by label. */
  lemma RewrittenMeans(labels: Labels)
    ensures var r := Rewritten(labels);
      && LAUNCH_TYPE in r && r[LAUNCH_TYPE] == "fargate"
      && (NameIn(labels) != "" ==>
            CLUSTER in r && r[CLUSTER] == NameIn(labels) && CLUSTER_ARN in r && r[CLUSTER_ARN] == labels[CLUSTER])
      && (RegionIn(labels) != "" ==> AWS_REGION in r && r[AWS_REGION] == RegionIn(labels))
    ensures forall k <- labels.Keys | !Replaced(labels, k) ::
      k in Rewritten(labels) && Rewritten(labels)[k] == labels[k]
  {
  }

  predicate Has(labels: Labels, key: string, value: string) {
    key in labels && labels[key] == value
  }

  lemma ClusterNameOf(cluster: Name, name: string)
    requires ColonFree(cluster) && '/' !in name && cluster.resource == "cluster/" + name
    ensures ClusterNameFromARN(FormatARN(cluster)) == name
  {
    ParseFormatted(cluster);
    assert '/' !in "cluster";
    assert cluster.resource == "cluster" + ['/'] + name;
    SplitCons("cluster", '/', name);
    SplitJoin([name], '/');
  }

  /** A cluster ARN is replaced by its cluster name and kept under another key; a task ARN gives the region. */
  lemma ArnsAreRewritten(labels: Labels, cluster: Name, task: Name, name: string)
    requires ColonFree(cluster) && ColonFree(task) && name != "" && '/' !in name && task.region != ""
    requires cluster.resource == "cluster/" + name
    requires CLUSTER in labels && labels[CLUSTER] == FormatARN(cluster)
    requires TASK_ARN in labels && labels[TASK_ARN] == FormatARN(task)
    ensures var r := Rewritten(labels);
      && Has(r, CLUSTER, name) && Has(r, CLUSTER_ARN, labels[CLUSTER])
      && Has(r, AWS_REGION, task.region) && Has(r, TASK_ARN, labels[TASK_ARN]) && Has(r, LAUNCH_TYPE, "fargate")
  {
    ClusterNameOf(cluster, name);
    ParseFormatted(task);
    RewrittenMeans(labels);
  }

  lemma VisitCluster(labels: Labels, visited: set<string>)
    requires CLUSTER in labels && CLUSTER !in visited
    ensures Visit(AfterVisits(labels, visited), CLUSTER) == AfterVisits(labels, visited + {CLUSTER})
  {
    var region := if TASK_ARN in visited then RegionIn(labels) else "";
    assert AfterVisits(labels, visited) == SetRegion(labels, region);
    var name, arn := NameIn(labels), labels[CLUSTER];
    assert SetName(SetRegion(labels, region), name, arn) == SetRegion(SetName(labels, name, arn), region);
  }

  lemma VisitOther(labels: Labels, visited: set<string>, key: string)
    requires key in AfterVisits(labels, visited) && key !in visited && key != CLUSTER
    ensures Visit(AfterVisits(labels, visited), key) == AfterVisits(labels, visited + {key})
  {
    if key == TASK_ARN {
      assert AfterVisits(labels, visited)[TASK_ARN] == labels[TASK_ARN];
    }
  }

  /** One more visit extends what the visits have done by exactly the new key; the order is forgotten. */
  lemma VisitStep(labels: Labels, visited: set<string>, key: string)
    requires key in AfterVisits(labels, visited) && key !in visited
    ensures Visit(AfterVisits(labels, visited), key) == AfterVisits(labels, visited + {key})
  {
    if key == CLUSTER {
      VisitCluster(labels, visited);
    } else {
      VisitOther(labels, visited, key);
    }
  }

  // ----- Every legal order of a range loop

  function Run(labels: Labels, order: seq<string>): Option<Labels>
    decreases |order|
  {
    if order == [] then Some(labels)
    else if order[0] !in labels then None
    else Run(Visit(labels, order[0]), order[1..])
  }

  /** What Go promises of a range loop: no key twice, and every original key that is not removed.
      Keys inserted by the loop may come or not. */
  predicate RangeOrder(labels: Labels, order: seq<string>) {
    (forall i, j :: 0 <= i < j < |order| ==> order[i] != order[j])
    && (forall k <- labels.Keys :: k in order)
    && Run(labels, order).Some?
  }

  /** The whole of `processFargateLabels` for one order. */
  function ProcessInOrder(labels: Labels, order: seq<string>): Labels
    requires RangeOrder(labels, order)
  {
    Run(labels, order).value[LAUNCH_TYPE := "fargate"]
  }

  function KeysOf(order: seq<string>): set<string> {
    set k | k in order
  }

  lemma KeysCons(visited: set<string>, order: seq<string>)
    requires order != []
    ensures visited + {order[0]} + KeysOf(order[1..]) == visited + KeysOf(order)
  {
  }

  lemma {:induction false} RunFrom(labels: Labels, visited: set<string>, current: Labels, order: seq<string>)
    requires current == AfterVisits(labels, visited) && Run(current, order).Some?
    requires forall i, j :: 0 <= i < j < |order| ==> order[i] != order[j]
    requires KeysOf(order) !! visited
    ensures Run(current, order).value == AfterVisits(labels, visited + KeysOf(order))
    decreases |order|
  {
    if order == [] {
      assert visited + KeysOf(order) == visited;
    } else {
      assert order[0] in KeysOf(order);
      VisitStep(labels, visited, order[0]);
      KeysCons(visited, order);
      assert order[0] !in order[1..];
      RunFrom(labels, visited + {order[0]}, Visit(current, order[0]), order[1..]);
    }
  }

  lemma {:induction false} RunSucceeds(labels: Labels, order: seq<string>)
    requires forall k <- order :: k in labels
    ensures Run(labels, order).Some?
    decreases |order|
  {
    if order != [] {
      RunSucceeds(Visit(labels, order[0]), order[1..]);
    }
  }

  /** Every enumeration of the original keys is a legal order. */
  lemma EnumerationsAreLegal(labels: Labels, order: seq<string>)
    requires forall i, j :: 0 <= i < j < |order| ==> order[i] != order[j]
    requires KeysOf(order) == labels.Keys
    ensures RangeOrder(labels, order)
  {
    assert forall k <- order :: k in KeysOf(order);
    assert forall k <- labels.Keys :: k in KeysOf(order);
    RunSucceeds(labels, order);
  }

  lemma AllVisited(labels: Labels, visited: set<string>)
    requires labels.Keys <= visited
    ensures AfterVisits(labels, visited)[LAUNCH_TYPE := "fargate"] == Rewritten(labels)
  {
  }

  /** Confluence: whatever the order and whatever inserted keys are visited, the result is the one-shot rewriting. */
  lemma Confluence(labels: Labels, order: seq<string>)
    requires RangeOrder(labels, order)
    ensures ProcessInOrder(labels, order) == Rewritten(labels)
  {
    assert AfterVisits(labels, {}) == labels;
    RunFrom(labels, {}, labels, order);
    assert {} + KeysOf(order) == KeysOf(order);
    AllVisited(labels, KeysOf(order));
  }

  lemma NonEmpty(s: set<string>)
    ensures s == {} || exists k :: k in s
  {
    if forall k :: k !in s {
      assert s == {};
    }
  }

  /** `processFargateLabels`, over the map it is handed: the loop takes the keys in any order, and any of
      those the body inserts may come up later or not. */
  method ProcessFargateLabels(labels: LabelMap)
    modifies labels
    ensures labels.entries == Rewritten(old(labels.entries))
  {
    ghost var original := labels.entries;
    ghost var universe := original.Keys + {CLUSTER_ARN, AWS_REGION};
    ghost var visited: set<string> := {};
    var toVisit := labels.entries.Keys;
    while toVisit != {}
      invariant labels.entries == AfterVisits(original, visited)
      invariant toVisit <= labels.entries.Keys <= universe
      invariant toVisit !! visited
      invariant original.Keys <= toVisit + visited
      invariant visited <= labels.entries.Keys
      decreases universe - visited
    {
      NonEmpty(toVisit);
      var key :| key in toVisit;
      var value := labels.entries[key];
      var before := labels.entries.Keys;
      VisitStep(original, visited, key);
      if key == CLUSTER {
        var name := ClusterNameFromARN(value);
        if name != "" {
          labels.entries := labels.entries[key := name];
          labels.entries := labels.entries[CLUSTER_ARN := value];
        }
      } else if key == TASK_ARN {
        var region := RegionFromTaskARN(value);
        if region != "" {
          labels.entries := labels.entries[AWS_REGION := region];
        }
      }
      toVisit := toVisit - {key};
      var produced: set<string> := *;
      if produced <= labels.entries.Keys - before {
        toVisit := toVisit + produced;
      }
      visited := visited + {key};
    }
    AllVisited(original, visited);
    labels.entries := labels.entries[LAUNCH_TYPE := "fargate"];
  }

  // ----- Rewriting twice

  /** A text without "/" names no cluster: an extracted cluster name is never taken for a cluster ARN. */
  lemma NameIsNoClusterARN(name: string)
    requires '/' !in name
    ensures ClusterNameFromARN(name) == ""
  {
    if ParseARN(name).Ok? {
      var a := ParseARN(name).value;
      FormatParsed(name);
      var sections := Sections(a);
      assert name == Join(sections, ':');
      JoinConcat(sections[..5], [a.resource], ':');
      assert sections == sections[..5] + [a.resource];
      assert Join([a.resource], ':') == a.resource;
      assert forall c <- a.resource :: c in name;
      assert IndexOf(a.resource, '/') == |a.resource|;
    }
  }

  /** Idempotence: rewriting rewritten labels changes nothing, so a cache may share the maps it hands out. */
  lemma RewritingIsIdempotent(labels: Labels)
    ensures Rewritten(Rewritten(labels)) == Rewritten(labels)
  {
    var again := Rewritten(labels);
    NameIsNoClusterARN(NameIn(labels));
    assert TASK_ARN in again <==> TASK_ARN in labels;
    assert RegionIn(again) == RegionIn(labels);
    assert SetName(again, NameIn(again), NameIn(labels)) == again;
    assert SetRegion(again, RegionIn(again)) == again;
  }

  // ----- Which texts name a cluster, and which a region

  lemma ClusterPrefix(resource: string, rest: string)
    requires resource == "cluster/" + rest
    ensures Split(resource, '/') == ["cluster"] + Split(rest, '/')
  {
    assert '/' !in "cluster";
    assert resource == "cluster" + ['/'] + rest;
    SplitCons("cluster", '/', rest);
  }

  /** A name with a resource "cluster/<name>", whatever follows behind another slash, names a cluster; no other name and
      no text that is no ARN does. */
  lemma ClusterNameMeans(a: Name, name: string, more: string, text: string)
    requires ColonFree(a) && '/' !in name
    ensures a.resource == "cluster/" + name ==> ClusterNameFromARN(FormatARN(a)) == name
    ensures a.resource == "cluster/" + name + "/" + more ==> ClusterNameFromARN(FormatARN(a)) == name
    ensures !("cluster/" <= a.resource) ==> ClusterNameFromARN(FormatARN(a)) == ""
    ensures ParseARN(text).Err? ==> ClusterNameFromARN(text) == ""
  {
    ParseFormatted(a);
    if a.resource == "cluster/" + name {
      ClusterNameOf(a, name);
    }
    if a.resource == "cluster/" + name + "/" + more {
      assert a.resource == "cluster/" + (name + ['/'] + more);
      ClusterPrefix(a.resource, name + ['/'] + more);
      SplitCons(name, '/', more);
    }
    var parts := Split(a.resource, '/');
    if |parts| >= 2 && parts[0] == "cluster" {
      assert Join(parts, '/') == "cluster" + ['/'] + Join(parts[1..], '/');
      assert "cluster/" <= a.resource;
    }
  }

  /** The region is that of the name; a text that is no ARN has none. */
  lemma RegionMeans(a: Name, text: string)
    requires ColonFree(a)
    ensures RegionFromTaskARN(FormatARN(a)) == a.region
    ensures ParseARN(text).Err? ==> RegionFromTaskARN(text) == ""
  {
    ParseFormatted(a);
  }
}
