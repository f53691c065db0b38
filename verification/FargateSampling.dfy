/** Fargate containers in the sampler: from the known status and labels of a task response to the metric set. */
module FargateSampling {
  import opened Outcomes
  import opened Text
  import opened MetricsFetcher
  import opened MetricSets
  import opened MetricNames
  import opened Emission
  import opened ContainerSampler
  import Attributes
  import FargateLabels
  import FargateInspector

  /** A listed summary as the sampler reads it: the listing sets neither a state nor a command. */
  function Received(s: FargateInspector.Summary<FargateLabels.Labels>): Attributes.Summary {
    Attributes.Summary(s.id, s.names, "", s.imageID, s.image, "", s.status, s.labels)
  }

  /** A container of the task runs exactly if its known status spells "running" or starts with "up", in any case. */
  lemma RunningByKnownStatus(s: FargateInspector.Summary<FargateLabels.Labels>, c: FargateInspector.Stored,
                             labels: FargateLabels.Labels)
    requires FargateInspector.ListedAs(s, c, labels)
    ensures IsRunning(Received(s)) <==> Spells(c.knownStatus, "running") || StartsLike(c.knownStatus, "up")
  {
    RunningMeans(Received(s));
  }

  /** From the task response to the metric set: a container with known status RUNNING is emitted with every metric its
      sample has a value for, a container with any other one that does not start with "up" with none. */
  lemma MetricsByKnownStatus(s: FargateInspector.Summary<FargateLabels.Labels>, c: FargateInspector.Stored,
                             labels: FargateLabels.Labels, out: Output, storage: Option<DeviceMapperStats>,
                             sample: Sample)
    requires FargateInspector.ListedAs(s, c, labels)
    requires Realises(out, storage, SetFor(Received(s), sample))
    ensures forall m: Metric | !m.OfStorage? ::
      NumberAt(out, m)
      == if Spells(c.knownStatus, "running") || StartsLike(c.knownStatus, "up") then SampleValue(sample, m) else None
  {
    RunningMetrics(out, storage, Received(s), sample);
  }

  /** The upper-case status that ECS reports. */
  lemma EcsStatusRuns(s: FargateInspector.Summary<FargateLabels.Labels>, c: FargateInspector.Stored,
                      labels: FargateLabels.Labels)
    requires FargateInspector.ListedAs(s, c, labels) && c.knownStatus == "RUNNING"
    ensures IsRunning(Received(s))
  {
    RunningByKnownStatus(s, c, labels);
  }

  /** And it is described by what the task response says of it. */
  lemma DescribedByResponse(s: FargateInspector.Summary<FargateLabels.Labels>, c: FargateInspector.Stored,
                            labels: FargateLabels.Labels)
    requires FargateInspector.ListedAs(s, c, labels)
    ensures var shown := Attributes.Shown(Received(s));
      && ValueAt(shown, "containerId") == Some(c.id)
      && ValueAt(shown, "image") == Attributes.NonEmptyText(c.imageID)
      && ValueAt(shown, "imageName") == Attributes.NonEmptyText(c.image)
      && ValueAt(shown, "status") == Attributes.NonEmptyText(c.knownStatus)
      && ValueAt(shown, "state") == None && ValueAt(shown, "commandLine") == None
  {
    Attributes.OwnAttributesByName(Received(s));
  }

  lemma NamedByResponse(s: FargateInspector.Summary<FargateLabels.Labels>, c: FargateInspector.Stored,
                        labels: FargateLabels.Labels)
    requires FargateInspector.ListedAs(s, c, labels)
    ensures !("/" <= c.name) ==> ValueAt(Attributes.Shown(Received(s)), "name") == Attributes.NonEmptyText(c.name)
  {
    Attributes.NameByName(Received(s), c.name);
  }
}
