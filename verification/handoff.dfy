/**
  How the two programs meet: the coordinator writes the start time with `%d`
  on the discovery service, and each agent parses it back and checks it
  against its own clock.
*/
module Handoff {
  import opened Wrappers
  import opened Decimal
  import opened Clock
  import opened KubeApi
  import opened JobSpec
  import opened StartGate
  import opened Coordinator

  /**
    A start time published at `publishAt` passes the gate of an agent with a
    full identity that reads it at any instant from two minutes before the
    start time up to the start time itself.
  */
  lemma PublishedStartTimePasses(env: AgentEnv, publishAt: int, readAt: int)
    requires env.name != "" && env.namespace != "" && env.address != ""
    requires IsInt64(StartTimeFor(publishAt))
    requires StartTimeFor(publishAt) * NanosPerSecond - MaxLead <= readAt <= StartTimeFor(publishAt) * NanosPerSecond
    ensures Gate(env, Fetched(PublishedLabels(publishAt)), readAt) == Ok(StartTimeFor(publishAt))
  {
    FormatParseRoundTrip(StartTimeFor(publishAt));
  }

  /** In particular every read between the publication and the start time passes. */
  lemma ReadBeforeStartPasses(env: AgentEnv, publishAt: int, readAt: int)
    requires env.name != "" && env.namespace != "" && env.address != ""
    requires IsInt64(StartTimeFor(publishAt))
    requires publishAt <= readAt <= StartTimeFor(publishAt) * NanosPerSecond
    ensures Gate(env, Fetched(PublishedLabels(publishAt)), readAt) == Ok(StartTimeFor(publishAt))
  {
    PublishedStartTimePasses(env, publishAt, readAt);
  }

  /** A read after the start time, or more than two minutes before it, is refused. */
  lemma LateOrEarlyReadFails(env: AgentEnv, publishAt: int, readAt: int)
    requires env.name != "" && env.namespace != "" && env.address != ""
    requires IsInt64(StartTimeFor(publishAt))
    ensures readAt > StartTimeFor(publishAt) * NanosPerSecond ==>
      Gate(env, Fetched(PublishedLabels(publishAt)), readAt) == Err(StartInPast)
    ensures readAt < StartTimeFor(publishAt) * NanosPerSecond - MaxLead ==>
      Gate(env, Fetched(PublishedLabels(publishAt)), readAt) == Err(StartTooFarAhead)
  {
    FormatParseRoundTrip(StartTimeFor(publishAt));
  }

  /**
    The service a coordinator run creates carries exactly the published start
    time, so an agent that reads it inside the window passes its gate.
  */
  lemma AgentAcceptsServiceOfRun(jobEnv: JobEnv, cluster: Cluster, agent: AgentEnv, readAt: int, j: int)
    requires var a := RunJob(jobEnv, cluster).actions;
      0 <= j < |a| && a[j].Create? && a[j].resource.Service?
    requires agent.name != "" && agent.namespace != "" && agent.address != ""
    requires IsInt64(StartTimeFor(cluster.publishAt))
    requires StartTimeFor(cluster.publishAt) * NanosPerSecond - MaxLead <= readAt <= StartTimeFor(cluster.publishAt) * NanosPerSecond
    ensures Gate(agent, Fetched(RunJob(jobEnv, cluster).actions[j].resource.labels), readAt) == Ok(StartTimeFor(cluster.publishAt))
  {
    assert Configured(jobEnv, cluster);
    RunJobUnfolds(jobEnv, cluster);
    ProvisioningServiceIsFifth(GetPod(jobEnv.podNamespace, jobEnv.podName), PlanOf(cluster), ChildNamespace(cluster.pod.value.name), cluster);
    assert RunJob(jobEnv, cluster).actions[j].resource.labels == PublishedLabels(cluster.publishAt);
    PublishedStartTimePasses(agent, cluster.publishAt, readAt);
  }

  /**
    The same handoff through the gate kns-pod runs, with `time.Unix`'s
    wrapped seconds: at any clock reading whose window fits its int64 seconds, a
    published start time passes every read from two minutes before it up to it.
  */
  lemma PublishedStartTimePassesAsWritten(env: AgentEnv, publishAt: int, readAt: int)
    requires env.name != "" && env.namespace != "" && env.address != ""
    requires IsInt64(StartTimeFor(publishAt)) && RepresentableNow(readAt)
    requires StartTimeFor(publishAt) * NanosPerSecond - MaxLead <= readAt <= StartTimeFor(publishAt) * NanosPerSecond
    ensures GateAsWritten(env, Fetched(PublishedLabels(publishAt)), readAt) == Ok(StartTimeFor(publishAt))
  {
    PublishedStartTimePasses(env, publishAt, readAt);
    GateAsWrittenDiffersOnlyInWrapRange(env, Fetched(PublishedLabels(publishAt)), readAt);
  }

  /** Through the program's gate, every representable read from the publication to the start time passes. */
  lemma ReadBeforeStartPassesAsWritten(env: AgentEnv, publishAt: int, readAt: int)
    requires env.name != "" && env.namespace != "" && env.address != ""
    requires IsInt64(StartTimeFor(publishAt)) && RepresentableNow(readAt)
    requires publishAt <= readAt <= StartTimeFor(publishAt) * NanosPerSecond
    ensures GateAsWritten(env, Fetched(PublishedLabels(publishAt)), readAt) == Ok(StartTimeFor(publishAt))
  {
    PublishedStartTimePassesAsWritten(env, publishAt, readAt);
  }

  /**
    Through the program's gate, a representable read after the start time is
    refused as in the past. One more than two minutes before it is refused as
    too far ahead below the wrap-around, and as in the past above it.
  */
  lemma LateOrEarlyReadFailsAsWritten(env: AgentEnv, publishAt: int, readAt: int)
    requires env.name != "" && env.namespace != "" && env.address != ""
    requires IsInt64(StartTimeFor(publishAt)) && RepresentableNow(readAt)
    ensures readAt > StartTimeFor(publishAt) * NanosPerSecond ==>
      GateAsWritten(env, Fetched(PublishedLabels(publishAt)), readAt) == Err(StartInPast)
    ensures readAt < StartTimeFor(publishAt) * NanosPerSecond - MaxLead && StartTimeFor(publishAt) <= MaxInt64 - UnixToInternal ==>
      GateAsWritten(env, Fetched(PublishedLabels(publishAt)), readAt) == Err(StartTooFarAhead)
    ensures StartTimeFor(publishAt) > MaxInt64 - UnixToInternal ==>
      GateAsWritten(env, Fetched(PublishedLabels(publishAt)), readAt) == Err(StartInPast)
  {
    LateOrEarlyReadFails(env, publishAt, readAt);
    FormatParseRoundTrip(StartTimeFor(publishAt));
    assert ReadStartTime(env, Fetched(PublishedLabels(publishAt))) == Ok(StartTimeFor(publishAt));
    GateAsWrittenDiffersOnlyInWrapRange(env, Fetched(PublishedLabels(publishAt)), readAt);
  }

  /** Through the program's gate, an agent reading a run's service inside the window at a representable clock reading is admitted. */
  lemma AgentAcceptsServiceOfRunAsWritten(jobEnv: JobEnv, cluster: Cluster, agent: AgentEnv, readAt: int, j: int)
    requires var a := RunJob(jobEnv, cluster).actions;
      0 <= j < |a| && a[j].Create? && a[j].resource.Service?
    requires agent.name != "" && agent.namespace != "" && agent.address != ""
    requires IsInt64(StartTimeFor(cluster.publishAt)) && RepresentableNow(readAt)
    requires StartTimeFor(cluster.publishAt) * NanosPerSecond - MaxLead <= readAt <= StartTimeFor(cluster.publishAt) * NanosPerSecond
    ensures GateAsWritten(agent, Fetched(RunJob(jobEnv, cluster).actions[j].resource.labels), readAt) == Ok(StartTimeFor(cluster.publishAt))
  {
    AgentAcceptsServiceOfRun(jobEnv, cluster, agent, readAt, j);
    GateAsWrittenDiffersOnlyInWrapRange(agent, Fetched(RunJob(jobEnv, cluster).actions[j].resource.labels), readAt);
  }

}
