/**
  The kns-job `main` as a pure function: given its environment and the
  outcomes the cluster API returns, it yields the calls the coordinator
  issues, in order, and how the process ends. A fatal log ends the process on
  the spot, which skips the deferred namespace deletion; only a normal return
  after the daemonset exists runs it.
*/
module Coordinator {
  import opened Wrappers
  import opened Decimal
  import opened Clock
  import opened KubeApi
  import opened JobSpec
  import opened Teardown

  /** `KNS_POD_NAME` and `KNS_POD_NAMESPACE` of the coordinator's own pod. */
  datatype JobEnv = JobEnv(podName: string, podNamespace: string)

  /** The outcomes the cluster API would return to the coordinator's calls. */
  datatype Cluster = Cluster(
    pod: Result<Pod, string>,
    create: Kind -> ApiOutcome,
    publishAt: int,
    delete: ApiOutcome,
    polls: PollWindow)

  datatype JobError =
    | MissingPodName
    | MissingPodNamespace
    | PodUnavailable(reason: string)
    | NoJobContainer
    | CreateFailed(kind: Kind, reason: string)
    | CleanupFailed(cause: CleanupError)
  {
    /** Errors raised before anything is created. */
    predicate IsConfiguration() {
      MissingPodName? || MissingPodNamespace? || PodUnavailable? || NoJobContainer?
    }
  }

  datatype Exit = Completed | Fatal(error: JobError)

  datatype Run = Run(actions: seq<Action>, exit: Exit)

  /** The provisioning order. */
  const StepOrder: seq<Kind> := [NamespaceKind, RoleKind, ServiceAccountKind, RoleBindingKind, ServiceKind, DaemonSetKind]

  /** The labels of the discovery service: the start time for `publishAt`, written with `%d`. */
  function PublishedLabels(publishAt: int): map<string, string> {
    map[StartTimeLabel := FormatInt(StartTimeFor(publishAt))]
  }

  /** The six objects the coordinator creates in the child namespace `ns`, in the order it creates them. */
  function Plan(ns: string, jobImage: string, publishAt: int): (plan: seq<Resource>)
    ensures |plan| == |StepOrder|
    ensures forall i :: 0 <= i < |plan| ==> plan[i].Kind() == StepOrder[i]
    ensures plan[0] == Namespace(ns)
    ensures forall i :: 1 <= i < |plan| ==> !plan[i].Namespace? && plan[i].namespace == ns
    ensures plan[4].Service? && plan[4].labels == PublishedLabels(publishAt)
    ensures plan[5].DaemonSet? && plan[5].image == AgentImage(jobImage)
    ensures plan[3].RoleBinding? && plan[3].role == plan[1].name && plan[3].account == plan[2].name == plan[5].account
  {
    [ Namespace(ns),
      Role(ns, AgentAccount),
      ServiceAccount(ns, AgentAccount),
      RoleBinding(ns, AgentAccount, AgentAccount, AgentAccount),
      Service(ns, ServiceName, PublishedLabels(publishAt)),
      DaemonSet(ns, DaemonSetName, AgentImage(jobImage), AgentAccount) ]
  }

  /** The objects whose creates were issued, in order (the last one possibly rejected), and the rejection that stopped provisioning, if any. */
  datatype Provisioned = Provisioned(issued: seq<Resource>, failure: Option<(Kind, string)>)

  /** Issue the creates of `plan` one after the other, stopping at the first rejected create. */
  function Provision(plan: seq<Resource>, create: Kind -> ApiOutcome): (p: Provisioned)
    ensures |p.issued| <= |plan| && p.issued == plan[..|p.issued|]
    ensures forall i :: 0 <= i < |p.issued| - 1 ==> create(plan[i].Kind()).Accepted?
    ensures p.failure.None? <==> |p.issued| == |plan| && forall i :: 0 <= i < |plan| ==> create(plan[i].Kind()).Accepted?
    ensures p.failure.Some? ==>
      && 1 <= |p.issued|
      && p.failure.value.0 == plan[|p.issued| - 1].Kind()
      && create(plan[|p.issued| - 1].Kind()) == Rejected(p.failure.value.1)
  {
    if |plan| == 0 then Provisioned([], None)
    else match create(plan[0].Kind())
      case Rejected(reason) => Provisioned([plan[0]], Some((plan[0].Kind(), reason)))
      case Accepted =>
        var rest := Provision(plan[1..], create);
        assert forall i :: 1 <= i < |plan| ==> plan[1..][i - 1] == plan[i];
        Provisioned([plan[0]] + rest.issued, rest.failure)
  }

  function CreateCalls(resources: seq<Resource>): (calls: seq<Action>)
    ensures |calls| == |resources| && forall i :: 0 <= i < |calls| ==> calls[i] == Create(resources[i])
  {
    seq(|resources|, i requires 0 <= i < |resources| => Create(resources[i]))
  }

  /** The configuration checks pass: both variables are set, the pod is read, and it has a `kns-job` container. */
  predicate Configured(env: JobEnv, cluster: Cluster) {
    && env.podName != ""
    && env.podNamespace != ""
    && cluster.pod.Ok?
    && JobImage(cluster.pod.value.containers).Some?
  }

  /** The plan a configured run follows. */
  function PlanOf(cluster: Cluster): seq<Resource>
    requires cluster.pod.Ok? && JobImage(cluster.pod.value.containers).Some?
  {
    var pod := cluster.pod.value;
    Plan(ChildNamespace(pod.name), JobImage(pod.containers).value, cluster.publishAt)
  }

  /** The kns-job `main`, from the environment checks to the deferred namespace deletion. */
  function RunJob(env: JobEnv, cluster: Cluster): (run: Run)
    ensures run.exit.Fatal? && run.exit.error.IsConfiguration() <==> !Configured(env, cluster)
    ensures !Configured(env, cluster) ==> |run.actions| <= 1 && forall i :: 0 <= i < |run.actions| ==> run.actions[i].GetPod?
  {
    if env.podName == "" then Run([], Fatal(MissingPodName))
    else if env.podNamespace == "" then Run([], Fatal(MissingPodNamespace))
    else
      var getPod := GetPod(env.podNamespace, env.podName);
      match cluster.pod
      case Err(reason) => Run([getPod], Fatal(PodUnavailable(reason)))
      case Ok(pod) =>
        match JobImage(pod.containers)
        case None => Run([getPod], Fatal(NoJobContainer))
        case Some(_) => ProvisionAndTearDown(getPod, PlanOf(cluster), ChildNamespace(pod.name), cluster)
  }

  /**
    What `main` does once it knows its image: create the objects of `plan` in
    order and, on a normal return, delete the namespace `ns`.
  */
  function ProvisionAndTearDown(getPod: Action, plan: seq<Resource>, ns: string, cluster: Cluster): (run: Run)
    ensures run.exit.Fatal? ==> !run.exit.error.IsConfiguration()
  {
    var p := Provision(plan, cluster.create);
    var provisioned := [getPod] + CreateCalls(p.issued);
    match p.failure
    case Some((kind, reason)) => Run(provisioned, Fatal(CreateFailed(kind, reason)))
    case None =>
      var d := DeleteNamespace(ns, cluster.delete, cluster.polls);
      var exit := if d.error.None? then Completed else Fatal(CleanupFailed(d.error.value));
      Run(provisioned + d.actions, exit)
  }

  /** The kinds of the objects the Create calls ask for, in call order, whether or not the API accepted them. */
  function IssuedCreateKinds(actions: seq<Action>): seq<Kind> {
    if |actions| == 0 then []
    else (if actions[0].Create? then [actions[0].resource.Kind()] else []) + IssuedCreateKinds(actions[1..])
  }

  function KindsOf(resources: seq<Resource>): (kinds: seq<Kind>)
    ensures |kinds| == |resources| && forall i :: 0 <= i < |kinds| ==> kinds[i] == resources[i].Kind()
  {
    seq(|resources|, i requires 0 <= i < |resources| => resources[i].Kind())
  }

  lemma {:induction false} IssuedCreateKindsAppend(a: seq<Action>, b: seq<Action>)
    ensures IssuedCreateKinds(a + b) == IssuedCreateKinds(a) + IssuedCreateKinds(b)
    decreases |a|
  {
    if |a| > 0 {
      assert (a + b)[0] == a[0];
      assert (a + b)[1..] == a[1..] + b;
      IssuedCreateKindsAppend(a[1..], b);
      var head := if a[0].Create? then [a[0].resource.Kind()] else [];
      assert IssuedCreateKinds(a + b) == head + (IssuedCreateKinds(a[1..]) + IssuedCreateKinds(b));
      assert IssuedCreateKinds(a) == head + IssuedCreateKinds(a[1..]);
      assert head + (IssuedCreateKinds(a[1..]) + IssuedCreateKinds(b)) == (head + IssuedCreateKinds(a[1..])) + IssuedCreateKinds(b);
    } else {
      assert a + b == b;
    }
  }

  lemma {:induction false} IssuedCreateKindsOfCreateCalls(resources: seq<Resource>)
    ensures IssuedCreateKinds(CreateCalls(resources)) == KindsOf(resources)
    decreases |resources|
  {
    if |resources| > 0 {
      assert CreateCalls(resources)[1..] == CreateCalls(resources[1..]);
      IssuedCreateKindsOfCreateCalls(resources[1..]);
    }
  }

  lemma {:induction false} IssuedCreateKindsWithoutCreates(actions: seq<Action>)
    requires forall i :: 0 <= i < |actions| ==> !actions[i].Create?
    ensures IssuedCreateKinds(actions) == []
    decreases |actions|
  {
    if |actions| > 0 {
      IssuedCreateKindsWithoutCreates(actions[1..]);
    }
  }

  /** The plan's kinds follow the provisioning order, so a prefix of the plan creates a prefix of the order. */
  lemma PlanPrefixKinds(cluster: Cluster, n: nat)
    requires cluster.pod.Ok? && JobImage(cluster.pod.value.containers).Some?
    requires n <= |StepOrder|
    ensures KindsOf(PlanOf(cluster)[..n]) == StepOrder[..n]
  {
  }

  /** A configured run is the pod lookup followed by provisioning along the plan and the teardown of the child namespace. */
  lemma RunJobUnfolds(env: JobEnv, cluster: Cluster)
    requires Configured(env, cluster)
    ensures RunJob(env, cluster) ==
      ProvisionAndTearDown(GetPod(env.podNamespace, env.podName), PlanOf(cluster), ChildNamespace(cluster.pod.value.name), cluster)
  {
  }

  /** The Create calls made while provisioning ask for the kinds of the objects whose creates were issued. */
  lemma ProvisioningIssuedCreateKinds(getPod: Action, plan: seq<Resource>, ns: string, cluster: Cluster)
    requires !getPod.Create?
    ensures IssuedCreateKinds(ProvisionAndTearDown(getPod, plan, ns, cluster).actions) == KindsOf(Provision(plan, cluster.create).issued)
  {
    var p := Provision(plan, cluster.create);
    var calls := CreateCalls(p.issued);
    var provisioned := [getPod] + calls;
    IssuedCreateKindsAppend([getPod], calls);
    IssuedCreateKindsWithoutCreates([getPod]);
    IssuedCreateKindsOfCreateCalls(p.issued);
    assert IssuedCreateKinds(provisioned) == KindsOf(p.issued);
    if p.failure.None? {
      var d := DeleteNamespace(ns, cluster.delete, cluster.polls);
      assert ProvisionAndTearDown(getPod, plan, ns, cluster).actions == provisioned + d.actions;
      IssuedCreateKindsAppend(provisioned, d.actions);
      IssuedCreateKindsWithoutCreates(d.actions);
      assert IssuedCreateKinds(provisioned + d.actions) == IssuedCreateKinds(provisioned) + [];
    } else {
      assert ProvisionAndTearDown(getPod, plan, ns, cluster).actions == provisioned;
    }
  }

  /**
    The calls right after the pod lookup are the creates that were issued, one
    per object of the plan and in its order, and no other call is a create.
  */
  lemma ProvisioningCreates(getPod: Action, plan: seq<Resource>, ns: string, cluster: Cluster)
    requires !getPod.Create?
    ensures var a := ProvisionAndTearDown(getPod, plan, ns, cluster).actions;
      |Provision(plan, cluster.create).issued| < |a|
    ensures var a := ProvisionAndTearDown(getPod, plan, ns, cluster).actions;
      forall j :: 1 <= j <= |Provision(plan, cluster.create).issued| ==> a[j] == Create(plan[j - 1])
    ensures var a := ProvisionAndTearDown(getPod, plan, ns, cluster).actions;
      forall j :: 0 <= j < |a| ==> (a[j].Create? <==> 1 <= j <= |Provision(plan, cluster.create).issued|)
  {
    var p := Provision(plan, cluster.create);
    var provisioned := [getPod] + CreateCalls(p.issued);
    var a := ProvisionAndTearDown(getPod, plan, ns, cluster).actions;
    forall j | 0 <= j < |a|
      ensures a[j].Create? <==> 1 <= j <= |p.issued|
    {
      if j >= |provisioned| {
        assert a[j] == DeleteNamespace(ns, cluster.delete, cluster.polls).actions[j - |provisioned|];
      }
    }
  }

  /** Deletion and polling are issued only after every create was accepted, and they name `ns`. */
  lemma ProvisioningTearsDownLast(getPod: Action, plan: seq<Resource>, ns: string, cluster: Cluster)
    requires !getPod.DeleteByName? && !getPod.ListByName?
    ensures var a := ProvisionAndTearDown(getPod, plan, ns, cluster).actions;
      forall i :: 0 <= i < |a| && (a[i].DeleteByName? || a[i].ListByName?) ==>
        && Provision(plan, cluster.create).failure.None?
        && 1 + |plan| <= i
        && a[i].name == ns
    ensures var a := ProvisionAndTearDown(getPod, plan, ns, cluster).actions;
      Provision(plan, cluster.create).failure.None? ==> 1 + |plan| < |a| && a[1 + |plan|] == DeleteByName(ns)
  {
    var p := Provision(plan, cluster.create);
    var provisioned := [getPod] + CreateCalls(p.issued);
    var a := ProvisionAndTearDown(getPod, plan, ns, cluster).actions;
    forall i | 0 <= i < |a| && (a[i].DeleteByName? || a[i].ListByName?)
      ensures p.failure.None? && |provisioned| <= i && a[i].name == ns
    {
      if i >= |provisioned| {
        assert a[i] == DeleteNamespace(ns, cluster.delete, cluster.polls).actions[i - |provisioned|];
      }
    }
  }

  /** Provisioning ends normally exactly when every create, the delete and the poll succeed, and then on an empty List. */
  lemma ProvisioningCompletes(getPod: Action, plan: seq<Resource>, ns: string, cluster: Cluster)
    ensures var run := ProvisionAndTearDown(getPod, plan, ns, cluster);
      run.exit == Completed <==>
        Provision(plan, cluster.create).failure.None? && cluster.delete.Accepted? && Poll(cluster.polls).error.None?
    ensures var run := ProvisionAndTearDown(getPod, plan, ns, cluster);
      run.exit == Completed ==>
        && 1 <= |run.actions| && run.actions[|run.actions| - 1] == ListByName(ns)
        && cluster.polls[Poll(cluster.polls).calls - 1] == Listed(0)
    ensures var run := ProvisionAndTearDown(getPod, plan, ns, cluster);
      Provision(plan, cluster.create).failure.None? && cluster.delete.Rejected? ==>
        run.exit == Fatal(CleanupFailed(DeleteRejected(cluster.delete.reason)))
    ensures var run := ProvisionAndTearDown(getPod, plan, ns, cluster);
      Provision(plan, cluster.create).failure.None? && cluster.delete.Accepted? && Poll(cluster.polls).error.Some? ==>
        run.exit == Fatal(CleanupFailed(Poll(cluster.polls).error.value))
    ensures var run := ProvisionAndTearDown(getPod, plan, ns, cluster);
      Provision(plan, cluster.create).failure.Some? ==>
        run.exit == Fatal(CreateFailed(Provision(plan, cluster.create).failure.value.0, Provision(plan, cluster.create).failure.value.1))
  {
  }

  /** The Create calls of a run are those provisioning issued; a misconfigured run issues none. */
  lemma RunIssuedCreateKinds(env: JobEnv, cluster: Cluster)
    ensures !Configured(env, cluster) ==> IssuedCreateKinds(RunJob(env, cluster).actions) == []
    ensures Configured(env, cluster) ==>
      IssuedCreateKinds(RunJob(env, cluster).actions) == KindsOf(Provision(PlanOf(cluster), cluster.create).issued)
  {
    if !Configured(env, cluster) {
      IssuedCreateKindsWithoutCreates(RunJob(env, cluster).actions);
    } else {
      RunJobUnfolds(env, cluster);
      ProvisioningIssuedCreateKinds(GetPod(env.podNamespace, env.podName), PlanOf(cluster), ChildNamespace(cluster.pod.value.name), cluster);
    }
  }

  /** The creates a run issues always follow a prefix of namespace, role, service account, role binding, service, daemonset. */
  lemma ProvisioningFollowsStepOrder(env: JobEnv, cluster: Cluster)
    ensures var kinds := IssuedCreateKinds(RunJob(env, cluster).actions);
      |kinds| <= |StepOrder| && kinds == StepOrder[..|kinds|]
  {
    RunIssuedCreateKinds(env, cluster);
    if Configured(env, cluster) {
      PlanPrefixKinds(cluster, |Provision(PlanOf(cluster), cluster.create).issued|);
    }
  }

  /** Every create of the provisioning order before `k` is accepted. */
  predicate AcceptedUpTo(cluster: Cluster, k: nat)
    requires k <= |StepOrder|
  {
    forall j :: 0 <= j < k ==> cluster.create(StepOrder[j]).Accepted?
  }

  /** How many creates a configured run issues: up to and including the first rejected one. */
  lemma CreatesIssued(cluster: Cluster, k: nat)
    requires cluster.pod.Ok? && JobImage(cluster.pod.value.containers).Some?
    requires k <= |StepOrder| && AcceptedUpTo(cluster, k)
    ensures k < |StepOrder| && cluster.create(StepOrder[k]).Rejected? ==>
      var p := Provision(PlanOf(cluster), cluster.create);
      |p.issued| == k + 1 && p.failure == Some((StepOrder[k], cluster.create(StepOrder[k]).reason))
    ensures k == |StepOrder| ==> Provision(PlanOf(cluster), cluster.create) == Provisioned(PlanOf(cluster), None)
  {
    var plan := PlanOf(cluster);
    assert forall j :: 0 <= j < k ==> cluster.create(plan[j].Kind()).Accepted?;
    if k < |StepOrder| {
      assert plan[k].Kind() == StepOrder[k];
    }
  }

  /** The first step, at or after `from`, whose create is rejected, or the number of steps if none is. */
  function FirstRejected(cluster: Cluster, from: nat): (k: nat)
    requires from <= |StepOrder| && AcceptedUpTo(cluster, from)
    ensures from <= k <= |StepOrder| && AcceptedUpTo(cluster, k)
    ensures k < |StepOrder| ==> cluster.create(StepOrder[k]).Rejected?
    decreases |StepOrder| - from
  {
    if from == |StepOrder| || cluster.create(StepOrder[from]).Rejected? then from
    else FirstRejected(cluster, from + 1)
  }

  /** Provisioning stops at the first rejected create: no create after it is issued and no teardown runs. */
  lemma StepFailureStopsRun(env: JobEnv, cluster: Cluster, k: nat)
    requires Configured(env, cluster)
    requires k < |StepOrder| && AcceptedUpTo(cluster, k) && cluster.create(StepOrder[k]).Rejected?
    ensures RunJob(env, cluster).exit == Fatal(CreateFailed(StepOrder[k], cluster.create(StepOrder[k]).reason))
    ensures IssuedCreateKinds(RunJob(env, cluster).actions) == StepOrder[..k + 1]
    ensures forall i :: 0 <= i < |RunJob(env, cluster).actions| ==>
      !RunJob(env, cluster).actions[i].DeleteByName? && !RunJob(env, cluster).actions[i].ListByName?
  {
    var getPod := GetPod(env.podNamespace, env.podName);
    var ns := ChildNamespace(cluster.pod.value.name);
    CreatesIssued(cluster, k);
    RunJobUnfolds(env, cluster);
    ProvisioningCompletes(getPod, PlanOf(cluster), ns, cluster);
    ProvisioningTearsDownLast(getPod, PlanOf(cluster), ns, cluster);
    RunIssuedCreateKinds(env, cluster);
    PlanPrefixKinds(cluster, k + 1);
  }

  /** The daemonset is created right after the service carrying the start time, and only once that create was accepted. */
  lemma DaemonSetOnlyAfterService(env: JobEnv, cluster: Cluster)
    ensures var a := RunJob(env, cluster).actions;
      forall j :: 0 <= j < |a| && a[j].Create? && a[j].resource.DaemonSet? ==>
        && 1 <= j
        && a[j - 1].Create? && a[j - 1].resource.Service?
        && a[j - 1].resource.labels == PublishedLabels(cluster.publishAt)
        && a[j - 1].resource.namespace == a[j].resource.namespace
        && cluster.create(ServiceKind).Accepted?
  {
    if Configured(env, cluster) {
      var plan := PlanOf(cluster);
      RunJobUnfolds(env, cluster);
      ProvisioningDaemonSetAfterService(GetPod(env.podNamespace, env.podName), plan, ChildNamespace(cluster.pod.value.name), cluster);
      var a := RunJob(env, cluster).actions;
      forall j | 0 <= j < |a| && a[j].Create? && a[j].resource.DaemonSet?
        ensures a[j - 1] == Create(plan[4]) && a[j] == Create(plan[5])
      {
      }
    } else {
      assert forall j :: 0 <= j < |RunJob(env, cluster).actions| ==> RunJob(env, cluster).actions[j].GetPod?;
    }
  }

  /** Only the last step of the order creates a daemonset. */
  lemma DaemonSetIsLastStep(i: int)
    requires 0 <= i < |StepOrder| && StepOrder[i] == DaemonSetKind
    ensures i == |StepOrder| - 1
  {
  }

  /**
    Calls whose creates, right after the first call, follow a plan ordered
    like the provisioning order: a service is only ever the sixth call, and a
    daemonset only the seventh, issued after all six objects' creates began.
  */
  lemma CreatesAlongStepOrder(a: seq<Action>, plan: seq<Resource>, n: nat)
    requires |plan| == |StepOrder| && forall i :: 0 <= i < |plan| ==> plan[i].Kind() == StepOrder[i]
    requires n < |a| && n <= |plan|
    requires forall j :: 1 <= j <= n ==> a[j] == Create(plan[j - 1])
    requires forall j :: 0 <= j < |a| ==> (a[j].Create? <==> 1 <= j <= n)
    ensures forall j :: 0 <= j < |a| && a[j].Create? && a[j].resource.Service? ==> j == 5 && a[j] == Create(plan[4])
    ensures forall j :: 0 <= j < |a| && a[j].Create? && a[j].resource.DaemonSet? ==>
      j == 6 && n == 6 && a[5] == Create(plan[4]) && a[6] == Create(plan[5])
  {
    forall j | 0 <= j < |a| && a[j].Create? && a[j].resource.Service?
      ensures j == 5
    {
      assert plan[j - 1].Kind() == StepOrder[j - 1];
      ServiceIsFifthStep(j - 1);
    }
    forall j | 0 <= j < |a| && a[j].Create? && a[j].resource.DaemonSet?
      ensures j == 6
    {
      assert plan[j - 1].Kind() == StepOrder[j - 1];
      DaemonSetIsLastStep(j - 1);
    }
  }

  /**
    Along a plan ordered like the provisioning order, the only daemonset
    create is the seventh call, right after the create of the fifth object,
    and it is issued only once that create was accepted.
  */
  lemma ProvisioningDaemonSetAfterService(getPod: Action, plan: seq<Resource>, ns: string, cluster: Cluster)
    requires !getPod.Create?
    requires |plan| == |StepOrder| && forall i :: 0 <= i < |plan| ==> plan[i].Kind() == StepOrder[i]
    ensures var a := ProvisionAndTearDown(getPod, plan, ns, cluster).actions;
      forall j :: 0 <= j < |a| && a[j].Create? && a[j].resource.DaemonSet? ==>
        j == 6 && a[5] == Create(plan[4]) && a[6] == Create(plan[5]) && cluster.create(ServiceKind).Accepted?
  {
    ProvisioningCreates(getPod, plan, ns, cluster);
    var n := |Provision(plan, cluster.create).issued|;
    CreatesAlongStepOrder(ProvisionAndTearDown(getPod, plan, ns, cluster).actions, plan, n);
    if n == 6 {
      assert cluster.create(plan[4].Kind()).Accepted?;
    }
  }

  /** Only the fifth step of the order creates a service. */
  lemma ServiceIsFifthStep(i: int)
    requires 0 <= i < |StepOrder| && StepOrder[i] == ServiceKind
    ensures i == 4
  {
  }

  /** Along a plan ordered like the provisioning order, the only service create is the sixth call and creates the fifth object. */
  lemma ProvisioningServiceIsFifth(getPod: Action, plan: seq<Resource>, ns: string, cluster: Cluster)
    requires !getPod.Create?
    requires |plan| == |StepOrder| && forall i :: 0 <= i < |plan| ==> plan[i].Kind() == StepOrder[i]
    ensures var a := ProvisionAndTearDown(getPod, plan, ns, cluster).actions;
      forall j :: 0 <= j < |a| && a[j].Create? && a[j].resource.Service? ==> j == 5 && a[j] == Create(plan[4])
  {
    ProvisioningCreates(getPod, plan, ns, cluster);
    CreatesAlongStepOrder(ProvisionAndTearDown(getPod, plan, ns, cluster).actions, plan, |Provision(plan, cluster.create).issued|);
  }

  /** Everything was provisioned: the run reached the end of `main` and the deferred deletion. */
  predicate FullyProvisioned(env: JobEnv, cluster: Cluster) {
    Configured(env, cluster) && AcceptedUpTo(cluster, |StepOrder|)
  }

  /** A configured run provisions everything exactly when no create of the order is rejected. */
  lemma FullyProvisionedIff(env: JobEnv, cluster: Cluster)
    requires Configured(env, cluster)
    ensures Provision(PlanOf(cluster), cluster.create).failure.None? <==> FullyProvisioned(env, cluster)
  {
    var k := FirstRejected(cluster, 0);
    CreatesIssued(cluster, k);
  }

  /**
    A run completes normally exactly when every create, the delete and the
    confirmation poll succeed; its last call is then a List of the child
    namespace that came back with zero items.
  */
  lemma CompletedIff(env: JobEnv, cluster: Cluster)
    ensures RunJob(env, cluster).exit == Completed <==>
      && FullyProvisioned(env, cluster)
      && cluster.delete.Accepted?
      && Poll(cluster.polls).error.None?
    ensures RunJob(env, cluster).exit == Completed ==>
      var a := RunJob(env, cluster).actions;
      && cluster.pod.Ok?
      && 1 <= |a| && a[|a| - 1] == ListByName(ChildNamespace(cluster.pod.value.name))
      && cluster.polls[Poll(cluster.polls).calls - 1] == Listed(0)
  {
    if Configured(env, cluster) {
      RunJobUnfolds(env, cluster);
      ProvisioningCompletes(GetPod(env.podNamespace, env.podName), PlanOf(cluster), ChildNamespace(cluster.pod.value.name), cluster);
      FullyProvisionedIff(env, cluster);
    }
  }

  /**
    The namespace is deleted and polled only once all six objects were
    created, and those calls name the child namespace.
  */
  lemma TeardownOnlyAfterFullProvisioning(env: JobEnv, cluster: Cluster)
    ensures var a := RunJob(env, cluster).actions;
      forall i :: 0 <= i < |a| && (a[i].DeleteByName? || a[i].ListByName?) ==>
        && FullyProvisioned(env, cluster)
        && 1 + |StepOrder| <= i
        && a[i].name == ChildNamespace(cluster.pod.value.name)
  {
    if Configured(env, cluster) {
      RunJobUnfolds(env, cluster);
      ProvisioningTearsDownLast(GetPod(env.podNamespace, env.podName), PlanOf(cluster), ChildNamespace(cluster.pod.value.name), cluster);
      FullyProvisionedIff(env, cluster);
    } else {
      assert forall j :: 0 <= j < |RunJob(env, cluster).actions| ==> RunJob(env, cluster).actions[j].GetPod?;
    }
  }

  /**
    Once all six objects exist, `main` returns normally: the run created the
    whole order, the child namespace first, and the deferred deletion of that
    namespace follows.
  */
  lemma TeardownFollowsFullProvisioning(env: JobEnv, cluster: Cluster)
    requires FullyProvisioned(env, cluster)
    ensures var a := RunJob(env, cluster).actions;
      && 8 <= |a|
      && a[1] == Create(Namespace(ChildNamespace(cluster.pod.value.name)))
      && a[7] == DeleteByName(ChildNamespace(cluster.pod.value.name))
  {
    var getPod := GetPod(env.podNamespace, env.podName);
    var plan := PlanOf(cluster);
    var ns := ChildNamespace(cluster.pod.value.name);
    RunJobUnfolds(env, cluster);
    FullyProvisionedIff(env, cluster);
    CreatesIssued(cluster, |StepOrder|);
    ProvisioningTearsDownLast(getPod, plan, ns, cluster);
    ProvisioningCreates(getPod, plan, ns, cluster);
    assert RunJob(env, cluster).actions[1] == Create(plan[0]);
  }

  /** A run that provisions everything creates the whole provisioning order. */
  lemma FullRunCreatesStepOrder(env: JobEnv, cluster: Cluster)
    requires FullyProvisioned(env, cluster)
    ensures IssuedCreateKinds(RunJob(env, cluster).actions) == StepOrder
  {
    var plan := PlanOf(cluster);
    RunIssuedCreateKinds(env, cluster);
    FullyProvisionedIff(env, cluster);
    CreatesIssued(cluster, |StepOrder|);
    assert Provision(plan, cluster.create).issued == plan;
    PlanPrefixKinds(cluster, |StepOrder|);
    assert plan[..|StepOrder|] == plan;
    assert StepOrder[..|StepOrder|] == StepOrder;
  }

  /** A deletion that fails or is never confirmed is itself fatal, with its own cause. */
  lemma CleanupFailureIsFatal(env: JobEnv, cluster: Cluster)
    requires FullyProvisioned(env, cluster)
    ensures cluster.delete.Rejected? ==> RunJob(env, cluster).exit == Fatal(CleanupFailed(DeleteRejected(cluster.delete.reason)))
    ensures cluster.delete.Accepted? && Poll(cluster.polls).error.Some? ==>
      RunJob(env, cluster).exit == Fatal(CleanupFailed(Poll(cluster.polls).error.value))
    ensures (forall i :: 0 <= i < |cluster.polls| ==> StillPresent(cluster.polls[i])) ==>
      RunJob(env, cluster).exit == Fatal(CleanupFailed(if cluster.delete.Accepted? then ConfirmTimeout else DeleteRejected(cluster.delete.reason)))
  {
    RunJobUnfolds(env, cluster);
    FullyProvisionedIff(env, cluster);
    ProvisioningCompletes(GetPod(env.podNamespace, env.podName), PlanOf(cluster), ChildNamespace(cluster.pod.value.name), cluster);
  }

  /** The child namespace is named after the pod's suffix, and the agents run the coordinator's image with its entry point renamed. */
  lemma RunNamesFollowThePod(env: JobEnv, cluster: Cluster)
    requires Configured(env, cluster)
    ensures var a := RunJob(env, cluster).actions;
      forall i :: 0 <= i < |a| && a[i].Create? ==>
        if a[i].resource.Namespace? then a[i].resource.name == ChildNamespace(cluster.pod.value.name)
        else a[i].resource.namespace == ChildNamespace(cluster.pod.value.name)
    ensures var a := RunJob(env, cluster).actions;
      forall i :: 0 <= i < |a| && a[i].Create? && a[i].resource.DaemonSet? ==>
        a[i].resource.image == AgentImage(JobImage(cluster.pod.value.containers).value)
  {
    var plan := PlanOf(cluster);
    var getPod := GetPod(env.podNamespace, env.podName);
    var ns := ChildNamespace(cluster.pod.value.name);
    RunJobUnfolds(env, cluster);
    ProvisioningCreates(getPod, plan, ns, cluster);
    CreatesNameTheNamespace(RunJob(env, cluster).actions, plan, |Provision(plan, cluster.create).issued|, ns);
  }

  /**
    Calls whose creates, right after the first call, follow a plan that opens
    with the namespace `ns` and puts everything else in it: every create
    names `ns`, and the only daemonset created is the plan's.
  */
  lemma CreatesNameTheNamespace(a: seq<Action>, plan: seq<Resource>, n: nat, ns: string)
    requires |plan| == |StepOrder| && forall i :: 0 <= i < |plan| ==> plan[i].Kind() == StepOrder[i]
    requires plan[0] == Namespace(ns) && forall i :: 1 <= i < |plan| ==> !plan[i].Namespace? && plan[i].namespace == ns
    requires n < |a| && n <= |plan|
    requires forall j :: 1 <= j <= n ==> a[j] == Create(plan[j - 1])
    requires forall j :: 0 <= j < |a| ==> (a[j].Create? <==> 1 <= j <= n)
    ensures forall i :: 0 <= i < |a| && a[i].Create? ==>
      if a[i].resource.Namespace? then a[i].resource.name == ns else a[i].resource.namespace == ns
    ensures forall i :: 0 <= i < |a| && a[i].Create? && a[i].resource.DaemonSet? ==> a[i].resource == plan[5]
  {
    forall i | 0 <= i < |a| && a[i].Create?
      ensures if a[i].resource.Namespace? then a[i].resource.name == ns else a[i].resource.namespace == ns
    {
      if i > 1 {
        assert a[i].resource == plan[i - 1];
      }
    }
    forall i | 0 <= i < |a| && a[i].Create? && a[i].resource.DaemonSet?
      ensures a[i].resource == plan[5]
    {
      assert plan[i - 1].Kind() == StepOrder[i - 1];
      DaemonSetIsLastStep(i - 1);
    }
  }

}
