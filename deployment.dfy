/** The nginx deployment probe (pkg/smoketests/deployment.go). */
module Deployments {
  import opened Kube
  import opened Consts
  import opened Waiting

  const DeploymentName: string := "smoketest"
  const NumReplicas: int32 := 2

  /** The deployment CreateDeployment sends: two nginx replicas, ready after 7 seconds,
      whose selector picks out exactly the labels of its own pod template. */
  function SmoketestDeployment(): (d: Deployment)
    ensures d.name == DeploymentName && d.replicas == NumReplicas && d.minReadySeconds == 7
    ensures d.selector == map["app" := "smoketest"]
    ensures forall k :: k in d.selector ==> k in d.template.labels && d.template.labels[k] == d.selector[k]
    ensures |d.template.spec.containers| == 1 && d.template.spec.containers[0].image == "nginx"
  {
    Deployment(
      DeploymentName, map["testName" := "deployment"], NumReplicas, map["app" := "smoketest"], 7,
      PodTemplate("nginx", map["app" := "smoketest"],
        PodSpec([Container("webserver", "nginx", PullUnset, [], [])], RestartUnset)))
  }

  /** The cluster's replies: the Get's error, Create's error and the wait's Gets. */
  datatype DeploymentOracle = DeploymentOracle(get: Option<Error>, create: Option<Error>, wait: PollOracle)

  /** CreateDeployment(ctx, client) entered at tick `now`. */
  function CreateDeployment(ctx: Context, now: nat, o: DeploymentOracle): (r: Run)
    ensures |r.calls| >= 1 && r.calls[0] == DeploymentGet(NamespaceName, DeploymentName)
    ensures r.later >= now
    ensures r.err.Some? ==> o.get.Some?
  {
    if o.get.None? then Run(None, now, [DeploymentGet(NamespaceName, DeploymentName)])
    else
      var calls := [DeploymentGet(NamespaceName, DeploymentName), DeploymentCreate(NamespaceName, SmoketestDeployment())];
      if o.create.Some? then Run(o.create, now, calls)
      else
        var w := WaitForOutcome(ctx, now, DeploymentResource, [WithNumReady(NumReplicas)], o.wait);
        if w.err.Some? then Run(w.err, w.later, calls + w.calls)
        else Run(None, w.later, calls + w.calls)
  }

  /** An existing deployment is neither created nor waited for; a Create error is
      returned without waiting; otherwise it waits for 2 available replicas of
      "smoketest" and returns nil or the context's error. */
  lemma CreateDeploymentCases(ctx: Context, now: nat, o: DeploymentOracle)
    ensures var r := CreateDeployment(ctx, now, o);
      && (o.get.None? ==> r == Run(None, now, [DeploymentGet(NamespaceName, DeploymentName)]))
      && (o.get.Some? && o.create.Some? ==> r.err == o.create && r.later == now && |r.calls| == 2)
      && (o.get.Some? ==> |r.calls| >= 2 && r.calls[1] == DeploymentCreate(NamespaceName, SmoketestDeployment()))
      && (o.get.Some? && o.create.None? ==>
            && (r.err == None || r.err == Some(ctx.Err()))
            && (forall i :: 2 <= i < |r.calls| ==> r.calls[i] == DeploymentGet(NamespaceName, DeploymentName))
            && (r.err == None ==> |r.calls| >= 3 && ReadyReplicas(o.wait, |r.calls| - 3) == Some(2 as int32)))
      && (o.get.Some? && o.create.None? ==>
            r == Then([DeploymentGet(NamespaceName, DeploymentName), DeploymentCreate(NamespaceName, SmoketestDeployment())],
                      WaitForOutcome(ctx, now, DeploymentResource, [WithNumReady(NumReplicas)], o.wait)))
  {
    if o.get.Some? && o.create.None? {
      var opts := [WithNumReady(NumReplicas)];
      assert LastNumReadyAt(opts, 0);
      ConfigureNumReady(opts);
      PollShape(ctx, now, DeploymentResource, Configure(opts), o.wait, 0);
    }
  }

  /** After a successful Create, a `ctx.Err()` result means no answer reported 2
      available replicas and the wait ran to the deadline; a nil result means the
      last answer was the first to report 2. */
  lemma CreateDeploymentWaitsForReady(ctx: Context, now: nat, o: DeploymentOracle)
    requires o.get.Some? && o.create.None?
    ensures var r := CreateDeployment(ctx, now, o);
      && |r.calls| >= 2
      && r.later == now + |r.calls| - 2
      && (r.err != None ==> r.err == Some(ctx.Err()) && r.later == Max(now, ctx.deadline)
                            && forall j :: 0 <= j < |r.calls| - 2 ==> ReadyReplicas(o.wait, j) != Some(2 as int32))
      && (r.err == None ==> |r.calls| >= 3 && ReadyReplicas(o.wait, |r.calls| - 3) == Some(2 as int32)
                            && forall j :: 0 <= j < |r.calls| - 3 ==> ReadyReplicas(o.wait, j) != Some(2 as int32))
  {
    var opts := [WithNumReady(NumReplicas)];
    assert LastNumReadyAt(opts, 0);
    ConfigureNumReady(opts);
    ReadyIsSatisfied(Configure(opts), o.wait);
    PollShape(ctx, now, DeploymentResource, Configure(opts), o.wait, 0);
  }

  /** After a successful Create, the first answer that reports 2 available replicas
      before the deadline ends the probe with nil, after exactly that many Gets. */
  lemma CreateDeploymentReadyAtFirst(ctx: Context, now: nat, o: DeploymentOracle, j: nat)
    requires o.get.Some? && o.create.None?
    requires now + j < ctx.deadline
    requires ReadyReplicas(o.wait, j) == Some(2 as int32)
    requires forall i :: 0 <= i < j ==> ReadyReplicas(o.wait, i) != Some(2 as int32)
    ensures var r := CreateDeployment(ctx, now, o);
      r.err == None && |r.calls| == j + 3 && r.later == now + j + 1
  {
    var opts := [WithNumReady(NumReplicas)];
    assert LastNumReadyAt(opts, 0);
    ConfigureNumReady(opts);
    ReadyIsSatisfied(Configure(opts), o.wait);
    WaitForStopsAtFirstSatisfied(ctx, now, DeploymentResource, opts, o.wait, j);
  }

  /** With 2 replicas awaited, an answer satisfies the wait exactly when it reports 2. */
  lemma ReadyIsSatisfied(options: Options, wait: PollOracle)
    requires options.numReady == NumReplicas
    ensures forall k: nat :: Satisfied(DeploymentResource, options, wait, k) <==> ReadyReplicas(wait, k) == Some(2 as int32)
  {
  }

  /** The available replicas the `k`-th wait query reports, if it reports any. */
  function ReadyReplicas(wait: PollOracle, k: nat): Option<int32>
  {
    var reply := wait.deployment(k);
    if reply.err.None? && reply.value.Some? then Some(reply.value.value.availableReplicas) else None
  }

  /** DeleteDeployment(ctx, client): the Delete call's error, as it is. */
  function DeleteDeployment(now: nat, deleteErr: Option<Error>): (r: Run)
    ensures r.err == deleteErr && r.later == now
    ensures r.calls == [DeploymentDelete(NamespaceName, DeploymentName)]
  {
    Run(deleteErr, now, [DeploymentDelete(NamespaceName, DeploymentName)])
  }
}
