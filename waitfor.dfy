/** The condition poller of pkg/smoketests/waitfor.go: options applied left to right,
    then a loop that first races the context against a backoff tick and then asks
    the cluster about the awaited resource. */
module Waiting {
  import opened Kube
  import opened Consts

  /** The Go `Resource` enum is an `int`; only 1..7 are named. */
  type Resource = int

  const NamespaceResource: Resource := 1
  const PodResource: Resource := 2
  const DeploymentResource: Resource := 3
  const StatefulSetResource: Resource := 4
  const PvcResource: Resource := 5
  const ConfigMapResource: Resource := 6
  const SecretResource: Resource := 7

  /** The kinds with a predicate that queries the cluster. */
  predicate IsLive(resource: Resource)
  {
    resource == PodResource || resource == DeploymentResource
  }

  /** The named kinds that return ErrNotImplemented. */
  predicate IsStub(resource: Resource)
  {
    resource == NamespaceResource || resource == StatefulSetResource || resource == PvcResource
    || resource == ConfigMapResource || resource == SecretResource
  }

  /** The optional arguments `WithPodName` and `WithNumReady`. */
  datatype WaitOption = WithPodName(podName: string) | WithNumReady(numReady: int32)

  /** The `options` struct; its zero value is Options(0, ""). */
  datatype Options = Options(numReady: int32, podName: string)

  /** `Option.apply`: sets the one field the option names. */
  function Apply(o: WaitOption, options: Options): Options
  {
    match o
    case WithPodName(n) => options.(podName := n)
    case WithNumReady(n) => options.(numReady := n)
  }

  /** The options after applying `opts` in argument order to the zero value. */
  function Configure(opts: seq<WaitOption>): Options
  {
    if opts == [] then Options(0, "")
    else Apply(opts[|opts| - 1], Configure(opts[..|opts| - 1]))
  }

  /** Option `i` is the last `WithPodName` in `opts`. */
  predicate LastPodNameAt(opts: seq<WaitOption>, i: nat)
  {
    i < |opts| && opts[i].WithPodName? && forall j :: i < j < |opts| ==> !opts[j].WithPodName?
  }

  /** Option `i` is the last `WithNumReady` in `opts`. */
  predicate LastNumReadyAt(opts: seq<WaitOption>, i: nat)
  {
    i < |opts| && opts[i].WithNumReady? && forall j :: i < j < |opts| ==> !opts[j].WithNumReady?
  }

  /** A later `WithPodName` overrides an earlier one; with none, PodName stays "". */
  lemma {:induction false} ConfigurePodName(opts: seq<WaitOption>)
    ensures (forall i :: 0 <= i < |opts| ==> !opts[i].WithPodName?) ==> Configure(opts).podName == ""
    ensures forall i: nat :: LastPodNameAt(opts, i) ==> Configure(opts).podName == opts[i].podName
    decreases |opts|
  {
    if opts != [] {
      var n := |opts| - 1;
      var front := opts[..n];
      ConfigurePodName(front);
      forall i: nat | LastPodNameAt(opts, i)
        ensures Configure(opts).podName == opts[i].podName
      {
        if !opts[n].WithPodName? {
          assert LastPodNameAt(front, i);
        }
      }
      if forall i :: 0 <= i < |opts| ==> !opts[i].WithPodName? {
        assert forall i :: 0 <= i < |front| ==> !front[i].WithPodName?;
      }
    }
  }

  /** A later `WithNumReady` overrides an earlier one; with none, NumReady stays 0. */
  lemma {:induction false} ConfigureNumReady(opts: seq<WaitOption>)
    ensures (forall i :: 0 <= i < |opts| ==> !opts[i].WithNumReady?) ==> Configure(opts).numReady == 0
    ensures forall i: nat :: LastNumReadyAt(opts, i) ==> Configure(opts).numReady == opts[i].numReady
    decreases |opts|
  {
    if opts != [] {
      var n := |opts| - 1;
      var front := opts[..n];
      ConfigureNumReady(front);
      forall i: nat | LastNumReadyAt(opts, i)
        ensures Configure(opts).numReady == opts[i].numReady
      {
        if !opts[n].WithNumReady? {
          assert LastNumReadyAt(front, i);
        }
      }
      if forall i :: 0 <= i < |opts| ==> !opts[i].WithNumReady? {
        assert forall i :: 0 <= i < |front| ==> !front[i].WithNumReady?;
      }
    }
  }

  /** Applies the options one by one to a zero-valued `options`. */
  method ApplyOptions(opts: seq<WaitOption>) returns (options: Options)
    ensures options == Configure(opts)
  {
    options := Options(0, "");
    for i := 0 to |opts|
      invariant options == Configure(opts[..i])
    {
      assert opts[..i + 1][..i] == opts[..i];
      options := Apply(opts[i], options);
    }
    assert opts[..|opts|] == opts;
  }

  /** The cluster's answers to the poller's successive Gets, by query number. */
  datatype PollOracle = PollOracle(
    deployment: nat -> Reply<DeploymentStatus>,
    pod: nat -> Result<PodPhase>)

  /** The Get a live kind issues on each iteration. */
  function Query(resource: Resource, options: Options): Call
  {
    if resource == DeploymentResource then DeploymentGet(NamespaceName, "smoketest")
    else PodGet(NamespaceName, options.podName)
  }

  /** Whether the `k`-th query's answer ends the wait. */
  predicate Satisfied(resource: Resource, options: Options, cluster: PollOracle, k: nat)
  {
    if resource == DeploymentResource then
      var reply := cluster.deployment(k);
      reply.err.None? && reply.value.Some? && reply.value.value.availableReplicas == options.numReady
    else
      var reply := cluster.pod(k);
      reply.Ok? && reply.value == Running
  }

  /** The loop from tick `t`, `k` queries having been made. */
  function PollFrom(ctx: Context, t: nat, resource: Resource, options: Options, cluster: PollOracle, k: nat): (r: Run)
    ensures r.later >= t
    decreases ctx.deadline - t
  {
    if ctx.Done(t) then Run(Some(ctx.Err()), t, [])
    else if resource == NamespaceResource then Run(Some(NotImplemented), t + 1, [])
    else if resource == DeploymentResource || resource == PodResource then
      var q := Query(resource, options);
      if Satisfied(resource, options, cluster, k) then Run(None, t + 1, [q])
      else Then([q], PollFrom(ctx, t + 1, resource, options, cluster, k + 1))
    else if IsStub(resource) then Run(Some(NotImplemented), t + 1, [])
    else Run(Some(UnknownResourceType), t + 1, [])
  }

  /** WaitFor(ctx, client, resource, opts...) entered at tick `now`. */
  function WaitForOutcome(ctx: Context, now: nat, resource: Resource, opts: seq<WaitOption>, cluster: PollOracle): Run
  {
    PollFrom(ctx, now, resource, Configure(opts), cluster, 0)
  }

  method WaitFor(ctx: Context, now: nat, resource: Resource, opts: seq<WaitOption>, cluster: PollOracle)
    returns (r: Run)
    ensures r == WaitForOutcome(ctx, now, resource, opts, cluster)
  {
    var options := ApplyOptions(opts);
    // the backoff value only paces the ticks; each pass waits one tick
    var t, k, calls := now, 0, [];
    ghost var goal := WaitForOutcome(ctx, now, resource, opts, cluster);
    while true
      invariant goal == Then(calls, PollFrom(ctx, t, resource, options, cluster, k))
      decreases ctx.deadline - t
    {
      if ctx.Done(t) {
        return Run(Some(ctx.Err()), t, calls);
      }
      ghost var t0, k0, calls0 := t, k, calls;
      t := t + 1;
      if resource == NamespaceResource {
        return Run(Some(NotImplemented), t, calls);
      } else if resource == DeploymentResource {
        var reply := cluster.deployment(k);
        calls, k := calls + [DeploymentGet(NamespaceName, "smoketest")], k + 1;
        if reply.err.Some? {
          PollStep(ctx, t0, resource, options, cluster, k0, calls0);
          continue;
        }
        if reply.value.Some? && reply.value.value.availableReplicas == options.numReady {
          return Run(None, t, calls);
        }
        PollStep(ctx, t0, resource, options, cluster, k0, calls0);
      } else if resource == PodResource {
        var reply := cluster.pod(k);
        calls, k := calls + [PodGet(NamespaceName, options.podName)], k + 1;
        if reply.Err? {
          PollStep(ctx, t0, resource, options, cluster, k0, calls0);
          continue;
        }
        if reply.value == Running {
          return Run(None, t, calls);
        }
        PollStep(ctx, t0, resource, options, cluster, k0, calls0);
      } else if resource == StatefulSetResource {
        return Run(Some(NotImplemented), t, calls);
      } else if resource == PvcResource {
        return Run(Some(NotImplemented), t, calls);
      } else if resource == ConfigMapResource {
        return Run(Some(NotImplemented), t, calls);
      } else if resource == SecretResource {
        return Run(Some(NotImplemented), t, calls);
      } else {
        return Run(Some(UnknownResourceType), t, calls);
      }
    }
  }

  /** One unsatisfied query: its Get joins the calls and the loop goes on a tick later. */
  lemma PollStep(ctx: Context, t: nat, resource: Resource, options: Options, cluster: PollOracle, k: nat, calls: seq<Call>)
    requires !ctx.Done(t) && IsLive(resource) && !Satisfied(resource, options, cluster, k)
    ensures Then(calls, PollFrom(ctx, t, resource, options, cluster, k))
      == Then(calls + [Query(resource, options)], PollFrom(ctx, t + 1, resource, options, cluster, k + 1))
  {
    var rest := PollFrom(ctx, t + 1, resource, options, cluster, k + 1);
    assert calls + ([Query(resource, options)] + rest.calls) == calls + [Query(resource, options)] + rest.calls;
  }

  /** The shape of every wait: a live kind makes one query per tick, all of the same
      Get, never once the context is done; it ends with nil exactly at the first
      query whose answer satisfies it, and otherwise with the context's error when
      the context is done, never having been satisfied. */
  lemma {:induction false} PollShape(ctx: Context, t: nat, resource: Resource, options: Options, cluster: PollOracle, k: nat)
    requires IsLive(resource)
    ensures var r := PollFrom(ctx, t, resource, options, cluster, k);
      && r.later == t + |r.calls|
      && r.later <= Max(t, ctx.deadline)
      && (forall i :: 0 <= i < |r.calls| ==> r.calls[i] == Query(resource, options))
      && (forall j :: k <= j < k + |r.calls| - 1 ==> !Satisfied(resource, options, cluster, j))
      && (r.err == None ==> |r.calls| >= 1 && Satisfied(resource, options, cluster, k + |r.calls| - 1))
      && (r.err != None ==> r.err == Some(ctx.Err()) && r.later == Max(t, ctx.deadline)
                            && (forall j :: k <= j < k + |r.calls| ==> !Satisfied(resource, options, cluster, j)))
    decreases ctx.deadline - t
  {
    if !ctx.Done(t) && !Satisfied(resource, options, cluster, k) {
      PollShape(ctx, t + 1, resource, options, cluster, k + 1);
    }
  }

  /** WaitFor returns nil at the first query whose answer satisfies the kind's
      predicate, provided that query comes before the context is done. */
  lemma WaitForStopsAtFirstSatisfied(ctx: Context, now: nat, resource: Resource, opts: seq<WaitOption>, cluster: PollOracle, j: nat)
    requires IsLive(resource)
    requires now + j < ctx.deadline
    requires Satisfied(resource, Configure(opts), cluster, j)
    requires forall i :: 0 <= i < j ==> !Satisfied(resource, Configure(opts), cluster, i)
    ensures var r := WaitForOutcome(ctx, now, resource, opts, cluster);
      r.err == None && |r.calls| == j + 1 && r.later == now + j + 1
  {
    PollShape(ctx, now, resource, Configure(opts), cluster, 0);
  }

  /** The only errors WaitFor returns are the context's, ErrNotImplemented and
      ErrUnknownResourceType: query errors never escape. */
  lemma WaitForErrors(ctx: Context, now: nat, resource: Resource, opts: seq<WaitOption>, cluster: PollOracle)
    ensures var r := WaitForOutcome(ctx, now, resource, opts, cluster);
      r.err in {None, Some(ctx.Err()), Some(NotImplemented), Some(UnknownResourceType)}
  {
    if IsLive(resource) {
      PollShape(ctx, now, resource, Configure(opts), cluster, 0);
    }
  }

  /** A done context ends the wait before any query. */
  lemma WaitForChecksContextFirst(ctx: Context, now: nat, resource: Resource, opts: seq<WaitOption>, cluster: PollOracle)
    requires ctx.Done(now)
    ensures WaitForOutcome(ctx, now, resource, opts, cluster) == Run(Some(ctx.Err()), now, [])
  {
  }

  /** The stub kinds return ErrNotImplemented, and any other value than 1..7
      ErrUnknownResourceType, on the first pass the context lets through, with no query. */
  lemma WaitForStubsAndUnknown(ctx: Context, now: nat, resource: Resource, opts: seq<WaitOption>, cluster: PollOracle)
    requires !IsLive(resource) && !ctx.Done(now)
    ensures var r := WaitForOutcome(ctx, now, resource, opts, cluster);
      && r.calls == [] && r.later == now + 1
      && (IsStub(resource) ==> r.err == Some(NotImplemented))
      && (!IsStub(resource) ==> r.err == Some(UnknownResourceType))
      && (!IsStub(resource) <==> resource < 1 || resource > 7)
  {
  }
}
