/** Creating and deleting the test namespace (pkg/smoketests/namespace.go). */
module Namespaces {
  import opened Kube
  import opened Consts

  /** The cluster's replies: the first Get's error, Create's error, and the polling
      Gets by number. */
  datatype NamespaceOracle = NamespaceOracle(get: Option<Error>, create: Option<Error>, poll: nat -> Lookup)

  /** The polling loop from tick `t`, `k` Gets having been made: wait a 2-second
      tick unless the context is done, then Get; stop at the first error-free Get
      that returns an object. */
  function PollNamespace(ctx: Context, t: nat, poll: nat -> Lookup, k: nat): Run
    decreases ctx.deadline - t
  {
    if ctx.Done(t) then Run(Some(ctx.Err()), t, [])
    else if poll(k).err.None? && poll(k).present then Run(None, t + 1, [NamespaceGet(NamespaceName)])
    else Then([NamespaceGet(NamespaceName)], PollNamespace(ctx, t + 1, poll, k + 1))
  }

  /** CreateNamespace(ctx, client) entered at tick `now`. */
  function CreateNamespaceOutcome(ctx: Context, now: nat, o: NamespaceOracle): Run
  {
    if o.get.None? then Run(None, now, [NamespaceGet(NamespaceName)])
    else if o.create.Some? then Run(o.create, now, [NamespaceGet(NamespaceName), NamespaceCreate(NamespaceName)])
    else Then([NamespaceGet(NamespaceName), NamespaceCreate(NamespaceName)], PollNamespace(ctx, now, o.poll, 0))
  }

  method CreateNamespace(ctx: Context, now: nat, o: NamespaceOracle) returns (r: Run)
    ensures r == CreateNamespaceOutcome(ctx, now, o)
  {
    var calls := [NamespaceGet(NamespaceName)];
    if o.get.None? {
      return Run(None, now, calls);  // the namespace already exists
    }
    calls := calls + [NamespaceCreate(NamespaceName)];
    if o.create.Some? {
      return Run(o.create, now, calls);
    }
    var t, k := now, 0;
    while true
      invariant CreateNamespaceOutcome(ctx, now, o) == Then(calls, PollNamespace(ctx, t, o.poll, k))
      decreases ctx.deadline - t
    {
      if ctx.Done(t) {
        return Run(Some(ctx.Err()), t, calls);
      }
      t := t + 1;
      var reply := o.poll(k);
      calls, k := calls + [NamespaceGet(NamespaceName)], k + 1;
      if reply.err.Some? {
        continue;
      }
      if reply.present {
        break;
      }
    }
    return Run(None, t, calls);
  }

  /** The polling loop makes one Get per tick, none once the context is done; it
      ends with nil exactly at the first error-free Get that finds the namespace,
      and otherwise with the context's error, having found nothing. */
  lemma {:induction false} PollNamespaceShape(ctx: Context, t: nat, poll: nat -> Lookup, k: nat)
    ensures var r := PollNamespace(ctx, t, poll, k);
      && r.later == t + |r.calls|
      && r.later <= Max(t, ctx.deadline)
      && (forall i :: 0 <= i < |r.calls| ==> r.calls[i] == NamespaceGet(NamespaceName))
      && (forall j :: k <= j < k + |r.calls| - 1 ==> !(poll(j).err.None? && poll(j).present))
      && (r.err == None ==> |r.calls| >= 1 && poll(k + |r.calls| - 1).err.None? && poll(k + |r.calls| - 1).present)
      && (r.err != None ==> r.err == Some(ctx.Err()) && r.later == Max(t, ctx.deadline)
                            && (forall j :: k <= j < k + |r.calls| ==> !(poll(j).err.None? && poll(j).present)))
    decreases ctx.deadline - t
  {
    if !ctx.Done(t) && !(poll(k).err.None? && poll(k).present) {
      PollNamespaceShape(ctx, t + 1, poll, k + 1);
    }
  }

  /** An existing namespace is not created again; a Create error is returned as it
      is, without polling; otherwise the result is nil or the context's error. */
  lemma CreateNamespaceCases(ctx: Context, now: nat, o: NamespaceOracle)
    ensures var r := CreateNamespaceOutcome(ctx, now, o);
      && (o.get.None? ==> r == Run(None, now, [NamespaceGet(NamespaceName)]))
      && (o.get.Some? && o.create.Some? ==>
            r == Run(o.create, now, [NamespaceGet(NamespaceName), NamespaceCreate(NamespaceName)]))
      && (o.get.Some? && o.create.None? ==>
            r.err in {None, Some(ctx.Err())} && |r.calls| >= 2
            && r.calls[..2] == [NamespaceGet(NamespaceName), NamespaceCreate(NamespaceName)]
            && forall i :: 2 <= i < |r.calls| ==> r.calls[i] == NamespaceGet(NamespaceName))
  {
    if o.get.Some? && o.create.None? {
      PollNamespaceShape(ctx, now, o.poll, 0);
    }
  }

  /** CreateNamespace returns nil, the Create error or the context's error; it only
      gets and creates the namespace, and it ends by the deadline. */
  lemma CreateNamespaceErrors(ctx: Context, now: nat, o: NamespaceOracle)
    ensures var r := CreateNamespaceOutcome(ctx, now, o);
      && (r.err == None || r.err == o.create || r.err == Some(ctx.Err()))
      && now <= r.later <= Max(now, ctx.deadline)
      && forall i :: 0 <= i < |r.calls| ==>
           r.calls[i] == NamespaceGet(NamespaceName) || r.calls[i] == NamespaceCreate(NamespaceName)
  {
    if o.get.Some? && o.create.None? {
      PollNamespaceShape(ctx, now, o.poll, 0);
    }
  }

  /** DeleteNamespace(ctx, client): the Delete call's error, as it is. */
  function DeleteNamespace(now: nat, deleteErr: Option<Error>): (r: Run)
    ensures r.err == deleteErr && r.later == now
    ensures r.calls == [NamespaceDelete(NamespaceName)]
  {
    Run(deleteErr, now, [NamespaceDelete(NamespaceName)])
  }
}
