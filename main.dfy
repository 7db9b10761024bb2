/** The program's entry point: pick the kubeconfig, run the probes in order,
    collect their errors and exit with their number (main.go). */
module Runner {
  import opened Kube
  import opened Consts
  import opened Namespaces
  import opened Pods

  /** $KUBECONFIG when it is set and non-empty, else the home directory's .kube/config. */
  function KubeconfigPath(kubeconfig: string, home: string): (path: string)
    ensures kubeconfig != "" ==> path == kubeconfig
    ensures kubeconfig == "" ==> path == home + "/.kube/config"
  {
    if kubeconfig == "" then home + "/.kube/config" else kubeconfig
  }

  /** How the process ends: its exit code and whether the summary error line is logged. */
  datatype Exit = Exit(code: int, summary: bool)

  /** The exit code glog's Fatal functions end the process with. */
  const FatalCode: int := 255

  /** LogAndExit(errors): the summary line only for a non-empty list, and the
      number of errors as exit code. */
  function LogAndExit(errors: seq<Error>): (e: Exit)
    ensures e.code == |errors| && (e.summary <==> |errors| > 0)
  {
    Exit(|errors|, |errors| > 0)
  }

  /** Everything outside the process main depends on: the home directory, building
      the config and the client, and the replies to the probes. */
  datatype MainOracle = MainOracle(
    home: string, config: Option<Error>, client: Option<Error>,
    namespace: NamespaceOracle, podLogs: PodLogsOracle, delete: Option<Error>)

  /** A run of the program: how it exits, the errors it collected and its calls. */
  datatype Outcome = Outcome(exit: Exit, errors: seq<Error>, calls: seq<Call>)

  /** context.WithTimeout(context.Background(), 5*time.Minute), the five minutes
      being `budget` ticks. */
  function Timeout(budget: nat): Context
  {
    Context.Context(budget, DeadlineExceeded)
  }

  /** main with the -debug flag, $KUBECONFIG and the number of ticks the 5-minute
      timeout allows. */
  function MainOutcome(debug: bool, kubeconfig: string, budget: nat, o: MainOracle): Outcome
  {
    var start := [ConfigLoad(KubeconfigPath(kubeconfig, o.home))];
    if o.config.Some? || o.client.Some? then Outcome(Exit(FatalCode, false), [], start)
    else
      var ctx := Timeout(budget);
      var ns := CreateNamespaceOutcome(ctx, 0, o.namespace);
      if ns.err.Some? then Outcome(LogAndExit([ns.err.value]), [ns.err.value], start + ns.calls)
      else
        var logs := PodLogs(ctx, ns.later, o.podLogs);
        var calls := start + ns.calls + logs.calls;
        if debug then Outcome(LogAndExit(Errs(logs.err)), Errs(logs.err), calls)
        else
          var deleted := DeleteNamespace(logs.later, o.delete);
          var errors := Errs(logs.err) + Errs(deleted.err);
          Outcome(LogAndExit(errors), errors, calls + deleted.calls)
  }

  method Smoketest(debug: bool, kubeconfig: string, budget: nat, o: MainOracle) returns (exit: Exit, errors: seq<Error>, calls: seq<Call>)
    ensures Outcome(exit, errors, calls) == MainOutcome(debug, kubeconfig, budget, o)
  {
    var path := KubeconfigPath(kubeconfig, o.home);
    calls := [ConfigLoad(path)];
    errors := [];
    if o.config.Some? || o.client.Some? {
      return Exit(FatalCode, false), errors, calls;  // glog.Fatalln
    }
    var ctx := Timeout(budget);

    var r := CreateNamespace(ctx, 0, o.namespace);
    calls := calls + r.calls;
    if r.err.Some? {
      errors := errors + [r.err.value];
      return LogAndExit(errors), errors, calls;  // no namespace, nothing else can run
    }

    var logs := PodLogs(ctx, r.later, o.podLogs);
    calls := calls + logs.calls;
    if logs.err.Some? {
      errors := errors + [logs.err.value];
    }

    if !debug {
      var deleted := DeleteNamespace(logs.later, o.delete);
      calls := calls + deleted.calls;
      if deleted.err.Some? {
        errors := errors + [deleted.err.value];
      }
    }
    return LogAndExit(errors), errors, calls;
  }

  /** Without a config or a client the program stops at once, with glog's fatal
      code, having collected nothing. */
  lemma MainFatalConfig(debug: bool, kubeconfig: string, budget: nat, o: MainOracle)
    requires o.config.Some? || o.client.Some?
    ensures var out := MainOutcome(debug, kubeconfig, budget, o);
      out.exit == Exit(255, false) && out.errors == []
      && out.calls == [ConfigLoad(KubeconfigPath(kubeconfig, o.home))]
  {
  }

  /** When the namespace cannot be made, exactly that one error is collected, the
      exit code is 1, and neither PodLogs nor DeleteNamespace runs. */
  lemma MainNamespaceFatal(debug: bool, kubeconfig: string, budget: nat, o: MainOracle)
    requires o.config.None? && o.client.None?
    requires CreateNamespaceOutcome(Timeout(budget), 0, o.namespace).err.Some?
    ensures var out := MainOutcome(debug, kubeconfig, budget, o);
      var ns := CreateNamespaceOutcome(Timeout(budget), 0, o.namespace);
      && out.errors == [ns.err.value]
      && out.exit == Exit(1, true)
      && forall i :: 0 <= i < |out.calls| ==> !out.calls[i].PodCreate? && !out.calls[i].NamespaceDelete?
  {
    CreateNamespaceErrors(Timeout(budget), 0, o.namespace);
  }

  /** Past the namespace, PodLogs' error and then DeleteNamespace's (without -debug)
      are collected in that order, and the exit code is how many there are: 0, 1 or 2. */
  lemma MainErrorsInOrder(debug: bool, kubeconfig: string, budget: nat, o: MainOracle)
    requires o.config.None? && o.client.None?
    requires CreateNamespaceOutcome(Timeout(budget), 0, o.namespace).err.None?
    ensures var out := MainOutcome(debug, kubeconfig, budget, o);
      var ctx := Timeout(budget);
      var logs := PodLogs(ctx, CreateNamespaceOutcome(ctx, 0, o.namespace).later, o.podLogs);
      && out.errors == Errs(logs.err) + (if debug then [] else Errs(o.delete))
      && out.exit.code == |out.errors| && 0 <= out.exit.code <= 2
      && (out.exit.summary <==> out.exit.code > 0)
  {
  }

  /** The namespace is deleted exactly once when the run got past creating it and
      -debug is off, and never otherwise; a PodLogs failure does not prevent it. */
  lemma MainDeletesOnce(debug: bool, kubeconfig: string, budget: nat, o: MainOracle)
    requires o.config.None? && o.client.None?
    ensures var out := MainOutcome(debug, kubeconfig, budget, o);
      var ns := CreateNamespaceOutcome(Timeout(budget), 0, o.namespace);
      && multiset(out.calls)[NamespaceDelete(NamespaceName)] == (if !debug && ns.err.None? then 1 else 0)
      && (!debug && ns.err.None? ==> out.calls[|out.calls| - 1] == NamespaceDelete(NamespaceName))
  {
    var ctx := Timeout(budget);
    var ns := CreateNamespaceOutcome(ctx, 0, o.namespace);
    var x := NamespaceDelete(NamespaceName);
    NoDeleteBeforeTeardown(budget, o);
    var before := [ConfigLoad(KubeconfigPath(kubeconfig, o.home))] + ns.calls
      + (if ns.err.None? then PodLogs(ctx, ns.later, o.podLogs).calls else []);
    assert multiset(before)[x] == 0;
    MainCalls(debug, kubeconfig, budget, o);
    var out := MainOutcome(debug, kubeconfig, budget, o);
    if ns.err.None? && !debug {
      assert out.calls == before + [x];
      assert multiset(out.calls) == multiset(before) + multiset{x};
    } else {
      assert out.calls == before;
    }
  }

  /** The calls of a run: loading the config, creating the namespace, and past
      that PodLogs' calls and, without -debug, the Delete. */
  lemma MainCalls(debug: bool, kubeconfig: string, budget: nat, o: MainOracle)
    requires o.config.None? && o.client.None?
    ensures var ctx := Timeout(budget);
      var ns := CreateNamespaceOutcome(ctx, 0, o.namespace);
      MainOutcome(debug, kubeconfig, budget, o).calls
        == [ConfigLoad(KubeconfigPath(kubeconfig, o.home))] + ns.calls
           + (if ns.err.None? then PodLogs(ctx, ns.later, o.podLogs).calls else [])
           + (if ns.err.None? && !debug then [NamespaceDelete(NamespaceName)] else [])
  {
  }

  /** Neither creating the namespace nor PodLogs deletes it. */
  lemma NoDeleteBeforeTeardown(budget: nat, o: MainOracle)
    ensures var ctx := Timeout(budget);
      var ns := CreateNamespaceOutcome(ctx, 0, o.namespace);
      && NamespaceDelete(NamespaceName) !in ns.calls
      && NamespaceDelete(NamespaceName) !in PodLogs(ctx, ns.later, o.podLogs).calls
  {
    var ctx := Timeout(budget);
    var ns := CreateNamespaceOutcome(ctx, 0, o.namespace);
    var x := NamespaceDelete(NamespaceName);
    assert x !in ns.calls by {
      CreateNamespaceErrors(ctx, 0, o.namespace);
      forall i | 0 <= i < |ns.calls| ensures ns.calls[i] != x { }
    }
    PodLogsNeverDeletes(ctx, ns.later, o.podLogs);
  }
}
