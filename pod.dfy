/** Pods (pkg/smoketests/pod.go): building and creating a test pod, the PodLogs
    probe, and fetching a pod's log lines. */
module Pods {
  import opened Kube
  import opened Consts
  import opened Strs
  import opened Waiting

  const DefaultImage: string := "alpine"
  const DefaultCommand: seq<string> := ["/bin/sh"]
  /** The default script: print the date every second until a signal arrives. */
  const DateLoop: string := "trap 'exit' SIGTERM SIGKILL SIGINT SIGQUIT; while true; do echo `date`; sleep 1; done"
  const DefaultArgs: seq<string> := ["-c", DateLoop]
  const LogTailLines: int := 10
  /** The test name PodLogs creates its pod under. */
  const PodLogsTest: string := "PodLogs"

  /** The pod CreatePod sends, after its image and command defaulting. */
  function BuildPod(testName: string, testImage: string, command: seq<string>, args: seq<string>): (p: Pod)
    ensures p.name == ToLower(testName) && p.namespace == NamespaceName
    ensures p.labels == map["testName" := testName]
    ensures p.spec.restartPolicy == RestartNever && |p.spec.containers| == 1
    ensures p.spec.containers[0].name == "yolo" && p.spec.containers[0].pullPolicy == PullAlways
    ensures p.spec.containers[0].image == if testImage == "" then DefaultImage else testImage
    ensures command == [] && args == [] ==>
              p.spec.containers[0].command == DefaultCommand && p.spec.containers[0].args == DefaultArgs
    ensures command != [] || args != [] ==>
              p.spec.containers[0].command == command && p.spec.containers[0].args == args
  {
    var image := if testImage == "" then DefaultImage else testImage;
    var bothEmpty := |command| < 1 && |args| < 1;
    var command' := if bothEmpty then DefaultCommand else command;
    var args' := if bothEmpty then DefaultArgs else args;
    Pod(ToLower(testName), NamespaceName, map["testName" := testName],
        PodSpec([Container("yolo", image, PullAlways, command', args')], RestartNever))
  }

  /** CreatePod(ctx, client, testName, testImage, command, args), Create answering `create`. */
  function CreatePod(testName: string, testImage: string, command: seq<string>, args: seq<string>, create: Result<Pod>): (a: Answer<Pod>)
    ensures testName == "" ==> a.result.Err? && a.calls == []
    ensures testName != "" ==> a.result == create && a.calls == [PodCreate(NamespaceName, BuildPod(testName, testImage, command, args))]
  {
    if testName == "" then
      Answer(Err(Message("failed to create pod: must specify a testName when creating a pod")), [])
    else
      Answer(create, [PodCreate(NamespaceName, BuildPod(testName, testImage, command, args))])
  }

  /** The pod's name is the lower-cased test name, while its `testName` label keeps
      the test name's casing: the two agree only for a name without capitals. */
  lemma PodNameLowerCased(testName: string, testImage: string, command: seq<string>, args: seq<string>)
    ensures var p := BuildPod(testName, testImage, command, args);
      && (forall i :: 0 <= i < |p.name| ==> !('A' <= p.name[i] <= 'Z'))
      && (p.name == p.labels["testName"] <==> forall i :: 0 <= i < |testName| ==> !('A' <= testName[i] <= 'Z'))
  {
    ToLowerIdempotent(testName);
    ToLowerFixed(testName);
  }

  /** A log request: opening the stream, then reading it to the end. */
  datatype LogStream = LogStream(open: Option<Error>, read: Result<string>)

  /** The cluster's replies to PodLogs: Create, the wait's Gets, List and the log stream. */
  datatype PodLogsOracle = PodLogsOracle(create: Result<Pod>, wait: PollOracle, list: Result<seq<Pod>>, logs: LogStream)

  /** PodLogs(ctx, client) entered at tick `now`. */
  function PodLogs(ctx: Context, now: nat, o: PodLogsOracle): (r: Run)
    ensures |r.calls| >= 1 && r.calls[0] == PodCreate(NamespaceName, BuildPod(PodLogsTest, "", [], []))
    ensures r.later >= now
    ensures r.err.None? && o.list.Ok? && |o.list.value| >= 1 ==>
              r.calls[|r.calls| - 1] == PodLogStream(NamespaceName, o.list.value[0].name, LogTailLines)
  {
    var created := CreatePod(PodLogsTest, "", [], [], o.create);
    if created.result.Err? then Run(Some(created.result.error), now, created.calls)
    else
      var w := WaitForOutcome(ctx, now, PodResource, [WithPodName(created.result.value.name)], o.wait);
      var calls := created.calls + w.calls;
      if w.err.Some? then Run(w.err, w.later, calls)
      else
        var calls := calls + [PodList(NamespaceName, "")];
        if o.list.Err? then Run(Some(o.list.error), w.later, calls)
        else if |o.list.value| < 1 then Run(None, w.later, calls)  // `return err`, and err is nil here
        else
          var calls := calls + [PodLogStream(NamespaceName, o.list.value[0].name, LogTailLines)];
          if o.logs.open.Some? then Run(o.logs.open, w.later, calls)
          else if o.logs.read.Err? then Run(Some(o.logs.read.error), w.later, calls)
          else Run(None, w.later, calls)
  }

  /** PodLogs first creates the pod "podlogs" labelled testName=PodLogs, and a
      Create error ends it at once. */
  lemma PodLogsCreatesPod(ctx: Context, now: nat, o: PodLogsOracle)
    ensures var r := PodLogs(ctx, now, o);
      && |r.calls| >= 1
      && r.calls[0] == PodCreate(NamespaceName, BuildPod(PodLogsTest, "", [], []))
      && BuildPod(PodLogsTest, "", [], []).name == "podlogs"
      && BuildPod(PodLogsTest, "", [], []).labels["testName"] == "PodLogs"
      && (o.create.Err? ==> r == Run(Some(o.create.error), now, r.calls[..1]))
  {
    var p := BuildPod(PodLogsTest, "", [], []);
    assert p.name == "podlogs" by {
      assert |p.name| == 7;
      forall i | 0 <= i < 7 ensures p.name[i] == "podlogs"[i] {
        assert p.name[i] == LowerChar(PodLogsTest[i]);
      }
    }
  }

  /** After a successful Create, PodLogs' calls are the Create, the wait's Gets
      for the created pod, and then only the List and the log request. */
  lemma PodLogsTrace(ctx: Context, now: nat, o: PodLogsOracle)
    requires o.create.Ok?
    ensures var w := WaitForOutcome(ctx, now, PodResource, [WithPodName(o.create.value.name)], o.wait);
      var r := PodLogs(ctx, now, o);
      && |r.calls| >= 1 + |w.calls|
      && r.calls[..1 + |w.calls|] == [PodCreate(NamespaceName, BuildPod(PodLogsTest, "", [], []))] + w.calls
      && forall i :: 1 + |w.calls| <= i < |r.calls| ==> r.calls[i].PodList? || r.calls[i].PodLogStream?
  {
  }

  /** After the Create, PodLogs polls only the pod Create returned, and it never
      deletes the namespace. */
  lemma PodLogsWaitsOnCreated(ctx: Context, now: nat, o: PodLogsOracle)
    ensures var r := PodLogs(ctx, now, o);
      && (o.create.Ok? ==> forall i :: 1 <= i < |r.calls| && r.calls[i].PodGet? ==>
                             r.calls[i] == PodGet(NamespaceName, o.create.value.name))
      && forall i :: 0 <= i < |r.calls| ==> !r.calls[i].NamespaceDelete?
  {
    var r := PodLogs(ctx, now, o);
    if o.create.Ok? {
      var name := o.create.value.name;
      var opts := [WithPodName(name)];
      assert LastPodNameAt(opts, 0);
      ConfigurePodName(opts);
      var w := WaitForOutcome(ctx, now, PodResource, opts, o.wait);
      PollShape(ctx, now, PodResource, Configure(opts), o.wait, 0);
      assert forall i :: 0 <= i < |w.calls| ==> w.calls[i] == PodGet(NamespaceName, name);
      PodLogsTrace(ctx, now, o);
      var n := 1 + |w.calls|;
      forall i | 1 <= i < |r.calls|
        ensures !r.calls[i].NamespaceDelete?
        ensures r.calls[i].PodGet? ==> r.calls[i] == PodGet(NamespaceName, name)
      {
        if i < n {
          assert r.calls[i] == r.calls[..n][i] == w.calls[i - 1];
        }
      }
    }
  }

  /** PodLogs never issues the namespace Delete. */
  lemma PodLogsNeverDeletes(ctx: Context, now: nat, o: PodLogsOracle)
    ensures NamespaceDelete(NamespaceName) !in PodLogs(ctx, now, o).calls
  {
    PodLogsWaitsOnCreated(ctx, now, o);
    var calls := PodLogs(ctx, now, o).calls;
    forall i | 0 <= i < |calls| ensures calls[i] != NamespaceDelete(NamespaceName) { }
  }

  /** PodLogs fails only with a step's error or the context's, never with a stub
      error of the poller. */
  lemma PodLogsErrors(ctx: Context, now: nat, o: PodLogsOracle)
    ensures var r := PodLogs(ctx, now, o);
      r.err == None || r.err == Some(ctx.Err()) || (o.create.Err? && r.err == Some(o.create.error))
      || (o.list.Err? && r.err == Some(o.list.error)) || r.err == o.logs.open
      || (o.logs.read.Err? && r.err == Some(o.logs.read.error))
  {
    if o.create.Ok? {
      var opts := [WithPodName(o.create.value.name)];
      PollShape(ctx, now, PodResource, Configure(opts), o.wait, 0);
    }
  }

  /** Once the pod is created, every failure PodLogs meets is its result: the
      wait's, the List's, opening the log stream's and reading it; it returns nil
      only when the wait and the List succeed and either no pod is listed or the
      first listed pod's log is opened and read. */
  lemma PodLogsReportsFailures(ctx: Context, now: nat, o: PodLogsOracle)
    requires o.create.Ok?
    ensures var w := WaitForOutcome(ctx, now, PodResource, [WithPodName(o.create.value.name)], o.wait);
      var r := PodLogs(ctx, now, o);
      && (w.err.Some? ==> r.err == w.err)
      && (w.err.None? && o.list.Err? ==> r.err == Some(o.list.error))
      && (w.err.None? && o.list.Ok? && |o.list.value| >= 1 && o.logs.open.Some? ==> r.err == o.logs.open)
      && (w.err.None? && o.list.Ok? && |o.list.value| >= 1 && o.logs.open.None? && o.logs.read.Err? ==>
            r.err == Some(o.logs.read.error))
      && (r.err.None? <==> w.err.None? && o.list.Ok? && (|o.list.value| == 0 || (o.logs.open.None? && o.logs.read.Ok?)))
  {
  }

  /** With the pod running, a successful but empty pod list ends PodLogs with nil. */
  lemma PodLogsEmptyListSucceeds(ctx: Context, now: nat, o: PodLogsOracle)
    requires o.create.Ok? && o.list == Ok([])
    requires WaitForOutcome(ctx, now, PodResource, [WithPodName(o.create.value.name)], o.wait).err.None?
    ensures PodLogs(ctx, now, o).err.None?
    ensures !PodLogs(ctx, now, o).calls[|PodLogs(ctx, now, o).calls| - 1].PodLogStream?
  {
  }

  /** The cluster's replies to GetPodLogs: the pod Get and the log stream. */
  datatype GetPodLogsOracle = GetPodLogsOracle(get: Result<Pod>, logs: LogStream)

  /** GetPodLogs(ctx, client, podName). */
  function GetPodLogs(podName: string, o: GetPodLogsOracle): (a: Answer<seq<string>>)
    ensures 1 <= |a.calls| <= 2 && a.calls[0] == PodGet(NamespaceName, podName)
    ensures o.get.Err? ==> a == Answer(Err(o.get.error), [PodGet(NamespaceName, podName)])
    ensures o.get.Ok? ==> a.calls[|a.calls| - 1] == PodLogStream(NamespaceName, o.get.value.name, LogTailLines)
  {
    var calls := [PodGet(NamespaceName, podName)];
    if o.get.Err? then Answer(Err(o.get.error), calls)
    else
      var calls := calls + [PodLogStream(NamespaceName, o.get.value.name, LogTailLines)];
      if o.logs.open.Some? then Answer(Err(o.logs.open.value), calls)
      else if o.logs.read.Err? then Answer(Err(o.logs.read.error), calls)
      else Answer(Ok(Split(o.logs.read.value, '\n')), calls)
  }

  /** GetPodLogs asks for the last 10 lines of the pod Get returned; on success the
      lines are the log text cut at each newline: none holds a newline and joining
      them with newlines gives the text back. */
  lemma GetPodLogsLines(podName: string, o: GetPodLogsOracle)
    ensures var a := GetPodLogs(podName, o);
      && (o.get.Ok? ==> a.calls == [PodGet(NamespaceName, podName), PodLogStream(NamespaceName, o.get.value.name, 10)])
      && (a.result.Ok? <==> o.get.Ok? && o.logs.open.None? && o.logs.read.Ok?)
      && (a.result.Ok? ==>
           && |a.result.value| >= 1
           && Join(a.result.value, "\n") == o.logs.read.value
           && forall i :: 0 <= i < |a.result.value| ==> '\n' !in a.result.value[i])
  {
    if o.get.Ok? && o.logs.open.None? && o.logs.read.Ok? {
      JoinSplit(o.logs.read.value, '\n');
      SplitPiecesFree(o.logs.read.value, '\n');
    }
  }
}
