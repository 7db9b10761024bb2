/** The ClusterIP and NodePort service probes (pkg/smoketests/service.go). */
module Services {
  import opened Kube
  import opened Consts
  import opened Strs
  import opened Jobs

  /** The ClusterIP service CreateService sends. */
  function ClusterIPService(): Service
  {
    Service(ServiceName, map["app" := "smoketest", "part-of" := "smoketest"], map["app" := "smoketest"],
      ClusterIP, [ServicePort("http", 80, 80, TCP, 0)])
  }

  /** The NodePort service CreateNodePortService sends; the cluster picks its node port. */
  function NodePortService(): Service
  {
    Service(ServiceNameNodePort, map["app" := "smoketest", "part-of" := "smoketest"], map["app" := "smoketest"],
      NodePort, [ServicePort("http-np", 80, 80, TCP, 0)])
  }

  /** The two services differ only in name, type and port name: both send port 80
      to target port 80 over TCP for the pods labelled app=smoketest. */
  lemma ServicesDiffer()
    ensures NodePortService() == ClusterIPService().(name := ServiceNameNodePort, serviceType := NodePort,
              ports := [ClusterIPService().ports[0].(name := "http-np")])
    ensures ClusterIPService().selector == map["app" := "smoketest"]
    ensures ClusterIPService().ports == [ServicePort("http", 80, 80, TCP, 0)]
  {
  }

  /** DeleteService(ctx, client): not implemented, and asks the cluster nothing. */
  function DeleteService(now: nat): (r: Run)
    ensures r == Run(Some(NotImplemented), now, [])
  {
    Run(Some(NotImplemented), now, [])
  }

  // ---------------------------------------------------------------- TestService

  /** The command the service test job runs. */
  const TestServiceArg: string :=
    "wget -o /dev/null -O /dev/null " + ServiceName + " && echo \"Success\" || echo \"Failed\""

  /** The cluster's replies to TestService: the job's UUID text and Create, and the
      pod Lists by number. */
  datatype TestServiceOracle = TestServiceOracle(uuid: string, createJob: Result<Job>, lists: nat -> Result<seq<Pod>>)

  /** The items of a List reply; a failed List leaves the list empty. */
  function Items<T>(reply: Result<seq<T>>): seq<T>
  {
    if reply.Ok? then reply.value else []
  }

  function ErrOf<T>(reply: Result<T>): Option<Error>
  {
    if reply.Err? then Some(reply.error) else None
  }

  /** The label selector for the pods of `job`; a missing label reads as "". */
  function JobSelector(job: Job): string
  {
    "job-name=" + (if "job-name" in job.labels then job.labels["job-name"] else "")
  }

  /** The `maxTries` loop from its head with `tries` left, `i` Lists made and `pods`
      the latest List reply: List again while there are no pods, and on the third
      pass return the latest List error. */
  function ListTries(lists: nat -> Result<seq<Pod>>, selector: string, tries: nat, i: nat, pods: Result<seq<Pod>>, t: nat): Run
    requires tries >= 1
    decreases tries
  {
    var relist := |Items(pods)| < 1;
    var pods' := if relist then lists(i) else pods;
    var i' := if relist then i + 1 else i;
    var calls := if relist then [PodList(NamespaceName, selector)] else [];
    if tries - 1 < 1 then Run(ErrOf(pods'), t, calls)
    else Then(calls, ListTries(lists, selector, tries - 1, i', pods', t + 1))
  }

  /** TestService(ctx, client) entered at tick `now`. */
  function TestServiceOutcome(now: nat, o: TestServiceOracle): Run
  {
    var job := CreateJob(o.uuid, TestServiceArg, o.createJob);
    if job.result.Err? then Run(Some(job.result.error), now, job.calls)
    else
      var selector := JobSelector(job.result.value);
      Then(job.calls + [PodList(NamespaceName, selector)], ListTries(o.lists, selector, 3, 1, o.lists(0), now))
  }

  method TestService(now: nat, o: TestServiceOracle) returns (r: Run)
    ensures r == TestServiceOutcome(now, o)
  {
    var job := CreateJob(o.uuid, TestServiceArg, o.createJob);
    if job.result.Err? {
      return Run(Some(job.result.error), now, job.calls);
    }
    var listing := ListJobPods(now, o.lists, JobSelector(job.result.value));
    return Then(job.calls, listing);
  }

  /** The List of the job's pods and the `maxTries` loop after it. */
  method ListJobPods(now: nat, lists: nat -> Result<seq<Pod>>, selector: string) returns (r: Run)
    ensures r == Then([PodList(NamespaceName, selector)], ListTries(lists, selector, 3, 1, lists(0), now))
  {
    var pods, i := lists(0), 1;
    var listed := [PodList(NamespaceName, selector)];
    ghost var first := listed;
    var t := now;
    var maxTries := 3;
    while maxTries > 0
      invariant 1 <= maxTries <= 3
      invariant Then(listed, ListTries(lists, selector, maxTries, i, pods, t))
             == Then(first, ListTries(lists, selector, 3, 1, lists(0), now))
    {
      ghost var pods0, i0, listed0 := pods, i, listed;
      if |Items(pods)| < 1 {
        pods, i := lists(i), i + 1;
        listed := listed + [PodList(NamespaceName, selector)];
      }
      maxTries := maxTries - 1;
      if maxTries < 1 {
        return Run(ErrOf(pods), t, listed);
      }
      ListTriesStep(lists, selector, maxTries + 1, i0, pods0, t, listed0);
      t := t + 1;  // time.Sleep(time.Second)
    }
    // Waiting for the pod, reading its log and looking for "Success" come after
    // this loop, which never exits but through its return.
    assert false;
  }

  /** One pass of the List loop that is not the last: a List when no pod has shown
      up yet, then the rest of the loop a second later. */
  lemma ListTriesStep(lists: nat -> Result<seq<Pod>>, selector: string, tries: nat, i: nat, pods: Result<seq<Pod>>, t: nat, listed: seq<Call>)
    requires tries >= 2
    ensures var relist := |Items(pods)| < 1;
      Then(listed, ListTries(lists, selector, tries, i, pods, t))
        == Then(listed + (if relist then [PodList(NamespaceName, selector)] else []),
                ListTries(lists, selector, tries - 1, if relist then i + 1 else i, if relist then lists(i) else pods, t + 1))
  {
    var relist := |Items(pods)| < 1;
    var calls := if relist then [PodList(NamespaceName, selector)] else [];
    var rest := ListTries(lists, selector, tries - 1, if relist then i + 1 else i, if relist then lists(i) else pods, t + 1);
    assert listed + (calls + rest.calls) == listed + calls + rest.calls;
  }

  /** A job that cannot be created ends TestService at once with that error,
      before any List. */
  lemma TestServiceJobFails(now: nat, o: TestServiceOracle)
    requires CreateJob(o.uuid, TestServiceArg, o.createJob).result.Err?
    ensures var job := CreateJob(o.uuid, TestServiceArg, o.createJob);
      TestServiceOutcome(now, o) == Run(Some(job.result.error), now, job.calls)
    ensures forall c :: c in TestServiceOutcome(now, o).calls ==> c.JobCreate?
  {
  }

  /** TestService never gets past its List loop: after the job it makes between one
      and four Lists, listing again only while no pod has shown up, and returns the
      latest List's error, so it succeeds exactly when that List did. */
  lemma TestServiceReturnsLastList(now: nat, o: TestServiceOracle)
    requires CreateJob(o.uuid, TestServiceArg, o.createJob).result.Ok?
    ensures var r := TestServiceOutcome(now, o);
      var job := CreateJob(o.uuid, TestServiceArg, o.createJob);
      var n := |r.calls| - |job.calls|;
      && r.calls[..|job.calls|] == job.calls
      && 1 <= n <= 4
      && (forall c :: c in r.calls[|job.calls|..] ==> c == PodList(NamespaceName, JobSelector(job.result.value)))
      && (forall i :: 0 <= i < n - 1 ==> |Items(o.lists(i))| < 1)
      && (n < 4 ==> |Items(o.lists(n - 1))| >= 1)
      && r.err == ErrOf(o.lists(n - 1))
      && r.later == now + 2
  {
    var job := CreateJob(o.uuid, TestServiceArg, o.createJob);
    var selector := JobSelector(job.result.value);
    ListTriesShape(o.lists, selector, 3, 1, o.lists(0), now);
    var r := TestServiceOutcome(now, o);
    var rest := ListTries(o.lists, selector, 3, 1, o.lists(0), now);
    assert r.calls == job.calls + ([PodList(NamespaceName, selector)] + rest.calls);
    assert r.calls[|job.calls|..] == [PodList(NamespaceName, selector)] + rest.calls;
  }

  /** The loop from its head, with `pods` the reply of List number `i - 1`. */
  lemma {:induction false} ListTriesShape(lists: nat -> Result<seq<Pod>>, selector: string, tries: nat, i: nat, pods: Result<seq<Pod>>, t: nat)
    requires 1 <= tries && i >= 1 && pods == lists(i - 1)
    ensures var r := ListTries(lists, selector, tries, i, pods, t);
      var n := i + |r.calls|;
      && |r.calls| <= tries
      && (forall c :: c in r.calls ==> c == PodList(NamespaceName, selector))
      && (forall j :: i - 1 <= j < n - 1 ==> |Items(lists(j))| < 1)
      && (|r.calls| < tries ==> |Items(lists(n - 1))| >= 1)
      && r.err == ErrOf(lists(n - 1))
      && r.later == t + tries - 1
    decreases tries
  {
    var relist := |Items(pods)| < 1;
    var pods' := if relist then lists(i) else pods;
    var i' := if relist then i + 1 else i;
    if tries > 1 {
      if relist {
        ListTriesShape(lists, selector, tries - 1, i', pods', t + 1);
      } else {
        ListTriesKeeps(lists, selector, tries - 1, i, pods, t + 1);
      }
    }
  }

  /** Once a List has returned pods, the loop lists no more and keeps that reply. */
  lemma {:induction false} ListTriesKeeps(lists: nat -> Result<seq<Pod>>, selector: string, tries: nat, i: nat, pods: Result<seq<Pod>>, t: nat)
    requires 1 <= tries && |Items(pods)| >= 1
    ensures ListTries(lists, selector, tries, i, pods, t) == Run(ErrOf(pods), t + tries - 1, [])
    decreases tries
  {
    if tries > 1 {
      ListTriesKeeps(lists, selector, tries - 1, i, pods, t + 1);
    }
  }

  // -------------------------------------------------------- TestNodePortService

  /** The addresses the NodePort test may call: the non-"Hostname" ones, in order. */
  function CandidateIPs(addresses: seq<NodeAddress>): seq<string>
  {
    if addresses == [] then []
    else
      var last := addresses[|addresses| - 1];
      CandidateIPs(addresses[..|addresses| - 1]) + (if last.addressType != "Hostname" then [last.address] else [])
  }

  /** Every candidate is the address of a non-"Hostname" entry. */
  lemma {:induction false} CandidateIPsSound(addresses: seq<NodeAddress>)
    ensures forall ip :: ip in CandidateIPs(addresses) ==>
              exists i :: 0 <= i < |addresses| && addresses[i].addressType != "Hostname" && addresses[i].address == ip
    decreases |addresses|
  {
    if addresses != [] {
      var n := |addresses| - 1;
      var front := addresses[..n];
      CandidateIPsSound(front);
      forall ip | ip in CandidateIPs(addresses)
        ensures exists i :: 0 <= i < |addresses| && addresses[i].addressType != "Hostname" && addresses[i].address == ip
      {
        if ip in CandidateIPs(front) {
          var i :| 0 <= i < |front| && front[i].addressType != "Hostname" && front[i].address == ip;
          assert addresses[i] == front[i];
        } else {
          assert addresses[n].addressType != "Hostname" && addresses[n].address == ip;
        }
      }
    }
  }

  /** Every non-"Hostname" address is a candidate. */
  lemma {:induction false} CandidateIPsComplete(addresses: seq<NodeAddress>)
    ensures forall i :: 0 <= i < |addresses| && addresses[i].addressType != "Hostname" ==>
              addresses[i].address in CandidateIPs(addresses)
    decreases |addresses|
  {
    if addresses != [] {
      var n := |addresses| - 1;
      var front := addresses[..n];
      CandidateIPsComplete(front);
      forall i | 0 <= i < n && addresses[i].addressType != "Hostname"
        ensures addresses[i].address in CandidateIPs(addresses)
      {
        assert front[i] == addresses[i];
      }
    }
  }

  /** The first candidate is the first non-"Hostname" address. */
  lemma {:induction false} CandidateIPsFirst(addresses: seq<NodeAddress>, i: nat)
    requires i < |addresses| && addresses[i].addressType != "Hostname"
    requires forall j :: 0 <= j < i ==> addresses[j].addressType == "Hostname"
    ensures |CandidateIPs(addresses)| >= 1 && CandidateIPs(addresses)[0] == addresses[i].address
    decreases |addresses|
  {
    var n := |addresses| - 1;
    var front := addresses[..n];
    if i < n {
      assert front[i] == addresses[i];
      assert forall j :: 0 <= j < i ==> front[j] == addresses[j];
      CandidateIPsFirst(front, i);
    } else {
      CandidateIPsNone(front);
    }
  }

  /** No candidate at all exactly when every address is a "Hostname". */
  lemma {:induction false} CandidateIPsNone(addresses: seq<NodeAddress>)
    ensures CandidateIPs(addresses) == [] <==> forall i :: 0 <= i < |addresses| ==> addresses[i].addressType == "Hostname"
    decreases |addresses|
  {
    if addresses != [] {
      var n := |addresses| - 1;
      var front := addresses[..n];
      CandidateIPsNone(front);
      assert forall i :: 0 <= i < n ==> front[i] == addresses[i];
    }
  }

  /** Port `i` is the last port named "http-np". */
  predicate LastHttpNpAt(ports: seq<ServicePort>, i: nat)
  {
    i < |ports| && ports[i].name == "http-np" && forall j :: i < j < |ports| ==> ports[j].name != "http-np"
  }

  /** The node port the test calls: that of the last "http-np" port, else 0. */
  function SelectedNodePort(ports: seq<ServicePort>): int32
  {
    if ports == [] then 0
    else if ports[|ports| - 1].name == "http-np" then ports[|ports| - 1].nodePort
    else SelectedNodePort(ports[..|ports| - 1])
  }

  /** The selected port is the last "http-np" port's, and 0 when there is none. */
  lemma {:induction false} SelectedNodePortIsLast(ports: seq<ServicePort>)
    ensures (forall i :: 0 <= i < |ports| ==> ports[i].name != "http-np") ==> SelectedNodePort(ports) == 0
    ensures forall i: nat :: LastHttpNpAt(ports, i) ==> SelectedNodePort(ports) == ports[i].nodePort
    decreases |ports|
  {
    if ports != [] {
      var n := |ports| - 1;
      var front := ports[..n];
      SelectedNodePortIsLast(front);
      forall i: nat | LastHttpNpAt(ports, i)
        ensures SelectedNodePort(ports) == ports[i].nodePort
      {
        if ports[n].name != "http-np" {
          assert LastHttpNpAt(front, i);
        }
      }
      if forall i :: 0 <= i < |ports| ==> ports[i].name != "http-np" {
        assert forall i :: 0 <= i < |front| ==> front[i].name != "http-np";
      }
    }
  }

  /** The reply that ends the HTTP requests, how many were made and how many
      one-second sleeps came between or after them. */
  datatype Fetched = Fetched(reply: HttpReply, attempts: nat, sleeps: nat)

  /** The retry loop from its head, `tries` left, `i` requests made, `last` the latest reply. */
  function Retry(http: nat -> HttpReply, tries: nat, i: nat, last: HttpReply, sleeps: nat): Fetched
    decreases tries
  {
    if tries == 0 then Fetched(last, i, sleeps)
    else if http(i).Response? then Fetched(http(i), i + 1, sleeps)
    else Retry(http, tries - 1, i + 1, http(i), sleeps + 1)
  }

  /** The first request, and up to three more only when it got no response but an error. */
  function Fetch(http: nat -> HttpReply): Fetched
  {
    if http(0).Failure? then Retry(http, 3, 1, http(0), 1) else Fetched(http(0), 1, 0)
  }

  /** At most four requests; a retry only after a first request that got no
      response but an error; the retries stop at the first plain response, and the
      reply kept is the last request's. */
  lemma FetchBounds(http: nat -> HttpReply)
    ensures var f := Fetch(http);
      && 1 <= f.attempts <= 4
      && f.reply == http(f.attempts - 1)
      && (f.attempts == 1 <==> !http(0).Failure?)
      && (forall j :: 1 <= j < f.attempts - 1 ==> !http(j).Response?)
      && (f.attempts > 1 && f.attempts < 4 ==> f.reply.Response?)
  {
    if http(0).Failure? {
      RetryBounds(http, 3, 1, http(0), 1);
    }
  }

  lemma {:induction false} RetryBounds(http: nat -> HttpReply, tries: nat, i: nat, last: HttpReply, sleeps: nat)
    requires i >= 1 && last == http(i - 1)
    ensures var f := Retry(http, tries, i, last, sleeps);
      && i <= f.attempts <= i + tries
      && (tries > 0 ==> f.attempts > i)
      && f.reply == http(f.attempts - 1)
      && (forall j :: i <= j < f.attempts - 1 ==> !http(j).Response?)
      && (f.attempts > i && f.attempts < i + tries ==> f.reply.Response?)
    decreases tries
  {
    if tries > 0 && !http(i).Response? {
      RetryBounds(http, tries - 1, i + 1, http(i), sleeps + 1);
    }
  }

  /** The cluster's replies to TestNodePortService: the node List, the ports of the
      service Get, building the request, and the HTTP requests by number. */
  datatype NodePortOracle = NodePortOracle(
    nodes: Result<seq<Node>>, ports: Result<seq<ServicePort>>, request: Option<Error>, http: nat -> HttpReply)

  function ServiceUrl(ip: string, nodePort: int32): string
  {
    "http://" + ip + ":" + IntToString(nodePort as int)
  }

  /** How the request ends: its error, else a non-200 status as an error, else nil. */
  function Verdict(reply: HttpReply): Option<Error>
  {
    match reply
    case Failure(e) => Some(e)
    case RedirectFailure(_, _, e) => Some(e)
    case Response(code, status) => if code != 200 then Some(Message(status)) else None
  }

  /** TestNodePortService(ctx, client) entered at tick `now`. */
  function TestNodePortServiceOutcome(now: nat, o: NodePortOracle): Run
  {
    var nodes := Items(o.nodes);  // the List error is not looked at
    if |nodes| == 0 then Run(Some(Panic("index out of range")), now, [NodeList("")])
    else
      var ips := CandidateIPs(nodes[0].addresses);
      var nodePort := SelectedNodePort(Items(o.ports));  // the Get error is not looked at
      var calls := [NodeList(""), ServiceGet(NamespaceName, ServiceNameNodePort)];
      if |ips| == 0 then Run(Some(Panic("index out of range")), now, calls)
      else if o.request.Some? then Run(o.request, now, calls)
      else
        var f := Fetch(o.http);
        Run(Verdict(f.reply), now + f.sleeps, calls + seq(f.attempts, _ => HttpGet(ServiceUrl(ips[0], nodePort))))
  }

  method TestNodePortService(now: nat, o: NodePortOracle) returns (r: Run)
    ensures r == TestNodePortServiceOutcome(now, o)
  {
    var calls := [NodeList("")];
    var nodes := Items(o.nodes);
    if |nodes| == 0 {
      return Run(Some(Panic("index out of range")), now, calls);
    }
    var addresses := nodes[0].addresses;
    var candidateIPs := [];
    for i := 0 to |addresses|
      invariant candidateIPs == CandidateIPs(addresses[..i])
    {
      assert addresses[..i + 1][..i] == addresses[..i];
      if addresses[i].addressType != "Hostname" {
        candidateIPs := candidateIPs + [addresses[i].address];
      }
    }
    assert addresses[..|addresses|] == addresses;

    calls := calls + [ServiceGet(NamespaceName, ServiceNameNodePort)];
    var ports := Items(o.ports);
    var nodePort: int32 := 0;
    for i := 0 to |ports|
      invariant nodePort == SelectedNodePort(ports[..i])
    {
      assert ports[..i + 1][..i] == ports[..i];
      if ports[i].name == "http-np" {
        nodePort := ports[i].nodePort;
      }
    }
    assert ports[..|ports|] == ports;

    if |candidateIPs| == 0 {
      return Run(Some(Panic("index out of range")), now, calls);
    }
    var url := ServiceUrl(candidateIPs[0], nodePort);
    if o.request.Some? {
      return Run(o.request, now, calls);
    }
    ghost var calls0 := calls;
    var resp := o.http(0);
    var k, t := 1, now;
    calls := calls + [HttpGet(url)];
    if resp.Failure? {
      var maxTries := 3;
      t := t + 1;  // time.Sleep(time.Second)
      while maxTries > 0
        invariant 0 <= maxTries <= 3 && k == 4 - maxTries && t == now + k
        invariant resp == o.http(k - 1)
        invariant calls == calls0 + seq(k, _ => HttpGet(url))
        invariant Fetch(o.http) == Retry(o.http, maxTries, k, resp, t - now)
      {
        maxTries := maxTries - 1;
        resp, k := o.http(k), k + 1;
        calls := calls + [HttpGet(url)];
        if resp.Response? {
          break;
        }
        t := t + 1;  // time.Sleep(time.Second)
      }
    }
    return Run(Verdict(resp), t, calls);
  }

  /** TestNodePortService fails before any request in three ways: it panics with no
      node listed, panics with no address of the first node but "Hostname" ones,
      and returns the error of building the request. */
  lemma TestNodePortServiceFailures(now: nat, o: NodePortOracle)
    ensures var r := TestNodePortServiceOutcome(now, o);
      var calls := [NodeList(""), ServiceGet(NamespaceName, ServiceNameNodePort)];
      && (|Items(o.nodes)| == 0 ==> r == Run(Some(Panic("index out of range")), now, [NodeList("")]))
      && (|Items(o.nodes)| >= 1 ==>
            var addresses := Items(o.nodes)[0].addresses;
            && ((forall i :: 0 <= i < |addresses| ==> addresses[i].addressType == "Hostname") ==>
                  r == Run(Some(Panic("index out of range")), now, calls))
            && ((exists i :: 0 <= i < |addresses| && addresses[i].addressType != "Hostname") && o.request.Some? ==>
                  r == Run(o.request, now, calls)))
  {
    if |Items(o.nodes)| >= 1 {
      CandidateIPsNone(Items(o.nodes)[0].addresses);
    }
  }

  /** The NodePort test calls the first non-"Hostname" address of the first node on
      the last "http-np" port's node port, at most four times, and fails unless the
      last request got a 200 response and no error. */
  lemma TestNodePortServiceCalls(now: nat, o: NodePortOracle, i: nat)
    requires |Items(o.nodes)| >= 1 && o.request.None?
    requires i < |Items(o.nodes)[0].addresses| && Items(o.nodes)[0].addresses[i].addressType != "Hostname"
    requires forall j :: 0 <= j < i ==> Items(o.nodes)[0].addresses[j].addressType == "Hostname"
    ensures var r := TestNodePortServiceOutcome(now, o);
      var url := ServiceUrl(Items(o.nodes)[0].addresses[i].address, SelectedNodePort(Items(o.ports)));
      && 3 <= |r.calls| <= 6
      && (forall j :: 2 <= j < |r.calls| ==> r.calls[j] == HttpGet(url))
      && (r.err == None <==> o.http(|r.calls| - 3).Response? && o.http(|r.calls| - 3).code == 200)
  {
    CandidateIPsFirst(Items(o.nodes)[0].addresses, i);
    FetchBounds(o.http);
  }

  // ------------------------------------------------------------ Create probes

  /** The cluster's replies to the Create probes: the Get, the Create, and the test's. */
  datatype CreateServiceOracle = CreateServiceOracle(get: Lookup, create: Option<Error>, test: TestServiceOracle)
  datatype CreateNodePortOracle = CreateNodePortOracle(get: Lookup, create: Option<Error>, test: NodePortOracle)

  /** CreateService(ctx, client) entered at tick `now`. */
  function CreateService(now: nat, o: CreateServiceOracle): (r: Run)
    ensures |r.calls| >= 1 && r.calls[0] == ServiceGet(NamespaceName, ServiceName)
    ensures r.err.Some? ==> !(o.get.err.None? && o.get.present)
    ensures o.create.Some? ==> r.calls[1..] == [] || r.calls[1..] == [ServiceCreate(NamespaceName, ClusterIPService())]
  {
    var get := ServiceGet(NamespaceName, ServiceName);
    if o.get.err.None? && o.get.present then Run(None, now, [get])
    else if o.create.Some? then Run(o.create, now, [get, ServiceCreate(NamespaceName, ClusterIPService())])
    else Then([get, ServiceCreate(NamespaceName, ClusterIPService())], TestServiceOutcome(now, o.test))
  }

  /** CreateNodePortService(ctx, client) entered at tick `now`. */
  function CreateNodePortService(now: nat, o: CreateNodePortOracle): (r: Run)
    ensures |r.calls| >= 1 && r.calls[0] == ServiceGet(NamespaceName, ServiceNameNodePort)
    ensures r.err.Some? ==> !(o.get.err.None? && o.get.present)
    ensures o.create.Some? ==> r.calls[1..] == [] || r.calls[1..] == [ServiceCreate(NamespaceName, NodePortService())]
  {
    var get := ServiceGet(NamespaceName, ServiceNameNodePort);
    if o.get.err.None? && o.get.present then Run(None, now, [get])
    else if o.create.Some? then Run(o.create, now, [get, ServiceCreate(NamespaceName, NodePortService())])
    else Then([get, ServiceCreate(NamespaceName, NodePortService())], TestNodePortServiceOutcome(now, o.test))
  }

  /** An existing service is neither created nor tested; a Create error is returned
      untested; otherwise the test's result is the probe's. */
  lemma CreateServiceCases(now: nat, o: CreateServiceOracle, p: CreateNodePortOracle)
    ensures var r := CreateService(now, o);
      && (o.get.err.None? && o.get.present ==> r == Run(None, now, [ServiceGet(NamespaceName, ServiceName)]))
      && (!(o.get.err.None? && o.get.present) ==> |r.calls| >= 2 && r.calls[1] == ServiceCreate(NamespaceName, ClusterIPService()))
      && (!(o.get.err.None? && o.get.present) && o.create.Some? ==> r.err == o.create && |r.calls| == 2)
      && (!(o.get.err.None? && o.get.present) && o.create.None? ==> r.err == TestServiceOutcome(now, o.test).err)
    ensures var r := CreateNodePortService(now, p);
      && (p.get.err.None? && p.get.present ==> r == Run(None, now, [ServiceGet(NamespaceName, ServiceNameNodePort)]))
      && (!(p.get.err.None? && p.get.present) ==> |r.calls| >= 2 && r.calls[1] == ServiceCreate(NamespaceName, NodePortService()))
      && (!(p.get.err.None? && p.get.present) && p.create.Some? ==> r.err == p.create && |r.calls| == 2)
      && (!(p.get.err.None? && p.get.present) && p.create.None? ==> r.err == TestNodePortServiceOutcome(now, p.test).err)
  {
  }
}
