/** Values shared by every probe: Go's error values, the context that bounds a run,
    the Kubernetes objects the probes build, the replies the cluster gives and the
    trace of calls a probe makes. */
module Kube {

  datatype Option<+T> = None | Some(value: T)

  /** A Go `(T, error)` pair where the code never sees a nil T next to a nil error. */
  datatype Result<+T> = Ok(value: T) | Err(error: Error)

  /** A Go `(*T, error)` pair where the code tests the pointer for nil itself. */
  datatype Reply<+T> = Reply(value: Option<T>, err: Option<Error>)

  /** A Get whose object the code only tests for nil: (object != nil, error). */
  datatype Lookup = Lookup(present: bool, err: Option<Error>)

  datatype CtxError = Canceled | DeadlineExceeded

  /** Go `error` values. A Go `error` result is `Option<Error>`, `None` being nil. */
  datatype Error =
    | NotImplemented                         // ErrNotImplemented
    | UnknownResourceType                    // ErrUnknownResourceType
    | Context(reason: CtxError)              // ctx.Err()
    | Api(message: string)                   // an error returned by a cluster, HTTP, etcd or file call
    | Wrapped(format: string, cause: Error)  // fmt.Errorf(format, ..., cause), every verb but the cause's filled in
    | Message(text: string)                  // fmt.Errorf(text) with no cause
    | Panic(what: string)                    // a Go runtime panic; nothing recovers it

  /** A context that is done from tick `deadline` on. */
  datatype Context = Context(deadline: nat, reason: CtxError) {
    predicate Done(t: nat) { t >= deadline }
    function Err(): Error { Error.Context(reason) }
  }

  newtype int32 = x: int | -0x8000_0000 <= x < 0x8000_0000
  newtype byte = x: int | 0 <= x < 256

  datatype PullPolicy = PullUnset | PullAlways
  datatype RestartPolicy = RestartUnset | RestartNever
  datatype PodPhase = Pending | Running | Succeeded | Failed | Unknown

  datatype Container = Container(
    name: string, image: string, pullPolicy: PullPolicy,
    command: seq<string>, args: seq<string>)

  datatype PodSpec = PodSpec(containers: seq<Container>, restartPolicy: RestartPolicy)

  datatype Pod = Pod(name: string, namespace: string, labels: map<string, string>, spec: PodSpec)

  datatype PodTemplate = PodTemplate(name: string, labels: map<string, string>, spec: PodSpec)

  datatype Deployment = Deployment(
    name: string, labels: map<string, string>, replicas: int32,
    selector: map<string, string>, minReadySeconds: int32, template: PodTemplate)

  datatype DeploymentStatus = DeploymentStatus(availableReplicas: int32)

  datatype Job = Job(name: string, labels: map<string, string>, template: PodTemplate)

  datatype ServiceType = ClusterIP | NodePort
  datatype Protocol = TCP

  datatype ServicePort = ServicePort(
    name: string, port: int32, targetPort: int32, protocol: Protocol, nodePort: int32)

  datatype Service = Service(
    name: string, labels: map<string, string>, selector: map<string, string>,
    serviceType: ServiceType, ports: seq<ServicePort>)

  datatype SecretType = Opaque

  datatype Secret = Secret(name: string, namespace: string, secretType: SecretType, data: map<string, seq<byte>>)

  datatype NodeAddress = NodeAddress(addressType: string, address: string)

  datatype Node = Node(addresses: seq<NodeAddress>)

  /** An HTTP client reply: exactly one of response and error is non-nil, except
      when a redirect policy fails, where both are. */
  datatype HttpReply =
    | Response(code: int, status: string)
    | Failure(err: Error)
    | RedirectFailure(code: int, status: string, err: Error)

  /** The calls to the outside world a probe makes, with what it sends. */
  datatype Call =
    | ConfigLoad(path: string)
    | NamespaceGet(name: string)
    | NamespaceCreate(name: string)
    | NamespaceDelete(name: string)
    | PodGet(namespace: string, name: string)
    | PodCreate(namespace: string, pod: Pod)
    | PodList(namespace: string, selector: string)
    | PodLogStream(namespace: string, name: string, tailLines: int)
    | DeploymentGet(namespace: string, name: string)
    | DeploymentCreate(namespace: string, deployment: Deployment)
    | DeploymentDelete(namespace: string, name: string)
    | JobCreate(namespace: string, job: Job)
    | ServiceGet(namespace: string, name: string)
    | ServiceCreate(namespace: string, service: Service)
    | NodeList(selector: string)
    | HttpGet(url: string)
    | SecretGet(namespace: string, name: string)
    | SecretCreate(namespace: string, secret: Secret)
    | FileRead(path: string)
    | KeyPairLoad(certFile: string, keyFile: string)
    | EtcdClientNew(endpoints: seq<string>)
    | EtcdMemberList
    | EtcdGet(key: string)

  /** What one probe (or one wait) does: its Go error, the tick it ends at and the
      calls it makes, in order. */
  datatype Run = Run(err: Option<Error>, later: nat, calls: seq<Call>)

  /** The outcome of a probe that returns a value as well as an error. */
  datatype Answer<+T> = Answer(result: Result<T>, calls: seq<Call>)

  /** Prefixes calls made before a run to that run. */
  function Then(calls: seq<Call>, r: Run): Run
  {
    Run(r.err, r.later, calls + r.calls)
  }

  /** The errors a Go `error` contributes to a list: none for nil. */
  function Errs(e: Option<Error>): seq<Error>
  {
    if e.Some? then [e.value] else []
  }

  function Max(a: nat, b: nat): nat { if a < b then b else a }
}
