# kube-smoketest, modelled in Dafny

kube-smoketest is a command-line program that runs a fixed series of smoke tests
against a Kubernetes cluster. It creates a test namespace, starts a pod and reads
its logs, and, unless `-debug` is given, deletes the namespace. It collects the
errors of these steps and exits with their number. The package also holds probes
that main does not call: a deployment that is waited on until its replicas are
available, a one-shot busybox job, a ClusterIP service tested through that job,
a NodePort service tested over HTTP, and a secret whose storage in etcd is
checked for encryption.

This project models the control logic of those probes and of `main`. Every call
to the outside (the Kubernetes API, HTTP, etcd, files) is an **oracle**: a reply
given as input. A call made several times gets a function from the attempt number
to a reply. Each probe returns a `Run`: its Go error (`None` for nil), the tick it
ends at, and the trace of calls it made, listed with what each one sends. Waiting
is measured in abstract ticks. One `time.After`, backoff wait or `time.Sleep` is
one tick. The context is done from a given tick on, and that tick is the measure
that makes the unbounded polling loops terminate.

Files, one module each:

- `kube.dfy` (`Kube`): Go errors, the context, the Kubernetes objects the probes
  build, oracle replies and the call trace.
- `consts.dfy` (`Consts`): the values of `pkg/smoketests/const.go`.
- `strs.dfy` (`Strs`): `strings.Split`, `strings.Join`, `strings.ToLower` (ASCII)
  and decimal formatting, with round-trip lemmas.
- `waitfor.dfy` (`Waiting`): options, the `Resource` kinds and the `WaitFor` poller.
- `namespace.dfy` (`Namespaces`), `pod.dfy` (`Pods`), `deployment.dfy`
  (`Deployments`), `job.dfy` (`Jobs`), `service.dfy` (`Services`) and
  `secrets.dfy` (`Secrets`): the probes.
- `main.dfy` (`Runner`): the kubeconfig choice, the probe sequence and `LogAndExit`.

The loops of the source are methods with loop invariants: applying options,
`WaitFor`, the namespace poll, the service listing and retry loops, the etcd
endpoint loops and the KV loop. Each method's postcondition equates its result
with a recursive specification function. The lemmas state the properties of that
function. Straight-line probes without a loop are functions that compose those
specifications.

A Go runtime panic that nothing recovers is the error `Panic(...)`. The code
panics in two places, both in `TestNodePortService`: it indexes the first node
when no node is listed, and the first candidate IP when every address is a
"Hostname". `Jobs.JobName` also has a `Panic` branch, for the slice past the end of
the joined text, taken when ⌊k/2⌋ of the k groups exceeds the number of
characters left. Only a text that is not a UUID's can take it. The program formats
a `uuid.UUID`, and that text, the zero UUID's included, is always 8-4-4-4-12
(k = 5, 32 characters), so `CreateJob` never panics there
(`Jobs.CanonicalJobName`).

## Model

| member | source | states |
|---|---|---|
| Waiting.ConfigurePodName | pkg/smoketests/waitfor.go:53-60 | options are applied in argument order: PodName is the value of the last `WithPodName`, and "" when there is none |
| Waiting.ConfigureNumReady | pkg/smoketests/waitfor.go:65-72 | NumReady is the value of the last `WithNumReady`, and 0 when there is none |
| Waiting.ApplyOptions | pkg/smoketests/waitfor.go:80-83 | the loop that applies each option to a zero `options` gives the left-to-right result |
| Waiting.WaitFor | pkg/smoketests/waitfor.go:78-140 | the polling loop returns exactly what the recursive specification of the wait returns |
| Waiting.PollShape | pkg/smoketests/waitfor.go:94-125 | a live kind makes one identical Get per tick and none once the context is done; it ends with nil exactly at the first satisfying answer, and otherwise with `ctx.Err()` at the deadline, with no answer satisfied; query errors are retried |
| Waiting.WaitForStopsAtFirstSatisfied | pkg/smoketests/waitfor.go:105-125 | when answer j is the first that satisfies the kind and comes before the deadline, the wait ends with nil after exactly j+1 queries |
| Waiting.WaitForErrors | pkg/smoketests/waitfor.go:94-137 | the only results are nil, `ctx.Err()`, ErrNotImplemented and ErrUnknownResourceType |
| Waiting.WaitForChecksContextFirst | pkg/smoketests/waitfor.go:94-100 | a done context returns `ctx.Err()` before any query |
| Waiting.WaitForStubsAndUnknown | pkg/smoketests/waitfor.go:102-137 | the Namespace, StatefulSet, PVC, ConfigMap and Secret kinds return ErrNotImplemented and every value outside 1..7 returns ErrUnknownResourceType, after one wait and with no query |
| Namespaces.CreateNamespace | pkg/smoketests/namespace.go:15-54 | the method with the create-then-poll loop returns what the specification of CreateNamespace returns |
| Namespaces.CreateNamespaceCases | pkg/smoketests/namespace.go:23-34 | a successful first Get returns nil with no Create; a Create error is returned as it is, with no polling; otherwise Create is followed only by namespace Gets and the result is nil or `ctx.Err()` |
| Namespaces.PollNamespaceShape | pkg/smoketests/namespace.go:36-50 | each poll iteration either returns `ctx.Err()` or makes one Get; Get errors and nil objects retry; the first error-free Get that finds the namespace ends the loop with nil |
| Namespaces.CreateNamespaceErrors | pkg/smoketests/namespace.go:15-54 | the result is nil, the Create error or `ctx.Err()`, only Gets and one Create of the namespace are made, and the probe ends by the deadline |
| Namespaces.DeleteNamespace | pkg/smoketests/namespace.go:57-67 | one Delete of the namespace; its error is returned unchanged |
| Pods.BuildPod | pkg/smoketests/pod.go:30-63 | the pod is named `ToLower(testName)` and labelled with the original testName; it has one container "yolo" with PullAlways and RestartNever; an empty image becomes "alpine"; command and args are defaulted only when both are empty, else both are passed through |
| Pods.CreatePod | pkg/smoketests/pod.go:24-74 | an empty testName is an error and no Create is made; otherwise one Create of the built pod, whose error or object is the result |
| Pods.PodLogs | pkg/smoketests/pod.go:77-148 | PodLogs' first call creates the PodLogs pod, it never moves time backwards, and a success with pods listed ends with the log request for the first listed pod |
| Pods.PodNameLowerCased | pkg/smoketests/pod.go:45-48 | the pod name holds no upper-case letter, and equals the testName exactly when the testName has none |
| Pods.PodLogsCreatesPod | pkg/smoketests/pod.go:78-82 | PodLogs first creates the pod "podlogs" labelled testName=PodLogs, and a Create error ends it at once with that error and no other call |
| Pods.PodLogsWaitsOnCreated | pkg/smoketests/pod.go:78-87 | once the Create succeeds, every pod Get PodLogs makes is for the pod Create returned, and PodLogs never deletes the namespace |
| Pods.PodLogsTrace | pkg/smoketests/pod.go:78-135 | after a successful Create the calls are the Create, the wait's Gets, and then only the List and the log request |
| Pods.PodLogsNeverDeletes | pkg/smoketests/pod.go:77-148 | PodLogs never issues the namespace Delete |
| Pods.PodLogsErrors | pkg/smoketests/pod.go:76-147 | PodLogs fails only with the error of one of its steps or the context's, never with a stub error of the poller |
| Pods.PodLogsReportsFailures | pkg/smoketests/pod.go:84-139 | once the pod is created, a failed wait, List, log-stream open or read is returned as the result; PodLogs returns nil exactly when the wait and the List succeed and either no pod is listed or the first listed pod's log is opened and read |
| Pods.PodLogsEmptyListSucceeds | pkg/smoketests/pod.go:90-99 | a successful but empty pod list returns the nil `err`, so PodLogs succeeds without reading any log |
| Pods.GetPodLogs | pkg/smoketests/pod.go:151-201 | GetPodLogs first Gets the named pod, makes at most one more call, fails with the Get's error alone when the Get fails, and otherwise ends with the log request for the pod the Get returned |
| Pods.GetPodLogsLines | pkg/smoketests/pod.go:150-201 | GetPodLogs requests the last 10 lines of the pod the Get returned; on success the lines are the log text split at newlines: none holds a newline and joining them with newlines gives the text back |
| Deployments.SmoketestDeployment | pkg/smoketests/deployment.go:24-62 | the deployment "smoketest" has 2 replicas, MinReadySeconds 7 and the selector app=smoketest, which the template labels match, and runs nginx |
| Deployments.CreateDeployment | pkg/smoketests/deployment.go:15-77 | the probe first Gets "smoketest", never moves time backwards, and can fail only after that Get returned an error |
| Deployments.CreateDeploymentCases | pkg/smoketests/deployment.go:15-77 | a successful Get returns nil with no Create and no wait; a Create error is returned with no wait; otherwise it polls only "smoketest" and ends either with nil, at an answer reporting 2 available replicas, or with `ctx.Err()` |
| Deployments.CreateDeploymentWaitsForReady | pkg/smoketests/deployment.go:64-74 | after a successful Create, a `ctx.Err()` result comes at the deadline when no answer reported 2 available replicas, and a nil result comes at the first answer that reported 2 |
| Deployments.CreateDeploymentReadyAtFirst | pkg/smoketests/deployment.go:64-74 | after a successful Create, when answer j is the first to report 2 available replicas and it comes before the deadline, the probe returns nil after exactly j+1 Gets following the Create |
| Deployments.DeleteDeployment | pkg/smoketests/deployment.go:80-86 | one Delete of "smoketest"; its error is returned unchanged |
| Jobs.CanonicalJobName | pkg/smoketests/job.go:22-24 | for a UUID in 8-4-4-4-12 text form, the job name is the 32 hex digits less the first two: 30 characters |
| Jobs.JobName | pkg/smoketests/job.go:22-23 | for k groups the name is the text with its dashes removed less its first ⌊k/2⌋ characters, so it holds no '-'; the slice panics exactly when fewer characters remain |
| Jobs.SplitGrouped | pkg/smoketests/job.go:23 | five '-'-free groups joined by '-' split back into those five groups |
| Jobs.BuildJob | pkg/smoketests/job.go:28-54 | the job has one container "box" running busybox with command `/bin/sh -c`, args exactly `[arg]`, and RestartNever |
| Jobs.CreateJob | pkg/smoketests/job.go:20-65 | a name that cannot be cut panics before any call; otherwise one Create of the built job, whose error or object is the result |
| Services.ServicesDiffer | pkg/smoketests/service.go:32-61 | the ClusterIP service sends port 80 to target 80 over TCP as "http" for app=smoketest; the NodePort service differs only in name, type and port name "http-np" |
| Services.CreateServiceCases | pkg/smoketests/service.go:22-128 | for both services, an existing one is neither created nor tested, a Create error is returned untested, and otherwise the test's error is the result |
| Services.CreateService | pkg/smoketests/service.go:22-72 | the probe first Gets "smoketest-service", fails only when it is not found, and after a Create error has made no call beyond that Create |
| Services.CreateNodePortService | pkg/smoketests/service.go:75-128 | the probe first Gets the NodePort service, fails only when it is not found, and after a Create error has made no call beyond that Create |
| Services.DeleteService | pkg/smoketests/service.go:131-134 | always ErrNotImplemented, with no call |
| Services.TestService | pkg/smoketests/service.go:137-163 | creates the test job and then returns what the specification of the list loop returns; `Services.TestServiceJobFails` and `Services.TestServiceReturnsLastList` state that specification's two outcomes |
| Services.ListJobPods | pkg/smoketests/service.go:146-163 | the List of the job's pods and the `maxTries` loop return what the recursive specification returns |
| Services.TestServiceReturnsLastList | pkg/smoketests/service.go:151-163 | the loop makes between one and four Lists, listing again only while none has returned a pod; it always returns the latest List's error, so the code after the loop is never reached |
| Services.TestServiceJobFails | pkg/smoketests/service.go:140-144 | a job that cannot be created ends TestService at once with that error, having made only the job Create and no List |
| Services.ListTriesShape | pkg/smoketests/service.go:152-163 | from any point of the loop, at most one List per remaining pass, and none after a List has returned pods; the result is the latest List's error, after one sleep per pass but the last |
| Services.CandidateIPsSound | pkg/smoketests/service.go:192-199 | every candidate IP is the address of a non-"Hostname" entry of the first node |
| Services.CandidateIPsComplete | pkg/smoketests/service.go:195-199 | every non-"Hostname" address is a candidate |
| Services.CandidateIPsFirst | pkg/smoketests/service.go:195-199 | candidates keep their order: the first candidate is the first non-"Hostname" address |
| Services.CandidateIPsNone | pkg/smoketests/service.go:195-199 | there is no candidate exactly when every address is a "Hostname" |
| Services.SelectedNodePortIsLast | pkg/smoketests/service.go:206-211 | the selected node port is that of the last port named "http-np", and 0 when there is none |
| Services.FetchBounds | pkg/smoketests/service.go:234-250 | at most 4 requests; retries happen only when the first got no response but an error; the retries stop at the first response without error; the reply kept is the last request's |
| Services.RetryBounds | pkg/smoketests/service.go:240-248 | from any point of the retry loop, no more requests than tries left, and a stop before the last try only at a response without error |
| Services.TestNodePortService | pkg/smoketests/service.go:186-271 | the method with the address, port and retry loops returns what the specification of the NodePort test returns; `Services.TestNodePortServiceFailures` and `Services.TestNodePortServiceCalls` state that specification's outcomes |
| Services.TestNodePortServiceCalls | pkg/smoketests/service.go:190-271 | the HTTP requests all go to the first non-"Hostname" address of the first node on the selected node port; there are 1 to 4 of them after the node List and the service Get; the result is nil exactly when the last reply is a response with status code 200 |
| Services.TestNodePortServiceFailures | pkg/smoketests/service.go:190-219 | with no node listed the test panics after the node List; with only "Hostname" addresses on the first node it panics after the service Get; otherwise a failed request build returns that error, before any request |
| Secrets.SmoketestSecret | pkg/smoketests/secrets.go:35-48 | the secret is Opaque, in the test namespace, with the one key "user" whose value is the ASCII bytes of the base64 text, character by character |
| Secrets.SecretUserBytes | pkg/smoketests/secrets.go:45-47 | the "user" value is the eight bytes 89 87 82 116 97 87 52 75 of "YWRtaW4K" |
| Secrets.EndpointText | pkg/smoketests/secrets.go:81 | an endpoint is the address followed by ":2379" |
| Secrets.NodeEndpointsOne | pkg/smoketests/secrets.go:79-83 | one address gives its endpoint when it is an "InternalIP", and nothing otherwise |
| Secrets.NodeEndpointsAppend | pkg/smoketests/secrets.go:79-83 | the endpoints of consecutive addresses follow each other in address order |
| Secrets.EtcdEndpointsAppend | pkg/smoketests/secrets.go:77-84 | the endpoints of consecutive nodes follow each other in node order |
| Secrets.EtcdEndpointsOne | pkg/smoketests/secrets.go:77-84 | a node gives the endpoints of its addresses |
| Secrets.EtcdEndpointsSound | pkg/smoketests/secrets.go:75-84 | every endpoint is "address:2379" for an "InternalIP" address of some master node |
| Secrets.NodeEndpointsSound | pkg/smoketests/secrets.go:78-83 | every endpoint of a node is "address:2379" for one of its "InternalIP" addresses |
| Secrets.EtcdEndpointsComplete | pkg/smoketests/secrets.go:75-84 | every "InternalIP" address of every master node gives an endpoint |
| Secrets.TestSecret | pkg/smoketests/secrets.go:68-153 | the method with the endpoint and KV loops returns what the specification of TestSecret returns, and logs one warning per value without the marker |
| Secrets.TestSecretSteps | pkg/smoketests/secrets.go:89-152 | the steps run in order and stop at the first failure, whose error is a wrapped one; once the KV Get succeeds the result is nil, whatever the markers |
| Secrets.TestSecretFailures | pkg/smoketests/secrets.go:89-140 | the first failing step decides the error: the CA read, key pair, client, MemberList or KV Get error, wrapped in that step's own message |
| Secrets.EtcdStepsOrder | pkg/smoketests/secrets.go:71-137 | the steps are the master List, the CA file, the key pair, the client for the endpoints, MemberList and the Get of "/registry/secrets/kube-smoketest/smoketest-secret" |
| Secrets.UnencryptedCount | pkg/smoketests/secrets.go:142-150 | one warning per value without the ":enc:" marker, never more than there are values, and none exactly when every value has the marker |
| Secrets.CreateSecret | pkg/smoketests/secrets.go:25-64 | the method returns what the specification of CreateSecret returns, with TestSecret's warnings when the secret was created successfully |
| Secrets.CreateSecretCases | pkg/smoketests/secrets.go:27-63 | an existing secret is neither created nor verified; a Create error is returned wrapped as "failed to create secret: %v"; otherwise TestSecret's error is the result |
| Runner.KubeconfigPath | main.go:21-26 | the path is $KUBECONFIG when it is non-empty, else the home directory followed by "/.kube/config" |
| Runner.LogAndExit | main.go:74-79 | the exit code is the number of errors, and the summary line is logged exactly when there is at least one |
| Runner.Smoketest | main.go:17-71 | the step-by-step run returns the exit, errors and calls of the specification of main |
| Runner.MainFatalConfig | main.go:28-36 | a config or client error ends the process with glog's fatal code 255 before any probe |
| Runner.MainNamespaceFatal | main.go:46-51 | when namespace creation fails, exactly its error is collected, the exit code is 1, and neither PodLogs nor DeleteNamespace runs |
| Runner.MainErrorsInOrder | main.go:53-70 | after the namespace, the PodLogs error and then, without -debug, the DeleteNamespace error are collected in that order; the exit code is their number, 0, 1 or 2 |
| Runner.MainDeletesOnce | main.go:60-68 | DeleteNamespace runs exactly once, as the last call, when the namespace was created and -debug is off, even after a PodLogs failure; otherwise it never runs |
| Runner.MainCalls | main.go:28-70 | a run's calls are loading the config, the namespace's calls, then PodLogs' calls when the namespace exists, then the namespace Delete when it exists and -debug is off |
| Runner.NoDeleteBeforeTeardown | main.go:46-58 | neither namespace creation nor PodLogs issues the namespace Delete |
| Strs.JoinSplit | pkg/smoketests/pod.go:197-198 | joining the pieces of `strings.Split` with the separator gives the text back |
| Strs.SplitJoin | pkg/smoketests/job.go:23-24 | splitting a join of separator-free pieces gives the pieces back |
| Strs.SplitPiecesFree | pkg/smoketests/pod.go:198 | no piece of a split holds the separator |
| Strs.ConcatSplit | pkg/smoketests/job.go:23 | running the pieces of a split together removes the separator and nothing else |
| Strs.ToLowerFixed | pkg/smoketests/pod.go:45 | lower-casing leaves a text unchanged exactly when it has no upper-case letter |

## Left out

- Real time. `time.After`, `time.Sleep` and the jittered backoff of the jpillora/backoff library are each one abstract tick, so the length of a wait, and any growth of the backoff, are not modelled.
- The per-call HTTP and etcd timeouts and the 5-second etcd contexts. They show up only through the replies the oracles give.
- The mechanics of the Kubernetes, HTTP, etcd, gRPC and TLS calls and of the file reads. Each is a reply given as input. The objects the cluster returns are modelled only in the fields the code reads: the pod name, the job labels, the ports, the node addresses, the replica count and the pod phase.
- `hex.Dump`. Each etcd value comes as a boolean saying whether its dump holds ":enc:".
- UUID generation. `CreateJob` takes the UUID's text as input; the code ignores the generator's error.
- glog output, except the warnings that `TestSecret` counts and the summary line of `LogAndExit`. The lines PodLogs logs at verbosity 2 and the response body logged at verbosity 10 are left out. They do not change any result.
- Flag parsing and environment lookups. `-debug`, `$KUBECONFIG` and the home directory are inputs; an error from `os.UserHomeDir` is ignored by the code, so its empty directory is just an input value.
- `os.Exit` and glog's Fatal functions are modelled as the exit code returned by `Runner.Smoketest`. The code 255 is glog's choice, not main.go's.
- The second error check after MemberList in `TestSecret` is dead: the error it tests is always nil at that point. It is left out of `Secrets.TestSecret`.
- The code after the list loop of `TestService` (the wait with `WithStatus(PodCompleted)`, the log read and the search for "Success"). It can never run, and `WithStatus` and `PodCompleted` are not defined in waitfor.go. After the loop the model has `assert false`.
- `Strs.ToLower` lower-cases only the ASCII letters A-Z; Go's `strings.ToLower` also maps other Unicode letters.
- pkg/smoketests/logs.go, an older copy of PodLogs, and pkg/smoketests/componentstatus.go, which main does not call, are not part of this model.
- Go's `%v` of a non-nil error that wraps another is kept as the format string and the cause, not as the formatted text.
- main.go runs only the namespace, PodLogs and teardown steps, so the other probes are modelled on their own and not sequenced.
