/** The secret probe: create a secret and look at how etcd stores it
    (pkg/smoketests/secrets.go). */
module Secrets {
  import opened Kube
  import opened Consts
  import opened Strs

  /** []byte(s) for a text of ASCII characters, one byte per character. */
  function AsciiBytes(s: string): (b: seq<byte>)
    requires forall i :: 0 <= i < |s| ==> s[i] < 128 as char
    ensures |b| == |s| && forall i :: 0 <= i < |s| ==> b[i] as int == s[i] as int
  {
    if s == [] then [] else [s[0] as int as byte] + AsciiBytes(s[1..])
  }

  /** The secret CreateSecret sends: its one value is the ASCII bytes of the
      base64 text, not the decoded text. */
  function SmoketestSecret(): (s: Secret)
    ensures s.name == SecretName && s.namespace == NamespaceName && s.secretType == Opaque
    ensures s.data.Keys == {"user"} && |s.data["user"]| == |SecretValueBase64|
    ensures forall i :: 0 <= i < |SecretValueBase64| ==> s.data["user"][i] as int == SecretValueBase64[i] as int
  {
    assert forall i :: 0 <= i < |SecretValueBase64| ==> SecretValueBase64[i] < 128 as char;
    Secret(SecretName, NamespaceName, Opaque, map["user" := AsciiBytes(SecretValueBase64)])
  }

  /** The secret's "user" value is the eight bytes of "YWRtaW4K". */
  lemma SecretUserBytes()
    ensures SmoketestSecret().data["user"] == [89, 87, 82, 116, 97, 87, 52, 75]
  {
    var text := SecretValueBase64;
    var b := SmoketestSecret().data["user"];
    assert text[0] == 'Y' && text[1] == 'W' && text[2] == 'R' && text[3] == 't';
    assert text[4] == 'a' && text[5] == 'W' && text[6] == '4' && text[7] == 'K';
    assert b[0] == 89 && b[1] == 87 && b[2] == 82 && b[3] == 116;
    assert b[4] == 97 && b[5] == 87 && b[6] == 52 && b[7] == 75;
  }

  // ------------------------------------------------------------- endpoints

  /** The etcd endpoint of one address. */
  function Endpoint(address: string): string
  {
    address + ":" + NatToString(EtcdPort)
  }

  lemma EndpointText(address: string)
    ensures Endpoint(address) == address + ":2379"
  {
    assert NatToString(2379) == NatToString(237) + ['9'];
    assert NatToString(237) == NatToString(23) + ['7'];
    assert NatToString(23) == NatToString(2) + ['3'];
  }

  /** The endpoints of one node: one per "InternalIP" address, in order. */
  function NodeEndpoints(addresses: seq<NodeAddress>): seq<string>
  {
    if addresses == [] then []
    else
      var last := addresses[|addresses| - 1];
      NodeEndpoints(addresses[..|addresses| - 1]) + (if last.addressType == "InternalIP" then [Endpoint(last.address)] else [])
  }

  /** The endpoints of every node, node by node. */
  function EtcdEndpoints(nodes: seq<Node>): seq<string>
  {
    if nodes == [] then [] else EtcdEndpoints(nodes[..|nodes| - 1]) + NodeEndpoints(nodes[|nodes| - 1].addresses)
  }

  /** One address gives its endpoint when it is an "InternalIP" and nothing otherwise;
      the endpoints of consecutive addresses follow each other. Together these fix
      the endpoints of any list of addresses, order included. */
  lemma {:induction false} NodeEndpointsAppend(a: seq<NodeAddress>, b: seq<NodeAddress>)
    ensures NodeEndpoints(a + b) == NodeEndpoints(a) + NodeEndpoints(b)
    decreases |b|
  {
    if b == [] {
      assert a + b == a;
    } else {
      var n := |b| - 1;
      assert (a + b)[..|a + b| - 1] == a + b[..n];
      NodeEndpointsAppend(a, b[..n]);
    }
  }

  lemma NodeEndpointsOne(address: NodeAddress)
    ensures NodeEndpoints([address]) == if address.addressType == "InternalIP" then [address.address + ":2379"] else []
  {
    assert [address][..0] == [];
    EndpointText(address.address);
  }

  /** The endpoints of consecutive node lists follow each other, and a node gives
      the endpoints of its addresses. */
  lemma {:induction false} EtcdEndpointsAppend(a: seq<Node>, b: seq<Node>)
    ensures EtcdEndpoints(a + b) == EtcdEndpoints(a) + EtcdEndpoints(b)
    decreases |b|
  {
    if b == [] {
      assert a + b == a;
    } else {
      var n := |b| - 1;
      assert (a + b)[..|a + b| - 1] == a + b[..n];
      EtcdEndpointsAppend(a, b[..n]);
    }
  }

  lemma EtcdEndpointsOne(node: Node)
    ensures EtcdEndpoints([node]) == NodeEndpoints(node.addresses)
  {
    assert [node][..0] == [];
  }

  /** Every endpoint is "<address>:2379" for an "InternalIP" address of some node. */
  lemma {:induction false} EtcdEndpointsSound(nodes: seq<Node>)
    ensures forall e :: e in EtcdEndpoints(nodes) ==>
      exists i, j :: 0 <= i < |nodes| && 0 <= j < |nodes[i].addresses|
        && nodes[i].addresses[j].addressType == "InternalIP" && e == nodes[i].addresses[j].address + ":2379"
    decreases |nodes|
  {
    if nodes != [] {
      var n := |nodes| - 1;
      EtcdEndpointsSound(nodes[..n]);
      forall e | e in NodeEndpoints(nodes[n].addresses)
        ensures (exists j :: 0 <= j < |nodes[n].addresses|
                  && nodes[n].addresses[j].addressType == "InternalIP" && e == nodes[n].addresses[j].address + ":2379")
      {
        NodeEndpointsSound(nodes[n].addresses);
      }
      forall e | e in EtcdEndpoints(nodes)
        ensures (exists i, j :: 0 <= i < |nodes| && 0 <= j < |nodes[i].addresses|
                  && nodes[i].addresses[j].addressType == "InternalIP" && e == nodes[i].addresses[j].address + ":2379")
      {
        if e in EtcdEndpoints(nodes[..n]) {
          var i, j :| 0 <= i < |nodes[..n]| && 0 <= j < |nodes[..n][i].addresses|
            && nodes[..n][i].addresses[j].addressType == "InternalIP" && e == nodes[..n][i].addresses[j].address + ":2379";
          assert nodes[..n][i] == nodes[i];
        } else {
          var j :| 0 <= j < |nodes[n].addresses|
            && nodes[n].addresses[j].addressType == "InternalIP" && e == nodes[n].addresses[j].address + ":2379";
        }
      }
    }
  }

  lemma {:induction false} NodeEndpointsSound(addresses: seq<NodeAddress>)
    ensures forall e :: e in NodeEndpoints(addresses) ==>
      exists j :: 0 <= j < |addresses| && addresses[j].addressType == "InternalIP" && e == addresses[j].address + ":2379"
    decreases |addresses|
  {
    if addresses != [] {
      var n := |addresses| - 1;
      var front := addresses[..n];
      NodeEndpointsSound(front);
      EndpointText(addresses[n].address);
      forall e | e in NodeEndpoints(addresses)
        ensures exists j :: 0 <= j < |addresses| && addresses[j].addressType == "InternalIP" && e == addresses[j].address + ":2379"
      {
        if e in NodeEndpoints(front) {
          var j :| 0 <= j < |front| && front[j].addressType == "InternalIP" && e == front[j].address + ":2379";
          assert addresses[j] == front[j];
        } else {
          assert addresses[n].addressType == "InternalIP" && e == addresses[n].address + ":2379";
        }
      }
    }
  }

  /** Every "InternalIP" address of every node gives an endpoint. */
  lemma {:induction false} EtcdEndpointsComplete(nodes: seq<Node>, i: nat, j: nat)
    requires i < |nodes| && j < |nodes[i].addresses| && nodes[i].addresses[j].addressType == "InternalIP"
    ensures nodes[i].addresses[j].address + ":2379" in EtcdEndpoints(nodes)
  {
    var node := nodes[i];
    var addresses := node.addresses;
    assert addresses == addresses[..j] + [addresses[j]] + addresses[j + 1..];
    NodeEndpointsAppend(addresses[..j] + [addresses[j]], addresses[j + 1..]);
    NodeEndpointsAppend(addresses[..j], [addresses[j]]);
    NodeEndpointsOne(addresses[j]);
    assert nodes == nodes[..i] + [node] + nodes[i + 1..];
    EtcdEndpointsAppend(nodes[..i] + [node], nodes[i + 1..]);
    EtcdEndpointsAppend(nodes[..i], [node]);
    EtcdEndpointsOne(node);
  }

  // ------------------------------------------------------------- TestSecret

  const MasterSelector: string := "node-role.kubernetes.io/master="
  const SecretKey: string := "/registry/secrets/" + NamespaceName + "/" + SecretName

  /** The replies TestSecret gets: the master node List, reading the CA file,
      loading the key pair, creating the etcd client, MemberList, and the KV Get,
      whose values are given by whether their hex dump holds ":enc:". */
  datatype EtcdOracle = EtcdOracle(
    masters: Result<seq<Node>>, caFile: Option<Error>, keyPair: Option<Error>,
    client: Option<Error>, members: Option<Error>, kv: Result<seq<bool>>)

  /** Go's %v of a []string: the items space-separated in brackets. */
  function ShowList(items: seq<string>): string
  {
    "[" + Join(items, " ") + "]"
  }

  /** The master nodes; a failed List leaves the list empty. */
  function Masters(o: EtcdOracle): seq<Node>
  {
    if o.masters.Ok? then o.masters.value else []
  }

  /** The calls TestSecret makes when every step succeeds, in order. */
  function EtcdSteps(endpoints: seq<string>): seq<Call>
  {
    [NodeList(MasterSelector), FileRead("./etcd.ca"), KeyPairLoad("./etcd.crt", "./etcd.key"),
     EtcdClientNew(endpoints), EtcdMemberList, EtcdGet(SecretKey)]
  }

  /** How many of those calls are made: up to and including the first that fails. */
  function StepsTaken(o: EtcdOracle): nat
  {
    if o.caFile.Some? then 2
    else if o.keyPair.Some? then 3
    else if o.client.Some? then 4
    else if o.members.Some? then 5
    else 6
  }

  const KeyPairHint: string :=
    "failed to load cert/key: %v; please ensure that etcd.ca, etcd.crt and etcd.key are in the same directory the binary is run from"

  /** The error of the first step that fails, wrapped; nil when none does. */
  function EtcdError(o: EtcdOracle, endpoints: seq<string>): Option<Error>
  {
    if o.caFile.Some? then Some(Wrapped("failed to read etcd CA file: %v", o.caFile.value))
    else if o.keyPair.Some? then Some(Wrapped(KeyPairHint, o.keyPair.value))
    else if o.client.Some? then Some(Wrapped("failed to create etcd client: %v", o.client.value))
    else if o.members.Some? then
      Some(Wrapped("failed to get etcd members using endpoint/s " + ShowList(endpoints) + ": %v", o.members.value))
    else if o.kv.Err? then Some(Wrapped("failed to get etcd key " + SecretName + ": %v", o.kv.error))
    else None
  }

  /** TestSecret(ctx, client) entered at tick `now`: the etcd steps in order, each
      failure returned wrapped and ending the probe. The List error is not looked at. */
  function TestSecretOutcome(now: nat, o: EtcdOracle): Run
  {
    var endpoints := EtcdEndpoints(Masters(o));
    Run(EtcdError(o, endpoints), now, EtcdSteps(endpoints)[..StepsTaken(o)])
  }

  /** The number of values without the encryption marker. */
  function Unencrypted(markers: seq<bool>): nat
  {
    if markers == [] then 0 else Unencrypted(markers[..|markers| - 1]) + (if markers[|markers| - 1] then 0 else 1)
  }

  /** The warnings TestSecret logs: one per unencrypted value, once the KV Get succeeded. */
  function SecretWarnings(o: EtcdOracle): nat
  {
    if o.caFile.None? && o.keyPair.None? && o.client.None? && o.members.None? && o.kv.Ok?
    then Unencrypted(o.kv.value) else 0
  }

  /** TestSecret, returning with its error the warnings it logs. */
  method TestSecret(now: nat, o: EtcdOracle) returns (r: Run, warnings: nat)
    ensures r == TestSecretOutcome(now, o)
    ensures warnings == SecretWarnings(o)
  {
    var calls := [NodeList(MasterSelector)];
    var nodes := Masters(o);
    var etcdEndpoints := [];
    for i := 0 to |nodes|
      invariant etcdEndpoints == EtcdEndpoints(nodes[..i])
    {
      var addresses := nodes[i].addresses;
      assert nodes[..i + 1][..i] == nodes[..i];
      for j := 0 to |addresses|
        invariant etcdEndpoints == EtcdEndpoints(nodes[..i]) + NodeEndpoints(addresses[..j])
      {
        assert addresses[..j + 1][..j] == addresses[..j];
        if addresses[j].addressType == "InternalIP" {
          etcdEndpoints := etcdEndpoints + [Endpoint(addresses[j].address)];
        }
      }
      assert addresses[..|addresses|] == addresses;
    }
    assert nodes[..|nodes|] == nodes;
    warnings := 0;

    ghost var steps := EtcdSteps(etcdEndpoints);
    calls := calls + [FileRead("./etcd.ca")];
    if o.caFile.Some? {
      assert calls == steps[..2];
      return Run(Some(Wrapped("failed to read etcd CA file: %v", o.caFile.value)), now, calls), warnings;
    }
    calls := calls + [KeyPairLoad("./etcd.crt", "./etcd.key")];
    if o.keyPair.Some? {
      assert calls == steps[..3];
      return Run(Some(Wrapped(KeyPairHint, o.keyPair.value)), now, calls), warnings;
    }
    calls := calls + [EtcdClientNew(etcdEndpoints)];
    if o.client.Some? {
      assert calls == steps[..4];
      return Run(Some(Wrapped("failed to create etcd client: %v", o.client.value)), now, calls), warnings;
    }
    calls := calls + [EtcdMemberList];
    if o.members.Some? {
      assert calls == steps[..5];
      return Run(Some(Wrapped("failed to get etcd members using endpoint/s " + ShowList(etcdEndpoints) + ": %v", o.members.value)), now, calls), warnings;
    }
    // The second test of the client's error that follows is dead: that error is nil here.
    calls := calls + [EtcdGet(SecretKey)];
    assert calls == steps[..6];
    if o.kv.Err? {
      return Run(Some(Wrapped("failed to get etcd key " + SecretName + ": %v", o.kv.error)), now, calls), warnings;
    }
    var kvs := o.kv.value;
    for k := 0 to |kvs|
      invariant warnings == Unencrypted(kvs[..k])
    {
      assert kvs[..k + 1][..k] == kvs[..k];
      if !kvs[k] {
        warnings := warnings + 1;  // the secret is not encrypted at rest
      }
    }
    assert kvs[..|kvs|] == kvs;
    return Run(None, now, calls), warnings;
  }

  /** The etcd steps run in order and the first failure stops the probe: it is
      returned wrapped and nothing after it is called. A missing marker never
      fails the probe: once the KV Get succeeds the result is nil, whatever the
      warnings. The key read is the secret's under the namespace. */
  lemma TestSecretSteps(now: nat, o: EtcdOracle)
    ensures var r := TestSecretOutcome(now, o);
      var endpoints := EtcdEndpoints(Masters(o));
      && 2 <= |r.calls| <= 6
      && r.calls == EtcdSteps(endpoints)[..|r.calls|]
      && (o.caFile.Some? <==> |r.calls| == 2)
      && (o.caFile.None? && o.keyPair.Some? <==> |r.calls| == 3)
      && (o.caFile.None? && o.keyPair.None? && o.client.Some? <==> |r.calls| == 4)
      && (o.caFile.None? && o.keyPair.None? && o.client.None? && o.members.Some? <==> |r.calls| == 5)
      && (r.err == None <==> |r.calls| == 6 && o.kv.Ok?)
      && (r.err.Some? ==> r.err.value.Wrapped?)
      && r.later == now
  {
  }

  /** The first step to fail decides the error: its own error, wrapped in that
      step's message. */
  lemma TestSecretFailures(now: nat, o: EtcdOracle)
    ensures var r := TestSecretOutcome(now, o);
      var endpoints := EtcdEndpoints(Masters(o));
      && (o.caFile.Some? ==> r.err == Some(Wrapped("failed to read etcd CA file: %v", o.caFile.value)))
      && (o.caFile.None? && o.keyPair.Some? ==> r.err == Some(Wrapped(KeyPairHint, o.keyPair.value)))
      && (o.caFile.None? && o.keyPair.None? && o.client.Some? ==>
            r.err == Some(Wrapped("failed to create etcd client: %v", o.client.value)))
      && (o.caFile.None? && o.keyPair.None? && o.client.None? && o.members.Some? ==>
            r.err == Some(Wrapped("failed to get etcd members using endpoint/s " + ShowList(endpoints) + ": %v", o.members.value)))
      && (o.caFile.None? && o.keyPair.None? && o.client.None? && o.members.None? && o.kv.Err? ==>
            r.err == Some(Wrapped("failed to get etcd key " + SecretName + ": %v", o.kv.error)))
  {
  }

  /** The steps are the master List, the CA file, the key pair, the client for the
      endpoints, MemberList and the Get of the secret's key under the namespace. */
  lemma EtcdStepsOrder(endpoints: seq<string>)
    ensures EtcdSteps(endpoints) == [NodeList("node-role.kubernetes.io/master="), FileRead("./etcd.ca"),
      KeyPairLoad("./etcd.crt", "./etcd.key"), EtcdClientNew(endpoints), EtcdMemberList,
      EtcdGet("/registry/secrets/kube-smoketest/smoketest-secret")]
  {
    assert SecretKey == "/registry/secrets/kube-smoketest/smoketest-secret";
  }

  /** One warning per value without the marker, never more than there are values. */
  lemma {:induction false} UnencryptedCount(markers: seq<bool>)
    ensures Unencrypted(markers) == |set i | 0 <= i < |markers| && !markers[i]|
    ensures Unencrypted(markers) <= |markers|
    ensures Unencrypted(markers) == 0 <==> forall i :: 0 <= i < |markers| ==> markers[i]
    decreases |markers|
  {
    if markers != [] {
      var n := |markers| - 1;
      var front := markers[..n];
      UnencryptedCount(front);
      var s := set i | 0 <= i < |front| && !front[i];
      var s' := set i | 0 <= i < |markers| && !markers[i];
      assert s' == if markers[n] then s else s + {n};
      assert forall i :: 0 <= i < n ==> front[i] == markers[i];
    }
  }

  // ------------------------------------------------------------- CreateSecret

  /** The replies CreateSecret gets: the Get, the Create and TestSecret's. */
  datatype SecretOracle = SecretOracle(get: Lookup, create: Option<Error>, etcd: EtcdOracle)

  /** CreateSecret(ctx, client) entered at tick `now`. */
  function CreateSecretOutcome(now: nat, o: SecretOracle): Run
  {
    var get := SecretGet(NamespaceName, SecretName);
    var create := SecretCreate(NamespaceName, SmoketestSecret());
    if o.get.err.None? && o.get.present then Run(None, now, [get])
    else if o.create.Some? then Run(Some(Wrapped("failed to create secret: %v", o.create.value)), now, [get, create])
    else Then([get, create], TestSecretOutcome(now, o.etcd))
  }

  /** CreateSecret, returning with its error the warnings TestSecret logs. */
  method CreateSecret(now: nat, o: SecretOracle) returns (r: Run, warnings: nat)
    ensures r == CreateSecretOutcome(now, o)
    ensures warnings == if (o.get.err.None? && o.get.present) || o.create.Some? then 0 else SecretWarnings(o.etcd)
  {
    var calls := [SecretGet(NamespaceName, SecretName)];
    if o.get.err.None? && o.get.present {
      return Run(None, now, calls), 0;  // already exists
    }
    calls := [SecretGet(NamespaceName, SecretName), SecretCreate(NamespaceName, SmoketestSecret())];
    if o.create.Some? {
      return Run(Some(Wrapped("failed to create secret: %v", o.create.value)), now, calls), 0;
    }
    var tested;
    tested, warnings := TestSecret(now, o.etcd);
    return Then(calls, tested), warnings;
  }

  /** An existing secret is neither created nor verified; a Create error comes back
      wrapped, unverified; otherwise TestSecret's error is the probe's. */
  lemma CreateSecretCases(now: nat, o: SecretOracle)
    ensures var r := CreateSecretOutcome(now, o);
      && (o.get.err.None? && o.get.present ==> r == Run(None, now, [SecretGet(NamespaceName, SecretName)]))
      && (!(o.get.err.None? && o.get.present) ==> |r.calls| >= 2 && r.calls[1] == SecretCreate(NamespaceName, SmoketestSecret()))
      && (!(o.get.err.None? && o.get.present) && o.create.Some? ==>
            r.err == Some(Wrapped("failed to create secret: %v", o.create.value)) && |r.calls| == 2)
      && (!(o.get.err.None? && o.get.present) && o.create.None? ==>
            r.err == TestSecretOutcome(now, o.etcd).err && r.calls[2..] == TestSecretOutcome(now, o.etcd).calls)
  {
  }
}
