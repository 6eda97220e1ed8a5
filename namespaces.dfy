/** The extractors of k8s_namespaces.py: the audit-log arguments of the API
    server pods, the `hostname:port` entries of load-balancer services, the
    external addresses of the nodes, the API-server name test and the
    API-server container arguments. */
module Namespaces {
  import opened Wrappers
  import opened Py
  import opened Cluster

  const AuditLogFlag := "--audit-log-path"
  const ApiServerName := "kube-apiserver"
  const ExternalIpType := "ExternalIP"

  // ---------------------------------------------------------------------------
  // Audit-log arguments

  /** Whether an argument mentions the audit-log flag. */
  predicate MentionsAuditLog(arg: string)
  {
    Contains(arg, AuditLogFlag)
  }

  /** `[arg for container in containers for arg in container.args
      if "--audit-log-path" in arg]`; iterating a container whose `args` is
      None raises TypeError. */
  function AuditLogArgs(containers: seq<Container>): (r: Result<seq<string>, Error>)
    ensures r.Err? ==> r.error == TypeError
  {
    if containers == [] then Ok([])
    else
      var rest := AuditLogArgs(containers[1..]);
      match containers[0].args
      case None => Err(TypeError)
      case Some(args) =>
        if rest.Err? then rest
        else Ok(Filter(args, MentionsAuditLog) + rest.value)
  }

  /** Iterating over `args` of a container that has none raises TypeError,
      and nothing else does. */
  lemma {:induction false} AuditLogArgsFails(containers: seq<Container>)
    ensures AuditLogArgs(containers).Err? <==> exists j | 0 <= j < |containers| :: containers[j].args.None?
  {
    if containers != [] {
      AuditLogArgsFails(containers[1..]);
      assert forall j | 1 <= j < |containers| :: containers[j] == containers[1..][j - 1];
    }
  }

  /** The arguments kept are exactly those that mention the flag. */
  lemma {:induction false} AuditLogArgsMembers(containers: seq<Container>, x: string)
    requires AuditLogArgs(containers).Ok?
    ensures x in AuditLogArgs(containers).value <==>
            exists j | 0 <= j < |containers| ::
              containers[j].args.Some? && x in containers[j].args.value && MentionsAuditLog(x)
  {
    if containers != [] {
      AuditLogArgsMembers(containers[1..], x);
      if containers[0].args.Some? {
        FilterMembers(containers[0].args.value, MentionsAuditLog, x);
      }
      assert forall j | 1 <= j < |containers| :: containers[j] == containers[1..][j - 1];
    }
  }

  /** One container contributes its matching arguments, in their order. */
  lemma AuditLogArgsSingle(c: Container)
    requires c.args.Some?
    ensures AuditLogArgs([c]) == Ok(Filter(c.args.value, MentionsAuditLog))
  {
    assert [c][1..] == [];
    assert Filter(c.args.value, MentionsAuditLog) + [] == Filter(c.args.value, MentionsAuditLog);
  }

  /** Container-then-argument order: two runs of containers contribute
      their arguments one after the other. */
  lemma {:induction false} AuditLogArgsAppend(a: seq<Container>, b: seq<Container>)
    requires AuditLogArgs(a).Ok? && AuditLogArgs(b).Ok?
    ensures AuditLogArgs(a + b) == Ok(AuditLogArgs(a).value + AuditLogArgs(b).value)
  {
    if a == [] {
      assert a + b == b;
      assert [] + AuditLogArgs(b).value == AuditLogArgs(b).value;
    } else {
      var tail := a[1..];
      assert (a + b)[0] == a[0] && (a + b)[1..] == tail + b;
      var head := Filter(a[0].args.value, MentionsAuditLog);
      var x, y := AuditLogArgs(tail).value, AuditLogArgs(b).value;
      assert AuditLogArgs(a) == Ok(head + x);
      AuditLogArgsAppend(tail, b);
      assert AuditLogArgs(a + b) == Ok(head + (x + y));
      assert head + (x + y) == (head + x) + y;
    }
  }

  // ---------------------------------------------------------------------------
  // Load balancers

  /** `svc.status.load_balancer and svc.status.load_balancer.ingress`:
      a load-balancer status with a non-empty ingress list. */
  predicate HasIngress(svc: Service)
  {
    svc.loadBalancer.Some? && svc.loadBalancer.value.ingress.Some?
    && svc.loadBalancer.value.ingress.value != []
  }

  /** `f"{hostname}:{port}"`; a missing hostname renders as "None". */
  function LoadBalancerEntry(hostname: Option<string>, port: nat): string
  {
    OptionText(hostname) + ":" + NatToString(port)
  }

  /** A service whose `ports[0]` raises: the list is absent or empty. */
  predicate LacksPort(svc: Service)
  {
    svc.ports.None? || svc.ports.value == []
  }

  /** What `ports[0]` raises: TypeError on None, IndexError on `[]`. */
  function PortError(svc: Service): Error
    requires LacksPort(svc)
  {
    if svc.ports.None? then TypeError else IndexError
  }

  /** The entry of one service with an ingress list and a port. */
  function EntryOf(svc: Service): string
    requires HasIngress(svc) && !LacksPort(svc)
  {
    LoadBalancerEntry(svc.loadBalancer.value.ingress.value[0].hostname, svc.ports.value[0])
  }

  /** The `hostname:port` list of k8s_namespaces.py; reading `ports[0]` of a
      service with ingress but no port raises. */
  function LoadBalancerEntries(services: seq<Service>): (r: Result<seq<string>, Error>)
    ensures r.Err? ==> r.error == IndexError || r.error == TypeError
    ensures r.Ok? ==> |r.value| <= |services|
  {
    if services == [] then Ok([])
    else
      var svc := services[0];
      var rest := LoadBalancerEntries(services[1..]);
      if !HasIngress(svc) then rest
      else if LacksPort(svc) then Err(PortError(svc))
      else if rest.Err? then rest
      else Ok([EntryOf(svc)] + rest.value)
  }

  /** A service with ingress whose `ports[0]` raises. */
  predicate PortFails(svc: Service)
  {
    HasIngress(svc) && LacksPort(svc)
  }

  /** The list fails exactly when a service with ingress has no port, with
      the exception of the first such service. */
  lemma {:induction false} LoadBalancerEntriesFails(services: seq<Service>)
    ensures LoadBalancerEntries(services).Err? <==> exists k | 0 <= k < |services| :: PortFails(services[k])
    ensures LoadBalancerEntries(services).Err? ==>
              exists k | 0 <= k < |services| ::
                && PortFails(services[k]) && LoadBalancerEntries(services).error == PortError(services[k])
                && forall j | 0 <= j < k :: !PortFails(services[j])
  {
    if services != [] {
      var rest := services[1..];
      LoadBalancerEntriesFails(rest);
      assert forall k | 1 <= k < |services| :: services[k] == rest[k - 1];
      if !PortFails(services[0]) && LoadBalancerEntries(rest).Err? {
        var k :| 0 <= k < |rest| && PortFails(rest[k]) && LoadBalancerEntries(rest).error == PortError(rest[k])
                 && forall j | 0 <= j < k :: !PortFails(rest[j]);
        assert PortFails(services[k + 1]) && forall j | 0 <= j < k + 1 :: !PortFails(services[j]);
      }
    }
  }

  /** The entries are exactly those of the services with ingress. */
  lemma {:induction false} LoadBalancerEntriesMembers(services: seq<Service>, e: string)
    requires LoadBalancerEntries(services).Ok?
    ensures e in LoadBalancerEntries(services).value <==>
            exists k | 0 <= k < |services| ::
              HasIngress(services[k]) && !LacksPort(services[k]) && e == EntryOf(services[k])
  {
    if services != [] {
      LoadBalancerEntriesMembers(services[1..], e);
      assert forall k | 1 <= k < |services| :: services[k] == services[1..][k - 1];
    }
  }

  /** One entry per service with ingress, in service order. */
  lemma {:induction false} LoadBalancerEntriesOrder(a: seq<Service>, b: seq<Service>)
    ensures LoadBalancerEntries(a).Ok? && LoadBalancerEntries(b).Ok? ==>
            LoadBalancerEntries(a + b) == Ok(LoadBalancerEntries(a).value + LoadBalancerEntries(b).value)
  {
    if a != [] {
      LoadBalancerEntriesOrder(a[1..], b);
      assert (a + b)[1..] == a[1..] + b;
      assert (a + b)[0] == a[0];
      if LoadBalancerEntries(a).Ok? && LoadBalancerEntries(b).Ok? && HasIngress(a[0]) {
        var head := [EntryOf(a[0])];
        assert head + (LoadBalancerEntries(a[1..]).value + LoadBalancerEntries(b).value)
            == (head + LoadBalancerEntries(a[1..]).value) + LoadBalancerEntries(b).value;
      }
    } else {
      assert a + b == b;
      if LoadBalancerEntries(b).Ok? { assert [] + LoadBalancerEntries(b).value == LoadBalancerEntries(b).value; }
    }
  }

  /** First wins: further ingress points and ports of a service never change
      its entry, and a service without ingress contributes nothing. */
  lemma LoadBalancerFirstWins(host: Option<string>, more: seq<Ingress>, port: nat, morePorts: seq<nat>, svc: Service)
    ensures var full := Service("LoadBalancer", Some(LoadBalancerStatus(Some([Ingress(host)] + more))), Some([port] + morePorts));
            LoadBalancerEntries([full]) == Ok([LoadBalancerEntry(host, port)])
    ensures !HasIngress(svc) ==> LoadBalancerEntries([svc]) == Ok([])
  {
    var full := Service("LoadBalancer", Some(LoadBalancerStatus(Some([Ingress(host)] + more))), Some([port] + morePorts));
    assert [full][1..] == [];
    assert [svc][1..] == [];
    assert EntryOf(full) == LoadBalancerEntry(host, port);
    assert [EntryOf(full)] + [] == [LoadBalancerEntry(host, port)];
  }

  /** The index of the last ':' in a string, if it has one. */
  function LastColon(s: string): (k: Option<nat>)
    ensures k.Some? ==> k.value < |s| && s[k.value] == ':' &&
                        forall i | k.value < i < |s| :: s[i] != ':'
    ensures k.None? ==> forall i | 0 <= i < |s| :: s[i] != ':'
  {
    if s == [] then None
    else if s[|s| - 1] == ':' then Some(|s| - 1)
    else LastColon(s[..|s| - 1])
  }

  /** Reads a `host:port` entry back: the host is everything before the last
      ':', the port the decimal number after it. */
  function ParseEntry(e: string): Option<(string, nat)>
  {
    match LastColon(e)
    case None => None
    case Some(k) =>
      var digits := e[k + 1..];
      if digits != [] && forall i | 0 <= i < |digits| :: IsDigit(digits[i])
      then Some((e[..k], ParseNat(digits)))
      else None
  }

  /** A load-balancer entry determines the rendered hostname and the port,
      even when the hostname itself contains ':'. */
  lemma LoadBalancerEntryRoundTrip(hostname: Option<string>, port: nat)
    ensures ParseEntry(LoadBalancerEntry(hostname, port)) == Some((OptionText(hostname), port))
  {
    var h, digits := OptionText(hostname), NatToString(port);
    var e := LoadBalancerEntry(hostname, port);
    ParseNatToString(port);
    NatToStringDigits(port);
    assert e == h + ":" + digits;
    assert e[|h|] == ':';
    forall i | |h| < i < |e|
      ensures e[i] != ':'
    {
      assert e[i] == digits[i - |h| - 1];
    }
    var k := LastColon(e);
    assert k == Some(|h|);
    assert e[|h| + 1..] == digits && e[..|h|] == h;
  }

  // ---------------------------------------------------------------------------
  // External node addresses

  /** `[address.address for node in nodes for address in node.status.addresses
      if address.type == "ExternalIP"]`; iterating the addresses of a node
      that has none raises TypeError. */
  function ExternalIps(nodes: seq<Node>): (r: Result<seq<string>, Error>)
    ensures r.Err? ==> r.error == TypeError
  {
    if nodes == [] then Ok([])
    else match nodes[0].addresses
      case None => Err(TypeError)
      case Some(addresses) =>
        var rest := ExternalIps(nodes[1..]);
        if rest.Err? then rest else Ok(NodeExternalIps(addresses) + rest.value)
  }

  /** The external addresses of one node, in its address order. */
  function NodeExternalIps(addresses: seq<NodeAddress>): (ips: seq<string>)
    ensures forall ip :: ip in ips <==>
              exists j | 0 <= j < |addresses| ::
                addresses[j].addressType == ExternalIpType && addresses[j].address == ip
  {
    if addresses == [] then []
    else
      assert forall j | 1 <= j < |addresses| :: addresses[j] == addresses[1..][j - 1];
      (if addresses[0].addressType == ExternalIpType then [addresses[0].address] else [])
      + NodeExternalIps(addresses[1..])
  }

  /** One address contributes itself when it is external, and nothing
      otherwise. */
  lemma NodeExternalIpsSingle(x: NodeAddress)
    ensures NodeExternalIps([x]) == if x.addressType == ExternalIpType then [x.address] else []
  {
    assert [x][1..] == [];
  }

  /** Address order within a node. */
  lemma {:induction false} NodeExternalIpsAppend(a: seq<NodeAddress>, b: seq<NodeAddress>)
    ensures NodeExternalIps(a + b) == NodeExternalIps(a) + NodeExternalIps(b)
  {
    if a != [] {
      NodeExternalIpsAppend(a[1..], b);
      assert (a + b)[1..] == a[1..] + b;
      assert (a + b)[0] == a[0];
      var head := if a[0].addressType == ExternalIpType then [a[0].address] else [];
      assert head + (NodeExternalIps(a[1..]) + NodeExternalIps(b)) == (head + NodeExternalIps(a[1..])) + NodeExternalIps(b);
    } else {
      assert a + b == b;
    }
  }

  /** The list fails exactly when some node has no address list. */
  lemma {:induction false} ExternalIpsFails(nodes: seq<Node>)
    ensures ExternalIps(nodes).Err? <==> exists k | 0 <= k < |nodes| :: nodes[k].addresses.None?
  {
    if nodes != [] {
      ExternalIpsFails(nodes[1..]);
      assert forall k | 1 <= k < |nodes| :: nodes[k] == nodes[1..][k - 1];
    }
  }

  /** The list holds exactly the external addresses of the nodes. */
  lemma {:induction false} ExternalIpsMembers(nodes: seq<Node>, ip: string)
    requires ExternalIps(nodes).Ok?
    ensures ip in ExternalIps(nodes).value <==>
            exists k, j | 0 <= k < |nodes| && nodes[k].addresses.Some? && 0 <= j < |nodes[k].addresses.value| ::
              nodes[k].addresses.value[j].addressType == ExternalIpType && nodes[k].addresses.value[j].address == ip
  {
    if nodes != [] {
      ExternalIpsMembers(nodes[1..], ip);
      assert forall k | 1 <= k < |nodes| :: nodes[k] == nodes[1..][k - 1];
    }
  }

  /** One node contributes its external addresses. */
  lemma ExternalIpsSingle(node: Node)
    requires node.addresses.Some?
    ensures ExternalIps([node]) == Ok(NodeExternalIps(node.addresses.value))
  {
    assert [node][1..] == [];
    assert NodeExternalIps(node.addresses.value) + [] == NodeExternalIps(node.addresses.value);
  }

  /** Node order first, then address order within a node. */
  lemma {:induction false} ExternalIpsOrder(a: seq<Node>, b: seq<Node>)
    requires ExternalIps(a).Ok? && ExternalIps(b).Ok?
    ensures ExternalIps(a + b) == Ok(ExternalIps(a).value + ExternalIps(b).value)
  {
    if a == [] {
      assert a + b == b;
      assert [] + ExternalIps(b).value == ExternalIps(b).value;
    } else {
      var tail := a[1..];
      assert (a + b)[0] == a[0] && (a + b)[1..] == tail + b;
      var head := NodeExternalIps(a[0].addresses.value);
      var x, y := ExternalIps(tail).value, ExternalIps(b).value;
      assert ExternalIps(a) == Ok(head + x);
      ExternalIpsOrder(tail, b);
      assert ExternalIps(a + b) == Ok(head + (x + y));
      assert head + (x + y) == (head + x) + y;
    }
  }

  // ---------------------------------------------------------------------------
  // API server pods

  /** `'kube-apiserver' in pod_name`. */
  predicate IsApiServerLike(podName: string)
  {
    Contains(podName, ApiServerName)
  }

  /** `[container.args for container in pod.spec.containers
      if container.name == "kube-apiserver"]`. */
  function ApiServerArgs(containers: seq<Container>): (r: seq<Option<seq<string>>>)
    ensures |r| <= |containers|
    ensures forall a :: a in r <==>
              exists j | 0 <= j < |containers| :: containers[j].name == ApiServerName && containers[j].args == a
  {
    if containers == [] then []
    else
      assert forall j | 1 <= j < |containers| :: containers[j] == containers[1..][j - 1];
      (if containers[0].name == ApiServerName then [containers[0].args] else [])
      + ApiServerArgs(containers[1..])
  }

  /** The entries follow container order. */
  lemma {:induction false} ApiServerArgsOrder(a: seq<Container>, b: seq<Container>)
    ensures ApiServerArgs(a + b) == ApiServerArgs(a) + ApiServerArgs(b)
  {
    if a != [] {
      ApiServerArgsOrder(a[1..], b);
      assert (a + b)[1..] == a[1..] + b;
    } else {
      assert a + b == b;
    }
  }

  /** One entry per container named exactly "kube-apiserver": a container
      whose name only contains it contributes nothing. */
  lemma ApiServerArgsExactName(args: Option<seq<string>>)
    ensures ApiServerArgs([Container(ApiServerName, args, None)]) == [args]
    ensures ApiServerArgs([Container("kube-apiserver-proxy", args, None)]) == []
  {
  }
}
