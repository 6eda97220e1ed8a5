/** The nested namespace/pod walk of k8s_namespaces.py. For every namespace
    it creates `k8s_dump_{ts}/{namespace}`, and for every pod of it
    `k8s_dump_{ts}/{namespace}/{pod}`; inside the loop over pods it writes
    the audit-log file of the pod directory and rewrites the namespace's
    load-balancer, external-address and API-server files. An exception
    ends the run where it is raised. */
module Walker {
  import opened Wrappers
  import opened Py
  import opened Cluster
  import opened Layout
  import opened Namespaces

  /** What the cluster API answers during one run: `list_namespace`, and
      every pod, service and node of the cluster. */
  datatype ClusterState = ClusterState(
    namespaces: seq<string>,
    pods: seq<Pod>,
    services: seq<Service>,
    nodes: seq<Node>)

  /** `list_namespaced_pod(ns)`: the pods of that namespace, in listing order. */
  function PodsIn(c: ClusterState, ns: string): seq<Pod>
  {
    Filter(c.pods, (p: Pod) => p.namespace == ns)
  }

  /** The field selector `metadata.name=kube-apiserver` in "kube-system". */
  predicate IsKubeApiserverPod(p: Pod)
  {
    p.namespace == "kube-system" && p.name == ApiServerName
  }

  /** `list_namespaced_pod("kube-system", field_selector="metadata.name=kube-apiserver")`. */
  function KubeApiserverPods(c: ClusterState): seq<Pod>
  {
    Filter(c.pods, IsKubeApiserverPod)
  }

  predicate IsLoadBalancerService(s: Service)
  {
    s.serviceType == "LoadBalancer"
  }

  /** `list_service_for_all_namespaces(field_selector="spec.type=LoadBalancer")`. */
  function LoadBalancerServices(c: ClusterState): seq<Service>
  {
    Filter(c.services, IsLoadBalancerService)
  }

  /** `read_namespaced_pod(name, "kube-system")`; None stands for the 404. */
  function ReadKubeSystemPod(c: ClusterState, name: string): (r: Option<Pod>)
    ensures r.Some? ==> r.value in c.pods && r.value.namespace == "kube-system" && r.value.name == name
    ensures r.None? <==> forall p | p in c.pods :: !(p.namespace == "kube-system" && p.name == name)
  {
    var keep := (p: Pod) => p.namespace == "kube-system" && p.name == name;
    var found := Filter(c.pods, keep);
    FilterEmpty(c.pods, keep);
    if found == [] then None
    else
      FilterMembers(c.pods, keep, found[0]);
      Some(found[0])
  }

  function AuditLogFile(ts: string): string { ArtifactName("apiserver_audit_log_path", ts, ".txt") }
  function LoadBalancersFile(ts: string): string { ArtifactName("load_balancers", ts, ".txt") }
  function ExternalIpsFile(ts: string): string { ArtifactName("external_node_ips", ts, ".txt") }
  function ApiServerConfigFile(ts: string): string { ArtifactName("apiserver_config", ts, ".txt") }
  function ApiServerArgsFile(ts: string): string { ArtifactName("apiserver_container_args", ts, ".json") }

  /** `os.path.join(output_dir, namespace)`. */
  function NsDir(ts: string, ns: string): (p: Path)
    ensures |p| == 2 && p[0] == OutputDir(ts) && p[1] == ns
  {
    [OutputDir(ts), ns]
  }

  /** The four files of a namespace directory have four different names. */
  lemma NamespaceFileNamesDistinct(ts: string)
    ensures LoadBalancersFile(ts) != ExternalIpsFile(ts)
    ensures LoadBalancersFile(ts) != ApiServerConfigFile(ts)
    ensures LoadBalancersFile(ts) != ApiServerArgsFile(ts)
    ensures ExternalIpsFile(ts) != ApiServerConfigFile(ts)
    ensures ExternalIpsFile(ts) != ApiServerArgsFile(ts)
    ensures ApiServerConfigFile(ts) != ApiServerArgsFile(ts)
  {
    ArtifactNameInjective("load_balancers", "external_node_ips", ts, ".txt", ".txt");
    ArtifactNameInjective("load_balancers", "apiserver_config", ts, ".txt", ".txt");
    ArtifactNameInjective("load_balancers", "apiserver_container_args", ts, ".txt", ".json");
    ArtifactNameInjective("external_node_ips", "apiserver_config", ts, ".txt", ".txt");
    ArtifactNameInjective("external_node_ips", "apiserver_container_args", ts, ".txt", ".json");
    ArtifactNameInjective("apiserver_config", "apiserver_container_args", ts, ".txt", ".json");
  }

  /** The state of the run when it ends or is interrupted: the disk as left,
      and the exception that stopped it, if any. */
  datatype Outcome = Outcome(disk: Disk, error: Option<Error>)

  /** The dump directory as the script creates it before the walk. */
  function StartDisk(ts: string): Disk
  {
    MakeDirs(Disk({}, map[]), [OutputDir(ts)])
  }

  // ---------------------------------------------------------------------------
  // The walk, as the state after each step of each loop

  /** `for kap in kube_apiserver_pods:` after the first `|kaps|` API server
      pods: each one rewrites the audit-log file of the pod directory. */
  function AuditLoop(ts: string, podDir: Path, kaps: seq<Pod>, d: Disk): (o: Outcome)
    requires |podDir| >= 1 && podDir in d.dirs
    ensures o.disk.dirs == d.dirs
    decreases |kaps|
  {
    if kaps == [] then Outcome(d, None)
    else
      var o := AuditLoop(ts, podDir, kaps[..|kaps| - 1], d);
      if o.error.Some? then o
      else match AuditLogArgs(kaps[|kaps| - 1].containers)
        case Err(e) => Outcome(o.disk, Some(e))
        case Ok(args) => Outcome(Write(o.disk, Child(podDir, AuditLogFile(ts)), Text(Concat(args))), None)
  }

  /** The body of `for pod in pods:` for one pod of namespace `ns`. */
  function PodStep(c: ClusterState, ts: string, ns: string, pod: Pod, d: Disk): (o: Outcome)
    requires NsDir(ts, ns) in d.dirs
    ensures d.dirs <= o.disk.dirs && NsDir(ts, ns) in o.disk.dirs
    ensures o.disk.dirs == MakeDirs(d, Child(NsDir(ts, ns), pod.name)).dirs
  {
    var podDir := Child(NsDir(ts, ns), pod.name);
    var a := AuditLoop(ts, podDir, KubeApiserverPods(c), MakeDirs(d, podDir));
    if a.error.Some? then a else NamespaceWrites(c, ts, ns, pod, a.disk)
  }

  /** The rest of that body, after the audit-log loop: the namespace's
      load-balancer and external-address files, then the API server files
      when the pod's name marks it as an API server. */
  function NamespaceWrites(c: ClusterState, ts: string, ns: string, pod: Pod, d: Disk): (o: Outcome)
    requires NsDir(ts, ns) in d.dirs
    ensures o.disk.dirs == d.dirs
  {
    var nsDir := NsDir(ts, ns);
    match LoadBalancerEntries(LoadBalancerServices(c))
    case Err(e) => Outcome(d, Some(e))
    case Ok(lbs) =>
      var d2 := Write(d, Child(nsDir, LoadBalancersFile(ts)), Text(Join(lbs, "\n")));
      match ExternalIps(c.nodes)
      case Err(e) => Outcome(d2, Some(e))
      case Ok(ips) =>
        var d3 := Write(d2, Child(nsDir, ExternalIpsFile(ts)), Text(Join(ips, "\n")));
        if !IsApiServerLike(pod.name) then Outcome(d3, None)
        else match ReadKubeSystemPod(c, pod.name)
          case None => Outcome(d3, Some(NotFound(pod.name)))
          case Some(cfg) =>
            var d4 := Write(d3, Child(nsDir, ApiServerConfigFile(ts)), PodText(cfg));
            Outcome(Write(d4, Child(nsDir, ApiServerArgsFile(ts)), ArgsJson(ApiServerArgs(cfg.containers))), None)
  }

  /** `for pod in pods:` after the first `|pods|` pods of namespace `ns`. */
  function RunPods(c: ClusterState, ts: string, ns: string, pods: seq<Pod>, d: Disk): (o: Outcome)
    requires NsDir(ts, ns) in d.dirs
    ensures d.dirs <= o.disk.dirs && NsDir(ts, ns) in o.disk.dirs
    decreases |pods|
  {
    if pods == [] then Outcome(d, None)
    else
      var o := RunPods(c, ts, ns, pods[..|pods| - 1], d);
      if o.error.Some? then o else PodStep(c, ts, ns, pods[|pods| - 1], o.disk)
  }

  /** `for namespace_obj in namespaces:` after the first `|nss|` namespaces. */
  function RunNamespaces(c: ClusterState, ts: string, nss: seq<string>, d: Disk): (o: Outcome)
    ensures d.dirs <= o.disk.dirs
    decreases |nss|
  {
    if nss == [] then Outcome(d, None)
    else
      var o := RunNamespaces(c, ts, nss[..|nss| - 1], d);
      var ns := nss[|nss| - 1];
      if o.error.Some? then o
      else RunPods(c, ts, ns, PodsIn(c, ns), MakeDirs(o.disk, NsDir(ts, ns)))
  }

  /** The whole walk, from the freshly created dump directory. */
  function Walk(c: ClusterState, ts: string): Outcome
  {
    RunNamespaces(c, ts, c.namespaces, StartDisk(ts))
  }

  // ---------------------------------------------------------------------------
  // An exception ends the walk: nothing after it changes the outcome

  lemma {:induction false} AuditLoopStops(ts: string, podDir: Path, kaps: seq<Pod>, n: nat, d: Disk)
    requires |podDir| >= 1 && podDir in d.dirs
    requires n <= |kaps| && AuditLoop(ts, podDir, kaps[..n], d).error.Some?
    ensures AuditLoop(ts, podDir, kaps, d) == AuditLoop(ts, podDir, kaps[..n], d)
    decreases |kaps| - n
  {
    if n < |kaps| {
      var longer := kaps[..|kaps| - 1];
      assert longer[..n] == kaps[..n];
      AuditLoopStops(ts, podDir, longer, n, d);
    } else {
      assert kaps[..n] == kaps;
    }
  }

  lemma {:induction false} RunPodsStops(c: ClusterState, ts: string, ns: string, pods: seq<Pod>, n: nat, d: Disk)
    requires NsDir(ts, ns) in d.dirs
    requires n <= |pods| && RunPods(c, ts, ns, pods[..n], d).error.Some?
    ensures RunPods(c, ts, ns, pods, d) == RunPods(c, ts, ns, pods[..n], d)
    decreases |pods| - n
  {
    if n < |pods| {
      var longer := pods[..|pods| - 1];
      assert longer[..n] == pods[..n];
      RunPodsStops(c, ts, ns, longer, n, d);
    } else {
      assert pods[..n] == pods;
    }
  }

  /** Once an exception is raised in some namespace, the walk's outcome is
      the state at that point: no later namespace is visited. */
  lemma {:induction false} RunNamespacesStops(c: ClusterState, ts: string, nss: seq<string>, n: nat, d: Disk)
    requires n <= |nss| && RunNamespaces(c, ts, nss[..n], d).error.Some?
    ensures RunNamespaces(c, ts, nss, d) == RunNamespaces(c, ts, nss[..n], d)
    decreases |nss| - n
  {
    if n < |nss| {
      var longer := nss[..|nss| - 1];
      assert longer[..n] == nss[..n];
      RunNamespacesStops(c, ts, longer, n, d);
    } else {
      assert nss[..n] == nss;
    }
  }

  /** One more namespace of the loop. */
  lemma RunNamespacesStep(c: ClusterState, ts: string, nss: seq<string>, i: nat, d: Disk)
    requires i < |nss| && RunNamespaces(c, ts, nss[..i], d).error.None?
    ensures RunNamespaces(c, ts, nss[..i + 1], d)
         == RunPods(c, ts, nss[i], PodsIn(c, nss[i]), MakeDirs(RunNamespaces(c, ts, nss[..i], d).disk, NsDir(ts, nss[i])))
  {
    assert nss[..i + 1][..i] == nss[..i];
  }

  // ---------------------------------------------------------------------------
  // The loops

  /** `for kap in kube_apiserver_pods:` inside the directory of one pod. */
  method WriteAuditLogs(ts: string, podDir: Path, kaps: seq<Pod>, d: Disk) returns (disk: Disk, error: Option<Error>)
    requires |podDir| >= 1 && podDir in d.dirs
    ensures Outcome(disk, error) == AuditLoop(ts, podDir, kaps, d)
  {
    disk := d;
    var k := 0;
    while k < |kaps|
      invariant 0 <= k <= |kaps|
      invariant AuditLoop(ts, podDir, kaps[..k], d) == Outcome(disk, None)
    {
      assert kaps[..k + 1][..k] == kaps[..k];
      var args := AuditLogArgs(kaps[k].containers);
      if args.Err? {
        AuditLoopStops(ts, podDir, kaps, k + 1, d);
        return disk, Some(args.error);
      }
      disk := Write(disk, Child(podDir, AuditLogFile(ts)), Text(Concat(args.value)));
      k := k + 1;
    }
    assert kaps[..k] == kaps;
    error := None;
  }

  /** One iteration of `for pod in pods:` in namespace `ns`. */
  method VisitPod(c: ClusterState, ts: string, ns: string, pod: Pod, d: Disk) returns (disk: Disk, error: Option<Error>)
    requires NsDir(ts, ns) in d.dirs
    ensures Outcome(disk, error) == PodStep(c, ts, ns, pod, d)
  {
    var nsDir := NsDir(ts, ns);
    var podDir := Child(nsDir, pod.name);
    disk := MakeDirs(d, podDir);
    disk, error := WriteAuditLogs(ts, podDir, KubeApiserverPods(c), disk);
    if error.Some? {
      return;
    }
    assert nsDir in disk.dirs;
    var lbs := LoadBalancerEntries(LoadBalancerServices(c));
    if lbs.Err? {
      return disk, Some(lbs.error);
    }
    disk := Write(disk, Child(nsDir, LoadBalancersFile(ts)), Text(Join(lbs.value, "\n")));
    var ips := ExternalIps(c.nodes);
    if ips.Err? {
      return disk, Some(ips.error);
    }
    disk := Write(disk, Child(nsDir, ExternalIpsFile(ts)), Text(Join(ips.value, "\n")));
    if IsApiServerLike(pod.name) {
      var cfg := ReadKubeSystemPod(c, pod.name);
      if cfg.None? {
        return disk, Some(NotFound(pod.name));
      }
      disk := Write(disk, Child(nsDir, ApiServerConfigFile(ts)), PodText(cfg.value));
      disk := Write(disk, Child(nsDir, ApiServerArgsFile(ts)), ArgsJson(ApiServerArgs(cfg.value.containers)));
    }
  }

  /** The pod after the first `k` of the loop over `pods`. */
  method VisitNextPod(c: ClusterState, ts: string, ns: string, pods: seq<Pod>, k: nat, d: Disk, disk: Disk)
    returns (disk': Disk, error: Option<Error>)
    requires NsDir(ts, ns) in d.dirs && k < |pods|
    requires RunPods(c, ts, ns, pods[..k], d) == Outcome(disk, None)
    ensures Outcome(disk', error) == RunPods(c, ts, ns, pods[..k + 1], d)
  {
    assert pods[..k + 1][..k] == pods[..k];
    disk', error := VisitPod(c, ts, ns, pods[k], disk);
  }

  /** One iteration of `for namespace_obj in namespaces:`. */
  method VisitNamespace(c: ClusterState, ts: string, ns: string, d: Disk) returns (disk: Disk, error: Option<Error>)
    ensures Outcome(disk, error) == RunPods(c, ts, ns, PodsIn(c, ns), MakeDirs(d, NsDir(ts, ns)))
  {
    var start := MakeDirs(d, NsDir(ts, ns));
    disk := start;
    var pods := PodsIn(c, ns);
    var k := 0;
    while k < |pods|
      invariant 0 <= k <= |pods|
      invariant NsDir(ts, ns) in start.dirs
      invariant RunPods(c, ts, ns, pods[..k], start) == Outcome(disk, None)
    {
      disk, error := VisitNextPod(c, ts, ns, pods, k, start, disk);
      if error.Some? {
        RunPodsStops(c, ts, ns, pods, k + 1, start);
        return;
      }
      k := k + 1;
    }
    assert pods[..k] == pods;
    error := None;
  }

  /** The namespace loop of k8s_namespaces.py, from the freshly created dump
      directory to the end of the run or the first exception. */
  method WalkNamespaces(c: ClusterState, ts: string) returns (disk: Disk, error: Option<Error>)
    ensures Outcome(disk, error) == Walk(c, ts)
  {
    disk := StartDisk(ts);
    var nss := c.namespaces;
    var i := 0;
    while i < |nss|
      invariant 0 <= i <= |nss|
      invariant RunNamespaces(c, ts, nss[..i], StartDisk(ts)) == Outcome(disk, None)
    {
      RunNamespacesStep(c, ts, nss, i, StartDisk(ts));
      disk, error := VisitNamespace(c, ts, nss[i], disk);
      if error.Some? {
        RunNamespacesStops(c, ts, nss, i + 1, StartDisk(ts));
        return;
      }
      i := i + 1;
    }
    assert nss[..i] == nss;
    error := None;
  }

  // ---------------------------------------------------------------------------
  // What the walk writes, path by path

  /** What the disk holds at `p`, if anything. */
  function Lookup(files: map<Path, Content>, p: Path): Option<Content>
  {
    if p in files then Some(files[p]) else None
  }

  /** `a` when something was written there, `b` otherwise. */
  function Or(a: Option<Content>, b: Option<Content>): Option<Content>
  {
    if a.Some? then a else b
  }

  /** The audit-log file as the last API server pod leaves it. */
  function AuditText(kaps: seq<Pod>): Option<Content>
  {
    if kaps == [] then None
    else match AuditLogArgs(kaps[|kaps| - 1].containers)
      case Ok(args) => Some(Text(Concat(args)))
      case Err(_) => None
  }

  function LoadBalancersText(c: ClusterState): Option<Content>
  {
    match LoadBalancerEntries(LoadBalancerServices(c))
    case Ok(lbs) => Some(Text(Join(lbs, "\n")))
    case Err(_) => None
  }

  function ExternalIpsText(c: ClusterState): Option<Content>
  {
    match ExternalIps(c.nodes)
    case Ok(ips) => Some(Text(Join(ips, "\n")))
    case Err(_) => None
  }

  /** `str()` of the kube-system pod of that name. */
  function ConfigFile(c: ClusterState, name: string): Option<Content>
  {
    match ReadKubeSystemPod(c, name)
    case Some(cfg) => Some(PodText(cfg))
    case None => None
  }

  /** The `kube-apiserver` container arguments of the kube-system pod of that name. */
  function ArgsFile(c: ClusterState, name: string): Option<Content>
  {
    match ReadKubeSystemPod(c, name)
    case Some(cfg) => Some(ArgsJson(ApiServerArgs(cfg.containers)))
    case None => None
  }

  /** Some API server pod has a container without arguments. */
  predicate AuditFails(c: ClusterState)
  {
    exists k | 0 <= k < |KubeApiserverPods(c)| :: AuditLogArgs(KubeApiserverPods(c)[k].containers).Err?
  }

  /** Visiting `pod` raises: a TypeError in the audit-log scan, an error in
      the load-balancer or external-address list, or the 404 of reading a pod
      whose name only looks like an API server's. */
  predicate PodFails(c: ClusterState, pod: Pod)
  {
    || AuditFails(c)
    || LoadBalancerEntries(LoadBalancerServices(c)).Err?
    || ExternalIps(c.nodes).Err?
    || (IsApiServerLike(pod.name) && ReadKubeSystemPod(c, pod.name).None?)
  }

  /** The audit-log file of a pod directory. */
  function AuditPath(ts: string, ns: string, podName: string): (p: Path)
    ensures |p| == 4 && p[..2] == NsDir(ts, ns) && p[2] == podName && p[3] == AuditLogFile(ts)
  {
    Child(Child(NsDir(ts, ns), podName), AuditLogFile(ts))
  }

  /** What the namespace-level writes of one pod's visit put at `p`. */
  function NamespaceWritesAt(c: ClusterState, ts: string, ns: string, pod: Pod, p: Path): Option<Content>
  {
    var nsDir := NsDir(ts, ns);
    if p == Child(nsDir, LoadBalancersFile(ts)) then LoadBalancersText(c)
    else if p == Child(nsDir, ExternalIpsFile(ts)) then ExternalIpsText(c)
    else if IsApiServerLike(pod.name) && p == Child(nsDir, ApiServerConfigFile(ts)) then ConfigFile(c, pod.name)
    else if IsApiServerLike(pod.name) && p == Child(nsDir, ApiServerArgsFile(ts)) then ArgsFile(c, pod.name)
    else None
  }

  /** What visiting one pod puts at `p`. */
  function PodWritesAt(c: ClusterState, ts: string, ns: string, pod: Pod, p: Path): Option<Content>
  {
    if p == AuditPath(ts, ns, pod.name) then AuditText(KubeApiserverPods(c))
    else NamespaceWritesAt(c, ts, ns, pod, p)
  }

  lemma {:induction false} AuditLoopFails(ts: string, podDir: Path, kaps: seq<Pod>, d: Disk)
    requires |podDir| >= 1 && podDir in d.dirs
    ensures AuditLoop(ts, podDir, kaps, d).error.Some? <==>
            exists k | 0 <= k < |kaps| :: AuditLogArgs(kaps[k].containers).Err?
    decreases |kaps|
  {
    if kaps != [] {
      var init := kaps[..|kaps| - 1];
      AuditLoopFails(ts, podDir, init, d);
      assert forall k | 0 <= k < |init| :: init[k] == kaps[k];
    }
  }

  /** The audit-log loop rewrites one file, and leaves it as the last API
      server pod's arguments make it. */
  lemma {:induction false} AuditLoopFiles(ts: string, podDir: Path, kaps: seq<Pod>, d: Disk, p: Path)
    requires |podDir| >= 1 && podDir in d.dirs
    requires AuditLoop(ts, podDir, kaps, d).error.None?
    ensures Lookup(AuditLoop(ts, podDir, kaps, d).disk.files, p) ==
            if p == Child(podDir, AuditLogFile(ts)) then Or(AuditText(kaps), Lookup(d.files, p)) else Lookup(d.files, p)
    decreases |kaps|
  {
    if kaps != [] {
      var init := kaps[..|kaps| - 1];
      AuditLoopFiles(ts, podDir, init, d, p);
    }
  }

  lemma NamespaceWritesFiles(c: ClusterState, ts: string, ns: string, pod: Pod, d: Disk, p: Path)
    requires NsDir(ts, ns) in d.dirs
    requires LoadBalancerEntries(LoadBalancerServices(c)).Ok? && ExternalIps(c.nodes).Ok?
    requires IsApiServerLike(pod.name) ==> ReadKubeSystemPod(c, pod.name).Some?
    ensures NamespaceWrites(c, ts, ns, pod, d).error.None?
    ensures Lookup(NamespaceWrites(c, ts, ns, pod, d).disk.files, p) == Or(NamespaceWritesAt(c, ts, ns, pod, p), Lookup(d.files, p))
  {
    NamespaceFileNamesDistinct(ts);
    var nsDir := NsDir(ts, ns);
    var lb, ext := Child(nsDir, LoadBalancersFile(ts)), Child(nsDir, ExternalIpsFile(ts));
    var d3 := Write(Write(d, lb, LoadBalancersText(c).value), ext, ExternalIpsText(c).value);
    if IsApiServerLike(pod.name) {
      var cfg, args := Child(nsDir, ApiServerConfigFile(ts)), Child(nsDir, ApiServerArgsFile(ts));
      assert NamespaceWrites(c, ts, ns, pod, d) ==
             Outcome(Write(Write(d3, cfg, ConfigFile(c, pod.name).value), args, ArgsFile(c, pod.name).value), None);
    } else {
      assert NamespaceWrites(c, ts, ns, pod, d) == Outcome(d3, None);
    }
  }

  /** One pod's visit fails exactly as `PodFails` says. */
  lemma PodStepFails(c: ClusterState, ts: string, ns: string, pod: Pod, d: Disk)
    requires NsDir(ts, ns) in d.dirs
    ensures PodStep(c, ts, ns, pod, d).error.Some? <==> PodFails(c, pod)
  {
    var podDir := Child(NsDir(ts, ns), pod.name);
    var kaps := KubeApiserverPods(c);
    AuditLoopFails(ts, podDir, kaps, MakeDirs(d, podDir));
  }

  /** A visit that does not fail writes what `PodWritesAt` says and nothing else. */
  lemma PodStepFiles(c: ClusterState, ts: string, ns: string, pod: Pod, d: Disk, p: Path)
    requires NsDir(ts, ns) in d.dirs && !PodFails(c, pod)
    ensures Lookup(PodStep(c, ts, ns, pod, d).disk.files, p) == Or(PodWritesAt(c, ts, ns, pod, p), Lookup(d.files, p))
  {
    var nsDir := NsDir(ts, ns);
    var podDir := Child(nsDir, pod.name);
    var kaps := KubeApiserverPods(c);
    var m := MakeDirs(d, podDir);
    AuditLoopFails(ts, podDir, kaps, m);
    var a := AuditLoop(ts, podDir, kaps, m);
    assert a.error.None?;
    AuditLoopFiles(ts, podDir, kaps, m, p);
    NamespaceWritesFiles(c, ts, ns, pod, a.disk, p);
    assert PodStep(c, ts, ns, pod, d) == NamespaceWrites(c, ts, ns, pod, a.disk);
    assert AuditPath(ts, ns, pod.name) == Child(podDir, AuditLogFile(ts));
    if p == AuditPath(ts, ns, pod.name) {
      assert NamespaceWritesAt(c, ts, ns, pod, p) == None;
    }
  }

  /** The last pod whose name marks it as an API server. */
  function LastApiServerLike(pods: seq<Pod>): (r: Option<Pod>)
    ensures r.Some? ==> IsApiServerLike(r.value.name)
    ensures r.None? <==> forall k | 0 <= k < |pods| :: !IsApiServerLike(pods[k].name)
    decreases |pods|
  {
    if pods == [] then None
    else if IsApiServerLike(pods[|pods| - 1].name) then Some(pods[|pods| - 1])
    else
      var init := pods[..|pods| - 1];
      assert forall k | 0 <= k < |init| :: init[k] == pods[k];
      LastApiServerLike(init)
  }

  /** Some pod of the list has that name. */
  predicate PodNamed(pods: seq<Pod>, name: string)
  {
    exists k | 0 <= k < |pods| :: pods[k].name == name
  }

  /** What `p` holds once the pods `pods` of namespace `ns` have been
      visited without an exception: the namespace's four files as the last
      visit (or the last API-server-like pod's visit) leaves them, and the
      audit-log file in the directory of every pod visited. */
  function NamespaceFile(c: ClusterState, ts: string, ns: string, pods: seq<Pod>, p: Path): (r: Option<Content>)
    ensures r.Some? ==> |p| >= 3 && p[0] == OutputDir(ts) && p[1] == ns
  {
    var nsDir := NsDir(ts, ns);
    if pods == [] then None
    else if p == Child(nsDir, LoadBalancersFile(ts)) then LoadBalancersText(c)
    else if p == Child(nsDir, ExternalIpsFile(ts)) then ExternalIpsText(c)
    else if p == Child(nsDir, ApiServerConfigFile(ts)) then
      (match LastApiServerLike(pods) case Some(q) => ConfigFile(c, q.name) case None => None)
    else if p == Child(nsDir, ApiServerArgsFile(ts)) then
      (match LastApiServerLike(pods) case Some(q) => ArgsFile(c, q.name) case None => None)
    else if |p| == 4 && p[..2] == nsDir && p[3] == AuditLogFile(ts) && PodNamed(pods, p[2]) then
      AuditText(KubeApiserverPods(c))
    else None
  }

  /** A pod of the longer list has the name when one of the shorter list
      does, or the added pod does. */
  lemma PodNamedAppend(pods: seq<Pod>, q: Pod, name: string)
    ensures PodNamed(pods + [q], name) <==> PodNamed(pods, name) || q.name == name
  {
    var all := pods + [q];
    if PodNamed(all, name) {
      var k :| 0 <= k < |all| && all[k].name == name;
      if k < |pods| {
        assert pods[k] == all[k];
      }
    }
    if PodNamed(pods, name) {
      var k :| 0 <= k < |pods| && pods[k].name == name;
      assert all[k] == pods[k];
    }
    assert all[|pods|] == q;
  }

  /** The last API-server-like pod of the longer list is the added pod when
      its name is API-server-like, and otherwise that of the shorter list. */
  lemma LastApiServerLikeAppend(pods: seq<Pod>, q: Pod)
    ensures LastApiServerLike(pods + [q]) == if IsApiServerLike(q.name) then Some(q) else LastApiServerLike(pods)
  {
    var all := pods + [q];
    assert all[..|all| - 1] == pods;
  }

  /** Visiting one more pod adds what that visit writes over what the
      earlier visits left. */
  lemma NamespaceFileStep(c: ClusterState, ts: string, ns: string, pods: seq<Pod>, q: Pod, p: Path)
    requires !PodFails(c, q)
    ensures NamespaceFile(c, ts, ns, pods + [q], p) == Or(PodWritesAt(c, ts, ns, q, p), NamespaceFile(c, ts, ns, pods, p))
  {
    if |p| == 4 {
      PodDirFileStep(c, ts, ns, pods, q, p);
    } else {
      NamespaceDirFileStep(c, ts, ns, pods, q, p);
    }
  }

  /** The step for a file inside a pod directory: the audit-log file of
      the pod just visited appears, the others stay as they were. */
  lemma PodDirFileStep(c: ClusterState, ts: string, ns: string, pods: seq<Pod>, q: Pod, p: Path)
    requires |p| == 4
    ensures NamespaceFile(c, ts, ns, pods + [q], p) == Or(PodWritesAt(c, ts, ns, q, p), NamespaceFile(c, ts, ns, pods, p))
  {
    var nsDir := NsDir(ts, ns);
    var all := pods + [q];
    PodNamedAppend(pods, q, p[2]);
    if p[..2] == nsDir && p[3] == AuditLogFile(ts) {
      assert p == AuditPath(ts, ns, p[2]);
    } else {
      assert NamespaceFile(c, ts, ns, all, p) == None && NamespaceFile(c, ts, ns, pods, p) == None;
      assert p != AuditPath(ts, ns, q.name);
    }
  }

  /** The step for any other path: the namespace's files take what the
      visit writes, the API server files only when the pod is named like one. */
  lemma NamespaceDirFileStep(c: ClusterState, ts: string, ns: string, pods: seq<Pod>, q: Pod, p: Path)
    requires |p| != 4 && !PodFails(c, q)
    ensures NamespaceFile(c, ts, ns, pods + [q], p) == Or(PodWritesAt(c, ts, ns, q, p), NamespaceFile(c, ts, ns, pods, p))
  {
    var nsDir := NsDir(ts, ns);
    var all := pods + [q];
    NamespaceFileNamesDistinct(ts);
    LastApiServerLikeAppend(pods, q);
    assert p != AuditPath(ts, ns, q.name);
    if p != Child(nsDir, LoadBalancersFile(ts)) && p != Child(nsDir, ExternalIpsFile(ts))
       && p != Child(nsDir, ApiServerConfigFile(ts)) && p != Child(nsDir, ApiServerArgsFile(ts)) {
      assert NamespaceFile(c, ts, ns, all, p) == None && NamespaceFile(c, ts, ns, pods, p) == None;
    }
  }

  lemma {:induction false} RunPodsFails(c: ClusterState, ts: string, ns: string, pods: seq<Pod>, d: Disk)
    requires NsDir(ts, ns) in d.dirs
    ensures RunPods(c, ts, ns, pods, d).error.Some? <==> exists k | 0 <= k < |pods| :: PodFails(c, pods[k])
    decreases |pods|
  {
    if pods != [] {
      var init := pods[..|pods| - 1];
      RunPodsFails(c, ts, ns, init, d);
      var o := RunPods(c, ts, ns, init, d);
      assert forall k | 0 <= k < |init| :: init[k] == pods[k];
      if o.error.None? {
        PodStepFails(c, ts, ns, pods[|pods| - 1], o.disk);
        assert RunPods(c, ts, ns, pods, d) == PodStep(c, ts, ns, pods[|pods| - 1], o.disk);
        assert RunPods(c, ts, ns, pods, d).error.Some? <==> PodFails(c, pods[|pods| - 1]);
      } else {
        assert RunPods(c, ts, ns, pods, d) == o;
      }
    }
  }

  lemma {:induction false} RunPodsFiles(c: ClusterState, ts: string, ns: string, pods: seq<Pod>, d: Disk, p: Path)
    requires NsDir(ts, ns) in d.dirs && RunPods(c, ts, ns, pods, d).error.None?
    ensures Lookup(RunPods(c, ts, ns, pods, d).disk.files, p) == Or(NamespaceFile(c, ts, ns, pods, p), Lookup(d.files, p))
    decreases |pods|
  {
    if pods != [] {
      var init, q := pods[..|pods| - 1], pods[|pods| - 1];
      var o := RunPods(c, ts, ns, init, d);
      assert o.error.None?;
      RunPodsFiles(c, ts, ns, init, d, p);
      PodStepFails(c, ts, ns, q, o.disk);
      PodStepFiles(c, ts, ns, q, o.disk, p);
      assert init + [q] == pods;
      NamespaceFileStep(c, ts, ns, init, q, p);
    }
  }

  /** Visiting one more pod adds exactly its directory. */
  lemma RunPodsDirsStep(c: ClusterState, ts: string, ns: string, pods: seq<Pod>, d: Disk)
    requires NsDir(ts, ns) in d.dirs && pods != []
    requires RunPods(c, ts, ns, pods[..|pods| - 1], d).error.None?
    ensures RunPods(c, ts, ns, pods, d).disk.dirs ==
            MakeDirs(RunPods(c, ts, ns, pods[..|pods| - 1], d).disk, Child(NsDir(ts, ns), pods[|pods| - 1].name)).dirs
  {
  }

  lemma {:induction false} RunPodsDirs(c: ClusterState, ts: string, ns: string, pods: seq<Pod>, d: Disk, q: Path)
    requires [OutputDir(ts)] in d.dirs && NsDir(ts, ns) in d.dirs
    requires RunPods(c, ts, ns, pods, d).error.None?
    ensures q in RunPods(c, ts, ns, pods, d).disk.dirs <==>
            q in d.dirs || (|q| == 3 && q[0] == OutputDir(ts) && q[1] == ns && PodNamed(pods, q[2]))
    decreases |pods|
  {
    if pods != [] {
      var init, last := pods[..|pods| - 1], pods[|pods| - 1];
      assert RunPods(c, ts, ns, init, d).error.None?;
      RunPodsDirsStep(c, ts, ns, pods, d);
      RunPodsDirs(c, ts, ns, init, d, q);
      assert init + [last] == pods;
      PodDirAdded(RunPods(c, ts, ns, init, d).disk, d.dirs, ts, ns, init, last, q);
    }
  }

  /** Making the directory of one more pod adds exactly that directory. */
  lemma PodDirAdded(disk: Disk, base: set<Path>, ts: string, ns: string, init: seq<Pod>, last: Pod, q: Path)
    requires [OutputDir(ts)] in base && NsDir(ts, ns) in base
    requires q in disk.dirs <==> q in base || (|q| == 3 && q[0] == OutputDir(ts) && q[1] == ns && PodNamed(init, q[2]))
    ensures q in MakeDirs(disk, Child(NsDir(ts, ns), last.name)).dirs <==>
            q in base || (|q| == 3 && q[0] == OutputDir(ts) && q[1] == ns && PodNamed(init + [last], q[2]))
  {
    var podDir := Child(NsDir(ts, ns), last.name);
    MakeDirsAdds(disk, podDir, q);
    assert podDir[..1] == [OutputDir(ts)] && podDir[..2] == NsDir(ts, ns) && podDir[..3] == podDir;
    if |q| == 3 {
      PodNamedAppend(init, last, q[2]);
    }
  }


  // ---------------------------------------------------------------------------
  // The walk over all namespaces

  /** Some pod of the namespace fails when visited. */
  predicate NamespaceFails(c: ClusterState, ns: string)
  {
    exists k | 0 <= k < |PodsIn(c, ns)| :: PodFails(c, PodsIn(c, ns)[k])
  }

  /** What `p` holds once the namespaces `nss` have been walked without an
      exception. */
  function WalkFile(c: ClusterState, ts: string, nss: seq<string>, p: Path): Option<Content>
  {
    if |p| >= 2 && p[0] == OutputDir(ts) && p[1] in nss then NamespaceFile(c, ts, p[1], PodsIn(c, p[1]), p)
    else None
  }

  /** `q` is a namespace directory of `nss`, or the directory of one of its pods. */
  predicate WalkDir(c: ClusterState, ts: string, nss: seq<string>, q: Path)
  {
    && |q| >= 2 && q[0] == OutputDir(ts) && q[1] in nss
    && (|q| == 2 || (|q| == 3 && PodNamed(PodsIn(c, q[1]), q[2])))
  }

  lemma {:induction false} RunNamespacesFails(c: ClusterState, ts: string, nss: seq<string>, d: Disk)
    ensures RunNamespaces(c, ts, nss, d).error.Some? <==> exists i | 0 <= i < |nss| :: NamespaceFails(c, nss[i])
    decreases |nss|
  {
    if nss != [] {
      var init, ns := nss[..|nss| - 1], nss[|nss| - 1];
      RunNamespacesFails(c, ts, init, d);
      var o := RunNamespaces(c, ts, init, d);
      assert forall i | 0 <= i < |init| :: init[i] == nss[i];
      if o.error.None? {
        RunNamespacesLast(c, ts, nss, d);
        RunPodsFails(c, ts, ns, PodsIn(c, ns), MakeDirs(o.disk, NsDir(ts, ns)));
        assert RunNamespaces(c, ts, nss, d).error.Some? <==> NamespaceFails(c, nss[|nss| - 1]);
      } else {
        assert RunNamespaces(c, ts, nss, d) == o;
      }
    }
  }

  lemma {:induction false} RunNamespacesFiles(c: ClusterState, ts: string, nss: seq<string>, d: Disk, p: Path)
    requires RunNamespaces(c, ts, nss, d).error.None?
    ensures Lookup(RunNamespaces(c, ts, nss, d).disk.files, p) == Or(WalkFile(c, ts, nss, p), Lookup(d.files, p))
    decreases |nss|
  {
    if nss != [] {
      var init, ns := nss[..|nss| - 1], nss[|nss| - 1];
      var o := RunNamespaces(c, ts, init, d);
      assert o.error.None?;
      RunNamespacesFiles(c, ts, init, d, p);
      RunPodsFiles(c, ts, ns, PodsIn(c, ns), MakeDirs(o.disk, NsDir(ts, ns)), p);
      assert nss == init + [ns];
      if |p| >= 2 {
        assert p[1] in nss <==> p[1] in init || p[1] == ns;
      }
    }
  }

  lemma {:induction false} RunNamespacesDirs(c: ClusterState, ts: string, nss: seq<string>, d: Disk, q: Path)
    requires [OutputDir(ts)] in d.dirs && RunNamespaces(c, ts, nss, d).error.None?
    ensures q in RunNamespaces(c, ts, nss, d).disk.dirs <==> q in d.dirs || WalkDir(c, ts, nss, q)
    decreases |nss|
  {
    if nss != [] {
      var init, ns := nss[..|nss| - 1], nss[|nss| - 1];
      var o := RunNamespaces(c, ts, init, d);
      assert o.error.None?;
      RunNamespacesLast(c, ts, nss, d);
      RunNamespacesDirs(c, ts, init, d, q);
      var m := MakeDirs(o.disk, NsDir(ts, ns));
      MakeDirsAdds(o.disk, NsDir(ts, ns), [OutputDir(ts)]);
      RunPodsDirs(c, ts, ns, PodsIn(c, ns), m, q);
      assert nss == init + [ns];
      NamespaceDirAdded(c, ts, o.disk, d.dirs, init, ns, q);
    }
  }

  /** The last namespace of the loop, once the earlier ones raised nothing. */
  lemma RunNamespacesLast(c: ClusterState, ts: string, nss: seq<string>, d: Disk)
    requires nss != [] && RunNamespaces(c, ts, nss[..|nss| - 1], d).error.None?
    ensures var ns := nss[|nss| - 1];
            RunNamespaces(c, ts, nss, d) ==
            RunPods(c, ts, ns, PodsIn(c, ns), MakeDirs(RunNamespaces(c, ts, nss[..|nss| - 1], d).disk, NsDir(ts, ns)))
  {
  }

  /** Making the directory of one more namespace, and then those of its
      pods, adds exactly the directories `WalkDir` gains. */
  lemma NamespaceDirAdded(c: ClusterState, ts: string, disk: Disk, base: set<Path>, init: seq<string>, ns: string, q: Path)
    requires [OutputDir(ts)] in base
    requires q in disk.dirs <==> q in base || WalkDir(c, ts, init, q)
    ensures q in MakeDirs(disk, NsDir(ts, ns)).dirs ||
              (|q| == 3 && q[0] == OutputDir(ts) && q[1] == ns && PodNamed(PodsIn(c, ns), q[2]))
            <==> q in base || WalkDir(c, ts, init + [ns], q)
  {
    MakeDirsAdds(disk, NsDir(ts, ns), q);
    if |q| >= 2 {
      assert q[1] in init + [ns] <==> q[1] in init || q[1] == ns;
    }
    if |q| == 1 && q == NsDir(ts, ns)[..1] {
      assert q == [OutputDir(ts)];
    }
    if |q| == 2 && q == NsDir(ts, ns)[..2] {
      assert q == NsDir(ts, ns);
    }
  }

  lemma StartDiskIs(ts: string, q: Path)
    ensures StartDisk(ts).files == map[]
    ensures q in StartDisk(ts).dirs <==> q == [OutputDir(ts)]
  {
    MakeDirsAdds(Disk({}, map[]), [OutputDir(ts)], q);
  }

  /** The run raises exactly when visiting some pod of some namespace does. */
  lemma WalkFails(c: ClusterState, ts: string)
    ensures Walk(c, ts).error.Some? <==> exists i | 0 <= i < |c.namespaces| :: NamespaceFails(c, c.namespaces[i])
  {
    RunNamespacesFails(c, ts, c.namespaces, StartDisk(ts));
  }

  /** After a run without exception, every path holds what `WalkFile` says:
      nothing is written outside the namespace and pod directories. */
  lemma WalkFiles(c: ClusterState, ts: string, p: Path)
    requires Walk(c, ts).error.None?
    ensures Lookup(Walk(c, ts).disk.files, p) == WalkFile(c, ts, c.namespaces, p)
  {
    StartDiskIs(ts, p);
    RunNamespacesFiles(c, ts, c.namespaces, StartDisk(ts), p);
  }

  /** The directories of a run without exception: the dump directory, one per
      namespace and one per pod of it. */
  lemma WalkDirs(c: ClusterState, ts: string, q: Path)
    requires Walk(c, ts).error.None?
    ensures q in Walk(c, ts).disk.dirs <==> q == [OutputDir(ts)] || WalkDir(c, ts, c.namespaces, q)
  {
    StartDiskIs(ts, q);
    StartDiskIs(ts, [OutputDir(ts)]);
    RunNamespacesDirs(c, ts, c.namespaces, StartDisk(ts), q);
  }

  /** The audit-log scan fails exactly when an API server pod has a
      container without arguments. */
  lemma AuditFailsIff(c: ClusterState)
    ensures AuditFails(c) <==>
            exists k, j | 0 <= k < |KubeApiserverPods(c)| && 0 <= j < |KubeApiserverPods(c)[k].containers| ::
              KubeApiserverPods(c)[k].containers[j].args.None?
  {
    var kaps := KubeApiserverPods(c);
    forall k | 0 <= k < |kaps| {
      AuditLogArgsFails(kaps[k].containers);
    }
  }

  /** Every namespace with a pod gets the load-balancer and external-address
      files, holding the cluster-wide lists; a namespace without pods gets
      neither. */
  lemma WalkSharedFiles(c: ClusterState, ts: string, ns: string)
    requires Walk(c, ts).error.None? && ns in c.namespaces
    ensures var files := Walk(c, ts).disk.files;
            var lb, ext := Child(NsDir(ts, ns), LoadBalancersFile(ts)), Child(NsDir(ts, ns), ExternalIpsFile(ts));
            && (lb in files <==> PodsIn(c, ns) != [])
            && (ext in files <==> PodsIn(c, ns) != [])
            && (PodsIn(c, ns) != [] ==>
                  && LoadBalancerEntries(LoadBalancerServices(c)).Ok?
                  && files[lb] == Text(Join(LoadBalancerEntries(LoadBalancerServices(c)).value, "\n"))
                  && ExternalIps(c.nodes).Ok?
                  && files[ext] == Text(Join(ExternalIps(c.nodes).value, "\n")))
  {
    var lb, ext := Child(NsDir(ts, ns), LoadBalancersFile(ts)), Child(NsDir(ts, ns), ExternalIpsFile(ts));
    NamespaceFileNamesDistinct(ts);
    WalkFiles(c, ts, lb);
    WalkFiles(c, ts, ext);
    WalkFails(c, ts);
    if PodsIn(c, ns) != [] {
      var i :| 0 <= i < |c.namespaces| && c.namespaces[i] == ns;
      assert !NamespaceFails(c, c.namespaces[i]);
      assert !PodFails(c, PodsIn(c, ns)[0]);
    }
  }

  /** The audit-log file is written into the directory of every pod of every
      namespace, holding the flag arguments of the last API server pod; it
      is absent when no API server pod is listed. */
  lemma WalkAuditLogFiles(c: ClusterState, ts: string, ns: string, podName: string)
    requires Walk(c, ts).error.None?
    ensures var files, kaps := Walk(c, ts).disk.files, KubeApiserverPods(c);
            var p := AuditPath(ts, ns, podName);
            && (p in files <==> ns in c.namespaces && PodNamed(PodsIn(c, ns), podName) && kaps != [])
            && (p in files ==>
                  && AuditLogArgs(kaps[|kaps| - 1].containers).Ok?
                  && files[p] == Text(Concat(AuditLogArgs(kaps[|kaps| - 1].containers).value)))
  {
    var p := AuditPath(ts, ns, podName);
    var kaps := KubeApiserverPods(c);
    NamespaceFileNamesDistinct(ts);
    WalkFiles(c, ts, p);
    WalkFails(c, ts);
    if ns in c.namespaces && PodNamed(PodsIn(c, ns), podName) && kaps != [] {
      var i :| 0 <= i < |c.namespaces| && c.namespaces[i] == ns;
      assert !NamespaceFails(c, c.namespaces[i]);
      assert !PodFails(c, PodsIn(c, ns)[0]);
      assert !AuditLogArgs(kaps[|kaps| - 1].containers).Err?;
    }
  }

  /** A namespace gets the API server config and arguments files exactly
      when one of its pods has "kube-apiserver" in its name; they describe
      the kube-system pod named like the last such pod. */
  lemma WalkApiServerFiles(c: ClusterState, ts: string, ns: string)
    requires Walk(c, ts).error.None?
    ensures var files, pods := Walk(c, ts).disk.files, PodsIn(c, ns);
            var cfgPath, argsPath := Child(NsDir(ts, ns), ApiServerConfigFile(ts)), Child(NsDir(ts, ns), ApiServerArgsFile(ts));
            var found := exists k | 0 <= k < |pods| :: IsApiServerLike(pods[k].name);
            && (cfgPath in files <==> ns in c.namespaces && found)
            && (argsPath in files <==> ns in c.namespaces && found)
            && (cfgPath in files ==>
                  var cfg := ReadKubeSystemPod(c, LastApiServerLike(pods).value.name);
                  && cfg.Some?
                  && files[cfgPath] == PodText(cfg.value)
                  && files[argsPath] == ArgsJson(ApiServerArgs(cfg.value.containers)))
  {
    var pods := PodsIn(c, ns);
    var cfgPath, argsPath := Child(NsDir(ts, ns), ApiServerConfigFile(ts)), Child(NsDir(ts, ns), ApiServerArgsFile(ts));
    var files := Walk(c, ts).disk.files;
    NamespaceApiServerFiles(c, ts, ns, pods);
    WalkFiles(c, ts, cfgPath);
    WalkFiles(c, ts, argsPath);
    if ns in c.namespaces {
      assert Lookup(files, cfgPath) == NamespaceFile(c, ts, ns, pods, cfgPath);
      assert Lookup(files, argsPath) == NamespaceFile(c, ts, ns, pods, argsPath);
      if LastApiServerLike(pods).Some? {
        WalkFails(c, ts);
        var i :| 0 <= i < |c.namespaces| && c.namespaces[i] == ns;
        assert !NamespaceFails(c, c.namespaces[i]);
        var q := LastApiServerLike(pods).value;
        LastApiServerLikeIsListed(pods);
        var k :| 0 <= k < |pods| && pods[k] == q;
        assert !PodFails(c, pods[k]);
        var cfg := ReadKubeSystemPod(c, q.name);
        assert cfg.Some?;
        assert ConfigFile(c, q.name) == Some(PodText(cfg.value));
        assert ArgsFile(c, q.name) == Some(ArgsJson(ApiServerArgs(cfg.value.containers)));
      }
    } else {
      assert Lookup(files, cfgPath) == None && Lookup(files, argsPath) == None;
    }
  }

  /** Within one namespace, the API server files are those of the last pod
      named like an API server, and absent when there is none. */
  lemma NamespaceApiServerFiles(c: ClusterState, ts: string, ns: string, pods: seq<Pod>)
    ensures var cfgPath, argsPath := Child(NsDir(ts, ns), ApiServerConfigFile(ts)), Child(NsDir(ts, ns), ApiServerArgsFile(ts));
            && NamespaceFile(c, ts, ns, pods, cfgPath)
               == (match LastApiServerLike(pods) case Some(q) => ConfigFile(c, q.name) case None => None)
            && NamespaceFile(c, ts, ns, pods, argsPath)
               == (match LastApiServerLike(pods) case Some(q) => ArgsFile(c, q.name) case None => None)
  {
    NamespaceFileNamesDistinct(ts);
  }

  lemma {:induction false} LastApiServerLikeIsListed(pods: seq<Pod>)
    ensures LastApiServerLike(pods).Some? ==> exists k | 0 <= k < |pods| :: pods[k] == LastApiServerLike(pods).value
    decreases |pods|
  {
    if pods != [] && !IsApiServerLike(pods[|pods| - 1].name) {
      var init := pods[..|pods| - 1];
      LastApiServerLikeIsListed(init);
      if LastApiServerLike(init).Some? {
        var k :| 0 <= k < |init| && init[k] == LastApiServerLike(init).value;
        assert pods[k] == init[k];
      }
    }
  }

  /** A namespace without pods gets its directory and nothing inside it. */
  lemma WalkPodlessNamespace(c: ClusterState, ts: string, ns: string, p: Path)
    requires Walk(c, ts).error.None? && ns in c.namespaces && PodsIn(c, ns) == []
    requires |p| >= 2 && p[0] == OutputDir(ts) && p[1] == ns
    ensures NsDir(ts, ns) in Walk(c, ts).disk.dirs
    ensures p !in Walk(c, ts).disk.files
    ensures p in Walk(c, ts).disk.dirs <==> |p| == 2
  {
    WalkFiles(c, ts, p);
    WalkDirs(c, ts, p);
    WalkDirs(c, ts, NsDir(ts, ns));
  }

  /** Every file of a run is one of the namespace's four files or the
      audit-log file of one of its pods. */
  lemma WalkWritesOnlyArtifacts(c: ClusterState, ts: string, p: Path)
    requires Walk(c, ts).error.None? && p in Walk(c, ts).disk.files
    ensures |p| >= 3 && p[0] == OutputDir(ts) && p[1] in c.namespaces && PodsIn(c, p[1]) != []
    ensures || p == Child(NsDir(ts, p[1]), LoadBalancersFile(ts))
            || p == Child(NsDir(ts, p[1]), ExternalIpsFile(ts))
            || p == Child(NsDir(ts, p[1]), ApiServerConfigFile(ts))
            || p == Child(NsDir(ts, p[1]), ApiServerArgsFile(ts))
            || (|p| == 4 && p == AuditPath(ts, p[1], p[2]) && PodNamed(PodsIn(c, p[1]), p[2]))
  {
    WalkFiles(c, ts, p);
    assert WalkFile(c, ts, c.namespaces, p).Some?;
    NamespaceFileIsArtifact(c, ts, p[1], PodsIn(c, p[1]), p);
  }

  /** The namespace files are its four shared files and the audit-log files
      of its pods. */
  lemma NamespaceFileIsArtifact(c: ClusterState, ts: string, ns: string, pods: seq<Pod>, p: Path)
    requires NamespaceFile(c, ts, ns, pods, p).Some?
    ensures pods != []
    ensures || p == Child(NsDir(ts, ns), LoadBalancersFile(ts))
            || p == Child(NsDir(ts, ns), ExternalIpsFile(ts))
            || p == Child(NsDir(ts, ns), ApiServerConfigFile(ts))
            || p == Child(NsDir(ts, ns), ApiServerArgsFile(ts))
            || (|p| == 4 && p == AuditPath(ts, ns, p[2]) && PodNamed(pods, p[2]))
  {
    if |p| == 4 && p[..2] == NsDir(ts, ns) && p[3] == AuditLogFile(ts) {
      assert p == AuditPath(ts, ns, p[2]);
    }
  }
}
