/** The snapshot summaries of k8s_contextdump.py: one line per node and per
    pod, the container runtime versions and allocatable maps of the nodes,
    and the names of the files the run leaves in `k8s_dump_{timestamp}`. */
module ContextDump {
  import opened Wrappers
  import opened Py
  import opened Cluster
  import opened Layout

  // ---------------------------------------------------------------------------
  // Node and pod summary lines

  /** A node whose `addresses[0]` raises: the list is absent or empty. */
  predicate LacksAddress(node: Node)
  {
    node.addresses.None? || node.addresses.value == []
  }

  /** What `addresses[0]` raises: TypeError on None, IndexError on `[]`. */
  function AddressError(node: Node): Error
    requires LacksAddress(node)
  {
    if node.addresses.None? then TypeError else IndexError
  }

  /** `f"{name} {addresses[0].address} {kubelet_version}"`. */
  function NodeLine(node: Node): string
    requires !LacksAddress(node)
  {
    node.name + " " + node.addresses.value[0].address + " " + node.kubeletVersion
  }

  /** `nodes_info`: one line per node, or the exception that the first node
      without an address raises. */
  function NodesInfo(nodes: seq<Node>): (r: Result<seq<string>, Error>)
    ensures r.Err? <==> exists k | 0 <= k < |nodes| :: LacksAddress(nodes[k])
    ensures r.Err? ==> exists k | 0 <= k < |nodes| ::
              && LacksAddress(nodes[k]) && r.error == AddressError(nodes[k])
              && forall j | 0 <= j < k :: !LacksAddress(nodes[j])
    ensures r.Ok? ==> |r.value| == |nodes| && forall k | 0 <= k < |nodes| :: r.value[k] == NodeLine(nodes[k])
  {
    if nodes == [] then Ok([])
    else
      var rest := NodesInfo(nodes[1..]);
      assert forall k | 1 <= k < |nodes| :: nodes[k] == nodes[1..][k - 1];
      if LacksAddress(nodes[0]) then Err(AddressError(nodes[0]))
      else if rest.Err? then
        var k :| 0 <= k < |nodes[1..]| && LacksAddress(nodes[1..][k]) && rest.error == AddressError(nodes[1..][k])
                 && forall j | 0 <= j < k :: !LacksAddress(nodes[1..][j]);
        assert LacksAddress(nodes[k + 1]) && forall j | 0 <= j < k + 1 :: !LacksAddress(nodes[j]);
        rest
      else Ok([NodeLine(nodes[0])] + rest.value)
  }

  /** `f"{namespace} {name} {phase}"`; an absent phase renders as "None". */
  function PodLine(pod: Pod): string
  {
    pod.namespace + " " + pod.name + " " + OptionText(pod.phase)
  }

  /** `pods_info`: one line per pod, in listing order. */
  function PodsInfo(pods: seq<Pod>): (lines: seq<string>)
    ensures |lines| == |pods|
  {
    if pods == [] then [] else [PodLine(pods[0])] + PodsInfo(pods[1..])
  }

  /** `container_runtime_versions`: one entry per node, in node order. */
  function RuntimeVersions(nodes: seq<Node>): (versions: seq<string>)
    ensures |versions| == |nodes|
  {
    if nodes == [] then [] else [nodes[0].containerRuntimeVersion] + RuntimeVersions(nodes[1..])
  }

  /** `kubelet_plugins_allocatable`: one entry per node, in node order. */
  function Allocatables(nodes: seq<Node>): (maps: seq<Option<map<string, string>>>)
    ensures |maps| == |nodes|
  {
    if nodes == [] then [] else [nodes[0].allocatable] + Allocatables(nodes[1..])
  }

  /** The k-th pod line is the k-th pod's. */
  lemma {:induction false} PodsInfoLines(pods: seq<Pod>, k: nat)
    requires k < |pods|
    ensures PodsInfo(pods)[k] == PodLine(pods[k])
  {
    if k > 0 {
      PodsInfoLines(pods[1..], k - 1);
    }
  }

  /** The k-th entries of the per-node lists come from the k-th node. */
  lemma {:induction false} PerNodeEntries(nodes: seq<Node>, k: nat)
    requires k < |nodes|
    ensures RuntimeVersions(nodes)[k] == nodes[k].containerRuntimeVersion
    ensures Allocatables(nodes)[k] == nodes[k].allocatable
  {
    if k > 0 {
      PerNodeEntries(nodes[1..], k - 1);
    }
  }

  /** Three fields joined by single spaces. */
  lemma SpaceJoined(a: string, b: string, c: string)
    ensures a + " " + b + " " + c == Join([a, b, c], " ")
  {
    var xs := [a, b, c];
    assert xs[1..] == [b, c] && xs[1..][1..] == [c];
    assert Join([c], " ") == c;
    assert Join([b, c], " ") == b + " " + c;
    assert a + " " + b + " " + c == a + " " + (b + " " + c);
  }

  /** A node line splits at its spaces back into the node's name, first
      address and kubelet version, when none of them holds a space. */
  lemma NodeLineFields(node: Node)
    requires !LacksAddress(node)
    requires ' ' !in node.name && ' ' !in node.addresses.value[0].address && ' ' !in node.kubeletVersion
    ensures Split(NodeLine(node), " ") == [node.name, node.addresses.value[0].address, node.kubeletVersion]
  {
    var fields := [node.name, node.addresses.value[0].address, node.kubeletVersion];
    SpaceJoined(fields[0], fields[1], fields[2]);
    SplitJoin(fields, ' ');
  }

  /** A pod line splits back into namespace, name and phase (or "None"). */
  lemma PodLineFields(pod: Pod)
    requires ' ' !in pod.namespace && ' ' !in pod.name && ' ' !in OptionText(pod.phase)
    ensures Split(PodLine(pod), " ") == [pod.namespace, pod.name, OptionText(pod.phase)]
  {
    var fields := [pod.namespace, pod.name, OptionText(pod.phase)];
    SpaceJoined(fields[0], fields[1], fields[2]);
    SplitJoin(fields, ' ');
  }

  /** A summary file: the lines joined by newlines, with none after the
      last. It is empty when there are no lines, and otherwise reads back as
      the lines when no line holds a newline. */
  lemma SummaryReadsBack(lines: seq<string>)
    requires forall k | 0 <= k < |lines| :: '\n' !in lines[k]
    ensures lines == [] ==> Join(lines, "\n") == ""
    ensures lines != [] ==> Split(Join(lines, "\n"), "\n") == lines
  {
    if lines != [] {
      SplitJoin(lines, '\n');
    }
  }

  // ---------------------------------------------------------------------------
  // The files of a run

  /** The kinds `dump_resources` writes before the runtime versions, in
      call order. */
  const ResourceKinds: seq<string> := [
    "services", "configmaps", "secrets", "deployments", "replicasets",
    "statefulsets", "daemonsets", "endpoints", "networkpolicies",
    "clusterrolebindings", "clusterroles", "rolebindings", "roles",
    "storageclasses", "persistentvolumes", "persistentvolumeclaims",
    "customresourcedefinitions"]

  /** The kinds `dump_resources` writes after the runtime versions. */
  const LateKinds: seq<string> := ["cni_daemonsets", "csidrivers", "csinodes"]

  /** Every kind `dump_resources` writes, in call order. */
  const DumpKinds: seq<string> := ResourceKinds + LateKinds

  /** The stems of the files after the context files, in the order they are
      written: the two summaries with the listings they come from, the
      resource dumps up to the custom resource definitions, the runtime
      versions, the remaining resource dumps, and the plugin summary. */
  const Stems: seq<string> :=
    ["nodes_info", "nodes", "pods_info", "pods"] + ResourceKinds + ["cri"] + LateKinds + ["kubelet_plugins"]

  /** The stems that are written as text rather than as JSON. */
  predicate IsTextStem(k: nat)
  {
    k == 0 || k == 2 || k == 21 || k == 25
  }

  /** The k-th file after the context files. */
  function ArtifactAt(k: nat, nodeLines: seq<string>, nodes: seq<Node>, pods: seq<Pod>): (a: Artifact)
    requires k < |Stems|
    ensures a.stem == Stems[k]
    ensures a.ext == (if IsTextStem(k) then ".txt" else ".json")
  {
    var content :=
      if k == 0 then Text(Join(nodeLines, "\n"))
      else if k == 2 then Text(Join(PodsInfo(pods), "\n"))
      else if k == 21 then Text(Join(RuntimeVersions(nodes), "\n"))
      else if k == 25 then AllocatableJson(Allocatables(nodes))
      else ObjectsJson(Stems[k]);
    Artifact(Stems[k], if IsTextStem(k) then ".txt" else ".json", content)
  }

  /** The files after the context files, in the order they are written. */
  function Artifacts(nodeLines: seq<string>, nodes: seq<Node>, pods: seq<Pod>): (files: seq<Artifact>)
    ensures |files| == |Stems|
    ensures forall k | 0 <= k < |files| :: files[k] == ArtifactAt(k, nodeLines, nodes, pods)
  {
    seq(|Stems|, k requires 0 <= k < |Stems| => ArtifactAt(k, nodeLines, nodes, pods))
  }

  /** No two files of a run share a stem. */
  lemma StemsDistinct()
    ensures |Stems| == 26
    ensures forall i, j | 0 <= i < j < |Stems| :: Stems[i] != Stems[j]
  {
  }

  /** The files a run leaves in `k8s_dump_{ts}` besides the context files,
      or the exception that the node summary raises before any of them is
      written. */
  function DumpFiles(ts: string, nodes: seq<Node>, pods: seq<Pod>): Result<map<Path, Content>, Error>
  {
    match NodesInfo(nodes)
    case Err(e) => Err(e)
    case Ok(nodeLines) => Ok(Written(ts, Artifacts(nodeLines, nodes, pods)))
  }

  /** No two files of a run share a path. */
  lemma ArtifactPathsDistinct(ts: string, nodeLines: seq<string>, nodes: seq<Node>, pods: seq<Pod>)
    ensures var files := Artifacts(nodeLines, nodes, pods);
            forall i, j | 0 <= i < j < |files| :: PathOf(ts, files[i]) != PathOf(ts, files[j])
  {
    var files := Artifacts(nodeLines, nodes, pods);
    StemsDistinct();
    forall i, j | 0 <= i < j < |files|
      ensures PathOf(ts, files[i]) != PathOf(ts, files[j])
    {
      ArtifactNameInjective(files[i].stem, files[j].stem, ts, files[i].ext, files[j].ext);
    }
  }

  /** A run fails exactly when a node has no address; otherwise it leaves
      in `k8s_dump_{ts}` the path of each of its files and no other, each
      holding that file's content. */
  lemma DumpFilesLayout(ts: string, nodes: seq<Node>, pods: seq<Pod>)
    ensures DumpFiles(ts, nodes, pods).Err? <==> exists k | 0 <= k < |nodes| :: LacksAddress(nodes[k])
    ensures DumpFiles(ts, nodes, pods).Ok? ==>
              var written := DumpFiles(ts, nodes, pods).value;
              var files := Artifacts(NodesInfo(nodes).value, nodes, pods);
              (forall p :: p in written <==> exists k | 0 <= k < |files| :: p == PathOf(ts, files[k]))
              && forall k | 0 <= k < |files| :: written[PathOf(ts, files[k])] == files[k].content
  {
    if NodesInfo(nodes).Ok? {
      var nodeLines := NodesInfo(nodes).value;
      var files := Artifacts(nodeLines, nodes, pods);
      assert DumpFiles(ts, nodes, pods).value == Written(ts, files);
      ArtifactPathsDistinct(ts, nodeLines, nodes, pods);
      WrittenDistinct(ts, files);
      forall p
        ensures p in DumpFiles(ts, nodes, pods).value <==> exists k | 0 <= k < |files| :: p == PathOf(ts, files[k])
      {
        WrittenPaths(ts, files, p);
      }
      var written := DumpFiles(ts, nodes, pods).value;
      assert forall p :: p in written <==> exists k | 0 <= k < |files| :: p == PathOf(ts, files[k]);
      assert files == Artifacts(NodesInfo(nodes).value, nodes, pods);
    }
  }

  /** The k-th file of a successful run is in place with its content. */
  lemma DumpFileAt(ts: string, nodes: seq<Node>, pods: seq<Pod>, k: nat)
    requires k < |Stems|
    requires DumpFiles(ts, nodes, pods).Ok?
    ensures var a := ArtifactAt(k, NodesInfo(nodes).value, nodes, pods);
            PathOf(ts, a) in DumpFiles(ts, nodes, pods).value
            && DumpFiles(ts, nodes, pods).value[PathOf(ts, a)] == a.content
  {
    var nodeLines := NodesInfo(nodes).value;
    var files := Artifacts(nodeLines, nodes, pods);
    ArtifactPathsDistinct(ts, nodeLines, nodes, pods);
    WrittenContent(ts, files, k);
  }

  /** Each kind `dump_resources` is called with goes to `{kind}_{ts}.json`
      in the output directory, holding the JSON of that kind's listing. */
  lemma DumpKindFile(ts: string, nodes: seq<Node>, pods: seq<Pod>, kind: string)
    requires kind in DumpKinds
    requires DumpFiles(ts, nodes, pods).Ok?
    ensures var p := [OutputDir(ts), ArtifactName(kind, ts, ".json")];
            p in DumpFiles(ts, nodes, pods).value && DumpFiles(ts, nodes, pods).value[p] == ObjectsJson(kind)
  {
    var i :| 0 <= i < |DumpKinds| && DumpKinds[i] == kind;
    var k := KindIndex(i);
    DumpFileAt(ts, nodes, pods, k);
    assert ArtifactAt(k, NodesInfo(nodes).value, nodes, pods) == Artifact(kind, ".json", ObjectsJson(kind));
  }

  /** Where the i-th dumped kind sits among the stems: after the four
      summary stems, and after `cri` too when it is one of the late kinds. */
  function KindIndex(i: nat): (k: nat)
    requires i < |DumpKinds|
    ensures k < |Stems| && Stems[k] == DumpKinds[i] && !IsTextStem(k)
  {
    var head := ["nodes_info", "nodes", "pods_info", "pods"];
    if i < |ResourceKinds| then
      assert Stems == (head + ResourceKinds) + (["cri"] + LateKinds + ["kubelet_plugins"]);
      assert Stems[i + 4] == (head + ResourceKinds)[i + 4];
      i + 4
    else
      assert Stems == (head + ResourceKinds + ["cri"]) + LateKinds + ["kubelet_plugins"];
      assert Stems[i + 5] == LateKinds[i - |ResourceKinds|];
      i + 5
  }

  /** The node and pod summaries land in `nodes_info_{ts}.txt` and
      `pods_info_{ts}.txt`, one line per node and per pod, newline-joined. */
  lemma SummaryFiles(ts: string, nodes: seq<Node>, pods: seq<Pod>)
    requires DumpFiles(ts, nodes, pods).Ok?
    ensures var written := DumpFiles(ts, nodes, pods).value;
            var nodesPath := [OutputDir(ts), ArtifactName("nodes_info", ts, ".txt")];
            var podsPath := [OutputDir(ts), ArtifactName("pods_info", ts, ".txt")];
            nodesPath in written && podsPath in written
            && written[nodesPath] == Text(Join(NodesInfo(nodes).value, "\n"))
            && written[podsPath] == Text(Join(PodsInfo(pods), "\n"))
  {
    DumpFileAt(ts, nodes, pods, 0);
    DumpFileAt(ts, nodes, pods, 2);
  }

  /** The per-node summaries land in `cri_{ts}.txt` and
      `kubelet_plugins_{ts}.txt`, one entry per node in node order. */
  lemma NodeListFiles(ts: string, nodes: seq<Node>, pods: seq<Pod>)
    requires DumpFiles(ts, nodes, pods).Ok?
    ensures var written := DumpFiles(ts, nodes, pods).value;
            var criPath := [OutputDir(ts), ArtifactName("cri", ts, ".txt")];
            var pluginsPath := [OutputDir(ts), ArtifactName("kubelet_plugins", ts, ".txt")];
            criPath in written && pluginsPath in written
            && written[criPath] == Text(Join(RuntimeVersions(nodes), "\n"))
            && written[pluginsPath] == AllocatableJson(Allocatables(nodes))
  {
    DumpFileAt(ts, nodes, pods, 21);
    DumpFileAt(ts, nodes, pods, 25);
  }
}
