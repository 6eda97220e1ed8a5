# k8sinfodump in Dafny

A model of the decision and formatting logic of the k8sinfodump scripts. These
scripts take a point-in-time snapshot of a Kubernetes cluster into a
`k8s_dump_{timestamp}` directory. The model covers four parts:

- **Policy classifier** (`k8s_policy.py`): roles and cluster roles that name
  `secrets` or `configmaps` in a rule, cluster-admin bindings, pods with a
  container that has no resource limits, and the network-policy lines. These
  become the text files of the dump.
- **Namespace/pod walker** (`k8s_namespaces.py`):
  - the pure extractors: audit-log arguments, load-balancer `hostname:port`
    entries, external node addresses, and the API-server name test with its
    container arguments;
  - the nested loop over namespaces and pods. It creates directories and
    writes and rewrites files, and is modelled as methods over a disk value
    (directories plus a path→content map).
- **Snapshot formatters** (`k8s_contextdump.py`): the one-line-per-node and
  one-line-per-pod summaries, the container-runtime and allocatable lists,
  the `{kind}_{timestamp}.json` dumps and their file names.
- **curl-like argument scanner** (`tinycurl.py`, `parse_arguments`): an index
  loop over the command-line tokens.

The results of the Kubernetes API are inputs: sequences of records that hold
only the fields the scripts read (`cluster.dfy`, `policy.dfy`). A Python
exception is a `Result` error (`IndexError`, `TypeError`, `ValueError`, or the
404 of a pod read), never a precondition. A list field the client may leave
`None` (the `rules` of a role, the `addresses` of a node, the `ports` of a
service, the `args` of a container) is an `Option`, and iterating over `None`
or indexing it raises a TypeError. The file writes of each script are
modelled as follows:

- The policy and context-dump scripts write each file at most once into one
  directory, and stop at the first exception. Their dumps are modelled as a fold of artifact writes
  (`Layout.Written`), so a later write to the same path wins. They are proved
  never to collide.
- The namespace walker is modelled as a `Disk`, updated by `Write` and
  `MakeDirs`.

Modules:

- `wrappers.dfy`: `Option` and `Result`.
- `py.dfy`: the Python built-ins the scripts rely on: `in` on strings, list
  filtering, `str.join`, `str.split`, `writelines`, `str()` of an int and of
  `None`.
- `cluster.dfy`: the Kubernetes records.
- `layout.dfy`: paths, disks, file names, the artifact fold and the
  `%Y%m%d%H%M%S` timestamp.
- `policy.dfy`, `namespaces.dfy` with `walker.dfy`, `contextdump.dfy` and
  `tinycurl.dfy`: the four scripts.

The model follows the code in these points, where the scripts' comments and
names suggest otherwise:

- The audit-log file is written into **every** pod directory, not only into
  the directory of an API-server-like pod.
- Its content comes from the kube-system pods named exactly `kube-apiserver`,
  not from pods whose name merely contains that word. So a pod named
  `kube-apiserver-0` gets the file only if a pod named exactly
  `kube-apiserver` also exists in kube-system.
- The load-balancer and external-address files are rewritten on every pod of
  the namespace. A namespace without pods therefore gets only its directory.

## Model

| member | source | states |
|---|---|---|
| Py.FilterMembers | k8s_policy.py:20 | an item is kept by a comprehension filter iff it is in the list and passes the test |
| Py.FilterEmpty | k8s_namespaces.py:67 | a filter keeps nothing iff no item passes the test |
| Py.FilterAppend | k8s_policy.py:20 | filtering keeps input order: the filter of a concatenation is the concatenation of the filters |
| Py.JoinSplit | k8s_policy.py:34 | splitting a `sep`-joined string and re-joining it gives the string back |
| Py.SplitJoin | k8s_policy.py:34 | `"\n".join` of a non-empty list of newline-free strings splits back into exactly that list |
| Py.SplitTerminated | k8s_policy.py:27-28 | newline-terminated lines split back into the lines followed by one empty string |
| Py.ParseNatToString | k8s_namespaces.py:53 | `str()` of a natural number is all digits and parses back to the number |
| Layout.Child | k8s_namespaces.py:34 | `os.path.join(dir, name)` is one component longer, has `dir` as its parent and `name` as its last component |
| Layout.MakeDirs | k8s_namespaces.py:35 | `os.makedirs(exist_ok=True)` keeps every file and directory and creates the path |
| Layout.MakeDirsAdds | k8s_namespaces.py:42 | after `os.makedirs(p)` the directories are the old ones plus exactly the prefixes of `p` |
| Layout.ArtifactNameInjective | k8s_contextdump.py:52 | `{stem}_{ts}.txt` / `{stem}_{ts}.json` names are equal only for equal stems and extensions |
| Layout.WrittenPaths | k8s_contextdump.py:50-53 | after a sequence of writes, a path holds a file iff one of the writes went to it |
| Layout.WrittenContent | k8s_contextdump.py:50-53 | a write that no later write overwrites leaves its content at its path |
| Layout.WrittenDistinct | k8s_contextdump.py:50-53 | writes to pairwise different paths all keep their contents |
| Layout.PadDigits | k8s_contextdump.py:18 | a `%Y`/`%m`/`%d`/`%H`/`%M`/`%S` field has exactly its width and only digits |
| Layout.ParsePadDigits | k8s_contextdump.py:18 | a zero-padded field reads back as the number it renders |
| Layout.TimestampRoundTrip | k8s_contextdump.py:18 | the timestamp has 14 digits and reads back as the date and time it renders |
| Policy.AnyRuleNamesIff | k8s_policy.py:20-21 | `any(...)` over a role's rules holds iff some rule has a non-empty resource list containing the resource |
| Policy.FilterRolesByAccess | k8s_policy.py:19-21 | the only exception is the TypeError of a role whose `rules` is `None`, and there is at most one name per role |
| Policy.FilterRolesByAccessFails | k8s_policy.py:20-21 | the filter raises iff some role has no rule list, whatever the resource |
| Policy.FilterRolesByAccessMembers | k8s_policy.py:19-21 | when the filter does not raise, a name is reported iff a role with that name has a rule whose non-empty resource list contains the resource |
| Policy.FilterRolesByAccessSingle | k8s_policy.py:20-21 | a single role raises a TypeError when its rules are `None`, and otherwise contributes exactly its name when it grants access, and nothing when it does not |
| Policy.FilterRolesByAccessAppend | k8s_policy.py:20 | the output follows role order: the report on a concatenation is the concatenation of the reports |
| Policy.SkippedRuleNeverMatches | k8s_policy.py:21 | a rule whose resources are `None` or empty never changes whether a role matches |
| Policy.MembershipIsExact | k8s_policy.py:21 | list membership is exact: `*` and `secrets/foo` do not grant `secrets` |
| Policy.OtherResourcesDoNotMatch | k8s_policy.py:21 | a role naming only `pods` is reported for neither `secrets` nor `configmaps` |
| Policy.LaterRuleMatches | k8s_policy.py:20-21 | a later rule matches even after an empty one |
| Policy.RuleLessRoleRaises | k8s_policy.py:20-21 | a role without rules makes the filter raise even when an earlier role matched |
| Policy.ClusterAdminBindingsSingle | k8s_policy.py:32 | one binding contributes its name iff its role reference name contains `cluster-admin` |
| Policy.ClusterAdminBindingsAppend | k8s_policy.py:32 | the output follows binding order: the report on a concatenation is the concatenation of the reports |
| Policy.ClusterAdminBindingsMembers | k8s_policy.py:32 | a binding is reported iff `cluster-admin` occurs as a substring of its role reference name |
| Policy.ClusterAdminIsSubstring | k8s_policy.py:32 | `cluster-admin-edit` and `my-cluster-admin-readonly` match, `admin` does not |
| Policy.AnyWithoutLimitsIff | k8s_policy.py:60-61 | `any(limits is None ...)` holds iff some container has no limits |
| Policy.PodsWithoutResourceLimitsSingle | k8s_policy.py:60-61 | one pod contributes its name iff one of its containers has limits `None` |
| Policy.PodsWithoutResourceLimitsAppend | k8s_policy.py:60-61 | the output follows pod order: the report on a concatenation is the concatenation of the reports |
| Policy.PodsWithoutResourceLimitsMembers | k8s_policy.py:60-61 | a pod is reported iff one of its containers has limits `None` |
| Policy.MissingLimitsIsAbsence | k8s_policy.py:60-61 | `{}` limits do not count, a pod without containers is never reported, and one container without limits suffices |
| Policy.NetworkPoliciesTextIsTerminated | k8s_policy.py:26-28 | the network-policy file is each line followed by a newline, in order |
| Policy.LineHasNoNewline | k8s_policy.py:28 | a `rule_name: N namespace: NS` line has no newline when the names have none |
| Policy.NetworkPoliciesOneLineEach | k8s_policy.py:26-28 | the network-policy file splits into exactly one line per policy plus the empty tail after the last newline |
| Policy.FindingFiles | k8s_policy.py:33-63 | the findings files written are those of the lists before the first one that raises, each holding its list, and the run ends with that list's exception |
| Policy.PolicyRunStops | k8s_policy.py:19-63 | the script raises a TypeError iff a role or cluster role has no rules; it has then written two files (a cluster role) or three (only a namespaced role), and otherwise all seven |
| Policy.PolicyFileStems | k8s_policy.py:26-63 | the `k`-th file written is the `.txt` file of the `k`-th stem, in the script's order |
| Policy.PolicyPathsDistinct | k8s_policy.py:26-63 | no two of those files share a path |
| Policy.NetworkPoliciesFile | k8s_policy.py:26-28 | `network_policies_{ts}.txt` in the dump directory holds the network-policy text |
| Policy.FindingFilesReach | k8s_policy.py:33-63 | when no list up to the `k`-th raises, the `k`-th findings file is written |
| Policy.FindingsFileReadsBack | k8s_policy.py:33-63 | each findings file the run reaches is empty when nothing was found, and otherwise splits on newlines into exactly the findings |
| Namespaces.AuditLogArgs | k8s_namespaces.py:47 | iterating a container whose `args` is `None` raises a TypeError |
| Namespaces.AuditLogArgsFails | k8s_namespaces.py:47 | the audit-log scan fails iff some container has no argument list |
| Namespaces.AuditLogArgsMembers | k8s_namespaces.py:47 | the list holds exactly the container arguments that contain `--audit-log-path` |
| Namespaces.AuditLogArgsSingle | k8s_namespaces.py:47 | one container contributes its matching arguments in their order |
| Namespaces.AuditLogArgsAppend | k8s_namespaces.py:47 | container order, then argument order: the scan of a concatenation is the concatenation of the scans |
| Namespaces.LoadBalancerEntries | k8s_namespaces.py:53 | the only exceptions are an IndexError or a TypeError, and there is at most one entry per service |
| Namespaces.LoadBalancerEntriesFails | k8s_namespaces.py:53 | the list fails iff a service with ingress has a `None` or empty port list, with the first such service's exception: TypeError for `None`, IndexError for `[]` |
| Namespaces.LoadBalancerEntriesMembers | k8s_namespaces.py:53 | when the list does not raise, the entries are exactly `ingress[0].hostname:ports[0]` of the services with a non-empty ingress list |
| Namespaces.LoadBalancerEntriesOrder | k8s_namespaces.py:53 | entries follow service order |
| Namespaces.LoadBalancerFirstWins | k8s_namespaces.py:53 | only the first ingress and the first port are used, and a service without ingress contributes nothing |
| Namespaces.LastColon | k8s_namespaces.py:53 | finds the last `:` of an entry, or reports that there is none |
| Namespaces.LoadBalancerEntryRoundTrip | k8s_namespaces.py:53 | an entry splits at its last colon back into the hostname text and the port |
| Namespaces.ExternalIps | k8s_namespaces.py:59 | the only exception is the TypeError of a node whose addresses are `None` |
| Namespaces.ExternalIpsFails | k8s_namespaces.py:59 | the list raises iff some node has no address list |
| Namespaces.ExternalIpsMembers | k8s_namespaces.py:59 | when the list does not raise, it holds exactly the addresses of type `ExternalIP` |
| Namespaces.ExternalIpsSingle | k8s_namespaces.py:59 | one node contributes its external addresses |
| Namespaces.ExternalIpsOrder | k8s_namespaces.py:59 | node order: the list for a concatenation of nodes is the concatenation of the lists |
| Namespaces.NodeExternalIps | k8s_namespaces.py:59 | the external addresses of one node are exactly its `ExternalIP` addresses |
| Namespaces.NodeExternalIpsSingle | k8s_namespaces.py:59 | one address contributes itself iff its type is `ExternalIP` |
| Namespaces.NodeExternalIpsAppend | k8s_namespaces.py:59 | address order within a node: the list for a concatenation of addresses is the concatenation of the lists |
| Namespaces.ApiServerArgs | k8s_namespaces.py:72 | the argument lists are exactly those of containers named exactly `kube-apiserver`, at most one per container |
| Namespaces.ApiServerArgsOrder | k8s_namespaces.py:72 | the argument lists follow container order |
| Namespaces.ApiServerArgsExactName | k8s_namespaces.py:72 | a container named `kube-apiserver-proxy` contributes nothing, one named `kube-apiserver` contributes its arguments |
| Walker.ReadKubeSystemPod | k8s_namespaces.py:67 | a pod read by name returns a kube-system pod of that name, and finds none iff kube-system has no pod of that name |
| Walker.NamespaceFileNamesDistinct | k8s_namespaces.py:54-74 | the four namespace-level files have four different names |
| Walker.AuditLoop | k8s_namespaces.py:46-49 | the audit-log loop creates no directory |
| Walker.PodStep | k8s_namespaces.py:39-74 | visiting a pod creates exactly its pod directory |
| Walker.RunPods | k8s_namespaces.py:39-74 | the pod loop only adds directories, and keeps the namespace directory |
| Walker.RunNamespaces | k8s_namespaces.py:32-74 | the namespace loop never removes a directory |
| Walker.RunNamespacesStops | k8s_namespaces.py:32-74 | an exception ends the run: no later namespace changes the outcome |
| Walker.WriteAuditLogs | k8s_namespaces.py:46-49 | the loop over API server pods ends in the state of the audit-log loop's specification |
| Walker.VisitPod | k8s_namespaces.py:40-74 | one pod's visit ends in the state its specification gives, with the exception it raises |
| Walker.VisitNamespace | k8s_namespaces.py:33-74 | one namespace's visit creates its directory and runs the pod loop to the end or to the first exception |
| Walker.WalkNamespaces | k8s_namespaces.py:29-74 | the whole loop ends in the state of the walk's specification |
| Walker.AuditLoopFails | k8s_namespaces.py:46-49 | the audit-log loop raises iff some API server pod has a container without arguments |
| Walker.AuditLoopFiles | k8s_namespaces.py:46-49 | the loop only touches the pod's audit-log file, which holds the last pod's matching arguments concatenated |
| Walker.NamespaceWritesFiles | k8s_namespaces.py:51-74 | the namespace-level writes of one visit put exactly the load-balancer, external-address and API server files |
| Walker.PodStepFails | k8s_namespaces.py:39-74 | a pod's visit raises iff the audit scan, the load-balancer list, the external-address list or the pod read fails |
| Walker.PodStepFiles | k8s_namespaces.py:39-74 | a pod's visit writes exactly its audit-log file and the namespace-level files |
| Walker.LastApiServerLike | k8s_namespaces.py:66 | the last pod whose name contains `kube-apiserver`, or none iff there is no such pod |
| Walker.NamespaceFile | k8s_namespaces.py:34-74 | everything a namespace's pods write lies under `k8s_dump_{ts}/{namespace}` |
| Walker.NamespaceFileStep | k8s_namespaces.py:39-74 | one more pod overwrites what it writes and leaves the rest of the namespace's files |
| Walker.RunPodsFails | k8s_namespaces.py:39-74 | the pod loop raises iff some pod's visit raises |
| Walker.RunPodsFiles | k8s_namespaces.py:39-74 | the pod loop's files are what the namespace's pods write, over what was there |
| Walker.RunPodsDirs | k8s_namespaces.py:39-42 | the pod loop adds exactly one directory per pod name |
| Walker.RunNamespacesFails | k8s_namespaces.py:32-74 | the walk raises iff some namespace's pod loop raises |
| Walker.RunNamespacesFiles | k8s_namespaces.py:32-74 | the files of the walk are what its namespaces write |
| Walker.RunNamespacesDirs | k8s_namespaces.py:32-42 | the directories of the walk are the namespace and pod directories |
| Walker.StartDiskIs | k8s_namespaces.py:15-16 | the run starts with only the dump directory and no files |
| Walker.WalkFails | k8s_namespaces.py:29-74 | the run fails iff some listed namespace fails |
| Walker.WalkFiles | k8s_namespaces.py:29-74 | every file the run leaves is the one its namespaces write |
| Walker.WalkDirs | k8s_namespaces.py:29-42 | the directories are the dump directory, the namespace directories and the pod directories |
| Walker.AuditFailsIff | k8s_namespaces.py:45-47 | the audit scan fails iff a `kube-apiserver` pod in kube-system has a container without arguments |
| Walker.WalkSharedFiles | k8s_namespaces.py:51-61 | a namespace gets its load-balancer and external-address files iff it has a pod, holding the newline-joined lists |
| Walker.WalkAuditLogFiles | k8s_namespaces.py:41-49 | a pod directory gets the audit-log file iff a `kube-apiserver` pod exists, holding the last one's matching arguments |
| Walker.WalkApiServerFiles | k8s_namespaces.py:66-74 | the API server files exist iff a pod name contains `kube-apiserver`, holding the last such pod's config and arguments |
| Walker.NamespaceApiServerFiles | k8s_namespaces.py:66-74 | the API server files of a namespace are those of its last API-server-like pod |
| Walker.LastApiServerLikeIsListed | k8s_namespaces.py:66 | the API-server-like pod found is one of the namespace's pods |
| Walker.WalkPodlessNamespace | k8s_namespaces.py:32-37 | a namespace without pods gets its directory and nothing in it |
| Walker.NamespaceFileIsArtifact | k8s_namespaces.py:39-74 | a namespace's files are its four shared files and the audit-log files of its pods |
| Walker.WalkWritesOnlyArtifacts | k8s_namespaces.py:32-74 | every file the run writes is one of the five artifacts, in a namespace with pods |
| ContextDump.NodesInfo | k8s_contextdump.py:33 | one line per node in order; it raises iff a node has no address, with the first such node's exception: TypeError when its addresses are `None`, IndexError when they are empty |
| ContextDump.PodsInfo | k8s_contextdump.py:42 | one line per pod |
| ContextDump.PodsInfoLines | k8s_contextdump.py:42 | line `k` describes pod `k` |
| ContextDump.RuntimeVersions | k8s_contextdump.py:83 | one runtime version per node |
| ContextDump.Allocatables | k8s_contextdump.py:95 | one allocatable map per node |
| ContextDump.PerNodeEntries | k8s_contextdump.py:83-95 | entry `k` of each per-node list is node `k`'s runtime version or allocatable map |
| ContextDump.SpaceJoined | k8s_contextdump.py:33-42 | the three-field f-string is the space-join of its fields |
| ContextDump.NodeLineFields | k8s_contextdump.py:33 | a node line splits into name, first address and kubelet version |
| ContextDump.PodLineFields | k8s_contextdump.py:42 | a pod line splits into namespace, name and phase |
| ContextDump.SummaryReadsBack | k8s_contextdump.py:36-45 | a summary file is empty for no lines and otherwise splits back into its lines |
| ContextDump.StemsDistinct | k8s_contextdump.py:35-98 | the 26 stems are pairwise different |
| ContextDump.ArtifactPathsDistinct | k8s_contextdump.py:35-98 | no two of the dump's files share a path |
| ContextDump.DumpFilesLayout | k8s_contextdump.py:33-98 | the dump fails iff a node has a `None` or empty address list, and otherwise holds exactly the 26 files, each with its content |
| ContextDump.DumpFileAt | k8s_contextdump.py:35-98 | each of the 26 files holds its content |
| ContextDump.DumpKindFile | k8s_contextdump.py:50-53 | each dumped kind is written to `k8s_dump_{ts}/{kind}_{ts}.json` |
| ContextDump.SummaryFiles | k8s_contextdump.py:35-45 | `nodes_info_{ts}.txt` and `pods_info_{ts}.txt` hold the newline-joined summaries |
| ContextDump.NodeListFiles | k8s_contextdump.py:83-98 | `cri_{ts}.txt` and `kubelet_plugins_{ts}.txt` hold the per-node lists |
| TinyCurl.ErrorAt | tinycurl.py:69-81 | a failing token raises an IndexError or a ValueError |
| TinyCurl.Step | tinycurl.py:68-82 | one token fails iff it is a value flag in last position or a `-H` value without exactly one `": "` |
| TinyCurl.StepChangesOneSetting | tinycurl.py:68-82 | one token changes only its own setting, and `-H` sets one header |
| TinyCurl.ScanStops | tinycurl.py:67-83 | the first exception ends the scan |
| TinyCurl.ParseArguments | tinycurl.py:57-84 | the loop computes the parse: the request or the first exception |
| TinyCurl.LastFlag | tinycurl.py:67-79 | finds the last occurrence of a flag in the scanned tokens |
| TinyCurl.ScanFails | tinycurl.py:67-83 | the scan fails iff some token fails, with the first failing token's error |
| TinyCurl.ScanHasValues | tinycurl.py:67-81 | after a successful scan, every value flag has a following token |
| TinyCurl.ScanOutputFile | tinycurl.py:58-69 | the URL is `args[1]`, and the last `-o` sets the output file |
| TinyCurl.ScanVerb | tinycurl.py:59-77 | the method is GET unless set, and then it is the token after the last `-X` |
| TinyCurl.ScanData | tinycurl.py:60-79 | the data is the token after the last `-d`, or none |
| TinyCurl.ScanAuth | tinycurl.py:62-71 | auth is the `:`-split of the token after the last `-u`, or none |
| TinyCurl.ScanSwitches | tinycurl.py:63-75 | verbose or include-header is on iff `-v` or `-i` occurs |
| TinyCurl.LastHeader | tinycurl.py:80-82 | finds the last `-H` that sets a given key |
| TinyCurl.ScanHeaders | tinycurl.py:61-82 | a header is set iff some `-H` names its key, and the last one gives its value |
| TinyCurl.HeaderRoundTrip | tinycurl.py:80-82 | every header comes from a `-H` token reading `key: value` |
| TinyCurl.AuthRoundTrip | tinycurl.py:70-71 | re-joining the auth parts with `:` gives a `-u` value |
| TinyCurl.ValueIsAlsoReadAsOption | tinycurl.py:67-77 | `-X -v` sets the method to `-v` and also turns verbose on |
| TinyCurl.TrailingValueFlag | tinycurl.py:67-81 | a value flag in last position raises an IndexError |

## Left out

- Kubernetes client calls, `config.load_kube_config` and the context lookup are foreign library and network I/O. Their results are inputs.
- The current-context files (k8s_contextdump.py:22-29) are a kubeconfig lookup. They are not part of this model.
- The field selectors of k8s_namespaces.py:45 and 52 are evaluated by the server. The model assumes their meaning: pods named exactly `kube-apiserver` in kube-system, and services of type `LoadBalancer`.
- `json.dumps`, `to_dict()` and `str(apiserver_config)` are opaque serialisations. They are kept as abstract `Content` values naming what was serialised.
- `os.makedirs`, `open` and `write` are modelled only as changes to a disk value. File modes, permissions and I/O errors are not modelled.
- `datetime.now()` is a clock. The date and time are inputs.
- Layout.TimestampRoundTrip: requires a four-digit year (1000–9999). For earlier years the padding of `%Y` depends on the platform.
- The discovery of the API server address (k8s_namespaces.py:19-26) reads one service inside a broad `except`, and its result is never used. It is not part of this model.
- `send_request` and the `__main__` block of tinycurl.py are network I/O. They are not part of this model.
- k8s_exfil.py creates a volume claim and a pod through the API and has no logic of its own. It is not part of this model.
- The `print` calls are console output, and are left out.
- The cluster is assumed not to change during a run. The walker repeats its queries for every pod (k8s_namespaces.py:45, 52, 58 and 67), and the model answers them all from one `ClusterState` snapshot.
