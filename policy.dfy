/** The RBAC and workload policy classifier of k8s_policy.py: which roles
    grant access to a resource kind, which cluster role bindings refer to a
    cluster-admin role, which pods run a container without resource limits,
    and the text files these findings are written to. */
module Policy {
  import opened Wrappers
  import opened Py
  import opened Cluster
  import opened Layout

  /** One rule of a role: its `resources` list, which may be absent. */
  datatype PolicyRule = PolicyRule(resources: Option<seq<string>>)

  /** A role or cluster role: `metadata.name` and `rules`, which the client
      leaves `None` when the role lists no rules. */
  datatype Role = Role(name: string, rules: Option<seq<PolicyRule>>)

  /** A cluster role binding: `metadata.name` and `role_ref.name`. */
  datatype ClusterRoleBinding = ClusterRoleBinding(name: string, roleRefName: string)

  /** A network policy: `metadata.name` and `metadata.namespace`. */
  datatype NetworkPolicy = NetworkPolicy(name: string, namespace: string)

  // ---------------------------------------------------------------------------
  // Roles that grant access to a resource kind

  /** Python truthiness of `rule.resources`: present and not empty. */
  predicate HasResources(rule: PolicyRule)
  {
    rule.resources.Some? && rule.resources.value != []
  }

  /** `any(resource in rule.resources for rule in rules if rule.resources)`. */
  predicate AnyRuleNames(rules: seq<PolicyRule>, resource: string)
  {
    if rules == [] then false
    else (HasResources(rules[0]) && resource in rules[0].resources.value)
         || AnyRuleNames(rules[1..], resource)
  }

  /** The rule lists `resource`, as an element of its resource kinds. */
  predicate Lists(rule: PolicyRule, resource: string)
  {
    rule.resources.Some? && resource in rule.resources.value
  }

  /** A role grants access to `resource` when one of its rules lists it. */
  predicate GrantsAccess(role: Role, resource: string)
  {
    role.rules.Some? && exists k | 0 <= k < |role.rules.value| :: Lists(role.rules.value[k], resource)
  }

  /** The scan over the rules finds exactly the rules that list the resource. */
  lemma {:induction false} AnyRuleNamesIff(rules: seq<PolicyRule>, resource: string)
    ensures AnyRuleNames(rules, resource) <==>
            exists k | 0 <= k < |rules| :: Lists(rules[k], resource)
  {
    if rules != [] {
      AnyRuleNamesIff(rules[1..], resource);
      if exists k | 0 <= k < |rules| :: Lists(rules[k], resource) {
        var k :| 0 <= k < |rules| && Lists(rules[k], resource);
        if k > 0 {
          assert Lists(rules[1..][k - 1], resource);
        }
      }
      if exists k | 0 <= k < |rules| - 1 :: Lists(rules[1..][k], resource) {
        var k :| 0 <= k < |rules| - 1 && Lists(rules[1..][k], resource);
        assert Lists(rules[k + 1], resource);
      }
    }
  }

  /** `filter_roles_by_access(role_list, resource)`: the names of the roles
      with a rule that lists `resource`; iterating the rules of a role
      without any raises TypeError. */
  function FilterRolesByAccess(roles: seq<Role>, resource: string): (r: Result<seq<string>, Error>)
    ensures r.Err? ==> r.error == TypeError
    ensures r.Ok? ==> |r.value| <= |roles|
  {
    if roles == [] then Ok([])
    else match roles[0].rules
      case None => Err(TypeError)
      case Some(rules) =>
        var rest := FilterRolesByAccess(roles[1..], resource);
        if rest.Err? then rest
        else Ok((if AnyRuleNames(rules, resource) then [roles[0].name] else []) + rest.value)
  }

  /** The filter fails exactly when some role has no rule list, whatever
      the resource. */
  lemma {:induction false} FilterRolesByAccessFails(roles: seq<Role>, resource: string)
    ensures FilterRolesByAccess(roles, resource).Err? <==> exists k | 0 <= k < |roles| :: roles[k].rules.None?
  {
    if roles != [] {
      FilterRolesByAccessFails(roles[1..], resource);
      assert forall k | 1 <= k < |roles| :: roles[k] == roles[1..][k - 1];
    }
  }

  /** A name is reported exactly when some role of that name grants access. */
  lemma {:induction false} FilterRolesByAccessMembers(roles: seq<Role>, resource: string, n: string)
    requires FilterRolesByAccess(roles, resource).Ok?
    ensures n in FilterRolesByAccess(roles, resource).value <==>
            exists k | 0 <= k < |roles| :: roles[k].name == n && GrantsAccess(roles[k], resource)
  {
    if roles != [] {
      AnyRuleNamesIff(roles[0].rules.value, resource);
      FilterRolesByAccessMembers(roles[1..], resource, n);
      assert forall k | 1 <= k < |roles| :: roles[k] == roles[1..][k - 1];
    }
  }

  /** A single role contributes its name iff it grants access, and raises
      when it has no rule list. */
  lemma FilterRolesByAccessSingle(role: Role, resource: string)
    ensures FilterRolesByAccess([role], resource) ==
            if role.rules.None? then Err(TypeError)
            else Ok(if GrantsAccess(role, resource) then [role.name] else [])
  {
    assert [role][0] == role && [role][1..] == [];
    if role.rules.Some? {
      AnyRuleNamesIff(role.rules.value, resource);
      var own: seq<string> := if AnyRuleNames(role.rules.value, resource) then [role.name] else [];
      assert own + [] == own;
    }
  }

  /** One entry per matching role, in input order: a concatenation of role
      lists gives the concatenation of the results. */
  lemma {:induction false} FilterRolesByAccessAppend(a: seq<Role>, b: seq<Role>, resource: string)
    requires FilterRolesByAccess(a, resource).Ok? && FilterRolesByAccess(b, resource).Ok?
    ensures FilterRolesByAccess(a + b, resource) ==
            Ok(FilterRolesByAccess(a, resource).value + FilterRolesByAccess(b, resource).value)
  {
    if a == [] {
      assert a + b == b;
      assert [] + FilterRolesByAccess(b, resource).value == FilterRolesByAccess(b, resource).value;
    } else {
      assert (a + b)[0] == a[0];
      assert (a + b)[1..] == a[1..] + b;
      FilterRolesByAccessAppend(a[1..], b, resource);
      var own: seq<string> := if AnyRuleNames(a[0].rules.value, resource) then [a[0].name] else [];
      var x, y := FilterRolesByAccess(a[1..], resource).value, FilterRolesByAccess(b, resource).value;
      assert FilterRolesByAccess(a, resource) == Ok(own + x);
      assert own + (x + y) == (own + x) + y;
    }
  }

  /** A rule whose `resources` is absent or empty never decides a match:
      removing it from a role changes nothing. */
  lemma SkippedRuleNeverMatches(a: seq<PolicyRule>, rule: PolicyRule, b: seq<PolicyRule>, resource: string)
    requires !HasResources(rule)
    ensures AnyRuleNames(a + [rule] + b, resource) == AnyRuleNames(a + b, resource)
  {
    var long, short := a + [rule] + b, a + b;
    AnyRuleNamesIff(long, resource);
    AnyRuleNamesIff(short, resource);
    if exists k | 0 <= k < |long| :: Lists(long[k], resource) {
      var k :| 0 <= k < |long| && Lists(long[k], resource);
      if k < |a| {
        assert Lists(short[k], resource);
      } else {
        assert k > |a|;
        assert Lists(short[k - 1], resource);
      }
    }
    if exists k | 0 <= k < |short| :: Lists(short[k], resource) {
      var k :| 0 <= k < |short| && Lists(short[k], resource);
      if k < |a| {
        assert Lists(long[k], resource);
      } else {
        assert Lists(long[k + 1], resource);
      }
    }
  }

  /** Matching is list membership, not a pattern: neither the wildcard nor a
      subresource name counts as "secrets"; a rule naming it among others does. */
  lemma MembershipIsExact()
    ensures FilterRolesByAccess([Role("wild", Some([PolicyRule(Some(["*", "secrets/foo"]))]))], "secrets") == Ok([])
  {
    var wild := Role("wild", Some([PolicyRule(Some(["*", "secrets/foo"]))]));
    FilterRolesByAccessSingle(wild, "secrets");
    var listed := wild.rules.value[0].resources.value;
    assert listed[0] != "secrets" && listed[1] != "secrets";
    assert !Lists(wild.rules.value[0], "secrets");
  }

  /** A role that only names pods grants neither secrets nor configmaps. */
  lemma OtherResourcesDoNotMatch()
    ensures FilterRolesByAccess([Role("pods-only", Some([PolicyRule(Some(["pods"]))]))], "secrets") == Ok([])
    ensures FilterRolesByAccess([Role("pods-only", Some([PolicyRule(Some(["pods"]))]))], "configmaps") == Ok([])
  {
    var podsOnly := Role("pods-only", Some([PolicyRule(Some(["pods"]))]));
    FilterRolesByAccessSingle(podsOnly, "secrets");
    FilterRolesByAccessSingle(podsOnly, "configmaps");
    assert podsOnly.rules.value[0].resources.value == ["pods"];
    assert !Lists(podsOnly.rules.value[0], "secrets") && !Lists(podsOnly.rules.value[0], "configmaps");
  }

  /** A rule without resources is passed over, and a later rule naming the
      resource among others makes the role match. */
  lemma LaterRuleMatches()
    ensures FilterRolesByAccess([Role("reader", Some([PolicyRule(None), PolicyRule(Some(["secrets", "pods"]))]))], "secrets") == Ok(["reader"])
  {
    var reader := Role("reader", Some([PolicyRule(None), PolicyRule(Some(["secrets", "pods"]))]));
    FilterRolesByAccessSingle(reader, "secrets");
    assert reader.rules.value[1].resources.value[0] == "secrets";
    assert Lists(reader.rules.value[1], "secrets");
  }

  /** A role without rules makes the whole filter raise, even when an
      earlier role would have matched. */
  lemma RuleLessRoleRaises()
    ensures FilterRolesByAccess([Role("reader", Some([PolicyRule(Some(["secrets"]))])), Role("empty", None)], "secrets") == Err(TypeError)
  {
    var roles := [Role("reader", Some([PolicyRule(Some(["secrets"]))])), Role("empty", None)];
    FilterRolesByAccessFails(roles, "secrets");
    assert roles[1].rules.None?;
  }

  // ---------------------------------------------------------------------------
  // Cluster-admin bindings

  /** The names of the bindings whose `role_ref.name` contains "cluster-admin". */
  function ClusterAdminBindings(crbs: seq<ClusterRoleBinding>): (names: seq<string>)
    ensures |names| <= |crbs|
  {
    if crbs == [] then []
    else (if Contains(crbs[0].roleRefName, "cluster-admin") then [crbs[0].name] else [])
         + ClusterAdminBindings(crbs[1..])
  }

  /** A name is reported exactly when a binding of that name refers to a
      role whose name contains "cluster-admin". */
  lemma {:induction false} ClusterAdminBindingsMembers(crbs: seq<ClusterRoleBinding>, n: string)
    ensures n in ClusterAdminBindings(crbs) <==>
            exists k | 0 <= k < |crbs| :: crbs[k].name == n && Contains(crbs[k].roleRefName, "cluster-admin")
  {
    if crbs != [] {
      ClusterAdminBindingsMembers(crbs[1..], n);
      assert forall k | 1 <= k < |crbs| :: crbs[k] == crbs[1..][k - 1];
    }
  }

  /** A single binding contributes its name iff its role reference name
      contains "cluster-admin". */
  lemma ClusterAdminBindingsSingle(crb: ClusterRoleBinding)
    ensures ClusterAdminBindings([crb]) == if Contains(crb.roleRefName, "cluster-admin") then [crb.name] else []
  {
    assert [crb][1..] == [];
    var own: seq<string> := if Contains(crb.roleRefName, "cluster-admin") then [crb.name] else [];
    assert own + [] == own;
  }

  /** Binding order: the report on a concatenation is the concatenation of
      the reports. */
  lemma {:induction false} ClusterAdminBindingsAppend(a: seq<ClusterRoleBinding>, b: seq<ClusterRoleBinding>)
    ensures ClusterAdminBindings(a + b) == ClusterAdminBindings(a) + ClusterAdminBindings(b)
  {
    if a == [] {
      assert a + b == b;
    } else {
      assert (a + b)[0] == a[0];
      assert (a + b)[1..] == a[1..] + b;
      ClusterAdminBindingsAppend(a[1..], b);
      var own: seq<string> := if Contains(a[0].roleRefName, "cluster-admin") then [a[0].name] else [];
      var x, y := ClusterAdminBindings(a[1..]), ClusterAdminBindings(b);
      assert own + (x + y) == (own + x) + y;
    }
  }

  /** A substring test, not equality: a longer role name containing
      "cluster-admin" matches, and "admin" alone does not. */
  lemma ClusterAdminIsSubstring()
    ensures ClusterAdminBindings([ClusterRoleBinding("b", "cluster-admin-edit")]) == ["b"]
    ensures ClusterAdminBindings([ClusterRoleBinding("c", "my-cluster-admin-readonly")]) == ["c"]
    ensures ClusterAdminBindings([ClusterRoleBinding("d", "admin")]) == []
  {
    assert OccursAt("cluster-admin-edit", "cluster-admin", 0);
    assert "my-cluster-admin-readonly" == "my-" + "cluster-admin" + "-readonly";
    assert OccursAt("my-cluster-admin-readonly", "cluster-admin", 3);
  }

  // ---------------------------------------------------------------------------
  // Pods without resource limits

  /** `any(container.resources.limits is None for container in containers)`. */
  predicate AnyWithoutLimits(containers: seq<Container>)
  {
    containers != [] && (containers[0].limits.None? || AnyWithoutLimits(containers[1..]))
  }

  /** The scan finds a container without limits exactly when one exists. */
  lemma {:induction false} AnyWithoutLimitsIff(containers: seq<Container>)
    ensures AnyWithoutLimits(containers) <==>
            exists j | 0 <= j < |containers| :: containers[j].limits.None?
  {
    if containers != [] {
      AnyWithoutLimitsIff(containers[1..]);
      assert forall j | 1 <= j < |containers| :: containers[j] == containers[1..][j - 1];
    }
  }

  /** The names of the pods with at least one container whose limits are
      absent; an empty limits map is present. */
  function PodsWithoutResourceLimits(pods: seq<Pod>): (names: seq<string>)
    ensures |names| <= |pods|
  {
    if pods == [] then []
    else (if AnyWithoutLimits(pods[0].containers) then [pods[0].name] else [])
         + PodsWithoutResourceLimits(pods[1..])
  }

  /** A name is reported exactly when a pod of that name has a container
      whose limits are absent. */
  lemma {:induction false} PodsWithoutResourceLimitsMembers(pods: seq<Pod>, n: string)
    ensures n in PodsWithoutResourceLimits(pods) <==>
            exists k | 0 <= k < |pods| :: pods[k].name == n &&
              exists j | 0 <= j < |pods[k].containers| :: pods[k].containers[j].limits.None?
  {
    if pods != [] {
      AnyWithoutLimitsIff(pods[0].containers);
      PodsWithoutResourceLimitsMembers(pods[1..], n);
      assert forall k | 1 <= k < |pods| :: pods[k] == pods[1..][k - 1];
    }
  }

  /** A single pod contributes its name iff one of its containers has no
      limits. */
  lemma PodsWithoutResourceLimitsSingle(pod: Pod)
    ensures PodsWithoutResourceLimits([pod]) ==
            if exists j | 0 <= j < |pod.containers| :: pod.containers[j].limits.None? then [pod.name] else []
  {
    AnyWithoutLimitsIff(pod.containers);
    assert [pod][1..] == [];
    var own: seq<string> := if AnyWithoutLimits(pod.containers) then [pod.name] else [];
    assert own + [] == own;
  }

  /** Pod order: the report on a concatenation is the concatenation of the
      reports. */
  lemma {:induction false} PodsWithoutResourceLimitsAppend(a: seq<Pod>, b: seq<Pod>)
    ensures PodsWithoutResourceLimits(a + b) == PodsWithoutResourceLimits(a) + PodsWithoutResourceLimits(b)
  {
    if a == [] {
      assert a + b == b;
    } else {
      assert (a + b)[0] == a[0];
      assert (a + b)[1..] == a[1..] + b;
      PodsWithoutResourceLimitsAppend(a[1..], b);
      var own: seq<string> := if AnyWithoutLimits(a[0].containers) then [a[0].name] else [];
      var x, y := PodsWithoutResourceLimits(a[1..]), PodsWithoutResourceLimits(b);
      assert own + (x + y) == (own + x) + y;
    }
  }

  /** A pod with a container without limits is reported; one whose only
      container has an empty limits map is not; nor is a pod with no
      containers. */
  lemma MissingLimitsIsAbsence()
    ensures PodsWithoutResourceLimits([Pod("ns", "mixed", None, [
              Container("a", None, Some(map["cpu" := "1"])), Container("b", None, None)])]) == ["mixed"]
    ensures PodsWithoutResourceLimits([Pod("ns", "empty-limits", None, [Container("a", None, Some(map[]))])]) == []
    ensures PodsWithoutResourceLimits([Pod("ns", "no-containers", None, [])]) == []
  {
    var mixed := Pod("ns", "mixed", None, [
                   Container("a", None, Some(map["cpu" := "1"])), Container("b", None, None)]);
    assert mixed.containers[1].limits.None?;
  }

  // ---------------------------------------------------------------------------
  // Network policies and the findings files

  /** The line written for one network policy, without its newline. */
  function NetworkPolicyLine(np: NetworkPolicy): string
  {
    "rule_name: " + np.name + " namespace: " + np.namespace
  }

  /** The network policies file: each policy's line followed by a newline. */
  function NetworkPoliciesText(nps: seq<NetworkPolicy>): string
  {
    if nps == [] then "" else NetworkPolicyLine(nps[0]) + "\n" + NetworkPoliciesText(nps[1..])
  }

  /** The lines of the network policies file, one per policy, in order. */
  function NetworkPolicyLines(nps: seq<NetworkPolicy>): (lines: seq<string>)
    ensures |lines| == |nps|
    ensures forall k | 0 <= k < |nps| :: lines[k] == NetworkPolicyLine(nps[k])
  {
    seq(|nps|, k requires 0 <= k < |nps| => NetworkPolicyLine(nps[k]))
  }

  lemma {:induction false} NetworkPoliciesTextIsTerminated(nps: seq<NetworkPolicy>)
    ensures NetworkPoliciesText(nps) == Concat(TerminateAll(NetworkPolicyLines(nps), '\n'))
  {
    if nps != [] {
      NetworkPoliciesTextIsTerminated(nps[1..]);
      assert NetworkPolicyLines(nps)[1..] == NetworkPolicyLines(nps[1..]);
      assert TerminateAll(NetworkPolicyLines(nps), '\n')[1..] ==
             TerminateAll(NetworkPolicyLines(nps[1..]), '\n');
    }
  }

  lemma LineHasNoNewline(np: NetworkPolicy)
    requires '\n' !in np.name && '\n' !in np.namespace
    ensures '\n' !in NetworkPolicyLine(np)
  {
    var head, mid := "rule_name: ", " namespace: ";
    assert forall i | 0 <= i < |head| :: head[i] != '\n';
    assert forall i | 0 <= i < |mid| :: mid[i] != '\n';
    var line := NetworkPolicyLine(np);
    assert line == head + np.name + mid + np.namespace;
    forall i | 0 <= i < |line|
      ensures line[i] != '\n'
    {
      if i < |head| {
        assert line[i] == head[i];
      } else if i < |head| + |np.name| {
        assert line[i] == np.name[i - |head|];
      } else if i < |head| + |np.name| + |mid| {
        assert line[i] == mid[i - |head| - |np.name|];
      } else {
        assert line[i] == np.namespace[i - |head| - |np.name| - |mid|];
      }
    }
  }

  /** Cut at newlines, the network policies file gives one line per policy,
      in order, and nothing after the last newline. */
  lemma NetworkPoliciesOneLineEach(nps: seq<NetworkPolicy>)
    requires forall k | 0 <= k < |nps| :: '\n' !in nps[k].name && '\n' !in nps[k].namespace
    ensures Split(NetworkPoliciesText(nps), "\n") == NetworkPolicyLines(nps) + [""]
  {
    var lines := NetworkPolicyLines(nps);
    forall k | 0 <= k < |lines|
      ensures '\n' !in lines[k]
    {
      LineHasNoNewline(nps[k]);
    }
    NetworkPoliciesTextIsTerminated(nps);
    SplitTerminated(lines, '\n');
  }

  /** The cluster objects the policy script lists. */
  datatype PolicyInputs = PolicyInputs(
    networkPolicies: seq<NetworkPolicy>,
    clusterRoleBindings: seq<ClusterRoleBinding>,
    clusterRoles: seq<Role>,
    roles: seq<Role>,
    pods: seq<Pod>)

  /** The stems of the files the policy script writes, in writing order. */
  const PolicyStems: seq<string> :=
    [ "network_policies", "cluster_admin_role_bindings", "cluster_roles_secrets_access",
      "roles_secrets_access", "cluster_roles_configmaps_access", "roles_configmaps_access",
      "pods_without_resource_limits" ]

  /** The `k`-th findings list the script computes; a list that raises is
      an `Err`. */
  function FindingList(inp: PolicyInputs, k: nat): Result<seq<string>, Error>
    requires k < 6
  {
    if k == 0 then Ok(ClusterAdminBindings(inp.clusterRoleBindings))
    else if k == 1 then FilterRolesByAccess(inp.clusterRoles, "secrets")
    else if k == 2 then FilterRolesByAccess(inp.roles, "secrets")
    else if k == 3 then FilterRolesByAccess(inp.clusterRoles, "configmaps")
    else if k == 4 then FilterRolesByAccess(inp.roles, "configmaps")
    else Ok(PodsWithoutResourceLimits(inp.pods))
  }

  /** The findings lists, in the order the script writes their files, each
      with the stem of its file name. */
  function FindingLists(inp: PolicyInputs): seq<(string, Result<seq<string>, Error>)>
  {
    seq(6, k requires 0 <= k < 6 => (PolicyStems[k + 1], FindingList(inp, k)))
  }

  /** A findings file: the names, one per line, with no newline after the last. */
  function FindingFile(stem: string, names: seq<string>): Artifact
  {
    Artifact(stem, ".txt", Text(Join(names, "\n")))
  }

  /** The files a run of the script writes, and the exception that ended it. */
  datatype PolicyRun = PolicyRun(files: seq<Artifact>, error: Option<Error>)

  /** Writing the findings files in order until a list raises: the files
      written are those of the lists before the first failing one, and the
      run ends with that list's exception. */
  function FindingFiles(lists: seq<(string, Result<seq<string>, Error>)>): (run: PolicyRun)
    ensures |run.files| <= |lists|
    ensures forall k | 0 <= k < |run.files| ::
              lists[k].1.Ok? && run.files[k] == FindingFile(lists[k].0, lists[k].1.value)
    ensures run.error.None? <==> |run.files| == |lists|
    ensures run.error.Some? ==> lists[|run.files|].1.Err? && run.error.value == lists[|run.files|].1.error
  {
    if lists == [] then PolicyRun([], None)
    else match lists[0].1
      case Err(e) => PolicyRun([], Some(e))
      case Ok(names) =>
        var rest := FindingFiles(lists[1..]);
        PolicyRun([FindingFile(lists[0].0, names)] + rest.files, rest.error)
  }

  /** The network policies file, then the findings files until one raises. */
  function PolicyFiles(inp: PolicyInputs): PolicyRun
  {
    var findings := FindingFiles(FindingLists(inp));
    PolicyRun([Artifact(PolicyStems[0], ".txt", Text(NetworkPoliciesText(inp.networkPolicies)))] + findings.files,
              findings.error)
  }

  /** The script stops at the first role list with a rule-less role: after
      two files when a cluster role has no rules, after three when only a
      namespaced role has none, and otherwise writes all seven. */
  lemma PolicyRunStops(inp: PolicyInputs)
    ensures var run := PolicyFiles(inp);
            var clusterFails := exists k | 0 <= k < |inp.clusterRoles| :: inp.clusterRoles[k].rules.None?;
            var rolesFail := exists k | 0 <= k < |inp.roles| :: inp.roles[k].rules.None?;
            && (run.error.Some? <==> clusterFails || rolesFail)
            && (run.error.Some? ==> run.error.value == TypeError)
            && |run.files| == (if clusterFails then 2 else if rolesFail then 3 else 7)
  {
    var lists := FindingLists(inp);
    FilterRolesByAccessFails(inp.clusterRoles, "secrets");
    FilterRolesByAccessFails(inp.clusterRoles, "configmaps");
    FilterRolesByAccessFails(inp.roles, "secrets");
    FilterRolesByAccessFails(inp.roles, "configmaps");
    var n := |FindingFiles(lists).files|;
    assert n <= 6;
    if n >= 2 {
      assert lists[1].1.Ok?;
    }
    if n >= 3 {
      assert lists[2].1.Ok?;
    }
  }

  /** The files of the policy script have pairwise different paths, so none
      overwrites another. */
  lemma PolicyPathsDistinct(inp: PolicyInputs, ts: string)
    ensures var files := PolicyFiles(inp).files;
            forall i, j | 0 <= i < j < |files| :: PathOf(ts, files[i]) != PathOf(ts, files[j])
  {
    var files := PolicyFiles(inp).files;
    PolicyFileStems(inp);
    PolicyStemsDistinct();
    forall i, j | 0 <= i < j < |files|
      ensures PathOf(ts, files[i]) != PathOf(ts, files[j])
    {
      ArtifactNameInjective(files[i].stem, files[j].stem, ts, ".txt", ".txt");
    }
  }

  /** The `k`-th file written is a `.txt` file with the `k`-th stem. */
  lemma PolicyFileStems(inp: PolicyInputs)
    ensures var files := PolicyFiles(inp).files;
            |files| <= |PolicyStems| &&
            forall k | 0 <= k < |files| :: files[k].stem == PolicyStems[k] && files[k].ext == ".txt"
  {
    var lists := FindingLists(inp);
    var findings := FindingFiles(lists).files;
    var files := PolicyFiles(inp).files;
    assert files == [files[0]] + findings;
    forall k | 0 <= k < |files|
      ensures files[k].stem == PolicyStems[k] && files[k].ext == ".txt"
    {
      if k > 0 {
        assert files[k] == findings[k - 1] == FindingFile(lists[k - 1].0, lists[k - 1].1.value);
        assert lists[k - 1].0 == PolicyStems[k];
      }
    }
  }

  /** No two policy file stems are equal. */
  lemma PolicyStemsDistinct()
    ensures forall i, j | 0 <= i < j < |PolicyStems| :: PolicyStems[i] != PolicyStems[j]
  {
  }

  /** The files the policy script leaves in `k8s_dump_{timestamp}`. */
  function PolicyReport(ts: string, inp: PolicyInputs): map<Path, Content>
  {
    Written(ts, PolicyFiles(inp).files)
  }

  /** The network policies file holds one terminated line per policy. */
  lemma NetworkPoliciesFile(ts: string, inp: PolicyInputs)
    ensures var p := [OutputDir(ts), ArtifactName("network_policies", ts, ".txt")];
            p in PolicyReport(ts, inp) && PolicyReport(ts, inp)[p] == Text(NetworkPoliciesText(inp.networkPolicies))
  {
    PolicyPathsDistinct(inp, ts);
    WrittenContent(ts, PolicyFiles(inp).files, 0);
  }

  /** Each findings file the run reaches holds its findings one per line,
      with no newline after the last, and is empty when there are none. */
  lemma FindingsFileReadsBack(ts: string, inp: PolicyInputs, k: nat)
    requires k < |FindingLists(inp)|
    requires forall j | 0 <= j <= k :: FindingLists(inp)[j].1.Ok?
    requires forall i | 0 <= i < |FindingLists(inp)[k].1.value| :: '\n' !in FindingLists(inp)[k].1.value[i]
    ensures var p := [OutputDir(ts), ArtifactName(FindingLists(inp)[k].0, ts, ".txt")];
            var names := FindingLists(inp)[k].1.value;
            && p in PolicyReport(ts, inp)
            && PolicyReport(ts, inp)[p].Text?
            && (names == [] ==> PolicyReport(ts, inp)[p].text == "")
            && (names != [] ==> Split(PolicyReport(ts, inp)[p].text, "\n") == names)
  {
    var lists := FindingLists(inp);
    var files := PolicyFiles(inp).files;
    var names := lists[k].1.value;
    FindingFilesReach(lists, k);
    assert files[k + 1] == FindingFiles(lists).files[k] == FindingFile(lists[k].0, names);
    PolicyPathsDistinct(inp, ts);
    WrittenContent(ts, files, k + 1);
    assert PolicyReport(ts, inp)[PathOf(ts, files[k + 1])] == Text(Join(names, "\n"));
    if names != [] {
      SplitJoin(names, '\n');
    }
  }

  /** When the lists up to `k` do not raise, the run writes the file of list `k`. */
  lemma {:induction false} FindingFilesReach(lists: seq<(string, Result<seq<string>, Error>)>, k: nat)
    requires k < |lists| && forall j | 0 <= j <= k :: lists[j].1.Ok?
    ensures k < |FindingFiles(lists).files|
  {
    if k > 0 {
      FindingFilesReach(lists[1..], k - 1);
    }
  }
}
