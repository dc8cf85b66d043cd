/** The preflight checks of `kubac doctor`: four independent checks, each
    classifying what it observes, and their aggregate verdict. Running
    kubectl and loading the kubeconfig are observations; each check loads
    the kubeconfig on its own, so each has its own. */
module Doctor {
  import opened Cluster
  import opened Decimal

  datatype CheckResult = CheckResult(name: string, status: Status, message: string)

  /** A node condition: its Type and its Status, as the API spells them. */
  datatype Condition = Condition(kind: string, status: string)

  datatype Node = Node(conditions: seq<Condition>)

  /** cluster-access: loading the client config, building the client,
      listing one namespace, reading the raw config's current context. */
  datatype AccessObservation = AccessObservation(
    clientConfig: Outcome,
    client: Outcome,
    listNamespaces: Outcome,
    currentContext: Fetch<string>)

  /** permissions: loading the client config, building the client, listing
      namespaces. */
  datatype PermissionsObservation = PermissionsObservation(
    clientConfig: Outcome,
    client: Outcome,
    listNamespaces: Outcome)

  /** nodes: loading the client config, building the client, listing nodes. */
  datatype NodesObservation = NodesObservation(
    clientConfig: Outcome,
    client: Outcome,
    listNodes: Fetch<seq<Node>>)

  /** kubectl: the combined output of `kubectl version --client --short`. */
  datatype DoctorObservation = DoctorObservation(
    kubectl: Fetch<string>,
    access: AccessObservation,
    permissions: PermissionsObservation,
    nodes: NodesObservation)

  const KubectlCheck: string := "kubectl"
  const ClusterAccessCheck: string := "cluster-access"
  const PermissionsCheck: string := "permissions"
  const NodesCheck: string := "nodes"

  function CheckKubectl(o: Fetch<string>): (r: CheckResult)
    ensures r.name == KubectlCheck
    ensures r.status == Pass <==> o.Fetched?
    ensures r.status == Fail <==> o.FetchFailed?
    ensures o.Fetched? ==> r.message == o.value
  {
    match o
    case FetchFailed(_) => CheckResult(KubectlCheck, Fail, "kubectl not found or not executable")
    case Fetched(output) => CheckResult(KubectlCheck, Pass, output)
  }

  /** The cluster answers: config loads, client builds, a namespace list works. */
  predicate Reachable(o: AccessObservation) {
    o.clientConfig.Done? && o.client.Done? && o.listNamespaces.Done?
  }

  function CheckClusterAccess(o: AccessObservation): (r: CheckResult)
    ensures r.name == ClusterAccessCheck && r.status != Skip
    ensures r.status == Fail <==> !Reachable(o)
    ensures r.status == Warn <==> Reachable(o) && o.currentContext.FetchFailed?
    ensures r.status == Pass ==> r.message == "Connected to context: " + o.currentContext.value
  {
    if o.clientConfig.Failed? then
      CheckResult(ClusterAccessCheck, Fail, "Failed to load kubeconfig: " + o.clientConfig.error)
    else if o.client.Failed? then
      CheckResult(ClusterAccessCheck, Fail, "Failed to create client: " + o.client.error)
    else if o.listNamespaces.Failed? then
      CheckResult(ClusterAccessCheck, Fail, "Failed to connect to cluster: " + o.listNamespaces.error)
    else
      match o.currentContext
      case FetchFailed(_) => CheckResult(ClusterAccessCheck, Warn, "Connected but cannot determine context")
      case Fetched(ctx) => CheckResult(ClusterAccessCheck, Pass, "Connected to context: " + ctx)
  }

  function CheckPermissions(o: PermissionsObservation): (r: CheckResult)
    ensures r.name == PermissionsCheck && r.status != Warn
    ensures r.status == Skip <==> o.clientConfig.Failed? || o.client.Failed?
    ensures r.status == Fail <==> o.clientConfig.Done? && o.client.Done? && o.listNamespaces.Failed?
    ensures r.status == Pass <==> o.clientConfig.Done? && o.client.Done? && o.listNamespaces.Done?
  {
    if o.clientConfig.Failed? then
      CheckResult(PermissionsCheck, Skip, "Skipped due to cluster access failure")
    else if o.client.Failed? then
      CheckResult(PermissionsCheck, Skip, "Skipped due to client creation failure")
    else if o.listNamespaces.Failed? then
      CheckResult(PermissionsCheck, Fail, "Insufficient permissions to list namespaces")
    else
      CheckResult(PermissionsCheck, Pass, "User has required cluster permissions")
  }

  predicate IsReadyCondition(c: Condition) {
    c.kind == "Ready" && c.status == "True"
  }

  /** The scan over one node's conditions, stopping at the first Ready=True. */
  function HasReadyCondition(cs: seq<Condition>): (b: bool)
    ensures b <==> exists i :: 0 <= i < |cs| && IsReadyCondition(cs[i])
    decreases |cs|
  {
    if |cs| == 0 then false
    else if IsReadyCondition(cs[0]) then true
    else HasReadyCondition(cs[1..])
  }

  predicate NodeReady(n: Node) {
    HasReadyCondition(n.conditions)
  }

  /** The number of ready nodes: each node counts once, however many
      Ready=True conditions it carries. */
  function ReadyNodes(nodes: seq<Node>): (n: nat)
    ensures n <= |nodes|
    ensures n == 0 <==> forall i :: 0 <= i < |nodes| ==> !NodeReady(nodes[i])
    ensures n == |nodes| <==> forall i :: 0 <= i < |nodes| ==> NodeReady(nodes[i])
    decreases |nodes|
  {
    if |nodes| == 0 then 0
    else
      var rest := ReadyNodes(nodes[1..]);
      assert forall i :: 1 <= i < |nodes| ==> nodes[i] == nodes[1..][i - 1];
      (if NodeReady(nodes[0]) then 1 else 0) + rest
  }

  /** The count is additive: the nodes of a list split in two are counted
      by counting each part. */
  lemma {:induction false} ReadyNodesAppend(a: seq<Node>, b: seq<Node>)
    ensures ReadyNodes(a + b) == ReadyNodes(a) + ReadyNodes(b)
    decreases |a|
  {
    if |a| == 0 {
      assert a + b == b;
    } else {
      assert (a + b)[0] == a[0];
      assert (a + b)[1..] == a[1..] + b;
      ReadyNodesAppend(a[1..], b);
    }
  }

  /** A single node counts one iff it is ready. */
  lemma ReadyNodesSingle(n: Node)
    ensures ReadyNodes([n]) == if NodeReady(n) then 1 else 0
  {
  }

  function CheckNodes(o: NodesObservation): (r: CheckResult)
    ensures r.name == NodesCheck
    ensures r.status == Skip <==> o.clientConfig.Failed? || o.client.Failed?
    ensures r.status == Warn <==> o.clientConfig.Done? && o.client.Done? && o.listNodes.FetchFailed?
    ensures r.status == Fail <==>
      o.clientConfig.Done? && o.client.Done? && o.listNodes.Fetched?
      && forall i :: 0 <= i < |o.listNodes.value| ==> !NodeReady(o.listNodes.value[i])
    ensures r.status == Pass ==>
      r.message == IntToString(ReadyNodes(o.listNodes.value)) + "/" + IntToString(|o.listNodes.value|) + " nodes ready"
  {
    if o.clientConfig.Failed? then
      CheckResult(NodesCheck, Skip, "Skipped due to cluster access failure")
    else if o.client.Failed? then
      CheckResult(NodesCheck, Skip, "Skipped due to client creation failure")
    else
      match o.listNodes
      case FetchFailed(e) => CheckResult(NodesCheck, Warn, "Cannot list nodes: " + e)
      case Fetched(nodes) =>
        var ready := ReadyNodes(nodes);
        if ready == 0 then CheckResult(NodesCheck, Fail, "No ready nodes found")
        else CheckResult(NodesCheck, Pass, IntToString(ready) + "/" + IntToString(|nodes|) + " nodes ready")
  }

  /** The four checks, always all four, in a fixed order. */
  function RunChecks(o: DoctorObservation): (r: seq<CheckResult>)
    ensures |r| == 4
    ensures r[0].name == KubectlCheck && r[1].name == ClusterAccessCheck
    ensures r[2].name == PermissionsCheck && r[3].name == NodesCheck
    ensures r[0] == CheckKubectl(o.kubectl) && r[1] == CheckClusterAccess(o.access)
    ensures r[2] == CheckPermissions(o.permissions) && r[3] == CheckNodes(o.nodes)
  {
    [CheckKubectl(o.kubectl), CheckClusterAccess(o.access), CheckPermissions(o.permissions), CheckNodes(o.nodes)]
  }

  predicate NoFailure(checks: seq<CheckResult>) {
    forall i :: 0 <= i < |checks| ==> checks[i].status != Fail
  }

  /** The doctor's verdict: false as soon as a check is FAIL; PASS, WARN and
      SKIP do not block. */
  method AllPassed(checks: seq<CheckResult>) returns (ok: bool)
    ensures ok <==> NoFailure(checks)
  {
    for i := 0 to |checks|
      invariant forall j :: 0 <= j < i ==> checks[j].status != Fail
    {
      if checks[i].status == Fail {
        return false;
      }
    }
    return true;
  }

  /** The preflight passes iff kubectl runs, the cluster answers, a reachable
      cluster lets the user list namespaces, and a node list, when it can be
      read, has a ready node. */
  lemma PreflightVerdict(o: DoctorObservation)
    ensures NoFailure(RunChecks(o)) <==>
      && o.kubectl.Fetched?
      && Reachable(o.access)
      && (o.permissions.clientConfig.Done? && o.permissions.client.Done? ==> o.permissions.listNamespaces.Done?)
      && (o.nodes.clientConfig.Done? && o.nodes.client.Done? && o.nodes.listNodes.Fetched? ==>
            exists i :: 0 <= i < |o.nodes.listNodes.value| && NodeReady(o.nodes.listNodes.value[i]))
  {
  }
}
