/** The installer: creation of the system namespace, then either the direct
    install (a fixed, configuration-gated, fail-fast sequence of manifest
    bundles with one readiness gate) or the GitOps layout; and the uninstall.
    Every call into the cluster or the filesystem is an observation. */
module Install {
  import opened Cluster
  import Poll
  import opened Config

  const SystemNamespace: string := "kubac-system"
  const KyvernoNamespace: string := "kyverno"

  const MetricsServerBundle: string := "bundles/platform/metrics-server"
  const KubeStateMetricsBundle: string := "bundles/platform/kube-state-metrics"
  const KyvernoBundle: string := "bundles/policies/kyverno"
  const BaselineBundle: string := "bundles/policies/baseline"
  const NetworkPolicyBundle: string := "bundles/netpol"

  /** The text of the error `wait.PollImmediate` returns on timeout. */
  const PollTimeoutText: string := "timed out waiting for the condition"

  const GitOpsMode: string := "gitops"

  // ---------------------------------------------------------------------
  // Classification of API errors
  // ---------------------------------------------------------------------

  /** The classifiers as written: the whole error text must equal a fixed
      string. */
  predicate IsAlreadyExistsAsWritten(e: ApiError) {
    e.text == "already exists"
  }

  predicate IsNotFoundAsWritten(e: ApiError) {
    e.text == "not found"
  }

  /** The classifiers as intended: by the reason the API server reports. */
  predicate IsAlreadyExists(e: ApiError) {
    e.reason == AlreadyExists
  }

  predicate IsNotFound(e: ApiError) {
    e.reason == NotFound
  }

  /** The API server reports an existing namespace with a text that names
      the namespace, so the text comparison misses it. */
  lemma AlreadyExistsTextMismatch()
    ensures var e := ApiError(AlreadyExists, "namespaces \"kubac-system\" already exists");
      !IsAlreadyExistsAsWritten(e) && CreateNamespaceAsWritten(Some(e)).Some?
      && CreateNamespace(Some(e)).None?
  {
  }

  lemma NotFoundTextMismatch()
    ensures var e := ApiError(NotFound, "namespaces \"kyverno\" not found");
      !IsNotFoundAsWritten(e) && IsNotFound(e)
  {
  }

  // ---------------------------------------------------------------------
  // createNamespace
  // ---------------------------------------------------------------------

  /** The error createNamespace returns, given the error (if any) of the
      Create call, with the classifier as written. */
  function CreateNamespaceAsWritten(create: Option<ApiError>): (r: Option<string>)
    ensures r.None? <==> create.None? || create.value.text == "already exists"
  {
    match create
    case None => None
    case Some(e) => if IsAlreadyExistsAsWritten(e) then None else Some(e.text)
  }

  /** createNamespace: an existing namespace is success; any other failure is
      returned unchanged. */
  function CreateNamespace(create: Option<ApiError>): (r: Option<string>)
    ensures r.None? <==> create.None? || create.value.reason == AlreadyExists
    ensures r.Some? ==> r == Some(create.value.text)
  {
    match create
    case None => None
    case Some(e) => if IsAlreadyExists(e) then None else Some(e.text)
  }

  // ---------------------------------------------------------------------
  // applyManifests
  // ---------------------------------------------------------------------

  /** A directory entry, with the outcome of reading the file and of applying
      its manifest should the installer get that far. */
  datatype DirEntry = DirEntry(name: string, isDir: bool, read: Outcome, apply: Outcome)

  predicate IsSuffix(suffix: string, s: string) {
    |suffix| <= |s| && s[|s| - |suffix|..] == suffix
  }

  /** path[..n] has a '.' with no '/' after it: its last element has a dot. */
  predicate DotInLastElement(path: string, n: nat)
    requires n <= |path|
  {
    exists k :: 0 <= k < n && path[k] == '.' && NoSlashBetween(path, k, n)
  }

  predicate NoSlashBetween(path: string, k: nat, n: nat)
    requires k < n <= |path|
  {
    forall j :: k < j < n ==> path[j] != '/'
  }

  /** Go's filepath.Ext: the suffix from the last '.' of the last path
      element, or "" when that element has no '.'. */
  function Ext(path: string): (r: string)
    ensures IsSuffix(r, path)
    ensures r == [] <==> !DotInLastElement(path, |path|)
    ensures r != [] ==> r[0] == '.' && forall j :: 1 <= j < |r| ==> r[j] != '.' && r[j] != '/'
  {
    ExtScan(path, |path|)
  }

  /** The scan of Ext over path[..n], from its end. */
  function ExtScan(path: string, n: nat): (r: string)
    requires n <= |path|
    ensures r == [] <==> !DotInLastElement(path, n)
    ensures r != [] ==> IsSuffix(r, path) && |path| - |r| < n && path[|path| - |r|] == '.'
    ensures r != [] ==> forall j :: |path| - |r| < j < n ==> path[j] != '.' && path[j] != '/'
    decreases n
  {
    if n == 0 then ""
    else if path[n - 1] == '/' then
      assert forall k :: 0 <= k < n && path[k] == '.' ==> !NoSlashBetween(path, k, n);
      ""
    else if path[n - 1] == '.' then
      assert NoSlashBetween(path, n - 1, n);
      path[n - 1..]
    else
      var r := ExtScan(path, n - 1);
      assert forall k :: 0 <= k < n - 1 ==> (NoSlashBetween(path, k, n) <==> NoSlashBetween(path, k, n - 1));
      r
  }

  predicate IsManifest(e: DirEntry) {
    !e.isDir && (Ext(e.name) == ".yaml" || Ext(e.name) == ".yml")
  }

  /** The entries applyManifests applies, in listing order. */
  function Manifests(entries: seq<DirEntry>): (ms: seq<DirEntry>)
    ensures |ms| <= |entries|
    ensures forall i :: 0 <= i < |ms| ==> IsManifest(ms[i])
    decreases |entries|
  {
    if |entries| == 0 then []
    else if IsManifest(entries[0]) then [entries[0]] + Manifests(entries[1..])
    else Manifests(entries[1..])
  }

  /** One unfolding of the filter. */
  lemma ManifestsCons(entries: seq<DirEntry>)
    requires |entries| > 0
    ensures Manifests(entries) ==
      (if IsManifest(entries[0]) then [entries[0]] else []) + Manifests(entries[1..])
  {
  }

  /** The manifests are exactly the listed files with a manifest extension. */
  lemma {:induction false} ManifestsMembers(entries: seq<DirEntry>, e: DirEntry)
    ensures e in Manifests(entries) <==> e in entries && IsManifest(e)
    decreases |entries|
  {
    if |entries| > 0 {
      ManifestsMembers(entries[1..], e);
      assert entries == [entries[0]] + entries[1..];
    }
  }

  /** Filtering keeps listing order: it distributes over concatenation. */
  lemma {:induction false} ManifestsAppend(a: seq<DirEntry>, b: seq<DirEntry>)
    ensures Manifests(a + b) == Manifests(a) + Manifests(b)
    decreases |a|
  {
    if |a| == 0 {
      assert a + b == b;
    } else {
      assert (a + b)[0] == a[0];
      assert (a + b)[1..] == a[1..] + b;
      ManifestsAppend(a[1..], b);
    }
  }

  /** The scan stops at the last '.' when no '/' follows it. */
  lemma {:induction false} ExtScanFinds(path: string, n: nat, k: nat)
    requires k < n <= |path| && path[k] == '.'
    requires forall j :: k < j < n ==> path[j] != '.' && path[j] != '/'
    ensures ExtScan(path, n) == path[k..]
    decreases n
  {
    if n - 1 > k {
      ExtScanFinds(path, n - 1, k);
    }
  }

  /** An extension that ends the name is what Ext reports. */
  lemma ExtOfSuffix(name: string, ext: string)
    requires |ext| > 0 && ext[0] == '.' && IsSuffix(ext, name)
    requires forall j :: 1 <= j < |ext| ==> ext[j] != '.' && ext[j] != '/'
    ensures Ext(name) == ext
  {
    var k := |name| - |ext|;
    assert forall j :: k <= j < |name| ==> name[j] == ext[j - k];
    ExtScanFinds(name, |name|, k);
  }

  /** A file is applied iff its name ends in ".yaml" or ".yml" (exactly:
      "x.YAML" is not). */
  lemma ManifestNameIff(e: DirEntry)
    ensures IsManifest(e) <==>
      !e.isDir && (IsSuffix(".yaml", e.name) || IsSuffix(".yml", e.name))
  {
    if IsSuffix(".yaml", e.name) {
      ExtOfSuffix(e.name, ".yaml");
    } else if IsSuffix(".yml", e.name) {
      ExtOfSuffix(e.name, ".yml");
    }
  }

  function ManifestPath(dir: string, name: string): string {
    dir + "/" + name
  }

  /** The error an entry stops the loop with: its read failure, else its
      apply failure. */
  function EntryError(dir: string, e: DirEntry): Option<string> {
    if e.read.Failed? then
      Some("failed to read manifest " + ManifestPath(dir, e.name) + ": " + e.read.error)
    else if e.apply.Failed? then
      Some("failed to apply manifest " + ManifestPath(dir, e.name) + ": " + e.apply.error)
    else None
  }

  /** The manifests applied (by path, in order) and the error that stopped
      the loop, if any. */
  datatype ApplyRun = ApplyRun(applied: seq<string>, error: Option<string>)

  /** Applying manifests in order and stopping at the first failure: the
      applied paths are the leading manifests that read and apply, and the
      error is that of the first one that does not. */
  function ApplyAll(dir: string, ms: seq<DirEntry>): (r: ApplyRun)
    ensures |r.applied| <= |ms|
    ensures forall i :: 0 <= i < |r.applied| ==>
      r.applied[i] == ManifestPath(dir, ms[i].name) && EntryError(dir, ms[i]).None?
    ensures r.error.None? <==> |r.applied| == |ms|
    ensures r.error.Some? ==> r.error == EntryError(dir, ms[|r.applied|])
    decreases |ms|
  {
    if |ms| == 0 then ApplyRun([], None)
    else if EntryError(dir, ms[0]).Some? then ApplyRun([], EntryError(dir, ms[0]))
    else
      var rest := ApplyAll(dir, ms[1..]);
      ApplyRun([ManifestPath(dir, ms[0].name)] + rest.applied, rest.error)
  }

  /** The loop of applyManifests over a listing: skip directories and
      non-manifests, apply the rest in order, stop at the first failure. It
      applies exactly the listing's manifests, as ApplyAll does. */
  function ApplyEntries(dir: string, entries: seq<DirEntry>): (r: ApplyRun)
    ensures r == ApplyAll(dir, Manifests(entries))
    decreases |entries|
  {
    if |entries| == 0 then ApplyRun([], None)
    else
      var e := entries[0];
      ManifestsCons(entries);
      if !IsManifest(e) then
        ApplyEntries(dir, entries[1..])
      else
        var ms := Manifests(entries);
        assert ms[0] == e && ms[1..] == Manifests(entries[1..]);
        if EntryError(dir, e).Some? then
          ApplyRun([], EntryError(dir, e))
        else
          var rest := ApplyEntries(dir, entries[1..]);
          ApplyRun([ManifestPath(dir, e.name)] + rest.applied, rest.error)
  }

  /** applyManifests: list the directory, then apply its manifests. */
  function ApplyManifests(dir: string, listing: Fetch<seq<DirEntry>>): (r: ApplyRun)
    ensures listing.FetchFailed? ==>
      r == ApplyRun([], Some("failed to read manifests directory: " + listing.error))
    ensures r.error.None? <==>
      listing.Fetched? && forall e :: e in Manifests(listing.value) ==> EntryError(dir, e).None?
    ensures listing.Fetched? ==> r == ApplyAll(dir, Manifests(listing.value))
  {
    match listing
    case FetchFailed(e) => ApplyRun([], Some("failed to read manifests directory: " + e))
    case Fetched(entries) =>
      var r := ApplyEntries(dir, entries);
      var ms := Manifests(entries);
      assert r.error.None? ==> forall e :: e in ms ==> EntryError(dir, e).None?;
      r
  }

  // ---------------------------------------------------------------------
  // waitForDeployment
  // ---------------------------------------------------------------------

  /** The readiness condition: a failed Get means "not yet"; otherwise every
      desired replica is ready. */
  predicate DeploymentReady(read: Fetch<Deployment>) {
    match read
    case FetchFailed(_) => false
    case Fetched(d) => d.readyReplicas == d.specReplicas
  }

  const ReadyCondition: Fetch<Deployment> -> bool := read => DeploymentReady(read)

  /** waitForDeployment over the attempts of its poll: nil or the poll's
      timeout error. */
  function WaitForDeployment(attempts: seq<Fetch<Deployment>>): (r: Option<string>)
    ensures r.None? <==>
      exists i :: 0 <= i < |attempts| && attempts[i].Fetched?
        && attempts[i].value.readyReplicas == attempts[i].value.specReplicas
    ensures r.Some? ==> r.value == PollTimeoutText
  {
    Poll.SucceedsIff(attempts, ReadyCondition);
    if Poll.Succeeds(attempts, ReadyCondition) then None else Some(PollTimeoutText)
  }

  // ---------------------------------------------------------------------
  // Steps and the fail-fast sequencer
  // ---------------------------------------------------------------------

  datatype Step =
    | CreateSystemNamespace
    | MetricsServer
    | KubeStateMetrics
    | Kyverno
    | KyvernoReady
    | BaselinePolicies
    | NetworkPolicies
    | MakeGitOpsDir(dir: string)
    | RenderGitOps(path: string)

  /** What the installer's calls observe. `mkdirFailures` maps each GitOps
      directory whose MkdirAll fails to its error text. */
  datatype InstallObservation = InstallObservation(
    namespaceCreate: Option<ApiError>,
    metricsServer: Fetch<seq<DirEntry>>,
    kubeStateMetrics: Fetch<seq<DirEntry>>,
    kyverno: Fetch<seq<DirEntry>>,
    kyvernoReadiness: seq<Fetch<Deployment>>,
    baseline: Fetch<seq<DirEntry>>,
    networkPolicies: Fetch<seq<DirEntry>>,
    mkdirFailures: map<string, string>,
    render: Outcome)

  function Wrap(context: string, e: Option<string>): (r: Option<string>)
    ensures r.None? <==> e.None?
  {
    match e
    case None => None
    case Some(m) => Some(context + ": " + m)
  }

  /** A bundle installs when its directory lists and every manifest in it
      reads and applies. */
  predicate BundleInstalls(dir: string, listing: Fetch<seq<DirEntry>>) {
    listing.Fetched? && forall e :: e in Manifests(listing.value) ==> EntryError(dir, e).None?
  }

  /** The context the installer wraps a failing step's error in. The system
      namespace's error is returned unwrapped. */
  function StepContext(s: Step): string {
    match s
    case CreateSystemNamespace => ""
    case MetricsServer => "failed to install metrics-server"
    case KubeStateMetrics => "failed to install kube-state-metrics"
    case Kyverno => "failed to install kyverno"
    case KyvernoReady => "kyverno not ready"
    case BaselinePolicies => "failed to apply policies"
    case NetworkPolicies => "failed to install network policies"
    case MakeGitOpsDir(dir) => "failed to create directory " + dir
    case RenderGitOps(_) => "failed to render GitOps manifests"
  }

  /** The error of the call a step makes, before wrapping. */
  function StepCause(s: Step, o: InstallObservation): Option<string> {
    match s
    case CreateSystemNamespace => CreateNamespace(o.namespaceCreate)
    case MetricsServer => ApplyManifests(MetricsServerBundle, o.metricsServer).error
    case KubeStateMetrics => ApplyManifests(KubeStateMetricsBundle, o.kubeStateMetrics).error
    case Kyverno => ApplyManifests(KyvernoBundle, o.kyverno).error
    case KyvernoReady => WaitForDeployment(o.kyvernoReadiness)
    case BaselinePolicies => ApplyManifests(BaselineBundle, o.baseline).error
    case NetworkPolicies => ApplyManifests(NetworkPolicyBundle, o.networkPolicies).error
    case MakeGitOpsDir(dir) => if dir in o.mkdirFailures then Some(o.mkdirFailures[dir]) else None
    case RenderGitOps(_) => if o.render.Failed? then Some(o.render.error) else None
  }

  /** The error a step ends with, wrapped as the installer wraps it; None
      when the step succeeds. */
  function StepError(s: Step, o: InstallObservation): Option<string> {
    if s.CreateSystemNamespace? then StepCause(s, o) else Wrap(StepContext(s), StepCause(s, o))
  }

  /** What each step's success depends on. */
  lemma StepOutcome(s: Step, o: InstallObservation)
    ensures s.CreateSystemNamespace? ==>
      (StepError(s, o).None? <==> o.namespaceCreate.None? || IsAlreadyExists(o.namespaceCreate.value))
    ensures s.MetricsServer? ==> (StepError(s, o).None? <==> BundleInstalls(MetricsServerBundle, o.metricsServer))
    ensures s.KubeStateMetrics? ==> (StepError(s, o).None? <==> BundleInstalls(KubeStateMetricsBundle, o.kubeStateMetrics))
    ensures s.Kyverno? ==> (StepError(s, o).None? <==> BundleInstalls(KyvernoBundle, o.kyverno))
    ensures s.KyvernoReady? ==> (StepError(s, o).None? <==> Poll.Succeeds(o.kyvernoReadiness, ReadyCondition))
    ensures s.BaselinePolicies? ==> (StepError(s, o).None? <==> BundleInstalls(BaselineBundle, o.baseline))
    ensures s.NetworkPolicies? ==> (StepError(s, o).None? <==> BundleInstalls(NetworkPolicyBundle, o.networkPolicies))
    ensures s.MakeGitOpsDir? ==> (StepError(s, o).None? <==> s.dir !in o.mkdirFailures)
    ensures s.RenderGitOps? ==> (StepError(s, o).None? <==> o.render.Done?)
  {
    match s
    case CreateSystemNamespace =>
    case MetricsServer =>
      BundleSucceeds(MetricsServerBundle, o.metricsServer);
    case KubeStateMetrics =>
      BundleSucceeds(KubeStateMetricsBundle, o.kubeStateMetrics);
    case Kyverno =>
      BundleSucceeds(KyvernoBundle, o.kyverno);
    case KyvernoReady =>
      Poll.SucceedsIff(o.kyvernoReadiness, ReadyCondition);
    case BaselinePolicies =>
      BundleSucceeds(BaselineBundle, o.baseline);
    case NetworkPolicies =>
      BundleSucceeds(NetworkPolicyBundle, o.networkPolicies);
    case MakeGitOpsDir(_) =>
    case RenderGitOps(_) =>
  }

  /** Every step but the namespace fails with its own context in front of
      the error of the call it made. */
  lemma StepErrorContext(s: Step, o: InstallObservation)
    requires !s.CreateSystemNamespace? && StepError(s, o).Some?
    ensures StepCause(s, o).Some?
    ensures StepError(s, o).value == StepContext(s) + ": " + StepCause(s, o).value
    ensures StepContext(s) + ": " <= StepError(s, o).value
  {
  }

  /** A failed readiness wait reports the poll's timeout. */
  lemma KyvernoNotReadyError(o: InstallObservation)
    requires StepError(KyvernoReady, o).Some?
    ensures StepError(KyvernoReady, o).value == "kyverno not ready: " + PollTimeoutText
  {
  }

  /** A bundle step succeeds iff its bundle installs. */
  lemma BundleSucceeds(dir: string, listing: Fetch<seq<DirEntry>>)
    ensures ApplyManifests(dir, listing).error.None? <==> BundleInstalls(dir, listing)
  {
  }

  /** The steps started, in order, and the error the run returns. */
  datatype InstallRun = InstallRun(trace: seq<Step>, error: Option<string>)

  /** Runs steps in order and stops at the first that fails, `fail` giving
      each step's error: the trace is the prefix of `steps` up to and
      including that step. */
  function RunSteps(steps: seq<Step>, fail: Step -> Option<string>): (r: InstallRun)
    ensures |r.trace| <= |steps| && r.trace == steps[..|r.trace|]
    ensures forall i :: 0 <= i < |r.trace| - 1 ==> fail(r.trace[i]).None?
    ensures r.error.None? ==> r.trace == steps
    ensures r.error.Some? ==> |r.trace| > 0 && r.error == fail(r.trace[|r.trace| - 1])
    ensures r.error.None? <==> forall i :: 0 <= i < |steps| ==> fail(steps[i]).None?
    decreases |steps|
  {
    if |steps| == 0 then InstallRun([], None)
    else
      var e := fail(steps[0]);
      if e.Some? then InstallRun([steps[0]], e)
      else
        var rest := RunSteps(steps[1..], fail);
        InstallRun([steps[0]] + rest.trace, rest.error)
  }

  /** The first failing step ends the run with its own error, and no later
      step is started. */
  lemma {:induction false} FirstFailureStops(steps: seq<Step>, fail: Step -> Option<string>, k: nat)
    requires k < |steps| && fail(steps[k]).Some?
    requires forall i :: 0 <= i < k ==> fail(steps[i]).None?
    ensures RunSteps(steps, fail) == InstallRun(steps[..k + 1], fail(steps[k]))
    decreases k
  {
    if k > 0 {
      assert fail(steps[0]).None?;
      FirstFailureStops(steps[1..], fail, k - 1);
      assert [steps[0]] + steps[1..][..k] == steps[..k + 1];
    }
  }

  /** The direct install's steps in the order the source runs them. */
  const DirectSteps: seq<Step> :=
    [MetricsServer, KubeStateMetrics, Kyverno, KyvernoReady, BaselinePolicies, NetworkPolicies]

  function Rank(s: Step): nat {
    match s
    case MetricsServer => 0
    case KubeStateMetrics => 1
    case Kyverno => 2
    case KyvernoReady => 3
    case BaselinePolicies => 4
    case NetworkPolicies => 5
    case _ => 6
  }

  /** The configuration flag that gates a direct step. */
  predicate Enabled(cfg: Config, s: Step) {
    match s
    case MetricsServer => cfg.platform.metricsServer.enabled
    case KubeStateMetrics => cfg.platform.kubeStateMetrics.enabled
    case Kyverno => cfg.policy.enabled
    case KyvernoReady => cfg.policy.enabled
    case BaselinePolicies => cfg.policy.enabled
    case NetworkPolicies => cfg.networkPolicy.enabled
    case _ => false
  }

  /** installDirect's steps: each gated by its flag, the policy engine, its
      readiness wait and the baseline policies together. */
  function DirectPlan(cfg: Config): (plan: seq<Step>)
    ensures forall s :: s in plan <==> s in DirectSteps && Enabled(cfg, s)
    ensures forall i, j :: 0 <= i < j < |plan| ==> Rank(plan[i]) < Rank(plan[j])
  {
    (if cfg.platform.metricsServer.enabled then [MetricsServer] else [])
    + (if cfg.platform.kubeStateMetrics.enabled then [KubeStateMetrics] else [])
    + (if cfg.policy.enabled then [Kyverno, KyvernoReady, BaselinePolicies] else [])
    + (if cfg.networkPolicy.enabled then [NetworkPolicies] else [])
  }

  /** The directory GitOps manifests go to; an empty path falls back to the
      default configuration's. */
  function GitOpsPath(cfg: Config): (p: string)
    ensures p != []
    ensures cfg.gitOps.path != [] ==> p == cfg.gitOps.path
    ensures cfg.gitOps.path == [] ==> p == DefaultGitOpsPath
  {
    if cfg.gitOps.path == "" then DefaultGitOpsPath else cfg.gitOps.path
  }

  const GitOpsSubdirs: seq<string> := ["flux-system", "platform", "policies", "netpol", "apps"]

  /** installGitOps's steps: the five directories, then rendering. */
  function GitOpsPlan(cfg: Config): (plan: seq<Step>)
    ensures |plan| == |GitOpsSubdirs| + 1
    ensures forall i :: 0 <= i < |GitOpsSubdirs| ==>
      plan[i] == MakeGitOpsDir(GitOpsPath(cfg) + "/" + GitOpsSubdirs[i])
    ensures plan[|GitOpsSubdirs|] == RenderGitOps(GitOpsPath(cfg))
  {
    var path := GitOpsPath(cfg);
    seq(|GitOpsSubdirs|, i requires 0 <= i < |GitOpsSubdirs| => MakeGitOpsDir(path + "/" + GitOpsSubdirs[i]))
    + [RenderGitOps(path)]
  }

  /** Install: the system namespace first, then the path the mode selects. */
  function InstallPlan(cfg: Config): (plan: seq<Step>)
    ensures |plan| > 0 && plan[0] == CreateSystemNamespace
    ensures forall i :: 1 <= i < |plan| ==> plan[i] != CreateSystemNamespace
    ensures cfg.mode == GitOpsMode ==> plan == [CreateSystemNamespace] + GitOpsPlan(cfg)
    ensures cfg.mode != GitOpsMode ==> plan == [CreateSystemNamespace] + DirectPlan(cfg)
  {
    [CreateSystemNamespace] + (if cfg.mode == GitOpsMode then GitOpsPlan(cfg) else DirectPlan(cfg))
  }

  /** The error of each step under one observation of the cluster. */
  function StepErrors(o: InstallObservation): Step -> Option<string> {
    s => StepError(s, o)
  }

  /** Install: the planned steps, run until the first failure. */
  function Install(cfg: Config, o: InstallObservation): InstallRun {
    RunSteps(InstallPlan(cfg), StepErrors(o))
  }

  /** An install starts with the namespace, succeeds iff every planned step
      does, and otherwise returns the error of the step it stopped at. */
  lemma InstallOutcome(cfg: Config, o: InstallObservation)
    ensures var r := Install(cfg, o);
      && |r.trace| > 0 && r.trace[0] == CreateSystemNamespace
      && (r.error.None? <==> forall s :: s in InstallPlan(cfg) ==> StepError(s, o).None?)
      && (r.error.Some? ==> r.error == StepError(r.trace[|r.trace| - 1], o))
  {
    var plan := InstallPlan(cfg);
    assert (forall s :: s in plan ==> StepError(s, o).None?)
      <==> (forall i :: 0 <= i < |plan| ==> StepErrors(o)(plan[i]).None?);
  }

  /** The system namespace is attempted first; if that fails nothing else is. */
  lemma NamespaceFirst(cfg: Config, o: InstallObservation)
    ensures var r := Install(cfg, o);
      && |r.trace| > 0 && r.trace[0] == CreateSystemNamespace
      && (CreateNamespace(o.namespaceCreate).Some? ==>
            r.trace == [CreateSystemNamespace] && r.error == CreateNamespace(o.namespaceCreate))
  {
  }

  predicate IsDirectStep(s: Step) {
    s in DirectSteps
  }

  /** Mode "gitops" and only it selects the GitOps path. */
  lemma ModeSelectsPath(cfg: Config, o: InstallObservation)
    ensures cfg.mode == GitOpsMode ==>
      forall s :: s in Install(cfg, o).trace ==> !IsDirectStep(s)
    ensures cfg.mode != GitOpsMode ==>
      forall s :: s in Install(cfg, o).trace ==> s == CreateSystemNamespace || IsDirectStep(s)
  {
    if cfg.mode == GitOpsMode {
      forall s | s in Install(cfg, o).trace ensures !IsDirectStep(s) {
        TraceInPlan(cfg, o, s);
        GitOpsPlanNoDirect(cfg, s);
      }
    } else {
      forall s | s in Install(cfg, o).trace ensures s == CreateSystemNamespace || IsDirectStep(s) {
        TraceInPlan(cfg, o, s);
        DirectModePlan(cfg, s);
      }
    }
  }

  /** The GitOps path plans no direct step. */
  lemma GitOpsPlanNoDirect(cfg: Config, s: Step)
    requires cfg.mode == GitOpsMode && s in InstallPlan(cfg)
    ensures !IsDirectStep(s)
  {
    GitOpsPlanSteps(cfg);
    assert s == CreateSystemNamespace || s in GitOpsPlan(cfg);
  }

  /** Every step of the GitOps path is a directory or the rendering. */
  lemma GitOpsPlanSteps(cfg: Config)
    ensures forall s :: s in GitOpsPlan(cfg) ==> s.MakeGitOpsDir? || s.RenderGitOps?
  {
  }

  /** The steps of an install run are steps of its plan. */
  lemma TraceInPlan(cfg: Config, o: InstallObservation, s: Step)
    requires s in Install(cfg, o).trace
    ensures s in InstallPlan(cfg)
  {
  }

  /** A disabled component is never installed. */
  lemma DisabledNeverRuns(cfg: Config, o: InstallObservation, s: Step)
    requires IsDirectStep(s) && !Enabled(cfg, s)
    ensures s !in Install(cfg, o).trace
  {
    DisabledNotPlanned(cfg, s);
    if s in Install(cfg, o).trace {
      TraceInPlan(cfg, o, s);
    }
  }

  lemma DisabledNotPlanned(cfg: Config, s: Step)
    requires IsDirectStep(s) && !Enabled(cfg, s)
    ensures s !in InstallPlan(cfg)
  {
    if cfg.mode == GitOpsMode {
      GitOpsPlanSteps(cfg);
    } else {
      DirectModePlan(cfg, s);
    }
  }

  /** The direct path plans exactly the enabled components. */
  lemma DirectModePlan(cfg: Config, s: Step)
    requires cfg.mode != GitOpsMode
    ensures s in InstallPlan(cfg) <==> s == CreateSystemNamespace || (IsDirectStep(s) && Enabled(cfg, s))
  {
    assert InstallPlan(cfg) == [CreateSystemNamespace] + DirectPlan(cfg);
  }

  /** The GitOps path plans every directory under the configured path and the
      rendering into it. */
  lemma GitOpsModePlan(cfg: Config)
    requires cfg.mode == GitOpsMode
    ensures forall i :: 0 <= i < |GitOpsSubdirs| ==>
      MakeGitOpsDir(GitOpsPath(cfg) + "/" + GitOpsSubdirs[i]) in InstallPlan(cfg)
    ensures RenderGitOps(GitOpsPath(cfg)) in InstallPlan(cfg)
  {
    var g := GitOpsPlan(cfg);
    assert InstallPlan(cfg) == [CreateSystemNamespace] + g;
    assert forall i :: 0 <= i < |g| ==> InstallPlan(cfg)[i + 1] == g[i];
  }

  /** When no step fails, the run starts every planned step and succeeds. */
  lemma CleanRunRunsPlan(cfg: Config, o: InstallObservation)
    requires forall s :: s in InstallPlan(cfg) ==> StepError(s, o).None?
    ensures Install(cfg, o) == InstallRun(InstallPlan(cfg), None)
  {
    var plan := InstallPlan(cfg);
    assert forall i :: 0 <= i < |plan| ==> StepError(plan[i], o).None?;
  }

  /** Each enabled component of the direct path is installed in a run where
      no step fails. */
  lemma EnabledRuns(cfg: Config, o: InstallObservation, s: Step)
    requires cfg.mode != GitOpsMode && IsDirectStep(s) && Enabled(cfg, s)
    requires forall t :: t in InstallPlan(cfg) ==> StepError(t, o).None?
    ensures s in Install(cfg, o).trace
  {
    DirectModePlan(cfg, s);
    CleanRunRunsPlan(cfg, o);
  }

  /** The baseline policies are applied only after Kyverno was installed and
      reported ready. */
  lemma BaselineAfterKyvernoReady(cfg: Config, o: InstallObservation) returns (h: nat, i: nat, j: nat)
    requires BaselinePolicies in Install(cfg, o).trace
    ensures StepError(Kyverno, o).None? && StepError(KyvernoReady, o).None?
    ensures h < i < j < |Install(cfg, o).trace|
    ensures Install(cfg, o).trace[h] == Kyverno && Install(cfg, o).trace[i] == KyvernoReady
    ensures Install(cfg, o).trace[j] == BaselinePolicies
  {
    var plan, f := InstallPlan(cfg), StepErrors(o);
    var t := RunSteps(plan, f).trace;
    j :| 0 <= j < |t| && t[j] == BaselinePolicies;
    EarlierStepsSucceeded(plan, f, j);
    PolicyOrderInPlan(cfg, j);
    h, i :| 0 <= h < i < j && plan[h] == Kyverno && plan[i] == KyvernoReady;
    assert f(plan[h]).None? && f(plan[i]).None?;
  }

  /** Every step started before another one succeeded. */
  lemma EarlierStepsSucceeded(steps: seq<Step>, fail: Step -> Option<string>, j: nat)
    requires j < |RunSteps(steps, fail).trace|
    ensures RunSteps(steps, fail).trace[j] == steps[j]
    ensures forall i :: 0 <= i < j ==> RunSteps(steps, fail).trace[i] == steps[i] && fail(steps[i]).None?
  {
  }

  /** In every plan, Kyverno and its readiness wait come before the baseline. */
  lemma PolicyOrderInPlan(cfg: Config, j: nat)
    requires j < |InstallPlan(cfg)| && InstallPlan(cfg)[j] == BaselinePolicies
    ensures exists h, i :: 0 <= h < i < j && InstallPlan(cfg)[h] == Kyverno && InstallPlan(cfg)[i] == KyvernoReady
  {
    BaselineOnlyWithPolicy(cfg, j);
    var k := PolicyLayout(cfg);
  }

  /** The baseline policies are planned only on the direct path with the
      policy engine enabled. */
  lemma BaselineOnlyWithPolicy(cfg: Config, j: nat)
    requires j < |InstallPlan(cfg)| && InstallPlan(cfg)[j] == BaselinePolicies
    ensures cfg.mode != GitOpsMode && cfg.policy.enabled
  {
    assert InstallPlan(cfg)[j] in InstallPlan(cfg);
    if cfg.mode == GitOpsMode || !cfg.policy.enabled {
      DisabledNotPlanned(cfg, BaselinePolicies);
      if cfg.mode == GitOpsMode {
        GitOpsPlanSteps(cfg);
      }
    }
  }

  /** With the policy engine on the direct path, the engine, its wait and
      the baseline sit side by side, and the baseline nowhere else. */
  lemma PolicyLayout(cfg: Config) returns (k: nat)
    requires cfg.mode != GitOpsMode && cfg.policy.enabled
    ensures k + 2 < |InstallPlan(cfg)|
    ensures InstallPlan(cfg)[k] == Kyverno && InstallPlan(cfg)[k + 1] == KyvernoReady
    ensures forall x :: 0 <= x < |InstallPlan(cfg)| && InstallPlan(cfg)[x] == BaselinePolicies ==> x == k + 2
  {
    var pre := (if cfg.platform.metricsServer.enabled then [MetricsServer] else [])
      + (if cfg.platform.kubeStateMetrics.enabled then [KubeStateMetrics] else []);
    var post := if cfg.networkPolicy.enabled then [NetworkPolicies] else [];
    var plan := InstallPlan(cfg);
    assert plan == [CreateSystemNamespace] + pre + [Kyverno, KyvernoReady, BaselinePolicies] + post;
    k := |pre| + 1;
  }

  /** The readiness gate passes iff some poll attempt sees every desired
      replica of the Kyverno deployment ready. */
  lemma KyvernoGateIff(o: InstallObservation)
    ensures StepError(KyvernoReady, o).None? <==>
      exists i :: 0 <= i < |o.kyvernoReadiness| && o.kyvernoReadiness[i].Fetched?
        && o.kyvernoReadiness[i].value.readyReplicas == o.kyvernoReadiness[i].value.specReplicas
  {
  }

  /** The default configuration installs every direct step, in order, and
      puts GitOps manifests where an empty path would. */
  lemma DefaultPlans(profile: string, mode: string)
    ensures DirectPlan(DefaultConfig(profile, mode)) == DirectSteps
    ensures GitOpsPath(DefaultConfig(profile, mode)) == DefaultGitOpsPath
  {
  }

  // ---------------------------------------------------------------------
  // Uninstall
  // ---------------------------------------------------------------------

  /** The namespaces Uninstall deletes, in order. */
  function UninstallTargets(cfg: Config): (ns: seq<string>)
    ensures |ns| >= 2 && ns[0] == SystemNamespace && ns[1] == KyvernoNamespace
    ensures |ns| == 3 <==> cfg.demo.namespace != ""
    ensures |ns| <= 3 && (|ns| == 3 ==> ns[2] == cfg.demo.namespace)
  {
    [SystemNamespace, KyvernoNamespace] + (if cfg.demo.namespace != "" then [cfg.demo.namespace] else [])
  }

  /** A delete outcome (None when the namespace was deleted) that Uninstall
      warns about: a failure the classifier does not take for absence. */
  predicate Warns(notFound: ApiError -> bool, delete: Option<ApiError>) {
    delete.Some? && !notFound(delete.value)
  }

  /** The namespaces Uninstall warns about, in order; `deletes[i]` is the
      outcome of the i-th delete, so a namespace listed twice is judged by
      each of its deletes. */
  function Warnings(notFound: ApiError -> bool, targets: seq<string>, deletes: seq<Option<ApiError>>): (ws: seq<string>)
    requires |deletes| == |targets|
    ensures |ws| <= |targets|
    decreases |targets|
  {
    if |targets| == 0 then []
    else (if Warns(notFound, deletes[0]) then [targets[0]] else []) + Warnings(notFound, targets[1..], deletes[1..])
  }

  /** A namespace is warned about iff one of its deletes warns. */
  lemma {:induction false} WarningsMembers(notFound: ApiError -> bool, targets: seq<string>,
                                           deletes: seq<Option<ApiError>>, n: string)
    requires |deletes| == |targets|
    ensures n in Warnings(notFound, targets, deletes) <==>
      exists i :: 0 <= i < |targets| && targets[i] == n && Warns(notFound, deletes[i])
    decreases |targets|
  {
    if |targets| > 0 {
      WarningsMembers(notFound, targets[1..], deletes[1..], n);
      assert forall i :: 0 < i < |targets| ==> targets[i] == targets[1..][i - 1] && deletes[i] == deletes[1..][i - 1];
    }
  }

  /** Warnings keep the order of the deletes: they distribute over
      concatenation. */
  lemma {:induction false} WarningsAppend(notFound: ApiError -> bool,
                                          t1: seq<string>, d1: seq<Option<ApiError>>,
                                          t2: seq<string>, d2: seq<Option<ApiError>>)
    requires |d1| == |t1| && |d2| == |t2|
    ensures Warnings(notFound, t1 + t2, d1 + d2) == Warnings(notFound, t1, d1) + Warnings(notFound, t2, d2)
    decreases |t1|
  {
    if |t1| == 0 {
      assert t1 + t2 == t2 && d1 + d2 == d2;
    } else {
      assert (t1 + t2)[0] == t1[0] && (d1 + d2)[0] == d1[0];
      assert (t1 + t2)[1..] == t1[1..] + t2 && (d1 + d2)[1..] == d1[1..] + d2;
      WarningsAppend(notFound, t1[1..], d1[1..], t2, d2);
    }
  }

  /** Every target is deleted whatever happened to earlier ones; Uninstall
      itself never returns an error. */
  datatype UninstallRun = UninstallRun(deleted: seq<string>, warnings: seq<string>)

  /** Uninstall as written: absence is recognised by the error text. */
  function UninstallAsWritten(cfg: Config, deletes: seq<Option<ApiError>>): (r: UninstallRun)
    requires |deletes| == |UninstallTargets(cfg)|
    ensures r.deleted == UninstallTargets(cfg)
    ensures forall n :: n in r.warnings <==>
      exists i :: 0 <= i < |r.deleted| && r.deleted[i] == n && deletes[i].Some? && !IsNotFoundAsWritten(deletes[i].value)
    ensures r.warnings == Warnings(IsNotFoundAsWritten, UninstallTargets(cfg), deletes)
  {
    var targets := UninstallTargets(cfg);
    forall n {
      WarningsMembers(IsNotFoundAsWritten, targets, deletes, n);
    }
    UninstallRun(targets, Warnings(IsNotFoundAsWritten, targets, deletes))
  }

  /** Uninstall: absence is recognised by the reason the API reports. */
  function Uninstall(cfg: Config, deletes: seq<Option<ApiError>>): (r: UninstallRun)
    requires |deletes| == |UninstallTargets(cfg)|
    ensures r.deleted == UninstallTargets(cfg)
    ensures forall n :: n in r.deleted <==>
      n == SystemNamespace || n == KyvernoNamespace || (n == cfg.demo.namespace && n != "")
    ensures forall n :: n in r.warnings <==>
      exists i :: 0 <= i < |r.deleted| && r.deleted[i] == n && deletes[i].Some? && deletes[i].value.reason != NotFound
    ensures r.warnings == Warnings(IsNotFound, UninstallTargets(cfg), deletes)
  {
    var targets := UninstallTargets(cfg);
    forall n {
      WarningsMembers(IsNotFound, targets, deletes, n);
    }
    UninstallRun(targets, Warnings(IsNotFound, targets, deletes))
  }

  /** The API server reports a missing namespace with a text that names it:
      as written, Uninstall warns about it; as intended, it does not. */
  lemma SpuriousNotFoundWarning(cfg: Config)
    requires cfg.demo.namespace == ""
    ensures var deletes := [None, Some(ApiError(NotFound, "namespaces \"kyverno\" not found"))];
      && UninstallAsWritten(cfg, deletes).warnings == [KyvernoNamespace]
      && Uninstall(cfg, deletes).warnings == []
  {
    var deletes := [None, Some(ApiError(NotFound, "namespaces \"kyverno\" not found"))];
    assert |deletes[1].value.text| != |"not found"|;
    var targets := UninstallTargets(cfg);
    assert targets == [SystemNamespace, KyvernoNamespace];
    assert Warnings(IsNotFoundAsWritten, targets[1..], deletes[1..]) == [KyvernoNamespace];
    assert Warnings(IsNotFound, targets[1..], deletes[1..]) == [];
  }

  /** A demo namespace that repeats a system one is deleted twice, and each
      delete is judged on its own outcome. */
  lemma RepeatedTargetJudgedPerDelete(cfg: Config, e: ApiError)
    requires cfg.demo.namespace == KyvernoNamespace && e.reason == OtherReason
    ensures UninstallTargets(cfg) == [SystemNamespace, KyvernoNamespace, KyvernoNamespace]
    ensures Uninstall(cfg, [None, Some(e), None]).warnings == [KyvernoNamespace]
    ensures Uninstall(cfg, [None, None, None]).warnings == []
  {
    var targets := UninstallTargets(cfg);
    var deletes: seq<Option<ApiError>> := [None, Some(e), None];
    assert targets[2..] == [KyvernoNamespace] && deletes[2..] == [None];
    assert Warnings(IsNotFound, targets[2..], deletes[2..]) == [];
    assert Warnings(IsNotFound, targets[1..], deletes[1..]) == [KyvernoNamespace];
    var clean: seq<Option<ApiError>> := [None, None, None];
    assert Warnings(IsNotFound, targets[2..], clean[2..]) == [];
    assert Warnings(IsNotFound, targets[1..], clean[1..]) == [];
  }
}
