/** The verification suite: four probes, each a classification of what it
    observes in the cluster into a verdict, the dispatch of configured test
    names to probes, and the summary of a run. */
module Verify {
  import opened Cluster
  import opened Decimal
  import Poll
  import opened Config

  datatype TestResult = TestResult(name: string, status: Status, message: string)

  datatype Summary = Summary(total: nat, passed: nat, failed: nat)

  datatype Report = Report(tests: seq<TestResult>, summary: Summary)

  /** The changes a probe makes to the cluster. */
  datatype Mutation = CreatePod(pod: string) | DeletePod(pod: string)

  /** A probe's verdict together with the mutations it issued, in order. */
  datatype ProbeRun = ProbeRun(result: TestResult, effects: seq<Mutation>)

  // ---------------------------------------------------------------------
  // Observations: what the probes' API calls return.
  // ---------------------------------------------------------------------

  /** pod-selfheal: the Get of Deployment "demo", the List of pods labelled
      app=demo (their names, in listing order), the Delete of the first pod,
      and the Get of the deployment at each attempt of the recovery poll. */
  datatype SelfHealObservation = SelfHealObservation(
    deployment: Fetch<Deployment>,
    pods: Fetch<seq<string>>,
    delete: Outcome,
    recovery: seq<Fetch<Deployment>>)

  /** The part of HorizontalPodAutoscaler "demo" the probe reads. */
  datatype HpaState = HpaState(minReplicas: Option<int32>, maxReplicas: int32, currentReplicas: int32)

  /** A NetworkPolicy, by the number of its ingress and egress rules. */
  datatype NetworkPolicy = NetworkPolicy(ingressRules: nat, egressRules: nat)

  /** What a probe invocation observes. Each slot of a run has its own,
      since earlier probes may have changed the cluster. */
  datatype Observation = Observation(
    selfHeal: SelfHealObservation,
    hpa: Fetch<HpaState>,
    createPrivilegedPod: Outcome,
    networkPolicies: Fetch<seq<NetworkPolicy>>)

  const TestPodName: string := "test-privileged-pod"
  const UnknownTestMessage: string := "Unknown test"

  // ---------------------------------------------------------------------
  // pod-selfheal
  // ---------------------------------------------------------------------

  /** The recovery condition: a failed Get means "not yet"; otherwise the
      deployment has at least as many ready replicas as before the delete. */
  predicate Recovered(baseline: int32, read: Fetch<Deployment>) {
    match read
    case FetchFailed(_) => false
    case Fetched(d) => d.readyReplicas >= baseline
  }

  function RecoveredFrom(baseline: int32): Fetch<Deployment> -> bool {
    read => Recovered(baseline, read)
  }

  function PodSelfHeal(o: SelfHealObservation): (r: ProbeRun)
    ensures r.result.name == PodSelfHealTest && r.result.status != Warn
    ensures r.result.status == Skip <==> o.deployment.FetchFailed?
    ensures r.result.status == Pass <==>
      && o.deployment.Fetched?
      && o.pods.Fetched? && |o.pods.value| > 0
      && o.delete.Done?
      && exists i :: 0 <= i < |o.recovery| && o.recovery[i].Fetched?
           && o.recovery[i].value.readyReplicas >= o.deployment.value.readyReplicas
    ensures r.result.status == Pass ==>
      r.result.message == "Pod " + o.pods.value[0] + " was replaced successfully"
    ensures o.deployment.Fetched? && (o.pods.FetchFailed? || |o.pods.value| == 0) ==>
      r.result.status == Fail && r.result.message == "No demo pods found"
    ensures o.deployment.Fetched? && o.pods.Fetched? && |o.pods.value| > 0 && o.delete.Failed? ==>
      r.result.status == Fail && r.result.message == "Failed to delete pod: " + o.delete.error
    ensures (&& o.deployment.Fetched? && o.pods.Fetched? && |o.pods.value| > 0 && o.delete.Done?
             && forall i :: 0 <= i < |o.recovery| ==> !Recovered(o.deployment.value.readyReplicas, o.recovery[i]))
      ==> r.result.status == Fail && r.result.message == "Pod was not replaced within timeout"
    ensures r.effects != [] <==> o.deployment.Fetched? && o.pods.Fetched? && |o.pods.value| > 0
    ensures r.effects != [] ==> r.effects == [DeletePod(o.pods.value[0])]
  {
    match o.deployment
    case FetchFailed(e) =>
      ProbeRun(TestResult(PodSelfHealTest, Skip, "Demo app not deployed: " + e), [])
    case Fetched(d) =>
      var baseline := d.readyReplicas;
      if o.pods.FetchFailed? || |o.pods.value| == 0 then
        ProbeRun(TestResult(PodSelfHealTest, Fail, "No demo pods found"), [])
      else
        var pod := o.pods.value[0];
        var effects := [DeletePod(pod)];
        if o.delete.Failed? then
          ProbeRun(TestResult(PodSelfHealTest, Fail, "Failed to delete pod: " + o.delete.error), effects)
        else if !Poll.Succeeds(o.recovery, RecoveredFrom(baseline)) then
          ProbeRun(TestResult(PodSelfHealTest, Fail, "Pod was not replaced within timeout"), effects)
        else
          ProbeRun(TestResult(PodSelfHealTest, Pass, "Pod " + pod + " was replaced successfully"), effects)
  }

  /** A deployment with three ready replicas whose first pod is deleted,
      then a failed read and a dip before it recovers: PASS, naming the pod. */
  lemma SelfHealRecovers(pod: string, spec: int32, err: string)
    ensures var polls := [FetchFailed(err), Fetched(Deployment(spec, 2)), Fetched(Deployment(spec, 3))];
      var r := PodSelfHeal(SelfHealObservation(Fetched(Deployment(spec, 3)), Fetched([pod]), Done, polls)).result;
      r.status == Pass && r.message == "Pod " + pod + " was replaced successfully"
  {
    var polls := [FetchFailed(err), Fetched(Deployment(spec, 2)), Fetched(Deployment(spec, 3))];
    assert polls[2].Fetched? && polls[2].value.readyReplicas >= 3;
  }

  /** The same run when no attempt of the window sees the replicas back. */
  lemma SelfHealTimesOut(pod: string, spec: int32, err: string)
    ensures var polls := [FetchFailed(err), Fetched(Deployment(spec, 2))];
      var r := PodSelfHeal(SelfHealObservation(Fetched(Deployment(spec, 3)), Fetched([pod]), Done, polls)).result;
      r.status == Fail && r.message == "Pod was not replaced within timeout"
  {
  }

  // ---------------------------------------------------------------------
  // hpa-scale
  // ---------------------------------------------------------------------

  /** The configured bounds, converted to 32 bits as the source converts them. */
  predicate MinMatches(cfg: Config, h: HpaState) {
    h.minReplicas.Some? && h.minReplicas.value == Int32Of(cfg.demo.hpa.minReplicas)
  }

  predicate MaxMatches(cfg: Config, h: HpaState) {
    h.maxReplicas == Int32Of(cfg.demo.hpa.maxReplicas)
  }

  function HpaScale(cfg: Config, o: Fetch<HpaState>): (r: TestResult)
    ensures r.name == HpaScaleTest && r.status != Warn
    ensures r.status == Skip <==> o.FetchFailed?
    ensures r.status == Pass <==> o.Fetched? && MinMatches(cfg, o.value) && MaxMatches(cfg, o.value)
    ensures o.Fetched? && !MinMatches(cfg, o.value) ==> r.message == "HPA minReplicas mismatch"
    ensures o.Fetched? && MinMatches(cfg, o.value) && !MaxMatches(cfg, o.value) ==>
      r.message == "HPA maxReplicas mismatch"
    ensures r.status == Pass ==>
      (&& o.Fetched? && o.value.minReplicas.Some?
       && r.message == "HPA configured correctly (current replicas: " + IntToString(o.value.currentReplicas as int)
            + ", min: " + IntToString(o.value.minReplicas.value as int)
            + ", max: " + IntToString(o.value.maxReplicas as int) + ")")
  {
    match o
    case FetchFailed(e) =>
      TestResult(HpaScaleTest, Skip, "HPA not found: " + e)
    case Fetched(h) =>
      if h.minReplicas.None? || h.minReplicas.value != Int32Of(cfg.demo.hpa.minReplicas) then
        TestResult(HpaScaleTest, Fail, "HPA minReplicas mismatch")
      else if h.maxReplicas != Int32Of(cfg.demo.hpa.maxReplicas) then
        TestResult(HpaScaleTest, Fail, "HPA maxReplicas mismatch")
      else
        TestResult(HpaScaleTest, Pass,
          "HPA configured correctly (current replicas: " + IntToString(h.currentReplicas as int)
          + ", min: " + IntToString(h.minReplicas.value as int)
          + ", max: " + IntToString(h.maxReplicas as int) + ")")
  }

  /** For configured bounds that fit in 32 bits the comparison is exact. */
  lemma HpaScaleExact(cfg: Config, h: HpaState)
    requires -0x8000_0000 <= cfg.demo.hpa.minReplicas < 0x8000_0000
    requires -0x8000_0000 <= cfg.demo.hpa.maxReplicas < 0x8000_0000
    ensures HpaScale(cfg, Fetched(h)).status == Pass <==>
      h.minReplicas.Some? && h.minReplicas.value as int == cfg.demo.hpa.minReplicas
      && h.maxReplicas as int == cfg.demo.hpa.maxReplicas
  {
  }

  /** Beyond 32 bits the conversion wraps: a configured minimum of 2^32 + 2
      is taken to match an HPA whose minimum is 2. */
  lemma HpaScaleWraps(cfg: Config, current: int32)
    requires cfg.demo.hpa.minReplicas == 0x1_0000_0002 && cfg.demo.hpa.maxReplicas == 10
    ensures HpaScale(cfg, Fetched(HpaState(Some(2), 10, current))).status == Pass
  {
  }

  // ---------------------------------------------------------------------
  // policy-deny
  // ---------------------------------------------------------------------

  /** A privileged pod is created; the policy engine should reject it. If it
      is admitted, it is deleted again (the delete's outcome is ignored). */
  function PolicyDeny(create: Outcome): (r: ProbeRun)
    ensures r.result.name == PolicyDenyTest
    ensures r.result.status == Pass <==> create.Failed?
    ensures r.result.status == Fail <==> create.Done?
    ensures |r.effects| > 0 && r.effects[0] == CreatePod(TestPodName)
    ensures create.Done? <==> r.effects == [CreatePod(TestPodName), DeletePod(TestPodName)]
    ensures create.Failed? <==> r.effects == [CreatePod(TestPodName)]
  {
    if create.Done? then
      ProbeRun(TestResult(PolicyDenyTest, Fail, "Privileged pod was not denied by policy"),
        [CreatePod(TestPodName), DeletePod(TestPodName)])
    else
      ProbeRun(TestResult(PolicyDenyTest, Pass, "Privileged pod was correctly denied by policy"),
        [CreatePod(TestPodName)])
  }

  // ---------------------------------------------------------------------
  // network-deny
  // ---------------------------------------------------------------------

  /** A default-deny policy has neither ingress nor egress rules. */
  predicate IsDefaultDeny(p: NetworkPolicy) {
    p.ingressRules == 0 && p.egressRules == 0
  }

  /** The scan over the listed policies, stopping at the first default deny. */
  function HasDefaultDeny(ps: seq<NetworkPolicy>): (b: bool)
    ensures b <==> exists i :: 0 <= i < |ps| && IsDefaultDeny(ps[i])
    decreases |ps|
  {
    if |ps| == 0 then false
    else if IsDefaultDeny(ps[0]) then true
    else HasDefaultDeny(ps[1..])
  }

  function NetworkDeny(o: Fetch<seq<NetworkPolicy>>): (r: TestResult)
    ensures r.name == NetworkDenyTest
    ensures r.status == Skip <==> o.FetchFailed?
    ensures r.status == Fail <==> o.Fetched? && |o.value| == 0
    ensures r.status == Warn <==>
      o.Fetched? && |o.value| > 0 && forall i :: 0 <= i < |o.value| ==> !IsDefaultDeny(o.value[i])
    ensures r.status == Pass <==> o.Fetched? && exists i :: 0 <= i < |o.value| && IsDefaultDeny(o.value[i])
    ensures r.status == Warn ==>
      (o.Fetched? && r.message == "Found " + IntToString(|o.value|) + " network policies but no default deny")
    ensures r.status == Pass ==>
      (o.Fetched? && r.message == "Network policies configured (" + IntToString(|o.value|) + " policies including default deny)")
  {
    match o
    case FetchFailed(e) =>
      TestResult(NetworkDenyTest, Skip, "Cannot list network policies: " + e)
    case Fetched(ps) =>
      if |ps| == 0 then
        TestResult(NetworkDenyTest, Fail, "No network policies found")
      else if !HasDefaultDeny(ps) then
        TestResult(NetworkDenyTest, Warn,
          "Found " + IntToString(|ps|) + " network policies but no default deny")
      else
        TestResult(NetworkDenyTest, Pass,
          "Network policies configured (" + IntToString(|ps|) + " policies including default deny)")
  }

  // ---------------------------------------------------------------------
  // Dispatch and the run
  // ---------------------------------------------------------------------

  datatype Probe = PodSelfHealProbe | HpaScaleProbe | PolicyDenyProbe | NetworkDenyProbe

  function ProbeName(p: Probe): string {
    match p
    case PodSelfHealProbe => PodSelfHealTest
    case HpaScaleProbe => HpaScaleTest
    case PolicyDenyProbe => PolicyDenyTest
    case NetworkDenyProbe => NetworkDenyTest
  }

  /** The closed registry: the probe a test name selects, if any. */
  function ProbeNamed(name: string): (r: Option<Probe>)
    ensures r.Some? ==> ProbeName(r.value) == name
    ensures forall p: Probe :: ProbeName(p) == name ==> r == Some(p)
  {
    if name == PodSelfHealTest then Some(PodSelfHealProbe)
    else if name == HpaScaleTest then Some(HpaScaleProbe)
    else if name == PolicyDenyTest then Some(PolicyDenyProbe)
    else if name == NetworkDenyTest then Some(NetworkDenyProbe)
    else None
  }

  /** One iteration of the run: the probe the name selects, or a SKIP. */
  function Dispatch(name: string, cfg: Config, o: Observation): (r: ProbeRun)
    ensures r.result.name == name
    ensures ProbeNamed(name).None? ==>
      r.result.status == Skip && r.result.message == UnknownTestMessage && r.effects == []
    ensures ProbeNamed(name).Some? ==> r.result.message != UnknownTestMessage
    ensures name == PodSelfHealTest ==> r == PodSelfHeal(o.selfHeal)
    ensures name == HpaScaleTest ==> r == ProbeRun(HpaScale(cfg, o.hpa), [])
    ensures name == PolicyDenyTest ==> r == PolicyDeny(o.createPrivilegedPod)
    ensures name == NetworkDenyTest ==> r == ProbeRun(NetworkDeny(o.networkPolicies), [])
  {
    match ProbeNamed(name)
    case Some(PodSelfHealProbe) => PodSelfHeal(o.selfHeal)
    case Some(HpaScaleProbe) => ProbeRun(HpaScale(cfg, o.hpa), [])
    case Some(PolicyDenyProbe) => PolicyDeny(o.createPrivilegedPod)
    case Some(NetworkDenyProbe) => ProbeRun(NetworkDeny(o.networkPolicies), [])
    case None => ProbeRun(TestResult(name, Skip, UnknownTestMessage), [])
  }

  /** Number of results with the given status. */
  function Count(tests: seq<TestResult>, s: Status): (n: nat)
    ensures n <= |tests|
    decreases |tests|
  {
    if |tests| == 0 then 0
    else Count(tests[..|tests| - 1], s) + (if tests[|tests| - 1].status == s then 1 else 0)
  }

  /** The summary a report carries: all results, the PASS ones, the FAIL ones. */
  function Summarize(tests: seq<TestResult>): Summary {
    Summary(|tests|, Count(tests, Pass), Count(tests, Fail))
  }

  /** Runs every configured test, in order; `world[i]` is what the i-th
      invocation observes. No result aborts the run. */
  method RunAll(cfg: Config, world: seq<Observation>) returns (report: Report)
    requires |world| == |cfg.verify.tests|
    ensures |report.tests| == |cfg.verify.tests|
    ensures forall i :: 0 <= i < |report.tests| ==>
      report.tests[i] == Dispatch(cfg.verify.tests[i], cfg, world[i]).result
    ensures report.summary == Summarize(report.tests)
  {
    var names := cfg.verify.tests;
    var tests: seq<TestResult> := [];
    for i := 0 to |names|
      invariant |tests| == i
      invariant forall j :: 0 <= j < i ==> tests[j] == Dispatch(names[j], cfg, world[j]).result
    {
      var run := Dispatch(names[i], cfg, world[i]);
      tests := tests + [run.result];
    }
    var summary := Tally(tests);
    report := Report(tests, summary);
  }

  /** The summary loop of RunAll: counts every result, the PASS ones and the
      FAIL ones. */
  method Tally(tests: seq<TestResult>) returns (summary: Summary)
    ensures summary == Summarize(tests)
  {
    var passed, failed := 0, 0;
    for i := 0 to |tests|
      invariant passed == Count(tests[..i], Pass)
      invariant failed == Count(tests[..i], Fail)
    {
      assert tests[..i + 1][..i] == tests[..i];
      if tests[i].status == Pass {
        passed := passed + 1;
      } else if tests[i].status == Fail {
        failed := failed + 1;
      }
    }
    assert tests[..|tests|] == tests;
    summary := Summary(|tests|, passed, failed);
  }

  /** The verdict of the whole run: no test failed. */
  predicate AllPassed(r: Report) {
    r.summary.failed == 0
  }

  /** PASS and FAIL are disjoint, and WARN and SKIP count in neither. */
  lemma {:induction false} PassedPlusFailedBound(tests: seq<TestResult>)
    ensures Count(tests, Pass) + Count(tests, Fail) <= |tests|
    ensures Count(tests, Pass) + Count(tests, Fail) == |tests| <==>
      forall i :: 0 <= i < |tests| ==> tests[i].status == Pass || tests[i].status == Fail
    decreases |tests|
  {
    if |tests| > 0 {
      var init := tests[..|tests| - 1];
      PassedPlusFailedBound(init);
      assert forall i :: 0 <= i < |init| ==> init[i] == tests[i];
    }
  }

  lemma {:induction false} CountZeroIff(tests: seq<TestResult>, s: Status)
    ensures Count(tests, s) == 0 <==> forall i :: 0 <= i < |tests| ==> tests[i].status != s
    decreases |tests|
  {
    if |tests| > 0 {
      var init := tests[..|tests| - 1];
      CountZeroIff(init, s);
      assert forall i :: 0 <= i < |init| ==> init[i] == tests[i];
    }
  }

  /** A consistent report passes iff none of its tests failed; in particular
      an empty run and a run of only WARN and SKIP results pass. */
  lemma AllPassedIffNoFailure(r: Report)
    requires r.summary == Summarize(r.tests)
    ensures AllPassed(r) <==> forall i :: 0 <= i < |r.tests| ==> r.tests[i].status != Fail
  {
    CountZeroIff(r.tests, Fail);
  }

  /** The default test list names every probe of the registry, and only
      those, so verifying with the default configuration never reports an
      unknown test. */
  lemma DefaultTestsAreKnown(profile: string, mode: string, world: seq<Observation>)
    requires |world| == 4
    ensures var cfg := DefaultConfig(profile, mode);
      && |cfg.verify.tests| == 4
      && (forall p: Probe :: ProbeName(p) in cfg.verify.tests)
      && forall i :: 0 <= i < 4 ==>
           ProbeNamed(cfg.verify.tests[i]).Some?
           && Dispatch(cfg.verify.tests[i], cfg, world[i]).result.message != UnknownTestMessage
  {
  }
}
