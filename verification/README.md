# kubac decision logic in Dafny

kubac is a command-line tool that bootstraps a Kubernetes cluster. It installs
metrics-server, kube-state-metrics, the Kyverno policy engine with baseline
policies and network policies, either directly or as a GitOps layout. It then
runs smoke tests against the live cluster. Under its client-go glue sit three
pieces of sequential decision logic, and this project models and proves them:

- **verification** (`internal/verify/verifier.go`): `RunAll` dispatches each
  configured test name to one of four probes (pod-selfheal, hpa-scale,
  policy-deny, network-deny) and summarises the results. Each probe
  classifies what it observes into PASS, FAIL, WARN or SKIP.
- **installation** (`internal/install/installer.go`): `Install` creates the
  `kubac-system` namespace. It then runs the GitOps path, or the direct path:
  a configuration-gated, fail-fast sequence of manifest bundles with one
  readiness gate (Kyverno) before the baseline policies. `applyManifests`,
  `waitForDeployment`, `createNamespace` and `Uninstall` are modelled too.
- **preflight** (`internal/doctor/doctor.go`): `RunChecks` runs four checks in
  a fixed order, `checkNodes` counts ready nodes, and `AllPassed` is false
  exactly when some check failed.
- **default configuration** (`internal/config/config.go`): `DefaultConfig`.
  Its flags drive the install plan and its test list drives `RunAll`.

Every call into the Kubernetes API, the filesystem or `kubectl` becomes an
**observation**: a record of what the call returned, which the model gets as
input. Examples are `Fetch<T>` (a value or an error text), `Outcome` (done or
an error text) and `ApiError` (a reason and a text). A poll
(`wait.PollImmediate`) is the finite sequence of observations its attempts
see before the timeout, and it succeeds iff some attempt satisfies the
condition. Error values are modelled as the text Go's `%v` prints, and the
installer's `fmt.Errorf("…: %w", err)` wrapping is written out. Go's `%d` is
`Decimal.IntToString`. The conversion `int32(x)` in hpa-scale wraps explicitly
(`Cluster.Int32Of`).

Files, one module each: `cluster.dfy` (shared vocabulary), `decimal.dfy`,
`poll.dfy`, `config.dfy`, `verify.dfy`, `install.dfy`, `doctor.dfy`.

The installer is modelled as data plus one fold. `InstallPlan(cfg)` is the
list of steps the source's `if`-chains would reach: the namespace, then either
`GitOpsPlan` or `DirectPlan`. `RunSteps` is the fail-fast fold over such a
list, given the error each step would end with. `Install` is that fold over
`InstallPlan(cfg)`, with the errors `StepError` reads from the observation.
`StepError` wraps the error of the step's call (`StepCause`) in the step's
context (`StepContext`), as the installer's `fmt.Errorf` calls do. An install
run records the steps it started (`trace`) and the error it returns.
`Uninstall` gets one delete outcome per target, in target order.

## Model

| member | source | states |
|---|---|---|
| Cluster.Int32Of | internal/verify/verifier.go:197-205 | Go's `int32(x)` keeps x modulo 2^32 and is the identity on 32-bit values |
| Decimal.NatRoundTrip | internal/doctor/doctor.go:216-220 | `%d` of a count reads back as that count |
| Decimal.IntRoundTrip | internal/verify/verifier.go:216-221 | `%d` of a 32-bit value, sign included, reads back as that value |
| Decimal.IntToStringInjective | internal/verify/verifier.go:296-307 | different counts never print alike in a message |
| Poll.FirstSatisfied | internal/verify/verifier.go:159-165 | the poll stops at the first satisfying attempt; with none, no attempt satisfied the condition |
| Poll.Evaluations | internal/install/installer.go:249-256 | the condition is evaluated at every attempt up to and including the first satisfied one, and at every attempt of the window when none is satisfied; the last evaluation of a successful poll is satisfied |
| Poll.SucceedsIff | internal/install/installer.go:249-256 | a poll succeeds iff some attempt in the window satisfies the condition |
| Poll.Immediacy | internal/verify/verifier.go:159 | "poll immediately": a condition already true succeeds after one evaluation |
| Poll.Tolerance | internal/verify/verifier.go:160-163 | failed reads count as "not yet": k unsatisfied attempts followed by a satisfied one succeed at attempt k |
| Config.DefaultConfig | internal/config/config.go:128-224 | echoes profile and mode; metrics-server, policy and network policy are enabled; the GitOps path is the installer's fallback; min replicas <= max replicas |
| Verify.PodSelfHeal | internal/verify/verifier.go:118-180 | SKIP iff the deployment Get failed. PASS iff pods were listed, the first pod's delete succeeded and some poll attempt saw at least the baseline of ready replicas; the PASS message names that pod. FAIL says "No demo pods found" when the list failed or was empty, "Failed to delete pod: " and the error when the delete failed, and "Pod was not replaced within timeout" when no attempt saw the replicas back. The only mutation is the delete of the first listed pod, issued iff a pod was found |
| Verify.SelfHealRecovers | internal/verify/verifier.go:146-179 | a read error and a dip before recovery still give PASS naming the deleted pod |
| Verify.SelfHealTimesOut | internal/verify/verifier.go:158-173 | a window with no recovered attempt gives FAIL "Pod was not replaced within timeout" |
| Verify.HpaScale | internal/verify/verifier.go:183-222 | SKIP iff the HPA Get failed; PASS iff minReplicas is set and both bounds equal the configured ones as int32; the min mismatch is reported before the max mismatch; never WARN; the PASS message prints current, min and max replicas in decimal |
| Verify.HpaScaleExact | internal/verify/verifier.go:197-211 | for configured bounds within 32 bits, PASS iff the HPA's bounds equal them exactly |
| Verify.HpaScaleWraps | internal/verify/verifier.go:197 | a configured minimum of 2^32+2 matches an HPA minimum of 2 |
| Verify.PolicyDeny | internal/verify/verifier.go:225-263 | PASS iff creating the privileged pod was rejected. If it was admitted: FAIL, and the same pod is deleted after the create |
| Verify.HasDefaultDeny | internal/verify/verifier.go:288-294 | the scan finds a policy with no ingress and no egress rules iff one exists |
| Verify.NetworkDeny | internal/verify/verifier.go:266-309 | SKIP iff the list failed; FAIL iff no policies; WARN iff policies but none default-deny; PASS iff some policy is default-deny; the WARN and PASS messages print the number of policies in decimal |
| Verify.ProbeNamed | internal/verify/verifier.go:82-97 | the registry is closed: a name selects the probe with that name and no other |
| Verify.Dispatch | internal/verify/verifier.go:82-97 | the result carries the test's name. Each of the four registered names yields the result and effects of its own probe: pod-selfheal, hpa-scale, policy-deny, network-deny. An unregistered name gives SKIP "Unknown test" with no mutation, and a registered one never gives that message |
| Verify.RunAll | internal/verify/verifier.go:71-115 | one result per configured name, in order, each the dispatched probe's result; the summary counts all results, the PASS ones and the FAIL ones |
| Verify.Tally | internal/verify/verifier.go:105-112 | the summary loop computes the count of all results, of the PASS ones and of the FAIL ones |
| Verify.PassedPlusFailedBound | internal/verify/verifier.go:105-112 | passed + failed <= total, with equality iff there is no WARN or SKIP |
| Verify.CountZeroIff | internal/verify/verifier.go:106-112 | a status counts zero iff no result has it |
| Verify.AllPassedIffNoFailure | internal/verify/verifier.go:312-314 | a run passes iff no test failed, so an empty run or one of only WARN/SKIP passes |
| Verify.DefaultTestsAreKnown | internal/config/config.go:213-221 | the default test list names all four probes and only them, so it never yields "Unknown test" |
| Install.IsAlreadyExistsAsWritten | internal/install/installer.go:364-366 | as written, already-exists is recognised only when the error text is exactly "already exists" |
| Install.CreateNamespaceAsWritten | internal/install/installer.go:232-245 | createNamespace as written succeeds iff the create succeeded or the error text is exactly "already exists" |
| Install.AlreadyExistsTextMismatch | internal/install/installer.go:239-244 | an AlreadyExists error whose text names the namespace fails createNamespace as written but is tolerated as intended |
| Install.NotFoundTextMismatch | internal/install/installer.go:368-370 | a NotFound error whose text names the namespace is not recognised by the text comparison |
| Install.CreateNamespace | internal/install/installer.go:232-245 | success iff the create succeeded or reported AlreadyExists; any other error is returned unchanged |
| Install.Ext | internal/install/installer.go:185 | `filepath.Ext` is empty iff the last path element has no '.'; otherwise it is the suffix from that element's last '.', with no other '.' or '/' in it |
| Install.ExtScan | internal/install/installer.go:185 | the backward scan over the first n characters is empty iff they hold no '.' after their last '/'; otherwise it stops at the last such '.' |
| Install.ExtOfSuffix | internal/install/installer.go:185 | a name ending in a '.'-led suffix with no other '.' or '/' has exactly that suffix as its extension |
| Install.ManifestNameIff | internal/install/installer.go:181-187 | an entry is applied iff it is not a directory and its name ends in ".yaml" or ".yml" |
| Install.Manifests | internal/install/installer.go:180-187 | the selected entries are all manifests and no more numerous than the listing |
| Install.ManifestsMembers | internal/install/installer.go:180-187 | an entry is selected iff it is listed and is a manifest |
| Install.ManifestsAppend | internal/install/installer.go:180 | selection keeps listing order: it distributes over concatenation |
| Install.ApplyAll | internal/install/installer.go:188-199 | the applied paths are the leading manifests, in order, each read and applied without error. No error iff all manifests were applied; otherwise the error is that of the first manifest not applied |
| Install.ApplyEntries | internal/install/installer.go:180-201 | the loop, which skips directories and non-manifests as it goes, has the same outcome as applying the listing's manifests in order (ApplyAll) |
| Install.ApplyManifests | internal/install/installer.go:174-202 | a listing error is reported before anything is applied; success iff the listing worked and every manifest reads and applies; for a readable listing the run is ApplyAll over the listing's manifests: applied in listing order up to the first read or apply failure, which ends it with that manifest's error |
| Install.WaitForDeployment | internal/install/installer.go:248-257 | nil iff some attempt read the deployment with ready replicas equal to desired replicas; otherwise the poll's timeout error |
| Install.RunSteps | internal/install/installer.go:82-133 | for any step errors: the started steps are a prefix of the plan; all but the last succeeded; no error iff every planned step succeeds; otherwise the error is the last started step's |
| Install.FirstFailureStops | internal/install/installer.go:84-130 | when step k is the first to fail, exactly steps 0..k are started and k's error is returned |
| Install.StepOutcome | internal/install/installer.go:84-161 | what each step's success rests on: the namespace create succeeds or reports AlreadyExists; a bundle lists and every manifest in it reads and applies; the Kyverno poll succeeds; the directory is created; the rendering works |
| Install.StepErrorContext | internal/install/installer.go:86-161 | a failing step other than the namespace returns its own context, ": ", then the error of the call it made |
| Install.KyvernoNotReadyError | internal/install/installer.go:111-113 | a failed readiness wait reports "kyverno not ready: " and the poll's timeout text |
| Install.DirectPlan | internal/install/installer.go:84-130 | a direct step is planned iff its flag is on; planned steps keep the order metrics-server, kube-state-metrics, kyverno, readiness wait, baseline, network policies |
| Install.GitOpsPath | internal/install/installer.go:139-142 | a configured path is used as is, and an empty one falls back to the default configuration's path |
| Install.GitOpsPlan | internal/install/installer.go:145-162 | the five directories under the path, in order, then rendering into the path |
| Install.InstallPlan | internal/install/installer.go:66-79 | the system namespace comes first and only first; after it comes the GitOps plan in mode "gitops" and the direct plan in any other mode |
| Install.InstallOutcome | internal/install/installer.go:66-79 | an install starts with the namespace, succeeds iff every planned step does, and otherwise returns the error of the step it stopped at |
| Install.DirectModePlan | internal/install/installer.go:75-78 | any mode but "gitops" plans exactly the namespace and the enabled direct components |
| Install.GitOpsModePlan | internal/install/installer.go:75-76 | mode "gitops" plans all five directories under the GitOps path and the rendering into it |
| Install.CleanRunRunsPlan | internal/install/installer.go:66-79 | when no planned step fails, every planned step is started and the install returns no error |
| Install.EnabledRuns | internal/install/installer.go:84-130 | on the direct path, an enabled component is installed in a run where no step fails |
| Install.NamespaceFirst | internal/install/installer.go:69-72 | the namespace is attempted first; if it fails, nothing else is started and its error is returned |
| Install.ModeSelectsPath | internal/install/installer.go:75-78 | mode "gitops" never starts a direct step; any other mode starts only direct steps after the namespace |
| Install.GitOpsPlanNoDirect | internal/install/installer.go:75-78 | the GitOps path plans no direct component step |
| Install.DisabledNeverRuns | internal/install/installer.go:84-130 | a component whose flag is off is never started |
| Install.DisabledNotPlanned | internal/install/installer.go:84-130 | a component whose flag is off is not in the plan |
| Install.BaselineAfterKyvernoReady | internal/install/installer.go:102-121 | baseline policies start only after Kyverno installed and its readiness wait succeeded, in that order; the positions are returned |
| Install.PolicyOrderInPlan | internal/install/installer.go:102-121 | in any plan the Kyverno install and readiness wait precede the baseline policies |
| Install.KyvernoGateIff | internal/install/installer.go:109-113 | the Kyverno gate passes iff some attempt sees every desired replica ready |
| Install.DefaultPlans | internal/config/config.go:136-173 | the default configuration plans every direct step, in order, and uses the default GitOps path |
| Install.UninstallTargets | internal/install/installer.go:266-269 | kubac-system, kyverno, then the demo namespace iff it is non-empty |
| Install.Warnings | internal/install/installer.go:271-277 | a warning is printed per delete that failed for a reason the classifier does not take for absence, never more than there are targets |
| Install.WarningsMembers | internal/install/installer.go:271-277 | a namespace is warned about iff one of its deletes failed for a reason other than absence |
| Install.WarningsAppend | internal/install/installer.go:271 | warnings follow the order of the deletes: they distribute over concatenation |
| Install.UninstallAsWritten | internal/install/installer.go:260-280 | as written: every target is deleted; the warnings are Warnings with the text comparison: one per failed delete whose text is not exactly "not found", in delete order |
| Install.SpuriousNotFoundWarning | internal/install/installer.go:368-370 | a NotFound error whose text names the namespace makes Uninstall as written warn about kyverno; the corrected Uninstall stays silent |
| Install.Uninstall | internal/install/installer.go:260-280 | every target is deleted, in order, whatever the earlier deletes did; the warnings are Warnings by reason: one per delete that failed for a reason other than NotFound, in delete order; no error is returned |
| Install.RepeatedTargetJudgedPerDelete | internal/install/installer.go:266-277 | a demo namespace named kyverno is deleted twice, and each delete is judged on its own outcome |
| Doctor.CheckKubectl | internal/doctor/doctor.go:56-72 | PASS with kubectl's output iff it ran, FAIL otherwise |
| Doctor.CheckClusterAccess | internal/doctor/doctor.go:74-121 | FAIL iff config, client or namespace list failed; WARN iff reachable but the raw kubeconfig cannot be read; PASS names the context; never SKIP |
| Doctor.CheckPermissions | internal/doctor/doctor.go:123-163 | SKIP iff config or client failed; FAIL iff the namespace list failed after they succeeded; else PASS; never WARN |
| Doctor.HasReadyCondition | internal/doctor/doctor.go:200-205 | the scan finds a Ready=True condition iff one exists |
| Doctor.ReadyNodes | internal/doctor/doctor.go:198-206 | each node counts at most once, so ready <= nodes; zero iff no node is ready; all iff every node is ready |
| Doctor.ReadyNodesAppend | internal/doctor/doctor.go:198-206 | the count is additive over a split of the node list |
| Doctor.ReadyNodesSingle | internal/doctor/doctor.go:199-205 | one node counts one iff it has a Ready=True condition |
| Doctor.CheckNodes | internal/doctor/doctor.go:165-221 | SKIP iff config or client failed; WARN iff the node list failed; FAIL iff no listed node is ready; PASS says "r/n nodes ready" |
| Doctor.RunChecks | internal/doctor/doctor.go:36-54 | exactly four checks: kubectl, cluster-access, permissions, nodes, in that order. Each slot holds its own check's result |
| Doctor.AllPassed | internal/doctor/doctor.go:224-231 | true iff no check is FAIL; PASS, WARN and SKIP do not block |
| Doctor.PreflightVerdict | internal/doctor/doctor.go:36-54 | the preflight passes iff kubectl runs, the cluster is reachable, namespaces can be listed once a client exists, and a readable node list has a ready node |

## Findings

| source | as written | input that shows it | evidently intended | confidence | as-written member | corrected member |
|---|---|---|---|---|---|---|
| internal/install/installer.go:364-366 | `isAlreadyExists` is true only when the whole error text equals "already exists" | an AlreadyExists error whose text is `namespaces "kubac-system" already exists` makes `createNamespace` fail, so a second `install` aborts at the namespace | tolerate every error whose reason is AlreadyExists | medium: the API server's wording is outside this model; not executed | Install.CreateNamespaceAsWritten | Install.CreateNamespace |
| internal/install/installer.go:368-370 | `isNotFound` is true only when the whole error text equals "not found" | a NotFound error whose text is `namespaces "kyverno" not found` prints a spurious warning in `Uninstall` | stay silent for every error whose reason is NotFound | medium: the API server's wording is outside this model; not executed | Install.UninstallAsWritten | Install.Uninstall |

The rest of the model uses the corrected, reason-based classifiers
`IsAlreadyExists` and `IsNotFound`.

## Left out

- Durations and timestamps of results and reports: wall-clock time is not modelled.
- The poll's interval and timeouts (5s, 60s, 120s) and its sleeping. The model receives the attempts the window would hold. It does not require at least one attempt, although `PollImmediate` always makes one.
- Printing: `PrintSummary`, `PrintText`, `PrintJSON`, the installer's progress lines and the GitOps "next steps" text.
- `WriteReport`, `LoadConfig` and `WriteConfig`: JSON and YAML encoding belong to libraries that are not part of this model.
- `applyManifest`: JSON decoding and the naive "+s" pluralisation of the resource. Its outcome per file is an observation.
- `internal/render/renderer.go`: `RenderGitOpsManifests` is one observed outcome.
- The CLI (`internal/cli/*.go`, `cmd/kubac/main.go`): flags, prompts and exit codes.
- Kubeconfig loading and client construction, except as observed outcomes.
- `DeployDemo`, `RunLoadTest`, `RunChaosTest` and `CleanupDemo`: demo commands outside the installer's install and uninstall logic.
- `filepath.Join`'s path cleaning: paths are joined with "/". This matches the source for clean bundle paths and entry names, but not for a configured GitOps path with a trailing or doubled '/'.
- `os.ReadDir` sorts entries by name. The model takes the listing in the order given.
- Install.WaitForDeployment: `*deployment.Spec.Replicas` is read as a number. The nil dereference the source would panic on is not modelled (the API server defaults the field).
- Install.Uninstall: the printed warning is modelled as the list of warned namespaces, not as text.
