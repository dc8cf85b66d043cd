/** The kubac configuration record and its default. Loading and writing the
    YAML file are not modelled; the record is what they would produce. */
module Config {

  datatype GitOpsConfig = GitOpsConfig(provider: string, repoURL: string, branch: string, path: string)

  datatype ComponentConfig = ComponentConfig(enabled: bool, version: string)

  datatype IngressConfig = IngressConfig(enabled: bool, provider: string, version: string)

  datatype PlatformConfig = PlatformConfig(
    metricsServer: ComponentConfig,
    kubeStateMetrics: ComponentConfig,
    prometheusStack: ComponentConfig,
    ingress: IngressConfig,
    certManager: ComponentConfig)

  datatype PolicyConfig = PolicyConfig(
    enabled: bool,
    provider: string,
    version: string,
    podSecurityStandard: string,
    customPolicies: seq<string>)

  datatype NetworkPolicyConfig = NetworkPolicyConfig(enabled: bool, defaultDeny: bool, systemNamespaces: seq<string>)

  datatype NodeAutoscalerConfig = NodeAutoscalerConfig(enabled: bool, provider: string, version: string)

  datatype AutoscalingConfig = AutoscalingConfig(hpaEnabled: bool, nodeAutoscaler: NodeAutoscalerConfig)

  datatype ResourceList = ResourceList(cpu: string, memory: string)

  datatype ResourcesSpec = ResourcesSpec(requests: ResourceList, limits: ResourceList)

  /** Go `int` fields; they are compared with 32-bit values after a conversion
      (see Verify.HpaScale). */
  datatype HpaSpec = HpaSpec(minReplicas: int, maxReplicas: int, targetCPUUtilization: int)

  datatype DemoConfig = DemoConfig(
    namespace: string,
    replicas: int,
    resources: ResourcesSpec,
    hpa: HpaSpec,
    pdbMinAvailable: int)

  datatype VerifyConfig = VerifyConfig(timeout: string, parallel: bool, tests: seq<string>)

  datatype Config = Config(
    clusterProfile: string,
    mode: string,
    gitOps: GitOpsConfig,
    platform: PlatformConfig,
    policy: PolicyConfig,
    networkPolicy: NetworkPolicyConfig,
    autoscaling: AutoscalingConfig,
    demo: DemoConfig,
    verify: VerifyConfig)

  /** The repository path GitOps manifests go to when none is configured; the
      default configuration names the same path. */
  const DefaultGitOpsPath: string := "clusters/my-cluster"

  /** The probe names the verifier dispatches, in the order of the default
      test list. */
  const PodSelfHealTest: string := "pod-selfheal"
  const HpaScaleTest: string := "hpa-scale"
  const PolicyDenyTest: string := "policy-deny"
  const NetworkDenyTest: string := "network-deny"

  /** The configuration `kubac init` writes for a profile and a mode. */
  function DefaultConfig(profile: string, mode: string): (c: Config)
    ensures c.clusterProfile == profile && c.mode == mode
    ensures c.platform.metricsServer.enabled && c.policy.enabled && c.networkPolicy.enabled
    ensures c.gitOps.path == DefaultGitOpsPath
    ensures c.demo.hpa.minReplicas <= c.demo.hpa.maxReplicas
  {
    Config(
      profile,
      mode,
      GitOpsConfig("flux", "", "main", DefaultGitOpsPath),
      PlatformConfig(
        ComponentConfig(true, "v0.7.0"),
        ComponentConfig(true, "v2.10.1"),
        ComponentConfig(false, "v55.5.0"),
        IngressConfig(false, "nginx", "v1.9.5"),
        ComponentConfig(false, "v1.13.3")),
      PolicyConfig(true, "kyverno", "v1.11.4", "restricted",
        ["require-non-root-user", "require-ro-rootfs", "disallow-privileged"]),
      NetworkPolicyConfig(true, true, ["kube-system", "kube-public", "kubac-system"]),
      AutoscalingConfig(true, NodeAutoscalerConfig(false, "cluster-autoscaler", "v1.29.0")),
      DemoConfig(
        "kubac-demo",
        2,
        ResourcesSpec(ResourceList("100m", "128Mi"), ResourceList("200m", "256Mi")),
        HpaSpec(2, 10, 50),
        1),
      VerifyConfig("300s", true, [PodSelfHealTest, HpaScaleTest, PolicyDenyTest, NetworkDenyTest]))
  }
}
