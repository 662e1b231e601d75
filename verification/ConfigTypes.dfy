/** The layered configuration and the merge of its parts. Optional values, whatever their type in
    the program, are kept as text: they are only copied. */
module ConfigTypes {
  import opened Text
  import opened Lists

  datatype ConfigPaths = ConfigPaths(
    projectRoot: Option<string>,
    localProviderEnv: Option<string>,
    restateCloudEnv: Option<string>,
    dataDir: Option<string>,
    cacheDir: Option<string>)

  datatype ServiceEndpoints = ServiceEndpoints(
    restateIngress: Option<string>,
    restateAdmin: Option<string>,
    coordinatorUrl: Option<string>,
    sandboxRunnerUrl: Option<string>,
    runnerRegistryUrl: Option<string>,
    toolRegistryUrl: Option<string>,
    notifierUrl: Option<string>,
    memoryGatewayUrl: Option<string>,
    goalStoreUrl: Option<string>,
    eventGatewayUrl: Option<string>,
    controlMcpUrl: Option<string>)

  datatype LlmGateway = LlmGateway(
    provider: Option<string>,
    baseUrl: Option<string>,
    chatCompletionsUrl: Option<string>,
    authEnv: Option<string>,
    secretRefs: seq<string>,
    defaultModel: Option<string>,
    workModel: Option<string>,
    researchModel: Option<string>,
    chatModel: Option<string>,
    embeddingModel: Option<string>)

  datatype ModelRouting = ModelRouting(
    mode: Option<string>,
    gateway: LlmGateway,
    directProviderSecretRefs: seq<string>)

  datatype WebSearchRouting = WebSearchRouting(
    enabled: Option<string>,
    mode: Option<string>,
    provider: Option<string>,
    baseUrl: Option<string>,
    authEnv: Option<string>,
    secretRefs: seq<string>,
    defaultLimit: Option<string>,
    maxLimit: Option<string>,
    routeViaRunnerRegistry: Option<string>,
    requiredCapabilities: seq<string>,
    requiredModelFeatures: seq<string>)

  datatype LocalDeploy = LocalDeploy(
    envFiles: seq<string>,
    restateCloudEnvFile: Option<string>,
    allowStubRunners: Option<string>,
    allowUninitialized: Option<string>,
    profiles: seq<string>)

  datatype RunnerCapacity = RunnerCapacity(
    defaultPolicy: Option<string>,
    lanePolicies: map<string, string>)

  datatype RestateCloud = RestateCloud(
    envFile: Option<string>,
    tunnelName: Option<string>,
    region: Option<string>,
    serviceUrl: Option<string>,
    localIngressUrl: Option<string>,
    localAdminUrl: Option<string>,
    coordinatorUrl: Option<string>)

  datatype Cloud = Cloud(
    provider: Option<string>,
    region: Option<string>,
    secretProvider: Option<string>,
    objectStore: Option<string>,
    restateCloud: RestateCloud)

  datatype Kubernetes = Kubernetes(
    distribution: Option<string>,
    kubectl: Option<string>,
    context: Option<string>,
    kubeconfig: Option<string>,
    namespace: Option<string>,
    manifest: Option<string>,
    renderedManifest: Option<string>,
    helmRelease: Option<string>,
    helmChart: Option<string>,
    helmValues: seq<string>,
    imageRegistry: Option<string>,
    serviceAccount: Option<string>,
    secretProvider: Option<string>,
    workloadIdentity: Option<string>,
    objectStore: Option<string>)

  datatype Cli = Cli(
    outputFormat: Option<string>,
    interactiveSetup: Option<string>,
    warnUninitialized: Option<string>,
    requireProjectForDurableCommands: Option<string>)

  datatype OperatorDefaults = OperatorDefaults(
    goalStoreUrl: Option<string>,
    restateIngress: Option<string>,
    latestGoalSelector: Option<string>)

  /** The nine groups of settings that a configuration and each of its profiles hold alike. */
  datatype Settings = Settings(
    paths: ConfigPaths,
    serviceEndpoints: ServiceEndpoints,
    modelRouting: ModelRouting,
    localDeploy: LocalDeploy,
    runnerCapacity: RunnerCapacity,
    cloud: Cloud,
    kubernetes: Kubernetes,
    cli: Cli,
    defaults: OperatorDefaults)

  datatype Profile = Profile(
    name: string,
    kind: string,
    description: string,
    toolRouting: WebSearchRouting,
    settings: Settings)

  datatype Config = Config(
    activeProfile: Option<string>,
    profiles: seq<Profile>,
    toolRouting: WebSearchRouting,
    settings: Settings)

  // ---------------------------------------------------------------------------------------------
  // Merging one part
  // ---------------------------------------------------------------------------------------------

  function ReplaceIfSome<T>(slot: Option<T>, value: Option<T>): Option<T> {
    if value.Some? then value else slot
  }

  function MergedConfigPaths(base: ConfigPaths, overlay: ConfigPaths): ConfigPaths {
    ConfigPaths(
      ReplaceIfSome(base.projectRoot, overlay.projectRoot),
      ReplaceIfSome(base.localProviderEnv, overlay.localProviderEnv),
      ReplaceIfSome(base.restateCloudEnv, overlay.restateCloudEnv),
      ReplaceIfSome(base.dataDir, overlay.dataDir),
      ReplaceIfSome(base.cacheDir, overlay.cacheDir))
  }

  function MergedServiceEndpoints(base: ServiceEndpoints, overlay: ServiceEndpoints): ServiceEndpoints {
    ServiceEndpoints(
      ReplaceIfSome(base.restateIngress, overlay.restateIngress),
      ReplaceIfSome(base.restateAdmin, overlay.restateAdmin),
      ReplaceIfSome(base.coordinatorUrl, overlay.coordinatorUrl),
      ReplaceIfSome(base.sandboxRunnerUrl, overlay.sandboxRunnerUrl),
      ReplaceIfSome(base.runnerRegistryUrl, overlay.runnerRegistryUrl),
      ReplaceIfSome(base.toolRegistryUrl, overlay.toolRegistryUrl),
      ReplaceIfSome(base.notifierUrl, overlay.notifierUrl),
      ReplaceIfSome(base.memoryGatewayUrl, overlay.memoryGatewayUrl),
      ReplaceIfSome(base.goalStoreUrl, overlay.goalStoreUrl),
      ReplaceIfSome(base.eventGatewayUrl, overlay.eventGatewayUrl),
      ReplaceIfSome(base.controlMcpUrl, overlay.controlMcpUrl))
  }

  function MergedLlmGateway(base: LlmGateway, overlay: LlmGateway): LlmGateway {
    LlmGateway(
      ReplaceIfSome(base.provider, overlay.provider),
      ReplaceIfSome(base.baseUrl, overlay.baseUrl),
      ReplaceIfSome(base.chatCompletionsUrl, overlay.chatCompletionsUrl),
      ReplaceIfSome(base.authEnv, overlay.authEnv),
      AppendUnique(base.secretRefs, overlay.secretRefs),
      ReplaceIfSome(base.defaultModel, overlay.defaultModel),
      ReplaceIfSome(base.workModel, overlay.workModel),
      ReplaceIfSome(base.researchModel, overlay.researchModel),
      ReplaceIfSome(base.chatModel, overlay.chatModel),
      ReplaceIfSome(base.embeddingModel, overlay.embeddingModel))
  }

  function MergedModelRouting(base: ModelRouting, overlay: ModelRouting): ModelRouting {
    ModelRouting(
      ReplaceIfSome(base.mode, overlay.mode),
      MergedLlmGateway(base.gateway, overlay.gateway),
      AppendUnique(base.directProviderSecretRefs, overlay.directProviderSecretRefs))
  }

  function MergedWebSearchRouting(base: WebSearchRouting, overlay: WebSearchRouting): WebSearchRouting {
    WebSearchRouting(
      ReplaceIfSome(base.enabled, overlay.enabled),
      ReplaceIfSome(base.mode, overlay.mode),
      ReplaceIfSome(base.provider, overlay.provider),
      ReplaceIfSome(base.baseUrl, overlay.baseUrl),
      ReplaceIfSome(base.authEnv, overlay.authEnv),
      AppendUnique(base.secretRefs, overlay.secretRefs),
      ReplaceIfSome(base.defaultLimit, overlay.defaultLimit),
      ReplaceIfSome(base.maxLimit, overlay.maxLimit),
      ReplaceIfSome(base.routeViaRunnerRegistry, overlay.routeViaRunnerRegistry),
      AppendUnique(base.requiredCapabilities, overlay.requiredCapabilities),
      AppendUnique(base.requiredModelFeatures, overlay.requiredModelFeatures))
  }

  function MergedLocalDeploy(base: LocalDeploy, overlay: LocalDeploy): LocalDeploy {
    LocalDeploy(
      AppendUnique(base.envFiles, overlay.envFiles),
      ReplaceIfSome(base.restateCloudEnvFile, overlay.restateCloudEnvFile),
      ReplaceIfSome(base.allowStubRunners, overlay.allowStubRunners),
      ReplaceIfSome(base.allowUninitialized, overlay.allowUninitialized),
      AppendUnique(base.profiles, overlay.profiles))
  }

  function MergedRunnerCapacity(base: RunnerCapacity, overlay: RunnerCapacity): RunnerCapacity {
    RunnerCapacity(
      ReplaceIfSome(base.defaultPolicy, overlay.defaultPolicy),
      base.lanePolicies + overlay.lanePolicies)
  }

  function MergedRestateCloud(base: RestateCloud, overlay: RestateCloud): RestateCloud {
    RestateCloud(
      ReplaceIfSome(base.envFile, overlay.envFile),
      ReplaceIfSome(base.tunnelName, overlay.tunnelName),
      ReplaceIfSome(base.region, overlay.region),
      ReplaceIfSome(base.serviceUrl, overlay.serviceUrl),
      ReplaceIfSome(base.localIngressUrl, overlay.localIngressUrl),
      ReplaceIfSome(base.localAdminUrl, overlay.localAdminUrl),
      ReplaceIfSome(base.coordinatorUrl, overlay.coordinatorUrl))
  }

  function MergedCloud(base: Cloud, overlay: Cloud): Cloud {
    Cloud(
      ReplaceIfSome(base.provider, overlay.provider),
      ReplaceIfSome(base.region, overlay.region),
      ReplaceIfSome(base.secretProvider, overlay.secretProvider),
      ReplaceIfSome(base.objectStore, overlay.objectStore),
      MergedRestateCloud(base.restateCloud, overlay.restateCloud))
  }

  function MergedKubernetes(base: Kubernetes, overlay: Kubernetes): Kubernetes {
    Kubernetes(
      ReplaceIfSome(base.distribution, overlay.distribution),
      ReplaceIfSome(base.kubectl, overlay.kubectl),
      ReplaceIfSome(base.context, overlay.context),
      ReplaceIfSome(base.kubeconfig, overlay.kubeconfig),
      ReplaceIfSome(base.namespace, overlay.namespace),
      ReplaceIfSome(base.manifest, overlay.manifest),
      ReplaceIfSome(base.renderedManifest, overlay.renderedManifest),
      ReplaceIfSome(base.helmRelease, overlay.helmRelease),
      ReplaceIfSome(base.helmChart, overlay.helmChart),
      AppendUnique(base.helmValues, overlay.helmValues),
      ReplaceIfSome(base.imageRegistry, overlay.imageRegistry),
      ReplaceIfSome(base.serviceAccount, overlay.serviceAccount),
      ReplaceIfSome(base.secretProvider, overlay.secretProvider),
      ReplaceIfSome(base.workloadIdentity, overlay.workloadIdentity),
      ReplaceIfSome(base.objectStore, overlay.objectStore))
  }

  function MergedCli(base: Cli, overlay: Cli): Cli {
    Cli(
      ReplaceIfSome(base.outputFormat, overlay.outputFormat),
      ReplaceIfSome(base.interactiveSetup, overlay.interactiveSetup),
      ReplaceIfSome(base.warnUninitialized, overlay.warnUninitialized),
      ReplaceIfSome(base.requireProjectForDurableCommands, overlay.requireProjectForDurableCommands))
  }

  function MergedOperatorDefaults(base: OperatorDefaults, overlay: OperatorDefaults): OperatorDefaults {
    OperatorDefaults(
      ReplaceIfSome(base.goalStoreUrl, overlay.goalStoreUrl),
      ReplaceIfSome(base.restateIngress, overlay.restateIngress),
      ReplaceIfSome(base.latestGoalSelector, overlay.latestGoalSelector))
  }

  function MergedSettings(base: Settings, overlay: Settings): Settings {
    Settings(
      MergedConfigPaths(base.paths, overlay.paths),
      MergedServiceEndpoints(base.serviceEndpoints, overlay.serviceEndpoints),
      MergedModelRouting(base.modelRouting, overlay.modelRouting),
      MergedLocalDeploy(base.localDeploy, overlay.localDeploy),
      MergedRunnerCapacity(base.runnerCapacity, overlay.runnerCapacity),
      MergedCloud(base.cloud, overlay.cloud),
      MergedKubernetes(base.kubernetes, overlay.kubernetes),
      MergedCli(base.cli, overlay.cli),
      MergedOperatorDefaults(base.defaults, overlay.defaults))
  }

  /** The profile of an overlay merged into the one of the same name; its tool routing is not. */
  function MergedProfile(base: Profile, overlay: Profile): (merged: Profile)
    ensures merged.name == base.name && merged.toolRouting == base.toolRouting && merged.kind == overlay.kind
    ensures overlay.description != "" ==> merged.description == overlay.description
    ensures overlay.description == "" ==> merged.description == base.description
  {
    Profile(
      base.name,
      overlay.kind,
      if overlay.description != "" then overlay.description else base.description,
      base.toolRouting,
      MergedSettings(base.settings, overlay.settings))
  }
}
