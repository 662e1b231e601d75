/** Every optional setting by name, and how a merge decides it. */
module ConfigFields {
  import opened Text
  import opened Lists
  import opened ConfigTypes

  datatype PathField =
    ProjectRoot | LocalProviderEnv | RestateCloudEnv | DataDir | CacheDir

  datatype EndpointField =
    RestateIngress | RestateAdmin | CoordinatorUrl | SandboxRunnerUrl | RunnerRegistryUrl |
    ToolRegistryUrl | NotifierUrl | MemoryGatewayUrl | GoalStoreUrl | EventGatewayUrl | ControlMcpUrl

  datatype GatewayField =
    Provider | BaseUrl | ChatCompletionsUrl | AuthEnv | DefaultModel | WorkModel | ResearchModel |
    ChatModel | EmbeddingModel

  datatype LocalDeployField =
    RestateCloudEnvFile | AllowStubRunners | AllowUninitialized

  datatype CloudField =
    Provider | Region | SecretProvider | ObjectStore

  datatype RestateCloudField =
    EnvFile | TunnelName | Region | ServiceUrl | LocalIngressUrl | LocalAdminUrl | CoordinatorUrl

  datatype KubernetesField =
    Distribution | Kubectl | Context | Kubeconfig | Namespace | Manifest | RenderedManifest |
    HelmRelease | HelmChart | ImageRegistry | ServiceAccount | SecretProvider | WorkloadIdentity |
    ObjectStore

  datatype CliField =
    OutputFormat | InteractiveSetup | WarnUninitialized | RequireProjectForDurableCommands

  datatype DefaultField =
    GoalStoreUrl | RestateIngress | LatestGoalSelector

  datatype Field =
    | ModelRoutingMode
    | DefaultPolicy
    | Lane(name: string)
    | Paths(path: PathField)
    | Endpoint(endpoint: EndpointField)
    | Gateway(gateway: GatewayField)
    | Local(local: LocalDeployField)
    | OfCloud(cloud: CloudField)
    | OfRestateCloud(restateCloud: RestateCloudField)
    | OfKubernetes(kubernetes: KubernetesField)
    | OfCli(cli: CliField)
    | Default(defaultField: DefaultField)

  function ReadPathField(v: ConfigPaths, f: PathField): Option<string> {
    match f
    case ProjectRoot => v.projectRoot
    case LocalProviderEnv => v.localProviderEnv
    case RestateCloudEnv => v.restateCloudEnv
    case DataDir => v.dataDir
    case CacheDir => v.cacheDir
  }

  function ReadEndpointField(v: ServiceEndpoints, f: EndpointField): Option<string> {
    match f
    case RestateIngress => v.restateIngress
    case RestateAdmin => v.restateAdmin
    case CoordinatorUrl => v.coordinatorUrl
    case SandboxRunnerUrl => v.sandboxRunnerUrl
    case RunnerRegistryUrl => v.runnerRegistryUrl
    case ToolRegistryUrl => v.toolRegistryUrl
    case NotifierUrl => v.notifierUrl
    case MemoryGatewayUrl => v.memoryGatewayUrl
    case GoalStoreUrl => v.goalStoreUrl
    case EventGatewayUrl => v.eventGatewayUrl
    case ControlMcpUrl => v.controlMcpUrl
  }

  function ReadGatewayField(v: LlmGateway, f: GatewayField): Option<string> {
    match f
    case Provider => v.provider
    case BaseUrl => v.baseUrl
    case ChatCompletionsUrl => v.chatCompletionsUrl
    case AuthEnv => v.authEnv
    case DefaultModel => v.defaultModel
    case WorkModel => v.workModel
    case ResearchModel => v.researchModel
    case ChatModel => v.chatModel
    case EmbeddingModel => v.embeddingModel
  }

  function ReadLocalDeployField(v: LocalDeploy, f: LocalDeployField): Option<string> {
    match f
    case RestateCloudEnvFile => v.restateCloudEnvFile
    case AllowStubRunners => v.allowStubRunners
    case AllowUninitialized => v.allowUninitialized
  }

  function ReadCloudField(v: Cloud, f: CloudField): Option<string> {
    match f
    case Provider => v.provider
    case Region => v.region
    case SecretProvider => v.secretProvider
    case ObjectStore => v.objectStore
  }

  function ReadRestateCloudField(v: RestateCloud, f: RestateCloudField): Option<string> {
    match f
    case EnvFile => v.envFile
    case TunnelName => v.tunnelName
    case Region => v.region
    case ServiceUrl => v.serviceUrl
    case LocalIngressUrl => v.localIngressUrl
    case LocalAdminUrl => v.localAdminUrl
    case CoordinatorUrl => v.coordinatorUrl
  }

  function ReadKubernetesField(v: Kubernetes, f: KubernetesField): Option<string> {
    match f
    case Distribution => v.distribution
    case Kubectl => v.kubectl
    case Context => v.context
    case Kubeconfig => v.kubeconfig
    case Namespace => v.namespace
    case Manifest => v.manifest
    case RenderedManifest => v.renderedManifest
    case HelmRelease => v.helmRelease
    case HelmChart => v.helmChart
    case ImageRegistry => v.imageRegistry
    case ServiceAccount => v.serviceAccount
    case SecretProvider => v.secretProvider
    case WorkloadIdentity => v.workloadIdentity
    case ObjectStore => v.objectStore
  }

  function ReadCliField(v: Cli, f: CliField): Option<string> {
    match f
    case OutputFormat => v.outputFormat
    case InteractiveSetup => v.interactiveSetup
    case WarnUninitialized => v.warnUninitialized
    case RequireProjectForDurableCommands => v.requireProjectForDurableCommands
  }

  function ReadDefaultField(v: OperatorDefaults, f: DefaultField): Option<string> {
    match f
    case GoalStoreUrl => v.goalStoreUrl
    case RestateIngress => v.restateIngress
    case LatestGoalSelector => v.latestGoalSelector
  }

  function PolicyOf(policies: map<string, string>, lane: string): Option<string> {
    if lane in policies then Some(policies[lane]) else None
  }

  function Read(s: Settings, field: Field): Option<string> {
    match field
    case ModelRoutingMode => s.modelRouting.mode
    case DefaultPolicy => s.runnerCapacity.defaultPolicy
    case Lane(name) => PolicyOf(s.runnerCapacity.lanePolicies, name)
    case Paths(f) => ReadPathField(s.paths, f)
    case Endpoint(f) => ReadEndpointField(s.serviceEndpoints, f)
    case Gateway(f) => ReadGatewayField(s.modelRouting.gateway, f)
    case Local(f) => ReadLocalDeployField(s.localDeploy, f)
    case OfCloud(f) => ReadCloudField(s.cloud, f)
    case OfRestateCloud(f) => ReadRestateCloudField(s.cloud.restateCloud, f)
    case OfKubernetes(f) => ReadKubernetesField(s.kubernetes, f)
    case OfCli(f) => ReadCliField(s.cli, f)
    case Default(f) => ReadDefaultField(s.defaults, f)
  }

  // ---------------------------------------------------------------------------------------------
  // A merge decides every field by itself
  // ---------------------------------------------------------------------------------------------

  /** Merging decides every optional field by itself: the overlay's value, if present, wins. */
  lemma FieldLayered(base: Settings, overlay: Settings, field: Field)
    ensures Read(MergedSettings(base, overlay), field) == ReplaceIfSome(Read(base, field), Read(overlay, field))
  {
    match field {
      case OfKubernetes(f) => KubernetesFieldLayered(base.kubernetes, overlay.kubernetes, f);
      case _ =>
    }
  }

  lemma KubernetesFieldLayered(base: Kubernetes, overlay: Kubernetes, f: KubernetesField)
    ensures ReadKubernetesField(MergedKubernetes(base, overlay), f) ==
      ReplaceIfSome(ReadKubernetesField(base, f), ReadKubernetesField(overlay, f))
  {
  }

  // ---------------------------------------------------------------------------------------------
  // Lists
  // ---------------------------------------------------------------------------------------------

  datatype ListField =
    GatewaySecretRefs | DirectProviderSecretRefs | EnvFiles | ComposeProfiles | HelmValues

  function ReadList(s: Settings, field: ListField): seq<string> {
    match field
    case GatewaySecretRefs => s.modelRouting.gateway.secretRefs
    case DirectProviderSecretRefs => s.modelRouting.directProviderSecretRefs
    case EnvFiles => s.localDeploy.envFiles
    case ComposeProfiles => s.localDeploy.profiles
    case HelmValues => s.kubernetes.helmValues
  }

  /** Merging appends the overlay's new elements to every list. */
  lemma ListLayered(base: Settings, overlay: Settings, field: ListField)
    ensures ReadList(MergedSettings(base, overlay), field) ==
      AppendUnique(ReadList(base, field), ReadList(overlay, field))
  {
  }

  // ---------------------------------------------------------------------------------------------
  // Tool routing
  // ---------------------------------------------------------------------------------------------

  datatype ToolField =
    Enabled | Mode | ToolProvider | ToolBaseUrl | ToolAuthEnv | DefaultLimit | MaxLimit | RouteViaRunnerRegistry

  datatype ToolListField = ToolSecretRefs | RequiredCapabilities | RequiredModelFeatures

  function ReadTool(t: WebSearchRouting, field: ToolField): Option<string> {
    match field
    case Enabled => t.enabled
    case Mode => t.mode
    case ToolProvider => t.provider
    case ToolBaseUrl => t.baseUrl
    case ToolAuthEnv => t.authEnv
    case DefaultLimit => t.defaultLimit
    case MaxLimit => t.maxLimit
    case RouteViaRunnerRegistry => t.routeViaRunnerRegistry
  }

  function ReadToolList(t: WebSearchRouting, field: ToolListField): seq<string> {
    match field
    case ToolSecretRefs => t.secretRefs
    case RequiredCapabilities => t.requiredCapabilities
    case RequiredModelFeatures => t.requiredModelFeatures
  }

  lemma ToolFieldLayered(base: WebSearchRouting, overlay: WebSearchRouting, field: ToolField, list: ToolListField)
    ensures ReadTool(MergedWebSearchRouting(base, overlay), field) ==
      ReplaceIfSome(ReadTool(base, field), ReadTool(overlay, field))
    ensures ReadToolList(MergedWebSearchRouting(base, overlay), list) ==
      AppendUnique(ReadToolList(base, list), ReadToolList(overlay, list))
  {
  }

  /** The first present value of a list of layers, the strongest first. */
  function FirstPresent(layers: seq<Option<string>>): Option<string> {
    if layers == [] then None
    else if layers[0].Some? then layers[0]
    else FirstPresent(layers[1..])
  }
}
