/** The API objects the operator reads and writes. Pod templates, issuers, quantities and payloads
    stay opaque values; maps and sequences are values, so nil and empty are the same thing. */
module Objects {
  datatype Option<+T> = None | Some(value: T)

  // ---------------------------------------------------------------- child objects

  datatype Kind = Service | NfsPvc | Certificate | DomainMapping | CNAMERecord | PingSource | KafkaSource | Secret

  datatype Id = Id(ns: string, name: string)

  /** `kind` stands for the group and kind of the owner. */
  datatype OwnerRef = OwnerRef(kind: string, name: string, uid: string)

  datatype Condition = Condition(ctype: string, status: string, reason: string, message: string, since: int)

  /** What the other controllers report on a child. */
  datatype Status = Status(conditions: seq<Condition>, latestCreated: string, latestReady: string,
                           pvPhase: string, pvcPhase: string)

  const NO_STATUS := Status([], "", "", "", "")

  datatype Sink = Sink(name: string, ns: string, uri: Option<string>)

  datatype RecordParameters = RecordParameters(name: string, zone: string, cname: string)

  datatype Spec =
    | ServiceSpec(configuration: Configuration, timeout: Option<int>, labels: map<string, string>)
    | NfsPvcSpec(server: string, path: string, capacity: map<string, int>)
    | CertificateSpec(commonName: string, dnsNames: seq<string>, issuer: string, secretName: string)
    | DomainMappingSpec(ref: string, tls: Option<string>)
    | CNAMERecordSpec(forProvider: RecordParameters, providerConfig: Option<string>, rest: string)
    | PingSourceSpec(schedule: string, data: string, sink: Sink)
    | KafkaSourceSpec(consumers: int, bootstrapServers: seq<string>, secret: string, topics: seq<string>,
                      consumerGroup: string, sink: Sink)
    | SecretSpec(content: map<string, string>)

  function KindOf(s: Spec): Kind {
    match s
    case ServiceSpec(_, _, _) => Service
    case NfsPvcSpec(_, _, _) => NfsPvc
    case CertificateSpec(_, _, _, _) => Certificate
    case DomainMappingSpec(_, _) => DomainMapping
    case CNAMERecordSpec(_, _, _) => CNAMERecord
    case PingSourceSpec(_, _, _) => PingSource
    case KafkaSourceSpec(_, _, _, _, _, _) => KafkaSource
    case SecretSpec(_) => Secret
  }

  datatype Obj = Obj(labels: map<string, string>, annotations: map<string, string>, owners: seq<OwnerRef>,
                     spec: Spec, status: Status)

  type Table = map<Id, Obj>

  /** One table of objects for each kind. */
  type Tables = Kind -> Table

  /** A Knative revision, made by Knative and only listed by the operator. */
  datatype KnativeRevision = KnativeRevision(id: Id, configuration: string, created: int, status: string)

  // ---------------------------------------------------------------- the Capp

  datatype Container = Container(name: string, mounts: seq<string>, requests: map<string, int>,
                                 limits: map<string, int>)

  /** A Knative configuration; `pod` is the rest of the pod template. */
  datatype Configuration = Configuration(pod: string, annotations: map<string, string>,
                                         containers: seq<Container>, volumes: seq<string>)

  datatype ScaleSpec = ScaleSpec(metric: string, minReplicas: Option<int>, maxReplicas: Option<int>,
                                 scaleDelay: Option<int>)

  datatype RouteSpec = RouteSpec(hostname: string, tlsEnabled: bool, timeout: Option<int>)

  datatype NfsVolume = NfsVolume(server: string, path: string, name: string, capacity: map<string, int>)

  datatype PingConfig = PingConfig(schedule: string, data: string)

  datatype KafkaConfig = KafkaConfig(bootstrapServers: seq<string>, topics: seq<string>, consumerGroup: string,
                                     consumers: Option<int>, secret: string)

  datatype Source = Source(name: string, uri: Option<string>, ping: Option<PingConfig>, kafka: Option<KafkaConfig>)

  datatype CappSpec = CappSpec(state: string, scale: ScaleSpec, configuration: Configuration, route: RouteSpec,
                               passwordSecret: string, volumes: seq<NfsVolume>, sources: seq<Source>)

  const ENABLED := "enabled"
  const DISABLED := "disabled"

  datatype StateStatus = StateStatus(state: string, lastChange: int)

  datatype RevisionInfo = RevisionInfo(name: string, status: string)

  datatype RouteStatus = RouteStatus(domainMapping: Status, cname: Status, certificate: Status)

  datatype VolumeStatus = VolumeStatus(name: string, pvPhase: string, pvcPhase: string)

  datatype EventSourceStatus = EventSourceStatus(name: string, condition: Condition)

  datatype CappStatus = CappStatus(knative: Status, revisions: seq<RevisionInfo>, state: StateStatus,
                                   route: RouteStatus, volumes: seq<VolumeStatus>,
                                   events: seq<EventSourceStatus>, conditions: seq<Condition>)

  datatype Capp = Capp(id: Id, uid: string, labels: map<string, string>, annotations: map<string, string>,
                       spec: CappSpec, finalizers: set<string>, deleting: bool, status: CappStatus)

  // ---------------------------------------------------------------- the configuration

  datatype DnsConfig = DnsConfig(zone: string, cname: string, provider: string, issuer: string)

  datatype AutoscaleConfig = AutoscaleConfig(rps: nat, cpu: nat, memory: nat, concurrency: nat,
                                             activationScale: nat, minReplicasLimit: int, maxReplicasLimit: int,
                                             maxScaleDelay: int)

  datatype CappConfig = CappConfig(dns: DnsConfig, autoscale: AutoscaleConfig, defaultRequests: map<string, int>,
                                   defaultLimits: map<string, int>, revisionHistoryLimit: int, maxKafkaConsumers: int)

  /** Library functions the operator calls and does not define: Knative's defaulting of a
      configuration and Go's text form of a duration. Both are deterministic. */
  datatype Library = Library(setDefaults: Configuration -> Configuration, durationText: int -> string)

  datatype Env = Env(config: CappConfig, library: Library)
}
