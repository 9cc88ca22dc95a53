/** What each resource manager wants in the cluster for a Capp, and what a successful Manage or
    CleanUp makes of the cluster's tables. A manager is named by the kind of object it manages. */
module Desired {
  import opened Objects
  import opened Cluster
  import opened Text
  import opened Naming

  const API_GROUP := "rcs.dana.io"
  const CAPP_KIND := "Capp"
  const PARENT_KEY := "rcs.dana.io/parent-capp"
  const PARENT_NS_KEY := "rcs.dana.io/parent-capp-ns"
  const MANAGED_BY_KEY := "rcs.dana.io/managed-by"
  const KUBECTL_PREFIX := "kubectl.kubernetes.io/"

  const CLASS_KEY := "autoscaling.knative.dev/class"
  const METRIC_KEY := "autoscaling.knative.dev/metric"
  const TARGET_KEY := "autoscaling.knative.dev/target"
  const DELAY_KEY := "autoscaling.knative.dev/scale-down-delay"
  const MIN_KEY := "autoscaling.knative.dev/min-scale"
  const ACTIVATION_KEY := "autoscaling.knative.dev/activation-scale"
  const MAX_KEY := "autoscaling.knative.dev/max-scale"

  const MAX_COMMON_NAME := 64

  /** The order in which the reconciler runs its managers. */
  const ORDER: seq<Kind> := [Service, NfsPvc, Certificate, DomainMapping, CNAMERecord, PingSource, KafkaSource]

  function Rank(kind: Kind): (i: nat)
    requires kind != Secret
    ensures i < |ORDER| && ORDER[i] == kind
  {
    match kind
    case Service => 0
    case NfsPvc => 1
    case Certificate => 2
    case DomainMapping => 3
    case CNAMERecord => 4
    case PingSource => 5
    case KafkaSource => 6
  }

  // ---------------------------------------------------------------- owners and labels

  function Ref(capp: Capp): OwnerRef {
    OwnerRef(CAPP_KIND, capp.id.name, capp.uid)
  }

  /** Owner references are matched by kind and name; the UID plays no part. */
  predicate SameOwner(a: OwnerRef, b: OwnerRef) {
    a.kind == b.kind && a.name == b.name
  }

  predicate HasOwner(owners: seq<OwnerRef>, ref: OwnerRef) {
    exists i :: 0 <= i < |owners| && SameOwner(owners[i], ref)
  }

  /** Overwrites the matching reference, or appends one. */
  function SetOwner(owners: seq<OwnerRef>, ref: OwnerRef): (r: seq<OwnerRef>)
    ensures ref in r && HasOwner(r, ref)
    ensures forall o :: o in owners && !SameOwner(o, ref) ==> o in r
    ensures forall o :: o in r ==> o == ref || o in owners
  {
    if owners == [] then
      assert [ref][0] == ref;
      [ref]
    else if SameOwner(owners[0], ref) then
      var r := [ref] + owners[1..];
      assert r[0] == ref;
      r
    else
      var rest := SetOwner(owners[1..], ref);
      var k :| 0 <= k < |rest| && SameOwner(rest[k], ref);
      var r := [owners[0]] + rest;
      assert r[k + 1] == rest[k];
      r
  }

  function ManagedResourceLabels(cappName: string): map<string, string> {
    map[PARENT_KEY := cappName, MANAGED_BY_KEY := "capp"]
  }

  function LabelsFor(kind: Kind, capp: Capp): map<string, string> {
    var common := ManagedResourceLabels(capp.id.name);
    if kind == CNAMERecord then common + map[PARENT_NS_KEY := capp.id.ns] else common
  }

  function Selector(kind: Kind, capp: Capp): map<string, string> {
    if kind == CNAMERecord then map[PARENT_KEY := capp.id.name, PARENT_NS_KEY := capp.id.ns]
    else map[PARENT_KEY := capp.id.name]
  }

  function Labelled(kind: Kind, t: Table, capp: Capp): set<Id> {
    Matching(t, capp.id.ns, Selector(kind, capp))
  }

  // ---------------------------------------------------------------- desired children

  predicate IsRequired(kind: Kind, capp: Capp) {
    match kind
    case Service => capp.spec.state == ENABLED
    case NfsPvc => |capp.spec.volumes| > 0
    case Certificate => capp.spec.route.tlsEnabled && capp.spec.route.hostname != ""
    case DomainMapping => capp.spec.route.hostname != ""
    case CNAMERecord => capp.spec.route.hostname != ""
    case PingSource => exists i :: 0 <= i < |capp.spec.sources| && capp.spec.sources[i].ping.Some?
    case KafkaSource => exists i :: 0 <= i < |capp.spec.sources| && capp.spec.sources[i].kafka.Some?
    case Secret => false
  }

  function Prepared(kind: Kind, capp: Capp, name: string, spec: Spec): Child {
    Child(Id(capp.id.ns, name), Obj(LabelsFor(kind, capp), map[], [], spec, NO_STATUS))
  }

  function AutoScaleClass(metric: string): string {
    if metric in {"rps", "concurrency"} then "kpa.autoscaling.knative.dev" else "hpa.autoscaling.knative.dev"
  }

  function TargetValue(metric: string, defaults: AutoscaleConfig): string {
    if metric == "rps" then Decimal(defaults.rps)
    else if metric == "cpu" then Decimal(defaults.cpu)
    else if metric == "memory" then Decimal(defaults.memory)
    else if metric == "concurrency" then Decimal(defaults.concurrency)
    else ""
  }

  function AutoScaler(scale: ScaleSpec, defaults: AutoscaleConfig, durationText: int -> string): map<string, string> {
    if scale.metric == "" then map[] else
    var m0: map<string, string> := map[CLASS_KEY := AutoScaleClass(scale.metric), METRIC_KEY := scale.metric,
                                       TARGET_KEY := TargetValue(scale.metric, defaults)];
    var m1 := if scale.scaleDelay.Some? then m0[DELAY_KEY := durationText(scale.scaleDelay.value)] else m0;
    var m2 := if scale.minReplicas.Some? then m1[MIN_KEY := Signed(scale.minReplicas.value)]
              else m1[ACTIVATION_KEY := Decimal(defaults.activationScale)];
    if scale.maxReplicas.Some? then m2[MAX_KEY := Signed(scale.maxReplicas.value)] else m2
  }

  function ForwardedAnnotations(capp: Capp): map<string, string> {
    map k | k in capp.annotations && !HasPrefix(k, API_GROUP) && !HasPrefix(k, KUBECTL_PREFIX) :: capp.annotations[k]
  }

  function VolumeNames(volumes: seq<NfsVolume>): (r: seq<string>)
    ensures |r| == |volumes|
  {
    seq(|volumes|, i requires 0 <= i < |volumes| => volumes[i].name)
  }

  function ServiceChild(capp: Capp, env: Env): Child {
    var defaulted := env.library.setDefaults(capp.spec.configuration);
    var forwarded := ForwardedAnnotations(capp);
    var scaling := AutoScaler(capp.spec.scale, env.config.autoscale, env.library.durationText);
    var configuration := defaulted.(volumes := defaulted.volumes + VolumeNames(capp.spec.volumes),
                                    annotations := forwarded + scaling);
    var child := Prepared(Service, capp, capp.id.name,
      ServiceSpec(configuration, capp.spec.route.timeout, capp.labels[PARENT_KEY := capp.id.name]));
    child.(obj := child.obj.(annotations := forwarded))
  }

  function VolumeChild(capp: Capp, v: NfsVolume): Child {
    Prepared(NfsPvc, capp, v.name, NfsPvcSpec(v.server, v.path, v.capacity))
  }

  function VolumeChildren(capp: Capp, volumes: seq<NfsVolume>): seq<Child> {
    if volumes == [] then [] else
    VolumeChildren(capp, volumes[..|volumes| - 1]) + [VolumeChild(capp, volumes[|volumes| - 1])]
  }

  function RouteName(capp: Capp, env: Env): string {
    GenerateResourceName(capp.spec.route.hostname, env.config.dns.zone)
  }

  function CertificateChild(capp: Capp, env: Env): Child {
    var name := RouteName(capp, env);
    Prepared(Certificate, capp, name,
      CertificateSpec(name[..if |name| < MAX_COMMON_NAME then |name| else MAX_COMMON_NAME], [name],
                      env.config.dns.issuer, GenerateTLSSecretName(name)))
  }

  function DomainMappingChild(capp: Capp, env: Env, secrets: Table): Child {
    var name := RouteName(capp, env);
    var secret := GenerateTLSSecretName(name);
    Prepared(DomainMapping, capp, name,
      DomainMappingSpec(capp.id.name,
        if capp.spec.route.tlsEnabled && Id(capp.id.ns, secret) in secrets then Some(secret) else None))
  }

  /** Naming the record panics when the hostname is the bare zone. */
  predicate Panics(kind: Kind, capp: Capp, env: Env) {
    && kind == CNAMERecord && IsRequired(kind, capp)
    && GenerateRecordName(capp.spec.route.hostname, env.config.dns.zone).None?
  }

  function RecordChild(capp: Capp, env: Env): Child {
    var dns := env.config.dns;
    var record := GenerateRecordName(capp.spec.route.hostname, dns.zone);
    Prepared(CNAMERecord, capp, RouteName(capp, env),
      CNAMERecordSpec(RecordParameters(if record.Some? then record.value else "", dns.zone, dns.cname),
                      Some(dns.provider), ""))
  }

  function SourceName(capp: Capp, source: Source): string {
    capp.id.name + "-" + source.name
  }

  function SinkFor(capp: Capp, source: Source): Sink {
    Sink(capp.id.name, capp.id.ns, source.uri)
  }

  function PingChild(capp: Capp, source: Source): Child
    requires source.ping.Some?
  {
    Prepared(PingSource, capp, SourceName(capp, source),
      PingSourceSpec(source.ping.value.schedule, source.ping.value.data, SinkFor(capp, source)))
  }

  function Consumers(capp: Capp, cfg: KafkaConfig): int {
    if capp.spec.state == DISABLED then 0
    else if cfg.consumers.Some? then cfg.consumers.value else 1
  }

  function KafkaChild(capp: Capp, source: Source): Child
    requires source.kafka.Some?
  {
    var cfg := source.kafka.value;
    var name := SourceName(capp, source);
    Prepared(KafkaSource, capp, name,
      KafkaSourceSpec(Consumers(capp, cfg), cfg.bootstrapServers, cfg.secret, cfg.topics,
                      if cfg.consumerGroup != "" then cfg.consumerGroup else name, SinkFor(capp, source)))
  }

  predicate IsSourceKind(kind: Kind) {
    kind == PingSource || kind == KafkaSource
  }

  predicate SourceOf(kind: Kind, source: Source) {
    (kind == PingSource && source.ping.Some?) || (kind == KafkaSource && source.kafka.Some?)
  }

  function SourceChild(kind: Kind, capp: Capp, source: Source): Child
    requires SourceOf(kind, source)
  {
    if kind == PingSource then PingChild(capp, source) else KafkaChild(capp, source)
  }

  function SourceChildren(kind: Kind, capp: Capp, sources: seq<Source>): seq<Child> {
    if sources == [] then [] else
    var before := SourceChildren(kind, capp, sources[..|sources| - 1]);
    var last := sources[|sources| - 1];
    if SourceOf(kind, last) then before + [SourceChild(kind, capp, last)] else before
  }

  /** The children a manager wants; none when its kind is not required. */
  function Children(kind: Kind, secrets: Table, capp: Capp, env: Env): seq<Child> {
    if !IsRequired(kind, capp) then [] else
    match kind
    case Service => [ServiceChild(capp, env)]
    case NfsPvc => VolumeChildren(capp, capp.spec.volumes)
    case Certificate => [CertificateChild(capp, env)]
    case DomainMapping => [DomainMappingChild(capp, env, secrets)]
    case CNAMERecord => [RecordChild(capp, env)]
    case PingSource => SourceChildren(kind, capp, capp.spec.sources)
    case KafkaSource => SourceChildren(kind, capp, capp.spec.sources)
    case Secret => []
  }

  function Ids(children: seq<Child>): set<Id> {
    set c | c in children :: c.id
  }

  // ---------------------------------------------------------------- create or update

  /** The desired spec laid over the stored one. A KafkaSource keeps the consumer group it has; a
      record keeps every field outside the provider's two. */
  function Merge(stored: Spec, desired: Spec): Spec {
    if stored.KafkaSourceSpec? && desired.KafkaSourceSpec? then desired.(consumerGroup := stored.consumerGroup)
    else if stored.CNAMERecordSpec? && desired.CNAMERecordSpec? then
      stored.(forProvider := desired.forProvider, providerConfig := desired.providerConfig)
    else desired
  }

  function Updated(o: Obj, ref: OwnerRef, desired: Obj): Obj {
    o.(spec := Merge(o.spec, desired.spec), owners := SetOwner(o.owners, ref))
  }

  function Upsert(t: Table, ref: OwnerRef, c: Child): Table {
    t[c.id := if c.id in t then Updated(t[c.id], ref, c.obj)
              else c.obj.(owners := SetOwner(c.obj.owners, ref), status := NO_STATUS)]
  }

  function UpsertAll(t: Table, ref: OwnerRef, children: seq<Child>): Table {
    if children == [] then t
    else Upsert(UpsertAll(t, ref, children[..|children| - 1]), ref, children[|children| - 1])
  }

  /** The child is there as wanted: create-or-update has nothing to write. */
  predicate Settled(t: Table, ref: OwnerRef, c: Child) {
    c.id in t && Updated(t[c.id], ref, c.obj) == t[c.id]
  }

  predicate AllSettled(t: Table, ref: OwnerRef, children: seq<Child>) {
    forall i :: 0 <= i < |children| ==> Settled(t, ref, children[i])
  }

  predicate RecordNeedsUpdate(current: Obj, desired: Obj, ref: OwnerRef)
  {
    || !current.spec.CNAMERecordSpec? || !desired.spec.CNAMERecordSpec?
    || current.spec.forProvider != desired.spec.forProvider
    || current.spec.providerConfig != desired.spec.providerConfig
    || !HasOwner(current.owners, ref)
  }

  function UpsertRecord(t: Table, ref: OwnerRef, c: Child): Table {
    if c.id in t && !RecordNeedsUpdate(t[c.id], c.obj, ref) then t else Upsert(t, ref, c)
  }

  // ---------------------------------------------------------------- removal

  /** What CleanUp deletes: everything of the Capp, or, once the Capp is being deleted, what garbage
      collection will not reach. The Knative Service is found by name, the others by label. */
  function Doomed(kind: Kind, t: Table, capp: Capp): set<Id> {
    var found := if kind == Service then (if capp.id in t then {capp.id} else {}) else Labelled(kind, t, capp);
    set id | id in found && !(capp.deleting && HasOwner(t[id].owners, Ref(capp)))
  }

  function Orphans(kind: Kind, t: Table, capp: Capp, children: seq<Child>): set<Id> {
    Labelled(kind, t, capp) - Ids(children)
  }

  function SecretId(id: Id): Id {
    Id(id.ns, GenerateTLSSecretName(id.name))
  }

  /** The TLS secrets of the Capp's listed DomainMappings, owned or not. */
  function TLSSecrets(mappings: Table, capp: Capp): set<Id> {
    set id | id in Labelled(DomainMapping, mappings, capp) :: SecretId(id)
  }

  /** What a successful CleanUp leaves. */
  ghost predicate CleanedBy(kind: Kind, before: Tables, after: Tables, capp: Capp) {
    && (forall k: Kind :: k != kind && k != Secret ==> after(k) == before(k))
    && after(kind) == before(kind) - Doomed(kind, before(kind), capp)
    && after(Secret) == if kind == DomainMapping then before(Secret) - TLSSecrets(before(kind), capp)
      else before(Secret)
  }

  /** The table of a required kind after a successful Manage. */
  function Wanted(kind: Kind, t: Table, secrets: Table, capp: Capp, env: Env): Table
    requires IsRequired(kind, capp)
  {
    var children := Children(kind, secrets, capp, env);
    if kind == CNAMERecord then UpsertRecord(t, Ref(capp), children[0]) else
    var u := UpsertAll(t, Ref(capp), children);
    if IsSourceKind(kind) then u - Orphans(kind, u, capp, children) else u
  }

  /** What a successful Manage leaves. */
  ghost predicate AppliedBy(kind: Kind, before: Tables, after: Tables, capp: Capp, env: Env) {
    if !IsRequired(kind, capp) then CleanedBy(kind, before, after, capp)
    else Only(before, after, kind) && after(kind) == Wanted(kind, before(kind), before(Secret), capp, env)
  }

  /** Manage, when it succeeds, has nothing to write. */
  predicate Quiet(kind: Kind, t: Table, secrets: Table, capp: Capp, env: Env) {
    var children := Children(kind, secrets, capp, env);
    if !IsRequired(kind, capp) then
      && Doomed(kind, t, capp) == {}
      && (kind == DomainMapping ==> TLSSecrets(t, capp) !! secrets.Keys)
    else if kind == CNAMERecord then
      children[0].id in t && !RecordNeedsUpdate(t[children[0].id], children[0].obj, Ref(capp))
    else
      && AllSettled(t, Ref(capp), children)
      && (IsSourceKind(kind) ==> Orphans(kind, t, capp, children) == {})
  }
}
