/** The status the operator derives for a Capp from what it observes
    (internal/kinds/capp/status). The logging part is not modelled. */
module StatusSync {
  import opened Objects
  import opened Cluster
  import opened Desired
  import opened Sorting
  import opened Text

  const READY := "Ready"
  const PAGE_LIMIT := 100

  const RESOURCE_SYNC_FAILED := "ResourceSyncFailed"
  const DOMAIN_MAPPING_NOT_READY := "DomainMappingNotReady"
  const CERTIFICATE_NOT_READY := "CertificateNotReady"
  const VOLUMES_NOT_READY := "VolumesNotReady"
  const EVENTING_NOT_READY := "EventingNotReady"
  const KNATIVE_NOT_READY := "KnativeServiceNotReady"

  /** A failed Manage, as SyncApplication collects it. */
  datatype ManagerError = ManagerError(kind: Kind, error: ApiError)

  function ErrorText(e: ManagerError): string {
    match e.error
    case NotFound => "not found"
    case AlreadyExists => "already exists"
    case Conflict => "conflict"
    case Forbidden => "forbidden"
    case ServerError => "server error"
    case Panic => "panic"
  }

  // ---------------------------------------------------------------- the Ready condition

  /** The first condition of type Ready. */
  function FindReady(conditions: seq<Condition>): Option<Condition> {
    if conditions == [] then None
    else if conditions[0].ctype == READY then Some(conditions[0])
    else FindReady(conditions[1..])
  }

  /** The first condition of type Ready that is not true, as the route checks look for it. */
  function FindUnready(conditions: seq<Condition>): Option<Condition> {
    if conditions == [] then None
    else if conditions[0].ctype == READY && conditions[0].status != "True" then Some(conditions[0])
    else FindUnready(conditions[1..])
  }

  predicate Bound(v: VolumeStatus) {
    v.pvPhase == "Bound" && v.pvcPhase == "Bound"
  }

  function FindUnbound(volumes: seq<VolumeStatus>): Option<VolumeStatus> {
    if volumes == [] then None
    else if !Bound(volumes[0]) then Some(volumes[0])
    else FindUnbound(volumes[1..])
  }

  function FindUnreadySource(events: seq<EventSourceStatus>): Option<EventSourceStatus> {
    if events == [] then None
    else if events[0].condition.status != "True" then Some(events[0])
    else FindUnreadySource(events[1..])
  }

  /** Why the Knative Service is not ready, if it is not. */
  function KnativeNotReady(ks: Status): Option<string> {
    if ks.conditions == [] then Some("Knative Service has no status yet")
    else if ks.latestCreated != "" && ks.latestCreated != ks.latestReady then
      Some("latest revision " + ks.latestCreated + " is not ready")
    else
      match FindReady(ks.conditions)
      case Some(c) => if c.status == "True" then None else Some(c.message)
      case None => Some("Knative Service Ready condition not found")
  }

  function ReadyFalse(reason: string, message: string): Condition {
    Condition(READY, "False", reason, message, 0)
  }

  /** The cascade: sync errors first, then each required child. */
  function ComputeReady(status: CappStatus, capp: Capp, errors: seq<ManagerError>): Condition {
    if errors != [] then ReadyFalse(RESOURCE_SYNC_FAILED, ErrorText(errors[0])) else
    var mapping := FindUnready(status.route.domainMapping.conditions);
    if IsRequired(DomainMapping, capp) && mapping.Some? then
      ReadyFalse(DOMAIN_MAPPING_NOT_READY, mapping.value.message) else
    var certificate := FindUnready(status.route.certificate.conditions);
    if IsRequired(Certificate, capp) && certificate.Some? then
      ReadyFalse(CERTIFICATE_NOT_READY, certificate.value.message) else
    var volume := FindUnbound(status.volumes);
    if IsRequired(NfsPvc, capp) && volume.Some? then
      ReadyFalse(VOLUMES_NOT_READY, "NFS volume " + volume.value.name + " is not bound") else
    var source := FindUnreadySource(status.events);
    if (IsRequired(PingSource, capp) || IsRequired(KafkaSource, capp)) && source.Some? then
      ReadyFalse(EVENTING_NOT_READY, "event source " + source.value.name + " is not ready") else
    var knative := KnativeNotReady(status.knative);
    if knative.Some? then ReadyFalse(KNATIVE_NOT_READY, knative.value) else
    Condition(READY, "True", "Ready", "Capp is ready", 0)
  }

  predicate NoneUnready(conditions: seq<Condition>) {
    forall c :: c in conditions && c.ctype == READY ==> c.status == "True"
  }

  /** The first condition of type Ready is the one at `i`, and it is true. */
  predicate FirstReadyTrue(conditions: seq<Condition>, i: int) {
    && 0 <= i < |conditions| && conditions[i].ctype == READY && conditions[i].status == "True"
    && forall j :: 0 <= j < i ==> conditions[j].ctype != READY
  }

  /** The Service reports Ready, and no revision newer than the ready one was created. */
  predicate KnativeServing(ks: Status) {
    && (ks.latestCreated == "" || ks.latestCreated == ks.latestReady)
    && exists i :: 0 <= i < |ks.conditions| && FirstReadyTrue(ks.conditions, i)
  }

  lemma {:induction false} FindReadyIff(conditions: seq<Condition>)
    ensures (FindReady(conditions).Some? && FindReady(conditions).value.status == "True")
       <==> exists i :: FirstReadyTrue(conditions, i)
  {
    if conditions != [] && conditions[0].ctype != READY {
      var rest := conditions[1..];
      FindReadyIff(rest);
      if i :| FirstReadyTrue(conditions, i) {
        assert FirstReadyTrue(rest, i - 1);
      }
      if k :| FirstReadyTrue(rest, k) {
        assert FirstReadyTrue(conditions, k + 1);
      }
    } else if conditions != [] {
      assert FirstReadyTrue(conditions, 0) <==> conditions[0].status == "True";
    }
  }

  lemma {:induction false} FindUnreadyIff(conditions: seq<Condition>)
    ensures FindUnready(conditions).None? <==> NoneUnready(conditions)
  {
    if conditions != [] {
      FindUnreadyIff(conditions[1..]);
      assert conditions == [conditions[0]] + conditions[1..];
    }
  }

  lemma {:induction false} FindUnboundIff(volumes: seq<VolumeStatus>)
    ensures FindUnbound(volumes).None? <==> forall v :: v in volumes ==> Bound(v)
  {
    if volumes != [] {
      FindUnboundIff(volumes[1..]);
      assert volumes == [volumes[0]] + volumes[1..];
    }
  }

  lemma {:induction false} FindUnreadySourceIff(events: seq<EventSourceStatus>)
    ensures FindUnreadySource(events).None? <==> forall e :: e in events ==> e.condition.status == "True"
  {
    if events != [] {
      FindUnreadySourceIff(events[1..]);
      assert events == [events[0]] + events[1..];
    }
  }

  /** Exactly when the cascade says Ready. A route object without a Ready condition, or without any
      status because it is missing, does not hold it back. */
  lemma ReadyIff(status: CappStatus, capp: Capp, errors: seq<ManagerError>)
    ensures ComputeReady(status, capp, errors).status == "True" <==>
      && errors == []
      && (IsRequired(DomainMapping, capp) ==> NoneUnready(status.route.domainMapping.conditions))
      && (IsRequired(Certificate, capp) ==> NoneUnready(status.route.certificate.conditions))
      && (IsRequired(NfsPvc, capp) ==> forall v :: v in status.volumes ==> Bound(v))
      && (IsRequired(PingSource, capp) || IsRequired(KafkaSource, capp) ==>
            forall e :: e in status.events ==> e.condition.status == "True")
      && KnativeServing(status.knative)
  {
    FindUnreadyIff(status.route.domainMapping.conditions);
    FindUnreadyIff(status.route.certificate.conditions);
    FindUnboundIff(status.volumes);
    FindUnreadySourceIff(status.events);
    FindReadyIff(status.knative.conditions);
  }

  /** The reason, in terms of what the checks find. */
  lemma ReasonFound(status: CappStatus, capp: Capp, errors: seq<ManagerError>)
    ensures var reason := ComputeReady(status, capp, errors).reason;
      var mappingOk := IsRequired(DomainMapping, capp) ==> FindUnready(status.route.domainMapping.conditions).None?;
      var certificateOk := IsRequired(Certificate, capp) ==> FindUnready(status.route.certificate.conditions).None?;
      var volumesOk := IsRequired(NfsPvc, capp) ==> FindUnbound(status.volumes).None?;
      var sourcesOk := IsRequired(PingSource, capp) || IsRequired(KafkaSource, capp) ==>
        FindUnreadySource(status.events).None?;
      reason ==
        if errors != [] then RESOURCE_SYNC_FAILED else if !mappingOk then DOMAIN_MAPPING_NOT_READY
        else if !certificateOk then CERTIFICATE_NOT_READY else if !volumesOk then VOLUMES_NOT_READY
        else if !sourcesOk then EVENTING_NOT_READY else if KnativeNotReady(status.knative).Some? then KNATIVE_NOT_READY
        else READY
  {
  }

  /** The reason names the first thing that is wrong, in the order sync errors, DomainMapping, Certificate,
      volumes, event sources, Knative Service. */
  lemma ReadyReason(status: CappStatus, capp: Capp, errors: seq<ManagerError>)
    ensures var reason := ComputeReady(status, capp, errors).reason;
      var mappingOk := IsRequired(DomainMapping, capp) ==> NoneUnready(status.route.domainMapping.conditions);
      var certificateOk := IsRequired(Certificate, capp) ==> NoneUnready(status.route.certificate.conditions);
      var volumesOk := IsRequired(NfsPvc, capp) ==> forall v :: v in status.volumes ==> Bound(v);
      var sourcesOk := IsRequired(PingSource, capp) || IsRequired(KafkaSource, capp) ==>
        forall e :: e in status.events ==> e.condition.status == "True";
      && (reason == RESOURCE_SYNC_FAILED <==> errors != [])
      && (reason == DOMAIN_MAPPING_NOT_READY <==> errors == [] && !mappingOk)
      && (reason == CERTIFICATE_NOT_READY <==> errors == [] && mappingOk && !certificateOk)
      && (reason == VOLUMES_NOT_READY <==> errors == [] && mappingOk && certificateOk && !volumesOk)
      && (reason == EVENTING_NOT_READY <==> errors == [] && mappingOk && certificateOk && volumesOk && !sourcesOk)
      && (reason == KNATIVE_NOT_READY <==>
            errors == [] && mappingOk && certificateOk && volumesOk && sourcesOk && !KnativeServing(status.knative))
  {
    FindUnreadyIff(status.route.domainMapping.conditions);
    FindUnreadyIff(status.route.certificate.conditions);
    FindUnboundIff(status.volumes);
    FindUnreadySourceIff(status.events);
    FindReadyIff(status.knative.conditions);
    ReasonFound(status, capp, errors);
    ReasonsDiffer();
  }

  lemma ReasonsDiffer()
    ensures |RESOURCE_SYNC_FAILED| == 18 && |DOMAIN_MAPPING_NOT_READY| == 21 && |CERTIFICATE_NOT_READY| == 19
    ensures |VOLUMES_NOT_READY| == 15 && |EVENTING_NOT_READY| == 16 && |KNATIVE_NOT_READY| == 22 && |READY| == 5
  {
  }

  // ---------------------------------------------------------------- what a sync observes

  datatype Observed = Observed(knative: Status, revisions: seq<RevisionInfo>, route: RouteStatus,
                               volumes: seq<VolumeStatus>, events: seq<EventSourceStatus>)

  predicate RevisionLess(a: KnativeRevision, b: KnativeRevision) {
    if a.created != b.created then a.created < b.created else Less(a.id.name, b.id.name)
  }

  lemma RevisionOrder()
    ensures StrictWeak(RevisionLess)
  {
    forall x: KnativeRevision ensures !RevisionLess(x, x) {
      LessIrreflexive(x.id.name);
    }
    forall x, y, z | RevisionLess(x, y) && RevisionLess(y, z) ensures RevisionLess(x, z) {
      if x.created == y.created == z.created { LessTransitive(x.id.name, y.id.name, z.id.name); }
    }
    forall x, y, z | !RevisionLess(x, y) && !RevisionLess(y, z) ensures !RevisionLess(x, z) {
      if x.created == y.created == z.created { NotLessTransitive(x.id.name, y.id.name, z.id.name); }
    }
  }

  predicate EventLess(a: EventSourceStatus, b: EventSourceStatus) {
    Less(a.name, b.name)
  }

  lemma EventOrder()
    ensures StrictWeak(EventLess)
  {
    forall x: EventSourceStatus ensures !EventLess(x, x) {
      LessIrreflexive(x.name);
    }
    forall x: EventSourceStatus, y: EventSourceStatus, z: EventSourceStatus | EventLess(x, y) && EventLess(y, z)
      ensures EventLess(x, z)
    {
      LessTransitive(x.name, y.name, z.name);
    }
    forall x: EventSourceStatus, y: EventSourceStatus, z: EventSourceStatus | !EventLess(x, y) && !EventLess(y, z)
      ensures !EventLess(x, z)
    {
      NotLessTransitive(x.name, y.name, z.name);
    }
  }

  /** The revisions Knative labels with this Capp's name, in the namespace of the Capp. */
  function RevisionsOf(all: seq<KnativeRevision>, capp: Capp): seq<KnativeRevision> {
    if all == [] then [] else
    var rest := RevisionsOf(all[1..], capp);
    if all[0].id.ns == capp.id.ns && all[0].configuration == capp.id.name then [all[0]] + rest else rest
  }

  function InfosOf(revisions: seq<KnativeRevision>): (r: seq<RevisionInfo>)
    ensures |r| == |revisions|
  {
    seq(|revisions|, i requires 0 <= i < |revisions| => RevisionInfo(revisions[i].id.name, revisions[i].status))
  }

  /** The readiness of one event source; when the source reports none, it is unknown as of now. */
  function EventOf(source: Child, now: int): EventSourceStatus {
    var ready := FindReady(source.obj.status.conditions);
    EventSourceStatus(source.id.name,
      if ready.None? then Condition(READY, "Unknown", "", "Source readiness not known", now)
      else Condition(READY, ready.value.status, ready.value.reason, ready.value.message, ready.value.since))
  }

  function EventsOf(sources: seq<Child>, now: int): (r: seq<EventSourceStatus>)
    ensures |r| == |sources|
  {
    seq(|sources|, i requires 0 <= i < |sources| => EventOf(sources[i], now))
  }

  /** `events` is a name-ordered report on the listed PingSources and KafkaSources of the Capp. */
  ghost predicate EventsReport(events: seq<EventSourceStatus>, pings: seq<Child>, kafkas: seq<Child>,
                               tables: Tables, capp: Capp, now: int) {
    && Lists(pings, tables(PingSource), capp.id.ns, Selector(PingSource, capp))
    && Lists(kafkas, tables(KafkaSource), capp.id.ns, Selector(KafkaSource, capp))
    && OrderedPermutation(events, EventsOf(pings + kafkas, now), EventLess)
  }

  ghost predicate EventsSeen(events: seq<EventSourceStatus>, tables: Tables, capp: Capp, now: int) {
    exists pings, kafkas :: EventsReport(events, pings, kafkas, tables, capp, now)
  }

  /** `page` is a page of the Capp's Knative revisions, all of them if they fit, in order. */
  ghost predicate RevisionPage(page: seq<KnativeRevision>, all: seq<KnativeRevision>, capp: Capp) {
    && Ordered(page, RevisionLess)
    && (|RevisionsOf(all, capp)| <= PAGE_LIMIT ==> multiset(page) == multiset(RevisionsOf(all, capp)))
    && (|RevisionsOf(all, capp)| > PAGE_LIMIT ==>
          |page| == PAGE_LIMIT && multiset(page) <= multiset(RevisionsOf(all, capp)))
  }

  /** `infos` reports such a page. */
  ghost predicate RevisionsSeen(infos: seq<RevisionInfo>, all: seq<KnativeRevision>, capp: Capp) {
    exists page: seq<KnativeRevision> :: RevisionPage(page, all, capp) && infos == InfosOf(page)
  }

  function StatusAt(t: Table, id: Id): Status {
    if id in t then t[id].status else NO_STATUS
  }

  function VolumeSeen(t: Table, capp: Capp, v: NfsVolume): VolumeStatus {
    var s := StatusAt(t, Id(capp.id.ns, v.name));
    VolumeStatus(v.name, s.pvPhase, s.pvcPhase)
  }

  function VolumesSeen(t: Table, capp: Capp, volumes: seq<NfsVolume>): (r: seq<VolumeStatus>)
    ensures |r| == |volumes|
  {
    seq(|volumes|, i requires 0 <= i < |volumes| => VolumeSeen(t, capp, volumes[i]))
  }

  function RouteStatusAt(kind: Kind, tables: Tables, capp: Capp, env: Env): Status {
    if IsRequired(kind, capp) then StatusAt(tables(kind), Id(capp.id.ns, RouteName(capp, env))) else NO_STATUS
  }

  /** What a status sync can observe of the Service: its status and, when it exists, its revisions. */
  ghost predicate KnativeSeen(knative: Status, seen: seq<RevisionInfo>, tables: Tables,
                              revisions: seq<KnativeRevision>, capp: Capp) {
    && knative == (if IsRequired(Service, capp) then StatusAt(tables(Service), capp.id) else NO_STATUS)
    && (if IsRequired(Service, capp) && capp.id in tables(Service) then RevisionsSeen(seen, revisions, capp)
        else seen == [])
  }

  /** `seen` is what a status sync can observe of the cluster. */
  ghost predicate Observes(seen: Observed, tables: Tables, revisions: seq<KnativeRevision>, capp: Capp, env: Env,
                           now: int) {
    && KnativeSeen(seen.knative, seen.revisions, tables, revisions, capp)
    && seen.route == RouteStatus(RouteStatusAt(DomainMapping, tables, capp, env),
                                 RouteStatusAt(CNAMERecord, tables, capp, env),
                                 RouteStatusAt(Certificate, tables, capp, env))
    && seen.volumes == (if IsRequired(NfsPvc, capp) then VolumesSeen(tables(NfsPvc), capp, capp.spec.volumes) else [])
    && EventsSeen(seen.events, tables, capp, now)
  }

  // ---------------------------------------------------------------- the next status

  /** The state's time stamp moves when the state changes, or while no state is recorded. */
  function NextState(prior: StateStatus, state: string, now: int): StateStatus {
    if state != prior.state || prior.state == "" then StateStatus(state, now) else prior
  }

  /** Library: replaces the condition of the same type, keeping its time while its status stays. */
  function SetCondition(conditions: seq<Condition>, c: Condition, now: int): seq<Condition> {
    if conditions == [] then [c.(since := now)]
    else if conditions[0].ctype == c.ctype then
      [c.(since := if conditions[0].status == c.status then conditions[0].since else now)] + conditions[1..]
    else [conditions[0]] + SetCondition(conditions[1..], c, now)
  }

  /** The condition takes the place of the first of its type, or the end; its time moves just when its status does.
      All other conditions stay. */
  lemma {:induction false} SetConditionAt(conditions: seq<Condition>, c: Condition, now: int) returns (i: nat)
    ensures var r := SetCondition(conditions, c, now);
      && i < |r| && i <= |conditions| && r[..i] == conditions[..i] && r[i] == c.(since := r[i].since)
      && (forall j :: 0 <= j < i ==> conditions[j].ctype != c.ctype)
      && (if i == |conditions| then |r| == i + 1 && r[i].since == now
          else conditions[i].ctype == c.ctype && r[i + 1..] == conditions[i + 1..]
               && r[i].since == if conditions[i].status == c.status then conditions[i].since else now)
  {
    if conditions == [] || conditions[0].ctype == c.ctype {
      i := 0;
    } else {
      var k := SetConditionAt(conditions[1..], c, now);
      i := k + 1;
      var rest := SetCondition(conditions[1..], c, now);
      assert ([conditions[0]] + rest)[..i] == [conditions[0]] + rest[..k];
      assert ([conditions[0]] + rest)[i + 1..] == rest[k + 1..];
      assert conditions[..i] == [conditions[0]] + conditions[1..][..k];
    }
  }

  function WithObserved(prior: CappStatus, seen: Observed, state: string, now: int): CappStatus {
    prior.(knative := seen.knative, revisions := seen.revisions, route := seen.route, volumes := seen.volumes,
         events := seen.events, state := NextState(prior.state, state, now))
  }

  function NextStatus(prior: CappStatus, seen: Observed, capp: Capp, errors: seq<ManagerError>, now: int): CappStatus {
    var s := WithObserved(prior, seen, capp.spec.state, now);
    s.(conditions := SetCondition(s.conditions, ComputeReady(s, capp, errors), now))
  }

  function WithoutTimes(conditions: seq<Condition>): (r: seq<Condition>)
    ensures |r| == |conditions|
  {
    seq(|conditions|, i requires 0 <= i < |conditions| => conditions[i].(since := 0))
  }

  function StripEvents(events: seq<EventSourceStatus>): (r: seq<EventSourceStatus>)
    ensures |r| == |events|
  {
    seq(|events|, i requires 0 <= i < |events| => events[i].(condition := events[i].condition.(since := 0)))
  }

  /** The status without the time stamps that do not count as a change. */
  function Strip(s: CappStatus): CappStatus {
    s.(conditions := WithoutTimes(s.conditions),
       route := s.route.(
         cname := s.route.cname.(conditions := WithoutTimes(s.route.cname.conditions)),
         certificate := s.route.certificate.(conditions := WithoutTimes(s.route.certificate.conditions))),
       events := StripEvents(s.events))
  }

  predicate SameButSince(a: Condition, b: Condition) {
    a.ctype == b.ctype && a.status == b.status && a.reason == b.reason && a.message == b.message
  }

  /** A write is held back only between statuses that agree in all but the time stamps of the Capp's own
      conditions, of the record's, of the certificate's and of the event sources'. */
  lemma SuppressedOnlyForTimes(a: CappStatus, b: CappStatus)
    ensures Strip(a) == Strip(b) <==>
      && a.knative == b.knative && a.revisions == b.revisions && a.state == b.state && a.volumes == b.volumes
      && a.route.domainMapping == b.route.domainMapping
      && a.route.cname == b.route.cname.(conditions := a.route.cname.conditions)
      && a.route.certificate == b.route.certificate.(conditions := a.route.certificate.conditions)
      && SameConditions(a.conditions, b.conditions)
      && SameConditions(a.route.cname.conditions, b.route.cname.conditions)
      && SameConditions(a.route.certificate.conditions, b.route.certificate.conditions)
      && |a.events| == |b.events|
      && (forall i :: 0 <= i < |a.events| ==>
            a.events[i].name == b.events[i].name && SameButSince(a.events[i].condition, b.events[i].condition))
  {
    WithoutTimesIff(a.conditions, b.conditions);
    WithoutTimesIff(a.route.cname.conditions, b.route.cname.conditions);
    WithoutTimesIff(a.route.certificate.conditions, b.route.certificate.conditions);
    StripEventsIff(a.events, b.events);
  }

  predicate SameConditions(a: seq<Condition>, b: seq<Condition>) {
    |a| == |b| && forall i :: 0 <= i < |a| ==> SameButSince(a[i], b[i])
  }

  lemma WithoutTimesIff(a: seq<Condition>, b: seq<Condition>)
    ensures WithoutTimes(a) == WithoutTimes(b) <==> SameConditions(a, b)
  {
    if WithoutTimes(a) == WithoutTimes(b) {
      assert |a| == |WithoutTimes(a)| == |b|;
      forall i | 0 <= i < |a| ensures SameButSince(a[i], b[i]) {
        assert WithoutTimes(a)[i] == WithoutTimes(b)[i];
      }
    }
  }

  lemma StripEventsIff(a: seq<EventSourceStatus>, b: seq<EventSourceStatus>)
    ensures StripEvents(a) == StripEvents(b) <==>
      && |a| == |b|
      && forall i :: 0 <= i < |a| ==> a[i].name == b[i].name && SameButSince(a[i].condition, b[i].condition)
  {
    if StripEvents(a) == StripEvents(b) {
      assert |a| == |StripEvents(a)| == |b|;
      forall i | 0 <= i < |a| ensures a[i].name == b[i].name && SameButSince(a[i].condition, b[i].condition) {
        assert StripEvents(a)[i] == StripEvents(b)[i];
      }
    }
  }

  // ---------------------------------------------------------------- the sync itself

  method BuildRevisions(api: Api, capp: Capp) returns (r: Result<seq<RevisionInfo>>)
    modifies api`calls
    ensures r.Ok? ==> RevisionsSeen(r.value, api.revisions, capp)
    ensures Ended(api.fault, old(api.calls), api.calls, ErrorIn(r))
  {
    EndedCall(api.fault, api.calls);
    var f := api.Next();
    if f != NoFault {
      return Err(ErrorOf(f));
    }
    var page := Page(RevisionsOf(api.revisions, capp), PAGE_LIMIT);
    var infos := ReportRevisions(page);
    PageSeen(page[..], infos, api.revisions, capp);
    r := Ok(infos);
  }

  lemma PageSeen(page: seq<KnativeRevision>, infos: seq<RevisionInfo>, all: seq<KnativeRevision>, capp: Capp)
    requires RevisionPage(page, all, capp) && infos == InfosOf(page)
    ensures RevisionsSeen(infos, all, capp)
  {
  }

  /** Sorts the page in place and reports it. */
  method ReportRevisions(page: array<KnativeRevision>) returns (infos: seq<RevisionInfo>)
    modifies page
    ensures OrderedPermutation(page[..], old(page[..]), RevisionLess) && infos == InfosOf(page[..])
  {
    RevisionOrder();
    SortSlice(page, RevisionLess);
    infos := [];
    for i := 0 to page.Length
      invariant infos == InfosOf(page[..i])
    {
      assert page[..i + 1] == page[..i] + [page[i]];
      infos := infos + [RevisionInfo(page[i].id.name, page[i].status)];
    }
    assert page[..page.Length] == page[..];
  }

  method BuildKnative(api: Api, capp: Capp) returns (r: Result<(Status, seq<RevisionInfo>)>)
    modifies api`calls
    ensures r.Ok? ==> KnativeSeen(r.value.0, r.value.1, api.tables, api.revisions, capp)
    ensures Ended(api.fault, old(api.calls), api.calls, ErrorIn(r))
  {
    if !IsRequired(Service, capp) {
      return Ok((NO_STATUS, []));
    }
    var got := api.Get(Service, capp.id);
    if got.Err? {
      return if got.error == NotFound then Ok((NO_STATUS, [])) else Err(got.error);
    }
    var infos := BuildRevisions(api, capp);
    if infos.Err? {
      return Err(infos.error);
    }
    r := Ok((got.value.status, infos.value));
  }

  method BuildRouteObject(api: Api, kind: Kind, capp: Capp, env: Env) returns (r: Result<Status>)
    modifies api`calls
    ensures r.Ok? ==> r.value == RouteStatusAt(kind, api.tables, capp, env)
    ensures Ended(api.fault, old(api.calls), api.calls, ErrorIn(r))
  {
    if !IsRequired(kind, capp) {
      return Ok(NO_STATUS);
    }
    var got := api.Get(kind, Id(capp.id.ns, RouteName(capp, env)));
    if got.Err? {
      return if got.error == NotFound then Ok(NO_STATUS) else Err(got.error);
    }
    r := Ok(got.value.status);
  }

  method BuildRoute(api: Api, capp: Capp, env: Env) returns (r: Result<RouteStatus>)
    modifies api`calls
    ensures r.Ok? ==> r.value == RouteStatus(RouteStatusAt(DomainMapping, api.tables, capp, env),
      RouteStatusAt(CNAMERecord, api.tables, capp, env), RouteStatusAt(Certificate, api.tables, capp, env))
    ensures Ended(api.fault, old(api.calls), api.calls, ErrorIn(r))
  {
    var mapping := BuildRouteObject(api, DomainMapping, capp, env);
    if mapping.Err? {
      return Err(mapping.error);
    }
    var record := BuildRouteObject(api, CNAMERecord, capp, env);
    if record.Err? {
      return Err(record.error);
    }
    var certificate := BuildRouteObject(api, Certificate, capp, env);
    if certificate.Err? {
      return Err(certificate.error);
    }
    r := Ok(RouteStatus(mapping.value, record.value, certificate.value));
  }

  method BuildVolumes(api: Api, capp: Capp) returns (r: Result<seq<VolumeStatus>>)
    modifies api`calls
    ensures r.Ok? ==>
      r.value == if IsRequired(NfsPvc, capp) then VolumesSeen(api.tables(NfsPvc), capp, capp.spec.volumes) else []
    ensures Ended(api.fault, old(api.calls), api.calls, ErrorIn(r))
  {
    if !IsRequired(NfsPvc, capp) {
      return Ok([]);
    }
    var volumes, statuses := capp.spec.volumes, [];
    for i := 0 to |volumes|
      invariant statuses == VolumesSeen(api.tables(NfsPvc), capp, volumes[..i])
      invariant Ended(api.fault, old(api.calls), api.calls, None)
    {
      assert VolumesSeen(api.tables(NfsPvc), capp, volumes[..i + 1]) ==
        VolumesSeen(api.tables(NfsPvc), capp, volumes[..i]) + [VolumeSeen(api.tables(NfsPvc), capp, volumes[i])];
      var got := api.Get(NfsPvc, Id(capp.id.ns, volumes[i].name));
      if got.Err? {
        if got.error != NotFound {
          return Err(got.error);
        }
        statuses := statuses + [VolumeStatus(volumes[i].name, "", "")];
        continue;
      }
      statuses := statuses + [VolumeStatus(volumes[i].name, got.value.status.pvPhase, got.value.status.pvcPhase)];
    }
    assert volumes[..|volumes|] == volumes;
    r := Ok(statuses);
  }

  lemma ReportSeen(events: seq<EventSourceStatus>, pings: seq<Child>, kafkas: seq<Child>, tables: Tables, capp: Capp,
                   now: int)
    requires EventsReport(events, pings, kafkas, tables, capp, now)
    ensures EventsSeen(events, tables, capp, now)
  {
  }

  method BuildEvents(api: Api, capp: Capp, now: int) returns (r: Result<seq<EventSourceStatus>>)
    modifies api`calls
    ensures r.Ok? ==> EventsSeen(r.value, api.tables, capp, now)
    ensures Ended(api.fault, old(api.calls), api.calls, ErrorIn(r))
  {
    ghost var start := api.calls;
    EndedCall(api.fault, start);
    EndedCall(api.fault, start + 1);
    var pings := api.List(PingSource, capp.id.ns, Selector(PingSource, capp));
    if pings.Err? {
      return Err(pings.error);
    }
    var kafkas := api.List(KafkaSource, capp.id.ns, Selector(KafkaSource, capp));
    EndedThen(api.fault, start, start + 1, start + 2, ErrorIn(kafkas));
    if kafkas.Err? {
      return Err(kafkas.error);
    }
    var statuses := ReportEvents(pings.value, kafkas.value, now);
    ReportSeen(statuses, pings.value, kafkas.value, api.tables, capp, now);
    r := Ok(statuses);
  }

  /** The two loops over the listed sources, and the sort by name. */
  method ReportEvents(pings: seq<Child>, kafkas: seq<Child>, now: int) returns (events: seq<EventSourceStatus>)
    ensures OrderedPermutation(events, EventsOf(pings + kafkas, now), EventLess)
  {
    var all := EventsOf(pings, now) + EventsOf(kafkas, now);
    assert all == EventsOf(pings + kafkas, now);
    var statuses := new EventSourceStatus[|all|](i requires 0 <= i < |all| => all[i]);
    assert statuses[..] == all;
    EventOrder();
    SortSlice(statuses, EventLess);
    events := statuses[..];
  }

  method Observe(api: Api, capp: Capp, env: Env, now: int) returns (r: Result<Observed>)
    modifies api`calls
    ensures r.Ok? ==> Observes(r.value, api.tables, api.revisions, capp, env, now)
    ensures Ended(api.fault, old(api.calls), api.calls, ErrorIn(r))
  {
    var knative := BuildKnative(api, capp);
    if knative.Err? {
      return Err(knative.error);
    }
    ghost var mid := api.calls;
    r := ObserveChildren(api, capp, env, now, knative.value.0, knative.value.1);
    EndedThen(api.fault, old(api.calls), mid, api.calls, ErrorIn(r));
  }

  /** The rest of the observation, once the Service is seen. */
  method ObserveChildren(api: Api, capp: Capp, env: Env, now: int, knative: Status, revisions: seq<RevisionInfo>)
    returns (r: Result<Observed>)
    requires KnativeSeen(knative, revisions, api.tables, api.revisions, capp)
    modifies api`calls
    ensures r.Ok? ==> Observes(r.value, api.tables, api.revisions, capp, env, now)
    ensures Ended(api.fault, old(api.calls), api.calls, ErrorIn(r))
  {
    var route := BuildRoute(api, capp, env);
    if route.Err? {
      return Err(route.error);
    }
    ghost var mid := api.calls;
    var volumes := BuildVolumes(api, capp);
    EndedThen(api.fault, old(api.calls), mid, api.calls, ErrorIn(volumes));
    if volumes.Err? {
      return Err(volumes.error);
    }
    mid := api.calls;
    var events := BuildEvents(api, capp, now);
    EndedThen(api.fault, old(api.calls), mid, api.calls, ErrorIn(events));
    if events.Err? {
      return Err(events.error);
    }
    r := Ok(Observed(knative, revisions, route.value, volumes.value, events.value));
  }

  /** No Capp but this one is touched, and of this one nothing but the status. */
  ghost predicate StatusOnly(before: map<Id, Capp>, after: map<Id, Capp>, id: Id) {
    after == before
    || (id in before && id in after && after == before[id := before[id].(status := after[id].status)])
  }

  /** What a sync stores: the next status, or the prior one when only time stamps would change. */
  ghost predicate StatusSynced(prior: CappStatus, stored: CappStatus, seen: Observed, capp: Capp,
                               errors: seq<ManagerError>, now: int) {
    var next := NextStatus(prior, seen, capp, errors, now);
    stored == if Strip(prior) == Strip(next) then prior else next
  }

  /** The states the resource definition admits. */
  predicate KnownState(capp: Capp) {
    capp.spec.state == ENABLED || capp.spec.state == DISABLED
  }

  /** The status tells the state of the Capp, and since when: as of now if it is another than the one told before. */
  lemma StateTold(prior: CappStatus, stored: CappStatus, seen: Observed, capp: Capp, errors: seq<ManagerError>,
                  now: int)
    requires StatusSynced(prior, stored, seen, capp, errors, now)
    ensures stored.state.state == capp.spec.state
    ensures KnownState(capp) ==>
      stored.state.lastChange == if prior.state.state == capp.spec.state then prior.state.lastChange else now
  {
    SuppressedOnlyForTimes(prior, NextStatus(prior, seen, capp, errors, now));
  }

  /** Rebuilds the stored status from what is observed, and writes it only when it changed in more
      than its time stamps. */
  method SyncStatus(api: Api, capp: Capp, env: Env, errors: seq<ManagerError>, now: int)
    returns (err: Option<ApiError>, ghost seen: Observed)
    modifies api`calls, api`capps
    ensures StatusOnly(old(api.capps), api.capps, capp.id)
    ensures if capp.id in old(api.capps) then Ended(api.fault, old(api.calls), api.calls, err) else err.Some?
    ensures err.None? ==> Observes(seen, api.tables, api.revisions, capp, env, now)
    ensures err.None? ==>
      StatusSynced(old(api.capps)[capp.id].status, api.capps[capp.id].status, seen, capp, errors, now)
    ensures err.None? && KnownState(capp) ==>
      var prior := old(api.capps)[capp.id].status.state;
      api.capps[capp.id].status.state ==
        if prior.state == capp.spec.state then prior else StateStatus(capp.spec.state, now)
  {
    var looked := Look(api, capp, env, now);
    if looked.Err? {
      return Some(looked.error), Observed(NO_STATUS, [], RouteStatus(NO_STATUS, NO_STATUS, NO_STATUS), [], []);
    }
    ghost var read := api.calls;
    var prior, observed := looked.value.0, looked.value.1;
    seen := observed;
    err := StoreIfChanged(api, capp.id, prior, NextStatus(prior, observed, capp, errors, now));
    if err.None? {
      StateTold(prior, api.capps[capp.id].status, seen, capp, errors, now);
    }
    EndedThen(api.fault, old(api.calls), read, api.calls, err);
  }

  /** The stored status, and what is to be seen. */
  method Look(api: Api, capp: Capp, env: Env, now: int) returns (r: Result<(CappStatus, Observed)>)
    modifies api`calls
    ensures if capp.id in api.capps then Ended(api.fault, old(api.calls), api.calls, ErrorIn(r)) else r.Err?
    ensures r.Ok? ==>
      r.value.0 == api.capps[capp.id].status && Observes(r.value.1, api.tables, api.revisions, capp, env, now)
  {
    EndedCall(api.fault, api.calls);
    var got := api.GetCapp(capp.id);
    if got.Err? {
      return Err(got.error);
    }
    ghost var read := api.calls;
    var observed := Observe(api, capp, env, now);
    EndedThen(api.fault, old(api.calls), read, api.calls, ErrorIn(observed));
    if observed.Err? {
      return Err(observed.error);
    }
    r := Ok((got.value.status, observed.value));
  }

  /** Nothing is written for time stamps alone. */
  method StoreIfChanged(api: Api, id: Id, prior: CappStatus, next: CappStatus) returns (err: Option<ApiError>)
    requires id in api.capps && api.capps[id].status == prior
    modifies api`calls, api`capps
    ensures Ended(api.fault, old(api.calls), api.calls, err)
    ensures StatusOnly(old(api.capps), api.capps, id)
    ensures err.None? ==> api.capps[id].status == if Strip(prior) == Strip(next) then prior else next
    ensures err.Some? ==> api.capps[id].status == prior || api.capps[id].status == next
  {
    if Strip(prior) == Strip(next) {
      return None;
    }
    err := api.UpdateCappStatus(id, next);
  }

  // ---------------------------------------------------------------- a fixed point, whatever the listing order

  lemma ListingsPermute(a: seq<Child>, b: seq<Child>, t: Table, ns: string, selector: map<string, string>)
    requires Lists(a, t, ns, selector) && Lists(b, t, ns, selector)
    ensures multiset(a) == multiset(b)
  {
    forall x ensures x in a <==> x in b {
      if x in a {
        var j :| 0 <= j < |b| && b[j].id == x.id;
        assert b[j] == x;
      }
      if x in b {
        var j :| 0 <= j < |a| && a[j].id == x.id;
        assert a[j] == x;
      }
    }
    SameElementsPermute(a, b);
  }

  /** No PingSource and KafkaSource of the Capp share a name. */
  ghost predicate SourceNamesDistinct(tables: Tables, capp: Capp) {
    Labelled(PingSource, tables(PingSource), capp) !! Labelled(KafkaSource, tables(KafkaSource), capp)
  }

  /** The report on a source with its time stamp left out. */
  function EventShape(source: Child): EventSourceStatus {
    var e := EventOf(source, 0);
    e.(condition := e.condition.(since := 0))
  }

  lemma {:induction false} StrippedEvents(events: seq<EventSourceStatus>, sources: seq<Child>, now: int)
    requires OrderedPermutation(events, EventsOf(sources, now), EventLess)
    ensures OrderedPermutation(StripEvents(events), Map(EventShape, sources), EventLess)
  {
    var strip := (e: EventSourceStatus) => e.(condition := e.condition.(since := 0));
    MapPermutation(strip, events, EventsOf(sources, now));
    assert StripEvents(events) == Map(strip, events);
    assert Map(strip, EventsOf(sources, now)) == Map(EventShape, sources);
  }

  /** Whatever order the server lists the sources in, the reports differ in time stamps only. */
  lemma EventsCanonical(a: seq<EventSourceStatus>, b: seq<EventSourceStatus>, tables: Tables, capp: Capp, t1: int,
                        t2: int)
    requires EventsSeen(a, tables, capp, t1) && EventsSeen(b, tables, capp, t2) && SourceNamesDistinct(tables, capp)
    ensures StripEvents(a) == StripEvents(b)
  {
    var p1, k1 :| EventsReport(a, p1, k1, tables, capp, t1);
    var p2, k2 :| EventsReport(b, p2, k2, tables, capp, t2);
    StrippedEvents(a, p1 + k1, t1);
    StrippedEvents(b, p2 + k2, t2);
    SourcesPermute(p1, k1, p2, k2, tables, capp);
    MapPermutation(EventShape, p1 + k1, p2 + k2);
    ShapesSeparate(p1, k1, tables, capp);
    SeparatesPermuted(Map(EventShape, p1 + k1), StripEvents(a), EventLess);
    OrderedUnique(StripEvents(a), StripEvents(b), EventLess);
  }

  lemma SourcesPermute(p1: seq<Child>, k1: seq<Child>, p2: seq<Child>, k2: seq<Child>, tables: Tables, capp: Capp)
    requires Lists(p1, tables(PingSource), capp.id.ns, Selector(PingSource, capp))
    requires Lists(k1, tables(KafkaSource), capp.id.ns, Selector(KafkaSource, capp))
    requires Lists(p2, tables(PingSource), capp.id.ns, Selector(PingSource, capp))
    requires Lists(k2, tables(KafkaSource), capp.id.ns, Selector(KafkaSource, capp))
    ensures multiset(p1 + k1) == multiset(p2 + k2)
  {
    ListingsPermute(p1, p2, tables(PingSource), capp.id.ns, Selector(PingSource, capp));
    ListingsPermute(k1, k2, tables(KafkaSource), capp.id.ns, Selector(KafkaSource, capp));
  }

  lemma ListedNamesDiffer(p: seq<Child>, k: seq<Child>, tables: Tables, capp: Capp, x: nat, y: nat)
    requires Lists(p, tables(PingSource), capp.id.ns, Selector(PingSource, capp))
    requires Lists(k, tables(KafkaSource), capp.id.ns, Selector(KafkaSource, capp))
    requires SourceNamesDistinct(tables, capp) && x < y < |p + k|
    ensures (p + k)[x].id.name != (p + k)[y].id.name
  {
    var a, b := (p + k)[x].id, (p + k)[y].id;
    assert a.ns == b.ns == capp.id.ns;
    if y < |p| {
      assert p[x].id != p[y].id;
    } else if |p| <= x {
      assert k[x - |p|].id != k[y - |p|].id;
    } else {
      assert a == p[x].id && b == k[y - |p|].id;
    }
  }

  lemma ShapesSeparate(p: seq<Child>, k: seq<Child>, tables: Tables, capp: Capp)
    requires Lists(p, tables(PingSource), capp.id.ns, Selector(PingSource, capp))
    requires Lists(k, tables(KafkaSource), capp.id.ns, Selector(KafkaSource, capp))
    requires SourceNamesDistinct(tables, capp)
    ensures Separates(Map(EventShape, p + k), EventLess)
  {
    var shapes := Map(EventShape, p + k);
    forall x, y | 0 <= x < |shapes| && 0 <= y < |shapes| && shapes[x] != shapes[y]
      ensures EventLess(shapes[x], shapes[y]) || EventLess(shapes[y], shapes[x])
    {
      assert shapes[x] == EventShape((p + k)[x]) && shapes[y] == EventShape((p + k)[y]);
      ListedNamesDiffer(p, k, tables, capp, if x < y then x else y, if x < y then y else x);
      LessTotal(shapes[x].name, shapes[y].name);
    }
  }

  ghost predicate RevisionNamesDistinct(revisions: seq<KnativeRevision>) {
    forall i, j :: 0 <= i < |revisions| && 0 <= j < |revisions| && revisions[i] != revisions[j] ==>
      revisions[i].id.name != revisions[j].id.name
  }

  lemma {:induction false} RevisionsCanonical(a: seq<RevisionInfo>, b: seq<RevisionInfo>,
    all: seq<KnativeRevision>, capp: Capp)
    requires RevisionsSeen(a, all, capp) && RevisionsSeen(b, all, capp)
    requires |RevisionsOf(all, capp)| <= PAGE_LIMIT && RevisionNamesDistinct(RevisionsOf(all, capp))
    ensures a == b
  {
    var p: seq<KnativeRevision> :| RevisionPage(p, all, capp) && a == InfosOf(p);
    var q: seq<KnativeRevision> :| RevisionPage(q, all, capp) && b == InfosOf(q);
    forall i, j | 0 <= i < |p| && 0 <= j < |p| && p[i] != p[j]
      ensures RevisionLess(p[i], p[j]) || RevisionLess(p[j], p[i])
    {
      assert p[i] in multiset(RevisionsOf(all, capp)) && p[j] in multiset(RevisionsOf(all, capp));
      LessTotal(p[i].id.name, p[j].id.name);
    }
    OrderedUnique(p, q, RevisionLess);
  }

  /** Two observations that agree but for the time stamps of event sources. */
  predicate SameButTimes(a: Observed, b: Observed) {
    && a.knative == b.knative && a.revisions == b.revisions && a.route == b.route && a.volumes == b.volumes
    && StripEvents(a.events) == StripEvents(b.events)
  }

  /** Order independence: any two syncs of one cluster observe the same, up to time stamps. */
  lemma {:induction false} ObservationsAgree(a: Observed, b: Observed, tables: Tables,
    revisions: seq<KnativeRevision>, capp: Capp, env: Env,
                          t1: int, t2: int)
    requires Observes(a, tables, revisions, capp, env, t1) && Observes(b, tables, revisions, capp, env, t2)
    requires SourceNamesDistinct(tables, capp)
    requires |RevisionsOf(revisions, capp)| <= PAGE_LIMIT && RevisionNamesDistinct(RevisionsOf(revisions, capp))
    ensures SameButTimes(a, b)
  {
    EventsCanonical(a.events, b.events, tables, capp, t1, t2);
    if IsRequired(Service, capp) && capp.id in tables(Service) {
      RevisionsCanonical(a.revisions, b.revisions, revisions, capp);
    }
  }

  lemma {:induction false} UnreadySourceIgnoresTimes(a: seq<EventSourceStatus>, b: seq<EventSourceStatus>)
    requires StripEvents(a) == StripEvents(b)
    ensures FindUnreadySource(a).Some? == FindUnreadySource(b).Some?
    ensures FindUnreadySource(a).Some? ==> FindUnreadySource(a).value.name == FindUnreadySource(b).value.name
  {
    assert |a| == |StripEvents(a)| == |b|;
    if a != [] {
      assert StripEvents(a)[0] == StripEvents(b)[0];
      assert StripEvents(a)[1..] == StripEvents(a[1..]) && StripEvents(b)[1..] == StripEvents(b[1..]);
      UnreadySourceIgnoresTimes(a[1..], b[1..]);
    }
  }

  /** Setting the same condition again changes nothing. */
  lemma {:induction false} SetConditionAgain(conditions: seq<Condition>, c: Condition, t1: int, t2: int)
    ensures SetCondition(SetCondition(conditions, c, t1), c, t2) == SetCondition(conditions, c, t1)
  {
    if conditions != [] && conditions[0].ctype != c.ctype {
      var rest := SetCondition(conditions[1..], c, t1);
      SetConditionAgain(conditions[1..], c, t1, t2);
      assert ([conditions[0]] + rest)[1..] == rest;
    }
  }

  /** A second sync of an unchanged cluster writes nothing, exactly when the Capp's state is set. With an
      empty state, which the resource definition rules out, the state's time stamp would be renewed by every sync. */
  lemma SecondSyncSilentIff(prior: CappStatus, a: Observed, b: Observed, capp: Capp, errors: seq<ManagerError>,
                            t1: int, t2: int)
    requires SameButTimes(a, b) && t1 != t2
    ensures var first := NextStatus(prior, a, capp, errors, t1);
      Strip(NextStatus(first, b, capp, errors, t2)) == Strip(first) <==> capp.spec.state != ""
  {
    var first := NextStatus(prior, a, capp, errors, t1);
    var second := NextStatus(first, b, capp, errors, t2);
    UnreadySourceIgnoresTimes(a.events, b.events);
    var s1 := WithObserved(prior, a, capp.spec.state, t1);
    var s2 := WithObserved(first, b, capp.spec.state, t2);
    assert ComputeReady(s1, capp, errors) == ComputeReady(s2, capp, errors);
    SetConditionAgain(prior.conditions, ComputeReady(s1, capp, errors), t1, t2);
    assert second.conditions == first.conditions;
  }

  lemma {:induction false} ConditionTimesStripped(conditions: seq<Condition>, c: Condition, t1: int, t2: int)
    ensures WithoutTimes(SetCondition(conditions, c, t1)) == WithoutTimes(SetCondition(conditions, c, t2))
  {
    if conditions != [] && conditions[0].ctype != c.ctype {
      ConditionTimesStripped(conditions[1..], c, t1, t2);
      WithoutTimesCons(conditions[0], SetCondition(conditions[1..], c, t1));
      WithoutTimesCons(conditions[0], SetCondition(conditions[1..], c, t2));
    } else if conditions != [] {
      assert WithoutTimes(SetCondition(conditions, c, t1)) == [c.(since := 0)] + WithoutTimes(conditions[1..]);
      assert WithoutTimes(SetCondition(conditions, c, t2)) == [c.(since := 0)] + WithoutTimes(conditions[1..]);
    }
  }

  lemma WithoutTimesCons(c: Condition, rest: seq<Condition>)
    ensures WithoutTimes([c] + rest) == [c.(since := 0)] + WithoutTimes(rest)
  {
  }

  /** Two syncs from one status that observe the same agree but for time stamps. */
  lemma SyncsAgree(prior: CappStatus, a: Observed, b: Observed, capp: Capp, errors: seq<ManagerError>, t1: int, t2: int)
    requires SameButTimes(a, b) && prior.state.state == capp.spec.state != ""
    ensures Strip(NextStatus(prior, a, capp, errors, t1)) == Strip(NextStatus(prior, b, capp, errors, t2))
  {
    UnreadySourceIgnoresTimes(a.events, b.events);
    var s1, s2 := WithObserved(prior, a, capp.spec.state, t1), WithObserved(prior, b, capp.spec.state, t2);
    assert ComputeReady(s1, capp, errors) == ComputeReady(s2, capp, errors);
    ConditionTimesStripped(prior.conditions, ComputeReady(s1, capp, errors), t1, t2);
  }

  /** A second sync of an unchanged cluster writes nothing, whether or not the first one did. */
  lemma SecondSyncSilent(prior: CappStatus, stored: CappStatus, a: Observed, b: Observed, capp: Capp,
                         errors: seq<ManagerError>, t1: int, t2: int)
    requires KnownState(capp) && SameButTimes(a, b) && StatusSynced(prior, stored, a, capp, errors, t1)
    ensures Strip(NextStatus(stored, b, capp, errors, t2)) == Strip(stored)
  {
    if stored == NextStatus(prior, a, capp, errors, t1) {
      if t1 != t2 {
        SecondSyncSilentIff(prior, a, b, capp, errors, t1, t2);
      } else {
        SecondSyncSilentIff(prior, a, b, capp, errors, t1, t2 + 1);
        SyncsAgree(stored, b, b, capp, errors, t2, t2 + 1);
      }
    } else {
      SyncsAgree(prior, a, b, capp, errors, t1, t2);
    }
  }
}
