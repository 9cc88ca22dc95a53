/** What a Ready Capp may be relied on for. The status cascade alone does not notice a missing route
    object; together with what the managers guarantee, Ready means the whole Capp is in place. */
module Readiness {
  import opened Objects
  import opened Cluster
  import opened Desired
  import opened Managers
  import opened Convergence
  import opened StatusSync
  import opened Controller

  predicate SaysReady(conditions: seq<Condition>) {
    FindReady(conditions).Some? && FindReady(conditions).value.status == "True"
  }

  lemma {:induction false} SetConditionFound(conditions: seq<Condition>, c: Condition, now: int)
    requires c.ctype == READY
    ensures SaysReady(SetCondition(conditions, c, now)) <==> c.status == "True"
  {
    if conditions != [] && conditions[0].ctype != c.ctype {
      SetConditionFound(conditions[1..], c, now);
      assert ([conditions[0]] + SetCondition(conditions[1..], c, now))[1..] == SetCondition(conditions[1..], c, now);
    }
  }

  lemma {:induction false} TimesDoNotMatter(conditions: seq<Condition>)
    ensures SaysReady(WithoutTimes(conditions)) <==> SaysReady(conditions)
  {
    if conditions != [] {
      TimesDoNotMatter(conditions[1..]);
      assert WithoutTimes(conditions)[1..] == WithoutTimes(conditions[1..]);
    }
  }

  /** After a sync the stored status says Ready exactly when the cascade does. */
  lemma StoredReadyIff(prior: CappStatus, stored: CappStatus, seen: Observed, capp: Capp,
                       errors: seq<ManagerError>, now: int)
    requires Strip(stored) == Strip(NextStatus(prior, seen, capp, errors, now))
    ensures SaysReady(stored.conditions)
       <==> ComputeReady(WithObserved(prior, seen, capp.spec.state, now), capp, errors).status == "True"
  {
    var next := NextStatus(prior, seen, capp, errors, now);
    var c := ComputeReady(WithObserved(prior, seen, capp.spec.state, now), capp, errors);
    SetConditionFound(prior.conditions, c, now);
    TimesDoNotMatter(stored.conditions);
    TimesDoNotMatter(next.conditions);
    assert WithoutTimes(stored.conditions) == Strip(stored).conditions;
  }

  /** The first condition of type Ready is true. */
  ghost predicate SaysTrue(conditions: seq<Condition>) {
    exists i :: 0 <= i < |conditions| && conditions[i].ctype == "Ready" && conditions[i].status == "True"
                && forall j :: 0 <= j < i ==> conditions[j].ctype != "Ready"
  }

  lemma SaysReadyIff(conditions: seq<Condition>)
    ensures SaysReady(conditions) <==> SaysTrue(conditions)
  {
    FindReadyIff(conditions);
    if i :| FirstReadyTrue(conditions, i) {
      assert conditions[i].ctype == "Ready";
    }
    if SaysTrue(conditions) {
      var i :| 0 <= i < |conditions| && conditions[i].ctype == "Ready" && conditions[i].status == "True"
               && forall j :: 0 <= j < i ==> conditions[j].ctype != "Ready";
      assert FirstReadyTrue(conditions, i);
    }
  }

  /** A Service that says it is ready, on its newest revision. */
  ghost predicate Serves(ks: Status) {
    SaysTrue(ks.conditions) && (ks.latestCreated == "" || ks.latestReady == ks.latestCreated)
  }

  lemma ServesIff(ks: Status)
    ensures KnativeServing(ks) <==> Serves(ks)
  {
    SaysReadyIff(ks.conditions);
    FindReadyIff(ks.conditions);
  }

  /** No condition of type Ready is anything but true. */
  ghost predicate NeverUnready(conditions: seq<Condition>) {
    forall i :: 0 <= i < |conditions| && conditions[i].ctype == "Ready" ==> conditions[i].status == "True"
  }

  lemma NeverUnreadyIff(conditions: seq<Condition>)
    ensures NoneUnready(conditions) <==> NeverUnready(conditions)
  {
  }

  /** Everything a Ready Capp stands for. */
  ghost predicate InService(tables: Tables, capp: Capp, env: Env) {
    && capp.spec.state == "enabled"
    && capp.id in tables(Service) && Serves(tables(Service)[capp.id].status)
    && RoutesUp(tables, capp, env) && VolumesUp(tables(NfsPvc), capp)
    && SourcesInService(PingSource, tables(PingSource), capp)
    && SourcesInService(KafkaSource, tables(KafkaSource), capp)
  }

  ghost predicate RoutesUp(tables: Tables, capp: Capp, env: Env) {
    var route := Id(capp.id.ns, RouteName(capp, env));
    && (capp.spec.route.hostname != "" ==>
          && route in tables(DomainMapping) && NeverUnready(tables(DomainMapping)[route].status.conditions)
          && route in tables(CNAMERecord))
    && (capp.spec.route.hostname != "" && capp.spec.route.tlsEnabled ==>
          route in tables(Certificate) && NeverUnready(tables(Certificate)[route].status.conditions))
  }

  ghost predicate VolumesUp(t: Table, capp: Capp) {
    forall v :: v in capp.spec.volumes ==>
      var id := Id(capp.id.ns, v.name);
      id in t && t[id].status.pvPhase == "Bound" && t[id].status.pvcPhase == "Bound"
  }

  /** Every source the Capp asks for exists, and every one that bears its label reports Ready. */
  ghost predicate SourcesInService(kind: Kind, t: Table, capp: Capp)
    requires IsSourceKind(kind)
  {
    && (forall s :: s in capp.spec.sources && SourceOf(kind, s) ==> SourceChild(kind, capp, s).id in t)
    && (IsRequired(kind, capp) ==> forall id :: id in Labelled(kind, t, capp) ==> SaysTrue(t[id].status.conditions))
  }

  lemma RequiredExists(kind: Kind, before: Table, secrets: Table, capp: Capp, env: Env)
    requires kind != Secret && IsRequired(kind, capp)
    ensures forall c :: c in Children(kind, secrets, capp, env) ==> c.id in Wanted(kind, before, secrets, capp, env)
  {
    var children := Children(kind, secrets, capp, env);
    forall c | c in children ensures c.id in Wanted(kind, before, secrets, capp, env) {
      UpsertAllFrame(before, Ref(capp), children);
      assert c.id in Ids(children);
      if kind == CNAMERecord {
        assert c == children[0];
      }
    }
  }

  lemma SourcesExist(kind: Kind, before: Table, secrets: Table, capp: Capp, env: Env, s: Source)
    requires IsSourceKind(kind) && s in capp.spec.sources && SourceOf(kind, s)
    ensures IsRequired(kind, capp) && SourceChild(kind, capp, s).id in Wanted(kind, before, secrets, capp, env)
  {
    SourceChildIn(kind, capp, capp.spec.sources, s);
    RequiredExists(kind, before, secrets, capp, env);
  }

  /** When every report says so, every source listed is Ready. */
  lemma ReportedReady(events: seq<EventSourceStatus>, all: seq<Child>, now: int, k: nat)
    requires multiset(events) == multiset(EventsOf(all, now)) && k < |all|
    requires forall e :: e in events ==> e.condition.status == "True"
    ensures SaysReady(all[k].obj.status.conditions)
  {
    assert EventsOf(all, now)[k] == EventOf(all[k], now);
    assert EventOf(all[k], now) in multiset(events);
  }

  lemma AllListedReady(events: seq<EventSourceStatus>, pings: seq<Child>, kafkas: seq<Child>, now: int)
    requires multiset(events) == multiset(EventsOf(pings + kafkas, now))
    requires forall e :: e in events ==> e.condition.status == "True"
    ensures forall i :: 0 <= i < |pings| ==> SaysReady(pings[i].obj.status.conditions)
    ensures forall i :: 0 <= i < |kafkas| ==> SaysReady(kafkas[i].obj.status.conditions)
  {
    var all := pings + kafkas;
    forall i | 0 <= i < |pings| ensures SaysReady(pings[i].obj.status.conditions) {
      ReportedReady(events, all, now, i);
    }
    forall i | 0 <= i < |kafkas| ensures SaysReady(kafkas[i].obj.status.conditions) {
      ReportedReady(events, all, now, |pings| + i);
    }
  }

  lemma TableReady(items: seq<Child>, t: Table, ns: string, selector: map<string, string>, id: Id)
    requires Lists(items, t, ns, selector) && id in Matching(t, ns, selector)
    requires forall i :: 0 <= i < |items| ==> SaysReady(items[i].obj.status.conditions)
    ensures SaysReady(t[id].status.conditions)
  {
    var i :| 0 <= i < |items| && items[i].id == id;
  }

  lemma ListedReady(tables: Tables, capp: Capp, events: seq<EventSourceStatus>, now: int, kind: Kind, id: Id)
    requires IsSourceKind(kind) && EventsSeen(events, tables, capp, now)
    requires forall e :: e in events ==> e.condition.status == "True"
    requires id in Labelled(kind, tables(kind), capp)
    ensures SaysReady(tables(kind)[id].status.conditions)
  {
    var pings: seq<Child>, kafkas: seq<Child> :| EventsReport(events, pings, kafkas, tables, capp, now);
    AllListedReady(events, pings, kafkas, now);
    TableReady(if kind == PingSource then pings else kafkas, tables(kind), capp.id.ns, Selector(kind, capp), id);
  }

  lemma VolumesInService(tables: Tables, capp: Capp, before: Table, env: Env, v: NfsVolume)
    requires v in capp.spec.volumes
    requires tables(NfsPvc) == Wanted(NfsPvc, before, tables(Secret), capp, env)
    requires forall s :: s in VolumesSeen(tables(NfsPvc), capp, capp.spec.volumes) ==> Bound(s)
    ensures Id(capp.id.ns, v.name) in tables(NfsPvc)
    ensures tables(NfsPvc)[Id(capp.id.ns, v.name)].status.pvPhase == "Bound"
    ensures tables(NfsPvc)[Id(capp.id.ns, v.name)].status.pvcPhase == "Bound"
  {
    var i :| 0 <= i < |capp.spec.volumes| && capp.spec.volumes[i] == v;
    VolumesProper(capp, capp.spec.volumes);
    RequiredExists(NfsPvc, before, tables(Secret), capp, env);
    assert VolumeChildren(capp, capp.spec.volumes)[i] in Children(NfsPvc, tables(Secret), capp, env);
    var seen := VolumesSeen(tables(NfsPvc), capp, capp.spec.volumes);
    assert seen[i] == VolumeSeen(tables(NfsPvc), capp, v) && seen[i] in seen;
  }

  /** What was seen is as a Ready Capp wants it. */
  ghost predicate SeenServing(seen: Observed, capp: Capp) {
    && Serves(seen.knative)
    && (IsRequired(DomainMapping, capp) ==> NeverUnready(seen.route.domainMapping.conditions))
    && (IsRequired(Certificate, capp) ==> NeverUnready(seen.route.certificate.conditions))
    && (IsRequired(NfsPvc, capp) ==> forall v :: v in seen.volumes ==> v.pvPhase == "Bound" && v.pvcPhase == "Bound")
    && (IsRequired(PingSource, capp) || IsRequired(KafkaSource, capp) ==>
          forall e :: e in seen.events ==> e.condition.status == "True")
  }

  lemma SaysReadyIffSeen(prior: CappStatus, stored: CappStatus, seen: Observed, capp: Capp, now: int)
    requires Strip(stored) == Strip(NextStatus(prior, seen, capp, [], now))
    ensures SaysReady(stored.conditions) <==> SeenServing(seen, capp)
  {
    var s := WithObserved(prior, seen, capp.spec.state, now);
    StoredReadyIff(prior, stored, seen, capp, [], now);
    ReadyIff(s, capp, []);
    ServesIff(seen.knative);
    NeverUnreadyIff(seen.route.domainMapping.conditions);
    NeverUnreadyIff(seen.route.certificate.conditions);
  }

  lemma VolumesServe(before: Tables, after: Tables, capp: Capp, env: Env)
    requires PassBy(before, after, capp, env)
    requires forall s :: s in VolumesSeen(after(NfsPvc), capp, capp.spec.volumes) ==> Bound(s)
    ensures VolumesUp(after(NfsPvc), capp)
  {
    forall v | v in capp.spec.volumes
      ensures var t, id := after(NfsPvc), Id(capp.id.ns, v.name);
        id in t && t[id].status.pvPhase == "Bound" && t[id].status.pvcPhase == "Bound"
    {
      SecretsDoNotMatter(NfsPvc, before(NfsPvc), before(Secret), after(Secret), capp, env);
      VolumesInService(after, capp, before(NfsPvc), env, v);
    }
  }

  lemma RoutesServe(before: Tables, after: Tables, capp: Capp, env: Env)
    requires PassBy(before, after, capp, env)
    requires IsRequired(DomainMapping, capp) ==>
      NeverUnready(RouteStatusAt(DomainMapping, after, capp, env).conditions)
    requires IsRequired(Certificate, capp) ==> NeverUnready(RouteStatusAt(Certificate, after, capp, env).conditions)
    ensures RoutesUp(after, capp, env)
  {
    RoutesInService(before, after, capp, env);
  }

  lemma SeenMeansInService(before: Tables, after: Tables, revisions: seq<KnativeRevision>, capp: Capp, env: Env,
                           now: int, seen: Observed)
    requires PassBy(before, after, capp, env) && Observes(seen, after, revisions, capp, env, now)
    requires SeenServing(seen, capp)
    ensures InService(after, capp, env)
  {
    RoutesServe(before, after, capp, env);
    VolumesServe(before, after, capp, env);
    SourcesServe(before, after, capp, env, seen.events, now, PingSource);
    SourcesServe(before, after, capp, env, seen.events, now, KafkaSource);
  }

  /** If a sync without manager errors leaves the Capp Ready, the whole Capp is in service. */
  lemma ReadyMeansInService(before: Tables, after: Tables, revisions: seq<KnativeRevision>, capp: Capp, env: Env,
                            now: int, prior: CappStatus, stored: CappStatus, seen: Observed)
    requires PassBy(before, after, capp, env) && Observes(seen, after, revisions, capp, env, now)
    requires Strip(stored) == Strip(NextStatus(prior, seen, capp, [], now))
    requires SaysReady(stored.conditions)
    ensures InService(after, capp, env)
  {
    SaysReadyIffSeen(prior, stored, seen, capp, now);
    SeenMeansInService(before, after, revisions, capp, env, now, seen);
  }

  lemma SourcesServe(before: Tables, after: Tables, capp: Capp, env: Env, events: seq<EventSourceStatus>, now: int,
                     kind: Kind)
    requires PassBy(before, after, capp, env) && EventsSeen(events, after, capp, now) && IsSourceKind(kind)
    requires IsRequired(kind, capp) ==> forall e :: e in events ==> e.condition.status == "True"
    ensures SourcesInService(kind, after(kind), capp)
  {
    forall x | x in capp.spec.sources && SourceOf(kind, x) ensures SourceChild(kind, capp, x).id in after(kind) {
      SourcesExist(kind, before(kind), before(Secret), capp, env, x);
    }
    if IsRequired(kind, capp) {
      forall id | id in Labelled(kind, after(kind), capp) ensures SaysTrue(after(kind)[id].status.conditions) {
        ListedReady(after, capp, events, now, kind, id);
        SaysReadyIff(after(kind)[id].status.conditions);
      }
    }
  }

  lemma SecretsDoNotMatter(kind: Kind, t: Table, s1: Table, s2: Table, capp: Capp, env: Env)
    requires kind != DomainMapping && kind != Secret && IsRequired(kind, capp)
    ensures Wanted(kind, t, s1, capp, env) == Wanted(kind, t, s2, capp, env)
  {
  }

  lemma RoutesInService(before: Tables, after: Tables, capp: Capp, env: Env)
    requires PassBy(before, after, capp, env)
    ensures capp.spec.route.hostname != "" ==> Id(capp.id.ns, RouteName(capp, env)) in after(DomainMapping)
    ensures capp.spec.route.hostname != "" ==> Id(capp.id.ns, RouteName(capp, env)) in after(CNAMERecord)
    ensures capp.spec.route.hostname != "" && capp.spec.route.tlsEnabled ==>
      Id(capp.id.ns, RouteName(capp, env)) in after(Certificate)
  {
    forall kind | kind in {DomainMapping, CNAMERecord, Certificate} && IsRequired(kind, capp)
      ensures Id(capp.id.ns, RouteName(capp, env)) in after(kind)
    {
      RequiredExists(kind, before(kind), before(Secret), capp, env);
      var children := Children(kind, before(Secret), capp, env);
      assert children[0] in children && children[0].id == Id(capp.id.ns, RouteName(capp, env));
    }
  }

  /** The cascade alone proves nothing about the routes: whatever is Ready stays Ready when all its
      route objects are gone. */
  lemma MissingRoutesLookReady(status: CappStatus, capp: Capp, errors: seq<ManagerError>)
    requires ComputeReady(status, capp, errors).status == "True"
    ensures ComputeReady(status.(route := RouteStatus(NO_STATUS, NO_STATUS, NO_STATUS)), capp, errors).status == "True"
  {
    ReadyIff(status, capp, errors);
    ReadyIff(status.(route := RouteStatus(NO_STATUS, NO_STATUS, NO_STATUS)), capp, errors);
  }

  // ---------------------------------------------------------------- a second reconcile

  /** The resource definition asks for exactly one configuration for each source. */
  predicate OneConfiguration(sources: seq<Source>) {
    forall s :: s in sources ==> s.ping.None? || s.kafka.None?
  }

  /** After its manager succeeded, every source labelled for the Capp has the name of an entry. */
  lemma {:induction false} LabelledIsNamed(kind: Kind, t: Table, secrets: Table, capp: Capp, env: Env, id: Id)
    requires IsSourceKind(kind) && !capp.deleting && id in Labelled(kind, Passed(kind, t, secrets, capp, env), capp)
    ensures exists s :: s in capp.spec.sources && SourceOf(kind, s) && SourceName(capp, s) == id.name
  {
    if IsRequired(kind, capp) {
      var children := Children(kind, secrets, capp, env);
      var u := UpsertAll(t, Ref(capp), children);
      assert id in Labelled(kind, u, capp) && id !in Orphans(kind, u, capp, children);
      NamesAndIds(kind, capp, capp.spec.sources, id);
    }
  }

  lemma NoSharedName(capp: Capp, id: Id, p: Source, k: Source)
    requires DistinctSources(capp.spec.sources) && OneConfiguration(capp.spec.sources)
    requires p in capp.spec.sources && SourceOf(PingSource, p) && SourceName(capp, p) == id.name
    requires k in capp.spec.sources && SourceOf(KafkaSource, k)
    ensures SourceName(capp, k) != id.name
  {
    if SourceName(capp, k) == id.name {
      SourceNamesDiffer(capp, p, k);
      assert false;
    }
  }

  lemma NotBothLabelled(pings: Table, kafkas: Table, secrets: Table, capp: Capp, env: Env, id: Id)
    requires !capp.deleting && DistinctSources(capp.spec.sources) && OneConfiguration(capp.spec.sources)
    requires id in Labelled(PingSource, Passed(PingSource, pings, secrets, capp, env), capp)
    ensures id !in Labelled(KafkaSource, Passed(KafkaSource, kafkas, secrets, capp, env), capp)
  {
    LabelledIsNamed(PingSource, pings, secrets, capp, env, id);
    var p :| p in capp.spec.sources && SourceOf(PingSource, p) && SourceName(capp, p) == id.name;
    if id in Labelled(KafkaSource, Passed(KafkaSource, kafkas, secrets, capp, env), capp) {
      LabelledIsNamed(KafkaSource, kafkas, secrets, capp, env, id);
      var k :| k in capp.spec.sources && SourceOf(KafkaSource, k) && SourceName(capp, k) == id.name;
      NoSharedName(capp, id, p, k);
    }
  }

  /** So for an admitted Capp no PingSource shares its name with a KafkaSource, which is what makes the
      status independent of listing order. */
  lemma AdmittedSourcesDistinct(before: Tables, after: Tables, capp: Capp, env: Env)
    requires PassBy(before, after, capp, env) && !capp.deleting
    requires DistinctSources(capp.spec.sources) && OneConfiguration(capp.spec.sources)
    ensures SourceNamesDistinct(after, capp)
  {
    forall id | id in Labelled(PingSource, after(PingSource), capp)
      ensures id !in Labelled(KafkaSource, after(KafkaSource), capp)
    {
      NotBothLabelled(before(PingSource), before(KafkaSource), before(Secret), capp, env, id);
    }
  }

  lemma QuietManagerKeeps(kind: Kind, t: Table, secrets: Table, capp: Capp, env: Env)
    requires kind != Secret && Quiet(kind, t, secrets, capp, env)
    ensures Passed(kind, t, secrets, capp, env) == t
  {
    var children := Children(kind, secrets, capp, env);
    if IsRequired(kind, capp) && kind != CNAMERecord {
      SettledUpserts(t, Ref(capp), children);
    }
  }

  /** A pass that has nothing to write changes nothing. */
  lemma QuietPassChangesNothing(before: Tables, after: Tables, capp: Capp, env: Env)
    requires QuietAll(before, capp, env) && PassBy(before, after, capp, env)
    ensures forall kind: Kind :: after(kind) == before(kind)
  {
    forall kind: Kind ensures after(kind) == before(kind) {
      if kind != Secret {
        QuietManagerKeeps(kind, before(kind), before(Secret), capp, env);
      } else {
        assert Quiet(DomainMapping, before(DomainMapping), before(Secret), capp, env);
      }
    }
  }

  /** Two versions of a Capp that differ in finalizers and status only: its managers see no difference. */
  predicate SameToManagers(a: Capp, b: Capp) {
    b == a.(finalizers := b.finalizers, status := b.status)
  }

  lemma {:induction false} SameSourceChildren(kind: Kind, a: Capp, b: Capp, sources: seq<Source>)
    requires SameToManagers(a, b)
    ensures SourceChildren(kind, a, sources) == SourceChildren(kind, b, sources)
  {
    if sources != [] {
      SameSourceChildren(kind, a, b, sources[..|sources| - 1]);
    }
  }

  lemma {:induction false} SameVolumeChildren(a: Capp, b: Capp, volumes: seq<NfsVolume>)
    requires SameToManagers(a, b)
    ensures VolumeChildren(a, volumes) == VolumeChildren(b, volumes)
  {
    if volumes != [] {
      SameVolumeChildren(a, b, volumes[..|volumes| - 1]);
    }
  }

  lemma SameChildren(kind: Kind, a: Capp, b: Capp, env: Env, secrets: Table)
    requires SameToManagers(a, b)
    ensures Children(kind, secrets, a, env) == Children(kind, secrets, b, env)
      && IsRequired(kind, a) == IsRequired(kind, b)
  {
    SameSourceChildren(kind, a, b, a.spec.sources);
    SameVolumeChildren(a, b, a.spec.volumes);
  }

  lemma SameQuiet(kind: Kind, a: Capp, b: Capp, env: Env, t: Table, secrets: Table)
    requires SameToManagers(a, b)
    ensures Quiet(kind, t, secrets, a, env) == Quiet(kind, t, secrets, b, env)
  {
    SameChildren(kind, a, b, env, secrets);
  }

  lemma SameQuietAll(tables: Tables, a: Capp, b: Capp, env: Env)
    requires SameToManagers(a, b)
    ensures QuietAll(tables, a, env) == QuietAll(tables, b, env)
  {
    forall kind: Kind | kind != Secret
      ensures Quiet(kind, tables(kind), tables(Secret), a, env) == Quiet(kind, tables(kind), tables(Secret), b, env)
    {
      SameQuiet(kind, a, b, env, tables(kind), tables(Secret));
    }
  }

  lemma {:induction false} SameRevisions(all: seq<KnativeRevision>, a: Capp, b: Capp)
    requires SameToManagers(a, b)
    ensures RevisionsOf(all, a) == RevisionsOf(all, b)
  {
    if all != [] {
      SameRevisions(all[1..], a, b);
    }
  }

  lemma {:induction false} SameRevisionsSeen(infos: seq<RevisionInfo>, all: seq<KnativeRevision>, a: Capp, b: Capp)
    requires SameToManagers(a, b) && RevisionsSeen(infos, all, a)
    ensures RevisionsSeen(infos, all, b)
  {
    SameRevisions(all, a, b);
    var page: seq<KnativeRevision> :| RevisionPage(page, all, a) && infos == InfosOf(page);
    assert RevisionPage(page, all, b);
  }

  lemma SameEventsSeen(events: seq<EventSourceStatus>, x: Tables, y: Tables, a: Capp, b: Capp, now: int)
    requires SameToManagers(a, b) && x(PingSource) == y(PingSource) && x(KafkaSource) == y(KafkaSource)
    requires EventsSeen(events, x, a, now)
    ensures EventsSeen(events, y, b, now)
  {
    var pings, kafkas :| EventsReport(events, pings, kafkas, x, a, now);
    assert EventsReport(events, pings, kafkas, y, b, now);
  }

  /** What can be seen depends on the tables one by one, and not on finalizers and status. */
  lemma {:induction false} SameSeen(seen: Observed, x: Tables, y: Tables, revisions: seq<KnativeRevision>, a: Capp,
                                    b: Capp, env: Env, now: int)
    requires SameToManagers(a, b) && forall kind: Kind :: x(kind) == y(kind)
    requires Observes(seen, x, revisions, a, env, now)
    ensures Observes(seen, y, revisions, b, env, now)
  {
    SameEventsSeen(seen.events, x, y, a, b, now);
    if IsRequired(Service, a) && a.id in x(Service) {
      SameRevisionsSeen(seen.revisions, revisions, a, b);
    }
    assert VolumesSeen(x(NfsPvc), a, a.spec.volumes) == VolumesSeen(y(NfsPvc), b, b.spec.volumes);
  }

  /** A live Capp with its finalizer whose reconcile is done, with the trace of that reconcile. */
  ghost predicate DoneAs(before: Tables, capps: map<Id, Capp>, after: Tables, capps': map<Id, Capp>,
                         revisions: seq<KnativeRevision>, id: Id, env: Env, now: int,
                         trace: SyncTrace, seen: Observed) {
    ReconciledAs(before, capps, after, capps', revisions, id, env, now, trace, seen) && VerdictOf(trace) == Done
  }

  lemma StatusOnlyLeaves(capps: map<Id, Capp>, capps': map<Id, Capp>, id: Id)
    requires id in capps && capps[id].id == id && StatusOnly(capps[id := WithFinalizer(capps[id])], capps', id)
    ensures id in capps' && SameToManagers(capps[id], capps'[id]) && FINALIZER in capps'[id].finalizers
    ensures FINALIZER in capps[id].finalizers && capps'[id].status == capps[id].status ==> capps' == capps
  {
    if FINALIZER in capps[id].finalizers {
      assert WithFinalizer(capps[id]) == capps[id];
      assert capps[id := capps[id]] == capps;
    }
  }

  /** The Capp as the second of two reconciles finds it. */
  lemma DoneLeaves(before: Tables, capps: map<Id, Capp>, after: Tables, capps': map<Id, Capp>,
                   revisions: seq<KnativeRevision>, id: Id, env: Env, now: int, trace: SyncTrace, seen: Observed)
    requires DoneAs(before, capps, after, capps', revisions, id, env, now, trace, seen)
    ensures PassBy(before, after, capps[id], env) && Observes(seen, after, revisions, capps[id], env, now)
    ensures id in capps' && SameToManagers(capps[id], capps'[id]) && FINALIZER in capps'[id].finalizers
    ensures StatusSynced(capps[id].status, capps'[id].status, seen, capps[id], [], now)
    ensures FINALIZER in capps[id].finalizers && capps'[id].status == capps[id].status ==> capps' == capps
  {
    DoneIsPassed(before, capps, after, capps', revisions, id, env, now, trace, seen);
    StatusOnlyLeaves(capps, capps', id);
  }

  /** A reconcile that is done and leaves the Capp Ready leaves the whole Capp in service. */
  lemma DoneAndReadyIsInService(before: Tables, capps: map<Id, Capp>, after: Tables, capps': map<Id, Capp>,
                                revisions: seq<KnativeRevision>, id: Id, env: Env, now: int,
                                trace: SyncTrace, seen: Observed)
    requires DoneAs(before, capps, after, capps', revisions, id, env, now, trace, seen)
    requires id in capps' && SaysReady(capps'[id].status.conditions)
    ensures InService(after, capps[id], env)
  {
    DoneLeaves(before, capps, after, capps', revisions, id, env, now, trace, seen);
    ReadyMeansInService(before, after, revisions, capps[id], env, now, capps[id].status, capps'[id].status, seen);
  }

  /** What admission and the resource definition say of a Capp, and the server of Knative revisions. */
  ghost predicate WellFormed(capp: Capp, revisions: seq<KnativeRevision>) {
    && KnownState(capp) && DistinctSources(capp.spec.sources) && OneConfiguration(capp.spec.sources)
    && |RevisionsOf(revisions, capp)| <= PAGE_LIMIT && RevisionNamesDistinct(RevisionsOf(revisions, capp))
  }

  lemma SecondStatusSilent(before: Tables, mid: Tables, revisions: seq<KnativeRevision>, capp: Capp, again: Capp,
                           env: Env, a: Observed, b: Observed, t1: int, t2: int)
    requires WellFormed(capp, revisions) && !capp.deleting && SameToManagers(capp, again)
    requires PassBy(before, mid, capp, env) && Observes(a, mid, revisions, capp, env, t1)
    requires StatusSynced(capp.status, again.status, a, capp, [], t1)
    requires Observes(b, mid, revisions, capp, env, t2)
    ensures Strip(NextStatus(again.status, b, again, [], t2)) == Strip(again.status)
  {
    AdmittedSourcesDistinct(before, mid, capp, env);
    ObservationsAgree(a, b, mid, revisions, capp, env, t1, t2);
    SecondSyncSilent(capp.status, again.status, a, b, capp, [], t1, t2);
    SameNext(again.status, b, capp, again, t2);
  }

  lemma SameNext(prior: CappStatus, seen: Observed, a: Capp, b: Capp, now: int)
    requires SameToManagers(a, b)
    ensures NextStatus(prior, seen, a, [], now) == NextStatus(prior, seen, b, [], now)
  {
  }

  /** Convergence of the whole reconcile: when two reconciles of a well-formed Capp are done one after the
      other and nothing else happens, the second writes neither a child nor the Capp exactly when volumes of
      one name are one volume. (Its child writes are none exactly when all managers were quiet before it.) */
  lemma SecondReconcileSilentIff(before: Tables, capps: map<Id, Capp>, mid: Tables, capps1: map<Id, Capp>,
                                 after: Tables, capps2: map<Id, Capp>, revisions: seq<KnativeRevision>, id: Id,
                                 env: Env, t1: int, first: SyncTrace, a: Observed,
                                 t2: int, second: SyncTrace, b: Observed)
    requires DoneAs(before, capps, mid, capps1, revisions, id, env, t1, first, a)
    requires DoneAs(mid, capps1, after, capps2, revisions, id, env, t2, second, b)
    requires WellFormed(capps[id], revisions)
    ensures (QuietAll(mid, capps1[id], env) && capps2 == capps1) <==> VolumesAgree(capps[id].spec.volumes)
  {
    DoneLeaves(before, capps, mid, capps1, revisions, id, env, t1, first, a);
    DoneLeaves(mid, capps1, after, capps2, revisions, id, env, t2, second, b);
    var capp, again := capps[id], capps1[id];
    AdmittedSecondPassSilentIff(before, mid, capp, env);
    SameQuietAll(mid, capp, again, env);
    if VolumesAgree(capp.spec.volumes) {
      QuietPassChangesNothing(mid, after, again, env);
      SameSeen(b, after, mid, revisions, again, capp, env, t2);
      SecondStatusSilent(before, mid, revisions, capp, again, env, a, b, t1, t2);
    }
  }

  // ---------------------------------------------------------------- watches

  /** The condition test of the watches: did the status of the first Ready condition change, a missing
      condition reading as the empty string? */
  function ReadyStatus(conditions: seq<Condition>): string {
    match FindReady(conditions)
    case Some(c) => c.status
    case None => ""
  }

  predicate ConditionStatusChanged(before: seq<Condition>, after: seq<Condition>) {
    ReadyStatus(before) != ReadyStatus(after)
  }

  predicate OneReadyAtMost(conditions: seq<Condition>) {
    forall i, j :: 0 <= i < j < |conditions| ==> !(conditions[i].ctype == READY && conditions[j].ctype == READY)
  }

  /** With at most one Ready condition, the cascade objects exactly when there is one and it is not true. */
  lemma {:induction false} UnreadyByStatus(conditions: seq<Condition>)
    requires OneReadyAtMost(conditions)
    ensures FindUnready(conditions).Some? <==>
      FindReady(conditions).Some? && FindReady(conditions).value.status != "True"
  {
    if conditions != [] {
      UnreadyByStatus(conditions[1..]);
      if conditions[0].ctype == READY {
        FindUnreadyIff(conditions[1..]);
      }
    }
  }

  /** One side reports a Ready condition with an empty status, the other none at all. */
  predicate EmptyAgainstNone(a: seq<Condition>, b: seq<Condition>) {
    && (exists c :: c in a && c.ctype == READY && c.status == "")
    && (forall c :: c in b ==> c.ctype != READY)
  }

  lemma {:induction false} FindReadyMember(conditions: seq<Condition>)
    ensures FindReady(conditions).None? <==> forall c :: c in conditions ==> c.ctype != READY
    ensures FindReady(conditions).Some? ==> FindReady(conditions).value in conditions
    ensures OneReadyAtMost(conditions) ==> forall c :: c in conditions && c.ctype == READY ==>
      FindReady(conditions) == Some(c)
  {
    if conditions != [] {
      FindReadyMember(conditions[1..]);
      assert conditions == [conditions[0]] + conditions[1..];
    }
  }

  /** When a route object's readiness verdict changes, the watch fires - except between no Ready
      condition and one with an empty status, which look the same to it. */
  lemma {:induction false} RouteWatchFiresIff(before: seq<Condition>, after: seq<Condition>)
    requires OneReadyAtMost(before) && OneReadyAtMost(after)
    requires FindUnready(before).Some? != FindUnready(after).Some?
    ensures ConditionStatusChanged(before, after) <==>
      !EmptyAgainstNone(before, after) && !EmptyAgainstNone(after, before)
  {
    FindReadyMember(before);
    FindReadyMember(after);
    UnreadyByStatus(before);
    UnreadyByStatus(after);
  }

  /** With two Ready conditions the watch can miss a change of the verdict. */
  lemma DuplicateConditionsMissed()
    ensures var yes := Condition(READY, "True", "", "", 0); var no := Condition(READY, "False", "", "", 0);
      FindUnready([yes]).None? && FindUnready([yes, no]).Some? && !ConditionStatusChanged([yes], [yes, no])
  {
    var yes, no := Condition(READY, "True", "", "", 0), Condition(READY, "False", "", "", 0);
    assert [yes, no][1..] == [no] && [yes][1..] == [];
  }

  /** The Service watch: a change of the spec, or of the revision names in the status. */
  predicate ServiceWatchFires(before: Status, after: Status, specChanged: bool) {
    specChanged || before.latestReady != after.latestReady || before.latestCreated != after.latestCreated
  }

  /** After an update of the status alone that the watch does not see, a serving Service is out of service exactly
      when its first Ready condition is gone or not true. */
  lemma UnwatchedLossIsConditions(before: Status, after: Status)
    requires KnativeServing(before) && !ServiceWatchFires(before, after, false)
    ensures !KnativeServing(after)
       <==> FindReady(after.conditions).None? || FindReady(after.conditions).value.status != "True"
  {
    FindReadyIff(after.conditions);
    if KnativeServing(after) {
      var i :| 0 <= i < |after.conditions| && FirstReadyTrue(after.conditions, i);
    }
  }

  /** And every serving Service can be lost that way. */
  lemma ServiceReadinessUnwatched(before: Status, message: string, now: int)
    requires KnativeServing(before)
    ensures var after := before.(conditions := [Condition(READY, "False", "", message, now)]);
      !KnativeServing(after) && !ServiceWatchFires(before, after, false)
  {
    FindReadyIff([Condition(READY, "False", "", message, now)]);
  }
}
