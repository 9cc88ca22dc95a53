/** What a status sync leaves on the Capp, field by field, in terms of the cluster it saw. */
module Reports {
  import opened Objects
  import opened Cluster
  import opened Desired
  import opened Naming
  import opened Convergence
  import opened Sorting
  import opened Text
  import opened StatusSync
  import opened Controller
  import opened Readiness

  // ---------------------------------------------------------------- what a status says

  /** The status of the object, none when it is missing or not asked for. */
  ghost predicate Mirrors(stored: Status, t: Table, id: Id, asked: bool) {
    stored == if asked && id in t then t[id].status else NO_STATUS
  }

  /** The same up to the times of its conditions, which alone are not worth a write. */
  ghost predicate MirrorsButTimes(stored: Status, t: Table, id: Id, asked: bool) {
    exists s: Status :: Mirrors(s, t, id, asked)
      && stored == s.(conditions := stored.conditions) && SameConditions(stored.conditions, s.conditions)
  }

  ghost predicate VolumesTold(volumes: seq<VolumeStatus>, t: Table, capp: Capp) {
    && |volumes| == |capp.spec.volumes|
    && forall i :: 0 <= i < |volumes| ==>
         var id := Id(capp.id.ns, capp.spec.volumes[i].name);
         && volumes[i].name == id.name
         && volumes[i].pvPhase == (if id in t then t[id].status.pvPhase else "")
         && volumes[i].pvcPhase == (if id in t then t[id].status.pvcPhase else "")
  }

  predicate RevisionOf(r: KnativeRevision, capp: Capp) {
    r.id.ns == capp.id.ns && r.configuration == capp.id.name
  }

  /** The oldest first, those of one second by name; of each its name and its status. */
  ghost predicate RevisionReport(infos: seq<RevisionInfo>, page: seq<KnativeRevision>) {
    && |infos| == |page|
    && (forall i :: 0 <= i < |page| ==> infos[i].name == page[i].id.name && infos[i].status == page[i].status)
    && forall i, j :: 0 <= i < j < |page| ==>
         || page[i].created < page[j].created
         || (page[i].created == page[j].created && !Less(page[j].id.name, page[i].id.name))
  }

  /** A page of the Capp's revisions, all of them unless it is full. */
  ghost predicate RevisionsListed(page: seq<KnativeRevision>, all: seq<KnativeRevision>, capp: Capp) {
    && |page| <= 100
    && forall r ::
         && (r in page ==> RevisionOf(r, capp)) && multiset(page)[r] <= multiset(all)[r]
         && (|page| < 100 && RevisionOf(r, capp) ==> multiset(page)[r] == multiset(all)[r])
  }

  ghost predicate RevisionsTold(infos: seq<RevisionInfo>, all: seq<KnativeRevision>, capp: Capp) {
    exists page: seq<KnativeRevision> :: RevisionsListed(page, all, capp) && RevisionReport(infos, page)
  }

  /** The first Ready condition of a source, or that nothing is known. */
  ghost predicate ReadinessTold(c: Condition, conditions: seq<Condition>) {
    && c.ctype == "Ready"
    && (|| (exists i :: FirstReadyAt(conditions, i) && c.status == conditions[i].status
                        && c.reason == conditions[i].reason && c.message == conditions[i].message)
        || ((forall i :: 0 <= i < |conditions| ==> conditions[i].ctype != "Ready")
            && c.status == "Unknown" && c.reason == "" && c.message == "Source readiness not known"))
  }

  ghost predicate FirstReadyAt(conditions: seq<Condition>, i: int) {
    && 0 <= i < |conditions| && conditions[i].ctype == "Ready"
    && forall j :: 0 <= j < i ==> conditions[j].ctype != "Ready"
  }

  /** A source that is found to be the Capp's. */
  ghost predicate FoundSource(kind: Kind, tables: Tables, capp: Capp, id: Id) {
    IsSourceKind(kind) && id in tables(kind) && Found(kind, id, tables(kind)[id].labels, capp)
  }

  /** One entry for each source found to be the Capp's, in the order of the names. */
  ghost predicate EventsTold(events: seq<EventSourceStatus>, tables: Tables, capp: Capp) {
    && (forall i, j :: 0 <= i < j < |events| ==> !Less(events[j].name, events[i].name))
    && (forall kind, id :: FoundSource(kind, tables, capp, id) ==>
          exists e :: e in events && EventTells(e, kind, tables, id))
    && (forall e :: e in events ==> TellsOfSource(e, tables, capp))
  }

  ghost predicate TellsOfSource(e: EventSourceStatus, tables: Tables, capp: Capp) {
    exists kind, id :: FoundSource(kind, tables, capp, id) && EventTells(e, kind, tables, id)
  }

  ghost predicate EventTells(e: EventSourceStatus, kind: Kind, tables: Tables, id: Id) {
    id in tables(kind) && e.name == id.name && ReadinessTold(e.condition, tables(kind)[id].status.conditions)
  }

  ghost predicate StatusTells(stored: CappStatus, tables: Tables, revisions: seq<KnativeRevision>, capp: Capp,
                              env: Env) {
    var hosted, enabled := capp.spec.route.hostname != "", capp.spec.state == "enabled";
    var route := Id(capp.id.ns, GenerateResourceName(capp.spec.route.hostname, env.config.dns.zone));
    && stored.state.state == capp.spec.state
    && Mirrors(stored.knative, tables(Service), capp.id, enabled)
    && (if enabled && capp.id in tables(Service) then RevisionsTold(stored.revisions, revisions, capp)
        else stored.revisions == [])
    && Mirrors(stored.route.domainMapping, tables(DomainMapping), route, hosted)
    && MirrorsButTimes(stored.route.cname, tables(CNAMERecord), route, hosted)
    && MirrorsButTimes(stored.route.certificate, tables(Certificate), route, hosted && capp.spec.route.tlsEnabled)
    && VolumesTold(stored.volumes, tables(NfsPvc), capp)
    && EventsTold(stored.events, tables, capp)
  }

  // ---------------------------------------------------------------- revisions

  lemma {:induction false} RevisionsOfCount(all: seq<KnativeRevision>, capp: Capp, r: KnativeRevision)
    ensures multiset(RevisionsOf(all, capp))[r] == if RevisionOf(r, capp) then multiset(all)[r] else 0
  {
    if all != [] {
      RevisionsOfCount(all[1..], capp, r);
      var rest := RevisionsOf(all[1..], capp);
      assert all == [all[0]] + all[1..];
      assert multiset(all) == multiset{all[0]} + multiset(all[1..]);
      assert multiset([all[0]] + rest) == multiset{all[0]} + multiset(rest);
    }
  }

  lemma PageListed(page: seq<KnativeRevision>, all: seq<KnativeRevision>, capp: Capp)
    requires RevisionPage(page, all, capp)
    ensures RevisionsListed(page, all, capp)
  {
    var mine := RevisionsOf(all, capp);
    assert |multiset(page)| == |page| && |multiset(mine)| == |mine|;
    forall r ensures
      && (r in page ==> RevisionOf(r, capp)) && multiset(page)[r] <= multiset(all)[r]
      && (|page| < 100 && RevisionOf(r, capp) ==> multiset(page)[r] == multiset(all)[r])
    {
      RevisionsOfCount(all, capp, r);
      assert multiset(page)[r] <= multiset(mine)[r];
      assert r in page <==> multiset(page)[r] > 0;
    }
  }

  lemma InfosReport(page: seq<KnativeRevision>)
    requires Ordered(page, RevisionLess)
    ensures RevisionReport(InfosOf(page), page)
  {
    forall i, j | 0 <= i < j < |page|
      ensures page[i].created < page[j].created
        || (page[i].created == page[j].created && !Less(page[j].id.name, page[i].id.name))
    {
      assert !RevisionLess(page[j], page[i]);
    }
  }

  lemma SeenRevisionsTold(infos: seq<RevisionInfo>, all: seq<KnativeRevision>, capp: Capp)
    requires RevisionsSeen(infos, all, capp)
    ensures RevisionsTold(infos, all, capp)
  {
    var page: seq<KnativeRevision> :| RevisionPage(page, all, capp) && infos == InfosOf(page);
    PageListed(page, all, capp);
    InfosReport(page);
  }

  // ---------------------------------------------------------------- event sources

  lemma {:induction false} FindReadyAt(conditions: seq<Condition>)
    ensures match FindReady(conditions)
      case Some(c) => exists i :: FirstReadyAt(conditions, i) && conditions[i] == c
      case None => forall i :: 0 <= i < |conditions| ==> conditions[i].ctype != "Ready"
  {
    if conditions != [] {
      var rest := conditions[1..];
      FindReadyAt(rest);
      if conditions[0].ctype == READY {
        assert FirstReadyAt(conditions, 0);
      } else if FindReady(rest).Some? {
        var i :| FirstReadyAt(rest, i) && rest[i] == FindReady(rest).value;
        assert FirstReadyAt(conditions, i + 1);
      }
    }
  }

  lemma EventOfTells(source: Child, now: int)
    ensures ReadinessTold(EventOf(source, now).condition, source.obj.status.conditions)
  {
    FindReadyAt(source.obj.status.conditions);
  }

  /** Where the i-th source listed was found. */
  lemma ListedFound(kind: Kind, items: seq<Child>, tables: Tables, capp: Capp, i: nat)
    requires IsSourceKind(kind) && Lists(items, tables(kind), capp.id.ns, Selector(kind, capp)) && i < |items|
    ensures FoundSource(kind, tables, capp, items[i].id) && tables(kind)[items[i].id] == items[i].obj
  {
    SelectsFound(kind, items[i].id, items[i].obj.labels, capp);
  }

  lemma FoundListed(kind: Kind, items: seq<Child>, tables: Tables, capp: Capp, id: Id) returns (i: nat)
    requires Lists(items, tables(kind), capp.id.ns, Selector(kind, capp)) && FoundSource(kind, tables, capp, id)
    ensures i < |items| && items[i].id == id && items[i].obj == tables(kind)[id]
  {
    SelectsFound(kind, id, tables(kind)[id].labels, capp);
    assert id in Matching(tables(kind), capp.id.ns, Selector(kind, capp));
    i :| 0 <= i < |items| && items[i].id == id;
  }

  /** Reports that agree up to times with those on the listed sources. */
  ghost predicate ReportsOn(events: seq<EventSourceStatus>, all: seq<Child>, now: int) {
    && (forall i, j :: 0 <= i < j < |events| ==> !Less(events[j].name, events[i].name))
    && (forall k :: 0 <= k < |all| ==> HasReport(events, all[k], now))
    && (forall e :: e in events ==> IsReport(e, all, now))
  }

  ghost predicate HasReport(events: seq<EventSourceStatus>, source: Child, now: int) {
    exists i :: 0 <= i < |events| && ReportsSource(events[i], source, now)
  }

  ghost predicate IsReport(e: EventSourceStatus, all: seq<Child>, now: int) {
    exists k :: 0 <= k < |all| && ReportsSource(e, all[k], now)
  }

  predicate ReportsSource(e: EventSourceStatus, source: Child, now: int) {
    SameEvent(e, EventOf(source, now))
  }

  predicate SameEvent(a: EventSourceStatus, b: EventSourceStatus) {
    a.name == b.name && SameButSince(a.condition, b.condition)
  }

  lemma ReportReportsOn(seen: seq<EventSourceStatus>, stored: seq<EventSourceStatus>, all: seq<Child>, now: int)
    requires OrderedPermutation(seen, EventsOf(all, now), EventLess)
    requires |stored| == |seen| && forall i :: 0 <= i < |seen| ==> SameEvent(stored[i], seen[i])
    ensures ReportsOn(stored, all, now)
  {
    var reports := EventsOf(all, now);
    forall k | 0 <= k < |all| ensures HasReport(stored, all[k], now) {
      assert reports[k] in multiset(seen);
      var i :| 0 <= i < |seen| && seen[i] == reports[k];
      assert ReportsSource(stored[i], all[k], now);
    }
    forall e | e in stored ensures IsReport(e, all, now) {
      var i :| 0 <= i < |stored| && stored[i] == e;
      assert seen[i] in multiset(reports);
      var k :| 0 <= k < |reports| && reports[k] == seen[i];
      assert ReportsSource(e, all[k], now);
    }
    forall i, j | 0 <= i < j < |stored| ensures !Less(stored[j].name, stored[i].name) {
      assert !EventLess(seen[j], seen[i]);
    }
  }

  lemma SourceTells(e: EventSourceStatus, source: Child, kind: Kind, tables: Tables, now: int)
    requires ReportsSource(e, source, now) && source.id in tables(kind) && tables(kind)[source.id] == source.obj
    ensures EventTells(e, kind, tables, source.id)
  {
    EventOfTells(source, now);
    SameTold(e.condition, EventOf(source, now).condition, source.obj.status.conditions);
  }

  lemma SameTold(a: Condition, b: Condition, conditions: seq<Condition>)
    requires SameButSince(a, b) && ReadinessTold(b, conditions)
    ensures ReadinessTold(a, conditions)
  {
    if i :| FirstReadyAt(conditions, i) && b.status == conditions[i].status
            && b.reason == conditions[i].reason && b.message == conditions[i].message {
      assert FirstReadyAt(conditions, i) && a.status == conditions[i].status
        && a.reason == conditions[i].reason && a.message == conditions[i].message;
    }
  }

  /** Both listings together. */
  ghost predicate ListsBoth(all: seq<Child>, pings: seq<Child>, kafkas: seq<Child>, tables: Tables, capp: Capp) {
    && all == pings + kafkas
    && Lists(pings, tables(PingSource), capp.id.ns, Selector(PingSource, capp))
    && Lists(kafkas, tables(KafkaSource), capp.id.ns, Selector(KafkaSource, capp))
  }

  lemma BothFound(all: seq<Child>, pings: seq<Child>, kafkas: seq<Child>, tables: Tables, capp: Capp, k: nat)
    returns (kind: Kind)
    requires ListsBoth(all, pings, kafkas, tables, capp) && k < |all|
    ensures FoundSource(kind, tables, capp, all[k].id) && tables(kind)[all[k].id] == all[k].obj
  {
    if k < |pings| {
      kind := PingSource;
      ListedFound(kind, pings, tables, capp, k);
    } else {
      kind := KafkaSource;
      ListedFound(kind, kafkas, tables, capp, k - |pings|);
    }
  }

  lemma FoundInBoth(all: seq<Child>, pings: seq<Child>, kafkas: seq<Child>, tables: Tables, capp: Capp, kind: Kind,
                    id: Id)
    returns (k: nat)
    requires ListsBoth(all, pings, kafkas, tables, capp) && FoundSource(kind, tables, capp, id)
    ensures k < |all| && all[k].id == id && all[k].obj == tables(kind)[id]
  {
    if kind == PingSource {
      k := FoundListed(kind, pings, tables, capp, id);
    } else {
      var i := FoundListed(kind, kafkas, tables, capp, id);
      k := |pings| + i;
    }
  }

  lemma AllTold(events: seq<EventSourceStatus>, all: seq<Child>, pings: seq<Child>, kafkas: seq<Child>, tables: Tables,
                capp: Capp, now: int)
    requires ReportsOn(events, all, now) && ListsBoth(all, pings, kafkas, tables, capp)
    ensures EventsTold(events, tables, capp)
  {
    forall kind, id | FoundSource(kind, tables, capp, id)
      ensures exists e :: e in events && EventTells(e, kind, tables, id)
    {
      var k := FoundInBoth(all, pings, kafkas, tables, capp, kind, id);
      assert HasReport(events, all[k], now);
      var i :| 0 <= i < |events| && ReportsSource(events[i], all[k], now);
      SourceTells(events[i], all[k], kind, tables, now);
    }
    forall e | e in events ensures TellsOfSource(e, tables, capp) {
      assert IsReport(e, all, now);
      var k :| 0 <= k < |all| && ReportsSource(e, all[k], now);
      var kind := BothFound(all, pings, kafkas, tables, capp, k);
      SourceTells(e, all[k], kind, tables, now);
    }
  }

  lemma SeenEventsTold(seen: seq<EventSourceStatus>, stored: seq<EventSourceStatus>, tables: Tables, capp: Capp,
                       now: int)
    requires EventsSeen(seen, tables, capp, now)
    requires |stored| == |seen| && forall i :: 0 <= i < |seen| ==> SameEvent(stored[i], seen[i])
    ensures EventsTold(stored, tables, capp)
  {
    var pings: seq<Child>, kafkas: seq<Child> :| EventsReport(seen, pings, kafkas, tables, capp, now);
    ReportReportsOn(seen, stored, pings + kafkas, now);
    AllTold(stored, pings + kafkas, pings, kafkas, tables, capp, now);
  }

  // ---------------------------------------------------------------- the Ready condition's message

  ghost predicate FirstUnreadyAt(conditions: seq<Condition>, i: int) {
    && 0 <= i < |conditions| && conditions[i].ctype == "Ready" && conditions[i].status != "True"
    && forall j :: 0 <= j < i ==> conditions[j].ctype != "Ready" || conditions[j].status == "True"
  }

  lemma {:induction false} FindUnreadyAt(conditions: seq<Condition>)
    ensures FindUnready(conditions).Some? ==>
      exists i :: FirstUnreadyAt(conditions, i) && conditions[i] == FindUnready(conditions).value
  {
    if conditions != [] {
      var rest := conditions[1..];
      FindUnreadyAt(rest);
      if conditions[0].ctype == READY && conditions[0].status != "True" {
        assert FirstUnreadyAt(conditions, 0);
      } else if FindUnready(rest).Some? {
        var i :| FirstUnreadyAt(rest, i) && rest[i] == FindUnready(rest).value;
        assert FirstUnreadyAt(conditions, i + 1);
      }
    }
  }

  ghost predicate FirstUnboundAt(volumes: seq<VolumeStatus>, i: int) {
    0 <= i < |volumes| && !Bound(volumes[i]) && forall j :: 0 <= j < i ==> Bound(volumes[j])
  }

  lemma {:induction false} FindUnboundAt(volumes: seq<VolumeStatus>)
    ensures FindUnbound(volumes).Some? ==>
      exists i :: FirstUnboundAt(volumes, i) && volumes[i] == FindUnbound(volumes).value
  {
    if volumes != [] {
      var rest := volumes[1..];
      FindUnboundAt(rest);
      if !Bound(volumes[0]) {
        assert FirstUnboundAt(volumes, 0);
      } else if FindUnbound(rest).Some? {
        var i :| FirstUnboundAt(rest, i) && rest[i] == FindUnbound(rest).value;
        assert FirstUnboundAt(volumes, i + 1);
      }
    }
  }

  ghost predicate FirstSourceDownAt(events: seq<EventSourceStatus>, i: int) {
    && 0 <= i < |events| && events[i].condition.status != "True"
    && forall j :: 0 <= j < i ==> events[j].condition.status == "True"
  }

  lemma {:induction false} FindSourceDownAt(events: seq<EventSourceStatus>)
    ensures FindUnreadySource(events).Some? ==>
      exists i :: FirstSourceDownAt(events, i) && events[i] == FindUnreadySource(events).value
  {
    if events != [] {
      var rest := events[1..];
      FindSourceDownAt(rest);
      if events[0].condition.status != "True" {
        assert FirstSourceDownAt(events, 0);
      } else if FindUnreadySource(rest).Some? {
        var i :| FirstSourceDownAt(rest, i) && rest[i] == FindUnreadySource(rest).value;
        assert FirstSourceDownAt(events, i + 1);
      }
    }
  }

  /** Why the Service does not serve, in the words of the status. */
  ghost predicate ServiceTells(message: string, ks: Status) {
    if ks.conditions == [] then message == "Knative Service has no status yet"
    else if ks.latestCreated != "" && ks.latestCreated != ks.latestReady then
      message == "latest revision " + ks.latestCreated + " is not ready"
    else if forall i :: 0 <= i < |ks.conditions| ==> ks.conditions[i].ctype != "Ready" then
      message == "Knative Service Ready condition not found"
    else exists i :: FirstReadyAt(ks.conditions, i) && message == ks.conditions[i].message
  }

  lemma KnativeTells(ks: Status)
    ensures KnativeNotReady(ks).Some? ==> ServiceTells(KnativeNotReady(ks).value, ks)
  {
    FindReadyAt(ks.conditions);
  }

  ghost predicate MessageTells(c: Condition, status: CappStatus, errors: seq<ManagerError>) {
    && (c.reason == RESOURCE_SYNC_FAILED ==> errors != [] && c.message == ErrorText(errors[0]))
    && (c.reason == DOMAIN_MAPPING_NOT_READY ==> UnreadyTold(c.message, status.route.domainMapping.conditions))
    && (c.reason == CERTIFICATE_NOT_READY ==> UnreadyTold(c.message, status.route.certificate.conditions))
    && (c.reason == VOLUMES_NOT_READY ==>
          exists i :: FirstUnboundAt(status.volumes, i)
                      && c.message == "NFS volume " + status.volumes[i].name + " is not bound")
    && (c.reason == EVENTING_NOT_READY ==>
          exists i :: FirstSourceDownAt(status.events, i)
                      && c.message == "event source " + status.events[i].name + " is not ready")
    && (c.reason == KNATIVE_NOT_READY ==> ServiceTells(c.message, status.knative))
  }

  ghost predicate UnreadyTold(message: string, conditions: seq<Condition>) {
    exists i :: FirstUnreadyAt(conditions, i) && message == conditions[i].message
  }

  /** The condition is of type Ready, true or false, and its message is about the first thing that holds it back. */
  lemma ReadyTells(status: CappStatus, capp: Capp, errors: seq<ManagerError>)
    ensures var c := ComputeReady(status, capp, errors);
      && c.ctype == "Ready" && (c.status == "True" || c.status == "False")
      && (c.status == "True" ==> c.reason == "Ready" && c.message == "Capp is ready")
      && MessageTells(c, status, errors)
  {
    ReasonsDiffer();
    FindUnreadyAt(status.route.domainMapping.conditions);
    FindUnreadyAt(status.route.certificate.conditions);
    FindUnboundAt(status.volumes);
    FindSourceDownAt(status.events);
    KnativeTells(status.knative);
  }

  // ---------------------------------------------------------------- the whole status

  /** What is stored agrees with what was seen, up to times. */
  lemma StoredAgrees(prior: CappStatus, stored: CappStatus, seen: Observed, capp: Capp, errors: seq<ManagerError>,
                     now: int)
    requires StatusSynced(prior, stored, seen, capp, errors, now)
    ensures stored.knative == seen.knative && stored.revisions == seen.revisions && stored.volumes == seen.volumes
    ensures stored.route.domainMapping == seen.route.domainMapping
    ensures stored.route.cname == seen.route.cname.(conditions := stored.route.cname.conditions)
    ensures SameConditions(stored.route.cname.conditions, seen.route.cname.conditions)
    ensures stored.route.certificate == seen.route.certificate.(conditions := stored.route.certificate.conditions)
    ensures SameConditions(stored.route.certificate.conditions, seen.route.certificate.conditions)
    ensures |stored.events| == |seen.events| && stored.state.state == capp.spec.state
    ensures forall i :: 0 <= i < |seen.events| ==> SameEvent(stored.events[i], seen.events[i])
  {
    var next := NextStatus(prior, seen, capp, errors, now);
    SuppressedOnlyForTimes(stored, next);
  }

  lemma SeenTold(stored: CappStatus, seen: Observed, tables: Tables, revisions: seq<KnativeRevision>, capp: Capp,
                 env: Env, now: int)
    requires Observes(seen, tables, revisions, capp, env, now)
    ensures var hosted := capp.spec.route.hostname != "";
      var route := Id(capp.id.ns, GenerateResourceName(capp.spec.route.hostname, env.config.dns.zone));
      && Mirrors(seen.knative, tables(Service), capp.id, capp.spec.state == "enabled")
      && Mirrors(seen.route.domainMapping, tables(DomainMapping), route, hosted)
      && Mirrors(seen.route.cname, tables(CNAMERecord), route, hosted)
      && Mirrors(seen.route.certificate, tables(Certificate), route, hosted && capp.spec.route.tlsEnabled)
      && VolumesTold(seen.volumes, tables(NfsPvc), capp)
  {
  }

  /** A sync without error leaves a status that tells what is in the cluster. */
  lemma SyncTells(prior: CappStatus, stored: CappStatus, seen: Observed, tables: Tables,
                  revisions: seq<KnativeRevision>, capp: Capp, env: Env, errors: seq<ManagerError>, now: int)
    requires StatusSynced(prior, stored, seen, capp, errors, now) && Observes(seen, tables, revisions, capp, env, now)
    ensures StatusTells(stored, tables, revisions, capp, env)
  {
    StoredAgrees(prior, stored, seen, capp, errors, now);
    SeenTold(stored, seen, tables, revisions, capp, env, now);
    SeenEventsTold(seen.events, stored.events, tables, capp, now);
    if IsRequired(Service, capp) && capp.id in tables(Service) {
      SeenRevisionsTold(seen.revisions, revisions, capp);
    }
  }

  /** So does a reconcile that ends done; and the time of the last change of state moves just when the state does. */
  lemma DoneTells(before: Tables, capps: map<Id, Capp>, after: Tables, capps': map<Id, Capp>,
                  revisions: seq<KnativeRevision>, id: Id, env: Env, now: int, trace: SyncTrace, seen: Observed)
    requires DoneAs(before, capps, after, capps', revisions, id, env, now, trace, seen)
    ensures id in capps' && StatusTells(capps'[id].status, after, revisions, capps[id], env)
    ensures var prior, stored := capps[id].status.state, capps'[id].status.state;
      KnownState(capps[id]) ==>
        stored.lastChange == if prior.state == capps[id].spec.state then prior.lastChange else now
  {
    DoneLeaves(before, capps, after, capps', revisions, id, env, now, trace, seen);
    SyncTells(capps[id].status, capps'[id].status, seen, after, revisions, capps[id], env, [], now);
    StateTold(capps[id].status, capps'[id].status, seen, capps[id], [], now);
  }
}
