/** What the managers' results add up to: the tables become what the Capp asks for, and a second
    pass over an unchanged Capp writes nothing - with the exact conditions under which both hold. */
module Convergence {
  import opened Objects
  import opened Cluster
  import opened Desired
  import opened Managers

  // ---------------------------------------------------------------- owner references

  /** Setting an owner a second time changes nothing. */
  lemma {:induction false} SetOwnerIdempotent(owners: seq<OwnerRef>, ref: OwnerRef)
    ensures SetOwner(SetOwner(owners, ref), ref) == SetOwner(owners, ref)
  {
    if owners != [] && !SameOwner(owners[0], ref) {
      var rest := SetOwner(owners[1..], ref);
      SetOwnerIdempotent(owners[1..], ref);
      assert ([owners[0]] + rest)[1..] == rest;
    }
  }

  // ---------------------------------------------------------------- merging

  /** A spec that took `c` already is unmoved by `d` exactly when `c` alone is. */
  lemma MergeSettles(x: Spec, c: Spec, d: Spec)
    ensures Merge(Merge(x, c), d) == Merge(x, c) <==> Merge(c, d) == c
  {
  }

  // ---------------------------------------------------------------- the fold over the children

  lemma {:induction false} UpsertAllFrame(t: Table, ref: OwnerRef, children: seq<Child>)
    ensures UpsertAll(t, ref, children).Keys == t.Keys + Ids(children)
    ensures forall id :: id in t && id !in Ids(children) ==> UpsertAll(t, ref, children)[id] == t[id]
  {
    if children != [] {
      var before, last := children[..|children| - 1], children[|children| - 1];
      UpsertAllFrame(t, ref, before);
      assert children == before + [last];
      assert Ids(children) == Ids(before) + {last.id};
    }
  }

  ghost predicate CreatedFrom(o: Obj, wish: Obj) {
    o.labels == wish.labels && o.annotations == wish.annotations && o.status == NO_STATUS
  }

  /** No write moves an object to other labels or touches its status, and every object written ends
      with the Capp among its owners. */
  lemma {:induction false} UpsertAllKeeps(t: Table, ref: OwnerRef, children: seq<Child>, id: Id)
    requires id in Ids(children)
    ensures id in UpsertAll(t, ref, children)
    ensures ref in UpsertAll(t, ref, children)[id].owners
    ensures id in t ==> var o := UpsertAll(t, ref, children)[id];
      o.labels == t[id].labels && o.annotations == t[id].annotations && o.status == t[id].status
    ensures id !in t ==> exists c :: c in children && c.id == id && CreatedFrom(UpsertAll(t, ref, children)[id], c.obj)
  {
    var before, last := children[..|children| - 1], children[|children| - 1];
    assert children == before + [last];
    UpsertAllFrame(t, ref, before);
    if last.id == id {
      if id in Ids(before) {
        UpsertAllKeeps(t, ref, before, id);
      } else {
        assert last in children;
      }
    } else {
      assert id in Ids(before);
      UpsertAllKeeps(t, ref, before, id);
    }
  }

  ghost predicate DistinctIds(children: seq<Child>) {
    forall i, j :: 0 <= i < j < |children| ==> children[i].id != children[j].id
  }

  /** With distinct identities each child is laid over what was there before the pass. */
  lemma {:induction false} UpsertAllDistinct(t: Table, ref: OwnerRef, children: seq<Child>, i: nat)
    requires DistinctIds(children) && i < |children|
    ensures children[i].id in UpsertAll(t, ref, children)
    ensures UpsertAll(t, ref, children)[children[i].id] == Upsert(t, ref, children[i])[children[i].id]
  {
    var before, last := children[..|children| - 1], children[|children| - 1];
    UpsertAllFrame(t, ref, before);
    if i < |before| {
      UpsertAllDistinct(t, ref, before, i);
    } else {
      assert last.id !in Ids(before);
    }
  }

  /** The children that share an identity ask for the same thing, up to what a merge preserves. */
  ghost predicate Agree(children: seq<Child>) {
    forall i, j :: 0 <= i < |children| && 0 <= j < |children| && children[i].id == children[j].id ==>
      Merge(children[j].obj.spec, children[i].obj.spec) == children[j].obj.spec
  }

  /** The last child with a given identity decides what is stored under it. */
  lemma {:induction false} LastDecides(t: Table, ref: OwnerRef, children: seq<Child>, last: nat, c: Child)
    requires last < |children| && children[last].id == c.id
    requires forall k :: last < k < |children| ==> children[k].id != c.id
    ensures Settled(UpsertAll(t, ref, children), ref, c)
       <==> Merge(children[last].obj.spec, c.obj.spec) == children[last].obj.spec
  {
    var before, final := children[..|children| - 1], children[|children| - 1];
    if last < |before| {
      LastDecides(t, ref, before, last, c);
    } else {
      var t1 := UpsertAll(t, ref, before);
      var o := Upsert(t1, ref, final)[c.id];
      if c.id in t1 {
        SetOwnerIdempotent(t1[c.id].owners, ref);
        MergeSettles(t1[c.id].spec, final.obj.spec, c.obj.spec);
      } else {
        SetOwnerIdempotent(final.obj.owners, ref);
      }
    }
  }

  lemma {:induction false} LastIndex(children: seq<Child>, i: nat) returns (last: nat)
    requires i < |children|
    ensures i <= last < |children| && children[last].id == children[i].id
    ensures forall k :: last < k < |children| ==> children[k].id != children[i].id
    decreases |children| - i
  {
    if k :| i < k < |children| && children[k].id == children[i].id {
      last := LastIndex(children, k);
    } else {
      last := i;
    }
  }

  lemma MergeAgreesAround(last: Spec, a: Spec, b: Spec)
    requires Merge(last, a) == last && Merge(last, b) == last
    ensures Merge(b, a) == b
  {
  }

  /** After creating or updating every child, each is settled exactly when children that share an
      identity agree. Otherwise every later pass writes again. */
  lemma {:induction false} SettledIff(t: Table, ref: OwnerRef, children: seq<Child>)
    ensures AllSettled(UpsertAll(t, ref, children), ref, children) <==> Agree(children)
  {
    var u := UpsertAll(t, ref, children);
    if Agree(children) {
      forall i | 0 <= i < |children| ensures Settled(u, ref, children[i]) {
        var last := LastIndex(children, i);
        LastDecides(t, ref, children, last, children[i]);
      }
    }
    if AllSettled(u, ref, children) {
      forall i, j | 0 <= i < |children| && 0 <= j < |children| && children[i].id == children[j].id
        ensures Merge(children[j].obj.spec, children[i].obj.spec) == children[j].obj.spec
      {
        var last := LastIndex(children, i);
        assert forall k :: last < k < |children| ==> children[k].id != children[j].id;
        LastDecides(t, ref, children, last, children[i]);
        LastDecides(t, ref, children, last, children[j]);
        MergeAgreesAround(children[last].obj.spec, children[i].obj.spec, children[j].obj.spec);
      }
    }
  }

  // ---------------------------------------------------------------- what the children look like

  /** Every child a manager prepares is in the Capp's namespace, carries the Capp's labels, has no
      owner yet, no annotations unless it is a Service, and has a spec of its kind. */
  ghost predicate Proper(kind: Kind, capp: Capp, c: Child) {
    && c.id.ns == capp.id.ns && c.obj.labels == LabelsFor(kind, capp) && c.obj.owners == []
    && KindOf(c.obj.spec) == kind && c.obj.status == NO_STATUS && (kind != Service ==> c.obj.annotations == map[])
  }

  lemma {:induction false} SourcesProper(kind: Kind, capp: Capp, sources: seq<Source>)
    ensures forall c :: c in SourceChildren(kind, capp, sources) ==> Proper(kind, capp, c)
  {
    if sources != [] {
      SourcesProper(kind, capp, sources[..|sources| - 1]);
    }
  }

  lemma {:induction false} VolumesProper(capp: Capp, volumes: seq<NfsVolume>)
    ensures |VolumeChildren(capp, volumes)| == |volumes|
    ensures forall i :: 0 <= i < |volumes| ==> VolumeChildren(capp, volumes)[i] == VolumeChild(capp, volumes[i])
  {
    if volumes != [] {
      VolumesProper(capp, volumes[..|volumes| - 1]);
    }
  }

  lemma {:induction false} ServiceProper(capp: Capp, env: Env)
    ensures Proper(Service, capp, ServiceChild(capp, env))
  {
  }

  lemma {:induction false} RoutesProper(capp: Capp, env: Env, secrets: Table)
    ensures Proper(Certificate, capp, CertificateChild(capp, env))
    ensures Proper(DomainMapping, capp, DomainMappingChild(capp, env, secrets))
    ensures Proper(CNAMERecord, capp, RecordChild(capp, env))
  {
  }

  lemma {:induction false} ChildrenProper(kind: Kind, secrets: Table, capp: Capp, env: Env)
    ensures forall c :: c in Children(kind, secrets, capp, env) ==> Proper(kind, capp, c)
  {
    if kind == NfsPvc {
      VolumeChildrenProper(capp, capp.spec.volumes);
    } else if IsSourceKind(kind) {
      SourcesProper(kind, capp, capp.spec.sources);
    } else {
      ServiceProper(capp, env);
      RoutesProper(capp, env, secrets);
    }
  }

  lemma {:induction false} VolumeChildrenProper(capp: Capp, volumes: seq<NfsVolume>)
    ensures forall c :: c in VolumeChildren(capp, volumes) ==> Proper(NfsPvc, capp, c)
  {
    VolumesProper(capp, volumes);
  }

  lemma OwnLabelsMatch(kind: Kind, capp: Capp)
    ensures Matches(Selector(kind, capp), LabelsFor(kind, capp))
  {
  }

  /** The route objects of a Capp fit together: one name, one TLS secret - the one the Certificate fills,
      the DomainMapping refers to once it exists, and CleanUp deletes -, and a record of that name. */
  lemma RouteObjectsFit(capp: Capp, env: Env, secrets: Table)
    ensures var certificate, mapping, record :=
        CertificateChild(capp, env), DomainMappingChild(capp, env, secrets), RecordChild(capp, env);
      && certificate.id == mapping.id == record.id
      && certificate.obj.spec.dnsNames == [mapping.id.name]
      && certificate.obj.spec.commonName <= mapping.id.name && |certificate.obj.spec.commonName| <= 64
      && SecretId(mapping.id) == Id(capp.id.ns, certificate.obj.spec.secretName)
      && (mapping.obj.spec.tls.Some? <==> capp.spec.route.tlsEnabled && SecretId(mapping.id) in secrets)
      && (mapping.obj.spec.tls.Some? ==> mapping.obj.spec.tls.value == certificate.obj.spec.secretName)
  {
  }

  /** A source without a consumer group gets one of its own: no other source of the Capp without one
      shares it. */
  lemma DefaultGroupsDedicated(capp: Capp, a: Source, b: Source)
    requires a.kafka.Some? && b.kafka.Some? && a.name != b.name
    requires a.kafka.value.consumerGroup == b.kafka.value.consumerGroup == ""
    ensures KafkaChild(capp, a).obj.spec.consumerGroup != KafkaChild(capp, b).obj.spec.consumerGroup
  {
    if SourceName(capp, a) == SourceName(capp, b) {
      SourceNamesDiffer(capp, a, b);
    }
  }

  // ---------------------------------------------------------------- the refinement of the source managers

  ghost predicate DistinctSources(sources: seq<Source>) {
    forall i, j :: 0 <= i < j < |sources| ==> sources[i].name != sources[j].name
  }

  lemma SourceNamesDiffer(capp: Capp, a: Source, b: Source)
    requires SourceName(capp, a) == SourceName(capp, b)
    ensures a.name == b.name
  {
    var prefix := capp.id.name + "-";
    assert a.name == SourceName(capp, a)[|prefix|..] && b.name == SourceName(capp, b)[|prefix|..];
  }

  /** Sources with distinct names have children with distinct identities. */
  lemma {:induction false} SourceIdsDistinct(kind: Kind, capp: Capp, sources: seq<Source>)
    requires IsSourceKind(kind) && DistinctSources(sources)
    ensures DistinctIds(SourceChildren(kind, capp, sources))
  {
    if sources != [] {
      var before, last := sources[..|sources| - 1], sources[|sources| - 1];
      SourceIdsDistinct(kind, capp, before);
      if SourceOf(kind, last) {
        var children, id := SourceChildren(kind, capp, before), SourceChild(kind, capp, last).id;
        NamesAndIds(kind, capp, before, id);
        if id in Ids(children) {
          var s :| s in before && SourceOf(kind, s) && SourceName(capp, s) == id.name;
          SourceNamesDiffer(capp, s, last);
          assert false;
        }
        forall i | 0 <= i < |children| ensures children[i].id != id {
          assert children[i].id in Ids(children);
        }
      }
    }
  }

  /** With distinct source names, a successful Manage of PingSources or KafkaSources makes the set of
      objects labelled for the Capp exactly the desired set, each with its desired spec (a KafkaSource
      keeping its consumer group), and changes nothing else - if and only if no object of a desired
      name belongs to somebody else's label. */
  lemma SourcesRefine(kind: Kind, t: Table, secrets: Table, capp: Capp, env: Env)
    requires IsSourceKind(kind) && IsRequired(kind, capp) && DistinctSources(capp.spec.sources)
    ensures var children, after := Children(kind, secrets, capp, env), Wanted(kind, t, secrets, capp, env);
      && (forall c :: c in children ==>
            && c.id in after && Ref(capp) in after[c.id].owners
            && after[c.id].spec == if c.id in t then Merge(t[c.id].spec, c.obj.spec) else c.obj.spec)
      && (forall id :: id !in Ids(children) ==>
            (id in after <==> id in t && id !in Labelled(kind, t, capp)) && (id in after ==> after[id] == t[id]))
      && (Labelled(kind, after, capp) == Ids(children) <==>
            forall c :: c in children && c.id in t ==> c.id in Labelled(kind, t, capp))
  {
    var children, after := Children(kind, secrets, capp, env), Wanted(kind, t, secrets, capp, env);
    SourceIdsDistinct(kind, capp, capp.spec.sources);
    ChildrenProper(kind, secrets, capp, env);
    UpsertAllFrame(t, Ref(capp), children);
    forall c | c in children
      ensures c.id in after && Ref(capp) in after[c.id].owners
      ensures after[c.id].spec == if c.id in t then Merge(t[c.id].spec, c.obj.spec) else c.obj.spec
      ensures c.id in Labelled(kind, after, capp) <==> (c.id in t ==> c.id in Labelled(kind, t, capp))
    {
      ChildRefined(kind, t, capp, children, c);
    }
    assert forall id :: id in Labelled(kind, after, capp) ==> id in Ids(children);
  }

  /** One of several distinct children after all were applied: its spec, its owner and its label. */
  lemma {:induction false} ChildRefined(kind: Kind, t: Table, capp: Capp, children: seq<Child>, c: Child)
    requires DistinctIds(children) && c in children && forall d :: d in children ==> Proper(kind, capp, d)
    ensures var u := UpsertAll(t, Ref(capp), children);
      && c.id in u && Ref(capp) in u[c.id].owners
      && u[c.id].spec == (if c.id in t then Merge(t[c.id].spec, c.obj.spec) else c.obj.spec)
      && (c.id in Labelled(kind, u, capp) <==> (c.id in t ==> c.id in Labelled(kind, t, capp)))
  {
    var i :| 0 <= i < |children| && children[i] == c;
    OwnLabelsMatch(kind, capp);
    UpsertAllDistinct(t, Ref(capp), children, i);
    UpsertAllKeeps(t, Ref(capp), children, c.id);
  }

  /** Two Capps whose names and source names run together ask for one object. */
  lemma SourceNameCollision(ns: string, first: Capp, second: Capp, a: Source, b: Source)
    requires first.id == Id(ns, "a") && a.name == "b-c"
    requires second.id == Id(ns, "a-b") && b.name == "c"
    ensures SourceName(first, a) == SourceName(second, b)
  {
    assert SourceName(first, a) == "a-b-c" == SourceName(second, b);
  }

  /** They then undo each other's work for ever: whenever one has just reconciled, the other has a
      write to make. */
  lemma CollidingCappsNeverSettle(kind: Kind, t: Table, secrets: Table, first: Capp, second: Capp, env: Env,
                                  a: Source, b: Source)
    requires IsSourceKind(kind) && SourceOf(kind, a) && SourceOf(kind, b)
    requires first.id.ns == second.id.ns && first.id.name != second.id.name
    requires a in first.spec.sources && b in second.spec.sources
    requires SourceName(first, a) == SourceName(second, b) && DistinctSources(second.spec.sources)
    ensures IsRequired(kind, first) && IsRequired(kind, second)
    ensures !Quiet(kind, Wanted(kind, t, secrets, second, env), secrets, first, env)
  {
    SourceWanted(kind, secrets, first, env, a);
    SourceWanted(kind, secrets, second, env, b);
    SourcesRefine(kind, t, secrets, second, env);
    var mine, theirs := SourceChild(kind, first, a), SourceChild(kind, second, b);
    SinksDiffer(kind, first, second, a, b, if mine.id in t then t[mine.id].spec else theirs.obj.spec);
    assert !Settled(Wanted(kind, t, secrets, second, env), Ref(first), mine);
  }

  lemma {:induction false} SourceWanted(kind: Kind, secrets: Table, capp: Capp, env: Env, s: Source)
    requires IsSourceKind(kind) && SourceOf(kind, s) && s in capp.spec.sources
    ensures IsRequired(kind, capp) && SourceChild(kind, capp, s) in Children(kind, secrets, capp, env)
  {
    SourceChildIn(kind, capp, capp.spec.sources, s);
  }

  /** The events of the one go to the Service of the other. */
  lemma SinksDiffer(kind: Kind, first: Capp, second: Capp, a: Source, b: Source, stored: Spec)
    requires SourceOf(kind, a) && SourceOf(kind, b) && first.id.name != second.id.name
    ensures var theirs := Merge(stored, SourceChild(kind, second, b).obj.spec);
      Merge(theirs, SourceChild(kind, first, a).obj.spec) != theirs
  {
  }

  lemma {:induction false} SourceChildIn(kind: Kind, capp: Capp, sources: seq<Source>, s: Source)
    requires IsSourceKind(kind) && SourceOf(kind, s) && s in sources
    ensures SourceChild(kind, capp, s) in SourceChildren(kind, capp, sources)
  {
    var before, last := sources[..|sources| - 1], sources[|sources| - 1];
    assert sources == before + [last];
    if s != last || s in before {
      SourceChildIn(kind, capp, before, s);
    }
  }

  // ---------------------------------------------------------------- convergence

  /** The table of a kind after its manager succeeded. */
  function Passed(kind: Kind, t: Table, secrets: Table, capp: Capp, env: Env): Table {
    if IsRequired(kind, capp) then Wanted(kind, t, secrets, capp, env) else t - Doomed(kind, t, capp)
  }

  /** The tables after a pass in which every manager succeeded. */
  ghost predicate PassBy(before: Tables, after: Tables, capp: Capp, env: Env) {
    && (forall kind: Kind :: kind != Secret ==> after(kind) == Passed(kind, before(kind), before(Secret), capp, env))
    && after(Secret) ==
          if IsRequired(DomainMapping, capp) then before(Secret)
          else before(Secret) - TLSSecrets(before(DomainMapping), capp)
  }

  ghost predicate QuietAll(tables: Tables, capp: Capp, env: Env) {
    forall kind: Kind :: kind != Secret ==> Quiet(kind, tables(kind), tables(Secret), capp, env)
  }

  /** NFS volumes that share a name are the same volume. */
  ghost predicate VolumesAgree(volumes: seq<NfsVolume>) {
    forall i, j :: 0 <= i < |volumes| && 0 <= j < |volumes| && volumes[i].name == volumes[j].name ==>
      volumes[i] == volumes[j]
  }

  lemma {:induction false} VolumesAgreeIff(capp: Capp)
    ensures Agree(VolumeChildren(capp, capp.spec.volumes)) <==> VolumesAgree(capp.spec.volumes)
  {
    var volumes, children := capp.spec.volumes, VolumeChildren(capp, capp.spec.volumes);
    VolumesProper(capp, volumes);
    if Agree(children) {
      forall i, j | 0 <= i < |volumes| && 0 <= j < |volumes| && volumes[i].name == volumes[j].name
        ensures volumes[i] == volumes[j]
      {
        assert children[i].id == children[j].id;
      }
    }
  }

  /** For a required kind: after its manager succeeded it is quiet exactly when its children agree. */
  lemma QuietAfterIff(kind: Kind, t: Table, secrets: Table, capp: Capp, env: Env)
    requires kind != Secret && IsRequired(kind, capp)
    ensures Quiet(kind, Wanted(kind, t, secrets, capp, env), secrets, capp, env)
       <==> (kind == CNAMERecord || Agree(Children(kind, secrets, capp, env)))
  {
    var ref, children, after := Ref(capp), Children(kind, secrets, capp, env), Wanted(kind, t, secrets, capp, env);
    if kind == CNAMERecord {
      RecordQuietAfter(t, capp, env);
    } else {
      var u := UpsertAll(t, ref, children);
      SettledIff(t, ref, children);
      if IsSourceKind(kind) {
        assert Orphans(kind, after, capp, children) == {};
        forall i | 0 <= i < |children| ensures Settled(after, ref, children[i]) <==> Settled(u, ref, children[i]) {
          assert children[i].id in Ids(children);
        }
      }
    }
  }

  lemma RecordQuietAfter(t: Table, capp: Capp, env: Env)
    requires IsRequired(CNAMERecord, capp)
    ensures var c := RecordChild(capp, env); var after := UpsertRecord(t, Ref(capp), c);
      c.id in after && (after[c.id].spec.CNAMERecordSpec? ==> !RecordNeedsUpdate(after[c.id], c.obj, Ref(capp)))
    ensures var c := RecordChild(capp, env); UpsertRecord(t, Ref(capp), c)[c.id].spec.CNAMERecordSpec?
  {
  }

  /** How a manager finds what is a Capp's: the Service by its name, records by two labels, everything else by the
      name of the parent. */
  ghost predicate Found(kind: Kind, id: Id, labels: map<string, string>, capp: Capp) {
    if kind == Service then id == capp.id else
    && id.ns == capp.id.ns && PARENT_KEY in labels && labels[PARENT_KEY] == capp.id.name
    && (kind == CNAMERecord ==> PARENT_NS_KEY in labels && labels[PARENT_NS_KEY] == capp.id.ns)
  }

  /** Some owner is a Capp of this name. */
  ghost predicate NamedOwner(owners: seq<OwnerRef>, capp: Capp) {
    exists o :: o in owners && o.kind == CAPP_KIND && o.name == capp.id.name
  }

  lemma SelectsFound(kind: Kind, id: Id, labels: map<string, string>, capp: Capp)
    requires kind != Service
    ensures (id.ns == capp.id.ns && Matches(Selector(kind, capp), labels)) <==> Found(kind, id, labels, capp)
  {
    assert PARENT_KEY in Selector(kind, capp);
    assert kind == CNAMERecord ==> PARENT_NS_KEY in Selector(kind, capp);
  }

  /** A cleanup deletes what it finds, but leaves to garbage collection, and only once the Capp is being deleted, what
      the Capp owns. */
  lemma DoomedIff(kind: Kind, t: Table, capp: Capp, id: Id)
    ensures id in Doomed(kind, t, capp) <==>
      id in t && Found(kind, id, t[id].labels, capp) && !(capp.deleting && NamedOwner(t[id].owners, capp))
  {
    if id in t {
      if kind != Service {
        SelectsFound(kind, id, t[id].labels, capp);
      }
      OwnedIff(t[id].owners, capp);
    }
  }

  lemma OwnedIff(owners: seq<OwnerRef>, capp: Capp)
    ensures HasOwner(owners, Ref(capp)) <==> NamedOwner(owners, capp)
  {
    if o :| o in owners && o.kind == CAPP_KIND && o.name == capp.id.name {
      var i :| 0 <= i < |owners| && owners[i] == o;
      assert SameOwner(owners[i], Ref(capp));
    }
  }

  /** Of the secrets, those named after a mapping that is found. */
  lemma TLSSecretsIff(mappings: Table, capp: Capp, id: Id)
    ensures id in TLSSecrets(mappings, capp) <==>
      exists m :: m in mappings && Found(DomainMapping, m, mappings[m].labels, capp) && id == Id(m.ns, m.name + "-tls")
  {
    forall m | m in mappings
      ensures m in Labelled(DomainMapping, mappings, capp) <==> Found(DomainMapping, m, mappings[m].labels, capp)
    {
      SelectsFound(DomainMapping, m, mappings[m].labels, capp);
    }
  }

  /** For a kind that is not required: nothing is left to clean up. */
  lemma QuietAfterCleanUp(kind: Kind, t: Table, secrets: Table, capp: Capp, env: Env)
    requires kind != Secret && !IsRequired(kind, capp) && !capp.deleting
    ensures Quiet(kind, t - Doomed(kind, t, capp), secrets, capp, env)
  {
    var after := t - Doomed(kind, t, capp);
    assert Doomed(kind, after, capp) == {};
    if kind == DomainMapping {
      assert Labelled(kind, after, capp) == {};
    }
  }

  /** The Capp asks for one thing under each name of a kind. Kinds with a single object always do. */
  ghost predicate Consistent(kind: Kind, capp: Capp) {
    match kind
    case NfsPvc => |capp.spec.volumes| > 0 ==> Agree(VolumeChildren(capp, capp.spec.volumes))
    case PingSource => IsRequired(kind, capp) ==> Agree(SourceChildren(kind, capp, capp.spec.sources))
    case KafkaSource => IsRequired(kind, capp) ==> Agree(SourceChildren(kind, capp, capp.spec.sources))
    case _ => true
  }

  lemma KindSettlesIff(kind: Kind, before: Tables, after: Tables, capp: Capp, env: Env)
    requires kind != Secret && PassBy(before, after, capp, env) && !capp.deleting
    ensures Quiet(kind, after(kind), after(Secret), capp, env) <==> Consistent(kind, capp)
  {
    if !IsRequired(kind, capp) {
      QuietAfterCleanUp(kind, before(kind), after(Secret), capp, env);
    } else {
      QuietAfterIff(kind, before(kind), after(Secret), capp, env);
      assert kind == DomainMapping ==> after(Secret) == before(Secret);
      assert Children(kind, before(Secret), capp, env) == Children(kind, after(Secret), capp, env);
    }
  }

  /** After a pass without errors over a Capp that is not being deleted, a second pass writes nothing
      exactly when volumes of one name are one volume and sources of one name (of one kind) agree. */
  lemma {:induction false} SecondPassSilentIff(before: Tables, after: Tables, capp: Capp, env: Env)
    requires PassBy(before, after, capp, env) && !capp.deleting
    ensures QuietAll(after, capp, env) <==>
      && VolumesAgree(capp.spec.volumes)
      && (IsRequired(PingSource, capp) ==> Agree(SourceChildren(PingSource, capp, capp.spec.sources)))
      && (IsRequired(KafkaSource, capp) ==> Agree(SourceChildren(KafkaSource, capp, capp.spec.sources)))
  {
    VolumesAgreeIff(capp);
    forall kind: Kind | kind != Secret
      ensures Quiet(kind, after(kind), after(Secret), capp, env) <==> Consistent(kind, capp)
    {
      KindSettlesIff(kind, before, after, capp, env);
    }
    assert QuietAll(after, capp, env) <==>
      Consistent(NfsPvc, capp) && Consistent(PingSource, capp) && Consistent(KafkaSource, capp);
  }

  lemma DistinctAgree(children: seq<Child>)
    requires DistinctIds(children)
    ensures Agree(children)
  {
    forall i, j | 0 <= i < |children| && 0 <= j < |children| && children[i].id == children[j].id
      ensures Merge(children[j].obj.spec, children[i].obj.spec) == children[j].obj.spec
    {
      assert i == j;
    }
  }

  /** For a Capp with distinct source names, as admission demands, only the volumes matter. */
  lemma AdmittedSecondPassSilentIff(before: Tables, after: Tables, capp: Capp, env: Env)
    requires PassBy(before, after, capp, env) && !capp.deleting && DistinctSources(capp.spec.sources)
    ensures QuietAll(after, capp, env) <==> VolumesAgree(capp.spec.volumes)
  {
    SecondPassSilentIff(before, after, capp, env);
    SourceIdsDistinct(PingSource, capp, capp.spec.sources);
    SourceIdsDistinct(KafkaSource, capp, capp.spec.sources);
    DistinctAgree(SourceChildren(PingSource, capp, capp.spec.sources));
    DistinctAgree(SourceChildren(KafkaSource, capp, capp.spec.sources));
  }

  // ---------------------------------------------------------------- the DNS pre-check

  /** The UID in the first reference of this owner's kind and name. */
  function UidFor(owners: seq<OwnerRef>, ref: OwnerRef): Option<string> {
    if owners == [] then None
    else if SameOwner(owners[0], ref) then Some(owners[0].uid)
    else UidFor(owners[1..], ref)
  }

  lemma {:induction false} UidForIff(owners: seq<OwnerRef>, ref: OwnerRef)
    ensures SetOwner(owners, ref) == owners <==> UidFor(owners, ref) == Some(ref.uid)
    ensures HasOwner(owners, ref) <==> UidFor(owners, ref).Some?
  {
    if owners != [] && !SameOwner(owners[0], ref) {
      UidForIff(owners[1..], ref);
      assert owners == [owners[0]] + owners[1..];
      assert SetOwner(owners, ref)[1..] == SetOwner(owners[1..], ref);
      if HasOwner(owners, ref) {
        var i :| 0 <= i < |owners| && SameOwner(owners[i], ref);
        assert SameOwner(owners[1..][i - 1], ref);
      }
      if HasOwner(owners[1..], ref) {
        var k :| 0 <= k < |owners| - 1 && SameOwner(owners[1..][k], ref);
        assert SameOwner(owners[k + 1], ref);
      }
    } else if owners != [] {
      assert owners == [owners[0]] + owners[1..];
      assert SameOwner(owners[0], ref);
    }
  }

  /** The cheap check and the full update disagree exactly on a record that is as desired but whose first
      reference to a Capp of this name has another UID: the check is content with it, the update would
      rewrite it. */
  lemma {:induction false} CheapCheckDisagreesIff(current: Obj, desired: Obj, ref: OwnerRef)
    requires current.spec.CNAMERecordSpec? && desired.spec.CNAMERecordSpec?
    ensures (RecordNeedsUpdate(current, desired, ref) != (Updated(current, ref, desired) != current))
       <==> (&& current.spec.forProvider == desired.spec.forProvider
             && current.spec.providerConfig == desired.spec.providerConfig
             && UidFor(current.owners, ref).Some? && UidFor(current.owners, ref) != Some(ref.uid))
  {
    UidForIff(current.owners, ref);
  }

  /** The record of a deleted Capp, found by its successor of the same name, keeps naming the old one. */
  lemma StaleOwnerKept(capp: Capp, env: Env, oldUid: string)
    requires oldUid != capp.uid
    ensures var child := RecordChild(capp, env);
      var stale := child.obj.(owners := [OwnerRef(CAPP_KIND, capp.id.name, oldUid)]);
      !RecordNeedsUpdate(stale, child.obj, Ref(capp)) && Ref(capp) !in stale.owners
  {
    assert SameOwner([OwnerRef(CAPP_KIND, capp.id.name, oldUid)][0], Ref(capp));
  }

  /** When the check finds nothing to do, the record has the provider's fields and an owner; when it
      does, the update satisfies it and leaves every other field of the record alone. */
  lemma CheapCheckSound(current: Obj, desired: Obj, ref: OwnerRef)
    requires current.spec.CNAMERecordSpec? && desired.spec.CNAMERecordSpec?
    ensures !RecordNeedsUpdate(current, desired, ref) ==>
      && current.spec.forProvider == desired.spec.forProvider
      && current.spec.providerConfig == desired.spec.providerConfig && HasOwner(current.owners, ref)
    ensures var after := Updated(current, ref, desired);
      && !RecordNeedsUpdate(after, desired, ref) && after.spec.CNAMERecordSpec?
      && after.spec.rest == current.spec.rest && after.labels == current.labels && after.status == current.status
  {
    assert HasOwner(SetOwner(current.owners, ref), ref);
  }
}
