/** What a pass without errors removes, leaves alone and creates, in the Capp's own terms. */
module Footprint {
  import opened Objects
  import opened Desired
  import opened Naming
  import opened Managers
  import opened Convergence

  // ---------------------------------------------------------------- what is not wanted

  /** What the Capp asks for, kind by kind. */
  ghost predicate AsksFor(kind: Kind, capp: Capp) {
    match kind
    case Service => capp.spec.state == "enabled"
    case NfsPvc => capp.spec.volumes != []
    case Certificate => capp.spec.route.hostname != "" && capp.spec.route.tlsEnabled
    case DomainMapping => capp.spec.route.hostname != ""
    case CNAMERecord => capp.spec.route.hostname != ""
    case PingSource => exists s :: s in capp.spec.sources && s.ping.Some?
    case KafkaSource => exists s :: s in capp.spec.sources && s.kafka.Some?
    case Secret => false
  }

  lemma AsksForIff(kind: Kind, capp: Capp)
    ensures IsRequired(kind, capp) <==> AsksFor(kind, capp)
  {
    var sources := capp.spec.sources;
    if s :| s in sources && s.ping.Some? {
      var i :| 0 <= i < |sources| && sources[i] == s;
      assert sources[i].ping.Some?;
    }
    if s :| s in sources && s.kafka.Some? {
      var i :| 0 <= i < |sources| && sources[i] == s;
      assert sources[i].kafka.Some?;
    }
  }

  /** Of a kind a live Capp does not ask for, whatever is found to be its is gone after a pass, owned or not; a disabled
      Capp thus has no Service. Everything else is as it was. */
  lemma UnwantedGone(kind: Kind, before: Tables, after: Tables, capp: Capp, env: Env)
    requires PassBy(before, after, capp, env) && !capp.deleting && kind != Secret && !AsksFor(kind, capp)
    ensures forall id :: id in after(kind) <==> id in before(kind) && !Found(kind, id, before(kind)[id].labels, capp)
    ensures forall id :: id in after(kind) ==> after(kind)[id] == before(kind)[id]
  {
    AsksForIff(kind, capp);
    forall id ensures id in after(kind) <==> id in before(kind) && !Found(kind, id, before(kind)[id].labels, capp) {
      DoomedIff(kind, before(kind), capp, id);
    }
  }

  /** Secrets are only ever deleted, and of them, without a hostname, just the ones named after the mappings found. */
  lemma SecretsGone(before: Tables, after: Tables, capp: Capp, env: Env)
    requires PassBy(before, after, capp, env)
    ensures forall id :: id in after(Secret) <==>
      id in before(Secret) && (capp.spec.route.hostname != "" || !NamedAfterMapping(id, before(DomainMapping), capp))
    ensures forall id :: id in after(Secret) ==> after(Secret)[id] == before(Secret)[id]
  {
    forall id ensures id in TLSSecrets(before(DomainMapping), capp) <==>
      NamedAfterMapping(id, before(DomainMapping), capp)
    {
      TLSSecretsIff(before(DomainMapping), capp, id);
    }
  }

  ghost predicate NamedAfterMapping(id: Id, mappings: Table, capp: Capp) {
    exists m :: m in mappings && Found(DomainMapping, m, mappings[m].labels, capp) && id == Id(m.ns, m.name + "-tls")
  }

  // ---------------------------------------------------------------- what else is touched

  /** The objects of a kind that a Capp names. */
  ghost predicate Names(kind: Kind, capp: Capp, env: Env, id: Id) {
    id.ns == capp.id.ns &&
    match kind
    case Service => id.name == capp.id.name
    case NfsPvc => exists v :: v in capp.spec.volumes && id.name == v.name
    case PingSource => exists s :: s in capp.spec.sources && s.ping.Some? && id.name == capp.id.name + "-" + s.name
    case KafkaSource => exists s :: s in capp.spec.sources && s.kafka.Some? && id.name == capp.id.name + "-" + s.name
    case Secret => false
    case _ => id.name == GenerateResourceName(capp.spec.route.hostname, env.config.dns.zone)
  }

  lemma ChildrenNamed(kind: Kind, secrets: Table, capp: Capp, env: Env)
    requires kind != Secret && IsRequired(kind, capp)
    ensures forall id :: id in Ids(Children(kind, secrets, capp, env)) <==> Names(kind, capp, env, id)
  {
    if kind == NfsPvc {
      VolumesNamed(capp, capp.spec.volumes);
    } else if IsSourceKind(kind) {
      SourcesNamed(kind, capp);
    } else {
      var children := Children(kind, secrets, capp, env);
      assert children == [children[0]] && children[0] in children;
    }
  }

  lemma {:induction false} VolumesNamed(capp: Capp, volumes: seq<NfsVolume>)
    ensures forall id :: id in Ids(VolumeChildren(capp, volumes)) <==>
      id.ns == capp.id.ns && exists v :: v in volumes && id.name == v.name
  {
    VolumesProper(capp, volumes);
    forall id ensures id in Ids(VolumeChildren(capp, volumes)) <==>
      id.ns == capp.id.ns && exists v :: v in volumes && id.name == v.name
    {
      if id.ns == capp.id.ns && exists v :: v in volumes && id.name == v.name {
        var v :| v in volumes && id.name == v.name;
        var i :| 0 <= i < |volumes| && volumes[i] == v;
        assert VolumeChildren(capp, volumes)[i].id == id;
      }
    }
  }

  lemma {:induction false} SourcesNamed(kind: Kind, capp: Capp)
    requires IsSourceKind(kind)
    ensures forall id :: id in Ids(SourceChildren(kind, capp, capp.spec.sources)) <==>
      id.ns == capp.id.ns
      && exists s :: s in capp.spec.sources && SourceOf(kind, s) && id.name == capp.id.name + "-" + s.name
  {
    SourcesProper(kind, capp, capp.spec.sources);
    forall id: Id | id.ns == capp.id.ns
      ensures id in Ids(SourceChildren(kind, capp, capp.spec.sources)) <==>
        exists s :: s in capp.spec.sources && SourceOf(kind, s) && id.name == capp.id.name + "-" + s.name
    {
      NamesAndIds(kind, capp, capp.spec.sources, id);
    }
  }

  /** Of the kinds a Capp asks for, a pass touches nothing but the objects the Capp names and, of sources, those found
      to be its. What it named before and does not name now - a claim of a dropped volume, the objects of a former
      hostname - stays. */
  lemma OnlyNamedTouched(kind: Kind, before: Tables, after: Tables, capp: Capp, env: Env, id: Id)
    requires PassBy(before, after, capp, env) && kind != Secret && AsksFor(kind, capp) && !Names(kind, capp, env, id)
    requires id in before(kind) && Found(kind, id, before(kind)[id].labels, capp) ==> !IsSourceKind(kind)
    ensures id in after(kind) <==> id in before(kind)
    ensures id in after(kind) ==> after(kind)[id] == before(kind)[id]
  {
    AsksForIff(kind, capp);
    ChildrenNamed(kind, before(Secret), capp, env);
    var children := Children(kind, before(Secret), capp, env);
    UpsertAllFrame(before(kind), Ref(capp), children);
    if kind == CNAMERecord {
      assert children == [children[0]] && children[0] in children;
    } else if IsSourceKind(kind) && id in before(kind) {
      SelectsFound(kind, id, before(kind)[id].labels, capp);
    }
  }

  lemma {:induction false} CreatedByUpsert(kind: Kind, t: Table, secrets: Table, capp: Capp, env: Env, id: Id)
    requires kind != Secret && id in Passed(kind, t, secrets, capp, env) && id !in t
    ensures var children := Children(kind, secrets, capp, env);
      IsRequired(kind, capp) && id in Ids(children) && id in UpsertAll(t, Ref(capp), children)
      && Passed(kind, t, secrets, capp, env)[id] == UpsertAll(t, Ref(capp), children)[id]
  {
    var children := Children(kind, secrets, capp, env);
    UpsertAllFrame(t, Ref(capp), children);
    if kind == CNAMERecord {
      assert children[..0] == [] && Upsert(t, Ref(capp), children[0]) == UpsertAll(t, Ref(capp), children);
    }
  }

  /** The Capp's own annotations, but for those of the operator and of kubectl. */
  ghost predicate OwnAnnotations(annotations: map<string, string>, capp: Capp) {
    forall k ::
      && (k in annotations <==> k in capp.annotations && !("rcs.dana.io" <= k) && !("kubectl.kubernetes.io/" <= k))
      && (k in annotations ==> annotations[k] == capp.annotations[k])
  }

  /** What a pass creates bears the operator's labels and no status and is owned by the Capp; a Service bears the Capp's
      own annotations, and nothing else has any. */
  lemma CreatedAs(kind: Kind, before: Tables, after: Tables, capp: Capp, env: Env, id: Id)
    requires PassBy(before, after, capp, env) && kind != Secret && id in after(kind) && id !in before(kind)
    ensures AsksFor(kind, capp) && Names(kind, capp, env, id)
    ensures after(kind)[id].labels ==
      map["rcs.dana.io/parent-capp" := capp.id.name, "rcs.dana.io/managed-by" := "capp"]
      + if kind == CNAMERecord then map["rcs.dana.io/parent-capp-ns" := capp.id.ns] else map[]
    ensures OwnerRef("Capp", capp.id.name, capp.uid) in after(kind)[id].owners && after(kind)[id].status == NO_STATUS
    ensures if kind == Service then OwnAnnotations(after(kind)[id].annotations, capp)
      else after(kind)[id].annotations == map[]
  {
    var children := Children(kind, before(Secret), capp, env);
    AsksForIff(kind, capp);
    CreatedByUpsert(kind, before(kind), before(Secret), capp, env, id);
    ChildrenNamed(kind, before(Secret), capp, env);
    ChildrenProper(kind, before(Secret), capp, env);
    UpsertAllKeeps(before(kind), Ref(capp), children, id);
    LabelsSpelled(kind, capp);
    if kind == Service {
      ServiceAnnotated(before(Secret), capp, env);
    }
  }

  lemma LabelsSpelled(kind: Kind, capp: Capp)
    ensures LabelsFor(kind, capp) ==
      map["rcs.dana.io/parent-capp" := capp.id.name, "rcs.dana.io/managed-by" := "capp"]
      + if kind == CNAMERecord then map["rcs.dana.io/parent-capp-ns" := capp.id.ns] else map[]
    ensures Ref(capp) == OwnerRef("Capp", capp.id.name, capp.uid)
  {
  }

  lemma ServiceAnnotated(secrets: Table, capp: Capp, env: Env)
    ensures forall c :: c in Children(Service, secrets, capp, env) ==> OwnAnnotations(c.obj.annotations, capp)
  {
    assert OwnAnnotations(ForwardedAnnotations(capp), capp);
  }
}
