/** From the Capp a user wrote to the objects in the cluster: after a pass without errors each object
    asks for what the Capp says, field by field. */
module Delivery {
  import opened Objects
  import opened Cluster
  import opened Desired
  import opened Naming
  import opened Convergence
  import opened Text
  import opened Admission

  /** A pass without errors over a live Capp, with the names that admission and the user keep apart. */
  ghost predicate CleanPass(before: Tables, after: Tables, capp: Capp, env: Env) {
    && PassBy(before, after, capp, env) && !capp.deleting
    && DistinctSources(capp.spec.sources) && VolumesAgree(capp.spec.volumes)
  }

  /** Every wanted child is in the cluster, owned, and at most its preserved fields differ. */
  lemma ChildDelivered(kind: Kind, before: Tables, after: Tables, capp: Capp, env: Env, c: Child)
    requires CleanPass(before, after, capp, env) && kind != Secret && IsRequired(kind, capp)
    requires c in Children(kind, before(Secret), capp, env)
    ensures c.id in after(kind) && Merge(after(kind)[c.id].spec, c.obj.spec) == after(kind)[c.id].spec
    ensures HasOwner(after(kind)[c.id].owners, Ref(capp))
  {
    AdmittedSecondPassSilentIff(before, after, capp, env);
    assert Quiet(kind, after(kind), after(Secret), capp, env);
    assert kind == DomainMapping ==> after(Secret) == before(Secret);
    assert Children(kind, before(Secret), capp, env) == Children(kind, after(Secret), capp, env);
    var children := Children(kind, after(Secret), capp, env);
    var i :| 0 <= i < |children| && children[i] == c;
    if kind != CNAMERecord {
      assert Settled(after(kind), Ref(capp), children[i]);
      assert HasOwner(SetOwner(after(kind)[c.id].owners, Ref(capp)), Ref(capp));
    }
  }

  /** Enabled, the Capp has a Service that runs its defaulted containers with every NFS volume added,
      under its labels and time-out. */
  lemma ServiceDelivered(before: Tables, after: Tables, capp: Capp, env: Env)
    requires CleanPass(before, after, capp, env) && capp.spec.state == ENABLED
    ensures capp.id in after(Service)
    ensures var spec, defaulted := after(Service)[capp.id].spec, env.library.setDefaults(capp.spec.configuration);
      && spec.ServiceSpec? && spec.timeout == capp.spec.route.timeout
      && spec.configuration.pod == defaulted.pod && spec.configuration.containers == defaulted.containers
      && defaulted.volumes <= spec.configuration.volumes
      && |spec.configuration.volumes| == |defaulted.volumes| + |capp.spec.volumes|
      && (forall i :: 0 <= i < |capp.spec.volumes| ==>
            spec.configuration.volumes[|defaulted.volumes| + i] == capp.spec.volumes[i].name)
      && spec.labels.Keys == capp.labels.Keys + {PARENT_KEY} && spec.labels[PARENT_KEY] == capp.id.name
      && (forall k :: k in capp.labels && k != PARENT_KEY ==> spec.labels[k] == capp.labels[k])
  {
    ChildDelivered(Service, before, after, capp, env, ServiceChild(capp, env));
    var defaulted, names := env.library.setDefaults(capp.spec.configuration), VolumeNames(capp.spec.volumes);
    assert forall i :: 0 <= i < |names| ==> (defaulted.volumes + names)[|defaulted.volumes| + i] == names[i];
  }

  lemma VolumeDelivered(before: Tables, after: Tables, capp: Capp, env: Env, v: NfsVolume)
    requires CleanPass(before, after, capp, env) && v in capp.spec.volumes
    ensures var id := Id(capp.id.ns, v.name);
      && id in after(NfsPvc) && after(NfsPvc)[id].spec.NfsPvcSpec?
      && after(NfsPvc)[id].spec.server == v.server && after(NfsPvc)[id].spec.path == v.path
      && after(NfsPvc)[id].spec.capacity == v.capacity
  {
    var i :| 0 <= i < |capp.spec.volumes| && capp.spec.volumes[i] == v;
    VolumesProper(capp, capp.spec.volumes);
    var c := VolumeChild(capp, v);
    assert c == VolumeChildren(capp, capp.spec.volumes)[i];
    assert c in Children(NfsPvc, before(Secret), capp, env);
    ChildDelivered(NfsPvc, before, after, capp, env, c);
  }

  /** A PingSource posts the entry's data on its schedule to the Capp's own Service. */
  lemma PingDelivered(before: Tables, after: Tables, capp: Capp, env: Env, s: Source)
    requires CleanPass(before, after, capp, env) && s in capp.spec.sources && s.ping.Some?
    ensures var id := Id(capp.id.ns, capp.id.name + "-" + s.name);
      && id in after(PingSource) && after(PingSource)[id].spec.PingSourceSpec?
      && after(PingSource)[id].spec.schedule == s.ping.value.schedule
      && after(PingSource)[id].spec.data == s.ping.value.data
      && after(PingSource)[id].spec.sink == Sink(capp.id.name, capp.id.ns, s.uri)
  {
    SourceChildIn(PingSource, capp, capp.spec.sources, s);
    ChildDelivered(PingSource, before, after, capp, env, PingChild(capp, s));
  }

  /** A KafkaSource consumes the entry's topics with as many consumers as asked for, none while the Capp
      is disabled, for the Capp's own Service. */
  lemma KafkaDelivered(before: Tables, after: Tables, capp: Capp, env: Env, s: Source)
    requires CleanPass(before, after, capp, env) && s in capp.spec.sources && s.kafka.Some?
    ensures var id, cfg := Id(capp.id.ns, capp.id.name + "-" + s.name), s.kafka.value;
      && id in after(KafkaSource) && after(KafkaSource)[id].spec.KafkaSourceSpec?
      && var spec := after(KafkaSource)[id].spec;
         && spec.topics == cfg.topics && spec.bootstrapServers == cfg.bootstrapServers && spec.secret == cfg.secret
         && spec.consumers == (if capp.spec.state == DISABLED then 0
                               else if cfg.consumers.Some? then cfg.consumers.value else 1)
         && spec.sink == Sink(capp.id.name, capp.id.ns, s.uri)
  {
    SourceChildIn(KafkaSource, capp, capp.spec.sources, s);
    ChildDelivered(KafkaSource, before, after, capp, env, KafkaChild(capp, s));
  }

  /** What a KafkaSource consumes as: the group it had, or for a new one the entry's group, or else its name. */
  lemma KafkaGroup(before: Tables, after: Tables, capp: Capp, env: Env, s: Source)
    requires CleanPass(before, after, capp, env) && s in capp.spec.sources && s.kafka.Some?
    ensures var id, cfg := Id(capp.id.ns, capp.id.name + "-" + s.name), s.kafka.value;
      id in after(KafkaSource) && after(KafkaSource)[id].spec.KafkaSourceSpec? &&
      after(KafkaSource)[id].spec.consumerGroup ==
        if id in before(KafkaSource) && before(KafkaSource)[id].spec.KafkaSourceSpec? then
          before(KafkaSource)[id].spec.consumerGroup
        else if cfg.consumerGroup != "" then cfg.consumerGroup else id.name
  {
    var c := KafkaChild(capp, s);
    SourceChildIn(KafkaSource, capp, capp.spec.sources, s);
    SourcesRefine(KafkaSource, before(KafkaSource), before(Secret), capp, env);
    assert c in Children(KafkaSource, before(Secret), capp, env);
  }

  /** With a hostname there is a mapping of its name to the Capp's Service and a CNAME in the zone, and with
      TLS a certificate for that name in the secret the mapping uses once it exists. */
  lemma RouteDelivered(before: Tables, after: Tables, capp: Capp, env: Env)
    requires CleanPass(before, after, capp, env) && capp.spec.route.hostname != "" && !Panics(CNAMERecord, capp, env)
    ensures var name := GenerateResourceName(capp.spec.route.hostname, env.config.dns.zone);
      var id, dns := Id(capp.id.ns, name), env.config.dns;
      && id in after(DomainMapping) && id in after(CNAMERecord)
      && after(DomainMapping)[id].spec == DomainMappingSpec(capp.id.name,
           if capp.spec.route.tlsEnabled && Id(capp.id.ns,
             name + "-tls") in after(Secret) then Some(name + "-tls") else None)
      && after(CNAMERecord)[id].spec.CNAMERecordSpec?
      && Some(after(CNAMERecord)[id].spec.forProvider.name) == GenerateRecordName(capp.spec.route.hostname, dns.zone)
      && after(CNAMERecord)[id].spec.forProvider.zone == dns.zone &&
        after(CNAMERecord)[id].spec.forProvider.cname == dns.cname
      && after(CNAMERecord)[id].spec.providerConfig == Some(dns.provider)
      && (capp.spec.route.tlsEnabled ==>
            && id in after(Certificate) && after(Certificate)[id].spec.CertificateSpec?
            && after(Certificate)[id].spec.dnsNames == [name] && after(Certificate)[id].spec.issuer == dns.issuer
            && after(Certificate)[id].spec.secretName == name + "-tls"
            && after(Certificate)[id].spec.commonName == if |name| <= 64 then name else name[..64])
  {
    ChildDelivered(DomainMapping, before, after, capp, env, DomainMappingChild(capp, env, before(Secret)));
    ChildDelivered(CNAMERecord, before, after, capp, env, RecordChild(capp, env));
    if capp.spec.route.tlsEnabled {
      ChildDelivered(Certificate, before, after, capp, env, CertificateChild(capp, env));
    }
  }

  // ---------------------------------------------------------------- scaling

  /** The keys that the Capp's scale spec fills; the Capp's own annotations under them do not get through. */
  ghost predicate Derives(key: string, scale: ScaleSpec) {
    scale.metric != "" &&
    (|| key in {CLASS_KEY, METRIC_KEY, TARGET_KEY}
     || (key == DELAY_KEY && scale.scaleDelay.Some?)
     || (key == MIN_KEY && scale.minReplicas.Some?) || (key == ACTIVATION_KEY && scale.minReplicas.None?)
     || (key == MAX_KEY && scale.maxReplicas.Some?))
  }

  /** What a Capp asks the autoscaler for, key by key. */
  ghost predicate ScaledAs(m: map<string, string>, scale: ScaleSpec, cfg: AutoscaleConfig,
                           durationText: int -> string) {
    && (forall k :: Derives(k, scale) ==> k in m)
    && (scale.metric != "" ==>
          && m[METRIC_KEY] == scale.metric && TargetOf(m[TARGET_KEY], scale.metric, cfg)
          && m[CLASS_KEY] == (if scale.metric == "rps" || scale.metric == "concurrency"
                              then "kpa.autoscaling.knative.dev" else "hpa.autoscaling.knative.dev"))
    && (Derives(DELAY_KEY, scale) ==> m[DELAY_KEY] == durationText(scale.scaleDelay.value))
    && (Derives(MIN_KEY, scale) && scale.minReplicas.value >= 0 ==> Value(m[MIN_KEY]) == scale.minReplicas.value)
    && (Derives(ACTIVATION_KEY, scale) ==> Value(m[ACTIVATION_KEY]) == cfg.activationScale)
    && (Derives(MAX_KEY, scale) && scale.maxReplicas.value >= 0 ==> Value(m[MAX_KEY]) == scale.maxReplicas.value)
  }

  lemma NumbersReadBack(scale: ScaleSpec, cfg: AutoscaleConfig)
    ensures scale.minReplicas.Some? && scale.minReplicas.value >= 0 ==>
      Value(Signed(scale.minReplicas.value)) == scale.minReplicas.value
    ensures scale.maxReplicas.Some? && scale.maxReplicas.value >= 0 ==>
      Value(Signed(scale.maxReplicas.value)) == scale.maxReplicas.value
    ensures Value(Decimal(cfg.activationScale)) == cfg.activationScale
  {
    if scale.minReplicas.Some? && scale.minReplicas.value >= 0 {
      DecimalRoundTrip(scale.minReplicas.value);
    }
    if scale.maxReplicas.Some? && scale.maxReplicas.value >= 0 {
      DecimalRoundTrip(scale.maxReplicas.value);
    }
    DecimalRoundTrip(cfg.activationScale);
  }

  lemma DerivedKeys(scale: ScaleSpec, cfg: AutoscaleConfig, durationText: int -> string, key: string)
    ensures key in AutoScaler(scale, cfg, durationText) <==> Derives(key, scale)
  {
    if scale.metric != "" {
      ScalingKeysDiffer();
      ScalingTexts(scale, cfg, durationText);
      ScalingChoice(scale, cfg, durationText);
    }
  }

  lemma AutoScalerScales(scale: ScaleSpec, cfg: AutoscaleConfig, durationText: int -> string)
    ensures ScaledAs(AutoScaler(scale, cfg, durationText), scale, cfg, durationText)
  {
    forall k ensures Derives(k, scale) <==> k in AutoScaler(scale, cfg, durationText) {
      DerivedKeys(scale, cfg, durationText, k);
    }
    if scale.metric != "" {
      NumbersReadBack(scale, cfg);
      ScalingTexts(scale, cfg, durationText);
      ScalingChoice(scale, cfg, durationText);
    }
  }

  /** The Service scales as the Capp asks, by the defaults of the metric it asks for. Under every other key it bears
      the Capp's own annotations, but for those of the operator and of kubectl. */
  lemma ServiceScaled(before: Tables, after: Tables, capp: Capp, env: Env)
    requires CleanPass(before, after, capp, env) && capp.spec.state == ENABLED
    ensures capp.id in after(Service) && after(Service)[capp.id].spec.ServiceSpec?
    ensures var m, scale := after(Service)[capp.id].spec.configuration.annotations, capp.spec.scale;
      && ScaledAs(m, scale, env.config.autoscale, env.library.durationText)
      && forall k :: !Derives(k, scale) ==>
           && (k in m <==> k in capp.annotations && !(API_GROUP <= k) && !(KUBECTL_PREFIX <= k))
           && (k in m ==> m[k] == capp.annotations[k])
  {
    ChildDelivered(Service, before, after, capp, env, ServiceChild(capp, env));
    var scale, cfg, text := capp.spec.scale, env.config.autoscale, env.library.durationText;
    DerivedAnnotationsWin(capp, env);
    AutoScalerScales(scale, cfg, text);
    forall k ensures Derives(k, scale) <==> k in AutoScaler(scale, cfg, text) {
      DerivedKeys(scale, cfg, text, k);
    }
  }
}
