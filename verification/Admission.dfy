/** The admission webhooks of Capps (internal/webhook/rcs/v1alpha1). What foreign libraries decide -
    domain names and patterns, DNS lookups, cron schedules, the contents of secrets - is left to
    `Oracles`, arbitrary predicates. */
module Admission {
  import opened Objects
  import opened Desired
  import opened Convergence
  import opened Sorting
  import opened Text

  datatype Oracles = Oracles(domainNameValid: string -> bool, domainNameFree: string -> bool,
                             elasticSecretComplete: string -> bool, kafkaSecretComplete: string -> bool,
                             pingValid: PingConfig -> bool)

  datatype Request = Create(capp: Capp) | Update(capp: Capp, prior: Capp)

  datatype Denial = NoConfig | HostnameImmutable | BadDomainName | DomainNameTaken | BadPasswordSecret
                  | VolumesNotMounted(names: seq<string>) | DuplicateSource(index: nat) | BadSource(index: nat)
                  | TemplateAnnotation | BadScale(error: ScaleError)

  datatype ScaleError = MinTooHigh | MaxTooHigh | MaxBelowMin | MaxBelowActivation | DelayTooHigh

  datatype Response = Allowed | Denied(reason: Denial)

  const AUTOSCALING_PREFIX := "autoscaling.knative.dev/"

  // ---------------------------------------------------------------- the checks

  predicate HostnameKept(request: Request) {
    request.Create? || request.prior.spec.route.hostname == "" ||
    request.prior.spec.route.hostname == request.capp.spec.route.hostname
  }

  function ScaleProblem(scale: ScaleSpec, cfg: AutoscaleConfig): Option<ScaleError> {
    if scale.minReplicas.Some? && scale.minReplicas.value > cfg.minReplicasLimit then Some(MinTooHigh)
    else if scale.maxReplicas.Some? && scale.maxReplicas.value > cfg.maxReplicasLimit then Some(MaxTooHigh)
    else if scale.maxReplicas.Some? && scale.minReplicas.Some? && scale.maxReplicas.value < scale.minReplicas.value then
      Some(MaxBelowMin)
    else if scale.maxReplicas.Some? && scale.minReplicas.None? && scale.maxReplicas.value < cfg.activationScale then
      Some(MaxBelowActivation)
    else if scale.scaleDelay.Some? && scale.scaleDelay.value > cfg.maxScaleDelay then Some(DelayTooHigh)
    else None
  }

  predicate SourceAdmissible(s: Source, maxKafkaConsumers: int, oracles: Oracles) {
    if s.ping.Some? then oracles.pingValid(s.ping.value)
    else if s.kafka.Some? then
      && oracles.kafkaSecretComplete(s.kafka.value.secret)
      && (s.kafka.value.consumers.Some? ==> s.kafka.value.consumers.value <= maxKafkaConsumers)
    else true
  }

  ghost predicate SourcesAdmissible(sources: seq<Source>, maxKafkaConsumers: int, oracles: Oracles) {
    && DistinctSources(sources)
    && forall i :: 0 <= i < |sources| ==> SourceAdmissible(sources[i], maxKafkaConsumers, oracles)
  }

  predicate Mounted(capp: Capp, volume: string) {
    exists i, j :: 0 <= i < |capp.spec.configuration.containers|
                && 0 <= j < |capp.spec.configuration.containers[i].mounts|
                && capp.spec.configuration.containers[i].mounts[j] == volume
  }

  ghost predicate AllMounted(capp: Capp) {
    forall v :: v in capp.spec.volumes ==> Mounted(capp, v.name)
  }

  predicate NoScalingAnnotation(capp: Capp) {
    forall k :: k in capp.spec.configuration.annotations ==> !HasPrefix(k, AUTOSCALING_PREFIX)
  }

  /** What admission asks of a Capp that is not being deleted. */
  ghost predicate Admissible(request: Request, cfg: CappConfig, oracles: Oracles) {
    var spec := request.capp.spec;
    && HostnameKept(request)
    && (request.Create? || spec.route.hostname != request.prior.spec.route.hostname ==>
          oracles.domainNameValid(spec.route.hostname) && oracles.domainNameFree(spec.route.hostname))
    && (spec.passwordSecret != "" ==> oracles.elasticSecretComplete(spec.passwordSecret))
    && AllMounted(request.capp)
    && SourcesAdmissible(spec.sources, cfg.maxKafkaConsumers, oracles)
    && NoScalingAnnotation(request.capp)
    && ScaleProblem(spec.scale, cfg.autoscale).None?
  }

  method MountedVolumes(capp: Capp) returns (mounted: set<string>)
    ensures forall v :: v in mounted <==> Mounted(capp, v)
  {
    mounted := {};
    var containers := capp.spec.configuration.containers;
    for i := 0 to |containers|
      invariant forall v :: v in mounted <==>
        exists p, q :: 0 <= p < i && 0 <= q < |containers[p].mounts| && containers[p].mounts[q] == v
    {
      var mounts := containers[i].mounts;
      ghost var before := mounted;
      for j := 0 to |mounts|
        invariant forall v :: v in mounted <==> v in before || v in mounts[..j]
      {
        mounted := mounted + {mounts[j]};
      }
      assert mounts[..|mounts|] == mounts;
      forall v ensures v in mounted <==>
        exists p, q :: 0 <= p < i + 1 && 0 <= q < |containers[p].mounts| && containers[p].mounts[q] == v
      {
        if v in mounts {
          var q :| 0 <= q < |mounts| && mounts[q] == v;
          assert containers[i].mounts[q] == v;
        }
      }
    }
  }

  lemma NameOrder()
    ensures StrictWeak(Less)
  {
    forall x ensures !Less(x, x) { LessIrreflexive(x); }
    forall x, y, z | Less(x, y) && Less(y, z) ensures Less(x, z) { LessTransitive(x, y, z); }
    forall x, y, z | !Less(x, y) && !Less(y, z) ensures !Less(x, z) { NotLessTransitive(x, y, z); }
  }

  method SortedNames(names: set<string>) returns (sorted: seq<string>)
    ensures Ordered(sorted, Less) && multiset(sorted) == multiset(names)
  {
    var rest, list := names, [];
    while rest != {}
      invariant rest <= names && multiset(list) + multiset(rest) == multiset(names)
      decreases rest
    {
      var n :| n in rest;
      list, rest := list + [n], rest - {n};
    }
    var a := new string[|list|](i requires 0 <= i < |list| => list[i]);
    assert a[..] == list;
    NameOrder();
    SortSlice(a, Less);
    sorted := a[..];
  }

  function UnmountedNames(capp: Capp): set<string> {
    set v | v in capp.spec.volumes && !Mounted(capp, v.name) :: v.name
  }

  lemma AllMountedIff(capp: Capp)
    ensures UnmountedNames(capp) == {} <==> AllMounted(capp)
  {
    forall v | v in capp.spec.volumes && UnmountedNames(capp) == {} ensures Mounted(capp, v.name) {
      assert v.name !in UnmountedNames(capp);
    }
  }

  /** The names of the NFS volumes that no container mounts, each once, in order; none is an approval. */
  method ValidateNFSVolumeMounts(capp: Capp) returns (missing: seq<string>)
    ensures Ordered(missing, Less)
    ensures multiset(missing) == multiset(UnmountedNames(capp))
    ensures missing == [] <==> AllMounted(capp)
  {
    var volumes := capp.spec.volumes;
    AllMountedIff(capp);
    if |volumes| == 0 {
      assert UnmountedNames(capp) == {};
      return [];
    }
    var mounted := MountedVolumes(capp);
    var names := {};
    for i := 0 to |volumes|
      invariant names == set j | 0 <= j < i && !Mounted(capp, volumes[j].name) :: volumes[j].name
    {
      if volumes[i].name !in mounted {
        names := names + {volumes[i].name};
      }
    }
    missing := SortedNames(names);
    assert names == UnmountedNames(capp);
    assert |missing| == |multiset(missing)| == |multiset(names)|;
    if names != {} {
      var n :| n in names;
      assert n in multiset(missing);
    }
  }

  /** Refuses at the first source that repeats a name or fails its own check. */
  method ValidateEventSources(sources: seq<Source>, maxKafkaConsumers: int,
    oracles: Oracles) returns (denial: Option<Denial>)
    ensures denial.None? <==> SourcesAdmissible(sources, maxKafkaConsumers, oracles)
    ensures denial.Some? ==> denial.value.DuplicateSource? || denial.value.BadSource?
    ensures denial.Some? ==>
      && denial.value.index < |sources|
      && SourcesAdmissible(sources[..denial.value.index], maxKafkaConsumers, oracles)
      && (denial.value.DuplicateSource? <==>
            exists j :: 0 <= j < denial.value.index && sources[j].name == sources[denial.value.index].name)
  {
    var seen := {};
    for i := 0 to |sources|
      invariant seen == set j | 0 <= j < i :: sources[j].name
      invariant SourcesAdmissible(sources[..i], maxKafkaConsumers, oracles)
    {
      var src := sources[i];
      if src.name in seen {
        return Some(DuplicateSource(i));
      }
      seen := seen + {src.name};
      if src.ping.Some? {
        if !oracles.pingValid(src.ping.value) {
          return Some(BadSource(i));
        }
      } else if src.kafka.Some? {
        if !oracles.kafkaSecretComplete(src.kafka.value.secret) {
          return Some(BadSource(i));
        }
        if src.kafka.value.consumers.Some? && src.kafka.value.consumers.value > maxKafkaConsumers {
          return Some(BadSource(i));
        }
      }
      assert sources[..i + 1] == sources[..i] + [src];
    }
    assert sources[..|sources|] == sources;
    return None;
  }

  /** The outcome of each check, in the order in which a failing one is reported. */
  ghost function Checks(request: Request, cfg: CappConfig, oracles: Oracles): (checks: seq<bool>)
    ensures |checks| == 8
  {
    var spec := request.capp.spec;
    var renamed := request.Create? || spec.route.hostname != request.prior.spec.route.hostname;
    [HostnameKept(request),
     renamed ==> oracles.domainNameValid(spec.route.hostname),
     renamed ==> oracles.domainNameFree(spec.route.hostname),
     spec.passwordSecret != "" ==> oracles.elasticSecretComplete(spec.passwordSecret),
     AllMounted(request.capp),
     SourcesAdmissible(spec.sources, cfg.maxKafkaConsumers, oracles),
     NoScalingAnnotation(request.capp),
     ScaleProblem(spec.scale, cfg.autoscale).None?]
  }

  /** The check a denial is about. */
  function CheckOf(d: Denial): (k: nat)
    requires d != NoConfig
    ensures k < 8
  {
    match d
    case HostnameImmutable => 0
    case BadDomainName => 1
    case DomainNameTaken => 2
    case BadPasswordSecret => 3
    case VolumesNotMounted(_) => 4
    case DuplicateSource(_) => 5
    case BadSource(_) => 5
    case TemplateAnnotation => 6
    case BadScale(_) => 7
  }

  ghost predicate FirstFailure(checks: seq<bool>, k: nat) {
    k < |checks| && !checks[k] && forall j :: 0 <= j < k ==> checks[j]
  }

  /** The checks of an admission request; a denial names the first one that fails. */
  method RunChecks(request: Request, cfg: CappConfig, oracles: Oracles) returns (denial: Option<Denial>)
    ensures denial.None? ==> forall k :: 0 <= k < 8 ==> Checks(request, cfg, oracles)[k]
    ensures denial.Some? ==>
      denial.value != NoConfig && FirstFailure(Checks(request, cfg, oracles), CheckOf(denial.value))
    ensures denial.Some? && denial.value.VolumesNotMounted? ==>
      Ordered(denial.value.names, Less) && multiset(denial.value.names) == multiset(UnmountedNames(request.capp))
    ensures denial.Some? && denial.value.BadScale? ==>
      ScaleProblem(request.capp.spec.scale, cfg.autoscale) == Some(denial.value.error)
  {
    var capp := request.capp;
    ghost var checks := Checks(request, cfg, oracles);
    denial := RunRouteChecks(request, cfg, oracles);
    if denial.Some? {
      return;
    }
    var missing := ValidateNFSVolumeMounts(capp);
    if missing != [] {
      return Some(VolumesNotMounted(missing));
    }
    assert checks[4];
    denial := ValidateEventSources(capp.spec.sources, cfg.maxKafkaConsumers, oracles);
    if denial.Some? {
      assert !checks[5];
      return;
    }
    if !NoScalingAnnotation(capp) {
      return Some(TemplateAnnotation);
    }
    var problem := ScaleProblem(capp.spec.scale, cfg.autoscale);
    return if problem.Some? then Some(BadScale(problem.value)) else None;
  }

  /** The first four: hostname, domain name and password secret. */
  method RunRouteChecks(request: Request, cfg: CappConfig, oracles: Oracles) returns (denial: Option<Denial>)
    ensures denial.None? ==> forall k :: 0 <= k < 4 ==> Checks(request, cfg, oracles)[k]
    ensures denial.Some? ==>
      && denial.value in {HostnameImmutable, BadDomainName, DomainNameTaken, BadPasswordSecret}
      && FirstFailure(Checks(request, cfg, oracles), CheckOf(denial.value))
  {
    var capp := request.capp;
    if !HostnameKept(request) {
      return Some(HostnameImmutable);
    }
    if request.Create? || capp.spec.route.hostname != request.prior.spec.route.hostname {
      if !oracles.domainNameValid(capp.spec.route.hostname) {
        return Some(BadDomainName);
      }
      if !oracles.domainNameFree(capp.spec.route.hostname) {
        return Some(DomainNameTaken);
      }
    }
    if capp.spec.passwordSecret != "" {
      if !oracles.elasticSecretComplete(capp.spec.passwordSecret) {
        return Some(BadPasswordSecret);
      }
    }
    return None;
  }

  /** Passing all the checks is being admissible. */
  lemma AdmissibleIff(request: Request, cfg: CappConfig, oracles: Oracles)
    ensures Admissible(request, cfg, oracles) <==> forall k :: 0 <= k < 8 ==> Checks(request, cfg, oracles)[k]
  {
    var checks := Checks(request, cfg, oracles);
    if forall k :: 0 <= k < 8 ==> checks[k] {
      assert checks[0] && checks[1] && checks[2] && checks[3] && checks[4] && checks[5] && checks[6] && checks[7];
    }
  }

  /** What a scale spec must satisfy, limit by limit; without a minimum it is the activation scale that the
      maximum must not be below. */
  ghost predicate ScaleInOrder(scale: ScaleSpec, cfg: AutoscaleConfig) {
    && (scale.minReplicas.Some? ==> scale.minReplicas.value <= cfg.minReplicasLimit)
    && (scale.maxReplicas.Some? ==>
          && scale.maxReplicas.value <= cfg.maxReplicasLimit
          && LowerBound(scale, cfg) <= scale.maxReplicas.value)
    && (scale.scaleDelay.Some? ==> scale.scaleDelay.value <= cfg.maxScaleDelay)
  }

  /** Admission, rule by rule, as a user reads it. */
  ghost predicate FollowsRules(request: Request, cfg: CappConfig, oracles: Oracles) {
    var spec := request.capp.spec;
    && (request.Update? && request.prior.spec.route.hostname != "" ==>
          spec.route.hostname == request.prior.spec.route.hostname)
    && (request.Create? || spec.route.hostname != request.prior.spec.route.hostname ==>
          oracles.domainNameValid(spec.route.hostname) && oracles.domainNameFree(spec.route.hostname))
    && (spec.passwordSecret != "" ==> oracles.elasticSecretComplete(spec.passwordSecret))
    && (forall v :: v in spec.volumes ==> exists c :: c in spec.configuration.containers && v.name in c.mounts)
    && (forall i, j :: 0 <= i < j < |spec.sources| ==> spec.sources[i].name != spec.sources[j].name)
    && (forall s :: s in spec.sources && s.ping.Some? ==> oracles.pingValid(s.ping.value))
    && (forall s :: s in spec.sources && s.ping.None? && s.kafka.Some? ==>
          && oracles.kafkaSecretComplete(s.kafka.value.secret)
          && (s.kafka.value.consumers.Some? ==> s.kafka.value.consumers.value <= cfg.maxKafkaConsumers))
    && (forall k :: k in spec.configuration.annotations ==> !("autoscaling.knative.dev/" <= k))
    && ScaleInOrder(spec.scale, cfg.autoscale)
  }

  lemma MountedIff(capp: Capp, volume: string)
    ensures Mounted(capp, volume) <==> exists c :: c in capp.spec.configuration.containers && volume in c.mounts
  {
    var containers := capp.spec.configuration.containers;
    if c :| c in containers && volume in c.mounts {
      var i :| 0 <= i < |containers| && containers[i] == c;
      var j :| 0 <= j < |c.mounts| && c.mounts[j] == volume;
      assert containers[i].mounts[j] == volume;
    }
  }

  lemma SourcesAdmissibleIff(sources: seq<Source>, maxKafkaConsumers: int, oracles: Oracles)
    ensures SourcesAdmissible(sources, maxKafkaConsumers, oracles) <==>
      && (forall i, j :: 0 <= i < j < |sources| ==> sources[i].name != sources[j].name)
      && (forall s :: s in sources && s.ping.Some? ==> oracles.pingValid(s.ping.value))
      && (forall s :: s in sources && s.ping.None? && s.kafka.Some? ==>
            && oracles.kafkaSecretComplete(s.kafka.value.secret)
            && (s.kafka.value.consumers.Some? ==> s.kafka.value.consumers.value <= maxKafkaConsumers))
  {
    assert (forall i :: 0 <= i < |sources| ==> SourceAdmissible(sources[i], maxKafkaConsumers, oracles))
      <==> (forall s :: s in sources ==> SourceAdmissible(s, maxKafkaConsumers, oracles));
  }

  lemma AdmissibleFollowsRules(request: Request, cfg: CappConfig, oracles: Oracles)
    ensures Admissible(request, cfg, oracles) <==> FollowsRules(request, cfg, oracles)
  {
    forall v ensures Mounted(request.capp, v) <==>
      exists c :: c in request.capp.spec.configuration.containers && v in c.mounts
    {
      MountedIff(request.capp, v);
    }
    SourcesAdmissibleIff(request.capp.spec.sources, cfg.maxKafkaConsumers, oracles);
    assert ScaleProblem(request.capp.spec.scale, cfg.autoscale).None? <==>
      ScaleInOrder(request.capp.spec.scale, cfg.autoscale);
  }

  ghost predicate Renamed(request: Request) {
    request.Create? || request.capp.spec.route.hostname != request.prior.spec.route.hostname
  }

  /** Some volume has this name, and no container mounts it. */
  ghost predicate NamesUnmounted(capp: Capp, name: string) {
    && (exists v :: v in capp.spec.volumes && v.name == name)
    && forall c :: c in capp.spec.configuration.containers ==> name !in c.mounts
  }

  /** A denial tells the truth: the rule it names is broken. */
  ghost predicate Explains(d: Denial, request: Request, cfg: CappConfig, oracles: Oracles) {
    var spec := request.capp.spec;
    match d
    case NoConfig => false
    case HostnameImmutable =>
      request.Update? && request.prior.spec.route.hostname != "" && Renamed(request)
    case BadDomainName => Renamed(request) && !oracles.domainNameValid(spec.route.hostname)
    case DomainNameTaken => Renamed(request) && !oracles.domainNameFree(spec.route.hostname)
    case BadPasswordSecret => spec.passwordSecret != "" && !oracles.elasticSecretComplete(spec.passwordSecret)
    case VolumesNotMounted(names) => names != [] && forall n :: n in names <==> NamesUnmounted(request.capp, n)
    case DuplicateSource(_) => !SourcesAdmissible(spec.sources, cfg.maxKafkaConsumers, oracles)
    case BadSource(_) => !SourcesAdmissible(spec.sources, cfg.maxKafkaConsumers, oracles)
    case TemplateAnnotation =>
      exists k :: k in spec.configuration.annotations && "autoscaling.knative.dev/" <= k
    case BadScale(error) => ScaleBreaks(error, spec.scale, cfg.autoscale)
  }

  ghost predicate ScaleBreaks(error: ScaleError, scale: ScaleSpec, cfg: AutoscaleConfig) {
    var low, high := scale.minReplicas, scale.maxReplicas;
    match error
    case MinTooHigh => low.Some? && low.value > cfg.minReplicasLimit
    case MaxTooHigh => high.Some? && high.value > cfg.maxReplicasLimit
    case MaxBelowMin => high.Some? && low.Some? && high.value < low.value
    case MaxBelowActivation => high.Some? && low.None? && high.value < cfg.activationScale
    case DelayTooHigh => scale.scaleDelay.Some? && scale.scaleDelay.value > cfg.maxScaleDelay
  }

  lemma UnmountedMeans(capp: Capp, names: seq<string>)
    requires multiset(names) == multiset(UnmountedNames(capp))
    ensures forall n :: n in names <==> NamesUnmounted(capp, n)
  {
    forall n ensures n in names <==> NamesUnmounted(capp, n) {
      assert n in names <==> n in multiset(names);
      assert n in multiset(names) <==> n in UnmountedNames(capp);
      MountedIff(capp, n);
    }
  }

  lemma DenialExplained(d: Denial, request: Request, cfg: CappConfig, oracles: Oracles)
    requires d != NoConfig && FirstFailure(Checks(request, cfg, oracles), CheckOf(d))
    requires d.VolumesNotMounted? ==> multiset(d.names) == multiset(UnmountedNames(request.capp))
    requires d.BadScale? ==> ScaleProblem(request.capp.spec.scale, cfg.autoscale) == Some(d.error)
    ensures Explains(d, request, cfg, oracles)
  {
    if d.VolumesNotMounted? {
      UnmountedMeans(request.capp, d.names);
      AllMountedIff(request.capp);
      var n :| n in UnmountedNames(request.capp);
      assert n in multiset(d.names);
    }
  }

  /** The validating webhook. A Capp under deletion is let through unseen. */
  method Validate(request: Request, config: Option<CappConfig>, oracles: Oracles) returns (r: Response)
    ensures request.capp.deleting ==> r == Allowed
    ensures r == Denied(NoConfig) <==> !request.capp.deleting && config.None?
    ensures !request.capp.deleting && config.Some? ==> (r == Allowed <==> FollowsRules(request, config.value, oracles))
    ensures r.Denied? && r.reason != NoConfig ==>
      && config.Some? && FirstFailure(Checks(request, config.value, oracles), CheckOf(r.reason))
      && Explains(r.reason, request, config.value, oracles)
  {
    if request.capp.deleting {
      return Allowed;
    }
    if config.None? {
      return Denied(NoConfig);
    }
    var denial := RunChecks(request, config.value, oracles);
    AdmissibleIff(request, config.value, oracles);
    AdmissibleFollowsRules(request, config.value, oracles);
    if denial.Some? {
      DenialExplained(denial.value, request, config.value, oracles);
    }
    return if denial.Some? then Denied(denial.value) else Allowed;
  }

  // ---------------------------------------------------------------- what admission buys

  lemma ScalingKeysDiffer()
    ensures |CLASS_KEY| == 29 && |METRIC_KEY| == 30 && |TARGET_KEY| == 30 && |DELAY_KEY| == 40
    ensures |MIN_KEY| == 33 && |ACTIVATION_KEY| == 40 && |MAX_KEY| == 33
    ensures MIN_KEY != MAX_KEY && ACTIVATION_KEY != DELAY_KEY && METRIC_KEY != TARGET_KEY
  {
    assert MIN_KEY[25] == 'i' && MAX_KEY[25] == 'a';
    assert ACTIVATION_KEY[24] == 'a' && DELAY_KEY[24] == 's';
    assert METRIC_KEY[24] == 'm' && TARGET_KEY[24] == 't';
  }

  /** The lower bound the autoscaler is given. */
  function LowerBound(scale: ScaleSpec, cfg: AutoscaleConfig): int {
    if scale.minReplicas.Some? then scale.minReplicas.value else cfg.activationScale
  }

  lemma ScalingTexts(scale: ScaleSpec, cfg: AutoscaleConfig, durationText: int -> string)
    requires scale.metric != ""
    ensures var m := AutoScaler(scale, cfg, durationText);
      && (MIN_KEY in m <==> scale.minReplicas.Some?) && (MIN_KEY in m ==> m[MIN_KEY] == Signed(scale.minReplicas.value))
      && (ACTIVATION_KEY in m <==> scale.minReplicas.None?)
      && (ACTIVATION_KEY in m ==> m[ACTIVATION_KEY] == Decimal(cfg.activationScale))
      && (MAX_KEY in m <==> scale.maxReplicas.Some?) && (MAX_KEY in m ==> m[MAX_KEY] == Signed(scale.maxReplicas.value))
  {
    ScalingKeysDiffer();
  }

  const SCALING_KEYS: set<string> :=
    {CLASS_KEY, METRIC_KEY, TARGET_KEY, DELAY_KEY, MIN_KEY, ACTIVATION_KEY, MAX_KEY}

  /** The default that goes with a metric. */
  predicate TargetOf(text: string, metric: string, cfg: AutoscaleConfig) {
    && (metric == "rps" ==> Value(text) == cfg.rps) && (metric == "cpu" ==> Value(text) == cfg.cpu)
    && (metric == "memory" ==> Value(text) == cfg.memory)
    && (metric == "concurrency" ==> Value(text) == cfg.concurrency)
  }

  lemma TargetTexts(metric: string, cfg: AutoscaleConfig)
    ensures TargetOf(TargetValue(metric, cfg), metric, cfg)
    ensures metric !in {"rps", "cpu", "memory", "concurrency"} ==> TargetValue(metric, cfg) == ""
  {
    DecimalRoundTrip(cfg.rps);
    DecimalRoundTrip(cfg.cpu);
    DecimalRoundTrip(cfg.memory);
    DecimalRoundTrip(cfg.concurrency);
  }

  /** Metric, class, target and delay. */
  lemma ScalingChoice(scale: ScaleSpec, cfg: AutoscaleConfig, durationText: int -> string)
    requires scale.metric != ""
    ensures var m := AutoScaler(scale, cfg, durationText);
      && METRIC_KEY in m && m[METRIC_KEY] == scale.metric
      && CLASS_KEY in m && m[CLASS_KEY] == (if scale.metric == "rps" || scale.metric == "concurrency"
                                            then "kpa.autoscaling.knative.dev" else "hpa.autoscaling.knative.dev")
      && TARGET_KEY in m && TargetOf(m[TARGET_KEY], scale.metric, cfg)
      && (DELAY_KEY in m <==> scale.scaleDelay.Some?)
      && (DELAY_KEY in m ==> m[DELAY_KEY] == durationText(scale.scaleDelay.value))
      && m.Keys <= SCALING_KEYS
  {
    ScalingKeysDiffer();
    TargetTexts(scale.metric, cfg);
  }

  /** The annotations hold exactly one lower bound, min-scale or activation-scale, and the upper bound
      just when one is asked for; read back, the texts are the numbers. */
  lemma ScalingAnnotations(scale: ScaleSpec, cfg: AutoscaleConfig, durationText: int -> string)
    requires scale.metric != ""
    requires scale.minReplicas.Some? ==> scale.minReplicas.value >= 0
    requires scale.maxReplicas.Some? ==> scale.maxReplicas.value >= 1
    ensures var m := AutoScaler(scale, cfg, durationText);
      && (MIN_KEY in m <==> ACTIVATION_KEY !in m) && (MIN_KEY in m <==> scale.minReplicas.Some?)
      && (MIN_KEY in m ==> Value(m[MIN_KEY]) == LowerBound(scale, cfg))
      && (ACTIVATION_KEY in m ==> Value(m[ACTIVATION_KEY]) == LowerBound(scale, cfg))
      && (MAX_KEY in m <==> scale.maxReplicas.Some?)
      && (MAX_KEY in m ==> Value(m[MAX_KEY]) == scale.maxReplicas.value)
  {
    ScalingTexts(scale, cfg, durationText);
    if scale.minReplicas.Some? { DecimalRoundTrip(scale.minReplicas.value); }
    if scale.maxReplicas.Some? { DecimalRoundTrip(scale.maxReplicas.value); }
    DecimalRoundTrip(cfg.activationScale);
  }

  /** The lower bound text in the annotations, whichever key carries it. */
  function LowerText(m: map<string, string>): Option<string> {
    if MIN_KEY in m then Some(m[MIN_KEY]) else if ACTIVATION_KEY in m then Some(m[ACTIVATION_KEY]) else None
  }

  /** A scale spec is admitted exactly when the annotations derived from it are in order - the upper
      bound not below the lower one and not above the limit - and minimum and delay keep their limits. */
  lemma ScaleAdmittedIff(scale: ScaleSpec, cfg: AutoscaleConfig, durationText: int -> string)
    requires scale.metric != ""
    requires scale.minReplicas.Some? ==> scale.minReplicas.value >= 0
    requires scale.maxReplicas.Some? ==> scale.maxReplicas.value >= 1
    ensures var m := AutoScaler(scale, cfg, durationText);
      LowerText(m).Some? &&
      (ScaleProblem(scale, cfg).None? <==>
        && (MAX_KEY in m ==> Value(LowerText(m).value) <= Value(m[MAX_KEY]) <= cfg.maxReplicasLimit)
        && (scale.minReplicas.Some? ==> scale.minReplicas.value <= cfg.minReplicasLimit)
        && (scale.scaleDelay.Some? ==> scale.scaleDelay.value <= cfg.maxScaleDelay))
  {
    ScalingAnnotations(scale, cfg, durationText);
  }

  /** The derived annotations win over the Capp's own of the same key, but do not keep the Capp's own
      lower bound of the other kind out of the Service's template. */
  lemma DerivedAnnotationsWin(capp: Capp, env: Env)
    ensures var scaling := AutoScaler(capp.spec.scale, env.config.autoscale, env.library.durationText);
      var merged := ServiceChild(capp, env).obj.spec.configuration.annotations;
      forall k :: (k in merged <==> k in scaling || k in ForwardedAnnotations(capp))
               && (k in scaling ==> merged[k] == scaling[k])
               && (k in merged && k !in scaling ==> merged[k] == capp.annotations[k])
  {
  }

  /** An admitted source never runs more consumers than allowed, and none while the Capp is disabled.
      The minimum of one consumer is enforced by the resource definition. */
  lemma ConsumersBounded(capp: Capp, s: Source, maxKafkaConsumers: int, oracles: Oracles)
    requires maxKafkaConsumers >= 1 && s.kafka.Some? && s.ping.None?
    requires s.kafka.value.consumers.Some? ==> s.kafka.value.consumers.value >= 1
    requires SourceAdmissible(s, maxKafkaConsumers, oracles)
    ensures var consumers := KafkaChild(capp, s).obj.spec.consumers;
      if capp.spec.state == DISABLED then consumers == 0 else 1 <= consumers <= maxKafkaConsumers
  {
  }

  /** Volumes of one name with different servers pass admission: the condition under which passes
      never settle is not checked. */
  lemma DuplicateVolumesAdmitted(capp: Capp, cfg: CappConfig, oracles: Oracles, v: NfsVolume, w: NfsVolume)
    requires Admissible(Create(capp), cfg, oracles) && v in capp.spec.volumes && w.name == v.name
    ensures Admissible(Create(capp.(spec := capp.spec.(volumes := capp.spec.volumes + [w]))), cfg, oracles)
  {
    var more := capp.(spec := capp.spec.(volumes := capp.spec.volumes + [w]));
    assert more.spec.configuration == capp.spec.configuration;
    assert forall n :: Mounted(capp, n) ==> Mounted(more, n);
  }

  // ---------------------------------------------------------------- the mutating webhook

  const LAST_UPDATED_BY := "rcs.dana.io/last-updated-by"
  const RESOURCE_NAMES: seq<string> := ["cpu", "memory"]

  /** The quantities set already, completed with the defaults for CPU and memory. */
  function Defaulted(resources: map<string, int>, defaults: map<string, int>): map<string, int> {
    (map k | k in defaults && k in RESOURCE_NAMES :: defaults[k]) + resources
  }

  method SetResourceQuantity(resources: map<string, int>, defaults: map<string, int>) returns (r: map<string, int>)
    ensures r == Defaulted(resources, defaults)
  {
    r := resources;
    for i := 0 to |RESOURCE_NAMES|
      invariant r == (map k | k in defaults && k in RESOURCE_NAMES[..i] :: defaults[k]) + resources
    {
      var name := RESOURCE_NAMES[i];
      assert RESOURCE_NAMES[..i + 1] == RESOURCE_NAMES[..i] + [name];
      if name in defaults {
        if name !in r {
          r := r[name := defaults[name]];
        }
      }
    }
    assert RESOURCE_NAMES[..|RESOURCE_NAMES|] == RESOURCE_NAMES;
  }

  function DefaultedContainer(c: Container, cfg: CappConfig): Container {
    c.(requests := Defaulted(c.requests, cfg.defaultRequests), limits := Defaulted(c.limits, cfg.defaultLimits))
  }

  function DefaultedContainers(containers: seq<Container>, cfg: CappConfig): (r: seq<Container>)
    ensures |r| == |containers|
  {
    seq(|containers|, i requires 0 <= i < |containers| => DefaultedContainer(containers[i], cfg))
  }

  /** What the mutating webhook makes of a Capp that is not being deleted. */
  function Mutated(capp: Capp, cfg: CappConfig, username: string): Capp {
    capp.(annotations := capp.annotations[LAST_UPDATED_BY := username],
          spec := capp.spec.(configuration := capp.spec.configuration.(
            containers := DefaultedContainers(capp.spec.configuration.containers, cfg))))
  }

  /** A quantity map filled in: CPU and memory as they were or else by default, any other quantity as it was. */
  ghost predicate FilledIn(before: map<string, int>, after: map<string, int>, defaults: map<string, int>) {
    forall name ::
      (name in after <==> name in before || (name in defaults && (name == "cpu" || name == "memory")))
      && (name in after ==> after[name] == if name in before then before[name] else defaults[name])
  }

  /** The webhook says who updated last, gives each container the default requests and limits it lacks, and changes
      nothing else. */
  ghost predicate Filled(capp: Capp, r: Capp, cfg: CappConfig, username: string) {
    var before, after := capp.spec.configuration.containers, r.spec.configuration.containers;
    && r == capp.(annotations := r.annotations,
                  spec := capp.spec.(configuration := capp.spec.configuration.(containers := after)))
    && r.annotations.Keys == capp.annotations.Keys + {LAST_UPDATED_BY} && r.annotations[LAST_UPDATED_BY] == username
    && (forall k :: k in capp.annotations && k != LAST_UPDATED_BY ==> r.annotations[k] == capp.annotations[k])
    && |after| == |before|
    && (forall i :: 0 <= i < |before| ==>
          && after[i] == before[i].(requests := after[i].requests, limits := after[i].limits)
          && FilledIn(before[i].requests, after[i].requests, cfg.defaultRequests)
          && FilledIn(before[i].limits, after[i].limits, cfg.defaultLimits))
  }

  lemma FilledInDefaults(resources: map<string, int>, defaults: map<string, int>)
    ensures FilledIn(resources, Defaulted(resources, defaults), defaults)
  {
    forall name ensures var r := Defaulted(resources, defaults);
      && (name in r <==> name in resources || (name in defaults && (name == "cpu" || name == "memory")))
      && (name in r ==> r[name] == if name in resources then resources[name] else defaults[name])
    {
      DefaultsOnlyFillIn(resources, defaults, name);
    }
  }

  lemma MutatedIsFilled(capp: Capp, cfg: CappConfig, username: string)
    ensures Filled(capp, Mutated(capp, cfg, username), cfg, username)
  {
    forall c: Container
      ensures FilledIn(c.requests, DefaultedContainer(c, cfg).requests, cfg.defaultRequests)
      ensures FilledIn(c.limits, DefaultedContainer(c, cfg).limits, cfg.defaultLimits)
    {
      FilledInDefaults(c.requests, cfg.defaultRequests);
      FilledInDefaults(c.limits, cfg.defaultLimits);
    }
  }

  method Mutate(capp: Capp, cfg: CappConfig, username: string) returns (r: Capp)
    ensures r == if capp.deleting then capp else Mutated(capp, cfg, username)
    ensures !capp.deleting ==> Filled(capp, r, cfg, username)
  {
    if capp.deleting {
      return capp;
    }
    MutatedIsFilled(capp, cfg, username);
    r := capp.(annotations := capp.annotations[LAST_UPDATED_BY := username]);
    var containers := r.spec.configuration.containers;
    var done := [];
    for i := 0 to |containers|
      invariant done == DefaultedContainers(containers[..i], cfg)
    {
      var requests := SetResourceQuantity(containers[i].requests, cfg.defaultRequests);
      var limits := SetResourceQuantity(containers[i].limits, cfg.defaultLimits);
      assert DefaultedContainers(containers[..i + 1], cfg) == done + [DefaultedContainer(containers[i], cfg)];
      done := done + [containers[i].(requests := requests, limits := limits)];
    }
    assert containers[..|containers|] == containers;
    r := r.(spec := r.spec.(configuration := r.spec.configuration.(containers := done)));
  }

  /** Defaulting fills in CPU and memory where they are missing, and leaves every other quantity alone. */
  lemma DefaultsOnlyFillIn(resources: map<string, int>, defaults: map<string, int>, name: string)
    ensures var r := Defaulted(resources, defaults);
      && (name in r <==> name in resources || (name in defaults && (name == "cpu" || name == "memory")))
      && (name in resources ==> r[name] == resources[name])
      && (name in r && name !in resources ==> r[name] == defaults[name])
  {
    assert name in RESOURCE_NAMES <==> name == "cpu" || name == "memory";
  }

  /** Passing through the webhook again, for another user, changes who updated last and nothing else. */
  lemma MutatedAgain(capp: Capp, cfg: CappConfig, first: string, second: string)
    ensures Mutated(Mutated(capp, cfg, first), cfg, second) == Mutated(capp, cfg, second)
  {
    forall c: Container ensures DefaultedContainer(DefaultedContainer(c, cfg), cfg) == DefaultedContainer(c, cfg) {
      assert Defaulted(Defaulted(c.requests, cfg.defaultRequests), cfg.defaultRequests) ==
        Defaulted(c.requests, cfg.defaultRequests);
      assert Defaulted(Defaulted(c.limits, cfg.defaultLimits), cfg.defaultLimits) ==
        Defaulted(c.limits, cfg.defaultLimits);
    }
    var containers := capp.spec.configuration.containers;
    assert DefaultedContainers(DefaultedContainers(containers, cfg), cfg) == DefaultedContainers(containers, cfg);
  }
}
