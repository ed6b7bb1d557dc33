/** What one Sync does, said from the Instance and the stored objects alone (internal/provider/provider.go,
    internal/provider/monitoring_sources.go, internal/provider/metrics.go). */
module SyncMeaning {

  import opened Prelude
  import opened PmmResources
  import opened ClusterSync
  import opened ClusterRuns
  import B = BackupTranslation
  import TR = TranslationRules
  import L = Lifecycle

  // --------------------------------------------------------------------- what Sync applies

  /** Some Sync without a fault, not held back by a Restore: it applied a spec. */
  ghost predicate Applied(st: State, input: Input) {
    !InRestore(st.restores, input.instance.name) && SyncPXC(st, input).1.fault.None?
  }

  predicate SectionOn(i: Instance) {
    i.backup.Some? && i.backup.value.enabled
  }

  predicate Runs(spec: ClusterSpec, kind: string, size: int) {
    match kind
    case "haproxy" => spec.haproxy == Some(size) && spec.proxysql.None?
    case "proxysql" => spec.proxysql == Some(size) && spec.haproxy.None?
    case _ => false
  }

  /** The exporter is wanted: required, or still unresolved and present. */
  predicate WantsExporter(st: State, input: Input) {
    input.metrics.Required? || (input.metrics.Unresolved? && LiveHasExporter(st.cr))
  }

  /** The spec has the requested engine size or 3, the requested proxy with its size or 2, the flags for
      smaller sizes, the backup section exactly if it is enabled, and the exporter exactly if it is wanted. */
  ghost predicate FollowsInstance(spec: ClusterSpec, st: State, input: Input) {
    var i := input.instance;
    && "engine" in i.components && "proxy" in i.components
    && spec.engineSize == (if i.components["engine"].replicas.Some? then i.components["engine"].replicas.value else 3)
    && (var size := if i.components["proxy"].replicas.Some? then i.components["proxy"].replicas.value else 2;
        Runs(spec, i.components["proxy"].kind, size) && (spec.unsafeProxy <==> size < 2))
    && (spec.unsafePxc <==> spec.engineSize < 3)
    && (spec.backup.Some? <==> SectionOn(i))
    && (spec.backup.Some? ==> B.FollowsSection(spec.backup.value, i.backup.value, input.backupEnv))
    && (if WantsExporter(st, input)
        then exists image :: image != "" && B.DefaultImage(input.backupEnv.catalog, "mysqld-exporter") == image
                             && spec.sidecars == [Container("mysqld-exporter", image)]
        else spec.sidecars == [])
  }

  lemma {:induction false} PlanFollowsInstance(st: State, input: Input)
    requires PlanSync(st, input).Go?
    ensures FollowsInstance(PlanSync(st, input).spec, st, input)
  {
    if SectionOn(input.instance) { B.TranslationIsFaithful(input.instance.backup.value, input.backupEnv); }
  }

  /** What Sync applies follows the Instance, and keeps the engine's state as the operator reported it. */
  lemma {:induction false} AppliedSpecFollowsInstance(st: State, input: Input)
    requires Applied(st, input)
    ensures var cr := SyncPXC(st, input).0.cr;
            && cr.Some? && FollowsInstance(cr.value.spec, st, input)
            && cr.value.state == if st.cr.Some? then st.cr.value.state else Initializing
  {
    ActiveExactly(st.restores, input.instance.name);
    PlanFollowsInstance(st, input);
  }

  // ------------------------------------------------------------------------ spec.pmm

  /** What PMM's client requests beside an engine with this much memory. */
  function SizedFor(mem: int): Quantities {
    if mem >= 34_359_738_368_000 then map["cpu" := 228, "memory" := 816_032_768_000]
    else if mem >= 8_589_934_592_000 then map["cpu" := 228, "memory" := 203_948_032_000]
    else map["cpu" := 95, "memory" := 101_994_496_000]
  }

  /** The engine's memory limit, or its request when that is missing or zero, or none. */
  function EngineMemory(i: Instance): int {
    if "engine" !in i.components || i.components["engine"].resources.None? then 0
    else
      var r := i.components["engine"].resources.value;
      if "memory" in r.limits && r.limits["memory"] != 0 then r.limits["memory"]
      else if "memory" in r.requests then r.requests["memory"]
      else 0
  }

  lemma {:induction false} SizedExactly(i: Instance)
    ensures SizedRequests(EngineResources(i)) == SizedFor(EngineMemory(i))
  {
    if EngineResources(i).Some? { SizeExactly(EngineResources(i).value); }
    else { SizeExactly(Requirements(map[], map[])); }
  }

  ghost predicate NothingRenders(bindings: seq<Binding>) {
    forall k: nat :: FirstApplicable(bindings, k) ==> !Renders(bindings[k])
  }

  /** spec.pmm after an applied Sync: absent when it is not required; as it was while the requirement is
      unresolved, if it was on; when required, what the first applicable binding asks for with the engine's
      sizing if that binding renders, and as it was otherwise. */
  lemma {:induction false} AppliedPmmExactly(st: State, input: Input)
    requires Applied(st, input)
    ensures var live := if st.cr.Some? then st.cr.value.spec.pmm else None;
            var pmm := SyncPXC(st, input).0.cr.value.spec.pmm;
            match input.pmm
            case NotRequired => pmm == None
            case Unresolved => pmm == if live.Some? && live.value.enabled then live else None
            case Required =>
              && input.bindings.Some?
              && (forall k: nat :: FirstApplicable(input.bindings.value, k) && Renders(input.bindings.value[k]) ==>
                    var b := input.bindings.value[k];
                    && Merge(SizedFor(EngineMemory(input.instance)), b.entry.value).Some?
                    && pmm == Some(Pmm(true, b.host.value, b.agentImage,
                                       Merge(SizedFor(EngineMemory(input.instance)), b.entry.value).value)))
              && (NothingRenders(input.bindings.value) ==> pmm == live)
  {
    ActiveExactly(st.restores, input.instance.name);
    GoEffect(st, input);
    SizedExactly(input.instance);
    if input.bindings.Some? { BindingDecides(input.bindings.value, EngineResources(input.instance)); }
    if input.pmm.Required? && NothingRenders(input.bindings.value) {
      assert !DecideByBinding(input.bindings.value, EngineResources(input.instance)).Use?;
    }
  }

  // ---------------------------------------------------------------------- when Sync applies

  predicate Buildable(input: Input) {
    var cs := input.instance.components;
    && "engine" in cs && "proxy" in cs && cs["proxy"].kind in {"haproxy", "proxysql"}
    && input.engineConfigReadable && input.proxyImageResolves && input.proxyConfigReadable
  }

  /** The binding that decides cannot be read. */
  ghost predicate BindingFails(bindings: seq<Binding>) {
    exists k: nat :: && FirstApplicable(bindings, k) && Renderable(bindings[k])
                     && bindings[k].credentials.CredentialsFault?
  }

  ghost predicate MonitoringReadable(input: Input) {
    && input.sourcesReadable
    && (input.pmm.Required? ==> input.bindings.Some? && !BindingFails(input.bindings.value))
  }

  /** An Instance that is seeded has its own users Secret, or its source has one or is not known yet. */
  ghost predicate CredentialsAtHand(st: State, input: Input) {
    input.instance.dataSource.Some? && UsersSecret(input.instance.name) !in st.secrets ==>
      forall source :: source != "" && NamesSource(input.instance.dataSource.value, input.backups, source) ==>
                         UsersSecret(source) in st.secrets
  }

  predicate ExporterAvailable(st: State, input: Input) {
    WantsExporter(st, input) ==> B.DefaultImage(input.backupEnv.catalog, EXPORTER_NAME) != ""
  }

  lemma {:induction false} DecisionFailsExactly(input: Input, cr: Option<Cluster>)
    ensures DecidePmm(input, cr).Fail? <==>
              input.pmm.Required? && (input.bindings.None? || BindingFails(input.bindings.value))
  {
    if input.bindings.Some? {
      BindingDecides(input.bindings.value, EngineResources(input.instance));
    }
  }

  lemma {:induction false} CredentialsExactly(st: State, input: Input, secrets: map<string, Secret>)
    requires secrets.Keys == st.secrets.Keys
    ensures CredentialsAfter(secrets, input).Some? <==> CredentialsAtHand(st, input)
  {
    if input.instance.dataSource.Some? { ResolvesExactly(input.instance.dataSource.value, input.backups); }
  }

  lemma {:induction false} BuildsExactly(input: Input)
    ensures BuildSpec(input).Ok? <==>
              && Buildable(input)
              && (SectionOn(input.instance) ==> TR.Translatable(input.instance.backup.value, input.backupEnv))
  {
    if SectionOn(input.instance) { TR.TranslatesExactly(input.instance.backup.value, input.backupEnv); }
  }

  lemma {:induction false} MonitoringPlanExactly(st: State, input: Input, spec: ClusterSpec)
    ensures MonitoringPlan(st, input, spec).Go? <==>
              MonitoringReadable(input) && ExporterAvailable(st, input) && CredentialsAtHand(st, input)
    ensures !MonitoringPlan(st, input, spec).Skip?
    ensures MonitoringPlan(st, input, spec).Abort? ==> FaultFits(MonitoringPlan(st, input, spec).fault, st, input)
  {
    var d := DecidePmm(input, st.cr);
    DecisionFailsExactly(input, st.cr);
    var secrets := TokenAfter(st.secrets, UsersSecret(input.instance.name), d);
    assert secrets.Keys == st.secrets.Keys;
    CredentialsExactly(st, input, secrets);
  }

  /** Sync applies exactly when no Restore of the Instance is active, the components, configurations and the
      enabled backup section are in order, monitoring can be read, the wanted exporter has an image, and the
      credentials to seed from are at hand. */
  lemma {:induction false} AppliesExactly(st: State, input: Input)
    ensures Applied(st, input) <==>
              && !InRestore(st.restores, input.instance.name) && Buildable(input)
              && (SectionOn(input.instance) ==> TR.Translatable(input.instance.backup.value, input.backupEnv))
              && MonitoringReadable(input) && ExporterAvailable(st, input) && CredentialsAtHand(st, input)
  {
    ActiveExactly(st.restores, input.instance.name);
    BuildsExactly(input);
    if BuildSpec(input).Ok? { MonitoringPlanExactly(st, input, BuildSpec(input).spec); }
  }

  /** What a fault means. */
  ghost predicate FaultFits(f: SyncFault, st: State, input: Input) {
    var cs := input.instance.components;
    match f
    case MissingEngine => "engine" !in cs
    case MissingProxy => "proxy" !in cs || cs["proxy"].kind == ""
    case ConfigUnreadable => !input.engineConfigReadable || !input.proxyConfigReadable
    case ProxyImageUnresolved => !input.proxyImageResolves
    case UnsupportedProxy => "proxy" in cs && cs["proxy"].kind !in {"", "haproxy", "proxysql"}
    case BackupFault(fault) =>
      SectionOn(input.instance) && TR.Blames(fault, input.instance.backup.value, input.backupEnv)
    case MonitoringApiFault => !MonitoringReadable(input)
    case ExporterImageMissing => MonitoringReadable(input) && !ExporterAvailable(st, input)
    case SourceCredentialsMissing =>
      MonitoringReadable(input) && ExporterAvailable(st, input) && !CredentialsAtHand(st, input)
  }

  /** A Sync that fails says why. */
  lemma {:induction false} FaultsFit(st: State, input: Input)
    requires SyncPXC(st, input).1.fault.Some?
    ensures FaultFits(SyncPXC(st, input).1.fault.value, st, input)
    ensures SyncPXC(st, input).1.seedingDone == Some(true) <==>
              SyncPXC(st, input).1.fault == Some(SourceCredentialsMissing)
    ensures SyncPXC(st, input).1.seedingDone != Some(false) && Reconcile(st, input).1 == None
  {
    if BuildSpec(input).Ok? {
      MonitoringPlanExactly(st, input, BuildSpec(input).spec);
    } else if BuildSpec(input).fault.BackupFault? {
      TR.FaultIsBlamed(input.instance.backup.value, input.backupEnv);
    }
  }

  // ------------------------------------------------------------------------------- phases

  /** Seeding is over: the engine is ready and the seeding Restore has finished. */
  ghost predicate SeedingOver(st: State, instance: string) {
    && st.cr.Some? && st.cr.value.state == AppReady && SeedName(instance) in st.restores
    && st.restores[SeedName(instance)].state in {L.RestoreSucceeded, L.RestoreFailed}
  }

  /** After a Sync that applied a spec, the Instance is reported as Restoring exactly while a Restore is active
      or it is still being seeded. */
  lemma {:induction false} ReportsRestoringExactly(st: State, input: Input)
    requires Applied(st, input)
    ensures var st', name := Reconcile(st, input).0, input.instance.name;
            Reconcile(st, input).1 == Some(Restoring) <==>
              InRestore(st'.restores, name) || (input.instance.dataSource.Some? && !SeedingOver(st', name))
  {
    ActiveExactly(st.restores, input.instance.name);
    ActiveExactly(Reconcile(st, input).0.restores, input.instance.name);
  }

  predicate RootReadable(st: State, instance: string) {
    var secret := "everest-secrets-" + instance;
    secret in st.secrets && "root" in st.secrets[secret]
  }

  /** What Status reports: Provisioning without a cluster; otherwise Restoring while it is being seeded or a
      Restore is active; otherwise what the engine reports, where Ready needs readable credentials. */
  lemma {:induction false} PhaseExactly(st: State, instance: string, seedingDone: Option<bool>)
    ensures var phase := StatusPXC(st, instance, seedingDone);
            var busy := seedingDone == Some(false) || InRestore(st.restores, instance);
            && (phase == Restoring <==> st.cr.Some? && busy)
            && (phase == Provisioning <==> st.cr.None? || (!busy && st.cr.value.state in {Paused, Initializing}))
            && (phase == Ready <==> st.cr.Some? && !busy && st.cr.value.state == AppReady && RootReadable(st, instance))
            && (phase == PhaseFailed <==>
                  st.cr.Some? && !busy && (st.cr.value.state == AppError
                                           || (st.cr.value.state == AppReady && !RootReadable(st, instance))))
  {
    ActiveExactly(st.restores, instance);
  }
}
