/** One reconcile of an Instance: what SyncPXC writes and what StatusPXC reports
    (internal/provider/provider.go, internal/provider/monitoring_sources.go, internal/provider/metrics.go,
    internal/provider/pmm.go), and the admission rules of internal/provider/validate.go. */
module ClusterSync {

  import opened Prelude
  import opened PmmResources
  import B = BackupTranslation
  import L = Lifecycle

  // ------------------------------------------------------------------------- inputs

  datatype Component = Component(kind: string, replicas: Option<int>, resources: Option<Requirements>)

  datatype Instance = Instance(
    name: string, components: map<string, Component>, backup: Option<B.BackupSpec>, dataSource: Option<L.DataSource>)

  /** The SDK's three-valued answer; `Unresolved` until the bindings have settled. */
  datatype Requirement = Required | NotRequired | Unresolved
  {
    function Else(live: bool): bool {
      if Unresolved? then live else Required?
    }
  }

  datatype Credentials = CredentialsFault | NoCredentials | Token(token: string)

  /** A pmm binding: the host its URL parses to, the entry's resources (None: undecodable), its credentials. */
  datatype Binding = Binding(
    name: string, applies: bool, integration: string, host: Option<string>, entry: Option<Option<Requirements>>,
    agentImage: string, credentials: Credentials)

  /** Everything one Sync reads apart from the objects it may write. `backups` maps Backup resources to
      the Instance they originate from. */
  datatype Input = Input(
    instance: Instance,
    backupEnv: B.Env,
    engineConfigReadable: bool,
    proxyImageResolves: bool,
    proxyConfigReadable: bool,
    sourcesReadable: bool,
    pmm: Requirement,
    metrics: Requirement,
    bindings: Option<seq<Binding>>,
    backups: map<string, string>)

  // ------------------------------------------------------------------------ objects

  datatype Pmm = Pmm(enabled: bool, host: string, image: string, resources: Requirements)

  datatype Container = Container(name: string, image: string)

  datatype ClusterSpec = ClusterSpec(
    engineSize: int, haproxy: Option<int>, proxysql: Option<int>, unsafePxc: bool, unsafeProxy: bool,
    backup: Option<B.OpBackupSpec>, pmm: Option<Pmm>, sidecars: seq<Container>)

  datatype AppState = Initializing | Paused | AppReady | AppError

  datatype Cluster = Cluster(spec: ClusterSpec, state: AppState)

  datatype Restore = Restore(instance: string, deleting: bool, state: L.RestoreState)

  type Secret = map<string, string>

  datatype State = State(cr: Option<Cluster>, secrets: map<string, Secret>, restores: map<string, Restore>)

  const PMM_TOKEN_KEY := "pmmservertoken"
  const EXPORTER_NAME := "mysqld-exporter"

  function UsersSecret(instance: string): string {
    "everest-secrets-" + instance
  }

  /** The name of the Restore the SDK seeds an Instance with. */
  function SeedName(instance: string): string {
    instance + "-seed"
  }

  // ----------------------------------------------------------------- admission, spec building

  datatype FieldError =
    | EngineRequired | EngineReplicas | ProxyRequired | ProxyTypeRequired | ProxyTypeUnsupported | ProxyReplicas
    | PitrField(error: B.PitrError)

  predicate ReplicasOk(c: Component) {
    c.replicas.None? || c.replicas.value >= 1
  }

  /** What admission promises about an Instance. */
  predicate Admitted(i: Instance) {
    && "engine" in i.components && ReplicasOk(i.components["engine"])
    && "proxy" in i.components && ReplicasOk(i.components["proxy"])
    && i.components["proxy"].kind in {"haproxy", "proxysql"}
    && B.PitrErrors(i.backup) == []
  }

  /** Each error is raised exactly when its rule is broken. */
  ghost predicate Explains(errs: seq<FieldError>, i: Instance) {
    && (EngineRequired in errs <==> "engine" !in i.components)
    && (EngineReplicas in errs <==> "engine" in i.components && TooFew(i.components["engine"].replicas))
    && (ProxyRequired in errs <==> "proxy" !in i.components)
    && (ProxyTypeRequired in errs <==> "proxy" in i.components && i.components["proxy"].kind == "")
    && (ProxyTypeUnsupported in errs <==>
          "proxy" in i.components && i.components["proxy"].kind !in {"", "haproxy", "proxysql"})
    && (ProxyReplicas in errs <==> "proxy" in i.components && TooFew(i.components["proxy"].replicas))
  }

  predicate TooFew(replicas: Option<int>) {
    replicas.Some? && replicas.value < 1
  }

  /** The component rules. */
  method ValidateComponents(i: Instance) returns (errs: seq<FieldError>)
    ensures Explains(errs, i) && forall e :: PitrField(e) !in errs
  {
    errs := [];
    if "engine" !in i.components {
      errs := errs + [EngineRequired];
    } else if i.components["engine"].replicas.Some? && i.components["engine"].replicas.value < 1 {
      errs := errs + [EngineReplicas];
    }
    if "proxy" !in i.components {
      errs := errs + [ProxyRequired];
    } else {
      var proxy := i.components["proxy"];
      if proxy.kind == "" {
        errs := errs + [ProxyTypeRequired];
      } else if proxy.kind != "haproxy" && proxy.kind != "proxysql" {
        errs := errs + [ProxyTypeUnsupported];
      }
      if proxy.replicas.Some? && proxy.replicas.value < 1 {
        errs := errs + [ProxyReplicas];
      }
    }
  }

  method Validate(i: Instance) returns (errs: seq<FieldError>)
    ensures errs == [] <==> Admitted(i)
    ensures Explains(errs, i) && forall e :: PitrField(e) in errs <==> e in B.PitrErrors(i.backup)
  {
    errs := ValidateComponents(i);
    var pitr := B.ValidatePitr(i.backup);
    var fields := seq(|pitr|, k requires 0 <= k < |pitr| => PitrField(pitr[k]));
    forall e | e in pitr
      ensures PitrField(e) in fields
    {
      var k :| 0 <= k < |pitr| && pitr[k] == e;
      assert fields[k] == PitrField(e);
    }
    ghost var components := errs;
    errs := errs + fields;
    assert errs == [] <==> components == [] && pitr == [];
    NoComponentErrors(components, i);
  }

  lemma {:induction false} NoComponentErrors(errs: seq<FieldError>, i: Instance)
    requires Explains(errs, i) && forall e :: PitrField(e) !in errs
    ensures errs == [] <==> Admitted(i.(backup := None))
  {
    if errs != [] {
      var e := errs[0];
      assert e in errs;
      assert !e.PitrField?;
    }
  }

  datatype SyncFault =
    | MissingEngine | MissingProxy | ConfigUnreadable | ProxyImageUnresolved | UnsupportedProxy
    | BackupFault(fault: B.Fault) | MonitoringApiFault | ExporterImageMissing | SourceCredentialsMissing

  datatype Built = Ok(spec: ClusterSpec) | Bad(fault: SyncFault)

  function Replicas(c: Component, default: int): int {
    if c.replicas.Some? then c.replicas.value else default
  }

  /** The section as translated; None when there is none or it is disabled. */
  function BackupPart(input: Input): Option<B.OpBackupSpec>
    requires BackupPartFault(input).None?
  {
    if input.instance.backup.None? || !input.instance.backup.value.enabled then None
    else Some(B.Translate(input.instance.backup.value, input.backupEnv))
  }

  function BackupPartFault(input: Input): Option<B.Fault> {
    if input.instance.backup.None? || !input.instance.backup.value.enabled then None
    else B.TranslationFault(input.instance.backup.value, input.backupEnv)
  }

  /** The spec before monitoring is added, or what stops Sync before it reads any monitoring state. */
  function BuildSpec(input: Input): Built {
    var cs := input.instance.components;
    if "engine" !in cs then Bad(MissingEngine)
    else if "proxy" !in cs || cs["proxy"].kind == "" then Bad(MissingProxy)
    else if !input.engineConfigReadable then Bad(ConfigUnreadable)
    else if !input.proxyImageResolves then Bad(ProxyImageUnresolved)
    else if cs["proxy"].kind != "haproxy" && cs["proxy"].kind != "proxysql" then Bad(UnsupportedProxy)
    else if !input.proxyConfigReadable then Bad(ConfigUnreadable)
    else if BackupPartFault(input).Some? then Bad(BackupFault(BackupPartFault(input).value))
    else
      var engine, proxy := Replicas(cs["engine"], 3), Replicas(cs["proxy"], 2);
      var sql := cs["proxy"].kind == "proxysql";
      Ok(ClusterSpec(engine, if sql then None else Some(proxy), if sql then Some(proxy) else None,
                     engine < 3, proxy < 2, BackupPart(input), None, []))
  }

  /** Exactly one proxy, with this many replicas. */
  predicate OneProxy(spec: ClusterSpec, size: int) {
    (spec.haproxy == Some(size) && spec.proxysql.None?) || (spec.proxysql == Some(size) && spec.haproxy.None?)
  }

  /** An admitted Instance never stops Sync over a component, its proxy or PITR; what Sync builds has one
      proxy and sizes of at least one, and is flagged unsafe exactly below 3 engine or 2 proxy replicas. */
  lemma {:induction false} AdmissionAgreesWithSync(input: Input)
    requires Admitted(input.instance)
    ensures match BuildSpec(input)
            case Bad(f) => f !in {MissingEngine, MissingProxy, UnsupportedProxy}
                           && f != BackupFault(B.InvalidPitrConfig) && f != BackupFault(B.PitrConfigurationInvalid)
            case Ok(spec) =>
              && spec.engineSize >= 1 && (spec.unsafePxc <==> spec.engineSize < 3)
              && exists n :: OneProxy(spec, n) && n >= 1 && (spec.unsafeProxy <==> n < 2)
  {
    if input.instance.backup.Some? && input.instance.backup.value.enabled {
      B.AdmissionAgreesOnPitr(input.instance.backup.value, input.backupEnv);
    }
    match BuildSpec(input)
    case Bad(_) =>
    case Ok(spec) => assert OneProxy(spec, Replicas(input.instance.components["proxy"], 2));
  }

  /** What Sync builds follows the Instance: the requested sizes or 3 and 2, and the requested proxy. */
  lemma {:induction false} BuiltSpecFollowsInstance(input: Input)
    requires BuildSpec(input).Ok?
    ensures var spec, cs := BuildSpec(input).spec, input.instance.components;
            && "engine" in cs && "proxy" in cs
            && (if cs["engine"].replicas.Some? then cs["engine"].replicas == Some(spec.engineSize)
                else spec.engineSize == 3)
            && (spec.haproxy.Some? <==> cs["proxy"].kind == "haproxy")
            && (spec.proxysql.Some? <==> cs["proxy"].kind == "proxysql")
            && (spec.backup.Some? <==> input.instance.backup.Some? && input.instance.backup.value.enabled)
            && exists n :: OneProxy(spec, n)
                           && (if cs["proxy"].replicas.Some? then cs["proxy"].replicas == Some(n) else n == 2)
  {
  }

  /** Conversely, the only rule Sync does not enforce itself is that replicas are positive. */
  lemma {:induction false} SyncEnforcesAllButReplicas(input: Input)
    requires BuildSpec(input).Ok?
    ensures Admitted(input.instance)
            <==> ReplicasOk(input.instance.components["engine"]) && ReplicasOk(input.instance.components["proxy"])
  {
    if input.instance.backup.Some? && input.instance.backup.value.enabled {
      B.AdmissionAgreesOnPitr(input.instance.backup.value, input.backupEnv);
    }
  }

  // ----------------------------------------------------------------------- monitoring

  datatype Rendering = Rendered(pmm: Pmm, token: string) | Rejected | ApiFault

  function SizedRequests(engine: Option<Requirements>): Quantities {
    match SizeOf(engine) case Small => REQUESTS_SMALL case Medium => REQUESTS_MEDIUM case Large => REQUESTS_LARGE
  }

  function EngineResources(i: Instance): Option<Requirements> {
    if "engine" in i.components then i.components["engine"].resources else None
  }

  /** The entry can be rendered, credentials apart: its host parses, its parameters decode, and it does not
      request more than it allows itself. */
  predicate Renderable(b: Binding) {
    && b.host.Some? && b.entry.Some?
    && (b.entry.value.Some? ==> forall k :: k in b.entry.value.value.limits ==> !Exceeds(b.entry.value.value, k))
  }

  function Render(b: Binding, engine: Option<Requirements>): (r: Rendering)
    ensures r.Rendered? ==> && r.pmm.enabled && b.host == Some(r.pmm.host) && r.pmm.image == b.agentImage
                            && b.credentials == Token(r.token) && r.token != ""
                            && b.entry.Some? && Merge(SizedRequests(engine), b.entry.value) == Some(r.pmm.resources)
    ensures r.Rendered? <==> Renderable(b) && b.credentials.Token? && b.credentials.token != ""
    ensures r.ApiFault? <==> Renderable(b) && b.credentials.CredentialsFault?
  {
    if b.host.None? || b.entry.None? then Rejected
    else
      var resources := Merge(SizedRequests(engine), b.entry.value);
      if resources.None? then Rejected
      else match b.credentials
           case CredentialsFault => ApiFault
           case NoCredentials => Rejected
           case Token(token) =>
             if token == "" then Rejected
             else Rendered(Pmm(true, b.host.value, b.agentImage, resources.value), token)
  }

  /** What happens to spec.pmm and the mirrored token. */
  datatype PmmDecision = TurnOff | Hold | Use(pmm: Pmm, token: string) | Fail

  function DecideByBinding(bindings: seq<Binding>, engine: Option<Requirements>): PmmDecision {
    if bindings == [] then Hold
    else if !bindings[0].applies || bindings[0].integration != "pmm" then DecideByBinding(bindings[1..], engine)
    else match Render(bindings[0], engine)
         case Rendered(pmm, token) => Use(pmm, token)
         case Rejected => Hold
         case ApiFault => Fail
  }

  /** Binding `k` is the first that applies and is PMM's. */
  ghost predicate FirstApplicable(bindings: seq<Binding>, k: nat) {
    && k < |bindings| && bindings[k].applies && bindings[k].integration == "pmm"
    && forall j :: 0 <= j < k ==> !(bindings[j].applies && bindings[j].integration == "pmm")
  }

  predicate Renders(b: Binding) {
    Renderable(b) && b.credentials.Token? && b.credentials.token != ""
  }

  /** What a binding that renders asks for. */
  function PmmFor(b: Binding, engine: Option<Requirements>): Pmm
    requires Renders(b)
  {
    Pmm(true, b.host.value, b.agentImage, Merge(SizedRequests(engine), b.entry.value).value)
  }

  /** The first applicable binding alone decides: it is used if it renders, its API fault fails Sync, and
      otherwise, or without one, the live spec.pmm is held. */
  lemma {:induction false} BindingDecides(bindings: seq<Binding>, engine: Option<Requirements>)
    ensures (forall k: nat :: !FirstApplicable(bindings, k)) ==> DecideByBinding(bindings, engine) == Hold
    ensures forall k: nat :: FirstApplicable(bindings, k) ==>
                               DecideByBinding(bindings, engine) ==
                               if Renders(bindings[k])
                               then Use(PmmFor(bindings[k], engine), bindings[k].credentials.token)
                               else if Renderable(bindings[k]) && bindings[k].credentials.CredentialsFault? then Fail
                               else Hold
  {
    if bindings != [] {
      var rest := bindings[1..];
      if bindings[0].applies && bindings[0].integration == "pmm" {
        assert FirstApplicable(bindings, 0);
      } else {
        BindingDecides(rest, engine);
        assert forall k: nat :: FirstApplicable(bindings, k) ==> k > 0 && FirstApplicable(rest, k - 1);
        assert forall k: nat :: FirstApplicable(rest, k) ==> FirstApplicable(bindings, k + 1);
      }
    }
  }

  predicate LivePmmOn(cr: Option<Cluster>) {
    cr.Some? && cr.value.spec.pmm.Some? && cr.value.spec.pmm.value.enabled
  }

  function DecidePmm(input: Input, cr: Option<Cluster>): PmmDecision {
    if !input.pmm.Else(LivePmmOn(cr)) then TurnOff
    else if !input.pmm.Required? then Hold
    else if input.bindings.None? then Fail
    else DecideByBinding(input.bindings.value, EngineResources(input.instance))
  }

  function PmmAfter(d: PmmDecision, cr: Option<Cluster>): Option<Pmm> {
    match d
    case Use(pmm, _) => Some(pmm)
    case Hold => if cr.Some? then cr.value.spec.pmm else None
    case _ => None
  }

  /** Mirrors the token into the users Secret, or removes the mirror; an absent Secret stays absent. */
  function SyncToken(secrets: map<string, Secret>, name: string, token: Option<string>): map<string, Secret> {
    if name !in secrets then secrets
    else if token.None? then secrets[name := secrets[name] - {PMM_TOKEN_KEY}]
    else secrets[name := secrets[name][PMM_TOKEN_KEY := token.value]]
  }

  function TokenAfter(secrets: map<string, Secret>, name: string, d: PmmDecision): map<string, Secret> {
    match d
    case TurnOff => SyncToken(secrets, name, None)
    case Use(_, token) => SyncToken(secrets, name, Some(token))
    case _ => secrets
  }

  predicate HasExporter(sidecars: seq<Container>) {
    exists i :: 0 <= i < |sidecars| && sidecars[i].name == EXPORTER_NAME
  }

  predicate LiveHasExporter(cr: Option<Cluster>) {
    cr.Some? && HasExporter(cr.value.spec.sidecars)
  }

  /** The sidecars of the new spec; None when the exporter is wanted but has no image. */
  function Sidecars(input: Input, cr: Option<Cluster>): Option<seq<Container>> {
    var image := B.DefaultImage(input.backupEnv.catalog, EXPORTER_NAME);
    if !input.metrics.Else(LiveHasExporter(cr)) then Some([])
    else if image == "" then None
    else Some([Container(EXPORTER_NAME, image)])
  }

  // ----------------------------------------------------------------- data-source credentials

  /** The Instance whose data is seeded from; "" when it cannot be resolved yet. */
  function DataSourceInstance(ds: L.DataSource, backups: map<string, string>): string {
    match ds
    case FromBackup(ref) =>
      if ref.None? || ref.value == "" || ref.value !in backups then "" else backups[ref.value]
    case FromPointInTime(pitr) =>
      if pitr.None? || pitr.value.instance.None? then "" else pitr.value.instance.value
    case FromElsewhere(_) => ""
  }

  /** The secrets after the copy; None when the source's users Secret is missing. */
  function EnsureCredentials(secrets: map<string, Secret>, target: string, source: string)
    : Option<map<string, Secret>>
  {
    if target in secrets || source == "" then Some(secrets)
    else if UsersSecret(source) !in secrets then None
    else Some(secrets[target := secrets[UsersSecret(source)]])
  }

  function CredentialsAfter(secrets: map<string, Secret>, input: Input): Option<map<string, Secret>> {
    if input.instance.dataSource.None? then Some(secrets)
    else EnsureCredentials(secrets, UsersSecret(input.instance.name),
                           DataSourceInstance(input.instance.dataSource.value, input.backups))
  }

  // ------------------------------------------------------------------------------ Sync

  predicate ActiveRestore(r: Restore, instance: string) {
    r.instance == instance && !r.deleting && r.state != L.RestoreSucceeded && r.state != L.RestoreFailed
  }

  predicate HasActiveRestore(restores: map<string, Restore>, instance: string) {
    exists n :: n in restores && ActiveRestore(restores[n], instance)
  }

  predicate Terminal(r: Restore) {
    r.state == L.RestoreSucceeded || r.state == L.RestoreFailed
  }

  /** What Sync is going to do: nothing, stop with a fault after at most a token write, or apply. */
  datatype Plan =
    | Skip
    | Abort(secrets: map<string, Secret>, fault: SyncFault)
    | Go(spec: ClusterSpec, secrets: map<string, Secret>)

  function MonitoringPlan(st: State, input: Input, spec: ClusterSpec): Plan {
    var d := DecidePmm(input, st.cr);
    if !input.sourcesReadable || d.Fail? then Abort(st.secrets, MonitoringApiFault)
    else
      var secrets := TokenAfter(st.secrets, UsersSecret(input.instance.name), d);
      var sidecars := Sidecars(input, st.cr);
      if sidecars.None? then Abort(secrets, ExporterImageMissing)
      else
        var seeded := CredentialsAfter(secrets, input);
        if seeded.None? then Abort(secrets, SourceCredentialsMissing)
        else Go(spec.(pmm := PmmAfter(d, st.cr), sidecars := sidecars.value), seeded.value)
  }

  function PlanSync(st: State, input: Input): Plan {
    if HasActiveRestore(st.restores, input.instance.name) then Skip
    else match BuildSpec(input)
         case Bad(fault) => Abort(st.secrets, fault)
         case Ok(spec) => MonitoringPlan(st, input, spec)
  }

  /** Applying a spec keeps the status the operator has written. */
  function ApplySpec(cr: Option<Cluster>, spec: ClusterSpec): Cluster {
    Cluster(spec, if cr.Some? then cr.value.state else Initializing)
  }

  datatype SyncResult = SyncResult(fault: Option<SyncFault>, seedingDone: Option<bool>)

  /** SDK contract: creates the seeding Restore unless it exists, and reports whether it has finished. */
  function ReconcileDataSource(restores: map<string, Restore>, instance: string): (map<string, Restore>, bool) {
    if SeedName(instance) in restores then (restores, Terminal(restores[SeedName(instance)]))
    else (restores[SeedName(instance) := Restore(instance, false, L.RestorePending)], false)
  }

  function SyncPXC(st: State, input: Input): (State, SyncResult) {
    match PlanSync(st, input)
    case Skip => (st, SyncResult(None, None))
    case Abort(secrets, fault) =>
      (st.(secrets := secrets), SyncResult(Some(fault), if fault.SourceCredentialsMissing? then Some(true) else None))
    case Go(spec, secrets) =>
      var cluster := ApplySpec(st.cr, spec);
      var applied := st.(cr := Some(cluster), secrets := secrets);
      if input.instance.dataSource.None? then (applied, SyncResult(None, None))
      else if cluster.state != AppReady then (applied, SyncResult(None, Some(false)))
      else
        var seeding := ReconcileDataSource(st.restores, input.instance.name);
        (applied.(restores := seeding.0), SyncResult(None, Some(seeding.1)))
  }

  // ---------------------------------------------------------------------------- Status

  datatype Phase = Provisioning | Restoring | Ready | PhaseFailed

  predicate ConnectionReadable(secrets: map<string, Secret>, instance: string) {
    UsersSecret(instance) in secrets && "root" in secrets[UsersSecret(instance)]
  }

  function StatusPXC(st: State, instance: string, seedingDone: Option<bool>): Phase {
    if st.cr.None? then Provisioning
    else if seedingDone == Some(false) then Restoring
    else if HasActiveRestore(st.restores, instance) then Restoring
    else match st.cr.value.state
         case Paused => Provisioning
         case AppReady => if ConnectionReadable(st.secrets, instance) then Ready else PhaseFailed
         case AppError => PhaseFailed
         case Initializing => Provisioning
  }

  /** Sync, then, unless it failed, Status in the same reconcile. */
  function Reconcile(st: State, input: Input): (State, Option<Phase>) {
    var r := SyncPXC(st, input);
    (r.0, if r.1.fault.Some? then None else Some(StatusPXC(r.0, input.instance.name, r.1.seedingDone)))
  }
}
