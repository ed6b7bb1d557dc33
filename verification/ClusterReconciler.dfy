/** Sync and Status as they run, field by field and request by request, proved to do what ClusterSync says. */
module ClusterReconciler {

  import opened Prelude
  import opened PmmResources
  import opened ClusterSync
  import B = BackupTranslation
  import L = Lifecycle

  class Reconciler {

    var cr: Option<Cluster>
    var secrets: map<string, Secret>
    var restores: map<string, Restore>

    ghost function View(): State
      reads this
    {
      State(cr, secrets, restores)
    }

    /** Scans the Restores for one of this Instance that is neither deleting nor finished. */
    method HasActiveRestoreForInstance(instance: string) returns (active: bool)
      ensures active <==> HasActiveRestore(restores, instance)
    {
      var rest := restores.Keys;
      while rest != {}
        invariant rest <= restores.Keys
        invariant forall n :: n in restores && n !in rest ==> !ActiveRestore(restores[n], instance)
        decreases |rest|
      {
        var n :| n in rest;
        var r := restores[n];
        rest := rest - {n};
        if r.instance != instance || r.deleting {
          continue;
        }
        if r.state == L.RestoreSucceeded || r.state == L.RestoreFailed {
          continue;
        }
        assert ActiveRestore(restores[n], instance);
        return true;
      }
      return false;
    }

    /** The spec before monitoring: the default one, overwritten from the components and the backup section. */
    method BuildClusterSpec(input: Input) returns (built: Built)
      ensures built == BuildSpec(input)
    {
      var pxc := ClusterSpec(3, Some(2), None, false, false, None, None, []);
      if "engine" !in input.instance.components {
        return Bad(MissingEngine);
      }
      var engine := input.instance.components["engine"];
      var engineReplicas := 3;
      if engine.replicas.Some? {
        engineReplicas := engine.replicas.value;
      }
      pxc := pxc.(engineSize := engineReplicas);
      if "proxy" !in input.instance.components || input.instance.components["proxy"].kind == "" {
        return Bad(MissingProxy);
      }
      var proxy := input.instance.components["proxy"];
      var proxyReplicas := 2;
      if proxy.replicas.Some? {
        proxyReplicas := proxy.replicas.value;
      }
      if proxy.kind == "proxysql" {
        pxc := pxc.(haproxy := None, proxysql := Some(proxyReplicas));
      } else {
        pxc := pxc.(haproxy := Some(proxyReplicas), proxysql := None);
      }
      var size := if pxc.haproxy.Some? then pxc.haproxy.value else pxc.proxysql.value;
      pxc := pxc.(unsafePxc := engineReplicas < 3, unsafeProxy := size < 2);
      if !input.engineConfigReadable {
        return Bad(ConfigUnreadable);
      }
      if !input.proxyImageResolves {
        return Bad(ProxyImageUnresolved);
      }
      if proxy.kind != "haproxy" && proxy.kind != "proxysql" {
        return Bad(UnsupportedProxy);
      }
      if !input.proxyConfigReadable {
        return Bad(ConfigUnreadable);
      }
      var cluster := new B.ClusterObject();
      var fault := B.ApplyBackupSettings(cluster, input.instance.backup, input.backupEnv);
      if fault.Some? {
        return Bad(BackupFault(fault.value));
      }
      return Ok(pxc.(backup := cluster.backup));
    }

    /** Mirrors the token into the users Secret, or removes it; writes only when something changes. */
    method SyncPmmServerToken(name: string, token: Option<string>)
      modifies this`secrets
      ensures secrets == SyncToken(old(secrets), name, token)
    {
      if name !in secrets {
        return;
      }
      var secret := secrets[name];
      var mirrored := PMM_TOKEN_KEY in secret;
      if token.None? && !mirrored {
        assert secret - {PMM_TOKEN_KEY} == secret;
        assert secrets[name := secret] == secrets;
        return;
      }
      if token.Some? && mirrored && secret[PMM_TOKEN_KEY] == token.value {
        assert secret[PMM_TOKEN_KEY := token.value] == secret;
        assert secrets[name := secret] == secrets;
        return;
      }
      if token.None? {
        secret := secret - {PMM_TOKEN_KEY};
      } else {
        secret := secret[PMM_TOKEN_KEY := token.value];
      }
      secrets := secrets[name := secret];
    }

    /** What spec.pmm becomes; `ok` is false on an API error, before anything was written. */
    method ApplyPmm(input: Input) returns (pmm: Option<Pmm>, ok: bool)
      modifies this`secrets
      ensures var d := DecidePmm(input, cr);
              && (ok <==> !d.Fail?)
              && (ok ==> pmm == PmmAfter(d, cr))
              && secrets == TokenAfter(old(secrets), UsersSecret(input.instance.name), d)
    {
      var name := UsersSecret(input.instance.name);
      var live := if cr.Some? then cr.value.spec.pmm else None;
      if !input.pmm.Else(LivePmmOn(cr)) {
        SyncPmmServerToken(name, None);
        return None, true;
      }
      if input.pmm != Required {
        return live, true;
      }
      if input.bindings.None? {
        return None, false;
      }
      var bindings, engine := input.bindings.value, EngineResources(input.instance);
      for i := 0 to |bindings|
        invariant DecideByBinding(bindings, engine) == DecideByBinding(bindings[i..], engine)
        invariant secrets == old(secrets)
      {
        assert bindings[i..][1..] == bindings[i + 1..];
        var b := bindings[i];
        if !b.applies || b.integration != "pmm" {
          continue;
        }
        var rendering := Render(b, engine);
        if rendering.ApiFault? {
          return None, false;
        }
        if rendering.Rejected? {
          return live, true;
        }
        SyncPmmServerToken(name, Some(rendering.token));
        return Some(rendering.pmm), true;
      }
      return live, true;
    }

    /** Copies the source's users Secret to the target unless the target exists; false when the source's
        Secret is missing. */
    method EnsureDataSourceCredentials(target: string, source: string) returns (ok: bool)
      modifies this`secrets
      ensures var after := EnsureCredentials(old(secrets), target, source);
              && (ok <==> after.Some?)
              && secrets == if after.Some? then after.value else old(secrets)
    {
      if target in secrets {
        return true;
      }
      if source == "" {
        return true;
      }
      if UsersSecret(source) !in secrets {
        return false;
      }
      secrets := secrets[target := secrets[UsersSecret(source)]];
      return true;
    }

    /** Everything up to Apply: what to apply, or why not. */
    method Prepare(input: Input) returns (spec: Option<ClusterSpec>, fault: Option<SyncFault>)
      modifies this`secrets
      ensures match PlanSync(old(View()), input)
              case Skip => spec.None? && fault.None? && secrets == old(secrets)
              case Abort(s, f) => spec.None? && fault == Some(f) && secrets == s
              case Go(pxc, s) => spec == Some(pxc) && fault.None? && secrets == s
    {
      ghost var st := View();
      var active := HasActiveRestoreForInstance(input.instance.name);
      if active {
        return None, None;
      }
      var built := BuildClusterSpec(input);
      if built.Bad? {
        return None, Some(built.fault);
      }
      var pxc := built.spec;
      if !input.sourcesReadable {
        return None, Some(MonitoringApiFault);
      }
      var pmm, ok := ApplyPmm(input);
      if !ok {
        return None, Some(MonitoringApiFault);
      }
      pxc := pxc.(pmm := pmm);
      if input.metrics.Else(LiveHasExporter(cr)) {
        var image := B.DefaultImage(input.backupEnv.catalog, EXPORTER_NAME);
        if image == "" {
          return None, Some(ExporterImageMissing);
        }
        pxc := pxc.(sidecars := pxc.sidecars + [Container(EXPORTER_NAME, image)]);
        assert pxc.sidecars == [Container(EXPORTER_NAME, image)];
      }
      if input.instance.dataSource.Some? {
        var source := DataSourceInstance(input.instance.dataSource.value, input.backups);
        var copied := EnsureDataSourceCredentials(UsersSecret(input.instance.name), source);
        if !copied {
          return None, Some(SourceCredentialsMissing);
        }
      }
      return Some(pxc), None;
    }

    method SyncPxc(input: Input) returns (r: SyncResult)
      modifies this
      ensures (View(), r) == SyncPXC(old(View()), input)
    {
      var spec, fault := Prepare(input);
      if fault.Some? {
        return SyncResult(fault, if fault.value.SourceCredentialsMissing? then Some(true) else None);
      }
      if spec.None? {
        return SyncResult(None, None);
      }
      cr := Some(ApplySpec(cr, spec.value));
      if input.instance.dataSource.None? {
        return SyncResult(None, None);
      }
      if cr.value.state != AppReady {
        return SyncResult(None, Some(false));
      }
      var seeding := ReconcileDataSource(restores, input.instance.name);
      restores := seeding.0;
      return SyncResult(None, Some(seeding.1));
    }

    method StatusPxc(instance: string, seedingDone: Option<bool>) returns (phase: Phase)
      ensures phase == StatusPXC(View(), instance, seedingDone)
    {
      if cr.None? {
        return Provisioning;
      }
      if seedingDone.Some? && !seedingDone.value {
        return Restoring;
      }
      var active := HasActiveRestoreForInstance(instance);
      if active {
        return Restoring;
      }
      match cr.value.state {
        case Paused => return Provisioning;
        case AppReady =>
          if ConnectionReadable(secrets, instance) { return Ready; }
          return PhaseFailed;
        case AppError => return PhaseFailed;
        case Initializing => return Provisioning;
      }
    }

    /** One reconcile: Sync, and Status with the seeding answer unless Sync failed. */
    method Reconcile(input: Input) returns (phase: Option<Phase>)
      modifies this
      ensures (View(), phase) == ClusterSync.Reconcile(old(View()), input)
    {
      var r := SyncPxc(input);
      if r.fault.Some? {
        return None;
      }
      var status := StatusPxc(input.instance.name, r.seedingDone);
      phase := Some(status);
    }
  }
}
