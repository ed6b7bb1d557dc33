/** Every interleaving of reconciles with what the operator, users and other Instances do, and what
    holds over all of them. */
module ClusterRuns {

  import opened Prelude
  import opened PmmResources
  import opened ClusterSync
  import L = Lifecycle

  datatype Event =
    | ReconcileCall(input: Input)
    | EngineReports(state: AppState)                  // the operator updates the cluster's status
    | InitSecret(data: Secret)                        // the operator fills in a missing users Secret
    | PutRestore(name: string, restore: Restore)      // users and the runtime, on Restores
    | ForgetRestore(name: string)
    | OtherToken(secret: string, token: Option<string>) // another Instance's reconcile, on its own Secret

  /** The Instance under study; its name is fixed. */
  ghost predicate Enabled(st: State, ev: Event, instance: string) {
    match ev
    case ReconcileCall(input) => input.instance.name == instance
    case EngineReports(_) => st.cr.Some?
    case InitSecret(_) => st.cr.Some? && UsersSecret(instance) !in st.secrets
    case OtherToken(secret, _) => secret != UsersSecret(instance)
    case _ => true
  }

  ghost function Apply(st: State, ev: Event, instance: string): State
    requires Enabled(st, ev, instance)
  {
    match ev
    case ReconcileCall(input) => SyncPXC(st, input).0
    case EngineReports(state) => st.(cr := Some(st.cr.value.(state := state)))
    case InitSecret(data) => st.(secrets := st.secrets[UsersSecret(instance) := data])
    case PutRestore(name, r) => st.(restores := st.restores[name := r])
    case ForgetRestore(name) => st.(restores := st.restores - {name})
    case OtherToken(secret, token) => st.(secrets := SyncToken(st.secrets, secret, token))
  }

  ghost predicate Steps(st: State, ev: Event, st': State, instance: string) {
    Enabled(st, ev, instance) && st' == Apply(st, ev, instance)
  }

  ghost predicate IsRun(states: seq<State>, evs: seq<Event>, instance: string) {
    && |states| == |evs| + 1
    && forall i {:trigger evs[i]} :: 0 <= i < |evs| ==> Steps(states[i], evs[i], states[i + 1], instance)
  }

  // --------------------------------------------------------------------- the restore gate

  /** A Restore of the Instance is neither deleting nor finished. */
  ghost predicate InRestore(restores: map<string, Restore>, instance: string) {
    exists n :: && n in restores && restores[n].instance == instance && !restores[n].deleting
                && restores[n].state in {L.RestorePending, L.RestoreRunning}
  }

  lemma {:induction false} ActiveExactly(restores: map<string, Restore>, instance: string)
    ensures HasActiveRestore(restores, instance) <==> InRestore(restores, instance)
  {
    if HasActiveRestore(restores, instance) {
      var n :| n in restores && ActiveRestore(restores[n], instance);
      assert restores[n].state in {L.RestorePending, L.RestoreRunning};
    }
    if n :| && n in restores && restores[n].instance == instance && !restores[n].deleting
            && restores[n].state in {L.RestorePending, L.RestoreRunning}
    {
      assert ActiveRestore(restores[n], instance);
    }
  }

  /** A reconcile that starts with an active Restore of the Instance writes nothing and never reports Ready. */
  lemma {:induction false} GateHolds(st: State, input: Input)
    requires InRestore(st.restores, input.instance.name)
    ensures Reconcile(st, input).0 == st
    ensures Reconcile(st, input).1 == Some(if st.cr.None? then Provisioning else Restoring)
  {
    ActiveExactly(st.restores, input.instance.name);
  }

  ghost function SpecOf(st: State): Option<ClusterSpec> {
    if st.cr.None? then None else Some(st.cr.value.spec)
  }

  /** Over every run: as long as some Restore of the Instance is active, whichever it is, the applied
      spec stays as it was, however often the Instance is reconciled. */
  lemma {:induction false} SpecFrozenWhileRestoring(
    states: seq<State>, evs: seq<Event>, instance: string, i: nat, j: nat)
    requires IsRun(states, evs, instance) && i <= j < |states|
    requires forall k :: i <= k < j ==> InRestore(states[k].restores, instance)
    ensures SpecOf(states[j]) == SpecOf(states[i])
    decreases j
  {
    if i < j {
      SpecFrozenWhileRestoring(states, evs, instance, i, j - 1);
      assert Steps(states[j - 1], evs[j - 1], states[j], instance);
      if evs[j - 1].ReconcileCall? { GateHolds(states[j - 1], evs[j - 1].input); }
    }
  }

  /** A reconcile whose Sync succeeded reports Ready exactly when, afterwards, the engine is ready, its
      credentials can be read, no Restore of the Instance is active and, with a data source, the seeding
      Restore has finished. */
  lemma {:induction false} ReadyExactly(st: State, input: Input)
    requires SyncPXC(st, input).1.fault.None?
    ensures var st', seed := Reconcile(st, input).0, SeedName(input.instance.name);
            Reconcile(st, input).1 == Some(Ready) <==>
              && st'.cr.Some? && st'.cr.value.state == AppReady
              && ConnectionReadable(st'.secrets, input.instance.name)
              && !InRestore(st'.restores, input.instance.name)
              && (input.instance.dataSource.Some? ==>
                    seed in st'.restores && st'.restores[seed].state in {L.RestoreSucceeded, L.RestoreFailed})
  {
    ActiveExactly(st.restores, input.instance.name);
    ActiveExactly(Reconcile(st, input).0.restores, input.instance.name);
  }

  /** Status asked after a Sync that failed has no seeding status to go by: it says Ready exactly when
      the engine is ready, its credentials are readable and no Restore is active, seeded or not. */
  lemma {:induction false} StatusAfterFailedSyncExactly(st: State, input: Input)
    requires SyncPXC(st, input).1.fault.Some? && input.instance.dataSource.Some?
    ensures var r := SyncPXC(st, input);
            StatusPXC(r.0, input.instance.name, r.1.seedingDone) == Ready <==>
              && st.cr.Some? && st.cr.value.state == AppReady
              && !InRestore(st.restores, input.instance.name)
              && ConnectionReadable(r.0.secrets, input.instance.name)
  {
    ActiveExactly(st.restores, input.instance.name);
  }

  /** A Sync changes the Restores exactly when it applies a spec, the Instance is seeded, the cluster was
      Ready and the seeding Restore is missing, also when it existed before and was deleted since; the
      seeding Restore is then the only addition. */
  lemma {:induction false} SeedingExactly(st: State, input: Input)
    ensures var seed := SeedName(input.instance.name);
            && (SyncPXC(st, input).0.restores != st.restores <==>
                  && PlanSync(st, input).Go? && input.instance.dataSource.Some? && seed !in st.restores
                  && st.cr.Some? && st.cr.value.state == AppReady)
            && (SyncPXC(st, input).0.restores != st.restores ==>
                  SyncPXC(st, input).0.restores ==
                    st.restores[seed := Restore(input.instance.name, false, L.RestorePending)])
  {
  }

  /** The seeding Restore is among the stored ones. */
  ghost predicate SeedPresent(st: State, instance: string) {
    SeedName(instance) in st.restores
  }

  /** How often Syncs of a run create the seeding Restore. */
  ghost function SeedCreations(states: seq<State>, evs: seq<Event>, instance: string): nat
    requires |states| == |evs| + 1
  {
    if evs == [] then 0
    else
      var k := |evs| - 1;
      SeedCreations(states[..k + 1], evs[..k], instance) +
      if evs[k].ReconcileCall? && !SeedPresent(states[k], instance) && SeedPresent(states[k + 1], instance)
      then 1 else 0
  }

  /** How often the seeding Restore is deleted in a run. */
  ghost function SeedDeletions(states: seq<State>, evs: seq<Event>, instance: string): nat
    requires |states| == |evs| + 1
  {
    if evs == [] then 0
    else
      var k := |evs| - 1;
      SeedDeletions(states[..k + 1], evs[..k], instance) +
      if evs[k] == ForgetRestore(SeedName(instance)) && SeedPresent(states[k], instance) then 1 else 0
  }

  /** Over every run, Syncs create the seeding Restore at most once more than it is deleted: without a
      deletion, once. */
  lemma {:induction false} SeedsAgainOnlyAfterDeletion(states: seq<State>, evs: seq<Event>, instance: string)
    requires IsRun(states, evs, instance)
    ensures SeedCreations(states, evs, instance) + (if SeedPresent(states[0], instance) then 1 else 0)
            <= SeedDeletions(states, evs, instance) + (if SeedPresent(states[|evs|], instance) then 1 else 0)
  {
    if evs != [] {
      var k := |evs| - 1;
      RunPrefix(states, evs, instance);
      SeedsAgainOnlyAfterDeletion(states[..k + 1], evs[..k], instance);
      if evs[k].ReconcileCall? { SeedingExactly(states[k], evs[k].input); }
    }
  }

  // ------------------------------------------------------------------- users-Secret frame

  /** Same keys and values apart from the PMM server token. */
  ghost predicate SameButToken(a: Secret, b: Secret) {
    a - {"pmmservertoken"} == b - {"pmmservertoken"}
  }

  ghost predicate SecretsFramed(a: map<string, Secret>, b: map<string, Secret>) {
    forall n :: n in a ==> n in b && SameButToken(a[n], b[n])
  }

  lemma {:induction false} TokenFramed(secrets: map<string, Secret>, name: string, token: Option<string>)
    ensures SecretsFramed(secrets, SyncToken(secrets, name, token))
    ensures SyncToken(secrets, name, token).Keys == secrets.Keys
    ensures forall n :: n in secrets && n != name ==> SyncToken(secrets, name, token)[n] == secrets[n]
  {
  }

  lemma {:induction false} CopyFramed(secrets: map<string, Secret>, target: string, source: string)
    ensures var after := EnsureCredentials(secrets, target, source); after.Some? ==> SecretsFramed(secrets, after.value)
  {
  }

  lemma {:induction false} DecisionFramed(secrets: map<string, Secret>, name: string, d: PmmDecision)
    ensures SecretsFramed(secrets, TokenAfter(secrets, name, d))
  {
  }

  lemma {:induction false} PlanFramed(st: State, input: Input)
    ensures PlanSync(st, input).Abort? || PlanSync(st, input).Go? ==>
              SecretsFramed(st.secrets, PlanSync(st, input).secrets)
  {
    var name := UsersSecret(input.instance.name);
    var d := DecidePmm(input, st.cr);
    DecisionFramed(st.secrets, name, d);
    if input.instance.dataSource.Some? {
      CopyFramed(TokenAfter(st.secrets, name, d), name,
                 DataSourceInstance(input.instance.dataSource.value, input.backups));
    }
  }

  /** Once a users Secret exists, nothing in any run changes or removes a key other than the token. */
  lemma {:induction false} UsersSecretFrame(states: seq<State>, evs: seq<Event>, instance: string, i: nat, j: nat)
    requires IsRun(states, evs, instance) && i <= j < |states|
    ensures SecretsFramed(states[i].secrets, states[j].secrets)
    decreases j
  {
    if i < j {
      UsersSecretFrame(states, evs, instance, i, j - 1);
      FrameStep(states[j - 1], evs[j - 1], states[j], instance);
    }
  }

  lemma {:induction false} FrameStep(st: State, ev: Event, st': State, instance: string)
    requires Steps(st, ev, st', instance)
    ensures SecretsFramed(st.secrets, st'.secrets)
  {
    match ev
    case ReconcileCall(input) => PlanFramed(st, input);
    case OtherToken(secret, token) => TokenFramed(st.secrets, secret, token);
    case _ =>
  }

  // -------------------------------------------------------------------------- seeding order

  /** The data source names this Instance: directly, or through a Backup that exists. */
  predicate NamesSource(ds: L.DataSource, backups: map<string, string>, source: string) {
    || (ds.FromPointInTime? && ds.pitr.Some? && ds.pitr.value.instance == Some(source))
    || (ds.FromBackup? && ds.backupRef.Some? && ds.backupRef.value != ""
        && ds.backupRef.value in backups && backups[ds.backupRef.value] == source)
  }

  ghost predicate Resolvable(ds: L.DataSource, backups: map<string, string>) {
    exists source :: source != "" && NamesSource(ds, backups, source)
  }

  lemma {:induction false} ResolvesExactly(ds: L.DataSource, backups: map<string, string>)
    ensures forall source :: source != "" ==>
                               (NamesSource(ds, backups, source) <==> DataSourceInstance(ds, backups) == source)
    ensures Resolvable(ds, backups) <==> DataSourceInstance(ds, backups) != ""
  {
    var source := DataSourceInstance(ds, backups);
    assert source != "" ==> NamesSource(ds, backups, source);
  }

  /** Every reconcile seeds the Instance from `source`. */
  ghost predicate SeedsFrom(evs: seq<Event>, source: string) {
    forall i :: 0 <= i < |evs| && evs[i].ReconcileCall? ==>
                  && evs[i].input.instance.dataSource.Some?
                  && NamesSource(evs[i].input.instance.dataSource.value, evs[i].input.backups, source)
  }

  /** The source's users Secret exists; the target's, if it exists, has the source's credentials; and it
      does exist once the cluster does. */
  ghost predicate Seeded(st: State, instance: string, source: string) {
    var target, origin := UsersSecret(instance), UsersSecret(source);
    && origin in st.secrets
    && (target in st.secrets ==> SameButToken(st.secrets[target], st.secrets[origin]))
    && (st.cr.Some? ==> target in st.secrets)
  }

  /** The credentials part of Seeded. */
  ghost predicate Copied(secrets: map<string, Secret>, target: string, origin: string) {
    origin in secrets && (target in secrets ==> SameButToken(secrets[target], secrets[origin]))
  }

  lemma {:induction false} TokenKeepsCopy(secrets: map<string, Secret>, target: string, origin: string, d: PmmDecision)
    requires Copied(secrets, target, origin) && target != origin
    ensures Copied(TokenAfter(secrets, target, d), target, origin)
  {
  }

  lemma {:induction false} SeededReconcile(st: State, input: Input, source: string)
    requires Seeded(st, input.instance.name, source) && source != ""
    requires UsersSecret(source) != UsersSecret(input.instance.name)
    requires input.instance.dataSource.Some?
    requires NamesSource(input.instance.dataSource.value, input.backups, source)
    ensures Seeded(SyncPXC(st, input).0, input.instance.name, source)
  {
    var target, origin := UsersSecret(input.instance.name), UsersSecret(source);
    ResolvesExactly(input.instance.dataSource.value, input.backups);
    var d := DecidePmm(input, st.cr);
    var secrets := TokenAfter(st.secrets, target, d);
    TokenKeepsCopy(st.secrets, target, origin, d);
    assert target in st.secrets ==> target in secrets;
    var plan := PlanSync(st, input);
    if plan.Abort? {
      assert plan.secrets == st.secrets || plan.secrets == secrets;
    } else if plan.Go? {
      assert EnsureCredentials(secrets, target, source) == Some(plan.secrets);
    }
  }

  lemma {:induction false} SeededStep(st: State, ev: Event, st': State, instance: string, source: string)
    requires Steps(st, ev, st', instance) && Seeded(st, instance, source)
    requires source != "" && UsersSecret(source) != UsersSecret(instance) && SeedsFrom([ev], source)
    ensures Seeded(st', instance, source)
  {
    match ev
    case ReconcileCall(input) =>
      assert [ev][0].ReconcileCall?;
      SeededReconcile(st, input, source);
    case OtherToken(secret, token) => TokenFramed(st.secrets, secret, token);
    case _ =>
  }

  /** In every run seeded from a resolvable source whose users Secret exists, the cluster never exists
      without the source's credentials: the operator never gets to make up passwords. */
  lemma {:induction false} CredentialsBeforeCluster(
    states: seq<State>, evs: seq<Event>, instance: string, source: string, i: nat)
    requires IsRun(states, evs, instance) && i < |states| && SeedsFrom(evs, source)
    requires source != "" && UsersSecret(source) != UsersSecret(instance) && Seeded(states[0], instance, source)
    ensures Seeded(states[i], instance, source)
    ensures forall data :: !Enabled(states[i], InitSecret(data), instance)
  {
    if i > 0 {
      CredentialsBeforeCluster(states, evs, instance, source, i - 1);
      assert SeedsFrom([evs[i - 1]], source);
      SeededStep(states[i - 1], evs[i - 1], states[i], instance, source);
    }
  }

  /** A source that cannot be resolved does not stop Sync: the first Sync leaves the operator to make up
      passwords exactly when the source did not resolve. */
  lemma {:induction false} UnresolvedSourceExactly(st: State, input: Input)
    requires st.cr.None? && input.instance.dataSource.Some? && UsersSecret(input.instance.name) !in st.secrets
    requires SyncPXC(st, input).0.cr.Some?
    ensures (exists data :: Enabled(SyncPXC(st, input).0, InitSecret(data), input.instance.name))
            <==> !Resolvable(input.instance.dataSource.value, input.backups)
  {
    ResolvesExactly(input.instance.dataSource.value, input.backups);
    var d := DecidePmm(input, st.cr);
    TokenFramed(st.secrets, UsersSecret(input.instance.name), None);
    if DataSourceInstance(input.instance.dataSource.value, input.backups) == "" {
      assert Enabled(SyncPXC(st, input).0, InitSecret(map[]), input.instance.name);
    }
  }

  // ------------------------------------------------------------------------ the PMM hold rule

  datatype Agent = Off | On(pmm: Pmm, token: string)

  /** spec.pmm and the mirrored token together. */
  ghost predicate Shows(st: State, instance: string, a: Agent) {
    var name := UsersSecret(instance);
    && name in st.secrets
    && match a
       case Off => (st.cr.None? || st.cr.value.spec.pmm.None?) && PMM_TOKEN_KEY !in st.secrets[name]
       case On(pmm, token) =>
         && st.cr.Some? && st.cr.value.spec.pmm == Some(pmm)
         && PMM_TOKEN_KEY in st.secrets[name] && st.secrets[name][PMM_TOKEN_KEY] == token
  }

  /** A rendered agent: enabled, with a token, and never requesting more than its limits. */
  ghost predicate WellRendered(a: Agent) {
    a.On? ==> a.pmm.enabled && a.token != "" &&
              forall k :: k in a.pmm.resources.requests && k in a.pmm.resources.limits ==>
                            a.pmm.resources.requests[k] <= a.pmm.resources.limits[k]
  }

  /** What a reconcile that applies a spec settles: off, a fresh render, or nothing. */
  ghost function Settles(st: State, ev: Event): Option<Agent> {
    if !ev.ReconcileCall? || !PlanSync(st, ev.input).Go? then None
    else match ev.input.pmm
         case NotRequired => Some(Off)
         case Unresolved => None
         case Required =>
           if ev.input.bindings.None? then None
           else AgentOf(ev.input.bindings.value, EngineResources(ev.input.instance))
  }

  /** The agent of the first applicable binding, if that renders. */
  ghost function AgentOf(bindings: seq<Binding>, engine: Option<Requirements>): Option<Agent> {
    if exists k: nat :: FirstApplicable(bindings, k) && Renders(bindings[k]) then
      var k: nat :| FirstApplicable(bindings, k) && Renders(bindings[k]);
      Some(On(PmmFor(bindings[k], engine), bindings[k].credentials.token))
    else None
  }

  ghost function LastSettled(states: seq<State>, evs: seq<Event>): Agent
    requires |states| == |evs| + 1
  {
    if evs == [] then Off
    else
      var k := |evs| - 1;
      var a := Settles(states[k], evs[k]);
      if a.Some? then a.value else LastSettled(states[..k + 1], evs[..k])
  }

  lemma {:induction false} BindingRendersWell(bindings: seq<Binding>, engine: Option<Requirements>)
    ensures var d := DecideByBinding(bindings, engine);
            !d.TurnOff? && (d.Use? ==> WellRendered(On(d.pmm, d.token)))
  {
    if bindings != [] {
      if !bindings[0].applies || bindings[0].integration != "pmm" {
        BindingRendersWell(bindings[1..], engine);
      } else if Render(bindings[0], engine).Rendered? {
        MergeIsBounded(SizedRequests(engine), bindings[0].entry.value);
      }
    }
  }

  /** The decision would change the token in a users Secret that exists. */
  predicate Rewrites(secrets: map<string, Secret>, name: string, d: PmmDecision) {
    name in secrets &&
    match d
    case TurnOff => PMM_TOKEN_KEY in secrets[name]
    case Use(_, token) => !(PMM_TOKEN_KEY in secrets[name] && secrets[name][PMM_TOKEN_KEY] == token)
    case _ => false
  }

  /** A Sync that fails after it has mirrored or removed the token: the exporter is wanted but has no image. */
  ghost predicate TearsPair(st: State, ev: Event) {
    && ev.ReconcileCall? && SyncPXC(st, ev.input).1.fault == Some(ExporterImageMissing)
    && Rewrites(st.secrets, UsersSecret(ev.input.instance.name), DecidePmm(ev.input, st.cr))
  }

  lemma {:induction false} RewritesExactly(secrets: map<string, Secret>, name: string, d: PmmDecision)
    ensures TokenAfter(secrets, name, d) != secrets <==> Rewrites(secrets, name, d)
  {
    if name in secrets {
      assert PMM_TOKEN_KEY !in secrets[name] - {PMM_TOKEN_KEY};
      assert PMM_TOKEN_KEY !in secrets[name] ==> secrets[name] - {PMM_TOKEN_KEY} == secrets[name];
      if d.Use? && !Rewrites(secrets, name, d) { assert secrets[name][PMM_TOKEN_KEY := d.token] == secrets[name]; }
    }
  }

  /** A Sync that fails leaves everything as it was, except exactly when it fails over the exporter image
      after it has changed the token; then only the Secrets change. */
  lemma {:induction false} FailedSyncExactly(st: State, input: Input)
    requires SyncPXC(st, input).1.fault.Some?
    ensures SyncPXC(st, input).0 != st <==> TearsPair(st, ReconcileCall(input))
    ensures SyncPXC(st, input).0 == st.(secrets := SyncPXC(st, input).0.secrets)
  {
    RewritesExactly(st.secrets, UsersSecret(input.instance.name), DecidePmm(input, st.cr));
  }

  /** A failed Sync keeps the shown pair exactly when it changes nothing. */
  lemma {:induction false} FailedSyncKeepsPairExactly(st: State, input: Input, a: Agent)
    requires SyncPXC(st, input).1.fault.Some? && Shows(st, input.instance.name, a)
    ensures Shows(SyncPXC(st, input).0, input.instance.name, a) <==> SyncPXC(st, input).0 == st
  {
    FailedSyncExactly(st, input);
  }

  /** What a reconcile that applies a spec does to the pair. */
  lemma {:induction false} GoEffect(st: State, input: Input)
    requires PlanSync(st, input).Go?
    ensures var st', d := SyncPXC(st, input).0, DecidePmm(input, st.cr);
            && !d.Fail? && st'.cr.Some? && st'.cr.value.spec.pmm == PmmAfter(d, st.cr)
            && CredentialsAfter(TokenAfter(st.secrets, UsersSecret(input.instance.name), d), input) == Some(st'.secrets)
  {
  }

  lemma {:induction false} GoHolds(st: State, input: Input, a: Agent)
    requires Shows(st, input.instance.name, a) && WellRendered(a) && PlanSync(st, input).Go?
    ensures var settled := Settles(st, ReconcileCall(input));
            var a' := if settled.Some? then settled.value else a;
            Shows(SyncPXC(st, input).0, input.instance.name, a') && WellRendered(a')
  {
    GoEffect(st, input);
    var name, d := UsersSecret(input.instance.name), DecidePmm(input, st.cr);
    assert name in TokenAfter(st.secrets, name, d);
    assert SyncPXC(st, input).0.secrets == TokenAfter(st.secrets, name, d);
    if input.bindings.Some? {
      BindingRendersWell(input.bindings.value, EngineResources(input.instance));
      BindingDecides(input.bindings.value, EngineResources(input.instance));
    }
    assert LivePmmOn(st.cr) <==> a.On?;
  }

  lemma {:induction false} HoldReconcile(st: State, input: Input, a: Agent)
    requires Shows(st, input.instance.name, a) && WellRendered(a) && !TearsPair(st, ReconcileCall(input))
    ensures var settled := Settles(st, ReconcileCall(input));
            var a' := if settled.Some? then settled.value else a;
            Shows(SyncPXC(st, input).0, input.instance.name, a') && WellRendered(a')
  {
    if PlanSync(st, input).Go? {
      GoHolds(st, input, a);
    } else if PlanSync(st, input).Abort? {
      FailedSyncExactly(st, input);
    }
  }

  lemma {:induction false} HoldStep(st: State, ev: Event, st': State, instance: string, a: Agent)
    requires Steps(st, ev, st', instance) && Shows(st, instance, a) && WellRendered(a)
    ensures var a' := if Settles(st, ev).Some? then Settles(st, ev).value else a;
            WellRendered(a') && (Shows(st', instance, a') <==> !TearsPair(st, ev))
  {
    if TearsPair(st, ev) {
      FailedSyncExactly(st, ev.input);
      FailedSyncKeepsPairExactly(st, ev.input, a);
    } else {
      match ev
      case ReconcileCall(input) => HoldReconcile(st, input, a);
      case OtherToken(secret, token) => TokenFramed(st.secrets, secret, token);
      case _ =>
    }
  }

  /** No Sync of the run fails over the exporter image after it has changed the token. */
  ghost predicate NeverTorn(states: seq<State>, evs: seq<Event>)
    requires |states| == |evs| + 1
  {
    forall i {:trigger evs[i]} :: 0 <= i < |evs| ==> !TearsPair(states[i], evs[i])
  }

  /** What the state after `i` events should show: what the last settling reconcile decided. */
  ghost predicate ShowsSettled(states: seq<State>, evs: seq<Event>, instance: string, i: nat)
    requires |states| == |evs| + 1 && i < |states|
  {
    Shows(states[i], instance, LastSettled(states[..i + 1], evs[..i]))
  }

  lemma {:induction false} HeldUpTo(states: seq<State>, evs: seq<Event>, instance: string, i: nat)
    requires IsRun(states, evs, instance) && i < |states| && Shows(states[0], instance, Off)
    requires forall k {:trigger evs[k]} :: 0 <= k < i ==> !TearsPair(states[k], evs[k])
    ensures ShowsSettled(states, evs, instance, i) && WellRendered(LastSettled(states[..i + 1], evs[..i]))
  {
    if i > 0 {
      HeldUpTo(states, evs, instance, i - 1);
      LastSettledStep(states, evs, i - 1);
      HoldStep(states[i - 1], evs[i - 1], states[i], instance, LastSettled(states[..i], evs[..i - 1]));
    }
  }

  lemma {:induction false} LastSettledStep(states: seq<State>, evs: seq<Event>, i: nat)
    requires |states| == |evs| + 1 && i < |evs|
    ensures LastSettled(states[..i + 2], evs[..i + 1])
            == var a := Settles(states[i], evs[i]); if a.Some? then a.value else LastSettled(states[..i + 1], evs[..i])
  {
    assert states[..i + 2][..i + 1] == states[..i + 1] && evs[..i + 1][..i] == evs[..i];
  }

  /** The hold rule, exactly: over every run from PMM off, seeded or not and whatever fails, spec.pmm and
      the mirrored token are in every state both absent or both from the same successful render, namely
      what the last settling reconcile decided, if and only if no Sync fails over the exporter image after
      it has changed the token. */
  lemma {:induction false} PmmHoldRule(states: seq<State>, evs: seq<Event>, instance: string)
    requires IsRun(states, evs, instance) && Shows(states[0], instance, Off)
    ensures (forall i :: 0 <= i < |states| ==> ShowsSettled(states, evs, instance, i)) <==> NeverTorn(states, evs)
    ensures NeverTorn(states, evs) ==> WellRendered(LastSettled(states, evs))
  {
    if NeverTorn(states, evs) {
      forall i | 0 <= i < |states|
        ensures ShowsSettled(states, evs, instance, i)
      {
        HeldUpTo(states, evs, instance, i);
      }
      HeldUpTo(states, evs, instance, |evs|);
      assert states[..|evs| + 1] == states && evs[..|evs|] == evs;
    } else {
      var k := FirstTorn(states, evs);
      HeldUpTo(states, evs, instance, k);
      LastSettledStep(states, evs, k);
      HoldStep(states[k], evs[k], states[k + 1], instance, LastSettled(states[..k + 1], evs[..k]));
      assert !ShowsSettled(states, evs, instance, k + 1);
    }
  }

  lemma {:induction false} FirstTorn(states: seq<State>, evs: seq<Event>) returns (k: nat)
    requires |states| == |evs| + 1 && !NeverTorn(states, evs)
    ensures k < |evs| && TearsPair(states[k], evs[k])
    ensures forall i {:trigger evs[i]} :: 0 <= i < k ==> !TearsPair(states[i], evs[i])
  {
    k := 0;
    while !TearsPair(states[k], evs[k])
      invariant k < |evs| && forall i {:trigger evs[i]} :: 0 <= i < k ==> !TearsPair(states[i], evs[i])
      decreases |evs| - k
    {
      k := k + 1;
    }
  }

  lemma {:induction false} RunPrefix(states: seq<State>, evs: seq<Event>, instance: string)
    requires IsRun(states, evs, instance) && evs != []
    ensures IsRun(states[..|evs|], evs[..|evs| - 1], instance)
    ensures Steps(states[|evs| - 1], evs[|evs| - 1], states[|evs|], instance)
  {
  }

  /** The pair a decision asks for when no cluster exists yet. */
  function Wanted(d: PmmDecision): Agent {
    if d.Use? then On(d.pmm, d.token) else Off
  }

  /** Seeding copies the source's Secret whole: the first Sync of a seeded Instance, whatever its PMM
      requirement, leaves spec.pmm and the token as decided exactly when the source had the decided token
      mirrored, or none when there is none to mirror. */
  lemma {:induction false} SeededPairExactly(st: State, input: Input, source: string)
    requires st.cr.None? && input.instance.dataSource.Some? && UsersSecret(input.instance.name) !in st.secrets
    requires SyncPXC(st, input).1.fault.None? && !InRestore(st.restores, input.instance.name)
    requires source != "" && NamesSource(input.instance.dataSource.value, input.backups, source)
    ensures var origin := UsersSecret(source);
            var d := DecidePmm(input, st.cr);
            && origin in st.secrets
            && (Shows(SyncPXC(st, input).0, input.instance.name, Wanted(d)) <==>
                  if d.Use? then PMM_TOKEN_KEY in st.secrets[origin] && st.secrets[origin][PMM_TOKEN_KEY] == d.token
                  else PMM_TOKEN_KEY !in st.secrets[origin])
  {
    ResolvesExactly(input.instance.dataSource.value, input.backups);
    ActiveExactly(st.restores, input.instance.name);
  }

  /** The first Sync of a seeded Instance that applies a cluster leaves the source's Secret, whole, as the
      Instance's own. */
  lemma {:induction false} FirstSyncCopiesCredentials(st: State, input: Input, source: string)
    requires st.cr.None? && input.instance.dataSource.Some? && UsersSecret(input.instance.name) !in st.secrets
    requires source != "" && NamesSource(input.instance.dataSource.value, input.backups, source)
    ensures SyncPXC(st, input).0.cr.Some? ==>
              && UsersSecret(source) in st.secrets
              && SyncPXC(st, input).0.secrets ==
                 st.secrets["everest-secrets-" + input.instance.name := st.secrets["everest-secrets-" + source]]
  {
    ResolvesExactly(input.instance.dataSource.value, input.backups);
    var d := DecidePmm(input, st.cr);
    assert TokenAfter(st.secrets, UsersSecret(input.instance.name), d) == st.secrets;
  }

  // --------------------------------------------------------------------- the exporter sidecar

  /** The requirement a reconcile applied, if it was resolved. */
  ghost function Resolves(st: State, ev: Event): Option<bool> {
    if ev.ReconcileCall? && PlanSync(st, ev.input).Go? && !ev.input.metrics.Unresolved?
    then Some(ev.input.metrics.Required?) else None
  }

  /** Whether the exporter is present, state by state. */
  ghost function Presence(states: seq<State>): seq<bool> {
    if states == [] then [] else Presence(states[..|states| - 1]) + [LiveHasExporter(states[|states| - 1].cr)]
  }

  /** The initial presence, then the resolved requirements that were applied. */
  ghost function Applied(states: seq<State>, evs: seq<Event>): seq<bool>
    requires |states| == |evs| + 1
  {
    if evs == [] then [LiveHasExporter(states[0].cr)]
    else
      var k := |evs| - 1;
      var r := Resolves(states[k], evs[k]);
      Applied(states[..k + 1], evs[..k]) + if r.Some? then [r.value] else []
  }

  ghost function Flips(bs: seq<bool>): nat {
    if |bs| < 2 then 0 else Flips(bs[..|bs| - 1]) + (if bs[|bs| - 1] != bs[|bs| - 2] then 1 else 0)
  }

  lemma {:induction false} FlipsAppend(bs: seq<bool>, b: bool)
    requires bs != []
    ensures Flips(bs + [b]) == Flips(bs) + (if b != bs[|bs| - 1] then 1 else 0)
  {
  }

  lemma {:induction false} ExporterReconcile(st: State, input: Input)
    requires st.cr.Some? ==> |st.cr.value.spec.sidecars| <= 1
    ensures var st', r := SyncPXC(st, input).0, Resolves(st, ReconcileCall(input));
            && (st'.cr.Some? ==> |st'.cr.value.spec.sidecars| <= 1)
            && LiveHasExporter(st'.cr) == if r.Some? then r.value else LiveHasExporter(st.cr)
  {
    if PlanSync(st, input).Go? {
      var sidecars := Sidecars(input, st.cr).value;
      assert PlanSync(st, input).spec.sidecars == sidecars;
      assert HasExporter(sidecars) == input.metrics.Else(LiveHasExporter(st.cr)) by {
        if sidecars != [] { assert sidecars[0].name == EXPORTER_NAME; }
      }
    }
  }

  lemma {:induction false} ExporterStep(st: State, ev: Event, st': State, instance: string)
    requires Steps(st, ev, st', instance) && (st.cr.Some? ==> |st.cr.value.spec.sidecars| <= 1)
    ensures st'.cr.Some? ==> |st'.cr.value.spec.sidecars| <= 1
    ensures LiveHasExporter(st'.cr) == if Resolves(st, ev).Some? then Resolves(st, ev).value else LiveHasExporter(st.cr)
  {
    if ev.ReconcileCall? { ExporterReconcile(st, ev.input); }
  }

  /** Over every run: at most one sidecar; the exporter is present exactly if the last applied resolved
      requirement asked for it; and the pods roll exactly as often as those requirements change. */
  lemma {:induction false} ExporterFollowsResolved(states: seq<State>, evs: seq<Event>, instance: string)
    requires IsRun(states, evs, instance) && (states[0].cr.Some? ==> |states[0].cr.value.spec.sidecars| <= 1)
    ensures var last, applied := states[|evs|], Applied(states, evs);
            && (last.cr.Some? ==> |last.cr.value.spec.sidecars| <= 1)
            && applied != [] && LiveHasExporter(last.cr) == applied[|applied| - 1]
            && Flips(Presence(states)) == Flips(applied)
  {
    if evs == [] {
      assert states[..0] == [];
    } else {
      var k := |evs| - 1;
      RunPrefix(states, evs, instance);
      ExporterFollowsResolved(states[..k + 1], evs[..k], instance);
      ExporterStep(states[k], evs[k], states[k + 1], instance);
      PresenceLast(states[..k + 1]);
      assert states[..|states| - 1] == states[..k + 1];
      FlipsInStep(Presence(states[..k + 1]), Applied(states[..k + 1], evs[..k]), LiveHasExporter(states[k + 1].cr),
                  Resolves(states[k], evs[k]));
    }
  }

  lemma {:induction false} FlipsInStep(presence: seq<bool>, applied: seq<bool>, now: bool, r: Option<bool>)
    requires presence != [] && applied != [] && presence[|presence| - 1] == applied[|applied| - 1]
    requires Flips(presence) == Flips(applied)
    requires now == if r.Some? then r.value else applied[|applied| - 1]
    ensures var applied' := applied + if r.Some? then [r.value] else [];
            Flips(presence + [now]) == Flips(applied') && applied'[|applied'| - 1] == now
  {
    FlipsAppend(presence, now);
    if r.Some? {
      FlipsAppend(applied, r.value);
    } else {
      assert applied + [] == applied;
    }
  }

  lemma {:induction false} PresenceLast(states: seq<State>)
    requires states != []
    ensures Presence(states) != []
    ensures Presence(states)[|Presence(states)| - 1] == LiveHasExporter(states[|states| - 1].cr)
  {
  }
}
