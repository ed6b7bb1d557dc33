/** Every interleaving of provider calls, operator steps and user edits on the resources of Lifecycle,
    and what holds over all of them. */
module LifecycleRuns {

  import opened Prelude
  import opened OperatorBackups
  import opened BaseSelection
  import opened Lifecycle

  /** Steps that touch one operator backup: two provider calls, then the operator's own. `RetentionDelete`
      is any deletion the provider does not make: the operator's schedule retention, or a user's. */
  datatype BackupStep =
    | SyncBackupCall
    | CleanupBackupCall
    | ReportStatus(status: OpStatus)
    | Relabel(typeLabel: string, ancestor: string)
    | CronBackup(started: OpObject)
    | RetentionDelete
    | ClearFinalizer(finalizer: string)

  /** Steps that touch one operator restore. */
  datatype RestoreStep =
    | SyncRestoreCall(listing: seq<BackupCR>)
    | CleanupRestoreCall
    | ReportRestore(state: OpRestoreState, completedAt: Option<Time>)
    | ClearRestoreFinalizer(finalizer: string)

  /** Steps that touch only Backup and Restore resources and the cluster's configuration. */
  datatype ResourceStep =
    | MirrorCall(n: string)
    | CreateBackup(n: string, cr: BackupCR)
    | EditBackup(n: string, instance: string, storage: string, scheduleName: string)
    | ForgetBackup(n: string)
    | PutRestoreCR(n: string, restore: RestoreCR)
    | ForgetRestore(n: string)
    | SetClusters(clusters: map<string, set<string>>, instances: map<string, InstanceInfo>)

  datatype Event =
    | OnBackup(n: string, step: BackupStep)
    | OnRestore(n: string, rstep: RestoreStep)
    | OnResources(res: ResourceStep)

  /** The namespace, its digest function, and the backups whose policy is Retain: fixed for a run. */
  datatype Config = Config(sha1: string -> Digest, namespace: string, retained: set<string>)

  /** The API server lists exactly the Instance's Backup resources. */
  ghost predicate IsListing(w: World, listing: seq<BackupCR>, instance: string) {
    && (forall i :: 0 <= i < |listing| ==> listing[i].name in w.crs && w.crs[listing[i].name] == listing[i]
                                           && listing[i].instance == instance)
    && (forall n :: n in w.crs && w.crs[n].instance == instance ==> w.crs[n] in listing)
  }

  // -------------------------------------------------------------- steps on operator backups

  ghost predicate BackupEnabled(w: World, n: string, step: BackupStep) {
    var ops := w.store.ops;
    match step
    case SyncBackupCall => n in w.crs
    case CleanupBackupCall => true
    case ReportStatus(_) => n in ops
    case Relabel(_, _) => n in ops
    case CronBackup(o) =>
      // a scheduled backup starts without a Backup owner
      && n !in ops && o.uid == w.store.nextUid && !o.deleting && !o.synced && !o.dataDeleted
      && (o.controller.Some? ==> o.controller.value.kind == OtherKind)
    case RetentionDelete => n in ops && !ops[n].deleting
    case ClearFinalizer(f) => n in ops && ops[n].deleting && f in ops[n].finalizers
  }

  /** The runtime stores the status a call reports. */
  function RecordBackup(w: World, n: string, outcome: BackupOutcome): World
    requires n in w.crs
  {
    if outcome.BackupError? then w
    else w.(crs := w.crs[n := w.crs[n].(state := outcome.state, completedAt := outcome.completedAt)])
  }

  /** The operator deletes the data when it clears the delete-data finalizer. */
  function Cleared(o: OpObject, f: string): OpObject {
    o.(finalizers := o.finalizers - {f}, dataDeleted := o.dataDeleted || f == DELETE_DATA)
  }

  /** The object a step of the operator writes. */
  ghost function OperatorWrite(w: World, n: string, step: BackupStep): OpObject
    requires BackupEnabled(w, n, step) && !step.SyncBackupCall? && !step.CleanupBackupCall?
  {
    match step
    case ReportStatus(status) => w.store.ops[n].(body := w.store.ops[n].body.(status := status))
    case Relabel(typeLabel, ancestor) => w.store.ops[n].(typeLabel := typeLabel, ancestor := ancestor)
    case CronBackup(o) => o
    case RetentionDelete => w.store.ops[n].(deleting := true)
    case ClearFinalizer(f) => Cleared(w.store.ops[n], f)
  }

  ghost function ApplyBackup(c: Config, w: World, n: string, step: BackupStep): World
    requires BackupEnabled(w, n, step)
  {
    match step
    case SyncBackupCall => var r := SyncBackup(w, n, n in c.retained); RecordBackup(r.0, n, r.1)
    case CleanupBackupCall => w.(store := CleanupBackup(w.store, n, n in c.retained).0)
    case _ => w.(store := Put(w.store, n, OperatorWrite(w, n, step)))
  }

  /** The one object a step writes, if any. */
  ghost function Written(c: Config, w: World, n: string, step: BackupStep): Option<OpObject>
    requires BackupEnabled(w, n, step)
  {
    match step
    case SyncBackupCall => SyncWrite(w, n, n in c.retained)
    case CleanupBackupCall => CleanupWrite(w.store, n, n in c.retained)
    case _ => Some(OperatorWrite(w, n, step))
  }

  lemma {:induction false} StepWrites(c: Config, w: World, n: string, step: BackupStep)
    requires BackupEnabled(w, n, step)
    ensures ApplyBackup(c, w, n, step).store == PutIfAny(w.store, n, Written(c, w, n, step))
    ensures ApplyBackup(c, w, n, step).restoreStore == w.restoreStore
  {
  }

  // ----------------------------------------------------------------------- all steps

  ghost predicate RestoreEnabled(w: World, n: string, step: RestoreStep) {
    match step
    case SyncRestoreCall(listing) => n in w.restores && IsListing(w, listing, SourceInstance(w.restores[n]))
    case CleanupRestoreCall => true
    case ReportRestore(_, _) => n in w.restoreStore.ops
    case ClearRestoreFinalizer(_) => n in w.restoreStore.ops && w.restoreStore.ops[n].deleting
  }

  function RecordRestore(w: World, n: string, outcome: RestoreOutcome): World
    requires n in w.restores
  {
    if outcome.RestoreError? then w
    else w.(restores := w.restores[n := w.restores[n].(state := outcome.state, completedAt := outcome.completedAt)])
  }

  ghost function ApplyRestore(w: World, n: string, step: RestoreStep): World
    requires RestoreEnabled(w, n, step)
  {
    var s := w.restoreStore;
    match step
    case SyncRestoreCall(listing) => var r := SyncRestore(w, n, listing); RecordRestore(r.0, n, r.1)
    case CleanupRestoreCall => w.(restoreStore := CleanupRestore(s, n).0)
    case ReportRestore(state, completedAt) =>
      w.(restoreStore := PutRestore(s, n, s.ops[n].(state := state, completedAt := completedAt)))
    case ClearRestoreFinalizer(f) =>
      w.(restoreStore := PutRestore(s, n, s.ops[n].(finalizers := s.ops[n].finalizers - {f})))
  }

  ghost predicate ResourceEnabled(w: World, step: ResourceStep) {
    match step
    case MirrorCall(n) => true
    case CreateBackup(n, cr) => n !in w.crs && cr.mirrored == None && cr.name == n
    case EditBackup(n, _, _, _) => n in w.crs
    case ForgetBackup(n) => n in w.crs && n !in w.store.ops   // only after CleanupBackup returned true
    case PutRestoreCR(n, _) => true
    case ForgetRestore(n) => n in w.restores
    case SetClusters(_, _) => true
  }

  ghost function ApplyResource(c: Config, w: World, step: ResourceStep): World
    requires ResourceEnabled(w, step)
  {
    match step
    case MirrorCall(n) =>
      var cr := Mirror(c.sha1, c.namespace, w, n);
      if cr.None? || n in w.crs then w else w.(crs := w.crs[n := cr.value], nextCr := w.nextCr + 1)
    case CreateBackup(n, cr) => w.(crs := w.crs[n := cr.(uid := w.nextCr)], nextCr := w.nextCr + 1)
    case EditBackup(n, instance, storage, scheduleName) =>
      w.(crs := w.crs[n := w.crs[n].(instance := instance, storage := storage, scheduleName := scheduleName)])
    case ForgetBackup(n) => w.(crs := w.crs - {n})
    case PutRestoreCR(n, cr) => w.(restores := w.restores[n := cr])
    case ForgetRestore(n) => w.(restores := w.restores - {n})
    case SetClusters(clusters, instances) => w.(clusters := clusters, instances := instances)
  }

  ghost predicate Enabled(w: World, ev: Event) {
    match ev
    case OnBackup(n, step) => BackupEnabled(w, n, step)
    case OnRestore(n, step) => RestoreEnabled(w, n, step)
    case OnResources(step) => ResourceEnabled(w, step)
  }

  ghost function Apply(c: Config, w: World, ev: Event): World
    requires Enabled(w, ev)
  {
    match ev
    case OnBackup(n, step) => ApplyBackup(c, w, n, step)
    case OnRestore(n, step) => ApplyRestore(w, n, step)
    case OnResources(step) => ApplyResource(c, w, step)
  }

  lemma {:induction false} ResourcesFrame(c: Config, w: World, step: ResourceStep)
    requires ResourceEnabled(w, step)
    ensures ApplyResource(c, w, step).store == w.store && ApplyResource(c, w, step).restoreStore == w.restoreStore
  {
  }

  lemma {:induction false} RestoresFrame(w: World, n: string, step: RestoreStep)
    requires RestoreEnabled(w, n, step)
    ensures ApplyRestore(w, n, step).store == w.store && ApplyRestore(w, n, step).crs == w.crs
  {
  }

  ghost predicate Steps(c: Config, w: World, ev: Event, w': World) {
    Enabled(w, ev) && w' == Apply(c, w, ev)
  }

  ghost predicate IsRun(c: Config, worlds: seq<World>, evs: seq<Event>) {
    && |worlds| == |evs| + 1
    && forall i {:trigger evs[i]} :: 0 <= i < |evs| ==> Steps(c, worlds[i], evs[i], worlds[i + 1])
  }

  /** How a step changes the operator backups: not at all, or by writing one object to its name. */
  lemma {:induction false} StoreStep(c: Config, w: World, ev: Event, w': World)
    requires Steps(c, w, ev, w')
    ensures ev.OnBackup? ==>
              BackupEnabled(w, ev.n, ev.step) && w'.store == PutIfAny(w.store, ev.n, Written(c, w, ev.n, ev.step))
    ensures !ev.OnBackup? ==> w'.store == w.store
  {
    match ev
    case OnBackup(n, step) => StepWrites(c, w, n, step);
    case OnRestore(n, step) => RestoresFrame(w, n, step);
    case OnResources(step) => ResourcesFrame(c, w, step);
  }

  // ------------------------------------------------------------------- Retain safety

  /** The operator backup is not being deleted with its data, and its data was not deleted. */
  predicate Spared(o: OpObject) {
    !(o.deleting && DELETE_DATA in o.finalizers) && !o.dataDeleted
  }

  ghost predicate DataKept(s: Store, n: string) {
    && (n in s.ops ==> Spared(s.ops[n]))
    && (forall u :: u in s.tombs && s.tombs[u].name == n ==> !s.tombs[u].dataDeleted)
  }

  lemma {:induction false} RetainWrites(c: Config, w: World, n: string, step: BackupStep)
    requires BackupEnabled(w, n, step) && n in c.retained && DataKept(w.store, n) && step != RetentionDelete
    ensures Written(c, w, n, step).Some? ==> Spared(Written(c, w, n, step).value)
  {
  }

  lemma {:induction false} PutKeepsData(s: Store, n: string, m: string, o: OpObject)
    requires DataKept(s, n) && (m == n ==> Spared(o))
    ensures DataKept(Put(s, m, o), n)
  {
  }

  /** Schedule retention breaks Retain exactly for a backup that carries the delete-data finalizer. */
  lemma {:induction false} RetentionBreaksRetainExactly(c: Config, w: World, n: string)
    requires BackupEnabled(w, n, RetentionDelete) && n in c.retained && DataKept(w.store, n)
    ensures DataKept(ApplyBackup(c, w, n, RetentionDelete).store, n) <==> DELETE_DATA !in w.store.ops[n].finalizers
  {
  }

  /** The object carries the finalizer that deletes its data. */
  ghost predicate Loaded(w: World, n: string) {
    n in w.store.ops && DELETE_DATA in w.store.ops[n].finalizers
  }

  lemma {:induction false} DataKeptStep(c: Config, w: World, ev: Event, w': World, n: string)
    requires Steps(c, w, ev, w') && n in c.retained && DataKept(w.store, n)
    ensures DataKept(w'.store, n) <==> !(ev == OnBackup(n, RetentionDelete) && Loaded(w, n))
  {
    StoreStep(c, w, ev, w');
    if ev == OnBackup(n, RetentionDelete) {
      RetentionBreaksRetainExactly(c, w, n);
    } else if ev.OnBackup? {
      if ev.n == n { RetainWrites(c, w, n, ev.step); }
      var o := Written(c, w, ev.n, ev.step);
      if o.Some? { PutKeepsData(w.store, n, ev.n, o.value); }
    }
  }

  /** No deletion from outside finds the data finalizer on the backup. */
  ghost predicate DeletedUnloaded(worlds: seq<World>, evs: seq<Event>, n: string)
    requires |worlds| == |evs| + 1
  {
    forall k {:trigger evs[k]} :: 0 <= k < |evs| && evs[k] == OnBackup(n, RetentionDelete) ==> !Loaded(worlds[k], n)
  }

  lemma {:induction false} DataKeptUpTo(c: Config, worlds: seq<World>, evs: seq<Event>, n: string, i: nat)
    requires IsRun(c, worlds, evs) && i < |worlds| && n in c.retained && DataKept(worlds[0].store, n)
    requires DeletedUnloaded(worlds, evs, n)
    ensures DataKept(worlds[i].store, n)
  {
    if i > 0 {
      DataKeptUpTo(c, worlds, evs, n, i - 1);
      assert Steps(c, worlds[i - 1], evs[i - 1], worlds[i]);
      DataKeptStep(c, worlds[i - 1], evs[i - 1], worlds[i], n);
    }
  }

  /** Under Retain, over every interleaving, the backup's data survives, and no state is reached in which
      the operator would delete it, exactly when no deletion from outside the provider finds the data
      finalizer on it. */
  lemma {:induction false} RetainKeepsDataExactly(c: Config, worlds: seq<World>, evs: seq<Event>, n: string)
    requires IsRun(c, worlds, evs) && n in c.retained && DataKept(worlds[0].store, n)
    ensures (forall i :: 0 <= i < |worlds| ==> DataKept(worlds[i].store, n)) <==> DeletedUnloaded(worlds, evs, n)
  {
    if DeletedUnloaded(worlds, evs, n) {
      forall i | 0 <= i < |worlds| ensures DataKept(worlds[i].store, n) { DataKeptUpTo(c, worlds, evs, n, i); }
    } else {
      var k :| 0 <= k < |evs| && evs[k] == OnBackup(n, RetentionDelete) && Loaded(worlds[k], n);
      if DataKept(worlds[k].store, n) {
        DataKeptStep(c, worlds[k], evs[k], worlds[k + 1], n);
        assert !DataKept(worlds[k + 1].store, n);
      }
    }
  }

  /** A synced object does not carry the data finalizer. */
  ghost predicate Unloaded(s: Store, n: string) {
    n in s.ops && s.ops[n].synced ==> DELETE_DATA !in s.ops[n].finalizers
  }

  /** Once synced under Retain, an object never regains the data finalizer, whatever else happens. */
  lemma {:induction false} SyncedNeverReloads(c: Config, worlds: seq<World>, evs: seq<Event>, n: string, i: nat)
    requires IsRun(c, worlds, evs) && i < |worlds| && n in c.retained && Unloaded(worlds[0].store, n)
    ensures Unloaded(worlds[i].store, n)
  {
    if i > 0 {
      SyncedNeverReloads(c, worlds, evs, n, i - 1);
      StoreStep(c, worlds[i - 1], evs[i - 1], worlds[i]);
    }
  }

  /** So, under Retain, a backup that is only ever deleted from outside after it has been synced keeps its
      data over every interleaving. */
  lemma {:induction false} SyncedBackupIsRetained(c: Config, worlds: seq<World>, evs: seq<Event>, n: string, i: nat)
    requires IsRun(c, worlds, evs) && i < |worlds| && n in c.retained
    requires DataKept(worlds[0].store, n) && Unloaded(worlds[0].store, n)
    requires forall k {:trigger evs[k]} :: 0 <= k < |evs| && evs[k] == OnBackup(n, RetentionDelete) ==>
               n in worlds[k].store.ops && worlds[k].store.ops[n].synced
    ensures DataKept(worlds[i].store, n)
  {
    forall k | 0 <= k < |evs| && evs[k] == OnBackup(n, RetentionDelete)
      ensures !Loaded(worlds[k], n)
    {
      SyncedNeverReloads(c, worlds, evs, n, k);
    }
    DataKeptUpTo(c, worlds, evs, n, i);
  }

  // -------------------------------------------------------- without Retain, data goes first

  /** A synced object still has its data finalizer, or the operator has deleted its data. */
  predicate Guards(o: OpObject) {
    o.synced ==> DELETE_DATA in o.finalizers || (o.deleting && o.dataDeleted)
  }

  ghost predicate DataGoesFirst(s: Store, n: string) {
    && (n in s.ops ==> Guards(s.ops[n]))
    && (forall u :: u in s.tombs && s.tombs[u].name == n && s.tombs[u].synced ==> s.tombs[u].dataDeleted)
  }

  lemma {:induction false} GuardedWrites(c: Config, w: World, n: string, step: BackupStep)
    requires BackupEnabled(w, n, step) && n !in c.retained && DataGoesFirst(w.store, n)
    ensures Written(c, w, n, step).Some? ==> Guards(Written(c, w, n, step).value)
  {
  }

  lemma {:induction false} PutGuarded(s: Store, n: string, m: string, o: OpObject)
    requires DataGoesFirst(s, n) && (m == n ==> Guards(o))
    ensures DataGoesFirst(Put(s, m, o), n)
  {
  }

  /** Without Retain, over every interleaving, a backup that a runtime-managed SyncBackup succeeded on
      disappears only after the operator has deleted its data. */
  lemma {:induction false} SyncedBackupLosesDataFirst(c: Config, worlds: seq<World>, evs: seq<Event>, n: string, i: nat)
    requires IsRun(c, worlds, evs) && i < |worlds| && n !in c.retained && DataGoesFirst(worlds[0].store, n)
    ensures DataGoesFirst(worlds[i].store, n)
  {
    if i > 0 {
      SyncedBackupLosesDataFirst(c, worlds, evs, n, i - 1);
      var w, ev := worlds[i - 1], evs[i - 1];
      StoreStep(c, w, ev, worlds[i]);
      if ev.OnBackup? {
        if ev.n == n { GuardedWrites(c, w, n, ev.step); }
        var o := Written(c, w, ev.n, ev.step);
        if o.Some? { PutGuarded(w.store, n, ev.n, o.value); }
      }
    }
  }

  // ----------------------------------------------------------------- write-once specs

  ghost predicate BackupFrozen(o: OpObject, o': OpObject) {
    o.uid == o'.uid && o.body.cluster == o'.body.cluster && o.body.storage == o'.body.storage
  }

  ghost predicate RestoreFrozen(o: OpRestore, o': OpRestore) {
    o.uid == o'.uid && o.spec == o'.spec
  }

  /** Uids are handed out once. */
  ghost predicate UidsBounded(w: World) {
    && (forall n :: n in w.store.ops ==> w.store.ops[n].uid < w.store.nextUid)
    && (forall n :: n in w.restoreStore.ops ==> w.restoreStore.ops[n].uid < w.restoreStore.nextUid)
  }

  /** From `w` to `w'`, an object that survived kept its spec; any other object is new. */
  ghost predicate SpecsFrozen(w: World, w': World) {
    && w.store.nextUid <= w'.store.nextUid && w.restoreStore.nextUid <= w'.restoreStore.nextUid
    && (forall n :: n in w'.store.ops ==>
                      || (n in w.store.ops && BackupFrozen(w.store.ops[n], w'.store.ops[n]))
                      || w.store.nextUid <= w'.store.ops[n].uid)
    && (forall n :: n in w'.restoreStore.ops ==>
                      || (n in w.restoreStore.ops && RestoreFrozen(w.restoreStore.ops[n], w'.restoreStore.ops[n]))
                      || w.restoreStore.nextUid <= w'.restoreStore.ops[n].uid)
  }

  lemma {:induction false} FrozenWrites(c: Config, w: World, n: string, step: BackupStep)
    requires BackupEnabled(w, n, step) && Written(c, w, n, step).Some?
    ensures var o := Written(c, w, n, step).value;
            if n in w.store.ops then BackupFrozen(w.store.ops[n], o) else o.uid == w.store.nextUid && !o.deleting
  {
  }

  /** How a step changes the operator restores: not at all, or by writing one that kept its spec or is new. */
  lemma {:induction false} RestoreWrites(w: World, n: string, step: RestoreStep)
    requires RestoreEnabled(w, n, step)
    ensures var s, s' := w.restoreStore, ApplyRestore(w, n, step).restoreStore;
            || s' == s
            || exists o :: s' == PutRestore(s, n, o)
                           && if n in s.ops then RestoreFrozen(s.ops[n], o) else o.uid == s.nextUid && !o.deleting
  {
  }

  lemma {:induction false} FrozenBackupStep(c: Config, w: World, n: string, step: BackupStep)
    requires BackupEnabled(w, n, step) && UidsBounded(w)
    ensures SpecsFrozen(w, ApplyBackup(c, w, n, step)) && UidsBounded(ApplyBackup(c, w, n, step))
  {
    StepWrites(c, w, n, step);
    if Written(c, w, n, step).Some? { FrozenWrites(c, w, n, step); }
  }

  lemma {:induction false} FrozenRestoreStep(w: World, n: string, step: RestoreStep)
    requires RestoreEnabled(w, n, step) && UidsBounded(w)
    ensures SpecsFrozen(w, ApplyRestore(w, n, step)) && UidsBounded(ApplyRestore(w, n, step))
  {
    RestoresFrame(w, n, step);
    RestoreWrites(w, n, step);
  }

  lemma {:induction false} FrozenStep(c: Config, w: World, ev: Event, w': World)
    requires Steps(c, w, ev, w') && UidsBounded(w)
    ensures SpecsFrozen(w, w') && UidsBounded(w')
  {
    match ev
    case OnBackup(n, step) => FrozenBackupStep(c, w, n, step);
    case OnRestore(n, step) => FrozenRestoreStep(w, n, step);
    case OnResources(step) => ResourcesFrame(c, w, step);
  }

  lemma {:induction false} FrozenTransitive(w: World, w1: World, w2: World)
    requires SpecsFrozen(w, w1) && SpecsFrozen(w1, w2)
    ensures SpecsFrozen(w, w2)
  {
  }

  lemma {:induction false} UidsBoundedOverRun(c: Config, worlds: seq<World>, evs: seq<Event>, i: nat)
    requires IsRun(c, worlds, evs) && i < |worlds| && UidsBounded(worlds[0])
    ensures UidsBounded(worlds[i])
  {
    if i > 0 {
      UidsBoundedOverRun(c, worlds, evs, i - 1);
      FrozenStep(c, worlds[i - 1], evs[i - 1], worlds[i]);
    }
  }

  lemma {:induction false} FrozenAt(c: Config, worlds: seq<World>, evs: seq<Event>, i: nat)
    requires IsRun(c, worlds, evs) && i < |evs| && UidsBounded(worlds[0])
    ensures SpecsFrozen(worlds[i], worlds[i + 1])
  {
    UidsBoundedOverRun(c, worlds, evs, i);
    FrozenStep(c, worlds[i], evs[i], worlds[i + 1]);
  }

  lemma {:induction false} FrozenOverRun(c: Config, worlds: seq<World>, evs: seq<Event>, i: nat, j: nat)
    requires IsRun(c, worlds, evs) && i <= j < |worlds| && UidsBounded(worlds[0])
    ensures SpecsFrozen(worlds[i], worlds[j])
    decreases j
  {
    if i < j {
      FrozenOverRun(c, worlds, evs, i, j - 1);
      FrozenAt(c, worlds, evs, j - 1);
      FrozenTransitive(worlds[i], worlds[j - 1], worlds[j]);
    }
  }

  /** Whatever users edit and however calls interleave, an operator backup keeps the cluster and
      storage, and an operator restore the spec, it was created with. */
  lemma {:induction false} SpecsAreWrittenOnce(
    c: Config, worlds: seq<World>, evs: seq<Event>, i: nat, j: nat, n: string)
    requires IsRun(c, worlds, evs) && i <= j < |worlds| && UidsBounded(worlds[0])
    ensures var s, s' := worlds[i].store, worlds[j].store;
            n in s.ops && n in s'.ops && s.ops[n].uid == s'.ops[n].uid ==> BackupFrozen(s.ops[n], s'.ops[n])
    ensures var s, s' := worlds[i].restoreStore, worlds[j].restoreStore;
            n in s.ops && n in s'.ops && s.ops[n].uid == s'.ops[n].uid ==> s.ops[n].spec == s'.ops[n].spec
  {
    FrozenOverRun(c, worlds, evs, i, j);
    UidsBoundedOverRun(c, worlds, evs, i);
  }

  // ------------------------------------------------------- where a restore comes from

  /** In `w`, the base is a Succeeded backup of the stream completed by the requested date, the newest
      such, with a Succeeded operator backup whose status the restore carries. */
  ghost predicate SoundBase(w: World, r: RestoreCR, spec: OpRestoreSpec) {
    && r.source.FromPointInTime? && r.source.pitr.Some? && spec.pitr.Some?
    && var p := r.source.pitr.value;
       && spec.pitr.value.target == p.target && spec.pitr.value.date == p.date && (p.target == ToDate ==> p.date.Some?)
       && spec.backupName in w.store.ops && w.store.ops[spec.backupName].body.status.state == Succeeded
       && spec.pitr.value.source == w.store.ops[spec.backupName].body.status
       && spec.backupName in w.crs
       && NewestOnStream(w, w.crs[spec.backupName], if p.instance.Some? then p.instance.value else r.instance, p)
  }

  /** In `w`, the Restore names this Backup, which exists and has not failed. */
  ghost predicate NamedBackup(w: World, r: RestoreCR, name: string) {
    r.source == FromBackup(Some(name)) && name != "" && name in w.crs && w.crs[name].state != CrFailed
  }

  ghost predicate NewestOnStream(w: World, base: BackupCR, instance: string, p: PitrSource) {
    && base.instance == instance && Candidate(base, p.storage, p.date)
    && forall m :: m in w.crs && w.crs[m].instance == instance && Candidate(w.crs[m], p.storage, p.date) ==>
                     w.crs[m].completedAt.value <= base.completedAt.value
  }

  lemma {:induction false} SelectionIsNewest(w: World, listing: seq<BackupCR>, instance: string, p: PitrSource)
    requires IsListing(w, listing, instance) && Best(listing, p.storage, p.date).Some?
    ensures var base := Best(listing, p.storage, p.date).value;
            base.name in w.crs && w.crs[base.name] == base && NewestOnStream(w, base, instance, p)
  {
    var base := Best(listing, p.storage, p.date).value;
    forall m | m in w.crs && w.crs[m].instance == instance && Candidate(w.crs[m], p.storage, p.date)
      ensures w.crs[m].completedAt.value <= base.completedAt.value
    {
      BestIsLatest(listing, p.storage, p.date, w.crs[m]);
    }
  }

  /** This step is the SyncRestore call that created the operator restore. */
  ghost predicate Creates(w: World, ev: Event, n: string, o: OpRestore) {
    && ev.OnRestore? && ev.n == n && ev.rstep.SyncRestoreCall? && n in w.restores && n !in w.restoreStore.ops
    && o.uid == w.restoreStore.nextUid && o.spec.cluster == w.restores[n].instance
    && (if o.spec.pitr.Some? then SoundBase(w, w.restores[n], o.spec)
        else NamedBackup(w, w.restores[n], o.spec.backupName))
  }

  lemma {:induction false} CreationIsSound(w: World, n: string, listing: seq<BackupCR>)
    requires RestoreEnabled(w, n, SyncRestoreCall(listing)) && n !in w.restoreStore.ops
    requires n in ApplyRestore(w, n, SyncRestoreCall(listing)).restoreStore.ops
    ensures Creates(w, OnRestore(n, SyncRestoreCall(listing)), n,
              ApplyRestore(w, n, SyncRestoreCall(listing)).restoreStore.ops[n])
  {
    var r := w.restores[n];
    var res := Resolve(w, r.source, listing);
    assert res.Resolved?;
    if res.pitr.Some? {
      SelectionIsNewest(w, listing, SourceInstance(r), r.source.pitr.value);
      assert SoundBase(w, r, OpRestoreSpec(r.instance, res.base, res.pitr));
    }
  }

  lemma {:induction false} OnlySyncCreates(c: Config, w: World, ev: Event, w': World, n: string)
    requires Steps(c, w, ev, w') && n in w'.restoreStore.ops
    ensures if n in w.restoreStore.ops then RestoreFrozen(w.restoreStore.ops[n], w'.restoreStore.ops[n])
            else ev.OnRestore? && ev.n == n && ev.rstep.SyncRestoreCall?
  {
    match ev
    case OnBackup(m, step) => StepWrites(c, w, m, step);
    case OnRestore(m, step) => RestoreWrites(w, m, step);
    case OnResources(step) => ResourcesFrame(c, w, step);
  }

  /** Every operator restore in a run was created by a SyncRestore call of that run, a point-in-time one from
      a base that was sound at that moment, any other from the Backup its Restore named, which had not failed,
      and still has the spec it got then. */
  lemma {:induction false} RestoresHaveSoundOrigin(c: Config, worlds: seq<World>, evs: seq<Event>, j: nat, n: string)
    returns (i: nat)
    requires IsRun(c, worlds, evs) && j < |worlds| && worlds[0].restoreStore.ops == map[]
    requires n in worlds[j].restoreStore.ops
    ensures i < j && Creates(worlds[i], evs[i], n, worlds[j].restoreStore.ops[n])
  {
    OnlySyncCreates(c, worlds[j - 1], evs[j - 1], worlds[j], n);
    if n in worlds[j - 1].restoreStore.ops {
      i := RestoresHaveSoundOrigin(c, worlds, evs, j - 1, n);
    } else {
      CreationIsSound(worlds[j - 1], n, evs[j - 1].rstep.listing);
      i := j - 1;
    }
  }

  /** A finished restore is reported as such exactly when its source resolves at that moment: a source
      that disappears later hides it. */
  lemma {:induction false} ReportedStateExactly(w: World, n: string, listing: seq<BackupCR>)
    requires n in w.restores && n in w.restoreStore.ops && w.restoreStore.ops[n].state == OpSucceeded
    requires w.restoreStore.ops[n].controller == Some(Owner(RestoreKind, n, w.restores[n].uid))
    ensures SyncRestore(w, n, listing).1 == RestoreExec(RestoreSucceeded, w.restoreStore.ops[n].completedAt)
            <==> Resolve(w, w.restores[n].source, listing).Resolved?
  {
  }

  // --------------------------------------------------------------------- no mirror loop

  predicate OwnedByBackup(o: OpObject) {
    o.controller.Some? && o.controller.value.kind == BackupKind
  }

  /** What SyncBackup wrote is owned by a Backup. */
  ghost predicate NoLoop(w: World) {
    UidsBounded(w) && forall n :: n in w.store.ops && w.store.ops[n].synced ==> OwnedByBackup(w.store.ops[n])
  }

  lemma {:induction false} WritesKeepOwner(c: Config, w: World, n: string, step: BackupStep)
    requires BackupEnabled(w, n, step) && Written(c, w, n, step).Some?
    requires n in w.store.ops && w.store.ops[n].synced ==> OwnedByBackup(w.store.ops[n])
    ensures Written(c, w, n, step).value.synced ==> OwnedByBackup(Written(c, w, n, step).value)
  {
  }

  lemma {:induction false} NoLoopStep(c: Config, w: World, ev: Event, w': World)
    requires Steps(c, w, ev, w') && NoLoop(w)
    ensures NoLoop(w')
  {
    FrozenStep(c, w, ev, w');
    StoreStep(c, w, ev, w');
    if ev.OnBackup? && Written(c, w, ev.n, ev.step).Some? { WritesKeepOwner(c, w, ev.n, ev.step); }
  }

  /** Over every interleaving, even with the operator relabelling and users editing at will: what SyncBackup
      created or adopted is never mirrored back, and a Backup with a schedule name never makes SyncBackup
      create or modify anything. */
  lemma {:induction false} NoMirrorLoop(c: Config, worlds: seq<World>, evs: seq<Event>, i: nat)
    requires IsRun(c, worlds, evs) && i < |worlds| && NoLoop(worlds[0])
    ensures NoLoop(worlds[i])
    ensures forall n :: n in worlds[i].store.ops && worlds[i].store.ops[n].synced ==>
                          Mirror(c.sha1, c.namespace, worlds[i], n).None?
    ensures forall n :: n in worlds[i].crs && worlds[i].crs[n].scheduleName != "" ==>
                          SyncBackup(worlds[i], n, n in c.retained).0.store == worlds[i].store
  {
    if i > 0 {
      NoMirrorLoop(c, worlds, evs, i - 1);
      NoLoopStep(c, worlds[i - 1], evs[i - 1], worlds[i]);
    }
  }

  /** A SyncBackup call that takes the operator backup over: the Backup has no schedule name then. */
  ghost predicate Adopts(c: Config, w: World, ev: Event, n: string) {
    && ev == OnBackup(n, SyncBackupCall) && n in w.crs && w.crs[n].scheduleName == ""
    && SyncWrite(w, n, n in c.retained).Some?
  }

  lemma {:induction false} AdoptStep(c: Config, w: World, ev: Event, w': World, n: string)
    requires Steps(c, w, ev, w') && n in w.store.ops && n in w'.store.ops
    ensures w'.store.ops[n].synced <==> w.store.ops[n].synced || Adopts(c, w, ev, n)
  {
    StoreStep(c, w, ev, w');
  }

  lemma {:induction false} SurvivorWasThere(
    c: Config, worlds: seq<World>, evs: seq<Event>, k: nat, i: nat, j: nat, n: string)
    requires IsRun(c, worlds, evs) && k <= i <= j < |worlds| && UidsBounded(worlds[0])
    requires n in worlds[j].store.ops && worlds[j].store.ops[n].uid < worlds[k].store.nextUid
    ensures n in worlds[i].store.ops && worlds[i].store.ops[n].uid == worlds[j].store.ops[n].uid
  {
    FrozenOverRun(c, worlds, evs, k, i);
    FrozenOverRun(c, worlds, evs, i, j);
  }

  /** The Backup is mirrored by this step. */
  ghost predicate MirroredBy(c: Config, w: World, ev: Event, n: string) {
    ev == OnResources(MirrorCall(n)) && n !in w.crs && Mirror(c.sha1, c.namespace, w, n).Some?
  }

  ghost predicate AdoptedBetween(c: Config, worlds: seq<World>, evs: seq<Event>, k: nat, j: nat, n: string)
    requires |worlds| == |evs| + 1 && j < |worlds|
  {
    exists i :: k < i < j && Adopts(c, worlds[i], evs[i], n)
  }

  lemma {:induction false} AdoptedOneMore(c: Config, worlds: seq<World>, evs: seq<Event>, k: nat, j: nat, n: string)
    requires |worlds| == |evs| + 1 && k + 1 < j < |worlds|
    ensures AdoptedBetween(c, worlds, evs, k, j, n)
            <==> AdoptedBetween(c, worlds, evs, k, j - 1, n) || Adopts(c, worlds[j - 1], evs[j - 1], n)
  {
  }

  /** From its mirroring on, an operator backup has been written by SyncBackup exactly if some call since
      then found its Backup without a schedule name: mirrored with one, and never edited out of it, it is
      never touched. */
  lemma {:induction false} MirroredAdoptedExactly(
    c: Config, worlds: seq<World>, evs: seq<Event>, k: nat, j: nat, n: string)
    requires IsRun(c, worlds, evs) && k < j < |worlds| && NoLoop(worlds[0]) && MirroredBy(c, worlds[k], evs[k], n)
    requires n in worlds[j].store.ops && worlds[j].store.ops[n].uid == worlds[k].store.ops[n].uid
    ensures worlds[j].store.ops[n].synced <==> AdoptedBetween(c, worlds, evs, k, j, n)
    decreases j
  {
    if j == k + 1 {
      MirroredStartsUntouched(c, worlds, evs, k, n);
    } else {
      MirroredWasThere(c, worlds, evs, k, j - 1, j, n);
      MirroredAdoptedExactly(c, worlds, evs, k, j - 1, n);
      assert Steps(c, worlds[j - 1], evs[j - 1], worlds[j]);
      AdoptStep(c, worlds[j - 1], evs[j - 1], worlds[j], n);
      AdoptedOneMore(c, worlds, evs, k, j, n);
    }
  }

  lemma {:induction false} MirroredStartsUntouched(c: Config, worlds: seq<World>, evs: seq<Event>, k: nat, n: string)
    requires IsRun(c, worlds, evs) && k < |evs| && NoLoop(worlds[0]) && MirroredBy(c, worlds[k], evs[k], n)
    ensures n in worlds[k + 1].store.ops && !worlds[k + 1].store.ops[n].synced
  {
    NoMirrorLoop(c, worlds, evs, k);
    StoreStep(c, worlds[k], evs[k], worlds[k + 1]);
  }

  lemma {:induction false} MirroredWasThere(
    c: Config, worlds: seq<World>, evs: seq<Event>, k: nat, i: nat, j: nat, n: string)
    requires IsRun(c, worlds, evs) && k <= i <= j < |worlds| && UidsBounded(worlds[0])
    requires n in worlds[k].store.ops && n in worlds[j].store.ops
    requires worlds[j].store.ops[n].uid == worlds[k].store.ops[n].uid
    ensures n in worlds[i].store.ops && worlds[i].store.ops[n].uid == worlds[k].store.ops[n].uid
  {
    UidsBoundedOverRun(c, worlds, evs, k);
    SurvivorWasThere(c, worlds, evs, k, i, j, n);
  }

  /** A Backup resource reports its operator backup. */
  ghost predicate Reflects(w: World, n: string) {
    n in w.crs && n in w.store.ops && Exec(w.crs[n].state, w.crs[n].completedAt) == ExecOf(w.store.ops[n].body.status)
  }

  /** A SyncBackup call that finds or creates the operator backup and does not fail leaves the resource
      reporting it. */
  lemma {:induction false} SyncReflects(c: Config, w: World, n: string)
    requires n in w.crs && SyncBackup(w, n, n in c.retained).1.Exec?
    requires n in ApplyBackup(c, w, n, SyncBackupCall).store.ops
    ensures Reflects(ApplyBackup(c, w, n, SyncBackupCall), n)
  {
  }

  /** A mirrored backup with a schedule name is picked up: its resource names the operator backup's
      cluster, and the next SyncBackup call reports it without touching it. */
  lemma {:induction false} MirroredThenReported(c: Config, w: World, n: string)
    requires n !in w.crs && Mirror(c.sha1, c.namespace, w, n).Some?
    requires Mirror(c.sha1, c.namespace, w, n).value.scheduleName != ""
    ensures var w1 := ApplyResource(c, w, MirrorCall(n));
            && n in w1.crs && w1.crs[n].instance == w.store.ops[n].body.cluster
            && w1.crs[n].mirrored == Some(w.store.ops[n].uid)
            && var w2 := ApplyBackup(c, w1, n, SyncBackupCall);
               w2.store == w.store && Reflects(w2, n)
  {
  }

  // -------------------------------------------------------------------- bounded cleanup

  /** Provider work left: 3 live and still carrying the finalizer Retain removes, 2 one of the two,
      1 waiting for the operator, 0 gone. */
  ghost function Remaining(s: Store, n: string, retain: bool): nat {
    if n !in s.ops then 0
    else 1 + (if s.ops[n].deleting then 0 else 1) + (if retain && DELETE_DATA in s.ops[n].finalizers then 1 else 0)
  }

  /** Nothing recreates or re-adopts the backup. */
  ghost predicate NoRevival(ev: Event, n: string) {
    ev.OnBackup? && ev.n == n ==> !ev.step.SyncBackupCall? && !ev.step.CronBackup?
  }

  lemma {:induction false} CleanupStep(c: Config, w: World, ev: Event, w': World, n: string)
    requires Steps(c, w, ev, w') && NoRevival(ev, n)
    ensures var r, r' := Remaining(w.store, n, n in c.retained), Remaining(w'.store, n, n in c.retained);
            r' <= r && (ev == OnBackup(n, CleanupBackupCall) && r >= 2 ==> r' < r)
  {
    StoreStep(c, w, ev, w');
  }

  ghost function Calls(evs: seq<Event>, n: string): nat {
    if evs == [] then 0
    else Calls(evs[..|evs| - 1], n) + (if evs[|evs| - 1] == OnBackup(n, CleanupBackupCall) then 1 else 0)
  }

  lemma {:induction false} RunPrefix(c: Config, worlds: seq<World>, evs: seq<Event>)
    requires IsRun(c, worlds, evs) && evs != []
    ensures IsRun(c, worlds[..|evs|], evs[..|evs| - 1])
    ensures Steps(c, worlds[|evs| - 1], evs[|evs| - 1], worlds[|evs|])
  {
  }

  lemma {:induction false} CleanupProgress(c: Config, worlds: seq<World>, evs: seq<Event>, n: string)
    requires IsRun(c, worlds, evs) && forall k :: 0 <= k < |evs| ==> NoRevival(evs[k], n)
    ensures var last := Remaining(worlds[|evs|].store, n, n in c.retained);
            last <= 1 || last + Calls(evs, n) <= Remaining(worlds[0].store, n, n in c.retained)
  {
    if evs != [] {
      var k := |evs| - 1;
      RunPrefix(c, worlds, evs);
      CleanupProgress(c, worlds[..k + 1], evs[..k], n);
      CleanupStep(c, worlds[k], evs[k], worlds[k + 1], n);
    }
  }

  /** Two CleanupBackup calls, whatever happens around them, leave at most the operator's finalizers. */
  lemma {:induction false} TwoCallsSuffice(c: Config, worlds: seq<World>, evs: seq<Event>, n: string)
    requires IsRun(c, worlds, evs) && (forall k :: 0 <= k < |evs| ==> NoRevival(evs[k], n))
    requires Calls(evs, n) >= 2
    ensures var ops := worlds[|evs|].store.ops;
            n in ops ==> ops[n].deleting && !(n in c.retained && DELETE_DATA in ops[n].finalizers)
  {
    CleanupProgress(c, worlds, evs, n);
  }

  /** A deleting object carries finalizers, and only those in `left`. */
  ghost predicate Draining(s: Store, n: string, left: set<string>) {
    n in s.ops ==> s.ops[n].deleting && s.ops[n].finalizers != {} && s.ops[n].finalizers <= left
  }

  lemma {:induction false} DrainStep(c: Config, w: World, ev: Event, w': World, n: string, left: set<string>)
    requires Steps(c, w, ev, w') && NoRevival(ev, n) && Draining(w.store, n, left)
    ensures Draining(w'.store, n,
              left - (if ev.OnBackup? && ev.n == n && ev.step.ClearFinalizer? then {ev.step.finalizer} else {}))
  {
    StoreStep(c, w, ev, w');
  }

  /** The finalizers the operator cleared during a run. */
  ghost function ClearedIn(evs: seq<Event>, n: string): set<string> {
    if evs == [] then {}
    else
      var ev := evs[|evs| - 1];
      ClearedIn(evs[..|evs| - 1], n)
          + (if ev.OnBackup? && ev.n == n && ev.step.ClearFinalizer? then {ev.step.finalizer} else {})
  }

  lemma {:induction false} DrainOverRun(c: Config, worlds: seq<World>, evs: seq<Event>, n: string, left: set<string>)
    requires IsRun(c, worlds, evs) && (forall k :: 0 <= k < |evs| ==> NoRevival(evs[k], n))
    requires Draining(worlds[0].store, n, left)
    ensures Draining(worlds[|evs|].store, n, left - ClearedIn(evs, n))
  {
    if evs != [] {
      var k := |evs| - 1;
      RunPrefix(c, worlds, evs);
      DrainOverRun(c, worlds[..k + 1], evs[..k], n, left);
      DrainStep(c, worlds[k], evs[k], worlds[k + 1], n, left - ClearedIn(evs[..k], n));
    } else {
      assert left - ClearedIn(evs, n) == left;
    }
  }

  /** Cleanup finishes: once the backup is deleting, as soon as the operator has cleared the
      finalizers it found, in any order and interleaving, the next call reports completion. */
  lemma {:induction false} CleanupFinishes(c: Config, worlds: seq<World>, evs: seq<Event>, n: string)
    requires IsRun(c, worlds, evs) && (forall k :: 0 <= k < |evs| ==> NoRevival(evs[k], n))
    requires Draining(worlds[0].store, n, ClearedIn(evs, n))
    ensures CleanupBackup(worlds[|evs|].store, n, n in c.retained) == (worlds[|evs|].store, true)
  {
    DrainOverRun(c, worlds, evs, n, ClearedIn(evs, n));
  }

  lemma {:induction false} StaysGone(c: Config, worlds: seq<World>, evs: seq<Event>, n: string, i: nat, j: nat)
    requires IsRun(c, worlds, evs) && i <= j < |worlds| && n !in worlds[i].store.ops
    requires forall k :: i <= k < j ==> NoRevival(evs[k], n)
    ensures n !in worlds[j].store.ops
    decreases j
  {
    if i < j {
      StaysGone(c, worlds, evs, n, i, j - 1);
      assert Steps(c, worlds[j - 1], evs[j - 1], worlds[j]);
      CleanupStep(c, worlds[j - 1], evs[j - 1], worlds[j], n);
    }
  }

  /** Once a call has answered that cleanup is finished, and nothing revives the backup, no operator backup of
      that name exists any more, every further call answers the same, and the Backup may be removed. */
  lemma {:induction false} FinishedMayForget(c: Config, worlds: seq<World>, evs: seq<Event>, n: string, i: nat, j: nat)
    requires IsRun(c, worlds, evs) && i < j < |worlds| && evs[i] == OnBackup(n, CleanupBackupCall)
    requires CleanupBackup(worlds[i].store, n, n in c.retained).1
    requires forall k :: i < k < j ==> NoRevival(evs[k], n)
    ensures n !in worlds[j].store.ops && CleanupBackup(worlds[j].store, n, n in c.retained).1
    ensures n in worlds[j].crs ==> Enabled(worlds[j], OnResources(ForgetBackup(n)))
  {
    CleanupAnswersExactly(worlds[i].store, n, n in c.retained);
    StoreStep(c, worlds[i], evs[i], worlds[i + 1]);
    StaysGone(c, worlds, evs, n, i + 1, j);
    CleanupAnswersExactly(worlds[j].store, n, n in c.retained);
  }

  lemma {:induction false} RunSplits(c: Config, worlds: seq<World>, evs: seq<Event>, m: nat)
    requires IsRun(c, worlds, evs) && m <= |evs|
    ensures IsRun(c, worlds[..m + 1], evs[..m]) && IsRun(c, worlds[m..], evs[m..])
  {
  }

  /** Stored objects never are deleting without a finalizer. */
  ghost predicate NoGhost(s: Store, n: string) {
    n in s.ops && s.ops[n].deleting ==> s.ops[n].finalizers != {}
  }

  lemma {:induction false} NoGhostOverRun(c: Config, worlds: seq<World>, evs: seq<Event>, n: string, i: nat)
    requires IsRun(c, worlds, evs) && i < |worlds| && NoGhost(worlds[0].store, n)
    ensures NoGhost(worlds[i].store, n)
  {
    if i > 0 {
      NoGhostOverRun(c, worlds, evs, n, i - 1);
      StoreStep(c, worlds[i - 1], evs[i - 1], worlds[i]);
    }
  }

  /** Bounded cleanup as a whole: from any state, two CleanupBackup calls, then the operator clearing the
      finalizers that are left, and the next call reports completion, whatever else happens in between. */
  lemma {:induction false} CleanupCompletes(c: Config, worlds: seq<World>, evs: seq<Event>, m: nat, n: string)
    requires IsRun(c, worlds, evs) && (forall k :: 0 <= k < |evs| ==> NoRevival(evs[k], n))
    requires NoGhost(worlds[0].store, n) && m <= |evs| && Calls(evs[..m], n) >= 2
    requires n in worlds[m].store.ops ==> worlds[m].store.ops[n].finalizers <= ClearedIn(evs[m..], n)
    ensures CleanupBackup(worlds[|evs|].store, n, n in c.retained) == (worlds[|evs|].store, true)
  {
    RunSplits(c, worlds, evs, m);
    TwoCallsSuffice(c, worlds[..m + 1], evs[..m], n);
    NoGhostOverRun(c, worlds, evs, n, m);
    CleanupFinishes(c, worlds[m..], evs[m..], n);
  }
}
