/** Backup and restore resources of one namespace, and what one call of SyncBackup, CleanupBackup,
    SyncRestore, CleanupRestore or Mirror does to them (internal/provider/backup.go and
    internal/provider/backup_mirror.go). Each call is one atomic step on the API server's objects. */
module Lifecycle {

  import opened Prelude
  import opened OperatorBackups
  import opened BaseSelection

  const DELETE_DATA := "percona.com/delete-backup"

  datatype OwnerKind = BackupKind | RestoreKind | OtherKind

  /** A controller owner reference. */
  datatype Owner = Owner(kind: OwnerKind, name: string, uid: nat)

  /** An operator backup object. The last two fields record history: a runtime-managed SyncBackup
      succeeded on it, and the operator deleted its data. */
  datatype OpObject = OpObject(
    uid: nat,
    deleting: bool,
    finalizers: set<string>,
    controller: Option<Owner>,
    schedulerName: string,
    typeLabel: string,
    ancestor: string,
    body: OpBackup,
    synced: bool,
    dataDeleted: bool)

  datatype RecoveryTarget = ToDate | ToLatest | ToOther(kind: string)

  datatype PitrSource = PitrSource(
    target: RecoveryTarget, date: Option<Time>, instance: Option<string>, storage: string)

  datatype DataSource =
    | FromBackup(backupRef: Option<string>)
    | FromPointInTime(pitr: Option<PitrSource>)
    | FromElsewhere(kind: string)

  datatype RestoreState = RestorePending | RestoreRunning | RestoreSucceeded | RestoreFailed

  datatype RestoreCR = RestoreCR(
    uid: nat, instance: string, source: DataSource, instanceLabel: string, state: RestoreState,
    completedAt: Option<Time>)

  datatype PitrBlock = PitrBlock(source: OpStatus, target: RecoveryTarget, date: Option<Time>)

  datatype OpRestoreSpec = OpRestoreSpec(cluster: string, backupName: string, pitr: Option<PitrBlock>)

  datatype OpRestoreState =
    | OpNew | OpStarting | OpStopCluster | OpRestoring | OpStartCluster | OpPitr | OpPrepareCluster
    | OpFailed | OpSucceeded

  datatype OpRestore = OpRestore(
    uid: nat, deleting: bool, finalizers: set<string>, controller: Option<Owner>, spec: OpRestoreSpec,
    state: OpRestoreState, completedAt: Option<Time>)

  /** What Mirror reads of an Instance; `backupClass` is None without a backup section. */
  datatype InstanceInfo = InstanceInfo(provider: string, backupClass: Option<string>)

  /** What is left of a removed operator backup. */
  datatype Tomb = Tomb(name: string, synced: bool, dataDeleted: bool)

  /** The operator backups, what is left of removed ones, and the next uid. */
  datatype Store = Store(ops: map<string, OpObject>, tombs: map<nat, Tomb>, nextUid: nat)

  datatype RestoreStore = RestoreStore(ops: map<string, OpRestore>, nextUid: nat)

  datatype World = World(
    crs: map<string, BackupCR>,
    nextCr: nat,
    store: Store,
    restores: map<string, RestoreCR>,
    restoreStore: RestoreStore,
    clusters: map<string, set<string>>,      // PXC clusters and the storages registered on them
    instances: map<string, InstanceInfo>)

  // ------------------------------------------------------------ API server semantics

  /** Storing an object: a deleting object without finalizers disappears. */
  function Put(s: Store, n: string, o: OpObject): Store {
    if o.deleting && o.finalizers == {}
    then s.(ops := s.ops - {n}, tombs := s.tombs[o.uid := Tomb(n, o.synced, o.dataDeleted)])
    else s.(ops := s.ops[n := o], nextUid := if n in s.ops then s.nextUid else s.nextUid + 1)
  }

  function PutIfAny(s: Store, n: string, o: Option<OpObject>): Store {
    if o.None? then s else Put(s, n, o.value)
  }

  function PutRestore(s: RestoreStore, n: string, o: OpRestore): RestoreStore {
    if o.deleting && o.finalizers == {} then s.(ops := s.ops - {n})
    else s.(ops := s.ops[n := o], nextUid := if n in s.ops then s.nextUid else s.nextUid + 1)
  }

  /** controllerutil.SetControllerReference: refused when another object already controls it. */
  function SetController(current: Option<Owner>, owner: Owner): Option<Owner> {
    if current.Some? && (current.value.kind != owner.kind || current.value.name != owner.name) then None
    else Some(owner)
  }

  // ------------------------------------------------------------------- SyncBackup

  datatype BackupOutcome = BackupError | Exec(state: CrState, completedAt: Option<Time>)

  /** How the operator's status is reported. */
  function ExecOf(status: OpStatus): (r: BackupOutcome)
    ensures && r.Exec? && (r.state == CrSucceeded <==> status.state == Succeeded)
            && (r.state == CrFailed <==> status.state == Failed)
    ensures r.state == CrRunning <==> status.state in {Starting, Running}
    ensures r.completedAt == if status.state == Succeeded then status.completedAt else None
  {
    match status.state
    case Failed => Exec(CrFailed, None)
    case Succeeded => Exec(CrSucceeded, status.completedAt)
    case Running => Exec(CrRunning, None)
    case Starting => Exec(CrRunning, None)
    case _ => Exec(CrPending, None)
  }

  /** The finalizer and owner a runtime-managed backup is patched to; None when the owner is taken or
      the API server refuses a new finalizer on a deleting object. */
  function Managed(o: OpObject, n: string, cr: BackupCR, retain: bool): Option<OpObject> {
    var owner := SetController(o.controller, Owner(BackupKind, n, cr.uid));
    var finalizers := if retain then o.finalizers - {DELETE_DATA} else o.finalizers + {DELETE_DATA};
    if owner.None? || (o.deleting && !(finalizers <= o.finalizers)) then None
    else Some(o.(finalizers := finalizers, controller := owner, synced := true))
  }

  /** The object created for a Backup resource. */
  function Fresh(uid: nat, n: string, cr: BackupCR, retain: bool): OpObject {
    OpObject(uid, false, if retain then {} else {DELETE_DATA}, Some(Owner(BackupKind, n, cr.uid)), "", "", "",
             OpBackup(n, cr.instance, cr.storage, OpStatus(New, None, None, [], "")), false, false)
  }

  /** Does the cluster of this Backup exist with its storage registered? */
  predicate Registered(clusters: map<string, set<string>>, cr: BackupCR) {
    cr.instance in clusters && cr.storage in clusters[cr.instance]
  }

  /** SyncBackup only waits: the operator takes a scheduled backup itself, and an on-demand one is not
      created before its cluster and storage exist. */
  predicate Waits(w: World, n: string)
    requires n in w.crs
  {
    w.crs[n].scheduleName != "" || (n !in w.store.ops && !Registered(w.clusters, w.crs[n]))
  }

  /** The operator backup SyncBackup writes; None when it waits or fails. */
  function SyncWrite(w: World, n: string, retain: bool): Option<OpObject>
    requires n in w.crs
  {
    if Waits(w, n) then None
    else
      var o := if n in w.store.ops then w.store.ops[n] else Fresh(w.store.nextUid, n, w.crs[n], retain);
      Managed(o, n, w.crs[n], retain)
  }

  function SyncBackup(w: World, n: string, retain: bool): (World, BackupOutcome)
    requires n in w.crs
  {
    var o := SyncWrite(w, n, retain);
    (w.(crs := w.crs[n := w.crs[n].(instanceLabel := w.crs[n].instance)], store := PutIfAny(w.store, n, o)),
     if o.Some? then ExecOf(o.value.body.status)
     else if !Waits(w, n) then BackupError
     else if n in w.store.ops then ExecOf(w.store.ops[n].body.status)
     else Exec(CrPending, None))
  }

  /** SyncBackup creates an object only for an on-demand Backup whose storage is registered, with the
      Backup's cluster and storage, owned by it, and with the data finalizer exactly without Retain. */
  lemma {:induction false} CreatedBackupMatches(w: World, n: string, retain: bool)
    requires n in w.crs && n !in w.store.ops
    ensures var ops, cr := SyncBackup(w, n, retain).0.store.ops, w.crs[n];
            && (n in ops <==> cr.scheduleName == "" && Registered(w.clusters, cr))
            && (n in ops ==>
                  && ops[n].body.cluster == cr.instance && ops[n].body.storage == cr.storage && ops[n].body.name == n
                  && ops[n].controller == Some(Owner(BackupKind, n, cr.uid)) && ops[n].uid == w.store.nextUid
                  && !ops[n].deleting
                  && ops[n].finalizers == (if retain then {} else {"percona.com/delete-backup"})
                  && !TakenBySchedule(ops[n]))
    ensures Fresh(w.store.nextUid, n, w.crs[n], retain).finalizers == if retain then {} else {DELETE_DATA}
  {
  }

  /** On an existing object SyncBackup changes only the data finalizer and the owner. */
  lemma {:induction false} SyncedBackupMatches(w: World, n: string, retain: bool)
    requires n in w.crs && n in w.store.ops && SyncWrite(w, n, retain).Some?
    ensures var o, o' := w.store.ops[n], SyncWrite(w, n, retain).value;
            && (DELETE_DATA in o'.finalizers <==> !retain)
            && (forall f :: f != DELETE_DATA ==> (f in o'.finalizers <==> f in o.finalizers))
            && o'.controller == Some(Owner(BackupKind, n, w.crs[n].uid)) && w.crs[n].scheduleName == ""
            && o'.body == o.body && o'.uid == o.uid && o'.deleting == o.deleting && o'.dataDeleted == o.dataDeleted
  {
  }

  /** SyncBackup fails exactly on a stored on-demand backup that another object controls, or that is already
      being deleted and would need the data finalizer. */
  lemma {:induction false} SyncBackupFailsExactly(w: World, n: string, retain: bool)
    requires n in w.crs
    ensures SyncBackup(w, n, retain).1 == BackupError <==>
              && w.crs[n].scheduleName == "" && n in w.store.ops
              && (ControlledByOther(w.store.ops[n].controller, BackupKind, n)
                  || (w.store.ops[n].deleting && !retain && DELETE_DATA !in w.store.ops[n].finalizers))
  {
  }

  predicate ControlledByOther(controller: Option<Owner>, kind: OwnerKind, name: string) {
    controller.Some? && !(controller.value.kind == kind && controller.value.name == name)
  }

  /** Besides its operator backup, SyncBackup writes the Instance label of its own resource and nothing else. */
  lemma {:induction false} SyncBackupFrame(w: World, n: string, retain: bool)
    requires n in w.crs
    ensures var w', cr := SyncBackup(w, n, retain).0, w.crs[n];
            && w' == w.(crs := w.crs[n := cr.(instanceLabel := cr.instance)], store := w'.store)
            && (forall m :: m != n ==> (m in w'.store.ops <==> m in w.store.ops))
            && (forall m :: m != n && m in w.store.ops ==> w'.store.ops[m] == w.store.ops[m])
            && (cr.scheduleName != "" ==> w'.store == w.store)
  {
  }

  // ----------------------------------------------------------------- CleanupBackup

  /** The write CleanupBackup makes: under Retain the data finalizer goes first, then the deletion. */
  function CleanupWrite(s: Store, n: string, retain: bool): Option<OpObject> {
    if n !in s.ops then None
    else if retain && DELETE_DATA in s.ops[n].finalizers
    then Some(s.ops[n].(finalizers := s.ops[n].finalizers - {DELETE_DATA}))
    else if !s.ops[n].deleting then Some(s.ops[n].(deleting := true))
    else None
  }

  /** The new store, and whether cleanup is finished. */
  function CleanupBackup(s: Store, n: string, retain: bool): (Store, bool) {
    (PutIfAny(s, n, CleanupWrite(s, n, retain)), n !in s.ops)
  }

  /** Cleanup is finished exactly when the operator backup is gone, and then nothing is written. */
  lemma {:induction false} CleanupAnswersExactly(s: Store, n: string, retain: bool)
    ensures CleanupBackup(s, n, retain).1 <==> n !in s.ops
    ensures CleanupBackup(s, n, retain).1 ==> CleanupBackup(s, n, retain).0 == s
  {
  }

  // ------------------------------------------------------------------- SyncRestore

  datatype Resolution = Resolved(base: string, pitr: Option<PitrBlock>) | NotUsable(state: RestoreState)

  function ResolveBackup(crs: map<string, BackupCR>, backupRef: Option<string>): Resolution {
    if backupRef.None? || backupRef.value == "" then NotUsable(RestoreFailed)
    else if backupRef.value !in crs then NotUsable(RestorePending)
    else if crs[backupRef.value].state == CrFailed then NotUsable(RestoreFailed)
    else Resolved(backupRef.value, None)
  }

  /** `listing` is the API server's answer to listing the source Instance's backups. */
  function ResolvePointInTime(w: World, pitr: Option<PitrSource>, listing: seq<BackupCR>): Resolution {
    if pitr.None? || (pitr.value.target == ToDate && pitr.value.date.None?) then NotUsable(RestoreFailed)
    else
      var best := Best(listing, pitr.value.storage, pitr.value.date);
      if best.None? || best.value.name !in w.store.ops then NotUsable(RestorePending)
      else
        var status := w.store.ops[best.value.name].body.status;
        if status.state == Failed then NotUsable(RestoreFailed)
        else if status.state != Succeeded then NotUsable(RestorePending)
        else Resolved(best.value.name, Some(PitrBlock(status, pitr.value.target, pitr.value.date)))
  }

  function Resolve(w: World, source: DataSource, listing: seq<BackupCR>): Resolution {
    match source
    case FromBackup(ref) => ResolveBackup(w.crs, ref)
    case FromPointInTime(pitr) => ResolvePointInTime(w, pitr, listing)
    case FromElsewhere(_) => NotUsable(RestoreFailed)
  }

  /** The Instance whose stream a point-in-time source names. */
  function SourceInstance(r: RestoreCR): string {
    if r.source.FromPointInTime? && r.source.pitr.Some? && r.source.pitr.value.instance.Some?
    then r.source.pitr.value.instance.value else r.instance
  }

  datatype RestoreOutcome = RestoreError | RestoreExec(state: RestoreState, completedAt: Option<Time>)

  function RestoreExecOf(state: OpRestoreState, completedAt: Option<Time>): (r: RestoreOutcome)
    ensures && r.RestoreExec? && (r.state == RestoreSucceeded <==> state == OpSucceeded)
            && (r.state == RestoreFailed <==> state == OpFailed)
    ensures r.state == RestoreRunning <==>
              state in {OpStarting, OpStopCluster, OpRestoring, OpStartCluster, OpPitr, OpPrepareCluster}
    ensures r.completedAt == if state == OpSucceeded then completedAt else None
  {
    match state
    case OpFailed => RestoreExec(RestoreFailed, None)
    case OpSucceeded => RestoreExec(RestoreSucceeded, completedAt)
    case OpNew => RestoreExec(RestorePending, None)
    case _ => RestoreExec(RestoreRunning, None)
  }

  /** The operator restore: the existing one with its spec as it is, or a new one. */
  function RestoreWrite(s: RestoreStore, n: string, r: RestoreCR, base: string, pitr: Option<PitrBlock>)
    : Option<OpRestore>
  {
    var owner := Owner(RestoreKind, n, r.uid);
    var o := if n in s.ops then s.ops[n]
             else OpRestore(s.nextUid, false, {}, Some(owner), OpRestoreSpec(r.instance, base, pitr), OpNew, None);
    var controller := SetController(o.controller, owner);
    if controller.None? then None else Some(o.(controller := controller))
  }

  function SyncRestore(w: World, n: string, listing: seq<BackupCR>): (World, RestoreOutcome)
    requires n in w.restores
  {
    var r := w.restores[n];
    var w1 := w.(restores := w.restores[n := r.(instanceLabel := r.instance)]);
    match Resolve(w, r.source, listing)
    case NotUsable(state) => (w1, RestoreExec(state, None))
    case Resolved(base, pitr) =>
      var o := RestoreWrite(w.restoreStore, n, r, base, pitr);
      if o.None? then (w1, RestoreError)
      else (w1.(restoreStore := PutRestore(w.restoreStore, n, o.value)),
            RestoreExecOf(o.value.state, o.value.completedAt))
  }

  function CleanupRestore(s: RestoreStore, n: string): (RestoreStore, bool) {
    if n !in s.ops then (s, true)
    else if !s.ops[n].deleting then (PutRestore(s, n, s.ops[n].(deleting := true)), false)
    else (s, false)
  }

  /** Nothing was submitted, and this is reported. */
  predicate Reports(w: World, r: (World, RestoreOutcome), n: string, state: RestoreState) {
    r.1 == RestoreExec(state, None) && r.0.restoreStore == w.restoreStore
  }

  /** The new operator restore, owned by its Restore, is the only one written, and is reported Pending. */
  ghost predicate Submits(w: World, r: (World, RestoreOutcome), n: string, spec: OpRestoreSpec)
    requires n in w.restores
  {
    && r.1 == RestoreExec(RestorePending, None)
    && r.0.restoreStore.ops.Keys == w.restoreStore.ops.Keys + {n}
    && (forall m :: m in w.restoreStore.ops && m != n ==> r.0.restoreStore.ops[m] == w.restoreStore.ops[m])
    && r.0.restoreStore.ops[n].spec == spec && !r.0.restoreStore.ops[n].deleting
    && r.0.restoreStore.ops[n].controller == Some(Owner(RestoreKind, n, w.restores[n].uid))
  }

  /** A Restore from a Backup is submitted, from the Backup of that name and without a point in time, exactly
      when it names a stored Backup that has not failed; it waits for a Backup that is missing, and fails
      without a name or when the Backup failed. */
  lemma {:induction false} RestoreFromBackupExactly(w: World, n: string, listing: seq<BackupCR>, ref: Option<string>)
    requires n in w.restores && w.restores[n].source == FromBackup(ref) && n !in w.restoreStore.ops
    ensures var r := SyncRestore(w, n, listing);
            if ref.None? || ref.value == "" then Reports(w, r, n, RestoreFailed)
            else if ref.value !in w.crs then Reports(w, r, n, RestorePending)
            else if w.crs[ref.value].state == CrFailed then Reports(w, r, n, RestoreFailed)
            else Submits(w, r, n, OpRestoreSpec(w.restores[n].instance, ref.value, None))
  {
  }

  /** The operator backup of this name has this state. */
  predicate Stores(w: World, name: string, state: BackupState) {
    name in w.store.ops && w.store.ops[name].body.status.state == state
  }

  /** A point-in-time Restore fails without a source, without the date its target needs, or when the selected
      base's operator backup failed; it is submitted, carrying target, date and that backup's status, exactly
      when the base's operator backup has Succeeded; and it waits otherwise. */
  lemma {:induction false} RestoreToTimeExactly(w: World, n: string, listing: seq<BackupCR>, pitr: Option<PitrSource>)
    requires n in w.restores && w.restores[n].source == FromPointInTime(pitr) && n !in w.restoreStore.ops
    ensures var r := SyncRestore(w, n, listing);
            if pitr.None? || (pitr.value.target == ToDate && pitr.value.date.None?) then Reports(w, r, n, RestoreFailed)
            else
              var base := Best(listing, pitr.value.storage, pitr.value.date);
              if base.Some? && Stores(w, base.value.name, Failed) then Reports(w, r, n, RestoreFailed)
              else if base.Some? && Stores(w, base.value.name, Succeeded) then
                var block := PitrBlock(w.store.ops[base.value.name].body.status, pitr.value.target, pitr.value.date);
                Submits(w, r, n, OpRestoreSpec(w.restores[n].instance, base.value.name, Some(block)))
              else Reports(w, r, n, RestorePending)
  {
  }

  /** A source of any other kind fails the Restore. */
  lemma {:induction false} RestoreFromElsewhereFails(w: World, n: string, listing: seq<BackupCR>)
    requires n in w.restores && w.restores[n].source.FromElsewhere?
    ensures Reports(w, SyncRestore(w, n, listing), n, RestoreFailed)
  {
  }

  /** An operator restore that exists keeps its spec; it is reported, and owned, exactly unless another object
      controls it. */
  lemma {:induction false} ExistingRestoreExactly(w: World, n: string, listing: seq<BackupCR>)
    requires n in w.restores && n in w.restoreStore.ops && Resolve(w, w.restores[n].source, listing).Resolved?
    requires !w.restoreStore.ops[n].deleting
    ensures var r, o := SyncRestore(w, n, listing), w.restoreStore.ops[n];
            if ControlledByOther(o.controller, RestoreKind, n)
            then r.1 == RestoreError && r.0.restoreStore == w.restoreStore
            else && r.1 == RestoreExecOf(o.state, o.completedAt)
                 && r.0.restoreStore.ops ==
                    w.restoreStore.ops[n := o.(controller := Some(Owner(RestoreKind, n, w.restores[n].uid)))]
  {
  }

  /** SyncRestore writes operator restores and the Instance label of its own resource, nothing else. */
  lemma {:induction false} SyncRestoreFrame(w: World, n: string, listing: seq<BackupCR>)
    requires n in w.restores
    ensures var w', r := SyncRestore(w, n, listing).0, w.restores[n];
            w' == w.(restores := w.restores[n := r.(instanceLabel := r.instance)], restoreStore := w'.restoreStore)
  {
  }

  /** CleanupRestore answers true exactly when the operator restore is gone; otherwise the operator restore is
      deleting afterwards, or gone, and nothing else of it changes. */
  lemma {:induction false} CleanupRestoreExactly(s: RestoreStore, n: string)
    ensures CleanupRestore(s, n).1 <==> n !in s.ops
    ensures var s' := CleanupRestore(s, n).0;
            && (n !in s.ops ==> s' == s)
            && (n in s'.ops ==> n in s.ops && s'.ops[n] == s.ops[n].(deleting := true))
            && (n in s.ops && s.ops[n].finalizers != {} ==> n in s'.ops)
            && (forall m :: m != n ==> (m in s'.ops <==> m in s.ops))
            && (forall m :: m != n && m in s.ops ==> s'.ops[m] == s.ops[m])
  {
  }

  // ------------------------------------------------------------------------ Mirror

  /** A hexadecimal SHA-1 digest; nothing but its length is assumed. */
  type Digest = s: string | |s| == 40 witness seq(40, _ => '0')

  function SchedulePrefix(sha1: string -> Digest, namespace: string, cluster: string): string {
    if namespace == "" || cluster == "" then "" else (sha1(namespace + "-" + cluster))[..5]
  }

  function ScheduleNameFromAncestor(sha1: string -> Digest, namespace: string, cluster: string, ancestor: string)
    : string
  {
    var prefix := SchedulePrefix(sha1, namespace, cluster) + "-";
    if ancestor == "" then ""
    else if prefix <= ancestor then ancestor[|prefix|..]
    else ancestor
  }

  /** The schedule a backup was taken by; None for an on-demand backup. */
  function ScheduledBackupName(sha1: string -> Digest, namespace: string, o: OpObject): Option<string> {
    if o.schedulerName != "" then Some(o.schedulerName)
    else if o.typeLabel != "cron" then None
    else Some(ScheduleNameFromAncestor(sha1, namespace, o.body.cluster, o.ancestor))
  }

  function Mirror(sha1: string -> Digest, namespace: string, w: World, n: string): Option<BackupCR> {
    if n !in w.store.ops || w.store.ops[n].deleting then None
    else
      var o := w.store.ops[n];
      var schedule := ScheduledBackupName(sha1, namespace, o);
      if schedule.None? then None
      else if o.controller.Some? && o.controller.value.kind == BackupKind then None
      else if o.body.cluster !in w.instances then None
      else
        var instance := w.instances[o.body.cluster];
        var scheduleName :=
          if schedule.value == "" then ScheduleNameFromAncestor(sha1, namespace, o.body.cluster, o.ancestor)
          else schedule.value;
        var storage := if o.body.status.storageName != "" then o.body.status.storageName else o.body.storage;
        if instance.provider != "percona-xtradb-cluster" then None
        else if instance.backupClass.None? || instance.backupClass.value == "" then None
        else if storage == "" then None
        else Some(BackupCR(n, w.nextCr, o.body.cluster, storage, instance.backupClass.value, scheduleName, "",
                           CrPending, None, Some(o.uid)))
  }

  /** The operator took this backup by schedule. */
  predicate TakenBySchedule(o: OpObject) {
    o.schedulerName != "" || o.typeLabel == "cron"
  }

  /** A backup is mirrored exactly when it is live, scheduled, not owned by a Backup, on a known storage,
      and its Instance is this provider's with a backup class; the mirror names what it was taken from. */
  lemma {:induction false} MirrorsExactly(sha1: string -> Digest, namespace: string, w: World, n: string)
    ensures Mirror(sha1, namespace, w, n).Some? <==>
              && n in w.store.ops && !w.store.ops[n].deleting && TakenBySchedule(w.store.ops[n])
              && !(w.store.ops[n].controller.Some? && w.store.ops[n].controller.value.kind == BackupKind)
              && (w.store.ops[n].body.status.storageName != "" || w.store.ops[n].body.storage != "")
              && w.store.ops[n].body.cluster in w.instances
              && var i := w.instances[w.store.ops[n].body.cluster];
                 i.provider == "percona-xtradb-cluster" && i.backupClass.Some? && i.backupClass.value != ""
    ensures Mirror(sha1, namespace, w, n).Some? ==>
              var cr, o := Mirror(sha1, namespace, w, n).value, w.store.ops[n];
              && cr.name == n && cr.instance == o.body.cluster && cr.mirrored == Some(o.uid)
              && Some(cr.classRef) == w.instances[o.body.cluster].backupClass
              && cr.storage != "" && (o.body.status.storageName != "" ==> cr.storage == o.body.status.storageName)
              && (o.body.status.storageName == "" ==> cr.storage == o.body.storage)
              && (o.schedulerName != "" ==> cr.scheduleName == o.schedulerName)
              && (o.schedulerName == "" ==> NamesSchedule(sha1, namespace, o.body.cluster, o.ancestor, cr.scheduleName))
              && cr.uid == w.nextCr && cr.state == CrPending && cr.completedAt.None?
  {
  }

  /** How the operator names a schedule's ancestor: five digits of the digest of namespace and cluster, a dash
      and the schedule's name. */
  function AncestorOf(sha1: string -> Digest, namespace: string, cluster: string, name: string): string {
    (sha1(namespace + "-" + cluster))[..5] + "-" + name
  }

  /** `name` is the schedule in the ancestor: what follows the operator's prefix, or all of a foreign one. */
  ghost predicate NamesSchedule(
    sha1: string -> Digest, namespace: string, cluster: string, ancestor: string, name: string)
  {
    namespace != "" && cluster != "" ==>
      || ancestor == AncestorOf(sha1, namespace, cluster, name)
      || (ancestor == name && forall other :: ancestor != AncestorOf(sha1, namespace, cluster, other))
  }

  /** Stripping the prefix undoes how the operator names a schedule's ancestor, and leaves a foreign ancestor
      as it is. */
  lemma {:induction false} ScheduleNameRoundTrip(
    sha1: string -> Digest, namespace: string, cluster: string, name: string, ancestor: string)
    requires namespace != "" && cluster != ""
    ensures ScheduleNameFromAncestor(sha1, namespace, cluster, AncestorOf(sha1, namespace, cluster, name)) == name
    ensures var stripped := ScheduleNameFromAncestor(sha1, namespace, cluster, ancestor);
            NamesSchedule(sha1, namespace, cluster, ancestor, stripped)
  {
    var prefix := SchedulePrefix(sha1, namespace, cluster) + "-";
    assert |prefix| == 6;
    if prefix <= ancestor {
      assert ancestor == prefix + ancestor[6..];
    } else {
      forall other
        ensures ancestor != AncestorOf(sha1, namespace, cluster, other)
      {
        assert prefix <= prefix + other;
      }
    }
  }

  /** A mirrored backup carries no schedule name, and so is taken for a runtime-managed one, exactly
      when the operator set no scheduler name and the ancestor label is missing or the bare prefix. */
  lemma {:induction false} MirroredWithoutScheduleExactly(
    sha1: string -> Digest, namespace: string, w: World, n: string)
    requires Mirror(sha1, namespace, w, n).Some?
    ensures Mirror(sha1, namespace, w, n).value.scheduleName == "" <==>
              && w.store.ops[n].schedulerName == ""
              && (w.store.ops[n].ancestor == ""
                  || w.store.ops[n].ancestor == SchedulePrefix(sha1, namespace, w.store.ops[n].body.cluster) + "-")
  {
  }
}
