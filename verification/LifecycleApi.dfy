/** The provider's calls as they run, one API request after another, proved to do to the stored
    objects what Lifecycle says. */
module LifecycleApi {

  import opened Prelude
  import opened OperatorBackups
  import opened BaseSelection
  import L = Lifecycle

  class ApiServer {

    var crs: map<string, BackupCR>
    var nextCr: nat
    var ops: map<string, L.OpObject>
    var tombs: map<nat, L.Tomb>
    var nextUid: nat
    var restores: map<string, L.RestoreCR>
    var opRestores: map<string, L.OpRestore>
    var nextRestoreUid: nat
    var clusters: map<string, set<string>>
    var instances: map<string, L.InstanceInfo>

    ghost function Backups(): L.Store
      reads this
    {
      L.Store(ops, tombs, nextUid)
    }

    ghost function View(): L.World
      reads this
    {
      L.World(crs, nextCr, Backups(), restores, L.RestoreStore(opRestores, nextRestoreUid), clusters, instances)
    }

    // ------------------------------------------------------------------ API requests

    method CreateBackup(n: string, o: L.OpObject)
      requires n !in ops && o.uid == nextUid && !o.deleting
      modifies this`ops, this`nextUid
      ensures ops == old(ops)[n := o] && nextUid == old(nextUid) + 1
    {
      ops := ops[n := o];
      nextUid := nextUid + 1;
    }

    /** An update or patch of an existing object; the last finalizer of a deleting object removes it. */
    method UpdateBackup(n: string, o: L.OpObject)
      requires n in ops
      modifies this`ops, this`tombs
      ensures Backups() == L.Put(old(Backups()), n, o)
    {
      if o.deleting && o.finalizers == {} {
        ops := ops - {n};
        tombs := tombs[o.uid := L.Tomb(n, o.synced, o.dataDeleted)];
      } else {
        ops := ops[n := o];
      }
    }

    method DeleteBackup(n: string)
      requires n in ops
      modifies this`ops, this`tombs
      ensures Backups() == L.Put(old(Backups()), n, old(ops)[n].(deleting := true))
    {
      UpdateBackup(n, ops[n].(deleting := true));
    }

    // ---------------------------------------------------------------- provider calls

    /** Creates the operator backup of a runtime-managed Backup once its cluster and storage exist. */
    method EnsureBackup(n: string, backup: BackupCR, retain: bool) returns (registered: bool)
      requires backup.scheduleName == "" && n !in ops
      modifies this`ops, this`nextUid
      ensures registered <==> L.Registered(clusters, backup)
      ensures ops == (if registered then old(ops)[n := L.Fresh(old(nextUid), n, backup, retain)] else old(ops))
      ensures nextUid == old(nextUid) + if registered then 1 else 0
    {
      if backup.instance !in clusters {
        return false;
      }
      if backup.storage !in clusters[backup.instance] {
        return false;
      }
      var finalizers: set<string> := {};
      if !retain {
        finalizers := {L.DELETE_DATA};
      }
      CreateBackup(n, L.OpObject(nextUid, false, finalizers, Some(L.Owner(L.BackupKind, n, backup.uid)), "", "", "",
                                 OpBackup(n, backup.instance, backup.storage, OpStatus(New, None, None, [], "")),
                                 false, false));
      return true;
    }

    /** The patched finalizers and owner; false when the API server or the owner check refuses. */
    method PatchManaged(n: string, backup: BackupCR, retain: bool) returns (ok: bool)
      requires n in ops
      modifies this`ops, this`tombs
      ensures var o := L.Managed(old(ops)[n], n, backup, retain);
              (ok <==> o.Some?) && Backups() == L.PutIfAny(old(Backups()), n, o)
    {
      var opBackup := ops[n];
      var finalizers := opBackup.finalizers;
      if retain {
        finalizers := finalizers - {L.DELETE_DATA};
      } else {
        finalizers := finalizers + {L.DELETE_DATA};
      }
      var owner := L.SetController(opBackup.controller, L.Owner(L.BackupKind, n, backup.uid));
      if owner.None? {
        return false;
      }
      if opBackup.deleting && !(finalizers <= opBackup.finalizers) {
        return false;
      }
      UpdateBackup(n, opBackup.(finalizers := finalizers, controller := owner, synced := true));
      return true;
    }

    method SyncBackup(n: string, retain: bool) returns (exec: L.BackupOutcome)
      requires n in crs
      modifies this`crs, this`ops, this`tombs, this`nextUid
      ensures (View(), exec) == L.SyncBackup(old(View()), n, retain)
    {
      ghost var w := View();
      var backup := crs[n];
      crs := crs[n := backup.(instanceLabel := backup.instance)];
      var managedByRuntime := backup.scheduleName == "";
      if n !in ops {
        if !managedByRuntime {
          return L.Exec(CrPending, None);
        }
        var created := EnsureBackup(n, backup, retain);
        if !created {
          return L.Exec(CrPending, None);
        }
      }
      var status := ops[n].body.status;
      if managedByRuntime {
        ghost var o := L.Managed(ops[n], n, backup, retain);
        assert o == L.SyncWrite(w, n, retain);
        var ok := PatchManaged(n, backup, retain);
        if !ok {
          return L.BackupError;
        }
        assert Backups() == L.PutIfAny(w.store, n, o) by {
          if n !in w.store.ops { assert ops == w.store.ops[n := o.value]; }
        }
      }
      exec := L.ExecOf(status);
    }

    method CleanupBackup(n: string, retain: bool) returns (done: bool)
      modifies this`ops, this`tombs
      ensures (Backups(), done) == L.CleanupBackup(old(Backups()), n, retain)
      ensures View() == old(View()).(store := Backups())
    {
      if n !in ops {
        return true;
      }
      var opBackup := ops[n];
      if retain {
        if L.DELETE_DATA in opBackup.finalizers {
          UpdateBackup(n, opBackup.(finalizers := opBackup.finalizers - {L.DELETE_DATA}));
          return false;
        }
      }
      if !opBackup.deleting {
        DeleteBackup(n);
      }
      return false;
    }

    /** The base of a point-in-time restore and the status it is restored from. */
    method ResolvePointInTime(pitr: Option<L.PitrSource>, listing: seq<BackupCR>) returns (r: L.Resolution)
      ensures r == L.ResolvePointInTime(View(), pitr, listing)
    {
      if pitr.None? {
        return L.NotUsable(L.RestoreFailed);
      }
      if pitr.value.target == L.ToDate && pitr.value.date.None? {
        return L.NotUsable(L.RestoreFailed);
      }
      var base := SelectPitrBaseBackup(listing, pitr.value.storage, pitr.value.date);
      if base.None? {
        return L.NotUsable(L.RestorePending);
      }
      if base.value.name !in ops {
        return L.NotUsable(L.RestorePending);
      }
      var status := ops[base.value.name].body.status;
      if status.state == Failed {
        return L.NotUsable(L.RestoreFailed);
      }
      if status.state != Succeeded {
        return L.NotUsable(L.RestorePending);
      }
      return L.Resolved(base.value.name, Some(L.PitrBlock(status, pitr.value.target, pitr.value.date)));
    }

    method PatchRestore(n: string, o: L.OpRestore)
      requires n in opRestores
      modifies this`opRestores
      ensures L.RestoreStore(opRestores, nextRestoreUid) ==
                L.PutRestore(old(L.RestoreStore(opRestores, nextRestoreUid)), n, o)
    {
      if o.deleting && o.finalizers == {} {
        opRestores := opRestores - {n};
      } else {
        opRestores := opRestores[n := o];
      }
    }

    method ResolveRestoreSource(source: L.DataSource, listing: seq<BackupCR>) returns (r: L.Resolution)
      ensures r == L.Resolve(View(), source, listing)
    {
      match source {
        case FromBackup(ref) => r := L.ResolveBackup(crs, ref);
        case FromPointInTime(pitr) => r := ResolvePointInTime(pitr, listing);
        case FromElsewhere(_) => r := L.NotUsable(L.RestoreFailed);
      }
    }

    /** Creates the operator restore unless it exists, and takes ownership of it. */
    method SubmitRestore(n: string, restore: L.RestoreCR, base: string, pitr: Option<L.PitrBlock>)
      returns (exec: L.RestoreOutcome)
      modifies this`opRestores, this`nextRestoreUid
      ensures var s := old(L.RestoreStore(opRestores, nextRestoreUid));
              var o := L.RestoreWrite(s, n, restore, base, pitr);
              && L.RestoreStore(opRestores, nextRestoreUid) == (if o.Some? then L.PutRestore(s, n, o.value) else s)
              && exec == if o.Some? then L.RestoreExecOf(o.value.state, o.value.completedAt) else L.RestoreError
    {
      ghost var s := L.RestoreStore(opRestores, nextRestoreUid);
      var owner := L.Owner(L.RestoreKind, n, restore.uid);
      if n !in opRestores {
        opRestores := opRestores[n := L.OpRestore(nextRestoreUid, false, {}, Some(owner),
                                                   L.OpRestoreSpec(restore.instance, base, pitr), L.OpNew, None)];
        nextRestoreUid := nextRestoreUid + 1;
      }
      var opRestore := opRestores[n];
      var controller := L.SetController(opRestore.controller, owner);
      if controller.None? {
        return L.RestoreError;
      }
      PatchRestore(n, opRestore.(controller := controller));
      assert n !in s.ops ==> opRestores == s.ops[n := opRestore.(controller := controller)];
      exec := L.RestoreExecOf(opRestore.state, opRestore.completedAt);
    }

    method SyncRestore(n: string, listing: seq<BackupCR>) returns (exec: L.RestoreOutcome)
      requires n in restores
      modifies this`restores, this`opRestores, this`nextRestoreUid
      ensures (View(), exec) == L.SyncRestore(old(View()), n, listing)
    {
      var restore := restores[n];
      var source := ResolveRestoreSource(restore.source, listing);
      restores := restores[n := restore.(instanceLabel := restore.instance)];
      if source.NotUsable? {
        return L.RestoreExec(source.state, None);
      }
      exec := SubmitRestore(n, restore, source.base, source.pitr);
    }
  }
}
