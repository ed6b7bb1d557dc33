/** Concrete runs and inputs on which the code falls short of its documentation: for each of the exact
    conditions proved elsewhere, one case on its failing side. */
module Shortfalls {

  import opened Prelude
  import opened OperatorBackups
  import opened BaseSelection
  import opened Lifecycle
  import R = BinlogRuns
  import LR = LifecycleRuns
  import B = BackupTranslation
  import P = PmmResources
  import C = ClusterSync
  import CR = ClusterRuns

  // ------------------------------------------------------------- a target before the window

  function Reporting(b: OpBackup): BackupCR {
    BackupCR(b.name, 0, b.cluster, b.storage, "class", "", "", CrSucceeded, b.status.completedAt, None)
  }

  /** The Backup resources of the cast. */
  function CastListing(c: R.Cast): seq<BackupCR> {
    [Reporting(c.first), Reporting(c.marked), Reporting(c.last)]
  }

  lemma {:induction false} ReportingReports(b: OpBackup, list: seq<BackupCR>, S: set<OpBackup>)
    requires b in S && Reporting(b) in list && b.storage == "s3" && b.status.completedAt.Some?
    ensures Reported(b, list, "s3") && Known(Reporting(b), S)
  {
  }

  lemma {:induction false} CastInSync(c: R.Cast)
    requires R.Casting(c) && c.first.storage == c.marked.storage == c.last.storage == "s3"
    ensures InSync(CastListing(c), "s3", R.CastStates(c)[4].stream)
  {
    var list, S := CastListing(c), R.CastStates(c)[4].stream;
    assert S == {c.first, c.marked, c.last};
    assert list[0] == Reporting(c.first) && list[1] == Reporting(c.marked) && list[2] == Reporting(c.last);
    ReportingReports(c.first, list, S);
    ReportingReports(c.marked, list, S);
    ReportingReports(c.last, list, S);
  }

  lemma {:induction false} CastWindow(c: R.Cast) returns (w: Window)
    requires R.Casting(c)
    ensures R.Published(w, R.CastStates(c)[4]) && w.state == Available && w.earliest == Some(40)
  {
    var bs := [c.first, c.marked, c.last];
    assert bs[..2] == [c.first, c.marked];
    assert LastMarked(bs) == 1;
    assert bs[0] == c.first && bs[1] == c.marked && bs[2] == c.last;
    assert R.Lists(bs, R.CastStates(c)[4].stream);
    w := WindowOf(bs);
  }

  /** After a run of the operator, with every backup reported: a target after a gap began and before the
      window gets the marked backup as its base, and its replay meets the gap. */
  lemma {:induction false} TargetBeforeWindowExample() returns (c: R.Cast, list: seq<BackupCR>, d: Time, w: Window)
    ensures R.Published(w, R.CastStates(c)[4]) && w.earliest.Some? && d < w.earliest.value
    ensures R.Casting(c) && R.IsRun(R.CastStates(c), R.CastSteps(c))
    ensures InSync(list, "s3", R.CastStates(c)[4].stream)
    ensures var best := Best(list, "s3", Some(d));
            && best == Some(Reporting(c.marked)) && !CleanBase(best, R.CastStates(c)[4].stream)
            && !ReplayClear(At(c.marked), d, R.CastStates(c)[4])
  {
    c, w := R.OutOfOrderDeletionExample();
    w := CastWindow(c);
    CastInSync(c);
    list, d := CastListing(c), 25;
    assert list[..2] == [Reporting(c.first), Reporting(c.marked)] && list[..2][..1] == [Reporting(c.first)];
    assert Best([Reporting(c.first)], "s3", Some(d)) == Some(Reporting(c.first));
    assert R.SPANNED_GAP in R.CastStates(c)[4].gaps;
  }

  // ------------------------------------------------------------------ backups and restores

  function EmptyWorld(): World {
    World(map[], 0, Store(map[], map[], 0), map[], RestoreStore(map[], 0), map[],
          map["db" := InstanceInfo("percona-xtradb-cluster", Some("class"))])
  }

  function Conf(retained: set<string>): LR.Config {
    LR.Config(_ => seq(40, _ => '0'), "ns", retained)
  }

  lemma {:induction false} ThreeSteps(
    c: LR.Config, w0: World, e0: LR.Event, w1: World, e1: LR.Event, w2: World, e2: LR.Event, w3: World)
    requires LR.Steps(c, w0, e0, w1) && LR.Steps(c, w1, e1, w2) && LR.Steps(c, w2, e2, w3)
    ensures LR.IsRun(c, [w0, w1, w2, w3], [e0, e1, e2])
  {
  }

  lemma {:induction false} FourSteps(
    c: LR.Config, w0: World, e0: LR.Event, w1: World, e1: LR.Event, w2: World, e2: LR.Event, w3: World,
    e3: LR.Event, w4: World)
    requires LR.Steps(c, w0, e0, w1) && LR.Steps(c, w1, e1, w2) && LR.Steps(c, w2, e2, w3) && LR.Steps(c, w3, e3, w4)
    ensures LR.IsRun(c, [w0, w1, w2, w3, w4], [e0, e1, e2, e3])
  {
  }

  /** A backup the operator takes by schedule, without scheduler name and ancestor. */
  function Cron(finalizers: set<string>): OpObject {
    var body := OpBackup("b", "db", "s3", OpStatus(New, None, None, [], ""));
    OpObject(0, false, finalizers, None, "", "cron", "", body, false, false)
  }

  /** A cron backup without scheduler name and ancestor is mirrored without a schedule name, and the next
      SyncBackup call takes it over: from then on, deleting it deletes its data. */
  lemma {:induction false} MirroredWithoutScheduleExample() returns (worlds: seq<World>, evs: seq<LR.Event>)
    ensures LR.IsRun(Conf({}), worlds, evs) && |evs| == 3 && worlds[0] == EmptyWorld()
    ensures evs[0] == LR.OnBackup("b", LR.CronBackup(Cron({})))
    ensures && LR.MirroredBy(Conf({}), worlds[1], evs[1], "b") && "b" in worlds[2].crs
            && worlds[2].crs["b"].scheduleName == ""
    ensures LR.Adopts(Conf({}), worlds[2], evs[2], "b")
    ensures "b" in worlds[3].store.ops && DELETE_DATA in worlds[3].store.ops["b"].finalizers
  {
    var c, w0 := Conf({}), EmptyWorld();
    evs := [LR.OnBackup("b", LR.CronBackup(Cron({}))), LR.OnResources(LR.MirrorCall("b")),
            LR.OnBackup("b", LR.SyncBackupCall)];
    var w1 := LR.Apply(c, w0, evs[0]);
    var w2 := LR.Apply(c, w1, evs[1]);
    var w3 := LR.Apply(c, w2, evs[2]);
    worlds := [w0, w1, w2, w3];
    MirroredWithoutScheduleExactly(c.sha1, c.namespace, w1, "b");
    ThreeSteps(c, w0, evs[0], w1, evs[1], w2, evs[2], w3);
  }

  /** A backup that the operator takes by schedule, with the finalizer that deletes its data, is mirrored,
      and its Backup's policy is Retain: schedule retention still deletes the data. */
  lemma {:induction false} RetainedDataLostExample() returns (worlds: seq<World>, evs: seq<LR.Event>)
    ensures LR.IsRun(Conf({"b"}), worlds, evs) && |evs| == 4 && worlds[0] == EmptyWorld()
    ensures "b" in worlds[2].crs && worlds[2].crs["b"].scheduleName == "hourly" && LR.DataKept(worlds[2].store, "b")
    ensures evs[2] == LR.OnBackup("b", LR.RetentionDelete) && "b" in worlds[4].crs
    ensures 0 in worlds[4].store.tombs && worlds[4].store.tombs[0].name == "b" && worlds[4].store.tombs[0].dataDeleted
  {
    var c, w0, o := Conf({"b"}), EmptyWorld(), Cron({DELETE_DATA}).(schedulerName := "hourly");
    evs := [LR.OnBackup("b", LR.CronBackup(o)), LR.OnResources(LR.MirrorCall("b")),
            LR.OnBackup("b", LR.RetentionDelete), LR.OnBackup("b", LR.ClearFinalizer(DELETE_DATA))];
    var w1 := LR.Apply(c, w0, evs[0]);
    MirrorsExactly(c.sha1, c.namespace, w1, "b");
    var w2 := LR.Apply(c, w1, evs[1]);
    var w3 := LR.Apply(c, w2, evs[2]);
    var w4 := LR.Apply(c, w3, evs[3]);
    worlds := [w0, w1, w2, w3, w4];
    FourSteps(c, w0, evs[0], w1, evs[1], w2, evs[2], w3, evs[3], w4);
  }

  /** The operator is restoring from Backup "b". */
  function Restoring(): World {
    var backup := BackupCR("b", 0, "db", "s3", "class", "", "", CrSucceeded, Some(10), None);
    var restore := RestoreCR(0, "db", FromBackup(Some("b")), "db", RestoreRunning, None);
    var owner, spec := Owner(RestoreKind, "r", 0), OpRestoreSpec("db", "b", None);
    var op := OpRestore(0, false, {}, Some(owner), spec, OpRestoring, None);
    EmptyWorld().(crs := map["b" := backup], restores := map["r" := restore],
                  restoreStore := RestoreStore(map["r" := op], 1))
  }

  /** A Restore whose Backup is removed while it runs is reported Pending, not Succeeded, by the first call
      after the operator has finished it. */
  lemma {:induction false} HiddenRestoreExample() returns (worlds: seq<World>, evs: seq<LR.Event>)
    ensures LR.IsRun(Conf({}), worlds, evs) && |evs| == 3 && worlds[0] == Restoring()
    ensures evs[0] == LR.OnResources(LR.ForgetBackup("b"))
    ensures evs[1] == LR.OnRestore("r", LR.ReportRestore(OpSucceeded, Some(20)))
    ensures evs[2].OnRestore? && evs[2].n == "r" && evs[2].rstep.SyncRestoreCall?
    ensures "r" in worlds[3].restores && worlds[3].restores["r"].state == RestorePending
    ensures "r" in worlds[3].restoreStore.ops && worlds[3].restoreStore.ops["r"].state == OpSucceeded
  {
    var c, w0, none: seq<BackupCR> := Conf({}), Restoring(), [];
    evs := [LR.OnResources(LR.ForgetBackup("b")), LR.OnRestore("r", LR.ReportRestore(OpSucceeded, Some(20))),
            LR.OnRestore("r", LR.SyncRestoreCall(none))];
    var w1 := w0.(crs := w0.crs - {"b"});
    assert w1.crs == map[];
    var w2 := LR.ApplyRestore(w1, "r", evs[1].rstep);
    var w3 := UnresolvedSync(c, w2);
    worlds := [w0, w1, w2, w3];
    ThreeSteps(c, w0, evs[0], w1, evs[1], w2, evs[2], w3);
  }

  /** Without any Backup left, a call reports a Restore from one as Pending and leaves the operator's restore. */
  lemma {:induction false} UnresolvedSync(c: LR.Config, w: World) returns (w': World)
    requires w.crs == map[] && "r" in w.restores && w.restores["r"].source == FromBackup(Some("b"))
    ensures LR.Steps(c, w, LR.OnRestore("r", LR.SyncRestoreCall([])), w')
    ensures "r" in w'.restores && w'.restores["r"].state == RestorePending && w'.restoreStore == w.restoreStore
  {
    w' := LR.ApplyRestore(w, "r", LR.SyncRestoreCall([]));
  }

  // ---------------------------------------------------------------- Sync and seeding

  function Components(): map<string, C.Component> {
    map["engine" := C.Component("", None, None), "proxy" := C.Component("haproxy", None, None)]
  }

  function Catalog(): B.Catalog {
    B.Catalog(map[], [B.Bundle("bundle", map[])], map["backup" := "backup-image"], map[])
  }

  /** A Sync of an Instance with two components, bundle, one storage and one PMM binding. */
  function InputOf(
    backup: Option<B.BackupSpec>, source: Option<DataSource>, pmm: C.Requirement, backups: map<string, string>): C.Input
  {
    var storage := B.S3Storage(B.S3("bucket", "creds", "", "", None, None), true);
    var env := B.Env(B.ClassAccepts, Catalog(), "bundle", map["s3" := storage], "uid");
    var binding := C.Binding("pmm", true, "pmm", Some("host"), Some(None), "image", C.Token("fresh"));
    C.Input(C.Instance("db", Components(), backup, source), env, true, true, true, true, pmm, C.NotRequired,
            Some([binding]), backups)
  }

  /** An admitted Instance, its schedule retained by a count it does not set, makes Sync dereference nil. */
  lemma {:induction false} NilCountExample() returns (input: C.Input)
    ensures C.Admitted(input.instance) && C.BuildSpec(input) == C.Bad(C.BackupFault(B.NilCountDereference))
  {
    var schedule := B.Schedule("hourly", "0 * * * *", true, Some(B.Retention(B.ByCount, None)));
    var spec := B.BackupSpec(true, [B.Storage("s3", None, [schedule])]);
    input := InputOf(Some(spec), None, C.NotRequired, map[]);
    assert B.FirstNilSchedule([schedule], 0);
    assert B.FirstNilStorage(spec.storages, input.backupEnv, 0);
    B.NilCountExactly(spec, input.backupEnv);
    B.NoBadParameters(spec.storages);
    assert spec.storages[..0] == [];
    assert B.EnabledNames(spec.storages) == [];
    assert forall s :: s in spec.storages ==> !B.PitrBad(s);
  }

  function Before(origin: C.Secret): C.State {
    C.State(None, map[C.UsersSecret("source") := origin], map[])
  }

  /** A Sync of the Instance seeded from Backup "b", without PMM: it applies a cluster and, once the source
      resolves, copies the source's credentials unless the Instance has its own. */
  lemma {:induction false} SeededSync(st: C.State, backups: map<string, string>)
    requires st.restores == map[] && (st.cr.Some? ==> st.cr.value.state == C.Initializing)
    requires C.UsersSecret("db") in st.secrets ==> C.PMM_TOKEN_KEY !in st.secrets[C.UsersSecret("db")]
    ensures var r := C.SyncPXC(st, InputOf(None, Some(FromBackup(Some("b"))), C.NotRequired, backups));
            var source := if "b" in backups then backups["b"] else "";
            var after := C.EnsureCredentials(st.secrets, C.UsersSecret("db"), source);
            after.Some? ==> && r.1.fault.None? && r.0.cr.Some? && r.0.cr.value.state == C.Initializing
                            && r.0.secrets == after.value && r.0.restores == map[]
  {
    var target := C.UsersSecret("db");
    if target in st.secrets { assert st.secrets[target] - {C.PMM_TOKEN_KEY} == st.secrets[target]; }
    assert C.SyncToken(st.secrets, target, None) == st.secrets;
  }

  lemma {:induction false} ThreeReconciles(
    s0: C.State, e0: CR.Event, s1: C.State, e1: CR.Event, s2: C.State, e2: CR.Event, s3: C.State)
    requires CR.Steps(s0, e0, s1, "db") && CR.Steps(s1, e1, s2, "db") && CR.Steps(s2, e2, s3, "db")
    ensures CR.IsRun([s0, s1, s2, s3], [e0, e1, e2], "db")
  {
  }

  /** An Instance seeded from a Backup that shows up after the first Sync: the operator makes up the
      credentials, and the later Sync that resolves the source leaves them. */
  lemma {:induction false} UnresolvedSourceExample() returns (states: seq<C.State>, evs: seq<CR.Event>)
    ensures CR.IsRun(states, evs, "db") && |evs| == 3 && states[0] == Before(map["root" := "original"])
    ensures evs[1] == CR.InitSecret(map["root" := "made up"])
    ensures && evs[2].ReconcileCall? && evs[2].input.instance.dataSource.Some?
            && evs[2].input.backups == map["b" := "source"]
    ensures CR.NamesSource(evs[2].input.instance.dataSource.value, evs[2].input.backups, "source")
    ensures C.SyncPXC(states[2], evs[2].input).1.fault.None?
    ensures && C.UsersSecret("db") in states[3].secrets
            && states[3].secrets[C.UsersSecret("db")] == map["root" := "made up"]
    ensures C.UsersSecret("source") in states[3].secrets
            && states[3].secrets[C.UsersSecret("source")] == map["root" := "original"]
  {
    var source, s0 := Some(FromBackup(Some("b"))), Before(map["root" := "original"]);
    evs := [CR.ReconcileCall(InputOf(None, source, C.NotRequired, map[])), CR.InitSecret(map["root" := "made up"]),
            CR.ReconcileCall(InputOf(None, source, C.NotRequired, map["b" := "source"]))];
    SeededSync(s0, map[]);
    var s1 := C.SyncPXC(s0, evs[0].input).0;
    var s2 := s1.(secrets := s1.secrets[C.UsersSecret("db") := evs[1].data]);
    SeededSync(s2, map["b" := "source"]);
    var s3 := C.SyncPXC(s2, evs[2].input).0;
    states := [s0, s1, s2, s3];
    ThreeReconciles(s0, evs[0], s1, evs[1], s2, evs[2], s3);
  }

  /** First Syncs of an Instance seeded from one whose token is mirrored: without PMM the token is copied
      although spec.pmm is absent, with PMM the copied token is not the rendered one. */
  lemma {:induction false} SeededPairExample() returns (st: C.State, off: C.Input, on: C.Input)
    ensures off.pmm == C.NotRequired && on.pmm == C.Required && C.DecidePmm(on, st.cr).Use?
    ensures C.SyncPXC(st, off).1.fault.None? && C.SyncPXC(st, on).1.fault.None?
    ensures !CR.Shows(C.SyncPXC(st, off).0, "db", CR.Wanted(C.DecidePmm(off, st.cr)))
    ensures !CR.Shows(C.SyncPXC(st, on).0, "db", CR.Wanted(C.DecidePmm(on, st.cr)))
  {
    var source := Some(FromBackup(Some("b")));
    st := Before(map["root" := "original", C.PMM_TOKEN_KEY := "old"]);
    off := InputOf(None, source, C.NotRequired, map["b" := "source"]);
    on := InputOf(None, source, C.Required, map["b" := "source"]);
    CR.SeededPairExactly(st, off, "source");
    CR.SeededPairExactly(st, on, "source");
  }

  /** The Instance whose PMM is turned off while its exporter has no image. */
  function OffInput(): C.Input {
    InputOf(None, None, C.NotRequired, map[]).(metrics := C.Required)
  }

  lemma {:induction false} OffSyncTears(st: C.State, pmm: C.Pmm, token: string)
    requires st.restores == map[] && CR.Shows(st, "db", CR.On(pmm, token))
    ensures C.SyncPXC(st, OffInput()).1.fault == Some(C.ExporterImageMissing)
    ensures C.SyncPXC(st, OffInput()).0.cr == st.cr
    ensures forall a :: !CR.Shows(C.SyncPXC(st, OffInput()).0, "db", a)
  {
  }

  lemma {:induction false} OnSyncShows(st: C.State) returns (pmm: C.Pmm)
    requires st.restores == map[] && CR.Shows(st, "db", CR.Off)
    ensures var st' := C.SyncPXC(st, InputOf(None, None, C.Required, map[])).0;
            CR.Shows(st', "db", CR.On(pmm, "fresh")) && st'.restores == map[]
  {
    pmm := C.DecidePmm(InputOf(None, None, C.Required, map[]), st.cr).pmm;
  }

  /** An admitted Instance whose PMM is turned off while its exporter has no image: after a run that turned
      PMM on, the Sync that fails has removed the token, and spec.pmm stays on without it. */
  lemma {:induction false} TornPairExample() returns (states: seq<C.State>, evs: seq<CR.Event>, pmm: C.Pmm)
    ensures CR.IsRun(states, evs, "db") && |evs| == 2 && CR.Shows(states[0], "db", CR.Off)
    ensures CR.Shows(states[1], "db", CR.On(pmm, "fresh"))
    ensures evs[1].ReconcileCall? && C.Admitted(evs[1].input.instance) && evs[1].input.pmm == C.NotRequired
    ensures C.SyncPXC(states[1], evs[1].input).1.fault == Some(C.ExporterImageMissing)
    ensures states[2].cr.Some? && states[2].cr.value.spec.pmm == Some(pmm)
    ensures forall a :: !CR.Shows(states[2], "db", a)
  {
    var s0 := C.State(None, map[C.UsersSecret("db") := map["root" := "secret"]], map[]);
    evs := [CR.ReconcileCall(InputOf(None, None, C.Required, map[])), CR.ReconcileCall(OffInput())];
    pmm := OnSyncShows(s0);
    var s1 := C.SyncPXC(s0, evs[0].input).0;
    OffSyncTears(s1, pmm, "fresh");
    states := [s0, s1, C.SyncPXC(s1, OffInput()).0];
    TwoReconciles(s0, evs[0], s1, evs[1], states[2]);
  }

  lemma {:induction false} TwoReconciles(s0: C.State, e0: CR.Event, s1: C.State, e1: CR.Event, s2: C.State)
    requires CR.Steps(s0, e0, s1, "db") && CR.Steps(s1, e1, s2, "db")
    ensures CR.IsRun([s0, s1, s2], [e0, e1], "db")
  {
  }
}
