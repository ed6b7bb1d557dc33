/** A run that meets every hypothesis of StreamProjection's recovery theorem. */
module RecoveryExample {

  import opened Prelude
  import opened OperatorBackups
  import opened WindowRule
  import opened BaseSelection
  import opened Lifecycle
  import opened RecoveryEndToEnd
  import opened StreamProjection
  import R = BinlogRuns
  import LR = LifecycleRuns

  /** An on-demand Backup is created, succeeds and is reported, and a Restore to a later time is waiting. */
  function Begin(): World {
    var cr := BackupCR("b", 0, "db", "s3", "class", "", "", CrPending, None, None);
    var source := FromPointInTime(Some(PitrSource(ToDate, Some(15), None, "s3")));
    World(map["b" := cr], 1, Store(map[], map[], 0), map["r" := RestoreCR(0, "db", source, "", RestorePending, None)],
          RestoreStore(map[], 0), map["db" := {"s3"}], map[])
  }

  const DONE := OpStatus(Succeeded, Some(10), Some(20), [], "")
  const EXAMPLE := Target("db", "s3")

  function ExampleConfig(): LR.Config {
    LR.Config(_ => seq(40, _ => '0'), "ns", {})
  }

  /** The operator backup with this status is the only one, and it is its Backup's. */
  predicate Holds(w: World, status: OpStatus) {
    && w.store.ops.Keys == {"b"} && w.crs.Keys == {"b"} && w.restores == Begin().restores
    && w.restoreStore == Begin().restoreStore && w.store.ops["b"].body == OpBackup("b", "db", "s3", status)
    && !w.store.ops["b"].deleting && w.store.ops["b"].controller == Some(Owner(BackupKind, "b", 0))
    && w.crs["b"].name == "b" && w.crs["b"].uid == 0 && w.crs["b"].instance == "db" && w.crs["b"].storage == "s3"
    && w.crs["b"].scheduleName == ""
  }

  lemma {:induction false} ExampleCreates() returns (w: World)
    ensures LR.Steps(ExampleConfig(), Begin(), LR.OnBackup("b", LR.SyncBackupCall), w)
    ensures Holds(w, OpStatus(New, None, None, [], ""))
  {
    w := LR.Apply(ExampleConfig(), Begin(), LR.OnBackup("b", LR.SyncBackupCall));
  }

  lemma {:induction false} ExampleReports(w: World, status: OpStatus) returns (w': World)
    requires Holds(w, status)
    ensures LR.Steps(ExampleConfig(), w, LR.OnBackup("b", LR.ReportStatus(DONE)), w') && Holds(w', DONE)
  {
    w' := LR.Apply(ExampleConfig(), w, LR.OnBackup("b", LR.ReportStatus(DONE)));
  }

  lemma {:induction false} ExampleSyncs(w: World) returns (w': World)
    requires Holds(w, DONE)
    ensures LR.Steps(ExampleConfig(), w, LR.OnBackup("b", LR.SyncBackupCall), w') && Holds(w', DONE)
    ensures Syncs(ExampleConfig(), w, LR.OnBackup("b", LR.SyncBackupCall), "b")
  {
    w' := LR.Apply(ExampleConfig(), w, LR.OnBackup("b", LR.SyncBackupCall));
  }

  lemma {:induction false} ExampleWindow() returns (window: Window)
    ensures Publishes(window, [OpBackup("b", "db", "s3", DONE)], "db", "s3")
    ensures window.state == Available && window.earliest == Some(10) && window.latest == Some(20)
  {
    var all := [OpBackup("b", "db", "s3", DONE)];
    assert LastMarked(all) == -1 by { assert !Marked(all[0]) && all[..0] == []; }
    forall b
      ensures multiset(all)[b] == if Eligible(b, "db", "s3") then multiset(all)[b] else 0
    {
      assert b in multiset(all) ==> b == all[0];
    }
    assert MayCollect(all, all, "db", "s3");
    window := WindowOf(all);
  }

  const SYNC := LR.OnBackup("b", LR.SyncBackupCall)
  const REPORT := LR.OnBackup("b", LR.ReportStatus(DONE))

  function ExampleLog(w1: World, w2: World, w3: World): Log {
    var k, k' := Clock(0, 0, {}), Clock(20, 20, {});
    Log([Begin(), w1, w2, w3], [SYNC, REPORT, SYNC], [k, k, k', k'], [None, None, None])
  }

  ghost predicate ExampleRun(w1: World, w2: World, w3: World) {
    && LR.IsRun(ExampleConfig(), ExampleLog(w1, w2, w3).worlds, ExampleLog(w1, w2, w3).evs)
    && Holds(w1, OpStatus(New, None, None, [], "")) && Holds(w2, DONE) && Holds(w3, DONE)
    && Syncs(ExampleConfig(), w2, SYNC, "b")
  }

  lemma {:induction false} ThreeSteps(
    c: LR.Config, w0: World, e0: LR.Event, w1: World, e1: LR.Event, w2: World, e2: LR.Event, w3: World)
    requires LR.Steps(c, w0, e0, w1) && LR.Steps(c, w1, e1, w2) && LR.Steps(c, w2, e2, w3)
    ensures LR.IsRun(c, [w0, w1, w2, w3], [e0, e1, e2])
  {
  }

  lemma {:induction false} LogOfThree(c: LR.Config, log: Log, t: Target)
    requires |log.evs| == 3 && |log.worlds| == 4 && |log.clocks| == 4 && |log.found| == 3
    requires LR.IsRun(c, log.worlds, log.evs) && ObeysAt(log, t, 0) && ObeysAt(log, t, 1) && ObeysAt(log, t, 2)
    requires Named(log.worlds[0]) && R.Init(Project(log.worlds[0], log.clocks[0], t))
    ensures IsLog(c, log, t)
  {
    forall i | 0 <= i < 3
      ensures ObeysAt(log, t, i)
    {
      assert i == 0 || i == 1 || i == 2;
    }
  }

  lemma {:induction false} ExampleIsLog(w1: World, w2: World, w3: World)
    requires ExampleRun(w1, w2, w3)
    ensures IsLog(ExampleConfig(), ExampleLog(w1, w2, w3), EXAMPLE)
  {
    ExampleObeys(w1, w2, w3);
    LogOfThree(ExampleConfig(), ExampleLog(w1, w2, w3), EXAMPLE);
  }

  lemma {:induction false} ExampleIsSynced(w1: World, w2: World, w3: World)
    requires ExampleRun(w1, w2, w3)
    ensures var log := ExampleLog(w1, w2, w3);
            forall m :: Relevant(w3, m, EXAMPLE) ==> SyncedSince(ExampleConfig(), log.worlds, log.evs, 3, m)
  {
    var log := ExampleLog(w1, w2, w3);
    assert log.evs[2] == SYNC && log.worlds[2] == w2;
    assert CalmBetween(log.worlds, log.evs, 3, 3, "b");
    forall m | Relevant(w3, m, EXAMPLE)
      ensures m == "b"
    {
      assert m in w3.store.ops.Keys || m in w3.crs.Keys;
    }
  }

  lemma {:induction false} ExampleListings(w: World)
    requires Holds(w, DONE)
    ensures "b" in w.crs
    ensures ListsStored(w, [OpBackup("b", "db", "s3", DONE)]) && LR.IsListing(w, [w.crs["b"]], "db")
    ensures "r" in w.restores && "r" !in w.restoreStore.ops && Asks(w.restores["r"], "db", "s3", 15)
  {
    assert "b" in w.store.ops.Keys && "b" in w.crs.Keys;
    var all := [OpBackup("b", "db", "s3", DONE)];
    assert all[0] == w.store.ops["b"].body;
    assert [w.crs["b"]][0] == w.crs["b"];
  }

  lemma {:induction false} ExampleAligned(w1: World, w2: World, w3: World)
    ensures StaysAligned(ExampleLog(w1, w2, w3))
  {
  }

  lemma {:induction false} ExampleIsSyncedUp(w1: World, w2: World, w3: World)
    requires ExampleRun(w1, w2, w3)
    ensures SyncedUp(ExampleConfig(), ExampleLog(w1, w2, w3), EXAMPLE, 3)
  {
    ExampleIsLog(w1, w2, w3);
    ExampleIsSynced(w1, w2, w3);
    ExampleAligned(w1, w2, w3);
  }

  lemma {:induction false} ExampleBuilds() returns (w1: World, w2: World, w3: World)
    ensures ExampleRun(w1, w2, w3)
  {
    w1 := ExampleCreates();
    w2 := ExampleReports(w1, OpStatus(New, None, None, [], ""));
    w3 := ExampleSyncs(w2);
    ThreeSteps(ExampleConfig(), Begin(), SYNC, w1, REPORT, w2, SYNC, w3);
  }

  /** The theorem's hypotheses are met by a run that starts without any operator backup: one is created,
      succeeds and is reported, and a Restore to a time inside the published window waits. */
  lemma {:induction false} RecoveryRun() returns (log: Log, window: Window, all: seq<OpBackup>, listing: seq<BackupCR>)
    ensures |log.worlds| == 4 && log.worlds[0] == Begin() && SyncedUp(ExampleConfig(), log, EXAMPLE, 3)
    ensures ListsStored(log.worlds[3], all) && LR.IsListing(log.worlds[3], listing, "db")
    ensures Publishes(window, all, "db", "s3") && window.state == Available
    ensures window.earliest == Some(10) && window.latest == Some(20)
    ensures && "r" in log.worlds[3].restores && "r" !in log.worlds[3].restoreStore.ops
            && Asks(log.worlds[3].restores["r"], "db", "s3", 15)
  {
    var w1, w2, w3 := ExampleBuilds();
    ExampleIsSyncedUp(w1, w2, w3);
    window := ExampleWindow();
    ExampleListings(w3);
    log, all, listing := ExampleLog(w1, w2, w3), [OpBackup("b", "db", "s3", DONE)], [w3.crs["b"]];
  }

  lemma {:induction false} ExampleObeys(w1: World, w2: World, w3: World)
    requires Holds(w1, OpStatus(New, None, None, [], "")) && Holds(w2, DONE) && Holds(w3, DONE)
    ensures ObeysAt(ExampleLog(w1, w2, w3), EXAMPLE, 0) && ObeysAt(ExampleLog(w1, w2, w3), EXAMPLE, 1)
    ensures ObeysAt(ExampleLog(w1, w2, w3), EXAMPLE, 2) && R.Init(Project(Begin(), Clock(0, 0, {}), EXAMPLE))
  {
    assert Stream(Begin(), EXAMPLE) == {};
    assert !Marked(OpBackup("b", "db", "s3", DONE));
  }
}
