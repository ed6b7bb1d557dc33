/** The interleavings of LifecycleRuns and the operator of BinlogRuns as one machine: a run whose operator
    keeps the rules stated in internal/provider/backup_status.go:88-113 is, seen through one stream, a run of
    BinlogRuns, and the recovery theorems hold of its states. */
module StreamProjection {

  import opened Prelude
  import opened OperatorBackups
  import opened WindowRule
  import opened BaseSelection
  import opened Lifecycle
  import opened RecoveryEndToEnd
  import R = BinlogRuns
  import LR = LifecycleRuns

  /** What a world does not store: the time, how far binlogs were collected, and the gaps seen so far. */
  datatype Clock = Clock(now: Time, collected: Time, gaps: set<R.Gap>)

  /** The stream under study. */
  datatype Target = Target(cluster: string, storage: string)

  /** The stream's backup of this name. */
  function Member(w: World, n: string, t: Target): Option<OpBackup> {
    if n in w.store.ops && Eligible(w.store.ops[n].body, t.cluster, t.storage) then Some(w.store.ops[n].body) else None
  }

  ghost function Stream(w: World, t: Target): set<OpBackup> {
    set n | n in w.store.ops && Eligible(w.store.ops[n].body, t.cluster, t.storage) :: w.store.ops[n].body
  }

  ghost function Project(w: World, k: Clock, t: Target): R.State {
    R.State(k.now, k.collected, Stream(w, t), k.gaps)
  }

  /** Every operator backup knows its own name. */
  ghost predicate Named(w: World) {
    forall n :: n in w.store.ops ==> w.store.ops[n].body.name == n
  }

  // ------------------------------------------------------------------- the operator's rules

  /** A status write: a backup succeeds once, unmarked, at the present; afterwards it stays so, its time and
      its marks stay, a new mark comes with a gap; and it promises no end beyond what was collected. */
  ghost predicate WritesStatus(
    was: Option<OpBackup>, now: Option<OpBackup>, k: Clock, k': Clock, found: Option<R.Gap>)
  {
    && (was.None? && now.Some? ==>
          now.value.status.completedAt.Some? && k.now < At(now.value) <= k'.now && !Marked(now.value))
    && (was.Some? ==>
          && now.Some? && now.value.status.completedAt == was.value.status.completedAt
          && (Marked(was.value) ==> Marked(now.value))
          && (Marked(now.value) && !Marked(was.value) ==> found.Some?))
    && (now.Some? && now != was ==> R.EndKnown(now.value, k'.collected))
  }

  /** A detected gap marks the newest backup of the stream in its status; without any backup it marks none. */
  ghost predicate Detects(w: World, ev: LR.Event, w': World, k': Clock, g: R.Gap, t: Target) {
    && g.lo < g.hi <= g.seen == k'.now
    && if Stream(w, t) == {} then Stream(w', t) == {} && g.mark == None
       else
         && ev.OnBackup? && ev.step.ReportStatus?
         && Member(w, ev.n, t).Some? && Newest(Member(w, ev.n, t).value, Stream(w, t))
         && Member(w', ev.n, t).Some? && Marked(Member(w', ev.n, t).value)
         && g.mark == Some(At(Member(w, ev.n, t).value))
  }

  /** The operator's part of a step, on this stream: time passes; a scheduled backup starts unfinished;
      statuses and detections as above; and whoever removes a backup of the stream keeps the guard. */
  ghost predicate Obeys(
    w: World, ev: LR.Event, w': World, k: Clock, k': Clock, found: Option<R.Gap>, t: Target)
  {
    && k.now <= k'.now && k.collected <= k'.collected
    && k'.gaps == (if found.Some? then k.gaps + {found.value} else k.gaps)
    && (found.Some? ==> Detects(w, ev, w', k', found.value, t))
    && (ev.OnBackup? ==>
          && (ev.step.CronBackup? ==>
                ev.step.started.body.name == ev.n && !Eligible(ev.step.started.body, t.cluster, t.storage))
          && (ev.step.ReportStatus? ==> WritesStatus(Member(w, ev.n, t), Member(w', ev.n, t), k, k', found))
          && (Removes(w, ev.n, w', t) ==> R.SafeDelete(Member(w, ev.n, t).value, Stream(w, t))))
  }

  ghost predicate Removes(w: World, n: string, w': World, t: Target) {
    Member(w, n, t).Some? && Member(w', n, t).None?
  }

  // -------------------------------------------------------------------- one step projects

  /** The step of the stream that a step of the world is. */
  ghost function ProjectStep(w: World, ev: LR.Event, w': World, found: Option<R.Gap>, t: Target): R.Step {
    if found.Some? then R.Detect(found.value)
    else if !ev.OnBackup? then R.Idle
    else
      var was, now := Member(w, ev.n, t), Member(w', ev.n, t);
      if was == now then R.Idle
      else if was.None? then R.Complete(now.value)
      else if now.None? then R.Delete(was.value)
      else R.Stamp(was.value, now.value.status)
  }

  lemma {:induction false} OthersStay(c: LR.Config, w: World, ev: LR.Event, w': World, n: string)
    requires LR.Steps(c, w, ev, w') && !(ev.OnBackup? && ev.n == n)
    ensures n in w'.store.ops <==> n in w.store.ops
    ensures n in w.store.ops ==> w'.store.ops[n] == w.store.ops[n]
  {
    LR.StoreStep(c, w, ev, w');
  }

  /** Only status reports and new scheduled backups bring a body; other steps keep it, create one that is not
      finished, or remove the object. */
  lemma {:induction false} BodyStep(c: LR.Config, w: World, n: string, step: LR.BackupStep, w': World)
    requires LR.Steps(c, w, LR.OnBackup(n, step), w')
    ensures n in w'.store.ops ==>
              if n in w.store.ops
              then && w'.store.ops[n].body == w.store.ops[n].body.(status := w'.store.ops[n].body.status)
                   && (!step.ReportStatus? ==> w'.store.ops[n].body == w.store.ops[n].body)
              else if step.CronBackup? then w'.store.ops[n] == step.started
              else w'.store.ops[n].body.name == n && w'.store.ops[n].body.status.state == New
  {
    LR.StoreStep(c, w, LR.OnBackup(n, step), w');
  }

  lemma {:induction false} NamedStep(
    c: LR.Config, w: World, ev: LR.Event, w': World, k: Clock, k': Clock, found: Option<R.Gap>, t: Target)
    requires LR.Steps(c, w, ev, w') && Named(w) && Obeys(w, ev, w', k, k', found, t)
    ensures Named(w')
  {
    forall n | n in w'.store.ops
      ensures w'.store.ops[n].body.name == n
    {
      if ev.OnBackup? && ev.n == n { BodyStep(c, w, n, ev.step, w'); } else { OthersStay(c, w, ev, w', n); }
    }
  }

  /** How the stream's backup of a name changes. */
  lemma {:induction false} MemberStep(
    c: LR.Config, w: World, n: string, step: LR.BackupStep, w': World, t: Target)
    requires LR.Steps(c, w, LR.OnBackup(n, step), w')
    requires step.CronBackup? ==> !Eligible(step.started.body, t.cluster, t.storage)
    ensures var was, now := Member(w, n, t), Member(w', n, t);
            && (!step.ReportStatus? ==> now.None? || now == was)
            && (was.Some? && now.Some? ==> now.value == R.WithStatus(was.value, now.value.status))
  {
    BodyStep(c, w, n, step, w');
  }

  ghost function AsSet(o: Option<OpBackup>): set<OpBackup> {
    if o.Some? then {o.value} else {}
  }

  /** Worlds that differ in one name differ there in the stream. */
  lemma {:induction false} StreamChanges(w: World, w': World, n: string, t: Target)
    requires Named(w) && Named(w') && forall m :: m != n ==> Member(w', m, t) == Member(w, m, t)
    ensures Stream(w', t) == Stream(w, t) - AsSet(Member(w, n, t)) + AsSet(Member(w', n, t))
  {
    forall b
      ensures b in Stream(w, t) <==> Member(w, b.name, t) == Some(b)
      ensures b in Stream(w', t) <==> Member(w', b.name, t) == Some(b)
    {
      InStream(w, b, t);
      InStream(w', b, t);
    }
  }

  /** A step changes the stream at one name. */
  lemma {:induction false} StreamStep(c: LR.Config, w: World, n: string, step: LR.BackupStep, w': World, t: Target)
    requires LR.Steps(c, w, LR.OnBackup(n, step), w') && Named(w) && Named(w')
    ensures Stream(w', t) == Stream(w, t) - AsSet(Member(w, n, t)) + AsSet(Member(w', n, t))
  {
    forall m | m != n
      ensures Member(w', m, t) == Member(w, m, t)
    {
      OthersStay(c, w, LR.OnBackup(n, step), w', m);
    }
    StreamChanges(w, w', n, t);
  }

  lemma {:induction false} InStream(w: World, b: OpBackup, t: Target)
    requires Named(w)
    ensures b in Stream(w, t) <==> Member(w, b.name, t) == Some(b)
  {
  }

  lemma {:induction false} StreamCompleted(w: World, t: Target)
    ensures AllCompleted(Stream(w, t))
  {
  }

  /** How a step changes the stream and its backup of one name; the first half of what a guarded step needs. */
  ghost predicate Moves(w: World, ev: LR.Event, w': World, t: Target) {
    if ev.OnBackup? then
      var was, now := Member(w, ev.n, t), Member(w', ev.n, t);
      && Stream(w', t) == Stream(w, t) - AsSet(was) + AsSet(now)
      && (was.Some? ==> was.value in Stream(w, t))
      && (!ev.step.ReportStatus? ==> now.None? || now == was)
      && (was.Some? && now.Some? ==> now.value == R.WithStatus(was.value, now.value.status))
    else Stream(w', t) == Stream(w, t)
  }

  lemma {:induction false} StepMoves(
    c: LR.Config, w: World, ev: LR.Event, w': World, k: Clock, k': Clock, found: Option<R.Gap>, t: Target)
    requires LR.Steps(c, w, ev, w') && Named(w) && Obeys(w, ev, w', k, k', found, t)
    ensures Named(w') && Moves(w, ev, w', t)
  {
    NamedStep(c, w, ev, w', k, k', found, t);
    if ev.OnBackup? {
      StreamStep(c, w, ev.n, ev.step, w', t);
      MemberStep(c, w, ev.n, ev.step, w', t);
      var was := Member(w, ev.n, t);
      if was.Some? { InStream(w, was.value, t); }
    } else {
      LR.StoreStep(c, w, ev, w');
    }
  }

  /** The second half: moves under the operator's rules are guarded steps. */
  lemma {:induction false} MovesProject(
    w: World, ev: LR.Event, w': World, k: Clock, k': Clock, found: Option<R.Gap>, t: Target)
    requires Moves(w, ev, w', t) && Obeys(w, ev, w', k, k', found, t)
    requires R.WellFormed(Project(w, k, t))
    ensures R.GuardedNext(Project(w, k, t), ProjectStep(w, ev, w', found, t), Project(w', k', t))
  {
    if found.Some? && Stream(w, t) != {} {
      var was, now := Member(w, ev.n, t), Member(w', ev.n, t);
      assert R.MarksNewest(Project(w, k, t), Project(w', k', t), was.value, now.value.status);
    }
  }

  /** A step of the world whose operator keeps the rules is a guarded step of the stream. */
  lemma {:induction false} StepProjects(
    c: LR.Config, w: World, ev: LR.Event, w': World, k: Clock, k': Clock, found: Option<R.Gap>, t: Target)
    requires LR.Steps(c, w, ev, w') && Named(w) && Obeys(w, ev, w', k, k', found, t)
    ensures Named(w') && R.WellFormed(Project(w, k, t))
    ensures R.GuardedNext(Project(w, k, t), ProjectStep(w, ev, w', found, t), Project(w', k', t))
  {
    StepMoves(c, w, ev, w', k, k', found, t);
    StreamCompleted(w, t);
    MovesProject(w, ev, w', k, k', found, t);
  }

  // ------------------------------------------------------------------------- runs project

  /** A run of the world with a clock per state and the gap each step detected, if any. */
  datatype Log = Log(worlds: seq<World>, evs: seq<LR.Event>, clocks: seq<Clock>, found: seq<Option<R.Gap>>)

  ghost predicate ObeysAt(log: Log, t: Target, i: nat)
    requires i < |log.evs| == |log.found| && |log.clocks| == |log.worlds| == |log.evs| + 1
  {
    Obeys(log.worlds[i], log.evs[i], log.worlds[i + 1], log.clocks[i], log.clocks[i + 1], log.found[i], t)
  }

  ghost predicate IsLog(c: LR.Config, log: Log, t: Target) {
    && LR.IsRun(c, log.worlds, log.evs) && |log.clocks| == |log.worlds| && |log.found| == |log.evs|
    && Named(log.worlds[0]) && R.Init(Project(log.worlds[0], log.clocks[0], t))
    && forall i {:trigger log.evs[i]} :: 0 <= i < |log.evs| ==> ObeysAt(log, t, i)
  }

  ghost function StatesOf(log: Log, t: Target): (states: seq<R.State>)
    requires |log.clocks| == |log.worlds|
    ensures |states| == |log.worlds|
  {
    seq(|log.worlds|, i requires 0 <= i < |log.worlds| => Project(log.worlds[i], log.clocks[i], t))
  }

  ghost function StepsOf(log: Log, t: Target): (steps: seq<R.Step>)
    requires |log.found| == |log.evs| && |log.worlds| == |log.evs| + 1
    ensures |steps| == |log.evs|
  {
    seq(|log.evs|, i requires 0 <= i < |log.evs| =>
      ProjectStep(log.worlds[i], log.evs[i], log.worlds[i + 1], log.found[i], t))
  }

  lemma {:induction false} NamedOverRun(c: LR.Config, log: Log, t: Target, i: nat)
    requires IsLog(c, log, t) && i < |log.worlds|
    ensures Named(log.worlds[i])
  {
    if i > 0 {
      NamedOverRun(c, log, t, i - 1);
      NamedStep(c, log.worlds[i - 1], log.evs[i - 1], log.worlds[i], log.clocks[i - 1], log.clocks[i],
                log.found[i - 1], t);
    }
  }

  lemma {:induction false} LogAt(c: LR.Config, log: Log, t: Target, i: nat)
    requires IsLog(c, log, t) && i < |log.evs|
    ensures LR.Steps(c, log.worlds[i], log.evs[i], log.worlds[i + 1]) && ObeysAt(log, t, i)
  {
  }

  lemma {:induction false} GuardedAt(c: LR.Config, log: Log, t: Target, i: nat)
    requires IsLog(c, log, t) && i < |log.evs|
    ensures R.WellFormed(Project(log.worlds[i], log.clocks[i], t))
    ensures R.GuardedNext(Project(log.worlds[i], log.clocks[i], t),
                          ProjectStep(log.worlds[i], log.evs[i], log.worlds[i + 1], log.found[i], t),
                          Project(log.worlds[i + 1], log.clocks[i + 1], t))
  {
    NamedOverRun(c, log, t, i);
    LogAt(c, log, t, i);
    StepProjects(c, log.worlds[i], log.evs[i], log.worlds[i + 1], log.clocks[i], log.clocks[i + 1], log.found[i], t);
  }

  lemma {:induction false} ProjectedAt(log: Log, t: Target, i: nat)
    requires |log.clocks| == |log.worlds| == |log.evs| + 1 && |log.found| == |log.evs| && i < |log.evs|
    ensures StatesOf(log, t)[i] == Project(log.worlds[i], log.clocks[i], t)
    ensures StatesOf(log, t)[i + 1] == Project(log.worlds[i + 1], log.clocks[i + 1], t)
    ensures StepsOf(log, t)[i] == ProjectStep(log.worlds[i], log.evs[i], log.worlds[i + 1], log.found[i], t)
  {
  }

  lemma {:induction false} StepAtProjects(c: LR.Config, log: Log, t: Target, i: nat)
    requires IsLog(c, log, t) && i < |log.evs|
    ensures R.WellFormed(StatesOf(log, t)[i])
    ensures R.GuardedNext(StatesOf(log, t)[i], StepsOf(log, t)[i], StatesOf(log, t)[i + 1])
  {
    GuardedAt(c, log, t, i);
    ProjectedAt(log, t, i);
  }

  lemma {:induction false} WorldProjects(c: LR.Config, log: Log, t: Target, i: nat)
    requires IsLog(c, log, t) && i < |log.worlds|
    ensures R.WellFormed(StatesOf(log, t)[i])
    ensures SameStream(StatesOf(log, t)[i], log.worlds[i], t.cluster, t.storage)
  {
    NamedOverRun(c, log, t, i);
    StreamCompleted(log.worlds[i], t);
  }

  /** Every run of the world whose operator keeps its rules is, seen through the stream, a run of the
      operator machine, and its states are the streams the API server stores. */
  lemma {:induction false} RunProjects(c: LR.Config, log: Log, t: Target)
    requires IsLog(c, log, t)
    ensures R.IsRun(StatesOf(log, t), StepsOf(log, t))
    ensures forall i :: 0 <= i < |log.worlds| ==> SameStream(StatesOf(log, t)[i], log.worlds[i], t.cluster, t.storage)
  {
    var states, steps := StatesOf(log, t), StepsOf(log, t);
    forall i | 0 <= i < |states|
      ensures R.WellFormed(states[i]) && SameStream(states[i], log.worlds[i], t.cluster, t.storage)
    {
      WorldProjects(c, log, t, i);
    }
    forall i | 0 <= i < |steps|
      ensures R.GuardedNext(states[i], steps[i], states[i + 1])
    {
      StepAtProjects(c, log, t, i);
    }
  }

  // ----------------------------------------------------------------------- when resources settle

  /** The Backup resource reports its operator backup, or Pending without one. */
  ghost predicate Current(w: World, n: string) {
    && n in w.crs
    && Exec(w.crs[n].state, w.crs[n].completedAt) ==
       if n in w.store.ops then ExecOf(w.store.ops[n].body.status) else Exec(CrPending, None)
  }

  /** A SyncBackup call that succeeds and does not remove the operator backup. */
  ghost predicate Syncs(c: LR.Config, w: World, ev: LR.Event, n: string) {
    && ev == LR.OnBackup(n, LR.SyncBackupCall) && n in w.crs
    && var r := SyncBackup(w, n, n in c.retained);
       r.1.Exec? && (n in w.store.ops ==> n in r.0.store.ops)
  }

  /** The step neither writes the operator backup's status, creates or removes it, nor removes its resource. */
  ghost predicate Undisturbed(w: World, ev: LR.Event, w': World, n: string) {
    && (n in w.store.ops <==> n in w'.store.ops)
    && (n in w.store.ops && n in w'.store.ops ==> w.store.ops[n].body.status == w'.store.ops[n].body.status)
    && ev != LR.OnResources(LR.ForgetBackup(n))
  }

  lemma {:induction false} SyncIsCurrent(c: LR.Config, w: World, ev: LR.Event, w': World, n: string)
    requires LR.Steps(c, w, ev, w') && Syncs(c, w, ev, n)
    ensures Current(w', n)
  {
  }

  lemma {:induction false} CurrentSync(c: LR.Config, w: World, w': World, n: string)
    requires LR.Steps(c, w, LR.OnBackup(n, LR.SyncBackupCall), w') && Current(w, n)
    requires Undisturbed(w, LR.OnBackup(n, LR.SyncBackupCall), w', n)
    ensures Current(w', n)
  {
    if SyncBackup(w, n, n in c.retained).1.Exec? {
      SyncIsCurrent(c, w, LR.OnBackup(n, LR.SyncBackupCall), w', n);
    }
  }

  lemma {:induction false} ResourceKept(c: LR.Config, w: World, ev: LR.Event, w': World, n: string)
    requires LR.Steps(c, w, ev, w') && n in w.crs && ev != LR.OnBackup(n, LR.SyncBackupCall)
    requires ev != LR.OnResources(LR.ForgetBackup(n))
    ensures n in w'.crs && w'.crs[n].state == w.crs[n].state && w'.crs[n].completedAt == w.crs[n].completedAt
  {
    if ev.OnRestore? { LR.RestoresFrame(w, ev.n, ev.rstep); }
  }

  lemma {:induction false} CurrentStep(c: LR.Config, w: World, ev: LR.Event, w': World, n: string)
    requires LR.Steps(c, w, ev, w') && Current(w, n) && Undisturbed(w, ev, w', n)
    ensures Current(w', n)
  {
    if ev == LR.OnBackup(n, LR.SyncBackupCall) {
      CurrentSync(c, w, w', n);
    } else {
      ResourceKept(c, w, ev, w', n);
    }
  }

  /** Some call has synced the Backup, and nothing has changed its operator backup's status since. */
  ghost predicate SyncedSince(c: LR.Config, worlds: seq<World>, evs: seq<LR.Event>, j: nat, n: string)
    requires |worlds| == |evs| + 1 && j < |worlds|
  {
    exists i {:trigger evs[i]} :: 0 <= i < j && Syncs(c, worlds[i], evs[i], n) && CalmBetween(worlds, evs, i + 1, j, n)
  }

  ghost predicate CalmBetween(worlds: seq<World>, evs: seq<LR.Event>, i: nat, j: nat, n: string)
    requires |worlds| == |evs| + 1 && j < |worlds|
  {
    forall k {:trigger evs[k]} :: i <= k < j ==> Undisturbed(worlds[k], evs[k], worlds[k + 1], n)
  }

  lemma {:induction false} CurrentWhileCalm(
    c: LR.Config, worlds: seq<World>, evs: seq<LR.Event>, i: nat, j: nat, n: string)
    requires LR.IsRun(c, worlds, evs) && i <= j < |worlds| && Current(worlds[i], n) && CalmBetween(worlds, evs, i, j, n)
    ensures Current(worlds[j], n)
    decreases j
  {
    if i < j {
      CurrentWhileCalm(c, worlds, evs, i, j - 1, n);
      CurrentStep(c, worlds[j - 1], evs[j - 1], worlds[j], n);
    }
  }

  lemma {:induction false} SyncedIsCurrent(c: LR.Config, worlds: seq<World>, evs: seq<LR.Event>, j: nat, n: string)
    requires LR.IsRun(c, worlds, evs) && j < |worlds| && SyncedSince(c, worlds, evs, j, n)
    ensures Current(worlds[j], n)
  {
    var i :| 0 <= i < j && Syncs(c, worlds[i], evs[i], n) && CalmBetween(worlds, evs, i + 1, j, n);
    SyncIsCurrent(c, worlds[i], evs[i], worlds[i + 1], n);
    CurrentWhileCalm(c, worlds, evs, i + 1, j, n);
  }

  /** Resources are stored under their own names, and name the cluster and storage of their operator backup. */
  ghost predicate Aligned(w: World) {
    && (forall n :: n in w.crs ==> w.crs[n].name == n)
    && (forall n :: n in w.crs && n in w.store.ops ==> Matches(w.crs[n], w.store.ops[n].body))
  }

  ghost predicate Matches(cr: BackupCR, b: OpBackup) {
    cr.instance == b.cluster && cr.storage == b.storage
  }

  /** Users do not point a resource away from its operator backup, and the operator reports the storage it
      was asked to use. */
  ghost predicate KeepsAligned(w: World, ev: LR.Event) {
    match ev
    case OnBackup(n, CronBackup(o)) => n in w.crs ==> Matches(w.crs[n], o.body)
    case OnResources(EditBackup(n, instance, storage, _)) =>
      n in w.store.ops ==> instance == w.store.ops[n].body.cluster && storage == w.store.ops[n].body.storage
    case OnResources(CreateBackup(n, cr)) => n in w.store.ops ==> Matches(cr, w.store.ops[n].body)
    case OnResources(MirrorCall(n)) =>
      n in w.store.ops ==> w.store.ops[n].body.status.storageName in {"", w.store.ops[n].body.storage}
    case _ => true
  }

  lemma {:induction false} BackupStepsKeepSpecs(c: LR.Config, w: World, n: string, step: LR.BackupStep)
    requires LR.BackupEnabled(w, n, step)
    ensures var w' := LR.ApplyBackup(c, w, n, step);
            && w'.crs.Keys == w.crs.Keys
            && forall m :: m in w.crs ==> && w'.crs[m].name == w.crs[m].name && w'.crs[m].instance == w.crs[m].instance
                                          && w'.crs[m].storage == w.crs[m].storage
  {
  }

  /** What SyncBackup creates names the cluster and storage of its Backup. */
  lemma {:induction false} CreatedMatches(c: LR.Config, w: World, n: string, step: LR.BackupStep, w': World)
    requires LR.Steps(c, w, LR.OnBackup(n, step), w') && n !in w.store.ops && n in w'.store.ops && !step.CronBackup?
    ensures n in w.crs && Matches(w.crs[n], w'.store.ops[n].body)
  {
    LR.StoreStep(c, w, LR.OnBackup(n, step), w');
  }

  lemma {:induction false} AlignedBackup(c: LR.Config, w: World, n: string, step: LR.BackupStep, w': World)
    requires LR.Steps(c, w, LR.OnBackup(n, step), w') && Aligned(w) && KeepsAligned(w, LR.OnBackup(n, step))
    ensures Aligned(w')
  {
    BackupStepsKeepSpecs(c, w, n, step);
    if n !in w.store.ops && n in w'.store.ops && !step.CronBackup? { CreatedMatches(c, w, n, step, w'); }
    BodyStep(c, w, n, step, w');
    forall m | m != n
      ensures m in w'.store.ops <==> m in w.store.ops
      ensures m in w.store.ops ==> w'.store.ops[m] == w.store.ops[m]
    {
      OthersStay(c, w, LR.OnBackup(n, step), w', m);
    }
  }

  lemma {:induction false} AlignedResource(c: LR.Config, w: World, step: LR.ResourceStep)
    requires LR.ResourceEnabled(w, step) && Aligned(w) && KeepsAligned(w, LR.OnResources(step))
    ensures Aligned(LR.ApplyResource(c, w, step))
  {
    LR.ResourcesFrame(c, w, step);
    if step.MirrorCall? { MirrorsExactly(c.sha1, c.namespace, w, step.n); }
  }

  lemma {:induction false} AlignedStep(c: LR.Config, w: World, ev: LR.Event, w': World)
    requires LR.Steps(c, w, ev, w') && Aligned(w) && KeepsAligned(w, ev)
    ensures Aligned(w')
  {
    match ev
    case OnBackup(n, step) => AlignedBackup(c, w, n, step, w');
    case OnRestore(n, rstep) => LR.RestoresFrame(w, n, rstep);
    case OnResources(res) => AlignedResource(c, w, res);
  }

  lemma {:induction false} AlignedOverRun(c: LR.Config, worlds: seq<World>, evs: seq<LR.Event>, j: nat)
    requires LR.IsRun(c, worlds, evs) && j < |worlds| && Aligned(worlds[0])
    requires forall i {:trigger evs[i]} :: 0 <= i < |evs| ==> KeepsAligned(worlds[i], evs[i])
    ensures Aligned(worlds[j])
  {
    if j > 0 {
      AlignedOverRun(c, worlds, evs, j - 1);
      AlignedStep(c, worlds[j - 1], evs[j - 1], worlds[j]);
    }
  }

  /** The names whose resource or operator backup matters to a restore from the stream. */
  ghost predicate Relevant(w: World, n: string, t: Target) {
    Member(w, n, t).Some? || (n in w.crs && w.crs[n].instance == t.cluster && Candidate(w.crs[n], t.storage, None))
  }

  /** The operator keeps its rules, resources stay aligned, and each relevant Backup was synced after the
      last change of its operator backup's status. */
  ghost predicate SyncedUp(c: LR.Config, log: Log, t: Target, j: nat)
    requires j < |log.worlds|
  {
    && IsLog(c, log, t) && StaysAligned(log)
    && forall n :: Relevant(log.worlds[j], n, t) ==> SyncedSince(c, log.worlds, log.evs, j, n)
  }

  ghost predicate StaysAligned(log: Log)
    requires |log.worlds| == |log.evs| + 1
  {
    && Aligned(log.worlds[0])
    && forall i {:trigger log.evs[i]} :: 0 <= i < |log.evs| ==> KeepsAligned(log.worlds[i], log.evs[i])
  }

  /** Resources have settled once every relevant Backup was synced after its last change. */
  lemma {:induction false} SyncedIsSettled(c: LR.Config, log: Log, t: Target, j: nat)
    requires j < |log.worlds| && SyncedUp(c, log, t, j)
    ensures Settled(log.worlds[j], t.cluster, t.storage)
  {
    AlignedOverRun(c, log.worlds, log.evs, j);
    NamedOverRun(c, log, t, j);
    forall n | Relevant(log.worlds[j], n, t)
      ensures Current(log.worlds[j], n)
    {
      SyncedIsCurrent(c, log.worlds, log.evs, j, n);
    }
    CurrentIsSettled(log.worlds[j], t);
  }

  lemma {:induction false} CurrentIsSettled(w: World, t: Target)
    requires Named(w) && Aligned(w) && forall n :: Relevant(w, n, t) ==> Current(w, n)
    ensures Settled(w, t.cluster, t.storage)
  {
    forall n | n in w.store.ops && Eligible(w.store.ops[n].body, t.cluster, t.storage)
      ensures LR.Reflects(w, n) && w.crs[n].instance == t.cluster && w.crs[n].storage == t.storage
    {
      assert Relevant(w, n, t);
    }
    forall n | n in w.crs && w.crs[n].instance == t.cluster && Candidate(w.crs[n], t.storage, None)
      ensures n in w.store.ops && Eligible(w.store.ops[n].body, t.cluster, t.storage) && LR.Reflects(w, n)
    {
      assert Relevant(w, n, t);
    }
  }

  /** Recovery over whole runs: whatever calls, operator steps, edits and deletions interleave, once every
      relevant Backup was synced after its last change, a Restore to a time inside the published window is
      served from inside the window, over no gap. */
  lemma {:induction false} OfferedTimeIsRestoredInEveryRun(
    c: LR.Config, log: Log, t: Target, j: nat, window: Window,
    all: seq<OpBackup>, listing: seq<BackupCR>, n: string, d: Time)
    requires j < |log.worlds| && SyncedUp(c, log, t, j)
    requires ListsStored(log.worlds[j], all) && LR.IsListing(log.worlds[j], listing, t.cluster)
    requires Publishes(window, all, t.cluster, t.storage) && window.state == Available
    requires window.earliest.Some? && window.latest.Some? && window.earliest.value <= d <= window.latest.value
    requires n in log.worlds[j].restores && n !in log.worlds[j].restoreStore.ops
    requires Asks(log.worlds[j].restores[n], t.cluster, t.storage, d)
    ensures Served(log.worlds[j], listing, n, t.cluster, t.storage, window.earliest.value, d,
                   Project(log.worlds[j], log.clocks[j], t))
  {
    RunProjects(c, log, t);
    SyncedIsSettled(c, log, t, j);
    OfferedTimeIsRestored(StatesOf(log, t), StepsOf(log, t), j, window, log.worlds[j], all, listing, n,
                          t.cluster, t.storage, d);
  }
}
