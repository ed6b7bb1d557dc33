/** Count-based retention works per schedule (internal/provider/backup_mirror.go:247-289), while gap marks
    work per stream: when the code's own retention opens the window onto a gap. */
module ScheduleRetention {

  import opened Prelude
  import opened OperatorBackups
  import opened WindowRule
  import opened BinlogRuns

  /** The backups of a stream taken by one schedule; `schedules` maps a backup's name to its schedule,
      on-demand backups have none. */
  ghost function TakenBy(S: set<OpBackup>, schedules: map<string, string>, schedule: string): set<OpBackup> {
    set b | b in S && b.name in schedules && schedules[b.name] == schedule
  }

  /** Taken on demand, or by another schedule than `b`. */
  ghost predicate Foreign(c: OpBackup, b: OpBackup, schedules: map<string, string>)
    requires b.name in schedules
  {
    c.name !in schedules || schedules[c.name] != schedules[b.name]
  }

  ghost predicate TooMany(S: set<OpBackup>, schedules: map<string, string>, schedule: string, keep: nat) {
    |TakenBy(S, schedules, schedule)| > keep
  }

  /** Retention with a count deletes the oldest backup of a schedule that has too many. */
  ghost predicate RetentionDeletes(b: OpBackup, S: set<OpBackup>, schedules: map<string, string>, keep: nat)
    requires AllCompleted(S)
  {
    && b in S && b.name in schedules && TooMany(S, schedules, schedules[b.name], keep)
    && forall c {:trigger Foreign(c, b, schedules)} :: c in S && !Foreign(c, b, schedules) ==> At(b) <= At(c)
  }

  /** The deletion is harmless: the backup is unmarked, a newer mark remains, or every older backup from
      outside its schedule is hidden behind another mark. */
  ghost predicate Harmless(b: OpBackup, S: set<OpBackup>, schedules: map<string, string>)
    requires AllCompleted(S) && b in S && b.name in schedules
  {
    || !Marked(b)
    || (exists m :: m in S && Marked(m) && At(b) < At(m))
    || (forall c :: c in S && Foreign(c, b, schedules) && At(c) < At(b) ==> Hidden(c, b, S))
  }

  /** Schedule retention keeps every mark's effect, and with it the window sound, exactly when harmless. */
  lemma {:induction false} RetentionSafeExactly(
    s: State, b: OpBackup, s': State, schedules: map<string, string>, keep: nat)
    requires Coherent(s) && AllKept(s) && Next(s, Delete(b), s') && RetentionDeletes(b, s.stream, schedules, keep)
    ensures WellFormed(s') && (AllKept(s') <==> Harmless(b, s.stream, schedules))
  {
    DeleteGuardIsExact(s, b, s');
    assert forall c :: c in s.stream && At(c) < At(b) ==> Foreign(c, b, schedules);
  }

  /** With a single schedule and no on-demand backups, retention is always harmless. */
  lemma {:induction false} SingleScheduleIsHarmless(b: OpBackup, S: set<OpBackup>, schedules: map<string, string>)
    requires AllCompleted(S) && b in S && b.name in schedules
    requires forall c :: c in S ==> !Foreign(c, b, schedules)
    ensures Harmless(b, S, schedules)
  {
  }

  /** An on-demand backup, a marked hourly one and a newer hourly one, keeping one: after a run of the
      operator, retention deletes the mark and the published window has the gap inside it. */
  lemma {:induction false} ScheduleRetentionExample() returns (c: Cast, schedules: map<string, string>, w: Window)
    ensures Casting(c) && IsRun(CastStates(c), CastSteps(c))
    ensures RetentionDeletes(c.marked, CastStates(c)[4].stream, schedules, 1)
    ensures !Harmless(c.marked, CastStates(c)[4].stream, schedules)
    ensures Next(CastStates(c)[4], Delete(c.marked), AfterDeletion(c))
    ensures Published(w, AfterDeletion(c)) && w.state == Available && SPANNED_GAP in AfterDeletion(c).gaps
    ensures w.earliest.Some? && w.latest.Some?
    ensures w.earliest.value <= SPANNED_GAP.lo && SPANNED_GAP.hi <= w.latest.value
  {
    c, w := OutOfOrderDeletionExample();
    schedules := map["hourly-1" := "hourly", "hourly-2" := "hourly"];
    HourlyIsTaken(c, schedules);
    var S := CastStates(c)[4].stream;
    assert c.first in S && Foreign(c.first, c.marked, schedules);
    assert !Hidden(c.first, c.marked, S);
  }

  lemma {:induction false} HourlyIsTaken(c: Cast, schedules: map<string, string>)
    requires Casting(c) && c.first.name == "manual" && c.marked.name == "hourly-1" && c.last.name == "hourly-2"
    requires schedules == map["hourly-1" := "hourly", "hourly-2" := "hourly"]
    ensures RetentionDeletes(c.marked, CastStates(c)[4].stream, schedules, 1)
    ensures Foreign(c.first, c.marked, schedules)
  {
    var S := CastStates(c)[4].stream;
    assert "manual" !in schedules;
    assert TakenBy(S, schedules, "hourly") == {c.marked, c.last};
    assert c.marked != c.last;
    assert |{c.marked, c.last}| == 2;
  }
}
