/** Choosing the base backup of a point-in-time restore from Backup resources
    (internal/provider/backup.go:450-501), and its agreement with the published window. */
module BaseSelection {

  import opened Prelude
  import opened OperatorBackups
  import opened WindowRule
  import opened BinlogRuns

  datatype CrState = CrPending | CrRunning | CrSucceeded | CrFailed

  /** A Backup resource. `mirrored` holds the uid of the operator backup it was mirrored from. */
  datatype BackupCR = BackupCR(
    name: string,
    uid: nat,
    instance: string,
    storage: string,
    classRef: string,
    scheduleName: string,
    instanceLabel: string,
    state: CrState,
    completedAt: Option<Time>,
    mirrored: Option<nat>)

  /** A backup the target can be reached from: on the stream, Succeeded, completed by the target. */
  predicate Candidate(b: BackupCR, storage: string, date: Option<Time>) {
    && b.storage == storage && b.state == CrSucceeded && b.completedAt.Some?
    && (date.Some? ==> b.completedAt.value <= date.value)
  }

  /** The newest candidate, the first listed among those completed at the same instant. */
  function Best(list: seq<BackupCR>, storage: string, date: Option<Time>): (r: Option<BackupCR>)
    ensures r.Some? ==> r.value in list && Candidate(r.value, storage, date)
  {
    if list == [] then None
    else
      var b, best := list[|list| - 1], Best(list[..|list| - 1], storage, date);
      if Candidate(b, storage, date) && (best.None? || best.value.completedAt.value < b.completedAt.value)
      then Some(b) else best
  }

  method SelectPitrBaseBackup(list: seq<BackupCR>, storage: string, date: Option<Time>) returns (best: Option<BackupCR>)
    ensures best == Best(list, storage, date)
  {
    best := None;
    for i := 0 to |list|
      invariant best == Best(list[..i], storage, date)
    {
      var b := list[i];
      assert list[..i + 1][..i] == list[..i];
      if b.storage != storage || b.state != CrSucceeded || b.completedAt.None? {
        continue;
      }
      if date.Some? && b.completedAt.value > date.value {
        continue;
      }
      if best.None? || b.completedAt.value > best.value.completedAt.value {
        best := Some(b);
      }
    }
    assert list[..|list|] == list;
  }

  lemma {:induction false} BestExistsExactly(list: seq<BackupCR>, storage: string, date: Option<Time>)
    ensures Best(list, storage, date).None? <==> forall b :: b in list ==> !Candidate(b, storage, date)
  {
    if list != [] {
      var n := |list| - 1;
      BestExistsExactly(list[..n], storage, date);
      assert list == list[..n] + [list[n]];
    }
  }

  /** Nothing is selected only if no candidate exists; the selection is the newest candidate, and
      every candidate listed before it is strictly older. */
  lemma {:induction false} BestIsNewestCandidate(list: seq<BackupCR>, storage: string, date: Option<Time>)
    ensures Best(list, storage, date).None? <==> forall b :: b in list ==> !Candidate(b, storage, date)
    ensures Best(list, storage, date).Some? ==>
              exists i :: 0 <= i < |list| && list[i] == Best(list, storage, date).value && Leads(list, i, storage, date)
    ensures forall b :: Candidate(b, storage, date) <==>
                          && b.storage == storage && b.state == CrSucceeded && b.completedAt.Some?
                          && (date.None? || b.completedAt.value <= date.value)
  {
    BestExistsExactly(list, storage, date);
    if Best(list, storage, date).Some? {
      var i := BestLeads(list, storage, date);
    }
  }

  lemma {:induction false} BestLeads(list: seq<BackupCR>, storage: string, date: Option<Time>) returns (i: nat)
    requires Best(list, storage, date).Some?
    ensures i < |list| && list[i] == Best(list, storage, date).value && Leads(list, i, storage, date)
  {
    var n := |list| - 1;
    if Best(list[..n], storage, date).Some? {
      i := BestLeads(list[..n], storage, date);
      LeaderAfter(list, i, storage, date);
      if Candidate(list[n], storage, date) && list[i].completedAt.value < list[n].completedAt.value { i := n; }
    } else {
      i := n;
      BestExistsExactly(list[..n], storage, date);
      assert forall j :: 0 <= j < n ==> list[j] in list[..n];
    }
  }

  lemma {:induction false} LeaderAfter(list: seq<BackupCR>, i: nat, storage: string, date: Option<Time>)
    requires i < |list| - 1 && Leads(list[..|list| - 1], i, storage, date)
    ensures var n := |list| - 1;
            if Candidate(list[n], storage, date) && list[i].completedAt.value < list[n].completedAt.value
            then Leads(list, n, storage, date) else Leads(list, i, storage, date)
  {
  }

  /** Candidate `i` is newest, and strictly newer than the candidates before it. */
  ghost predicate Leads(list: seq<BackupCR>, i: nat, storage: string, date: Option<Time>)
    requires i < |list|
  {
    && Candidate(list[i], storage, date)
    && forall j :: 0 <= j < |list| && Candidate(list[j], storage, date) ==>
                     && list[j].completedAt.value <= list[i].completedAt.value
                     && (j < i ==> list[j].completedAt.value < list[i].completedAt.value)
  }

  lemma {:induction false} BestIsLatest(list: seq<BackupCR>, storage: string, date: Option<Time>, b: BackupCR)
    requires b in list && Candidate(b, storage, date)
    ensures Best(list, storage, date).Some?
    ensures b.completedAt.value <= Best(list, storage, date).value.completedAt.value
  {
    BestIsNewestCandidate(list, storage, date);
  }

  // ------------------------------------------------------------ agreement with the window

  ghost predicate Reports(c: BackupCR, b: OpBackup) {
    c.name == b.name && c.completedAt == b.status.completedAt
  }

  ghost predicate Known(c: BackupCR, S: set<OpBackup>) {
    exists b :: b in S && Reports(c, b)
  }

  ghost predicate Reported(b: OpBackup, list: seq<BackupCR>, storage: string) {
    exists c :: c in list && Candidate(c, storage, None) && Reports(c, b)
  }

  /** Every Backup resource that may be selected reports an operator backup of the stream. */
  ghost predicate Faithful(list: seq<BackupCR>, storage: string, S: set<OpBackup>) {
    forall c {:trigger Known(c, S)} :: c in list && Candidate(c, storage, None) ==> Known(c, S)
  }

  /** Additionally, every operator backup of the stream has been reported. */
  ghost predicate InSync(list: seq<BackupCR>, storage: string, S: set<OpBackup>) {
    && Faithful(list, storage, S)
    && forall b {:trigger Reported(b, list, storage)} :: b in S ==> Reported(b, list, storage)
  }

  /** The base is newer than every marked backup. */
  ghost predicate CleanBase(base: Option<BackupCR>, S: set<OpBackup>)
    requires AllCompleted(S)
  {
    base.Some? && base.value.completedAt.Some? &&
    forall m :: m in S && Marked(m) ==> At(m) < base.value.completedAt.value
  }

  /** Some resource reports a backup completed between the oldest clean one and the target. */
  ghost predicate Reachable(list: seq<BackupCR>, storage: string, date: Option<Time>, e: OpBackup)
    requires e.status.completedAt.Some?
  {
    exists c :: c in list && Candidate(c, storage, date) && At(e) <= c.completedAt.value
  }

  /** The selector never looks at gap marks. It still picks a clean base exactly when a clean backup
      completed by the target has been reported. */
  lemma {:induction false} CleanBaseExactly(
    list: seq<BackupCR>, storage: string, date: Option<Time>, S: set<OpBackup>, e: OpBackup)
    requires AllCompleted(S) && Faithful(list, storage, S) && OldestClean(e, S)
    ensures CleanBase(Best(list, storage, date), S) <==> Reachable(list, storage, date, e)
  {
    var best := Best(list, storage, date);
    if Reachable(list, storage, date, e) {
      var c :| c in list && Candidate(c, storage, date) && At(e) <= c.completedAt.value;
      BestIsLatest(list, storage, date, c);
    }
    if CleanBase(best, S) {
      var c := best.value;
      assert Candidate(c, storage, None) && Known(c, S);
      var b :| b in S && Reports(c, b);
      assert Clean(b, S);
    }
  }

  /** In sync, a dated target gets a clean base exactly when it is not before the window's start. */
  lemma {:induction false} TargetInWindowExactly(
    list: seq<BackupCR>, storage: string, d: Time, S: set<OpBackup>, e: OpBackup)
    requires AllCompleted(S) && InSync(list, storage, S) && OldestClean(e, S)
    ensures CleanBase(Best(list, storage, Some(d)), S) <==> At(e) <= d
  {
    CleanBaseExactly(list, storage, Some(d), S, e);
    if At(e) <= d {
      ReportedIsReachable(list, storage, d, S, e);
    }
  }

  lemma {:induction false} ReportedIsReachable(
    list: seq<BackupCR>, storage: string, d: Time, S: set<OpBackup>, e: OpBackup)
    requires InSync(list, storage, S) && e in S && e.status.completedAt.Some? && At(e) <= d
    ensures Reachable(list, storage, Some(d), e)
  {
    assert Reported(e, list, storage);
    var c :| c in list && Candidate(c, storage, None) && Reports(c, e);
    assert Candidate(c, storage, Some(d));
  }

  /** Replaying binlogs from `from` up to `to` meets no gap. */
  ghost predicate ReplayClear(from: Time, to: Time, s: State) {
    forall g :: g in s.gaps ==> g.hi <= from || to <= g.lo
  }

  lemma {:induction false} CleanBaseReplays(
    list: seq<BackupCR>, storage: string, date: Option<Time>, s: State, to: Time)
    requires Coherent(s) && AllKept(s) && Faithful(list, storage, s.stream)
    requires CleanBase(Best(list, storage, date), s.stream)
    ensures ReplayClear(Best(list, storage, date).value.completedAt.value, to, s)
  {
    var c := Best(list, storage, date).value;
    assert Candidate(c, storage, None) && Known(c, s.stream);
    var b :| b in s.stream && Reports(c, b);
    assert Clean(b, s.stream);
    forall g | g in s.gaps
      ensures g.hi <= At(b)
    {
      assert Kept(g, s.stream) && Placed(g, b);
    }
  }

  /** Over every run: a target inside the published window lies within what was collected and gets a
      base that completed by the target, inside the window, with no detected gap on the replay. */
  lemma {:induction false} OfferedTargetsAreRestorable(
    states: seq<State>, steps: seq<Step>, i: nat, w: Window, list: seq<BackupCR>, storage: string, d: Time)
    requires IsRun(states, steps) && i < |states| && Published(w, states[i]) && w.state == Available
    requires InSync(list, storage, states[i].stream)
    requires w.earliest.Some? && w.latest.Some? && w.earliest.value <= d <= w.latest.value
    ensures d <= states[i].collected
    ensures var base := Best(list, storage, Some(d));
            && CleanBase(base, states[i].stream)
            && w.earliest.value <= base.value.completedAt.value <= d
            && ReplayClear(base.value.completedAt.value, d, states[i])
  {
    RunKeepsMarks(states, steps, i);
    var s := states[i];
    var e := PublishedStartsClean(w, s);
    TargetInWindowExactly(list, storage, d, s.stream, e);
    CleanBaseReplays(list, storage, Some(d), s, d);
    assert Reported(e, list, storage);
    var c :| c in list && Candidate(c, storage, None) && Reports(c, e);
    assert Candidate(c, storage, Some(d));
    BestIsLatest(list, storage, Some(d), c);
  }

  /** The same for an undated ("latest") target: the base is the newest backup of the stream. */
  lemma {:induction false} LatestTargetIsRestorable(
    states: seq<State>, steps: seq<Step>, i: nat, w: Window, list: seq<BackupCR>, storage: string, to: Time)
    requires IsRun(states, steps) && i < |states| && Published(w, states[i]) && w.state == Available
    requires InSync(list, storage, states[i].stream)
    ensures var base := Best(list, storage, None);
            && CleanBase(base, states[i].stream)
            && (forall b :: b in states[i].stream ==> At(b) <= base.value.completedAt.value)
            && ReplayClear(base.value.completedAt.value, to, states[i])
  {
    RunKeepsMarks(states, steps, i);
    var s := states[i];
    var e := PublishedStartsClean(w, s);
    assert Reported(e, list, storage);
    var c :| c in list && Candidate(c, storage, None) && Reports(c, e);
    CleanBaseExactly(list, storage, None, s.stream, e);
    CleanBaseReplays(list, storage, None, s, to);
    forall b | b in s.stream
      ensures At(b) <= Best(list, storage, None).value.completedAt.value
    {
      assert Reported(b, list, storage);
      var c :| c in list && Candidate(c, storage, None) && Reports(c, b);
      BestIsLatest(list, storage, None, c);
    }
  }
}
