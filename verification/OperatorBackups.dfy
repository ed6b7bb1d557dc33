/** The operator's backups and the recovery window the provider derives from them
    (internal/provider/backup_status.go). */
module OperatorBackups {

  import opened Prelude

  // Seconds since the epoch; metav1.Time is compared at this granularity.
  type Time = int

  datatype BackupState = New | Suspended | Starting | Running | Failed | Succeeded

  datatype Condition = Condition(kind: string, status: string, message: string)

  datatype OpStatus = OpStatus(
    state: BackupState,
    completedAt: Option<Time>,
    latestRestorable: Option<Time>,
    conditions: seq<Condition>,
    storageName: string)

  datatype OpBackup = OpBackup(name: string, cluster: string, storage: string, status: OpStatus)

  datatype PitrState = Available | Unavailable

  datatype Reason = WindowAvailable | NoRestorableBackup | BinlogGapDetected

  // The texts published with a window; a gap carries the operator's own detail.
  datatype Message = Empty | NoBackupYet | WaitingForCollector | GapSince(detail: string) | TruncatedAtGap

  datatype Window = Window(
    state: PitrState,
    reason: Reason,
    earliest: Option<Time>,
    latest: Option<Time>,
    message: Message)

  // ---------------------------------------------------------------- gap marks

  predicate IsGap(c: Condition) {
    c.kind == "PITRReady" && c.status == "False"
  }

  /** The first PITRReady=False condition, or None. */
  function GapCondition(cs: seq<Condition>): Option<Condition> {
    if cs == [] then None else if IsGap(cs[0]) then Some(cs[0]) else GapCondition(cs[1..])
  }

  /** No condition is found exactly when none flags a gap; otherwise the first that does is. */
  lemma {:induction false} GapConditionFindsFirst(cs: seq<Condition>)
    ensures GapCondition(cs).None? <==>
              forall i :: 0 <= i < |cs| ==> !(cs[i].kind == "PITRReady" && cs[i].status == "False")
    ensures GapCondition(cs).Some? ==>
              exists i :: 0 <= i < |cs| && cs[i] == GapCondition(cs).value && cs[i].kind == "PITRReady"
                          && cs[i].status == "False"
                          && forall j :: 0 <= j < i ==> !(cs[j].kind == "PITRReady" && cs[j].status == "False")
  {
    if cs != [] && !IsGap(cs[0]) {
      var r := GapCondition(cs[1..]);
      GapConditionFindsFirst(cs[1..]);
      if r.Some? {
        var i :| 0 <= i < |cs[1..]| && cs[1..][i] == r.value && IsGap(cs[1..][i])
                 && forall j :: 0 <= j < i ==> !IsGap(cs[1..][j]);
        assert forall j :: 0 < j < i + 1 ==> cs[j] == cs[1..][j - 1];
        assert cs[i + 1] == r.value;
      } else {
        assert forall i :: 0 < i < |cs| ==> cs[i] == cs[1..][i - 1];
      }
    }
  }

  predicate Marked(b: OpBackup) {
    GapCondition(b.status.conditions).Some?
  }

  // ------------------------------------------------------- collecting backups

  predicate Eligible(b: OpBackup, cluster: string, storage: string) {
    b.cluster == cluster && b.storage == storage && b.status.state == Succeeded && b.status.completedAt.Some?
  }

  predicate Completed(bs: seq<OpBackup>) {
    forall i :: 0 <= i < |bs| ==> bs[i].status.completedAt.Some?
  }

  function At(b: OpBackup): Time
    requires b.status.completedAt.Some?
  {
    b.status.completedAt.value
  }

  ghost predicate OldestFirst(bs: seq<OpBackup>) {
    Completed(bs) && forall i, j :: 0 <= i < j < |bs| ==> At(bs[i]) <= At(bs[j])
  }

  /** `out` keeps every eligible backup of `all`, as often as it occurs, and nothing else. */
  ghost predicate IsSelection(out: seq<OpBackup>, all: seq<OpBackup>, cluster: string, storage: string) {
    forall b :: multiset(out)[b] == if Eligible(b, cluster, storage) then multiset(all)[b] else 0
  }

  method Swap(a: array<OpBackup>, i: nat, j: nat)
    requires i < a.Length && j < a.Length
    modifies a
    ensures a[i] == old(a[j]) && a[j] == old(a[i])
    ensures forall k :: 0 <= k < a.Length && k != i && k != j ==> a[k] == old(a[k])
    ensures multiset(a[..]) == old(multiset(a[..]))
  {
    a[i], a[j] := a[j], a[i];
  }

  /** The contract of sort.Slice with the "completed before" comparison: ordered, a permutation, and
      nothing said about backups that completed at the same instant (the sort is not stable). */
  method SortByCompletion(a: array<OpBackup>)
    requires Completed(a[..])
    modifies a
    ensures OldestFirst(a[..])
    ensures multiset(a[..]) == old(multiset(a[..]))
  {
    var i := 0;
    while i < a.Length
      invariant 0 <= i <= a.Length
      invariant Completed(a[..])
      invariant multiset(a[..]) == old(multiset(a[..]))
      invariant forall p, q :: 0 <= p < q < a.Length && p < i ==> At(a[p]) <= At(a[q])
    {
      var least := i;
      var j := i + 1;
      while j < a.Length
        invariant i <= least < j <= a.Length
        invariant forall k :: i <= k < j ==> At(a[least]) <= At(a[k])
      {
        if At(a[j]) < At(a[least]) { least := j; }
        j := j + 1;
      }
      Swap(a, i, least);
      i := i + 1;
    }
  }

  /** The Succeeded backups of one cluster on one storage, oldest first. */
  method CollectStorageBackups(all: seq<OpBackup>, cluster: string, storage: string) returns (out: seq<OpBackup>)
    ensures IsSelection(out, all, cluster, storage)
    ensures OldestFirst(out)
  {
    out := [];
    for i := 0 to |all|
      invariant IsSelection(out, all[..i], cluster, storage)
      invariant forall k :: 0 <= k < |out| ==> Eligible(out[k], cluster, storage)
    {
      assert all[..i + 1] == all[..i] + [all[i]];
      if Eligible(all[i], cluster, storage) {
        out := out + [all[i]];
      }
    }
    assert all[..|all|] == all;
    var a := new OpBackup[|out|](i requires 0 <= i < |out| => out[i]);
    assert a[..] == out;
    SortByCompletion(a);
    out := a[..];
  }

  // -------------------------------------------------------------- the window

  /** Index of the last marked backup, -1 if none is marked. */
  function LastMarked(bs: seq<OpBackup>): (k: int)
    ensures -1 <= k < |bs|
    ensures k >= 0 ==> Marked(bs[k])
    ensures forall i :: k < i < |bs| ==> !Marked(bs[i])
  {
    if bs == [] then -1
    else if Marked(bs[|bs| - 1]) then |bs| - 1
    else LastMarked(bs[..|bs| - 1])
  }

  function NoWindow(reason: Reason, message: Message): Window {
    Window(Unavailable, reason, None, None, message)
  }

  /** What the window of an ordered list of backups is. */
  function WindowOf(bs: seq<OpBackup>): Window {
    var k := LastMarked(bs);
    if bs == [] then
      NoWindow(NoRestorableBackup, NoBackupYet)
    else if k == |bs| - 1 then
      NoWindow(BinlogGapDetected, GapSince(GapCondition(bs[k].status.conditions).value.message))
    else if bs[|bs| - 1].status.latestRestorable.None? then
      NoWindow(NoRestorableBackup, WaitingForCollector)
    else
      Window(Available, WindowAvailable, bs[k + 1].status.completedAt, bs[|bs| - 1].status.latestRestorable,
             if k >= 0 then TruncatedAtGap else Empty)
  }

  /** pitrWindow: scan for the newest mark, then cut the list after it. */
  method PitrWindow(backups: seq<OpBackup>) returns (w: Window)
    ensures w == WindowOf(backups)
  {
    if |backups| == 0 {
      return Window(Unavailable, NoRestorableBackup, None, None, NoBackupYet);
    }
    var lastMarked := -1;
    var gapMessage := "";
    for i := 0 to |backups|
      invariant -1 <= lastMarked < i
      invariant lastMarked >= 0 ==> Marked(backups[lastMarked])
                                    && gapMessage == GapCondition(backups[lastMarked].status.conditions).value.message
      invariant forall j :: lastMarked < j < i ==> !Marked(backups[j])
    {
      var cond := GapCondition(backups[i].status.conditions);
      if cond.Some? {
        lastMarked := i;
        gapMessage := cond.value.message;
      }
    }
    if lastMarked == |backups| - 1 {
      return Window(Unavailable, BinlogGapDetected, None, None, GapSince(gapMessage));
    }
    var clean := backups[lastMarked + 1..];
    w := Window(Available, WindowAvailable, clean[0].status.completedAt, clean[|clean| - 1].status.latestRestorable,
                Empty);
    if lastMarked >= 0 {
      w := w.(message := TruncatedAtGap);
    }
    if w.latest.None? {
      return Window(Unavailable, NoRestorableBackup, None, None, WaitingForCollector);
    }
  }
}
