/** What the published window means, independently of list order, sorting and scanning, and exactly
    when backups that completed at the same instant make it unsafe. */
module WindowRule {

  import opened Prelude
  import opened OperatorBackups

  /** The backups of one cluster on one storage: a binlog stream. */
  ghost function StreamOf(all: seq<OpBackup>, cluster: string, storage: string): set<OpBackup> {
    set b | b in all && Eligible(b, cluster, storage)
  }

  ghost predicate AllCompleted(S: set<OpBackup>) {
    forall b :: b in S ==> b.status.completedAt.Some?
  }

  /** `b` is newer than every marked backup of the stream. */
  ghost predicate Clean(b: OpBackup, S: set<OpBackup>)
    requires AllCompleted(S)
  {
    b in S && forall m :: m in S && Marked(m) ==> At(m) < At(b)
  }

  ghost predicate Newest(b: OpBackup, S: set<OpBackup>)
    requires AllCompleted(S)
  {
    b in S && forall c :: c in S ==> At(c) <= At(b)
  }

  ghost predicate OldestClean(b: OpBackup, S: set<OpBackup>)
    requires AllCompleted(S)
  {
    Clean(b, S) && forall c :: Clean(c, S) ==> At(b) <= At(c)
  }

  ghost predicate DistinctTimes(S: set<OpBackup>)
    requires AllCompleted(S)
  {
    forall b, c :: b in S && c in S && At(b) == At(c) ==> b == c
  }

  /** The rule: earliest is the oldest backup newer than every marked one; unavailable when there is
      none, or when the newest backup carries no end time. */
  ghost predicate FollowsRule(S: set<OpBackup>, w: Window)
    requires AllCompleted(S)
  {
    if S == {} then
      w == NoWindow(NoRestorableBackup, NoBackupYet)
    else if forall b :: b in S ==> !Clean(b, S) then
      exists n :: Newest(n, S) && Marked(n) && w == Broken(n)
    else
      exists n, e :: Newest(n, S) && OldestClean(e, S) && w == Spanning(n, e, S)
  }

  ghost function Broken(n: OpBackup): Window
    requires Marked(n)
  {
    NoWindow(BinlogGapDetected, GapSince(GapCondition(n.status.conditions).value.message))
  }

  ghost function Spanning(n: OpBackup, e: OpBackup, S: set<OpBackup>): Window
    requires e.status.completedAt.Some?
  {
    if n.status.latestRestorable.None? then NoWindow(NoRestorableBackup, WaitingForCollector)
    else Window(Available, WindowAvailable, Some(At(e)), n.status.latestRestorable,
                if AnyMarked(S) then TruncatedAtGap else Empty)
  }

  ghost predicate AnyMarked(S: set<OpBackup>) {
    exists m :: m in S && Marked(m)
  }

  lemma {:induction false} SelectionIsStream(s: seq<OpBackup>, all: seq<OpBackup>, cluster: string, storage: string)
    requires IsSelection(s, all, cluster, storage)
    ensures forall b :: b in s <==> b in StreamOf(all, cluster, storage)
  {
    forall b
      ensures b in s <==> b in StreamOf(all, cluster, storage)
    {
      assert b in s <==> multiset(s)[b] > 0;
      assert b in all <==> multiset(all)[b] > 0;
    }
  }

  /** Every list that collecting and sorting may produce, whatever the input order and however the
      unstable sort behaves, yields the window of the rule. */
  lemma {:induction false} WindowFollowsRule(s: seq<OpBackup>, all: seq<OpBackup>, cluster: string, storage: string)
    requires IsSelection(s, all, cluster, storage) && OldestFirst(s)
    requires DistinctTimes(StreamOf(all, cluster, storage))
    ensures FollowsRule(StreamOf(all, cluster, storage), WindowOf(s))
  {
    var S := StreamOf(all, cluster, storage);
    SelectionIsStream(s, all, cluster, storage);
    OrderedWindowFollowsRule(s, S);
  }

  lemma {:induction false} OrderedWindowFollowsRule(s: seq<OpBackup>, S: set<OpBackup>)
    requires OldestFirst(s) && AllCompleted(S) && DistinctTimes(S)
    requires forall b :: b in s <==> b in S
    ensures FollowsRule(S, WindowOf(s))
  {
    if s == [] {
      assert S == {};
    } else {
      assert s[0] in S;
      Located(s, S);
      if LastMarked(s) == |s| - 1 {
        BrokenFollowsRule(s, S);
      } else {
        SpanningFollowsRule(s, S);
      }
    }
  }

  lemma {:induction false} BrokenFollowsRule(s: seq<OpBackup>, S: set<OpBackup>)
    requires OldestFirst(s) && AllCompleted(S) && s != [] && S != {} && LastMarked(s) == |s| - 1
    requires forall b :: b in s <==> b in S
    requires forall b :: b in S ==> At(b) <= At(s[|s| - 1])
    ensures FollowsRule(S, WindowOf(s))
  {
    var n := s[|s| - 1];
    assert Newest(n, S) && Marked(n) && WindowOf(s) == Broken(n);
    assert forall b :: b in S ==> !Clean(b, S);
  }

  lemma {:induction false} SpanningFollowsRule(s: seq<OpBackup>, S: set<OpBackup>)
    requires OldestFirst(s) && AllCompleted(S) && DistinctTimes(S) && s != [] && S != {} && LastMarked(s) < |s| - 1
    requires forall b :: b in s <==> b in S
    requires forall b :: b in S ==> At(b) <= At(s[|s| - 1])
    ensures FollowsRule(S, WindowOf(s))
  {
    var n, e := s[|s| - 1], s[LastMarked(s) + 1];
    FirstAfterMarkIsOldestClean(s, S);
    MarkedIffIndexed(s, S);
    assert Newest(n, S) && OldestClean(e, S) && Clean(e, S) && WindowOf(s) == Spanning(n, e, S);
  }

  /** The window of a listing starts at its oldest clean backup and ends where its newest one says. */
  lemma {:induction false} AvailableWindowSpans(s: seq<OpBackup>, S: set<OpBackup>) returns (e: OpBackup, n: OpBackup)
    requires OldestFirst(s) && AllCompleted(S) && DistinctTimes(S)
    requires forall b :: b in s <==> b in S
    requires WindowOf(s).state == Available
    ensures OldestClean(e, S) && Newest(n, S)
    ensures && WindowOf(s).earliest == Some(At(e)) && WindowOf(s).latest == n.status.latestRestorable
            && n.status.latestRestorable.Some?
  {
    FirstAfterMarkIsOldestClean(s, S);
    Located(s, S);
    e, n := s[LastMarked(s) + 1], s[|s| - 1];
  }

  lemma {:induction false} MarkedIffIndexed(s: seq<OpBackup>, S: set<OpBackup>)
    requires forall b :: b in s <==> b in S
    ensures LastMarked(s) >= 0 <==> AnyMarked(S)
  {
  }

  lemma {:induction false} Located(s: seq<OpBackup>, S: set<OpBackup>)
    requires OldestFirst(s) && s != [] && AllCompleted(S)
    requires forall b :: b in s <==> b in S
    ensures forall b :: b in S ==> At(b) <= At(s[|s| - 1])
  {
  }

  lemma {:induction false} FirstAfterMarkIsOldestClean(s: seq<OpBackup>, S: set<OpBackup>)
    requires OldestFirst(s) && AllCompleted(S) && DistinctTimes(S)
    requires forall b :: b in s <==> b in S
    requires LastMarked(s) + 1 < |s|
    ensures OldestClean(s[LastMarked(s) + 1], S)
  {
  }

  /** The rule determines the window. */
  lemma {:induction false} RuleIsFunctional(S: set<OpBackup>, w: Window, w': Window)
    requires AllCompleted(S) && DistinctTimes(S)
    requires FollowsRule(S, w) && FollowsRule(S, w')
    ensures w == w'
  {
  }

  /** The published window depends on which backups exist, not on the order they are listed in. */
  lemma {:induction false} WindowIgnoresListOrder(
    s: seq<OpBackup>, all: seq<OpBackup>, s': seq<OpBackup>, all': seq<OpBackup>, cluster: string, storage: string)
    requires IsSelection(s, all, cluster, storage) && OldestFirst(s)
    requires IsSelection(s', all', cluster, storage) && OldestFirst(s')
    requires StreamOf(all, cluster, storage) == StreamOf(all', cluster, storage)
    requires DistinctTimes(StreamOf(all, cluster, storage))
    ensures WindowOf(s) == WindowOf(s')
  {
    WindowFollowsRule(s, all, cluster, storage);
    WindowFollowsRule(s', all', cluster, storage);
    RuleIsFunctional(StreamOf(all, cluster, storage), WindowOf(s), WindowOf(s'));
  }

  // ------------------------------------------------ backups completed at the same instant

  /** An available window starts strictly after every marked backup. */
  ghost predicate SafeWindow(s: seq<OpBackup>)
    requires Completed(s)
  {
    WindowOf(s).state == Available ==>
      forall m :: m in s && Marked(m) ==> At(m) < WindowOf(s).earliest.value
  }

  /** The newest mark shares its instant with an unmarked backup, and an unmarked newest backup has
      an end time. */
  ghost predicate AmbiguousMark(S: set<OpBackup>)
    requires AllCompleted(S)
  {
    exists m, u, w :: TiedWithMark(m, u, S) && PublishesEnd(w, S)
  }

  ghost predicate TiedWithMark(m: OpBackup, u: OpBackup, S: set<OpBackup>)
    requires AllCompleted(S)
  {
    && m in S && Marked(m) && u in S && !Marked(u) && At(u) == At(m)
    && forall c :: c in S && Marked(c) ==> At(c) <= At(m)
  }

  ghost predicate PublishesEnd(w: OpBackup, S: set<OpBackup>)
    requires AllCompleted(S)
  {
    Newest(w, S) && !Marked(w) && w.status.latestRestorable.Some?
  }

  ghost predicate MayCollect(s: seq<OpBackup>, all: seq<OpBackup>, cluster: string, storage: string) {
    IsSelection(s, all, cluster, storage) && OldestFirst(s)
  }

  /** The window is safe under every order the sort may choose exactly when no mark is ambiguous. */
  lemma {:induction false} SafeExactlyWithoutTies(all: seq<OpBackup>, cluster: string, storage: string)
    ensures (forall s :: MayCollect(s, all, cluster, storage) ==> SafeWindow(s))
            <==> !AmbiguousMark(StreamOf(all, cluster, storage))
  {
    var S := StreamOf(all, cluster, storage);
    if AmbiguousMark(S) {
      var m, u, w :| TiedWithMark(m, u, S) && PublishesEnd(w, S);
      var s := UnsafeOrder(all, cluster, storage, m, u, w);
      assert MayCollect(s, all, cluster, storage) && !SafeWindow(s);
    } else {
      forall s | MayCollect(s, all, cluster, storage)
        ensures SafeWindow(s)
      {
        UnambiguousIsSafe(s, all, cluster, storage);
      }
    }
  }

  lemma {:induction false} UnambiguousIsSafe(s: seq<OpBackup>, all: seq<OpBackup>, cluster: string, storage: string)
    requires MayCollect(s, all, cluster, storage)
    requires !AmbiguousMark(StreamOf(all, cluster, storage))
    ensures SafeWindow(s)
  {
    var S := StreamOf(all, cluster, storage);
    SelectionIsStream(s, all, cluster, storage);
    var k := LastMarked(s);
    if WindowOf(s).state == Available && k >= 0 {
      forall m | m in s && Marked(m)
        ensures At(m) <= At(s[k])
      {
        var i :| 0 <= i < |s| && s[i] == m;
        assert i <= k;
      }
      if At(s[k + 1]) == At(s[k]) {
        assert TiedWithMark(s[k], s[k + 1], S);
        Located(s, S);
        assert PublishesEnd(s[|s| - 1], S);
        assert false;
      }
    }
  }

  /** An order the sort may choose: by time, marked backups first, `w` last. */
  ghost function Adverse(b: OpBackup, w: OpBackup): int {
    if b.status.completedAt.None? then 0 else 3 * At(b) + (if Marked(b) then 0 else if b == w then 2 else 1)
  }

  ghost predicate Ranked(s: seq<OpBackup>, w: OpBackup) {
    forall i, j :: 0 <= i < j < |s| ==> Adverse(s[i], w) <= Adverse(s[j], w)
  }

  /** A backup added to a ranked list, at its place. */
  lemma {:induction false} InsertRanked(b: OpBackup, s: seq<OpBackup>, w: OpBackup) returns (r: seq<OpBackup>)
    requires Ranked(s, w)
    ensures Ranked(r, w) && multiset(r) == multiset(s) + multiset{b}
  {
    if s == [] || Adverse(s[|s| - 1], w) <= Adverse(b, w) {
      AppendRanked(s, b, w);
      r := s + [b];
      assert multiset(r) == multiset(s) + multiset{b};
    } else {
      var k := |s| - 1;
      var p := InsertRanked(b, s[..k], w);
      LastIsGreatest(s, b, p, w);
      AppendRanked(p, s[k], w);
      r := p + [s[k]];
      InsertedBefore(s, b, p);
    }
  }

  lemma {:induction false} InsertedBefore(s: seq<OpBackup>, b: OpBackup, p: seq<OpBackup>)
    requires s != [] && multiset(p) == multiset(s[..|s| - 1]) + multiset{b}
    ensures multiset(p + [s[|s| - 1]]) == multiset(s) + multiset{b}
  {
    assert s == s[..|s| - 1] + [s[|s| - 1]];
  }

  lemma {:induction false} AppendRanked(p: seq<OpBackup>, x: OpBackup, w: OpBackup)
    requires Ranked(p, w) && (p != [] ==> Adverse(p[|p| - 1], w) <= Adverse(x, w))
    ensures Ranked(p + [x], w)
  {
  }

  lemma {:induction false} LastIsGreatest(s: seq<OpBackup>, b: OpBackup, p: seq<OpBackup>, w: OpBackup)
    requires s != [] && Ranked(s, w) && Adverse(b, w) <= Adverse(s[|s| - 1], w)
    requires multiset(p) == multiset(s[..|s| - 1]) + multiset{b}
    ensures forall i :: 0 <= i < |p| ==> Adverse(p[i], w) <= Adverse(s[|s| - 1], w)
  {
    forall i | 0 <= i < |p|
      ensures Adverse(p[i], w) <= Adverse(s[|s| - 1], w)
    {
      assert p[i] in multiset(p);
      if p[i] != b {
        assert p[i] in s[..|s| - 1];
      }
    }
  }

  lemma {:induction false} RankedSelection(
    all: seq<OpBackup>, cluster: string, storage: string, w: OpBackup) returns (r: seq<OpBackup>)
    ensures Ranked(r, w) && IsSelection(r, all, cluster, storage)
  {
    r := [];
    for i := 0 to |all|
      invariant Ranked(r, w) && IsSelection(r, all[..i], cluster, storage)
    {
      assert all[..i + 1] == all[..i] + [all[i]];
      if Eligible(all[i], cluster, storage) {
        r := InsertRanked(all[i], r, w);
      }
    }
    assert all[..|all|] == all;
  }

  lemma {:induction false} UnsafeOrder(
    all: seq<OpBackup>, cluster: string, storage: string, m: OpBackup, u: OpBackup, w: OpBackup)
    returns (s: seq<OpBackup>)
    requires TiedWithMark(m, u, StreamOf(all, cluster, storage)) && PublishesEnd(w, StreamOf(all, cluster, storage))
    ensures MayCollect(s, all, cluster, storage) && !SafeWindow(s)
  {
    s := RankedSelection(all, cluster, storage, w);
    SelectionIsStream(s, all, cluster, storage);
    assert forall i :: 0 <= i < |s| ==> s[i] in StreamOf(all, cluster, storage);
    AdverseIsOldestFirst(s, w);
    AdverseIsUnsafe(s, StreamOf(all, cluster, storage), m, u, w);
  }

  lemma {:induction false} AdverseIsOldestFirst(s: seq<OpBackup>, w: OpBackup)
    requires Completed(s) && Ranked(s, w)
    ensures OldestFirst(s)
  {
  }

  lemma {:induction false} AdverseIsUnsafe(s: seq<OpBackup>, S: set<OpBackup>, m: OpBackup, u: OpBackup, w: OpBackup)
    requires AllCompleted(S) && OldestFirst(s) && Ranked(s, w)
    requires forall b :: b in s <==> b in S
    requires TiedWithMark(m, u, S) && PublishesEnd(w, S)
    ensures !SafeWindow(s)
  {
  }

  /** Two backups completed in the same second that collecting may return with the mark first: the
      window starts at the mark. */
  lemma {:induction false} TieExample() returns (all: seq<OpBackup>)
    ensures MayCollect(all, all, "db", "s3") && !SafeWindow(all)
  {
    var gap := Condition("PITRReady", "False", "");
    var marked := OpBackup("a", "db", "s3", OpStatus(Succeeded, Some(10), None, [gap], ""));
    var tied := OpBackup("b", "db", "s3", OpStatus(Succeeded, Some(10), Some(20), [], ""));
    all := [marked, tied];
    assert IsGap(marked.status.conditions[0]);
    assert Marked(all[0]) && !Marked(all[1]);
    assert LastMarked(all) == 0;
    assert marked in all;
    forall b
      ensures multiset(all)[b] == if Eligible(b, "db", "s3") then multiset(all)[b] else 0
    {
      assert b in multiset(all) ==> b in all;
    }
  }

  // ------------------------------------------------------------- per-storage status

  datatype StorageRef = StorageRef(name: string, pitrEnabled: bool)

  datatype StorageStatus = StorageStatus(name: string, pitr: Option<Window>)

  /** `pitr` is a window of the named stream, whatever order the sort chose. */
  ghost predicate Publishes(pitr: Window, all: seq<OpBackup>, cluster: string, storage: string) {
    exists s :: MayCollect(s, all, cluster, storage) && pitr == WindowOf(s)
  }

  /** One entry per storage, in order; a window exactly for the storages that enable PITR. */
  method BackupStorageStatuses(storages: seq<StorageRef>, all: seq<OpBackup>, cluster: string)
    returns (out: seq<StorageStatus>)
    ensures |out| == |storages|
    ensures forall i :: 0 <= i < |out| ==>
                          && out[i].name == storages[i].name
                          && (out[i].pitr.Some? <==> storages[i].pitrEnabled)
                          && (out[i].pitr.Some? ==> Publishes(out[i].pitr.value, all, cluster, storages[i].name))
  {
    out := [];
    for i := 0 to |storages|
      invariant |out| == i
      invariant forall j :: 0 <= j < i ==>
                              && out[j].name == storages[j].name
                              && (out[j].pitr.Some? <==> storages[j].pitrEnabled)
                              && (out[j].pitr.Some? ==> Publishes(out[j].pitr.value, all, cluster, storages[j].name))
    {
      var entry := StorageStatus(storages[i].name, None);
      if storages[i].pitrEnabled {
        var backups := CollectStorageBackups(all, cluster, storages[i].name);
        var window := PitrWindow(backups);
        assert MayCollect(backups, all, cluster, storages[i].name);
        entry := entry.(pitr := Some(window));
      }
      out := out + [entry];
    }
  }
}
