/** The operator as a step machine over one binlog stream, and what every run guarantees about the
    published window (the argument of internal/provider/backup_status.go:88-113). */
module BinlogRuns {

  import opened Prelude
  import opened OperatorBackups
  import opened WindowRule

  /** Binlogs between `lo` and `hi` are missing; seen at `seen`, when the newest backup had completed at
      `mark`. The gap may have begun, or ended, before that backup. */
  datatype Gap = Gap(lo: Time, hi: Time, seen: Time, mark: Option<Time>)

  /** `collected`: binlogs up to here have reached the storage. */
  datatype State = State(now: Time, collected: Time, stream: set<OpBackup>, gaps: set<Gap>)

  datatype Step =
    | Complete(backup: OpBackup)
    | Detect(gap: Gap)
    | Stamp(backup: OpBackup, status: OpStatus)
    | Delete(backup: OpBackup)
    | Idle

  ghost predicate WellFormed(s: State) {
    AllCompleted(s.stream)
  }

  /** A backup's end time never promises more than was collected. */
  ghost predicate EndKnown(b: OpBackup, collected: Time) {
    b.status.latestRestorable.Some? ==> b.status.latestRestorable.value <= collected
  }

  function WithStatus(b: OpBackup, status: OpStatus): OpBackup {
    b.(status := status)
  }

  /** Detection marks the newest backup and nothing else; a mark changes no completion time. */
  ghost predicate MarksNewest(s: State, s': State, n: OpBackup, status: OpStatus)
    requires WellFormed(s)
  {
    && Newest(n, s.stream)
    && status.completedAt == n.status.completedAt && Marked(WithStatus(n, status))
    && s'.stream == s.stream - {n} + {WithStatus(n, status)}
  }

  ghost predicate Next(s: State, step: Step, s': State)
    requires WellFormed(s)
  {
    && s.now <= s'.now && s.collected <= s'.collected
    && (forall b :: b in s'.stream && b !in s.stream ==> EndKnown(b, s'.collected))
    && match step
       case Complete(b) =>
         // a new backup completes after everything that happened so far, and starts unmarked
         && b.status.completedAt.Some? && s.now < At(b) <= s'.now && !Marked(b)
         && s'.stream == s.stream + {b} && s'.gaps == s.gaps
       case Detect(g) =>
         && g.lo < g.hi <= g.seen == s'.now && s'.gaps == s.gaps + {g}
         && if s.stream == {} then s'.stream == {} && g.mark == None
            else exists n, status :: MarksNewest(s, s', n, status) && g.mark == Some(At(n))
       case Stamp(b, status) =>
         // any other status write: marks are never cleared, completion times never change
         && b in s.stream && status.completedAt == b.status.completedAt
         && (Marked(WithStatus(b, status)) <==> Marked(b))
         && s'.stream == s.stream - {b} + {WithStatus(b, status)} && s'.gaps == s.gaps
       case Delete(b) =>
         && b in s.stream && s'.stream == s.stream - {b} && s'.gaps == s.gaps
       case Idle =>
         s'.stream == s.stream && s'.gaps == s.gaps
  }

  lemma {:induction false} NextWellFormed(s: State, step: Step, s': State)
    requires WellFormed(s) && Next(s, step, s')
    ensures WellFormed(s')
  {
  }

  ghost predicate Init(s: State) {
    && WellFormed(s) && DistinctTimes(s.stream) && s.gaps == {}
    && forall b :: b in s.stream ==> !Marked(b) && At(b) <= s.now && EndKnown(b, s.collected)
  }

  // ---------------------------------------------------------------- invariants

  /** What holds whatever is deleted. */
  ghost predicate Coherent(s: State) {
    && WellFormed(s) && DistinctTimes(s.stream)
    && (forall b :: b in s.stream ==> At(b) <= s.now && EndKnown(b, s.collected))
    && (forall b :: b in s.stream && Marked(b) ==> exists g :: g in s.gaps && g.mark == Some(At(b)))
    && (forall g, b :: g in s.gaps && b in s.stream ==> Placed(g, b))
    && (forall g :: g in s.gaps ==>
          g.seen <= s.now && g.lo < g.hi <= g.seen && (g.mark.Some? ==> g.mark.value <= g.seen))
  }

  /** A backup either had completed by the mark, or completed after the gap was seen. */
  ghost predicate Placed(g: Gap, b: OpBackup)
    requires b.status.completedAt.Some?
  {
    (g.mark.Some? && At(b) <= g.mark.value) || g.seen < At(b)
  }

  /** The mark of a gap still has its effect: no surviving backup from before it counts as clean. */
  ghost predicate Kept(g: Gap, S: set<OpBackup>)
    requires AllCompleted(S)
  {
    forall b :: Clean(b, S) ==> g.mark.None? || g.mark.value < At(b)
  }

  ghost predicate AllKept(s: State)
    requires WellFormed(s)
  {
    forall g :: g in s.gaps ==> Kept(g, s.stream)
  }

  /** May this backup be deleted? Checkable on the list alone: it is unmarked, or a newer mark
      remains, or every older backup is hidden behind another mark. */
  ghost predicate SafeDelete(b: OpBackup, S: set<OpBackup>)
    requires AllCompleted(S) && b in S
  {
    || !Marked(b)
    || (exists m :: m in S && Marked(m) && At(b) < At(m))
    || (forall c :: c in S && At(c) < At(b) ==> Hidden(c, b, S))
  }

  /** A mark older than `b` hides `c`. */
  ghost predicate Hidden(c: OpBackup, b: OpBackup, S: set<OpBackup>)
    requires AllCompleted(S) && b in S && c in S
  {
    exists m :: m in S && Marked(m) && At(c) <= At(m) < At(b)
  }

  ghost predicate Guarded(s: State, step: Step)
    requires WellFormed(s)
  {
    step.Delete? && step.backup in s.stream ==> SafeDelete(step.backup, s.stream)
  }

  /** Deleting the oldest backup of the stream is always allowed. */
  lemma {:induction false} OldestFirstIsSafe(b: OpBackup, S: set<OpBackup>)
    requires AllCompleted(S) && b in S
    requires forall c :: c in S ==> At(b) <= At(c)
    ensures SafeDelete(b, S)
  {
  }

  lemma {:induction false} CoherentStep(s: State, step: Step, s': State)
    requires Coherent(s) && Next(s, step, s')
    ensures Coherent(s')
  {
    match step
    case Complete(b) => CompleteCoherent(s, b, s');
    case Delete(b) =>
    case Idle =>
    case Stamp(b, status) => StampCoherent(s, b, status, s');
    case Detect(g) =>
      if s.stream != {} {
        var n, status :| MarksNewest(s, s', n, status) && g.mark == Some(At(n));
        assert EndKnown(WithStatus(n, status), s'.collected);
        DetectCoherent(s, g, s', n, WithStatus(n, status));
      }
  }

  lemma {:induction false} CompleteCoherent(s: State, b: OpBackup, s': State)
    requires Coherent(s) && Next(s, Complete(b), s')
    ensures Coherent(s')
  {
  }

  lemma {:induction false} StampCoherent(s: State, b: OpBackup, status: OpStatus, s': State)
    requires Coherent(s) && Next(s, Stamp(b, status), s')
    ensures Coherent(s')
  {
  }

  lemma {:induction false} DetectCoherent(s: State, g: Gap, s': State, n: OpBackup, n': OpBackup)
    requires Coherent(s) && Newest(n, s.stream) && n'.status.completedAt == n.status.completedAt
    requires s'.stream == s.stream - {n} + {n'} && s'.gaps == s.gaps + {g} && s.now <= s'.now
    requires s.collected <= s'.collected && EndKnown(n', s'.collected)
    requires g.mark == Some(At(n)) && g.lo < g.hi <= g.seen == s'.now
    ensures Coherent(s')
  {
  }

  // ------------------------------------------------------ every mark keeps its effect

  /** Replacing a backup by a copy with the same instant and mark keeps who is clean. */
  lemma {:induction false} ReplaceKeepsClean(
    S: set<OpBackup>, S': set<OpBackup>, n: OpBackup, n': OpBackup, c: OpBackup)
    requires AllCompleted(S) && n in S && n'.status.completedAt == n.status.completedAt && (Marked(n) ==> Marked(n'))
    requires S' == S - {n} + {n'}
    requires Clean(c, S')
    ensures Clean(if c == n' then n else c, S)
  {
  }

  lemma {:induction false} CleanAfterDelete(S: set<OpBackup>, b: OpBackup, c: OpBackup)
    requires AllCompleted(S) && DistinctTimes(S) && b in S && SafeDelete(b, S)
    requires Clean(c, S - {b})
    ensures Clean(c, S)
  {
  }

  /** A backup that is clean after a guarded step just completed, or was clean before. */
  lemma {:induction false} CleanHasOrigin(s: State, step: Step, s': State, c: OpBackup) returns (d: OpBackup)
    requires Coherent(s) && Next(s, step, s') && Guarded(s, step) && !step.Detect? && WellFormed(s')
    requires Clean(c, s'.stream)
    ensures (step.Complete? && c == step.backup) || (Clean(d, s.stream) && At(d) == At(c))
  {
    d := c;
    match step
    case Complete(b) =>
      assert forall m :: m in s.stream ==> m in s'.stream;
    case Idle =>
    case Delete(b) => CleanAfterDelete(s.stream, b, c);
    case Stamp(b, status) =>
      ReplaceKeepsClean(s.stream, s'.stream, b, WithStatus(b, status), c);
      d := if c == WithStatus(b, status) then b else c;
  }

  /** Right after a detection nothing is clean: the newest backup is marked. */
  lemma {:induction false} NothingCleanAfterDetect(s: State, g: Gap, s': State, c: OpBackup)
    requires Coherent(s) && Next(s, Detect(g), s') && WellFormed(s')
    ensures !Clean(c, s'.stream)
  {
  }

  lemma {:induction false} KeptStep(s: State, step: Step, s': State)
    requires Coherent(s) && AllKept(s) && Next(s, step, s') && Guarded(s, step)
    ensures WellFormed(s') && AllKept(s')
  {
    NextWellFormed(s, step, s');
    if step.Detect? {
      forall c ensures !Clean(c, s'.stream) { NothingCleanAfterDetect(s, step.gap, s', c); }
    } else {
      forall g, c | g in s.gaps && Clean(c, s'.stream)
        ensures g.mark.None? || g.mark.value < At(c)
      {
        KeptAt(s, step, s', g, c);
      }
    }
  }

  lemma {:induction false} KeptAt(s: State, step: Step, s': State, g: Gap, c: OpBackup)
    requires Coherent(s) && AllKept(s) && Next(s, step, s') && Guarded(s, step) && !step.Detect? && WellFormed(s')
    requires g in s.gaps && Clean(c, s'.stream)
    ensures g.mark.None? || g.mark.value < At(c)
  {
    var d := CleanHasOrigin(s, step, s', c);
    assert Kept(g, s.stream) && g.seen <= s.now;
  }

  /** The guard is exact: from a state in which every mark has its effect, deleting a backup keeps
      that so if and only if the guard allows it. */
  lemma {:induction false} DeleteGuardIsExact(s: State, b: OpBackup, s': State)
    requires Coherent(s) && AllKept(s) && Next(s, Delete(b), s')
    ensures WellFormed(s') && (AllKept(s') <==> SafeDelete(b, s.stream))
  {
    if SafeDelete(b, s.stream) {
      KeptStep(s, Delete(b), s');
    } else {
      UnsafeDeleteLosesMark(s, b, s');
    }
  }

  lemma {:induction false} UnsafeDeleteLosesMark(s: State, b: OpBackup, s': State)
    requires Coherent(s) && b in s.stream && s'.stream == s.stream - {b} && s'.gaps == s.gaps
    requires !SafeDelete(b, s.stream)
    ensures WellFormed(s') && !AllKept(s')
  {
  }

  // --------------------------------------------------------------- the published window

  /** A window of the stream in state `s`, from any listing and any order of the sort. */
  ghost predicate Published(w: Window, s: State) {
    exists bs :: Lists(bs, s.stream) && w == WindowOf(bs)
  }

  ghost predicate Lists(bs: seq<OpBackup>, S: set<OpBackup>) {
    OldestFirst(bs) && forall b :: b in bs <==> b in S
  }

  /** Every gap seen so far was seen before the window's start, and so lies before it. */
  ghost predicate Sound(w: Window, s: State) {
    w.state == Available && w.earliest.Some? && forall g :: g in s.gaps ==> g.seen < w.earliest.value
  }

  lemma {:induction false} PublishedStartsClean(w: Window, s: State) returns (e: OpBackup)
    requires Coherent(s) && Published(w, s) && w.state == Available
    ensures OldestClean(e, s.stream) && w.earliest == Some(At(e))
    ensures w.latest.Some? && w.latest.value <= s.collected
  {
    var bs :| Lists(bs, s.stream) && w == WindowOf(bs);
    var n;
    e, n := AvailableWindowSpans(bs, s.stream);
  }

  /** Whatever was deleted, an available window is sound exactly when every mark has its effect. */
  lemma {:induction false} SoundExactlyWhenKept(w: Window, s: State)
    requires Coherent(s) && Published(w, s) && w.state == Available
    ensures Sound(w, s) <==> AllKept(s)
  {
    var e := PublishedStartsClean(w, s);
    if AllKept(s) {
      forall g | g in s.gaps
        ensures g.seen < At(e)
      {
        assert Kept(g, s.stream) && Placed(g, e);
      }
    }
    if Sound(w, s) {
      forall g | g in s.gaps
        ensures Kept(g, s.stream)
      {
        assert g.seen < At(e);
      }
    }
  }

  // ------------------------------------------------------------------------- whole runs

  ghost predicate IsRun(states: seq<State>, steps: seq<Step>) {
    && |states| == |steps| + 1 && Init(states[0])
    && (forall i :: 0 <= i < |states| ==> WellFormed(states[i]))
    && (forall i {:trigger steps[i]} :: 0 <= i < |steps| ==> GuardedNext(states[i], steps[i], states[i + 1]))
  }

  ghost predicate GuardedNext(s: State, step: Step, s': State)
    requires WellFormed(s)
  {
    Next(s, step, s') && Guarded(s, step)
  }

  lemma {:induction false} RunKeepsMarks(states: seq<State>, steps: seq<Step>, i: nat)
    requires IsRun(states, steps) && i < |states|
    ensures Coherent(states[i]) && AllKept(states[i])
  {
    if i > 0 {
      RunKeepsMarks(states, steps, i - 1);
      CoherentStep(states[i - 1], steps[i - 1], states[i]);
      KeptStep(states[i - 1], steps[i - 1], states[i]);
    }
  }

  /** In every state of every run, every gap seen so far lies before the published window, and the
      window ends within what was collected. */
  lemma {:induction false} WindowSoundInEveryRun(states: seq<State>, steps: seq<Step>, i: nat, w: Window)
    requires IsRun(states, steps) && i < |states| && Published(w, states[i]) && w.state == Available
    ensures Sound(w, states[i]) && w.latest.Some? && w.latest.value <= states[i].collected
  {
    RunKeepsMarks(states, steps, i);
    var e := PublishedStartsClean(w, states[i]);
    SoundExactlyWhenKept(w, states[i]);
  }

  // ----------------------------------------------------------- the window never moves back

  /** Any window, now or later, starts at or after `t`. */
  ghost predicate Floor(t: Time, s: State)
    requires WellFormed(s)
  {
    t <= s.now && forall b :: Clean(b, s.stream) ==> t <= At(b)
  }

  lemma {:induction false} FloorStep(t: Time, s: State, step: Step, s': State)
    requires Coherent(s) && Floor(t, s) && Next(s, step, s') && Guarded(s, step)
    ensures WellFormed(s') && Floor(t, s')
  {
    NextWellFormed(s, step, s');
    if step.Detect? {
      forall c ensures !Clean(c, s'.stream) { NothingCleanAfterDetect(s, step.gap, s', c); }
    } else {
      forall c | Clean(c, s'.stream)
        ensures t <= At(c)
      {
        var d := CleanHasOrigin(s, step, s', c);
      }
    }
  }

  lemma {:induction false} FloorPersists(t: Time, states: seq<State>, steps: seq<Step>, i: nat, j: nat)
    requires IsRun(states, steps) && i <= j < |states| && Floor(t, states[i])
    ensures Floor(t, states[j])
    decreases j
  {
    if i < j {
      FloorPersists(t, states, steps, i, j - 1);
      FloorAdvances(t, states, steps, j - 1);
    }
  }

  lemma {:induction false} FloorAdvances(t: Time, states: seq<State>, steps: seq<Step>, i: nat)
    requires IsRun(states, steps) && i < |steps| && Floor(t, states[i])
    ensures Floor(t, states[i + 1])
  {
    RunKeepsMarks(states, steps, i);
    assert GuardedNext(states[i], steps[i], states[i + 1]);
    FloorStep(t, states[i], steps[i], states[i + 1]);
  }

  /** A later window never starts before an earlier one did. */
  lemma {:induction false} EarliestNeverMovesBack(
    states: seq<State>, steps: seq<Step>, i: nat, j: nat, w: Window, w': Window)
    requires IsRun(states, steps) && i <= j < |states|
    requires Published(w, states[i]) && w.state == Available
    requires Published(w', states[j]) && w'.state == Available
    ensures w.earliest.Some? && w'.earliest.Some? && w.earliest.value <= w'.earliest.value
  {
    RunKeepsMarks(states, steps, i);
    RunKeepsMarks(states, steps, j);
    var e := PublishedStartsClean(w, states[i]);
    var e' := PublishedStartsClean(w', states[j]);
    FloorPersists(At(e), states, steps, i, j);
  }

  // ------------------------------------------------------------------- why the guard is there

  /** Three backups: an old one, one that completes as `unmarked` and is then `marked`, and a newer one. */
  datatype Cast = Cast(first: OpBackup, unmarked: OpBackup, marked: OpBackup, last: OpBackup)

  ghost predicate Casting(c: Cast) {
    && c.first.status.completedAt == Some(10) && !Marked(c.first) && c.first.status.latestRestorable.None?
    && c.unmarked.status.completedAt == Some(20) && !Marked(c.unmarked) && c.unmarked.status.latestRestorable.None?
    && c.marked == WithStatus(c.unmarked, c.marked.status)
    && c.marked.status.completedAt == Some(20) && Marked(c.marked) && c.marked.status.latestRestorable.None?
    && c.last.status.completedAt == Some(40) && !Marked(c.last) && c.last.status.latestRestorable == Some(50)
  }

  const SPANNED_GAP := Gap(20, 30, 30, Some(20))

  ghost function CastStates(c: Cast): seq<State> {
    [State(0, 0, {}, {}), State(10, 10, {c.first}, {}), State(20, 20, {c.first, c.unmarked}, {}),
     State(30, 20, {c.first, c.marked}, {SPANNED_GAP}), State(50, 50, {c.first, c.marked, c.last}, {SPANNED_GAP})]
  }

  ghost function CastSteps(c: Cast): seq<Step> {
    [Complete(c.first), Complete(c.unmarked), Detect(SPANNED_GAP), Complete(c.last)]
  }

  ghost function AfterDeletion(c: Cast): State {
    State(50, 50, {c.first, c.last}, {SPANNED_GAP})
  }

  lemma {:induction false} CastDetects(c: Cast)
    requires Casting(c)
    ensures Next(CastStates(c)[2], Detect(SPANNED_GAP), CastStates(c)[3])
  {
    var s, s' := CastStates(c)[2], CastStates(c)[3];
    assert Newest(c.unmarked, s.stream);
    assert s'.stream == s.stream - {c.unmarked} + {c.marked};
    assert MarksNewest(s, s', c.unmarked, c.marked.status);
  }

  lemma {:induction false} CastRuns(c: Cast)
    requires Casting(c)
    ensures IsRun(CastStates(c), CastSteps(c))
  {
    var states, steps := CastStates(c), CastSteps(c);
    assert Next(states[0], steps[0], states[1]);
    assert Next(states[1], steps[1], states[2]);
    CastDetects(c);
    assert Next(states[3], steps[3], states[4]);
  }

  lemma {:induction false} CastSpans(c: Cast) returns (w: Window)
    requires Casting(c)
    ensures Next(CastStates(c)[4], Delete(c.marked), AfterDeletion(c))
    ensures Published(w, AfterDeletion(c)) && w.state == Available && w.earliest == Some(10) && w.latest == Some(50)
  {
    assert CastStates(c)[4].stream - {c.marked} == AfterDeletion(c).stream;
    var bs := [c.first, c.last];
    assert Lists(bs, AfterDeletion(c).stream);
    assert LastMarked(bs[..1]) == -1;
    w := WindowOf(bs);
  }

  /** A run of the operator at whose end deleting the marked backup, while an older one survives,
      publishes a window with the gap inside it. */
  lemma {:induction false} OutOfOrderDeletionExample() returns (c: Cast, w: Window)
    ensures Casting(c) && c.first.name == "manual" && c.marked.name == "hourly-1" && c.last.name == "hourly-2"
    ensures c.first.storage == c.marked.storage == c.last.storage == "s3"
    ensures IsRun(CastStates(c), CastSteps(c)) && Next(CastStates(c)[4], Delete(c.marked), AfterDeletion(c))
    ensures Published(w, AfterDeletion(c)) && w.state == Available && SPANNED_GAP in AfterDeletion(c).gaps
    ensures w.earliest.Some? && w.latest.Some?
    ensures w.earliest.value <= SPANNED_GAP.lo && SPANNED_GAP.hi <= w.latest.value
  {
    var first := OpBackup("manual", "db", "s3", OpStatus(Succeeded, Some(10), None, [], ""));
    var unmarked := OpBackup("hourly-1", "db", "s3", OpStatus(Succeeded, Some(20), None, [], ""));
    var marked := WithStatus(unmarked, OpStatus(Succeeded, Some(20), None, [Condition("PITRReady", "False", "")], ""));
    var last := OpBackup("hourly-2", "db", "s3", OpStatus(Succeeded, Some(40), Some(50), [], ""));
    c := Cast(first, unmarked, marked, last);
    assert IsGap(marked.status.conditions[0]);
    CastRuns(c);
    w := CastSpans(c);
  }
}
