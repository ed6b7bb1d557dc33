/** The published window, the Backup resources and SyncRestore together: what a client is offered is what
    it gets. */
module RecoveryEndToEnd {

  import opened Prelude
  import opened OperatorBackups
  import opened WindowRule
  import opened BaseSelection
  import opened Lifecycle
  import R = BinlogRuns
  import LR = LifecycleRuns

  /** The stream of the run is the stream the API server stores. */
  ghost predicate SameStream(s: R.State, w: World, cluster: string, storage: string) {
    && (forall n :: n in w.store.ops && Eligible(w.store.ops[n].body, cluster, storage) ==>
          w.store.ops[n].body in s.stream)
    && (forall b :: b in s.stream ==>
          b.name in w.store.ops && w.store.ops[b.name].body == b && Eligible(b, cluster, storage))
  }

  /** SyncBackup has run on every backup of the stream since its status last changed: the resources and
      the operator backups report the same. */
  ghost predicate Settled(w: World, cluster: string, storage: string) {
    && (forall n :: n in w.crs ==> w.crs[n].name == n)
    && (forall n :: n in w.store.ops && Eligible(w.store.ops[n].body, cluster, storage) ==>
                      LR.Reflects(w, n) && w.crs[n].instance == cluster && w.crs[n].storage == storage)
    && (forall n :: n in w.crs && w.crs[n].instance == cluster && Candidate(w.crs[n], storage, None) ==>
                      n in w.store.ops && Eligible(w.store.ops[n].body, cluster, storage) && LR.Reflects(w, n)
                      && w.store.ops[n].body.name == n)
  }

  lemma {:induction false} SettledIsInSync(
    s: R.State, w: World, cluster: string, storage: string, listing: seq<BackupCR>)
    requires SameStream(s, w, cluster, storage) && Settled(w, cluster, storage) && LR.IsListing(w, listing, cluster)
    ensures InSync(listing, storage, s.stream)
  {
  }

  /** `all` is the API server's answer to listing the operator backups. */
  ghost predicate ListsStored(w: World, all: seq<OpBackup>) {
    && (forall n :: n in w.store.ops ==> w.store.ops[n].body in all)
    && (forall b :: b in all ==> exists n :: n in w.store.ops && w.store.ops[n].body == b)
  }

  /** What the status publishes for a storage is a window of the run's stream. */
  lemma {:induction false} PublishedIsOfStream(
    s: R.State, w: World, all: seq<OpBackup>, window: Window, cluster: string, storage: string)
    requires SameStream(s, w, cluster, storage) && ListsStored(w, all) && Publishes(window, all, cluster, storage)
    ensures R.Published(window, s)
  {
    var bs :| MayCollect(bs, all, cluster, storage) && window == WindowOf(bs);
    SelectionIsStream(bs, all, cluster, storage);
    assert forall b :: b in StreamOf(all, cluster, storage) <==> b in s.stream;
    assert R.Lists(bs, s.stream);
  }

  /** A dated point-in-time Restore of this stream. */
  predicate Asks(r: RestoreCR, cluster: string, storage: string, d: Time) {
    && r.source.FromPointInTime? && r.source.pitr.Some?
    && (if r.source.pitr.value.instance.Some? then r.source.pitr.value.instance.value else r.instance) == cluster
    && r.source.pitr.value.storage == storage && r.source.pitr.value.date == Some(d)
  }

  /** SyncRestore submits a restore of time `d` from a stored backup of the stream completed between `from`
      and `d`, and the replay up to `d` meets no gap and stays within what was collected. */
  ghost predicate Served(
    w: World, listing: seq<BackupCR>, n: string, cluster: string, storage: string, from: Time, d: Time, s: R.State)
    requires n in w.restores
  {
    var r := SyncRestore(w, n, listing);
    && r.1 == RestoreExec(RestorePending, None) && n in r.0.restoreStore.ops
    && var spec := r.0.restoreStore.ops[n].spec;
       && spec.cluster == w.restores[n].instance && spec.pitr.Some? && spec.pitr.value.date == Some(d)
       && spec.backupName in w.store.ops
       && var base := w.store.ops[spec.backupName].body;
          && Eligible(base, cluster, storage) && spec.pitr.value.source == base.status
          && from <= At(base) <= d <= s.collected && ReplayClear(At(base), d, s)
  }

  /** In every state of every run of the operator, a Restore to a time inside the window the status
      publishes for the storage is submitted at once, from a backup inside the window. */
  lemma {:induction false} OfferedTimeIsRestored(
    states: seq<R.State>, steps: seq<R.Step>, i: nat, window: Window,
    w: World, all: seq<OpBackup>, listing: seq<BackupCR>, n: string, cluster: string, storage: string, d: Time)
    requires R.IsRun(states, steps) && i < |states|
    requires ListsStored(w, all) && Publishes(window, all, cluster, storage) && window.state == Available
    requires window.earliest.Some? && window.latest.Some? && window.earliest.value <= d <= window.latest.value
    requires SameStream(states[i], w, cluster, storage) && Settled(w, cluster, storage)
    requires n in w.restores && n !in w.restoreStore.ops && Asks(w.restores[n], cluster, storage, d)
    requires LR.IsListing(w, listing, cluster)
    ensures Served(w, listing, n, cluster, storage, window.earliest.value, d, states[i])
  {
    PublishedIsOfStream(states[i], w, all, window, cluster, storage);
    SettledIsInSync(states[i], w, cluster, storage, listing);
    OfferedTargetsAreRestorable(states, steps, i, window, listing, storage, d);
    SubmitsBest(w, listing, n, cluster, storage, d);
  }

  /** A Restore for whose target some base is selected is submitted from that base. */
  lemma {:induction false} SubmitsBest(
    w: World, listing: seq<BackupCR>, n: string, cluster: string, storage: string, d: Time)
    requires Settled(w, cluster, storage) && LR.IsListing(w, listing, cluster)
    requires n in w.restores && n !in w.restoreStore.ops && Asks(w.restores[n], cluster, storage, d)
    requires Best(listing, storage, Some(d)).Some?
    ensures var r := SyncRestore(w, n, listing);
            && r.1 == RestoreExec(RestorePending, None) && n in r.0.restoreStore.ops
            && var spec := r.0.restoreStore.ops[n].spec;
               && spec.cluster == w.restores[n].instance && spec.pitr.Some? && spec.pitr.value.date == Some(d)
               && spec.backupName in w.store.ops
               && var base := w.store.ops[spec.backupName].body;
                  && Eligible(base, cluster, storage) && spec.pitr.value.source == base.status
                  && Best(listing, storage, Some(d)).value.completedAt == Some(At(base))
  {
  }
}
