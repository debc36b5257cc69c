/**
 Whether an indexed revision still has its chunks. A snapshot row outlives them: ingesting its commit again
 replaces the file rows, and every chunk goes with the file it refers to.
 */
module LifecycleChunks {
  import opened Options
  import opened Lifecycle
  import opened LifecycleRuns

  /** The chunk table has all chunks that were built for this revision. */
  ghost predicate HasChunks(snapshots: map<Id, Snapshot>, repo: Id, revision: RevisionKey) {
    exists s :: s in snapshots && IsReadyFor(snapshots[s], repo, revision) && snapshots[s].intact
  }

  /** `search` without an explicit revision looks into the chunks of the indexed revision. */
  ghost predicate Searchable(db: Db, repo: Id)
    requires repo in db.repos
  {
    db.repos[repo].indexedRevision.Some? && HasChunks(db.snapshots, repo, db.repos[repo].indexedRevision.value)
  }

  /** The step commits an index build that stores snapshot s. */
  ghost predicate Builds(db: Db, step: Step, s: Id) {
    step.op.Index? && step.op.snapshot == s && s !in db.snapshots && s in Next(db, step).db.snapshots
  }

  /** The step commits an ingestion of this very commit, with its scan completed. */
  ghost predicate IngestsAgain(db: Db, step: Step, revision: RevisionKey) {
    && step.op.Ingest? && step.op.scan.Scans? && Next(db, step).ok
    && step.op.run in db.runs && RevisionKey(db.runs[step.op.run].repo, step.op.scan.commit) == revision
  }

  /** What one step does to a snapshot that is there before and after it. */
  lemma {:induction false} SnapshotStep(db: Db, step: Step, s: Id)
    requires Enabled(db, step.op) && s in db.snapshots && s in Next(db, step).db.snapshots
    ensures var before, after := db.snapshots[s], Next(db, step).db.snapshots[s];
            && after == before.(intact := after.intact)
            && (after.intact <==> before.intact && !IngestsAgain(db, step, before.revision))
  {
    hide Finished, HasActive, UrlTaken, AlreadyIndexed, ReadySnapshots, RevisionSnapshots, Allowed;
    if step.op.Ingest? {
      IngestStep(db, step, s);
    }
    hide Ingests, WithoutChunks;
  }

  lemma {:induction false} IngestStep(db: Db, step: Step, s: Id)
    requires step.op.Ingest? && Enabled(db, step.op) && s in db.snapshots
    ensures s in Next(db, step).db.snapshots
    ensures var before, after := db.snapshots[s], Next(db, step).db.snapshots[s];
            && after == before.(intact := after.intact)
            && (after.intact <==> before.intact && !IngestsAgain(db, step, before.revision))
  {
    hide Finished, Allowed;
  }

  /** A new snapshot comes from a build of the latest revision, with its chunks. */
  lemma {:induction false} NewSnapshot(db: Db, step: Step, s: Id)
    requires Enabled(db, step.op) && s !in db.snapshots && s in Next(db, step).db.snapshots
    ensures Builds(db, step, s) && !step.crashes && Next(db, step).ok
    ensures var repo := db.runs[step.op.run].repo;
            && repo in db.repos && db.repos[repo].latestRevision.Some?
            && Next(db, step).db.snapshots[s] == Snapshot(repo, db.repos[repo].latestRevision.value, true, true)
  {
    hide Finished, HasActive, UrlTaken, AlreadyIndexed, ReadySnapshots, RevisionSnapshots, Allowed;
  }

  /** Snapshot s is there from step b, which built it, until state k. */
  ghost predicate BuiltBy(dbs: seq<Db>, steps: seq<Step>, s: Id, b: nat, k: nat)
    requires IsRun(dbs, steps)
  {
    && b < k < |dbs| && Builds(dbs[b], steps[b], s)
    && forall m :: b < m <= k ==> s in dbs[m].snapshots
  }

  /** Every snapshot was stored by a build. */
  lemma {:induction false} SnapshotHasBuild(dbs: seq<Db>, steps: seq<Step>, s: Id, k: nat) returns (b: nat)
    requires IsRun(dbs, steps) && k < |dbs| && s in dbs[k].snapshots
    ensures BuiltBy(dbs, steps, s, b, k)
    decreases k
  {
    hide Next, Enabled, Builds;
    if s in dbs[k - 1].snapshots {
      b := SnapshotHasBuild(dbs, steps, s, k - 1);
    } else {
      b := k - 1;
      NewSnapshot(dbs[b], steps[b], s);
    }
  }

  /** The commit was ingested again after step b and before state k. */
  ghost predicate IngestedSince(dbs: seq<Db>, steps: seq<Step>, revision: RevisionKey, b: nat, k: nat)
    requires IsRun(dbs, steps) && k < |dbs|
  {
    exists j :: b < j < k && IngestsAgain(dbs[j], steps[j], revision)
  }

  /** Exactly when a snapshot still has its chunks: its commit was not ingested again since its build. */
  lemma {:induction false} ChunksStayIff(dbs: seq<Db>, steps: seq<Step>, s: Id, b: nat, k: nat)
    requires IsRun(dbs, steps) && BuiltBy(dbs, steps, s, b, k)
    ensures var now, built := dbs[k].snapshots[s], dbs[b + 1].snapshots[s];
            && now == built.(intact := now.intact)
            && (now.intact <==> !IngestedSince(dbs, steps, built.revision, b, k))
    decreases k
  {
    hide Next, Enabled, IngestsAgain;
    NewSnapshot(dbs[b], steps[b], s);
    if b + 1 < k {
      ChunksStayIff(dbs, steps, s, b, k - 1);
      assert s in dbs[k].snapshots;
      SnapshotStep(dbs[k - 1], steps[k - 1], s);
      LastStepIngests(dbs, steps, dbs[b + 1].snapshots[s].revision, b, k);
    }
  }

  lemma {:induction false} LastStepIngests(dbs: seq<Db>, steps: seq<Step>, revision: RevisionKey, b: nat, k: nat)
    requires IsRun(dbs, steps) && b + 1 < k < |dbs|
    ensures IngestedSince(dbs, steps, revision, b, k) <==>
            IngestedSince(dbs, steps, revision, b, k - 1) || IngestsAgain(dbs[k - 1], steps[k - 1], revision)
  {
    hide IngestsAgain, Next, Enabled;
  }

  /** A revision has one snapshot at most, so its chunks are those of that snapshot. */
  lemma {:induction false} OneSnapshotDecides(db: Db, repo: Id, revision: RevisionKey, s: Id)
    requires SnapshotsOk(db.snapshots, db.repos.Keys) && s in db.snapshots
             && IsReadyFor(db.snapshots[s], repo, revision)
    ensures HasChunks(db.snapshots, repo, revision) <==> db.snapshots[s].intact
  {
    assert forall t :: t in db.snapshots && IsReadyFor(db.snapshots[t], repo, revision) ==>
                         SameRevision(db.snapshots[t], db.snapshots[s]);
  }

  /**
   Over every run, a visible repository with an indexed revision has a snapshot of it from one build, and a
   search finds its chunks if and only if that commit was not ingested again since that build.
   */
  lemma {:induction false} SearchableIff(dbs: seq<Db>, steps: seq<Step>, repo: Id, k: nat) returns (s: Id, b: nat)
    requires IsRun(dbs, steps) && k < |dbs| && repo in dbs[k].repos
    requires !dbs[k].repos[repo].deleted && dbs[k].repos[repo].indexedRevision.Some?
    ensures BuiltBy(dbs, steps, s, b, k)
    ensures var revision := dbs[k].repos[repo].indexedRevision.value;
            && s in dbs[b + 1].snapshots && IsReadyFor(dbs[b + 1].snapshots[s], repo, revision)
            && (Searchable(dbs[k], repo) <==> !IngestedSince(dbs, steps, revision, b, k))
  {
    CommittedStatesAreSound(dbs, steps, k);
    var revision := dbs[k].repos[repo].indexedRevision.value;
    assert HasReadySnapshot(dbs[k].snapshots, repo, revision);
    s :| s in dbs[k].snapshots && IsReadyFor(dbs[k].snapshots[s], repo, revision);
    OneSnapshotDecides(dbs[k], repo, revision, s);
    b := SnapshotHasBuild(dbs, steps, s, k);
    ChunksStayIff(dbs, steps, s, b, k);
    hide IsRun, Inv, HasChunks, IngestedSince;
  }

  /**
   Chunks that are gone stay gone: no later call or task of a repository that is not deleted builds this
   revision again, because its snapshot row is still there.
   */
  lemma {:induction false} LostChunksNeverReturn(dbs: seq<Db>, steps: seq<Step>, repo: Id, s: Id, i: nat, j: nat)
    requires IsRun(dbs, steps) && i <= j < |dbs| && s in dbs[i].snapshots && !dbs[i].snapshots[s].intact
    requires dbs[i].snapshots[s].repo == repo && repo in dbs[j].repos && !dbs[j].repos[repo].deleted
    ensures s in dbs[j].snapshots && dbs[j].snapshots[s] == dbs[i].snapshots[s]
    ensures !HasChunks(dbs[j].snapshots, repo, dbs[i].snapshots[s].revision)
    decreases j
  {
    hide Next, Enabled, Inv, HasChunks, IsReadyFor;
    CommittedStatesAreSound(dbs, steps, j);
    if i < j {
      CommittedStatesAreSound(dbs, steps, j - 1);
      if repo in dbs[j - 1].repos {
        WritesAreFaithful(dbs[j - 1], steps[j - 1], repo);
        LostChunksNeverReturn(dbs, steps, repo, s, i, j - 1);
        SnapshotsStayIfVisible(dbs[j - 1], steps[j - 1], s);
        SnapshotStep(dbs[j - 1], steps[j - 1], s);
      } else {
        CommittedStatesAreSound(dbs, steps, i);
        assert false by { SnapshotsHaveRepositories(dbs, steps, s, repo, i, j - 1); }
      }
    }
    StillNoChunks(dbs[j], repo, s);
  }

  lemma {:induction false} SnapshotsHaveRepositories(dbs: seq<Db>, steps: seq<Step>, s: Id, repo: Id, i: nat, j: nat)
    requires IsRun(dbs, steps) && i <= j < |dbs| && s in dbs[i].snapshots && dbs[i].snapshots[s].repo == repo
    ensures repo in dbs[j].repos
  {
    hide Next, Enabled;
    CommittedStatesAreSound(dbs, steps, i);
    RowsStay(dbs, steps, repo, i, j);
  }

  lemma {:induction false} StillNoChunks(db: Db, repo: Id, s: Id)
    requires Inv(db) && s in db.snapshots && db.snapshots[s].repo == repo && !db.snapshots[s].intact
    ensures !HasChunks(db.snapshots, repo, db.snapshots[s].revision)
  {
    OneSnapshotDecides(db, repo, db.snapshots[s].revision, s);
    hide HasChunks;
  }

  lemma {:induction false} SnapshotsStayIfVisible(db: Db, step: Step, s: Id)
    requires Enabled(db, step.op) && s in db.snapshots
    requires db.snapshots[s].repo in db.repos && !db.repos[db.snapshots[s].repo].deleted
    ensures s in Next(db, step).db.snapshots
  {
    hide Finished, HasActive, UrlTaken, AlreadyIndexed, ReadySnapshots, RevisionSnapshots, Allowed;
  }

  /**
   An index task that commits leaves the repository `ready` with its latest revision as the indexed one and a
   snapshot row for it; it can be searched exactly when the task built it now or its chunks were still there.
   */
  lemma {:induction false} IndexMakesSearchableIff(db: Db, step: Step)
    requires Inv(db) && step.op.Index? && Enabled(db, step.op) && Next(db, step).ok
    ensures var repo, after := db.runs[step.op.run].repo, Next(db, step).db;
            && repo in db.repos && repo in after.repos && after.repos[repo].status == Ready
            && after.repos[repo].indexedRevision == db.repos[repo].latestRevision && db.repos[repo].latestRevision.Some?
            && step.op.run in after.runs && after.runs[step.op.run].status == RunSucceeded
            && HasReadySnapshot(after.snapshots, repo, db.repos[repo].latestRevision.value)
            && (Searchable(after, repo) <==>
                !AlreadyIndexed(db, repo) || HasChunks(db.snapshots, repo, db.repos[repo].latestRevision.value))
  {
    var repo := db.runs[step.op.run].repo;
    IndexedRow(db, step);
    if AlreadyIndexed(db, repo) {
      IndexedHasSnapshot(db, repo);
    }
    hide *;
    if !AlreadyIndexed(db, repo) {
      NewHasChunks(Next(db, step).db.snapshots, step.op.snapshot, repo, db.repos[repo].latestRevision.value);
    }
    SearchableIs(Next(db, step).db, repo);
  }

  lemma {:induction false} SearchableIs(db: Db, repo: Id)
    requires repo in db.repos && db.repos[repo].indexedRevision.Some?
    ensures Searchable(db, repo) <==> HasChunks(db.snapshots, repo, db.repos[repo].indexedRevision.value)
  {
    hide HasChunks;
  }

  /** The rows a committed index task leaves. */
  lemma {:induction false} IndexedRow(db: Db, step: Step)
    requires Inv(db) && step.op.Index? && Enabled(db, step.op) && Next(db, step).ok
    ensures var repo, after := db.runs[step.op.run].repo, Next(db, step).db;
            && repo in db.repos && db.repos[repo].latestRevision.Some?
            && repo in after.repos && after.repos[repo].status == Ready
            && after.repos[repo].indexedRevision == db.repos[repo].latestRevision
            && step.op.run in after.runs && after.runs[step.op.run].status == RunSucceeded
            && after.snapshots == (if AlreadyIndexed(db, repo) then db.snapshots else db.snapshots[
                 step.op.snapshot := Snapshot(repo, db.repos[repo].latestRevision.value, true, true)])
  {
    var run := db.runs[step.op.run];
    FinishedRun(run, RunSucceeded, [StartedEvent]);
    FinishedRun(run, RunSucceeded, [StartedEvent, CompletedEvent]);
    hide Finished, Inv, Enabled, AlreadyIndexed, RevisionSnapshots, ReadySnapshots;
  }

  lemma {:induction false} NewHasChunks(snapshots: map<Id, Snapshot>, s: Id, repo: Id, revision: RevisionKey)
    requires s in snapshots && snapshots[s] == Snapshot(repo, revision, true, true)
    ensures HasChunks(snapshots, repo, revision) && HasReadySnapshot(snapshots, repo, revision)
  {
    assert IsReadyFor(snapshots[s], repo, revision);
  }

  /** Repository 0 indexed, synced while the remote had not moved, and ingested again by run 2. */
  ghost predicate IngestedTwice(db: Db) {
    && db.repos == map[0 := Repository(0, "u", ReadyForIndexing, false, Some(V), Some(V))]
    && V in db.revisions && db.snapshots == map[0 := Snapshot(0, V, true, false)]
    && db.runs.Keys == {0, 1, 2} && db.runs[1].status == RunSucceeded
    && db.runs[0].kind == IngestionRun && db.runs[1].kind == IndexingRun && db.runs[2].kind == IngestionRun
  }

  lemma {:induction false} ReachIngestedTwice() returns (dbs: seq<Db>, steps: seq<Step>)
    ensures IsRun(dbs, steps) && IngestedTwice(dbs[|steps|])
  {
    hide Finished, WithEvent;
    dbs, steps := ReachIndexed();
    var indexed := dbs[|steps|];
    hide IsRun;
    assert !HasActive(indexed, 0, IngestionRun);
    dbs, steps := Extend(dbs, steps, Sync(0, 0, 2));
    var synced := Apply(indexed, Sync(0, 0, 2)).db;
    assert synced.repos == map[0 := Repository(0, "u", Queued, false, Some(V), Some(V))];
    assert synced.runs == indexed.runs[2 := Run(0, IngestionRun, RunQueued, [Event(1, QueuedEvent)])];
    FinishedRun(synced.runs[2], RunSucceeded, [StartedEvent, ClonedEvent, CompletedEvent]);
    dbs, steps := Extend(dbs, steps, Ingest(2, Scans("c")));
    assert WithoutChunks(synced.snapshots, V) == map[0 := Snapshot(0, V, true, false)];
  }

  /**
   An ordinary run, every task delivered once, to a ready repository whose search is empty: ingest and index a
   commit, sync while the remote has not moved, and index again.
   */
  lemma {:induction false} EmptySearchIsReachable() returns (dbs: seq<Db>, steps: seq<Step>)
    ensures IsRun(dbs, steps)
    ensures var db := dbs[|steps|];
            && 0 in db.repos && db.repos[0].status == Ready && !db.repos[0].deleted
            && db.repos[0].latestRevision == db.repos[0].indexedRevision == Some(V) && !Searchable(db, 0)
  {
    dbs, steps := ReachIngestedTwice();
    var again := dbs[|steps|];
    hide IsRun;
    assert !HasActive(again, 0, IndexingRun);
    dbs, steps := Extend(dbs, steps, RequestIndex(0, 0, 3));
    var requested := Apply(again, RequestIndex(0, 0, 3)).db;
    assert requested.repos == again.repos && requested.snapshots == again.snapshots
           && requested.revisions == again.revisions;
    assert requested.runs == again.runs[3 := Run(0, IndexingRun, RunQueued, [Event(1, QueuedEvent)])];
    LostChunksAreNotRebuilt(requested);
    dbs, steps := Extend(dbs, steps, Index(3, 1));
  }

  lemma {:induction false} LostChunksAreNotRebuilt(db: Db)
    requires 0 in db.repos && db.repos[0].latestRevision == Some(V) && V in db.revisions
    requires db.snapshots == map[0 := Snapshot(0, V, true, false)]
    requires 3 in db.runs && db.runs[3].repo == 0
    ensures var after := Indexes(db, 3, 1).db;
            && after.repos == db.repos[0 := db.repos[0].(status := Ready, indexedRevision := Some(V))]
            && after.snapshots == db.snapshots && !HasChunks(after.snapshots, 0, V)
  {
    assert RevisionSnapshots(db.snapshots, 0, V) == {0};
    assert AlreadyIndexed(db, 0) by { assert 0 in RevisionSnapshots(db.snapshots, 0, V); }
  }
}
