/**
 Index runs that wait for ever. A task that raises rolls its run back to queued; a later request answers that
 run instead of queueing one, and the route sends a task only for a run that was created
 (backend/app/api/v1/indexing.py). With two ready snapshots every task for a further commit raises.
 */
module LifecycleStalls {
  import opened Options
  import opened Lifecycle
  import opened LifecycleRuns

  ghost predicate Waits(db: Db, run: Id) {
    run in db.runs && db.runs[run].kind == IndexingRun && db.runs[run].status == RunQueued
  }

  ghost predicate Ended(db: Db, run: Id) {
    run in db.runs && db.runs[run].kind == IndexingRun && db.runs[run].status == RunSucceeded
  }

  /** The step is a task of this run that commits. */
  ghost predicate Commits(db: Db, step: Step, run: Id) {
    step.op.Index? && step.op.run == run && Next(db, step).ok
  }

  lemma {:induction false} IndexRunStep(db: Db, step: Step, run: Id)
    requires Inv(db) && Enabled(db, step.op) && run in db.runs && db.runs[run].kind == IndexingRun
    ensures Commits(db, step, run) ==> Ended(Next(db, step).db, run)
    ensures !Commits(db, step, run) ==> run in Next(db, step).db.runs && Next(db, step).db.runs[run] == db.runs[run]
  {
    if step.op.Index? && step.op.run == run {
      OwnIndexStep(db, step);
    } else {
      assert !(step.op.Ingest? && step.op.run == run);
      RunUntouched(db, step, run);
    }
    hide Next, Inv, Enabled;
  }

  lemma {:induction false} OwnIndexStep(db: Db, step: Step)
    requires Inv(db) && Enabled(db, step.op) && step.op.Index?
    ensures if Next(db, step).ok then Ended(Next(db, step).db, step.op.run) else Next(db, step).db == db
  {
    var run := db.runs[step.op.run];
    assert Numbered(run.events);
    OwnIndexRow(db, step);
    hide *;
    FinishedRun(run, RunSucceeded, [StartedEvent]);
    FinishedRun(run, RunSucceeded, [StartedEvent, CompletedEvent]);
    if Next(db, step).ok {
      EndedIs(Next(db, step).db, step.op.run);
    }
  }

  lemma {:induction false} EndedIs(db: Db, run: Id)
    requires run in db.runs && db.runs[run].kind == IndexingRun && db.runs[run].status == RunSucceeded
    ensures Ended(db, run)
  {
  }

  lemma {:induction false} OwnIndexRow(db: Db, step: Step)
    requires Enabled(db, step.op) && step.op.Index?
    ensures var after, run := Next(db, step).db, step.op.run;
            && run in db.runs && db.runs[run].kind == IndexingRun
            && if !Next(db, step).ok then after == db
               else && run in after.runs
                    && after.runs[run] in {Finished(db.runs[run], RunSucceeded, [StartedEvent]),
                                           Finished(db.runs[run], RunSucceeded, [StartedEvent, CompletedEvent])}
  {
    hide Finished, AlreadyIndexed, RevisionSnapshots, ReadySnapshots, Allowed;
  }

  ghost predicate CommitsBetween(dbs: seq<Db>, steps: seq<Step>, run: Id, i: nat, j: nat)
    requires IsRun(dbs, steps) && j < |dbs|
  {
    exists m :: i <= m < j && Commits(dbs[m], steps[m], run)
  }

  /** Over every run, a queued index run waits exactly until a task of its own commits; nothing else ends it. */
  lemma {:induction false} WaitsUntilItCommits(dbs: seq<Db>, steps: seq<Step>, run: Id, i: nat, j: nat)
    requires IsRun(dbs, steps) && i <= j < |dbs| && Waits(dbs[i], run)
    ensures Waits(dbs[j], run) <==> !CommitsBetween(dbs, steps, run, i, j)
    ensures Waits(dbs[j], run) || Ended(dbs[j], run)
    ensures Waits(dbs[j], run) ==> dbs[j].runs[run] == dbs[i].runs[run]
    decreases j
  {
    hide Next, Enabled, Inv, Commits;
    if i < j {
      WaitsUntilItCommits(dbs, steps, run, i, j - 1);
      CommittedStatesAreSound(dbs, steps, j - 1);
      IndexRunStep(dbs[j - 1], steps[j - 1], run);
    }
  }

  /** While it waits every request to index its repository is answered with it, or refused: nothing is queued. */
  lemma {:induction false} RequestsAreAnswered(db: Db, step: Step, run: Id)
    requires Waits(db, run) && step.op.RequestIndex? && step.op.repo == db.runs[run].repo
    ensures Next(db, step).db == db
    ensures Next(db, step).ok <==>
            !step.crashes && Owned(db, step.op.owner, step.op.repo) && db.repos[step.op.repo].latestRevision.Some?
  {
    assert IsActive(db.runs[run], step.op.repo, IndexingRun);
    assert HasActive(db, step.op.repo, IndexingRun);
    hide HasActive;
  }

  // ----- With two snapshots -----

  /** With two snapshots an index task commits exactly when the latest commit is one of theirs. */
  lemma {:induction false} FullCommitsIff(db: Db, step: Step)
    requires Inv(db) && step.op.Index? && Enabled(db, step.op)
    requires |SnapshotsOf(db.snapshots, db.runs[step.op.run].repo)| == 2
    ensures Next(db, step).ok <==> !step.crashes && AlreadyIndexed(db, db.runs[step.op.run].repo)
  {
    var repo := db.runs[step.op.run].repo;
    assert repo in db.repos;
    hide Inv, Enabled, Next, SnapshotsOf;
    IndexCommitsIff(db, step);
    LatestOfIndexed(db, repo);
    hide AlreadyIndexed;
  }

  lemma {:induction false} LatestOfIndexed(db: Db, repo: Id)
    ensures repo in db.repos && AlreadyIndexed(db, repo) ==> db.repos[repo].latestRevision.Some?
  {
    hide RevisionSnapshots;
  }

  /** A task of the run is delivered while the repository's latest commit is an indexed one. */
  ghost predicate DeliveredOnIndexed(db: Db, step: Step, run: Id, repo: Id) {
    step.op.Index? && step.op.run == run && !step.crashes && repo in db.repos && AlreadyIndexed(db, repo)
  }

  ghost predicate DeliveredOnIndexedBetween(dbs: seq<Db>, steps: seq<Step>, run: Id, repo: Id, i: nat, j: nat)
    requires IsRun(dbs, steps) && j < |dbs|
  {
    exists m :: i <= m < j && DeliveredOnIndexed(dbs[m], steps[m], run, repo)
  }

  /**
   In a repository with two snapshots, until it is deleted, a queued index run waits exactly as long as no task of
   it is delivered while the latest commit is one of the two indexed ones: a third commit never gets past it.
   */
  lemma {:induction false} WaitsWhileFullIff(dbs: seq<Db>, steps: seq<Step>, run: Id, repo: Id, i: nat, j: nat)
    requires IsRun(dbs, steps) && i <= j < |dbs| && Waits(dbs[i], run) && dbs[i].runs[run].repo == repo
    requires repo in dbs[i].repos && |SnapshotsOf(dbs[i].snapshots, repo)| == 2
    requires repo in dbs[j].repos && !dbs[j].repos[repo].deleted
    ensures Waits(dbs[j], run) <==> !DeliveredOnIndexedBetween(dbs, steps, run, repo, i, j)
    decreases j
  {
    hide Next, Enabled, Inv, Commits, DeliveredOnIndexed, SnapshotsOf;
    if i < j {
      RowsStay(dbs, steps, repo, i, j - 1);
      WritesAreFaithful(dbs[j - 1], steps[j - 1], repo);
      WaitsWhileFullIff(dbs, steps, run, repo, i, j - 1);
      WaitsUntilItCommits(dbs, steps, run, i, j - 1);
      CommittedStatesAreSound(dbs, steps, j - 1);
      NoThirdSnapshot(dbs, steps, repo, i, j - 1);
      IndexRunStep(dbs[j - 1], steps[j - 1], run);
      if Waits(dbs[j - 1], run) {
        FullCommitStep(dbs[j - 1], steps[j - 1], run, repo);
      }
    }
  }

  lemma {:induction false} FullCommitStep(db: Db, step: Step, run: Id, repo: Id)
    requires Inv(db) && Enabled(db, step.op) && Waits(db, run) && db.runs[run].repo == repo && repo in db.repos
    requires |SnapshotsOf(db.snapshots, repo)| == 2
    ensures Commits(db, step, run) <==> DeliveredOnIndexed(db, step, run, repo)
  {
    hide Inv, Enabled, Next, SnapshotsOf, AlreadyIndexed;
    if step.op.Index? && step.op.run == run {
      FullCommitsIff(db, step);
    }
  }

  // ----- This does happen -----

  /** Repository 0 is the only one, ready and visible, and none of its runs is active. */
  ghost predicate Quiet(db: Db) {
    && db.repos.Keys == {0} && db.repos[0].owner == 0 && !db.repos[0].deleted && db.repos[0].status == Ready
    && forall run :: run in db.runs ==> db.runs[run].status == RunSucceeded
  }

  /** Commit c of repository 0 was ingested, and run r waits to index it; all else is as before. */
  ghost predicate Fetched(before: Db, db: Db, c: string, r: Id) {
    && 0 in before.repos
    && db.repos == map[0 := before.repos[0].(status := ReadyForIndexing, latestRevision := Some(RevisionKey(0, c)))]
    && RevisionKey(0, c) in db.revisions
    && db.snapshots == WithoutChunks(before.snapshots, RevisionKey(0, c))
    && r in db.runs && db.runs[r] == Run(0, IndexingRun, RunQueued, [Event(1, QueuedEvent)])
    && forall run :: run in db.runs && run != r ==> db.runs[run].status == RunSucceeded
  }

  /** Sync, ingest and request the index of a commit, with the fresh run ids a and b. */
  lemma {:induction false} Fetch(dbs: seq<Db>, steps: seq<Step>, c: string, a: Id, b: Id)
    returns (dbs': seq<Db>, steps': seq<Step>)
    requires IsRun(dbs, steps) && Quiet(dbs[|steps|])
    requires a != b && a !in dbs[|steps|].runs && b !in dbs[|steps|].runs
    ensures IsRun(dbs', steps') && Fetched(dbs[|steps|], dbs'[|steps'|], c, b)
    ensures dbs'[|steps'|].runs.Keys == dbs[|steps|].runs.Keys + {a, b}
  {
    hide Finished, WithEvent, WithoutChunks;
    var d := dbs[|steps|];
    hide IsRun;
    assert !HasActive(d, 0, IngestionRun);
    dbs', steps' := Extend(dbs, steps, Sync(0, 0, a));
    var synced := Apply(d, Sync(0, 0, a)).db;
    assert synced.repos == map[0 := d.repos[0].(status := Queued)];
    assert synced.runs == d.runs[a := Run(0, IngestionRun, RunQueued, [Event(1, QueuedEvent)])];
    FinishedRun(synced.runs[a], RunSucceeded, [StartedEvent, ClonedEvent, CompletedEvent]);
    dbs', steps' := Extend(dbs', steps', Ingest(a, Scans(c)));
    var ingested := Apply(synced, Ingest(a, Scans(c))).db;
    assert ingested.repos == map[0 := d.repos[0].(status := ReadyForIndexing,
                                                  latestRevision := Some(RevisionKey(0, c)))];
    assert forall run :: run in ingested.runs ==> ingested.runs[run].status == RunSucceeded;
    assert !HasActive(ingested, 0, IndexingRun);
    dbs', steps' := Extend(dbs', steps', RequestIndex(0, 0, b));
    assert Apply(ingested, RequestIndex(0, 0, b)).db.repos == ingested.repos;
  }

  const W: RevisionKey := RevisionKey(0, "d")
  const X: RevisionKey := RevisionKey(0, "e")

  lemma {:induction false} RevisionsDiffer()
    ensures V != W && V != X && W != X
  {
    assert "c"[0] != "d"[0] && "c"[0] != "e"[0] && "d"[0] != "e"[0];
  }

  /** A run to a visible repository with two snapshots. */
  lemma {:induction false} ReachTwoSnapshots() returns (dbs: seq<Db>, steps: seq<Step>)
    ensures IsRun(dbs, steps) && Quiet(dbs[|steps|]) && dbs[|steps|].runs.Keys == {0, 1, 2, 3}
    ensures dbs[|steps|].snapshots == map[0 := Snapshot(0, V, true, true), 1 := Snapshot(0, W, true, true)]
  {
    hide Finished, WithEvent;
    dbs, steps := ReachIndexed();
    var indexed := dbs[|steps|];
    dbs, steps := Fetch(dbs, steps, "d", 2, 3);
    var d := dbs[|steps|];
    hide IsRun;
    RevisionsDiffer();
    assert d.snapshots == map[0 := Snapshot(0, V, true, true)];
    SecondIsIndexed(d);
    dbs, steps := Extend(dbs, steps, Index(3, 1));
    hide Indexes;
  }

  lemma {:induction false} SecondIsIndexed(d: Db)
    requires d.snapshots == map[0 := Snapshot(0, V, true, true)]
    requires 0 in d.repos && d.repos[0].latestRevision == Some(W) && d.repos[0].status == ReadyForIndexing
    requires W in d.revisions && 3 in d.runs && d.runs[3] == Run(0, IndexingRun, RunQueued, [Event(1, QueuedEvent)])
    ensures var after := Indexes(d, 3, 1).db;
            && after.repos == d.repos[0 := d.repos[0].(status := Ready, indexedRevision := Some(W))]
            && after.snapshots == d.snapshots[1 := Snapshot(0, W, true, true)]
            && after.runs.Keys == d.runs.Keys && after.runs[3].status == RunSucceeded
            && forall run :: run in d.runs && run != 3 ==> after.runs[run] == d.runs[run]
  {
    RevisionsDiffer();
    assert RevisionSnapshots(d.snapshots, 0, W) == {} && ReadySnapshots(d.snapshots, 0) == {0};
    FinishedRun(d.runs[3], RunSucceeded, [StartedEvent, CompletedEvent]);
    hide Finished, RevisionSnapshots, ReadySnapshots;
  }

  /**
   A run to two snapshots and a third commit: its index task is refused, its run waits, and a new request is
   answered with that run.
   */
  lemma {:induction false} ThirdCommitIsStuck() returns (dbs: seq<Db>, steps: seq<Step>)
    ensures IsRun(dbs, steps)
    ensures var db := dbs[|steps|];
            && 0 in db.repos && !db.repos[0].deleted && db.repos[0].latestRevision == Some(X)
            && SnapshotsOf(db.snapshots, 0) == {0, 1} && Waits(db, 5)
            && Enabled(db, Index(5, 2)) && Indexes(db, 5, 2) == Refused(db)
            && Enabled(db, RequestIndex(0, 0, 6)) && RequestsIndex(db, 0, 0, 6) == Outcome(db, true, [])
  {
    hide Finished, WithEvent;
    dbs, steps := ReachTwoSnapshots();
    var full := dbs[|steps|];
    dbs, steps := Fetch(dbs, steps, "e", 4, 5);
    var d := dbs[|steps|];
    hide IsRun;
    RevisionsDiffer();
    assert d.snapshots == full.snapshots;
    ThirdIsRefused(d);
    assert IsActive(d.runs[5], 0, IndexingRun);
    assert HasActive(d, 0, IndexingRun);
    hide HasActive;
  }

  lemma {:induction false} ThirdIsRefused(d: Db)
    requires d.snapshots == map[0 := Snapshot(0, V, true, true), 1 := Snapshot(0, W, true, true)]
    requires 0 in d.repos && d.repos[0].latestRevision == Some(X) && X in d.revisions
    requires 5 in d.runs && d.runs[5].repo == 0
    ensures SnapshotsOf(d.snapshots, 0) == {0, 1} && Indexes(d, 5, 2) == Refused(d)
  {
    RevisionsDiffer();
    assert RevisionSnapshots(d.snapshots, 0, X) == {};
    assert ReadySnapshots(d.snapshots, 0) == {0, 1};
  }
}
