/**
 What every call and task of the lifecycle does, in the fields of the rows alone: who may call, exactly when it
 commits, and every row it leaves.
 */
module LifecycleCalls {
  import opened Options
  import opened Lifecycle
  import opened LifecycleRuns

  // ----- Who may call -----

  /** A sync, delete or index request for this repository by this user. */
  predicate CallsFor(op: Operation, owner: Id, repo: Id) {
    match op
    case Sync(o, r, _) => o == owner && r == repo
    case Delete(o, r) => o == owner && r == repo
    case RequestIndex(o, r, _) => o == owner && r == repo
    case _ => false
  }

  /** A call by anyone but the owner is refused and leaves the tables as they were. */
  lemma {:induction false} StrangersAreRefused(db: Db, step: Step, user: Id, repo: Id)
    requires CallsFor(step.op, user, repo)
    requires repo !in db.repos || db.repos[repo].owner != user || db.repos[repo].deleted
    ensures !Next(db, step).ok && Next(db, step).db == db && Next(db, step).writes == []
  {
    hide HasActive;
  }

  /** Over every run only the user who created a repository can sync, delete or index it. */
  lemma {:induction false} OnlyTheCreatorCalls(dbs: seq<Db>, steps: seq<Step>, repo: Id, i: nat, j: nat, user: Id)
    requires IsRun(dbs, steps) && i <= j < |steps| && repo in dbs[i].repos
    requires CallsFor(steps[j].op, user, repo) && user != dbs[i].repos[repo].owner
    ensures !Next(dbs[j], steps[j]).ok && dbs[j + 1] == dbs[j]
  {
    RowsStay(dbs, steps, repo, i, j);
    hide Next, Enabled;
    StrangersAreRefused(dbs[j], steps[j], user, repo);
  }

  // ----- Exactly when the calls commit -----

  /** The repository has a queued or running run of this type. */
  ghost predicate RunInProgress(runs: map<Id, Run>, repo: Id, kind: RunKind) {
    exists r :: r in runs && runs[r].repo == repo && runs[r].kind == kind
                && (runs[r].status == RunQueued || runs[r].status == RunRunning)
  }

  lemma {:induction false} InProgressIsActive(db: Db, repo: Id, kind: RunKind)
    ensures RunInProgress(db.runs, repo, kind) <==> HasActive(db, repo, kind)
  {
    if r :| r in db.runs && IsActive(db.runs[r], repo, kind) {
      assert RunInProgress(db.runs, repo, kind);
    }
    if RunInProgress(db.runs, repo, kind) {
      var r :| r in db.runs && db.runs[r].repo == repo && db.runs[r].kind == kind
               && (db.runs[r].status == RunQueued || db.runs[r].status == RunRunning);
      assert IsActive(db.runs[r], repo, kind);
    }
  }

  lemma {:induction false} SyncCommitsIff(db: Db, step: Step)
    requires step.op.Sync?
    ensures var repo := step.op.repo;
            Next(db, step).ok <==>
            && !step.crashes && repo in db.repos
            && db.repos[repo].owner == step.op.owner && !db.repos[repo].deleted
            && (db.repos[repo].status == Ready || db.repos[repo].status == Failed)
            && !RunInProgress(db.runs, repo, IngestionRun)
    ensures !Next(db, step).ok ==> Next(db, step).db == db
    ensures Next(db, step).ok ==>
              var repo, run, after := step.op.repo, step.op.run, Next(db, step).db;
              && after.repos == db.repos[repo := db.repos[repo].(status := Queued)]
              && after.runs == db.runs[run := Run(repo, IngestionRun, RunQueued, [Event(1, QueuedEvent)])]
              && after.revisions == db.revisions && after.snapshots == db.snapshots
  {
    InProgressIsActive(db, step.op.repo, IngestionRun);
    hide HasActive, RunInProgress;
  }

  lemma {:induction false} DeleteCommitsIff(db: Db, step: Step)
    requires step.op.Delete?
    ensures var repo := step.op.repo;
            Next(db, step).ok <==>
            && !step.crashes && repo in db.repos
            && db.repos[repo].owner == step.op.owner && !db.repos[repo].deleted
            && db.repos[repo].status != Deleting && db.repos[repo].status != Deleted
    ensures !Next(db, step).ok ==> Next(db, step).db == db
    ensures Next(db, step).ok ==>
              var repo, after := step.op.repo, Next(db, step).db;
              && after.repos == db.repos[repo := db.repos[repo].(status := Deleting, deleted := true)]
              && after.runs == db.runs && after.revisions == db.revisions && after.snapshots == db.snapshots
  {
  }

  lemma {:induction false} RequestIndexCommitsIff(db: Db, step: Step)
    requires step.op.RequestIndex?
    ensures var repo := step.op.repo;
            Next(db, step).ok <==>
            && !step.crashes && repo in db.repos
            && db.repos[repo].owner == step.op.owner && !db.repos[repo].deleted
            && db.repos[repo].latestRevision.Some?
    ensures var repo, run, after := step.op.repo, step.op.run, Next(db, step).db;
            if Next(db, step).ok && !RunInProgress(db.runs, repo, IndexingRun) then
              && after.runs == db.runs[run := Run(repo, IndexingRun, RunQueued, [Event(1, QueuedEvent)])]
              && after.repos == db.repos && after.revisions == db.revisions && after.snapshots == db.snapshots
            else after == db
  {
    InProgressIsActive(db, step.op.repo, IndexingRun);
    hide HasActive, RunInProgress;
  }

  /** The owner has a visible repository of this URL whose status is not `deleted`, or that is being ingested. */
  ghost predicate HasUsable(db: Db, owner: Id, url: string) {
    exists r :: r in db.repos && db.repos[r].owner == owner && db.repos[r].url == url && !db.repos[r].deleted
                && (db.repos[r].status != Deleted || RunInProgress(db.runs, r, IngestionRun))
  }

  ghost predicate HasRow(db: Db, owner: Id, url: string) {
    exists r :: r in db.repos && db.repos[r].owner == owner && db.repos[r].url == url
  }

  /** A create answers a usable repository, fails on any other row of the URL, and else adds one with its run. */
  lemma {:induction false} CreateCommitsIff(db: Db, step: Step)
    requires step.op.Create?
    ensures Next(db, step).ok <==>
            && !step.crashes
            && (HasUsable(db, step.op.owner, step.op.url) || !HasRow(db, step.op.owner, step.op.url))
    ensures var repo, run, after := step.op.repo, step.op.run, Next(db, step).db;
            if !step.crashes && !HasRow(db, step.op.owner, step.op.url) then
              && after.repos == db.repos[repo := Repository(step.op.owner, step.op.url, Queued, false, None, None)]
              && after.runs == db.runs[run := Run(repo, IngestionRun, RunQueued, [Event(1, QueuedEvent)])]
              && after.revisions == db.revisions && after.snapshots == db.snapshots
            else after == db
  {
    var owner, url := step.op.owner, step.op.url;
    forall r ensures RunInProgress(db.runs, r, IngestionRun) <==> HasActive(db, r, IngestionRun) {
      InProgressIsActive(db, r, IngestionRun);
    }
    hide RunInProgress, HasActive;
    assert UrlTaken(db, owner, url) <==> HasRow(db, owner, url);
    hide UrlTaken;
    var usable := exists r :: r in db.repos && db.repos[r].owner == owner && db.repos[r].url == url
                   && !db.repos[r].deleted && (HasActive(db, r, IngestionRun) || db.repos[r].status != Deleted);
    assert usable <==> HasUsable(db, owner, url);
    assert usable ==> HasRow(db, owner, url);
  }

  // ----- The transition table, row by row -----

  lemma {:induction false} TransitionTable(target: Status)
    ensures Allowed(Queued, target) <==> target == Cloning || target == Failed || target == Deleting
    ensures Allowed(Cloning, target) <==> target == Scanning || target == Failed || target == Deleting
    ensures Allowed(Scanning, target) <==> target == ReadyForIndexing || target == Failed || target == Deleting
    ensures Allowed(ReadyForIndexing, target) <==> target == Indexing || target == Ready || target == Deleting
    ensures Allowed(Indexing, target) <==> target == Ready || target == Failed || target == Deleting
    ensures Allowed(Ready, target) <==> target == Queued || target == Indexing || target == Deleting
    ensures Allowed(Failed, target) <==> target == Queued || target == Deleting
    ensures Allowed(Deleting, target) <==> target == Deleted || target == Failed
    ensures !Allowed(Deleted, target)
  {
  }

  // ----- What the tasks leave -----

  /** Snapshots after an ingestion of the commit: the same rows, and no chunks for that revision. */
  ghost predicate SameRowsFewerChunks(before: map<Id, Snapshot>, after: map<Id, Snapshot>, revision: RevisionKey) {
    && after.Keys == before.Keys
    && forall s :: s in before ==>
         && after[s].repo == before[s].repo && after[s].revision == before[s].revision
           && after[s].ready == before[s].ready
         && (after[s].intact <==> before[s].intact && before[s].revision != revision)
  }

  /** The run ends with this status, and the events it already had are followed by these. */
  ghost predicate RunEnds(before: Run, after: Run, status: RunStatus, added: seq<EventType>) {
    && after.repo == before.repo && after.kind == before.kind && after.status == status
    && |after.events| == |before.events| + |added|
    && (forall i :: 0 <= i < |before.events| ==> after.events[i] == before.events[i])
    && forall i :: |before.events| <= i < |after.events| ==>
         after.events[i] == Event(i + 1, added[i - |before.events|])
  }

  lemma {:induction false} FinishedEnds(run: Run, status: RunStatus, added: seq<EventType>)
    requires Numbered(run.events)
    ensures RunEnds(run, Finished(run, status, added), status, added)
  {
    FinishedRun(run, status, added);
    var after := Finished(run, status, added);
    assert Numbered(after.events);
    assert forall i :: 0 <= i < |run.events| ==> after.events[i] == run.events[i];
    forall i | |run.events| <= i < |after.events| ensures after.events[i] == Event(i + 1, added[i - |run.events|]) {
      assert after.events[|run.events| + (i - |run.events|)].what == added[i - |run.events|];
    }
  }

  /** Every row a committed ingestion leaves. */
  lemma {:induction false} IngestLeaves(db: Db, step: Step)
    requires Inv(db) && step.op.Ingest? && Enabled(db, step.op) && Next(db, step).ok
    ensures var run, after, scan := step.op.run, Next(db, step).db, step.op.scan;
            var repo := db.runs[run].repo;
            && repo in db.repos
            && after.repos == db.repos[repo := if scan.Scans?
                 then db.repos[repo].(status := ReadyForIndexing,
                                      latestRevision := Some(RevisionKey(repo, scan.commit)))
                 else db.repos[repo].(status := Failed)]
            && after.revisions == (match scan
                 case CloneFails => db.revisions
                 case ScanFails(commit) => db.revisions[RevisionKey(repo, commit) := Failed]
                 case Scans(commit) => db.revisions[RevisionKey(repo, commit) := ReadyForIndexing])
            && (if scan.Scans? then SameRowsFewerChunks(db.snapshots, after.snapshots, RevisionKey(repo, scan.commit))
                else after.snapshots == db.snapshots)
            && run in after.runs && after.runs == db.runs[run := after.runs[run]]
            && RunEnds(db.runs[run], after.runs[run], if scan.Scans? then RunSucceeded else RunFailed,
                       match scan
                       case CloneFails => [StartedEvent, FailedEvent]
                       case ScanFails(_) => [StartedEvent, ClonedEvent, FailedEvent]
                       case Scans(_) => [StartedEvent, ClonedEvent, CompletedEvent])
  {
    TaskRun(db, step.op);
    hide *;
    var run, scan := db.runs[step.op.run], step.op.scan;
    NextIsTask(db, step);
    IngestTables(db, step.op.run, scan);
    FinishedEnds(run, RunFailed, [StartedEvent, FailedEvent]);
    FinishedEnds(run, RunFailed, [StartedEvent, ClonedEvent, FailedEvent]);
    FinishedEnds(run, RunSucceeded, [StartedEvent, ClonedEvent, CompletedEvent]);
    if scan.Scans? {
      DropsChunks(db.snapshots, RevisionKey(run.repo, scan.commit));
    }
  }

  /** The run of a task that can be delivered: its repository exists, and its events are numbered. */
  lemma {:induction false} TaskRun(db: Db, op: Operation)
    requires Inv(db) && Enabled(db, op) && (op.Ingest? || op.Index?)
    ensures op.run in db.runs && db.runs[op.run].repo in db.repos && Numbered(db.runs[op.run].events)
  {
  }

  lemma {:induction false} NextIsTask(db: Db, step: Step)
    requires Next(db, step).ok
    ensures step.op.Ingest? ==> Next(db, step) == Ingests(db, step.op.run, step.op.scan)
    ensures step.op.Index? ==> Next(db, step) == Indexes(db, step.op.run, step.op.snapshot)
  {
    hide Ingests, Indexes, Creates, Syncs, Deletes, RequestsIndex, Cleans;
  }

  lemma {:induction false} IngestTables(db: Db, run: Id, scan: Scan)
    requires Ingests(db, run, scan).ok
    ensures run in db.runs && db.runs[run].repo in db.repos
    ensures var repo, row, after := db.runs[run].repo, db.runs[run], Ingests(db, run, scan).db;
            && after.repos == db.repos[repo := if scan.Scans?
                 then db.repos[repo].(status := ReadyForIndexing,
                                      latestRevision := Some(RevisionKey(repo, scan.commit)))
                 else db.repos[repo].(status := Failed)]
            && match scan
               case CloneFails =>
                 && after.revisions == db.revisions && after.snapshots == db.snapshots
                 && after.runs == db.runs[run := Finished(row, RunFailed, [StartedEvent, FailedEvent])]
               case ScanFails(commit) =>
                 && after.revisions == db.revisions[RevisionKey(repo, commit) := Failed]
                 && after.snapshots == db.snapshots
                 && after.runs == db.runs[run := Finished(row, RunFailed, [StartedEvent, ClonedEvent, FailedEvent])]
               case Scans(commit) =>
                 && after.revisions == db.revisions[RevisionKey(repo, commit) := ReadyForIndexing]
                 && after.snapshots == WithoutChunks(db.snapshots, RevisionKey(repo, commit))
                 && after.runs ==
                    db.runs[run := Finished(row, RunSucceeded, [StartedEvent, ClonedEvent, CompletedEvent])]
  {
    hide Finished, WithoutChunks, Allowed;
  }

  lemma {:induction false} DropsChunks(snapshots: map<Id, Snapshot>, revision: RevisionKey)
    ensures SameRowsFewerChunks(snapshots, WithoutChunks(snapshots, revision), revision)
  {
  }

  /** The repository's latest revision has a snapshot. */
  ghost predicate LatestHasSnapshot(db: Db, repo: Id)
    requires repo in db.repos
  {
    exists s :: s in db.snapshots && db.snapshots[s].repo == repo
                && Some(db.snapshots[s].revision) == db.repos[repo].latestRevision
  }

  /** In every committed state the already-indexed branch is taken exactly when a snapshot of the revision exists. */
  lemma {:induction false} AlreadyIndexedIff(db: Db, repo: Id)
    requires Inv(db) && repo in db.repos
    ensures AlreadyIndexed(db, repo) <==> LatestHasSnapshot(db, repo)
  {
    IndexedOrNoneIn(db, repo);
    if AlreadyIndexed(db, repo) {
      var s :| s in RevisionSnapshots(db.snapshots, repo, db.repos[repo].latestRevision.value);
      assert db.snapshots[s].repo == repo;
    }
  }

  lemma {:induction false} IndexedOrNoneIn(db: Db, repo: Id)
    requires Inv(db) && repo in db.repos
    ensures LatestHasSnapshot(db, repo) ==> AlreadyIndexed(db, repo)
  {
    if s :| s in db.snapshots && db.snapshots[s].repo == repo
            && Some(db.snapshots[s].revision) == db.repos[repo].latestRevision {
      IndexedOrNone(db, repo);
      assert s in RevisionSnapshots(db.snapshots, repo, db.repos[repo].latestRevision.value);
    }
  }

  /** Every row a committed index task leaves. */
  lemma {:induction false} IndexLeaves(db: Db, step: Step)
    requires Inv(db) && step.op.Index? && Enabled(db, step.op) && Next(db, step).ok
    ensures var run, after := step.op.run, Next(db, step).db;
            var repo := db.runs[run].repo;
            && repo in db.repos && db.repos[repo].latestRevision.Some?
            && var revision := db.repos[repo].latestRevision.value;
               && after.repos == db.repos[repo := db.repos[repo].(status := Ready, indexedRevision := Some(revision))]
               && after.revisions == db.revisions[revision := Ready]
               && run in after.runs && after.runs == db.runs[run := after.runs[run]]
               && after.snapshots == (if LatestHasSnapshot(db, repo) then db.snapshots
                                      else db.snapshots[step.op.snapshot := Snapshot(repo, revision, true, true)])
               && RunEnds(db.runs[run], after.runs[run], RunSucceeded,
                          if LatestHasSnapshot(db, repo) then [StartedEvent] else [StartedEvent, CompletedEvent])
  {
    TaskRun(db, step.op);
    hide *;
    var run := db.runs[step.op.run];
    NextIsTask(db, step);
    IndexTables(db, step.op.run, step.op.snapshot);
    AlreadyIndexedIff(db, run.repo);
    FinishedEnds(run, RunSucceeded, [StartedEvent]);
    FinishedEnds(run, RunSucceeded, [StartedEvent, CompletedEvent]);
  }

  lemma {:induction false} IndexTables(db: Db, run: Id, snapshot: Id)
    requires Indexes(db, run, snapshot).ok
    ensures run in db.runs && db.runs[run].repo in db.repos
    ensures var repo, row, after := db.runs[run].repo, db.runs[run], Indexes(db, run, snapshot).db;
            && db.repos[repo].latestRevision.Some?
            && var revision := db.repos[repo].latestRevision.value;
               && after.repos == db.repos[repo := db.repos[repo].(status := Ready, indexedRevision := Some(revision))]
               && after.revisions == db.revisions[revision := Ready]
               && if AlreadyIndexed(db, repo) then
                    && after.snapshots == db.snapshots
                    && after.runs == db.runs[run := Finished(row, RunSucceeded, [StartedEvent])]
                  else
                    && after.snapshots == db.snapshots[snapshot := Snapshot(repo, revision, true, true)]
                    && after.runs == db.runs[run := Finished(row, RunSucceeded, [StartedEvent, CompletedEvent])]
  {
    hide Finished, Allowed, AlreadyIndexed, RevisionSnapshots, ReadySnapshots;
  }

  /** Every row a cleanup leaves: the repository's snapshots go, and only a deletion in progress completes. */
  lemma {:induction false} CleanupLeaves(db: Db, step: Step)
    requires step.op.Cleanup?
    ensures Next(db, step).ok <==> !step.crashes
    ensures !step.crashes ==>
              var repo, after := step.op.repo, Next(db, step).db;
              && after.runs == db.runs && after.revisions == db.revisions
              && (forall s :: s in after.snapshots <==> s in db.snapshots && db.snapshots[s].repo != repo)
              && (forall s :: s in after.snapshots ==> after.snapshots[s] == db.snapshots[s])
              && after.repos == (if repo in db.repos && db.repos[repo].status == Deleting
                                 then db.repos[repo := db.repos[repo].(status := Deleted, deleted := true)]
                                 else db.repos)
  {
  }
}
