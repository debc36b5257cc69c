/** Whole-run properties of the repository lifecycle. */
module LifecycleRuns {
  import opened Options
  import opened Lifecycle

  // ----- Status writes and the transition table -----

  predicate Path(start: Status, writes: seq<Status>)
    decreases |writes|
  {
    writes == [] || (Allowed(start, writes[0]) && Path(writes[0], writes[1..]))
  }

  /** The repository whose row an operation on an existing repository may write. */
  function Target(db: Db, op: Operation): Option<Id> {
    match op
    case Create(_, _, _, _) => None
    case Sync(_, repo, _) => Some(repo)
    case Delete(_, repo) => Some(repo)
    case RequestIndex(_, repo, _) => Some(repo)
    case Ingest(run, _) => if run in db.runs then Some(db.runs[run].repo) else None
    case Index(run, _) => if run in db.runs then Some(db.runs[run].repo) else None
    case Cleanup(repo) => Some(repo)
  }

  /** The unchecked `ready` write of the already-indexed branch. */
  ghost predicate UncheckedReady(db: Db, step: Step, repo: Id)
    requires repo in db.repos
  {
    && !step.crashes && step.op.Index? && Target(db, step.op) == Some(repo)
    && AlreadyIndexed(db, repo) && db.repos[repo].status != ReadyForIndexing
  }

  /**
   The committed status writes of a step follow the transition table, including the writes that bypass
   `transition` (failure, the final `ready` of a build, and `deleted`), except exactly when the
   already-indexed branch finds a status other than `ready_for_indexing`.
   */
  lemma {:induction false} WritesAreEdgesIff(db: Db, step: Step, repo: Id)
    requires Inv(db) && Enabled(db, step.op) && repo in db.repos && Target(db, step.op) == Some(repo)
    ensures Path(db.repos[repo].status, Next(db, step).writes) <==> !UncheckedReady(db, step, repo)
  {
    hide Finished, RunsOk, SnapshotsOk, Coupled, ReadySnapshots;
    if AlreadyIndexed(db, repo) {
      IndexedCount(db, repo);
    }
    hide AlreadyIndexed;
    var writes := Next(db, step).writes;
    assert |writes| <= 3;
    assert |writes| >= 2 ==>
             Path(writes[0], writes[1..]) == (Allowed(writes[0], writes[1]) && Path(writes[1], writes[1..][1..]));
    assert |writes| == 3 ==> Path(writes[1], writes[2..]) == (Allowed(writes[1], writes[2]) && Path(writes[2], []));
  }

  /** The recorded writes are what happened to the row: the last one is the new status, and no other row changed. */
  lemma {:induction false} WritesAreFaithful(db: Db, step: Step, repo: Id)
    requires Enabled(db, step.op) && repo in db.repos
    ensures repo in Next(db, step).db.repos
    ensures var after, writes := Next(db, step).db.repos[repo], Next(db, step).writes;
            if Target(db, step.op) == Some(repo) && writes != [] then after.status == writes[|writes| - 1]
            else after == db.repos[repo]
    ensures var after := Next(db, step).db.repos[repo];
            && after.owner == db.repos[repo].owner && after.url == db.repos[repo].url
            && (db.repos[repo].deleted ==> after.deleted)
  {
    hide Finished, Inv, AlreadyIndexed;
    match step.op
    case Create(_, _, _, _) =>
    case Sync(_, _, _) =>
    case Delete(_, _) =>
    case RequestIndex(_, _, _) =>
    case Ingest(_, _) =>
    case Index(_, _) =>
    case Cleanup(_) =>
  }

  // ----- Deletion -----

  lemma {:induction false} IngestRefused(db: Db, run: Id, scan: Scan)
    requires run in db.runs && db.runs[run].repo in db.repos && db.repos[db.runs[run].repo].status != Queued
    ensures Settled(db.repos[db.runs[run].repo].status) ==> Ingests(db, run, scan) == Refused(db)
  {
  }

  lemma {:induction false} IndexRefused(db: Db, run: Id, snapshot: Id)
    requires run in db.runs && db.runs[run].repo in db.repos && !AlreadyIndexed(db, db.runs[run].repo)
    requires db.repos[db.runs[run].repo].status !in {ReadyForIndexing, Ready}
    ensures Indexes(db, run, snapshot) == Refused(db)
  {
  }

  /** A task of another repository leaves this one's row and snapshots alone. */
  lemma {:induction false} OtherTask(db: Db, op: Operation, repo: Id)
    requires Enabled(db, op) && repo in db.repos && Target(db, op) != Some(repo)
    requires op.Ingest? || op.Index?
    ensures var after := Apply(db, op).db;
            && repo in after.repos && after.repos[repo] == db.repos[repo]
            && forall s :: s in after.snapshots && after.snapshots[s].repo == repo ==>
                 s in db.snapshots && db.snapshots[s].repo == repo
  {
    hide Finished, AlreadyIndexed, ReadySnapshots, RevisionSnapshots;
  }

  lemma {:induction false} DeletedStep(db: Db, step: Step, repo: Id)
    requires Inv(db) && Enabled(db, step.op) && repo in db.repos && db.repos[repo].status == Deleted
    ensures var after := Next(db, step).db;
            && repo in after.repos && after.repos[repo] == db.repos[repo]
            && forall s :: s in after.snapshots ==> after.snapshots[s].repo != repo
  {
    assert db.repos[repo].deleted && forall s :: s in db.snapshots ==> db.snapshots[s].repo != repo;
    EmptyIsNotIndexed(db, repo);
    hide AlreadyIndexed, Inv;
    if step.op.Ingest? || step.op.Index? {
      if Target(db, step.op) != Some(repo) {
        OtherTask(db, step.op, repo);
      } else if step.op.Ingest? {
        IngestRefused(db, step.op.run, step.op.scan);
      } else {
        IndexRefused(db, step.op.run, step.op.snapshot);
      }
    } else {
      CallOnDeleted(db, step.op, repo);
    }
    hide Apply;
  }

  lemma {:induction false} CallOnDeleted(db: Db, op: Operation, repo: Id)
    requires Enabled(db, op) && !op.Ingest? && !op.Index?
    requires repo in db.repos && db.repos[repo].deleted && db.repos[repo].status == Deleted
    requires forall s :: s in db.snapshots ==> db.snapshots[s].repo != repo
    ensures var after := Apply(db, op).db;
            && repo in after.repos && after.repos[repo] == db.repos[repo]
            && forall s :: s in after.snapshots ==> after.snapshots[s].repo != repo
  {
    hide HasActive, UrlTaken;
  }

  lemma {:induction false} EmptyIsNotIndexed(db: Db, repo: Id)
    requires repo in db.repos && forall s :: s in db.snapshots ==> db.snapshots[s].repo != repo
    ensures !AlreadyIndexed(db, repo)
  {
  }

  /** `deleted` is absorbing over all interleavings of API calls and redelivered tasks, and stays empty. */
  lemma {:induction false} DeletedIsAbsorbing(dbs: seq<Db>, steps: seq<Step>, repo: Id, i: nat, j: nat)
    requires IsRun(dbs, steps) && i <= j < |dbs|
    requires repo in dbs[i].repos && dbs[i].repos[repo].status == Deleted
    ensures repo in dbs[j].repos && dbs[j].repos[repo] == dbs[i].repos[repo]
    ensures SnapshotsOf(dbs[j].snapshots, repo) == {}
    decreases j
  {
    hide Next, Enabled;
    if i < j {
      DeletedIsAbsorbing(dbs, steps, repo, i, j - 1);
      CommittedStatesAreSound(dbs, steps, j - 1);
      DeletedStep(dbs[j - 1], steps[j - 1], repo);
    } else {
      CommittedStatesAreSound(dbs, steps, j);
    }
  }

  /**
   `deleting` is not stable: a deletion completes exactly by the cleanup task, and is undone exactly by
   an index task that finds the latest revision already indexed.
   */
  lemma {:induction false} DeletingLeaves(db: Db, step: Step, repo: Id)
    requires Inv(db) && Enabled(db, step.op) && repo in db.repos && db.repos[repo].status == Deleting
    ensures repo in Next(db, step).db.repos
    ensures Next(db, step).db.repos[repo].status == Deleted <==> !step.crashes && step.op == Cleanup(repo)
    ensures Next(db, step).db.repos[repo].status !in {Deleting, Deleted} <==> UncheckedReady(db, step, repo)
  {
    hide RunsOk, SnapshotsOk, Coupled;
    if step.op.Ingest? || step.op.Index? {
      if Target(db, step.op) != Some(repo) {
        OtherTask(db, step.op, repo);
      } else if step.op.Ingest? {
        IngestRefused(db, step.op.run, step.op.scan);
      } else if AlreadyIndexed(db, repo) {
        IndexUnchecked(db, step.op.run, step.op.snapshot);
      } else {
        IndexRefused(db, step.op.run, step.op.snapshot);
      }
    }
    hide Ingests, Indexes, HasActive, AlreadyIndexed;
  }

  lemma {:induction false} IndexUnchecked(db: Db, run: Id, snapshot: Id)
    requires Inv(db) && run in db.runs && db.runs[run].repo in db.repos && AlreadyIndexed(db, db.runs[run].repo)
    ensures var repo, after := db.runs[run].repo, Indexes(db, run, snapshot).db;
            && repo in after.repos && after.repos[repo].status == Ready
            && forall r :: r in db.repos && r != repo ==> r in after.repos && after.repos[r] == db.repos[r]
  {
    hide RunsOk, SnapshotsOk, Coupled, Finished;
    IndexedCount(db, db.runs[run].repo);
    hide AlreadyIndexed;
  }

  lemma {:induction false} IndexedCount(db: Db, repo: Id)
    requires repo in db.repos && AlreadyIndexed(db, repo)
    ensures |RevisionSnapshots(db.snapshots, repo, db.repos[repo].latestRevision.value)| == 1
  {
  }

  /** Marked as deleted, but no longer on its way to `deleted`. */
  ghost predicate DeletionLost(db: Db, repo: Id) {
    repo in db.repos && db.repos[repo].deleted && db.repos[repo].status !in {Deleting, Deleted}
  }

  lemma {:induction false} LostDeletionStep(db: Db, step: Step, repo: Id)
    requires Enabled(db, step.op) && DeletionLost(db, repo)
    ensures DeletionLost(Next(db, step).db, repo)
  {
    hide Finished, Inv, AlreadyIndexed;
    match step.op
    case Create(_, _, _, _) =>
    case Sync(_, _, _) =>
    case Delete(_, _) =>
    case RequestIndex(_, _, _) =>
    case Ingest(_, _) =>
    case Index(_, _) =>
    case Cleanup(_) =>
  }

  /** A deletion that was undone never completes: no later call or task reaches `deleted`. */
  lemma {:induction false} LostDeletionNeverCompletes(dbs: seq<Db>, steps: seq<Step>, repo: Id, i: nat, j: nat)
    requires IsRun(dbs, steps) && i <= j < |dbs| && DeletionLost(dbs[i], repo)
    ensures DeletionLost(dbs[j], repo)
    decreases j
  {
    hide Next, Enabled, DeletionLost;
    if i < j {
      LostDeletionNeverCompletes(dbs, steps, repo, i, j - 1);
      LostDeletionStep(dbs[j - 1], steps[j - 1], repo);
    }
  }

  // ----- Queued runs -----

  /** A queued ingestion run whose repository is not waiting for it. */
  ghost predicate Orphaned(db: Db, run: Id) {
    && run in db.runs && db.runs[run].kind == IngestionRun && db.runs[run].status == RunQueued
    && db.runs[run].repo in db.repos && db.repos[db.runs[run].repo].status != Queued
  }

  lemma {:induction false} OrphanedStep(db: Db, step: Step, run: Id)
    requires Enabled(db, step.op) && Orphaned(db, run)
    ensures Orphaned(Next(db, step).db, run) && Next(db, step).db.runs[run] == db.runs[run]
    ensures step.op.Sync? && step.op.repo == db.runs[run].repo ==> !Next(db, step).ok
  {
    hide Finished, Inv, AlreadyIndexed;
    assert IsActive(db.runs[run], db.runs[run].repo, IngestionRun);
    match step.op
    case Create(_, _, _, _) =>
    case Sync(_, _, _) =>
    case Delete(_, _) =>
    case RequestIndex(_, _, _) =>
    case Ingest(_, _) =>
    case Index(_, _) =>
    case Cleanup(_) =>
  }

  /** Once orphaned, a run stays queued for ever, and every later sync of its repository is refused. */
  lemma {:induction false} OrphanedRunIsPermanent(dbs: seq<Db>, steps: seq<Step>, run: Id, i: nat, j: nat)
    requires IsRun(dbs, steps) && i <= j < |dbs| && Orphaned(dbs[i], run)
    ensures Orphaned(dbs[j], run) && dbs[j].runs[run] == dbs[i].runs[run]
    ensures j < |steps| && steps[j].op.Sync? && steps[j].op.repo == dbs[i].runs[run].repo ==> !Next(dbs[j], steps[j]).ok
    decreases j
  {
    hide Next, Enabled, Orphaned;
    assert Orphaned(dbs[i], run);
    if i < j {
      OrphanedRunIsPermanent(dbs, steps, run, i, j - 1);
      OrphanedStep(dbs[j - 1], steps[j - 1], run);
    }
    if j < |steps| {
      OrphanedStep(dbs[j], steps[j], run);
    }
  }

  /**
   A waiting run is orphaned exactly by a delete, by a redelivered older ingestion task of the repository,
   or by an index task that finds the latest revision already indexed.
   */
  lemma {:induction false} OrphanedByIff(db: Db, step: Step, run: Id)
    requires Inv(db) && Enabled(db, step.op)
    requires run in db.runs && db.runs[run].kind == IngestionRun && db.runs[run].status == RunQueued
    requires db.runs[run].repo in db.repos && db.repos[db.runs[run].repo].status == Queued
    ensures var repo := db.runs[run].repo;
            Orphaned(Next(db, step).db, run) <==>
            && !step.crashes
            && match step.op
               case Delete(owner, r) => r == repo && Owned(db, owner, repo)
               case Ingest(other, _) => other != run && db.runs[other].repo == repo
               case Index(other, _) => db.runs[other].repo == repo && AlreadyIndexed(db, repo)
               case _ => false
  {
    var repo := db.runs[run].repo;
    hide Inv, Enabled, AlreadyIndexed, Allowed;
    LeavesQueuedIff(db, step, repo);
    if step.op.Ingest? && step.op.run == run {
      OwnIngestEndsRun(db, step);
    } else {
      RunUntouched(db, step, run);
    }
  }

  lemma {:induction false} LeavesQueuedIff(db: Db, step: Step, repo: Id)
    requires Inv(db) && Enabled(db, step.op) && repo in db.repos && db.repos[repo].status == Queued
    ensures repo in Next(db, step).db.repos
    ensures Next(db, step).db.repos[repo].status != Queued <==>
            && !step.crashes
            && match step.op
               case Delete(owner, r) => r == repo && Owned(db, owner, repo)
               case Ingest(other, _) => db.runs[other].repo == repo
               case Index(other, _) => db.runs[other].repo == repo && AlreadyIndexed(db, repo)
               case _ => false
  {
    if step.op.Index? {
      IndexOfQueued(db, step.op.run, step.op.snapshot, repo);
    } else if step.op.Ingest? {
      IngestOfQueued(db, step.op.run, step.op.scan, repo);
    } else {
      CallOnQueued(db, step.op, repo);
    }
    hide Inv, AlreadyIndexed, Apply, Owned, Enabled;
    assert !step.crashes && step.op.Index? ==> Apply(db, step.op) == Indexes(db, step.op.run, step.op.snapshot) by {
      ApplyTasks(db, step.op);
    }
    assert !step.crashes && step.op.Ingest? ==> Apply(db, step.op) == Ingests(db, step.op.run, step.op.scan) by {
      ApplyTasks(db, step.op);
    }
    hide Indexes, Ingests;
  }

  lemma {:induction false} ApplyTasks(db: Db, op: Operation)
    ensures op.Index? ==> Apply(db, op) == Indexes(db, op.run, op.snapshot)
    ensures op.Ingest? ==> Apply(db, op) == Ingests(db, op.run, op.scan)
  {
    hide Indexes, Ingests;
  }

  lemma {:induction false} CallOnQueued(db: Db, op: Operation, repo: Id)
    requires Enabled(db, op) && !op.Ingest? && !op.Index? && repo in db.repos && db.repos[repo].status == Queued
    ensures repo in Apply(db, op).db.repos
    ensures Apply(db, op).db.repos[repo].status != Queued <==>
              op.Delete? && op.repo == repo && Owned(db, op.owner, repo)
  {
    hide HasActive, UrlTaken;
  }

  lemma {:induction false} IngestOfQueued(db: Db, run: Id, scan: Scan, repo: Id)
    requires run in db.runs && repo in db.repos && db.repos[repo].status == Queued
    ensures var after := Ingests(db, run, scan).db;
            repo in after.repos && (after.repos[repo].status != Queued <==> db.runs[run].repo == repo)
  {
    hide Finished;
  }

  lemma {:induction false} IndexOfQueued(db: Db, run: Id, snapshot: Id, repo: Id)
    requires Inv(db) && Enabled(db, Index(run, snapshot)) && repo in db.repos && db.repos[repo].status == Queued
    ensures var after := Indexes(db, run, snapshot).db;
            && repo in after.repos
            && (after.repos[repo].status != Queued <==> db.runs[run].repo == repo && AlreadyIndexed(db, repo))
  {
    hide RepositoriesOk, SnapshotsOk, Coupled;
    if db.runs[run].repo != repo {
      OtherTask(db, Index(run, snapshot), repo);
    } else if AlreadyIndexed(db, repo) {
      IndexUnchecked(db, run, snapshot);
    } else {
      IndexRefused(db, run, snapshot);
    }
    hide Indexes, AlreadyIndexed;
  }

  /** A waiting repository's own ingestion task ends its run, unless it crashes. */
  lemma {:induction false} OwnIngestEndsRun(db: Db, step: Step)
    requires Inv(db) && step.op.Ingest? && Enabled(db, step.op) && db.runs[step.op.run].repo in db.repos
    requires db.repos[db.runs[step.op.run].repo].status == Queued
    ensures step.op.run in Next(db, step).db.runs
    ensures Next(db, step).db.runs[step.op.run].repo == db.runs[step.op.run].repo
    ensures Next(db, step).db.runs[step.op.run].status in
            (if step.crashes then {db.runs[step.op.run].status} else {RunSucceeded, RunFailed})
    ensures step.crashes ==> Next(db, step).db == db
  {
    var run := db.runs[step.op.run];
    assert Numbered(run.events);
    hide Inv, Numbered, Finished;
    match step.op.scan
    case CloneFails => FinishedRun(run, RunFailed, [StartedEvent, FailedEvent]);
    case ScanFails(_) => FinishedRun(run, RunFailed, [StartedEvent, ClonedEvent, FailedEvent]);
    case Scans(_) => FinishedRun(run, RunSucceeded, [StartedEvent, ClonedEvent, CompletedEvent]);
  }

  lemma {:induction false} RunUntouched(db: Db, step: Step, run: Id)
    requires Enabled(db, step.op) && run in db.runs
    requires !(step.op.Ingest? && step.op.run == run) && !(step.op.Index? && step.op.run == run)
    ensures run in Next(db, step).db.runs && Next(db, step).db.runs[run] == db.runs[run]
  {
    hide Finished, AlreadyIndexed;
  }

  /**
   An ingestion task commits exactly when its repository is queued; it then ends the run, and it moves the
   latest revision exactly when both clone and scan succeeded.
   */
  lemma {:induction false} IngestCommitsIff(db: Db, step: Step)
    requires Inv(db) && step.op.Ingest? && Enabled(db, step.op)
    ensures var repo := db.runs[step.op.run].repo;
            && (Next(db, step).ok <==> !step.crashes && db.repos[repo].status == Queued)
            && (Next(db, step).ok ==>
                  var after, scan := Next(db, step).db, step.op.scan;
                  && repo in after.repos && step.op.run in after.runs
                  && after.repos[repo].status == (if scan.Scans? then ReadyForIndexing else Failed)
                  && after.runs[step.op.run].status == (if scan.Scans? then RunSucceeded else RunFailed)
                  && after.repos[repo].latestRevision ==
                       (if scan.Scans? then Some(RevisionKey(repo, scan.commit)) else db.repos[repo].latestRevision)
                  && after.repos[repo].indexedRevision == db.repos[repo].indexedRevision
                  && after.snapshots == (if scan.Scans?
                                         then WithoutChunks(db.snapshots, RevisionKey(repo, scan.commit))
                                         else db.snapshots))
  {
    var repo := db.runs[step.op.run].repo;
    assert Settled(db.repos[repo].status);
    if db.repos[repo].status == Queued {
      OwnIngestEndsRun(db, step);
      IngestedRow(db, step.op.run, step.op.scan);
    } else {
      IngestRefused(db, step.op.run, step.op.scan);
    }
    hide Inv, Ingests, Enabled;
  }

  lemma {:induction false} IngestedRow(db: Db, run: Id, scan: Scan)
    requires run in db.runs && db.runs[run].repo in db.repos && db.repos[db.runs[run].repo].status == Queued
    ensures var repo, r := db.runs[run].repo, Ingests(db, run, scan);
            && r.ok && r.db.snapshots == (if scan.Scans?
                                          then WithoutChunks(db.snapshots, RevisionKey(repo, scan.commit))
                                          else db.snapshots)
            && repo in r.db.repos && run in r.db.runs
            && r.db.repos[repo] == (if scan.Scans?
                 then db.repos[repo].(status := ReadyForIndexing,
                                      latestRevision := Some(RevisionKey(repo, scan.commit)))
                 else db.repos[repo].(status := Failed))
            && r.db.runs[run].status == (if scan.Scans? then RunSucceeded else RunFailed)
  {
  }

  // ----- Indexing -----

  /** Exactly when an index task commits. */
  lemma {:induction false} IndexCommitsIff(db: Db, step: Step)
    requires Inv(db) && step.op.Index? && Enabled(db, step.op)
    ensures var repo := db.runs[step.op.run].repo;
            Next(db, step).ok <==>
            && !step.crashes
            && db.repos[repo].latestRevision.Some?
            && (AlreadyIndexed(db, repo)
                || (db.repos[repo].status in {ReadyForIndexing, Ready} && |SnapshotsOf(db.snapshots, repo)| <= 1))
  {
    hide Finished, Coupled;
    var repo := db.runs[step.op.run].repo;
    assert SnapshotsOf(db.snapshots, repo) == ReadySnapshots(db.snapshots, repo);
    if db.repos[repo].latestRevision.Some? {
      AtMostOnePerRevision(db, repo, db.repos[repo].latestRevision.value);
    }
    hide SnapshotsOk, RunsOk, AlreadyIndexed, RevisionSnapshots, SnapshotsOf, ReadySnapshots;
  }

  lemma {:induction false} AtMostOnePerRevision(db: Db, repo: Id, revision: RevisionKey)
    requires SnapshotsOk(db.snapshots, db.repos.Keys)
    ensures |RevisionSnapshots(db.snapshots, repo, revision)| <= 1
  {
    var all := RevisionSnapshots(db.snapshots, repo, revision);
    if s :| s in all {
      assert all == {s};
    }
  }

  /**
   A repository with two snapshots keeps exactly these until it is deleted: no third revision is ever
   indexed, since the query for the latest ready snapshot then raises and the task rolls back.
   */
  lemma {:induction false} NoThirdSnapshot(dbs: seq<Db>, steps: seq<Step>, repo: Id, i: nat, j: nat)
    requires IsRun(dbs, steps) && i <= j < |dbs|
    requires repo in dbs[i].repos && |SnapshotsOf(dbs[i].snapshots, repo)| == 2
    ensures repo in dbs[j].repos
    ensures dbs[j].repos[repo].deleted || SnapshotsOf(dbs[j].snapshots, repo) == SnapshotsOf(dbs[i].snapshots, repo)
    decreases j
  {
    hide Inv, Next, Enabled, SnapshotsOf;
    if i < j {
      NoThirdSnapshot(dbs, steps, repo, i, j - 1);
      CommittedStatesAreSound(dbs, steps, j - 1);
      WritesAreFaithful(dbs[j - 1], steps[j - 1], repo);
      if !dbs[j - 1].repos[repo].deleted {
        FullStep(dbs[j - 1], steps[j - 1], repo);
      }
    }
  }

  lemma {:induction false} FullStep(db: Db, step: Step, repo: Id)
    requires Inv(db) && Enabled(db, step.op) && repo in db.repos && !db.repos[repo].deleted
    requires |SnapshotsOf(db.snapshots, repo)| == 2
    ensures SnapshotsOf(Next(db, step).db.snapshots, repo) == SnapshotsOf(db.snapshots, repo)
  {
    if step.op.Index? {
      FullIndex(db, step.op.run, step.op.snapshot, repo);
    }
    hide Inv, Indexes, Ingests, Creates, AlreadyIndexed;
    OtherStepsKeepSnapshots(db, step, repo);
  }

  lemma {:induction false} FullIndex(db: Db, run: Id, snapshot: Id, repo: Id)
    requires Inv(db) && Enabled(db, Index(run, snapshot)) && |SnapshotsOf(db.snapshots, repo)| == 2
    ensures SnapshotsOf(Indexes(db, run, snapshot).db.snapshots, repo) == SnapshotsOf(db.snapshots, repo)
  {
    AllAreReady(db, repo);
    hide Inv, AlreadyIndexed, Finished, ReadySnapshots, RevisionSnapshots;
    if db.runs[run].repo != repo {
      OtherIndexKeepsSnapshots(db, run, snapshot, repo);
    }
  }

  lemma {:induction false} AllAreReady(db: Db, repo: Id)
    requires SnapshotsOk(db.snapshots, db.repos.Keys)
    ensures SnapshotsOf(db.snapshots, repo) == ReadySnapshots(db.snapshots, repo)
  {
  }

  lemma {:induction false} OtherIndexKeepsSnapshots(db: Db, run: Id, snapshot: Id, repo: Id)
    requires Enabled(db, Index(run, snapshot)) && db.runs[run].repo != repo
    ensures SnapshotsOf(Indexes(db, run, snapshot).db.snapshots, repo) == SnapshotsOf(db.snapshots, repo)
  {
    hide AlreadyIndexed, Finished, ReadySnapshots, RevisionSnapshots;
  }

  lemma {:induction false} OtherStepsKeepSnapshots(db: Db, step: Step, repo: Id)
    ensures !step.op.Index? && !step.op.Cleanup? ==>
              SnapshotsOf(Next(db, step).db.snapshots, repo) == SnapshotsOf(db.snapshots, repo)
  {
    hide Indexes, Cleans, Finished, HasActive, UrlTaken;
  }

  // ----- Clone URLs -----

  /** Once an owner has registered a URL, no later create for it adds a repository, even after deletion. */
  lemma {:induction false} UrlIsRegisteredOnce(dbs: seq<Db>, steps: seq<Step>, repo: Id, i: nat, j: nat)
    requires IsRun(dbs, steps) && i <= j < |steps| && repo in dbs[i].repos
    requires steps[j].op.Create? && steps[j].op.owner == dbs[i].repos[repo].owner
             && steps[j].op.url == dbs[i].repos[repo].url
    ensures dbs[j + 1] == dbs[j]
    ensures dbs[i].repos[repo].deleted ==> !Next(dbs[j], steps[j]).ok
  {
    RowsStay(dbs, steps, repo, i, j);
    CommittedStatesAreSound(dbs, steps, j);
  }

  lemma {:induction false} RowsStay(dbs: seq<Db>, steps: seq<Step>, repo: Id, i: nat, j: nat)
    requires IsRun(dbs, steps) && i <= j < |dbs| && repo in dbs[i].repos
    ensures repo in dbs[j].repos
    ensures dbs[j].repos[repo].owner == dbs[i].repos[repo].owner && dbs[j].repos[repo].url == dbs[i].repos[repo].url
    ensures dbs[i].repos[repo].deleted ==> dbs[j].repos[repo].deleted
    decreases j
  {
    hide Next, Enabled;
    if i < j {
      RowsStay(dbs, steps, repo, i, j - 1);
      WritesAreFaithful(dbs[j - 1], steps[j - 1], repo);
    }
  }

  // ----- These things do happen -----

  lemma {:induction false} Extend(dbs: seq<Db>, steps: seq<Step>, op: Operation)
    returns (dbs': seq<Db>, steps': seq<Step>)
    requires IsRun(dbs, steps) && Enabled(dbs[|steps|], op)
    ensures IsRun(dbs', steps') && |steps'| == |steps| + 1
    ensures dbs'[|steps'|] == Apply(dbs[|steps|], op).db
  {
    dbs', steps' := dbs + [Apply(dbs[|steps|], op).db], steps + [Step(op, false)];
  }

  const V: RevisionKey := RevisionKey(0, "c")

  /** Repository 0 with its one revision ingested by run 0 and indexed by run 1. */
  ghost predicate IndexedOnce(db: Db) {
    && db.repos == map[0 := Repository(0, "u", Ready, false, Some(V), Some(V))]
    && db.revisions == map[V := Ready]
    && db.snapshots == map[0 := Snapshot(0, V, true, true)]
    && db.runs.Keys == {0, 1}
    && db.runs[0].kind == IngestionRun && db.runs[0].status == RunSucceeded
    && db.runs[1].kind == IndexingRun && db.runs[1].repo == 0 && db.runs[1].status == RunSucceeded
  }

  /** Repository 0 ingested by run 0 and not indexed yet. */
  ghost predicate IngestedOnce(db: Db) {
    && db.repos == map[0 := Repository(0, "u", ReadyForIndexing, false, Some(V), None)]
    && db.revisions == map[V := ReadyForIndexing] && db.snapshots == map[]
    && db.runs.Keys == {0} && db.runs[0].kind == IngestionRun && db.runs[0].status == RunSucceeded
  }

  lemma {:induction false} ReachIngested() returns (dbs: seq<Db>, steps: seq<Step>)
    ensures IsRun(dbs, steps) && IngestedOnce(dbs[|steps|])
  {
    hide IsRun, Finished, WithEvent;
    dbs, steps := [Db(map[], map[], map[], map[])], [];
    assert IsRun(dbs, steps) by { EmptyRun(); }
    dbs, steps := Extend(dbs, steps, Create(0, "u", 0, 0));
    var d1 := dbs[|steps|];
    assert d1.repos == map[0 := Repository(0, "u", Queued, false, None, None)];
    assert d1.runs == map[0 := Run(0, IngestionRun, RunQueued, [Event(1, QueuedEvent)])];
    FinishedRun(d1.runs[0], RunSucceeded, [StartedEvent, ClonedEvent, CompletedEvent]);
    dbs, steps := Extend(dbs, steps, Ingest(0, Scans("c")));
  }

  lemma {:induction false} EmptyRun()
    ensures IsRun([Db(map[], map[], map[], map[])], [])
  {
  }

  lemma {:induction false} ReachIndexed() returns (dbs: seq<Db>, steps: seq<Step>)
    ensures IsRun(dbs, steps) && IndexedOnce(dbs[|steps|])
  {
    hide IsRun, Finished, WithEvent;
    dbs, steps := ReachIngested();
    dbs, steps := Extend(dbs, steps, RequestIndex(0, 0, 1));
    var d := dbs[|steps|];
    assert d.runs.Keys == {0, 1} && d.runs[1] == Run(0, IndexingRun, RunQueued, [Event(1, QueuedEvent)]);
    assert RevisionSnapshots(d.snapshots, 0, V) == {} && ReadySnapshots(d.snapshots, 0) == {};
    FinishedRun(d.runs[1], RunSucceeded, [StartedEvent, CompletedEvent]);
    dbs, steps := Extend(dbs, steps, Index(1, 0));
  }

  lemma {:induction false} RedeliveredIndexIsUnchecked(db: Db)
    requires 0 in db.repos && db.repos[0].latestRevision == Some(V) && V in db.revisions
    requires db.snapshots == map[0 := Snapshot(0, V, true, true)]
    requires 1 in db.runs && db.runs[1].repo == 0
    ensures var after := Indexes(db, 1, 1).db;
            after.repos == db.repos[0 := db.repos[0].(status := Ready, indexedRevision := Some(V))]
            && forall run :: run in db.runs && run != 1 ==> run in after.runs && after.runs[run] == db.runs[run]
  {
    assert RevisionSnapshots(db.snapshots, 0, V) == {0};
    assert AlreadyIndexed(db, 0) by { assert 0 in RevisionSnapshots(db.snapshots, 0, V); }
  }

  /** A run that ends with a deletion undone by the redelivery of a finished index task. */
  lemma {:induction false} LostDeletionIsReachable() returns (dbs: seq<Db>, steps: seq<Step>)
    ensures IsRun(dbs, steps) && DeletionLost(dbs[|steps|], 0)
  {
    dbs, steps := ReachIndexed();
    dbs, steps := Extend(dbs, steps, Delete(0, 0));
    RedeliveredIndexIsUnchecked(dbs[|steps|]);
    dbs, steps := Extend(dbs, steps, Index(1, 1));
  }

  /** A run that ends with a sync whose ingestion run the same redelivery has orphaned. */
  lemma {:induction false} OrphanIsReachable() returns (dbs: seq<Db>, steps: seq<Step>)
    ensures IsRun(dbs, steps) && Orphaned(dbs[|steps|], 2)
  {
    dbs, steps := ReachIndexed();
    assert !HasActive(dbs[|steps|], 0, IngestionRun);
    dbs, steps := Extend(dbs, steps, Sync(0, 0, 2));
    RedeliveredIndexIsUnchecked(dbs[|steps|]);
    dbs, steps := Extend(dbs, steps, Index(1, 1));
  }
}
