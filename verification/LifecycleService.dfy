/**
 The services and tasks as they run: rows are written one after the other inside a transaction, and
 the boundary commits or rolls back. Each transaction is proved equal to its step in `Lifecycle`.
 */
module LifecycleService {
  import opened Options
  import opened Lifecycle

  lemma {:induction false} FinishedRows(run: Run, status: RunStatus, a: EventType, b: EventType, c: EventType)
    ensures var one := WithEvent(run.events, a);
            && Finished(run, status, [a]) == run.(status := status, events := one)
            && Finished(run, status, [a, b]) == run.(status := status, events := WithEvent(one, b))
            && Finished(run, status, [a, b, c]) == run.(status := status, events := WithEvent(WithEvent(one, b), c))
  {
    hide WithEvent;
    assert [a, b, c][1..] == [b, c] && [b, c][1..] == [c] && [a, b][1..] == [b] && [a][1..] == [];
    assert [b][1..] == [] && [c][1..] == [];
    var first := run.(events := WithEvent(run.events, a));
    var second := first.(events := WithEvent(first.events, b));
    assert Finished(second, status, [c]) == second.(status := status, events := WithEvent(second.events, c));
    assert Finished(first, status, [b]) == second.(status := status);
  }

  class Service {
    var db: Db
    /** The statuses written to the repository row in the current transaction. */
    ghost var trail: seq<Status>

    constructor ()
      ensures db == Db(map[], map[], map[], map[]) && trail == []
    {
      db := Db(map[], map[], map[], map[]);
      trail := [];
    }

    // ----- Row updates -----

    method WriteStatus(repo: Id, status: Status)
      requires repo in db.repos
      modifies this
      ensures db == old(db).(repos := old(db).repos[repo := old(db).repos[repo].(status := status)])
      ensures trail == old(trail) + [status]
    {
      db := db.(repos := db.repos[repo := db.repos[repo].(status := status)]);
      trail := trail + [status];
    }

    /** Raises `InvalidState` (answers false) when the table has no such edge. */
    method Transition(repo: Id, target: Status) returns (ok: bool)
      requires repo in db.repos
      modifies this
      ensures ok == Allowed(old(db).repos[repo].status, target)
      ensures ok ==> db == old(db).(repos := old(db).repos[repo := old(db).repos[repo].(status := target)])
                     && trail == old(trail) + [target]
      ensures !ok ==> db == old(db) && trail == old(trail)
    {
      ok := Allowed(db.repos[repo].status, target);
      if ok {
        WriteStatus(repo, target);
      }
    }

    method WriteRun(run: Id, status: RunStatus)
      requires run in db.runs
      modifies `db
      ensures db == old(db).(runs := old(db).runs[run := old(db).runs[run].(status := status)])
    {
      db := db.(runs := db.runs[run := db.runs[run].(status := status)]);
    }

    method AddEvent(run: Id, what: EventType)
      requires run in db.runs
      modifies `db
      ensures db == old(db).(runs := old(db).runs[run :=
                old(db).runs[run].(events := WithEvent(old(db).runs[run].events, what))])
    {
      var sequence := MaxSequence(db.runs[run].events) + 1;
      db := db.(runs := db.runs[run := db.runs[run].(events := db.runs[run].events + [Event(sequence, what)])]);
    }

    /** Sets the run's status and then adds its event. */
    method MoveRun(run: Id, status: RunStatus, what: EventType)
      requires run in db.runs
      modifies `db
      ensures db == old(db).(runs := old(db).runs[run :=
                old(db).runs[run].(status := status, events := WithEvent(old(db).runs[run].events, what))])
    {
      hide WithEvent;
      WriteRun(run, status);
      AddEvent(run, what);
    }

    method AddRun(run: Id, repo: Id, kind: RunKind)
      requires run !in db.runs
      modifies `db
      ensures db == old(db).(runs := old(db).runs[run := Run(repo, kind, RunQueued, [Event(1, QueuedEvent)])])
    {
      db := db.(runs := db.runs[run := Run(repo, kind, RunQueued, [])]);
      AddEvent(run, QueuedEvent);
      assert WithEvent([], QueuedEvent) == [Event(1, QueuedEvent)];
      assert db.runs == old(db).runs[run := Run(repo, kind, RunQueued, [Event(1, QueuedEvent)])];
    }

    // ----- API calls -----

    method CreateRepository(owner: Id, url: string, repo: Id, run: Id) returns (ok: bool)
      requires repo !in db.repos && run !in db.runs
      modifies this
      ensures ok == Creates(old(db), owner, url, repo, run).ok
      ensures ok ==> Outcome(db, true, trail) == Creates(old(db), owner, url, repo, run).(writes := old(trail))
    {
      if existing :| existing in db.repos && db.repos[existing].owner == owner && db.repos[existing].url == url
                     && !db.repos[existing].deleted
                     && (HasActive(db, existing, IngestionRun) || db.repos[existing].status != Deleted) {
        return true;
      }
      if UrlTaken(db, owner, url) {
        return false;
      }
      db := db.(repos := db.repos[repo := Repository(owner, url, Queued, false, None, None)]);
      AddRun(run, repo, IngestionRun);
      return true;
    }

    method SyncRepository(owner: Id, repo: Id, run: Id) returns (ok: bool)
      requires run !in db.runs
      modifies this
      ensures ok == Syncs(old(db), owner, repo, run).ok
      ensures ok ==> db == Syncs(old(db), owner, repo, run).db && trail == old(trail) + [Queued]
    {
      if !Owned(db, owner, repo) || HasActive(db, repo, IngestionRun) {
        return false;
      }
      ok := Transition(repo, Queued);
      if ok {
        AddRun(run, repo, IngestionRun);
      }
    }

    method MarkDeleting(owner: Id, repo: Id) returns (ok: bool)
      modifies this
      ensures ok == Deletes(old(db), owner, repo).ok
      ensures ok ==> db == Deletes(old(db), owner, repo).db && trail == old(trail) + [Deleting]
    {
      if !Owned(db, owner, repo) {
        return false;
      }
      ok := Transition(repo, Deleting);
      if ok {
        db := db.(repos := db.repos[repo := db.repos[repo].(deleted := true)]);
        assert db.repos == Deletes(old(db), owner, repo).db.repos;
      }
    }

    method CreateIndexRun(owner: Id, repo: Id, run: Id) returns (ok: bool)
      requires run !in db.runs
      modifies `db
      ensures ok == RequestsIndex(old(db), owner, repo, run).ok
      ensures ok ==> db == RequestsIndex(old(db), owner, repo, run).db
    {
      if !Owned(db, owner, repo) || db.repos[repo].latestRevision.None? {
        return false;
      }
      if !HasActive(db, repo, IndexingRun) {
        AddRun(run, repo, IndexingRun);
      }
      return true;
    }

    // ----- Tasks: a false answer is an exception that leaves the transaction half done -----

    method IngestRepository(run: Id, scan: Scan) returns (ok: bool)
      modifies this
      ensures ok == Ingests(old(db), run, scan).ok
      ensures ok ==> db == Ingests(old(db), run, scan).db && trail == old(trail) + Ingests(old(db), run, scan).writes
    {
      hide WithEvent, Finished;
      if run !in db.runs || db.runs[run].repo !in db.repos {
        return false;
      }
      var repo := db.runs[run].repo;
      ghost var row := db.runs[run];
      MoveRun(run, RunRunning, StartedEvent);
      ok := Transition(repo, Cloning);
      if ok {
        CloneAndScan(repo, run, scan);
        FinishedRows(row, RunFailed, StartedEvent, FailedEvent, FailedEvent);
        FinishedRows(row, RunFailed, StartedEvent, ClonedEvent, FailedEvent);
        FinishedRows(row, RunSucceeded, StartedEvent, ClonedEvent, CompletedEvent);
        ghost var want := Ingests(old(db), run, scan).db;
        assert db.repos == want.repos && db.revisions == want.revisions && db.runs == want.runs
               && db.snapshots == want.snapshots;
      }
    }

    /** The guarded part of `ingest`: a clone or scan failure is caught and recorded, not raised. */
    method CloneAndScan(repo: Id, run: Id, scan: Scan)
      requires repo in db.repos && run in db.runs && db.repos[repo].status == Cloning
      modifies this
      ensures db.snapshots == if scan.Scans? then WithoutChunks(old(db).snapshots, RevisionKey(repo, scan.commit))
                else old(db).snapshots
      ensures db.repos == old(db).repos[repo := if scan.Scans?
                then old(db).repos[repo].(status := ReadyForIndexing,
                                          latestRevision := Some(RevisionKey(repo, scan.commit)))
                else old(db).repos[repo].(status := Failed)]
      ensures db.revisions == if scan.CloneFails? then old(db).revisions
                else old(db).revisions[RevisionKey(repo, scan.commit) :=
                  if scan.Scans? then ReadyForIndexing else Failed]
      ensures var events := old(db).runs[run].events;
              var cloned := if scan.CloneFails? then events else WithEvent(events, ClonedEvent);
              db.runs == old(db).runs[run := old(db).runs[run].(
                status := if scan.Scans? then RunSucceeded else RunFailed,
                events := WithEvent(cloned, if scan.Scans? then CompletedEvent else FailedEvent))]
      ensures trail == old(trail) + match scan
                case CloneFails => [Failed]
                case ScanFails(_) => [Scanning, Failed]
                case Scans(_) => [Scanning, ReadyForIndexing]
    {
      hide WithEvent, WithoutChunks;
      if scan.CloneFails? {
        Fail(repo, run);
        return;
      }
      var revision := RevisionKey(repo, scan.commit);
      StartScan(repo, run, revision);
      if scan.ScanFails? {
        db := db.(revisions := db.revisions[revision := Failed]);
        Fail(repo, run);
      } else {
        CompleteScan(repo, run, revision);
      }
    }

    method StartScan(repo: Id, run: Id, revision: RevisionKey)
      requires repo in db.repos && run in db.runs && db.repos[repo].status == Cloning
      modifies this
      ensures trail == old(trail) + [Scanning]
      ensures db == old(db).(
                repos := old(db).repos[repo := old(db).repos[repo].(status := Scanning)],
                revisions := old(db).revisions[revision := Scanning],
                runs := old(db).runs[run :=
                  old(db).runs[run].(events := WithEvent(old(db).runs[run].events, ClonedEvent))])
    {
      hide WithEvent;
      var ok := Transition(repo, Scanning);
      db := db.(revisions := db.revisions[revision := Scanning]);
      AddEvent(run, ClonedEvent);
    }

    /** The file rows are replaced, and the revision becomes the repository's latest. */
    method CompleteScan(repo: Id, run: Id, revision: RevisionKey)
      requires repo in db.repos && run in db.runs && db.repos[repo].status == Scanning
      modifies this
      ensures trail == old(trail) + [ReadyForIndexing]
      ensures db == Db(
                old(db).repos[repo :=
                  old(db).repos[repo].(status := ReadyForIndexing, latestRevision := Some(revision))],
                old(db).revisions[revision := ReadyForIndexing],
                old(db).runs[run := old(db).runs[run].(
                  status := RunSucceeded, events := WithEvent(old(db).runs[run].events, CompletedEvent))],
                WithoutChunks(old(db).snapshots, revision))
    {
      hide WithEvent, WithoutChunks;
      db := db.(snapshots := WithoutChunks(db.snapshots, revision));
      db := db.(revisions := db.revisions[revision := ReadyForIndexing]);
      db := db.(repos := db.repos[repo := db.repos[repo].(latestRevision := Some(revision))]);
      var ok := Transition(repo, ReadyForIndexing);
      MoveRun(run, RunSucceeded, CompletedEvent);
    }

    /** `_fail` without its revision part. */
    method Fail(repo: Id, run: Id)
      requires repo in db.repos && run in db.runs
      modifies this
      ensures trail == old(trail) + [Failed]
      ensures db == old(db).(
                repos := old(db).repos[repo := old(db).repos[repo].(status := Failed)],
                runs := old(db).runs[run := old(db).runs[run].(
                  status := RunFailed, events := WithEvent(old(db).runs[run].events, FailedEvent))])
    {
      hide WithEvent;
      WriteStatus(repo, Failed);
      MoveRun(run, RunFailed, FailedEvent);
    }

    /** The writes both branches of `index_repository` end with. */
    method MarkIndexed(repo: Id, revision: RevisionKey)
      requires repo in db.repos
      modifies this
      ensures trail == old(trail) + [Ready]
      ensures db == old(db).(
                repos := old(db).repos[repo :=
                  old(db).repos[repo].(status := Ready, indexedRevision := Some(revision))],
                revisions := old(db).revisions[revision := Ready])
    {
      db := db.(repos := db.repos[repo := db.repos[repo].(indexedRevision := Some(revision))]);
      WriteStatus(repo, Ready);
      db := db.(revisions := db.revisions[revision := Ready]);
    }

    method IndexRepository(run: Id, snapshot: Id) returns (ok: bool)
      requires snapshot !in db.snapshots
      modifies this
      ensures ok == Indexes(old(db), run, snapshot).ok
      ensures ok ==> db == Indexes(old(db), run, snapshot).db
                     && trail == old(trail) + Indexes(old(db), run, snapshot).writes
    {
      hide WithEvent, Finished;
      if run !in db.runs || db.runs[run].repo !in db.repos {
        return false;
      }
      var repo := db.runs[run].repo;
      ghost var row := db.runs[run];
      if db.repos[repo].latestRevision.None? || db.repos[repo].latestRevision.value !in db.revisions {
        return false;
      }
      var revision := db.repos[repo].latestRevision.value;
      MoveRun(run, RunRunning, StartedEvent);
      var existing := RevisionSnapshots(db.snapshots, repo, revision);
      if |existing| > 1 {
        return false;
      }
      var reuse := exists s :: s in existing && db.snapshots[s].ready;
      assert reuse == AlreadyIndexed(old(db), repo) by {
        AtMostOneMember(existing);
      }
      hide AlreadyIndexed, RevisionSnapshots, ReadySnapshots;
      FinishedRows(row, RunSucceeded, StartedEvent, CompletedEvent, CompletedEvent);
      if reuse {
        WriteRun(run, RunSucceeded);
        MarkIndexed(repo, revision);
        ok := true;
      } else {
        ok := BuildSnapshot(repo, run, revision, snapshot);
      }
      ghost var want := Indexes(old(db), run, snapshot).db;
      assert ok ==> db.repos == want.repos && db.revisions == want.revisions;
      assert ok ==> db.runs == want.runs && db.snapshots == want.snapshots;
    }

    /** The build branch, with the parsing and embedding of files left to `IndexBuild`. */
    method BuildSnapshot(repo: Id, run: Id, revision: RevisionKey, snapshot: Id) returns (ok: bool)
      requires repo in db.repos && run in db.runs && snapshot !in db.snapshots
      modifies this
      ensures ok == (Allowed(old(db).repos[repo].status, Indexing) && |ReadySnapshots(old(db).snapshots, repo)| <= 1)
      ensures ok ==> trail == old(trail) + [Indexing, Ready]
      ensures ok ==> db == Db(
                old(db).repos[repo := old(db).repos[repo].(status := Ready, indexedRevision := Some(revision))],
                old(db).revisions[revision := Ready],
                old(db).runs[run := old(db).runs[run].(
                  status := RunSucceeded, events := WithEvent(old(db).runs[run].events, CompletedEvent))],
                old(db).snapshots[snapshot := Snapshot(repo, revision, true, true)])
    {
      hide WithEvent;
      ok := Transition(repo, Indexing);
      if !ok {
        return;
      }
      db := db.(revisions := db.revisions[revision := Indexing]);
      db := db.(snapshots := db.snapshots[snapshot := Snapshot(repo, revision, false, true)]);
      assert ReadySnapshots(db.snapshots, repo) == ReadySnapshots(old(db).snapshots, repo);
      if |ReadySnapshots(db.snapshots, repo)| > 1 {
        return false;
      }
      hide ReadySnapshots;
      db := db.(snapshots := db.snapshots[snapshot := Snapshot(repo, revision, true, true)]);
      MarkIndexed(repo, revision);
      MoveRun(run, RunSucceeded, CompletedEvent);
    }

    method CleanupRepository(repo: Id)
      modifies this
      ensures db == Cleans(old(db), repo).db && trail == old(trail) + Cleans(old(db), repo).writes
    {
      if repo in db.repos && db.repos[repo].status == Deleting {
        WriteStatus(repo, Deleted);
        db := db.(repos := db.repos[repo := db.repos[repo].(deleted := true)]);
        assert db.repos == Cleans(old(db), repo).db.repos;
      }
      db := db.(snapshots := map s | s in db.snapshots && db.snapshots[s].repo != repo :: db.snapshots[s]);
    }

    // ----- The transaction boundary -----

    method Transact(step: Step) returns (ok: bool)
      requires Enabled(db, step.op)
      modifies this
      ensures Outcome(db, ok, trail) == Next(old(db), step)
    {
      var saved := db;
      trail := [];
      match step.op {
        case Create(owner, url, repo, run) => ok := CreateRepository(owner, url, repo, run);
        case Sync(owner, repo, run) => ok := SyncRepository(owner, repo, run);
        case Delete(owner, repo) => ok := MarkDeleting(owner, repo);
        case RequestIndex(owner, repo, run) => ok := CreateIndexRun(owner, repo, run);
        case Ingest(run, scan) => ok := IngestRepository(run, scan);
        case Index(run, snapshot) => ok := IndexRepository(run, snapshot);
        case Cleanup(repo) =>
          CleanupRepository(repo);
          ok := true;
      }
      hide Creates, Syncs, Deletes, RequestsIndex, Ingests, Indexes, Cleans;
      if step.crashes || !ok {
        db := saved;
        trail := [];
        ok := false;
      }
    }
  }

  lemma {:induction false} AtMostOneMember(s: set<Id>)
    requires |s| <= 1
    ensures forall a, b :: a in s && b in s ==> a == b
  {
    forall a, b | a in s && b in s ensures a == b {
      if a != b {
        assert {a, b} <= s && |{a, b}| == 2;
        CardinalityOfSubset({a, b}, s);
      }
    }
  }

  lemma {:induction false} CardinalityOfSubset(a: set<Id>, b: set<Id>)
    requires a <= b
    ensures |a| <= |b|
  {
    assert b == a + (b - a);
  }
}
