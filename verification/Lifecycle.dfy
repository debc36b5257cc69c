/**
 The repository lifecycle across API calls and worker tasks: backend/app/services/ingestion.py,
 the status writes of backend/app/services/indexing.py, and the commit boundaries of
 backend/app/workers/tasks.py. Every API call and every task is one transaction that commits or
 rolls back; a task may be delivered again at any time after it was sent.
 */
module Lifecycle {
  import opened Options

  type Id = nat

  datatype Status = Queued | Cloning | Scanning | ReadyForIndexing | Indexing | Ready | Failed | Deleting | Deleted
  datatype RunKind = IngestionRun | IndexingRun
  datatype RunStatus = RunQueued | RunRunning | RunSucceeded | RunFailed
  datatype EventType = QueuedEvent | StartedEvent | ClonedEvent | CompletedEvent | FailedEvent

  /** `ALLOWED_STATE_TRANSITIONS` */
  predicate Allowed(current: Status, target: Status) {
    match current
    case Queued => target in {Cloning, Failed, Deleting}
    case Cloning => target in {Scanning, Failed, Deleting}
    case Scanning => target in {ReadyForIndexing, Failed, Deleting}
    case ReadyForIndexing => target in {Indexing, Ready, Deleting}
    case Indexing => target in {Ready, Failed, Deleting}
    case Ready => target in {Queued, Indexing, Deleting}
    case Failed => target in {Queued, Deleting}
    case Deleting => target in {Deleted, Failed}
    case Deleted => false
  }

  /** A revision is identified by its repository and commit, as the table's unique constraint demands. */
  datatype RevisionKey = RevisionKey(repo: Id, commit: string)

  datatype Event = Event(sequence: nat, what: EventType)

  datatype Repository = Repository(owner: Id, url: string, status: Status, deleted: bool,
                                   latestRevision: Option<RevisionKey>, indexedRevision: Option<RevisionKey>)
  datatype Run = Run(repo: Id, kind: RunKind, status: RunStatus, events: seq<Event>)

  /** `intact`: the chunks its build stored are still there. */
  datatype Snapshot = Snapshot(repo: Id, revision: RevisionKey, ready: bool, intact: bool)

  /** The tables. `deleted` stands for `deleted_at is not None`; a revision row is its status. */
  datatype Db = Db(repos: map<Id, Repository>, revisions: map<RevisionKey, Status>,
                   runs: map<Id, Run>, snapshots: map<Id, Snapshot>)

  // ----- Queries -----

  predicate Owned(db: Db, owner: Id, repo: Id) {
    repo in db.repos && db.repos[repo].owner == owner && !db.repos[repo].deleted
  }

  predicate IsActive(run: Run, repo: Id, kind: RunKind) {
    run.repo == repo && run.kind == kind && run.status in {RunQueued, RunRunning}
  }

  predicate HasActive(db: Db, repo: Id, kind: RunKind) {
    exists run :: run in db.runs && IsActive(db.runs[run], repo, kind)
  }

  predicate UrlTaken(db: Db, owner: Id, url: string) {
    exists r :: r in db.repos && db.repos[r].owner == owner && db.repos[r].url == url
  }

  function SnapshotsOf(snapshots: map<Id, Snapshot>, repo: Id): set<Id> {
    set s | s in snapshots && snapshots[s].repo == repo
  }

  function ReadySnapshots(snapshots: map<Id, Snapshot>, repo: Id): set<Id> {
    set s | s in snapshots && snapshots[s].repo == repo && snapshots[s].ready
  }

  function RevisionSnapshots(snapshots: map<Id, Snapshot>, repo: Id, revision: RevisionKey): set<Id> {
    set s | s in snapshots && snapshots[s].repo == repo && snapshots[s].revision == revision
  }

  function MaxSequence(events: seq<Event>): nat {
    if events == [] then 0
    else var rest := MaxSequence(events[..|events| - 1]);
         var last := events[|events| - 1].sequence;
         if last > rest then last else rest
  }

  function WithEvent(events: seq<Event>, what: EventType): seq<Event> {
    events + [Event(MaxSequence(events) + 1, what)]
  }

  // ----- Steps -----

  datatype Scan = CloneFails | ScanFails(commit: string) | Scans(commit: string)

  /** API calls, then task deliveries. Fresh row ids are parameters. */
  datatype Operation =
    | Create(owner: Id, url: string, repo: Id, run: Id)
    | Sync(owner: Id, repo: Id, run: Id)
    | Delete(owner: Id, repo: Id)
    | RequestIndex(owner: Id, repo: Id, run: Id)
    | Ingest(run: Id, scan: Scan)
    | Index(run: Id, snapshot: Id)
    | Cleanup(repo: Id)

  /** `crashes`: an exception the code does not handle ends the transaction before its commit. */
  datatype Step = Step(op: Operation, crashes: bool)

  /** `writes` are the committed assignments to the repository's status, in order. */
  datatype Outcome = Outcome(db: Db, ok: bool, writes: seq<Status>)

  function Refused(db: Db): Outcome { Outcome(db, false, []) }

  function Creates(db: Db, owner: Id, url: string, repo: Id, run: Id): Outcome {
    if exists r :: r in db.repos && db.repos[r].owner == owner && db.repos[r].url == url
                   && !db.repos[r].deleted && (HasActive(db, r, IngestionRun) || db.repos[r].status != Deleted) then
      Outcome(db, true, [])
    else if UrlTaken(db, owner, url) then
      Refused(db)  // uq_repositories_owner_url also counts deleted rows
    else
      Outcome(db.(repos := db.repos[repo := Repository(owner, url, Queued, false, None, None)],
                  runs := db.runs[run := Run(repo, IngestionRun, RunQueued, [Event(1, QueuedEvent)])]), true, [])
  }

  function Syncs(db: Db, owner: Id, repo: Id, run: Id): Outcome {
    if !Owned(db, owner, repo) || HasActive(db, repo, IngestionRun) || !Allowed(db.repos[repo].status, Queued) then
      Refused(db)
    else
      Outcome(db.(repos := db.repos[repo := db.repos[repo].(status := Queued)],
                  runs := db.runs[run := Run(repo, IngestionRun, RunQueued, [Event(1, QueuedEvent)])]), true, [Queued])
  }

  function Deletes(db: Db, owner: Id, repo: Id): Outcome {
    if !Owned(db, owner, repo) || !Allowed(db.repos[repo].status, Deleting) then Refused(db)
    else Outcome(db.(repos := db.repos[repo := db.repos[repo].(status := Deleting, deleted := true)]), true, [Deleting])
  }

  function RequestsIndex(db: Db, owner: Id, repo: Id, run: Id): Outcome {
    if !Owned(db, owner, repo) || db.repos[repo].latestRevision.None? then Refused(db)
    else if HasActive(db, repo, IndexingRun) then Outcome(db, true, [])
    else Outcome(db.(runs := db.runs[run := Run(repo, IndexingRun, RunQueued, [Event(1, QueuedEvent)])]), true, [])
  }

  /** A task's run row after it emitted `labels` and ended in `status`. */
  function Finished(run: Run, status: RunStatus, labels: seq<EventType>): Run
    decreases |labels|
  {
    if labels == [] then run.(status := status)
    else Finished(run.(events := WithEvent(run.events, labels[0])), status, labels[1..])
  }

  /**
   `replace_for_revision` deletes the revision's file rows, and a chunk is deleted with the file it refers to;
   snapshot rows stay.
   */
  function WithoutChunks(snapshots: map<Id, Snapshot>, revision: RevisionKey): map<Id, Snapshot> {
    map s | s in snapshots :: if snapshots[s].revision == revision then snapshots[s].(intact := false) else snapshots[s]
  }

  function Ingests(db: Db, run: Id, scan: Scan): Outcome {
    if run !in db.runs || db.runs[run].repo !in db.repos then Refused(db)
    else
      var r := db.runs[run].repo;
      var repo := db.repos[r];
      if !Allowed(repo.status, Cloning) then Refused(db)
      else
        match scan
        case CloneFails =>
          Outcome(db.(repos := db.repos[r := repo.(status := Failed)],
                      runs := db.runs[run := Finished(db.runs[run], RunFailed, [StartedEvent, FailedEvent])]),
                  true, [Cloning, Failed])
        case ScanFails(commit) =>
          Outcome(db.(repos := db.repos[r := repo.(status := Failed)],
                      revisions := db.revisions[RevisionKey(r, commit) := Failed],
                      runs := db.runs[run := Finished(db.runs[run], RunFailed,
                                                      [StartedEvent, ClonedEvent, FailedEvent])]),
                  true, [Cloning, Scanning, Failed])
        case Scans(commit) =>
          var revision := RevisionKey(r, commit);
          Outcome(db.(repos := db.repos[r := repo.(status := ReadyForIndexing, latestRevision := Some(revision))],
                      revisions := db.revisions[revision := ReadyForIndexing],
                      runs := db.runs[run := Finished(db.runs[run], RunSucceeded,
                                                      [StartedEvent, ClonedEvent, CompletedEvent])],
                      snapshots := WithoutChunks(db.snapshots, revision)),
                  true, [Cloning, Scanning, ReadyForIndexing])
  }

  /** The latest revision already has its one snapshot, and it is ready. */
  predicate AlreadyIndexed(db: Db, repo: Id)
    requires repo in db.repos
  {
    && db.repos[repo].latestRevision.Some?
    && var existing := RevisionSnapshots(db.snapshots, repo, db.repos[repo].latestRevision.value);
       |existing| == 1 && exists s :: s in existing && db.snapshots[s].ready
  }

  function Indexes(db: Db, run: Id, snapshot: Id): Outcome {
    if run !in db.runs || db.runs[run].repo !in db.repos then Refused(db)
    else
      var r := db.runs[run].repo;
      var repo := db.repos[r];
      if repo.latestRevision.None? || repo.latestRevision.value !in db.revisions then Refused(db)
      else
        var revision := repo.latestRevision.value;
        var indexed := repo.(status := Ready, indexedRevision := Some(revision));
        if |RevisionSnapshots(db.snapshots, r, revision)| > 1 then Refused(db)  // scalar_one_or_none raises
        else if AlreadyIndexed(db, r) then
          Outcome(db.(repos := db.repos[r := indexed], revisions := db.revisions[revision := Ready],
                      runs := db.runs[run := Finished(db.runs[run], RunSucceeded, [StartedEvent])]),
                  true, [Ready])
        else if !Allowed(repo.status, Indexing) then Refused(db)
        else if |ReadySnapshots(db.snapshots, r)| > 1 then Refused(db)  // latest_ready_for_repository raises
        else
          Outcome(db.(repos := db.repos[r := indexed], revisions := db.revisions[revision := Ready],
                      runs := db.runs[run := Finished(db.runs[run], RunSucceeded, [StartedEvent, CompletedEvent])],
                      snapshots := db.snapshots[snapshot := Snapshot(r, revision, true, true)]),
                  true, [Indexing, Ready])
  }

  function WithoutSnapshots(db: Db, repo: Id): Db {
    db.(snapshots := map s | s in db.snapshots && db.snapshots[s].repo != repo :: db.snapshots[s])
  }

  function Cleans(db: Db, repo: Id): Outcome {
    if repo in db.repos && db.repos[repo].status == Deleting then
      Outcome(WithoutSnapshots(db.(repos := db.repos[repo := db.repos[repo].(status := Deleted, deleted := true)]),
                               repo),
              true, [Deleted])
    else
      Outcome(WithoutSnapshots(db, repo), true, [])
  }

  function Apply(db: Db, op: Operation): Outcome {
    match op
    case Create(owner, url, repo, run) => Creates(db, owner, url, repo, run)
    case Sync(owner, repo, run) => Syncs(db, owner, repo, run)
    case Delete(owner, repo) => Deletes(db, owner, repo)
    case RequestIndex(owner, repo, run) => RequestsIndex(db, owner, repo, run)
    case Ingest(run, scan) => Ingests(db, run, scan)
    case Index(run, snapshot) => Indexes(db, run, snapshot)
    case Cleanup(repo) => Cleans(db, repo)
  }

  function Next(db: Db, step: Step): Outcome {
    if step.crashes then Refused(db) else Apply(db, step.op)
  }

  /** New row ids are fresh, and tasks are delivered only after the call that sends them has committed. */
  predicate Enabled(db: Db, op: Operation) {
    match op
    case Create(_, _, repo, run) => repo !in db.repos && run !in db.runs
    case Sync(_, _, run) => run !in db.runs
    case Delete(_, _) => true
    case RequestIndex(_, _, run) => run !in db.runs
    case Ingest(run, _) => run in db.runs && db.runs[run].kind == IngestionRun
    case Index(run, snapshot) => run in db.runs && db.runs[run].kind == IndexingRun && snapshot !in db.snapshots
    case Cleanup(repo) => repo in db.repos && db.repos[repo].deleted
  }

  ghost predicate IsRun(dbs: seq<Db>, steps: seq<Step>) {
    && |dbs| == |steps| + 1
    && dbs[0] == Db(map[], map[], map[], map[])
    && forall i :: 0 <= i < |steps| ==> Enabled(dbs[i], steps[i].op) && dbs[i + 1] == Next(dbs[i], steps[i]).db
  }

  // ----- What holds in every committed state -----

  ghost predicate Numbered(events: seq<Event>) {
    forall i :: 0 <= i < |events| ==> events[i].sequence == i + 1
  }

  /** At most one queued or running run per repository and run type. */
  ghost predicate OneActiveRun(runs: map<Id, Run>) {
    forall a, b :: a in runs && b in runs && IsActive(runs[a], runs[b].repo, runs[b].kind)
                   && IsActive(runs[b], runs[b].repo, runs[b].kind) ==>
      a == b
  }

  /**
   No run is committed as running, every run belongs to a repository, and its events are numbered
   exactly 1..k, starting with the queued event.
   */
  ghost predicate RunsOk(runs: map<Id, Run>, repos: set<Id>) {
    && OneActiveRun(runs)
    && forall run :: run in runs ==>
         && runs[run].status != RunRunning
         && runs[run].repo in repos
         && Numbered(runs[run].events)
         && |runs[run].events| > 0 && runs[run].events[0].what == QueuedEvent
  }

  /** A status that a transaction may leave behind. */
  predicate Settled(status: Status) { status !in {Cloning, Scanning, Indexing} }

  ghost predicate RepositoriesOk(repos: map<Id, Repository>, revisions: map<RevisionKey, Status>) {
    && (forall v :: v in revisions ==> Settled(revisions[v]))
    && (forall q, r ::
          q in repos && r in repos && repos[q].owner == repos[r].owner && repos[q].url == repos[r].url ==> q == r)
    && (forall r :: r in repos ==>
          && Settled(repos[r].status)
          && (repos[r].status in {Deleting, Deleted} ==> repos[r].deleted)
          && (repos[r].latestRevision.Some? ==>
                repos[r].latestRevision.value in revisions && repos[r].latestRevision.value.repo == r))
  }

  predicate SameRevision(s: Snapshot, t: Snapshot) {
    s.repo == t.repo && s.revision == t.revision
  }

  /** Every snapshot is ready, one per repository and revision, and never more than two per repository. */
  ghost predicate SnapshotsOk(snapshots: map<Id, Snapshot>, repos: set<Id>) {
    && (forall s :: s in snapshots ==> snapshots[s].ready && snapshots[s].repo in repos)
    && (forall s, t :: s in snapshots && t in snapshots && SameRevision(snapshots[s], snapshots[t]) ==> s == t)
    && (forall r :: r in repos ==> |SnapshotsOf(snapshots, r)| <= 2)
  }

  predicate IsReadyFor(s: Snapshot, repo: Id, revision: RevisionKey) {
    s.repo == repo && s.revision == revision && s.ready
  }

  ghost predicate HasReadySnapshot(snapshots: map<Id, Snapshot>, repo: Id, revision: RevisionKey) {
    exists s :: s in snapshots && IsReadyFor(snapshots[s], repo, revision)
  }

  /**
   A visible repository that names an indexed revision has a ready snapshot row for it; a deleted one has no
   snapshots. Whether the snapshot still has its chunks is the subject of `LifecycleChunks`.
   */
  ghost predicate Coupled(repos: map<Id, Repository>, snapshots: map<Id, Snapshot>) {
    forall r :: r in repos ==>
      && (!repos[r].deleted && repos[r].indexedRevision.Some? ==>
            HasReadySnapshot(snapshots, r, repos[r].indexedRevision.value))
      && (repos[r].status == Deleted ==> forall s :: s in snapshots ==> snapshots[s].repo != r)
  }

  ghost predicate Inv(db: Db) {
    && RunsOk(db.runs, db.repos.Keys)
    && RepositoriesOk(db.repos, db.revisions)
    && SnapshotsOk(db.snapshots, db.repos.Keys)
    && Coupled(db.repos, db.snapshots)
  }

  // ----- Preservation, table by table -----

  lemma {:induction false} MaxOfNumbered(events: seq<Event>)
    requires Numbered(events)
    ensures MaxSequence(events) == |events|
  {
    if events != [] {
      MaxOfNumbered(events[..|events| - 1]);
    }
  }

  lemma {:induction false} FinishedRun(run: Run, status: RunStatus, labels: seq<EventType>)
    requires Numbered(run.events)
    ensures var after := Finished(run, status, labels);
            && after.repo == run.repo && after.kind == run.kind && after.status == status
            && Numbered(after.events) && run.events <= after.events
            && |after.events| == |run.events| + |labels|
            && forall i :: 0 <= i < |labels| ==> after.events[|run.events| + i].what == labels[i]
    decreases |labels|
  {
    if labels != [] {
      MaxOfNumbered(run.events);
      FinishedRun(run.(events := WithEvent(run.events, labels[0])), status, labels[1..]);
    }
  }

  lemma {:induction false} FinishingKeepsRuns(runs: map<Id, Run>, repos: set<Id>, run: Id, status: RunStatus,
                                              labels: seq<EventType>)
    requires RunsOk(runs, repos) && run in runs && status in {RunSucceeded, RunFailed}
    ensures RunsOk(runs[run := Finished(runs[run], status, labels)], repos)
  {
    FinishedRun(runs[run], status, labels);
  }

  lemma {:induction false} QueueingKeepsRuns(runs: map<Id, Run>, repos: set<Id>, run: Id, repo: Id, kind: RunKind)
    requires RunsOk(runs, repos) && run !in runs && repo in repos
    requires forall a :: a in runs ==> !IsActive(runs[a], repo, kind)
    ensures RunsOk(runs[run := Run(repo, kind, RunQueued, [Event(1, QueuedEvent)])], repos)
  {
  }

  lemma {:induction false} UpdatingKeepsRepositories(repos: map<Id, Repository>, revisions: map<RevisionKey, Status>,
                                                     r: Id, row: Repository)
    requires RepositoriesOk(repos, revisions) && r in repos
    requires row.owner == repos[r].owner && row.url == repos[r].url && Settled(row.status)
    requires row.status in {Deleting, Deleted} ==> row.deleted
    requires row.latestRevision.Some? ==> row.latestRevision.value in revisions && row.latestRevision.value.repo == r
    ensures RepositoriesOk(repos[r := row], revisions)
  {
  }

  lemma {:induction false} SettingRevisionKeepsRepositories(repos: map<Id, Repository>,
                                                            revisions: map<RevisionKey, Status>,
                                                            revision: RevisionKey, status: Status)
    requires RepositoriesOk(repos, revisions) && Settled(status)
    ensures RepositoriesOk(repos, revisions[revision := status])
  {
  }

  lemma {:induction false} UpdatingKeepsCoupling(repos: map<Id, Repository>, snapshots: map<Id, Snapshot>, r: Id,
                                                 row: Repository)
    requires Coupled(repos, snapshots) && r in repos
    requires !row.deleted && row.indexedRevision.Some? ==>
               || (!repos[r].deleted && row.indexedRevision == repos[r].indexedRevision)
               || HasReadySnapshot(snapshots, r, row.indexedRevision.value)
    requires row.status == Deleted ==> forall s :: s in snapshots ==> snapshots[s].repo != r
    ensures Coupled(repos[r := row], snapshots)
  {
    hide HasReadySnapshot;
  }

  lemma {:induction false} AddingKeepsSnapshots(snapshots: map<Id, Snapshot>, repos: set<Id>, s: Id, repo: Id,
                                                revision: RevisionKey)
    requires SnapshotsOk(snapshots, repos) && s !in snapshots && repo in repos
    requires RevisionSnapshots(snapshots, repo, revision) == {} && |ReadySnapshots(snapshots, repo)| <= 1
    ensures SnapshotsOk(snapshots[s := Snapshot(repo, revision, true, true)], repos)
  {
    AddingCounts(snapshots, repos, s, repo, revision);
    assert forall t :: t in snapshots && snapshots[t].repo == repo && snapshots[t].revision == revision ==>
                         t in RevisionSnapshots(snapshots, repo, revision);
    hide SnapshotsOf, RevisionSnapshots, ReadySnapshots;
  }

  lemma {:induction false} AddingCounts(snapshots: map<Id, Snapshot>, repos: set<Id>, s: Id, repo: Id,
                                        revision: RevisionKey)
    requires SnapshotsOk(snapshots, repos) && s !in snapshots && |ReadySnapshots(snapshots, repo)| <= 1
    ensures forall r :: r in repos ==> |SnapshotsOf(snapshots[s := Snapshot(repo, revision, true, true)], r)| <= 2
  {
    var after := snapshots[s := Snapshot(repo, revision, true, true)];
    assert SnapshotsOf(snapshots, repo) == ReadySnapshots(snapshots, repo);
    assert SnapshotsOf(after, repo) == SnapshotsOf(snapshots, repo) + {s};
    forall r | r in repos && r != repo ensures SnapshotsOf(after, r) == SnapshotsOf(snapshots, r) {
    }
  }

  lemma {:induction false} RemovingKeepsSnapshots(db: Db, repo: Id)
    requires SnapshotsOk(db.snapshots, db.repos.Keys)
    ensures SnapshotsOk(WithoutSnapshots(db, repo).snapshots, db.repos.Keys)
  {
    var after := WithoutSnapshots(db, repo).snapshots;
    assert SnapshotsOf(after, repo) == {};
    forall r | r in db.repos && r != repo ensures SnapshotsOf(after, r) == SnapshotsOf(db.snapshots, r) {
    }
  }

  /** With every snapshot ready and unique, the latest revision is already indexed or has no snapshot. */
  lemma {:induction false} IndexedOrNone(db: Db, repo: Id)
    requires SnapshotsOk(db.snapshots, db.repos.Keys) && repo in db.repos && db.repos[repo].latestRevision.Some?
    ensures AlreadyIndexed(db, repo)
         || RevisionSnapshots(db.snapshots, repo, db.repos[repo].latestRevision.value) == {}
  {
    var existing := RevisionSnapshots(db.snapshots, repo, db.repos[repo].latestRevision.value);
    if s :| s in existing {
      assert forall t :: t in existing ==> SameRevision(db.snapshots[s], db.snapshots[t]);
      assert existing == {s};
    }
  }

  lemma {:induction false} ApiCallKeepsInv(db: Db, op: Operation)
    requires Inv(db) && Enabled(db, op)
    requires op.Create? || op.Sync? || op.Delete? || op.RequestIndex?
    ensures Inv(Apply(db, op).db)
  {
    hide SnapshotsOk, RunsOk, HasReadySnapshot;
    var after := Apply(db, op).db;
    if after != db {
      match op
      case Create(owner, url, repo, run) =>
        assert after.repos.Keys == db.repos.Keys + {repo};
        CreatingKeepsInv(db, owner, url, repo, run);
      case Sync(owner, repo, run) =>
        QueueingKeepsRuns(db.runs, db.repos.Keys, run, repo, IngestionRun);
        UpdatingKeepsRepositories(db.repos, db.revisions, repo, after.repos[repo]);
        UpdatingKeepsCoupling(db.repos, db.snapshots, repo, after.repos[repo]);
        assert after.repos.Keys == db.repos.Keys;
      case Delete(owner, repo) =>
        UpdatingKeepsRepositories(db.repos, db.revisions, repo, after.repos[repo]);
        UpdatingKeepsCoupling(db.repos, db.snapshots, repo, after.repos[repo]);
        assert after.repos.Keys == db.repos.Keys;
      case RequestIndex(owner, repo, run) =>
        QueueingKeepsRuns(db.runs, db.repos.Keys, run, repo, IndexingRun);
    }
  }

  lemma {:induction false} CreatingKeepsInv(db: Db, owner: Id, url: string, repo: Id, run: Id)
    requires Inv(db) && repo !in db.repos && run !in db.runs && !UrlTaken(db, owner, url)
    ensures var after := Creates(db, owner, url, repo, run).db;
            && RunsOk(after.runs, db.repos.Keys + {repo})
            && RepositoriesOk(after.repos, after.revisions)
            && SnapshotsOk(after.snapshots, db.repos.Keys + {repo})
            && Coupled(after.repos, after.snapshots)
  {
    var all, row := db.repos.Keys + {repo}, Repository(owner, url, Queued, false, None, None);
    RunsOkGrows(db.runs, db.repos.Keys, repo);
    SnapshotsOkGrows(db.snapshots, db.repos.Keys, repo);
    hide RunsOk, SnapshotsOk, HasReadySnapshot;
    assert forall a :: a in db.runs ==> !IsActive(db.runs[a], repo, IngestionRun) by { NoRunsYet(db, repo); }
    QueueingKeepsRuns(db.runs, all, run, repo, IngestionRun);
    InsertingKeepsRepositories(db.repos, db.revisions, repo, row);
    InsertingKeepsCoupling(db.repos, db.snapshots, repo, row);
    hide RepositoriesOk, Coupled;
  }

  lemma {:induction false} RunsOkGrows(runs: map<Id, Run>, repos: set<Id>, repo: Id)
    requires RunsOk(runs, repos)
    ensures RunsOk(runs, repos + {repo})
  {
    hide Numbered, OneActiveRun;
  }

  lemma {:induction false} SnapshotsOkGrows(snapshots: map<Id, Snapshot>, repos: set<Id>, repo: Id)
    requires SnapshotsOk(snapshots, repos) && repo !in repos
    ensures SnapshotsOk(snapshots, repos + {repo})
  {
    assert SnapshotsOf(snapshots, repo) == {};
  }

  lemma {:induction false} NoRunsYet(db: Db, repo: Id)
    requires RunsOk(db.runs, db.repos.Keys) && repo !in db.repos
    ensures forall a :: a in db.runs ==> !IsActive(db.runs[a], repo, IngestionRun)
  {
    hide Numbered, OneActiveRun;
  }

  lemma {:induction false} InsertingKeepsCoupling(repos: map<Id, Repository>, snapshots: map<Id, Snapshot>, r: Id,
                                                  row: Repository)
    requires Coupled(repos, snapshots) && r !in repos && row.indexedRevision.None? && row.status == Queued
    ensures Coupled(repos[r := row], snapshots)
  {
    hide HasReadySnapshot;
  }

  lemma {:induction false} InsertingKeepsRepositories(repos: map<Id, Repository>, revisions: map<RevisionKey, Status>,
                                                      r: Id, row: Repository)
    requires RepositoriesOk(repos, revisions) && r !in repos
    requires row.status == Queued && row.latestRevision.None?
    requires forall q :: q in repos ==> !(repos[q].owner == row.owner && repos[q].url == row.url)
    ensures RepositoriesOk(repos[r := row], revisions)
  {
  }

  lemma {:induction false} IngestKeepsInv(db: Db, run: Id, scan: Scan)
    requires Inv(db) && Enabled(db, Ingest(run, scan))
    ensures Inv(Ingests(db, run, scan).db)
  {
    hide Finished, SnapshotsOk, RunsOk, HasReadySnapshot;
    var after := Ingests(db, run, scan).db;
    if after != db {
      var r := db.runs[run].repo;
      match scan {
        case CloneFails =>
          FinishingKeepsRuns(db.runs, db.repos.Keys, run, RunFailed, [StartedEvent, FailedEvent]);
        case ScanFails(commit) =>
          FinishingKeepsRuns(db.runs, db.repos.Keys, run, RunFailed, [StartedEvent, ClonedEvent, FailedEvent]);
          SettingRevisionKeepsRepositories(db.repos, db.revisions, RevisionKey(r, commit), Failed);
        case Scans(commit) =>
          FinishingKeepsRuns(db.runs, db.repos.Keys, run, RunSucceeded, [StartedEvent, ClonedEvent, CompletedEvent]);
          SettingRevisionKeepsRepositories(db.repos, db.revisions, RevisionKey(r, commit), ReadyForIndexing);
      }
      UpdatingKeepsRepositories(db.repos, after.revisions, r, after.repos[r]);
      if scan.Scans? {
        DroppingChunksKeepsSnapshots(db.snapshots, db.repos.Keys, RevisionKey(r, scan.commit));
        DroppingChunksKeepsCoupling(db.repos, db.snapshots, RevisionKey(r, scan.commit));
      }
      hide WithoutChunks;
      UpdatingKeepsCoupling(db.repos, after.snapshots, r, after.repos[r]);
      assert after.repos.Keys == db.repos.Keys;
    }
  }

  lemma {:induction false} DroppingChunksKeepsSnapshots(snapshots: map<Id, Snapshot>, repos: set<Id>,
                                                        revision: RevisionKey)
    requires SnapshotsOk(snapshots, repos)
    ensures SnapshotsOk(WithoutChunks(snapshots, revision), repos)
  {
    var after := WithoutChunks(snapshots, revision);
    DroppingChunksKeepsRows(snapshots, revision);
    hide WithoutChunks, SnapshotsOf;
    assert forall s, t :: s in after && t in after && SameRevision(after[s], after[t]) ==>
                            SameRevision(snapshots[s], snapshots[t]);
  }

  /** Dropping chunks touches no snapshot row. */
  lemma {:induction false} DroppingChunksKeepsRows(snapshots: map<Id, Snapshot>, revision: RevisionKey)
    ensures var after := WithoutChunks(snapshots, revision);
            && after.Keys == snapshots.Keys
            && (forall s :: s in after ==> after[s] == snapshots[s].(intact := after[s].intact))
            && (forall r :: SnapshotsOf(after, r) == SnapshotsOf(snapshots, r))
  {
    forall r ensures SnapshotsOf(WithoutChunks(snapshots, revision), r) == SnapshotsOf(snapshots, r) {
    }
  }

  lemma {:induction false} DroppingChunksKeepsCoupling(repos: map<Id, Repository>, snapshots: map<Id, Snapshot>,
                                                       revision: RevisionKey)
    requires Coupled(repos, snapshots)
    ensures Coupled(repos, WithoutChunks(snapshots, revision))
  {
    var after := WithoutChunks(snapshots, revision);
    forall q | q in repos && !repos[q].deleted && repos[q].indexedRevision.Some?
      ensures HasReadySnapshot(after, q, repos[q].indexedRevision.value)
    {
      var s :| s in snapshots && IsReadyFor(snapshots[s], q, repos[q].indexedRevision.value);
      assert IsReadyFor(after[s], q, repos[q].indexedRevision.value);
    }
  }

  lemma {:induction false} IndexKeepsInv(db: Db, run: Id, snapshot: Id)
    requires Inv(db) && Enabled(db, Index(run, snapshot))
    ensures Inv(Indexes(db, run, snapshot).db)
  {
    hide Finished, SnapshotsOk, RunsOk, HasReadySnapshot;
    var after := Indexes(db, run, snapshot).db;
    if after != db {
      var r := db.runs[run].repo;
      var revision := db.repos[r].latestRevision.value;
      assert r in db.repos;
      SettingRevisionKeepsRepositories(db.repos, db.revisions, revision, Ready);
      UpdatingKeepsRepositories(db.repos, after.revisions, r, after.repos[r]);
      assert after.repos.Keys == db.repos.Keys;
      if AlreadyIndexed(db, r) {
        FinishingKeepsRuns(db.runs, db.repos.Keys, run, RunSucceeded, [StartedEvent]);
        IndexedHasSnapshot(db, r);
        UpdatingKeepsCoupling(db.repos, db.snapshots, r, after.repos[r]);
      } else {
        FinishingKeepsRuns(db.runs, db.repos.Keys, run, RunSucceeded, [StartedEvent, CompletedEvent]);
        IndexedOrNone(db, r);
        AddingKeepsSnapshots(db.snapshots, db.repos.Keys, snapshot, r, revision);
        AddingKeepsCoupling(db, after, r, snapshot);
      }
    }
  }

  lemma {:induction false} IndexedHasSnapshot(db: Db, repo: Id)
    requires repo in db.repos && AlreadyIndexed(db, repo)
    ensures HasReadySnapshot(db.snapshots, repo, db.repos[repo].latestRevision.value)
  {
    var revision := db.repos[repo].latestRevision.value;
    var s :| s in RevisionSnapshots(db.snapshots, repo, revision) && db.snapshots[s].ready;
    assert IsReadyFor(db.snapshots[s], repo, revision);
  }

  lemma {:induction false} AddingKeepsCoupling(db: Db, after: Db, r: Id, snapshot: Id)
    requires Coupled(db.repos, db.snapshots) && r in db.repos && snapshot !in db.snapshots
             && snapshot in after.snapshots
    requires after.snapshots == db.snapshots[snapshot := after.snapshots[snapshot]]
    requires r in after.repos && after.repos == db.repos[r := after.repos[r]]
    requires after.repos[r].status == Ready
             && after.repos[r].indexedRevision == Some(after.snapshots[snapshot].revision)
    requires after.snapshots[snapshot].repo == r && after.snapshots[snapshot].ready
    ensures Coupled(after.repos, after.snapshots)
  {
    forall q | q in after.repos && q != r && !after.repos[q].deleted && after.repos[q].indexedRevision.Some?
      ensures HasReadySnapshot(after.snapshots, q, after.repos[q].indexedRevision.value)
    {
      var s :| s in db.snapshots && IsReadyFor(db.snapshots[s], q, db.repos[q].indexedRevision.value);
      assert after.snapshots[s] == db.snapshots[s];
    }
    assert IsReadyFor(after.snapshots[snapshot], r, after.repos[r].indexedRevision.value);
  }

  lemma {:induction false} CleanupKeepsInv(db: Db, repo: Id)
    requires Inv(db) && Enabled(db, Cleanup(repo))
    ensures Inv(Cleans(db, repo).db)
  {
    hide RunsOk, SnapshotsOk, Coupled;
    assert db.repos[repo].deleted;
    var after := Cleans(db, repo).db;
    RemovingKeepsSnapshots(db, repo);
    assert after.snapshots == WithoutSnapshots(db, repo).snapshots && after.repos.Keys == db.repos.Keys;
    UpdatingKeepsRepositories(db.repos, db.revisions, repo, after.repos[repo]);
    assert after.repos == db.repos[repo := after.repos[repo]];
    RemovingKeepsCoupling(db.repos, db.snapshots, after.snapshots, repo);
    assert forall s :: s in after.snapshots ==> after.snapshots[s].repo != repo;
    UpdatingKeepsCoupling(db.repos, after.snapshots, repo, after.repos[repo]);
  }

  lemma {:induction false} RemovingKeepsCoupling(repos: map<Id, Repository>, before: map<Id, Snapshot>,
                                                 after: map<Id, Snapshot>, repo: Id)
    requires Coupled(repos, before) && repo in repos && repos[repo].deleted
    requires after == map s | s in before && before[s].repo != repo :: before[s]
    ensures Coupled(repos, after)
  {
    forall q | q in repos && !repos[q].deleted && repos[q].indexedRevision.Some?
      ensures HasReadySnapshot(after, q, repos[q].indexedRevision.value)
    {
      var s :| s in before && IsReadyFor(before[s], q, repos[q].indexedRevision.value);
      assert after[s] == before[s];
    }
  }

  lemma {:induction false} StepKeepsInv(db: Db, step: Step)
    requires Inv(db) && Enabled(db, step.op)
    ensures Inv(Next(db, step).db)
  {
    hide Inv;
    match step.op
    case Ingest(run, scan) => IngestKeepsInv(db, run, scan);
    case Index(run, snapshot) => IndexKeepsInv(db, run, snapshot);
    case Cleanup(repo) => CleanupKeepsInv(db, repo);
    case _ => ApiCallKeepsInv(db, step.op);
  }

  /** Over every run, every committed state satisfies all of the clauses above. */
  lemma {:induction false} CommittedStatesAreSound(dbs: seq<Db>, steps: seq<Step>, k: nat)
    requires IsRun(dbs, steps) && k < |dbs|
    ensures Inv(dbs[k])
  {
    if k > 0 {
      CommittedStatesAreSound(dbs, steps, k - 1);
      StepKeepsInv(dbs[k - 1], steps[k - 1]);
    }
  }
}
