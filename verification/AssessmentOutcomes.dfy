/**
What a caller of the assessment service gets, written out against the request: when each operation
succeeds, and what it stores. Nothing here is said through the operations' own helper functions.
*/
module AssessmentOutcomes {
  import opened Prelude
  import opened IsoTimestamp
  import opened Assessments
  import opened AssessmentStore
  import opened ScanLifecycle
  import opened Plans
  import opened AssessmentOperations
  import opened AssessmentRuns
  import opened AssessmentQuotas
  import opened AssessmentAudit

  // ----- queueing a scan job

  /** `i` is the first repository with the id. */
  ghost predicate FirstWithId(repositories: seq<Repository>, id: Id, i: nat) {
    i < |repositories| && repositories[i].id == id && forall k :: 0 <= k < i ==> repositories[k].id != id
  }

  lemma {:induction false} RepositoryIndexMeans(repositories: seq<Repository>, id: Id, i: nat)
    ensures RepositoryIndex(repositories, id) == Some(i) <==> FirstWithId(repositories, id, i)
    ensures RepositoryIndex(repositories, id).None?
            <==> forall k :: 0 <= k < |repositories| ==> repositories[k].id != id
  {
    if repositories != [] && repositories[0].id != id {
      RepositoryIndexMeans(repositories[1..], id, if i > 0 then i - 1 else 0);
      if i > 0 {
        assert forall k :: 1 <= k < |repositories| ==> repositories[k] == repositories[1..][k - 1];
      }
    }
  }

  /** A ready repository's clone can be scanned. */
  predicate CanBeScanned(source: Repository) {
    source.status == Ready && source.localPath.Some? && source.localPath.value != ""
  }

  /** The target asked for is `target`: the one given, or the clone of the repository named. */
  ghost predicate Targets(r: Record, request: JobRequest, target: Option<string>) {
    match request.repositoryId
    case None => target == request.target
    case Some(id) =>
      exists i: nat ::
        FirstWithId(r.repositories, id, i) && CanBeScanned(r.repositories[i]) && target == r.repositories[i].localPath
  }

  lemma TargetMeans(r: Record, request: JobRequest, target: Option<string>)
    ensures TargetOf(r, request) == Ok(target) <==> Targets(r, request, target)
  {
    if request.repositoryId.Some? {
      var id := request.repositoryId.value;
      forall i: nat ensures RepositoryIndex(r.repositories, id) == Some(i) <==> FirstWithId(r.repositories, id, i) {
        RepositoryIndexMeans(r.repositories, id, i);
      }
      if TargetOf(r, request).Ok? {
        assert FirstWithId(r.repositories, id, RepositoryIndex(r.repositories, id).value);
      }
    }
  }

  /** Who confirmed: the caller, if named. */
  function Confirmer(confirmedBy: Option<string>): string {
    if confirmedBy.Some? && confirmedBy.value != "" then confirmedBy.value else "unknown"
  }

  /** The job a request asks for, field by field. */
  ghost predicate IsRequested(j: ScanJob, r: Record, request: JobRequest, id: Id, confirmedBy: Option<string>,
                              now: Timestamp) {
    && j.id == id && j.agent == request.agent && Targets(r, request, j.target) && j.webhookUrl == request.webhookUrl
    && j.status == Pending && j.startedAt == None && j.completedAt == None && j.errorMessage == None
    && j.createdAt == now
    && j.confirmed == request.confirmed
    && j.authorizedBy == (if request.confirmed then Some(Confirmer(confirmedBy)) else None)
    && j.authorizedAt == (if request.confirmed then Some(now) else None)
  }

  /** The consent a confirmed request leaves, field by field. */
  ghost predicate IsConsent(e: AuditEntry, r: Record, request: JobRequest, organization: Id, assessment: Id, job: Id,
                            confirmedBy: Option<string>, now: Timestamp) {
    && e.organization == organization && e.assessment == assessment && e.job == job && e.agent == request.agent
    && e.confirmedBy == Confirmer(confirmedBy) && e.confirmedAt == now
    && exists target :: Targets(r, request, target) && e.target == if target.Some? then target.value else ""
  }

  /** A successful request appends the job it asks for, starts analysis of a new or completed
      assessment, and leaves a consent if and only if it was confirmed. */
  lemma QueuedJobIsWhatWasAskedFor(db: Database, assessment: Id, organization: Id, request: JobRequest, job: Id,
                                   confirmedBy: Option<string>, now: Timestamp, db': Database)
    requires assessment in db.rows && RowAgrees(assessment, db.rows[assessment])
    requires CreateJob(db, assessment, Some(organization), request, job, confirmedBy, now) == Ok(db')
    ensures db'.plans == db.plans && db'.rows.Keys == db.rows.Keys
    ensures forall id :: id in db.rows && id != assessment ==> db'.rows[id] == db.rows[id]
    ensures var r, r' := db.rows[assessment].payload, db'.rows[assessment].payload;
            && |r'.jobs| == |r.jobs| + 1 && r'.jobs[..|r.jobs|] == r.jobs
            && IsRequested(r'.jobs[|r.jobs|], r, request, job, confirmedBy, now)
            && r' == r.(jobs := r'.jobs, updatedAt := now, status := r'.status)
            && r'.status == if r.status in {Created, AllCompleted} then Analyzing else r.status
    ensures if request.confirmed
            then |db'.audit| == |db.audit| + 1 && db'.audit[..|db.audit|] == db.audit
                 && IsConsent(db'.audit[|db.audit|], db.rows[assessment].payload, request, organization, assessment,
                              job, confirmedBy, now)
            else db'.audit == db.audit
  {
    QueuedRecord(db, assessment, organization, request, job, confirmedBy, now, db');
    QueuedConsent(db, assessment, organization, request, job, confirmedBy, now, db');
  }

  lemma QueuedRecord(db: Database, assessment: Id, organization: Id, request: JobRequest, job: Id,
                     confirmedBy: Option<string>, now: Timestamp, db': Database)
    requires assessment in db.rows && RowAgrees(assessment, db.rows[assessment])
    requires CreateJob(db, assessment, Some(organization), request, job, confirmedBy, now) == Ok(db')
    ensures db'.plans == db.plans && db'.rows.Keys == db.rows.Keys
    ensures forall id :: id in db.rows && id != assessment ==> db'.rows[id] == db.rows[id]
    ensures var r, r' := db.rows[assessment].payload, db'.rows[assessment].payload;
            && |r'.jobs| == |r.jobs| + 1 && r'.jobs[..|r.jobs|] == r.jobs
            && IsRequested(r'.jobs[|r.jobs|], r, request, job, confirmedBy, now)
            && r' == r.(jobs := r'.jobs, updatedAt := now, status := r'.status)
            && r'.status == if r.status in {Created, AllCompleted} then Analyzing else r.status
  {
    var r := db.rows[assessment].payload;
    var target := TargetOf(r, request).value;
    TargetMeans(r, request, target);
    assert db'.rows[assessment].payload.jobs == r.jobs + [PendingJob(request, target, job, confirmedBy, now)];
  }

  lemma QueuedConsent(db: Database, assessment: Id, organization: Id, request: JobRequest, job: Id,
                      confirmedBy: Option<string>, now: Timestamp, db': Database)
    requires assessment in db.rows && RowAgrees(assessment, db.rows[assessment])
    requires CreateJob(db, assessment, Some(organization), request, job, confirmedBy, now) == Ok(db')
    ensures if request.confirmed
            then |db'.audit| == |db.audit| + 1 && db'.audit[..|db.audit|] == db.audit
                 && IsConsent(db'.audit[|db.audit|], db.rows[assessment].payload, request, organization, assessment,
                              job, confirmedBy, now)
            else db'.audit == db.audit
  {
    var r := db.rows[assessment].payload;
    TargetMeans(r, request, TargetOf(r, request).value);
  }

  /** Who asks may add another: the nil organisation always, others as their plan says. */
  ghost predicate HasRoom(db: Database, organization: Id, used: nat, free: nat, pro: nat) {
    organization == Id("00000000-0000-0000-0000-000000000000")
    || match if organization in db.plans then db.plans[organization] else Free
       case Free => used < free
       case Pro => used < pro
       case Enterprise => true
  }

  /** The scan jobs of the organisation's assessments, by assessment and position. */
  ghost function JobsOf(db: Database, organization: Id): set<(Id, nat)> {
    set id, i: nat | id in db.rows && db.rows[id].organization == organization && i < |db.rows[id].payload.jobs|
      :: (id, i)
  }

  ghost function AssessmentsOf(db: Database, organization: Id): set<Id> {
    set id | id in db.rows && db.rows[id].organization == organization
  }

  lemma RoomForJobMeans(db: Database, organization: Id)
    ensures ScanJobLimitReached(db, organization) <==> !HasRoom(db, organization, |JobsOf(db, organization)|, 20, 1000)
  {
    JobsUsedAreHeld(db, organization);
    assert Slots(db.rows, Selected(db.rows, Some(organization))) == JobsOf(db, organization);
  }

  /** A request is refused for want of room, for an assessment that is missing or another
      organisation's, or for a repository that is missing or not ready, in this order; otherwise it
      succeeds. An Enterprise organisation always has room. */
  lemma JobRequestIsAnswered(db: Database, assessment: Id, organization: Id, request: JobRequest, job: Id,
                             confirmedBy: Option<string>, now: Timestamp)
    ensures var answer := CreateJob(db, assessment, Some(organization), request, job, confirmedBy, now);
            if !HasRoom(db, organization, |JobsOf(db, organization)|, 20, 1000) then answer == Err(LimitExceeded)
            else if assessment !in db.rows || db.rows[assessment].payload.organization != organization
            then answer == Err(NotFound(assessment))
            else TargetIsAnswered(db.rows[assessment].payload, request, answer)
  {
    RoomForJobMeans(db, organization);
    if assessment in db.rows {
      TargetAnswer(db.rows[assessment].payload, request);
    }
  }

  ghost predicate TargetIsAnswered<T>(r: Record, request: JobRequest, answer: Result<T, Error>) {
    match request.repositoryId
    case None => answer.Ok?
    case Some(id) =>
      if forall i: nat :: !FirstWithId(r.repositories, id, i) then answer == Err(NotFound(id))
      else if forall target :: !Targets(r, request, target) then answer == Err(NotReady(id))
      else answer.Ok?
  }

  lemma TargetAnswer(r: Record, request: JobRequest)
    ensures TargetIsAnswered(r, request, TargetOf(r, request))
  {
    if request.repositoryId.Some? {
      var id := request.repositoryId.value;
      forall i: nat ensures RepositoryIndex(r.repositories, id) == Some(i) <==> FirstWithId(r.repositories, id, i) {
        RepositoryIndexMeans(r.repositories, id, i);
      }
      forall target ensures TargetOf(r, request) == Ok(target) <==> Targets(r, request, target) {
        TargetMeans(r, request, target);
      }
      if RepositoryIndex(r.repositories, id).Some? {
        assert FirstWithId(r.repositories, id, RepositoryIndex(r.repositories, id).value);
      }
      if TargetOf(r, request).Ok? {
        assert Targets(r, request, TargetOf(r, request).value);
      }
    }
  }

  /** An assessment is created exactly when the organisation has room for it. */
  lemma AssessmentRequestIsAnswered(db: Database, id: Id, name: string, organization: Id, now: Timestamp)
    ensures CreateAssessment(db, id, name, organization, now)
         == if HasRoom(db, organization, |AssessmentsOf(db, organization)|, 3, 50)
            then Ok(db.(rows := Saved(db.rows, Record(id, name, Created, organization, [], [], [], now, now))))
            else Err(LimitExceeded)
  {
    assert Selected(db.rows, Some(organization)) == AssessmentsOf(db, organization);
  }

  /** A synchronous Trivy scan appends a running, unconfirmed Trivy job on the given target. */
  lemma TrivyJobIsWhatWasAskedFor(db: Database, assessment: Id, organization: Id, target: string,
                                  webhookUrl: Option<string>, job: Id, now: Timestamp, db': Database, f: Flight)
    requires assessment in db.rows && RowAgrees(assessment, db.rows[assessment])
    requires BeginTrivy(db, assessment, Some(organization), target, webhookUrl, job, now) == Ok((db', f))
    ensures var r, r' := db.rows[assessment].payload, db'.rows[assessment].payload;
            && |r'.jobs| == |r.jobs| + 1 && r'.jobs[..|r.jobs|] == r.jobs && r'.status == r.status
            && var j := r'.jobs[|r.jobs|];
               && j.id == job && j.agent == Trivy && j.target == Some(target) && j.webhookUrl == webhookUrl
               && j.status == Running && !j.confirmed && j.authorizedBy == None && j.authorizedAt == None
               && j.startedAt == None && j.completedAt == None && j.errorMessage == None && j.createdAt == now
    ensures db'.audit == db.audit && db'.plans == db.plans
  {
  }

  // ----- running a scan job

  /** `i` is the first job with the id. */
  ghost predicate FirstJob(jobs: seq<ScanJob>, id: Id, i: nat) {
    i < |jobs| && jobs[i].id == id && forall k :: 0 <= k < i ==> jobs[k].id != id
  }

  lemma {:induction false} JobIndexMeans(jobs: seq<ScanJob>, id: Id, i: nat)
    ensures JobIndex(jobs, id) == Some(i) <==> FirstJob(jobs, id, i)
  {
    if jobs != [] && jobs[0].id != id {
      JobIndexMeans(jobs[1..], id, if i > 0 then i - 1 else 0);
      if i > 0 {
        assert forall k :: 1 <= k < |jobs| ==> jobs[k] == jobs[1..][k - 1];
      }
    }
  }

  /** What running a job changes in it: when it began and ended, and how. */
  ghost predicate WasRun(j: ScanJob, j': ScanJob, result: AgentResult, began: Timestamp, ended: Timestamp) {
    && j' == j.(status := j'.status, startedAt := Some(began), completedAt := Some(ended),
                errorMessage := j'.errorMessage)
    && match result
       case Found(_) => j'.status == Completed && j'.errorMessage == j.errorMessage
       case Raised(message) => j'.status == Failed && j'.errorMessage == Some(message)
  }

  /** Running a scan job: it is stored as running with its start, then as completed or failed with its
      end; a completed one adds its findings at the end, and nothing else changes but the status. */
  lemma ScanOutcome(db: Database, assessment: Id, job: Id, began: Timestamp, begun: Database, f: Flight,
                    result: AgentResult, ended: Timestamp) returns (i: nat)
    requires assessment in db.rows && RowAgrees(assessment, db.rows[assessment])
    requires BeginJob(db, assessment, job, began) == Ok((begun, f))
    ensures FlightFits(f) && f.Scanning? && FirstJob(db.rows[assessment].payload.jobs, job, i)
    ensures var r := db.rows[assessment].payload;
            begun == db.(rows := begun.rows)
            && begun.rows == db.rows[assessment := begun.rows[assessment]]
            && begun.rows[assessment].payload
               == r.(jobs := r.jobs[i := r.jobs[i].(status := Running, startedAt := Some(began))], updatedAt := began)
    ensures var r, db' := db.rows[assessment].payload, FinishJob(begun, f, result, ended);
            && db' == db.(rows := db'.rows) && db'.rows == db.rows[assessment := db'.rows[assessment]]
            && var r' := db'.rows[assessment].payload;
               && |r'.jobs| == |r.jobs| && WasRun(r.jobs[i], r'.jobs[i], result, began, ended)
               && (forall k :: 0 <= k < |r.jobs| && k != i ==> r'.jobs[k] == r.jobs[k])
               && r'.findings == r.findings + (match result case Found(more) => more case Raised(_) => [])
               && r' == r.(jobs := r'.jobs, findings := r'.findings, status := r'.status, updatedAt := ended)
               && r'.status == Reconciled(r'.jobs)
  {
    i := JobIndex(db.rows[assessment].payload.jobs, job).value;
    JobIndexMeans(db.rows[assessment].payload.jobs, job, i);
  }

  // ----- repositories

  /** Deleting a repository takes out the first with the id and keeps the others in order. */
  lemma DeletedRepositoryIsGone(db: Database, assessment: Id, repository: Id, organization: Id, now: Timestamp,
                                db': Database) returns (i: nat)
    requires assessment in db.rows && RowAgrees(assessment, db.rows[assessment])
    requires DeleteRepository(db, assessment, repository, Some(organization), now) == Ok(db')
    ensures db' == db.(rows := db'.rows) && db'.rows == db.rows[assessment := db'.rows[assessment]]
    ensures var r, r' := db.rows[assessment].payload, db'.rows[assessment].payload;
            && FirstWithId(r.repositories, repository, i)
            && r' == r.(repositories := r.repositories[..i] + r.repositories[i + 1..], updatedAt := now)
  {
    i := RepositoryIndex(db.rows[assessment].payload.repositories, repository).value;
    RepositoryIndexMeans(db.rows[assessment].payload.repositories, repository, i);
  }

  // ----- cloning a repository

  /** What a clone leaves in the repository, field by field. */
  lemma CloneOutcome(source: Repository, cloned: CloneResult)
    ensures var after := Ingested(source, cloned);
            match cloned
            case ClonedTo(path, commit) =>
              && after.status == Ready && after.localPath == Some(path) && after.commitHash == Some(commit)
              && after.errorMessage == None && SameOrigin(source, after)
            case CloneFailed(message) =>
              && after.status == IngestFailed && after.localPath == source.localPath
              && after.commitHash == source.commitHash && after.errorMessage == Some(message)
              && SameOrigin(source, after)
            case CloneCrashed => after == source
  {
  }

  predicate SameOrigin(a: Repository, b: Repository) {
    b.id == a.id && b.name == a.name && b.url == a.url && b.branch == a.branch
  }

  /** After a clone, a job that names the repository scans the clone's path; after a clone that failed
      or crashed it is refused. */
  lemma CloneDecidesJobs(db: Database, assessment: Id, repository: Id, begun: Database, f: Flight, cloned: CloneResult,
                         cloneTime: Timestamp, request: JobRequest, job: Id, confirmedBy: Option<string>,
                         now: Timestamp, organization: Id, startTime: Timestamp)
    requires assessment in db.rows && RowAgrees(assessment, db.rows[assessment])
    requires BeginIngest(db, assessment, repository, startTime) == Ok((begun, f))
    requires request.repositoryId == Some(repository) && db.rows[assessment].payload.organization == organization
    ensures FlightFits(f) && f.Ingesting?
    ensures var finished := FinishIngest(begun, f, cloned, cloneTime);
            var answer := CreateJob(finished, assessment, Some(organization), request, job, confirmedBy, now);
            HasRoom(finished, organization, |JobsOf(finished, organization)|, 20, 1000) ==>
              if cloned.ClonedTo? && cloned.path != ""
              then answer.Ok? && assessment in answer.value.rows
                   && var jobs := answer.value.rows[assessment].payload.jobs;
                      jobs != [] && jobs[|jobs| - 1].id == job && jobs[|jobs| - 1].target == Some(cloned.path)
              else answer == Err(NotReady(repository))
  {
    ClonedRow(db, assessment, repository, begun, f, cloned, cloneTime, startTime);
    JobOnRepository(FinishIngest(begun, f, cloned, cloneTime), assessment, organization, request, repository, job,
                    confirmedBy, now);
  }

  lemma JobOnRepository(db: Database, assessment: Id, organization: Id, request: JobRequest, repository: Id, job: Id,
                        confirmedBy: Option<string>, now: Timestamp)
    requires assessment in db.rows && RowAgrees(assessment, db.rows[assessment])
    requires db.rows[assessment].payload.organization == organization && request.repositoryId == Some(repository)
    requires RepositoryIndex(db.rows[assessment].payload.repositories, repository).Some?
    ensures var repositories := db.rows[assessment].payload.repositories;
            var source := repositories[RepositoryIndex(repositories, repository).value];
            var answer := CreateJob(db, assessment, Some(organization), request, job, confirmedBy, now);
            HasRoom(db, organization, |JobsOf(db, organization)|, 20, 1000) ==>
              if CanBeScanned(source)
              then answer.Ok? && assessment in answer.value.rows
                   && var jobs := answer.value.rows[assessment].payload.jobs;
                      jobs != [] && jobs[|jobs| - 1].id == job && jobs[|jobs| - 1].target == source.localPath
              else answer == Err(NotReady(source.id))
  {
    RoomForJobMeans(db, organization);
  }

  lemma ClonedRow(db: Database, assessment: Id, repository: Id, begun: Database, f: Flight, cloned: CloneResult,
                  cloneTime: Timestamp, startTime: Timestamp)
    requires assessment in db.rows && RowAgrees(assessment, db.rows[assessment])
    requires BeginIngest(db, assessment, repository, startTime) == Ok((begun, f))
    ensures FlightFits(f) && f.Ingesting?
    ensures var rows := FinishIngest(begun, f, cloned, cloneTime).rows;
            && assessment in rows && RowAgrees(assessment, rows[assessment])
            && rows[assessment].payload.organization == db.rows[assessment].payload.organization
            && var repositories := rows[assessment].payload.repositories;
               RepositoryIndex(repositories, repository).Some?
               && var source := repositories[RepositoryIndex(repositories, repository).value];
                  if cloned.ClonedTo? then source.status == Ready && source.localPath == Some(cloned.path)
                  else source.status != Ready && source.id == repository
  {
    var before := db.rows[assessment].payload.repositories;
    var i := RepositoryIndex(before, repository).value;
    var after := FinishIngest(begun, f, cloned, cloneTime).rows[assessment].payload.repositories;
    RepositoryIndexMeans(before, repository, i);
    assert |after| == |before| && FirstWithId(after, repository, i);
    RepositoryIndexMeans(after, repository, i);
  }

  // ----- over runs

  /** Step `n` of the run is the confirmed request that left the entry. */
  ghost predicate ConsentOf(ops: seq<Operation>, n: nat, e: AuditEntry)
    requires n < |ops|
  {
    var st, op := Run(INITIAL, ops[..n]), ops[n];
    && op.DoCreateJob? && op.request.confirmed && op.id in st.db.rows
    && IsConsent(e, RecordOf(st, op.id), op.request, op.organization, op.id, op.job, op.confirmedBy, op.now)
  }

  lemma NewConsentIsAskedFor(st: State, op: Operation, k: nat)
    requires Sound(st) && |st.db.audit| <= k < |Step(st, op).db.audit|
    ensures op.DoCreateJob? && op.request.confirmed && op.id in st.db.rows
    ensures IsConsent(Step(st, op).db.audit[k], RecordOf(st, op.id), op.request, op.organization, op.id, op.job,
                      op.confirmedBy, op.now)
  {
    if !op.DoCreateJob? {
      OthersLeaveAudit(st, op);
    }
    var queued := CreateJob(st.db, op.id, Some(op.organization), op.request, op.job, op.confirmedBy, op.now);
    FoundForItsOrganization(st, op.id, op.organization);
    assert RowIsSound(st, op.id);
    QueuedJobIsWhatWasAskedFor(st.db, op.id, op.organization, op.request, op.job, op.confirmedBy, op.now, queued.value);
  }

  /** Every consent entry of a serial run was left by a confirmed request of the run: it names that
      request's confirmer, organisation, assessment, agent, target and time. */
  lemma {:induction false} ConsentsAreAskedFor(ops: seq<Operation>, k: nat) returns (n: nat)
    requires k < |Run(INITIAL, ops).db.audit|
    ensures n < |ops| && ConsentOf(ops, n, Run(INITIAL, ops).db.audit[k])
  {
    var last := |ops| - 1;
    var init := ops[..last];
    var st := Run(INITIAL, init);
    RunsAreSound(init);
    ConsentsMatchJobs(init);
    StepKeepsAudit(st, ops[last]);
    if k < |st.db.audit| {
      n := ConsentsAreAskedFor(init, k);
      assert init[..n] == ops[..n];
    } else {
      NewConsentIsAskedFor(st, ops[last], k);
      n := last;
    }
  }
}
