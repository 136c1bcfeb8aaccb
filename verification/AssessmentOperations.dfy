/**
The assessment service's operations as functions of the database: what each reads, when it
refuses, and what it writes. An operation that runs an agent or a clone writes twice, and between
the two writes it holds its copy of the record.
*/
module AssessmentOperations {
  import opened Prelude
  import opened IsoTimestamp
  import opened Assessments
  import opened AssessmentStore
  import opened ScanLifecycle
  import opened Plans

  /** One consent to active scanning. */
  datatype AuditEntry = AuditEntry(
    organization: Id, assessment: Id, job: Id, agent: AgentType,
    target: string, confirmedBy: string, confirmedAt: Timestamp)

  datatype Database = Database(rows: Table, plans: map<Id, Plan>, audit: seq<AuditEntry>)

  datatype Error = NotFound(id: Id) | LimitExceeded | NotReady(id: Id) | CloneRaised

  datatype JobRequest = JobRequest(
    agent: AgentType, target: Option<string>, repositoryId: Option<Id>, webhookUrl: Option<string>, confirmed: bool)

  datatype CloneResult = ClonedTo(path: string, commit: string) | CloneFailed(message: string) | CloneCrashed

  // ----- quotas

  function PlanOf(db: Database, organization: Id): Plan {
    if organization in db.plans then db.plans[organization] else Free
  }

  function SumJobs(assessments: seq<Record>): nat {
    if assessments == [] then 0
    else SumJobs(assessments[..|assessments| - 1]) + |assessments[|assessments| - 1].jobs|
  }

  function AssessmentsUsed(db: Database, organization: Id): nat {
    |Selected(db.rows, Some(organization))|
  }

  function ScanJobsUsed(db: Database, organization: Id): nat {
    SumJobs(Listed(db.rows, Some(organization), None, 0))
  }

  predicate AssessmentLimitReached(db: Database, organization: Id) {
    organization != NIL_ORGANIZATION
    && Reached(AssessmentsUsed(db, organization), MaxAssessments(PlanOf(db, organization)))
  }

  predicate ScanJobLimitReached(db: Database, organization: Id) {
    organization != NIL_ORGANIZATION
    && Reached(ScanJobsUsed(db, organization), MaxScanJobs(PlanOf(db, organization)))
  }

  // ----- assessments

  function NewRecord(id: Id, name: string, organization: Id, now: Timestamp): Record {
    Record(id, name, Created, organization, [], [], [], now, now)
  }

  function CreateAssessment(db: Database, id: Id, name: string, organization: Id, now: Timestamp)
    : Result<Database, Error> {
    if AssessmentLimitReached(db, organization) then Err(LimitExceeded)
    else Ok(db.(rows := Saved(db.rows, NewRecord(id, name, organization, now))))
  }

  function DeleteAssessment(db: Database, id: Id, organization: Option<Id>): Result<Database, Error> {
    if Got(db.rows, id, organization).None? then Err(NotFound(id))
    else Ok(db.(rows := db.rows - {id}))
  }

  // ----- scan jobs

  function RepositoryIndex(repositories: seq<Repository>, id: Id): (i: Option<nat>)
    ensures i.Some? ==> i.value < |repositories| && repositories[i.value].id == id
  {
    if repositories == [] then None
    else if repositories[0].id == id then Some(0)
    else match RepositoryIndex(repositories[1..], id) case None => None case Some(i) => Some(i + 1)
  }

  /** What to scan: the request's target, or the clone of the repository it names. */
  function TargetOf(r: Record, request: JobRequest): Result<Option<string>, Error> {
    if request.repositoryId.None? then Ok(request.target)
    else match RepositoryIndex(r.repositories, request.repositoryId.value)
      case None => Err(NotFound(request.repositoryId.value))
      case Some(i) =>
        var repository := r.repositories[i];
        if repository.status != Ready || repository.localPath.None? || repository.localPath.value == ""
        then Err(NotReady(repository.id))
        else Ok(repository.localPath)
  }

  /** Python's `text or default`. */
  function Or(text: Option<string>, default: string): string {
    if text.None? || text.value == "" then default else text.value
  }

  function PendingJob(request: JobRequest, target: Option<string>, id: Id, confirmedBy: Option<string>, now: Timestamp)
    : ScanJob {
    ScanJob(id, request.agent, target, Pending, None, None, None, request.webhookUrl, request.confirmed,
            if request.confirmed then Some(Or(confirmedBy, "unknown")) else None,
            if request.confirmed then Some(now) else None, now)
  }

  function EntryFor(organization: Option<Id>, assessment: Id, job: ScanJob, now: Timestamp): AuditEntry {
    AuditEntry(if organization.Some? then organization.value else NIL_ORGANIZATION, assessment, job.id, job.agent,
               Or(job.target, ""), Or(job.authorizedBy, "unknown"), now)
  }

  /** Queues a job on the assessment with record `r`. */
  function Queue(db: Database, r: Record, organization: Option<Id>, request: JobRequest, job: Id,
                 confirmedBy: Option<string>, now: Timestamp): Result<Database, Error> {
    match TargetOf(r, request)
    case Err(e) => Err(e)
    case Ok(target) =>
      var j := PendingJob(request, target, job, confirmedBy, now);
      Ok(db.(rows := Saved(db.rows, WithJob(r, j, now)),
             audit := if request.confirmed then db.audit + [EntryFor(organization, r.id, j, now)] else db.audit))
  }

  function CreateJob(db: Database, assessment: Id, organization: Option<Id>, request: JobRequest, job: Id,
                     confirmedBy: Option<string>, now: Timestamp): Result<Database, Error> {
    if organization.Some? && ScanJobLimitReached(db, organization.value) then Err(LimitExceeded)
    else match Got(db.rows, assessment, organization)
      case None => Err(NotFound(assessment))
      case Some(r) => Queue(db, r, organization, request, job, confirmedBy, now)
  }

  /** The first write of `execute_scan_job`, and the copy it holds until the second. */
  function BeginJob(db: Database, assessment: Id, job: Id, now: Timestamp): Result<(Database, Flight), Error> {
    match Got(db.rows, assessment, None)
    case None => Err(NotFound(assessment))
    case Some(r) =>
      match JobIndex(r.jobs, job)
      case None => Err(NotFound(job))
      case Some(i) => Ok((db.(rows := Saved(db.rows, Begun(r, i, now))), Scanning(Begun(r, i, now), i)))
  }

  function RunningJob(target: string, webhookUrl: Option<string>, id: Id, now: Timestamp): ScanJob {
    ScanJob(id, Trivy, Some(target), Running, None, None, None, webhookUrl, false, None, None, now)
  }

  /** The first write of the synchronous Trivy scan: no quota check, no status change. */
  function BeginTrivy(db: Database, assessment: Id, organization: Option<Id>, target: string,
                      webhookUrl: Option<string>,
                      job: Id, now: Timestamp): Result<(Database, Flight), Error> {
    match Got(db.rows, assessment, organization)
    case None => Err(NotFound(assessment))
    case Some(r) =>
      var r' := WithAddedJob(r, RunningJob(target, webhookUrl, job, now), now);
      Ok((db.(rows := Saved(db.rows, r')), Scanning(r', |r.jobs|)))
  }

  predicate FlightFits(f: Flight) {
    match f
    case Scanning(copy, index) => index < |copy.jobs|
    case Ingesting(copy, index) => index < |copy.repositories|
  }

  /** The second write of both: the copy, finished and reconciled, over whatever is stored. */
  function FinishJob(db: Database, f: Flight, result: AgentResult, now: Timestamp): Database
    requires f.Scanning? && FlightFits(f)
  {
    db.(rows := Saved(db.rows, Finished(f.copy, f.index, result, now)))
  }

  // ----- repositories

  function AddRepository(db: Database, assessment: Id, organization: Option<Id>, repository: Repository,
                         now: Timestamp): Result<Database, Error> {
    match Got(db.rows, assessment, organization)
    case None => Err(NotFound(assessment))
    case Some(r) => Ok(db.(rows := Saved(db.rows, WithRepositories(r, r.repositories + [repository], now))))
  }

  function DeleteRepository(db: Database, assessment: Id, repository: Id, organization: Option<Id>,
                            now: Timestamp): Result<Database, Error> {
    match Got(db.rows, assessment, organization)
    case None => Err(NotFound(assessment))
    case Some(r) =>
      match RepositoryIndex(r.repositories, repository)
      case None => Err(NotFound(repository))
      case Some(i) =>
        Ok(db.(rows := Saved(db.rows, WithRepositories(r, r.repositories[..i] + r.repositories[i + 1..], now))))
  }

  function BeginIngest(db: Database, assessment: Id, repository: Id, now: Timestamp)
    : Result<(Database, Flight), Error> {
    match Got(db.rows, assessment, None)
    case None => Err(NotFound(assessment))
    case Some(r) =>
      match RepositoryIndex(r.repositories, repository)
      case None => Err(NotFound(repository))
      case Some(i) =>
        var r' := WithRepositories(r, r.repositories[i := r.repositories[i].(status := Cloning)], now);
        Ok((db.(rows := Saved(db.rows, r')), Ingesting(r', i)))
  }

  /** The outcome is saved even when cloning fails in an unforeseen way. */
  function Ingested(repository: Repository, result: CloneResult): Repository {
    match result
    case ClonedTo(path, commit) =>
      repository.(localPath := Some(path), commitHash := Some(commit), status := Ready, errorMessage := None)
    case CloneFailed(message) => repository.(status := IngestFailed, errorMessage := Some(message))
    case CloneCrashed => repository
  }

  function FinishIngest(db: Database, f: Flight, result: CloneResult, now: Timestamp): Database
    requires f.Ingesting? && FlightFits(f)
  {
    var repositories := f.copy.repositories[f.index := Ingested(f.copy.repositories[f.index], result)];
    db.(rows := Saved(db.rows, WithRepositories(f.copy, repositories, now)))
  }

  // ----- what is lost when two operations write one assessment

  /** A scan job queued while another job of the assessment runs is overwritten when that job
      finishes, although its consent stays in the audit log. */
  lemma FinishLosesJobQueuedMeanwhile(db: Database, assessment: Id, running: Id, begun: Database, flight: Flight,
                                      organization: Option<Id>, request: JobRequest, job: Id,
                                      confirmedBy: Option<string>,
                                      created: Database, result: AgentResult, now: Timestamp)
    requires assessment in db.rows && RowAgrees(assessment, db.rows[assessment])
    requires !HasJob(db.rows[assessment].payload, job)
    requires BeginJob(db, assessment, running, now) == Ok((begun, flight))
    requires CreateJob(begun, assessment, organization, request, job, confirmedBy, now) == Ok(created)
    ensures assessment in created.rows && HasJob(created.rows[assessment].payload, job)
    ensures var finished := FinishJob(created, flight, result, now);
            && assessment in finished.rows && !HasJob(finished.rows[assessment].payload, job)
            && finished.audit == created.audit
  {
    CreatedJobIsStored(begun, assessment, organization, request, job, confirmedBy, created, now);
    FinishedHasNoNewJob(flight.copy, flight.index, result, now, job);
  }

  lemma CreatedJobIsStored(db: Database, assessment: Id, organization: Option<Id>, request: JobRequest, job: Id,
                           confirmedBy: Option<string>, created: Database, now: Timestamp)
    requires assessment in db.rows && RowAgrees(assessment, db.rows[assessment])
    requires CreateJob(db, assessment, organization, request, job, confirmedBy, now) == Ok(created)
    ensures assessment in created.rows && HasJob(created.rows[assessment].payload, job)
  {
    assert created.rows[assessment].payload.jobs[|db.rows[assessment].payload.jobs|].id == job;
  }

  lemma FinishedHasNoNewJob(r: Record, i: nat, result: AgentResult, now: Timestamp, job: Id)
    requires i < |r.jobs| && !HasJob(r, job)
    ensures !HasJob(Finished(r, i, result, now), job)
  {
    var jobs := Finished(r, i, result, now).jobs;
    assert forall k :: 0 <= k < |jobs| ==> jobs[k].id == r.jobs[k].id;
  }

  /** An assessment deleted while one of its jobs runs comes back when the job finishes. */
  lemma FinishRestoresDeletedAssessment(db: Database, assessment: Id, running: Id, begun: Database, flight: Flight,
                                        organization: Option<Id>, deleted: Database,
                                        result: AgentResult, now: Timestamp)
    requires assessment in db.rows && RowAgrees(assessment, db.rows[assessment])
    requires BeginJob(db, assessment, running, now) == Ok((begun, flight))
    requires DeleteAssessment(begun, assessment, organization) == Ok(deleted)
    ensures assessment !in deleted.rows
    ensures assessment in FinishJob(deleted, flight, result, now).rows
  {
  }
}
