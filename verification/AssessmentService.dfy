/**
The assessment service as it works on the store: it loads a private copy of a record, changes the
copy in place and saves it. Every method is proved to do what `AssessmentOperations` says.
Outcomes of agents and clones, and the clock, are parameters.
*/
module AssessmentService {
  import opened Prelude
  import opened IsoTimestamp
  import opened Assessments
  import opened AssessmentStore
  import opened ScanLifecycle
  import opened Plans
  import opened AssessmentOperations

  /** The assessment after `start_analysis`, if that is allowed. */
  function Started(r: Record, now: Timestamp): Record {
    if r.status == Created || r.status == AllCompleted then r.(status := Analyzing, updatedAt := now) else r
  }

  lemma StartedThenAdded(r: Record, request: JobRequest, now: Timestamp)
    ensures TargetOf(Started(r, now), request) == TargetOf(r, request)
    ensures forall job :: WithAddedJob(Started(r, now), job, now) == WithJob(r, job, now)
  {
  }

  class AssessmentService {
    const repository: AssessmentRepository
    var auditLog: seq<AuditEntry>
    var plans: map<Id, Plan>

    constructor (repository: AssessmentRepository)
      ensures this.repository == repository && auditLog == [] && plans == map[]
    {
      this.repository, auditLog, plans := repository, [], map[];
    }

    function Db(): Database
      reads this, repository
    {
      Database(repository.rows, plans, auditLog)
    }

    method CreateAssessment(id: Id, name: string, organization: Id, now: Timestamp) returns (r: Result<Record, Error>)
      modifies repository
      ensures match AssessmentOperations.CreateAssessment(old(Db()), id, name, organization, now)
              case Err(e) => r == Err(e) && Db() == old(Db())
              case Ok(db) => r == Ok(NewRecord(id, name, organization, now)) && Db() == db
    {
      if AssessmentLimitReached(Db(), organization) {
        return Err(LimitExceeded);
      }
      var assessment := new Assessment(id, name, organization, now);
      repository.Save(assessment);
      return Ok(assessment.ToRecord());
    }

    method DeleteAssessment(id: Id, organization: Option<Id>) returns (r: Result<(), Error>)
      modifies repository
      ensures match AssessmentOperations.DeleteAssessment(old(Db()), id, organization)
              case Err(e) => r == Err(e) && Db() == old(Db())
              case Ok(db) => r.Ok? && Db() == db
    {
      var deleted := repository.Delete(id, organization);
      r := if deleted.Ok? then Ok(()) else Err(NotFound(id));
    }

    /** The status moves on the private copy before the target is resolved, so a repository that
        is not ready must, and does, leave the store alone. */
    method CreateScanJob(assessmentId: Id, request: JobRequest, organization: Option<Id>, confirmedBy: Option<string>,
                         jobId: Id, now: Timestamp) returns (r: Result<ScanJob, Error>)
      modifies this, repository
      ensures match CreateJob(old(Db()), assessmentId, organization, request, jobId, confirmedBy, now)
              case Err(e) => r == Err(e) && Db() == old(Db())
              case Ok(db) => r.Ok? && r.value.id == jobId && r.value.status == Pending && Db() == db
    {
      if organization.Some? && ScanJobLimitReached(Db(), organization.value) {
        return Err(LimitExceeded);
      }
      var got := repository.Get(assessmentId, organization);
      if got.Err? {
        return Err(NotFound(assessmentId));
      }
      r := QueueScanJob(got.value, request, organization, confirmedBy, jobId, now);
    }

    method QueueScanJob(assessment: Assessment, request: JobRequest, organization: Option<Id>,
                        confirmedBy: Option<string>,
                        jobId: Id, now: Timestamp) returns (r: Result<ScanJob, Error>)
      modifies this`auditLog, repository, assessment
      ensures match Queue(old(Db()), old(assessment.ToRecord()), organization, request, jobId, confirmedBy, now)
              case Err(e) => r == Err(e) && Db() == old(Db())
              case Ok(db) => r.Ok? && r.value.id == jobId && r.value.status == Pending && Db() == db
    {
      ghost var r0 := assessment.ToRecord();
      StartIfAllowed(assessment, now);
      StartedThenAdded(r0, request, now);
      var resolved := ResolveTarget(assessment, request);
      if resolved.Err? {
        return Err(resolved.error);
      }
      var job := PendingJob(request, resolved.value, jobId, confirmedBy, now);
      AppendJob(assessment, job, organization, now);
      return Ok(job);
    }

    method StartIfAllowed(assessment: Assessment, now: Timestamp)
      modifies assessment
      ensures assessment.ToRecord() == Started(old(assessment.ToRecord()), now)
    {
      if assessment.status == Created || assessment.status == AllCompleted {
        var started := assessment.StartAnalysis(now);
      }
    }

    /** Records the consent, if one was given, then saves the assessment with the job. */
    method AppendJob(assessment: Assessment, job: ScanJob, organization: Option<Id>, now: Timestamp)
      modifies this`auditLog, repository, assessment
      ensures auditLog == old(auditLog) + if job.confirmed
                                          then [EntryFor(organization, old(assessment.id), job, now)] else []
      ensures repository.rows == Saved(old(repository.rows), WithAddedJob(old(assessment.ToRecord()), job, now))
    {
      if job.confirmed {
        auditLog := auditLog + [EntryFor(organization, assessment.id, job, now)];
      }
      SaveWithJob(assessment, job, now);
    }

    method SaveWithJob(assessment: Assessment, job: ScanJob, now: Timestamp)
      modifies repository, assessment
      ensures assessment.ToRecord() == WithAddedJob(old(assessment.ToRecord()), job, now)
      ensures repository.rows == Saved(old(repository.rows), assessment.ToRecord())
    {
      assessment.jobs := assessment.jobs + [job];
      assessment.updatedAt := now;
      repository.Save(assessment);
    }

    method ResolveTarget(assessment: Assessment, request: JobRequest) returns (r: Result<Option<string>, Error>)
      ensures r == TargetOf(assessment.ToRecord(), request)
    {
      if request.repositoryId.None? {
        return Ok(request.target);
      }
      var i := RepositoryIndex(assessment.repositories, request.repositoryId.value);
      if i.None? {
        return Err(NotFound(request.repositoryId.value));
      }
      var source := assessment.repositories[i.value];
      if source.status != Ready || Or(source.localPath, "") == "" {
        return Err(NotReady(source.id));
      }
      return Ok(source.localPath);
    }

    /** Saves the job as running, then, whatever the agent did, saves the finished copy. */
    method ExecuteScanJob(assessmentId: Id, jobId: Id, result: AgentResult, startedAt: Timestamp, endedAt: Timestamp)
      returns (r: Result<ScanJob, Error>)
      modifies repository
      ensures match BeginJob(old(Db()), assessmentId, jobId, startedAt)
              case Err(e) => r == Err(e) && Db() == old(Db())
              case Ok((begun, flight)) =>
                && Db() == FinishJob(begun, flight, result, endedAt)
                && r == Ok(FinishedJob(flight.copy.jobs[flight.index], result, endedAt))
    {
      var got := repository.Get(assessmentId, None);
      if got.Err? {
        return Err(NotFound(assessmentId));
      }
      var assessment := got.value;
      var found := JobIndex(assessment.jobs, jobId);
      if found.None? {
        return Err(NotFound(jobId));
      }
      var i := found.value;
      MarkRunningAndSave(assessment, i, startedAt);
      ConcludeAndSave(assessment, i, result, endedAt);
      return Ok(assessment.jobs[i]);
    }

    method MarkRunningAndSave(assessment: Assessment, i: nat, now: Timestamp)
      requires i < |assessment.jobs|
      modifies repository, assessment
      ensures assessment.ToRecord() == Begun(old(assessment.ToRecord()), i, now)
      ensures repository.rows == Saved(old(repository.rows), assessment.ToRecord())
    {
      assessment.jobs := assessment.jobs[i := assessment.jobs[i].(status := Running, startedAt := Some(now))];
      assessment.updatedAt := now;
      repository.Save(assessment);
    }

    method ConcludeAndSave(assessment: Assessment, i: nat, result: AgentResult, now: Timestamp)
      requires i < |assessment.jobs|
      modifies repository, assessment
      ensures assessment.ToRecord() == Finished(old(assessment.ToRecord()), i, result, now)
      ensures repository.rows == Saved(old(repository.rows), assessment.ToRecord())
    {
      Conclude(assessment, i, result, now);
      repository.Save(assessment);
    }

    /** What both kinds of scan do with the agent's result before the second save. */
    method Conclude(assessment: Assessment, i: nat, result: AgentResult, now: Timestamp)
      requires i < |assessment.jobs|
      modifies assessment
      ensures assessment.ToRecord() == Finished(old(assessment.ToRecord()), i, result, now)
    {
      match result {
        case Found(findings) =>
          assessment.findings := assessment.findings + findings;
          assessment.jobs := assessment.jobs[i := assessment.jobs[i].(status := Completed, completedAt := Some(now))];
        case Raised(message) =>
          assessment.jobs := assessment.jobs[i := assessment.jobs[i].(status := Failed, completedAt := Some(now),
                                                                     errorMessage := Some(message))];
      }
      assessment.status := Reconciled(assessment.jobs);
      assessment.updatedAt := now;
    }

    method RunTrivyScan(assessmentId: Id, target: string, webhookUrl: Option<string>,
                        organization: Option<Id>, jobId: Id,
                        result: AgentResult, startedAt: Timestamp, endedAt: Timestamp)
      returns (r: Result<seq<Finding>, Error>)
      modifies repository
      ensures match BeginTrivy(old(Db()), assessmentId, organization, target, webhookUrl, jobId, startedAt)
              case Err(e) => r == Err(e) && Db() == old(Db())
              case Ok((begun, flight)) =>
                && Db() == FinishJob(begun, flight, result, endedAt)
                && r == Ok(if result.Found? then result.findings else [])
    {
      var got := repository.Get(assessmentId, organization);
      if got.Err? {
        return Err(NotFound(assessmentId));
      }
      var assessment := got.value;
      var i := |assessment.jobs|;
      SaveWithJob(assessment, RunningJob(target, webhookUrl, jobId, startedAt), startedAt);
      ConcludeAndSave(assessment, i, result, endedAt);
      return Ok(if result.Found? then result.findings else []);
    }

    method SaveRepositories(assessment: Assessment, repositories: seq<Repository>, now: Timestamp)
      modifies repository, assessment
      ensures assessment.ToRecord() == WithRepositories(old(assessment.ToRecord()), repositories, now)
      ensures repository.rows == Saved(old(repository.rows), assessment.ToRecord())
    {
      assessment.repositories := repositories;
      assessment.updatedAt := now;
      repository.Save(assessment);
    }

    method IngestRepository(assessmentId: Id, organization: Option<Id>, source: Repository, now: Timestamp)
      returns (r: Result<Repository, Error>)
      modifies repository
      ensures match AddRepository(old(Db()), assessmentId, organization, source, now)
              case Err(e) => r == Err(e) && Db() == old(Db())
              case Ok(db) => r == Ok(source) && Db() == db
    {
      var got := repository.Get(assessmentId, organization);
      if got.Err? {
        return Err(NotFound(assessmentId));
      }
      var assessment := got.value;
      SaveRepositories(assessment, assessment.repositories + [source], now);
      return Ok(source);
    }

    method RunRepositoryIngestion(assessmentId: Id, repositoryId: Id, cloned: CloneResult, startedAt: Timestamp,
                                  endedAt: Timestamp) returns (r: Result<(), Error>)
      modifies repository
      ensures match BeginIngest(old(Db()), assessmentId, repositoryId, startedAt)
              case Err(e) => r == Err(e) && Db() == old(Db())
              case Ok((begun, flight)) =>
                && Db() == FinishIngest(begun, flight, cloned, endedAt)
                && r == if cloned.CloneCrashed? then Err(CloneRaised) else Ok(())
    {
      var got := repository.Get(assessmentId, None);
      if got.Err? {
        return Err(NotFound(assessmentId));
      }
      var assessment := got.value;
      var found := RepositoryIndex(assessment.repositories, repositoryId);
      if found.None? {
        return Err(NotFound(repositoryId));
      }
      var i := found.value;
      var sources := assessment.repositories;
      SaveRepositories(assessment, sources[i := sources[i].(status := Cloning)], startedAt);
      sources := assessment.repositories;
      SaveRepositories(assessment, sources[i := Ingested(sources[i], cloned)], endedAt);
      return if cloned.CloneCrashed? then Err(CloneRaised) else Ok(());
    }

    method DeleteRepository(assessmentId: Id, repositoryId: Id, organization: Option<Id>, now: Timestamp)
      returns (r: Result<(), Error>)
      modifies repository
      ensures match AssessmentOperations.DeleteRepository(old(Db()), assessmentId, repositoryId, organization, now)
              case Err(e) => r == Err(e) && Db() == old(Db())
              case Ok(db) => r.Ok? && Db() == db
    {
      var got := repository.Get(assessmentId, organization);
      if got.Err? {
        return Err(NotFound(assessmentId));
      }
      var assessment := got.value;
      var found := RepositoryIndex(assessment.repositories, repositoryId);
      if found.None? {
        return Err(NotFound(repositoryId));
      }
      var i := found.value;
      SaveRepositories(assessment, assessment.repositories[..i] + assessment.repositories[i + 1..], now);
      return Ok(());
    }
  }
}
