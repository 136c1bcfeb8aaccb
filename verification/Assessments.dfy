/** The records of the assessment domain and the assessment object the service works on. */
module Assessments {
  import opened Prelude
  import opened IsoTimestamp

  /** A UUID, by its text. */
  datatype Id = Id(text: string)

  const NIL_ORGANIZATION := Id("00000000-0000-0000-0000-000000000000")

  datatype Severity = Low | Medium | High | Critical

  datatype AgentType =
    | WhiteBox | BlackBox | RedTeam | BlueTeam | ApiSecurity
    | CloudSecurity | DependencySecurity | SecretDetection | Trivy | AutoRemediation

  datatype Finding = Finding(title: string, severity: Severity, evidence: Option<string>, remediation: Option<string>)

  datatype ScanStatus = Pending | Running | Completed | Failed

  datatype ScanJob = ScanJob(
    id: Id, agent: AgentType, target: Option<string>, status: ScanStatus,
    startedAt: Option<Timestamp>, completedAt: Option<Timestamp>, errorMessage: Option<string>,
    webhookUrl: Option<string>, confirmed: bool, authorizedBy: Option<string>, authorizedAt: Option<Timestamp>,
    createdAt: Timestamp)

  datatype IngestStatus = IngestPending | Cloning | Ready | IngestFailed

  datatype Repository = Repository(
    id: Id, name: string, url: string, branch: string, status: IngestStatus,
    localPath: Option<string>, commitHash: Option<string>, errorMessage: Option<string>)

  datatype AssessmentStatus = Created | Analyzing | AllCompleted | SomeFailed

  /** An assessment as it is stored: the payload of its row. */
  datatype Record = Record(
    id: Id, name: string, status: AssessmentStatus, organization: Id,
    findings: seq<Finding>, jobs: seq<ScanJob>, repositories: seq<Repository>,
    createdAt: Timestamp, updatedAt: Timestamp)

  /** The in-memory assessment: a private copy of a record until it is saved. */
  class Assessment {
    var id: Id
    var name: string
    var status: AssessmentStatus
    var organization: Id
    var findings: seq<Finding>
    var jobs: seq<ScanJob>
    var repositories: seq<Repository>
    var createdAt: Timestamp
    var updatedAt: Timestamp

    constructor (id: Id, name: string, organization: Id, now: Timestamp)
      ensures ToRecord() == Record(id, name, Created, organization, [], [], [], now, now)
    {
      this.id, this.name, this.organization := id, name, organization;
      status, findings, jobs, repositories := Created, [], [], [];
      createdAt, updatedAt := now, now;
    }

    constructor FromRecord(r: Record)
      ensures ToRecord() == r
    {
      id, name, status, organization := r.id, r.name, r.status, r.organization;
      findings, jobs, repositories := r.findings, r.jobs, r.repositories;
      createdAt, updatedAt := r.createdAt, r.updatedAt;
    }

    function ToRecord(): Record
      reads this
    {
      Record(id, name, status, organization, findings, jobs, repositories, createdAt, updatedAt)
    }

    /** Allowed for new and for completed assessments only. */
    method StartAnalysis(now: Timestamp) returns (r: Result<(), ()>)
      modifies this
      ensures r.Ok? <==> old(status) in {Created, AllCompleted}
      ensures ToRecord() == if r.Ok? then old(ToRecord()).(status := Analyzing, updatedAt := now) else old(ToRecord())
    {
      if status != Created && status != AllCompleted {
        return Err(());
      }
      status, updatedAt := Analyzing, now;
      return Ok(());
    }
  }
}
