/**
What the service's operations do to one assessment record, and the invariant that serial runs
keep for it. A record in the middle of an operation is held twice: stored, and as the private
copy that the operation will save over it.
*/
module ScanLifecycle {
  import opened Prelude
  import opened IsoTimestamp
  import opened Assessments

  /** What an agent run produced: findings, or an exception with its text. */
  datatype AgentResult = Found(findings: seq<Finding>) | Raised(message: string)

  // ----- record operations

  predicate IsOpen(j: ScanJob) {
    j.status == Pending || j.status == Running
  }

  /** `_reconcile_assessment_status`. */
  function Reconciled(jobs: seq<ScanJob>): AssessmentStatus {
    if exists i :: 0 <= i < |jobs| && IsOpen(jobs[i]) then Analyzing
    else if exists i :: 0 <= i < |jobs| && jobs[i].status == Failed then SomeFailed
    else if exists i :: 0 <= i < |jobs| && jobs[i].status == Completed then AllCompleted
    else Created
  }

  /** A scan job is queued: new and completed assessments start analysis, others keep their status. */
  function WithJob(r: Record, job: ScanJob, now: Timestamp): Record {
    r.(status := if r.status == Created || r.status == AllCompleted then Analyzing else r.status,
       jobs := r.jobs + [job], updatedAt := now)
  }

  /** The job is added and the status left alone, as the synchronous Trivy scan does. */
  function WithAddedJob(r: Record, job: ScanJob, now: Timestamp): Record {
    r.(jobs := r.jobs + [job], updatedAt := now)
  }

  function Begun(r: Record, i: nat, now: Timestamp): Record
    requires i < |r.jobs|
  {
    r.(jobs := r.jobs[i := r.jobs[i].(status := Running, startedAt := Some(now))], updatedAt := now)
  }

  function FinishedJob(job: ScanJob, result: AgentResult, now: Timestamp): ScanJob {
    match result
    case Found(_) => job.(status := Completed, completedAt := Some(now))
    case Raised(message) => job.(status := Failed, completedAt := Some(now), errorMessage := Some(message))
  }

  function Finished(r: Record, i: nat, result: AgentResult, now: Timestamp): Record
    requires i < |r.jobs|
  {
    var jobs := r.jobs[i := FinishedJob(r.jobs[i], result, now)];
    r.(findings := if result.Found? then r.findings + result.findings else r.findings,
       jobs := jobs, status := Reconciled(jobs), updatedAt := now)
  }

  function WithRepositories(r: Record, repositories: seq<Repository>, now: Timestamp): Record {
    r.(repositories := repositories, updatedAt := now)
  }

  /** The first job with this id. */
  function JobIndex(jobs: seq<ScanJob>, id: Id): (i: Option<nat>)
    ensures i.Some? ==> i.value < |jobs| && jobs[i.value].id == id
    ensures i.None? ==> forall k :: 0 <= k < |jobs| ==> jobs[k].id != id
  {
    if jobs == [] then None
    else if jobs[0].id == id then Some(0)
    else match JobIndex(jobs[1..], id) case None => None case Some(i) => Some(i + 1)
  }

  // ----- the history of one assessment

  /** A finished job, in finishing order. */
  datatype Outcome = Outcome(assessment: Id, job: Id, result: AgentResult)

  /** The findings of the jobs that completed, in finishing order. */
  function FindingsOf(log: seq<Outcome>): seq<Finding> {
    if log == [] then [] else
      var last := log[|log| - 1];
      FindingsOf(log[..|log| - 1]) + if last.result.Found? then last.result.findings else []
  }

  /** An operation that has read a record and will save its changed copy. */
  datatype Flight = Scanning(copy: Record, index: nat) | Ingesting(copy: Record, index: nat)

  /** One assessment: its stored record, the operation in flight on it, and its finished jobs. */
  datatype View = View(record: Record, flight: Option<Flight>, log: seq<Outcome>)

  // ----- the invariant

  /** The status tells the truth about the jobs. */
  ghost predicate StatusIsTruthful(r: Record) {
    && (r.status == Created <==> r.jobs == [])
    && (r.status == AllCompleted ==> forall i :: 0 <= i < |r.jobs| ==> r.jobs[i].status == Completed)
    && (r.status == SomeFailed ==> exists i :: 0 <= i < |r.jobs| && r.jobs[i].status == Failed)
    && (r.status == Analyzing ==> exists i :: 0 <= i < |r.jobs| && IsOpen(r.jobs[i]))
  }

  ghost predicate NoneRunningBut(r: Record, index: int) {
    forall i :: 0 <= i < |r.jobs| && i != index ==> r.jobs[i].status != Running
  }

  /** No failed job hides behind a completed assessment, not even in mid-operation. */
  ghost predicate NoHiddenFailure(r: Record) {
    r.status == AllCompleted ==> forall i :: 0 <= i < |r.jobs| ==> r.jobs[i].status != Failed
  }

  ghost predicate FlightIsSound(v: View) {
    match v.flight
    case None => StatusIsTruthful(v.record) && NoneRunningBut(v.record, -1)
    case Some(Ingesting(copy, index)) =>
      copy == v.record && StatusIsTruthful(v.record) && NoneRunningBut(v.record, -1) && index < |v.record.repositories|
    case Some(Scanning(copy, index)) =>
      && copy == v.record && index < |v.record.jobs|
      && v.record.jobs[index].status == Running && NoneRunningBut(v.record, index)
  }

  /** A job's status is what its one entry in the log says. */
  ghost predicate StatusIsLogged(v: View, i: nat)
    requires i < |v.record.jobs|
  {
    var j := v.record.jobs[i];
    && (j.status == Completed <==> Logged(v.log, j.id, true))
    && (j.status == Failed <==> Logged(v.log, j.id, false))
  }

  ghost predicate Logged(log: seq<Outcome>, job: Id, found: bool) {
    exists k :: 0 <= k < |log| && Logs(log[k], job, found)
  }

  predicate Logs(o: Outcome, job: Id, found: bool) {
    o.job == job && o.result.Found? == found
  }

  ghost predicate LogIsSound(v: View) {
    && v.record.findings == FindingsOf(v.log)
    && (forall i: nat :: i < |v.record.jobs| ==> StatusIsLogged(v, i))
    && (forall k, m :: 0 <= k < m < |v.log| ==> v.log[k].job != v.log[m].job)
    && (forall k :: 0 <= k < |v.log| ==> HasJob(v.record, v.log[k].job))
  }

  ghost predicate HasJob(r: Record, id: Id) {
    exists i :: 0 <= i < |r.jobs| && r.jobs[i].id == id
  }

  ghost predicate JobIdsDistinct(r: Record) {
    forall i, k :: 0 <= i < k < |r.jobs| ==> r.jobs[i].id != r.jobs[k].id
  }

  ghost predicate Good(v: View) {
    && JobIdsDistinct(v.record)
    && FlightIsSound(v)
    && NoHiddenFailure(v.record)
    && LogIsSound(v)
  }

  /** What can be relied on when no operation is in progress: the status is truthful, and the log
      has exactly one entry for each finished job, in finishing order, whose findings together
      are the assessment's. */
  ghost predicate TruthfulAtRest(r: Record, log: seq<Outcome>) {
    && StatusIsTruthful(r)
    && r.findings == FindingsOf(log)
    && (forall i :: 0 <= i < |r.jobs| ==>
          && (r.jobs[i].status == Completed <==> Logged(log, r.jobs[i].id, true))
          && (r.jobs[i].status == Failed <==> Logged(log, r.jobs[i].id, false)))
    && (forall k, m :: 0 <= k < m < |log| ==> log[k].job != log[m].job)
    && (forall k :: 0 <= k < |log| ==> HasJob(r, log[k].job))
  }

  lemma GoodAtRest(v: View)
    requires Good(v) && v.flight.None?
    ensures TruthfulAtRest(v.record, v.log)
  {
    forall i | 0 <= i < |v.record.jobs|
      ensures v.record.jobs[i].status == Completed <==> Logged(v.log, v.record.jobs[i].id, true)
      ensures v.record.jobs[i].status == Failed <==> Logged(v.log, v.record.jobs[i].id, false)
    {
      assert StatusIsLogged(v, i);
    }
  }

  // ----- every operation keeps it

  lemma NewAssessmentIsGood(id: Id, name: string, organization: Id, now: Timestamp)
    ensures Good(View(Record(id, name, Created, organization, [], [], [], now, now), None, []))
  {
  }

  lemma QueueKeepsGood(v: View, job: ScanJob, now: Timestamp)
    requires Good(v) && v.flight.None?
    requires job.status == Pending && !HasJob(v.record, job.id)
    ensures Good(v.(record := WithJob(v.record, job, now)))
  {
    var r, v' := WithJob(v.record, job, now), v.(record := WithJob(v.record, job, now));
    assert r.jobs[|v.record.jobs|] == job && IsOpen(r.jobs[|v.record.jobs|]);
    AppendKeepsLog(v, v', job);
    if v.record.status == SomeFailed {
      var i :| 0 <= i < |v.record.jobs| && v.record.jobs[i].status == Failed;
      assert r.jobs[i] == v.record.jobs[i];
    }
  }

  lemma AppendKeepsLog(v: View, v': View, job: ScanJob)
    requires LogIsSound(v) && IsOpen(job) && !HasJob(v.record, job.id)
    requires v'.record.jobs == v.record.jobs + [job]
    requires v'.log == v.log && v'.record.findings == v.record.findings
    ensures LogIsSound(v')
  {
    forall k | 0 <= k < |v.log|
      ensures HasJob(v'.record, v.log[k].job) && v.log[k].job != job.id
    {
      assert HasJob(v.record, v.log[k].job);
      var i :| 0 <= i < |v.record.jobs| && v.record.jobs[i].id == v.log[k].job;
      assert v'.record.jobs[i] == v.record.jobs[i];
    }
    forall i: nat | i < |v'.record.jobs|
      ensures StatusIsLogged(v', i)
    {
      if i < |v.record.jobs| {
        assert StatusIsLogged(v, i);
      }
    }
  }

  lemma TrivyBeginKeepsGood(v: View, job: ScanJob, now: Timestamp)
    requires Good(v) && v.flight.None?
    requires job.status == Running && !HasJob(v.record, job.id)
    ensures var r := WithAddedJob(v.record, job, now);
            Good(v.(record := r, flight := Some(Scanning(r, |v.record.jobs|))))
  {
    var r := WithAddedJob(v.record, job, now);
    AppendKeepsLog(v, v.(record := r, flight := Some(Scanning(r, |v.record.jobs|))), job);
  }

  lemma BeginKeepsGood(v: View, i: nat, now: Timestamp)
    requires Good(v) && v.flight.None?
    requires i < |v.record.jobs| && v.record.jobs[i].status == Pending
    ensures var r := Begun(v.record, i, now);
            Good(v.(record := r, flight := Some(Scanning(r, i))))
  {
    var r := Begun(v.record, i, now);
    var v' := v.(record := r, flight := Some(Scanning(r, i)));
    SameIdsKeepHasJob(v.record, r);
    forall k: nat | k < |r.jobs|
      ensures StatusIsLogged(v', k)
    {
      assert StatusIsLogged(v, k);
    }
  }

  lemma SameIdsKeepHasJob(r: Record, r': Record)
    requires |r.jobs| == |r'.jobs|
    requires forall i :: 0 <= i < |r.jobs| ==> r.jobs[i].id == r'.jobs[i].id
    ensures forall id :: HasJob(r, id) ==> HasJob(r', id)
  {
    forall id | HasJob(r, id)
      ensures HasJob(r', id)
    {
      var i :| 0 <= i < |r.jobs| && r.jobs[i].id == id;
      assert r'.jobs[i].id == id;
    }
  }

  /** Reconciling a non-empty job list makes the status truthful. */
  lemma ReconciledIsTruthful(r: Record)
    requires r.jobs != [] && r.status == Reconciled(r.jobs)
    ensures StatusIsTruthful(r) && NoHiddenFailure(r)
  {
    assert IsOpen(r.jobs[0]) || r.jobs[0].status == Failed || r.jobs[0].status == Completed;
  }

  /** Which status reconciling gives, for every job list: an open job decides first, then a failed one. */
  lemma ReconciledMeans(jobs: seq<ScanJob>)
    ensures Reconciled(jobs) == Created <==> jobs == []
    ensures Reconciled(jobs) == Analyzing <==>
            exists i :: 0 <= i < |jobs| && (jobs[i].status == Pending || jobs[i].status == Running)
    ensures Reconciled(jobs) == AllCompleted
            <==> jobs != [] && forall i :: 0 <= i < |jobs| ==> jobs[i].status == Completed
    ensures Reconciled(jobs) == SomeFailed <==>
            && (forall i :: 0 <= i < |jobs| ==> jobs[i].status == Completed || jobs[i].status == Failed)
            && (exists i :: 0 <= i < |jobs| && jobs[i].status == Failed)
  {
    if jobs != [] {
      assert IsOpen(jobs[0]) || jobs[0].status == Failed || jobs[0].status == Completed;
    }
    assert forall i :: 0 <= i < |jobs| ==>
        (IsOpen(jobs[i]) <==> jobs[i].status == Pending || jobs[i].status == Running);
  }

  lemma FinishKeepsGood(v: View, result: AgentResult, now: Timestamp)
    requires Good(v) && v.flight.Some? && v.flight.value.Scanning?
    ensures var f := v.flight.value;
            Good(View(Finished(f.copy, f.index, result, now), None,
                      v.log + [Outcome(f.copy.id, f.copy.jobs[f.index].id, result)]))
  {
    var f := v.flight.value;
    var r := Finished(f.copy, f.index, result, now);
    assert StatusIsTruthful(r) && NoHiddenFailure(r) by {
      ReconciledIsTruthful(r);
    }
    var o := Outcome(f.copy.id, f.copy.jobs[f.index].id, result);
    assert LogIsSound(View(r, None, v.log + [o])) by {
      FinishKeepsLog(v, f.index, r, o);
    }
  }

  lemma FinishKeepsLog(v: View, index: nat, r: Record, o: Outcome)
    requires LogIsSound(v) && JobIdsDistinct(v.record)
    requires index < |v.record.jobs| == |r.jobs| && v.record.jobs[index].status == Running
    requires o.job == v.record.jobs[index].id
    requires r.jobs == v.record.jobs[index := r.jobs[index]] && r.jobs[index].id == o.job
    requires r.jobs[index].status == if o.result.Found? then Completed else Failed
    requires r.findings == if o.result.Found? then v.record.findings + o.result.findings else v.record.findings
    ensures LogIsSound(View(r, None, v.log + [o]))
  {
    var v' := View(r, None, v.log + [o]);
    SameIdsKeepHasJob(v.record, r);
    assert StatusIsLogged(v, index);
    assert v'.log[..|v'.log| - 1] == v.log;
    forall k | 0 <= k < |v.log|
      ensures v.log[k].job != o.job
    {
      assert Logs(v.log[k], v.log[k].job, v.log[k].result.Found?);
    }
    forall i: nat | i < |r.jobs|
      ensures StatusIsLogged(v', i)
    {
      FinishKeepsStatusLogged(v, index, v', o, i);
    }
    assert HasJob(v.record, o.job);
    forall k | 0 <= k < |v'.log|
      ensures HasJob(r, v'.log[k].job)
    {
      assert if k < |v.log| then v'.log[k] == v.log[k] && HasJob(v.record, v.log[k].job) else v'.log[k] == o;
    }
  }

  lemma FinishKeepsStatusLogged(v: View, index: nat, v': View, o: Outcome, i: nat)
    requires |v.record.jobs| == |v'.record.jobs| && index < |v.record.jobs| && i < |v.record.jobs|
    requires JobIdsDistinct(v.record) && StatusIsLogged(v, i)
    requires v'.log == v.log + [o] && o.job == v.record.jobs[index].id
    requires i != index ==> v'.record.jobs[i] == v.record.jobs[i]
    requires v'.record.jobs[index].id == o.job
    requires v'.record.jobs[index].status == if o.result.Found? then Completed else Failed
    requires forall k :: 0 <= k < |v.log| ==> v.log[k].job != o.job
    ensures StatusIsLogged(v', i)
  {
    var j := v'.record.jobs[i];
    assert v'.log[|v.log|] == o;
    forall found: bool
      ensures Logged(v'.log, j.id, found)
         <==> if i == index then found == o.result.Found? else Logged(v.log, j.id, found)
    {
      if i != index && Logged(v.log, j.id, found) {
        var k :| 0 <= k < |v.log| && Logs(v.log[k], j.id, found);
        assert Logs(v'.log[k], j.id, found);
      }
      if i == index && found == o.result.Found? {
        assert Logs(v'.log[|v.log|], j.id, found);
      }
    }
  }

  lemma RepositoriesKeepGood(v: View, repositories: seq<Repository>, now: Timestamp)
    requires Good(v) && (v.flight.None? || v.flight.value.Ingesting?)
    ensures Good(View(WithRepositories(v.record, repositories, now), None, v.log))
    ensures var r := WithRepositories(v.record, repositories, now);
            forall i: nat :: i < |repositories| ==> Good(View(r, Some(Ingesting(r, i)), v.log))
  {
    var r := WithRepositories(v.record, repositories, now);
    forall flight
      ensures LogIsSound(View(r, flight, v.log))
    {
      RepositoriesKeepLog(v, repositories, now, flight);
    }
  }

  lemma RepositoriesKeepLog(v: View, repositories: seq<Repository>, now: Timestamp, flight: Option<Flight>)
    requires LogIsSound(v)
    ensures LogIsSound(View(WithRepositories(v.record, repositories, now), flight, v.log))
  {
    var r := WithRepositories(v.record, repositories, now);
    SameIdsKeepHasJob(v.record, r);
    forall i: nat | i < |r.jobs|
      ensures StatusIsLogged(View(r, flight, v.log), i)
    {
      assert StatusIsLogged(v, i);
    }
  }

  // ----- where the status lags behind

  /** Queueing a job keeps the status truthful, but a failed assessment stays FAILED while its new
      job waits and runs; finishing the job settles it, as ANALYZING if another job is open. */
  lemma FailedStaysUntilTheJobFinishes(r: Record, job: ScanJob, result: AgentResult, now: Timestamp)
    requires StatusIsTruthful(r) && r.status == SomeFailed && job.status == Pending
    ensures var queued, i := WithJob(r, job, now), |r.jobs|;
            var begun := Begun(queued, i, now);
            && StatusIsTruthful(queued) && queued.status == SomeFailed && begun.status == SomeFailed
            && Finished(begun, i, result, now).status
               == if exists k :: 0 <= k < |r.jobs| && IsOpen(r.jobs[k]) then Analyzing else SomeFailed
  {
    var queued, i := WithJob(r, job, now), |r.jobs|;
    var jobs := Finished(Begun(queued, i, now), i, result, now).jobs;
    var k :| 0 <= k < |r.jobs| && r.jobs[k].status == Failed;
    assert queued.jobs[k] == r.jobs[k];
    assert jobs == r.jobs + [jobs[i]] && !IsOpen(jobs[i]);
    ReconciledWithClosedJob(r.jobs, jobs[i], k);
  }

  /** A finished job more, next to a failed one, leaves the status to the jobs still open. */
  lemma ReconciledWithClosedJob(jobs: seq<ScanJob>, job: ScanJob, k: nat)
    requires k < |jobs| && jobs[k].status == Failed && !IsOpen(job)
    ensures Reconciled(jobs + [job]) == if exists m :: 0 <= m < |jobs| && IsOpen(jobs[m]) then Analyzing else SomeFailed
  {
    var more := jobs + [job];
    assert more[k].status == Failed;
    if m :| 0 <= m < |jobs| && IsOpen(jobs[m]) {
      assert IsOpen(more[m]);
    }
  }

  /** While the synchronous Trivy scan runs, the stored status is truthful exactly if it was
      ANALYZING or FAILED before. */
  lemma TrivyStatusIsTruthfulIff(r: Record, job: ScanJob, now: Timestamp)
    requires StatusIsTruthful(r) && job.status == Running
    ensures StatusIsTruthful(WithAddedJob(r, job, now)) <==> r.status == Analyzing || r.status == SomeFailed
  {
    var r' := WithAddedJob(r, job, now);
    assert r'.jobs[|r.jobs|] == job && IsOpen(job);
    if r.status == SomeFailed {
      var k :| 0 <= k < |r.jobs| && r.jobs[k].status == Failed;
      assert r'.jobs[k] == r.jobs[k];
    }
  }

  // ----- how records change

  function Rank(s: ScanStatus): nat {
    match s case Pending => 0 case Running => 1 case Completed => 2 case Failed => 2
  }

  /** A job changes only by moving on: pending, running, then completed or failed. */
  predicate Advances(j: ScanJob, j': ScanJob) {
    && j'.id == j.id && j'.agent == j.agent && j'.target == j.target
    && j'.confirmed == j.confirmed && j'.authorizedBy == j.authorizedBy && j'.authorizedAt == j.authorizedAt
    && (j' == j || Rank(j.status) < Rank(j'.status))
  }

  /** Jobs are kept in place and only move on; findings only grow at the end. */
  ghost predicate Grows(r: Record, r': Record) {
    && r'.id == r.id && r'.organization == r.organization && r'.createdAt == r.createdAt
    && |r.jobs| <= |r'.jobs|
    && (forall i :: 0 <= i < |r.jobs| ==> Advances(r.jobs[i], r'.jobs[i]))
    && r.findings <= r'.findings
  }

  lemma GrowsIsTransitive(a: Record, b: Record, c: Record)
    requires Grows(a, b) && Grows(b, c)
    ensures Grows(a, c)
  {
    forall i | 0 <= i < |a.jobs|
      ensures Advances(a.jobs[i], c.jobs[i])
    {
      assert Advances(a.jobs[i], b.jobs[i]) && Advances(b.jobs[i], c.jobs[i]);
    }
  }
}
