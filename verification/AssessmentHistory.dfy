/** What every serial run of the assessment service guarantees over time. */
module AssessmentHistory {
  import opened Prelude
  import opened IsoTimestamp
  import opened Assessments
  import opened ScanLifecycle
  import opened AssessmentOperations
  import opened AssessmentRuns

  // ----- at every operation boundary

  /** In every serial run, at every moment no operation is in progress on it, an assessment is
      CREATED exactly when it has no jobs, COMPLETED only when all jobs completed, FAILED only with
      a failed job and ANALYZING only with an open one; and its findings are those of its completed
      jobs in finishing order, one log entry for each finished job. */
  lemma StatusAndFindingsAreTruthful(ops: seq<Operation>, id: Id)
    requires id in Run(INITIAL, ops).db.rows && id !in Run(INITIAL, ops).flights
    ensures TruthfulAtRest(RecordOf(Run(INITIAL, ops), id), LogFor(Run(INITIAL, ops).log, id))
  {
    RunsAreSound(ops);
    Identity(Run(INITIAL, ops), id);
    GoodAtRest(ViewOf(Run(INITIAL, ops), id));
  }

  // ----- what one step does to the rows

  /** Whom an operation is about; a plan change is about no assessment. */
  function SubjectOf(op: Operation): Option<Id> {
    if op.DoSetPlan? then None else Some(op.id)
  }

  datatype Effect = Nothing | Removed(id: Id) | Wrote(r: Record, flight: Option<Flight>, new_: seq<Outcome>)

  ghost predicate Happened(st: State, st': State, e: Effect) {
    && st.issued <= st'.issued
    && match e
       case Nothing => st'.db.rows == st.db.rows && st'.log == st.log
       case Removed(id) => st'.db.rows == st.db.rows - {id} && st'.log == st.log
       case Wrote(r, flight, new_) => Writes(st, st', r, flight, new_)
  }

  lemma CreateAssessmentEffect(st: State, op: Operation) returns (e: Effect)
    requires Sound(st) && Allowed(st, op) && op.DoCreateAssessment?
    ensures Happened(st, Perform(st, op), e) && (e.Nothing? || (e.Wrote? && e.r.id == op.id && op.id !in st.db.rows))
    ensures e.Wrote? ==> e.r.jobs == []
  {
    NoNewId(st, op);
    e := if CreateAssessment(st.db, op.id, op.name, op.organization, op.now).Ok?
         then Wrote(NewRecord(op.id, op.name, op.organization, op.now), None, []) else Nothing;
  }

  /** The id of a new assessment is not stored yet. */
  lemma NoNewId(st: State, op: Operation)
    requires Sound(st) && Allowed(st, op) && op.DoCreateAssessment?
    ensures op.id !in st.db.rows && op.id !in st.flights
  {
    assert RowIsSound(st, op.id);
  }

  /** What a step on an existing assessment writes has grown from what was stored. */
  ghost predicate GrownOrNothing(st: State, id: Id, e: Effect) {
    e.Nothing? || (e.Wrote? && e.r.id == id && id in st.db.rows && Grows(RecordOf(st, id), e.r))
  }

  ghost predicate AddsNoJob(st: State, e: Effect) {
    e.Wrote? ==> e.r.id in st.db.rows && |e.r.jobs| == |RecordOf(st, e.r.id).jobs|
  }

  lemma QueueEffect(st: State, op: Operation) returns (e: Effect)
    requires Sound(st) && Allowed(st, op) && op.DoCreateJob?
    ensures Happened(st, Perform(st, op), e) && GrownOrNothing(st, op.id, e)
  {
    if CreateJob(st.db, op.id, Some(op.organization), op.request, op.job, op.confirmedBy, op.now).Ok? {
      Identity(st, op.id);
      var job := CreateJobWrites(st, op);
      AddingIsGrowth(RecordOf(st, op.id), job, op.now);
      e := Wrote(WithJob(RecordOf(st, op.id), job, op.now), None, []);
    } else {
      e := Nothing;
    }
  }

  lemma AddingIsGrowth(r: Record, job: ScanJob, now: Timestamp)
    ensures Grows(r, WithJob(r, job, now)) && Grows(r, WithAddedJob(r, job, now))
  {
  }

  lemma BeginEffect(st: State, op: Operation) returns (e: Effect)
    requires Sound(st) && Allowed(st, op) && op.DoBeginJob?
    ensures Happened(st, Perform(st, op), e) && GrownOrNothing(st, op.id, e)
    ensures AddsNoJob(st, e)
  {
    if BeginJob(st.db, op.id, op.job, op.now).Ok? {
      Identity(st, op.id);
      var i := BeginJobWrites(st, op);
      var r := Begun(RecordOf(st, op.id), i, op.now);
      BeginIsGrowth(RecordOf(st, op.id), i, op.now);
      e := Wrote(r, Some(Scanning(r, i)), []);
    } else {
      e := Nothing;
    }
  }

  lemma BeginIsGrowth(r: Record, i: nat, now: Timestamp)
    requires i < |r.jobs| && r.jobs[i].status == Pending
    ensures Grows(r, Begun(r, i, now)) && |Begun(r, i, now).jobs| == |r.jobs|
  {
  }

  lemma TrivyEffect(st: State, op: Operation) returns (e: Effect)
    requires Sound(st) && Allowed(st, op) && op.DoBeginTrivy?
    ensures Happened(st, Perform(st, op), e) && GrownOrNothing(st, op.id, e)
    ensures e.Wrote? ==> forall i :: |RecordOf(st, op.id).jobs| <= i < |e.r.jobs| ==> !e.r.jobs[i].confirmed
  {
    if BeginTrivy(st.db, op.id, Some(op.organization), op.target, op.webhookUrl, op.job, op.now).Ok? {
      Identity(st, op.id);
      var job := BeginTrivyWrites(st, op);
      var r := WithAddedJob(RecordOf(st, op.id), job, op.now);
      AddingIsGrowth(RecordOf(st, op.id), job, op.now);
      e := Wrote(r, Some(Scanning(r, |RecordOf(st, op.id).jobs|)), []);
    } else {
      e := Nothing;
    }
  }

  lemma FinishEffect(st: State, op: Operation) returns (e: Effect)
    requires Sound(st) && Allowed(st, op) && op.DoFinishJob?
    ensures Happened(st, Perform(st, op), e) && GrownOrNothing(st, op.id, e)
    ensures AddsNoJob(st, e)
  {
    FlightIsStored(st, op.id);
    FinishJobWrites(st, op);
    Identity(st, op.id);
    var f := st.flights[op.id];
    FinishIsGrowth(RecordOf(st, op.id), f.index, op.result, op.now, st.issued);
    e := Wrote(Finished(f.copy, f.index, op.result, op.now), None,
               [Outcome(op.id, f.copy.jobs[f.index].id, op.result)]);
  }

  lemma RepositoryEffect(st: State, op: Operation) returns (e: Effect)
    requires Sound(st) && Allowed(st, op) && (op.DoAddRepository? || op.DoDeleteRepository? || op.DoBeginIngest?)
    ensures Happened(st, Perform(st, op), e) && GrownOrNothing(st, op.id, e)
    ensures AddsNoJob(st, e)
  {
    e := Nothing;
    if Perform(st, op) != st {
      Identity(st, op.id);
      var repositories, index := RepositoryOperationWrites(st, op);
      var r := WithRepositories(RecordOf(st, op.id), repositories, op.now);
      RepositoriesAreGrowth(RecordOf(st, op.id), repositories, op.now);
      e := Wrote(r, if index.Some? then Some(Ingesting(r, index.value)) else None, []);
    }
  }

  lemma RepositoriesAreGrowth(r: Record, repositories: seq<Repository>, now: Timestamp)
    ensures Grows(r, WithRepositories(r, repositories, now))
            && |WithRepositories(r, repositories, now).jobs| == |r.jobs|
  {
  }

  lemma FinishIngestEffect(st: State, op: Operation) returns (e: Effect)
    requires Sound(st) && Allowed(st, op) && op.DoFinishIngest?
    ensures Happened(st, Perform(st, op), e) && GrownOrNothing(st, op.id, e)
    ensures AddsNoJob(st, e)
  {
    FlightIsStored(st, op.id);
    var f := st.flights[op.id];
    e := Wrote(WithRepositories(f.copy,
                                f.copy.repositories[f.index := Ingested(f.copy.repositories[f.index], op.cloned)],
                                op.now), None, []);
  }

  lemma DeleteEffect(st: State, op: Operation) returns (e: Effect)
    requires Allowed(st, op) && op.DoDeleteAssessment?
    ensures Happened(st, Perform(st, op), e) && (e.Nothing? || e == Removed(op.id))
  {
    e := if DeleteAssessment(st.db, op.id, Some(op.organization)).Ok? then Removed(op.id) else Nothing;
  }

  lemma SetPlanEffect(st: State, op: Operation)
    requires Allowed(st, op) && op.DoSetPlan?
    ensures Happened(st, Perform(st, op), Nothing)
  {
  }

  lemma EffectOf(st: State, op: Operation) returns (e: Effect)
    requires Sound(st) && Allowed(st, op)
    ensures Happened(st, Perform(st, op), e)
    ensures SubjectOf(op).None? ==> e.Nothing?
    ensures !op.DoCreateAssessment? && !op.DoCreateJob? && !op.DoBeginTrivy? ==> AddsNoJob(st, e)
    ensures SubjectOf(op).Some? ==>
              || GrownOrNothing(st, SubjectOf(op).value, e)
              || (op.DoDeleteAssessment? && e == Removed(op.id))
              || (op.DoCreateAssessment? && e.Wrote? && e.r.id == op.id && op.id !in st.db.rows)
  {
    if op.DoSetPlan? {
      SetPlanEffect(st, op);
      e := Nothing;
    } else if op.DoCreateAssessment? {
      e := CreateAssessmentEffect(st, op);
    } else if op.DoDeleteAssessment? {
      e := DeleteEffect(st, op);
    } else {
      e := GrowthEffect(st, op);
    }
  }

  lemma GrowthEffect(st: State, op: Operation) returns (e: Effect)
    requires Sound(st) && Allowed(st, op) && !op.DoSetPlan? && !op.DoCreateAssessment? && !op.DoDeleteAssessment?
    ensures Happened(st, Perform(st, op), e) && GrownOrNothing(st, op.id, e)
    ensures !op.DoCreateJob? && !op.DoBeginTrivy? ==> AddsNoJob(st, e)
  {
    match op
    case DoBeginJob(_, _, _) => e := BeginEffect(st, op);
    case DoFinishJob(_, _, _) => e := FinishEffect(st, op);
    case DoFinishIngest(_, _, _) => e := FinishIngestEffect(st, op);
    case DoCreateJob(_, _, _, _, _, _) => e := QueueEffect(st, op);
    case DoBeginTrivy(_, _, _, _, _, _) => e := TrivyEffect(st, op);
    case _ => e := RepositoryEffect(st, op);
  }

  // ----- growth

  /** A step leaves an assessment deleted, or only grown; a deleted one stays deleted. */
  lemma StepGrows(st: State, op: Operation, id: Id)
    requires Sound(st) && id in st.issued
    ensures id in Step(st, op).issued
    ensures id in Step(st, op).db.rows ==> id in st.db.rows && Grows(RecordOf(st, id), RecordOf(Step(st, op), id))
  {
    if Allowed(st, op) {
      var e := EffectOf(st, op);
      assert op.DoCreateAssessment? ==> op.id !in st.issued;
      EffectGrows(st, Perform(st, op), e, id);
    }
  }

  lemma EffectGrows(st: State, st': State, e: Effect, id: Id)
    requires Happened(st, st', e) && id in st.issued
    requires e.Wrote? ==> GrownOrNothing(st, e.r.id, e) || e.r.id !in st.issued
    ensures id in st'.db.rows ==> id in st.db.rows && Grows(RecordOf(st, id), RecordOf(st', id))
  {
  }

  /** Over any serial run: jobs stay in place and only move on, pending to running to completed or
      failed; findings only grow at the end; and what was deleted does not come back. */
  lemma {:induction false} RunsOnlyGrow(st: State, ops: seq<Operation>, id: Id)
    requires Sound(st) && id in st.issued
    ensures Sound(Run(st, ops)) && id in Run(st, ops).issued
    ensures id in Run(st, ops).db.rows ==> id in st.db.rows && Grows(RecordOf(st, id), RecordOf(Run(st, ops), id))
  {
    if ops != [] {
      var init := ops[..|ops| - 1];
      RunsOnlyGrow(st, init, id);
      StepKeepsSound(Run(st, init), ops[|ops| - 1]);
      StepGrows(Run(st, init), ops[|ops| - 1], id);
      if id in Run(st, ops).db.rows {
        GrowsIsTransitive(RecordOf(st, id), RecordOf(Run(st, init), id), RecordOf(Run(st, ops), id));
      }
    }
  }

  /** Once one of its jobs has failed an assessment is never COMPLETED again, not even while an
      operation is in progress on it. */
  lemma FailureIsNeverForgotten(before: seq<Operation>, after: seq<Operation>, id: Id, i: nat)
    requires id in Run(INITIAL, before).db.rows
    requires i < |RecordOf(Run(INITIAL, before), id).jobs|
             && RecordOf(Run(INITIAL, before), id).jobs[i].status == Failed
    requires id in Run(Run(INITIAL, before), after).db.rows
    ensures var r := RecordOf(Run(Run(INITIAL, before), after), id);
            i < |r.jobs| && r.jobs[i].status == Failed && r.status != AllCompleted
  {
    var st := Run(INITIAL, before);
    RunsAreSound(before);
    Identity(st, id);
    RunsOnlyGrow(st, after, id);
    Identity(Run(st, after), id);
    assert Advances(RecordOf(st, id).jobs[i], RecordOf(Run(st, after), id).jobs[i]);
  }
}
