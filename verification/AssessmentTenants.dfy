/** Who can change an assessment over whole runs: its own organisation, and the scans and clones that
    its organisation asked for. */
module AssessmentTenants {
  import opened Prelude
  import opened Assessments
  import opened AssessmentStore
  import opened ScanLifecycle
  import opened AssessmentOperations
  import opened AssessmentRuns
  import opened AssessmentHistory

  /** The organisation an operation acts for. The background steps act for none. */
  function ActsFor(op: Operation): Option<Id> {
    match op
    case DoBeginJob(_, _, _) => None
    case DoFinishJob(_, _, _) => None
    case DoBeginIngest(_, _, _) => None
    case DoFinishIngest(_, _, _) => None
    case _ => Some(op.organization)
  }

  ghost predicate LeavesRow(st: State, st': State, id: Id) {
    id in st.db.rows ==> id in st'.db.rows && st'.db.rows[id] == st.db.rows[id]
  }

  /** A lookup for another organisation finds nothing. */
  lemma StrangersGetNothing(st: State, id: Id, organization: Id)
    requires Sound(st) && id in st.db.rows && st.db.rows[id].organization != organization
    ensures Got(st.db.rows, id, Some(organization)) == None
  {
    assert RowIsSound(st, id);
  }

  lemma StrangersAreRefused(st: State, op: Operation)
    requires Sound(st) && Allowed(st, op) && ActsFor(op).Some? && !op.DoCreateAssessment? && !op.DoSetPlan?
    requires op.id in st.db.rows && st.db.rows[op.id].organization != op.organization
    ensures Perform(st, op).db.rows == st.db.rows
  {
    StrangersGetNothing(st, op.id, op.organization);
  }

  lemma EffectLeavesRow(st: State, st': State, e: Effect, id: Id)
    requires Happened(st, st', e)
    requires e.Wrote? ==> e.r.id != id
    requires e.Removed? ==> e.id != id
    ensures LeavesRow(st, st', id) && (id in st'.db.rows ==> id in st.db.rows)
  {
  }

  /** A step that changes or removes a stored assessment is about that assessment and acts for its
      organisation, or is a background step. */
  lemma StepsStayWithTheTenant(st: State, op: Operation, id: Id)
    requires Sound(st) && !LeavesRow(st, Step(st, op), id)
    ensures SubjectOf(op) == Some(id) && (ActsFor(op).None? || ActsFor(op) == Some(st.db.rows[id].organization))
  {
    if SubjectOf(op) != Some(id) {
      OtherRowsAreLeft(st, op, id);
    } else if ActsFor(op).Some? && op.organization != st.db.rows[id].organization {
      NoNewIdIsStored(st, op);
      StrangersAreRefused(st, op);
    }
  }

  lemma NoNewIdIsStored(st: State, op: Operation)
    requires Sound(st) && Allowed(st, op) && SubjectOf(op).Some? && op.id in st.db.rows
    ensures !op.DoCreateAssessment?
  {
    if op.DoCreateAssessment? {
      NoNewId(st, op);
    }
  }

  lemma OtherRowsAreLeft(st: State, op: Operation, id: Id)
    requires Sound(st) && SubjectOf(op) != Some(id)
    ensures LeavesRow(st, Step(st, op), id)
    ensures id in Step(st, op).db.rows ==> id in st.db.rows
  {
    if Allowed(st, op) {
      var e := EffectOf(st, op);
      EffectLeavesRow(st, Perform(st, op), e, id);
    }
  }

  // ----- background steps

  /** The operation asks for scan job `job` of assessment `id` in the name of `organization`. */
  ghost predicate AsksForJob(op: Operation, id: Id, job: Id, organization: Id) {
    (op.DoCreateJob? || op.DoBeginTrivy?) && op.id == id && op.job == job && op.organization == organization
  }

  /** A scan job that a step adds was asked for by the assessment's organisation. */
  lemma AddedJobIsAskedFor(st: State, op: Operation, id: Id, i: nat)
    requires Sound(st) && id in Step(st, op).db.rows
    requires i < |RecordOf(Step(st, op), id).jobs|
    requires id in st.db.rows ==> |RecordOf(st, id).jobs| <= i
    ensures AsksForJob(op, id, RecordOf(Step(st, op), id).jobs[i].id, Step(st, op).db.rows[id].organization)
  {
    if SubjectOf(op) != Some(id) {
      OtherRowsAreLeft(st, op, id);
      assert false;
    } else if id !in st.db.rows {
      NewRowHasNoJob(st, op);
      assert false;
    } else if op.DoCreateJob? || op.DoBeginTrivy? {
      JobIsAppended(st, op);
      StepsStayWithTheTenant(st, op, id);
    } else {
      OtherStepsAddNoJob(st, op);
      assert false;
    }
  }

  lemma NewRowHasNoJob(st: State, op: Operation)
    requires Sound(st) && SubjectOf(op).Some? && op.id !in st.db.rows && op.id in Step(st, op).db.rows
    ensures RecordOf(Step(st, op), op.id).jobs == []
  {
    if op.DoCreateAssessment? {
      var e := CreateAssessmentEffect(st, op);
    } else {
      var e := EffectOf(st, op);
      assert false;
    }
  }

  lemma OtherStepsAddNoJob(st: State, op: Operation)
    requires Sound(st) && Allowed(st, op) && SubjectOf(op).Some? && op.id in st.db.rows
    requires !op.DoCreateJob? && !op.DoBeginTrivy?
    ensures op.id in Perform(st, op).db.rows ==>
              |RecordOf(Perform(st, op), op.id).jobs| <= |RecordOf(st, op.id).jobs|
  {
    NoNewIdIsStored(st, op);
    var e := EffectOf(st, op);
    EffectAddsNoJob(st, Perform(st, op), e, op.id);
  }

  lemma EffectAddsNoJob(st: State, st': State, e: Effect, id: Id)
    requires Happened(st, st', e) && AddsNoJob(st, e) && id in st.db.rows
    ensures id in st'.db.rows ==> |RecordOf(st', id).jobs| <= |RecordOf(st, id).jobs|
  {
  }

  /** The row of `id` changed at most by job `job`, added at the end. */
  ghost predicate OneJobMore(st: State, st': State, id: Id, job: Id) {
    && id in st.db.rows && id in st'.db.rows
    && st'.db.rows[id].organization == st.db.rows[id].organization
    && |RecordOf(st', id).jobs| <= |RecordOf(st, id).jobs| + 1
    && forall i :: |RecordOf(st, id).jobs| <= i < |RecordOf(st', id).jobs| ==> RecordOf(st', id).jobs[i].id == job
  }

  lemma JobIsAppended(st: State, op: Operation)
    requires Sound(st) && Allowed(st, op) && (op.DoCreateJob? || op.DoBeginTrivy?) && op.id in st.db.rows
    ensures OneJobMore(st, Perform(st, op), op.id, op.job)
  {
    Identity(st, op.id);
    if op.DoCreateJob? {
      QueuedJobIsAppended(st, op);
    } else {
      TrivyJobIsAppended(st, op);
    }
  }

  lemma QueuedJobIsAppended(st: State, op: Operation)
    requires Allowed(st, op) && op.DoCreateJob? && op.id in st.db.rows && RecordOf(st, op.id).id == op.id
    ensures OneJobMore(st, Perform(st, op), op.id, op.job)
  {
    if CreateJob(st.db, op.id, Some(op.organization), op.request, op.job, op.confirmedBy, op.now).Ok? {
      var job := CreateJobWrites(st, op);
      AppendedJob(st, Perform(st, op), WithJob(RecordOf(st, op.id), job, op.now), job);
    }
  }

  lemma TrivyJobIsAppended(st: State, op: Operation)
    requires Allowed(st, op) && op.DoBeginTrivy? && op.id in st.db.rows && RecordOf(st, op.id).id == op.id
    ensures OneJobMore(st, Perform(st, op), op.id, op.job)
  {
    if BeginTrivy(st.db, op.id, Some(op.organization), op.target, op.webhookUrl, op.job, op.now).Ok? {
      var job := BeginTrivyWrites(st, op);
      AppendedJob(st, Perform(st, op), WithAddedJob(RecordOf(st, op.id), job, op.now), job);
    }
  }

  lemma AppendedJob(st: State, st': State, r: Record, job: ScanJob)
    requires r.id in st.db.rows && st'.db.rows == Saved(st.db.rows, r)
    requires r.jobs == RecordOf(st, r.id).jobs + [job]
    ensures OneJobMore(st, st', r.id, job.id)
  {
  }

  lemma KeptJob(st: State, op: Operation, id: Id, i: nat)
    requires Sound(st) && id in Step(st, op).db.rows && id in st.db.rows && i < |RecordOf(st, id).jobs|
    ensures i < |RecordOf(Step(st, op), id).jobs|
    ensures RecordOf(Step(st, op), id).jobs[i].id == RecordOf(st, id).jobs[i].id
    ensures Step(st, op).db.rows[id].organization == st.db.rows[id].organization
  {
    Identity(st, id);
    StepGrows(st, op, id);
    StepKeepsSound(st, op);
    assert RowIsSound(st, id) && RowIsSound(Step(st, op), id);
    assert Advances(RecordOf(st, id).jobs[i], RecordOf(Step(st, op), id).jobs[i]);
  }

  /** In every serial run each scan job was asked for, at some step `k`, in the name of the
      organisation that the assessment belongs to. */
  lemma {:induction false} JobsAreAskedFor(ops: seq<Operation>, id: Id, i: nat) returns (k: nat)
    requires id in Run(INITIAL, ops).db.rows && i < |RecordOf(Run(INITIAL, ops), id).jobs|
    ensures k < |ops|
    ensures AsksForJob(ops[k], id, RecordOf(Run(INITIAL, ops), id).jobs[i].id,
                       Run(INITIAL, ops).db.rows[id].organization)
  {
    var n := |ops| - 1;
    var st := Run(INITIAL, ops[..n]);
    RunsAreSound(ops[..n]);
    if id in st.db.rows && i < |RecordOf(st, id).jobs| {
      k := JobsAreAskedFor(ops[..n], id, i);
      KeptJob(st, ops[n], id, i);
    } else {
      k := n;
      AddedJobIsAskedFor(st, ops[n], id, i);
    }
  }

  /** The scan job a background step runs. */
  function ScannedJob(st: State, op: Operation): Option<Id> {
    match op
    case DoBeginJob(_, job, _) => Some(job)
    case DoFinishJob(id, _, _) =>
      if id in st.flights && st.flights[id].Scanning? && FlightFits(st.flights[id])
      then Some(st.flights[id].copy.jobs[st.flights[id].index].id) else None
    case _ => None
  }

  /** In every serial run, a scan that changes an assessment runs a job that the assessment's own
      organisation asked for on it. */
  lemma ScansStayWithTheTenant(ops: seq<Operation>, op: Operation, id: Id) returns (k: nat)
    requires op.DoBeginJob? || op.DoFinishJob?
    requires var st := Run(INITIAL, ops); !LeavesRow(st, Step(st, op), id)
    ensures var st := Run(INITIAL, ops);
            && k < |ops| && op.id == id && ScannedJob(st, op).Some?
            && AsksForJob(ops[k], id, ScannedJob(st, op).value, st.db.rows[id].organization)
  {
    var st := Run(INITIAL, ops);
    RunsAreSound(ops);
    StepsStayWithTheTenant(st, op, id);
    Identity(st, id);
    var i;
    if op.DoBeginJob? {
      i := JobIndex(RecordOf(st, id).jobs, op.job).value;
    } else {
      FlightIsStored(st, id);
      i := st.flights[id].index;
    }
    k := JobsAreAskedFor(ops, id, i);
  }
}
