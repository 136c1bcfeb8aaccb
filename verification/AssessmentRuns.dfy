/**
Whole runs of the assessment service. A run is serial per assessment: between the two writes of
an operation on one assessment, operations on other assessments may happen, but none that write
the same one. Ids are fresh and each queued job is executed once.
*/
module AssessmentRuns {
  import opened Prelude
  import opened IsoTimestamp
  import opened Assessments
  import opened AssessmentStore
  import opened ScanLifecycle
  import opened Plans
  import opened AssessmentOperations

  /** The database, the copies that operations in progress hold, and what has happened so far:
      finished jobs, ids given out, plans held, ids of synchronous Trivy jobs. No operation reads the
      latter. */
  datatype State = State(
    db: Database, flights: map<Id, Flight>,
    log: seq<Outcome>, issued: set<Id>, held: map<Id, set<Plan>>, synchronous: set<Id>)

  const INITIAL := State(Database(map[], map[], []), map[], [], {}, map[], {})

  datatype Operation =
    | DoCreateAssessment(id: Id, name: string, organization: Id, now: Timestamp)
    | DoDeleteAssessment(id: Id, organization: Id)
    | DoAddRepository(id: Id, organization: Id, repository: Repository, now: Timestamp)
    | DoDeleteRepository(id: Id, repositoryId: Id, organization: Id, now: Timestamp)
    | DoBeginIngest(id: Id, repositoryId: Id, now: Timestamp)
    | DoFinishIngest(id: Id, cloned: CloneResult, now: Timestamp)
    | DoCreateJob(id: Id, organization: Id, request: JobRequest, job: Id, confirmedBy: Option<string>, now: Timestamp)
    | DoBeginJob(id: Id, job: Id, now: Timestamp)
    | DoBeginTrivy(id: Id, organization: Id, target: string, webhookUrl: Option<string>, job: Id, now: Timestamp)
    | DoFinishJob(id: Id, result: AgentResult, now: Timestamp)
    | DoSetPlan(organization: Id, plan: Plan)

  function FlightOf(st: State, id: Id): Option<Flight> {
    if id in st.flights then Some(st.flights[id]) else None
  }

  function HeldBy(st: State, organization: Id): set<Plan> {
    if organization in st.held then st.held[organization] else {Free}
  }

  /** What serial runs with fresh ids allow next. */
  predicate Allowed(st: State, op: Operation) {
    match op
    case DoCreateAssessment(id, _, _, _) => id !in st.issued
    case DoCreateJob(id, _, _, job, _, _) => id !in st.flights && job !in st.issued
    case DoBeginTrivy(id, _, _, _, job, _) => id !in st.flights && job !in st.issued
    case DoBeginJob(id, job, _) => id !in st.flights && JobIsPending(st.db, id, job)
    case DoFinishJob(id, _, _) => id in st.flights && st.flights[id].Scanning?
    case DoFinishIngest(id, _, _) => id in st.flights && st.flights[id].Ingesting?
    case DoSetPlan(_, _) => true
    case _ => op.id !in st.flights
  }

  predicate JobIsPending(db: Database, id: Id, job: Id) {
    id in db.rows ==>
      match JobIndex(db.rows[id].payload.jobs, job)
      case None => true
      case Some(i) => db.rows[id].payload.jobs[i].status == Pending
  }

  function Issue(st: State, id: Id): State {
    st.(issued := st.issued + {id})
  }

  function Begin(st: State, id: Id, begun: Result<(Database, Flight), Error>): State {
    match begun
    case Err(_) => st
    case Ok(pair) => st.(db := pair.0, flights := st.flights[id := pair.1])
  }

  /** One operation; one that raises changes no assessment. */
  function Perform(st: State, op: Operation): State
    requires Allowed(st, op)
  {
    match op
    case DoCreateAssessment(id, name, organization, now) =>
      (match CreateAssessment(st.db, id, name, organization, now)
       case Err(_) => Issue(st, id)
       case Ok(db) => Issue(st.(db := db), id))
    case DoDeleteAssessment(id, organization) =>
      (match DeleteAssessment(st.db, id, Some(organization)) case Err(_) => st case Ok(db) => st.(db := db))
    case DoAddRepository(id, organization, repository, now) =>
      (match AddRepository(st.db, id, Some(organization), repository, now)
       case Err(_) => st case Ok(db) => st.(db := db))
    case DoDeleteRepository(id, repositoryId, organization, now) =>
      (match DeleteRepository(st.db, id, repositoryId, Some(organization), now)
       case Err(_) => st
       case Ok(db) => st.(db := db))
    case DoBeginIngest(id, repositoryId, now) => Begin(st, id, BeginIngest(st.db, id, repositoryId, now))
    case DoFinishIngest(id, cloned, now) =>
      if !FlightFits(st.flights[id]) then st
      else st.(db := FinishIngest(st.db, st.flights[id], cloned, now), flights := st.flights - {id})
    case DoCreateJob(id, organization, request, job, confirmedBy, now) =>
      (match CreateJob(st.db, id, Some(organization), request, job, confirmedBy, now)
       case Err(_) => Issue(st, job)
       case Ok(db) => Issue(st.(db := db), job))
    case DoBeginJob(id, job, now) => Begin(st, id, BeginJob(st.db, id, job, now))
    case DoBeginTrivy(id, organization, target, webhookUrl, job, now) =>
      var begun := BeginTrivy(st.db, id, Some(organization), target, webhookUrl, job, now);
      var noted := st.(synchronous := st.synchronous + {job});
      Issue(if begun.Ok? then Begin(noted, id, begun) else st, job)
    case DoFinishJob(id, result, now) =>
      var f := st.flights[id];
      if !FlightFits(f) then st
      else st.(db := FinishJob(st.db, f, result, now), flights := st.flights - {id},
               log := st.log + [Outcome(f.copy.id, f.copy.jobs[f.index].id, result)])
    case DoSetPlan(organization, plan) =>
      st.(db := st.db.(plans := st.db.plans[organization := plan]),
          held := st.held[organization := HeldBy(st, organization) + {plan}])
  }

  /** In a serial run an operation that is not allowed does not happen. */
  function Step(st: State, op: Operation): State {
    if Allowed(st, op) then Perform(st, op) else st
  }

  function Run(st: State, ops: seq<Operation>): State {
    if ops == [] then st else Step(Run(st, ops[..|ops| - 1]), ops[|ops| - 1])
  }

  lemma {:induction false} RunConcat(ops: seq<Operation>, more: seq<Operation>)
    ensures Run(INITIAL, ops + more) == Run(Run(INITIAL, ops), more)
  {
    if more == [] {
      assert ops + more == ops;
    } else {
      RunConcat(ops, more[..|more| - 1]);
      assert (ops + more)[..|ops + more| - 1] == ops + more[..|more| - 1];
    }
  }

  // ----- the invariant of the rows

  /** The finished jobs of one assessment. */
  function LogFor(log: seq<Outcome>, id: Id): seq<Outcome> {
    if log == [] then [] else
      var last := log[|log| - 1];
      LogFor(log[..|log| - 1], id) + if last.assessment == id then [last] else []
  }

  function ViewOf(st: State, id: Id): View
    requires id in st.db.rows
  {
    View(st.db.rows[id].payload, FlightOf(st, id), LogFor(st.log, id))
  }

  ghost predicate RowIsSound(st: State, id: Id) {
    id in st.db.rows ==>
      && id in st.issued
      && RowAgrees(id, st.db.rows[id])
      && JobsAreIssued(st.db.rows[id].payload, st.issued)
      && Good(ViewOf(st, id))
  }

  ghost predicate JobsAreIssued(r: Record, issued: set<Id>) {
    forall i :: 0 <= i < |r.jobs| ==> r.jobs[i].id in issued
  }

  ghost predicate Sound(st: State) {
    && (forall id :: RowIsSound(st, id))
    && st.flights.Keys <= st.db.rows.Keys
    && (forall k :: 0 <= k < |st.log| ==> st.log[k].assessment in st.issued)
  }

  /** A step that writes one assessment: its record, its flight and what it logs. */
  ghost predicate Writes(st: State, st': State, r: Record, flight: Option<Flight>, new_: seq<Outcome>) {
    && st'.db.rows == Saved(st.db.rows, r)
    && FlightOf(st', r.id) == flight
    && st'.flights.Keys <= st.flights.Keys + {r.id}
    && (forall id :: id != r.id ==> FlightOf(st', id) == FlightOf(st, id))
    && st'.log == st.log + new_
    && (forall k :: 0 <= k < |new_| ==> new_[k].assessment == r.id)
    && st.issued <= st'.issued
  }

  lemma {:induction false} LogForConcat(a: seq<Outcome>, b: seq<Outcome>, id: Id)
    ensures LogFor(a + b, id) == LogFor(a, id) + LogFor(b, id)
  {
    if b == [] {
      assert a + b == a;
    } else {
      LogForConcat(a, b[..|b| - 1], id);
      assert (a + b)[..|a + b| - 1] == a + b[..|b| - 1];
    }
  }

  lemma {:induction false} LogForAll(b: seq<Outcome>, id: Id)
    ensures (forall k :: 0 <= k < |b| ==> b[k].assessment == id) ==> LogFor(b, id) == b
    ensures (forall k :: 0 <= k < |b| ==> b[k].assessment != id) ==> LogFor(b, id) == []
  {
    if b != [] {
      LogForAll(b[..|b| - 1], id);
    }
  }

  /** If the one assessment written is good afterwards, the whole state stays sound. */
  lemma WritingKeepsSound(st: State, st': State, r: Record, flight: Option<Flight>, new_: seq<Outcome>)
    requires Sound(st) && Writes(st, st', r, flight, new_)
    requires r.id in st'.issued && JobsAreIssued(r, st'.issued)
    requires r.id in st.db.rows ==> r.organization == st.db.rows[r.id].payload.organization
                                    && r.createdAt == st.db.rows[r.id].payload.createdAt
    requires Good(View(r, flight, LogFor(st.log, r.id) + new_))
    ensures Sound(st')
  {
    assert forall k :: 0 <= k < |st.log| ==> st.log[k].assessment in st'.issued;
    WrittenRowIsSound(st, st', r, flight, new_);
    forall id
      ensures RowIsSound(st', id)
    {
      if id != r.id {
        OtherRowStaysSound(st, st', r, flight, new_, id);
      }
    }
  }

  lemma OtherRowStaysSound(st: State, st': State, r: Record, flight: Option<Flight>, new_: seq<Outcome>, id: Id)
    requires Sound(st) && Writes(st, st', r, flight, new_) && id != r.id
    ensures RowIsSound(st', id)
  {
    assert RowIsSound(st, id);
    if id in st.db.rows {
      LogForConcat(st.log, new_, id);
      LogForAll(new_, id);
      assert LogFor(st.log, id) + [] == LogFor(st.log, id);
      assert ViewOf(st', id) == ViewOf(st, id);
    }
  }

  lemma WrittenRowIsSound(st: State, st': State, r: Record, flight: Option<Flight>, new_: seq<Outcome>)
    requires Sound(st) && Writes(st, st', r, flight, new_)
    requires r.id in st'.issued && JobsAreIssued(r, st'.issued)
    requires r.id in st.db.rows ==> r.organization == st.db.rows[r.id].payload.organization
                                    && r.createdAt == st.db.rows[r.id].payload.createdAt
    requires Good(View(r, flight, LogFor(st.log, r.id) + new_))
    ensures RowIsSound(st', r.id)
  {
    assert RowIsSound(st, r.id);
    LogForConcat(st.log, new_, r.id);
    LogForAll(new_, r.id);
    assert ViewOf(st', r.id) == View(r, flight, LogFor(st.log, r.id) + new_);
    if r.id in st.db.rows {
      UpdatedRowAgreesIff(st.db.rows[r.id], r);
    }
  }

  // ----- every operation keeps the rows sound

  lemma NewJobIsNew(st: State, id: Id, job: Id)
    requires Sound(st) && id in st.db.rows && job !in st.issued
    ensures !HasJob(st.db.rows[id].payload, job)
  {
    assert RowIsSound(st, id);
  }

  lemma CreateAssessmentKeepsSound(st: State, op: Operation)
    requires Sound(st) && op.DoCreateAssessment? && Allowed(st, op)
    ensures Sound(Perform(st, op))
  {
    var st' := Perform(st, op);
    assert RowIsSound(st, op.id);
    if CreateAssessment(st.db, op.id, op.name, op.organization, op.now).Ok? {
      var r := NewRecord(op.id, op.name, op.organization, op.now);
      NewAssessmentIsGood(op.id, op.name, op.organization, op.now);
      NothingLogged(st.log, op.id);
      WritingKeepsSound(st, st', r, None, []);
    } else {
      IssuingKeepsSound(st, op.id);
    }
  }

  lemma {:induction false} NothingLogged(log: seq<Outcome>, id: Id)
    requires forall k :: 0 <= k < |log| ==> log[k].assessment != id
    ensures LogFor(log, id) == []
  {
    LogForAll(log, id);
  }

  lemma IssuingKeepsSound(st: State, id: Id)
    requires Sound(st)
    ensures Sound(Issue(st, id))
  {
    forall other
      ensures RowIsSound(Issue(st, id), other)
    {
      assert RowIsSound(st, other);
      if other in st.db.rows {
        assert ViewOf(Issue(st, id), other) == ViewOf(st, other);
      }
    }
  }

  lemma DeleteAssessmentKeepsSound(st: State, op: Operation)
    requires Sound(st) && op.DoDeleteAssessment? && Allowed(st, op)
    ensures Sound(Perform(st, op))
  {
    var st' := Perform(st, op);
    forall id
      ensures RowIsSound(st', id)
    {
      assert RowIsSound(st, id);
      if id in st'.db.rows {
        assert ViewOf(st', id) == ViewOf(st, id);
      }
    }
  }

  lemma RepositoryStepKeepsSound(st: State, st': State, id: Id, repositories: seq<Repository>,
                                 index: Option<nat>, now: Timestamp)
    requires Sound(st) && id in st.db.rows
    requires id in st.flights ==> st.flights[id].Ingesting?
    requires index.Some? ==> index.value < |repositories|
    requires var r := WithRepositories(st.db.rows[id].payload, repositories, now);
             Writes(st, st', r, if index.Some? then Some(Ingesting(r, index.value)) else None, [])
    ensures Sound(st')
  {
    assert RowIsSound(st, id);
    var v, r := ViewOf(st, id), WithRepositories(st.db.rows[id].payload, repositories, now);
    RepositoriesKeepGood(v, repositories, now);
    assert v.log + [] == v.log;
    WritingKeepsSound(st, st', r, if index.Some? then Some(Ingesting(r, index.value)) else None, []);
  }

  /** The stored copy of `id`, and what soundness says of its identity. */
  function RecordOf(st: State, id: Id): Record
    requires id in st.db.rows
  {
    st.db.rows[id].payload
  }

  lemma Identity(st: State, id: Id)
    requires Sound(st) && id in st.db.rows
    ensures RecordOf(st, id).id == id && id in st.issued && JobsAreIssued(RecordOf(st, id), st.issued)
    ensures Good(ViewOf(st, id))
  {
    assert RowIsSound(st, id);
  }

  lemma RepositoryOperationWrites(st: State, op: Operation) returns (repositories: seq<Repository>, index: Option<nat>)
    requires Allowed(st, op) && (op.DoAddRepository? || op.DoDeleteRepository? || op.DoBeginIngest?)
    requires op.id in st.db.rows && RecordOf(st, op.id).id == op.id && Perform(st, op) != st
    ensures index.Some? ==> index.value < |repositories|
    ensures var r := WithRepositories(RecordOf(st, op.id), repositories, op.now);
            Writes(st, Perform(st, op), r, if index.Some? then Some(Ingesting(r, index.value)) else None, [])
  {
    if op.DoAddRepository? {
      repositories := AddRepositoryWrites(st, op);
      index := None;
    } else if op.DoDeleteRepository? {
      repositories := DeleteRepositoryWrites(st, op);
      index := None;
    } else {
      var i;
      repositories, i := BeginIngestWrites(st, op);
      index := Some(i);
    }
  }

  lemma AddRepositoryWrites(st: State, op: Operation) returns (repositories: seq<Repository>)
    requires Allowed(st, op) && op.DoAddRepository?
    requires op.id in st.db.rows && RecordOf(st, op.id).id == op.id && Perform(st, op) != st
    ensures Writes(st, Perform(st, op), WithRepositories(RecordOf(st, op.id), repositories, op.now), None, [])
  {
    repositories := RecordOf(st, op.id).repositories + [op.repository];
  }

  lemma DeleteRepositoryWrites(st: State, op: Operation) returns (repositories: seq<Repository>)
    requires Allowed(st, op) && op.DoDeleteRepository?
    requires op.id in st.db.rows && RecordOf(st, op.id).id == op.id && Perform(st, op) != st
    ensures Writes(st, Perform(st, op), WithRepositories(RecordOf(st, op.id), repositories, op.now), None, [])
  {
    var r := RecordOf(st, op.id);
    var i := RepositoryIndex(r.repositories, op.repositoryId).value;
    repositories := r.repositories[..i] + r.repositories[i + 1..];
  }

  lemma BeginIngestWrites(st: State, op: Operation) returns (repositories: seq<Repository>, i: nat)
    requires Allowed(st, op) && op.DoBeginIngest?
    requires op.id in st.db.rows && RecordOf(st, op.id).id == op.id && Perform(st, op) != st
    ensures i < |repositories|
    ensures var r := WithRepositories(RecordOf(st, op.id), repositories, op.now);
            Writes(st, Perform(st, op), r, Some(Ingesting(r, i)), [])
  {
    var r := RecordOf(st, op.id);
    i := RepositoryIndex(r.repositories, op.repositoryId).value;
    repositories := r.repositories[i := r.repositories[i].(status := Cloning)];
  }

  lemma RepositoryOperationsKeepSound(st: State, op: Operation)
    requires Sound(st) && Allowed(st, op)
    requires op.DoAddRepository? || op.DoDeleteRepository? || op.DoBeginIngest?
    ensures Sound(Perform(st, op))
  {
    if Perform(st, op) != st {
      Identity(st, op.id);
      var repositories, index := RepositoryOperationWrites(st, op);
      RepositoryStepKeepsSound(st, Perform(st, op), op.id, repositories, index, op.now);
    }
  }

  lemma FinishIngestKeepsSound(st: State, op: Operation)
    requires Sound(st) && op.DoFinishIngest? && Allowed(st, op)
    ensures Sound(Perform(st, op))
  {
    Identity(st, op.id);
    var f := st.flights[op.id];
    assert ViewOf(st, op.id).flight == Some(f);
    RepositoryStepKeepsSound(st, Perform(st, op), op.id,
                             f.copy.repositories[f.index := Ingested(f.copy.repositories[f.index], op.cloned)],
                             None, op.now);
  }

  /** A step that writes a stored assessment and leaves its identity alone. */
  lemma UpdateKeepsSound(st: State, st': State, id: Id, r: Record, flight: Option<Flight>, new_: seq<Outcome>)
    requires Sound(st) && id in st.db.rows && Writes(st, st', r, flight, new_)
    requires Grows(RecordOf(st, id), r) && JobsAreIssued(r, st'.issued)
    requires Good(View(r, flight, ViewOf(st, id).log + new_))
    ensures Sound(st')
  {
    Identity(st, id);
    WritingKeepsSound(st, st', r, flight, new_);
  }

  lemma CreateJobWrites(st: State, op: Operation) returns (job: ScanJob)
    requires op.DoCreateJob? && Allowed(st, op)
    requires op.id in st.db.rows && RecordOf(st, op.id).id == op.id
    requires CreateJob(st.db, op.id, Some(op.organization), op.request, op.job, op.confirmedBy, op.now).Ok?
    ensures job.id == op.job && job.status == Pending
    ensures Writes(st, Perform(st, op), WithJob(RecordOf(st, op.id), job, op.now), None, [])
    ensures Perform(st, op).issued == st.issued + {op.job}
  {
    job := PendingJob(op.request, TargetOf(RecordOf(st, op.id), op.request).value, op.job, op.confirmedBy, op.now);
  }

  lemma CreateJobKeepsSound(st: State, op: Operation)
    requires Sound(st) && op.DoCreateJob? && Allowed(st, op)
    ensures Sound(Perform(st, op))
  {
    if CreateJob(st.db, op.id, Some(op.organization), op.request, op.job, op.confirmedBy, op.now).Ok? {
      Identity(st, op.id);
      var job := CreateJobWrites(st, op);
      QueuedJobKeepsSound(st, Perform(st, op), op.id, job, op.now);
    } else {
      IssuingKeepsSound(st, op.job);
    }
  }

  lemma QueuedJobKeepsSound(st: State, st': State, id: Id, job: ScanJob, now: Timestamp)
    requires Sound(st) && id in st.db.rows && id !in st.flights
    requires job.status == Pending && job.id !in st.issued && st'.issued == st.issued + {job.id}
    requires Writes(st, st', WithJob(RecordOf(st, id), job, now), None, [])
    ensures Sound(st')
  {
    Identity(st, id);
    var v := ViewOf(st, id);
    NewJobIsNew(st, id, job.id);
    QueueKeepsGood(v, job, now);
    assert v.log + [] == v.log;
    UpdateKeepsSound(st, st', id, WithJob(v.record, job, now), None, []);
  }

  lemma BeginJobWrites(st: State, op: Operation) returns (i: nat)
    requires op.DoBeginJob? && Allowed(st, op)
    requires op.id in st.db.rows && RecordOf(st, op.id).id == op.id
    requires BeginJob(st.db, op.id, op.job, op.now).Ok?
    ensures i < |RecordOf(st, op.id).jobs| && RecordOf(st, op.id).jobs[i].status == Pending
    ensures var r := Begun(RecordOf(st, op.id), i, op.now);
            Writes(st, Perform(st, op), r, Some(Scanning(r, i)), []) && Perform(st, op).issued == st.issued
  {
    i := JobIndex(RecordOf(st, op.id).jobs, op.job).value;
  }

  lemma BeginJobKeepsSound(st: State, op: Operation)
    requires Sound(st) && op.DoBeginJob? && Allowed(st, op)
    ensures Sound(Perform(st, op))
  {
    if BeginJob(st.db, op.id, op.job, op.now).Ok? {
      Identity(st, op.id);
      var i := BeginJobWrites(st, op);
      BegunJobKeepsSound(st, Perform(st, op), op.id, i, op.now);
    }
  }

  lemma BegunJobKeepsSound(st: State, st': State, id: Id, i: nat, now: Timestamp)
    requires Sound(st) && id in st.db.rows && id !in st.flights && st'.issued == st.issued
    requires i < |RecordOf(st, id).jobs| && RecordOf(st, id).jobs[i].status == Pending
    requires var r := Begun(RecordOf(st, id), i, now); Writes(st, st', r, Some(Scanning(r, i)), [])
    ensures Sound(st')
  {
    Identity(st, id);
    var v, r := ViewOf(st, id), Begun(RecordOf(st, id), i, now);
    BeginKeepsGood(v, i, now);
    assert v.log + [] == v.log;
    UpdateKeepsSound(st, st', id, r, Some(Scanning(r, i)), []);
  }

  lemma BeginTrivyWrites(st: State, op: Operation) returns (job: ScanJob)
    requires op.DoBeginTrivy? && Allowed(st, op)
    requires op.id in st.db.rows && RecordOf(st, op.id).id == op.id
    requires BeginTrivy(st.db, op.id, Some(op.organization), op.target, op.webhookUrl, op.job, op.now).Ok?
    ensures job.id == op.job && job.status == Running && !job.confirmed
    ensures var r := WithAddedJob(RecordOf(st, op.id), job, op.now);
            && Writes(st, Perform(st, op), r, Some(Scanning(r, |RecordOf(st, op.id).jobs|)), [])
            && Perform(st, op).issued == st.issued + {op.job}
  {
    job := RunningJob(op.target, op.webhookUrl, op.job, op.now);
  }

  lemma BeginTrivyKeepsSound(st: State, op: Operation)
    requires Sound(st) && op.DoBeginTrivy? && Allowed(st, op)
    ensures Sound(Perform(st, op))
  {
    if BeginTrivy(st.db, op.id, Some(op.organization), op.target, op.webhookUrl, op.job, op.now).Ok? {
      Identity(st, op.id);
      var job := BeginTrivyWrites(st, op);
      RunningJobKeepsSound(st, Perform(st, op), op.id, job, op.now);
    } else {
      IssuingKeepsSound(st, op.job);
    }
  }

  lemma RunningJobKeepsSound(st: State, st': State, id: Id, job: ScanJob, now: Timestamp)
    requires Sound(st) && id in st.db.rows && id !in st.flights
    requires job.status == Running && job.id !in st.issued && st'.issued == st.issued + {job.id}
    requires var r := WithAddedJob(RecordOf(st, id), job, now);
             Writes(st, st', r, Some(Scanning(r, |RecordOf(st, id).jobs|)), [])
    ensures Sound(st')
  {
    Identity(st, id);
    var v, r := ViewOf(st, id), WithAddedJob(RecordOf(st, id), job, now);
    NewJobIsNew(st, id, job.id);
    TrivyBeginKeepsGood(v, job, now);
    assert v.log + [] == v.log;
    UpdateKeepsSound(st, st', id, r, Some(Scanning(r, |v.record.jobs|)), []);
  }

  lemma FinishJobWrites(st: State, op: Operation)
    requires op.DoFinishJob? && Allowed(st, op) && op.id in st.db.rows
    requires FlightFits(st.flights[op.id]) && st.flights[op.id].copy.id == op.id
    ensures var f := st.flights[op.id];
            && Writes(st, Perform(st, op), Finished(f.copy, f.index, op.result, op.now), None,
                      [Outcome(op.id, f.copy.jobs[f.index].id, op.result)])
            && Perform(st, op).issued == st.issued
  {
  }

  lemma FinishJobKeepsSound(st: State, op: Operation)
    requires Sound(st) && op.DoFinishJob? && Allowed(st, op)
    ensures Sound(Perform(st, op))
  {
    FlightIsStored(st, op.id);
    FinishJobWrites(st, op);
    FinishedJobKeepsSound(st, Perform(st, op), op.id, op.result, op.now);
  }

  lemma FlightIsStored(st: State, id: Id)
    requires Sound(st) && id in st.flights
    ensures id in st.db.rows && FlightFits(st.flights[id])
    ensures st.flights[id].copy == RecordOf(st, id) && RecordOf(st, id).id == id
    ensures st.flights[id].Scanning? ==> RecordOf(st, id).jobs[st.flights[id].index].status == Running
  {
    Identity(st, id);
    assert ViewOf(st, id).flight == Some(st.flights[id]);
  }

  lemma FinishedJobKeepsSound(st: State, st': State, id: Id, result: AgentResult, now: Timestamp)
    requires Sound(st) && id in st.flights && st.flights[id].Scanning? && FlightFits(st.flights[id])
    requires st'.issued == st.issued
    requires var f := st.flights[id];
             Writes(st, st', Finished(f.copy, f.index, result, now), None,
                    [Outcome(id, f.copy.jobs[f.index].id, result)])
    ensures Sound(st')
  {
    Identity(st, id);
    FlightIsStored(st, id);
    var v, f := ViewOf(st, id), st.flights[id];
    var r := Finished(f.copy, f.index, result, now);
    FinishIsGrowth(v.record, f.index, result, now, st.issued);
    FinishKeepsGood(v, result, now);
    UpdateKeepsSound(st, st', id, r, None, [Outcome(id, f.copy.jobs[f.index].id, result)]);
  }

  lemma FinishIsGrowth(r: Record, i: nat, result: AgentResult, now: Timestamp, issued: set<Id>)
    requires i < |r.jobs| && r.jobs[i].status == Running && JobsAreIssued(r, issued)
    ensures Grows(r, Finished(r, i, result, now)) && JobsAreIssued(Finished(r, i, result, now), issued)
  {
  }

  lemma SetPlanKeepsSound(st: State, op: Operation)
    requires Sound(st) && op.DoSetPlan?
    ensures Sound(Perform(st, op))
  {
    forall id
      ensures RowIsSound(Perform(st, op), id)
    {
      assert RowIsSound(st, id);
      if id in st.db.rows {
        assert ViewOf(Perform(st, op), id) == ViewOf(st, id);
      }
    }
  }

  lemma StepKeepsSound(st: State, op: Operation)
    requires Sound(st)
    ensures Sound(Step(st, op))
  {
    if Allowed(st, op) {
      match op
      case DoCreateAssessment(_, _, _, _) => CreateAssessmentKeepsSound(st, op);
      case DoDeleteAssessment(_, _) => DeleteAssessmentKeepsSound(st, op);
      case DoAddRepository(_, _, _, _) => RepositoryOperationsKeepSound(st, op);
      case DoDeleteRepository(_, _, _, _) => RepositoryOperationsKeepSound(st, op);
      case DoBeginIngest(_, _, _) => RepositoryOperationsKeepSound(st, op);
      case DoFinishIngest(_, _, _) => FinishIngestKeepsSound(st, op);
      case DoCreateJob(_, _, _, _, _, _) => CreateJobKeepsSound(st, op);
      case DoBeginJob(_, _, _) => BeginJobKeepsSound(st, op);
      case DoBeginTrivy(_, _, _, _, _, _) => BeginTrivyKeepsSound(st, op);
      case DoFinishJob(_, _, _) => FinishJobKeepsSound(st, op);
      case DoSetPlan(_, _) => SetPlanKeepsSound(st, op);
    }
  }

  /** In every serial run the columns of every row say what its payload says. */
  lemma ColumnsAgreeInRuns(ops: seq<Operation>)
    ensures ColumnsAgree(Run(INITIAL, ops).db.rows)
  {
    RunsAreSound(ops);
    forall id | id in Run(INITIAL, ops).db.rows
      ensures RowAgrees(id, Run(INITIAL, ops).db.rows[id])
    {
      assert RowIsSound(Run(INITIAL, ops), id);
    }
  }

  lemma {:induction false} RunsAreSound(ops: seq<Operation>)
    ensures Sound(Run(INITIAL, ops))
  {
    if ops != [] {
      RunsAreSound(ops[..|ops| - 1]);
      StepKeepsSound(Run(INITIAL, ops[..|ops| - 1]), ops[|ops| - 1]);
    }
  }
}
