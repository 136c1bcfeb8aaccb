/** Plan limits over whole runs: usage never outgrows the most generous plan ever held. */
module AssessmentQuotas {
  import opened Prelude
  import opened Assessments
  import opened AssessmentStore
  import opened ScanLifecycle
  import opened Plans
  import opened AssessmentOperations
  import opened AssessmentRuns
  import opened AssessmentHistory

  // ----- counting scan jobs

  /** The scan jobs of some assessments, one element each. */
  ghost function Slots(rows: Table, ids: set<Id>): set<(Id, nat)>
    requires ids <= rows.Keys
  {
    set id, i: nat | id in ids && i < |rows[id].payload.jobs| :: (id, i)
  }

  ghost function OwnSlots(id: Id, n: nat): set<(Id, nat)> {
    set i: nat | i < n :: (id, i)
  }

  lemma {:induction false} OwnSlotsCount(id: Id, n: nat)
    ensures |OwnSlots(id, n)| == n
  {
    if n == 0 {
      assert OwnSlots(id, n) == {};
    } else {
      OwnSlotsCount(id, n - 1);
      assert OwnSlots(id, n) == OwnSlots(id, n - 1) + {(id, n - 1)};
    }
  }

  lemma SlotsOfOneMore(rows: Table, ids: set<Id>, id: Id)
    requires ids <= rows.Keys && id in rows && id !in ids
    ensures |Slots(rows, ids + {id})| == |Slots(rows, ids)| + |rows[id].payload.jobs|
  {
    var own := OwnSlots(id, |rows[id].payload.jobs|);
    OwnSlotsCount(id, |rows[id].payload.jobs|);
    assert Slots(rows, ids + {id}) == Slots(rows, ids) + own;
    assert Slots(rows, ids) !! own;
  }

  lemma SumOfLast(rows: Table, init: seq<Id>, last: Id)
    requires last in rows && forall id :: id in init ==> id in rows
    ensures forall id :: id in init + [last] ==> id in rows
    ensures SumJobs(Payloads(rows, init + [last])) == SumJobs(Payloads(rows, init)) + |rows[last].payload.jobs|
  {
    var all := Payloads(rows, init + [last]);
    assert all[..|all| - 1] == Payloads(rows, init);
  }

  lemma {:induction false} SumIsSlots(rows: Table, order: seq<Id>)
    requires Distinct(order) && forall id :: id in order ==> id in rows
    ensures SumJobs(Payloads(rows, order)) == |Slots(rows, Elems(order))|
  {
    if order == [] {
      assert Slots(rows, Elems(order)) == {};
    } else {
      var init, last := order[..|order| - 1], order[|order| - 1];
      assert order == init + [last];
      SumIsSlots(rows, init);
      SumOfLast(rows, init, last);
      assert Elems(order) == Elems(init) + {last};
      SlotsOfOneMore(rows, Elems(init), last);
    }
  }

  ghost function JobsHeld(db: Database, organization: Id): nat {
    |Slots(db.rows, Selected(db.rows, Some(organization)))|
  }

  /** The sum over the listing that the quota check computes. */
  lemma JobsUsedAreHeld(db: Database, organization: Id)
    ensures ScanJobsUsed(db, organization) == JobsHeld(db, organization)
  {
    var ids := Selected(db.rows, Some(organization));
    OrderedIsListing(db.rows, ids);
    OrderedAreSelected(db.rows, Some(organization));
    SumIsSlots(db.rows, Ordered(db.rows, ids));
  }

  /** The scan jobs of an organisation that count: all but those of synchronous Trivy scans. */
  ghost function Counted(st: State, organization: Id): set<(Id, nat)> {
    set slot | slot in Slots(st.db.rows, Selected(st.db.rows, Some(organization)))
               && st.db.rows[slot.0].payload.jobs[slot.1].id !in st.synchronous
  }

  lemma CountedAreHeld(st: State, organization: Id)
    ensures |Counted(st, organization)| <= JobsHeld(st.db, organization)
  {
    Smaller(Counted(st, organization), Slots(st.db.rows, Selected(st.db.rows, Some(organization))));
  }

  lemma {:induction false} Smaller<T>(a: set<T>, b: set<T>)
    requires a <= b
    ensures |a| <= |b|
  {
    if a != {} {
      var x :| x in a;
      Smaller(a - {x}, b - {x});
    }
  }

  // ----- how one step changes the usage

  lemma UpdateSelects(rows: Table, r: Record, organization: Option<Id>)
    requires r.id in rows
    ensures Selected(Saved(rows, r), organization) == Selected(rows, organization)
  {
  }

  /** A stored record is saved with the same jobs, and perhaps one more. */
  ghost predicate Updates(st: State, st': State, r: Record) {
    && r.id in st.db.rows && st'.db.rows == Saved(st.db.rows, r)
    && st.synchronous <= st'.synchronous
    && |RecordOf(st, r.id).jobs| <= |r.jobs| <= |RecordOf(st, r.id).jobs| + 1
    && forall i :: 0 <= i < |RecordOf(st, r.id).jobs| ==> r.jobs[i].id == RecordOf(st, r.id).jobs[i].id
  }

  /** The job added, if it counts for the organisation. */
  ghost function NewSlot(st: State, st': State, r: Record, organization: Id): set<(Id, nat)>
    requires r.id in st.db.rows
  {
    var n := |RecordOf(st, r.id).jobs|;
    if n < |r.jobs| && st.db.rows[r.id].organization == organization && r.jobs[n].id !in st'.synchronous
    then {(r.id, n)} else {}
  }

  lemma UpdateCounts(st: State, st': State, r: Record, organization: Id)
    requires Updates(st, st', r)
    ensures AssessmentsUsed(st'.db, organization) == AssessmentsUsed(st.db, organization)
    ensures Counted(st', organization) <= Counted(st, organization) + NewSlot(st, st', r, organization)
  {
    UpdateSelects(st.db.rows, r, Some(organization));
    forall slot | slot in Counted(st', organization)
      ensures slot in Counted(st, organization) + NewSlot(st, st', r, organization)
    {
      if slot.0 != r.id {
        assert st'.db.rows[slot.0] == st.db.rows[slot.0];
      } else {
        UpdatedSlot(st, st', r, organization, slot.1);
      }
    }
  }

  lemma UpdatedSlot(st: State, st': State, r: Record, organization: Id, i: nat)
    requires Updates(st, st', r) && (r.id, i) in Counted(st', organization)
    ensures (r.id, i) in Counted(st, organization) || (r.id, i) in NewSlot(st, st', r, organization)
  {
    assert st'.db.rows[r.id].payload == r && st'.db.rows[r.id].organization == st.db.rows[r.id].organization;
    if i < |RecordOf(st, r.id).jobs| {
      assert (r.id, i) in Slots(st.db.rows, Selected(st.db.rows, Some(organization)));
    }
  }

  lemma CreationSelects(rows: Table, r: Record, organization: Id)
    requires r.id !in rows
    ensures Selected(Saved(rows, r), Some(organization))
         == Selected(rows, Some(organization)) + if r.organization == organization then {r.id} else {}
  {
  }

  lemma CreationCounts(st: State, st': State, r: Record, organization: Id)
    requires r.id !in st.db.rows && r.jobs == []
    requires st'.db.rows == Saved(st.db.rows, r) && st'.synchronous == st.synchronous
    ensures AssessmentsUsed(st'.db, organization)
         == AssessmentsUsed(st.db, organization) + if r.organization == organization then 1 else 0
    ensures Counted(st', organization) <= Counted(st, organization)
  {
    CreationSelects(st.db.rows, r, organization);
    assert r.id !in Selected(st.db.rows, Some(organization));
  }

  lemma RemovalCounts(st: State, st': State, id: Id, organization: Id)
    requires st'.db.rows == st.db.rows - {id} && st'.synchronous == st.synchronous
    ensures AssessmentsUsed(st'.db, organization) <= AssessmentsUsed(st.db, organization)
    ensures Counted(st', organization) <= Counted(st, organization)
  {
    Smaller(Selected(st'.db.rows, Some(organization)), Selected(st.db.rows, Some(organization)));
  }

  // ----- the limits

  datatype Resource = AssessmentCount | ScanJobCount

  function Limit(p: Plan, of: Resource): Option<nat> {
    match of case AssessmentCount => MaxAssessments(p) case ScanJobCount => MaxScanJobs(p)
  }

  predicate Allows(p: Plan, of: Resource, count: nat) {
    Limit(p, of).None? || count <= Limit(p, of).value
  }

  /** `count` is within the largest limit among `plans`. */
  ghost predicate WithinSomePlan(plans: set<Plan>, of: Resource, count: nat) {
    exists p :: p in plans && Allows(p, of, count)
  }

  ghost predicate QuotasKept(st: State, organization: Id) {
    && PlanOf(st.db, organization) in HeldBy(st, organization)
    && (organization != NIL_ORGANIZATION ==>
          && WithinSomePlan(HeldBy(st, organization), AssessmentCount, AssessmentsUsed(st.db, organization))
          && WithinSomePlan(HeldBy(st, organization), ScanJobCount, |Counted(st, organization)|))
  }

  /** The usage shrinks, or is what the plan allows. */
  ghost predicate UsageIsAllowed(st: State, st': State, organization: Id) {
    var plan := PlanOf(st'.db, organization);
    && (|| AssessmentsUsed(st'.db, organization) <= AssessmentsUsed(st.db, organization)
        || Allows(plan, AssessmentCount, AssessmentsUsed(st'.db, organization)))
    && (|| Counted(st', organization) <= Counted(st, organization)
        || Allows(plan, ScanJobCount, |Counted(st', organization)|))
  }

  lemma WithinGrows(plans: set<Plan>, of: Resource, count: nat, plans': set<Plan>, count': nat)
    requires WithinSomePlan(plans, of, count) && plans <= plans' && count' <= count
    ensures WithinSomePlan(plans', of, count')
  {
    var p :| p in plans && Allows(p, of, count);
    assert Allows(p, of, count');
  }

  lemma UsageKeepsQuotas(st: State, st': State, organization: Id)
    requires QuotasKept(st, organization)
    requires PlanOf(st'.db, organization) in HeldBy(st', organization)
    requires HeldBy(st, organization) <= HeldBy(st', organization)
    requires organization != NIL_ORGANIZATION ==> UsageIsAllowed(st, st', organization)
    ensures QuotasKept(st', organization)
  {
    if organization != NIL_ORGANIZATION {
      var held, held' := HeldBy(st, organization), HeldBy(st', organization);
      if AssessmentsUsed(st'.db, organization) <= AssessmentsUsed(st.db, organization) {
        WithinGrows(held, AssessmentCount, AssessmentsUsed(st.db, organization),
                    held', AssessmentsUsed(st'.db, organization));
      }
      if Counted(st', organization) <= Counted(st, organization) {
        Smaller(Counted(st', organization), Counted(st, organization));
        WithinGrows(held, ScanJobCount, |Counted(st, organization)|, held', |Counted(st', organization)|);
      }
    }
  }

  // ----- every operation keeps within them

  ghost predicate SamePlans(st: State, st': State) {
    st'.db.plans == st.db.plans && st'.held == st.held
  }

  /** Assessment `r` was created within the limit. */
  ghost predicate CreationBooked(st: State, st': State, r: Record) {
    && SamePlans(st, st') && st'.synchronous == st.synchronous
    && r.id !in st.db.rows && r.jobs == []
    && st'.db.rows == Saved(st.db.rows, r) && !AssessmentLimitReached(st.db, r.organization)
  }

  lemma CreationBooks(st: State, op: Operation)
    requires Sound(st) && Allowed(st, op) && op.DoCreateAssessment?
    requires CreateAssessment(st.db, op.id, op.name, op.organization, op.now).Ok?
    ensures CreationBooked(st, Perform(st, op), NewRecord(op.id, op.name, op.organization, op.now))
  {
    assert RowIsSound(st, op.id);
  }

  lemma CreationKeepsQuotas(st: State, st': State, r: Record, organization: Id)
    requires QuotasKept(st, organization) && CreationBooked(st, st', r)
    ensures QuotasKept(st', organization)
  {
    CreationCounts(st, st', r, organization);
    UsageKeepsQuotas(st, st', organization);
  }

  ghost predicate SameBooks(st: State, st': State) {
    st'.db == st.db && st'.held == st.held && st'.synchronous == st.synchronous
  }

  lemma SameBooksKeepQuotas(st: State, st': State, organization: Id)
    requires SameBooks(st, st') && QuotasKept(st, organization)
    ensures QuotasKept(st', organization)
  {
    assert Counted(st', organization) == Counted(st, organization);
  }

  lemma RefusedCreationKeepsBooks(st: State, op: Operation)
    requires Allowed(st, op) && op.DoCreateAssessment?
    requires CreateAssessment(st.db, op.id, op.name, op.organization, op.now).Err?
    ensures SameBooks(st, Perform(st, op))
  {
  }

  lemma CreateAssessmentKeepsQuotas(st: State, op: Operation, organization: Id)
    requires Sound(st) && Allowed(st, op) && op.DoCreateAssessment? && QuotasKept(st, organization)
    ensures QuotasKept(Perform(st, op), organization)
  {
    if CreateAssessment(st.db, op.id, op.name, op.organization, op.now).Ok? {
      CreationBooks(st, op);
      CreationKeepsQuotas(st, Perform(st, op), NewRecord(op.id, op.name, op.organization, op.now), organization);
    } else {
      RefusedCreationKeepsBooks(st, op);
      SameBooksKeepQuotas(st, Perform(st, op), organization);
    }
  }

  ghost predicate JobLimitReached(db: Database, organization: Id) {
    organization != NIL_ORGANIZATION
    && Reached(JobsHeld(db, organization), MaxScanJobs(PlanOf(db, organization)))
  }

  /** A scan job was added to assessment `r.id`, within the limit or by the synchronous Trivy scan. */
  ghost predicate JobBooked(st: State, st': State, r: Record) {
    && SamePlans(st, st') && Updates(st, st', r)
    && |r.jobs| == |RecordOf(st, r.id).jobs| + 1
    && (r.jobs[|r.jobs| - 1].id in st'.synchronous || !JobLimitReached(st.db, st.db.rows[r.id].organization))
  }

  lemma AddedJobKeepsQuotas(st: State, st': State, r: Record, organization: Id)
    requires QuotasKept(st, organization) && JobBooked(st, st', r)
    ensures QuotasKept(st', organization)
  {
    UpdateCounts(st, st', r, organization);
    if organization != NIL_ORGANIZATION && NewSlot(st, st', r, organization) != {} {
      OneMoreIsAllowed(st, st', r, organization);
    }
    UsageKeepsQuotas(st, st', organization);
  }

  lemma OneMoreIsAllowed(st: State, st': State, r: Record, organization: Id)
    requires JobBooked(st, st', r) && organization != NIL_ORGANIZATION && NewSlot(st, st', r, organization) != {}
    requires Counted(st', organization) <= Counted(st, organization) + NewSlot(st, st', r, organization)
    ensures Allows(PlanOf(st'.db, organization), ScanJobCount, |Counted(st', organization)|)
  {
    CountedAreHeld(st, organization);
    Smaller(Counted(st', organization), Counted(st, organization) + NewSlot(st, st', r, organization));
  }

  lemma FoundForItsOrganization(st: State, id: Id, organization: Id)
    requires Sound(st) && Got(st.db.rows, id, Some(organization)).Some?
    ensures id in st.db.rows && st.db.rows[id].organization == organization && RecordOf(st, id).id == id
  {
    assert RowIsSound(st, id);
  }

  lemma CreateJobBooks(st: State, op: Operation) returns (r: Record)
    requires Sound(st) && Allowed(st, op) && op.DoCreateJob?
    requires CreateJob(st.db, op.id, Some(op.organization), op.request, op.job, op.confirmedBy, op.now).Ok?
    ensures JobBooked(st, Perform(st, op), r)
  {
    FoundForItsOrganization(st, op.id, op.organization);
    JobsUsedAreHeld(st.db, op.organization);
    var job := CreateJobWrites(st, op);
    QueueingKeepsPlans(st, op);
    r := WithJob(RecordOf(st, op.id), job, op.now);
  }

  lemma RefusedJobKeepsBooks(st: State, op: Operation)
    requires Allowed(st, op) && op.DoCreateJob?
    requires CreateJob(st.db, op.id, Some(op.organization), op.request, op.job, op.confirmedBy, op.now).Err?
    ensures SameBooks(st, Perform(st, op))
  {
  }

  lemma CreateJobKeepsQuotas(st: State, op: Operation, organization: Id)
    requires Sound(st) && Allowed(st, op) && op.DoCreateJob? && QuotasKept(st, organization)
    ensures QuotasKept(Perform(st, op), organization)
  {
    if CreateJob(st.db, op.id, Some(op.organization), op.request, op.job, op.confirmedBy, op.now).Ok? {
      var r := CreateJobBooks(st, op);
      AddedJobKeepsQuotas(st, Perform(st, op), r, organization);
    } else {
      RefusedJobKeepsBooks(st, op);
      SameBooksKeepQuotas(st, Perform(st, op), organization);
    }
  }

  lemma BeginTrivyBooks(st: State, op: Operation) returns (r: Record)
    requires Sound(st) && Allowed(st, op) && op.DoBeginTrivy?
    requires BeginTrivy(st.db, op.id, Some(op.organization), op.target, op.webhookUrl, op.job, op.now).Ok?
    ensures JobBooked(st, Perform(st, op), r)
  {
    FoundForItsOrganization(st, op.id, op.organization);
    var job := BeginTrivyWrites(st, op);
    BeginTrivyKeepsPlans(st, op);
    r := WithAddedJob(RecordOf(st, op.id), job, op.now);
  }

  lemma BeginTrivyKeepsQuotas(st: State, op: Operation, organization: Id)
    requires Sound(st) && Allowed(st, op) && op.DoBeginTrivy? && QuotasKept(st, organization)
    ensures QuotasKept(Perform(st, op), organization)
  {
    if BeginTrivy(st.db, op.id, Some(op.organization), op.target, op.webhookUrl, op.job, op.now).Ok? {
      var r := BeginTrivyBooks(st, op);
      AddedJobKeepsQuotas(st, Perform(st, op), r, organization);
    } else {
      RefusedTrivyKeepsBooks(st, op);
      SameBooksKeepQuotas(st, Perform(st, op), organization);
    }
  }

  lemma RefusedTrivyKeepsBooks(st: State, op: Operation)
    requires Allowed(st, op) && op.DoBeginTrivy?
    requires BeginTrivy(st.db, op.id, Some(op.organization), op.target, op.webhookUrl, op.job, op.now).Err?
    ensures SameBooks(st, Perform(st, op))
  {
  }

  /** The other operations add no assessment and no job, and only widen the plans held. */
  lemma OtherBooks(st: State, op: Operation, organization: Id)
    requires Allowed(st, op) && !op.DoCreateAssessment? && !op.DoCreateJob? && !op.DoBeginTrivy?
    ensures var st' := Perform(st, op);
            && st'.synchronous == st.synchronous
            && HeldBy(st, organization) <= HeldBy(st', organization)
            && (PlanOf(st.db, organization) in HeldBy(st, organization) ==>
                  PlanOf(st'.db, organization) in HeldBy(st', organization))
  {
    if !op.DoSetPlan? {
      OtherOperationsKeepPlans(st, op);
    }
  }

  lemma OtherOperationsKeepPlans(st: State, op: Operation)
    requires Allowed(st, op) && !op.DoCreateAssessment? && !op.DoCreateJob? && !op.DoBeginTrivy? && !op.DoSetPlan?
    ensures SamePlans(st, Perform(st, op)) && Perform(st, op).synchronous == st.synchronous
  {
    if op.DoAddRepository? || op.DoDeleteRepository? || op.DoBeginIngest? || op.DoFinishIngest? {
      RepositoryOperationsKeepPlans(st, op);
    }
  }

  lemma RepositoryOperationsKeepPlans(st: State, op: Operation)
    requires Allowed(st, op)
             && (op.DoAddRepository? || op.DoDeleteRepository? || op.DoBeginIngest? || op.DoFinishIngest?)
    ensures SamePlans(st, Perform(st, op)) && Perform(st, op).synchronous == st.synchronous
  {
    if op.DoBeginIngest? || op.DoFinishIngest? {
      IngestionKeepsPlans(st, op);
    }
  }

  lemma IngestionKeepsPlans(st: State, op: Operation)
    requires Allowed(st, op) && (op.DoBeginIngest? || op.DoFinishIngest?)
    ensures SamePlans(st, Perform(st, op)) && Perform(st, op).synchronous == st.synchronous
  {
  }

  lemma AddingOperationsKeepPlans(st: State, op: Operation)
    requires Allowed(st, op) && (op.DoCreateAssessment? || op.DoCreateJob? || op.DoBeginTrivy?)
    ensures SamePlans(st, Perform(st, op))
  {
    if op.DoCreateJob? {
      QueueingKeepsPlans(st, op);
    } else if op.DoBeginTrivy? {
      BeginTrivyKeepsPlans(st, op);
    }
  }

  lemma QueueingKeepsPlans(st: State, op: Operation)
    requires Allowed(st, op) && op.DoCreateJob?
    ensures SamePlans(st, Perform(st, op)) && Perform(st, op).synchronous == st.synchronous
  {
    var queued := CreateJob(st.db, op.id, Some(op.organization), op.request, op.job, op.confirmedBy, op.now);
    CreateJobKeepsPlans(st.db, op);
    assert Perform(st, op) == Issue(if queued.Ok? then st.(db := queued.value) else st, op.job);
  }

  lemma CreateJobKeepsPlans(db: Database, op: Operation)
    requires op.DoCreateJob?
    ensures var r := CreateJob(db, op.id, Some(op.organization), op.request, op.job, op.confirmedBy, op.now);
            r.Ok? ==> r.value.plans == db.plans
  {
  }

  lemma BeginTrivyKeepsPlans(st: State, op: Operation)
    requires Allowed(st, op) && op.DoBeginTrivy?
    ensures SamePlans(st, Perform(st, op))
    ensures BeginTrivy(st.db, op.id, Some(op.organization), op.target, op.webhookUrl, op.job, op.now).Ok? ==>
              Perform(st, op).synchronous == st.synchronous + {op.job}
  {
  }

  lemma StepKeepsQuotas(st: State, op: Operation, organization: Id)
    requires Sound(st) && QuotasKept(st, organization)
    ensures QuotasKept(Step(st, op), organization)
  {
    if !Allowed(st, op) {
    } else if op.DoCreateAssessment? {
      CreateAssessmentKeepsQuotas(st, op, organization);
    } else if op.DoCreateJob? {
      CreateJobKeepsQuotas(st, op, organization);
    } else if op.DoBeginTrivy? {
      BeginTrivyKeepsQuotas(st, op, organization);
    } else {
      OtherStepKeepsQuotas(st, op, organization);
    }
  }

  lemma OtherStepKeepsQuotas(st: State, op: Operation, organization: Id)
    requires Sound(st) && Allowed(st, op) && QuotasKept(st, organization)
    requires !op.DoCreateAssessment? && !op.DoCreateJob? && !op.DoBeginTrivy?
    ensures QuotasKept(Perform(st, op), organization)
  {
    var e := EffectOf(st, op);
    OtherBooks(st, op, organization);
    EffectKeepsUsage(st, Perform(st, op), e, organization);
    UsageKeepsQuotas(st, Perform(st, op), organization);
  }

  lemma EffectKeepsUsage(st: State, st': State, e: Effect, organization: Id)
    requires Happened(st, st', e) && AddsNoJob(st, e) && st'.synchronous == st.synchronous
    requires e.Wrote? ==> GrownOrNothing(st, e.r.id, e)
    ensures UsageIsAllowed(st, st', organization)
  {
    match e
    case Nothing => assert Counted(st', organization) == Counted(st, organization);
    case Removed(id) => RemovalCounts(st, st', id, organization);
    case Wrote(r, _, _) =>
      GrownIsUpdate(st, st', r);
      UpdateCounts(st, st', r, organization);
  }

  lemma GrownIsUpdate(st: State, st': State, r: Record)
    requires r.id in st.db.rows && Grows(RecordOf(st, r.id), r) && |r.jobs| == |RecordOf(st, r.id).jobs|
    requires st'.db.rows == Saved(st.db.rows, r) && st'.synchronous == st.synchronous
    ensures Updates(st, st', r)
  {
    forall i | 0 <= i < |r.jobs|
      ensures r.jobs[i].id == RecordOf(st, r.id).jobs[i].id
    {
      assert Advances(RecordOf(st, r.id).jobs[i], r.jobs[i]);
    }
  }

  lemma NothingIsUsed(organization: Id)
    ensures QuotasKept(INITIAL, organization)
  {
    assert Selected(INITIAL.db.rows, Some(organization)) == {};
    assert Counted(INITIAL, organization) == {};
    assert Allows(Free, AssessmentCount, 0) && Allows(Free, ScanJobCount, 0);
  }

  lemma {:induction false} RunsKeepQuotas(ops: seq<Operation>, organization: Id)
    ensures QuotasKept(Run(INITIAL, ops), organization)
  {
    if ops == [] {
      NothingIsUsed(organization);
    } else {
      RunsKeepQuotas(ops[..|ops| - 1], organization);
      RunsAreSound(ops[..|ops| - 1]);
      StepKeepsQuotas(Run(INITIAL, ops[..|ops| - 1]), ops[|ops| - 1], organization);
    }
  }

  /** In every serial run neither an organisation's assessments nor its scan jobs, those of
      synchronous Trivy scans not counted, exceed the largest limit among the plans it has held. */
  lemma UsageStaysWithinPlansHeld(ops: seq<Operation>, organization: Id)
    requires organization != NIL_ORGANIZATION
    ensures var st := Run(INITIAL, ops);
            && WithinSomePlan(HeldBy(st, organization), AssessmentCount, AssessmentsUsed(st.db, organization))
            && WithinSomePlan(HeldBy(st, organization), ScanJobCount, |Counted(st, organization)|)
  {
    RunsKeepQuotas(ops, organization);
  }

  /** The step begins a synchronous Trivy scan as job `job`. */
  ghost predicate BeginsTrivy(st: State, op: Operation, job: Id) {
    && op.DoBeginTrivy? && op.job == job && Allowed(st, op)
    && BeginTrivy(st.db, op.id, Some(op.organization), op.target, op.webhookUrl, op.job, op.now).Ok?
  }

  lemma StepNotesTrivy(st: State, op: Operation, job: Id)
    ensures job in Step(st, op).synchronous <==> job in st.synchronous || BeginsTrivy(st, op, job)
  {
    if Allowed(st, op) {
      if op.DoBeginTrivy? {
        BeginTrivyKeepsPlans(st, op);
        if BeginTrivy(st.db, op.id, Some(op.organization), op.target, op.webhookUrl, op.job, op.now).Err? {
          RefusedTrivyKeepsBooks(st, op);
        }
      } else if op.DoCreateJob? {
        QueueingKeepsPlans(st, op);
      } else if !op.DoCreateAssessment? && !op.DoSetPlan? {
        OtherOperationsKeepPlans(st, op);
      }
    }
  }

  /** Step `k` of the run begins a synchronous Trivy scan as job `job`. */
  ghost predicate BeganTrivyAt(ops: seq<Operation>, k: nat, job: Id)
    requires k < |ops|
  {
    BeginsTrivy(Run(INITIAL, ops[..k]), ops[k], job)
  }

  lemma SameStepOfPrefix(ops: seq<Operation>, n: nat, k: nat, job: Id)
    requires k < n <= |ops|
    ensures BeganTrivyAt(ops[..n], k, job) <==> BeganTrivyAt(ops, k, job)
  {
    assert ops[..n][..k] == ops[..k];
  }

  /** The jobs not counted are exactly those that some step of the run began as a synchronous scan. */
  lemma {:induction false} UncountedAreTrivy(ops: seq<Operation>, job: Id)
    ensures job in Run(INITIAL, ops).synchronous <==> exists k: nat :: k < |ops| && BeganTrivyAt(ops, k, job)
  {
    if ops != [] {
      var n, init := |ops| - 1, ops[..|ops| - 1];
      UncountedAreTrivy(init, job);
      StepNotesTrivy(Run(INITIAL, init), ops[n], job);
      assert BeginsTrivy(Run(INITIAL, init), ops[n], job) <==> BeganTrivyAt(ops, n, job);
      forall k: nat | k < n
        ensures BeganTrivyAt(init, k, job) <==> BeganTrivyAt(ops, k, job)
      {
        SameStepOfPrefix(ops, n, k, job);
      }
    }
  }
}
