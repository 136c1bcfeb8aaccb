/** The consent log over whole runs: one entry for each confirmed scan job, kept for ever. */
module AssessmentAudit {
  import opened Prelude
  import opened IsoTimestamp
  import opened Assessments
  import opened AssessmentStore
  import opened ScanLifecycle
  import opened AssessmentOperations
  import opened AssessmentRuns
  import opened AssessmentHistory

  /** Entry `e` is the consent given for job `j` of assessment `r`. */
  predicate Matches(e: AuditEntry, r: Record, j: ScanJob) {
    && j.confirmed
    && e.organization == r.organization && e.assessment == r.id
    && e.job == j.id && e.agent == j.agent && e.target == Or(j.target, "")
    && j.authorizedBy == Some(e.confirmedBy) && j.authorizedAt == Some(e.confirmedAt)
  }

  ghost predicate ConsentRecorded(audit: seq<AuditEntry>, r: Record, i: nat)
    requires i < |r.jobs|
  {
    r.jobs[i].confirmed ==> exists k :: 0 <= k < |audit| && Matches(audit[k], r, r.jobs[i])
  }

  ghost predicate ConsentsRecorded(audit: seq<AuditEntry>, r: Record) {
    forall i: nat :: i < |r.jobs| ==> ConsentRecorded(audit, r, i)
  }

  /** An entry has its job, as long as the assessment is not deleted. */
  ghost predicate EntryBacked(e: AuditEntry, r: Record) {
    exists i :: 0 <= i < |r.jobs| && Matches(e, r, r.jobs[i])
  }

  ghost predicate EntrySound(st: State, e: AuditEntry) {
    && e.job in st.issued && e.assessment in st.issued
    && (e.assessment in st.db.rows ==> EntryBacked(e, RecordOf(st, e.assessment)))
  }

  ghost predicate AuditSound(st: State) {
    && (forall id :: id in st.db.rows ==> ConsentsRecorded(st.db.audit, RecordOf(st, id)))
    && (forall k :: 0 <= k < |st.db.audit| ==> EntrySound(st, st.db.audit[k]))
    && (forall k, m :: 0 <= k < m < |st.db.audit| ==> st.db.audit[k].job != st.db.audit[m].job)
  }

  // ----- growth keeps consents and their jobs together

  lemma MatchesStays(e: AuditEntry, r: Record, r': Record, i: nat)
    requires Grows(r, r') && i < |r.jobs|
    ensures Matches(e, r, r.jobs[i]) ==> Matches(e, r', r'.jobs[i])
    ensures r'.jobs[i].confirmed == r.jobs[i].confirmed
  {
    assert Advances(r.jobs[i], r'.jobs[i]);
  }

  lemma ConsentsStay(audit: seq<AuditEntry>, audit': seq<AuditEntry>, r: Record, r': Record)
    requires Grows(r, r') && audit <= audit' && ConsentsRecorded(audit, r)
    requires forall i: nat :: |r.jobs| <= i < |r'.jobs| ==> ConsentRecorded(audit', r', i)
    ensures ConsentsRecorded(audit', r')
  {
    forall i: nat | i < |r'.jobs|
      ensures ConsentRecorded(audit', r', i)
    {
      if i < |r.jobs| {
        assert ConsentRecorded(audit, r, i);
        MatchesStays(if r.jobs[i].confirmed then FindEntry(audit, r, i) else AnyEntry(r), r, r', i);
      }
    }
  }

  ghost function FindEntry(audit: seq<AuditEntry>, r: Record, i: nat): (e: AuditEntry)
    requires i < |r.jobs| && ConsentRecorded(audit, r, i) && r.jobs[i].confirmed
    ensures e in audit && Matches(e, r, r.jobs[i])
  {
    var k :| 0 <= k < |audit| && Matches(audit[k], r, r.jobs[i]);
    audit[k]
  }

  ghost function AnyEntry(r: Record): AuditEntry {
    AuditEntry(r.organization, r.id, r.id, Trivy, "", "", r.createdAt)
  }

  lemma BackingStays(e: AuditEntry, r: Record, r': Record)
    requires Grows(r, r') && EntryBacked(e, r)
    ensures EntryBacked(e, r')
  {
    var i :| 0 <= i < |r.jobs| && Matches(e, r, r.jobs[i]);
    MatchesStays(e, r, r', i);
  }

  // ----- operations other than queueing

  lemma OthersLeaveAudit(st: State, op: Operation)
    requires Allowed(st, op) && !op.DoCreateJob?
    ensures Perform(st, op).db.audit == st.db.audit
  {
  }

  /** Effects that add at most unconfirmed jobs keep the log sound. */
  lemma QuietEffectKeepsAudit(st: State, st': State, e: Effect)
    requires AuditSound(st) && Happened(st, st', e) && st'.db.audit == st.db.audit
    requires e.Wrote? ==> if e.r.id in st.db.rows
                          then Grows(RecordOf(st, e.r.id), e.r)
                               && forall i :: |RecordOf(st, e.r.id).jobs| <= i < |e.r.jobs| ==> !e.r.jobs[i].confirmed
                          else e.r.id !in st.issued && e.r.jobs == []
    ensures AuditSound(st')
  {
    forall id | id in st'.db.rows
      ensures ConsentsRecorded(st'.db.audit, RecordOf(st', id))
    {
      if e.Wrote? && id == e.r.id && id in st.db.rows {
        ConsentsStay(st.db.audit, st.db.audit, RecordOf(st, id), e.r);
      }
    }
    forall k | 0 <= k < |st'.db.audit|
      ensures EntrySound(st', st'.db.audit[k])
    {
      var entry := st.db.audit[k];
      assert EntrySound(st, entry);
      if e.Wrote? && entry.assessment == e.r.id && e.r.id in st.db.rows {
        BackingStays(entry, RecordOf(st, e.r.id), e.r);
      }
    }
  }

  lemma OtherOperationKeepsAudit(st: State, op: Operation)
    requires Sound(st) && AuditSound(st) && Allowed(st, op) && !op.DoCreateJob?
    ensures AuditSound(Perform(st, op))
  {
    var st' := Perform(st, op);
    OthersLeaveAudit(st, op);
    if op.DoCreateAssessment? {
      var e := CreateAssessmentEffect(st, op);
      QuietEffectKeepsAudit(st, st', e);
    } else if op.DoBeginTrivy? {
      var e := TrivyEffect(st, op);
      QuietEffectKeepsAudit(st, st', e);
    } else {
      var e := EffectOf(st, op);
      QuietEffectKeepsAudit(st, st', e);
    }
  }

  // ----- queueing

  /** What queueing a job writes to the record and to the log. */
  lemma CreateJobAudits(st: State, op: Operation) returns (r': Record, j: ScanJob)
    requires Sound(st) && Allowed(st, op) && op.DoCreateJob?
    requires CreateJob(st.db, op.id, Some(op.organization), op.request, op.job, op.confirmedBy, op.now).Ok?
    ensures var st' := Perform(st, op);
            && op.id in st.db.rows && r'.id == op.id && Grows(RecordOf(st, op.id), r')
            && st'.db.rows == Saved(st.db.rows, r') && st'.issued == st.issued + {op.job}
            && r'.jobs == RecordOf(st, op.id).jobs + [j] && j.id == op.job && j.confirmed == op.request.confirmed
            && (if j.confirmed
                then |st'.db.audit| == |st.db.audit| + 1 && st.db.audit <= st'.db.audit
                     && Matches(st'.db.audit[|st.db.audit|], r', j)
                else st'.db.audit == st.db.audit)
  {
    Identity(st, op.id);
    var r := RecordOf(st, op.id);
    j := PendingJob(op.request, TargetOf(r, op.request).value, op.job, op.confirmedBy, op.now);
    r' := WithJob(r, j, op.now);
    QueueWrites(st.db, r, op.organization, op.request, op.job, op.confirmedBy, op.now);
  }

  lemma QueueWrites(db: Database, r: Record, organization: Id, request: JobRequest, job: Id,
                    confirmedBy: Option<string>, now: Timestamp)
    requires TargetOf(r, request).Ok? && r.organization == organization
    ensures var j := PendingJob(request, TargetOf(r, request).value, job, confirmedBy, now);
            var queued := Queue(db, r, Some(organization), request, job, confirmedBy, now);
            && Grows(r, WithJob(r, j, now))
            && queued.Ok? && queued.value.rows == Saved(db.rows, WithJob(r, j, now))
            && if j.confirmed
               then queued.value.audit == db.audit + [EntryFor(Some(organization), r.id, j, now)]
                    && Matches(EntryFor(Some(organization), r.id, j, now), WithJob(r, j, now), j)
               else queued.value.audit == db.audit
  {
  }

  lemma QueueingKeepsAudit(st: State, st': State, r': Record, j: ScanJob)
    requires AuditSound(st) && r'.id in st.db.rows && Grows(RecordOf(st, r'.id), r')
    requires st'.db.rows == Saved(st.db.rows, r') && st'.issued == st.issued + {j.id}
    requires j.id !in st.issued && r'.id in st.issued
    requires r'.jobs == RecordOf(st, r'.id).jobs + [j]
    requires if j.confirmed
             then |st'.db.audit| == |st.db.audit| + 1 && st.db.audit <= st'.db.audit
                  && Matches(st'.db.audit[|st.db.audit|], r', j)
             else st'.db.audit == st.db.audit
    ensures AuditSound(st')
  {
    forall id | id in st'.db.rows
      ensures ConsentsRecorded(st'.db.audit, RecordOf(st', id))
    {
      QueueingRecordsConsents(st, st', r', j, id);
    }
    forall k | 0 <= k < |st'.db.audit|
      ensures EntrySound(st', st'.db.audit[k])
    {
      QueueingKeepsEntry(st, st', r', j, k);
    }
    forall k, m | 0 <= k < m < |st'.db.audit|
      ensures st'.db.audit[k].job != st'.db.audit[m].job
    {
      QueueingKeepsEntry(st, st', r', j, k);
      QueueingKeepsEntry(st, st', r', j, m);
    }
  }

  lemma QueueingKeepsEntry(st: State, st': State, r': Record, j: ScanJob, k: nat)
    requires AuditSound(st) && r'.id in st.db.rows && Grows(RecordOf(st, r'.id), r')
    requires st'.db.rows == Saved(st.db.rows, r') && st'.issued == st.issued + {j.id}
    requires j.id !in st.issued && r'.id in st.issued && st.db.audit <= st'.db.audit
    requires r'.jobs == RecordOf(st, r'.id).jobs + [j]
    requires |st.db.audit| < |st'.db.audit| ==>
               |st'.db.audit| == |st.db.audit| + 1 && Matches(st'.db.audit[|st.db.audit|], r', j)
    requires k < |st'.db.audit|
    ensures EntrySound(st', st'.db.audit[k])
    ensures if k < |st.db.audit| then st'.db.audit[k] == st.db.audit[k] && st'.db.audit[k].job != j.id
            else st'.db.audit[k].job == j.id
  {
    if k < |st.db.audit| {
      OldEntryStaysSound(st, st', r', k);
    } else {
      assert Matches(st'.db.audit[k], r', r'.jobs[|r'.jobs| - 1]);
    }
  }

  lemma QueueingRecordsConsents(st: State, st': State, r': Record, j: ScanJob, id: Id)
    requires AuditSound(st) && r'.id in st.db.rows && Grows(RecordOf(st, r'.id), r') && id in st'.db.rows
    requires st'.db.rows == Saved(st.db.rows, r') && st.db.audit <= st'.db.audit
    requires r'.jobs == RecordOf(st, r'.id).jobs + [j]
    requires j.confirmed ==> st'.db.audit != [] && Matches(st'.db.audit[|st'.db.audit| - 1], r', j)
    ensures ConsentsRecorded(st'.db.audit, RecordOf(st', id))
  {
    if id == r'.id {
      NewConsentIsRecorded(st'.db.audit, r', j);
      ConsentsStay(st.db.audit, st'.db.audit, RecordOf(st, id), r');
    } else {
      ConsentsStay(st.db.audit, st'.db.audit, RecordOf(st, id), RecordOf(st, id));
    }
  }

  lemma NewConsentIsRecorded(audit: seq<AuditEntry>, r: Record, j: ScanJob)
    requires r.jobs != [] && r.jobs[|r.jobs| - 1] == j
    requires j.confirmed ==> audit != [] && Matches(audit[|audit| - 1], r, j)
    ensures ConsentRecorded(audit, r, |r.jobs| - 1)
  {
  }

  lemma OldEntryStaysSound(st: State, st': State, r': Record, k: nat)
    requires k < |st.db.audit| && EntrySound(st, st.db.audit[k])
    requires r'.id in st.db.rows && Grows(RecordOf(st, r'.id), r')
    requires st'.db.rows == Saved(st.db.rows, r') && st.issued <= st'.issued && st.db.audit <= st'.db.audit
    ensures EntrySound(st', st'.db.audit[k]) && st'.db.audit[k].job in st.issued
  {
    var entry := st.db.audit[k];
    assert st'.db.audit[k] == entry;
    if entry.assessment == r'.id {
      BackingStays(entry, RecordOf(st, r'.id), r');
    }
  }

  lemma StepKeepsAudit(st: State, op: Operation)
    requires Sound(st) && AuditSound(st)
    ensures AuditSound(Step(st, op)) && st.db.audit <= Step(st, op).db.audit
  {
    if !Allowed(st, op) {
    } else if !op.DoCreateJob? {
      OtherOperationKeepsAudit(st, op);
      OthersLeaveAudit(st, op);
    } else if CreateJob(st.db, op.id, Some(op.organization), op.request, op.job, op.confirmedBy, op.now).Ok? {
      var r', j := CreateJobAudits(st, op);
      Identity(st, op.id);
      QueueingKeepsAudit(st, Perform(st, op), r', j);
    } else {
      QuietEffectKeepsAudit(st, Perform(st, op), Nothing);
    }
  }

  /** In every serial run the confirmed jobs of the stored assessments and the consent entries
      match one to one, entries of deleted assessments apart, and no entry is ever lost. */
  lemma {:induction false} ConsentsMatchJobs(ops: seq<Operation>)
    ensures AuditSound(Run(INITIAL, ops))
  {
    if ops != [] {
      ConsentsMatchJobs(ops[..|ops| - 1]);
      RunsAreSound(ops[..|ops| - 1]);
      StepKeepsAudit(Run(INITIAL, ops[..|ops| - 1]), ops[|ops| - 1]);
    }
  }

  /** A step that adds an entry stores the job it is for. */
  lemma NewEntryIsBacked(st: State, op: Operation, k: nat)
    requires Sound(st) && AuditSound(st)
    requires |st.db.audit| <= k < |Step(st, op).db.audit|
    ensures EntryHasJob(Step(st, op), Step(st, op).db.audit[k])
  {
    if !op.DoCreateJob? {
      OthersLeaveAudit(st, op);
    } else {
      QueueingBacksEntry(st, op, k);
    }
  }

  lemma QueueingBacksEntry(st: State, op: Operation, k: nat)
    requires Sound(st) && Allowed(st, op) && op.DoCreateJob?
    requires |st.db.audit| <= k < |Perform(st, op).db.audit|
    ensures EntryHasJob(Perform(st, op), Perform(st, op).db.audit[k])
  {
    var st' := Perform(st, op);
    var r', j := CreateJobAudits(st, op);
    LastJobBacksEntry(st, st', st'.db.audit[k], r', j);
  }

  lemma LastJobBacksEntry(st: State, st': State, e: AuditEntry, r: Record, j: ScanJob)
    requires r.jobs != [] && r.jobs[|r.jobs| - 1] == j && Matches(e, r, j)
    requires st'.db.rows == Saved(st.db.rows, r)
    ensures EntryHasJob(st', e)
  {
    assert Matches(e, r, r.jobs[|r.jobs| - 1]);
  }

  /** The assessment of the entry is stored, with the job the entry is for. */
  ghost predicate EntryHasJob(st: State, e: AuditEntry) {
    e.assessment in st.db.rows && EntryBacked(e, RecordOf(st, e.assessment))
  }

  /** Every consent entry of a serial run, whether or not its assessment is still stored, was
      written for a confirmed job that was stored at some moment `n` of the run. */
  lemma {:induction false} EveryConsentHadItsJob(ops: seq<Operation>, k: nat) returns (n: nat)
    requires k < |Run(INITIAL, ops).db.audit|
    ensures n <= |ops| && EntryHasJob(Run(INITIAL, ops[..n]), Run(INITIAL, ops).db.audit[k])
  {
    var init := ops[..|ops| - 1];
    var st := Run(INITIAL, init);
    RunsAreSound(init);
    ConsentsMatchJobs(init);
    StepKeepsAudit(st, ops[|ops| - 1]);
    if k < |st.db.audit| {
      n := EveryConsentHadItsJob(init, k);
      assert ops[..n] == init[..n];
    } else {
      n := |ops|;
      NewEntryIsBacked(st, ops[|ops| - 1], k);
      assert ops[..n] == ops;
    }
  }

  /** Every confirmed job that was stored at some moment `n` of a serial run has its consent in the
      final log, in one entry and no other, whatever was deleted since. */
  lemma EveryConfirmedJobKeepsItsConsent(ops: seq<Operation>, n: nat, id: Id, i: nat) returns (k: nat)
    requires n <= |ops| && id in Run(INITIAL, ops[..n]).db.rows
    requires i < |RecordOf(Run(INITIAL, ops[..n]), id).jobs| && RecordOf(Run(INITIAL, ops[..n]), id).jobs[i].confirmed
    ensures var r, audit := RecordOf(Run(INITIAL, ops[..n]), id), Run(INITIAL, ops).db.audit;
            && k < |audit| && Matches(audit[k], r, r.jobs[i])
            && forall m :: 0 <= m < |audit| && audit[m].job == r.jobs[i].id ==> m == k
  {
    var st, audit := Run(INITIAL, ops[..n]), Run(INITIAL, ops).db.audit;
    ConsentsMatchJobs(ops[..n]);
    ConsentsMatchJobs(ops);
    assert ops[..n] + ops[n..] == ops;
    ConsentsAreNeverLost(ops[..n], ops[n..]);
    assert ConsentRecorded(st.db.audit, RecordOf(st, id), i);
    k :| 0 <= k < |st.db.audit| && Matches(st.db.audit[k], RecordOf(st, id), RecordOf(st, id).jobs[i]);
    assert st.db.audit[k] == audit[k];
  }

  lemma {:induction false} ConsentsAreNeverLost(before: seq<Operation>, after: seq<Operation>)
    ensures Run(INITIAL, before).db.audit <= Run(INITIAL, before + after).db.audit
  {
    if after == [] {
      assert before + after == before;
    } else {
      var init := before + after[..|after| - 1];
      assert (before + after)[..|before + after| - 1] == init;
      ConsentsAreNeverLost(before, after[..|after| - 1]);
      RunsAreSound(init);
      ConsentsMatchJobs(init);
      StepKeepsAudit(Run(INITIAL, init), after[|after| - 1]);
    }
  }
}
