/**
The status stream of a scan job: it polls the job and emits each snapshot that differs from the
last one sent. What a poll reads is a parameter, `None` when the job cannot be found.
*/
module StatusStream {
  import opened Prelude
  import opened Assessments
  import opened AssessmentStore
  import opened ScanLifecycle
  import opened AssessmentRuns
  import opened AssessmentHistory

  const MAX_POLLS := 600

  datatype Event = Data(job: ScanJob) | NotFoundEvent

  predicate Terminal(j: ScanJob) {
    j.status == Completed || j.status == Failed
  }

  /** A poll after which the stream ends. */
  predicate Stops(p: Option<ScanJob>) {
    p.None? || Terminal(p.value)
  }

  /** The stream makes `m` polls: it ends with the first that stops it, or with the last one. */
  ghost predicate PollsMade(poll: nat -> Option<ScanJob>, m: nat) {
    && m <= 600
    && (forall i: nat :: i + 1 < m ==> !Stops(poll(i)))
    && (m == 600 || (m > 0 && Stops(poll(m - 1))))
  }

  /** What `m` polls emit: a snapshot unless it repeats the one before, an error for a lost job. */
  function Emitted(poll: nat -> Option<ScanJob>, m: nat): seq<Event> {
    if m == 0 then []
    else Emitted(poll, m - 1)
         + if poll(m - 1).None? then [NotFoundEvent]
           else if m > 1 && poll(m - 2) == poll(m - 1) then []
           else [Data(poll(m - 1).value)]
  }

  method StreamStatus(poll: nat -> Option<ScanJob>) returns (events: seq<Event>)
    ensures exists m :: PollsMade(poll, m) && events == Emitted(poll, m)
  {
    var lastPayload: Option<ScanJob> := None;
    events := [];
    for i := 0 to MAX_POLLS
      invariant events == Emitted(poll, i)
      invariant forall k: nat :: k < i ==> !Stops(poll(k))
      invariant lastPayload == if i == 0 then None else poll(i - 1)
    {
      var job := poll(i);
      assert Stops(job) ==> PollsMade(poll, i + 1);
      if job.None? {
        events := events + [NotFoundEvent];
        return;
      }
      if job != lastPayload {
        events := events + [Data(job.value)];
        lastPayload := job;
      }
      if job.value.status == Completed || job.value.status == Failed {
        return;
      }
    }
    assert PollsMade(poll, MAX_POLLS);
  }

  // ----- what is emitted

  function EventOf(p: Option<ScanJob>): Event {
    match p case None => NotFoundEvent case Some(j) => Data(j)
  }

  /** Poll `i` reads something else than the poll before it. */
  predicate News(poll: nat -> Option<ScanJob>, i: nat) {
    i == 0 || poll(i) != poll(i - 1)
  }

  /** The events are what the polls at the positions `at` read: in order, every poll with news, and no
      other; so no snapshot is missed or repeated, and a lost job is told once, at the end. */
  ghost predicate ReadAt(poll: nat -> Option<ScanJob>, m: nat, events: seq<Event>, at: seq<nat>) {
    && |at| == |events|
    && (forall k :: 0 <= k < |at| ==> at[k] < m && News(poll, at[k]) && events[k] == EventOf(poll(at[k])))
    && (forall k, l :: 0 <= k < l < |at| ==> at[k] < at[l])
    && (forall i: nat :: i < m && News(poll, i) ==> i in at)
  }

  lemma ReadOneMore(poll: nat -> Option<ScanJob>, m: nat, events: seq<Event>, at: seq<nat>)
    requires ReadAt(poll, m, events, at)
    ensures if News(poll, m) then ReadAt(poll, m + 1, events + [EventOf(poll(m))], at + [m])
            else ReadAt(poll, m + 1, events, at)
  {
    var more := at + [m];
    assert forall i :: i in more <==> i in at || i == m;
  }

  lemma {:induction false} EmittedMeans(poll: nat -> Option<ScanJob>, m: nat) returns (at: seq<nat>)
    requires forall i: nat :: i + 1 < m ==> !Stops(poll(i))
    ensures ReadAt(poll, m, Emitted(poll, m), at)
  {
    at := [];
    if m > 0 {
      at := EmittedMeans(poll, m - 1);
      ReadOneMore(poll, m - 1, Emitted(poll, m - 1), at);
      assert m > 1 ==> !Stops(poll(m - 2));
      if News(poll, m - 1) {
        at := at + [m - 1];
      }
    }
  }

  // ----- the events of a job that only moves on

  /** Later polls see the job at the same point or further on. */
  ghost predicate OnlyAdvances(poll: nat -> Option<ScanJob>) {
    forall i: nat, k: nat :: i <= k && poll(i).Some? && poll(k).Some? ==> Advances(poll(i).value, poll(k).value)
  }

  /** Data events come in strictly advancing status, and an error can only come last. */
  ghost predicate StrictlyAdvancing(events: seq<Event>) {
    && (forall i :: 0 <= i < |events| - 1 ==> events[i].Data?)
    && (forall i, k :: 0 <= i < k < |events| && events[k].Data? ==>
          Rank(events[i].job.status) < Rank(events[k].job.status))
  }

  function DataCount(events: seq<Event>): nat {
    if events == [] then 0
    else DataCount(events[..|events| - 1]) + if events[|events| - 1].Data? then 1 else 0
  }

  lemma {:induction false} EmittedAdvances(poll: nat -> Option<ScanJob>, m: nat)
    requires OnlyAdvances(poll)
    requires forall i: nat :: i + 1 < m ==> !Stops(poll(i))
    ensures StrictlyAdvancing(Emitted(poll, m))
    ensures m > 0 && poll(m - 1).Some? ==>
              var events := Emitted(poll, m); events != [] && events[|events| - 1] == Data(poll(m - 1).value)
  {
    if m > 1 {
      EmittedAdvances(poll, m - 1);
      assert !Stops(poll(m - 2));
      var before := Emitted(poll, m - 1);
      assert before[|before| - 1] == Data(poll(m - 2).value);
      if poll(m - 1).Some? && poll(m - 2) != poll(m - 1) {
        assert Advances(poll(m - 2).value, poll(m - 1).value);
        forall i | 0 <= i < |before|
          ensures Rank(before[i].job.status) < Rank(poll(m - 1).value.status)
        {
          if i < |before| - 1 {
            assert before[i].Data?;
          }
        }
      }
    }
  }

  lemma {:induction false} DataCountBound(events: seq<Event>)
    requires StrictlyAdvancing(events)
    ensures DataCount(events) <= 3
    ensures events != [] && events[|events| - 1].Data? ==>
              DataCount(events) <= Rank(events[|events| - 1].job.status) + 1
  {
    if |events| > 1 {
      var init := events[..|events| - 1];
      assert init[|init| - 1].Data?;
      DataCountBound(init);
    } else if |events| == 1 {
      assert DataCount(events[..0]) == 0;
    }
  }

  // ----- polling a serial run

  /** What a poll of `get_scan_job` reads in state `st`. */
  function JobIn(st: State, organization: Option<Id>, assessment: Id, job: Id): Option<ScanJob> {
    match Got(st.db.rows, assessment, organization)
    case None => None
    case Some(r) => match JobIndex(r.jobs, job) case None => None case Some(i) => Some(r.jobs[i])
  }

  lemma PollsOfRunAdvance(ops: seq<Operation>, s: nat, t: nat, organization: Option<Id>, assessment: Id, job: Id)
    requires s <= t <= |ops|
    requires JobIn(Run(INITIAL, ops[..s]), organization, assessment, job).Some?
    requires JobIn(Run(INITIAL, ops[..t]), organization, assessment, job).Some?
    ensures Advances(JobIn(Run(INITIAL, ops[..s]), organization, assessment, job).value,
                     JobIn(Run(INITIAL, ops[..t]), organization, assessment, job).value)
  {
    var st, st' := Run(INITIAL, ops[..s]), Run(INITIAL, ops[..t]);
    RunConcat(ops[..s], ops[s..t]);
    assert ops[..s] + ops[s..t] == ops[..t];
    RunsAreSound(ops[..s]);
    Identity(st, assessment);
    RunsOnlyGrow(st, ops[s..t], assessment);
    Identity(st', assessment);
    SameIndex(RecordOf(st, assessment), RecordOf(st', assessment), job);
    JobAdvances(st, st', organization, assessment, job);
  }

  lemma JobAdvances(st: State, st': State, organization: Option<Id>, assessment: Id, job: Id)
    requires JobIn(st, organization, assessment, job).Some? && JobIn(st', organization, assessment, job).Some?
    requires Grows(RecordOf(st, assessment), RecordOf(st', assessment))
    requires JobIndex(RecordOf(st', assessment).jobs, job) == JobIndex(RecordOf(st, assessment).jobs, job)
    ensures Advances(JobIn(st, organization, assessment, job).value, JobIn(st', organization, assessment, job).value)
  {
  }

  lemma SameIndex(r: Record, r': Record, job: Id)
    requires Grows(r, r') && JobIdsDistinct(r') && JobIndex(r.jobs, job).Some?
    ensures JobIndex(r'.jobs, job) == JobIndex(r.jobs, job)
  {
    var i := JobIndex(r.jobs, job).value;
    assert Advances(r.jobs[i], r'.jobs[i]);
  }

  /** Whenever the polls of a serial run are made, the stream emits at most three data events, in
      strictly advancing status: pending, running, then completed or failed. */
  lemma StreamOfRun(ops: seq<Operation>, times: nat -> nat, organization: Option<Id>, assessment: Id, job: Id,
                    poll: nat -> Option<ScanJob>, m: nat)
    requires forall i: nat, k: nat :: i <= k ==> times(i) <= times(k) <= |ops|
    requires forall i: nat :: poll(i) == JobIn(Run(INITIAL, ops[..times(i)]), organization, assessment, job)
    requires PollsMade(poll, m)
    ensures StrictlyAdvancing(Emitted(poll, m)) && DataCount(Emitted(poll, m)) <= 3
  {
    forall i: nat, k: nat | i <= k && poll(i).Some? && poll(k).Some?
      ensures Advances(poll(i).value, poll(k).value)
    {
      PollsOfRunAdvance(ops, times(i), times(k), organization, assessment, job);
    }
    EmittedAdvances(poll, m);
    DataCountBound(Emitted(poll, m));
  }
}
