/**
Runs of the whole platform: account steps and assessment steps on one database, where the limits of
the assessment service are those of the plan that billing stored last.
*/
module PlatformRuns {
  import opened Assessments
  import opened Plans
  import opened AssessmentOperations
  import opened AssessmentQuotas
  import A = AccountRuns
  import S = AssessmentRuns

  datatype State = State(accounts: A.State, service: S.State)

  datatype Operation = Account(e: A.Timed) | Service(op: S.Operation)

  const INITIAL := State(A.INITIAL, S.INITIAL)

  /** The plan an account step stores is the one the service reads from then on. */
  ghost function StoredPlan(s: A.Setting, st: A.State, e: A.Timed): seq<S.Operation> {
    match A.PlanSetBy(s, st.tables, e.op)
    case None => []
    case Some(id) =>
      var organizations := A.Step(s, st, e).tables.organizations;
      if A.SetsPlan(s, st, e, id) && id in organizations then [S.DoSetPlan(id, organizations[id].plan)] else []
  }

  ghost function Step(s: A.Setting, st: State, op: Operation): State {
    match op
    case Account(e) => State(A.Step(s, st.accounts, e), S.Run(st.service, StoredPlan(s, st.accounts, e)))
    case Service(op) => if op.DoSetPlan? then st else st.(service := S.Step(st.service, op))
  }

  ghost function Run(s: A.Setting, ops: seq<Operation>): State {
    if ops == [] then INITIAL else Step(s, Run(s, ops[..|ops| - 1]), ops[|ops| - 1])
  }

  /** The assessment steps of a run: a serial run of the service by itself. */
  lemma {:induction false} ServiceRun(s: A.Setting, ops: seq<Operation>) returns (steps: seq<S.Operation>)
    ensures Run(s, ops).service == S.Run(S.INITIAL, steps)
  {
    if ops == [] {
      steps := [];
    } else {
      var st, last := Run(s, ops[..|ops| - 1]), ops[|ops| - 1];
      steps := ServiceRun(s, ops[..|ops| - 1]);
      var more := if last.Account? then StoredPlan(s, st.accounts, last.e)
                  else if last.op.DoSetPlan? then [] else [last.op];
      ServiceSteps(st, s, last, more);
      S.RunConcat(steps, more);
      steps := steps + more;
    }
  }

  lemma ServiceSteps(st: State, s: A.Setting, op: Operation, more: seq<S.Operation>)
    requires more == if op.Account? then StoredPlan(s, st.accounts, op.e)
                     else if op.op.DoSetPlan? then [] else [op.op]
    ensures Step(s, st, op).service == S.Run(st.service, more)
  {
    if op.Service? && !op.op.DoSetPlan? {
      assert more[..0] == [];
    }
  }

  // ----- one plan for both

  ghost predicate OnePlan(st: State, id: Id) {
    PlanOf(st.service.db, id)
    == if id in st.accounts.tables.organizations then st.accounts.tables.organizations[id].plan else Free
  }

  lemma ServiceKeepsPlans(st: S.State, op: S.Operation)
    requires !op.DoSetPlan?
    ensures S.Step(st, op).db.plans == st.db.plans && S.Step(st, op).held == st.held
  {
    if S.Allowed(st, op) {
      if op.DoCreateAssessment? || op.DoCreateJob? || op.DoBeginTrivy? {
        AddingOperationsKeepPlans(st, op);
      } else {
        OtherOperationsKeepPlans(st, op);
      }
    }
  }

  lemma StoringPlan(st: S.State, organization: Id, plan: Plan, id: Id)
    ensures var st' := S.Run(st, [S.DoSetPlan(organization, plan)]);
            && PlanOf(st'.db, id) == (if id == organization then plan else PlanOf(st.db, id))
            && S.HeldBy(st', id) == S.HeldBy(st, id) + if id == organization then {plan} else {}
  {
    var op := S.DoSetPlan(organization, plan);
    assert [op][..0] == [];
    assert S.Run(st, [op]) == S.Step(st, op);
  }

  lemma StepKeepsOnePlan(s: A.Setting, st: State, op: Operation, id: Id)
    requires OnePlan(st, id)
    ensures OnePlan(Step(s, st, op), id)
  {
    match op
    case Account(e) =>
      var stored := StoredPlan(s, st.accounts, e);
      if !A.SetsPlan(s, st.accounts, e, id) && id in A.Step(s, st.accounts, e).tables.organizations {
        A.PlanChangesOnlyWhenSet(s, st.accounts, e, id);
      }
      OrganizationsStay(s, st.accounts, e);
      if stored != [] {
        StoringPlan(st.service, stored[0].organization, stored[0].plan, id);
      }
    case Service(o) =>
      if !o.DoSetPlan? {
        ServiceKeepsPlans(st.service, o);
      }
  }

  lemma OrganizationsStay(s: A.Setting, st: A.State, e: A.Timed)
    ensures st.tables.organizations.Keys <= A.Step(s, st, e).tables.organizations.Keys
  {
  }

  /** The joint step keeps the service's copy of the plan equal to the stored one. */
  lemma {:induction false} LimitsFollowBilling(s: A.Setting, ops: seq<Operation>, id: Id)
    ensures OnePlan(Run(s, ops), id)
  {
    if ops != [] {
      LimitsFollowBilling(s, ops[..|ops| - 1], id);
      StepKeepsOnePlan(s, Run(s, ops[..|ops| - 1]), ops[|ops| - 1], id);
    }
  }

  // ----- without a checkout

  /** The step completes a checkout that names organisation `id`. */
  ghost predicate CompletesCheckout(s: A.Setting, st: State, op: Operation, id: Id) {
    op.Account? && A.SetsPlan(s, st.accounts, op.e, id) && exists plan :: A.IsCheckoutOf(op.e.op, id, plan)
  }

  ghost predicate NeverChecksOut(s: A.Setting, ops: seq<Operation>, id: Id) {
    forall k :: 0 <= k < |ops| ==> !CompletesCheckout(s, Run(s, ops[..k]), ops[k], id)
  }

  lemma StepHoldsFree(s: A.Setting, st: State, op: Operation, id: Id)
    requires s.provider.Stripe? && S.HeldBy(st.service, id) == {Free} && !CompletesCheckout(s, st, op, id)
    ensures S.HeldBy(Step(s, st, op).service, id) == {Free}
  {
    match op
    case Account(e) =>
      var stored := StoredPlan(s, st.accounts, e);
      if stored != [] {
        StoringPlan(st.service, stored[0].organization, stored[0].plan, id);
        if stored[0].organization == id && stored[0].plan != Free {
          A.PaidPlanIsSetByItsCheckout(s, st.accounts, e, id);
        }
      }
    case Service(o) =>
      if !o.DoSetPlan? {
        ServiceKeepsPlans(st.service, o);
      }
  }

  lemma {:induction false} OnlyFreeIsHeld(s: A.Setting, ops: seq<Operation>, id: Id)
    requires s.provider.Stripe? && NeverChecksOut(s, ops, id)
    ensures S.HeldBy(Run(s, ops).service, id) == {Free}
  {
    if ops != [] {
      var init := ops[..|ops| - 1];
      forall k | 0 <= k < |init|
        ensures !CompletesCheckout(s, Run(s, init[..k]), init[k], id)
      {
        assert init[..k] == ops[..k];
      }
      OnlyFreeIsHeld(s, init, id);
      StepHoldsFree(s, Run(s, init), ops[|ops| - 1], id);
    }
  }

  /** With Stripe, an organisation that never completed a checkout of its own stays within the limits
      of the Free plan, synchronous Trivy jobs not counted, whatever else happens in the run. */
  lemma FreeLimitsWithoutCheckout(s: A.Setting, ops: seq<Operation>, id: Id)
    requires s.provider.Stripe? && NeverChecksOut(s, ops, id) && id != NIL_ORGANIZATION
    ensures var st := Run(s, ops).service;
            && AssessmentsUsed(st.db, id) <= 3
            && |Counted(st, id)| <= 20
  {
    var steps := ServiceRun(s, ops);
    OnlyFreeIsHeld(s, ops, id);
    UsageStaysWithinPlansHeld(steps, id);
    assert Allows(Free, AssessmentCount, AssessmentsUsed(Run(s, ops).service.db, id));
  }
}
