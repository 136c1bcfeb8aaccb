/** Whole runs of sign-ups, team changes, password resets, subscriptions and webhooks. */
module AccountRuns {
  import opened Prelude
  import opened Assessments
  import opened Plans
  import opened Accounts

  datatype State = State(tables: Tables, clock: Time)

  datatype Operation =
    | DoSignup(organization: Id, user: Id, name: string, email: Email, password: Digest)
    | DoInvite(organization: Id, user: Id, email: Email, role: Role, password: Digest, raw: Secret)
    | DoChangeRole(organization: Id, user: Id, role: Role)
    | DoRemove(organization: Id, user: Id)
    | DoRequestReset(email: Email, raw: Secret)
    | DoReset(raw: Secret, password: Digest)
    | DoChangePlan(organization: Id, plan: Plan, fails: bool)
    | DoWebhook(event: StripeEvent)

  /** An operation and the time at which it reads the clock. */
  datatype Timed = At(op: Operation, now: Time)

  /** The foreign functions and the payment provider of a run. */
  datatype Setting = Setting(f: Foreign, provider: Provider)

  const INITIAL := State(Tables(map[], map[], []), 0)

  ghost predicate HashIsNew(t: Tables, hash: Digest) {
    forall k :: k in t.tokens ==> k.hash != hash
  }

  /** Ids are fresh, hashes of new tokens differ from all earlier ones, the clock does not go back. */
  ghost predicate Allowed(s: Setting, st: State, e: Timed) {
    && st.clock <= e.now
    && match e.op
       case DoSignup(organization, user, _, _, _) =>
         organization !in st.tables.organizations && user !in st.tables.users
       case DoInvite(_, user, _, _, _, raw) =>
         user !in st.tables.users && HashIsNew(st.tables, s.f.hashToken(raw))
       case DoRequestReset(_, raw) => HashIsNew(st.tables, s.f.hashToken(raw))
       case _ => true
  }

  ghost function Outcome(s: Setting, t: Tables, e: Timed): Result<Tables, Error> {
    match e.op
    case DoSignup(organization, user, name, email, password) =>
      Signup(t, s.f, organization, user, name, email, password)
    case DoInvite(organization, user, email, role, password, raw) =>
      Invite(t, s.f, organization, user, email, role, password, raw, e.now)
    case DoChangeRole(organization, user, role) => ChangeRole(t, organization, user, role)
    case DoRemove(organization, user) => Remove(t, organization, user)
    case DoRequestReset(email, raw) => Ok(RequestReset(t, s.f, email, raw, e.now))
    case DoReset(raw, password) => ResetPassword(t, s.f, raw, password, e.now)
    case DoChangePlan(organization, plan, fails) => ChangePlan(t, s.provider, organization, plan, fails)
    case DoWebhook(event) => HandleWebhook(t, s.provider, event)
  }

  /** Whose plan the operation sets, if it succeeds. */
  ghost function PlanSetBy(s: Setting, t: Tables, op: Operation): Option<Id> {
    match op
    case DoSignup(organization, _, _, _, _) => Some(organization)
    case DoChangePlan(organization, plan, fails) =>
      if StartPlanChange(s.provider, plan, SubscriptionOf(t, organization), fails) == Ok(true)
      then Some(organization) else None
    case DoWebhook(event) =>
      if s.provider.Mock? || OutcomeOf(event).Err? || OutcomeOf(event).value.None? then None
      else TargetOf(t, OutcomeOf(event).value.value)
    case _ => None
  }

  ghost function Perform(s: Setting, st: State, e: Timed): State {
    match Outcome(s, st.tables, e)
    case Err(_) => st.(clock := e.now)
    case Ok(t) => State(t, e.now)
  }

  ghost function Step(s: Setting, st: State, e: Timed): State {
    if Allowed(s, st, e) then Perform(s, st, e) else st
  }

  ghost function Run(s: Setting, st: State, es: seq<Timed>): State {
    if es == [] then st else Step(s, Run(s, st, es[..|es| - 1]), es[|es| - 1])
  }

  // ----- what every state keeps

  ghost predicate HasOwner(t: Tables, organization: Id) {
    exists user :: user in OwnersOf(t.users, organization)
  }

  ghost predicate OwnersKept(t: Tables) {
    forall id :: id in t.organizations ==> HasOwner(t, id)
  }

  ghost predicate Sound(st: State) {
    EmailsUnique(st.tables) && OwnersKept(st.tables) && CustomersDistinct(st.tables)
  }

  // ----- users

  lemma NewUserKeepsEmails(t: Tables, f: Foreign, user: User, t': Tables)
    requires EmailsUnique(t) && !EmailExists(t, f, user.email)
    requires user.id !in t.users && t'.users == t.users[user.id := user.(email := f.lower(user.email))]
    ensures EmailsUnique(t')
  {
    forall a, b | a in t'.users && b in t'.users && a != b
      ensures t'.users[a].email != t'.users[b].email
    {
      if a != user.id {
        assert t.users[a].email != f.lower(user.email);
      }
      if b != user.id {
        assert t.users[b].email != f.lower(user.email);
      }
    }
  }

  lemma AnotherOwner(owners: set<Id>, user: Id)
    requires |owners| > 1
    ensures exists other :: other in owners && other != user
  {
    var rest := owners - {user};
    assert |owners| <= |rest| + 1;
    var other :| other in rest;
  }

  lemma SignupKeepsOwners(t: Tables, f: Foreign, op: Operation, t': Tables)
    requires op.DoSignup? && OwnersKept(t) && op.organization !in t.organizations && op.user !in t.users
    requires Signup(t, f, op.organization, op.user, op.name, op.email, op.password) == Ok(t')
    ensures OwnersKept(t')
  {
    var user := t'.users[op.user];
    forall id | id in t'.organizations
      ensures HasOwner(t', id)
    {
      if id == op.organization {
        assert op.user in OwnersOf(t'.users, id);
      } else {
        var owner :| owner in OwnersOf(t.users, id);
        assert owner in OwnersOf(t'.users, id);
      }
    }
  }

  lemma InviteKeepsOwners(t: Tables, f: Foreign, op: Operation, now: Time, t': Tables)
    requires op.DoInvite? && OwnersKept(t) && op.user !in t.users
    requires Invite(t, f, op.organization, op.user, op.email, op.role, op.password, op.raw, now) == Ok(t')
    ensures OwnersKept(t')
  {
    forall id | id in t'.organizations
      ensures HasOwner(t', id)
    {
      var owner :| owner in OwnersOf(t.users, id);
      assert owner in OwnersOf(t'.users, id);
    }
  }

  /** The last-owner check leaves an owner behind. */
  lemma MemberChangeKeepsOwners(t: Tables, organization: Id, user: Id, t': Tables)
    requires OwnersKept(t) && IsMember(t, organization, user) && t'.organizations == t.organizations
    requires forall id :: id in t.users && id != user ==> id in t'.users && t'.users[id] == t.users[id]
    requires t.users[user].role == Owner && |OwnersOf(t.users, organization)| <= 1 ==>
               user in OwnersOf(t'.users, organization)
    ensures OwnersKept(t')
  {
    forall id | id in t'.organizations
      ensures HasOwner(t', id)
    {
      assert HasOwner(t, id);
      var owner :| owner in OwnersOf(t.users, id);
      if owner != user {
        assert owner in OwnersOf(t'.users, id);
      } else if |OwnersOf(t.users, organization)| > 1 {
        AnotherOwner(OwnersOf(t.users, organization), user);
        var other :| other in OwnersOf(t.users, organization) && other != user;
        assert other in OwnersOf(t'.users, id);
      } else {
        assert user in OwnersOf(t'.users, id);
      }
    }
  }

  lemma SamePeopleKeepOwners(t: Tables, t': Tables)
    requires OwnersKept(t) && t'.organizations.Keys <= t.organizations.Keys
    requires t'.users.Keys == t.users.Keys
    requires forall id :: id in t.users ==>
               t'.users[id].organization == t.users[id].organization && t'.users[id].role == t.users[id].role
    ensures OwnersKept(t')
  {
    forall id | id in t'.organizations
      ensures HasOwner(t', id)
    {
      assert HasOwner(t, id);
      var owner :| owner in OwnersOf(t.users, id);
      assert owner in OwnersOf(t'.users, id);
    }
  }

  lemma SameEmailsStayUnique(t: Tables, t': Tables)
    requires EmailsUnique(t) && t'.users.Keys <= t.users.Keys
    requires forall id :: id in t'.users ==> t'.users[id].email == t.users[id].email
    ensures EmailsUnique(t')
  {
  }

  lemma JoiningStaysSound(s: Setting, st: State, e: Timed, t': Tables)
    requires EmailsUnique(st.tables) && OwnersKept(st.tables) && Allowed(s, st, e)
    requires Outcome(s, st.tables, e) == Ok(t') && (e.op.DoSignup? || e.op.DoInvite?)
    ensures EmailsUnique(t') && OwnersKept(t')
  {
    var t := st.tables;
    if e.op.DoSignup? {
      NewUserKeepsEmails(t, s.f, User(e.op.user, e.op.email, e.op.password, e.op.organization, Owner), t');
      SignupKeepsOwners(t, s.f, e.op, t');
    } else {
      NewUserKeepsEmails(t, s.f, User(e.op.user, e.op.email, e.op.password, e.op.organization, e.op.role), t');
      InviteKeepsOwners(t, s.f, e.op, e.now, t');
    }
  }

  lemma MemberChangesStaySound(t: Tables, op: Operation, t': Tables)
    requires EmailsUnique(t) && OwnersKept(t)
    requires op.DoChangeRole? || op.DoRemove?
    requires if op.DoChangeRole? then ChangeRole(t, op.organization, op.user, op.role) == Ok(t')
             else Remove(t, op.organization, op.user) == Ok(t')
    ensures EmailsUnique(t') && OwnersKept(t')
  {
    MemberChangeKeepsOwners(t, op.organization, op.user, t');
    SameEmailsStayUnique(t, t');
  }

  lemma OthersLeavePeople(s: Setting, t: Tables, e: Timed, t': Tables)
    requires Outcome(s, t, e) == Ok(t')
    requires e.op.DoRequestReset? || e.op.DoReset? || e.op.DoChangePlan? || e.op.DoWebhook?
    ensures t'.organizations.Keys == t.organizations.Keys && t'.users.Keys == t.users.Keys
    ensures forall id :: id in t.users ==>
              && t'.users[id].organization == t.users[id].organization
              && t'.users[id].role == t.users[id].role
              && t'.users[id].email == t.users[id].email
  {
    if e.op.DoChangePlan? || e.op.DoWebhook? {
      BillingLeavesPeople(s, t, e, t');
    } else if e.op.DoReset? {
      assert t'.organizations == t.organizations;
    }
  }

  lemma BillingLeavesPeople(s: Setting, t: Tables, e: Timed, t': Tables)
    requires Outcome(s, t, e) == Ok(t') && (e.op.DoChangePlan? || e.op.DoWebhook?)
    ensures t'.organizations.Keys == t.organizations.Keys && t'.users == t.users && t'.tokens == t.tokens
  {
    forall organization, plan, customer, subscription
      ensures SameButOrganizations(t, WithPlan(t, organization, plan))
      ensures SameButOrganizations(t, WithStripeIds(WithPlan(t, organization, plan),
                                                organization, customer, subscription))
    {
    }
  }

  predicate SameButOrganizations(t: Tables, t': Tables) {
    t'.organizations.Keys == t.organizations.Keys && t'.users == t.users && t'.tokens == t.tokens
  }

  /** No step gives two users one email or leaves an organisation without owner. */
  lemma UsersStaySound(s: Setting, st: State, e: Timed, t': Tables)
    requires EmailsUnique(st.tables) && OwnersKept(st.tables) && Allowed(s, st, e)
    requires Outcome(s, st.tables, e) == Ok(t')
    ensures EmailsUnique(t') && OwnersKept(t')
  {
    if e.op.DoSignup? || e.op.DoInvite? {
      JoiningStaysSound(s, st, e, t');
    } else if e.op.DoChangeRole? || e.op.DoRemove? {
      MemberChangesStaySound(st.tables, e.op, t');
    } else {
      OthersLeavePeople(s, st.tables, e, t');
      SamePeopleKeepOwners(st.tables, t');
      SameEmailsStayUnique(st.tables, t');
    }
  }

  // ----- Stripe ids and plans

  lemma StripeIdsStayDistinct(t: Tables, organization: Id, customer: Option<StripeId>, subscription: Option<StripeId>)
    requires CustomersDistinct(t)
    ensures CustomersDistinct(WithStripeIds(t, organization, customer, subscription))
  {
  }

  lemma CustomersStayDistinct(s: Setting, st: State, e: Timed, t': Tables)
    requires CustomersDistinct(st.tables) && Allowed(s, st, e)
    requires Outcome(s, st.tables, e) == Ok(t')
    ensures CustomersDistinct(t')
  {
    var t := st.tables;
    match e.op
    case DoChangePlan(organization, plan, fails) =>
      StripeIdsStayDistinct(WithPlan(t, organization, plan), organization, CustomerOf(t, organization), None);
    case DoWebhook(event) =>
      if s.provider.Stripe? && OutcomeOf(event).value.Some? {
        var o := OutcomeOf(event).value.value;
        if TargetOf(t, o).Some? {
          var target := TargetOf(t, o).value;
          StripeIdsStayDistinct(WithPlan(t, target, o.plan), target, o.customer, o.subscription);
        }
      }
    case _ =>
  }

  lemma StepKeepsSound(s: Setting, st: State, e: Timed)
    requires Sound(st)
    ensures Sound(Step(s, st, e))
  {
    if Allowed(s, st, e) {
      match Outcome(s, st.tables, e)
      case Err(_) =>
      case Ok(t') =>
        UsersStaySound(s, st, e, t');
        CustomersStayDistinct(s, st, e, t');
    }
  }

  lemma {:induction false} RunsAreSound(s: Setting, es: seq<Timed>)
    ensures Sound(Run(s, INITIAL, es))
  {
    if es != [] {
      RunsAreSound(s, es[..|es| - 1]);
      StepKeepsSound(s, Run(s, INITIAL, es[..|es| - 1]), es[|es| - 1]);
    }
  }

  /** In every run each signed-up organisation keeps an owner and no two users share an email. */
  lemma OwnersAndEmailsAreKept(s: Setting, es: seq<Timed>, organization: Id, a: Id, b: Id)
    ensures var t := Run(s, INITIAL, es).tables;
            && (organization in t.organizations ==> OwnersOf(t.users, organization) != {})
            && (a in t.users && b in t.users && a != b ==> t.users[a].email != t.users[b].email)
  {
    RunsAreSound(s, es);
    var t := Run(s, INITIAL, es).tables;
    if organization in t.organizations {
      assert HasOwner(t, organization);
    }
  }

  /** In every run no two organisations share a Stripe customer id. */
  lemma CustomerIdsAreDistinct(s: Setting, es: seq<Timed>, a: Id, b: Id)
    ensures var orgs := Run(s, INITIAL, es).tables.organizations;
            a in orgs && b in orgs && a != b && orgs[a].customer.Some? ==> orgs[a].customer != orgs[b].customer
  {
    RunsAreSound(s, es);
  }

  /** The step at `e` sets the plan of organisation `id`. */
  ghost predicate SetsPlan(s: Setting, st: State, e: Timed, id: Id) {
    && Allowed(s, st, e)
    && Outcome(s, st.tables, e).Ok?
    && PlanSetBy(s, st.tables, e.op) == Some(id)
  }

  /** A step that does not set an organisation's plan leaves it as it was. */
  lemma PlanChangesOnlyWhenSet(s: Setting, st: State, e: Timed, id: Id)
    requires !SetsPlan(s, st, e, id) && id in Step(s, st, e).tables.organizations
    ensures id in st.tables.organizations
    ensures Step(s, st, e).tables.organizations[id].plan == st.tables.organizations[id].plan
  {
  }

  lemma PaidPlanIsSetByItsCheckout(s: Setting, st: State, e: Timed, id: Id)
    requires s.provider.Stripe? && SetsPlan(s, st, e, id)
    requires id in Step(s, st, e).tables.organizations && Step(s, st, e).tables.organizations[id].plan != Free
    ensures IsCheckoutOf(e.op, id, Step(s, st, e).tables.organizations[id].plan)
  {
  }

  /** A completed checkout that names `id` and, if not by default Pro, the plan. */
  predicate IsCheckoutOf(op: Operation, id: Id, plan: Plan) {
    && op.DoWebhook? && op.event.CheckoutCompleted? && op.event.reference == Reference(id)
    && plan == if op.event.plan.PlanNamed? then op.event.plan.plan else Pro
  }

  /** With Stripe, an organisation on a paid plan owes it to a completed checkout of its own at
      some step `k` of the run, after which no step has set its plan. */
  lemma {:induction false} PaidPlanHasItsCheckout(s: Setting, es: seq<Timed>, id: Id) returns (k: nat)
    requires s.provider.Stripe? && id in Run(s, INITIAL, es).tables.organizations
    requires Run(s, INITIAL, es).tables.organizations[id].plan != Free
    ensures k < |es| && IsCheckoutOf(es[k].op, id, Run(s, INITIAL, es).tables.organizations[id].plan)
    ensures SetsPlan(s, Run(s, INITIAL, es[..k]), es[k], id)
    ensures forall m :: k < m < |es| ==> !SetsPlan(s, Run(s, INITIAL, es[..m]), es[m], id)
  {
    var n := |es| - 1;
    var st := Run(s, INITIAL, es[..n]);
    if SetsPlan(s, st, es[n], id) {
      PaidPlanIsSetByItsCheckout(s, st, es[n], id);
      k := n;
    } else {
      PlanChangesOnlyWhenSet(s, st, es[n], id);
      k := PaidPlanHasItsCheckout(s, es[..n], id);
      assert es[..n][..k] == es[..k];
      forall m | k < m < |es|
        ensures !SetsPlan(s, Run(s, INITIAL, es[..m]), es[m], id)
      {
        if m < n {
          assert es[..n][..m] == es[..m];
        }
      }
    }
  }

  /** A subscription deletion for a customer id an organisation holds returns that organisation to
      Free without subscription and touches no other; for an id nobody holds it changes nothing. */
  lemma DeletionReturnsHolderToFree(t: Tables, hasProPrice: bool, customer: StripeId, id: Id)
    requires CustomersDistinct(t) && id in t.organizations
    ensures HandleWebhook(t, Stripe(hasProPrice), SubscriptionDeleted(Some(customer))).Ok?
    ensures var t' := HandleWebhook(t, Stripe(hasProPrice), SubscriptionDeleted(Some(customer))).value;
            && t'.users == t.users && t'.tokens == t.tokens && t'.organizations.Keys == t.organizations.Keys
            && t'.organizations[id]
               == if t.organizations[id].customer == Some(customer)
                  then t.organizations[id].(plan := Free, subscription := None)
                  else t.organizations[id]
  {
    var holder := HolderOf(t, customer);
    if holder.Some? && t.organizations[id].customer == Some(customer) {
      assert holder.value == id;
    }
  }

  // ----- a customer id that moves to another organisation

  /** The step is a completed checkout that carries customer `c` and names an organisation other
      than `id`. It takes the customer id from `id` and leaves the plan of `id` alone. */
  ghost predicate TakesCustomer(s: Setting, st: State, e: Timed, id: Id, c: StripeId) {
    && s.provider.Stripe? && Allowed(s, st, e) && Outcome(s, st.tables, e).Ok?
    && e.op.DoWebhook? && e.op.event.CheckoutCompleted? && e.op.event.customer == Some(c)
    && e.op.event.reference.Reference? && e.op.event.reference.organization != id
  }

  predicate Holds(t: Tables, id: Id, c: StripeId) {
    id in t.organizations && t.organizations[id].customer == Some(c)
  }

  /** Writing ids and plan of one organisation takes the customer id from all others. */
  lemma OthersLoseCustomer(t: Tables, target: Id, plan: Plan, customer: Option<StripeId>,
                           subscription: Option<StripeId>,
                           id: Id, c: StripeId)
    requires target != id
    ensures Holds(WithStripeIds(WithPlan(t, target, plan), target, customer, subscription), id, c)
       <==> Holds(t, id, c) && customer != Some(c)
    ensures Holds(WithPlan(t, target, plan), id, c) <==> Holds(t, id, c)
  {
  }

  lemma SubscribingKeepsCustomers(t: Tables, p: Provider, op: Operation, id: Id, c: StripeId)
    requires op.DoChangePlan? && CustomersDistinct(t)
    requires ChangePlan(t, p, op.organization, op.plan, op.fails).Ok?
    requires StartPlanChange(p, op.plan, SubscriptionOf(t, op.organization), op.fails) == Ok(true) ==>
               op.organization != id
    ensures Holds(ChangePlan(t, p, op.organization, op.plan, op.fails).value, id, c) <==> Holds(t, id, c)
  {
    if op.organization != id {
      OthersLoseCustomer(t, op.organization, op.plan, CustomerOf(t, op.organization), None, id, c);
    }
  }

  lemma WebhookTakesCustomer(t: Tables, p: Provider, event: StripeEvent, id: Id, c: StripeId)
    requires p.Stripe? && HandleWebhook(t, p, event).Ok? && CustomersDistinct(t)
    requires OutcomeOf(event).Ok? && OutcomeOf(event).value.Some? ==>
               TargetOf(t, OutcomeOf(event).value.value) != Some(id)
    ensures Holds(HandleWebhook(t, p, event).value, id, c)
       <==> Holds(t, id, c) && !(event.CheckoutCompleted? && event.customer == Some(c)
                                 && event.reference.Reference? && event.reference.organization != id)
  {
    if OutcomeOf(event).value.Some? {
      var o := OutcomeOf(event).value.value;
      if TargetOf(t, o).Some? {
        OthersLoseCustomer(t, TargetOf(t, o).value, o.plan, o.customer, o.subscription, id, c);
      }
    }
  }

  lemma OthersKeepOrganizations(s: Setting, t: Tables, e: Timed, id: Id)
    requires !e.op.DoChangePlan? && !e.op.DoWebhook? && (e.op.DoSignup? ==> e.op.organization != id)
    requires Outcome(s, t, e).Ok?
    ensures var t' := Outcome(s, t, e).value;
            && (id in t'.organizations <==> id in t.organizations)
            && (id in t.organizations ==> t'.organizations[id] == t.organizations[id])
  {
  }

  /** Between settings of its plan an organisation keeps its customer id unless it is taken, and
      gets no other. */
  lemma CustomerIsKeptUnlessTaken(s: Setting, st: State, e: Timed, id: Id, c: StripeId)
    requires s.provider.Stripe? && Sound(st) && !SetsPlan(s, st, e, id)
    ensures Holds(Step(s, st, e).tables, id, c) <==> Holds(st.tables, id, c) && !TakesCustomer(s, st, e, id, c)
  {
    var t := st.tables;
    if Allowed(s, st, e) && Outcome(s, t, e).Ok? {
      if e.op.DoChangePlan? {
        SubscribingKeepsCustomers(t, s.provider, e.op, id, c);
      } else if e.op.DoWebhook? {
        WebhookTakesCustomer(t, s.provider, e.op.event, id, c);
      } else {
        OthersKeepOrganizations(s, t, e, id);
      }
    }
  }

  lemma OwnCheckoutBringsCustomer(s: Setting, st: State, e: Timed, id: Id, plan: Plan, c: StripeId)
    requires s.provider.Stripe? && SetsPlan(s, st, e, id) && IsCheckoutOf(e.op, id, plan)
    requires e.op.event.customer == Some(c) && id in Step(s, st, e).tables.organizations
    ensures Holds(Step(s, st, e).tables, id, c)
  {
  }

  /** Step `k` sets the plan of `id` by its own checkout with customer `c`, and no later step sets it. */
  ghost predicate LastCheckout(s: Setting, es: seq<Timed>, k: nat, id: Id, c: StripeId)
    requires k < |es|
  {
    && SetsPlan(s, Run(s, INITIAL, es[..k]), es[k], id)
    && (exists plan :: IsCheckoutOf(es[k].op, id, plan)) && es[k].op.event.customer == Some(c)
    && forall m :: k < m < |es| ==> !SetsPlan(s, Run(s, INITIAL, es[..m]), es[m], id)
  }

  ghost predicate TakenAt(s: Setting, es: seq<Timed>, m: nat, id: Id, c: StripeId)
    requires m < |es|
  {
    TakesCustomer(s, Run(s, INITIAL, es[..m]), es[m], id, c)
  }

  /** No step after `k` takes the customer id. */
  ghost predicate NeverTaken(s: Setting, es: seq<Timed>, k: nat, id: Id, c: StripeId) {
    forall m: nat :: k < m < |es| ==> !TakenAt(s, es, m, id, c)
  }

  lemma LastCheckoutOfPrefix(s: Setting, es: seq<Timed>, k: nat, id: Id, c: StripeId)
    requires k < |es| - 1 && LastCheckout(s, es, k, id, c)
    ensures LastCheckout(s, es[..|es| - 1], k, id, c)
    ensures !SetsPlan(s, Run(s, INITIAL, es[..|es| - 1]), es[|es| - 1], id)
  {
    var init := es[..|es| - 1];
    assert init[..k] == es[..k];
    forall m | k < m < |init|
      ensures !SetsPlan(s, Run(s, INITIAL, init[..m]), init[m], id)
    {
      assert init[..m] == es[..m];
    }
  }

  lemma NeverTakenOfPrefix(s: Setting, es: seq<Timed>, k: nat, id: Id, c: StripeId)
    requires k < |es| - 1
    ensures NeverTaken(s, es, k, id, c)
       <==> NeverTaken(s, es[..|es| - 1], k, id, c) && !TakenAt(s, es, |es| - 1, id, c)
  {
    var init := es[..|es| - 1];
    forall m: nat | m < |init|
      ensures TakenAt(s, init, m, id, c) <==> TakenAt(s, es, m, id, c)
    {
      assert init[..m] == es[..m];
    }
  }

  lemma HoldsAfterCheckout(s: Setting, es: seq<Timed>, id: Id, c: StripeId)
    requires s.provider.Stripe? && es != [] && LastCheckout(s, es, |es| - 1, id, c)
    requires id in Run(s, INITIAL, es).tables.organizations
    ensures Holds(Run(s, INITIAL, es).tables, id, c)
  {
    var n := |es| - 1;
    var plan :| IsCheckoutOf(es[n].op, id, plan);
    OwnCheckoutBringsCustomer(s, Run(s, INITIAL, es[..n]), es[n], id, plan, c);
  }

  lemma {:induction false} HoldsUnlessTaken(s: Setting, es: seq<Timed>, k: nat, id: Id, c: StripeId)
    requires s.provider.Stripe? && k < |es| && LastCheckout(s, es, k, id, c)
    requires id in Run(s, INITIAL, es).tables.organizations
    ensures Holds(Run(s, INITIAL, es).tables, id, c) <==> NeverTaken(s, es, k, id, c)
  {
    var n := |es| - 1;
    var st := Run(s, INITIAL, es[..n]);
    if n == k {
      HoldsAfterCheckout(s, es, id, c);
    } else {
      LastCheckoutOfPrefix(s, es, k, id, c);
      NeverTakenOfPrefix(s, es, k, id, c);
      PlanChangesOnlyWhenSet(s, st, es[n], id);
      HoldsUnlessTaken(s, es[..n], k, id, c);
      RunsAreSound(s, es[..n]);
      CustomerIsKeptUnlessTaken(s, st, es[n], id, c);
    }
  }

  /** With Stripe, an organisation on a paid plan stays on it through the deletion of the customer its
      last checkout carried, exactly when a later checkout named another organisation with that
      customer. */
  lemma PaidPlanOutlivesDeletionIff(s: Setting, es: seq<Timed>, k: nat, id: Id, c: StripeId)
    requires s.provider.Stripe? && k < |es| && LastCheckout(s, es, k, id, c)
    requires id in Run(s, INITIAL, es).tables.organizations
    requires Run(s, INITIAL, es).tables.organizations[id].plan != Free
    ensures var deleted := HandleWebhook(Run(s, INITIAL, es).tables, s.provider, SubscriptionDeleted(Some(c)));
            && deleted.Ok? && id in deleted.value.organizations
            && (deleted.value.organizations[id].plan != Free
                <==> exists m: nat :: k < m < |es| && TakenAt(s, es, m, id, c))
  {
    RunsAreSound(s, es);
    HoldsUnlessTaken(s, es, k, id, c);
    DeletionReturnsHolderToFree(Run(s, INITIAL, es).tables, s.provider.hasProPrice, c, id);
  }

  // ----- reset tokens

  ghost predicate Issued(t: Tables, hash: Digest) {
    exists i :: 0 <= i < |t.tokens| && t.tokens[i].hash == hash
  }

  /** The token was issued and resolves to nobody at the state's time. */
  ghost predicate Dead(st: State, hash: Digest) {
    Issued(st.tables, hash) && Resolve(st.tables.tokens, hash, st.clock).None?
  }

  /** Token rows are kept, and a used or expired one stays so; new rows have new hashes. */
  ghost predicate TokensAge(tokens: seq<Token>, tokens': seq<Token>, hash: Digest, now: Time, now': Time) {
    && |tokens| <= |tokens'|
    && (forall i :: 0 <= i < |tokens| ==> tokens'[i].hash == tokens[i].hash)
    && (forall i :: 0 <= i < |tokens| && !Accounts.Valid(tokens[i], hash, now) ==>
          !Accounts.Valid(tokens'[i], hash, now'))
    && (forall i :: |tokens| <= i < |tokens'| ==> forall k :: k in tokens ==> k.hash != tokens'[i].hash)
  }

  datatype TokenChange = Kept | Added(token: Token) | Used(hash: Digest)

  ghost predicate Changes(tokens: seq<Token>, tokens': seq<Token>, c: TokenChange) {
    match c
    case Kept => tokens' == tokens
    case Added(token) => tokens' == tokens + [token] && forall k :: k in tokens ==> k.hash != token.hash
    case Used(hash) => tokens' == MarkedUsed(tokens, hash)
  }

  lemma StepChanges(s: Setting, st: State, e: Timed) returns (c: TokenChange)
    ensures Changes(st.tables.tokens, Step(s, st, e).tables.tokens, c)
    ensures st.clock <= Step(s, st, e).clock
    ensures Allowed(s, st, e) && e.op.DoReset? && Outcome(s, st.tables, e).Ok? ==> c == Used(s.f.hashToken(e.op.raw))
  {
    c := Kept;
    if Allowed(s, st, e) && Outcome(s, st.tables, e).Ok? {
      if e.op.DoInvite? {
        c := Added(NewToken(s.f, e.op.user, e.op.raw, e.now));
      } else if e.op.DoRequestReset? && UserIdByEmail(st.tables, s.f, e.op.email).Some? {
        c := Added(NewToken(s.f, UserIdByEmail(st.tables, s.f, e.op.email).value, e.op.raw, e.now));
      } else if e.op.DoReset? {
        c := Used(s.f.hashToken(e.op.raw));
      } else {
        OthersLeaveTokens(s, st.tables, e);
      }
    }
  }

  lemma OthersLeaveTokens(s: Setting, t: Tables, e: Timed)
    requires Outcome(s, t, e).Ok? && !e.op.DoInvite? && !e.op.DoReset?
    requires e.op.DoRequestReset? ==> UserIdByEmail(t, s.f, e.op.email).None?
    ensures Outcome(s, t, e).value.tokens == t.tokens
  {
  }

  lemma ChangesAge(tokens: seq<Token>, tokens': seq<Token>, c: TokenChange, hash: Digest, now: Time, now': Time)
    requires Changes(tokens, tokens', c) && now <= now'
    ensures TokensAge(tokens, tokens', hash, now, now')
  {
  }

  lemma StepAges(s: Setting, st: State, e: Timed, hash: Digest)
    ensures TokensAge(st.tables.tokens, Step(s, st, e).tables.tokens, hash, st.clock, Step(s, st, e).clock)
  {
    var c := StepChanges(s, st, e);
    ChangesAge(st.tables.tokens, Step(s, st, e).tables.tokens, c, hash, st.clock, Step(s, st, e).clock);
  }

  lemma DeadStaysDead(s: Setting, st: State, e: Timed, hash: Digest)
    requires Dead(st, hash)
    ensures Dead(Step(s, st, e), hash)
  {
    StepAges(s, st, e, hash);
    var tokens, tokens' := st.tables.tokens, Step(s, st, e).tables.tokens;
    var i :| 0 <= i < |tokens| && tokens[i].hash == hash;
    assert tokens'[i].hash == hash;
    forall k | 0 <= k < |tokens'|
      ensures !Accounts.Valid(tokens'[k], hash, Step(s, st, e).clock)
    {
      if k < |tokens| {
        assert tokens[k] in tokens;
      } else {
        assert tokens[i] in tokens;
      }
    }
  }

  /** An issued token that stops resolving never resolves again. */
  lemma {:induction false} DeadTokensStayDead(s: Setting, st: State, es: seq<Timed>, hash: Digest)
    requires Dead(st, hash)
    ensures Dead(Run(s, st, es), hash)
  {
    if es != [] {
      DeadTokensStayDead(s, st, es[..|es| - 1], hash);
      DeadStaysDead(s, Run(s, st, es[..|es| - 1]), es[|es| - 1], hash);
    }
  }

  /** The step resets a password with token `raw`. */
  ghost predicate Resets(s: Setting, st: State, e: Timed, raw: Secret) {
    Allowed(s, st, e) && e.op.DoReset? && e.op.raw == raw && Outcome(s, st.tables, e).Ok?
  }

  ghost function ResetCount(s: Setting, es: seq<Timed>, raw: Secret): nat {
    if es == [] then 0
    else ResetCount(s, es[..|es| - 1], raw)
         + if Resets(s, Run(s, INITIAL, es[..|es| - 1]), es[|es| - 1], raw) then 1 else 0
  }

  lemma ResettingKills(s: Setting, st: State, e: Timed, raw: Secret)
    requires Resets(s, st, e, raw)
    ensures Dead(Step(s, st, e), s.f.hashToken(raw)) && !Dead(st, s.f.hashToken(raw))
  {
    var hash, tokens := s.f.hashToken(raw), st.tables.tokens;
    var c := StepChanges(s, st, e);
    ResolvedTokenIsValid(tokens, hash, st.clock, e.now);
    UsedIsDead(tokens, hash, Step(s, st, e).clock);
  }

  lemma ResolvedTokenIsValid(tokens: seq<Token>, hash: Digest, earlier: Time, now: Time)
    requires Resolve(tokens, hash, now).Some? && earlier <= now
    ensures Resolve(tokens, hash, earlier).Some?
    ensures exists i :: 0 <= i < |tokens| && tokens[i].hash == hash
  {
    var k :| k in tokens && Accounts.Valid(k, hash, now);
    assert Accounts.Valid(k, hash, earlier);
  }

  lemma UsedIsDead(tokens: seq<Token>, hash: Digest, now: Time)
    requires exists i :: 0 <= i < |tokens| && tokens[i].hash == hash
    ensures exists i :: 0 <= i < |tokens| && MarkedUsed(tokens, hash)[i].hash == hash
    ensures Resolve(MarkedUsed(tokens, hash), hash, now).None?
  {
    var i :| 0 <= i < |tokens| && tokens[i].hash == hash;
    var tokens' := MarkedUsed(tokens, hash);
    assert tokens'[i].hash == hash;
    forall k | k in tokens' ensures !Accounts.Valid(k, hash, now) {
      var m :| 0 <= m < |tokens'| && tokens'[m] == k;
    }
  }

  /** In every run a token resets a password at most once. */
  lemma {:induction false} TokensResetOnce(s: Setting, es: seq<Timed>, raw: Secret)
    ensures ResetCount(s, es, raw) <= 1
    ensures ResetCount(s, es, raw) == 1 ==> Dead(Run(s, INITIAL, es), s.f.hashToken(raw))
  {
    if es != [] {
      var init, e := es[..|es| - 1], es[|es| - 1];
      TokensResetOnce(s, init, raw);
      var st := Run(s, INITIAL, init);
      if Resets(s, st, e, raw) {
        ResettingKills(s, st, e, raw);
      } else if ResetCount(s, init, raw) == 1 {
        DeadStaysDead(s, st, e, s.f.hashToken(raw));
      }
    }
  }

  // ----- where passwords come from

  /** The step issues token `k`: it invites its user, or its user asks for a reset. */
  ghost predicate Issues(s: Setting, st: State, e: Timed, k: Token) {
    && Allowed(s, st, e) && Outcome(s, st.tables, e).Ok?
    && k.expiresAt == e.now + RESET_TOKEN_TTL
    && match e.op
       case DoInvite(_, user, _, _, _, raw) => k.user == user && k.hash == s.f.hashToken(raw)
       case DoRequestReset(email, raw) =>
         UserIdByEmail(st.tables, s.f, email) == Some(k.user) && k.hash == s.f.hashToken(raw)
       case _ => false
  }

  /** Marking a token used changes neither its user nor its hash nor its expiry. */
  lemma TokenStaysOrIsIssued(s: Setting, st: State, e: Timed, i: nat)
    requires i < |Step(s, st, e).tables.tokens|
    ensures var k, tokens := Step(s, st, e).tables.tokens[i], st.tables.tokens;
            if i < |tokens| then k.(used := tokens[i].used) == tokens[i] else Issues(s, st, e, k.(used := false))
  {
    var c := StepChanges(s, st, e);
    if Allowed(s, st, e) && Outcome(s, st.tables, e).Ok? {
      if !e.op.DoInvite? && !e.op.DoReset?
         && (e.op.DoRequestReset? ==> UserIdByEmail(st.tables, s.f, e.op.email).None?) {
        OthersLeaveTokens(s, st.tables, e);
      }
    }
  }

  /** Every token of a run was issued at some step of it. */
  lemma {:induction false} TokensAreIssued(s: Setting, es: seq<Timed>, i: nat) returns (m: nat)
    requires i < |Run(s, INITIAL, es).tables.tokens|
    ensures m < |es| && Issues(s, Run(s, INITIAL, es[..m]), es[m], Run(s, INITIAL, es).tables.tokens[i].(used := false))
  {
    var n := |es| - 1;
    var st := Run(s, INITIAL, es[..n]);
    TokenStaysOrIsIssued(s, st, es[n], i);
    if i < |st.tables.tokens| {
      m := TokensAreIssued(s, es[..n], i);
      assert es[..n][..m] == es[..m];
    } else {
      m := n;
    }
  }

  /** Only a successful reset changes the password of a user who stays, and only that of the
      token's user. */
  lemma PasswordChangeIsReset(s: Setting, st: State, e: Timed, user: Id)
    requires user in st.tables.users && user in Step(s, st, e).tables.users
    requires Step(s, st, e).tables.users[user].password != st.tables.users[user].password
    ensures Allowed(s, st, e) && e.op.DoReset?
    ensures Step(s, st, e).tables.users[user].password == e.op.password
    ensures exists i :: 0 <= i < |st.tables.tokens| && st.tables.tokens[i].user == user
                        && Accounts.Valid(st.tables.tokens[i], s.f.hashToken(e.op.raw), e.now)
  {
    if e.op.DoReset? {
      var k :| k in st.tables.tokens && Accounts.Valid(k, s.f.hashToken(e.op.raw), e.now) && k.user == user;
    }
  }

  /** Step `m` of the run issues a token with this hash to the user, good for thirty minutes. */
  ghost predicate IssuesTo(s: Setting, es: seq<Timed>, m: nat, user: Id, hash: Digest)
    requires m < |es|
  {
    Issues(s, Run(s, INITIAL, es[..m]), es[m], Token(user, hash, es[m].now + RESET_TOKEN_TTL, false))
  }

  /** In every run the last step changes a user's password only by a reset with a token issued to
      that user, by an invitation or on request, at some step `m` at most thirty minutes before. */
  lemma {:induction false} PasswordsChangeByOwnTokenOnly(s: Setting, es: seq<Timed>, user: Id)
    requires es != []
    requires var before, after := Run(s, INITIAL, es[..|es| - 1]).tables.users, Run(s, INITIAL, es).tables.users;
             user in before && user in after && after[user].password != before[user].password
    ensures var last := es[|es| - 1];
            && last.op.DoReset? && Run(s, INITIAL, es).tables.users[user].password == last.op.password
            && exists m :: && 0 <= m < |es| - 1 && IssuesTo(s, es, m, user, s.f.hashToken(last.op.raw))
                           && es[m].now <= last.now <= es[m].now + RESET_TOKEN_TTL
  {
    var init, last := es[..|es| - 1], es[|es| - 1];
    var st := Run(s, INITIAL, init);
    PasswordChangeIsReset(s, st, last, user);
    var i :| 0 <= i < |st.tables.tokens| && st.tables.tokens[i].user == user
             && Accounts.Valid(st.tables.tokens[i], s.f.hashToken(last.op.raw), last.now);
    var m := ValidTokenWasIssued(s, init, i, user, s.f.hashToken(last.op.raw), last.now);
    assert init[..m] == es[..m];
    assert IssuesTo(s, es, m, user, s.f.hashToken(last.op.raw));
  }

  lemma ValidTokenWasIssued(s: Setting, es: seq<Timed>, i: nat, user: Id, hash: Digest, now: Time) returns (m: nat)
    requires i < |Run(s, INITIAL, es).tables.tokens| && Run(s, INITIAL, es).clock <= now
    requires Run(s, INITIAL, es).tables.tokens[i].user == user
    requires Accounts.Valid(Run(s, INITIAL, es).tables.tokens[i], hash, now)
    ensures m < |es| && IssuesTo(s, es, m, user, hash)
    ensures es[m].now <= now <= es[m].now + RESET_TOKEN_TTL
  {
    m := TokensAreIssued(s, es, i);
    ClockPasses(s, es, m);
  }

  lemma {:induction false} ClockPasses(s: Setting, es: seq<Timed>, m: nat)
    requires m < |es| && Allowed(s, Run(s, INITIAL, es[..m]), es[m])
    ensures es[m].now <= Run(s, INITIAL, es).clock
  {
    var n := |es| - 1;
    if m < n {
      assert es[..n][..m] == es[..m];
      ClockPasses(s, es[..n], m);
    }
  }
}
