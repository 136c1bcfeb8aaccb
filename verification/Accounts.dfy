/**
Users, organisations, password-reset tokens and plans, and the operations on them as functions.
Times are microseconds. `Foreign` holds the foreign functions: lower-casing and the token hash.
*/
module Accounts {
  import opened Prelude
  import opened Assessments
  import opened Plans

  type Time = int

  const RESET_TOKEN_TTL: Time := 30 * 60 * 1000000

  datatype Email = Email(text: string)
  datatype Secret = Secret(text: string)
  datatype Digest = Digest(text: string)
  datatype StripeId = StripeId(text: string)

  datatype Foreign = Foreign(lower: Email -> Email, hashToken: Secret -> Digest)

  datatype Role = Owner | Admin | Member

  datatype User = User(id: Id, email: Email, password: Digest, organization: Id, role: Role)

  datatype Organization = Organization(
    id: Id, name: string, plan: Plan, customer: Option<StripeId>, subscription: Option<StripeId>)

  datatype Token = Token(user: Id, hash: Digest, expiresAt: Time, used: bool)

  /** The tables; token rows in insertion order. */
  datatype Tables = Tables(users: map<Id, User>, organizations: map<Id, Organization>, tokens: seq<Token>)

  datatype Error = EmailTaken | NoSuchMember | LastOwner | InvalidToken | ProviderError | BadEvent

  // ----- users

  predicate EmailExists(t: Tables, f: Foreign, email: Email) {
    exists id :: id in t.users && t.users[id].email == f.lower(email)
  }

  ghost function UserIdByEmail(t: Tables, f: Foreign, email: Email): (user: Option<Id>)
    ensures user.None? <==> !EmailExists(t, f, email)
    ensures user.Some? ==> user.value in t.users && t.users[user.value].email == f.lower(email)
  {
    if EmailExists(t, f, email) then
      var id :| id in t.users && t.users[id].email == f.lower(email);
      Some(id)
    else None
  }

  predicate EmailsUnique(t: Tables) {
    forall a, b :: a in t.users && b in t.users && a != b ==> t.users[a].email != t.users[b].email
  }

  function OwnersOf(users: map<Id, User>, organization: Id): set<Id> {
    set id | id in users && users[id].organization == organization && users[id].role == Owner
  }

  predicate IsMember(t: Tables, organization: Id, user: Id) {
    user in t.users && t.users[user].organization == organization
  }

  // ----- signing up, inviting, changing roles, removing

  function Signup(t: Tables, f: Foreign, organization: Id, user: Id, name: string, email: Email, password: Digest)
    : Result<Tables, Error>
  {
    if EmailExists(t, f, email) then Err(EmailTaken)
    else Ok(t.(organizations := t.organizations[organization := Organization(organization, name, Free, None, None)],
               users := t.users[user := User(user, f.lower(email), password, organization, Owner)]))
  }

  function NewToken(f: Foreign, user: Id, raw: Secret, now: Time): Token {
    Token(user, f.hashToken(raw), now + RESET_TOKEN_TTL, false)
  }

  function Invite(t: Tables, f: Foreign, organization: Id, user: Id, email: Email, role: Role, password: Digest,
                  raw: Secret, now: Time): Result<Tables, Error> {
    if EmailExists(t, f, email) then Err(EmailTaken)
    else Ok(t.(users := t.users[user := User(user, f.lower(email), password, organization, role)],
               tokens := t.tokens + [NewToken(f, user, raw, now)]))
  }

  function ChangeRole(t: Tables, organization: Id, user: Id, role: Role): Result<Tables, Error> {
    if !IsMember(t, organization, user) then Err(NoSuchMember)
    else if t.users[user].role == Owner && role != Owner && |OwnersOf(t.users, organization)| <= 1 then Err(LastOwner)
    else Ok(t.(users := t.users[user := t.users[user].(role := role)]))
  }

  function Remove(t: Tables, organization: Id, user: Id): Result<Tables, Error> {
    if !IsMember(t, organization, user) then Err(NoSuchMember)
    else if t.users[user].role == Owner && |OwnersOf(t.users, organization)| <= 1 then Err(LastOwner)
    else Ok(t.(users := t.users - {user}))
  }

  // ----- password reset

  ghost function RequestReset(t: Tables, f: Foreign, email: Email, raw: Secret, now: Time): Tables {
    match UserIdByEmail(t, f, email)
    case None => t
    case Some(id) => t.(tokens := t.tokens + [NewToken(f, id, raw, now)])
  }

  predicate Valid(k: Token, hash: Digest, now: Time) {
    k.hash == hash && !k.used && now <= k.expiresAt
  }

  /** The user of the first unused, unexpired row with this hash. */
  function Resolve(tokens: seq<Token>, hash: Digest, now: Time): (user: Option<Id>)
    ensures user.None? <==> forall k :: k in tokens ==> !Valid(k, hash, now)
    ensures user.Some? ==> exists k :: k in tokens && Valid(k, hash, now) && k.user == user.value
  {
    if tokens == [] then None
    else if Valid(tokens[0], hash, now) then Some(tokens[0].user)
    else Resolve(tokens[1..], hash, now)
  }

  function MarkedUsed(tokens: seq<Token>, hash: Digest): (r: seq<Token>)
    ensures |r| == |tokens|
    ensures forall i :: 0 <= i < |tokens| ==>
              r[i] == if tokens[i].hash == hash then tokens[i].(used := true) else tokens[i]
  {
    if tokens == [] then []
    else [if tokens[0].hash == hash then tokens[0].(used := true) else tokens[0]] + MarkedUsed(tokens[1..], hash)
  }

  /** A token of a user removed meanwhile is still consumed. */
  function ResetPassword(t: Tables, f: Foreign, raw: Secret, password: Digest, now: Time): Result<Tables, Error> {
    match Resolve(t.tokens, f.hashToken(raw), now)
    case None => Err(InvalidToken)
    case Some(id) =>
      Ok(t.(users := if id in t.users then t.users[id := t.users[id].(password := password)] else t.users,
            tokens := MarkedUsed(t.tokens, f.hashToken(raw))))
  }

  // ----- plans

  /** `Stripe` says whether a price is configured for the Pro plan. */
  datatype Provider = Mock | Stripe(hasProPrice: bool)

  function WithPlan(t: Tables, organization: Id, plan: Plan): Tables {
    if organization !in t.organizations then t
    else t.(organizations := t.organizations[organization := t.organizations[organization].(plan := plan)])
  }

  function CustomerCleared(o: Organization, customer: Option<StripeId>): Organization {
    if customer.Some? && o.customer == customer then o.(customer := None) else o
  }

  /** The customer id is taken from every other organisation, then both ids are written here. */
  function WithStripeIds(t: Tables, organization: Id, customer: Option<StripeId>, subscription: Option<StripeId>)
    : Tables {
    t.(organizations :=
         map id | id in t.organizations ::
           if id == organization then t.organizations[id].(customer := customer, subscription := subscription)
           else CustomerCleared(t.organizations[id], customer))
  }

  /** Whether the provider activates the plan at once; `fails` is a foreign call that raises. */
  function StartPlanChange(p: Provider, plan: Plan, subscription: Option<StripeId>, fails: bool): Result<bool, Error> {
    match p
    case Mock => Ok(true)
    case Stripe(hasProPrice) =>
      match plan
      case Free => if subscription.Some? && fails then Err(ProviderError) else Ok(true)
      case Enterprise => Err(ProviderError)
      case Pro => if !hasProPrice || fails then Err(ProviderError) else Ok(false)
  }

  function CustomerOf(t: Tables, organization: Id): Option<StripeId> {
    if organization in t.organizations then t.organizations[organization].customer else None
  }

  function SubscriptionOf(t: Tables, organization: Id): Option<StripeId> {
    if organization in t.organizations then t.organizations[organization].subscription else None
  }

  function ChangePlan(t: Tables, p: Provider, organization: Id, plan: Plan, fails: bool): Result<Tables, Error> {
    match StartPlanChange(p, plan, SubscriptionOf(t, organization), fails)
    case Err(e) => Err(e)
    case Ok(activated) =>
      if !activated then Ok(t)
      else
        var t' := WithPlan(t, organization, plan);
        Ok(if plan == Free then WithStripeIds(t', organization, CustomerOf(t, organization), None) else t')
  }

  // ----- webhooks

  datatype Reference = NoReference | BadReference | Reference(organization: Id)
  datatype PlanField = PlanAbsent | PlanUnknown | PlanNamed(plan: Plan)

  /** A verified event; `BadReference` and `PlanUnknown` are fields that do not parse. */
  datatype StripeEvent =
    | CheckoutCompleted(reference: Reference, plan: PlanField,
                        customer: Option<StripeId>, subscription: Option<StripeId>)
    | SubscriptionDeleted(customer: Option<StripeId>)
    | OtherEvent

  datatype WebhookOutcome = WebhookOutcome(
    plan: Plan, organization: Option<Id>, customer: Option<StripeId>, subscription: Option<StripeId>)

  function OutcomeOf(e: StripeEvent): Result<Option<WebhookOutcome>, Error> {
    match e
    case CheckoutCompleted(reference, plan, customer, subscription) =>
      if reference.NoReference? then Ok(None)
      else if plan.PlanUnknown? || reference.BadReference? then Err(BadEvent)
      else Ok(Some(WebhookOutcome(if plan.PlanAbsent? then Pro else plan.plan, Some(reference.organization),
                                  customer, subscription)))
    case SubscriptionDeleted(customer) => Ok(Some(WebhookOutcome(Free, None, customer, None)))
    case OtherEvent => Ok(None)
  }

  predicate CustomersDistinct(t: Tables) {
    forall a, b :: a in t.organizations && b in t.organizations && a != b && t.organizations[a].customer.Some? ==>
      t.organizations[a].customer != t.organizations[b].customer
  }

  /** The organisation that holds the customer id; in every run it is the only one. */
  ghost function HolderOf(t: Tables, customer: StripeId): (holder: Option<Id>)
    ensures holder.Some? ==> holder.value in t.organizations && t.organizations[holder.value].customer == Some(customer)
    ensures holder.None? ==> forall id :: id in t.organizations ==> t.organizations[id].customer != Some(customer)
  {
    if exists id :: id in t.organizations && t.organizations[id].customer == Some(customer) then
      var id :| id in t.organizations && t.organizations[id].customer == Some(customer);
      Some(id)
    else None
  }

  /** Whom an outcome is about: the organisation it names, or the holder of its customer id. */
  ghost function TargetOf(t: Tables, o: WebhookOutcome): Option<Id>
  {
    if o.organization.Some? then o.organization
    else if o.customer.Some? then HolderOf(t, o.customer.value)
    else None
  }

  ghost function HandleWebhook(t: Tables, p: Provider, e: StripeEvent): Result<Tables, Error>
  {
    if p.Mock? then Ok(t)
    else match OutcomeOf(e)
      case Err(error) => Err(error)
      case Ok(None) => Ok(t)
      case Ok(Some(o)) =>
        match TargetOf(t, o)
        case None => Ok(t)
        case Some(organization) =>
          Ok(WithStripeIds(WithPlan(t, organization, o.plan), organization, o.customer, o.subscription))
  }
}
