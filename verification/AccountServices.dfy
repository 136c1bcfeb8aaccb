/**
The sign-up, team, password-reset and billing services as they work on the tables, statement by
statement. Every method is proved to do what `Accounts` says.
*/
module AccountServices {
  import opened Prelude
  import opened Assessments
  import opened Plans
  import opened Accounts

  class AccountDatabase {
    const f: Foreign
    var users: map<Id, User>
    var organizations: map<Id, Organization>
    var tokens: seq<Token>

    constructor (f: Foreign)
      ensures this.f == f && Current() == Tables(map[], map[], [])
    {
      this.f, users, organizations, tokens := f, map[], map[], [];
    }

    function Current(): Tables
      reads this
    {
      Tables(users, organizations, tokens)
    }

    method GetUserByEmail(email: Email) returns (user: Option<Id>)
      requires EmailsUnique(Current())
      ensures user == UserIdByEmail(Current(), f, email)
    {
      if exists id :: id in users && users[id].email == f.lower(email) {
        var id :| id in users && users[id].email == f.lower(email);
        return Some(id);
      }
      return None;
    }

    /** Loops over the rows in turn and returns the first one that is still good. */
    method ResolveValidUserId(raw: Secret, now: Time) returns (user: Option<Id>)
      ensures user == Resolve(tokens, f.hashToken(raw), now)
    {
      var hash := f.hashToken(raw);
      for i := 0 to |tokens|
        invariant Resolve(tokens, hash, now) == Resolve(tokens[i..], hash, now)
      {
        assert tokens[i..][0] == tokens[i] && tokens[i..][1..] == tokens[i + 1..];
        if tokens[i].hash != hash || tokens[i].used || tokens[i].expiresAt < now {
          continue;
        }
        return Some(tokens[i].user);
      }
      return None;
    }

    method UpdateOrganizationPlan(organization: Id, plan: Plan)
      modifies this`organizations
      ensures Current() == WithPlan(old(Current()), organization, plan)
    {
      if organization in organizations {
        organizations := organizations[organization := organizations[organization].(plan := plan)];
      }
    }

    /** Two statements: clear the customer id elsewhere, then write both ids here. */
    method UpdateOrganizationStripeIds(organization: Id, customer: Option<StripeId>, subscription: Option<StripeId>)
      modifies this`organizations
      ensures Current() == WithStripeIds(old(Current()), organization, customer, subscription)
    {
      ClearCustomerElsewhere(organization, customer);
      StripeIdsWritten(old(Current()), organizations, organization, customer, subscription);
      if organization in organizations {
        organizations := organizations[organization :=
          organizations[organization].(customer := customer, subscription := subscription)];
      }
    }

    method ClearCustomerElsewhere(organization: Id, customer: Option<StripeId>)
      modifies this`organizations
      ensures organizations.Keys == old(organizations).Keys
      ensures forall id :: id in organizations ==>
                organizations[id] == if id == organization then old(organizations)[id]
                                     else CustomerCleared(old(organizations)[id], customer)
    {
      if customer.Some? {
        organizations := map id | id in organizations ::
          if organizations[id].customer == customer && id != organization
          then organizations[id].(customer := None) else organizations[id];
      }
    }
  }

  /** What is left to write once the customer id is cleared elsewhere. */
  lemma StripeIdsWritten(t: Tables, cleared: map<Id, Organization>, organization: Id, customer: Option<StripeId>,
                         subscription: Option<StripeId>)
    requires cleared.Keys == t.organizations.Keys
    requires forall id :: id in cleared ==>
               cleared[id] == if id == organization then t.organizations[id]
                              else CustomerCleared(t.organizations[id], customer)
    ensures WithStripeIds(t, organization, customer, subscription).organizations
         == if organization !in cleared then cleared
            else cleared[organization := cleared[organization].(customer := customer, subscription := subscription)]
  {
  }

  class AuthService {
    const db: AccountDatabase

    constructor (db: AccountDatabase)
      ensures this.db == db
    {
      this.db := db;
    }

    method Signup(organization: Id, user: Id, name: string, email: Email, password: Digest)
      returns (r: Result<(), Error>)
      modifies db
      ensures match Accounts.Signup(old(db.Current()), db.f, organization, user, name, email, password)
              case Err(e) => r == Err(e) && db.Current() == old(db.Current())
              case Ok(t) => r.Ok? && db.Current() == t
    {
      if EmailExists(db.Current(), db.f, email) {
        return Err(EmailTaken);
      }
      db.organizations := db.organizations[organization := Organization(organization, name, Free, None, None)];
      db.users := db.users[user := User(user, db.f.lower(email), password, organization, Owner)];
      return Ok(());
    }

    /** Succeeds whether or not the address is registered. */
    method RequestPasswordReset(email: Email, raw: Secret, now: Time)
      requires EmailsUnique(db.Current())
      modifies db
      ensures db.Current() == RequestReset(old(db.Current()), db.f, email, raw, now)
    {
      var user := db.GetUserByEmail(email);
      if user.None? {
        return;
      }
      db.tokens := db.tokens + [Token(user.value, db.f.hashToken(raw), now + RESET_TOKEN_TTL, false)];
    }

    /** Looks the token up, sets the password, then marks the token used. */
    method ResetPassword(raw: Secret, password: Digest, now: Time) returns (r: Result<(), Error>)
      modifies db
      ensures match Accounts.ResetPassword(old(db.Current()), db.f, raw, password, now)
              case Err(e) => r == Err(e) && db.Current() == old(db.Current())
              case Ok(t) => r.Ok? && db.Current() == t
    {
      var user := db.ResolveValidUserId(raw, now);
      if user.None? {
        return Err(InvalidToken);
      }
      if user.value in db.users {
        db.users := db.users[user.value := db.users[user.value].(password := password)];
      }
      db.tokens := MarkedUsed(db.tokens, db.f.hashToken(raw));
      return Ok(());
    }
  }

  class TeamService {
    const db: AccountDatabase

    constructor (db: AccountDatabase)
      ensures this.db == db
    {
      this.db := db;
    }

    method InviteMember(organization: Id, user: Id, email: Email, role: Role, password: Digest, raw: Secret, now: Time)
      returns (r: Result<(), Error>)
      modifies db
      ensures match Invite(old(db.Current()), db.f, organization, user, email, role, password, raw, now)
              case Err(e) => r == Err(e) && db.Current() == old(db.Current())
              case Ok(t) => r.Ok? && db.Current() == t
    {
      if EmailExists(db.Current(), db.f, email) {
        return Err(EmailTaken);
      }
      db.users := db.users[user := User(user, db.f.lower(email), password, organization, role)];
      db.tokens := db.tokens + [Token(user, db.f.hashToken(raw), now + RESET_TOKEN_TTL, false)];
      return Ok(());
    }

    /** Refuses to go on with no other owner than the target. */
    method RequireNotLastOwner(organization: Id) returns (r: Result<(), Error>)
      ensures r == if |OwnersOf(db.users, organization)| <= 1 then Err(LastOwner) else Ok(())
    {
      var owners := OwnersOf(db.users, organization);
      r := if |owners| <= 1 then Err(LastOwner) else Ok(());
    }

    method UpdateMemberRole(organization: Id, user: Id, role: Role) returns (r: Result<(), Error>)
      modifies db
      ensures match ChangeRole(old(db.Current()), organization, user, role)
              case Err(e) => r == Err(e) && db.Current() == old(db.Current())
              case Ok(t) => r.Ok? && db.Current() == t
    {
      if user !in db.users || db.users[user].organization != organization {
        return Err(NoSuchMember);
      }
      if db.users[user].role == Owner && role != Owner {
        var ok := RequireNotLastOwner(organization);
        if ok.Err? {
          return ok;
        }
      }
      db.users := db.users[user := db.users[user].(role := role)];
      return Ok(());
    }

    method RemoveMember(organization: Id, user: Id) returns (r: Result<(), Error>)
      modifies db
      ensures match Remove(old(db.Current()), organization, user)
              case Err(e) => r == Err(e) && db.Current() == old(db.Current())
              case Ok(t) => r.Ok? && db.Current() == t
    {
      if user !in db.users || db.users[user].organization != organization {
        return Err(NoSuchMember);
      }
      if db.users[user].role == Owner {
        var ok := RequireNotLastOwner(organization);
        if ok.Err? {
          return ok;
        }
      }
      db.users := db.users - {user};
      return Ok(());
    }
  }

  class BillingService {
    const db: AccountDatabase
    const provider: Provider

    constructor (db: AccountDatabase, provider: Provider)
      ensures this.db == db && this.provider == provider
    {
      this.db, this.provider := db, provider;
    }

    /** `Ok(true)` when the plan is active, `Ok(false)` while payment is pending. */
    method ChangePlan(organization: Id, plan: Plan, fails: bool) returns (r: Result<bool, Error>)
      modifies db
      ensures match Accounts.ChangePlan(old(db.Current()), provider, organization, plan, fails)
              case Err(e) => r == Err(e) && db.Current() == old(db.Current())
              case Ok(t) => r.Ok? && db.Current() == t
      ensures r.Ok? ==> (r.value <==> provider.Mock? || plan == Free)
      ensures r == Ok(true) && organization in db.organizations ==> db.organizations[organization].plan == plan
      ensures r == Ok(false) ==> db.Current() == old(db.Current())
    {
      var customer, subscription := CustomerOf(db.Current(), organization), SubscriptionOf(db.Current(), organization);
      var started := StartPlanChange(provider, plan, subscription, fails);
      if started.Err? || !started.value {
        return started;
      }
      db.UpdateOrganizationPlan(organization, plan);
      if plan == Free {
        db.UpdateOrganizationStripeIds(organization, customer, None);
      }
      return Ok(true);
    }

    method HandleStripeWebhook(event: StripeEvent) returns (r: Result<(), Error>)
      requires CustomersDistinct(db.Current())
      modifies db
      ensures match HandleWebhook(old(db.Current()), provider, event)
              case Err(e) => r == Err(e) && db.Current() == old(db.Current())
              case Ok(t) => r.Ok? && db.Current() == t
    {
      if provider.Mock? {
        return Ok(());
      }
      var outcome := OutcomeOf(event);
      if outcome.Err? {
        return Err(outcome.error);
      }
      if outcome.value.None? {
        return Ok(());
      }
      var o := outcome.value.value;
      var organization := o.organization;
      if organization.None? && o.customer.Some? {
        organization := FindHolder(o.customer.value);
      }
      if organization.None? {
        return Ok(());
      }
      db.UpdateOrganizationPlan(organization.value, o.plan);
      db.UpdateOrganizationStripeIds(organization.value, o.customer, o.subscription);
      return Ok(());
    }

    method FindHolder(customer: StripeId) returns (holder: Option<Id>)
      requires CustomersDistinct(db.Current())
      ensures holder == HolderOf(db.Current(), customer)
    {
      if exists id :: id in db.organizations && db.organizations[id].customer == Some(customer) {
        var id :| id in db.organizations && db.organizations[id].customer == Some(customer);
        return Some(id);
      }
      return None;
    }
  }
}
