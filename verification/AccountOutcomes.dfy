/**
What a caller of the account services gets, written out: who is stored after each operation, which
token resolves, which plan and subscription result, and when an operation is refused.
*/
module AccountOutcomes {
  import opened Prelude
  import opened Assessments
  import opened Plans
  import opened Accounts
  import opened AccountRuns

  // ----- people

  ghost predicate Registered(t: Tables, f: Foreign, email: Email) {
    exists id :: id in t.users && t.users[id].email == f.lower(email)
  }

  /** Signing up is refused for a registered address; otherwise the organisation starts on Free
      without subscription, and the user is its owner under the lower-cased address. */
  lemma SignupIsAnswered(t: Tables, f: Foreign, organization: Id, user: Id, name: string, email: Email,
                         password: Digest)
    ensures var answer := Signup(t, f, organization, user, name, email, password);
            if Registered(t, f, email) then answer == Err(EmailTaken)
            else answer.Ok? && answer.value.tokens == t.tokens
                 && answer.value.organizations
                    == t.organizations[organization := Organization(organization, name, Free, None, None)]
                 && answer.value.users == t.users[user := User(user, f.lower(email), password, organization, Owner)]
  {
  }

  /** The token with this hash resolves to the user until thirty minutes after `now`, and no longer. */
  ghost predicate ResolvesForHalfAnHour(tokens: seq<Token>, hash: Digest, user: Id, now: Time) {
    forall later :: Resolve(tokens, hash, later) == if later <= now + 1_800_000_000 then Some(user) else None
  }

  lemma NewTokenResolves(tokens: seq<Token>, k: Token, now: Time)
    requires forall old_ :: old_ in tokens ==> old_.hash != k.hash
    requires !k.used && k.expiresAt == now + 1_800_000_000
    ensures ResolvesForHalfAnHour(tokens + [k], k.hash, k.user, now)
  {
    forall later
      ensures Resolve(tokens + [k], k.hash, later) == if later <= k.expiresAt then Some(k.user) else None
    {
      LastTokenResolves(tokens, k, later);
    }
  }

  lemma {:induction false} LastTokenResolves(tokens: seq<Token>, k: Token, now: Time)
    requires (forall old_ :: old_ in tokens ==> old_.hash != k.hash) && !k.used
    ensures Resolve(tokens + [k], k.hash, now) == if now <= k.expiresAt then Some(k.user) else None
  {
    if tokens == [] {
      assert tokens + [k] == [k];
    } else {
      assert (tokens + [k])[0] == tokens[0] && (tokens + [k])[1..] == tokens[1..] + [k];
      LastTokenResolves(tokens[1..], k, now);
    }
  }

  /** Inviting is refused for a registered address; otherwise the new member has the role asked for,
      and the link sent resolves to the member for half an hour. */
  lemma InvitationIsAnswered(t: Tables, f: Foreign, organization: Id, user: Id, email: Email, role: Role,
                             password: Digest, raw: Secret, now: Time)
    requires HashIsNew(t, f.hashToken(raw))
    ensures var answer := Invite(t, f, organization, user, email, role, password, raw, now);
            if Registered(t, f, email) then answer == Err(EmailTaken)
            else answer.Ok? && answer.value.organizations == t.organizations
                 && answer.value.users == t.users[user := User(user, f.lower(email), password, organization, role)]
                 && ResolvesForHalfAnHour(answer.value.tokens, f.hashToken(raw), user, now)
  {
    NewTokenResolves(t.tokens, NewToken(f, user, raw, now), now);
  }

  /** The organisation has another owner than the user. */
  ghost predicate HasOtherOwner(t: Tables, organization: Id, user: Id) {
    exists id :: id in t.users && id != user && t.users[id].organization == organization && t.users[id].role == Owner
  }

  lemma LastOwnerMeans(t: Tables, organization: Id, user: Id)
    requires user in t.users && t.users[user].organization == organization && t.users[user].role == Owner
    ensures |OwnersOf(t.users, organization)| <= 1 <==> !HasOtherOwner(t, organization, user)
  {
    var owners := OwnersOf(t.users, organization);
    assert owners == {user} + (owners - {user});
    if HasOtherOwner(t, organization, user) {
      var id :| id in t.users && id != user && t.users[id].organization == organization && t.users[id].role == Owner;
      assert id in owners - {user};
    }
    if owners - {user} != {} {
      var id :| id in owners - {user};
      assert HasOtherOwner(t, organization, user);
    }
  }

  /** A member's role becomes the one asked for, unless that would leave no owner. */
  lemma RoleChangeIsAnswered(t: Tables, organization: Id, user: Id, role: Role)
    ensures var answer := ChangeRole(t, organization, user, role);
            if user !in t.users || t.users[user].organization != organization then answer == Err(NoSuchMember)
            else if t.users[user].role == Owner && role != Owner && !HasOtherOwner(t, organization, user)
            then answer == Err(LastOwner)
            else answer == Ok(t.(users := t.users[user := t.users[user].(role := role)]))
  {
    if user in t.users && t.users[user].organization == organization && t.users[user].role == Owner {
      LastOwnerMeans(t, organization, user);
    }
  }

  /** A member is removed, and nobody else, unless that would leave no owner. */
  lemma RemovalIsAnswered(t: Tables, organization: Id, user: Id)
    ensures var answer := Remove(t, organization, user);
            if user !in t.users || t.users[user].organization != organization then answer == Err(NoSuchMember)
            else if t.users[user].role == Owner && !HasOtherOwner(t, organization, user) then answer == Err(LastOwner)
            else answer.Ok? && answer.value.organizations == t.organizations && answer.value.tokens == t.tokens
                 && answer.value.users.Keys == t.users.Keys - {user}
                 && forall id :: id in answer.value.users ==> answer.value.users[id] == t.users[id]
  {
    if user in t.users && t.users[user].organization == organization && t.users[user].role == Owner {
      LastOwnerMeans(t, organization, user);
    }
  }

  // ----- passwords

  /** Asking for a reset of a known address yields a token that resolves to its user for half an hour;
      for an unknown address nothing changes. */
  lemma ResetRequestIsAnswered(t: Tables, f: Foreign, email: Email, raw: Secret, now: Time)
    requires EmailsUnique(t) && HashIsNew(t, f.hashToken(raw))
    ensures var t' := RequestReset(t, f, email, raw, now);
            && t'.users == t.users && t'.organizations == t.organizations
            && (!Registered(t, f, email) ==> t' == t)
            && forall id :: id in t.users && t.users[id].email == f.lower(email) ==>
                 ResolvesForHalfAnHour(t'.tokens, f.hashToken(raw), id, now)
  {
    if Registered(t, f, email) {
      NewTokenResolves(t.tokens, NewToken(f, UserIdByEmail(t, f, email).value, raw, now), now);
    }
  }

  /** A reset with a token that resolves sets exactly its user's password and ends the token; any
      other is refused. */
  lemma ResetIsAnswered(t: Tables, f: Foreign, raw: Secret, password: Digest, now: Time)
    ensures var answer, resolved := ResetPassword(t, f, raw, password, now), Resolve(t.tokens, f.hashToken(raw), now);
            if resolved.None? then answer == Err(InvalidToken)
            else answer.Ok? && answer.value.organizations == t.organizations
                 && answer.value.users.Keys == t.users.Keys
                 && (forall id :: id in t.users ==>
                       answer.value.users[id] == if id == resolved.value then t.users[id].(password := password)
                                                 else t.users[id])
                 && (forall later :: Resolve(answer.value.tokens, f.hashToken(raw), later).None?)
                 && (forall hash, later :: hash != f.hashToken(raw) ==>
                       Resolve(answer.value.tokens, hash, later) == Resolve(t.tokens, hash, later))
  {
    if Resolve(t.tokens, f.hashToken(raw), now).Some? {
      ResolvedTokenIsValid(t.tokens, f.hashToken(raw), now, now);
      UsedEndsOneToken(t.tokens, f.hashToken(raw));
    }
  }

  lemma UsedEndsOneToken(tokens: seq<Token>, hash: Digest)
    requires exists i :: 0 <= i < |tokens| && tokens[i].hash == hash
    ensures forall later :: Resolve(MarkedUsed(tokens, hash), hash, later).None?
    ensures forall other, later :: other != hash ==>
              Resolve(MarkedUsed(tokens, hash), other, later) == Resolve(tokens, other, later)
  {
    forall later ensures Resolve(MarkedUsed(tokens, hash), hash, later).None? {
      UsedIsDead(tokens, hash, later);
    }
    forall other, later | other != hash
      ensures Resolve(MarkedUsed(tokens, hash), other, later) == Resolve(tokens, other, later)
    {
      OthersStillResolve(tokens, hash, other, later);
    }
  }

  lemma {:induction false} OthersStillResolve(tokens: seq<Token>, hash: Digest, other: Digest, now: Time)
    requires other != hash
    ensures Resolve(MarkedUsed(tokens, hash), other, now) == Resolve(tokens, other, now)
  {
    if tokens != [] {
      OthersStillResolve(tokens[1..], hash, other, now);
      assert MarkedUsed(tokens, hash)[1..] == MarkedUsed(tokens[1..], hash);
    }
  }

  /** What resolves: the first row with the hash that is unused and not past its expiry. */
  lemma {:induction false} ResolveMeans(tokens: seq<Token>, hash: Digest, now: Time, i: nat)
    requires i < |tokens| && tokens[i].hash == hash && !tokens[i].used && now <= tokens[i].expiresAt
    requires forall k :: 0 <= k < i ==> tokens[k].hash != hash || tokens[k].used || tokens[k].expiresAt < now
    ensures Resolve(tokens, hash, now) == Some(tokens[i].user)
  {
    if i > 0 {
      ResolveMeans(tokens[1..], hash, now, i - 1);
    }
  }

  // ----- subscriptions

  /** Exactly organisation `id` is changed, to `o`. */
  ghost predicate OnlyChanged(t: Tables, t': Tables, id: Id, o: Organization) {
    t' == t.(organizations := t.organizations[id := o])
  }

  /** What asking for a plan does. Free is active at once and ends the subscription, keeping the
      customer; with Stripe, Pro changes nothing before the checkout and Enterprise is refused;
      without a provider every plan is active at once. */
  lemma PlanRequestIsAnswered(t: Tables, p: Provider, id: Id, plan: Plan, fails: bool)
    requires CustomersDistinct(t) && id in t.organizations
    ensures var answer, o := ChangePlan(t, p, id, plan, fails), t.organizations[id];
            match p
            case Mock =>
              answer.Ok? && OnlyChanged(t, answer.value, id, if plan == Free then o.(plan := Free, subscription := None)
                                                             else o.(plan := plan))
            case Stripe(hasProPrice) =>
              match plan
              case Free =>
                if o.subscription.Some? && fails then answer == Err(ProviderError)
                else answer.Ok? && OnlyChanged(t, answer.value, id, o.(plan := Free, subscription := None))
              case Pro => answer == if hasProPrice && !fails then Ok(t) else Err(ProviderError)
              case Enterprise => answer == Err(ProviderError)
  {
    FreeEndsTheSubscription(t, id);
  }

  lemma FreeEndsTheSubscription(t: Tables, id: Id)
    requires CustomersDistinct(t) && id in t.organizations
    ensures var o := t.organizations[id];
            OnlyChanged(t, WithStripeIds(WithPlan(t, id, Free), id, o.customer, None), id,
                        o.(plan := Free, subscription := None))
  {
    var o := t.organizations[id];
    assert WithStripeIds(WithPlan(t, id, Free), id, o.customer, None).organizations
        == t.organizations[id := o.(plan := Free, subscription := None)];
  }

  /** The plan a completed checkout is for: the one it names, or Pro. */
  function Bought(field: PlanField): Plan {
    if field.PlanNamed? then field.plan else Pro
  }

  /** A completed checkout that names a stored organisation gives exactly this organisation the plan
      bought, the customer and the subscription; any other loses at most this customer id. */
  lemma CheckoutGivesThePlanBought(t: Tables, hasProPrice: bool, id: Id, field: PlanField, customer: Option<StripeId>,
                                   subscription: Option<StripeId>)
    requires id in t.organizations && !field.PlanUnknown?
    ensures var checkout := CheckoutCompleted(Reference(id), field, customer, subscription);
            var answer := HandleWebhook(t, Stripe(hasProPrice), checkout);
            && answer.Ok? && answer.value.users == t.users && answer.value.tokens == t.tokens
            && answer.value.organizations.Keys == t.organizations.Keys
            && answer.value.organizations[id]
               == t.organizations[id].(plan := Bought(field), customer := customer, subscription := subscription)
            && forall other :: other in t.organizations && other != id ==>
                 var o := t.organizations[other];
                 answer.value.organizations[other]
                 == if customer.Some? && o.customer == customer then o.(customer := None) else o
  {
  }

  /** Events that are about no organisation change nothing, and unreadable ones raise. */
  lemma OtherEventsChangeNothing(t: Tables, hasProPrice: bool, event: StripeEvent)
    ensures HandleWebhook(t, Mock, event) == Ok(t)
    ensures event == OtherEvent || event == SubscriptionDeleted(None)
            || (event.CheckoutCompleted? && event.reference == NoReference)
            ==> HandleWebhook(t, Stripe(hasProPrice), event) == Ok(t)
    ensures event.CheckoutCompleted? && event.reference != NoReference
            && (event.reference == BadReference || event.plan == PlanUnknown)
            ==> HandleWebhook(t, Stripe(hasProPrice), event) == Err(BadEvent)
  {
  }

  /** With Stripe, an organisation that completed a checkout is on the plan bought as long as no later
      step sets its plan. */
  lemma {:induction false} PlanBoughtStays(s: Setting, es: seq<Timed>, k: nat, id: Id, field: PlanField,
                                           customer: Option<StripeId>, subscription: Option<StripeId>)
    requires s.provider.Stripe? && k < |es| && !field.PlanUnknown?
    requires es[k].op == DoWebhook(CheckoutCompleted(Reference(id), field, customer, subscription))
    requires Run(s, INITIAL, es[..k]).clock <= es[k].now && id in Run(s, INITIAL, es[..k]).tables.organizations
    requires forall m :: k < m < |es| ==> !SetsPlan(s, Run(s, INITIAL, es[..m]), es[m], id)
    ensures id in Run(s, INITIAL, es).tables.organizations
    ensures Run(s, INITIAL, es).tables.organizations[id].plan == Bought(field)
  {
    var n := |es| - 1;
    var init, st := es[..n], Run(s, INITIAL, es[..n]);
    if k == n {
      CheckoutGivesThePlanBought(st.tables, s.provider.hasProPrice, id, field, customer, subscription);
    } else {
      assert init[..k] == es[..k];
      forall m | k < m < n
        ensures !SetsPlan(s, Run(s, INITIAL, init[..m]), init[m], id)
      {
        assert init[..m] == es[..m];
      }
      PlanBoughtStays(s, init, k, id, field, customer, subscription);
      OrganizationStays(s, st, es[n], id);
      PlanChangesOnlyWhenSet(s, st, es[n], id);
    }
  }

  lemma OrganizationStays(s: Setting, st: State, e: Timed, id: Id)
    requires id in st.tables.organizations
    ensures id in Step(s, st, e).tables.organizations
  {
  }
}
