/**
 * The route table of the three controllers and the guard chain that
 * admits or refuses a request before its handler runs.
 */
module Routes {
  import opened Wrappers
  import opened Users
  import opened Tokens
  import opened Guards

  /** A guard a route is fitted with. */
  datatype GuardKind = BearerAuth | RolesCheck | SelfCheck

  /** A route: its guards in the order they run (class guards first), and its metadata. */
  datatype Route = Route(guards: seq<GuardKind>, meta: RouteMeta)

  /**
   * The guard chain's answer: the handler runs with the caller the chain
   * established, or the request ends with a status (401 for a rejected
   * token, 403 for a guard answering false, 500 for a guard that throws).
   */
  datatype Admission = Admitted(caller: Option<User>) | Refused(status: nat)

  /** Runs `guards` in order; `caller` is the request's user so far. */
  function RunGuards(guards: seq<GuardKind>, meta: RouteMeta, outcome: AuthOutcome, caller: Option<User>,
                     params: map<string, string>): (a: Admission)
    ensures |guards| == 0 ==> a == Admitted(caller)
    ensures a.Refused? ==> a.status in {401, 403, 500}
    ensures a == Refused(401) ==> BearerAuth in guards && !Anonymous(meta) && outcome.Unauthenticated?
    ensures a == Refused(403) ==> RolesCheck in guards || SelfCheck in guards
    ensures a.Admitted? && BearerAuth in guards && !Anonymous(meta) ==>
              outcome.Authenticated? && a.caller == Some(outcome.user)
    ensures a.Admitted? && BearerAuth !in guards ==> a.caller == caller
    ensures BearerAuth in guards && !Anonymous(meta) && outcome.VerificationError? ==> a.Refused?
  {
    if |guards| == 0 then Admitted(caller)
    else
      match guards[0]
      case BearerAuth => (
        match BearerGuard(meta, outcome)
        case Open(Some(u)) => RunGuards(guards[1..], meta, outcome, Some(u), params)
        case Open(None) => RunGuards(guards[1..], meta, outcome, caller, params)
        case Unauthorized => Refused(401)
        case Failed(_) => Refused(500))
      case RolesCheck => (
        match RolesGuard(caller, meta)
        case Allow => RunGuards(guards[1..], meta, outcome, caller, params)
        case Deny => Refused(403)
        case Crash => Refused(500))
      case SelfCheck =>
        if SelfGuard(caller, meta, params) == Allow then RunGuards(guards[1..], meta, outcome, caller, params)
        else Refused(403)
  }

  /** A request reaching `route`: no user is set before the guards run. */
  function Admit(route: Route, outcome: AuthOutcome, params: map<string, string>): Admission {
    RunGuards(route.guards, route.meta, outcome, None, params)
  }

  const AdminOnly := WithRoles(Undecorated, [ADMIN])

  // The user controller (mounted at /user; no class decorators).
  const CreateUser := Route([], RouteMeta(WithAnonymous(Undecorated), Undecorated))
  const UpdateOwnUser := Route([BearerAuth],
                               RouteMeta(WithSelf(Undecorated, ParamsObject(SelfParams("id", None))), Undecorated))
  const UpdateUser := Route([BearerAuth, RolesCheck], RouteMeta(AdminOnly, Undecorated))
  const DeleteUser := Route([BearerAuth, RolesCheck], RouteMeta(AdminOnly, Undecorated))

  // The authentication controller (mounted at /authentication).
  const Login := Route([], RouteMeta(Undecorated, Undecorated))
  const CheckToken := Route([], RouteMeta(Undecorated, Undecorated))

  // The restaurant controller (mounted at /restaurant; BearerAuthGuard on the class).
  const ListRestaurants := Route([BearerAuth], RouteMeta(Undecorated, Undecorated))
  const FindRestaurant := Route([BearerAuth], RouteMeta(Undecorated, Undecorated))
  const CreateRestaurant := Route([BearerAuth, RolesCheck], RouteMeta(AdminOnly, Undecorated))
  const UpdateRestaurant := Route([BearerAuth, RolesCheck], RouteMeta(AdminOnly, Undecorated))

  // The review controller (mounted at /restaurant/:restaurantId/review; BearerAuthGuard on the class).
  const ReviewSummary := Route([BearerAuth], RouteMeta(Undecorated, Undecorated))
  const CreateReview := Route([BearerAuth], RouteMeta(Undecorated, Undecorated))
  const UpdateReview := Route([BearerAuth, RolesCheck], RouteMeta(AdminOnly, Undecorated))
  const DeleteReview := Route([BearerAuth, RolesCheck], RouteMeta(AdminOnly, Undecorated))

  /** The routes behind a bearer token. */
  const TokenRoutes := [UpdateOwnUser, UpdateUser, DeleteUser, ListRestaurants, FindRestaurant,
                        CreateRestaurant, UpdateRestaurant, ReviewSummary, CreateReview, UpdateReview, DeleteReview]

  /** The routes reserved to administrators. */
  const AdminRoutes := [UpdateUser, DeleteUser, CreateRestaurant, UpdateRestaurant, UpdateReview, DeleteReview]

  /** Registration, login and token check are open: no guard runs and no user is set. */
  lemma OpenRoutes(outcome: AuthOutcome, params: map<string, string>)
    ensures Admit(CreateUser, outcome, params) == Admitted(None)
    ensures Admit(Login, outcome, params) == Admitted(None)
    ensures Admit(CheckToken, outcome, params) == Admitted(None)
  {
  }

  /** Every other route answers 401 without a valid user for the token, and 500 when verification throws. */
  lemma TokenRoutesNeedAToken(outcome: AuthOutcome, params: map<string, string>)
    ensures forall r :: r in TokenRoutes && outcome.Unauthenticated? ==> Admit(r, outcome, params) == Refused(401)
    ensures forall r :: r in TokenRoutes && outcome.VerificationError? ==> Admit(r, outcome, params) == Refused(500)
  {
    forall r | r in TokenRoutes && !outcome.Authenticated?
      ensures Admit(r, outcome, params) == Refused(if outcome.Unauthenticated? then 401 else 500)
    {
      assert |r.guards| > 0 && r.guards[0] == BearerAuth && !Anonymous(r.meta);
      BearerFirstRefuses(r.guards, r.meta, outcome, params);
    }
  }

  /** A chain starting with the bearer guard stops there when the strategy admits nobody. */
  lemma BearerFirstRefuses(guards: seq<GuardKind>, meta: RouteMeta, outcome: AuthOutcome, params: map<string, string>)
    requires |guards| > 0 && guards[0] == BearerAuth && !Anonymous(meta) && !outcome.Authenticated?
    ensures RunGuards(guards, meta, outcome, None, params) == Refused(if outcome.Unauthenticated? then 401 else 500)
  {
  }

  /** An administrator route admits a caller exactly when it is an ADMIN, and answers 403 otherwise. */
  lemma AdminRoutesAdmitOnlyAdmins(u: User, params: map<string, string>)
    ensures forall r :: r in AdminRoutes && u.role == ADMIN ==> Admit(r, Authenticated(u), params) == Admitted(Some(u))
    ensures forall r :: r in AdminRoutes && u.role != ADMIN ==> Admit(r, Authenticated(u), params) == Refused(403)
  {
    var chain := RunGuards([BearerAuth, RolesCheck], RouteMeta(AdminOnly, Undecorated), Authenticated(u), None, params);
    var meta := RouteMeta(AdminOnly, Undecorated);
    assert BearerGuard(meta, Authenticated(u)) == Open(Some(u));
    assert [BearerAuth, RolesCheck][1..] == [RolesCheck] && [RolesCheck][1..] == [];
    assert chain == RunGuards([RolesCheck], meta, Authenticated(u), Some(u), params);
    assert RolesGuard(Some(u), meta) == if u.role == ADMIN then Allow else Deny;
    assert chain == if u.role == ADMIN then Admitted(Some(u)) else Refused(403);
    forall r | r in AdminRoutes
      ensures Admit(r, Authenticated(u), params) == chain
    {
      assert r == Route([BearerAuth, RolesCheck], RouteMeta(AdminOnly, Undecorated));
    }
  }

  /**
   * `PATCH /user` carries `@Self` metadata but no SelfGuard: any
   * authenticated user is admitted whatever the route parameters, although
   * SelfGuard itself would refuse a non-admin whose id is not the `id` parameter.
   */
  lemma OwnUpdateSelfNotEnforced(u: User, params: map<string, string>)
    requires u.role == USER
    requires "id" !in params || params["id"] != u.id
    ensures Admit(UpdateOwnUser, Authenticated(u), params) == Admitted(Some(u))
    ensures SelfGuard(Some(u), UpdateOwnUser.meta, params) == Deny
  {
  }

  /** Listing, reading and reviewing are open to every authenticated user. */
  lemma AuthenticatedRoutes(u: User, params: map<string, string>)
    ensures Admit(ListRestaurants, Authenticated(u), params) == Admitted(Some(u))
    ensures Admit(FindRestaurant, Authenticated(u), params) == Admitted(Some(u))
    ensures Admit(ReviewSummary, Authenticated(u), params) == Admitted(Some(u))
    ensures Admit(CreateReview, Authenticated(u), params) == Admitted(Some(u))
  {
  }

  /** RolesGuard placed before the bearer guard finds no user and throws: a 500, not a 401. */
  lemma RolesBeforeBearerCrashes(meta: RouteMeta, outcome: AuthOutcome, params: map<string, string>)
    requires !meta.handler.anonymous
    ensures RunGuards([RolesCheck, BearerAuth], meta, outcome, None, params) == Refused(500)
  {
  }
}
