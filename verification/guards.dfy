/**
 * The three route guards and the decorators that feed them. The metadata a
 * decorator attaches to a handler or a controller class is an explicit
 * record; each guard is a pure function of the caller, the metadata and the
 * route parameters.
 */
module Guards {
  import opened Wrappers
  import opened Users
  import opened Tokens

  /** What `@Self` stores under `selfParams`. */
  datatype SelfParams = SelfParams(userIDParam: string, allowAdmins: Option<bool>)

  /** `@Self` takes either the parameter name or a full parameter object. */
  datatype SelfArgument = ParamName(name: string) | ParamsObject(params: SelfParams)

  /** The metadata of one decorator target; an absent key is `false` / `None`. */
  datatype Metadata = Metadata(anonymous: bool, roles: Option<seq<Role>>, selfParams: Option<SelfParams>)

  const Undecorated := Metadata(false, None, None)

  /** The metadata a guard can see: the handler's and the controller class's. */
  datatype RouteMeta = RouteMeta(handler: Metadata, controller: Metadata)

  /** `@Self` argument normalisation: a bare name becomes `{userIDParam: name}`. */
  function NormaliseSelf(arg: SelfArgument): (p: SelfParams)
    ensures arg.ParamName? ==> p == SelfParams(arg.name, None)
    ensures arg.ParamsObject? ==> p == arg.params
  {
    match arg
    case ParamName(n) => SelfParams(n, None)
    case ParamsObject(params) => params
  }

  /** `@Self(arg)`: sets `selfParams` and nothing else. */
  function WithSelf(m: Metadata, arg: SelfArgument): (m': Metadata)
    ensures m'.selfParams == Some(NormaliseSelf(arg))
    ensures m'.anonymous == m.anonymous && m'.roles == m.roles
  {
    m.(selfParams := Some(NormaliseSelf(arg)))
  }

  /** `@Roles(...roles)`: sets `roles` and nothing else. */
  function WithRoles(m: Metadata, roles: seq<Role>): (m': Metadata)
    ensures m'.roles == Some(roles)
    ensures m'.anonymous == m.anonymous && m'.selfParams == m.selfParams
  {
    m.(roles := Some(roles))
  }

  /** `@Anonymous()`: sets `anonymous` and nothing else. */
  function WithAnonymous(m: Metadata): (m': Metadata)
    ensures m'.anonymous
    ensures m'.roles == m.roles && m'.selfParams == m.selfParams
  {
    m.(anonymous := true)
  }

  /** A guard's answer; `Crash` is a guard that throws instead of answering. */
  datatype Verdict = Allow | Deny | Crash

  /** The role list in force: the handler's, or the class's when the handler declares none. */
  function RequiredRoles(route: RouteMeta): Option<seq<Role>> {
    if route.handler.roles.Some? then route.handler.roles else route.controller.roles
  }

  /**
   * `RolesGuard.canActivate`. Only the handler's anonymous mark is read; a
   * missing caller makes `user.role` throw; an ADMIN passes every list.
   */
  function RolesGuard(caller: Option<User>, route: RouteMeta): (v: Verdict)
    ensures route.handler.anonymous ==> v == Allow
    ensures v == Crash <==> !route.handler.anonymous && caller.None?
    ensures v == Allow <==>
              || route.handler.anonymous
              || (caller.Some? && caller.value.role == ADMIN)
              || (caller.Some? && route.handler.roles.Some? && caller.value.role in route.handler.roles.value)
              || (caller.Some? && route.handler.roles.None? && route.controller.roles.None?)
              || (caller.Some? && route.handler.roles.None? && route.controller.roles.Some?
                  && caller.value.role in route.controller.roles.value)
  {
    if route.handler.anonymous then Allow
    else if caller.None? then Crash
    else if caller.value.role == ADMIN then Allow
    else
      match RequiredRoles(route)
      case None => Allow
      case Some(required) => if caller.value.role in required then Allow else Deny
  }

  /** The self binding in force: the handler's, or the class's when the handler has none. */
  function EffectiveSelf(route: RouteMeta): Option<SelfParams> {
    if route.handler.selfParams.Some? then route.handler.selfParams else route.controller.selfParams
  }

  /** `selfParams.allowAdmins || true`: true whatever `allowAdmins` holds. */
  function AllowAdmins(p: SelfParams): bool {
    (p.allowAdmins.Some? && p.allowAdmins.value) || true
  }

  /**
   * `SelfGuard.canActivate`. Falling off the end returns `undefined`, which
   * the framework reads as a denial.
   */
  function SelfGuard(caller: Option<User>, route: RouteMeta, params: map<string, string>): (v: Verdict)
    ensures v != Crash
    ensures v == Allow <==>
              || EffectiveSelf(route).None?
              || (caller.Some? && caller.value.role == ADMIN)
              || (caller.Some? && EffectiveSelf(route).value.userIDParam in params
                  && params[EffectiveSelf(route).value.userIDParam] == caller.value.id)
  {
    match EffectiveSelf(route)
    case None => Allow
    case Some(p) =>
      var allowAdmins := AllowAdmins(p);
      if caller.None? then Deny
      else if p.userIDParam in params && params[p.userIDParam] == caller.value.id then Allow
      else if allowAdmins && caller.value.role == ADMIN then Allow
      else Deny
  }

  /** What the bearer strategy concluded about the request's token. */
  datatype AuthOutcome = Authenticated(user: User) | Unauthenticated | VerificationError(error: TokenError)

  /** What `BearerAuthGuard` lets through: the caller it sets, a 401, or a propagated error. */
  datatype Gate = Open(caller: Option<User>) | Unauthorized | Failed(error: TokenError)

  predicate Anonymous(route: RouteMeta) {
    route.controller.anonymous || route.handler.anonymous
  }

  /**
   * `BearerAuthGuard.canActivate`: an anonymous mark on the class or the
   * handler lets the request through without looking at the token;
   * otherwise the strategy's conclusion decides.
   */
  function BearerGuard(route: RouteMeta, outcome: AuthOutcome): (g: Gate)
    ensures Anonymous(route) ==> g == Open(None)
    ensures !Anonymous(route) ==> (g.Open? <==> outcome.Authenticated?)
    ensures !Anonymous(route) && outcome.Authenticated? ==> g == Open(Some(outcome.user))
    ensures !Anonymous(route) && outcome.Unauthenticated? ==> g == Unauthorized
    ensures !Anonymous(route) && outcome.VerificationError? ==> g == Failed(outcome.error)
  {
    if Anonymous(route) then Open(None)
    else
      match outcome
      case Authenticated(u) => Open(Some(u))
      case Unauthenticated => Unauthorized
      case VerificationError(e) => Failed(e)
  }

  /** An ADMIN caller passes RolesGuard whatever roles are required, even a list without ADMIN. */
  lemma AdminPassesRoles(u: User, route: RouteMeta)
    requires u.role == ADMIN
    ensures RolesGuard(Some(u), route) == Allow
  {
  }

  /** An empty required list on the handler denies every non-admin caller. */
  lemma EmptyRolesDenyNonAdmins(u: User, route: RouteMeta)
    requires !route.handler.anonymous && route.handler.roles == Some([]) && u.role != ADMIN
    ensures RolesGuard(Some(u), route) == Deny
  {
  }

  /**
   * The class's roles and the class's anonymous mark never matter to
   * RolesGuard once the handler declares roles.
   */
  lemma HandlerRolesTakePrecedence(caller: Option<User>, h: Metadata, c1: Metadata, c2: Metadata)
    requires h.roles.Some?
    ensures RolesGuard(caller, RouteMeta(h, c1)) == RolesGuard(caller, RouteMeta(h, c2))
  {
  }

  /** A class-level anonymous mark does not bypass RolesGuard. */
  lemma ClassAnonymousIgnoredByRoles(caller: Option<User>, route: RouteMeta)
    ensures RolesGuard(caller, route.(controller := WithAnonymous(route.controller))) == RolesGuard(caller, route)
  {
  }

  /** An ADMIN caller passes SelfGuard even when `allowAdmins` is explicitly false. */
  lemma AdminPassesSelfDespiteAllowAdminsFalse(u: User, route: RouteMeta, params: map<string, string>)
    requires u.role == ADMIN
    requires EffectiveSelf(route).Some? && EffectiveSelf(route).value.allowAdmins == Some(false)
    ensures SelfGuard(Some(u), route, params) == Allow
  {
  }

  /** A self binding on the handler hides the class's one. */
  lemma HandlerSelfTakesPrecedence(caller: Option<User>, h: Metadata, c1: Metadata, c2: Metadata,
                                   params: map<string, string>)
    requires h.selfParams.Some?
    ensures SelfGuard(caller, RouteMeta(h, c1), params) == SelfGuard(caller, RouteMeta(h, c2), params)
  {
  }

  /**
   * `@Self(name)` on a handler makes SelfGuard compare the route parameter
   * `name` with the caller's id: the owner passes, a different non-admin is
   * denied, and nobody passes without a caller.
   */
  lemma SelfDecoratorBindsParam(name: string, c: Metadata, params: map<string, string>, u: User)
    requires name in params
    ensures (SelfGuard(Some(u), RouteMeta(WithSelf(Undecorated, ParamName(name)), c), params) == Allow)
            == (params[name] == u.id || u.role == ADMIN)
    ensures SelfGuard(None, RouteMeta(WithSelf(Undecorated, ParamName(name)), c), params) == Deny
  {
  }

  /** A route admits a request that has no valid token exactly when it is marked anonymous. */
  lemma TokenDemandedUnlessAnonymous(route: RouteMeta)
    ensures BearerGuard(route, Unauthenticated).Open? <==> Anonymous(route)
  {
  }

  /** With an anonymous mark the token is never looked at: every strategy outcome gives the same answer. */
  lemma AnonymousIgnoresToken(route: RouteMeta, o1: AuthOutcome, o2: AuthOutcome)
    requires Anonymous(route)
    ensures BearerGuard(route, o1) == BearerGuard(route, o2)
  {
  }
}
