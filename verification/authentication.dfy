/**
 * The authentication service, the bearer strategy and the authentication
 * controller. Token verification is the given `verify` function; the
 * token the service hands out is represented by its claims.
 */
module Authentication {
  import opened Wrappers
  import opened Users
  import opened Tokens
  import opened Guards
  import Encryption

  /** `jwt.verify` with the configured secret. */
  type Verifier = string -> Verification

  /**
   * `validateUser`: a verification error is rethrown; otherwise the ACTIVE
   * user with the token's id, or nothing.
   */
  function ValidateUser(verify: Verifier, t: UserTable, token: string): (r: Result<Option<User>, TokenError>)
    ensures r.Err? <==> verify(token).Rejected?
    ensures r.Err? ==> r.error == verify(token).error
    ensures r.Ok? && r.value.Some? ==>
              r.value.value in t && r.value.value.id == verify(token).id && r.value.value.status == ACTIVE
    ensures r == Ok(None) <==>
              verify(token).Verified? && forall u :: u in t && u.id == verify(token).id ==> u.status != ACTIVE
  {
    match verify(token)
    case Rejected(e) => Err(e)
    case Verified(id) => Ok(FindOneByID(t, id, false))
  }

  /**
   * `HttpStrategy.validate`: a user found for the token becomes the caller,
   * no user is an Unauthorized rejection, a verification error propagates.
   */
  function Validate(verify: Verifier, t: UserTable, token: string): (o: AuthOutcome)
    ensures o.Authenticated? ==> ValidateUser(verify, t, token) == Ok(Some(o.user))
    ensures o.Unauthenticated? <==> ValidateUser(verify, t, token) == Ok(None)
    ensures o.VerificationError? <==> verify(token).Rejected?
    ensures o.VerificationError? ==> o.error == verify(token).error
  {
    match ValidateUser(verify, t, token)
    case Err(e) => VerificationError(e)
    case Ok(None) => Unauthenticated
    case Ok(Some(u)) => Authenticated(u)
  }

  /**
   * The bearer strategy on a request: with no bearer token in the
   * `Authorization` header the request is rejected before `validate` runs.
   */
  function Authenticate(verify: Verifier, t: UserTable, bearer: Option<string>): (o: AuthOutcome)
    ensures bearer.None? ==> o == Unauthenticated
    ensures bearer.Some? ==> o == Validate(verify, t, bearer.value)
  {
    match bearer
    case None => Unauthenticated
    case Some(token) => Validate(verify, t, token)
  }

  /** A caller admitted by the strategy is an ACTIVE user whose id the token carries. */
  lemma AuthenticatedIsActiveTokenOwner(verify: Verifier, t: UserTable, bearer: Option<string>)
    requires Authenticate(verify, t, bearer).Authenticated?
    ensures bearer.Some? && verify(bearer.value) == Verified(Authenticate(verify, t, bearer).user.id)
    ensures Authenticate(verify, t, bearer).user in t
    ensures Authenticate(verify, t, bearer).user.status == ACTIVE
  {
  }

  /** The body `login` and `checkToken` return: a token, or a failure object. */
  datatype AuthReply = Granted(token: Claims) | Refused(reason: string, errorCode: string)

  const UnknownUser := Refused("User not found", "UNKNOWN_USER")
  const WrongPassword := Refused("Wrong password", "WRONG_USER_PASSWORD")
  const ExpiredToken := Refused("Token has expired", "JWT_EXPIRED")
  const InvalidToken := Refused("Token signature seems invalid or otherwise modified", "JWT_INVALID")
  const UnknownError := Refused("An unknown error has occured. This incident has been reported.", "UNKNOWN_ERROR")
  const UserNotFound := Refused("User not found", "USER_NOT_FOUND")

  /** `login`: look the ACTIVE user up by email, check the password, issue a token. */
  function Login(cfg: Config, enc: Encryption.Service, t: UserTable, email: string, password: string,
                 keepLoggedIn: Option<bool>): (r: AuthReply)
    ensures r == UnknownUser <==> forall u :: u in t && u.email == email ==> u.status != ACTIVE
    ensures r == WrongPassword <==>
              FindOneByEmail(t, email, false).Some?
              && !Encryption.Verify(enc, password, FindOneByEmail(t, email, false).value.password)
    ensures r.Granted? ==>
              exists u :: u in t && u.email == email && u.status == ACTIVE
                && Encryption.Verify(enc, password, u.password)
                && r.token == GenerateTokenForUser(cfg, u, keepLoggedIn, None)
    ensures r.Granted? ==> (r.token.keepLoggedIn <==> keepLoggedIn == Some(true))
    ensures FindOneByEmail(t, email, false).Some?
            && Encryption.Verify(enc, password, FindOneByEmail(t, email, false).value.password) ==>
              r == Granted(GenerateTokenForUser(cfg, FindOneByEmail(t, email, false).value, keepLoggedIn, None))
  {
    match FindOneByEmail(t, email, false)
    case None => UnknownUser
    case Some(u) =>
      if !Encryption.Verify(enc, password, u.password) then WrongPassword
      else Granted(GenerateTokenForUser(cfg, u, keepLoggedIn, None))
  }

  /**
   * `checkToken`: map a verification failure (expiry checked first), then
   * look the user up, then reissue a token with `keepLoggedIn` set.
   */
  function CheckToken(cfg: Config, verify: Verifier, t: UserTable, token: string): (r: AuthReply)
    ensures verify(token) == Rejected(TokenExpired) ==> r == ExpiredToken
    ensures verify(token) == Rejected(TokenInvalid) ==> r == InvalidToken
    ensures verify(token) == Rejected(VerifyFailure) ==> r == UnknownError
    ensures verify(token).Verified? ==>
              (r == UserNotFound <==> forall u :: u in t && u.id == verify(token).id ==> u.status != ACTIVE)
    ensures r.Granted? ==>
              verify(token).Verified? && r.token.keepLoggedIn && r.token.id == verify(token).id
              && exists u :: u in t && u.status == ACTIVE && r.token == GenerateTokenForUser(cfg, u, Some(true), None)
    ensures verify(token).Verified? && FindOneByID(t, verify(token).id, false).Some? ==>
              r == Granted(GenerateTokenForUser(cfg, FindOneByID(t, verify(token).id, false).value, Some(true), None))
  {
    match ValidateUser(verify, t, token)
    case Err(TokenExpired) => ExpiredToken
    case Err(TokenInvalid) => InvalidToken
    case Err(VerifyFailure) => UnknownError
    case Ok(None) => UserNotFound
    case Ok(Some(u)) => Granted(GenerateTokenForUser(cfg, u, Some(true), None))
  }

  /**
   * A user that can log in with its own password: logging in returns the
   * token for that user.
   */
  lemma LoginWithOwnPassword(cfg: Config, enc: Encryption.Service, t: UserTable, u: User, password: string,
                             keepLoggedIn: Option<bool>)
    requires EmailsUnique(t) && u in t && u.status == ACTIVE
    requires Encryption.Sound(enc.bcrypt) && u.password == Encryption.Hash(enc, password)
    ensures Login(cfg, enc, t, u.email, password, keepLoggedIn) == Granted(GenerateTokenForUser(cfg, u, keepLoggedIn, None))
  {
    FindOneByEmailUnique(t, u, false);
    Encryption.VerifyOwnHash(enc, password);
  }

  /**
   * Token refresh: a token freshly issued for an ACTIVE user checks out and
   * is replaced by one for the same user with `keepLoggedIn` true.
   */
  lemma RefreshIssuedToken(cfg: Config, sign: Claims -> string, verify: Verifier, t: UserTable, u: User,
                           keepLoggedIn: Option<bool>)
    requires Honest(sign, verify)
    requires IdsUnique(t) && u in t && u.status == ACTIVE
    ensures CheckToken(cfg, verify, t, sign(GenerateTokenForUser(cfg, u, keepLoggedIn, None)))
            == Granted(GenerateTokenForUser(cfg, u, Some(true), None))
  {
    var c := GenerateTokenForUser(cfg, u, keepLoggedIn, None);
    assert verify(sign(c)) == Verified(u.id);
    FindOneByIDUnique(t, u, false);
  }

  /** What `changePassword` throws: a TypeError on a missing user, or the user service's error. */
  datatype Fault = TypeError | Raised(error: Errors.ServiceError)

  /** `changePassword`: `{success: true}` with the new table, the wrong-password object, or a throw. */
  datatype PasswordOutcome = PasswordChanged(table: UserTable) | OldPasswordWrong | Thrown(fault: Fault)

  /**
   * `changePassword` with a resolved user (absent when the id lookup found
   * none). A truthy old password must verify first; the store is only
   * written on success.
   */
  function ChangePassword(enc: Encryption.Service, t: UserTable, user: Option<User>, newPassword: string,
                          oldPassword: Option<string>): (r: PasswordOutcome)
    requires user.Some? ==> user.value in t
    ensures r == OldPasswordWrong <==>
              Truthy(oldPassword) && user.Some? && !Encryption.Verify(enc, oldPassword.value, user.value.password)
    ensures r == Thrown(TypeError) <==> Truthy(oldPassword) && user.None?
    ensures r == Thrown(Raised(Errors.UserNotFound)) <==> !Truthy(oldPassword) && user.None?
    ensures r.PasswordChanged? <==>
              user.Some? && (!Truthy(oldPassword) || Encryption.Verify(enc, oldPassword.value, user.value.password))
    ensures r.PasswordChanged? ==>
              exists i :: 0 <= i < |t| && t[i].id == user.value.id
                && r.table == t[i := user.value.(password := Encryption.Hash(enc, newPassword))]
  {
    if Truthy(oldPassword) && user.None? then Thrown(TypeError)
    else if Truthy(oldPassword) && !Encryption.Verify(enc, oldPassword.value, user.value.password) then OldPasswordWrong
    else
      match ChangePasswordOf(t, enc, user, newPassword)
      case Err(e) => Thrown(Raised(e))
      case Ok((_, t')) => PasswordChanged(t')
  }

  /** The `changePassword(userId, …)` overload: resolve the ACTIVE user first. */
  function ChangePasswordById(enc: Encryption.Service, t: UserTable, id: string, newPassword: string,
                              oldPassword: Option<string>): (r: PasswordOutcome)
    ensures FindOneByID(t, id, false).None? ==> r.Thrown?
    ensures r.PasswordChanged? <==>
              FindOneByID(t, id, false).Some?
              && (!Truthy(oldPassword)
                  || Encryption.Verify(enc, oldPassword.value, FindOneByID(t, id, false).value.password))
    ensures r.PasswordChanged? ==> |r.table| == |t|
    ensures r.PasswordChanged? ==>
              exists i :: 0 <= i < |t| && t[i].id == id && r.table == t[i := r.table[i]]
                && r.table[i] == FindOneByID(t, id, false).value.(password := Encryption.Hash(enc, newPassword))
                && r.table[i].status == ACTIVE && r.table[i].password == Encryption.Hash(enc, newPassword)
  {
    ChangePassword(enc, t, FindOneByID(t, id, false), newPassword, oldPassword)
  }

  /**
   * A user that gives a falsy or correct old password has its password
   * changed, then logs in with the new one; with encryption disabled any
   * other password is then refused.
   */
  lemma LoginAfterPasswordChange(cfg: Config, enc: Encryption.Service, t: UserTable, u: User,
                                 newPassword: string, oldPassword: Option<string>, other: string,
                                 keepLoggedIn: Option<bool>)
    requires Valid(t) && u in t && u.status == ACTIVE && Encryption.Sound(enc.bcrypt)
    requires !Truthy(oldPassword) || Encryption.Verify(enc, oldPassword.value, u.password)
    ensures ChangePassword(enc, t, Some(u), newPassword, oldPassword).PasswordChanged?
    ensures var t' := ChangePassword(enc, t, Some(u), newPassword, oldPassword).table;
            Login(cfg, enc, t', u.email, newPassword, keepLoggedIn).Granted?
    ensures var t' := ChangePassword(enc, t, Some(u), newPassword, oldPassword).table;
            !enc.enable && other != newPassword ==> Login(cfg, enc, t', u.email, other, keepLoggedIn) == WrongPassword
  {
    var t' := ChangePassword(enc, t, Some(u), newPassword, oldPassword).table;
    var i :| 0 <= i < |t| && t[i].id == u.id && t' == t[i := u.(password := Encryption.Hash(enc, newPassword))];
    var j :| 0 <= j < |t| && t[j] == u;
    assert i == j;
    var u' := t'[i];
    assert forall k :: 0 <= k < |t'| ==> t'[k].email == t[k].email;
    assert EmailsUnique(t');
    assert u' in t';
    LoginWithOwnPassword(cfg, enc, t', u', newPassword, keepLoggedIn);
    FindOneByEmailUnique(t', u', false);
    if !enc.enable {
      Encryption.DisabledIsPlainText(enc, other, newPassword);
    }
  }

  /** An HTTP reply of the authentication controller. */
  datatype HttpReply = HttpReply(status: nat, body: AuthReply)

  /** A validated `loginDto` body. */
  datatype LoginBody = LoginBody(email: string, password: string, keepLoggedIn: Option<bool>)

  /** `POST /authentication/login`: success is 200 with the result, failure a 400 carrying it. */
  function LoginRoute(cfg: Config, enc: Encryption.Service, t: UserTable, body: LoginBody): (r: HttpReply)
    ensures r.body == Login(cfg, enc, t, body.email, body.password, body.keepLoggedIn)
    ensures r.status == 200 <==> r.body.Granted?
    ensures r.status == 400 <==> r.body.Refused?
  {
    var result := Login(cfg, enc, t, body.email, body.password, body.keepLoggedIn);
    if result.Granted? then HttpReply(200, result) else HttpReply(400, result)
  }

  /** `POST /authentication/check-token`: 200 with the new token, or 400 with the failure. */
  function CheckTokenRoute(cfg: Config, verify: Verifier, t: UserTable, token: string): (r: HttpReply)
    ensures r.body == CheckToken(cfg, verify, t, token)
    ensures r.status == 200 <==> r.body.Granted?
    ensures r.status == 400 <==> r.body.Refused?
  {
    var result := CheckToken(cfg, verify, t, token);
    if result.Granted? then HttpReply(200, result) else HttpReply(400, result)
  }
}
