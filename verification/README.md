# restaur-ant: authorization, authentication and services in Dafny

This project models the decision logic of the restaur-ant backend, a NestJS
REST service for users, restaurants and reviews. It covers:

- the three route guards (`RolesGuard`, `SelfGuard`, `BearerAuthGuard`) and
  the `@Self` decorator, over an explicit metadata record in place of
  reflection;
- the route table of the user, authentication, restaurant and review
  controllers, and the guard chain that admits a request or ends it with 401,
  403 or 500;
- the authentication service and the bearer strategy:
  - `validateUser`, `generateTokenForUser`, `login`, `checkToken`,
    `changePassword`;
  - the controller's mapping of results to 200 or 400;
- the encryption service: how the `ENABLE_ENCRYPTION` setting is read, and
  the plain-text / bcrypt switch;
- the user, restaurant and review services as transitions over tables held
  in storage order:
  - soft delete;
  - field-restricted updates;
  - not-found errors;
  - email uniqueness;
  - active-only lookups;
- the review summary (count, mean, highest, lowest, latest) and the review
  list ordered newest first;
- the restaurant listing's page arithmetic;
- the global validation pipe:
  - the constraints of every request-body class;
  - whitelisting;
  - the exception factory's `property|reason}` message;
- the frontend's star rating: a rating becomes five fills, each of which
  becomes a full, half or empty star.

## Modelling choices

- **Tables are sequences, not maps.** `findFirst`, `findMany` with
  `skip`/`take`, and tie-breaking in an `orderBy` all depend on the order rows
  come back in. So every table is a `seq` in storage order.
  - Unique ids, and unique user emails, are stated as invariants (`Users.Valid`,
    `Restaurants.IdsUnique`, `Reviews.IdsUnique`). The transitions are proved to
    preserve them.
  - A "first" query returns the first row in storage order among those it
    matches.
- **Store defaults are parameters.** The id, status, role and creation time
  the database fills in on insert are passed in (`UserDefaults`,
  `RestaurantDefaults`, `ReviewDefaults`). A fresh id is a precondition.
- **Absent update fields mean "leave the column as it is".** This is the
  database client's rule for `undefined` in update data. It is modelled with
  `Option` fields and `GetOr`.
- **JSON Web Tokens are abstract.** A token is represented by the claims it is
  signed over (`Tokens.Claims`). Verification is a given function
  `string -> Verification`, which yields the payload's id or one of three
  errors:
  - `TokenExpiredError` becomes `TokenExpired`;
  - any other `JsonWebTokenError` becomes `TokenInvalid`;
  - anything else becomes `VerifyFailure`.

  The refresh round trip assumes `Tokens.Honest`: a freshly signed token
  verifies to its own id.
- **bcrypt is abstract.** `Encryption.Bcrypt` is a hash/compare pair. The only
  property relied on is `Encryption.Sound`, that compare(p, hash(p)) holds. It
  is taken as a hypothesis where needed.
- **Failures and HTTP status.**
  - A guard that answers false ends the request with 403.
  - The strategy's `UnauthorizedException` gives 401.
  - Anything else a guard throws gives 500. This covers `RolesGuard` reading
    `user.role` with no user set, and a token error that `validateUser`
    rethrows through the strategy.
  - Handler errors in the user, restaurant and review controllers are caught
    and returned as `{success: false, message}`.

The model follows the code, including where it behaves in ways a reader may
not expect:

- `SelfGuard` computes `allowAdmins || true`, so an explicit
  `allowAdmins: false` still lets an ADMIN through.
- `RolesGuard` reads the anonymous mark from the handler only.
- A route with no declared roles lets every caller through.
- A missing caller makes `RolesGuard` throw (a 500) rather than deny.
- The token payload carries `id`, `email`, `roles` (the role, under that key)
  and `keepLoggedIn`.
- A malformed token is a `JsonWebTokenError`. `checkToken` therefore answers
  `JWT_INVALID` for it, and at the guard it surfaces as a 500, not a denial.
- `ENABLE_ENCRYPTION` is read as `Boolean(Number(setting))`: unset, empty,
  `"0"` or `"true"` all leave encryption off.
- The user and restaurant routes bind their bodies as `Partial<User>` and
  `Partial<Restaurant>`. The validation pipe has no class to check those
  against, so it lets them through unvalidated. This is why `Users.Create`
  and `Restaurants.Create` take unvalidated input. The request-body classes
  of users and restaurants are still modelled in `Validation`, as the
  contract they document. The review, login and token-check routes bind
  their classes, so the pipe does check those bodies.
- `PATCH /user` carries `@Self` metadata but no `SelfGuard`, so the metadata
  is not enforced. The route only ever updates the caller's own record,
  because the id comes from the authenticated user.

## Model

| member | source | states |
|---|---|---|
| Tables.FirstIndex | restaur-ant-backend/src/user/user.service.ts:88-98 | a `findFirst` returns the first row matching the filter, and none exactly when no row matches |
| Tables.Filter | restaur-ant-backend/src/restaurant/review/review.service.ts:11-16 | a `where` filter keeps exactly the rows of the table that match, and never more rows than the table has |
| Tables.FilterMultiplicity | restaur-ant-backend/src/restaurant/review/review.service.ts:11-16 | every matching row is kept as many times as it occurs in the table and no other row is kept, so a count over the filter counts each matching row once |
| Tables.Window | restaur-ant-backend/src/restaurant/restaurant.service.ts:9-11 | `skip`/`take` returns the rows from offset `skip` on, at most `take` of them, and empty past the end |
| Tables.MaxBy | restaur-ant-backend/src/restaurant/review/review.service.ts:34-45 | `findFirst` with a descending order returns a row of the input whose key is at least every row's key, and none only on empty input |
| Tables.SortDesc | restaur-ant-backend/src/restaurant/review/review.service.ts:80-91 | ordering by a key descending yields a permutation of the input that is sorted greatest first |
| Encryption.EnabledIffNonZeroNumeral | restaur-ant-backend/src/user/authentication/encryption/encryption.service.ts:12-14 | encryption is on iff the trimmed setting is a signed decimal numeral with a non-zero digit |
| Encryption.EnabledExamples | restaur-ant-backend/src/user/authentication/encryption/encryption.service.ts:12-14 | "1" and " 2 " turn encryption on; "0", "", "true", "false" and an unset setting leave it off |
| Encryption.VerifyOwnHash | restaur-ant-backend/src/user/authentication/encryption/encryption.service.ts:17-25 | in both modes a password verifies against its own hash, given bcrypt's compare(p, hash(p)) |
| Encryption.DisabledIsPlainText | restaur-ant-backend/src/user/authentication/encryption/encryption.service.ts:17-25 | when disabled, hashing is the identity and verify(p, hash(q)) holds iff p == q |
| Encryption.EnabledDelegates | restaur-ant-backend/src/user/authentication/encryption/encryption.service.ts:17-25 | when enabled, hash and verify are exactly bcrypt's hash and compare |
| Users.FindOneByID | restaur-ant-backend/src/user/user.service.ts:88-98 | the user found has the id and is ACTIVE unless `evenIfDeleted`; none iff no such visible user exists |
| Users.FindOneByEmail | restaur-ant-backend/src/user/user.service.ts:100-110 | the user found has the email and is ACTIVE unless `evenIfDeleted`; none iff no such visible user exists |
| Users.FindOneByIDUnique | restaur-ant-backend/src/user/user.service.ts:88-98 | with unique ids, looking a visible user up by its id returns that very user |
| Users.FindOneByEmailUnique | restaur-ant-backend/src/user/user.service.ts:100-110 | with unique emails, looking a visible user up by its email returns that very user |
| Users.Create | restaur-ant-backend/src/user/user.service.ts:13-35 | fails with USER_ALREADY_EXISTS iff some user (any status) has the email; otherwise appends a user with the hashed password and the default id, status, role and creation time |
| Users.Update | restaur-ant-backend/src/user/user.service.ts:37-67 | USER_NOT_FOUND iff no ACTIVE user has the id; otherwise only name, email and password change, the password is rehashed only when non-empty and different from the stored digest, and a clash with another user's email is USER_ALREADY_EXISTS |
| Users.Delete | restaur-ant-backend/src/user/user.service.ts:69-86 | USER_NOT_FOUND iff no user of any status has the id; otherwise only that user's status becomes INACTIVE |
| Users.ChangePasswordOf | restaur-ant-backend/src/user/user.service.ts:114-130 | with no user, USER_NOT_FOUND; otherwise the user's row is written back with the password replaced by hash(newPassword) |
| Users.ChangePassword | restaur-ant-backend/src/user/user.service.ts:112-130 | by id: USER_NOT_FOUND iff no ACTIVE user has the id; otherwise the record written is the ACTIVE user found, with only its password replaced by hash(newPassword), and it replaces a row with that id in the table |
| Users.ChangePasswordPreservesValid | restaur-ant-backend/src/user/user.service.ts:112-130 | changing a password keeps ids and emails unique |
| Users.CreatePreservesValid | restaur-ant-backend/src/user/user.service.ts:13-35 | creating a user keeps ids and emails unique |
| Users.UpdatePreservesValid | restaur-ant-backend/src/user/user.service.ts:37-67 | updating a user keeps ids and emails unique |
| Users.DeletePreservesValid | restaur-ant-backend/src/user/user.service.ts:69-86 | deleting a user keeps ids and emails unique |
| Users.DeleteHidesUser | restaur-ant-backend/src/user/user.service.ts:69-110 | after a delete the user is hidden from default lookups, still found with `evenIfDeleted`, and deleting again changes nothing |
| Tokens.ExpirationFor | restaur-ant-backend/src/user/authentication/authentication.service.ts:40-42 | the expiry is the given interval if truthy, else the configured default if truthy, else `2d`; never empty |
| Tokens.GenerateTokenForUser | restaur-ant-backend/src/user/authentication/authentication.service.ts:35-52 | the claims carry the user's id, email and role (under `roles`), `keepLoggedIn` true only when passed true, and the chosen expiry |
| Guards.NormaliseSelf | restaur-ant-backend/src/user/authentication/decorators/self.decorator.ts:8-12 | a string argument s becomes `{userIDParam: s}` with no `allowAdmins`; an object is stored unchanged |
| Guards.WithSelf | restaur-ant-backend/src/user/authentication/decorators/self.decorator.ts:8-12 | `@Self` stores the normalised params under `selfParams` and touches no other key |
| Guards.WithRoles | restaur-ant-backend/src/user/authentication/guards/roles.guard.ts:21-27 | `@Roles` stores the list under `roles`, which is what RolesGuard reads, and touches no other key |
| Guards.WithAnonymous | restaur-ant-backend/src/user/authentication/guards/bearer.guard.ts:17-25 | `@Anonymous` sets the `anonymous` mark and touches no other key |
| Guards.RolesGuard | restaur-ant-backend/src/user/authentication/guards/roles.guard.ts:10-34 | allows iff the handler is anonymous, or the caller is ADMIN, or no roles are declared on handler or class, or the caller's role is in the list in force (handler first, then class); throws iff there is no caller on a non-anonymous handler |
| Guards.SelfGuard | restaur-ant-backend/src/user/authentication/guards/self.guard.ts:11-37 | allows iff no self params are in force (handler first, then class), or the caller is ADMIN, or the caller's id equals the named route parameter; denies a missing caller; never throws |
| Guards.BearerGuard | restaur-ant-backend/src/user/authentication/guards/bearer.guard.ts:16-30 | an anonymous mark on class or handler opens without a token; otherwise the strategy's result decides: its user, a 401, or its error |
| Guards.AdminPassesRoles | restaur-ant-backend/src/user/authentication/guards/roles.guard.ts:19 | an ADMIN passes RolesGuard whatever the route requires, even a list without ADMIN |
| Guards.EmptyRolesDenyNonAdmins | restaur-ant-backend/src/user/authentication/guards/roles.guard.ts:30-33 | an empty role list denies every non-admin |
| Guards.HandlerRolesTakePrecedence | restaur-ant-backend/src/user/authentication/guards/roles.guard.ts:21-27 | when the handler declares roles, the class's metadata makes no difference |
| Guards.ClassAnonymousIgnoredByRoles | restaur-ant-backend/src/user/authentication/guards/roles.guard.ts:16 | marking the class anonymous does not change RolesGuard's answer |
| Guards.AdminPassesSelfDespiteAllowAdminsFalse | restaur-ant-backend/src/user/authentication/guards/self.guard.ts:31-36 | an ADMIN passes SelfGuard even with `allowAdmins: false` |
| Guards.HandlerSelfTakesPrecedence | restaur-ant-backend/src/user/authentication/guards/self.guard.ts:18-27 | when the handler has self params, the class's metadata makes no difference |
| Guards.SelfDecoratorBindsParam | restaur-ant-backend/src/user/authentication/guards/self.guard.ts:29-35 | `@Self(name)` on a handler lets a user through iff it is ADMIN or its id is the `name` parameter, and denies a missing caller |
| Guards.TokenDemandedUnlessAnonymous | restaur-ant-backend/src/user/authentication/guards/bearer.guard.ts:17-29 | a request without a valid user is let through iff class or handler is anonymous |
| Guards.AnonymousIgnoresToken | restaur-ant-backend/src/user/authentication/guards/bearer.guard.ts:17-25 | on an anonymous route the strategy's result makes no difference |
| Authentication.ValidateUser | restaur-ant-backend/src/user/authentication/authentication.service.ts:22-33 | a verification error is rethrown unchanged; otherwise the ACTIVE user with the token's id, or nothing iff there is no such user |
| Authentication.Validate | restaur-ant-backend/src/user/authentication/authentication.strategy.ts:12-18 | a found user becomes the caller, no user is Unauthorized, a verification error propagates |
| Authentication.Authenticate | restaur-ant-backend/src/user/authentication/authentication.strategy.ts:12-18 | without a bearer token the request is unauthenticated; with one, `validate` decides |
| Authentication.AuthenticatedIsActiveTokenOwner | restaur-ant-backend/src/user/authentication/authentication.strategy.ts:12-18 | an admitted caller is an ACTIVE user of the table whose id the token carries, so a successful `validate` never yields a falsy caller |
| Authentication.Login | restaur-ant-backend/src/user/authentication/authentication.service.ts:55-79 | UNKNOWN_USER iff no ACTIVE user has the email; WRONG_USER_PASSWORD iff the found user's password does not verify; otherwise, and whenever the ACTIVE user found by the email has a password that verifies, the reply is that user's token with the caller's `keepLoggedIn` |
| Authentication.CheckToken | restaur-ant-backend/src/user/authentication/authentication.service.ts:81-119 | expired gives JWT_EXPIRED, other token errors JWT_INVALID, anything else UNKNOWN_ERROR; a valid token with no ACTIVE user gives USER_NOT_FOUND; a valid token whose id has an ACTIVE user always gives a fresh token for that user with `keepLoggedIn` true |
| Authentication.LoginWithOwnPassword | restaur-ant-backend/src/user/authentication/authentication.service.ts:55-79 | an ACTIVE user whose stored password is the hash of p logs in with p and gets its own token |
| Authentication.RefreshIssuedToken | restaur-ant-backend/src/user/authentication/authentication.service.ts:81-119 | a token issued to an ACTIVE user checks out and is replaced by one for the same user with `keepLoggedIn` true |
| Authentication.ChangePassword | restaur-ant-backend/src/user/authentication/authentication.service.ts:127-155 | a truthy old password that does not verify gives WRONG_USER_PASSWORD and no write; a truthy old password with no user throws a TypeError; no user otherwise throws USER_NOT_FOUND; the change succeeds exactly when there is a user and the old password is falsy or verifies, and then writes hash(newPassword) into the user's row |
| Authentication.ChangePasswordById | restaur-ant-backend/src/user/authentication/authentication.service.ts:127-135 | by id: with no ACTIVE user it throws; it succeeds exactly when the ACTIVE user exists and the old password is falsy or verifies; then only that user's row changes, to the same record with the new hashed password |
| Authentication.LoginAfterPasswordChange | restaur-ant-backend/src/user/authentication/authentication.service.ts:127-155 | a user whose old password is falsy or correct has the password changed, then logs in with the new password; with encryption disabled, every other password is then refused with WRONG_USER_PASSWORD |
| Authentication.LoginRoute | restaur-ant-backend/src/user/authentication/authentication.controller.ts:24-39 | the service is called with the body's email, password and `keepLoggedIn`; success is 200 with the result, failure 400 with the same body |
| Authentication.CheckTokenRoute | restaur-ant-backend/src/user/authentication/authentication.controller.ts:41-52 | success is 200 with the new token, failure 400 with the failure object |
| Restaurants.FindAll | restaur-ant-backend/src/restaurant/restaurant.service.ts:9-11 | exactly min(take, rows left after `skip`) restaurants, none past the end, the ones at offsets `skip` onwards, whatever their status |
| Restaurants.FindOne | restaur-ant-backend/src/restaurant/restaurant.service.ts:13-15 | the restaurant with the id whatever its status, none iff there is none |
| Restaurants.Create | restaur-ant-backend/src/restaurant/restaurant.service.ts:17-35 | copies name, address, phone and description, takes id and status from the defaults and appends; a body missing one of them is refused by the store |
| Restaurants.CreatePreservesIds | restaur-ant-backend/src/restaurant/restaurant.service.ts:17-35 | a complete body is stored, ids stay unique, and `findOne` then returns the new restaurant |
| Restaurants.Update | restaur-ant-backend/src/restaurant/restaurant.service.ts:37-61 | RESTAURANT_NOT_FOUND iff no restaurant has the id; otherwise only name, address, phone and description change, also on an INACTIVE restaurant |
| Restaurants.UpdatePreservesIds | restaur-ant-backend/src/restaurant/restaurant.service.ts:37-61 | an update keeps ids unique, and the updated restaurant is what `findOne` then returns |
| Restaurants.UpdateWithAllFields | restaur-ant-backend/src/restaurant/restaurant.service.ts:43-49 | with all four fields given, the stored restaurant takes exactly those values |
| Restaurants.NormalisePage | restaur-ant-backend/src/restaurant/restaurant.controller.ts:36 | page 0 is served as page 1; any page from 1 is kept |
| Restaurants.PageSkip | restaur-ant-backend/src/restaurant/restaurant.controller.ts:36-38 | page p skips (p-1)·20 rows, a multiple of 20, and 0 exactly for pages 0 and 1 |
| Restaurants.ListPage | restaur-ant-backend/src/restaurant/restaurant.controller.ts:33-39 | a page holds at most 20 restaurants, the table's rows from its skip on, and a full 20 while the table lasts |
| Restaurants.PagesCoverPrefix | restaur-ant-backend/src/restaurant/restaurant.controller.ts:36-38 | pages 1 to n, one after another, are exactly the first 20·n rows of the table |
| Restaurants.PagesDisjoint | restaur-ant-backend/src/restaurant/restaurant.controller.ts:37-38 | distinct pages cover disjoint ranges, and page p ends where page p+1 starts |
| Restaurants.PastTheEnd | restaur-ant-backend/src/restaurant/restaurant.controller.ts:36-38 | a page starting past the end of the table is empty |
| Reviews.Counted | restaur-ant-backend/src/restaurant/review/review.service.ts:11-16 | exactly the PUBLISHED reviews of the restaurant |
| Reviews.Average | restaur-ant-backend/src/restaurant/review/review.service.ts:19-33 | no average (null) exactly when there is nothing to average |
| Reviews.FindForRestaurant | restaur-ant-backend/src/restaurant/review/review.service.ts:9-78 | the total is the number of counted reviews; the average is absent iff that number is 0; highest has a rating at least every counted rating, lowest at most every one, latest the greatest creation time; all three are counted reviews, and all are absent iff the total is 0 |
| Reviews.SummaryConsistent | restaur-ant-backend/src/restaurant/review/review.service.ts:19-69 | the average lies between the lowest and the highest rating, and within 1 to 5 when every counted rating does |
| Reviews.DeletedNeverCounts | restaur-ant-backend/src/restaurant/review/review.service.ts:11-30 | inserting a DELETED review anywhere changes neither the counted reviews nor the summary |
| Reviews.FindAllForRestaurant | restaur-ant-backend/src/restaurant/review/review.service.ts:80-91 | exactly the restaurant's PUBLISHED reviews, as a permutation of them, newest first |
| Reviews.ListHeadIsLatest | restaur-ant-backend/src/restaurant/review/review.service.ts:58-91 | the list's first review has the creation time of the summary's latest |
| Reviews.FindOne | restaur-ant-backend/src/restaurant/review/review.service.ts:93-100 | the review with the id whatever its status, none iff there is none |
| Reviews.FindOneIgnoresRestaurant | restaur-ant-backend/src/restaurant/review/review.service.ts:93-100 | the restaurant id passed to `findOne` makes no difference |
| Reviews.Create | restaur-ant-backend/src/restaurant/review/review.service.ts:102-127 | appends a review by the given user for the given restaurant with the body's rating, comment and visit date, and default id, status and creation time |
| Reviews.CreatedReviewCounts | restaur-ant-backend/src/restaurant/review/review.service.ts:102-127 | a new review published by default adds one to its restaurant's total |
| Reviews.Update | restaur-ant-backend/src/restaurant/review/review.service.ts:129-152 | REVIEW_NOT_FOUND iff no review has the id; otherwise only rating, comment and visit date change, whatever the status |
| Reviews.UpdateKeepsOwnership | restaur-ant-backend/src/restaurant/review/review.service.ts:135-139 | an update keeps author, restaurant, status and creation time |
| Reviews.Delete | restaur-ant-backend/src/restaurant/review/review.service.ts:154-171 | REVIEW_NOT_FOUND iff no review has the id; otherwise only its status becomes DELETED |
| Reviews.DeleteRemovesFromSummary | restaur-ant-backend/src/restaurant/review/review.service.ts:154-171 | a deleted review no longer counts for any restaurant but is still found by id |
| Validation.Validate | restaur-ant-backend/src/main.ts:31-34 | no errors iff every property passes its rule; the first error is the first failing property in declaration order, with its failed constraints |
| Validation.ExceptionFactory | restaur-ant-backend/src/main.ts:35-44 | a 400 with `success: false`, errorCode VALIDATION_ERROR and message property + `\|` + first constraint's message + `}` (`undefined` when there is none) |
| Validation.FactoryReadsFirstOnly | restaur-ant-backend/src/main.ts:36-37 | errors after the first, and constraints after its first, do not affect the reply |
| Validation.MessageNamesProperty | restaur-ant-backend/src/main.ts:40 | the property can be read back from the message: it precedes the first bar, and the message ends in `}` |
| Validation.Whitelist | restaur-ant-backend/src/main.ts:34 | keeps exactly the declared properties of the body, with their values |
| Validation.Pipe | restaur-ant-backend/src/main.ts:31-45 | the whitelisted body iff it passes validation, otherwise a 400 VALIDATION_ERROR |
| Validation.WhitelistKeepsValidity | restaur-ant-backend/src/main.ts:34 | whitelisting is idempotent and does not change whether a body passes |
| Validation.CreateUserDtoMeaning | restaur-ant-backend/src/user/dtos/overrides/create-user.dto.ts:4-14 | accepted iff name has length 3..255, email is email-formatted with length 3..255, and password has length 8..255 |
| Validation.UpdateUserDtoMeaning | restaur-ant-backend/src/user/dtos/overrides/update-user.dto.ts:4-17 | every field may be omitted; a present name must have length 3..255, email be email-formatted with length 3..255, password have length 8..255 |
| Validation.UpdateUserRoleDtoMeaning | restaur-ant-backend/src/user/dtos/overrides/update-user-role.dto.ts:4-7 | accepted iff role is the string ADMIN or USER |
| Validation.UnknownRoleRejected | restaur-ant-backend/test/user.e2e-spec.ts:115-125 | role RANDOM is refused with 400 VALIDATION_ERROR naming `role` |
| Validation.LoginDtoMeaning | restaur-ant-backend/src/user/authentication/dto/login.dto.ts:3-11 | accepted iff email has length 3..255 (no format check), password length 8..255, and keepLoggedIn is omitted or boolean |
| Validation.LoginWithoutEmailRejected | restaur-ant-backend/test/authentication.e2e-spec.ts:114-124 | a login body without email is refused with 400 VALIDATION_ERROR naming `email` |
| Validation.CheckTokenDtoMeaning | restaur-ant-backend/src/user/authentication/dto/checktoken.dto.ts:3-6 | accepted iff token is a string of length 1..1000; token is the only declared property |
| Validation.CreateRestaurantDtoMeaning | restaur-ant-backend/src/restaurant/dtos/overrides/create-restaurant.dto.ts:4-13 | accepted iff name and address have length 3..255, phone 8..255 and description 1..500 |
| Validation.UpdateRestaurantDtoMeaning | restaur-ant-backend/src/restaurant/dtos/overrides/update-restaurant.dto.ts:4-20 | every field may be omitted; present ones meet the create lengths |
| Validation.RatingRangeMeaning | restaur-ant-backend/src/restaurant/review/dtos/overrides/create-review.dto.ts:5-8 | the rating constraints together accept exactly the integers 1 to 5 |
| Validation.CreateReviewDtoMeaning | restaur-ant-backend/src/restaurant/review/dtos/overrides/create-review.dto.ts:4-15 | accepted iff rating is an integer in 1..5, dateOfVisit passes the date check and comment has length 1..500 |
| Validation.UpdateReviewDtoMeaning | restaur-ant-backend/src/restaurant/review/dtos/overrides/update-review.dto.ts:4-18 | every field may be omitted; present ones meet the create constraints |
| Validation.UpdatesAcceptEmptyBody | restaur-ant-backend/src/user/dtos/overrides/update-user.dto.ts:5-16 | the three update bodies accept an empty body |
| Routes.RunGuards | restaur-ant-backend/src/user/authentication/guards/bearer.guard.ts:16-30 | guards run in order; 401 only from the bearer guard on a non-anonymous route with no user, 403 only from a roles or self check; an admitted non-anonymous bearer route runs as the token's user |
| Routes.OpenRoutes | restaur-ant-backend/src/user/user.controller.ts:27-30 | registration, login and token check run no guard and set no user |
| Routes.TokenRoutesNeedAToken | restaur-ant-backend/src/restaurant/restaurant.controller.ts:28 | every user-update, user-delete, restaurant and review route answers 401 with no valid user, and 500 when verification throws |
| Routes.BearerFirstRefuses | restaur-ant-backend/src/user/authentication/guards/bearer.guard.ts:26 | a chain that starts with the bearer guard stops there when the strategy admits nobody |
| Routes.AdminRoutesAdmitOnlyAdmins | restaur-ant-backend/src/user/user.controller.ts:70-73 | the administrator routes (user update and delete, restaurant create and update, review update and delete) admit a caller iff it is ADMIN, and answer 403 otherwise |
| Routes.OwnUpdateSelfNotEnforced | restaur-ant-backend/src/user/user.controller.ts:46-56 | `PATCH /user` admits any authenticated user whatever the `id` parameter, although SelfGuard would deny that user |
| Routes.AuthenticatedRoutes | restaur-ant-backend/src/restaurant/review/review.controller.ts:21-50 | listing and reading restaurants, the review summary and creating a review admit every authenticated user |
| Routes.RolesBeforeBearerCrashes | restaur-ant-backend/src/user/authentication/guards/roles.guard.ts:14-19 | RolesGuard before the bearer guard finds no user and throws: a 500 |
| Controllers.CreateUser | restaur-ant-backend/src/user/user.controller.ts:27-44 | success iff the service creates the user, replying with the new id and storing exactly the service's table; USER_ALREADY_EXISTS iff the email is taken, with the store unchanged |
| Controllers.UpdateOwnUser | restaur-ant-backend/src/user/user.controller.ts:46-68 | fails iff the service update of the caller's own id fails, then as `success: false` with the store unchanged; on success the stored table is exactly the service's, and only the caller's row can differ |
| Controllers.UpdateUser | restaur-ant-backend/src/user/user.controller.ts:70-89 | fails iff the service update of the path id fails, then as `success: false` with the store unchanged; on success the stored table is exactly the service's, and only the row with the path id can differ |
| Controllers.DeleteUser | restaur-ant-backend/src/user/user.controller.ts:91-109 | USER_NOT_FOUND as `success: false` iff no user has the id; otherwise the soft delete, replying with the id |
| Controllers.CreateRestaurant | restaur-ant-backend/src/restaurant/restaurant.controller.ts:47-65 | fails iff a column is missing from the body, with the store unchanged; otherwise stores exactly the table the service produced, which appends one row, and replies with the new id |
| Controllers.UpdateRestaurant | restaur-ant-backend/src/restaurant/restaurant.controller.ts:67-86 | RESTAURANT_NOT_FOUND as `success: false` iff no restaurant has the id; otherwise the update, replying with the id |
| Controllers.ReviewSummary | restaur-ant-backend/src/restaurant/review/review.controller.ts:26-33 | `success: true` with the service's summary unchanged, whose total is the number of counted reviews |
| Controllers.CreateReview | restaur-ant-backend/src/restaurant/review/review.controller.ts:35-62 | always succeeds; the stored table is exactly the service's, with one appended review that is the caller's, for the restaurant in the path, and the reply carries its id |
| Controllers.SummaryCountsPostedReview | restaur-ant-backend/src/restaurant/review/review.controller.ts:26-62 | posting a review that is published by default raises the restaurant's summary total by one |
| Controllers.UpdateReview | restaur-ant-backend/src/restaurant/review/review.controller.ts:64-83 | REVIEW_NOT_FOUND as `success: false` iff no review has the id; otherwise the update, replying with the id |
| Controllers.DeleteReview | restaur-ant-backend/src/restaurant/review/review.controller.ts:85-103 | REVIEW_NOT_FOUND as `success: false` iff no review has the id; otherwise the soft delete, replying with the id |
| Controllers.MissingReviewMessage | restaur-ant-backend/src/restaurant/review/review.controller.ts:78-82 | a missing review id reaches the client as the message REVIEW_NOT_FOUND |
| StarRating.Fill | restaur-ant-frontend/components/common/Rating.tsx:14-18 | star k (below 5) is 1 when the rating is at least k, else rating−(k−1); star 5 is 1 only at exactly 5, else rating−4; a fill exceeds 1 only for star 5 above 5 |
| StarRating.TagOf | restaur-ant-frontend/components/common/Star.tsx:8-13 | full iff the fill is exactly 1; half iff it is not 1 and above 0.333 (fills above 1 included); empty iff at most 0.333 |
| StarRating.Size | restaur-ant-frontend/components/common/Star.tsx:7 | a missing or zero size is 24; any other is kept |
| StarRating.WholeRatingStars | restaur-ant-frontend/components/common/Rating.tsx:14-18 | a whole rating r from 0 to 5 shows r full stars followed by empty ones |
| StarRating.FillsNonIncreasing | restaur-ant-frontend/components/common/Rating.tsx:14-18 | for ratings from 0 to 5 the fills never increase from left to right |
| StarRating.HalfRatingStars | restaur-ant-frontend/components/common/Rating.tsx:14-18 | a rating of n and a half shows n full stars, one half star, then empty ones |
| StarRating.AboveFiveLastStarHalf | restaur-ant-frontend/components/common/Rating.tsx:18 | above 5 the first four stars are full and the fifth is half, not full |

## Left out

- Signing and verifying JSON Web Tokens (RFC 7519), the `exp` claim and
  wall-clock expiry are left out. Verification is a given function, and a
  token is represented by its claims.
- Extracting the bearer token from the `Authorization` header (section 2.1 of
  RFC 6750) is left out. The header's token arrives as an `Option<string>`.
- bcrypt (`bcrypt.service.ts`) is left out. It is a foreign library: hash and
  compare are parameters, and the salt is folded into `hash`.
- The database client is replaced by sequences:
  - its unique-constraint and foreign-key checks on review creation are not
    modelled;
  - so are the `include` joins that add the author's name to reviews;
  - so are the client's own error messages. A missing restaurant column is
    `StoreRejected`, with no message text.
- NestJS plumbing is left out: modules, dependency injection, `Reflector`
  lookup (replaced by `Guards.Metadata`), Swagger, and the rest of `main.ts`.
- Seeding (`app.service.ts`, `app.controller.ts`) is left out. It is random
  data and database I/O.
- Frontend pages, layout, hooks, session handling and the HTTP wrappers are
  left out. Only the star rating is modelled.
- Floating point is replaced by exact reals. Boundary cases of the star fills
  at 0.333, and of the database's average, may differ from IEEE results.
- `GET /user/:id`, `PATCH /user/:id/role` and `DELETE /restaurant/:id` have
  no handler in the controllers. They are not modelled as routes;
  `UpdateUserRoleDto` is modelled only as a body check.
- `GET /restaurant/:page` and `GET /restaurant/:id` return the service's
  value as it is; the model gives `Restaurants.ListPage` and
  `Restaurants.FindOne` for them.
- Encryption.ToNumber: understands only signed decimal integers after
  trimming. Other forms JavaScript's `Number` accepts (`0x10`, `1e3`, `1.5`,
  `Infinity`) read as `NaN` here, so such a setting would leave encryption
  off where the code turns it on.
- Users.ChangePasswordOf: requires the user record given to it to be a row of
  the table. The code would let the database client fail on a record it
  cannot find; that error is not modelled.
- Users.Create: takes name, email and password as present strings. The route
  binds the body unvalidated, and a body missing one of them fails in the
  database client or in bcrypt; that failure is not modelled.
- Validation.Holds: gives a constraint's outcome but not the validator
  library's message text; the exception factory takes the text as a
  `describe` parameter. String lengths count code points. The library
  also leaves the variation selectors U+FE0E and U+FE0F out of the count,
  and the model counts them. The email and date checks are abstract.
- Validation.Validate: follows the order in which constraints are recorded,
  which is the reverse of how the decorators are written (decorators apply
  bottom-up). Constraints inherited from the generated base classes are not
  part of this model.
- Reviews.Create: never fails. A foreign-key violation (an unknown user or
  restaurant id) is not modelled, because the table of users is not part of
  the review store here.
- Reviews.Update, Controllers.UpdateReview, Users.Update, Restaurants.Update:
  an update field is either absent or a value of the column's type. A
  `null`, or a value of the wrong type, is not modelled. `@IsOptional` lets
  `null` through the pipe, and the user and restaurant bodies are not
  validated at all. The database client then refuses such a value, and the
  controller answers `success: false` with the client's message. So these
  members promise success where the service would fail.
- Authentication.LoginRoute: a `keepLoggedIn` of `null` in the body is treated
  like an absent one.
- Prisma's ordering among rows with equal keys (equal ratings or creation
  times) is not specified. The model takes the first in storage order, and
  the contracts hold for any choice.
- Restaurants.FindAll, Restaurants.ListPage, Restaurants.PagesCoverPrefix: the
  listing query (`restaurant.service.ts:10`) has no `orderBy`, so the database
  may return rows in a different order from one page query to the next. The
  model assumes every page query sees the same storage order; without that,
  pages can overlap or skip rows, and the covering property need not hold.
- Reviews.SummaryConsistent, Controllers.ReviewSummary: every handler is one
  atomic transition on the store. Interleavings of concurrent requests are
  not modelled. The summary runs five separate queries
  (`review.service.ts:71-77`), and update, delete and password change read
  the row before writing it (`user.service.ts:38-53`,
  `review.service.ts:130-145`, `review.service.ts:155-163`). Under
  concurrency a real summary reply need not be consistent, and an update may
  reach a row deleted in between.
