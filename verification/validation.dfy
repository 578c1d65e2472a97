/**
 * The global validation pipe: the constraints each request-body class
 * declares, whitelisting of undeclared properties, and the factory that
 * turns the first failure into a 400 reply.
 */
module Validation {
  import opened Wrappers
  import opened Tables

  /** A JSON body value as the pipe sees it; `Absent` is a property the body does not have. */
  datatype Value = Absent | Null | Str(s: string) | Num(n: real) | Bool(b: bool) | Composite

  type Body = map<string, Value>

  function Get(body: Body, property: string): Value {
    if property in body then body[property] else Absent
  }

  /** A constraint a decorator records on a property. */
  datatype Constraint =
    | IsLength(min: nat, max: nat)
    | IsEmail
    | IsInt
    | AtLeast(bound: int)
    | AtMost(bound: int)
    | IsBoolean
    | IsIn(options: seq<string>)
    | IsDate

  /** The email and date checks of the validator library, left abstract. */
  datatype Checks = Checks(isEmail: string -> bool, isDate: Value -> bool)

  /** A string whose length lies in [min, max]; any other value fails. */
  predicate TextWithin(v: Value, min: nat, max: nat) {
    v.Str? && min <= |v.s| <= max
  }

  /** A number with no fractional part. */
  predicate Integral(v: Value) {
    v.Num? && v.n == v.n.Floor as real
  }

  predicate Holds(checks: Checks, c: Constraint, v: Value) {
    match c
    case IsLength(min, max) => TextWithin(v, min, max)
    case IsEmail => v.Str? && checks.isEmail(v.s)
    case IsInt => Integral(v)
    case AtLeast(k) => v.Num? && v.n >= k as real
    case AtMost(k) => v.Num? && v.n <= k as real
    case IsBoolean => v.Bool?
    case IsIn(options) => v.Str? && v.s in options
    case IsDate => checks.isDate(v)
  }

  /**
   * The constraints of one property, in the order they are recorded
   * (decorators apply bottom-up). An optional property that is absent or
   * null skips its constraints.
   */
  datatype Rule = Rule(property: string, optional: bool, constraints: seq<Constraint>)

  /** A failed property with its failed constraints, in recorded order. */
  datatype ValidationError = ValidationError(property: string, failed: seq<Constraint>)

  predicate Skipped(r: Rule, v: Value) {
    r.optional && (v.Absent? || v.Null?)
  }

  /** The constraints of `r` that `v` fails. */
  function Failures(checks: Checks, r: Rule, v: Value): (f: seq<Constraint>)
    ensures forall c :: c in f <==> c in r.constraints && !Skipped(r, v) && !Holds(checks, c, v)
  {
    if Skipped(r, v) then [] else Filter(r.constraints, (c: Constraint) => !Holds(checks, c, v))
  }

  /** A value passes a rule when it is skipped or meets every constraint. */
  predicate Passes(checks: Checks, r: Rule, v: Value) {
    Skipped(r, v) || forall c :: c in r.constraints ==> Holds(checks, c, v)
  }

  /** The validation errors of `body` under `rules`, one per failing property, in rule order. */
  function Validate(checks: Checks, rules: seq<Rule>, body: Body): (errs: seq<ValidationError>)
    ensures |errs| <= |rules|
    ensures |errs| == 0 <==> forall i :: 0 <= i < |rules| ==> Passes(checks, rules[i], Get(body, rules[i].property))
    ensures forall e :: e in errs ==> |e.failed| > 0
    ensures |errs| > 0 ==>
              exists i :: 0 <= i < |rules|
                && (forall j :: 0 <= j < i ==> Passes(checks, rules[j], Get(body, rules[j].property)))
                && errs[0] == ValidationError(rules[i].property, Failures(checks, rules[i], Get(body, rules[i].property)))
  {
    if |rules| == 0 then []
    else
      var r := rules[0];
      var f := Failures(checks, r, Get(body, r.property));
      var rest := Validate(checks, rules[1..], body);
      assert forall i :: 1 <= i < |rules| ==> rules[i] == rules[1..][i - 1];
      if |f| == 0 then
        assert Passes(checks, r, Get(body, r.property));
        rest
      else
        assert f[0] in f;
        assert !Passes(checks, r, Get(body, r.property));
        [ValidationError(r.property, f)] + rest
  }

  predicate Accepts(checks: Checks, rules: seq<Rule>, body: Body) {
    |Validate(checks, rules, body)| == 0
  }

  /** The body of the 400 reply a validation failure produces. */
  datatype Rejection = Rejection(status: nat, success: bool, message: string, errorCode: string)

  /**
   * The exception factory: the first error's property, a bar, the message of
   * its first failed constraint (`undefined` when it has none) and a
   * closing brace. `describe` gives the validator's message for a constraint.
   */
  function ExceptionFactory(errs: seq<ValidationError>, describe: (string, Constraint) -> string)
    : (r: Rejection)
    requires |errs| > 0
    ensures r.status == 400 && !r.success && r.errorCode == "VALIDATION_ERROR"
    ensures |errs[0].failed| > 0 ==>
              r.message == errs[0].property + "|" + describe(errs[0].property, errs[0].failed[0]) + "}"
    ensures |errs[0].failed| == 0 ==> r.message == errs[0].property + "|undefined}"
  {
    var e := errs[0];
    var reason := if |e.failed| > 0 then describe(e.property, e.failed[0]) else "undefined";
    Rejection(400, false, e.property + "|" + reason + "}", "VALIDATION_ERROR")
  }

  /** Only the first error, and only its first constraint, reach the reply. */
  lemma FactoryReadsFirstOnly(a: seq<ValidationError>, b: seq<ValidationError>, describe: (string, Constraint) -> string)
    requires |a| > 0 && |b| > 0
    requires a[0].property == b[0].property
    requires |a[0].failed| > 0 && |b[0].failed| > 0 && a[0].failed[0] == b[0].failed[0]
    ensures ExceptionFactory(a, describe) == ExceptionFactory(b, describe)
  {
  }

  /** A property name without a bar can be read back from the reply message. */
  lemma {:induction false} MessageNamesProperty(errs: seq<ValidationError>, describe: (string, Constraint) -> string)
    requires |errs| > 0 && '|' !in errs[0].property
    ensures var m := ExceptionFactory(errs, describe).message;
            var k := |errs[0].property|;
            k < |m| && m[..k] == errs[0].property && m[k] == '|' && m[|m| - 1] == '}'
            && (forall i :: 0 <= i < k ==> m[i] != '|')
  {
    var p := errs[0].property;
    var m := ExceptionFactory(errs, describe).message;
    var reason := m[|p| + 1 .. |m| - 1];
    assert m == p + "|" + reason + "}";
    assert m[..|p|] == p;
  }

  /** The properties some rule declares. */
  function Declared(rules: seq<Rule>): (names: set<string>)
    ensures forall p :: p in names <==> exists i :: 0 <= i < |rules| && rules[i].property == p
  {
    set i | 0 <= i < |rules| :: rules[i].property
  }

  /** `whitelist`: drop every property no rule declares. */
  function Whitelist(rules: seq<Rule>, body: Body): (r: Body)
    ensures r.Keys == body.Keys * Declared(rules)
    ensures forall p :: p in r ==> r[p] == body[p]
  {
    map p | p in body && p in Declared(rules) :: body[p]
  }

  /** The pipe: a validated, whitelisted body, or the factory's rejection. */
  function Pipe(checks: Checks, describe: (string, Constraint) -> string, rules: seq<Rule>, body: Body)
    : (r: Result<Body, Rejection>)
    ensures r.Ok? <==> Accepts(checks, rules, body)
    ensures r.Ok? ==> r.value == Whitelist(rules, body)
    ensures r.Err? ==> r.error.status == 400 && r.error.errorCode == "VALIDATION_ERROR"
  {
    var errs := Validate(checks, rules, body);
    if |errs| == 0 then Ok(Whitelist(rules, body)) else Err(ExceptionFactory(errs, describe))
  }

  /** Whitelisting is idempotent and keeps every declared property's value, so validity is unaffected. */
  lemma WhitelistKeepsValidity(checks: Checks, rules: seq<Rule>, body: Body)
    ensures Whitelist(rules, Whitelist(rules, body)) == Whitelist(rules, body)
    ensures Accepts(checks, rules, Whitelist(rules, body)) <==> Accepts(checks, rules, body)
  {
    var w := Whitelist(rules, body);
    forall i | 0 <= i < |rules| ensures Get(w, rules[i].property) == Get(body, rules[i].property) {
      assert rules[i].property in Declared(rules);
    }
    SameDeclaredValues(checks, rules, body, w);
  }

  /** Validation reads only the declared properties. */
  lemma {:induction false} SameDeclaredValues(checks: Checks, rules: seq<Rule>, a: Body, b: Body)
    requires forall i :: 0 <= i < |rules| ==> Get(a, rules[i].property) == Get(b, rules[i].property)
    ensures Validate(checks, rules, a) == Validate(checks, rules, b)
  {
    if |rules| > 0 {
      SameDeclaredValues(checks, rules[1..], a, b);
    }
  }

  /** A body passes three rules exactly when it passes each. */
  lemma AcceptsThree(checks: Checks, rules: seq<Rule>, body: Body)
    requires |rules| == 3
    ensures Accepts(checks, rules, body) <==>
              && Passes(checks, rules[0], Get(body, rules[0].property))
              && Passes(checks, rules[1], Get(body, rules[1].property))
              && Passes(checks, rules[2], Get(body, rules[2].property))
  {
  }

  /** A body passes four rules exactly when it passes each. */
  lemma AcceptsFour(checks: Checks, rules: seq<Rule>, body: Body)
    requires |rules| == 4
    ensures Accepts(checks, rules, body) <==>
              && Passes(checks, rules[0], Get(body, rules[0].property))
              && Passes(checks, rules[1], Get(body, rules[1].property))
              && Passes(checks, rules[2], Get(body, rules[2].property))
              && Passes(checks, rules[3], Get(body, rules[3].property))
  {
  }

  lemma PassesOne(checks: Checks, r: Rule, v: Value)
    requires |r.constraints| == 1
    ensures Passes(checks, r, v) <==> Skipped(r, v) || Holds(checks, r.constraints[0], v)
  {
  }

  lemma PassesTwo(checks: Checks, r: Rule, v: Value)
    requires |r.constraints| == 2
    ensures Passes(checks, r, v) <==>
              Skipped(r, v) || (Holds(checks, r.constraints[0], v) && Holds(checks, r.constraints[1], v))
  {
  }

  lemma PassesThree(checks: Checks, r: Rule, v: Value)
    requires |r.constraints| == 3
    ensures Passes(checks, r, v) <==>
              || Skipped(r, v)
              || (Holds(checks, r.constraints[0], v) && Holds(checks, r.constraints[1], v)
                  && Holds(checks, r.constraints[2], v))
  {
  }

  // ----- The request-body classes -----

  const EmailLength := IsLength(3, 255)
  const NameLength := IsLength(3, 255)
  const PasswordLength := IsLength(8, 255)

  const CreateUserDto: seq<Rule> := [
    Rule("name", false, [NameLength]),
    Rule("email", false, [EmailLength, IsEmail]),
    Rule("password", false, [PasswordLength])
  ]

  const UpdateUserDto: seq<Rule> := [
    Rule("name", true, [NameLength]),
    Rule("email", true, [EmailLength, IsEmail]),
    Rule("password", true, [PasswordLength])
  ]

  const UpdateUserRoleDto: seq<Rule> := [Rule("role", false, [IsIn(["ADMIN", "USER"])])]

  const LoginDto: seq<Rule> := [
    Rule("email", false, [EmailLength]),
    Rule("password", false, [PasswordLength]),
    Rule("keepLoggedIn", true, [IsBoolean])
  ]

  const CheckTokenDto: seq<Rule> := [Rule("token", false, [IsLength(1, 1000)])]

  const CreateRestaurantDto: seq<Rule> := [
    Rule("name", false, [IsLength(3, 255)]),
    Rule("address", false, [IsLength(3, 255)]),
    Rule("phone", false, [IsLength(8, 255)]),
    Rule("description", false, [IsLength(1, 500)])
  ]

  const UpdateRestaurantDto: seq<Rule> := [
    Rule("name", true, [IsLength(3, 255)]),
    Rule("address", true, [IsLength(3, 255)]),
    Rule("phone", true, [IsLength(8, 255)]),
    Rule("description", true, [IsLength(1, 500)])
  ]

  const RatingRange: seq<Constraint> := [AtMost(5), AtLeast(1), IsInt]

  const CreateReviewDto: seq<Rule> := [
    Rule("rating", false, RatingRange),
    Rule("dateOfVisit", false, [IsDate]),
    Rule("comment", false, [IsLength(1, 500)])
  ]

  const UpdateReviewDto: seq<Rule> := [
    Rule("rating", true, RatingRange),
    Rule("dateOfVisit", true, [IsDate]),
    Rule("comment", true, [IsLength(1, 500)])
  ]

  /** Absent or null: what an optional property may be. */
  predicate Omitted(v: Value) {
    v.Absent? || v.Null?
  }

  /** A star rating: an integer from 1 to 5. */
  predicate StarRating(v: Value) {
    Integral(v) && 1.0 <= v.n <= 5.0
  }

  /** The rating constraints together say: an integer from 1 to 5. */
  lemma RatingRangeMeaning(checks: Checks, v: Value)
    ensures (forall c :: c in RatingRange ==> Holds(checks, c, v)) <==> StarRating(v)
  {
    assert RatingRange[0] == AtMost(5) && RatingRange[1] == AtLeast(1) && RatingRange[2] == IsInt;
    assert AtMost(5) in RatingRange && AtLeast(1) in RatingRange && IsInt in RatingRange;
    if StarRating(v) {
      forall c | c in RatingRange ensures Holds(checks, c, v) {
        assert c == AtMost(5) || c == AtLeast(1) || c == IsInt;
      }
    }
  }

  lemma CreateUserDtoMeaning(checks: Checks, body: Body)
    ensures Accepts(checks, CreateUserDto, body) <==>
              && TextWithin(Get(body, "name"), 3, 255)
              && TextWithin(Get(body, "email"), 3, 255) && checks.isEmail(Get(body, "email").s)
              && TextWithin(Get(body, "password"), 8, 255)
  {
    AcceptsThree(checks, CreateUserDto, body);
    PassesOne(checks, CreateUserDto[0], Get(body, "name"));
    PassesTwo(checks, CreateUserDto[1], Get(body, "email"));
    PassesOne(checks, CreateUserDto[2], Get(body, "password"));
  }

  lemma UpdateUserDtoMeaning(checks: Checks, body: Body)
    ensures Accepts(checks, UpdateUserDto, body) <==>
              && (Omitted(Get(body, "name")) || TextWithin(Get(body, "name"), 3, 255))
              && (Omitted(Get(body, "email"))
                  || (TextWithin(Get(body, "email"), 3, 255) && checks.isEmail(Get(body, "email").s)))
              && (Omitted(Get(body, "password")) || TextWithin(Get(body, "password"), 8, 255))
  {
    AcceptsThree(checks, UpdateUserDto, body);
    PassesOne(checks, UpdateUserDto[0], Get(body, "name"));
    PassesTwo(checks, UpdateUserDto[1], Get(body, "email"));
    PassesOne(checks, UpdateUserDto[2], Get(body, "password"));
  }

  /** The role body accepts exactly the strings "ADMIN" and "USER". */
  lemma UpdateUserRoleDtoMeaning(checks: Checks, body: Body)
    ensures Accepts(checks, UpdateUserRoleDto, body) <==> Get(body, "role") in {Str("ADMIN"), Str("USER")}
  {
    assert UpdateUserRoleDto[1..] == [];
  }

  /** "RANDOM" is not a role: the pipe answers 400 VALIDATION_ERROR, naming `role`. */
  lemma UnknownRoleRejected(checks: Checks, describe: (string, Constraint) -> string)
    ensures var r := Pipe(checks, describe, UpdateUserRoleDto, map["role" := Str("RANDOM")]);
            r.Err? && r.error.status == 400 && r.error.errorCode == "VALIDATION_ERROR"
            && r.error.message == "role|" + describe("role", IsIn(["ADMIN", "USER"])) + "}"
  {
    UpdateUserRoleDtoMeaning(checks, map["role" := Str("RANDOM")]);
    var v := Str("RANDOM");
    assert !Holds(checks, IsIn(["ADMIN", "USER"]), v);
    assert Failures(checks, UpdateUserRoleDto[0], v) == [IsIn(["ADMIN", "USER"])];
  }

  /** The login body checks lengths only (no email format), and `keepLoggedIn` may be omitted. */
  lemma LoginDtoMeaning(checks: Checks, body: Body)
    ensures Accepts(checks, LoginDto, body) <==>
              && TextWithin(Get(body, "email"), 3, 255)
              && TextWithin(Get(body, "password"), 8, 255)
              && (Omitted(Get(body, "keepLoggedIn")) || Get(body, "keepLoggedIn").Bool?)
  {
    AcceptsThree(checks, LoginDto, body);
    PassesOne(checks, LoginDto[0], Get(body, "email"));
    PassesOne(checks, LoginDto[1], Get(body, "password"));
    PassesOne(checks, LoginDto[2], Get(body, "keepLoggedIn"));
  }

  /** A login body without an email is refused with 400 VALIDATION_ERROR naming `email`. */
  lemma LoginWithoutEmailRejected(checks: Checks, describe: (string, Constraint) -> string, body: Body)
    requires "email" !in body
    ensures var r := Pipe(checks, describe, LoginDto, body);
            r.Err? && r.error.status == 400 && !r.error.success && r.error.errorCode == "VALIDATION_ERROR"
            && r.error.message == "email|" + describe("email", EmailLength) + "}"
  {
    assert Failures(checks, LoginDto[0], Absent) == [EmailLength];
  }

  /** `token` is the one property the check-token body constrains, to a length of 1 to 1000. */
  lemma CheckTokenDtoMeaning(checks: Checks, body: Body)
    ensures Accepts(checks, CheckTokenDto, body) <==> TextWithin(Get(body, "token"), 1, 1000)
    ensures Declared(CheckTokenDto) == {"token"}
  {
    assert CheckTokenDto[1..] == [];
    assert CheckTokenDto[0].property == "token";
  }

  lemma CreateRestaurantDtoMeaning(checks: Checks, body: Body)
    ensures Accepts(checks, CreateRestaurantDto, body) <==>
              && TextWithin(Get(body, "name"), 3, 255)
              && TextWithin(Get(body, "address"), 3, 255)
              && TextWithin(Get(body, "phone"), 8, 255)
              && TextWithin(Get(body, "description"), 1, 500)
  {
    AcceptsFour(checks, CreateRestaurantDto, body);
    PassesOne(checks, CreateRestaurantDto[0], Get(body, "name"));
    PassesOne(checks, CreateRestaurantDto[1], Get(body, "address"));
    PassesOne(checks, CreateRestaurantDto[2], Get(body, "phone"));
    PassesOne(checks, CreateRestaurantDto[3], Get(body, "description"));
  }

  lemma UpdateRestaurantDtoMeaning(checks: Checks, body: Body)
    ensures Accepts(checks, UpdateRestaurantDto, body) <==>
              && (Omitted(Get(body, "name")) || TextWithin(Get(body, "name"), 3, 255))
              && (Omitted(Get(body, "address")) || TextWithin(Get(body, "address"), 3, 255))
              && (Omitted(Get(body, "phone")) || TextWithin(Get(body, "phone"), 8, 255))
              && (Omitted(Get(body, "description")) || TextWithin(Get(body, "description"), 1, 500))
  {
    AcceptsFour(checks, UpdateRestaurantDto, body);
    PassesOne(checks, UpdateRestaurantDto[0], Get(body, "name"));
    PassesOne(checks, UpdateRestaurantDto[1], Get(body, "address"));
    PassesOne(checks, UpdateRestaurantDto[2], Get(body, "phone"));
    PassesOne(checks, UpdateRestaurantDto[3], Get(body, "description"));
  }

  lemma CreateReviewDtoMeaning(checks: Checks, body: Body)
    ensures Accepts(checks, CreateReviewDto, body) <==>
              && StarRating(Get(body, "rating"))
              && checks.isDate(Get(body, "dateOfVisit"))
              && TextWithin(Get(body, "comment"), 1, 500)
  {
    AcceptsThree(checks, CreateReviewDto, body);
    RatingRangeMeaning(checks, Get(body, "rating"));
    PassesOne(checks, CreateReviewDto[1], Get(body, "dateOfVisit"));
    PassesOne(checks, CreateReviewDto[2], Get(body, "comment"));
  }

  lemma UpdateReviewDtoMeaning(checks: Checks, body: Body)
    ensures Accepts(checks, UpdateReviewDto, body) <==>
              && (Omitted(Get(body, "rating")) || StarRating(Get(body, "rating")))
              && (Omitted(Get(body, "dateOfVisit")) || checks.isDate(Get(body, "dateOfVisit")))
              && (Omitted(Get(body, "comment")) || TextWithin(Get(body, "comment"), 1, 500))
  {
    AcceptsThree(checks, UpdateReviewDto, body);
    RatingRangeMeaning(checks, Get(body, "rating"));
    PassesOne(checks, UpdateReviewDto[1], Get(body, "dateOfVisit"));
    PassesOne(checks, UpdateReviewDto[2], Get(body, "comment"));
  }

  /** Every update body accepts the empty body: each of their properties may be omitted. */
  lemma UpdatesAcceptEmptyBody(checks: Checks)
    ensures Accepts(checks, UpdateUserDto, map[])
    ensures Accepts(checks, UpdateRestaurantDto, map[])
    ensures Accepts(checks, UpdateReviewDto, map[])
  {
    UpdateUserDtoMeaning(checks, map[]);
    UpdateRestaurantDtoMeaning(checks, map[]);
    UpdateReviewDtoMeaning(checks, map[]);
  }
}
