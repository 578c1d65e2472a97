/**
 * The user entity and the user service over a user table kept in storage
 * order. Deleting is a soft transition to INACTIVE; lookups see only ACTIVE
 * users unless asked otherwise.
 */
module Users {
  import opened Wrappers
  import opened Tables
  import opened Errors
  import Encryption

  datatype Role = ADMIN | USER
  datatype UserStatus = ACTIVE | INACTIVE

  datatype User = User(
    id: string,
    name: string,
    email: string,
    password: string,
    status: UserStatus,
    role: Role,
    createdAt: int)

  /** The user rows, in the order the database returns them. */
  type UserTable = seq<User>

  /** Ids are the primary key. */
  predicate IdsUnique(t: UserTable) {
    forall i, j :: 0 <= i < j < |t| ==> t[i].id != t[j].id
  }

  /** Emails carry a unique constraint, whatever the status. */
  predicate EmailsUnique(t: UserTable) {
    forall i, j :: 0 <= i < j < |t| ==> t[i].email != t[j].email
  }

  /** The constraints the database enforces on the table. */
  predicate Valid(t: UserTable) {
    IdsUnique(t) && EmailsUnique(t)
  }

  /** A row a lookup returns: any row when `evenIfDeleted`, otherwise ACTIVE rows only. */
  predicate Visible(u: User, evenIfDeleted: bool) {
    evenIfDeleted || u.status == ACTIVE
  }

  function FindOneByID(t: UserTable, id: string, evenIfDeleted: bool): (r: Option<User>)
    ensures r.Some? ==> r.value in t && r.value.id == id && Visible(r.value, evenIfDeleted)
    ensures r.None? <==> forall u :: u in t && u.id == id ==> !Visible(u, evenIfDeleted)
  {
    First(t, (u: User) => u.id == id && Visible(u, evenIfDeleted))
  }

  function FindOneByEmail(t: UserTable, email: string, evenIfDeleted: bool): (r: Option<User>)
    ensures r.Some? ==> r.value in t && r.value.email == email && Visible(r.value, evenIfDeleted)
    ensures r.None? <==> forall u :: u in t && u.email == email ==> !Visible(u, evenIfDeleted)
  {
    First(t, (u: User) => u.email == email && Visible(u, evenIfDeleted))
  }

  /** In a table with unique ids, the row with a given id is the one a lookup returns. */
  lemma FindOneByIDUnique(t: UserTable, u: User, evenIfDeleted: bool)
    requires IdsUnique(t) && u in t && Visible(u, evenIfDeleted)
    ensures FindOneByID(t, u.id, evenIfDeleted) == Some(u)
  {
    var r := FindOneByID(t, u.id, evenIfDeleted);
    var i :| 0 <= i < |t| && t[i] == r.value;
    var j :| 0 <= j < |t| && t[j] == u;
    assert i == j;
  }

  /** In a table with unique emails, the row with a given email is the one a lookup returns. */
  lemma FindOneByEmailUnique(t: UserTable, u: User, evenIfDeleted: bool)
    requires EmailsUnique(t) && u in t && Visible(u, evenIfDeleted)
    ensures FindOneByEmail(t, u.email, evenIfDeleted) == Some(u)
  {
    var r := FindOneByEmail(t, u.email, evenIfDeleted);
    var i :| 0 <= i < |t| && t[i] == r.value;
    var j :| 0 <= j < |t| && t[j] == u;
    assert i == j;
  }

  /** Some row other than row `except` already has `email`. */
  predicate EmailTakenExcept(t: UserTable, email: string, except: int) {
    exists j :: 0 <= j < |t| && j != except && t[j].email == email
  }

  /** The fields `create` copies from its input; everything else is a store default. */
  datatype NewUser = NewUser(name: string, email: string, password: string)

  /** The schema defaults the database fills in on insert (the id is one not yet used). */
  datatype UserDefaults = UserDefaults(id: string, status: UserStatus, role: Role, createdAt: int)

  /** `create`: insert a user whose password is the hash of the given one. */
  function Create(t: UserTable, enc: Encryption.Service, input: NewUser, defaults: UserDefaults)
    : (r: Result<(User, UserTable), ServiceError>)
    requires forall u :: u in t ==> u.id != defaults.id
    ensures r.Err? <==> exists u :: u in t && u.email == input.email
    ensures r.Err? ==> r.error == UserAlreadyExists
    ensures r.Ok? ==> r.value.1 == t + [r.value.0]
    ensures r.Ok? ==> r.value.0 == User(defaults.id, input.name, input.email,
                                        Encryption.Hash(enc, input.password),
                                        defaults.status, defaults.role, defaults.createdAt)
  {
    if EmailTakenExcept(t, input.email, -1) then Err(UserAlreadyExists)
    else
      var u := User(defaults.id, input.name, input.email, Encryption.Hash(enc, input.password),
                    defaults.status, defaults.role, defaults.createdAt);
      Ok((u, t + [u]))
  }

  /** A partial user body: an absent field leaves the column unchanged. */
  datatype UserPatch = UserPatch(name: Option<string>, email: Option<string>, password: Option<string>)

  /**
   * The password `update` writes: a non-empty password that differs from the
   * stored digest is hashed; any other given value is written as it is.
   */
  function PatchedPassword(enc: Encryption.Service, stored: string, given: Option<string>): Option<string> {
    match given
    case Some(p) => if p != "" && p != stored then Some(Encryption.Hash(enc, p)) else Some(p)
    case None => None
  }

  /** The record `update` writes: the stored one with the given name, email and password. */
  function Patched(enc: Encryption.Service, u: User, patch: UserPatch): User {
    u.(name := patch.name.GetOr(u.name),
       email := patch.email.GetOr(u.email),
       password := PatchedPassword(enc, u.password, patch.password).GetOr(u.password))
  }

  /** The row `update` works on: the first ACTIVE row with the id. */
  function ActiveIndex(t: UserTable, id: string): Option<nat> {
    FirstIndex(t, (u: User) => u.id == id && u.status == ACTIVE)
  }

  /** `update`: change email, name and password of an ACTIVE user, keeping every other field. */
  function Update(t: UserTable, enc: Encryption.Service, id: string, patch: UserPatch)
    : (r: Result<(User, UserTable), ServiceError>)
    ensures FindOneByID(t, id, false).None? <==> r == Err(UserNotFound)
    ensures r.Err? ==> r.error in {UserNotFound, UserAlreadyExists}
    ensures r.Ok? ==>
              exists i :: 0 <= i < |t| && t[i].id == id && t[i].status == ACTIVE
                && r.value.1 == t[i := r.value.0]
                && r.value.0 == Patched(enc, t[i], patch)
                && !EmailTakenExcept(t, r.value.0.email, i)
    ensures r == Err(UserAlreadyExists) ==>
              exists i :: 0 <= i < |t| && t[i].id == id && t[i].status == ACTIVE
                && EmailTakenExcept(t, Patched(enc, t[i], patch).email, i)
  {
    match ActiveIndex(t, id)
    case None => Err(UserNotFound)
    case Some(i) =>
      var u := t[i];
      var updated := Patched(enc, u, patch);
      if EmailTakenExcept(t, updated.email, i) then Err(UserAlreadyExists)
      else Ok((updated, t[i := updated]))
  }

  /** `delete`: soft-delete the user with the id, whatever its status. */
  function Delete(t: UserTable, id: string): (r: Result<(User, UserTable), ServiceError>)
    ensures r.Err? <==> forall u :: u in t ==> u.id != id
    ensures r.Err? ==> r.error == UserNotFound
    ensures r.Ok? ==>
              exists i :: 0 <= i < |t| && t[i].id == id
                && r.value.0 == t[i].(status := INACTIVE) && r.value.1 == t[i := r.value.0]
  {
    match FirstIndex(t, (u: User) => u.id == id)
    case None => Err(UserNotFound)
    case Some(i) =>
      var u := t[i].(status := INACTIVE);
      Ok((u, t[i := u]))
  }

  /**
   * `changePassword` with a resolved user (absent when the lookup found
   * none): the user record, with the new password hashed, is written back.
   */
  function ChangePasswordOf(t: UserTable, enc: Encryption.Service, user: Option<User>, newPassword: string)
    : (r: Result<(User, UserTable), ServiceError>)
    requires user.Some? ==> user.value in t
    ensures r.Err? <==> user.None?
    ensures r.Err? ==> r.error == UserNotFound
    ensures r.Ok? ==> r.value.0 == user.value.(password := Encryption.Hash(enc, newPassword))
    ensures r.Ok? ==> exists i :: 0 <= i < |t| && t[i].id == user.value.id && r.value.1 == t[i := r.value.0]
  {
    match user
    case None => Err(UserNotFound)
    case Some(u) =>
      var changed := u.(password := Encryption.Hash(enc, newPassword));
      match FirstIndex(t, (v: User) => v.id == u.id)
      case Some(i) => Ok((changed, t[i := changed]))
      case None => assert false; Err(UserNotFound)
  }

  /** `changePassword` by id: only an ACTIVE user's password can be changed. */
  function ChangePassword(t: UserTable, enc: Encryption.Service, id: string, newPassword: string)
    : (r: Result<(User, UserTable), ServiceError>)
    ensures r.Err? <==> FindOneByID(t, id, false).None?
    ensures r.Err? ==> r.error == UserNotFound
    ensures r.Ok? ==> r.value.0.id == id && r.value.0.status == ACTIVE
    ensures r.Ok? ==> r.value.0.password == Encryption.Hash(enc, newPassword)
    ensures r.Ok? ==> r.value.0 == FindOneByID(t, id, false).value.(password := Encryption.Hash(enc, newPassword))
    ensures r.Ok? ==> exists i :: 0 <= i < |t| && t[i].id == id && r.value.1 == t[i := r.value.0]
  {
    ChangePasswordOf(t, enc, FindOneByID(t, id, false), newPassword)
  }

  /** Changing a password touches neither ids nor emails, so the table stays valid. */
  lemma ChangePasswordPreservesValid(t: UserTable, enc: Encryption.Service, id: string, newPassword: string)
    requires Valid(t)
    ensures ChangePassword(t, enc, id, newPassword).Ok? ==> Valid(ChangePassword(t, enc, id, newPassword).value.1)
  {
    var r := ChangePassword(t, enc, id, newPassword);
    if r.Ok? {
      var i :| 0 <= i < |t| && t[i].id == id && r.value.1 == t[i := r.value.0];
      var t' := r.value.1;
      assert r.value.0.id == id && r.value.0.email == t[i].email by {
        var u := FindOneByID(t, id, false).value;
        var j :| 0 <= j < |t| && t[j] == u;
        assert j == i;
      }
      assert forall k :: 0 <= k < |t'| ==> t'[k].id == t[k].id && t'[k].email == t[k].email;
    }
  }

  /** Creating a user keeps ids and emails unique. */
  lemma CreatePreservesValid(t: UserTable, enc: Encryption.Service, input: NewUser, defaults: UserDefaults)
    requires Valid(t)
    requires forall u :: u in t ==> u.id != defaults.id
    ensures Create(t, enc, input, defaults).Ok? ==> Valid(Create(t, enc, input, defaults).value.1)
  {
    var r := Create(t, enc, input, defaults);
    if r.Ok? {
      var t' := r.value.1;
      forall i, j | 0 <= i < j < |t'| ensures t'[i].id != t'[j].id && t'[i].email != t'[j].email {
        if j == |t| {
          assert t'[i] == t[i] && t[i] in t;
        }
      }
    }
  }

  /** Updating a user keeps ids and emails unique. */
  lemma UpdatePreservesValid(t: UserTable, enc: Encryption.Service, id: string, patch: UserPatch)
    requires Valid(t)
    ensures Update(t, enc, id, patch).Ok? ==> Valid(Update(t, enc, id, patch).value.1)
  {
    var r := Update(t, enc, id, patch);
    if r.Ok? {
      var i :| 0 <= i < |t| && t[i].id == id && r.value.1 == t[i := r.value.0]
        && r.value.0.id == t[i].id && !EmailTakenExcept(t, r.value.0.email, i);
      var t' := r.value.1;
      forall a, b | 0 <= a < b < |t'| ensures t'[a].id != t'[b].id && t'[a].email != t'[b].email {
        if a == i {
          assert t'[b] == t[b];
        } else if b == i {
          assert t'[a] == t[a];
        } else {
          assert t'[a] == t[a] && t'[b] == t[b];
        }
      }
    }
  }

  /** Deleting changes no id or email, so the table stays valid. */
  lemma DeletePreservesValid(t: UserTable, id: string)
    requires Valid(t)
    ensures Delete(t, id).Ok? ==> Valid(Delete(t, id).value.1)
  {
    var r := Delete(t, id);
    if r.Ok? {
      var i :| 0 <= i < |t| && t[i].id == id
        && r.value.0 == t[i].(status := INACTIVE) && r.value.1 == t[i := r.value.0];
      var t' := r.value.1;
      assert forall k :: 0 <= k < |t'| ==> t'[k].id == t[k].id && t'[k].email == t[k].email;
    }
  }

  /**
   * After a delete the user is hidden from default lookups but still found
   * with `evenIfDeleted`, and deleting again changes nothing further.
   */
  lemma DeleteHidesUser(t: UserTable, id: string)
    requires IdsUnique(t)
    requires Delete(t, id).Ok?
    ensures FindOneByID(Delete(t, id).value.1, id, false).None?
    ensures FindOneByID(Delete(t, id).value.1, id, true) == Some(Delete(t, id).value.0)
    ensures Delete(Delete(t, id).value.1, id).Ok?
    ensures Delete(Delete(t, id).value.1, id).value.1 == Delete(t, id).value.1
  {
    var r := Delete(t, id);
    var i :| 0 <= i < |t| && t[i].id == id
      && r.value.0 == t[i].(status := INACTIVE) && r.value.1 == t[i := r.value.0];
    var t' := r.value.1;
    assert forall k :: 0 <= k < |t'| ==> t'[k].id == t[k].id;
    assert IdsUnique(t');
    forall u | u in t' && u.id == id ensures u.status != ACTIVE {
      var k :| 0 <= k < |t'| && t'[k] == u;
      assert k == i;
    }
    assert t'[i] in t';
    FindOneByIDUnique(t', t'[i], true);
    var r2 := Delete(t', id);
    var i2 :| 0 <= i2 < |t'| && t'[i2].id == id
      && r2.value.0 == t'[i2].(status := INACTIVE) && r2.value.1 == t'[i2 := r2.value.0];
    assert i2 == i;
  }
}
