/**
 * The decision chains of the auth controller: register, login,
 * changePassword and forgotPassword as functions from what the handler has
 * read to its answer, and the updateProfile SET-list builder as a method.
 * The users table is a sequence whose row i has id i + 1. bcrypt and JWT
 * are not looked into: a password check arrives as the boolean bcrypt
 * would answer, a new hash and a token as opaque strings, and the outcome
 * of the route validators as a boolean.
 */
module AuthRules {
  import opened Wrappers
  import opened Json
  import opened SqlUpdate
  import opened Text

  type Hash = string

  /** A users row, without the role and the timestamps. */
  datatype UserRow = UserRow(id: nat, username: string, email: string, passwordHash: Hash,
                             firstName: Option<string>, lastName: Option<string>, phone: Option<string>,
                             active: bool)

  /** The user object the handlers answer with. */
  datatype PublicUser = PublicUser(id: nat, username: string, email: string,
                                   firstName: Option<string>, lastName: Option<string>, phone: Option<string>)

  function Public(row: UserRow): PublicUser
  {
    PublicUser(row.id, row.username, row.email, row.firstName, row.lastName, row.phone)
  }

  datatype AuthError =
    | ValidationFailed      // 400 "Validation failed"
    | UserExists            // 409 "User with this email or username already exists"
    | InvalidCredentials    // 401 "Invalid credentials"
    | AccountDeactivated    // 401 "Account is deactivated"
    | NoFieldsToUpdate      // 400 "No fields to update"
    | WrongCurrentPassword  // 400 "Current password is incorrect"

  function Status(e: AuthError): (code: nat)
    ensures code == 401 <==> e.InvalidCredentials? || e.AccountDeactivated?
    ensures code == 409 <==> e.UserExists?
    ensures code in {400, 401, 409}
  {
    match e
    case UserExists => 409
    case InvalidCredentials => 401
    case AccountDeactivated => 401
    case _ => 400
  }

  function Message(e: AuthError): string
  {
    match e
    case ValidationFailed => "Validation failed"
    case UserExists => "User with this email or username already exists"
    case InvalidCredentials => "Invalid credentials"
    case AccountDeactivated => "Account is deactivated"
    case NoFieldsToUpdate => "No fields to update"
    case WrongCurrentPassword => "Current password is incorrect"
  }

  /** Row i holds the user with id i + 1. */
  predicate IdsInOrder(users: seq<UserRow>)
  {
    forall i :: 0 <= i < |users| ==> users[i].id == i + 1
  }

  /** No two users share an email or a username. */
  predicate Unique(users: seq<UserRow>)
  {
    forall i, j :: 0 <= i < j < |users| ==>
      users[i].email != users[j].email && users[i].username != users[j].username
  }

  // ---------------------------------------------------------------------------
  // register

  datatype Registration = Registration(username: string, email: string,
                                       firstName: Option<string>, lastName: Option<string>, phone: Option<string>)

  /** `SELECT id FROM users WHERE email = $1 OR username = $2` finds a row. */
  predicate Taken(users: seq<UserRow>, email: string, username: string)
  {
    exists i :: 0 <= i < |users| && (users[i].email == email || users[i].username == username)
  }

  /** The new row gets the next id and the hash of the password, and is active. */
  function Register(users: seq<UserRow>, valid: bool, req: Registration, hash: Hash): (r: Result<UserRow, AuthError>)
    ensures r == Err(ValidationFailed) <==> !valid
    ensures r == Err(UserExists) <==> valid && Taken(users, req.email, req.username)
    ensures r.Ok? <==> valid && !Taken(users, req.email, req.username)
    ensures r.Ok? ==>
              && r.value.id == |users| + 1 && r.value.active && r.value.passwordHash == hash
              && r.value.email == req.email && r.value.username == req.username
              && r.value.firstName == req.firstName && r.value.lastName == req.lastName
              && r.value.phone == req.phone
  {
    if !valid then Err(ValidationFailed)
    else if Taken(users, req.email, req.username) then Err(UserExists)
    else Ok(UserRow(|users| + 1, req.username, req.email, hash, req.firstName, req.lastName, req.phone, true))
  }

  /** The duplicate check keeps emails and usernames unique and ids in order. */
  lemma RegisterKeepsUnique(users: seq<UserRow>, valid: bool, req: Registration, hash: Hash)
    requires Unique(users) && IdsInOrder(users)
    requires Register(users, valid, req, hash).Ok?
    ensures var users' := users + [Register(users, valid, req, hash).value];
            Unique(users') && IdsInOrder(users')
  {
    var row := Register(users, valid, req, hash).value;
    var users' := users + [row];
    forall i, j | 0 <= i < j < |users'|
      ensures users'[i].email != users'[j].email && users'[i].username != users'[j].username
    {
      if j == |users| {
        assert users'[i] == users[i];
      }
    }
  }

  // ---------------------------------------------------------------------------
  // login

  /** `SELECT ... FROM users WHERE email = $1`, first row. */
  function FindByEmail(users: seq<UserRow>, email: string): (r: Option<UserRow>)
    ensures r.Some? <==> exists i :: 0 <= i < |users| && users[i].email == email
    ensures r.Some? ==> r.value in users && r.value.email == email
  {
    if users == [] then None
    else if users[0].email == email then Some(users[0])
    else
      var r := FindByEmail(users[1..], email);
      assert r.Some? ==> r.value in users;
      assert forall i :: 1 <= i < |users| ==> users[i] == users[1..][i - 1];
      r
  }

  /** The known emails. */
  predicate EmailKnown(users: seq<UserRow>, email: string)
  {
    exists i :: 0 <= i < |users| && users[i].email == email
  }

  /** `passwordMatches` is what bcrypt.compare answers for the password given and
      the hash of the row found. */
  function Login(users: seq<UserRow>, valid: bool, email: string, passwordMatches: bool): (r: Result<UserRow, AuthError>)
    ensures r == Err(ValidationFailed) <==> !valid
    ensures r == Err(AccountDeactivated) <==>
              valid && EmailKnown(users, email) && !FindByEmail(users, email).value.active
    ensures r == Err(InvalidCredentials) <==>
              valid && (!EmailKnown(users, email) || (FindByEmail(users, email).value.active && !passwordMatches))
    ensures r.Ok? <==> valid && EmailKnown(users, email) && FindByEmail(users, email).value.active && passwordMatches
    ensures r.Ok? ==> r.value in users && r.value.email == email && r.value.active
  {
    if !valid then Err(ValidationFailed)
    else match FindByEmail(users, email)
      case None => Err(InvalidCredentials)
      case Some(row) =>
        if !row.active then Err(AccountDeactivated)
        else if !passwordMatches then Err(InvalidCredentials)
        else Ok(row)
  }

  /** A deactivated account is refused before its password is looked at. */
  lemma DeactivatedBeforePassword(users: seq<UserRow>, email: string, passwordMatches: bool)
    requires EmailKnown(users, email) && !FindByEmail(users, email).value.active
    ensures Login(users, true, email, passwordMatches) == Err(AccountDeactivated)
    ensures Login(users, true, email, passwordMatches) == Login(users, true, email, !passwordMatches)
  {
  }

  /** A wrong password for an active account gets the very answer an unknown
      email gets, so the answer does not tell whether the account exists. */
  lemma WrongPasswordLooksUnknown(users: seq<UserRow>, email: string, others: seq<UserRow>,
                                  stranger: string, anyMatch: bool)
    requires EmailKnown(users, email) && FindByEmail(users, email).value.active
    requires !EmailKnown(others, stranger)
    ensures Login(users, true, email, false) == Login(others, true, stranger, anyMatch)
    ensures Status(Login(users, true, email, false).error) == 401
  {
  }

  /** With unique emails, a successful login is the account of that email. */
  lemma LoginFindsTheAccount(users: seq<UserRow>, email: string, i: nat)
    requires Unique(users)
    requires i < |users| && users[i].email == email && users[i].active
    ensures Login(users, true, email, true) == Ok(users[i])
  {
    var row := FindByEmail(users, email).value;
    var k :| 0 <= k < |users| && users[k] == row;
    assert k == i;
  }

  // ---------------------------------------------------------------------------
  // changePassword and forgotPassword

  /** `currentMatches` is what bcrypt.compare answers for the current password. */
  function ChangePassword(row: UserRow, valid: bool, currentMatches: bool, newHash: Hash): (r: Result<UserRow, AuthError>)
    ensures r == Err(ValidationFailed) <==> !valid
    ensures r == Err(WrongCurrentPassword) <==> valid && !currentMatches
    ensures r.Ok? <==> valid && currentMatches
    ensures r.Ok? ==> r.value.passwordHash == newHash && Public(r.value) == Public(row) && r.value.active == row.active
  {
    if !valid then Err(ValidationFailed)
    else if !currentMatches then Err(WrongCurrentPassword)
    else Ok(row.(passwordHash := newHash))
  }

  const ResetNotice := "If an account with that email exists, a password reset email has been sent"

  /** The same notice whoever asks: the handler does not look the email up. */
  function ForgotPassword(users: seq<UserRow>, valid: bool, email: string): (r: Result<string, AuthError>)
    ensures r == Err(ValidationFailed) <==> !valid
    ensures valid ==> r == Ok(ResetNotice)
  {
    if !valid then Err(ValidationFailed) else Ok(ResetNotice)
  }

  /** So its answer cannot tell a registered email from an unknown one. */
  lemma ForgotPasswordRevealsNothing(users: seq<UserRow>, email: string, others: seq<UserRow>, stranger: string)
    requires EmailKnown(users, email) && !EmailKnown(others, stranger)
    ensures ForgotPassword(users, true, email) == ForgotPassword(others, true, stranger)
  {
  }

  // ---------------------------------------------------------------------------
  // updateProfile

  /** The columns updateProfile may set, in the order it tests them. */
  datatype ProfileColumn = FirstName | LastName | Phone

  function ColumnName(c: ProfileColumn): string
  {
    match c
    case FirstName => "first_name"
    case LastName => "last_name"
    case Phone => "phone"
  }

  function Rank(c: ProfileColumn): nat
  {
    match c
    case FirstName => 0
    case LastName => 1
    case Phone => 2
  }

  /** The value the body gives column `c`; None is undefined. */
  function ValueFor(c: ProfileColumn, firstName: Option<JsonValue>, lastName: Option<JsonValue>,
                    phone: Option<JsonValue>): Option<JsonValue>
  {
    match c
    case FirstName => firstName
    case LastName => lastName
    case Phone => phone
  }

  function Entry(c: ProfileColumn, v: Option<JsonValue>): seq<(ProfileColumn, JsonValue)>
  {
    if v.Some? then [(c, v.value)] else []
  }

  /** The columns whose value is not undefined, each with its value, in the fixed order. */
  function Provided(firstName: Option<JsonValue>, lastName: Option<JsonValue>, phone: Option<JsonValue>)
    : seq<(ProfileColumn, JsonValue)>
  {
    Entry(FirstName, firstName) + Entry(LastName, lastName) + Entry(Phone, phone)
  }

  /** Every column given a value is set, to that value, once, and in the fixed order. */
  lemma ProvidedInOrder(firstName: Option<JsonValue>, lastName: Option<JsonValue>, phone: Option<JsonValue>)
    ensures var r := Provided(firstName, lastName, phone);
            && (forall i :: 0 <= i < |r| ==> ValueFor(r[i].0, firstName, lastName, phone) == Some(r[i].1))
            && (forall c :: ValueFor(c, firstName, lastName, phone).Some? ==> exists i :: 0 <= i < |r| && r[i].0 == c)
            && (forall i, j :: 0 <= i < j < |r| ==> Rank(r[i].0) < Rank(r[j].0))
  {
    var first, last, ph := Entry(FirstName, firstName), Entry(LastName, lastName), Entry(Phone, phone);
    var r := Provided(firstName, lastName, phone);
    assert forall i :: 0 <= i < |r| ==> r[i] in first || r[i] in last || r[i] in ph;
    assert firstName.Some? ==> r[0].0 == FirstName;
    assert lastName.Some? ==> r[|first|].0 == LastName;
    assert phone.Some? ==> r[|first| + |last|].0 == Phone;
  }

  /** The statement sets column i of `provided` from $(i+1) and finds the user at $(k+1). */
  predicate SetsProfile(stmt: UpdateStatement, provided: seq<(ProfileColumn, JsonValue)>, userId: nat)
  {
    && |stmt.assignments| == |provided|
    && |stmt.params| == |provided| + 1
    && stmt.idPlaceholder == |provided| + 1
    && stmt.params[|provided|] == IdParam(userId)
    && (forall i :: 0 <= i < |provided| ==>
          && stmt.assignments[i] == Assignment(ColumnName(provided[i].0), i + 1)
          && stmt.params[i] == FieldParam(provided[i].1))
  }

  /** The SET list and the values pushed so far bind `set_` from $1, and `paramCount` is next. */
  ghost predicate Building(updateFields: seq<Assignment>, values: seq<Param>, paramCount: nat,
                           set_: seq<(ProfileColumn, JsonValue)>)
  {
    && |updateFields| == |set_| && |values| == |set_| && paramCount == |set_| + 1
    && (forall i :: 0 <= i < |set_| ==>
          updateFields[i] == Assignment(ColumnName(set_[i].0), i + 1) && values[i] == FieldParam(set_[i].1))
  }

  /** One "<column> = $k" per field that is not undefined, in the order first_name,
      last_name, phone, numbered from $1, and the user id after them. */
  method UpdateProfile(userId: nat, valid: bool, firstName: Option<JsonValue>, lastName: Option<JsonValue>,
                       phone: Option<JsonValue>) returns (r: Result<UpdateStatement, AuthError>)
    ensures r == Err(ValidationFailed) <==> !valid
    ensures r == Err(NoFieldsToUpdate) <==> valid && firstName.None? && lastName.None? && phone.None?
    ensures r.Ok? <==> valid && (firstName.Some? || lastName.Some? || phone.Some?)
    ensures r.Ok? ==> SetsProfile(r.value, Provided(firstName, lastName, phone), userId)
  {
    if !valid {
      return Err(ValidationFailed);
    }
    var updateFields: seq<Assignment> := [];
    var values: seq<Param> := [];
    var paramCount := 1;
    ghost var set_: seq<(ProfileColumn, JsonValue)> := [];
    assert Building(updateFields, values, paramCount, set_);
    if firstName.Some? {
      updateFields := updateFields + [Assignment(ColumnName(FirstName), paramCount)];
      values := values + [FieldParam(firstName.value)];
      paramCount := paramCount + 1;
    }
    set_ := set_ + Entry(FirstName, firstName);
    assert Building(updateFields, values, paramCount, set_);
    if lastName.Some? {
      updateFields := updateFields + [Assignment(ColumnName(LastName), paramCount)];
      values := values + [FieldParam(lastName.value)];
      paramCount := paramCount + 1;
    }
    set_ := set_ + Entry(LastName, lastName);
    assert Building(updateFields, values, paramCount, set_);
    if phone.Some? {
      updateFields := updateFields + [Assignment(ColumnName(Phone), paramCount)];
      values := values + [FieldParam(phone.value)];
      paramCount := paramCount + 1;
    }
    set_ := set_ + Entry(Phone, phone);
    assert Building(updateFields, values, paramCount, set_);
    if |updateFields| == 0 {
      return Err(NoFieldsToUpdate);
    }
    values := values + [IdParam(userId)];
    r := Ok(UpdateStatement(updateFields, values, paramCount));
    assert set_ == Provided(firstName, lastName, phone) by {
      assert [] + Entry(FirstName, firstName) == Entry(FirstName, firstName);
    }
  }
}
