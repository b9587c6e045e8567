/**
 * The user request handlers: sign-up, profile update, and password recovery
 * by token. Hashing and token generation are not modelled: `hash` is a
 * parameter and the fresh token is an argument.
 */
module UserService {
  import opened Common
  import opened CreateUserDto
  import opened UpdateUserDto
  import opened UserStore
  import opened UserUtils

  const UserNotFound := "User not found"
  const EmailInUse := "The email is already taken"
  const UsernameInUse := "The username is already taken"
  const InvalidToken := "Invalid or expired recovery token"
  const ExpiredToken := "Recovery token has expired"

  /** A recovery token lives for 24 hours. */
  const TokenLifetime: int := 24 * MsPerHour

  /** What reading `validation.isValid` of the undefined result of `validateUniqueFields` throws. */
  const UndefinedValidation := "TypeError: Cannot read properties of undefined (reading 'isValid')"

  // ----- create -----

  /**
   * `create` as written: `validateUniqueFields` either throws or resolves with
   * no value, and the handler then reads `isValid` of that undefined value.
   */
  function CreateAsWritten(rows: seq<User>, data: CreateUserInput): (r: Reply<User>)
    ensures ValidateUniqueFields(rows, data.email, data.username).Err? ==>
              r == Thrown(ValidateUniqueFields(rows, data.email, data.username).error)
    ensures ValidateUniqueFields(rows, data.email, data.username).Ok? ==> r == Thrown(UndefinedValidation)
  {
    match ValidateUniqueFields(rows, data.email, data.username)
    case Err(message) => Thrown(message)
    case Ok(_) => Thrown(UndefinedValidation)
  }

  /** As written, no sign-up ever creates a user: even the first one, into an empty table, throws. */
  lemma CreateAsWrittenNeverCreates(rows: seq<User>, data: CreateUserInput)
    ensures CreateAsWritten(rows, data).Thrown?
    ensures CreateAsWritten([], data) == Thrown(UndefinedValidation)
  {
  }

  /**
   * The refusal `create` evidently intends: "The <field> is already taken",
   * naming the email before the username.
   */
  function CreateRejection(rows: seq<User>, data: CreateUserInput): (r: Option<string>)
    ensures r.None? <==> ValidateUniqueFields(rows, data.email, data.username).Ok?
    ensures IsEmailTaken(rows, data.email) ==> r == Some(EmailInUse)
    ensures !IsEmailTaken(rows, data.email) && IsUsernameTaken(rows, data.username) ==> r == Some(UsernameInUse)
  {
    if IsEmailTaken(rows, data.email) then Some(EmailInUse)
    else if IsUsernameTaken(rows, data.username) then Some(UsernameInUse)
    else None
  }

  /** `create` as intended: a refused sign-up writes nothing; an accepted one stores an active user with the password's hash. */
  method Create(users: UserTable, data: CreateUserInput, hash: string -> string, now: Instant) returns (reply: Reply<User>)
    requires users.Valid()
    modifies users
    ensures users.Valid()
    ensures CreateRejection(old(users.rows), data).Some? ==>
              reply == Respond(BadRequest, CreateRejection(old(users.rows), data).value, None)
              && users.rows == old(users.rows) && users.nextId == old(users.nextId)
    ensures CreateRejection(old(users.rows), data).None? ==>
              var u := User(old(users.nextId), data.name, data.username, data.email, hash(data.password), now, true, None, None);
              reply == Respond(Created, "", Some(u)) && users.rows == old(users.rows) + [u]
  {
    var rejection := CreateRejection(users.rows, data);
    if rejection.Some? {
      return Respond(BadRequest, rejection.value, None);
    }
    var u := users.Create(NewUser(data.name, data.username, data.email, hash(data.password), true), now);
    reply := Respond(Created, "", Some(u));
  }

  /** After an accepted sign-up the same email and username are refused, the email first. */
  lemma SignUpTakesItsFields(rows: seq<User>, data: CreateUserInput, hash: string -> string, id: int, now: Instant)
    ensures var u := User(id, data.name, data.username, data.email, hash(data.password), now, true, None, None);
            CreateRejection(rows + [u], data) == Some(EmailInUse)
  {
    var u := User(id, data.name, data.username, data.email, hash(data.password), now, true, None, None);
    CreatedUserTakesEmail(rows, u);
  }

  // ----- update -----

  /** The body names an email (a truthy one) that differs from the stored one. */
  predicate ChangesEmail(user: User, data: UpdateUserInput) {
    TruthyText(data.email) && data.email.value != user.email
  }

  predicate ChangesUsername(user: User, data: UpdateUserInput) {
    TruthyText(data.username) && data.username.value != user.username
  }

  /**
   * The uniqueness gate of `update` as written: `validateEmailUnique` throws
   * when the email is taken and otherwise resolves with no value, which
   * `!isValid` reads as a refusal. `None` means the write goes ahead.
   */
  function UpdateGateAsWritten(rows: seq<User>, user: User, data: UpdateUserInput): (r: Option<Reply<User>>)
    ensures r.None? <==> !ChangesEmail(user, data) && !ChangesUsername(user, data)
  {
    if ChangesEmail(user, data) then
      match ValidateEmailUnique(rows, data.email.value)
      case Err(message) => Some(Thrown(message))
      case Ok(_) => Some(Respond(BadRequest, EmailInUse, None))
    else if ChangesUsername(user, data) then
      match ValidateUsernameUnique(rows, data.username.value)
      case Err(message) => Some(Thrown(message))
      case Ok(_) => Some(Respond(BadRequest, UsernameInUse, None))
    else None
  }

  /** As written, a new email that nobody uses is still refused as taken. */
  lemma FreeEmailRefusedAsWritten(rows: seq<User>, user: User, data: UpdateUserInput)
    requires ChangesEmail(user, data) && !IsEmailTaken(rows, data.email.value)
    ensures UpdateGateAsWritten(rows, user, data) == Some(Respond(BadRequest, EmailInUse, None))
  {
  }

  /** The gate as intended: a changed email or username is refused exactly when another user already has it. */
  function UpdateGate(rows: seq<User>, user: User, data: UpdateUserInput): (r: Option<string>)
    ensures r.None? <==>
              (ChangesEmail(user, data) ==> !IsEmailTaken(rows, data.email.value))
              && (ChangesUsername(user, data) ==> !IsUsernameTaken(rows, data.username.value))
    ensures ChangesEmail(user, data) && IsEmailTaken(rows, data.email.value) ==> r == Some(EmailInUse)
    ensures r == Some(UsernameInUse) ==> ChangesUsername(user, data) && IsUsernameTaken(rows, data.username.value)
    ensures (!(ChangesEmail(user, data) && IsEmailTaken(rows, data.email.value))
             && ChangesUsername(user, data) && IsUsernameTaken(rows, data.username.value))
            ==> r == Some(UsernameInUse)
  {
    if ChangesEmail(user, data) && IsEmailTaken(rows, data.email.value) then Some(EmailInUse)
    else if ChangesUsername(user, data) && IsUsernameTaken(rows, data.username.value) then Some(UsernameInUse)
    else None
  }

  /** Both gates let an update that changes neither field through. */
  lemma GatesAgreeWithoutChanges(rows: seq<User>, user: User, data: UpdateUserInput)
    requires !ChangesEmail(user, data) && !ChangesUsername(user, data)
    ensures UpdateGateAsWritten(rows, user, data).None? && UpdateGate(rows, user, data).None?
  {
  }

  /** `updateData`: the body's fields, and the hash of a (truthy) new password. */
  function UpdatePatch(data: UpdateUserInput, hash: string -> string): (r: UserPatch)
    ensures r.name == data.name && r.username == data.username && r.email == data.email
    ensures r.passwordHash.Some? <==> TruthyText(data.password)
    ensures r.passwordHash.Some? ==> r.passwordHash.value == hash(data.password.value)
    ensures r.recoveryToken.None? && r.recoveryTokenExpires.None?
  {
    UserPatch(data.name, data.username, data.email,
      if TruthyText(data.password) then Some(hash(data.password.value)) else None, None, None)
  }

  method Update(users: UserTable, id: int, data: UpdateUserInput, hash: string -> string) returns (reply: Reply<User>)
    requires users.Valid()
    modifies users
    ensures users.Valid() && users.nextId == old(users.nextId)
    ensures !Exists(old(users.rows), ById(id)) ==> reply == Respond(NotFound, UserNotFound, None) && users.rows == old(users.rows)
    ensures Exists(old(users.rows), ById(id)) ==>
              var user := FindFirst(old(users.rows), ById(id)).value;
              var gate := UpdateGate(old(users.rows), user, data);
              && (gate.Some? ==> reply == Respond(BadRequest, gate.value, None) && users.rows == old(users.rows))
              && (gate.None? ==>
                    reply == Respond(OK, "", Some(Patched(user, UpdatePatch(data, hash))))
                    && users.rows == PatchWhere(old(users.rows), id, UpdatePatch(data, hash)))
  {
    var found := users.Find(ById(id));
    if found.None? {
      return Respond(NotFound, UserNotFound, None);
    }
    var gate := UpdateGate(users.rows, found.value, data);
    if gate.Some? {
      return Respond(BadRequest, gate.value, None);
    }
    var updated := users.Update(id, UpdatePatch(data, hash));
    reply := Respond(OK, "", Some(updated.value));
  }

  // ----- password recovery -----

  /** The columns `setRecoveryToken` writes. */
  function TokenPatch(token: string, expires: Instant): (r: UserPatch)
    ensures r.recoveryToken == Some(Some(token)) && r.recoveryTokenExpires == Some(Some(expires))
    ensures r.name.None? && r.username.None? && r.email.None? && r.passwordHash.None?
  {
    UserPatch(None, None, None, None, Some(Some(token)), Some(Some(expires)))
  }

  /** The columns a successful reset writes: the new hash, and both recovery columns cleared. */
  function ResetPatch(passwordHash: string): (r: UserPatch)
    ensures r.recoveryToken == Some(None) && r.recoveryTokenExpires == Some(None)
    ensures r.passwordHash == Some(passwordHash)
    ensures r.name.None? && r.username.None? && r.email.None?
  {
    UserPatch(None, None, None, Some(passwordHash), Some(None), Some(None))
  }

  /** `setRecoveryToken`: an unknown id stores nothing; a known one gets the token, valid for 24 hours from now. */
  method SetRecoveryToken(users: UserTable, id: int, token: string, now: Instant) returns (reply: Reply<string>)
    requires users.Valid()
    modifies users
    ensures users.Valid() && users.nextId == old(users.nextId)
    ensures !Exists(old(users.rows), ById(id)) ==> reply == Respond(NotFound, UserNotFound, None) && users.rows == old(users.rows)
    ensures Exists(old(users.rows), ById(id)) ==>
              reply == Respond(OK, "", Some(token))
              && users.rows == PatchWhere(old(users.rows), id, TokenPatch(token, now + TokenLifetime))
  {
    if users.Find(ById(id)).None? {
      return Respond(NotFound, UserNotFound, None);
    }
    users.SetRecoveryToken(id, token, now + TokenLifetime);
    reply := Respond(OK, "", Some(token));
  }

  /**
   * Why `resetPassword` refuses a token, if it does: no user holds it or no
   * expiry is stored, or the expiry is strictly before now.
   */
  function ResetRefusal(rows: seq<User>, token: string, now: Instant): (r: Option<string>)
    ensures r.None? <==>
              && Exists(rows, ByRecoveryToken(token))
              && FindFirst(rows, ByRecoveryToken(token)).value.recoveryTokenExpires.Some?
              && !(FindFirst(rows, ByRecoveryToken(token)).value.recoveryTokenExpires.value < now)
    ensures r.Some? ==> r.value == InvalidToken || r.value == ExpiredToken
    ensures r == Some(ExpiredToken) ==>
              var holder := FindFirst(rows, ByRecoveryToken(token));
              holder.Some? && holder.value.recoveryTokenExpires.Some? && holder.value.recoveryTokenExpires.value < now
    ensures var holder := FindFirst(rows, ByRecoveryToken(token));
            holder.Some? && holder.value.recoveryTokenExpires.Some? && holder.value.recoveryTokenExpires.value < now
            ==> r == Some(ExpiredToken)
  {
    match FindFirst(rows, ByRecoveryToken(token))
    case None => Some(InvalidToken)
    case Some(user) =>
      if user.recoveryTokenExpires.None? then Some(InvalidToken)
      else if user.recoveryTokenExpires.value < now then Some(ExpiredToken)
      else None
  }

  /** `resetPassword`: a refused token writes nothing; an accepted one sets the hash and clears the recovery columns of its holder. */
  method ResetPassword(users: UserTable, token: string, newPassword: string, hash: string -> string, now: Instant)
    returns (reply: Reply<bool>)
    requires users.Valid()
    modifies users
    ensures users.Valid() && users.nextId == old(users.nextId)
    ensures ResetRefusal(old(users.rows), token, now).Some? ==>
              reply == Respond(BadRequest, ResetRefusal(old(users.rows), token, now).value, None) && users.rows == old(users.rows)
    ensures ResetRefusal(old(users.rows), token, now).None? ==>
              var holder := FindFirst(old(users.rows), ByRecoveryToken(token)).value;
              reply == Respond(OK, "", Some(true))
              && users.rows == PatchWhere(old(users.rows), holder.id, ResetPatch(hash(newPassword)))
  {
    var refusal := ResetRefusal(users.rows, token, now);
    if refusal.Some? {
      return Respond(BadRequest, refusal.value, None);
    }
    var holder := users.Find(ByRecoveryToken(token)).value;
    var _ := users.Update(holder.id, ResetPatch(hash(newPassword)));
    reply := Respond(OK, "", Some(true));
  }

  /** A token nobody else holds resets the password at any instant up to and including its expiry. */
  lemma {:induction false} FreshTokenWorksForADay(rows: seq<User>, id: int, token: string, issued: Instant, later: Instant)
    requires Exists(rows, ById(id)) && !Exists(rows, ByRecoveryToken(token))
    requires issued <= later <= issued + TokenLifetime
    ensures ResetRefusal(PatchWhere(rows, id, TokenPatch(token, issued + TokenLifetime)), token, later).None?
  {
    var after := PatchWhere(rows, id, TokenPatch(token, issued + TokenLifetime));
    var i :| 0 <= i < |rows| && Matches(rows[i], ById(id));
    assert Matches(after[i], ByRecoveryToken(token));
    var holder := FindFirst(after, ByRecoveryToken(token)).value;
    var k :| 0 <= k < |after| && after[k] == holder;
  }

  /** One millisecond after its expiry the same token is refused as expired. */
  lemma {:induction false} TokenExpiresAfterADay(rows: seq<User>, id: int, token: string, issued: Instant)
    requires Exists(rows, ById(id)) && !Exists(rows, ByRecoveryToken(token))
    ensures ResetRefusal(PatchWhere(rows, id, TokenPatch(token, issued + TokenLifetime)), token, issued + TokenLifetime + 1)
              == Some(ExpiredToken)
  {
    var after := PatchWhere(rows, id, TokenPatch(token, issued + TokenLifetime));
    var i :| 0 <= i < |rows| && Matches(rows[i], ById(id));
    assert Matches(after[i], ByRecoveryToken(token));
    var holder := FindFirst(after, ByRecoveryToken(token)).value;
    var k :| 0 <= k < |after| && after[k] == holder;
  }

  /** A reset stores the new hash and clears both recovery columns of the holder's row. */
  lemma ResetClearsToken(rows: seq<User>, holderId: int, passwordHash: string)
    ensures forall i | 0 <= i < |rows| && rows[i].id == holderId ::
              PatchWhere(rows, holderId, ResetPatch(passwordHash))[i].recoveryToken == None
              && PatchWhere(rows, holderId, ResetPatch(passwordHash))[i].recoveryTokenExpires == None
              && PatchWhere(rows, holderId, ResetPatch(passwordHash))[i].passwordHash == passwordHash
  {
  }

  /** A token is single-use: once a reset with it succeeds, and nobody else held it, the same token is refused. */
  lemma {:induction false} TokenIsSingleUse(rows: seq<User>, token: string, passwordHash: string, now: Instant, later: Instant)
    requires ResetRefusal(rows, token, now).None?
    requires forall i | 0 <= i < |rows| && rows[i].recoveryToken == Some(token) ::
               rows[i].id == FindFirst(rows, ByRecoveryToken(token)).value.id
    ensures var holder := FindFirst(rows, ByRecoveryToken(token)).value;
            ResetRefusal(PatchWhere(rows, holder.id, ResetPatch(passwordHash)), token, later) == Some(InvalidToken)
  {
    var holder := FindFirst(rows, ByRecoveryToken(token)).value;
    var after := PatchWhere(rows, holder.id, ResetPatch(passwordHash));
    forall i | 0 <= i < |after|
      ensures !Matches(after[i], ByRecoveryToken(token))
    {
      if rows[i].id == holder.id {
        assert after[i].recoveryToken == None;
      } else {
        assert after[i] == rows[i];
      }
    }
  }
}
