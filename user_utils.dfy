/**
 * The user helper service: existence of an email or a username, and the
 * errors the uniqueness checks throw. A thrown error is `Err(message)`; a
 * check that resolves with no value is `Ok(())`.
 */
module UserUtils {
  import opened Common
  import opened UserStore

  const NotFoundMessage := "IUser not found"
  const EmailTakenMessage := "Email already exists"
  const UsernameTakenMessage := "Username already exists"

  /** `isEmailTaken`: some user has the email. */
  function IsEmailTaken(users: seq<User>, email: string): (r: bool)
    ensures r <==> exists i | 0 <= i < |users| :: users[i].email == email
  {
    assert Exists(users, ByEmail(email)) <==> exists i | 0 <= i < |users| :: users[i].email == email by {
      assert forall i | 0 <= i < |users| :: Matches(users[i], ByEmail(email)) <==> users[i].email == email;
    }
    FindFirst(users, ByEmail(email)).Some?
  }

  /** `isUsernameTaken`: some user has the username. */
  function IsUsernameTaken(users: seq<User>, username: string): (r: bool)
    ensures r <==> exists i | 0 <= i < |users| :: users[i].username == username
  {
    assert Exists(users, ByUsername(username)) <==> exists i | 0 <= i < |users| :: users[i].username == username by {
      assert forall i | 0 <= i < |users| :: Matches(users[i], ByUsername(username)) <==> users[i].username == username;
    }
    FindFirst(users, ByUsername(username)).Some?
  }

  /** `getByEmail`: the user with that email, or the "not found" error. */
  function GetByEmail(users: seq<User>, email: string): (r: Result<User>)
    ensures r.Ok? <==> IsEmailTaken(users, email)
    ensures r.Ok? ==> r.value in users && r.value.email == email
    ensures r.Err? ==> r.error == NotFoundMessage
  {
    match FindFirst(users, ByEmail(email))
    case Some(u) => Ok(u)
    case None => Err(NotFoundMessage)
  }

  /** `getByUsername`: the user with that username, or the "not found" error. */
  function GetByUsername(users: seq<User>, username: string): (r: Result<User>)
    ensures r.Ok? <==> IsUsernameTaken(users, username)
    ensures r.Ok? ==> r.value in users && r.value.username == username
    ensures r.Err? ==> r.error == NotFoundMessage
  {
    match FindFirst(users, ByUsername(username))
    case Some(u) => Ok(u)
    case None => Err(NotFoundMessage)
  }

  /** `validateUniqueFields`: both lookups are made; a taken email is reported before a taken username. */
  function ValidateUniqueFields(users: seq<User>, email: string, username: string): (r: Result<()>)
    ensures r.Ok? <==> !IsEmailTaken(users, email) && !IsUsernameTaken(users, username)
    ensures IsEmailTaken(users, email) ==> r == Err(EmailTakenMessage)
    ensures !IsEmailTaken(users, email) && IsUsernameTaken(users, username) ==> r == Err(UsernameTakenMessage)
  {
    var emailExists := IsEmailTaken(users, email);
    var usernameExists := IsUsernameTaken(users, username);
    if emailExists then Err(EmailTakenMessage)
    else if usernameExists then Err(UsernameTakenMessage)
    else Ok(())
  }

  /** `validateEmailUnique`: throws exactly when the email is taken. */
  function ValidateEmailUnique(users: seq<User>, email: string): (r: Result<()>)
    ensures r.Err? <==> IsEmailTaken(users, email)
    ensures r.Err? ==> r.error == EmailTakenMessage
  {
    if IsEmailTaken(users, email) then Err(EmailTakenMessage) else Ok(())
  }

  /** `validateUsernameUnique`: throws exactly when the username is taken. */
  function ValidateUsernameUnique(users: seq<User>, username: string): (r: Result<()>)
    ensures r.Err? <==> IsUsernameTaken(users, username)
    ensures r.Err? ==> r.error == UsernameTakenMessage
  {
    if IsUsernameTaken(users, username) then Err(UsernameTakenMessage) else Ok(())
  }

  /** The combined check fails exactly when one of the single checks does, and reports the email's error first. */
  lemma UniqueFieldsAgreeWithSingleChecks(users: seq<User>, email: string, username: string)
    ensures ValidateUniqueFields(users, email, username).Ok? <==>
              ValidateEmailUnique(users, email).Ok? && ValidateUsernameUnique(users, username).Ok?
    ensures ValidateEmailUnique(users, email).Err? ==>
              ValidateUniqueFields(users, email, username) == ValidateEmailUnique(users, email)
    ensures ValidateEmailUnique(users, email).Ok? ==>
              ValidateUniqueFields(users, email, username) == ValidateUsernameUnique(users, username)
  {
  }

  /** Once a user is stored, a second sign-up with the same email and username is refused with the email's error. */
  lemma CreatedUserTakesEmail(users: seq<User>, u: User)
    ensures IsEmailTaken(users + [u], u.email) && IsUsernameTaken(users + [u], u.username)
    ensures ValidateUniqueFields(users + [u], u.email, u.username) == Err(EmailTakenMessage)
  {
    assert (users + [u])[|users|] == u;
  }
}
