/**
 * The users table. Its repository is not part of this model: the table is a
 * plain store whose lookups return the first row that matches, in insertion
 * order, and whose update writes the defined fields of the patch.
 */
module UserStore {
  import opened Common

  datatype User = User(
    id: int,
    name: string,
    username: string,
    email: string,
    passwordHash: string,
    registrationDate: Instant,
    active: bool,
    recoveryToken: Option<string>,
    recoveryTokenExpires: Option<Instant>)

  /** What `create` is given. */
  datatype NewUser = NewUser(name: string, username: string, email: string, passwordHash: string, active: bool)

  /** A partial user record; `None` is undefined, `Some(None)` null. */
  datatype UserPatch = UserPatch(
    name: Option<string>,
    username: Option<string>,
    email: Option<string>,
    passwordHash: Option<string>,
    recoveryToken: Option<Option<string>>,
    recoveryTokenExpires: Option<Option<Instant>>)

  function Patched(u: User, p: UserPatch): (r: User)
    ensures r.id == u.id && r.registrationDate == u.registrationDate && r.active == u.active
    ensures r.name == p.name.GetOr(u.name) && r.username == p.username.GetOr(u.username)
    ensures r.email == p.email.GetOr(u.email) && r.passwordHash == p.passwordHash.GetOr(u.passwordHash)
    ensures r.recoveryToken == p.recoveryToken.GetOr(u.recoveryToken)
    ensures r.recoveryTokenExpires == p.recoveryTokenExpires.GetOr(u.recoveryTokenExpires)
  {
    u.(name := p.name.GetOr(u.name), username := p.username.GetOr(u.username),
       email := p.email.GetOr(u.email), passwordHash := p.passwordHash.GetOr(u.passwordHash),
       recoveryToken := p.recoveryToken.GetOr(u.recoveryToken),
       recoveryTokenExpires := p.recoveryTokenExpires.GetOr(u.recoveryTokenExpires))
  }

  /** The column a lookup compares. */
  datatype Key = ById(id: int) | ByEmail(email: string) | ByUsername(username: string) | ByRecoveryToken(token: string)

  predicate Matches(u: User, key: Key) {
    match key
    case ById(id) => u.id == id
    case ByEmail(email) => u.email == email
    case ByUsername(username) => u.username == username
    case ByRecoveryToken(token) => u.recoveryToken == Some(token)
  }

  predicate Exists(s: seq<User>, key: Key) {
    exists i | 0 <= i < |s| :: Matches(s[i], key)
  }

  /** `SELECT ... WHERE key LIMIT 1`: the first matching row, if any. */
  function FindFirst(s: seq<User>, key: Key): (r: Option<User>)
    ensures r.Some? <==> Exists(s, key)
    ensures r.Some? ==> r.value in s && Matches(r.value, key)
  {
    if s == [] then None
    else if Matches(s[0], key) then Some(s[0])
    else
      assert Exists(s, key) ==> Exists(s[1..], key) by {
        if Exists(s, key) {
          var i :| 0 <= i < |s| && Matches(s[i], key);
          assert s[1..][i - 1] == s[i];
        }
      }
      assert Exists(s[1..], key) ==> Exists(s, key) by {
        if Exists(s[1..], key) {
          var i :| 0 <= i < |s[1..]| && Matches(s[1..][i], key);
          assert s[i + 1] == s[1..][i];
        }
      }
      FindFirst(s[1..], key)
  }

  /** The rows after writing `p` into the row with id `id`. */
  function PatchWhere(s: seq<User>, id: int, p: UserPatch): (r: seq<User>)
    ensures |r| == |s|
    ensures forall i | 0 <= i < |s| :: r[i] == if s[i].id == id then Patched(s[i], p) else s[i]
  {
    seq(|s|, i requires 0 <= i < |s| => if s[i].id == id then Patched(s[i], p) else s[i])
  }

  predicate UniqueIds(s: seq<User>) {
    forall i, j | 0 <= i < j < |s| :: s[i].id != s[j].id
  }

  class UserTable {
    var rows: seq<User>
    var nextId: int

    ghost predicate Valid()
      reads this
    {
      && 0 < nextId
      && (forall i | 0 <= i < |rows| :: 0 < rows[i].id < nextId)
      && UniqueIds(rows)
    }

    constructor ()
      ensures Valid() && rows == [] && nextId == 1
    {
      rows := [];
      nextId := 1;
    }

    function Find(key: Key): (r: Option<User>)
      reads this
      ensures r.Some? <==> Exists(rows, key)
      ensures r.Some? ==> r.value in rows && Matches(r.value, key)
    {
      FindFirst(rows, key)
    }

    /** The ids `findById` finds. */
    function Ids(): (r: set<int>)
      reads this
      ensures forall id :: id in r <==> Exists(rows, ById(id))
    {
      set i | 0 <= i < |rows| :: rows[i].id
    }

    method Create(data: NewUser, now: Instant) returns (u: User)
      requires Valid()
      modifies this
      ensures Valid()
      ensures u == User(old(nextId), data.name, data.username, data.email, data.passwordHash, now, data.active, None, None)
      ensures rows == old(rows) + [u] && nextId == old(nextId) + 1
    {
      u := User(nextId, data.name, data.username, data.email, data.passwordHash, now, data.active, None, None);
      rows := rows + [u];
      nextId := nextId + 1;
    }

    /** Writes the defined fields into the row with that id; no row, no change. */
    method Update(id: int, patch: UserPatch) returns (r: Option<User>)
      requires Valid()
      modifies this
      ensures Valid() && nextId == old(nextId)
      ensures rows == PatchWhere(old(rows), id, patch)
      ensures r.Some? <==> Exists(old(rows), ById(id))
      ensures r.Some? ==> r.value == Patched(FindFirst(old(rows), ById(id)).value, patch)
    {
      var found := Find(ById(id));
      rows := PatchWhere(rows, id, patch);
      if found.Some? {
        r := Some(Patched(found.value, patch));
      } else {
        r := None;
      }
    }

    /** `setRecoveryToken(id, token, expires)`: both recovery columns at once. */
    method SetRecoveryToken(id: int, token: string, expires: Instant)
      requires Valid()
      modifies this
      ensures Valid() && nextId == old(nextId)
      ensures rows == PatchWhere(old(rows), id, UserPatch(None, None, None, None, Some(Some(token)), Some(Some(expires))))
    {
      rows := PatchWhere(rows, id, UserPatch(None, None, None, None, Some(Some(token)), Some(Some(expires))));
    }
  }
}
