/**
 * The friend request handlers. The friend helper service is not part of this
 * model: `users` stands for the ids its `validateUser` accepts and
 * `validateFriendship` is a parameter.
 */
module FriendService {
  import opened Common
  import opened FriendStore

  const FriendNotFound := "Friend not found"
  const UserNotFound := "User not found"

  /** `getById`: the friendship row, or NOT_FOUND. */
  function GetById(friends: FriendTable, id: int): (r: Reply<Friend>)
    reads friends
    ensures r.Respond?
    ensures r.status == NotFound <==> id !in friends.rows
    ensures r.status == NotFound ==> r == Respond(NotFound, FriendNotFound, None)
    ensures r.status != NotFound ==> r == Respond(OK, "Friend retrieved successfully", Some(friends.rows[id]))
  {
    match friends.FindById(id)
    case None => Respond(NotFound, FriendNotFound, None)
    case Some(f) => Respond(OK, "Friend retrieved successfully", Some(f))
  }

  /** `getByUserId`: an unknown user is NOT_FOUND; a known one gets exactly the rows on its side. */
  function GetByUserId(friends: FriendTable, users: set<int>, userId: int): (r: Reply<set<Friend>>)
    reads friends
    ensures r.Respond? && (r.status == NotFound <==> userId !in users)
    ensures userId !in users ==> r == Respond(NotFound, UserNotFound, None)
    ensures userId in users ==>
              r.status == OK && r.data.Some? && forall f :: f in r.data.value <==> f in friends.rows.Values && f.userId == userId
  {
    if userId !in users then Respond(NotFound, UserNotFound, None)
    else Respond(OK, "User friends retrieved successfully", Some(friends.FindByUserId(userId)))
  }

  /** The response that refuses `create`, if any: the user is checked before the friendship rules. */
  function CreateRejection(users: set<int>, validateFriendship: (int, int) -> Check, userId: int, friendId: int): (r: Option<(Status, string)>)
    ensures userId !in users ==> r == Some((NotFound, UserNotFound))
    ensures userId in users && !validateFriendship(userId, friendId).isValid ==>
              r == Some((BadRequest, MessageOr(validateFriendship(userId, friendId).message, "Invalid friendship")))
    ensures r.None? <==> userId in users && validateFriendship(userId, friendId).isValid
  {
    if userId !in users then Some((NotFound, UserNotFound))
    else
      var v := validateFriendship(userId, friendId);
      if !v.isValid then Some((BadRequest, MessageOr(v.message, "Invalid friendship"))) else None
  }

  /** An unknown user is refused before the friendship rules are consulted at all. */
  lemma UnknownUserWinsOverFriendship(users: set<int>, rule1: (int, int) -> Check, rule2: (int, int) -> Check, userId: int, friendId: int)
    requires userId !in users
    ensures CreateRejection(users, rule1, userId, friendId) == CreateRejection(users, rule2, userId, friendId)
  {
  }

  method Create(friends: FriendTable, users: set<int>, validateFriendship: (int, int) -> Check, userId: int, friendId: int)
    returns (reply: Reply<Friend>)
    requires friends.Valid()
    modifies friends
    ensures friends.Valid()
    ensures CreateRejection(users, validateFriendship, userId, friendId).Some? ==>
              var rejection := CreateRejection(users, validateFriendship, userId, friendId).value;
              reply == Respond(rejection.0, rejection.1, None)
              && friends.rows == old(friends.rows) && friends.nextId == old(friends.nextId)
    ensures CreateRejection(users, validateFriendship, userId, friendId).None? ==>
              var f := Friend(old(friends.nextId), userId, friendId);
              && reply == Respond(Created, "Friend added successfully", Some(f))
              && f.id !in old(friends.rows) && friends.rows == old(friends.rows)[f.id := f]
  {
    var rejection := CreateRejection(users, validateFriendship, userId, friendId);
    if rejection.Some? {
      return Respond(rejection.value.0, rejection.value.1, None);
    }
    var f := friends.Create(userId, friendId);
    reply := Respond(Created, "Friend added successfully", Some(f));
  }

  method Delete(friends: FriendTable, id: int) returns (reply: Reply<bool>)
    requires friends.Valid()
    modifies friends
    ensures friends.Valid() && friends.nextId == old(friends.nextId)
    ensures id !in old(friends.rows) ==> reply == Respond(NotFound, FriendNotFound, None) && friends.rows == old(friends.rows)
    ensures id in old(friends.rows) ==>
              reply == Respond(OK, "Friend removed successfully", Some(true)) && friends.rows == old(friends.rows) - {id}
  {
    if friends.FindById(id).None? {
      return Respond(NotFound, FriendNotFound, None);
    }
    var deleted := friends.Delete(id);
    reply := Respond(OK, "Friend removed successfully", Some(deleted));
  }
}
