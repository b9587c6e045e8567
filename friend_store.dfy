/**
 * The friends table. Its repository is not part of this model: the table is
 * a plain store keyed by id; `findByUserId` is taken to select on `user_id`.
 */
module FriendStore {
  import opened Common

  datatype Friend = Friend(id: int, userId: int, friendId: int)

  class FriendTable {
    var rows: map<int, Friend>
    var nextId: int

    ghost predicate Valid()
      reads this
    {
      && 0 < nextId
      && forall k | k in rows :: rows[k].id == k && 0 < k < nextId
    }

    constructor ()
      ensures Valid() && rows == map[] && nextId == 1
    {
      rows := map[];
      nextId := 1;
    }

    function FindById(id: int): (r: Option<Friend>)
      reads this
      ensures r.Some? <==> id in rows
      ensures r.Some? ==> r.value == rows[id]
    {
      if id in rows then Some(rows[id]) else None
    }

    function FindByUserId(userId: int): (r: set<Friend>)
      reads this
      ensures forall f :: f in r <==> f in rows.Values && f.userId == userId
    {
      set f | f in rows.Values && f.userId == userId
    }

    method Create(userId: int, friendId: int) returns (f: Friend)
      requires Valid()
      modifies this
      ensures Valid()
      ensures f == Friend(old(nextId), userId, friendId) && f.id !in old(rows)
      ensures rows == old(rows)[f.id := f] && nextId == old(nextId) + 1
    {
      f := Friend(nextId, userId, friendId);
      rows := rows[f.id := f];
      nextId := nextId + 1;
    }

    method Delete(id: int) returns (deleted: bool)
      requires Valid()
      modifies this
      ensures Valid() && nextId == old(nextId)
      ensures deleted <==> id in old(rows)
      ensures rows == old(rows) - {id}
    {
      deleted := id in rows;
      rows := rows - {id};
    }
  }
}
