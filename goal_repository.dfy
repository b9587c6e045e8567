/** The goals table and the repository that reads and writes it. */
module GoalRepository {
  import opened Common

  datatype Goal = Goal(
    id: int,
    userId: int,
    sharedUserId: Option<int>,
    name: string,
    targetAmount: Cents,
    currentAmount: Cents,
    endDate: Instant)

  /** `Omit<IGoal, "id">`: what `create` is given. */
  datatype NewGoal = NewGoal(
    userId: int,
    sharedUserId: Option<int>,
    name: string,
    targetAmount: Cents,
    currentAmount: Cents,
    endDate: Instant)

  /**
   * The fields of `Partial<IGoal>` that `update` looks at; `None` is undefined.
   * `sharedUserId` may be set to null, written `Some(None)`.
   */
  datatype GoalPatch = GoalPatch(
    name: Option<string>,
    targetAmount: Option<Cents>,
    currentAmount: Option<Cents>,
    endDate: Option<Instant>,
    sharedUserId: Option<Option<int>>)

  const NoChange := GoalPatch(None, None, None, None, None)

  /** The row `update` leaves behind: each defined field written, every other field kept. */
  function Patched(g: Goal, p: GoalPatch): (r: Goal)
    ensures r.id == g.id && r.userId == g.userId
    ensures p.name.Some? ==> r.name == p.name.value
    ensures p.name.None? ==> r.name == g.name
    ensures p.targetAmount.Some? ==> r.targetAmount == p.targetAmount.value
    ensures p.targetAmount.None? ==> r.targetAmount == g.targetAmount
    ensures p.currentAmount.Some? ==> r.currentAmount == p.currentAmount.value
    ensures p.currentAmount.None? ==> r.currentAmount == g.currentAmount
    ensures p.endDate.Some? ==> r.endDate == p.endDate.value
    ensures p.endDate.None? ==> r.endDate == g.endDate
    ensures p.sharedUserId.Some? ==> r.sharedUserId == p.sharedUserId.value
    ensures p.sharedUserId.None? ==> r.sharedUserId == g.sharedUserId
  {
    Goal(g.id, g.userId, p.sharedUserId.GetOr(g.sharedUserId), p.name.GetOr(g.name),
      p.targetAmount.GetOr(g.targetAmount), p.currentAmount.GetOr(g.currentAmount),
      p.endDate.GetOr(g.endDate))
  }

  /** The row after `updateProgress`: the amount added to the current amount, nothing else touched. */
  function AfterProgress(g: Goal, amount: Cents): (r: Goal)
    ensures r.currentAmount == g.currentAmount + amount
    ensures r == g.(currentAmount := r.currentAmount)
  {
    g.(currentAmount := g.currentAmount + amount)
  }

  lemma PatchNothing(g: Goal)
    ensures Patched(g, NoChange) == g
  {
  }

  lemma PatchIdempotent(g: Goal, p: GoalPatch)
    ensures Patched(Patched(g, p), p) == Patched(g, p)
  {
  }

  /** Progress updates add up, and non-negative ones never decrease the current amount. */
  lemma ProgressComposes(g: Goal, x: Cents, y: Cents)
    ensures AfterProgress(AfterProgress(g, x), y) == AfterProgress(g, x + y)
    ensures x >= 0 ==> AfterProgress(g, x).currentAmount >= g.currentAmount
  {
  }

  class GoalTable {
    var rows: map<int, Goal>
    /** The next value of the serial `id` column. */
    var nextId: int

    ghost predicate Valid()
      reads this
    {
      && 0 < nextId
      && forall k | k in rows :: rows[k].id == k && 0 < k < nextId
    }

    constructor ()
      ensures Valid() && rows == map[] && nextId == 1
    {
      rows := map[];
      nextId := 1;
    }

    function FindById(id: int): (r: Option<Goal>)
      reads this
      ensures r.Some? <==> id in rows
      ensures r.Some? ==> r.value == rows[id]
    {
      if id in rows then Some(rows[id]) else None
    }

    function FindByUserId(userId: int): (r: set<Goal>)
      reads this
      ensures forall g | g in r :: g in rows.Values && g.userId == userId
      ensures forall k | k in rows && rows[k].userId == userId :: rows[k] in r
    {
      set k | k in rows && rows[k].userId == userId :: rows[k]
    }

    /** The goals shared with `userId`; an unshared goal matches no id. */
    function FindSharedWithUser(userId: int): (r: set<Goal>)
      reads this
      ensures forall g | g in r :: g in rows.Values && g.sharedUserId == Some(userId)
      ensures forall k | k in rows && rows[k].sharedUserId == Some(userId) :: rows[k] in r
    {
      set k | k in rows && rows[k].sharedUserId == Some(userId) :: rows[k]
    }

    /** INSERT ... RETURNING: a fresh id, and a falsy shared user stored as null. */
    method Create(data: NewGoal) returns (g: Goal)
      requires Valid()
      modifies this
      ensures Valid()
      ensures g.id == old(nextId) && g.id !in old(rows)
      ensures g == Goal(g.id, data.userId, IdOrNull(data.sharedUserId), data.name,
                        data.targetAmount, data.currentAmount, data.endDate)
      ensures rows == old(rows)[g.id := g] && nextId == old(nextId) + 1
    {
      g := Goal(nextId, data.userId, IdOrNull(data.sharedUserId), data.name,
        data.targetAmount, data.currentAmount, data.endDate);
      rows := rows[nextId := g];
      nextId := nextId + 1;
    }

    /** Builds the SET list field by field; an unknown id matches no row and the mapping throws. */
    method Update(id: int, patch: GoalPatch) returns (r: Result<Goal>)
      requires Valid()
      modifies this
      ensures Valid() && nextId == old(nextId)
      ensures id in old(rows) ==> r == Ok(Patched(old(rows)[id], patch)) && rows == old(rows)[id := r.value]
      ensures id !in old(rows) ==> r == Err(UndefinedRow) && rows == old(rows)
    {
      if id !in rows {
        return Err(UndefinedRow);
      }
      var g := rows[id];
      if patch.name.Some? {
        g := g.(name := patch.name.value);
      }
      if patch.targetAmount.Some? {
        g := g.(targetAmount := patch.targetAmount.value);
      }
      if patch.currentAmount.Some? {
        g := g.(currentAmount := patch.currentAmount.value);
      }
      if patch.endDate.Some? {
        g := g.(endDate := patch.endDate.value);
      }
      if patch.sharedUserId.Some? {
        g := g.(sharedUserId := patch.sharedUserId.value);
      }
      rows := rows[id := g];
      r := Ok(g);
    }

    method Delete(id: int) returns (deleted: bool)
      requires Valid()
      modifies this
      ensures Valid() && nextId == old(nextId)
      ensures deleted <==> id in old(rows)
      ensures rows == old(rows) - {id}
    {
      deleted := id in rows;
      rows := rows - {id};
    }

    /** Reads the goal, then writes only the new current amount. */
    method UpdateProgress(id: int, amount: Cents) returns (r: Result<Goal>)
      requires Valid()
      modifies this
      ensures Valid() && nextId == old(nextId)
      ensures id !in old(rows) ==> r == Err("Goal not found") && rows == old(rows)
      ensures id in old(rows) ==> r == Ok(AfterProgress(old(rows)[id], amount))
                                  && rows == old(rows)[id := r.value]
    {
      var goal := FindById(id);
      if goal.None? {
        return Err("Goal not found");
      }
      var newAmount := goal.value.currentAmount + amount;
      var updated := goal.value.(currentAmount := newAmount);
      rows := rows[id := updated];
      r := Ok(updated);
    }
  }
}
