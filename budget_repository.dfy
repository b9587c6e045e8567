/** The budgets table and the repository that reads and writes it. */
module BudgetRepository {
  import opened Common
  import opened Calendar

  datatype Budget = Budget(
    id: int,
    userId: int,
    sharedUserId: Option<int>,
    category: string,
    limitAmount: Cents,
    currentAmount: Cents,
    month: Instant)

  /** `Omit<IBudget, "id">`: what `create` is given. */
  datatype NewBudget = NewBudget(
    userId: int,
    sharedUserId: Option<int>,
    category: string,
    limitAmount: Cents,
    currentAmount: Cents,
    month: Instant)

  /**
   * The fields of `Partial<IBudget>` that `update` looks at; `None` is undefined.
   * `sharedUserId` may be set to null, written `Some(None)`.
   */
  datatype BudgetPatch = BudgetPatch(
    category: Option<string>,
    limitAmount: Option<Cents>,
    currentAmount: Option<Cents>,
    month: Option<Instant>,
    sharedUserId: Option<Option<int>>)

  const NoChange := BudgetPatch(None, None, None, None, None)

  /** The row `update` leaves behind: each defined field written, every other field kept. */
  function Patched(b: Budget, p: BudgetPatch): (r: Budget)
    ensures r.id == b.id && r.userId == b.userId
    ensures p.category.Some? ==> r.category == p.category.value
    ensures p.category.None? ==> r.category == b.category
    ensures p.limitAmount.Some? ==> r.limitAmount == p.limitAmount.value
    ensures p.limitAmount.None? ==> r.limitAmount == b.limitAmount
    ensures p.currentAmount.Some? ==> r.currentAmount == p.currentAmount.value
    ensures p.currentAmount.None? ==> r.currentAmount == b.currentAmount
    ensures p.month.Some? ==> r.month == p.month.value
    ensures p.month.None? ==> r.month == b.month
    ensures p.sharedUserId.Some? ==> r.sharedUserId == p.sharedUserId.value
    ensures p.sharedUserId.None? ==> r.sharedUserId == b.sharedUserId
  {
    Budget(b.id, b.userId, p.sharedUserId.GetOr(b.sharedUserId), p.category.GetOr(b.category),
      p.limitAmount.GetOr(b.limitAmount), p.currentAmount.GetOr(b.currentAmount),
      p.month.GetOr(b.month))
  }

  /** The row after `updateAmount`: the signed amount added, with no check against the limit. */
  function AfterAmount(b: Budget, amount: Cents): (r: Budget)
    ensures r.currentAmount == b.currentAmount + amount
    ensures r == b.(currentAmount := r.currentAmount)
  {
    b.(currentAmount := b.currentAmount + amount)
  }

  lemma PatchNothing(b: Budget)
    ensures Patched(b, NoChange) == b
  {
  }

  lemma PatchIdempotent(b: Budget, p: BudgetPatch)
    ensures Patched(Patched(b, p), p) == Patched(b, p)
  {
  }

  /** Amount updates add up, and a negative amount undoes a positive one. */
  lemma AmountsCompose(b: Budget, x: Cents, y: Cents)
    ensures AfterAmount(AfterAmount(b, x), y) == AfterAmount(b, x + y)
    ensures AfterAmount(AfterAmount(b, x), -x) == b
  {
  }

  /** Nothing stops the current amount from passing the limit. */
  lemma AmountMayExceedLimit(b: Budget, amount: Cents)
    requires amount > b.limitAmount - b.currentAmount
    ensures AfterAmount(b, amount).currentAmount > AfterAmount(b, amount).limitAmount
  {
  }

  class BudgetTable {
    var rows: map<int, Budget>
    /** The next value of the serial `id` column. */
    var nextId: int

    ghost predicate Valid()
      reads this
    {
      && 0 < nextId
      && forall k | k in rows :: rows[k].id == k && 0 < k < nextId
    }

    constructor ()
      ensures Valid() && rows == map[] && nextId == 1
    {
      rows := map[];
      nextId := 1;
    }

    function FindById(id: int): (r: Option<Budget>)
      reads this
      ensures r.Some? <==> id in rows
      ensures r.Some? ==> r.value == rows[id]
    {
      if id in rows then Some(rows[id]) else None
    }

    function FindByUserId(userId: int): (r: set<Budget>)
      reads this
      ensures forall b | b in r :: b in rows.Values && b.userId == userId
      ensures forall k | k in rows && rows[k].userId == userId :: rows[k] in r
    {
      set k | k in rows && rows[k].userId == userId :: rows[k]
    }

    /** The budgets whose month equals the first AND the last day of `month`'s month. */
    function FindByUserIdAndMonth(userId: int, month: Date): (r: set<Budget>)
      reads this
      ensures forall b | b in r :: b in rows.Values && b.userId == userId
                                   && b.month == MonthMidnights(month).0 && b.month == MonthMidnights(month).1
    {
      var bounds := MonthMidnights(month);
      set b | b in rows.Values && b.userId == userId && b.month == bounds.0 && b.month == bounds.1
    }

    /** The budgets shared with `userId`; an unshared budget matches no id. */
    function FindSharedWithUser(userId: int): (r: set<Budget>)
      reads this
      ensures forall b | b in r :: b in rows.Values && b.sharedUserId == Some(userId)
      ensures forall k | k in rows && rows[k].sharedUserId == Some(userId) :: rows[k] in r
    {
      set k | k in rows && rows[k].sharedUserId == Some(userId) :: rows[k]
    }

    /** Whatever the table holds, the month query finds nothing. */
    lemma MonthQueryIsAlwaysEmpty(userId: int, month: Date)
      ensures FindByUserIdAndMonth(userId, month) == {}
    {
    }

    /** The month query as intended: the user's budgets whose month lies anywhere in `month`'s month. */
    function FindByUserIdInMonth(userId: int, month: Date): (r: set<Budget>)
      reads this
      ensures forall b :: b in r <==> b in rows.Values && b.userId == userId && InMonth(b.month, month)
    {
      var span := MonthSpan(month);
      set b | b in rows.Values && b.userId == userId && span.0 <= b.month <= span.1
    }

    /** A budget dated at the first midnight of the month is found as intended and missed as written. */
    lemma MonthStartBudgetIsFound(userId: int, month: Date, k: int)
      requires k in rows && rows[k].userId == userId && rows[k].month == MonthMidnights(month).0
      ensures rows[k] in FindByUserIdInMonth(userId, month)
      ensures rows[k] !in FindByUserIdAndMonth(userId, month)
    {
      assert rows[k] in rows.Values;
    }

    /** INSERT ... RETURNING: a fresh id, and a falsy shared user stored as null. */
    method Create(data: NewBudget) returns (b: Budget)
      requires Valid()
      modifies this
      ensures Valid()
      ensures b.id == old(nextId) && b.id !in old(rows)
      ensures b == Budget(b.id, data.userId, IdOrNull(data.sharedUserId), data.category,
                          data.limitAmount, data.currentAmount, data.month)
      ensures rows == old(rows)[b.id := b] && nextId == old(nextId) + 1
    {
      b := Budget(nextId, data.userId, IdOrNull(data.sharedUserId), data.category,
        data.limitAmount, data.currentAmount, data.month);
      rows := rows[nextId := b];
      nextId := nextId + 1;
    }

    /** Builds the SET list field by field; an unknown id matches no row and the mapping throws. */
    method Update(id: int, patch: BudgetPatch) returns (r: Result<Budget>)
      requires Valid()
      modifies this
      ensures Valid() && nextId == old(nextId)
      ensures id in old(rows) ==> r == Ok(Patched(old(rows)[id], patch)) && rows == old(rows)[id := r.value]
      ensures id !in old(rows) ==> r == Err(UndefinedRow) && rows == old(rows)
    {
      if id !in rows {
        return Err(UndefinedRow);
      }
      var b := rows[id];
      if patch.category.Some? {
        b := b.(category := patch.category.value);
      }
      if patch.limitAmount.Some? {
        b := b.(limitAmount := patch.limitAmount.value);
      }
      if patch.currentAmount.Some? {
        b := b.(currentAmount := patch.currentAmount.value);
      }
      if patch.month.Some? {
        b := b.(month := patch.month.value);
      }
      if patch.sharedUserId.Some? {
        b := b.(sharedUserId := patch.sharedUserId.value);
      }
      rows := rows[id := b];
      r := Ok(b);
    }

    method Delete(id: int) returns (deleted: bool)
      requires Valid()
      modifies this
      ensures Valid() && nextId == old(nextId)
      ensures deleted <==> id in old(rows)
      ensures rows == old(rows) - {id}
    {
      deleted := id in rows;
      rows := rows - {id};
    }

    /** Reads the budget, then writes only the new current amount. */
    method UpdateAmount(id: int, amount: Cents) returns (r: Result<Budget>)
      requires Valid()
      modifies this
      ensures Valid() && nextId == old(nextId)
      ensures id !in old(rows) ==> r == Err("Budget not found") && rows == old(rows)
      ensures id in old(rows) ==> r == Ok(AfterAmount(old(rows)[id], amount))
                                  && rows == old(rows)[id := r.value]
    {
      var budget := FindById(id);
      if budget.None? {
        return Err("Budget not found");
      }
      var newAmount := budget.value.currentAmount + amount;
      var updated := budget.value.(currentAmount := newAmount);
      rows := rows[id := updated];
      r := Ok(updated);
    }
  }
}
