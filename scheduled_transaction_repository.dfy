/** The scheduled-transactions table and the repository over it, including the "due" query. */
module ScheduledTransactionRepository {
  import opened Common

  datatype Scheduled = Scheduled(
    id: int,
    userId: int,
    name: string,
    amount: Cents,
    category: string,
    description: Option<string>,
    paymentMethodId: Option<int>,
    frequency: string,
    nextExecutionDate: Instant,
    active: bool)

  /** `Omit<IScheduledTransaction, "id">`: what `create` is given. */
  datatype NewScheduled = NewScheduled(
    userId: int,
    name: string,
    amount: Cents,
    category: string,
    description: Option<string>,
    paymentMethodId: Option<int>,
    frequency: string,
    nextExecutionDate: Instant,
    active: bool)

  /** The fields `update` looks at; `None` is undefined, `Some(None)` an explicit null. */
  datatype ScheduledPatch = ScheduledPatch(
    name: Option<string>,
    amount: Option<Cents>,
    category: Option<string>,
    description: Option<Option<string>>,
    paymentMethodId: Option<Option<int>>,
    frequency: Option<string>,
    nextExecutionDate: Option<Instant>,
    active: Option<bool>)

  const NoChange := ScheduledPatch(None, None, None, None, None, None, None, None)

  /** The row `update` leaves behind: each defined field written, `id` and `userId` never. */
  function Patched(s: Scheduled, p: ScheduledPatch): (r: Scheduled)
    ensures r.id == s.id && r.userId == s.userId
    ensures p.name.Some? ==> r.name == p.name.value
    ensures p.name.None? ==> r.name == s.name
    ensures p.amount.Some? ==> r.amount == p.amount.value
    ensures p.amount.None? ==> r.amount == s.amount
    ensures p.category.Some? ==> r.category == p.category.value
    ensures p.category.None? ==> r.category == s.category
    ensures p.description.Some? ==> r.description == p.description.value
    ensures p.description.None? ==> r.description == s.description
    ensures p.paymentMethodId.Some? ==> r.paymentMethodId == p.paymentMethodId.value
    ensures p.paymentMethodId.None? ==> r.paymentMethodId == s.paymentMethodId
    ensures p.frequency.Some? ==> r.frequency == p.frequency.value
    ensures p.frequency.None? ==> r.frequency == s.frequency
    ensures p.nextExecutionDate.Some? ==> r.nextExecutionDate == p.nextExecutionDate.value
    ensures p.nextExecutionDate.None? ==> r.nextExecutionDate == s.nextExecutionDate
    ensures p.active.Some? ==> r.active == p.active.value
    ensures p.active.None? ==> r.active == s.active
  {
    Scheduled(s.id, s.userId, p.name.GetOr(s.name), p.amount.GetOr(s.amount),
      p.category.GetOr(s.category), p.description.GetOr(s.description),
      p.paymentMethodId.GetOr(s.paymentMethodId), p.frequency.GetOr(s.frequency),
      p.nextExecutionDate.GetOr(s.nextExecutionDate), p.active.GetOr(s.active))
  }

  /** The due condition of `findPendingExecutions`: active, and next execution not after now. */
  predicate IsDue(s: Scheduled, now: Instant) {
    s.active && s.nextExecutionDate <= now
  }

  lemma PatchNothing(s: Scheduled)
    ensures Patched(s, NoChange) == s
  {
  }

  lemma PatchIdempotent(s: Scheduled, p: ScheduledPatch)
    ensures Patched(Patched(s, p), p) == Patched(s, p)
  {
  }

  /** Deactivating a record takes it out of every due list; reactivating one due by date puts it back. */
  lemma DeactivationStopsExecution(s: Scheduled, now: Instant)
    ensures !IsDue(Patched(s, NoChange.(active := Some(false))), now)
    ensures s.nextExecutionDate <= now ==> IsDue(Patched(s, NoChange.(active := Some(true))), now)
  {
  }

  /** The SET list of `update`, one defined field at a time. */
  method ApplyPatch(row: Scheduled, patch: ScheduledPatch) returns (s: Scheduled)
    ensures s == Patched(row, patch)
  {
    s := row;
    s := if patch.name.Some? then s.(name := patch.name.value) else s;
    s := if patch.amount.Some? then s.(amount := patch.amount.value) else s;
    s := if patch.category.Some? then s.(category := patch.category.value) else s;
    s := if patch.description.Some? then s.(description := patch.description.value) else s;
    // the first half of the SET list, written so far
    assert s == row.(
      name := patch.name.GetOr(row.name),
      amount := patch.amount.GetOr(row.amount),
      category := patch.category.GetOr(row.category),
      description := patch.description.GetOr(row.description));
    s := if patch.paymentMethodId.Some? then s.(paymentMethodId := patch.paymentMethodId.value) else s;
    s := if patch.frequency.Some? then s.(frequency := patch.frequency.value) else s;
    s := if patch.nextExecutionDate.Some? then s.(nextExecutionDate := patch.nextExecutionDate.value) else s;
    s := if patch.active.Some? then s.(active := patch.active.value) else s;
    assert s == row.(
      name := patch.name.GetOr(row.name),
      amount := patch.amount.GetOr(row.amount),
      category := patch.category.GetOr(row.category),
      description := patch.description.GetOr(row.description),
      paymentMethodId := patch.paymentMethodId.GetOr(row.paymentMethodId),
      frequency := patch.frequency.GetOr(row.frequency),
      nextExecutionDate := patch.nextExecutionDate.GetOr(row.nextExecutionDate),
      active := patch.active.GetOr(row.active));
  }

  class ScheduledTable {
    var rows: map<int, Scheduled>
    /** The next value of the serial `id` column. */
    var nextId: int

    ghost predicate Valid()
      reads this
    {
      && 0 < nextId
      && forall k | k in rows :: rows[k].id == k && 0 < k < nextId
    }

    constructor ()
      ensures Valid() && rows == map[] && nextId == 1
    {
      rows := map[];
      nextId := 1;
    }

    function FindById(id: int): (r: Option<Scheduled>)
      reads this
      ensures r.Some? <==> id in rows
      ensures r.Some? ==> r.value == rows[id]
    {
      if id in rows then Some(rows[id]) else None
    }

    /** Exactly the scheduled records of `userId`. */
    function FindByUserId(userId: int): (r: set<Scheduled>)
      reads this
      ensures forall s | s in r :: s in rows.Values && s.userId == userId
      ensures forall k | k in rows && rows[k].userId == userId :: rows[k] in r
    {
      set k | k in rows && rows[k].userId == userId :: rows[k]
    }

    /** Every active record whose next execution is at or before `now`, and nothing else. */
    function FindPendingExecutions(now: Instant): (r: set<Scheduled>)
      reads this
      ensures forall s | s in r :: s in rows.Values && s.active && s.nextExecutionDate <= now
      ensures forall k | k in rows && rows[k].active && rows[k].nextExecutionDate <= now :: rows[k] in r
    {
      set k | k in rows && IsDue(rows[k], now) :: rows[k]
    }

    /** What is due now is still due later. */
    lemma PendingGrowsWithTime(now: Instant, later: Instant)
      requires now <= later
      ensures FindPendingExecutions(now) <= FindPendingExecutions(later)
    {
    }

    /** A record scheduled for exactly `now` is due. */
    lemma DueIsInclusive(id: int, now: Instant)
      requires id in rows && rows[id].active && rows[id].nextExecutionDate == now
      ensures rows[id] in FindPendingExecutions(now)
    {
    }

    /** INSERT ... RETURNING: `active` and the next execution date stored as given, falsy optionals as null. */
    method Create(data: NewScheduled) returns (s: Scheduled)
      requires Valid()
      modifies this
      ensures Valid()
      ensures s.id == old(nextId) && s.id !in old(rows)
      ensures s == Scheduled(s.id, data.userId, data.name, data.amount, data.category,
                             TextOrNull(data.description), IdOrNull(data.paymentMethodId),
                             data.frequency, data.nextExecutionDate, data.active)
      ensures rows == old(rows)[s.id := s] && nextId == old(nextId) + 1
    {
      s := Scheduled(nextId, data.userId, data.name, data.amount, data.category,
        TextOrNull(data.description), IdOrNull(data.paymentMethodId),
        data.frequency, data.nextExecutionDate, data.active);
      rows := rows[nextId := s];
      nextId := nextId + 1;
    }

    /** Builds the SET list field by field; an unknown id matches no row and the mapping throws. */
    method Update(id: int, patch: ScheduledPatch) returns (r: Result<Scheduled>)
      requires Valid()
      modifies this
      ensures Valid() && nextId == old(nextId)
      ensures id in old(rows) ==> r == Ok(Patched(old(rows)[id], patch)) && rows == old(rows)[id := r.value]
      ensures id !in old(rows) ==> r == Err(UndefinedRow) && rows == old(rows)
    {
      if id !in rows {
        return Err(UndefinedRow);
      }
      var s := ApplyPatch(rows[id], patch);
      rows := rows[id := s];
      r := Ok(s);
    }

    method Delete(id: int) returns (deleted: bool)
      requires Valid()
      modifies this
      ensures Valid() && nextId == old(nextId)
      ensures deleted <==> id in old(rows)
      ensures rows == old(rows) - {id}
    {
      deleted := id in rows;
      rows := rows - {id};
    }
  }
}
