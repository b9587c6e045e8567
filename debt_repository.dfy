/** The debts table and the repository that reads and writes it. */
module DebtRepository {
  import opened Common

  datatype Debt = Debt(
    id: int,
    userId: int,
    description: string,
    originalAmount: Cents,
    pendingAmount: Cents,
    dueDate: Instant,
    paid: bool,
    creditorId: Option<int>)

  /** `Omit<IDebt, "id">`: what `create` is given. */
  datatype NewDebt = NewDebt(
    userId: int,
    description: string,
    originalAmount: Cents,
    pendingAmount: Cents,
    dueDate: Instant,
    paid: bool,
    creditorId: Option<int>)

  /** The fields of `Partial<IDebt>` that `update` looks at; `None` is undefined. */
  datatype DebtPatch = DebtPatch(
    description: Option<string>,
    pendingAmount: Option<Cents>,
    dueDate: Option<Instant>,
    paid: Option<bool>)

  const NoChange := DebtPatch(None, None, None, None)

  /** The row `update` leaves behind: each defined field written, every other field kept. */
  function Patched(d: Debt, p: DebtPatch): (r: Debt)
    ensures r.id == d.id && r.userId == d.userId
    ensures r.originalAmount == d.originalAmount && r.creditorId == d.creditorId
    ensures p.description.Some? ==> r.description == p.description.value
    ensures p.description.None? ==> r.description == d.description
    ensures p.pendingAmount.Some? ==> r.pendingAmount == p.pendingAmount.value
    ensures p.pendingAmount.None? ==> r.pendingAmount == d.pendingAmount
    ensures p.dueDate.Some? ==> r.dueDate == p.dueDate.value
    ensures p.dueDate.None? ==> r.dueDate == d.dueDate
    ensures p.paid.Some? ==> r.paid == p.paid.value
    ensures p.paid.None? ==> r.paid == d.paid
  {
    Debt(d.id, d.userId, p.description.GetOr(d.description), d.originalAmount,
      p.pendingAmount.GetOr(d.pendingAmount), p.dueDate.GetOr(d.dueDate),
      p.paid.GetOr(d.paid), d.creditorId)
  }

  /** The row after a payment of `amount`: pending reduced, `paid` recomputed, nothing else touched. */
  function AfterPayment(d: Debt, amount: Cents): (r: Debt)
    ensures r.pendingAmount == d.pendingAmount - amount
    ensures r.paid <==> r.pendingAmount <= 0
    ensures r == d.(pendingAmount := r.pendingAmount, paid := r.paid)
  {
    var newAmount := d.pendingAmount - amount;
    d.(pendingAmount := newAmount, paid := newAmount <= 0)
  }

  lemma PatchNothing(d: Debt)
    ensures Patched(d, NoChange) == d
  {
  }

  /** Applying the same update twice is applying it once. */
  lemma PatchIdempotent(d: Debt, p: DebtPatch)
    ensures Patched(Patched(d, p), p) == Patched(d, p)
  {
  }

  /** A later update of a field overrides an earlier one; other fields accumulate. */
  lemma PatchesCompose(d: Debt, p: DebtPatch, q: DebtPatch)
    ensures Patched(Patched(d, p), q) == Patched(d, DebtPatch(
      if q.description.Some? then q.description else p.description,
      if q.pendingAmount.Some? then q.pendingAmount else p.pendingAmount,
      if q.dueDate.Some? then q.dueDate else p.dueDate,
      if q.paid.Some? then q.paid else p.paid))
  {
  }

  /** There is no clamping at zero: paying more than is owed leaves a negative balance marked paid. */
  lemma Overpayment(d: Debt, amount: Cents)
    requires amount > d.pendingAmount
    ensures AfterPayment(d, amount).pendingAmount < 0
    ensures AfterPayment(d, amount).paid
  {
  }

  /** `paid` is not sticky: a paid debt whose new balance is positive becomes unpaid. */
  lemma PaidIsNotSticky(d: Debt, amount: Cents)
    requires d.paid && d.pendingAmount - amount > 0
    ensures !AfterPayment(d, amount).paid
  {
  }

  /** Two payments have the effect of one payment of their sum. */
  lemma PaymentsCompose(d: Debt, a: Cents, b: Cents)
    ensures AfterPayment(AfterPayment(d, a), b) == AfterPayment(d, a + b)
  {
  }

  class DebtTable {
    var rows: map<int, Debt>
    /** The next value of the serial `id` column. */
    var nextId: int

    ghost predicate Valid()
      reads this
    {
      && 0 < nextId
      && forall k | k in rows :: rows[k].id == k && 0 < k < nextId
    }

    constructor ()
      ensures Valid() && rows == map[] && nextId == 1
    {
      rows := map[];
      nextId := 1;
    }

    function FindById(id: int): (r: Option<Debt>)
      reads this
      ensures r.Some? <==> id in rows
      ensures r.Some? ==> r.value == rows[id]
    {
      if id in rows then Some(rows[id]) else None
    }

    /** The debts owed by `userId`. */
    function FindByUserId(userId: int): (r: set<Debt>)
      reads this
      ensures forall d | d in r :: d in rows.Values && d.userId == userId
      ensures forall k | k in rows && rows[k].userId == userId :: rows[k] in r
    {
      set k | k in rows && rows[k].userId == userId :: rows[k]
    }

    /** The debts owed to `creditorId`; a debt without a creditor matches no id. */
    function FindByCreditorId(creditorId: int): (r: set<Debt>)
      reads this
      ensures forall d | d in r :: d in rows.Values && d.creditorId == Some(creditorId)
      ensures forall k | k in rows && rows[k].creditorId == Some(creditorId) :: rows[k] in r
    {
      set k | k in rows && rows[k].creditorId == Some(creditorId) :: rows[k]
    }

    /** INSERT ... RETURNING: a fresh id, and a falsy creditor stored as null. */
    method Create(data: NewDebt) returns (d: Debt)
      requires Valid()
      modifies this
      ensures Valid()
      ensures d.id == old(nextId) && d.id !in old(rows)
      ensures d == Debt(d.id, data.userId, data.description, data.originalAmount,
                        data.pendingAmount, data.dueDate, data.paid, IdOrNull(data.creditorId))
      ensures rows == old(rows)[d.id := d] && nextId == old(nextId) + 1
    {
      d := Debt(nextId, data.userId, data.description, data.originalAmount,
        data.pendingAmount, data.dueDate, data.paid, IdOrNull(data.creditorId));
      rows := rows[nextId := d];
      nextId := nextId + 1;
    }

    /** Builds the SET list field by field; an unknown id matches no row and the mapping throws. */
    method Update(id: int, patch: DebtPatch) returns (r: Result<Debt>)
      requires Valid()
      modifies this
      ensures Valid() && nextId == old(nextId)
      ensures id in old(rows) ==> r == Ok(Patched(old(rows)[id], patch)) && rows == old(rows)[id := r.value]
      ensures id !in old(rows) ==> r == Err(UndefinedRow) && rows == old(rows)
    {
      if id !in rows {
        return Err(UndefinedRow);
      }
      var d := rows[id];
      if patch.description.Some? {
        d := d.(description := patch.description.value);
      }
      if patch.pendingAmount.Some? {
        d := d.(pendingAmount := patch.pendingAmount.value);
      }
      if patch.dueDate.Some? {
        d := d.(dueDate := patch.dueDate.value);
      }
      if patch.paid.Some? {
        d := d.(paid := patch.paid.value);
      }
      rows := rows[id := d];
      r := Ok(d);
    }

    /** DELETE ... RETURNING: true iff a row was removed. */
    method Delete(id: int) returns (deleted: bool)
      requires Valid()
      modifies this
      ensures Valid() && nextId == old(nextId)
      ensures deleted <==> id in old(rows)
      ensures rows == old(rows) - {id}
    {
      deleted := id in rows;
      rows := rows - {id};
    }

    /** Reads the debt, then writes the reduced pending amount and the recomputed `paid`. */
    method UpdatePendingAmount(id: int, amount: Cents) returns (r: Result<Debt>)
      requires Valid()
      modifies this
      ensures Valid() && nextId == old(nextId)
      ensures id !in old(rows) ==> r == Err("Debt not found") && rows == old(rows)
      ensures id in old(rows) ==> r == Ok(AfterPayment(old(rows)[id], amount))
                                  && rows == old(rows)[id := r.value]
    {
      var debt := FindById(id);
      if debt.None? {
        return Err("Debt not found");
      }
      var newAmount := debt.value.pendingAmount - amount;
      var paid := newAmount <= 0;
      var updated := debt.value.(pendingAmount := newAmount, paid := paid);
      rows := rows[id := updated];
      r := Ok(updated);
    }
  }
}
