/** The transactions table and the repository over it. */
module TransactionRepository {
  import opened Common
  import opened Calendar
  import opened TransactionEntity
  import opened TransactionDto
  import opened TransactionQuery

  /** `Omit<ITransaction, "id" | "date">`: what `create` is given. */
  datatype NewTransaction = NewTransaction(
    userId: int,
    amount: Cents,
    txType: TxType,
    category: string,
    description: Option<string>,
    paymentMethodId: Option<int>,
    scheduledTransactionId: Option<int>,
    debtId: Option<int>)

  /** The fields of `Partial<ITransaction>` that `update` looks at; `None` is undefined, `Some(None)` null. */
  datatype TransactionPatch = TransactionPatch(
    amount: Option<Cents>,
    txType: Option<TxType>,
    category: Option<string>,
    description: Option<Option<string>>,
    paymentMethodId: Option<Option<int>>,
    scheduledTransactionId: Option<Option<int>>,
    debtId: Option<Option<int>>)

  const NoChange := TransactionPatch(None, None, None, None, None, None, None)

  /** The row `update` leaves behind: each defined field written; `id`, `userId` and `date` never. */
  function Patched(t: Transaction, p: TransactionPatch): (r: Transaction)
    ensures r.id == t.id && r.userId == t.userId && r.date == t.date
    ensures p.amount.Some? ==> r.amount == p.amount.value
    ensures p.amount.None? ==> r.amount == t.amount
    ensures p.txType.Some? ==> r.txType == p.txType.value
    ensures p.txType.None? ==> r.txType == t.txType
    ensures p.category.Some? ==> r.category == p.category.value
    ensures p.category.None? ==> r.category == t.category
    ensures p.description.Some? ==> r.description == p.description.value
    ensures p.description.None? ==> r.description == t.description
    ensures p.paymentMethodId.Some? ==> r.paymentMethodId == p.paymentMethodId.value
    ensures p.paymentMethodId.None? ==> r.paymentMethodId == t.paymentMethodId
    ensures p.scheduledTransactionId.Some? ==> r.scheduledTransactionId == p.scheduledTransactionId.value
    ensures p.scheduledTransactionId.None? ==> r.scheduledTransactionId == t.scheduledTransactionId
    ensures p.debtId.Some? ==> r.debtId == p.debtId.value
    ensures p.debtId.None? ==> r.debtId == t.debtId
  {
    Transaction(t.id, t.userId, p.amount.GetOr(t.amount), p.txType.GetOr(t.txType),
      p.category.GetOr(t.category), p.description.GetOr(t.description),
      p.paymentMethodId.GetOr(t.paymentMethodId), t.date,
      p.scheduledTransactionId.GetOr(t.scheduledTransactionId), p.debtId.GetOr(t.debtId))
  }

  lemma PatchNothing(t: Transaction)
    ensures Patched(t, NoChange) == t
  {
  }

  lemma PatchIdempotent(t: Transaction, p: TransactionPatch)
    ensures Patched(Patched(t, p), p) == Patched(t, p)
  {
  }

  predicate HasId(s: seq<Transaction>, id: int) {
    exists i | 0 <= i < |s| :: s[i].id == id
  }

  /** `WHERE id = $1` on a table whose ids are unique. */
  function RowWithId(s: seq<Transaction>, id: int): (r: Option<Transaction>)
    ensures r.Some? <==> HasId(s, id)
    ensures r.Some? ==> r.value in s && r.value.id == id
  {
    if s == [] then None
    else if s[0].id == id then Some(s[0])
    else
      var r := RowWithId(s[1..], id);
      assert HasId(s, id) ==> HasId(s[1..], id) by {
        if HasId(s, id) {
          var i :| 0 <= i < |s| && s[i].id == id;
          assert s[1..][i - 1] == s[i];
        }
      }
      assert HasId(s[1..], id) ==> HasId(s, id) by {
        if HasId(s[1..], id) {
          var i :| 0 <= i < |s[1..]| && s[1..][i].id == id;
          assert s[i + 1] == s[1..][i];
        }
      }
      r
  }

  /** `UPDATE ... WHERE id = $1`: the matching rows patched, every other row as it was. */
  function PatchWhere(s: seq<Transaction>, id: int, p: TransactionPatch): (r: seq<Transaction>)
    ensures |r| == |s|
    ensures forall i | 0 <= i < |s| :: r[i] == if s[i].id == id then Patched(s[i], p) else s[i]
  {
    seq(|s|, i requires 0 <= i < |s| => if s[i].id == id then Patched(s[i], p) else s[i])
  }

  /**
   * The row `create` inserts: the serial id, the date from the column default,
   * and every falsy optional stored as null.
   */
  function Stored(id: int, data: NewTransaction, now: Instant): (t: Transaction)
    ensures t.id == id && t.date == now
    ensures t.userId == data.userId && t.amount == data.amount && t.txType == data.txType && t.category == data.category
    ensures t.description == TextOrNull(data.description) && t.paymentMethodId == IdOrNull(data.paymentMethodId)
    ensures t.scheduledTransactionId == IdOrNull(data.scheduledTransactionId) && t.debtId == IdOrNull(data.debtId)
  {
    Transaction(id, data.userId, data.amount, data.txType, data.category,
      TextOrNull(data.description), IdOrNull(data.paymentMethodId), now,
      IdOrNull(data.scheduledTransactionId), IdOrNull(data.debtId))
  }

  /** No two rows share an id. */
  predicate UniqueIds(s: seq<Transaction>) {
    forall i, j | 0 <= i < j < |s| :: s[i].id != s[j].id
  }

  /** `DELETE ... WHERE id = $1`: the other rows, in their order. */
  function WithoutId(s: seq<Transaction>, id: int): (r: seq<Transaction>)
    ensures |r| <= |s|
    ensures forall t | t in r :: t in s && t.id != id
  {
    if s == [] then []
    else if s[0].id == id then WithoutId(s[1..], id)
    else [s[0]] + WithoutId(s[1..], id)
  }

  /** Deleting keeps every row with another id. */
  lemma {:induction false} WithoutIdKeeps(s: seq<Transaction>, id: int)
    ensures forall t | t in s && t.id != id :: t in WithoutId(s, id)
  {
    if s != [] {
      WithoutIdKeeps(s[1..], id);
      assert forall t | t in s :: t == s[0] || t in s[1..];
    }
  }

  /** Deleting removes a row exactly when some row has the id. */
  lemma {:induction false} WithoutIdShrinks(s: seq<Transaction>, id: int)
    ensures |WithoutId(s, id)| < |s| <==> HasId(s, id)
  {
    if s != [] {
      WithoutIdShrinks(s[1..], id);
      if HasId(s, id) && s[0].id != id {
        var i :| 0 <= i < |s| && s[i].id == id;
        assert s[1..][i - 1] == s[i];
      }
      if HasId(s[1..], id) {
        var i :| 0 <= i < |s[1..]| && s[1..][i].id == id;
        assert s[i + 1] == s[1..][i];
      }
    }
  }

  /** Deleting keeps the ids unique. */
  lemma {:induction false} WithoutIdUnique(s: seq<Transaction>, id: int)
    requires UniqueIds(s)
    ensures UniqueIds(WithoutId(s, id))
  {
    if s != [] {
      assert UniqueIds(s[1..]) by {
        forall i, j | 0 <= i < j < |s[1..]| ensures s[1..][i].id != s[1..][j].id {
          assert s[1..][i] == s[i + 1] && s[1..][j] == s[j + 1];
        }
      }
      WithoutIdUnique(s[1..], id);
      var rest := WithoutId(s[1..], id);
      if s[0].id != id {
        assert forall t | t in s[1..] :: t.id != s[0].id by {
          forall t | t in s[1..] ensures t.id != s[0].id {
            var k :| 0 <= k < |s[1..]| && s[1..][k] == t;
            assert s[k + 1] == t;
          }
        }
        var r := [s[0]] + rest;
        forall i, j | 0 <= i < j < |r| ensures r[i].id != r[j].id {
          if i == 0 {
            assert r[j] == rest[j - 1] && rest[j - 1] in rest;
          } else {
            assert r[i] == rest[i - 1] && r[j] == rest[j - 1];
          }
        }
      }
    }
  }

  /** The SET list of `update`, one defined field at a time. */
  method ApplyPatch(row: Transaction, patch: TransactionPatch) returns (t: Transaction)
    ensures t == Patched(row, patch)
  {
    t := row;
    if patch.amount.Some? {
      t := t.(amount := patch.amount.value);
    }
    if patch.txType.Some? {
      t := t.(txType := patch.txType.value);
    }
    if patch.category.Some? {
      t := t.(category := patch.category.value);
    }
    if patch.description.Some? {
      t := t.(description := patch.description.value);
    }
    if patch.paymentMethodId.Some? {
      t := t.(paymentMethodId := patch.paymentMethodId.value);
    }
    if patch.scheduledTransactionId.Some? {
      t := t.(scheduledTransactionId := patch.scheduledTransactionId.value);
    }
    if patch.debtId.Some? {
      t := t.(debtId := patch.debtId.value);
    }
  }

  class TransactionTable {
    /** The rows in insertion order. */
    var rows: seq<Transaction>
    /** The next value of the serial `id` column. */
    var nextId: int

    ghost predicate Valid()
      reads this
    {
      && 0 < nextId
      && (forall i | 0 <= i < |rows| :: 0 < rows[i].id < nextId)
      && UniqueIds(rows)
    }

    constructor ()
      ensures Valid() && rows == [] && nextId == 1
    {
      rows := [];
      nextId := 1;
    }

    function FindById(id: int): (r: Option<Transaction>)
      reads this
      ensures r.Some? <==> HasId(rows, id)
      ensures r.Some? ==> r.value in rows && r.value.id == id
    {
      RowWithId(rows, id)
    }

    /**
     * The user's rows that pass every truthy filter, ordered by date:
     * sorted, and each matching row exactly as often as the table holds it.
     */
    method FindByFilters(userId: int, f: TransactionFilters) returns (r: seq<Transaction>)
      ensures SortedByDate(r)
      ensures forall t | t in r :: t.userId == userId
      ensures forall t :: multiset(r)[t] == if MatchesFilters(userId, f, t) then multiset(rows)[t] else 0
    {
      var conditions := BuildConditions(userId, f);
      var selected := Where(rows, conditions);
      WhereCounts(rows, conditions);
      r := SortByDate(selected);
      forall t | t in r
        ensures t.userId == userId
      {
        assert t in multiset(r);
      }
    }

    /** INSERT ... RETURNING: a fresh id and the column defaults. */
    method Create(data: NewTransaction, now: Instant) returns (t: Transaction)
      requires Valid()
      modifies this
      ensures Valid()
      ensures t == Stored(old(nextId), data, now)
      ensures rows == old(rows) + [t] && nextId == old(nextId) + 1
    {
      t := Stored(nextId, data, now);
      rows := rows + [t];
      nextId := nextId + 1;
    }

    /** Builds the SET list field by field; an unknown id matches no row and the mapping throws. */
    method Update(id: int, patch: TransactionPatch) returns (r: Result<Transaction>)
      requires Valid()
      modifies this
      ensures Valid() && nextId == old(nextId)
      ensures HasId(old(rows), id) ==> r == Ok(Patched(RowWithId(old(rows), id).value, patch))
      ensures !HasId(old(rows), id) ==> r == Err(UndefinedRow) && rows == old(rows)
      ensures rows == PatchWhere(old(rows), id, patch)
    {
      var found := FindById(id);
      if found.None? {
        assert PatchWhere(rows, id, patch) == rows;
        return Err(UndefinedRow);
      }
      var t := ApplyPatch(found.value, patch);
      rows := PatchWhere(rows, id, patch);
      r := Ok(t);
    }

    method Delete(id: int) returns (deleted: bool)
      requires Valid()
      modifies this
      ensures Valid() && nextId == old(nextId)
      ensures deleted <==> HasId(old(rows), id)
      ensures rows == WithoutId(old(rows), id)
    {
      deleted := HasId(rows, id);
      WithoutIdUnique(rows, id);
      rows := WithoutId(rows, id);
    }

    /** The user's rows whose date lies BETWEEN `lo` and `hi`, both inclusive, each as often as the table holds it. */
    function InRange(userId: int, lo: Instant, hi: Instant): (r: seq<Transaction>)
      reads this
      ensures forall t :: t in r <==> t in rows && t.userId == userId && lo <= t.date <= hi
      ensures forall t :: multiset(r)[t] == if t.userId == userId && lo <= t.date <= hi then multiset(rows)[t] else 0
    {
      var cs := [UserIs(userId), DateBetween(lo, hi)];
      var r := Where(rows, cs);
      WhereCounts(rows, cs);
      assert forall t :: HoldsAll(cs, t) <==> t.userId == userId && lo <= t.date <= hi by {
        forall t
          ensures HoldsAll(cs, t) <==> t.userId == userId && lo <= t.date <= hi
        {
          HoldsSingle(UserIs(userId), t);
          assert Holds(cs[0], t) && Holds(cs[1], t) ==> HoldsAll(cs, t);
        }
      }
      assert forall t :: t in r <==> multiset(r)[t] > 0;
      r
    }

    /** Income and expense totals of the user's rows dated in the month, and their difference. */
    method GetMonthlyBalance(userId: int, month: Date) returns (totals: Totals)
      ensures totals.totalIncome == Total(OfType(MonthlyRows(userId, month), Income))
      ensures totals.totalExpense == Total(OfType(MonthlyRows(userId, month), Expense))
      ensures totals.totalIncome + totals.totalExpense == Total(MonthlyRows(userId, month))
      ensures totals.balance == totals.totalIncome - totals.totalExpense
    {
      var selected := MonthlyRows(userId, month);
      var groups := GroupByType(selected);
      totals := FoldTotals(groups);
      FoldIsOrderFree(groups, selected, Income);
      FoldIsOrderFree(groups, selected, Expense);
      TypesPartition(selected);
    }

    /** The month's rows as `getMonthlyBalance` selects them as written: BETWEEN the first and the last day's midnights. */
    function MonthlyRowsAsWritten(userId: int, month: Date): (r: seq<Transaction>)
      reads this
      ensures forall t | t in r :: InMonth(t.date, month)
    {
      InRange(userId, MonthMidnights(month).0, MonthMidnights(month).1)
    }

    /** The month's rows as intended: exactly the user's rows dated in the month. */
    function MonthlyRows(userId: int, month: Date): (r: seq<Transaction>)
      reads this
      ensures forall t :: t in r <==> t in rows && t.userId == userId && InMonth(t.date, month)
    {
      InRange(userId, MonthSpan(month).0, MonthSpan(month).1)
    }

    /** A row dated one millisecond after the last day's midnight belongs to the month yet escapes the as-written balance. */
    lemma LastDayEscapesMonthlyBalance(userId: int, month: Date, t: Transaction)
      requires t in rows && t.userId == userId && t.date == MonthMidnights(month).1 + 1
      ensures t !in MonthlyRowsAsWritten(userId, month)
      ensures t in MonthlyRows(userId, month)
    {
      MidnightsMissTheLastDay(month);
    }

    /** One entry per category of the user's rows in [startDate, endDate], with that category's sum. */
    function GetCategoryTotals(userId: int, startDate: Instant, endDate: Instant): (r: seq<CategoryTotal>)
      reads this
      ensures forall i, j | 0 <= i < j < |r| :: r[i].category != r[j].category
      ensures forall c :: HasCategory(InRange(userId, startDate, endDate), c) <==> exists i | 0 <= i < |r| :: r[i].category == c
      ensures forall i | 0 <= i < |r| :: r[i].total == Total(OfCategory(InRange(userId, startDate, endDate), r[i].category))
      ensures SumOfTotals(r) == Total(InRange(userId, startDate, endDate))
    {
      var selected := InRange(userId, startDate, endDate);
      CategoryTotalsConserve(selected);
      CategoryTotals(selected)
    }
  }
}
