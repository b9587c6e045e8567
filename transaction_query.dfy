/**
 * The query semantics behind the transaction repository: the WHERE conditions
 * `findByFilters` assembles, filtering, ordering by date, and the sums that
 * `getMonthlyBalance` and `getCategoryTotals` group.
 */
module TransactionQuery {
  import opened Common
  import opened TransactionEntity
  import opened TransactionDto

  /** One entry of the `conditions` array. */
  datatype Condition =
    | UserIs(userId: int)
    | DateBetween(lo: Instant, hi: Instant)
    | DateFrom(lo: Instant)
    | DateUntil(hi: Instant)
    | TypeIs(txType: TxType)
    | CategoryIs(category: string)
    | PaymentMethodIs(paymentMethodId: int)
    | AmountAtLeast(min: Cents)
    | AmountAtMost(max: Cents)

  /** SQL truth of one condition; `payment_method_id = x` is never true of a NULL column. */
  predicate Holds(c: Condition, t: Transaction) {
    match c
    case UserIs(u) => t.userId == u
    case DateBetween(lo, hi) => lo <= t.date <= hi
    case DateFrom(lo) => lo <= t.date
    case DateUntil(hi) => t.date <= hi
    case TypeIs(ty) => t.txType == ty
    case CategoryIs(cat) => t.category == cat
    case PaymentMethodIs(pm) => t.paymentMethodId == Some(pm)
    case AmountAtLeast(min) => t.amount >= min
    case AmountAtMost(max) => t.amount <= max
  }

  /** `and(...conditions)` */
  predicate HoldsAll(cs: seq<Condition>, t: Transaction) {
    forall i | 0 <= i < |cs| :: Holds(cs[i], t)
  }

  /** A numeric filter is applied only when truthy: undefined and 0 are skipped. */
  predicate TruthyAmount(x: Option<Cents>) {
    x.Some? && x.value != 0
  }

  /**
   * What the filters mean, one clause per filter: the user always, each date
   * bound on its own (inclusive), and every other filter only when truthy.
   */
  predicate MatchesFilters(userId: int, f: TransactionFilters, t: Transaction) {
    && t.userId == userId
    && (f.startDate.Some? ==> f.startDate.value <= t.date)
    && (f.endDate.Some? ==> t.date <= f.endDate.value)
    && (f.txType.Some? ==> t.txType == f.txType.value)
    && (TruthyText(f.category) ==> t.category == f.category.value)
    && (TruthyId(f.payment_method_id) ==> t.paymentMethodId == f.payment_method_id)
    && (TruthyAmount(f.min_amount) ==> t.amount >= f.min_amount.value)
    && (TruthyAmount(f.max_amount) ==> t.amount <= f.max_amount.value)
  }

  lemma HoldsSingle(c: Condition, t: Transaction)
    ensures HoldsAll([c], t) <==> Holds(c, t)
  {
    assert [c][0] == c;
  }

  lemma HoldsAllAppend(cs: seq<Condition>, c: Condition, t: Transaction)
    ensures HoldsAll(cs + [c], t) <==> HoldsAll(cs, t) && Holds(c, t)
  {
    if HoldsAll(cs, t) && Holds(c, t) {
      forall i | 0 <= i < |cs + [c]|
        ensures Holds((cs + [c])[i], t)
      {
        if i < |cs| {
          assert (cs + [c])[i] == cs[i];
        }
      }
    }
    if HoldsAll(cs + [c], t) {
      assert Holds((cs + [c])[|cs|], t);
      forall i | 0 <= i < |cs|
        ensures Holds(cs[i], t)
      {
        assert (cs + [c])[i] == cs[i];
      }
    }
  }

  /** The filter whose condition `findByFilters` pushes at step `stage` (0 is the user). */
  predicate FilterClause(stage: nat, userId: int, f: TransactionFilters, t: Transaction) {
    if stage == 0 then t.userId == userId
    else if stage == 1 then
      && (f.startDate.Some? ==> f.startDate.value <= t.date)
      && (f.endDate.Some? ==> t.date <= f.endDate.value)
    else if stage == 2 then f.txType.Some? ==> t.txType == f.txType.value
    else if stage == 3 then TruthyText(f.category) ==> t.category == f.category.value
    else if stage == 4 then TruthyId(f.payment_method_id) ==> t.paymentMethodId == f.payment_method_id
    else if stage == 5 then TruthyAmount(f.min_amount) ==> t.amount >= f.min_amount.value
    else TruthyAmount(f.max_amount) ==> t.amount <= f.max_amount.value
  }

  /** The filters applied once the conditions of steps 0 to `stage` are pushed. */
  predicate MatchesUpTo(stage: nat, userId: int, f: TransactionFilters, t: Transaction) {
    FilterClause(stage, userId, f, t) && (stage > 0 ==> MatchesUpTo(stage - 1, userId, f, t))
  }

  lemma MatchesUpToAll(userId: int, f: TransactionFilters, t: Transaction)
    ensures MatchesUpTo(6, userId, f, t) <==> MatchesFilters(userId, f, t)
  {
    assert MatchesUpTo(6, userId, f, t) <==> MatchesUpTo(5, userId, f, t) && FilterClause(6, userId, f, t);
    assert MatchesUpTo(5, userId, f, t) <==> MatchesUpTo(4, userId, f, t) && FilterClause(5, userId, f, t);
    assert MatchesUpTo(4, userId, f, t) <==> MatchesUpTo(3, userId, f, t) && FilterClause(4, userId, f, t);
    assert MatchesUpTo(3, userId, f, t) <==> MatchesUpTo(2, userId, f, t) && FilterClause(3, userId, f, t);
    assert MatchesUpTo(2, userId, f, t) <==> MatchesUpTo(1, userId, f, t) && FilterClause(2, userId, f, t);
    assert MatchesUpTo(1, userId, f, t) <==> MatchesUpTo(0, userId, f, t) && FilterClause(1, userId, f, t);
  }

  /** The if / else-if chain of `findByFilters`, pushing one condition per applied filter. */
  method BuildConditions(userId: int, f: TransactionFilters) returns (cs: seq<Condition>)
    ensures |cs| >= 1 && cs[0] == UserIs(userId)
    ensures forall t :: HoldsAll(cs, t) <==> MatchesFilters(userId, f, t)
  {
    cs := [UserIs(userId)];
    ghost var stage: nat := 0;
    forall t
      ensures HoldsAll(cs, t) <==> MatchesUpTo(stage, userId, f, t)
    {
      HoldsSingle(UserIs(userId), t);
    }

    cs := PushDateBounds(cs, userId, f);
    stage := stage + 1;

    if f.txType.Some? {
      cs := Push(cs, TypeIs(f.txType.value));
    }
    stage := stage + 1;
    assert forall t :: HoldsAll(cs, t) <==> MatchesUpTo(stage, userId, f, t);

    if TruthyText(f.category) {
      cs := Push(cs, CategoryIs(f.category.value));
    }
    stage := stage + 1;
    assert forall t :: HoldsAll(cs, t) <==> MatchesUpTo(stage, userId, f, t);

    if TruthyId(f.payment_method_id) {
      cs := Push(cs, PaymentMethodIs(f.payment_method_id.value));
    }
    stage := stage + 1;
    assert forall t :: HoldsAll(cs, t) <==> MatchesUpTo(stage, userId, f, t);

    if TruthyAmount(f.min_amount) {
      cs := Push(cs, AmountAtLeast(f.min_amount.value));
    }
    stage := stage + 1;
    assert forall t :: HoldsAll(cs, t) <==> MatchesUpTo(stage, userId, f, t);

    if TruthyAmount(f.max_amount) {
      cs := Push(cs, AmountAtMost(f.max_amount.value));
    }
    stage := stage + 1;
    assert forall t :: HoldsAll(cs, t) <==> MatchesUpTo(stage, userId, f, t);
    forall t
      ensures MatchesUpTo(6, userId, f, t) <==> MatchesFilters(userId, f, t)
    {
      MatchesUpToAll(userId, f, t);
    }
  }

  /** The date part: an inclusive BETWEEN when both bounds are given, otherwise the one bound given. */
  method PushDateBounds(cs: seq<Condition>, ghost userId: int, f: TransactionFilters) returns (r: seq<Condition>)
    requires |cs| >= 1
    requires forall t :: HoldsAll(cs, t) <==> MatchesUpTo(0, userId, f, t)
    ensures |r| >= 1 && r[0] == cs[0]
    ensures forall t :: HoldsAll(r, t) <==> MatchesUpTo(1, userId, f, t)
  {
    r := cs;
    if f.startDate.Some? && f.endDate.Some? {
      r := Push(r, DateBetween(f.startDate.value, f.endDate.value));
    } else if f.startDate.Some? {
      r := Push(r, DateFrom(f.startDate.value));
    } else if f.endDate.Some? {
      r := Push(r, DateUntil(f.endDate.value));
    }
  }

  /** `conditions.push(c)` */
  function Push(cs: seq<Condition>, c: Condition): (r: seq<Condition>)
    requires |cs| >= 1
    ensures |r| == |cs| + 1 && r[0] == cs[0]
    ensures forall t :: HoldsAll(r, t) <==> HoldsAll(cs, t) && Holds(c, t)
  {
    forall t
      ensures HoldsAll(cs + [c], t) <==> HoldsAll(cs, t) && Holds(c, t)
    {
      HoldsAllAppend(cs, c, t);
    }
    cs + [c]
  }

  // ----- Filtering and sums -----

  /** The rows satisfying every condition, in table order. */
  function Where(rows: seq<Transaction>, cs: seq<Condition>): (r: seq<Transaction>)
    ensures |r| <= |rows|
    ensures forall t | t in r :: t in rows && HoldsAll(cs, t)
  {
    if rows == [] then []
    else (if HoldsAll(cs, rows[0]) then [rows[0]] else []) + Where(rows[1..], cs)
  }

  /** `Where` keeps every satisfying row as often as the table holds it, and nothing else. */
  lemma {:induction false} WhereCounts(rows: seq<Transaction>, cs: seq<Condition>)
    ensures forall t :: multiset(Where(rows, cs))[t] == if HoldsAll(cs, t) then multiset(rows)[t] else 0
  {
    if rows != [] {
      WhereCounts(rows[1..], cs);
      assert rows == [rows[0]] + rows[1..];
    }
  }

  /** `sum(amount)` */
  function Total(rows: seq<Transaction>): Cents {
    if rows == [] then 0 else rows[0].amount + Total(rows[1..])
  }

  lemma {:induction false} TotalAppend(a: seq<Transaction>, b: seq<Transaction>)
    ensures Total(a + b) == Total(a) + Total(b)
  {
    if a == [] {
      assert a + b == b;
    } else {
      assert (a + b)[1..] == a[1..] + b;
      TotalAppend(a[1..], b);
    }
  }

  function OfType(rows: seq<Transaction>, ty: TxType): seq<Transaction> {
    Where(rows, [TypeIs(ty)])
  }

  function OfCategory(rows: seq<Transaction>, category: string): seq<Transaction> {
    Where(rows, [CategoryIs(category)])
  }

  /** Every row is an income or an expense, so the two groups together total the whole. */
  lemma {:induction false} TypesPartition(rows: seq<Transaction>)
    ensures Total(OfType(rows, Income)) + Total(OfType(rows, Expense)) == Total(rows)
  {
    if rows != [] {
      TypesPartition(rows[1..]);
      HoldsSingle(TypeIs(Income), rows[0]);
      HoldsSingle(TypeIs(Expense), rows[0]);
      var i0: seq<Transaction> := if rows[0].txType == Income then [rows[0]] else [];
      var e0: seq<Transaction> := if rows[0].txType == Expense then [rows[0]] else [];
      assert OfType(rows, Income) == i0 + OfType(rows[1..], Income);
      assert OfType(rows, Expense) == e0 + OfType(rows[1..], Expense);
      TotalAppend(i0, OfType(rows[1..], Income));
      TotalAppend(e0, OfType(rows[1..], Expense));
    }
  }

  // ----- ORDER BY date -----

  predicate SortedByDate(s: seq<Transaction>) {
    forall i, j | 0 <= i < j < |s| :: s[i].date <= s[j].date
  }

  lemma HeadIsLeast(s: seq<Transaction>)
    requires SortedByDate(s) && |s| > 0
    ensures forall y | y in s :: s[0].date <= y.date
  {
    forall y | y in s
      ensures s[0].date <= y.date
    {
      var i :| 0 <= i < |s| && s[i] == y;
    }
  }

  lemma ConsSorted(x: Transaction, s: seq<Transaction>)
    requires SortedByDate(s)
    requires forall y | y in s :: x.date <= y.date
    ensures SortedByDate([x] + s)
  {
    var r := [x] + s;
    forall i, j | 0 <= i < j < |r|
      ensures r[i].date <= r[j].date
    {
      assert r[j] == s[j - 1];
      if i > 0 {
        assert r[i] == s[i - 1];
      } else {
        assert s[j - 1] in s;
      }
    }
  }

  function Insert(t: Transaction, s: seq<Transaction>): (r: seq<Transaction>)
    requires SortedByDate(s)
    ensures SortedByDate(r)
    ensures multiset(r) == multiset(s) + multiset{t}
  {
    if s == [] then [t]
    else if t.date <= s[0].date then
      HeadIsLeast(s);
      ConsSorted(t, s);
      [t] + s
    else
      assert s == [s[0]] + s[1..];
      var rest := Insert(t, s[1..]);
      HeadIsLeast(s);
      forall y | y in rest
        ensures s[0].date <= y.date
      {
        assert y in multiset(rest);
        assert y == t || y in multiset(s[1..]);
      }
      ConsSorted(s[0], rest);
      [s[0]] + rest
  }

  /** An insertion sort on date: sorted, and the same rows with the same multiplicities. */
  function SortByDate(s: seq<Transaction>): (r: seq<Transaction>)
    ensures SortedByDate(r)
    ensures multiset(r) == multiset(s)
  {
    if s == [] then []
    else
      assert s == [s[0]] + s[1..];
      Insert(s[0], SortByDate(s[1..]))
  }

  // ----- GROUP BY type: the monthly balance -----

  datatype TypeGroup = TypeGroup(txType: TxType, total: Cents)

  /** The figures `getMonthlyBalance` returns. */
  datatype Totals = Totals(totalIncome: Cents, totalExpense: Cents, balance: Cents)

  /** A group for `ty` exists iff some row has that type. */
  predicate HasType(rows: seq<Transaction>, ty: TxType) {
    OfType(rows, ty) != []
  }

  predicate HasGroup(groups: seq<TypeGroup>, ty: TxType) {
    exists i | 0 <= i < |groups| :: groups[i].txType == ty
  }

  /**
   * What `SELECT type, sum(amount) ... GROUP BY type` may return, in any order:
   * one group per type present, each with the sum of its rows.
   */
  predicate IsTypeGrouping(groups: seq<TypeGroup>, rows: seq<Transaction>) {
    && (forall i, j | 0 <= i < j < |groups| :: groups[i].txType != groups[j].txType)
    && (forall i | 0 <= i < |groups| :: groups[i].total == Total(OfType(rows, groups[i].txType)))
    && (HasGroup(groups, Income) <==> HasType(rows, Income))
    && (HasGroup(groups, Expense) <==> HasType(rows, Expense))
  }

  /** One grouping the database may produce. */
  function GroupByType(rows: seq<Transaction>): (r: seq<TypeGroup>)
    ensures IsTypeGrouping(r, rows)
  {
    var income := TypeGroup(Income, Total(OfType(rows, Income)));
    var expense := TypeGroup(Expense, Total(OfType(rows, Expense)));
    if HasType(rows, Income) && HasType(rows, Expense) then
      assert [income, expense][0].txType == Income && [income, expense][1].txType == Expense;
      [income, expense]
    else if HasType(rows, Income) then
      assert [income][0].txType == Income;
      [income]
    else if HasType(rows, Expense) then
      assert [expense][0].txType == Expense;
      [expense]
    else
      []
  }

  /**
   * The value the `forEach` leaves in the field of type `ty`: the total of the
   * last group that writes it (INCOME writes income, any other type expense), 0 if none does.
   */
  function LastTotal(groups: seq<TypeGroup>, ty: TxType): Cents {
    if groups == [] then 0
    else if groups[|groups| - 1].txType == ty then groups[|groups| - 1].total
    else LastTotal(groups[..|groups| - 1], ty)
  }

  /** The `forEach` over the grouped rows, then the balance. */
  method FoldTotals(groups: seq<TypeGroup>) returns (totals: Totals)
    ensures totals.totalIncome == LastTotal(groups, Income)
    ensures totals.totalExpense == LastTotal(groups, Expense)
    ensures totals.balance == totals.totalIncome - totals.totalExpense
  {
    totals := Totals(0, 0, 0);
    var i := 0;
    while i < |groups|
      invariant 0 <= i <= |groups|
      invariant totals.totalIncome == LastTotal(groups[..i], Income)
      invariant totals.totalExpense == LastTotal(groups[..i], Expense)
    {
      var row := groups[i];
      assert groups[..i + 1][..i] == groups[..i];
      if row.txType == Income {
        totals := totals.(totalIncome := row.total);
      } else {
        totals := totals.(totalExpense := row.total);
      }
      i := i + 1;
    }
    assert groups[..i] == groups;
    totals := totals.(balance := totals.totalIncome - totals.totalExpense);
  }

  lemma {:induction false} LastTotalOfUnique(groups: seq<TypeGroup>, ty: TxType, i: int)
    requires forall a, b | 0 <= a < b < |groups| :: groups[a].txType != groups[b].txType
    requires 0 <= i < |groups| && groups[i].txType == ty
    ensures LastTotal(groups, ty) == groups[i].total
  {
    var last := |groups| - 1;
    if i < last {
      assert groups[last].txType != ty;
      var init := groups[..last];
      assert init[i] == groups[i];
      LastTotalOfUnique(init, ty, i);
    }
  }

  lemma {:induction false} LastTotalOfAbsent(groups: seq<TypeGroup>, ty: TxType)
    requires !HasGroup(groups, ty)
    ensures LastTotal(groups, ty) == 0
  {
    if groups != [] {
      var init := groups[..|groups| - 1];
      assert !HasGroup(init, ty) by {
        forall i | 0 <= i < |init|
          ensures init[i].txType != ty
        {
          assert init[i] == groups[i];
        }
      }
      LastTotalOfAbsent(init, ty);
    }
  }

  /** Whatever order the groups come in, the fold yields the per-type sums; an absent type yields 0. */
  lemma FoldIsOrderFree(groups: seq<TypeGroup>, rows: seq<Transaction>, ty: TxType)
    requires IsTypeGrouping(groups, rows)
    ensures LastTotal(groups, ty) == Total(OfType(rows, ty))
  {
    if HasGroup(groups, ty) {
      var i :| 0 <= i < |groups| && groups[i].txType == ty;
      LastTotalOfUnique(groups, ty, i);
    } else {
      LastTotalOfAbsent(groups, ty);
    }
  }

  // ----- GROUP BY category: the category totals -----

  datatype CategoryTotal = CategoryTotal(category: string, total: Cents)

  predicate HasCategory(rows: seq<Transaction>, c: string) {
    exists t | t in rows :: t.category == c
  }

  /** The distinct categories of `rows`. */
  function Categories(rows: seq<Transaction>): (r: seq<string>)
    ensures Distinct(r)
    ensures forall c :: c in r <==> HasCategory(rows, c)
  {
    if rows == [] then []
    else
      var rest := Categories(rows[1..]);
      assert forall t | t in rows :: t == rows[0] || t in rows[1..];
      if rows[0].category in rest then rest
      else
        assert forall j | 0 <= j < |rest| :: ([rows[0].category] + rest)[j + 1] == rest[j];
        [rows[0].category] + rest
  }

  /** One entry per listed category with the sum of its rows. */
  function TotalsFor(cats: seq<string>, rows: seq<Transaction>): (r: seq<CategoryTotal>)
    ensures |r| == |cats|
    ensures forall i | 0 <= i < |r| :: r[i] == CategoryTotal(cats[i], Total(OfCategory(rows, cats[i])))
  {
    if cats == [] then []
    else [CategoryTotal(cats[0], Total(OfCategory(rows, cats[0])))] + TotalsFor(cats[1..], rows)
  }

  /** `SELECT category, sum(amount) ... GROUP BY category` over the selected rows. */
  function CategoryTotals(rows: seq<Transaction>): (r: seq<CategoryTotal>)
    ensures forall i, j | 0 <= i < j < |r| :: r[i].category != r[j].category
    ensures forall c :: HasCategory(rows, c) <==> exists i | 0 <= i < |r| :: r[i].category == c
    ensures forall i | 0 <= i < |r| :: r[i].total == Total(OfCategory(rows, r[i].category))
  {
    var cats := Categories(rows);
    var r := TotalsFor(cats, rows);
    assert forall c :: c in cats <==> exists i | 0 <= i < |r| :: r[i].category == c by {
      forall c
        ensures c in cats <==> exists i | 0 <= i < |r| :: r[i].category == c
      {
        if c in cats {
          var i :| 0 <= i < |cats| && cats[i] == c;
          assert r[i].category == c;
        }
      }
    }
    r
  }

  function SumOfTotals(r: seq<CategoryTotal>): Cents {
    if r == [] then 0 else r[0].total + SumOfTotals(r[1..])
  }

  function SumOverCategories(cats: seq<string>, rows: seq<Transaction>): Cents {
    if cats == [] then 0 else Total(OfCategory(rows, cats[0])) + SumOverCategories(cats[1..], rows)
  }

  lemma OfCategoryCons(t: Transaction, rest: seq<Transaction>, c: string)
    ensures OfCategory([t] + rest, c) == (if t.category == c then [t] else []) + OfCategory(rest, c)
  {
    assert ([t] + rest)[0] == t && ([t] + rest)[1..] == rest;
    HoldsSingle(CategoryIs(c), t);
  }

  lemma {:induction false} SumOverCategoriesCons(cats: seq<string>, t: Transaction, rest: seq<Transaction>)
    requires Distinct(cats)
    ensures SumOverCategories(cats, [t] + rest)
         == SumOverCategories(cats, rest) + (if t.category in cats then t.amount else 0)
  {
    if cats != [] {
      var tail := cats[1..];
      assert Distinct(tail) by {
        forall i, j | 0 <= i < j < |tail|
          ensures tail[i] != tail[j]
        {
          assert tail[i] == cats[i + 1] && tail[j] == cats[j + 1];
        }
      }
      SumOverCategoriesCons(tail, t, rest);
      OfCategoryCons(t, rest, cats[0]);
      var head: seq<Transaction> := if t.category == cats[0] then [t] else [];
      TotalAppend(head, OfCategory(rest, cats[0]));
      assert cats == [cats[0]] + tail;
      if t.category == cats[0] {
        assert t.category !in tail by {
          forall j | 0 <= j < |tail|
            ensures tail[j] != cats[0]
          {
            assert tail[j] == cats[j + 1];
          }
        }
      }
    }
  }

  /** Summing per category over categories that cover every row, each once, gives the overall total. */
  lemma {:induction false} SumOverCategoriesIsTotal(cats: seq<string>, rows: seq<Transaction>)
    requires Distinct(cats)
    requires forall t | t in rows :: t.category in cats
    ensures SumOverCategories(cats, rows) == Total(rows)
  {
    if rows == [] {
      SumOverNoRows(cats);
    } else {
      assert rows == [rows[0]] + rows[1..];
      SumOverCategoriesIsTotal(cats, rows[1..]);
      SumOverCategoriesCons(cats, rows[0], rows[1..]);
    }
  }

  lemma {:induction false} SumOverNoRows(cats: seq<string>)
    ensures SumOverCategories(cats, []) == 0
  {
    if cats != [] {
      SumOverNoRows(cats[1..]);
    }
  }

  lemma {:induction false} SumOfTotalsFor(cats: seq<string>, rows: seq<Transaction>)
    ensures SumOfTotals(TotalsFor(cats, rows)) == SumOverCategories(cats, rows)
  {
    if cats != [] {
      SumOfTotalsFor(cats[1..], rows);
    }
  }

  /** The category totals add up to the total of all the selected rows: no row is lost or counted twice. */
  lemma CategoryTotalsConserve(rows: seq<Transaction>)
    ensures SumOfTotals(CategoryTotals(rows)) == Total(rows)
  {
    var cats := Categories(rows);
    SumOfTotalsFor(cats, rows);
    assert forall t | t in rows :: HasCategory(rows, t.category);
    SumOverCategoriesIsTotal(cats, rows);
  }
}
