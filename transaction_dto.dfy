/**
 * The zod schemas of transaction requests: which bodies the create and update
 * endpoints accept, and the shape of the list filters.
 */
module TransactionDto {
  import opened Common
  import opened TransactionEntity

  const IncomeCategories: seq<string> :=
    ["SALARY", "INVESTMENT", "BUSINESS", "FREELANCE", "GIFT", "OTHER_INCOME"]

  const ExpenseCategories: seq<string> :=
    ["FOOD", "TRANSPORT", "UTILITIES", "ENTERTAINMENT", "HEALTHCARE",
     "EDUCATION", "SHOPPING", "HOUSING", "OTHER_EXPENSE"]

  const TransactionTypes: seq<string> := ["INCOME", "EXPENSE"]

  predicate Distinct(s: seq<string>) {
    forall i, j | 0 <= i < j < |s| :: s[i] != s[j]
  }

  /**
   * A create body once zod has checked every field's JSON type.
   * The schema omits `id` and `date`, so a body has no such fields.
   */
  datatype CreateTransactionInput = CreateTransactionInput(
    user_id: int,
    txType: string,
    category: string,
    amount: Cents,
    description: Option<string>,
    payment_method_id: Option<int>,
    scheduled_transaction_id: Option<int>,
    debt_id: Option<int>)

  /** The refinement: the category must be listed for the transaction's type. */
  predicate CategoryFitsType(txType: string, category: string) {
    if txType == "INCOME" then category in IncomeCategories else category in ExpenseCategories
  }

  predicate ValidCreate(i: CreateTransactionInput) {
    && i.txType in TransactionTypes
    && i.amount > 0
    && CategoryFitsType(i.txType, i.category)
  }

  /**
   * An update body: every field optional, the nullable ones absent (None),
   * null (Some(None)) or set. The schema also omits `user_id`.
   */
  datatype UpdateTransactionInput = UpdateTransactionInput(
    txType: Option<string>,
    category: Option<string>,
    amount: Option<Cents>,
    description: Option<Option<string>>,
    payment_method_id: Option<Option<int>>,
    scheduled_transaction_id: Option<Option<int>>,
    debt_id: Option<Option<int>>)

  /** The category is checked against the type only when both are given (and truthy). */
  predicate ValidUpdate(i: UpdateTransactionInput) {
    && (i.txType.Some? ==> i.txType.value in TransactionTypes)
    && (i.amount.Some? ==> i.amount.value > 0)
    && (i.txType.Some? && TruthyText(i.category) ==> CategoryFitsType(i.txType.value, i.category.value))
  }

  /**
   * The list filters. `min_amount` and `max_amount` arrive as strings and are
   * converted to numbers; here they are the converted amounts.
   */
  datatype TransactionFilters = TransactionFilters(
    startDate: Option<Instant>,
    endDate: Option<Instant>,
    txType: Option<TxType>,
    category: Option<string>,
    payment_method_id: Option<int>,
    min_amount: Option<Cents>,
    max_amount: Option<Cents>)

  /** An optional create field as an update field: absent stays absent. */
  function Given<T>(x: Option<T>): Option<Option<T>> {
    if x.Some? then Some(x) else None
  }

  /** The same body seen by the update schema. */
  function AsUpdate(i: CreateTransactionInput): UpdateTransactionInput {
    UpdateTransactionInput(Some(i.txType), Some(i.category), Some(i.amount),
      Given(i.description), Given(i.payment_method_id),
      Given(i.scheduled_transaction_id), Given(i.debt_id))
  }

  lemma CategoryListsAreExact()
    ensures |IncomeCategories| == 6 && Distinct(IncomeCategories)
    ensures |ExpenseCategories| == 9 && Distinct(ExpenseCategories)
  {
  }

  /** No category is listed for both types, so an accepted category fixes the type. */
  lemma CategoryDeterminesType(i: CreateTransactionInput, j: CreateTransactionInput)
    requires ValidCreate(i) && ValidCreate(j) && i.category == j.category
    ensures i.txType == j.txType
  {
  }

  /**
   * The create schema accepts exactly the positive bodies whose category is
   * listed somewhere and whose type is the one that list belongs to.
   */
  lemma CreateAcceptance(i: CreateTransactionInput)
    ensures ValidCreate(i) <==>
      && i.amount > 0
      && i.category in IncomeCategories + ExpenseCategories
      && i.txType == (if i.category in IncomeCategories then "INCOME" else "EXPENSE")
  {
    assert forall c | c in ExpenseCategories :: c !in IncomeCategories;
  }

  lemma IncomeFoodRejected(i: CreateTransactionInput)
    requires i.txType == "INCOME" && i.category == "FOOD"
    ensures !ValidCreate(i)
  {
  }

  /** Every body the create schema accepts is also a valid update. */
  lemma CreateIsStricterThanUpdate(i: CreateTransactionInput)
    requires ValidCreate(i)
    ensures ValidUpdate(AsUpdate(i))
  {
  }

  /** Without a type, or without a category, the update refinement passes. */
  lemma UpdateRefinementNeedsBoth(i: UpdateTransactionInput)
    requires i.txType.None? || !TruthyText(i.category)
    requires i.txType.Some? ==> i.txType.value in TransactionTypes
    requires i.amount.Some? ==> i.amount.value > 0
    ensures ValidUpdate(i)
  {
  }
}
