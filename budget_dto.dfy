/** The zod schemas of budget requests. */
module BudgetDto {
  import opened Common

  const BudgetCategories: seq<string> :=
    ["FOOD", "TRANSPORT", "UTILITIES", "ENTERTAINMENT", "HEALTHCARE",
     "EDUCATION", "SHOPPING", "HOUSING", "OTHER"]

  /**
   * A create body after the JSON type checks. `month` is the instant its
   * `z.string().datetime()` text denotes; the schema omits `id`.
   */
  datatype CreateBudgetInput = CreateBudgetInput(
    user_id: int,
    category: string,
    limit_amount: Cents,
    current_amount: Option<Cents>,
    month: Instant,
    shared_user_id: Option<int>)

  predicate ValidCreate(i: CreateBudgetInput) {
    && i.category in BudgetCategories
    && i.limit_amount > 0
    && (i.current_amount.Some? ==> i.current_amount.value >= 0)
  }

  /**
   * An update body: every field optional and `id`, `user_id` omitted.
   * `shared_user_id` is also nullable: `Some(None)` is an explicit null.
   */
  datatype UpdateBudgetInput = UpdateBudgetInput(
    category: Option<string>,
    limit_amount: Option<Cents>,
    current_amount: Option<Cents>,
    month: Option<Instant>,
    shared_user_id: Option<Option<int>>)

  predicate ValidUpdate(i: UpdateBudgetInput) {
    && (i.category.Some? ==> i.category.value in BudgetCategories)
    && (i.limit_amount.Some? ==> i.limit_amount.value > 0)
    && (i.current_amount.Some? ==> i.current_amount.value >= 0)
  }

  /** `updateAmountSchema`: any number at all. */
  predicate ValidAmountUpdate(amount: Cents) {
    true
  }

  function AsUpdate(i: CreateBudgetInput): UpdateBudgetInput {
    UpdateBudgetInput(Some(i.category), Some(i.limit_amount), i.current_amount, Some(i.month),
      if i.shared_user_id.Some? then Some(i.shared_user_id) else None)
  }

  /** Every field of a valid create body passes the update schema as well. */
  lemma CreateIsStricterThanUpdate(i: CreateBudgetInput)
    requires ValidCreate(i)
    ensures ValidUpdate(AsUpdate(i))
  {
  }

  /** A create body is accepted iff the category is listed, the limit positive and a given current amount non-negative. */
  lemma CreateBounds(i: CreateBudgetInput)
    ensures ValidCreate(i) ==> i.limit_amount >= 1
    ensures i.limit_amount <= 0 ==> !ValidCreate(i)
    ensures i.current_amount == Some(-1) ==> !ValidCreate(i)
    ensures i.category in BudgetCategories && i.limit_amount > 0 && i.current_amount.None? ==> ValidCreate(i)
  {
  }

  lemma EmptyUpdateIsValid()
    ensures ValidUpdate(UpdateBudgetInput(None, None, None, None, None))
    ensures ValidUpdate(UpdateBudgetInput(None, None, None, None, Some(None)))
  {
  }

  /** A budget amount update may be negative or zero. */
  lemma AnyAmountUpdate()
    ensures ValidAmountUpdate(-500) && ValidAmountUpdate(0)
  {
  }
}
