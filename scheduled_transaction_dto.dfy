/** The zod schemas of scheduled-transaction requests. */
module ScheduledTransactionDto {
  import opened Common

  const ScheduledCategories: seq<string> :=
    ["FOOD", "TRANSPORT", "UTILITIES", "ENTERTAINMENT", "HEALTHCARE",
     "EDUCATION", "SHOPPING", "HOUSING", "OTHER"]

  const Frequencies: seq<string> := ["DAILY", "WEEKLY", "MONTHLY", "YEARLY"]

  /**
   * A create body after the JSON type checks. `next_execution_date` is the
   * instant its `z.string().date()` text denotes; `active` may be left out.
   * `transaction_base_id`, `next_execution`, `frequency_type`, `start_date` and
   * `status` are columns of the scheduled_transactions table that are not null
   * and have no default, so the insert schema the body extends still demands
   * them; the handlers never read them. `None` is a body that leaves one out.
   */
  datatype CreateScheduledInput = CreateScheduledInput(
    user_id: int,
    name: string,
    amount: Cents,
    category: string,
    description: Option<string>,
    payment_method_id: Option<int>,
    frequency: string,
    next_execution_date: Instant,
    active: Option<bool>,
    transaction_base_id: Option<int>,
    next_execution: Option<string>,
    frequency_type: Option<string>,
    start_date: Option<string>,
    status: Option<string>)

  /** The base schema's required columns that the extension does not replace are present. */
  predicate HasBaseColumns(i: CreateScheduledInput) {
    && i.transaction_base_id.Some?
    && i.next_execution.Some?
    && i.frequency_type.Some?
    && i.start_date.Some?
    && i.status.Some?
  }

  /** The parsed body: `active` has its default. */
  datatype CreateScheduledDto = CreateScheduledDto(
    user_id: int,
    name: string,
    amount: Cents,
    category: string,
    description: Option<string>,
    payment_method_id: Option<int>,
    frequency: string,
    next_execution_date: Instant,
    active: bool)

  predicate ValidCreate(i: CreateScheduledInput) {
    && HasBaseColumns(i)
    && i.frequency in Frequencies
    && i.category in ScheduledCategories
    && i.amount > 0
  }

  /** `createScheduledTransactionSchema.parse`: rejects invalid bodies and defaults `active` to true. */
  function ParseCreate(i: CreateScheduledInput): (r: Option<CreateScheduledDto>)
    ensures r.Some? <==> ValidCreate(i)
    ensures r.Some? ==> r.value.active == (i.active != Some(false))
    ensures r.Some? ==> r.value.amount == i.amount && r.value.frequency == i.frequency
                        && r.value.category == i.category
                        && r.value.next_execution_date == i.next_execution_date
  {
    if ValidCreate(i) then
      Some(CreateScheduledDto(i.user_id, i.name, i.amount, i.category, i.description,
        i.payment_method_id, i.frequency, i.next_execution_date, i.active.GetOr(true)))
    else None
  }

  /**
   * A body with listed enums and a positive amount still parses only when it
   * carries the base columns, `next_execution` beside `next_execution_date`.
   */
  lemma CreateNeedsBaseColumns(i: CreateScheduledInput)
    requires i.frequency in Frequencies && i.category in ScheduledCategories && i.amount > 0
    ensures ParseCreate(i).Some? <==> HasBaseColumns(i)
    ensures i.next_execution.None? ==> ParseCreate(i).None?
  {
  }

  /** An update body: every field optional; the schema omits `id` and `user_id`. */
  datatype UpdateScheduledInput = UpdateScheduledInput(
    name: Option<string>,
    amount: Option<Cents>,
    category: Option<string>,
    description: Option<Option<string>>,
    payment_method_id: Option<Option<int>>,
    frequency: Option<string>,
    next_execution_date: Option<Instant>,
    active: Option<bool>)

  predicate ValidUpdate(i: UpdateScheduledInput) {
    && (i.frequency.Some? ==> i.frequency.value in Frequencies)
    && (i.category.Some? ==> i.category.value in ScheduledCategories)
    && (i.amount.Some? ==> i.amount.value > 0)
  }

  lemma EnumsAreExact()
    ensures |Frequencies| == 4 && |ScheduledCategories| == 9
    ensures forall f :: f in Frequencies <==> f == "DAILY" || f == "WEEKLY" || f == "MONTHLY" || f == "YEARLY"
  {
  }

  /** The empty update body is valid: every field is optional. */
  lemma EmptyUpdateIsValid()
    ensures ValidUpdate(UpdateScheduledInput(None, None, None, None, None, None, None, None))
  {
  }
}
