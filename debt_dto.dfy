/** The zod schemas of debt requests. */
module DebtDto {
  import opened Common

  /**
   * A create body after the JSON type checks. `due_date` is the instant its
   * `z.string().date()` text denotes; `paid` may be left out; the schema omits `id`.
   * `amount` and `start_date` are columns of the debts table that are not null
   * and have no default, so the insert schema the body extends still demands
   * them (as the strings it uses for decimal and date columns); the handlers
   * never read them. `None` is a body that leaves one out.
   */
  datatype CreateDebtInput = CreateDebtInput(
    user_id: int,
    description: string,
    original_amount: Cents,
    pending_amount: Cents,
    due_date: Instant,
    paid: Option<bool>,
    creditor_id: Option<int>,
    amount: Option<string>,
    start_date: Option<string>)

  /** The base schema's required columns that the extension does not replace are present. */
  predicate HasBaseColumns(i: CreateDebtInput) {
    i.amount.Some? && i.start_date.Some?
  }

  /** The parsed create body: `paid` has its default. */
  datatype CreateDebtDto = CreateDebtDto(
    user_id: int,
    description: string,
    original_amount: Cents,
    pending_amount: Cents,
    due_date: Instant,
    paid: bool,
    creditor_id: Option<int>)

  predicate ValidCreate(i: CreateDebtInput) {
    HasBaseColumns(i) && i.original_amount > 0 && i.pending_amount > 0
  }

  /** `createDebtSchema.parse`: rejects invalid bodies and defaults `paid` to false. */
  function ParseCreate(i: CreateDebtInput): (r: Option<CreateDebtDto>)
    ensures r.Some? <==> ValidCreate(i)
    ensures r.Some? ==> (r.value.paid <==> i.paid == Some(true))
    ensures r.Some? ==> r.value.original_amount == i.original_amount
                        && r.value.pending_amount == i.pending_amount
                        && r.value.creditor_id == i.creditor_id && r.value.user_id == i.user_id
  {
    if ValidCreate(i) then
      Some(CreateDebtDto(i.user_id, i.description, i.original_amount, i.pending_amount,
        i.due_date, i.paid.GetOr(false), i.creditor_id))
    else None
  }

  /**
   * An update body: only these four fields exist; `id`, `user_id`,
   * `creditor_id` and `original_amount` are omitted and so cannot be changed.
   */
  datatype UpdateDebtInput = UpdateDebtInput(
    description: Option<string>,
    pending_amount: Option<Cents>,
    due_date: Option<Instant>,
    paid: Option<bool>)

  predicate ValidUpdate(i: UpdateDebtInput) {
    i.pending_amount.Some? ==> i.pending_amount.value > 0
  }

  /** `payDebtSchema`: a payment is strictly positive. */
  predicate ValidPayment(amount: Cents) {
    amount > 0
  }

  lemma CreateBounds(i: CreateDebtInput)
    ensures i.original_amount <= 0 ==> ParseCreate(i).None?
    ensures i.pending_amount <= 0 ==> ParseCreate(i).None?
    ensures !HasBaseColumns(i) ==> ParseCreate(i).None?
    ensures HasBaseColumns(i) && i.original_amount > 0 && i.pending_amount > 0 && i.paid.None? ==>
              ParseCreate(i).Some? && !ParseCreate(i).value.paid
  {
  }

  lemma PaymentBounds()
    ensures ValidPayment(1) && !ValidPayment(0) && !ValidPayment(-1)
  {
  }
}
