/** The zod schemas of goal requests. */
module GoalDto {
  import opened Common

  /**
   * A create body after the JSON type checks. `end_date` is the instant its
   * `z.string().date()` text denotes and is required; the schema omits `id`.
   * `start_date` and `status` are columns of the goals table that are not null
   * and have no default, so the insert schema the body extends still demands
   * them; the handlers never read them. `None` is a body that leaves one out.
   */
  datatype CreateGoalInput = CreateGoalInput(
    user_id: int,
    name: string,
    target_amount: Cents,
    current_amount: Option<Cents>,
    end_date: Instant,
    shared_user_id: Option<int>,
    start_date: Option<string>,
    status: Option<string>)

  /** The base schema's required columns that the extension does not replace are present. */
  predicate HasBaseColumns(i: CreateGoalInput) {
    i.start_date.Some? && i.status.Some?
  }

  predicate ValidCreate(i: CreateGoalInput) {
    && HasBaseColumns(i)
    && i.target_amount > 0
    && (i.current_amount.Some? ==> i.current_amount.value >= 0)
  }

  /** An update body: every field optional (the end date too), `id` and `user_id` omitted. */
  datatype UpdateGoalInput = UpdateGoalInput(
    name: Option<string>,
    target_amount: Option<Cents>,
    current_amount: Option<Cents>,
    end_date: Option<Instant>,
    shared_user_id: Option<Option<int>>)

  predicate ValidUpdate(i: UpdateGoalInput) {
    && (i.target_amount.Some? ==> i.target_amount.value > 0)
    && (i.current_amount.Some? ==> i.current_amount.value >= 0)
  }

  /** `updateProgressSchema`: the amount is non-negative. */
  predicate ValidProgress(amount: Cents) {
    amount >= 0
  }

  function AsUpdate(i: CreateGoalInput): UpdateGoalInput {
    UpdateGoalInput(Some(i.name), Some(i.target_amount), i.current_amount, Some(i.end_date),
      if i.shared_user_id.Some? then Some(i.shared_user_id) else None)
  }

  /** A body that is otherwise valid still parses only when it carries the base columns. */
  lemma CreateNeedsBaseColumns(i: CreateGoalInput)
    requires i.target_amount > 0 && i.current_amount.None?
    ensures ValidCreate(i) <==> i.start_date.Some? && i.status.Some?
  {
  }

  lemma CreateIsStricterThanUpdate(i: CreateGoalInput)
    requires ValidCreate(i)
    ensures ValidUpdate(AsUpdate(i))
  {
  }

  /** The empty update is valid: the end date, like every other field, may be left out. */
  lemma EmptyUpdateIsValid()
    ensures ValidUpdate(UpdateGoalInput(None, None, None, None, None))
  {
  }

  lemma ProgressBounds()
    ensures ValidProgress(0) && !ValidProgress(-1)
  {
  }
}
