/**
 * The budget request handlers. The budget helper service is not part of this
 * model: `users` stands for the ids its `validateUser` accepts, and
 * `validateSharing` and `validateAmount` are parameters.
 */
module BudgetService {
  import opened Common
  import opened BudgetDto
  import opened BudgetRepository

  const UserNotFound := "User not found"
  const SharedUserNotFound := "Shared user not found"
  const BudgetNotFound := "Budget not found"

  /** The response that refuses `create`, if any: the owner is checked before a (truthy) shared user. */
  function CreateRejection(users: set<int>, data: CreateBudgetInput): (r: Option<(Status, string)>)
    ensures data.user_id !in users ==> r == Some((NotFound, UserNotFound))
    ensures data.user_id in users && TruthyId(data.shared_user_id) && data.shared_user_id.value !in users ==>
              r == Some((BadRequest, SharedUserNotFound))
    ensures r.None? <==> data.user_id in users && (TruthyId(data.shared_user_id) ==> data.shared_user_id.value in users)
  {
    if data.user_id !in users then Some((NotFound, UserNotFound))
    else if TruthyId(data.shared_user_id) && data.shared_user_id.value !in users then Some((BadRequest, SharedUserNotFound))
    else None
  }

  /** The record `create` hands the repository: nothing spent unless the body says so, no shared user unless a truthy one is named. */
  function CreatedBudget(data: CreateBudgetInput): (r: NewBudget)
    ensures r.userId == data.user_id && r.category == data.category
    ensures r.limitAmount == data.limit_amount && r.month == data.month
    ensures r.currentAmount == (if data.current_amount.Some? then data.current_amount.value else 0)
    ensures r.sharedUserId == IdOrNull(data.shared_user_id)
  {
    // `Number(data.current_amount || 0)`: a 0 and an absent amount both give 0.
    NewBudget(data.user_id, IdOrNull(data.shared_user_id), data.category, data.limit_amount,
      data.current_amount.GetOr(0), data.month)
  }

  /** A valid create body yields a budget that starts within its bounds: a positive limit and a non-negative spend. */
  lemma CreatedBudgetStartsInBounds(data: CreateBudgetInput)
    requires ValidCreate(data)
    ensures CreatedBudget(data).limitAmount > 0 && CreatedBudget(data).currentAmount >= 0
  {
  }

  /** `updateData`: exactly the fields the body defines, an explicit null shared user included. */
  function UpdatePatch(data: UpdateBudgetInput): (r: BudgetPatch)
    ensures r.category == data.category && r.limitAmount == data.limit_amount
    ensures r.currentAmount == data.current_amount && r.month == data.month
    ensures r.sharedUserId == data.shared_user_id
  {
    BudgetPatch(data.category, data.limit_amount, data.current_amount, data.month, data.shared_user_id)
  }

  /** The sharing check an update runs: none unless a non-null shared user is named. */
  function SharingRejection(validateSharing: (int, int, int) -> Check, id: int, owner: int, data: UpdateBudgetInput): (r: Option<string>)
    ensures (data.shared_user_id.None? || data.shared_user_id == Some(None)) ==> r.None?
    ensures data.shared_user_id.Some? && data.shared_user_id.value.Some? ==>
              var v := validateSharing(id, owner, data.shared_user_id.value.value);
              r == if v.isValid then None else Some(MessageOr(v.message, "Invalid sharing configuration"))
  {
    if data.shared_user_id.Some? && data.shared_user_id.value.Some? then
      var v := validateSharing(id, owner, data.shared_user_id.value.value);
      if v.isValid then None else Some(MessageOr(v.message, "Invalid sharing configuration"))
    else None
  }

  /** Unsharing (an explicit null) is never refused, whatever the sharing rules say, and clears the shared user. */
  lemma UnsharingIsAlwaysAllowed(validateSharing: (int, int, int) -> Check, b: Budget, data: UpdateBudgetInput)
    requires data.shared_user_id == Some(None)
    ensures SharingRejection(validateSharing, b.id, b.userId, data).None?
    ensures Patched(b, UpdatePatch(data)).sharedUserId == None
  {
  }

  method Create(budgets: BudgetTable, users: set<int>, data: CreateBudgetInput) returns (reply: Reply<Budget>)
    requires budgets.Valid()
    modifies budgets
    ensures budgets.Valid()
    ensures CreateRejection(users, data).Some? ==>
              && reply == Respond(CreateRejection(users, data).value.0, CreateRejection(users, data).value.1, None)
              && budgets.rows == old(budgets.rows) && budgets.nextId == old(budgets.nextId)
    ensures CreateRejection(users, data).None? ==>
              reply.Respond? && reply.data.Some? &&
              var b := reply.data.value;
              && reply == Respond(Created, "Budget created successfully", Some(b))
              && b.id == old(budgets.nextId) && b.id !in old(budgets.rows)
              && budgets.rows == old(budgets.rows)[b.id := b]
              && b == Budget(b.id, data.user_id, IdOrNull(data.shared_user_id), data.category,
                             data.limit_amount, data.current_amount.GetOr(0), data.month)
  {
    var rejection := CreateRejection(users, data);
    if rejection.Some? {
      return Respond(rejection.value.0, rejection.value.1, None);
    }
    var b := budgets.Create(CreatedBudget(data));
    reply := Respond(Created, "Budget created successfully", Some(b));
  }

  method Update(budgets: BudgetTable, validateSharing: (int, int, int) -> Check, id: int, data: UpdateBudgetInput)
    returns (reply: Reply<Budget>)
    requires budgets.Valid()
    modifies budgets
    ensures budgets.Valid() && budgets.nextId == old(budgets.nextId)
    ensures id !in old(budgets.rows) ==> reply == Respond(NotFound, BudgetNotFound, None) && budgets.rows == old(budgets.rows)
    ensures id in old(budgets.rows) ==>
              var rejection := SharingRejection(validateSharing, id, old(budgets.rows)[id].userId, data);
              && (rejection.Some? ==> reply == Respond(BadRequest, rejection.value, None) && budgets.rows == old(budgets.rows))
              && (rejection.None? ==>
                    var b := Patched(old(budgets.rows)[id], UpdatePatch(data));
                    reply == Respond(OK, "Budget updated successfully", Some(b)) && budgets.rows == old(budgets.rows)[id := b])
  {
    var found := budgets.FindById(id);
    if found.None? {
      return Respond(NotFound, BudgetNotFound, None);
    }
    var rejection := SharingRejection(validateSharing, id, found.value.userId, data);
    if rejection.Some? {
      return Respond(BadRequest, rejection.value, None);
    }
    var r := budgets.Update(id, UpdatePatch(data));
    reply := Respond(OK, "Budget updated successfully", Some(r.value));
  }

  method Delete(budgets: BudgetTable, id: int) returns (reply: Reply<bool>)
    requires budgets.Valid()
    modifies budgets
    ensures budgets.Valid() && budgets.nextId == old(budgets.nextId)
    ensures id !in old(budgets.rows) ==> reply == Respond(NotFound, BudgetNotFound, None) && budgets.rows == old(budgets.rows)
    ensures id in old(budgets.rows) ==>
              reply == Respond(OK, "Budget deleted successfully", Some(true)) && budgets.rows == old(budgets.rows) - {id}
  {
    if budgets.FindById(id).None? {
      return Respond(NotFound, BudgetNotFound, None);
    }
    var deleted := budgets.Delete(id);
    reply := Respond(OK, "Budget deleted successfully", Some(deleted));
  }

  /** `updateAmount`: a refused amount never reaches the repository; an accepted one is added as given. */
  method UpdateAmount(budgets: BudgetTable, validateAmount: (int, int, Cents) -> Check, id: int, userId: int, amount: Cents)
    returns (reply: Reply<Budget>)
    requires budgets.Valid()
    modifies budgets
    ensures budgets.Valid() && budgets.nextId == old(budgets.nextId)
    ensures var v := validateAmount(id, userId, amount);
            !v.isValid ==>
              reply == Respond(BadRequest, MessageOr(v.message, "Invalid amount update"), None) && budgets.rows == old(budgets.rows)
    ensures validateAmount(id, userId, amount).isValid && id !in old(budgets.rows) ==>
              reply == Thrown(BudgetNotFound) && budgets.rows == old(budgets.rows)
    ensures validateAmount(id, userId, amount).isValid && id in old(budgets.rows) ==>
              var b := AfterAmount(old(budgets.rows)[id], amount);
              reply == Respond(OK, "Budget amount updated successfully", Some(b)) && budgets.rows == old(budgets.rows)[id := b]
  {
    var validation := validateAmount(id, userId, amount);
    if !validation.isValid {
      return Respond(BadRequest, MessageOr(validation.message, "Invalid amount update"), None);
    }
    var r := budgets.UpdateAmount(id, amount);
    if r.Err? {
      return Thrown(r.error);
    }
    reply := Respond(OK, "Budget amount updated successfully", Some(r.value));
  }
}
