/** The goal request handlers, over the goals table and the goal helper rules. */
module GoalService {
  import opened Common
  import opened GoalDto
  import opened GoalRepository
  import opened GoalUtils

  const UserNotFound := "User not found"
  const SharedUserNotFound := "Shared user not found"
  const GoalNotFound := "Goal not found"

  /** The response that refuses `create`, if any: the owner is checked before a (truthy) shared user. */
  function CreateRejection(users: set<int>, data: CreateGoalInput): (r: Option<(Status, string)>)
    ensures !ValidateUser(users, data.user_id) ==> r == Some((NotFound, UserNotFound))
    ensures ValidateUser(users, data.user_id) && TruthyId(data.shared_user_id) && !ValidateUser(users, data.shared_user_id.value) ==>
              r == Some((BadRequest, SharedUserNotFound))
    ensures r.None? <==> ValidateUser(users, data.user_id) && (TruthyId(data.shared_user_id) ==> ValidateUser(users, data.shared_user_id.value))
  {
    if !ValidateUser(users, data.user_id) then Some((NotFound, UserNotFound))
    else if TruthyId(data.shared_user_id) && !ValidateUser(users, data.shared_user_id.value) then Some((BadRequest, SharedUserNotFound))
    else None
  }

  /** The record `create` hands the repository: no progress unless the body says so, no shared user unless a truthy one is named. */
  function CreatedGoal(data: CreateGoalInput): (r: NewGoal)
    ensures r.userId == data.user_id && r.name == data.name
    ensures r.targetAmount == data.target_amount && r.endDate == data.end_date
    ensures r.currentAmount == (if data.current_amount.Some? then data.current_amount.value else 0)
    ensures r.sharedUserId == IdOrNull(data.shared_user_id)
  {
    // `Number(data.current_amount || 0)`: a 0 and an absent amount both give 0.
    NewGoal(data.user_id, IdOrNull(data.shared_user_id), data.name, data.target_amount,
      data.current_amount.GetOr(0), data.end_date)
  }

  /** `updateData`: exactly the fields the body defines, an explicit null shared user included. */
  function UpdatePatch(data: UpdateGoalInput): (r: GoalPatch)
    ensures r.name == data.name && r.targetAmount == data.target_amount
    ensures r.currentAmount == data.current_amount && r.endDate == data.end_date
    ensures r.sharedUserId == data.shared_user_id
  {
    GoalPatch(data.name, data.target_amount, data.current_amount, data.end_date, data.shared_user_id)
  }

  /** The sharing check an update runs, with the goal's owner as the caller: none unless a non-null shared user is named. */
  function SharingRejection(goals: map<int, Goal>, users: set<int>, id: int, owner: int, data: UpdateGoalInput): (r: Option<string>)
    ensures (data.shared_user_id.None? || data.shared_user_id == Some(None)) ==> r.None?
    ensures data.shared_user_id.Some? && data.shared_user_id.value.Some? ==>
              (r.None? <==> ValidateSharing(goals, users, id, owner, data.shared_user_id.value.value).isValid)
    ensures r.Some? ==> r == ValidateSharing(goals, users, id, owner, data.shared_user_id.value.value).message
  {
    if data.shared_user_id.Some? && data.shared_user_id.value.Some? then
      var v := ValidateSharing(goals, users, id, owner, data.shared_user_id.value.value);
      SharingRejectionsExplain(goals, users, id, owner, data.shared_user_id.value.value);
      if v.isValid then None else Some(MessageOr(v.message, "Invalid sharing configuration"))
    else None
  }

  /**
   * An update of an existing goal may share it with any other existing user
   * (the owner always passes the ownership check) but never with its owner.
   */
  lemma UpdateSharingRule(goals: map<int, Goal>, users: set<int>, id: int, target: int, data: UpdateGoalInput)
    requires id in goals && data.shared_user_id == Some(Some(target))
    ensures SharingRejection(goals, users, id, goals[id].userId, data).None? <==>
              target in users && target != goals[id].userId
    ensures target == goals[id].userId && target in users ==>
              SharingRejection(goals, users, id, goals[id].userId, data) == Some(SelfShareMessage)
  {
  }

  method Create(goals: GoalTable, users: set<int>, data: CreateGoalInput) returns (reply: Reply<Goal>)
    requires goals.Valid()
    modifies goals
    ensures goals.Valid()
    ensures CreateRejection(users, data).Some? ==>
              && reply == Respond(CreateRejection(users, data).value.0, CreateRejection(users, data).value.1, None)
              && goals.rows == old(goals.rows) && goals.nextId == old(goals.nextId)
    ensures CreateRejection(users, data).None? ==>
              reply.Respond? && reply.data.Some? &&
              var g := reply.data.value;
              && reply == Respond(Created, "Goal created successfully", Some(g))
              && g.id == old(goals.nextId) && g.id !in old(goals.rows)
              && goals.rows == old(goals.rows)[g.id := g]
              && g == Goal(g.id, data.user_id, IdOrNull(data.shared_user_id), data.name,
                           data.target_amount, data.current_amount.GetOr(0), data.end_date)
  {
    var rejection := CreateRejection(users, data);
    if rejection.Some? {
      return Respond(rejection.value.0, rejection.value.1, None);
    }
    var g := goals.Create(CreatedGoal(data));
    reply := Respond(Created, "Goal created successfully", Some(g));
  }

  method Update(goals: GoalTable, users: set<int>, id: int, data: UpdateGoalInput) returns (reply: Reply<Goal>)
    requires goals.Valid()
    modifies goals
    ensures goals.Valid() && goals.nextId == old(goals.nextId)
    ensures id !in old(goals.rows) ==> reply == Respond(NotFound, GoalNotFound, None) && goals.rows == old(goals.rows)
    ensures id in old(goals.rows) ==>
              var rejection := SharingRejection(old(goals.rows), users, id, old(goals.rows)[id].userId, data);
              && (rejection.Some? ==> reply == Respond(BadRequest, rejection.value, None) && goals.rows == old(goals.rows))
              && (rejection.None? ==>
                    var g := Patched(old(goals.rows)[id], UpdatePatch(data));
                    reply == Respond(OK, "Goal updated successfully", Some(g)) && goals.rows == old(goals.rows)[id := g])
  {
    var found := goals.FindById(id);
    if found.None? {
      return Respond(NotFound, GoalNotFound, None);
    }
    var rejection := SharingRejection(goals.rows, users, id, found.value.userId, data);
    if rejection.Some? {
      return Respond(BadRequest, rejection.value, None);
    }
    var r := goals.Update(id, UpdatePatch(data));
    reply := Respond(OK, "Goal updated successfully", Some(r.value));
  }

  method Delete(goals: GoalTable, id: int) returns (reply: Reply<bool>)
    requires goals.Valid()
    modifies goals
    ensures goals.Valid() && goals.nextId == old(goals.nextId)
    ensures id !in old(goals.rows) ==> reply == Respond(NotFound, GoalNotFound, None) && goals.rows == old(goals.rows)
    ensures id in old(goals.rows) ==>
              reply == Respond(OK, "Goal deleted successfully", Some(true)) && goals.rows == old(goals.rows) - {id}
  {
    if goals.FindById(id).None? {
      return Respond(NotFound, GoalNotFound, None);
    }
    var deleted := goals.Delete(id);
    reply := Respond(OK, "Goal deleted successfully", Some(deleted));
  }

  /**
   * `updateProgress`: a refused update leaves the goal alone; an accepted one
   * adds the same amount and keeps the goal at or below its target.
   */
  method UpdateProgress(goals: GoalTable, id: int, userId: int, amount: Cents, now: Instant) returns (reply: Reply<Goal>)
    requires goals.Valid()
    modifies goals
    ensures goals.Valid() && goals.nextId == old(goals.nextId)
    ensures var v := ValidateProgress(old(goals.rows), id, userId, amount, now);
            !v.isValid ==>
              reply == Respond(BadRequest, MessageOr(v.message, "Invalid progress update"), None) && goals.rows == old(goals.rows)
    ensures ValidateProgress(old(goals.rows), id, userId, amount, now).isValid ==>
              && id in old(goals.rows)
              && var g := AfterProgress(old(goals.rows)[id], amount);
              && reply == Respond(OK, "Goal progress updated successfully", Some(g))
              && goals.rows == old(goals.rows)[id := g]
              && g.currentAmount <= g.targetAmount
  {
    var validation := ValidateProgress(goals.rows, id, userId, amount, now);
    if !validation.isValid {
      return Respond(BadRequest, MessageOr(validation.message, "Invalid progress update"), None);
    }
    AcceptedProgressStaysWithinTarget(goals.rows, id, userId, amount, now);
    var r := goals.UpdateProgress(id, amount);
    reply := Respond(OK, "Goal progress updated successfully", Some(r.value));
  }
}
