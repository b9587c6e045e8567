/**
 * The decisions of the goal helper service: who owns a goal, who may see it,
 * whether it may be shared and whether progress may be recorded. They only
 * read the goals table and the set of existing user ids.
 */
module GoalUtils {
  import opened Common
  import opened GoalRepository

  /** `validateUser`: the user row exists. */
  predicate ValidateUser(users: set<int>, userId: int) {
    userId in users
  }

  /** `validateOwnership`: the goal exists and belongs to the caller. */
  predicate ValidateOwnership(goals: map<int, Goal>, goalId: int, userId: int) {
    goalId in goals && goals[goalId].userId == userId
  }

  /** `canAccess`: the goal exists and the caller owns it or it is shared with the caller. */
  predicate CanAccess(goals: map<int, Goal>, goalId: int, userId: int) {
    goalId in goals && (goals[goalId].userId == userId || goals[goalId].sharedUserId == Some(userId))
  }

  /** Owning a goal is one way to reach it; the shared user is the other. */
  lemma AccessIsOwnerOrShared(goals: map<int, Goal>, goalId: int, userId: int)
    ensures ValidateOwnership(goals, goalId, userId) ==> CanAccess(goals, goalId, userId)
    ensures CanAccess(goals, goalId, userId) <==>
              ValidateOwnership(goals, goalId, userId)
              || (goalId in goals && goals[goalId].sharedUserId == Some(userId))
  {
  }

  const NotOwnerMessage := "Goal not found or you don't have permission"
  const NoTargetMessage := "Target user not found"
  const SelfShareMessage := "Cannot share a goal with yourself"

  /** `validateSharing`: ownership, then the target's existence, then not oneself; the first failure names itself. */
  function ValidateSharing(goals: map<int, Goal>, users: set<int>, goalId: int, userId: int, targetUserId: int): (r: Check)
    ensures r.isValid <==> ValidateOwnership(goals, goalId, userId) && ValidateUser(users, targetUserId) && userId != targetUserId
    ensures r.isValid ==> r.message == None
    ensures !ValidateOwnership(goals, goalId, userId) ==> r.message == Some(NotOwnerMessage)
    ensures ValidateOwnership(goals, goalId, userId) && !ValidateUser(users, targetUserId) ==> r.message == Some(NoTargetMessage)
    ensures ValidateOwnership(goals, goalId, userId) && ValidateUser(users, targetUserId) && userId == targetUserId ==>
              r.message == Some(SelfShareMessage)
  {
    if !ValidateOwnership(goals, goalId, userId) then Check(false, Some(NotOwnerMessage))
    else if !ValidateUser(users, targetUserId) then Check(false, Some(NoTargetMessage))
    else if userId == targetUserId then Check(false, Some(SelfShareMessage))
    else Check(true, None)
  }

  /** A rejection always carries a message, so `validation.message || fallback` never falls back. */
  lemma SharingRejectionsExplain(goals: map<int, Goal>, users: set<int>, goalId: int, userId: int, targetUserId: int)
    ensures !ValidateSharing(goals, users, goalId, userId, targetUserId).isValid ==>
              TruthyText(ValidateSharing(goals, users, goalId, userId, targetUserId).message)
  {
  }

  /** The `{ isValid, message?, goal? }` verdict of `validateProgress`. */
  datatype ProgressCheck = ProgressCheck(isValid: bool, message: Option<string>, goal: Option<Goal>)

  const GoalNotFoundMessage := "Goal not found"
  const NoAccessMessage := "You don't have access to this goal"
  const ExceedsTargetMessage := "The new amount would exceed the target amount"
  const ExpiredMessage := "The goal has expired"

  /** Adding `amount` keeps the goal at or below its target. */
  predicate WithinTarget(g: Goal, amount: Cents) {
    g.currentAmount + amount <= g.targetAmount
  }

  /** The goal's end date has not passed: `endDate < now` is the only rejection. */
  predicate NotExpired(g: Goal, now: Instant) {
    !(g.endDate < now)
  }

  /**
   * `validateProgress`: existence, then access, then the target bound, then the
   * deadline. The two later rejections and the acceptance hand back the goal.
   */
  function ValidateProgress(goals: map<int, Goal>, goalId: int, userId: int, amount: Cents, now: Instant): (r: ProgressCheck)
    ensures r.isValid <==>
              && CanAccess(goals, goalId, userId)
              && WithinTarget(goals[goalId], amount)
              && NotExpired(goals[goalId], now)
    ensures goalId !in goals ==> r == ProgressCheck(false, Some(GoalNotFoundMessage), None)
    ensures goalId in goals && !CanAccess(goals, goalId, userId) ==> r == ProgressCheck(false, Some(NoAccessMessage), None)
    ensures CanAccess(goals, goalId, userId) ==> r.goal == Some(goals[goalId])
    ensures CanAccess(goals, goalId, userId) && !WithinTarget(goals[goalId], amount) ==> r.message == Some(ExceedsTargetMessage)
    ensures CanAccess(goals, goalId, userId) && WithinTarget(goals[goalId], amount) && !NotExpired(goals[goalId], now) ==>
              r.message == Some(ExpiredMessage)
    ensures r.isValid ==> r.message == None
  {
    if goalId !in goals then ProgressCheck(false, Some(GoalNotFoundMessage), None)
    else
      var goal := goals[goalId];
      if !CanAccess(goals, goalId, userId) then ProgressCheck(false, Some(NoAccessMessage), None)
      else if goal.currentAmount + amount > goal.targetAmount then ProgressCheck(false, Some(ExceedsTargetMessage), Some(goal))
      else if goal.endDate < now then ProgressCheck(false, Some(ExpiredMessage), Some(goal))
      else ProgressCheck(true, None, Some(goal))
  }

  /** An accepted progress update leaves the goal at or below its target. */
  lemma AcceptedProgressStaysWithinTarget(goals: map<int, Goal>, goalId: int, userId: int, amount: Cents, now: Instant)
    requires ValidateProgress(goals, goalId, userId, amount, now).isValid
    ensures goalId in goals
    ensures AfterProgress(goals[goalId], amount).currentAmount <= goals[goalId].targetAmount
  {
  }

  /** The bound is inclusive: an amount that lands exactly on the target is accepted, one cent more is not. */
  lemma ReachingTargetExactly(goals: map<int, Goal>, goalId: int, userId: int, now: Instant)
    requires CanAccess(goals, goalId, userId) && NotExpired(goals[goalId], now)
    ensures ValidateProgress(goals, goalId, userId, goals[goalId].targetAmount - goals[goalId].currentAmount, now).isValid
    ensures !ValidateProgress(goals, goalId, userId, goals[goalId].targetAmount - goals[goalId].currentAmount + 1, now).isValid
  {
  }

  /** A goal whose end date is the current instant still accepts progress; one millisecond later it does not. */
  lemma DeadlineIsInclusive(goals: map<int, Goal>, goalId: int, userId: int, amount: Cents)
    requires CanAccess(goals, goalId, userId) && WithinTarget(goals[goalId], amount)
    ensures ValidateProgress(goals, goalId, userId, amount, goals[goalId].endDate).isValid
    ensures !ValidateProgress(goals, goalId, userId, amount, goals[goalId].endDate + 1).isValid
  {
  }

  /** The shared user may record progress exactly as the owner may. */
  lemma SharedUserMayProgress(goals: map<int, Goal>, goalId: int, amount: Cents, now: Instant)
    requires goalId in goals && goals[goalId].sharedUserId.Some?
    ensures ValidateProgress(goals, goalId, goals[goalId].sharedUserId.value, amount, now).isValid
        <==> ValidateProgress(goals, goalId, goals[goalId].userId, amount, now).isValid
  {
  }
}
