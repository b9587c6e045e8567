/**
 * The debt request handlers: which check answers first, which record is
 * written, and the two writes of a payment. The debt helper service is not
 * part of this model: `users` stands for the ids its `validateUser` accepts
 * and `validateDebt` is a parameter.
 */
module DebtService {
  import opened Common
  import opened TransactionEntity
  import opened TransactionDto
  import opened DebtDto
  import opened DebtRepository
  import TransactionRepository

  /** The `{ isValid, message?, debt? }` verdict of `validateDebt`. */
  datatype DebtCheck = DebtCheck(isValid: bool, message: Option<string>, debt: Option<Debt>)

  const UserNotFound := "User not found"
  const CreditorNotFound := "Creditor not found"
  const DebtNotFound := "Debt not found"
  const PaymentCategory := "DEBT_PAYMENT"
  const PaymentPrefix := "Payment for debt: "

  /** What reading `debt.description` of an undefined `validation.debt` throws. */
  const UndefinedDebt := "TypeError: Cannot read properties of undefined (reading 'description')"

  /** The response that refuses `create`, if any: the user is checked before a (truthy) creditor. */
  function CreateRejection(users: set<int>, data: CreateDebtDto): (r: Option<(Status, string)>)
    ensures data.user_id !in users ==> r == Some((NotFound, UserNotFound))
    ensures data.user_id in users && TruthyId(data.creditor_id) && data.creditor_id.value !in users ==>
              r == Some((NotFound, CreditorNotFound))
    ensures r.None? <==> data.user_id in users && (TruthyId(data.creditor_id) ==> data.creditor_id.value in users)
  {
    if data.user_id !in users then Some((NotFound, UserNotFound))
    else if TruthyId(data.creditor_id) && data.creditor_id.value !in users then Some((NotFound, CreditorNotFound))
    else None
  }

  /** The record `create` hands the repository: nothing paid yet, whatever pending amount the body named. */
  function CreatedDebt(data: CreateDebtDto): (r: NewDebt)
    ensures r.userId == data.user_id && r.description == data.description && r.dueDate == data.due_date
    ensures r.originalAmount == data.original_amount && r.pendingAmount == r.originalAmount
    ensures !r.paid
    ensures r.creditorId == IdOrNull(data.creditor_id)
  {
    NewDebt(data.user_id, data.description, data.original_amount, data.original_amount,
      data.due_date, false, IdOrNull(data.creditor_id))
  }

  /** A freshly created debt owes its whole original amount, whatever the body asked for. */
  lemma CreatedDebtIgnoresPendingAmount(data: CreateDebtDto, pending: Cents)
    ensures CreatedDebt(data) == CreatedDebt(data.(pending_amount := pending))
    ensures CreatedDebt(data) == CreatedDebt(data.(paid := true))
  {
  }

  /** `updateData`: exactly the fields the body defines. */
  function UpdatePatch(data: UpdateDebtInput): (r: DebtPatch)
    ensures r.description == data.description && r.pendingAmount == data.pending_amount
    ensures r.dueDate == data.due_date && r.paid == data.paid
  {
    DebtPatch(data.description, data.pending_amount, data.due_date, data.paid)
  }

  /** An update body can reach only the four unlocked columns. */
  lemma UpdateKeepsLockedFields(d: Debt, data: UpdateDebtInput)
    ensures var r := Patched(d, UpdatePatch(data));
            r.id == d.id && r.userId == d.userId && r.originalAmount == d.originalAmount && r.creditorId == d.creditorId
  {
  }

  /** The transaction a payment records: an expense of the paid amount, in the debt-payment category, linked to the debt. */
  function PaymentTransaction(userId: int, amount: Cents, debt: Debt): (r: TransactionRepository.NewTransaction)
    ensures r.userId == userId && r.amount == amount && r.txType == Expense
    ensures r.category == PaymentCategory && r.debtId == Some(debt.id)
    ensures r.description == Some(PaymentPrefix + debt.description)
    ensures r.paymentMethodId == None && r.scheduledTransactionId == None
  {
    TransactionRepository.NewTransaction(userId, amount, Expense, PaymentCategory,
      Some(PaymentPrefix + debt.description), None, None, Some(debt.id))
  }

  /** The stored payment row: dated now, and linked to the debt whenever the debt's id is truthy. */
  lemma PaymentRowIsLinked(id: int, userId: int, amount: Cents, debt: Debt, now: Instant)
    ensures var t := TransactionRepository.Stored(id, PaymentTransaction(userId, amount, debt), now);
            && t.date == now && t.txType == Expense && t.category == PaymentCategory && t.amount == amount
            && (debt.id != 0 ==> t.debtId == Some(debt.id))
            && t.paymentMethodId == None && t.scheduledTransactionId == None
  {
  }

  /** "DEBT_PAYMENT" is not an expense category: the transaction a payment writes could not be created through the API. */
  lemma PaymentCategoryIsNotListed(userId: int, amount: Cents, description: Option<string>)
    ensures PaymentCategory !in ExpenseCategories && PaymentCategory !in IncomeCategories
    ensures !TransactionDto.ValidCreate(CreateTransactionInput(userId, "EXPENSE", PaymentCategory, amount, description, None, None, None))
  {
    assert forall i | 0 <= i < |ExpenseCategories| :: ExpenseCategories[i] != PaymentCategory;
    assert forall i | 0 <= i < |IncomeCategories| :: IncomeCategories[i] != PaymentCategory;
  }

  method Create(debts: DebtTable, users: set<int>, data: CreateDebtDto) returns (reply: Reply<Debt>)
    requires debts.Valid()
    modifies debts
    ensures debts.Valid()
    ensures CreateRejection(users, data).Some? ==>
              && reply == Respond(CreateRejection(users, data).value.0, CreateRejection(users, data).value.1, None)
              && debts.rows == old(debts.rows) && debts.nextId == old(debts.nextId)
    ensures CreateRejection(users, data).None? ==>
              reply.Respond? && reply.data.Some? &&
              var d := reply.data.value;
              && reply == Respond(Created, "Debt created successfully", Some(d))
              && d.id == old(debts.nextId) && d.id !in old(debts.rows)
              && debts.rows == old(debts.rows)[d.id := d]
              && d == Debt(d.id, data.user_id, data.description, data.original_amount, data.original_amount,
                           data.due_date, false, IdOrNull(data.creditor_id))
  {
    var rejection := CreateRejection(users, data);
    if rejection.Some? {
      return Respond(rejection.value.0, rejection.value.1, None);
    }
    var d := debts.Create(CreatedDebt(data));
    reply := Respond(Created, "Debt created successfully", Some(d));
  }

  method Update(debts: DebtTable, id: int, data: UpdateDebtInput) returns (reply: Reply<Debt>)
    requires debts.Valid()
    modifies debts
    ensures debts.Valid() && debts.nextId == old(debts.nextId)
    ensures id !in old(debts.rows) ==> reply == Respond(NotFound, DebtNotFound, None) && debts.rows == old(debts.rows)
    ensures id in old(debts.rows) ==>
              var d := Patched(old(debts.rows)[id], UpdatePatch(data));
              reply == Respond(OK, "Debt updated successfully", Some(d)) && debts.rows == old(debts.rows)[id := d]
  {
    if debts.FindById(id).None? {
      return Respond(NotFound, DebtNotFound, None);
    }
    var r := debts.Update(id, UpdatePatch(data));
    reply := Respond(OK, "Debt updated successfully", Some(r.value));
  }

  method Delete(debts: DebtTable, id: int) returns (reply: Reply<bool>)
    requires debts.Valid()
    modifies debts
    ensures debts.Valid() && debts.nextId == old(debts.nextId)
    ensures id !in old(debts.rows) ==> reply == Respond(NotFound, DebtNotFound, None) && debts.rows == old(debts.rows)
    ensures id in old(debts.rows) ==>
              reply == Respond(OK, "Debt deleted successfully", Some(true)) && debts.rows == old(debts.rows) - {id}
  {
    if debts.FindById(id).None? {
      return Respond(NotFound, DebtNotFound, None);
    }
    var deleted := debts.Delete(id);
    reply := Respond(OK, "Debt deleted successfully", Some(deleted));
  }

  /**
   * `payDebt`: a rejected payment writes nothing; an accepted one inserts the
   * payment transaction first and then lowers the debt's pending amount.
   */
  method PayDebt(debts: DebtTable, transactions: TransactionRepository.TransactionTable,
                 validateDebt: (int, int, Cents) -> DebtCheck,
                 id: int, userId: int, amount: Cents, now: Instant) returns (reply: Reply<Debt>)
    requires debts.Valid() && transactions.Valid()
    modifies debts, transactions
    ensures debts.Valid() && transactions.Valid()
    ensures var v := validateDebt(id, userId, amount);
            !v.isValid ==>
              && reply == Respond(BadRequest, MessageOr(v.message, "Invalid payment"), None)
              && debts.rows == old(debts.rows) && transactions.rows == old(transactions.rows)
    ensures var v := validateDebt(id, userId, amount);
            v.isValid && v.debt.None? ==>
              && reply == Thrown(UndefinedDebt)
              && debts.rows == old(debts.rows) && transactions.rows == old(transactions.rows)
    ensures var v := validateDebt(id, userId, amount);
            v.isValid && v.debt.Some? ==>
              var debt := v.debt.value;
              && transactions.rows == old(transactions.rows)
                   + [TransactionRepository.Stored(old(transactions.nextId), PaymentTransaction(userId, amount, debt), now)]
              && (debt.id in old(debts.rows) ==>
                    var paid := AfterPayment(old(debts.rows)[debt.id], amount);
                    reply == Respond(OK, "Debt payment processed successfully", Some(paid))
                    && debts.rows == old(debts.rows)[debt.id := paid])
              && (debt.id !in old(debts.rows) ==> reply == Thrown(DebtNotFound) && debts.rows == old(debts.rows))
  {
    var validation := validateDebt(id, userId, amount);
    if !validation.isValid {
      return Respond(BadRequest, MessageOr(validation.message, "Invalid payment"), None);
    }
    if validation.debt.None? {
      return Thrown(UndefinedDebt);
    }
    var debt := validation.debt.value;
    var t := transactions.Create(PaymentTransaction(userId, amount, debt), now);
    var updated := debts.UpdatePendingAmount(debt.id, amount);
    if updated.Err? {
      return Thrown(updated.error);
    }
    reply := Respond(OK, "Debt payment processed successfully", Some(updated.value));
  }
}
