/** The ledger row of the transactions table, as the repository maps it. */
module TransactionEntity {
  import opened Common

  datatype TxType = Income | Expense

  datatype Transaction = Transaction(
    id: int,
    userId: int,
    amount: Cents,
    txType: TxType,
    category: string,
    description: Option<string>,
    paymentMethodId: Option<int>,
    date: Instant,
    scheduledTransactionId: Option<int>,
    debtId: Option<int>)
}
