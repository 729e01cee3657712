// Rows of the ledger's tables and the requests that write them, with the
// field set the services read and write. Timestamps are seconds since the
// epoch; amounts and balances are exact reals.

module Schema {
  import opened Base
  import opened Uuids
  import opened Floats

  /** A row of `accounts`, keyed by its id in the store. */
  datatype Account = Account(name: string, accountType: string, balance: real, currency: string)

  /** A row of `transactions`. `account_id` always equals the source and is
      not kept separately. */
  datatype Transaction = Transaction(
    id: Uuid,
    sourceAccountId: Uuid,
    destinationAccountId: Uuid,
    destinationName: Option<string>,
    description: string,
    amount: real,
    category: string,
    categoryId: Option<Uuid>,
    budgetId: Option<Uuid>,
    transactionDate: int,
    createdAt: int,
    updatedAt: int)

  /** A row of `categories`. */
  datatype Category = Category(
    id: Uuid,
    name: string,
    description: Option<string>,
    groupId: Option<Uuid>,
    createdAt: int,
    updatedAt: int)

  datatype CreateTransactionRequest = CreateTransactionRequest(
    sourceAccountId: Uuid,
    destinationAccountId: Option<Uuid>,
    destinationName: Option<string>,
    description: string,
    amount: F64,
    category: string,
    budgetId: Option<Uuid>,
    transactionDate: Option<int>)

  /** A partial update: `None` leaves a field as it is. */
  datatype UpdateTransactionRequest = UpdateTransactionRequest(
    destinationAccountId: Option<Uuid>,
    destinationName: Option<string>,
    description: Option<string>,
    amount: Option<F64>,
    category: Option<string>,
    budgetId: Option<Uuid>,
    transactionDate: Option<int>)
  {
    /** True when the patch sets any of the four fields rules can set. */
    predicate SetsRuleField() {
      category.Some? || budgetId.Some? || description.Some? || destinationName.Some?
    }
  }

  const EmptyUpdate := UpdateTransactionRequest(None, None, None, None, None, None, None)

  datatype CreateCategoryRequest = CreateCategoryRequest(name: string, description: Option<string>, groupId: Option<Uuid>)

  datatype UpdateCategoryRequest = UpdateCategoryRequest(name: Option<string>, description: Option<string>, groupId: Option<Uuid>)

  /** The database errors the services can observe. */
  datatype DbError =
    | RowNotFound
    | Protocol(message: string)
    | UniqueViolation      // a primary key or the unique category name already taken
    | ForeignKeyViolation  // a referenced account does not exist
    | InvalidStatement     // the generated SQL text is not valid (a non-finite number)

  const InvalidAmountMessage := "Invalid amount: must be a finite, non-zero number"
  const SameAccountMessage := "Invalid transaction: source and destination accounts must differ"
  const SourceUpdateFailedMessage := "Invariant violation: source account update failed"
  const DestinationUpdateFailedMessage := "Invariant violation: destination account update failed"

  /** The account type of accounts created from a destination name. */
  const ExternalType := "External"
}
