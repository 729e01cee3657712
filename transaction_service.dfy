// TransactionService (src/services/transaction_service.rs): the ledger
// writes. Each one runs in a database transaction (a `Session`) that is
// committed only on success, so a failed write leaves the accounts and
// transactions tables as they were. Category resolution goes through the
// category service on the pool, outside that transaction, and stays.
//
// Each write is specified by a function of the old tables and the resolved
// destination (`CreateOutcome`, `UpdateOutcome`); the lemmas below state
// what the source promises about those functions.

module TransactionService {
  import opened Base
  import opened Uuids
  import opened Floats
  import opened Schema
  import opened Balances
  import opened Store
  import opened CategoryService
  import opened Calendar

  /** The tables a successful write commits, and the row it returns. */
  datatype Written = Written(accounts: Accounts, transactions: Transactions, transaction: Transaction)

  /** The name used to find or create the destination account when no
      destination id is given: the destination name, else the description. */
  function LookupName(req: CreateTransactionRequest): string {
    req.destinationName.GetOr(req.description)
  }

  /** The account inserted for an unknown destination name. */
  function ExternalAccount(name: string): (a: Account)
    ensures a.balance == 0.0 && a.accountType == ExternalType && a.name == name
  {
    Account(name, ExternalType, 0.0, "USD")
  }

  /** The amount check of `create_transaction`. */
  predicate ValidAmount(x: F64) {
    x.Finite? && x.v != 0.0
  }

  /** `find_or_create_category` fails only when it has to insert and the new
      id is taken. */
  predicate CategoryCollides(cats: map<Uuid, Category>, name: string, freshId: Uuid)
    requires UniqueCategoryNames(cats)
  {
    CategoryNamed(cats, name).None? && freshId in cats
  }

  /** The id `find_or_create_category` returns when it succeeds. */
  function CategoryIdFor(cats: map<Uuid, Category>, name: string, freshId: Uuid): Uuid
    requires UniqueCategoryNames(cats)
  {
    CategoryNamed(cats, name).GetOr(freshId)
  }

  /** The categories table after `find_or_create_category`. */
  function CategoriesAfter(cats: map<Uuid, Category>, name: string, now: int, freshId: Uuid): map<Uuid, Category>
    requires UniqueCategoryNames(cats)
  {
    if CategoryNamed(cats, name).Some? || freshId in cats then cats
    else cats[freshId := Category(freshId, name, None, None, now, now)]
  }

  /** Resolving a destination by name must insert an account, and the new
      id is taken. */
  predicate ExternalCollides(accts: Accounts, name: string, freshId: Uuid) {
    (forall a :: a in accts ==> accts[a].name != name) && freshId in accts
  }

  /** `dest` is what a lookup of `name` may return: an account with exactly
      that name, or, when there is none, the new id. */
  predicate ResolvesName(accts: Accounts, name: string, freshId: Uuid, dest: Uuid) {
    || (dest in accts && accts[dest].name == name)
    || ((forall a :: a in accts ==> accts[a].name != name) && dest == freshId)
  }

  /** The accounts table with `id` added as a new External account named
      `name`, unless it already exists. */
  function WithAccount(accts: Accounts, id: Uuid, name: string): (r: Accounts)
    ensures id in r && r.Keys == accts.Keys + {id}
    ensures forall a :: a in accts ==> r[a] == accts[a]
  {
    if id in accts then accts else accts[id := ExternalAccount(name)]
  }

  // ---------------------------------------------------------------- create

  /** The destination `create_transaction` may resolve: the explicit id, or
      a lookup of `LookupName(req)`. */
  predicate CreateResolves(accts: Accounts, req: CreateTransactionRequest, freshAccountId: Uuid, dest: Uuid) {
    match req.destinationAccountId
    case Some(d) => dest == d
    case None => ResolvesName(accts, LookupName(req), freshAccountId, dest)
  }

  /** What `create_transaction` does inside its database transaction, once
      the category has been resolved to `categoryId` and the destination to
      `dest`. */
  function CreateOutcome(accts: Accounts, txs: Transactions, budgets: set<Uuid>, req: CreateTransactionRequest, categoryId: Uuid,
                         now: int, freshAccountId: Uuid, freshTransactionId: Uuid, dest: Uuid): Result<Written, DbError>
  {
    if req.destinationAccountId.None? && ExternalCollides(accts, LookupName(req), freshAccountId) then
      Failure(UniqueViolation)
    else
      var accts1 := if req.destinationAccountId.Some? then accts else WithAccount(accts, dest, LookupName(req));
      var destinationName := req.destinationName.GetOr(if dest in accts1 then accts1[dest].name else "");
      if !ValidAmount(req.amount) then Failure(Protocol(InvalidAmountMessage))
      else if req.sourceAccountId == dest then Failure(Protocol(SameAccountMessage))
      else if freshTransactionId in txs then Failure(UniqueViolation)
      else if req.sourceAccountId !in accts1 || dest !in accts1 || !BudgetKnown(budgets, req.budgetId) then
        Failure(ForeignKeyViolation)
      else
        var t := Transaction(freshTransactionId, req.sourceAccountId, dest, Some(destinationName), req.description,
                             req.amount.v, req.category, Some(categoryId), req.budgetId,
                             req.transactionDate.GetOr(now), now, now);
        Success(Written(ApplyEffect(accts1, t.sourceAccountId, dest, t.amount), txs[t.id := t], t))
  }

  /** The two balance UPDATEs of `create_transaction` with their
      rows-affected checks (transaction_service.rs:365-429): each must touch
      exactly one row, else the write fails with an invariant violation. */
  method ApplyCheckedEffects(s: Session, source: Uuid, destination: Uuid, amount: real)
    returns (err: Option<DbError>)
    modifies s
    ensures s.transactions == old(s.transactions)
    ensures err.None? <==> source in old(s.accounts) && destination in old(s.accounts)
    ensures source !in old(s.accounts) ==> err == Some(Protocol(SourceUpdateFailedMessage))
    ensures source in old(s.accounts) && destination !in old(s.accounts) ==>
      err == Some(Protocol(DestinationUpdateFailedMessage))
    ensures err.None? ==> s.accounts == ApplyEffect(old(s.accounts), source, destination, amount)
  {
    var abs := Abs(amount);
    var first, second := -abs, abs;
    if amount < 0.0 {
      first, second := abs, -abs;
    }
    var ra1 := s.UpdateBalance(source, first);
    if ra1 != 1 {
      return Some(Protocol(SourceUpdateFailedMessage));
    }
    var ra2 := s.UpdateBalance(destination, second);
    if ra2 != 1 {
      return Some(Protocol(DestinationUpdateFailedMessage));
    }
    err := None;
  }

  /** Destination lookup by name (transaction_service.rs:276-304 and
      505-536): an account with exactly that name is reused, otherwise a new
      External account with balance 0 is inserted. */
  method ResolveByName(s: Session, name: string, freshId: Uuid) returns (r: Result<Uuid, DbError>)
    modifies s
    ensures s.transactions == old(s.transactions)
    ensures r.Failure? <==> ExternalCollides(old(s.accounts), name, freshId)
    ensures r.Failure? ==> r.error == UniqueViolation
    ensures r.Success? ==> ResolvesName(old(s.accounts), name, freshId, r.value)
    ensures r.Success? ==> s.accounts == WithAccount(old(s.accounts), r.value, name)
  {
    var found := s.FindAccountByName(name);
    if found.Some? {
      return Success(found.value);
    }
    r := s.InsertExternalAccount(freshId, name);
  }

  /** The statements of `create_transaction` after the category lookup
      (transaction_service.rs:269-432), on the open session. */
  method CreateInSession(s: Session, req: CreateTransactionRequest, categoryId: Uuid, now: int,
                         freshAccountId: Uuid, freshTransactionId: Uuid)
    returns (r: Result<Transaction, DbError>, ghost dest: Uuid)
    modifies s
    ensures CreateResolves(old(s.accounts), req, freshAccountId, dest)
    ensures var o := CreateOutcome(old(s.accounts), old(s.transactions), s.budgets, req, categoryId, now,
                                   freshAccountId, freshTransactionId, dest);
      && (o.Failure? ==> r == Failure(o.error))
      && (o.Success? ==> r == Success(o.value.transaction)
                         && s.accounts == o.value.accounts && s.transactions == o.value.transactions)
  {
    var destination: Uuid;
    if req.destinationAccountId.Some? {
      destination := req.destinationAccountId.value;
    } else {
      var resolved := ResolveByName(s, LookupName(req), freshAccountId);
      if resolved.Failure? {
        dest := freshAccountId;
        return Failure(resolved.error), dest;
      }
      destination := resolved.value;
    }
    dest := destination;
    var destinationName: string;
    if req.destinationName.Some? {
      destinationName := req.destinationName.value;
    } else {
      var name := s.AccountName(destination);
      destinationName := name.GetOr("");
    }
    if !ValidAmount(req.amount) {
      return Failure(Protocol(InvalidAmountMessage)), dest;
    }
    if req.sourceAccountId == destination {
      return Failure(Protocol(SameAccountMessage)), dest;
    }
    var t := Transaction(freshTransactionId, req.sourceAccountId, destination, Some(destinationName),
                         req.description, req.amount.v, req.category, Some(categoryId),
                         req.budgetId, req.transactionDate.GetOr(now), now, now);
    var inserted := s.InsertTransaction(t);
    if inserted.Failure? {
      return Failure(inserted.error), dest;
    }
    var err := ApplyCheckedEffects(s, t.sourceAccountId, t.destinationAccountId, t.amount);
    assert err.None?;
    r := Success(t);
  }

  /** `create_transaction`: the category first (on the pool, so it stays
      even if the write fails), then the write in a database transaction,
      committed only on success. `dest` is the destination the lookup chose. */
  method CreateTransaction(db: Database, req: CreateTransactionRequest, now: int,
                           freshCategoryId: Uuid, freshAccountId: Uuid, freshTransactionId: Uuid)
    returns (r: Result<Transaction, DbError>, ghost dest: Uuid)
    requires db.Valid()
    modifies db
    ensures db.Valid()
    ensures db.rules == old(db.rules)
    ensures db.categories == CategoriesAfter(old(db.categories), req.category, now, freshCategoryId)
    ensures TotalBalance(db.accounts) == TotalBalance(old(db.accounts))
    ensures r.Failure? ==> db.accounts == old(db.accounts) && db.transactions == old(db.transactions)
    ensures CategoryCollides(old(db.categories), req.category, freshCategoryId) ==> r == Failure(UniqueViolation)
    ensures !CategoryCollides(old(db.categories), req.category, freshCategoryId) ==>
      && CreateResolves(old(db.accounts), req, freshAccountId, dest)
      && var o := CreateOutcome(old(db.accounts), old(db.transactions), db.budgets, req,
                                CategoryIdFor(old(db.categories), req.category, freshCategoryId),
                                now, freshAccountId, freshTransactionId, dest);
         && (o.Failure? ==> r == Failure(o.error))
         && (o.Success? ==> r == Success(o.value.transaction)
                            && db.accounts == o.value.accounts && db.transactions == o.value.transactions)
  {
    var session := new Session.Begin(db);
    var category := FindOrCreateCategory(db, req.category, now, freshCategoryId);
    if category.Failure? {
      return Failure(category.error), freshAccountId;
    }
    r, dest := CreateInSession(session, req, category.value.id, now, freshAccountId, freshTransactionId);
    if r.Success? {
      CreateKeepsLedger(db.accounts, db.transactions, db.budgets, db.opening, req, category.value.id, now,
                        freshAccountId, freshTransactionId, dest);
      session.Commit(db, OpeningAfter(db.opening, db.accounts, dest));
    }
  }

  /** Opening balances after a write that may have created account `dest`. */
  ghost function OpeningAfter(opening: map<Uuid, real>, accts: Accounts, dest: Uuid): map<Uuid, real> {
    if dest in accts then opening else opening[dest := 0.0]
  }

  /** A successful create keeps the ledger consistent and the sum of all
      balances unchanged. */
  lemma CreateKeepsLedger(accts: Accounts, txs: Transactions, budgets: set<Uuid>, opening: map<Uuid, real>,
                          req: CreateTransactionRequest, categoryId: Uuid, now: int,
                          freshAccountId: Uuid, freshTransactionId: Uuid, dest: Uuid)
    requires LedgerValid(accts, txs, opening) && BudgetKeysHold(budgets, txs)
    requires CreateOutcome(accts, txs, budgets, req, categoryId, now, freshAccountId, freshTransactionId, dest).Success?
    ensures var w := CreateOutcome(accts, txs, budgets, req, categoryId, now, freshAccountId, freshTransactionId, dest).value;
      && LedgerValid(w.accounts, w.transactions, OpeningAfter(opening, accts, dest))
      && BudgetKeysHold(budgets, w.transactions)
      && TotalBalance(w.accounts) == TotalBalance(accts)
  {
    var w := CreateOutcome(accts, txs, budgets, req, categoryId, now, freshAccountId, freshTransactionId, dest).value;
    var t := w.transaction;
    var accts1 := if req.destinationAccountId.Some? then accts else WithAccount(accts, dest, LookupName(req));
    assert w.accounts == ApplyEffect(accts1, t.sourceAccountId, dest, t.amount);
    BudgetKeysAfterWrite(budgets, txs, t);
    if dest !in accts {
      assert accts1 == accts[dest := ExternalAccount(LookupName(req))];
      LedgerAfterRecordToNewAccount(accts, txs, opening, dest, ExternalAccount(LookupName(req)), t);
    } else {
      assert accts1 == accts;
      LedgerAfterRecord(accts1, txs, opening, t);
      ApplyPreservesTotal(accts1, t.sourceAccountId, dest, t.amount);
    }
  }

  /** Create rejects a zero or non-finite amount before anything is
      written (transaction_service.rs:323-325). */
  lemma CreateRejectsInvalidAmount(accts: Accounts, txs: Transactions, budgets: set<Uuid>, req: CreateTransactionRequest, categoryId: Uuid,
                                   now: int, freshAccountId: Uuid, freshTransactionId: Uuid, dest: Uuid)
    requires req.destinationAccountId.Some? || !ExternalCollides(accts, LookupName(req), freshAccountId)
    ensures !ValidAmount(req.amount) <==>
      CreateOutcome(accts, txs, budgets, req, categoryId, now, freshAccountId, freshTransactionId, dest)
        == Failure(Protocol(InvalidAmountMessage))
  {
  }

  /** Create rejects a destination equal to the source
      (transaction_service.rs:326-328). */
  lemma CreateRejectsSameAccount(accts: Accounts, txs: Transactions, budgets: set<Uuid>, req: CreateTransactionRequest, categoryId: Uuid,
                                 now: int, freshAccountId: Uuid, freshTransactionId: Uuid, dest: Uuid)
    requires req.destinationAccountId.Some? || !ExternalCollides(accts, LookupName(req), freshAccountId)
    requires ValidAmount(req.amount)
    ensures req.sourceAccountId == dest <==>
      CreateOutcome(accts, txs, budgets, req, categoryId, now, freshAccountId, freshTransactionId, dest)
        == Failure(Protocol(SameAccountMessage))
  {
  }

  /** When nothing collides, the amount is valid, the two accounts exist
      and differ and the budget, if any, exists, create succeeds. */
  lemma CreateSucceeds(accts: Accounts, txs: Transactions, budgets: set<Uuid>, req: CreateTransactionRequest, categoryId: Uuid,
                       now: int, freshAccountId: Uuid, freshTransactionId: Uuid, dest: Uuid)
    requires CreateResolves(accts, req, freshAccountId, dest)
    requires req.destinationAccountId.Some? || !ExternalCollides(accts, LookupName(req), freshAccountId)
    requires ValidAmount(req.amount) && req.sourceAccountId != dest
    requires freshTransactionId !in txs && req.sourceAccountId in accts
    requires req.destinationAccountId.Some? ==> dest in accts
    requires BudgetKnown(budgets, req.budgetId)
    ensures CreateOutcome(accts, txs, budgets, req, categoryId, now, freshAccountId, freshTransactionId, dest).Success?
  {
  }

  /** A budget id that names no budget makes the INSERT violate `fk_budget`
      (migrations.rs:382), so create fails and nothing is committed. */
  lemma CreateRejectsUnknownBudget(accts: Accounts, txs: Transactions, budgets: set<Uuid>, req: CreateTransactionRequest,
                                   categoryId: Uuid, now: int, freshAccountId: Uuid, freshTransactionId: Uuid, dest: Uuid)
    requires !BudgetKnown(budgets, req.budgetId)
    ensures CreateOutcome(accts, txs, budgets, req, categoryId, now, freshAccountId, freshTransactionId, dest).Failure?
  {
  }

  /** What a successful create records: the requested fields, the resolved
      destination and its stored name, the transaction added under its new
      id, and the balance effect of (source, destination, amount) applied to
      the accounts, with the new External account when one was created. */
  lemma CreateRecords(accts: Accounts, txs: Transactions, budgets: set<Uuid>, req: CreateTransactionRequest, categoryId: Uuid,
                      now: int, freshAccountId: Uuid, freshTransactionId: Uuid, dest: Uuid)
    requires CreateResolves(accts, req, freshAccountId, dest)
    requires CreateOutcome(accts, txs, budgets, req, categoryId, now, freshAccountId, freshTransactionId, dest).Success?
    ensures var w := CreateOutcome(accts, txs, budgets, req, categoryId, now, freshAccountId, freshTransactionId, dest).value;
      var t := w.transaction;
      var accts1 := WithAccount(accts, dest, LookupName(req));
      && t.id == freshTransactionId && t.id !in txs
      && t.sourceAccountId == req.sourceAccountId && t.destinationAccountId == dest
      && t.sourceAccountId != t.destinationAccountId && t.sourceAccountId in accts
      && req.amount == Finite(t.amount) && t.amount != 0.0
      && t.description == req.description && t.category == req.category && t.categoryId == Some(categoryId)
      && t.budgetId == req.budgetId && t.transactionDate == req.transactionDate.GetOr(now)
      && t.createdAt == now && t.updatedAt == now
      && (req.destinationAccountId.Some? ==> dest in accts)
      && (dest !in accts ==> dest == freshAccountId && forall a :: a in accts ==> accts[a].name != LookupName(req))
      && t.destinationName == Some(req.destinationName.GetOr(accts1[dest].name))
      && w.transactions == txs[t.id := t]
      && w.accounts == ApplyEffect(accts1, t.sourceAccountId, dest, t.amount)
  {
  }

  /** Double entry: a successful create moves `amount` out of the source and
      into the destination and changes no other balance, so the two changes
      sum to zero (transaction_service.rs:365-429). */
  lemma CreateMovesAmount(accts: Accounts, txs: Transactions, budgets: set<Uuid>, req: CreateTransactionRequest, categoryId: Uuid,
                          now: int, freshAccountId: Uuid, freshTransactionId: Uuid, dest: Uuid)
    requires CreateOutcome(accts, txs, budgets, req, categoryId, now, freshAccountId, freshTransactionId, dest).Success?
    ensures var w := CreateOutcome(accts, txs, budgets, req, categoryId, now, freshAccountId, freshTransactionId, dest).value;
      var t := w.transaction;
      var before := WithAccount(accts, dest, LookupName(req));
      && w.accounts[t.sourceAccountId].balance == before[t.sourceAccountId].balance - t.amount
      && w.accounts[dest].balance == before[dest].balance + t.amount
      && (forall a :: a in before && a != t.sourceAccountId && a != dest ==> w.accounts[a] == before[a])
  {
    var w := CreateOutcome(accts, txs, budgets, req, categoryId, now, freshAccountId, freshTransactionId, dest).value;
    var t := w.transaction;
    var before := WithAccount(accts, dest, LookupName(req));
    assert req.destinationAccountId.Some? ==> before == accts;
    ApplyEffectIsDelta(before, t.sourceAccountId, dest, t.amount);
    DeltasCancel(t.sourceAccountId, dest, t.amount);
  }

  // ---------------------------------------------------------------- update

  /** The destination `update_transaction` may resolve for the row `orig`:
      the explicit id, else a lookup of the destination name, else the old
      destination. */
  predicate UpdateResolves(accts: Accounts, req: UpdateTransactionRequest, orig: Transaction,
                           freshAccountId: Uuid, dest: Uuid) {
    match req.destinationAccountId
    case Some(d) => dest == d
    case None =>
      match req.destinationName
      case Some(n) => ResolvesName(accts, n, freshAccountId, dest)
      case None => dest == orig.destinationAccountId
  }

  /** True when the update looks the destination up by name. */
  predicate ByName(req: UpdateTransactionRequest) {
    req.destinationAccountId.None? && req.destinationName.Some?
  }

  /** The category id `update_transaction` writes: the resolved one when a
      category was given and its resolution succeeded. */
  function CategoryResolution(cats: map<Uuid, Category>, req: UpdateTransactionRequest, freshId: Uuid): Option<Uuid>
    requires UniqueCategoryNames(cats)
  {
    if req.category.Some? && !CategoryCollides(cats, req.category.value, freshId)
    then Some(CategoryIdFor(cats, req.category.value, freshId))
    else None
  }

  /** The row `update_transaction` writes: the supplied fields replace the
      old ones, the source never changes, `updated_at` is now. */
  function Patched(orig: Transaction, req: UpdateTransactionRequest, categoryId: Option<Uuid>, now: int,
                   dest: Uuid, destinationName: Option<string>): Transaction
    requires req.amount.Some? ==> req.amount.value.Finite?
  {
    orig.(destinationAccountId := dest,
          destinationName := destinationName,
          description := req.description.GetOr(orig.description),
          amount := if req.amount.Some? then req.amount.value.v else orig.amount,
          category := req.category.GetOr(orig.category),
          categoryId := if req.category.Some? && categoryId.Some? then categoryId else orig.categoryId,
          budgetId := if req.budgetId.Some? then req.budgetId else orig.budgetId,
          transactionDate := req.transactionDate.GetOr(orig.transactionDate),
          updatedAt := now)
  }

  /** What `update_transaction` does inside its database transaction to the
      existing row `id`, once the category resolution gave `categoryId` and
      the destination resolved to `dest`; `accts0` is the accounts table
      after the old effect was reversed. */
  function UpdateOutcome(accts: Accounts, txs: Transactions, budgets: set<Uuid>, id: Uuid, req: UpdateTransactionRequest,
                         categoryId: Option<Uuid>, now: int, freshAccountId: Uuid, dest: Uuid): Result<Written, DbError>
    requires id in txs
  {
    var orig := txs[id];
    var accts0 := ReverseEffect(accts, orig);
    if ByName(req) && ExternalCollides(accts0, req.destinationName.value, freshAccountId) then
      Failure(UniqueViolation)
    else
      var accts1 := if ByName(req) then WithAccount(accts0, dest, req.destinationName.value) else accts0;
      var destinationName :=
        if req.destinationAccountId.Some? then
          if req.destinationName.None? && dest in accts1 then Some(accts1[dest].name) else orig.destinationName
        else if req.destinationName.Some? then req.destinationName
        else orig.destinationName;
      WriteOutcome(accts1, txs, budgets, id, req, categoryId, now, dest, destinationName)
  }

  /** The write half of `update_transaction`, once the destination is
      known: a non-finite amount is not a valid statement, a missing account
      or budget violates a foreign key, and otherwise the patched row is stored and
      its balance effect applied. */
  function WriteOutcome(accts: Accounts, txs: Transactions, budgets: set<Uuid>, id: Uuid, req: UpdateTransactionRequest,
                        categoryId: Option<Uuid>, now: int, dest: Uuid, destinationName: Option<string>)
    : Result<Written, DbError>
    requires id in txs
  {
    var orig := txs[id];
    if req.amount.Some? && !req.amount.value.Finite? then Failure(InvalidStatement)
    else
      var t := Patched(orig, req, categoryId, now, dest, destinationName);
      if orig.sourceAccountId !in accts || dest !in accts || !BudgetKnown(budgets, t.budgetId) then
        Failure(ForeignKeyViolation)
      else
        Success(Written(ApplyEffect(accts, orig.sourceAccountId, dest, t.amount), txs[id := t], t))
  }

  /** The UPDATE and the balance effect it is followed by
      (transaction_service.rs:543-558). */
  method WriteInSession(s: Session, id: Uuid, req: UpdateTransactionRequest, categoryId: Option<Uuid>,
                        now: int, dest: Uuid, destinationName: Option<string>)
    returns (r: Result<Transaction, DbError>)
    requires id in s.transactions && s.transactions[id].id == id
    modifies s
    ensures var o := WriteOutcome(old(s.accounts), old(s.transactions), s.budgets, id, req, categoryId, now, dest, destinationName);
      && (o.Failure? ==> r == Failure(o.error))
      && (o.Success? ==> r == Success(o.value.transaction)
                         && s.accounts == o.value.accounts && s.transactions == o.value.transactions)
  {
    var orig := s.transactions[id];
    if req.amount.Some? && !req.amount.value.Finite? {
      // `amount = inf` or `amount = NaN` is not a valid UPDATE statement
      return Failure(InvalidStatement);
    }
    var t := Patched(orig, req, categoryId, now, dest, destinationName);
    var updated := s.UpdateTransactionRow(t);
    if updated.Failure? {
      return Failure(updated.error);
    }
    s.ApplyBalanceEffects(orig.sourceAccountId, dest, t.amount);
    r := Success(t);
  }

  /** The statements of `update_transaction` inside its database
      transaction (transaction_service.rs:448-564). */
  method UpdateInSession(s: Session, id: Uuid, req: UpdateTransactionRequest, categoryId: Option<Uuid>,
                         now: int, freshAccountId: Uuid)
    returns (r: Result<Transaction, DbError>, ghost dest: Uuid)
    requires id in s.transactions && s.transactions[id].id == id
    modifies s
    ensures UpdateResolves(ReverseEffect(old(s.accounts), old(s.transactions)[id]), req, old(s.transactions)[id],
                           freshAccountId, dest)
    ensures var o := UpdateOutcome(old(s.accounts), old(s.transactions), s.budgets, id, req, categoryId, now, freshAccountId, dest);
      && (o.Failure? ==> r == Failure(o.error))
      && (o.Success? ==> r == Success(o.value.transaction)
                         && s.accounts == o.value.accounts && s.transactions == o.value.transactions)
  {
    var orig := s.transactions[id];
    s.ReverseBalanceEffects(orig);
    var destination := orig.destinationAccountId;
    var destinationName := orig.destinationName;
    if req.destinationAccountId.Some? {
      destination := req.destinationAccountId.value;
      if req.destinationName.None? {
        var name := s.AccountName(destination);
        if name.Some? {
          destinationName := name;
        }
      }
    } else if req.destinationName.Some? {
      var resolved := ResolveByName(s, req.destinationName.value, freshAccountId);
      if resolved.Failure? {
        dest := freshAccountId;
        return Failure(resolved.error), dest;
      }
      destination := resolved.value;
      destinationName := req.destinationName;
    }
    dest := destination;
    ghost var accts0 := ReverseEffect(old(s.accounts), orig);
    assert !(ByName(req) && ExternalCollides(accts0, req.destinationName.value, freshAccountId));
    assert s.accounts == if ByName(req) then WithAccount(accts0, dest, req.destinationName.value) else accts0;
    r := WriteInSession(s, id, req, categoryId, now, destination, destinationName);
  }


  /** `update_transaction`: an unknown id gives None and changes nothing.
      Otherwise the category (when given) is resolved on the pool, and the
      write runs in a database transaction committed only on success. */
  method UpdateTransaction(db: Database, id: Uuid, req: UpdateTransactionRequest, now: int,
                           freshCategoryId: Uuid, freshAccountId: Uuid)
    returns (r: Result<Option<Transaction>, DbError>, ghost dest: Uuid)
    requires db.Valid()
    modifies db
    ensures db.Valid()
    ensures db.rules == old(db.rules)
    ensures TotalBalance(db.accounts) == TotalBalance(old(db.accounts))
    ensures r.Failure? ==> db.accounts == old(db.accounts) && db.transactions == old(db.transactions)
    ensures id !in old(db.transactions) ==>
      r == Success(None) && db.accounts == old(db.accounts) && db.transactions == old(db.transactions)
      && db.categories == old(db.categories)
    ensures id in old(db.transactions) ==>
      && db.categories == (if req.category.Some? then CategoriesAfter(old(db.categories), req.category.value, now, freshCategoryId)
                           else old(db.categories))
      && UpdateResolves(ReverseEffect(old(db.accounts), old(db.transactions)[id]), req, old(db.transactions)[id],
                        freshAccountId, dest)
      && var o := UpdateOutcome(old(db.accounts), old(db.transactions), db.budgets, id, req,
                                CategoryResolution(old(db.categories), req, freshCategoryId), now, freshAccountId, dest);
         && (o.Failure? ==> r == Failure(o.error))
         && (o.Success? ==> r == Success(Some(o.value.transaction))
                            && db.accounts == o.value.accounts && db.transactions == o.value.transactions)
  {
    if id !in db.transactions {
      return Success(None), freshAccountId;
    }
    var session := new Session.Begin(db);
    var categoryId: Option<Uuid> := None;
    if req.category.Some? {
      var category := FindOrCreateCategory(db, req.category.value, now, freshCategoryId);
      if category.Success? {
        categoryId := Some(category.value.id);
      }
    }
    assert categoryId == CategoryResolution(old(db.categories), req, freshCategoryId);
    assert session.accounts == old(db.accounts) && session.transactions == old(db.transactions);
    var written;
    written, dest := UpdateInSession(session, id, req, categoryId, now, freshAccountId);
    if written.Failure? {
      return Failure(written.error), dest;
    }
    UpdateKeepsLedger(db.accounts, db.transactions, db.budgets, db.opening, id, req, categoryId, now, freshAccountId, dest);
    session.Commit(db, OpeningAfter(db.opening, db.accounts, dest));
    r := Success(Some(written.value));
  }

  /** A successful update keeps the ledger consistent and the sum of all
      balances unchanged: it reverses the old effect, may add an External
      account with balance 0, and applies the new effect. */
  lemma UpdateKeepsLedger(accts: Accounts, txs: Transactions, budgets: set<Uuid>, opening: map<Uuid, real>, id: Uuid,
                          req: UpdateTransactionRequest, categoryId: Option<Uuid>, now: int,
                          freshAccountId: Uuid, dest: Uuid)
    requires LedgerValid(accts, txs, opening) && BudgetKeysHold(budgets, txs) && id in txs
    requires UpdateOutcome(accts, txs, budgets, id, req, categoryId, now, freshAccountId, dest).Success?
    ensures var w := UpdateOutcome(accts, txs, budgets, id, req, categoryId, now, freshAccountId, dest).value;
      && LedgerValid(w.accounts, w.transactions, OpeningAfter(opening, accts, dest))
      && BudgetKeysHold(budgets, w.transactions)
      && TotalBalance(w.accounts) == TotalBalance(accts)
  {
    var orig := txs[id];
    assert orig.id == id && orig.sourceAccountId in accts by {
      assert LedgerValid(accts, txs, opening);
    }
    UpdateOutcomeShape(accts, txs, budgets, id, req, categoryId, now, freshAccountId, dest);
    var w := UpdateOutcome(accts, txs, budgets, id, req, categoryId, now, freshAccountId, dest).value;
    BudgetKeysAfterWrite(budgets, txs, w.transaction);
    ReverseEffectIsDelta(accts, orig);
    if dest in accts {
      LedgerAfterReplace(accts, txs, opening, w.transaction);
    } else {
      LedgerAfterReplaceToNewAccount(accts, txs, opening, w.transaction, ExternalAccount(req.destinationName.value));
    }
  }

  /** The shape of a successful update: the old row's effect reversed,
      possibly a new External account, and the new row's effect applied. */
  lemma UpdateOutcomeShape(accts: Accounts, txs: Transactions, budgets: set<Uuid>, id: Uuid, req: UpdateTransactionRequest,
                           categoryId: Option<Uuid>, now: int, freshAccountId: Uuid, dest: Uuid)
    requires id in txs && txs[id].id == id && txs[id].sourceAccountId in accts
    requires UpdateOutcome(accts, txs, budgets, id, req, categoryId, now, freshAccountId, dest).Success?
    ensures var w := UpdateOutcome(accts, txs, budgets, id, req, categoryId, now, freshAccountId, dest).value;
      var accts0 := ReverseEffect(accts, txs[id]);
      && w.transaction.id == id
      && w.transaction.sourceAccountId == txs[id].sourceAccountId && w.transaction.sourceAccountId in accts0
      && w.transaction.destinationAccountId == dest
      && w.transactions == txs[id := w.transaction]
      && (dest !in accts0 ==> ByName(req))
      && w.accounts == ApplyEffect(if dest in accts0 then accts0 else accts0[dest := ExternalAccount(req.destinationName.value)],
                                   txs[id].sourceAccountId, dest, w.transaction.amount)
  {
  }

  /** An update that changes neither the amount nor the destination puts
      every balance back where it was: reversing and re-applying the same
      effect cancel (transaction_service.rs:448, 558). */
  lemma UpdateKeepsBalancesWhenMoneyUnchanged(accts: Accounts, txs: Transactions, budgets: set<Uuid>, id: Uuid, req: UpdateTransactionRequest,
                                              categoryId: Option<Uuid>, now: int, freshAccountId: Uuid, dest: Uuid)
    requires id in txs
    requires req.amount.None? && req.destinationAccountId.None? && req.destinationName.None?
    requires UpdateResolves(ReverseEffect(accts, txs[id]), req, txs[id], freshAccountId, dest)
    requires UpdateOutcome(accts, txs, budgets, id, req, categoryId, now, freshAccountId, dest).Success?
    ensures UpdateOutcome(accts, txs, budgets, id, req, categoryId, now, freshAccountId, dest).value.accounts == accts
  {
    ReverseUndoesApply(accts, txs[id]);
  }

  /** What a successful update writes: the id, the source and the creation
      time never change; every other field is the supplied value or the old
      one; the destination is the resolved one and the amount is the new one
      or the old one (transaction_service.rs:455-547). */
  lemma UpdateRecords(accts: Accounts, txs: Transactions, budgets: set<Uuid>, id: Uuid, req: UpdateTransactionRequest,
                      categoryId: Option<Uuid>, now: int, freshAccountId: Uuid, dest: Uuid)
    requires id in txs
    requires UpdateOutcome(accts, txs, budgets, id, req, categoryId, now, freshAccountId, dest).Success?
    ensures var w := UpdateOutcome(accts, txs, budgets, id, req, categoryId, now, freshAccountId, dest).value;
      var orig := txs[id];
      var t := w.transaction;
      && t.id == orig.id && t.sourceAccountId == orig.sourceAccountId && t.createdAt == orig.createdAt
      && t.destinationAccountId == dest && t.updatedAt == now
      && (req.amount.Some? ==> req.amount.value == Finite(t.amount))
      && (req.amount.None? ==> t.amount == orig.amount)
      && t.description == req.description.GetOr(orig.description)
      && t.category == req.category.GetOr(orig.category)
      && t.transactionDate == req.transactionDate.GetOr(orig.transactionDate)
      && (req.budgetId.Some? ==> t.budgetId == req.budgetId) && (req.budgetId.None? ==> t.budgetId == orig.budgetId)
      && (ByName(req) ==> t.destinationName == req.destinationName)
      && (req.destinationAccountId.None? && req.destinationName.None? ==> t.destinationName == orig.destinationName)
      && w.transactions == txs[id := t]
      && w.transactions.Keys == txs.Keys
  {
  }

  /** Unlike create, update does not check the amount or that source and
      destination differ: a finite zero amount moved onto the source account
      itself is written. */
  lemma UpdateSkipsValidation(accts: Accounts, txs: Transactions, budgets: set<Uuid>, id: Uuid, categoryId: Option<Uuid>, now: int,
                              freshAccountId: Uuid)
    requires id in txs && txs[id].sourceAccountId in accts && BudgetKnown(budgets, txs[id].budgetId)
    ensures var req := EmptyUpdate.(destinationAccountId := Some(txs[id].sourceAccountId), amount := Some(Finite(0.0)));
      var o := UpdateOutcome(accts, txs, budgets, id, req, categoryId, now, freshAccountId, txs[id].sourceAccountId);
      && o.Success?
      && o.value.transaction.sourceAccountId == o.value.transaction.destinationAccountId
      && o.value.transaction.amount == 0.0
  {
    ReverseEffectIsDelta(accts, txs[id]);
  }

  /** A non-finite amount makes the UPDATE statement invalid, so update
      fails and nothing is committed. */
  lemma UpdateRejectsNonFinite(accts: Accounts, txs: Transactions, budgets: set<Uuid>, id: Uuid, req: UpdateTransactionRequest,
                               categoryId: Option<Uuid>, now: int, freshAccountId: Uuid, dest: Uuid)
    requires id in txs
    requires !ByName(req) || !ExternalCollides(ReverseEffect(accts, txs[id]), req.destinationName.value, freshAccountId)
    requires req.amount.Some? && !req.amount.value.Finite?
    ensures UpdateOutcome(accts, txs, budgets, id, req, categoryId, now, freshAccountId, dest) == Failure(InvalidStatement)
  {
  }

  /** Setting a budget id that names no budget makes the UPDATE violate
      `fk_budget` (migrations.rs:382), so update fails and nothing is
      committed. */
  lemma UpdateRejectsUnknownBudget(accts: Accounts, txs: Transactions, budgets: set<Uuid>, id: Uuid,
                                   req: UpdateTransactionRequest, categoryId: Option<Uuid>, now: int,
                                   freshAccountId: Uuid, dest: Uuid)
    requires id in txs
    requires !BudgetKnown(budgets, req.budgetId)
    ensures UpdateOutcome(accts, txs, budgets, id, req, categoryId, now, freshAccountId, dest).Failure?
  {
  }

  // ---------------------------------------------------------- month window

  /** The date range of `get_monthly_incoming_transactions`: from midnight
      on the first of the month up to, not including, midnight on the first
      of the next month. A month outside 1..12 makes chrono's constructor
      return None, and the `unwrap` panics: that is None here. */
  function MonthWindow(year: int, month: int): (r: Option<(DateTime, DateTime)>)
    ensures r.Some? <==> 1 <= month <= 12
    ensures r.Some? ==> Stamp(r.value.0) < Stamp(r.value.1)
  {
    if 1 <= month <= 12 then
      var (ny, nm) := NextMonth(year, month);
      MonthStartOrder(year, month, ny, nm);
      Some((MonthStart(year, month), MonthStart(ny, nm)))
    else None
  }

  /** The window holds exactly the date-times of that month. */
  lemma MonthWindowSelects(year: int, month: int, t: DateTime)
    requires 1 <= month <= 12 && ValidTime(t)
    ensures var (start, end) := MonthWindow(year, month).value;
      (Stamp(start) <= Stamp(t) < Stamp(end)) <==> (t.date.year == year && t.date.month == month)
  {
    InMonth(t, year, month);
  }

  /** Consecutive windows meet: each ends where the next month's begins,
      December's where January of the next year begins. */
  lemma MonthWindowsTile(year: int, month: int)
    requires 1 <= month <= 12
    ensures var (ny, nm) := NextMonth(year, month);
      MonthWindow(year, month).value.1 == MonthWindow(ny, nm).value.0
    ensures month == 12 ==> MonthWindow(year, month).value.1 == MonthStart(year + 1, 1)
  {
  }

  // ---------------------------------------------------------------- delete

  /** `delete_transaction`: unknown id gives false and changes nothing;
      otherwise the row is deleted and its effect reversed. */
  method DeleteTransaction(db: Database, id: Uuid) returns (deleted: bool)
    requires db.Valid()
    modifies db
    ensures db.Valid()
    ensures db.categories == old(db.categories) && db.rules == old(db.rules)
    ensures deleted <==> id in old(db.transactions)
    ensures !deleted ==> db.accounts == old(db.accounts) && db.transactions == old(db.transactions)
    ensures deleted ==> db.transactions == old(db.transactions) - {id}
    ensures deleted ==> db.accounts == ReverseEffect(old(db.accounts), old(db.transactions)[id])
    ensures TotalBalance(db.accounts) == TotalBalance(old(db.accounts))
  {
    if id !in db.transactions {
      return false;
    }
    var t := db.transactions[id];
    var session := new Session.Begin(db);
    var rows := session.DeleteTransactionRow(id);
    session.ReverseBalanceEffects(t);
    LedgerAfterRemove(db.accounts, db.transactions, db.opening, id);
    ReversePreservesTotal(db.accounts, t);
    session.Commit(db, db.opening);
    deleted := rows > 0;
  }
}
