// TransactionRuleService (src/services/transaction_rule_service.rs): a
// ledger write followed by rule evaluation and a best-effort second update.
// An error of the first write is returned; an error of the rule fetch or of
// the follow-up update is swallowed, and the first write's row is returned
// instead.
//
// The rule fetch can fail on the database (`fetch_all` returns an error);
// that outcome is the parameter `rulesUnavailable`.

module TransactionRuleService {
  import opened Base
  import opened Uuids
  import opened Floats
  import opened Schema
  import opened RuleModel
  import opened Balances
  import opened Store
  import opened TransactionService
  import opened RuleService

  /** What a follow-up attempt returns when it was made: the follow-up row
      when the second update returned a row, else the first row. */
  function Chained(first: Transaction, followUp: Option<Result<Option<Transaction>, DbError>>): (t: Transaction)
    ensures t == first || (followUp.Some? && followUp.value == Success(Some(t)))
    ensures (followUp.None? || followUp.value.Failure? || followUp.value.value.None?) ==> t == first
  {
    if followUp.Some? && followUp.value.Success? && followUp.value.value.Some? then followUp.value.value.value
    else first
  }

  /** The rule patch for a freshly written row `t`: none when the rules
      cannot be fetched, else the outcome of the fetched rules. */
  ghost predicate PatchFor(rules: map<Uuid, Rule>, rulesUnavailable: bool, t: Transaction,
                           fetched: seq<Rule>, patch: Option<UpdateTransactionRequest>) {
    if rulesUnavailable then patch.None?
    else ActiveByPriority(rules, fetched) && patch == RulesOutcome(fetched, t)
  }

  /** The rule step shared by create and update: evaluate the rules against
      the row `t` and, when they give a patch, update the row with it. */
  method FollowUp(db: Database, t: Transaction, now: int, rulesUnavailable: bool,
                  freshCategoryId: Uuid, freshAccountId: Uuid)
    returns (r: Transaction, ghost fetched: seq<Rule>, ghost patch: Option<UpdateTransactionRequest>,
             ghost followUp: Option<Result<Option<Transaction>, DbError>>)
    requires db.Valid() && t.id in db.transactions && db.transactions[t.id] == t
    modifies db
    ensures db.Valid() && db.rules == old(db.rules)
    ensures TotalBalance(db.accounts) == TotalBalance(old(db.accounts))
    ensures PatchFor(old(db.rules), rulesUnavailable, t, fetched, patch)
    ensures followUp.Some? <==> patch.Some?
    ensures r == Chained(t, followUp)
    ensures r.id == t.id && r.id in db.transactions && db.transactions[r.id] == r
    ensures patch.Some? && r != t ==>
      && r.sourceAccountId == t.sourceAccountId && r.amount == t.amount && r.createdAt == t.createdAt
      && r.transactionDate == t.transactionDate && r.updatedAt == now
      && r.description == patch.value.description.GetOr(t.description)
      && r.category == patch.value.category.GetOr(t.category)
      && (patch.value.budgetId.Some? ==> r.budgetId == patch.value.budgetId)
      && (patch.value.destinationName.Some? ==> r.destinationName == patch.value.destinationName)
    ensures (patch.None? || followUp.value.Failure?) ==>
      db.accounts == old(db.accounts) && db.transactions == old(db.transactions)
    ensures patch.Some? && !BudgetKnown(db.budgets, patch.value.budgetId) ==>
      r == t && db.accounts == old(db.accounts) && db.transactions == old(db.transactions)
  {
    followUp := None;
    r := t;
    if rulesUnavailable {
      return r, [], None, followUp;
    }
    var p;
    p, fetched := ApplyRulesToTransaction(db, t);
    patch := p;
    if p.None? {
      return;
    }
    RulesOutcomeSpec(fetched, t);
    ghost var accts, txs, cats := db.accounts, db.transactions, db.categories;
    var updated;
    ghost var dest;
    updated, dest := TransactionService.UpdateTransaction(db, t.id, p.value, now, freshCategoryId, freshAccountId);
    followUp := Some(updated);
    if !BudgetKnown(db.budgets, p.value.budgetId) {
      UpdateRejectsUnknownBudget(accts, txs, db.budgets, t.id, p.value, CategoryResolution(cats, p.value, freshCategoryId),
                                 now, freshAccountId, dest);
    }
    if updated.Success? {
      UpdateRecords(accts, txs, db.budgets, t.id, patch.value, CategoryResolution(cats, patch.value, freshCategoryId),
                    now, freshAccountId, dest);
      r := updated.value.value;
    }
  }

  /** `create_transaction` with rules: the ledger create, then the rule
      step on the created row. */
  method CreateTransaction(db: Database, req: CreateTransactionRequest, now: int,
                           freshCategoryId: Uuid, freshAccountId: Uuid, freshTransactionId: Uuid,
                           rulesUnavailable: bool, followCategoryId: Uuid, followAccountId: Uuid)
    returns (r: Result<Transaction, DbError>, ghost created: Result<Transaction, DbError>,
             ghost fetched: seq<Rule>, ghost patch: Option<UpdateTransactionRequest>,
             ghost followUp: Option<Result<Option<Transaction>, DbError>>)
    requires db.Valid()
    modifies db
    ensures db.Valid() && db.rules == old(db.rules)
    ensures TotalBalance(db.accounts) == TotalBalance(old(db.accounts))
    ensures created.Failure? ==>
      && r == created && patch.None? && followUp.None?
      && db.accounts == old(db.accounts) && db.transactions == old(db.transactions)
    ensures created.Success? ==>
      && PatchFor(old(db.rules), rulesUnavailable, created.value, fetched, patch)
      && (followUp.Some? <==> patch.Some?)
      && r == Success(Chained(created.value, followUp))
      && created.value.id !in old(db.transactions)
      && r.value.id == created.value.id && r.value.id in db.transactions && db.transactions[r.value.id] == r.value
  {
    ghost var accts, txs, cats := db.accounts, db.transactions, db.categories;
    ghost var dest;
    var c;
    c, dest := TransactionService.CreateTransaction(db, req, now, freshCategoryId, freshAccountId, freshTransactionId);
    created := c;
    if c.Failure? {
      return c, created, [], None, None;
    }
    CreateRecords(accts, txs, db.budgets, req, CategoryIdFor(cats, req.category, freshCategoryId), now, freshAccountId,
                  freshTransactionId, dest);
    var t;
    t, fetched, patch, followUp := FollowUp(db, c.value, now, rulesUnavailable, followCategoryId, followAccountId);
    r := Success(t);
  }

  /** `update_transaction` with rules: the ledger update; when it returned
      a row, the rule step on that row. */
  method UpdateTransaction(db: Database, id: Uuid, req: UpdateTransactionRequest, now: int,
                           freshCategoryId: Uuid, freshAccountId: Uuid,
                           rulesUnavailable: bool, followCategoryId: Uuid, followAccountId: Uuid)
    returns (r: Result<Option<Transaction>, DbError>, ghost first: Result<Option<Transaction>, DbError>,
             ghost fetched: seq<Rule>, ghost patch: Option<UpdateTransactionRequest>,
             ghost followUp: Option<Result<Option<Transaction>, DbError>>)
    requires db.Valid()
    modifies db
    ensures db.Valid() && db.rules == old(db.rules)
    ensures TotalBalance(db.accounts) == TotalBalance(old(db.accounts))
    ensures first.Failure? ==>
      && r == first && patch.None? && followUp.None?
      && db.accounts == old(db.accounts) && db.transactions == old(db.transactions)
    ensures first == Success(None) <==> id !in old(db.transactions)
    ensures first == Success(None) ==>
      && r == first && patch.None? && followUp.None?
      && db.accounts == old(db.accounts) && db.transactions == old(db.transactions) && db.categories == old(db.categories)
    ensures first.Success? && first.value.Some? ==>
      && PatchFor(old(db.rules), rulesUnavailable, first.value.value, fetched, patch)
      && (followUp.Some? <==> patch.Some?)
      && r == Success(Some(Chained(first.value.value, followUp)))
      && r.value.value.id == id && id in db.transactions && db.transactions[id] == r.value.value
  {
    ghost var accts, txs, cats := db.accounts, db.transactions, db.categories;
    ghost var dest;
    var u;
    u, dest := TransactionService.UpdateTransaction(db, id, req, now, freshCategoryId, freshAccountId);
    first := u;
    if u.Failure? || u.value.None? {
      return u, first, [], None, None;
    }
    UpdateRecords(accts, txs, db.budgets, id, req, CategoryResolution(cats, req, freshCategoryId), now, freshAccountId, dest);
    var t;
    t, fetched, patch, followUp := FollowUp(db, u.value.value, now, rulesUnavailable, followCategoryId, followAccountId);
    r := Success(Some(t));
  }

  /** `delete_transaction`: the ledger delete, unchanged. */
  method DeleteTransaction(db: Database, id: Uuid) returns (deleted: bool)
    requires db.Valid()
    modifies db
    ensures db.Valid()
    ensures db.categories == old(db.categories) && db.rules == old(db.rules)
    ensures deleted <==> id in old(db.transactions)
    ensures !deleted ==> db.accounts == old(db.accounts) && db.transactions == old(db.transactions)
    ensures deleted ==> db.transactions == old(db.transactions) - {id}
    ensures deleted ==> db.accounts == ReverseEffect(old(db.accounts), old(db.transactions)[id])
  {
    deleted := TransactionService.DeleteTransaction(db, id);
  }

  /** Every balance after a successful update: the old row's delta taken
      back and the new row's delta put on, with a new External account
      starting from 0 (transaction_service.rs:448, 505-558). */
  lemma UpdateMovesEffect(accts: Accounts, txs: Transactions, budgets: set<Uuid>, id: Uuid, req: UpdateTransactionRequest,
                          categoryId: Option<Uuid>, now: int, freshAccountId: Uuid, dest: Uuid)
    requires id in txs && txs[id].id == id && txs[id].sourceAccountId in accts
    requires UpdateOutcome(accts, txs, budgets, id, req, categoryId, now, freshAccountId, dest).Success?
    ensures var w := UpdateOutcome(accts, txs, budgets, id, req, categoryId, now, freshAccountId, dest).value;
      var o := txs[id];
      var t := w.transaction;
      && w.accounts.Keys == accts.Keys + {dest}
      && (forall a :: a in accts ==>
            w.accounts[a]
              == accts[a].(balance := accts[a].balance - Delta(o.sourceAccountId, o.destinationAccountId, o.amount, a)
                                      + Delta(o.sourceAccountId, dest, t.amount, a)))
      && (dest !in accts ==>
            w.accounts[dest] == ExternalAccount(req.destinationName.value).(balance := Delta(o.sourceAccountId, dest, t.amount, dest)))
  {
    var o := txs[id];
    UpdateOutcomeShape(accts, txs, budgets, id, req, categoryId, now, freshAccountId, dest);
    var w := UpdateOutcome(accts, txs, budgets, id, req, categoryId, now, freshAccountId, dest).value;
    var accts0 := ReverseEffect(accts, o);
    ReverseEffectIsDelta(accts, o);
    var accts1 := if dest in accts0 then accts0 else accts0[dest := ExternalAccount(req.destinationName.value)];
    ApplyEffectIsDelta(accts1, o.sourceAccountId, dest, w.transaction.amount);
  }

  /** A rule patch that sets the destination name re-points the row: the
      follow-up update takes the amount off the old destination and puts it
      on the account of that name (a new External one when none has it),
      and the source ends where it was. Unlike the batch rule paths, the
      destination id moves with the name
      (transaction_rule_service.rs:34-36, transaction_service.rs:505-558). */
  lemma NamePatchMovesEffect(accts: Accounts, txs: Transactions, budgets: set<Uuid>, id: Uuid, patch: UpdateTransactionRequest,
                             categoryId: Option<Uuid>, now: int, freshAccountId: Uuid, dest: Uuid)
    requires id in txs && txs[id].id == id && txs[id].sourceAccountId in accts && txs[id].destinationAccountId in accts
    requires patch.destinationAccountId.None? && patch.destinationName.Some? && patch.amount.None?
    requires UpdateOutcome(accts, txs, budgets, id, patch, categoryId, now, freshAccountId, dest).Success?
    requires var o := txs[id];
      o.sourceAccountId != o.destinationAccountId && dest != o.sourceAccountId && dest != o.destinationAccountId
    ensures var w := UpdateOutcome(accts, txs, budgets, id, patch, categoryId, now, freshAccountId, dest).value;
      var o := txs[id];
      && w.transaction.destinationAccountId == dest && w.transaction.destinationName == patch.destinationName
      && w.transaction.amount == o.amount
      && w.accounts[o.destinationAccountId].balance == accts[o.destinationAccountId].balance - o.amount
      && w.accounts[dest].balance == (if dest in accts then accts[dest].balance else 0.0) + o.amount
      && w.accounts[o.sourceAccountId] == accts[o.sourceAccountId]
      && (forall a :: a in accts && a != o.destinationAccountId && a != dest ==> w.accounts[a] == accts[a])
      && TotalBalance(w.accounts) == TotalBalance(accts)
  {
    UpdateMovesEffect(accts, txs, budgets, id, patch, categoryId, now, freshAccountId, dest);
    UpdateRecords(accts, txs, budgets, id, patch, categoryId, now, freshAccountId, dest);
    UpdateKeepsTotal(accts, txs, budgets, id, patch, categoryId, now, freshAccountId, dest);
  }

  /** The sum of all balances is the same after a successful update. */
  lemma UpdateKeepsTotal(accts: Accounts, txs: Transactions, budgets: set<Uuid>, id: Uuid, req: UpdateTransactionRequest,
                         categoryId: Option<Uuid>, now: int, freshAccountId: Uuid, dest: Uuid)
    requires id in txs && txs[id].id == id && txs[id].sourceAccountId in accts && txs[id].destinationAccountId in accts
    requires UpdateOutcome(accts, txs, budgets, id, req, categoryId, now, freshAccountId, dest).Success?
    ensures TotalBalance(UpdateOutcome(accts, txs, budgets, id, req, categoryId, now, freshAccountId, dest).value.accounts)
         == TotalBalance(accts)
  {
    var o := txs[id];
    UpdateOutcomeShape(accts, txs, budgets, id, req, categoryId, now, freshAccountId, dest);
    var w := UpdateOutcome(accts, txs, budgets, id, req, categoryId, now, freshAccountId, dest).value;
    var accts0 := ReverseEffect(accts, o);
    ReversePreservesTotal(accts, o);
    ReverseEffectIsDelta(accts, o);
    var accts1 := if dest in accts0 then accts0 else accts0[dest := ExternalAccount(req.destinationName.value)];
    if dest !in accts0 {
      NewAccountTotal(accts0, dest, ExternalAccount(req.destinationName.value));
    }
    ApplyPreservesTotal(accts1, o.sourceAccountId, dest, w.transaction.amount);
  }
}
