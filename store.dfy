// The database as the services see it: the accounts, transactions,
// categories and rules tables, the constraints the schema declares
// (src/db/migrations.rs), and an open database transaction whose
// statements work on a private copy of the two ledger tables until commit.

module Store {
  import opened Base
  import opened Uuids
  import opened Schema
  import opened Balances
  import opened RuleModel

  class Database {
    var accounts: Accounts
    var transactions: Transactions
    var categories: map<Uuid, Category>
    var rules: map<Uuid, Rule>
    /** The ids of the `budgets` table, which no modelled operation
        changes. */
    const budgets: set<Uuid>
    /** The ids of the `category_groups` table, which no modelled operation
        changes either. */
    const groups: set<Uuid>
    /** Each account's balance before any recorded transaction. */
    ghost var opening: map<Uuid, real>

    /** The ledger tables and the catalogue tables are each consistent
        (see `LedgerValid` and `CatalogValid`), every transaction's budget
        exists (see `BudgetKeysHold`) and so does every category's group
        (see `GroupKeysHold`). */
    ghost predicate Valid()
      reads this
    {
      && LedgerValid(accounts, transactions, opening)
      && BudgetKeysHold(budgets, transactions)
      && CatalogValid(categories, rules)
      && GroupKeysHold(groups, categories)
    }

    constructor (accounts: Accounts, transactions: Transactions, categories: map<Uuid, Category>, rules: map<Uuid, Rule>,
                 budgets: set<Uuid>, groups: set<Uuid>)
      requires forall k :: k in transactions ==> transactions[k].id == k
      requires forall k :: k in transactions ==>
        transactions[k].sourceAccountId in accounts && transactions[k].destinationAccountId in accounts
      requires forall k :: k in transactions ==> BudgetKnown(budgets, transactions[k].budgetId)
      requires forall k :: k in categories ==> categories[k].id == k
      requires UniqueCategoryNames(categories)
      requires forall k :: k in categories ==> GroupKnown(groups, categories[k].groupId)
      requires forall k :: k in rules ==> rules[k].id == k
      ensures Valid()
      ensures this.accounts == accounts && this.transactions == transactions
      ensures this.categories == categories && this.rules == rules
      ensures this.budgets == budgets && this.groups == groups
    {
      this.budgets := budgets;
      this.groups := groups;
      this.accounts := accounts;
      this.transactions := transactions;
      this.categories := categories;
      this.rules := rules;
      this.opening := map a | a in accounts :: accounts[a].balance - NetFlow(transactions, a);
    }
  }

  /** Transaction keys match the rows' ids, the foreign keys of
      `transactions` hold (migrations.rs:78-79), and every balance is its
      opening balance plus the net flow of the recorded transactions: double
      entry. */
  ghost predicate LedgerValid(accounts: Accounts, transactions: Transactions, opening: map<Uuid, real>) {
    && (forall k :: k in transactions ==> transactions[k].id == k)
    && ForeignKeysHold(accounts, transactions)
    && Balanced(accounts, opening, transactions)
  }

  ghost predicate ForeignKeysHold(accounts: Accounts, transactions: Transactions) {
    forall k :: k in transactions ==>
      transactions[k].sourceAccountId in accounts && transactions[k].destinationAccountId in accounts
  }

  /** `budget_id` is NULL or names a budget (`fk_budget`,
      migrations.rs:382). */
  predicate BudgetKnown(budgets: set<Uuid>, budgetId: Option<Uuid>) {
    budgetId.None? || budgetId.value in budgets
  }

  ghost predicate BudgetKeysHold(budgets: set<Uuid>, transactions: Transactions) {
    forall k :: k in transactions ==> BudgetKnown(budgets, transactions[k].budgetId)
  }

  /** Writing a row whose budget exists keeps every budget key. */
  lemma BudgetKeysAfterWrite(budgets: set<Uuid>, txs: Transactions, t: Transaction)
    requires BudgetKeysHold(budgets, txs) && BudgetKnown(budgets, t.budgetId)
    ensures BudgetKeysHold(budgets, txs[t.id := t])
  {
  }

  lemma ForeignKeysAfterRecord(accts: Accounts, txs: Transactions, t: Transaction)
    requires ForeignKeysHold(accts, txs)
    requires t.sourceAccountId in accts && t.destinationAccountId in accts
    ensures ForeignKeysHold(ApplyEffect(accts, t.sourceAccountId, t.destinationAccountId, t.amount), txs[t.id := t])
  {
    ApplyEffectIsDelta(accts, t.sourceAccountId, t.destinationAccountId, t.amount);
  }

  /** `group_id` is NULL or names a category group (`fk_category_group`,
      category_groups_migration.rs:78). */
  predicate GroupKnown(groups: set<Uuid>, groupId: Option<Uuid>) {
    groupId.None? || groupId.value in groups
  }

  ghost predicate GroupKeysHold(groups: set<Uuid>, categories: map<Uuid, Category>) {
    forall k :: k in categories ==> GroupKnown(groups, categories[k].groupId)
  }

  /** Category and rule keys match their ids and category names are unique
      (migrations.rs:196). */
  ghost predicate CatalogValid(categories: map<Uuid, Category>, rules: map<Uuid, Rule>) {
    && (forall k :: k in categories ==> categories[k].id == k)
    && UniqueCategoryNames(categories)
    && (forall k :: k in rules ==> rules[k].id == k)
  }

  /** A new account with balance zero, referenced by no transaction, keeps
      the ledger consistent with opening balance zero. */
  lemma LedgerAfterNewAccount(accts: Accounts, txs: Transactions, opening: map<Uuid, real>, id: Uuid, acct: Account)
    requires LedgerValid(accts, txs, opening)
    requires id !in accts && acct.balance == 0.0
    ensures LedgerValid(accts[id := acct], txs, opening[id := 0.0])
  {
    BalancedAfterNewAccount(accts, opening, txs, id, acct);
  }

  /** Recording a transaction between two existing accounts and applying
      its effect keeps the ledger consistent. */
  lemma LedgerAfterRecord(accts: Accounts, txs: Transactions, opening: map<Uuid, real>, t: Transaction)
    requires LedgerValid(accts, txs, opening)
    requires t.id !in txs && t.sourceAccountId in accts && t.destinationAccountId in accts
    ensures LedgerValid(ApplyEffect(accts, t.sourceAccountId, t.destinationAccountId, t.amount), txs[t.id := t], opening)
  {
    ForeignKeysAfterRecord(accts, txs, t);
    BalancedAfterRecord(accts, opening, txs, t);
  }

  /** Recording a transaction whose destination is a new account with
      balance zero keeps the ledger consistent and the total unchanged. */
  lemma LedgerAfterRecordToNewAccount(accts: Accounts, txs: Transactions, opening: map<Uuid, real>,
                                      id: Uuid, acct: Account, t: Transaction)
    requires LedgerValid(accts, txs, opening)
    requires id !in accts && acct.balance == 0.0
    requires t.id !in txs && t.sourceAccountId in accts && t.destinationAccountId == id
    ensures LedgerValid(ApplyEffect(accts[id := acct], t.sourceAccountId, id, t.amount), txs[t.id := t], opening[id := 0.0])
    ensures TotalBalance(ApplyEffect(accts[id := acct], t.sourceAccountId, id, t.amount)) == TotalBalance(accts)
  {
    LedgerAfterNewAccount(accts, txs, opening, id, acct);
    NewAccountTotal(accts, id, acct);
    LedgerAfterRecord(accts[id := acct], txs, opening[id := 0.0], t);
    ApplyPreservesTotal(accts[id := acct], t.sourceAccountId, id, t.amount);
  }

  /** Replacing recorded transaction `t.id` by `t` (same source, an
      existing destination) keeps the ledger consistent and the total
      unchanged. */
  lemma LedgerAfterReplace(accts: Accounts, txs: Transactions, opening: map<Uuid, real>, t: Transaction)
    requires LedgerValid(accts, txs, opening)
    requires t.id in txs && t.sourceAccountId == txs[t.id].sourceAccountId && t.destinationAccountId in accts
    ensures LedgerValid(ApplyEffect(ReverseEffect(accts, txs[t.id]), t.sourceAccountId, t.destinationAccountId, t.amount),
                        txs[t.id := t], opening)
    ensures TotalBalance(ApplyEffect(ReverseEffect(accts, txs[t.id]), t.sourceAccountId, t.destinationAccountId, t.amount))
            == TotalBalance(accts)
  {
    LedgerAfterRemoveTotal(accts, txs, opening, t.id);
    var rest := txs - {t.id};
    ReplaceIsRemoveThenAdd(txs, t);
    LedgerAfterRecordTotal(ReverseEffect(accts, txs[t.id]), rest, opening, t);
  }

  /** The same when the destination is a new account `acct` with balance
      zero. */
  lemma LedgerAfterReplaceToNewAccount(accts: Accounts, txs: Transactions, opening: map<Uuid, real>,
                                       t: Transaction, acct: Account)
    requires LedgerValid(accts, txs, opening)
    requires t.id in txs && t.sourceAccountId == txs[t.id].sourceAccountId
    requires t.destinationAccountId !in accts && acct.balance == 0.0
    ensures LedgerValid(ApplyEffect(ReverseEffect(accts, txs[t.id])[t.destinationAccountId := acct], t.sourceAccountId,
                                    t.destinationAccountId, t.amount),
                        txs[t.id := t], opening[t.destinationAccountId := 0.0])
    ensures TotalBalance(ApplyEffect(ReverseEffect(accts, txs[t.id])[t.destinationAccountId := acct], t.sourceAccountId,
                                     t.destinationAccountId, t.amount))
            == TotalBalance(accts)
  {
    LedgerAfterRemoveTotal(accts, txs, opening, t.id);
    var rest := txs - {t.id};
    ReplaceIsRemoveThenAdd(txs, t);
    LedgerAfterRecordToNewAccount(ReverseEffect(accts, txs[t.id]), rest, opening, t.destinationAccountId, acct, t);
  }

  lemma ReplaceIsRemoveThenAdd(txs: Transactions, t: Transaction)
    requires t.id in txs
    ensures (txs - {t.id})[t.id := t] == txs[t.id := t] && t.id !in txs - {t.id}
  {
  }

  /** `LedgerAfterRemove`, with the total and the key set of the accounts. */
  lemma LedgerAfterRemoveTotal(accts: Accounts, txs: Transactions, opening: map<Uuid, real>, id: Uuid)
    requires LedgerValid(accts, txs, opening)
    requires id in txs
    ensures LedgerValid(ReverseEffect(accts, txs[id]), txs - {id}, opening)
    ensures ReverseEffect(accts, txs[id]).Keys == accts.Keys
    ensures TotalBalance(ReverseEffect(accts, txs[id])) == TotalBalance(accts)
    ensures txs[id].id == id && txs[id].sourceAccountId in accts
  {
    LedgerAfterRemove(accts, txs, opening, id);
    ReverseEffectIsDelta(accts, txs[id]);
    ReversePreservesTotal(accts, txs[id]);
  }

  /** `LedgerAfterRecord`, with the total. */
  lemma LedgerAfterRecordTotal(accts: Accounts, txs: Transactions, opening: map<Uuid, real>, t: Transaction)
    requires LedgerValid(accts, txs, opening)
    requires t.id !in txs && t.sourceAccountId in accts && t.destinationAccountId in accts
    ensures LedgerValid(ApplyEffect(accts, t.sourceAccountId, t.destinationAccountId, t.amount), txs[t.id := t], opening)
    ensures TotalBalance(ApplyEffect(accts, t.sourceAccountId, t.destinationAccountId, t.amount)) == TotalBalance(accts)
  {
    LedgerAfterRecord(accts, txs, opening, t);
    ApplyPreservesTotal(accts, t.sourceAccountId, t.destinationAccountId, t.amount);
  }

  /** Rewriting transactions without touching their ids, accounts or
      amounts keeps the ledger consistent. */
  lemma LedgerIgnoresOtherFields(accts: Accounts, txs: Transactions, txs': Transactions, opening: map<Uuid, real>)
    requires LedgerValid(accts, txs, opening)
    requires txs'.Keys == txs.Keys
    requires forall k :: k in txs ==>
      && txs'[k].id == txs[k].id
      && txs'[k].sourceAccountId == txs[k].sourceAccountId
      && txs'[k].destinationAccountId == txs[k].destinationAccountId
      && txs'[k].amount == txs[k].amount
    ensures LedgerValid(accts, txs', opening)
  {
    BalancedIgnoresOtherFields(accts, opening, txs, txs');
  }

  /** Removing a recorded transaction and reversing its effect keeps the
      ledger consistent. */
  lemma LedgerAfterRemove(accts: Accounts, txs: Transactions, opening: map<Uuid, real>, id: Uuid)
    requires LedgerValid(accts, txs, opening)
    requires id in txs
    ensures LedgerValid(ReverseEffect(accts, txs[id]), txs - {id}, opening)
  {
    BalancedAfterRemove(accts, opening, txs, id);
    ReverseEffectIsDelta(accts, txs[id]);
  }

  ghost predicate UniqueCategoryNames(cats: map<Uuid, Category>) {
    forall k, j :: k in cats && j in cats && cats[k].name == cats[j].name ==> k == j
  }

  /** The ids of a table in the unspecified order of a query without
      ORDER BY: every id exactly once. */
  method ScanKeys<V>(m: map<Uuid, V>) returns (keys: seq<Uuid>)
    ensures Distinct(keys)
    ensures forall i :: 0 <= i < |keys| ==> keys[i] in m
    ensures forall k :: k in m ==> k in keys
    ensures |keys| == |m|
  {
    keys := [];
    var rest := m.Keys;
    ghost var seen: set<Uuid> := {};
    while rest != {}
      invariant forall x :: x in keys <==> x in seen
      invariant seen !! rest && seen + rest == m.Keys
      invariant Distinct(keys) && |keys| == |seen|
      decreases |rest|
    {
      var k :| k in rest;
      assert k !in seen;
      keys := keys + [k];
      seen := seen + {k};
      rest := rest - {k};
    }
  }

  /** An open database transaction (`db.begin()`): the ledger statements
      run against its own copy of the accounts and transactions tables;
      `Commit` publishes the copy and dropping it rolls everything back. */
  class Session {
    var accounts: Accounts
    var transactions: Transactions
    const budgets: set<Uuid>

    constructor Begin(db: Database)
      ensures accounts == db.accounts && transactions == db.transactions && budgets == db.budgets
    {
      accounts := db.accounts;
      transactions := db.transactions;
      budgets := db.budgets;
    }

    /** `UPDATE accounts SET balance = balance + $delta WHERE id = $id`. */
    method UpdateBalance(id: Uuid, delta: real) returns (rowsAffected: nat)
      modifies this
      ensures accounts == Adjust(old(accounts), id, delta)
      ensures transactions == old(transactions)
      ensures rowsAffected == if id in old(accounts) then 1 else 0
    {
      rowsAffected := if id in accounts then 1 else 0;
      accounts := Adjust(accounts, id, delta);
    }

    /** `SELECT id FROM accounts WHERE name = $1` with `fetch_optional`:
        some account of that name, if there is one. Names are not unique,
        so which one is not specified. */
    method FindAccountByName(name: string) returns (found: Option<Uuid>)
      ensures found.Some? ==> found.value in accounts && accounts[found.value].name == name
      ensures found.None? <==> forall a :: a in accounts ==> accounts[a].name != name
    {
      if a :| a in accounts && accounts[a].name == name {
        found := Some(a);
      } else {
        found := None;
      }
    }

    /** `SELECT name FROM accounts WHERE id = $1`. */
    method AccountName(id: Uuid) returns (name: Option<string>)
      ensures name == if id in accounts then Some(accounts[id].name) else None
    {
      name := if id in accounts then Some(accounts[id].name) else None;
    }

    /** INSERT of an `External` account with balance 0 in USD. */
    method InsertExternalAccount(id: Uuid, name: string) returns (r: Result<Uuid, DbError>)
      modifies this
      ensures id in old(accounts) ==> r == Failure(UniqueViolation) && accounts == old(accounts)
      ensures id !in old(accounts) ==> r == Success(id) && accounts == old(accounts)[id := Account(name, ExternalType, 0.0, "USD")]
      ensures transactions == old(transactions)
    {
      if id in accounts {
        return Failure(UniqueViolation);
      }
      accounts := accounts[id := Account(name, ExternalType, 0.0, "USD")];
      r := Success(id);
    }

    /** A transaction row may only reference existing accounts and an
        existing budget or none (the foreign keys of migrations.rs:78-79 and
        382). */
    predicate References(t: Transaction)
      reads this
    {
      t.sourceAccountId in accounts && t.destinationAccountId in accounts && BudgetKnown(budgets, t.budgetId)
    }

    /** `INSERT INTO transactions ... RETURNING *`. */
    method InsertTransaction(t: Transaction) returns (r: Result<Transaction, DbError>)
      modifies this
      ensures t.id in old(transactions) ==> r == Failure(UniqueViolation)
      ensures t.id !in old(transactions) && !References(t) ==> r == Failure(ForeignKeyViolation)
      ensures r.Success? <==> t.id !in old(transactions) && References(t)
      ensures r.Success? ==> r.value == t && transactions == old(transactions)[t.id := t]
      ensures r.Failure? ==> transactions == old(transactions)
      ensures accounts == old(accounts)
    {
      if t.id in transactions {
        return Failure(UniqueViolation);
      }
      if !References(t) {
        return Failure(ForeignKeyViolation);
      }
      transactions := transactions[t.id := t];
      r := Success(t);
    }

    /** `UPDATE transactions SET ... WHERE id = $2 RETURNING *`, writing the
        whole new row. */
    method UpdateTransactionRow(t: Transaction) returns (r: Result<Option<Transaction>, DbError>)
      modifies this
      ensures t.id !in old(transactions) ==> r == Success(None) && transactions == old(transactions)
      ensures t.id in old(transactions) && !References(t) ==> r == Failure(ForeignKeyViolation) && transactions == old(transactions)
      ensures t.id in old(transactions) && References(t) ==> r == Success(Some(t)) && transactions == old(transactions)[t.id := t]
      ensures accounts == old(accounts)
    {
      if t.id !in transactions {
        return Success(None);
      }
      if !References(t) {
        return Failure(ForeignKeyViolation);
      }
      transactions := transactions[t.id := t];
      r := Success(Some(t));
    }

    /** `DELETE FROM transactions WHERE id = $1`. */
    method DeleteTransactionRow(id: Uuid) returns (rowsAffected: nat)
      modifies this
      ensures transactions == old(transactions) - {id}
      ensures rowsAffected == if id in old(transactions) then 1 else 0
      ensures accounts == old(accounts)
    {
      rowsAffected := if id in transactions then 1 else 0;
      transactions := transactions - {id};
    }

    /** `reverse_transaction_balance_effects`: two UPDATEs whose row counts
        are not checked. */
    method ReverseBalanceEffects(t: Transaction)
      modifies this
      ensures accounts == ReverseEffect(old(accounts), t)
      ensures transactions == old(transactions)
    {
      var abs := Abs(t.amount);
      if t.amount >= 0.0 {
        var _ := UpdateBalance(t.sourceAccountId, abs);
        var _ := UpdateBalance(t.destinationAccountId, -abs);
      } else {
        var _ := UpdateBalance(t.sourceAccountId, -abs);
        var _ := UpdateBalance(t.destinationAccountId, abs);
      }
    }

    /** `apply_transaction_balance_effects`: two UPDATEs whose row counts are
        not checked. */
    method ApplyBalanceEffects(source: Uuid, destination: Uuid, amount: real)
      modifies this
      ensures accounts == ApplyEffect(old(accounts), source, destination, amount)
      ensures transactions == old(transactions)
    {
      var abs := Abs(amount);
      if amount >= 0.0 {
        var _ := UpdateBalance(source, -abs);
        var _ := UpdateBalance(destination, abs);
      } else {
        var _ := UpdateBalance(source, abs);
        var _ := UpdateBalance(destination, -abs);
      }
    }

    /** `tx.commit()`: the copy becomes the database. `opening` extends the
        opening balances to the accounts the session created. */
    method Commit(db: Database, ghost opening: map<Uuid, real>)
      requires LedgerValid(accounts, transactions, opening)
      requires BudgetKeysHold(db.budgets, transactions)
      requires CatalogValid(db.categories, db.rules)
      requires GroupKeysHold(db.groups, db.categories)
      modifies db
      ensures db.Valid()
      ensures db.accounts == accounts && db.transactions == transactions
      ensures db.categories == old(db.categories) && db.rules == old(db.rules)
      ensures db.opening == opening
    {
      db.accounts := accounts;
      db.transactions := transactions;
      db.opening := opening;
    }
  }
}
