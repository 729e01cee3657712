// FireflyImport (src/services/firefly_import_service.rs): importing accounts
// and transactions exported from Firefly III. Fetching (HTTP or CSV files)
// and the two creation services are outside the model: what they return
// is given to the operations as inputs, so only the mapping, the
// bookkeeping and the order of the steps are modelled.

module FireflyImport {
  import opened Base
  import opened Text
  import opened Uuids
  import opened Floats
  import opened Schema
  import opened AccountSubType

  datatype AccountKind = Asset | Expense | Revenue | Loan | Debt | Liabilities | OtherAccount

  datatype TransactionKind = Withdrawal | Deposit | Transfer | OtherTransaction

  datatype FireflyAccount = FireflyAccount(
    id: string,
    name: string,
    kind: AccountKind,
    currency: string,
    balance: Option<F64>)

  /** A Firefly transaction; `date` is in seconds since the epoch. */
  datatype FireflyTransaction = FireflyTransaction(
    id: string,
    kind: TransactionKind,
    description: string,
    date: int,
    amount: F64,
    sourceId: string,
    sourceName: string,
    destinationId: string,
    destinationName: string,
    category: Option<string>)

  /** The messages pushed onto `ImportResult::errors`, by their arguments. */
  datatype ImportError =
    | AccountNotCreated(name: string)
    | SourceNotFound(transactionId: string, sourceName: string)
    | TransactionNotCreated(description: string)

  datatype ImportResult = ImportResult(accountsImported: nat, transactionsImported: nat, errors: seq<ImportError>)

  /** The account-creation request `import_accounts` sends. */
  datatype NewAccount = NewAccount(name: string, accountType: string, balance: F64, currency: string, isDefault: bool)

  // ---------------------------------------------------------------------
  // Type mappings

  /** `map_account_type`: matched on the lower-cased type. The "asset" arm
      tests the lower-cased type, which then equals "asset", for
      "checking", "savings", "credit card" and "investment". */
  function MapAccountType(fireflyType: string): (r: string)
    ensures r == "On Budget" || r == "Off Budget" || r == "External"
    ensures (ToLower(fireflyType) == "loan" || ToLower(fireflyType) == "debt" || ToLower(fireflyType) == "liabilities") ==> r == "Off Budget"
    ensures r == "External" <==> !(ToLower(fireflyType) in ["asset", "loan", "debt", "liabilities"])
  {
    var lower := ToLower(fireflyType);
    if lower == "asset" then
      if Contains(ToLower(fireflyType), "checking") then "On Budget"
      else if Contains(ToLower(fireflyType), "savings") then "On Budget"
      else if Contains(ToLower(fireflyType), "credit card") then "On Budget"
      else if Contains(ToLower(fireflyType), "investment") then "On Budget"
      else "Off Budget"
    else if lower == "loan" || lower == "debt" || lower == "liabilities" then "Off Budget"
    else "External"
  }

  /** A pattern longer than the text never occurs in it. */
  lemma LongerNotContained(s: string, pat: string)
    requires |s| < |pat|
    ensures !Contains(s, pat)
  {
  }

  /** The "On Budget" arms of `map_account_type` cannot be reached: an
      "asset" type maps to "Off Budget", like the liabilities. */
  lemma MapAccountTypeNeverOnBudget(fireflyType: string)
    ensures MapAccountType(fireflyType) != "On Budget"
    ensures MapAccountType(fireflyType) == "Off Budget" <==> ToLower(fireflyType) in ["asset", "loan", "debt", "liabilities"]
  {
    var lower := ToLower(fireflyType);
    if lower == "asset" {
      LongerNotContained(lower, "checking");
      LongerNotContained(lower, "savings");
      LongerNotContained(lower, "credit card");
      LongerNotContained(lower, "investment");
    }
  }

  /** The serde name of each account kind (the catch-all has none). */
  function AccountTag(k: AccountKind): string
    requires k != OtherAccount
  {
    match k
    case Asset => "asset"
    case Expense => "expense"
    case Revenue => "revenue"
    case Loan => "loan"
    case Debt => "debt"
    case Liabilities => "liabilities"
  }

  /** The CSV `type` column, compared lower-cased with the tags. */
  function AccountKindFromTag(tag: string): (r: AccountKind)
    ensures r != OtherAccount ==> ToLower(tag) == AccountTag(r)
    ensures r == OtherAccount <==> forall k: AccountKind :: k != OtherAccount ==> ToLower(tag) != AccountTag(k)
  {
    match ToLower(tag)
    case "asset" => Asset
    case "expense" => Expense
    case "revenue" => Revenue
    case "loan" => Loan
    case "debt" => Debt
    case "liabilities" => Liabilities
    case _ => OtherAccount
  }

  /** Lower-case text is its own lower-casing. */
  lemma ToLowerOfLower(s: string)
    requires HasNoUpper(s)
    ensures ToLower(s) == s
  {
  }

  /** Every tag, in any letter case, reads back as its kind. */
  lemma AccountTagRoundTrip(k: AccountKind, spelled: string)
    requires k != OtherAccount && ToLower(spelled) == AccountTag(k)
    ensures AccountKindFromTag(spelled) == k
    ensures AccountKindFromTag(AccountTag(k)) == k
  {
    ToLowerOfLower(AccountTag(k));
  }

  function TransactionTag(k: TransactionKind): string
    requires k != OtherTransaction
  {
    match k
    case Withdrawal => "withdrawal"
    case Deposit => "deposit"
    case Transfer => "transfer"
  }

  /** The CSV `type` column of a transaction. */
  function TransactionKindFromTag(tag: string): (r: TransactionKind)
    ensures r != OtherTransaction ==> ToLower(tag) == TransactionTag(r)
    ensures r == OtherTransaction <==> forall k: TransactionKind :: k != OtherTransaction ==> ToLower(tag) != TransactionTag(k)
  {
    match ToLower(tag)
    case "withdrawal" => Withdrawal
    case "deposit" => Deposit
    case "transfer" => Transfer
    case _ => OtherTransaction
  }

  lemma TransactionTagRoundTrip(k: TransactionKind, spelled: string)
    requires k != OtherTransaction && ToLower(spelled) == TransactionTag(k)
    ensures TransactionKindFromTag(spelled) == k
    ensures TransactionKindFromTag(TransactionTag(k)) == k
  {
    ToLowerOfLower(TransactionTag(k));
  }

  /** The account type `import_accounts` gives a new account. */
  function ImportedAccountType(k: AccountKind): (r: string)
    ensures r == "On Budget" <==> k == Asset
    ensures r == "Off Budget" <==> k in {Loan, Debt, Liabilities}
    ensures r == "External" <==> k in {Expense, Revenue, OtherAccount}
  {
    match k
    case Asset => "On Budget"
    case Loan | Debt | Liabilities => "Off Budget"
    case _ => "External"
  }

  lemma PlainTypeParses(t: string)
    requires t == "On Budget" || t == "Off Budget" || t == "External"
    ensures ParseAccountType(t) == (t, None)
  {
    assert IsTrimmed(t) && '-' !in t;
    TrimOfTrimmed(t);
    NoSeparatorNoSubtype(t);
  }

  /** The imported types are plain types: they parse back with no subtype. */
  lemma ImportedTypesHaveNoSubtype(k: AccountKind)
    ensures ParseAccountType(ImportedAccountType(k)) == (ImportedAccountType(k), None)
  {
    var t := ImportedAccountType(k);
    PlainTypeParses(t);
  }

  /** `map_account_type` and the mapping `import_accounts` applies agree on
      every tag except "asset". */
  lemma MapAccountTypeDisagreesOnAsset(k: AccountKind)
    requires k != OtherAccount
    ensures MapAccountType(AccountTag(k)) == ImportedAccountType(k) <==> k != Asset
  {
    ToLowerOfLower(AccountTag(k));
    MapAccountTypeNeverOnBudget(AccountTag(k));
  }

  // ---------------------------------------------------------------------
  // import_accounts

  /** The name-to-id map of the existing accounts: a later account with the
      same name overwrites an earlier one. */
  function NameIndex(existing: seq<(string, Uuid)>): (m: map<string, Uuid>)
    decreases |existing|
  {
    if existing == [] then map[]
    else
      var last := existing[|existing| - 1];
      NameIndex(existing[..|existing| - 1])[last.0 := last.1]
  }

  /** The loop that fills `existing_account_names`. */
  method IndexByName(existing: seq<(string, Uuid)>) returns (m: map<string, Uuid>)
    ensures m == NameIndex(existing)
  {
    m := map[];
    var i := 0;
    while i < |existing|
      invariant 0 <= i <= |existing|
      invariant m == NameIndex(existing[..i])
    {
      assert existing[..i + 1][..i] == existing[..i];
      m := m[existing[i].0 := existing[i].1];
      i := i + 1;
    }
    assert existing[..i] == existing;
  }

  /** A name is indexed exactly when some existing account has it, and it
      maps to the id of the last such account. */
  lemma {:induction false} NameIndexLastWins(existing: seq<(string, Uuid)>, i: nat)
    requires i < |existing|
    requires forall j :: i < j < |existing| ==> existing[j].0 != existing[i].0
    ensures existing[i].0 in NameIndex(existing)
    ensures NameIndex(existing)[existing[i].0] == existing[i].1
    decreases |existing|
  {
    if i < |existing| - 1 {
      NameIndexLastWins(existing[..|existing| - 1], i);
    }
  }

  lemma {:induction false} NameIndexKeys(existing: seq<(string, Uuid)>, name: string)
    ensures name in NameIndex(existing) <==> exists j :: 0 <= j < |existing| && existing[j].0 == name
    decreases |existing|
  {
    if existing != [] {
      var init := existing[..|existing| - 1];
      NameIndexKeys(init, name);
      if name in NameIndex(init) {
        var j :| 0 <= j < |init| && init[j].0 == name;
        assert existing[j].0 == name;
      }
      if exists j :: 0 <= j < |existing| && existing[j].0 == name {
        var j :| 0 <= j < |existing| && existing[j].0 == name;
        if j < |init| {
          assert init[j].0 == name;
        }
      }
    }
  }

  /** The request sent for an account that does not exist yet. */
  function AccountRequest(a: FireflyAccount): (r: NewAccount)
    ensures r.name == a.name && r.currency == a.currency && !r.isDefault
    ensures r.accountType == ImportedAccountType(a.kind)
    ensures a.balance.Some? ==> r.balance == a.balance.value
    ensures a.balance.None? ==> r.balance == Finite(0.0)
  {
    NewAccount(a.name, ImportedAccountType(a.kind), a.balance.GetOr(Finite(0.0)), a.currency, false)
  }

  /** One turn of the account loop. `created` is what the account service
      returned when asked to create `a` (None for an error); it is not
      consulted when the name already exists. */
  function AccountStep(names: map<string, Uuid>, a: FireflyAccount, created: Option<Uuid>,
                       idMap: map<string, Uuid>, result: ImportResult): (r: (map<string, Uuid>, ImportResult))
    ensures idMap.Keys <= r.0.Keys
    ensures r.1.transactionsImported == result.transactionsImported
  {
    if a.name in names then (idMap[a.id := names[a.name]], result)
    else
      match created
      case Some(id) => (idMap[a.id := id], result.(accountsImported := result.accountsImported + 1))
      case None => (idMap, result.(errors := result.errors + [AccountNotCreated(a.name)]))
  }

  /** The state after the account loop has seen `accounts`. */
  function ImportedAccounts(names: map<string, Uuid>, accounts: seq<FireflyAccount>, created: seq<Option<Uuid>>,
                            idMap: map<string, Uuid>, result: ImportResult): (r: (map<string, Uuid>, ImportResult))
    requires |created| == |accounts|
    decreases |accounts|
  {
    if accounts == [] then (idMap, result)
    else
      var n := |accounts| - 1;
      var before := ImportedAccounts(names, accounts[..n], created[..n], idMap, result);
      AccountStep(names, accounts[n], created[n], before.0, before.1)
  }

  /** The requests the account loop sends, one per account whose name is new. */
  function AccountRequests(names: map<string, Uuid>, accounts: seq<FireflyAccount>): (r: seq<NewAccount>)
    ensures |r| <= |accounts|
    decreases |accounts|
  {
    if accounts == [] then []
    else
      var n := |accounts| - 1;
      AccountRequests(names, accounts[..n]) + (if accounts[n].name in names then [] else [AccountRequest(accounts[n])])
  }

  /** The number of accounts whose name is not among the existing ones. */
  function NewCount(names: map<string, Uuid>, accounts: seq<FireflyAccount>): (c: nat)
    ensures c <= |accounts|
    decreases |accounts|
  {
    if accounts == [] then 0
    else
      var n := |accounts| - 1;
      NewCount(names, accounts[..n]) + (if accounts[n].name in names then 0 else 1)
  }

  /** `import_accounts`: fetch the existing accounts (an error ends the
      import), index them by name, then map or create each Firefly account. */
  method ImportAccounts(accounts: seq<FireflyAccount>, existing: Result<seq<(string, Uuid)>, string>,
                        created: seq<Option<Uuid>>, result: ImportResult)
    returns (r: Result<map<string, Uuid>, string>, after: ImportResult, requests: seq<NewAccount>)
    requires |created| == |accounts|
    ensures existing.Failure? ==>
      r == Failure("Failed to fetch existing accounts: " + existing.error) && after == result && requests == []
    ensures existing.Success? ==>
      && r.Success?
      && (r.value, after) == ImportedAccounts(NameIndex(existing.value), accounts, created, map[], result)
      && requests == AccountRequests(NameIndex(existing.value), accounts)
  {
    if existing.Failure? {
      return Failure("Failed to fetch existing accounts: " + existing.error), result, [];
    }
    var names := IndexByName(existing.value);
    var idMap := map[];
    after := result;
    requests := [];
    var i := 0;
    while i < |accounts|
      invariant 0 <= i <= |accounts|
      invariant (idMap, after) == ImportedAccounts(names, accounts[..i], created[..i], map[], result)
      invariant requests == AccountRequests(names, accounts[..i])
    {
      assert accounts[..i + 1][..i] == accounts[..i];
      assert created[..i + 1][..i] == created[..i];
      var a := accounts[i];
      assert ImportedAccounts(names, accounts[..i + 1], created[..i + 1], map[], result)
          == AccountStep(names, a, created[i], idMap, after);
      assert AccountRequests(names, accounts[..i + 1])
          == requests + (if a.name in names then [] else [AccountRequest(a)]);
      if a.name in names {
        idMap := idMap[a.id := names[a.name]];
      } else {
        requests := requests + [AccountRequest(a)];
        match created[i]
        case Some(id) =>
          idMap := idMap[a.id := id];
          after := after.(accountsImported := after.accountsImported + 1);
        case None =>
          after := after.(errors := after.errors + [AccountNotCreated(a.name)]);
      }
      i := i + 1;
    }
    assert accounts[..i] == accounts;
    assert created[..i] == created;
    r := Success(idMap);
  }

  /** Every account whose name is new is either counted or reported by
      exactly one error; accounts that already exist add neither. Errors are
      only appended. */
  lemma {:induction false} ImportedAccountsCounts(names: map<string, Uuid>, accounts: seq<FireflyAccount>,
                                                  created: seq<Option<Uuid>>, idMap: map<string, Uuid>, result: ImportResult)
    requires |created| == |accounts|
    ensures var r := ImportedAccounts(names, accounts, created, idMap, result).1;
      && r.accountsImported + |r.errors| == result.accountsImported + |result.errors| + NewCount(names, accounts)
      && r.transactionsImported == result.transactionsImported
      && |result.errors| <= |r.errors| && r.errors[..|result.errors|] == result.errors
    decreases |accounts|
  {
    if accounts != [] {
      var n := |accounts| - 1;
      ImportedAccountsCounts(names, accounts[..n], created[..n], idMap, result);
      var before := ImportedAccounts(names, accounts[..n], created[..n], idMap, result).1;
      assert (before.errors + [AccountNotCreated(accounts[n].name)])[..|result.errors|] == before.errors[..|result.errors|];
    }
  }

  /** After the loop, the Firefly id of an account is mapped exactly when
      the account's name existed or its creation succeeded (or the id was
      mapped before). */
  lemma {:induction false} ImportedAccountsMaps(names: map<string, Uuid>, accounts: seq<FireflyAccount>,
                                                created: seq<Option<Uuid>>, idMap: map<string, Uuid>, result: ImportResult, id: string)
    requires |created| == |accounts|
    ensures id in ImportedAccounts(names, accounts, created, idMap, result).0 <==>
      (id in idMap || exists i :: 0 <= i < |accounts| && accounts[i].id == id && (accounts[i].name in names || created[i].Some?))
    decreases |accounts|
  {
    if accounts != [] {
      var n := |accounts| - 1;
      ImportedAccountsMaps(names, accounts[..n], created[..n], idMap, result, id);
      if exists i :: 0 <= i < n && accounts[..n][i].id == id && (accounts[..n][i].name in names || created[..n][i].Some?) {
        var i :| 0 <= i < n && accounts[..n][i].id == id && (accounts[..n][i].name in names || created[..n][i].Some?);
        assert accounts[i].id == id && (accounts[i].name in names || created[i].Some?);
      }
      if exists i :: 0 <= i < |accounts| && accounts[i].id == id && (accounts[i].name in names || created[i].Some?) {
        var i :| 0 <= i < |accounts| && accounts[i].id == id && (accounts[i].name in names || created[i].Some?);
        if i < n {
          assert accounts[..n][i].id == id && (accounts[..n][i].name in names || created[..n][i].Some?);
        }
      }
    }
  }

  // ---------------------------------------------------------------------
  // import_transactions

  /** Deposits change sign; every other type keeps its amount. */
  function SignedAmount(k: TransactionKind, amount: F64): (r: F64)
    ensures k == Deposit ==> r.Negate() == amount
    ensures k != Deposit ==> r == amount
  {
    if k == Deposit then amount.Negate() else amount
  }

  /** The category of a transaction exported without one. */
  function DefaultCategory(k: TransactionKind): (r: string)
    ensures r in ["Expense", "Income", "Transfer", "Other"]
  {
    match k
    case Withdrawal => "Expense"
    case Deposit => "Income"
    case Transfer => "Transfer"
    case OtherTransaction => "Other"
  }

  /** Each kind has its own default category. */
  lemma DefaultCategoryInjective(k1: TransactionKind, k2: TransactionKind)
    ensures DefaultCategory(k1) == DefaultCategory(k2) <==> k1 == k2
  {
  }

  /** A deposit and a withdrawal of the same exported amount move money in
      opposite directions. */
  lemma DepositOpposesWithdrawal(amount: real)
    requires amount != 0.0
    ensures SignedAmount(Deposit, Finite(amount)) == Finite(-amount)
    ensures SignedAmount(Deposit, Finite(amount)) != SignedAmount(Withdrawal, Finite(amount))
  {
  }

  /** The creation request for a transaction whose source is mapped. */
  function TransactionRequest(t: FireflyTransaction, source: Uuid, idMap: map<string, Uuid>): (r: CreateTransactionRequest)
    ensures r.sourceAccountId == source
    ensures r.destinationAccountId.Some? <==> t.destinationId in idMap
    ensures r.destinationAccountId.Some? ==> r.destinationAccountId.value == idMap[t.destinationId]
    ensures r.destinationName == Some(t.destinationName) && r.description == t.description
    ensures r.amount == SignedAmount(t.kind, t.amount)
    ensures t.category.Some? ==> r.category == t.category.value
    ensures t.category.None? ==> r.category == DefaultCategory(t.kind)
    ensures r.budgetId.None? && r.transactionDate == Some(t.date)
  {
    CreateTransactionRequest(
      source,
      if t.destinationId in idMap then Some(idMap[t.destinationId]) else None,
      Some(t.destinationName),
      t.description,
      SignedAmount(t.kind, t.amount),
      t.category.GetOr(DefaultCategory(t.kind)),
      None,
      Some(t.date))
  }

  /** One turn of the transaction loop: `created` is whether the
      transaction service accepted the request (not consulted when the
      source is unmapped). */
  function TransactionStep(idMap: map<string, Uuid>, t: FireflyTransaction, created: bool,
                           requests: seq<CreateTransactionRequest>, result: ImportResult)
    : (r: (seq<CreateTransactionRequest>, ImportResult))
    ensures r.1.accountsImported == result.accountsImported
  {
    if t.sourceId !in idMap then
      (requests, result.(errors := result.errors + [SourceNotFound(t.id, t.sourceName)]))
    else
      var rs := requests + [TransactionRequest(t, idMap[t.sourceId], idMap)];
      if created then (rs, result.(transactionsImported := result.transactionsImported + 1))
      else (rs, result.(errors := result.errors + [TransactionNotCreated(t.description)]))
  }

  /** The requests sent and the state after the loop has seen `txs`. */
  function ImportedTransactions(idMap: map<string, Uuid>, txs: seq<FireflyTransaction>, created: seq<bool>,
                                result: ImportResult): (r: (seq<CreateTransactionRequest>, ImportResult))
    requires |created| == |txs|
    decreases |txs|
  {
    if txs == [] then ([], result)
    else
      var n := |txs| - 1;
      var before := ImportedTransactions(idMap, txs[..n], created[..n], result);
      TransactionStep(idMap, txs[n], created[n], before.0, before.1)
  }

  /** The number of transactions whose source account is mapped. */
  function MappedCount(idMap: map<string, Uuid>, txs: seq<FireflyTransaction>): (c: nat)
    ensures c <= |txs|
    decreases |txs|
  {
    if txs == [] then 0
    else
      var n := |txs| - 1;
      MappedCount(idMap, txs[..n]) + (if txs[n].sourceId in idMap then 1 else 0)
  }

  /** `import_transactions`. */
  method ImportTransactions(txs: seq<FireflyTransaction>, idMap: map<string, Uuid>, created: seq<bool>, result: ImportResult)
    returns (requests: seq<CreateTransactionRequest>, after: ImportResult)
    requires |created| == |txs|
    ensures (requests, after) == ImportedTransactions(idMap, txs, created, result)
  {
    requests := [];
    after := result;
    var i := 0;
    while i < |txs|
      invariant 0 <= i <= |txs|
      invariant (requests, after) == ImportedTransactions(idMap, txs[..i], created[..i], result)
    {
      assert txs[..i + 1][..i] == txs[..i];
      assert created[..i + 1][..i] == created[..i];
      var t := txs[i];
      if t.sourceId !in idMap {
        after := after.(errors := after.errors + [SourceNotFound(t.id, t.sourceName)]);
      } else {
        requests := requests + [TransactionRequest(t, idMap[t.sourceId], idMap)];
        if created[i] {
          after := after.(transactionsImported := after.transactionsImported + 1);
        } else {
          after := after.(errors := after.errors + [TransactionNotCreated(t.description)]);
        }
      }
      i := i + 1;
    }
    assert txs[..i] == txs;
    assert created[..i] == created;
  }

  /** Each transaction adds exactly one of: one to the imported count, or
      one error. A request is sent for each transaction whose source is
      mapped and for no other; errors are only appended. */
  lemma {:induction false} ImportedTransactionsCounts(idMap: map<string, Uuid>, txs: seq<FireflyTransaction>,
                                                      created: seq<bool>, result: ImportResult)
    requires |created| == |txs|
    ensures var (requests, r) := ImportedTransactions(idMap, txs, created, result);
      && r.transactionsImported + |r.errors| == result.transactionsImported + |result.errors| + |txs|
      && r.accountsImported == result.accountsImported
      && |requests| == MappedCount(idMap, txs)
      && |result.errors| <= |r.errors| && r.errors[..|result.errors|] == result.errors
    decreases |txs|
  {
    if txs != [] {
      var n := |txs| - 1;
      ImportedTransactionsCounts(idMap, txs[..n], created[..n], result);
      var before := ImportedTransactions(idMap, txs[..n], created[..n], result).1;
      assert (before.errors + [SourceNotFound(txs[n].id, txs[n].sourceName)])[..|result.errors|] == before.errors[..|result.errors|];
      assert (before.errors + [TransactionNotCreated(txs[n].description)])[..|result.errors|] == before.errors[..|result.errors|];
    }
  }

  /** A transaction whose source account is unmapped is always reported,
      never sent. */
  lemma {:induction false} UnmappedSourceReported(idMap: map<string, Uuid>, txs: seq<FireflyTransaction>,
                                                  created: seq<bool>, result: ImportResult, i: nat)
    requires |created| == |txs| && i < |txs| && txs[i].sourceId !in idMap
    ensures SourceNotFound(txs[i].id, txs[i].sourceName) in ImportedTransactions(idMap, txs, created, result).1.errors
    decreases |txs|
  {
    var n := |txs| - 1;
    var before := ImportedTransactions(idMap, txs[..n], created[..n], result);
    if i < n {
      UnmappedSourceReported(idMap, txs[..n], created[..n], result, i);
      var e := SourceNotFound(txs[i].id, txs[i].sourceName);
      assert e in before.1.errors;
      assert before.1.errors <= ImportedTransactions(idMap, txs, created, result).1.errors;
    }
  }

  // ---------------------------------------------------------------------
  // import

  datatype ImportOptions = ImportOptions(
    importMethod: string,
    apiUrl: Option<string>,
    apiToken: Option<string>,
    accountsCsvPath: Option<string>,
    transactionsCsvPath: Option<string>)

  datatype ImportSource = Api(url: string, token: string) | Csv(accountsPath: string, transactionsPath: string)

  const ApiParamsMissing := "API URL and token are required for API import"
  const CsvParamsMissing := "Accounts and transactions CSV paths are required for CSV import"
  const UnknownMethod := "Invalid import method. Use 'api' or 'csv'"

  /** The dispatch on `import_method`: "api" needs both the URL and the
      token, "csv" both paths; any other method is refused. */
  function ChooseSource(o: ImportOptions): (r: Result<ImportSource, string>)
    ensures r.Success? <==>
      ((o.importMethod == "api" && o.apiUrl.Some? && o.apiToken.Some?)
       || (o.importMethod == "csv" && o.accountsCsvPath.Some? && o.transactionsCsvPath.Some?))
    ensures r.Success? && o.importMethod == "api" ==> r.value == Api(o.apiUrl.value, o.apiToken.value)
    ensures r.Success? && o.importMethod == "csv" ==> r.value == Csv(o.accountsCsvPath.value, o.transactionsCsvPath.value)
    ensures r.Failure? ==> r.error == (if o.importMethod == "api" then ApiParamsMissing
                                       else if o.importMethod == "csv" then CsvParamsMissing
                                       else UnknownMethod)
  {
    if o.importMethod == "api" then
      if o.apiUrl.Some? && o.apiToken.Some? then Success(Api(o.apiUrl.value, o.apiToken.value))
      else Failure(ApiParamsMissing)
    else if o.importMethod == "csv" then
      if o.accountsCsvPath.Some? && o.transactionsCsvPath.Some? then
        Success(Csv(o.accountsCsvPath.value, o.transactionsCsvPath.value))
      else Failure(CsvParamsMissing)
    else Failure(UnknownMethod)
  }

  /** What the two import services and the fetches return during one import. */
  datatype Environment = Environment(
    fetchedAccounts: Result<seq<FireflyAccount>, string>,
    existing: Result<seq<(string, Uuid)>, string>,
    accountsCreated: seq<Option<Uuid>>,
    fetchedTransactions: Result<seq<FireflyTransaction>, string>,
    transactionsCreated: seq<bool>)
  {
    /** One creation outcome per fetched item. */
    predicate Consistent() {
      && (fetchedAccounts.Success? ==> |accountsCreated| == |fetchedAccounts.value|)
      && (fetchedTransactions.Success? ==> |transactionsCreated| == |fetchedTransactions.value|)
    }
  }

  /** `import`, with `import_from_api`/`import_from_csv`: dispatch, fetch
      the accounts, import them, fetch the transactions, import them. The
      first error ends the import and discards the counts. */
  method Import(o: ImportOptions, env: Environment) returns (r: Result<ImportResult, string>)
    requires env.Consistent()
    ensures ChooseSource(o).Failure? ==> r == Failure(ChooseSource(o).error)
    ensures ChooseSource(o).Success? && env.fetchedAccounts.Failure? ==> r == Failure(env.fetchedAccounts.error)
    ensures r.Success? <==>
      ChooseSource(o).Success? && env.fetchedAccounts.Success? && env.existing.Success? && env.fetchedTransactions.Success?
    ensures r.Success? ==>
      var names := NameIndex(env.existing.value);
      var (idMap, afterAccounts) := ImportedAccounts(names, env.fetchedAccounts.value, env.accountsCreated, map[], ImportResult(0, 0, []));
      r.value == ImportedTransactions(idMap, env.fetchedTransactions.value, env.transactionsCreated, afterAccounts).1
  {
    var source := ChooseSource(o);
    if source.Failure? {
      return Failure(source.error);
    }
    var result := ImportResult(0, 0, []);
    if env.fetchedAccounts.Failure? {
      return Failure(env.fetchedAccounts.error);
    }
    var idMap, accountRequests;
    idMap, result, accountRequests := ImportAccounts(env.fetchedAccounts.value, env.existing, env.accountsCreated, result);
    if idMap.Failure? {
      return Failure(idMap.error);
    }
    if env.fetchedTransactions.Failure? {
      return Failure(env.fetchedTransactions.error);
    }
    var transactionRequests;
    transactionRequests, result := ImportTransactions(env.fetchedTransactions.value, idMap.value, env.transactionsCreated, result);
    r := Success(result);
  }

  /** In a successful import every fetched transaction and every new account
      is accounted for: counted, or reported by one error. */
  lemma ImportAccountsForEverything(o: ImportOptions, env: Environment, r: ImportResult)
    requires env.Consistent()
    requires ChooseSource(o).Success? && env.fetchedAccounts.Success? && env.existing.Success? && env.fetchedTransactions.Success?
    requires var names := NameIndex(env.existing.value);
      var (idMap, afterAccounts) := ImportedAccounts(names, env.fetchedAccounts.value, env.accountsCreated, map[], ImportResult(0, 0, []));
      r == ImportedTransactions(idMap, env.fetchedTransactions.value, env.transactionsCreated, afterAccounts).1
    ensures r.accountsImported + r.transactionsImported + |r.errors|
            == NewCount(NameIndex(env.existing.value), env.fetchedAccounts.value) + |env.fetchedTransactions.value|
  {
    var names := NameIndex(env.existing.value);
    var start := ImportResult(0, 0, []);
    ImportedAccountsCounts(names, env.fetchedAccounts.value, env.accountsCreated, map[], start);
    var (idMap, afterAccounts) := ImportedAccounts(names, env.fetchedAccounts.value, env.accountsCreated, map[], start);
    ImportedTransactionsCounts(idMap, env.fetchedTransactions.value, env.transactionsCreated, afterAccounts);
  }
}
