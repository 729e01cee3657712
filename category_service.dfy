// CategoryService (src/services/category_service.rs). Its statements run
// directly on the database, outside any open ledger transaction, so their
// effects stay even when a ledger operation that called them fails.

module CategoryService {
  import opened Base
  import opened Uuids
  import opened Schema
  import opened Balances
  import opened Store

  /** The category named `name`, if any (names are unique). */
  function CategoryNamed(cats: map<Uuid, Category>, name: string): (r: Option<Uuid>)
    requires UniqueCategoryNames(cats)
    ensures r.Some? ==> r.value in cats && cats[r.value].name == name
    ensures r.None? <==> forall k :: k in cats ==> cats[k].name != name
  {
    if k :| k in cats && cats[k].name == name then Some(k) else None
  }

  /** `create_category`: insert with a fresh id; the primary key and the
      unique name index reject duplicates, and `fk_category_group` rejects a
      group that does not exist (checked after the row, so a duplicate is
      reported first). */
  method CreateCategory(db: Database, req: CreateCategoryRequest, now: int, freshId: Uuid)
    returns (r: Result<Category, DbError>)
    requires db.Valid()
    modifies db
    ensures db.Valid()
    ensures db.accounts == old(db.accounts) && db.transactions == old(db.transactions) && db.rules == old(db.rules)
    ensures var duplicate := freshId in old(db.categories) || CategoryNamed(old(db.categories), req.name).Some?;
      && (r.Failure? <==> duplicate || !GroupKnown(db.groups, req.groupId))
      && (r.Failure? ==> r.error == (if duplicate then UniqueViolation else ForeignKeyViolation))
    ensures r.Failure? ==> db.categories == old(db.categories)
    ensures r.Success? ==>
      && r.value == Category(freshId, req.name, req.description, req.groupId, now, now)
      && db.categories == old(db.categories)[freshId := r.value]
  {
    if freshId in db.categories || CategoryNamed(db.categories, req.name).Some? {
      return Failure(UniqueViolation);
    }
    if !GroupKnown(db.groups, req.groupId) {
      return Failure(ForeignKeyViolation);
    }
    var c := Category(freshId, req.name, req.description, req.groupId, now, now);
    db.categories := db.categories[freshId := c];
    r := Success(c);
  }

  /** `find_or_create_category`: the existing category of that name,
      untouched, or a new one with no description and no group. On success
      the result is the one category of that name, so a second call with the
      same name returns the same id and inserts nothing. */
  method FindOrCreateCategory(db: Database, name: string, now: int, freshId: Uuid)
    returns (r: Result<Category, DbError>)
    requires db.Valid()
    modifies db
    ensures db.Valid()
    ensures db.accounts == old(db.accounts) && db.transactions == old(db.transactions) && db.rules == old(db.rules)
    ensures CategoryNamed(old(db.categories), name).Some? ==>
      r == Success(old(db.categories)[CategoryNamed(old(db.categories), name).value]) && db.categories == old(db.categories)
    ensures CategoryNamed(old(db.categories), name).None? && freshId in old(db.categories) ==>
      r == Failure(UniqueViolation) && db.categories == old(db.categories)
    ensures CategoryNamed(old(db.categories), name).None? && freshId !in old(db.categories) ==>
      && r == Success(Category(freshId, name, None, None, now, now))
      && db.categories == old(db.categories)[freshId := r.value]
    ensures r.Success? ==> r.value.name == name
    ensures r.Success? ==> forall k :: k in db.categories && db.categories[k].name == name ==> k == r.value.id
    ensures r.Success? ==> r.value.id in db.categories && db.categories[r.value.id] == r.value
  {
    match CategoryNamed(db.categories, name)
    case Some(k) =>
      r := Success(db.categories[k]);
    case None =>
      r := CreateCategory(db, CreateCategoryRequest(name, None, None), now, freshId);
  }

  /** `update_category`: unknown id gives None; otherwise only the supplied
      fields change (and `updated_at`). A new name already used by another
      category violates the unique index; a group that does not exist
      violates `fk_category_group`, which is checked after the row. */
  method UpdateCategory(db: Database, id: Uuid, req: UpdateCategoryRequest, now: int)
    returns (r: Result<Option<Category>, DbError>)
    requires db.Valid()
    modifies db
    ensures db.Valid()
    ensures db.accounts == old(db.accounts) && db.transactions == old(db.transactions) && db.rules == old(db.rules)
    ensures id !in old(db.categories) ==> r == Success(None) && db.categories == old(db.categories)
    ensures id in old(db.categories) ==>
      var c := old(db.categories)[id];
      var c' := c.(name := req.name.GetOr(c.name), description := if req.description.Some? then req.description else c.description,
                   groupId := if req.groupId.Some? then req.groupId else c.groupId, updatedAt := now);
      var clash := exists k :: k in old(db.categories) && k != id && old(db.categories)[k].name == c'.name;
      var dangling := !GroupKnown(db.groups, req.groupId);
      && (clash ==> r == Failure(UniqueViolation) && db.categories == old(db.categories))
      && (!clash && dangling ==> r == Failure(ForeignKeyViolation) && db.categories == old(db.categories))
      && (!clash && !dangling ==> r == Success(Some(c')) && db.categories == old(db.categories)[id := c'])
  {
    if id !in db.categories {
      return Success(None);
    }
    var c := db.categories[id];
    var c' := c.(name := req.name.GetOr(c.name), description := if req.description.Some? then req.description else c.description,
                 groupId := if req.groupId.Some? then req.groupId else c.groupId, updatedAt := now);
    if k :| k in db.categories && k != id && db.categories[k].name == c'.name {
      return Failure(UniqueViolation);
    }
    if !GroupKnown(db.groups, req.groupId) {
      return Failure(ForeignKeyViolation);
    }
    db.categories := db.categories[id := c'];
    r := Success(Some(c'));
  }

  /** `UPDATE transactions SET category_id = NULL WHERE category_id = $1`. */
  function ClearCategory(txs: Transactions, id: Uuid): (r: Transactions)
    ensures r.Keys == txs.Keys
    ensures forall k :: k in txs ==>
      r[k] == if txs[k].categoryId == Some(id) then txs[k].(categoryId := None) else txs[k]
  {
    map k | k in txs :: if txs[k].categoryId == Some(id) then txs[k].(categoryId := None) else txs[k]
  }

  /** The first statement of `delete_category`: referencing transactions
      lose their `category_id`; their `category` text stays. */
  method ClearCategoryReferences(db: Database, id: Uuid)
    requires db.Valid()
    modifies db
    ensures db.Valid()
    ensures db.transactions == ClearCategory(old(db.transactions), id)
    ensures db.accounts == old(db.accounts) && db.categories == old(db.categories) && db.rules == old(db.rules)
  {
    var txs := db.transactions;
    var cleared := ClearCategory(txs, id);
    BalancedIgnoresOtherFields(db.accounts, db.opening, txs, cleared);
    db.transactions := cleared;
  }

  /** The second statement: `DELETE FROM categories WHERE id = $1`. */
  method RemoveCategoryRow(db: Database, id: Uuid) returns (rowsAffected: nat)
    requires db.Valid()
    modifies db
    ensures db.Valid()
    ensures db.categories == old(db.categories) - {id}
    ensures rowsAffected == if id in old(db.categories) then 1 else 0
    ensures db.accounts == old(db.accounts) && db.transactions == old(db.transactions) && db.rules == old(db.rules)
  {
    rowsAffected := if id in db.categories then 1 else 0;
    db.categories := db.categories - {id};
  }

  /** `delete_category`: unknown id gives false and changes nothing;
      otherwise every referencing transaction loses its `category_id` (its
      `category` text stays) and the category is removed. */
  method DeleteCategory(db: Database, id: Uuid) returns (deleted: bool)
    requires db.Valid()
    modifies db
    ensures db.Valid()
    ensures db.accounts == old(db.accounts) && db.rules == old(db.rules)
    ensures deleted <==> id in old(db.categories)
    ensures !deleted ==> db.categories == old(db.categories) && db.transactions == old(db.transactions)
    ensures deleted ==> db.categories == old(db.categories) - {id}
    ensures deleted ==> db.transactions == ClearCategory(old(db.transactions), id)
    ensures deleted ==> forall k :: k in db.transactions ==> db.transactions[k].categoryId != Some(id)
  {
    if id !in db.categories {
      return false;
    }
    ClearCategoryReferences(db, id);
    var rows := RemoveCategoryRow(db, id);
    deleted := rows > 0;
  }
}
