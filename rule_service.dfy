// RuleService (src/services/rule_service.rs): evaluating rules against a
// transaction, folding the actions of matching rules into a patch, testing
// conditions, and the two batch loops that write patches to every
// transaction.

module RuleService {
  import opened Base
  import opened Uuids
  import opened Floats
  import opened Text
  import opened Schema
  import opened RuleModel
  import opened Sorting
  import opened Balances
  import opened Store

  // ------------------------------------------------------------ conditions

  /** The closure given to `conditions.iter().all` (rule_service.rs:649-697):
      text conditions compare lower-cased strings, id conditions compare the
      id's hyphenated lower-case form exactly, amount conditions are false
      when the value does not parse as an `f64`. */
  predicate ConditionHolds(t: Transaction, c: RuleCondition) {
    match c.conditionType
    case DescriptionContains => Contains(ToLower(t.description), ToLower(c.value))
    case DescriptionStartsWith => StartsWith(ToLower(t.description), ToLower(c.value))
    case DescriptionEquals => ToLower(t.description) == ToLower(c.value)
    case SourceAccountEquals => Uuids.ToString(t.sourceAccountId) == c.value
    case DestinationAccountEquals => Uuids.ToString(t.destinationAccountId) == c.value
    case DestinationNameContains =>
      t.destinationName.Some? && Contains(ToLower(t.destinationName.value), ToLower(c.value))
    case DestinationNameEquals =>
      t.destinationName.Some? && ToLower(t.destinationName.value) == ToLower(c.value)
    case AmountGreaterThan => ParsedValue(c.value).Some? && ParsedValue(c.value).value.LessThanReal(t.amount)
    case AmountLessThan => ParsedValue(c.value).Some? && ParsedValue(c.value).value.GreaterThanReal(t.amount)
    case AmountEquals =>
      ParsedValue(c.value).Some? && ParsedValue(c.value).value.Finite?
      && -0.001 < t.amount - ParsedValue(c.value).value.v < 0.001
  }

  /** `condition.value.parse::<f64>()`. */
  function ParsedValue(value: string): Option<F64> {
    ParseF64(value)
  }

  /** A rule's conditions hold when every one of them holds. */
  predicate Matches(t: Transaction, cs: seq<RuleCondition>) {
    forall i :: 0 <= i < |cs| ==> ConditionHolds(t, cs[i])
  }

  /** Amount conditions against a natural number: strict comparisons, and
      equality within 0.001. */
  lemma AmountConditionsOnNat(t: Transaction, n: nat)
    ensures ConditionHolds(t, RuleCondition(AmountGreaterThan, NatToString(n))) <==> t.amount > n as real
    ensures ConditionHolds(t, RuleCondition(AmountLessThan, NatToString(n))) <==> t.amount < n as real
    ensures ConditionHolds(t, RuleCondition(AmountEquals, NatToString(n))) <==>
      -0.001 < t.amount - n as real < 0.001
  {
    ParseNatString(n);
  }

  /** An amount condition whose value does not parse never holds. */
  lemma UnparsedAmountNeverHolds(t: Transaction, c: RuleCondition)
    requires c.conditionType == AmountGreaterThan || c.conditionType == AmountLessThan || c.conditionType == AmountEquals
    requires ParseF64(c.value).None?
    ensures !ConditionHolds(t, c)
  {
  }

  /** Amount equality against an infinite or NaN value never holds. */
  lemma NonFiniteAmountNeverEqual(t: Transaction, c: RuleCondition)
    requires c.conditionType == AmountEquals
    requires ParseF64(c.value).Some? && !ParseF64(c.value).value.Finite?
    ensures !ConditionHolds(t, c)
  {
  }

  /** Text conditions ignore the case of both sides. */
  lemma TextConditionsIgnoreCase(t: Transaction, c: RuleCondition)
    requires c.conditionType in {DescriptionContains, DescriptionStartsWith, DescriptionEquals,
                                 DestinationNameContains, DestinationNameEquals}
    ensures ConditionHolds(t, c) <==> ConditionHolds(t, c.(value := ToLower(c.value)))
    ensures ConditionHolds(t, c) <==> ConditionHolds(t.(description := ToLower(t.description)), c)
  {
    ToLowerIdempotent(c.value);
    ToLowerIdempotent(t.description);
  }

  /** Destination-name conditions never hold for a transaction without a
      destination name. */
  lemma NoDestinationNameNeverMatches(t: Transaction, c: RuleCondition)
    requires c.conditionType in {DestinationNameContains, DestinationNameEquals}
    requires t.destinationName.None?
    ensures !ConditionHolds(t, c)
  {
  }

  /** Account-id conditions are case-sensitive: a value containing an
      upper-case letter never equals an id's string form. */
  lemma UpperCaseIdNeverMatches(t: Transaction, c: RuleCondition, k: nat)
    requires c.conditionType in {SourceAccountEquals, DestinationAccountEquals}
    requires k < |c.value| && 'A' <= c.value[k] <= 'Z'
    ensures !ConditionHolds(t, c)
  {
    ToStringLowerCase(t.sourceAccountId);
    ToStringLowerCase(t.destinationAccountId);
  }

  // --------------------------------------------------------------- actions

  /** One action applied to the patch (rule_service.rs:703-725). An
      unparseable budget id leaves the patch as it is. */
  function ApplyAction(p: UpdateTransactionRequest, a: RuleAction): UpdateTransactionRequest {
    match a.actionType
    case SetCategory => p.(category := Some(a.value))
    case SetBudget => if ParseUuid(a.value).Some? then p.(budgetId := ParseUuid(a.value)) else p
    case SetDescription => p.(description := Some(a.value))
    case SetDestinationName => p.(destinationName := Some(a.value))
  }

  /** The actions applied in order. */
  function ApplyActions(p: UpdateTransactionRequest, acts: seq<RuleAction>): UpdateTransactionRequest
    decreases |acts|
  {
    if acts == [] then p else ApplyAction(ApplyActions(p, acts[..|acts| - 1]), acts[|acts| - 1])
  }

  predicate SetsCategory(a: RuleAction) { a.actionType == SetCategory }
  predicate SetsBudget(a: RuleAction) { a.actionType == SetBudget && ParseUuid(a.value).Some? }
  predicate SetsDescription(a: RuleAction) { a.actionType == SetDescription }
  predicate SetsDestinationName(a: RuleAction) { a.actionType == SetDestinationName }

  /** The index of the last action that `writes`, if any. */
  function LastWriter(acts: seq<RuleAction>, writes: RuleAction -> bool): (r: Option<nat>)
    ensures r.Some? ==> r.value < |acts| && writes(acts[r.value])
    ensures r.Some? ==> forall j :: r.value < j < |acts| ==> !writes(acts[j])
    ensures r.None? ==> forall j :: 0 <= j < |acts| ==> !writes(acts[j])
    decreases |acts|
  {
    if acts == [] then None
    else if writes(acts[|acts| - 1]) then Some(|acts| - 1)
    else LastWriter(acts[..|acts| - 1], writes)
  }

  lemma {:induction false} LastCategoryWins(p: UpdateTransactionRequest, acts: seq<RuleAction>)
    ensures ApplyActions(p, acts).category ==
      (match LastWriter(acts, SetsCategory) case Some(i) => Some(acts[i].value) case None => p.category)
    decreases |acts|
  {
    if acts != [] {
      var init := acts[..|acts| - 1];
      LastCategoryWins(p, init);
      match LastWriter(init, SetsCategory)
      case Some(i) => assert acts[i] == init[i];
      case None =>
    }
  }

  lemma {:induction false} LastBudgetWins(p: UpdateTransactionRequest, acts: seq<RuleAction>)
    ensures ApplyActions(p, acts).budgetId ==
      (match LastWriter(acts, SetsBudget) case Some(i) => ParseUuid(acts[i].value) case None => p.budgetId)
    decreases |acts|
  {
    if acts != [] {
      var init := acts[..|acts| - 1];
      LastBudgetWins(p, init);
      match LastWriter(init, SetsBudget)
      case Some(i) => assert acts[i] == init[i];
      case None =>
    }
  }

  lemma {:induction false} LastDescriptionWins(p: UpdateTransactionRequest, acts: seq<RuleAction>)
    ensures ApplyActions(p, acts).description ==
      (match LastWriter(acts, SetsDescription) case Some(i) => Some(acts[i].value) case None => p.description)
    decreases |acts|
  {
    if acts != [] {
      var init := acts[..|acts| - 1];
      LastDescriptionWins(p, init);
      match LastWriter(init, SetsDescription)
      case Some(i) => assert acts[i] == init[i];
      case None =>
    }
  }

  lemma {:induction false} LastDestinationNameWins(p: UpdateTransactionRequest, acts: seq<RuleAction>)
    ensures ApplyActions(p, acts).destinationName ==
      (match LastWriter(acts, SetsDestinationName) case Some(i) => Some(acts[i].value) case None => p.destinationName)
    decreases |acts|
  {
    if acts != [] {
      var init := acts[..|acts| - 1];
      LastDestinationNameWins(p, init);
      match LastWriter(init, SetsDestinationName)
      case Some(i) => assert acts[i] == init[i];
      case None =>
    }
  }

  /** Actions never touch the amount, the destination account or the date. */
  lemma {:induction false} ActionsKeepOtherFields(p: UpdateTransactionRequest, acts: seq<RuleAction>)
    ensures var q := ApplyActions(p, acts);
      q.amount == p.amount && q.destinationAccountId == p.destinationAccountId
      && q.transactionDate == p.transactionDate
    decreases |acts|
  {
    if acts != [] {
      ActionsKeepOtherFields(p, acts[..|acts| - 1]);
    }
  }

  /** Folding actions: each of the four fields ends up with the value of the
      last action that sets it (a later action overwrites an earlier one),
      or keeps its previous value; the other three fields are never set. */
  lemma LastActionWins(p: UpdateTransactionRequest, acts: seq<RuleAction>)
    ensures var q := ApplyActions(p, acts);
      && q.category == (match LastWriter(acts, SetsCategory) case Some(i) => Some(acts[i].value) case None => p.category)
      && q.budgetId == (match LastWriter(acts, SetsBudget) case Some(i) => ParseUuid(acts[i].value) case None => p.budgetId)
      && q.description == (match LastWriter(acts, SetsDescription) case Some(i) => Some(acts[i].value) case None => p.description)
      && q.destinationName ==
           (match LastWriter(acts, SetsDestinationName) case Some(i) => Some(acts[i].value) case None => p.destinationName)
      && q.amount == p.amount && q.destinationAccountId == p.destinationAccountId
      && q.transactionDate == p.transactionDate
  {
    LastCategoryWins(p, acts);
    LastBudgetWins(p, acts);
    LastDescriptionWins(p, acts);
    LastDestinationNameWins(p, acts);
    ActionsKeepOtherFields(p, acts);
  }

  /** Applying `a + b` is applying `a`, then `b`. */
  lemma {:induction false} ApplyActionsAppend(p: UpdateTransactionRequest, a: seq<RuleAction>, b: seq<RuleAction>)
    ensures ApplyActions(p, a + b) == ApplyActions(ApplyActions(p, a), b)
    decreases |b|
  {
    if b == [] {
      assert a + b == a;
    } else {
      assert (a + b)[..|a + b| - 1] == a + b[..|b| - 1];
      ApplyActionsAppend(p, a, b[..|b| - 1]);
    }
  }

  // ------------------------------------------------------------ evaluation

  /** The accumulated state of the rule loop: `update_request` and
      `any_rule_applied`. */
  datatype Evaluation = Evaluation(patch: UpdateTransactionRequest, anyApplied: bool)

  /** A rule whose JSON decodes and whose conditions all hold for `t`. */
  predicate Applies(rule: Rule, t: Transaction) {
    && DecodeConditions(rule.conditionsJson).Some?
    && DecodeActions(rule.actionsJson).Some?
    && Matches(t, DecodeConditions(rule.conditionsJson).value)
  }

  /** One iteration of the rule loop: rules whose JSON fails to decode are
      skipped; a matching rule folds its actions into the patch. */
  function EvaluateStep(e: Evaluation, rule: Rule, t: Transaction): Evaluation {
    if Applies(rule, t) then Evaluation(ApplyActions(e.patch, DecodeActions(rule.actionsJson).value), true) else e
  }

  /** The rule loop over the fetched rules, in order. */
  function Evaluate(rules: seq<Rule>, t: Transaction): Evaluation
    decreases |rules|
  {
    if rules == [] then Evaluation(EmptyUpdate, false)
    else EvaluateStep(Evaluate(rules[..|rules| - 1], t), rules[|rules| - 1], t)
  }

  /** What `apply_rules_to_transaction` returns for the fetched rules. */
  function RulesOutcome(rules: seq<Rule>, t: Transaction): Option<UpdateTransactionRequest> {
    if rules == [] then None
    else
      var e := Evaluate(rules, t);
      if e.anyApplied then Some(e.patch) else None
  }

  /** The actions of the applying rules, concatenated in rule order. */
  function AppliedActions(rules: seq<Rule>, t: Transaction): seq<RuleAction>
    decreases |rules|
  {
    if rules == [] then []
    else
      var last := rules[|rules| - 1];
      AppliedActions(rules[..|rules| - 1], t) + (if Applies(last, t) then DecodeActions(last.actionsJson).value else [])
  }

  /** Evaluating the rules is applying the actions of the applying rules,
      in order, to the empty patch. */
  lemma {:induction false} EvaluatePatchIsFold(rules: seq<Rule>, t: Transaction)
    ensures Evaluate(rules, t).patch == ApplyActions(EmptyUpdate, AppliedActions(rules, t))
    decreases |rules|
  {
    if rules != [] {
      var init := rules[..|rules| - 1];
      var last := rules[|rules| - 1];
      EvaluatePatchIsFold(init, t);
      if Applies(last, t) {
        ApplyActionsAppend(EmptyUpdate, AppliedActions(init, t), DecodeActions(last.actionsJson).value);
      } else {
        assert Evaluate(rules, t) == Evaluate(init, t);
        assert AppliedActions(rules, t) == AppliedActions(init, t) + [];
        assert AppliedActions(init, t) + [] == AppliedActions(init, t);
      }
    }
  }

  /** `any_rule_applied` ends true exactly when some rule applies. */
  lemma {:induction false} EvaluateAnyApplied(rules: seq<Rule>, t: Transaction)
    ensures Evaluate(rules, t).anyApplied <==> exists i :: 0 <= i < |rules| && Applies(rules[i], t)
    decreases |rules|
  {
    if rules != [] {
      var init := rules[..|rules| - 1];
      EvaluateAnyApplied(init, t);
      if exists i :: 0 <= i < |init| && Applies(init[i], t) {
        var i :| 0 <= i < |init| && Applies(init[i], t);
        assert rules[i] == init[i];
      }
      if exists i :: 0 <= i < |rules| && Applies(rules[i], t) {
        var i :| 0 <= i < |rules| && Applies(rules[i], t);
        if i < |init| {
          assert init[i] == rules[i];
        }
      }
    }
  }

  /** The outcome is a patch exactly when some fetched rule applies, even
      when that patch sets no field; it never sets the amount, the
      destination id or the date, and each of the four rule fields holds the
      value of the last action that sets it. */
  lemma RulesOutcomeSpec(rules: seq<Rule>, t: Transaction)
    ensures RulesOutcome(rules, t).Some? <==> exists i :: 0 <= i < |rules| && Applies(rules[i], t)
    ensures RulesOutcome(rules, t).Some? ==>
      && RulesOutcome(rules, t).value == ApplyActions(EmptyUpdate, AppliedActions(rules, t))
      && RulesOutcome(rules, t).value.amount.None?
      && RulesOutcome(rules, t).value.destinationAccountId.None?
      && RulesOutcome(rules, t).value.transactionDate.None?
  {
    EvaluatePatchIsFold(rules, t);
    EvaluateAnyApplied(rules, t);
    LastActionWins(EmptyUpdate, AppliedActions(rules, t));
  }

  /** A decodable rule without conditions applies to every transaction, so
      the outcome is then always a patch. */
  lemma EmptyConditionsMatchAll(rules: seq<Rule>, i: nat, t: Transaction)
    requires i < |rules|
    requires DecodeConditions(rules[i].conditionsJson) == Some([]) && DecodeActions(rules[i].actionsJson).Some?
    ensures RulesOutcome(rules, t).Some?
  {
    assert Applies(rules[i], t);
    RulesOutcomeSpec(rules, t);
  }

  // -------------------------------------------------------- fetching rules

  function Priority(r: Rule): int { r.priority }

  ghost function ActiveIds(rules: map<Uuid, Rule>): set<Uuid> {
    set k | k in rules && rules[k].isActive
  }

  /** A possible answer to `SELECT * FROM rules WHERE is_active = true
      ORDER BY priority ASC`: every active row once, by ascending priority,
      rows of equal priority in no specified order. */
  ghost predicate ActiveByPriority(rules: map<Uuid, Rule>, fetched: seq<Rule>) {
    && SortedBy(fetched, Priority)
    && (forall i :: 0 <= i < |fetched| ==> fetched[i] in rules.Values && fetched[i].isActive)
    && (forall k :: k in rules && rules[k].isActive ==> rules[k] in fetched)
    && |fetched| == |ActiveIds(rules)|
  }

  method FetchActiveRules(rules: map<Uuid, Rule>) returns (fetched: seq<Rule>)
    ensures ActiveByPriority(rules, fetched)
  {
    var keys := ScanKeys(rules);
    var active := CollectActive(rules, keys);
    fetched := SortBy(active, Priority);
    forall i | 0 <= i < |fetched|
      ensures fetched[i] in rules.Values && fetched[i].isActive
    {
      assert multiset(fetched)[fetched[i]] > 0;
      var j :| 0 <= j < |active| && active[j] == fetched[i];
    }
    forall k | k in rules && rules[k].isActive
      ensures rules[k] in fetched
    {
      assert multiset(active)[rules[k]] > 0;
    }
  }

  /** The active rows, visiting the ids in the order `keys` lists them. */
  method CollectActive(rules: map<Uuid, Rule>, keys: seq<Uuid>) returns (active: seq<Rule>)
    requires Distinct(keys) && (forall i :: 0 <= i < |keys| ==> keys[i] in rules) && (forall k :: k in rules ==> k in keys)
    ensures forall j :: 0 <= j < |active| ==> active[j] in rules.Values && active[j].isActive
    ensures forall k :: k in rules && rules[k].isActive ==> rules[k] in active
    ensures |active| == |ActiveIds(rules)|
  {
    active := [];
    for i := 0 to |keys|
      invariant active == ActiveRows(rules, keys, i)
    {
      var k := keys[i];
      if rules[k].isActive {
        active := active + [rules[k]];
      }
    }
    ActivePrefixAll(rules, keys);
    forall k | k in rules && rules[k].isActive
      ensures rules[k] in active
    {
      var j :| 0 <= j < |keys| && keys[j] == k;
    }
  }

  /** The active rows among the first `i` of `keys`, in key order. */
  function ActiveRows(rules: map<Uuid, Rule>, keys: seq<Uuid>, i: nat): (r: seq<Rule>)
    requires i <= |keys| && forall j :: 0 <= j < |keys| ==> keys[j] in rules
    ensures |r| == ActivePrefix(rules, keys, i)
    ensures forall j :: 0 <= j < |r| ==> r[j] in rules.Values && r[j].isActive
    ensures forall j :: 0 <= j < i && rules[keys[j]].isActive ==> rules[keys[j]] in r
  {
    if i == 0 then []
    else
      var k := keys[i - 1];
      assert rules[k] in rules.Values;
      ActiveRows(rules, keys, i - 1) + (if rules[k].isActive then [rules[k]] else [])
  }

  /** How many of the first `i` of `keys` name an active rule. */
  function ActivePrefix(rules: map<Uuid, Rule>, keys: seq<Uuid>, i: nat): nat
    requires i <= |keys| && forall j :: 0 <= j < |keys| ==> keys[j] in rules
  {
    if i == 0 then 0 else ActivePrefix(rules, keys, i - 1) + (if rules[keys[i - 1]].isActive then 1 else 0)
  }

  /** The active ids among the first `i` of `keys`. */
  ghost function ActiveAmong(rules: map<Uuid, Rule>, keys: seq<Uuid>, i: nat): set<Uuid>
    requires i <= |keys| && forall j :: 0 <= j < |keys| ==> keys[j] in rules
  {
    if i == 0 then {}
    else if rules[keys[i - 1]].isActive then ActiveAmong(rules, keys, i - 1) + {keys[i - 1]}
    else ActiveAmong(rules, keys, i - 1)
  }

  lemma {:induction false} ActiveAmongCount(rules: map<Uuid, Rule>, keys: seq<Uuid>, i: nat)
    requires i <= |keys| && Distinct(keys) && forall j :: 0 <= j < |keys| ==> keys[j] in rules
    ensures |ActiveAmong(rules, keys, i)| == ActivePrefix(rules, keys, i)
    ensures forall x :: x in ActiveAmong(rules, keys, i) <==> x in keys[..i] && rules[x].isActive
  {
    if i > 0 {
      ActiveAmongCount(rules, keys, i - 1);
      assert keys[..i] == keys[..i - 1] + [keys[i - 1]];
      assert keys[i - 1] !in keys[..i - 1];
    }
  }

  lemma ActivePrefixAll(rules: map<Uuid, Rule>, keys: seq<Uuid>)
    requires Distinct(keys) && (forall j :: 0 <= j < |keys| ==> keys[j] in rules) && (forall k :: k in rules ==> k in keys)
    ensures ActivePrefix(rules, keys, |keys|) == |ActiveIds(rules)|
  {
    ActiveAmongCount(rules, keys, |keys|);
    assert keys[..|keys|] == keys;
    assert ActiveAmong(rules, keys, |keys|) == ActiveIds(rules);
  }

  /** The rule loop of `apply_rules_to_transaction` and
      `apply_all_rules_to_all_transactions`, with the inner action loop. */
  method EvaluateRules(rules: seq<Rule>, t: Transaction) returns (e: Evaluation)
    ensures e == Evaluate(rules, t)
  {
    var patch := EmptyUpdate;
    var anyApplied := false;
    for i := 0 to |rules|
      invariant Evaluation(patch, anyApplied) == Evaluate(rules[..i], t)
    {
      assert rules[..i + 1][..i] == rules[..i];
      var rule := rules[i];
      var conditions := DecodeConditions(rule.conditionsJson);
      var actions := DecodeActions(rule.actionsJson);
      if conditions.Some? && actions.Some? && Matches(t, conditions.value) {
        var acts := actions.value;
        ghost var start := patch;
        for j := 0 to |acts|
          invariant patch == ApplyActions(start, acts[..j])
        {
          assert acts[..j + 1][..j] == acts[..j];
          var action := acts[j];
          match action.actionType
          case SetCategory => patch := patch.(category := Some(action.value));
          case SetBudget =>
            var budget := ParseUuid(action.value);
            if budget.Some? {
              patch := patch.(budgetId := Some(budget.value));
            }
          case SetDescription => patch := patch.(description := Some(action.value));
          case SetDestinationName => patch := patch.(destinationName := Some(action.value));
        }
        assert acts[..|acts|] == acts;
        anyApplied := true;
      }
    }
    assert rules[..|rules|] == rules;
    e := Evaluation(patch, anyApplied);
  }

  /** `apply_rules_to_transaction`: the active rules by priority, evaluated
      in that order (rule_service.rs:605-737). */
  method ApplyRulesToTransaction(db: Database, t: Transaction)
    returns (r: Option<UpdateTransactionRequest>, ghost fetched: seq<Rule>)
    requires db.Valid()
    ensures ActiveByPriority(db.rules, fetched)
    ensures r == RulesOutcome(fetched, t)
  {
    var rules := FetchActiveRules(db.rules);
    fetched := rules;
    if |rules| == 0 {
      return None, fetched;
    }
    var e := EvaluateRules(rules, t);
    r := if e.anyApplied then Some(e.patch) else None;
  }

  /** Rules of equal priority may be fetched in either order, and the
      outcome then depends on that order: with two matching rules of the
      same priority setting different categories, both orders are answers
      to the query and their patches differ. */
  lemma PriorityTiesAreUnordered()
    ensures exists rules: map<Uuid, Rule>, a: seq<Rule>, b: seq<Rule>, t: Transaction ::
      && ActiveByPriority(rules, a) && ActiveByPriority(rules, b)
      && RulesOutcome(a, t) != RulesOutcome(b, t)
  {
    var u0: Uuid := seq(32, i => 0);
    var u1: Uuid := seq(32, i => if i == 0 then 1 else 0);
    assert u0[0] != u1[0];
    var r0 := CategoryRule(u0, "A");
    var r1 := CategoryRule(u1, "B");
    var rules := map[u0 := r0, u1 := r1];
    var t := Transaction(u0, u0, u1, None, "", 1.0, "", None, None, 0, 0, 0);
    TiedRulesEitherOrder(u0, u1, "A", "B");
    LaterCategoryRuleWins(u0, u1, "A", "B", t);
    LaterCategoryRuleWins(u1, u0, "B", "A", t);
    assert RulesOutcome([r0, r1], t) != RulesOutcome([r1, r0], t);
  }

  /** An active rule of priority 0 without conditions that sets the
      category. */
  function CategoryRule(id: Uuid, category: string): Rule {
    Rule(id, "", None, true, 0, None, EncodeConditions([]), EncodeActions([RuleAction(SetCategory, category)]), 0, 0)
  }

  lemma CategoryRuleApplies(id: Uuid, category: string, t: Transaction)
    ensures Applies(CategoryRule(id, category), t)
    ensures DecodeActions(CategoryRule(id, category).actionsJson) == Some([RuleAction(SetCategory, category)])
  {
    ConditionsRoundTrip([], Malformed);
    ActionsRoundTrip([RuleAction(SetCategory, category)], Malformed);
  }

  lemma OneCategoryRule(id: Uuid, category: string, t: Transaction)
    ensures Evaluate([CategoryRule(id, category)], t) == Evaluation(EmptyUpdate.(category := Some(category)), true)
  {
    var r := CategoryRule(id, category);
    var act := RuleAction(SetCategory, category);
    CategoryRuleApplies(id, category, t);
    assert [r][..0] == [];
    assert Evaluate([r], t) == EvaluateStep(Evaluation(EmptyUpdate, false), r, t);
    assert [act][..0] == [];
    assert ApplyActions(EmptyUpdate, [act]) == ApplyAction(EmptyUpdate, act);
  }

  /** Of two such rules, the later one's category is the outcome. */
  lemma LaterCategoryRuleWins(x: Uuid, y: Uuid, cx: string, cy: string, t: Transaction)
    ensures RulesOutcome([CategoryRule(x, cx), CategoryRule(y, cy)], t) == Some(EmptyUpdate.(category := Some(cy)))
  {
    var rules := [CategoryRule(x, cx), CategoryRule(y, cy)];
    var act := RuleAction(SetCategory, cy);
    var first := Evaluation(EmptyUpdate.(category := Some(cx)), true);
    OneCategoryRule(x, cx, t);
    CategoryRuleApplies(y, cy, t);
    assert rules[..1] == [CategoryRule(x, cx)];
    assert Evaluate(rules, t) == EvaluateStep(first, CategoryRule(y, cy), t);
    assert [act][..0] == [];
    assert ApplyActions(first.patch, [act]) == ApplyAction(first.patch, act);
  }

  /** Two such rules with different ids may be fetched in either order. */
  lemma TiedRulesEitherOrder(x: Uuid, y: Uuid, cx: string, cy: string)
    requires x != y
    ensures var rules := map[x := CategoryRule(x, cx), y := CategoryRule(y, cy)];
      && ActiveByPriority(rules, [CategoryRule(x, cx), CategoryRule(y, cy)])
      && ActiveByPriority(rules, [CategoryRule(y, cy), CategoryRule(x, cx)])
  {
    var rules := map[x := CategoryRule(x, cx), y := CategoryRule(y, cy)];
    assert ActiveIds(rules) == {x, y};
  }


  // ------------------------------------------------------- test_conditions

  function NewestFirst(t: Transaction): int { -t.transactionDate }

  /** A possible answer to `SELECT * FROM transactions ORDER BY
      transaction_date DESC`. */
  ghost predicate ByDateDescending(txs: Transactions, fetched: seq<Transaction>) {
    && SortedBy(fetched, NewestFirst)
    && (forall i :: 0 <= i < |fetched| ==> fetched[i] in txs.Values)
    && (forall k :: k in txs ==> txs[k] in fetched)
    && |fetched| == |txs|
  }

  method FetchTransactionsByDate(txs: Transactions) returns (fetched: seq<Transaction>)
    ensures ByDateDescending(txs, fetched)
  {
    var keys := ScanKeys(txs);
    var rows := seq(|keys|, i requires 0 <= i < |keys| => txs[keys[i]]);
    forall i | 0 <= i < |rows|
      ensures rows[i] in txs.Values
    {
      assert txs[keys[i]] in txs.Values;
    }
    fetched := SortBy(rows, NewestFirst);
    forall i | 0 <= i < |fetched|
      ensures fetched[i] in txs.Values
    {
      assert multiset(fetched)[fetched[i]] > 0;
      var j :| 0 <= j < |rows| && rows[j] == fetched[i];
    }
    forall k | k in txs
      ensures txs[k] in fetched
    {
      var i :| 0 <= i < |keys| && keys[i] == k;
      assert rows[i] == txs[k];
      assert multiset(rows)[txs[k]] > 0;
    }
  }

  /** The transactions (in fetched order) that satisfy every condition. */
  function Matching(fetched: seq<Transaction>, cs: seq<RuleCondition>): (r: seq<Transaction>)
    ensures |r| <= |fetched|
    ensures forall x :: x in r ==> x in fetched && Matches(x, cs)
    ensures forall x :: x in fetched && Matches(x, cs) ==> x in r
    decreases |fetched|
  {
    if fetched == [] then []
    else
      var last := fetched[|fetched| - 1];
      assert fetched == fetched[..|fetched| - 1] + [last];
      Matching(fetched[..|fetched| - 1], cs) + (if Matches(last, cs) then [last] else [])
  }

  /** Taking one more fetched transaction adds it to the matching ones
      exactly when it matches. */
  lemma MatchingSnoc(fetched: seq<Transaction>, i: nat, cs: seq<RuleCondition>)
    requires i < |fetched|
    ensures Matching(fetched[..i + 1], cs)
      == Matching(fetched[..i], cs) + (if Matches(fetched[i], cs) then [fetched[i]] else [])
  {
    assert fetched[..i + 1][..i] == fetched[..i];
  }

  /** The scan in `test_conditions`: every fetched transaction is tested
      against the conditions and kept when it matches. */
  method CollectMatching(transactions: seq<Transaction>, cs: seq<RuleCondition>) returns (matched: seq<Transaction>)
    ensures matched == Matching(transactions, cs)
  {
    matched := [];
    for i := 0 to |transactions|
      invariant matched == Matching(transactions[..i], cs)
    {
      MatchingSnoc(transactions, i, cs);
      if Matches(transactions[i], cs) {
        matched := matched + [transactions[i]];
      }
    }
    assert transactions[..|transactions|] == transactions;
  }

  /** `test_conditions` (rule_service.rs:742-806): the number of matching
      transactions and the first (at most) 100 of them, newest first. */
  method TestConditions(db: Database, cs: seq<RuleCondition>)
    returns (total: nat, sample: seq<Transaction>, ghost fetched: seq<Transaction>)
    ensures ByDateDescending(db.transactions, fetched)
    ensures total == |Matching(fetched, cs)|
    ensures sample == Matching(fetched, cs)[..Min(100, total)]
  {
    var transactions := FetchTransactionsByDate(db.transactions);
    fetched := transactions;
    var matched := CollectMatching(transactions, cs);
    total := |matched|;
    sample := matched[..Min(100, total)];
  }

  /** The sample holds at most 100 transactions, each one stored and
      matching every condition, newest first; every stored matching
      transaction is counted. */
  lemma TestConditionsSample(txs: Transactions, fetched: seq<Transaction>, cs: seq<RuleCondition>)
    requires ByDateDescending(txs, fetched)
    ensures var m := Matching(fetched, cs);
      && |m[..Min(100, |m|)]| <= 100
      && (forall x :: x in m ==> x in txs.Values && Matches(x, cs))
      && (forall k :: k in txs && Matches(txs[k], cs) ==> txs[k] in m)
      && |m| <= |txs|
      && SortedBy(m, NewestFirst)
  {
    var m := Matching(fetched, cs);
    MatchingSorted(fetched, cs);
    forall x | x in m
      ensures x in txs.Values
    {
      var i :| 0 <= i < |fetched| && fetched[i] == x;
    }
  }

  /** Selecting the matching transactions keeps them newest first. */
  lemma {:induction false} MatchingSorted(fetched: seq<Transaction>, cs: seq<RuleCondition>)
    requires SortedBy(fetched, NewestFirst)
    ensures SortedBy(Matching(fetched, cs), NewestFirst)
    decreases |fetched|
  {
    if fetched != [] {
      var init := fetched[..|fetched| - 1];
      var last := fetched[|fetched| - 1];
      MatchingSorted(init, cs);
      var m := Matching(init, cs);
      if Matches(last, cs) {
        forall i | 0 <= i < |m|
          ensures NewestFirst(m[i]) <= NewestFirst(last)
        {
          assert m[i] in init;
          var j :| 0 <= j < |init| && init[j] == m[i];
          assert fetched[j] == m[i];
        }
      }
    }
  }

  // ----------------------------------------------------------- batch paths

  /** The batch UPDATE: the four rule fields from the patch and
      `updated_at`; the destination account is not re-resolved and
      `category_id` is not touched. */
  function PatchRow(row: Transaction, p: UpdateTransactionRequest, now: int): (r: Transaction)
    ensures r.id == row.id && r.sourceAccountId == row.sourceAccountId
    ensures r.destinationAccountId == row.destinationAccountId && r.amount == row.amount
    ensures r.categoryId == row.categoryId && r.transactionDate == row.transactionDate
  {
    row.(category := p.category.GetOr(row.category),
         budgetId := if p.budgetId.Some? then p.budgetId else row.budgetId,
         description := p.description.GetOr(row.description),
         destinationName := if p.destinationName.Some? then p.destinationName else row.destinationName,
         updatedAt := now)
  }

  /** A transaction the batch writes: a patch setting some rule field, and
      an UPDATE the database accepts. `rejected` holds the ids whose UPDATE
      statement fails for reasons outside this model; a budget id that
      names none of `budgets` fails `fk_budget` (migrations.rs:382). */
  predicate Written(patch: Option<UpdateTransactionRequest>, id: Uuid, rejected: set<Uuid>, budgets: set<Uuid>) {
    patch.Some? && patch.value.SetsRuleField() && id !in rejected && BudgetKnown(budgets, patch.value.budgetId)
  }

  /** The transactions table after the batch has visited the ids in `done`. */
  function Rewritten(txs: Transactions, patchOf: Transaction -> Option<UpdateTransactionRequest>, done: set<Uuid>,
                     rejected: set<Uuid>, budgets: set<Uuid>, now: int): (r: Transactions)
    ensures r.Keys == txs.Keys
  {
    map k | k in txs :: if k in done && Written(patchOf(txs[k]), k, rejected, budgets)
                        then PatchRow(txs[k], patchOf(txs[k]).value, now)
                        else txs[k]
  }

  function WrittenIds(txs: Transactions, patchOf: Transaction -> Option<UpdateTransactionRequest>, done: set<Uuid>,
                      rejected: set<Uuid>, budgets: set<Uuid>): set<Uuid>
  {
    set k | k in txs && k in done && Written(patchOf(txs[k]), k, rejected, budgets)
  }

  /** The batch rewrite changes only the four rule fields and `updated_at`
      of written rows: ids, accounts and amounts stay, so every balance and
      the ledger stay consistent, every budget key still holds, and the
      count is at most the number of rows. */
  lemma RewrittenKeepsLedger(accts: Accounts, txs: Transactions, opening: map<Uuid, real>,
                             patchOf: Transaction -> Option<UpdateTransactionRequest>, done: set<Uuid>,
                             rejected: set<Uuid>, budgets: set<Uuid>, now: int)
    requires LedgerValid(accts, txs, opening) && BudgetKeysHold(budgets, txs)
    ensures var r := Rewritten(txs, patchOf, done, rejected, budgets, now);
      && LedgerValid(accts, r, opening)
      && BudgetKeysHold(budgets, r)
      && (forall k :: k in txs ==> r[k].destinationAccountId == txs[k].destinationAccountId && r[k].amount == txs[k].amount)
      && (forall k :: k in txs && k !in WrittenIds(txs, patchOf, done, rejected, budgets) ==> r[k] == txs[k])
    ensures |WrittenIds(txs, patchOf, done, rejected, budgets)| <= |txs|
  {
    var r := Rewritten(txs, patchOf, done, rejected, budgets, now);
    LedgerIgnoresOtherFields(accts, txs, r, opening);
    RewrittenKeepsBudgetKeys(txs, patchOf, done, rejected, budgets, now);
    assert WrittenIds(txs, patchOf, done, rejected, budgets) <= txs.Keys;
    SubsetCardinality(WrittenIds(txs, patchOf, done, rejected, budgets), txs.Keys);
  }

  /** A row is rewritten only when its patch's budget, if any, exists. */
  lemma RewrittenKeepsBudgetKeys(txs: Transactions, patchOf: Transaction -> Option<UpdateTransactionRequest>,
                                 done: set<Uuid>, rejected: set<Uuid>, budgets: set<Uuid>, now: int)
    requires BudgetKeysHold(budgets, txs)
    ensures BudgetKeysHold(budgets, Rewritten(txs, patchOf, done, rejected, budgets, now))
  {
    var r := Rewritten(txs, patchOf, done, rejected, budgets, now);
    forall k | k in r
      ensures BudgetKnown(budgets, r[k].budgetId)
    {
      assert BudgetKnown(budgets, txs[k].budgetId);
    }
  }

  lemma SubsetCardinality(a: set<Uuid>, b: set<Uuid>)
    requires a <= b
    ensures |a| <= |b|
  {
    assert b == a + (b - a);
  }

  /** The UPDATE of one transaction by the batch paths. */
  method WritePatch(db: Database, id: Uuid, patch: UpdateTransactionRequest, now: int, rejected: set<Uuid>)
    returns (ok: bool)
    requires db.Valid() && id in db.transactions
    modifies db
    ensures db.Valid()
    ensures db.accounts == old(db.accounts) && db.categories == old(db.categories) && db.rules == old(db.rules)
    ensures ok <==> id !in rejected && BudgetKnown(db.budgets, patch.budgetId)
    ensures ok ==> db.transactions == old(db.transactions)[id := PatchRow(old(db.transactions)[id], patch, now)]
    ensures !ok ==> db.transactions == old(db.transactions)
  {
    if id in rejected || !BudgetKnown(db.budgets, patch.budgetId) {
      return false;
    }
    var txs := db.transactions;
    var txs' := txs[id := PatchRow(txs[id], patch, now)];
    LedgerIgnoresOtherFields(db.accounts, txs, txs', db.opening);
    BudgetKeysAfterWrite(db.budgets, txs, PatchRow(txs[id], patch, now));
    db.transactions := txs';
    ok := true;
  }

  /** The patch the single-rule batch computes for a row: the rule's
      actions, when it applies. */
  function SingleRulePatch(rule: Rule, t: Transaction): Option<UpdateTransactionRequest> {
    if Applies(rule, t) then Some(ApplyActions(EmptyUpdate, DecodeActions(rule.actionsJson).value)) else None
  }

  /** Running one rule on its own gives what `apply_rules_to_transaction`
      gives when that rule is the only active one. */
  lemma SingleRuleIsRulesOutcome(rule: Rule, t: Transaction)
    ensures SingleRulePatch(rule, t) == RulesOutcome([rule], t)
  {
    assert [rule][..0] == [] && [rule][0] == rule;
    assert Evaluate([rule], t) == EvaluateStep(Evaluate([], t), rule, t);
  }

  /** Before the first row is visited the table is as it was. */
  lemma NothingRewrittenYet(txs: Transactions, patchOf: Transaction -> Option<UpdateTransactionRequest>,
                            rejected: set<Uuid>, budgets: set<Uuid>, now: int)
    ensures Rewritten(txs, patchOf, {}, rejected, budgets, now) == txs
    ensures WrittenIds(txs, patchOf, {}, rejected, budgets) == {}
  {
    var r := Rewritten(txs, patchOf, {}, rejected, budgets, now);
    assert forall k | k in r :: r[k] == txs[k];
  }

  lemma RewrittenStep(txs: Transactions, patchOf: Transaction -> Option<UpdateTransactionRequest>, done: set<Uuid>,
                      k: Uuid, rejected: set<Uuid>, budgets: set<Uuid>, now: int)
    requires k in txs && k !in done
    ensures Rewritten(txs, patchOf, done + {k}, rejected, budgets, now)
      == if Written(patchOf(txs[k]), k, rejected, budgets)
         then Rewritten(txs, patchOf, done, rejected, budgets, now)[k := PatchRow(txs[k], patchOf(txs[k]).value, now)]
         else Rewritten(txs, patchOf, done, rejected, budgets, now)
    ensures Rewritten(txs, patchOf, done, rejected, budgets, now)[k] == txs[k]
  {
    var before := Rewritten(txs, patchOf, done, rejected, budgets, now);
    var after := Rewritten(txs, patchOf, done + {k}, rejected, budgets, now);
    var expected := if Written(patchOf(txs[k]), k, rejected, budgets)
                    then before[k := PatchRow(txs[k], patchOf(txs[k]).value, now)] else before;
    assert after.Keys == expected.Keys;
    forall j | j in after
      ensures after[j] == expected[j]
    {
    }
  }

  lemma WrittenIdsStep(txs: Transactions, patchOf: Transaction -> Option<UpdateTransactionRequest>, done: set<Uuid>,
                       k: Uuid, rejected: set<Uuid>, budgets: set<Uuid>)
    requires k in txs && k !in done
    ensures k !in WrittenIds(txs, patchOf, done, rejected, budgets)
    ensures WrittenIds(txs, patchOf, done + {k}, rejected, budgets)
      == WrittenIds(txs, patchOf, done, rejected, budgets) + (if Written(patchOf(txs[k]), k, rejected, budgets) then {k} else {})
  {
  }

  lemma RewriteStep(txs: Transactions, patchOf: Transaction -> Option<UpdateTransactionRequest>, done: set<Uuid>,
                    k: Uuid, rejected: set<Uuid>, budgets: set<Uuid>, now: int)
    requires k in txs && k !in done
    ensures Written(patchOf(txs[k]), k, rejected, budgets) ==>
      && Rewritten(txs, patchOf, done + {k}, rejected, budgets, now)
         == Rewritten(txs, patchOf, done, rejected, budgets, now)[k := PatchRow(txs[k], patchOf(txs[k]).value, now)]
      && WrittenIds(txs, patchOf, done + {k}, rejected, budgets) == WrittenIds(txs, patchOf, done, rejected, budgets) + {k}
      && k !in WrittenIds(txs, patchOf, done, rejected, budgets)
    ensures !Written(patchOf(txs[k]), k, rejected, budgets) ==>
      && Rewritten(txs, patchOf, done + {k}, rejected, budgets, now) == Rewritten(txs, patchOf, done, rejected, budgets, now)
      && WrittenIds(txs, patchOf, done + {k}, rejected, budgets) == WrittenIds(txs, patchOf, done, rejected, budgets)
    ensures Rewritten(txs, patchOf, done, rejected, budgets, now)[k] == txs[k]
    ensures |WrittenIds(txs, patchOf, done + {k}, rejected, budgets)|
            == |WrittenIds(txs, patchOf, done, rejected, budgets)| + (if Written(patchOf(txs[k]), k, rejected, budgets) then 1 else 0)
  {
    RewrittenStep(txs, patchOf, done, k, rejected, budgets, now);
    WrittenIdsStep(txs, patchOf, done, k, rejected, budgets);
  }


  /** The body of the batch loop for the fetched row `txs[k]`: its patch,
      and the UPDATE when the patch sets some rule field. */
  method VisitRow(db: Database, ghost txs: Transactions, k: Uuid, row: Transaction,
                  patchOf: Transaction -> Option<UpdateTransactionRequest>, ghost done: set<Uuid>,
                  now: int, rejected: set<Uuid>)
    returns (written: bool)
    requires db.Valid() && k in txs && txs[k] == row && k !in done
    requires db.transactions == Rewritten(txs, patchOf, done, rejected, db.budgets, now)
    modifies db
    ensures db.Valid()
    ensures db.accounts == old(db.accounts) && db.categories == old(db.categories) && db.rules == old(db.rules)
    ensures db.transactions == Rewritten(txs, patchOf, done + {k}, rejected, db.budgets, now)
    ensures written == Written(patchOf(row), k, rejected, db.budgets)
    ensures |WrittenIds(txs, patchOf, done + {k}, rejected, db.budgets)|
            == |WrittenIds(txs, patchOf, done, rejected, db.budgets)| + (if written then 1 else 0)
  {
    RewriteStep(txs, patchOf, done, k, rejected, db.budgets, now);
    var patch := patchOf(row);
    written := false;
    if patch.Some? && patch.value.SetsRuleField() {
      written := WritePatch(db, k, patch.value, now, rejected);
    }
  }

  /** The loop shared by both batch paths: every transaction, in the order
      of an unordered `SELECT`. */
  method RewriteAll(db: Database, patchOf: Transaction -> Option<UpdateTransactionRequest>, now: int,
                    rejected: set<Uuid>)
    returns (count: nat)
    requires db.Valid()
    modifies db
    ensures db.Valid()
    ensures db.accounts == old(db.accounts) && db.categories == old(db.categories) && db.rules == old(db.rules)
    ensures db.transactions == Rewritten(old(db.transactions), patchOf, old(db.transactions).Keys, rejected, db.budgets, now)
    ensures count == |WrittenIds(old(db.transactions), patchOf, old(db.transactions).Keys, rejected, db.budgets)|
  {
    var txs := db.transactions;
    var keys := ScanKeys(txs);
    count := 0;
    ghost var done: set<Uuid> := {};
    NothingRewrittenYet(txs, patchOf, rejected, db.budgets, now);
    for i := 0 to |keys|
      invariant db.Valid()
      invariant db.accounts == old(db.accounts) && db.categories == old(db.categories) && db.rules == old(db.rules)
      invariant done == Prefix(keys, i)
      invariant db.transactions == Rewritten(txs, patchOf, done, rejected, db.budgets, now)
      invariant count == |WrittenIds(txs, patchOf, done, rejected, db.budgets)|
    {
      var k := keys[i];
      PrefixSnoc(keys, i);
      var written := VisitRow(db, txs, k, txs[k], patchOf, done, now, rejected);
      if written {
        count := count + 1;
      }
      done := done + {k};
    }
    PrefixAll(keys, txs);
  }

  /** The ids among the first `i` of `keys`. */
  ghost function Prefix(keys: seq<Uuid>, i: nat): set<Uuid>
    requires i <= |keys|
  {
    if i == 0 then {} else Prefix(keys, i - 1) + {keys[i - 1]}
  }

  lemma {:induction false} PrefixMembers(keys: seq<Uuid>, i: nat)
    requires i <= |keys|
    ensures forall x :: x in Prefix(keys, i) <==> x in keys[..i]
  {
    if i > 0 {
      PrefixMembers(keys, i - 1);
      assert keys[..i] == keys[..i - 1] + [keys[i - 1]];
    }
  }

  lemma PrefixSnoc(keys: seq<Uuid>, i: nat)
    requires i < |keys| && Distinct(keys)
    ensures Prefix(keys, i + 1) == Prefix(keys, i) + {keys[i]}
    ensures keys[i] !in Prefix(keys, i)
  {
    PrefixMembers(keys, i);
  }

  lemma PrefixAll<V>(keys: seq<Uuid>, m: map<Uuid, V>)
    requires forall i :: 0 <= i < |keys| ==> keys[i] in m
    requires forall k :: k in m ==> k in keys
    ensures Prefix(keys, |keys|) == m.Keys
  {
    PrefixMembers(keys, |keys|);
    assert keys[..|keys|] == keys;
  }

  /** `apply_rule_to_all_transactions` (rule_service.rs:33-241): an unknown
      rule, or one whose JSON does not decode, is `RowNotFound`; an inactive
      rule affects nothing; otherwise every transaction whose patch sets a
      rule field is written, and the count is the number written. */
  method ApplyRuleToAllTransactions(db: Database, ruleId: Uuid, now: int, rejected: set<Uuid>)
    returns (r: Result<nat, DbError>)
    requires db.Valid()
    modifies db
    ensures db.Valid()
    ensures db.accounts == old(db.accounts) && db.categories == old(db.categories) && db.rules == old(db.rules)
    ensures ruleId !in old(db.rules) || ToResponse(old(db.rules)[ruleId]).Failure? ==>
      r == Failure(RowNotFound) && db.transactions == old(db.transactions)
    ensures ruleId in old(db.rules) && ToResponse(old(db.rules)[ruleId]).Success? && !old(db.rules)[ruleId].isActive ==>
      r == Success(0) && db.transactions == old(db.transactions)
    ensures ruleId in old(db.rules) && ToResponse(old(db.rules)[ruleId]).Success? && old(db.rules)[ruleId].isActive ==>
      var rule := old(db.rules)[ruleId];
      && db.transactions == Rewritten(old(db.transactions), t => SingleRulePatch(rule, t), old(db.transactions).Keys,
                                      rejected, db.budgets, now)
      && r == Success(|WrittenIds(old(db.transactions), t => SingleRulePatch(rule, t), old(db.transactions).Keys,
                                  rejected, db.budgets)|)
  {
    if ruleId !in db.rules {
      return Failure(RowNotFound);
    }
    var stored := db.rules[ruleId];
    var response := ToResponse(stored);
    if response.Failure? {
      return Failure(RowNotFound);
    }
    var rule := response.value;
    if !rule.isActive {
      return Success(0);
    }
    // the decoded rule is serialised again and read back, which gives the
    // stored rule's conditions and actions
    ConditionsRoundTrip(rule.conditions, stored.conditionsJson);
    ActionsRoundTrip(rule.actions, stored.actionsJson);
    var count := RewriteAll(db, t => SingleRulePatch(stored, t), now, rejected);
    r := Success(count);
  }

  /** `apply_all_rules_to_all_transactions` (rule_service.rs:244-433): no
      active rule affects nothing; otherwise each transaction gets the patch
      of all active rules by priority, is written when that patch sets a
      rule field, and the result counts the distinct transactions written. */
  method ApplyAllRulesToAllTransactions(db: Database, now: int, rejected: set<Uuid>)
    returns (count: nat, ghost fetched: seq<Rule>)
    requires db.Valid()
    modifies db
    ensures db.Valid()
    ensures db.accounts == old(db.accounts) && db.categories == old(db.categories) && db.rules == old(db.rules)
    ensures ActiveByPriority(old(db.rules), fetched)
    ensures fetched == [] ==> count == 0 && db.transactions == old(db.transactions)
    ensures fetched != [] ==>
      && db.transactions == Rewritten(old(db.transactions), t => RulesOutcome(fetched, t), old(db.transactions).Keys,
                                      rejected, db.budgets, now)
      && count == |WrittenIds(old(db.transactions), t => RulesOutcome(fetched, t), old(db.transactions).Keys, rejected, db.budgets)|
  {
    var rules := FetchActiveRules(db.rules);
    fetched := rules;
    if |rules| == 0 {
      return 0, fetched;
    }
    count := RewriteAll(db, t => RulesOutcome(rules, t), now, rejected);
  }
}
