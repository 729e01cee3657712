// The rule types (src/models/rule.rs): condition and action kinds, their
// snake_case tags in the stored JSON, stored rules and their decoded form.
//
// The JSON text of `conditions_json` / `actions_json` is modelled at the
// level of records: either a list of (tag, value) records, or text that is
// not such a list at all.

module RuleModel {
  import opened Base
  import opened Uuids

  type I32 = x: int | -0x8000_0000 <= x < 0x8000_0000

  datatype ConditionType =
    | DescriptionContains
    | DescriptionStartsWith
    | DescriptionEquals
    | SourceAccountEquals
    | DestinationAccountEquals
    | DestinationNameContains
    | DestinationNameEquals
    | AmountGreaterThan
    | AmountLessThan
    | AmountEquals

  datatype ActionType = SetCategory | SetBudget | SetDescription | SetDestinationName

  datatype RuleCondition = RuleCondition(conditionType: ConditionType, value: string)

  datatype RuleAction = RuleAction(actionType: ActionType, value: string)

  /** Every condition kind, once each, in declaration order. */
  const AllConditionTypes: seq<ConditionType> := [
    DescriptionContains, DescriptionStartsWith, DescriptionEquals, SourceAccountEquals,
    DestinationAccountEquals, DestinationNameContains, DestinationNameEquals,
    AmountGreaterThan, AmountLessThan, AmountEquals]

  /** Every action kind, once each, in declaration order. */
  const AllActionTypes: seq<ActionType> := [SetCategory, SetBudget, SetDescription, SetDestinationName]

  predicate Distinct<T(==)>(s: seq<T>) {
    forall i, j :: 0 <= i < j < |s| ==> s[i] != s[j]
  }

  lemma ConditionTypesAreTen()
    ensures |AllConditionTypes| == 10 && Distinct(AllConditionTypes)
    ensures forall c: ConditionType :: c in AllConditionTypes
  {
    forall c: ConditionType
      ensures c in AllConditionTypes
    {
      match c
      case DescriptionContains => assert AllConditionTypes[0] == c;
      case DescriptionStartsWith => assert AllConditionTypes[1] == c;
      case DescriptionEquals => assert AllConditionTypes[2] == c;
      case SourceAccountEquals => assert AllConditionTypes[3] == c;
      case DestinationAccountEquals => assert AllConditionTypes[4] == c;
      case DestinationNameContains => assert AllConditionTypes[5] == c;
      case DestinationNameEquals => assert AllConditionTypes[6] == c;
      case AmountGreaterThan => assert AllConditionTypes[7] == c;
      case AmountLessThan => assert AllConditionTypes[8] == c;
      case AmountEquals => assert AllConditionTypes[9] == c;
    }
  }

  lemma ActionTypesAreFour()
    ensures |AllActionTypes| == 4 && Distinct(AllActionTypes)
    ensures forall a: ActionType :: a in AllActionTypes
  {
    forall a: ActionType
      ensures a in AllActionTypes
    {
      match a
      case SetCategory => assert AllActionTypes[0] == a;
      case SetBudget => assert AllActionTypes[1] == a;
      case SetDescription => assert AllActionTypes[2] == a;
      case SetDestinationName => assert AllActionTypes[3] == a;
    }
  }

  /** The serde tag of a condition kind (`rename_all = "snake_case"`). */
  function ConditionTag(c: ConditionType): string {
    match c
    case DescriptionContains => "description_contains"
    case DescriptionStartsWith => "description_starts_with"
    case DescriptionEquals => "description_equals"
    case SourceAccountEquals => "source_account_equals"
    case DestinationAccountEquals => "destination_account_equals"
    case DestinationNameContains => "destination_name_contains"
    case DestinationNameEquals => "destination_name_equals"
    case AmountGreaterThan => "amount_greater_than"
    case AmountLessThan => "amount_less_than"
    case AmountEquals => "amount_equals"
  }

  function ConditionFromTag(tag: string): Option<ConditionType> {
    if tag == "description_contains" then Some(DescriptionContains)
    else if tag == "description_starts_with" then Some(DescriptionStartsWith)
    else if tag == "description_equals" then Some(DescriptionEquals)
    else if tag == "source_account_equals" then Some(SourceAccountEquals)
    else if tag == "destination_account_equals" then Some(DestinationAccountEquals)
    else if tag == "destination_name_contains" then Some(DestinationNameContains)
    else if tag == "destination_name_equals" then Some(DestinationNameEquals)
    else if tag == "amount_greater_than" then Some(AmountGreaterThan)
    else if tag == "amount_less_than" then Some(AmountLessThan)
    else if tag == "amount_equals" then Some(AmountEquals)
    else None
  }

  function ActionTag(a: ActionType): string {
    match a
    case SetCategory => "set_category"
    case SetBudget => "set_budget"
    case SetDescription => "set_description"
    case SetDestinationName => "set_destination_name"
  }

  function ActionFromTag(tag: string): Option<ActionType> {
    if tag == "set_category" then Some(SetCategory)
    else if tag == "set_budget" then Some(SetBudget)
    else if tag == "set_description" then Some(SetDescription)
    else if tag == "set_destination_name" then Some(SetDestinationName)
    else None
  }

  /** The condition tags round-trip, and a tag is accepted only if it is
      the tag of some kind: the encoding is a bijection onto ten strings. */
  lemma ConditionTagRoundTrip(c: ConditionType, tag: string)
    ensures ConditionFromTag(ConditionTag(c)) == Some(c)
    ensures ConditionFromTag(tag).Some? ==> ConditionTag(ConditionFromTag(tag).value) == tag
  {
    ConditionTagDecodes(c);
    DecodedConditionTag(tag);
  }

  lemma ConditionTagDecodes(c: ConditionType)
    ensures ConditionFromTag(ConditionTag(c)) == Some(c)
  {
    match c
    case DescriptionContains =>
    case DescriptionStartsWith =>
    case DescriptionEquals =>
    case SourceAccountEquals =>
    case DestinationAccountEquals =>
    case DestinationNameContains =>
    case DestinationNameEquals =>
    case AmountGreaterThan =>
    case AmountLessThan =>
    case AmountEquals =>
  }

  lemma DecodedConditionTag(tag: string)
    ensures ConditionFromTag(tag).Some? ==> ConditionTag(ConditionFromTag(tag).value) == tag
  {
  }

  lemma ActionTagRoundTrip(a: ActionType, tag: string)
    ensures ActionFromTag(ActionTag(a)) == Some(a)
    ensures ActionFromTag(tag).Some? ==> ActionTag(ActionFromTag(tag).value) == tag
  {
  }

  lemma ConditionTagInjective(c: ConditionType, d: ConditionType)
    ensures ConditionTag(c) == ConditionTag(d) ==> c == d
  {
    ConditionTagRoundTrip(c, "");
    ConditionTagRoundTrip(d, "");
  }

  datatype JsonRecord = JsonRecord(tag: string, value: string)

  /** Stored JSON text: a list of `{"<kind>_type": tag, "value": value}`
      objects, or anything else. */
  datatype JsonText = Records(items: seq<JsonRecord>) | Malformed

  datatype JsonError = JsonError

  function DecodeConditions(j: JsonText): (r: Option<seq<RuleCondition>>)
    ensures r.Some? <==> j.Records? && forall i :: 0 <= i < |j.items| ==> ConditionFromTag(j.items[i].tag).Some?
    ensures r.Some? ==> |r.value| == |j.items|
  {
    match j
    case Malformed => None
    case Records(items) =>
      if forall i :: 0 <= i < |items| ==> ConditionFromTag(items[i].tag).Some? then
        Some(seq(|items|, i requires 0 <= i < |items| => RuleCondition(ConditionFromTag(items[i].tag).value, items[i].value)))
      else None
  }

  function EncodeConditions(cs: seq<RuleCondition>): (j: JsonText)
    ensures j.Records? && |j.items| == |cs|
  {
    Records(seq(|cs|, i requires 0 <= i < |cs| => JsonRecord(ConditionTag(cs[i].conditionType), cs[i].value)))
  }

  function DecodeActions(j: JsonText): (r: Option<seq<RuleAction>>)
    ensures r.Some? <==> j.Records? && forall i :: 0 <= i < |j.items| ==> ActionFromTag(j.items[i].tag).Some?
    ensures r.Some? ==> |r.value| == |j.items|
  {
    match j
    case Malformed => None
    case Records(items) =>
      if forall i :: 0 <= i < |items| ==> ActionFromTag(items[i].tag).Some? then
        Some(seq(|items|, i requires 0 <= i < |items| => RuleAction(ActionFromTag(items[i].tag).value, items[i].value)))
      else None
  }

  function EncodeActions(acts: seq<RuleAction>): (j: JsonText)
    ensures j.Records? && |j.items| == |acts|
  {
    Records(seq(|acts|, i requires 0 <= i < |acts| => JsonRecord(ActionTag(acts[i].actionType), acts[i].value)))
  }

  /** Serialising conditions and reading them back gives them unchanged,
      and decodable text is exactly the serialisation of what it decodes to. */
  lemma ConditionsRoundTrip(cs: seq<RuleCondition>, j: JsonText)
    ensures DecodeConditions(EncodeConditions(cs)) == Some(cs)
    ensures DecodeConditions(j).Some? ==> EncodeConditions(DecodeConditions(j).value) == j
  {
    var e := EncodeConditions(cs);
    forall i | 0 <= i < |cs|
      ensures ConditionFromTag(e.items[i].tag) == Some(cs[i].conditionType)
    {
      ConditionTagRoundTrip(cs[i].conditionType, "");
    }
    assert DecodeConditions(e).Some?;
    var d := DecodeConditions(e).value;
    assert forall i :: 0 <= i < |cs| ==> d[i] == cs[i];
    assert d == cs;
    if DecodeConditions(j).Some? {
      forall i | 0 <= i < |j.items| {
        ConditionTagRoundTrip(ConditionFromTag(j.items[i].tag).value, j.items[i].tag);
      }
    }
  }

  lemma ActionsRoundTrip(acts: seq<RuleAction>, j: JsonText)
    ensures DecodeActions(EncodeActions(acts)) == Some(acts)
    ensures DecodeActions(j).Some? ==> EncodeActions(DecodeActions(j).value) == j
  {
    var e := EncodeActions(acts);
    forall i | 0 <= i < |acts|
      ensures ActionFromTag(e.items[i].tag) == Some(acts[i].actionType)
    {
      ActionTagRoundTrip(acts[i].actionType, "");
    }
    assert DecodeActions(e).Some?;
    var d := DecodeActions(e).value;
    assert forall i :: 0 <= i < |acts| ==> d[i] == acts[i];
    assert d == acts;
    if DecodeActions(j).Some? {
      forall i | 0 <= i < |j.items| {
        ActionTagRoundTrip(ActionFromTag(j.items[i].tag).value, j.items[i].tag);
      }
    }
  }

  /** A row of the `rules` table. Timestamps are seconds since the epoch. */
  datatype Rule = Rule(
    id: Uuid,
    name: string,
    description: Option<string>,
    isActive: bool,
    priority: I32,  // lower numbers have higher priority
    groupId: Option<Uuid>,
    conditionsJson: JsonText,
    actionsJson: JsonText,
    createdAt: int,
    updatedAt: int)

  datatype RuleResponse = RuleResponse(
    id: Uuid,
    name: string,
    description: Option<string>,
    isActive: bool,
    priority: I32,
    groupId: Option<Uuid>,
    conditions: seq<RuleCondition>,
    actions: seq<RuleAction>,
    createdAt: int,
    updatedAt: int)

  /** `Rule::to_response`: decode both JSON columns, copy everything else. */
  function ToResponse(rule: Rule): (r: Result<RuleResponse, JsonError>)
    ensures r.Failure? <==> DecodeConditions(rule.conditionsJson).None? || DecodeActions(rule.actionsJson).None?
    ensures r.Success? ==>
      && r.value.id == rule.id && r.value.name == rule.name && r.value.description == rule.description
      && r.value.isActive == rule.isActive && r.value.priority == rule.priority && r.value.groupId == rule.groupId
      && r.value.createdAt == rule.createdAt && r.value.updatedAt == rule.updatedAt
      && EncodeConditions(r.value.conditions) == rule.conditionsJson
      && EncodeActions(r.value.actions) == rule.actionsJson
  {
    match DecodeConditions(rule.conditionsJson)
    case None => Failure(JsonError)
    case Some(conditions) =>
      match DecodeActions(rule.actionsJson)
      case None => Failure(JsonError)
      case Some(actions) =>
        ConditionsRoundTrip([], rule.conditionsJson);
        ActionsRoundTrip([], rule.actionsJson);
        Success(RuleResponse(rule.id, rule.name, rule.description, rule.isActive, rule.priority,
                             rule.groupId, conditions, actions, rule.createdAt, rule.updatedAt))
  }

  /** A rule stored from decoded conditions and actions converts back to them. */
  lemma ToResponseOfEncoded(rule: Rule, cs: seq<RuleCondition>, acts: seq<RuleAction>)
    requires rule.conditionsJson == EncodeConditions(cs) && rule.actionsJson == EncodeActions(acts)
    ensures ToResponse(rule).Success?
    ensures ToResponse(rule).value.conditions == cs && ToResponse(rule).value.actions == acts
  {
    ConditionsRoundTrip(cs, Malformed);
    ActionsRoundTrip(acts, Malformed);
  }
}
