/**
  The three node variants and what executing each does to the data record
  (`TriggerNode.execute`, `FilterNode.execute`, `ActionNode.execute`).
 */
module Nodes {
  import opened Values
  import opened Conditions

  /** One entry of a filter's `conditions` list; an absent key reads as `Null`. */
  datatype ConditionDecl = ConditionDecl(field: Value, operator: Value, value: Value)

  /** The payload keys an action node reads from its configuration (`None` where the key is absent). */
  datatype ActionSettings = ActionSettings(
    reason: Option<Value>,
    folder: Option<Value>,
    forwardTo: Value,
    headers: Option<Value>,
    tags: Option<Value>)

  /** The settings of an action descriptor that configures none of the payload keys. */
  const NoSettings := ActionSettings(None, None, Null, None, None)

  /** A node's type and type-specific configuration. */
  datatype NodeKind =
    | Trigger
    | Filter(logic: Option<Value>, conditions: seq<ConditionDecl>)
    | Action(actionType: Value, settings: ActionSettings)

  /** What a filter records about one condition. */
  datatype Check = Check(field: Value, operator: Value, value: Value, result: bool)

  const FilterKeys: set<string> := {"filter_results", "filter_passed"}
  const ActionKeys: set<string> :=
    {"action", "reject_reason", "quarantine_folder", "forward_to", "header_modifications", "tags"}
  /** The keys some node variant adds or overwrites. */
  const OwnedKeys: set<string> := FilterKeys + ActionKeys

  /** `after` keeps every key of `before`, and every key no node owns keeps its value. */
  ghost predicate Extends(before: Record, after: Record) {
    && before.Keys <= after.Keys
    && forall k :: k in before && k !in OwnedKeys ==> after[k] == before[k]
  }

  /** The `{field, operator, value, result}` dictionary appended to `filter_results`. */
  function Entry(c: Check): Value {
    Dict([("field", c.field), ("operator", c.operator), ("value", c.value), ("result", Bool(c.result))])
  }

  function Entries(checks: seq<Check>): (r: seq<Value>)
    ensures |r| == |checks| && forall i :: 0 <= i < |checks| ==> r[i] == Entry(checks[i])
  {
    seq(|checks|, i requires 0 <= i < |checks| => Entry(checks[i]))
  }

  /**
    The checks of the first conditions, in order; the first condition whose
    field name faults makes the whole filter fault.
   */
  function Checks(data: Record, conds: seq<ConditionDecl>, b: Builtins): Result<seq<Check>>
    decreases |conds|
  {
    if conds == [] then Ok([])
    else
      match Checks(data, conds[..|conds| - 1], b)
      case Err(e) => Err(e)
      case Ok(checks) =>
        var c := conds[|conds| - 1];
        match FieldValue(data, c.field)
        case Err(e) => Err(e)
        case Ok(fv) => Ok(checks + [Check(c.field, c.operator, c.value, Evaluate(fv, c.operator, c.value, b))])
  }

  /** `logic` absent or `'AND'`: every other value combines with `any`. */
  predicate IsAndLogic(logic: Option<Value>) {
    logic == None || logic == Some(Str("AND"))
  }

  /** `all(...)` under AND logic, `any(...)` otherwise. */
  predicate Passed(logic: Option<Value>, checks: seq<Check>) {
    if IsAndLogic(logic) then forall i | 0 <= i < |checks| :: checks[i].result
    else exists i | 0 <= i < |checks| :: checks[i].result
  }

  /** The record a filter node returns: a fresh `filter_results` list and the combined `filter_passed`. */
  function ApplyFilter(data: Record, logic: Option<Value>, conds: seq<ConditionDecl>, b: Builtins): (r: Result<Record>)
    ensures r.Ok? ==> r.value.Keys == data.Keys + FilterKeys
    ensures r.Ok? ==> forall k :: k in data && k !in FilterKeys ==> r.value[k] == data[k]
  {
    match Checks(data, conds, b)
    case Err(e) => Err(e)
    case Ok(checks) =>
      Ok(data["filter_results" := List(Entries(checks))]["filter_passed" := Bool(Passed(logic, checks))])
  }

  /** Whether one condition holds of `data` (its field name must not fault). */
  predicate Holds(data: Record, c: ConditionDecl, b: Builtins)
    requires FieldValue(data, c.field).Ok?
  {
    Evaluate(FieldValue(data, c.field).value, c.operator, c.value, b)
  }

  /**
    `FilterNode.execute`, with its loop: one entry per condition, appended in
    order, then `all`/`any` over the recorded results.
   */
  method ExecuteFilter(data: Record, logic: Option<Value>, conds: seq<ConditionDecl>, b: Builtins)
    returns (r: Result<Record>)
    ensures r == ApplyFilter(data, logic, conds, b)
  {
    var checks: seq<Check> := [];
    var results: seq<Value> := [];
    for i := 0 to |conds|
      invariant Checks(data, conds[..i], b) == Ok(checks)
      invariant results == Entries(checks)
    {
      var c := conds[i];
      var fieldValue := FieldValue(data, c.field);
      ChecksStep(data, conds, i, b);
      if fieldValue.Err? {
        ChecksFaultPersists(data, conds, i + 1, b);
        return Err(fieldValue.fault);
      }
      var matched := Evaluate(fieldValue.value, c.operator, c.value, b);
      var check := Check(c.field, c.operator, c.value, matched);
      EntriesSnoc(checks, check);
      checks := checks + [check];
      results := results + [Entry(check)];
    }
    assert conds[..|conds|] == conds;
    var passed: bool;
    if IsAndLogic(logic) {
      passed := forall i | 0 <= i < |checks| :: checks[i].result;
    } else {
      passed := exists i | 0 <= i < |checks| :: checks[i].result;
    }
    r := Ok(data["filter_results" := List(results)]["filter_passed" := Bool(passed)]);
  }

  /** One more condition: its field either faults or appends its check. */
  lemma ChecksStep(data: Record, conds: seq<ConditionDecl>, i: nat, b: Builtins)
    requires i < |conds|
    ensures Checks(data, conds[..i], b).Err? ==> Checks(data, conds[..i + 1], b) == Checks(data, conds[..i], b)
    ensures Checks(data, conds[..i], b).Ok? && FieldValue(data, conds[i].field).Err? ==>
              Checks(data, conds[..i + 1], b) == Err(FieldValue(data, conds[i].field).fault)
    ensures Checks(data, conds[..i], b).Ok? && FieldValue(data, conds[i].field).Ok? ==>
              Checks(data, conds[..i + 1], b) == Ok(Checks(data, conds[..i], b).value +
                [Check(conds[i].field, conds[i].operator, conds[i].value,
                       Evaluate(FieldValue(data, conds[i].field).value, conds[i].operator, conds[i].value, b))])
  {
    assert conds[..i + 1][..i] == conds[..i];
  }

  lemma EntriesSnoc(checks: seq<Check>, c: Check)
    ensures Entries(checks + [c]) == Entries(checks) + [Entry(c)]
  {
  }

  /** Once a prefix of the conditions faults, the whole list faults the same way. */
  lemma {:induction false} ChecksFaultPersists(data: Record, conds: seq<ConditionDecl>, n: nat, b: Builtins)
    requires n <= |conds| && Checks(data, conds[..n], b).Err?
    ensures Checks(data, conds, b) == Checks(data, conds[..n], b)
    decreases |conds| - n
  {
    if n == |conds| {
      assert conds[..n] == conds;
    } else {
      assert conds[..n + 1][..n] == conds[..n];
      ChecksFaultPersists(data, conds, n + 1, b);
    }
  }

  /**
    The checks are exactly one per condition, in order, each recording the
    condition's field, operator and value and the evaluator's answer; they
    fault exactly when some condition's field name faults, and then with the
    fault of the first such condition.
   */
  lemma {:induction false} ChecksOnePerCondition(data: Record, conds: seq<ConditionDecl>, b: Builtins)
    ensures Checks(data, conds, b).Ok? <==> forall i :: 0 <= i < |conds| ==> FieldValue(data, conds[i].field).Ok?
    ensures Checks(data, conds, b).Ok? ==>
              var checks := Checks(data, conds, b).value;
              && |checks| == |conds|
              && forall i :: 0 <= i < |conds| ==>
                   checks[i] == Check(conds[i].field, conds[i].operator, conds[i].value, Holds(data, conds[i], b))
    ensures Checks(data, conds, b).Err? ==>
              exists i :: 0 <= i < |conds| && FieldValue(data, conds[i].field) == Err(Checks(data, conds, b).fault)
                          && forall j :: 0 <= j < i ==> FieldValue(data, conds[j].field).Ok?
    decreases |conds|
  {
    if conds != [] {
      var init := conds[..|conds| - 1];
      ChecksOnePerCondition(data, init, b);
      assert forall i :: 0 <= i < |init| ==> init[i] == conds[i];
    }
  }

  /**
    `FilterNode.execute` replaces `filter_results` with one entry per
    condition, and sets `filter_passed` to whether all conditions hold (logic
    absent or `AND`) or some condition holds (any other logic). With no
    conditions that is `true` under AND and `false` otherwise.
   */
  lemma FilterRecordsEveryCondition(data: Record, logic: Option<Value>, conds: seq<ConditionDecl>, b: Builtins)
    requires forall i :: 0 <= i < |conds| ==> FieldValue(data, conds[i].field).Ok?
    ensures ApplyFilter(data, logic, conds, b).Ok?
    ensures var r := ApplyFilter(data, logic, conds, b).value;
      && r["filter_results"] == List(seq(|conds|, i requires 0 <= i < |conds| =>
           Entry(Check(conds[i].field, conds[i].operator, conds[i].value, Holds(data, conds[i], b)))))
      && r["filter_passed"] == Bool(
           if IsAndLogic(logic) then forall i :: 0 <= i < |conds| ==> Holds(data, conds[i], b)
           else exists i :: 0 <= i < |conds| && Holds(data, conds[i], b))
    ensures conds == [] ==> ApplyFilter(data, logic, conds, b).value["filter_passed"] == Bool(IsAndLogic(logic))
  {
    ChecksOnePerCondition(data, conds, b);
    var checks := Checks(data, conds, b).value;
    assert Entries(checks) == seq(|conds|, i requires 0 <= i < |conds| =>
      Entry(Check(conds[i].field, conds[i].operator, conds[i].value, Holds(data, conds[i], b))));
  }

  /** A filter faults exactly when one of its condition field names is a list or an object. */
  lemma FilterFaultsOnUnhashableField(data: Record, logic: Option<Value>, conds: seq<ConditionDecl>, b: Builtins)
    ensures ApplyFilter(data, logic, conds, b).Err? <==>
              exists i :: 0 <= i < |conds| && (conds[i].field.List? || conds[i].field.Dict?)
  {
    ChecksOnePerCondition(data, conds, b);
    forall i | 0 <= i < |conds| {
      FieldValueLookup(data, conds[i].field);
    }
  }

  /** The payload key a recognised action sets besides `action`. */
  function PayloadKey(actionType: Value): set<string> {
    if actionType == Str("reject") then {"reject_reason"}
    else if actionType == Str("quarantine") then {"quarantine_folder"}
    else if actionType == Str("forward") then {"forward_to"}
    else if actionType == Str("modify_headers") then {"header_modifications"}
    else if actionType == Str("tag") then {"tags"}
    else {}
  }

  predicate IsKnownAction(actionType: Value) {
    actionType in {Str("reject"), Str("quarantine"), Str("forward"), Str("modify_headers"), Str("accept"), Str("tag")}
  }

  /**
    `ActionNode.execute`: a recognised action type sets `action` to its own
    name and its payload key; an unrecognised one returns the record as it was.
   */
  function ApplyAction(data: Record, actionType: Value, s: ActionSettings): (r: Record)
    ensures IsKnownAction(actionType) ==> "action" in r && r["action"] == actionType
    ensures IsKnownAction(actionType) ==> r.Keys == data.Keys + {"action"} + PayloadKey(actionType)
    ensures !IsKnownAction(actionType) ==> r == data
    ensures forall k :: k in data && k !in ActionKeys ==> r[k] == data[k]
    ensures forall k :: k in data && k != "action" && k !in PayloadKey(actionType) ==> r[k] == data[k]
  {
    if actionType == Str("reject") then
      data["action" := Str("reject")]["reject_reason" := s.reason.GetOr(Str("Message rejected by filter"))]
    else if actionType == Str("quarantine") then
      data["action" := Str("quarantine")]["quarantine_folder" := s.folder.GetOr(Str("/var/mail/quarantine"))]
    else if actionType == Str("forward") then
      data["action" := Str("forward")]["forward_to" := s.forwardTo]
    else if actionType == Str("modify_headers") then
      data["action" := Str("modify_headers")]["header_modifications" := s.headers.GetOr(Dict([]))]
    else if actionType == Str("accept") then
      data["action" := Str("accept")]
    else if actionType == Str("tag") then
      data["action" := Str("tag")]["tags" := s.tags.GetOr(List([]))]
    else data
  }

  /** The payload an action records, and its default when the configuration leaves the key out. */
  lemma ActionPayloadDefaults(data: Record, s: ActionSettings)
    ensures ApplyAction(data, Str("reject"), s)["reject_reason"] ==
              if s.reason.Some? then s.reason.value else Str("Message rejected by filter")
    ensures ApplyAction(data, Str("quarantine"), s)["quarantine_folder"] ==
              if s.folder.Some? then s.folder.value else Str("/var/mail/quarantine")
    ensures ApplyAction(data, Str("forward"), s)["forward_to"] == s.forwardTo
  {
  }

  /** The header changes and tags an action records, empty when the configuration leaves the key out. */
  lemma EditPayloadDefaults(data: Record, s: ActionSettings)
    ensures ApplyAction(data, Str("modify_headers"), s)["header_modifications"] ==
              if s.headers.Some? then s.headers.value else Dict([])
    ensures ApplyAction(data, Str("tag"), s)["tags"] == if s.tags.Some? then s.tags.value else List([])
  {
  }

  /** `accept` records the verdict and nothing else. */
  lemma AcceptSetsOnlyAction(data: Record, s: ActionSettings)
    ensures ApplyAction(data, Str("accept"), s) == data["action" := Str("accept")]
  {
  }

  /** `node.execute(data)`, dispatched on the node's type. */
  function Apply(kind: NodeKind, data: Record, b: Builtins): (r: Result<Record>)
    ensures r.Ok? ==> Extends(data, r.value)
    ensures kind.Trigger? ==> r == Ok(data)
    ensures kind.Action? ==> r.Ok?
  {
    match kind
    case Trigger => Ok(data)
    case Filter(logic, conds) => ApplyFilter(data, logic, conds, b)
    case Action(actionType, s) => Ok(ApplyAction(data, actionType, s))
  }

  /** `node.execute(data)`: the variant's own step. */
  method Execute(kind: NodeKind, data: Record, b: Builtins) returns (r: Result<Record>)
    ensures r == Apply(kind, data, b)
  {
    match kind {
      case Trigger =>
        r := Ok(data);
      case Filter(logic, conds) =>
        r := ExecuteFilter(data, logic, conds, b);
      case Action(actionType, settings) =>
        r := Ok(ApplyAction(data, actionType, settings));
    }
  }
}
