/**
  The condition evaluator of a filter node: field-name resolution through the
  alias table, and the string operators applied to a field value and a
  comparison value (`FilterNode._get_field_value` and
  `FilterNode._evaluate_condition`).
 */
module Conditions {
  import opened Values

  /**
    The two foreign built-ins the evaluator calls. `search(pattern, text)` is
    `re.search(pattern, text, re.IGNORECASE)`: `Some(found)`, or `None` when the
    pattern does not compile. `parseFloat(s)` is `float(s)`: `None` when it raises.
   */
  datatype Builtins = Builtins(
    search: (string, string) -> Option<bool>,
    parseFloat: string -> Option<real>)

  /** The alias table: `field_map.get(field, field)`. */
  function ResolveField(name: string): string {
    if name == "sender" then "from"
    else if name == "recipient" then "to"
    else if name == "subject" then "subject"
    else if name == "body" then "body"
    else if name == "size" then "size"
    else name
  }

  /**
    `str(data.get(field_map.get(field, field), ''))`. A list or object used as
    a field name is unhashable: the dictionary lookup raises, outside the
    evaluator's exception handler.
   */
  function FieldValue(data: Record, field: Value): Result<string> {
    match field
    case Str(name) =>
      var key := ResolveField(name);
      Ok(if key in data then Show(data[key]) else "")
    case List(_) => Err(UnhashableField(field))
    case Dict(_) => Err(UnhashableField(field))
    case _ => Ok("")
  }

  /** `t` occurs in `s` starting at index `i`. */
  ghost predicate OccursAt(s: string, t: string, i: int) {
    0 <= i <= |s| - |t| && s[i..i + |t|] == t
  }

  /** Python's `t in s` on strings. */
  predicate Contains(s: string, t: string)
    decreases |s|
  {
    if |t| > |s| then false
    else if t <= s then true
    else Contains(s[1..], t)
  }

  /** `s.endswith(t)`. */
  predicate EndsWith(s: string, t: string) {
    |t| <= |s| && s[|s| - |t|..] == t
  }

  /** `float(v)`: a number or a bool converts, a string goes through the parser, anything else raises. */
  function ToFloat(v: Value, b: Builtins): Option<real> {
    match v
    case Int(i) => Some(i as real)
    case Float(x, _) => Some(x)
    case Bool(x) => Some(if x then 1.0 else 0.0)
    case Str(s) => b.parseFloat(s)
    case _ => None
  }

  /** The operators whose comparison value must be a string (`value.lower()` raises otherwise). */
  predicate IsStringOperator(op: Value) {
    op in {Str("equals"), Str("contains"), Str("starts_with"), Str("ends_with"),
           Str("not_equals"), Str("not_contains")}
  }

  predicate IsKnownOperator(op: Value) {
    IsStringOperator(op) || op in {Str("regex"), Str("greater_than"), Str("less_than")}
  }

  /**
    `_evaluate_condition(field_value, operator, value)`. Every exception inside
    the evaluator (a comparison value without `lower()`, a pattern that does not
    compile, a value `float()` rejects) yields `false`, and so does an unknown operator.
   */
  function Evaluate(fieldValue: string, op: Value, value: Value, b: Builtins): bool {
    if IsStringOperator(op) then
      match value
      case Str(v) =>
        var f, w := Lower(fieldValue), Lower(v);
        if op == Str("equals") then f == w
        else if op == Str("contains") then Contains(f, w)
        else if op == Str("starts_with") then w <= f
        else if op == Str("ends_with") then EndsWith(f, w)
        else if op == Str("not_equals") then f != w
        else !Contains(f, w)
      case _ => false
    else if op == Str("regex") then
      value.Str? && b.search(value.s, fieldValue) == Some(true)
    else if op == Str("greater_than") || op == Str("less_than") then
      match (ToFloat(Str(fieldValue), b), ToFloat(value, b))
      case (Some(x), Some(y)) => if op == Str("greater_than") then x > y else x < y
      case _ => false
    else false
  }

  /** `Contains` is substring presence: some window of `s` equals `t`. */
  lemma {:induction false} ContainsIff(s: string, t: string)
    ensures Contains(s, t) <==> exists i :: OccursAt(s, t, i)
  {
    if |t| > |s| {
      assert forall i :: !OccursAt(s, t, i);
    } else if t <= s {
      assert OccursAt(s, t, 0);
    } else {
      ContainsIff(s[1..], t);
      if Contains(s[1..], t) {
        var i :| OccursAt(s[1..], t, i);
        assert s[i + 1..i + 1 + |t|] == s[1..][i..i + |t|];
        assert OccursAt(s, t, i + 1);
      } else {
        forall i | OccursAt(s, t, i) ensures false {
          assert i != 0;
          assert s[1..][i - 1..i - 1 + |t|] == s[i..i + |t|];
          assert OccursAt(s[1..], t, i - 1);
        }
      }
    }
  }

  /**
    Field lookup: only a list or object field name faults; `sender` reads
    `from`, `recipient` reads `to`, every other string reads itself, a missing
    key reads as the empty string, and a non-string scalar finds nothing.
   */
  lemma FieldValueLookup(data: Record, field: Value)
    ensures FieldValue(data, field).Err? <==> field.List? || field.Dict?
    ensures field == Str("sender") ==> FieldValue(data, field) == Ok(if "from" in data then Show(data["from"]) else "")
    ensures field == Str("recipient") ==> FieldValue(data, field) == Ok(if "to" in data then Show(data["to"]) else "")
    ensures field.Str? && field.s != "sender" && field.s != "recipient" ==>
              FieldValue(data, field) == Ok(if field.s in data then Show(data[field.s]) else "")
    ensures field.Null? || field.Bool? || field.Int? || field.Float? ==> FieldValue(data, field) == Ok("")
  {
  }

  /** `not_equals` negates `equals`, unless the comparison value is not a string: then both are false. */
  lemma NotEqualsNegatesEquals(fieldValue: string, value: Value, b: Builtins)
    ensures value.Str? ==> Evaluate(fieldValue, Str("not_equals"), value, b) == !Evaluate(fieldValue, Str("equals"), value, b)
    ensures !value.Str? ==> !Evaluate(fieldValue, Str("not_equals"), value, b) && !Evaluate(fieldValue, Str("equals"), value, b)
  {
  }

  /** `not_contains` negates `contains`, unless the comparison value is not a string: then both are false. */
  lemma NotContainsNegatesContains(fieldValue: string, value: Value, b: Builtins)
    ensures value.Str? ==> Evaluate(fieldValue, Str("not_contains"), value, b) == !Evaluate(fieldValue, Str("contains"), value, b)
    ensures !value.Str? ==> !Evaluate(fieldValue, Str("not_contains"), value, b) && !Evaluate(fieldValue, Str("contains"), value, b)
  {
  }

  /** An operator outside the table never matches, whatever the built-ins answer. */
  lemma UnknownOperatorIsFalse(fieldValue: string, op: Value, value: Value, b: Builtins)
    requires !IsKnownOperator(op)
    ensures !Evaluate(fieldValue, op, value, b)
  {
  }

  /**
    An exception inside the evaluator gives `false`: a string operator with a
    comparison value that is not a string, `regex` with a pattern that is not a
    string or does not compile, and `greater_than`/`less_than` when `float()`
    rejects either side.
   */
  lemma EvaluateFaultsAreFalse(fieldValue: string, op: Value, value: Value, b: Builtins)
    ensures IsStringOperator(op) && !value.Str? ==> !Evaluate(fieldValue, op, value, b)
    ensures op == Str("regex") && (!value.Str? || b.search(value.s, fieldValue).None?) ==>
              !Evaluate(fieldValue, op, value, b)
    ensures (op == Str("greater_than") || op == Str("less_than")) &&
            (b.parseFloat(fieldValue).None? || ToFloat(value, b).None?) ==>
              !Evaluate(fieldValue, op, value, b)
  {
  }

  /** The string operators ignore case: lower-casing either side first changes nothing. */
  lemma StringOperatorsIgnoreCase(fieldValue: string, op: Value, v: string, b: Builtins)
    requires IsStringOperator(op)
    ensures Evaluate(fieldValue, op, Str(v), b) == Evaluate(Lower(fieldValue), op, Str(Lower(v)), b)
  {
    LowerIdempotent(fieldValue);
    LowerIdempotent(v);
  }

  /** `contains` is substring presence in the lower-cased field value. */
  lemma ContainsIsSubstring(fieldValue: string, v: string, b: Builtins)
    ensures Evaluate(fieldValue, Str("contains"), Str(v), b) <==> exists i :: OccursAt(Lower(fieldValue), Lower(v), i)
  {
    EvaluateContains(fieldValue, v, b);
    ContainsIff(Lower(fieldValue), Lower(v));
  }

  lemma EvaluateContains(fieldValue: string, v: string, b: Builtins)
    ensures Evaluate(fieldValue, Str("contains"), Str(v), b) == Contains(Lower(fieldValue), Lower(v))
  {
    assert IsStringOperator(Str("contains"));
  }

  lemma EvaluateStartsWith(fieldValue: string, v: string, b: Builtins)
    ensures Evaluate(fieldValue, Str("starts_with"), Str(v), b) == (Lower(v) <= Lower(fieldValue))
  {
    assert IsStringOperator(Str("starts_with"));
  }

  /** `starts_with` compares the field value's first characters, ignoring case. */
  lemma StartsWithIsPrefix(fieldValue: string, v: string, b: Builtins)
    ensures Evaluate(fieldValue, Str("starts_with"), Str(v), b) <==>
              |v| <= |fieldValue| && Lower(fieldValue[..|v|]) == Lower(v)
  {
    EvaluateStartsWith(fieldValue, v, b);
    if |v| <= |fieldValue| {
      LowerSlice(fieldValue, 0, |v|);
    }
  }

  /** `ends_with` compares the field value's last characters, ignoring case. */
  lemma EndsWithIsSuffix(fieldValue: string, v: string, b: Builtins)
    ensures Evaluate(fieldValue, Str("ends_with"), Str(v), b) <==>
              |v| <= |fieldValue| && Lower(fieldValue[|fieldValue| - |v|..]) == Lower(v)
  {
    EvaluateEndsWith(fieldValue, v, b);
    LowerSuffix(fieldValue, v);
  }

  lemma EvaluateEndsWith(fieldValue: string, v: string, b: Builtins)
    ensures Evaluate(fieldValue, Str("ends_with"), Str(v), b) == EndsWith(Lower(fieldValue), Lower(v))
  {
    assert IsStringOperator(Str("ends_with"));
  }

  lemma LowerSuffix(s: string, t: string)
    ensures EndsWith(Lower(s), Lower(t)) <==> |t| <= |s| && Lower(s[|s| - |t|..]) == Lower(t)
  {
    var n := |s|;
    if |t| <= n {
      LowerSlice(s, n - |t|, n);
      assert s[n - |t|..] == s[n - |t|..n];
      assert Lower(s)[n - |t|..] == Lower(s)[n - |t|..n];
    }
  }

  /** Lower-casing commutes with slicing. */
  lemma LowerSlice(s: string, i: nat, j: nat)
    requires i <= j <= |s|
    ensures Lower(s)[i..j] == Lower(s[i..j])
  {
    assert forall k :: 0 <= k < j - i ==> s[i..j][k] == s[i + k] && Lower(s)[i..j][k] == Lower(s)[i + k];
    LowerEach(s[i..j], Lower(s)[i..j]);
  }
}
