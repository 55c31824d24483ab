/**
  Values carried by a data record and by the configuration document, and the
  Python built-ins the evaluator applies to them: truthiness, `str()`,
  `str.lower()` and `dict.get`.
 */
module Values {

  datatype Option<+T> = None | Some(value: T) {
    /** `dict.get(key, default)` once the lookup has been done. */
    function GetOr(default: T): T {
      match this
      case Some(v) => v
      case None => default
    }
  }

  /**
    A JSON-shaped value. `Dict` keeps its entries in insertion order, as a
    Python dict does. A `Float` carries its number and the text Python's
    `repr` prints for it; the number-to-text rendering is not modelled.
   */
  datatype Value =
    | Null
    | Bool(b: bool)
    | Int(i: int)
    | Float(x: real, shown: string)
    | Str(s: string)
    | List(items: seq<Value>)
    | Dict(entries: seq<(string, Value)>)

  /** An exception that escapes the workflow engine. */
  datatype Fault = UnhashableField(field: Value)

  datatype Result<+T> = Ok(value: T) | Err(fault: Fault)

  /** The data record threaded through the workflow: an open attribute map. */
  type Record = map<string, Value>

  /** `data.get(key)`: a missing key reads as `None`. */
  function Get(data: Record, key: string): Value {
    if key in data then data[key] else Null
  }

  /** Python truthiness of a value. */
  predicate Truthy(v: Value) {
    match v
    case Null => false
    case Bool(b) => b
    case Int(i) => i != 0
    case Float(x, _) => x != 0.0
    case Str(s) => s != ""
    case List(items) => items != []
    case Dict(entries) => entries != []
  }

  /** `str(v)`: a string is itself, everything else is rendered as its repr. */
  function Show(v: Value): string {
    match v
    case Str(s) => s
    case _ => Repr(v)
  }

  /** `repr(v)` for JSON-shaped values (string escaping is not modelled). */
  function Repr(v: Value): string
    decreases v, 1
  {
    match v
    case Null => "None"
    case Bool(b) => if b then "True" else "False"
    case Int(i) => Decimal(i)
    case Float(_, shown) => shown
    case Str(s) => Quoted(s)
    case List(items) => "[" + ReprItems(v, items) + "]"
    case Dict(entries) => "{" + ReprEntries(v, entries) + "}"
  }

  function ReprItems(ghost parent: Value, items: seq<Value>): string
    requires forall x :: x in items ==> x < parent
    decreases parent, 0, |items|
  {
    if items == [] then ""
    else
      assert items[0] in items;
      var item := Repr(items[0]);
      if |items| == 1 then item
      else
        assert forall x :: x in items[1..] ==> x in items;
        item + ", " + ReprItems(parent, items[1..])
  }

  function ReprEntries(ghost parent: Value, entries: seq<(string, Value)>): string
    requires forall e :: e in entries ==> e.1 < parent
    decreases parent, 0, |entries|
  {
    if entries == [] then ""
    else
      assert entries[0] in entries;
      var entry := Quoted(entries[0].0) + ": " + Repr(entries[0].1);
      if |entries| == 1 then entry
      else
        assert forall e :: e in entries[1..] ==> e in entries;
        entry + ", " + ReprEntries(parent, entries[1..])
  }

  function Quoted(s: string): string {
    "'" + s + "'"
  }

  /** The decimal numeral Python prints for an integer. */
  function Decimal(i: int): (r: string)
    ensures r != []
  {
    if i < 0 then "-" + Digits(-i) else Digits(i)
  }

  function Digits(n: nat): (r: string)
    ensures r != [] && forall k :: 0 <= k < |r| ==> '0' <= r[k] <= '9'
  {
    if n < 10 then [DigitChar(n)] else Digits(n / 10) + [DigitChar(n % 10)]
  }

  function DigitChar(d: nat): (c: char)
    requires d < 10
    ensures '0' <= c <= '9' && c as int - '0' as int == d
  {
    ('0' as int + d) as char
  }

  /** The value a numeral denotes; the inverse of `Digits`. */
  function DigitsValue(s: string): int
    decreases |s|
  {
    if s == [] then 0 else 10 * DigitsValue(s[..|s| - 1]) + (s[|s| - 1] as int - '0' as int)
  }

  /** `str(n)` on an integer can be read back: distinct sizes print differently. */
  lemma {:induction false} DigitsRoundTrip(n: nat)
    ensures DigitsValue(Digits(n)) == n
  {
    if n >= 10 {
      var s := Digits(n);
      assert s[..|s| - 1] == Digits(n / 10);
      DigitsRoundTrip(n / 10);
    }
  }

  /** ASCII stand-in for `str.lower()` on one character. */
  function LowerChar(c: char): char {
    if 'A' <= c <= 'Z' then (c as int - 'A' as int + 'a' as int) as char else c
  }

  /** ASCII stand-in for `str.lower()`. */
  function Lower(s: string): (r: string)
    ensures |r| == |s|
    ensures forall k :: 0 <= k < |s| ==> r[k] == LowerChar(s[k])
  {
    if s == [] then [] else [LowerChar(s[0])] + Lower(s[1..])
  }

  /** `Lower(s)` is the string of the lower-cased characters of `s`. */
  lemma LowerEach(s: string, t: string)
    requires |s| == |t| && forall k :: 0 <= k < |s| ==> LowerChar(s[k]) == t[k]
    ensures Lower(s) == t
  {
  }

  /** Lower-casing twice is lower-casing once. */
  lemma LowerIdempotent(s: string)
    ensures Lower(Lower(s)) == Lower(s)
  {
    assert forall k :: 0 <= k < |s| ==> Lower(Lower(s))[k] == Lower(s)[k];
  }
}
